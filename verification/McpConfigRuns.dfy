/** What wiring a whole configuration promises. */
module McpConfigRuns {
  import opened Options
  import opened Json
  import opened ProxyOptions
  import opened OptionRewrites
  import opened OptionReadBack
  import opened McpWire
  import opened McpWiring
  import opened McpConfig

  lemma WrappedServerAt(root: Json, guard: string, monitor: bool, agent: Option<string>, path: TablePath, name: string)
    ensures IsServer(Wrapped(root, guard, monitor, agent), path, name) <==> IsServer(root, path, name)
    ensures IsServer(root, path, name) ==>
              ServerAt(Wrapped(root, guard, monitor, agent), path, name) ==
              WrapServer(ServerAt(root, path, name), guard, monitor, agent).0
  {
    MappedTable(root, path, Result(Wrapping(guard, monitor, agent)));
  }

  // ---------------------------------------------------------------- the mode

  /** Every wrapper reads in this mode or not at all. */
  ghost predicate OneMode(root: Json, f: Reading, mode: WiringMode) {
    forall path, name :: IsServer(root, path, name) ==>
    f(ServerAt(root, path, name)) in {None, Some(None), Some(Some(mode))}
  }

  ghost predicate AllRead(root: Json, f: Reading) {
    forall path, name :: IsServer(root, path, name) ==> f(ServerAt(root, path, name)) != Some(None)
  }

  lemma ModesAt(root: Json, path: TablePath, f: Reading, mode: WiringMode)
    requires OneMode(root, f, mode)
    ensures ModesIn(TableAt(root, path), f) <= {mode}
    ensures AllRead(root, f) ==> !AnyUnread(TableAt(root, path), f)
    ensures forall name :: IsServer(root, path, name) && f(ServerAt(root, path, name)) == Some(Some(mode)) ==>
            mode in ModesIn(TableAt(root, path), f)
  {
    var table := TableAt(root, path);
    if table.Some? {
      assert forall name :: name in table.value ==>
             IsServer(root, path, name) && ServerAt(root, path, name) == table.value[name];
    }
  }

  lemma ModeOf(root: Json, f: Reading, mode: WiringMode)
    requires mode != Mixed && OneMode(root, f, mode)
    ensures Joined(Modes(root, f)) in {None, Some(mode)}
    ensures AllRead(root, f) ==> !SomeUnread(root, f)
    ensures forall path, name :: IsServer(root, path, name) && f(ServerAt(root, path, name)) == Some(Some(mode)) ==>
            Joined(Modes(root, f)) == Some(mode)
  {
    ModesAt(root, McpServers, f, mode);
    ModesAt(root, Servers, f, mode);
    ModesAt(root, McpDotServers, f, mode);
    assert Modes(root, f) <= {mode};
    assert Modes(root, f) == {} || Modes(root, f) == {mode};
    forall path, name | IsServer(root, path, name) && f(ServerAt(root, path, name)) == Some(Some(mode))
      ensures mode in Modes(root, f)
    {
      ModesAt(root, path, f, mode);
    }
  }

  predicate HasSeparator(server: Json) {
    WrapperSeparator(server).Some?
  }

  /** Whatever the configuration held: after wrapping, the mode it reads in is
      the one asked for or none, never another and never mixed. */
  lemma WrappedReadsAsRequested(root: Json, guard: string, monitor: bool, agent: Option<string>)
    ensures GuardedMode(Wrapped(root, guard, monitor, agent)) in {None, Some(Requested(monitor))}
  {
    WrappedHasOneMode(root, guard, monitor, agent);
    ModeOf(Wrapped(root, guard, monitor, agent), AsReading(), Requested(monitor));
  }

  lemma WrappedHasOneMode(root: Json, guard: string, monitor: bool, agent: Option<string>)
    ensures OneMode(Wrapped(root, guard, monitor, agent), AsReading(), Requested(monitor))
  {
    var after := Wrapped(root, guard, monitor, agent);
    forall path, name | IsServer(after, path, name)
      ensures AsReading()(ServerAt(after, path, name)) in {None, Some(None), Some(Some(Requested(monitor)))}
    {
      WrappedServerAt(root, guard, monitor, agent, path, name);
      NeverAnotherMode(ServerAt(root, path, name), guard, monitor, agent);
    }
  }

  ghost predicate AllPlain(root: Json) {
    forall path, name :: IsServer(root, path, name) && IsStdio(ServerAt(root, path, name)) ==>
      var server := ServerAt(root, path, name);
      !HasProxyPrefix(server) || (IsWrapped(server) && ModeFreeValues(WrapperOptions(server)))
  }

  lemma WrapKeepsRemote(server: Json, guard: string, monitor: bool, agent: Option<string>)
    requires !IsStdio(server)
    ensures WrapServer(server, guard, monitor, agent) == (server, false)
  {
  }

  lemma SeparatorMeansStdio(server: Json)
    requires HasSeparator(server)
    ensures IsStdio(server)
  {
    GuardNotBlank(Command(server).value);
  }

  lemma PlainServerEndsGuarded(server: Json, guard: string, monitor: bool, agent: Option<string>)
    requires IsGuardCommand(guard)
    requires IsStdio(server) && HasProxyPrefix(server) ==> IsWrapped(server) && ModeFreeValues(WrapperOptions(server))
    ensures var s := WrapServer(server, guard, monitor, agent).0;
            && (IsStdio(s) <==> IsStdio(server))
            && WrapperMode(s) == (if IsStdio(server) then Some(Some(Requested(monitor))) else None)
            && (IsStdio(s) ==> IsWrapped(s))
  {
    if IsStdio(server) {
      PlainServersSettle(server, guard, monitor, agent);
      WrappedServer(server, guard, monitor, agent);
    } else {
      WrapKeepsRemote(server, guard, monitor, agent);
      if HasSeparator(server) { SeparatorMeansStdio(server); }
    }
  }

  /** What wrapping does to one server, told through the three tests that the
      reading of a configuration uses. */
  ghost predicate EndsAs(before: Json, after: Json, p: Json -> bool, q: Json -> bool, r: Reading, mode: WiringMode) {
    && (p(after) <==> p(before))
    && (p(after) ==> q(after))
    && r(after) == (if p(before) then Some(Some(mode)) else None)
  }

  lemma TableEndsIn(root: Json, after: Json, p: Json -> bool, q: Json -> bool, r: Reading, mode: WiringMode)
    requires mode != Mixed
    requires forall path, name :: IsServer(after, path, name) <==> IsServer(root, path, name)
    requires forall path, name :: IsServer(root, path, name) ==>
             EndsAs(ServerAt(root, path, name), ServerAt(after, path, name), p, q, r, mode)
    requires exists path, name :: IsServer(root, path, name) && p(ServerAt(root, path, name))
    ensures GuardedBy(after, p, q)
    ensures !SomeUnread(after, r) && Joined(Modes(after, r)) == Some(mode)
  {
    ModeOf(after, r, mode);
    var path, name :| IsServer(root, path, name) && p(ServerAt(root, path, name));
    assert IsServer(after, path, name) &&
           EndsAs(ServerAt(root, path, name), ServerAt(after, path, name), p, q, r, mode);
  }

  lemma PlainServerEndsAs(server: Json, guard: string, monitor: bool, agent: Option<string>)
    requires IsGuardCommand(guard)
    requires IsStdio(server) && HasProxyPrefix(server) ==> IsWrapped(server) && ModeFreeValues(WrapperOptions(server))
    ensures EndsAs(server, WrapServer(server, guard, monitor, agent).0, StdioTest(), WrappedTest(), AsReading(),
                   Requested(monitor))
  {
    PlainServerEndsGuarded(server, guard, monitor, agent);
  }

  lemma PlainServerAt(root: Json, guard: string, monitor: bool, agent: Option<string>, path: TablePath, name: string)
    requires IsGuardCommand(guard) && AllPlain(root) && IsServer(root, path, name)
    ensures IsServer(Wrapped(root, guard, monitor, agent), path, name)
    ensures EndsAs(ServerAt(root, path, name), ServerAt(Wrapped(root, guard, monitor, agent), path, name),
                   StdioTest(), WrappedTest(), AsReading(), Requested(monitor))
  {
    WrappedServerAt(root, guard, monitor, agent, path, name);
    PlainServerEndsAs(ServerAt(root, path, name), guard, monitor, agent);
  }

  lemma GuardedByTests(root: Json)
    ensures GuardedBy(root, StdioTest(), WrappedTest()) <==> IsGuarded(root)
  {
  }

  /** A configuration of fresh servers, and of wrappers that read and whose
      values do not look like modes, ends guarded in the mode asked for. */
  lemma PlainConfigEndsGuarded(root: Json, guard: string, monitor: bool, agent: Option<string>)
    requires IsGuardCommand(guard) && AllPlain(root)
    requires exists path, name :: IsServer(root, path, name) && IsStdio(ServerAt(root, path, name))
    ensures IsGuarded(Wrapped(root, guard, monitor, agent))
    ensures GuardedMode(Wrapped(root, guard, monitor, agent)) == Some(Requested(monitor))
  {
    var after := Wrapped(root, guard, monitor, agent);
    forall path, name
      ensures IsServer(after, path, name) <==> IsServer(root, path, name)
    {
      WrappedServerAt(root, guard, monitor, agent, path, name);
    }
    forall path, name | IsServer(root, path, name)
      ensures EndsAs(ServerAt(root, path, name), ServerAt(after, path, name), StdioTest(), WrappedTest(), AsReading(),
                     Requested(monitor))
    {
      PlainServerAt(root, guard, monitor, agent, path, name);
    }
    var path, name :| IsServer(root, path, name) && IsStdio(ServerAt(root, path, name));
    assert StdioTest()(ServerAt(root, path, name));
    TableEndsIn(root, after, StdioTest(), WrappedTest(), AsReading(), Requested(monitor));
    GuardedByTests(after);
  }

  // ---------------------------------------------------------- wrapping again

  function SettlesFor(agent: Option<string>): Json -> bool {
    s => Settles(s, agent)
  }

  lemma SettlesIs(agent: Option<string>, server: Json)
    ensures SettlesFor(agent)(server) == Settles(server, agent)
  {
  }

  /** Editing with `f` and then `g` leaves what `g` alone leaves, or does not. */
  predicate Absorbs(f: Json -> (Json, bool), g: Json -> (Json, bool), server: Json, settles: bool) {
    (g(f(server).0).0 == g(server).0) == settles
  }

  lemma AbsorbsAll(root: Json, f: Json -> (Json, bool), g: Json -> (Json, bool), settles: Json -> bool)
    requires forall server :: Absorbs(f, g, server, settles(server))
    ensures MapServers(MapServers(root, Result(f)), Result(g)) == MapServers(root, Result(g)) <==>
            forall path, name :: IsServer(root, path, name) ==> settles(ServerAt(root, path, name))
  {
    assert forall server :: Absorbs(f, g, server, settles(server)) ==>
                              (Result(g)(Result(f)(server)) == Result(g)(server) <==> settles(server));
    ComposeExactly(root, Result(f), Result(g), Result(g), settles);
  }

  lemma SwitchingServer(server: Json, guard: string, first: bool, second: bool, agent: Option<string>)
    requires IsGuardCommand(guard)
    ensures Absorbs(Wrapping(guard, first, agent), Wrapping(guard, second, agent), server, SettlesFor(agent)(server))
  {
    SwitchingMode(server, guard, first, second, agent);
    SettlesIs(agent, server);
  }

  lemma SwitchingMap(root: Json, guard: string, first: bool, second: bool, agent: Option<string>)
    requires IsGuardCommand(guard)
    ensures Wrapped(Wrapped(root, guard, first, agent), guard, second, agent) ==
            Wrapped(root, guard, second, agent) <==>
            forall path, name :: IsServer(root, path, name) ==> SettlesFor(agent)(ServerAt(root, path, name))
  {
    var f, g := Wrapping(guard, first, agent), Wrapping(guard, second, agent);
    forall server
      ensures Absorbs(f, g, server, SettlesFor(agent)(server))
    {
      SwitchingServer(server, guard, first, second, agent);
    }
    AbsorbsAll(root, f, g, SettlesFor(agent));
  }

  /** Wrapping again, in the same mode or another, gives what wrapping afresh in
      that mode gives, exactly when every server settles. */
  lemma SwitchingModes(root: Json, guard: string, first: bool, second: bool, agent: Option<string>)
    requires IsGuardCommand(guard)
    ensures Wrapped(Wrapped(root, guard, first, agent), guard, second, agent) ==
            Wrapped(root, guard, second, agent) <==>
            forall path, name :: IsServer(root, path, name) ==> Settles(ServerAt(root, path, name), agent)
  {
    SwitchingMap(root, guard, first, second, agent);
    forall path, name | IsServer(root, path, name)
      ensures SettlesFor(agent)(ServerAt(root, path, name)) <==> Settles(ServerAt(root, path, name), agent)
    {
      SettlesIs(agent, ServerAt(root, path, name));
    }
  }

  // ------------------------------------------------------------- unwrapping

  function Restoring(): Json -> Json {
    s => Restored(s)
  }

  /** Unwrapping a wrapped configuration restores every server: one that was not
      a wrapper to what it was, one that was to what unwrapping alone gives. */
  lemma UnwrappingRestores(root: Json, guard: string, monitor: bool, agent: Option<string>)
    requires IsGuardCommand(guard)
    ensures Unwrapped(Wrapped(root, guard, monitor, agent)) == MapServers(root, Restoring())
  {
    var f, g := Result(Wrapping(guard, monitor, agent)), Result(Unwrapping());
    forall server
      ensures g(f(server)) == Restoring()(server)
    {
      UnwrapAfterWrap(server, guard, monitor, agent);
    }
    ComposeExactly(root, f, g, Restoring(), _ => true);
  }

  lemma MapIdentity(root: Json)
    ensures MapServers(root, s => s) == root
  {
    if root.Obj? {
      forall key | key in root.fields
        ensures MapValue(root.fields[key], s => s) == root.fields[key]
        ensures MapMcp(root.fields[key], s => s) == root.fields[key]
      {
        ValueIdentity(root.fields[key]);
      }
      assert MapServers(root, s => s).fields == root.fields;
    }
  }

  lemma ValueIdentity(value: Json)
    ensures MapValue(value, s => s) == value && MapMcp(value, s => s) == value
  {
    if value.Obj? {
      assert MapTable(value.fields, s => s) == value.fields;
      if "servers" in value.fields && value.fields["servers"].Obj? {
        assert MapTable(value.fields["servers"].fields, s => s) == value.fields["servers"].fields;
      }
      assert MapMcp(value, s => s).fields == value.fields;
    }
  }

  predicate GivenBack(server: Json) {
    PlanFor(server).None? || GetArr(server, "args").Some?
  }

  lemma ExactlyWhen(root: Json, f: Json -> Json, g: Json -> Json, same: Json -> bool)
    requires forall path, name :: IsServer(root, path, name) ==>
               (f(ServerAt(root, path, name)) == g(ServerAt(root, path, name)) <==> same(ServerAt(root, path, name)))
    ensures MapServers(root, f) == MapServers(root, g) <==>
            forall path, name :: IsServer(root, path, name) ==> same(ServerAt(root, path, name))
  {
    SameMapExactly(root, f, g);
  }

  /** A configuration none of whose servers is a wrapper is given back exactly,
      when each server wiring touches has its arguments in an array. */
  lemma UnwrappingGivesBack(root: Json, guard: string, monitor: bool, agent: Option<string>)
    requires IsGuardCommand(guard)
    requires forall path, name :: IsServer(root, path, name) ==> !HasSeparator(ServerAt(root, path, name))
    ensures Unwrapped(Wrapped(root, guard, monitor, agent)) == root <==>
            forall path, name :: IsServer(root, path, name) ==> GivenBack(ServerAt(root, path, name))
  {
    UnwrappingRestores(root, guard, monitor, agent);
    RestoringIsIdentity(root);
  }

  function GivenBackTest(): Json -> bool {
    s => GivenBack(s)
  }

  lemma RestoringIsIdentity(root: Json)
    requires forall path, name :: IsServer(root, path, name) ==> !HasSeparator(ServerAt(root, path, name))
    ensures MapServers(root, Restoring()) == root <==>
            forall path, name :: IsServer(root, path, name) ==> GivenBack(ServerAt(root, path, name))
  {
    MapIdentity(root);
    forall path, name | IsServer(root, path, name)
      ensures Restoring()(ServerAt(root, path, name)) == (s => s)(ServerAt(root, path, name)) <==>
              GivenBackTest()(ServerAt(root, path, name))
    {
      RestoredWhenGivenBack(ServerAt(root, path, name));
    }
    ExactlyWhen(root, Restoring(), s => s, GivenBackTest());
    assert forall server :: GivenBackTest()(server) <==> GivenBack(server);
  }

  lemma RestoredWhenGivenBack(server: Json)
    requires !HasSeparator(server)
    ensures Restored(server) == server <==> GivenBack(server)
  {
    RestoredAsItWas(server);
  }

  // --------------------------------------------------------- the missing name

  /** Some wrapper's proxy records another agent, or none. */
  ghost predicate SomeUnnamed(root: Json, agent: string) {
    exists path, name :: IsServer(root, path, name) && Unnamed(ServerAt(root, path, name), agent)
  }

  predicate Unnamed(server: Json, agent: string) {
    HasSeparator(server) && ProxyAgent(WrapperOptions(server)) != Some(agent)
  }

  /** The mode in which reconnecting with this agent's name is offered. */
  ghost function UnnamedReconnect(root: Json, guard: string, agent: string): Option<bool> {
    if !IsWrapperName(agent) || !IsGuarded(root) then None
    else
      match GuardedMode(root)
      case None => None
      case Some(Mixed) => None
      case Some(mode) =>
        var monitor := mode == Monitor;
        if SomeUnnamed(root, agent) && Changed(root, Wrapping(guard, monitor, None)) == 0 then Some(monitor) else None
  }

  lemma NoneChanged(root: Json, f: Json -> (Json, bool), path: TablePath, name: string)
    requires Changed(root, f) == 0 && IsServer(root, path, name)
    ensures !f(ServerAt(root, path, name)).1
  {
    var table := TableAt(root, path);
    assert ChangedIn(table, f) == 0;
    var changed := set name | name in table.value && f(table.value[name]).1;
    assert |changed| == 0;
    assert name !in changed;
  }

  lemma WrappedHasPlan(server: Json)
    requires IsWrapped(server)
    ensures PlanFor(server).Some?
  {
    SeparatorMeansStdio(server);
    var i := WrapperSeparator(server).value;
    var child := Args(server)[i + 1];
    assert child.Str? && child.s != "";
  }

  /** What taking up the offer does to one server. */
  lemma OfferedServer(root: Json, guard: string, agent: string, path: TablePath, name: string)
    requires UnnamedReconnect(root, guard, agent).Some? && IsServer(root, path, name)
    ensures var monitor := UnnamedReconnect(root, guard, agent).value;
            var server := ServerAt(root, path, name);
            var after := WrapServer(server, guard, monitor, Some(agent)).0;
            if IsStdio(server) then OnlyNamed(server, after, monitor, agent)
            else after == server && !HasSeparator(after)
  {
    var monitor := UnnamedReconnect(root, guard, agent).value;
    var server := ServerAt(root, path, name);
    if IsStdio(server) {
      assert IsWrapped(server);
      WrappedHasPlan(server);
      NoneChanged(root, Wrapping(guard, monitor, None), path, name);
      ReconnectOnlyNames(server, guard, monitor, agent);
    } else {
      WrapKeepsRemote(server, guard, monitor, Some(agent));
      if HasSeparator(server) { SeparatorMeansStdio(server); }
    }
  }

  lemma OfferedIsNamed(root: Json, guard: string, agent: string, path: TablePath, name: string)
    requires UnnamedReconnect(root, guard, agent).Some? && IsServer(root, path, name)
    ensures !Unnamed(WrapServer(ServerAt(root, path, name), guard, UnnamedReconnect(root, guard, agent).value,
                                Some(agent)).0, agent)
  {
    OfferedServer(root, guard, agent, path, name);
  }

  /** The named configuration, server by server. */
  ghost predicate OnlyNames(root: Json, after: Json, monitor: bool, agent: string) {
    && (forall path, name :: IsServer(after, path, name) <==> IsServer(root, path, name))
    && (forall path, name :: IsServer(root, path, name) ==>
          if IsStdio(ServerAt(root, path, name))
          then OnlyNamed(ServerAt(root, path, name), ServerAt(after, path, name), monitor, agent)
          else ServerAt(after, path, name) == ServerAt(root, path, name))
  }

  lemma NothingLeftUnnamed(root: Json, guard: string, agent: string)
    requires UnnamedReconnect(root, guard, agent).Some?
    ensures !SomeUnnamed(Wrapped(root, guard, UnnamedReconnect(root, guard, agent).value, Some(agent)), agent)
  {
    var monitor := UnnamedReconnect(root, guard, agent).value;
    var after := Wrapped(root, guard, monitor, Some(agent));
    forall path, name | IsServer(after, path, name)
      ensures !Unnamed(ServerAt(after, path, name), agent)
    {
      WrappedServerAt(root, guard, monitor, Some(agent), path, name);
      OfferedIsNamed(root, guard, agent, path, name);
    }
  }

  /** Reconnecting as offered only names: every server keeps its program, mode
      and child, no option is lost but old agents, none gained but the name, and
      afterwards nothing is left to offer. */
  lemma TakingTheOffer(root: Json, guard: string, agent: string)
    requires UnnamedReconnect(root, guard, agent).Some?
    ensures var monitor := UnnamedReconnect(root, guard, agent).value;
            var after := Wrapped(root, guard, monitor, Some(agent));
            OnlyNames(root, after, monitor, agent) && UnnamedReconnect(after, guard, agent) == None
  {
    var monitor := UnnamedReconnect(root, guard, agent).value;
    var after := Wrapped(root, guard, monitor, Some(agent));
    forall path, name
      ensures IsServer(after, path, name) <==> IsServer(root, path, name)
    {
      WrappedServerAt(root, guard, monitor, Some(agent), path, name);
    }
    forall path, name | IsServer(root, path, name)
      ensures if IsStdio(ServerAt(root, path, name))
              then OnlyNamed(ServerAt(root, path, name), ServerAt(after, path, name), monitor, agent)
              else ServerAt(after, path, name) == ServerAt(root, path, name)
    {
      WrappedServerAt(root, guard, monitor, Some(agent), path, name);
      OfferedServer(root, guard, agent, path, name);
    }
    NothingLeftUnnamed(root, guard, agent);
  }
}
