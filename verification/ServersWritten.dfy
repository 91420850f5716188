/** What wiring writes for a server, word by word, and which mode a
    configuration reads in, server by server. */
module ServersWritten {
  import opened Options
  import opened Text
  import opened Json
  import opened ProxyOptions
  import opened OptionRewrites
  import opened OptionReadBack
  import opened OptionWords
  import opened McpWire
  import opened McpWiring
  import opened McpConfig
  import opened McpConfigRuns
  import Toml = McpWireToml
  import Document = McpTomlConfig

  // ---------------------------------------------------------- a fresh server

  function ModeWords(monitor: bool): seq<Json> {
    [Str("--mode"), Str(if monitor then "advisory" else "guard")]
  }

  function NameWords(agent: string): seq<Json> {
    [Str("--label"), Str(agent), Str("--agent"), Str(agent)]
  }

  lemma ModeWordsAre(monitor: bool)
    ensures ModeUnit(monitor) == ModeWords(monitor)
  {
  }

  lemma NamedNothing(agent: Option<string>)
    ensures Named([], agent) == if agent.Some? && IsWrapperName(agent.value) then NameWords(agent.value) else []
  {
    if agent.Some? && IsWrapperName(agent.value) {
      NamesTheUnnamed(agent.value);
    }
  }

  /** A server that is not behind the proxy is put behind it: the proxy's program,
      the agent's name as label and as agent if it is a plain id, the mode, and
      the program with the arguments it had. Its other fields stay. */
  lemma FreshWrapped(server: Json, guard: string, monitor: bool, agent: Option<string>)
    requires GetStr(server, "command").Some? && !IsBlank(GetStr(server, "command").value)
    requires !HasProxyPrefix(server)
    ensures var names := if agent.Some? && IsWrapperName(agent.value) then NameWords(agent.value) else [];
            var args := [Str("proxy")] + (names + ModeWords(monitor)) +
                        [Str("--"), Str(GetStr(server, "command").value)] +
                        (if GetArr(server, "args").Some? then GetArr(server, "args").value else []);
            WrapServer(server, guard, monitor, agent).0 ==
            With(With(server, "command", Str(guard)), "args", Arr(args))
  {
    NamedNothing(agent);
    ModeWordsAre(monitor);
    var args := WrappedArgs(Named([], agent) + ModeUnit(monitor), Command(server).value, Args(server));
    assert |args| > |Args(server)|;
  }

  // -------------------------------------------------------- a wrapper's mode

  /** A wrapper counts exactly when its options read and its child is not blank,
      and it refuses what is denied exactly when they say so. */
  lemma WrapperModeExactly(server: Json, options: seq<Json>, child: string, rest: seq<Json>)
    requires GetStr(server, "command").Some? && IsGuardCommand(GetStr(server, "command").value)
    requires GetArr(server, "args") == Some([Str("proxy")] + options + [Str("--"), Str(child)] + rest)
    requires Str("--") !in options
    ensures IsWrapped(server) <==> WrapperBlocks(options).Some? && !IsBlank(child)
    ensures IsWrapped(server) ==> ServerMode(server) == Some(if WrapperBlocks(options).value then Enforce else Monitor)
  {
    WrapperReads(server, options, child, rest);
  }

  // ------------------------------------------------------ a configuration's mode

  ghost predicate SomeServer(root: Json, p: Json -> bool) {
    exists path, name :: IsServer(root, path, name) && p(ServerAt(root, path, name))
  }

  function InMode(mode: WiringMode): Json -> bool {
    server => WrapperSeparator(server).Some? && ServerMode(server) == Some(mode)
  }

  function Unread(): Json -> bool {
    server => WrapperSeparator(server).Some? && ServerMode(server).None?
  }

  ghost predicate InTable(table: Option<Table>, p: Json -> bool) {
    table.Some? && exists name :: name in table.value && p(table.value[name])
  }

  lemma ByTable(root: Json, p: Json -> bool)
    ensures SomeServer(root, p) <==>
            || InTable(TableAt(root, McpServers), p) || InTable(TableAt(root, Servers), p)
            || InTable(TableAt(root, McpDotServers), p)
  {
    forall path, name | IsServer(root, path, name) && p(ServerAt(root, path, name))
      ensures InTable(TableAt(root, path), p)
    {
    }
    forall path | InTable(TableAt(root, path), p)
      ensures SomeServer(root, p)
    {
      InOneTable(root, path, p);
    }
  }

  lemma InOneTable(root: Json, path: TablePath, p: Json -> bool)
    requires InTable(TableAt(root, path), p)
    ensures SomeServer(root, p)
  {
    var name :| name in TableAt(root, path).value && p(TableAt(root, path).value[name]);
    assert IsServer(root, path, name) && p(ServerAt(root, path, name));
  }

  lemma ModeInTable(table: Option<Table>, f: Reading, mode: WiringMode, p: Json -> bool)
    requires forall s :: f(s) == Some(Some(mode)) <==> p(s)
    ensures mode in ModesIn(table, f) <==> InTable(table, p)
  {
  }

  lemma UnreadInTable(table: Option<Table>, f: Reading, p: Json -> bool)
    requires forall s :: f(s) == Some(None) <==> p(s)
    ensures AnyUnread(table, f) <==> InTable(table, p)
  {
  }

  lemma ModeIsSeen(root: Json, mode: WiringMode)
    ensures mode in Modes(root, AsReading()) <==> SomeServer(root, InMode(mode))
  {
    ByTable(root, InMode(mode));
    forall path
      ensures mode in ModesIn(TableAt(root, path), AsReading()) <==> InTable(TableAt(root, path), InMode(mode))
    {
      ModeInTable(TableAt(root, path), AsReading(), mode, InMode(mode));
    }
  }

  lemma UnreadIsSeen(root: Json)
    ensures SomeUnread(root, AsReading()) <==> SomeServer(root, Unread())
  {
    ByTable(root, Unread());
    forall path
      ensures AnyUnread(TableAt(root, path), AsReading()) <==> InTable(TableAt(root, path), Unread())
    {
      UnreadInTable(TableAt(root, path), AsReading(), Unread());
    }
  }

  lemma JoinedExactly(modes: set<WiringMode>)
    requires Mixed !in modes
    ensures Joined(modes) == Some(Mixed) <==> Monitor in modes && Enforce in modes
    ensures Joined(modes) == Some(Monitor) <==> Monitor in modes && Enforce !in modes
    ensures Joined(modes) == Some(Enforce) <==> Enforce in modes && Monitor !in modes
  {
    assert forall m :: m in modes ==> m == Monitor || m == Enforce;
  }

  /** A configuration is mixed exactly when one wrapper records and another
      refuses, and in one mode exactly when some wrapper is in that mode and none
      in the other; a wrapper that does not read leaves it without a mode. */
  lemma GuardedModeExactly(root: Json)
    ensures SomeServer(root, Unread()) ==> GuardedMode(root).None?
    ensures !SomeServer(root, Unread()) ==>
              && (GuardedMode(root) == Some(Mixed) <==>
                    SomeServer(root, InMode(Monitor)) && SomeServer(root, InMode(Enforce)))
              && (GuardedMode(root) == Some(Monitor) <==>
                    SomeServer(root, InMode(Monitor)) && !SomeServer(root, InMode(Enforce)))
              && (GuardedMode(root) == Some(Enforce) <==>
                    SomeServer(root, InMode(Enforce)) && !SomeServer(root, InMode(Monitor)))
  {
    UnreadIsSeen(root);
    ModeIsSeen(root, Monitor);
    ModeIsSeen(root, Enforce);
    NeverMixed(root);
    JoinedExactly(Modes(root, AsReading()));
  }

  lemma NeverMixed(root: Json)
    ensures Mixed !in Modes(root, AsReading())
  {
    forall path
      ensures Mixed !in ModesIn(TableAt(root, path), AsReading())
    {
      NoneMixed(TableAt(root, path), AsReading());
    }
  }

  lemma NoneMixed(table: Option<Table>, f: Reading)
    requires forall s :: f(s) != Some(Some(Mixed))
    ensures Mixed !in ModesIn(table, f)
  {
  }

  /** The servers a configuration holds are the fields of these three objects. */
  lemma ServersByKey(root: Json, name: string)
    ensures IsServer(root, McpServers, name) <==>
            Get(root, "mcpServers").Some? && Get(Get(root, "mcpServers").value, name).Some?
    ensures IsServer(root, Servers, name) <==>
            Get(root, "servers").Some? && Get(Get(root, "servers").value, name).Some?
    ensures IsServer(root, McpDotServers, name) <==>
            && Get(root, "mcp").Some? && Get(Get(root, "mcp").value, "servers").Some?
            && Get(Get(Get(root, "mcp").value, "servers").value, name).Some?
  {
  }

  // ---------------------------------------------------------- what is offered

  /** Some server is stdio, and every one of those runs in this mode. */
  ghost predicate AllIn(root: Json, mode: WiringMode) {
    && (exists path, name :: IsServer(root, path, name) && IsStdio(ServerAt(root, path, name)))
    && (forall path, name :: IsServer(root, path, name) && IsStdio(ServerAt(root, path, name)) ==>
                               ServerMode(ServerAt(root, path, name)) == Some(mode))
  }

  lemma WrapperIn(root: Json, mode: WiringMode, path: TablePath, name: string)
    requires AllIn(root, mode) && IsServer(root, path, name) && HasSeparator(ServerAt(root, path, name))
    ensures ServerMode(ServerAt(root, path, name)) == Some(mode)
  {
    SeparatorMeansStdio(ServerAt(root, path, name));
  }

  lemma NoOther(root: Json, mode: WiringMode, other: WiringMode)
    requires AllIn(root, mode) && other != mode
    ensures !SomeServer(root, InMode(other)) && !SomeServer(root, Unread())
  {
    forall path, name | IsServer(root, path, name) && HasSeparator(ServerAt(root, path, name))
      ensures ServerMode(ServerAt(root, path, name)) == Some(mode)
    {
      WrapperIn(root, mode, path, name);
    }
    assert forall path, name :: IsServer(root, path, name) ==> !InMode(other)(ServerAt(root, path, name));
    assert forall path, name :: IsServer(root, path, name) ==> !Unread()(ServerAt(root, path, name));
  }

  lemma SomeIn(root: Json, mode: WiringMode)
    requires AllIn(root, mode)
    ensures IsGuarded(root) && SomeServer(root, InMode(mode))
  {
    var path, name :| IsServer(root, path, name) && IsStdio(ServerAt(root, path, name));
    InOneServer(root, mode, path, name);
  }

  lemma InOneServer(root: Json, mode: WiringMode, path: TablePath, name: string)
    requires IsServer(root, path, name) && ServerMode(ServerAt(root, path, name)) == Some(mode)
    ensures SomeServer(root, InMode(mode))
  {
    assert InMode(mode)(ServerAt(root, path, name));
  }

  lemma SeenAllIn(root: Json, mode: WiringMode)
    requires IsGuarded(root) && forall other :: SomeServer(root, InMode(other)) ==> other == mode
    ensures AllIn(root, mode)
  {
    forall path, name | IsServer(root, path, name) && IsStdio(ServerAt(root, path, name))
      ensures ServerMode(ServerAt(root, path, name)) == Some(mode)
    {
      var server := ServerAt(root, path, name);
      assert IsWrapped(server);
      assert InMode(ServerMode(server).value)(server);
    }
  }

  lemma NotMixed(server: Json)
    ensures ServerMode(server) != Some(Mixed)
  {
  }

  lemma NoneInMixed(root: Json)
    ensures !SomeServer(root, InMode(Mixed))
  {
    forall path, name | IsServer(root, path, name)
      ensures !InMode(Mixed)(ServerAt(root, path, name))
    {
      NotMixed(ServerAt(root, path, name));
    }
  }

  lemma AllThenGuarded(root: Json, mode: WiringMode)
    requires (mode == Monitor || mode == Enforce) && AllIn(root, mode)
    ensures IsGuarded(root) && GuardedMode(root) == Some(mode)
  {
    GuardedModeExactly(root);
    SomeIn(root, mode);
    NoOther(root, mode, if mode == Monitor then Enforce else Monitor);
  }

  lemma OneModeSeen(root: Json, mode: WiringMode, other: WiringMode)
    requires (mode == Monitor || mode == Enforce) && GuardedMode(root) == Some(mode)
    ensures SomeServer(root, InMode(other)) ==> other == mode
  {
    GuardedModeExactly(root);
    NoneInMixed(root);
  }

  lemma GuardedInOneMode(root: Json, mode: WiringMode)
    requires mode == Monitor || mode == Enforce
    ensures IsGuarded(root) && GuardedMode(root) == Some(mode) <==> AllIn(root, mode)
  {
    if AllIn(root, mode) {
      AllThenGuarded(root, mode);
    } else if IsGuarded(root) && GuardedMode(root) == Some(mode) {
      forall other
        ensures SomeServer(root, InMode(other)) ==> other == mode
      {
        OneModeSeen(root, mode, other);
      }
      SeenAllIn(root, mode);
    }
  }

  lemma UnchangedIn(table: Option<Table>, f: Json -> (Json, bool))
    ensures ChangedIn(table, f) == 0 <==>
            (table.Some? ==> forall name :: name in table.value ==> !f(table.value[name]).1)
  {
    if table.Some? {
      var changed := set name | name in table.value && f(table.value[name]).1;
      assert |changed| == 0 ==> changed == {};
      assert forall name :: name in table.value && f(table.value[name]).1 ==> name in changed;
    }
  }

  lemma UnchangedExactly(root: Json, f: Json -> (Json, bool))
    ensures Changed(root, f) == 0 <==>
            forall path, name :: IsServer(root, path, name) ==> !f(ServerAt(root, path, name)).1
  {
    UnchangedIn(TableAt(root, McpServers), f);
    UnchangedIn(TableAt(root, Servers), f);
    UnchangedIn(TableAt(root, McpDotServers), f);
    if forall path, name :: IsServer(root, path, name) ==> !f(ServerAt(root, path, name)).1 {
      forall path
        ensures ChangedIn(TableAt(root, path), f) == 0
      {
        UnchangedIn(TableAt(root, path), f);
        forall name | TableAt(root, path).Some? && name in TableAt(root, path).value
          ensures !f(TableAt(root, path).value[name]).1
        {
          assert IsServer(root, path, name);
        }
      }
    }
    forall path, name | Changed(root, f) == 0 && IsServer(root, path, name)
      ensures !f(ServerAt(root, path, name)).1
    {
      NoneChanged(root, f, path, name);
    }
  }

  /** The reconnect that names an agent is offered exactly when every stdio server
      runs in one mode, some proxy records another agent or none, and wiring
      without a name would change nothing. */
  lemma OfferedExactly(root: Json, guard: string, agent: string, monitor: bool)
    ensures UnnamedReconnect(root, guard, agent) == Some(monitor) <==>
            && IsAgentId(agent) && !("-" <= agent)
            && AllIn(root, if monitor then Monitor else Enforce)
            && (exists path, name :: IsServer(root, path, name) && HasSeparator(ServerAt(root, path, name)) &&
                                     ProxyAgent(WrapperOptions(ServerAt(root, path, name))) != Some(agent))
            && forall path, name :: IsServer(root, path, name) ==>
                                      !WrapServer(ServerAt(root, path, name), guard, monitor, None).1
  {
    ReconnectWhen(root, guard, agent, monitor);
    PlainName(agent);
    GuardedInOneMode(root, if monitor then Monitor else Enforce);
    UnnamedExactly(root, agent);
    NothingWrapped(root, guard, monitor);
  }

  lemma ReconnectWhen(root: Json, guard: string, agent: string, monitor: bool)
    ensures UnnamedReconnect(root, guard, agent) == Some(monitor) <==>
            && IsWrapperName(agent)
            && IsGuarded(root) && GuardedMode(root) == Some(if monitor then Monitor else Enforce)
            && SomeUnnamed(root, agent) && Changed(root, Wrapping(guard, monitor, None)) == 0
  {
  }

  lemma PlainName(agent: string)
    ensures IsWrapperName(agent) <==> IsAgentId(agent) && !("-" <= agent)
  {
  }

  lemma NothingWrapped(root: Json, guard: string, monitor: bool)
    ensures Changed(root, Wrapping(guard, monitor, None)) == 0 <==>
            forall path, name :: IsServer(root, path, name) ==>
                                   !WrapServer(ServerAt(root, path, name), guard, monitor, None).1
  {
    var f := Wrapping(guard, monitor, None);
    assert forall s :: f(s) == WrapServer(s, guard, monitor, None);
    UnchangedExactly(root, f);
  }

  lemma UnnamedExactly(root: Json, agent: string)
    ensures SomeUnnamed(root, agent) <==>
            exists path, name :: IsServer(root, path, name) && HasSeparator(ServerAt(root, path, name)) &&
                                 ProxyAgent(WrapperOptions(ServerAt(root, path, name))) != Some(agent)
  {
    forall path, name | IsServer(root, path, name)
      ensures Unnamed(ServerAt(root, path, name), agent) <==>
              HasSeparator(ServerAt(root, path, name)) &&
              ProxyAgent(WrapperOptions(ServerAt(root, path, name))) != Some(agent)
    {
    }
  }

  // --------------------------------------------------------- the same in TOML

  /** Some table is stdio, and every one of those runs in this mode. */
  ghost predicate AllInToml(keys: Document.Keys, mode: WiringMode) {
    && (exists name :: Document.IsSection(keys, name) && Toml.IsStdioIn(Document.SectionAt(keys, name)))
    && (forall name :: Document.IsSection(keys, name) && Toml.IsStdioIn(Document.SectionAt(keys, name)) ==>
                         Toml.ModeIn(Document.SectionAt(keys, name)) == Some(mode))
  }

  lemma SectionAs(keys: Document.Keys, name: string)
    ensures Document.IsSection(keys, name) <==> IsServer(Document.EraseKeys(keys), McpServers, name)
    ensures Document.IsSection(keys, name) ==>
              var (table, server) :=
                (Document.SectionAt(keys, name), ServerAt(Document.EraseKeys(keys), McpServers, name));
              Toml.IsStdioIn(table) == IsStdio(server) && Toml.ModeIn(table) == ServerMode(server)
  {
    Document.SectionErased(keys, name);
    if Document.IsSection(keys, name) {
      Toml.ModeErased(Document.SectionAt(keys, name));
    }
  }

  lemma AllInErased(keys: Document.Keys, mode: WiringMode)
    ensures AllInToml(keys, mode) <==> AllIn(Document.EraseKeys(keys), mode)
  {
    var root := Document.EraseKeys(keys);
    forall name
      ensures Document.IsSection(keys, name) <==> IsServer(root, McpServers, name)
      ensures Document.IsSection(keys, name) ==>
                && Toml.IsStdioIn(Document.SectionAt(keys, name)) == IsStdio(ServerAt(root, McpServers, name))
                && Toml.ModeIn(Document.SectionAt(keys, name)) == ServerMode(ServerAt(root, McpServers, name))
    {
      SectionAs(keys, name);
    }
    forall path, name | IsServer(root, path, name)
      ensures path == McpServers
    {
      Document.OnlyMcpServers(keys, path, name);
    }
  }

  lemma TomlReconnectWhen(keys: Document.Keys, guard: string, agent: string, monitor: bool)
    ensures Document.UnnamedReconnectToml(keys, guard, agent) == Some(monitor) <==>
            && IsWrapperName(agent)
            && Document.IsGuardedToml(keys)
            && Document.GuardedModeToml(keys) == Some(if monitor then Monitor else Enforce)
            && Document.SomeUnnamedToml(keys, agent)
            && Document.ChangedKeys(keys, Document.WrappingTable(guard, monitor, None)) == 0
  {
  }

  lemma NoTableWrapped(keys: Document.Keys, guard: string, monitor: bool)
    ensures Document.ChangedKeys(keys, Document.WrappingTable(guard, monitor, None)) == 0 <==>
            forall name :: Document.IsSection(keys, name) ==>
                             !Toml.WrapTable(Document.SectionAt(keys, name), guard, monitor, None).1
  {
    var f := Document.WrappingTable(guard, monitor, None);
    assert forall s :: f(s) == Toml.WrapTable(s, guard, monitor, None);
    Document.NoneChangedExactly(keys, f);
  }

  /** And for a TOML document, where a change of form counts as a change. */
  lemma OfferedTomlExactly(keys: Document.Keys, guard: string, agent: string, monitor: bool)
    ensures Document.UnnamedReconnectToml(keys, guard, agent) == Some(monitor) <==>
            && IsAgentId(agent) && !("-" <= agent)
            && AllInToml(keys, if monitor then Monitor else Enforce)
            && Document.SomeUnnamedToml(keys, agent)
            && forall name :: Document.IsSection(keys, name) ==>
                                !Toml.WrapTable(Document.SectionAt(keys, name), guard, monitor, None).1
  {
    TomlReconnectWhen(keys, guard, agent, monitor);
    PlainName(agent);
    Document.GuardedErased(keys);
    Document.GuardedModeErased(keys);
    GuardedInOneMode(Document.EraseKeys(keys), if monitor then Monitor else Enforce);
    AllInErased(keys, if monitor then Monitor else Enforce);
    NoTableWrapped(keys, guard, monitor);
  }
}
