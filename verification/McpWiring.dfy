/** What wrapping and unwrapping one server achieve. */
module McpWiring {
  import opened Options
  import opened Text
  import opened Json
  import opened ProxyOptions
  import opened OptionRewrites
  import opened OptionReadBack
  import opened McpWire

  function Requested(monitor: bool): WiringMode {
    if monitor then Monitor else Enforce
  }

  // ------------------------------------------------------------------- mode

  /** Exactly when a wrapped server reads back, and then in the mode asked for. */
  lemma WrappedMode(server: Json, guard: string, monitor: bool, agent: Option<string>)
    requires IsGuardCommand(guard) && PlanFor(server).Some?
    ensures var plan := PlanFor(server).value;
            ServerMode(WrapServer(server, guard, monitor, agent).0) ==
            if Readable(Named(plan.kept, agent)) && !IsBlank(plan.child) then Some(Requested(monitor)) else None
  {
    var plan := PlanFor(server).value;
    var named := Named(plan.kept, agent);
    var s := WrapServer(server, guard, monitor, agent).0;
    WrappedServer(server, guard, monitor, agent);
    ModeOfWrapper(s, named, monitor, plan.child, plan.rest);
  }

  lemma ModeOfWrapper(s: Json, named: seq<Json>, monitor: bool, child: string, rest: seq<Json>)
    requires WrapperSeparator(s) == Some(|named| + 3)
    requires Args(s) == WrappedArgs(named + ModeUnit(monitor), child, rest)
    ensures ServerMode(s) == if Readable(named) && !IsBlank(child) then Some(Requested(monitor)) else None
  {
    AppendedMode(named, monitor);
    var i := |named| + 3;
    assert Args(s)[1..i] == named + ModeUnit(monitor);
    assert Args(s)[i + 1] == Str(child);
  }

  lemma LeftAloneHasNoMode(server: Json)
    requires PlanFor(server).None?
    ensures ServerMode(server) == None
  {
    if HasProxyPrefix(server) {
      GuardNotBlank(Command(server).value);
    }
  }

  /** Whatever the old wrapper's words and the program written: a wrapped server
      reads in the mode asked for or does not read at all. */
  lemma NeverAnotherMode(server: Json, guard: string, monitor: bool, agent: Option<string>)
    ensures ServerMode(WrapServer(server, guard, monitor, agent).0) in {None, Some(Requested(monitor))}
  {
    if PlanFor(server).None? {
      LeftAloneHasNoMode(server);
    } else if IsGuardCommand(guard) {
      WrappedMode(server, guard, monitor, agent);
    } else {
      WrapWrites(server, guard, monitor, agent);
    }
  }

  // ----------------------------------------------------------- wrapping twice

  /** Wiring this server again would change nothing more. */
  predicate Settles(server: Json, agent: Option<string>) {
    PlanFor(server).None? || !LosesItsName(PlanFor(server).value.kept, agent)
  }

  lemma WrapIsRuns(server: Json, guard: string, monitor: bool, agent: Option<string>)
    requires PlanFor(server).Some?
    ensures WrapServer(server, guard, monitor, agent).0 == Runs(server, guard, Rewritten(server, monitor, agent))
  {
    var args := Rewritten(server, monitor, agent);
    if !WrapServer(server, guard, monitor, agent).1 {
      assert server.fields["command"] == Str(guard) && server.fields["args"] == Arr(args);
      assert server.fields["command" := Str(guard)] == server.fields;
      assert server.fields["args" := Arr(args)] == server.fields;
    }
  }

  lemma RunsTwice(server: Json, c: string, a: seq<Json>, c': string, a': seq<Json>)
    requires server.Obj?
    ensures Runs(Runs(server, c, a), c', a') == Runs(server, c', a')
  {
  }

  lemma WrappedArgsInjective(o: seq<Json>, o': seq<Json>, monitor: bool, child: string, rest: seq<Json>)
    ensures WrappedArgs(o + ModeUnit(monitor), child, rest) == WrappedArgs(o' + ModeUnit(monitor), child, rest) <==>
            o == o'
  {
    var a, a' := WrappedArgs(o + ModeUnit(monitor), child, rest), WrappedArgs(o' + ModeUnit(monitor), child, rest);
    if a == a' {
      assert |o| == |o'|;
      assert a[1..|o| + 1] == o && a'[1..|o| + 1] == o';
    }
  }

  /** Wrapping a wrapped server in another mode, or the same one, is wrapping it
      afresh in that mode, exactly when the server settles. */
  lemma SwitchingMode(server: Json, guard: string, first: bool, second: bool, agent: Option<string>)
    requires IsGuardCommand(guard)
    ensures var once := WrapServer(server, guard, first, agent).0;
            && (WrapServer(once, guard, second, agent).0 == WrapServer(server, guard, second, agent).0 <==>
                Settles(server, agent))
            && (WrapServer(once, guard, first, agent) == (once, false) <==> Settles(server, agent))
  {
    if PlanFor(server).Some? {
      var plan := PlanFor(server).value;
      var once := WrapServer(server, guard, first, agent).0;
      WrappedServer(server, guard, first, agent);
      PlanNoSeparator(server, agent, first);
      NamingTwice(plan.kept, agent);
      TwiceIsRuns(server, once, guard, first, second, agent);
      TwiceIsRuns(server, once, guard, first, first, agent);
      var named := Named(plan.kept, agent);
      WrappedArgsInjective(Named(named, agent), named, second, plan.child, plan.rest);
      WrappedArgsInjective(Named(named, agent), named, first, plan.child, plan.rest);
    }
  }

  lemma TwiceIsRuns(server: Json, once: Json, guard: string, first: bool, second: bool, agent: Option<string>)
    requires PlanFor(server).Some? && PlanFor(once).Some? && once == WrapServer(server, guard, first, agent).0
    ensures WrapServer(once, guard, second, agent).0 == WrapServer(server, guard, second, agent).0 <==>
            Rewritten(once, second, agent) == Rewritten(server, second, agent)
    ensures first == second ==>
              (WrapServer(once, guard, first, agent) == (once, false) <==>
               Rewritten(once, first, agent) == Rewritten(server, first, agent))
  {
    WrapIsRuns(server, guard, first, agent);
    WrapIsRuns(server, guard, second, agent);
    WrapIsRuns(once, guard, second, agent);
    RunsTwice(server, guard, Rewritten(server, first, agent), guard, Rewritten(once, second, agent));
    var a, b := Rewritten(once, second, agent), Rewritten(server, second, agent);
    assert Args(Runs(server, guard, a)) == a && Args(Runs(server, guard, b)) == b;
    WrapWrites(server, guard, first, agent);
  }

  /** A server that is not a wrapper, and a wrapper that reads and none of whose
      labels and agents has a value that looks like a mode, settle, and end
      guarded in the mode asked for. */
  lemma PlainServersSettle(server: Json, guard: string, monitor: bool, agent: Option<string>)
    requires IsGuardCommand(guard) && IsStdio(server)
    requires !HasProxyPrefix(server) || (ServerMode(server).Some? && ModeFreeValues(WrapperOptions(server)))
    ensures PlanFor(server).Some? && Settles(server, agent)
    ensures ServerMode(WrapServer(server, guard, monitor, agent).0) == Some(Requested(monitor))
  {
    PlainKept(server);
    NamedReadable(PlanFor(server).value.kept, agent);
    WrappedMode(server, guard, monitor, agent);
  }

  lemma PlainKept(server: Json)
    requires IsStdio(server)
    requires !HasProxyPrefix(server) || (ServerMode(server).Some? && ModeFreeValues(WrapperOptions(server)))
    ensures PlanFor(server).Some?
    ensures Readable(PlanFor(server).value.kept) && !IsBlank(PlanFor(server).value.child)
  {
    if HasProxyPrefix(server) {
      StrippedReadable(WrapperOptions(server));
    }
  }

  // ---------------------------------------------------------------- unwrapping

  /** The server with nothing but its arguments made an array. */
  function Restored(server: Json): Json {
    if WrapperSeparator(server).None? && PlanFor(server).Some? then With(server, "args", Arr(Args(server)))
    else UnwrapServer(server).0
  }

  /** Unwrapping what was wrapped gives back a server that was not a wrapper,
      and what unwrapping alone gives of one that was: no layer is added. */
  lemma UnwrapAfterWrap(server: Json, guard: string, monitor: bool, agent: Option<string>)
    requires IsGuardCommand(guard)
    ensures UnwrapServer(WrapServer(server, guard, monitor, agent).0).0 == Restored(server)
  {
    if PlanFor(server).Some? {
      var plan := PlanFor(server).value;
      var once := WrapServer(server, guard, monitor, agent).0;
      UnwrapWrapped(server, guard, monitor, agent);
      WrapIsRuns(server, guard, monitor, agent);
      RunsTwice(server, guard, Rewritten(server, monitor, agent), plan.child, plan.rest);
      RestoredRuns(server);
    }
  }

  lemma UnwrapWrapped(server: Json, guard: string, monitor: bool, agent: Option<string>)
    requires IsGuardCommand(guard) && PlanFor(server).Some?
    ensures var once := WrapServer(server, guard, monitor, agent).0;
            once.Obj? && UnwrapServer(once).0 == Runs(once, PlanFor(server).value.child, PlanFor(server).value.rest)
  {
    var plan := PlanFor(server).value;
    WrappedServer(server, guard, monitor, agent);
    UnwrapReads(WrapServer(server, guard, monitor, agent).0, Named(plan.kept, agent) +
                ModeUnit(monitor), plan.child, plan.rest);
  }

  lemma RestoredRuns(server: Json)
    requires PlanFor(server).Some?
    ensures Restored(server) == Runs(server, PlanFor(server).value.child, PlanFor(server).value.rest)
  {
    if WrapperSeparator(server).None? {
      assert server.fields["command" := Str(Command(server).value)] == server.fields;
    }
  }

  /** A server that was not a wrapper is restored key by key, exactly when its
      arguments were an array or wrapping left it alone. */
  lemma RestoredAsItWas(server: Json)
    requires WrapperSeparator(server).None?
    ensures Restored(server) == server <==> PlanFor(server).None? || GetArr(server, "args").Some?
  {
    if PlanFor(server).Some? && GetArr(server, "args").Some? {
      assert server.fields["args" := Arr(Args(server))] == server.fields;
    }
  }

  lemma UnwrapReads(s: Json, options: seq<Json>, child: string, rest: seq<Json>)
    requires s.Obj? && WrapperSeparator(s) == Some(|options| + 1) && Args(s) == WrappedArgs(options, child, rest)
    ensures UnwrapServer(s).0 == Runs(s, child, rest)
  {
    assert Args(s)[|options| + 2] == Str(child) && Args(s)[|options| + 3..] == rest;
  }

  // ------------------------------------------------------------ adding a name

  /** What a reconnect that only adds the agent's name does to a wrapper. */
  ghost predicate OnlyNamed(server: Json, after: Json, monitor: bool, agent: string) {
    && Command(after) == Command(server)
    && ServerMode(after) == ServerMode(server) == Some(Requested(monitor))
    && WrapperSeparator(server).Some? && WrapperSeparator(after).Some?
    && Args(after)[WrapperSeparator(after).value..] == Args(server)[WrapperSeparator(server).value..]
    && ProxyAgent(WrapperOptions(after)) == Some(agent)
    && exists kept ::
         && WrapperOptions(server) == kept + ModeUnit(monitor)
         && Others(Units(WrapperOptions(server))) == Others(Units(kept)) + [ModeUnit(monitor)]
         && Others(Units(WrapperOptions(after))) ==
            Others(Units(kept)) + (if AnySets(Units(kept), Label) then [] else [LabelUnit(agent)]) + [ModeUnit(monitor)]
  }

  lemma OthersAppend(a: seq<seq<Word>>, b: seq<seq<Word>>)
    ensures Others(a + b) == Others(a) + Others(b)
  {
    if b == [] {
      assert a + b == a;
    } else {
      var front, last := b[..|b| - 1], b[|b| - 1];
      assert a + b == (a + front) + [last];
      OthersAppend(a, front);
      OthersSnoc(a + front, last);
    }
  }

  lemma {:induction false} OthersTwice(units: seq<seq<Word>>)
    requires forall u :: u in units ==> !Sets(u, Agent)
    ensures Others(units) == units
  {
    if units != [] {
      OthersTwice(units[..|units| - 1]);
      assert units == units[..|units| - 1] + [units[|units| - 1]];
    }
  }

  lemma ModeAlone(units: seq<seq<Word>>, monitor: bool)
    ensures Others(units + [ModeUnit(monitor)]) == Others(units) + [ModeUnit(monitor)]
  {
    OthersSnoc(units, ModeUnit(monitor));
  }

  lemma OthersOfBase(kept: seq<Word>, agent: string)
    ensures Others(Base(kept, agent)) == Others(Units(kept))
  {
    OthersFrom(Units(kept));
    OthersTwice(Others(Units(kept)));
  }

  lemma OthersOne(unit: seq<Word>)
    ensures Others([unit]) == if Sets(unit, Agent) then [] else [unit]
  {
    OthersSnoc([], unit);
    assert [] + [unit] == [unit];
  }

  lemma NameUnits(agent: string)
    ensures !Sets(LabelUnit(agent), Agent) && Sets(AgentUnit(agent), Agent)
  {
  }

  lemma OthersOfAdded(kept: seq<Word>, agent: string)
    ensures Others(Added(kept, agent)) == if AnySets(Units(kept), Label) then [] else [LabelUnit(agent)]
  {
    var first := if AnySets(Units(kept), Label) then [] else [LabelUnit(agent)];
    var second := if NamesExactly(kept, agent) then [] else [AgentUnit(agent)];
    NameUnits(agent);
    OthersOne(LabelUnit(agent));
    OthersOne(AgentUnit(agent));
    OthersAppend(first, second);
    assert Others(first) == first && Others(second) == [] && first + [] == first;
  }

  lemma OthersOfNamed(kept: seq<Word>, agent: string)
    requires IsWrapperName(agent) && Aligned(kept)
    ensures Others(Units(Named(kept, Some(agent)))) ==
            Others(Units(kept)) + (if AnySets(Units(kept), Label) then [] else [LabelUnit(agent)])
  {
    BaseProper(kept, agent);
    NamedUnits(kept, agent);
    OthersAppend(Base(kept, agent), Added(kept, agent));
    OthersOfBase(kept, agent);
    OthersOfAdded(kept, agent);
  }

  lemma UnitsWithMode(options: seq<Word>, monitor: bool)
    requires Aligned(options)
    ensures Units(options + ModeUnit(monitor)) == Units(options) + [ModeUnit(monitor)]
  {
    UnitsAppend(options, ModeUnit(monitor));
    assert ModeUnit(monitor)[..2] == ModeUnit(monitor) && ModeUnit(monitor)[2..] == [];
  }

  /** How the options of a wrapper laid out by wiring read once named. */
  lemma NamedOptions(kept: seq<Word>, monitor: bool, agent: string)
    requires IsWrapperName(agent) && Readable(kept)
    ensures var named := Named(kept, Some(agent));
            && Readable(named)
            && ProxyAgent(named + ModeUnit(monitor)) == Some(agent)
            && Others(Units(kept + ModeUnit(monitor))) == Others(Units(kept)) + [ModeUnit(monitor)]
            && Others(Units(named + ModeUnit(monitor))) ==
               Others(Units(kept)) + (if AnySets(Units(kept), Label) then [] else [LabelUnit(agent)]) +
               [ModeUnit(monitor)]
  {
    var named := Named(kept, Some(agent));
    NamedReadable(kept, Some(agent));
    UnitsWithMode(kept, monitor);
    UnitsWithMode(named, monitor);
    ModeAlone(Units(kept), monitor);
    ModeAlone(Units(named), monitor);
    OthersOfNamed(kept, agent);
    BaseProper(kept, agent);
    NamedWalk(kept, agent);
    AlignedMode(named, monitor);
  }

  /** What a wrapper looks like that wiring without a name would not change. */
  lemma LaidOut(server: Json, guard: string, monitor: bool)
    requires ServerMode(server).Some? && PlanFor(server).Some? && !WrapServer(server, guard, monitor, None).1
    ensures var plan := PlanFor(server).value;
            && Command(server) == Some(guard) && IsGuardCommand(guard)
            && Readable(plan.kept) && !IsBlank(plan.child)
            && ServerMode(server) == Some(Requested(monitor))
            && WrapperSeparator(server) == Some(|plan.kept| + 3)
            && WrapperOptions(server) == plan.kept + ModeUnit(monitor)
            && Args(server)[|plan.kept| + 3..] == [Str("--"), Str(plan.child)] + plan.rest
  {
    var plan := PlanFor(server).value;
    assert WrapServer(server, guard, monitor, None).0 == server;
    NotNamed(plan.kept, None);
    WrapWrites(server, guard, monitor, None);
    assert IsGuardCommand(guard);
    assert WrapperSeparator(server) == Some(|plan.kept| + 3) &&
           WrapperOptions(server) == plan.kept + ModeUnit(monitor) by {
      WrappedServer(server, guard, monitor, None);
    }
    WrappedMode(server, guard, monitor, None);
    TailOfWrapper(server, plan.kept + ModeUnit(monitor), plan.child, plan.rest);
  }

  /** A wrapper already laid out as wiring lays it out gains the name and
      nothing else. */
  lemma ReconnectOnlyNames(server: Json, guard: string, monitor: bool, agent: string)
    requires IsWrapperName(agent) && ServerMode(server).Some?
    requires PlanFor(server).Some? && !WrapServer(server, guard, monitor, None).1
    ensures OnlyNamed(server, WrapServer(server, guard, monitor, Some(agent)).0, monitor, agent)
  {
    var plan := PlanFor(server).value;
    LaidOut(server, guard, monitor);
    NamedOptions(plan.kept, monitor, agent);
    var after := WrapServer(server, guard, monitor, Some(agent)).0;
    assert Command(after) == Some(guard) && ServerMode(after) == Some(Requested(monitor)) by {
      WrappedServer(server, guard, monitor, Some(agent));
      WrappedMode(server, guard, monitor, Some(agent));
    }
    var named := Named(plan.kept, Some(agent));
    assert WrapperSeparator(after) == Some(|named| + 3) && WrapperOptions(after) == named + ModeUnit(monitor) by {
      WrappedServer(server, guard, monitor, Some(agent));
    }
    assert Args(after)[|named| + 3..] == [Str("--"), Str(plan.child)] + plan.rest by {
      WrapWrites(server, guard, monitor, Some(agent));
      TailOfWrapper(after, named + ModeUnit(monitor), plan.child, plan.rest);
    }
  }

  lemma TailOfWrapper(s: Json, options: seq<Json>, child: string, rest: seq<Json>)
    requires Args(s) == WrappedArgs(options, child, rest)
    ensures Args(s)[|options| + 1..] == [Str("--"), Str(child)] + rest
  {
  }

  // ------------------------------------------------------------ the boundary

  const LabelledMode: seq<Json> := [Str("--label"), Str("--mode=guard")]

  lemma LabelledModeReads()
    ensures Units(LabelledMode) == [LabelledMode]
    ensures WrapperBlocks(LabelledMode) == Some(true) && !ModeFreeValues(LabelledMode)
  {
    assert LabelledMode[..2] == LabelledMode && LabelledMode[2..] == [];
    assert Units(LabelledMode) == [LabelledMode];
    LooksLikeAMode();
    WalkSnoc([], LabelledMode);
    assert [] + [LabelledMode] == [LabelledMode];
  }

  lemma LabelledModeStripped(agent: string)
    requires IsWrapperName(agent)
    ensures WithoutMode(LabelledMode) == [Str("--label")]
    ensures Modeless([Str("--label")]) && LosesItsName([Str("--label")], Some(agent))
  {
    LooksLikeAMode();
    assert LabelledMode[1..] == [Str("--mode=guard")] && LabelledMode[1..][1..] == [];
    assert KindOf(LabelledMode[0]) == Valued(Label);
    DanglingLabel(agent);
  }

  lemma DanglingLabel(agent: string)
    requires IsWrapperName(agent)
    ensures Modeless([Str("--label")]) && LosesItsName([Str("--label")], Some(agent))
  {
    var stripped := [Str("--label")];
    assert stripped[..1] == stripped && stripped[1..] == [];
    assert Units(stripped) == [stripped];
    assert Dangles(Units(stripped)[0]);
    WalkSnoc([], stripped);
    assert [] + [stripped] == [stripped];
  }

  function LabelledServer(): Json {
    Obj(map["command" := Str("iw"), "args" := Arr(WrappedArgs(LabelledMode, "npx", []))])
  }

  lemma LabelledServerReads()
    ensures WrapperSeparator(LabelledServer()) == Some(3) && WrapperOptions(LabelledServer()) == LabelledMode
    ensures Args(LabelledServer())[4] == Str("npx") && Args(LabelledServer())[5..] == []
    ensures IsStdio(LabelledServer()) && !IsBlank("npx")
  {
    SplitWhole("iw", IsPathSeparator);
    assert AsciiLower("iw") == "iw" && Basename("iw") == "iw";
    WrapperReads(LabelledServer(), LabelledMode, "npx", []);
    assert !IsWhitespace("npx"[0]);
  }

  /** `proxy --label --mode=guard -- npx` reads as guarded, but the mode is the
      label's value: stripped word by word the label dangles, and what wrapping
      writes does not read and does not settle. */
  lemma LabelThatLooksLikeAMode(guard: string, agent: string)
    requires IsGuardCommand(guard) && IsWrapperName(agent)
    ensures ServerMode(LabelledServer()) == Some(Enforce)
    ensures !ModeFreeValues(WrapperOptions(LabelledServer())) && !Settles(LabelledServer(), Some(agent))
    ensures ServerMode(WrapServer(LabelledServer(), guard, false, Some(agent)).0) == None
  {
    LabelledServerReads();
    LabelledModeReads();
    LabelledModeStripped(agent);
    assert PlanFor(LabelledServer()) == Some(Plan([Str("--label")], "npx", []));
    DanglingNamed([Str("--label")], agent);
    WrappedMode(LabelledServer(), guard, false, Some(agent));
  }

  lemma LooksLikeAMode()
    ensures SaysMode(Str("--mode=guard"))
  {
    assert "--mode=" <= "--mode=guard";
  }

  lemma DanglingNamed(options: seq<Word>, agent: string)
    requires Modeless(options) && LosesItsName(options, Some(agent))
    ensures !Readable(Named(options, Some(agent)))
  {
    var front, flag := UnitsDangling(options);
    NamedAfterLabel(options, front, agent);
    FrontOthers(front);
    var kept := Flatten(Others(Units(front)));
    DanglingTakes(kept, flag, AgentUnit(agent));
    assert AgentUnit(agent)[1..] == [Str(agent)];
    PlainWord(agent);
    var units := Units(kept + [flag] + AgentUnit(agent));
    assert Refused(units[|units| - 1]);
  }

  // ------------------------------------------------------- what is left alone

  predicate Untouched(server: Json, guard: string, monitor: bool, agent: Option<string>) {
    && WrapServer(server, guard, monitor, agent) == (server, false)
    && UnwrapServer(server) == (server, false)
    && ServerMode(server).None?
  }

  /** A server reached without a program is neither wrapped nor unwrapped. */
  lemma RemoteLeftAlone(server: Json, guard: string, monitor: bool, agent: Option<string>)
    requires forall command :: Get(server, "command") == Some(Str(command)) ==> IsBlank(command)
    ensures Untouched(server, guard, monitor, agent)
  {
    if Command(server).Some? && IsGuardCommand(Command(server).value) {
      GuardNotBlank(Command(server).value);
    }
  }

  lemma NotBehind(options: seq<Json>)
    requires Str("--") !in options
    ensures SeparatorIn([Str("proxy")] + options).None?
    ensures SeparatorIn([Str("proxy")] + options + [Str("--")]) == Some(|options| + 1)
  {
    var before := [Str("proxy")] + options;
    assert forall i :: 0 <= i < |options| ==> before[i + 1] == options[i];
    assert "proxy"[0] == 'p';
    assert Str("--") !in before;
    SeparatorAfter(before, []);
    assert before + [Str("--")] + [] == before + [Str("--")];
  }

  /** A wrapper that has lost its child, with its separator or without, is
      neither wrapped again nor unwrapped, and reads as no mode. */
  lemma BrokenLeftAlone(server: Json, options: seq<Json>, guard: string, monitor: bool, agent: Option<string>)
    requires Str("--") !in options && GetStr(server, "command").Some?
    requires IsGuardCommand(GetStr(server, "command").value)
    requires || GetArr(server, "args") == Some([Str("proxy")] + options)
             || GetArr(server, "args") == Some([Str("proxy")] + options + [Str("--")])
    ensures Untouched(server, guard, monitor, agent)
  {
    NotBehind(options);
    GuardNotBlank(Command(server).value);
    assert Args(server)[0] == Str("proxy");
  }
}
