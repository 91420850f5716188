/** Routing one stdio MCP server through the guard's proxy, and back. */
module McpWire {
  import opened Options
  import opened Text
  import opened Json
  import opened ProxyOptions
  import opened OptionRewrites
  import opened OptionReadBack

  datatype WiringMode = Monitor | Enforce | Mixed

  // -------------------------------------------------------- reading a server

  function Basename(command: string): string {
    var parts := PathParts(command);
    var name := AsciiLower(parts[|parts| - 1]);
    if EndsWith(name, ".exe") then name[..|name| - 4] else name
  }

  predicate IsGuardCommand(command: string) {
    Basename(command) in ["innerwarden", "iw", "iw-guard"]
  }

  function Command(server: Json): Option<string> { GetStr(server, "command") }

  function Args(server: Json): seq<Json> {
    match GetArr(server, "args")
    case Some(args) => args
    case None => []
  }

  predicate HasProxyPrefix(server: Json) {
    && Command(server).Some? && IsGuardCommand(Command(server).value)
    && Args(server) != [] && Args(server)[0] == Str("proxy")
  }

  /** The first `--`, if there is one. */
  function SeparatorIn(args: seq<Json>): (r: Option<nat>)
    ensures r.Some? ==> r.value < |args| && args[r.value] == Str("--") && Str("--") !in args[..r.value]
    ensures r.None? ==> Str("--") !in args
  {
    if args == [] then None
    else if args[0] == Str("--") then Some(0)
    else
      match SeparatorIn(args[1..])
      case Some(i) =>
        assert args[..i + 1] == [args[0]] + args[1..][..i];
        Some(i + 1)
      case None => None
  }

  function WrapperSeparator(server: Json): (r: Option<nat>)
    ensures r.Some? ==> 1 <= r.value < |Args(server)|
  {
    if HasProxyPrefix(server) then SeparatorIn(Args(server)) else None
  }

  /** The options of a wrapper; none for a server that is not one. */
  function WrapperOptions(server: Json): seq<Json> {
    match WrapperSeparator(server)
    case Some(i) => Args(server)[1..i]
    case None => []
  }

  /** The mode a complete wrapper's proxy runs in. */
  function ServerMode(server: Json): Option<WiringMode> {
    match WrapperSeparator(server)
    case None => None
    case Some(i) =>
      if i + 1 >= |Args(server)| || !Args(server)[i + 1].Str? || IsBlank(Args(server)[i + 1].s) then None
      else
        match WrapperBlocks(Args(server)[1..i])
        case None => None
        case Some(blocks) => Some(if blocks then Enforce else Monitor)
  }

  predicate IsStdio(server: Json) {
    Command(server).Some? && !IsBlank(Command(server).value)
  }

  // ------------------------------------------------------ rewriting a server

  /** What a server runs behind the proxy, and the options kept for the proxy. */
  datatype Plan = Plan(kept: seq<Json>, child: string, rest: seq<Json>)

  function TextOf(j: Json): string {
    if j.Str? then j.s else ""
  }

  /** `None` for a server wiring leaves alone: a remote one, and a wrapper with
      nothing behind its proxy. */
  function PlanFor(server: Json): Option<Plan> {
    if !IsStdio(server) then None
    else
      var args := Args(server);
      match WrapperSeparator(server)
      case None =>
        if HasProxyPrefix(server) then None else Some(Plan([], Command(server).value, args))
      case Some(i) =>
        if |args| <= i + 1 || TextOf(args[i + 1]) == "" then None
        else Some(Plan(WithoutMode(args[1..i]), TextOf(args[i + 1]), args[i + 2..]))
  }

  function WrappedArgs(options: seq<Json>, child: string, rest: seq<Json>): seq<Json> {
    [Str("proxy")] + options + [Str("--"), Str(child)] + rest
  }

  function Runs(server: Json, command: string, args: seq<Json>): Json
    requires server.Obj?
  {
    With(With(server, "command", Str(command)), "args", Arr(args))
  }

  function WrapServer(server: Json, guard: string, monitor: bool, agent: Option<string>): (Json, bool) {
    match PlanFor(server)
    case None => (server, false)
    case Some(plan) =>
      var args := WrappedArgs(Named(plan.kept, agent) + ModeUnit(monitor), plan.child, plan.rest);
      if Command(server) == Some(guard) && Args(server) == args then (server, false)
      else (Runs(server, guard, args), true)
  }

  function UnwrapServer(server: Json): (Json, bool) {
    match WrapperSeparator(server)
    case None => (server, false)
    case Some(i) =>
      var args := Args(server);
      if |args| <= i + 1 then (server, false)
      else (Runs(server, TextOf(args[i + 1]), args[i + 2..]), true)
  }

  // ------------------------------------------------- a wrapper reads back

  lemma PartsFrom(s: string)
    ensures forall p, c :: p in PathParts(s) && c in p ==> c in s
  {
    if s != "" {
      var rest := PathParts(s[1..]);
      PartsFrom(s[1..]);
      forall p, c | p in PathParts(s) && c in p
        ensures c in s
      {
        if s[0] == '/' || s[0] == '\\' {
          assert p == "" || p in rest;
        } else {
          assert p == [s[0]] + rest[0] || p in rest[1..];
          assert p in rest[1..] ==> p in rest;
          assert rest[0] in rest;
        }
      }
    }
  }

  lemma GuardNotBlank(command: string)
    requires IsGuardCommand(command)
    ensures !IsBlank(command)
  {
    PartsFrom(command);
    var parts := PathParts(command);
    var last := parts[|parts| - 1];
    var name := AsciiLower(last);
    assert Basename(command)[0] == 'i';
    assert name[0] == Basename(command)[0];
    assert last in parts && last[0] in last && LowerChar(last[0]) == 'i';
    assert last[0] in command && !IsWhitespace(last[0]);
  }

  lemma {:induction false} SeparatorAfter(before: seq<Json>, after: seq<Json>)
    requires Str("--") !in before
    ensures SeparatorIn(before + [Str("--")] + after) == Some(|before|)
  {
    var args := before + [Str("--")] + after;
    if before != [] {
      assert args[1..] == before[1..] + [Str("--")] + after;
      assert args[0] == before[0] && before[0] in before;
      SeparatorAfter(before[1..], after);
    }
  }

  /** The words of a wrapper are found where they were put. */
  lemma WrapperReads(s: Json, options: seq<Json>, child: string, rest: seq<Json>)
    requires Command(s).Some? && IsGuardCommand(Command(s).value) && Args(s) == WrappedArgs(options, child, rest)
    requires Str("--") !in options
    ensures IsStdio(s)
    ensures WrapperSeparator(s) == Some(|options| + 1)
    ensures WrapperOptions(s) == options
    ensures Args(s)[|options| + 2] == Str(child) && Args(s)[|options| + 3..] == rest
  {
    GuardNotBlank(Command(s).value);
    var before := [Str("proxy")] + options;
    var args := WrappedArgs(options, child, rest);
    assert args == before + [Str("--")] + ([Str(child)] + rest);
    SeparatorAfter(before, [Str(child)] + rest);
    assert args[0] == Str("proxy") && args[1..|options| + 1] == options;
  }

  lemma NoSeparator(options: seq<Json>, agent: Option<string>, monitor: bool)
    requires Str("--") !in options
    ensures Str("--") !in Named(WithoutMode(options), agent) + ModeUnit(monitor)
    ensures Str("--") !in Named(WithoutMode(options), agent)
  {
    WithoutModeIsModeless(options);
    var naming := NamingOf(WithoutMode(options), agent);
    KeptFrom(WithoutMode(options), naming.drop, 0);
    if agent.Some? && IsWrapperName(agent.value) {
      assert agent.value != "--";
    }
    assert Str("--") !in naming.add;
  }

  lemma PlanNoSeparator(server: Json, agent: Option<string>, monitor: bool)
    requires PlanFor(server).Some?
    ensures Str("--") !in Named(PlanFor(server).value.kept, agent) + ModeUnit(monitor)
    ensures Modeless(PlanFor(server).value.kept)
  {
    match WrapperSeparator(server) {
      case None =>
        NoSeparator([], agent, monitor);
        assert WithoutMode([]) == [];
      case Some(i) =>
        var options := Args(server)[1..i];
        assert forall w :: w in options ==> w in Args(server)[..i] by {
          assert options == Args(server)[..i][1..];
        }
        NoSeparator(options, agent, monitor);
        WithoutModeIsModeless(options);
    }
  }

  function Rewritten(server: Json, monitor: bool, agent: Option<string>): seq<Json>
    requires PlanFor(server).Some?
  {
    var plan := PlanFor(server).value;
    WrappedArgs(Named(plan.kept, agent) + ModeUnit(monitor), plan.child, plan.rest)
  }

  lemma WrapWrites(server: Json, guard: string, monitor: bool, agent: Option<string>)
    requires PlanFor(server).Some?
    ensures var s := WrapServer(server, guard, monitor, agent).0;
            Command(s) == Some(guard) && Args(s) == Rewritten(server, monitor, agent)
  {
  }

  lemma PlanOfWrapper(s: Json, named: seq<Json>, monitor: bool, child: string, rest: seq<Json>)
    requires Command(s).Some? && IsGuardCommand(Command(s).value)
    requires Args(s) == WrappedArgs(named + ModeUnit(monitor), child, rest)
    requires Str("--") !in named + ModeUnit(monitor) && Modeless(named) && child != ""
    ensures PlanFor(s) == Some(Plan(named, child, rest))
  {
    var options := named + ModeUnit(monitor);
    WrapperReads(s, options, child, rest);
    WithoutModeKeeps(named, ModeUnit(monitor));
    assert ModeUnit(monitor)[2..] == [];
    assert WithoutMode(options) == named;
    assert Args(s)[1..|options| + 1] == options;
  }

  lemma WrappedPlan(server: Json, s: Json, monitor: bool, agent: Option<string>)
    requires PlanFor(server).Some? && Args(s) == Rewritten(server, monitor, agent)
    requires Command(s).Some? && IsGuardCommand(Command(s).value)
    ensures var plan := PlanFor(server).value;
            PlanFor(s) == Some(Plan(Named(plan.kept, agent), plan.child, plan.rest))
  {
    var plan := PlanFor(server).value;
    PlanNoSeparator(server, agent, monitor);
    KeptModeless(plan.kept, agent);
    PlanOfWrapper(s, Named(plan.kept, agent), monitor, plan.child, plan.rest);
  }

  /** How the options of what wiring writes are found again. */
  lemma WrappedReads(s: Json, named: seq<Json>, monitor: bool, child: string, rest: seq<Json>)
    requires Command(s).Some? && IsGuardCommand(Command(s).value)
    requires Args(s) == WrappedArgs(named + ModeUnit(monitor), child, rest)
    requires Str("--") !in named + ModeUnit(monitor)
    ensures IsStdio(s)
    ensures WrapperSeparator(s) == Some(|named| + 3)
    ensures WrapperOptions(s) == named + ModeUnit(monitor)
  {
    WrapperReads(s, named + ModeUnit(monitor), child, rest);
  }

  /** The wrapper wiring writes: what it runs, and how its options read. */
  lemma WrappedServer(server: Json, guard: string, monitor: bool, agent: Option<string>)
    requires IsGuardCommand(guard) && PlanFor(server).Some?
    ensures var plan := PlanFor(server).value;
            var s := WrapServer(server, guard, monitor, agent).0;
            && IsStdio(s) && Command(s) == Some(guard)
            && WrapperSeparator(s) == Some(|Named(plan.kept, agent)| + 3)
            && WrapperOptions(s) == Named(plan.kept, agent) + ModeUnit(monitor)
            && Args(s) == Rewritten(server, monitor, agent)
            && PlanFor(s) == Some(Plan(Named(plan.kept, agent), plan.child, plan.rest))
  {
    var plan := PlanFor(server).value;
    var s := WrapServer(server, guard, monitor, agent).0;
    WrapWrites(server, guard, monitor, agent);
    assert IsStdio(s) && WrapperSeparator(s) == Some(|Named(plan.kept, agent)| + 3)
           && WrapperOptions(s) == Named(plan.kept, agent) + ModeUnit(monitor) by {
      PlanNoSeparator(server, agent, monitor);
      WrappedReads(s, Named(plan.kept, agent), monitor, plan.child, plan.rest);
    }
    WrappedPlan(server, s, monitor, agent);
  }

  lemma KeptModeless(options: seq<Json>, agent: Option<string>)
    requires Modeless(options)
    ensures Modeless(Named(options, agent))
  {
    var naming := NamingOf(options, agent);
    var kept := Kept(options, naming.drop, 0);
    KeptFrom(options, naming.drop, 0);
    forall i | 0 <= i < |Named(options, agent)|
      ensures !SaysMode(Named(options, agent)[i])
    {
      if i < |kept| {
        assert kept[i] in options;
      } else if agent.Some? && IsWrapperName(agent.value) {
        PlainWord(agent.value);
      }
    }
  }
}
