/** The proxy's options in a wrapper's argument list, cut into units, and what one
    pass over the units finds. */
module ProxyOptions {
  import opened Options
  import opened Text
  import opened Json

  type Word = Json

  // ------------------------------------------------- the grammar of options

  datatype Flag = Label | Mode | Agent

  /** What a word is where the proxy looks for an option. */
  datatype Kind = Valued(flag: Flag) | Inline(flag: Flag, value: string) | ErrorResponse | Unknown

  function KindOf(w: Word): Kind {
    if w == Str("--label") then Valued(Label)
    else if w == Str("--mode") then Valued(Mode)
    else if w == Str("--agent") then Valued(Agent)
    else if w.Str? && StartsWith(w.s, "--mode=") then Inline(Mode, w.s[|"--mode="|..])
    else if w.Str? && StartsWith(w.s, "--label=") then Inline(Label, w.s[|"--label="|..])
    else if w.Str? && StartsWith(w.s, "--agent=") then Inline(Agent, w.s[|"--agent="|..])
    else if w == Str("--error-response") then ErrorResponse
    else Unknown
  }

  /** A flag written without `=`: the word after it belongs to its unit. */
  predicate TakesValue(w: Word) {
    KindOf(w).Valued?
  }

  /** How many words the first option is made of. */
  function Width(options: seq<Word>): nat
    requires options != []
  {
    if TakesValue(options[0]) && |options| >= 2 then 2 else 1
  }

  /** The options as the proxy reads them, each a flag with its value, an inline
      `--flag=value`, or a single word. */
  function Units(options: seq<Word>): seq<seq<Word>> {
    if options == [] then []
    else [options[..Width(options)]] + Units(options[Width(options)..])
  }

  function Flatten(units: seq<seq<Word>>): seq<Word> {
    if units == [] then [] else units[0] + Flatten(units[1..])
  }

  /** A flag that stands last and finds no value. */
  predicate Dangles(unit: seq<Word>) {
    |unit| == 1 && TakesValue(unit[0])
  }

  predicate IsUnit(unit: seq<Word>) {
    |unit| == 1 || (|unit| == 2 && TakesValue(unit[0]))
  }

  /** The unit gives `flag` a value, or has it dangling. */
  predicate Sets(unit: seq<Word>, flag: Flag) {
    && |unit| >= 1
    && match KindOf(unit[0])
       case Valued(f) => f == flag
       case Inline(f, _) => f == flag
       case _ => false
  }

  function ValueOf(unit: seq<Word>): Option<string> {
    if |unit| >= 1 && KindOf(unit[0]).Inline? then Some(KindOf(unit[0]).value)
    else if |unit| == 2 then AsStr(unit[1])
    else None
  }

  /** The unit begins with a word of no known kind. */
  predicate Refused(unit: seq<Word>) {
    |unit| >= 1 && KindOf(unit[0]).Unknown?
  }

  /** The value of the last unit that sets `flag`. */
  function LastValue(units: seq<seq<Word>>, flag: Flag): Option<Option<string>> {
    if units == [] then None
    else
      var last := units[|units| - 1];
      if Sets(last, flag) then Some(ValueOf(last)) else LastValue(units[..|units| - 1], flag)
  }

  function CountSets(units: seq<seq<Word>>, flag: Flag): nat {
    if units == [] then 0
    else CountSets(units[..|units| - 1], flag) + (if Sets(units[|units| - 1], flag) then 1 else 0)
  }

  predicate AnySets(units: seq<seq<Word>>, flag: Flag) {
    exists i :: 0 <= i < |units| && Sets(units[i], flag)
  }

  predicate AnyDangles(units: seq<seq<Word>>) {
    exists i :: 0 <= i < |units| && Dangles(units[i])
  }

  predicate AnyRefused(units: seq<seq<Word>>) {
    exists i :: 0 <= i < |units| && Refused(units[i])
  }

  /** Where the words of the units that set `flag` stand. */
  function Positions(units: seq<seq<Word>>, flag: Flag): seq<nat> {
    if units == [] then []
    else
      var before, last := units[..|units| - 1], units[|units| - 1];
      Positions(before, flag) +
      (if Sets(last, flag) then Places(|Flatten(before)|, |last|) else [])
  }

  function Places(from: nat, count: nat): seq<nat>
    decreases count
  {
    if count == 0 then [] else [from] + Places(from + 1, count - 1)
  }

  // ---------------------------------------------------------- the walk itself

  datatype OptionWalk = OptionWalk(labelled: bool, agent: Option<Option<string>>, agentFlags: nat,
                                   agentWords: seq<nat>, mode: Option<Option<string>>,
                                   takesTheSeparator: bool, refusedWord: bool)

  /** What the walk finds, said of the units. */
  function WalkOf(units: seq<seq<Word>>): OptionWalk {
    OptionWalk(AnySets(units, Label), LastValue(units, Agent), CountSets(units, Agent),
               Positions(units, Agent), LastValue(units, Mode), AnyDangles(units), AnyRefused(units))
  }

  lemma FlattenAppend(a: seq<seq<Word>>, b: seq<seq<Word>>)
    ensures Flatten(a + b) == Flatten(a) + Flatten(b)
  {
    if a == [] {
      assert a + b == b;
    } else {
      assert (a + b)[1..] == a[1..] + b;
      FlattenAppend(a[1..], b);
    }
  }

  lemma FlattenSnoc(units: seq<seq<Word>>, unit: seq<Word>)
    ensures Flatten(units + [unit]) == Flatten(units) + unit
  {
    FlattenAppend(units, [unit]);
    assert Flatten([unit]) == unit + Flatten([]);
  }

  /** Reading into units loses nothing. */
  lemma {:induction false} FlattenUnits(options: seq<Word>)
    ensures Flatten(Units(options)) == options
    ensures forall i :: 0 <= i < |Units(options)| ==> IsUnit(Units(options)[i])
  {
    if options != [] {
      var w := Width(options);
      FlattenUnits(options[w..]);
      var rest := Units(options[w..]);
      assert ([options[..w]] + rest)[1..] == rest;
      assert options[..w] + options[w..] == options;
    }
  }

  /** What one more unit, whose first word stands at `at`, adds to a walk. */
  function Extended(w: OptionWalk, unit: seq<Word>, at: nat): OptionWalk {
    OptionWalk(w.labelled || Sets(unit, Label),
               if Sets(unit, Agent) then Some(ValueOf(unit)) else w.agent,
               w.agentFlags + (if Sets(unit, Agent) then 1 else 0),
               w.agentWords + (if Sets(unit, Agent) then Places(at, |unit|) else []),
               if Sets(unit, Mode) then Some(ValueOf(unit)) else w.mode,
               w.takesTheSeparator || Dangles(unit),
               w.refusedWord || Refused(unit))
  }

  lemma ExtendedByValued(w: OptionWalk, unit: seq<Word>, at: nat, flag: Flag)
    requires 1 <= |unit| <= 2 && KindOf(unit[0]) == Valued(flag)
    ensures var value := if |unit| == 2 then AsStr(unit[1]) else None;
            var v := w.(takesTheSeparator := w.takesTheSeparator || |unit| == 1);
            Extended(w, unit, at) ==
            match flag
            case Label => v.(labelled := true)
            case Mode => v.(mode := Some(value))
            case Agent =>
              v.(agent := Some(value), agentFlags := w.agentFlags + 1,
                 agentWords := w.agentWords + (if |unit| == 1 then [at] else [at, at + 1]))
  {
    assert Places(at + 1, 1) == [at + 1] && Places(at, 1) == [at];
    assert w.agentWords + [] == w.agentWords;
  }

  lemma ExtendedByInline(w: OptionWalk, unit: seq<Word>, at: nat, flag: Flag, value: string)
    requires |unit| == 1 && KindOf(unit[0]) == Inline(flag, value)
    ensures Extended(w, unit, at) ==
            match flag
            case Label => w.(labelled := true)
            case Mode => w.(mode := Some(Some(value)))
            case Agent =>
              w.(agent := Some(Some(value)), agentFlags := w.agentFlags + 1, agentWords := w.agentWords + [at])
  {
    assert Places(at, 1) == [at];
    assert w.agentWords + [] == w.agentWords;
  }

  lemma ExtendedByOther(w: OptionWalk, unit: seq<Word>, at: nat)
    requires |unit| == 1 && !KindOf(unit[0]).Valued? && !KindOf(unit[0]).Inline?
    ensures Extended(w, unit, at) == w.(refusedWord := w.refusedWord || KindOf(unit[0]).Unknown?)
  {
    assert w.agentWords + [] == w.agentWords;
  }

  function UnitAt(options: seq<Word>, i: nat): seq<Word>
    requires i < |options|
  {
    if TakesValue(options[i]) && i + 1 < |options| then [options[i], options[i + 1]] else [options[i]]
  }

  method WalkOptions(options: seq<Word>) returns (walk: OptionWalk)
    ensures walk == WalkOf(Units(options))
  {
    walk := OptionWalk(false, None, 0, [], None, false, false);
    var i := 0;
    ghost var done: seq<seq<Word>> := [];
    while i < |options|
      invariant 0 <= i <= |options|
      invariant Units(options) == done + Units(options[i..])
      invariant |Flatten(done)| == i
      invariant walk == WalkOf(done)
    {
      NextUnit(options, i, done);
      WalkSnoc(done, UnitAt(options, i));
      done := done + [UnitAt(options, i)];
      walk, i := ReadOption(walk, options, i);
    }
    assert done + [] == done;
  }

  /** One turn of the walk: the option that begins at `i`. */
  method ReadOption(walk: OptionWalk, options: seq<Word>, i: nat) returns (walk': OptionWalk, next: nat)
    requires i < |options|
    ensures walk' == Extended(walk, UnitAt(options, i), i)
    ensures next == i + |UnitAt(options, i)|
  {
    var last := i + 1 == |options|;
    match KindOf(options[i])
    case Valued(flag) =>
      ExtendedByValued(walk, UnitAt(options, i), i, flag);
      var value := if last then None else AsStr(options[i + 1]);
      next := if last then i + 1 else i + 2;
      walk' := walk.(takesTheSeparator := walk.takesTheSeparator || last);
      match flag {
        case Label => walk' := walk'.(labelled := true);
        case Mode => walk' := walk'.(mode := Some(value));
        case Agent =>
          walk' := walk'.(agent := Some(value), agentFlags := walk.agentFlags + 1,
          agentWords := walk.agentWords + (if last then [i] else [i, i + 1]));
      }
    case Inline(flag, value) =>
      ExtendedByInline(walk, UnitAt(options, i), i, flag, value);
      next := i + 1;
      walk' := walk;
      match flag {
        case Label => walk' := walk'.(labelled := true);
        case Mode => walk' := walk'.(mode := Some(Some(value)));
        case Agent =>
          walk' := walk'.(agent := Some(Some(value)), agentFlags := walk.agentFlags + 1,
          agentWords := walk.agentWords + [i]);
      }
    case ErrorResponse =>
      ExtendedByOther(walk, UnitAt(options, i), i);
      walk', next := walk, i + 1;
    case Unknown =>
      ExtendedByOther(walk, UnitAt(options, i), i);
      walk', next := walk.(refusedWord := true), i + 1;
  }

  lemma NextUnit(options: seq<Word>, i: nat, done: seq<seq<Word>>)
    requires i < |options| && Units(options) == done + Units(options[i..]) && |Flatten(done)| == i
    ensures var unit := UnitAt(options, i);
            && i + |unit| <= |options|
            && Units(options) == (done + [unit]) + Units(options[i + |unit|..])
            && |Flatten(done + [unit])| == i + |unit|
  {
    var rest, unit := options[i..], UnitAt(options, i);
    assert unit == rest[..Width(rest)];
    FlattenSnoc(done, unit);
    var after := Units(rest[|unit|..]);
    assert rest[|unit|..] == options[i + |unit|..];
    assert Units(rest) == [unit] + after;
    assert done + ([unit] + after) == (done + [unit]) + after;
  }

  lemma WalkSnoc(units: seq<seq<Word>>, unit: seq<Word>)
    ensures WalkOf(units + [unit]) == Extended(WalkOf(units), unit, |Flatten(units)|)
  {
    var all := units + [unit];
    assert all[..|units|] == units && all[|units|] == unit;
    AnySnoc(units, unit);
  }

  lemma AnySnoc(units: seq<seq<Word>>, unit: seq<Word>)
    ensures AnySets(units + [unit], Label) <==> AnySets(units, Label) || Sets(unit, Label)
    ensures AnyDangles(units + [unit]) <==> AnyDangles(units) || Dangles(unit)
    ensures AnyRefused(units + [unit]) <==> AnyRefused(units) || Refused(unit)
  {
    var all := units + [unit];
    assert all[|units|] == unit;
    assert forall i :: 0 <= i < |units| ==> all[i] == units[i];
  }
}
