/** How wiring rewrites a wrapper's options: the mode is stripped word by word,
    the agent is named flag by flag, and a mode is appended. */
module OptionRewrites {
  import opened Options
  import opened Text
  import opened Json
  import opened ProxyOptions

  // ------------------------------------------- more about the reading in units

  /** Units as a reading yields them: only the last may dangle. */
  predicate Proper(units: seq<seq<Word>>) {
    forall i :: 0 <= i < |units| ==> IsUnit(units[i]) && (Dangles(units[i]) ==> i == |units| - 1)
  }

  /** The options do not take the separator that follows them. */
  predicate Aligned(options: seq<Word>) {
    !AnyDangles(Units(options))
  }

  lemma {:induction false} UnitsProper(options: seq<Word>)
    ensures Proper(Units(options))
  {
    if options != [] {
      var rest := Units(options[Width(options)..]);
      UnitsProper(options[Width(options)..]);
      var units := Units(options);
      assert forall i :: 1 <= i < |units| ==> units[i] == rest[i - 1];
    }
  }

  lemma {:induction false} UnitsOfFlatten(units: seq<seq<Word>>)
    requires Proper(units)
    ensures Units(Flatten(units)) == units
  {
    if units != [] {
      var tail := units[1..];
      assert forall i :: 0 <= i < |tail| ==> tail[i] == units[i + 1];
      UnitsOfFlatten(tail);
      var words := Flatten(units);
      assert words == units[0] + Flatten(tail);
      if tail != [] {
        assert |Flatten(tail)| >= 1 by { assert Flatten(tail) == tail[0] + Flatten(tail[1..]); assert IsUnit(tail[0]); }
      }
      assert IsUnit(units[0]) && Width(words) == |units[0]|;
      assert words[..|units[0]|] == units[0] && words[|units[0]|..] == Flatten(tail);
      assert [units[0]] + tail == units;
    }
  }

  /** Words after aligned options are read on their own. */
  lemma UnitsAppend(a: seq<Word>, b: seq<Word>)
    requires Aligned(a)
    ensures Units(a + b) == Units(a) + Units(b)
  {
    var ua, ub := Units(a), Units(b);
    UnitsProper(a);
    UnitsProper(b);
    FlattenUnits(a);
    FlattenUnits(b);
    FlattenAppend(ua, ub);
    var both := ua + ub;
    forall i | 0 <= i < |both|
      ensures IsUnit(both[i]) && (Dangles(both[i]) ==> i == |both| - 1)
    {
      if i < |ua| { assert both[i] == ua[i]; } else { assert both[i] == ub[i - |ua|]; }
    }
    UnitsOfFlatten(both);
  }

  /** Options that are not aligned are aligned ones and a flag. */
  lemma UnitsDangling(a: seq<Word>) returns (front: seq<Word>, flag: Word)
    requires !Aligned(a)
    ensures a == front + [flag] && Aligned(front) && TakesValue(flag)
    ensures Units(a) == Units(front) + [[flag]]
  {
    var units := Units(a);
    UnitsProper(a);
    FlattenUnits(a);
    var n := |units| - 1;
    var us := units[..n];
    assert units == us + [units[n]];
    FlattenSnoc(us, units[n]);
    front, flag := Flatten(us), units[n][0];
    assert units[n] == [flag];
    assert forall i :: 0 <= i < n ==> us[i] == units[i];
    UnitsOfFlatten(us);
  }

  /** A flag after aligned options takes the next word, whatever that is. */
  lemma DanglingTakes(front: seq<Word>, flag: Word, b: seq<Word>)
    requires Aligned(front) && TakesValue(flag) && |b| >= 1
    ensures Units(front + [flag] + b) == Units(front) + [[flag, b[0]]] + Units(b[1..])
  {
    var tail := [flag] + b;
    assert front + [flag] + b == front + tail;
    UnitsAppend(front, tail);
    assert tail[..2] == [flag, b[0]] && tail[2..] == b[1..];
    assert Units(tail) == [[flag, b[0]]] + Units(b[1..]);
  }

  // ----------------------------------------------- stripping the mode by word

  predicate SaysMode(w: Word) {
    KindOf(w) == Valued(Mode) || (KindOf(w).Inline? && KindOf(w).flag == Mode)
  }

  function WithoutMode(options: seq<Word>): seq<Word> {
    if options == [] then []
    else if KindOf(options[0]) == Valued(Mode) then WithoutMode(options[if |options| < 2 then |options| else 2..])
    else if SaysMode(options[0]) then WithoutMode(options[1..])
    else [options[0]] + WithoutMode(options[1..])
  }

  /** `args[1..separator]` without its mode words, after `proxy` itself. */
  method ProxyPrefixWithoutMode(args: seq<Word>, separator: nat) returns (prefix: seq<Word>)
    requires 1 <= separator <= |args|
    ensures prefix == [Str("proxy")] + WithoutMode(args[1..separator])
  {
    prefix := [Str("proxy")];
    var i := 1;
    while i < separator
      invariant 1 <= i <= separator
      invariant prefix + WithoutMode(args[i..separator]) == [Str("proxy")] + WithoutMode(args[1..separator])
    {
      ghost var rest := args[i..separator];
      assert rest[1..] == args[i + 1..separator];
      if KindOf(args[i]) == Valued(Mode) {
        assert |rest| >= 2 ==> rest[2..] == args[i + 2..separator];
        i := if i + 2 < separator then i + 2 else separator;
      } else if SaysMode(args[i]) {
        i := i + 1;
      } else {
        prefix := prefix + [args[i]];
        i := i + 1;
      }
    }
    assert args[separator..separator] == [];
  }

  ghost predicate Modeless(options: seq<Word>) {
    forall i :: 0 <= i < |options| ==> !SaysMode(options[i])
  }

  lemma {:induction false} WithoutModeIsModeless(options: seq<Word>)
    ensures Modeless(WithoutMode(options))
    ensures forall w :: w in WithoutMode(options) ==> w in options
  {
    if options != [] {
      var skipped := if KindOf(options[0]) == Valued(Mode) && |options| >= 2 then 2 else 1;
      assert options == options[..skipped] + options[skipped..];
      WithoutModeIsModeless(options[skipped..]);
    }
  }

  lemma {:induction false} WithoutModeKeeps(a: seq<Word>, b: seq<Word>)
    requires Modeless(a)
    ensures WithoutMode(a + b) == a + WithoutMode(b)
  {
    if a == [] {
      assert a + b == b;
    } else {
      assert (a + b)[1..] == a[1..] + b && (a + b)[0] == a[0];
      assert !SaysMode(a[0]);
      WithoutModeKeeps(a[1..], b);
      assert [a[0]] + (a[1..] + WithoutMode(b)) == a + WithoutMode(b);
    }
  }

  // ------------------------------------------------------- naming the agent

  predicate IsWrapperName(agent: string) {
    IsAgentId(agent) && agent[0] != '-'
  }

  datatype Naming = Naming(drop: seq<nat>, add: seq<Word>)

  function NamingOf(options: seq<Word>, agent: Option<string>): Naming {
    if agent.None? || !IsWrapperName(agent.value) then Naming([], [])
    else
      var walk := WalkOf(Units(options));
      var labelling := if walk.labelled then [] else [Str("--label"), Str(agent.value)];
      if walk.agent != Some(Some(agent.value)) || walk.agentFlags > 1 then
        Naming(walk.agentWords, labelling + [Str("--agent"), Str(agent.value)])
      else
        Naming([], labelling)
  }

  /** The words, the first of which stands at `at`, whose position is not in `drop`. */
  function Kept(words: seq<Word>, drop: seq<nat>, at: nat): seq<Word> {
    if words == [] then []
    else (if at in drop then [] else [words[0]]) + Kept(words[1..], drop, at + 1)
  }

  function Named(options: seq<Word>, agent: Option<string>): seq<Word> {
    Kept(options, NamingOf(options, agent).drop, 0) + NamingOf(options, agent).add
  }

  function Others(units: seq<seq<Word>>): seq<seq<Word>> {
    if units == [] then []
    else Others(units[..|units| - 1]) + (if Sets(units[|units| - 1], Agent) then [] else [units[|units| - 1]])
  }

  lemma {:induction false} KeptAppend(a: seq<Word>, b: seq<Word>, drop: seq<nat>, at: nat)
    ensures Kept(a + b, drop, at) == Kept(a, drop, at) + Kept(b, drop, at + |a|)
  {
    if a == [] {
      assert a + b == b;
    } else {
      assert (a + b)[1..] == a[1..] + b && (a + b)[0] == a[0];
      KeptAppend(a[1..], b, drop, at + 1);
      var head := if at in drop then [] else [a[0]];
      assert head + (Kept(a[1..], drop, at + 1) + Kept(b, drop, at + |a|)) ==
             (head + Kept(a[1..], drop, at + 1)) + Kept(b, drop, at + |a|);
    }
  }

  lemma KeptAgree(words: seq<Word>, d: seq<nat>, e: seq<nat>, at: nat)
    requires forall p: nat :: at <= p < at + |words| ==> (p in d <==> p in e)
    ensures Kept(words, d, at) == Kept(words, e, at)
  {
  }

  lemma KeptAll(words: seq<Word>, drop: seq<nat>, at: nat)
    requires forall p: nat :: at <= p < at + |words| ==> p !in drop
    ensures Kept(words, drop, at) == words
  {
  }

  lemma KeptNone(words: seq<Word>, drop: seq<nat>, at: nat)
    requires forall p: nat :: at <= p < at + |words| ==> p in drop
    ensures Kept(words, drop, at) == []
  {
  }

  lemma PlacesAre(from: nat, count: nat)
    ensures forall p: nat :: p in Places(from, count) <==> from <= p < from + count
    decreases count
  {
    if count > 0 { PlacesAre(from + 1, count - 1); }
  }

  lemma PositionsBelow(units: seq<seq<Word>>)
    ensures forall p :: p in Positions(units, Agent) ==> p < |Flatten(units)|
  {
    if units != [] {
      var before, last := units[..|units| - 1], units[|units| - 1];
      PositionsBelow(before);
      assert units == before + [last];
      FlattenSnoc(before, last);
      PlacesAre(|Flatten(before)|, |last|);
    }
  }

  lemma DropsAgentsIn(before: seq<Word>, last: seq<Word>, p: seq<nat>, sets: bool)
    requires forall i :: i in p ==> i < |before|
    ensures Kept(before + last, p + (if sets then Places(|before|, |last|) else []), 0) ==
            Kept(before, p, 0) + (if sets then [] else last)
  {
    var n := |before|;
    var q := p + (if sets then Places(n, |last|) else []);
    PlacesAre(n, |last|);
    KeptAppend(before, last, q, 0);
    KeptAgree(before, p, q, 0);
    if sets {
      KeptNone(last, q, n);
    } else {
      KeptAll(last, q, n);
    }
  }

  lemma OthersSnoc(before: seq<seq<Word>>, last: seq<Word>)
    ensures Others(before + [last]) == Others(before) + (if Sets(last, Agent) then [] else [last])
    ensures Flatten(Others(before + [last])) == Flatten(Others(before)) + (if Sets(last, Agent) then [] else last)
  {
    assert (before + [last])[..|before|] == before;
    if Sets(last, Agent) {
      assert Others(before) + [] == Others(before);
    } else {
      FlattenSnoc(Others(before), last);
    }
  }

  /** Dropping the positions the walk collected drops exactly the agent units. */
  lemma {:induction false} DropsAgents(units: seq<seq<Word>>)
    ensures Kept(Flatten(units), Positions(units, Agent), 0) == Flatten(Others(units))
  {
    if units != [] {
      var before, last := units[..|units| - 1], units[|units| - 1];
      DropsAgents(before);
      PositionsBelow(before);
      DropsAgentsIn(Flatten(before), last, Positions(before, Agent), Sets(last, Agent));
      assert Flatten(units) == Flatten(before) + last by {
        assert units == before + [last];
        FlattenSnoc(before, last);
      }
      assert Flatten(Others(units)) == Flatten(Others(before)) + (if Sets(last, Agent) then [] else last) by {
        assert units == before + [last];
        OthersSnoc(before, last);
      }
    }
  }

  // --------------------------------------------------- what naming achieves

  /** The walks agree on everything but the agent. */
  predicate SameButAgent(v: OptionWalk, w: OptionWalk) {
    v.labelled == w.labelled && v.mode == w.mode && v.refusedWord == w.refusedWord
  }

  lemma ExtendedSame(v: OptionWalk, w: OptionWalk, unit: seq<Word>, at: nat, at': nat)
    requires SameButAgent(v, w)
    ensures SameButAgent(Extended(v, unit, at), Extended(w, unit, at'))
    ensures Sets(unit, Agent) ==> SameButAgent(v, Extended(w, unit, at'))
    ensures !Sets(unit, Agent) ==>
            Extended(v, unit, at).agent == v.agent && Extended(v, unit, at).agentFlags == v.agentFlags
  {
  }

  lemma OthersWalkSnoc(before: seq<seq<Word>>, last: seq<Word>)
    requires SameButAgent(WalkOf(Others(before)), WalkOf(before))
    requires WalkOf(Others(before)).agent == None && WalkOf(Others(before)).agentFlags == 0
    ensures SameButAgent(WalkOf(Others(before + [last])), WalkOf(before + [last]))
    ensures WalkOf(Others(before + [last])).agent == None && WalkOf(Others(before + [last])).agentFlags == 0
  {
    ExtendedSame(WalkOf(Others(before)), WalkOf(before), last, |Flatten(Others(before))|, |Flatten(before)|);
    WalkSnoc(before, last);
    OthersSnoc(before, last);
    if Sets(last, Agent) {
      assert Others(before) + [] == Others(before);
    } else {
      WalkSnoc(Others(before), last);
    }
  }

  lemma {:induction false} OthersWalk(units: seq<seq<Word>>)
    ensures SameButAgent(WalkOf(Others(units)), WalkOf(units))
    ensures WalkOf(Others(units)).agent == None && WalkOf(Others(units)).agentFlags == 0
  {
    if units != [] {
      var before, last := units[..|units| - 1], units[|units| - 1];
      OthersWalk(before);
      OthersWalkSnoc(before, last);
      assert units == before + [last];
    }
  }

  lemma {:induction false} OthersFrom(units: seq<seq<Word>>)
    ensures forall u :: u in Others(units) ==> u in units && !Sets(u, Agent)
  {
    if units != [] {
      OthersFrom(units[..|units| - 1]);
    }
  }

  lemma ProperFront(units: seq<seq<Word>>)
    requires Proper(units) && units != []
    ensures Proper(units[..|units| - 1]) && !AnyDangles(units[..|units| - 1])
  {
    var before := units[..|units| - 1];
    assert forall i :: 0 <= i < |before| ==> before[i] == units[i];
  }

  lemma ProperAppend(a: seq<seq<Word>>, b: seq<seq<Word>>)
    requires Proper(a) && Proper(b) && !AnyDangles(a)
    ensures Proper(a + b)
    ensures AnyDangles(a + b) ==> AnyDangles(b)
  {
    forall i | 0 <= i < |a + b|
      ensures IsUnit((a + b)[i]) && (Dangles((a + b)[i]) ==> i == |a + b| - 1 && AnyDangles(b))
    {
      if i < |a| { assert (a + b)[i] == a[i]; } else { assert (a + b)[i] == b[i - |a|]; }
    }
  }

  lemma {:induction false} OthersProper(units: seq<seq<Word>>)
    requires Proper(units)
    ensures Proper(Others(units))
    ensures AnyDangles(Others(units)) ==> |units| > 0 && Dangles(units[|units| - 1]) && !Sets(units[|units| - 1], Agent)
  {
    if units != [] {
      var before, last := units[..|units| - 1], units[|units| - 1];
      ProperFront(units);
      OthersProper(before);
      if !Sets(last, Agent) {
        OthersAligned(before);
        ProperAppend(Others(before), [last]);
      } else {
        assert Others(units) == Others(before);
        OthersAligned(before);
      }
    }
  }

  lemma OthersAligned(units: seq<seq<Word>>)
    requires !AnyDangles(units)
    ensures !AnyDangles(Others(units))
  {
    OthersFrom(units);
    forall i | 0 <= i < |Others(units)|
      ensures !Dangles(Others(units)[i])
    {
      assert Others(units)[i] in Others(units);
      var j :| 0 <= j < |units| && units[j] == Others(units)[i];
    }
  }

  /** The options name this agent, once, and no other. */
  predicate NamesExactly(options: seq<Word>, agent: string) {
    var walk := WalkOf(Units(options));
    walk.agent == Some(Some(agent)) && walk.agentFlags <= 1
  }

  /** The units naming keeps. */
  function Base(options: seq<Word>, agent: string): seq<seq<Word>> {
    if NamesExactly(options, agent) then Units(options) else Others(Units(options))
  }

  /** The units naming appends. */
  function Added(options: seq<Word>, agent: string): seq<seq<Word>> {
    (if AnySets(Units(options), Label) then [] else [LabelUnit(agent)]) +
    (if NamesExactly(options, agent) then [] else [AgentUnit(agent)])
  }

  lemma NamedIs(options: seq<Word>, agent: string)
    requires IsWrapperName(agent)
    ensures Named(options, Some(agent)) == Flatten(Base(options, agent)) + Flatten(Added(options, agent))
  {
    FlattenUnits(options);
    DropsAgents(Units(options));
    if NamesExactly(options, agent) {
      KeptAll(options, [], 0);
    }
    FlattenAdded(options, agent);
  }

  lemma FlattenAdded(options: seq<Word>, agent: string)
    ensures Flatten(Added(options, agent)) ==
            (if AnySets(Units(options), Label) then [] else LabelUnit(agent)) +
            (if NamesExactly(options, agent) then [] else AgentUnit(agent))
  {
    var first := if AnySets(Units(options), Label) then [] else [LabelUnit(agent)];
    var second := if NamesExactly(options, agent) then [] else [AgentUnit(agent)];
    FlattenAppend(first, second);
    FlattenOne(LabelUnit(agent));
    FlattenOne(AgentUnit(agent));
  }

  lemma FlattenOne(unit: seq<Word>)
    ensures Flatten([unit]) == unit
  {
    assert [unit][1..] == [] && unit + [] == unit;
  }

  lemma BaseProper(options: seq<Word>, agent: string)
    ensures Proper(Base(options, agent))
    ensures AnyDangles(Base(options, agent)) ==> !Aligned(options)
  {
    UnitsProper(options);
    OthersProper(Units(options));
  }

  lemma NamedUnits(options: seq<Word>, agent: string)
    requires IsWrapperName(agent) && !AnyDangles(Base(options, agent))
    ensures Units(Named(options, Some(agent))) == Base(options, agent) + Added(options, agent)
  {
    var base, added := Base(options, agent), Added(options, agent);
    NamedIs(options, agent);
    BaseProper(options, agent);
    FlattenAppend(base, added);
    ProperAppend(base, added);
    UnitsOfFlatten(base + added);
  }

  lemma CountOfLast(units: seq<seq<Word>>)
    ensures LastValue(units, Agent).Some? ==> CountSets(units, Agent) >= 1
  {
  }

  /** The walk over what naming keeps: the old one, less every other agent. */
  lemma BaseWalk(options: seq<Word>, agent: string)
    ensures SameButAgent(WalkOf(Base(options, agent)), WalkOf(Units(options)))
    ensures var w := WalkOf(Base(options, agent));
            if NamesExactly(options, agent) then w.agent == Some(Some(agent)) && w.agentFlags == 1
            else w.agent == None && w.agentFlags == 0
  {
    OthersWalk(Units(options));
    CountOfLast(Units(options));
  }

  function LabelUnit(agent: string): seq<Word> { [Str("--label"), Str(agent)] }

  function AgentUnit(agent: string): seq<Word> { [Str("--agent"), Str(agent)] }

  lemma AddedUnitFacts(w: OptionWalk, agent: string, at: nat)
    ensures var v := Extended(w, LabelUnit(agent), at);
            && v.labelled && v.agent == w.agent && v.agentFlags == w.agentFlags && v.mode == w.mode
            && v.refusedWord == w.refusedWord && v.takesTheSeparator == w.takesTheSeparator
    ensures var v := Extended(w, AgentUnit(agent), at);
            && v.labelled == w.labelled && v.agent == Some(Some(agent)) && v.agentFlags == w.agentFlags + 1
            && v.mode == w.mode && v.refusedWord == w.refusedWord && v.takesTheSeparator == w.takesTheSeparator
  {
  }

  lemma AddedWalk(base: seq<seq<Word>>, agent: string, labelled: bool, named: bool)
    ensures var v := WalkOf(base);
            var added := (if labelled then [] else [LabelUnit(agent)]) + (if named then [] else [AgentUnit(agent)]);
            var w := WalkOf(base + added);
            && w.labelled == (v.labelled || !labelled)
            && w.agent == (if named then v.agent else Some(Some(agent)))
            && w.agentFlags == v.agentFlags + (if named then 0 else 1)
            && w.takesTheSeparator == v.takesTheSeparator && w.mode == v.mode && w.refusedWord == v.refusedWord
  {
    var mid := base + (if labelled then [] else [LabelUnit(agent)]);
    if labelled {
      assert mid == base;
    } else {
      WalkSnoc(base, LabelUnit(agent));
      AddedUnitFacts(WalkOf(base), agent, |Flatten(base)|);
    }
    var added := (if labelled then [] else [LabelUnit(agent)]) + (if named then [] else [AgentUnit(agent)]);
    if named {
      assert base + added == mid;
    } else {
      assert base + added == mid + [AgentUnit(agent)];
      WalkSnoc(mid, AgentUnit(agent));
      AddedUnitFacts(WalkOf(mid), agent, |Flatten(mid)|);
    }
  }

  /** What the walk finds once the agent is named. */
  lemma NamedWalk(options: seq<Word>, agent: string)
    requires IsWrapperName(agent) && !AnyDangles(Base(options, agent))
    ensures var before, after := WalkOf(Units(options)), WalkOf(Units(Named(options, Some(agent))));
            && after.labelled && after.agent == Some(Some(agent)) && after.agentFlags == 1
            && !after.takesTheSeparator
            && after.mode == before.mode && after.refusedWord == before.refusedWord
  {
    NamedUnits(options, agent);
    BaseWalk(options, agent);
    AddedWalk(Base(options, agent), agent, AnySets(Units(options), Label), NamesExactly(options, agent));
  }

  /** Naming is then done: there is nothing left to drop or add. */
  lemma NamedStays(options: seq<Word>, agent: string)
    requires IsWrapperName(agent) && !AnyDangles(Base(options, agent))
    ensures var named := Named(options, Some(agent));
            NamingOf(named, Some(agent)) == Naming([], []) && Named(named, Some(agent)) == named
  {
    NamedWalk(options, agent);
    KeptAll(Named(options, Some(agent)), [], 0);
  }
}
