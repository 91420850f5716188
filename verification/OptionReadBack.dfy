/** How rewritten options read: the mode appended to them, and naming them twice. */
module OptionReadBack {
  import opened Options
  import opened Text
  import opened Json
  import opened ProxyOptions
  import opened OptionRewrites

  predicate AllWords(options: seq<Word>) {
    forall i :: 0 <= i < |options| ==> options[i].Str?
  }

  /** Whether a proxy started with these options refuses what the guard denies;
      `None` when it does not run them as they look. */
  function WrapperBlocks(options: seq<Word>): Option<bool> {
    if !AllWords(options) then None
    else
      var walk := WalkOf(Units(options));
      if walk.takesTheSeparator || walk.refusedWord then None
      else if walk.mode == None || walk.mode == Some(Some("guard")) || walk.mode == Some(Some("kill")) then Some(true)
      else if walk.mode == Some(Some("advisory")) || walk.mode == Some(Some("warn")) then Some(false)
      else None
  }

  /** The agent the proxy records. */
  function ProxyAgent(options: seq<Word>): Option<string> {
    var agent := WalkOf(Units(options)).agent;
    if agent.Some? && agent.value.Some? && IsAgentId(agent.value.value) then agent.value else None
  }

  function ModeName(monitor: bool): string {
    if monitor then "advisory" else "guard"
  }

  function ModeUnit(monitor: bool): seq<Word> {
    [Str("--mode"), Str(ModeName(monitor))]
  }

  // -------------------------------------------------------- the mode appended

  /** Every word is text, none is refused and the last flag has its value. */
  predicate Readable(options: seq<Word>) {
    AllWords(options) && Aligned(options) && !AnyRefused(Units(options))
  }

  lemma ModeUnitFacts(w: OptionWalk, monitor: bool, at: nat)
    ensures var v := Extended(w, ModeUnit(monitor), at);
            v == w.(mode := Some(Some(ModeName(monitor))))
  {
  }

  lemma AlignedMode(options: seq<Word>, monitor: bool)
    requires Aligned(options)
    ensures WalkOf(Units(options + ModeUnit(monitor))) == WalkOf(Units(options)).(mode := Some(Some(ModeName(monitor))))
  {
    UnitsAppend(options, ModeUnit(monitor));
    assert ModeUnit(monitor)[..2] == ModeUnit(monitor) && ModeUnit(monitor)[2..] == [];
    assert Units(ModeUnit(monitor)) == [ModeUnit(monitor)];
    WalkSnoc(Units(options), ModeUnit(monitor));
    ModeUnitFacts(WalkOf(Units(options)), monitor, |Flatten(Units(options))|);
  }

  lemma PlainWord(s: string)
    requires s == "" || s[0] != '-'
    ensures KindOf(Str(s)).Unknown?
    ensures Units([Str(s)]) == [[Str(s)]]
  {
    assert "--mode="[0] == '-' && "--label="[0] == '-' && "--agent="[0] == '-';
    assert "--mode"[0] == '-' && "--label"[0] == '-' && "--agent"[0] == '-' && "--error-response"[0] == '-';
    assert [Str(s)][..1] == [Str(s)] && [Str(s)][1..] == [];
  }

  lemma ModeNameIsRefused(monitor: bool)
    ensures KindOf(Str(ModeName(monitor))).Unknown?
    ensures Units([Str(ModeName(monitor))]) == [[Str(ModeName(monitor))]]
  {
    PlainWord(ModeName(monitor));
  }

  /** A dangling flag takes `--mode`, and the proxy exits on the word after. */
  lemma DanglingMode(options: seq<Word>, monitor: bool)
    requires !Aligned(options)
    ensures AnyRefused(Units(options + ModeUnit(monitor)))
  {
    var front, flag := UnitsDangling(options);
    var name := Str(ModeName(monitor));
    DanglingTakes(front, flag, ModeUnit(monitor));
    assert ModeUnit(monitor)[1..] == [name];
    ModeNameIsRefused(monitor);
    var units := Units(options + ModeUnit(monitor));
    assert units == Units(front) + [[flag, Str("--mode")]] + [[name]];
    assert Refused(units[|units| - 1]);
  }

  /** An appended mode reads as that mode, or the options do not read at all:
      never as another mode, whatever words came before. */
  lemma AppendedMode(options: seq<Word>, monitor: bool)
    ensures WrapperBlocks(options + ModeUnit(monitor)) == if Readable(options) then Some(!monitor) else None
  {
    var all := options + ModeUnit(monitor);
    assert AllWords(all) <==> AllWords(options) by {
      assert forall i :: 0 <= i < |options| ==> all[i] == options[i];
    }
    if Aligned(options) {
      AlignedMode(options, monitor);
    } else {
      DanglingMode(options, monitor);
    }
  }

  // ------------------------------------------------------------ naming twice

  /** A label without a value ends the options, so it would take the `--agent`
      that naming appends, and the options do not name the agent already. */
  predicate LosesItsName(options: seq<Word>, agent: Option<string>) {
    && agent.Some? && IsWrapperName(agent.value)
    && !Aligned(options) && options != [] && options[|options| - 1] == Str("--label")
    && !NamesExactly(options, agent.value)
  }

  lemma NotNamed(options: seq<Word>, agent: Option<string>)
    requires agent.None? || !IsWrapperName(agent.value)
    ensures Named(options, agent) == options
  {
    KeptAll(options, [], 0);
  }

  lemma LabelOrAgentLast(options: seq<Word>, flag: Word)
    requires TakesValue(flag) && !SaysMode(flag)
    ensures flag == Str("--label") || flag == Str("--agent")
    ensures KindOf(flag) == Valued(Label) || KindOf(flag) == Valued(Agent)
  {
  }

  /** Where a base dangles: at a `--label` nothing was appended to, or at one
      that loses the name. */
  lemma DanglingBase(options: seq<Word>, agent: string)
    requires IsWrapperName(agent) && Modeless(options)
    ensures AnyDangles(Base(options, agent)) <==>
            !Aligned(options) && options[|options| - 1] == Str("--label")
  {
    BaseProper(options, agent);
    if !Aligned(options) {
      var front, flag := UnitsDangling(options);
      assert options[|options| - 1] == flag;
      LabelOrAgentLast(options, flag);
      WalkSnoc(Units(front), [flag]);
      OthersSnoc(Units(front), [flag]);
      if flag == Str("--label") {
        var base := Base(options, agent);
        assert Dangles(base[|base| - 1]);
      } else {
        assert !NamesExactly(options, agent);
        OthersAligned(Units(front));
        assert Others(Units(front)) + [] == Others(Units(front));
      }
    }
  }

  lemma PositionsNone(units: seq<seq<Word>>)
    requires CountSets(units, Agent) == 0
    ensures Positions(units, Agent) == []
  {
  }

  lemma FrontOthers(front: seq<Word>)
    requires Aligned(front)
    ensures var kept := Flatten(Others(Units(front)));
            Units(kept) == Others(Units(front)) && Aligned(kept) &&
            WalkOf(Units(kept)).agent == None && WalkOf(Units(kept)).agentFlags == 0
  {
    UnitsProper(front);
    OthersProper(Units(front));
    OthersAligned(Units(front));
    UnitsOfFlatten(Others(Units(front)));
    OthersWalk(Units(front));
  }

  lemma NamedAfterLabel(options: seq<Word>, front: seq<Word>, agent: string)
    requires IsWrapperName(agent) && !NamesExactly(options, agent)
    requires options == front + [Str("--label")] && Units(options) == Units(front) + [[Str("--label")]]
    ensures Named(options, Some(agent)) == Flatten(Others(Units(front))) + [Str("--label")] + AgentUnit(agent)
  {
    var dangling := [Str("--label")];
    NamedIs(options, agent);
    WalkSnoc(Units(front), dangling);
    OthersSnoc(Units(front), dangling);
    assert Added(options, agent) == [] + [AgentUnit(agent)] == [AgentUnit(agent)];
    FlattenSnoc([], AgentUnit(agent));
    assert [] + [AgentUnit(agent)] == [AgentUnit(agent)];
  }

  /** The name appended after a dangling label is not read, so it is appended
      again. */
  lemma NameLost(options: seq<Word>, agent: string)
    requires LosesItsName(options, Some(agent))
    ensures |Named(Named(options, Some(agent)), Some(agent))| > |Named(options, Some(agent))|
  {
    var front, flag := UnitsDangling(options);
    assert options[|options| - 1] == flag;
    NamedAfterLabel(options, front, agent);
    FrontOthers(front);
    var kept := Flatten(Others(Units(front)));
    AppendedNameUnread(kept, flag, agent);
    NamedGrows(kept + [flag] + AgentUnit(agent), agent);
  }

  lemma NamedGrows(options: seq<Word>, agent: string)
    requires IsWrapperName(agent) && !NamesExactly(options, agent) && Positions(Units(options), Agent) == []
    ensures |Named(options, Some(agent))| > |options|
  {
    KeptAll(options, [], 0);
  }

  /** Nothing is appended after a dangling label when the name is there. */
  lemma NamedAlready(options: seq<Word>, agent: string)
    requires IsWrapperName(agent) && NamesExactly(options, agent)
    requires !Aligned(options) && options[|options| - 1] == Str("--label")
    ensures Named(options, Some(agent)) == options && NamingOf(options, Some(agent)) == Naming([], [])
  {
    var front, flag := UnitsDangling(options);
    assert options[|options| - 1] == flag;
    WalkSnoc(Units(front), [flag]);
    KeptAll(options, [], 0);
  }

  lemma AppendedNameUnread(front: seq<Word>, flag: Word, agent: string)
    requires Aligned(front) && KindOf(flag) == Valued(Label) && IsWrapperName(agent)
    requires WalkOf(Units(front)).agent == None && WalkOf(Units(front)).agentFlags == 0
    ensures var units := Units(front + [flag] + AgentUnit(agent));
            !NamesExactly(front + [flag] + AgentUnit(agent), agent) && Positions(units, Agent) == []
  {
    var name := Str(agent);
    DanglingTakes(front, flag, AgentUnit(agent));
    assert AgentUnit(agent)[1..] == [name];
    PlainWord(agent);
    var units := Units(front);
    WalkSnoc(units, [flag, Str("--agent")]);
    WalkSnoc(units + [[flag, Str("--agent")]], [name]);
    PositionsNone(Units(front + [flag] + AgentUnit(agent)));
  }

  /** Naming twice is naming once, exactly when the name is not lost. */
  lemma NamingTwice(options: seq<Word>, agent: Option<string>)
    requires Modeless(options)
    ensures Named(Named(options, agent), agent) == Named(options, agent) <==> !LosesItsName(options, agent)
  {
    if agent.None? || !IsWrapperName(agent.value) {
      NotNamed(options, agent);
    } else {
      DanglingBase(options, agent.value);
      if !AnyDangles(Base(options, agent.value)) {
        NamedStays(options, agent.value);
      } else if NamesExactly(options, agent.value) {
        NamedAlready(options, agent.value);
      } else {
        NameLost(options, agent.value);
      }
    }
  }

  /** Once named, options that do not lose the name have nothing to drop or add. */
  lemma NamingSettled(options: seq<Word>, agent: Option<string>)
    requires Modeless(options) && !LosesItsName(options, agent)
    ensures NamingOf(Named(options, agent), agent) == Naming([], [])
  {
    if agent.Some? && IsWrapperName(agent.value) {
      DanglingBase(options, agent.value);
      if !AnyDangles(Base(options, agent.value)) {
        NamedStays(options, agent.value);
      } else {
        NamedAlready(options, agent.value);
      }
    }
  }

  // ------------------------------------------- when the two readings agree

  /** No value of a label or an agent looks like a mode. */
  predicate ModeFreeValues(options: seq<Word>) {
    var units := Units(options);
    forall i :: 0 <= i < |units| && |units[i]| == 2 && !Sets(units[i], Mode) ==> !SaysMode(units[i][1])
  }

  function ModesDropped(units: seq<seq<Word>>): seq<seq<Word>> {
    if units == [] then []
    else (if Sets(units[0], Mode) then [] else [units[0]]) + ModesDropped(units[1..])
  }

  /** Stripping the mode word by word is then stripping it flag by flag. */
  lemma {:induction false} StripsModes(options: seq<Word>)
    requires ModeFreeValues(options)
    ensures WithoutMode(options) == Flatten(ModesDropped(Units(options)))
  {
    if options != [] {
      var w := Width(options);
      var unit, rest, units := options[..w], options[w..], Units(options);
      assert units == [unit] + Units(rest) && units[0] == unit && units[1..] == Units(rest);
      assert forall i :: 0 <= i < |Units(rest)| ==> Units(rest)[i] == units[i + 1];
      StripsModes(rest);
      StripsUnit(options);
      var dropped := ModesDropped(Units(rest));
      if Sets(unit, Mode) {
        assert [] + dropped == dropped;
      } else {
        assert ([unit] + dropped)[1..] == dropped;
      }
    }
  }

  lemma StripsUnit(options: seq<Word>)
    requires options != []
    requires Width(options) == 2 && !Sets(options[..2], Mode) ==> !SaysMode(options[1])
    ensures var w := Width(options);
            WithoutMode(options) == (if Sets(options[..w], Mode) then [] else options[..w]) + WithoutMode(options[w..])
  {
    var w := Width(options);
    if w == 2 && !Sets(options[..w], Mode) {
      assert options[1..][0] == options[1] && options[1..][1..] == options[2..];
      assert [options[0]] + ([options[1]] + WithoutMode(options[2..])) == options[..2] + WithoutMode(options[2..]);
    }
  }

  lemma FirstUnit(unit: seq<Word>, rest: seq<seq<Word>>)
    requires IsUnit(unit) && Proper(rest) && (Dangles(unit) ==> rest == [])
    ensures Proper([unit] + rest)
    ensures AnyDangles([unit] + rest) <==> Dangles(unit) || AnyDangles(rest)
    ensures AnyRefused([unit] + rest) <==> Refused(unit) || AnyRefused(rest)
  {
    var units := [unit] + rest;
    assert units[0] == unit && forall i :: 0 <= i < |rest| ==> units[i + 1] == rest[i];
    assert forall i :: 1 <= i < |units| ==> units[i] == rest[i - 1];
  }

  lemma {:induction false} ModesDroppedFacts(units: seq<seq<Word>>)
    requires Proper(units)
    ensures Proper(ModesDropped(units))
    ensures |ModesDropped(units)| <= |units|
    ensures !AnyDangles(units) ==> !AnyDangles(ModesDropped(units))
    ensures !AnyRefused(units) ==> !AnyRefused(ModesDropped(units))
  {
    if units != [] {
      var unit, tail := units[0], units[1..];
      assert units == [unit] + tail;
      assert forall i :: 0 <= i < |tail| ==> tail[i] == units[i + 1];
      ModesDroppedFacts(tail);
      FirstUnit(unit, tail);
      if Sets(unit, Mode) {
        assert [] + ModesDropped(tail) == ModesDropped(tail);
      } else {
        FirstUnit(unit, ModesDropped(tail));
      }
    }
  }

  /** Readable options stay readable without their mode, and keep their name. */
  lemma StrippedReadable(options: seq<Word>)
    requires Readable(options) && ModeFreeValues(options)
    ensures Readable(WithoutMode(options))
  {
    StripsModes(options);
    UnitsProper(options);
    ModesDroppedFacts(Units(options));
    UnitsOfFlatten(ModesDropped(Units(options)));
    WithoutModeIsModeless(options);
    forall i | 0 <= i < |WithoutMode(options)|
      ensures WithoutMode(options)[i].Str?
    {
      assert WithoutMode(options)[i] in options;
    }
  }

  lemma KeptFrom(words: seq<Word>, drop: seq<nat>, at: nat)
    ensures forall w :: w in Kept(words, drop, at) ==> w in words
  {
  }

  /** Naming keeps readable options readable. */
  lemma NamedReadable(options: seq<Word>, agent: Option<string>)
    requires Readable(options)
    ensures Readable(Named(options, agent))
  {
    if agent.None? || !IsWrapperName(agent.value) {
      NotNamed(options, agent);
    } else {
      BaseProper(options, agent.value);
      NamedWalk(options, agent.value);
      KeptFrom(options, NamingOf(options, agent).drop, 0);
      var kept := Kept(options, NamingOf(options, agent).drop, 0);
      forall i | 0 <= i < |Named(options, agent)|
        ensures Named(options, agent)[i].Str?
      {
        if i < |kept| { assert kept[i] in kept; }
      }
    }
  }
}
