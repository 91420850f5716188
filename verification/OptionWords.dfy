/** What single words of a proxy's command line mean, said of the words
    themselves. */
module OptionWords {
  import opened Options
  import opened Text
  import opened Json
  import opened ProxyOptions
  import opened OptionRewrites
  import opened OptionReadBack

  // -------------------------------------------------------------- the words

  function FlagText(flag: Flag): string {
    match flag
    case Label => "--label"
    case Mode => "--mode"
    case Agent => "--agent"
  }

  lemma BareFlag(flag: Flag)
    ensures KindOf(Str(FlagText(flag))) == Valued(flag)
  {
    assert FlagText(Mode)[2] == 'm' && FlagText(Label)[2] == 'l' && FlagText(Agent)[2] == 'a';
  }

  /** What tells the flags with an inline value apart. */
  lemma InlineStarts(s: string)
    ensures "--mode=" <= s ==> |s| >= 7 && s[2] == 'm' && s[6] == '='
    ensures "--label=" <= s ==> |s| >= 8 && s[2] == 'l' && s[7] == '='
    ensures "--agent=" <= s ==> |s| >= 8 && s[2] == 'a' && s[7] == '='
  {
    assert "--mode="[2] == 'm' && "--mode="[6] == '=';
    assert "--label="[2] == 'l' && "--label="[7] == '=';
    assert "--agent="[2] == 'a' && "--agent="[7] == '=';
  }

  lemma InlineFlag(flag: Flag, value: string)
    ensures KindOf(Str(FlagText(flag) + "=" + value)) == Inline(flag, value)
  {
    var s := FlagText(flag) + "=" + value;
    var n := |FlagText(flag)| + 1;
    InlineStarts(s);
    assert s[..n] == FlagText(flag) + "=" && s[n..] == value;
    assert FlagText(Mode) + "=" == "--mode=" && FlagText(Label) + "=" == "--label=";
    assert FlagText(Agent) + "=" == "--agent=";
    assert |"--mode"| == 6 && |"--label"| == 7 && |"--agent"| == 7;
    assert s[2] == FlagText(flag)[2] && s[n - 1] == '=';
  }

  // ---------------------------------------------- inline and separate values

  lemma PairUnits(front: seq<Word>, flag: Flag, value: string)
    requires Aligned(front)
    ensures var w := WalkOf(Units(front + [Str(FlagText(flag)), Str(value)]));
            w == Extended(WalkOf(Units(front)), [Str(FlagText(flag)), Str(value)], |front|)
  {
    var pair := [Str(FlagText(flag)), Str(value)];
    BareFlag(flag);
    UnitsAppend(front, pair);
    assert pair[..2] == pair && pair[2..] == [];
    assert Units(pair) == [pair];
    FlattenUnits(front);
    WalkSnoc(Units(front), pair);
  }

  lemma UnitAlone(word: Word)
    ensures Units([word]) == [[word]]
  {
    assert [word][..1] == [word] && [word][1..] == [];
  }

  lemma OneUnit(front: seq<Word>, word: Word)
    requires Aligned(front)
    ensures WalkOf(Units(front + [word])) == Extended(WalkOf(Units(front)), [word], |front|)
  {
    UnitsAppend(front, [word]);
    UnitAlone(word);
    FlattenUnits(front);
    WalkSnoc(Units(front), [word]);
  }

  /** But for where its words stand, a value behind `=` and a value in the next
      word are found alike. */
  predicate FoundAlike(v: OptionWalk, w: OptionWalk) {
    && v.labelled == w.labelled && v.agent == w.agent && v.agentFlags == w.agentFlags && v.mode == w.mode
    && v.takesTheSeparator == w.takesTheSeparator && v.refusedWord == w.refusedWord
  }

  lemma InlineFound(front: seq<Word>, flag: Flag, value: string)
    requires Aligned(front)
    ensures FoundAlike(WalkOf(Units(front + [Str(FlagText(flag) + "=" + value)])),
                       WalkOf(Units(front + [Str(FlagText(flag)), Str(value)])))
  {
    var word, pair := Str(FlagText(flag) + "=" + value), [Str(FlagText(flag)), Str(value)];
    OneUnit(front, word);
    PairUnits(front, flag, value);
    InlineFlag(flag, value);
    BareFlag(flag);
    ExtendedByInline(WalkOf(Units(front)), [word], |front|, flag, value);
    ExtendedByValued(WalkOf(Units(front)), pair, |front|, flag);
  }

  lemma AllWordsMore(front: seq<Word>, s: string, t: string)
    ensures AllWords(front + [Str(s)]) <==> AllWords(front)
    ensures AllWords(front + [Str(s), Str(t)]) <==> AllWords(front)
  {
    var one, two := front + [Str(s)], front + [Str(s), Str(t)];
    assert forall i :: 0 <= i < |front| ==> one[i] == front[i] && two[i] == front[i];
  }

  /** After any options whose flags have their values, `--mode=v`, `--label=v` and
      `--agent=v` say what `--mode v`, `--label v` and `--agent v` say. */
  lemma InlineIsSeparate(front: seq<Word>, flag: Flag, value: string)
    requires Aligned(front)
    ensures var inline := front + [Str(FlagText(flag) + "=" + value)];
            var separate := front + [Str(FlagText(flag)), Str(value)];
            && WrapperBlocks(inline) == WrapperBlocks(separate)
            && ProxyAgent(inline) == ProxyAgent(separate)
            && WalkOf(Units(inline)).labelled == WalkOf(Units(separate)).labelled
  {
    InlineFound(front, flag, value);
    AllWordsMore(front, FlagText(flag) + "=" + value, value);
    AllWordsMore(front, FlagText(flag), value);
  }

  // ------------------------------------------------------- what each word says

  lemma NoOptions()
    ensures Units([]) == [] && Aligned([])
    ensures WalkOf([]) == OptionWalk(false, None, 0, [], None, false, false)
  {
  }

  /** No options: the proxy refuses what is denied, and records no agent. */
  lemma NoOptionsRead()
    ensures WrapperBlocks([]) == Some(true) && ProxyAgent([]) == None
  {
    NoOptions();
  }

  /** A mode in its own word: `guard` and `kill` refuse, `advisory` and `warn`
      record, and no other is taken. */
  lemma ModeReads(value: string)
    ensures WrapperBlocks([Str("--mode"), Str(value)]) ==
            if value == "guard" || value == "kill" then Some(true)
            else if value == "advisory" || value == "warn" then Some(false)
            else None
  {
    NoOptions();
    PairUnits([], Mode, value);
    BareFlag(Mode);
    assert [] + [Str("--mode"), Str(value)] == [Str("--mode"), Str(value)];
    ExtendedByValued(WalkOf([]), [Str("--mode"), Str(value)], 0, Mode);
    AllWordsMore([], "--mode", value);
  }

  /** A label or an agent says nothing of the mode; an agent is recorded when it
      is a plain id. */
  lemma NameReads(flag: Flag, value: string)
    requires flag != Mode
    ensures WrapperBlocks([Str(FlagText(flag)), Str(value)]) == Some(true)
    ensures ProxyAgent([Str(FlagText(flag)), Str(value)]) ==
            if flag == Agent && IsAgentId(value) then Some(value) else None
  {
    NoOptions();
    PairUnits([], flag, value);
    BareFlag(flag);
    assert [] + [Str(FlagText(flag)), Str(value)] == [Str(FlagText(flag)), Str(value)];
    ExtendedByValued(WalkOf([]), [Str(FlagText(flag)), Str(value)], 0, flag);
    AllWordsMore([], FlagText(flag), value);
  }

  lemma Alone(word: Word)
    ensures WalkOf(Units([word])) == Extended(WalkOf([]), [word], 0)
  {
    NoOptions();
    OneUnit([], word);
    assert [] + [word] == [word];
  }

  /** A flag with no value, a word that is not an option, and one that is not
      text do not read. */
  lemma NotAnOption(word: Word)
    requires word.Str? ==>
               && word.s != "--error-response"
               && !("--mode=" <= word.s) && !("--label=" <= word.s) && !("--agent=" <= word.s)
    ensures WrapperBlocks([word]) == None
  {
    Alone(word);
    if word.Str? {
      BareFlag(Mode);
      BareFlag(Label);
      BareFlag(Agent);
    }
  }

  lemma ErrorResponse()
    ensures WrapperBlocks([Str("--error-response")]) == Some(true) && ProxyAgent([Str("--error-response")]) == None
  {
    var word := Str("--error-response");
    Alone(word);
    InlineStarts("--error-response");
    assert "--error-response"[2] == 'e';
    assert KindOf(word) == ProxyOptions.ErrorResponse by {
      assert "--mode"[2] == 'm' && "--label"[2] == 'l' && "--agent"[2] == 'a';
    }
    ExtendedByOther(WalkOf([]), [word], 0);
    AllWordsMore([], "--error-response", "");
    assert [] + [word] == [word];
  }

  /** Stripping takes exactly the words that say a mode. */
  lemma StripsExactly(s: string)
    ensures WithoutMode([Str(s)]) == if s == "--mode" || "--mode=" <= s then [] else [Str(s)]
    ensures WithoutMode([Str("--mode"), Str(s)]) == []
  {
    BareFlag(Mode);
    InlineStarts(s);
    if "--mode=" <= s {
      InlineFlag(Mode, s[7..]);
      assert FlagText(Mode) + "=" == "--mode=" && "--mode=" + s[7..] == s;
    }
    assert [Str(s)][1..] == [] && WithoutMode([]) == [];
    assert [Str("--mode"), Str(s)][2..] == [];
  }

  // ---------------------------------------------------------- what naming writes

  /** Options that say nothing gain a label and an agent. */
  lemma NamesTheUnnamed(agent: string)
    requires IsWrapperName(agent)
    ensures Named([], Some(agent)) == [Str("--label"), Str(agent), Str("--agent"), Str(agent)]
  {
    NoOptions();
  }

  /** A label that is there is kept, and only the agent is added. */
  lemma KeepsALabel(value: string, agent: string)
    requires IsWrapperName(agent)
    ensures Named([Str("--label"), Str(value)], Some(agent)) ==
            [Str("--label"), Str(value), Str("--agent"), Str(agent)]
  {
    NoOptions();
    PairUnits([], Label, value);
    BareFlag(Label);
    var options := [Str("--label"), Str(value)];
    assert [] + options == options;
    ExtendedByValued(WalkOf([]), options, 0, Label);
    KeptAll(options, [], 0);
  }

  lemma OnlyAnAgent(options: seq<Word>)
    requires Units(options) == [options] && Sets(options, Agent) && !Sets(options, Label)
    ensures Others(Units(options)) == [] && !AnySets(Units(options), Label)
  {
    assert Units(options)[..0] == [] && Others([]) == [];
  }

  lemma NamedAfresh(options: seq<Word>, agent: string)
    requires IsWrapperName(agent) && !NamesExactly(options, agent)
    requires Others(Units(options)) == [] && !AnySets(Units(options), Label)
    ensures Named(options, Some(agent)) == LabelUnit(agent) + AgentUnit(agent)
  {
    NamedIs(options, agent);
    FlattenAdded(options, agent);
    assert Flatten([]) == [];
  }

  lemma NamesAnother(other: string, agent: string)
    requires other != agent
    ensures !NamesExactly([Str("--agent"), Str(other)], agent)
  {
    NoOptions();
    PairUnits([], Agent, other);
    BareFlag(Agent);
    var options := [Str("--agent"), Str(other)];
    assert [] + options == options;
    ExtendedByValued(WalkOf([]), options, 0, Agent);
  }

  /** Another agent's name goes, and this one's comes. */
  lemma ReplacesAnAgent(other: string, agent: string)
    requires IsWrapperName(agent) && other != agent
    ensures Named([Str("--agent"), Str(other)], Some(agent)) ==
            [Str("--label"), Str(agent), Str("--agent"), Str(agent)]
  {
    var options := [Str("--agent"), Str(other)];
    BareFlag(Agent);
    assert options[..2] == options && options[2..] == [];
    assert Units(options) == [options];
    OnlyAnAgent(options);
    NamesAnother(other, agent);
    NamedAfresh(options, agent);
  }

  // ------------------------------------------------------------- agents' names

  /** A plain id is made of lower-case letters, digits, hyphens and underscores,
      64 of them at most. */
  lemma PlainIds(c: char, front: string, back: string)
    ensures IsAgentId([c]) <==> 'a' <= c <= 'z' || '0' <= c <= '9' || c == '-' || c == '_'
    ensures front != "" && back != "" && |front + back| <= 64 ==>
              (IsAgentId(front + back) <==> IsAgentId(front) && IsAgentId(back))
    ensures |front| == 0 || |front| > 64 ==> !IsAgentId(front)
  {
    var all := front + back;
    assert forall i :: 0 <= i < |front| ==> all[i] == front[i];
    assert forall i :: 0 <= i < |back| ==> all[|front| + i] == back[i];
    assert [c][0] == c;
  }

  /** Only a plain id that does not look like a flag is ever written into a
      wrapper: under any other name the options stay as they are. */
  lemma OnlyPlainNames(options: seq<Word>, agent: Option<string>)
    requires agent.None? || !IsAgentId(agent.value) || "-" <= agent.value
    ensures Named(options, agent) == options
  {
    KeptAll(options, [], 0);
  }
}
