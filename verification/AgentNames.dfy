/** Which agent a name is taken for: case, separators and the blanks around a
    name do not count, and everything else does. */
module AgentNames {
  import opened Options
  import opened Text
  import opened Discovery
  import opened AgentRows

  // ------------------------------------------------------ what does not count

  /** One character for another that reads the same in a name. */
  predicate AlikeChars(c: char, d: char) {
    || c == d
    || (c in {' ', '_', '-'} && d in {' ', '_', '-'})
    || ('A' <= c <= 'Z' && d as int == c as int + 32)
    || ('A' <= d <= 'Z' && c as int == d as int + 32)
  }

  /** No whitespace but spaces. */
  predicate OnlySpaces(name: string) {
    forall i :: 0 <= i < |name| ==> IsWhitespace(name[i]) ==> name[i] == ' '
  }

  predicate AlikeNames(a: string, b: string) {
    |a| == |b| && forall i :: 0 <= i < |a| ==> AlikeChars(a[i], b[i])
  }

  lemma AlikeLower(c: char, d: char)
    requires AlikeChars(c, d)
    ensures IsSeparator(LowerChar(c)) <==> IsSeparator(LowerChar(d))
    ensures !IsSeparator(LowerChar(c)) ==> LowerChar(c) == LowerChar(d)
  {
  }

  function Parts(name: string): seq<string> {
    SplitAt(AsciiLower(name), IsSeparator)
  }

  lemma LowerFirst(name: string)
    requires name != ""
    ensures AsciiLower(name) == [LowerChar(name[0])] + AsciiLower(name[1..])
    ensures AsciiLower(name)[1..] == AsciiLower(name[1..])
  {
  }

  lemma {:induction false} AlikeParts(a: string, b: string)
    requires AlikeNames(a, b)
    ensures Parts(a) == Parts(b)
  {
    if a != "" {
      AlikeLower(a[0], b[0]);
      AlikeParts(a[1..], b[1..]);
      LowerFirst(a);
      LowerFirst(b);
    }
  }

  lemma {:induction false} EmptyLast(parts: seq<string>)
    ensures Hyphenated(parts + [""]) == Hyphenated(parts)
  {
    if parts == [] {
      assert [""][1..] == [];
    } else {
      assert (parts + [""])[1..] == parts[1..] + [""];
      EmptyLast(parts[1..]);
    }
  }

  lemma {:induction false} SeparatorLast(s: string, c: char)
    requires IsSeparator(c)
    ensures SplitAt(s + [c], IsSeparator) == SplitAt(s, IsSeparator) + [""]
  {
    var all := s + [c];
    if s == "" {
      assert all == [c] && all[1..] == "";
    } else {
      assert all[1..] == s[1..] + [c];
      SeparatorLast(s[1..], c);
    }
  }

  /** A separator at either end adds nothing. */
  lemma SeparatorEnds(name: string)
    requires name != ""
    ensures IsSeparator(name[0]) ==> Hyphenated(Parts(name)) == Hyphenated(Parts(name[1..]))
    ensures var n := |name| - 1;
            IsSeparator(name[n]) ==> Hyphenated(Parts(name)) == Hyphenated(Parts(name[..n]))
  {
    var n := |name| - 1;
    if IsSeparator(name[0]) {
      LowerFirst(name);
      assert ([""] + Parts(name[1..]))[1..] == Parts(name[1..]);
    }
    if IsSeparator(name[n]) {
      assert AsciiLower(name) == AsciiLower(name[..n]) + [name[n]];
      SeparatorLast(AsciiLower(name[..n]), name[n]);
      EmptyLast(Parts(name[..n]));
    }
  }

  lemma {:induction false} SkipNothing(name: string)
    requires OnlySpaces(name)
    ensures OnlySpaces(SkipSpaces(name)) && Hyphenated(Parts(SkipSpaces(name))) == Hyphenated(Parts(name))
  {
    if name != "" && IsWhitespace(name[0]) {
      SkipNothing(name[1..]);
      SeparatorEnds(name);
    }
  }

  lemma {:induction false} TrimNothing(name: string)
    requires OnlySpaces(name)
    ensures Hyphenated(Parts(TrimEnd(name))) == Hyphenated(Parts(name))
  {
    if name != "" && IsWhitespace(name[|name| - 1]) {
      TrimNothing(name[..|name| - 1]);
      SeparatorEnds(name);
    }
  }

  lemma NormalParts(name: string)
    requires OnlySpaces(name)
    ensures Normalized(name) == Hyphenated(Parts(name))
  {
    SkipNothing(name);
    TrimNothing(SkipSpaces(name));
  }

  /** Letters in either case, and a space, an underscore or a hyphen for one
      another, name the same agent. */
  lemma CaseAndSeparators(table: seq<Known>, a: string, b: string)
    requires AlikeNames(a, b) && OnlySpaces(a) && OnlySpaces(b)
    ensures Canonical(table, a) == Canonical(table, b)
  {
    NormalParts(a);
    NormalParts(b);
    AlikeParts(a, b);
    SameNormal(table, a, b);
  }

  lemma SameNormal(table: seq<Known>, a: string, b: string)
    requires Normalized(a) == Normalized(b)
    ensures Canonical(table, a) == Canonical(table, b)
  {
  }

  /** A separator more, before, after or next to another, names the same agent. */
  lemma MoreSeparators(table: seq<Known>, front: string, back: string, c: char)
    requires c in {' ', '_', '-'} && OnlySpaces(front) && OnlySpaces(back)
    ensures Canonical(table, [c] + back) == Canonical(table, back)
    ensures Canonical(table, front + [c]) == Canonical(table, front)
    ensures Canonical(table, front + [c] + [c] + back) == Canonical(table, front + [c] + back)
  {
    SeparatorFirst(back, c);
    SeparatorAfter(front, c);
    SeparatorTwice(front, back, c);
    SameNormal(table, [c] + back, back);
    SameNormal(table, front + [c], front);
    SameNormal(table, front + [c] + [c] + back, front + [c] + back);
  }

  lemma SeparatorFirst(name: string, c: char)
    requires IsSeparator(c) && OnlySpaces(name)
    ensures Normalized([c] + name) == Normalized(name)
  {
    NormalParts(name);
    NormalParts([c] + name);
    assert ([c] + name)[1..] == name;
    SeparatorEnds([c] + name);
  }

  lemma SeparatorAfter(name: string, c: char)
    requires IsSeparator(c) && OnlySpaces(name)
    ensures Normalized(name + [c]) == Normalized(name)
  {
    NormalParts(name);
    NormalParts(name + [c]);
    assert (name + [c])[..|name|] == name;
    SeparatorEnds(name + [c]);
  }

  lemma SeparatorTwice(front: string, back: string, c: char)
    requires IsSeparator(c) && OnlySpaces(front) && OnlySpaces(back)
    ensures Normalized(front + [c] + [c] + back) == Normalized(front + [c] + back)
  {
    NormalParts(front + [c] + back);
    NormalParts(front + [c] + [c] + back);
    Doubled(front, back, c);
  }

  lemma {:induction false} EmptyInside(front: seq<string>, back: seq<string>)
    ensures Hyphenated(front + [""] + back) == Hyphenated(front + back)
  {
    if front == [] {
      assert front + [""] + back == [""] + back && front + back == back;
      assert ([""] + back)[1..] == back;
    } else {
      assert (front + [""] + back)[1..] == front[1..] + [""] + back && (front + back)[1..] == front[1..] + back;
      EmptyInside(front[1..], back);
    }
  }

  lemma Regrouped(first: seq<string>, rest: seq<string>, c: char)
    requires |first| >= 1
    ensures [[c] + (first + rest)[0]] + (first + rest)[1..] == ([[c] + first[0]] + first[1..]) + rest
    ensures [""] + (first + rest) == ([""] + first) + rest
  {
    assert (first + rest)[0] == first[0] && (first + rest)[1..] == first[1..] + rest;
  }

  lemma SplitFirst(s: string)
    requires s != ""
    ensures var rest := SplitAt(s[1..], IsSeparator);
            SplitAt(s, IsSeparator) == if IsSeparator(s[0]) then [""] + rest else [[s[0]] + rest[0]] + rest[1..]
  {
  }

  lemma {:induction false} SplitBetween(a: string, c: char, b: string)
    requires IsSeparator(c)
    ensures SplitAt(a + [c] + b, IsSeparator) == SplitAt(a, IsSeparator) + SplitAt(b, IsSeparator)
  {
    var s := a + [c] + b;
    if a == "" {
      assert s[1..] == b;
    } else {
      assert s[1..] == a[1..] + [c] + b && s[0] == a[0];
      SplitBetween(a[1..], c, b);
      SplitFirst(a);
      SplitFirst(s);
      Regrouped(SplitAt(a[1..], IsSeparator), SplitAt(b, IsSeparator), a[0]);
    }
  }

  lemma Doubled(front: string, back: string, c: char)
    requires IsSeparator(c)
    ensures Hyphenated(Parts(front + [c] + [c] + back)) == Hyphenated(Parts(front + [c] + back))
  {
    var a, b := AsciiLower(front), AsciiLower(back);
    assert AsciiLower(front + [c] + back) == a + [c] + b;
    assert AsciiLower(front + [c] + [c] + back) == a + [c] + ([c] + b);
    SplitBetween(a, c, b);
    SplitBetween(a, c, [c] + b);
    assert ([c] + b)[1..] == b;
    EmptyInside(Parts(front), Parts(back));
    assert Parts(front) + ([""] + Parts(back)) == Parts(front) + [""] + Parts(back);
  }

  // ------------------------------------------------------------- blanks around

  lemma {:induction false} SkipPad(pad: string, name: string)
    requires IsBlank(pad)
    ensures SkipSpaces(pad + name) == SkipSpaces(name)
  {
    if pad == "" {
      assert pad + name == name;
    } else {
      assert (pad + name)[1..] == pad[1..] + name && (pad + name)[0] == pad[0];
      SkipPad(pad[1..], name);
    }
  }

  lemma {:induction false} TrimPad(name: string, pad: string)
    requires IsBlank(pad)
    ensures TrimEnd(name + pad) == TrimEnd(name)
  {
    if pad == "" {
      assert name + pad == name;
    } else {
      var n := |pad| - 1;
      assert (name + pad)[..|name + pad| - 1] == name + pad[..n] && (name + pad)[|name + pad| - 1] == pad[n];
      TrimPad(name, pad[..n]);
    }
  }

  lemma {:induction false} SkipBeforePad(name: string, pad: string)
    requires IsBlank(pad)
    ensures TrimEnd(SkipSpaces(name + pad)) == TrimEnd(SkipSpaces(name))
  {
    if name == "" {
      assert name + pad == pad + "";
      SkipPad(pad, "");
    } else if IsWhitespace(name[0]) {
      assert (name + pad)[1..] == name[1..] + pad;
      SkipBeforePad(name[1..], pad);
    } else {
      TrimPad(name, pad);
    }
  }

  /** Whitespace of any kind around a name does not count. */
  lemma BlanksAround(table: seq<Known>, before: string, name: string, after: string)
    requires IsBlank(before) && IsBlank(after)
    ensures Canonical(table, before + name + after) == Canonical(table, name)
  {
    assert before + name + after == before + (name + after);
    SkipPad(before, name + after);
    SkipBeforePad(name, after);
    SameNormal(table, before + name + after, name);
  }

  // ------------------------------------------------------------- what does count

  predicate IsPlain(c: char) {
    'a' <= c <= 'z' || '0' <= c <= '9'
  }

  /** Lower-case words with single hyphens between them. */
  predicate IsPlainName(s: string) {
    && s != "" && s[0] != '-' && s[|s| - 1] != '-'
    && (forall i :: 0 <= i < |s| ==> IsPlain(s[i]) || s[i] == '-')
    && (forall i :: 0 <= i < |s| - 1 ==> !(s[i] == '-' && s[i + 1] == '-'))
  }

  lemma LongerFirst(c: char, parts: seq<string>)
    requires |parts| >= 1 && parts[0] != ""
    ensures Hyphenated([[c] + parts[0]] + parts[1..]) == [c] + Hyphenated(parts)
  {
    assert ([[c] + parts[0]] + parts[1..])[1..] == parts[1..];
  }

  lemma PlainThen(s: string, back: string)
    requires back != "" && |s| >= 2 && !IsSeparator(s[0]) && s[1] == '-' && back == s[2..]
    requires Hyphenated(SplitAt(back, IsSeparator)) == back
    ensures Hyphenated(SplitAt(s, IsSeparator)) == s && SplitAt(s, IsSeparator)[0] != ""
  {
    var parts := SplitAt(back, IsSeparator);
    assert s[1..][1..] == back;
    SplitFirst(s[1..]);
    SplitFirst(s);
    assert ([""] + parts)[0] == "" && ([""] + parts)[1..] == parts;
    assert [s[0]] + "" == [s[0]];
    assert SplitAt(s, IsSeparator) == [[s[0]]] + parts;
    assert ([[s[0]]] + parts)[1..] == parts;
    assert [s[0]] + "-" + back == s;
  }

  lemma {:induction false} PlainJoined(s: string)
    requires IsPlainName(s)
    ensures Hyphenated(SplitAt(s, IsSeparator)) == s
    ensures SplitAt(s, IsSeparator)[0] != ""
    decreases |s|
  {
    var rest := SplitAt(s[1..], IsSeparator);
    assert IsPlain(s[0]);
    if |s| == 1 {
      assert s[1..] == "" && [[s[0]] + ""][1..] == [];
    } else if s[1] == '-' {
      PlainJoined(s[2..]);
      PlainThen(s, s[2..]);
    } else {
      assert IsPlainName(s[1..]);
      PlainJoined(s[1..]);
      LongerFirst(s[0], rest);
    }
  }

  /** A plain name is its own normal form, so two of them are not confused. */
  lemma PlainStays(s: string)
    requires IsPlainName(s)
    ensures Normalized(s) == s
  {
    NormalParts(s);
    assert AsciiLower(s) == s;
    PlainJoined(s);
  }

  // ------------------------------------------------------------ the known agents

  /** The plain names each known agent goes by, in the order of the table. */
  const PlainNames: seq<seq<string>> := [
    ["claude-code", "claude"],
    ["cursor"],
    ["codex", "codex-cli", "openai-codex"],
    ["gemini", "gemini-cli"],
    ["goose"],
    ["aider"],
    ["openclaw", "moltbot", "clawdbot", "molty"],
    ["hermes", "hermes-agent", "hermes-acp"]]

  predicate AllPlain(plain: seq<string>) {
    forall i :: 0 <= i < |plain| ==> IsPlainName(plain[i])
  }

  /** One of these names, but for what does not count. */
  predicate Spells(alias: string, plain: seq<string>) {
    OnlySpaces(alias) && exists i :: 0 <= i < |plain| && AlikeNames(alias, plain[i])
  }

  /** The agent's name and aliases are these plain names, perhaps spelled otherwise. */
  predicate GoesBy(known: Known, plain: seq<string>) {
    && AllPlain(plain) && Spells(known.name, plain)
    && (forall i :: 0 <= i < |known.aliases| ==> Spells(known.aliases[i], plain))
    && (forall i :: 0 <= i < |plain| ==> plain[i] == known.name || plain[i] in known.aliases)
  }

  lemma Spelled(alias: string, plain: seq<string>)
    requires Spells(alias, plain) && AllPlain(plain)
    ensures Normalized(alias) in plain
  {
    var i :| 0 <= i < |plain| && AlikeNames(alias, plain[i]);
    PlainStays(plain[i]);
    NormalParts(alias);
    NormalParts(plain[i]);
    AlikeParts(alias, plain[i]);
  }

  lemma AnswersBy(known: Known, plain: seq<string>, detected: string)
    requires GoesBy(known, plain)
    ensures Answers(known, detected) <==> detected in plain
  {
    Spelled(known.name, plain);
    forall i | 0 <= i < |known.aliases|
      ensures Normalized(known.aliases[i]) in plain
    {
      Spelled(known.aliases[i], plain);
    }
    if detected in plain {
      PlainStays(detected);
    }
  }

  lemma SpellsItself(plain: seq<string>, i: nat)
    requires AllPlain(plain) && i < |plain|
    ensures Spells(plain[i], plain)
  {
    assert AlikeNames(plain[i], plain[i]);
  }

  lemma GoesByPlain(known: Known, plain: seq<string>)
    requires AllPlain(plain) && known.name in plain
    requires forall i :: 0 <= i < |known.aliases| ==> known.aliases[i] in plain || Spells(known.aliases[i], plain)
    requires forall i :: 0 <= i < |plain| ==> plain[i] == known.name || plain[i] in known.aliases
    ensures GoesBy(known, plain)
  {
    forall i | 0 <= i < |plain|
      ensures Spells(plain[i], plain)
    {
      SpellsItself(plain, i);
    }
  }

  lemma SpacedLikeHyphened(alias: string, plain: seq<string>, i: nat, at: nat)
    requires AllPlain(plain) && i < |plain| && at < |plain[i]| && plain[i][at] == '-'
    requires alias == plain[i][at := ' ']
    ensures Spells(alias, plain)
  {
    assert AlikeNames(alias, plain[i]);
  }

  lemma ClaudePlain()
    ensures AllPlain(PlainNames[0])
  {
  }

  lemma ClaudeNames()
    ensures GoesBy(KnownAgents[0], PlainNames[0])
  {
    var aliases, plain := KnownAgents[0].aliases, PlainNames[0];
    ClaudePlain();
    assert aliases[2] == plain[0][6 := ' '];
    SpacedLikeHyphened(aliases[2], plain, 0, 6);
    assert aliases[0] == plain[1] && aliases[1] == plain[0];
    GoesByPlain(KnownAgents[0], plain);
  }

  lemma CodexPlain()
    ensures AllPlain(PlainNames[2])
  {
  }

  lemma CodexNames()
    ensures GoesBy(KnownAgents[2], PlainNames[2])
  {
    var aliases, plain := KnownAgents[2].aliases, PlainNames[2];
    CodexPlain();
    assert aliases[2] == plain[1][5 := ' '];
    SpacedLikeHyphened(aliases[2], plain, 1, 5);
    assert aliases[0] == plain[0] && aliases[1] == plain[1] && aliases[3] == plain[2];
    GoesByPlain(KnownAgents[2], plain);
  }

  lemma GeminiPlain()
    ensures AllPlain(PlainNames[3])
  {
  }

  lemma GeminiNames()
    ensures GoesBy(KnownAgents[3], PlainNames[3])
  {
    var aliases, plain := KnownAgents[3].aliases, PlainNames[3];
    GeminiPlain();
    assert aliases[2] == plain[1][6 := ' '];
    SpacedLikeHyphened(aliases[2], plain, 1, 6);
    assert aliases[0] == plain[0] && aliases[1] == plain[1];
    GoesByPlain(KnownAgents[3], plain);
  }

  lemma OpenclawPlain()
    ensures AllPlain(PlainNames[6])
  {
  }

  lemma OpenclawNames()
    ensures GoesBy(KnownAgents[6], PlainNames[6])
  {
    var aliases, plain := KnownAgents[6].aliases, PlainNames[6];
    OpenclawPlain();
    assert aliases == plain;
    GoesByPlain(KnownAgents[6], plain);
  }

  lemma HermesPlain()
    ensures AllPlain(PlainNames[7])
  {
  }

  lemma HermesNames()
    ensures GoesBy(KnownAgents[7], PlainNames[7])
  {
    var aliases, plain := KnownAgents[7].aliases, PlainNames[7];
    HermesPlain();
    assert aliases[2] == plain[1][6 := ' '];
    SpacedLikeHyphened(aliases[2], plain, 1, 6);
    assert aliases[0] == plain[0] && aliases[1] == plain[1] && aliases[3] == plain[2];
    GoesByPlain(KnownAgents[7], plain);
  }

  lemma SinglePlain()
    ensures AllPlain(PlainNames[1]) && AllPlain(PlainNames[4]) && AllPlain(PlainNames[5])
  {
  }

  lemma SingleNames(i: nat)
    requires i in {1, 4, 5}
    ensures GoesBy(KnownAgents[i], PlainNames[i])
  {
    SinglePlain();
    assert KnownAgents[i].aliases == PlainNames[i];
    GoesByPlain(KnownAgents[i], PlainNames[i]);
  }

  lemma PlainNamesOf(i: nat)
    requires i < 8
    ensures GoesBy(KnownAgents[i], PlainNames[i])
  {
    match i
    case 0 => ClaudeNames();
    case 2 => CodexNames();
    case 3 => GeminiNames();
    case 6 => OpenclawNames();
    case 7 => HermesNames();
    case _ => SingleNames(i);
  }

  lemma {:induction false} FirstToAnswer(table: seq<Known>, name: string, i: nat)
    requires i < |table| && Answers(table[i], Normalized(name))
    requires forall j :: 0 <= j < i ==> !Answers(table[j], Normalized(name))
    ensures Canonical(table, name) == Some(table[i])
  {
    if i > 0 {
      FirstToAnswer(table[1..], name, i - 1);
    }
  }

  lemma {:induction false} NoneAnswers(table: seq<Known>, name: string)
    requires forall j :: 0 <= j < |table| ==> !Answers(table[j], Normalized(name))
    ensures Canonical(table, name).None?
  {
    if table != [] {
      NoneAnswers(table[1..], name);
    }
  }

  ghost predicate Apart(names: seq<seq<string>>) {
    forall i, j, name :: 0 <= i < j < |names| && name in names[j] ==> name !in names[i]
  }

  lemma KnownBy(table: seq<Known>, names: seq<seq<string>>, i: nat, name: string)
    requires IsPlainName(name) && |table| == |names| && Apart(names) && i < |names|
    requires forall j :: 0 <= j < |names| ==> GoesBy(table[j], names[j])
    requires forall j, k :: 0 <= j < k < |names| ==> table[j] != table[k]
    ensures Canonical(table, name) == Some(table[i]) <==> name in names[i]
    ensures Canonical(table, name).None? <==> forall j :: 0 <= j < |names| ==> name !in names[j]
  {
    PlainStays(name);
    forall j | 0 <= j < |names|
      ensures Answers(table[j], Normalized(name)) <==> name in names[j]
    {
      AnswersBy(table[j], names[j], name);
    }
    if j :| 0 <= j < |names| && name in names[j] {
      FirstToAnswer(table, name, j);
    } else {
      NoneAnswers(table, name);
    }
  }

  /** No plain name is two agents'. */
  lemma NamesApart()
    ensures Apart(PlainNames)
  {
  }

  /** A plain name is taken for a known agent exactly when it is one of that
      agent's names. */
  lemma KnownByName(i: nat, name: string)
    requires IsPlainName(name) && i < 8
    ensures Canonical(KnownAgents, name) == Some(KnownAgents[i]) <==> name in PlainNames[i]
    ensures Canonical(KnownAgents, name).None? <==> forall j :: 0 <= j < 8 ==> name !in PlainNames[j]
  {
    NamesApart();
    forall j | 0 <= j < 8
      ensures GoesBy(KnownAgents[j], PlainNames[j])
    {
      PlainNamesOf(j);
    }
    KnownAgentsDistinct();
    KnownBy(KnownAgents, PlainNames, i, name);
  }

  // ------------------------------------------- a configuration's folder as a name

  lemma {:induction false} DotsAlike(a: string, b: string)
    requires AlikeNames(a, b)
    ensures AlikeNames(WithoutDots(a), WithoutDots(b))
  {
    if a != "" && a[0] == '.' {
      assert AlikeChars(a[0], b[0]);
      DotsAlike(a[1..], b[1..]);
    } else if a != "" {
      assert AlikeChars(a[0], b[0]);
    }
  }

  lemma HyphensAlike(a: string, b: string)
    requires AlikeNames(a, b)
    ensures Hyphens(AsciiLower(a)) == Hyphens(AsciiLower(b))
  {
    forall i | 0 <= i < |a|
      ensures Hyphens(AsciiLower(a))[i] == Hyphens(AsciiLower(b))[i]
    {
      AlikeLower(a[i], b[i]);
    }
  }

  /** A folder's leading dots, its case and its separators do not show in the
      name; a plain folder is its own name, and no folder is `unknown`. */
  lemma FolderNames(folder: string, other: string)
    ensures AlikeNames(folder, other) ==> BaseName(Some(folder)) == BaseName(Some(other))
    ensures BaseName(Some("." + folder)) == BaseName(Some(folder))
    ensures IsPlainName(folder) ==> BaseName(Some(folder)) == folder
    ensures BaseName(Some("")) == "unknown" && BaseName(None) == "unknown"
  {
    if AlikeNames(folder, other) {
      DotsAlike(folder, other);
      HyphensAlike(WithoutDots(folder), WithoutDots(other));
    }
    assert ("." + folder)[1..] == folder && ("." + folder)[0] == '.';
    if IsPlainName(folder) {
      PlainFolder(folder);
    }
    NoFolder();
  }

  lemma PlainFolder(folder: string)
    requires IsPlainName(folder)
    ensures BaseName(Some(folder)) == folder
  {
    assert IsPlain(folder[0]);
    assert WithoutDots(folder) == folder && AsciiLower(folder) == folder && Hyphens(folder) == folder;
  }

  lemma NoFolder()
    ensures BaseName(Some("")) == "unknown" && BaseName(None) == "unknown"
  {
    assert IsPlainName("unknown");
    PlainFolder("unknown");
  }

  /** A number read back from its digits. */
  function Number(digits: string): int {
    if digits == "" then 0
    else Number(digits[..|digits| - 1]) * 10 + (digits[|digits| - 1] as int - '0' as int)
  }

  /** A number is written in decimal, without leading zeros. */
  lemma {:induction false} DecimalReads(n: nat)
    ensures Number(Decimal(n)) == n
    ensures forall i :: 0 <= i < |Decimal(n)| ==> '0' <= Decimal(n)[i] <= '9'
    ensures n > 0 ==> Decimal(n)[0] != '0'
  {
    DecimalParts(n);
    var s := Decimal(n);
    if n < 10 {
      assert s == [Digit(n)] && s[..0] == "";
    } else {
      DecimalReads(n / 10);
      var front := s[..|s| - 1];
      assert forall i :: 0 <= i < |front| ==> s[i] == front[i];
      assert front[0] == s[0];
    }
  }

  /** A configuration is given one name, and when a known agent has its folder's
      name and that name with `-mcp` is free, it is that one. */
  lemma OneFirstFree(table: seq<Known>, rows: seq<AgentStatus>, base: string, name: string, other: string)
    requires FirstFree(table, rows, base, name) && FirstFree(table, rows, base, other)
    ensures name == other
    ensures KnownNamed(table, base).Some? && Available(table, rows, base + "-mcp") ==> name == base + "-mcp"
  {
    if KnownNamed(table, base).Some? {
      FreeName(table, rows, name);
    }
    if !Available(table, rows, base) && !Available(table, rows, base + "-mcp") {
      var j: nat :| FirstNumbered(table, rows, base, j) && name == Numbered(base, j);
      var k: nat :| FirstNumbered(table, rows, base, k) && other == Numbered(base, k);
      assert j == k;
    }
  }
}
