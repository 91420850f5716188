/** The command line of an InnerWarden hook: how it is written, and the small
    grammar in which it is read back. */
module HookCommand {
  import opened Options
  import opened Text

  datatype Protection = Monitor | Enforce | BlockReview

  function FromFlags(blockReview: bool, monitor: bool): Protection {
    if monitor then Monitor else if blockReview then BlockReview else Enforce
  }

  function Flags(mode: Protection): (flags: (bool, bool))
    ensures FromFlags(flags.0, flags.1) == mode
  {
    (mode == BlockReview, mode == Monitor)
  }

  // ------------------------------------------------------------------ words

  /** The text up to the first whitespace. */
  function Bare(s: string): (word: string)
    ensures word <= s
  {
    if s == "" || IsWhitespace(s[0]) then "" else [s[0]] + Bare(s[1..])
  }

  /** The text up to the closing quote. */
  function Quoted(s: string, quote: char): (word: Option<string>)
    ensures word.Some? ==> word.value + [quote] <= s && quote !in word.value
    ensures word.None? ==> quote !in s
  {
    if s == "" then None
    else if s[0] == quote then Some("")
    else
      match Quoted(s[1..], quote)
      case Some(word) => Some([s[0]] + word)
      case None => None
  }

  predicate IsQuote(c: char) {
    c == '"' || c == '\''
  }

  /** One word and what follows it. An unclosed quote, a quote with text right
      behind it, and an empty word are refused. */
  function NextWord(s: string): (r: Option<(string, string)>)
    requires s != "" && !IsWhitespace(s[0])
    ensures r.Some? ==> r.value.0 != "" && |r.value.1| < |s|
  {
    if IsQuote(s[0]) then
      match Quoted(s[1..], s[0])
      case None => None
      case Some(word) =>
        var rest := s[1..][|word| + 1..];
        if (rest != "" && !IsWhitespace(rest[0])) || word == "" then None else Some((word, rest))
    else Some((Bare(s), s[|Bare(s)|..]))
  }

  function Words(s: string): Option<seq<string>>
    decreases |s|
  {
    var start := SkipSpaces(s);
    if start == "" then Some([])
    else
      match NextWord(start)
      case None => None
      case Some((word, rest)) =>
        match Words(rest)
        case None => None
        case Some(words) => Some([word] + words)
  }

  /** Words found so far, and the words of what is left. */
  function Joined(found: seq<string>, rest: Option<seq<string>>): Option<seq<string>> {
    match rest
    case None => None
    case Some(words) => Some(found + words)
  }

  function Longer(word: string, rest: Option<string>): Option<string> {
    match rest
    case None => None
    case Some(more) => Some(word + more)
  }

  lemma WordsStep(s: string, word: string, rest: string, found: seq<string>)
    requires s != "" && !IsWhitespace(s[0]) && NextWord(s) == Some((word, rest))
    ensures Joined(found, Words(s)) == Joined(found + [word], Words(rest))
  {
    if Words(rest).Some? {
      assert found + ([word] + Words(rest).value) == found + [word] + Words(rest).value;
    }
  }

  lemma NoWords(s: string)
    requires s != "" && !IsWhitespace(s[0]) && NextWord(s).None?
    ensures Words(s).None?
  {
  }

  /** The words of a hook command, found one character at a time. */
  method HookCommandWords(command: string) returns (words: Option<seq<string>>)
    ensures words == Words(Trim(command))
  {
    var s := Trim(command);
    var i := 0;
    var found: seq<string> := [];
    assert s[0..] == s;
    JoinedNone(Words(s));
    while i < |s|
      invariant 0 <= i <= |s|
      invariant Words(s) == Joined(found, Words(s[i..]))
    {
      i := AfterSpaces(s, i);
      if i == |s| {
        break;
      }
      ghost var start := i;
      var word := "";
      if IsQuote(s[i]) {
        var closed;
        word, closed, i := QuotedAt(s, i + 1, s[i]);
        if !closed || (i < |s| && !IsWhitespace(s[i])) {
          assert NextWord(s[start..]).None?;
          NoWords(s[start..]);
          return None;
        }
      } else {
        word, i := BareAt(s, i);
      }
      if word == "" {
        assert NextWord(s[start..]).None?;
        NoWords(s[start..]);
        return None;
      }
      WordsStep(s[start..], word, s[i..], found);
      found := found + [word];
    }
    assert s[i..] == "" && found + [] == found;
    words := Some(found);
  }

  lemma JoinedNone(rest: Option<seq<string>>)
    ensures Joined([], rest) == rest
  {
    if rest.Some? {
      assert [] + rest.value == rest.value;
    }
  }

  lemma LongerNone(rest: Option<string>)
    ensures Longer("", rest) == rest
  {
    if rest.Some? {
      assert "" + rest.value == rest.value;
    }
  }

  lemma QuotedStep(s: string, i: nat, quote: char)
    requires i < |s|
    ensures Quoted(s[i..], quote) == if s[i] == quote then Some("") else Longer([s[i]], Quoted(s[i + 1..], quote))
  {
    assert s[i..][1..] == s[i + 1..];
  }

  method AfterSpaces(s: string, from: nat) returns (i: nat)
    requires from < |s|
    ensures from <= i <= |s| && SkipSpaces(s[from..]) == s[i..] && Words(s[from..]) == Words(s[i..])
    ensures i < |s| ==> !IsWhitespace(s[i])
  {
    i := from;
    while i < |s| && IsWhitespace(s[i])
      invariant from <= i <= |s|
      invariant SkipSpaces(s[from..]) == SkipSpaces(s[i..])
    {
      assert s[i..][1..] == s[i + 1..];
      i := i + 1;
    }
  }

  method QuotedAt(s: string, from: nat, quote: char) returns (word: string, closed: bool, i: nat)
    requires 1 <= from <= |s| && quote == s[from - 1] && IsQuote(quote) && !IsWhitespace(quote)
    ensures from <= i <= |s|
    ensures s[from - 1..] != "" && s[from - 1..][0] == quote
    ensures NextWord(s[from - 1..]) ==
            if !closed || (i < |s| && !IsWhitespace(s[i])) || word == "" then None else Some((word, s[i..]))
  {
    word, closed, i := "", false, from;
    LongerNone(Quoted(s[from..], quote));
    while i < |s| && !closed
      invariant from <= i <= |s|
      invariant closed ==> Quoted(s[from..], quote) == Some(word) && i == from + |word| + 1
      invariant !closed ==> Quoted(s[from..], quote) == Longer(word, Quoted(s[i..], quote)) && i == from + |word|
    {
      QuotedStep(s, i, quote);
      if s[i] == quote {
        assert word + "" == word;
        closed := true;
      } else {
        LongerBy(word, s[i], Quoted(s[i + 1..], quote));
        word := word + [s[i]];
      }
      i := i + 1;
    }
    assert s[from - 1..][1..] == s[from..];
    if closed {
      assert s[from..][|word| + 1..] == s[i..];
    }
  }

  lemma LongerBy(word: string, c: char, rest: Option<string>)
    ensures Longer(word, Longer([c], rest)) == Longer(word + [c], rest)
  {
    if rest.Some? {
      assert word + ([c] + rest.value) == word + [c] + rest.value;
    }
  }

  method BareAt(s: string, from: nat) returns (word: string, i: nat)
    requires from < |s| && !IsWhitespace(s[from]) && !IsQuote(s[from])
    ensures from < i <= |s| && word != "" && NextWord(s[from..]) == Some((word, s[i..]))
  {
    word, i := "", from;
    while i < |s| && !IsWhitespace(s[i])
      invariant from <= i <= |s| && word == s[from..i]
      invariant forall k :: from <= k < i ==> !IsWhitespace(s[k])
    {
      word := word + [s[i]];
      i := i + 1;
    }
    BareAll(s, from, i);
  }

  lemma Associate(a: string, b: string, c: string)
    ensures a + (b + c) == a + b + c
  {
  }

  lemma {:induction false} BareIs(s: string, from: nat, i: nat)
    requires from <= i <= |s| && (i < |s| ==> IsWhitespace(s[i]))
    requires forall k :: from <= k < i ==> !IsWhitespace(s[k])
    ensures Bare(s[from..]) == s[from..i]
    decreases i - from
  {
    if from < i {
      BareIs(s, from + 1, i);
      assert s[from..][1..] == s[from + 1..];
      assert s[from..i] == [s[from]] + s[from + 1..i];
    }
  }

  lemma BareAll(s: string, from: nat, i: nat)
    requires from < i <= |s| && (i < |s| ==> IsWhitespace(s[i])) && !IsQuote(s[from])
    requires forall k :: from <= k < i ==> !IsWhitespace(s[k])
    ensures NextWord(s[from..]) == Some((s[from..i], s[i..]))
  {
    BareIs(s, from, i);
    assert s[from..][|s[from..i]|..] == s[i..];
    assert s[from..][0] == s[from];
  }

  // ------------------------------------------------------------- executables

  function NonEmpty(parts: seq<string>): (r: seq<string>)
    ensures "" !in r
  {
    if parts == [] then [] else (if parts[0] == "" then [] else [AsciiLower(parts[0])]) + NonEmpty(parts[1..])
  }

  /** The non-empty parts of a path, in lower case. */
  function Components(path: string): seq<string> {
    NonEmpty(PathParts(path))
  }

  function Stem(name: string): string {
    if EndsWith(name, ".exe") || EndsWith(name, ".cmd") || EndsWith(name, ".bat") then name[..|name| - 4] else name
  }

  /** A program InnerWarden installs, or Cargo builds; never the system's `iw`. */
  predicate IsInnerWarden(executable: string) {
    var parts := Components(executable);
    var n := |parts|;
    var stem := Stem(if n == 0 then executable else parts[n - 1]);
    || stem == "innerwarden"
    || (&& stem == "iw" && n >= 3
        && (|| (parts[n - 3] == ".local" && parts[n - 2] == "bin")
            || (parts[n - 2] in ["debug", "release"] && "target" in parts[..n - 2])))
  }

  // ------------------------------------------------------ writing and reading

  function ModeFlag(mode: Protection): string {
    match mode
    case Monitor => " --monitor"
    case Enforce => ""
    case BlockReview => " --block-review"
  }

  /** The agent as a command names it: only a plain id is written. */
  function PlainAgent(agent: Option<string>): Option<string> {
    if agent.Some? && IsAgentId(agent.value) then agent else None
  }

  function AgentFlag(agent: Option<string>): string {
    if PlainAgent(agent).Some? then " --agent " + agent.value else ""
  }

  function HookCommandFor(program: string, blockReview: bool, monitor: bool, agent: Option<string>): string {
    "\"" + program + "\" hook" + ModeFlag(FromFlags(blockReview, monitor)) + AgentFlag(agent)
  }

  datatype Parts = Parts(mode: Protection, agent: Option<string>)

  function FlagsRead(flags: seq<string>): Option<Parts> {
    var mode :=
      if flags != [] && flags[0] == "--monitor" then Monitor
      else if flags != [] && flags[0] == "--block-review" then BlockReview
      else Enforce;
    var rest := if mode == Enforce then flags else flags[1..];
    if rest == [] then Some(Parts(mode, None))
    else if |rest| == 2 && rest[0] == "--agent" && IsAgentId(rest[1]) then Some(Parts(mode, Some(rest[1])))
    else None
  }

  /** The mode and the agent of an InnerWarden command; `None` for any other. */
  function CommandParts(command: string): Option<Parts> {
    match Words(Trim(command))
    case None => None
    case Some(words) => PartsIn(words)
  }

  function PartsIn(words: seq<string>): Option<Parts> {
    if |words| < 2 || !IsInnerWarden(words[0]) || words[1] != "hook" then None else FlagsRead(words[2..])
  }

  // ------------------------------------------------- reading what was written

  predicate Printable(word: string) {
    word != "" && forall c :: c in word ==> !IsWhitespace(c) && !IsQuote(c)
  }

  /** Words, each behind one space. */
  function Spaced(words: seq<string>): string {
    if words == [] then "" else " " + words[0] + Spaced(words[1..])
  }

  lemma {:induction false} BareWord(word: string, rest: string)
    requires forall c :: c in word ==> !IsWhitespace(c)
    requires rest != "" ==> IsWhitespace(rest[0])
    ensures Bare(word + rest) == word
  {
    if word == "" {
      assert word + rest == rest;
    } else {
      assert (word + rest)[1..] == word[1..] + rest;
      assert word[0] in word;
      BareWord(word[1..], rest);
    }
  }

  lemma BareNext(word: string, rest: string)
    requires Printable(word) && (rest != "" ==> IsWhitespace(rest[0]))
    ensures Words(word + rest) == Joined([word], Words(rest))
  {
    var s := word + rest;
    assert word[0] in word && s[0] == word[0];
    BareWord(word, rest);
    assert s[|word|..] == rest;
    assert NextWord(s) == Some((word, rest));
  }

  /** One word behind a space, and what follows it. */
  lemma BareThen(word: string, rest: string)
    requires Printable(word) && (rest != "" ==> IsWhitespace(rest[0]))
    ensures Words(" " + word + rest) == Joined([word], Words(rest))
  {
    Associate(" ", word, rest);
    BareNext(word, rest);
    SpaceSkipped(word + rest);
  }

  lemma SpaceSkipped(s: string)
    ensures Words(" " + s) == Words(s)
  {
    assert (" " + s)[1..] == s;
  }

  lemma {:induction false} SpacedWords(words: seq<string>)
    requires forall w :: w in words ==> Printable(w)
    ensures Words(Spaced(words)) == Some(words)
    ensures '"' !in Spaced(words) && '\'' !in Spaced(words)
    ensures words != [] ==> Spaced(words)[0] == ' '
  {
    if words != [] {
      SpacedWords(words[1..]);
      BareThen(words[0], Spaced(words[1..]));
      assert words == [words[0]] + words[1..];
    }
  }

  lemma {:induction false} QuotedWord(word: string, quote: char, rest: string)
    requires quote !in word
    ensures Quoted(word + [quote] + rest, quote) == Some(word)
  {
    if word != "" {
      assert (word + [quote] + rest)[1..] == word[1..] + [quote] + rest;
      assert word[0] in word && (word + [quote] + rest)[0] == word[0];
      assert [word[0]] + word[1..] == word;
      QuotedWord(word[1..], quote, rest);
    }
  }

  /** A quoted word, and then others. */
  lemma QuotedThen(word: string, rest: string)
    requires '"' !in word
    ensures Words("\"" + word + "\"" + rest) ==
            if word == "" || (rest != "" && !IsWhitespace(rest[0])) then None
            else match Words(rest) case None => None case Some(words) => Some([word] + words)
  {
    var s := "\"" + word + "\"" + rest;
    assert SkipSpaces(s) == s;
    assert s[1..] == word + "\"" + rest;
    QuotedWord(word, '"', rest);
    assert s[1..][|word| + 1..] == rest;
  }

  function FlagWords(mode: Protection, agent: Option<string>): seq<string> {
    (match mode case Monitor => ["--monitor"] case Enforce => [] case BlockReview => ["--block-review"]) +
    AgentWords(agent)
  }

  lemma AgentIdPrintable(agent: string)
    requires IsAgentId(agent)
    ensures Printable(agent)
  {
    forall c | c in agent
      ensures !IsWhitespace(c) && !IsQuote(c)
    {
      var i :| 0 <= i < |agent| && agent[i] == c;
    }
  }

  lemma FlagsPrintable(mode: Protection, agent: Option<string>)
    ensures forall w :: w in FlagWords(mode, PlainAgent(agent)) ==> Printable(w)
    ensures Printable("hook")
  {
    if PlainAgent(agent).Some? { AgentIdPrintable(agent.value); }
  }

  function AgentWords(agent: Option<string>): seq<string> {
    match agent
    case Some(a) => ["--agent", a]
    case None => []
  }

  lemma SpacedFirst(word: string, words: seq<string>)
    ensures Spaced([word] + words) == " " + word + Spaced(words)
  {
    assert ([word] + words)[1..] == words;
  }

  lemma AgentSpaced(agent: Option<string>)
    ensures Spaced(AgentWords(PlainAgent(agent))) == AgentFlag(agent)
  {
    if PlainAgent(agent).Some? {
      SpacedFirst(agent.value, []);
      SpacedFirst("--agent", [agent.value]);
      assert ["--agent"] + [agent.value] == AgentWords(PlainAgent(agent));
      assert " " + agent.value + "" == " " + agent.value;
      assert " " + "--agent" + (" " + agent.value) == " --agent " + agent.value;
    }
  }

  lemma ModeSpaced(mode: Protection, agent: Option<string>)
    ensures Spaced(FlagWords(mode, PlainAgent(agent))) == ModeFlag(mode) + AgentFlag(agent)
  {
    var agents := AgentWords(PlainAgent(agent));
    AgentSpaced(agent);
    if mode == Enforce {
      assert FlagWords(Enforce, PlainAgent(agent)) == agents;
      assert "" + AgentFlag(agent) == AgentFlag(agent);
    } else {
      SpacedFirst(if mode == Monitor then "--monitor" else "--block-review", agents);
      assert " " + "--monitor" == " --monitor" && " " + "--block-review" == " --block-review";
    }
  }

  lemma FlagsSpaced(mode: Protection, agent: Option<string>)
    ensures Spaced(["hook"] + FlagWords(mode, PlainAgent(agent))) == " hook" + ModeFlag(mode) + AgentFlag(agent)
  {
    ModeSpaced(mode, agent);
    SpacedFirst("hook", FlagWords(mode, PlainAgent(agent)));
    assert " " + "hook" == " hook";
    Associate(" hook", ModeFlag(mode), AgentFlag(agent));
  }

  lemma FlagsReadBack(mode: Protection, agent: Option<string>)
    requires agent.Some? ==> IsAgentId(agent.value)
    ensures FlagsRead(FlagWords(mode, agent)) == Some(Parts(mode, agent))
  {
    var agents := AgentWords(agent);
    if mode != Enforce {
      assert FlagWords(mode, agent)[1..] == agents;
    } else {
      assert FlagWords(mode, agent) == agents;
    }
  }

  lemma NothingToTrim(s: string)
    requires s != "" && !IsWhitespace(s[0]) && !IsWhitespace(s[|s| - 1])
    ensures Trim(s) == s
  {
  }

  lemma PrintedNotTrimmed(program: string, blockReview: bool, monitor: bool, agent: Option<string>)
    ensures var command := HookCommandFor(program, blockReview, monitor, agent); Trim(command) == command
  {
    var command := HookCommandFor(program, blockReview, monitor, agent);
    var mode := FromFlags(blockReview, monitor);
    assert command[0] == '"';
    if PlainAgent(agent).Some? {
      AgentIdPrintable(agent.value);
      assert command[|command| - 1] == agent.value[|agent.value| - 1];
      assert agent.value[|agent.value| - 1] in agent.value;
    } else {
      assert command[|command| - 1] == (match mode case Monitor => 'r' case Enforce => 'k' case BlockReview => 'w');
    }
    NothingToTrim(command);
  }

  lemma ComponentsOfNothing()
    ensures !IsInnerWarden("")
  {
    assert PathParts("") == [""];
    assert [""][1..] == [] && NonEmpty([]) == [];
    assert Components("") == [];
  }

  function Tail(mode: Protection, agent: Option<string>): string {
    Spaced(["hook"] + FlagWords(mode, PlainAgent(agent)))
  }

  lemma TailWords(mode: Protection, agent: Option<string>)
    ensures Words(Tail(mode, agent)) == Some(["hook"] + FlagWords(mode, PlainAgent(agent)))
    ensures '"' !in Tail(mode, agent) && '\'' !in Tail(mode, agent)
    ensures Tail(mode, agent) != "" && IsWhitespace(Tail(mode, agent)[0])
  {
    FlagsPrintable(mode, agent);
    SpacedWords(["hook"] + FlagWords(mode, PlainAgent(agent)));
  }

  lemma Printed(program: string, blockReview: bool, monitor: bool, agent: Option<string>)
    ensures HookCommandFor(program, blockReview, monitor, agent) ==
            "\"" + program + "\"" + Tail(FromFlags(blockReview, monitor), agent)
  {
    var mode := FromFlags(blockReview, monitor);
    FlagsSpaced(mode, agent);
    var quoted := "\"" + program + "\"";
    assert "\"" + " hook" == "\" hook";
    Associate("\"" + program, "\"", " hook");
    Associate(quoted, " hook", ModeFlag(mode));
    Associate(quoted, " hook" + ModeFlag(mode), AgentFlag(agent));
  }

  // ------------------------------------------------------ whatever the path says

  /** Text that starts a new word and opens no quote. */
  predicate Apart(tail: string) {
    (tail != "" ==> IsWhitespace(tail[0])) && '"' !in tail && '\'' !in tail
  }

  lemma {:induction false} QuotedHas(s: string, quote: char)
    requires Quoted(s, quote).Some?
    ensures quote in s
  {
    if s[0] != quote {
      QuotedHas(s[1..], quote);
      assert s == [s[0]] + s[1..];
    }
  }

  lemma {:induction false} QuotedBefore(s: string, quote: char, tail: string)
    requires quote !in tail
    ensures Quoted(s + tail, quote) == Quoted(s, quote)
  {
    if s == "" {
      assert s + tail == tail;
      if Quoted(tail, quote).Some? {
        QuotedHas(tail, quote);
      }
    } else {
      assert (s + tail)[0] == s[0] && (s + tail)[1..] == s[1..] + tail;
      QuotedBefore(s[1..], quote, tail);
    }
  }

  lemma {:induction false} BareBefore(s: string, tail: string)
    requires Apart(tail)
    ensures Bare(s + tail) == Bare(s)
  {
    if s == "" {
      assert s + tail == tail;
    } else {
      assert (s + tail)[0] == s[0] && (s + tail)[1..] == s[1..] + tail;
      BareBefore(s[1..], tail);
    }
  }

  lemma NextWordBefore(s: string, tail: string)
    requires s != "" && !IsWhitespace(s[0]) && Apart(tail)
    ensures NextWord(s + tail).None? <==> NextWord(s).None?
    ensures NextWord(s).Some? ==> NextWord(s + tail) == Some((NextWord(s).value.0, NextWord(s).value.1 + tail))
  {
    var all := s + tail;
    assert all[0] == s[0] && all[1..] == s[1..] + tail;
    if IsQuote(s[0]) {
      QuotedBefore(s[1..], s[0], tail);
      var word := Quoted(s[1..], s[0]);
      if word.Some? {
        var n := |word.value| + 1;
        assert all[1..][n..] == s[1..][n..] + tail;
      }
    } else {
      BareBefore(s, tail);
      assert all[|Bare(s)|..] == s[|Bare(s)|..] + tail;
    }
  }

  function After(words: Option<seq<string>>, more: Option<seq<string>>): Option<seq<string>> {
    match words
    case None => None
    case Some(first) => Joined(first, more)
  }

  lemma AfterFirst(word: string, words: Option<seq<string>>, more: Option<seq<string>>)
    ensures After(Joined([word], words), more) == Joined([word], After(words, more))
  {
    if words.Some? && more.Some? {
      assert [word] + words.value + more.value == [word] + (words.value + more.value);
    }
  }

  lemma WordBefore(s: string, tail: string)
    requires s != "" && !IsWhitespace(s[0]) && Apart(tail) && NextWord(s).Some?
    requires var rest := NextWord(s).value.1; Words(rest + tail) == After(Words(rest), Words(tail))
    ensures Words(s + tail) == After(Words(s), Words(tail))
  {
    NextWordBefore(s, tail);
    assert (s + tail)[0] == s[0];
    AfterFirst(NextWord(s).value.0, Words(NextWord(s).value.1), Words(tail));
  }

  /** Words read up to some text are read the same with it behind them. */
  lemma {:induction false} WordsBefore(s: string, tail: string)
    requires Apart(tail)
    ensures Words(s + tail) == After(Words(s), Words(tail))
    decreases |s|
  {
    if s == "" {
      assert s + tail == tail;
      JoinedNone(Words(tail));
    } else if IsWhitespace(s[0]) {
      assert (s + tail)[0] == s[0] && (s + tail)[1..] == s[1..] + tail;
      WordsBefore(s[1..], tail);
    } else if NextWord(s).Some? {
      WordsBefore(NextWord(s).value.1, tail);
      WordBefore(s, tail);
    } else {
      NextWordBefore(s, tail);
      assert (s + tail)[0] == s[0];
    }
  }

  /** The words a quoted program is read as: itself, unless its path holds a
      double quote. */
  function OwnWords(program: string): Option<seq<string>> {
    Words("\"" + program + "\"")
  }

  lemma PrintedWords(program: string, blockReview: bool, monitor: bool, agent: Option<string>)
    ensures var command := HookCommandFor(program, blockReview, monitor, agent);
            Words(Trim(command)) ==
            After(OwnWords(program), Some(["hook"] + FlagWords(FromFlags(blockReview, monitor), PlainAgent(agent))))
  {
    var mode := FromFlags(blockReview, monitor);
    Printed(program, blockReview, monitor, agent);
    PrintedNotTrimmed(program, blockReview, monitor, agent);
    TailWords(mode, agent);
    WordsBefore("\"" + program + "\"", Tail(mode, agent));
  }

  lemma PlainOwnWords(program: string)
    requires '"' !in program
    ensures OwnWords(program) == if program == "" then None else Some([program])
  {
    QuotedThen(program, "");
    assert "\"" + program + "\"" + "" == "\"" + program + "\"";
    assert [program] + [] == [program];
  }

  lemma HookWords(program: string, flags: seq<string>)
    ensures PartsIn([program] + (["hook"] + flags)) == if IsInnerWarden(program) then FlagsRead(flags) else None
  {
    var words := [program] + (["hook"] + flags);
    assert words[0] == program && words[1] == "hook" && words[2..] == flags;
  }

  lemma PlainPathReads(program: string, blockReview: bool, monitor: bool, agent: Option<string>)
    requires '"' !in program
    ensures CommandParts(HookCommandFor(program, blockReview, monitor, agent)) ==
            if IsInnerWarden(program) then Some(Parts(FromFlags(blockReview, monitor), PlainAgent(agent))) else None
  {
    var mode := FromFlags(blockReview, monitor);
    PrintedWords(program, blockReview, monitor, agent);
    PlainOwnWords(program);
    if program == "" {
      ComponentsOfNothing();
    } else {
      HookWords(program, FlagWords(mode, PlainAgent(agent)));
      FlagsReadBack(mode, PlainAgent(agent));
    }
  }

  // --------------------------------------------------- a path with a quote in it

  predicate IsModeFlag(word: string) {
    word == "--monitor" || word == "--block-review"
  }

  function FlagMode(word: string): Protection {
    if word == "--monitor" then Monitor else if word == "--block-review" then BlockReview else Enforce
  }

  /** A whole hook command but for the agent's name. */
  predicate LacksItsAgent(words: seq<string>) {
    && 3 <= |words| <= 4
    && IsInnerWarden(words[0]) && words[1] == "hook" && words[|words| - 1] == "--agent"
    && (|words| == 4 ==> IsModeFlag(words[2]))
  }

  /** What the program's own words are. */
  predicate Disguised(program: string) {
    OwnWords(program).Some? && LacksItsAgent(OwnWords(program).value)
  }

  /** The mode a program's own words name. */
  function OwnMode(program: string): Protection {
    if OwnWords(program).Some? && |OwnWords(program).value| >= 3 then FlagMode(OwnWords(program).value[2]) else Enforce
  }

  lemma {:induction false} OnlySpaces(s: string)
    requires SkipSpaces(s) == ""
    ensures forall c :: c in s ==> IsWhitespace(c)
  {
    if s != "" {
      OnlySpaces(s[1..]);
      assert s == [s[0]] + s[1..];
    }
  }

  lemma SplitAtQuote(program: string)
    requires '"' in program
    ensures var first := Quoted(program, '"').value;
            '"' !in first && |first| < |program| && program == first + "\"" + program[|first| + 1..]
  {
  }

  lemma Requoted(first: string, t: string)
    ensures "\"" + (first + "\"" + t) + "\"" == "\"" + first + "\"" + (t + "\"")
  {
    Associate("\"", first + "\"", t);
    Associate("\"", first, "\"");
    Associate("\"" + first + "\"", t, "\"");
  }

  /** A path with a double quote is read as more than one word, or not at all. */
  lemma QuotedOwnWords(program: string)
    requires '"' in program
    ensures OwnWords(program).Some? ==> |OwnWords(program).value| >= 2
  {
    var first := Quoted(program, '"').value;
    var t := program[|first| + 1..];
    SplitAtQuote(program);
    Requoted(first, t);
    QuotedThen(first, t + "\"");
    assert (t + "\"")[|t|] == '"';
    if Words(t + "\"") == Some([]) {
      OnlySpaces(t + "\"");
    }
  }

  /** With a word `hook` too many, only `--agent hook` can still be read. */
  lemma StrayHook(stray: seq<string>, mode: Protection, agent: Option<string>)
    ensures FlagsRead(stray + (["hook"] + FlagWords(mode, agent))) ==
            if mode == Enforce && agent == None && 1 <= |stray| <= 2 && stray[|stray| - 1] == "--agent"
               && (|stray| == 2 ==> IsModeFlag(stray[0]))
            then Some(Parts(FlagMode(stray[0]), Some("hook"))) else None
  {
    var flags := stray + (["hook"] + FlagWords(mode, agent));
    assert flags[|stray|] == "hook";
    if |stray| > 0 {
      assert flags[0] == stray[0] && flags[1..][|stray| - 1] == "hook";
      if |stray| > 1 {
        assert flags[1] == stray[1];
      }
    }
  }

  /** What a command printed for a path with a double quote is read as: not as
      ours, or, with no mode flag and no agent printed, as the disguise in the
      path. */
  lemma QuotedPathReads(program: string, blockReview: bool, monitor: bool, agent: Option<string>)
    requires '"' in program
    ensures CommandParts(HookCommandFor(program, blockReview, monitor, agent)) ==
            if FromFlags(blockReview, monitor) == Enforce && PlainAgent(agent) == None && Disguised(program)
            then Some(Parts(OwnMode(program), Some("hook"))) else None
  {
    var mode := FromFlags(blockReview, monitor);
    PrintedWords(program, blockReview, monitor, agent);
    QuotedOwnWords(program);
    if OwnWords(program).Some? {
      OwnWordsRead(OwnWords(program).value, mode, PlainAgent(agent));
    }
  }

  lemma OwnWordsRead(own: seq<string>, mode: Protection, agent: Option<string>)
    requires |own| >= 2
    ensures PartsIn(own + (["hook"] + FlagWords(mode, agent))) ==
            if mode == Enforce && agent == None && LacksItsAgent(own)
            then Some(Parts(FlagMode(own[2]), Some("hook"))) else None
  {
    var last := ["hook"] + FlagWords(mode, agent);
    assert (own + last)[0] == own[0] && (own + last)[1] == own[1] && (own + last)[2..] == own[2..] + last;
    StrayHook(own[2..], mode, agent);
  }

  /** A command reads back as what was written exactly when its program is one
      of ours and its path has no double quote. */
  lemma ReadsBackExactly(program: string, blockReview: bool, monitor: bool, agent: Option<string>)
    ensures CommandParts(HookCommandFor(program, blockReview, monitor, agent)) ==
            Some(Parts(FromFlags(blockReview, monitor), PlainAgent(agent))) <==>
            '"' !in program && IsInnerWarden(program)
  {
    if '"' in program {
      QuotedPathReads(program, blockReview, monitor, agent);
    } else {
      PlainPathReads(program, blockReview, monitor, agent);
    }
  }

  // ------------------------------------------------------------- such a path

  /** The file name `innerwarden" hook --monitor "--agent`. */
  const DisguisedPath: string := "innerwarden\"" + " hook" + " --monitor" + " \"--agent"

  lemma LowerKept(s: string)
    requires forall i :: 0 <= i < |s| ==> !('A' <= s[i] <= 'Z')
    ensures AsciiLower(s) == s
  {
  }

  lemma BareName(name: string)
    requires name != "" && forall i :: 0 <= i < |name| ==> !IsPathSeparator(name[i]) && !('A' <= name[i] <= 'Z')
    ensures Components(name) == [name]
  {
    SplitWhole(name, IsPathSeparator);
    LowerKept(name);
    assert [name][1..] == [] && NonEmpty([]) == [];
    assert NonEmpty([name]) == [name];
  }

  lemma WholeStem(name: string)
    requires |name| >= 4 && name[|name| - 4] != '.'
    ensures Stem(name) == name
  {
    assert name[|name| - 4..][0] == name[|name| - 4];
  }

  lemma InnerWardenIsOurs()
    ensures IsInnerWarden("innerwarden")
  {
    BareName("innerwarden");
    WholeStem("innerwarden");
  }

  lemma Regrouped(q: string, a: string, b: string, c: string, d: string)
    ensures q + (a + b + c + d) + q == q + a + (b + (c + (d + q)))
  {
    Associate(q, a + b + c, d);
    Associate(q, a + b, c);
    Associate(q, a, b);
    Associate(q + a + b + c, d, q);
    Associate(q + a + b, c, d + q);
    Associate(q + a, b, c + (d + q));
  }

  lemma QuotedLast(word: string)
    requires word != "" && '"' !in word
    ensures Words(" \"" + word + "\"") == Some([word])
  {
    PlainOwnWords(word);
    SpaceSkipped("\"" + word + "\"");
    Associate(" ", "\"", word);
    Associate(" ", "\"" + word, "\"");
    assert " " + "\"" == " \"";
  }

  lemma AgentLast()
    ensures Words(" \"--agent" + "\"") == Some(["--agent"])
  {
    assert " \"--agent" == " \"" + "--agent";
    QuotedLast("--agent");
  }

  lemma MonitorThen()
    ensures Words(" hook" + (" --monitor" + (" \"--agent" + "\""))) == Some(["hook", "--monitor", "--agent"])
  {
    var last := " \"--agent" + "\"";
    AgentLast();
    assert " " + "--monitor" == " --monitor" && " " + "hook" == " hook";
    TwoThen("hook", "--monitor", last, ["--agent"]);
    assert ["hook"] + (["--monitor"] + ["--agent"]) == ["hook", "--monitor", "--agent"];
  }

  /** Two words, each behind a space, and what follows them. */
  lemma TwoThen(first: string, second: string, rest: string, words: seq<string>)
    requires Printable(first) && Printable(second) && rest != "" && IsWhitespace(rest[0]) && Words(rest) == Some(words)
    ensures Words(" " + first + (" " + second + rest)) == Some([first] + ([second] + words))
  {
    BareThen(second, rest);
    BareThen(first, " " + second + rest);
  }

  lemma DisguisedPathWords()
    ensures OwnWords(DisguisedPath) == Some(["innerwarden", "hook", "--monitor", "--agent"])
  {
    var rest := " hook" + (" --monitor" + (" \"--agent" + "\""));
    Regrouped("\"", "innerwarden\"", " hook", " --monitor", " \"--agent");
    assert "\"" + "innerwarden\"" == "\"" + "innerwarden" + "\"";
    MonitorThen();
    QuotedThen("innerwarden", rest);
    assert ["innerwarden"] + ["hook", "--monitor", "--agent"] == ["innerwarden", "hook", "--monitor", "--agent"];
  }

  lemma DisguisedPathQuoted()
    ensures '"' in DisguisedPath
  {
    var head := "innerwarden\"";
    assert head[11] == '"' && DisguisedPath[11] == head[11];
  }

  /** A path that is read as a hook that only monitors. */
  lemma DisguisedPathReads()
    ensures '"' in DisguisedPath && Disguised(DisguisedPath) && OwnMode(DisguisedPath) == Monitor
    ensures CommandParts(HookCommandFor(DisguisedPath, false, false, None)) == Some(Parts(Monitor, Some("hook")))
  {
    DisguisedPathWords();
    DisguisedPathQuoted();
    InnerWardenIsOurs();
    QuotedPathReads(DisguisedPath, false, false, None);
  }

  /** What is printed: the quoted program, `hook`, at most one mode flag, of which
      monitoring wins, and the agent if it is a plain id. */
  lemma PrintedFlags(program: string, blockReview: bool, agent: string)
    ensures HookCommandFor(program, false, false, None) == "\"" + program + "\" hook"
    ensures HookCommandFor(program, true, false, None) == "\"" + program + "\" hook --block-review"
    ensures HookCommandFor(program, blockReview, true, None) == "\"" + program + "\" hook --monitor"
    ensures HookCommandFor(program, blockReview, true, Some(agent)) ==
            if IsAgentId(agent) then "\"" + program + "\" hook --monitor --agent " + agent
            else HookCommandFor(program, blockReview, true, None)
  {
    var start := "\"" + program;
    assert "\" hook" + " --block-review" == "\" hook --block-review";
    assert "\" hook" + " --monitor" == "\" hook --monitor";
    assert "\" hook --monitor" + " --agent " == "\" hook --monitor --agent ";
    Associate(start, "\" hook", " --block-review");
    Associate(start, "\" hook", " --monitor");
    Associate(start, "\" hook --monitor", " --agent ");
    Associate(start + "\" hook --monitor", " --agent ", agent);
  }
}
