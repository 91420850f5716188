/** Which matchers send a tool to their hooks for certain, said of the list of
    tool names a matcher spells. */
module Matchers {
  import opened Options
  import opened Text
  import opened Json
  import opened HookSettings

  predicate IsToolChar(c: char) {
    'a' <= c <= 'z' || 'A' <= c <= 'Z' || '0' <= c <= '9' || c == '_' || c == '-'
  }

  predicate IsToolName(word: string) {
    word != "" && forall i :: 0 <= i < |word| ==> IsToolChar(word[i])
  }

  /** One tool name or more, with a bar between one and the next. */
  predicate Lists(matcher: string, words: seq<string>) {
    words != [] && (forall i :: 0 <= i < |words| ==> IsToolName(words[i])) && matcher == Bars(words)
  }

  lemma ListRead(matcher: string, words: seq<string>)
    requires Lists(matcher, words)
    ensures ExactSet(matcher) && Split(matcher) == words
    ensures matcher != "" && matcher != "*"
  {
    forall w | w in words
      ensures PlainWord(w)
    {
    }
    BarsSplit(words);
    assert words[0][0] == matcher[0];
  }

  lemma FirstBars(c: char, parts: seq<string>)
    requires parts != []
    ensures Bars([[c] + parts[0]] + parts[1..]) == [c] + Bars(parts)
  {
    var longer := [[c] + parts[0]] + parts[1..];
    assert |longer| == |parts| && longer[0] == [c] + parts[0] && longer[1..] == parts[1..];
  }

  lemma BarFirst(parts: seq<string>)
    requires parts != []
    ensures Bars([""] + parts) == "|" + Bars(parts)
  {
    BarsFirst("", parts);
    assert "" + "|" == "|";
  }

  lemma {:induction false} SplitJoined(s: string)
    ensures Bars(Split(s)) == s
  {
    if s != "" {
      SplitJoined(s[1..]);
      FirstBars(s[0], Split(s[1..]));
      BarFirst(Split(s[1..]));
      assert [s[0]] + s[1..] == s;
    }
  }

  lemma {:induction false} PartChars(s: string)
    ensures forall p, i :: p in Split(s) && 0 <= i < |p| ==> p[i] in s && p[i] != '|'
  {
    if s != "" {
      var rest := Split(s[1..]);
      PartChars(s[1..]);
      forall p, i | p in Split(s) && 0 <= i < |p|
        ensures p[i] in s && p[i] != '|'
      {
        if IsBar(s[0]) {
          assert p in rest;
        } else if p in rest[1..] {
          assert p in rest;
        } else {
          assert p == [s[0]] + rest[0] && rest[0] in rest;
          assert i > 0 ==> p[i] == rest[0][i - 1];
        }
      }
    }
  }

  lemma ExactSetLists(matcher: string)
    requires ExactSet(matcher)
    ensures Lists(matcher, Split(matcher))
  {
    SplitJoined(matcher);
    PartChars(matcher);
    forall i | 0 <= i < |Split(matcher)|
      ensures IsToolName(Split(matcher)[i])
    {
      var p := Split(matcher)[i];
      assert p in Split(matcher);
      forall j | 0 <= j < |p|
        ensures IsToolChar(p[j])
      {
        var k :| 0 <= k < |matcher| && matcher[k] == p[j];
        assert ExactSetChar(matcher[k]);
      }
    }
  }

  lemma ExactSetExactly(matcher: string)
    ensures ExactSet(matcher) <==> exists words :: Lists(matcher, words)
  {
    if ExactSet(matcher) {
      ExactSetLists(matcher);
    }
    if words :| Lists(matcher, words) {
      ListRead(matcher, words);
    }
  }

  /** A matcher that is absent, empty or a star covers every tool; a list of
      tool names covers those it names and no other; what any other matcher
      covers is not certain. */
  lemma CoverageExactly(entry: Json, tool: string)
    ensures Get(entry, "matcher").None? ==> ToolCoverage(entry, tool) == Includes
    ensures forall matcher :: Get(entry, "matcher") == Some(Str(matcher)) && (matcher == "" || matcher == "*") ==>
                                ToolCoverage(entry, tool) == Includes
    ensures forall matcher, words :: Get(entry, "matcher") == Some(Str(matcher)) && Lists(matcher, words) ==>
                                       ToolCoverage(entry, tool) == if tool in words then Includes else Excludes
    ensures ToolCoverage(entry, tool) == Ambiguous <==>
            && Get(entry, "matcher").Some?
            && forall matcher :: Get(entry, "matcher") == Some(Str(matcher)) ==>
                                   matcher != "" && matcher != "*" && forall words :: !Lists(matcher, words)
  {
    if Get(entry, "matcher").Some? && Get(entry, "matcher").value.Str? {
      var matcher := Get(entry, "matcher").value.s;
      ExactSetExactly(matcher);
      forall words | Lists(matcher, words)
        ensures ExactSet(matcher) && Split(matcher) == words && matcher != "" && matcher != "*"
      {
        ListRead(matcher, words);
      }
    }
  }

  /** The four tools that write files. */
  lemma FileToolsAre(entry: Json)
    ensures CoversFileTools(entry) <==>
            && ToolCoverage(entry, "Write") == Includes && ToolCoverage(entry, "Edit") == Includes
            && ToolCoverage(entry, "MultiEdit") == Includes && ToolCoverage(entry, "NotebookEdit") == Includes
  {
    FourTools(entry, FileTools);
  }

  lemma FourTools(entry: Json, tools: seq<string>)
    requires tools == FileTools
    ensures CoversFileTools(entry) <==>
            && ToolCoverage(entry, tools[0]) == Includes && ToolCoverage(entry, tools[1]) == Includes
            && ToolCoverage(entry, tools[2]) == Includes && ToolCoverage(entry, tools[3]) == Includes
  {
    assert tools == [tools[0], tools[1], tools[2], tools[3]];
  }
}
