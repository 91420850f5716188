/** The few operations on text the configuration code uses. */
module Text {
  predicate StartsWith(s: string, prefix: string) {
    prefix <= s
  }

  predicate EndsWith(s: string, suffix: string) {
    |suffix| <= |s| && s[|s| - |suffix|..] == suffix
  }

  function AsciiLower(s: string): string {
    seq(|s|, i requires 0 <= i < |s| => LowerChar(s[i]))
  }

  function LowerChar(c: char): char {
    if 'A' <= c <= 'Z' then (c as int + 32) as char else c
  }

  /** Unicode White_Space. */
  predicate IsWhitespace(c: char) {
    var n := c as int;
    || 0x9 <= n <= 0xD || n == 0x20 || n == 0x85 || n == 0xA0 || n == 0x1680
    || 0x2000 <= n <= 0x200A || n == 0x2028 || n == 0x2029 || n == 0x202F || n == 0x205F || n == 0x3000
  }

  /** One by one, as the Unicode character database lists them. */
  lemma WhitespaceCodePoints(c: char)
    ensures IsWhitespace(c) <==>
            c as int in {0x9, 0xA, 0xB, 0xC, 0xD, 0x20, 0x85, 0xA0, 0x1680,
                         0x2000, 0x2001, 0x2002, 0x2003, 0x2004, 0x2005, 0x2006, 0x2007, 0x2008, 0x2009, 0x200A,
                         0x2028, 0x2029, 0x202F, 0x205F, 0x3000}
  {
  }

  /** Nothing is left of the text once trimmed. */
  predicate IsBlank(s: string) {
    forall i :: 0 <= i < |s| ==> IsWhitespace(s[i])
  }

  /** An id that can be written without quotes. */
  predicate IsAgentId(s: string) {
    && 1 <= |s| <= 64
    && forall i :: 0 <= i < |s| ==> 'a' <= s[i] <= 'z' || '0' <= s[i] <= '9' || s[i] == '-' || s[i] == '_'
  }

  /** The parts of a text between its separators; there is always one. */
  function SplitAt(s: string, isSeparator: char -> bool): (parts: seq<string>)
    ensures |parts| >= 1
  {
    if s == "" then [""]
    else
      var rest := SplitAt(s[1..], isSeparator);
      if isSeparator(s[0]) then [""] + rest else [[s[0]] + rest[0]] + rest[1..]
  }

  /** A text without a separator is one part. */
  lemma {:induction false} SplitWhole(s: string, isSeparator: char -> bool)
    requires forall i :: 0 <= i < |s| ==> !isSeparator(s[i])
    ensures SplitAt(s, isSeparator) == [s]
  {
    if s != "" {
      SplitWhole(s[1..], isSeparator);
      assert [s[1..]][1..] == [];
      assert [s[0]] + s[1..] == s;
    }
  }

  predicate IsPathSeparator(c: char) {
    c == '/' || c == '\\'
  }

  /** The parts of a path, Unix or Windows. */
  function PathParts(s: string): (parts: seq<string>)
    ensures |parts| >= 1
  {
    SplitAt(s, IsPathSeparator)
  }

  function SkipSpaces(s: string): (r: string)
    ensures |r| <= |s|
    ensures r != "" ==> !IsWhitespace(r[0])
  {
    if s != "" && IsWhitespace(s[0]) then SkipSpaces(s[1..]) else s
  }

  function TrimEnd(s: string): string {
    if s != "" && IsWhitespace(s[|s| - 1]) then TrimEnd(s[..|s| - 1]) else s
  }

  function Trim(s: string): string {
    TrimEnd(SkipSpaces(s))
  }
}
