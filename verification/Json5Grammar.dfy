/** The grammar of the files the scanner accepts, and where a truncated file
    stops being one. */
module Json5Grammar {
  import opened Options
  import opened Json5Shape

  /** Blanks and comments. */
  datatype Gap =
    | White(b: byte)
    | Mark
    | Line(text: seq<byte>, end: byte)
    | Block(text: seq<byte>)

  /** What an object or an array holds, as far as its brackets go. */
  datatype Body =
    | End
    | Other(b: byte, rest: Body)
    | Spaced(gap: Gap, rest: Body)
    | Quoted(quote: byte, text: seq<byte>, rest: Body)
    | Group(open: byte, inner: Body, rest: Body)

  /** A file: an object with gaps around it, and perhaps a last line comment
      that nothing ends. */
  datatype Doc = Doc(lead: seq<Gap>, body: Body, trail: seq<Gap>, last: Option<seq<byte>>)

  // ------------------------------------------------------------- as bytes

  function GapText(gap: Gap): seq<byte> {
    match gap
    case White(b) => [b]
    case Mark => ByteOrderMark
    case Line(text, end) => [Slash, Slash] + text + [end]
    case Block(text) => [Slash, Star] + text + [Star, Slash]
  }

  function GapsText(gaps: seq<Gap>): seq<byte> {
    if gaps == [] then [] else GapText(gaps[0]) + GapsText(gaps[1..])
  }

  function BodyText(body: Body): seq<byte> {
    match body
    case End => []
    case Other(b, rest) => [b] + BodyText(rest)
    case Spaced(gap, rest) => GapText(gap) + BodyText(rest)
    case Quoted(quote, text, rest) => [quote] + text + [quote] + BodyText(rest)
    case Group(open, inner, rest) => [open] + BodyText(inner) + [Closing(open)] + BodyText(rest)
  }

  function LastText(last: Option<seq<byte>>): seq<byte> {
    match last
    case None => []
    case Some(text) => [Slash, Slash] + text
  }

  /** Up to and with the brace that closes the object. */
  function ObjectText(lead: seq<Gap>, body: Body): seq<byte> {
    GapsText(lead) + [OpenBrace] + BodyText(body) + [CloseBrace]
  }

  function DocText(doc: Doc): seq<byte> {
    ObjectText(doc.lead, doc.body) + GapsText(doc.trail) + LastText(doc.last)
  }

  // ---------------------------------------------------------- well-formed

  predicate NoLineEnd(text: seq<byte>) {
    forall i :: 0 <= i < |text| ==> !EndsLine(text[i])
  }

  predicate NoBlockEnd(text: seq<byte>) {
    forall i :: 0 <= i < |text| - 1 ==> !(text[i] == Star && text[i + 1] == Slash)
  }

  /** Escapes come in pairs, and no quote stands alone. */
  predicate IsQuotedText(text: seq<byte>, quote: byte) {
    text == [] ||
    (if text[0] == Backslash then |text| >= 2 && IsQuotedText(text[2..], quote)
     else text[0] != quote && IsQuotedText(text[1..], quote))
  }

  predicate IsGap(gap: Gap, marks: bool) {
    match gap
    case White(b) => IsBlank(b)
    case Mark => marks
    case Line(text, end) => NoLineEnd(text) && EndsLine(end)
    case Block(text) => NoBlockEnd(text)
  }

  predicate IsOther(b: byte) {
    !IsBlank(b) && !IsQuote(b) && !IsOpen(b) && !IsClose(b)
  }

  /** A slash on its own is followed by neither a slash nor a star. */
  predicate IsBody(body: Body) {
    match body
    case End => true
    case Other(b, rest) =>
      && IsOther(b) && IsBody(rest)
      && (b == Slash && BodyText(rest) != [] ==> BodyText(rest)[0] != Slash && BodyText(rest)[0] != Star)
    case Spaced(gap, rest) => IsGap(gap, false) && IsBody(rest)
    case Quoted(quote, text, rest) => IsQuote(quote) && IsQuotedText(text, quote) && IsBody(rest)
    case Group(open, inner, rest) => IsOpen(open) && IsBody(inner) && IsBody(rest)
  }

  predicate AreGaps(gaps: seq<Gap>, marks: bool) {
    forall i :: 0 <= i < |gaps| ==> IsGap(gaps[i], marks)
  }

  predicate IsDoc(doc: Doc) {
    && AreGaps(doc.lead, true) && IsBody(doc.body) && AreGaps(doc.trail, false)
    && (doc.last.Some? ==> NoLineEnd(doc.last.value))
  }

  // --------------------------------------------------- reading what was written

  lemma {:induction false} LineRead(text: seq<byte>, end: byte, tail: seq<byte>)
    requires NoLineEnd(text) && EndsLine(end)
    ensures AfterLine(text + [end] + tail) == Some(tail)
  {
    var s := text + [end] + tail;
    if text == [] {
      assert s[1..] == tail;
    } else {
      assert s[1..] == text[1..] + [end] + tail;
      LineRead(text[1..], end, tail);
    }
  }

  lemma {:induction false} BlockRead(text: seq<byte>, tail: seq<byte>)
    requires NoBlockEnd(text)
    ensures AfterBlock(text + [Star, Slash] + tail) == Some(tail)
  {
    var s := text + [Star, Slash] + tail;
    if text == [] {
      assert s[2..] == tail;
    } else {
      assert s[1..] == text[1..] + [Star, Slash] + tail;
      assert s[0] == text[0] && s[1] == (if |text| >= 2 then text[1] else Star);
      BlockRead(text[1..], tail);
    }
  }

  lemma {:induction false} QuoteRead(text: seq<byte>, quote: byte, tail: seq<byte>)
    requires IsQuote(quote) && IsQuotedText(text, quote)
    ensures AfterQuote(text + [quote] + tail, quote, false) == Some(tail)
    decreases |text|
  {
    var s := text + [quote] + tail;
    if text == [] {
      assert s[1..] == tail;
    } else if text[0] == Backslash {
      assert s[1..][1..] == text[2..] + [quote] + tail;
      QuoteRead(text[2..], quote, tail);
      EscapeRead(s, quote);
    } else {
      assert s[1..] == text[1..] + [quote] + tail;
      QuoteRead(text[1..], quote, tail);
    }
  }

  lemma EscapeRead(s: seq<byte>, quote: byte)
    requires |s| >= 2 && s[0] == Backslash
    ensures AfterQuote(s, quote, false) == AfterQuote(s[1..][1..], quote, false)
  {
  }

  lemma LineGap(text: seq<byte>, end: byte, tail: seq<byte>)
    requires NoLineEnd(text) && EndsLine(end)
    ensures var s := GapText(Line(text, end)) + tail; OpensLine(s) && AfterLine(s[2..]) == Some(tail)
  {
    var s := GapText(Line(text, end)) + tail;
    LineRead(text, end, tail);
    assert s[2..] == text + [end] + tail;
  }

  lemma BlockGap(text: seq<byte>, tail: seq<byte>)
    requires NoBlockEnd(text)
    ensures var s := GapText(Block(text)) + tail; OpensBlock(s) && !OpensLine(s) && AfterBlock(s[2..]) == Some(tail)
  {
    var s := GapText(Block(text)) + tail;
    BlockRead(text, tail);
    assert s[2..] == text + [Star, Slash] + tail;
  }

  lemma MarkGap(tail: seq<byte>)
    ensures var s := GapText(Mark) + tail;
            !OpensLine(s) && !OpensBlock(s) && !IsBlank(s[0]) && ByteOrderMark <= s && s[3..] == tail
  {
    assert ByteOrderMark <= ByteOrderMark + tail;
  }

  lemma First(b: byte, tail: seq<byte>)
    ensures ([b] + tail)[0] == b && ([b] + tail)[1..] == tail && |[b] + tail| == 1 + |tail|
    ensures tail != [] ==> ([b] + tail)[1] == tail[0]
  {
  }

  predicate ClosedBy(tail: seq<byte>) {
    tail != [] && IsClose(tail[0])
  }

  lemma GapInBody(gap: Gap, tail: seq<byte>, open: seq<byte>)
    requires IsGap(gap, false) && open != []
    ensures AfterBody(GapText(gap) + tail, open) == AfterBody(tail, open)
  {
    match gap {
      case White(b) => First(b, tail);
      case Line(text, end) => LineGap(text, end, tail);
      case Block(text) => BlockGap(text, tail);
    }
  }

  lemma OtherInBody(b: byte, tail: seq<byte>, open: seq<byte>)
    requires IsOther(b) && open != []
    requires b == Slash && tail != [] ==> tail[0] != Slash && tail[0] != Star
    ensures AfterBody([b] + tail, open) == AfterBody(tail, open)
  {
    First(b, tail);
  }

  lemma QuotedInBody(quote: byte, text: seq<byte>, tail: seq<byte>, open: seq<byte>)
    requires IsQuote(quote) && IsQuotedText(text, quote) && open != []
    ensures AfterBody([quote] + text + [quote] + tail, open) == AfterBody(tail, open)
  {
    var s := [quote] + text + [quote] + tail;
    assert s[0] == quote;
    assert s[1..] == text + [quote] + tail;
    QuoteRead(text, quote, tail);
  }

  lemma OpenInBody(b: byte, tail: seq<byte>, open: seq<byte>)
    requires IsOpen(b) && open != []
    ensures AfterBody([b] + tail, open) == AfterBody(tail, open + [b])
  {
    First(b, tail);
  }

  lemma CloseInBody(b: byte, tail: seq<byte>, open: seq<byte>)
    requires open != [] && b == Closing(open[|open| - 1])
    ensures AfterBody([b] + tail, open) == if |open| == 1 then Some(tail) else AfterBody(tail, open[..|open| - 1])
  {
    First(b, tail);
  }

  lemma Regroup(a: seq<byte>, b: seq<byte>, c: seq<byte>)
    ensures a + b + c == a + (b + c)
  {
  }

  lemma GroupText(open: byte, inner: Body, rest: Body, tail: seq<byte>)
    ensures BodyText(Group(open, inner, rest)) + tail ==
            [open] + (BodyText(inner) + ([Closing(open)] + (BodyText(rest) + tail)))
  {
    var i, r, c := BodyText(inner), BodyText(rest), [Closing(open)];
    Regroup([open] + i + c, r, tail);
    Regroup([open] + i, c, r + tail);
    Regroup([open], i, c + (r + tail));
  }

  lemma AfterGroup(b: byte, inner: Body, tail: seq<byte>, open: seq<byte>)
    requires IsOpen(b) && open != []
    requires AfterBody(BodyText(inner) + ([Closing(b)] + tail), open + [b]) ==
             AfterBody([Closing(b)] + tail, open + [b])
    ensures AfterBody([b] + (BodyText(inner) + ([Closing(b)] + tail)), open) == AfterBody(tail, open)
  {
    OpenInBody(b, BodyText(inner) + ([Closing(b)] + tail), open);
    CloseInBody(Closing(b), tail, open + [b]);
    assert (open + [b])[..|open|] == open;
  }

  /** Inside brackets, what a body spells is passed over. */
  lemma {:induction false} BodyRead(body: Body, tail: seq<byte>, open: seq<byte>)
    requires IsBody(body) && open != [] && ClosedBy(tail)
    ensures AfterBody(BodyText(body) + tail, open) == AfterBody(tail, open)
  {
    match body {
      case End =>
        assert [] + tail == tail;
      case Other(b, rest) =>
        BodyRead(rest, tail, open);
        Regroup([b], BodyText(rest), tail);
        OtherInBody(b, BodyText(rest) + tail, open);
      case Spaced(gap, rest) =>
        BodyRead(rest, tail, open);
        Regroup(GapText(gap), BodyText(rest), tail);
        GapInBody(gap, BodyText(rest) + tail, open);
      case Quoted(quote, text, rest) =>
        BodyRead(rest, tail, open);
        Regroup([quote] + text + [quote], BodyText(rest), tail);
        QuotedInBody(quote, text, BodyText(rest) + tail, open);
      case Group(b, inner, rest) =>
        BodyRead(rest, tail, open);
        GroupText(b, inner, rest, tail);
        First(Closing(b), BodyText(rest) + tail);
        BodyRead(inner, [Closing(b)] + (BodyText(rest) + tail), open + [b]);
        AfterGroup(b, inner, BodyText(rest) + tail, open);
    }
  }

  lemma GapInLead(gap: Gap, tail: seq<byte>)
    requires IsGap(gap, true)
    ensures AfterObject(GapText(gap) + tail) == AfterObject(tail)
  {
    match gap {
      case White(b) => First(b, tail);
      case Mark => MarkGap(tail);
      case Line(text, end) => LineGap(text, end, tail);
      case Block(text) => BlockGap(text, tail);
    }
  }

  lemma {:induction false} LeadRead(gaps: seq<Gap>, tail: seq<byte>)
    requires AreGaps(gaps, true)
    ensures AfterObject(GapsText(gaps) + tail) == AfterObject(tail)
  {
    if gaps == [] {
      assert [] + tail == tail;
    } else {
      LeadRead(gaps[1..], tail);
      Regroup(GapText(gaps[0]), GapsText(gaps[1..]), tail);
      GapInLead(gaps[0], GapsText(gaps[1..]) + tail);
    }
  }

  lemma ObjectRegroup(lead: seq<Gap>, body: Body, tail: seq<byte>)
    ensures ObjectText(lead, body) + tail == GapsText(lead) + ([OpenBrace] + (BodyText(body) + ([CloseBrace] + tail)))
  {
    var l, b := GapsText(lead), BodyText(body);
    Regroup(l + [OpenBrace] + b, [CloseBrace], tail);
    Regroup(l + [OpenBrace], b, [CloseBrace] + tail);
    Regroup(l, [OpenBrace], b + ([CloseBrace] + tail));
  }

  lemma ObjectRead(lead: seq<Gap>, body: Body, tail: seq<byte>)
    requires AreGaps(lead, true) && IsBody(body)
    ensures AfterObject(ObjectText(lead, body) + tail) == Some(tail)
  {
    var inside := BodyText(body) + ([CloseBrace] + tail);
    ObjectRegroup(lead, body, tail);
    LeadRead(lead, [OpenBrace] + inside);
    First(OpenBrace, inside);
    First(CloseBrace, tail);
    BodyRead(body, [CloseBrace] + tail, [OpenBrace]);
    CloseInBody(CloseBrace, tail, [OpenBrace]);
  }

  lemma GapInTrail(gap: Gap, tail: seq<byte>)
    requires IsGap(gap, false)
    ensures OnlyTrail(GapText(gap) + tail) == OnlyTrail(tail)
  {
    match gap {
      case White(b) => First(b, tail);
      case Line(text, end) => LineGap(text, end, tail);
      case Block(text) => BlockGap(text, tail);
    }
  }

  lemma {:induction false} TrailRead(gaps: seq<Gap>, last: Option<seq<byte>>)
    requires AreGaps(gaps, false) && (last.Some? ==> NoLineEnd(last.value))
    ensures OnlyTrail(GapsText(gaps) + LastText(last))
  {
    if gaps == [] {
      assert [] + LastText(last) == LastText(last);
      if last.Some? {
        assert LastText(last)[2..] == last.value;
        NothingEndsIt(last.value);
      }
    } else {
      TrailRead(gaps[1..], last);
      Regroup(GapText(gaps[0]), GapsText(gaps[1..]), LastText(last));
      GapInTrail(gaps[0], GapsText(gaps[1..]) + LastText(last));
    }
  }

  lemma {:induction false} NothingEndsIt(text: seq<byte>)
    ensures AfterLine(text).None? <==> NoLineEnd(text)
  {
    if text != [] {
      NothingEndsIt(text[1..]);
      if AfterLine(text).None? {
        assert forall i :: 0 < i < |text| ==> text[i] == text[1..][i - 1];
      }
    }
  }

  // ------------------------------------------------------- finding the grammar

  lemma {:induction false} LineFound(s: seq<byte>) returns (text: seq<byte>, end: byte)
    requires AfterLine(s).Some?
    ensures NoLineEnd(text) && EndsLine(end) && s == text + [end] + AfterLine(s).value
  {
    if EndsLine(s[0]) {
      text, end := [], s[0];
    } else {
      text, end := LineFound(s[1..]);
      text := [s[0]] + text;
    }
  }

  lemma {:induction false} BlockFound(s: seq<byte>) returns (text: seq<byte>)
    requires AfterBlock(s).Some?
    ensures NoBlockEnd(text) && s == text + [Star, Slash] + AfterBlock(s).value
  {
    if EndsBlock(s) {
      text := [];
    } else {
      var rest := BlockFound(s[1..]);
      text := [s[0]] + rest;
      assert s == text + [Star, Slash] + AfterBlock(s).value;
      assert |rest| > 0 ==> s[1] == rest[0];
    }
  }

  lemma {:induction false} QuoteFound(s: seq<byte>, quote: byte) returns (text: seq<byte>)
    requires IsQuote(quote) && AfterQuote(s, quote, false).Some?
    ensures IsQuotedText(text, quote) && s == text + [quote] + AfterQuote(s, quote, false).value
    decreases |s|
  {
    if s[0] == Backslash {
      EscapeRead(s, quote);
      var rest := QuoteFound(s[1..][1..], quote);
      text := [s[0], s[1]] + rest;
      assert text[2..] == rest;
      assert s == [s[0], s[1]] + s[1..][1..];
    } else if s[0] == quote {
      text := [];
    } else {
      var rest := QuoteFound(s[1..], quote);
      text := [s[0]] + rest;
      assert text[1..] == rest;
    }
  }

  lemma RestOfLine(s: seq<byte>) returns (gap: Gap)
    requires OpensLine(s) && AfterLine(s[2..]).Some?
    ensures IsGap(gap, false) && s == GapText(gap) + AfterLine(s[2..]).value
  {
    var text, end := LineFound(s[2..]);
    gap := Line(text, end);
    var tail := AfterLine(s[2..]).value;
    Regroup([Slash, Slash], text + [end], tail);
    Regroup([Slash, Slash], text, [end]);
    assert s == [Slash, Slash] + s[2..];
  }

  lemma RestOfBlock(s: seq<byte>) returns (gap: Gap)
    requires OpensBlock(s) && AfterBlock(s[2..]).Some?
    ensures IsGap(gap, false) && s == GapText(gap) + AfterBlock(s[2..]).value
  {
    var text := BlockFound(s[2..]);
    gap := Block(text);
    var tail := AfterBlock(s[2..]).value;
    Regroup([Slash, Star], text + [Star, Slash], tail);
    Regroup([Slash, Star], text, [Star, Slash]);
    assert s == [Slash, Star] + s[2..];
  }

  ghost predicate Splits(s: seq<byte>, body: Body, tail: seq<byte>, open: seq<byte>)
    requires open != []
  {
    && IsBody(body) && s == BodyText(body) + tail
    && tail != [] && IsClose(tail[0]) && tail[0] == Closing(open[|open| - 1])
    && AfterBody(tail, open) == AfterBody(s, open)
  }

  lemma SpacedSplits(s: seq<byte>, gap: Gap, after: seq<byte>, rest: Body, tail: seq<byte>, open: seq<byte>)
    requires open != [] && IsGap(gap, false) && s == GapText(gap) + after && Splits(after, rest, tail, open)
    requires AfterBody(s, open) == AfterBody(after, open)
    ensures Splits(s, Spaced(gap, rest), tail, open)
  {
    Regroup(GapText(gap), BodyText(rest), tail);
  }

  lemma OtherSplits(s: seq<byte>, rest: Body, tail: seq<byte>, open: seq<byte>)
    requires open != [] && s != [] && IsOther(s[0]) && !OpensLine(s) && !OpensBlock(s)
    requires Splits(s[1..], rest, tail, open)
    ensures Splits(s, Other(s[0], rest), tail, open)
  {
    assert s == [s[0]] + s[1..];
    Regroup([s[0]], BodyText(rest), tail);
    if BodyText(rest) != [] {
      assert BodyText(rest)[0] == s[1..][0] == s[1];
    }
  }

  lemma QuotedSplits(s: seq<byte>, text: seq<byte>, after: seq<byte>, rest: Body, tail: seq<byte>, open: seq<byte>)
    requires open != [] && s != [] && IsQuote(s[0]) && IsQuotedText(text, s[0])
    requires s[1..] == text + [s[0]] + after && Splits(after, rest, tail, open)
    ensures Splits(s, Quoted(s[0], text, rest), tail, open)
  {
    assert s == [s[0]] + s[1..];
    Regroup([s[0]], text + [s[0]], after);
    Regroup([s[0]], text, [s[0]]);
    Regroup([s[0]] + text + [s[0]], BodyText(rest), tail);
    QuoteRead(text, s[0], after);
  }

  lemma GroupSplits(s: seq<byte>, inner: Body, close: seq<byte>, rest: Body, tail: seq<byte>, open: seq<byte>)
    requires open != [] && s != [] && IsOpen(s[0])
    requires Splits(s[1..], inner, close, open + [s[0]])
    requires Splits(close[1..], rest, tail, open)
    ensures Splits(s, Group(s[0], inner, rest), tail, open)
  {
    assert s == [s[0]] + s[1..] && close == [Closing(s[0])] + close[1..];
    GroupText(s[0], inner, rest, tail);
    First(s[0], s[1..]);
    OpenInBody(s[0], s[1..], open);
    CloseInBody(Closing(s[0]), close[1..], open + [s[0]]);
    assert (open + [s[0]])[..|open|] == open;
  }

  /** What the scanner passes over inside brackets is a body. */
  lemma {:induction false} BodyFound(s: seq<byte>, open: seq<byte>) returns (body: Body, tail: seq<byte>)
    requires open != [] && AfterBody(s, open).Some?
    ensures Splits(s, body, tail, open)
    decreases |s|
  {
    if OpensLine(s) || OpensBlock(s) {
      var gap, after := FoundGap(s);
      body, tail := BodyFound(after, open);
      SpacedSplits(s, gap, after, body, tail, open);
      body := Spaced(gap, body);
    } else if IsQuote(s[0]) {
      var text := QuoteFound(s[1..], s[0]);
      var after := AfterQuote(s[1..], s[0], false).value;
      body, tail := BodyFound(after, open);
      QuotedSplits(s, text, after, body, tail, open);
      body := Quoted(s[0], text, body);
    } else if IsOpen(s[0]) {
      var inner, close := BodyFound(s[1..], open + [s[0]]);
      assert (open + [s[0]])[..|open|] == open;
      body, tail := BodyFound(close[1..], open);
      GroupSplits(s, inner, close, body, tail, open);
      body := Group(s[0], inner, body);
    } else if IsClose(s[0]) {
      body, tail := End, s;
      assert [] + s == s;
    } else {
      body, tail := BodyFound(s[1..], open);
      if IsBlank(s[0]) {
        SpacedSplits(s, White(s[0]), s[1..], body, tail, open);
        body := Spaced(White(s[0]), body);
      } else {
        OtherSplits(s, body, tail, open);
        body := Other(s[0], body);
      }
    }
  }

  /** A comment that something ends. */
  lemma FoundGap(s: seq<byte>) returns (gap: Gap, after: seq<byte>)
    requires OpensLine(s) || OpensBlock(s)
    requires OpensLine(s) ==> AfterLine(s[2..]).Some?
    requires OpensBlock(s) ==> AfterBlock(s[2..]).Some?
    ensures IsGap(gap, false) && s == GapText(gap) + after
    ensures OpensLine(s) ==> AfterLine(s[2..]) == Some(after)
    ensures OpensBlock(s) ==> AfterBlock(s[2..]) == Some(after)
  {
    if OpensLine(s) {
      gap := RestOfLine(s);
      after := AfterLine(s[2..]).value;
    } else {
      gap := RestOfBlock(s);
      after := AfterBlock(s[2..]).value;
    }
  }

  lemma MoreGaps(gap: Gap, gaps: seq<Gap>, marks: bool)
    requires IsGap(gap, marks) && AreGaps(gaps, marks)
    ensures AreGaps([gap] + gaps, marks) && GapsText([gap] + gaps) == GapText(gap) + GapsText(gaps)
  {
    assert ([gap] + gaps)[1..] == gaps;
  }

  /** What comes before the object is gaps. */
  lemma {:induction false} LeadFound(s: seq<byte>) returns (lead: seq<Gap>, tail: seq<byte>)
    requires AfterObject(s).Some?
    ensures AreGaps(lead, true) && s == GapsText(lead) + ([OpenBrace] + tail)
    ensures AfterBody(tail, [OpenBrace]) == AfterObject(s)
    decreases |s|
  {
    if !OpensLine(s) && !OpensBlock(s) && !IsBlank(s[0]) && !(ByteOrderMark <= s) {
      lead, tail := [], s[1..];
      assert s == [] + ([OpenBrace] + tail);
    } else {
      var gap, after;
      if OpensLine(s) || OpensBlock(s) {
        gap, after := FoundGap(s);
      } else if IsBlank(s[0]) {
        gap, after := White(s[0]), s[1..];
      } else {
        gap, after := Mark, s[3..];
        assert s == ByteOrderMark + s[3..];
      }
      lead, tail := LeadFound(after);
      MoreGaps(gap, lead, true);
      Regroup(GapText(gap), GapsText(lead), [OpenBrace] + tail);
      lead := [gap] + lead;
    }
  }

  /** What comes after the object is gaps, and perhaps an open line comment. */
  lemma {:induction false} TrailFound(s: seq<byte>) returns (trail: seq<Gap>, last: Option<seq<byte>>)
    requires OnlyTrail(s)
    ensures AreGaps(trail, false) && s == GapsText(trail) + LastText(last)
    ensures last.Some? ==> NoLineEnd(last.value)
    decreases |s|
  {
    if s == [] {
      trail, last := [], None;
    } else if OpensLine(s) && AfterLine(s[2..]).None? {
      trail, last := [], Some(s[2..]);
      NothingEndsIt(s[2..]);
      assert s == [] + ([Slash, Slash] + s[2..]);
    } else {
      var gap, after;
      if OpensLine(s) || OpensBlock(s) {
        gap, after := FoundGap(s);
      } else {
        gap, after := White(s[0]), s[1..];
      }
      trail, last := TrailFound(after);
      MoreGaps(gap, trail, false);
      Regroup(GapText(gap), GapsText(trail), LastText(last));
      trail := [gap] + trail;
    }
  }

  lemma DocFound(s: seq<byte>) returns (doc: Doc)
    requires BalancedObject(s)
    ensures IsDoc(doc) && DocText(doc) == s
  {
    var lead, inside := LeadFound(s);
    var body, close := BodyFound(inside, [OpenBrace]);
    var after := close[1..];
    assert close == [CloseBrace] + after;
    CloseInBody(CloseBrace, after, [OpenBrace]);
    var trail, last := TrailFound(after);
    doc := Doc(lead, body, trail, last);
    ObjectRegroup(lead, body, after);
    Regroup(ObjectText(lead, body), GapsText(trail), LastText(last));
  }

  lemma DocRead(doc: Doc)
    requires IsDoc(doc)
    ensures AfterObject(DocText(doc)) == Some(GapsText(doc.trail) + LastText(doc.last)) && BalancedObject(DocText(doc))
  {
    var tail := GapsText(doc.trail) + LastText(doc.last);
    Regroup(ObjectText(doc.lead, doc.body), GapsText(doc.trail), LastText(doc.last));
    ObjectRead(doc.lead, doc.body, tail);
    TrailRead(doc.trail, doc.last);
  }

  /** The scanner accepts exactly the bytes the grammar spells. */
  lemma AcceptsExactly(s: seq<byte>)
    ensures BalancedObject(s) <==> exists doc :: IsDoc(doc) && DocText(doc) == s
  {
    if BalancedObject(s) {
      var doc := DocFound(s);
    }
    forall doc | IsDoc(doc) && DocText(doc) == s
      ensures BalancedObject(s)
    {
      DocRead(doc);
    }
  }

  // ------------------------------------------------------------- truncated files

  lemma {:induction false} LineExtends(s: seq<byte>, more: seq<byte>)
    requires AfterLine(s).Some?
    ensures AfterLine(s + more) == Some(AfterLine(s).value + more)
  {
    assert (s + more)[0] == s[0] && (s + more)[1..] == s[1..] + more;
    if !EndsLine(s[0]) {
      LineExtends(s[1..], more);
    }
  }

  lemma {:induction false} BlockExtends(s: seq<byte>, more: seq<byte>)
    requires AfterBlock(s).Some?
    ensures AfterBlock(s + more) == Some(AfterBlock(s).value + more)
  {
    if EndsBlock(s) {
      assert (s + more)[2..] == s[2..] + more;
    } else {
      BlockExtends(s[1..], more);
      assert |s| >= 2;
      assert (s + more)[1..] == s[1..] + more;
    }
  }

  lemma {:induction false} QuoteExtends(s: seq<byte>, quote: byte, escaped: bool, more: seq<byte>)
    requires AfterQuote(s, quote, escaped).Some?
    ensures AfterQuote(s + more, quote, escaped) == Some(AfterQuote(s, quote, escaped).value + more)
  {
    assert (s + more)[0] == s[0] && (s + more)[1..] == s[1..] + more;
    if escaped || s[0] == Backslash || s[0] != quote {
      QuoteExtends(s[1..], quote, !escaped && s[0] == Backslash, more);
    }
  }

  /** Two bytes that open a comment are seen the same with more behind them; one
      byte at the end could only be a slash that nothing closes. */
  lemma OpensAlike(s: seq<byte>, more: seq<byte>)
    requires |s| >= 2 || (s != [] && s[0] != Slash)
    ensures OpensLine(s + more) == OpensLine(s) && OpensBlock(s + more) == OpensBlock(s)
    ensures (s + more)[0] == s[0] && (s + more)[1..] == s[1..] + more
    ensures |s| >= 2 ==> (s + more)[2..] == s[2..] + more
  {
  }

  /** Where an object closes does not depend on what follows it. */
  lemma {:induction false} BodyExtends(s: seq<byte>, open: seq<byte>, more: seq<byte>)
    requires open != [] && AfterBody(s, open).Some?
    ensures AfterBody(s + more, open) == Some(AfterBody(s, open).value + more)
    decreases |s|
  {
    if |s| == 1 {
      assert AfterBody([], open).None? && s[1..] == [];
      assert IsClose(s[0]) && |open| == 1;
    }
    OpensAlike(s, more);
    if OpensLine(s) {
      LineExtends(s[2..], more);
      BodyExtends(AfterLine(s[2..]).value, open, more);
    } else if OpensBlock(s) {
      BlockExtends(s[2..], more);
      BodyExtends(AfterBlock(s[2..]).value, open, more);
    } else if IsQuote(s[0]) {
      QuoteExtends(s[1..], s[0], false, more);
      BodyExtends(AfterQuote(s[1..], s[0], false).value, open, more);
    } else if IsOpen(s[0]) {
      BodyExtends(s[1..], open + [s[0]], more);
    } else if IsClose(s[0]) {
      if |open| > 1 {
        BodyExtends(s[1..], open[..|open| - 1], more);
      }
    } else {
      BodyExtends(s[1..], open, more);
    }
  }

  lemma {:induction false} ObjectExtends(s: seq<byte>, more: seq<byte>)
    requires AfterObject(s).Some?
    ensures AfterObject(s + more) == Some(AfterObject(s).value + more)
    decreases |s|
  {
    assert |s| >= 2;
    OpensAlike(s, more);
    if OpensLine(s) {
      LineExtends(s[2..], more);
      ObjectExtends(AfterLine(s[2..]).value, more);
    } else if OpensBlock(s) {
      BlockExtends(s[2..], more);
      ObjectExtends(AfterBlock(s[2..]).value, more);
    } else if IsBlank(s[0]) {
      ObjectExtends(s[1..], more);
    } else if ByteOrderMark <= s {
      assert (s + more)[3..] == s[3..] + more && ByteOrderMark <= s + more;
      ObjectExtends(s[3..], more);
    } else {
      BodyExtends(s[1..], [OpenBrace], more);
    }
  }

  /** A file cut anywhere before its closing brace is refused, whatever the
      scanner's one byte of lookahead has seen. */
  lemma TruncatedRefused(doc: Doc, cut: nat)
    requires IsDoc(doc) && cut < |ObjectText(doc.lead, doc.body)|
    ensures cut <= |DocText(doc)| && !BalancedObject(DocText(doc)[..cut])
  {
    var s := DocText(doc);
    var front := s[..cut];
    DocRead(doc);
    assert front + s[cut..] == s;
    if AfterObject(front).Some? {
      ObjectExtends(front, s[cut..]);
    }
  }

  // ------------------------------------------------------- the bytes by number

  lemma OneByte(b: byte)
    ensures AfterObject([b]).None? && (OnlyTrail([b]) <==> b in {0x09, 0x0A, 0x0C, 0x0D, 0x20})
    ensures AfterBody([b], [0x7B]) == if b == 0x7D then Some([]) else None
    ensures AfterQuote([b], 0x22, false).Some? <==> b == 0x22
  {
    assert [b][1..] == [] && [0x7B][..0] == [];
  }

  lemma EmptyObject()
    ensures AfterObject([0x7B, 0x7D]) == Some([]) && OnlyTrail([])
  {
    OneByte(0x7D);
    assert [0x7B, 0x7D][1..] == [0x7D];
  }

  /** An object is opened and closed by braces. */
  lemma BracesOnly(a: byte, b: byte)
    ensures BalancedObject([a, b]) <==> a == 0x7B && b == 0x7D
  {
    OneByte(b);
    EmptyObject();
    assert [a, b][1..] == [b] && [a, b][2..] == [];
  }

  /** The bytes that may stand alone before an object. */
  lemma BlankBytes(b: byte)
    ensures BalancedObject([b, 0x7B, 0x7D]) <==> b in {0x09, 0x0A, 0x0C, 0x0D, 0x20}
  {
    EmptyObject();
    var s := [b, 0x7B, 0x7D];
    assert s[1..] == [0x7B, 0x7D];
    if b == 0x7B {
      assert AfterBody(s[1..], [0x7B]).None? by {
        assert s[1..][1..] == [0x7D] && [0x7B] + [0x7B] == [0x7B, 0x7B];
        assert [0x7D][1..] == [] && [0x7B, 0x7B][..1] == [0x7B];
        assert AfterBody([], [0x7B]).None?;
      }
    }
  }

  /** The bytes that end a line comment. */
  lemma LineEndBytes(b: byte)
    ensures BalancedObject([0x2F, 0x2F, b, 0x7B, 0x7D]) <==> b == 0x0A || b == 0x0D
  {
    EmptyObject();
    var s := [0x2F, 0x2F, b, 0x7B, 0x7D];
    assert s[2..] == [b, 0x7B, 0x7D];
    assert s[2..][1..] == [0x7B, 0x7D] && [0x7B, 0x7D][1..] == [0x7D] && [0x7D][1..] == [];
    assert AfterLine([0x7D]).None?;
    assert AfterLine([0x7B, 0x7D]).None?;
  }

  /** The bytes that end a block comment. */
  lemma BlockEndBytes(a: byte, b: byte)
    ensures BalancedObject([0x2F, 0x2A, a, b, 0x7B, 0x7D]) <==> a == 0x2A && b == 0x2F
  {
    EmptyObject();
    var s := [0x2F, 0x2A, a, b, 0x7B, 0x7D];
    var t := [a, b, 0x7B, 0x7D];
    assert s[2..] == t && t[2..] == [0x7B, 0x7D] && t[1..] == [b, 0x7B, 0x7D] && t[1..][1..] == [0x7B, 0x7D];
    assert [0x7B, 0x7D][1..] == [0x7D] && [0x7D][1..] == [];
    assert AfterBlock([0x7D]).None?;
    assert AfterBlock([0x7B, 0x7D]).None?;
    assert AfterBlock(t[1..]).None?;
  }

  lemma Unclosed(b: byte, open: seq<byte>)
    requires IsOpen(b) && open != []
    ensures AfterBody([0x7D], open + [b]).None?
  {
    assert [0x7D][1..] == [] && (open + [b])[..|open|] == open;
    assert AfterBody([], open).None?;
  }

  /** The bytes between which a brace does not count. */
  lemma QuoteBytes(b: byte)
    ensures BalancedObject([0x7B, b, 0x7D, b, 0x7D]) <==> b == 0x22 || b == 0x27
  {
    var s := [0x7B, b, 0x7D, b, 0x7D];
    var t := [b, 0x7D, b, 0x7D];
    var u := [0x7D, b, 0x7D];
    assert s[1..] == t && t[1..] == u && u[1..] == [b, 0x7D] && [b, 0x7D][1..] == [0x7D];
    OneByte(0x7D);
    assert AfterObject(s) == AfterBody(t, [0x7B]);
    if IsQuote(b) {
      assert AfterQuote(u, b, false) == AfterQuote([b, 0x7D], b, false);
    } else if IsOpen(b) {
      assert [0x7B] + [b] == [0x7B, b] && [0x7B, b][..1] == [0x7B];
      Unclosed(b, [0x7B]);
      assert AfterBody([b, 0x7D], [0x7B]).None?;
      assert AfterBody(u, [0x7B, b]).None?;
    } else if !IsClose(b) {
      assert AfterBody(t, [0x7B]) == AfterBody(u, [0x7B]);
      assert AfterBody(u, [0x7B]) == Some([b, 0x7D]);
      assert !OnlyTrail([0x7D]);
      assert !OnlyTrail([b, 0x7D]);
    }
  }

  /** The one byte that keeps a quote from closing its string. */
  lemma EscapeByte(b: byte)
    ensures BalancedObject([0x7B, 0x22, b, 0x22, 0x7D]) <==> b != 0x5C && b != 0x22
  {
    var s := [0x7B, 0x22, b, 0x22, 0x7D];
    var t := [0x22, b, 0x22, 0x7D];
    var u := [b, 0x22, 0x7D];
    assert s[1..] == t && t[1..] == u && u[1..] == [0x22, 0x7D] && [0x22, 0x7D][1..] == [0x7D];
    OneByte(0x7D);
    assert AfterObject(s) == AfterBody(t, [0x7B]);
    assert AfterQuote([0x22, 0x7D], 0x22, true).None?;
    assert AfterQuote([0x22, 0x7D], 0x22, false) == Some([0x7D]);
    assert AfterBody([0x22, 0x7D], [0x7B]).None?;
  }

  /** A bracket is closed by its own kind. */
  lemma BracketBytes(b: byte)
    ensures BalancedObject([0x7B, 0x5B, b, 0x7D]) <==> b == 0x5D
  {
    var s := [0x7B, 0x5B, b, 0x7D];
    var t := [0x5B, b, 0x7D];
    assert s[1..] == t && t[1..] == [b, 0x7D] && [b, 0x7D][1..] == [0x7D] && [0x7D][1..] == [];
    assert AfterObject(s) == AfterBody(t, [0x7B]);
    assert [0x7B] + [0x5B] == [0x7B, 0x5B] && [0x7B, 0x5B][..1] == [0x7B];
    OneByte(0x7D);
    assert AfterBody(t, [0x7B]) == AfterBody([b, 0x7D], [0x7B, 0x5B]);
    Unclosed(0x5B, [0x7B]);
    assert AfterBody([], [0x7B]).None?;
    if b == 0x5D {
      assert AfterBody([b, 0x7D], [0x7B, 0x5B]) == AfterBody([0x7D], [0x7B]);
    } else if IsOpen(b) {
      Unclosed(b, [0x7B, 0x5B]);
    } else if IsQuote(b) {
      assert AfterQuote([0x7D], b, false).None?;
    }
  }

  /** A byte order mark may stand before an object, not after it. */
  lemma MarkBytes(a: byte, b: byte, c: byte)
    requires a > 0x7F
    ensures BalancedObject([a, b, c, 0x7B, 0x7D]) <==> a == 0xEF && b == 0xBB && c == 0xBF
    ensures !BalancedObject([0x7B, 0x7D, a, b, c])
  {
    EmptyObject();
    var before, after := [a, b, c, 0x7B, 0x7D], [0x7B, 0x7D, a, b, c];
    assert before[3..] == [0x7B, 0x7D];
    assert before[0] == a && before[1] == b && before[2] == c;
    assert after[1..] == [0x7D, a, b, c] && [0x7D, a, b, c][1..] == [a, b, c];
    assert AfterObject(after) == AfterBody([0x7D, a, b, c], [0x7B]);
  }
}
