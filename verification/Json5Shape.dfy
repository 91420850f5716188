/** Whether a file holds one balanced object, told by a byte scanner that looks
    one byte ahead, and the grammar it accepts. */
module Json5Shape {
  import opened Options

  type byte = x: int | 0 <= x < 256

  const Tab: byte := 0x09
  const LineFeed: byte := 0x0A
  const FormFeed: byte := 0x0C
  const Return: byte := 0x0D
  const Space: byte := 0x20
  const Double: byte := 0x22
  const Single: byte := 0x27
  const Star: byte := 0x2A
  const Slash: byte := 0x2F
  const OpenBracket: byte := 0x5B
  const Backslash: byte := 0x5C
  const CloseBracket: byte := 0x5D
  const OpenBrace: byte := 0x7B
  const CloseBrace: byte := 0x7D
  const ByteOrderMark: seq<byte> := [0xEF, 0xBB, 0xBF]

  predicate IsBlank(b: byte) {
    b == Space || b == Tab || b == LineFeed || b == FormFeed || b == Return
  }

  predicate EndsLine(b: byte) {
    b == LineFeed || b == Return
  }

  predicate IsQuote(b: byte) {
    b == Single || b == Double
  }

  predicate IsOpen(b: byte) {
    b == OpenBrace || b == OpenBracket
  }

  predicate IsClose(b: byte) {
    b == CloseBrace || b == CloseBracket
  }

  function Closing(open: byte): byte {
    if open == OpenBrace then CloseBrace else CloseBracket
  }

  predicate OpensLine(s: seq<byte>) {
    |s| >= 2 && s[0] == Slash && s[1] == Slash
  }

  predicate OpensBlock(s: seq<byte>) {
    |s| >= 2 && s[0] == Slash && s[1] == Star
  }

  predicate EndsBlock(s: seq<byte>) {
    |s| >= 2 && s[0] == Star && s[1] == Slash
  }

  // ------------------------------------------------------------ what follows

  /** What follows a line comment's end; `None` when nothing ends it. */
  function AfterLine(s: seq<byte>): (r: Option<seq<byte>>)
    ensures r.Some? ==> |r.value| < |s|
  {
    if s == [] then None else if EndsLine(s[0]) then Some(s[1..]) else AfterLine(s[1..])
  }

  function AfterBlock(s: seq<byte>): (r: Option<seq<byte>>)
    ensures r.Some? ==> |r.value| < |s|
  {
    if s == [] then None else if EndsBlock(s) then Some(s[2..]) else AfterBlock(s[1..])
  }

  function AfterQuote(s: seq<byte>, quote: byte, escaped: bool): (r: Option<seq<byte>>)
    ensures r.Some? ==> |r.value| < |s|
  {
    if s == [] then None
    else if escaped then AfterQuote(s[1..], quote, false)
    else if s[0] == Backslash then AfterQuote(s[1..], quote, true)
    else if s[0] == quote then Some(s[1..])
    else AfterQuote(s[1..], quote, false)
  }

  /** What follows the brace that closes the object, from inside it. */
  function AfterBody(s: seq<byte>, open: seq<byte>): (r: Option<seq<byte>>)
    requires open != []
    ensures r.Some? ==> |r.value| < |s|
    decreases |s|
  {
    if s == [] then None
    else if OpensLine(s) then
      match AfterLine(s[2..])
      case None => None
      case Some(rest) => AfterBody(rest, open)
    else if OpensBlock(s) then
      match AfterBlock(s[2..])
      case None => None
      case Some(rest) => AfterBody(rest, open)
    else if IsQuote(s[0]) then
      match AfterQuote(s[1..], s[0], false)
      case None => None
      case Some(rest) => AfterBody(rest, open)
    else if IsOpen(s[0]) then AfterBody(s[1..], open + [s[0]])
    else if IsClose(s[0]) then
      if Closing(open[|open| - 1]) != s[0] then None
      else if |open| == 1 then Some(s[1..])
      else AfterBody(s[1..], open[..|open| - 1])
    else AfterBody(s[1..], open)
  }

  /** What follows the brace that closes the object, from the start. */
  function AfterObject(s: seq<byte>): (r: Option<seq<byte>>)
    ensures r.Some? ==> |r.value| < |s|
    decreases |s|
  {
    if s == [] then None
    else if OpensLine(s) then
      match AfterLine(s[2..])
      case None => None
      case Some(rest) => AfterObject(rest)
    else if OpensBlock(s) then
      match AfterBlock(s[2..])
      case None => None
      case Some(rest) => AfterObject(rest)
    else if IsBlank(s[0]) then AfterObject(s[1..])
    else if ByteOrderMark <= s then AfterObject(s[3..])
    else if s[0] == OpenBrace then AfterBody(s[1..], [OpenBrace])
    else None
  }

  /** Only blanks and comments follow the object. */
  predicate OnlyTrail(s: seq<byte>)
    decreases |s|
  {
    if s == [] then true
    else if OpensLine(s) then
      match AfterLine(s[2..])
      case None => true
      case Some(rest) => OnlyTrail(rest)
    else if OpensBlock(s) then
      match AfterBlock(s[2..])
      case None => false
      case Some(rest) => OnlyTrail(rest)
    else IsBlank(s[0]) && OnlyTrail(s[1..])
  }

  predicate BalancedObject(s: seq<byte>) {
    AfterObject(s).Some? && OnlyTrail(AfterObject(s).value)
  }

  // -------------------------------------------------------------- UTF-8 text

  predicate Continues(b: byte) {
    0x80 <= b <= 0xBF
  }

  /** The length of the character a text starts with, 0 when it is none (table
      3-7 of the Unicode standard: no surrogate, no overlong form). */
  function CharLength(s: seq<byte>): (n: nat)
    ensures n <= |s|
  {
    if s == [] then 0
    else if s[0] <= 0x7F then 1
    else if 0xC2 <= s[0] <= 0xDF then
      if |s| >= 2 && Continues(s[1]) then 2 else 0
    else if 0xE0 <= s[0] <= 0xEF then
      if |s| >= 3 && Continues(s[1]) && Continues(s[2])
         && (s[0] == 0xE0 ==> s[1] >= 0xA0) && (s[0] == 0xED ==> s[1] <= 0x9F) then 3 else 0
    else if 0xF0 <= s[0] <= 0xF4 then
      if |s| >= 4 && Continues(s[1]) && Continues(s[2]) && Continues(s[3])
         && (s[0] == 0xF0 ==> s[1] >= 0x90) && (s[0] == 0xF4 ==> s[1] <= 0x8F) then 4 else 0
    else 0
  }

  predicate IsUtf8(s: seq<byte>)
    decreases |s|
  {
    s == [] || (CharLength(s) > 0 && IsUtf8(s[CharLength(s)..]))
  }

  // ----------------------------------------------------------------- scanner

  datatype State = Normal | SingleQuoted | DoubleQuoted | LineComment | BlockComment

  /** What the scanner still has to see, outside a comment or a string. */
  predicate RestNormal(s: seq<byte>, started: bool, finished: bool, open: seq<byte>) {
    if finished then OnlyTrail(s)
    else if !started then BalancedObject(s)
    else open != [] && AfterBody(s, open).Some? && OnlyTrail(AfterBody(s, open).value)
  }

  predicate Rest(s: seq<byte>, state: State, escaped: bool, started: bool, finished: bool, open: seq<byte>) {
    match state
    case Normal => RestNormal(s, started, finished, open)
    case SingleQuoted =>
      AfterQuote(s, Single, escaped).Some? && RestNormal(AfterQuote(s, Single, escaped).value, started, finished, open)
    case DoubleQuoted =>
      AfterQuote(s, Double, escaped).Some? && RestNormal(AfterQuote(s, Double, escaped).value, started, finished, open)
    case LineComment =>
      if AfterLine(s).None? then finished else RestNormal(AfterLine(s).value, started, finished, open)
    case BlockComment =>
      AfterBlock(s).Some? && RestNormal(AfterBlock(s).value, started, finished, open)
  }

  ghost predicate Sane(state: State, escaped: bool, started: bool, finished: bool, open: seq<byte>) {
    && (finished ==> started) && (started ==> (finished <==> open == [])) && (!started ==> open == [])
    && (open != [] ==> open[0] == OpenBrace)
    && (forall i :: 0 <= i < |open| ==> IsOpen(open[i]))
    && (escaped ==> state == SingleQuoted || state == DoubleQuoted)
    && (state == SingleQuoted || state == DoubleQuoted ==> started && !finished)
  }

  datatype Scan = Scan(state: State, escaped: bool, started: bool, finished: bool, open: seq<byte>)

  /** What the scanner still has to see. */
  predicate Accepts(scan: Scan, s: seq<byte>) {
    Rest(s, scan.state, scan.escaped, scan.started, scan.finished, scan.open)
  }

  ghost predicate SaneScan(scan: Scan) {
    Sane(scan.state, scan.escaped, scan.started, scan.finished, scan.open)
  }

  method HasBalancedShape(bytes: seq<byte>) returns (balanced: bool)
    ensures balanced <==> IsUtf8(bytes) && BalancedObject(bytes)
  {
    if !IsUtf8(bytes) {
      return false;
    }
    var scan := Scan(Normal, false, false, false, []);
    var index := 0;
    assert bytes[0..] == bytes;
    while index < |bytes|
      invariant 0 <= index <= |bytes|
      invariant SaneScan(scan)
      invariant BalancedObject(bytes) == Accepts(scan, bytes[index..])
    {
      var refused := false;
      if scan.state == Normal {
        refused, scan, index := ScanNormal(bytes, index, scan);
      } else {
        scan, index := ScanInside(bytes, index, scan);
      }
      if refused {
        return false;
      }
      index := index + 1;
    }
    assert bytes[index..] == [];
    AtTheEnd(scan);
    balanced := scan.started && scan.finished && scan.open == [] && (scan.state == Normal || scan.state == LineComment);
  }

  lemma AtTheEnd(scan: Scan)
    requires SaneScan(scan)
    ensures Accepts(scan, []) <==>
            scan.started && scan.finished && scan.open == [] && (scan.state == Normal || scan.state == LineComment)
  {
  }

  /** One byte of a comment or a string. */
  method ScanInside(bytes: seq<byte>, index: nat, before: Scan) returns (scan: Scan, last: nat)
    requires index < |bytes| && before.state != Normal && SaneScan(before)
    ensures index <= last < |bytes|
    ensures SaneScan(scan) && Accepts(scan, bytes[last + 1..]) == Accepts(before, bytes[index..])
  {
    scan, last := before, index;
    var b := bytes[index];
    ghost var s := bytes[index..];
    assert s[0] == b && s[1..] == bytes[index + 1..];
    match scan.state {
      case SingleQuoted => {
        scan := ScanQuoted(scan, b, Single);
      }
      case DoubleQuoted => {
        scan := ScanQuoted(scan, b, Double);
      }
      case LineComment => {
        if EndsLine(b) {
          scan := scan.(state := Normal);
        }
      }
      case BlockComment => {
        if b == Star && index + 1 < |bytes| && bytes[index + 1] == Slash {
          assert s[1] == Slash && s[2..] == bytes[index + 2..];
          scan, last := scan.(state := Normal), index + 1;
        } else {
          assert !EndsBlock(s);
        }
      }
    }
  }

  method ScanQuoted(before: Scan, b: byte, quote: byte) returns (scan: Scan)
    requires IsQuote(quote)
    ensures scan ==
            if before.escaped then before.(escaped := false)
            else if b == Backslash then before.(escaped := true)
            else if b == quote then before.(state := Normal)
            else before
  {
    scan := before;
    if scan.escaped {
      scan := scan.(escaped := false);
    } else if b == Backslash {
      scan := scan.(escaped := true);
    } else if b == quote {
      scan := scan.(state := Normal);
    }
  }

  lemma Lookahead(bytes: seq<byte>, index: nat)
    requires index < |bytes|
    ensures var s := bytes[index..];
            && s != [] && s[0] == bytes[index] && s[1..] == bytes[index + 1..]
            && (index + 1 < |bytes| ==> s[1] == bytes[index + 1] && s[2..] == bytes[index + 2..])
            && (index + 2 < |bytes| ==> s[3..] == bytes[index + 3..])
  {
  }

  /** One byte, or the two or three that open a comment or mark the byte order,
      outside a comment or a string. */
  method ScanNormal(bytes: seq<byte>, index: nat, before: Scan) returns (refused: bool, scan: Scan, last: nat)
    requires index < |bytes| && before.state == Normal && SaneScan(before)
    ensures index <= last < |bytes|
    ensures refused ==> !Accepts(before, bytes[index..])
    ensures !refused ==> SaneScan(scan) && Accepts(scan, bytes[last + 1..]) == Accepts(before, bytes[index..])
  {
    refused, scan, last := false, before, index;
    var b := bytes[index];
    var next := if index + 1 < |bytes| then Some(bytes[index + 1]) else None;
    ghost var s := bytes[index..];
    Lookahead(bytes, index);
    if b == Slash && next == Some(Slash) {
      assert OpensLine(s);
      scan, last := scan.(state := LineComment), index + 1;
    } else if b == Slash && next == Some(Star) {
      assert OpensBlock(s);
      scan, last := scan.(state := BlockComment), index + 1;
    } else {
      assert !OpensLine(s) && !OpensBlock(s);
      if IsBlank(b) || (!scan.started && ByteOrderMark <= bytes[index..]) {
        if !scan.started && ByteOrderMark <= bytes[index..] {
          assert s[0] == 0xEF && !IsBlank(s[0]) && s[3..] == bytes[index + 3..];
          last := index + 2;
        }
      } else if !scan.started {
        refused := b != OpenBrace;
        scan := scan.(started := true, open := [OpenBrace]);
      } else if scan.finished {
        refused := true;
      } else {
        refused, scan := ScanBody(b, scan, s);
      }
    }
  }

  /** One byte inside the object. */
  method ScanBody(b: byte, before: Scan, ghost s: seq<byte>) returns (refused: bool, scan: Scan)
    requires s != [] && s[0] == b && !OpensLine(s) && !OpensBlock(s) && !IsBlank(b)
    requires before.state == Normal && SaneScan(before) && before.started && !before.finished
    ensures refused ==> !Accepts(before, s)
    ensures !refused ==> SaneScan(scan) && Accepts(scan, s[1..]) == Accepts(before, s)
  {
    refused, scan := false, before;
    if b == Single {
      scan := scan.(state := SingleQuoted);
    } else if b == Double {
      scan := scan.(state := DoubleQuoted);
    } else if b == OpenBrace || b == OpenBracket {
      scan := scan.(open := scan.open + [b]);
    } else if b == CloseBrace || b == CloseBracket {
      var top := scan.open[|scan.open| - 1];
      scan := scan.(open := scan.open[..|scan.open| - 1]);
      if top != (if b == CloseBrace then OpenBrace else OpenBracket) {
        refused := true;
      } else if scan.open == [] {
        scan := scan.(finished := true);
      }
    }
  }
}
