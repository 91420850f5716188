/** The bytes the scanner takes for text are exactly the UTF-8 encodings of
    texts (section 3 of RFC 3629). */
module Utf8Text {
  import opened Json5Shape

  /** A Unicode scalar value: any code point but the surrogates. */
  type Scalar = n: int | (0 <= n < 0xD800) || (0xE000 <= n < 0x11_0000)

  function Encode(n: Scalar): seq<byte> {
    if n < 0x80 then [n]
    else if n < 0x800 then [0xC0 + n / 64, 0x80 + n % 64]
    else if n < 0x1_0000 then [0xE0 + n / 64 / 64, 0x80 + n / 64 % 64, 0x80 + n % 64]
    else [0xF0 + n / 64 / 64 / 64, 0x80 + n / 64 / 64 % 64, 0x80 + n / 64 % 64, 0x80 + n % 64]
  }

  function EncodeAll(text: seq<Scalar>): seq<byte> {
    if text == [] then [] else Encode(text[0]) + EncodeAll(text[1..])
  }

  // ------------------------------------------------------------ one character

  lemma EncodedLength(n: Scalar, rest: seq<byte>)
    ensures CharLength(Encode(n) + rest) == |Encode(n)|
  {
    var s := Encode(n) + rest;
    assert forall i :: 0 <= i < |Encode(n)| ==> s[i] == Encode(n)[i];
  }

  lemma Digits(high: nat, low: nat) returns (n: nat)
    requires low < 64
    ensures n == high * 64 + low && n / 64 == high && n % 64 == low
  {
    n := high * 64 + low;
  }

  lemma TwoBytes(s: seq<byte>) returns (n: Scalar)
    requires CharLength(s) == 2
    ensures s[..2] == Encode(n)
  {
    n := Digits(s[0] - 0xC0, s[1] - 0x80);
  }

  lemma ThreeBytes(s: seq<byte>) returns (n: Scalar)
    requires CharLength(s) == 3
    ensures s[..3] == Encode(n)
  {
    var high := Digits(s[0] - 0xE0, s[1] - 0x80);
    n := Digits(high, s[2] - 0x80);
  }

  lemma FourBytes(s: seq<byte>) returns (n: Scalar)
    requires CharLength(s) == 4
    ensures s[..4] == Encode(n)
  {
    var high := Digits(s[0] - 0xF0, s[1] - 0x80);
    var middle := Digits(high, s[2] - 0x80);
    n := Digits(middle, s[3] - 0x80);
  }

  lemma Decoded(s: seq<byte>) returns (n: Scalar)
    requires CharLength(s) > 0
    ensures s[..CharLength(s)] == Encode(n)
  {
    match CharLength(s)
    case 1 => n := s[0];
    case 2 => n := TwoBytes(s);
    case 3 => n := ThreeBytes(s);
    case _ => n := FourBytes(s);
  }

  // ------------------------------------------------------------------ a text

  lemma {:induction false} EncodedIsUtf8(text: seq<Scalar>)
    ensures IsUtf8(EncodeAll(text))
  {
    if text != [] {
      var rest := EncodeAll(text[1..]);
      EncodedIsUtf8(text[1..]);
      EncodedLength(text[0], rest);
      assert EncodeAll(text)[|Encode(text[0])|..] == rest;
    }
  }

  lemma OneMore(first: Scalar, rest: seq<Scalar>)
    ensures EncodeAll([first] + rest) == Encode(first) + EncodeAll(rest)
  {
    assert ([first] + rest)[1..] == rest;
  }

  lemma Cut(s: seq<byte>, n: nat)
    requires n <= |s|
    ensures s[..n] + s[n..] == s
  {
  }

  lemma {:induction false} Utf8IsEncoded(s: seq<byte>) returns (text: seq<Scalar>)
    requires IsUtf8(s)
    ensures s == EncodeAll(text)
    decreases |s|
  {
    text := [];
    if s != [] {
      var n := CharLength(s);
      var first := Decoded(s);
      var rest := Utf8IsEncoded(s[n..]);
      text := [first] + rest;
      OneMore(first, rest);
      Cut(s, n);
    }
  }

  /** Exactly the encodings of texts are taken for text. */
  lemma Utf8Exactly(s: seq<byte>)
    ensures IsUtf8(s) <==> exists text :: s == EncodeAll(text)
  {
    if IsUtf8(s) {
      var text := Utf8IsEncoded(s);
    }
    if text :| s == EncodeAll(text) {
      EncodedIsUtf8(text);
    }
  }
}
