/**
 UTF-8 as section 3 (encoding) and section 4 (syntax of byte sequences) of RFC 3629 define it, and
 the decoder that the string escaper consults for bytes of 0x80 and above.
 */
module Utf8 {
  type byte = x: int | 0 <= x < 256
  type bytes = seq<byte>

  /** U+FFFD, what an invalid byte is replaced by. */
  const REPLACEMENT: nat := 0xFFFD

  /** A decoded code point and the number of bytes it was read from. */
  datatype Rune = Rune(code: nat, size: nat)

  predicate IsScalar(c: nat) {
    c < 0xD800 || 0xE000 <= c <= 0x10FFFF
  }

  predicate IsTail(b: byte) {
    0x80 <= b <= 0xBF
  }

  /** The length of the well-formed sequence that `s` starts with (RFC 3629, section 4); 0 if there is none. */
  function WellFormedPrefix(s: bytes): nat {
    if |s| == 0 then 0
    else if s[0] <= 0x7F then 1
    else if |s| >= 2 && 0xC2 <= s[0] <= 0xDF && IsTail(s[1]) then 2
    else if |s| >= 3 && ThirdRow(s[0], s[1]) && IsTail(s[2]) then 3
    else if |s| >= 4 && FourthRow(s[0], s[1]) && IsTail(s[2]) && IsTail(s[3]) then 4
    else 0
  }

  predicate ThirdRow(b0: byte, b1: byte) {
    || (b0 == 0xE0 && 0xA0 <= b1 <= 0xBF)
    || (0xE1 <= b0 <= 0xEC && IsTail(b1))
    || (b0 == 0xED && 0x80 <= b1 <= 0x9F)
    || (0xEE <= b0 <= 0xEF && IsTail(b1))
  }

  predicate FourthRow(b0: byte, b1: byte) {
    || (b0 == 0xF0 && 0x90 <= b1 <= 0xBF)
    || (0xF1 <= b0 <= 0xF3 && IsTail(b1))
    || (b0 == 0xF4 && 0x80 <= b1 <= 0x8F)
  }

  /** Appends the six payload bits of a tail byte to the bits read so far. */
  function Push(bits: nat, b: byte): (r: nat)
    requires IsTail(b)
    ensures r / 0x40 == bits && 0x80 + r % 0x40 == b
  {
    bits * 0x40 + (b as int - 0x80)
  }

  /** The tail byte that carries the lowest six bits of `c`. */
  function Tail(c: nat): (b: byte)
    ensures IsTail(b)
  {
    0x80 + c % 0x40
  }

  /** The first code point of `s`; an invalid first byte gives U+FFFD of width 1. */
  function DecodeRune(s: bytes): (r: Rune)
    requires |s| > 0
    ensures 1 <= r.size <= |s| && r.size <= 4
    ensures WellFormedPrefix(s) > 0 ==> r.size == WellFormedPrefix(s)
  {
    match WellFormedPrefix(s)
    case 1 => Rune(s[0], 1)
    case 2 => Rune(Push(s[0] as int - 0xC0, s[1]), 2)
    case 3 => Rune(Push(Push(s[0] as int - 0xE0, s[1]), s[2]), 3)
    case 4 => Rune(Push(Push(Push(s[0] as int - 0xF0, s[1]), s[2]), s[3]), 4)
    case _ => Rune(REPLACEMENT, 1)
  }

  /** RFC 3629, section 3. */
  function Encode(c: nat): bytes
    requires IsScalar(c)
  {
    if c <= 0x7F then [c]
    else if c <= 0x7FF then [0xC0 + c / 0x40, Tail(c)]
    else if c <= 0xFFFF then [0xE0 + c / 0x40 / 0x40, Tail(c / 0x40), Tail(c)]
    else [0xF0 + c / 0x40 / 0x40 / 0x40, Tail(c / 0x40 / 0x40), Tail(c / 0x40), Tail(c)]
  }

  function EncodeAll(cs: seq<nat>): bytes
    requires forall c | c in cs :: IsScalar(c)
  {
    if cs == [] then [] else Encode(cs[0]) + EncodeAll(cs[1..])
  }

  /** Every byte belongs to a well-formed sequence. */
  predicate Valid(s: bytes)
    decreases |s|
  {
    s == [] || (WellFormedPrefix(s) > 0 && Valid(s[WellFormedPrefix(s)..]))
  }

  /** The code points of `s`, each invalid byte replaced by U+FFFD. */
  function Decode(s: bytes): seq<nat>
    decreases |s|
  {
    if s == [] then [] else [DecodeRune(s).code] + Decode(s[DecodeRune(s).size..])
  }

  /** A byte that begins no sequence that RFC 3629 admits is replaced, and decoding goes on right behind it. */
  lemma InvalidIsReplaced(s: bytes)
    requires s != []
    ensures WellFormedPrefix(s) == 0 ==> Decode(s) == [0xFFFD] + Decode(s[1..])
    ensures WellFormedPrefix(s) > 0 ==> DecodeRune(s).size == WellFormedPrefix(s)
    ensures WellFormedPrefix(s) > 0 ==> Decode(s) == [DecodeRune(s).code] + Decode(s[WellFormedPrefix(s)..])
  {}

  /** A sequence that RFC 3629 admits decodes to a scalar value and that value encodes to the sequence. */
  lemma EncodeOfDecodeRune(s: bytes)
    requires WellFormedPrefix(s) > 0
    ensures IsScalar(DecodeRune(s).code)
    ensures Encode(DecodeRune(s).code) == s[..DecodeRune(s).size]
  {
    var n := WellFormedPrefix(s);
    if n == 2 {
      var c := Push(s[0] as int - 0xC0, s[1]);
      assert Encode(c) == [s[0], s[1]];
    } else if n == 3 {
      EncodeOfThree(s);
    } else if n == 4 {
      EncodeOfFour(s);
    }
  }

  lemma EncodeOfThree(s: bytes)
    requires WellFormedPrefix(s) == 3
    ensures IsScalar(DecodeRune(s).code) && Encode(DecodeRune(s).code) == s[..DecodeRune(s).size]
  {
    var c1 := Push(s[0] as int - 0xE0, s[1]);
    var c := Push(c1, s[2]);
    assert c1 / 0x40 == s[0] as int - 0xE0 && Tail(c1) == s[1];
    assert Encode(c) == [s[0], s[1], s[2]];
  }

  lemma EncodeOfFour(s: bytes)
    requires WellFormedPrefix(s) == 4
    ensures IsScalar(DecodeRune(s).code) && Encode(DecodeRune(s).code) == s[..DecodeRune(s).size]
  {
    var c1 := Push(s[0] as int - 0xF0, s[1]);
    var c2 := Push(c1, s[2]);
    var c := Push(c2, s[3]);
    assert c1 / 0x40 == s[0] as int - 0xF0 && Tail(c1) == s[1];
    assert c2 / 0x40 == c1 && Tail(c2) == s[2];
    assert Encode(c) == [s[0], s[1], s[2], s[3]];
  }

  /** Decoding is a left inverse of encoding, whatever bytes follow. */
  lemma DecodeRuneOfEncode(c: nat, rest: bytes)
    requires IsScalar(c)
    ensures WellFormedPrefix(Encode(c) + rest) == |Encode(c)| > 0
    ensures DecodeRune(Encode(c) + rest) == Rune(c, |Encode(c)|)
  {
    var e := Encode(c);
    var s := e + rest;
    if c <= 0x7F {
      assert s[0] == c;
    } else if c <= 0x7FF {
      assert s[0] == e[0] && s[1] == e[1];
    } else if c <= 0xFFFF {
      assert s[0] == e[0] && s[1] == e[1] && s[2] == e[2];
    } else {
      assert s[0] == e[0] && s[1] == e[1] && s[2] == e[2] && s[3] == e[3];
    }
  }

  lemma {:induction false} DecodeOfEncodeAll(cs: seq<nat>)
    requires forall c | c in cs :: IsScalar(c)
    ensures Valid(EncodeAll(cs)) && Decode(EncodeAll(cs)) == cs
  {
    if cs != [] {
      var rest := EncodeAll(cs[1..]);
      DecodeRuneOfEncode(cs[0], rest);
      assert (Encode(cs[0]) + rest)[|Encode(cs[0])|..] == rest;
      DecodeOfEncodeAll(cs[1..]);
    }
  }

  /** Valid UTF-8 is exactly what some sequence of scalar values encodes to. */
  lemma {:induction false} ValidIsEncoded(s: bytes)
    requires Valid(s)
    ensures forall c | c in Decode(s) :: IsScalar(c)
    ensures EncodeAll(Decode(s)) == s
    decreases |s|
  {
    hide WellFormedPrefix, DecodeRune, Encode, IsScalar;
    if s != [] {
      EncodeOfDecodeRune(s);
      var tail := s[DecodeRune(s).size..];
      ValidIsEncoded(tail);
      var d := Decode(s);
      assert d == [DecodeRune(s).code] + Decode(tail);
      assert d[0] == DecodeRune(s).code && d[1..] == Decode(tail);
      forall c | c in d ensures IsScalar(c) {
        assert c == d[0] || c in d[1..];
      }
      calc {
        EncodeAll(d);
        Encode(d[0]) + EncodeAll(d[1..]);
        s[..DecodeRune(s).size] + tail;
        s;
      }
    }
  }

  /** Text of characters below 0x80, as bytes. */
  function Ascii(s: string): bytes
    requires forall i | 0 <= i < |s| :: s[i] as int < 128
  {
    seq(|s|, i requires 0 <= i < |s| => s[i] as int)
  }
}
