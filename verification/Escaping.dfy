/**
 What the string escaper is meant to produce, one unit at a time: a unit is a well-formed UTF-8
 sequence or a single byte. Reading the result back as RFC 8259 reads a string gives the decoded
 input, so escaping loses nothing but the bytes that were not UTF-8.
 */
module Escaping {
  import opened Wrappers
  import opened Utf8
  import opened Json
  import opened JsonFacts

  function HexDigit(n: nat): (b: byte)
    requires n < 16
    ensures HexValue(b) == Some(n)
  {
    if n < 10 then 0x30 + n else 0x61 + (n - 10)
  }

  /** Letters are small. */
  lemma HexDigitIsLower(n: nat)
    requires n < 16
    ensures HexDigit(n) as int == "0123456789abcdef"[n] as int
  {}

  predicate IsPlain(b: byte) {
    0x20 <= b < 0x80 && b != BACKSLASH && b != QUOTE
  }

  /** `\ufffd`. */
  const REPLACEMENT_ESCAPE: bytes := [BACKSLASH, 0x75, 0x66, 0x66, 0x66, 0x64]

  /** The escape of a byte below 0x80 that cannot stand for itself. */
  function EscapeByte(b: byte): (r: bytes)
    requires b < 0x80 && !IsPlain(b)
    ensures |r| <= 6
  {
    if b == BACKSLASH || b == QUOTE then [BACKSLASH, b]
    else if b == 0x0A then [BACKSLASH, 0x6E]
    else if b == 0x0D then [BACKSLASH, 0x72]
    else if b == 0x09 then [BACKSLASH, 0x74]
    else [BACKSLASH, 0x75, ZERO, ZERO, HexDigit(b / 16), HexDigit(b % 16)]
  }

  function EscapeUnit(s: bytes): bytes
    requires s != []
  {
    if s[0] < 0x80 then
      if IsPlain(s[0]) then [s[0]] else EscapeByte(s[0])
    else if WellFormedPrefix(s) == 0 then REPLACEMENT_ESCAPE
    else s[..WellFormedPrefix(s)]
  }

  function Escape(s: bytes): bytes
    decreases |s|
  {
    if s == [] then [] else EscapeUnit(s) + Escape(s[DecodeRune(s).size..])
  }

  /** A quoted string, then `tail`. */
  function Quoted(s: bytes, tail: bytes): bytes {
    [QUOTE] + (Escape(s) + ([QUOTE] + tail))
  }

  lemma EscapeByteReads(b: byte, tail: bytes)
    requires b < 0x80 && !IsPlain(b)
    ensures EscapeByte(b)[0] == BACKSLASH
    ensures tail != [] ==> Escaped(EscapeByte(b) + tail) == Got(b, tail)
  {
    var u := EscapeByte(b);
    var t := u + tail;
    DropAppend(u, tail, |u|);
    assert t[0] == u[0] && t[1] == u[1];
    if |u| == 6 {
      UnitEscapeReads(u, b, tail);
    }
  }

  /** A `\u` escape that is no surrogate reads as its value whatever follows. */
  lemma UnitEscapeReads(u: bytes, value: nat, tail: bytes)
    requires |u| == 6 && u[0] == BACKSLASH && u[1] == 0x75
    requires Hex4(u[2..]) == Some(value) && !(0xD800 <= value < 0xE000)
    ensures Escaped(u + tail) == Got(value, tail)
  {
    var t := u + tail;
    assert t[0] == u[0] && t[1] == u[1];
    DropAppend(u, tail, 2);
    DropAppend(u, tail, 6);
    Hex4Append(u[2..], tail);
  }

  lemma EscapeUnitReads(s: bytes, tail: bytes)
    requires s != [] && tail != []
    ensures EscapeUnit(s) != [] && EscapeUnit(s)[0] != QUOTE
    ensures Char(EscapeUnit(s) + tail) == Got(DecodeRune(s).code, tail)
  {
    var u := EscapeUnit(s);
    DropAppend(u, tail, |u|);
    assert (u + tail)[0] == u[0];
    if s[0] < 0x80 && !IsPlain(s[0]) {
      EscapeByteReads(s[0], tail);
    } else if WellFormedPrefix(s) == 0 {
      assert Hex4(u[2..]) == Some(REPLACEMENT);
      UnitEscapeReads(u, REPLACEMENT, tail);
    } else {
      RawUnitReads(s, tail);
    }
  }

  lemma RawUnitReads(s: bytes, tail: bytes)
    requires WellFormedPrefix(s) > 0 && (s[0] >= 0x80 || IsPlain(s[0]))
    ensures var u := s[..WellFormedPrefix(s)]; Char(u + tail) == Got(DecodeRune(s).code, tail)
  {
    var u := s[..WellFormedPrefix(s)];
    WellFormedPrefixOfItself(s);
    WellFormedPrefixAppend(u, tail);
    DropAppend(u, tail, |u|);
    assert (u + tail)[0] == s[0];
  }

  lemma WellFormedPrefixOfItself(s: bytes)
    requires WellFormedPrefix(s) > 0
    ensures WellFormedPrefix(s[..WellFormedPrefix(s)]) == WellFormedPrefix(s)
    ensures DecodeRune(s[..WellFormedPrefix(s)]) == DecodeRune(s)
  {}

  /**
   RFC 8259 reads the escaped text, up to the closing quotation mark and no further, as the input
   with each byte that is invalid under RFC 3629 replaced by U+FFFD.
   */
  lemma {:induction false} EscapeReads(s: bytes, tail: bytes)
    ensures Chars(Escape(s) + ([QUOTE] + tail)) == Got(Decode(s), tail)
    decreases |s|
  {
    var end := [QUOTE] + tail;
    if s == [] {
      assert Escape(s) + end == end && end[1..] == tail;
    } else {
      var rest := Escape(s[DecodeRune(s).size..]);
      assert Escape(s) + end == EscapeUnit(s) + (rest + end);
      EscapeUnitReads(s, rest + end);
      EscapeReads(s[DecodeRune(s).size..], tail);
    }
  }

  /** On valid UTF-8, escaping and reading back is the identity. */
  lemma EscapeIsLossless(cs: seq<nat>, tail: bytes)
    requires forall c | c in cs :: IsScalar(c)
    ensures Chars(Escape(EncodeAll(cs)) + ([QUOTE] + tail)) == Got(cs, tail)
  {
    DecodeOfEncodeAll(cs);
    EscapeReads(EncodeAll(cs), tail);
  }

  /** Nothing is escaped that need not be, and a short escape is taken where there is one. */
  lemma EscapeUnitIsShort(s: bytes)
    requires s != []
    ensures WellFormedPrefix(s) > 0 && s[0] >= 0x20 && s[0] != QUOTE && s[0] != BACKSLASH
            ==> EscapeUnit(s) == s[..WellFormedPrefix(s)]
    ensures s[0] == QUOTE || s[0] == BACKSLASH || s[0] == 0x09 || s[0] == 0x0A || s[0] == 0x0D
            ==> |EscapeUnit(s)| == 2
    ensures WellFormedPrefix(s) == 0 || (s[0] < 0x20 && s[0] != 0x09 && s[0] != 0x0A && s[0] != 0x0D)
            ==> |EscapeUnit(s)| == 6
  {}

  /** At most six bytes for one, and none of them a control byte. */
  lemma {:induction false} EscapeIsBounded(s: bytes)
    ensures |Escape(s)| <= 6 * |s|
    ensures forall b | b in Escape(s) :: b >= 0x20
    decreases |s|
  {
    if s != [] {
      EscapeIsBounded(s[DecodeRune(s).size..]);
      forall b | b in EscapeUnit(s) ensures b >= 0x20 {
        if s[0] >= 0x80 && WellFormedPrefix(s) > 0 {
          assert forall i | 0 <= i < WellFormedPrefix(s) :: s[i] >= 0x80;
        }
      }
    }
  }

  /** Two inputs with one escaped text decode alike; valid UTF-8 inputs with one escaped text are equal. */
  lemma EscapeIsInjective(s: bytes, t: bytes)
    requires Escape(s) == Escape(t)
    ensures Decode(s) == Decode(t)
    ensures Valid(s) && Valid(t) ==> s == t
  {
    EscapeReads(s, []);
    EscapeReads(t, []);
    if Valid(s) && Valid(t) {
      ValidIsEncoded(s);
      ValidIsEncoded(t);
    }
  }

  // Text that is put between quotation marks without escaping (AppendTimeLayout, appendComplex)

  /** Reading `n` bytes below 0x80 as UTF-8 gives `n` code points. */
  lemma {:induction false} DecodeAscii(s: bytes, n: nat)
    requires n <= |s| && forall i | 0 <= i < n :: s[i] < 0x80
    ensures |Decode(s)| == n + |Decode(s[n..])|
  {
    if n == 0 {
      assert s[n..] == s;
    } else {
      DecodeAscii(s[1..], n - 1);
      assert s[1..][n - 1..] == s[n..];
    }
  }

  lemma Hex4IsAscii(s: bytes, k: nat)
    requires k <= |s| && Hex4(s[k..]).Some?
    ensures k + 4 <= |s| && forall i | k <= i < k + 4 :: s[i] < 0x80 && s[i] != QUOTE
  {
    var h := s[k..];
    assert HexValue(h[0]).Some? && HexValue(h[1]).Some? && HexValue(h[2]).Some? && HexValue(h[3]).Some?;
    forall i | k <= i < k + 4 ensures s[i] < 0x80 && s[i] != QUOTE {
      assert s[i] == h[i - k];
    }
  }

  lemma EscapedIsAscii(s: bytes)
    requires s != [] && s[0] == BACKSLASH && Escaped(s).Got?
    ensures |s| - |Escaped(s).rest| >= 2 && Escaped(s).rest == s[|s| - |Escaped(s).rest|..]
    ensures forall i | 0 <= i < |s| - |Escaped(s).rest| :: s[i] < 0x80 && (s[i] != QUOTE || i == 1)
  {
    if s[1] == 0x75 {
      Hex4IsAscii(s, 2);
      if |s| - |Escaped(s).rest| == 12 {
        Hex4IsAscii(s, 8);
      }
    }
  }

  /** The last quotation mark closes the string, so no escape sequence reaches it. */
  lemma EscapeStopsBeforeClosingQuote(s: bytes)
    requires s != [] && s[0] == BACKSLASH && Escaped(s + [QUOTE]).Got?
    requires Chars(Escaped(s + [QUOTE]).rest).Got?
    ensures var n := |s| + 1 - |Escaped(s + [QUOTE]).rest|;
            && 2 <= n <= |s| && Escaped(s + [QUOTE]).rest == s[n..] + [QUOTE]
            && forall i | 0 <= i < n :: s[i] < 0x80
  {
    var t := s + [QUOTE];
    EscapedIsAscii(t);
    var n := |t| - |Escaped(t).rest|;
    assert Escaped(t).rest != [];
    assert t[n..] == s[n..] + [QUOTE];
    assert forall i | 0 <= i < n :: t[i] == s[i];
  }

  /** Read raw, a text never gains characters, and keeps their number only if escaping would not have changed it. */
  lemma {:induction false} RawReadsShort(s: bytes)
    requires Chars(s + [QUOTE]).Got? && Chars(s + [QUOTE]).rest == []
    ensures |Chars(s + [QUOTE]).value| <= |Decode(s)|
    ensures |Chars(s + [QUOTE]).value| == |Decode(s)| ==> Escape(s) == s
    decreases |s|
  {
    var t := s + [QUOTE];
    if s != [] {
      assert t[0] == s[0];
      var n := |t| - |Char(t).rest|;
      if s[0] == QUOTE {
        assert false;
      } else if s[0] == BACKSLASH {
        EscapeStopsBeforeClosingQuote(s);
        DecodeAscii(s, n);
        RawReadsShort(s[n..]);
      } else {
        RawUnit(s);
        RawReadsShort(s[n..]);
      }
    }
  }

  /** A character that stands for itself. */
  lemma RawUnit(s: bytes)
    requires s != [] && s[0] != QUOTE && s[0] != BACKSLASH && Char(s + [QUOTE]).Got?
    ensures var n := |s| + 1 - |Char(s + [QUOTE]).rest|;
            && n == DecodeRune(s).size
            && Char(s + [QUOTE]).rest == s[n..] + [QUOTE]
            && (Escape(s[n..]) == s[n..] ==> Escape(s) == s)
  {
    var t := s + [QUOTE];
    assert t[0] == s[0];
    QuoteEndsNoSequence(s);
    var n := DecodeRune(s).size;
    DropAppend(s, [QUOTE], n);
    UnitStandsForItself(s);
  }

  lemma UnitStandsForItself(s: bytes)
    requires s != [] && s[0] != QUOTE && s[0] != BACKSLASH && s[0] >= 0x20 && WellFormedPrefix(s) > 0
    ensures EscapeUnit(s) == s[..DecodeRune(s).size]
    ensures var n := DecodeRune(s).size; Escape(s[n..]) == s[n..] ==> Escape(s) == s
  {
    assert s == s[..DecodeRune(s).size] + s[DecodeRune(s).size..];
  }

  /** A quotation mark is no part of a multi-byte sequence. */
  lemma QuoteEndsNoSequence(s: bytes)
    requires s != [] && WellFormedPrefix(s + [QUOTE]) > 0
    ensures WellFormedPrefix(s) == WellFormedPrefix(s + [QUOTE])
    ensures DecodeRune(s) == DecodeRune(s + [QUOTE])
  {
    var t := s + [QUOTE];
    assert t[|s|] == QUOTE;
    assert forall i | 0 <= i < |s| :: t[i] == s[i];
  }

  /**
   Text written between quotation marks as it is reads back as itself exactly when escaping it would
   have changed nothing.
   */
  lemma VerbatimIsFaithfulIff(s: bytes)
    ensures Chars(s + [QUOTE]) == Got(Decode(s), []) <==> Escape(s) == s
  {
    if Escape(s) == s {
      EscapeReads(s, []);
      assert [QUOTE] + [] == [QUOTE];
    }
    if Chars(s + [QUOTE]) == Got(Decode(s), []) {
      RawReadsShort(s);
    }
  }
}
