/**
 Two facts about the parser that the encoder relies on. What it has read stays read when more bytes
 are appended, so a value can be parsed in place; and a value never ends in a byte after which
 another key or value could follow without a comma.
 */
module JsonFacts {
  import opened Utf8
  import opened Json

  /** Bytes that a number could go on with. */
  predicate ContinuesNumber(b: byte) {
    IsDigit(b) || b == 0x2E || b == 0x45 || b == 0x65 || b == 0x2B || b == MINUS
  }

  predicate Stops(s: bytes) {
    s == [] || !ContinuesNumber(s[0])
  }

  lemma DropAppend(s: bytes, e: bytes, n: nat)
    requires n <= |s|
    ensures (s + e)[n..] == s[n..] + e
  {}

  lemma {:induction false} SkipBlanksAppend(s: bytes, e: bytes)
    requires SkipBlanks(s) != []
    ensures SkipBlanks(s + e) == SkipBlanks(s) + e
  {
    if IsBlank(s[0]) {
      DropAppend(s, e, 1);
      SkipBlanksAppend(s[1..], e);
    }
  }

  lemma Hex4Append(s: bytes, e: bytes)
    requires |s| >= 4
    ensures Hex4(s + e) == Hex4(s)
  {
    assert forall i | 0 <= i < 4 :: (s + e)[i] == s[i];
  }

  lemma WellFormedPrefixAppend(s: bytes, e: bytes)
    requires WellFormedPrefix(s) > 0
    ensures WellFormedPrefix(s + e) == WellFormedPrefix(s)
    ensures DecodeRune(s + e) == DecodeRune(s)
  {
    var t := s + e;
    assert t[0] == s[0];
    assert |s| > 1 ==> t[1] == s[1];
    assert |s| > 2 ==> t[2] == s[2];
    assert |s| > 3 ==> t[3] == s[3];
  }

  /** An escape is read the same way when more follows, once the string goes on to a closing quote. */
  lemma EscapedAppend(s: bytes, e: bytes)
    requires Escaped(s).Got? && Chars(Escaped(s).rest).Got?
    ensures Escaped(s + e) == Got(Escaped(s).value, Escaped(s).rest + e)
  {
    var t := s + e;
    assert t[0] == s[0] && t[1] == s[1];
    DropAppend(s, e, 2);
    if s[1] == 0x75 {
      Hex4Append(s[2..], e);
      DropAppend(s, e, 6);
      if |s| >= 12 {
        assert t[6] == s[6] && t[7] == s[7];
        DropAppend(s, e, 8);
        DropAppend(s, e, 12);
        Hex4Append(s[8..], e);
      } else {
        var after := s[6..];
        assert Escaped(s).rest == after;
        assert t[6] == s[6] == after[0];
        if after[0] == BACKSLASH {
          assert Escaped(after).Got?;
          assert t[7] == s[7] == after[1];
        }
      }
    }
  }

  lemma {:induction false} CharsAppend(s: bytes, e: bytes)
    requires Chars(s).Got?
    ensures Chars(s + e) == Got(Chars(s).value, Chars(s).rest + e)
    decreases |s|
  {
    DropAppend(s, e, 1);
    if s[0] != QUOTE {
      var c := Char(s);
      if s[0] == BACKSLASH {
        EscapedAppend(s, e);
      } else {
        WellFormedPrefixAppend(s, e);
        DropAppend(s, e, DecodeRune(s).size);
      }
      assert Char(s + e) == Got(c.value, c.rest + e);
      CharsAppend(c.rest, e);
    }
  }

  lemma {:induction false} DigitsAppend(s: bytes, e: bytes)
    requires Stops(e) || Digits(s) < |s|
    ensures Digits(s + e) == Digits(s)
  {
    if s == [] {
      assert s + e == e;
    } else if IsDigit(s[0]) {
      DropAppend(s, e, 1);
      DigitsAppend(s[1..], e);
    }
  }

  lemma ExponentLengthAppend(s: bytes, e: bytes)
    requires ExponentLength(s).Some?
    requires Stops(e) || ExponentLength(s).value < |s|
    ensures ExponentLength(s + e) == ExponentLength(s)
  {
    if s == [] {
      assert s + e == e;
    } else {
      var t := s + e;
      assert t[0] == s[0];
      if s[0] == 0x45 || s[0] == 0x65 {
        assert |s| > 1 && t[1] == s[1];
        var sign := if s[1] == 0x2B || s[1] == MINUS then 2 else 1;
        DropAppend(s, e, sign);
        DigitsAppend(s[sign..], e);
      }
    }
  }

  lemma FractionLengthAppend(s: bytes, e: bytes)
    requires FractionLength(s).Some?
    requires Stops(e) || FractionLength(s).value < |s|
    ensures FractionLength(s + e) == FractionLength(s)
  {
    if s == [] {
      assert s + e == e;
    } else {
      assert (s + e)[0] == s[0];
      DropAppend(s, e, 1);
      if s[0] == 0x2E {
        DigitsAppend(s[1..], e);
      }
    }
  }

  lemma WholeLengthAppend(s: bytes, e: bytes)
    requires WholeLength(s) > 0
    requires Stops(e) || WholeLength(s) < |s|
    ensures WholeLength(s + e) == WholeLength(s)
  {
    var sign := SignLength(s);
    assert (s + e)[0] == s[0];
    DropAppend(s, e, sign);
    var t := s[sign..];
    assert t != [] && (t + e)[0] == t[0];
    if t[0] != ZERO {
      DigitsAppend(t, e);
    }
  }

  lemma NumberLengthAppend(s: bytes, e: bytes)
    requires NumberLength(s) > 0
    requires Stops(e) || NumberLength(s) < |s|
    ensures NumberLength(s + e) == NumberLength(s)
  {
    hide WholeLength, FractionLength, ExponentLength;
    var whole := WholeLength(s);
    var f := FractionLength(s[whole..]).value;
    WholeLengthAppend(s, e);
    DropAppend(s, e, whole);
    FractionLengthAppend(s[whole..], e);
    DropAppend(s, e, whole + f);
    ExponentLengthAppend(s[whole + f..], e);
  }

  lemma LiteralAppend(s: bytes, e: bytes, word: bytes, value: Json)
    requires word != [] && Literal(s, word, value).Got?
    ensures Literal(s + e, word, value) == Got(value, Literal(s, word, value).rest + e)
  {
    assert word <= s + e;
    DropAppend(s, e, |word|);
  }

  /** A value that was read stays the value read when bytes are appended, unless they continue a final number. */
  lemma {:induction false} ValueAppend(s: bytes, e: bytes)
    requires Value(s).Got?
    requires Stops(e) || Value(s).rest != []
    ensures Value(s + e) == Got(Value(s).value, Value(s).rest + e)
    decreases |s|, 0
  {
    var t := SkipBlanks(s);
    SkipBlanksAppend(s, e);
    assert (t + e)[0] == t[0];
    DropAppend(t, e, 1);
    if t[0] == LBRACE {
      ObjectBodyAppend(t[1..], e);
    } else if t[0] == LBRACKET {
      ArrayBodyAppend(t[1..], e);
    } else if t[0] == QUOTE {
      CharsAppend(t[1..], e);
    } else if t[0] == 0x74 {
      LiteralAppend(t, e, TRUE, Bool(true));
    } else if t[0] == 0x66 {
      LiteralAppend(t, e, FALSE, Bool(false));
    } else if t[0] == 0x6E {
      LiteralAppend(t, e, NULL, Null);
    } else {
      NumberLengthAppend(t, e);
      DropAppend(t, e, NumberLength(t));
      assert (t + e)[..NumberLength(t)] == t[..NumberLength(t)];
    }
  }

  lemma {:induction false} ObjectBodyAppend(s: bytes, e: bytes)
    requires ObjectBody(s).Got?
    ensures ObjectBody(s + e) == Got(ObjectBody(s).value, ObjectBody(s).rest + e)
    decreases |s|, 1
  {
    var t := SkipBlanks(s);
    SkipBlanksAppend(s, e);
    assert (t + e)[0] == t[0];
    if t[0] == RBRACE {
      DropAppend(t, e, 1);
    } else {
      MembersAppend(s, e);
    }
  }

  lemma {:induction false} MembersAppend(s: bytes, e: bytes)
    requires Members(s).Got?
    ensures Members(s + e) == Got(Members(s).value, Members(s).rest + e)
    decreases |s|, 0
  {
    var t := SkipBlanks(s);
    SkipBlanksAppend(s, e);
    assert (t + e)[0] == t[0];
    DropAppend(t, e, 1);
    CharsAppend(t[1..], e);
    var afterKey := Chars(t[1..]).rest;
    SkipBlanksAppend(afterKey, e);
    var u := SkipBlanks(afterKey);
    assert (u + e)[0] == u[0];
    DropAppend(u, e, 1);
    ValueAppend(u[1..], e);
    MemberTailAppend(Value(u[1..]).rest, e);
  }

  lemma {:induction false} MemberTailAppend(s: bytes, e: bytes)
    requires MemberTail(s).Got?
    ensures MemberTail(s + e) == Got(MemberTail(s).value, MemberTail(s).rest + e)
    decreases |s|, 0
  {
    var t := SkipBlanks(s);
    SkipBlanksAppend(s, e);
    assert (t + e)[0] == t[0];
    DropAppend(t, e, 1);
    if t[0] == COMMA {
      MembersAppend(t[1..], e);
    }
  }

  lemma {:induction false} ArrayBodyAppend(s: bytes, e: bytes)
    requires ArrayBody(s).Got?
    ensures ArrayBody(s + e) == Got(ArrayBody(s).value, ArrayBody(s).rest + e)
    decreases |s|, 2
  {
    var t := SkipBlanks(s);
    assert t == [] ==> Value(s).Fail?;
    SkipBlanksAppend(s, e);
    assert (t + e)[0] == t[0];
    if t[0] == RBRACKET {
      DropAppend(t, e, 1);
    } else {
      ElementsAppend(s, e);
    }
  }

  lemma {:induction false} ElementsAppend(s: bytes, e: bytes)
    requires Elements(s).Got?
    ensures Elements(s + e) == Got(Elements(s).value, Elements(s).rest + e)
    decreases |s|, 1
  {
    ValueAppend(s, e);
    ElementTailAppend(Value(s).rest, e);
  }

  lemma {:induction false} ElementTailAppend(s: bytes, e: bytes)
    requires ElementTail(s).Got?
    ensures ElementTail(s + e) == Got(ElementTail(s).value, ElementTail(s).rest + e)
    decreases |s|, 0
  {
    var t := SkipBlanks(s);
    SkipBlanksAppend(s, e);
    assert (t + e)[0] == t[0];
    DropAppend(t, e, 1);
    if t[0] == COMMA {
      ElementsAppend(t[1..], e);
    }
  }

  // How a value ends

  /** The bytes a value can end with. */
  predicate EndsValue(b: byte) {
    b == RBRACE || b == RBRACKET || b == QUOTE || IsDigit(b) || b == 0x65 || b == 0x6C
  }

  predicate IsSuffix(rest: bytes, s: bytes) {
    |rest| <= |s| && s[|s| - |rest|..] == rest
  }

  /** `rest` is what is left of `s` after a piece that ends as a value does. */
  predicate Consumed(s: bytes, rest: bytes) {
    |rest| < |s| && IsSuffix(rest, s) && EndsValue(s[|s| - |rest| - 1])
  }

  lemma SuffixConsumed(s: bytes, t: bytes, rest: bytes)
    requires IsSuffix(t, s) && Consumed(t, rest)
    ensures Consumed(s, rest)
  {
    assert forall i | 0 <= i < |t| :: t[i] == s[|s| - |t| + i];
    assert s[|s| - |rest|..] == t[|t| - |rest|..];
  }

  lemma {:induction false} SkipBlanksSuffix(s: bytes)
    ensures IsSuffix(SkipBlanks(s), s)
    ensures SkipBlanks(s) != [] ==> IsSuffix(SkipBlanks(s)[1..], s)
  {
    if s != [] && IsBlank(s[0]) {
      SkipBlanksSuffix(s[1..]);
    }
  }

  lemma {:induction false} CharsConsumed(s: bytes)
    requires Chars(s).Got?
    ensures Consumed(s, Chars(s).rest)
    decreases |s|
  {
    if s[0] != QUOTE {
      var rest := Char(s).rest;
      assert IsSuffix(rest, s);
      CharsConsumed(rest);
      SuffixConsumed(s, rest, Chars(rest).rest);
    }
  }

  lemma {:induction false} DigitsAreDigits(s: bytes, i: nat)
    requires i < Digits(s)
    ensures IsDigit(s[i])
  {
    if i > 0 {
      DigitsAreDigits(s[1..], i - 1);
    }
  }

  lemma WholeEndsInDigit(s: bytes)
    requires WholeLength(s) > 0
    ensures IsDigit(s[WholeLength(s) - 1])
  {
    var t := s[SignLength(s)..];
    if t[0] != ZERO {
      DigitsAreDigits(t, Digits(t) - 1);
    }
  }

  lemma FractionEndsInDigit(s: bytes)
    requires FractionLength(s).Some? && FractionLength(s).value > 0
    ensures IsDigit(s[FractionLength(s).value - 1])
  {
    DigitsAreDigits(s[1..], Digits(s[1..]) - 1);
  }

  lemma ExponentEndsInDigit(s: bytes)
    requires ExponentLength(s).Some? && ExponentLength(s).value > 0
    ensures IsDigit(s[ExponentLength(s).value - 1])
  {
    var sign := if |s| > 1 && (s[1] == 0x2B || s[1] == MINUS) then 2 else 1;
    DigitsAreDigits(s[sign..], Digits(s[sign..]) - 1);
  }

  lemma NumberEndsInDigit(s: bytes)
    requires NumberLength(s) > 0
    ensures IsDigit(s[NumberLength(s) - 1])
  {
    hide WholeLength, FractionLength, ExponentLength;
    var whole := WholeLength(s);
    var fraction := s[whole..];
    var f := FractionLength(fraction).value;
    var exponent := s[whole + f..];
    var x := ExponentLength(exponent).value;
    if x > 0 {
      ExponentEndsInDigit(exponent);
      assert s[whole + f + x - 1] == exponent[x - 1];
    } else if f > 0 {
      FractionEndsInDigit(fraction);
      assert s[whole + f - 1] == fraction[f - 1];
    } else {
      WholeEndsInDigit(s);
    }
  }

  /** Every value ends with a brace, bracket, quotation mark, digit, `e` or `l`. */
  lemma {:induction false} ValueEnds(s: bytes)
    requires Value(s).Got?
    ensures Consumed(s, Value(s).rest)
    decreases |s|, 0
  {
    var t := SkipBlanks(s);
    SkipBlanksSuffix(s);
    var rest := Value(s).rest;
    if t[0] == LBRACE {
      ObjectBodyEnds(t[1..]);
      SuffixConsumed(s, t[1..], rest);
    } else if t[0] == LBRACKET {
      ArrayBodyEnds(t[1..]);
      SuffixConsumed(s, t[1..], rest);
    } else if t[0] == QUOTE {
      CharsConsumed(t[1..]);
      SuffixConsumed(s, t[1..], rest);
    } else {
      if t[0] == 0x74 {
        assert t[3] == TRUE[3];
      } else if t[0] == 0x66 {
        assert t[4] == FALSE[4];
      } else if t[0] == 0x6E {
        assert t[3] == NULL[3];
      } else {
        NumberEndsInDigit(t);
      }
      SuffixConsumed(s, t, rest);
    }
  }

  lemma {:induction false} ObjectBodyEnds(s: bytes)
    requires ObjectBody(s).Got?
    ensures Consumed(s, ObjectBody(s).rest)
    decreases |s|, 1
  {
    var t := SkipBlanks(s);
    SkipBlanksSuffix(s);
    if t[0] == RBRACE {
      SuffixConsumed(s, t, t[1..]);
    } else {
      MembersEnds(s);
    }
  }

  lemma {:induction false} MembersEnds(s: bytes)
    requires Members(s).Got?
    ensures Consumed(s, Members(s).rest)
    decreases |s|, 0
  {
    var t := SkipBlanks(s);
    SkipBlanksSuffix(s);
    CharsConsumed(t[1..]);
    var afterKey := Chars(t[1..]).rest;
    var u := SkipBlanks(afterKey);
    SkipBlanksSuffix(afterKey);
    ValueEnds(u[1..]);
    var afterValue := Value(u[1..]).rest;
    MemberTailEnds(afterValue);
    var rest := MemberTail(afterValue).rest;
    SuffixConsumed(u[1..], afterValue, rest);
    SuffixConsumed(afterKey, u[1..], rest);
    SuffixConsumed(t[1..], afterKey, rest);
    SuffixConsumed(s, t[1..], rest);
  }

  lemma {:induction false} MemberTailEnds(s: bytes)
    requires MemberTail(s).Got?
    ensures Consumed(s, MemberTail(s).rest)
    decreases |s|, 0
  {
    var t := SkipBlanks(s);
    SkipBlanksSuffix(s);
    if t[0] == COMMA {
      MembersEnds(t[1..]);
      SuffixConsumed(s, t[1..], Members(t[1..]).rest);
    } else {
      SuffixConsumed(s, t, t[1..]);
    }
  }

  lemma {:induction false} ArrayBodyEnds(s: bytes)
    requires ArrayBody(s).Got?
    ensures Consumed(s, ArrayBody(s).rest)
    decreases |s|, 2
  {
    var t := SkipBlanks(s);
    assert t == [] ==> Value(s).Fail?;
    SkipBlanksSuffix(s);
    if t[0] == RBRACKET {
      SuffixConsumed(s, t, t[1..]);
    } else {
      ElementsEnds(s);
    }
  }

  lemma {:induction false} ElementsEnds(s: bytes)
    requires Elements(s).Got?
    ensures Consumed(s, Elements(s).rest)
    decreases |s|, 1
  {
    ValueEnds(s);
    ElementTailEnds(Value(s).rest);
    SuffixConsumed(s, Value(s).rest, Elements(s).rest);
  }

  lemma {:induction false} ElementTailEnds(s: bytes)
    requires ElementTail(s).Got?
    ensures Consumed(s, ElementTail(s).rest)
    decreases |s|, 0
  {
    var t := SkipBlanks(s);
    SkipBlanksSuffix(s);
    if t[0] == COMMA {
      ElementsEnds(t[1..]);
      SuffixConsumed(s, t[1..], Elements(t[1..]).rest);
    } else {
      SuffixConsumed(s, t, t[1..]);
    }
  }
}
