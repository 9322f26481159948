/**
 The laid-out text parses back to what was meant, and its last byte tells the grammar position.
 */
module EncoderTheorems {
  import opened Utf8
  import opened Json
  import opened JsonFacts
  import opened Decimals
  import opened Escaping
  import opened Sequences
  import opened EncoderCalls

  // Integers are numbers

  lemma {:induction false} AllDigits(s: bytes)
    requires forall b | b in s :: IsDigit(b)
    ensures Digits(s) == |s|
  {
    if s != [] {
      AllDigits(s[1..]);
    }
  }

  lemma IntTextIsNumber(n: int)
    ensures IsNumber(IntText(n))
  {
    var s := IntText(n);
    var d := if n < 0 then Decimal(-n) else Decimal(n);
    DecimalDigits(if n < 0 then -n else n);
    AllDigits(d);
    assert s[SignLength(s)..] == d;
    assert IntLength(d) == |d|;
    assert s[WholeLength(s)..] == [];
  }

  lemma NumberStart(s: bytes)
    requires IsNumber(s)
    ensures s[0] == MINUS || IsDigit(s[0])
  {
    assert SignLength(s) == 0 ==> s[0..] == s;
  }

  lemma NumberReads(s: bytes, rest: bytes)
    requires IsNumber(s) && Stops(rest)
    ensures Value(s + rest) == Got(Number(s), rest)
  {
    hide NumberLength, Chars, ObjectBody, ArrayBody;
    NumberStart(s);
    var t := s + rest;
    assert t[0] == s[0];
    assert SkipBlanks(t) == t;
    NumberLengthAppend(s, rest);
    assert t[..|s|] == s && t[|s|..] == rest;
  }

  lemma QuotedReads(s: bytes, rest: bytes)
    ensures Value(Quoted(s, rest)) == Got(Text(Decode(s)), rest)
  {
    var t := Quoted(s, rest);
    assert t[1..] == Escape(s) + ([QUOTE] + rest);
    assert SkipBlanks(t) == t;
    EscapeReads(s, rest);
  }

  lemma LiteralReads(b: bool, rest: bytes)
    ensures Value((if b then TRUE else FALSE) + rest) == Got(Bool(b), rest)
  {
    var word := if b then TRUE else FALSE;
    var t := word + rest;
    assert t[0] == word[0];
    assert SkipBlanks(t) == t;
    assert word <= t && t[|word|..] == rest;
  }

  lemma FloatWordIsPlain(f: Float)
    requires !f.Finite?
    ensures Escape(FloatText(f)) == FloatText(f)
  {
    var t := FloatText(f);
    assert t == [t[0], t[1], t[2]] || t == [t[0], t[1], t[2], t[3]];
    PlainEscape(t);
  }

  lemma AsciiUnit(s: bytes)
    requires s != [] && s[0] < 0x80
    ensures DecodeRune(s) == Rune(s[0], 1)
  {}

  lemma {:induction false} PlainEscape(s: bytes)
    requires forall b | b in s :: IsPlain(b)
    ensures Escape(s) == s
  {
    if s != [] {
      hide EscapeByte, WellFormedPrefix, DecodeRune;
      assert IsPlain(s[0]);
      AsciiUnit(s);
      PlainEscape(s[1..]);
      assert s == [s[0]] + s[1..];
    }
  }

  lemma SpaceReads(s: bytes)
    ensures Value([SPACE] + s) == Value(s)
    ensures Members([SPACE] + s) == Members(s)
  {
    assert ([SPACE] + s)[1..] == s;
    assert SkipBlanks([SPACE] + s) == SkipBlanks(s);
  }

  // What can follow a value

  lemma {:induction false} ItemsTextStops(items: seq<Val>, spaced: bool, tail: bytes)
    requires Stops(tail)
    ensures Stops(ItemsText(items, false, spaced, tail))
  {
    if items != [] && !Emits(items[0]) {
      ItemsTextStops(items[1..], spaced, tail);
    }
  }

  lemma MemberTailStops(s: bytes)
    requires MemberTail(s).Got?
    ensures Stops(s)
  {}

  lemma {:induction false} BracesShift(n: nat, tail: bytes)
    ensures Braces(n, [RBRACE] + tail) == Braces(n + 1, tail)
  {
    if n > 0 {
      BracesShift(n - 1, tail);
    }
  }

  // Values, arrays and objects

  /** The text of a value, wherever it stands, reads as its meaning and leaves the rest; an integer's has its value. */
  lemma {:induction false} ValReads(v: Val, spaced: bool, rest: bytes)
    requires Wf(v) && Emits(v) && Stops(rest)
    ensures Value(ValText(v, spaced, rest)) == Got(Meaning(v), rest)
    ensures v.Int? ==> Meaning(v).Number? && ReadInt(Meaning(v).lexeme) == v.n
    decreases v, 0
  {
    match v
    case Str(text) => QuotedReads(text, rest);
    case Verbatim(text) => QuotedReads(text, rest);
    case Int(n) =>
      IntTextIsNumber(n);
      ReadIntOfText(n);
      NumberReads(IntText(n), rest);
    case Boolean(b) => LiteralReads(b, rest);
    case Real(f) =>
      if f.Finite? {
        NumberReads(f.spelling, rest);
      } else {
        FloatWordIsPlain(f);
        QuotedReads(FloatText(f), rest);
      }
    case Reflected(r) => ValueAppend(r.text, rest);
    case Arr(items) =>
      var t := ItemsText(items, true, spaced, [RBRACKET] + rest);
      ItemsRead(items, true, spaced, rest);
      assert ([LBRACKET] + t)[1..] == t && SkipBlanks([LBRACKET] + t) == [LBRACKET] + t;
    case Obj(calls) =>
      var end := [RBRACE] + rest;
      var t := CallsText(calls, true, spaced, Braces(Namespaces(calls), end));
      ClosingBraceReads(rest);
      CallsRead(calls, true, spaced, end, [], rest);
      ObjectReads(t, MembersMeaning(calls) + [], rest);
      assert MembersMeaning(calls) + [] == MembersMeaning(calls);
    case Custom(user, fallback) =>
      if user.Some? { ValReads(user.value, spaced, rest); } else { ValReads(fallback, spaced, rest); }
  }

  lemma ClosingBraceReads(rest: bytes)
    ensures ObjectBody([RBRACE] + rest) == Got([], rest)
    ensures MemberTail([RBRACE] + rest) == Got([], rest)
  {
    assert SkipBlanks([RBRACE] + rest) == [RBRACE] + rest;
    assert ([RBRACE] + rest)[1..] == rest;
  }

  lemma ObjectReads(body: bytes, members: seq<Member>, rest: bytes)
    requires ObjectBody(body) == Got(members, rest)
    ensures Value([LBRACE] + body) == Got(Object(members), rest)
  {
    assert ([LBRACE] + body)[1..] == body && SkipBlanks([LBRACE] + body) == [LBRACE] + body;
  }

  lemma {:induction false} ItemsRead(items: seq<Val>, first: bool, spaced: bool, rest: bytes)
    requires forall i | 0 <= i < |items| :: Wf(items[i])
    ensures var t := ItemsText(items, first, spaced, [RBRACKET] + rest);
            (if first then ArrayBody(t) else ElementTail(t)) == Got(ItemsMeaning(items), rest)
    decreases items
  {
    var end := [RBRACKET] + rest;
    if items == [] {
      assert SkipBlanks(end) == end && end[1..] == rest;
    } else if !Emits(items[0]) {
      ItemsRead(items[1..], first, spaced, rest);
    } else {
      var u := ItemsText(items[1..], false, spaced, end);
      ItemsTextStops(items[1..], spaced, end);
      ValReads(items[0], spaced, u);
      ItemsRead(items[1..], false, spaced, rest);
      ElementPlacement(first, spaced, ValText(items[0], spaced, u));
    }
  }

  /** An element is found at the start of an array, and after a comma with or without a space. */
  lemma ElementPlacement(first: bool, spaced: bool, t: bytes)
    requires Elements(t).Got?
    ensures var u := Comma(first, spaced, t); (if first then ArrayBody(u) else ElementTail(u)) == Elements(t)
  {
    var u := Comma(first, spaced, t);
    if first {
      assert Value(t).Got?;
    } else {
      assert SkipBlanks(u) == u;
      assert u[1..] == if spaced then [SPACE] + t else t;
      SpaceReads(t);
    }
  }

  /** A member is found at the start of an object, and after a comma with or without a space. */
  lemma MemberPlacement(first: bool, spaced: bool, t: bytes)
    requires Members(t).Got?
    ensures var u := Comma(first, spaced, t); (if first then ObjectBody(u) else MemberTail(u)) == Members(t)
  {
    var u := Comma(first, spaced, t);
    if !first {
      assert SkipBlanks(u) == u;
      assert u[1..] == if spaced then [SPACE] + t else t;
      SpaceReads(t);
    }
  }

  /** A key and the text of its value, where the next member belongs. */
  lemma MemberReads(key: bytes, first: bool, spaced: bool, value: bytes, m: Json,
                    after: bytes, ms: seq<Member>, rest: bytes)
    requires Value(value) == Got(m, after)
    requires MemberTail(after) == Got(ms, rest)
    ensures var t := Comma(first, spaced, KeyText(key, spaced, value));
            (if first then ObjectBody(t) else MemberTail(t)) == Got([Member(Decode(key), m)] + ms, rest)
  {
    var t := KeyText(key, spaced, value);
    var u := [COLON] + (if spaced then [SPACE] + value else value);
    assert SkipBlanks(t) == t;
    assert t[1..] == Escape(key) + ([QUOTE] + u);
    EscapeReads(key, u);
    assert SkipBlanks(u) == u;
    SpaceReads(value);
    assert u[1..] == if spaced then [SPACE] + value else value;
    MemberPlacement(first, spaced, t);
  }

  predicate AllSkipped(calls: seq<Call>) {
    forall i | 0 <= i < |calls| :: Skipped(calls[i])
  }

  /**
   The text of a list of calls, its owed braces and whatever member text `end` comes after them. What
   is written in a namespace reads as that namespace's members; what `end` holds reads as members of
   the object that the calls began in.
   */
  ghost predicate Reads(calls: seq<Call>, first: bool, spaced: bool, end: bytes, ms: seq<Member>, rest: bytes)
    requires WfCalls(calls)
  {
    var t := CallsText(calls, first, spaced, Braces(Namespaces(calls), end));
    (if first then ObjectBody(t) else MemberTail(t)) == Got(MembersMeaning(calls) + ms, rest)
  }

  lemma {:induction false} CallsRead(calls: seq<Call>, first: bool, spaced: bool,
                                     end: bytes, ms: seq<Member>, rest: bytes)
    requires WfCalls(calls)
    requires (if first && AllSkipped(calls) then ObjectBody(end) else MemberTail(end)) == Got(ms, rest)
    ensures Reads(calls, first, spaced, end, ms, rest)
    decreases calls, 2
  {
    if calls == [] {
      assert [] + ms == ms;
    } else if Skipped(calls[0]) {
      assert calls == [calls[0]] + calls[1..];
      CallsRead(calls[1..], first, spaced, end, ms, rest);
    } else if calls[0].Add? {
      AddCallRead(calls, first, spaced, end, ms, rest);
    } else {
      NamespaceCallRead(calls, first, spaced, end, ms, rest);
    }
  }

  lemma {:induction false} AddCallRead(calls: seq<Call>, first: bool, spaced: bool,
                                       end: bytes, ms: seq<Member>, rest: bytes)
    requires WfCalls(calls) && calls != [] && calls[0].Add? && !Skipped(calls[0])
    requires MemberTail(end) == Got(ms, rest)
    ensures Reads(calls, first, spaced, end, ms, rest)
    decreases calls, 1
  {
    var c, later := calls[0], calls[1..];
    var members := MembersMeaning(later);
    CallsRead(later, false, spaced, end, ms, rest);
    AddReads(c, first, spaced, CallsText(later, false, spaced, Braces(Namespaces(later), end)), members + ms, rest);
    var m := Member(Decode(c.key), Meaning(c.val));
    assert [m] + (members + ms) == ([m] + members) + ms;
  }

  lemma {:induction false} NamespaceCallRead(calls: seq<Call>, first: bool, spaced: bool,
                                             end: bytes, ms: seq<Member>, rest: bytes)
    requires WfCalls(calls) && calls != [] && calls[0].OpenNamespace?
    requires MemberTail(end) == Got(ms, rest)
    ensures Reads(calls, first, spaced, end, ms, rest)
    decreases calls, 1
  {
    var later := calls[1..];
    var close := [RBRACE] + end;
    ClosingBraceReads(end);
    CallsRead(later, true, spaced, close, [], end);
    assert MembersMeaning(later) + [] == MembersMeaning(later);
    var body := CallsText(later, true, spaced, Braces(Namespaces(later), close));
    NamespaceReads(calls, first, spaced, body, end, ms, rest);
  }

  lemma NamespaceReads(calls: seq<Call>, first: bool, spaced: bool, body: bytes,
                       end: bytes, ms: seq<Member>, rest: bytes)
    requires WfCalls(calls) && calls != [] && calls[0].OpenNamespace?
    requires body == CallsText(calls[1..], true, spaced, Braces(Namespaces(calls[1..]), [RBRACE] + end))
    requires ObjectBody(body) == Got(MembersMeaning(calls[1..]), end)
    requires MemberTail(end) == Got(ms, rest)
    ensures Reads(calls, first, spaced, end, ms, rest)
  {
    hide KeyText, Value, Members;
    var key, value := calls[0].key, Object(MembersMeaning(calls[1..]));
    BracesShift(Namespaces(calls[1..]), end);
    ObjectReads(body, MembersMeaning(calls[1..]), end);
    MemberReads(key, first, spaced, [LBRACE] + body, value, end, ms, rest);
  }

  lemma AddReads(c: Call, first: bool, spaced: bool, after: bytes, ms: seq<Member>, rest: bytes)
    requires c.Add? && Wf(c.val) && Emits(c.val)
    requires MemberTail(after) == Got(ms, rest)
    ensures var t := Comma(first, spaced, KeyText(c.key, spaced, ValText(c.val, spaced, after)));
            (if first then ObjectBody(t) else MemberTail(t)) == Got([Member(Decode(c.key), Meaning(c.val))] + ms, rest)
    decreases c, 1
  {
    MemberTailStops(after);
    ValReads(c.val, spaced, after);
    MemberReads(c.key, first, spaced, ValText(c.val, spaced, after), Meaning(c.val), after, ms, rest);
  }

  // The last byte

  /** The bytes after which no comma is written. */
  predicate NeedsNoComma(b: byte) {
    b == LBRACE || b == LBRACKET || b == COLON || b == COMMA || b == SPACE
  }

  predicate AtStart(buf: bytes) {
    buf == [] || NeedsNoComma(buf[|buf| - 1])
  }

  lemma ValTextEnds(v: Val, spaced: bool, buf: bytes)
    requires Wf(v) && Emits(v)
    ensures ValText(v, spaced, []) != [] && !AtStart(buf + ValText(v, spaced, []))
  {
    var t := ValText(v, spaced, []);
    ValReads(v, spaced, []);
    ValueEnds(t);
    assert (buf + t)[|buf + t| - 1] == t[|t| - 1];
  }

  lemma KeyTextEnds(key: bytes, spaced: bool, buf: bytes)
    ensures KeyText(key, spaced, []) != [] && AtStart(buf + KeyText(key, spaced, []))
  {
    QuotedTail(key, [], [COLON] + (if spaced then [SPACE] else []));
    assert [] + ([COLON] + (if spaced then [SPACE] else [])) == [COLON] + (if spaced then [SPACE] + [] else []);
  }

  /** One call, the text it adds to a buffer, and where that leaves the buffer. */
  function CallText(c: Call, first: bool, spaced: bool, tail: bytes): bytes {
    if Skipped(c) then tail
    else Comma(first, spaced, KeyText(c.key, spaced, if c.Add? then ValText(c.val, spaced, tail) else [LBRACE] + tail))
  }

  lemma CallTextTail(c: Call, first: bool, spaced: bool, b: bytes)
    ensures CallText(c, first, spaced, b) == CallText(c, first, spaced, []) + b
  {
    assert [c][1..] == [];
    CallsTextTail([c], first, spaced, [], b);
    assert [] + b == b;
  }

  lemma CallTextEnds(c: Call, spaced: bool, buf: bytes)
    requires c.Add? ==> Wf(c.val)
    ensures !Skipped(c) ==> AtStart(buf + CallText(c, AtStart(buf), spaced, [])) == c.OpenNamespace?
    ensures Skipped(c) ==> buf + CallText(c, AtStart(buf), spaced, []) == buf
  {
    hide ValText, KeyText;
    if !Skipped(c) {
      var u := if c.Add? then ValText(c.val, spaced, []) else [LBRACE];
      var k := KeyText(c.key, spaced, []);
      var head := Comma(AtStart(buf), spaced, k);
      assert [LBRACE] + [] == [LBRACE];
      KeyTextTail(c.key, spaced, [], u);
      assert [] + u == u;
      CommaTail(AtStart(buf), spaced, k, u);
      Associates(buf, head, u);
      if c.Add? {
        ValTextEnds(c.val, spaced, buf + head);
      }
    } else {
      assert buf + [] == buf;
    }
  }

  /** Writing the first call and then the rest. */
  lemma CallsTextStep(calls: seq<Call>, afterwards: bool, first: bool, spaced: bool, buf: bytes)
    requires calls != []
    requires afterwards == if Skipped(calls[0]) then first else calls[0].OpenNamespace?
    ensures buf + CallsText(calls, first, spaced, [])
         == (buf + CallText(calls[0], first, spaced, [])) + CallsText(calls[1..], afterwards, spaced, [])
  {
    var t := CallsText(calls[1..], afterwards, spaced, []);
    FirstCallText(calls, afterwards, first, spaced);
    CallTextTail(calls[0], first, spaced, t);
    Associates(buf, CallText(calls[0], first, spaced, []), t);
  }

  lemma FirstCallText(calls: seq<Call>, afterwards: bool, first: bool, spaced: bool)
    requires calls != []
    requires afterwards == if Skipped(calls[0]) then first else calls[0].OpenNamespace?
    ensures CallsText(calls, first, spaced, [])
         == CallText(calls[0], first, spaced, CallsText(calls[1..], afterwards, spaced, []))
  {}

  /**
   The last byte is a correct abstraction of the grammar position: after any well-formed calls, with
   and without spaces and whatever bytes the keys and strings hold, it is one after which no comma is
   written exactly when the next key would be the first of its object.
   */
  lemma {:induction false} LastByteIsPosition(calls: seq<Call>, spaced: bool, buf: bytes)
    requires WfCalls(calls)
    ensures AtStart(buf + CallsText(calls, AtStart(buf), spaced, [])) == EndsFirst(calls, AtStart(buf))
    decreases calls
  {
    if calls == [] {
      assert buf + [] == buf;
    } else {
      var next := buf + CallText(calls[0], AtStart(buf), spaced, []);
      CallTextEnds(calls[0], spaced, buf);
      CallsTextStep(calls, AtStart(next), AtStart(buf), spaced, buf);
      LastByteIsPosition(calls[1..], spaced, next);
    }
  }
}
