/**
 What callers may ask of the log encoder, what it means, and the text it should become. The text is
 laid out by structure: a comma stands before every key or element but the first of its object or
 array. The encoder itself never sees the structure, only the last byte it wrote.
 */
module EncoderCalls {
  import opened Wrappers
  import opened Utf8
  import opened Json
  import opened Decimals
  import opened Escaping

  /** Floats by what strconv distinguishes: three words and the spelling of a finite number. */
  datatype Float = NaN | PositiveInfinity | NegativeInfinity | Finite(spelling: bytes)

  /** What the reflection-based JSON encoder returned: a text, or an error with a message. */
  datatype Reflection = Encoded(text: bytes) | Failed(message: bytes)

  datatype Val =
    | Str(text: bytes)
    | Verbatim(text: bytes)                       // between quotation marks, not escaped
    | Int(n: int)
    | Boolean(b: bool)
    | Real(f: Float)
    | Reflected(r: Reflection)
    | Arr(items: seq<Val>)                        // what an ArrayMarshaler appended
    | Obj(calls: seq<Call>)                       // what an ObjectMarshaler asked for
    | Custom(user: Option<Val>, fallback: Val)    // what a user-supplied encoder appended, if anything

  datatype Call =
    | Add(key: bytes, val: Val)
    | OpenNamespace(key: bytes)

  /** A failed reflection writes nothing, not even its key. */
  predicate Emits(v: Val) {
    !(v.Reflected? && v.r.Failed?)
  }

  predicate Skipped(c: Call) {
    c.Add? && !Emits(c.val)
  }

  // Well-formedness: what the surrounding libraries are relied on for

  predicate WfFloat(f: Float) {
    f.Finite? ==> IsNumber(f.spelling)
  }

  predicate WfReflection(r: Reflection) {
    r.Encoded? ==> Value(r.text).Got? && Value(r.text).rest == []
  }

  predicate Wf(v: Val) {
    match v
    case Verbatim(text) => Escape(text) == text
    case Real(f) => WfFloat(f)
    case Reflected(r) => WfReflection(r)
    case Arr(items) => forall i | 0 <= i < |items| :: Wf(items[i])
    case Obj(calls) => WfCalls(calls)
    case Custom(user, fallback) =>
      Wf(fallback) && Emits(fallback) && (user.Some? ==> Wf(user.value) && Emits(user.value))
    case _ => true
  }

  predicate WfCalls(calls: seq<Call>) {
    forall i | 0 <= i < |calls| :: calls[i].Add? ==> Wf(calls[i].val)
  }

  // Meaning

  function FloatText(f: Float): bytes {
    match f
    case NaN => [0x4E, 0x61, 0x4E]
    case PositiveInfinity => [0x2B, 0x49, 0x6E, 0x66]
    case NegativeInfinity => [0x2D, 0x49, 0x6E, 0x66]
    case Finite(spelling) => spelling
  }

  function Meaning(v: Val): Json
    requires Wf(v) && Emits(v)
  {
    match v
    case Str(text) => Text(Decode(text))
    case Verbatim(text) => Text(Decode(text))
    case Int(n) => Number(IntText(n))
    case Boolean(b) => Bool(b)
    case Real(f) => if f.Finite? then Number(f.spelling) else Text(Decode(FloatText(f)))
    case Reflected(r) => Value(r.text).value
    case Arr(items) => Array(ItemsMeaning(items))
    case Obj(calls) => Object(MembersMeaning(calls))
    case Custom(user, fallback) => if user.Some? then Meaning(user.value) else Meaning(fallback)
  }

  function ItemsMeaning(items: seq<Val>): seq<Json>
    requires forall i | 0 <= i < |items| :: Wf(items[i])
  {
    if items == [] then []
    else if !Emits(items[0]) then ItemsMeaning(items[1..])
    else [Meaning(items[0])] + ItemsMeaning(items[1..])
  }

  /** A namespace swallows everything that comes after it. */
  function MembersMeaning(calls: seq<Call>): seq<Member>
    requires WfCalls(calls)
  {
    if calls == [] then []
    else
      var c := calls[0];
      if Skipped(c) then MembersMeaning(calls[1..])
      else if c.Add? then [Member(Decode(c.key), Meaning(c.val))] + MembersMeaning(calls[1..])
      else [Member(Decode(c.key), Object(MembersMeaning(calls[1..])))]
  }

  // Text; each function gives the text followed by `tail`

  function Comma(first: bool, spaced: bool, tail: bytes): bytes {
    if first then tail else if spaced then [COMMA, SPACE] + tail else [COMMA] + tail
  }

  function KeyText(key: bytes, spaced: bool, tail: bytes): bytes {
    Quoted(key, [COLON] + (if spaced then [SPACE] + tail else tail))
  }

  /** How many braces are owed. */
  function Namespaces(calls: seq<Call>): nat {
    if calls == [] then 0 else (if calls[0].OpenNamespace? then 1 else 0) + Namespaces(calls[1..])
  }

  function Braces(n: nat, tail: bytes): bytes {
    if n == 0 then tail else [RBRACE] + Braces(n - 1, tail)
  }

  function ValText(v: Val, spaced: bool, tail: bytes): bytes
    decreases v, 0
  {
    match v
    case Str(text) => Quoted(text, tail)
    case Verbatim(text) => [QUOTE] + (text + ([QUOTE] + tail))
    case Int(n) => IntText(n) + tail
    case Boolean(b) => (if b then TRUE else FALSE) + tail
    case Real(f) => if f.Finite? then f.spelling + tail else [QUOTE] + (FloatText(f) + ([QUOTE] + tail))
    case Reflected(r) => if r.Encoded? then r.text + tail else tail
    case Arr(items) => [LBRACKET] + ItemsText(items, true, spaced, [RBRACKET] + tail)
    case Obj(calls) => [LBRACE] + CallsText(calls, true, spaced, Braces(Namespaces(calls), [RBRACE] + tail))
    case Custom(user, fallback) => ValText(if user.Some? then user.value else fallback, spaced, tail)
  }

  function ItemsText(items: seq<Val>, first: bool, spaced: bool, tail: bytes): bytes
    decreases items
  {
    if items == [] then tail
    else if !Emits(items[0]) then ItemsText(items[1..], first, spaced, tail)
    else Comma(first, spaced, ValText(items[0], spaced, ItemsText(items[1..], false, spaced, tail)))
  }

  function CallsText(calls: seq<Call>, first: bool, spaced: bool, tail: bytes): bytes
    decreases calls
  {
    if calls == [] then tail
    else
      var c := calls[0];
      if Skipped(c) then CallsText(calls[1..], first, spaced, tail)
      else if c.Add? then
        Comma(first, spaced, KeyText(c.key, spaced, ValText(c.val, spaced, CallsText(calls[1..], false, spaced, tail))))
      else
        Comma(first, spaced, KeyText(c.key, spaced, [LBRACE] + CallsText(calls[1..], true, spaced, tail)))
  }

  /** Whether a key written after `calls` would be the first of its object. */
  predicate EndsFirst(calls: seq<Call>, first: bool) {
    if calls == [] then first
    else if Skipped(calls[0]) then EndsFirst(calls[1..], first)
    else EndsFirst(calls[1..], calls[0].OpenNamespace?)
  }

  // The tail is just what follows

  lemma {:induction false} BracesTail(n: nat, a: bytes, b: bytes)
    ensures Braces(n, a + b) == Braces(n, a) + b
  {
    if n > 0 {
      BracesTail(n - 1, a, b);
      assert [RBRACE] + (Braces(n - 1, a) + b) == ([RBRACE] + Braces(n - 1, a)) + b;
    }
  }

  lemma QuotedTail(s: bytes, a: bytes, b: bytes)
    ensures Quoted(s, a + b) == Quoted(s, a) + b
  {
    assert [QUOTE] + (Escape(s) + ([QUOTE] + (a + b))) == ([QUOTE] + (Escape(s) + ([QUOTE] + a))) + b;
  }

  lemma CommaTail(first: bool, spaced: bool, a: bytes, b: bytes)
    ensures Comma(first, spaced, a + b) == Comma(first, spaced, a) + b
  {
    assert [COMMA, SPACE] + (a + b) == ([COMMA, SPACE] + a) + b;
    assert [COMMA] + (a + b) == ([COMMA] + a) + b;
  }

  lemma KeyTextTail(key: bytes, spaced: bool, a: bytes, b: bytes)
    ensures KeyText(key, spaced, a + b) == KeyText(key, spaced, a) + b
  {
    var k := [COLON] + (if spaced then [SPACE] + a else a);
    assert [COLON] + (if spaced then [SPACE] + (a + b) else a + b) == k + b;
    QuotedTail(key, k, b);
  }

  lemma {:induction false} ValTextTail(v: Val, spaced: bool, a: bytes, b: bytes)
    ensures ValText(v, spaced, a + b) == ValText(v, spaced, a) + b
    decreases v, 0
  {
    match v
    case Str(text) => QuotedTail(text, a, b);
    case Verbatim(text) =>
      assert [QUOTE] + (text + ([QUOTE] + (a + b))) == ([QUOTE] + (text + ([QUOTE] + a))) + b;
    case Real(f) =>
      var t := FloatText(f);
      assert [QUOTE] + (t + ([QUOTE] + (a + b))) == ([QUOTE] + (t + ([QUOTE] + a))) + b;
      assert t + (a + b) == (t + a) + b;
    case Int(n) => assert IntText(n) + (a + b) == (IntText(n) + a) + b;
    case Boolean(x) => assert (if x then TRUE else FALSE) + (a + b) == ((if x then TRUE else FALSE) + a) + b;
    case Reflected(r) => if r.Encoded? { assert r.text + (a + b) == (r.text + a) + b; }
    case Arr(items) =>
      assert [RBRACKET] + (a + b) == ([RBRACKET] + a) + b;
      ItemsTextTail(items, true, spaced, [RBRACKET] + a, b);
      var t := ItemsText(items, true, spaced, [RBRACKET] + a);
      assert [LBRACKET] + (t + b) == ([LBRACKET] + t) + b;
    case Obj(calls) =>
      var n := Namespaces(calls);
      assert [RBRACE] + (a + b) == ([RBRACE] + a) + b;
      BracesTail(n, [RBRACE] + a, b);
      CallsTextTail(calls, true, spaced, Braces(n, [RBRACE] + a), b);
      var t := CallsText(calls, true, spaced, Braces(n, [RBRACE] + a));
      assert [LBRACE] + (t + b) == ([LBRACE] + t) + b;
    case Custom(user, fallback) =>
      if user.Some? { ValTextTail(user.value, spaced, a, b); } else { ValTextTail(fallback, spaced, a, b); }
  }

  lemma {:induction false} ItemsTextTail(items: seq<Val>, first: bool, spaced: bool, a: bytes, b: bytes)
    ensures ItemsText(items, first, spaced, a + b) == ItemsText(items, first, spaced, a) + b
    decreases items
  {
    if items != [] {
      if Emits(items[0]) {
        var t := ItemsText(items[1..], false, spaced, a);
        ItemsTextTail(items[1..], false, spaced, a, b);
        ValTextTail(items[0], spaced, t, b);
        CommaTail(first, spaced, ValText(items[0], spaced, t), b);
      } else {
        ItemsTextTail(items[1..], first, spaced, a, b);
      }
    }
  }

  lemma {:induction false} CallsTextTail(calls: seq<Call>, first: bool, spaced: bool, a: bytes, b: bytes)
    ensures CallsText(calls, first, spaced, a + b) == CallsText(calls, first, spaced, a) + b
    decreases calls
  {
    if calls != [] {
      var c := calls[0];
      if Skipped(c) {
        CallsTextTail(calls[1..], first, spaced, a, b);
      } else {
        var t := CallsText(calls[1..], c.OpenNamespace?, spaced, a);
        CallsTextTail(calls[1..], c.OpenNamespace?, spaced, a, b);
        var u := if c.Add? then ValText(c.val, spaced, t) else [LBRACE] + t;
        if c.Add? {
          ValTextTail(c.val, spaced, t, b);
        } else {
          assert [LBRACE] + (t + b) == u + b;
        }
        KeyTextTail(c.key, spaced, u, b);
        CommaTail(first, spaced, KeyText(c.key, spaced, u), b);
      }
    }
  }

  /** Running two lists of calls one after the other. */
  lemma {:induction false} CallsTextConcat(a: seq<Call>, b: seq<Call>, first: bool, spaced: bool, tail: bytes)
    ensures CallsText(a + b, first, spaced, tail)
         == CallsText(a, first, spaced, CallsText(b, EndsFirst(a, first), spaced, tail))
    ensures EndsFirst(a + b, first) == EndsFirst(b, EndsFirst(a, first))
    ensures Namespaces(a + b) == Namespaces(a) + Namespaces(b)
    decreases a
  {
    if a == [] {
      assert a + b == b;
    } else {
      assert (a + b)[0] == a[0] && (a + b)[1..] == a[1..] + b;
      CallsTextConcat(a[1..], b, if Skipped(a[0]) then first else a[0].OpenNamespace?, spaced, tail);
    }
  }
}
