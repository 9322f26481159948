/**
 The encoder itself: a growing buffer, a flag for spaces and a count of owed braces. Every method
 decides on commas from the last byte of the buffer; the contracts say what text results by structure.
 */
module LogEncoder {
  import opened Wrappers
  import opened Utf8
  import opened Json
  import opened Decimals
  import opened Escaping
  import opened EncoderCalls
  import opened EncoderTheorems
  import opened LogRecord
  import opened Sequences

  /** The buffer grew by the text of `calls`, laid out for the position its last byte stood for. */
  ghost predicate Writes(before: bytes, calls: seq<Call>, after: bytes, spaced: bool) {
    after == before + CallsText(calls, AtStart(before), spaced, [])
  }

  lemma WritesThen(a: bytes, x: seq<Call>, b: bytes, y: seq<Call>, c: bytes, spaced: bool)
    requires WfCalls(x)
    requires Writes(a, x, b, spaced) && Writes(b, y, c, spaced)
    ensures Writes(a, x + y, c, spaced)
  {
    LastByteIsPosition(x, spaced, a);
    var t := CallsText(y, AtStart(b), spaced, []);
    CallsTextConcat(x, y, AtStart(a), spaced, []);
    CallsTextTail(x, AtStart(a), spaced, [], t);
    assert [] + t == t;
    Associates(a, CallsText(x, AtStart(a), spaced, []), t);
  }

  lemma WritesNothing(a: bytes, spaced: bool)
    ensures Writes(a, [], a, spaced)
  {
    assert a + [] == a;
  }

  /** Context text that is already there goes behind a comma just as if it were written anew. */
  lemma {:induction false} CopiedContext(calls: seq<Call>, first: bool, spaced: bool)
    ensures var t := CallsText(calls, true, spaced, []);
            CallsText(calls, first, spaced, []) == if t == [] then [] else Comma(first, spaced, t)
    decreases calls
  {
    if calls != [] && Skipped(calls[0]) {
      CopiedContext(calls[1..], first, spaced);
    }
  }

  lemma {:induction false} BracesSplit(n: nat, tail: bytes)
    ensures Braces(n, tail) == Braces(n, []) + tail
  {
    BracesTail(n, [], tail);
    assert [] + tail == tail;
  }

  /** A separator and then the text, in one piece. */
  lemma SeparatedText(buf: bytes, spaced: bool, t: bytes)
    ensures buf + Comma(AtStart(buf), spaced, []) + t == buf + Comma(AtStart(buf), spaced, t)
  {
    CommaTail(AtStart(buf), spaced, [], t);
    assert [] + t == t;
    Associates(buf, Comma(AtStart(buf), spaced, []), t);
  }

  /** An object's braces, closed in the order the encoder closes them. */
  lemma ObjText(buf: bytes, calls: seq<Call>, spaced: bool)
    ensures buf + Comma(AtStart(buf), spaced, []) + [LBRACE] + CallsText(calls, true, spaced, []) + [RBRACE]
              + Braces(Namespaces(calls), [])
         == buf + Comma(AtStart(buf), spaced, ValText(Obj(calls), spaced, []))
  {
    var n := Namespaces(calls);
    var inner := CallsText(calls, true, spaced, []);
    var end := Braces(n, [RBRACE] + []);
    BracesShift(n, []);
    CallsTextTail(calls, true, spaced, [], end);
    assert [] + end == end;
    SeparatedText(buf, spaced, [LBRACE] + (inner + end));
    FiveParts(buf + Comma(AtStart(buf), spaced, []), [LBRACE], inner, [RBRACE], Braces(n, []));
  }

  lemma FiveParts(a: bytes, b: bytes, c: bytes, d: bytes, e: bytes)
    ensures a + b + c + d + e == a + (b + (c + (d + e)))
  {}

  lemma ArrText(buf: bytes, items: seq<Val>, spaced: bool)
    ensures buf + Comma(AtStart(buf), spaced, []) + [LBRACKET] + ItemsText(items, true, spaced, []) + [RBRACKET]
         == buf + Comma(AtStart(buf), spaced, ValText(Arr(items), spaced, []))
  {
    var inner := ItemsText(items, true, spaced, []);
    assert [RBRACKET] + [] == [RBRACKET] == [] + [RBRACKET];
    ItemsTextTail(items, true, spaced, [], [RBRACKET]);
    SeparatedText(buf, spaced, [LBRACKET] + (inner + [RBRACKET]));
    FiveParts(buf + Comma(AtStart(buf), spaced, []), [LBRACKET], inner, [RBRACKET], []);
  }

  lemma KeyTextParts(buf: bytes, key: bytes, spaced: bool)
    ensures var t := buf + [QUOTE] + Escape(key) + [QUOTE] + [COLON];
            (if spaced then t + [SPACE] else t) == buf + KeyText(key, spaced, [])
  {
    if spaced {
      assert [SPACE] + [] == [SPACE];
      FiveParts(buf, [QUOTE], Escape(key), [QUOTE], [COLON] + [SPACE]);
      Associates(buf + [QUOTE] + Escape(key) + [QUOTE], [COLON], [SPACE]);
    } else {
      assert [COLON] + [] == [COLON];
      FiveParts(buf, [QUOTE], Escape(key), [QUOTE], [COLON]);
    }
  }

  lemma ValTextAlone(v: Val, spaced: bool, t: bytes)
    requires v.Int? || v.Boolean? || v.Verbatim? || v.Str? || v.Real? || (v.Reflected? && v.r.Encoded?)
    requires t == match v
                  case Int(n) => IntText(n)
                  case Boolean(b) => if b then TRUE else FALSE
                  case Verbatim(text) => [QUOTE] + text + [QUOTE]
                  case Str(text) => [QUOTE] + Escape(text) + [QUOTE]
                  case Real(f) => if f.Finite? then f.spelling else [QUOTE] + FloatText(f) + [QUOTE]
                  case _ => v.r.text
    ensures ValText(v, spaced, []) == t
  {
    assert [QUOTE] + [] == [QUOTE];
    match v
    case Int(n) => assert IntText(n) + [] == IntText(n);
    case Boolean(b) => assert (if b then TRUE else FALSE) + [] == if b then TRUE else FALSE;
    case Real(f) => if f.Finite? { assert f.spelling + [] == f.spelling; }
    case Reflected(r) => assert r.text + [] == r.text;
    case _ =>
  }

  /** One key-value call: the key, then the value right behind it. */
  lemma AddText(buf: bytes, key: bytes, val: Val, spaced: bool)
    requires Emits(val)
    ensures Writes(buf, [Add(key, val)],
                   buf + Comma(AtStart(buf), spaced, KeyText(key, spaced, [])) + ValText(val, spaced, []), spaced)
  {
    var t := ValText(val, spaced, []);
    assert [Add(key, val)][1..] == [];
    KeyTextTail(key, spaced, [], t);
    assert [] + t == t;
    CommaTail(AtStart(buf), spaced, KeyText(key, spaced, []), t);
    Associates(buf, Comma(AtStart(buf), spaced, KeyText(key, spaced, [])), t);
  }

  lemma NamespaceText(buf: bytes, key: bytes, spaced: bool)
    ensures Writes(buf, [OpenNamespace(key)],
                   buf + Comma(AtStart(buf), spaced, KeyText(key, spaced, [])) + [LBRACE], spaced)
  {
    assert [OpenNamespace(key)][1..] == [];
    assert [LBRACE] + [] == [LBRACE] == [] + [LBRACE];
    KeyTextTail(key, spaced, [], [LBRACE]);
    CommaTail(AtStart(buf), spaced, KeyText(key, spaced, []), [LBRACE]);
    Associates(buf, Comma(AtStart(buf), spaced, KeyText(key, spaced, [])), [LBRACE]);
  }

  lemma AtStartAfterKey(buf: bytes, key: bytes, spaced: bool)
    ensures AtStart(buf + Comma(AtStart(buf), spaced, KeyText(key, spaced, [])))
  {
    var c := Comma(AtStart(buf), spaced, []);
    CommaTail(AtStart(buf), spaced, [], KeyText(key, spaced, []));
    assert [] + KeyText(key, spaced, []) == KeyText(key, spaced, []);
    KeyTextEnds(key, spaced, buf + c);
    Associates(buf, c, KeyText(key, spaced, []));
  }

  /** Appending the next element of an array. */
  lemma ItemsTextStep(items: seq<Val>, spaced: bool, buf: bytes)
    requires items != [] && Wf(items[0])
    ensures var item := Comma(AtStart(buf), spaced, ValText(items[0], spaced, []));
            var next := if Emits(items[0]) then buf + item else buf;
            next + ItemsText(items[1..], AtStart(next), spaced, []) == buf + ItemsText(items, AtStart(buf), spaced, [])
  {
    if Emits(items[0]) {
      var v := ValText(items[0], spaced, []);
      var head := Comma(AtStart(buf), spaced, v);
      var c := Comma(AtStart(buf), spaced, []);
      CommaTail(AtStart(buf), spaced, [], v);
      assert [] + v == v;
      Associates(buf, c, v);
      ValTextEnds(items[0], spaced, buf + c);
      var t := ItemsText(items[1..], false, spaced, []);
      ValTextTail(items[0], spaced, [], t);
      assert [] + t == t;
      CommaTail(AtStart(buf), spaced, v, t);
      Associates(buf, head, t);
    }
  }

  /** What is in the buffer, the run not yet copied and the escape of what is left make up the whole escape. */
  ghost predicate Copied(start: bytes, buf: bytes, s: bytes, last: nat, i: nat) {
    last <= i <= |s| && buf + s[last..i] + Escape(s[i..]) == start + Escape(s)
  }

  lemma EscapeStep(before: bytes, s: bytes, i: nat)
    requires i < |s|
    ensures before + Escape(s[i..]) == (before + EscapeUnit(s[i..])) + Escape(s[i + DecodeRune(s[i..]).size..])
  {
    var t := s[i..];
    assert t[DecodeRune(t).size..] == s[i + DecodeRune(t).size..];
    Associates(before, EscapeUnit(t), Escape(t[DecodeRune(t).size..]));
  }

  lemma UnitStands(s: bytes, i: nat)
    requires i < |s| && (if s[i] >= 0x80 then WellFormedPrefix(s[i..]) > 0 else IsPlain(s[i]))
    ensures EscapeUnit(s[i..]) == s[i..i + DecodeRune(s[i..]).size]
  {}

  /** A unit that stands for itself joins the run. */
  lemma RunGrows(start: bytes, buf: bytes, s: bytes, last: nat, i: nat)
    requires Copied(start, buf, s, last, i) && i < |s|
    requires if s[i] >= 0x80 then WellFormedPrefix(s[i..]) > 0 else IsPlain(s[i])
    ensures Copied(start, buf, s, last, i + DecodeRune(s[i..]).size)
  {
    hide EscapeUnit, Escape, WellFormedPrefix, DecodeRune;
    var n := DecodeRune(s[i..]).size;
    EscapeStep(buf + s[last..i], s, i);
    UnitStands(s, i);
    Associates(buf, s[last..i], s[i..i + n]);
    assert s[last..i] + s[i..i + n] == s[last..i + n];
  }

  /** A unit that needs escaping ends the run; a new one begins behind it. */
  lemma RunEnds(start: bytes, buf: bytes, s: bytes, last: nat, i: nat)
    requires Copied(start, buf, s, last, i) && i < |s|
    requires DecodeRune(s[i..]).size == 1
    ensures Copied(start, buf + s[last..i] + EscapeUnit(s[i..]), s, i + 1, i + 1)
  {
    EscapeStep(buf + s[last..i], s, i);
    var b := buf + s[last..i] + EscapeUnit(s[i..]);
    assert s[i + 1..i + 1] == [] && b + [] == b;
  }

  class JsonEncoder {
    var buf: bytes
    const spaced: bool
    var openNamespaces: nat
    /** What the context has been asked to hold so far. */
    ghost var calls: seq<Call>

    ghost predicate Valid()
      reads this
    {
      WfCalls(calls) && Writes([], calls, buf, spaced) && openNamespaces == Namespaces(calls)
    }

    constructor (spaced: bool)
      ensures Valid() && calls == [] && this.spaced == spaced
    {
      buf, this.spaced, openNamespaces, calls := [], spaced, 0, [];
    }

    method AddElementSeparator()
      modifies this`buf
      ensures buf == old(buf) + Comma(AtStart(old(buf)), spaced, [])
    {
      var last := |buf| - 1;
      if last < 0 {
        return;
      }
      if NeedsNoComma(buf[last]) {
        return;
      }
      buf := buf + [COMMA];
      if spaced {
        buf := buf + [SPACE];
      }
    }

    /** The escape sequence of a byte that cannot stand for itself. */
    method AppendEscapeByte(b: byte)
      requires b < 0x80 && !IsPlain(b)
      modifies this`buf
      ensures buf == old(buf) + EscapeByte(b)
    {
      if b == BACKSLASH || b == QUOTE {
        buf := buf + [BACKSLASH, b];
      } else if b == 0x0A {
        buf := buf + [BACKSLASH, 0x6E];
      } else if b == 0x0D {
        buf := buf + [BACKSLASH, 0x72];
      } else if b == 0x09 {
        buf := buf + [BACKSLASH, 0x74];
      } else {
        buf := buf + [BACKSLASH, 0x75, ZERO, ZERO, HexDigit(b / 16), HexDigit(b % 16)];
      }
    }

    /** Copies runs of bytes that stand for themselves; `last` is where the current run begins. */
    method SafeAppend(s: bytes)
      modifies this`buf
      ensures buf == old(buf) + Escape(s)
    {
      hide EscapeByte;
      var last, i := 0, 0;
      assert s[0..0] == [] && s[0..] == s && buf + [] == buf;
      while i < |s|
        invariant Copied(old(buf), buf, s, last, i)
      {
        var rune := DecodeRune(s[i..]);
        if s[i] >= 0x80 {
          if rune.code != REPLACEMENT || rune.size != 1 {
            RunGrows(old(buf), buf, s, last, i);
            i := i + rune.size;
            continue;
          }
          RunEnds(old(buf), buf, s, last, i);
          buf := buf + s[last..i];
          buf := buf + REPLACEMENT_ESCAPE;
        } else {
          if s[i] >= 0x20 && s[i] != BACKSLASH && s[i] != QUOTE {
            RunGrows(old(buf), buf, s, last, i);
            i := i + 1;
            continue;
          }
          RunEnds(old(buf), buf, s, last, i);
          buf := buf + s[last..i];
          AppendEscapeByte(s[i]);
        }
        i := i + 1;
        last := i;
      }
      assert s[i..] == [] && s[last..i] == s[last..];
      buf := buf + s[last..];
    }

    method AddKey(key: bytes)
      modifies this`buf
      ensures buf == old(buf) + Comma(AtStart(old(buf)), spaced, KeyText(key, spaced, []))
    {
      hide Escape, KeyText, Comma;
      AddElementSeparator();
      KeyTextParts(buf, key, spaced);
      buf := buf + [QUOTE];
      SafeAppend(key);
      buf := buf + [QUOTE];
      buf := buf + [COLON];
      if spaced {
        buf := buf + [SPACE];
      }
      SeparatedText(old(buf), spaced, KeyText(key, spaced, []));
    }

    method AppendQuoted(text: bytes)
      modifies this`buf
      ensures buf == old(buf) + Comma(AtStart(old(buf)), spaced, ValText(Str(text), spaced, []))
    {
      hide Escape, Comma, ValText;
      AddElementSeparator();
      ghost var b := buf;
      buf := buf + [QUOTE];
      SafeAppend(text);
      buf := buf + [QUOTE];
      assert buf == b + ([QUOTE] + Escape(text) + [QUOTE]);
      ValTextAlone(Str(text), spaced, [QUOTE] + Escape(text) + [QUOTE]);
      SeparatedText(old(buf), spaced, ValText(Str(text), spaced, []));
    }

    method AppendVerbatim(text: bytes)
      modifies this`buf
      ensures buf == old(buf) + Comma(AtStart(old(buf)), spaced, ValText(Verbatim(text), spaced, []))
    {
      AddElementSeparator();
      ghost var b := buf;
      buf := buf + [QUOTE];
      buf := buf + text;
      buf := buf + [QUOTE];
      assert buf == b + ([QUOTE] + text + [QUOTE]);
      ValTextAlone(Verbatim(text), spaced, [QUOTE] + text + [QUOTE]);
      SeparatedText(old(buf), spaced, ValText(Verbatim(text), spaced, []));
    }

    method AppendBool(b: bool)
      modifies this`buf
      ensures buf == old(buf) + Comma(AtStart(old(buf)), spaced, ValText(Boolean(b), spaced, []))
    {
      AddElementSeparator();
      buf := buf + if b then TRUE else FALSE;
      ValTextAlone(Boolean(b), spaced, if b then TRUE else FALSE);
      SeparatedText(old(buf), spaced, ValText(Boolean(b), spaced, []));
    }

    method AppendInt(n: int)
      modifies this`buf
      ensures buf == old(buf) + Comma(AtStart(old(buf)), spaced, ValText(Int(n), spaced, []))
    {
      AddElementSeparator();
      buf := buf + IntText(n);
      ValTextAlone(Int(n), spaced, IntText(n));
      SeparatedText(old(buf), spaced, ValText(Int(n), spaced, []));
    }

    /** The three floats that are no JSON numbers become strings. */
    method AppendFloat(f: Float)
      modifies this`buf
      ensures buf == old(buf) + Comma(AtStart(old(buf)), spaced, ValText(Real(f), spaced, []))
    {
      AddElementSeparator();
      ghost var b := buf;
      match f {
        case NaN => buf := buf + [QUOTE, 0x4E, 0x61, 0x4E, QUOTE];
        case PositiveInfinity => buf := buf + [QUOTE, 0x2B, 0x49, 0x6E, 0x66, QUOTE];
        case NegativeInfinity => buf := buf + [QUOTE, 0x2D, 0x49, 0x6E, 0x66, QUOTE];
        case Finite(spelling) => buf := buf + spelling;
      }
      ghost var t := if f.Finite? then f.spelling else [QUOTE] + FloatText(f) + [QUOTE];
      assert buf == b + t;
      ValTextAlone(Real(f), spaced, t);
      SeparatedText(old(buf), spaced, t);
    }

    method AppendReflected(r: Reflection) returns (err: Option<bytes>)
      modifies this`buf
      ensures err == if r.Failed? then Some(r.message) else None
      ensures buf == if r.Failed? then old(buf)
                     else old(buf) + Comma(AtStart(old(buf)), spaced, ValText(Reflected(r), spaced, []))
    {
      if r.Failed? {
        return Some(r.message);
      }
      AddElementSeparator();
      buf := buf + r.text;
      ValTextAlone(Reflected(r), spaced, r.text);
      SeparatedText(old(buf), spaced, r.text);
      return None;
    }

    method AppendArray(items: seq<Val>)
      requires forall i | 0 <= i < |items| :: Wf(items[i])
      modifies this`buf, this`openNamespaces
      ensures openNamespaces == old(openNamespaces)
      ensures buf == old(buf) + Comma(AtStart(old(buf)), spaced, ValText(Arr(items), spaced, []))
      decreases items, 1
    {
      AddElementSeparator();
      buf := buf + [LBRACKET];
      MarshalArray(items);
      buf := buf + [RBRACKET];
      ArrText(old(buf), items, spaced);
    }

    /** The marshaler of an array appends its elements one by one. */
    method MarshalArray(items: seq<Val>)
      requires forall i | 0 <= i < |items| :: Wf(items[i])
      modifies this`buf, this`openNamespaces
      ensures openNamespaces == old(openNamespaces)
      ensures buf == old(buf) + ItemsText(items, AtStart(old(buf)), spaced, [])
      decreases items, 0
    {
      ghost var whole := old(buf) + ItemsText(items, AtStart(old(buf)), spaced, []);
      var i := 0;
      assert items[0..] == items;
      while i < |items|
        invariant 0 <= i <= |items|
        invariant openNamespaces == old(openNamespaces)
        invariant buf + ItemsText(items[i..], AtStart(buf), spaced, []) == whole
      {
        ItemsTextStep(items[i..], spaced, buf);
        assert items[i..][0] == items[i] && items[i..][1..] == items[i + 1..];
        Append(items[i]);
        i := i + 1;
      }
      assert items[i..] == [] && buf + [] == buf;
    }

    /** Braces owed outside the object wait; braces owed inside it are closed with it. */
    method AppendObject(calls: seq<Call>)
      requires WfCalls(calls)
      modifies this`buf, this`openNamespaces
      ensures openNamespaces == old(openNamespaces)
      ensures buf == old(buf) + Comma(AtStart(old(buf)), spaced, ValText(Obj(calls), spaced, []))
      decreases calls, 1
    {
      hide CallsText, ValText, Braces, Comma, Wf;
      var owed := openNamespaces;
      openNamespaces := 0;
      AddElementSeparator();
      buf := buf + [LBRACE];
      MarshalObject(calls);
      buf := buf + [RBRACE];
      CloseOpenNamespaces();
      openNamespaces := owed;
      ObjText(old(buf), calls, spaced);
    }

    /** The marshaler of an object makes its calls one by one. */
    method MarshalObject(calls: seq<Call>)
      requires WfCalls(calls)
      modifies this`buf, this`openNamespaces
      ensures openNamespaces == old(openNamespaces) + Namespaces(calls)
      ensures Writes(old(buf), calls, buf, spaced)
      decreases calls, 0
    {
      hide CallsText, Writes;
      var i := 0;
      WritesNothing(buf, spaced);
      assert calls[..0] == [];
      while i < |calls|
        invariant 0 <= i <= |calls|
        invariant openNamespaces == old(openNamespaces) + Namespaces(calls[..i])
        invariant Writes(old(buf), calls[..i], buf, spaced)
      {
        ghost var before := buf;
        Ask(calls[i]);
        WritesThen(old(buf), calls[..i], before, [calls[i]], buf, spaced);
        CallsTextConcat(calls[..i], [calls[i]], true, spaced, []);
        assert calls[..i + 1] == calls[..i] + [calls[i]];
        i := i + 1;
      }
      assert calls[..i] == calls;
    }

    /** A user-supplied encoder may append nothing; then the fallback is appended. */
    method AppendCustom(v: Val)
      requires v.Custom? && Wf(v)
      modifies this`buf, this`openNamespaces
      ensures openNamespaces == old(openNamespaces)
      ensures buf == old(buf) + Comma(AtStart(old(buf)), spaced, ValText(v, spaced, []))
      decreases v, 3
    {
      var cur := |buf|;
      if v.user.Some? {
        ValTextEnds(v.user.value, spaced, []);
        Append(v.user.value);
      }
      if cur == |buf| {
        Append(v.fallback);
      }
    }

    /** Appends any value in the place the last byte stands for. */
    method Append(v: Val)
      requires Wf(v)
      modifies this`buf, this`openNamespaces
      ensures openNamespaces == old(openNamespaces)
      ensures buf == if Emits(v) then old(buf) + Comma(AtStart(old(buf)), spaced, ValText(v, spaced, [])) else old(buf)
      decreases v, 4
    {
      match v {
        case Str(text) => AppendQuoted(text);
        case Verbatim(text) => AppendVerbatim(text);
        case Int(n) => AppendInt(n);
        case Boolean(b) => AppendBool(b);
        case Real(f) => AppendFloat(f);
        case Reflected(r) => var _ := AppendReflected(r);
        case Arr(items) => AppendArray(items);
        case Obj(calls) => AppendObject(calls);
        case Custom(_, _) => AppendCustom(v);
      }
    }

    method AddReflected(key: bytes, r: Reflection) returns (err: Option<bytes>)
      requires WfReflection(r)
      modifies this`buf
      ensures err == if r.Failed? then Some(r.message) else None
      ensures Writes(old(buf), [Add(key, Reflected(r))], buf, spaced)
    {
      if r.Failed? {
        WritesNothing(buf, spaced);
        return Some(r.message);
      }
      AddKey(key);
      buf := buf + r.text;
      ValTextAlone(Reflected(r), spaced, r.text);
      AddText(old(buf), key, Reflected(r), spaced);
      return None;
    }

    /** The context field as zap adds it: a value that cannot be encoded leaves its error behind. */
    method AddContext(r: Reflection)
      requires WfReflection(r)
      modifies this`buf, this`openNamespaces
      ensures openNamespaces == old(openNamespaces)
      ensures Writes(old(buf), ContextCalls(r), buf, spaced)
    {
      hide Writes, CallsText;
      var err := AddReflected(CONTEXT, r);
      ghost var before := buf;
      if err.Some? {
        Ask(Add(CONTEXT_ERROR, Str(err.value)));
        WritesThen(old(buf), [Add(CONTEXT, Reflected(r))], before, [Add(CONTEXT_ERROR, Str(r.message))], buf, spaced);
      } else {
        assert ContextCalls(r) == [Add(CONTEXT, Reflected(r))];
      }
    }

    method Open(key: bytes)
      modifies this`buf, this`openNamespaces
      ensures openNamespaces == old(openNamespaces) + 1
      ensures Writes(old(buf), [OpenNamespace(key)], buf, spaced)
    {
      AddKey(key);
      buf := buf + [LBRACE];
      openNamespaces := openNamespaces + 1;
      NamespaceText(old(buf), key, spaced);
    }

    /** Any call of the ObjectEncoder interface. */
    method Ask(c: Call)
      requires c.Add? ==> Wf(c.val)
      modifies this`buf, this`openNamespaces
      ensures openNamespaces == old(openNamespaces) + Namespaces([c])
      ensures Writes(old(buf), [c], buf, spaced)
      decreases c, 5
    {
      match c {
        case OpenNamespace(key) => Open(key);
        case Add(key, val) =>
          if val.Reflected? {
            var _ := AddReflected(key, val.r);
          } else {
            AddKey(key);
            AtStartAfterKey(old(buf), key, spaced);
            AddText(old(buf), key, val, spaced);
            Append(val);
          }
      }
    }

    method CloseOpenNamespaces()
      modifies this`buf, this`openNamespaces
      ensures openNamespaces == 0
      ensures buf == old(buf) + Braces(old(openNamespaces), [])
    {
      var i := 0;
      ghost var whole := old(buf) + Braces(old(openNamespaces), []);
      while i < openNamespaces
        invariant 0 <= i <= openNamespaces == old(openNamespaces)
        invariant buf + Braces(openNamespaces - i, []) == whole
      {
        Associates(buf, [RBRACE], Braces(openNamespaces - i - 1, []));
        buf := buf + [RBRACE];
        i := i + 1;
      }
      assert buf + [] == buf;
      openNamespaces := 0;
    }

    /** A call on the context, as Logger.With makes it. */
    method AskContext(c: Call)
      requires Valid() && (c.Add? ==> Wf(c.val))
      modifies this
      ensures Valid() && calls == old(calls) + [c]
    {
      Ask(c);
      WritesThen([], calls, old(buf), [c], buf, spaced);
      CallsTextConcat(calls, [c], true, spaced, []);
      calls := calls + [c];
    }

    method Clone() returns (copy: JsonEncoder)
      requires Valid()
      ensures fresh(copy) && copy.Valid()
      ensures copy.buf == buf && copy.openNamespaces == openNamespaces && copy.spaced == spaced && copy.calls == calls
    {
      copy := new JsonEncoder(spaced);
      copy.openNamespaces := openNamespaces;
      copy.buf := copy.buf + buf;
      copy.calls := calls;
    }

    /** Routing fields are added one by one, all the others together under "context". */
    method AddFields(fields: seq<Field>, reflect: map<bytes, ContextValue> -> Reflection)
      requires WfFields(fields, reflect)
      modifies this`buf, this`openNamespaces
      ensures openNamespaces == old(openNamespaces) + Namespaces(FieldCalls(fields, reflect))
      ensures Writes(old(buf), FieldCalls(fields, reflect), buf, spaced)
    {
      hide CallsText, Writes, WfCalls, Wf, RoutingCalls, ContextMap, HasContext, IsRouting;
      var m: map<bytes, ContextValue> := map[];
      var hasEntries := false;
      var i := 0;
      WritesNothing(buf, spaced);
      FieldsStart(fields);
      while i < |fields|
        invariant 0 <= i <= |fields|
        invariant m == ContextMap(fields[..i]) && hasEntries == HasContext(fields[..i])
        invariant openNamespaces == old(openNamespaces) + Namespaces(RoutingCalls(fields[..i]))
        invariant Writes(old(buf), RoutingCalls(fields[..i]), buf, spaced)
      {
        var f := fields[i];
        ghost var before := buf;
        FieldsStep(fields, i);
        if IsRouting(f) {
          MarshalObject(f.adds);
          RoutingCallsWf(fields[..i]);
          WritesThen(old(buf), RoutingCalls(fields[..i]), before, f.adds, buf, spaced);
          CallsTextConcat(RoutingCalls(fields[..i]), f.adds, true, spaced, []);
        } else {
          hasEntries := true;
          if f.iface != NoInterface {
            match f.iface {
              case Stringer(text) => m := m[f.key := TextValue(text)];
              case GoStringer(text) => m := m[f.key := TextValue(text)];
              case ErrorValue(text) => m := m[f.key := TextValue(text)];
              case OtherValue(id) => m := m[f.key := InterfaceValue(id)];
            }
          } else if f.str != [] {
            m := m[f.key := TextValue(f.str)];
          } else {
            m := m[f.key := IntegerValue(f.integer)];
          }
        }
        i := i + 1;
      }
      assert fields[..i] == fields;
      RoutingCallsWf(fields);
      if hasEntries {
        ghost var before := buf;
        AddContext(reflect(m));
        ContextCallsAdd(reflect(m));
        WritesThen(old(buf), RoutingCalls(fields), before, ContextCalls(reflect(m)), buf, spaced);
        CallsTextConcat(RoutingCalls(fields), ContextCalls(reflect(m)), true, spaced, []);
      } else {
        assert RoutingCalls(fields) + [] == RoutingCalls(fields);
      }
    }

    /** One key of the metadata, if the configuration wants it. */
    method PutIf(write: bool, key: bytes, val: Val, ghost start: bytes, ghost done: seq<Call>)
      requires Wf(val) && Emits(val)
      requires WfCalls(done) && Writes(start, done, buf, spaced)
      modifies this`buf, this`openNamespaces
      ensures openNamespaces == old(openNamespaces)
      ensures Writes(old(buf), Optional(write, key, val), buf, spaced)
      ensures WfCalls(done + Optional(write, key, val)) && Writes(start, done + Optional(write, key, val), buf, spaced)
    {
      if write {
        AddKey(key);
        AtStartAfterKey(old(buf), key, spaced);
        AddText(old(buf), key, val, spaced);
        Append(val);
      } else {
        WritesNothing(buf, spaced);
      }
      WritesThen(start, done, old(buf), Optional(write, key, val), buf, spaced);
    }

    method PutMetadata(cfg: Config, ent: Entry)
      requires WfEntry(ent)
      modifies this`buf, this`openNamespaces
      ensures openNamespaces == old(openNamespaces)
      ensures Writes(old(buf), MetaCalls(cfg, ent), buf, spaced)
    {
      hide Writes, CallsText, Wf, WfCalls;
      ghost var start, done: seq<Call> := buf, [];
      WritesNothing(buf, spaced);
      PutIf(cfg.levelKey != [] && cfg.encodesLevel, cfg.levelKey, ent.level, start, done);
      done := LevelCalls(cfg, ent);
      assert [] + done == done;
      PutIf(cfg.timeKey != [], cfg.timeKey, ent.time, start, done);
      done := done + TimeCalls(cfg, ent);
      PutIf(ent.loggerName != [] && cfg.nameKey != [], cfg.nameKey, ent.name, start, done);
      done := done + NameCalls(cfg, ent);
      if ent.callerDefined {
        PutIf(cfg.callerKey != [], cfg.callerKey, ent.caller, start, done);
        PutIf(cfg.functionKey != [], cfg.functionKey, Str(ent.function_), start, done + CallerCalls(cfg, ent));
      } else {
        assert done + CallerCalls(cfg, ent) + FunctionCalls(cfg, ent) == done;
      }
      done := done + CallerCalls(cfg, ent) + FunctionCalls(cfg, ent);
      PutIf(cfg.messageKey != [], cfg.messageKey, Str(ent.message), start, done);
    }

    /** The context, already encoded, behind whatever is there. */
    method CopyContext(text: bytes, ghost context: seq<Call>)
      requires Writes([], context, text, spaced)
      modifies this`buf
      ensures Writes(old(buf), context, buf, spaced)
    {
      hide CallsText;
      assert [] + CallsText(context, true, spaced, []) == text;
      CopiedContext(context, AtStart(buf), spaced);
      if |text| > 0 {
        AddElementSeparator();
        buf := buf + text;
        SeparatedText(old(buf), spaced, text);
      } else {
        assert buf + [] == buf;
      }
    }

    /**
     One entry, in one line. The encoder itself stays as it is; the line is the record's, and a JSON
     parser reads it as the record and stops right before the line ending.
     */
    method EncodeEntry(cfg: Config, ent: Entry, fields: seq<Field>, reflect: map<bytes, ContextValue> -> Reflection)
      returns (line: bytes)
      requires Valid() && WfEntry(ent) && WfFields(fields, reflect)
      ensures line == LineText(cfg, ent, calls, FieldCalls(fields, reflect), spaced, cfg.lineEnding)
      ensures WfCalls(FieldCalls(fields, reflect))
      ensures Value(line) == Got(Record(cfg, ent, calls, FieldCalls(fields, reflect)), cfg.lineEnding)
    {
      hide Writes, CallsText, LineText, Record, Value, Namespaces;
      ghost var added := FieldCalls(fields, reflect);
      FieldCallsWf(fields, reflect);
      var final := new JsonEncoder(spaced);
      final.openNamespaces := openNamespaces;
      final.buf := [LBRACE];
      final.PutMetadata(cfg, ent);
      ghost var b1 := final.buf;
      final.CopyContext(buf, calls);
      ghost var b2 := final.buf;
      final.AddFields(fields, reflect);
      ghost var b3 := final.buf;
      OwedBraces(cfg, ent, calls, added);
      final.CloseOpenNamespaces();
      ghost var b4 := final.buf;
      WritesNothing(b4, spaced);
      assert [] + StackCalls(cfg, ent) == StackCalls(cfg, ent);
      final.PutIf(ent.stack != [] && cfg.stacktraceKey != [], cfg.stacktraceKey, Str(ent.stack), b4, []);
      LineAssembled(cfg, ent, calls, added, spaced, b1, b2, b3, final.buf, cfg.lineEnding);
      final.buf := final.buf + [RBRACE];
      final.buf := final.buf + cfg.lineEnding;
      line := final.buf;
      LineParses(cfg, ent, calls, added, spaced, cfg.lineEnding);
    }
  }

  lemma ContextCallsAdd(r: Reflection)
    ensures Namespaces(ContextCalls(r)) == 0
  {
    NoNamespaces(ContextCalls(r));
  }

  lemma FieldsStart(fields: seq<Field>)
    ensures RoutingCalls(fields[..0]) == [] && ContextMap(fields[..0]) == map[] && !HasContext(fields[..0])
  {}

  lemma FieldsStep(fields: seq<Field>, i: nat)
    requires i < |fields|
    ensures HasContext(fields[..i + 1]) == (HasContext(fields[..i]) || !IsRouting(fields[i]))
    ensures RoutingCalls(fields[..i + 1])
         == if IsRouting(fields[i]) then RoutingCalls(fields[..i]) + fields[i].adds else RoutingCalls(fields[..i])
    ensures var (m, f) := (ContextMap(fields[..i]), fields[i]);
            ContextMap(fields[..i + 1]) == if IsRouting(f) then m else m[f.key := FieldValue(f)]
  {
    var before, now := fields[..i], fields[..i + 1];
    assert now[..|now| - 1] == before && now[|now| - 1] == fields[i];
    assert RoutingCalls(before) + [] == RoutingCalls(before);
    if k :| 0 <= k < i && !IsRouting(before[k]) {
      assert !IsRouting(now[k]);
    }
    if !IsRouting(fields[i]) {
      assert !IsRouting(now[i]);
    }
  }

  lemma OwedBraces(cfg: Config, ent: Entry, context: seq<Call>, added: seq<Call>)
    ensures Namespaces(MetaCalls(cfg, ent) + context + added) == Namespaces(context) + Namespaces(added)
  {
    NoNamespaces(MetaCalls(cfg, ent));
    CallsTextConcat(MetaCalls(cfg, ent), context, true, true, []);
    CallsTextConcat(MetaCalls(cfg, ent) + context, added, true, true, []);
  }

  lemma {:induction false} NoNamespaces(calls: seq<Call>)
    requires forall i | 0 <= i < |calls| :: calls[i].Add?
    ensures Namespaces(calls) == 0
  {
    if calls != [] {
      NoNamespaces(calls[1..]);
    }
  }

  /** After the owed braces, the stack trace is the first key exactly when nothing else was written. */
  lemma ClosedIsFirstIff(calls: seq<Call>, spaced: bool, buf: bytes)
    requires WfCalls(calls) && Writes([LBRACE], calls, buf, spaced)
    ensures AtStart(buf + Braces(Namespaces(calls), [])) == AllSkipped(calls)
  {
    hide CallsText, EndsFirst, WfCalls;
    var n := Namespaces(calls);
    LastByteIsPosition(calls, spaced, [LBRACE]);
    if n == 0 {
      EndsFirstWithoutNamespaces(calls, true);
      assert buf + [] == buf;
    } else {
      BracesShift(n - 1, []);
      BracesSplit(n - 1, [RBRACE] + []);
      SomeNamespace(calls);
    }
  }

  lemma {:induction false} SomeNamespace(calls: seq<Call>)
    requires Namespaces(calls) > 0
    ensures !AllSkipped(calls)
  {
    if calls[0].Add? {
      SomeNamespace(calls[1..]);
      assert calls == [calls[0]] + calls[1..];
    }
  }

  /** The line is what the steps of EncodeEntry leave behind, whatever `tail` is. */
  lemma LineAssembled(cfg: Config, ent: Entry, context: seq<Call>, added: seq<Call>, spaced: bool,
                      b1: bytes, b2: bytes, b3: bytes, b5: bytes, tail: bytes)
    requires WfEntry(ent) && WfCalls(context) && WfCalls(added)
    requires Writes([LBRACE], MetaCalls(cfg, ent), b1, spaced)
    requires Writes(b1, context, b2, spaced)
    requires Writes(b2, added, b3, spaced)
    requires var b4 := b3 + Braces(Namespaces(MetaCalls(cfg, ent) + context + added), []);
             Writes(b4, StackCalls(cfg, ent), b5, spaced)
    ensures LineText(cfg, ent, context, added, spaced, tail) == b5 + [RBRACE] + tail
  {
    hide CallsText, LineText, MetaCalls, StackCalls, Braces, Namespaces;
    MetaCallsWf(cfg, ent);
    WritesThen([LBRACE], MetaCalls(cfg, ent), b1, context, b2, spaced);
    WritesThen([LBRACE], MetaCalls(cfg, ent) + context, b2, added, b3, spaced);
    ClosedIsFirstIff(MetaCalls(cfg, ent) + context + added, spaced, b3);
    LineTextParts(cfg, ent, context, added, spaced, tail);
  }

  /** The line, in the pieces it is written in. */
  lemma LineTextParts(cfg: Config, ent: Entry, context: seq<Call>, added: seq<Call>, spaced: bool, tail: bytes)
    ensures var calls := MetaCalls(cfg, ent) + context + added;
            var line := LineText(cfg, ent, context, added, spaced, tail);
            line == [LBRACE] + CallsText(calls, true, spaced, []) + Braces(Namespaces(calls), [])
                    + CallsText(StackCalls(cfg, ent), AllSkipped(calls), spaced, []) + [RBRACE] + tail
  {
    var calls := MetaCalls(cfg, ent) + context + added;
    var stack, end := CallsText(StackCalls(cfg, ent), AllSkipped(calls), spaced, []), [RBRACE] + tail;
    CallsTextTail(StackCalls(cfg, ent), AllSkipped(calls), spaced, [], end);
    assert [] + end == end;
    BracesSplit(Namespaces(calls), stack + end);
    var rest := Braces(Namespaces(calls), stack + end);
    CallsTextTail(calls, true, spaced, [], rest);
    assert [] + rest == rest;
    SixParts([LBRACE], CallsText(calls, true, spaced, []), Braces(Namespaces(calls), []), stack, [RBRACE], tail);
  }

  lemma SixParts(a: bytes, b: bytes, c: bytes, d: bytes, e: bytes, f: bytes)
    ensures a + b + c + d + e + f == a + (b + (c + (d + (e + f))))
  {}
}
