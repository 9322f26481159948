/**
 What the encoder's text comes to, said of its inputs one by one: what reads back for each kind of value,
 which members an object gets for its calls, and what of an entry and of its fields stands where.
 */
module RecordFacts {
  import opened Wrappers
  import opened Utf8
  import opened Json
  import opened JsonFacts
  import opened Decimals
  import opened Sequences
  import opened EncoderCalls
  import opened EncoderTheorems
  import opened LogRecord

  function CodePoints(s: string): seq<nat> {
    seq(|s|, i requires 0 <= i < |s| => s[i] as nat)
  }

  // Values

  lemma ScalarsRead(b: bool, n: int, text: bytes, spaced: bool, rest: bytes)
    requires Stops(rest)
    ensures Value(ValText(Boolean(b), spaced, rest)) == Got(Bool(b), rest)
    ensures Value(ValText(Str(text), spaced, rest)) == Got(Text(Decode(text)), rest)
    ensures var p := Value(ValText(Int(n), spaced, rest)); p.Got? && p.value.Number? && ReadInt(p.value.lexeme) == n
  {
    ValReads(Boolean(b), spaced, rest);
    ValReads(Str(text), spaced, rest);
    ValReads(Int(n), spaced, rest);
    hide Value, ValText;
  }

  /** Floats that JSON has no number for become the words that strconv spells them with. */
  lemma FloatsRead(spelling: bytes, spaced: bool, rest: bytes)
    requires Stops(rest) && IsNumber(spelling)
    ensures Value(ValText(Real(NaN), spaced, rest)) == Got(Text(CodePoints("NaN")), rest)
    ensures Value(ValText(Real(PositiveInfinity), spaced, rest)) == Got(Text(CodePoints("+Inf")), rest)
    ensures Value(ValText(Real(NegativeInfinity), spaced, rest)) == Got(Text(CodePoints("-Inf")), rest)
    ensures Value(ValText(Real(Finite(spelling)), spaced, rest)) == Got(Number(spelling), rest)
  {
    hide Value, ValText, Decode, FloatText, Ascii, CodePoints;
    FloatWords();
    FloatWordReads(NaN, "NaN", spaced, rest);
    FloatWordReads(PositiveInfinity, "+Inf", spaced, rest);
    FloatWordReads(NegativeInfinity, "-Inf", spaced, rest);
    ValReads(Real(Finite(spelling)), spaced, rest);
  }

  lemma FloatWords()
    ensures FloatText(NaN) == Ascii("NaN")
    ensures FloatText(PositiveInfinity) == Ascii("+Inf")
    ensures FloatText(NegativeInfinity) == Ascii("-Inf")
  {}

  lemma FloatWordReads(f: Float, word: string, spaced: bool, rest: bytes)
    requires Stops(rest) && !f.Finite?
    requires (forall i | 0 <= i < |word| :: word[i] as int < 128) && FloatText(f) == Ascii(word)
    ensures Value(ValText(Real(f), spaced, rest)) == Got(Text(CodePoints(word)), rest)
  {
    hide Value, ValText, Decode, FloatText, Ascii, CodePoints;
    ValReads(Real(f), spaced, rest);
    DecodeAsciiText(word);
  }

  lemma {:induction false} DecodeAsciiText(s: string)
    requires forall i | 0 <= i < |s| :: s[i] as int < 128
    ensures Decode(Ascii(s)) == CodePoints(s)
  {
    if s == "" {
      assert Ascii(s) == [];
    } else {
      AsciiUnit(Ascii(s));
      DecodeAsciiText(s[1..]);
      assert Ascii(s)[1..] == Ascii(s[1..]);
    }
  }

  /** What a user-supplied encoder appends stands for itself; one that appends nothing is replaced. */
  lemma CustomReads(user: Option<Val>, fallback: Val, spaced: bool, rest: bytes)
    requires Stops(rest) && Wf(Custom(user, fallback))
    ensures user.Some? ==> Value(ValText(Custom(user, fallback), spaced, rest)) == Got(Meaning(user.value), rest)
    ensures user.None? ==> Value(ValText(Custom(user, fallback), spaced, rest)) == Got(Meaning(fallback), rest)
  {
    ValReads(Custom(user, fallback), spaced, rest);
    hide Value, ValText;
  }

  // Members

  predicate Flat(calls: seq<Call>) {
    forall i | 0 <= i < |calls| :: calls[i].Add?
  }

  /** Calls before the first namespace give their members first. */
  lemma {:induction false} MembersConcat(a: seq<Call>, b: seq<Call>)
    requires WfCalls(a) && WfCalls(b) && Flat(a)
    ensures WfCalls(a + b) && MembersMeaning(a + b) == MembersMeaning(a) + MembersMeaning(b)
  {
    if a == [] {
      assert a + b == b;
    } else {
      MembersConcat(a[1..], b);
      assert (a + b)[1..] == a[1..] + b;
    }
  }

  /**
   What each call comes to: a member with its key and value, nothing if it is a reflection that failed,
   and for a namespace one member that holds whatever the later calls come to.
   */
  lemma MembersAre(a: seq<Call>, c: Call, b: seq<Call>)
    requires WfCalls(a) && WfCalls(b) && Flat(a) && (c.Add? ==> Wf(c.val))
    ensures WfCalls(a + [c] + b)
    ensures MembersMeaning(a + [c] + b) == MembersMeaning(a) + match c
              case OpenNamespace(key) => [Member(Decode(key), Object(MembersMeaning(b)))]
              case Add(key, val) =>
                (if val.Reflected? && val.r.Failed? then [] else [Member(Decode(key), Meaning(val))])
                + MembersMeaning(b)
  {
    assert a + [c] + b == a + ([c] + b);
    assert ([c] + b)[1..] == b;
    MembersConcat(a, [c] + b);
  }

  // Spaces

  /** How many keys, and how many members and elements after the first of theirs, a value's text has. */
  function Seams(v: Val): nat
    decreases v, 0
  {
    match v
    case Arr(items) => ItemSeams(items, true)
    case Obj(calls) => CallSeams(calls, true)
    case Custom(user, fallback) => Seams(if user.Some? then user.value else fallback)
    case _ => 0
  }

  function ItemSeams(items: seq<Val>, first: bool): nat
    decreases items
  {
    if items == [] then 0
    else if !Emits(items[0]) then ItemSeams(items[1..], first)
    else (if first then 0 else 1) + Seams(items[0]) + ItemSeams(items[1..], false)
  }

  function CallSeams(calls: seq<Call>, first: bool): nat
    decreases calls
  {
    if calls == [] then 0
    else if Skipped(calls[0]) then CallSeams(calls[1..], first)
    else
      (if first then 0 else 1) + 1 + match calls[0]
        case Add(_, val) => Seams(val) + CallSeams(calls[1..], false)
        case OpenNamespace(_) => CallSeams(calls[1..], true)
  }

  /** A spaced encoder writes exactly one byte more for each comma and each colon between members. */
  lemma {:induction false} SpacedIsLonger(v: Val, tail: bytes, wide: bytes)
    ensures |ValText(v, true, wide)| - |ValText(v, false, tail)| == Seams(v) + |wide| - |tail|
    decreases v, 0
  {
    match v
    case Arr(items) => SpacedItems(items, true, [RBRACKET] + tail, [RBRACKET] + wide);
    case Obj(calls) =>
      BracesLength(Namespaces(calls), [RBRACE] + tail);
      BracesLength(Namespaces(calls), [RBRACE] + wide);
      SpacedCalls(calls, true, Braces(Namespaces(calls), [RBRACE] + tail), Braces(Namespaces(calls), [RBRACE] + wide));
    case Custom(user, fallback) => SpacedIsLonger(if user.Some? then user.value else fallback, tail, wide);
    case _ =>
  }

  lemma {:induction false} BracesLength(n: nat, tail: bytes)
    ensures |Braces(n, tail)| == n + |tail|
  {
    if n > 0 {
      BracesLength(n - 1, tail);
    }
  }

  lemma {:induction false} SpacedItems(items: seq<Val>, first: bool, tail: bytes, wide: bytes)
    ensures |ItemsText(items, first, true, wide)| - |ItemsText(items, first, false, tail)|
         == ItemSeams(items, first) + |wide| - |tail|
    decreases items
  {
    if items == [] {
    } else if !Emits(items[0]) {
      SpacedItems(items[1..], first, tail, wide);
    } else {
      SpacedItems(items[1..], false, tail, wide);
      SpacedIsLonger(items[0], ItemsText(items[1..], false, false, tail), ItemsText(items[1..], false, true, wide));
    }
  }

  lemma {:induction false} SpacedCalls(calls: seq<Call>, first: bool, tail: bytes, wide: bytes)
    ensures |CallsText(calls, first, true, wide)| - |CallsText(calls, first, false, tail)|
         == CallSeams(calls, first) + |wide| - |tail|
    decreases calls
  {
    if calls == [] {
    } else if Skipped(calls[0]) {
      SpacedCalls(calls[1..], first, tail, wide);
    } else {
      match calls[0] {
        case Add(_, val) =>
          SpacedCalls(calls[1..], false, tail, wide);
          SpacedIsLonger(val, CallsText(calls[1..], false, false, tail), CallsText(calls[1..], false, true, wide));
        case OpenNamespace(_) =>
          SpacedCalls(calls[1..], true, tail, wide);
      }
    }
  }

  // The record

  /** What a Custom value comes to. */
  function Shown(v: Val): Json
    requires v.Custom? && Wf(v)
  {
    if v.user.Some? then Meaning(v.user.value) else Meaning(v.fallback)
  }

  function Part(write: bool, key: bytes, value: Json): seq<Member> {
    if write then [Member(Decode(key), value)] else []
  }

  lemma OptionalMembers(a: seq<Call>, write: bool, key: bytes, val: Val)
    requires WfCalls(a) && Flat(a) && Wf(val) && Emits(val)
    ensures var calls := a + Optional(write, key, val);
            && WfCalls(calls) && Flat(calls)
            && MembersMeaning(calls) == MembersMeaning(a) + Part(write, key, Meaning(val))
  {
    MembersConcat(a, Optional(write, key, val));
  }

  lemma MetaMembers(cfg: Config, ent: Entry)
    requires WfEntry(ent)
    ensures var calls := MetaCalls(cfg, ent);
            && WfCalls(calls) && Flat(calls)
            && MembersMeaning(calls)
            == Part(cfg.levelKey != [] && cfg.encodesLevel, cfg.levelKey, Shown(ent.level))
             + Part(cfg.timeKey != [], cfg.timeKey, Shown(ent.time))
             + Part(ent.loggerName != [] && cfg.nameKey != [], cfg.nameKey, Shown(ent.name))
             + Part(ent.callerDefined && cfg.callerKey != [], cfg.callerKey, Shown(ent.caller))
             + Part(ent.callerDefined && cfg.functionKey != [], cfg.functionKey, Text(Decode(ent.function_)))
             + Part(cfg.messageKey != [], cfg.messageKey, Text(Decode(ent.message)))
  {
    hide Optional, Part, Wf, WfCalls, Flat, MembersMeaning, Decode;
    var calls1 := LevelCalls(cfg, ent);
    var calls2 := calls1 + TimeCalls(cfg, ent);
    var calls3 := calls2 + NameCalls(cfg, ent);
    var calls4 := calls3 + CallerCalls(cfg, ent);
    var calls5 := calls4 + FunctionCalls(cfg, ent);
    NoMembers();
    OptionalMembers([], cfg.levelKey != [] && cfg.encodesLevel, cfg.levelKey, ent.level);
    assert [] + calls1 == calls1;
    OptionalMembers(calls1, cfg.timeKey != [], cfg.timeKey, ent.time);
    OptionalMembers(calls2, ent.loggerName != [] && cfg.nameKey != [], cfg.nameKey, ent.name);
    OptionalMembers(calls3, ent.callerDefined && cfg.callerKey != [], cfg.callerKey, ent.caller);
    TextIsWf(ent.function_);
    TextIsWf(ent.message);
    OptionalMembers(calls4, ent.callerDefined && cfg.functionKey != [], cfg.functionKey, Str(ent.function_));
    OptionalMembers(calls5, cfg.messageKey != [], cfg.messageKey, Str(ent.message));
    var level := Part(cfg.levelKey != [] && cfg.encodesLevel, cfg.levelKey, Shown(ent.level));
    assert [] + level == level;
  }

  lemma NoMembers()
    ensures WfCalls([]) && Flat([]) && MembersMeaning([]) == []
  {}

  lemma TextIsWf(text: bytes)
    ensures Wf(Str(text)) && Emits(Str(text)) && Meaning(Str(text)) == Text(Decode(text))
  {}

  /**
   The record in terms of the entry: level, time, name, caller, function and message, each under its own
   key and only if there is one to show it under; then whatever the context and the fields come to; then the
   stack trace, outside of every namespace.
   */
  lemma RecordHolds(cfg: Config, ent: Entry, context: seq<Call>, added: seq<Call>)
    requires WfEntry(ent) && WfCalls(context) && WfCalls(added)
    ensures Record(cfg, ent, context, added) == Object(
              Part(cfg.levelKey != [] && cfg.encodesLevel, cfg.levelKey, Shown(ent.level))
              + Part(cfg.timeKey != [], cfg.timeKey, Shown(ent.time))
              + Part(ent.loggerName != [] && cfg.nameKey != [], cfg.nameKey, Shown(ent.name))
              + Part(ent.callerDefined && cfg.callerKey != [], cfg.callerKey, Shown(ent.caller))
              + Part(ent.callerDefined && cfg.functionKey != [], cfg.functionKey, Text(Decode(ent.function_)))
              + Part(cfg.messageKey != [], cfg.messageKey, Text(Decode(ent.message)))
              + MembersMeaning(context + added)
              + Part(ent.stack != [] && cfg.stacktraceKey != [], cfg.stacktraceKey, Text(Decode(ent.stack))))
  {
    hide Part, Wf, WfCalls, Flat, MembersMeaning, MetaCalls, Decode, Optional, Shown;
    var meta := MetaCalls(cfg, ent);
    MetaMembers(cfg, ent);
    NoMembers();
    BothWf(context, added);
    MembersConcat(meta, context + added);
    Associates(meta, context, added);
    TextIsWf(ent.stack);
    OptionalMembers([], ent.stack != [] && cfg.stacktraceKey != [], cfg.stacktraceKey, Str(ent.stack));
    assert [] + StackCalls(cfg, ent) == StackCalls(cfg, ent);
    var stack := Part(ent.stack != [] && cfg.stacktraceKey != [], cfg.stacktraceKey, Text(Decode(ent.stack)));
    assert [] + stack == stack;
  }

  lemma BothWf(a: seq<Call>, b: seq<Call>)
    requires WfCalls(a) && WfCalls(b)
    ensures WfCalls(a + b)
  {}

  // The fields

  /** The routing attributes by name. */
  predicate IsRoutingKey(key: bytes) {
    key == Ascii("handler") || key == Ascii("connection") || key == Ascii("account") || key == Ascii("streamId")
  }

  /** Routing fields are added where they stand, others are passed over. */
  lemma {:induction false} RoutingSplits(a: seq<Field>, f: Field, b: seq<Field>)
    ensures RoutingCalls(a + [f] + b)
         == RoutingCalls(a) + (if IsRoutingKey(f.key) then f.adds else []) + RoutingCalls(b)
    decreases |b|
  {
    var fields := a + [f] + b;
    var adds := if IsRoutingKey(f.key) then f.adds else [];
    if b == [] {
      assert fields[..|fields| - 1] == a;
      assert RoutingCalls(a) + adds + [] == RoutingCalls(a) + adds;
    } else {
      var n := |b| - 1;
      RoutingSplits(a, f, b[..n]);
      assert fields[..|fields| - 1] == a + [f] + b[..n];
      var last := if IsRouting(b[n]) then b[n].adds else [];
      Associates(RoutingCalls(a) + adds, RoutingCalls(b[..n]), last);
    }
  }

  /** What a field puts into the context, in the order in which the source looks for it. */
  lemma ContextHolds(fields: seq<Field>, i: nat)
    requires i < |fields| && !IsRoutingKey(fields[i].key)
    requires forall j | i < j < |fields| :: fields[j].key != fields[i].key
    ensures var f := fields[i];
            && f.key in ContextMap(fields)
            && (var held := ContextMap(fields)[f.key];
                && (f.iface.Stringer? || f.iface.GoStringer? || f.iface.ErrorValue? ==> held == TextValue(f.iface.text))
                && (f.iface.OtherValue? ==> held == InterfaceValue(f.iface.id))
                && (f.iface.NoInterface? && f.str != [] ==> held == TextValue(f.str))
                && (f.iface.NoInterface? && f.str == [] ==> held == IntegerValue(f.integer)))
  {
    ContextMapHoldsLast(fields, i);
  }

  /**
   All that the fields ask of the encoder: the routing fields' own calls, and, only if there are other
   fields, the context object under "context", with its error under "contextError" if it cannot be encoded.
   */
  lemma FieldsAre(fields: seq<Field>, reflect: map<bytes, ContextValue> -> Reflection)
    ensures var r := reflect(ContextMap(fields));
            FieldCalls(fields, reflect) == RoutingCalls(fields) +
              if forall i | 0 <= i < |fields| :: IsRoutingKey(fields[i].key) then []
              else if r.Failed? then [Add(Ascii("context"), Reflected(r)), Add(Ascii("contextError"), Str(r.message))]
              else [Add(Ascii("context"), Reflected(r))]
  {
    assert HasContext(fields) <==> exists i | 0 <= i < |fields| :: !IsRoutingKey(fields[i].key);
  }
}
