/**
 The record one log entry stands for: which keys are written and in which order, how fields other
 than the four routing attributes end up under "context", and the line of text for all of it.
 */
module LogRecord {
  import opened Wrappers
  import opened Utf8
  import opened Json
  import opened EncoderCalls
  import opened EncoderTheorems

  /** The keys of zapcore.EncoderConfig; an empty key leaves the entry's part out. */
  datatype Config = Config(levelKey: bytes, encodesLevel: bool, timeKey: bytes, nameKey: bytes, callerKey: bytes,
                           functionKey: bytes, messageKey: bytes, stacktraceKey: bytes, lineEnding: bytes)

  /**
   An entry. What the user-supplied level, time, name and caller encoders append, together with the
   fallback for an encoder that appends nothing, is given as a Custom value.
   */
  datatype Entry = Entry(level: Val, time: Val, loggerName: bytes, name: Val, callerDefined: bool, caller: Val,
                         function_: bytes, message: bytes, stack: bytes)

  datatype Interface =
    | NoInterface
    | Stringer(text: bytes)
    | GoStringer(text: bytes)
    | ErrorValue(text: bytes)
    | OtherValue(id: nat)

  /** A zap field; `adds` is what its AddTo asks of the encoder. */
  datatype Field = Field(key: bytes, iface: Interface, str: bytes, integer: int, adds: seq<Call>)

  datatype ContextValue = TextValue(text: bytes) | InterfaceValue(id: nat) | IntegerValue(n: int)

  const HANDLER := Ascii("handler")
  const CONNECTION := Ascii("connection")
  const ACCOUNT := Ascii("account")
  const STREAM_ID := Ascii("streamId")
  const CONTEXT := Ascii("context")
  const CONTEXT_ERROR := Ascii("contextError")

  predicate IsRouting(f: Field) {
    f.key == HANDLER || f.key == CONNECTION || f.key == ACCOUNT || f.key == STREAM_ID
  }

  function FieldValue(f: Field): ContextValue {
    match f.iface
    case Stringer(text) => TextValue(text)
    case GoStringer(text) => TextValue(text)
    case ErrorValue(text) => TextValue(text)
    case OtherValue(id) => InterfaceValue(id)
    case NoInterface => if f.str != [] then TextValue(f.str) else IntegerValue(f.integer)
  }

  /** What the routing fields ask of the encoder, in order. */
  function RoutingCalls(fields: seq<Field>): seq<Call> {
    if fields == [] then []
    else
      var last := fields[|fields| - 1];
      RoutingCalls(fields[..|fields| - 1]) + if IsRouting(last) then last.adds else []
  }

  /** The other fields as a map. */
  function ContextMap(fields: seq<Field>): map<bytes, ContextValue> {
    if fields == [] then map[]
    else
      var last := fields[|fields| - 1];
      var m := ContextMap(fields[..|fields| - 1]);
      if IsRouting(last) then m else m[last.key := FieldValue(last)]
  }

  predicate HasContext(fields: seq<Field>) {
    exists i | 0 <= i < |fields| :: !IsRouting(fields[i])
  }

  /** The context field: zap asks for its value, and adds the error of one that cannot be encoded under another key. */
  function ContextCalls(r: Reflection): seq<Call> {
    [Add(CONTEXT, Reflected(r))] + if r.Failed? then [Add(CONTEXT_ERROR, Str(r.message))] else []
  }

  /** Everything addFields asks of the encoder; `reflect` is the reflection-based encoder. */
  function FieldCalls(fields: seq<Field>, reflect: map<bytes, ContextValue> -> Reflection): seq<Call> {
    RoutingCalls(fields) + if HasContext(fields) then ContextCalls(reflect(ContextMap(fields))) else []
  }

  predicate WfFields(fields: seq<Field>, reflect: map<bytes, ContextValue> -> Reflection) {
    && (forall i | 0 <= i < |fields| :: WfCalls(fields[i].adds))
    && WfReflection(reflect(ContextMap(fields)))
  }

  /** Every non-routing field's key is in the context; its last such field gives the value. */
  lemma {:induction false} ContextMapHoldsLast(fields: seq<Field>, i: nat)
    requires i < |fields| && !IsRouting(fields[i])
    ensures fields[i].key in ContextMap(fields)
    ensures (forall j | i < j < |fields| :: IsRouting(fields[j]) || fields[j].key != fields[i].key)
            ==> ContextMap(fields)[fields[i].key] == FieldValue(fields[i])
    decreases |fields|
  {
    hide IsRouting, FieldValue;
    var n := |fields| - 1;
    if i < n {
      ContextMapHoldsLast(fields[..n], i);
    }
  }

  /** And nothing else is: a key in the context has a last non-routing field. */
  lemma {:induction false} ContextMapHoldsOnly(fields: seq<Field>, key: bytes) returns (i: nat)
    requires key in ContextMap(fields)
    ensures i < |fields| && !IsRouting(fields[i]) && fields[i].key == key
    ensures forall j | i < j < |fields| :: IsRouting(fields[j]) || fields[j].key != key
    decreases |fields|
  {
    hide IsRouting, FieldValue;
    var n := |fields| - 1;
    if !IsRouting(fields[n]) && fields[n].key == key {
      i := n;
    } else {
      i := ContextMapHoldsOnly(fields[..n], key);
      assert forall j | 0 <= j < n :: fields[..n][j] == fields[j];
    }
  }

  function Optional(write: bool, key: bytes, val: Val): (calls: seq<Call>)
    ensures Wf(val) ==> WfCalls(calls)
  {
    if write then [Add(key, val)] else []
  }

  function LevelCalls(cfg: Config, ent: Entry): seq<Call> {
    Optional(cfg.levelKey != [] && cfg.encodesLevel, cfg.levelKey, ent.level)
  }

  function TimeCalls(cfg: Config, ent: Entry): seq<Call> {
    Optional(cfg.timeKey != [], cfg.timeKey, ent.time)
  }

  function NameCalls(cfg: Config, ent: Entry): seq<Call> {
    Optional(ent.loggerName != [] && cfg.nameKey != [], cfg.nameKey, ent.name)
  }

  function CallerCalls(cfg: Config, ent: Entry): seq<Call> {
    Optional(ent.callerDefined && cfg.callerKey != [], cfg.callerKey, ent.caller)
  }

  function FunctionCalls(cfg: Config, ent: Entry): seq<Call> {
    Optional(ent.callerDefined && cfg.functionKey != [], cfg.functionKey, Str(ent.function_))
  }

  function MessageCalls(cfg: Config, ent: Entry): seq<Call> {
    Optional(cfg.messageKey != [], cfg.messageKey, Str(ent.message))
  }

  /** Level, time, name, caller, function and message, in this order. */
  function MetaCalls(cfg: Config, ent: Entry): seq<Call> {
    LevelCalls(cfg, ent) + TimeCalls(cfg, ent) + NameCalls(cfg, ent) + CallerCalls(cfg, ent) + FunctionCalls(cfg, ent)
    + MessageCalls(cfg, ent)
  }

  predicate WfEntry(ent: Entry) {
    && ent.level.Custom? && Wf(ent.level)
    && ent.time.Custom? && Wf(ent.time)
    && ent.name.Custom? && Wf(ent.name)
    && ent.caller.Custom? && Wf(ent.caller)
  }

  function StackCalls(cfg: Config, ent: Entry): seq<Call> {
    Optional(ent.stack != [] && cfg.stacktraceKey != [], cfg.stacktraceKey, Str(ent.stack))
  }

  lemma MetaCallsWf(cfg: Config, ent: Entry)
    requires WfEntry(ent)
    ensures WfCalls(MetaCalls(cfg, ent)) && WfCalls(StackCalls(cfg, ent))
  {
    hide Optional;
  }

  /** The record: metadata, context calls and fields share namespaces; the stack trace is at the top. */
  function Record(cfg: Config, ent: Entry, context: seq<Call>, added: seq<Call>): Json
    requires WfEntry(ent) && WfCalls(context) && WfCalls(added)
  {
    MetaCallsWf(cfg, ent);
    Object(MembersMeaning(MetaCalls(cfg, ent) + context + added) + MembersMeaning(StackCalls(cfg, ent)))
  }

  /** The line for that record, then `tail`. */
  function LineText(cfg: Config, ent: Entry, context: seq<Call>, added: seq<Call>, spaced: bool, tail: bytes): bytes {
    var calls := MetaCalls(cfg, ent) + context + added;
    [LBRACE] + CallsText(calls, true, spaced, Braces(Namespaces(calls),
      CallsText(StackCalls(cfg, ent), AllSkipped(calls), spaced, [RBRACE] + tail)))
  }

  /**
   Print, then parse: whatever the context holds (namespaces left open included) and whatever is
   added, the line is one JSON object, it is the record meant, and every brace is closed: nothing of
   `tail` is consumed.
   */
  lemma LineParses(cfg: Config, ent: Entry, context: seq<Call>, added: seq<Call>, spaced: bool, tail: bytes)
    requires WfEntry(ent) && WfCalls(context) && WfCalls(added)
    ensures Value(LineText(cfg, ent, context, added, spaced, tail)) == Got(Record(cfg, ent, context, added), tail)
  {
    hide MetaCalls, Value, ObjectBody, Members, MemberTail;
    MetaCallsWf(cfg, ent);
    var calls := MetaCalls(cfg, ent) + context + added;
    var stack := StackCalls(cfg, ent);
    var first := AllSkipped(calls);
    var end := [RBRACE] + tail;
    var stackText := CallsText(stack, first, spaced, end);
    ClosingBraceReads(tail);
    assert Braces(Namespaces(stack), end) == end;
    CallsRead(stack, first, spaced, end, [], tail);
    assert MembersMeaning(stack) + [] == MembersMeaning(stack);
    CallsRead(calls, true, spaced, stackText, MembersMeaning(stack), tail);
    ObjectReads(CallsText(calls, true, spaced, Braces(Namespaces(calls), stackText)),
                MembersMeaning(calls) + MembersMeaning(stack), tail);
  }

  /** The line by itself is a JSON text. */
  lemma LineIsDocument(cfg: Config, ent: Entry, context: seq<Call>, added: seq<Call>, spaced: bool)
    requires WfEntry(ent) && WfCalls(context) && WfCalls(added)
    ensures Document(LineText(cfg, ent, context, added, spaced, [])) == Some(Record(cfg, ent, context, added))
  {
    LineParses(cfg, ent, context, added, spaced, []);
  }

  lemma {:induction false} RoutingCallsWf(fields: seq<Field>)
    requires forall i | 0 <= i < |fields| :: WfCalls(fields[i].adds)
    ensures WfCalls(RoutingCalls(fields))
  {
    if fields != [] {
      RoutingCallsWf(fields[..|fields| - 1]);
    }
  }

  lemma FieldCallsWf(fields: seq<Field>, reflect: map<bytes, ContextValue> -> Reflection)
    requires WfFields(fields, reflect)
    ensures WfCalls(FieldCalls(fields, reflect))
  {
    RoutingCallsWf(fields);
  }

  /** With no namespace open, the next key is first exactly when nothing has been written. */
  lemma {:induction false} EndsFirstWithoutNamespaces(calls: seq<Call>, first: bool)
    requires Namespaces(calls) == 0
    ensures EndsFirst(calls, first) == (first && AllSkipped(calls))
    decreases calls
  {
    if calls != [] {
      assert calls == [calls[0]] + calls[1..];
      EndsFirstWithoutNamespaces(calls[1..], first && Skipped(calls[0]));
    }
  }
}
