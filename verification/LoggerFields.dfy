/**
 The fields a logger carries after calls of With and of ForHandler, ForConnection and ForAccount. A zap
 logger is its list of fields; it never changes, so two loggers may share it.
 */
module LoggerFields {
  import opened Wrappers
  import opened Sequences

  datatype Kind = OfHandler | OfConnection | OfAccount

  datatype Field = Any(key: string, value: string)

  function Key(kind: Kind): string {
    match kind
    case OfHandler => "handler"
    case OfConnection => "connection"
    case OfAccount => "account"
  }

  datatype Call = With(fields: seq<Field>) | For(kind: Kind, value: string)

  function FieldsOf(call: Call): seq<Field> {
    match call
    case With(fields) => fields
    case For(kind, value) => [Any(Key(kind), value)]
  }

  /** A For* call of the same kind right after replaces the field. */
  predicate Replaces(later: Call, earlier: Call) {
    later.For? && earlier.For? && later.kind == earlier.kind
  }

  /** The fields of all calls in order, but of each unbroken run of one For* the last one's only. */
  function Collapse(calls: seq<Call>): seq<Field> {
    if calls == [] then []
    else (if |calls| > 1 && Replaces(calls[1], calls[0]) then [] else FieldsOf(calls[0])) + Collapse(calls[1..])
  }

  class Default {
    var logger: seq<Field>
    var parent: Option<seq<Field>>
    var previous: Option<Kind>
    /** The calls that led here from a logger with the fields `base`. */
    ghost var calls: seq<Call>
    ghost var base: seq<Field>

    /** The parent's fields and one more whenever `previous` is set, by a For* call just before. */
    ghost predicate Valid()
      reads this
    {
      && logger == base + Collapse(calls)
      && (previous.Some? ==> calls != [] && parent.Some?
                             && (var call := calls[|calls| - 1];
                                 call.For? && call.kind == previous.value && logger == parent.value + FieldsOf(call)))
      && (previous.None? ==> calls == [] || calls[|calls| - 1].With?)
    }

    constructor (logger: seq<Field>)
      ensures Valid() && this.logger == logger && base == logger && calls == []
    {
      this.logger, base, parent, previous, calls := logger, logger, None, None, [];
    }

    /** A copy with another zap logger and no previous field; `calls` and `base` are the copy's history. */
    constructor Clone(l: Default, logger: seq<Field>, ghost calls: seq<Call>)
      ensures this.logger == logger && previous == None
      ensures parent == Some(if l.parent.Some? then l.parent.value else l.logger)
      ensures this.calls == calls && base == l.base
    {
      this.logger, base, previous, this.calls := logger, l.base, None, calls;
      parent := Some(if l.parent.Some? then l.parent.value else l.logger);
    }

    /** WithLazy adds the same fields, later. */
    method With(fields: seq<Field>) returns (l: Default)
      requires Valid()
      ensures fresh(l) && l.Valid() && l.base == base && l.calls == calls + [Call.With(fields)]
      ensures l.logger == logger + fields
    {
      AddedFields(base, calls, Call.With(fields));
      l := new Default.Clone(this, logger + fields, calls + [Call.With(fields)]);
    }

    method ForHandler(handler: string) returns (l: Default)
      requires Valid()
      ensures fresh(l) && l.Valid() && l.base == base && l.calls == calls + [For(OfHandler, handler)]
      ensures l.logger != [] && l.logger[|l.logger| - 1] == Any("handler", handler)
    {
      var field := Any(Key(OfHandler), handler);
      if previous != Some(OfHandler) {
        AddedFields(base, calls, For(OfHandler, handler));
        l := new Default.Clone(this, logger + [field], calls + [For(OfHandler, handler)]);
        l.previous := Some(OfHandler);
        l.parent := Some(logger);
        return;
      }
      var parentOrCurrent := if parent.Some? then parent.value else logger;
      ReplacedFields(base, calls, parentOrCurrent, For(OfHandler, handler));
      l := new Default.Clone(this, parentOrCurrent + [field], calls + [For(OfHandler, handler)]);
      l.previous := Some(OfHandler);
    }

    method ForConnection(conn: string) returns (l: Default)
      requires Valid()
      ensures fresh(l) && l.Valid() && l.base == base && l.calls == calls + [For(OfConnection, conn)]
      ensures l.logger != [] && l.logger[|l.logger| - 1] == Any("connection", conn)
    {
      var field := Any(Key(OfConnection), conn);
      if previous != Some(OfConnection) {
        AddedFields(base, calls, For(OfConnection, conn));
        l := new Default.Clone(this, logger + [field], calls + [For(OfConnection, conn)]);
        l.previous := Some(OfConnection);
        l.parent := Some(logger);
        return;
      }
      var parentOrCurrent := if parent.Some? then parent.value else logger;
      ReplacedFields(base, calls, parentOrCurrent, For(OfConnection, conn));
      l := new Default.Clone(this, parentOrCurrent + [field], calls + [For(OfConnection, conn)]);
      l.previous := Some(OfConnection);
    }

    method ForAccount(acc: string) returns (l: Default)
      requires Valid()
      ensures fresh(l) && l.Valid() && l.base == base && l.calls == calls + [For(OfAccount, acc)]
      ensures l.logger != [] && l.logger[|l.logger| - 1] == Any("account", acc)
    {
      var field := Any(Key(OfAccount), acc);
      if previous != Some(OfAccount) {
        AddedFields(base, calls, For(OfAccount, acc));
        l := new Default.Clone(this, logger + [field], calls + [For(OfAccount, acc)]);
        l.previous := Some(OfAccount);
        l.parent := Some(logger);
        return;
      }
      var parentOrCurrent := if parent.Some? then parent.value else logger;
      ReplacedFields(base, calls, parentOrCurrent, For(OfAccount, acc));
      l := new Default.Clone(this, parentOrCurrent + [field], calls + [For(OfAccount, acc)]);
      l.previous := Some(OfAccount);
    }
  }

  /** The collapsed fields, without those of the last call. */
  function BeforeLast(calls: seq<Call>): seq<Field>
    requires calls != []
  {
    if |calls| == 1 then []
    else (if Replaces(calls[1], calls[0]) then [] else FieldsOf(calls[0])) + BeforeLast(calls[1..])
  }

  lemma {:induction false} CollapseSplits(calls: seq<Call>)
    requires calls != []
    ensures Collapse(calls) == BeforeLast(calls) + FieldsOf(calls[|calls| - 1])
  {
    hide Replaces, FieldsOf;
    if |calls| == 1 {
      OneCollapses(calls);
    } else {
      var head := if Replaces(calls[1], calls[0]) then [] else FieldsOf(calls[0]);
      var last := FieldsOf(calls[|calls| - 1]);
      CollapseSplits(calls[1..]);
      calc {
        Collapse(calls);
      ==
        head + Collapse(calls[1..]);
      ==
        head + (BeforeLast(calls[1..]) + last);
      == { Associates(head, BeforeLast(calls[1..]), last); }
        (head + BeforeLast(calls[1..])) + last;
      ==
        BeforeLast(calls) + last;
      }
    }
  }

  lemma OneCollapses(calls: seq<Call>)
    requires |calls| == 1
    ensures Collapse(calls) == FieldsOf(calls[0]) && BeforeLast(calls) == []
    ensures BeforeLast(calls) + FieldsOf(calls[0]) == FieldsOf(calls[0])
  {
    assert Collapse(calls[1..]) == [];
  }

  lemma {:induction false} CollapseNext(calls: seq<Call>, call: Call)
    ensures var replaced := calls != [] && Replaces(call, calls[|calls| - 1]);
            BeforeLast(calls + [call]) == if replaced then BeforeLast(calls) else Collapse(calls)
  {
    hide FieldsOf, Replaces;
    var longer := calls + [call];
    if |calls| > 1 {
      CollapseNext(calls[1..], call);
      assert longer[1..] == calls[1..] + [call];
    } else if calls != [] {
      assert longer[1..] == [call];
      assert Collapse(calls[1..]) == [];
    }
  }

  lemma SameStart(a: seq<Field>, b: seq<Field>, x: seq<Field>)
    requires a + x == b + x
    ensures a == b
  {
    assert a == (a + x)[..|a|] && b == (b + x)[..|b|];
  }

  /** A call that replaces nothing adds its fields at the end. */
  lemma AddedFields(base: seq<Field>, calls: seq<Call>, call: Call)
    requires calls == [] || !Replaces(call, calls[|calls| - 1])
    ensures base + Collapse(calls + [call]) == (base + Collapse(calls)) + FieldsOf(call)
  {
    CollapseSplits(calls + [call]);
    CollapseNext(calls, call);
    Associates(base, Collapse(calls), FieldsOf(call));
  }

  /** A call that replaces adds its fields to the parent's. */
  lemma ReplacedFields(base: seq<Field>, calls: seq<Call>, parent: seq<Field>, call: Call)
    requires calls != [] && Replaces(call, calls[|calls| - 1])
    requires base + Collapse(calls) == parent + FieldsOf(calls[|calls| - 1])
    ensures base + Collapse(calls + [call]) == parent + FieldsOf(call)
  {
    CollapseSplits(calls);
    CollapseSplits(calls + [call]);
    CollapseNext(calls, call);
    hide Collapse, BeforeLast, FieldsOf;
    var before := BeforeLast(calls);
    Associates(base, before, FieldsOf(calls[|calls| - 1]));
    SameStart(base + before, parent, FieldsOf(calls[|calls| - 1]));
    Associates(base, before, FieldsOf(call));
  }

  /** For* twice in a row carries one field; anything in between, and there are two. */
  lemma InterruptedForDuplicates(kind: Kind, first: string, second: string, between: seq<Call>)
    requires between == [] || between[0].With? || between[0].kind != kind
    requires between == [] || between[|between| - 1].With? || between[|between| - 1].kind != kind
    ensures var calls := [For(kind, first)] + between + [For(kind, second)];
            var fields := Collapse(calls);
            if between == [] then fields == [Any(Key(kind), second)]
            else fields == [Any(Key(kind), first)] + Collapse(between) + [Any(Key(kind), second)]
  {
    var calls := [For(kind, first)] + between;
    CollapseSplits(calls + [For(kind, second)]);
    CollapseNext(calls, For(kind, second));
    if between == [] {
      assert calls == [For(kind, first)];
    } else {
      assert calls[1..] == between && calls[|calls| - 1] == between[|between| - 1];
    }
  }
}
