/**
 The error collector: a linked list with a pointer to its last node, and the message that numbers its
 errors line by line.
 */
module ErrorList {
  import opened Wrappers
  import opened Sequences
  import opened Utf8
  import opened Decimals

  /** An error by its text, and where it was pushed from. */
  datatype Entry = Entry(err: bytes, pc: nat, file: bytes, line: int)

  class Node {
    const entry: Entry
    var next: Node?

    constructor (entry: Entry)
      ensures this.entry == entry && next == null
    {
      this.entry := entry;
      next := null;
    }
  }

  class ErrList {
    var head: Node?
    var tail: Node?
    var len: nat
    ghost var nodes: seq<Node>
    ghost var repr: set<Node>

    /** An acyclic chain from head to tail, as long as `len` says. */
    ghost predicate Valid()
      reads this, repr
    {
      && len == |nodes| && repr == (set n | n in nodes)
      && (forall i, j | 0 <= i < j < |nodes| :: nodes[i] != nodes[j])
      && (forall i | 0 <= i < |nodes| - 1 :: nodes[i].next == nodes[i + 1])
      && (if nodes == [] then head == null && tail == null
          else head == nodes[0] && tail == nodes[|nodes| - 1] && tail.next == null)
    }

    ghost function Entries(): seq<Entry>
      reads this
    {
      EntriesOf(nodes)
    }

    constructor ()
      ensures Valid() && Entries() == [] && repr == {}
    {
      head, tail, len, nodes, repr := null, null, 0, [], {};
    }

    method Push(entry: Entry)
      requires Valid()
      modifies this, repr
      ensures Valid() && Entries() == old(Entries()) + [entry]
      ensures fresh(repr - old(repr))
    {
      var item := new Node(entry);
      if head == null {
        head := item;
      }
      if tail != null {
        tail.next := item;
      }
      tail := item;
      len := len + 1;
      nodes, repr := nodes + [item], repr + {item};
    }

    /** Walks the pointers; what the channel delivers, in order. */
    method Iterate() returns (delivered: seq<Entry>)
      requires Valid()
      ensures delivered == Entries()
    {
      var item := head;
      delivered := [];
      ghost var k := 0;
      while item != null
        invariant 0 <= k <= |nodes| && delivered == EntriesOf(nodes)[..k]
        invariant item == if k < |nodes| then nodes[k] else null
        decreases |nodes| - k
      {
        delivered := delivered + [item.entry];
        item := item.next;
        k := k + 1;
      }
    }

    method Len() returns (n: nat)
      requires Valid()
      ensures n == |Entries()|
    {
      n := len;
    }
  }

  ghost function EntriesOf(nodes: seq<Node>): seq<Entry> {
    seq(|nodes|, i requires 0 <= i < |nodes| => nodes[i].entry)
  }

  /** The errors that are not nil, with the caller's position. */
  function Collected(errs: seq<Option<bytes>>, pc: nat, file: bytes, line: int): seq<Entry> {
    if errs == [] then []
    else (if errs[0].Some? then [Entry(errs[0].value, pc, file, line)] else []) + Collected(errs[1..], pc, file, line)
  }

  class Collector {
    const errors: ErrList

    ghost predicate Valid()
      reads this, errors, errors.repr
    {
      errors.Valid()
    }

    constructor ()
      ensures Valid() && errors.Entries() == [] && fresh(errors) && errors.repr == {}
    {
      errors := new ErrList();
    }

    /** None is a nil error; `pc`, `file` and `line` are the caller's. */
    method Do(errs: seq<Option<bytes>>, pc: nat, file: bytes, line: int)
      requires Valid()
      modifies errors, errors.repr
      ensures Valid() && errors.Entries() == old(errors.Entries()) + Collected(errs, pc, file, line)
      ensures fresh(errors.repr - old(errors.repr))
    {
      ghost var whole := errors.Entries() + Collected(errs, pc, file, line);
      var i := 0;
      while i < |errs|
        invariant 0 <= i <= |errs| && Valid()
        invariant errors.Entries() + Collected(errs[i..], pc, file, line) == whole
        invariant fresh(errors.repr - old(errors.repr))
      {
        ghost var before := errors.Entries();
        ghost var rest := Collected(errs[i + 1..], pc, file, line);
        assert errs[i..][1..] == errs[i + 1..];
        if errs[i].Some? {
          errors.Push(Entry(errs[i].value, pc, file, line));
          ghost var added := [Entry(errs[i].value, pc, file, line)];
          assert (before + added) + rest == before + (added + rest);
        } else {
          assert before + ([] + rest) == before + rest;
        }
        i := i + 1;
      }
      assert errors.Entries() + [] == errors.Entries();
    }

    method OK() returns (ok: bool)
      requires Valid()
      ensures ok <==> errors.Entries() == []
    {
      var n := errors.Len();
      ok := n == 0;
    }

    /** nil, or the collector itself. */
    method AsError() returns (err: Collector?)
      requires Valid()
      ensures if errors.Entries() == [] then err == null else err == this
    {
      var ok := OK();
      err := if ok then null else this;
    }

    method Error() returns (message: bytes)
      requires Valid()
      ensures message == Message(errors.Entries())
    {
      var i := 0;
      message := [];
      var delivered := errors.Iterate();
      while i < |delivered|
        invariant 0 <= i <= |delivered|
        invariant message == Lines(delivered[..i])
      {
        assert delivered[..i + 1][..i] == delivered[..i];
        i := i + 1;
        message := message + Line(i, delivered[i - 1]) + [NEWLINE];
      }
      assert delivered[..i] == delivered;
      message := TrimNewlines(message);
    }
  }

  // The message

  const NEWLINE: byte := 0x0A
  const ERR_AT: bytes := [0x20, 0x65, 0x72, 0x72, 0x20, 0x61, 0x74, 0x20]

  /** "#k err at file:line: error" */
  function Line(k: nat, e: Entry): bytes {
    [0x23] + IntText(k) + ERR_AT + e.file + [0x3A] + IntText(e.line) + [0x3A, 0x20] + e.err
  }

  /** All lines, each ended. */
  function Lines(entries: seq<Entry>): bytes {
    if entries == [] then []
    else Lines(entries[..|entries| - 1]) + Line(|entries|, entries[|entries| - 1]) + [NEWLINE]
  }

  function TrimNewlines(s: bytes): bytes {
    if s != [] && s[|s| - 1] == NEWLINE then TrimNewlines(s[..|s| - 1]) else s
  }

  function Message(entries: seq<Entry>): bytes {
    TrimNewlines(Lines(entries))
  }

  /** Splits at newlines. */
  function Split(s: bytes): seq<bytes> {
    if s == [] then [[]]
    else
      var rest := Split(s[..|s| - 1]);
      var c := s[|s| - 1];
      if c == NEWLINE then rest + [[]] else rest[..|rest| - 1] + [rest[|rest| - 1] + [c]]
  }

  function Numbered(entries: seq<Entry>): seq<bytes> {
    seq(|entries|, i requires 0 <= i < |entries| => Line(i + 1, entries[i]))
  }

  predicate OneLine(e: Entry) {
    NEWLINE !in e.err && NEWLINE !in e.file
  }

  lemma {:induction false} SplitConcat(a: bytes, b: bytes)
    requires NEWLINE !in b
    ensures Split(a) != []
    ensures Split(a + b) == Split(a)[..|Split(a)| - 1] + [Split(a)[|Split(a)| - 1] + b]
  {
    SplitNotEmpty(a);
    var n := |Split(a)| - 1;
    if b == [] {
      assert a + b == a;
      assert Split(a)[n] + b == Split(a)[n];
    } else {
      var front := b[..|b| - 1];
      assert (a + b)[..|a + b| - 1] == a + front;
      SplitConcat(a, front);
      assert Split(a)[n] + b == (Split(a)[n] + front) + [b[|b| - 1]];
    }
  }

  lemma {:induction false} SplitNotEmpty(a: bytes)
    ensures Split(a) != []
  {
    if a != [] {
      SplitNotEmpty(a[..|a| - 1]);
    }
  }

  lemma {:induction false} PartsHaveNoNewline(s: bytes)
    ensures Split(s) != []
    ensures forall i | 0 <= i < |Split(s)| :: NEWLINE !in Split(s)[i]
  {
    if s != [] {
      PartsHaveNoNewline(s[..|s| - 1]);
    }
  }

  lemma LineHasNewlineIff(k: nat, e: Entry)
    ensures Line(k, e) != [] && (NEWLINE in Line(k, e) <==> !OneLine(e))
  {
    DecimalDigits(k);
    DecimalDigits(if e.line < 0 then -e.line else e.line);
    assert NEWLINE !in IntText(k) && NEWLINE !in IntText(e.line);
  }

  /** The ended lines split into the numbered lines and an empty one. */
  lemma {:induction false} LinesSplit(entries: seq<Entry>)
    requires forall i | 0 <= i < |entries| :: OneLine(entries[i])
    ensures Split(Lines(entries)) == Numbered(entries) + [[]]
  {
    hide Line, OneLine, TrimNewlines;
    if entries != [] {
      var n := |entries| - 1;
      var front, line := Lines(entries[..n]), Line(n + 1, entries[n]);
      LinesSplit(entries[..n]);
      LineHasNewlineIff(n + 1, entries[n]);
      SplitLine(front, line);
      hide Split, Lines;
      assert Split(front)[..n] == Numbered(entries[..n]);
      assert [] + line == line;
      assert Numbered(entries) == Numbered(entries[..n]) + [line];
    }
  }

  lemma SplitLine(front: bytes, line: bytes)
    requires NEWLINE !in line
    ensures Split(front) != []
    ensures var parts := Split(front);
            Split(front + line + [NEWLINE]) == parts[..|parts| - 1] + [parts[|parts| - 1] + line] + [[]]
  {
    SplitConcat(front, line);
    var s := front + line + [NEWLINE];
    assert s[..|s| - 1] == front + line;
  }

  /** The message holds one line for each error, numbered from 1, exactly if no text in it has a newline. */
  lemma MessageLinesIff(entries: seq<Entry>)
    requires entries != []
    ensures Split(Message(entries)) == Numbered(entries) <==> forall i | 0 <= i < |entries| :: OneLine(entries[i])
  {
    if forall i | 0 <= i < |entries| :: OneLine(entries[i]) {
      LinesSplit(entries);
      LastLineTrimmed(entries);
      var lines := Lines(entries);
      assert Split(lines) == Split(lines[..|lines| - 1]) + [[]];
      assert Split(lines)[..|entries|] == Numbered(entries);
    } else if Split(Message(entries)) == Numbered(entries) {
      PartsHaveNoNewline(Message(entries));
      forall i | 0 <= i < |entries| ensures OneLine(entries[i]) {
        assert NEWLINE !in Numbered(entries)[i];
        LineHasNewlineIff(i + 1, entries[i]);
      }
      assert false;
    }
  }

  /** The i-th line: behind "#" digits that read as i + 1, then the place, its line in digits too, and the error. */
  lemma NumberedLine(entries: seq<Entry>, i: nat) returns (number: bytes, line: bytes)
    requires i < |entries|
    ensures ReadInt(number) == i + 1 && ReadInt(line) == entries[i].line
    ensures Numbered(entries)[i]
         == Ascii("#") + number + Ascii(" err at ") + entries[i].file + Ascii(":") + line + Ascii(": ") + entries[i].err
  {
    number, line := IntText(i + 1), IntText(entries[i].line);
    ReadIntOfText(i + 1);
    ReadIntOfText(entries[i].line);
    assert Ascii("#") == [0x23] && Ascii(" err at ") == ERR_AT && Ascii(":") == [0x3A] && Ascii(": ") == [0x3A, 0x20];
  }

  /** Only newlines are cut off the message, and all that end it. */
  lemma {:induction false} OnlyNewlinesAreCut(s: bytes)
    ensures TrimNewlines(s) <= s && forall b | b in s[|TrimNewlines(s)|..] :: b == NEWLINE
    ensures TrimNewlines(s) != [] ==> TrimNewlines(s)[|TrimNewlines(s)| - 1] != NEWLINE
  {
    if s != [] && s[|s| - 1] == NEWLINE {
      var front := s[..|s| - 1];
      OnlyNewlinesAreCut(front);
      var n := |TrimNewlines(front)|;
      assert s[n..] == front[n..] + [NEWLINE];
    }
  }

  /** What is collected of one error among others: itself with the caller's place, or nothing if it is nil. */
  lemma {:induction false} CollectedSplits(a: seq<Option<bytes>>, e: Option<bytes>, b: seq<Option<bytes>>,
                                           pc: nat, file: bytes, line: int)
    ensures Collected(a + [e] + b, pc, file, line)
         == Collected(a, pc, file, line) + (if e.Some? then [Entry(e.value, pc, file, line)] else [])
            + Collected(b, pc, file, line)
  {
    var one := if e.Some? then [Entry(e.value, pc, file, line)] else [];
    if a == [] {
      assert a + [e] + b == [e] + b && ([e] + b)[1..] == b;
      assert [] + one == one;
    } else {
      CollectedSplits(a[1..], e, b, pc, file, line);
      assert (a + [e] + b)[1..] == a[1..] + [e] + b;
      var head := if a[0].Some? then [Entry(a[0].value, pc, file, line)] else [];
      var rest := Collected(a[1..], pc, file, line);
      Associates(head, rest + one, Collected(b, pc, file, line));
      Associates(head, rest, one);
    }
  }

  lemma LastLineTrimmed(entries: seq<Entry>)
    requires entries != [] && OneLine(entries[|entries| - 1])
    ensures Message(entries) == Lines(entries)[..|Lines(entries)| - 1]
  {
    hide Line;
    var n := |entries| - 1;
    var line, lines := Line(n + 1, entries[n]), Lines(entries);
    LineHasNewlineIff(n + 1, entries[n]);
    var cut := lines[..|lines| - 1];
    assert cut == Lines(entries[..n]) + line;
    assert cut[|cut| - 1] == line[|line| - 1];
    assert line[|line| - 1] in line;
    assert TrimNewlines(cut) == cut;
  }
}
