/**
 The scope check deletes granted scopes from a slice while it ranges over the header the slice had before:
 the length it ranges to is the old one, the elements it reads are the shared array's current ones.
 */
module Scopes {
  import opened Wrappers
  import opened Sequences

  type Scope = string

  // What one pass over the slice leaves

  /** From place p on: a match is deleted, and the element after it moves under the loop and is not looked at. */
  function Kept(rs: seq<Scope>, s: Scope, p: nat): seq<Scope>
    decreases |rs| - p
  {
    if p >= |rs| then []
    else if rs[p] != s then [rs[p]] + Kept(rs, s, p + 1)
    else if p + 1 < |rs| then [rs[p + 1]] + Kept(rs, s, p + 2)
    else []
  }

  /** The places past the shortened slice hold copies of the last element, which the loop still reads. */
  predicate ReadsStale(rs: seq<Scope>, s: Scope) {
    rs != [] && rs[|rs| - 1] == s && s in rs[..|rs| - 1]
  }

  /** None is a panic: slice bounds out of range. */
  function Sweep(rs: seq<Scope>, s: Scope): Option<seq<Scope>> {
    var kept := Kept(rs, s, 0);
    if !ReadsStale(rs, s) then Some(kept) else if |kept| == 1 then Some([]) else None
  }

  function CheckAll(granted: seq<Scope>, rs: seq<Scope>): Option<seq<Scope>>
    decreases |granted|
  {
    if granted == [] then Some(rs)
    else match Sweep(rs, granted[0])
      case None => None
      case Some(rest) => CheckAll(granted[1..], rest)
  }

  /**
   The array part `buf` that held `rs0`, when the loop is at place `kn` and the slice has shrunk to length
   `rs`: what is before the loop is kept, what is after it is not looked at yet, the rest is stale.
   */
  ghost predicate Midway(rs0: seq<Scope>, s: Scope, buf: seq<Scope>, rs: nat, kn: nat) {
    var len := |rs0|;
    && |buf| == len && rs <= len && kn <= len
    && (if kn <= rs
        then buf[..kn] + Kept(rs0, s, kn + (len - rs)) == Kept(rs0, s, 0) && buf[kn..rs] == rs0[kn + (len - rs)..]
        else buf[..rs] == Kept(rs0, s, 0))
    && (forall j | rs <= j < len :: buf[j] == rs0[len - 1])
    && (if rs == len then s !in rs0[..kn] else s in rs0[..kn])
    && (ReadsStale(rs0, s) ==> kn <= rs + 1 && (kn == rs + 1 ==> kn < len))
  }

  lemma NextIsOld(rs0: seq<Scope>, s: Scope, buf: seq<Scope>, rs: nat, kn: nat)
    requires Midway(rs0, s, buf, rs, kn) && kn < rs
    ensures buf[kn] == rs0[kn + (|rs0| - rs)] && buf[rs - 1] == rs0[|rs0| - 1]
  {
    assert buf[kn] == buf[kn..rs][0];
    assert buf[rs - 1] == buf[kn..rs][rs - 1 - kn];
  }

  lemma NoMatch(rs0: seq<Scope>, s: Scope, buf: seq<Scope>, rs: nat, kn: nat)
    requires Midway(rs0, s, buf, rs, kn) && kn < |rs0| && buf[kn] != s
    ensures Midway(rs0, s, buf, rs, kn + 1)
  {
    hide ReadsStale, Kept;
    assert rs0[..kn + 1] == rs0[..kn] + [rs0[kn]];
    if kn < rs {
      NextIsOld(rs0, s, buf, rs, kn);
      NoMatchMoves(rs0, s, buf, rs, kn, kn + (|rs0| - rs));
    } else {
      StaleNext(rs0, s, buf, rs, kn);
    }
  }

  lemma NoMatchMoves(rs0: seq<Scope>, s: Scope, buf: seq<Scope>, rs: nat, kn: nat, p: nat)
    requires kn < rs <= |rs0| == |buf| && p == kn + (|rs0| - rs) && rs0[p] == buf[kn] != s
    requires buf[..kn] + Kept(rs0, s, p) == Kept(rs0, s, 0) && buf[kn..rs] == rs0[p..]
    ensures buf[..kn + 1] + Kept(rs0, s, p + 1) == Kept(rs0, s, 0) && buf[kn + 1..rs] == rs0[p + 1..]
  {
    assert buf[..kn + 1] == buf[..kn] + [buf[kn]];
    assert buf[kn + 1..rs] == buf[kn..rs][1..];
  }

  /** A copy of the last element that is no match: then the last element was not deleted before. */
  lemma StaleNext(rs0: seq<Scope>, s: Scope, buf: seq<Scope>, rs: nat, kn: nat)
    requires Midway(rs0, s, buf, rs, kn) && rs <= kn < |rs0| && buf[kn] != s
    ensures !ReadsStale(rs0, s) && buf[..rs] == Kept(rs0, s, 0)
  {
    assert kn == rs ==> rs0[kn + (|rs0| - rs)..] == [] && Kept(rs0, s, |rs0|) == [];
    assert kn == rs ==> buf[..rs] + [] == buf[..rs];
  }

  lemma Match(rs0: seq<Scope>, s: Scope, buf: seq<Scope>, rs: nat, kn: nat, next: seq<Scope>)
    requires Midway(rs0, s, buf, rs, kn) && kn < rs && rs != 1 && buf[kn] == s
    requires |next| == |buf| && next[..rs - 1] == buf[..kn] + buf[kn + 1..rs] && next[rs - 1..] == buf[rs - 1..]
    ensures Midway(rs0, s, next, rs - 1, kn + 1)
  {
    hide Kept;
    NextIsOld(rs0, s, buf, rs, kn);
    var p := kn + (|rs0| - rs);
    assert rs == |rs0| ==> rs0[kn] in rs0[..kn + 1];
    forall j | rs - 1 <= j < |rs0| ensures next[j] == rs0[|rs0| - 1] {
      assert next[j] == next[rs - 1..][j - (rs - 1)] == buf[j];
    }
    MatchMoves(rs0, s, buf, rs, kn, next, p);
    assert rs == |rs0| && kn + 1 == rs ==> !ReadsStale(rs0, s);
  }

  lemma MatchMoves(rs0: seq<Scope>, s: Scope, buf: seq<Scope>, rs: nat, kn: nat, next: seq<Scope>, p: nat)
    requires kn < rs <= |rs0| == |buf| == |next| && p == kn + (|rs0| - rs) && rs0[p] == s
    requires buf[..kn] + Kept(rs0, s, p) == Kept(rs0, s, 0) && buf[kn..rs] == rs0[p..]
    requires next[..rs - 1] == buf[..kn] + buf[kn + 1..rs]
    ensures if kn + 1 <= rs - 1
            then next[..kn + 1] + Kept(rs0, s, p + 2) == Kept(rs0, s, 0) && next[kn + 1..rs - 1] == rs0[p + 2..]
            else next[..rs - 1] == Kept(rs0, s, 0)
  {
    if kn + 1 <= rs - 1 {
      assert buf[kn + 1] == buf[kn..rs][1] == rs0[p + 1];
      assert next[..kn + 1] == next[..rs - 1][..kn + 1] == buf[..kn] + [rs0[p + 1]];
      assert next[kn + 1..rs - 1] == next[..rs - 1][kn + 1..] == buf[kn..rs][2..];
    } else {
      assert buf[..kn] + [] == buf[..kn];
    }
  }

  /** The two ways a match ends the loop early, and the way the loop ends. */
  lemma Ends(rs0: seq<Scope>, s: Scope, buf: seq<Scope>, rs: nat, kn: nat)
    requires Midway(rs0, s, buf, rs, kn)
    ensures kn < |rs0| && buf[kn] == s && rs == 1 ==> Sweep(rs0, s) == Some([])
    ensures kn < |rs0| && buf[kn] == s && rs != 1 && kn >= rs ==> Sweep(rs0, s) == None
    ensures kn == |rs0| ==> Sweep(rs0, s) == Some(buf[..rs])
  {
    var len := |rs0|;
    if kn == len {
      assert !ReadsStale(rs0, s);
      assert rs == len ==> buf[..rs] + Kept(rs0, s, len) == buf[..rs];
    } else if buf[kn] == s && kn >= rs {
      assert rs0[..kn] == rs0[..len - 1][..kn];
      assert ReadsStale(rs0, s);
      assert kn == rs ==> rs0[kn + (len - rs)..] == [];
      assert buf[..rs] == Kept(rs0, s, 0);
    } else if buf[kn] == s && rs == 1 {
      NextIsOld(rs0, s, buf, rs, kn);
      assert rs0[..kn] == [];
      assert len == 1;
      assert !ReadsStale(rs0, s);
    }
  }

  /** The inner loop; the slice is a[..len], and its new length is returned. */
  method Delete(a: array<Scope>, len: nat, vs: Scope) returns (r: Option<nat>)
    requires len <= a.Length
    modifies a
    ensures r.None? <==> Sweep(old(a[..len]), vs).None?
    ensures r.Some? ==> r.value <= len && Some(a[..r.value]) == Sweep(old(a[..len]), vs)
  {
    hide Midway, Sweep;
    ghost var rs0 := a[..len];
    var rs: nat, kn: nat := len, 0;
    BeginsMidway(rs0, vs);
    while kn < len
      invariant rs <= len && kn <= len
      invariant Midway(rs0, vs, a[..len], rs, kn)
    {
      ghost var buf := a[..len];
      Ends(rs0, vs, buf, rs, kn);
      if a[kn] == vs {
        if rs == 1 {
          return Some(0);
        }
        if kn + 1 > rs {
          return None;
        }
        ShiftLeft(a, kn, rs, len);
        Match(rs0, vs, buf, rs, kn, a[..len]);
        rs := rs - 1;
      } else {
        NoMatch(rs0, vs, buf, rs, kn);
      }
      kn := kn + 1;
    }
    Ends(rs0, vs, a[..len], rs, kn);
    assert a[..len][..rs] == a[..rs];
    return Some(rs);
  }

  lemma BeginsMidway(rs0: seq<Scope>, s: Scope)
    ensures Midway(rs0, s, rs0, |rs0|, 0)
  {
    assert rs0[..0] + Kept(rs0, s, 0) == Kept(rs0, s, 0);
  }

  /** append(rs[:kn], rs[kn+1:]...) within the capacity `len`. */
  method ShiftLeft(a: array<Scope>, kn: nat, rs: nat, len: nat)
    requires kn < rs <= len <= a.Length
    modifies a
    ensures var buf, next := old(a[..len]), a[..len];
            next[..rs - 1] == buf[..kn] + buf[kn + 1..rs] && next[rs - 1..] == buf[rs - 1..]
  {
    var j := kn;
    while j + 1 < rs
      invariant kn <= j < rs
      invariant forall k | 0 <= k < kn || j <= k < a.Length :: a[k] == old(a[k])
      invariant forall k | kn <= k < j :: a[k] == old(a[k + 1])
    {
      a[j] := a[j + 1];
      j := j + 1;
    }
  }

  method CheckScopes(scopes: seq<Scope>, scopesRequired: seq<Scope>) returns (r: Option<seq<Scope>>)
    ensures r == CheckAll(scopes, scopesRequired)
  {
    var a := new Scope[|scopesRequired|](i requires 0 <= i < |scopesRequired| => scopesRequired[i]);
    var len: nat := |scopesRequired|;
    assert a[..len] == scopesRequired;
    var i := 0;
    while i < |scopes|
      invariant 0 <= i <= |scopes| && len <= a.Length
      invariant CheckAll(scopes, scopesRequired) == CheckAll(scopes[i..], a[..len])
    {
      var deleted := Delete(a, len, scopes[i]);
      if deleted.None? {
        return None;
      }
      len := deleted.value;
      i := i + 1;
    }
    return Some(a[..len]);
  }

  // Whether that is what was asked for

  function Without(rs: seq<Scope>, s: Scope): seq<Scope> {
    if rs == [] then [] else (if rs[0] == s then [] else [rs[0]]) + Without(rs[1..], s)
  }

  /** The required scopes that are not granted, in order. */
  function Missing(granted: seq<Scope>, rs: seq<Scope>): seq<Scope> {
    if rs == [] then [] else (if rs[0] in granted then [] else [rs[0]]) + Missing(granted, rs[1..])
  }

  predicate DuplicateFree(rs: seq<Scope>) {
    forall i, j | 0 <= i < j < |rs| :: rs[i] != rs[j]
  }

  predicate NoTwoTogether(rs: seq<Scope>, s: Scope) {
    forall i | 0 <= i < |rs| - 1 :: !(rs[i] == s && rs[i + 1] == s)
  }

  predicate AtMostOnce(rs: seq<Scope>, s: Scope) {
    forall i, j | 0 <= i < j < |rs| :: !(rs[i] == s && rs[j] == s)
  }

  /** The lists that one pass for `s` handles. */
  predicate Deletable(rs: seq<Scope>, s: Scope) {
    || AtMostOnce(rs, s)
    || (rs[|rs| - 1] != s && NoTwoTogether(rs, s))
    || (2 <= |rs| <= 3 && forall x | x in rs :: x == s)
  }

  lemma {:induction false} KeptIsWithoutIff(rs: seq<Scope>, s: Scope, p: nat)
    requires p <= |rs|
    ensures Kept(rs, s, p) == Without(rs[p..], s) <==> NoTwoTogether(rs[p..], s)
    decreases |rs| - p
  {
    if p < |rs| {
      assert rs[p..][1..] == rs[p + 1..];
      if rs[p] != s {
        KeptIsWithoutIff(rs, s, p + 1);
        TogetherLater(rs[p..], s);
        SameTail(rs[p], Kept(rs, s, p + 1), Without(rs[p + 1..], s));
      } else if p + 1 < |rs| {
        KeptIsWithoutIff(rs, s, p + 2);
        assert rs[p + 1..][1..] == rs[p + 2..];
        WithoutLacks(rs[p..], s);
        if rs[p + 1] == s {
          assert rs[p..][0] == s && rs[p..][0 + 1] == s;
        } else {
          TogetherLater(rs[p..], s);
          TogetherLater(rs[p + 1..], s);
          SameTail(rs[p + 1], Kept(rs, s, p + 2), Without(rs[p + 2..], s));
          assert [] + Without(rs[p + 1..], s) == Without(rs[p + 1..], s);
        }
      }
    }
  }

  lemma SameTail(x: Scope, a: seq<Scope>, b: seq<Scope>)
    ensures [x] + a == [x] + b <==> a == b
  {
    assert ([x] + a)[1..] == a && ([x] + b)[1..] == b;
  }

  lemma TogetherLater(rs: seq<Scope>, s: Scope)
    requires rs != [] && (rs[0] != s || |rs| == 1 || rs[1] != s)
    ensures NoTwoTogether(rs, s) <==> NoTwoTogether(rs[1..], s)
  {
    if NoTwoTogether(rs[1..], s) {
      forall i | 0 <= i < |rs| - 1 ensures !(rs[i] == s && rs[i + 1] == s) {
        if i > 0 {
          assert rs[1..][i - 1] == rs[i] && rs[1..][i - 1 + 1] == rs[i + 1];
        }
      }
    } else {
      var i :| 0 <= i < |rs[1..]| - 1 && rs[1..][i] == s && rs[1..][i + 1] == s;
      assert rs[i + 1] == s && rs[i + 1 + 1] == s;
    }
  }

  lemma {:induction false} WithoutLacks(rs: seq<Scope>, s: Scope)
    ensures s !in Without(rs, s)
    ensures Without(rs, s) == [] <==> forall x | x in rs :: x == s
  {
    if rs != [] {
      WithoutLacks(rs[1..], s);
      assert rs[0] in rs && forall x :: x in rs <==> x == rs[0] || x in rs[1..];
    }
  }

  lemma {:induction false} KeptHalf(rs: seq<Scope>, s: Scope, p: nat)
    requires p <= |rs|
    ensures |Kept(rs, s, p)| >= (|rs| - p) / 2
    decreases |rs| - p
  {
    if p < |rs| {
      if rs[p] != s {
        KeptHalf(rs, s, p + 1);
      } else if p + 1 < |rs| {
        KeptHalf(rs, s, p + 2);
      }
    }
  }

  /** Exactly which lists a granted scope is deleted from as it should be. */
  lemma SweepIsRightIff(rs: seq<Scope>, s: Scope)
    ensures Sweep(rs, s) == Some(Without(rs, s)) <==> Deletable(rs, s)
  {
    assert rs[0..] == rs;
    if ReadsStale(rs, s) {
      StaleIsRightIff(rs, s);
    } else {
      KeptIsWithoutIff(rs, s, 0);
      NotStale(rs, s);
    }
  }

  lemma NotStale(rs: seq<Scope>, s: Scope)
    requires !ReadsStale(rs, s)
    ensures NoTwoTogether(rs, s) <==> Deletable(rs, s)
  {
    if AtMostOnce(rs, s) {
      assert NoTwoTogether(rs, s);
    } else if rs[|rs| - 1] != s {
      assert rs[|rs| - 1] in rs;
    }
  }

  lemma StaleIsRightIff(rs: seq<Scope>, s: Scope)
    requires ReadsStale(rs, s)
    ensures Sweep(rs, s) == Some(Without(rs, s)) <==> Deletable(rs, s)
  {
    KeptHalf(rs, s, 0);
    WithoutLacks(rs, s);
    var i :| 0 <= i < |rs| - 1 && rs[..|rs| - 1][i] == s;
    assert rs[i] == s && rs[|rs| - 1] == s;
    assert !AtMostOnce(rs, s);
    if 2 <= |rs| <= 3 && forall x | x in rs :: x == s {
      assert rs[0] in rs && rs[1] in rs;
      assert Kept(rs, s, 0) == [rs[1]] + Kept(rs, s, 2);
      assert Kept(rs, s, 2) == [];
    }
  }

  lemma {:induction false} WithoutThenMissing(rs: seq<Scope>, s: Scope, granted: seq<Scope>)
    ensures Missing(granted, Without(rs, s)) == Missing([s] + granted, rs)
  {
    if rs != [] {
      WithoutThenMissing(rs[1..], s, granted);
      var rest := Without(rs[1..], s);
      assert rs[0] != s ==> ([rs[0]] + rest)[1..] == rest;
      assert [] + rest == rest;
    }
  }

  lemma {:induction false} WithoutIsDuplicateFree(rs: seq<Scope>, s: Scope)
    requires DuplicateFree(rs)
    ensures DuplicateFree(Without(rs, s))
    ensures forall x :: x in Without(rs, s) ==> x in rs
  {
    if rs != [] {
      WithoutIsDuplicateFree(rs[1..], s);
      assert rs[0] !in rs[1..];
      assert forall x | x in rs[1..] :: x in rs;
    }
  }

  lemma {:induction false} MissingNone(rs: seq<Scope>)
    ensures Missing([], rs) == rs
  {
    if rs != [] {
      MissingNone(rs[1..]);
    }
  }

  /** For required scopes without repeats the check finds exactly the missing ones, whatever is granted. */
  lemma {:induction false} CheckFindsMissing(granted: seq<Scope>, rs: seq<Scope>)
    requires DuplicateFree(rs)
    ensures CheckAll(granted, rs) == Some(Missing(granted, rs))
    decreases |granted|
  {
    if granted == [] {
      MissingNone(rs);
    } else {
      SweepIsRightIff(rs, granted[0]);
      WithoutIsDuplicateFree(rs, granted[0]);
      CheckFindsMissing(granted[1..], Without(rs, granted[0]));
      WithoutThenMissing(rs, granted[0], granted[1..]);
      assert [granted[0]] + granted[1..] == granted;
    }
  }

  // Which required lists are handled, whatever is granted

  /** Two or three copies of one scope. */
  predicate AFewCopies(rs: seq<Scope>) {
    2 <= |rs| <= 3 && forall x | x in rs :: x == rs[0]
  }

  lemma {:induction false} CheckAllConcat(g: seq<Scope>, h: seq<Scope>, rs: seq<Scope>)
    requires CheckAll(g, rs).Some?
    ensures CheckAll(g + h, rs) == CheckAll(h, CheckAll(g, rs).value)
    decreases |g|
  {
    hide Sweep;
    if g == [] {
      assert g + h == h;
    } else {
      assert (g + h)[1..] == g[1..] + h;
      CheckAllConcat(g[1..], h, Sweep(rs, g[0]).value);
    }
  }

  /** Granting one scope more. */
  lemma {:induction false} MissingOneMore(granted: seq<Scope>, rs: seq<Scope>, s: Scope)
    ensures Missing(granted + [s], rs) == Without(Missing(granted, rs), s)
  {
    if rs != [] {
      MissingOneMore(granted, rs[1..], s);
      var rest := Missing(granted, rs[1..]);
      assert rs[0] !in granted ==> ([rs[0]] + rest)[1..] == rest;
      assert [] + rest == rest;
    }
  }

  lemma {:induction false} MissingConcat(granted: seq<Scope>, a: seq<Scope>, b: seq<Scope>)
    ensures Missing(granted, a + b) == Missing(granted, a) + Missing(granted, b)
  {
    if a == [] {
      assert a + b == b;
    } else {
      MissingConcat(granted, a[1..], b);
      assert (a + b)[1..] == a[1..] + b;
      var head := if a[0] in granted then [] else [a[0]];
      Associates(head, Missing(granted, a[1..]), Missing(granted, b));
    }
  }

  /** Where only `s` is not granted, every `s` is missing and nothing else. */
  lemma {:induction false} OnlyMissing(granted: seq<Scope>, rs: seq<Scope>, s: Scope)
    requires s !in granted && forall x | x in rs && x != s :: x in granted
    ensures forall x | x in Missing(granted, rs) :: x == s
    ensures s in rs ==> Missing(granted, rs) != []
    ensures !AtMostOnce(rs, s) ==> |Missing(granted, rs)| >= 2
  {
    if rs != [] {
      OnlyMissing(granted, rs[1..], s);
      if !AtMostOnce(rs, s) {
        var i, j :| 0 <= i < j < |rs| && rs[i] == s && rs[j] == s;
        assert rs[1..][j - 1] == s;
        if i > 0 {
          assert rs[1..][i - 1] == s;
          assert !AtMostOnce(rs[1..], s);
        }
      }
    }
  }

  /** All scopes of a list but `s` and `z`. */
  function Others(rs: seq<Scope>, s: Scope, z: Scope): seq<Scope> {
    Without(Without(rs, s), z)
  }

  lemma {:induction false} WithoutKeeps(rs: seq<Scope>, s: Scope)
    ensures forall x :: x in Without(rs, s) <==> x in rs && x != s
  {
    if rs != [] {
      WithoutKeeps(rs[1..], s);
    }
  }

  lemma OthersKeep(rs: seq<Scope>, s: Scope, z: Scope)
    ensures forall x :: x in Others(rs, s, z) <==> x in rs && x != s && x != z
  {
    WithoutKeeps(rs, s);
    WithoutKeeps(Without(rs, s), z);
  }

  lemma MissingLast(granted: seq<Scope>, z: Scope)
    requires z !in granted
    ensures Missing(granted, [z]) == [z]
  {
    assert Missing(granted, [z]) == [z] + Missing(granted, [z][1..]);
  }

  /** A repeated scope and another last one: granting all others and then the repeated one goes wrong at some point. */
  lemma RepeatBeforeLast(rs: seq<Scope>, s: Scope)
    requires !AtMostOnce(rs, s) && rs[|rs| - 1] != s && rs[|rs| - 1] !in rs[..|rs| - 1]
    ensures exists granted :: CheckAll(granted, rs) != Some(Missing(granted, rs))
  {
    hide Others, Missing, Without, CheckAll, Sweep, Deletable;
    var g := Others(rs, s, rs[|rs| - 1]);
    if CheckAll(g, rs) == Some(Missing(g, rs)) {
      LeftOver(rs, s);
      SweepIsRightIff(Missing(g, rs), s);
      CheckAllConcat(g, [s], rs);
      CheckAllOne(Missing(g, rs), s);
      MissingOneMore(g, rs, s);
      assert CheckAll(g + [s], rs) != Some(Missing(g + [s], rs));
    }
  }

  lemma CheckAllOne(rs: seq<Scope>, s: Scope)
    ensures CheckAll([s], rs) == Sweep(rs, s)
  {}

  /** What is left then, should it all go right: the copies of `s`, next to each other, and the last scope. */
  lemma LeftOver(rs: seq<Scope>, s: Scope)
    requires !AtMostOnce(rs, s) && rs[|rs| - 1] != s && rs[|rs| - 1] !in rs[..|rs| - 1]
    ensures !Deletable(Missing(Others(rs, s, rs[|rs| - 1]), rs), s)
  {
    hide Others, Without, Missing;
    var front, z := rs[..|rs| - 1], rs[|rs| - 1];
    var g := Others(rs, s, z);
    OthersKeep(rs, s, z);
    assert rs == front + [z];
    MissingConcat(g, front, [z]);
    MissingLast(g, z);
    var i, j :| 0 <= i < j < |rs| && rs[i] == s && rs[j] == s;
    assert front[i] == s && front[j] == s;
    OnlyMissing(g, front, s);
    var copies := Missing(g, front);
    assert copies[0] in copies && copies[1] in copies;
    var left := Missing(g, rs);
    assert left[0] == s && left[0 + 1] == s && left[|left| - 1] == z;
    assert z in left;
  }

  lemma {:induction false} FewCopiesAreRight(granted: seq<Scope>, rs: seq<Scope>)
    requires AFewCopies(rs)
    ensures CheckAll(granted, rs) == Some(Missing(granted, rs))
    decreases |granted|
  {
    if granted == [] {
      MissingNone(rs);
    } else {
      var g := granted[0];
      SweepIsRightIff(rs, g);
      assert rs[0] in rs;
      WithoutThenMissing(rs, g, granted[1..]);
      assert [g] + granted[1..] == granted;
      if g == rs[0] {
        WithoutLacks(rs, g);
        CheckFindsMissing(granted[1..], []);
      } else {
        WithoutNothing(rs, g);
        FewCopiesAreRight(granted[1..], rs);
      }
    }
  }

  lemma {:induction false} WithoutNothing(rs: seq<Scope>, s: Scope)
    requires s !in rs
    ensures Without(rs, s) == rs
  {
    if rs != [] {
      WithoutNothing(rs[1..], s);
    }
  }

  /** For every other list, some granted scopes give a wrong answer or a panic. */
  lemma RepeatsFail(rs: seq<Scope>)
    requires !DuplicateFree(rs) && !AFewCopies(rs)
    ensures exists granted :: CheckAll(granted, rs) != Some(Missing(granted, rs))
  {
    var z := rs[|rs| - 1];
    if z in rs[..|rs| - 1] {
      SweepIsRightIff(rs, z);
      CheckAllOne(rs, z);
      MissingNone(rs);
      MissingOneMore([], rs, z);
      assert [] + [z] == [z];
      var i :| 0 <= i < |rs| - 1 && rs[..|rs| - 1][i] == z;
      assert rs[i] == z && !AtMostOnce(rs, z);
      assert !Deletable(rs, z) by {
        if forall x | x in rs :: x == z {
          assert rs[0] in rs;
        }
      }
      assert CheckAll([z], rs) != Some(Missing([z], rs));
    } else {
      var i, j :| 0 <= i < j < |rs| && rs[i] == rs[j];
      assert rs[..|rs| - 1][i] == rs[i];
      RepeatBeforeLast(rs, rs[i]);
    }
  }

  /**
   For which required lists the check is right, whatever is granted: those without repeats, and two or
   three copies of one scope.
   */
  lemma CheckIsRightIff(rs: seq<Scope>)
    ensures (forall granted :: CheckAll(granted, rs) == Some(Missing(granted, rs)))
       <==> DuplicateFree(rs) || AFewCopies(rs)
  {
    if DuplicateFree(rs) {
      forall granted ensures CheckAll(granted, rs) == Some(Missing(granted, rs)) {
        CheckFindsMissing(granted, rs);
      }
    } else if AFewCopies(rs) {
      forall granted ensures CheckAll(granted, rs) == Some(Missing(granted, rs)) {
        FewCopiesAreRight(granted, rs);
      }
    } else {
      RepeatsFail(rs);
    }
  }

  /** With repeats it may keep a granted scope, lose one that is missing, or panic. */
  lemma RepeatsGoWrong()
    ensures CheckAll(["x"], ["x", "x", "y"]) == Some(["x", "y"])
    ensures CheckAll(["x"], ["x", "y", "x"]) == Some([])
    ensures CheckAll(["x"], ["y", "x", "x"]) == None
  {
    assert Kept(["x", "x", "y"], "x", 0) == ["x", "y"];
    assert Kept(["x", "y", "x"], "x", 0) == ["y"];
    assert Kept(["y", "x", "x"], "x", 0) == ["y", "x"];
    assert ["x", "y", "x"][..2][0] == "x" && ["y", "x", "x"][..2][1] == "x";
  }
}
