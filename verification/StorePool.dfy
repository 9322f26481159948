/**
 The store with each operation atomic: what a caller may rely on when Get, Remove, addWorker and
 stopWorker do not overlap.
 */
module StorePool {
  import opened Wrappers
  import opened StoreSections

  // The operations as compositions of their lock sections

  function Started(st: StoreState, n: nat): seq<WorkerRef> {
    seq(n, i => st.nextWorker + i)
  }

  function SpawnAll(st: StoreState, q: QueueRef, n: nat): StoreState {
    if n == 0 then st else Spawn(SpawnAll(st, q, n - 1), q)
  }

  function GetOp(cfg: Config, st: StoreState, id: Id): StoreState {
    if id in st.m then st
    else
      var q := st.nextQueue;
      var made := Construct(st, id);
      if cfg.hasConstructor
      then AddStoppers(SpawnAll(made, q, cfg.numWorkers), id, q, Started(made, cfg.numWorkers))
      else AddStoppers(made, id, q, [])
  }

  function RemoveOp(cfg: Config, st: StoreState, id: Id): StoreState {
    if id !in st.stops then Delete(st, id)
    else
      var stop := st.stops[id];
      Delete(CancelWorkers(CancelQueue(cfg, Detach(st, id), stop.queue), set w | w in stop.workers), id)
  }

  function AddWorkerOp(cfg: Config, st: StoreState, id: Id): StoreState {
    if cfg.numWorkers == cfg.maxNumWorkers || !cfg.hasConstructor || id !in st.m then st
    else AddWorkerSection(cfg, st, id, st.m[id])
  }

  function StopWorkerOp(cfg: Config, st: StoreState, id: Id): StoreState {
    if cfg.numWorkers == cfg.maxNumWorkers || id !in st.m || LastStoppable(st, id).None? then st
    else CancelWorkers(DropLast(st, id), {LastStoppable(st, id).value})
  }

  datatype Op = Get(id: Id) | Remove(id: Id) | AddWorker(id: Id) | StopWorker(id: Id)

  function Apply(cfg: Config, st: StoreState, op: Op): StoreState {
    match op
    case Get(id) => GetOp(cfg, st, id)
    case Remove(id) => RemoveOp(cfg, st, id)
    case AddWorker(id) => AddWorkerOp(cfg, st, id)
    case StopWorker(id) => StopWorkerOp(cfg, st, id)
  }

  function ApplyAll(cfg: Config, st: StoreState, ops: seq<Op>): StoreState
    decreases |ops|
  {
    if ops == [] then st else ApplyAll(cfg, Apply(cfg, st, ops[0]), ops[1..])
  }

  // What every run keeps

  ghost predicate Distinct(ws: seq<WorkerRef>) {
    forall i, j | 0 <= i < j < |ws| :: ws[i] != ws[j]
  }

  /** References are given out once. */
  ghost predicate Numbered(st: StoreState) {
    && (forall w | w in st.parent :: w < st.nextWorker && st.parent[w] < st.nextQueue)
    && (forall w | w in st.cancelledWorkers :: w < st.nextWorker)
    && (forall q | q in st.cancelledQueues :: q < st.nextQueue)
    && (forall id | id in st.m :: st.m[id] < st.nextQueue)
    && (forall a, b | a in st.m && b in st.m && st.m[a] == st.m[b] :: a == b)
  }

  /** The list of `id` is its queue's: the stop function, and the contexts of exactly its live workers. */
  ghost predicate ListFits(cfg: Config, st: StoreState, id: Id) {
    && id in st.m && id in st.stops
    && st.stops[id].queue == Some(st.m[id])
    && 1 <= |st.stops[id].workers| <= cfg.maxNumWorkers
    && (cfg.numWorkers == cfg.maxNumWorkers ==> |st.stops[id].workers| == cfg.numWorkers)
    && Distinct(st.stops[id].workers)
    && (forall w :: w in st.stops[id].workers <==> Live(st, w) && st.parent[w] == st.m[id])
  }

  ghost predicate Pool(cfg: Config, st: StoreState) {
    && Numbered(st)
    && (forall id :: id in st.m <==> id in st.stops)
    && (forall id | id in st.m :: ListFits(cfg, st, id))
    && (forall w | Live(st, w) :: exists id :: id in st.m && st.m[id] == st.parent[w])
  }

  lemma {:induction false} SpawnAllEffect(st: StoreState, q: QueueRef, n: nat)
    ensures var end := SpawnAll(st, q, n);
            && end.m == st.m && end.stops == st.stops && end.nextQueue == st.nextQueue
            && end.cancelledQueues == st.cancelledQueues && end.cancelledWorkers == st.cancelledWorkers
            && end.nextWorker == st.nextWorker + n
            && (forall w :: w in end.parent <==> w in st.parent || st.nextWorker <= w < st.nextWorker + n)
            && (forall w | w in end.parent ::
                  end.parent[w] == if st.nextWorker <= w < st.nextWorker + n then q else st.parent[w])
  {
    if n > 0 {
      SpawnAllEffect(st, q, n - 1);
    }
  }

  lemma GetKeepsPool(cfg: Config, st: StoreState, id: Id)
    requires Sized(cfg) && Pool(cfg, st)
    ensures Pool(cfg, GetOp(cfg, st, id))
  {
    if id !in st.m {
      var q, made, next := st.nextQueue, Construct(st, id), GetOp(cfg, st, id);
      SpawnAllEffect(made, q, cfg.numWorkers);
      var ws := Started(made, cfg.numWorkers);
      assert next.stops == st.stops[id := StopList(Some(q), ws)];
      assert forall w :: w in ws <==> made.nextWorker <= w < made.nextWorker + cfg.numWorkers by {
        forall w | made.nextWorker <= w < made.nextWorker + cfg.numWorkers ensures w in ws {
          assert ws[w - made.nextWorker] == w;
        }
      }
      GetKeepsLists(cfg, st, id, next, ws);
    }
  }

  lemma GetKeepsLists(cfg: Config, st: StoreState, id: Id, next: StoreState, ws: seq<WorkerRef>)
    requires Sized(cfg) && Pool(cfg, st) && id !in st.m
    requires ws == Started(st, cfg.numWorkers)
    requires forall w :: w in ws <==> st.nextWorker <= w < st.nextWorker + cfg.numWorkers
    requires next.m == st.m[id := st.nextQueue] && next.stops == st.stops[id := StopList(Some(st.nextQueue), ws)]
    requires next.nextQueue == st.nextQueue + 1 && next.nextWorker == st.nextWorker + cfg.numWorkers
    requires next.cancelledQueues == st.cancelledQueues && next.cancelledWorkers == st.cancelledWorkers
    requires forall w :: w in next.parent <==> w in st.parent || w in ws
    requires forall w | w in next.parent :: next.parent[w] == if w in ws then st.nextQueue else st.parent[w]
    ensures Pool(cfg, next)
  {
    forall w ensures Live(next, w) <==> Live(st, w) || w in ws {}
    forall k | k in next.m ensures ListFits(cfg, next, k) {
      if k != id {
        assert ListFits(cfg, st, k);
      }
    }
    forall w | Live(next, w) ensures exists k :: k in next.m && next.m[k] == next.parent[w] {
      if w in ws {
        assert next.m[id] == next.parent[w];
      } else {
        var k :| k in st.m && st.m[k] == st.parent[w];
        assert next.m[k] == next.parent[w];
      }
    }
  }

  lemma RemoveKeepsPool(cfg: Config, st: StoreState, id: Id)
    requires Sized(cfg) && Pool(cfg, st)
    ensures Pool(cfg, RemoveOp(cfg, st, id))
    ensures id in st.m ==> forall w | w in st.parent && st.parent[w] == st.m[id] :: Cancelled(RemoveOp(cfg, st, id), w)
  {
    var next := RemoveOp(cfg, st, id);
    if id in st.m {
      assert ListFits(cfg, st, id);
      var q, ws := st.m[id], st.stops[id].workers;
      forall w ensures Live(next, w) <==> Live(st, w) && st.parent[w] != q {
        assert w in ws <==> Live(st, w) && st.parent[w] == q;
      }
      forall k | k in next.m ensures ListFits(cfg, next, k) {
        assert ListFits(cfg, st, k) && st.m[k] != q;
      }
      forall w | Live(next, w) ensures exists k :: k in next.m && next.m[k] == next.parent[w] {
        var k :| k in st.m && st.m[k] == st.parent[w];
        assert k != id && next.m[k] == next.parent[w];
      }
    } else {
      assert id !in st.stops && next == st;
    }
  }

  lemma AddWorkerKeepsPool(cfg: Config, st: StoreState, id: Id)
    requires Sized(cfg) && Pool(cfg, st)
    ensures Pool(cfg, AddWorkerOp(cfg, st, id))
  {
    var next := AddWorkerOp(cfg, st, id);
    if next != st {
      assert ListFits(cfg, st, id);
      var n := st.nextWorker;
      assert n !in st.cancelledWorkers && st.m[id] !in st.cancelledQueues by {
        assert Live(st, st.stops[id].workers[0]);
      }
      forall w ensures Live(next, w) <==> Live(st, w) || w == n {}
      forall k | k in next.m ensures ListFits(cfg, next, k) {
        assert ListFits(cfg, st, k);
        if k == id {
          assert forall w :: w in next.stops[id].workers <==> w in st.stops[id].workers || w == n;
          assert n !in st.stops[id].workers;
        } else {
          assert st.m[k] != st.m[id];
        }
      }
      forall w | Live(next, w) ensures exists k :: k in next.m && next.m[k] == next.parent[w] {
        if w == n {
          assert next.m[id] == next.parent[w];
        } else {
          var k :| k in st.m && st.m[k] == st.parent[w];
          assert next.m[k] == next.parent[w];
        }
      }
    }
  }

  lemma StopWorkerKeepsPool(cfg: Config, st: StoreState, id: Id)
    requires Sized(cfg) && Pool(cfg, st)
    ensures Pool(cfg, StopWorkerOp(cfg, st, id))
  {
    var next := StopWorkerOp(cfg, st, id);
    if next != st {
      assert ListFits(cfg, st, id);
      var ws, rest := st.stops[id].workers, next.stops[id].workers;
      var last := ws[|ws| - 1];
      assert ws == rest + [last];
      assert last in ws && Live(st, last);
      forall w ensures Live(next, w) <==> Live(st, w) && w != last {}
      forall k | k in next.m ensures ListFits(cfg, next, k) {
        assert ListFits(cfg, st, k);
        if k == id {
          assert forall w :: w in rest <==> w in ws && w != last;
        } else {
          assert st.m[k] != st.m[id];
        }
      }
      forall w | Live(next, w) ensures exists k :: k in next.m && next.m[k] == next.parent[w] {
        var k :| k in st.m && st.m[k] == st.parent[w];
        assert next.m[k] == next.parent[w];
      }
    }
  }

  lemma ApplyKeepsPool(cfg: Config, st: StoreState, op: Op)
    requires Sized(cfg) && Pool(cfg, st)
    ensures Pool(cfg, Apply(cfg, st, op))
  {
    match op
    case Get(id) => GetKeepsPool(cfg, st, id);
    case Remove(id) => RemoveKeepsPool(cfg, st, id);
    case AddWorker(id) => AddWorkerKeepsPool(cfg, st, id);
    case StopWorker(id) => StopWorkerKeepsPool(cfg, st, id);
  }

  /**
   Any operations, from the empty store on: an id is stored iff it has a stop list, and that list
   holds between one and maxNumWorkers distinct contexts, exactly those of the queue's live workers.
   */
  lemma {:induction false} EveryRunKeepsPool(cfg: Config, st: StoreState, ops: seq<Op>)
    requires Sized(cfg) && Pool(cfg, st)
    ensures Pool(cfg, ApplyAll(cfg, st, ops))
    decreases |ops|
  {
    if ops != [] {
      ApplyKeepsPool(cfg, st, ops[0]);
      EveryRunKeepsPool(cfg, Apply(cfg, st, ops[0]), ops[1..]);
    }
  }

  lemma EmptyPool(cfg: Config)
    ensures Pool(cfg, EMPTY)
  {}

  /** So every store that was empty once has a pool. */
  lemma EveryStoreIsPool(cfg: Config, ops: seq<Op>)
    requires Sized(cfg)
    ensures Pool(cfg, ApplyAll(cfg, EMPTY, ops))
  {
    EmptyPool(cfg);
    EveryRunKeepsPool(cfg, EMPTY, ops);
  }

  /** Slots add up and are never negative, and the active ones are the queue's live workers. */
  lemma SlotsAddUp(cfg: Config, st: StoreState, id: Id)
    requires Sized(cfg) && Pool(cfg, st)
    ensures var (left, active) := ScalingInfo(cfg, st, id);
            && left + active == cfg.maxNumWorkers && left >= 0
            && (id in st.m ==> active == |set w | w in st.parent && Live(st, w) && st.parent[w] == st.m[id]|)
  {
    if id in st.m {
      assert ListFits(cfg, st, id);
      var ws := st.stops[id].workers;
      DistinctCount(ws);
      assert (set w | w in st.parent && Live(st, w) && st.parent[w] == st.m[id]) == Refs(ws);
    }
  }

  function Refs(ws: seq<WorkerRef>): set<WorkerRef> {
    set w | w in ws
  }

  lemma {:induction false} DistinctCount(ws: seq<WorkerRef>)
    requires Distinct(ws)
    ensures |Refs(ws)| == |ws|
  {
    if ws == [] {
      assert Refs(ws) == {};
    } else {
      DistinctCount(ws[1..]);
      assert Refs(ws) == {ws[0]} + Refs(ws[1..]);
    }
  }

  // What each operation does to the live workers

  /** The live workers of a queue. */
  function LiveOf(st: StoreState, q: QueueRef): set<WorkerRef> {
    set w | w in st.parent && Live(st, w) && st.parent[w] == q
  }

  lemma ListedAreLive(cfg: Config, st: StoreState, id: Id)
    requires Pool(cfg, st) && id in st.m
    ensures id in st.stops && LiveOf(st, st.m[id]) == Refs(st.stops[id].workers)
    ensures |LiveOf(st, st.m[id])| == |st.stops[id].workers|
  {
    assert ListFits(cfg, st, id);
    DistinctCount(st.stops[id].workers);
    assert LiveOf(st, st.m[id]) == Refs(st.stops[id].workers);
  }

  /** Get of a stored id changes nothing; of any other it stores a new queue with numWorkers live workers. */
  lemma GetStarts(cfg: Config, st: StoreState, id: Id)
    requires Sized(cfg) && Pool(cfg, st)
    ensures var next := GetOp(cfg, st, id);
            if id in st.m then next == st
            else id in next.m && (forall w | w in st.parent :: st.parent[w] != next.m[id])
                 && |LiveOf(next, next.m[id])| == cfg.numWorkers
  {
    if id !in st.m {
      var next := GetOp(cfg, st, id);
      GetKeepsPool(cfg, st, id);
      SpawnAllEffect(Construct(st, id), st.nextQueue, cfg.numWorkers);
      ListedAreLive(cfg, next, id);
      assert |next.stops[id].workers| == cfg.numWorkers;
    }
  }

  /** Remove forgets the id and leaves its queue no live worker. */
  lemma RemoveRemoves(cfg: Config, st: StoreState, id: Id)
    requires Sized(cfg) && Pool(cfg, st)
    ensures var next := RemoveOp(cfg, st, id);
            id !in next.m && (id in st.m ==> LiveOf(next, st.m[id]) == {})
  {
    RemoveKeepsPool(cfg, st, id);
    var next := RemoveOp(cfg, st, id);
    if id in st.m {
      hide RemoveOp;
      assert forall w | w in next.parent && next.parent[w] == st.m[id] :: !Live(next, w);
    }
  }

  /** addWorker, where stores scale: one more live worker, not started before, iff there were fewer than the maximum. */
  lemma AddWorkerAdds(cfg: Config, st: StoreState, id: Id)
    requires Sized(cfg) && Pool(cfg, st) && id in st.m && cfg.numWorkers != cfg.maxNumWorkers
    ensures var next, q := AddWorkerOp(cfg, st, id), st.m[id];
            if |LiveOf(st, q)| < cfg.maxNumWorkers
            then next.m == st.m && exists w :: w !in st.parent && LiveOf(next, q) == LiveOf(st, q) + {w}
            else next == st
  {
    ListedAreLive(cfg, st, id);
    var next, q, w := AddWorkerOp(cfg, st, id), st.m[id], st.nextWorker;
    if |LiveOf(st, q)| < cfg.maxNumWorkers {
      assert w !in st.parent && w !in st.cancelledWorkers && q !in st.cancelledQueues by {
        assert ListFits(cfg, st, id);
        var v := st.stops[id].workers[0];
        assert Live(st, v) && st.parent[v] == q;
      }
      assert next.parent == st.parent[w := q];
      assert LiveOf(next, q) == LiveOf(st, q) + {w};
    }
  }

  /** stopWorker, where stores scale: one worker is no longer live iff there were two or more. */
  lemma StopWorkerStops(cfg: Config, st: StoreState, id: Id)
    requires Sized(cfg) && Pool(cfg, st) && id in st.m && cfg.numWorkers != cfg.maxNumWorkers
    ensures var next, q := StopWorkerOp(cfg, st, id), st.m[id];
            if |LiveOf(st, q)| >= 2
            then next.m == st.m && exists w :: w in LiveOf(st, q) && LiveOf(next, q) == LiveOf(st, q) - {w}
            else next == st
  {
    ListedAreLive(cfg, st, id);
    var next, q, ws := StopWorkerOp(cfg, st, id), st.m[id], st.stops[id].workers;
    if |LiveOf(st, q)| >= 2 {
      var w := ws[|ws| - 1];
      assert w in Refs(ws) && next.cancelledWorkers == st.cancelledWorkers + {w};
      assert LiveOf(next, q) == LiveOf(st, q) - {w};
    }
  }

  /** Where stores do not scale, and for ids that are not stored, addWorker and stopWorker do nothing. */
  lemma OutsideNothingChanges(cfg: Config, st: StoreState, id: Id)
    ensures cfg.numWorkers == cfg.maxNumWorkers || id !in st.m
            ==> AddWorkerOp(cfg, st, id) == StopWorkerOp(cfg, st, id) == st
  {}

  /** Without a worker constructor a Get stores its queue, and nothing starts workers. */
  lemma NoConstructorNoWorkers(cfg: Config, st: StoreState, op: Op)
    requires !cfg.hasConstructor
    ensures Apply(cfg, st, op).parent == st.parent
    ensures op.Get? && op.id !in st.m ==> op.id in GetOp(cfg, st, op.id).m && op.id in GetOp(cfg, st, op.id).stops
  {}

  /** No operation touches another id: its queue, its list and its live workers stay. */
  lemma OthersAreLeftAlone(cfg: Config, st: StoreState, op: Op, k: Id)
    requires Sized(cfg) && Pool(cfg, st) && k != op.id
    ensures var next := Apply(cfg, st, op);
            && (k in next.m <==> k in st.m) && (k in next.stops <==> k in st.stops)
            && (k in st.m ==> next.m[k] == st.m[k] && LiveOf(next, st.m[k]) == LiveOf(st, st.m[k]))
            && (k in st.stops ==> next.stops[k] == st.stops[k])
  {
    var next := Apply(cfg, st, op);
    if op.Get? {
      SpawnAllEffect(Construct(st, op.id), st.nextQueue, cfg.numWorkers);
    }
    ApplyKeepsPool(cfg, st, op);
    hide Pool, Apply;
    if k in st.m {
      ListedAreLive(cfg, st, k);
      assert k in next.m && k in next.stops && next.stops[k] == st.stops[k] && next.m[k] == st.m[k];
      ListedAreLive(cfg, next, k);
    }
  }

  /** Exactly the stored ids have lists, and none is longer than the maximum. */
  ghost predicate Short(cfg: Config, st: StoreState) {
    st.stops.Keys == st.m.Keys && forall id | id in st.stops :: |st.stops[id].workers| <= cfg.maxNumWorkers
  }

  lemma ApplyKeepsShort(cfg: Config, st: StoreState, op: Op)
    requires Short(cfg, st) && (!cfg.hasConstructor || cfg.numWorkers <= cfg.maxNumWorkers)
    ensures Short(cfg, Apply(cfg, st, op))
  {
    if op.Get? {
      SpawnAllEffect(Construct(st, op.id), st.nextQueue, cfg.numWorkers);
    }
  }

  lemma {:induction false} RunKeepsShort(cfg: Config, st: StoreState, ops: seq<Op>)
    requires Short(cfg, st) && (!cfg.hasConstructor || cfg.numWorkers <= cfg.maxNumWorkers)
    ensures Short(cfg, ApplyAll(cfg, st, ops))
    decreases |ops|
  {
    if ops != [] {
      ApplyKeepsShort(cfg, st, ops[0]);
      RunKeepsShort(cfg, Apply(cfg, st, ops[0]), ops[1..]);
    }
  }

  /**
   Which configurations never report a negative number of free slots. The defaults of a store with a
   worker constructor, one worker and maximum zero, are not among them.
   */
  lemma FreeSlotsNeverNegativeIff(cfg: Config)
    ensures (forall ops, id :: ScalingInfo(cfg, ApplyAll(cfg, EMPTY, ops), id).0 >= 0)
       <==> !cfg.hasConstructor || cfg.numWorkers <= cfg.maxNumWorkers
  {
    if !cfg.hasConstructor || cfg.numWorkers <= cfg.maxNumWorkers {
      forall ops, id ensures ScalingInfo(cfg, ApplyAll(cfg, EMPTY, ops), id).0 >= 0 {
        RunKeepsShort(cfg, EMPTY, ops);
      }
    } else {
      var ops := [Get(0)];
      SpawnAllEffect(Construct(EMPTY, 0), 0, cfg.numWorkers);
      assert ApplyAll(cfg, EMPTY, ops) == GetOp(cfg, EMPTY, 0);
      assert ScalingInfo(cfg, ApplyAll(cfg, EMPTY, ops), 0).0 < 0;
    }
  }

  // The store object

  /** The store's maps, and the contexts it has handed out. */
  class Store {
    const cfg: Config
    var m: map<Id, QueueRef>
    var queueStopMap: map<Id, StopList>
    var parent: map<WorkerRef, QueueRef>
    var cancelledQueues: set<QueueRef>
    var cancelledWorkers: set<WorkerRef>
    var nextQueue: QueueRef
    var nextWorker: WorkerRef

    ghost function State(): StoreState
      reads this
    {
      StoreState(m, queueStopMap, parent, cancelledQueues, cancelledWorkers, nextQueue, nextWorker)
    }

    constructor (cfg: Config)
      ensures this.cfg == cfg && State() == EMPTY && Pool(cfg, State())
    {
      this.cfg := cfg;
      m, queueStopMap, parent, cancelledQueues, cancelledWorkers := map[], map[], map[], {}, {};
      nextQueue, nextWorker := 0, 0;
    }

    method Get(id: Id) returns (q: QueueRef)
      modifies this
      ensures State() == GetOp(cfg, old(State()), id)
      ensures Sized(cfg) && Pool(cfg, old(State())) ==> Pool(cfg, State())
      ensures id in m && q == m[id]
    {
      if Sized(cfg) && Pool(cfg, State()) {
        GetKeepsPool(cfg, State(), id);
      }
      if id in m {
        return m[id];
      }
      q := nextQueue;
      nextQueue := nextQueue + 1;
      m := m[id := q];
      SpawnWorkers(id, q);
      SpawnAllEffect(Construct(old(State()), id), q, cfg.numWorkers);
    }

    method SpawnWorkers(id: Id, q: QueueRef)
      modifies this
      ensures State() == if cfg.hasConstructor
                         then AddStoppers(SpawnAll(old(State()), q, cfg.numWorkers), id, q,
                                          Started(old(State()), cfg.numWorkers))
                         else AddStoppers(old(State()), id, q, [])
    {
      if !cfg.hasConstructor {
        AddStoppersTo(id, q, []);
        return;
      }
      var stoppers := new WorkerRef[cfg.numWorkers];
      var i := 0;
      while i < cfg.numWorkers
        invariant 0 <= i <= cfg.numWorkers
        invariant State() == SpawnAll(old(State()), q, i)
        invariant nextWorker == old(nextWorker) + i
        invariant forall k | 0 <= k < i :: stoppers[k] == old(nextWorker) + k
      {
        parent := parent[nextWorker := q];
        stoppers[i] := nextWorker;
        nextWorker := nextWorker + 1;
        i := i + 1;
      }
      assert stoppers[..] == Started(old(State()), cfg.numWorkers);
      AddStoppersTo(id, q, stoppers[..]);
    }

    method AddStoppersTo(id: Id, q: QueueRef, stopFuncs: seq<WorkerRef>)
      modifies this
      ensures State() == AddStoppers(old(State()), id, q, stopFuncs)
    {
      if id in queueStopMap {
        var stops := queueStopMap[id];
        if |stopFuncs| > 0 {
          queueStopMap := queueStopMap[id := queueStopMap[id].(workers := stops.workers + stopFuncs)];
        }
        queueStopMap := queueStopMap[id := queueStopMap[id].(queue := Some(q))];
        return;
      }
      queueStopMap := queueStopMap[id := StopList(Some(q), stopFuncs)];
    }

    method Remove(id: Id)
      modifies this
      ensures State() == RemoveOp(cfg, old(State()), id)
      ensures Sized(cfg) && Pool(cfg, old(State())) ==> Pool(cfg, State())
      ensures Sized(cfg) && Pool(cfg, old(State())) && id in old(m) ==>
                forall w | w in parent && parent[w] == old(m[id]) :: Cancelled(State(), w)
    {
      if Sized(cfg) && Pool(cfg, State()) {
        RemoveKeepsPool(cfg, State(), id);
      }
      InvokeStoppers(id);
      m := m - {id};
    }

    method InvokeStoppers(id: Id)
      modifies this
      ensures Delete(State(), id) == RemoveOp(cfg, old(State()), id) && m == old(m)
    {
      if id !in queueStopMap {
        return;
      }
      var stops := queueStopMap[id];
      queueStopMap := queueStopMap - {id};
      if stops.queue.Some? && cfg.stopCancels {
        cancelledQueues := cancelledQueues + {stops.queue.value};
      }
      var i := 0;
      ghost var before := cancelledWorkers;
      ghost var detached := CancelQueue(cfg, Detach(old(State()), id), stops.queue);
      while i < |stops.workers|
        invariant 0 <= i <= |stops.workers|
        invariant cancelledWorkers == before + set w | w in stops.workers[..i]
        invariant State() == detached.(cancelledWorkers := cancelledWorkers)
      {
        assert stops.workers[..i + 1] == stops.workers[..i] + [stops.workers[i]];
        cancelledWorkers := cancelledWorkers + {stops.workers[i]};
        i := i + 1;
      }
      assert stops.workers[..i] == stops.workers;
      assert State() == CancelWorkers(detached, set w | w in stops.workers);
    }

    method AddWorker(id: Id)
      modifies this
      ensures State() == AddWorkerOp(cfg, old(State()), id)
      ensures Sized(cfg) && Pool(cfg, old(State())) ==> Pool(cfg, State())
    {
      if Sized(cfg) && Pool(cfg, State()) {
        AddWorkerKeepsPool(cfg, State(), id);
      }
      if cfg.numWorkers == cfg.maxNumWorkers {
        return;
      }
      if !cfg.hasConstructor {
        return;
      }
      if id !in m {
        return;
      }
      if id !in queueStopMap {
        parent := parent[nextWorker := m[id]];
        queueStopMap := queueStopMap[id := StopList(None, [nextWorker])];
        nextWorker := nextWorker + 1;
        return;
      }
      if |queueStopMap[id].workers| >= cfg.maxNumWorkers {
        return;
      }
      parent := parent[nextWorker := m[id]];
      queueStopMap := queueStopMap[id := queueStopMap[id].(workers := queueStopMap[id].workers + [nextWorker])];
      nextWorker := nextWorker + 1;
    }

    method StopWorker(id: Id)
      modifies this
      ensures State() == StopWorkerOp(cfg, old(State()), id)
      ensures Sized(cfg) && Pool(cfg, old(State())) ==> Pool(cfg, State())
    {
      if Sized(cfg) && Pool(cfg, State()) {
        StopWorkerKeepsPool(cfg, State(), id);
      }
      if cfg.numWorkers == cfg.maxNumWorkers || id !in m || id !in queueStopMap {
        return;
      }
      var stops := queueStopMap[id];
      if |stops.workers| <= 1 {
        return;
      }
      var cancel := stops.workers[|stops.workers| - 1];
      queueStopMap := queueStopMap[id := stops.(workers := stops.workers[..|stops.workers| - 1])];
      cancelledWorkers := cancelledWorkers + {cancel};
    }

    method SlotInfo(id: Id) returns (slotsLeft: int, slotsActive: int)
      ensures (slotsLeft, slotsActive) == ScalingInfo(cfg, State(), id)
      ensures Sized(cfg) && Pool(cfg, State()) ==> slotsLeft + slotsActive == cfg.maxNumWorkers && slotsLeft >= 0
    {
      if Sized(cfg) && Pool(cfg, State()) {
        SlotsAddUp(cfg, State(), id);
      }
      if cfg.numWorkers == cfg.maxNumWorkers {
        return 0, cfg.numWorkers;
      }
      if id !in queueStopMap {
        return cfg.maxNumWorkers, 0;
      }
      var active := |queueStopMap[id].workers|;
      return cfg.maxNumWorkers - active, active;
    }
  }
}
