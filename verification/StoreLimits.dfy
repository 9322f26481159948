/**
 Which configurations of the store keep what its operations promise, when their lock sections interleave:
 the length of the lists, that Remove is final, and that stopWorker leaves a worker.
 */
module StoreLimits {
  import opened Wrappers
  import opened StoreSections
  import opened StorePool
  import opened StoreRaces

  // Held-up addWorkers

  /** addWorker looks its queue up and is then held up. */
  lemma LoadAlone(cfg: Config, r: Race, t: ThreadId, id: Id)
    requires t !in r.threads && cfg.numWorkers != cfg.maxNumWorkers && cfg.hasConstructor && id in r.st.m
    ensures Exec(cfg, r, Alone(t, AddStart(id), 1)) == Some(Becomes(r, t, AddLoaded(id, r.st.m[id])))
  {
    hide Exec, Goes;
    ExecAlone(cfg, r, t, AddStart(id), 1);
    var r1 := Becomes(r, t, AddStart(id));
    ExecGoes(cfg, r1, t, 1);
    GoesNowhere(cfg, Section(cfg, r1, t), t);
    assert Section(cfg, r1, t) == Becomes(r, t, AddLoaded(id, r.st.m[id]));
  }

  lemma AddLate(cfg: Config, r: Race, t: ThreadId, id: Id, q: QueueRef)
    requires t in r.threads && r.threads[t] == AddLoaded(id, q)
    ensures Exec(cfg, r, Goes(t, 1)) == Some(Becomes(r, t, Returned).(st := AddWorkerSection(cfg, r.st, id, q)))
  {
    ExecGoes(cfg, r, t, 1);
    GoesNowhere(cfg, Section(cfg, r, t), t);
  }

  /** Get; an addWorker that gets as far as its lookup; Remove; the rest of the addWorker. */
  function LateAddRun(cfg: Config): seq<Step> {
    Alone(0, GetStart(0), 4 + cfg.numWorkers) + Alone(1, AddStart(0), 1) + Alone(2, RemoveWaiting(0), 5) + Goes(1, 1)
  }

  function AfterGet(cfg: Config): Race {
    Becomes(START, 0, Returned).(st := GetOp(cfg, EMPTY, 0))
  }

  lemma FirstGet(cfg: Config)
    requires cfg.hasConstructor
    ensures Exec(cfg, START, Alone(0, GetStart(0), 4 + cfg.numWorkers)) == Some(AfterGet(cfg))
    ensures AfterGet(cfg).st.m == map[0 := 0] && AfterGet(cfg).st.stops.Keys == {0}
  {
    hide Exec, Alone;
    GetAlone(cfg, START, 0, 0);
    SpawnAllEffect(Construct(EMPTY, 0), 0, cfg.numWorkers);
  }

  function AfterRemove(cfg: Config, r: Race, t: ThreadId): Race {
    Becomes(r, t, Returned).(st := RemoveOp(cfg, r.st, 0), removed := r.removed + {0})
  }

  lemma LateAddRuns(cfg: Config)
    requires cfg.numWorkers != cfg.maxNumWorkers && cfg.hasConstructor
    ensures var r3 := AfterRemove(cfg, Becomes(AfterGet(cfg), 1, AddLoaded(0, 0)), 2);
            var end := Becomes(r3, 1, Returned).(st := AddWorkerSection(cfg, r3.st, 0, 0));
            Exec(cfg, START, LateAddRun(cfg)) == Some(end)
  {
    hide Exec, Alone, Goes, GetOp, RemoveOp, AddWorkerSection;
    FirstGet(cfg);
    var r1 := AfterGet(cfg);
    var r2 := Becomes(r1, 1, AddLoaded(0, 0));
    var r3 := AfterRemove(cfg, r2, 2);
    LoadAlone(cfg, r1, 1, 0);
    RemoveAlone(cfg, r2, 2, 0);
    AddLate(cfg, r3, 1, 0, 0);
    var steps1 := Alone(0, GetStart(0), 4 + cfg.numWorkers);
    var steps2 := Alone(1, AddStart(0), 1);
    var steps3 := Alone(2, RemoveWaiting(0), 5);
    ExecConcat(cfg, START, steps1, steps2);
    ExecConcat(cfg, START, steps1 + steps2, steps3);
    ExecConcat(cfg, START, steps1 + steps2 + steps3, Goes(1, 1));
  }

  /** If stopping a queue does not cancel its context, that worker outlives the Remove. */
  lemma LateWorkerSurvives(cfg: Config)
    requires cfg.numWorkers != cfg.maxNumWorkers && cfg.hasConstructor && !cfg.stopCancels
    ensures Exec(cfg, START, LateAddRun(cfg)).Some?
    ensures var r := Exec(cfg, START, LateAddRun(cfg)).value;
            var w := cfg.numWorkers;
            w in r.st.parent && r.st.parent[w] in r.removed && !Cancelled(r.st, w)
  {
    LateAddRuns(cfg);
    LateWorkerIsLive(cfg, AfterGet(cfg).st);
    hide Exec, LateAddRun, GetOp, RemoveOp, AddWorkerSection;
  }

  lemma LateWorkerIsLive(cfg: Config, st: StoreState)
    requires cfg.hasConstructor && !cfg.stopCancels && st == GetOp(cfg, EMPTY, 0)
    ensures st.m == map[0 := 0]
    ensures var end := AddWorkerSection(cfg, RemoveOp(cfg, st, 0), 0, 0);
            cfg.numWorkers in end.parent && end.parent[cfg.numWorkers] == 0 && !Cancelled(end, cfg.numWorkers)
  {
    var n := cfg.numWorkers;
    var made := Construct(EMPTY, 0);
    SpawnAllEffect(made, 0, n);
    assert st.stops[0].workers == Started(made, n);
    assert n !in st.stops[0].workers;
    assert st.nextWorker == n;
  }

  // The bound on the lists is reached

  /** addWorkers 1 to n look their queue up and are held up. */
  function Loads(n: nat): seq<Step> {
    if n == 0 then [] else Loads(n - 1) + Alone(n, AddStart(0), 1)
  }

  /** addWorkers 1 to n finish. */
  function Adds(n: nat): seq<Step> {
    if n == 0 then [] else Adds(n - 1) + Goes(n, 1)
  }

  ghost predicate Loaded(r: Race, n: nat, q: QueueRef) {
    forall t | 1 <= t <= n :: t in r.threads && r.threads[t] == AddLoaded(0, q)
  }

  lemma {:induction false} LoadsRun(cfg: Config, r: Race, n: nat)
    requires cfg.numWorkers != cfg.maxNumWorkers && cfg.hasConstructor && 0 in r.st.m
    requires forall t | 1 <= t <= n :: t !in r.threads
    ensures Exec(cfg, r, Loads(n)).Some?
    ensures var end := Exec(cfg, r, Loads(n)).value;
            && end.st == r.st && end.lock == r.lock && Loaded(end, n, r.st.m[0])
            && (forall t :: t in end.threads <==> t in r.threads || 1 <= t <= n)
  {
    hide Alone, Goes;
    if n > 0 {
      LoadsRun(cfg, r, n - 1);
      var before := Exec(cfg, r, Loads(n - 1)).value;
      LoadAlone(cfg, before, n, 0);
      ExecConcat(cfg, r, Loads(n - 1), Alone(n, AddStart(0), 1));
    }
  }

  lemma {:induction false} AddsRun(cfg: Config, r: Race, n: nat, q: QueueRef)
    requires 0 !in r.st.stops && n <= Cap(cfg) && Loaded(r, n, q)
    ensures Exec(cfg, r, Adds(n)).Some?
    ensures var end := Exec(cfg, r, Adds(n)).value;
            && end.st.m == r.st.m && end.lock == r.lock && end.threads.Keys == r.threads.Keys
            && (if n == 0 then end == r else 0 in end.st.stops && |end.st.stops[0].workers| == n)
            && (forall t | t in r.threads && t > n :: end.threads[t] == r.threads[t])
  {
    hide Goes;
    if n > 0 {
      AddsRun(cfg, r, n - 1, q);
      var before := Exec(cfg, r, Adds(n - 1)).value;
      AddLate(cfg, before, n, 0, q);
      ExecConcat(cfg, r, Adds(n - 1), Goes(n, 1));
    }
  }

  /** Get; as many addWorkers as fill a list look their queue up; Remove; they finish, on a list of their own; Get. */
  function CrowdRun(cfg: Config): seq<Step> {
    var cap := Cap(cfg);
    Alone(0, GetStart(0), 4 + cfg.numWorkers) + Loads(cap) + Alone(cap + 1, RemoveWaiting(0), 5) + Adds(cap)
    + Alone(cap + 2, GetStart(0), 4 + cfg.numWorkers)
  }

  /** The bound is the best there is: for every store that starts workers and scales, some run reaches it. */
  lemma BoundIsReached(cfg: Config)
    requires cfg.numWorkers != cfg.maxNumWorkers && cfg.hasConstructor
    ensures Exec(cfg, START, CrowdRun(cfg)).Some?
    ensures var r := Exec(cfg, START, CrowdRun(cfg)).value;
            0 in r.st.stops && |r.st.stops[0].workers| == Cap(cfg) + cfg.numWorkers
  {
    hide Exec, Alone, Goes, Loads, Adds, GetOp;
    var cap := Cap(cfg);
    FirstGet(cfg);
    var r1 := AfterGet(cfg);
    LoadsRun(cfg, r1, cap);
    var r2 := Exec(cfg, r1, Loads(cap)).value;
    RemoveAlone(cfg, r2, cap + 1, 0);
    var r3 := AfterRemove(cfg, r2, cap + 1);
    AddsRun(cfg, r3, cap, 0);
    var r4 := Exec(cfg, r3, Adds(cap)).value;
    GetAlone(cfg, r4, cap + 2, 0);
    GetJoins(cfg, r4.st);
    var steps1 := Alone(0, GetStart(0), 4 + cfg.numWorkers);
    var steps2, steps3 := Loads(cap), Alone(cap + 1, RemoveWaiting(0), 5);
    ExecConcat(cfg, START, steps1, steps2);
    ExecConcat(cfg, START, steps1 + steps2, steps3);
    ExecConcat(cfg, START, steps1 + steps2 + steps3, Adds(cap));
    ExecConcat(cfg, START, steps1 + steps2 + steps3 + Adds(cap), Alone(cap + 2, GetStart(0), 4 + cfg.numWorkers));
  }

  /** A Get that finds a list adds its workers to it. */
  lemma GetJoins(cfg: Config, st: StoreState)
    requires cfg.hasConstructor && 0 !in st.m && 0 in st.stops
    ensures 0 in GetOp(cfg, st, 0).stops
    ensures |GetOp(cfg, st, 0).stops[0].workers| == |st.stops[0].workers| + cfg.numWorkers
  {
    SpawnAllEffect(Construct(st, 0), st.nextQueue, cfg.numWorkers);
  }

  // How long the lists get

  /** Nobody adds workers late, and every list is a Get's. */
  ghost predicate Tight(cfg: Config, r: Race) {
    && (forall t | t in r.threads :: !r.threads[t].AddLoaded?)
    && (forall id | id in r.st.stops :: r.st.stops[id].queue.Some? && |r.st.stops[id].workers| <= ToStart(cfg))
  }

  lemma StepTight(cfg: Config, r: Race, s: Step)
    requires !cfg.hasConstructor || cfg.numWorkers == cfg.maxNumWorkers
    requires Enabled(r, s) && Safe(cfg, r) && Tight(cfg, r)
    ensures Tight(cfg, Next(cfg, r, s))
  {
    hide ListsFit;
    if s.Go? && r.threads[s.t].GetMade? {
      assert Holder(r) == Some(r.threads[s.t]);
      HolderKnows(cfg, r.st, r.threads[s.t]);
    }
  }

  /** A Get that is about to register its workers finds no list of a Get's. */
  lemma HolderKnows(cfg: Config, st: StoreState, thread: Thread)
    requires ListsFit(cfg, st, Some(thread)) && thread.GetMade?
    ensures Loose(cfg, st, thread.id) && |thread.mine| <= ToStart(cfg)
    ensures thread.id in st.m && st.m[thread.id] == thread.q
  {}

  lemma {:induction false} RunTight(cfg: Config, r: Race, steps: seq<Step>)
    requires !cfg.hasConstructor || cfg.numWorkers == cfg.maxNumWorkers
    requires Safe(cfg, r) && Tight(cfg, r) && Exec(cfg, r, steps).Some?
    ensures Tight(cfg, Exec(cfg, r, steps).value)
    decreases |steps|
  {
    if steps != [] {
      StepSafe(cfg, r, steps[0]);
      StepTight(cfg, r, steps[0]);
      hide Next, Enabled, Safe, Tight;
      RunTight(cfg, Next(cfg, r, steps[0]), steps[1..]);
    }
  }

  /** Where a Get starts nothing, all workers are addWorker's. */
  ghost predicate Lean(cfg: Config, r: Race) {
    && (forall t | t in r.threads && r.threads[t].GetMade? :: r.threads[t].mine == [])
    && (forall id | id in r.st.stops :: |r.st.stops[id].workers| <= Cap(cfg))
  }

  lemma StepLean(cfg: Config, r: Race, s: Step)
    requires cfg.numWorkers == 0 && Enabled(r, s) && Lean(cfg, r)
    ensures Lean(cfg, Next(cfg, r, s))
  {}

  lemma {:induction false} RunLean(cfg: Config, r: Race, steps: seq<Step>)
    requires cfg.numWorkers == 0 && Lean(cfg, r) && Exec(cfg, r, steps).Some?
    ensures Lean(cfg, Exec(cfg, r, steps).value)
    decreases |steps|
  {
    if steps != [] {
      StepLean(cfg, r, steps[0]);
      hide Next, Enabled, Lean;
      RunLean(cfg, Next(cfg, r, steps[0]), steps[1..]);
    }
  }

  ghost predicate Within(r: Race, bound: nat) {
    forall id | id in r.st.stops :: |r.st.stops[id].workers| <= bound
  }

  lemma MaximumIsKept(cfg: Config, steps: seq<Step>)
    requires !cfg.hasConstructor || cfg.numWorkers == cfg.maxNumWorkers || cfg.numWorkers == 0
    requires Exec(cfg, START, steps).Some?
    ensures Within(Exec(cfg, START, steps).value, cfg.maxNumWorkers)
  {
    if !cfg.hasConstructor || cfg.numWorkers == cfg.maxNumWorkers {
      RunTight(cfg, START, steps);
    } else {
      RunLean(cfg, START, steps);
    }
  }

  /**
   Which stores never exceed maxNumWorkers, however their sections interleave: those that start no
   workers at all, those that do not scale, and those whose Get starts none.
   */
  lemma MaximumIsKeptIff(cfg: Config)
    ensures (forall steps | Exec(cfg, START, steps).Some? :: Within(Exec(cfg, START, steps).value, cfg.maxNumWorkers))
       <==> !cfg.hasConstructor || cfg.numWorkers == cfg.maxNumWorkers || cfg.numWorkers == 0
  {
    if !cfg.hasConstructor || cfg.numWorkers == cfg.maxNumWorkers || cfg.numWorkers == 0 {
      forall steps | Exec(cfg, START, steps).Some? ensures Within(Exec(cfg, START, steps).value, cfg.maxNumWorkers) {
        MaximumIsKept(cfg, steps);
      }
    } else {
      BoundIsReached(cfg);
      assert !Within(Exec(cfg, START, CrowdRun(cfg)).value, cfg.maxNumWorkers);
    }
  }

  /** Which stores keep to maxNumWorkers + numWorkers: all but those that start workers with a maximum of zero. */
  lemma SumIsKeptIff(cfg: Config)
    ensures (forall steps | Exec(cfg, START, steps).Some? ::
               Within(Exec(cfg, START, steps).value, cfg.maxNumWorkers + cfg.numWorkers))
       <==> cfg.maxNumWorkers >= 1 || cfg.numWorkers == 0 || !cfg.hasConstructor
  {
    var sum := cfg.maxNumWorkers + cfg.numWorkers;
    if cfg.maxNumWorkers >= 1 || cfg.numWorkers == 0 || !cfg.hasConstructor {
      forall steps | Exec(cfg, START, steps).Some? ensures Within(Exec(cfg, START, steps).value, sum) {
        if cfg.maxNumWorkers >= 1 {
          RemovedWorkersAreCancelled(cfg, steps);
        } else {
          MaximumIsKept(cfg, steps);
        }
      }
    } else {
      BoundIsReached(cfg);
      assert !Within(Exec(cfg, START, CrowdRun(cfg)).value, sum);
    }
  }

  // Whether Remove is final

  /** Nobody is to start a worker late, and no worker was started. */
  ghost predicate Barren(r: Race) {
    r.st.parent == map[] && forall t | t in r.threads :: !r.threads[t].AddLoaded?
  }

  lemma {:induction false} RunBarren(cfg: Config, r: Race, steps: seq<Step>)
    requires !cfg.hasConstructor && Barren(r) && Exec(cfg, r, steps).Some?
    ensures Barren(Exec(cfg, r, steps).value)
    decreases |steps|
  {
    if steps != [] {
      assert Barren(Next(cfg, r, steps[0]));
      RunBarren(cfg, Next(cfg, r, steps[0]), steps[1..]);
    }
  }

  /** References are given out once, and a stored queue belongs to one id. */
  ghost predicate Counted(st: StoreState) {
    WorkersCounted(st) && QueuesCounted(st)
  }

  ghost predicate WorkersCounted(st: StoreState) {
    forall w | w in st.parent :: w < st.nextWorker
  }

  ghost predicate QueuesCounted(st: StoreState) {
    && (forall id | id in st.m :: st.m[id] < st.nextQueue)
    && (forall a, b | a in st.m && b in st.m && st.m[a] == st.m[b] :: a == b)
  }

  /** The worker is in the list of the id that its queue is stored under. */
  ghost predicate InList(st: StoreState, w: WorkerRef)
    requires w in st.parent
  {
    exists id :: id in st.stops && w in st.stops[id].workers && id in st.m && st.m[id] == st.parent[w]
  }

  /** The holder of the get lock has the worker in hand. */
  predicate InHand(st: StoreState, holder: Thread, w: WorkerRef)
    requires w in st.parent
  {
    match holder
    case GetMade(_, q, mine) => w in mine && st.parent[w] == q
    case RemoveDetached(id, _, workers) => w in workers && id in st.m && st.parent[w] == st.m[id]
    case RemoveStopped(id, workers) => w in workers && id in st.m && st.parent[w] == st.m[id]
    case _ => false
  }

  ghost predicate Held(st: StoreState, holder: Option<Thread>) {
    forall w | w in st.parent && w !in st.cancelledWorkers ::
      InList(st, w) || (holder.Some? && InHand(st, holder.value, w))
  }

  /** No removed queue is stored. */
  ghost predicate Gone(st: StoreState, removed: set<QueueRef>) {
    forall q | q in removed :: q < st.nextQueue && forall id | id in st.m :: st.m[id] != q
  }

  /** In a store that does not scale nobody is to stop one worker either. */
  ghost predicate Steady(r: Race) {
    forall t | t in r.threads :: !r.threads[t].StopLoaded? && !r.threads[t].StopDetached?
  }

  ghost predicate Firm(cfg: Config, r: Race) {
    Safe(cfg, r) && Tight(cfg, r) && Steady(r) && Counted(r.st) && Held(r.st, Holder(r)) && Gone(r.st, r.removed)
  }

  lemma StepCounted(cfg: Config, r: Race, s: Step)
    requires Enabled(r, s) && Counted(r.st)
    ensures Counted(Next(cfg, r, s).st)
  {
    StepWorkersCounted(cfg, r, s);
    StepQueuesCounted(cfg, r, s);
    hide Next, Enabled, WorkersCounted, QueuesCounted;
  }

  lemma StepWorkersCounted(cfg: Config, r: Race, s: Step)
    requires Enabled(r, s) && WorkersCounted(r.st)
    ensures WorkersCounted(Next(cfg, r, s).st)
  {}

  lemma StepQueuesCounted(cfg: Config, r: Race, s: Step)
    requires Enabled(r, s) && QueuesCounted(r.st)
    ensures QueuesCounted(Next(cfg, r, s).st)
  {}

  lemma StepSteady(cfg: Config, r: Race, s: Step)
    requires cfg.numWorkers == cfg.maxNumWorkers && Enabled(r, s) && Steady(r)
    ensures Steady(Next(cfg, r, s))
  {
    hide AddStoppers, AddWorkerSection, Spawn, Construct, Detach, LastStoppable, DropLast;
    hide CancelQueue, CancelWorkers, Delete;
  }

  /** A Get with the lock: a new queue, a new worker in hand, the workers in hand put into a list. */
  lemma GetHolds(cfg: Config, r: Race, t: ThreadId)
    requires Firm(cfg, r) && Enabled(r, Go(t)) && (r.threads[t].GetLocked? || r.threads[t].GetMade?)
    ensures Held(Section(cfg, r, t).st, Holder(Section(cfg, r, t)))
    ensures Gone(Section(cfg, r, t).st, Section(cfg, r, t).removed)
  {
    var thread, next := r.threads[t], Section(cfg, r, t);
    assert Holder(r) == Some(thread);
    if thread.GetMade? {
      HolderKnows(cfg, r.st, thread);
    }
    hide ListsFit, LockFits;
    forall w | w in next.st.parent && w !in next.st.cancelledWorkers
      ensures InList(next.st, w) || (Holder(next).Some? && InHand(next.st, Holder(next).value, w))
    {
      if w in r.st.parent && InList(r.st, w) {
        var id :| id in r.st.stops && w in r.st.stops[id].workers && id in r.st.m && r.st.m[id] == r.st.parent[w];
        assert id in next.st.stops && w in next.st.stops[id].workers && id in next.st.m;
      }
    }
  }

  /** A Remove that deletes its queue finds no list. */
  lemma NothingListed(cfg: Config, r: Race, t: ThreadId)
    requires Safe(cfg, r) && Tight(cfg, r) && t in r.threads && r.threads[t].RemoveCancelled?
    ensures r.threads[t].id !in r.st.stops
  {
    assert Holder(r) == Some(r.threads[t]);
    assert Knows(cfg, r.st, r.threads[t]);
  }

  /** A Remove with the lock: the workers of the list taken in hand, then cancelled, then the queue deleted. */
  lemma RemoveHolds(cfg: Config, r: Race, t: ThreadId)
    requires Firm(cfg, r) && Enabled(r, Go(t))
    requires r.threads[t].RemoveLocked? || r.threads[t].RemoveDetached? || r.threads[t].RemoveStopped?
             || r.threads[t].RemoveCancelled?
    ensures Held(Section(cfg, r, t).st, Holder(Section(cfg, r, t)))
    ensures Gone(Section(cfg, r, t).st, Section(cfg, r, t).removed)
  {
    var thread, next := r.threads[t], Section(cfg, r, t);
    assert Holder(r) == Some(thread);
    if thread.RemoveCancelled? {
      NothingListed(cfg, r, t);
    }
    hide ListsFit, LockFits;
    forall w | w in next.st.parent && w !in next.st.cancelledWorkers
      ensures InList(next.st, w) || (Holder(next).Some? && InHand(next.st, Holder(next).value, w))
    {
      if InList(r.st, w) {
        var id :| id in r.st.stops && w in r.st.stops[id].workers && id in r.st.m && r.st.m[id] == r.st.parent[w];
        if id != thread.id {
          assert id in next.st.stops && w in next.st.stops[id].workers && id in next.st.m;
        } else if !thread.RemoveLocked? {
          assert id in next.st.stops && w in next.st.stops[id].workers && id in next.st.m;
        }
      }
    }
  }

  /** Taking the lock, and whatever calls without it do. */
  lemma OthersHold(cfg: Config, r: Race, s: Step)
    requires cfg.numWorkers == cfg.maxNumWorkers && Firm(cfg, r) && Enabled(r, s)
    requires s.Go? ==> !Holds(r.threads[s.t])
    ensures Held(Next(cfg, r, s).st, Holder(Next(cfg, r, s)))
    ensures Gone(Next(cfg, r, s).st, Next(cfg, r, s).removed)
  {
    var next := Next(cfg, r, s);
    hide ListsFit, InList;
    assert next.st == r.st && next.removed == r.removed;
    if Holder(r).Some? {
      assert Holder(next) == Holder(r);
    }
  }

  lemma StepFirm(cfg: Config, r: Race, s: Step)
    requires cfg.numWorkers == cfg.maxNumWorkers && Firm(cfg, r) && Enabled(r, s)
    ensures Firm(cfg, Next(cfg, r, s))
  {
    hide Next, Enabled, Safe, Tight, Steady, Counted, Held, Gone, Holds;
    StepSafe(cfg, r, s);
    StepTight(cfg, r, s);
    StepSteady(cfg, r, s);
    StepCounted(cfg, r, s);
    StepHolds(cfg, r, s);
  }

  lemma StepHolds(cfg: Config, r: Race, s: Step)
    requires cfg.numWorkers == cfg.maxNumWorkers && Firm(cfg, r) && Enabled(r, s)
    ensures Held(Next(cfg, r, s).st, Holder(Next(cfg, r, s)))
    ensures Gone(Next(cfg, r, s).st, Next(cfg, r, s).removed)
  {
    hide Section, Firm, Held, Gone, Holder;
    if s.Go? && Holds(r.threads[s.t]) {
      if r.threads[s.t].GetLocked? || r.threads[s.t].GetMade? {
        GetHolds(cfg, r, s.t);
      } else {
        RemoveHolds(cfg, r, s.t);
      }
    } else {
      OthersHold(cfg, r, s);
    }
  }

  lemma {:induction false} RunFirm(cfg: Config, r: Race, steps: seq<Step>)
    requires cfg.numWorkers == cfg.maxNumWorkers && Firm(cfg, r) && Exec(cfg, r, steps).Some?
    ensures Firm(cfg, Exec(cfg, r, steps).value)
    decreases |steps|
  {
    if steps != [] {
      StepFirm(cfg, r, steps[0]);
      hide Next, Enabled, Firm;
      RunFirm(cfg, Next(cfg, r, steps[0]), steps[1..]);
    }
  }

  ghost predicate RemovedAreCancelled(r: Race) {
    forall w | w in r.st.parent && r.st.parent[w] in r.removed :: Cancelled(r.st, w)
  }

  lemma FirmRemoves(cfg: Config, r: Race)
    requires Firm(cfg, r)
    ensures RemovedAreCancelled(r)
  {
    if Holder(r).Some? && Holder(r).value.GetMade? {
      HolderKnows(cfg, r.st, Holder(r).value);
    }
    hide Safe, Tight, Steady;
  }

  lemma RemoveIsFinal(cfg: Config, steps: seq<Step>)
    requires cfg.stopCancels || !cfg.hasConstructor || cfg.numWorkers == cfg.maxNumWorkers
    requires Exec(cfg, START, steps).Some?
    ensures RemovedAreCancelled(Exec(cfg, START, steps).value)
  {
    if cfg.stopCancels {
      RemovedWorkersAreCancelled(cfg, steps);
    } else if !cfg.hasConstructor {
      RunBarren(cfg, START, steps);
    } else {
      RunFirm(cfg, START, steps);
      FirmRemoves(cfg, Exec(cfg, START, steps).value);
    }
  }

  /**
   For which stores Remove keeps its word over all interleavings: those whose queues' stop functions
   cancel their contexts, those that start no workers, and those that do not scale.
   */
  lemma RemoveIsFinalIff(cfg: Config)
    ensures (forall steps | Exec(cfg, START, steps).Some? :: RemovedAreCancelled(Exec(cfg, START, steps).value))
       <==> cfg.stopCancels || !cfg.hasConstructor || cfg.numWorkers == cfg.maxNumWorkers
  {
    if cfg.stopCancels || !cfg.hasConstructor || cfg.numWorkers == cfg.maxNumWorkers {
      forall steps | Exec(cfg, START, steps).Some? ensures RemovedAreCancelled(Exec(cfg, START, steps).value) {
        RemoveIsFinal(cfg, steps);
      }
    } else {
      LateWorkerSurvives(cfg);
      assert !RemovedAreCancelled(Exec(cfg, START, LateAddRun(cfg)).value);
    }
  }

  // Whether stopWorker leaves a worker

  /** `q` was made for `id`: it is stored under no other id. */
  ghost predicate Own(st: StoreState, id: Id, q: QueueRef) {
    q < st.nextQueue && forall k | k in st.m && k != id :: st.m[k] != q
  }

  /** All of `workers` were started on queues made for `id`. */
  ghost predicate OwnAll(st: StoreState, id: Id, workers: seq<WorkerRef>) {
    forall w | w in workers :: w in st.parent && Own(st, id, st.parent[w])
  }

  ghost predicate OwnLists(st: StoreState) {
    forall id | id in st.stops ::
      OwnAll(st, id, st.stops[id].workers) && (st.stops[id].queue.Some? ==> Own(st, id, st.stops[id].queue.value))
  }

  /** What a call has in hand was made for its id; nobody is to cancel a worker that stopWorker took off a list. */
  ghost predicate OwnHand(st: StoreState, t: Thread) {
    match t
    case GetMade(id, q, mine) => Own(st, id, q) && OwnAll(st, id, mine)
    case RemoveDetached(id, queue, workers) => OwnAll(st, id, workers) && (queue.Some? ==> Own(st, id, queue.value))
    case RemoveStopped(id, workers) => OwnAll(st, id, workers)
    case AddLoaded(id, q) => Own(st, id, q)
    case StopDetached(_) => false
    case _ => true
  }

  predicate Removing(holder: Option<Thread>, id: Id) {
    holder.Some? && (holder.value.RemoveDetached? || holder.value.RemoveStopped? || holder.value.RemoveCancelled?)
    && holder.value.id == id
  }

  /** A stored queue that is not being removed is not cancelled, nor is any worker ever started on it. */
  ghost predicate Unhurt(st: StoreState, holder: Option<Thread>) {
    && (forall w | w in st.parent :: st.parent[w] < st.nextQueue)
    && (forall w | w in st.cancelledWorkers :: w < st.nextWorker)
    && (forall q | q in st.cancelledQueues :: q < st.nextQueue)
    && (forall id | id in st.m && !Removing(holder, id) :: st.m[id] !in st.cancelledQueues)
    && (forall id, w | id in st.m && !Removing(holder, id) && w in st.parent && st.parent[w] == st.m[id] ::
          w !in st.cancelledWorkers)
  }

  ghost predicate Kind(r: Race) {
    && LockFits(r) && Counted(r.st) && OwnLists(r.st) && (forall t | t in r.threads :: OwnHand(r.st, r.threads[t]))
    && Unhurt(r.st, Holder(r))
  }

  /** Queues stay where they are until they are deleted, new ones are new, workers stay on their queues. */
  ghost predicate Grows(st: StoreState, next: StoreState) {
    && st.nextQueue <= next.nextQueue
    && (forall k | k in next.m :: (k in st.m && next.m[k] == st.m[k]) || next.m[k] >= st.nextQueue)
    && (forall w | w in st.parent :: w in next.parent && next.parent[w] == st.parent[w])
  }

  lemma StepGrows(cfg: Config, r: Race, s: Step)
    requires Enabled(r, s) && Counted(r.st)
    ensures Grows(r.st, Next(cfg, r, s).st)
  {}

  lemma OwnStays(st: StoreState, next: StoreState)
    requires Grows(st, next)
    ensures forall id, q | Own(st, id, q) :: Own(next, id, q)
    ensures forall id, ws | OwnAll(st, id, ws) :: OwnAll(next, id, ws)
  {}

  lemma HandStays(st: StoreState, next: StoreState, t: Thread)
    requires Grows(st, next) && OwnHand(st, t)
    ensures OwnHand(next, t)
  {
    OwnStays(st, next);
    hide Grows, Own, OwnAll;
  }

  /** A call's next section leaves it with things made for its id in hand. */
  lemma MovedOwns(cfg: Config, r: Race, t: ThreadId)
    requires Enabled(r, Go(t)) && Counted(r.st) && OwnLists(r.st) && OwnHand(r.st, r.threads[t])
    requires r.threads[t].StopLoaded? ==> LastStoppable(r.st, r.threads[t].id).None?
    ensures t in Section(cfg, r, t).threads && OwnHand(Section(cfg, r, t).st, Section(cfg, r, t).threads[t])
  {
    var next := Section(cfg, r, t);
    StepGrows(cfg, r, Go(t));
    OwnStays(r.st, next.st);
    hide Grows, OwnAll, AddStoppers, AddWorkerSection;
    if r.threads[t].GetMade? {
      SpawnOwns(r.st, r.threads[t].id, r.threads[t].q, r.threads[t].mine);
    }
    NothingOwned(next.st);
  }

  lemma NothingOwned(st: StoreState)
    ensures forall id :: OwnAll(st, id, [])
  {}

  lemma SpawnOwns(st: StoreState, id: Id, q: QueueRef, mine: seq<WorkerRef>)
    requires Counted(st) && Own(st, id, q) && OwnAll(st, id, mine)
    ensures OwnAll(Spawn(st, q), id, mine + [st.nextWorker])
  {}

  /** And the lists with things made for their ids. */
  lemma MovedLists(cfg: Config, r: Race, t: ThreadId)
    requires Enabled(r, Go(t)) && Counted(r.st) && OwnLists(r.st) && OwnHand(r.st, r.threads[t])
    requires r.threads[t].StopLoaded? ==> LastStoppable(r.st, r.threads[t].id).None?
    ensures OwnLists(Section(cfg, r, t).st)
  {
    var thread, next := r.threads[t], Section(cfg, r, t);
    StepGrows(cfg, r, Go(t));
    OwnStays(r.st, next.st);
    hide Grows, OwnAll;
    match thread {
      case GetMade(id, q, mine) =>
        if id in r.st.stops {
          JoinedOwn(next.st, id, r.st.stops[id].workers, mine);
        }
      case AddLoaded(id, q) =>
        AddedOwn(cfg, r.st, id, q);
      case _ =>
    }
  }

  lemma JoinedOwn(st: StoreState, id: Id, a: seq<WorkerRef>, b: seq<WorkerRef>)
    requires OwnAll(st, id, a) && OwnAll(st, id, b)
    ensures OwnAll(st, id, a + b)
  {}

  lemma AddedOwn(cfg: Config, st: StoreState, id: Id, q: QueueRef)
    requires Counted(st) && Own(st, id, q) && OwnLists(st)
    ensures var next := AddWorkerSection(cfg, st, id, q);
            id in next.stops && OwnAll(next, id, next.stops[id].workers)
  {}

  /** Cancelling what a Remove has in hand hurts only queues that were made for its id. */
  lemma CancelUnhurt(cfg: Config, st: StoreState, t: Thread, next: Thread)
    requires t.RemoveDetached? || t.RemoveStopped?
    requires Counted(st) && OwnHand(st, t) && Unhurt(st, Some(t)) && Removing(Some(next), t.id)
    ensures t.RemoveDetached? ==> Unhurt(CancelQueue(cfg, st, t.queue), Some(next))
    ensures t.RemoveStopped? ==> Unhurt(CancelWorkers(st, set w | w in t.workers), Some(next))
  {
    assert Removing(Some(t), t.id);
  }

  lemma HolderMoves(cfg: Config, r: Race, t: ThreadId)
    requires Enabled(r, Go(t)) && LockFits(r)
    ensures var next := Section(cfg, r, t);
            && t in next.threads
            && (if Holds(r.threads[t]) then Holder(r) == Some(r.threads[t])
                   && Holder(next) == if Holds(next.threads[t]) then Some(next.threads[t]) else None
                else if Holds(next.threads[t]) then Holder(r).None? && Holder(next) == Some(next.threads[t])
                else Holder(next) == Holder(r))
  {
    hide AddStoppers, AddWorkerSection, Spawn, Construct, Detach, LastStoppable, DropLast;
    hide CancelQueue, CancelWorkers, Delete;
  }

  /** A section hurts no queue but the one that is being removed. */
  lemma MovedUnhurt(cfg: Config, r: Race, t: ThreadId)
    requires Enabled(r, Go(t)) && Kind(r)
    requires r.threads[t].StopLoaded? ==> LastStoppable(r.st, r.threads[t].id).None?
    ensures Unhurt(Section(cfg, r, t).st, Holder(Section(cfg, r, t)))
  {
    var thread, next := r.threads[t], Section(cfg, r, t);
    assert OwnHand(r.st, thread);
    HolderMoves(cfg, r, t);
    hide OwnLists, LockFits, Holder;
    if thread.RemoveDetached? || thread.RemoveStopped? {
      CancelUnhurt(cfg, r.st, thread, next.threads[t]);
    }
  }

  lemma OthersKeepHands(st: StoreState, before: map<ThreadId, Thread>,
                        next: StoreState, after: map<ThreadId, Thread>, t: ThreadId)
    requires Grows(st, next) && forall u | u in before :: OwnHand(st, before[u])
    requires forall u | u in after && u != t :: u in before && after[u] == before[u]
    requires t in after ==> OwnHand(next, after[t])
    ensures forall u | u in after :: OwnHand(next, after[u])
  {
    hide Grows, OwnHand;
    forall u | u in after ensures OwnHand(next, after[u]) {
      if u != t {
        HandStays(st, next, before[u]);
      }
    }
  }

  lemma StepKind(cfg: Config, r: Race, s: Step)
    requires Enabled(r, s) && Kind(r)
    requires s.Go? && r.threads[s.t].StopLoaded? ==> LastStoppable(r.st, r.threads[s.t].id).None?
    ensures Kind(Next(cfg, r, s))
  {
    hide Grows, LockFits, Counted, OwnLists, Unhurt, OwnHand;
    var next := Next(cfg, r, s);
    StepLockFits(cfg, r, s);
    StepCounted(cfg, r, s);
    StepGrows(cfg, r, s);
    if s.Go? {
      MovedOwns(cfg, r, s.t);
      MovedLists(cfg, r, s.t);
      MovedUnhurt(cfg, r, s.t);
      OnlyMoves(cfg, r, s.t);
    } else {
      LaunchIsKind(cfg, r, s);
    }
    hide Section;
    OthersKeepHands(r.st, r.threads, next.st, next.threads, s.t);
  }

  lemma OnlyMoves(cfg: Config, r: Race, t: ThreadId)
    requires Enabled(r, Go(t))
    ensures var next := Section(cfg, r, t);
            forall u | u in next.threads && u != t :: u in r.threads && next.threads[u] == r.threads[u]
  {
    hide AddStoppers, AddWorkerSection, Spawn, Construct, Detach, LastStoppable, DropLast;
    hide CancelQueue, CancelWorkers, Delete;
  }

  lemma LaunchIsKind(cfg: Config, r: Race, s: Step)
    requires s.Launch? && Enabled(r, s) && Kind(r)
    ensures OwnHand(r.st, s.thread) && Unhurt(r.st, Holder(Next(cfg, r, s)))
  {
    assert Holder(Next(cfg, r, s)) == Holder(r);
  }

  /** Nobody stops a worker: where stores do not scale nobody tries, where lists hold one worker nobody may. */
  ghost predicate Unstopped(cfg: Config, r: Race) {
    if cfg.numWorkers == cfg.maxNumWorkers then Steady(r) else Lean(cfg, r)
  }

  lemma {:induction false} RunKind(cfg: Config, r: Race, steps: seq<Step>)
    requires cfg.numWorkers == cfg.maxNumWorkers || (cfg.numWorkers == 0 && cfg.maxNumWorkers == 1)
    requires Kind(r) && Unstopped(cfg, r) && Exec(cfg, r, steps).Some?
    ensures Kind(Exec(cfg, r, steps).value)
    decreases |steps|
  {
    if steps != [] {
      hide Kind, Next;
      StepKind(cfg, r, steps[0]);
      if cfg.numWorkers == cfg.maxNumWorkers {
        StepSteady(cfg, r, steps[0]);
      } else {
        StepLean(cfg, r, steps[0]);
      }
      hide Enabled, Steady, Lean;
      RunKind(cfg, Next(cfg, r, steps[0]), steps[1..]);
    }
  }

  predicate AtRest(r: Race) {
    forall t | t in r.threads :: r.threads[t].Returned?
  }

  ghost predicate HasWorker(st: StoreState, q: QueueRef) {
    exists w :: w in st.parent && st.parent[w] == q
  }

  ghost predicate HasLiveWorker(st: StoreState, q: QueueRef) {
    exists w :: Live(st, w) && st.parent[w] == q
  }

  /** A stored queue that ever had a worker has a live one. */
  ghost predicate WorkersAreLeft(r: Race) {
    forall id | id in r.st.m :: HasWorker(r.st, r.st.m[id]) ==> HasLiveWorker(r.st, r.st.m[id])
  }

  lemma KindLeavesWorkers(r: Race)
    requires Kind(r) && AtRest(r)
    ensures WorkersAreLeft(r)
  {
    assert Holder(r).None?;
    hide OwnLists, OwnHand, Counted;
    forall id | id in r.st.m && HasWorker(r.st, r.st.m[id]) ensures HasLiveWorker(r.st, r.st.m[id]) {
      var w :| w in r.st.parent && r.st.parent[w] == r.st.m[id];
      assert Live(r.st, w);
    }
  }

  /** The state that the late addWorker leaves: one list, of one worker, on a queue that is removed. */
  lemma LateAddLeaves(cfg: Config)
    requires cfg.numWorkers != cfg.maxNumWorkers && cfg.hasConstructor
    ensures Exec(cfg, START, LateAddRun(cfg)).Some?
    ensures var r := Exec(cfg, START, LateAddRun(cfg)).value;
            && AtRest(r) && r.lock.None? && r.threads.Keys == {0, 1, 2}
            && r.st.m == map[] && r.st.stops == map[0 := StopList(None, [cfg.numWorkers])]
            && r.st.nextQueue == 1 && r.st.nextWorker == cfg.numWorkers + 1
            && (forall w | w in r.st.parent :: r.st.parent[w] == 0 && w < r.st.nextWorker)
  {
    LateAddRuns(cfg);
    SpawnAllEffect(Construct(EMPTY, 0), 0, cfg.numWorkers);
    hide Exec, LateAddRun;
    assert AfterGet(cfg).st.stops.Keys == {0};
  }

  /** A list that begins with a worker on another queue, and holds all workers of the queue that is stored. */
  ghost predicate Mixed(r: Race, n: nat) {
    && AtRest(r) && r.lock.None? && r.st.m == map[0 := 1] && 0 in r.st.stops && |r.st.stops[0].workers| == n + 1
    && HasWorker(r.st, 1)
    && (forall w | w in r.st.parent && r.st.parent[w] == 1 && w !in r.st.cancelledWorkers ::
          w in r.st.stops[0].workers[1..])
  }

  /** stopWorker n times, by calls t and later. */
  function Stops(t: ThreadId, n: nat): seq<Step>
    decreases n
  {
    if n == 0 then [] else Alone(t, StopStart(0), 3) + Stops(t + 1, n - 1)
  }

  lemma StopStopsLast(cfg: Config, r: Race, t: ThreadId, n: nat)
    requires cfg.numWorkers != cfg.maxNumWorkers && n > 0 && Mixed(r, n)
    ensures Mixed(Becomes(r, t, Returned).(st := StopWorkerOp(cfg, r.st, 0)), n - 1)
  {
    var ws := r.st.stops[0].workers;
    var next := StopWorkerOp(cfg, r.st, 0);
    var q :| q in r.st.parent && r.st.parent[q] == 1;
    assert next.parent[q] == 1;
    forall w | w in next.parent && next.parent[w] == 1 && w !in next.cancelledWorkers
      ensures w in next.stops[0].workers[1..]
    {
      var i :| 0 <= i < n && ws[1..][i] == w;
      assert next.stops[0].workers[1..][i] == w;
    }
  }

  lemma {:induction false} StopsRun(cfg: Config, r: Race, t: ThreadId, n: nat)
    requires cfg.numWorkers != cfg.maxNumWorkers && Mixed(r, n)
    requires forall u | u >= t :: u !in r.threads
    ensures Exec(cfg, r, Stops(t, n)).Some? && Mixed(Exec(cfg, r, Stops(t, n)).value, 0)
    decreases n
  {
    if n > 0 {
      hide Exec, Alone, StopWorkerOp;
      var next := Becomes(r, t, Returned).(st := StopWorkerOp(cfg, r.st, 0));
      StopAlone(cfg, r, t, 0);
      StopStopsLast(cfg, r, t, n);
      hide Mixed;
      ExecConcat(cfg, r, Alone(t, StopStart(0), 3), Stops(t + 1, n - 1));
      StopsRun(cfg, next, t + 1, n - 1);
    }
  }

  /** Stores that start workers, scale, and have lists of two: exempt are numWorkers 0 with maxNumWorkers 1. */
  predicate Mixes(cfg: Config) {
    cfg.hasConstructor && cfg.numWorkers != cfg.maxNumWorkers && !(cfg.numWorkers == 0 && cfg.maxNumWorkers == 1)
  }

  /** What the late addWorker leaves, then a Get; where that Get starts nothing, an addWorker too. */
  function MixingRun(cfg: Config): seq<Step> {
    LateAddRun(cfg) + Alone(3, GetStart(0), 4 + cfg.numWorkers)
    + if cfg.numWorkers == 0 then Alone(4, AddStart(0), 2) else []
  }

  lemma GetMixes(cfg: Config, r: Race)
    requires cfg.hasConstructor && AtRest(r) && r.lock.None?
    requires r.st.m == map[] && r.st.stops == map[0 := StopList(None, [cfg.numWorkers])]
    requires r.st.nextQueue == 1 && r.st.nextWorker == cfg.numWorkers + 1
    requires forall w | w in r.st.parent :: r.st.parent[w] == 0 && w < r.st.nextWorker
    ensures var next := Becomes(r, 3, Returned).(st := GetOp(cfg, r.st, 0));
            && next.st.m == map[0 := 1]
            && (cfg.numWorkers > 0 ==> Mixed(next, cfg.numWorkers))
            && (cfg.numWorkers == 0 && cfg.maxNumWorkers > 1 ==>
                  Mixed(Becomes(next, 4, Returned).(st := AddWorkerOp(cfg, next.st, 0)), 1))
  {
    var n, made := cfg.numWorkers, Construct(r.st, 0);
    SpawnAllEffect(made, 1, n);
    var next := GetOp(cfg, r.st, 0);
    var ws := Started(made, n);
    if n > 0 {
      assert next.stops[0].workers == [n] + ws;
      assert next.parent[n + 1] == 1;
      forall w | w in next.parent && next.parent[w] == 1 ensures w in next.stops[0].workers[1..] {
        assert next.stops[0].workers[1..][w - (n + 1)] == w;
      }
    } else if cfg.maxNumWorkers > 1 {
      assert next.stops[0].workers == [0];
      var end := AddWorkerOp(cfg, next, 0);
      assert end.stops[0].workers == [0, 1] && end.parent[1] == 1;
      assert end.stops[0].workers[1..] == [1];
    }
  }

  lemma MixingRuns(cfg: Config)
    requires Mixes(cfg)
    ensures Exec(cfg, START, MixingRun(cfg)).Some?
    ensures var r := Exec(cfg, START, MixingRun(cfg)).value;
            Mixed(r, if cfg.numWorkers == 0 then 1 else cfg.numWorkers) && forall t | t >= 5 :: t !in r.threads
  {
    LateAddLeaves(cfg);
    hide Exec, Alone, LateAddRun, GetOp, AddWorkerOp, Mixed;
    var r := Exec(cfg, START, LateAddRun(cfg)).value;
    var next := Becomes(r, 3, Returned).(st := GetOp(cfg, r.st, 0));
    var get, add := Alone(3, GetStart(0), 4 + cfg.numWorkers), Alone(4, AddStart(0), 2);
    GetAlone(cfg, r, 3, 0);
    GetMixes(cfg, r);
    ExecConcat(cfg, START, LateAddRun(cfg), get);
    if cfg.numWorkers == 0 {
      AddAlone(cfg, next, 4, 0);
      ExecConcat(cfg, START, LateAddRun(cfg) + get, add);
    } else {
      assert LateAddRun(cfg) + get + [] == LateAddRun(cfg) + get;
    }
  }

  /** The run, then as many stopWorkers as the list allows. */
  function StarvingRun(cfg: Config): seq<Step> {
    MixingRun(cfg) + Stops(5, if cfg.numWorkers == 0 then 1 else cfg.numWorkers)
  }

  /** The stored queue has no live worker left: the one that stopWorker spared was started on the queue before. */
  lemma StopStarvesQueue(cfg: Config)
    requires Mixes(cfg)
    ensures Exec(cfg, START, StarvingRun(cfg)).Some?
    ensures var r := Exec(cfg, START, StarvingRun(cfg)).value; AtRest(r) && !WorkersAreLeft(r)
  {
    MixingRuns(cfg);
    hide Exec, MixingRun, Stops;
    var n := if cfg.numWorkers == 0 then 1 else cfg.numWorkers;
    var r := Exec(cfg, START, MixingRun(cfg)).value;
    StopsRun(cfg, r, 5, n);
    ExecConcat(cfg, START, MixingRun(cfg), Stops(5, n));
    var end := Exec(cfg, START, StarvingRun(cfg)).value;
    assert end.st.m[0] == 1;
  }

  /**
   For which stores a stored queue that ever had a worker has a live one whenever no call is under way:
   those that start no workers, those that do not scale, and those whose lists never hold two.
   */
  lemma WorkersAreLeftIff(cfg: Config)
    ensures (forall steps | Exec(cfg, START, steps).Some? && AtRest(Exec(cfg, START, steps).value) ::
               WorkersAreLeft(Exec(cfg, START, steps).value))
       <==> !Mixes(cfg)
  {
    if !Mixes(cfg) {
      forall steps | Exec(cfg, START, steps).Some? && AtRest(Exec(cfg, START, steps).value)
        ensures WorkersAreLeft(Exec(cfg, START, steps).value)
      {
        if !cfg.hasConstructor {
          RunBarren(cfg, START, steps);
        } else {
          RunKind(cfg, START, steps);
          KindLeavesWorkers(Exec(cfg, START, steps).value);
        }
      }
    } else {
      StopStarvesQueue(cfg);
    }
  }
}
