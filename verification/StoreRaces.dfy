/**
 The store with its lock sections interleaved: any number of Get, Remove, addWorker and stopWorker
 calls, each a thread that runs one section at a time. Get and Remove hold the get lock over several
 sections; addWorker and stopWorker look an id up first and lock the stop lists later.
 */
module StoreRaces {
  import opened Wrappers
  import opened StoreSections
  import opened StorePool

  type ThreadId = nat

  datatype Thread =
    | GetStart(id: Id)
    | GetWaiting(id: Id)                                  // missed once, wants the get lock
    | GetLocked(id: Id)
    | GetMade(id: Id, q: QueueRef, mine: seq<WorkerRef>)  // queue stored, some workers started
    | RemoveWaiting(id: Id)
    | RemoveLocked(id: Id)
    | RemoveDetached(id: Id, queue: Option<QueueRef>, workers: seq<WorkerRef>)
    | RemoveStopped(id: Id, workers: seq<WorkerRef>)      // queue's stop called
    | RemoveCancelled(id: Id)                             // workers' cancels called
    | AddStart(id: Id)
    | AddLoaded(id: Id, q: QueueRef)
    | StopStart(id: Id)
    | StopLoaded(id: Id)
    | StopDetached(worker: WorkerRef)
    | Returned

  /** `removed` records the queues that a Remove has taken out by the time it returned. */
  datatype Race = Race(st: StoreState, threads: map<ThreadId, Thread>, lock: Option<ThreadId>, removed: set<QueueRef>)

  const START := Race(EMPTY, map[], None, {})

  predicate Holds(t: Thread) {
    t.GetLocked? || t.GetMade? || t.RemoveLocked? || t.RemoveDetached? || t.RemoveStopped? || t.RemoveCancelled?
  }

  datatype Step = Launch(t: ThreadId, thread: Thread) | Go(t: ThreadId)

  predicate Enabled(r: Race, s: Step) {
    match s
    case Launch(t, thread) =>
      t !in r.threads && (thread.GetStart? || thread.RemoveWaiting? || thread.AddStart? || thread.StopStart?)
    case Go(t) =>
      t in r.threads && !r.threads[t].Returned?
      && (r.threads[t].GetWaiting? || r.threads[t].RemoveWaiting? ==> r.lock.None?)
  }

  function Becomes(r: Race, t: ThreadId, thread: Thread): Race {
    r.(threads := r.threads[t := thread])
  }

  /** The next section of thread `t`. */
  function Section(cfg: Config, r: Race, t: ThreadId): Race
    requires Enabled(r, Go(t))
  {
    var st := r.st;
    match r.threads[t]
    case GetStart(id) => Becomes(r, t, if id in st.m then Returned else GetWaiting(id))
    case GetWaiting(id) => Becomes(r, t, GetLocked(id)).(lock := Some(t))
    case GetLocked(id) =>
      if id in st.m then Becomes(r, t, Returned).(lock := None)
      else Becomes(r, t, GetMade(id, st.nextQueue, [])).(st := Construct(st, id))
    case GetMade(id, q, mine) =>
      if cfg.hasConstructor && |mine| < cfg.numWorkers
      then Becomes(r, t, GetMade(id, q, mine + [st.nextWorker])).(st := Spawn(st, q))
      else Becomes(r, t, Returned).(st := AddStoppers(st, id, q, mine), lock := None)
    case RemoveWaiting(id) => Becomes(r, t, RemoveLocked(id)).(lock := Some(t))
    case RemoveLocked(id) =>
      if id in st.stops
      then Becomes(r, t, RemoveDetached(id, st.stops[id].queue, st.stops[id].workers)).(st := Detach(st, id))
      else Becomes(r, t, RemoveCancelled(id))
    case RemoveDetached(id, queue, workers) =>
      Becomes(r, t, RemoveStopped(id, workers)).(st := CancelQueue(cfg, st, queue))
    case RemoveStopped(id, workers) =>
      Becomes(r, t, RemoveCancelled(id)).(st := CancelWorkers(st, set w | w in workers))
    case RemoveCancelled(id) =>
      Becomes(r, t, Returned).(st := Delete(st, id), lock := None,
                               removed := if id in st.m then r.removed + {st.m[id]} else r.removed)
    case AddStart(id) =>
      if cfg.numWorkers == cfg.maxNumWorkers || !cfg.hasConstructor || id !in st.m then Becomes(r, t, Returned)
      else Becomes(r, t, AddLoaded(id, st.m[id]))
    case AddLoaded(id, q) => Becomes(r, t, Returned).(st := AddWorkerSection(cfg, st, id, q))
    case StopStart(id) =>
      if cfg.numWorkers == cfg.maxNumWorkers || id !in st.m then Becomes(r, t, Returned)
      else Becomes(r, t, StopLoaded(id))
    case StopLoaded(id) =>
      (match LastStoppable(st, id)
       case None => Becomes(r, t, Returned)
       case Some(w) => Becomes(r, t, StopDetached(w)).(st := DropLast(st, id)))
    case StopDetached(w) => Becomes(r, t, Returned).(st := CancelWorkers(st, {w}))
    case Returned => r
  }

  function Next(cfg: Config, r: Race, s: Step): Race
    requires Enabled(r, s)
  {
    match s
    case Launch(t, thread) => Becomes(r, t, thread)
    case Go(t) => Section(cfg, r, t)
  }

  function Exec(cfg: Config, r: Race, steps: seq<Step>): Option<Race>
    decreases |steps|
  {
    if steps == [] then Some(r)
    else if Enabled(r, steps[0]) then Exec(cfg, Next(cfg, r, steps[0]), steps[1..])
    else None
  }

  // What survives interleaving

  /** How many workers a Get starts. */
  function ToStart(cfg: Config): nat {
    if cfg.hasConstructor then cfg.numWorkers else 0
  }

  /** How long addWorker alone makes a list: the first worker of a list that it makes itself is not counted. */
  function Cap(cfg: Config): nat {
    if cfg.maxNumWorkers == 0 then 1 else cfg.maxNumWorkers
  }

  /** At most the list that late addWorkers made: no stop function, and no more workers than they add. */
  predicate Loose(cfg: Config, st: StoreState, id: Id) {
    id in st.stops ==> st.stops[id].queue.None? && |st.stops[id].workers| <= Cap(cfg)
  }

  /** A stored queue's stop function is in its list. */
  predicate Settled(cfg: Config, st: StoreState, id: Id) {
    if id in st.m then id in st.stops && st.stops[id].queue == Some(st.m[id]) else Loose(cfg, st, id)
  }

  /** What a thread that holds the get lock knows about its id. */
  predicate Knows(cfg: Config, st: StoreState, t: Thread) {
    match t
    case GetMade(id, q, mine) => id in st.m && st.m[id] == q && Loose(cfg, st, id) && |mine| <= ToStart(cfg)
    case RemoveDetached(id, queue, _) => Loose(cfg, st, id) && (id in st.m ==> queue == Some(st.m[id]))
    case RemoveStopped(id, _) =>
      Loose(cfg, st, id) && (id in st.m && cfg.stopCancels ==> st.m[id] in st.cancelledQueues)
    case RemoveCancelled(id) =>
      Loose(cfg, st, id) && (id in st.m && cfg.stopCancels ==> st.m[id] in st.cancelledQueues)
    case _ => true
  }

  /** Whether `t` has taken `id` apart or not yet put it together. */
  predicate Unsettles(t: Thread, id: Id) {
    (t.GetMade? || t.RemoveDetached? || t.RemoveStopped? || t.RemoveCancelled?) && t.id == id
  }

  function Holder(r: Race): Option<Thread> {
    if r.lock.Some? && r.lock.value in r.threads then Some(r.threads[r.lock.value]) else None
  }

  ghost predicate LockFits(r: Race) {
    && (forall t | t in r.threads :: Holds(r.threads[t]) <==> r.lock == Some(t))
    && (r.lock.Some? ==> r.lock.value in r.threads)
  }

  /** All ids are settled but the one the holder of the get lock is working on; no list is over-long. */
  ghost predicate ListsFit(cfg: Config, st: StoreState, holder: Option<Thread>) {
    && (holder.Some? ==> Knows(cfg, st, holder.value))
    && (forall id :: Settled(cfg, st, id) || (holder.Some? && Unsettles(holder.value, id)))
    && (forall id | id in st.stops :: |st.stops[id].workers| <= Cap(cfg) + ToStart(cfg))
  }

  ghost predicate Safe(cfg: Config, r: Race) {
    && LockFits(r) && ListsFit(cfg, r.st, Holder(r))
    && (cfg.stopCancels ==> r.removed <= r.st.cancelledQueues)
  }

  /** A section moves its own thread only, and takes or gives back the lock for that thread only. */
  lemma SectionLocks(cfg: Config, r: Race, t: ThreadId)
    requires Enabled(r, Go(t)) && (Holds(r.threads[t]) <==> r.lock == Some(t))
    ensures var next := Section(cfg, r, t);
            && t in next.threads && next.threads == r.threads[t := next.threads[t]]
            && (Holds(next.threads[t]) <==> next.lock == Some(t))
            && (next.lock == r.lock || (r.lock.None? && next.lock == Some(t)) || (r.lock == Some(t) && next.lock.None?))
  {
    hide AddStoppers, AddWorkerSection, LastStoppable, DropLast, Spawn, Construct, Detach;
    hide CancelQueue, CancelWorkers, Delete;
  }

  lemma StepLockFits(cfg: Config, r: Race, s: Step)
    requires Enabled(r, s) && LockFits(r)
    ensures LockFits(Next(cfg, r, s))
  {
    hide Holds, Section;
    if s.Go? {
      SectionLocks(cfg, r, s.t);
    } else {
      FreshHoldsNothing(r, s.t, s.thread);
    }
  }

  lemma FreshHoldsNothing(r: Race, t: ThreadId, thread: Thread)
    requires Enabled(r, Launch(t, thread))
    ensures !Holds(thread)
  {}

  lemma CancelledQueuesGrow(cfg: Config, r: Race, s: Step)
    requires Enabled(r, s)
    ensures r.st.cancelledQueues <= Next(cfg, r, s).st.cancelledQueues
  {}

  /** addWorker's section, on whatever queue it loaded earlier. */
  lemma AddFits(cfg: Config, st: StoreState, id: Id, q: QueueRef, holder: Option<Thread>)
    requires ListsFit(cfg, st, holder)
    ensures ListsFit(cfg, AddWorkerSection(cfg, st, id, q), holder)
  {
    var next := AddWorkerSection(cfg, st, id, q);
    forall k ensures Settled(cfg, st, k) ==> Settled(cfg, next, k) {}
  }

  lemma DropFits(cfg: Config, st: StoreState, id: Id, holder: Option<Thread>)
    requires ListsFit(cfg, st, holder) && LastStoppable(st, id).Some?
    ensures ListsFit(cfg, DropLast(st, id), holder)
  {
    var next := DropLast(st, id);
    forall k ensures Settled(cfg, st, k) ==> Settled(cfg, next, k) {}
  }

  lemma CancelFits(cfg: Config, st: StoreState, ws: set<WorkerRef>, holder: Option<Thread>)
    requires ListsFit(cfg, st, holder)
    ensures ListsFit(cfg, CancelWorkers(st, ws), holder)
  {
    forall k ensures Settled(cfg, CancelWorkers(st, ws), k) == Settled(cfg, st, k) {}
  }

  /** A Get that has the lock: constructing, starting workers, registering. */
  lemma GetFits(cfg: Config, r: Race, t: ThreadId)
    requires Safe(cfg, r) && Enabled(r, Go(t)) && (r.threads[t].GetLocked? || r.threads[t].GetMade?)
    ensures ListsFit(cfg, Section(cfg, r, t).st, Holder(Section(cfg, r, t)))
  {
    var next := Section(cfg, r, t);
    var id := r.threads[t].id;
    assert Holder(r) == Some(r.threads[t]);
    forall k | k != id ensures Settled(cfg, next.st, k) {
      assert Settled(cfg, r.st, k);
    }
    assert r.threads[t].GetLocked? ==> Settled(cfg, r.st, id);
    assert Holder(next).None? ==> Settled(cfg, next.st, id);
  }

  /** A Remove that has the lock: detaching the list, stopping, deleting. */
  lemma RemoveFits(cfg: Config, r: Race, t: ThreadId)
    requires Safe(cfg, r) && Enabled(r, Go(t))
    requires r.threads[t].RemoveLocked? || r.threads[t].RemoveDetached? || r.threads[t].RemoveStopped?
             || r.threads[t].RemoveCancelled?
    ensures ListsFit(cfg, Section(cfg, r, t).st, Holder(Section(cfg, r, t)))
    ensures cfg.stopCancels ==> Section(cfg, r, t).removed <= r.removed + Section(cfg, r, t).st.cancelledQueues
  {
    var next := Section(cfg, r, t);
    var id := r.threads[t].id;
    assert Holder(r) == Some(r.threads[t]);
    assert r.threads[t].RemoveLocked? ==> Settled(cfg, r.st, id);
    forall k | k != id ensures Settled(cfg, next.st, k) {
      assert Settled(cfg, r.st, k);
    }
    assert Holder(next).None? ==> Settled(cfg, next.st, id);
  }

  lemma StepListsFit(cfg: Config, r: Race, s: Step)
    requires Enabled(r, s) && Safe(cfg, r)
    ensures ListsFit(cfg, Next(cfg, r, s).st, Holder(Next(cfg, r, s)))
    ensures cfg.stopCancels ==> Next(cfg, r, s).removed <= r.removed + Next(cfg, r, s).st.cancelledQueues
  {
    hide Knows, Settled, Loose;
    if s.Go? {
      var thread, holder := r.threads[s.t], Holder(r);
      match thread {
        case GetLocked(_) => GetFits(cfg, r, s.t);
        case GetMade(_, _, _) => GetFits(cfg, r, s.t);
        case RemoveLocked(_) => RemoveFits(cfg, r, s.t);
        case RemoveDetached(_, _, _) => RemoveFits(cfg, r, s.t);
        case RemoveStopped(_, _) => RemoveFits(cfg, r, s.t);
        case RemoveCancelled(_) => RemoveFits(cfg, r, s.t);
        case AddLoaded(id, q) => AddFits(cfg, r.st, id, q, holder);
        case StopLoaded(id) => if LastStoppable(r.st, id).Some? { DropFits(cfg, r.st, id, holder); }
        case StopDetached(w) => CancelFits(cfg, r.st, {w}, holder);
        case GetWaiting(id) => LockFitsNobody(cfg, r.st, GetLocked(id));
        case RemoveWaiting(id) => LockFitsNobody(cfg, r.st, RemoveLocked(id));
        case _ =>
      }
    }
  }

  lemma LockFitsNobody(cfg: Config, st: StoreState, thread: Thread)
    requires ListsFit(cfg, st, None) && (thread.GetLocked? || thread.RemoveLocked?)
    ensures ListsFit(cfg, st, Some(thread))
  {}

  lemma StepSafe(cfg: Config, r: Race, s: Step)
    requires Enabled(r, s) && Safe(cfg, r)
    ensures Safe(cfg, Next(cfg, r, s))
  {
    StepLockFits(cfg, r, s);
    StepListsFit(cfg, r, s);
    CancelledQueuesGrow(cfg, r, s);
    hide Next, Enabled, LockFits, ListsFit;
  }

  lemma {:induction false} RunSafe(cfg: Config, r: Race, steps: seq<Step>)
    requires Safe(cfg, r) && Exec(cfg, r, steps).Some?
    ensures Safe(cfg, Exec(cfg, r, steps).value)
    decreases |steps|
  {
    if steps != [] {
      StepSafe(cfg, r, steps[0]);
      hide Next, Enabled, Safe;
      RunSafe(cfg, Next(cfg, r, steps[0]), steps[1..]);
    }
  }

  /**
   However the sections interleave: once a Remove has returned, every worker ever started on the queue
   it removed, by a late addWorker too, has a cancelled context; and no list of workers grows beyond
   numWorkers more than addWorker alone would make it.
   */
  lemma RemovedWorkersAreCancelled(cfg: Config, steps: seq<Step>)
    requires Exec(cfg, START, steps).Some?
    ensures var r := Exec(cfg, START, steps).value;
            && (cfg.stopCancels ==>
                  forall w | w in r.st.parent && r.st.parent[w] in r.removed :: Cancelled(r.st, w))
            && (forall id | id in r.st.stops :: |r.st.stops[id].workers| <= Cap(cfg) + cfg.numWorkers)
  {
    RunSafe(cfg, START, steps);
  }

  // Uninterrupted calls are the atomic operations

  function Goes(t: ThreadId, n: nat): seq<Step> {
    if n == 0 then [] else [Go(t)] + Goes(t, n - 1)
  }

  lemma ExecGoes(cfg: Config, r: Race, t: ThreadId, n: nat)
    requires n > 0 && Enabled(r, Go(t))
    ensures Exec(cfg, r, Goes(t, n)) == Exec(cfg, Section(cfg, r, t), Goes(t, n - 1))
  {
    assert Goes(t, n)[1..] == Goes(t, n - 1);
  }

  /** A call that nobody interrupts: thread `t` starts as `thread` and runs `n` sections. */
  function Alone(t: ThreadId, thread: Thread, n: nat): seq<Step> {
    [Launch(t, thread)] + Goes(t, n)
  }

  ghost predicate Idle(r: Race, t: ThreadId) {
    r.lock.None? && t !in r.threads
  }

  lemma ExecAlone(cfg: Config, r: Race, t: ThreadId, thread: Thread, n: nat)
    requires Enabled(r, Launch(t, thread))
    ensures Exec(cfg, r, Alone(t, thread, n)) == Exec(cfg, Becomes(r, t, thread), Goes(t, n))
  {
    assert Alone(t, thread, n)[1..] == Goes(t, n);
  }

  lemma {:induction false} SpawnAlone(cfg: Config, r: Race, t: ThreadId, id: Id, q: QueueRef, made: StoreState, k: nat)
    requires k <= ToStart(cfg)
    requires t in r.threads && r.threads[t] == GetMade(id, q, Started(made, k)) && r.st == SpawnAll(made, q, k)
    requires r.lock == Some(t)
    ensures Exec(cfg, r, Goes(t, ToStart(cfg) - k + 1)) == Some(Becomes(r, t, Returned).(lock := None,
              st := AddStoppers(SpawnAll(made, q, ToStart(cfg)), id, q, Started(made, ToStart(cfg)))))
    decreases ToStart(cfg) - k
  {
    var next := Section(cfg, r, t);
    ExecGoes(cfg, r, t, ToStart(cfg) - k + 1);
    if k < ToStart(cfg) {
      SpawnAllEffect(made, q, k);
      assert Started(made, k) + [r.st.nextWorker] == Started(made, k + 1);
      SpawnAlone(cfg, next, t, id, q, made, k + 1);
      assert Becomes(next, t, Returned) == Becomes(r, t, Returned).(st := next.st);
    }
  }

  /** Get, uninterrupted, is the atomic Get. */
  lemma GetAlone(cfg: Config, r: Race, t: ThreadId, id: Id)
    requires Idle(r, t)
    ensures Exec(cfg, r, Alone(t, GetStart(id), GetSections(cfg, r, id)))
         == Some(Becomes(r, t, Returned).(st := GetOp(cfg, r.st, id)))
  {
    ExecAlone(cfg, r, t, GetStart(id), GetSections(cfg, r, id));
    if id in r.st.m {
      var r1 := Becomes(r, t, GetStart(id));
      ExecGoes(cfg, r1, t, 1);
      assert Section(cfg, r1, t) == Becomes(r, t, Returned);
      assert Exec(cfg, Section(cfg, r1, t), Goes(t, 0)) == Some(Section(cfg, r1, t));
    } else {
      GetMissAlone(cfg, r, t, id);
    }
  }

  function GetSections(cfg: Config, r: Race, id: Id): nat {
    if id in r.st.m then 1 else 4 + ToStart(cfg)
  }

  lemma GetMissAlone(cfg: Config, r: Race, t: ThreadId, id: Id)
    requires Idle(r, t) && id !in r.st.m
    ensures Exec(cfg, Becomes(r, t, GetStart(id)), Goes(t, 4 + ToStart(cfg)))
         == Some(Becomes(r, t, Returned).(st := GetOp(cfg, r.st, id)))
  {
    hide Exec, Goes, SpawnAll, Started;
    var made := Construct(r.st, id);
    var r1 := Becomes(r, t, GetStart(id));
    var r2 := Section(cfg, r1, t);
    var r3 := Section(cfg, r2, t);
    var r4 := Section(cfg, r3, t);
    ExecGoes(cfg, r1, t, 4 + ToStart(cfg));
    ExecGoes(cfg, r2, t, 3 + ToStart(cfg));
    ExecGoes(cfg, r3, t, 2 + ToStart(cfg));
    NothingStarted(made, r.st.nextQueue);
    SpawnAlone(cfg, r4, t, id, r.st.nextQueue, made, 0);
    assert Becomes(r4, t, Returned).(lock := None, st := r.st) == Becomes(r, t, Returned);
  }

  lemma NothingStarted(st: StoreState, q: QueueRef)
    ensures Started(st, 0) == [] && SpawnAll(st, q, 0) == st
  {}

  /** Remove, uninterrupted, is the atomic Remove, and records the queue it removes. */
  lemma RemoveAlone(cfg: Config, r: Race, t: ThreadId, id: Id)
    requires Idle(r, t)
    ensures var removed := if id in r.st.m then r.removed + {r.st.m[id]} else r.removed;
            var end := Becomes(r, t, Returned).(st := RemoveOp(cfg, r.st, id), removed := removed);
            Exec(cfg, r, Alone(t, RemoveWaiting(id), if id in r.st.stops then 5 else 3)) == Some(end)
  {
    hide Exec, Goes;
    var n := if id in r.st.stops then 5 else 3;
    ExecAlone(cfg, r, t, RemoveWaiting(id), n);
    var r1 := Becomes(r, t, RemoveWaiting(id));
    var r2 := Section(cfg, r1, t);
    var r3 := Section(cfg, r2, t);
    ExecGoes(cfg, r1, t, n);
    ExecGoes(cfg, r2, t, n - 1);
    assert Becomes(r3, t, Returned).threads == Becomes(r, t, Returned).threads;
    if id in r.st.stops {
      RemoveDetachedAlone(cfg, r3, t);
      assert r3.threads[t] == RemoveDetached(id, r.st.stops[id].queue, r.st.stops[id].workers);
    } else {
      ExecGoes(cfg, r3, t, 1);
      GoesNowhere(cfg, Section(cfg, r3, t), t);
    }
  }

  lemma RemoveDetachedAlone(cfg: Config, r: Race, t: ThreadId)
    requires t in r.threads && r.threads[t].RemoveDetached?
    ensures var RemoveDetached(id, queue, workers) := r.threads[t];
            var cancelled := CancelWorkers(CancelQueue(cfg, r.st, queue), set w | w in workers);
            var removed := if id in r.st.m then r.removed + {r.st.m[id]} else r.removed;
            var end := Becomes(r, t, Returned).(st := Delete(cancelled, id), lock := None, removed := removed);
            Exec(cfg, r, Goes(t, 3)) == Some(end)
  {
    hide Exec, Goes;
    var r4 := Section(cfg, r, t);
    var r5 := Section(cfg, r4, t);
    var r6 := Section(cfg, r5, t);
    ExecGoes(cfg, r, t, 3);
    ExecGoes(cfg, r4, t, 2);
    ExecGoes(cfg, r5, t, 1);
    GoesNowhere(cfg, r6, t);
    assert r6.threads == Becomes(r, t, Returned).threads;
  }

  lemma GoesNowhere(cfg: Config, r: Race, t: ThreadId)
    ensures Exec(cfg, r, Goes(t, 0)) == Some(r)
  {}

  /** addWorker, uninterrupted, is the atomic addWorker. */
  lemma AddAlone(cfg: Config, r: Race, t: ThreadId, id: Id)
    requires Idle(r, t)
    ensures var early := cfg.numWorkers == cfg.maxNumWorkers || !cfg.hasConstructor || id !in r.st.m;
            var end := Becomes(r, t, Returned).(st := AddWorkerOp(cfg, r.st, id));
            Exec(cfg, r, Alone(t, AddStart(id), if early then 1 else 2)) == Some(end)
  {
    hide Exec, Goes;
    var early := cfg.numWorkers == cfg.maxNumWorkers || !cfg.hasConstructor || id !in r.st.m;
    var n := if early then 1 else 2;
    ExecAlone(cfg, r, t, AddStart(id), n);
    var r1 := Becomes(r, t, AddStart(id));
    var r2 := Section(cfg, r1, t);
    ExecGoes(cfg, r1, t, n);
    if early {
      GoesNowhere(cfg, r2, t);
      assert r2.threads == Becomes(r, t, Returned).threads;
    } else {
      ExecGoes(cfg, r2, t, 1);
      GoesNowhere(cfg, Section(cfg, r2, t), t);
      assert Section(cfg, r2, t).threads == Becomes(r, t, Returned).threads;
    }
  }

  function StopSections(cfg: Config, st: StoreState, id: Id): nat {
    if cfg.numWorkers == cfg.maxNumWorkers || id !in st.m then 1 else if LastStoppable(st, id).None? then 2 else 3
  }

  /** stopWorker, uninterrupted, is the atomic stopWorker. */
  lemma StopAlone(cfg: Config, r: Race, t: ThreadId, id: Id)
    requires Idle(r, t)
    ensures Exec(cfg, r, Alone(t, StopStart(id), StopSections(cfg, r.st, id)))
         == Some(Becomes(r, t, Returned).(st := StopWorkerOp(cfg, r.st, id)))
  {
    hide Exec, Goes, LastStoppable;
    var n := StopSections(cfg, r.st, id);
    ExecAlone(cfg, r, t, StopStart(id), n);
    var r1 := Becomes(r, t, StopStart(id));
    var r2 := Section(cfg, r1, t);
    ExecGoes(cfg, r1, t, n);
    if n == 1 {
      GoesNowhere(cfg, r2, t);
      assert r2.threads == Becomes(r, t, Returned).threads;
    } else {
      assert r2 == Becomes(r1, t, StopLoaded(id));
      StopLoadedAlone(cfg, r2, t, n - 1);
      assert Becomes(r2, t, Returned).threads == Becomes(r, t, Returned).threads;
    }
  }

  lemma StopLoadedAlone(cfg: Config, r: Race, t: ThreadId, n: nat)
    requires t in r.threads && r.threads[t].StopLoaded?
    requires n == if LastStoppable(r.st, r.threads[t].id).None? then 1 else 2
    ensures var id := r.threads[t].id;
            var last := LastStoppable(r.st, id);
            var st := if last.None? then r.st else CancelWorkers(DropLast(r.st, id), {last.value});
            Exec(cfg, r, Goes(t, n)) == Some(Becomes(r, t, Returned).(st := st))
  {
    hide Exec, Goes;
    var r3 := Section(cfg, r, t);
    ExecGoes(cfg, r, t, n);
    if n == 1 {
      GoesNowhere(cfg, r3, t);
    } else {
      ExecGoes(cfg, r3, t, 1);
      GoesNowhere(cfg, Section(cfg, r3, t), t);
      assert Section(cfg, r3, t).threads == Becomes(r, t, Returned).threads;
    }
  }

  lemma {:induction false} ExecConcat(cfg: Config, r: Race, a: seq<Step>, b: seq<Step>)
    requires Exec(cfg, r, a).Some?
    ensures Exec(cfg, r, a + b) == Exec(cfg, Exec(cfg, r, a).value, b)
    decreases |a|
  {
    hide Enabled, Next;
    if a == [] {
      assert a + b == b;
    } else {
      assert (a + b)[0] == a[0] && (a + b)[1..] == a[1..] + b;
      ExecConcat(cfg, Next(cfg, r, a[0]), a[1..], b);
    }
  }
}
