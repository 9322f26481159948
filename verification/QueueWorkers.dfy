/**
 Worker goroutines on one in-memory queue, interleaved with each other, with enqueuers, with other
 callers of the queue and with cancellations. A worker checks its context, dequeues, processes, hands
 a panic to the recover function, and calls its cancel callbacks when it ends.
 */
module QueueWorkers {
  import opened Wrappers
  import opened MemoryQueue

  type WorkerId = nat

  datatype WorkerPhase<+T> =
    | Checking
    | Dequeuing(id: CallId)
    | Processing(id: CallId, job: T)
    | Recovering(id: CallId, job: T)
    | Ended

  /** `called` lists the cancel callbacks that have been called, by index. */
  datatype Worker<+T> = Worker(ctx: Ctx, callbacks: nat, phase: WorkerPhase<T>, called: seq<nat>)

  datatype Job<+T> = Job(worker: WorkerId, id: CallId, item: T)

  /** `owner` records which worker made a call; the last three are what reached the user's functions. */
  datatype System<T> = System(queue: State<T>, workers: map<WorkerId, Worker<T>>, owner: map<CallId, WorkerId>,
                              processed: seq<Job<T>>, panicked: seq<Job<T>>, recovered: seq<Job<T>>)

  function Start<T>(): System<T> {
    System(MemoryQueue.Init(), map[], map[], [], [], [])
  }

  datatype Move<T> =
    | QueueMove(step: Step<T>)                             // anything that happens to the queue
    | Spawn(w: WorkerId, ctx: Ctx, callbacks: nat)
    | Check(w: WorkerId, id: CallId)                       // the loop head; `id` names the call it makes
    | Return(w: WorkerId)                                  // the dequeue comes back
    | Finish(w: WorkerId, panics: bool)                    // the processor returns or panics
    | Recover(w: WorkerId)

  function Callbacks(n: nat): seq<nat> {
    seq(n, i => i)
  }

  function End<T>(worker: Worker<T>): Worker<T> {
    worker.(phase := Ended, called := worker.called + Callbacks(worker.callbacks))
  }

  predicate Possible<T>(sys: System<T>, m: Move<T>) {
    match m
    case QueueMove(s) => Enabled(sys.queue, s) && (s.Begin? ==> s.id !in sys.owner)
    case Spawn(w, _, _) => w !in sys.workers
    case Check(w, id) =>
      && w in sys.workers && sys.workers[w].phase.Checking? && id !in sys.owner
      && Enabled(sys.queue, Begin(id, sys.workers[w].ctx))
    case Return(w) =>
      w in sys.workers && sys.workers[w].phase.Dequeuing? && sys.workers[w].phase.id in sys.queue.results
    case Finish(w, _) => w in sys.workers && sys.workers[w].phase.Processing?
    case Recover(w) => w in sys.workers && sys.workers[w].phase.Recovering?
  }

  function Enter<T>(sys: System<T>, w: WorkerId, phase: WorkerPhase<T>): System<T>
    requires w in sys.workers
  {
    sys.(workers := sys.workers[w := sys.workers[w].(phase := phase)])
  }

  function Apply<T>(sys: System<T>, m: Move<T>): System<T>
    requires Possible(sys, m)
  {
    match m
    case QueueMove(s) => sys.(queue := Next(sys.queue, s))
    case Spawn(w, ctx, n) => sys.(workers := sys.workers[w := Worker(ctx, n, Checking, [])])
    case Check(w, id) =>
      var worker := sys.workers[w];
      if Cancelled(sys.queue, worker.ctx) then sys.(workers := sys.workers[w := End(worker)])
      else Enter(sys, w, Dequeuing(id)).(queue := Next(sys.queue, Begin(id, worker.ctx)), owner := sys.owner[id := w])
    case Return(w) =>
      var worker := sys.workers[w];
      (match sys.queue.results[worker.phase.id]
       case Item(x) =>
         Enter(sys, w, Processing(worker.phase.id, x)).(processed := sys.processed + [Job(w, worker.phase.id, x)])
       case QueueCanceled => sys.(workers := sys.workers[w := End(worker)])
       case ContextCanceled =>
         if Cancelled(sys.queue, worker.ctx) then sys.(workers := sys.workers[w := End(worker)])
         else Enter(sys, w, Ended))
    case Finish(w, panics) =>
      var p := sys.workers[w].phase;
      if panics then Enter(sys, w, Recovering(p.id, p.job)).(panicked := sys.panicked + [Job(w, p.id, p.job)])
      else Enter(sys, w, Checking)
    case Recover(w) =>
      var p := sys.workers[w].phase;
      Enter(sys, w, Checking).(recovered := sys.recovered + [Job(w, p.id, p.job)])
  }

  function Play<T>(sys: System<T>, moves: seq<Move<T>>): Option<System<T>>
    decreases |moves|
  {
    if moves == [] then Some(sys)
    else if Possible(sys, moves[0]) then Play(Apply(sys, moves[0]), moves[1..])
    else None
  }

  // What every run keeps

  /** No call occurs twice. */
  ghost predicate Distinct<T>(jobs: seq<Job<T>>) {
    forall i, j | 0 <= i < j < |jobs| :: jobs[i].id != jobs[j].id
  }

  /** A dequeuing worker owns its call, which waits under the worker's context or has a result. */
  ghost predicate CallsOwned<T>(sys: System<T>) {
    forall w | w in sys.workers && sys.workers[w].phase.Dequeuing? ::
      var id := sys.workers[w].phase.id;
      && id in sys.owner && sys.owner[id] == w
      && (id in sys.queue.calls || id in sys.queue.results)
      && (id in sys.queue.calls ==> sys.queue.calls[id].ctx == sys.workers[w].ctx)
      && (id in sys.queue.results && sys.queue.results[id].ContextCanceled?
          ==> Cancelled(sys.queue, sys.workers[w].ctx))
      && (forall k | 0 <= k < |sys.processed| :: sys.processed[k].id != id)
  }

  /** What reaches the processor is the item of a call that the worker made; no call's item reaches it twice. */
  ghost predicate ProcessedFit<T(!new)>(sys: System<T>) {
    && Distinct(sys.processed)
    && (forall k | 0 <= k < |sys.processed| ::
          var j := sys.processed[k];
          && j.id in sys.owner && sys.owner[j.id] == j.worker
          && j.id in sys.queue.results && sys.queue.results[j.id] == Item(j.item))
  }

  /** An item a worker took is processed, unless the worker has not come back from the dequeue yet. */
  ghost predicate TakenIsProcessed<T(!new)>(sys: System<T>) {
    forall id | id in sys.owner ::
      && sys.owner[id] in sys.workers
      && (sys.workers[sys.owner[id]].phase != Dequeuing(id) ==>
            && id in sys.queue.results
            && (sys.queue.results[id].Item? ==> Job(sys.owner[id], id, sys.queue.results[id].item) in sys.processed))
  }

  function JobOf<T>(w: WorkerId, p: WorkerPhase<T>): Job<T>
    requires p.Processing? || p.Recovering?
  {
    Job(w, p.id, p.job)
  }

  ghost predicate Fresh<T>(jobs: seq<Job<T>>, id: CallId) {
    forall k | k in jobs :: k.id != id
  }

  /** Panics are panics of processed jobs, one at most for each; a job in the processor has not panicked yet. */
  ghost predicate PanicsFit<T(!new)>(sys: System<T>) {
    && Distinct(sys.panicked)
    && (forall j | j in sys.panicked :: j in sys.processed)
    && (forall w | w in sys.workers && sys.workers[w].phase.Processing? ::
          JobOf(w, sys.workers[w].phase) in sys.processed && Fresh(sys.panicked, sys.workers[w].phase.id))
  }

  /** A panic reaches the recover function once, with the job that panicked, before its worker does anything else. */
  ghost predicate PanicsRecovered<T(!new)>(sys: System<T>) {
    && Distinct(sys.recovered)
    && (forall j | j in sys.recovered :: j in sys.panicked)
    && (forall j | j in sys.panicked && j !in sys.recovered ::
          j.worker in sys.workers && sys.workers[j.worker].phase == Recovering(j.id, j.item))
    && (forall w | w in sys.workers && sys.workers[w].phase.Recovering? ::
          JobOf(w, sys.workers[w].phase) in sys.panicked && Fresh(sys.recovered, sys.workers[w].phase.id))
  }

  /** A worker that has ended has called each cancel callback exactly once; others have called none. */
  ghost predicate CallbacksOnce<T>(sys: System<T>) {
    forall w | w in sys.workers ::
      sys.workers[w].called == if sys.workers[w].phase.Ended? then Callbacks(sys.workers[w].callbacks) else []
  }

  ghost predicate Good<T(!new)>(sys: System<T>) {
    && Bookkeeping(sys.queue) && OneCallEach(sys.queue)
    && CallsOwned(sys) && ProcessedFit(sys) && TakenIsProcessed(sys)
    && PanicsFit(sys) && PanicsRecovered(sys) && CallbacksOnce(sys)
  }

  /** Results stay, calls keep their contexts until they are done, contexts stay cancelled. */
  ghost predicate Grows<T>(st: State<T>, next: State<T>) {
    && (forall id | id in st.results :: id in next.results && next.results[id] == st.results[id])
    && (forall id | id in st.calls ::
          || (id in next.calls && next.calls[id].ctx == st.calls[id].ctx && id !in next.results)
          || (id !in next.calls && id in next.results
              && (next.results[id].ContextCanceled? ==> Cancelled(next, st.calls[id].ctx))))
    && (forall id | id in next.calls && id !in st.calls :: id !in st.results)
    && (forall c | Cancelled(st, c) :: Cancelled(next, c))
  }

  lemma QueueStepGrows<T>(st: State<T>, s: Step<T>)
    requires Enabled(st, s) && Bookkeeping(st)
    ensures Grows(st, Next(st, s))
  {
    hide Enabled, Next, Bookkeeping, Grows;
    match s
    case Run(id) => RunGrows(st, id);
    case Stop => CancellationGrows(st, s);
    case Cancel(_) => CancellationGrows(st, s);
    case _ => OtherStepGrows(st, s);
  }

  lemma OtherStepGrows<T>(st: State<T>, s: Step<T>)
    requires !s.Run? && !s.Stop? && !s.Cancel? && Enabled(st, s) && Bookkeeping(st)
    ensures Grows(st, Next(st, s))
  {}

  lemma RunGrows<T>(st: State<T>, id: CallId)
    requires Enabled(st, Run(id)) && Bookkeeping(st)
    ensures Grows(st, Next(st, Run(id)))
  {}

  lemma CancellationGrows<T>(st: State<T>, s: Step<T>)
    requires (s.Stop? || s.Cancel?) && Enabled(st, s) && Bookkeeping(st)
    ensures Grows(st, Next(st, s))
  {}

  lemma GrowingKeepsCallsOwned<T>(sys: System<T>, next: System<T>)
    requires CallsOwned(sys) && Grows(sys.queue, next.queue) && next == sys.(queue := next.queue)
    requires forall id | id in next.queue.calls && id !in sys.queue.calls :: id !in sys.owner
    ensures CallsOwned(next)
  {
    hide Cancelled;
  }

  lemma GrowingKeepsProcessed<T(!new)>(sys: System<T>, next: System<T>)
    requires ProcessedFit(sys) && TakenIsProcessed(sys) && CallsOwned(sys)
    requires Grows(sys.queue, next.queue) && next == sys.(queue := next.queue)
    ensures ProcessedFit(next) && TakenIsProcessed(next)
  {
    hide Cancelled;
  }

  lemma QueueMoveGood<T(!new)>(sys: System<T>, s: Step<T>)
    requires Good(sys) && Possible(sys, QueueMove(s))
    ensures Good(Apply(sys, QueueMove(s)))
  {
    hide Bookkeeping, OneCallEach, Cancelled, CallsOwned, Grows;
    hide ProcessedFit, TakenIsProcessed, PanicsFit, PanicsRecovered;
    StepBookkeeping(sys.queue, s);
    StepOneCallEach(sys.queue, s);
    QueueStepGrows(sys.queue, s);
    var next := Apply(sys, QueueMove(s));
    NewCallsUnowned(sys, s);
    hide Next, Enabled;
    GrowingKeepsCallsOwned(sys, next);
    GrowingKeepsProcessed(sys, next);
    SamePanics(sys, next);
  }

  lemma SamePanics<T(!new)>(sys: System<T>, next: System<T>)
    requires next == sys.(queue := next.queue) && PanicsFit(sys) && PanicsRecovered(sys)
    ensures PanicsFit(next) && PanicsRecovered(next)
  {
    hide Distinct, Fresh;
  }

  /** Only Begin makes a call, and the id it takes is no worker's. */
  lemma NewCallsUnowned<T(!new)>(sys: System<T>, s: Step<T>)
    requires Possible(sys, QueueMove(s))
    ensures forall id | id in Next(sys.queue, s).calls && id !in sys.queue.calls :: id !in sys.owner
  {
    hide Cancelled;
  }

  /** Only worker `w` has changed, and it is in no call. */
  ghost predicate Leaves<T>(sys: System<T>, next: System<T>, w: WorkerId) {
    && w in next.workers && next.workers == sys.workers[w := next.workers[w]] && !next.workers[w].phase.Dequeuing?
    && next.queue == sys.queue && next.owner == sys.owner
  }

  lemma LeaveCallsOwned<T>(sys: System<T>, next: System<T>, w: WorkerId)
    requires CallsOwned(sys) && Leaves(sys, next, w)
    requires |sys.processed| <= |next.processed| && sys.processed == next.processed[..|sys.processed|]
    requires forall k | |sys.processed| <= k < |next.processed| ::
               next.processed[k].id in sys.owner && sys.owner[next.processed[k].id] == w
    ensures CallsOwned(next)
  {
    hide Cancelled;
  }

  lemma LeaveTaken<T(!new)>(sys: System<T>, next: System<T>, w: WorkerId)
    requires TakenIsProcessed(sys) && Leaves(sys, next, w)
    requires forall j | j in sys.processed :: j in next.processed
    requires w in sys.workers && sys.workers[w].phase.Dequeuing? ==>
               var id := sys.workers[w].phase.id;
               id in sys.queue.results
               && (sys.queue.results[id].Item? ==> Job(w, id, sys.queue.results[id].item) in next.processed)
    ensures TakenIsProcessed(next)
  {}

  /** A worker that neither holds a job before nor after leaves panics alone. */
  lemma QuietKeepsPanics<T(!new)>(sys: System<T>, next: System<T>, w: WorkerId)
    requires PanicsFit(sys) && PanicsRecovered(sys)
    requires w in next.workers && next.workers == sys.workers[w := next.workers[w]]
    requires next.processed == sys.processed && next.panicked == sys.panicked && next.recovered == sys.recovered
    requires w in sys.workers ==> !sys.workers[w].phase.Processing? && !sys.workers[w].phase.Recovering?
    requires !next.workers[w].phase.Processing? && !next.workers[w].phase.Recovering?
    ensures PanicsFit(next) && PanicsRecovered(next)
  {
    hide Distinct, Fresh;
  }

  lemma SpawnGood<T(!new)>(sys: System<T>, w: WorkerId, ctx: Ctx, n: nat)
    requires Good(sys) && Possible(sys, Spawn(w, ctx, n))
    ensures Good(Apply(sys, Spawn(w, ctx, n)))
  {
    hide Bookkeeping, OneCallEach, PanicsFit, PanicsRecovered, CallsOwned, TakenIsProcessed;
    var next := Apply(sys, Spawn(w, ctx, n));
    QuietKeepsPanics(sys, next, w);
    LeaveCallsOwned(sys, next, w);
    LeaveTaken(sys, next, w);
  }

  lemma CheckGood<T(!new)>(sys: System<T>, w: WorkerId, id: CallId)
    requires Good(sys) && Possible(sys, Check(w, id))
    ensures Good(Apply(sys, Check(w, id)))
  {
    var next := Apply(sys, Check(w, id));
    if Cancelled(sys.queue, sys.workers[w].ctx) {
      EndGood(sys, w);
    } else {
      var begin := Begin(id, sys.workers[w].ctx);
      var begun := Apply(sys, QueueMove(begin));
      QueueMoveGood(sys, begin);
      assert next.queue == begun.queue && id in begun.queue.calls && begun.queue.calls[id].ctx == sys.workers[w].ctx;
      DequeueGood(begun, w, id);
    }
  }

  /** A worker waits in the call it has just made. */
  lemma DequeueGood<T(!new)>(sys: System<T>, w: WorkerId, id: CallId)
    requires Good(sys) && w in sys.workers && sys.workers[w].phase.Checking? && id !in sys.owner
    requires id in sys.queue.calls && id !in sys.queue.results && sys.queue.calls[id].ctx == sys.workers[w].ctx
    ensures Good(Enter(sys, w, Dequeuing(id)).(owner := sys.owner[id := w]))
  {
    hide Bookkeeping, OneCallEach, Distinct, PanicsFit, PanicsRecovered, CallsOwned, ProcessedFit, TakenIsProcessed;
    QuietKeepsPanics(sys, Enter(sys, w, Dequeuing(id)).(owner := sys.owner[id := w]), w);
    DequeueCallsOwned(sys, w, id);
    DequeueTaken(sys, w, id);
  }

  lemma DequeueTaken<T(!new)>(sys: System<T>, w: WorkerId, id: CallId)
    requires ProcessedFit(sys) && TakenIsProcessed(sys)
    requires w in sys.workers && sys.workers[w].phase.Checking? && id !in sys.owner
    ensures var next := Enter(sys, w, Dequeuing(id)).(owner := sys.owner[id := w]);
            ProcessedFit(next) && TakenIsProcessed(next)
  {
    hide Distinct;
  }

  lemma DequeueCallsOwned<T(!new)>(sys: System<T>, w: WorkerId, id: CallId)
    requires CallsOwned(sys) && ProcessedFit(sys)
    requires w in sys.workers && sys.workers[w].phase.Checking? && id !in sys.owner
    requires id in sys.queue.calls && id !in sys.queue.results && sys.queue.calls[id].ctx == sys.workers[w].ctx
    ensures CallsOwned(Enter(sys, w, Dequeuing(id)).(owner := sys.owner[id := w]))
  {
    hide Cancelled, Distinct;
  }

  /** A worker without a job ends. */
  lemma EndGood<T(!new)>(sys: System<T>, w: WorkerId)
    requires Good(sys) && w in sys.workers && (sys.workers[w].phase.Checking? || sys.workers[w].phase.Dequeuing?)
    requires sys.workers[w].phase.Dequeuing? ==>
               sys.workers[w].phase.id in sys.queue.results && !sys.queue.results[sys.workers[w].phase.id].Item?
    ensures Good(sys.(workers := sys.workers[w := End(sys.workers[w])]))
  {
    hide Bookkeeping, OneCallEach, PanicsFit, PanicsRecovered, CallsOwned, TakenIsProcessed, Callbacks;
    var next := sys.(workers := sys.workers[w := End(sys.workers[w])]);
    QuietKeepsPanics(sys, next, w);
    LeaveCallsOwned(sys, next, w);
    LeaveTaken(sys, next, w);
    assert [] + Callbacks(sys.workers[w].callbacks) == Callbacks(sys.workers[w].callbacks);
  }

  lemma SameId<T>(jobs: seq<Job<T>>, a: Job<T>, b: Job<T>)
    requires Distinct(jobs) && a in jobs && b in jobs && a.id == b.id
    ensures a == b
  {}

  lemma DistinctAppend<T>(jobs: seq<Job<T>>, j: Job<T>)
    requires Distinct(jobs) && forall k | k in jobs :: k.id != j.id
    ensures Distinct(jobs + [j])
    ensures forall k :: k in jobs + [j] <==> k in jobs || k == j
  {}

  lemma ReturnGood<T(!new)>(sys: System<T>, w: WorkerId)
    requires Good(sys) && Possible(sys, Return(w))
    ensures Good(Apply(sys, Return(w)))
  {
    var id := sys.workers[w].phase.id;
    if sys.queue.results[id].Item? {
      TakeGood(sys, w, id, sys.queue.results[id].item);
    } else {
      EndGood(sys, w);
      hide Bookkeeping, OneCallEach, PanicsFit, PanicsRecovered, TakenIsProcessed, ProcessedFit, CallbacksOnce;
    }
  }

  /** A worker takes its item to the processor. */
  lemma TakeGood<T(!new)>(sys: System<T>, w: WorkerId, id: CallId, x: T)
    requires Good(sys) && w in sys.workers && sys.workers[w].phase == Dequeuing(id)
    requires id in sys.queue.results && sys.queue.results[id] == Item(x)
    ensures Good(Enter(sys, w, Processing(id, x)).(processed := sys.processed + [Job(w, id, x)]))
  {
    var next := Enter(sys, w, Processing(id, x)).(processed := sys.processed + [Job(w, id, x)]);
    LeaveCallsOwned(sys, next, w);
    LeaveTaken(sys, next, w);
    TakeProcessed(sys, w, id, x);
    TakePanics(sys, next, w);
    hide Bookkeeping, OneCallEach, PanicsFit, PanicsRecovered, CallsOwned, TakenIsProcessed, ProcessedFit;
  }

  lemma TakeProcessed<T(!new)>(sys: System<T>, w: WorkerId, id: CallId, x: T)
    requires ProcessedFit(sys) && CallsOwned(sys) && w in sys.workers && sys.workers[w].phase == Dequeuing(id)
    requires id in sys.queue.results && sys.queue.results[id] == Item(x)
    ensures ProcessedFit(Enter(sys, w, Processing(id, x)).(processed := sys.processed + [Job(w, id, x)]))
  {
    hide Cancelled;
    DistinctAppend(sys.processed, Job(w, id, x));
    hide Distinct;
  }

  lemma TakePanics<T(!new)>(sys: System<T>, next: System<T>, w: WorkerId)
    requires PanicsFit(sys) && PanicsRecovered(sys) && CallsOwned(sys)
    requires w in sys.workers && sys.workers[w].phase.Dequeuing?
    requires w in next.workers && next.workers == sys.workers[w := next.workers[w]] && next.workers[w].phase.Processing?
    requires next.workers[w].phase.id == sys.workers[w].phase.id
    requires next.processed == sys.processed + [JobOf(w, next.workers[w].phase)]
    requires next.panicked == sys.panicked && next.recovered == sys.recovered
    ensures PanicsFit(next) && PanicsRecovered(next)
  {
    hide Cancelled, Distinct;
    assert Fresh(sys.processed, sys.workers[w].phase.id);
    assert Fresh(sys.panicked, sys.workers[w].phase.id);
  }

  lemma FinishGood<T(!new)>(sys: System<T>, w: WorkerId, panics: bool)
    requires Good(sys) && Possible(sys, Finish(w, panics))
    ensures Good(Apply(sys, Finish(w, panics)))
  {
    hide Bookkeeping, OneCallEach, Cancelled, PanicsFit, PanicsRecovered;
    FinishPanicsFit(sys, w, panics);
    FinishPanicsRecovered(sys, w, panics);
  }

  lemma FinishPanicsFit<T(!new)>(sys: System<T>, w: WorkerId, panics: bool)
    requires PanicsFit(sys) && Distinct(sys.processed) && Possible(sys, Finish(w, panics))
    ensures PanicsFit(Apply(sys, Finish(w, panics)))
  {
    var next := Apply(sys, Finish(w, panics));
    if panics {
      var j := JobOf(w, sys.workers[w].phase);
      DistinctAppend(sys.panicked, j);
      hide Distinct;
      forall v | v in next.workers && next.workers[v].phase.Processing?
        ensures Fresh(next.panicked, next.workers[v].phase.id)
      {
        if next.workers[v].phase.id == j.id {
          SameId(sys.processed, JobOf(v, sys.workers[v].phase), j);
        }
      }
    }
  }

  lemma FinishPanicsRecovered<T(!new)>(sys: System<T>, w: WorkerId, panics: bool)
    requires PanicsFit(sys) && PanicsRecovered(sys) && Possible(sys, Finish(w, panics))
    ensures PanicsRecovered(Apply(sys, Finish(w, panics)))
  {
    hide Distinct;
    var next := Apply(sys, Finish(w, panics));
    if panics {
      var j := JobOf(w, sys.workers[w].phase);
      assert forall k :: k in next.panicked <==> k in sys.panicked || k == j;
      assert Fresh(sys.recovered, j.id) by {
        forall k | k in sys.recovered ensures k.id != j.id {
          assert k in sys.panicked;
        }
      }
    }
  }

  lemma RecoverGood<T(!new)>(sys: System<T>, w: WorkerId)
    requires Good(sys) && Possible(sys, Recover(w))
    ensures Good(Apply(sys, Recover(w)))
  {
    hide Bookkeeping, OneCallEach, CallsOwned, TakenIsProcessed, ProcessedFit, PanicsFit, PanicsRecovered;
    var next := Apply(sys, Recover(w));
    RecoverPanicsRecovered(sys, w);
    LeaveCallsOwned(sys, next, w);
    LeaveTaken(sys, next, w);
    SameProcessed(sys, next, w);
  }

  /** A worker that no longer recovers is in no processor. */
  lemma SameProcessed<T(!new)>(sys: System<T>, next: System<T>, w: WorkerId)
    requires ProcessedFit(sys) && PanicsFit(sys) && Leaves(sys, next, w) && !next.workers[w].phase.Processing?
    requires next.processed == sys.processed && next.panicked == sys.panicked
    ensures ProcessedFit(next) && PanicsFit(next)
  {
    hide Distinct, Fresh;
  }

  lemma RecoverPanicsRecovered<T(!new)>(sys: System<T>, w: WorkerId)
    requires PanicsFit(sys) && PanicsRecovered(sys) && Possible(sys, Recover(w))
    ensures PanicsRecovered(Apply(sys, Recover(w)))
  {
    var next := Apply(sys, Recover(w));
    var j := JobOf(w, sys.workers[w].phase);
    DistinctAppend(sys.recovered, j);
    forall v | v in next.workers && next.workers[v].phase.Recovering?
      ensures Fresh(next.recovered, next.workers[v].phase.id)
    {
      if next.workers[v].phase.id == j.id {
        SameId(sys.panicked, JobOf(v, sys.workers[v].phase), j);
      }
    }
    forall k | k in next.panicked && k !in next.recovered
      ensures k.worker in next.workers && next.workers[k.worker].phase == Recovering(k.id, k.item)
    {
      assert k in sys.panicked && k !in sys.recovered && k != j;
    }
  }

  lemma MoveGood<T(!new)>(sys: System<T>, m: Move<T>)
    requires Good(sys) && Possible(sys, m)
    ensures Good(Apply(sys, m))
  {
    hide Apply, Good;
    match m
    case QueueMove(s) => QueueMoveGood(sys, s);
    case Spawn(w, ctx, n) => SpawnGood(sys, w, ctx, n);
    case Check(w, id) => CheckGood(sys, w, id);
    case Return(w) => ReturnGood(sys, w);
    case Finish(w, panics) => FinishGood(sys, w, panics);
    case Recover(w) => RecoverGood(sys, w);
  }

  lemma {:induction false} PlayGood<T(!new)>(sys: System<T>, moves: seq<Move<T>>)
    requires Good(sys) && Play(sys, moves).Some?
    ensures Good(Play(sys, moves).value)
    decreases |moves|
  {
    hide Possible, Apply, Good;
    if moves != [] {
      MoveGood(sys, moves[0]);
      PlayGood(Apply(sys, moves[0]), moves[1..]);
    }
  }

  /** The system starts good, so every run of it is. */
  lemma EveryRunIsGood<T(!new)>(moves: seq<Move<T>>)
    requires Play(Start<T>(), moves).Some?
    ensures Good(Play(Start<T>(), moves).value)
  {
    PlayGood(Start<T>(), moves);
  }

  /**
   Exactly once: in every run, no two processed jobs come from one dequeue, and what is processed is
   what the queue handed to that worker's call; once a worker's calls have come back, all the items
   they took have been processed; every panic is recovered with its job once its worker goes on; and a
   worker that has ended has called every cancel callback once.
   */
  lemma ExactlyOnce<T(!new)>(moves: seq<Move<T>>)
    requires Play(Start<T>(), moves).Some?
    ensures var sys := Play(Start<T>(), moves).value;
            && (forall i, j | 0 <= i < j < |sys.processed| :: sys.processed[i].id != sys.processed[j].id)
            && (forall j | j in sys.processed :: exists i ::
                  0 <= i < |sys.queue.handed| && sys.queue.handed[i] == (j.id, j.item))
            && (forall i | 0 <= i < |sys.queue.handed| && sys.queue.handed[i].0 in sys.owner ::
                  var w := sys.owner[sys.queue.handed[i].0];
                  w in sys.workers && (sys.workers[w].phase == Dequeuing(sys.queue.handed[i].0) ||
                    Job(w, sys.queue.handed[i].0, sys.queue.handed[i].1) in sys.processed))
            && (forall j | j in sys.panicked && j !in sys.recovered ::
                  j.worker in sys.workers && sys.workers[j.worker].phase == Recovering(j.id, j.item))
            && (forall w | w in sys.workers && sys.workers[w].phase.Ended? ::
                  |sys.workers[w].called| == sys.workers[w].callbacks
                  && forall i | 0 <= i < sys.workers[w].callbacks :: sys.workers[w].called[i] == i)
  {
    EveryRunIsGood(moves);
    var sys := Play(Start<T>(), moves).value;
    forall j | j in sys.processed
      ensures exists i :: 0 <= i < |sys.queue.handed| && sys.queue.handed[i] == (j.id, j.item)
    {
      assert HandedTo(sys.queue.handed, j.id);
      var i :| 0 <= i < |sys.queue.handed| && sys.queue.handed[i].0 == j.id;
      assert sys.queue.handed[i] == (j.id, j.item);
    }
  }

  // When a worker ends

  /** Every worker that has ended was told to: by its context, or by the queue. */
  ghost predicate EndsFit<T>(sys: System<T>) {
    forall w | w in sys.workers && sys.workers[w].phase.Ended? ::
      Cancelled(sys.queue, sys.workers[w].ctx) || sys.queue.stopped
  }

  lemma QueueMoveEnds<T(!new)>(sys: System<T>, s: Step<T>)
    requires Bookkeeping(sys.queue) && Drained(sys.queue) && EndsFit(sys) && Possible(sys, QueueMove(s))
    ensures EndsFit(Apply(sys, QueueMove(s))) && Drained(Apply(sys, QueueMove(s)).queue)
  {
    QueueStepGrows(sys.queue, s);
    StepDrains(sys.queue, s);
    hide Next, Enabled, Drained, Cancelled, Bookkeeping;
  }

  lemma MoveEnds<T(!new)>(sys: System<T>, m: Move<T>)
    requires Good(sys) && Drained(sys.queue) && EndsFit(sys) && Possible(sys, m)
    ensures EndsFit(Apply(sys, m)) && Drained(Apply(sys, m).queue)
  {
    hide OneCallEach, ProcessedFit, TakenIsProcessed, PanicsFit, PanicsRecovered, CallbacksOnce;
    match m
    case QueueMove(s) => QueueMoveEnds(sys, s);
    case Check(w, id) =>
      if !Cancelled(sys.queue, sys.workers[w].ctx) {
        QueueMoveEnds(sys, Begin(id, sys.workers[w].ctx));
      }
      hide Bookkeeping, CallsOwned, Drained;
    case Return(w) =>
      hide Bookkeeping;
    case _ =>
      hide Bookkeeping, CallsOwned, Drained;
  }

  lemma {:induction false} PlayEnds<T(!new)>(sys: System<T>, moves: seq<Move<T>>)
    requires Good(sys) && Drained(sys.queue) && EndsFit(sys) && Play(sys, moves).Some?
    ensures EndsFit(Play(sys, moves).value)
    decreases |moves|
  {
    hide Apply, Possible, Good, Drained, EndsFit;
    if moves != [] {
      MoveGood(sys, moves[0]);
      MoveEnds(sys, moves[0]);
      PlayEnds(Apply(sys, moves[0]), moves[1..]);
    }
  }

  /** Over every run: a worker has ended only if its context is cancelled or its queue is stopped. */
  lemma WorkersEndOnlyWhenTold<T(!new)>(moves: seq<Move<T>>, w: WorkerId)
    requires Play(Start<T>(), moves).Some?
    requires var sys := Play(Start<T>(), moves).value; w in sys.workers && sys.workers[w].phase.Ended?
    ensures var sys := Play(Start<T>(), moves).value;
            Cancelled(sys.queue, sys.workers[w].ctx) || sys.queue.stopped
  {
    PlayEnds(Start<T>(), moves);
  }

  lemma {:induction false} WorkerStaysItself<T>(sys: System<T>, moves: seq<Move<T>>, w: WorkerId)
    requires w in sys.workers && Play(sys, moves).Some?
    ensures var end := Play(sys, moves).value;
            w in end.workers && end.workers[w].ctx == sys.workers[w].ctx
            && end.workers[w].callbacks == sys.workers[w].callbacks
    decreases |moves|
  {
    hide Next;
    if moves != [] {
      WorkerStaysItself(Apply(sys, moves[0]), moves[1..], w);
    }
  }

  /** A worker has its own context and its own callbacks from its start to the end of the run. */
  lemma SpawnedForGood<T>(sys: System<T>, w: WorkerId, ctx: Ctx, n: nat, moves: seq<Move<T>>)
    requires Possible(sys, Spawn(w, ctx, n)) && Play(Apply(sys, Spawn(w, ctx, n)), moves).Some?
    ensures var end := Play(Apply(sys, Spawn(w, ctx, n)), moves).value;
            w in end.workers && end.workers[w].ctx == ctx && end.workers[w].callbacks == n
  {
    WorkerStaysItself(Apply(sys, Spawn(w, ctx, n)), moves, w);
  }

  /** After a job, and after the recover function if the job panicked, a worker is back at the head of its loop. */
  lemma WorkerGoesOn<T>(sys: System<T>, w: WorkerId, panics: bool)
    requires Possible(sys, Finish(w, panics))
    ensures var moves := if panics then [Finish(w, true), Recover(w)] else [Finish(w, false)];
            && Play(sys, moves).Some?
            && Play(sys, moves).value.workers == sys.workers[w := sys.workers[w].(phase := Checking)]
            && Play(sys, moves).value.queue == sys.queue
  {
    var next := Apply(sys, Finish(w, panics));
    if panics {
      var later: seq<Move<T>> := [Recover(w)];
      var moves: seq<Move<T>> := [Finish(w, true), Recover(w)];
      assert moves[1..] == later && later[1..] == [];
      assert Play(next, later) == Play(Apply(next, Recover(w)), []);
    } else {
      var moves: seq<Move<T>> := [Finish(w, false)];
      assert moves[1..] == [];
    }
  }

  /** A dequeuing worker that can get the lock has an unfinished call under its own context. */
  lemma CallIsOpen<T(!new)>(sys: System<T>, w: WorkerId)
    requires Good(sys) && w in sys.workers && sys.workers[w].phase.Dequeuing?
    requires Enabled(sys.queue, Run(sys.workers[w].phase.id))
    ensures var id := sys.workers[w].phase.id;
            && id in sys.queue.calls && id !in sys.queue.results && sys.queue.calls[id].ctx == sys.workers[w].ctx
  {
    hide Cancelled, WatchersFit, OneCallEach, ProcessedFit, TakenIsProcessed, PanicsFit, PanicsRecovered;
  }

  /** A worker whose context is cancelled when it gets the lock takes no job, whatever is queued. */
  lemma CancelledWorkerTakesNothing<T(!new)>(sys: System<T>, w: WorkerId)
    requires Good(sys) && w in sys.workers && sys.workers[w].phase.Dequeuing?
    requires Cancelled(sys.queue, sys.workers[w].ctx)
    requires Enabled(sys.queue, Run(sys.workers[w].phase.id))
    ensures var id := sys.workers[w].phase.id;
            var next := Next(sys.queue, Run(id));
            && next.items == sys.queue.items && next.handed == sys.queue.handed
            && id in next.results && !next.results[id].Item?
  {
    CallIsOpen(sys, w);
    hide Good, Next, Enabled, Cancelled;
    RunOutcome(sys.queue, sys.workers[w].phase.id);
  }
}
