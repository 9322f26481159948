/**
 The in-memory queue as a machine with one step per lock section. A caller of DequeueContext is
 Entering until it first takes the lock, Sleeping while it is in the condition variable's list, and
 Awake once it has been taken off that list but has not got the lock back. A caller with a context of
 its own also has a watcher goroutine, which broadcasts when that context is cancelled before the
 call is done.
 */
module MemoryQueue {
  import opened Wrappers
  import opened Sequences

  type CallId = nat

  /** Background is never cancelled; OfQueue contexts are children of the queue's own context. */
  datatype Ctx = Background | Own(id: nat) | OfQueue(id: nat)

  datatype Phase = Entering | Sleeping | Awake

  /** Whether the watcher exists, has reached its select, or has left it because of the context. */
  datatype Watcher = NoWatcher | Starting | Parked | Fired

  datatype Call = Call(ctx: Ctx, phase: Phase, watcher: Watcher)

  datatype Outcome<+T> = Item(item: T) | QueueCanceled | ContextCanceled

  /**
   `fired` holds the calls whose watchers still have to broadcast, `orphans` those whose watchers were
   yet to leave the select when the call let go of the lock: the channel they also wait for is closed
   after that. `accepted` and `handed` record what went in and out.
   */
  datatype State<T> = State(
    items: seq<T>, size: int, stopped: bool, cancelled: set<Ctx>, calls: map<CallId, Call>,
    fired: set<CallId>, orphans: map<CallId, Ctx>,
    results: map<CallId, Outcome<T>>, accepted: seq<T>, handed: seq<(CallId, T)>)

  function Init<T>(): State<T> {
    State([], 0, false, {}, map[], {}, map[], map[], [], [])
  }

  predicate Cancelled<T>(st: State<T>, c: Ctx) {
    c in st.cancelled || (c.OfQueue? && st.stopped)
  }

  ghost function Sleepers<T>(st: State<T>): set<CallId> {
    set id | id in st.calls && st.calls[id].phase == Sleeping
  }

  function WakeAll(calls: map<CallId, Call>): map<CallId, Call> {
    map id | id in calls :: if calls[id].phase == Sleeping then calls[id].(phase := Awake) else calls[id]
  }

  // The lock sections

  /** Enqueue; `woken` is the caller that Signal picks. */
  function EnqueueSection<T>(st: State<T>, item: T, woken: Option<CallId>): State<T>
    requires woken.Some? ==> woken.value in st.calls
  {
    if st.stopped then st
    else
      st.(items := st.items + [item], size := st.size + 1, accepted := st.accepted + [item],
          calls := if woken.Some? then st.calls[woken.value := st.calls[woken.value].(phase := Awake)] else st.calls)
  }

  function Done<T>(st: State<T>, id: CallId, o: Outcome<T>): State<T>
    requires id in st.calls
  {
    var call := st.calls[id];
    var watched := call.watcher == Starting || call.watcher == Parked;
    st.(calls := st.calls - {id}, results := st.results[id := o],
        orphans := if watched then st.orphans[id := call.ctx] else st.orphans)
  }

  /** What a caller does with the lock: sleep, give up, or take the front item. */
  function DequeueSection<T>(st: State<T>, id: CallId): State<T>
    requires id in st.calls
  {
    var call := st.calls[id];
    if st.items == [] then
      if st.stopped then Done(st, id, QueueCanceled)
      else if Cancelled(st, call.ctx) then Done(st, id, ContextCanceled)
      else st.(calls := st.calls[id := call.(phase := Sleeping)])
    else if Cancelled(st, call.ctx) then Done(st, id, ContextCanceled)
    else
      Done(st, id, Item(st.items[0])).(items := st.items[1..], size := st.size - 1,
                                       handed := st.handed + [(id, st.items[0])])
  }

  /** What has just been cancelled: one context, or the queue's with all its children. */
  datatype Scope = One(ctx: Ctx) | QueueTree

  predicate Hits(scope: Scope, c: Ctx) {
    if scope.One? then c == scope.ctx else c.OfQueue?
  }

  /** Watchers parked on a context that has just been cancelled leave their select. */
  function Fire(calls: map<CallId, Call>, scope: Scope): map<CallId, Call> {
    map id | id in calls ::
      if calls[id].watcher == Parked && Hits(scope, calls[id].ctx) then calls[id].(watcher := Fired) else calls[id]
  }

  function Firing(calls: map<CallId, Call>, scope: Scope): set<CallId> {
    set id | id in calls && calls[id].watcher == Parked && Hits(scope, calls[id].ctx)
  }

  function StopSection<T>(st: State<T>): State<T> {
    st.(stopped := true, calls := WakeAll(Fire(st.calls, QueueTree)), fired := st.fired + Firing(st.calls, QueueTree))
  }

  // Runs

  datatype Step<T> =
    | Enqueue(item: T, woken: Option<CallId>)
    | Begin(id: CallId, ctx: Ctx)                  // DequeueContext is called
    | Run(id: CallId)                              // a caller gets the lock
    | Park(id: CallId)                             // a watcher reaches its select
    | OrphanChooses(id: CallId, broadcasts: bool)  // a watcher leaves its select after its call was done
    | Cancel(ctx: Ctx)                             // a context is cancelled by its owner
    | Broadcast(id: CallId)
    | Stop

  predicate Enabled<T>(st: State<T>, s: Step<T>) {
    match s
    case Enqueue(_, woken) =>
      if woken.Some? then woken.value in st.calls && st.calls[woken.value].phase == Sleeping
      else st.stopped || forall id | id in st.calls :: st.calls[id].phase != Sleeping
    case Begin(id, _) => id !in st.calls && id !in st.results
    case Run(id) => id in st.calls && st.calls[id].phase != Sleeping
    case Park(id) => id in st.calls && st.calls[id].watcher == Starting
    case OrphanChooses(id, broadcasts) => id in st.orphans && (broadcasts ==> Cancelled(st, st.orphans[id]))
    case Cancel(ctx) => !ctx.Background?
    case Broadcast(id) => id in st.fired
    case Stop => true
  }

  function Next<T>(st: State<T>, s: Step<T>): State<T>
    requires Enabled(st, s)
  {
    match s
    case Enqueue(item, woken) => EnqueueSection(st, item, woken)
    case Begin(id, ctx) =>
      st.(calls := st.calls[id := Call(ctx, Entering, if ctx.Background? then NoWatcher else Starting)])
    case Run(id) => DequeueSection(st, id)
    case Park(id) =>
      if Cancelled(st, st.calls[id].ctx)
      then st.(calls := st.calls[id := st.calls[id].(watcher := Fired)], fired := st.fired + {id})
      else st.(calls := st.calls[id := st.calls[id].(watcher := Parked)])
    case OrphanChooses(id, broadcasts) =>
      st.(orphans := st.orphans - {id}, fired := if broadcasts then st.fired + {id} else st.fired)
    case Cancel(ctx) =>
      st.(cancelled := st.cancelled + {ctx}, calls := Fire(st.calls, One(ctx)),
          fired := st.fired + Firing(st.calls, One(ctx)))
    case Broadcast(id) => st.(calls := WakeAll(st.calls), fired := st.fired - {id})
    case Stop => StopSection(st)
  }

  /** The state after a whole run; None if some step of it was not possible. */
  function Exec<T>(st: State<T>, steps: seq<Step<T>>): Option<State<T>>
    decreases |steps|
  {
    if steps == [] then Some(st)
    else if Enabled(st, steps[0]) then Exec(Next(st, steps[0]), steps[1..])
    else None
  }

  // First in, first out

  function Items<T>(handed: seq<(CallId, T)>): seq<T> {
    seq(|handed|, i requires 0 <= i < |handed| => handed[i].1)
  }

  /** What was handed out, followed by what is queued, is what was accepted, in order. */
  ghost predicate InOrder<T(!new)>(st: State<T>) {
    Items(st.handed) + st.items == st.accepted && st.size == |st.items|
  }

  ghost predicate HandedTo<T(!new)>(handed: seq<(CallId, T)>, id: CallId) {
    exists i :: 0 <= i < |handed| && handed[i].0 == id
  }

  /** Each item that left the queue is the result of one call, and of no other. */
  ghost predicate OneCallEach<T(!new)>(st: State<T>) {
    && (forall i | 0 <= i < |st.handed| ::
          st.handed[i].0 in st.results && st.results[st.handed[i].0] == Item(st.handed[i].1))
    && (forall i, j | 0 <= i < j < |st.handed| :: st.handed[i].0 != st.handed[j].0)
    && (forall id | id in st.results && st.results[id].Item? :: HandedTo(st.handed, id))
    && (forall id | id in st.calls :: id !in st.results)
  }

  ghost predicate Conserved<T(!new)>(st: State<T>) {
    InOrder(st) && OneCallEach(st)
  }

  lemma StepInOrder<T(!new)>(st: State<T>, s: Step<T>)
    requires Enabled(st, s) && InOrder(st)
    ensures InOrder(Next(st, s))
  {
    var next := Next(st, s);
    if |next.handed| != |st.handed| {
      assert st.items == [st.items[0]] + st.items[1..];
      assert Items(next.handed) == Items(st.handed) + [st.items[0]];
    } else if s.Enqueue? && !st.stopped {
      assert (Items(st.handed) + st.items) + [s.item] == Items(st.handed) + (st.items + [s.item]);
    }
  }

  lemma StepOneCallEach<T(!new)>(st: State<T>, s: Step<T>)
    requires Enabled(st, s) && OneCallEach(st)
    ensures OneCallEach(Next(st, s))
  {
    hide HandedTo;
    var next := Next(st, s);
    if s.Run? && s.id in next.results {
      if next.results[s.id].Item? {
        HandedToLast(st.handed, (s.id, st.items[0]));
      }
    }
  }

  lemma HandedToLast<T(!new)>(handed: seq<(CallId, T)>, last: (CallId, T))
    ensures HandedTo(handed + [last], last.0)
    ensures forall id | HandedTo(handed, id) :: HandedTo(handed + [last], id)
  {
    var all := handed + [last];
    assert all[|handed|].0 == last.0;
    forall id | HandedTo(handed, id) ensures HandedTo(all, id) {
      var i :| 0 <= i < |handed| && handed[i].0 == id;
      assert all[i].0 == id;
    }
  }

  /** FIFO conservation over every run. */
  lemma {:induction false} RunConserves<T(!new)>(st: State<T>, steps: seq<Step<T>>)
    requires Conserved(st) && Exec(st, steps).Some?
    ensures Conserved(Exec(st, steps).value)
    decreases |steps|
  {
    if steps != [] {
      StepInOrder(st, steps[0]);
      StepOneCallEach(st, steps[0]);
      RunConserves(Next(st, steps[0]), steps[1..]);
    }
  }

  /** From the empty queue on, whatever the interleaving. */
  lemma FirstInFirstOut<T(!new)>(steps: seq<Step<T>>)
    requires Exec(Init<T>(), steps).Some?
    ensures var st := Exec(Init<T>(), steps).value;
            Items(st.handed) + st.items == st.accepted && st.size == |st.items|
  {
    RunConserves(Init<T>(), steps);
  }

  /** The items of the Enqueue calls before the first stop, read off the run alone. */
  function Offered<T>(steps: seq<Step<T>>): seq<T>
    decreases |steps|
  {
    if steps == [] || steps[0].Stop? then []
    else (if steps[0].Enqueue? then [steps[0].item] else []) + Offered(steps[1..])
  }

  lemma {:induction false} RunAccepts<T>(st: State<T>, steps: seq<Step<T>>)
    requires Exec(st, steps).Some?
    ensures Exec(st, steps).value.accepted == st.accepted + if st.stopped then [] else Offered(steps)
    decreases |steps|
  {
    if steps != [] {
      var s, next := steps[0], Next(st, steps[0]);
      RunAccepts(next, steps[1..]);
      StepAccepts(st, s);
      hide Next, Enabled;
      var one := if s.Enqueue? then [s.item] else [];
      Associates(st.accepted, one, Offered(steps[1..]));
      assert st.accepted + [] == st.accepted;
    }
  }

  lemma StepAccepts<T>(st: State<T>, s: Step<T>)
    requires Enabled(st, s)
    ensures var next := Next(st, s);
            && next.accepted == st.accepted + (if s.Enqueue? && !st.stopped then [s.item] else [])
            && next.stopped == (st.stopped || s.Stop?)
  {
    assert st.accepted + [] == st.accepted;
  }

  /** Nothing that is offered to a running queue is lost: it is handed out or still queued, in the order offered. */
  lemma OfferedInOrder<T(!new)>(steps: seq<Step<T>>)
    requires Exec(Init<T>(), steps).Some?
    ensures var st := Exec(Init<T>(), steps).value; Items(st.handed) + st.items == Offered(steps)
  {
    FirstInFirstOut(steps);
    RunAccepts(Init<T>(), steps);
    assert [] + Offered(steps) == Offered(steps);
  }

  lemma {:induction false} StoppedForGood<T>(st: State<T>, steps: seq<Step<T>>)
    requires st.stopped && Sleepers(st) == {} && Exec(st, steps).Some?
    ensures var end := Exec(st, steps).value; end.stopped && Sleepers(end) == {} && end.accepted == st.accepted
    decreases |steps|
  {
    if steps != [] {
      var next := Next(st, steps[0]);
      forall id | id in next.calls ensures next.calls[id].phase != Sleeping {
        assert id in st.calls ==> id !in Sleepers(st);
      }
      StoppedForGood(next, steps[1..]);
    }
  }

  /** Nothing is accepted, and no caller sleeps or goes to sleep, after a stop. */
  lemma NothingAfterStop<T>(st: State<T>, steps: seq<Step<T>>)
    requires Exec(Next(st, Stop), steps).Some?
    ensures var end := Exec(Next(st, Stop), steps).value; Sleepers(end) == {} && end.accepted == st.accepted
  {
    StoppedForGood(Next(st, Stop), steps);
  }

  /**
   How a call can end: with the oldest item unless its own context is cancelled, even on a stopped
   queue; with the queue's cancellation only when nothing is left; and a cancelled call takes nothing.
   */
  lemma RunOutcome<T>(st: State<T>, id: CallId)
    requires Enabled(st, Run(id)) && id !in st.results
    ensures var next := Next(st, Run(id));
            && (id in next.results <==> id !in next.calls)
            && (id in next.results && next.results[id].Item? <==> st.items != [] && !Cancelled(st, st.calls[id].ctx))
            && (id in next.results && next.results[id] == QueueCanceled <==> st.items == [] && st.stopped)
            && (id in next.results && next.results[id].Item?
                ==> st.items == [next.results[id].item] + next.items && next.size == st.size - 1)
            && (id !in next.results || !next.results[id].Item?
                ==> next.items == st.items && next.handed == st.handed && next.size == st.size)
            && (id !in next.results ==> !st.stopped && st.items == [] && id in Sleepers(next))
  {
    hide Items;
    if st.items != [] {
      assert st.items == [st.items[0]] + st.items[1..];
    }
  }

  ghost predicate Drained<T>(st: State<T>) {
    (exists id :: id in st.results && st.results[id] == QueueCanceled) ==> st.stopped && st.items == []
  }

  lemma StepDrains<T>(st: State<T>, s: Step<T>)
    requires Enabled(st, s) && Drained(st)
    ensures Drained(Next(st, s)) && (st.stopped ==> Next(st, s).stopped)
  {
    var next := Next(st, s);
    forall id | id in next.results && next.results[id] == QueueCanceled ensures next.stopped && next.items == [] {}
  }

  lemma {:induction false} RunDrains<T>(st: State<T>, steps: seq<Step<T>>)
    requires Drained(st) && Exec(st, steps).Some?
    ensures Drained(Exec(st, steps).value)
    decreases |steps|
  {
    if steps != [] {
      StepDrains(st, steps[0]);
      RunDrains(Next(st, steps[0]), steps[1..]);
    }
  }

  /** Leftovers first: in any state of a run in which a call was told Canceled, all that was accepted is handed out. */
  lemma CanceledMeansDrained<T(!new)>(steps: seq<Step<T>>, id: CallId)
    requires Exec(Init<T>(), steps).Some?
    requires var st := Exec(Init<T>(), steps).value; id in st.results && st.results[id] == QueueCanceled
    ensures var st := Exec(Init<T>(), steps).value; st.stopped && st.accepted == Items(st.handed)
  {
    RunDrains(Init<T>(), steps);
    FirstInFirstOut(steps);
    var st := Exec(Init<T>(), steps).value;
    assert Items(st.handed) + [] == Items(st.handed);
  }

  // No lost wakeups

  /** Awakened callers that have not run yet and will take an item when they do. */
  ghost function Takers<T>(st: State<T>): set<CallId> {
    set id | id in st.calls && st.calls[id].phase == Awake && !Cancelled(st, st.calls[id].ctx)
  }

  /** While somebody sleeps and no broadcast is due, every item has an awakened caller that will take it. */
  ghost predicate EveryItemHasTaker<T>(st: State<T>) {
    Sleepers(st) != {} && st.fired == {} ==> |st.items| <= |Takers(st)|
  }

  /** Whoever waits under a cancelled context has had its watcher fire; if it sleeps, the broadcast is due. */
  ghost predicate CancelledAreTold<T>(st: State<T>) {
    forall id | id in st.calls && st.calls[id].phase != Entering && st.calls[id].ctx in st.cancelled ::
      st.calls[id].watcher == Fired && (st.calls[id].phase == Sleeping ==> id in st.fired)
  }

  /** A watcher is where the state of its context says. */
  ghost predicate WatchersFit<T>(st: State<T>) {
    && Background !in st.cancelled
    && (forall id | id in st.calls :: st.calls[id].watcher == NoWatcher <==> st.calls[id].ctx.Background?)
    && (forall id | id in st.calls && st.calls[id].watcher == Parked :: !Cancelled(st, st.calls[id].ctx))
    && (forall id | id in st.calls && st.calls[id].watcher == Fired :: Cancelled(st, st.calls[id].ctx))
  }

  /** No call is active and done at once, and only calls that were made have watchers. */
  ghost predicate CallsFit<T>(st: State<T>) {
    && (st.stopped ==> Sleepers(st) == {})
    && (forall id | id in st.calls :: id !in st.results)
    && (forall id | id in st.fired :: id in st.calls || id in st.results)
    && (forall id | id in st.orphans :: id in st.results)
  }

  ghost predicate Bookkeeping<T>(st: State<T>) {
    WatchersFit(st) && CallsFit(st)
  }

  ghost predicate NoLostWakeup<T>(st: State<T>) {
    Bookkeeping(st) && EveryItemHasTaker(st) && (st.stopped || CancelledAreTold(st))
  }

  /** A context is cancelled only after the watchers of the calls that wait under it reached their select. */
  ghost predicate Prompt<T>(st: State<T>, s: Step<T>) {
    s.Cancel? && !st.stopped ==>
      forall id | id in st.calls && st.calls[id].phase != Entering && st.calls[id].ctx == s.ctx ::
        st.calls[id].watcher != Starting
  }

  /** Wherever nobody falls asleep, a stopped queue stays without sleepers. */
  lemma AwakenedOnly<T>(st: State<T>, next: State<T>)
    requires st.stopped ==> Sleepers(st) == {}
    requires next.stopped == st.stopped
    requires forall id | id in next.calls && next.calls[id].phase == Sleeping ::
               id in st.calls && st.calls[id].phase == Sleeping
    ensures next.stopped ==> Sleepers(next) == {}
  {
    assert Sleepers(next) <= Sleepers(st);
  }

  lemma StepBookkeeping<T>(st: State<T>, s: Step<T>)
    requires Enabled(st, s) && Bookkeeping(st)
    ensures Bookkeeping(Next(st, s))
  {
    StepWatchersFit(st, s);
    StepCallsFit(st, s);
  }

  lemma StepWatchersFit<T>(st: State<T>, s: Step<T>)
    requires Enabled(st, s) && WatchersFit(st)
    ensures WatchersFit(Next(st, s))
  {
    if s.Run? {
      RunWatchersFit(st, s.id);
    } else if s.Stop? || s.Cancel? {
      CancellationWatchersFit(st, s);
    }
  }

  lemma RunWatchersFit<T>(st: State<T>, id: CallId)
    requires Enabled(st, Run(id)) && WatchersFit(st)
    ensures WatchersFit(Next(st, Run(id)))
  {}

  lemma CancellationWatchersFit<T>(st: State<T>, s: Step<T>)
    requires (s.Stop? || s.Cancel?) && Enabled(st, s) && WatchersFit(st)
    ensures WatchersFit(Next(st, s))
  {}

  lemma StepCallsFit<T>(st: State<T>, s: Step<T>)
    requires Enabled(st, s) && CallsFit(st)
    ensures CallsFit(Next(st, s))
  {
    hide Cancelled;
    var next := Next(st, s);
    if s.Stop? {
      assert Sleepers(next) == {};
    } else if next.stopped {
      assert Sleepers(st) == {};
      AwakenedOnly(st, next);
    }
  }

  lemma StepTells<T>(st: State<T>, s: Step<T>)
    requires Enabled(st, s) && NoLostWakeup(st) && Prompt(st, s) && !Next(st, s).stopped
    ensures CancelledAreTold(Next(st, s))
  {}

  lemma RunKeepsTakers<T>(st: State<T>, id: CallId)
    requires Enabled(st, Run(id)) && EveryItemHasTaker(st) && Bookkeeping(st)
    ensures EveryItemHasTaker(Next(st, Run(id)))
  {
    var next := Next(st, Run(id));
    if id in next.results {
      assert Takers(next) == Takers(st) - {id};
      assert Sleepers(next) == Sleepers(st);
    }
  }

  lemma EnqueueKeepsTakers<T>(st: State<T>, s: Step<T>)
    requires s.Enqueue? && Enabled(st, s) && NoLostWakeup(st)
    ensures EveryItemHasTaker(Next(st, s))
  {
    var next := Next(st, s);
    if st.stopped {
    } else if s.woken.Some? {
      var w := s.woken.value;
      assert w in Sleepers(st);
      if st.fired == {} {
        assert st.calls[w].ctx !in st.cancelled;
        assert w !in Takers(st) && Takers(next) == Takers(st) + {w};
      }
    } else {
      assert Sleepers(next) == {};
    }
  }

  lemma CancelKeepsTakers<T>(st: State<T>, s: Step<T>)
    requires s.Cancel? && Enabled(st, s) && NoLostWakeup(st) && Prompt(st, s)
    ensures EveryItemHasTaker(Next(st, s))
  {
    var next := Next(st, s);
    assert Sleepers(next) == Sleepers(st);
    if Sleepers(next) != {} && next.fired == {} {
      forall id | id in Takers(st) ensures st.calls[id].ctx != s.ctx {
        assert id !in Firing(st.calls, One(s.ctx));
      }
      assert Takers(next) == Takers(st);
    }
  }

  lemma OtherStepsKeepTakers<T>(st: State<T>, s: Step<T>)
    requires Enabled(st, s) && NoLostWakeup(st) && !s.Run? && !s.Enqueue? && !s.Cancel?
    ensures EveryItemHasTaker(Next(st, s))
  {
    var next := Next(st, s);
    if s.Broadcast? || s.Stop? {
      assert Sleepers(next) == {};
    } else if next.fired == {} {
      SameWaiters(st, s);
    }
  }

  /** Beginning a call and reaching a select change neither who sleeps nor who will take an item. */
  lemma SameWaiters<T>(st: State<T>, s: Step<T>)
    requires Enabled(st, s) && (s.Begin? || s.Park? || s.OrphanChooses?) && Next(st, s).fired == {}
    ensures Next(st, s).items == st.items && st.fired == {}
    ensures Sleepers(Next(st, s)) == Sleepers(st) && Takers(Next(st, s)) == Takers(st)
  {
    assert s.Begin? || s.Park? ==> Next(st, s).fired >= st.fired;
  }

  /**
   Every step keeps the invariant, except cancelling a context before the watcher of a call that
   waits under it has reached its select; that step breaks it.
   */
  lemma StepKeepsIffPrompt<T>(st: State<T>, s: Step<T>)
    requires Enabled(st, s) && NoLostWakeup(st)
    ensures NoLostWakeup(Next(st, s)) <==> Prompt(st, s)
  {
    var next := Next(st, s);
    if Prompt(st, s) {
      StepBookkeeping(st, s);
      if !next.stopped {
        StepTells(st, s);
      }
      if s.Run? {
        RunKeepsTakers(st, s.id);
      } else if s.Enqueue? {
        EnqueueKeepsTakers(st, s);
      } else if s.Cancel? {
        CancelKeepsTakers(st, s);
      } else {
        OtherStepsKeepTakers(st, s);
      }
    } else {
      var id :| id in st.calls && st.calls[id].phase != Entering && st.calls[id].ctx == s.ctx
                && st.calls[id].watcher == Starting;
      assert next.calls[id] == st.calls[id];
      assert !CancelledAreTold(next);
    }
  }

  ghost predicate AllPrompt<T>(st: State<T>, steps: seq<Step<T>>)
    requires Exec(st, steps).Some?
    decreases |steps|
  {
    steps == [] || (Prompt(st, steps[0]) && AllPrompt(Next(st, steps[0]), steps[1..]))
  }

  lemma {:induction false} RunKeepsWakeups<T>(st: State<T>, steps: seq<Step<T>>)
    requires Exec(st, steps).Some? && AllPrompt(st, steps) && NoLostWakeup(st)
    ensures NoLostWakeup(Exec(st, steps).value)
    decreases |steps|
  {
    if steps != [] {
      StepKeepsIffPrompt(st, steps[0]);
      RunKeepsWakeups(Next(st, steps[0]), steps[1..]);
    }
  }

  /** All callers use plain Dequeue: no call has a context of its own. */
  predicate Plain<T>(steps: seq<Step<T>>) {
    forall i | 0 <= i < |steps| && steps[i].Begin? :: steps[i].ctx.Background?
  }

  ghost predicate PlainState<T>(st: State<T>) {
    && Bookkeeping(st) && st.fired == {} && st.orphans == map[]
    && (forall id | id in st.calls :: st.calls[id].ctx.Background?)
  }

  lemma {:induction false} PlainRunsArePrompt<T>(st: State<T>, steps: seq<Step<T>>)
    requires Exec(st, steps).Some? && Plain(steps) && PlainState(st)
    ensures AllPrompt(st, steps) && PlainState(Exec(st, steps).value)
    decreases |steps|
  {
    if steps != [] {
      var next := Next(st, steps[0]);
      StepBookkeeping(st, steps[0]);
      PlainStep(st, steps[0]);
      PlainRunsArePrompt(next, steps[1..]);
    }
  }

  lemma PlainStep<T>(st: State<T>, s: Step<T>)
    requires Enabled(st, s) && PlainState(st) && (s.Begin? ==> s.ctx.Background?)
    ensures Next(st, s).fired == {} && Next(st, s).orphans == map[]
    ensures forall id | id in Next(st, s).calls :: Next(st, s).calls[id].ctx.Background?
  {
    forall id | id in st.calls ensures st.calls[id].watcher == NoWatcher {}
  }

  /**
   Plain Dequeue never loses a wakeup: in every reachable state, while any caller sleeps there are no
   more items than awakened callers that have not run yet; so with none of those, a sleeper means an
   empty queue.
   */
  lemma NoLostWakeupForPlainDequeue<T>(steps: seq<Step<T>>)
    requires Exec(Init<T>(), steps).Some? && Plain(steps)
    ensures var st := Exec(Init<T>(), steps).value;
            var awake := set id | id in st.calls && st.calls[id].phase == Awake;
            Sleepers(st) != {} ==> |st.items| <= |awake|
  {
    var st := Exec(Init<T>(), steps).value;
    PlainRunsArePrompt(Init<T>(), steps);
    RunKeepsWakeups(Init<T>(), steps);
    assert Takers(st) == set id | id in st.calls && st.calls[id].phase == Awake;
  }

  /** A sleeper, an item for it, nobody awake, and no watcher that has broadcast to do or may yet come to it. */
  ghost predicate Stranded<T>(st: State<T>) {
    && Sleepers(st) != {} && st.items != [] && st.fired == {} && st.orphans == map[]
    && forall id | id in st.calls :: st.calls[id].phase == Sleeping && !Cancelled(st, st.calls[id].ctx)
  }

  lemma PromptRunsNeverStrand<T>(steps: seq<Step<T>>)
    requires Exec(Init<T>(), steps).Some? && AllPrompt(Init<T>(), steps)
    ensures !Stranded(Exec(Init<T>(), steps).value)
  {
    var st := Exec(Init<T>(), steps).value;
    RunKeepsWakeups(Init<T>(), steps);
    assert (forall id | id in st.calls :: st.calls[id].phase == Sleeping) ==> Takers(st) == {};
  }

  /** Calls wait only under the contexts in `used`, and only those in `cancellable` are cancelled. */
  predicate Obeys<T>(steps: seq<Step<T>>, used: set<Ctx>, cancellable: set<Ctx>) {
    forall i | 0 <= i < |steps| ::
      (steps[i].Begin? ==> steps[i].ctx in used) && (steps[i].Cancel? ==> steps[i].ctx in cancellable)
  }

  lemma {:induction false} ApartRunsArePrompt<T>(st: State<T>, steps: seq<Step<T>>,
                                                 used: set<Ctx>, cancellable: set<Ctx>)
    requires Exec(st, steps).Some? && Obeys(steps, used, cancellable) && used !! cancellable
    requires forall id | id in st.calls :: st.calls[id].ctx in used
    ensures AllPrompt(st, steps)
    decreases |steps|
  {
    if steps != [] {
      var s, next := steps[0], Next(st, steps[0]);
      forall id | id in next.calls ensures next.calls[id].ctx in used {
        assert id !in st.calls ==> s.Begin? && s.id == id;
      }
      assert forall i | 0 <= i < |steps[1..]| :: steps[1..][i] == steps[i + 1];
      ApartRunsArePrompt(next, steps[1..], used, cancellable);
    }
  }

  /** Where all calls wait under one context, a run that has not cancelled it cancelled nothing that matters. */
  lemma {:induction false} OneContextIsPrompt<T>(st: State<T>, steps: seq<Step<T>>, c: Ctx, cancellable: set<Ctx>)
    requires Exec(st, steps).Some? && Obeys(steps, {c}, cancellable) && c !in Exec(st, steps).value.cancelled
    requires forall id | id in st.calls :: st.calls[id].ctx == c
    ensures AllPrompt(st, steps) && st.cancelled <= Exec(st, steps).value.cancelled
    decreases |steps|
  {
    if steps != [] {
      var s, next := steps[0], Next(st, steps[0]);
      forall id | id in next.calls ensures next.calls[id].ctx == c {
        assert id !in st.calls ==> s.Begin? && s.id == id;
      }
      assert forall i | 0 <= i < |steps[1..]| :: steps[1..][i] == steps[i + 1];
      OneContextIsPrompt(next, steps[1..], c, cancellable);
    }
  }

  lemma {:induction false} OneContextStays<T>(st: State<T>, steps: seq<Step<T>>, c: Ctx, cancellable: set<Ctx>)
    requires Exec(st, steps).Some? && Obeys(steps, {c}, cancellable)
    requires forall id | id in st.calls :: st.calls[id].ctx == c
    ensures forall id | id in Exec(st, steps).value.calls :: Exec(st, steps).value.calls[id].ctx == c
    decreases |steps|
  {
    if steps != [] {
      var s, next := steps[0], Next(st, steps[0]);
      forall id | id in next.calls ensures next.calls[id].ctx == c {
        assert id !in st.calls ==> s.Begin? && s.id == id;
      }
      assert forall i | 0 <= i < |steps[1..]| :: steps[1..][i] == steps[i + 1];
      OneContextStays(next, steps[1..], c, cancellable);
    }
  }

  /** Callers that share one context never strand each other: whoever gives up, they all do. */
  lemma OneContextNeverStrands<T>(steps: seq<Step<T>>, c: Ctx, cancellable: set<Ctx>)
    requires Exec(Init<T>(), steps).Some? && Obeys(steps, {c}, cancellable)
    ensures !Stranded(Exec(Init<T>(), steps).value)
  {
    var end := Exec(Init<T>(), steps).value;
    OneContextStays(Init<T>(), steps, c, cancellable);
    if c in end.cancelled {
      if id :| id in Sleepers(end) {
        assert Cancelled(end, end.calls[id].ctx);
      }
    } else {
      OneContextIsPrompt(Init<T>(), steps, c, cancellable);
      PromptRunsNeverStrand(steps);
    }
  }

  /**
   The early return of an awakened caller whose own context is cancelled can strand another one: both
   sleep, the first is signalled for the only item, its context is cancelled before its watcher has
   reached the select, it gives up without taking the item, and the watcher then finds the call done.
   The other may be a plain Dequeue, or, as `d` is any other context, another worker of the queue.
   */
  function StrandingRun<T>(c: Ctx, d: Ctx, item: T): seq<Step<T>> {
    [Begin(0, c), Begin(1, d), Run(0), Run(1)]
    + [Enqueue(item, Some(0)), Cancel(c), Run(0), OrphanChooses(0, false)]
  }

  lemma CancelledCallerStrandsAnother<T>(c: Ctx, d: Ctx, item: T)
    requires !c.Background? && c != d
    ensures Exec(Init<T>(), StrandingRun(c, d, item)).Some?
    ensures Stranded(Exec(Init<T>(), StrandingRun(c, d, item)).value)
    ensures Exec(Init<T>(), StrandingRun(c, d, item)).value.results == map[0 := ContextCanceled]
  {
    var end := GaveUp(c, d, item);
    BothFallAsleep<T>(c, d);
    FirstGivesUp(c, d, item);
    var a: seq<Step<T>> := [Begin(0, c), Begin(1, d), Run(0), Run(1)];
    ExecConcat(Init<T>(), a, [Enqueue(item, Some(0)), Cancel(c), Run(0), OrphanChooses(0, false)]);
    assert 1 in Sleepers(end);
  }

  /** Two workers of one queue, each under its own child of the queue's context. */
  lemma StoppedWorkerStrandsAnother<T>(a: nat, b: nat, item: T)
    requires a != b
    ensures Exec(Init<T>(), StrandingRun(OfQueue(a), OfQueue(b), item)).Some?
    ensures Stranded(Exec(Init<T>(), StrandingRun(OfQueue(a), OfQueue(b), item)).value)
  {
    CancelledCallerStrandsAnother(OfQueue(a), OfQueue(b), item);
  }

  function AsleepCall(d: Ctx): Call {
    Call(d, Sleeping, if d.Background? then NoWatcher else Starting)
  }

  function BothAsleep<T>(c: Ctx, d: Ctx): State<T> {
    Init<T>().(calls := map[0 := AsleepCall(c), 1 := AsleepCall(d)])
  }

  function GaveUp<T>(c: Ctx, d: Ctx, item: T): State<T> {
    State([item], 1, false, {c}, map[1 := AsleepCall(d)], {}, map[], map[0 := ContextCanceled], [item], [])
  }

  lemma BothFallAsleep<T>(c: Ctx, d: Ctx)
    requires !c.Background?
    ensures Exec(Init<T>(), [Begin(0, c), Begin(1, d), Run(0), Run(1)]) == Some(BothAsleep<T>(c, d))
  {
    var s1 := Next(Init<T>(), Begin(0, c));
    var s2 := Next(s1, Begin(1, d));
    var s3 := Next(s2, Run(0));
    var s4 := Next(s3, Run(1));
    assert s4.calls == BothAsleep<T>(c, d).calls;
    ExecFour(Init<T>(), Begin(0, c), Begin(1, d), Run(0), Run(1));
  }

  lemma FirstGivesUp<T>(c: Ctx, d: Ctx, item: T)
    requires !c.Background? && c != d
    ensures Exec(BothAsleep<T>(c, d), [Enqueue(item, Some(0)), Cancel(c), Run(0), OrphanChooses(0, false)])
         == Some(GaveUp(c, d, item))
  {
    var asleep, end := BothAsleep<T>(c, d), GaveUp(c, d, item);
    var s1 := Next(asleep, Enqueue(item, Some(0)));
    var s2 := Next(s1, Cancel(c));
    assert s2.calls == s1.calls && Firing(s1.calls, One(c)) == {};
    var s3 := Next(s2, Run(0));
    assert s3.orphans == map[0 := c];
    var s4 := Next(s3, OrphanChooses(0, false));
    assert s4.calls == end.calls && s4.orphans == map[] && s4.results == end.results && s4.items == end.items;
    assert s4.accepted == end.accepted && s4.cancelled == end.cancelled && s4.fired == end.fired;
    ExecFour(asleep, Enqueue(item, Some(0)), Cancel(c), Run(0), OrphanChooses(0, false));
  }

  /**
   What callers must keep to: over all runs in which calls wait under the contexts in `used` and the
   contexts in `cancellable` may be cancelled at any moment, no caller is ever stranded iff no context
   is both, or all calls wait under one context.
   */
  lemma NeverStrandsIff<T(!new)>(used: set<Ctx>, cancellable: set<Ctx>, item: T)
    requires Background !in cancellable
    ensures (forall steps: seq<Step<T>> | Exec(Init<T>(), steps).Some? && Obeys(steps, used, cancellable) ::
               !Stranded(Exec(Init<T>(), steps).value))
       <==> used !! cancellable || exists c :: used == {c}
  {
    if used !! cancellable {
      forall steps: seq<Step<T>> | Exec(Init<T>(), steps).Some? && Obeys(steps, used, cancellable)
        ensures !Stranded(Exec(Init<T>(), steps).value)
      {
        ApartRunsArePrompt(Init<T>(), steps, used, cancellable);
        PromptRunsNeverStrand(steps);
      }
    } else if c :| used == {c} {
      forall steps: seq<Step<T>> | Exec(Init<T>(), steps).Some? && Obeys(steps, used, cancellable)
        ensures !Stranded(Exec(Init<T>(), steps).value)
      {
        OneContextNeverStrands(steps, c, cancellable);
      }
    } else {
      var c :| c in used && c in cancellable;
      var others := used - {c};
      assert used == {c} + others;
      var d :| d in others;
      CancelledCallerStrandsAnother(c, d, item);
      assert Obeys(StrandingRun(c, d, item), used, cancellable);
    }
  }

  lemma ExecFour<T>(st: State<T>, a: Step<T>, b: Step<T>, c: Step<T>, d: Step<T>)
    requires Enabled(st, a) && Enabled(Next(st, a), b) && Enabled(Next(Next(st, a), b), c)
    requires Enabled(Next(Next(Next(st, a), b), c), d)
    ensures Exec(st, [a, b, c, d]) == Some(Next(Next(Next(Next(st, a), b), c), d))
  {
    hide Enabled, Next;
    assert [a, b, c, d][1..] == [b, c, d] && [b, c, d][1..] == [c, d] && [c, d][1..] == [d] && [d][1..] == [];
    var three := Next(Next(Next(st, a), b), c);
    assert Exec(three, [d]) == Some(Next(three, d));
    assert Exec(Next(Next(st, a), b), [c, d]) == Exec(three, [d]);
    assert Exec(Next(st, a), [b, c, d]) == Exec(Next(Next(st, a), b), [c, d]);
  }

  lemma {:induction false} ExecConcat<T>(st: State<T>, a: seq<Step<T>>, b: seq<Step<T>>)
    requires Exec(st, a).Some?
    ensures Exec(st, a + b) == Exec(Exec(st, a).value, b)
    decreases |a|
  {
    hide Enabled, Next;
    if a == [] {
      assert a + b == b;
    } else {
      assert (a + b)[0] == a[0] && (a + b)[1..] == a[1..] + b;
      ExecConcat(Next(st, a[0]), a[1..], b);
    }
  }

  // The queue object

  /** The fields of Memory, with the condition variable's list; every method is one lock section. */
  class Memory<T(!new)> {
    var items: seq<T>
    var size: int
    var stopped: bool
    var sleeping: set<CallId>
    var lastEnqueued: Option<int>

    ghost predicate Shows(st: State<T>)
      reads this
    {
      items == st.items && size == st.size && stopped == st.stopped && sleeping == Sleepers(st)
    }

    constructor ()
      ensures Shows(Init()) && lastEnqueued == None
    {
      items, size, stopped, sleeping, lastEnqueued := [], 0, false, {}, None;
      new;
      assert Sleepers(Init<T>()) == {};
    }

    /** Which sleeper is signalled is not determined; that one is, if there is any, is. */
    method Enqueue(item: T, now: int, ghost st: State<T>) returns (accepted: bool, woken: Option<CallId>)
      requires Shows(st)
      modifies this
      ensures Enabled(st, Step.Enqueue(item, woken)) && Shows(Next(st, Step.Enqueue(item, woken)))
      ensures accepted == !old(stopped) && lastEnqueued == if accepted then Some(now) else old(lastEnqueued)
      ensures items == if accepted then old(items) + [item] else old(items)
    {
      woken := None;
      assert sleeping == {} ==> forall id | id in st.calls :: id !in Sleepers(st);
      if stopped {
        return false, None;
      }
      items := items + [item];
      size := size + 1;
      lastEnqueued := Some(now);
      if sleeping != {} {
        var id :| id in sleeping;
        sleeping := sleeping - {id};
        woken := Some(id);
      }
      accepted := true;
      assert sleeping == Sleepers(Next(st, Step.Enqueue(item, woken)));
    }

    /** From taking the lock to returning or waiting; `ctxDone` is what the caller's ctx.Err() says. */
    method Dequeue(id: CallId, ctxDone: bool, ghost st: State<T>) returns (outcome: Option<Outcome<T>>)
      requires Shows(st) && Enabled(st, Run(id)) && id !in st.results
      requires ctxDone == Cancelled(st, st.calls[id].ctx)
      modifies this`items, this`size, this`sleeping
      ensures Shows(Next(st, Run(id)))
      ensures var next := Next(st, Run(id));
              outcome == if id in next.results then Some(next.results[id]) else None
      ensures var taken := if outcome.Some? && outcome.value.Item? then [outcome.value.item] else [];
              old(items) == taken + items
    {
      ghost var next := Next(st, Run(id));
      if |items| == 0 {
        if stopped {
          assert Sleepers(next) == Sleepers(st);
          return Some(QueueCanceled);
        }
        if ctxDone {
          assert Sleepers(next) == Sleepers(st);
          return Some(ContextCanceled);
        }
        sleeping := sleeping + {id};
        assert Sleepers(next) == Sleepers(st) + {id};
        return None;
      }
      assert Sleepers(next) == Sleepers(st);
      if ctxDone {
        return Some(ContextCanceled);
      }
      outcome := Some(Item(items[0]));
      items := items[1..];
      size := size - 1;
    }

    method Stop(ghost st: State<T>)
      requires Shows(st)
      modifies this`stopped, this`sleeping
      ensures Shows(Next(st, Step.Stop))
    {
      stopped := true;
      sleeping := {};
      assert Sleepers(Next(st, Step.Stop)) == {};
    }

    method Len(ghost st: State<T>) returns (n: int)
      requires Shows(st) && InOrder(st)
      ensures n == |items| == |st.accepted| - |st.handed|
    {
      n := size;
    }
  }
}
