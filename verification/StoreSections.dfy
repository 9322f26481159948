/**
 What each lock section of the autoscaling store does to its maps and to the contexts. A worker is
 known by its context, a child of the context of the queue it was started on, so it is cancelled
 when either is.
 */
module StoreSections {
  import opened Wrappers

  type Id = int
  type QueueRef = nat
  type WorkerRef = nat

  /** Fixed before the first Get; `stopCancels`: a queue's stop function cancels the queue's context. */
  datatype Config = Config(numWorkers: nat, maxNumWorkers: nat, hasConstructor: bool, stopCancels: bool)

  predicate Sized(cfg: Config) {
    1 <= cfg.numWorkers <= cfg.maxNumWorkers && cfg.hasConstructor
  }

  /** A queue's stop function, nil for a list that addWorker made, and its workers' cancel functions. */
  datatype StopList = StopList(queue: Option<QueueRef>, workers: seq<WorkerRef>)

  datatype StoreState = StoreState(
    m: map<Id, QueueRef>, stops: map<Id, StopList>, parent: map<WorkerRef, QueueRef>,
    cancelledQueues: set<QueueRef>, cancelledWorkers: set<WorkerRef>, nextQueue: QueueRef, nextWorker: WorkerRef)

  const EMPTY := StoreState(map[], map[], map[], {}, {}, 0, 0)

  predicate Cancelled(st: StoreState, w: WorkerRef) {
    w in st.cancelledWorkers || (w in st.parent && st.parent[w] in st.cancelledQueues)
  }

  predicate Live(st: StoreState, w: WorkerRef) {
    w in st.parent && !Cancelled(st, w)
  }

  /** A new queue for `id` is constructed and stored. */
  function Construct(st: StoreState, id: Id): StoreState {
    st.(m := st.m[id := st.nextQueue], nextQueue := st.nextQueue + 1)
  }

  /** One worker is started on queue `q`; it is st.nextWorker. */
  function Spawn(st: StoreState, q: QueueRef): StoreState {
    st.(parent := st.parent[st.nextWorker := q], nextWorker := st.nextWorker + 1)
  }

  function AddStoppers(st: StoreState, id: Id, q: QueueRef, workers: seq<WorkerRef>): StoreState {
    if id in st.stops then
      var all := if |workers| > 0 then st.stops[id].workers + workers else st.stops[id].workers;
      st.(stops := st.stops[id := StopList(Some(q), all)])
    else st.(stops := st.stops[id := StopList(Some(q), workers)])
  }

  /** The locked part of addWorker; `q` is what it loaded before. */
  function AddWorkerSection(cfg: Config, st: StoreState, id: Id, q: QueueRef): StoreState {
    if id !in st.stops then Spawn(st, q).(stops := st.stops[id := StopList(None, [st.nextWorker])])
    else if |st.stops[id].workers| >= cfg.maxNumWorkers then st
    else Spawn(st, q).(stops := st.stops[id := st.stops[id].(workers := st.stops[id].workers + [st.nextWorker])])
  }

  /** The worker that stopWorker takes off the list, if it takes one. */
  function LastStoppable(st: StoreState, id: Id): Option<WorkerRef> {
    if id !in st.stops || |st.stops[id].workers| <= 1 then None
    else Some(st.stops[id].workers[|st.stops[id].workers| - 1])
  }

  function DropLast(st: StoreState, id: Id): StoreState
    requires LastStoppable(st, id).Some?
  {
    var ws := st.stops[id].workers;
    st.(stops := st.stops[id := st.stops[id].(workers := ws[..|ws| - 1])])
  }

  function Detach(st: StoreState, id: Id): StoreState {
    st.(stops := st.stops - {id})
  }

  function CancelQueue(cfg: Config, st: StoreState, q: Option<QueueRef>): StoreState {
    if q.Some? && cfg.stopCancels then st.(cancelledQueues := st.cancelledQueues + {q.value}) else st
  }

  function CancelWorkers(st: StoreState, ws: set<WorkerRef>): StoreState {
    st.(cancelledWorkers := st.cancelledWorkers + ws)
  }

  function Delete(st: StoreState, id: Id): StoreState {
    st.(m := st.m - {id})
  }

  function ScalingInfo(cfg: Config, st: StoreState, id: Id): (int, int) {
    if cfg.numWorkers == cfg.maxNumWorkers then (0, cfg.numWorkers)
    else if id !in st.stops then (cfg.maxNumWorkers, 0)
    else (cfg.maxNumWorkers - |st.stops[id].workers|, |st.stops[id].workers|)
  }
}
