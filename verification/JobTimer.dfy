/**
 Starting and stopping a regular job. `run` and `stop` check a condition under the read lock, let go of
 it, and act under the write lock; a timer loop looks at its stop channel on every tick. Every run makes
 a new channel, so a loop is known by its channel.
 */
module JobTimer {
  import opened Wrappers

  type ThreadId = nat
  type Channel = nat

  datatype Pc =
    | RunStart
    | RunWanting                            // the check passed, wants the write lock
    | StopStart
    | StopWanting                           // the check passed: a goroutine of stop's that wants the write lock
    | StopSending(channel: Option<Channel>) // holds the write lock until a loop receives; nil never receives
    | StopSent
    | Done

  /**
   `live` are the loops that have not returned, `regular` says that the job has an interval to run at,
   `started` records the runs that started a loop, `ran` the loops that called the job, in order.
   */
  datatype Job = Job(regular: bool, active: bool, stopChannel: Option<Channel>, live: set<Channel>,
                     writer: Option<ThreadId>, threads: map<ThreadId, Pc>, nextChannel: Channel, started: set<ThreadId>,
                     ran: seq<Channel>)

  function NewJob(regular: bool): Job {
    Job(regular, false, None, {}, None, map[], 0, {}, [])
  }

  datatype Step = Launch(t: ThreadId, pc: Pc) | Go(t: ThreadId) | Tick(loop: Channel)

  predicate Enabled(j: Job, s: Step) {
    match s
    case Launch(t, pc) => t !in j.threads && (pc.RunStart? || pc.StopStart?)
    case Go(t) =>
      t in j.threads && !j.threads[t].Done? && !j.threads[t].StopSending? && (j.writer.None? || j.threads[t].StopSent?)
    case Tick(loop) => loop in j.live
  }

  function Becomes(j: Job, t: ThreadId, pc: Pc): Job {
    j.(threads := j.threads[t := pc])
  }

  function Section(j: Job, t: ThreadId): Job
    requires Enabled(j, Go(t))
  {
    match j.threads[t]
    case RunStart => Becomes(j, t, if j.regular && !j.active then RunWanting else Done)
    case RunWanting =>
      Becomes(j, t, Done).(stopChannel := Some(j.nextChannel), live := j.live + {j.nextChannel}, active := true,
                           nextChannel := j.nextChannel + 1, started := j.started + {t})
    case StopStart => Becomes(j, t, if j.active && j.stopChannel.Some? then StopWanting else Done)
    case StopWanting => Becomes(j, t, StopSending(j.stopChannel)).(writer := Some(t))
    case StopSent => Becomes(j, t, Done).(active := false, writer := None)
  }

  /** Whether the holder of the write lock is sending to `loop`. */
  predicate SendsTo(j: Job, loop: Channel) {
    j.writer.Some? && j.writer.value in j.threads && j.threads[j.writer.value] == StopSending(Some(loop))
  }

  function Next(j: Job, s: Step): Job
    requires Enabled(j, s)
  {
    match s
    case Launch(t, pc) => Becomes(j, t, pc)
    case Go(t) => Section(j, t)
    case Tick(loop) =>
      if SendsTo(j, loop) then Becomes(j, j.writer.value, StopSent).(live := j.live - {loop})
      else j.(ran := j.ran + [loop])
  }

  function Exec(j: Job, steps: seq<Step>): Option<Job>
    decreases |steps|
  {
    if steps == [] then Some(j)
    else if Enabled(j, steps[0]) then Exec(Next(j, steps[0]), steps[1..])
    else None
  }

  // Exactly which runs keep one loop

  /** One live loop when active, none otherwise, and the stop channel is that loop's; but for a stop under way. */
  ghost predicate Matched(j: Job) {
    && (forall t | t in j.threads ::
          j.threads[t].StopSending? || j.threads[t].StopSent? ==> j.writer == Some(t))
    && (j.stopChannel.Some? ==> j.stopChannel.value < j.nextChannel)
    && (j.active ==> j.stopChannel.Some?)
    && match j.writer
       case None => j.live == if j.active then {j.stopChannel.value} else {}
       case Some(t) =>
         && t in j.threads && j.active
         && (j.threads[t] == StopSending(j.stopChannel) || j.threads[t] == StopSent)
         && j.live == if j.threads[t].StopSent? then {} else {j.stopChannel.value}
  }

  /** What the check found is still so when the write lock is taken. */
  predicate Fresh(j: Job, s: Step) {
    s.Go? && s.t in j.threads ==>
      (j.threads[s.t].RunWanting? ==> !j.active) && (j.threads[s.t].StopWanting? ==> j.active)
  }

  predicate AllFresh(j: Job, steps: seq<Step>)
    decreases |steps|
  {
    steps == [] || (Fresh(j, steps[0]) && Enabled(j, steps[0]) && AllFresh(Next(j, steps[0]), steps[1..]))
  }

  /** A loop that no stop will ever send to. */
  ghost predicate Orphaned(j: Job, loop: Channel) {
    loop in j.live && loop < j.nextChannel && j.stopChannel != Some(loop) && !SendsTo(j, loop)
  }

  /** A stop that holds the write lock and sends to a loop that has returned. */
  ghost predicate Stuck(j: Job, t: ThreadId) {
    && j.writer == Some(t) && t in j.threads && j.threads[t].StopSending?
    && (j.threads[t].channel.Some? ==> j.threads[t].channel.value !in j.live)
    && (forall k | k in j.threads && k != t :: !j.threads[k].StopSent?)
  }

  lemma FreshKeeps(j: Job, s: Step)
    requires Matched(j) && Enabled(j, s) && Fresh(j, s)
    ensures Matched(Next(j, s))
  {}

  /** A check that went stale before its act leaves an orphan or a stuck stop. */
  lemma StaleBreaks(j: Job, s: Step)
    requires Matched(j) && Enabled(j, s) && !Fresh(j, s)
    ensures s.Go? && (j.active ==> j.stopChannel.Some?)
    ensures if j.active then Orphaned(Next(j, s), j.stopChannel.value) else Stuck(Next(j, s), s.t)
  {}

  /** An orphan keeps running, whatever is called. */
  lemma {:induction false} OrphanRunsForever(j: Job, loop: Channel, steps: seq<Step>)
    requires Orphaned(j, loop) && Exec(j, steps).Some?
    ensures Orphaned(Exec(j, steps).value, loop)
    decreases |steps|
  {
    if steps != [] {
      assert Orphaned(Next(j, steps[0]), loop);
      OrphanRunsForever(Next(j, steps[0]), loop, steps[1..]);
    }
  }

  /** A stuck stop keeps the write lock, so every later call on the job blocks. */
  lemma {:induction false} StuckForever(j: Job, t: ThreadId, steps: seq<Step>)
    requires Stuck(j, t) && Exec(j, steps).Some?
    ensures Stuck(Exec(j, steps).value, t)
    ensures var end := Exec(j, steps).value;
            forall k | k in end.threads && end.threads[k].Done? :: k in j.threads && j.threads[k].Done?
    decreases |steps|
  {
    if steps != [] {
      var next := Next(j, steps[0]);
      assert Stuck(next, t);
      StuckForever(next, t, steps[1..]);
    }
  }

  lemma OrphanIsNoMatch(j: Job, loop: Channel)
    requires Orphaned(j, loop)
    ensures !Matched(j)
  {}

  lemma StuckIsNoMatch(j: Job, t: ThreadId)
    requires Stuck(j, t)
    ensures !Matched(j)
  {}

  /** Over all interleavings: a run ends with the loops matched exactly if no check in it went stale. */
  lemma {:induction false} RunMatchedIff(j: Job, steps: seq<Step>)
    requires Matched(j) && Exec(j, steps).Some?
    ensures Matched(Exec(j, steps).value) <==> AllFresh(j, steps)
    decreases |steps|
  {
    hide Matched, Orphaned, Stuck, Fresh, Next, Enabled;
    if steps != [] {
      var s, next := steps[0], Next(j, steps[0]);
      if Fresh(j, s) {
        FreshKeeps(j, s);
        RunMatchedIff(next, steps[1..]);
      } else {
        StaleBreaks(j, s);
        if j.active {
          OrphanRunsForever(next, j.stopChannel.value, steps[1..]);
          OrphanIsNoMatch(Exec(j, steps).value, j.stopChannel.value);
        } else {
          StuckForever(next, s.t, steps[1..]);
          StuckIsNoMatch(Exec(j, steps).value, s.t);
        }
      }
    }
  }

  // Callers that wait for each other

  predicate AtRest(j: Job) {
    forall t | t in j.threads :: j.threads[t].Done?
  }

  /** Each call, a stop's goroutine included, finishes before the next starts. */
  predicate Serialised(j: Job, steps: seq<Step>)
    decreases |steps|
  {
    steps == []
    || (Enabled(j, steps[0]) && (steps[0].Launch? ==> AtRest(j)) && Serialised(Next(j, steps[0]), steps[1..]))
  }

  /** At most one call is under way, and what its check found is so. */
  ghost predicate Orderly(j: Job) {
    && (forall t, u | t in j.threads && u in j.threads && !j.threads[t].Done? && !j.threads[u].Done? :: t == u)
    && (forall t | t in j.threads && j.threads[t].RunWanting? :: !j.active)
    && (forall t | t in j.threads && j.threads[t].StopWanting? :: j.active)
  }

  lemma {:induction false} SerialisedIsFresh(j: Job, steps: seq<Step>)
    requires Matched(j) && Orderly(j) && Serialised(j, steps)
    ensures AllFresh(j, steps)
    decreases |steps|
  {
    if steps != [] {
      assert Fresh(j, steps[0]);
      FreshKeeps(j, steps[0]);
      hide Matched;
      OrderlyStep(j, steps[0]);
      hide Orderly;
      SerialisedIsFresh(Next(j, steps[0]), steps[1..]);
    }
  }

  lemma OrderlyStep(j: Job, s: Step)
    requires Enabled(j, s) && Orderly(j) && (s.Launch? ==> AtRest(j))
    ensures Orderly(Next(j, s))
  {
    if s.Launch? {
      assert AtRest(j);
    } else if s.Go? {
      assert forall u | u in j.threads && u != s.t :: j.threads[u].Done?;
    }
  }

  /**
   For callers that let each run and stop finish before the next: between calls one loop is live if the
   job is active and none if it is not, and the stop channel is that loop's.
   */
  lemma SerialisedCallersKeepOneLoop(regular: bool, steps: seq<Step>)
    requires Exec(NewJob(regular), steps).Some? && Serialised(NewJob(regular), steps)
    ensures var j := Exec(NewJob(regular), steps).value;
            AtRest(j) ==> if j.active then j.stopChannel.Some? && j.live == {j.stopChannel.value} else j.live == {}
  {
    SerialisedIsFresh(NewJob(regular), steps);
    RunMatchedIff(NewJob(regular), steps);
  }

  // What uninterrupted calls do

  lemma ExecOneMore(j: Job, s: Step, rest: seq<Step>)
    requires Enabled(j, s)
    ensures Exec(j, [s] + rest) == Exec(Next(j, s), rest)
  {
    assert ([s] + rest)[1..] == rest;
  }

  /** A run, uninterrupted: one more loop, which the stop channel is, unless the job has no interval or is active. */
  lemma RunAlone(j: Job, t: ThreadId)
    requires t !in j.threads && j.writer.None?
    ensures var steps := [Launch(t, RunStart)] + ([Go(t)] + if j.regular && !j.active then [Go(t)] else []);
            var end := Exec(j, steps);
            && end.Some? && end.value.threads == j.threads[t := Done] && end.value.ran == j.ran
            && (if j.regular && !j.active
                then end.value.active && end.value.stopChannel == Some(j.nextChannel)
                     && end.value.live == j.live + {j.nextChannel}
                else end.value.active == j.active && end.value.live == j.live && end.value.stopChannel == j.stopChannel)
  {
    hide Exec;
    var j1 := Next(j, Launch(t, RunStart));
    var j2 := Next(j1, Go(t));
    var rest := if j.regular && !j.active then [Go(t)] else [];
    ExecOneMore(j, Launch(t, RunStart), [Go(t)] + rest);
    ExecOneMore(j1, Go(t), rest);
    ExecNothing(j2);
    if rest != [] {
      ExecOneMore(j2, Go(t), []);
      assert [Go(t)] + [] == [Go(t)];
      ExecNothing(Next(j2, Go(t)));
      assert Next(j2, Go(t)).threads == j.threads[t := Done];
    } else {
      assert j2.threads == j.threads[t := Done];
    }
  }

  lemma ExecNothing(j: Job)
    ensures Exec(j, []) == Some(j)
  {}

  /** A stop, uninterrupted but for the tick that it waits for: no loop is left, and the job did not run. */
  lemma StopAlone(j: Job, t: ThreadId)
    requires Matched(j) && j.writer.None? && j.active && t !in j.threads
    ensures j.stopChannel.Some?
    ensures var steps := [Launch(t, StopStart)] + ([Go(t)] + ([Go(t)] + ([Tick(j.stopChannel.value)] + [Go(t)])));
            var end := Exec(j, steps);
            && end.Some? && end.value.threads == j.threads[t := Done] && end.value.writer.None?
            && !end.value.active && end.value.live == {} && end.value.ran == j.ran
  {
    hide Exec, Matched;
    assert j.stopChannel.Some? && j.live == {j.stopChannel.value} by {
      MatchedActive(j);
    }
    var c := j.stopChannel.value;
    var j1 := Next(j, Launch(t, StopStart));
    var j2 := Next(j1, Go(t));
    var j3 := Next(j2, Go(t));
    var j4 := Next(j3, Tick(c));
    var j5 := Next(j4, Go(t));
    ExecOneMore(j, Launch(t, StopStart), [Go(t)] + ([Go(t)] + ([Tick(c)] + [Go(t)])));
    ExecOneMore(j1, Go(t), [Go(t)] + ([Tick(c)] + [Go(t)]));
    ExecOneMore(j2, Go(t), [Tick(c)] + [Go(t)]);
    ExecOneMore(j3, Tick(c), [Go(t)]);
    ExecOneMore(j4, Go(t), []);
    assert [Go(t)] + [] == [Go(t)];
    ExecNothing(j5);
    assert j5.threads == j.threads[t := Done];
  }

  /** A stop of a job that is not active does nothing. */
  lemma StopOfInactive(j: Job, t: ThreadId)
    requires t !in j.threads && j.writer.None? && !j.active
    ensures Exec(j, [Launch(t, StopStart)] + [Go(t)]) == Some(j.(threads := j.threads[t := Done]))
  {
    hide Exec;
    var j1 := Next(j, Launch(t, StopStart));
    ExecOneMore(j, Launch(t, StopStart), [Go(t)]);
    ExecOneMore(j1, Go(t), []);
    assert [Go(t)] + [] == [Go(t)];
    ExecNothing(Next(j1, Go(t)));
    assert Next(j1, Go(t)).threads == j.threads[t := Done];
  }

  lemma MatchedActive(j: Job)
    requires Matched(j) && j.writer.None? && j.active
    ensures j.stopChannel.Some? && j.live == {j.stopChannel.value}
  {}

  /** A tick of a loop that nobody stops runs the job once, and changes nothing else. */
  lemma TickRunsJob(j: Job, loop: Channel)
    requires loop in j.live && j.writer.None?
    ensures Enabled(j, Tick(loop)) && Next(j, Tick(loop)) == j.(ran := j.ran + [loop])
  {}

  /** Once all loops are stopped and no run is under way the job runs no more until there is a new run. */
  lemma {:induction false} StoppedJobRunsNoMore(j: Job, steps: seq<Step>)
    requires j.live == {} && Exec(j, steps).Some?
    requires forall t | t in j.threads :: !j.threads[t].RunStart? && !j.threads[t].RunWanting?
    requires forall s | s in steps :: s.Launch? ==> s.pc.StopStart?
    ensures Exec(j, steps).value.ran == j.ran && Exec(j, steps).value.live == {}
    decreases |steps|
  {
    if steps != [] {
      assert steps[0] in steps && forall s | s in steps[1..] :: s in steps;
      StoppedJobRunsNoMore(Next(j, steps[0]), steps[1..]);
    }
  }

  // Callers that do not

  /** Two runs that check before either acts: two loops. */
  lemma DoubleRunDoublesTheLoop()
    ensures var steps := [Launch(0, RunStart), Launch(1, RunStart), Go(0), Go(1), Go(0), Go(1)];
            var end := Exec(NewJob(true), steps);
            end.Some? && AtRest(end.value) && end.value.live == {0, 1}
  {
    var j1 := Next(Next(NewJob(true), Launch(0, RunStart)), Launch(1, RunStart));
    var j2 := Next(Next(j1, Go(0)), Go(1));
    ExecTwo(NewJob(true), Launch(0, RunStart), Launch(1, RunStart), [Go(0), Go(1), Go(0), Go(1)]);
    ExecTwo(j1, Go(0), Go(1), [Go(0), Go(1)]);
    ExecTwo(j2, Go(0), Go(1), []);
    assert Next(Next(j2, Go(0)), Go(1)).live == {0, 1};
  }

  lemma ExecTwo(j: Job, a: Step, b: Step, rest: seq<Step>)
    requires Enabled(j, a) && Enabled(Next(j, a), b)
    ensures Exec(j, [a, b] + rest) == Exec(Next(Next(j, a), b), rest)
  {
    assert ([a, b] + rest)[1..] == [b] + rest;
    assert ([b] + rest)[1..] == rest;
  }

  const RUN_ONCE := [Launch(0, RunStart), Go(0)] + [Go(0), Launch(1, StopStart)]

  /** Two stops that check before either acts: the second one blocks for good. */
  lemma DoubleStopBlocksForGood()
    ensures var steps := RUN_ONCE + ([Launch(2, StopStart), Go(1)] + ([Go(2), Go(1)] + ([Tick(0), Go(1)] + [Go(2)])));
            var end := Exec(NewJob(true), steps);
            end.Some? && Stuck(end.value, 2)
  {
    var rest := [Launch(2, StopStart), Go(1)] + ([Go(2), Go(1)] + ([Tick(0), Go(1)] + [Go(2)]));
    var j := RanOnce(rest);
    ExecTwo(j, Launch(2, StopStart), Go(1), [Go(2), Go(1)] + ([Tick(0), Go(1)] + [Go(2)]));
    var j1 := Next(Next(j, Launch(2, StopStart)), Go(1));
    ExecTwo(j1, Go(2), Go(1), [Tick(0), Go(1)] + [Go(2)]);
    var j2 := Next(Next(j1, Go(2)), Go(1));
    ExecTwo(j2, Tick(0), Go(1), [Go(2)]);
    var j3 := Next(Next(j2, Tick(0)), Go(1));
    assert Exec(Next(j3, Go(2)), []) == Some(Next(j3, Go(2)));
  }

  lemma RanOnce(rest: seq<Step>) returns (j: Job)
    ensures j == Job(true, true, Some(0), {0}, None, map[0 := Done, 1 := StopStart], 1, {0}, [])
    ensures Exec(NewJob(true), RUN_ONCE + rest) == Exec(j, rest)
  {
    assert RUN_ONCE + rest == [Launch(0, RunStart), Go(0)] + ([Go(0), Launch(1, StopStart)] + rest);
    ExecTwo(NewJob(true), Launch(0, RunStart), Go(0), [Go(0), Launch(1, StopStart)] + rest);
    var j1 := Next(Next(NewJob(true), Launch(0, RunStart)), Go(0));
    ExecTwo(j1, Go(0), Launch(1, StopStart), rest);
    j := Next(Next(j1, Go(0)), Launch(1, StopStart));
  }

  /** A run is recorded only when it is done. */
  predicate RecordsFit(j: Job) {
    forall t | t in j.started :: t in j.threads && j.threads[t].Done?
  }

  lemma {:induction false} RunKeepsRecords(j: Job, steps: seq<Step>)
    requires RecordsFit(j) && Exec(j, steps).Some?
    ensures RecordsFit(Exec(j, steps).value)
    decreases |steps|
  {
    if steps != [] {
      RunKeepsRecords(Next(j, steps[0]), steps[1..]);
    }
  }

  /** A run whose check passed starts a loop before it is done; one that is done starts no other. */
  lemma {:induction false} WantingStarts(j: Job, t: ThreadId, steps: seq<Step>)
    requires t in j.threads && (j.threads[t].RunWanting? || j.threads[t].Done?) && Exec(j, steps).Some?
    ensures var end := Exec(j, steps).value;
            && t in end.threads && (end.threads[t].Done? || (end.threads[t].RunWanting? && j.threads[t].RunWanting?))
            && (t in end.started <==> t in j.started || (j.threads[t].RunWanting? && end.threads[t].Done?))
    decreases |steps|
  {
    if steps != [] {
      WantingStarts(Next(j, steps[0]), t, steps[1..]);
    }
  }

  /**
   Over all interleavings: a run that is done has started a loop iff the job was regular and not active
   when the run made its check.
   */
  lemma RunStartsLoopIff(regular: bool, before: seq<Step>, t: ThreadId, after: seq<Step>)
    requires Exec(NewJob(regular), before).Some?
    requires var j := Exec(NewJob(regular), before).value;
             Enabled(j, Go(t)) && j.threads[t].RunStart? && Exec(Next(j, Go(t)), after).Some?
    requires var j := Exec(NewJob(regular), before).value;
             var end := Exec(Next(j, Go(t)), after).value;
             t in end.threads && end.threads[t].Done?
    ensures var j := Exec(NewJob(regular), before).value;
            t in Exec(Next(j, Go(t)), after).value.started <==> j.regular && !j.active
  {
    RunKeepsRecords(NewJob(regular), before);
    var j := Exec(NewJob(regular), before).value;
    WantingStarts(Next(j, Go(t)), t, after);
  }

  /** A run called after a stop returned, while the stop's goroutine is still to act, starts nothing. */
  lemma RunAfterStopIsLost()
    ensures var steps := RUN_ONCE + ([Go(1), Launch(2, RunStart)] + ([Go(2), Go(1)] + [Tick(0), Go(1)]));
            var end := Exec(NewJob(true), steps);
            end.Some? && AtRest(end.value) && end.value.live == {} && !end.value.active
  {
    var j := RanOnce([Go(1), Launch(2, RunStart)] + ([Go(2), Go(1)] + [Tick(0), Go(1)]));
    ExecTwo(j, Go(1), Launch(2, RunStart), [Go(2), Go(1)] + [Tick(0), Go(1)]);
    var j1 := Next(Next(j, Go(1)), Launch(2, RunStart));
    ExecTwo(j1, Go(2), Go(1), [Tick(0), Go(1)]);
    var j2 := Next(Next(j1, Go(2)), Go(1));
    ExecTwo(j2, Tick(0), Go(1), []);
    assert [Tick(0), Go(1)] + [] == [Tick(0), Go(1)];
  }
}
