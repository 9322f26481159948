/**
 The health counter and the processor that turns its state into notifications. Each method of the counter
 is one atomic step; hits and failures of other goroutines come in between the steps of a pass.
 */
module HealthCounter {
  import opened Wrappers

  const TWO_32: nat := 0x1_0000_0000

  datatype Config = Config(minRequests: nat, failureThreshold: real, resetPeriod: int)

  datatype Counter = Counter(success: nat, failure: nat, failed: bool, failureProcessed: bool, countersProcessed: bool,
                             msg: string, timestamp: int)

  // The counter's methods

  function AfterSuccess(c: Counter): Counter {
    var hit := c.(success := (c.success + 1) % TWO_32);
    if c.failed then hit.(failed := false, failureProcessed := false, msg := "") else hit
  }

  function AfterFailure(c: Counter): Counter {
    c.(failure := (c.failure + 1) % TWO_32)
  }

  function Fail(c: Counter, message: string): Counter {
    c.(msg := message, failed := true)
  }

  predicate Expired(cfg: Config, c: Counter, now: int) {
    now > c.timestamp + cfg.resetPeriod
  }

  function Flush(cfg: Config, c: Counter, now: int): Counter {
    if Expired(cfg, c, now) then c.(timestamp := now, success := 0, failure := 0) else c
  }

  // The verdict on the totals

  /** The sum of two 32-bit counts. */
  function Total(succeeded: nat, failed: nat): nat {
    (succeeded + failed) % TWO_32
  }

  /** succeeded/total >= threshold, with x/0 infinite for x > 0 and not a number, hence not >=, for 0/0. */
  predicate RatioHolds(cfg: Config, succeeded: nat, failed: nat) {
    var total := Total(succeeded, failed);
    if total == 0 then succeeded > 0 else succeeded as real / total as real >= cfg.failureThreshold
  }

  datatype Verdict = TooFew | Good | Bad

  function Judge(cfg: Config, succeeded: nat, failed: nat): Verdict {
    if Total(succeeded, failed) < cfg.minRequests then TooFew
    else if RatioHolds(cfg, succeeded, failed) then Good
    else Bad
  }

  // The processor between other goroutines

  datatype Pc =
    | Idle
    | SawFailed | NotifyingFailure | FailureSent       // IsFailed said yes
    | SawWorking | SawSucceeded(succeeded: nat)        // IsFailed said no
    | Clearing | Flushing                              // the ratio holds
    | RatioBad | NotifyingRatio | RatioSent            // the ratio does not hold

  datatype Event =
    | Succeeded | Failed | Cleared | Marked(message: string)
    | FailureNotified(message: string) | RatioNotified | Passed | Flushed(at: int)

  datatype State = State(counter: Counter, pc: Pc, log: seq<Event>)

  /** `found` is what the connection data provider says, `now` what the clock says. */
  datatype Step = Succeed | FailOnce | MarkFailed(message: string) | Proceed(found: bool, now: int)

  function Process(cfg: Config, st: State, found: bool, now: int): State {
    var c := st.counter;
    match st.pc
    case Idle => st.(pc := if c.failed then SawFailed else SawWorking)
    case SawFailed => st.(pc := if c.failureProcessed then Idle else NotifyingFailure)
    case NotifyingFailure =>
      if found then st.(pc := FailureSent, log := st.log + [FailureNotified(c.msg)]) else st.(pc := Idle)
    case FailureSent => st.(pc := Idle, counter := c.(failureProcessed := true))
    case SawWorking => st.(pc := SawSucceeded(c.success))
    case SawSucceeded(succeeded) =>
      (match Judge(cfg, succeeded, c.failure)
       case TooFew => st.(pc := Idle)
       case Good => st.(pc := Clearing, log := st.log + [Passed])
       case Bad => st.(pc := RatioBad))
    case Clearing => st.(pc := Flushing, counter := c.(countersProcessed := false))
    case Flushing =>
      var flushed := if Expired(cfg, c, now) then [Flushed(now)] else [];
      st.(pc := Idle, counter := Flush(cfg, c, now), log := st.log + flushed)
    case RatioBad => st.(pc := if c.countersProcessed then Idle else NotifyingRatio)
    case NotifyingRatio => if found then st.(pc := RatioSent, log := st.log + [RatioNotified]) else st.(pc := Idle)
    case RatioSent => st.(pc := Idle, counter := c.(countersProcessed := true))
  }

  function Next(cfg: Config, st: State, s: Step): State {
    match s
    case Succeed =>
      var events := if st.counter.failed then [Succeeded, Cleared] else [Succeeded];
      st.(counter := AfterSuccess(st.counter), log := st.log + events)
    case FailOnce => st.(counter := AfterFailure(st.counter), log := st.log + [Failed])
    case MarkFailed(message) => st.(counter := Fail(st.counter, message), log := st.log + [Marked(message)])
    case Proceed(found, now) => Process(cfg, st, found, now)
  }

  function Exec(cfg: Config, st: State, steps: seq<Step>): State
    decreases |steps|
  {
    if steps == [] then st else Exec(cfg, Next(cfg, st, steps[0]), steps[1..])
  }

  function Start(now: int): State {
    State(Counter(0, 0, false, false, false, "", now), Idle, [])
  }

  // Notifications are told apart

  datatype Kind = OfFailure | OfRatio

  predicate Notifies(e: Event, kind: Kind) {
    match kind case OfFailure => e.FailureNotified? case OfRatio => e.RatioNotified?
  }

  predicate Resets(e: Event, kind: Kind) {
    match kind case OfFailure => e.Cleared? case OfRatio => e.Passed?
  }

  /** Since the last notification of this kind nothing called for another one. */
  predicate Told(log: seq<Event>, kind: Kind) {
    log != []
    && (Notifies(log[|log| - 1], kind) || (!Resets(log[|log| - 1], kind) && Told(log[..|log| - 1], kind)))
  }

  ghost predicate Separated(log: seq<Event>, kind: Kind) {
    forall i, j | 0 <= i < j < |log| && Notifies(log[i], kind) && Notifies(log[j], kind) ::
      exists k :: i < k < j && Resets(log[k], kind)
  }

  lemma {:induction false} UntoldIsReset(log: seq<Event>, kind: Kind, i: nat)
    requires i < |log| && Notifies(log[i], kind) && !Told(log, kind)
    ensures exists k :: i < k < |log| && Resets(log[k], kind)
  {
    var n := |log| - 1;
    assert i < n;
    if !Resets(log[n], kind) {
      UntoldIsReset(log[..n], kind, i);
      var k :| i < k < n && Resets(log[..n][k], kind);
      assert Resets(log[k], kind);
    }
  }

  lemma OneMoreSeparated(log: seq<Event>, e: Event, kind: Kind)
    requires Separated(log, kind) && (Notifies(e, kind) ==> !Told(log, kind))
    ensures Separated(log + [e], kind)
  {
    var longer := log + [e];
    forall i, j | 0 <= i < j < |longer| && Notifies(longer[i], kind) && Notifies(longer[j], kind)
      ensures exists k :: i < k < j && Resets(longer[k], kind)
    {
      if j == |log| {
        UntoldIsReset(log, kind, i);
        var k :| i < k < |log| && Resets(log[k], kind);
        assert Resets(longer[k], kind);
      } else {
        var k :| i < k < j && Resets(log[k], kind);
        assert Resets(longer[k], kind);
      }
    }
  }

  lemma OneMoreTold(log: seq<Event>, e: Event, kind: Kind)
    ensures Told(log + [e], kind) <==> Notifies(e, kind) || (!Resets(e, kind) && Told(log, kind))
  {
    assert (log + [e])[..|log|] == log;
  }

  /** A notification is marked as processed, or about to be, until something calls for another one. */
  ghost predicate Quiet(st: State) {
    && Separated(st.log, OfFailure) && Separated(st.log, OfRatio)
    && (Told(st.log, OfFailure) ==> st.counter.failureProcessed || st.pc.FailureSent?)
    && (st.pc.NotifyingFailure? ==> !Told(st.log, OfFailure))
    && (Told(st.log, OfRatio) ==> st.counter.countersProcessed || st.pc.RatioSent?)
    && (st.pc.NotifyingRatio? || st.pc.Clearing? ==> !Told(st.log, OfRatio))
  }

  lemma Logged(log: seq<Event>, e: Event)
    ensures forall kind :: Told(log + [e], kind) <==> Notifies(e, kind) || (!Resets(e, kind) && Told(log, kind))
    ensures forall kind ::
              Separated(log, kind) && (Notifies(e, kind) ==> !Told(log, kind)) ==> Separated(log + [e], kind)
  {
    forall kind ensures Told(log + [e], kind) <==> Notifies(e, kind) || (!Resets(e, kind) && Told(log, kind)) {
      OneMoreTold(log, e, kind);
    }
    forall kind | Separated(log, kind) && (Notifies(e, kind) ==> !Told(log, kind)) ensures Separated(log + [e], kind) {
      OneMoreSeparated(log, e, kind);
    }
  }

  lemma StepQuiet(cfg: Config, st: State, s: Step)
    requires Quiet(st)
    ensures Quiet(Next(cfg, st, s))
  {
    hide Told, Separated, Judge;
    var next := Next(cfg, st, s);
    if s.Succeed? && st.counter.failed {
      Logged(st.log, Succeeded);
      Logged(st.log + [Succeeded], Cleared);
      assert next.log == (st.log + [Succeeded]) + [Cleared];
    } else if next.log != st.log {
      Logged(st.log, next.log[|st.log|]);
    }
  }

  lemma {:induction false} RunQuiet(cfg: Config, st: State, steps: seq<Step>)
    requires Quiet(st)
    ensures Quiet(Exec(cfg, st, steps))
    decreases |steps|
  {
    hide Quiet, Next;
    if steps != [] {
      StepQuiet(cfg, st, steps[0]);
      RunQuiet(cfg, Next(cfg, st, steps[0]), steps[1..]);
    }
  }

  /**
   Over every run: between two failure notifications a success cleared the first failure, and between
   two ratio notifications a pass saw the ratio at or above the threshold.
   */
  lemma NotificationsAreSeparated(cfg: Config, now: int, steps: seq<Step>)
    ensures Separated(Exec(cfg, Start(now), steps).log, OfFailure)
    ensures Separated(Exec(cfg, Start(now), steps).log, OfRatio)
  {
    RunQuiet(cfg, Start(now), steps);
  }

  // Totals

  /** How often `e` was logged since the counters were last flushed. */
  function Since(log: seq<Event>, e: Event): nat {
    if log == [] then 0
    else
      var last := log[|log| - 1];
      if last.Flushed? then 0 else Since(log[..|log| - 1], e) + if last == e then 1 else 0
  }

  ghost predicate Counted(st: State) {
    st.counter.success == Since(st.log, Succeeded) % TWO_32 && st.counter.failure == Since(st.log, Failed) % TWO_32
  }

  lemma SinceNext(log: seq<Event>, e: Event)
    ensures e.Flushed? ==> Since(log + [e], Succeeded) == Since(log + [e], Failed) == 0
    ensures !e.Flushed? ==> Since(log + [e], Succeeded) == Since(log, Succeeded) + if e == Succeeded then 1 else 0
    ensures !e.Flushed? ==> Since(log + [e], Failed) == Since(log, Failed) + if e == Failed then 1 else 0
  {
    assert (log + [e])[..|log|] == log;
  }

  lemma NextModulo(x: nat)
    ensures (x % TWO_32 + 1) % TWO_32 == (x + 1) % TWO_32
  {
    var q := x / TWO_32;
    assert x + 1 == q * TWO_32 + (x % TWO_32 + 1);
    if x % TWO_32 + 1 == TWO_32 {
      assert x + 1 == (q + 1) * TWO_32;
    }
  }

  lemma StepCounted(cfg: Config, st: State, s: Step)
    requires Counted(st)
    ensures Counted(Next(cfg, st, s))
  {
    hide Since, Judge;
    var next, log := Next(cfg, st, s), st.log;
    NextModulo(Since(log, Succeeded));
    NextModulo(Since(log, Failed));
    if s.Succeed? {
      SinceNext(log, Succeeded);
      SinceNext(log + [Succeeded], Cleared);
      assert st.counter.failed ==> next.log == (log + [Succeeded]) + [Cleared];
    } else if s.FailOnce? {
      SinceNext(log, Failed);
    } else if next.log != log {
      SinceNext(log, next.log[|log|]);
    }
  }

  /** The totals are the hits since the last flush, as 32-bit numbers. */
  lemma {:induction false} TotalsAreHits(cfg: Config, st: State, steps: seq<Step>)
    requires Counted(st)
    ensures Counted(Exec(cfg, st, steps))
    decreases |steps|
  {
    hide Counted, Next;
    if steps != [] {
      StepCounted(cfg, st, steps[0]);
      TotalsAreHits(cfg, Next(cfg, st, steps[0]), steps[1..]);
    }
  }

  // What is told, and when totals are reset

  /** The message of the last failure, or none after a success cleared it. */
  function CurrentMessage(log: seq<Event>): string {
    if log == [] then ""
    else
      match log[|log| - 1]
      case Marked(message) => message
      case Cleared => ""
      case _ => CurrentMessage(log[..|log| - 1])
  }

  function LastFlush(log: seq<Event>, start: int): int {
    if log == [] then start
    else if log[|log| - 1].Flushed? then log[|log| - 1].at
    else LastFlush(log[..|log| - 1], start)
  }

  /** Each notification had the message of its time; each flush came more than a period after the one before. */
  predicate Truthful(cfg: Config, log: seq<Event>, start: int) {
    log == []
    || (var before, e := log[..|log| - 1], log[|log| - 1];
        && Truthful(cfg, before, start)
        && (e.FailureNotified? ==> e.message == CurrentMessage(before))
        && (e.Flushed? ==> e.at > LastFlush(before, start) + cfg.resetPeriod))
  }

  ghost predicate Recorded(cfg: Config, st: State, start: int) {
    && Truthful(cfg, st.log, start)
    && st.counter.msg == CurrentMessage(st.log) && st.counter.timestamp == LastFlush(st.log, start)
  }

  lemma NextRecord(cfg: Config, log: seq<Event>, e: Event, start: int)
    ensures CurrentMessage(log + [e])
         == match e case Marked(message) => message case Cleared => "" case _ => CurrentMessage(log)
    ensures LastFlush(log + [e], start) == if e.Flushed? then e.at else LastFlush(log, start)
    ensures Truthful(cfg, log + [e], start)
       <==> Truthful(cfg, log, start) && (e.FailureNotified? ==> e.message == CurrentMessage(log))
            && (e.Flushed? ==> e.at > LastFlush(log, start) + cfg.resetPeriod)
  {
    assert (log + [e])[..|log|] == log;
  }

  lemma StepRecorded(cfg: Config, st: State, s: Step, start: int)
    requires Recorded(cfg, st, start)
    ensures Recorded(cfg, Next(cfg, st, s), start)
  {
    hide Truthful, CurrentMessage, LastFlush, Judge;
    var next, log := Next(cfg, st, s), st.log;
    if s.Succeed? && st.counter.failed {
      NextRecord(cfg, log, Succeeded, start);
      NextRecord(cfg, log + [Succeeded], Cleared, start);
      assert next.log == (log + [Succeeded]) + [Cleared];
    } else if next.log != log {
      NextRecord(cfg, log, next.log[|log|], start);
    }
  }

  lemma {:induction false} RunRecorded(cfg: Config, st: State, steps: seq<Step>, start: int)
    requires Recorded(cfg, st, start)
    ensures Recorded(cfg, Exec(cfg, st, steps), start)
    decreases |steps|
  {
    hide Recorded, Next;
    if steps != [] {
      StepRecorded(cfg, st, steps[0], start);
      RunRecorded(cfg, Next(cfg, st, steps[0]), steps[1..], start);
    }
  }

  lemma {:induction false} TruthfulAt(cfg: Config, log: seq<Event>, start: int, i: nat)
    requires i < |log| && Truthful(cfg, log, start)
    ensures log[i].FailureNotified? ==> log[i].message == CurrentMessage(log[..i])
    ensures log[i].Flushed? ==> log[i].at > LastFlush(log[..i], start) + cfg.resetPeriod
  {
    if i < |log| - 1 {
      TruthfulAt(cfg, log[..|log| - 1], start, i);
      assert log[..|log| - 1][..i] == log[..i];
    }
  }

  /**
   Over every run: a failure notification carries the message of the last failure, none if a success
   cleared it while the pass was under way; and totals are reset more than a period apart.
   */
  lemma NotificationsAreTruthful(cfg: Config, start: int, steps: seq<Step>, i: nat)
    requires i < |Exec(cfg, Start(start), steps).log|
    ensures var log := Exec(cfg, Start(start), steps).log;
            && (log[i].FailureNotified? ==> log[i].message == CurrentMessage(log[..i]))
            && (log[i].Flushed? ==> log[i].at > LastFlush(log[..i], start) + cfg.resetPeriod)
  {
    RunRecorded(cfg, Start(start), steps, start);
    TruthfulAt(cfg, Exec(cfg, Start(start), steps).log, start, i);
  }

  const CLEARED_TOO_EARLY: seq<Step> := [MarkFailed("a"), Proceed(true, 0), Proceed(true, 0), Succeed, Proceed(true, 0)]

  /** A success between the check and the notification: what is sent has no message. */
  lemma EmptyNotification(cfg: Config)
    ensures Exec(cfg, Start(0), CLEARED_TOO_EARLY).log == [Marked("a"), Succeeded, Cleared, FailureNotified("")]
  {
    var st1 := Next(cfg, Start(0), MarkFailed("a"));
    var st2 := Process(cfg, st1, true, 0);
    var st3 := Process(cfg, st2, true, 0);
    var steps := CLEARED_TOO_EARLY;
    assert steps[1..][1..] == steps[2..] && steps[2..][1..] == steps[3..];
    assert Exec(cfg, Start(0), steps) == Exec(cfg, st1, steps[1..]);
    assert Exec(cfg, st1, steps[1..]) == Exec(cfg, st2, steps[2..]);
    assert Exec(cfg, st2, steps[2..]) == Exec(cfg, st3, steps[3..]);
    assert steps[3..] == [Succeed, Proceed(true, 0)] && steps[3..][1..] == [Proceed(true, 0)];
  }

  // When a failure goes unnoticed

  /** Where the log leaves the counter: without a failure, with one that was not told, or with one that was. */
  datatype Standing = Working | Untold | Noticed

  function Onwards(before: Standing, e: Event): Standing {
    match e
    case Cleared => Working
    case Marked(_) => if before.Working? then Untold else before
    case FailureNotified(_) => if before.Working? then Working else Noticed
    case _ => before
  }

  function StandingOf(log: seq<Event>): Standing {
    if log == [] then Working else Onwards(StandingOf(log[..|log| - 1]), log[|log| - 1])
  }

  /** The mark is set only for a failure that is there and was told. */
  predicate Honest(st: State) {
    st.counter.failureProcessed ==> StandingOf(st.log).Noticed?
  }

  ghost predicate AlwaysHonest(cfg: Config, st: State, steps: seq<Step>)
    decreases |steps|
  {
    Honest(st) && (steps != [] ==> AlwaysHonest(cfg, Next(cfg, st, steps[0]), steps[1..]))
  }

  /** A notification of a failure that is over, or a success that ends one between its notification and its mark. */
  predicate Crosses(st: State, s: Step) {
    || (s.Proceed? && s.found && st.pc.NotifyingFailure? && !st.counter.failed)
    || (s.Succeed? && st.pc.FailureSent? && st.counter.failed)
  }

  predicate NeverCrosses(cfg: Config, st: State, steps: seq<Step>)
    decreases |steps|
  {
    steps != [] ==> !Crosses(st, steps[0]) && NeverCrosses(cfg, Next(cfg, st, steps[0]), steps[1..])
  }

  /** The counter has failed iff the log leaves a failure. */
  predicate Accounted(st: State) {
    st.counter.failed <==> !StandingOf(st.log).Working?
  }

  lemma NextStanding(log: seq<Event>, e: Event)
    ensures StandingOf(log + [e]) == Onwards(StandingOf(log), e)
  {
    assert (log + [e])[..|log|] == log;
  }

  /** One step: the account stays right, and it says how the standing changes. */
  lemma StepStanding(cfg: Config, st: State, s: Step)
    requires Accounted(st)
    ensures var next := Next(cfg, st, s);
            var before, after := StandingOf(st.log), StandingOf(next.log);
            && Accounted(next)
            && (s.Succeed? ==> after == Working)
            && (s.MarkFailed? ==> after == if before.Working? then Untold else before)
            && (s.Proceed? && s.found && st.pc.NotifyingFailure? ==>
                  after == if before.Working? then Working else Noticed)
            && (s.FailOnce? || (s.Proceed? && !(s.found && st.pc.NotifyingFailure?)) ==> after == before)
  {
    hide StandingOf, Judge;
    var next, log := Next(cfg, st, s), st.log;
    if s.Succeed? {
      NextStanding(log, Succeeded);
      NextStanding(log + [Succeeded], Cleared);
      assert st.counter.failed ==> next.log == (log + [Succeeded]) + [Cleared];
    } else if next.log != log {
      NextStanding(log, next.log[|log|]);
    }
  }

  /** A pass about to set the mark of a failure that was not told ends in a dishonest state. */
  lemma {:induction false} DishonestMark(cfg: Config, st: State, steps: seq<Step>)
    requires Accounted(st) && st.pc.FailureSent? && !StandingOf(st.log).Noticed?
    requires !Exec(cfg, st, steps).pc.FailureSent?
    ensures !AlwaysHonest(cfg, st, steps)
    decreases |steps|
  {
    var next := Next(cfg, st, steps[0]);
    StepStanding(cfg, st, steps[0]);
    hide StandingOf;
    if steps[0].Proceed? {
      assert !Honest(next);
    } else {
      DishonestMark(cfg, next, steps[1..]);
    }
  }

  /** An honest mark, and none but an honest one about to be set. */
  ghost predicate Sound(st: State) {
    Accounted(st) && Honest(st) && (st.pc.FailureSent? ==> StandingOf(st.log).Noticed?)
  }

  lemma StepSound(cfg: Config, st: State, s: Step)
    requires Sound(st)
    ensures var next := Next(cfg, st, s);
            if Crosses(st, s) then Accounted(next) && next.pc.FailureSent? && !StandingOf(next.log).Noticed?
            else Sound(next)
  {
    StepStanding(cfg, st, s);
    hide StandingOf, Judge;
  }

  lemma {:induction false} HonestRunIff(cfg: Config, st: State, steps: seq<Step>)
    requires Sound(st) && !Exec(cfg, st, steps).pc.FailureSent?
    ensures AlwaysHonest(cfg, st, steps) <==> NeverCrosses(cfg, st, steps)
    decreases |steps|
  {
    if steps != [] {
      var s, next := steps[0], Next(cfg, st, steps[0]);
      StepSound(cfg, st, s);
      assert Honest(st);
      hide StandingOf, Next, Honest, Crosses, Sound, Accounted;
      if Crosses(st, s) {
        DishonestMark(cfg, next, steps[1..]);
      } else {
        HonestRunIff(cfg, next, steps[1..]);
      }
    }
  }

  /**
   Which runs hide a failure: outside the moment between a notification and its mark, the mark stands
   for a failure that was told in every state of a run iff in that run no notification comes after its
   failure has ended, and no success ends a failure between its notification and its mark.
   */
  lemma MarksAreHonestIff(cfg: Config, now: int, steps: seq<Step>)
    requires !Exec(cfg, Start(now), steps).pc.FailureSent?
    ensures AlwaysHonest(cfg, Start(now), steps) <==> NeverCrosses(cfg, Start(now), steps)
  {
    HonestRunIff(cfg, Start(now), steps);
  }

  /** A failure whose mark is already set stays untold until the next success. */
  lemma {:induction false} MutedUntilSuccess(cfg: Config, st: State, steps: seq<Step>)
    requires st.pc == Idle && st.counter.failed && st.counter.failureProcessed
    requires forall s | s in steps :: s.MarkFailed? || s.FailOnce? || s.Proceed?
    ensures var log := Exec(cfg, st, steps).log;
            st.log <= log && forall i | |st.log| <= i < |log| :: !log[i].FailureNotified?
    decreases |steps|
  {
    MutedRun(cfg, st, st.log, steps);
  }

  lemma {:induction false} MutedRun(cfg: Config, st: State, before: seq<Event>, steps: seq<Step>)
    requires (st.pc == Idle || st.pc == SawFailed) && st.counter.failed && st.counter.failureProcessed
    requires before <= st.log && forall i | |before| <= i < |st.log| :: !st.log[i].FailureNotified?
    requires forall s | s in steps :: s.MarkFailed? || s.FailOnce? || s.Proceed?
    ensures var log := Exec(cfg, st, steps).log;
            before <= log && forall i | |before| <= i < |log| :: !log[i].FailureNotified?
    decreases |steps|
  {
    if steps != [] {
      assert steps[0] in steps;
      assert forall s | s in steps[1..] :: s in steps;
      MutedRun(cfg, Next(cfg, st, steps[0]), before, steps[1..]);
    }
  }

  const RACE: seq<Step> :=
    [MarkFailed("a"), Proceed(true, 0), Proceed(true, 0), Proceed(true, 0), Succeed, Proceed(true, 0), MarkFailed("b")]

  /** A success just after the notification: the next failure is marked as processed and was never told. */
  lemma SecondFailureGoesUnnoticed(cfg: Config)
    ensures var st := Exec(cfg, Start(0), RACE);
            && st.pc == Idle && st.counter.failed && st.counter.failureProcessed && st.counter.msg == "b"
            && st.log == [Marked("a"), FailureNotified("a"), Succeeded, Cleared, Marked("b")]
  {
    var st1 := Next(cfg, Start(0), MarkFailed("a"));
    var st4 := Process(cfg, Process(cfg, Process(cfg, st1, true, 0), true, 0), true, 0);
    assert Exec(cfg, Start(0), RACE) == Exec(cfg, st1, RACE[1..]);
    assert RACE[1..][1..] == RACE[2..] && RACE[2..][1..] == RACE[3..] && RACE[3..][1..] == RACE[4..];
    assert Exec(cfg, st1, RACE[1..]) == Exec(cfg, Process(cfg, st1, true, 0), RACE[2..]);
    assert Exec(cfg, Process(cfg, st1, true, 0), RACE[2..])
        == Exec(cfg, Process(cfg, Process(cfg, st1, true, 0), true, 0), RACE[3..]);
    assert Exec(cfg, Start(0), RACE) == Exec(cfg, st4, RACE[4..]);
    assert RACE[4..] == [Succeed, Proceed(true, 0), MarkFailed("b")];
    assert RACE[4..][1..] == [Proceed(true, 0), MarkFailed("b")];
    assert [Proceed(true, 0), MarkFailed("b")][1..] == [MarkFailed("b")];
  }

  // The processor on its own

  /** What an uninterrupted pass leaves, and the notification it sends. */
  function Pass(cfg: Config, c: Counter, found: bool, now: int): (Counter, seq<Event>) {
    if c.failed then
      if c.failureProcessed || !found then (c, []) else (c.(failureProcessed := true), [FailureNotified(c.msg)])
    else
      match Judge(cfg, c.success, c.failure)
      case TooFew => (c, [])
      case Good =>
        var flushed := Flush(cfg, c.(countersProcessed := false), now);
        (flushed, if Expired(cfg, c, now) then [Passed, Flushed(now)] else [Passed])
      case Bad =>
        if c.countersProcessed || !found then (c, []) else (c.(countersProcessed := true), [RatioNotified])
  }

  function Proceeds(n: nat, found: bool, now: int): seq<Step> {
    if n == 0 then [] else [Proceed(found, now)] + Proceeds(n - 1, found, now)
  }

  function PassLength(cfg: Config, c: Counter, found: bool): nat {
    if c.failed then if c.failureProcessed then 2 else if found then 4 else 3
    else
      match Judge(cfg, c.success, c.failure)
      case TooFew => 3
      case Good => 5
      case Bad => if c.countersProcessed then 4 else if found then 6 else 5
  }

  lemma ExecProceeds(cfg: Config, st: State, n: nat, found: bool, now: int)
    ensures var end := Exec(cfg, st, Proceeds(n, found, now));
            end == if n == 0 then st else Exec(cfg, Process(cfg, st, found, now), Proceeds(n - 1, found, now))
  {
    if n > 0 {
      assert Proceeds(n, found, now)[1..] == Proceeds(n - 1, found, now);
    }
  }

  /** The notification among the events of a pass. */
  function Notice(events: seq<Event>): Option<Event> {
    if events != [] && (events[0].FailureNotified? || events[0].RatioNotified?) then Some(events[0]) else None
  }

  /** Nobody interrupting, the machine's steps are that pass. */
  lemma PassAlone(cfg: Config, c: Counter, log: seq<Event>, found: bool, now: int)
    ensures var (end, events) := Pass(cfg, c, found, now);
            var steps := Proceeds(PassLength(cfg, c, found), found, now);
            Exec(cfg, State(c, Idle, log), steps) == State(end, Idle, log + events)
  {
    hide Judge, Exec, Proceeds;
    var st := State(c, Idle, log);
    var n := PassLength(cfg, c, found);
    var st1 := Process(cfg, st, found, now);
    var st2 := Process(cfg, st1, found, now);
    ExecProceeds(cfg, st, n, found, now);
    ExecProceeds(cfg, st1, n - 1, found, now);
    ExecProceeds(cfg, st2, n - 2, found, now);
    if n > 2 {
      var st3 := Process(cfg, st2, found, now);
      ExecProceeds(cfg, st3, n - 3, found, now);
      if n > 3 {
        var st4 := Process(cfg, st3, found, now);
        ExecProceeds(cfg, st4, n - 4, found, now);
        if n > 4 {
          var st5 := Process(cfg, st4, found, now);
          ExecProceeds(cfg, st5, n - 5, found, now);
          if n > 5 {
            ExecProceeds(cfg, Process(cfg, st5, found, now), 0, found, now);
          }
        }
      }
    }
    assert log + [] == log;
    assert (log + [Passed]) + [Flushed(now)] == log + [Passed, Flushed(now)];
  }

  /** Whether the successes are at least the threshold's share of the 32-bit total; of no total, any success is. */
  predicate ReachesThreshold(cfg: Config, c: Counter) {
    var total := (c.success + c.failure) % TWO_32;
    if total == 0 then c.success > 0 else c.success as real >= cfg.failureThreshold * total as real
  }

  lemma JudgedTooFewIff(cfg: Config, c: Counter)
    ensures Judge(cfg, c.success, c.failure) == TooFew <==> (c.success + c.failure) % TWO_32 < cfg.minRequests
    ensures Judge(cfg, c.success, c.failure) == Good
       <==> (c.success + c.failure) % TWO_32 >= cfg.minRequests && ReachesThreshold(cfg, c)
  {
    JudgedBadIff(cfg, c.success, c.failure);
  }

  /** A pass that sees the ratio recovered clears the mark, so that the next drop is told, and resets due totals. */
  lemma GoodPassResets(cfg: Config, c: Counter, log: seq<Event>, found: bool, now: int)
    requires !c.failed && (c.success + c.failure) % TWO_32 >= cfg.minRequests && ReachesThreshold(cfg, c)
    ensures var end := Exec(cfg, State(c, Idle, log), Proceeds(5, found, now));
            && end.pc.Idle? && !end.counter.countersProcessed && !end.counter.failed
            && (if now > c.timestamp + cfg.resetPeriod
                then end.log == log + [Passed, Flushed(now)] && end.counter.success == end.counter.failure == 0
                     && end.counter.timestamp == now
                else end.log == log + [Passed] && end.counter.success == c.success && end.counter.failure == c.failure
                     && end.counter.timestamp == c.timestamp)
  {
    JudgedTooFewIff(cfg, c);
    PassAlone(cfg, c, log, found, now);
    hide Exec, Proceeds, Judge;
  }

  /** A pass that sees the ratio below the threshold tells it once; without connection data it does nothing. */
  lemma BadPassTells(cfg: Config, c: Counter, log: seq<Event>, found: bool, now: int)
    requires !c.failed && (c.success + c.failure) % TWO_32 >= cfg.minRequests && !ReachesThreshold(cfg, c)
    ensures var n := if c.countersProcessed then 4 else if found then 6 else 5;
            var end := Exec(cfg, State(c, Idle, log), Proceeds(n, found, now));
            if found && !c.countersProcessed
            then end == State(c.(countersProcessed := true), Idle, log + [RatioNotified])
            else end == State(c, Idle, log)
  {
    JudgedTooFewIff(cfg, c);
    PassAlone(cfg, c, log, found, now);
    hide Exec, Proceeds, Judge;
    assert log + [] == log;
  }

  /** A pass over too few requests, and one over a failure that is marked or has no connection data, does nothing. */
  lemma IdlePassChangesNothing(cfg: Config, c: Counter, log: seq<Event>, found: bool, now: int)
    requires if c.failed then c.failureProcessed || !found else (c.success + c.failure) % TWO_32 < cfg.minRequests
    ensures Exec(cfg, State(c, Idle, log), Proceeds(if c.failed && c.failureProcessed then 2 else 3, found, now))
         == State(c, Idle, log)
  {
    JudgedTooFewIff(cfg, c);
    PassAlone(cfg, c, log, found, now);
    hide Exec, Proceeds, Judge;
    assert log + [] == log;
  }

  lemma {:induction false} ExecConcat(cfg: Config, st: State, a: seq<Step>, b: seq<Step>)
    ensures Exec(cfg, st, a + b) == Exec(cfg, Exec(cfg, st, a), b)
    decreases |a|
  {
    hide Next;
    if a == [] {
      assert a + b == b;
    } else {
      assert (a + b)[0] == a[0] && (a + b)[1..] == a[1..] + b;
      ExecConcat(cfg, Next(cfg, st, a[0]), a[1..], b);
    }
  }

  /** A drop, a recovery and another drop, each seen by a pass: the second drop is told as well. */
  function TwoDrops(): seq<Step> {
    [FailOnce] + Proceeds(6, true, 0) + [Succeed] + Proceeds(5, true, 100) + [FailOnce] + Proceeds(6, true, 100)
  }

  lemma BothDropsAreTold()
    ensures Exec(Config(1, 0.5, 10), Start(0), TwoDrops()).log
         == [Failed, RatioNotified, Succeeded, Passed, Flushed(100), Failed, RatioNotified]
  {
    hide Exec, Proceeds;
    var cfg := Config(1, 0.5, 10);
    var failing := Counter(0, 1, false, false, false, "", 0);
    var told := failing.(countersProcessed := true);
    var log1: seq<Event> := [Failed, RatioNotified];
    ExecOne(cfg, Start(0), FailOnce);
    assert Exec(cfg, Start(0), [FailOnce]) == State(failing, Idle, [Failed]);
    BadPassTells(cfg, failing, [Failed], true, 0);
    assert Exec(cfg, State(failing, Idle, [Failed]), Proceeds(6, true, 0)) == State(told, Idle, log1);
    ExecOne(cfg, State(told, Idle, log1), Succeed);
    var recovered := told.(success := 1);
    var log2 := log1 + [Succeeded];
    assert Exec(cfg, State(told, Idle, log1), [Succeed]) == State(recovered, Idle, log2);
    PassAlone(cfg, recovered, log2, true, 100);
    JudgedTooFewIff(cfg, recovered);
    var reset := Counter(0, 0, false, false, false, "", 100);
    var log3 := log2 + [Passed, Flushed(100)];
    assert Exec(cfg, State(recovered, Idle, log2), Proceeds(5, true, 100)) == State(reset, Idle, log3);
    ExecOne(cfg, State(reset, Idle, log3), FailOnce);
    var dropped := reset.(failure := 1);
    assert Exec(cfg, State(reset, Idle, log3), [FailOnce]) == State(dropped, Idle, log3 + [Failed]);
    BadPassTells(cfg, dropped, log3 + [Failed], true, 100);
    var log4 := log3 + [Failed];
    assert Exec(cfg, State(dropped, Idle, log4), Proceeds(6, true, 100)).log == log4 + [RatioNotified];
    JoinDrops(cfg);
  }

  lemma ExecOne(cfg: Config, st: State, s: Step)
    ensures Exec(cfg, st, [s]) == Next(cfg, st, s)
  {
    assert [s][1..] == [];
  }

  lemma JoinDrops(cfg: Config)
    ensures var st1 := Exec(cfg, Start(0), [FailOnce]);
            var st2 := Exec(cfg, st1, Proceeds(6, true, 0));
            var st3 := Exec(cfg, st2, [Succeed]);
            var st4 := Exec(cfg, st3, Proceeds(5, true, 100));
            var st5 := Exec(cfg, st4, [FailOnce]);
            Exec(cfg, Start(0), TwoDrops()) == Exec(cfg, st5, Proceeds(6, true, 100))
  {
    hide Exec, Proceeds;
    var a: seq<Step>, b: seq<Step> := [FailOnce], [Succeed];
    ExecConcat(cfg, Start(0), a, Proceeds(6, true, 0));
    ExecConcat(cfg, Start(0), a + Proceeds(6, true, 0), b);
    ExecConcat(cfg, Start(0), a + Proceeds(6, true, 0) + b, Proceeds(5, true, 100));
    ExecConcat(cfg, Start(0), a + Proceeds(6, true, 0) + b + Proceeds(5, true, 100), a);
    ExecConcat(cfg, Start(0), a + Proceeds(6, true, 0) + b + Proceeds(5, true, 100) + a, Proceeds(6, true, 100));
  }

  lemma {:induction false} RunAccounted(cfg: Config, st: State, steps: seq<Step>)
    requires Accounted(st)
    ensures Accounted(Exec(cfg, st, steps))
    decreases |steps|
  {
    if steps != [] {
      StepStanding(cfg, st, steps[0]);
      hide Accounted, Next;
      RunAccounted(cfg, Next(cfg, st, steps[0]), steps[1..]);
    }
  }

  lemma {:induction false} HonestAtEnd(cfg: Config, st: State, steps: seq<Step>)
    requires AlwaysHonest(cfg, st, steps)
    ensures Honest(Exec(cfg, st, steps))
    decreases |steps|
  {
    hide Honest, Next;
    if steps != [] {
      HonestAtEnd(cfg, Next(cfg, st, steps[0]), steps[1..]);
    }
  }

  /**
   What that means over every run: where it leaves a failure that was not told and no pass under way,
   the next pass, with connection data and nobody interrupting it, tells the failure with the message
   it has by then iff the mark is honest; and so it does whenever nothing in the run crossed.
   */
  lemma UntoldFailureIsToldIff(cfg: Config, start: int, steps: seq<Step>, now: int)
    requires var st := Exec(cfg, Start(start), steps); st.pc.Idle? && StandingOf(st.log).Untold?
    ensures var st := Exec(cfg, Start(start), steps);
            var told := st.log + [FailureNotified(CurrentMessage(st.log))];
            var pass := Proceeds(PassLength(cfg, st.counter, true), true, now);
            && (Exec(cfg, st, pass).log == told <==> Honest(st))
            && (NeverCrosses(cfg, Start(start), steps) ==> Exec(cfg, st, pass).log == told)
  {
    var st := Exec(cfg, Start(start), steps);
    RunAccounted(cfg, Start(start), steps);
    RunRecorded(cfg, Start(start), steps, start);
    PassAlone(cfg, st.counter, st.log, true, now);
    MarksAreHonestIff(cfg, start, steps);
    if NeverCrosses(cfg, Start(start), steps) {
      HonestAtEnd(cfg, Start(start), steps);
    }
    hide Exec, StandingOf, CurrentMessage, Truthful, LastFlush, NeverCrosses, AlwaysHonest;
    assert st == State(st.counter, Idle, st.log);
  }

  /** When a pass asks for a ratio notification: the 32-bit total counts, and a total of no requests is no exception. */
  lemma JudgedBadIff(cfg: Config, succeeded: nat, failed: nat)
    ensures var total := (succeeded + failed) % TWO_32;
            var due := cfg.failureThreshold * total as real;
            var below := if total == 0 then succeeded == 0 else (succeeded as real) < due;
            Judge(cfg, succeeded, failed) == Bad <==> total >= cfg.minRequests && below
  {
    if Total(succeeded, failed) > 0 {
      DividedBelowIff(succeeded as real, Total(succeeded, failed) as real, cfg.failureThreshold);
    }
  }

  lemma DividedBelowIff(x: real, y: real, t: real)
    requires y > 0.0
    ensures x / y < t <==> x < t * y
  {
    var q := x / y;
    assert x == q * y;
    if q < t {
      assert (t - q) * y > 0.0;
    } else {
      assert (q - t) * y >= 0.0;
    }
  }

  class AtomicCounter {
    var success: nat
    var failure: nat
    var failed: bool
    var failureProcessed: bool
    var countersProcessed: bool
    var msg: string
    var timestamp: int

    function Value(): Counter
      reads this
    {
      Counter(success, failure, failed, failureProcessed, countersProcessed, msg, timestamp)
    }

    constructor (now: int)
      ensures Value() == Start(now).counter
    {
      success, failure, failed, failureProcessed, countersProcessed, msg := 0, 0, false, false, false, "";
      timestamp := now;
    }

    method HitSuccess()
      modifies this
      ensures Value() == AfterSuccess(old(Value()))
    {
      success := (success + 1) % TWO_32;
      if failed {
        failed := false;
        failureProcessed := false;
        msg := "";
      }
    }

    method HitFailure()
      modifies this
      ensures Value() == AfterFailure(old(Value()))
    {
      failure := (failure + 1) % TWO_32;
    }

    method Failed(message: string)
      modifies this
      ensures Value() == Fail(old(Value()), message)
    {
      msg := message;
      failed := true;
    }

    method FlushCounters(cfg: Config, now: int)
      modifies this
      ensures Value() == Flush(cfg, old(Value()), now)
    {
      if now > timestamp + cfg.resetPeriod {
        timestamp := now;
        success := 0;
        failure := 0;
      }
    }
  }

  /** A pass of the processor that nothing interrupts; `notice` is what went to the notifier. */
  method ProcessCounter(cfg: Config, counter: AtomicCounter, found: bool, now: int) returns (notice: Option<Event>)
    modifies counter
    ensures counter.Value() == Pass(cfg, old(counter.Value()), found, now).0
    ensures notice == Notice(Pass(cfg, old(counter.Value()), found, now).1)
  {
    notice := None;
    if counter.failed {
      if counter.failureProcessed {
        return;
      }
      if !found {
        return;
      }
      notice := Some(FailureNotified(counter.msg));
      counter.failureProcessed := true;
      return;
    }
    var succeeded, failed := counter.success, counter.failure;
    if Total(succeeded, failed) < cfg.minRequests {
      return;
    }
    if RatioHolds(cfg, succeeded, failed) {
      counter.countersProcessed := false;
      counter.FlushCounters(cfg, now);
      return;
    }
    if counter.countersProcessed {
      return;
    }
    if !found {
      return;
    }
    notice := Some(RatioNotified);
    counter.countersProcessed := true;
  }
}
