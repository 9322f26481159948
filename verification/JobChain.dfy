/**
 Running jobs one after the other. The manager builds a chain of closures from the back of the list; each
 job's goroutine calls its closure, which launches the next job in a goroutine of its own. A closure is
 represented here by what it captures.
 */
module JobChain {
  import opened Wrappers
  import opened Sequences

  type Name = string

  datatype Error = Own(code: int) | NotFound(name: Name)

  /** `i` is the captured index; Last calls RunJobOnce without a callback, Before with the closure built earlier. */
  datatype Callback = NoCallback | Last(i: nat) | Before(i: nat, next: Callback)

  /** The closure for positions i to n - 1. */
  function ChainFrom(i: nat, n: nat): Callback
    decreases n - i
  {
    if i >= n then NoCallback else if i + 1 == n then Last(i) else Before(i, ChainFrom(i + 1, n))
  }

  method BuildChain(names: seq<Name>) returns (chained: Callback)
    requires names != []
    ensures chained == ChainFrom(1, |names|)
  {
    chained := NoCallback;
    var i := |names| - 1;
    while i > 0
      invariant 0 <= i < |names|
      invariant chained == ChainFrom(i + 1, |names|)
    {
      if chained.NoCallback? {
        chained := Last(i);
      } else {
        chained := Before(i, chained);
      }
      i := i - 1;
    }
  }

  // What the registered jobs do

  datatype Outcome = Succeeds | Fails(code: int) | Panics

  /** An ErrorHandler, by whether it panics when it is given an error and when it is given nil. */
  datatype Handler = Handler(panicsOnError: bool, panicsOnNil: bool)

  /** What one lookup finds and what the job found then does. */
  datatype Turn = Turn(found: bool, outcome: Outcome, handler: Option<Handler>, hasPanicHandler: bool)

  const MISSING := Turn(false, Succeeds, None, false)

  /** The k-th lookup of a run. */
  function TurnAt(turns: seq<Turn>, k: nat): Turn {
    if k < |turns| then turns[k] else MISSING
  }

  datatype Call = ErrorCall(err: Option<Error>) | PanicCall

  predicate HandlerPanics(turn: Turn, err: Option<Error>) {
    turn.handler.Some? && (if err.Some? then turn.handler.value.panicsOnError else turn.handler.value.panicsOnNil)
  }

  function Panicked(turn: Turn): seq<Call> {
    if turn.hasPanicHandler then [PanicCall] else []
  }

  /** The calls that passing `err` to the job's ErrorHandler leads to. */
  function Handled(turn: Turn, err: Option<Error>): seq<Call> {
    if turn.handler.None? then []
    else [ErrorCall(err)] + if HandlerPanics(turn, err) then Panicked(turn) else []
  }

  // The forward interpreter

  /**
   What one run meets: `names[i]` is what the caller's slice holds at i, and `turns[i]` what is found under
   that name, at the moment of lookup i. The closures share the slice, so both may change during a run.
   */
  datatype Plan = Plan(names: seq<Name>, turns: seq<Turn>, stopOnError: bool)

  predicate FoundAt(p: Plan, k: nat) {
    k < |p.turns| && p.turns[k].found
  }

  datatype Ran = Ran(name: Name, calls: seq<Call>)

  /** What looking the i-th name up returns. */
  function LookupError(p: Plan, i: nat): Option<Error>
    requires i < |p.names|
  {
    if TurnAt(p.turns, i).found then None else Some(NotFound(p.names[i]))
  }

  /** Runs the jobs from the i-th on, in order, each after the one before it. */
  function Forward(p: Plan, i: nat): seq<Ran>
    decreases |p.names| - i
  {
    if i >= |p.names| || !TurnAt(p.turns, i).found then []
    else
      var turn, name, last := TurnAt(p.turns, i), p.names[i], i + 1 == |p.names|;
      match turn.outcome
      case Panics => [Ran(name, Panicked(turn))]
      case Succeeds =>
        if last then [Ran(name, [])]
        else [Ran(name, Handled(turn, LookupError(p, i + 1)))] + Forward(p, i + 1)
      case Fails(code) =>
        var err := Some(Own(code));
        if last || HandlerPanics(turn, err) then [Ran(name, Handled(turn, err))]
        else if p.stopOnError then [Ran(name, Handled(turn, err) + Handled(turn, err))]
        else [Ran(name, Handled(turn, err) + Handled(turn, LookupError(p, i + 1)))] + Forward(p, i + 1)
  }

  // The goroutines

  datatype Pc =
    | Commanding                             // about to call Command
    | Handling(code: int)                    // Command failed; about to call ErrorHandler
    | Calling(err: Option<Error>)            // about to call the callback
    | HandlingResult(res: Option<Error>)     // the callback returned; about to call ErrorHandler
    | Recovering                             // a panic unwinds into the deferred function
    | Done

  datatype Goroutine = Goroutine(name: Name, turn: Turn, callback: Callback, pc: Pc, calls: seq<Call>)

  /** `ran` lists the jobs whose Command was called, in the order of the calls. */
  datatype State = State(goroutines: seq<Goroutine>, ran: seq<Name>, lookups: nat)

  function RunJobOnce(p: Plan, st: State, name: Name, callback: Callback): (State, Option<Error>) {
    var turn := TurnAt(p.turns, st.lookups);
    var looked := st.(lookups := st.lookups + 1);
    if turn.found
    then (looked.(goroutines := st.goroutines + [Goroutine(name, turn, callback, Commanding, [])]), None)
    else (looked, Some(NotFound(name)))
  }

  /** The body of a closure. */
  function Invoke(p: Plan, st: State, callback: Callback, err: Option<Error>): (State, Option<Error>) {
    if callback.NoCallback? || callback.i >= |p.names| then (st, None)
    else if err.Some? && p.stopOnError then (st, err)
    else RunJobOnce(p, st, p.names[callback.i], if callback.Last? then NoCallback else callback.next)
  }

  function AfterCommand(g: Goroutine, err: Option<Error>): Pc {
    if g.callback.NoCallback? then Done else Calling(err)
  }

  function Put(st: State, t: nat, g: Goroutine): State
    requires t < |st.goroutines|
  {
    st.(goroutines := st.goroutines[t := g])
  }

  predicate Enabled(st: State, t: nat) {
    t < |st.goroutines| && st.goroutines[t].pc != Done
  }

  function Step(p: Plan, st: State, t: nat): State
    requires Enabled(st, t)
  {
    var g := st.goroutines[t];
    match g.pc
    case Commanding =>
      var pc := match g.turn.outcome
        case Succeeds => AfterCommand(g, None)
        case Fails(code) => if g.turn.handler.Some? then Handling(code) else AfterCommand(g, Some(Own(code)))
        case Panics => Recovering;
      Put(st, t, g.(pc := pc)).(ran := st.ran + [g.name])
    case Handling(code) =>
      var err := Some(Own(code));
      Put(st, t, g.(pc := if HandlerPanics(g.turn, err) then Recovering else AfterCommand(g, err),
                    calls := g.calls + [ErrorCall(err)]))
    case Calling(err) =>
      var (next, res) := Invoke(p, st, g.callback, err);
      if t < |next.goroutines| then Put(next, t, g.(pc := if g.turn.handler.Some? then HandlingResult(res) else Done))
      else next
    case HandlingResult(res) =>
      Put(st, t, g.(pc := if HandlerPanics(g.turn, res) then Recovering else Done,
                    calls := g.calls + [ErrorCall(res)]))
    case Recovering =>
      Put(st, t, g.(pc := Done, calls := g.calls + Panicked(g.turn)))
  }

  /** Any interleaving of the goroutines: `schedule` says whose turn it is. */
  function Exec(p: Plan, st: State, schedule: seq<nat>): Option<State>
    decreases |schedule|
  {
    if schedule == [] then Some(st)
    else if Enabled(st, schedule[0]) then Exec(p, Step(p, st, schedule[0]), schedule[1..])
    else None
  }

  const IDLE := State([], [], 0)

  function Begin(p: Plan): (State, Option<Error>) {
    if p.names == [] then (IDLE, None) else RunJobOnce(p, IDLE, p.names[0], ChainFrom(1, |p.names|))
  }

  /** The call itself: it returns as soon as the first job is launched. */
  method RunJobsOnceSequentially(p: Plan) returns (st: State, err: Option<Error>)
    ensures (st, err) == Begin(p)
    ensures if p.names != [] && !FoundAt(p, 0) then err == Some(NotFound(p.names[0])) else err == None
  {
    if |p.names| == 0 {
      return IDLE, None;
    }
    var chained := BuildChain(p.names);
    var launched := RunJobOnce(p, IDLE, p.names[0], chained);
    return launched.0, launched.1;
  }

  // The chain is the interpreter

  /** Whether the job of position k hands over to its callback without an error that stops the chain. */
  predicate Continues(p: Plan, k: nat) {
    var turn := TurnAt(p.turns, k);
    match turn.outcome
    case Succeeds => true
    case Fails(code) => !p.stopOnError && !HandlerPanics(turn, Some(Own(code)))
    case Panics => false
  }

  predicate Proceeds(p: Plan, k: nat) {
    k + 1 < |p.names| && Continues(p, k) && TurnAt(p.turns, k + 1).found
  }

  /** What the callback of position k returns when it is given `err`. */
  function Result(p: Plan, k: nat, err: Option<Error>): Option<Error>
    requires k + 1 < |p.names|
  {
    if err.Some? && p.stopOnError then err else LookupError(p, k + 1)
  }

  function RestAfter(p: Plan, k: nat, err: Option<Error>): seq<Call> {
    if k + 1 < |p.names| then Handled(TurnAt(p.turns, k), Result(p, k, err)) else []
  }

  /** The handler calls that position k still makes. */
  function Rest(p: Plan, k: nat, pc: Pc): seq<Call> {
    var turn := TurnAt(p.turns, k);
    match pc
    case Commanding =>
      (match turn.outcome
       case Succeeds => RestAfter(p, k, None)
       case Fails(code) =>
         Handled(turn, Some(Own(code)))
         + if HandlerPanics(turn, Some(Own(code))) then [] else RestAfter(p, k, Some(Own(code)))
       case Panics => Panicked(turn))
    case Handling(code) =>
      Handled(turn, Some(Own(code)))
      + if HandlerPanics(turn, Some(Own(code))) then [] else RestAfter(p, k, Some(Own(code)))
    case Calling(err) => RestAfter(p, k, err)
    case HandlingResult(res) => Handled(turn, res)
    case Recovering => Panicked(turn)
    case Done => []
  }

  predicate Early(pc: Pc) {
    pc.Commanding? || pc.Handling? || pc.Calling?
  }

  /** The program counter agrees with what the job does. */
  predicate Sensible(p: Plan, k: nat, pc: Pc) {
    var turn := TurnAt(p.turns, k);
    match pc
    case Handling(code) => turn.outcome == Fails(code) && turn.handler.Some?
    case Calling(err) =>
      k + 1 < |p.names|
      && (if err.None? then turn.outcome == Succeeds
          else err.value.Own? && turn.outcome == Fails(err.value.code) && !HandlerPanics(turn, err))
    case HandlingResult(_) => turn.handler.Some?
    case _ => true
  }

  ghost predicate Fits(p: Plan, k: nat, g: Goroutine) {
    && k < |p.names| && g.name == p.names[k]
    && g.turn == TurnAt(p.turns, k) && g.turn.found
    && g.callback == ChainFrom(k + 1, |p.names|)
    && Sensible(p, k, g.pc)
    && g.calls + Rest(p, k, g.pc) == Rest(p, k, Commanding)
  }

  ghost predicate AllFit(p: Plan, st: State) {
    forall k | 0 <= k < |st.goroutines| :: Fits(p, k, st.goroutines[k])
  }

  ghost predicate Chained(p: Plan, st: State) {
    var n := |st.goroutines|;
    && AllFit(p, st)
    && (forall k | 0 <= k < n - 1 :: !Early(st.goroutines[k].pc) && Proceeds(p, k))
    && (n > 0 && Early(st.goroutines[n - 1].pc) ==> st.lookups == n)
    && (n > 0 && !Early(st.goroutines[n - 1].pc) ==> !Proceeds(p, n - 1))
    && (n == 0 ==> p.names == [] || !TurnAt(p.turns, 0).found)
    && n <= |p.names| && st.ran == p.names[..Commanded(st)]
  }

  /** How many jobs had their Command called: all that were launched, but for the last if it is yet to start. */
  function Commanded(st: State): nat {
    var n := |st.goroutines|;
    if n > 0 && st.goroutines[n - 1].pc.Commanding? then n - 1 else n
  }

  lemma BeginChained(p: Plan)
    ensures Chained(p, Begin(p).0)
  {}

  /** A goroutine's step, seen from its handler calls: those made and those still due stay the same. */
  lemma StepFits(p: Plan, st: State, t: nat)
    requires Enabled(st, t) && Fits(p, t, st.goroutines[t])
    requires st.goroutines[t].pc.Calling? ==> st.lookups == t + 1
    ensures t < |Step(p, st, t).goroutines| && Fits(p, t, Step(p, st, t).goroutines[t])
  {
    var g, next := st.goroutines[t], Step(p, st, t).goroutines[t];
    match g.pc {
      case Commanding =>
      case Handling(code) =>
        var err := Some(Own(code));
        if HandlerPanics(g.turn, err) {
          Associates(g.calls, [ErrorCall(err)], Panicked(g.turn));
        } else {
          Associates(g.calls, [ErrorCall(err)], RestAfter(p, t, err));
        }
      case Calling(err) =>
      case HandlingResult(res) =>
        Associates(g.calls, [ErrorCall(res)], Panicked(g.turn));
      case Recovering =>
    }
  }

  /** The goroutines beside the one that moves: unchanged, but for one more when a callback launches it. */
  lemma StepOthers(p: Plan, st: State, t: nat)
    requires Enabled(st, t) && Chained(p, st)
    ensures var next := Step(p, st, t);
            var n := |st.goroutines|;
            && n <= |next.goroutines| <= n + 1
            && (forall k | 0 <= k < n && k != t :: next.goroutines[k] == st.goroutines[k])
            && (|next.goroutines| == n + 1 <==> st.goroutines[t].pc.Calling? && Proceeds(p, t))
            && (|next.goroutines| == n + 1 ==> t == n - 1 && next.lookups == n + 1)
            && (|next.goroutines| == n + 1 ==> Fits(p, n, next.goroutines[n]) && next.goroutines[n].pc.Commanding?)
            && (!st.goroutines[t].pc.Calling? || t < n - 1 ==> next.lookups == st.lookups)
  {
    hide Rest;
    var g := st.goroutines[t];
    assert Fits(p, t, g);
    assert g.pc.Calling? ==> t == |st.goroutines| - 1;
  }

  lemma StepAllFit(p: Plan, st: State, t: nat)
    requires Enabled(st, t) && Chained(p, st)
    ensures AllFit(p, Step(p, st, t))
  {
    hide Step, Fits, Proceeds, ChainFrom;
    var next, n := Step(p, st, t), |st.goroutines|;
    StepOthers(p, st, t);
    assert Fits(p, t, st.goroutines[t]);
    StepFits(p, st, t);
    forall k | 0 <= k < |next.goroutines| ensures Fits(p, k, next.goroutines[k]) {
      assert k < n && k != t ==> Fits(p, k, st.goroutines[k]);
    }
  }

  lemma StepChained(p: Plan, st: State, t: nat)
    requires Enabled(st, t) && Chained(p, st)
    ensures Chained(p, Step(p, st, t))
  {
    hide Step, Fits, Proceeds, ChainFrom, Rest;
    assert Fits(p, t, st.goroutines[t]);
    StepAllFit(p, st, t);
    StepOthers(p, st, t);
    StepPc(p, st, t);
    assert st.goroutines[t].pc.Commanding? || st.goroutines[t].pc.Calling? ==> Early(st.goroutines[t].pc);
    hide Step, Fits, AllFit, Enabled, Proceeds, Chained, Early, ChainFrom, Rest;
    if |Step(p, st, t).goroutines| == |st.goroutines| {
      ChainedAsBefore(p, st, t, Step(p, st, t));
    } else {
      ChainedLonger(p, st, Step(p, st, t));
    }
  }

  lemma ChainedAsBefore(p: Plan, st: State, t: nat, next: State)
    requires t < |st.goroutines| == |next.goroutines| && Chained(p, st)
    requires forall k | 0 <= k < |st.goroutines| && k != t :: next.goroutines[k] == st.goroutines[k]
    requires AllFit(p, next)
    requires var pc, before := next.goroutines[t].pc, st.goroutines[t].pc;
             && !pc.Commanding? && (Early(pc) ==> Early(before) && next.lookups == st.lookups)
             && (Early(before) && !Early(pc) ==> !Proceeds(p, t))
             && (before.Commanding? ==> Early(before))
             && next.ran == if before.Commanding? then st.ran + [p.names[t]] else st.ran
    requires t < |st.goroutines| - 1 ==> next.lookups == st.lookups
    ensures Chained(p, next)
  {
    hide Fits, Proceeds, Early;
    var n := |st.goroutines|;
    if t == n - 1 {
      if st.goroutines[t].pc.Commanding? {
        assert p.names[..n - 1] + [p.names[n - 1]] == p.names[..n];
      }
    } else {
      assert next.goroutines[n - 1] == st.goroutines[n - 1];
      assert !Early(st.goroutines[t].pc);
    }
  }

  lemma FitsBounds(p: Plan, k: nat, g: Goroutine)
    requires Fits(p, k, g)
    ensures k < |p.names| && TurnAt(p.turns, k).found
  {
    hide Rest, ChainFrom, Sensible;
  }

  lemma ChainedLonger(p: Plan, st: State, next: State)
    requires Chained(p, st) && |next.goroutines| == |st.goroutines| + 1 && st.goroutines != []
    requires var n := |st.goroutines|;
             && (forall k | 0 <= k < n - 1 :: next.goroutines[k] == st.goroutines[k])
             && st.goroutines[n - 1].pc.Calling? && Proceeds(p, n - 1) && !Early(next.goroutines[n - 1].pc)
             && next.goroutines[n].pc.Commanding? && next.lookups == n + 1 && next.ran == st.ran
    requires AllFit(p, next)
    ensures Chained(p, next)
  {
    hide Fits, Proceeds;
    FitsBounds(p, |st.goroutines|, next.goroutines[|st.goroutines|]);
  }

  /** When a goroutine is past its callback, and that `ran` grows with each Command. */
  lemma StepPc(p: Plan, st: State, t: nat)
    requires Enabled(st, t) && Fits(p, t, st.goroutines[t])
    ensures t < |Step(p, st, t).goroutines|
    ensures var g, next := st.goroutines[t], Step(p, st, t);
            var pc := next.goroutines[t].pc;
            && !pc.Commanding?
            && (Early(pc) ==> Early(g.pc) && !g.pc.Calling?)
            && (Early(g.pc) && !g.pc.Calling? && !Early(pc) ==> !Proceeds(p, t))
            && next.ran == if g.pc.Commanding? then st.ran + [p.names[t]] else st.ran
  {
    hide Rest;
  }

  lemma {:induction false} RunChained(p: Plan, st: State, schedule: seq<nat>)
    requires Chained(p, st) && Exec(p, st, schedule).Some?
    ensures Chained(p, Exec(p, st, schedule).value)
    decreases |schedule|
  {
    hide Step, Enabled, Chained;
    if schedule != [] {
      StepChained(p, st, schedule[0]);
      RunChained(p, Step(p, st, schedule[0]), schedule[1..]);
    }
  }

  /** The interpreter from i on, given how far it gets. */
  lemma {:induction false} ForwardReaches(p: Plan, i: nat, end: nat)
    requires i < end <= |p.names| && TurnAt(p.turns, i).found
    requires forall k | i <= k < end - 1 :: Proceeds(p, k)
    ensures |Forward(p, i)| >= end - i
    ensures forall k | i <= k < end :: Forward(p, i)[k - i] == Ran(p.names[k], Rest(p, k, Commanding))
    ensures !Proceeds(p, end - 1) ==> |Forward(p, i)| == end - i
    decreases |p.names| - i
  {
    hide Rest, Forward, Proceeds, TurnAt;
    ForwardOne(p, i);
    if i + 1 < end {
      ProceedsFinds(p, i);
      ForwardReaches(p, i + 1, end);
      var rest := Forward(p, i + 1);
      forall k | i <= k < end ensures Forward(p, i)[k - i] == Ran(p.names[k], Rest(p, k, Commanding)) {
        assert k > i ==> Forward(p, i)[k - i] == rest[k - (i + 1)];
      }
    }
  }

  lemma ProceedsFinds(p: Plan, i: nat)
    requires Proceeds(p, i)
    ensures i + 1 < |p.names| && TurnAt(p.turns, i + 1).found && Continues(p, i)
  {}

  /** One turn of the interpreter. */
  lemma ForwardOne(p: Plan, i: nat)
    requires i < |p.names| && TurnAt(p.turns, i).found
    ensures var later := if Proceeds(p, i) then Forward(p, i + 1) else [];
            Forward(p, i) == [Ran(p.names[i], Rest(p, i, Commanding))] + later
  {
    assert i + 1 < |p.names| && !TurnAt(p.turns, i + 1).found ==> Forward(p, i + 1) == [];
    var handled := if TurnAt(p.turns, i).outcome.Fails?
      then Handled(TurnAt(p.turns, i), Some(Own(TurnAt(p.turns, i).outcome.code))) else [];
    assert handled + [] == handled;
  }

  predicate Finished(st: State) {
    forall g | g in st.goroutines :: g.pc == Done
  }

  function Names(rans: seq<Ran>): seq<Name> {
    seq(|rans|, k requires 0 <= k < |rans| => rans[k].name)
  }

  function Outcomes(gs: seq<Goroutine>): seq<Ran> {
    seq(|gs|, k requires 0 <= k < |gs| => Ran(gs[k].name, gs[k].calls))
  }

  /**
   Under every interleaving of the goroutines the chain is the interpreter: at any moment the jobs that
   ran are a prefix of the interpreter's, and once all goroutines have ended they are the interpreter's
   jobs, each run once and in order, with the interpreter's calls of ErrorHandler and PanicHandler.
   */
  lemma ChainRunsForward(p: Plan, schedule: seq<nat>)
    requires Exec(p, Begin(p).0, schedule).Some?
    ensures var st := Exec(p, Begin(p).0, schedule).value;
            && st.ran <= Names(Forward(p, 0))
            && (Finished(st) ==> st.ran == Names(Forward(p, 0)) && Outcomes(st.goroutines) == Forward(p, 0))
  {
    BeginChained(p);
    RunChained(p, Begin(p).0, schedule);
    ChainedIsForward(p, Exec(p, Begin(p).0, schedule).value);
  }

  lemma ChainedIsForward(p: Plan, st: State)
    requires Chained(p, st)
    ensures st.ran <= Names(Forward(p, 0))
    ensures Finished(st) ==> st.ran == Names(Forward(p, 0)) && Outcomes(st.goroutines) == Forward(p, 0)
  {
    hide Rest, Proceeds, ChainFrom, Forward, Fits, Early, TurnAt;
    var n := |st.goroutines|;
    if n > 0 {
      FitsBounds(p, 0, st.goroutines[0]);
      ForwardReaches(p, 0, n);
      if Finished(st) {
        assert st.goroutines[n - 1].pc == Done;
        FinishedIsLate(st.goroutines[n - 1].pc);
        AllDone(p, st);
      }
    } else {
      NothingForward(p, 0);
    }
  }

  lemma FinishedIsLate(pc: Pc)
    requires pc == Done
    ensures !Early(pc)
  {}

  lemma NothingForward(p: Plan, i: nat)
    requires i >= |p.names| || !TurnAt(p.turns, i).found
    ensures Forward(p, i) == []
  {}

  lemma AllDone(p: Plan, st: State)
    requires AllFit(p, st) && Finished(st)
    requires |Forward(p, 0)| == |st.goroutines|
    requires forall k | 0 <= k < |st.goroutines| ::
               k < |p.names| && Forward(p, 0)[k] == Ran(p.names[k], Rest(p, k, Commanding))
    ensures Outcomes(st.goroutines) == Forward(p, 0)
  {
    hide Rest, Forward, Fits;
    forall k | 0 <= k < |st.goroutines| ensures Outcomes(st.goroutines)[k] == Forward(p, 0)[k] {
      DoneHasAllCalls(p, k, st.goroutines[k]);
    }
  }

  lemma DoneHasAllCalls(p: Plan, k: nat, g: Goroutine)
    requires Fits(p, k, g) && g.pc == Done
    ensures g.name == p.names[k] && g.calls == Rest(p, k, Commanding)
  {
    assert g.calls + [] == g.calls;
  }

  /** How many jobs run: the longest prefix that no panic, unregistered name or stopping error ends earlier. */
  lemma RunsLongestPrefix(p: Plan)
    ensures var n := |Forward(p, 0)|;
            && n <= |p.names| && Names(Forward(p, 0)) == p.names[..n]
            && (forall k | 0 <= k < n :: TurnAt(p.turns, k).found)
            && (forall k | 0 <= k < n - 1 :: Continues(p, k))
            && (n < |p.names| ==> !TurnAt(p.turns, n).found || (n > 0 && !Continues(p, n - 1)))
  {
    LongestPrefixFrom(p, 0);
  }

  lemma {:induction false} LongestPrefixFrom(p: Plan, i: nat)
    requires i <= |p.names|
    ensures var rans := Forward(p, i);
            var end := i + |rans|;
            && end <= |p.names| && Names(rans) == p.names[i..end]
            && (forall k | i <= k < end :: TurnAt(p.turns, k).found)
            && (forall k | i <= k < end - 1 :: Continues(p, k))
            && (end < |p.names| ==> !TurnAt(p.turns, end).found || (end > i && !Continues(p, end - 1)))
    decreases |p.names| - i
  {
    hide Rest, Forward, Continues, TurnAt;
    if i < |p.names| && TurnAt(p.turns, i).found {
      ForwardOne(p, i);
      if Proceeds(p, i) {
        LongestPrefixFrom(p, i + 1);
        var rans, rest := Forward(p, i), Forward(p, i + 1);
        assert Names(rans) == [p.names[i]] + Names(rest);
        assert p.names[i..i + |rans|] == [p.names[i]] + p.names[i + 1..i + |rans|];
        ProceedsFinds(p, i);
      }
    } else {
      NothingForward(p, i);
    }
  }

  // What the jobs that run make of it, in terms of what they are

  /** Whether a job hands over to the next one, by its own outcome and its handler. */
  predicate HandsOver(turn: Turn, stopOnError: bool) {
    turn.outcome.Succeeds?
    || (turn.outcome.Fails? && !stopOnError && !(turn.handler.Some? && turn.handler.value.panicsOnError))
  }

  lemma RanAt(p: Plan, k: nat)
    requires k < |Forward(p, 0)|
    ensures k < |p.names| && FoundAt(p, k) && TurnAt(p.turns, k) == p.turns[k]
    ensures Forward(p, 0)[k] == Ran(p.names[k], Rest(p, k, Commanding))
    ensures k + 1 < |Forward(p, 0)| <==> Proceeds(p, k)
  {
    hide Forward, Rest, Continues, TurnAt;
    RunsLongestPrefix(p);
    ForwardReaches(p, 0, |Forward(p, 0)|);
    FoundIsRegistered(p, k);
  }

  lemma FoundIsRegistered(p: Plan, k: nat)
    ensures TurnAt(p.turns, k).found <==> FoundAt(p, k)
    ensures FoundAt(p, k) ==> TurnAt(p.turns, k) == p.turns[k]
  {}

  /** The first job runs iff it is registered; the job after one that runs does iff that one hands over and it is. */
  lemma NextRunsIff(p: Plan, k: nat)
    requires k < |Forward(p, 0)|
    ensures FoundAt(p, k) && k < |p.names| && Forward(p, 0)[k].name == p.names[k]
    ensures k + 1 < |Forward(p, 0)|
       <==> k + 1 < |p.names| && FoundAt(p, k + 1) && HandsOver(p.turns[k], p.stopOnError)
  {
    RanAt(p, k);
    FoundIsRegistered(p, k + 1);
    hide Forward, Rest;
  }

  lemma FirstRunsIff(p: Plan)
    ensures Forward(p, 0) != [] <==> p.names != [] && FoundAt(p, 0)
  {
    FoundIsRegistered(p, 0);
  }

  /** An ErrorHandler is called with nil too: for every job but the last one that runs. */
  lemma HandlerGetsNilIff(p: Plan, k: nat)
    requires k < |Forward(p, 0)|
    ensures FoundAt(p, k)
    ensures ErrorCall(None) in Forward(p, 0)[k].calls <==> p.turns[k].handler.Some? && k + 1 < |Forward(p, 0)|
  {
    RanAt(p, k);
    hide Forward, Rest, Proceeds;
    NilDue(p, k);
  }

  /** With its own error exactly once, or twice if that error stops a chain that would go on. */
  lemma HandlerGetsOwnError(p: Plan, k: nat)
    requires k < |Forward(p, 0)|
    ensures FoundAt(p, k)
    ensures var turn, calls := p.turns[k], Forward(p, 0)[k].calls;
            && (forall code | ErrorCall(Some(Own(code))) in calls :: turn.handler.Some? && turn.outcome == Fails(code))
            && (turn.handler.Some? && turn.outcome.Fails? ==>
                  var own := ErrorCall(Some(Own(turn.outcome.code)));
                  && calls != [] && calls[0] == own
                  && multiset(calls)[own] ==
                     if k + 1 < |p.names| && p.stopOnError && !turn.handler.value.panicsOnError then 2 else 1)
  {
    RanAt(p, k);
    hide Forward, Proceeds;
    OwnErrorDue(p, k);
  }

  lemma OwnErrorDue(p: Plan, k: nat)
    ensures var turn, calls := TurnAt(p.turns, k), Rest(p, k, Commanding);
            && (forall code | ErrorCall(Some(Own(code))) in calls :: turn.handler.Some? && turn.outcome == Fails(code))
            && (turn.handler.Some? && turn.outcome.Fails? ==>
                  var own := ErrorCall(Some(Own(turn.outcome.code)));
                  && calls != [] && calls[0] == own
                  && multiset(calls)[own] ==
                     if k + 1 < |p.names| && p.stopOnError && !turn.handler.value.panicsOnError then 2 else 1)
  {}

  /** With the error of a name that is not registered iff the job hands over to it. */
  lemma HandlerGetsNotFoundIff(p: Plan, k: nat, name: Name)
    requires k < |Forward(p, 0)|
    ensures FoundAt(p, k)
    ensures ErrorCall(Some(NotFound(name))) in Forward(p, 0)[k].calls
       <==> p.turns[k].handler.Some? && HandsOver(p.turns[k], p.stopOnError)
            && k + 1 < |p.names| && !FoundAt(p, k + 1) && name == p.names[k + 1]
  {
    RanAt(p, k);
    hide Forward, Proceeds;
    FoundIsRegistered(p, k + 1);
  }

  /**
   The PanicHandler, where there is one, is called iff the Command panics or the ErrorHandler does on
   something it is called with; that is the last call, and the only one of its kind.
   */
  lemma PanicHandlerCalledIff(p: Plan, k: nat)
    requires k < |Forward(p, 0)|
    ensures FoundAt(p, k)
    ensures var turn, calls := p.turns[k], Forward(p, 0)[k].calls;
            && (PanicCall in calls <==> turn.hasPanicHandler && (turn.outcome.Panics? || HandlerFails(turn, calls)))
            && forall i | 0 <= i < |calls| - 1 :: calls[i] != PanicCall
  {
    RanAt(p, k);
    hide Forward, Proceeds;
    PanicDue(p, k);
  }

  /** Whether the ErrorHandler panics on one of its calls. */
  predicate HandlerFails(turn: Turn, calls: seq<Call>) {
    turn.handler.Some? && exists call | call in calls ::
      call.ErrorCall? && if call.err.Some? then turn.handler.value.panicsOnError else turn.handler.value.panicsOnNil
  }

  lemma PanicDue(p: Plan, k: nat)
    ensures var turn, calls := TurnAt(p.turns, k), Rest(p, k, Commanding);
            && (PanicCall in calls <==> turn.hasPanicHandler && (turn.outcome.Panics? || HandlerFails(turn, calls)))
            && forall i | 0 <= i < |calls| - 1 :: calls[i] != PanicCall
  {}

  lemma NilDue(p: Plan, k: nat)
    ensures ErrorCall(None) in Rest(p, k, Commanding) <==> TurnAt(p.turns, k).handler.Some? && Proceeds(p, k)
  {}

  // Every run ends

  /** While a goroutine has not ended it can go on: nothing blocks. */
  lemma UnfinishedGoesOn(st: State)
    requires !Finished(st)
    ensures exists t :: Enabled(st, t)
  {
    var g :| g in st.goroutines && g.pc != Done;
    var t :| 0 <= t < |st.goroutines| && st.goroutines[t] == g;
    assert Enabled(st, t);
  }

  function Weight(pc: Pc): nat {
    match pc
    case Commanding => 5
    case Handling(_) => 4
    case Calling(_) => 3
    case HandlingResult(_) => 2
    case Recovering => 1
    case Done => 0
  }

  function Weights(gs: seq<Goroutine>): nat {
    if gs == [] then 0 else Weights(gs[..|gs| - 1]) + Weight(gs[|gs| - 1].pc)
  }

  lemma {:induction false} WeightsUpdate(gs: seq<Goroutine>, t: nat, g: Goroutine)
    requires t < |gs|
    ensures Weights(gs[t := g]) == Weights(gs) - Weight(gs[t].pc) + Weight(g.pc)
  {
    hide Weight;
    var n := |gs| - 1;
    if t < n {
      WeightsUpdate(gs[..n], t, g);
      assert gs[t := g][..n] == gs[..n][t := g];
    } else {
      assert gs[t := g][..n] == gs[..n];
    }
  }

  function Measure(p: Plan, st: State): int {
    Weights(st.goroutines) + 5 * (|p.names| - |st.goroutines|)
  }

  lemma StepGoroutines(p: Plan, st: State, t: nat)
    requires Enabled(st, t)
    ensures var gs, next := st.goroutines, Step(p, st, t).goroutines;
            && t < |next| && Weight(next[t].pc) < Weight(gs[t].pc)
            && (next == gs[t := next[t]]
                || (|next| == |gs| + 1 && Weight(next[|gs|].pc) == 5 && next == (gs + [next[|gs|]])[t := next[t]]))
  {}

  lemma StepLightens(p: Plan, st: State, t: nat)
    requires Enabled(st, t)
    ensures Measure(p, Step(p, st, t)) < Measure(p, st)
  {
    StepGoroutines(p, st, t);
    hide Weight, Step, Weights;
    var gs, next := st.goroutines, Step(p, st, t).goroutines;
    if next == gs[t := next[t]] {
      WeightsUpdate(gs, t, next[t]);
    } else {
      WeightsUpdate(gs + [next[|gs|]], t, next[t]);
      WeightsAppend(gs, next[|gs|]);
    }
  }

  lemma WeightsAppend(gs: seq<Goroutine>, h: Goroutine)
    ensures Weights(gs + [h]) == Weights(gs) + Weight(h.pc)
  {
    assert (gs + [h])[..|gs|] == gs;
  }

  lemma {:induction false} RunLightens(p: Plan, st: State, schedule: seq<nat>)
    requires Exec(p, st, schedule).Some?
    ensures Measure(p, Exec(p, st, schedule).value) + |schedule| <= Measure(p, st)
    decreases |schedule|
  {
    hide Step, Enabled, Measure;
    if schedule != [] {
      StepLightens(p, st, schedule[0]);
      RunLightens(p, Step(p, st, schedule[0]), schedule[1..]);
    }
  }

  /** No interleaving goes on forever: a run of n names takes at most 5 n steps. */
  lemma EveryRunEnds(p: Plan, schedule: seq<nat>)
    requires Exec(p, Begin(p).0, schedule).Some?
    ensures |schedule| <= 5 * |p.names|
  {
    BeginChained(p);
    RunChained(p, Begin(p).0, schedule);
    RunLightens(p, Begin(p).0, schedule);
    hide Exec;
    assert Weights([]) == 0;
    if Begin(p).0.goroutines != [] {
      WeightsAppend([], Begin(p).0.goroutines[0]);
      assert [] + [Begin(p).0.goroutines[0]] == Begin(p).0.goroutines;
    }
  }
}
