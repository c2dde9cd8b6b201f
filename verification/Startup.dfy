/** startup (limits.go): work that talks to sources, bounded by a timer, and the source set
    closed exactly once when nobody is going to use it. The worker and the caller each
    move on their own; every run is a sequence of their steps. */
module Startup {
  import opened Wrappers

  /** The worker goroutine. gone is what it read of abandoned. */
  datatype Worker =
    | Idle
    | Working
    | Ended(err: bool)
    | Holding(err: bool)
    | Marked(err: bool, gone: bool)
    | Leaving(err: bool, gone: bool)
    | Sending(err: bool)
    | Exited(err: bool)

  datatype Outcome = Nil | WorkFailed | TimedOut

  /** The caller. late is what it read of finished. */
  datatype Caller =
    | Alone                    // no limit: the caller does the work itself
    | AloneEnded(failed: bool)
    | Waiting
    | Received(failed: bool)
    | GivingUp
    | Locked
    | Noted(late: bool)
    | Unlocked(late: bool)
    | Returned(result: Outcome)

  datatype Holder = Nobody | ByWorker | ByCaller

  datatype State = State(
    worker: Worker, caller: Caller, mu: Holder, finished: bool, abandoned: bool,
    done: Option<bool>, once: bool, calls: nat, closes: nat)

  datatype Step = WorkEnds(err: bool) | WorkerMoves | Receive | Fire | CallerMoves

  function Init(limited: bool): State {
    if limited then State(Working, Waiting, Nobody, false, false, None, false, 0, 0)
    else State(Idle, Alone, Nobody, false, false, None, false, 0, 0)
  }

  /** cleanup: through once. */
  function Cleanup(s: State): State {
    s.(calls := s.calls + 1, once := true, closes := if s.once then s.closes else s.closes + 1)
  }

  function Next(s: State, step: Step): Option<State> {
    match step
    case WorkEnds(err) =>
      if s.worker.Working? then Some(s.(worker := Ended(err)))
      else if s.caller.Alone? then Some(s.(caller := AloneEnded(err)))
      else None
    case WorkerMoves => WorkerStep(s)
    case Receive =>
      if s.caller.Waiting? && s.done.Some? then Some(s.(caller := Received(s.done.value), done := None)) else None
    case Fire => if s.caller.Waiting? then Some(s.(caller := GivingUp)) else None
    case CallerMoves => CallerStep(s)
  }

  function WorkerStep(s: State): Option<State> {
    match s.worker
    case Ended(err) => if s.mu.Nobody? then Some(s.(mu := ByWorker, worker := Holding(err))) else None
    case Holding(err) => Some(s.(finished := true, worker := Marked(err, s.abandoned)))
    case Marked(err, gone) => Some(s.(mu := Nobody, worker := Leaving(err, gone)))
    case Leaving(err, gone) => Some((if gone then Cleanup(s) else s).(worker := Sending(err)))
    case Sending(err) => if s.done.None? then Some(s.(done := Some(err), worker := Exited(err))) else None
    case _ => None
  }

  function CallerStep(s: State): Option<State> {
    match s.caller
    case AloneEnded(failed) =>
      Some((if failed then s.(calls := s.calls + 1, closes := s.closes + 1) else s)
             .(caller := Returned(if failed then WorkFailed else Nil)))
    case Received(failed) =>
      Some((if failed then Cleanup(s) else s).(caller := Returned(if failed then WorkFailed else Nil)))
    case GivingUp => if s.mu.Nobody? then Some(s.(mu := ByCaller, caller := Locked)) else None
    case Locked => Some(s.(abandoned := true, caller := Noted(s.finished)))
    case Noted(late) => Some(s.(mu := Nobody, caller := Unlocked(late)))
    case Unlocked(late) => Some((if late then Cleanup(s) else s).(caller := Returned(TimedOut)))
    case _ => None
  }

  function Run(s: State, steps: seq<Step>): Option<State> {
    if steps == [] then Some(s)
    else
      var before := Run(s, steps[..|steps| - 1]);
      if before.Some? then Next(before.value, steps[|steps| - 1]) else None
  }

  // ----- the invariant -----

  /** The worker has said that it ended. */
  predicate HasFinished(w: Worker) {
    w.Marked? || w.Leaving? || w.Sending? || w.Exited?
  }

  predicate HasAbandoned(c: Caller) {
    c.Noted? || c.Unlocked? || (c.Returned? && c.result.TimedOut?)
  }

  predicate Inv(s: State) {
    && s.calls == s.closes <= 1 && (s.once ==> s.closes == 1)
    && (s.worker.Idle? <==> s.caller.Alone? || s.caller.AloneEnded? || AloneReturned(s))
    && (s.mu.ByWorker? <==> s.worker.Holding? || s.worker.Marked?)
    && (s.mu.ByCaller? <==> s.caller.Locked? || s.caller.Noted?)
    && (s.finished <==> HasFinished(s.worker))
    && (s.abandoned <==> HasAbandoned(s.caller))
    && (s.done.Some? ==> s.worker.Exited? && s.done.value == s.worker.err)
    && (s.caller.Received? ==> s.worker.Exited? && s.worker.err == s.caller.failed)
    && (s.caller.Waiting? && s.worker.Exited? ==> s.done.Some?)
    && Told(s) && Closed(s)
  }

  predicate AloneReturned(s: State) {
    s.caller.Returned? && s.worker.Idle? && !s.caller.result.TimedOut?
  }

  /** What the caller is told of the work is what it did. */
  predicate Told(s: State) {
    s.caller.Returned? && !s.caller.result.TimedOut? && !s.worker.Idle? ==>
      s.worker.Exited? && (s.worker.err <==> s.caller.result.WorkFailed?)
  }

  /** Exactly one of the two closes: the worker when it reads abandoned, the caller when
      it reads finished or is told of an error. */
  predicate Closed(s: State) {
    match s.caller
    case Returned(Nil) => s.closes == 0 && GoneOf(s) == false
    case Returned(WorkFailed) => s.closes == 1 && GoneOf(s) == false
    case Returned(TimedOut) =>
      if s.worker.Marked? || s.worker.Leaving? then s.closes == if s.worker.gone then 0 else 1
      else if s.worker.Sending? || s.worker.Exited? then s.closes == 1
      else s.closes == 0
    case Noted(late) => GaveUp(s, late)
    case Unlocked(late) => GaveUp(s, late)
    case _ => s.closes == 0 && GoneOf(s) == false
  }

  predicate GoneOf(s: State) {
    (s.worker.Marked? || s.worker.Leaving?) && s.worker.gone
  }

  predicate GaveUp(s: State, late: bool) {
    if s.worker.Marked? || s.worker.Leaving? then s.closes == 0 && s.worker.gone == !late
    else if s.worker.Sending? || s.worker.Exited? then s.closes == if late then 0 else 1
    else s.closes == 0 && !late
  }

  lemma InitHolds(limited: bool)
    ensures Inv(Init(limited))
  {
  }

  lemma WorkerKeeps(s: State)
    requires Inv(s) && WorkerStep(s).Some?
    ensures Inv(WorkerStep(s).value)
  {
  }

  lemma CallerKeeps(s: State)
    requires Inv(s) && CallerStep(s).Some?
    ensures Inv(CallerStep(s).value)
  {
  }

  lemma InvStep(s: State, step: Step)
    requires Inv(s) && Next(s, step).Some?
    ensures Inv(Next(s, step).value)
  {
    match step
    case WorkerMoves => WorkerKeeps(s);
    case CallerMoves => CallerKeeps(s);
    case _ =>
  }

  lemma {:induction false} InvRun(limited: bool, steps: seq<Step>)
    requires Run(Init(limited), steps).Some?
    ensures Inv(Run(Init(limited), steps).value)
  {
    if steps == [] {
      InitHolds(limited);
    } else {
      InvRun(limited, steps[..|steps| - 1]);
      InvStep(Run(Init(limited), steps[..|steps| - 1]).value, steps[|steps| - 1]);
    }
  }

  // ----- over every run -----

  /** Nothing more will happen. */
  predicate Quiet(s: State) {
    s.caller.Returned? && (s.worker.Exited? || s.worker.Idle?)
  }

  /** In every run: the source set is closed at most once, and cleanup is called at most
      once even without once; never while the work is running; never when the caller is
      told nothing went wrong; and exactly once, after the work ended, when it is told
      that something did. */
  lemma ClosedExactlyOnce(limited: bool, steps: seq<Step>)
    requires Run(Init(limited), steps).Some?
    ensures var s := Run(Init(limited), steps).value;
            && s.calls == s.closes <= 1
            && (s.worker.Working? || s.caller.Alone? ==> s.closes == 0)
            && (s.caller == Returned(Nil) ==> s.closes == 0)
            && (s.caller == Returned(WorkFailed) ==> s.closes == 1)
            && (Quiet(s) && s.caller == Returned(TimedOut) ==> s.closes == 1)
  {
    InvRun(limited, steps);
  }

  /** The caller is told of the work what it did, unless it gave up on it. */
  lemma ToldTheTruth(limited: bool, steps: seq<Step>)
    requires limited && Run(Init(limited), steps).Some?
    ensures var s := Run(Init(limited), steps).value;
            s.caller.Returned? && s.caller.result != TimedOut ==>
              s.worker.Exited? && (s.worker.err <==> s.caller.result == WorkFailed)
  {
    InvRun(limited, steps);
    LimitedIsNeverIdle(steps);
  }

  /** The worker has begun, and the caller does not work itself. */
  predicate Limited(s: State) {
    !s.worker.Idle? && !s.caller.Alone?
  }

  lemma WorkerStaysLimited(s: State)
    requires Limited(s) && WorkerStep(s).Some?
    ensures Limited(WorkerStep(s).value)
  {
  }

  lemma CallerStaysLimited(s: State)
    requires Limited(s) && CallerStep(s).Some?
    ensures Limited(CallerStep(s).value)
  {
  }

  lemma StaysLimited(s: State, step: Step)
    requires Limited(s) && Next(s, step).Some?
    ensures Limited(Next(s, step).value)
  {
    match step
    case WorkerMoves => WorkerStaysLimited(s);
    case CallerMoves => CallerStaysLimited(s);
    case _ =>
  }

  lemma {:induction false} LimitedIsNeverIdle(steps: seq<Step>)
    requires Run(Init(true), steps).Some?
    ensures Limited(Run(Init(true), steps).value)
  {
    if steps != [] {
      LimitedIsNeverIdle(steps[..|steps| - 1]);
      StaysLimited(Run(Init(true), steps[..|steps| - 1]).value, steps[|steps| - 1]);
    }
  }

  /** Once the caller has returned, its answer stands; nil is never followed by a close. */
  lemma {:induction false} AnswerStands(s: State, more: seq<Step>)
    requires Inv(s) && s.caller.Returned? && Run(s, more).Some?
    ensures Inv(Run(s, more).value) && Run(s, more).value.caller == s.caller
    ensures s.caller == Returned(Nil) ==> Run(s, more).value.closes == 0
  {
    if more != [] {
      AnswerStands(s, more[..|more| - 1]);
      InvStep(Run(s, more[..|more| - 1]).value, more[|more| - 1]);
    }
  }

  // ----- every run comes to an end -----

  function WorkerLeft(w: Worker): nat {
    match w
    case Working => 6
    case Ended(_) => 5
    case Holding(_) => 4
    case Marked(_, _) => 3
    case Leaving(_, _) => 2
    case Sending(_) => 1
    case _ => 0
  }

  function CallerLeft(c: Caller): nat {
    match c
    case Waiting => 5
    case GivingUp => 4
    case Locked => 3
    case Noted(_) => 2
    case Unlocked(_) => 1
    case Received(_) => 1
    case Alone => 2
    case AloneEnded(_) => 1
    case Returned(_) => 0
  }

  function Left(s: State): nat {
    WorkerLeft(s.worker) + CallerLeft(s.caller)
  }

  lemma StepSpends(s: State, step: Step)
    requires Next(s, step).Some?
    ensures Left(Next(s, step).value) < Left(s)
  {
    match step
    case WorkerMoves => WorkerSpends(s);
    case CallerMoves => CallerSpends(s);
    case _ =>
  }

  lemma WorkerSpends(s: State)
    requires WorkerStep(s).Some?
    ensures Left(WorkerStep(s).value) < Left(s)
  {
  }

  lemma CallerSpends(s: State)
    requires CallerStep(s).Some?
    ensures Left(CallerStep(s).value) < Left(s)
  {
  }

  lemma {:induction false} RunSpends(s: State, steps: seq<Step>)
    requires Run(s, steps).Some?
    ensures Left(Run(s, steps).value) + |steps| <= Left(s)
  {
    if steps != [] {
      RunSpends(s, steps[..|steps| - 1]);
      StepSpends(Run(s, steps[..|steps| - 1]).value, steps[|steps| - 1]);
    }
  }

  /** Neither waits for the other for ever: while the work ends, somebody can move. */
  lemma SomebodyCanMove(s: State) returns (step: Step)
    requires Inv(s) && !Quiet(s)
    ensures Next(s, step).Some?
  {
    if WorkerStep(s).Some? {
      step := WorkerMoves;
    } else if CallerStep(s).Some? {
      step := CallerMoves;
    } else if s.caller.Waiting? {
      step := Fire;
    } else {
      step := WorkEnds(false);
    }
  }

  /** Work that ended in time is told of: the caller may receive what it did, and return it. */
  lemma InTimeIsTold(s: State)
    requires Inv(s) && s.caller.Waiting? && s.worker.Exited?
    ensures var end := Run(s, [Receive, CallerMoves]);
            end.Some? && end.value.caller == Returned(if s.worker.err then WorkFailed else Nil)
  {
    assert [Receive, CallerMoves][..1] == [Receive] && [Receive][..0] == [];
    assert Run(s, []) == Some(s) && Run(s, [Receive]) == Next(s, Receive);
  }

  /** ... and work that has not ended may be given up on, whatever it is doing but holding
      the lock. */
  lemma LateIsGivenUp(s: State)
    requires Inv(s) && s.caller.Waiting? && s.mu.Nobody?
    ensures var end := Run(s, [Fire, CallerMoves, CallerMoves, CallerMoves, CallerMoves]);
            end.Some? && end.value.caller == Returned(TimedOut) && end.value.abandoned
  {
    var s1 := s.(caller := GivingUp);
    var s2 := s1.(mu := ByCaller, caller := Locked);
    var s3 := s2.(abandoned := true, caller := Noted(s.finished));
    var s4 := s3.(mu := Nobody, caller := Unlocked(s.finished));
    RunOn(s, [], s, Fire);
    RunOn(s, [Fire], s1, CallerMoves);
    RunOn(s, [Fire, CallerMoves], s2, CallerMoves);
    GoesOn(s, s3, s4);
  }

  lemma GoesOn(s: State, s3: State, s4: State)
    requires Run(s, [Fire, CallerMoves, CallerMoves]) == Some(s3) && Next(s3, CallerMoves) == Some(s4)
    ensures Run(s, [Fire, CallerMoves, CallerMoves, CallerMoves, CallerMoves]) == Next(s4, CallerMoves)
  {
    var three := [Fire, CallerMoves, CallerMoves];
    RunOn(s, three, s3, CallerMoves);
    RunOn(s, three + [CallerMoves], s4, CallerMoves);
    assert [Fire, CallerMoves, CallerMoves, CallerMoves, CallerMoves] == three + [CallerMoves] + [CallerMoves];
  }

  /** A run goes on with one more step. */
  lemma RunOn(s: State, steps: seq<Step>, now: State, step: Step)
    requires Run(s, steps) == Some(now) || (steps == [] && now == s)
    ensures Run(s, steps + [step]) == Next(now, step)
  {
    assert (steps + [step])[..|steps|] == steps;
  }

  /** No run has more than eleven steps, and one that cannot go on is quiet; so, when the
      caller is told of an error, the source set is closed exactly once in the end. */
  lemma EveryRunEnds(limited: bool, steps: seq<Step>)
    requires Run(Init(limited), steps).Some?
    ensures |steps| <= 11
    ensures var s := Run(Init(limited), steps).value;
            (forall step :: Next(s, step).None?) ==> Quiet(s) && s.closes == if s.caller == Returned(Nil) then 0 else 1
  {
    var s := Run(Init(limited), steps).value;
    InvRun(limited, steps);
    RunSpends(Init(limited), steps);
    if !Quiet(s) {
      var step := SomebodyCanMove(s);
    } else {
      ClosedExactlyOnce(limited, steps);
    }
  }
}
