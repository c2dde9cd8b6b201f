/** What holds over every run of the snapshot protocol. */
module ProtocolTheorems {
  import opened Wrappers
  import opened Rosters
  import opened Protocol
  import opened ProtocolInvariants
  import opened ProtocolFreshness
  import opened ProtocolChanges

  ghost predicate Inv(cfg: Config, start: Snapshot, s: State) {
    && LockInv(s) && StampInv(s) && AgreeInv(s) && BuiltInv(cfg, s)
    && ProofInv(s) && FileInv(s) && ChainInv(start, s) && AnswerInv(s)
  }

  lemma InitHolds(cfg: Config, s: State)
    requires Init(cfg, s)
    ensures Inv(cfg, s.snap, s)
  {
  }

  lemma InvStep(cfg: Config, start: Snapshot, s: State, step: Step, s': State)
    requires Inv(cfg, start, s) && Next(cfg, s, step) == Some(s')
    ensures Inv(cfg, start, s')
  {
    LockStep(cfg, s, step, s');
    StampStep(cfg, s, step, s');
    AgreeStep(cfg, s, step, s');
    BuiltStep(cfg, s, step, s');
    ProofStep(cfg, s, step, s');
    FileStep(cfg, start, s, step, s');
    AnswerStep(cfg, s, step, s');
  }

  lemma {:induction false} InvRun(cfg: Config, start: Snapshot, s: State, steps: seq<Step>, s': State)
    requires Inv(cfg, start, s) && Run(cfg, s, steps) == Some(s')
    ensures Inv(cfg, start, s')
    decreases |steps|
  {
    if steps != [] {
      var next := Next(cfg, s, steps[0]).value;
      InvStep(cfg, start, s, steps[0], next);
      InvRun(cfg, start, next, steps[1..], s');
    }
  }

  // ----- no resurrection -----

  /** Whenever swapMu is free, the file's people in the served snapshot are exactly
      those of local.p: the same names, and the same objects. */
  lemma ServedPeopleAreTheFiles(cfg: Config, s: State, steps: seq<Step>, s': State)
    requires Init(cfg, s) && Run(cfg, s, steps) == Some(s') && s'.swapMu == None
    ensures s'.snap.people.local == s'.local.people.Keys
    ensures forall n :: n in s'.local.people ==>
              n in s'.snap.people.byName && s'.snap.people.byName[n] == s'.local.people[n]
  {
    InitHolds(cfg, s);
    InvRun(cfg, s.snap, s, steps, s');
  }

  /** The file's people of a later snapshot: those of a later reading, or the same. */
  ghost predicate NotBefore(a: Snapshot, b: Snapshot) {
    a.origin.reading < b.origin.reading ||
    (a.origin.reading == b.origin.reading && a.people.local == b.people.local &&
     forall n ::
       n in a.people.local && n in a.people.byName && n in b.people.byName ==> a.people.byName[n] == b.people.byName[n])
  }

  lemma SwapperGoesUp(cfg: Config, s: State, t: Tid, r: Request, at: Swapping, c: Choice, s': State)
    requires AgreeInv(s) && Steps(cfg, s, t, Swapper(r, at), c, s')
    ensures NotBefore(s.snap, s'.snap)
  {
    assert AgreeOK(s, s.threads[t]);
  }

  lemma LockedKeepsSnap(cfg: Config, s: State, t: Tid, r: Request, at: Holding, c: Choice, s': State)
    requires Steps(cfg, s, t, Locked(r, at), c, s')
    ensures s'.snap == s.snap
  {
  }

  lemma ReadingsGoUp(cfg: Config, start: Snapshot, s: State, step: Step, s': State)
    requires Inv(cfg, start, s) && Next(cfg, s, step) == Some(s')
    ensures NotBefore(s.snap, s'.snap)
  {
    if step.Go? {
      var t, c, pc := step.t, step.c, s.threads[step.t];
      match pc {
        case Writer(r, at) => WriterIsQuiet(cfg, s, t, r, at, c, s');
        case Locked(r, at) => LockedKeepsSnap(cfg, s, t, r, at, c, s');
        case Swapper(r, at) => SwapperGoesUp(cfg, s, t, r, at, c, s');
        case Refreshing(left, at) => RefreshingIsQuiet(cfg, s, t, left, at, c, s');
        case Installer(left, at) =>
          InstallerMoves(cfg, s, t, left, at, c, s');
          assert AgreeOK(s, s.threads[t]) && InSwap(s.threads[t]) && Agrees(s.snap, s.local);
        case _ => ReaderIsQuiet(cfg, s, t, pc, c, s');
      }
    }
  }

  lemma {:induction false} ReadingsGoUpInRuns(cfg: Config, start: Snapshot, s: State, steps: seq<Step>, s': State)
    requires Inv(cfg, start, s) && Run(cfg, s, steps) == Some(s')
    ensures NotBefore(s.snap, s'.snap)
    decreases |steps|
  {
    if steps != [] {
      var next := Next(cfg, s, steps[0]).value;
      InvStep(cfg, start, s, steps[0], next);
      ReadingsGoUp(cfg, start, s, steps[0], next);
      ReadingsGoUpInRuns(cfg, start, next, steps[1..], s');
      InvRun(cfg, start, next, steps[1..], s');
    }
  }

  ghost predicate Serves(sn: Snapshot, id: Identity) {
    id.name in sn.people.byName && sn.people.byName[id.name] == id
  }

  /** An object of the file that was served and is not any more is never served again,
      whatever refresh had already read it. */
  lemma NoResurrection(cfg: Config, s0: State, a: seq<Step>, s1: State, b: seq<Step>, s2: State, c: seq<Step>,
                       s3: State, id: Identity)
    requires Init(cfg, s0) && Run(cfg, s0, a) == Some(s1) && Run(cfg, s1, b) == Some(s2) && Run(cfg, s2, c) == Some(s3)
    requires id.born.FromFile? && Serves(s1.snap, id) && !Serves(s2.snap, id)
    ensures !Serves(s3.snap, id)
  {
    InitHolds(cfg, s0);
    InvRun(cfg, s0.snap, s0, a, s1);
    InvRun(cfg, s0.snap, s1, b, s2);
    InvRun(cfg, s0.snap, s2, c, s3);
    ReadingsGoUpInRuns(cfg, s0.snap, s1, b, s2);
    ReadingsGoUpInRuns(cfg, s0.snap, s2, c, s3);
  }

  // ----- compare and set -----

  /** Every change made to somebody the file held found them served with the very
      password it sent as the old one. */
  lemma ChangesCompareAndSet(cfg: Config, s: State, steps: seq<Step>, s': State, i: nat)
    requires Init(cfg, s) && Run(cfg, s, steps) == Some(s') && i < |s'.log| && s'.log[i].wasLocal
    ensures s'.log[i].proof.Some? && s'.log[i].before == s'.log[i].proof
  {
    InitHolds(cfg, s);
    InvRun(cfg, s.snap, s, steps, s');
    assert ComparedAndSet(s'.log[i]);
  }

  predicate Untouched(log: seq<Change>, n: string, lo: int, hi: int) {
    forall k :: lo <= k < hi && 0 <= k < |log| ==> log[k].target != n
  }

  /** log[i] and log[j] are changes of n, with none of n between them. */
  predicate Consecutive(log: seq<Change>, n: string, i: int, j: int) {
    0 <= i < j < |log| && log[i].target == n && log[j].target == n && Untouched(log, n, i + 1, j)
  }

  predicate First(log: seq<Change>, n: string, i: int) {
    0 <= i < |log| && log[i].target == n && Untouched(log, n, 0, i)
  }

  predicate Last(log: seq<Change>, n: string, i: int) {
    0 <= i < |log| && log[i].target == n && Untouched(log, n, i + 1, |log|)
  }

  lemma {:induction false} ChainLinks(start: Snapshot, log: seq<Change>, n: string, i: nat, j: nat)
    requires Chained(start, log, n) && Consecutive(log, n, i, j)
    ensures log[j].proof == Some(log[i].password)
    decreases |log|
  {
    var front := log[..|log| - 1];
    if j == |log| - 1 {
      LastIs(front, n, i);
    } else {
      ChainLinks(start, front, n, i, j);
    }
  }

  lemma {:induction false} LastIs(log: seq<Change>, n: string, i: nat)
    requires Last(log, n, i)
    ensures LastNew(log, n) == Some(log[i].password)
    decreases |log|
  {
    if i < |log| - 1 {
      assert log[|log| - 1].target != n;
      LastIs(log[..|log| - 1], n, i);
    }
  }

  lemma {:induction false} FirstIs(start: Snapshot, log: seq<Change>, n: string, i: nat)
    requires Chained(start, log, n) && First(log, n, i)
    ensures SnapView(start, n) == Some(log[i].proof)
    decreases |log|
  {
    var front := log[..|log| - 1];
    if i == |log| - 1 {
      NoneChanged(front, n);
    } else {
      FirstIs(start, front, n, i);
    }
  }

  lemma {:induction false} NoneChanged(log: seq<Change>, n: string)
    requires Untouched(log, n, 0, |log|)
    ensures LastNew(log, n) == None
  {
    if log != [] {
      NoneChanged(log[..|log| - 1], n);
    }
  }

  lemma {:induction false} EachWasServed(start: Snapshot, log: seq<Change>, n: string, i: nat)
    requires Chained(start, log, n) && i < |log| && log[i].target == n
    ensures log[i].wasLocal && log[i].after == Some(log[i].password)
    decreases |log|
  {
    if i < |log| - 1 {
      EachWasServed(start, log[..|log| - 1], n, i);
    }
  }

  /** One person's changes form a chain from the password they started with to the one
      they are served with now: each sends as old what the one before it set, and each
      is served from its swap on. It holds for everybody whose block nobody else edited
      and none of whose own changes was written and not reloaded. */
  lemma ChangesChain(cfg: Config, s: State, steps: seq<Step>, s': State, n: string)
    requires Init(cfg, s) && Run(cfg, s, steps) == Some(s') && n !in s'.disturbed
    ensures forall i, j :: Consecutive(s'.log, n, i, j) ==> s'.log[j].proof == Some(s'.log[i].password)
    ensures forall i :: First(s'.log, n, i) ==> SnapView(s.snap, n) == Some(s'.log[i].proof)
    ensures forall i :: Last(s'.log, n, i) ==> SnapView(s'.snap, n) == Some(Some(s'.log[i].password))
    ensures Untouched(s'.log, n, 0, |s'.log|) ==> SnapView(s'.snap, n) == SnapView(s.snap, n)
    ensures forall i :: 0 <= i < |s'.log| && s'.log[i].target == n ==>
              s'.log[i].before == s'.log[i].proof && s'.log[i].after == Some(s'.log[i].password)
  {
    InitHolds(cfg, s);
    InvRun(cfg, s.snap, s, steps, s');
    var log := s'.log;
    forall i, j | Consecutive(log, n, i, j)
      ensures log[j].proof == Some(log[i].password)
    {
      ChainLinks(s.snap, log, n, i, j);
    }
    forall i | First(log, n, i)
      ensures SnapView(s.snap, n) == Some(log[i].proof)
    {
      FirstIs(s.snap, log, n, i);
    }
    forall i | Last(log, n, i)
      ensures LastNew(log, n) == Some(log[i].password)
    {
      LastIs(log, n, i);
    }
    if Untouched(log, n, 0, |log|) {
      NoneChanged(log, n);
    }
    forall i | 0 <= i < |log| && log[i].target == n
      ensures log[i].before == log[i].proof && log[i].after == Some(log[i].password)
    {
      EachWasServed(s.snap, log, n, i);
      assert ComparedAndSet(log[i]);
    }
  }

  /** The answer says what happened: Changed, and the swap was made once; the failed
      reload, and the file was written and nothing swapped; anything else, and the file
      was not written. */
  lemma AnswersAreTrue(cfg: Config, s: State, steps: seq<Step>, s': State, t: Tid)
    requires Init(cfg, s) && Run(cfg, s, steps) == Some(s') && t in s'.threads && s'.threads[t].Told?
    ensures t in s'.wrote <==> s'.threads[t].answer.Changed? || s'.threads[t].answer.ReloadFailed?
    ensures SwapsBy(s'.log, t) == if s'.threads[t].answer.Changed? then 1 else 0
  {
    InitHolds(cfg, s);
    InvRun(cfg, s.snap, s, steps, s');
    assert AnswerOK(s', t, s'.threads[t]);
  }

  // ----- freshness -----

  lemma {:induction false} BuiltNeverGoesBack(cfg: Config, start: Snapshot, s: State, steps: seq<Step>, s': State)
    requires Inv(cfg, start, s) && Run(cfg, s, steps) == Some(s')
    ensures s.snap.built <= s'.snap.built
    decreases |steps|
  {
    if steps != [] {
      var next := Next(cfg, s, steps[0]).value;
      InvStep(cfg, start, s, steps[0], next);
      BuiltStep(cfg, s, steps[0], next);
      BuiltNeverGoesBack(cfg, start, next, steps[1..], s');
    }
  }

  /** Only the store of a refresh that read every source moves `built`: a password
      write, a failed refresh and a reader leave it. */
  lemma OnlyARefreshMovesBuilt(cfg: Config, start: Snapshot, s: State, step: Step, s': State)
    requires Inv(cfg, start, s) && Next(cfg, s, step) == Some(s') && s'.snap.built != s.snap.built
    ensures step.Go? && step.t in s.threads && s.threads[step.t].Installer? && s.threads[step.t].installing.Store?
    ensures s'.snap == s.threads[step.t].installing.sn && s.snap.built < s'.snap.built <= s.clock
  {
    ThreadBuilt(cfg, s, step.t, s.threads[step.t], step.c, s');
    assert BuiltOK(cfg, s, s.threads[step.t]);
  }

  /** An operation answers from one snapshot, at least as fresh as the one that passed
      its age check, and so no older than max_age when it looked at the clock. */
  lemma AnswersAreFreshEnough(cfg: Config, s: State, steps: seq<Step>, s': State, t: Tid)
    requires Init(cfg, s) && Run(cfg, s, steps) == Some(s') && t in s'.threads && s'.threads[t].Answered?
    ensures s'.threads[t].aged.built <= s'.threads[t].served.built <= s'.snap.built
    ensures cfg.maxAge > 0 ==> s'.threads[t].now - s'.threads[t].served.built <= cfg.maxAge
  {
    InitHolds(cfg, s);
    InvRun(cfg, s.snap, s, steps, s');
    assert BuiltOK(cfg, s', s'.threads[t]);
  }

  // ----- incremental equals full -----

  /** The served roster is the merge of the file's people with the other sources as
      last read exactly when no name of another source has been in the file since that
      read and left it. */
  lemma IncrementalEqualsFull(cfg: Config, s: State, steps: seq<Step>, s': State)
    requires Init(cfg, s) && Run(cfg, s, steps) == Some(s') && s'.swapMu == None
    ensures s'.snap.people.byName == Merged(s'.local.people, s'.snap.origin.others) <==>
            s'.snap.origin.others.Keys * s'.snap.origin.everLocal <= s'.local.people.Keys
  {
    InitHolds(cfg, s);
    InvRun(cfg, s.snap, s, steps, s');
    var sn, full := s'.snap, Merged(s'.local.people, s'.snap.origin.others);
    if s'.snap.origin.others.Keys * sn.origin.everLocal <= s'.local.people.Keys {
      assert sn.people.byName.Keys == full.Keys;
      assert forall n :: n in full ==> sn.people.byName[n] == full[n];
    } else {
      var n :| n in s'.snap.origin.others && n in sn.origin.everLocal && n !in s'.local.people;
      assert n in full && n !in sn.people.byName;
    }
  }

  // ----- progress -----

  lemma LocksLeaveAWay(cfg: Config, s: State, t: Tid) returns (u: Tid, c: Choice)
    requires LockInv(s) && t in s.threads && !Finished(s.threads[t])
    ensures u in s.threads && !Finished(s.threads[u]) && Next(cfg, s, Go(u, c)).Some?
  {
    c := Choice(true, false, {}, 0);
    u := if s.swapMu.Some? then s.swapMu.value else if s.mu.Some? then s.mu.value else t;
    assert s.swapMu.Some? ==> InSwap(s.threads[u]);
    assert s.swapMu.None? && s.mu.Some? ==> InMu(s.threads[u]) && !InSwap(s.threads[u]);
  }

  /** The two locks are never a deadlock: in every run, while a thread is unfinished some
      thread can move. */
  lemma SomethingCanMove(cfg: Config, s: State, steps: seq<Step>, s': State, t: Tid) returns (u: Tid, c: Choice)
    requires Init(cfg, s) && Run(cfg, s, steps) == Some(s') && t in s'.threads && !Finished(s'.threads[t])
    ensures u in s'.threads && !Finished(s'.threads[u]) && Next(cfg, s', Go(u, c)).Some?
  {
    InitHolds(cfg, s);
    InvRun(cfg, s.snap, s, steps, s');
    u, c := LocksLeaveAWay(cfg, s', t);
  }
}
