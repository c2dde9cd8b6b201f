/** Who gets as far as the file (server.go): what a request must be, and pass, before it
    writes; and what the others are told. */
module ProtocolAccess {
  import opened Wrappers
  import opened Rosters
  import opened Protocol
  import opened ProtocolInvariants
  import opened ProtocolChanges
  import opened ProtocolTheorems
  import Names

  // ----- what a request must be -----

  /** The request a thread serves. */
  function RequestOf(pc: PC): Option<Request> {
    match pc
    case Writer(r, _) => Some(r)
    case Locked(r, _) => Some(r)
    case Swapper(r, _) => Some(r)
    case Told(r, _) => Some(r)
    case _ => None
  }

  /** A person's own change, one the server understands, with the old password in it. */
  predicate Granted(r: Request) {
    r.standing.Theirs? && r.fit && r.proof.Some?
  }

  predicate AskingOK(r: Request, at: Asking) {
    match at
    case Own => true
    case Clock => r.extended || r.standing.Theirs?
    case Age(_) => r.extended || r.standing.Theirs?
    case Prove => r.standing.Theirs? && r.fit
    case Verify(_) => Granted(r)
    case Lock(_) => Granted(r)
  }

  /** What a request may be told, of itself alone. Only the extended operation looks at the
      age of the data before it looks at who is asking. */
  predicate MayBeTold(r: Request, a: Answer) {
    match r.standing
    case Anonymous => a == Refused(NoAccess) || (r.extended && a == Refused(Unavailable))
    case NoPerson => a == Refused(NoSuchObject) || (r.extended && a == Refused(Unavailable))
    case NotTheirs => a == Refused(NoAccess) || (r.extended && a == Refused(Unavailable))
    case Theirs =>
      || (Granted(r) && a != Refused(NoSuchObject))
      || a == Refused(NoAccess) || a == Refused(Unwilling) || a == Refused(Unavailable)
  }

  predicate AccessOK(pc: PC) {
    match pc
    case Writer(r, at) => AskingOK(r, at)
    case Locked(r, Unlock(a)) => Granted(r) && a != Refused(NoSuchObject)
    case Locked(r, _) => Granted(r)
    case Swapper(r, Leave(a)) => Granted(r) && a != Refused(NoSuchObject)
    case Swapper(r, _) => Granted(r)
    case Told(r, a) => MayBeTold(r, a)
    case _ => true
  }

  /** A logged change is what the request of its thread asked for. */
  predicate LogOK(s: State, e: Change) {
    && e.who in s.threads && RequestOf(s.threads[e.who]).Some?
    && var r := RequestOf(s.threads[e.who]).value;
       Granted(r) && e.target == r.target && e.proof == r.proof && e.password == r.password
  }

  ghost predicate AccessInv(s: State) {
    && (forall t :: t in s.threads ==> AccessOK(s.threads[t]))
    && (forall i :: 0 <= i < |s.log| ==> LogOK(s, s.log[i]))
  }

  /** A step of t moves t alone, and its request stays what it is. */
  ghost predicate AccessMove(s: State, t: Tid, s': State) {
    && t in s.threads && t in s'.threads && s'.threads == s.threads[t := s'.threads[t]]
    && RequestOf(s'.threads[t]) == RequestOf(s.threads[t])
    && AccessOK(s'.threads[t])
    && (s'.log == s.log ||
        (|s'.log| == |s.log| + 1 && s'.log[..|s.log|] == s.log && LogOK(s', s'.log[|s.log|])))
  }

  lemma AccessKept(s: State, t: Tid, s': State)
    requires AccessInv(s) && AccessMove(s, t, s')
    ensures AccessInv(s')
  {
    forall i | 0 <= i < |s'.log|
      ensures LogOK(s', s'.log[i])
    {
      if i < |s.log| {
        assert s'.log[i] == s'.log[..|s.log|][i] == s.log[i] && LogOK(s, s.log[i]);
      }
    }
  }

  lemma WriterAccess(cfg: Config, s: State, t: Tid, r: Request, at: Asking, c: Choice, s': State)
    requires Steps(cfg, s, t, Writer(r, at), c, s') && AccessInv(s)
    ensures AccessMove(s, t, s')
  {
    WriterIsQuiet(cfg, s, t, r, at, c, s');
    assert AccessOK(s.threads[t]);
    WriterAsks(cfg, s, t, r, at, c, s');
  }

  lemma WriterAsks(cfg: Config, s: State, t: Tid, r: Request, at: Asking, c: Choice, s': State)
    requires StepWriter(cfg, s, t, r, at, c) == Some(s') && AskingOK(r, at)
    ensures t in s'.threads && RequestOf(s'.threads[t]) == Some(r) && AccessOK(s'.threads[t])
  {
    match at
    case Own => OwnAsks(cfg, s, t, r, c, s');
    case Prove => ProveAsks(cfg, s, t, r, c, s');
    case _ =>
  }

  lemma OwnAsks(cfg: Config, s: State, t: Tid, r: Request, c: Choice, s': State)
    requires StepWriter(cfg, s, t, r, Own, c) == Some(s')
    ensures t in s'.threads && RequestOf(s'.threads[t]) == Some(r) && AccessOK(s'.threads[t])
  {
  }

  lemma ProveAsks(cfg: Config, s: State, t: Tid, r: Request, c: Choice, s': State)
    requires StepWriter(cfg, s, t, r, Prove, c) == Some(s') && AskingOK(r, Prove)
    ensures t in s'.threads && RequestOf(s'.threads[t]) == Some(r) && AccessOK(s'.threads[t])
  {
  }

  lemma LockedAccess(cfg: Config, s: State, t: Tid, r: Request, at: Holding, c: Choice, s': State)
    requires Steps(cfg, s, t, Locked(r, at), c, s') && AccessInv(s)
    ensures AccessMove(s, t, s')
  {
    assert AccessOK(s.threads[t]);
  }

  lemma SwapperAccess(cfg: Config, s: State, t: Tid, r: Request, at: Swapping, c: Choice, s': State)
    requires Steps(cfg, s, t, Swapper(r, at), c, s') && AccessInv(s)
    ensures AccessMove(s, t, s')
  {
    assert AccessOK(s.threads[t]);
  }

  lemma ThreadAccess(cfg: Config, s: State, t: Tid, pc: PC, c: Choice, s': State)
    requires Steps(cfg, s, t, pc, c, s') && AccessInv(s)
    ensures AccessMove(s, t, s')
  {
    match pc
    case Writer(r, at) => WriterAccess(cfg, s, t, r, at, c, s');
    case Locked(r, at) => LockedAccess(cfg, s, t, r, at, c, s');
    case Swapper(r, at) => SwapperAccess(cfg, s, t, r, at, c, s');
    case Refreshing(left, at) => RefreshingIsQuiet(cfg, s, t, left, at, c, s');
    case Installer(left, at) => InstallerMoves(cfg, s, t, left, at, c, s');
    case _ => ReaderIsQuiet(cfg, s, t, pc, c, s');
  }

  lemma AccessStep(cfg: Config, s: State, step: Step, s': State)
    requires AccessInv(s) && Next(cfg, s, step) == Some(s')
    ensures AccessInv(s')
  {
    match step
    case Go(t, c) =>
      ThreadAccess(cfg, s, t, s.threads[t], c, s');
      AccessKept(s, t, s');
    case _ =>
      forall i | 0 <= i < |s'.log|
        ensures LogOK(s', s'.log[i])
      {
        assert LogOK(s, s.log[i]);
      }
  }

  lemma {:induction false} AccessRun(cfg: Config, s: State, steps: seq<Step>, s': State)
    requires AccessInv(s) && Run(cfg, s, steps) == Some(s')
    ensures AccessInv(s')
    decreases |steps|
  {
    if steps != [] {
      var next := Next(cfg, s, steps[0]).value;
      AccessStep(cfg, s, steps[0], next);
      AccessRun(cfg, next, steps[1..], s');
    }
  }

  // ----- the step at which a thread passed something -----

  lemma OnlyItMoves(cfg: Config, s: State, step: Step, s': State, t: Tid)
    requires Next(cfg, s, step) == Some(s') && !((step.Start? || step.Go?) && step.t == t)
    ensures t in s.threads <==> t in s'.threads
    ensures t in s.threads ==> s'.threads[t] == s.threads[t]
  {
    if step.Go? {
      var u, c, pc := step.t, step.c, s.threads[step.t];
      match pc {
        case Writer(r, at) => WriterAnswer(cfg, s, u, r, at, c, s');
        case Locked(r, at) => LockedAnswer(cfg, s, u, r, at, c, s');
        case Swapper(r, at) => SwapperAnswer(cfg, s, u, r, at, c, s');
        case Refreshing(left, at) => RefreshingIsQuiet(cfg, s, u, left, at, c, s');
        case Installer(left, at) => InstallerMoves(cfg, s, u, left, at, c, s');
        case _ => ReaderIsQuiet(cfg, s, u, pc, c, s');
      }
    }
  }

  /** Step k of a run takes t from x, where p did not hold of it, to y, where it does. */
  ghost predicate Crosses(cfg: Config, s: State, steps: seq<Step>, t: Tid, p: PC -> bool, k: nat, x: State, y: State) {
    && k < |steps| && Run(cfg, s, steps[..k]) == Some(x) && Next(cfg, x, steps[k]) == Some(y)
    && (steps[k].Start? || steps[k].Go?) && steps[k].t == t
    && t in y.threads && p(y.threads[t]) && (t in x.threads ==> !p(x.threads[t]))
  }

  /** Whatever holds of a thread now and did not at first, came to hold in one of its steps. */
  lemma {:induction false} Crossing(cfg: Config, s: State, steps: seq<Step>, s': State, t: Tid, p: PC -> bool)
    returns (k: nat, x: State, y: State)
    requires Run(cfg, s, steps) == Some(s') && t in s'.threads && p(s'.threads[t])
    requires t in s.threads ==> !p(s.threads[t])
    ensures Crosses(cfg, s, steps, t, p, k, x, y)
    decreases |steps|
  {
    var next := Next(cfg, s, steps[0]).value;
    if t in next.threads && p(next.threads[t]) {
      k, x, y := 0, s, next;
      if !((steps[0].Start? || steps[0].Go?) && steps[0].t == t) {
        OnlyItMoves(cfg, s, steps[0], next, t);
      }
    } else {
      k, x, y := Crossing(cfg, next, steps[1..], s', t, p);
      assert steps[..k + 1][0] == steps[0] && steps[..k + 1][1..] == steps[1..][..k];
      k := k + 1;
    }
  }

  /** A run that was made is one whose parts were. */
  lemma PrefixRuns(cfg: Config, s: State, steps: seq<Step>, k: nat, x: State)
    requires k <= |steps| && Run(cfg, s, steps[..k]) == Some(x) && Init(cfg, s)
    ensures Inv(cfg, s.snap, x) && AccessInv(x)
  {
    InitHolds(cfg, s);
    InvRun(cfg, s.snap, s, steps[..k], x);
    AccessRun(cfg, s, steps[..k], x);
  }

  // ----- the age of the data -----

  predicate IsAging(pc: PC, now: Time) {
    pc == Reader(Aging(now)) || (pc.Writer? && pc.asking == Age(now))
  }

  predicate IsReader(pc: PC) {
    pc.Reader? || pc.TooOld? || pc.Answered?
  }

  lemma LockedStays(cfg: Config, s: State, t: Tid, r: Request, at: Holding, c: Choice, s': State)
    requires Steps(cfg, s, t, Locked(r, at), c, s')
    ensures t in s'.threads && RequestOf(s'.threads[t]) == Some(r) && !s'.threads[t].Writer?
  {
  }

  lemma SwapperStays(cfg: Config, s: State, t: Tid, r: Request, at: Swapping, c: Choice, s': State)
    requires Steps(cfg, s, t, Swapper(r, at), c, s')
    ensures t in s'.threads && RequestOf(s'.threads[t]) == Some(r) && !s'.threads[t].Writer?
  {
  }

  /** A thread goes on with what it is: a writer with its request, a reader, a refresh. */
  lemma KindStays(cfg: Config, s: State, t: Tid, pc: PC, c: Choice, s': State)
    requires Steps(cfg, s, t, pc, c, s')
    ensures t in s'.threads && (RequestOf(s'.threads[t]).Some? <==> RequestOf(pc).Some?)
    ensures IsReader(s'.threads[t]) <==> IsReader(pc)
    ensures s'.threads[t].Writer? ==> pc.Writer?
  {
    match pc
    case Writer(r, at) => WriterIsQuiet(cfg, s, t, r, at, c, s');
    case Locked(r, at) => LockedStays(cfg, s, t, r, at, c, s');
    case Swapper(r, at) => SwapperStays(cfg, s, t, r, at, c, s');
    case Refreshing(left, at) => RefreshingIsQuiet(cfg, s, t, left, at, c, s');
    case Installer(left, at) => InstallerMoves(cfg, s, t, left, at, c, s');
    case _ => ReaderIsQuiet(cfg, s, t, pc, c, s');
  }

  lemma AgingBegins(cfg: Config, x: State, step: Step, t: Tid, now: Time, y: State)
    requires Next(cfg, x, step) == Some(y) && (step.Start? || step.Go?) && step.t == t
    requires t in y.threads && IsAging(y.threads[t], now) && (t in x.threads ==> !IsAging(x.threads[t], now))
    ensures t in x.threads && x.clock == now
  {
    if step.Go? {
      KindStays(cfg, x, t, x.threads[t], step.c, y);
    }
  }

  /** An age check begins with the clock at now. */
  lemma LookedAtTheClock(cfg: Config, s: State, steps: seq<Step>, s': State, t: Tid, now: Time)
    returns (j: nat, w: State)
    requires s.threads == map[] && Run(cfg, s, steps) == Some(s') && t in s'.threads && IsAging(s'.threads[t], now)
    ensures j < |steps| && Run(cfg, s, steps[..j]) == Some(w) && t in w.threads && w.clock == now
  {
    var y;
    j, w, y := Crossing(cfg, s, steps, s', t, pc => IsAging(pc, now));
    AgingBegins(cfg, w, steps[j], t, now, y);
  }

  /** Past the check of the data's age. */
  predicate PastAge(pc: PC) {
    match pc
    case Writer(r, Own) => r.extended
    case Writer(_, Prove) => true
    case Writer(_, Verify(_)) => true
    case Writer(_, Lock(_)) => true
    case Locked(_, _) => true
    case Swapper(_, _) => true
    case Told(_, a) => !a.Refused?
    case _ => false
  }

  lemma AgePassed(cfg: Config, x: State, step: Step, t: Tid, y: State)
    requires Next(cfg, x, step) == Some(y) && (step.Start? || step.Go?) && step.t == t && AccessInv(x)
    requires t in y.threads && PastAge(y.threads[t]) && (t in x.threads ==> !PastAge(x.threads[t]))
    ensures t in x.threads && x.threads[t].Writer? && x.threads[t].asking.Age?
    ensures !Aged(cfg, x.threads[t].asking.now, x.snap)
  {
    if step.Go? {
      assert AccessOK(x.threads[t]);
      KindStays(cfg, x, t, x.threads[t], step.c, y);
    }
  }

  lemma PassedTheAge(cfg: Config, s: State, steps: seq<Step>, s': State, t: Tid)
    returns (now: Time, j: nat, w: State, k: nat, x: State)
    requires Init(cfg, s) && Run(cfg, s, steps) == Some(s') && t in s'.threads && PastAge(s'.threads[t])
    ensures j < k < |steps| && Run(cfg, s, steps[..j]) == Some(w) && Run(cfg, s, steps[..k]) == Some(x)
    ensures t in w.threads && w.clock == now && (cfg.maxAge > 0 ==> now - x.snap.built <= cfg.maxAge)
  {
    var y;
    k, x, y := Crossing(cfg, s, steps, s', t, PastAge);
    PrefixRuns(cfg, s, steps, k, x);
    AgePassed(cfg, x, steps[k], t, y);
    now := x.threads[t].asking.now;
    j, w := LookedAtTheClock(cfg, s, steps[..k], x, t, now);
    assert steps[..k][..j] == steps[..j];
  }

  /** In every run, a thread that wrote the file serves a person's own request, one the
      server understands, with the old password; and its age check was made, of the data
      served at one point of the run, with the time of an earlier one. */
  lemma WritersPassedTheGate(cfg: Config, s: State, steps: seq<Step>, s': State, t: Tid)
    returns (r: Request, now: Time, j: nat, w: State, k: nat, x: State)
    requires Init(cfg, s) && Run(cfg, s, steps) == Some(s') && t in s'.wrote
    ensures t in s'.threads && RequestOf(s'.threads[t]) == Some(r) && Granted(r)
    ensures j < k < |steps| && Run(cfg, s, steps[..j]) == Some(w) && Run(cfg, s, steps[..k]) == Some(x)
    ensures t in w.threads && w.clock == now && (cfg.maxAge > 0 ==> now - x.snap.built <= cfg.maxAge)
  {
    r := WritersAreGranted(cfg, s, steps, s', t);
    now, j, w, k, x := PassedTheAge(cfg, s, steps, s', t);
  }

  lemma WritersAreGranted(cfg: Config, s: State, steps: seq<Step>, s': State, t: Tid) returns (r: Request)
    requires Init(cfg, s) && Run(cfg, s, steps) == Some(s') && t in s'.wrote
    ensures t in s'.threads && RequestOf(s'.threads[t]) == Some(r) && Granted(r)
    ensures PastAge(s'.threads[t]) && PastProof(s'.threads[t])
  {
    assert steps[..|steps|] == steps;
    PrefixRuns(cfg, s, steps, |steps|, s');
    assert AnswerOK(s', t, s'.threads[t]) && AccessOK(s'.threads[t]);
    r := RequestOf(s'.threads[t]).value;
  }

  /** Every change of the log is what a person's own request asked for. */
  lemma ChangesAreAskedFor(cfg: Config, s: State, steps: seq<Step>, s': State, i: nat) returns (r: Request)
    requires Init(cfg, s) && Run(cfg, s, steps) == Some(s') && i < |s'.log|
    ensures s'.log[i].who in s'.threads && RequestOf(s'.threads[s'.log[i].who]) == Some(r) && Granted(r)
    ensures s'.log[i].target == r.target && s'.log[i].proof == r.proof && s'.log[i].password == r.password
  {
    AccessRun(cfg, s, steps, s');
    assert LogOK(s', s'.log[i]);
    r := RequestOf(s'.threads[s'.log[i].who]).value;
  }

  /** Whoever is not the person is told so and nothing else, but for the extended operation
      when the data are too old; and a request that is not granted never succeeds. */
  lemma StrangersAreRefused(cfg: Config, s: State, steps: seq<Step>, s': State, t: Tid)
    requires Init(cfg, s) && Run(cfg, s, steps) == Some(s') && t in s'.threads && s'.threads[t].Told?
    ensures var r, a := s'.threads[t].r, s'.threads[t].answer;
            && (!r.standing.Theirs? ==> a == Refused(if r.standing.NoPerson? then NoSuchObject else NoAccess) ||
                                        (r.extended && a == Refused(Unavailable)))
            && (a == Refused(NoSuchObject) ==> r.standing.NoPerson?)
            && (!Granted(r) ==> a.Refused? && !a.code.CannotWrite?)
  {
    AccessRun(cfg, s, steps, s');
    assert AccessOK(s'.threads[t]);
  }

  /** Past the check of who is asking: what a thread does and is told only then. */
  predicate PastOwn(pc: PC) {
    match pc
    case Writer(r, Own) => false
    case Writer(r, Clock) => !r.extended
    case Writer(r, Age(_)) => !r.extended
    case Writer(_, _) => true
    case Locked(_, _) => true
    case Swapper(_, _) => true
    case Told(r, a) =>
      a != Refused(NoAccess) && a != Refused(NoSuchObject) && (r.extended ==> a != Refused(Unavailable))
    case _ => false
  }

  lemma OwnPassed(cfg: Config, x: State, step: Step, t: Tid, y: State)
    requires Next(cfg, x, step) == Some(y) && (step.Start? || step.Go?) && step.t == t && AccessInv(x)
    requires t in y.threads && PastOwn(y.threads[t]) && (t in x.threads ==> !PastOwn(x.threads[t]))
    ensures t in x.threads && x.threads[t].Writer? && x.threads[t].asking.Own?
    ensures x.threads[t].r.standing.Theirs? && x.threads[t].r.target in x.snap.people.byName
  {
    if step.Go? {
      assert AccessOK(x.threads[t]);
      KindStays(cfg, x, t, x.threads[t], step.c, y);
    }
  }

  /** In every run, whoever is told anything but who may not is a person who asked for
      themselves and was served when it was looked at; so are those who wrote. */
  lemma OnlyTheServedPass(cfg: Config, s: State, steps: seq<Step>, s': State, t: Tid) returns (k: nat, x: State)
    requires Init(cfg, s) && Run(cfg, s, steps) == Some(s') && t in s'.threads && PastOwn(s'.threads[t])
    ensures k < |steps| && Run(cfg, s, steps[..k]) == Some(x) && t in x.threads && x.threads[t].Writer?
    ensures x.threads[t].r.standing.Theirs? && x.threads[t].r.target in x.snap.people.byName
  {
    var y;
    k, x, y := Crossing(cfg, s, steps, s', t, PastOwn);
    PrefixRuns(cfg, s, steps, k, x);
    OwnPassed(cfg, x, steps[k], t, y);
  }

  /** Past the check of the old password. */
  predicate PastProof(pc: PC) {
    match pc
    case Writer(_, Lock(_)) => true
    case Locked(_, _) => true
    case Swapper(_, _) => true
    case Told(_, a) => !a.Refused?
    case _ => false
  }

  lemma ProofPassed(cfg: Config, x: State, step: Step, t: Tid, y: State)
    requires Next(cfg, x, step) == Some(y) && (step.Start? || step.Go?) && step.t == t && AccessInv(x)
    requires t in y.threads && PastProof(y.threads[t]) && (t in x.threads ==> !PastProof(x.threads[t]))
    ensures step.Go? && t in x.threads && x.threads[t].Writer? && x.threads[t].asking.Verify?
    ensures !step.c.outage
    ensures var id, r := x.threads[t].asking.id, x.threads[t].r;
            r.proof.Some? && if id.born.FromFile? then id.password == r.proof else step.c.yes
  {
    if step.Go? {
      assert AccessOK(x.threads[t]);
      KindStays(cfg, x, t, x.threads[t], step.c, y);
    }
  }

  /** In every run, a thread that wrote the file had the old password checked at one step: by
      the identity itself for somebody of the file, and for anybody else by a source that
      could be asked and said yes. */
  lemma WritersWereVerified(cfg: Config, s: State, steps: seq<Step>, s': State, t: Tid)
    returns (k: nat, x: State, id: Identity, r: Request)
    requires Init(cfg, s) && Run(cfg, s, steps) == Some(s') && t in s'.wrote
    ensures k < |steps| && Run(cfg, s, steps[..k]) == Some(x) && t in x.threads && steps[k].Go? && steps[k].t == t
    ensures x.threads[t] == Writer(r, Verify(id)) && id.name == r.target && r.proof.Some? && !steps[k].c.outage
    ensures if id.born.FromFile? then id.password == r.proof else steps[k].c.yes
  {
    var _ := WritersAreGranted(cfg, s, steps, s', t);
    var y;
    k, x, y := Crossing(cfg, s, steps, s', t, PastProof);
    PrefixRuns(cfg, s, steps, k, x);
    ProofPassed(cfg, x, steps[k], t, y);
    id, r := x.threads[t].asking.id, x.threads[t].r;
    assert ProofOK(x, x.threads[t]);
  }

  // ----- what the file is written -----

  /** But for an edit by hand, a step that changes the file changes one password, of a name
      the file has: to what a person's own request asked for, who accepted its old one. */
  lemma OnlyTheOwnerWrites(cfg: Config, start: Snapshot, s: State, step: Step, s': State) returns (r: Request)
    requires Inv(cfg, start, s) && AccessInv(s) && Next(cfg, s, step) == Some(s') && s'.file != s.file && !step.Edit?
    ensures step.Go? && step.t in s.threads && RequestOf(s.threads[step.t]) == Some(r) && Granted(r)
    ensures r.target in s.file && s'.file == s.file[r.target := Some(r.password)]
    ensures exists id :: Proved(r, id)
  {
    var t, c, pc := step.t, step.c, s.threads[step.t];
    assert AccessOK(pc) && ProofOK(s, pc);
    if pc.Locked? {
      r := pc.r;
      LockedWrites(cfg, s, t, r, pc.holding, c, s');
    } else {
      NobodyElseWrites(cfg, s, t, pc, c, s');
    }
  }

  lemma LockedWrites(cfg: Config, s: State, t: Tid, r: Request, at: Holding, c: Choice, s': State)
    requires Steps(cfg, s, t, Locked(r, at), c, s') && s'.file != s.file && ProofOK(s, Locked(r, at))
    ensures r.target in s.file && s'.file == s.file[r.target := Some(r.password)] && exists id :: Proved(r, id)
  {
    assert at.SetFile? && Proved(r, at.id);
  }

  lemma NobodyElseWrites(cfg: Config, s: State, t: Tid, pc: PC, c: Choice, s': State)
    requires Steps(cfg, s, t, pc, c, s') && !pc.Locked?
    ensures s'.file == s.file
  {
    match pc
    case Writer(r, at) => WriterIsQuiet(cfg, s, t, r, at, c, s');
    case Swapper(r, at) =>
    case Refreshing(left, at) => RefreshingIsQuiet(cfg, s, t, left, at, c, s');
    case Installer(left, at) => InstallerMoves(cfg, s, t, left, at, c, s');
    case _ => ReaderIsQuiet(cfg, s, t, pc, c, s');
  }

  // ----- readers -----

  predicate IsTooOld(pc: PC) { pc.TooOld? }

  lemma TooOldBecause(cfg: Config, x: State, step: Step, t: Tid, y: State)
    requires Next(cfg, x, step) == Some(y) && (step.Start? || step.Go?) && step.t == t
    requires t in y.threads && y.threads[t].TooOld? && (t in x.threads ==> !x.threads[t].TooOld?)
    ensures t in x.threads && x.threads[t].Reader? && x.threads[t].looking.Aging?
    ensures Aged(cfg, x.threads[t].looking.now, x.snap)
  {
    if step.Go? {
      KindStays(cfg, x, t, x.threads[t], step.c, y);
    }
  }

  /** A reader is told the data are too old only if they are: max_age is set, and the data
      served at one point of the run were older than it at an earlier time. */
  lemma TooOldIsTrue(cfg: Config, s: State, steps: seq<Step>, s': State, t: Tid)
    returns (now: Time, j: nat, w: State, k: nat, x: State)
    requires Init(cfg, s) && Run(cfg, s, steps) == Some(s') && t in s'.threads && s'.threads[t].TooOld?
    ensures j < k < |steps| && Run(cfg, s, steps[..j]) == Some(w) && Run(cfg, s, steps[..k]) == Some(x)
    ensures t in w.threads && w.clock == now && cfg.maxAge > 0 && now - x.snap.built > cfg.maxAge
  {
    var y;
    k, x, y := Crossing(cfg, s, steps, s', t, IsTooOld);
    TooOldBecause(cfg, x, steps[k], t, y);
    now := x.threads[t].looking.now;
    j, w := LookedAtTheClock(cfg, s, steps[..k], x, t, now);
    assert steps[..k][..j] == steps[..j];
  }

  lemma AnsweringBecause(cfg: Config, x: State, step: Step, t: Tid, p: PC -> bool, y: State)
    requires Next(cfg, x, step) == Some(y) && (step.Start? || step.Go?) && step.t == t
    requires t in y.threads && p(y.threads[t]) && (t in x.threads ==> !p(x.threads[t])) && IsReader(y.threads[t])
    requires y.threads[t].Answered? || (y.threads[t].Reader? && y.threads[t].looking.Answering?)
    ensures t in x.threads && x.threads[t].Reader?
    ensures if y.threads[t].Answered? then
              y.threads[t].served == x.snap && x.threads[t].looking == Answering(y.threads[t].now, y.threads[t].aged)
            else x.threads[t].looking == Aging(y.threads[t].looking.now) && y.threads[t].looking.aged == x.snap
  {
    if step.Go? {
      KindStays(cfg, x, t, x.threads[t], step.c, y);
    }
  }

  /** An operation is answered from the snapshot served when it is answered, after one served
      at an earlier step passed its age check. */
  lemma AnsweredFromTheServed(cfg: Config, s: State, steps: seq<Step>, s': State, t: Tid)
    returns (j: nat, w: State, k: nat, x: State)
    requires Init(cfg, s) && Run(cfg, s, steps) == Some(s') && t in s'.threads && s'.threads[t].Answered?
    ensures j < k < |steps| && Run(cfg, s, steps[..j]) == Some(w) && Run(cfg, s, steps[..k]) == Some(x)
    ensures s'.threads[t].aged == w.snap && s'.threads[t].served == x.snap
  {
    var pc, y := s'.threads[t], s;
    k, x, y := Crossing(cfg, s, steps, s', t, q => q == pc);
    AnsweringBecause(cfg, x, steps[k], t, q => q == pc, y);
    var before := x.threads[t];
    j, w, y := Crossing(cfg, s, steps[..k], x, t, q => q == before);
    assert steps[..k][..j] == steps[..j];
    AnsweringBecause(cfg, w, steps[..k][j], t, q => q == before, y);
  }

  // ----- why a change is refused -----

  predicate IsRefused(pc: PC, code: Code) {
    match pc
    case Told(_, a) => a == Refused(code)
    case Locked(_, Unlock(a)) => a == Refused(code)
    case Swapper(_, Leave(a)) => a == Refused(code)
    case _ => false
  }

  /** Somebody has a password to check, as far as their source says. */
  predicate HasPassword(id: Identity, c: Choice) {
    if id.born.FromFile? then id.password.Some? else c.yes
  }

  /** The old password is not theirs; of somebody of another source, their source says so. */
  predicate Denies(id: Identity, proof: Option<string>, c: Choice) {
    if id.born.FromFile? then id.password != proof else !c.yes
  }

  /** What a refusal says was so, of the state it was decided in: who is asking, what is
      asked, whom the server serves, and what the source, the file or the clock said. */
  ghost predicate Reason(cfg: Config, x: State, t: Tid, r: Request, code: Code, c: Choice)
    requires t in x.threads
  {
    match code
    case NoSuchObject => r.standing.NoPerson?
    case NoAccess =>
      || r.standing.Anonymous? || r.standing.NotTheirs? || r.target !in x.snap.people.byName
      || (r.standing.Theirs? && r.fit && r.proof.None? && HasPassword(x.snap.people.byName[r.target], c))
    case Unwilling =>
      r.standing.Theirs? &&
      (|| !r.fit || r.target !in x.snap.people.byName || r.target !in x.file
       || !HasPassword(x.snap.people.byName[r.target], c)
       || (r.proof.Some? && exists id: Identity :: id.name == r.target && Denies(id, r.proof, c)))
    case Unavailable =>
      || (x.threads[t].Writer? && x.threads[t].asking.Age? && Aged(cfg, x.threads[t].asking.now, x.snap))
      || (Granted(r) && c.outage)
    case CannotWrite => Granted(r) && r.target in x.file && !c.yes
  }

  lemma WriterRefuses(cfg: Config, x: State, t: Tid, r: Request, at: Asking, code: Code, c: Choice, y: State)
    requires Steps(cfg, x, t, Writer(r, at), c, y) && AskingOK(r, at) && ProofOK(x, Writer(r, at)) && SnapOK(x.snap)
    requires t in y.threads && IsRefused(y.threads[t], code)
    ensures Reason(cfg, x, t, r, code, c)
  {
    match at
    case Verify(id) => assert id.name == r.target;
    case _ =>
  }

  lemma LockedRefuses(cfg: Config, x: State, t: Tid, r: Request, at: Holding, code: Code, c: Choice, y: State)
    requires Steps(cfg, x, t, Locked(r, at), c, y) && AccessOK(Locked(r, at)) && SnapOK(x.snap)
    requires t in y.threads && IsRefused(y.threads[t], code) && !IsRefused(Locked(r, at), code)
    ensures Reason(cfg, x, t, r, code, c)
  {
    if at.Check? && r.target in x.snap.people.byName {
      assert x.snap.people.byName[r.target].name == r.target;
    }
  }

  lemma SwapperRefusesNobody(cfg: Config, x: State, t: Tid, r: Request, at: Swapping, code: Code, c: Choice, y: State)
    requires Steps(cfg, x, t, Swapper(r, at), c, y) && !IsRefused(Swapper(r, at), code)
    ensures t in y.threads && !IsRefused(y.threads[t], code)
  {
  }

  lemma RefusedBecause(cfg: Config, start: Snapshot, x: State, step: Step, t: Tid, code: Code, y: State)
    requires Inv(cfg, start, x) && AccessInv(x) && Next(cfg, x, step) == Some(y)
    requires (step.Start? || step.Go?) && step.t == t && t in y.threads && IsRefused(y.threads[t], code)
    requires t in x.threads ==> !IsRefused(x.threads[t], code)
    ensures step.Go? && t in x.threads && RequestOf(x.threads[t]).Some?
    ensures RequestOf(y.threads[t]) == RequestOf(x.threads[t])
    ensures Reason(cfg, x, t, RequestOf(x.threads[t]).value, code, step.c)
  {
    if step.Go? {
      var pc := x.threads[t];
      ThreadAccess(cfg, x, t, pc, step.c, y);
      assert AccessOK(pc) && ProofOK(x, pc);
      match pc {
        case Writer(r, at) => WriterRefuses(cfg, x, t, r, at, code, step.c, y);
        case Locked(r, at) => LockedRefuses(cfg, x, t, r, at, code, step.c, y);
        case Swapper(r, at) => SwapperRefusesNobody(cfg, x, t, r, at, code, step.c, y);
        case _ =>
      }
    }
  }

  lemma {:induction false} RequestStays(cfg: Config, s: State, steps: seq<Step>, s': State, t: Tid)
    requires Run(cfg, s, steps) == Some(s') && t in s.threads && AccessInv(s)
    ensures t in s'.threads && RequestOf(s'.threads[t]) == RequestOf(s.threads[t])
    decreases |steps|
  {
    if steps != [] {
      var next := Next(cfg, s, steps[0]).value;
      AccessStep(cfg, s, steps[0], next);
      if steps[0].Go? && steps[0].t == t {
        ThreadAccess(cfg, s, t, s.threads[t], steps[0].c, next);
      } else {
        OnlyItMoves(cfg, s, steps[0], next, t);
      }
      RequestStays(cfg, next, steps[1..], s', t);
    }
  }

  /** In every run, a refusal has its reason: at some step of the run what it says was so. */
  lemma RefusalsAreTrue(cfg: Config, s: State, steps: seq<Step>, s': State, t: Tid, code: Code)
    returns (k: nat, x: State)
    requires Init(cfg, s) && Run(cfg, s, steps) == Some(s') && t in s'.threads && s'.threads[t].Told?
    requires s'.threads[t].answer == Refused(code)
    ensures k < |steps| && Run(cfg, s, steps[..k]) == Some(x) && steps[k].Go? && steps[k].t == t && t in x.threads
    ensures Reason(cfg, x, t, s'.threads[t].r, code, steps[k].c)
  {
    var y;
    k, x, y := Crossing(cfg, s, steps, s', t, pc => IsRefused(pc, code));
    PrefixRuns(cfg, s, steps, k, x);
    RefusedBecause(cfg, s.snap, x, steps[k], t, code, y);
    RunsOn(cfg, s, steps, s', k, x);
    RequestStays(cfg, x, steps[k..], s', t);
  }

  lemma {:induction false} RunsOn(cfg: Config, s: State, steps: seq<Step>, s': State, k: nat, x: State)
    requires k <= |steps| && Run(cfg, s, steps) == Some(s') && Run(cfg, s, steps[..k]) == Some(x)
    ensures Run(cfg, x, steps[k..]) == Some(s')
    decreases |steps|
  {
    if k == 0 {
      assert steps[0..] == steps;
    } else {
      assert steps[..k][0] == steps[0] && steps[..k][1..] == steps[1..][..k - 1] && steps[1..][k - 1..] == steps[k..];
      RunsOn(cfg, Next(cfg, s, steps[0]).value, steps[1..], s', k - 1, x);
    }
  }

  // ----- the DNs of a request -----

  /** What ownPassword makes of the session's DN and the target's. */
  function StandingOf(low: Names.Lower, people: string, equal: (string, string) -> bool, bound: string, dn: string)
    : Standing
  {
    var target := Names.NameOf(low, people, dn);
    if bound == "" then Anonymous
    else if target.None? then NoPerson
    else if Names.NameOf(low, people, bound) == target && equal(bound, Names.DnOf(people, target.value)) then Theirs
    else NotTheirs
  }

  /** A session's request for a target. */
  ghost predicate Asked(low: Names.Lower, people: string, equal: (string, string) -> bool, bound: string, dn: string,
                        r: Request)
  {
    && r.standing == StandingOf(low, people, equal, bound, dn)
    && (r.standing.Theirs? || r.standing.NotTheirs? ==> Names.NameOf(low, people, dn) == Some(r.target))
  }

  /** Past its first check a request is one ownPassword gives a person for. */
  lemma OwnIsOwnPassword(low: Names.Lower, people: string, equal: (string, string) -> bool, bound: string, dn: string,
                         served: set<string>, r: Request)
    requires Names.IsLower(low) && Asked(low, people, equal, bound, dn, r)
    ensures Names.OwnPassword(low, people, served, equal, bound, dn) == Some(r.target) <==>
              r.standing.Theirs? && r.target in served
  {
    if r.standing.NoPerson? || r.standing.Anonymous? {
      if Names.NameOf(low, people, bound).Some? {
        Names.SuffixHasComma(low, people, bound);
      }
    }
  }

  /** In every run: whoever wrote the file was bound by a DN that names the very person whose
      password it is, letter for letter, and that is their DN; and so did the target's. */
  lemma OnlyTheirOwnIsWritten(cfg: Config, s: State, steps: seq<Step>, s': State, t: Tid, low: Names.Lower,
                              people: string, equal: (string, string) -> bool, bound: string, dn: string)
    returns (r: Request)
    requires Init(cfg, s) && Run(cfg, s, steps) == Some(s') && t in s'.wrote && Names.IsLower(low)
    requires t in s'.threads && (forall q :: RequestOf(s'.threads[t]) == Some(q) ==>
               Asked(low, people, equal, bound, dn, q))
    ensures RequestOf(s'.threads[t]) == Some(r)
    ensures Names.NameIn(low, people, dn, r.target) && Names.NameIn(low, people, bound, r.target)
    ensures equal(bound, Names.DnOf(people, r.target))
  {
    r := WritersAreGranted(cfg, s, steps, s', t);
    Names.NameOfExactly(low, people, dn, r.target);
    Names.NameOfExactly(low, people, bound, r.target);
  }
}
