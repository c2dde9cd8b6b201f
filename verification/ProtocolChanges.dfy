/** Password changes: what each one proved, that they form chains, and that the answer
    a client gets says what happened to the file. */
module ProtocolChanges {
  import opened Wrappers
  import opened Rosters
  import opened Protocol
  import opened ProtocolInvariants

  // ----- the proof -----

  /** The identity accepted the old password that was sent. */
  ghost predicate Proved(r: Request, id: Identity) {
    id.name == r.target && r.proof.Some? && (id.born.FromFile? ==> id.password == r.proof)
  }

  ghost predicate HeldBy(st: Static, r: Request, id: Identity) {
    r.target in st.people ==> st.people[r.target] == id
  }

  ghost predicate ProofOK(s: State, pc: PC) {
    match pc
    case Writer(r, Verify(id)) => id.name == r.target
    case Writer(r, Lock(id)) => Proved(r, id)
    case Locked(r, Check(id)) => Proved(r, id)
    case Locked(r, SetFile(id)) => Proved(r, id) && HeldBy(s.local, r, id)
    case Locked(r, Load(id)) => Proved(r, id) && HeldBy(s.local, r, id)
    case Locked(r, SwapLock(id, _)) => Proved(r, id) && HeldBy(s.local, r, id)
    case Swapper(r, Rebuild(id, _)) => Proved(r, id) && HeldBy(s.local, r, id)
    case Swapper(r, StoreLocal(id, _, _)) => Proved(r, id) && HeldBy(s.local, r, id)
    case Swapper(r, StoreSnap(id, _, _)) =>
      Proved(r, id) && (r.target in s.snap.people.local && r.target in s.snap.people.byName ==>
        s.snap.people.byName[r.target] == id)
    case _ => true
  }

  /** A change swapped in for somebody the file held: they were served, just before,
      with the very password the change sent as the old one. */
  ghost predicate ComparedAndSet(e: Change) {
    e.wasLocal ==> e.proof.Some? && e.before == e.proof
  }

  ghost predicate ProofInv(s: State) {
    && (forall t :: t in s.threads ==> ProofOK(s, s.threads[t]))
    && (forall i :: 0 <= i < |s.log| ==> ComparedAndSet(s.log[i]))
  }

  ghost predicate ProofMove(s: State, t: Tid, s': State) {
    && t in s.threads && t in s'.threads && s'.threads == s.threads[t := s'.threads[t]]
    && (s'.local == s.local || InMu(s.threads[t]))
    && (s'.snap == s.snap || InSwap(s.threads[t]))
    && ProofOK(s', s'.threads[t])
    && (s'.log == s.log || (|s'.log| == |s.log| + 1 && s'.log[..|s.log|] == s.log && ComparedAndSet(s'.log[|s.log|])))
  }

  lemma ProofKept(s: State, t: Tid, s': State)
    requires LockInv(s) && ProofInv(s) && ProofMove(s, t, s')
    ensures ProofInv(s')
  {
    forall i | 0 <= i < |s'.log|
      ensures ComparedAndSet(s'.log[i])
    {
      if i < |s.log| {
        assert s'.log[i] == s'.log[..|s.log|][i] == s.log[i];
      }
    }
  }

  lemma WriterProof(cfg: Config, s: State, t: Tid, r: Request, at: Asking, c: Choice, s': State)
    requires Steps(cfg, s, t, Writer(r, at), c, s') && AgreeInv(s) && ProofInv(s)
    ensures ProofMove(s, t, s')
  {
    WriterIsQuiet(cfg, s, t, r, at, c, s');
    assert ProofOK(s, s.threads[t]);
    if at.Prove? {
      ProveNames(cfg, s, t, r, c, s');
    }
  }

  lemma ProveNames(cfg: Config, s: State, t: Tid, r: Request, c: Choice, s': State)
    requires SnapOK(s.snap) && StepWriter(cfg, s, t, r, Prove, c) == Some(s')
    ensures t in s'.threads && ProofOK(s', s'.threads[t])
  {
  }

  /** With s.mu held and not swapMu, no password change is half swapped in. */
  lemma SettledUnderMu(s: State, t: Tid)
    requires LockInv(s) && AgreeInv(s) && t in s.threads && s.threads[t].Locked?
    ensures Agrees(s.snap, s.local)
  {
  }

  lemma LockedProof(cfg: Config, s: State, t: Tid, r: Request, at: Holding, c: Choice, s': State)
    requires Steps(cfg, s, t, Locked(r, at), c, s') && LockInv(s) && AgreeInv(s) && ProofInv(s)
    ensures ProofMove(s, t, s')
  {
    assert ProofOK(s, s.threads[t]);
    if at.Check? {
      SettledUnderMu(s, t);
      CheckProves(s, t, r, at.id, c, s');
    }
  }

  /** writeProved: whoever is served now accepted the old password, then or now. */
  lemma CheckProves(s: State, t: Tid, r: Request, id: Identity, c: Choice, s': State)
    requires SnapOK(s.snap) && Agrees(s.snap, s.local) && Proved(r, id) && StepLocked(s, t, r, Check(id), c) == Some(s')
    ensures t in s'.threads && s' == At(s, t, s'.threads[t]) && ProofOK(s', s'.threads[t])
  {
  }

  lemma SwapperProof(cfg: Config, s: State, t: Tid, r: Request, at: Swapping, c: Choice, s': State)
    requires Steps(cfg, s, t, Swapper(r, at), c, s') && LockInv(s) && AgreeInv(s) && ProofInv(s)
    ensures ProofMove(s, t, s')
  {
    if at.StoreSnap? {
      StoreSnapProof(cfg, s, t, r, at, c, s');
    } else {
      assert ProofOK(s, s.threads[t]) && AgreeOK(s, s.threads[t]);
    }
  }

  lemma StoreSnapProof(cfg: Config, s: State, t: Tid, r: Request, at: Swapping, c: Choice, s': State)
    requires at.StoreSnap? && Steps(cfg, s, t, Swapper(r, at), c, s') && LockInv(s) && AgreeInv(s) && ProofInv(s)
    ensures ProofMove(s, t, s')
  {
    assert ProofOK(s, s.threads[t]);
    assert ComparedAndSet(s'.log[|s.log|]);
  }

  lemma RefreshingIsQuiet(cfg: Config, s: State, t: Tid, left: nat, at: Reading, c: Choice, s': State)
    requires Steps(cfg, s, t, Refreshing(left, at), c, s')
    ensures t in s'.threads && s' == s.(threads := s.threads[t := s'.threads[t]], swapMu := s'.swapMu,
                                        readings := s'.readings, refreshing := s'.refreshing)
    ensures s'.threads[t].Refreshing? || s'.threads[t].Installer? || s'.threads[t].Refreshed?
  {
  }

  lemma InstallerMoves(cfg: Config, s: State, t: Tid, left: nat, at: Installing, c: Choice, s': State)
    requires Steps(cfg, s, t, Installer(left, at), c, s')
    ensures t in s'.threads && s' == s.(threads := s.threads[t := s'.threads[t]], swapMu := s'.swapMu, snap := s'.snap)
    ensures s'.snap == if at.Store? then at.sn else s.snap
    ensures s'.threads[t].Refreshing? || s'.threads[t].Installer?
  {
  }

  lemma ProofStep(cfg: Config, s: State, step: Step, s': State)
    requires LockInv(s) && AgreeInv(s) && ProofInv(s) && Next(cfg, s, step) == Some(s')
    ensures ProofInv(s')
  {
    if step.Go? {
      var t, c, pc := step.t, step.c, s.threads[step.t];
      match pc {
        case Writer(r, at) => WriterProof(cfg, s, t, r, at, c, s');
        case Locked(r, at) => LockedProof(cfg, s, t, r, at, c, s');
        case Swapper(r, at) => SwapperProof(cfg, s, t, r, at, c, s');
        case Refreshing(left, at) => RefreshingIsQuiet(cfg, s, t, left, at, c, s');
        case Installer(left, at) => InstallerMoves(cfg, s, t, left, at, c, s');
        case _ => ReaderIsQuiet(cfg, s, t, pc, c, s');
      }
      ProofKept(s, t, s');
    }
  }

  // ----- the file, what was read of it, and what is served -----

  function FileView(file: File, n: string): Option<Option<string>> {
    if n in file then Some(file[n]) else None
  }

  function LocalView(st: Static, n: string): Option<Option<string>> {
    if n in st.people then Some(st.people[n].password) else None
  }

  function SnapView(sn: Snapshot, n: string): Option<Option<string>> {
    if n in sn.people.local then Some(Served(sn, n)) else None
  }

  predicate PendingAt(pc: PC) {
    (pc.Locked? && (pc.holding.Load? || pc.holding.SwapLock?)) ||
    (pc.Swapper? && (pc.swapping.Rebuild? || pc.swapping.StoreLocal?))
  }

  /** The change whose password is in the file and not yet in local.p. */
  ghost function Pending(s: State): Option<Request> {
    if s.mu.Some? && s.mu.value in s.threads && PendingAt(s.threads[s.mu.value]) then Some(s.threads[s.mu.value].r)
    else None
  }

  ghost predicate FileAgrees(s: State, n: string) {
    if Pending(s).Some? && Pending(s).value.target == n
    then n in s.local.people && FileView(s.file, n) == Some(Some(Pending(s).value.password))
    else FileView(s.file, n) == LocalView(s.local, n)
  }

  ghost predicate MadeAgrees(s: State, made: Static) {
    forall n :: n !in s.disturbed ==> LocalView(made, n) == FileView(s.file, n)
  }

  /** For a name nobody disturbed, the new people are the served ones but for the
      password being changed. */
  ghost predicate OnlyTargetMoves(s: State, r: Request, made: Static) {
    forall n :: n !in s.disturbed ==>
      if n == r.target then SnapView(s.snap, n).Some? && LocalView(made, n) == Some(Some(r.password))
      else LocalView(made, n) == SnapView(s.snap, n)
  }

  ghost predicate FileOK(s: State, pc: PC) {
    match pc
    case Locked(_, SwapLock(_, made)) => MadeAgrees(s, made)
    case Swapper(_, Rebuild(_, made)) => MadeAgrees(s, made)
    case Swapper(_, StoreLocal(_, made, _)) => MadeAgrees(s, made)
    case Swapper(r, StoreSnap(_, made, _)) => OnlyTargetMoves(s, r, made)
    case _ => true
  }

  ghost predicate FileInv(s: State) {
    && (forall n :: n !in s.disturbed ==> FileAgrees(s, n))
    && (forall t :: t in s.threads ==> FileOK(s, s.threads[t]))
  }

  // ----- chains -----

  function LastNew(log: seq<Change>, n: string): Option<string> {
    if log == [] then None
    else if log[|log| - 1].target == n then Some(log[|log| - 1].password)
    else LastNew(log[..|log| - 1], n)
  }

  /** What n should be served with: the password of their last change, or the one they
      started with. */
  function Expected(start: Snapshot, log: seq<Change>, n: string): Option<Option<string>> {
    if LastNew(log, n).Some? then Some(LastNew(log, n)) else SnapView(start, n)
  }

  /** Each change of n sent, as the old password, the one the change before it set, and
      was served with its own as soon as it was swapped in. */
  ghost predicate Chained(start: Snapshot, log: seq<Change>, n: string) {
    log == [] ||
    (Chained(start, log[..|log| - 1], n) &&
     (log[|log| - 1].target == n ==>
       && Expected(start, log[..|log| - 1], n) == Some(log[|log| - 1].proof)
       && log[|log| - 1].wasLocal && log[|log| - 1].after == Some(log[|log| - 1].password)))
  }

  ghost predicate ChainInv(start: Snapshot, s: State) {
    forall n :: n !in s.disturbed ==>
      SnapView(s.snap, n) == Expected(start, s.log, n) && Chained(start, s.log, n)
  }

  // ----- what keeps them -----

  /** A step that leaves alone the file, the people, the served snapshot, the log and
      whoever holds s.mu. */
  ghost predicate FileFrame(s: State, t: Tid, s': State) {
    && t in s.threads && t in s'.threads && s'.threads == s.threads[t := s'.threads[t]]
    && s'.file == s.file && s'.local == s.local && s'.snap == s.snap && s'.log == s.log && s'.disturbed == s.disturbed
    && Pending(s') == Pending(s) && FileOK(s', s'.threads[t])
  }

  lemma FileFramed(start: Snapshot, s: State, t: Tid, s': State)
    requires FileInv(s) && ChainInv(start, s) && FileFrame(s, t, s')
    ensures FileInv(s') && ChainInv(start, s')
  {
    forall n | n !in s'.disturbed
      ensures FileAgrees(s', n)
    {
      assert FileAgrees(s, n);
    }
    forall u | u in s'.threads
      ensures FileOK(s', s'.threads[u])
    {
      assert u != t ==> FileOK(s, s.threads[u]);
    }
  }

  lemma PendingKept(s: State, t: Tid, s': State)
    requires LockInv(s) && t in s.threads && t in s'.threads && s'.threads == s.threads[t := s'.threads[t]]
    requires (s'.mu == s.mu && !InMu(s.threads[t])) || (s.mu == None && s'.mu == Some(t) && !PendingAt(s'.threads[t]))
    ensures Pending(s') == Pending(s)
  {
  }

  lemma EditFile(start: Snapshot, s: State, file: File, s': State)
    requires FileInv(s) && ChainInv(start, s)
    requires s' == s.(file := file, disturbed := s.disturbed + Differing(s.file, file))
    ensures FileInv(s') && ChainInv(start, s')
  {
    forall n | n !in s'.disturbed
      ensures FileView(s'.file, n) == FileView(s.file, n) && FileAgrees(s', n)
    {
      assert FileAgrees(s, n);
    }
    forall u | u in s'.threads
      ensures FileOK(s', s'.threads[u])
    {
      assert FileOK(s, s.threads[u]);
    }
  }

  /** The steps under s.mu before swapMu. */
  lemma LockedFile(cfg: Config, start: Snapshot, s: State, t: Tid, r: Request, at: Holding, c: Choice, s': State)
    requires Steps(cfg, s, t, Locked(r, at), c, s') && LockInv(s) && FileInv(s) && ChainInv(start, s)
    ensures FileInv(s') && ChainInv(start, s')
  {
    match at
    case SetFile(id) =>
      if r.target in s.file && c.yes {
        WroteFile(start, s, t, r, id, s');
      } else {
        FileFramed(start, s, t, s');
      }
    case Load(id) =>
      if c.yes {
        LoadedFile(start, s, t, r, id, s');
      } else {
        GaveUp(start, s, t, r, s');
      }
    case _ =>
      assert FileOK(s, s.threads[t]);
      FileFramed(start, s, t, s');
  }

  lemma WroteFile(start: Snapshot, s: State, t: Tid, r: Request, id: Identity, s': State)
    requires LockInv(s) && FileInv(s) && ChainInv(start, s)
    requires t in s.threads && s.threads[t] == Locked(r, SetFile(id)) && r.target in s.file
    requires s' == At(s, t, Locked(r, Load(id))).(file := s.file[r.target := Some(r.password)], wrote := s.wrote + {t})
    ensures FileInv(s') && ChainInv(start, s')
  {
    assert Pending(s).None? && Pending(s') == Some(r);
    forall n | n !in s'.disturbed
      ensures FileAgrees(s', n)
    {
      assert FileAgrees(s, n);
    }
    forall u | u in s'.threads
      ensures FileOK(s', s'.threads[u])
    {
      assert u != t ==> !InMu(s.threads[u]);
    }
  }

  lemma LoadedFile(start: Snapshot, s: State, t: Tid, r: Request, id: Identity, s': State)
    requires LockInv(s) && FileInv(s) && ChainInv(start, s)
    requires t in s.threads && s.threads[t] == Locked(r, Load(id))
    requires s' == At(s, t, Locked(r, SwapLock(id, ReadFile(s.file, s.readings)))).(readings := s.readings + 1)
    ensures FileInv(s') && ChainInv(start, s')
  {
    FileFramed(start, s, t, s');
  }

  /** A reload that failed: the name is disturbed, and nothing is pending any more. */
  lemma GaveUp(start: Snapshot, s: State, t: Tid, r: Request, s': State)
    requires LockInv(s) && FileInv(s) && ChainInv(start, s)
    requires t in s.threads && PendingAt(s.threads[t]) && s.threads[t].r == r
    requires t in s'.threads && s'.threads == s.threads[t := s'.threads[t]] && !PendingAt(s'.threads[t])
    requires FileOK(s', s'.threads[t])
    requires s' == s.(threads := s'.threads, disturbed := s.disturbed + {r.target})
    ensures FileInv(s') && ChainInv(start, s')
  {
    assert InMu(s.threads[t]) && Pending(s) == Some(r) && Pending(s').None?;
    forall n | n !in s'.disturbed
      ensures FileAgrees(s', n)
    {
      assert FileAgrees(s, n);
    }
    forall u | u in s'.threads
      ensures FileOK(s', s'.threads[u])
    {
      assert u != t ==> FileOK(s, s.threads[u]);
    }
  }

  /** The steps under both locks. */
  lemma SwapperFile(cfg: Config, start: Snapshot, s: State, t: Tid, r: Request, at: Swapping, c: Choice, s': State)
    requires Steps(cfg, s, t, Swapper(r, at), c, s')
    requires LockInv(s) && StampInv(s) && AgreeInv(s) && ProofInv(s) && FileInv(s) && ChainInv(start, s)
    ensures FileInv(s') && ChainInv(start, s')
  {
    assert FileOK(s, s.threads[t]);
    match at
    case Rebuild(id, made) =>
      if Apart(cfg.key, Reloaded(s.snap, made).people.byName.Keys) {
        FileFramed(start, s, t, s');
      } else {
        GaveUp(start, s, t, r, s');
      }
    case StoreLocal(id, made, next) => StoredLocal(start, s, t, r, id, made, next, s');
    case StoreSnap(id, made, next) => StoredSnap(start, s, t, r, id, made, next, s');
    case _ => FileFramed(start, s, t, s');
  }

  lemma StoredLocal(start: Snapshot, s: State, t: Tid, r: Request, id: Identity, made: Static, next: Snapshot,
                    s': State)
    requires LockInv(s) && AgreeInv(s) && FileInv(s) && ChainInv(start, s)
    requires t in s.threads && s.threads[t] == Swapper(r, StoreLocal(id, made, next))
    requires s' == At(s, t, Swapper(r, StoreSnap(id, made, next))).(local := made)
    ensures FileInv(s') && ChainInv(start, s')
  {
    assert FileOK(s, s.threads[t]);
    assert InMu(s.threads[t]) && Pending(s) == Some(r) && Pending(s').None?;
    assert InSwap(s.threads[t]) && Agrees(s.snap, s.local);
    forall n | n !in s'.disturbed
      ensures FileAgrees(s', n)
      ensures if n == r.target then SnapView(s.snap, n).Some? && LocalView(made, n) == Some(Some(r.password))
              else LocalView(made, n) == SnapView(s.snap, n)
    {
      assert FileAgrees(s, n);
    }
    forall u | u in s'.threads
      ensures FileOK(s', s'.threads[u])
    {
      assert u != t ==> !InMu(s.threads[u]);
    }
  }

  lemma StoredSnap(start: Snapshot, s: State, t: Tid, r: Request, id: Identity, made: Static, next: Snapshot,
                   s': State)
    requires LockInv(s) && StampInv(s) && AgreeInv(s) && ProofInv(s) && FileInv(s) && ChainInv(start, s)
    requires t in s.threads && s.threads[t] == Swapper(r, StoreSnap(id, made, next))
    requires s'.threads == s.threads[t := Swapper(r, Bump)] && s'.snap == next && s'.file == s.file
    requires s'.local == s.local
    requires s'.disturbed == s.disturbed && s'.mu == s.mu
    requires s'.log == s.log + [Change(t, r.target, r.proof, r.password, r.target in s.snap.people.local,
                                       Served(s.snap, r.target), Served(next, r.target))]
    ensures FileInv(s') && ChainInv(start, s')
  {
    assert FileOK(s, s.threads[t]) && AgreeOK(s, s.threads[t]) && ProofOK(s, s.threads[t]);
    assert StampOK(s.threads[t], s.readings);
    ReloadedOK(s.snap, made, s.readings);
    assert InMu(s.threads[t]) && Pending(s).None? && Pending(s').None?;
    forall n | n !in s'.disturbed
      ensures FileAgrees(s', n)
    {
      assert FileAgrees(s, n);
    }
    forall u | u in s'.threads
      ensures FileOK(s', s'.threads[u])
    {
      assert u != t ==> !InMu(s.threads[u]);
    }
    assert s'.log[..|s.log|] == s.log;
    forall n | n !in s'.disturbed
      ensures SnapView(s'.snap, n) == Expected(start, s'.log, n) && Chained(start, s'.log, n)
    {
      assert SnapView(next, n) == LocalView(made, n);
      if n == r.target {
        assert SnapView(s.snap, n) == Some(r.proof);
      }
    }
  }

  lemma InstallerFile(cfg: Config, start: Snapshot, s: State, t: Tid, left: nat, at: Installing, c: Choice, s': State)
    requires Steps(cfg, s, t, Installer(left, at), c, s')
    requires LockInv(s) && AgreeInv(s) && FileInv(s) && ChainInv(start, s)
    ensures FileInv(s') && ChainInv(start, s')
  {
    InstallerMoves(cfg, s, t, left, at, c, s');
    PendingKept(s, t, s');
    assert AgreeOK(s, s.threads[t]);
    assert InSwap(s.threads[t]) && Agrees(s.snap, s.local);
    forall n | n !in s'.disturbed
      ensures FileAgrees(s', n) && SnapView(s'.snap, n) == SnapView(s.snap, n)
    {
      assert FileAgrees(s, n);
    }
    forall u | u in s'.threads
      ensures FileOK(s', s'.threads[u])
    {
      assert u != t ==> FileOK(s, s.threads[u]) && !InSwap(s.threads[u]);
    }
  }

  lemma FileStep(cfg: Config, start: Snapshot, s: State, step: Step, s': State)
    requires LockInv(s) && StampInv(s) && AgreeInv(s) && ProofInv(s) && FileInv(s) && ChainInv(start, s)
    requires Next(cfg, s, step) == Some(s')
    ensures FileInv(s') && ChainInv(start, s')
  {
    match step
    case Tick(_) => assert Pending(s') == Pending(s); assert forall n :: FileAgrees(s', n) <==> FileAgrees(s, n);
      assert forall u :: u in s.threads ==> FileOK(s, s.threads[u]) ==> FileOK(s', s'.threads[u]);
    case Edit(file) => EditFile(start, s, file, s');
    case Start(t, pc) => StartFile(start, s, t, pc, s');
    case Go(t, c) => ThreadFile(cfg, start, s, t, s.threads[t], c, s');
  }

  lemma StartFile(start: Snapshot, s: State, t: Tid, pc: PC, s': State)
    requires LockInv(s) && FileInv(s) && ChainInv(start, s) && t !in s.threads && Starts(pc) && s' == At(s, t, pc)
    ensures FileInv(s') && ChainInv(start, s')
  {
    assert Pending(s') == Pending(s);
    forall n | n !in s'.disturbed
      ensures FileAgrees(s', n)
    {
      assert FileAgrees(s, n);
    }
    forall u | u in s'.threads
      ensures FileOK(s', s'.threads[u])
    {
      assert u != t ==> FileOK(s, s.threads[u]);
    }
  }

  lemma ThreadFile(cfg: Config, start: Snapshot, s: State, t: Tid, pc: PC, c: Choice, s': State)
    requires LockInv(s) && StampInv(s) && AgreeInv(s) && ProofInv(s) && FileInv(s) && ChainInv(start, s)
    requires Steps(cfg, s, t, pc, c, s')
    ensures FileInv(s') && ChainInv(start, s')
  {
    match pc
    case Locked(r, at) => LockedFile(cfg, start, s, t, r, at, c, s');
    case Swapper(r, at) => SwapperFile(cfg, start, s, t, r, at, c, s');
    case Installer(left, at) => InstallerFile(cfg, start, s, t, left, at, c, s');
    case Writer(r, at) => WriterIsQuiet(cfg, s, t, r, at, c, s'); PendingKept(s, t, s'); FileFramed(start, s, t, s');
    case Refreshing(left, at) =>
      RefreshingIsQuiet(cfg, s, t, left, at, c, s'); PendingKept(s, t, s'); FileFramed(start, s, t, s');
    case _ => ReaderIsQuiet(cfg, s, t, pc, c, s'); PendingKept(s, t, s'); FileFramed(start, s, t, s');
  }

  // ----- answers -----

  predicate Wrote(answer: Answer) { answer.Changed? || answer.ReloadFailed? }

  /** The points after the file was written, and those after the swap was made. */
  predicate HasWritten(pc: PC) {
    match pc
    case Locked(_, Load(_)) => true
    case Locked(_, SwapLock(_, _)) => true
    case Locked(_, Unlock(answer)) => Wrote(answer)
    case Swapper(_, Leave(answer)) => Wrote(answer)
    case Swapper(_, _) => true
    case Told(_, answer) => Wrote(answer)
    case _ => false
  }

  predicate HasSwapped(pc: PC) {
    match pc
    case Locked(_, Unlock(answer)) => answer.Changed?
    case Swapper(_, Leave(answer)) => answer.Changed?
    case Swapper(_, Bump) => true
    case Told(_, answer) => answer.Changed?
    case _ => false
  }

  function SwapsBy(log: seq<Change>, t: Tid): nat {
    if log == [] then 0 else SwapsBy(log[..|log| - 1], t) + if log[|log| - 1].who == t then 1 else 0
  }

  ghost predicate AnswerOK(s: State, t: Tid, pc: PC) {
    (t in s.wrote <==> HasWritten(pc)) && SwapsBy(s.log, t) == if HasSwapped(pc) then 1 else 0
  }

  ghost predicate AnswerInv(s: State) {
    && (forall t :: t in s.threads ==> AnswerOK(s, t, s.threads[t]))
    && (forall t :: t !in s.threads ==> t !in s.wrote && SwapsBy(s.log, t) == 0)
  }

  /** A step of t writes and swaps for t alone, and says so in its program counter. */
  ghost predicate AnswerMove(s: State, t: Tid, s': State) {
    && t in s.threads && t in s'.threads && s'.threads == s.threads[t := s'.threads[t]]
    && (if HasWritten(s'.threads[t]) == HasWritten(s.threads[t]) then s'.wrote == s.wrote
        else HasWritten(s'.threads[t]) && s'.wrote == s.wrote + {t})
    && (if HasSwapped(s'.threads[t]) == HasSwapped(s.threads[t]) then s'.log == s.log
        else
          && HasSwapped(s'.threads[t]) && |s'.log| == |s.log| + 1
          && s'.log[..|s.log|] == s.log && s'.log[|s.log|].who == t)
  }

  lemma AnswerKept(s: State, t: Tid, s': State)
    requires AnswerInv(s) && AnswerMove(s, t, s')
    ensures AnswerInv(s')
  {
    assert AnswerOK(s, t, s.threads[t]);
    forall u
      ensures u in s'.threads ==> AnswerOK(s', u, s'.threads[u])
      ensures u !in s'.threads ==> u !in s'.wrote && SwapsBy(s'.log, u) == 0
    {
      assert u in s.threads ==> AnswerOK(s, u, s.threads[u]);
    }
  }

  lemma LockedAnswer(cfg: Config, s: State, t: Tid, r: Request, at: Holding, c: Choice, s': State)
    requires Steps(cfg, s, t, Locked(r, at), c, s')
    ensures AnswerMove(s, t, s')
  {
  }

  lemma SwapperAnswer(cfg: Config, s: State, t: Tid, r: Request, at: Swapping, c: Choice, s': State)
    requires Steps(cfg, s, t, Swapper(r, at), c, s')
    ensures AnswerMove(s, t, s')
  {
  }

  lemma WriterAnswer(cfg: Config, s: State, t: Tid, r: Request, at: Asking, c: Choice, s': State)
    requires Steps(cfg, s, t, Writer(r, at), c, s')
    ensures AnswerMove(s, t, s')
  {
  }

  lemma AnswerStep(cfg: Config, s: State, step: Step, s': State)
    requires AnswerInv(s) && Next(cfg, s, step) == Some(s')
    ensures AnswerInv(s')
  {
    match step
    case Go(t, c) =>
      var pc := s.threads[t];
      match pc {
        case Writer(r, at) => WriterAnswer(cfg, s, t, r, at, c, s');
        case Locked(r, at) => LockedAnswer(cfg, s, t, r, at, c, s');
        case Swapper(r, at) => SwapperAnswer(cfg, s, t, r, at, c, s');
        case Refreshing(left, at) => RefreshingIsQuiet(cfg, s, t, left, at, c, s');
        case Installer(left, at) => InstallerMoves(cfg, s, t, left, at, c, s');
        case _ => ReaderIsQuiet(cfg, s, t, pc, c, s');
      }
      AnswerKept(s, t, s');
    case _ =>
      forall u | u in s.threads
        ensures AnswerOK(s', u, s'.threads[u])
      {
        assert AnswerOK(s, u, s.threads[u]);
      }
  }
}
