/** What every step of the snapshot protocol keeps. */
module ProtocolInvariants {
  import opened Wrappers
  import opened Rosters
  import opened Protocol

  // ----- locks -----

  ghost predicate LockInv(s: State) {
    && (forall t :: t in s.threads ==> (InMu(s.threads[t]) <==> s.mu == Some(t)))
    && (forall t :: t in s.threads ==> (InSwap(s.threads[t]) <==> s.swapMu == Some(t)))
    && (s.mu.Some? ==> s.mu.value in s.threads)
    && (s.swapMu.Some? ==> s.swapMu.value in s.threads)
    && (forall t :: t in s.threads && InRefresh(s.threads[t]) ==> s.refreshing)
    && (forall t, u ::
          t in s.threads && u in s.threads && InRefresh(s.threads[t]) && InRefresh(s.threads[u]) ==> t == u)
  }

  /** How a step of t that leaves it at pc may change the locks. */
  ghost predicate LocksMove(s: State, t: Tid, pc: PC, s': State) {
    && s'.threads == s.threads[t := pc]
    && (if s'.mu == s.mu then InMu(pc) == (t in s.threads && InMu(s.threads[t]))
        else if s'.mu == None then t in s.threads && InMu(s.threads[t]) && !InMu(pc)
        else s.mu == None && s'.mu == Some(t) && InMu(pc))
    && (if s'.swapMu == s.swapMu then InSwap(pc) == (t in s.threads && InSwap(s.threads[t]))
        else if s'.swapMu == None then t in s.threads && InSwap(s.threads[t]) && !InSwap(pc)
        else s.swapMu == None && s'.swapMu == Some(t) && InSwap(pc))
    && (if s'.refreshing == s.refreshing then InRefresh(pc) == (t in s.threads && InRefresh(s.threads[t]))
        else if s'.refreshing then InRefresh(pc)
        else t in s.threads && InRefresh(s.threads[t]) && !InRefresh(pc))
  }

  lemma LocksKept(s: State, t: Tid, pc: PC, s': State)
    requires LockInv(s) && LocksMove(s, t, pc, s')
    ensures LockInv(s')
  {
  }

  lemma LockStep(cfg: Config, s: State, step: Step, s': State)
    requires LockInv(s) && Next(cfg, s, step) == Some(s')
    ensures LockInv(s')
  {
    if step.Start? {
      LocksKept(s, step.t, step.pc, s');
    } else if step.Go? {
      ThreadLocks(cfg, s, step.t, s.threads[step.t], step.c, s');
      LocksKept(s, step.t, s'.threads[step.t], s');
    }
  }

  ghost predicate Steps(cfg: Config, s: State, t: Tid, pc: PC, c: Choice, s': State) {
    t in s.threads && s.threads[t] == pc && StepThread(cfg, s, t, pc, c) == Some(s')
  }

  lemma ThreadLocks(cfg: Config, s: State, t: Tid, pc: PC, c: Choice, s': State)
    requires Steps(cfg, s, t, pc, c, s') && LockInv(s)
    ensures t in s'.threads && LocksMove(s, t, s'.threads[t], s')
  {
    match pc
    case Writer(r, at) => WriterIsQuiet(cfg, s, t, r, at, c, s');
    case Locked(r, at) => LockedLocks(cfg, s, t, r, at, c, s');
    case Swapper(r, at) => SwapperLocks(cfg, s, t, r, at, c, s');
    case Refreshing(left, at) => RefreshingLocks(cfg, s, t, left, at, c, s');
    case Installer(left, at) => InstallerLocks(cfg, s, t, left, at, c, s');
    case _ => ReaderIsQuiet(cfg, s, t, pc, c, s');
  }

  /** A reader, and a refresh being started, move nothing the people depend on. */
  lemma ReaderIsQuiet(cfg: Config, s: State, t: Tid, pc: PC, c: Choice, s': State)
    requires Steps(cfg, s, t, pc, c, s') && (pc.Reader? || pc.Refresher?)
    ensures t in s'.threads && s' == s.(threads := s.threads[t := s'.threads[t]], refreshing := s'.refreshing)
    ensures if pc.Reader?
            then
              && s'.refreshing == s.refreshing
              && (s'.threads[t].Reader? || s'.threads[t].TooOld? || s'.threads[t].Answered?)
            else if s'.refreshing == s.refreshing then s'.threads[t] == Refreshed(false)
            else s'.refreshing && s'.threads[t] == Refreshing(3, Gen)
  {
  }

  /** Before s.mu only the thread itself moves. */
  lemma WriterIsQuiet(cfg: Config, s: State, t: Tid, r: Request, at: Asking, c: Choice, s': State)
    requires Steps(cfg, s, t, Writer(r, at), c, s')
    ensures t in s'.threads && s' == s.(threads := s.threads[t := s'.threads[t]], mu := s'.mu)
    ensures if at.Lock? then s.mu == None && s'.mu == Some(t) && s'.threads[t] == Locked(r, Check(at.id))
            else s'.mu == s.mu && (s'.threads[t].Writer? || s'.threads[t].Told?)
  {
  }

  lemma LockedLocks(cfg: Config, s: State, t: Tid, r: Request, at: Holding, c: Choice, s': State)
    requires Steps(cfg, s, t, Locked(r, at), c, s') && LockInv(s)
    ensures t in s'.threads && LocksMove(s, t, s'.threads[t], s')
  {
  }

  lemma SwapperLocks(cfg: Config, s: State, t: Tid, r: Request, at: Swapping, c: Choice, s': State)
    requires Steps(cfg, s, t, Swapper(r, at), c, s') && LockInv(s)
    ensures t in s'.threads && LocksMove(s, t, s'.threads[t], s')
  {
  }

  lemma RefreshingLocks(cfg: Config, s: State, t: Tid, left: nat, at: Reading, c: Choice, s': State)
    requires Steps(cfg, s, t, Refreshing(left, at), c, s') && LockInv(s)
    ensures t in s'.threads && LocksMove(s, t, s'.threads[t], s')
  {
  }

  lemma InstallerLocks(cfg: Config, s: State, t: Tid, left: nat, at: Installing, c: Choice, s': State)
    requires Steps(cfg, s, t, Installer(left, at), c, s') && LockInv(s)
    ensures t in s'.threads && LocksMove(s, t, s'.threads[t], s')
  {
  }

  // ----- identities and the readings that made them -----

  ghost predicate StaticOK(st: Static, readings: nat) {
    && st.reading < readings
    && forall n :: n in st.people ==> st.people[n].name == n && st.people[n].born == FromFile(st.reading)
  }

  ghost predicate OthersOK(others: map<string, Identity>) {
    forall n :: n in others ==> others[n].name == n && others[n].born.FromSource?
  }

  /** A snapshot's roster is the file's people as of one reading, over the other
      sources' people the file has not held since they were read. */
  ghost predicate SnapOK(sn: Snapshot) {
    && OthersOK(sn.origin.others)
    && sn.people.local <= sn.origin.everLocal
    && (forall n :: n in sn.people.local ==> n in sn.people.byName)
    && (forall n :: n in sn.people.byName <==>
          n in sn.people.local || (n in sn.origin.others && n !in sn.origin.everLocal))
    && (forall n :: n in sn.people.byName && n in sn.people.local ==>
          sn.people.byName[n].name == n && sn.people.byName[n].born == FromFile(sn.origin.reading))
    && (forall n :: n in sn.people.byName && n !in sn.people.local ==> sn.people.byName[n] == sn.origin.others[n])
  }

  ghost predicate StampOK(pc: PC, readings: nat) {
    match pc
    case Locked(_, SwapLock(_, made)) => StaticOK(made, readings)
    case Swapper(_, Rebuild(_, made)) => StaticOK(made, readings)
    case Swapper(_, StoreLocal(_, made, _)) => StaticOK(made, readings)
    case Swapper(_, StoreSnap(_, made, _)) => StaticOK(made, readings)
    case Refreshing(_, Others(_, ids)) => StaticOK(ids, readings)
    case Refreshing(_, Names(_, ids, others)) => StaticOK(ids, readings) && OthersOK(others)
    case Refreshing(_, Build(_, ids, others, _)) => StaticOK(ids, readings) && OthersOK(others)
    case _ => true
  }

  ghost predicate StampInv(s: State) {
    && StaticOK(s.local, s.readings)
    && (forall t :: t in s.threads ==> StampOK(s.threads[t], s.readings))
  }

  lemma StampStep(cfg: Config, s: State, step: Step, s': State)
    requires StampInv(s) && Next(cfg, s, step) == Some(s')
    ensures StampInv(s')
  {
    if step.Go? {
      var t, c := step.t, step.c;
      match s.threads[t] {
        case Writer(r, at) => WriterIsQuiet(cfg, s, t, r, at, c, s');
        case Locked(r, at) => LockedStamps(cfg, s, t, r, at, c, s');
        case Swapper(r, at) => SwapperStamps(cfg, s, t, r, at, c, s');
        case Refreshing(left, at) => RefreshingStamps(cfg, s, t, left, at, c, s');
        case _ =>
      }
    }
  }

  ghost predicate StampsMove(s: State, t: Tid, s': State) {
    && t in s'.threads && s'.threads == s.threads[t := s'.threads[t]]
    && s.readings <= s'.readings && StaticOK(s'.local, s'.readings) && StampOK(s'.threads[t], s'.readings)
  }

  lemma LockedStamps(cfg: Config, s: State, t: Tid, r: Request, at: Holding, c: Choice, s': State)
    requires Steps(cfg, s, t, Locked(r, at), c, s') && StampInv(s)
    ensures StampsMove(s, t, s')
  {
  }

  lemma SwapperStamps(cfg: Config, s: State, t: Tid, r: Request, at: Swapping, c: Choice, s': State)
    requires Steps(cfg, s, t, Swapper(r, at), c, s') && StampInv(s)
    ensures StampsMove(s, t, s')
  {
  }

  lemma RefreshingStamps(cfg: Config, s: State, t: Tid, left: nat, at: Reading, c: Choice, s': State)
    requires Steps(cfg, s, t, Refreshing(left, at), c, s') && StampInv(s)
    ensures StampsMove(s, t, s')
  {
  }

  // ----- the served snapshot and the file's people -----

  /** The file's people a snapshot serves are exactly those of a Static. */
  ghost predicate Agrees(sn: Snapshot, st: Static) {
    && sn.people.local == st.people.Keys
    && sn.origin.reading == st.reading
    && forall n :: n in st.people ==> n in sn.people.byName && sn.people.byName[n] == st.people[n]
  }

  /** The thread that holds swapMu is between its store of local.p and its store of snap. */
  ghost predicate Between(s: State) {
    s.swapMu.Some? && s.swapMu.value in s.threads && s.threads[s.swapMu.value].Swapper? &&
    s.threads[s.swapMu.value].swapping.StoreSnap?
  }

  /** ... or between its store of local.p and its addition to gen. */
  ghost predicate Storing(s: State) {
    s.swapMu.Some? && s.swapMu.value in s.threads && s.threads[s.swapMu.value].Swapper? &&
    (s.threads[s.swapMu.value].swapping.StoreSnap? || s.threads[s.swapMu.value].swapping.Bump?)
  }

  /** No password change has been swapped in, or begun to be, since gen was g. */
  ghost predicate Current(s: State, g: nat) {
    g == s.gen && !Storing(s)
  }

  ghost predicate AgreeOK(s: State, pc: PC) {
    match pc
    case Locked(_, SwapLock(_, made)) => s.local.reading < made.reading
    case Swapper(_, Rebuild(_, made)) => s.local.reading < made.reading
    case Swapper(_, StoreLocal(_, made, next)) => s.local.reading < made.reading && next == Reloaded(s.snap, made)
    case Swapper(_, StoreSnap(_, made, next)) =>
      s.snap.origin.reading < made.reading && s.local == made && next == Reloaded(s.snap, made)
    case Refreshing(_, Ids(g)) => g <= s.gen
    case Refreshing(_, Others(g, ids)) => g <= s.gen && (Current(s, g) ==> ids == s.local)
    case Refreshing(_, Names(g, ids, _)) => g <= s.gen && (Current(s, g) ==> ids == s.local)
    case Refreshing(_, Build(g, ids, _, names)) =>
      g <= s.gen && (Current(s, g) ==> ids == s.local && names == s.local.people.Keys)
    case Refreshing(_, Await(g, sn)) => g <= s.gen && (Current(s, g) ==> Agrees(sn, s.local) && SnapOK(sn))
    case Installer(_, Compare(g, sn)) => g <= s.gen && (Current(s, g) ==> Agrees(sn, s.local) && SnapOK(sn))
    case Installer(_, Store(sn)) => Agrees(sn, s.local) && SnapOK(sn)
    case _ => true
  }

  ghost predicate AgreeInv(s: State) {
    && SnapOK(s.snap)
    && (!Between(s) ==> Agrees(s.snap, s.local))
    && (forall t :: t in s.threads ==> AgreeOK(s, s.threads[t]))
  }

  lemma ReloadedOK(before: Snapshot, made: Static, readings: nat)
    requires SnapOK(before) && StaticOK(made, readings)
    ensures SnapOK(Reloaded(before, made)) && Agrees(Reloaded(before, made), made)
  {
  }

  lemma ReadOK(ids: Static, others: map<string, Identity>, groups: Groups, built: Time, readings: nat)
    requires StaticOK(ids, readings) && OthersOK(others)
    ensures var sn := Snapshot(Roster(Merged(ids.people, others), ids.people.Keys), groups, built,
                               Origin(others, ids.reading, ids.people.Keys));
            SnapOK(sn) && Agrees(sn, ids)
  {
  }

  /** A step that touches none of what the agreement speaks of. */
  ghost predicate AgreeFrame(s: State, t: Tid, s': State) {
    && t in s'.threads && s'.threads == s.threads[t := s'.threads[t]]
    && s'.local == s.local && s'.snap == s.snap && s'.gen == s.gen
    && (Storing(s') <==> Storing(s)) && (Between(s') <==> Between(s))
  }

  lemma StageKept(s: State, t: Tid, s': State)
    requires LockInv(s) && t in s.threads && t in s'.threads && s'.threads == s.threads[t := s'.threads[t]]
    requires !s.threads[t].Swapper? && !s'.threads[t].Swapper? && s'.swapMu == s.swapMu
    ensures (Storing(s') <==> Storing(s)) && (Between(s') <==> Between(s))
  {
  }

  lemma QuietAgrees(s: State, t: Tid, s': State)
    requires AgreeInv(s) && AgreeFrame(s, t, s') && AgreeOK(s, s'.threads[t])
    ensures AgreeInv(s')
  {
  }

  lemma AgreeStep(cfg: Config, s: State, step: Step, s': State)
    requires LockInv(s) && StampInv(s) && AgreeInv(s) && Next(cfg, s, step) == Some(s')
    ensures AgreeInv(s')
  {
    if step.Start? {
      assert Storing(s') <==> Storing(s);
      QuietAgrees(s, step.t, s');
    } else if step.Go? {
      ThreadAgrees(cfg, s, step.t, s.threads[step.t], step.c, s');
    }
  }

  lemma ThreadAgrees(cfg: Config, s: State, t: Tid, pc: PC, c: Choice, s': State)
    requires Steps(cfg, s, t, pc, c, s') && LockInv(s) && StampInv(s) && AgreeInv(s)
    ensures AgreeInv(s')
  {
    match pc
    case Swapper(r, at) => SwapperAgrees(cfg, s, t, r, at, c, s');
    case Installer(left, at) => InstallerAgrees(cfg, s, t, left, at, c, s');
    case _ => OtherAgrees(cfg, s, t, pc, c, s'); QuietAgrees(s, t, s');
  }

  lemma OtherAgrees(cfg: Config, s: State, t: Tid, pc: PC, c: Choice, s': State)
    requires Steps(cfg, s, t, pc, c, s') && LockInv(s) && StampInv(s) && AgreeInv(s) && !pc.Swapper? && !pc.Installer?
    ensures AgreeFrame(s, t, s') && AgreeOK(s, s'.threads[t])
  {
    match pc
    case Writer(r, at) => WriterIsQuiet(cfg, s, t, r, at, c, s'); StageKept(s, t, s');
    case Locked(r, at) => LockedAgrees(cfg, s, t, r, at, c, s');
    case Refreshing(left, at) => RefreshingAgrees(cfg, s, t, left, at, c, s');
    case _ => ReaderIsQuiet(cfg, s, t, pc, c, s'); StageKept(s, t, s');
  }

  lemma LockedAgrees(cfg: Config, s: State, t: Tid, r: Request, at: Holding, c: Choice, s': State)
    requires Steps(cfg, s, t, Locked(r, at), c, s') && LockInv(s) && StampInv(s) && AgreeInv(s)
    ensures AgreeFrame(s, t, s') && AgreeOK(s, s'.threads[t])
  {
    if at.SwapLock? {
      SwapLockAgrees(cfg, s, t, r, at, c, s');
    } else {
      LockedOtherwise(cfg, s, t, r, at, c, s');
    }
  }

  lemma SwapLockAgrees(cfg: Config, s: State, t: Tid, r: Request, at: Holding, c: Choice, s': State)
    requires at.SwapLock? && Steps(cfg, s, t, Locked(r, at), c, s') && LockInv(s) && StampInv(s) && AgreeInv(s)
    ensures AgreeFrame(s, t, s') && AgreeOK(s, s'.threads[t])
  {
    assert AgreeOK(s, s.threads[t]);
  }

  lemma LockedOtherwise(cfg: Config, s: State, t: Tid, r: Request, at: Holding, c: Choice, s': State)
    requires !at.SwapLock? && Steps(cfg, s, t, Locked(r, at), c, s') && LockInv(s) && StampInv(s) && AgreeInv(s)
    ensures AgreeFrame(s, t, s') && AgreeOK(s, s'.threads[t])
  {
    StageKept(s, t, s');
    if at.Load? {
      LoadAgrees(s, t, r, at.id, c, s');
    }
  }

  lemma LoadAgrees(s: State, t: Tid, r: Request, id: Identity, c: Choice, s': State)
    requires StampInv(s) && t in s'.threads && StepLocked(s, t, r, Load(id), c) == Some(s')
    ensures AgreeOK(s, s'.threads[t])
  {
  }

  lemma SwapperAgrees(cfg: Config, s: State, t: Tid, r: Request, at: Swapping, c: Choice, s': State)
    requires Steps(cfg, s, t, Swapper(r, at), c, s') && LockInv(s) && StampInv(s) && AgreeInv(s)
    ensures AgreeInv(s')
  {
    match at
    case Rebuild(id, made) => RebuildAgrees(cfg, s, t, r, at, c, s');
    case StoreLocal(id, made, next) => StoreLocalAgrees(cfg, s, t, r, at, c, s');
    case StoreSnap(id, made, next) => StoreSnapAgrees(cfg, s, t, r, at, c, s');
    case Bump => BumpAgrees(cfg, s, t, r, at, c, s');
    case Leave(answer) => LeaveAgrees(cfg, s, t, r, at, c, s');
  }

  lemma RebuildAgrees(cfg: Config, s: State, t: Tid, r: Request, at: Swapping, c: Choice, s': State)
    requires at.Rebuild? && Steps(cfg, s, t, Swapper(r, at), c, s') && LockInv(s) && StampInv(s) && AgreeInv(s)
    ensures AgreeInv(s')
  {
    assert AgreeOK(s, s.threads[t]);
    assert AgreeFrame(s, t, s');
    QuietAgrees(s, t, s');
  }

  lemma LeaveAgrees(cfg: Config, s: State, t: Tid, r: Request, at: Swapping, c: Choice, s': State)
    requires at.Leave? && Steps(cfg, s, t, Swapper(r, at), c, s') && LockInv(s) && StampInv(s) && AgreeInv(s)
    ensures AgreeInv(s')
  {
    assert AgreeFrame(s, t, s');
    QuietAgrees(s, t, s');
  }

  lemma StoreLocalAgrees(cfg: Config, s: State, t: Tid, r: Request, at: Swapping, c: Choice, s': State)
    requires at.StoreLocal? && Steps(cfg, s, t, Swapper(r, at), c, s') && LockInv(s) && StampInv(s) && AgreeInv(s)
    ensures AgreeInv(s')
  {
  }

  lemma StoreSnapAgrees(cfg: Config, s: State, t: Tid, r: Request, at: Swapping, c: Choice, s': State)
    requires at.StoreSnap? && Steps(cfg, s, t, Swapper(r, at), c, s') && LockInv(s) && StampInv(s) && AgreeInv(s)
    ensures AgreeInv(s')
  {
    ReloadedOK(s.snap, at.made, s.readings);
  }

  lemma BumpAgrees(cfg: Config, s: State, t: Tid, r: Request, at: Swapping, c: Choice, s': State)
    requires at.Bump? && Steps(cfg, s, t, Swapper(r, at), c, s') && LockInv(s) && StampInv(s) && AgreeInv(s)
    ensures AgreeInv(s')
  {
  }

  lemma RefreshingAgrees(cfg: Config, s: State, t: Tid, left: nat, at: Reading, c: Choice, s': State)
    requires Steps(cfg, s, t, Refreshing(left, at), c, s') && LockInv(s) && StampInv(s) && AgreeInv(s)
    ensures AgreeFrame(s, t, s') && AgreeOK(s, s'.threads[t])
  {
    match at
    case Build(g, ids, others, names) => BuildAgrees(cfg, s, t, left, at, c, s');
    case Await(g, sn) => AwaitAgrees(cfg, s, t, left, at, c, s');
    case _ => ReadingAgrees(cfg, s, t, left, at, c, s');
  }

  lemma AwaitAgrees(cfg: Config, s: State, t: Tid, left: nat, at: Reading, c: Choice, s': State)
    requires at.Await? && Steps(cfg, s, t, Refreshing(left, at), c, s') && LockInv(s) && StampInv(s) && AgreeInv(s)
    ensures AgreeFrame(s, t, s') && AgreeOK(s, s'.threads[t])
  {
    assert AgreeOK(s, s.threads[t]);
  }

  lemma ReadingAgrees(cfg: Config, s: State, t: Tid, left: nat, at: Reading, c: Choice, s': State)
    requires !at.Await? && !at.Build? && Steps(cfg, s, t, Refreshing(left, at), c, s')
    requires LockInv(s) && StampInv(s) && AgreeInv(s)
    ensures AgreeFrame(s, t, s') && AgreeOK(s, s'.threads[t])
  {
    StageKept(s, t, s');
    assert AgreeOK(s, s.threads[t]);
  }

  lemma BuildAgrees(cfg: Config, s: State, t: Tid, left: nat, at: Reading, c: Choice, s': State)
    requires at.Build? && Steps(cfg, s, t, Refreshing(left, at), c, s') && LockInv(s) && StampInv(s) && AgreeInv(s)
    ensures AgreeFrame(s, t, s') && AgreeOK(s, s'.threads[t])
  {
    StageKept(s, t, s');
    ReadOK(at.ids, at.others, c.groups, s.clock, s.readings);
  }

  lemma InstallerAgrees(cfg: Config, s: State, t: Tid, left: nat, at: Installing, c: Choice, s': State)
    requires Steps(cfg, s, t, Installer(left, at), c, s') && LockInv(s) && StampInv(s) && AgreeInv(s)
    ensures AgreeInv(s')
  {
  }
}
