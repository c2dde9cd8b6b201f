/** How fresh the served data is: `built` over swaps, and over the two loads of one
    operation. */
module ProtocolFreshness {
  import opened Wrappers
  import opened Protocol
  import opened ProtocolInvariants

  ghost predicate BuiltOK(cfg: Config, s: State, pc: PC) {
    match pc
    case Refreshing(_, Await(_, sn)) => s.snap.built <= sn.built <= s.clock
    case Installer(_, Compare(_, sn)) => s.snap.built <= sn.built <= s.clock
    case Installer(_, Store(sn)) => s.snap.built <= sn.built <= s.clock
    case Reader(Aging(now)) => now <= s.clock
    case Reader(Answering(now, aged)) => now <= s.clock && aged.built <= s.snap.built && !Aged(cfg, now, aged)
    case Answered(now, aged, served) =>
      now <= s.clock && aged.built <= served.built <= s.snap.built && !Aged(cfg, now, aged)
    case _ => true
  }

  ghost predicate BuiltInv(cfg: Config, s: State) {
    && s.snap.built <= s.clock
    && (forall t :: t in s.threads ==> BuiltOK(cfg, s, s.threads[t]))
  }

  /** What a step of t may do to what freshness speaks of: only a refresh that swaps
      moves `built`, and only to when its own read ended. */
  ghost predicate BuiltMove(cfg: Config, s: State, t: Tid, s': State) {
    && t in s.threads && t in s'.threads && s'.threads == s.threads[t := s'.threads[t]] && s'.clock == s.clock
    && (s'.snap.built == s.snap.built ||
        (s.threads[t].Installer? && s.threads[t].installing.Store? && s'.snap == s.threads[t].installing.sn))
    && (s.snap.built <= s'.snap.built <= s'.clock ==> BuiltOK(cfg, s', s'.threads[t]))
  }

  lemma BuiltKept(cfg: Config, s: State, t: Tid, s': State)
    requires LockInv(s) && BuiltInv(cfg, s) && BuiltMove(cfg, s, t, s')
    ensures s.snap.built <= s'.snap.built && BuiltInv(cfg, s')
  {
    assert BuiltOK(cfg, s, s.threads[t]);
  }

  lemma LockedBuilt(cfg: Config, s: State, t: Tid, r: Request, at: Holding, c: Choice, s': State)
    requires Steps(cfg, s, t, Locked(r, at), c, s')
    ensures BuiltMove(cfg, s, t, s')
  {
  }

  lemma SwapperBuilt(cfg: Config, s: State, t: Tid, r: Request, at: Swapping, c: Choice, s': State)
    requires Steps(cfg, s, t, Swapper(r, at), c, s') && AgreeInv(s)
    ensures BuiltMove(cfg, s, t, s') && s'.snap.built == s.snap.built
  {
    assert AgreeOK(s, s.threads[t]);
  }

  lemma RefreshingBuilt(cfg: Config, s: State, t: Tid, left: nat, at: Reading, c: Choice, s': State)
    requires Steps(cfg, s, t, Refreshing(left, at), c, s') && BuiltInv(cfg, s)
    ensures BuiltMove(cfg, s, t, s')
  {
    assert BuiltOK(cfg, s, s.threads[t]);
  }

  lemma InstallerBuilt(cfg: Config, s: State, t: Tid, left: nat, at: Installing, c: Choice, s': State)
    requires Steps(cfg, s, t, Installer(left, at), c, s') && BuiltInv(cfg, s)
    ensures BuiltMove(cfg, s, t, s')
  {
    assert BuiltOK(cfg, s, s.threads[t]);
  }

  lemma ReaderBuilt(cfg: Config, s: State, t: Tid, at: Looking, c: Choice, s': State)
    requires Steps(cfg, s, t, Reader(at), c, s') && BuiltInv(cfg, s)
    ensures BuiltMove(cfg, s, t, s')
  {
    assert BuiltOK(cfg, s, s.threads[t]);
  }

  lemma ThreadBuilt(cfg: Config, s: State, t: Tid, pc: PC, c: Choice, s': State)
    requires Steps(cfg, s, t, pc, c, s') && AgreeInv(s) && BuiltInv(cfg, s)
    ensures BuiltMove(cfg, s, t, s')
  {
    match pc
    case Writer(r, at) => WriterIsQuiet(cfg, s, t, r, at, c, s');
    case Locked(r, at) => LockedBuilt(cfg, s, t, r, at, c, s');
    case Swapper(r, at) => SwapperBuilt(cfg, s, t, r, at, c, s');
    case Refreshing(left, at) => RefreshingBuilt(cfg, s, t, left, at, c, s');
    case Installer(left, at) => InstallerBuilt(cfg, s, t, left, at, c, s');
    case Reader(at) => ReaderBuilt(cfg, s, t, at, c, s');
    case _ => ReaderIsQuiet(cfg, s, t, pc, c, s');
  }

  lemma BuiltStep(cfg: Config, s: State, step: Step, s': State)
    requires LockInv(s) && AgreeInv(s) && BuiltInv(cfg, s) && Next(cfg, s, step) == Some(s')
    ensures BuiltInv(cfg, s') && s.snap.built <= s'.snap.built
  {
    match step
    case Go(t, c) =>
      ThreadBuilt(cfg, s, t, s.threads[t], c, s');
      BuiltKept(cfg, s, t, s');
    case _ =>
  }
}
