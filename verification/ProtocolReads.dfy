/** What a refresh reads (refresh.go): that the groups and the age of what is served are of
    one read, how often a refresh reads, and why it ends with nothing swapped in. */
module ProtocolReads {
  import opened Wrappers
  import opened Rosters
  import opened Protocol
  import opened ProtocolInvariants
  import opened ProtocolChanges
  import opened ProtocolTheorems
  import opened ProtocolAccess

  // ----- groups and built are of one read -----

  /** The snapshot a refresh has built and not stored. */
  function InHand(pc: PC): Option<Snapshot> {
    match pc
    case Refreshing(_, Await(_, sn)) => Some(sn)
    case Installer(_, Compare(_, sn)) => Some(sn)
    case Installer(_, Store(sn)) => Some(sn)
    case _ => None
  }

  /** A snapshot served, or about to be, has these groups and this age. */
  ghost predicate Has(s: State, groups: Groups, built: Time) {
    || (s.snap.groups == groups && s.snap.built == built)
    || (exists t :: t in s.threads && InHand(s.threads[t]).Some? &&
          InHand(s.threads[t]).value.groups == groups && InHand(s.threads[t]).value.built == built)
  }

  /** The step ends the read of every source, and this is what the groups were and when. */
  predicate ReadsThese(x: State, step: Step, groups: Groups, built: Time) {
    && step.Go? && step.t in x.threads && x.threads[step.t].Refreshing? && x.threads[step.t].reading.Build?
    && step.c.yes && step.c.groups == groups && x.clock == built
  }

  ghost predicate WasRead(cfg: Config, s: State, steps: seq<Step>, groups: Groups, built: Time) {
    exists k, x ::
      0 <= k < |steps| && Run(cfg, s, steps[..k]) == Some(x) && ReadsThese(x, steps[k], groups, built)
  }

  lemma SwapperKeepsGroups(cfg: Config, s: State, t: Tid, r: Request, at: Swapping, c: Choice, s': State)
    requires Steps(cfg, s, t, Swapper(r, at), c, s') && AgreeInv(s)
    ensures s'.snap.groups == s.snap.groups && s'.snap.built == s.snap.built
    ensures t in s'.threads && s'.threads == s.threads[t := s'.threads[t]] && InHand(s'.threads[t]).None?
  {
    assert AgreeOK(s, s.threads[t]);
  }

  lemma LockedKeepsGroups(cfg: Config, s: State, t: Tid, r: Request, at: Holding, c: Choice, s': State)
    requires Steps(cfg, s, t, Locked(r, at), c, s')
    ensures s'.snap == s.snap && t in s'.threads && s'.threads == s.threads[t := s'.threads[t]]
    ensures InHand(s'.threads[t]).None?
  {
  }

  lemma RefreshingReads(cfg: Config, s: State, t: Tid, left: nat, at: Reading, c: Choice, s': State)
    requires Steps(cfg, s, t, Refreshing(left, at), c, s')
    ensures t in s'.threads
    ensures InHand(s'.threads[t]).Some? ==>
              || InHand(s'.threads[t]) == InHand(s.threads[t])
              || ReadsThese(s, Go(t, c), InHand(s'.threads[t]).value.groups, InHand(s'.threads[t]).value.built)
  {
  }

  lemma InstallerInstalls(cfg: Config, s: State, t: Tid, left: nat, at: Installing, c: Choice, s': State)
    requires Steps(cfg, s, t, Installer(left, at), c, s')
    ensures t in s'.threads && (InHand(s'.threads[t]).Some? ==> InHand(s'.threads[t]) == InHand(s.threads[t]))
    ensures s'.snap == s.snap || InHand(s.threads[t]) == Some(s'.snap)
  {
  }

  /** A step brings in groups and an age only by reading them. */
  lemma HasStep(cfg: Config, start: Snapshot, s: State, step: Step, s': State, groups: Groups, built: Time)
    requires Inv(cfg, start, s) && Next(cfg, s, step) == Some(s') && Has(s', groups, built)
    ensures Has(s, groups, built) || ReadsThese(s, step, groups, built)
  {
    if step.Go? {
      var t, c, pc := step.t, step.c, s.threads[step.t];
      match pc {
        case Writer(r, at) => WriterIsQuiet(cfg, s, t, r, at, c, s');
        case Locked(r, at) => LockedKeepsGroups(cfg, s, t, r, at, c, s');
        case Swapper(r, at) => SwapperKeepsGroups(cfg, s, t, r, at, c, s');
        case Refreshing(left, at) =>
          RefreshingIsQuiet(cfg, s, t, left, at, c, s');
          RefreshingReads(cfg, s, t, left, at, c, s');
        case Installer(left, at) =>
          InstallerMoves(cfg, s, t, left, at, c, s');
          InstallerInstalls(cfg, s, t, left, at, c, s');
        case _ => ReaderIsQuiet(cfg, s, t, pc, c, s');
      }
    }
  }

  lemma {:induction false} HasRun(cfg: Config, start: Snapshot, s: State, steps: seq<Step>, s': State, groups: Groups,
                                  built: Time)
    requires Inv(cfg, start, s) && Run(cfg, s, steps) == Some(s') && Has(s', groups, built)
    ensures Has(s, groups, built) || WasRead(cfg, s, steps, groups, built)
    decreases |steps|
  {
    if steps != [] {
      var next := Next(cfg, s, steps[0]).value;
      InvStep(cfg, start, s, steps[0], next);
      HasRun(cfg, start, next, steps[1..], s', groups, built);
      if Has(next, groups, built) {
        HasStep(cfg, start, s, steps[0], next, groups, built);
        assert Run(cfg, s, steps[..0]) == Some(s);
      } else {
        ReadLater(cfg, s, steps, next, groups, built);
      }
    }
  }

  lemma ReadLater(cfg: Config, s: State, steps: seq<Step>, next: State, groups: Groups, built: Time)
    requires steps != [] && Next(cfg, s, steps[0]) == Some(next) && WasRead(cfg, next, steps[1..], groups, built)
    ensures WasRead(cfg, s, steps, groups, built)
  {
    var k, x :| 0 <= k < |steps[1..]| && Run(cfg, next, steps[1..][..k]) == Some(x) &&
                ReadsThese(x, steps[1..][k], groups, built);
    assert steps[..k + 1][0] == steps[0] && steps[..k + 1][1..] == steps[1..][..k] && steps[1..][k] == steps[k + 1];
  }

  /** In every run, the served groups are those the server started with, or those a refresh
      read, and built is the time that very read ended: a password change moves neither. */
  lemma ServedGroupsWereRead(cfg: Config, s: State, steps: seq<Step>, s': State)
    requires Init(cfg, s) && Run(cfg, s, steps) == Some(s')
    ensures || (s'.snap.groups == s.snap.groups && s'.snap.built == s.snap.built)
            || WasRead(cfg, s, steps, s'.snap.groups, s'.snap.built)
  {
    InitHolds(cfg, s);
    HasRun(cfg, s.snap, s, steps, s', s'.snap.groups, s'.snap.built);
  }

  /** Only the store of a refresh moves the served groups, to those of the snapshot it read. */
  lemma OnlyARefreshMovesGroups(cfg: Config, start: Snapshot, s: State, step: Step, s': State)
    requires Inv(cfg, start, s) && Next(cfg, s, step) == Some(s') && s'.snap.groups != s.snap.groups
    ensures step.Go? && step.t in s.threads && s.threads[step.t].Installer? && s.threads[step.t].installing.Store?
    ensures s'.snap == s.threads[step.t].installing.sn
  {
    var t, c, pc := step.t, step.c, s.threads[step.t];
    match pc
    case Writer(r, at) => WriterIsQuiet(cfg, s, t, r, at, c, s');
    case Locked(r, at) => LockedKeepsGroups(cfg, s, t, r, at, c, s');
    case Swapper(r, at) => SwapperKeepsGroups(cfg, s, t, r, at, c, s');
    case Refreshing(left, at) => RefreshingIsQuiet(cfg, s, t, left, at, c, s');
    case Installer(left, at) => InstallerMoves(cfg, s, t, left, at, c, s');
    case _ => ReaderIsQuiet(cfg, s, t, pc, c, s');
  }

  // ----- how often a refresh reads -----

  /** t asks the other sources in this step. */
  predicate Reads(x: State, step: Step, t: Tid) {
    step.Go? && step.t == t && t in x.threads && x.threads[t].Refreshing? && x.threads[t].reading.Others?
  }

  /** How often t asks them in a run. */
  ghost function ReadsBy(cfg: Config, s: State, steps: seq<Step>, t: Tid): nat
    requires Run(cfg, s, steps).Some?
    decreases |steps|
  {
    if steps == [] then 0
    else (if Reads(s, steps[0], t) then 1 else 0) + ReadsBy(cfg, Next(cfg, s, steps[0]).value, steps[1..], t)
  }

  /** How often a refresh under way has asked; nothing is said of one that has ended. */
  function AskedSoFar(pc: PC): Option<int> {
    match pc
    case Refreshing(left, Ids(_)) => Some(2 - left)
    case Refreshing(left, Others(_, _)) => Some(2 - left)
    case Refreshing(left, End(_)) => None
    case Refreshing(left, _) => Some(3 - left)
    case Installer(left, _) => Some(3 - left)
    case Refreshed(_) => None
    case _ => Some(0)
  }

  function AskedBy(s: State, t: Tid): Option<int> {
    if t in s.threads then AskedSoFar(s.threads[t]) else Some(0)
  }

  lemma AskedStep(cfg: Config, s: State, step: Step, s': State, t: Tid)
    requires Next(cfg, s, step) == Some(s') && AskedBy(s', t).Some?
    ensures AskedBy(s, t).Some?
    ensures AskedBy(s', t).value == AskedBy(s, t).value + if Reads(s, step, t) then 1 else 0
  {
    if step.Go? && step.t == t {
      var c, pc := step.c, s.threads[t];
      match pc {
        case Writer(r, at) => WriterIsQuiet(cfg, s, t, r, at, c, s');
        case Locked(r, at) => LockedStays(cfg, s, t, r, at, c, s');
        case Swapper(r, at) => SwapperStays(cfg, s, t, r, at, c, s');
        case Refreshing(left, at) => RefreshingAsks(cfg, s, t, left, at, c, s');
        case Installer(left, at) => InstallerAsks(cfg, s, t, left, at, c, s');
        case _ => ReaderIsQuiet(cfg, s, t, pc, c, s');
      }
    } else if !(step.Start? && step.t == t) {
      OnlyItMoves(cfg, s, step, s', t);
    }
  }

  lemma RefreshingAsks(cfg: Config, s: State, t: Tid, left: nat, at: Reading, c: Choice, s': State)
    requires Steps(cfg, s, t, Refreshing(left, at), c, s') && AskedBy(s', t).Some?
    ensures AskedSoFar(Refreshing(left, at)).Some?
    ensures AskedBy(s', t).value == AskedSoFar(Refreshing(left, at)).value + if at.Others? then 1 else 0
  {
  }

  lemma InstallerAsks(cfg: Config, s: State, t: Tid, left: nat, at: Installing, c: Choice, s': State)
    requires Steps(cfg, s, t, Installer(left, at), c, s') && AskedBy(s', t).Some?
    ensures AskedBy(s', t).value == 3 - left
  {
  }

  lemma {:induction false} AskedRun(cfg: Config, s: State, steps: seq<Step>, s': State, t: Tid)
    requires Run(cfg, s, steps) == Some(s') && AskedBy(s', t).Some?
    ensures AskedBy(s, t).Some? && AskedBy(s', t).value == AskedBy(s, t).value + ReadsBy(cfg, s, steps, t)
    decreases |steps|
  {
    if steps != [] {
      var next := Next(cfg, s, steps[0]).value;
      AskedRun(cfg, next, steps[1..], s', t);
      AskedStep(cfg, s, steps[0], next, t);
    }
  }

  // ----- why a refresh swaps nothing in -----

  predicate IsUnswapped(pc: PC) {
    pc == Refreshed(false) || (pc.Refreshing? && pc.reading == End(false))
  }

  /** Another refresh is running, a source could not be read, two of its names clash, or it
      has read three times and a password was written under each. */
  ghost predicate WhyUnswapped(cfg: Config, s: State, steps: seq<Step>, k: nat, x: State, t: Tid)
    requires k < |steps| && Run(cfg, s, steps[..k]) == Some(x) && t in x.threads && steps[k].Go?
  {
    match x.threads[t]
    case Refresher => x.refreshing
    case Refreshing(_, Others(_, _)) => !steps[k].c.yes
    case Refreshing(_, Build(_, ids, others, _)) =>
      !steps[k].c.yes || !Apart(cfg.key, Merged(ids.people, others).Keys)
    case Refreshing(_, Gen) => ReadsBy(cfg, s, steps[..k], t) == 3
    case _ => false
  }

  lemma UnswappedBecause(cfg: Config, x: State, step: Step, t: Tid, y: State)
    requires Next(cfg, x, step) == Some(y) && (step.Start? || step.Go?) && step.t == t
    requires t in y.threads && IsUnswapped(y.threads[t]) && (t in x.threads ==> !IsUnswapped(x.threads[t]))
    ensures step.Go? && t in x.threads
    ensures match x.threads[t]
            case Refresher => x.refreshing
            case Refreshing(_, Others(_, _)) => !step.c.yes
            case Refreshing(_, Build(_, ids, others, _)) =>
              !step.c.yes || !Apart(cfg.key, Merged(ids.people, others).Keys)
            case Refreshing(left, Gen) => left == 0
            case _ => false
  {
    if step.Go? {
      match x.threads[t] {
        case Writer(r, at) => WriterIsQuiet(cfg, x, t, r, at, step.c, y);
        case Locked(r, at) => LockedStays(cfg, x, t, r, at, step.c, y);
        case Swapper(r, at) => SwapperStays(cfg, x, t, r, at, step.c, y);
        case _ =>
      }
    }
  }

  /** In every run, a refresh that swapped nothing in has one of these reasons; so one whose
      sources can be read, with nobody else refreshing, tries three times. */
  lemma RefreshEndsBecause(cfg: Config, s: State, steps: seq<Step>, s': State, t: Tid)
    returns (k: nat, x: State)
    requires Init(cfg, s) && Run(cfg, s, steps) == Some(s') && t in s'.threads && s'.threads[t] == Refreshed(false)
    ensures k < |steps| && Run(cfg, s, steps[..k]) == Some(x) && t in x.threads && steps[k].Go? && steps[k].t == t
    ensures WhyUnswapped(cfg, s, steps, k, x, t)
  {
    var y;
    k, x, y := Crossing(cfg, s, steps, s', t, IsUnswapped);
    UnswappedBecause(cfg, x, steps[k], t, y);
    if x.threads[t].Refreshing? && x.threads[t].reading.Gen? {
      AskedRun(cfg, s, steps[..k], x, t);
    }
  }

  predicate IsSwapped(pc: PC) {
    || pc == Refreshed(true) || (pc.Refreshing? && pc.reading == End(true))
    || (pc.Installer? && pc.installing == Release(true))
  }

  /** ... and one that says it did stored what it had in hand. */
  lemma RefreshedIsTrue(cfg: Config, s: State, steps: seq<Step>, s': State, t: Tid)
    returns (k: nat, x: State, y: State)
    requires Init(cfg, s) && Run(cfg, s, steps) == Some(s') && t in s'.threads && s'.threads[t] == Refreshed(true)
    ensures k < |steps| && Run(cfg, s, steps[..k]) == Some(x) && Next(cfg, x, steps[k]) == Some(y)
    ensures t in x.threads && InHand(x.threads[t]) == Some(y.snap) && x.gen == y.gen
  {
    k, x, y := Crossing(cfg, s, steps, s', t, IsSwapped);
    SwappedBecause(cfg, x, steps[k], t, y);
  }

  lemma SwappedBecause(cfg: Config, x: State, step: Step, t: Tid, y: State)
    requires Next(cfg, x, step) == Some(y) && (step.Start? || step.Go?) && step.t == t
    requires t in y.threads && IsSwapped(y.threads[t]) && (t in x.threads ==> !IsSwapped(x.threads[t]))
    ensures t in x.threads && InHand(x.threads[t]) == Some(y.snap) && x.gen == y.gen
  {
    if step.Go? {
      match x.threads[t] {
        case Writer(r, at) => WriterIsQuiet(cfg, x, t, r, at, step.c, y);
        case Locked(r, at) => LockedStays(cfg, x, t, r, at, step.c, y);
        case Swapper(r, at) => SwapperStays(cfg, x, t, r, at, step.c, y);
        case Refreshing(left, at) => RefreshingIsQuiet(cfg, x, t, left, at, step.c, y);
        case Installer(left, at) => InstallerSwaps(cfg, x, t, left, at, step.c, y);
        case _ =>
      }
    }
  }

  lemma InstallerSwaps(cfg: Config, x: State, t: Tid, left: nat, at: Installing, c: Choice, y: State)
    requires Steps(cfg, x, t, Installer(left, at), c, y) && !IsSwapped(Installer(left, at))
    requires t in y.threads && IsSwapped(y.threads[t])
    ensures InHand(Installer(left, at)) == Some(y.snap) && x.gen == y.gen
  {
  }

  // ----- what of the other sources a refresh has -----

  /** What a refresh under way has of the other sources. */
  function OthersIn(pc: PC): Option<map<string, Identity>> {
    match pc
    case Refreshing(_, Names(_, _, others)) => Some(others)
    case Refreshing(_, Build(_, _, others, _)) => Some(others)
    case _ => if InHand(pc).Some? then Some(InHand(pc).value.origin.others) else None
  }

  lemma OthersRead(cfg: Config, x: State, step: Step, t: Tid, others: map<string, Identity>, y: State)
    requires Next(cfg, x, step) == Some(y) && (step.Start? || step.Go?) && step.t == t
    requires t in y.threads && OthersIn(y.threads[t]) == Some(others)
    requires t in x.threads ==> OthersIn(x.threads[t]) != Some(others)
    ensures Reads(x, step, t) && step.c.yes && others == ReadOthers(step.c.names, x.readings)
  {
    if step.Go? {
      match x.threads[t] {
        case Writer(r, at) => WriterIsQuiet(cfg, x, t, r, at, step.c, y);
        case Locked(r, at) => LockedStays(cfg, x, t, r, at, step.c, y);
        case Swapper(r, at) => SwapperStays(cfg, x, t, r, at, step.c, y);
        case Refreshing(left, at) => RefreshingOthers(cfg, x, t, left, at, step.c, others, y);
        case _ =>
      }
    }
  }

  lemma RefreshingOthers(cfg: Config, x: State, t: Tid, left: nat, at: Reading, c: Choice,
                         others: map<string, Identity>, y: State)
    requires Steps(cfg, x, t, Refreshing(left, at), c, y) && OthersIn(Refreshing(left, at)) != Some(others)
    requires t in y.threads && OthersIn(y.threads[t]) == Some(others)
    ensures at.Others? && c.yes && others == ReadOthers(c.names, x.readings)
  {
  }

  /** In every run, what a refresh has in hand of the other sources is what they answered at
      one step, when all of them could be read. */
  lemma OthersWereRead(cfg: Config, s: State, steps: seq<Step>, s': State, t: Tid) returns (k: nat, x: State)
    requires Init(cfg, s) && Run(cfg, s, steps) == Some(s') && t in s'.threads && InHand(s'.threads[t]).Some?
    ensures k < |steps| && Run(cfg, s, steps[..k]) == Some(x) && Reads(x, steps[k], t) && steps[k].c.yes
    ensures InHand(s'.threads[t]).value.origin.others == ReadOthers(steps[k].c.names, x.readings)
  {
    var others, y := InHand(s'.threads[t]).value.origin.others, s;
    k, x, y := Crossing(cfg, s, steps, s', t, pc => OthersIn(pc) == Some(others));
    OthersRead(cfg, x, steps[k], t, others, y);
  }

  // ----- names that clash -----

  /** What a thread may yet swap in has no two names that clash. */
  ghost predicate ApartOK(cfg: Config, pc: PC) {
    match pc
    case Swapper(_, StoreLocal(_, _, next)) => Apart(cfg.key, next.people.byName.Keys)
    case Swapper(_, StoreSnap(_, _, next)) => Apart(cfg.key, next.people.byName.Keys)
    case _ => InHand(pc).Some? ==> Apart(cfg.key, InHand(pc).value.people.byName.Keys)
  }

  ghost predicate ApartInv(cfg: Config, s: State) {
    Apart(cfg.key, s.snap.people.byName.Keys) && forall t :: t in s.threads ==> ApartOK(cfg, s.threads[t])
  }

  lemma SwapperApart(cfg: Config, s: State, t: Tid, r: Request, at: Swapping, c: Choice, s': State)
    requires Steps(cfg, s, t, Swapper(r, at), c, s') && ApartInv(cfg, s)
    ensures ApartInv(cfg, s')
  {
    assert ApartOK(cfg, s.threads[t]);
  }

  lemma RefreshingApart(cfg: Config, s: State, t: Tid, left: nat, at: Reading, c: Choice, s': State)
    requires Steps(cfg, s, t, Refreshing(left, at), c, s') && ApartInv(cfg, s)
    ensures t in s'.threads && ApartOK(cfg, s'.threads[t])
  {
    assert ApartOK(cfg, s.threads[t]);
  }

  lemma InstallerApart(cfg: Config, s: State, t: Tid, left: nat, at: Installing, c: Choice, s': State)
    requires Steps(cfg, s, t, Installer(left, at), c, s') && ApartInv(cfg, s)
    ensures t in s'.threads && ApartOK(cfg, s'.threads[t]) && Apart(cfg.key, s'.snap.people.byName.Keys)
  {
    assert ApartOK(cfg, s.threads[t]);
  }

  lemma ApartStep(cfg: Config, s: State, step: Step, s': State)
    requires ApartInv(cfg, s) && Next(cfg, s, step) == Some(s')
    ensures ApartInv(cfg, s')
  {
    if step.Go? {
      var t, c, pc := step.t, step.c, s.threads[step.t];
      match pc {
        case Writer(r, at) => WriterIsQuiet(cfg, s, t, r, at, c, s');
        case Locked(r, at) =>
          LockedKeepsGroups(cfg, s, t, r, at, c, s');
          LockedApart(cfg, s, t, r, at, c, s');
        case Swapper(r, at) => SwapperApart(cfg, s, t, r, at, c, s');
        case Refreshing(left, at) =>
          RefreshingIsQuiet(cfg, s, t, left, at, c, s');
          RefreshingApart(cfg, s, t, left, at, c, s');
        case Installer(left, at) =>
          InstallerMoves(cfg, s, t, left, at, c, s');
          InstallerApart(cfg, s, t, left, at, c, s');
        case _ => ReaderIsQuiet(cfg, s, t, pc, c, s');
      }
    }
  }

  lemma LockedApart(cfg: Config, s: State, t: Tid, r: Request, at: Holding, c: Choice, s': State)
    requires Steps(cfg, s, t, Locked(r, at), c, s')
    ensures t in s'.threads && ApartOK(cfg, s'.threads[t])
  {
  }

  lemma {:induction false} ApartRun(cfg: Config, s: State, steps: seq<Step>, s': State)
    requires ApartInv(cfg, s) && Run(cfg, s, steps) == Some(s')
    ensures ApartInv(cfg, s')
    decreases |steps|
  {
    if steps != [] {
      var next := Next(cfg, s, steps[0]).value;
      ApartStep(cfg, s, steps[0], next);
      ApartRun(cfg, next, steps[1..], s');
    }
  }

  /** In every run, no two names that are served clash: whatever a refresh or a password
      change swapped in. */
  lemma ServedNamesAreApart(cfg: Config, s: State, steps: seq<Step>, s': State)
    requires Init(cfg, s) && Run(cfg, s, steps) == Some(s')
    ensures forall a, b ::
              a in s'.snap.people.byName && b in s'.snap.people.byName && cfg.key(a) == cfg.key(b) ==> a == b
  {
    ApartRun(cfg, s, steps, s');
  }
}
