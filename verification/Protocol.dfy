/** The snapshot protocol (refresh.go, server.go, roster.go) as a transition system.

    Any number of password writers, refresh attempts and readers run interleaved.
    Each has a program counter; one step of one thread is one atomic load, store,
    lock, unlock or look at the outside world. A run is a start state and a
    sequence of steps, every choice the code does not make being in the step. */
module Protocol {
  import opened Wrappers
  import opened Rosters

  type Tid = nat
  type Time = int
  type Groups = nat

  /** What does not change while the server runs: max_age (zero for no limit) and
      the key two names are told apart by. */
  datatype Config = Config(maxAge: nat, key: string -> string)

  /** The user blocks of the configuration file: who has which password. */
  type File = map<string, Option<string>>

  /** A directory.Static: the people one reading of the file made. */
  datatype Static = Static(people: map<string, Identity>, reading: nat)

  /** History of a snapshot. Nothing branches on it: what the other sources gave when
      they were last read, which reading of the file its local people are from, and
      every name the file has held since that read. */
  datatype Origin = Origin(others: map<string, Identity>, reading: nat, everLocal: set<string>)

  datatype Snapshot = Snapshot(people: Roster, groups: Groups, built: Time, origin: Origin)

  // ----- the two ways a roster is made -----

  /** The first source owns a name: every other source's people, under the file's. */
  function Merged(file: map<string, Identity>, others: map<string, Identity>): map<string, Identity> {
    others + file
  }

  /** What reloadLocal makes of the snapshot it finds: the file's new people, and the
      old snapshot's people whom the file neither holds nor held. */
  function Incremental(before: Roster, made: map<string, Identity>): Roster {
    Roster((map n | n in before.byName && n !in made && n !in before.local :: before.byName[n]) + made, made.Keys)
  }

  function Reloaded(before: Snapshot, made: Static): Snapshot {
    Snapshot(Incremental(before.people, made.people), before.groups, before.built,
             Origin(before.origin.others, made.reading, before.origin.everLocal + made.people.Keys))
  }

  function ReadFile(file: File, reading: nat): Static {
    Static(map n | n in file :: Identity(n, file[n], FromFile(reading)), reading)
  }

  function ReadOthers(names: set<string>, reading: nat): map<string, Identity> {
    map n | n in names :: Identity(n, None, FromSource(reading))
  }

  // ----- threads -----

  datatype Code = NoAccess | NoSuchObject | Unwilling | Unavailable | CannotWrite

  /** What a client is told. ReloadFailed is the `other` of a password that was
      written and not reloaded. */
  datatype Answer = Changed | Refused(code: Code) | ReloadFailed

  /** What a session's DN and the target's say of each other (nameOf, EqualDN): nobody is
      bound, the target is no person, or another one, or the very person who is bound. */
  datatype Standing = Anonymous | NoPerson | NotTheirs | Theirs

  /** A password change, as far as it is decided by the request alone. `fit` says the
      request is one this server understands. */
  datatype Request = Request(
    extended: bool, standing: Standing, target: string, fit: bool, proof: Option<string>, password: string)

  /** Modify and Extended before s.mu.Lock. */
  datatype Asking = Own | Clock | Age(now: Time) | Prove | Verify(id: Identity) | Lock(id: Identity)

  /** Under s.mu and not swapMu: writeProved, writePassword, the head of reloadLocal. */
  datatype Holding = Check(id: Identity) | SetFile(id: Identity) | Load(id: Identity)
                   | SwapLock(id: Identity, made: Static) | Unlock(answer: Answer)

  /** Under both: the tail of reloadLocal. */
  datatype Swapping = Rebuild(id: Identity, made: Static) | StoreLocal(id: Identity, made: Static, next: Snapshot)
                    | StoreSnap(id: Identity, made: Static, next: Snapshot) | Bump | Leave(answer: Answer)

  /** refreshTry without swapMu. */
  datatype Reading = Gen | Ids(g: nat) | Others(g: nat, ids: Static)
                   | Names(g: nat, ids: Static, others: map<string, Identity>)
                   | Build(g: nat, ids: Static, others: map<string, Identity>, names: set<string>)
                   | Await(g: nat, sn: Snapshot) | End(swapped: bool)

  /** refreshTry under swapMu. */
  datatype Installing = Compare(g: nat, sn: Snapshot) | Store(sn: Snapshot) | Release(swapped: bool)

  /** Bind, Search and the KDC's Find: the age check, then the answer. */
  datatype Looking = Now | Aging(now: Time) | Answering(now: Time, aged: Snapshot)

  datatype PC =
    | Writer(r: Request, asking: Asking)
    | Locked(r: Request, holding: Holding)
    | Swapper(r: Request, swapping: Swapping)
    | Told(r: Request, answer: Answer)
    | Refresher
    | Refreshing(left: nat, reading: Reading)
    | Installer(left: nat, installing: Installing)
    | Refreshed(swapped: bool)
    | Reader(looking: Looking)
    | TooOld
    | Answered(now: Time, aged: Snapshot, served: Snapshot)

  predicate Starts(pc: PC) {
    match pc
    case Writer(r, Own) => !r.extended
    case Writer(r, Clock) => r.extended
    case Refresher => true
    case Reader(Now) => true
    case _ => false
  }

  /** The program points at which a thread holds s.mu, and s.swapMu. */
  predicate InMu(pc: PC) { pc.Locked? || pc.Swapper? }

  predicate InSwap(pc: PC) { pc.Swapper? || pc.Installer? }

  /** The program points between refreshing's compare-and-swap and its store of false. */
  predicate InRefresh(pc: PC) { pc.Refreshing? || pc.Installer? }

  predicate Finished(pc: PC) { pc.Told? || pc.Refreshed? || pc.TooOld? || pc.Answered? }

  // ----- state -----

  /** History: a swap a password change made, with what the target was served as
      before it and after it. */
  datatype Change = Change(who: Tid, target: string, proof: Option<string>, password: string,
                           wasLocal: bool, before: Option<string>, after: Option<string>)

  datatype State = State(
    file: File,
    local: Static,
    snap: Snapshot,
    gen: nat,
    refreshing: bool,
    mu: Option<Tid>,
    swapMu: Option<Tid>,
    clock: Time,
    readings: nat,               // how many readings of a source there have been
    threads: map<Tid, PC>,
    log: seq<Change>,            // history: the changes made, in order
    wrote: set<Tid>,             // history: the threads that wrote the file
    disturbed: set<string>)      // history: names somebody else edited, or a failed reload left unread

  /** What a snapshot serves as somebody's password, for people of the file. */
  function Served(sn: Snapshot, name: string): Option<string> {
    if name in sn.people.byName then sn.people.byName[name].password else None
  }

  function At(s: State, t: Tid, pc: PC): State {
    s.(threads := s.threads[t := pc])
  }

  /** What a thread cannot decide: whether something outside says yes or cannot be
      asked, which names the other sources have, and what readGroups answers. */
  datatype Choice = Choice(yes: bool, outage: bool, names: set<string>, groups: Groups)

  datatype Step =
    | Tick(delta: nat)
    | Edit(file: File)
    | Start(t: Tid, pc: PC)
    | Go(t: Tid, c: Choice)

  function Differing(a: File, b: File): set<string> {
    set n | n in a.Keys + b.Keys && !(n in a && n in b && a[n] == b[n])
  }

  ghost predicate Init(cfg: Config, s: State) {
    && s.threads == map[] && s.mu == None && s.swapMu == None && !s.refreshing
    && s.log == [] && s.wrote == {} && s.disturbed == {}
    && s.local == ReadFile(s.file, 0) && s.readings == 2
    && s.snap.people == Roster(Merged(s.local.people, s.snap.origin.others), s.local.people.Keys)
    && s.snap.origin == Origin(ReadOthers(s.snap.origin.others.Keys, 1), 0, s.local.people.Keys)
    && Apart(cfg.key, s.snap.people.byName.Keys)
    && s.snap.built <= s.clock
  }

  predicate Aged(cfg: Config, now: Time, sn: Snapshot) {
    cfg.maxAge > 0 && now - sn.built > cfg.maxAge
  }

  /** Whether an identity accepts a password. A person of the file does when it is
      theirs; for anybody else the source decides, outside. */
  predicate Accepts(id: Identity, proof: Option<string>, c: Choice) {
    proof.Some? && if id.born.FromFile? then id.password == proof else c.yes
  }

  /** Modify and Extended up to s.mu.Lock: the request, the age and the proof, with no
      lock held. */
  function StepWriter(cfg: Config, s: State, t: Tid, r: Request, at: Asking, c: Choice): Option<State> {
    match at
    case Own =>
      if r.standing.NoPerson? then Some(At(s, t, Told(r, Refused(NoSuchObject))))
      else if !r.standing.Theirs? || r.target !in s.snap.people.byName then Some(At(s, t, Told(r, Refused(NoAccess))))
      else if !r.extended then Some(At(s, t, Writer(r, Clock)))
      else if !r.fit then Some(At(s, t, Told(r, Refused(Unwilling))))
      else Some(At(s, t, Writer(r, Prove)))
    case Clock => Some(At(s, t, Writer(r, Age(s.clock))))
    case Age(now) =>
      if Aged(cfg, now, s.snap) then Some(At(s, t, Told(r, Refused(Unavailable))))
      else if r.extended then Some(At(s, t, Writer(r, Own)))
      else if !r.fit then Some(At(s, t, Told(r, Refused(Unwilling))))
      else Some(At(s, t, Writer(r, Prove)))
    case Prove =>
      if r.target !in s.snap.people.byName then Some(At(s, t, Told(r, Refused(NoAccess))))
      else
        var id := s.snap.people.byName[r.target];
        if (if id.born.FromFile? then id.password.None? else !c.yes) then Some(At(s, t, Told(r, Refused(Unwilling))))
        else if r.proof.None? then Some(At(s, t, Told(r, Refused(NoAccess))))
        else Some(At(s, t, Writer(r, Verify(id))))
    case Verify(id) =>
      if c.outage then Some(At(s, t, Told(r, Refused(Unavailable))))
      else if Accepts(id, r.proof, c) then Some(At(s, t, Writer(r, Lock(id))))
      else Some(At(s, t, Told(r, Refused(Unwilling))))
    case Lock(id) =>
      if s.mu.Some? then None else Some(At(s, t, Locked(r, Check(id))).(mu := Some(t)))
  }

  /** writeProved, writePassword and reloadLocal up to swapMu.Lock. */
  function StepLocked(s: State, t: Tid, r: Request, at: Holding, c: Choice): Option<State> {
    match at
    case Check(id) =>
      if r.target !in s.snap.people.byName then Some(At(s, t, Locked(r, Unlock(Refused(Unwilling)))))
      else
        var now := s.snap.people.byName[r.target];
        if now == id || Accepts(now, r.proof, c) then Some(At(s, t, Locked(r, SetFile(now))))
        else Some(At(s, t, Locked(r, Unlock(Refused(Unwilling)))))
    case SetFile(id) =>
      if r.target !in s.file then Some(At(s, t, Locked(r, Unlock(Refused(Unwilling)))))
      else if !c.yes then Some(At(s, t, Locked(r, Unlock(Refused(CannotWrite)))))
      else Some(At(s, t, Locked(r, Load(id))).(file := s.file[r.target := Some(r.password)], wrote := s.wrote + {t}))
    case Load(id) =>
      if !c.yes then Some(At(s, t, Locked(r, Unlock(ReloadFailed))).(disturbed := s.disturbed + {r.target}))
      else Some(At(s, t, Locked(r, SwapLock(id, ReadFile(s.file, s.readings)))).(readings := s.readings + 1))
    case SwapLock(id, made) =>
      if s.swapMu.Some? then None else Some(At(s, t, Swapper(r, Rebuild(id, made))).(swapMu := Some(t)))
    case Unlock(answer) => Some(At(s, t, Told(r, answer)).(mu := None))
  }

  /** reloadLocal under swapMu. */
  ghost function StepSwapper(cfg: Config, s: State, t: Tid, r: Request, at: Swapping): Option<State> {
    match at
    case Rebuild(id, made) =>
      var next := Reloaded(s.snap, made);
      if Apart(cfg.key, next.people.byName.Keys) then Some(At(s, t, Swapper(r, StoreLocal(id, made, next))))
      else Some(At(s, t, Swapper(r, Leave(ReloadFailed))).(disturbed := s.disturbed + {r.target}))
    case StoreLocal(id, made, next) =>
      Some(At(s, t, Swapper(r, StoreSnap(id, made, next))).(local := made))
    case StoreSnap(id, made, next) =>
      Some(At(s, t, Swapper(r, Bump)).(snap := next,
        log := s.log + [Change(t, r.target, r.proof, r.password, r.target in s.snap.people.local,
                               Served(s.snap, r.target), Served(next, r.target))]))
    case Bump => Some(At(s, t, Swapper(r, Leave(Changed))).(gen := s.gen + 1))
    case Leave(answer) => Some(At(s, t, Locked(r, Unlock(answer))).(swapMu := None))
  }

  /** refreshTry's read. */
  ghost function StepRefreshing(cfg: Config, s: State, t: Tid, left: nat, at: Reading, c: Choice): Option<State> {
    match at
    case Gen =>
      if left == 0 then Some(At(s, t, Refreshing(0, End(false)))) else Some(At(s, t, Refreshing(left - 1, Ids(s.gen))))
    case Ids(g) => Some(At(s, t, Refreshing(left, Others(g, s.local))))
    case Others(g, ids) =>
      if !c.yes then Some(At(s, t, Refreshing(left, End(false))))
      else Some(At(s, t, Refreshing(left, Names(g, ids, ReadOthers(c.names, s.readings)))).(readings := s.readings + 1))
    case Names(g, ids, others) => Some(At(s, t, Refreshing(left, Build(g, ids, others, s.local.people.Keys))))
    case Build(g, ids, others, names) =>
      var byName := Merged(ids.people, others);
      if !c.yes || !Apart(cfg.key, byName.Keys) then Some(At(s, t, Refreshing(left, End(false))))
      else Some(At(s, t, Refreshing(left, Await(g,
        Snapshot(Roster(byName, names), c.groups, s.clock, Origin(others, ids.reading, ids.people.Keys))))))
    case Await(g, sn) =>
      if s.swapMu.Some? then None else Some(At(s, t, Installer(left, Compare(g, sn))).(swapMu := Some(t)))
    case End(swapped) => Some(At(s, t, Refreshed(swapped)).(refreshing := false))
  }

  /** refreshTry's swap. */
  function StepInstaller(s: State, t: Tid, left: nat, at: Installing): Option<State> {
    match at
    case Compare(g, sn) =>
      if s.gen != g then Some(At(s, t, Installer(left, Release(false)))) else Some(At(s, t, Installer(left, Store(sn))))
    case Store(sn) => Some(At(s, t, Installer(left, Release(true))).(snap := sn))
    case Release(swapped) =>
      Some(At(s, t, Refreshing(left, if swapped then End(true) else Gen)).(swapMu := None))
  }

  function StepReader(cfg: Config, s: State, t: Tid, at: Looking): Option<State> {
    match at
    case Now => Some(At(s, t, Reader(Aging(s.clock))))
    case Aging(now) => Some(At(s, t, if Aged(cfg, now, s.snap) then TooOld else Reader(Answering(now, s.snap))))
    case Answering(now, aged) => Some(At(s, t, Answered(now, aged, s.snap)))
  }

  ghost function StepThread(cfg: Config, s: State, t: Tid, pc: PC, c: Choice): Option<State> {
    match pc
    case Writer(r, at) => StepWriter(cfg, s, t, r, at, c)
    case Locked(r, at) => StepLocked(s, t, r, at, c)
    case Swapper(r, at) => StepSwapper(cfg, s, t, r, at)
    case Refresher =>
      if s.refreshing then Some(At(s, t, Refreshed(false))) else Some(At(s, t, Refreshing(3, Gen)).(refreshing := true))
    case Refreshing(left, at) => StepRefreshing(cfg, s, t, left, at, c)
    case Installer(left, at) => StepInstaller(s, t, left, at)
    case Reader(at) => StepReader(cfg, s, t, at)
    case _ => None
  }

  /** The state after a step, or None when the step is not enabled. */
  ghost function Next(cfg: Config, s: State, step: Step): Option<State> {
    match step
    case Tick(delta) => Some(s.(clock := s.clock + delta))
    case Edit(file) => Some(s.(file := file, disturbed := s.disturbed + Differing(s.file, file)))
    case Start(t, pc) => if t !in s.threads && Starts(pc) then Some(At(s, t, pc)) else None
    case Go(t, c) => if t in s.threads then StepThread(cfg, s, t, s.threads[t], c) else None
  }

  /** The state a run ends in, or None when one of its steps is not enabled. */
  ghost function Run(cfg: Config, s: State, steps: seq<Step>): Option<State>
    decreases |steps|
  {
    if steps == [] then Some(s)
    else
      var s' := Next(cfg, s, steps[0]);
      if s'.None? then None else Run(cfg, s'.value, steps[1..])
  }
}
