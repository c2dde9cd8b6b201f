/** Runs of the snapshot protocol, written out: a password change, and a refresh, with
    nobody in its way; a change that was written and not reloaded, after which the chain of
    somebody's changes can break; and somebody of another source who is gone until the next
    refresh. */
module ProtocolRuns {
  import opened Wrappers
  import opened Rosters
  import opened Protocol
  import opened ProtocolChanges

  const YES := Choice(true, false, {}, 0)
  const NO := Choice(false, false, {}, 0)

  /** n steps of one thread, each with the same choice. */
  function Gos(t: Tid, c: Choice, n: nat): seq<Step> {
    if n == 0 then [] else [Go(t, c)] + Gos(t, c, n - 1)
  }

  lemma RunGo(cfg: Config, s: State, t: Tid, c: Choice, n: nat, next: State)
    requires Next(cfg, s, Go(t, c)) == Some(next)
    ensures Run(cfg, s, Gos(t, c, n + 1)) == Run(cfg, next, Gos(t, c, n))
  {
    assert Gos(t, c, n + 1)[1..] == Gos(t, c, n);
  }

  lemma {:induction false} RunBoth(cfg: Config, s: State, a: seq<Step>, m: State, b: seq<Step>)
    requires Run(cfg, s, a) == Some(m)
    ensures Run(cfg, s, a + b) == Run(cfg, m, b)
    decreases |a|
  {
    if a == [] {
      assert a + b == b;
    } else {
      assert (a + b)[0] == a[0] && (a + b)[1..] == a[1..] + b;
      RunBoth(cfg, Next(cfg, s, a[0]).value, a[1..], m, b);
    }
  }

  lemma Again(s: State, t: Tid, a: PC, b: PC)
    ensures At(At(s, t, a), t, b) == At(s, t, b)
  {
    assert s.threads[t := a][t := b] == s.threads[t := b];
  }

  /** A change by the person themselves, with the password they are served with, of data
      that are not too old. */
  ghost predicate Ready(cfg: Config, s: State, r: Request) {
    && r.standing.Theirs? && r.fit && r.proof.Some?
    && r.target in s.snap.people.byName && s.snap.people.byName[r.target].born.FromFile?
    && s.snap.people.byName[r.target].password == r.proof
    && !Aged(cfg, s.clock, s.snap)
  }

  /** Where Modify begins, and Extended. */
  function Begins(r: Request): Asking {
    if r.extended then Clock else Own
  }

  lemma Asks(cfg: Config, s: State, t: Tid, r: Request)
    requires Ready(cfg, s, r) && t in s.threads && s.threads[t] == Writer(r, Begins(r))
    ensures Run(cfg, s, Gos(t, YES, 5)) == Some(At(s, t, Writer(r, Lock(s.snap.people.byName[r.target]))))
  {
    var id := s.snap.people.byName[r.target];
    var s1 := At(s, t, Writer(r, if r.extended then Age(s.clock) else Clock));
    var s2 := At(s, t, Writer(r, if r.extended then Own else Age(s.clock)));
    var s3 := At(s, t, Writer(r, Prove));
    var s4, s5 := At(s, t, Writer(r, Verify(id))), At(s, t, Writer(r, Lock(id)));
    Again(s, t, s1.threads[t], s2.threads[t]);
    Again(s, t, s2.threads[t], s3.threads[t]);
    Again(s, t, s3.threads[t], s4.threads[t]);
    Again(s, t, s4.threads[t], s5.threads[t]);
    RunGo(cfg, s, t, YES, 4, s1);
    RunGo(cfg, s1, t, YES, 3, s2);
    RunGo(cfg, s2, t, YES, 2, s3);
    RunGo(cfg, s3, t, YES, 1, s4);
    RunGo(cfg, s4, t, YES, 0, s5);
  }

  /** From s.mu.Lock to the file written. */
  function Written(s: State, t: Tid, r: Request, id: Identity): State {
    At(s, t, Locked(r, Load(id))).(mu := Some(t), file := s.file[r.target := Some(r.password)], wrote := s.wrote + {t})
  }

  lemma Writes(cfg: Config, s: State, t: Tid, r: Request, id: Identity)
    requires Ready(cfg, s, r) && t in s.threads && s.threads[t] == Writer(r, Lock(id))
    requires id == s.snap.people.byName[r.target]
    requires s.mu == None && r.target in s.file
    ensures Run(cfg, s, Gos(t, YES, 3)) == Some(Written(s, t, r, id))
  {
    var s1 := At(s, t, Locked(r, Check(id))).(mu := Some(t));
    var s2 := At(s, t, Locked(r, SetFile(id))).(mu := Some(t));
    Again(s, t, s1.threads[t], s2.threads[t]);
    Again(s, t, s2.threads[t], Locked(r, Load(id)));
    RunGo(cfg, s, t, YES, 2, s1);
    RunGo(cfg, s1, t, YES, 1, s2);
    RunGo(cfg, s2, t, YES, 0, Written(s, t, r, id));
  }

  /** From the file read to the rebuilt snapshot, under both locks. */
  lemma Loads(cfg: Config, s: State, t: Tid, r: Request, id: Identity, made: Static)
    requires t in s.threads && s.threads[t] == Locked(r, Load(id)) && s.mu == Some(t) && s.swapMu == None
    requires made == ReadFile(s.file, s.readings) && Apart(cfg.key, Reloaded(s.snap, made).people.byName.Keys)
    ensures Run(cfg, s, Gos(t, YES, 3)) ==
              Some(At(s, t, Swapper(r, StoreLocal(id, made, Reloaded(s.snap, made))))
                     .(readings := s.readings + 1, swapMu := Some(t)))
  {
    var s1 := At(s, t, Locked(r, SwapLock(id, made))).(readings := s.readings + 1);
    var s2 := At(s, t, Swapper(r, Rebuild(id, made))).(readings := s.readings + 1, swapMu := Some(t));
    var s3 := At(s, t, Swapper(r, StoreLocal(id, made, Reloaded(s.snap, made))))
                .(readings := s.readings + 1, swapMu := Some(t));
    Again(s, t, s1.threads[t], s2.threads[t]);
    Again(s, t, s2.threads[t], s3.threads[t]);
    RunGo(cfg, s, t, YES, 2, s1);
    RunGo(cfg, s1, t, YES, 1, s2);
    RunGo(cfg, s2, t, YES, 0, s3);
  }

  /** The change that is logged. */
  function Logged(s: State, t: Tid, r: Request, next: Snapshot): Change {
    Change(t, r.target, r.proof, r.password, r.target in s.snap.people.local,
           Served(s.snap, r.target), Served(next, r.target))
  }

  function Swapped(s: State, t: Tid, r: Request, made: Static, next: Snapshot): State {
    At(s, t, Told(r, Changed)).(local := made, snap := next, gen := s.gen + 1, log := s.log + [Logged(s, t, r, next)],
                                swapMu := None, mu := None)
  }

  function Bumped(s: State, t: Tid, r: Request, made: Static, next: Snapshot): State {
    At(s, t, Swapper(r, Leave(Changed))).(local := made, snap := next, gen := s.gen + 1,
                                          log := s.log + [Logged(s, t, r, next)])
  }

  lemma Stores(cfg: Config, s: State, t: Tid, r: Request, id: Identity, made: Static, next: Snapshot)
    requires t in s.threads && s.threads[t] == Swapper(r, StoreLocal(id, made, next))
    ensures Run(cfg, s, Gos(t, YES, 3)) == Some(Bumped(s, t, r, made, next))
  {
    var s1 := At(s, t, Swapper(r, StoreSnap(id, made, next))).(local := made);
    var s2 := At(s, t, Swapper(r, Bump)).(local := made, snap := next, log := s.log + [Logged(s, t, r, next)]);
    Again(s, t, s1.threads[t], s2.threads[t]);
    Again(s, t, s2.threads[t], Swapper(r, Leave(Changed)));
    RunGo(cfg, s, t, YES, 2, s1);
    RunGo(cfg, s1, t, YES, 1, s2);
    RunGo(cfg, s2, t, YES, 0, Bumped(s, t, r, made, next));
  }

  lemma Leaves(cfg: Config, s: State, t: Tid, r: Request)
    requires t in s.threads && s.threads[t] == Swapper(r, Leave(Changed))
    ensures Run(cfg, s, Gos(t, YES, 2)) == Some(At(s, t, Told(r, Changed)).(swapMu := None, mu := None))
  {
    var s1 := At(s, t, Locked(r, Unlock(Changed))).(swapMu := None);
    Again(s, t, s1.threads[t], Told(r, Changed));
    RunGo(cfg, s, t, YES, 1, s1);
    RunGo(cfg, s1, t, YES, 0, At(s, t, Told(r, Changed)).(swapMu := None, mu := None));
  }

  lemma Swaps(cfg: Config, s: State, t: Tid, r: Request, id: Identity, made: Static, next: Snapshot)
    requires t in s.threads && s.threads[t] == Swapper(r, StoreLocal(id, made, next))
    ensures Run(cfg, s, Gos(t, YES, 3) + Gos(t, YES, 2)) == Some(Swapped(s, t, r, made, next))
  {
    var m := Bumped(s, t, r, made, next);
    Stores(cfg, s, t, r, id, made, next);
    Leaves(cfg, m, t, r);
    RunBoth(cfg, s, Gos(t, YES, 3), m, Gos(t, YES, 2));
    Again(s, t, m.threads[t], Told(r, Changed));
  }

  // ----- a change with nobody in its way -----

  function NewFile(s: State, r: Request): File {
    s.file[r.target := Some(r.password)]
  }

  function Made(s: State, r: Request): Static {
    ReadFile(NewFile(s, r), s.readings)
  }

  /** Where such a change leaves the server. */
  function Done(s: State, t: Tid, r: Request): State {
    var next := Reloaded(s.snap, Made(s, r));
    At(s, t, Told(r, Changed)).(file := NewFile(s, r), wrote := s.wrote + {t}, readings := s.readings + 1,
                                local := Made(s, r), snap := next, gen := s.gen + 1,
                                log := s.log + [Logged(s, t, r, next)])
  }

  predicate Free(s: State, t: Tid, r: Request) {
    s.mu == None && s.swapMu == None && t !in s.threads && r.target in s.file
  }

  lemma StartsAndWrites(cfg: Config, s: State, t: Tid, r: Request) returns (steps: seq<Step>, id: Identity)
    requires Ready(cfg, s, r) && Free(s, t, r)
    ensures Run(cfg, s, steps) == Some(Written(s, t, r, id))
  {
    id := s.snap.people.byName[r.target];
    var s1 := At(s, t, Writer(r, Begins(r)));
    var s2 := At(s, t, Writer(r, Lock(id)));
    var first := [Start(t, Writer(r, Begins(r)))];
    assert first[1..] == [] && Run(cfg, s, first) == Some(s1);
    Again(s, t, s1.threads[t], s2.threads[t]);
    Asks(cfg, s1, t, r);
    RunBoth(cfg, s, first, s1, Gos(t, YES, 5));
    Writes(cfg, s2, t, r, id);
    RunBoth(cfg, s, first + Gos(t, YES, 5), s2, Gos(t, YES, 3));
    Again(s, t, s2.threads[t], Locked(r, Load(id)));
    steps := first + Gos(t, YES, 5) + Gos(t, YES, 3);
  }

  lemma ReloadsAlone(cfg: Config, s: State, t: Tid, r: Request, id: Identity, made: Static)
    requires t in s.threads && s.threads[t] == Locked(r, Load(id)) && s.mu == Some(t) && s.swapMu == None
    requires made == ReadFile(s.file, s.readings) && Apart(cfg.key, Reloaded(s.snap, made).people.byName.Keys)
    ensures Run(cfg, s, Gos(t, YES, 3) + (Gos(t, YES, 3) + Gos(t, YES, 2))) ==
              Some(Swapped(s, t, r, made, Reloaded(s.snap, made)).(readings := s.readings + 1))
  {
    var next := Reloaded(s.snap, made);
    Loads(cfg, s, t, r, id, made);
    SwapsLoaded(cfg, s, t, r, id, made, next, Gos(t, YES, 3));
  }

  lemma SwapsLoaded(cfg: Config, s: State, t: Tid, r: Request, id: Identity, made: Static, next: Snapshot,
                    loads: seq<Step>)
    requires Run(cfg, s, loads) ==
               Some(At(s, t, Swapper(r, StoreLocal(id, made, next))).(readings := s.readings + 1, swapMu := Some(t)))
    ensures Run(cfg, s, loads + (Gos(t, YES, 3) + Gos(t, YES, 2))) ==
              Some(Swapped(s, t, r, made, next).(readings := s.readings + 1))
  {
    var m := At(s, t, Swapper(r, StoreLocal(id, made, next))).(readings := s.readings + 1, swapMu := Some(t));
    RunBoth(cfg, s, loads, m, Gos(t, YES, 3) + Gos(t, YES, 2));
    Swaps(cfg, m, t, r, id, made, next);
    Again(s, t, m.threads[t], Told(r, Changed));
  }

  /** A change with nobody in its way succeeds, and this is what it leaves: Success can be
      reached, and every step between is one the transition system has. */
  lemma ChangeAlone(cfg: Config, s: State, t: Tid, r: Request) returns (steps: seq<Step>)
    requires Ready(cfg, s, r) && Free(s, t, r) && Apart(cfg.key, Reloaded(s.snap, Made(s, r)).people.byName.Keys)
    ensures Run(cfg, s, steps) == Some(Done(s, t, r))
    ensures Done(s, t, r).threads[t] == Told(r, Changed) && Served(Done(s, t, r).snap, r.target) == Some(r.password)
  {
    var a, id := StartsAndWrites(cfg, s, t, r);
    var s1, made := Written(s, t, r, id), Made(s, r);
    ReloadsAlone(cfg, s1, t, r, id, made);
    RunBoth(cfg, s, a, s1, Gos(t, YES, 3) + (Gos(t, YES, 3) + Gos(t, YES, 2)));
    steps := a + (Gos(t, YES, 3) + (Gos(t, YES, 3) + Gos(t, YES, 2)));
    Again(s, t, s1.threads[t], Told(r, Changed));
  }

  // ----- a change that is not reloaded -----

  function Unread(s: State, t: Tid, r: Request): State {
    At(s, t, Told(r, ReloadFailed)).(file := NewFile(s, r), wrote := s.wrote + {t},
                                     disturbed := s.disturbed + {r.target})
  }

  /** The file is written and cannot be loaded: nothing served changes. */
  lemma ChangeUnread(cfg: Config, s: State, t: Tid, r: Request) returns (steps: seq<Step>)
    requires Ready(cfg, s, r) && Free(s, t, r)
    ensures Run(cfg, s, steps) == Some(Unread(s, t, r))
  {
    var a, id := StartsAndWrites(cfg, s, t, r);
    var s1 := Written(s, t, r, id);
    var s2 := At(s1, t, Locked(r, Unlock(ReloadFailed))).(disturbed := s.disturbed + {r.target});
    var b := [Go(t, NO)];
    assert b[1..] == [] && Next(cfg, s1, Go(t, NO)) == Some(s2) && Run(cfg, s1, b) == Some(s2);
    RunBoth(cfg, s, a, s1, b);
    Again(s1, t, s2.threads[t], Told(r, ReloadFailed));
    Again(s, t, s1.threads[t], Told(r, ReloadFailed));
    RunGo(cfg, s2, t, YES, 0, Unread(s, t, r));
    RunBoth(cfg, s, a + b, s2, Gos(t, YES, 1));
    steps := a + b + Gos(t, YES, 1);
  }

  /** The names a reload serves when the file's names are what they were. */
  lemma SameNames(cfg: Config, s: State, made: Static)
    requires Init(cfg, s) && made.people.Keys == s.file.Keys
    ensures Apart(cfg.key, Reloaded(s.snap, made).people.byName.Keys)
  {
    assert Reloaded(s.snap, made).people.byName.Keys == s.snap.people.byName.Keys;
  }

  lemma NextIsReady(cfg: Config, s: State, t: Tid, r: Request, u: Tid, q: Request)
    requires Init(cfg, s) && Ready(cfg, s, r) && Ready(cfg, s, q) && q.target in s.file && t != u
    ensures Ready(cfg, Unread(s, t, r), q) && Free(Unread(s, t, r), u, q) && Unread(s, t, r).log == []
    ensures SnapView(s.snap, r.target) == if r.target in s.file then Some(r.proof) else None
  {
  }

  /** A reload serves what the file says of everybody it holds. */
  lemma ReloadServes(s: State, t: Tid, r: Request, n: string)
    requires n in s.file && n != r.target
    ensures SnapView(Done(s, t, r).snap, n) == Some(s.file[n])
  {
    var made := Made(s, r);
    assert n in made.people && made.people[n].password == s.file[n];
  }

  /** Where a change of one person was written and not reloaded, the next change of anybody
      else serves it: that person is then served with a password no successful change of
      theirs set. So the chain of a person's changes is claimed of the undisturbed. */
  lemma UnreadIsServedLater(cfg: Config, s: State, t: Tid, r: Request, u: Tid, q: Request)
    returns (steps: seq<Step>, s': State)
    requires Init(cfg, s) && Ready(cfg, s, r) && Ready(cfg, s, q) && r.target in s.file && q.target in s.file
    requires t != u && r.target != q.target && r.proof != Some(r.password)
    ensures Run(cfg, s, steps) == Some(s') && {t, u} <= s'.threads.Keys
    ensures s'.threads[t] == Told(r, ReloadFailed) && s'.threads[u] == Told(q, Changed)
    ensures (forall i :: 0 <= i < |s'.log| ==> s'.log[i].target != r.target)
    ensures SnapView(s'.snap, r.target) == Some(Some(r.password)) != SnapView(s.snap, r.target)
  {
    var a := ChangeUnread(cfg, s, t, r);
    var m := Unread(s, t, r);
    NextIsReady(cfg, s, t, r, u, q);
    SameNames(cfg, s, Made(m, q));
    var b := ChangeAlone(cfg, m, u, q);
    RunBoth(cfg, s, a, m, b);
    steps, s' := a + b, Done(m, u, q);
    ReloadServes(m, u, q, r.target);
  }

  // ----- a reader with nobody in its way -----

  /** A reader of data that are not too old is answered from what is served, and one of data
      that are is told so. */
  lemma ReaderAlone(cfg: Config, s: State, t: Tid) returns (steps: seq<Step>, s': State)
    requires t !in s.threads
    ensures Run(cfg, s, steps) == Some(s') && t in s'.threads
    ensures s'.threads[t] == if cfg.maxAge > 0 && s.clock - s.snap.built > cfg.maxAge then TooOld
                             else Answered(s.clock, s.snap, s.snap)
  {
    var first := [Start(t, Reader(Now))];
    var s1, s2 := At(s, t, Reader(Now)), At(s, t, Reader(Aging(s.clock)));
    assert first[1..] == [] && Run(cfg, s, first) == Some(s1);
    Again(s, t, s1.threads[t], s2.threads[t]);
    if Aged(cfg, s.clock, s.snap) {
      var s3 := At(s, t, TooOld);
      Again(s, t, s2.threads[t], s3.threads[t]);
      RunGo(cfg, s1, t, YES, 1, s2);
      RunGo(cfg, s2, t, YES, 0, s3);
      RunBoth(cfg, s, first, s1, Gos(t, YES, 2));
      steps, s' := first + Gos(t, YES, 2), s3;
    } else {
      var s3, s4 := At(s, t, Reader(Answering(s.clock, s.snap))), At(s, t, Answered(s.clock, s.snap, s.snap));
      Again(s, t, s2.threads[t], s3.threads[t]);
      Again(s, t, s3.threads[t], s4.threads[t]);
      RunGo(cfg, s1, t, YES, 2, s2);
      RunGo(cfg, s2, t, YES, 1, s3);
      RunGo(cfg, s3, t, YES, 0, s4);
      RunBoth(cfg, s, first, s1, Gos(t, YES, 3));
      steps, s' := first + Gos(t, YES, 3), s4;
    }
  }

  // ----- a refresh with nobody in its way -----

  /** What the other sources give it, by name. */
  function Gives(names: set<string>): Choice {
    Choice(true, false, names, 0)
  }

  function Full(s: State, names: set<string>): Snapshot {
    var others := ReadOthers(names, s.readings);
    Snapshot(Roster(Merged(s.local.people, others), s.local.people.Keys), 0, s.clock,
             Origin(others, s.local.reading, s.local.people.Keys))
  }

  function AfterRefresh(s: State, t: Tid, names: set<string>): State {
    At(s, t, Refreshed(true)).(readings := s.readings + 1, snap := Full(s, names))
  }

  lemma Reads(cfg: Config, s: State, t: Tid, names: set<string>)
    requires t in s.threads && s.threads[t] == Refresher && !s.refreshing
    ensures Run(cfg, s, Gos(t, Gives(names), 5)) ==
              Some(At(s, t, Refreshing(2, Build(s.gen, s.local, ReadOthers(names, s.readings), s.local.people.Keys)))
                     .(refreshing := true, readings := s.readings + 1))
  {
    var c, others := Gives(names), ReadOthers(names, s.readings);
    var s1 := At(s, t, Refreshing(3, Gen)).(refreshing := true);
    var s2 := At(s, t, Refreshing(2, Ids(s.gen))).(refreshing := true);
    var s3 := At(s, t, Refreshing(2, Others(s.gen, s.local))).(refreshing := true);
    var s4 := At(s, t, Refreshing(2, Names(s.gen, s.local, others))).(refreshing := true, readings := s.readings + 1);
    var s5 := At(s, t, Refreshing(2, Build(s.gen, s.local, others, s.local.people.Keys)))
                .(refreshing := true, readings := s.readings + 1);
    Again(s, t, s1.threads[t], s2.threads[t]);
    Again(s, t, s2.threads[t], s3.threads[t]);
    Again(s, t, s3.threads[t], s4.threads[t]);
    Again(s, t, s4.threads[t], s5.threads[t]);
    RunGo(cfg, s, t, c, 4, s1);
    RunGo(cfg, s1, t, c, 3, s2);
    RunGo(cfg, s2, t, c, 2, s3);
    RunGo(cfg, s3, t, c, 1, s4);
    RunGo(cfg, s4, t, c, 0, s5);
  }

  lemma Installs(cfg: Config, s: State, t: Tid, c: Choice, sn: Snapshot)
    requires t in s.threads && s.threads[t] == Refreshing(2, Await(s.gen, sn)) && s.swapMu == None
    ensures Run(cfg, s, Gos(t, c, 5)) == Some(At(s, t, Refreshed(true)).(snap := sn, refreshing := false))
  {
    var s1 := At(s, t, Installer(2, Compare(s.gen, sn))).(swapMu := Some(t));
    var s2 := At(s, t, Installer(2, Store(sn))).(swapMu := Some(t));
    var s3 := At(s, t, Installer(2, Release(true))).(swapMu := Some(t), snap := sn);
    var s4 := At(s, t, Refreshing(2, End(true))).(snap := sn);
    Again(s, t, s1.threads[t], s2.threads[t]);
    Again(s, t, s2.threads[t], s3.threads[t]);
    Again(s, t, s3.threads[t], s4.threads[t]);
    Again(s, t, s4.threads[t], Refreshed(true));
    RunGo(cfg, s, t, c, 4, s1);
    RunGo(cfg, s1, t, c, 3, s2);
    RunGo(cfg, s2, t, c, 2, s3);
    RunGo(cfg, s3, t, c, 1, s4);
    RunGo(cfg, s4, t, c, 0, At(s, t, Refreshed(true)).(snap := sn, refreshing := false));
  }

  /** A refresh with nobody in its way swaps in everything that was read. */
  lemma RefreshAlone(cfg: Config, s: State, t: Tid, names: set<string>) returns (steps: seq<Step>)
    requires s.swapMu == None && !s.refreshing && t !in s.threads
    requires Apart(cfg.key, Full(s, names).people.byName.Keys)
    ensures Run(cfg, s, steps) == Some(AfterRefresh(s, t, names))
  {
    var c, sn := Gives(names), Full(s, names);
    var first := [Start(t, Refresher)];
    var s1 := At(s, t, Refresher);
    assert first[1..] == [] && Run(cfg, s, first) == Some(s1);
    Reads(cfg, s1, t, names);
    RunBoth(cfg, s, first, s1, Gos(t, c, 5));
    var s2 := At(s1, t, Refreshing(2, Build(s.gen, s.local, ReadOthers(names, s.readings), s.local.people.Keys)))
                .(refreshing := true, readings := s.readings + 1);
    var s3 := At(s1, t, Refreshing(2, Await(s.gen, sn))).(refreshing := true, readings := s.readings + 1);
    Again(s1, t, s2.threads[t], s3.threads[t]);
    RunGo(cfg, s2, t, c, 0, s3);
    RunBoth(cfg, s, first + Gos(t, c, 5), s2, Gos(t, c, 1));
    Installs(cfg, s3, t, c, sn);
    RunBoth(cfg, s, first + Gos(t, c, 5) + Gos(t, c, 1), s3, Gos(t, c, 5));
    steps := first + Gos(t, c, 5) + Gos(t, c, 1) + Gos(t, c, 5);
    Again(s1, t, s3.threads[t], Refreshed(true));
    Again(s, t, s1.threads[t], Refreshed(true));
  }

  // ----- somebody of another source, gone until the next refresh -----

  function Without(s: State, n: string): State {
    var file := s.file - {n};
    s.(file := file, disturbed := s.disturbed + Differing(s.file, file))
  }

  lemma ApartFewer(key: string -> string, a: set<string>, b: set<string>)
    requires Apart(key, b) && a <= b
    ensures Apart(key, a)
  {
  }

  lemma EditedIsReady(cfg: Config, s: State, n: string, u: Tid, q: Request)
    requires Init(cfg, s) && n in s.file && q.target in s.file && q.target != n && Ready(cfg, s, q)
    ensures var m := Without(s, n);
            && Ready(cfg, m, q) && Free(m, u, q)
            && Reloaded(m.snap, Made(m, q)).people.byName.Keys <= s.snap.people.byName.Keys
  {
  }

  /** A name the file and another source both have is taken out of the file by hand; the
      next change of anybody else serves neither: the other source has it, and it is gone. */
  lemma GoneAfterAnEdit(cfg: Config, s: State, n: string, u: Tid, q: Request) returns (steps: seq<Step>, d: State)
    requires Init(cfg, s) && n in s.file && n in s.snap.origin.others
    requires q.target in s.file && q.target != n && Ready(cfg, s, q)
    ensures Run(cfg, s, steps) == Some(d) && u in d.threads && d.threads[u] == Told(q, Changed)
    ensures d.swapMu == None && n in d.snap.origin.others && n !in d.snap.people.byName
    ensures d.snap.people.byName != Merged(d.local.people, d.snap.origin.others)
    ensures d == Done(Without(s, n), u, q)
  {
    var m := Without(s, n);
    var edit := [Edit(s.file - {n})];
    assert edit[1..] == [] && Run(cfg, s, edit) == Some(m);
    EditedIsReady(cfg, s, n, u, q);
    ApartFewer(cfg.key, Reloaded(m.snap, Made(m, q)).people.byName.Keys, s.snap.people.byName.Keys);
    var b := ChangeAlone(cfg, m, u, q);
    RunBoth(cfg, s, edit, m, b);
    steps, d := edit + b, Done(m, u, q);
    assert n in Merged(d.local.people, d.snap.origin.others);
  }

  /** ... and the next refresh serves it again, from the other source. */
  lemma BackAfterARefresh(cfg: Config, s: State, n: string, u: Tid, q: Request, t: Tid)
    returns (steps: seq<Step>, r: State)
    requires Init(cfg, s) && n in s.file && n in s.snap.origin.others
    requires q.target in s.file && q.target != n && Ready(cfg, s, q) && t != u
    ensures Run(cfg, s, steps) == Some(r) && t in r.threads && r.threads[t] == Refreshed(true)
    ensures n in r.snap.people.byName && r.snap.people.byName[n].born.FromSource?
    ensures r.snap.people.byName == Merged(r.local.people, r.snap.origin.others)
  {
    var a, d := GoneAfterAnEdit(cfg, s, n, u, q);
    var names := s.snap.origin.others.Keys;
    assert Full(d, names).people.byName.Keys <= s.snap.people.byName.Keys;
    ApartFewer(cfg.key, Full(d, names).people.byName.Keys, s.snap.people.byName.Keys);
    var b := RefreshAlone(cfg, d, t, names);
    RunBoth(cfg, s, a, d, b);
    steps, r := a + b, AfterRefresh(d, t, names);
  }
}
