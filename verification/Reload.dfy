/** reloadLocal and the write of a password as the server runs them (server.go): loops, and
    fields updated in place, proved against what the snapshot protocol swaps in. */
module Reload {
  import opened Wrappers
  import opened Rosters
  import opened Protocol
  import PasswordRequests

  ghost function FoldKey(fold: Fold): string -> string
    requires SimpleFolding(fold)
  {
    name => Key(fold, name)
  }

  lemma FoldApartIsApart(fold: Fold, names: set<string>)
    requires SimpleFolding(fold)
    ensures FoldApart(fold, names) <==> Apart(FoldKey(fold), names)
  {
    forall a, b | a in names && b in names
      ensures FoldAlike(fold, a, b) <==> FoldKey(fold)(a) == FoldKey(fold)(b)
    {
      KeyIsCanonical(fold, a, b);
    }
  }

  predicate NamedRight(byName: map<string, Identity>) {
    forall n :: n in byName ==> byName[n].name == n
  }

  /** The owned set of reloadLocal: the names the file's new people have. */
  method Owned(made: seq<Identity>) returns (owned: set<string>)
    ensures owned == ByName(made).Keys
  {
    owned := {};
    for i := 0 to |made|
      invariant owned == NamesOf(made[..i])
    {
      assert made[..i + 1] == made[..i] + [made[i]];
      owned := owned + {made[i].name};
    }
    assert made[..|made|] == made;
    ByNameHolds(made);
  }

  /** The people reloadLocal rebuilds the roster from: the file's, and whoever of the
      old snapshot the file neither has nor had. Go ranges over the map in any order. */
  method Carry(before: Roster, made: seq<Identity>) returns (ids: seq<Identity>)
    requires NamedRight(before.byName)
    ensures ByName(ids) == Incremental(before, ByName(made)).byName
  {
    var owned := Owned(made);
    ids := made;
    var left := before.byName.Keys;
    ghost var kept: map<string, Identity> := map[];
    while left != {}
      invariant left <= before.byName.Keys
      invariant kept == map n |
                  n in before.byName && n !in left && n !in owned && n !in before.local :: before.byName[n]
      invariant ByName(ids) == kept + ByName(made)
      decreases left
    {
      var n :| n in left;
      left := left - {n};
      if n !in owned && n !in before.local {
        var id := before.byName[n];
        assert (ids + [id])[..|ids|] == ids;
        ids := ids + [id];
        kept := kept[n := id];
      }
    }
  }

  /** loadConfig and localSource, on the user blocks as they are: the people they make, as
      one reading, or an error. */
  type Loader = File -> Option<seq<Identity>>

  ghost predicate Loads(load: Loader, reading: nat) {
    forall f :: load(f).Some? ==> ByName(load(f).value) == ReadFile(f, reading).people
  }

  /** No two people of the roster a reload would swap in have names that clash. */
  ghost predicate CanSwap(fold: Fold, before: Snapshot, made: Static)
    requires SimpleFolding(fold)
  {
    Apart(FoldKey(fold), Reloaded(before, made).people.byName.Keys)
  }

  class Server {
    var file: File
    var local: Static
    var snap: Snapshot
    var gen: nat

    constructor (file: File, local: Static, snap: Snapshot)
      ensures this.file == file && this.local == local && this.snap == snap && this.gen == 0
    {
      this.file, this.local, this.snap, this.gen := file, local, snap, 0;
    }

    /** loaded is what loadConfig and localSource made of the files, or None for their
        errors. A reload that fails changes nothing; one that succeeds swaps in exactly
        what the protocol says, and moves gen by one. */
    method ReloadLocal(fold: Fold, loaded: Option<seq<Identity>>, reading: nat) returns (ok: bool)
      requires SimpleFolding(fold) && NamedRight(snap.people.byName)
      modifies `local, `snap, `gen
      ensures ok == (loaded.Some? && CanSwap(fold, old(snap), Static(ByName(loaded.value), reading)))
      ensures ok ==> local == Static(ByName(loaded.value), reading)
      ensures ok ==> snap == Reloaded(old(snap), local) && gen == old(gen) + 1
      ensures snap.groups == old(snap.groups) && snap.built == old(snap.built)
      ensures !ok ==> local == old(local) && snap == old(snap) && gen == old(gen)
    {
      if loaded.None? {
        return false;
      }
      var made := loaded.value;
      var before := snap;
      var ids := Carry(before.people, made);
      ByNameHolds(ids);
      FoldApartIsApart(fold, NamesOf(ids));
      var people := NewRoster(fold, ids, made);
      if people.Failure? {
        return false;
      }
      ByNameHolds(made);
      local := Static(ByName(made), reading);
      snap := Snapshot(people.value, before.groups, before.built,
                       Origin(before.origin.others, reading, before.origin.everLocal + ByName(made).Keys));
      gen := gen + 1;
      ok := true;
    }

    /** The reload after a write can be swapped in: the file loads, and no two people of
        the new roster have names that fold alike. */
    ghost predicate CanReload(fold: Fold, load: Loader, reading: nat, written: File)
      reads this
      requires SimpleFolding(fold)
    {
      load(written).Some? && CanSwap(fold, snap, Static(ByName(load(written).value), reading))
    }

    /** writePassword: written says whether the file could be written. A refusal leaves
        everything as it was; a change is in the file, and served; and the one answer
        between, a password in the file that is not served. */
    method WritePassword(fold: Fold, load: Loader, reading: nat, target: string, password: string, written: bool)
      returns (a: Answer)
      requires SimpleFolding(fold) && NamedRight(snap.people.byName) && Loads(load, reading)
      modifies this
      ensures a.Refused? <==> target !in old(file) || !written
      ensures a.Refused? ==> a.code == if target !in old(file) then Unwilling else CannotWrite
      ensures a.Refused? ==> file == old(file) && local == old(local) && snap == old(snap) && gen == old(gen)
      ensures !a.Refused? ==> file == old(file)[target := Some(password)]
      ensures a.ReloadFailed? ==> local == old(local) && snap == old(snap) && gen == old(gen)
      ensures a.Changed? ==>
                local == ReadFile(file, reading) && snap == Reloaded(old(snap), local) && gen == old(gen) + 1
      ensures a.Changed? ==> Served(snap, target) == Some(password)
      ensures snap.groups == old(snap.groups) && snap.built == old(snap.built)
      ensures !a.Refused? ==> (a.Changed? <==> old(CanReload(fold, load, reading, file[target := Some(password)])))
    {
      if target !in file {
        return Refused(Unwilling);
      }
      if !written {
        return Refused(CannotWrite);
      }
      file := file[target := Some(password)];
      var ok := ReloadLocal(fold, load(file), reading);
      a := if ok then Changed else ReloadFailed;
    }

    /** The old password is theirs; of somebody of another source, their source says so. */
    static predicate SaysYes(id: Identity, proof: Option<string>, c: Choice) {
      proof.Some? && if id.born.FromFile? then id.password == proof else c.yes
    }

    /** writeProved: the proof was checked without the lock, and is checked again, on the
        identity served now, if that is not the one that was proved. */
    method WriteProved(fold: Fold, load: Loader, reading: nat, target: string, proved: Identity,
                       proof: Option<string>, c: Choice, password: string, written: bool)
      returns (a: Answer)
      requires SimpleFolding(fold) && NamedRight(snap.people.byName) && Loads(load, reading)
      modifies this
      ensures !a.Refused? <==>
                && target in old(snap.people.byName)
                && (var now := old(snap.people.byName)[target]; now == proved || SaysYes(now, proof, c))
                && target in old(file) && written
      ensures a.Refused? ==> a.code == Unwilling || a.code == CannotWrite
      ensures a == Refused(CannotWrite) <==>
                && target in old(snap.people.byName)
                && (var now := old(snap.people.byName)[target]; now == proved || SaysYes(now, proof, c))
                && target in old(file) && !written
      ensures !a.Refused? ==> (a.Changed? <==> old(CanReload(fold, load, reading, file[target := Some(password)])))
      ensures a.Refused? ==> file == old(file) && local == old(local) && snap == old(snap) && gen == old(gen)
      ensures !a.Refused? ==> file == old(file)[target := Some(password)]
      ensures a.ReloadFailed? ==> local == old(local) && snap == old(snap) && gen == old(gen)
      ensures a.Changed? ==>
                snap == Reloaded(old(snap), ReadFile(file, reading)) && Served(snap, target) == Some(password)
    {
      if target !in snap.people.byName {
        return Refused(Unwilling);
      }
      var now := snap.people.byName[target];
      if now != proved {
        if !Accepts(now, proof, c) {
          return Refused(Unwilling);
        }
      }
      a := WritePassword(fold, load, reading, target, password, written);
    }

    /** Whether the source has a password of theirs to check. */
    predicate CanBeAsked(id: Identity, can: bool) {
      if id.born.FromFile? then id.password.Some? else can
    }

    /** What the source of a person answers when it is asked for the old password: whether
        there is one to check, whether it can be asked, and whether that is it. */
    function Proves(id: Identity, proof: string, can: bool, c: Choice): bool {
      CanBeAsked(id, can) && !c.outage && if id.born.FromFile? then id.password == Some(proof) else c.yes
    }

    /** Which refusal a session's own request meets, if it meets one, said code by code: no
        access where nobody is served or a password is there and the old one was not sent;
        unavailable where the source was to be asked and cannot be; the write that failed;
        and unwilling for the rest of what stands in the way. */
    function CodeOf(target: string, can: bool, c: Choice, changes: seq<PasswordRequests.Modification>, written: bool)
      : Option<Code>
      reads this
    {
      var w, people := PasswordRequests.OnlyAPasswordChange(changes), snap.people.byName;
      var served := target in people;
      var old_ := if w.Success? then w.value.old_ else None;
      var asked := w.Success? && served && CanBeAsked(people[target], can) && old_.Some?;
      var proven := asked && Proves(people[target], old_.value, can, c);
      if w.Success? && (!served || (CanBeAsked(people[target], can) && old_.None?)) then Some(NoAccess)
      else if asked && c.outage then Some(Unavailable)
      else if proven && target in file then if written then None else Some(CannotWrite)
      else Some(Unwilling)
    }

    /** Modify, for a session's own entry and data that are not too old, nobody else
        changing anything meanwhile. can and c are what a source other than the file says
        of its person. It changes the password exactly where the request carries the old
        one, that is accepted, and the file has the person, can be written and loads; of
        somebody of the file it then leaves exactly the value that section 4.6 of RFC 4511
        says their list of changes leaves, and a refusal leaves everything as it was. */
    method Modify(fold: Fold, load: Loader, reading: nat, target: string, can: bool, c: Choice,
                  changes: seq<PasswordRequests.Modification>, written: bool) returns (a: Answer)
      requires SimpleFolding(fold) && NamedRight(snap.people.byName) && Loads(load, reading)
      modifies this
      ensures a.Changed? && old(target in snap.people.byName && snap.people.byName[target].born.FromFile?) ==>
                && old(Served(snap, target)).Some? && Served(snap, target).Some?
                && var held := old(Served(snap, target)).value;
                   PasswordRequests.ApplyAll({held}, changes) == Some({Served(snap, target).value})
      ensures a.Refused? ==> file == old(file) && local == old(local) && snap == old(snap) && gen == old(gen)
      ensures !a.Changed? ==> Served(snap, target) == old(Served(snap, target))
      ensures old(CodeOf(target, can, c, changes, written)).Some? <==> a.Refused?
      ensures a.Refused? ==> Some(a.code) == old(CodeOf(target, can, c, changes, written))
      ensures a.Changed? <==>
                && old(target in snap.people.byName)
                && PasswordRequests.OnlyAPasswordChange(changes).Success?
                && var w := PasswordRequests.OnlyAPasswordChange(changes).value;
                   && w.old_.Some? && Proves(old(snap.people.byName)[target], w.old_.value, can, c)
                   && target in old(file) && written
                   && old(CanReload(fold, load, reading, file[target := Some(w.password)]))
    {
      var w := PasswordRequests.OnlyAPasswordChange(changes);
      if w.Failure? {
        return Refused(Unwilling);
      }
      if target !in snap.people.byName {
        return Refused(NoAccess);
      }
      var id := snap.people.byName[target];
      if (if id.born.FromFile? then id.password.None? else !can) {
        return Refused(Unwilling);
      }
      if w.value.old_.None? {
        return Refused(NoAccess);
      }
      if c.outage {
        return Refused(Unavailable);
      }
      if !Accepts(id, w.value.old_, c) {
        return Refused(Unwilling);
      }
      if id.born.FromFile? {
        PasswordRequests.MeansSection46(changes, id.password.value);
      }
      a := WriteProved(fold, load, reading, target, id, w.value.old_, c, w.value.password, written);
    }
  }
}
