/** The certificate store (certs.go): which certificate a handshake is served, as the two
    files on disk change. A look reads the files at one moment; a certificate is what the
    two contents load to. */
module Certs {
  import opened Wrappers

  const MAX_CERT_FILE: nat := 0x10_0000

  datatype Certificate = Certificate(chain: string)

  /** The two files; None is one that cannot be read. */
  datatype Files = Files(cert: Option<string>, key: Option<string>)

  /** What two contents load to, if to anything. */
  type Loader = (string, string) -> Option<Certificate>

  function Load(load: Loader, f: Files): Option<Certificate> {
    if f.cert.Some? && f.key.Some? then load(f.cert.value, f.key.value) else None
  }

  /** The stamp of a file stands for its content (SHA-256, taken as free of collisions); a
      file that cannot be read, or is too long to look at, has the zero stamp. */
  function StampOf(file: Option<string>): Option<string> {
    if file.Some? && |file.value| <= MAX_CERT_FILE then file else None
  }

  function IdentityOf(f: Files): Files {
    Files(StampOf(f.cert), StampOf(f.key))
  }

  const ZERO := Files(None, None)

  /** Both files were read, and neither is too long. */
  predicate Whole(id: Files) {
    id.cert.Some? && id.key.Some?
  }

  datatype Line = NotReloaded | Reloaded

  datatype Store = Store(cert: Certificate, served: Files, failed: Files, lines: seq<Line>)

  /** A served identity loads to the certificate held, and a failed one to none. */
  predicate Inv(load: Loader, s: Store) {
    && (Whole(s.served) ==> Load(load, s.served) == Some(s.cert))
    && (Whole(s.failed) ==> Load(load, s.failed) == None)
  }

  /** reloadLocked. */
  function Look(load: Loader, s: Store, f: Files, force: bool): Store {
    var id := IdentityOf(f);
    if (id == s.served || id == s.failed) && !force then s
    else
      var c := Load(load, f);
      if c.None? then s.(failed := id, lines := s.lines + [NotReloaded])
      else if id == s.served then s
      else s.(cert := c.value, served := id, failed := ZERO, lines := s.lines + [Reloaded])
  }

  lemma WholeIsItself(f: Files)
    requires Whole(IdentityOf(f))
    ensures IdentityOf(f) == f
  {
  }

  lemma LookKeeps(load: Loader, s: Store, f: Files, force: bool)
    requires Inv(load, s)
    ensures Inv(load, Look(load, s, f, force))
  {
    if Whole(IdentityOf(f)) {
      WholeIsItself(f);
    }
  }

  /** What should be served after a look: the files' certificate if they load to one, and
      otherwise the one before. */
  function Wanted(load: Loader, s: Store, f: Files): Certificate {
    var c := Load(load, f);
    if c.Some? then c.value else s.cert
  }

  /** A look that takes new files for old ones: one of them is too long to be told from
      another, and what the two looked like was served or, unforced, had failed. */
  predicate Mistaken(s: Store, f: Files, force: bool) {
    !Whole(IdentityOf(f)) && (IdentityOf(f) == s.served || (IdentityOf(f) == s.failed && !force))
  }

  /** After a look the store serves the files' pair if it loads and the previous
      certificate otherwise, forced or not; except exactly when it mistakes a pair that
      loads to another certificate. */
  lemma LookServesTheFiles(load: Loader, s: Store, f: Files, force: bool)
    requires Inv(load, s)
    ensures Look(load, s, f, force).cert == Wanted(load, s, f) <==>
              !(Mistaken(s, f, force) && Wanted(load, s, f) != s.cert)
  {
    if Whole(IdentityOf(f)) {
      WholeIsItself(f);
    }
  }

  /** Files that can be read, neither of more than a megabyte, are never mistaken. */
  lemma ReadableFilesAreServed(load: Loader, s: Store, f: Files, force: bool)
    requires Inv(load, s) && f.cert.Some? && f.key.Some?
    requires |f.cert.value| <= 1_048_576 && |f.key.value| <= 1_048_576
    ensures Look(load, s, f, force).cert == Wanted(load, s, f)
  {
    LookServesTheFiles(load, s, f, force);
  }

  /** The failing case: a pair that loads, too long to look at, is not noticed even when
      forced, once such a pair has been served. */
  lemma LongFilesAreMistaken(load: Loader, s: Store, old_: Files, new_: Files)
    requires old_.cert.Some? && new_.cert.Some? && |old_.cert.value| > 1_048_576 && |new_.cert.value| > 1_048_576
    requires old_.key == new_.key && Load(load, old_).Some? && Load(load, new_).Some?
    requires Load(load, old_) != Load(load, new_)
    requires s.served == IdentityOf(old_) && Some(s.cert) == Load(load, old_)
    ensures Look(load, s, new_, true).cert == s.cert != Load(load, new_).value
  {
    assert IdentityOf(new_) == s.served;
  }

  // ----- runs of looks -----

  function Run(load: Loader, s: Store, looks: seq<(Files, bool)>): Store {
    if looks == [] then s
    else Look(load, Run(load, s, looks[..|looks| - 1]), looks[|looks| - 1].0, looks[|looks| - 1].1)
  }

  /** The certificate of the last pair looked at that loads, or the first one of all. */
  function LastThatLoads(load: Loader, first: Certificate, looks: seq<(Files, bool)>): Certificate {
    if looks == [] then first
    else
      var c := Load(load, looks[|looks| - 1].0);
      if c.Some? then c.value else LastThatLoads(load, first, looks[..|looks| - 1])
  }

  predicate Fits(f: Files) {
    (f.cert.Some? ==> |f.cert.value| <= MAX_CERT_FILE) && (f.key.Some? ==> |f.key.value| <= MAX_CERT_FILE)
  }

  /** Whatever the files do, as long as none is too long to look at: after any looks the
      store serves the last pair it looked at that loads. */
  lemma {:induction false} HistoryDecides(load: Loader, s: Store, looks: seq<(Files, bool)>)
    requires Inv(load, s) && forall l :: l in looks ==> Fits(l.0)
    ensures Inv(load, Run(load, s, looks)) && Run(load, s, looks).cert == LastThatLoads(load, s.cert, looks)
  {
    if looks != [] {
      var front, l := looks[..|looks| - 1], looks[|looks| - 1];
      HistoryDecides(load, s, front);
      LookKeeps(load, Run(load, s, front), l.0, l.1);
      LookServesTheFiles(load, Run(load, s, front), l.0, l.1);
      assert l in looks;
    }
  }

  /** Unforced looks, one after another, at files that stay as they are. */
  function Looks(load: Loader, s: Store, f: Files, n: nat): Store {
    if n == 0 then s else Look(load, Looks(load, s, f, n - 1), f, false)
  }

  /** A pair that does not load is said once in a run of looks at it, however long; not at
      all when it is the pair that failed last; and a pair with neither file readable is
      taken for that when nothing has failed since the last load. */
  lemma {:induction false} FailureSaidOnce(load: Loader, s: Store, f: Files, n: nat)
    requires n > 0 && Load(load, f) == None
    ensures var t, id := Looks(load, s, f, n), IdentityOf(f);
            && t.cert == s.cert && t.served == s.served
            && t.lines == s.lines + (if id == s.failed || id == s.served then [] else [NotReloaded])
            && (id == s.served || t.failed == id)
  {
    if n > 1 {
      FailureSaidOnce(load, s, f, n - 1);
    } else {
      assert Looks(load, s, f, 0) == s;
    }
  }

  /** When both files cannot be read, right after a load, nothing is ever said. */
  lemma BothGoneIsSilent(load: Loader, s: Store, n: nat)
    requires s.failed == ZERO && n > 0
    ensures Looks(load, s, ZERO, n).lines == s.lines
  {
    FailureSaidOnce(load, s, ZERO, n);
  }

  /** A pair that loads is served at the first look, and said once. */
  lemma {:induction false} NewPairServedOnce(load: Loader, s: Store, f: Files, n: nat)
    requires n > 0 && Inv(load, s) && Whole(IdentityOf(f)) && Load(load, f).Some? && IdentityOf(f) != s.served
    ensures var t := Looks(load, s, f, n);
            t.cert == Load(load, f).value && t.served == IdentityOf(f) && t.lines == s.lines + [Reloaded]
  {
    WholeIsItself(f);
    if n > 1 {
      NewPairServedOnce(load, s, f, n - 1);
    } else {
      assert Looks(load, s, f, 0) == s;
    }
  }

  /** A load forgets what failed before it: a bad pair that comes back after a good one is
      said again; but for one of which neither file can be looked at. */
  lemma BadPairIsSaidAgain(load: Loader, s: Store, bad: Files, good: Files)
    requires Inv(load, s) && Load(load, bad) == None && Load(load, good).Some? && Whole(IdentityOf(good))
    requires IdentityOf(good) != s.served && IdentityOf(bad) != IdentityOf(good)
    ensures var a := Look(load, s, bad, false);
            var b := Look(load, a, good, false);
            && b.lines == a.lines + [Reloaded] && b.cert == Load(load, good).value
            && Look(load, b, bad, false).lines == b.lines + if IdentityOf(bad) == ZERO then [] else [NotReloaded]
  {
    WholeIsItself(good);
    LookKeeps(load, s, bad, false);
    if Whole(IdentityOf(bad)) {
      WholeIsItself(bad);
    }
  }

  /** A forced look at a pair that does not load is said every time, and changes nothing
      that is served; one at the pair that is served says nothing. */
  lemma ForcedLookSays(load: Loader, s: Store, f: Files)
    requires Inv(load, s)
    ensures var t := Look(load, s, f, true);
            && (Load(load, f) == None ==> t == s.(failed := IdentityOf(f), lines := s.lines + [NotReloaded]))
            && (Load(load, f).Some? && IdentityOf(f) == s.served ==> t == s)
            && (Load(load, f).Some? && IdentityOf(f) != s.served ==>
                  t == Store(Load(load, f).value, IdentityOf(f), ZERO, s.lines + [Reloaded]))
  {
  }

  // ----- the store as it runs -----

  class CertStore {
    const load: Loader
    const recheck: int
    var cert: Certificate
    var served: Files
    var failed: Files
    var checked: int
    var lines: seq<Line>

    function State(): Store
      reads this
    {
      Store(cert, served, failed, lines)
    }

    ghost predicate Valid()
      reads this
    {
      Inv(load, State())
    }

    /** newCertStore, once the pair has loaded. */
    constructor (load: Loader, recheck: int, f: Files, now: int)
      requires Load(load, f).Some?
      ensures Valid() && State() == Store(Load(load, f).value, IdentityOf(f), ZERO, [])
      ensures checked == now && this.load == load && this.recheck == recheck
    {
      this.load, this.recheck := load, recheck;
      cert, served, failed, checked, lines := Load(load, f).value, IdentityOf(f), ZERO, now, [];
    }

    /** get: looks when the last look is old, or the clock went back. */
    method Get(now: int, f: Files) returns (c: Certificate)
      requires Valid()
      modifies this
      ensures Valid() && c == cert
      ensures var due := now - old(checked) >= recheck || now < old(checked);
              && State() == (if due then Look(load, old(State()), f, false) else old(State()))
              && checked == (if due then now else old(checked))
              && (due && Whole(IdentityOf(f)) ==> c == Wanted(load, old(State()), f))
    {
      var d := now - checked;
      if d >= recheck || d < 0 {
        ReloadLocked(now, f, false);
      }
      c := cert;
    }

    /** Reload, on SIGHUP. */
    method Reload(now: int, f: Files)
      requires Valid()
      modifies this
      ensures Valid() && State() == Look(load, old(State()), f, true) && checked == now
      ensures Whole(IdentityOf(f)) ==> cert == Wanted(load, old(State()), f)
    {
      ReloadLocked(now, f, true);
    }

    method ReloadLocked(now: int, f: Files, force: bool)
      requires Valid()
      modifies this
      ensures Valid() && State() == Look(load, old(State()), f, force) && checked == now
      ensures Whole(IdentityOf(f)) ==> cert == Wanted(load, old(State()), f)
    {
      LookKeeps(load, State(), f, force);
      LookServesTheFiles(load, State(), f, force);
      checked := now;
      var id := IdentityOf(f);
      if id == served && !force {
        return;
      }
      if id == failed && !force {
        return;
      }
      var c := Load(load, f);
      if c.None? {
        if id != failed || force {
          lines := lines + [NotReloaded];
        }
        failed := id;
        return;
      }
      if id == served {
        return;
      }
      cert, served, failed := c.value, id, ZERO;
      lines := lines + [Reloaded];
    }
  }
}
