/** What is published of a person (entries.go): the entry after one rebuild and one drop
    round, its shape, what it has and what names it. */
module People {
  import opened Wrappers
  import opened Schemas
  import opened Declared
  import opened LeftOff
  import opened Validated
  import opened Entries
  import opened Shapes
  import opened Rebuild
  import opened Names
  import opened Rdns

  function RuleName(s: Schema, e: Entry): string
    requires Acyclic(s)
  {
    if RuleOf(s, e).Some? then RuleOf(s, e).value.name else ""
  }

  /** The classes left off a person's entry, as Validate's answer for the first build says. */
  function PersonOff(s: Schema, cfg: Config, p: Profile, validate: Entry -> seq<Problem>): seq<LeftOff>
    requires Acyclic(s)
  {
    var e := PersonEntry(s, cfg, p, {});
    Unmet(s, PersonAdded(s, cfg, p, {}), validate(e), RuleName(s, e))
  }

  function PersonSkip(s: Schema, cfg: Config, p: Profile, validate: Entry -> seq<Problem>): set<Class>
    requires Acyclic(s)
  {
    ClassesOf(PersonOff(s, cfg, p, validate))
  }

  /** The entry after the one rebuild; with nothing left off it is the first build. */
  function Rebuilt(s: Schema, cfg: Config, p: Profile, validate: Entry -> seq<Problem>): Entry
    requires Acyclic(s)
  {
    PersonEntry(s, cfg, p, PersonSkip(s, cfg, p, validate))
  }

  /** ... and after the one drop round. */
  function PersonPublished(s: Schema, cfg: Config, p: Profile, validate: Entry -> seq<Problem>): Entry
    requires Acyclic(s)
  {
    Dropped(Rebuilt(s, cfg, p, validate), validate(Rebuilt(s, cfg, p, validate)))
  }

  // ----- the classes -----

  ghost predicate OnChain(chain: seq<Class>, base: seq<Class>) {
    chain <= base && Distinct(base) && forall i :: |chain| <= i < |base| ==> IsDerived(base[i])
  }

  lemma PlusOn(chain: seq<Class>, base: seq<Class>, b: bool, c: Class)
    requires OnChain(chain, base) && IsDerived(c) && c !in base
    ensures OnChain(chain, Plus(base, b, c))
    ensures forall x :: x in Plus(base, b, c) <==> x in base || (b && x == c)
  {
  }

  lemma ChainAlone(s: Schema, p: Profile)
    ensures OnChain(PersonChain(s, p), PersonChain(s, p)) && forall c :: c in PersonChain(s, p) ==> !IsDerived(c)
  {
  }

  function KeyedBase(s: Schema, p: Profile, skip: set<Class>): seq<Class> {
    var posix := Plus(PersonChain(s, p), IsPosix(s, p) && PosixAccount !in skip, PosixAccount);
    Plus(posix, KeysOf(p, skip) != [], LdapPublicKey)
  }

  lemma KeyedHas(s: Schema, p: Profile, skip: set<Class>)
    ensures OnChain(PersonChain(s, p), KeyedBase(s, p, skip))
    ensures forall c :: c in KeyedBase(s, p, skip) <==>
              || c in PersonChain(s, p)
              || (c == PosixAccount && IsPosix(s, p) && PosixAccount !in skip)
              || (c == LdapPublicKey && KeysOf(p, skip) != [])
    ensures SambaSamAccount !in PersonChain(s, p) && UidObject !in PersonChain(s, p)
  {
    var chain := PersonChain(s, p);
    ChainAlone(s, p);
    var derived := IsPosix(s, p) && PosixAccount !in skip;
    PlusOn(chain, chain, derived, PosixAccount);
    PlusOn(chain, Plus(chain, derived, PosixAccount), KeysOf(p, skip) != [], LdapPublicKey);
  }

  lemma BaseHas(s: Schema, p: Profile, skip: set<Class>)
    ensures OnChain(PersonChain(s, p), PersonBase(s, p, skip))
    ensures forall c :: c in PersonBase(s, p, skip) <==> c in PersonChain(s, p) || DerivedFor(s, p, skip, c)
  {
    var chain, keyed := PersonChain(s, p), KeyedBase(s, p, skip);
    KeyedHas(s, p, skip);
    PlusOn(chain, keyed, SambaDerived(p, skip), SambaSamAccount);
    PlusOn(chain, Plus(keyed, SambaDerived(p, skip), SambaSamAccount), UidObject !in skip, UidObject);
  }

  /** The auxiliary classes a person has what it takes for. */
  predicate DerivedFor(s: Schema, p: Profile, skip: set<Class>, c: Class) {
    match c
    case PosixAccount => IsPosix(s, p) && c !in skip
    case LdapPublicKey => p.keys != [] && c !in skip
    case SambaSamAccount => SambaDerived(p, skip)
    case UidObject => c !in skip
    case _ => false
  }

  /** The structural classes of a person's entry, whatever is declared or left off: those of
      inetOrgPerson where a source gives an sn, and account where none does. */
  lemma PersonIsOfOneClass(s: Schema, cfg: Config, p: Profile, skip: set<Class>)
    requires Built(s) && Standard(s) && Declarable(s, cfg)
    ensures var classes := PersonEntry(s, cfg, p, skip).classes;
            && (Account in classes <==> !Has(s, p.given, Sn))
            && (InetOrgPerson in classes <==> Has(s, p.given, Sn))
            && (OrganizationalPerson in classes <==> Has(s, p.given, Sn))
            && (Person in classes <==> Has(s, p.given, Sn))
  {
    PersonLaid(s, cfg, p, skip);
    OneChain(s, PersonChain(s, p), PersonBase(s, p, skip), PersonAdded(s, cfg, p, skip));
    forall c | c in PersonChain(s, p)
      ensures c in PersonEntry(s, cfg, p, skip).classes
    {
      InClosed(s, PersonBase(s, p, skip), PersonAdded(s, cfg, p, skip), c);
      BaseHas(s, p, skip);
    }
  }

  /** The auxiliary classes that follow from what a person has; any other class is declared,
      or above a declared one. */
  lemma PersonHasTheClassesOf(s: Schema, cfg: Config, p: Profile, skip: set<Class>, c: Class)
    requires Acyclic(s) && IsDerived(c)
    ensures c in PersonEntry(s, cfg, p, skip).classes <==>
              || c in AncestorsOf(s, PersonAdded(s, cfg, p, skip))
              || (c !in skip &&
                  match c
                  case PosixAccount =>
                    Has(s, p.given, UidNumber) && Has(s, p.given, GidNumber) && Has(s, p.given, HomeDirectory)
                  case LdapPublicKey => p.keys != []
                  case SambaSamAccount => p.nt.Some? && p.sid != ""
                  case _ => true)
  {
    BaseHas(s, p, skip);
    ChainAlone(s, p);
    InClosed(s, PersonBase(s, p, skip), PersonAdded(s, cfg, p, skip), c);
  }

  /** The attributes of a person's entry, in their order: their classes, their name, a cn
      where a class has one, what was given, and what is derived: a SID where there is an NT
      hash and none is given, that hash, and the keys. */
  lemma PersonAttributes(s: Schema, cfg: Config, p: Profile, skip: set<Class>)
    requires Acyclic(s)
    ensures var e := PersonEntry(s, cfg, p, skip);
            var cn := exists c :: c in e.classes && Cn in s.must(c) + s.may(c);
            var samba := p.nt.Some? && p.sid != "" && SambaSamAccount !in skip;
            var sid := exists a :: a in p.given && a.desc == Bare(SambaSid) && a.values != [];
            var keyed := p.keys != [] && LdapPublicKey !in skip;
            && e.dn == "uid=" + p.name + "," + cfg.peopleDn && !e.group
            && e.attrs ==
                 [Attribute(Bare(ObjectClass), ["top"] + ClassNames(e.classes)), Attribute(Bare(Uid), [p.name])] +
                 (if cn then [Attribute(Bare(Cn), [p.name])] else []) + p.given +
                 ((if samba && !sid then [Attribute(Bare(SambaSid), [p.sid])] else []) +
                  (if samba then [Attribute(Bare(SambaNtPassword), [p.nt.value])] else []) +
                  (if keyed then [Attribute(Bare(SshPublicKey), p.keys)] else []))
  {
  }

  lemma PersonLaid(s: Schema, cfg: Config, p: Profile, skip: set<Class>)
    requires Acyclic(s) && Declarable(s, cfg)
    ensures Laid(s, PersonChain(s, p), PersonBase(s, p, skip), PersonAdded(s, cfg, p, skip))
  {
    BaseHas(s, p, skip);
    CarriedMeans(s, cfg.known, p.declared, skip);
  }

  lemma PersonRebuilds(s: Schema, cfg: Config, p: Profile, skip: set<Class>)
    requires Acyclic(s) && Declarable(s, cfg)
    ensures Rebuilds(s, PersonChain(s, p), PersonBase(s, p, {}), PersonAdded(s, cfg, p, {}),
                     PersonBase(s, p, skip), PersonAdded(s, cfg, p, skip), skip)
  {
    PersonLaid(s, cfg, p, {});
    PersonLaid(s, cfg, p, skip);
    BaseHas(s, p, {});
    BaseHas(s, p, skip);
    CarriedMeans(s, cfg.known, p.declared, {});
    CarriedMeans(s, cfg.known, p.declared, skip);
  }

  // ----- the attributes -----

  /** The types the server adds itself. */
  predicate OwnType(s: Schema, classes: seq<Class>, p: Profile, skip: set<Class>, t: Type) {
    match t
    case ObjectClass => true
    case Uid => true
    case Cn => AllowsExactly(s, classes, Cn)
    case SambaSid => SambaDerived(p, skip) && !GivesSid(p)
    case SambaNtPassword => SambaDerived(p, skip)
    case SshPublicKey => KeysOf(p, skip) != []
    case _ => false
  }

  lemma HasBoth(s: Schema, a: seq<Attribute>, b: seq<Attribute>, t: Type)
    ensures Has(s, a + b, t) <==> Has(s, a, t) || Has(s, b, t)
  {
    if Has(s, a, t) {
      var x :| x in a && s.typeOf(x.desc) == Some(t);
      assert x in a + b;
    }
    if Has(s, b, t) {
      var x :| x in b && s.typeOf(x.desc) == Some(t);
      assert x in a + b;
    }
  }

  lemma HasOwn(s: Schema, b: bool, u: Type, values: seq<string>, t: Type)
    requires s.typeOf(Bare(u)) == Some(u)
    ensures Has(s, Own(b, u, values), t) <==> b && t == u
  {
    if b {
      assert Attribute(Bare(u), values) in Own(b, u, values);
    }
  }

  lemma HeadHas(s: Schema, classes: seq<Class>, p: Profile, t: Type)
    requires Built(s)
    ensures Has(s, PersonHead(s, classes, p), t) <==>
              t == ObjectClass || t == Uid || (t == Cn && AllowsExactly(s, classes, Cn))
  {
    var names := ["top"] + ClassNames(classes);
    var cn := Own(AllowsExactly(s, classes, Cn), Cn, [p.name]);
    HasOwn(s, true, ObjectClass, names, t);
    HasOwn(s, true, Uid, [p.name], t);
    HasOwn(s, AllowsExactly(s, classes, Cn), Cn, [p.name], t);
    assert PersonHead(s, classes, p) == (Own(true, ObjectClass, names) + Own(true, Uid, [p.name])) + cn;
    HasBoth(s, Own(true, ObjectClass, names), Own(true, Uid, [p.name]), t);
    HasBoth(s, Own(true, ObjectClass, names) + Own(true, Uid, [p.name]), cn, t);
  }

  lemma TailHas(s: Schema, p: Profile, skip: set<Class>, t: Type)
    requires Built(s)
    ensures Has(s, PersonTail(p, skip), t) <==>
              || (t == SambaSid && SambaDerived(p, skip) && !GivesSid(p))
              || (t == SambaNtPassword && SambaDerived(p, skip))
              || (t == SshPublicKey && KeysOf(p, skip) != [])
  {
    var nt := [if p.nt.Some? then p.nt.value else ""];
    var a, b := SambaDerived(p, skip) && !GivesSid(p), SambaDerived(p, skip);
    HasOwn(s, a, SambaSid, [p.sid], t);
    HasOwn(s, b, SambaNtPassword, nt, t);
    HasOwn(s, KeysOf(p, skip) != [], SshPublicKey, KeysOf(p, skip), t);
    HasBoth(s, Own(a, SambaSid, [p.sid]), Own(b, SambaNtPassword, nt), t);
    var keys := Own(KeysOf(p, skip) != [], SshPublicKey, KeysOf(p, skip));
    HasBoth(s, Own(a, SambaSid, [p.sid]) + Own(b, SambaNtPassword, nt), keys, t);
  }

  lemma PersonHas(s: Schema, cfg: Config, p: Profile, skip: set<Class>, t: Type)
    requires Built(s)
    ensures var e := PersonEntry(s, cfg, p, skip);
            Has(s, e.attrs, t) <==> OwnType(s, e.classes, p, skip, t) || Has(s, p.given, t)
  {
    var classes := PersonClasses(s, cfg, p, skip);
    HeadHas(s, classes, p, t);
    TailHas(s, p, skip, t);
    HasBoth(s, PersonHead(s, classes, p), p.given, t);
    HasBoth(s, PersonHead(s, classes, p) + p.given, PersonTail(p, skip), t);
  }

  /** The server adds nothing the entry's classes do not allow. */
  lemma OwnTypeAllowed(s: Schema, cfg: Config, p: Profile, skip: set<Class>, t: Type)
    requires Built(s) && Standard(s) && Declarable(s, cfg) && OwnType(s, PersonClasses(s, cfg, p, skip), p, skip, t)
    ensures Allowed(s, PersonEntry(s, cfg, p, skip), t)
  {
    var e := PersonEntry(s, cfg, p, skip);
    BaseHas(s, p, skip);
    ClosedMeans(s, PersonAdded(s, cfg, p, skip), PersonBase(s, p, skip));
    assert forall c :: c in PersonBase(s, p, skip) ==> c in e.classes;
    assert s.isA(t, t);
    if t == Cn {
      var c :| c in e.classes && t in s.must(c) + s.may(c);
    } else if t == SshPublicKey {
      assert LdapPublicKey in e.classes && t in s.must(LdapPublicKey) + s.may(LdapPublicKey);
    } else if t == SambaSid || t == SambaNtPassword {
      assert SambaSamAccount in e.classes && t in s.must(SambaSamAccount) + s.may(SambaSamAccount);
    } else {
      var c := if Has(s, p.given, Sn) then InetOrgPerson else Account;
      assert c in e.classes && t in s.must(c) + s.may(c);
    }
  }

  lemma PersonOwnAllowed(s: Schema, cfg: Config, p: Profile, skip: set<Class>, a: Attribute)
    requires Built(s) && Standard(s) && Declarable(s, cfg)
    requires a in PersonEntry(s, cfg, p, skip).attrs && a.desc !in Descs(p.given)
    ensures s.typeOf(a.desc).Some? && Allowed(s, PersonEntry(s, cfg, p, skip), s.typeOf(a.desc).value)
  {
    var classes := PersonClasses(s, cfg, p, skip);
    assert a in PersonHead(s, classes, p) || a in PersonTail(p, skip);
    assert a.desc.Bare? && OwnType(s, classes, p, skip, a.desc.t);
    OwnTypeAllowed(s, cfg, p, skip, a.desc.t);
  }

  // ----- the rebuild -----

  /** A schema as built, with the classes the server derives, a site's declared classes,
      and a validator. */
  ghost predicate World(s: Schema, cfg: Config, validate: Entry -> seq<Problem>) {
    Built(s) && Standard(s) && Declarable(s, cfg) && Lists(s, validate)
  }

  lemma SkipMeans(s: Schema, cfg: Config, p: Profile, validate: Entry -> seq<Problem>)
    requires World(s, cfg, validate)
    ensures var e := PersonEntry(s, cfg, p, {});
            && ListsFor(s, e, validate(e))
            && SaidOnce(PersonOff(s, cfg, p, validate))
            && PersonSkip(s, cfg, p, validate) == SkipOf(s, PersonAdded(s, cfg, p, {}), validate(e))
  {
    var e := PersonEntry(s, cfg, p, {});
    UnmetMeans(s, PersonAdded(s, cfg, p, {}), validate(e), RuleName(s, e));
  }

  /** After the one rebuild, no class is outside the content rule's AUX, superclasses are
      all listed, there is one structural chain, and nothing the server adds is refused. */
  lemma RebuiltIsShaped(s: Schema, cfg: Config, p: Profile, validate: Entry -> seq<Problem>)
    requires World(s, cfg, validate)
    ensures Shaped(s, Rebuilt(s, cfg, p, validate))
    ensures RuleOf(s, Rebuilt(s, cfg, p, validate)) == s.rule(Leaf(PersonChain(s, p)))
  {
    var skip := PersonSkip(s, cfg, p, validate);
    var first, e := PersonEntry(s, cfg, p, {}), Rebuilt(s, cfg, p, validate);
    var chain, base, added := PersonChain(s, p), PersonBase(s, p, skip), PersonAdded(s, cfg, p, skip);
    SkipMeans(s, cfg, p, validate);
    PersonRebuilds(s, cfg, p, skip);
    forall r, c | s.rule(Leaf(chain)) == Some(r) && c in e.classes && s.kind(c) == Auxiliary
      ensures c in r.aux
    {
      RebuiltAuxAllowed(s, first, validate(first), chain, PersonBase(s, p, {}), PersonAdded(s, cfg, p, {}),
                        base, added, skip, r, c);
    }
    forall a | a in e.attrs && a.desc !in e.given
      ensures s.typeOf(a.desc).Some? && Allowed(s, e, s.typeOf(a.desc).value)
    {
      PersonOwnAllowed(s, cfg, p, skip, a);
    }
    LaidIsShaped(s, e, chain, base, added);
  }

  /** What the server derived for the first build, no source gives, and the rebuild takes
      away with the class it was derived for. */
  predicate Withdrawn(s: Schema, p: Profile, skip: set<Class>, t: Type) {
    && !Has(s, p.given, t)
    && match t
       case SshPublicKey => p.keys != [] && LdapPublicKey in skip
       case SambaSid => SambaDerived(p, {}) && SambaSamAccount in skip
       case SambaNtPassword => SambaDerived(p, {}) && SambaSamAccount in skip
       case _ => false
  }

  /** What the derived classes require, and what they are derived from. */
  lemma DerivedRequires(s: Schema, p: Profile, skip: set<Class>, c: Class, t: Type)
    requires Standard(s) && c in PersonBase(s, p, skip) && t in s.must(c)
    ensures t == ObjectClass || t == Uid || t == Cn || Has(s, p.given, t) || (t == SambaSid && SambaDerived(p, skip))
  {
    BaseHas(s, p, skip);
  }

  lemma GivenSid(s: Schema, p: Profile)
    requires Built(s) && GivesSid(p)
    ensures Has(s, p.given, SambaSid)
  {
    var a :| a in p.given && a.desc == Bare(SambaSid) && a.values != [];
    assert s.typeOf(a.desc) == Some(SambaSid);
  }

  lemma DerivedHasMust(s: Schema, cfg: Config, p: Profile, skip: set<Class>, c: Class, t: Type)
    requires Built(s) && Standard(s) && c in PersonBase(s, p, skip) && t in s.must(c)
    ensures Has(s, PersonEntry(s, cfg, p, skip).attrs, t) && !Withdrawn(s, p, skip, t)
  {
    DerivedRequires(s, p, skip, c, t);
    PersonHas(s, cfg, p, skip, t);
    InClosed(s, PersonBase(s, p, skip), PersonAdded(s, cfg, p, skip), c);
    if t == Cn {
      assert t in s.must(c) + s.may(c);
    }
    if t == SambaSid && GivesSid(p) {
      GivenSid(s, p);
    }
  }

  lemma KeptUnlessWithdrawn(s: Schema, cfg: Config, p: Profile, skip: set<Class>, x: Class, t: Type)
    requires Built(s) && x in PersonEntry(s, cfg, p, skip).classes && t in s.must(x)
    requires Has(s, PersonEntry(s, cfg, p, {}).attrs, t)
    ensures Has(s, PersonEntry(s, cfg, p, skip).attrs, t) <==> !Withdrawn(s, p, skip, t)
  {
    PersonHas(s, cfg, p, {}, t);
    PersonHas(s, cfg, p, skip, t);
    assert t in s.must(x) + s.may(x);
    if t == SambaSid && GivesSid(p) {
      GivenSid(s, p);
    }
  }

  /** After the rebuild a class of the entry misses a MUST exactly where the rebuild
      withdrew what it requires; so never a class the server derived. */
  lemma RebuiltMust(s: Schema, cfg: Config, p: Profile, validate: Entry -> seq<Problem>, c: Class, t: Type)
    requires World(s, cfg, validate) && c in Rebuilt(s, cfg, p, validate).classes && t in s.must(c)
    ensures var skip := PersonSkip(s, cfg, p, validate);
            && (Has(s, Rebuilt(s, cfg, p, validate).attrs, t) <==> !Withdrawn(s, p, skip, t))
            && (c in PersonBase(s, p, skip) ==> !Withdrawn(s, p, skip, t))
  {
    var skip := PersonSkip(s, cfg, p, validate);
    var first, base, added := PersonEntry(s, cfg, p, {}), PersonBase(s, p, skip), PersonAdded(s, cfg, p, skip);
    PersonRebuilds(s, cfg, p, skip);
    InClosed(s, base, added, c);
    if c in base {
      DerivedHasMust(s, cfg, p, skip, c, t);
    } else {
      SkipMeans(s, cfg, p, validate);
      var base1, added1 := PersonBase(s, p, {}), PersonAdded(s, cfg, p, {});
      var x := BroughtInHadMust(s, first, validate(first), PersonChain(s, p), base1, added1,
                                base, added, skip, c, t);
      AddedIsThere(s, PersonChain(s, p), base, added, x);
      KeptUnlessWithdrawn(s, cfg, p, skip, x, t);
    }
  }

  /** Every class a source declares is carried, or said to be left off once, or was not
      checked at startup; and never two of these. */
  lemma CarriedOrSaid(s: Schema, cfg: Config, p: Profile, validate: Entry -> seq<Problem>, n: string)
    requires World(s, cfg, validate) && n in p.declared && cfg.known(n).Some?
    ensures var c, off := cfg.known(n).value, PersonOff(s, cfg, p, validate);
            && (c in PersonAdded(s, cfg, p, PersonSkip(s, cfg, p, validate)) <==> c !in ClassesOf(off))
            && SaidOnce(off)
            && (c in Rebuilt(s, cfg, p, validate).classes <==> c !in ClassesOf(off))
  {
    var c, skip := cfg.known(n).value, PersonSkip(s, cfg, p, validate);
    var first := PersonEntry(s, cfg, p, {});
    SkipMeans(s, cfg, p, validate);
    CarriedMeans(s, cfg.known, p.declared, {});
    CarriedMeans(s, cfg.known, p.declared, skip);
    assert c in PersonAdded(s, cfg, p, {});
    SkipIsClosed(s, PersonAdded(s, cfg, p, {}), validate(first), c);
    PersonRebuilds(s, cfg, p, skip);
    PersonCarries(s, cfg, p, skip, c);
  }

  lemma PersonCarries(s: Schema, cfg: Config, p: Profile, skip: set<Class>, c: Class)
    requires Built(s) && Standard(s) && Declarable(s, cfg) && c.Site? && s.kind(c) == Auxiliary
    requires c in PersonAdded(s, cfg, p, {}) && (c in PersonAdded(s, cfg, p, skip) <==> c !in skip)
    ensures c in PersonEntry(s, cfg, p, skip).classes <==> c !in skip
  {
    var base, added := PersonBase(s, p, skip), PersonAdded(s, cfg, p, skip);
    PersonRebuilds(s, cfg, p, skip);
    if c in added {
      AddedIsThere(s, PersonChain(s, p), base, added, c);
    } else if c in Closed(s, added, base) {
      NothingNew(s, PersonChain(s, p), PersonBase(s, p, {}), PersonAdded(s, cfg, p, {}), base, added, skip, c);
    }
  }

  // ----- the published entry -----

  /** A class of the published entry misses a MUST exactly where the rebuild withdrew it. */
  lemma PublishedMust(s: Schema, cfg: Config, p: Profile, validate: Entry -> seq<Problem>, c: Class, t: Type)
    requires World(s, cfg, validate) && c in Rebuilt(s, cfg, p, validate).classes && t in s.must(c)
    ensures IsProblem(s, PersonPublished(s, cfg, p, validate), MissingRequired(t, ByClass(c))) <==>
              Withdrawn(s, p, PersonSkip(s, cfg, p, validate), t)
  {
    var e := Rebuilt(s, cfg, p, validate);
    RebuiltIsShaped(s, cfg, p, validate);
    DroppedMust(s, e, validate(e), c, t);
    RebuiltMust(s, cfg, p, validate, c, t);
  }

  /** A second question drops nothing more. */
  lemma OneRoundForPeople(s: Schema, cfg: Config, p: Profile, validate: Entry -> seq<Problem>)
    requires World(s, cfg, validate)
    ensures var e := PersonPublished(s, cfg, p, validate); Dropped(e, validate(e)) == e
  {
    RebuiltIsShaped(s, cfg, p, validate);
    var e := Rebuilt(s, cfg, p, validate);
    SecondRoundDropsNothing(s, e, validate(e), validate(Dropped(e, validate(e))));
  }

  // ----- the name -----

  /** The RDN a person's DN parses to is their name. */
  predicate NamedByUid(s: Schema, cfg: Config, p: Profile) {
    NamedBy(s, s.rdnOf(DnOf(cfg.peopleDn, p.name)), Uid, p.name)
  }

  /** The content rule of the class a person with an sn has says NOT of uid. */
  predicate UidPrecluded(s: Schema, p: Profile) {
    Has(s, p.given, Sn) && Precludes(s.rule(InetOrgPerson), Uid)
  }

  /** A person whose DN parses to their name loses it exactly where the content rule of
      inetOrgPerson precludes uid. */
  lemma RdnStays(s: Schema, cfg: Config, p: Profile, validate: Entry -> seq<Problem>)
    requires World(s, cfg, validate) && NamedByUid(s, cfg, p)
    ensures IsProblem(s, PersonPublished(s, cfg, p, validate), RDNNotPresent) <==> UidPrecluded(s, p)
  {
    var e := Rebuilt(s, cfg, p, validate);
    RebuiltIsShaped(s, cfg, p, validate);
    UidIsThere(s, cfg, p, PersonSkip(s, cfg, p, validate));
    NamedLosesOnlyToNot(s, e, validate(e), Uid, Attribute(Bare(Uid), [p.name]), p.name);
    UidSpared(s, p);
  }

  /** One whose DN parses to anything else is refused, unless a source gives a uid. */
  lemma MisnamedPersonIsRefused(s: Schema, cfg: Config, p: Profile, validate: Entry -> seq<Problem>)
    requires World(s, cfg, validate) && !NamedByUid(s, cfg, p) && !Has(s, p.given, Uid)
    requires StartsWith(s, s.rdnOf(DnOf(cfg.peopleDn, p.name)), Uid, p.name)
    ensures IsProblem(s, PersonPublished(s, cfg, p, validate), RDNNotPresent)
  {
    var e := Rebuilt(s, cfg, p, validate);
    RebuiltIsShaped(s, cfg, p, validate);
    forall a, v | a in e.attrs && s.typeOf(a.desc) == Some(Uid) && v in a.values
      ensures v == p.name
    {
      OnlyOwnUid(s, cfg, p, PersonSkip(s, cfg, p, validate), a);
    }
    MisnamedIsRefused(s, e, validate(e), Uid, p.name);
  }

  /** So, with no source giving a uid: a person is refused for their name exactly where
      their DN does not parse to it, or the content rule precludes uid. */
  lemma RdnOfPeople(s: Schema, cfg: Config, p: Profile, validate: Entry -> seq<Problem>)
    requires World(s, cfg, validate) && ReadsDns(s, cfg) && !Has(s, p.given, Uid)
    ensures IsProblem(s, PersonPublished(s, cfg, p, validate), RDNNotPresent) <==>
              !NamedByUid(s, cfg, p) || UidPrecluded(s, p)
    ensures PlainText(p.name) ==>
              (NamedByUid(s, cfg, p) <==> s.rdnOf(cfg.peopleDn) != [] && s.same(Uid, p.name, p.name))
  {
    assert ReadsName(s, cfg.peopleDn, DnOf(cfg.peopleDn, p.name), Uid, p.name);
    if NamedByUid(s, cfg, p) {
      RdnStays(s, cfg, p, validate);
    } else {
      MisnamedPersonIsRefused(s, cfg, p, validate);
    }
  }

  /** Where the people's DN is no DN, everybody is refused, whatever a source gives. */
  lemma NobodyUnderNoDn(s: Schema, cfg: Config, p: Profile, validate: Entry -> seq<Problem>)
    requires World(s, cfg, validate) && ReadsDns(s, cfg) && s.rdnOf(cfg.peopleDn) == []
    ensures IsProblem(s, PersonPublished(s, cfg, p, validate), RDNNotPresent)
  {
    assert ReadsName(s, cfg.peopleDn, DnOf(cfg.peopleDn, p.name), Uid, p.name);
  }

  lemma OnlyOwnUid(s: Schema, cfg: Config, p: Profile, skip: set<Class>, a: Attribute)
    requires Built(s) && !Has(s, p.given, Uid) && a in PersonEntry(s, cfg, p, skip).attrs
    requires s.typeOf(a.desc) == Some(Uid)
    ensures a.values == [p.name]
  {
    var classes := PersonClasses(s, cfg, p, skip);
    assert a !in p.given;
    assert a in PersonHead(s, classes, p) || a in PersonTail(p, skip);
  }

  lemma UidIsThere(s: Schema, cfg: Config, p: Profile, skip: set<Class>)
    requires Built(s) && Standard(s) && Declarable(s, cfg)
    ensures var e := PersonEntry(s, cfg, p, skip);
            Attribute(Bare(Uid), [p.name]) in e.attrs && Allowed(s, e, Uid)
  {
    var e := PersonEntry(s, cfg, p, skip);
    OwnTypeAllowed(s, cfg, p, skip, Uid);
    assert Attribute(Bare(Uid), [p.name]) in PersonHead(s, e.classes, p);
  }

  /** account requires uid, so a content rule for it cannot preclude it. */
  lemma UidSpared(s: Schema, p: Profile)
    requires Built(s) && Standard(s)
    ensures Precludes(s.rule(Leaf(PersonChain(s, p))), Uid) <==> UidPrecluded(s, p)
  {
    if s.rule(Account).Some? {
      assert RuleOK(s, Account, s.rule(Account).value);
    }
  }
}
