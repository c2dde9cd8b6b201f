/** Why Validate refuses a person's published entry, said of the person and the schema
    alone; and when it is the rebuild that made it so. */
module Withheld {
  import opened Wrappers
  import opened Schemas
  import opened Declared
  import opened Validated
  import opened Entries
  import opened Shapes
  import opened People
  import opened Withdrawal

  // ----- what each build has -----

  /** A class of the first build. */
  ghost predicate AtFirst(s: Schema, cfg: Config, p: Profile, c: Class)
    requires Acyclic(s)
  {
    || c in PersonChain(s, p) || DerivedFor(s, p, {}, c)
    || (c != Top && exists x :: x in DeclaredClasses(cfg.known, p.declared) && c in Ancestors(s, x))
  }

  /** ... and of the rebuilt entry. */
  ghost predicate Kept(s: Schema, cfg: Config, p: Profile, c: Class)
    requires Acyclic(s)
  {
    || c in PersonChain(s, p) || (DerivedFor(s, p, {}, c) && !Refused(s, p, c))
    || (c != Top && exists x :: Stays(s, cfg, p, x) && c in Ancestors(s, x))
  }

  /** The types the server adds itself to the first build. */
  ghost predicate AddsAtFirst(s: Schema, cfg: Config, p: Profile, t: Type)
    requires Acyclic(s)
  {
    match t
    case ObjectClass => true
    case Uid => true
    case Cn => exists c :: AtFirst(s, cfg, p, c) && t in s.must(c) + s.may(c)
    case SambaSid => SambaDerived(p, {})
    case SambaNtPassword => SambaDerived(p, {})
    case SshPublicKey => p.keys != []
    case _ => false
  }

  /** ... and to the rebuilt entry. */
  ghost predicate StillAdds(s: Schema, cfg: Config, p: Profile, t: Type)
    requires Acyclic(s)
  {
    match t
    case ObjectClass => true
    case Uid => true
    case Cn => exists c :: Kept(s, cfg, p, c) && t in s.must(c) + s.may(c)
    case SambaSid => SambaDerived(p, {}) && !Refused(s, p, SambaSamAccount)
    case SambaNtPassword => SambaDerived(p, {}) && !Refused(s, p, SambaSamAccount)
    case SshPublicKey => p.keys != [] && !Refused(s, p, LdapPublicKey)
    case _ => false
  }

  lemma FirstClasses(s: Schema, cfg: Config, p: Profile, c: Class)
    requires Acyclic(s) && Declarable(s, cfg)
    ensures c in PersonEntry(s, cfg, p, {}).classes <==> AtFirst(s, cfg, p, c)
  {
    BaseHas(s, p, {});
    CarriedMeans(s, cfg.known, p.declared, {});
    InClosed(s, PersonBase(s, p, {}), PersonAdded(s, cfg, p, {}), c);
  }

  lemma DerivedKept(s: Schema, cfg: Config, p: Profile, validate: Entry -> seq<Problem>, c: Class)
    requires World(s, cfg, validate)
    ensures DerivedFor(s, p, PersonSkip(s, cfg, p, validate), c) <==> DerivedFor(s, p, {}, c) && !Refused(s, p, c)
  {
    BaseHas(s, p, {});
    if DerivedFor(s, p, {}, c) {
      DerivedLeftOff(s, cfg, p, validate, c);
    }
  }

  lemma RebuiltClasses(s: Schema, cfg: Config, p: Profile, validate: Entry -> seq<Problem>, c: Class)
    requires World(s, cfg, validate)
    ensures c in Rebuilt(s, cfg, p, validate).classes <==> Kept(s, cfg, p, c)
  {
    var skip := PersonSkip(s, cfg, p, validate);
    BaseHas(s, p, skip);
    DerivedKept(s, cfg, p, validate, c);
    InClosed(s, PersonBase(s, p, skip), PersonAdded(s, cfg, p, skip), c);
    forall x
      ensures x in PersonAdded(s, cfg, p, skip) <==> Stays(s, cfg, p, x)
    {
      StaysCarried(s, cfg, p, validate, x);
    }
  }

  lemma FirstHas(s: Schema, cfg: Config, p: Profile, t: Type)
    requires Built(s) && Declarable(s, cfg)
    ensures Has(s, PersonEntry(s, cfg, p, {}).attrs, t) <==> Has(s, p.given, t) || AddsAtFirst(s, cfg, p, t)
  {
    PersonHas(s, cfg, p, {}, t);
    if t == Cn {
      forall c
        ensures c in PersonEntry(s, cfg, p, {}).classes <==> AtFirst(s, cfg, p, c)
      {
        FirstClasses(s, cfg, p, c);
      }
    }
    if GivesSid(p) {
      GivenSid(s, p);
    }
  }

  /** What is derived for a person after the rebuild. */
  lemma DerivedStill(s: Schema, cfg: Config, p: Profile, validate: Entry -> seq<Problem>)
    requires World(s, cfg, validate)
    ensures var skip := PersonSkip(s, cfg, p, validate);
            && (KeysOf(p, skip) != [] <==> p.keys != [] && !Refused(s, p, LdapPublicKey))
            && (SambaDerived(p, skip) <==> SambaDerived(p, {}) && !Refused(s, p, SambaSamAccount))
  {
    var skip := PersonSkip(s, cfg, p, validate);
    DerivedKept(s, cfg, p, validate, LdapPublicKey);
    DerivedKept(s, cfg, p, validate, SambaSamAccount);
    DerivedBy(s, p, skip);
    DerivedBy(s, p, {});
  }

  lemma DerivedBy(s: Schema, p: Profile, skip: set<Class>)
    ensures DerivedFor(s, p, skip, LdapPublicKey) <==> KeysOf(p, skip) != []
    ensures DerivedFor(s, p, skip, SambaSamAccount) <==> SambaDerived(p, skip)
  {
  }

  lemma OwnIsAdded(s: Schema, cfg: Config, p: Profile, skip: set<Class>, classes: seq<Class>, t: Type)
    requires Built(s) && forall c :: c in classes <==> Kept(s, cfg, p, c)
    requires KeysOf(p, skip) != [] <==> p.keys != [] && !Refused(s, p, LdapPublicKey)
    requires SambaDerived(p, skip) <==> SambaDerived(p, {}) && !Refused(s, p, SambaSamAccount)
    ensures OwnType(s, classes, p, skip, t) || Has(s, p.given, t) <==>
              Has(s, p.given, t) || StillAdds(s, cfg, p, t)
  {
    if GivesSid(p) {
      GivenSid(s, p);
    }
  }

  lemma RebuiltHas(s: Schema, cfg: Config, p: Profile, validate: Entry -> seq<Problem>, t: Type)
    requires World(s, cfg, validate)
    ensures Has(s, Rebuilt(s, cfg, p, validate).attrs, t) <==> Has(s, p.given, t) || StillAdds(s, cfg, p, t)
  {
    var skip := PersonSkip(s, cfg, p, validate);
    PersonHas(s, cfg, p, skip, t);
    DerivedStill(s, cfg, p, validate);
    forall c
      ensures c in Rebuilt(s, cfg, p, validate).classes <==> Kept(s, cfg, p, c)
    {
      RebuiltClasses(s, cfg, p, validate, c);
    }
    OwnIsAdded(s, cfg, p, skip, Rebuilt(s, cfg, p, validate).classes, t);
  }

  // ----- what the content rule misses -----

  /** The content rule, of this name, requires a type that no source gives and the server
      does not add once the classes the rule refuses are gone. */
  ghost predicate RuleLacks(s: Schema, cfg: Config, p: Profile, rule: string, t: Type)
    requires Acyclic(s)
  {
    var r := s.rule(Leaf(PersonChain(s, p)));
    r.Some? && r.value.name == rule && t in r.value.must && !Has(s, p.given, t) && !StillAdds(s, cfg, p, t)
  }

  lemma RuleMustExactly(s: Schema, cfg: Config, p: Profile, validate: Entry -> seq<Problem>, rule: string, t: Type)
    requires World(s, cfg, validate)
    ensures IsProblem(s, PersonPublished(s, cfg, p, validate), MissingRequired(t, ByRule(rule))) <==>
              RuleLacks(s, cfg, p, rule, t)
  {
    var e := Rebuilt(s, cfg, p, validate);
    RebuiltIsShaped(s, cfg, p, validate);
    DroppedRuleMust(s, e, validate(e), rule, t);
    RebuiltHas(s, cfg, p, validate, t);
  }

  // ----- why a person is withheld -----

  /** The values the server has for a person. */
  predicate Offered(p: Profile, a: Attribute) {
    || a in p.given || a == Attribute(Bare(Uid), [p.name]) || a == Attribute(Bare(Cn), [p.name])
    || a == Attribute(Bare(SambaSid), [p.sid]) || a == Attribute(Bare(SshPublicKey), p.keys)
    || (p.nt.Some? && a == Attribute(Bare(SambaNtPassword), [p.nt.value]))
  }

  /** What can be said of a published person: a MUST of the content rule or of a declared
      class, a value they have, their name. */
  ghost predicate CannotMend(s: Schema, cfg: Config, p: Profile, q: Problem)
    requires Acyclic(s)
  {
    match q
    case MissingRequired(t, ByRule(rule)) => RuleLacks(s, cfg, p, rule, t)
    case MissingRequired(t, ByClass(c)) =>
      c != Top && t in s.must(c) && exists x :: OutlivesItsMust(s, cfg, p, x, t) && c in Ancestors(s, x)
    case BadValue(d) =>
      || (exists a :: Offered(p, a) && a.desc == d && !s.valuesOK(d, a.values))
      || (d == Bare(ObjectClass) &&
          exists cs :: (forall c :: c in cs <==> Kept(s, cfg, p, c)) && !s.valuesOK(d, ["top"] + ClassNames(cs)))
    case RDNNotPresent => !NamedByUid(s, cfg, p) || UidPrecluded(s, p)
    case _ => false
  }

  lemma AttributesAreOffered(s: Schema, cfg: Config, p: Profile, skip: set<Class>, a: Attribute)
    requires Acyclic(s) && a in PersonEntry(s, cfg, p, skip).attrs
    ensures || Offered(p, a)
            || a == Attribute(Bare(ObjectClass), ["top"] + ClassNames(PersonEntry(s, cfg, p, skip).classes))
  {
    var classes := PersonClasses(s, cfg, p, skip);
    assert a in PersonHead(s, classes, p) || a in p.given || a in PersonTail(p, skip);
  }

  lemma BadIsOffered(s: Schema, cfg: Config, p: Profile, validate: Entry -> seq<Problem>, d: Desc)
    requires World(s, cfg, validate) && IsProblem(s, PersonPublished(s, cfg, p, validate), BadValue(d))
    ensures CannotMend(s, cfg, p, BadValue(d))
  {
    var e := Rebuilt(s, cfg, p, validate);
    var a := BadWasThere(s, e, validate(e), d);
    AttributesAreOffered(s, cfg, p, PersonSkip(s, cfg, p, validate), a);
    forall c
      ensures c in e.classes <==> Kept(s, cfg, p, c)
    {
      RebuiltClasses(s, cfg, p, validate, c);
    }
  }

  lemma BadWasThere(s: Schema, e: Entry, ps: seq<Problem>, d: Desc) returns (a: Attribute)
    requires Acyclic(s) && IsProblem(s, Dropped(e, ps), BadValue(d))
    ensures a in e.attrs && a.desc == d && !s.valuesOK(a.desc, a.values)
  {
    KeepMeans(e.attrs, DropSet(e.given, ps));
    a :| a in Dropped(e, ps).attrs && a.desc == d && !s.valuesOK(a.desc, a.values);
  }

  /** The person stays published: nothing else is said of the entry after the rebuild and
      the drop round; and a MUST is missed exactly so. */
  lemma PersonStaysPublished(s: Schema, cfg: Config, p: Profile, validate: Entry -> seq<Problem>, q: Problem)
    requires World(s, cfg, validate)
    ensures IsProblem(s, PersonPublished(s, cfg, p, validate), q) ==> CannotMend(s, cfg, p, q)
    ensures q.MissingRequired? && CannotMend(s, cfg, p, q) ==> IsProblem(s, PersonPublished(s, cfg, p, validate), q)
  {
    match q
    case MissingRequired(t, ByRule(rule)) => RuleMustExactly(s, cfg, p, validate, rule, t);
    case MissingRequired(t, ByClass(c)) => ClassMustExactly(s, cfg, p, validate, c, t);
    case _ =>
      if IsProblem(s, PersonPublished(s, cfg, p, validate), q) {
        NothingElse(s, cfg, p, validate, q);
      }
  }

  lemma NothingElse(s: Schema, cfg: Config, p: Profile, validate: Entry -> seq<Problem>, q: Problem)
    requires World(s, cfg, validate) && IsProblem(s, PersonPublished(s, cfg, p, validate), q) && !q.MissingRequired?
    ensures CannotMend(s, cfg, p, q)
  {
    var e := Rebuilt(s, cfg, p, validate);
    RebuiltIsShaped(s, cfg, p, validate);
    OneRoundIsEnough(s, e, validate(e), q);
    if q.BadValue? {
      BadIsOffered(s, cfg, p, validate, q.desc);
    } else if NamedByUid(s, cfg, p) {
      RdnStays(s, cfg, p, validate);
    }
  }

  // ----- when one rebuild is not enough -----

  /** The content rule requires what is added to the first build, given by nobody, and not
      added once the classes the rule refuses are gone. */
  ghost predicate OutlivesItsRule(s: Schema, cfg: Config, p: Profile, t: Type)
    requires Acyclic(s)
  {
    var r := s.rule(Leaf(PersonChain(s, p)));
    r.Some? && RuleLacks(s, cfg, p, r.value.name, t) && AddsAtFirst(s, cfg, p, t)
  }

  /** The published entry misses a MUST that the first build had. */
  ghost predicate RebuildTook(s: Schema, cfg: Config, p: Profile, validate: Entry -> seq<Problem>, t: Type,
                              by_: Requirer)
    requires Acyclic(s)
  {
    && IsProblem(s, PersonPublished(s, cfg, p, validate), MissingRequired(t, by_))
    && Has(s, PersonEntry(s, cfg, p, {}).attrs, t)
  }

  /** Somebody withheld for a MUST that the rebuild itself took away: exactly those with a
      declared class that outlives what it requires, or whose content rule requires what
      goes with a class it refuses. */
  lemma OneRebuildIsNotEnough(s: Schema, cfg: Config, p: Profile, validate: Entry -> seq<Problem>)
    requires World(s, cfg, validate)
    ensures (exists t, by_ :: RebuildTook(s, cfg, p, validate, t, by_)) <==>
              || (exists x, t :: OutlivesItsMust(s, cfg, p, x, t))
              || (exists t :: OutlivesItsRule(s, cfg, p, t))
  {
    if t, by_ :| RebuildTook(s, cfg, p, validate, t, by_) {
      TookWhat(s, cfg, p, validate, t, by_);
    }
    if x, t :| OutlivesItsMust(s, cfg, p, x, t) {
      TookFromClass(s, cfg, p, validate, x, t);
    }
    if t :| OutlivesItsRule(s, cfg, p, t) {
      TookFromRule(s, cfg, p, validate, t);
    }
  }

  lemma TookWhat(s: Schema, cfg: Config, p: Profile, validate: Entry -> seq<Problem>, t: Type, by_: Requirer)
    requires World(s, cfg, validate) && RebuildTook(s, cfg, p, validate, t, by_)
    ensures by_.ByRule? ==> OutlivesItsRule(s, cfg, p, t)
    ensures by_.ByClass? ==> exists x :: OutlivesItsMust(s, cfg, p, x, t)
  {
    match by_
    case ByRule(rule) =>
      RuleMustExactly(s, cfg, p, validate, rule, t);
      FirstHas(s, cfg, p, t);
    case ByClass(c) =>
      var x := LostIt(s, cfg, p, validate, c, t);
  }

  lemma TookFromRule(s: Schema, cfg: Config, p: Profile, validate: Entry -> seq<Problem>, t: Type)
    requires World(s, cfg, validate) && OutlivesItsRule(s, cfg, p, t)
    ensures RebuildTook(s, cfg, p, validate, t, ByRule(s.rule(Leaf(PersonChain(s, p))).value.name))
  {
    RuleMustExactly(s, cfg, p, validate, s.rule(Leaf(PersonChain(s, p))).value.name, t);
    FirstHas(s, cfg, p, t);
  }

  lemma TookFromClass(s: Schema, cfg: Config, p: Profile, validate: Entry -> seq<Problem>, x: Class, t: Type)
    requires World(s, cfg, validate) && OutlivesItsMust(s, cfg, p, x, t)
    ensures RebuildTook(s, cfg, p, validate, t, ByClass(x))
  {
    Self(s, x);
    assert s.kind(Top) == Abstract && s.kind(x) == Auxiliary;
    LosesIt(s, cfg, p, validate, x, x, t);
    FirstHas(s, cfg, p, t);
  }
}
