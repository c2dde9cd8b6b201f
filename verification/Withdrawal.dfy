/** What the rebuild of a person's entry leaves off and takes away, said of the person and
    the schema alone, before anything is built. */
module Withdrawal {
  import opened Wrappers
  import opened Schemas
  import opened Declared
  import opened LeftOff
  import opened Validated
  import opened Entries
  import opened Shapes
  import opened Rebuild
  import opened People

  // ----- the condition -----

  /** The content rule of the class a person is given does not list an auxiliary class. */
  predicate Refused(s: Schema, p: Profile, c: Class) {
    var r := s.rule(Leaf(PersonChain(s, p)));
    r.Some? && c !in r.value.aux
  }

  /** ... lists a class and every auxiliary one above it. */
  ghost predicate Fits(s: Schema, p: Profile, x: Class)
    requires Acyclic(s)
  {
    forall a :: a in Ancestors(s, x) && s.kind(a) == Auxiliary ==> !Refused(s, p, a)
  }

  /** What the entry of a person has before anything is left off, as far as a class that
      requires it is concerned: what is given, and what is derived. */
  predicate Had(s: Schema, p: Profile, t: Type) {
    || t == ObjectClass || t == Uid || t == Cn || Has(s, p.given, t)
    || ((t == SambaSid || t == SambaNtPassword) && SambaDerived(p, {}))
    || (t == SshPublicKey && p.keys != [])
  }

  /** What is derived, not given, and goes with a class the content rule refuses. */
  predicate Lost(s: Schema, p: Profile, t: Type) {
    && !Has(s, p.given, t)
    && match t
       case SshPublicKey => p.keys != [] && Refused(s, p, LdapPublicKey)
       case SambaSid => SambaDerived(p, {}) && Refused(s, p, SambaSamAccount)
       case SambaNtPassword => SambaDerived(p, {}) && Refused(s, p, SambaSamAccount)
       case _ => false
  }

  /** A declared class that fits, and had what it requires. */
  ghost predicate Stays(s: Schema, cfg: Config, p: Profile, x: Class)
    requires Acyclic(s)
  {
    x in DeclaredClasses(cfg.known, p.declared) && Fits(s, p, x) && forall u :: u in s.must(x) ==> Had(s, p, u)
  }

  /** ... and requires what is lost. */
  ghost predicate OutlivesItsMust(s: Schema, cfg: Config, p: Profile, x: Class, t: Type)
    requires Acyclic(s)
  {
    Stays(s, cfg, p, x) && t in s.must(x) && Lost(s, p, t)
  }

  // ----- what is left off -----

  lemma FirstRule(s: Schema, cfg: Config, p: Profile)
    requires Built(s) && Standard(s) && Declarable(s, cfg)
    ensures RuleOf(s, PersonEntry(s, cfg, p, {})) == s.rule(Leaf(PersonChain(s, p)))
  {
    PersonLaid(s, cfg, p, {});
    OneChain(s, PersonChain(s, p), PersonBase(s, p, {}), PersonAdded(s, cfg, p, {}));
  }

  lemma RefusedOnes(s: Schema, cfg: Config, p: Profile, validate: Entry -> seq<Problem>, c: Class)
    requires World(s, cfg, validate)
    ensures var e := PersonEntry(s, cfg, p, {});
            c in NotInAux(validate(e)) <==> c in e.classes && s.kind(c) == Auxiliary && Refused(s, p, c)
  {
    FirstRule(s, cfg, p);
    NotInAuxIs(s, PersonEntry(s, cfg, p, {}), validate(PersonEntry(s, cfg, p, {})), c);
  }

  lemma AddedAre(s: Schema, cfg: Config, p: Profile, x: Class)
    requires Acyclic(s) && Declarable(s, cfg)
    ensures x in PersonAdded(s, cfg, p, {}) <==> x in DeclaredClasses(cfg.known, p.declared)
    ensures x in PersonAdded(s, cfg, p, {}) ==> x.Site? && s.kind(x) == Auxiliary
  {
    CarriedMeans(s, cfg.known, p.declared, {});
  }

  /** A derived class is left off exactly where the content rule refuses it. */
  lemma DerivedLeftOff(s: Schema, cfg: Config, p: Profile, validate: Entry -> seq<Problem>, c: Class)
    requires World(s, cfg, validate) && IsDerived(c) && c in PersonBase(s, p, {})
    ensures c in PersonSkip(s, cfg, p, validate) <==> Refused(s, p, c)
  {
    SkipMeans(s, cfg, p, validate);
    RefusedOnes(s, cfg, p, validate, c);
    AddedAre(s, cfg, p, c);
    DerivedMeans(s, c);
    InClosed(s, PersonBase(s, p, {}), PersonAdded(s, cfg, p, {}), c);
  }

  /** So what the rebuild withdraws is what is lost. */
  lemma WithdrawnIsLost(s: Schema, cfg: Config, p: Profile, validate: Entry -> seq<Problem>, t: Type)
    requires World(s, cfg, validate)
    ensures Withdrawn(s, p, PersonSkip(s, cfg, p, validate), t) <==> Lost(s, p, t)
  {
    BaseHas(s, p, {});
    if p.keys != [] {
      DerivedLeftOff(s, cfg, p, validate, LdapPublicKey);
    }
    if SambaDerived(p, {}) {
      DerivedLeftOff(s, cfg, p, validate, SambaSamAccount);
    }
  }

  /** What the first build carries for a declared class. */
  lemma AboveIsThere(s: Schema, cfg: Config, p: Profile, x: Class, a: Class)
    requires Built(s) && Standard(s) && Declarable(s, cfg) && x in PersonAdded(s, cfg, p, {})
    requires a in Ancestors(s, x) && s.kind(a) == Auxiliary
    ensures a in PersonEntry(s, cfg, p, {}).classes
  {
    InClosed(s, PersonBase(s, p, {}), PersonAdded(s, cfg, p, {}), a);
    assert s.kind(Top) == Abstract;
  }

  lemma BelowRefused(s: Schema, cfg: Config, p: Profile, validate: Entry -> seq<Problem>, x: Class)
    requires World(s, cfg, validate) && x in PersonAdded(s, cfg, p, {})
    ensures Meets(Ancestors(s, x), NotInAux(validate(PersonEntry(s, cfg, p, {})))) <==> !Fits(s, p, x)
  {
    var ps := validate(PersonEntry(s, cfg, p, {}));
    forall a | a in Ancestors(s, x)
      ensures a in NotInAux(ps) <==> s.kind(a) == Auxiliary && Refused(s, p, a)
    {
      RefusedOnes(s, cfg, p, validate, a);
      if s.kind(a) == Auxiliary {
        AboveIsThere(s, cfg, p, x, a);
      }
    }
  }

  lemma HadIsHas(s: Schema, cfg: Config, p: Profile, x: Class, u: Type)
    requires Built(s) && Standard(s) && Declarable(s, cfg) && x in PersonAdded(s, cfg, p, {}) && u in s.must(x)
    ensures Has(s, PersonEntry(s, cfg, p, {}).attrs, u) <==> Had(s, p, u)
  {
    AddedAre(s, cfg, p, x);
    Self(s, x);
    AboveIsThere(s, cfg, p, x, x);
    PersonHas(s, cfg, p, {}, u);
    assert u in s.must(x) + s.may(x);
    OwnIsHad(s, PersonEntry(s, cfg, p, {}).classes, p, u);
  }

  lemma OwnIsHad(s: Schema, classes: seq<Class>, p: Profile, u: Type)
    requires Built(s) && (u == Cn ==> AllowsExactly(s, classes, Cn))
    ensures OwnType(s, classes, p, {}, u) || Has(s, p.given, u) <==> Had(s, p, u)
  {
    if GivesSid(p) {
      GivenSid(s, p);
    }
  }

  lemma LacksIsNotHad(s: Schema, cfg: Config, p: Profile, validate: Entry -> seq<Problem>, x: Class)
    requires World(s, cfg, validate) && x in PersonAdded(s, cfg, p, {})
    ensures Lacks(s.must(x), validate(PersonEntry(s, cfg, p, {}))) <==> exists u :: u in s.must(x) && !Had(s, p, u)
  {
    var e := PersonEntry(s, cfg, p, {});
    var ps := validate(e);
    assert ListsFor(s, e, ps);
    if q :| q in ps && q.MissingRequired? && q.t in s.must(x) {
      assert IsProblem(s, e, q);
      HadIsHas(s, cfg, p, x, q.t);
    }
    if u :| u in s.must(x) && !Had(s, p, u) {
      HadIsHas(s, cfg, p, x, u);
      AddedAre(s, cfg, p, x);
      Self(s, x);
      AboveIsThere(s, cfg, p, x, x);
      Missed(s, e, ps, [x], x, u);
    }
  }

  /** A declared class stays exactly where it fits and had what it requires. */
  lemma StaysCarried(s: Schema, cfg: Config, p: Profile, validate: Entry -> seq<Problem>, x: Class)
    requires World(s, cfg, validate)
    ensures x in PersonAdded(s, cfg, p, PersonSkip(s, cfg, p, validate)) <==> Stays(s, cfg, p, x)
  {
    CarriedMeans(s, cfg.known, p.declared, PersonSkip(s, cfg, p, validate));
    if x in DeclaredClasses(cfg.known, p.declared) {
      DeclaredStays(s, cfg, p, validate, x);
    }
  }

  lemma DeclaredStays(s: Schema, cfg: Config, p: Profile, validate: Entry -> seq<Problem>, x: Class)
    requires World(s, cfg, validate) && x in DeclaredClasses(cfg.known, p.declared)
    ensures x in PersonAdded(s, cfg, p, PersonSkip(s, cfg, p, validate)) <==> Stays(s, cfg, p, x)
  {
    var n :| n in p.declared && cfg.known(n) == Some(x);
    AddedAre(s, cfg, p, x);
    Self(s, x);
    SkipMeans(s, cfg, p, validate);
    BelowRefused(s, cfg, p, validate, x);
    LacksIsNotHad(s, cfg, p, validate, x);
    CarriedOrSaid(s, cfg, p, validate, n);
  }

  // ----- what is said of a class left off -----

  /** What a declared class goes with: a class the content rule refuses, or one declared
      before it that goes itself. */
  ghost function GoneFor(s: Schema, p: Profile, before: seq<Class>, c: Class): set<Class>
    requires Acyclic(s)
  {
    (set a | a in Ancestors(s, c) && s.kind(a) == Auxiliary && Refused(s, p, a)) +
    (set x | x in before && !Fits(s, p, x))
  }

  ghost predicate GoesWith(s: Schema, p: Profile, c: Class)
    requires Acyclic(s)
  {
    !Refused(s, p, c) && !Fits(s, p, c)
  }

  lemma GoneAbove(s: Schema, cfg: Config, p: Profile, validate: Entry -> seq<Problem>, n: nat)
    requires World(s, cfg, validate) && n < |PersonAdded(s, cfg, p, {})|
    ensures var added, ps := PersonAdded(s, cfg, p, {}), validate(PersonEntry(s, cfg, p, {}));
            && (added[n] in NotInAux(ps) <==> Refused(s, p, added[n]))
            && (Meets(Ancestors(s, added[n]), NotInAux(ps)) <==> !Fits(s, p, added[n]))
            && SkippedBy(s, added[n], NotInAux(ps) + BelowNotInAux(s, added[..n], ps)) ==
                 SkippedBy(s, added[n], GoneFor(s, p, added[..n], added[n]))
            && forall a :: a in Ancestors(s, added[n]) ==>
                 (a in NotInAux(ps) <==> s.kind(a) == Auxiliary && Refused(s, p, a))
  {
    var added, ps := PersonAdded(s, cfg, p, {}), validate(PersonEntry(s, cfg, p, {}));
    var c := added[n];
    AddedAre(s, cfg, p, c);
    BelowRefused(s, cfg, p, validate, c);
    Self(s, c);
    forall a | a in Ancestors(s, c)
      ensures a in NotInAux(ps) <==> s.kind(a) == Auxiliary && Refused(s, p, a)
    {
      RefusedOnes(s, cfg, p, validate, a);
      if s.kind(a) == Auxiliary {
        AboveIsThere(s, cfg, p, c, a);
      }
    }
    forall x | x in added[..n]
      ensures x in BelowNotInAux(s, added[..n], ps) <==> !Fits(s, p, x)
    {
      BelowRefused(s, cfg, p, validate, x);
    }
    AncestorsUnfold(s, c);
    SkippedBySame(s, c, NotInAux(ps) + BelowNotInAux(s, added[..n], ps), GoneFor(s, p, added[..n], c));
  }

  /** The name of the rule a person's entry is held to. */
  function RuleNameOf(s: Schema, p: Profile): string {
    var r := s.rule(Leaf(PersonChain(s, p)));
    if r.Some? then r.value.name else ""
  }

  lemma GoneIsAuxiliary(s: Schema, cfg: Config, p: Profile, n: nat)
    requires Acyclic(s) && Declarable(s, cfg) && n < |PersonAdded(s, cfg, p, {})|
    ensures var added := PersonAdded(s, cfg, p, {});
            var sup := SkippedBy(s, added[n], GoneFor(s, p, added[..n], added[n]));
            sup.Some? ==> s.kind(sup.value) == Auxiliary && sup.value in Ancestors(s, added[n])
  {
    var added := PersonAdded(s, cfg, p, {});
    SkippedMeans(s, added[n], GoneFor(s, p, added[..n], added[n]));
    forall x | x in added
      ensures s.kind(x) == Auxiliary
    {
      AddedAre(s, cfg, p, x);
    }
  }

  lemma SaidWithASuper(s: Schema, cfg: Config, p: Profile, validate: Entry -> seq<Problem>, n: nat)
    requires World(s, cfg, validate) && n < |PersonAdded(s, cfg, p, {})|
    requires GoesWith(s, p, PersonAdded(s, cfg, p, {})[n])
    ensures var added := PersonAdded(s, cfg, p, {});
            var sup := SkippedBy(s, added[n], GoneFor(s, p, added[..n], added[n]));
            sup.Some? &&
            BySuper(added[n], if Refused(s, p, sup.value) then RuleNameOf(s, p) else "", sup.value) in
              PersonOff(s, cfg, p, validate)
  {
    var added, first := PersonAdded(s, cfg, p, {}), PersonEntry(s, cfg, p, {});
    GoneAbove(s, cfg, p, validate, n);
    CarriedMeans(s, cfg.known, p.declared, {});
    FirstRule(s, cfg, p);
    HowItIsSaid(s, added, validate(first), RuleName(s, first), n);
    GoneIsAuxiliary(s, cfg, p, n);
  }

  /** Of a person and a schema: a declared class is said to go with a superclass exactly
      where the rule takes it and not what is above it; the superclass is the first one, in
      the order of the walk, that is refused or an earlier declared class that goes; and the
      rule is named exactly where that one is itself refused. */
  lemma WhichRuleIsNamed(s: Schema, cfg: Config, p: Profile, validate: Entry -> seq<Problem>, n: nat)
    requires World(s, cfg, validate) && n < |PersonAdded(s, cfg, p, {})|
    ensures var added := PersonAdded(s, cfg, p, {});
            var c, off := added[n], PersonOff(s, cfg, p, validate);
            var sup := SkippedBy(s, c, GoneFor(s, p, added[..n], c));
            && ((exists l :: l in off && l.BySuper? && l.c == c) <==> GoesWith(s, p, c))
            && (GoesWith(s, p, c) ==>
                  sup.Some? && BySuper(c, if Refused(s, p, sup.value) then RuleNameOf(s, p) else "", sup.value) in off)
  {
    var added, first := PersonAdded(s, cfg, p, {}), PersonEntry(s, cfg, p, {});
    if GoesWith(s, p, added[n]) {
      SaidWithASuper(s, cfg, p, validate, n);
    }
    if l :| l in PersonOff(s, cfg, p, validate) && l.BySuper? && l.c == added[n] {
      GoneAbove(s, cfg, p, validate, n);
      WhoIsSaidSo(s, added, validate(first), RuleName(s, first), l);
    }
  }

  // ----- what a class of the entry misses -----

  /** The published entry misses a MUST of a class exactly where a declared class brought
      it in that the content rule takes, that had what it requires, and that requires what
      is derived, given by nobody, and lost with a class the rule refuses. */
  lemma ClassMustExactly(s: Schema, cfg: Config, p: Profile, validate: Entry -> seq<Problem>, c: Class, t: Type)
    requires World(s, cfg, validate)
    ensures IsProblem(s, PersonPublished(s, cfg, p, validate), MissingRequired(t, ByClass(c))) <==>
              c != Top && t in s.must(c) && exists x :: OutlivesItsMust(s, cfg, p, x, t) && c in Ancestors(s, x)
  {
    if IsProblem(s, PersonPublished(s, cfg, p, validate), MissingRequired(t, ByClass(c))) {
      var x := LostIt(s, cfg, p, validate, c, t);
    }
    if c != Top && t in s.must(c) {
      if x :| OutlivesItsMust(s, cfg, p, x, t) && c in Ancestors(s, x) {
        LosesIt(s, cfg, p, validate, x, c, t);
      }
    }
  }

  lemma LosesIt(s: Schema, cfg: Config, p: Profile, validate: Entry -> seq<Problem>, x: Class, c: Class, t: Type)
    requires World(s, cfg, validate) && OutlivesItsMust(s, cfg, p, x, t) && c in Ancestors(s, x)
    requires c != Top && t in s.must(c)
    ensures IsProblem(s, PersonPublished(s, cfg, p, validate), MissingRequired(t, ByClass(c)))
  {
    var skip := PersonSkip(s, cfg, p, validate);
    StaysCarried(s, cfg, p, validate, x);
    InClosed(s, PersonBase(s, p, skip), PersonAdded(s, cfg, p, skip), c);
    WithdrawnIsLost(s, cfg, p, validate, t);
    PublishedMust(s, cfg, p, validate, c, t);
  }

  lemma LostIt(s: Schema, cfg: Config, p: Profile, validate: Entry -> seq<Problem>, c: Class, t: Type)
    returns (x: Class)
    requires World(s, cfg, validate)
    requires IsProblem(s, PersonPublished(s, cfg, p, validate), MissingRequired(t, ByClass(c)))
    ensures OutlivesItsMust(s, cfg, p, x, t) && c in Ancestors(s, x) && c != Top && t in s.must(c)
  {
    var skip := PersonSkip(s, cfg, p, validate);
    assert c in Rebuilt(s, cfg, p, validate).classes && t in s.must(c);
    PublishedMust(s, cfg, p, validate, c, t);
    RebuiltMust(s, cfg, p, validate, c, t);
    WithdrawnIsLost(s, cfg, p, validate, t);
    InClosed(s, PersonBase(s, p, skip), PersonAdded(s, cfg, p, skip), c);
    PersonLaid(s, cfg, p, skip);
    x := BroughtIn(s, PersonAdded(s, cfg, p, skip), c);
    StaysCarried(s, cfg, p, validate, x);
  }
}
