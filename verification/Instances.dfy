/** Inputs for which what the code, or a comment in it, says does not hold. */
module Instances {
  import opened Wrappers
  import opened Text
  import opened Schemas
  import opened Declared
  import opened LeftOff
  import opened Validated
  import opened Names
  import opened Rdns
  import opened Entries
  import opened Shapes
  import opened Rebuild
  import opened People
  import opened Groups
  import opened Structure
  import opened Publication
  import opened Samples
  import opened Withdrawal
  import opened Withheld

  function NoRules(c: Class): Option<Rule> {
    None
  }

  // ----- names a DN does not parse to -----

  lemma SuffixIsRead()
    ensures IsDn("dc=x") && ReadRdn("dc=x") == [(Written("dc"), "x")]
  {
    SplitNowhere("dc=x", ',');
    SplitNowhere("dc=x", '+');
    assert "dc=x"[2] == '=' && IsRdn("dc=x");
    assert "dc" + "=" + "x" == "dc=x";
    PartIs("dc", "x");
  }

  lemma UnitIsRead(unit: string, base: string)
    requires ',' !in unit && '+' !in unit && IsDn(base)
    ensures IsDn(UnitDn(unit, base)) && ReadRdn(UnitDn(unit, base)) == [(Written("ou"), unit)]
  {
    OneField(unit);
    ReadsAttribute("ou", unit, base);
    assert "ou" + "=" == "ou=";
  }

  lemma SiteIsRead()
    ensures IsDn(SITE.peopleDn) && ReadRdn(SITE.peopleDn) == [(Written("ou"), "people")]
    ensures IsDn(SITE.groupsDn) && ReadRdn(SITE.groupsDn) == [(Written("ou"), "groups")]
  {
    SuffixIsRead();
    UnitIsRead("people", "dc=x");
    UnitIsRead("groups", "dc=x");
  }

  lemma ReadsTwo(attr: string, t: Type, second: string, base: string)
    requires ',' !in attr && '+' !in attr && '=' !in attr && DescOf(attr) == Bare(t)
    requires '+' !in second && ',' !in second && '=' in second && IsDn(base)
    ensures ReadRdn(attr + "=" + ("a+" + second) + "," + base) == [(Bare(t), "a"), PartOf(second)]
  {
    var name := "a+" + second;
    ReadsAttribute(attr, name, base);
    SplitNowhere(name, ',');
    assert name == "a" + ['+'] + second;
    SplitAt("a", '+', second);
    SplitNowhere(second, '+');
    assert Split(name, '+')[1..] == [second];
  }

  lemma ReadsTwoParts(attr: string, t: Type, other: string, value: string, base: string)
    requires ',' !in attr && '+' !in attr && '=' !in attr && DescOf(attr) == Bare(t)
    requires ',' !in other && '+' !in other && '=' !in other && ',' !in value && '+' !in value && IsDn(base)
    ensures ReadRdn(attr + "=" + ("a+" + (other + "=" + value)) + "," + base) ==
              [(Bare(t), "a"), (DescOf(other), value)]
  {
    assert (other + "=" + value)[|other|] == '=';
    ReadsTwo(attr, t, other + "=" + value, base);
    PartIs(other, value);
  }

  lemma MadeOfTwo(base: string)
    ensures DnOf(base, "a+mail=b") == "uid" + "=" + ("a+" + ("mail" + "=" + "b")) + "," + base
    ensures GroupDnOf(base, "a+ou=b") == "cn" + "=" + ("a+" + ("ou" + "=" + "b")) + "," + base
  {
    assert "a+" + ("mail" + "=" + "b") == "a+mail=b" && "uid" + "=" == "uid=";
    assert "a+" + ("ou" + "=" + "b") == "a+ou=b" && "cn" + "=" == "cn=";
  }

  lemma ReadAsTwo()
    ensures ReadRdn(DnOf(SITE.peopleDn, "a+mail=b")) == [(Bare(Uid), "a"), (Written("mail"), "b")]
  {
    SiteIsRead();
    ReadsTwoParts("uid", Uid, "mail", "b", SITE.peopleDn);
    MadeOfTwo(SITE.peopleDn);
  }

  lemma GroupReadAsTwo()
    ensures ReadRdn(GroupDnOf(SITE.groupsDn, "a+ou=b")) == [(Bare(Cn), "a"), (Written("ou"), "b")]
  {
    SiteIsRead();
    ReadsTwoParts("cn", Cn, "ou", "b", SITE.groupsDn);
    MadeOfTwo(SITE.groupsDn);
  }

  /** A person named a+mail=b is refused: the first value of the RDN, a, is not their uid. */
  lemma NameWithAPlus(validate: Entry -> seq<Problem>)
    requires Validates(Sample(NoRules), validate)
    ensures var p := Profile("a+mail=b", [], [], None, "", []);
            IsProblem(Sample(NoRules), PersonPublished(Sample(NoRules), SITE, p, validate), RDNNotPresent)
  {
    var s, p := Sample(NoRules), Profile("a+mail=b", [], [], None, "", []);
    SampleWorld(NoRules, validate);
    SampleReadsDns(NoRules, SITE);
    ReadAsTwo();
    RdnOfPeople(s, SITE, p, validate);
  }

  /** So is a group named a+ou=b. */
  lemma GroupWithAPlus(validate: Entry -> seq<Problem>)
    requires Validates(Sample(NoRules), validate)
    ensures var g := Group("a+ou=b", [], [], []);
            IsProblem(Sample(NoRules), PublishedGroup(Sample(NoRules), SITE, g, validate), RDNNotPresent)
  {
    var s, g := Sample(NoRules), Group("a+ou=b", [], [], []);
    SampleWorld(NoRules, validate);
    SampleReadsDns(NoRules, SITE);
    GroupReadAsTwo();
    RdnOfGroups(s, SITE, g, validate);
  }

  // ----- a suffix that is no DN -----

  const BAD := Config(Known, UnitDn("people", "x=1,bad"), UnitDn("groups", "x=1,bad"))

  lemma BadIsNoDn()
    ensures !IsDn(BAD.peopleDn)
  {
    assert "x=1" + [','] + "bad" == "x=1,bad" && "ou" + "=" == "ou=";
    SplitBoth("x=1", ',', "bad");
    SplitNowhere("bad", ',');
    SplitNowhere("bad", '+');
    assert "bad" in Split("x=1,bad", ',') && "bad" in Split("bad", '+') && !IsRdn("bad");
    DnExactly("ou", "people", "x=1,bad");
  }

  /** The configuration accepts any base_dn with a = in it; under x=1,bad nobody is published. */
  lemma NobodyUnderABadSuffix(p: Profile, validate: Entry -> seq<Problem>)
    requires Validates(Sample(NoRules), validate)
    ensures IsProblem(Sample(NoRules), PersonPublished(Sample(NoRules), BAD, p, validate), RDNNotPresent)
  {
    SampleWorld(NoRules, validate);
    SampleReadsDns(NoRules, BAD);
    BadIsNoDn();
    assert World(Sample(NoRules), BAD, validate);
    NobodyUnderNoDn(Sample(NoRules), BAD, p, validate);
  }

  // ----- a declared class that outlives its MUST -----

  /** account takes uidObject and the class that requires a key, and not ldapPublicKey. */
  function NoKeys(c: Class): Option<Rule> {
    if c == Account then Some(Rule("accountRule", {UidObject, KEYED}, {}, {}, {})) else None
  }

  const BOB := Profile("bob", [], ["a key"], None, "", ["keyed"])

  /** Bob is withheld for the MUST of a class his source declares. */
  lemma BobIsWithheld(validate: Entry -> seq<Problem>)
    requires Validates(Sample(NoKeys), validate)
    ensures IsProblem(Sample(NoKeys), PersonPublished(Sample(NoKeys), SITE, BOB, validate),
                      MissingRequired(SshPublicKey, ByClass(KEYED)))
  {
    assert RulesOK(NoKeys);
    SampleWorld(NoKeys, validate);
    BobsClass();
    LosesIt(Sample(NoKeys), SITE, BOB, validate, KEYED, KEYED, SshPublicKey);
  }

  lemma BobsClass()
    requires Acyclic(Sample(NoKeys))
    ensures OutlivesItsMust(Sample(NoKeys), SITE, BOB, KEYED, SshPublicKey)
    ensures KEYED in Ancestors(Sample(NoKeys), KEYED)
  {
    var s := Sample(NoKeys);
    Self(s, KEYED);
    KeyedBelow(s);
    assert "keyed" in BOB.declared && Known("keyed") == Some(KEYED);
    assert !Has(s, BOB.given, Sn) && PersonChain(s, BOB) == [Account];
  }

  lemma KeyedBelow(s: Schema)
    requires Acyclic(s) && s.sups(KEYED) == [Top] && s.sups(Top) == []
    ensures Ancestors(s, KEYED) == {KEYED, Top}
  {
    AncestorsUnfold(s, KEYED);
    AncestorsOfOne(s, Top);
    AncestorsUnfold(s, Top);
    AncestorsOfNone(s);
  }

  // ----- a content rule that outlives its MUST -----

  /** account requires a key, and takes no class but uidObject. */
  function NeedsKeys(c: Class): Option<Rule> {
    if c == Account then Some(Rule("accountRule", {UidObject}, {SshPublicKey}, {}, {})) else None
  }

  const KIM := Profile("kim", [], ["a key"], None, "", [])

  /** Kim, whom no source declares a class for, is withheld for the MUST of her content
      rule: the first build had the key, and the rebuild took it away with ldapPublicKey. */
  lemma KimIsWithheld(validate: Entry -> seq<Problem>)
    requires Validates(Sample(NeedsKeys), validate)
    ensures RebuildTook(Sample(NeedsKeys), SITE, KIM, validate, SshPublicKey, ByRule("accountRule"))
    ensures forall x, t :: !OutlivesItsMust(Sample(NeedsKeys), SITE, KIM, x, t)
  {
    assert RulesOK(NeedsKeys);
    SampleWorld(NeedsKeys, validate);
    KimsRule();
    TookFromRule(Sample(NeedsKeys), SITE, KIM, validate, SshPublicKey);
  }

  lemma KimsRule()
    requires Acyclic(Sample(NeedsKeys))
    ensures var s := Sample(NeedsKeys);
            OutlivesItsRule(s, SITE, KIM, SshPublicKey) && s.rule(Leaf(PersonChain(s, KIM))).value.name == "accountRule"
    ensures forall x, t :: !OutlivesItsMust(Sample(NeedsKeys), SITE, KIM, x, t)
  {
    var s := Sample(NeedsKeys);
    assert !Has(s, KIM.given, Sn) && PersonChain(s, KIM) == [Account];
    assert KIM.declared == [];
  }

  // ----- a rule that precludes uid -----

  /** inetOrgPerson may not carry uid. */
  function NoUid(c: Class): Option<Rule> {
    if c == InetOrgPerson then Some(Rule("noUid", {}, {}, {}, {Uid})) else None
  }

  const CAROL := Profile("carol", [Attribute(Bare(Sn), ["Carol"])], [], None, "", [])

  /** Carol, who has an sn, is refused: the rule takes the uid she is named by. */
  lemma UidPrecludedForCarol(validate: Entry -> seq<Problem>)
    requires Validates(Sample(NoUid), validate)
    ensures IsProblem(Sample(NoUid), PersonPublished(Sample(NoUid), SITE, CAROL, validate), RDNNotPresent)
  {
    var s := Sample(NoUid);
    assert RulesOK(NoUid);
    SampleWorld(NoUid, validate);
    SampleReadsDns(NoUid, SITE);
    assert Has(s, CAROL.given, Sn) by {
      assert CAROL.given[0] in CAROL.given && s.typeOf(CAROL.given[0].desc) == Some(Sn);
    }
    assert UidPrecluded(s, CAROL);
    RdnOfPeople(s, SITE, CAROL, validate);
  }

  // ----- a class left off with no rule named -----

  /** account takes two declared classes, one above the other, and not the one above both. */
  function NotHigh(c: Class): Option<Rule> {
    if c == Account then Some(Rule("accountRule", {UidObject, MID, LOW}, {}, {}, {})) else None
  }

  const DAN := Profile("dan", [], [], None, "", ["mid", "low"])

  lemma DansClasses()
    requires Acyclic(Sample(NotHigh))
    ensures PersonAdded(Sample(NotHigh), SITE, DAN, {}) == [MID, LOW]
  {
    var s := Sample(NotHigh);
    assert DAN.declared[..1] == ["mid"] && ["mid"][..0] == [];
    assert Carried(s, Known, [], {}) == [];
    SkippedMeans(s, MID, {});
    SkippedMeans(s, LOW, {});
    assert Carried(s, Known, ["mid"], {}) == [MID];
  }

  /** Of Dan, low is said to be left off for mid with no content rule named, though it is
      the rule that refuses high, above them both. */
  lemma LowIsSaidWithoutTheRule(validate: Entry -> seq<Problem>)
    requires Validates(Sample(NotHigh), validate)
    ensures BySuper(LOW, "", MID) in PersonOff(Sample(NotHigh), SITE, DAN, validate)
    ensures BySuper(MID, "accountRule", HIGH) in PersonOff(Sample(NotHigh), SITE, DAN, validate)
  {
    NotHighWorld(validate);
    DansClasses();
    HighIsRefused(validate);
    SaidWithoutTheRule(Sample(NotHigh), SITE, DAN, validate, "accountRule", LOW, MID, HIGH);
  }

  lemma NotHighWorld(validate: Entry -> seq<Problem>)
    requires Validates(Sample(NotHigh), validate)
    ensures World(Sample(NotHigh), SITE, validate)
    ensures Sample(NotHigh).sups(MID) == [HIGH] && Sample(NotHigh).sups(LOW) == [MID]
  {
    NotHighOK();
    SampleWorld(NotHigh, validate);
  }

  lemma NotHighOK()
    ensures RulesOK(NotHigh)
  {
  }

  lemma SaidWithoutTheRule(s: Schema, cfg: Config, p: Profile, validate: Entry -> seq<Problem>, rule: string,
                           x: Class, y: Class, z: Class)
    requires Acyclic(s) && s.sups(y) == [z] && s.sups(x) == [y] && PersonAdded(s, cfg, p, {}) == [y, x]
    requires RuleName(s, PersonEntry(s, cfg, p, {})) == rule
    requires var refused := NotInAux(validate(PersonEntry(s, cfg, p, {})));
             z in refused && x !in refused && y !in refused
    ensures BySuper(x, "", y) in PersonOff(s, cfg, p, validate) && BySuper(y, rule, z) in PersonOff(s, cfg, p, validate)
  {
    NoRuleIsNamed(s, validate(PersonEntry(s, cfg, p, {})), rule, x, y, z);
    OffIs(s, cfg, p, validate, [y, x], rule);
  }

  lemma OffIs(s: Schema, cfg: Config, p: Profile, validate: Entry -> seq<Problem>, added: seq<Class>, rule: string)
    requires Acyclic(s) && PersonAdded(s, cfg, p, {}) == added && RuleName(s, PersonEntry(s, cfg, p, {})) == rule
    ensures PersonOff(s, cfg, p, validate) == Unmet(s, added, validate(PersonEntry(s, cfg, p, {})), rule)
  {
  }

  lemma HighIsThere()
    requires Built(Sample(NotHigh)) && Standard(Sample(NotHigh)) && Declarable(Sample(NotHigh), SITE)
    requires PersonAdded(Sample(NotHigh), SITE, DAN, {}) == [MID, LOW]
    ensures HIGH in PersonEntry(Sample(NotHigh), SITE, DAN, {}).classes
  {
    var s := Sample(NotHigh);
    assert s.sups(MID) == [HIGH] && MID in PersonAdded(s, SITE, DAN, {});
    Self(s, HIGH);
    Below(s, MID, HIGH, HIGH);
    InClosed(s, PersonBase(s, DAN, {}), PersonAdded(s, SITE, DAN, {}), HIGH);
  }

  lemma DansRule()
    requires Built(Sample(NotHigh)) && Standard(Sample(NotHigh)) && Declarable(Sample(NotHigh), SITE)
    ensures RuleOf(Sample(NotHigh), PersonEntry(Sample(NotHigh), SITE, DAN, {})) == NotHigh(Account)
  {
    var s := Sample(NotHigh);
    assert !Has(s, DAN.given, Sn) && PersonChain(s, DAN) == [Account];
    FirstRule(s, SITE, DAN);
  }

  lemma HighIsRefused(validate: Entry -> seq<Problem>)
    requires World(Sample(NotHigh), SITE, validate) && PersonAdded(Sample(NotHigh), SITE, DAN, {}) == [MID, LOW]
    ensures var s, first := Sample(NotHigh), PersonEntry(Sample(NotHigh), SITE, DAN, {});
            && HIGH in NotInAux(validate(first))
            && MID !in NotInAux(validate(first)) && LOW !in NotInAux(validate(first))
            && RuleName(s, first) == "accountRule"
  {
    var s, first := Sample(NotHigh), PersonEntry(Sample(NotHigh), SITE, DAN, {});
    HighIsThere();
    DansRule();
    RefusedBy(s, first, validate(first), NotHigh(Account).value);
  }

  lemma RefusedBy(s: Schema, e: Entry, ps: seq<Problem>, r: Rule)
    requires Acyclic(s) && ListsFor(s, e, ps) && RuleOf(s, e) == Some(r) && HIGH in e.classes
    requires s.kind(HIGH) == Auxiliary
    requires r.aux == {UidObject, MID, LOW}
    ensures HIGH in NotInAux(ps) && MID !in NotInAux(ps) && LOW !in NotInAux(ps)
  {
    NotInAuxIs(s, e, ps, HIGH);
    NotInAuxIs(s, e, ps, MID);
    NotInAuxIs(s, e, ps, LOW);
  }

  // ----- an RDN the data made different, and a source gives its values -----

  /** Refuses an entry named by a mail, and places any other. */
  function NoMail(names: set<Type>, c: Class, sup: Option<nat>): Result<nat, Violation> {
    if SiteType("mail") in names then Failure(NameFormViolation) else Success(1)
  }

  /** A source gives the values of the RDN: uid under another of its names, and mail. */
  const EVE := Profile("a+mail=b",
    [Attribute(Bare(Sn), ["x"]), Attribute(Written("userid"), ["a"]), Attribute(Written("mail"), ["b"])],
    [], None, "", [])

  function EvesServer(validate: Entry -> seq<Problem>): Service {
    Service(Sample(NoRules), SITE, validate, NoMail, Some(Tree(1, 1)), 1000)
  }

  ghost predicate InOrderWithSample(validate: Entry -> seq<Problem>) {
    World(Sample(NoRules), SITE, validate) && ReadsDns(Sample(NoRules), SITE)
  }

  lemma EveHolds(skip: set<Class>)
    requires Acyclic(Sample(NoRules))
    ensures var s, e := Sample(NoRules), PersonEntry(Sample(NoRules), SITE, EVE, skip);
            Holds(s, e.attrs, (Bare(Uid), "a")) && Holds(s, e.attrs, (Written("mail"), "b"))
  {
    var s := Sample(NoRules);
    assert EVE.given[1].values[0] == "a" && EVE.given[2].values[0] == "b";
    GivenIsHeld(s, SITE, EVE, skip, EVE.given[1], (Bare(Uid), "a"));
    GivenIsHeld(s, SITE, EVE, skip, EVE.given[2], (Written("mail"), "b"));
  }

  lemma GivenIsHeld(s: Schema, cfg: Config, p: Profile, skip: set<Class>, a: Attribute, ava: (Desc, string))
    requires Acyclic(s) && a in p.given && ava.1 in a.values && s.typeOf(a.desc) == s.typeOf(ava.0)
    requires s.typeOf(ava.0).Some?
    requires s.same(s.typeOf(ava.0).value, ava.1, ava.1)
    ensures Holds(s, PersonEntry(s, cfg, p, skip).attrs, ava)
  {
    assert a in PersonEntry(s, cfg, p, skip).attrs;
  }

  lemma EveIsAPerson()
    ensures PersonChain(Sample(NoRules), EVE) == [Person, OrganizationalPerson, InetOrgPerson]
  {
    assert EVE.given[0] in EVE.given && TypeOf(EVE.given[0].desc) == Some(Sn);
  }

  lemma EveAllowed(validate: Entry -> seq<Problem>)
    requires InOrderWithSample(validate)
    ensures var s, e := Sample(NoRules), Rebuilt(Sample(NoRules), SITE, EVE, validate);
            Allowed(s, e, Uid) && Allowed(s, e, SiteType("mail")) && RuleOf(s, e) == None
  {
    var s, skip := Sample(NoRules), PersonSkip(Sample(NoRules), SITE, EVE, validate);
    EveIsAPerson();
    RebuiltIsShaped(s, SITE, EVE, validate);
    UidIsThere(s, SITE, EVE, skip);
    BaseHas(s, EVE, skip);
    InClosed(s, PersonBase(s, EVE, skip), PersonAdded(s, SITE, EVE, skip), InetOrgPerson);
    assert SiteType("mail") in s.must(InetOrgPerson) + s.may(InetOrgPerson);
    assert s.isA(SiteType("mail"), SiteType("mail"));
  }

  lemma IsHeld(s: Schema, e: Entry, ava: (Desc, string), t: Type)
    requires Acyclic(s) && s.typeOf(ava.0) == Some(t) && Holds(s, e.attrs, ava) && Allowed(s, e, t)
    requires RuleOf(s, e) == None
    ensures !Unheld(s, e, ava)
  {
  }

  lemma EveHeld(validate: Entry -> seq<Problem>)
    requires InOrderWithSample(validate)
    ensures var s, e := Sample(NoRules), Rebuilt(Sample(NoRules), SITE, EVE, validate);
            !Unheld(s, e, (Bare(Uid), "a")) && !Unheld(s, e, (Written("mail"), "b"))
  {
    var s, e := Sample(NoRules), Rebuilt(Sample(NoRules), SITE, EVE, validate);
    EveHolds(PersonSkip(s, SITE, EVE, validate));
    EveAllowed(validate);
    IsHeld(s, e, (Bare(Uid), "a"), Uid);
    IsHeld(s, e, (Written("mail"), "b"), SiteType("mail"));
  }

  /** Validate has nothing to say of Eve's entry: every part of its RDN is held. */
  lemma EveNamed(validate: Entry -> seq<Problem>)
    requires InOrderWithSample(validate)
    ensures !IsProblem(Sample(NoRules), PersonPublished(Sample(NoRules), SITE, EVE, validate), RDNNotPresent)
  {
    var s := Sample(NoRules);
    ReadAsTwo();
    EveHeld(validate);
    NamedByTwo(s, SITE, EVE, validate, (Bare(Uid), "a"), (Written("mail"), "b"));
  }

  lemma NamedByTwo(s: Schema, cfg: Config, p: Profile, validate: Entry -> seq<Problem>, a: (Desc, string),
                   b: (Desc, string))
    requires World(s, cfg, validate) && s.rdnOf(DnOf(cfg.peopleDn, p.name)) == [a, b]
    requires var e := Rebuilt(s, cfg, p, validate); !Unheld(s, e, a) && !Unheld(s, e, b)
    ensures !IsProblem(s, PersonPublished(s, cfg, p, validate), RDNNotPresent)
  {
    var e := Rebuilt(s, cfg, p, validate);
    RebuiltIsShaped(s, cfg, p, validate);
    BothHeld(s, e, validate(e), a, b);
  }

  lemma BothHeld(s: Schema, e: Entry, ps: seq<Problem>, a: (Desc, string), b: (Desc, string))
    requires Built(s) && Shaped(s, e) && ListsFor(s, e, ps) && s.rdnOf(e.dn) == [a, b] && !Unheld(s, e, a)
    requires !Unheld(s, e, b)
    ensures !IsProblem(s, Dropped(e, ps), RDNNotPresent)
  {
    RdnExactly(s, e, ps);
  }

  lemma EvePasses(validate: Entry -> seq<Problem>, q: Problem)
    requires InOrderWithSample(validate)
    ensures !IsProblem(Sample(NoRules), PersonPublished(Sample(NoRules), SITE, EVE, validate), q)
  {
    var s, e := Sample(NoRules), PersonPublished(Sample(NoRules), SITE, EVE, validate);
    if IsProblem(s, e, q) {
      PersonStaysPublished(s, SITE, EVE, validate, q);
      EveNamed(validate);
      EveAllowed(validate);
      RuleUnmoved(s, Rebuilt(s, SITE, EVE, validate), e.attrs);
    }
  }

  lemma NothingSaid(validate: Entry -> seq<Problem>)
    requires InOrderWithSample(validate)
    ensures validate(PersonPublished(Sample(NoRules), SITE, EVE, validate)) == []
  {
    var ps := validate(PersonPublished(Sample(NoRules), SITE, EVE, validate));
    if ps != [] {
      EvePasses(validate, ps[0]);
    }
  }

  lemma EvesTypes()
    ensures TypesIn(Sample(NoRules), DnOf(SITE.peopleDn, EVE.name)) == {Uid, SiteType("mail")}
  {
    var s, rdn := Sample(NoRules), ReadRdn(DnOf(SITE.peopleDn, EVE.name));
    ReadAsTwo();
    assert rdn[0] in rdn && rdn[1] in rdn && s.typeOf(rdn[0].0) == Some(Uid);
    assert s.typeOf(rdn[1].0) == Some(SiteType("mail"));
  }

  lemma TypeRead(dn: string, text: string, value: string)
    requires ReadRdn(dn) == [(Written(text), value)] && text != "mail" && text != "userid"
    ensures SiteType("mail") !in TypesIn(Sample(NoRules), dn)
  {
  }

  lemma ContainersRead()
    ensures SiteType("mail") !in TypesIn(Sample(NoRules), SITE.peopleDn)
    ensures SiteType("mail") !in TypesIn(Sample(NoRules), SITE.groupsDn)
  {
    SiteIsRead();
    TypeRead(SITE.peopleDn, "ou", "people");
    TypeRead(SITE.groupsDn, "ou", "groups");
  }

  lemma NoMailPlaces(names: set<Type>, w: Container)
    requires SiteType("mail") !in names
    ensures Useful(NoMail, names, w, 1)
  {
    assert ShapesOf(w)[0] != [] && Ruling(NoMail, names, 1, ShapesOf(w)[0]).Success?;
  }

  /** Startup passes with the rules of NoMail. */
  lemma EvesServerStarts(validate: Entry -> seq<Problem>)
    requires InOrderWithSample(validate)
    ensures Started(EvesServer(validate))
  {
    var s := Sample(NoRules);
    SuffixIsRead();
    TypeRead("dc=x", "dc", "x");
    ContainersRead();
    ProbesRead();
    NoMailIsSound(s, PeopleDn);
    NoMailIsSound(s, GroupsDn);
    assert IsContainer(SiteType("dc"), Site("domain")) by {
      assert CONTAINER_CLASSES[0] in CONTAINER_CLASSES;
    }
    SoundTree(s, NoMail, SITE, "dc=x", SiteType("dc"), Site("domain"), Tree(1, 1));
  }

  lemma NoMailIsSound(s: Schema, w: Container)
    requires SiteType("mail") !in TypesIn(s, ContainerDn(SITE, w)) && SiteType("mail") !in TypesIn(s, ProbeDn(SITE, w))
    ensures Sound(s, NoMail, SITE, w, 1, 1)
  {
    NoMailPlaces(TypesIn(s, ProbeDn(SITE, w)), w);
  }

  lemma SoundTree(s: Schema, govern: Govern, cfg: Config, base: string, t: Type, c: Class, tree: Tree)
    requires |s.rdnOf(base)| > 0 && s.typeOf(s.rdnOf(base)[0].0) == Some(t) && IsContainer(t, c)
    requires govern(TypesIn(s, base), c, None).Success?
    requires var root := govern(TypesIn(s, base), c, None).value;
             Sound(s, govern, cfg, PeopleDn, root, tree.people) && Sound(s, govern, cfg, GroupsDn, root, tree.groups)
    ensures TreeIsSound(s, govern, cfg, base, tree)
  {
  }

  lemma ProbesRead()
    requires Built(Sample(NoRules)) && ReadsDns(Sample(NoRules), SITE)
    ensures TypesIn(Sample(NoRules), ProbeDn(SITE, PeopleDn)) == {Uid}
    ensures TypesIn(Sample(NoRules), ProbeDn(SITE, GroupsDn)) == {Cn}
  {
    var s := Sample(NoRules);
    SiteIsRead();
    ProbesAreNamed(s, SITE);
  }

  /** An RDN the data made different does get past the schema, where a source gives its
      values: startup passed, Validate has nothing to say, and the name form refuses it. */
  lemma EveIsRefusedForHerName(validate: Entry -> seq<Problem>)
    requires Validates(Sample(NoRules), validate)
    ensures var v := EvesServer(validate);
            && Started(v) && PersonOutcome(v, EVE).invalid == Some(NotPlaced)
            && Unplaced(v.schema, v.govern, v.tree, PersonOutcome(v, EVE).value) == Some(NameFormViolation)
  {
    var v := EvesServer(validate);
    var e := PersonPublished(v.schema, SITE, EVE, validate);
    SampleWorld(NoRules, validate);
    SampleReadsDns(NoRules, SITE);
    EvesServerStarts(validate);
    NothingSaid(validate);
    EvesTypes();
    PersonIsPlacedBy(v.schema, SITE, EVE, PersonSkip(v.schema, SITE, EVE, validate));
    RefusedForItsName(v, e);
  }

  lemma RefusedForItsName(v: Service, e: Entry)
    requires Acyclic(v.schema) && v.validate(e) == [] && v.govern == NoMail && v.tree.Some?
    requires StructuralOf(v.schema, e.classes).Some? && SiteType("mail") in TypesIn(v.schema, e.dn)
    ensures Unplaced(v.schema, v.govern, v.tree, e) == Some(NameFormViolation) && Verdict(v, e) == Some(NotPlaced)
  {
  }
}
