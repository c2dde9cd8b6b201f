/** What is published of a group (entries.go): the same pipeline, and for a group a rebuild
    takes no attribute away, so no class of the entry ever misses a MUST. */
module Groups {
  import opened Wrappers
  import opened Schemas
  import opened Declared
  import opened LeftOff
  import opened Validated
  import opened Entries
  import opened Shapes
  import opened Rebuild
  import opened People
  import opened Names
  import opened Rdns

  function GroupOff(s: Schema, cfg: Config, g: Group, validate: Entry -> seq<Problem>): seq<LeftOff>
    requires Acyclic(s)
  {
    var e := GroupEntry(s, cfg, g, {});
    Unmet(s, GroupAdded(s, cfg, g, {}), validate(e), RuleName(s, e))
  }

  function GroupSkip(s: Schema, cfg: Config, g: Group, validate: Entry -> seq<Problem>): set<Class>
    requires Acyclic(s)
  {
    ClassesOf(GroupOff(s, cfg, g, validate))
  }

  function RebuiltGroup(s: Schema, cfg: Config, g: Group, validate: Entry -> seq<Problem>): Entry
    requires Acyclic(s)
  {
    GroupEntry(s, cfg, g, GroupSkip(s, cfg, g, validate))
  }

  function PublishedGroup(s: Schema, cfg: Config, g: Group, validate: Entry -> seq<Problem>): Entry
    requires Acyclic(s)
  {
    var e := RebuiltGroup(s, cfg, g, validate);
    Dropped(e, validate(e))
  }

  lemma GroupRebuilds(s: Schema, cfg: Config, g: Group, skip: set<Class>)
    requires Acyclic(s) && Declarable(s, cfg)
    ensures var base := [GroupClass(s, g)];
            Rebuilds(s, base, base, GroupAdded(s, cfg, g, {}), base, GroupAdded(s, cfg, g, skip), skip)
  {
    CarriedMeans(s, cfg.known, g.declared, {});
    CarriedMeans(s, cfg.known, g.declared, skip);
  }

  lemma GroupSkipMeans(s: Schema, cfg: Config, g: Group, validate: Entry -> seq<Problem>)
    requires World(s, cfg, validate)
    ensures var e := GroupEntry(s, cfg, g, {});
            && ListsFor(s, e, validate(e))
            && SaidOnce(GroupOff(s, cfg, g, validate))
            && GroupSkip(s, cfg, g, validate) == SkipOf(s, GroupAdded(s, cfg, g, {}), validate(e))
  {
    var e := GroupEntry(s, cfg, g, {});
    UnmetMeans(s, GroupAdded(s, cfg, g, {}), validate(e), RuleName(s, e));
  }

  /** The class of a group's entry, whatever is declared or left off: posixGroup where a
      source gives a gidNumber, groupOfNames where none does and there are members, and
      organizationalRole for the rest. */
  lemma GroupIsOfOneClass(s: Schema, cfg: Config, g: Group, skip: set<Class>)
    requires Built(s) && Standard(s) && Declarable(s, cfg)
    ensures var classes, posix := GroupEntry(s, cfg, g, skip).classes, Has(s, g.given, GidNumber);
            && (PosixGroup in classes <==> posix)
            && (GroupOfNames in classes <==> !posix && g.members != [])
            && (OrganizationalRole in classes <==> !posix && g.members == [])
  {
    var class_ := GroupClass(s, g);
    GroupRebuilds(s, cfg, g, skip);
    OneChain(s, [class_], [class_], GroupAdded(s, cfg, g, skip));
    InClosed(s, [class_], GroupAdded(s, cfg, g, skip), class_);
    assert class_ in [class_];
  }

  /** The attributes of a group's entry, in their order: its classes, its name, what was
      given, and its members, by name or by DN, where it has any and its class takes them. */
  lemma GroupAttributes(s: Schema, cfg: Config, g: Group, skip: set<Class>)
    requires Acyclic(s)
    ensures var e, posix := GroupEntry(s, cfg, g, skip), Has(s, g.given, GidNumber);
            var n := 2 + |g.given|;
            && e.dn == "cn=" + g.name + "," + cfg.groupsDn && e.group
            && |e.attrs| >= n && e.attrs[0] == Attribute(Bare(ObjectClass), ["top"] + ClassNames(e.classes))
            && e.attrs[1] == Attribute(Bare(Cn), [g.name]) && e.attrs[2..n] == g.given
            && (g.members == [] ==> |e.attrs| == n)
            && (g.members != [] ==> |e.attrs| == n + 1)
            && (g.members != [] && posix ==> e.attrs[n] == Attribute(Bare(MemberUid), g.members))
            && (g.members != [] && !posix ==>
                  && e.attrs[n].desc == Bare(Member) && |e.attrs[n].values| == |g.members|
                  && forall i :: 0 <= i < |g.members| ==>
                       e.attrs[n].values[i] == "uid=" + g.members[i] + "," + cfg.peopleDn)
  {
    var e := GroupEntry(s, cfg, g, skip);
    assert e.attrs[2..2 + |g.given|] == g.given;
    DnsAre(cfg, g.members);
  }

  lemma {:induction false} DnsAre(cfg: Config, members: seq<string>)
    ensures |DnsOf(cfg, members)| == |members|
    ensures forall i :: 0 <= i < |members| ==> DnsOf(cfg, members)[i] == "uid=" + members[i] + "," + cfg.peopleDn
  {
    if members != [] {
      DnsAre(cfg, members[..|members| - 1]);
    }
  }

  /** The types the server adds itself. */
  predicate GroupOwnType(s: Schema, g: Group, t: Type) {
    || t == ObjectClass || t == Cn
    || (g.members != [] && t == MemberUid && GroupClass(s, g) == PosixGroup)
    || (g.members != [] && t == Member && GroupClass(s, g) == GroupOfNames)
  }

  lemma GroupHas(s: Schema, cfg: Config, g: Group, skip: set<Class>, t: Type)
    requires Built(s)
    ensures Has(s, GroupEntry(s, cfg, g, skip).attrs, t) <==> GroupOwnType(s, g, t) || Has(s, g.given, t)
  {
    var e := GroupEntry(s, cfg, g, skip);
    var names := ["top"] + ClassNames(e.classes);
    var posix := g.members != [] && GroupClass(s, g) == PosixGroup;
    var dns := g.members != [] && GroupClass(s, g) == GroupOfNames;
    HasOwn(s, true, ObjectClass, names, t);
    HasOwn(s, true, Cn, [g.name], t);
    assert GroupHead(g, e.classes) == Own(true, ObjectClass, names) + Own(true, Cn, [g.name]);
    HasBoth(s, Own(true, ObjectClass, names), Own(true, Cn, [g.name]), t);
    HasOwn(s, posix, MemberUid, g.members, t);
    HasOwn(s, dns, Member, DnsOf(cfg, g.members), t);
    HasBoth(s, Own(posix, MemberUid, g.members), Own(dns, Member, DnsOf(cfg, g.members)), t);
    HasBoth(s, GroupHead(g, e.classes), g.given, t);
    HasBoth(s, GroupHead(g, e.classes) + g.given, GroupTail(s, cfg, g), t);
  }

  lemma GroupOwnAllowed(s: Schema, cfg: Config, g: Group, skip: set<Class>, a: Attribute)
    requires Built(s) && Standard(s)
    requires a in GroupEntry(s, cfg, g, skip).attrs && a.desc !in Descs(g.given)
    ensures s.typeOf(a.desc).Some? && Allowed(s, GroupEntry(s, cfg, g, skip), s.typeOf(a.desc).value)
  {
    var e, c := GroupEntry(s, cfg, g, skip), GroupClass(s, g);
    assert a in GroupHead(g, e.classes) || a in GroupTail(s, cfg, g);
    assert a.desc.Bare? && GroupOwnType(s, g, a.desc.t);
    InClosed(s, [c], GroupAdded(s, cfg, g, skip), c);
    assert a.desc.t in s.must(c) + s.may(c) && s.isA(a.desc.t, a.desc.t);
  }

  lemma RebuiltGroupIsShaped(s: Schema, cfg: Config, g: Group, validate: Entry -> seq<Problem>)
    requires World(s, cfg, validate)
    ensures Shaped(s, RebuiltGroup(s, cfg, g, validate))
    ensures RuleOf(s, RebuiltGroup(s, cfg, g, validate)) == s.rule(GroupClass(s, g))
  {
    var skip, base := GroupSkip(s, cfg, g, validate), [GroupClass(s, g)];
    var first, e := GroupEntry(s, cfg, g, {}), RebuiltGroup(s, cfg, g, validate);
    var added := GroupAdded(s, cfg, g, skip);
    GroupSkipMeans(s, cfg, g, validate);
    GroupRebuilds(s, cfg, g, skip);
    forall r, c | s.rule(Leaf(base)) == Some(r) && c in e.classes && s.kind(c) == Auxiliary
      ensures c in r.aux
    {
      RebuiltAuxAllowed(s, first, validate(first), base, base, GroupAdded(s, cfg, g, {}), base, added, skip, r, c);
    }
    forall a | a in e.attrs && a.desc !in e.given
      ensures s.typeOf(a.desc).Some? && Allowed(s, e, s.typeOf(a.desc).value)
    {
      GroupOwnAllowed(s, cfg, g, skip, a);
    }
    LaidIsShaped(s, e, base, base, added);
  }

  /** After the rebuild every class of a group's entry has every MUST. */
  lemma RebuiltGroupMust(s: Schema, cfg: Config, g: Group, validate: Entry -> seq<Problem>, c: Class, t: Type)
    requires World(s, cfg, validate) && c in RebuiltGroup(s, cfg, g, validate).classes && t in s.must(c)
    ensures Has(s, RebuiltGroup(s, cfg, g, validate).attrs, t)
  {
    var skip, base := GroupSkip(s, cfg, g, validate), [GroupClass(s, g)];
    var first, added := GroupEntry(s, cfg, g, {}), GroupAdded(s, cfg, g, skip);
    GroupRebuilds(s, cfg, g, skip);
    InClosed(s, base, added, c);
    GroupHas(s, cfg, g, {}, t);
    GroupHas(s, cfg, g, skip, t);
    if c !in base {
      GroupSkipMeans(s, cfg, g, validate);
      var before := GroupAdded(s, cfg, g, {});
      var _ := BroughtInHadMust(s, first, validate(first), base, base, before, base, added, skip, c, t);
    }
  }

  // ----- the name -----

  /** The RDN a group's DN parses to is its name. */
  predicate NamedByCn(s: Schema, cfg: Config, g: Group) {
    NamedBy(s, s.rdnOf(GroupDnOf(cfg.groupsDn, g.name)), Cn, g.name)
  }

  lemma CnIsRequired(s: Schema, cfg: Config, g: Group, validate: Entry -> seq<Problem>)
    requires World(s, cfg, validate)
    ensures var e := RebuiltGroup(s, cfg, g, validate);
            && Allowed(s, e, Cn) && !Precludes(RuleOf(s, e), Cn)
            && Attribute(Bare(Cn), [g.name]) in e.attrs
  {
    var e, c := RebuiltGroup(s, cfg, g, validate), GroupClass(s, g);
    RebuiltGroupIsShaped(s, cfg, g, validate);
    InClosed(s, [c], GroupAdded(s, cfg, g, GroupSkip(s, cfg, g, validate)), c);
    assert Cn in s.must(c) && Required(s, e, Cn);
    RequiredIsAllowed(s, e, Cn);
    if s.rule(c).Some? {
      assert RuleOK(s, c, s.rule(c).value);
    }
    assert Attribute(Bare(Cn), [g.name]) in GroupHead(g, e.classes);
  }

  /** Every class a group can be requires cn, so nothing takes the name of a group whose DN
      parses to it. */
  lemma GroupKeepsItsName(s: Schema, cfg: Config, g: Group, validate: Entry -> seq<Problem>)
    requires World(s, cfg, validate) && NamedByCn(s, cfg, g)
    ensures !IsProblem(s, PublishedGroup(s, cfg, g, validate), RDNNotPresent)
  {
    var e := RebuiltGroup(s, cfg, g, validate);
    RebuiltGroupIsShaped(s, cfg, g, validate);
    CnIsRequired(s, cfg, g, validate);
    NamedLosesOnlyToNot(s, e, validate(e), Cn, Attribute(Bare(Cn), [g.name]), g.name);
  }

  /** One whose DN parses to anything else is refused, unless a source gives a cn. */
  lemma MisnamedGroupIsRefused(s: Schema, cfg: Config, g: Group, validate: Entry -> seq<Problem>)
    requires World(s, cfg, validate) && !NamedByCn(s, cfg, g) && !Has(s, g.given, Cn)
    requires StartsWith(s, s.rdnOf(GroupDnOf(cfg.groupsDn, g.name)), Cn, g.name)
    ensures IsProblem(s, PublishedGroup(s, cfg, g, validate), RDNNotPresent)
  {
    var e := RebuiltGroup(s, cfg, g, validate);
    RebuiltGroupIsShaped(s, cfg, g, validate);
    forall a, v | a in e.attrs && s.typeOf(a.desc) == Some(Cn) && v in a.values
      ensures v == g.name
    {
      assert a !in g.given;
      assert a in GroupHead(g, e.classes) || a in GroupTail(s, cfg, g);
    }
    MisnamedIsRefused(s, e, validate(e), Cn, g.name);
  }

  /** So, with no source giving a cn: a group is refused for its name exactly where its DN
      does not parse to it. */
  lemma RdnOfGroups(s: Schema, cfg: Config, g: Group, validate: Entry -> seq<Problem>)
    requires World(s, cfg, validate) && ReadsDns(s, cfg) && !Has(s, g.given, Cn)
    ensures IsProblem(s, PublishedGroup(s, cfg, g, validate), RDNNotPresent) <==> !NamedByCn(s, cfg, g)
    ensures PlainText(g.name) ==>
              (NamedByCn(s, cfg, g) <==> s.rdnOf(cfg.groupsDn) != [] && s.same(Cn, g.name, g.name))
  {
    assert ReadsName(s, cfg.groupsDn, GroupDnOf(cfg.groupsDn, g.name), Cn, g.name);
    if NamedByCn(s, cfg, g) {
      GroupKeepsItsName(s, cfg, g, validate);
    } else {
      MisnamedGroupIsRefused(s, cfg, g, validate);
    }
  }

  /** Where the groups' DN is no DN, every group is refused. */
  lemma NoGroupUnderNoDn(s: Schema, cfg: Config, g: Group, validate: Entry -> seq<Problem>)
    requires World(s, cfg, validate) && ReadsDns(s, cfg) && s.rdnOf(cfg.groupsDn) == []
    ensures IsProblem(s, PublishedGroup(s, cfg, g, validate), RDNNotPresent)
  {
    assert ReadsName(s, cfg.groupsDn, GroupDnOf(cfg.groupsDn, g.name), Cn, g.name);
  }

  // ----- the published entry -----

  /** A MUST of the content rule is missed exactly where no source gives it and the server
      adds none: before the rebuild as after it. */
  lemma GroupRuleMust(s: Schema, cfg: Config, g: Group, validate: Entry -> seq<Problem>, rule: string, t: Type)
    requires World(s, cfg, validate)
    ensures IsProblem(s, PublishedGroup(s, cfg, g, validate), MissingRequired(t, ByRule(rule))) <==>
              GroupRuleLacks(s, g, rule, t)
    ensures Has(s, GroupEntry(s, cfg, g, {}).attrs, t) <==> Has(s, RebuiltGroup(s, cfg, g, validate).attrs, t)
  {
    var e := RebuiltGroup(s, cfg, g, validate);
    RebuiltGroupIsShaped(s, cfg, g, validate);
    DroppedRuleMust(s, e, validate(e), rule, t);
    GroupHas(s, cfg, g, {}, t);
    GroupHas(s, cfg, g, GroupSkip(s, cfg, g, validate), t);
  }

  predicate GroupRuleLacks(s: Schema, g: Group, rule: string, t: Type) {
    var r := s.rule(GroupClass(s, g));
    r.Some? && r.value.name == rule && t in r.value.must && !Has(s, g.given, t) && !GroupOwnType(s, g, t)
  }

  /** The values the server has for a group. */
  predicate OfferedGroup(cfg: Config, g: Group, a: Attribute) {
    || a in g.given || a == Attribute(Bare(Cn), [g.name]) || a == Attribute(Bare(MemberUid), g.members)
    || a == Attribute(Bare(Member), DnsOf(cfg, g.members))
  }

  /** What Validate can still say of a published group: a MUST of its content rule, a value
      it has, and a name its DN does not parse to. */
  ghost predicate CannotMendGroup(s: Schema, cfg: Config, g: Group, q: Problem) {
    match q
    case MissingRequired(t, ByRule(rule)) => GroupRuleLacks(s, g, rule, t)
    case BadValue(d) =>
      || (exists a :: OfferedGroup(cfg, g, a) && a.desc == d && !s.valuesOK(d, a.values))
      || (d == Bare(ObjectClass) &&
          exists cs :: GroupClass(s, g) in cs && !s.valuesOK(d, ["top"] + ClassNames(cs)))
    case RDNNotPresent => !NamedByCn(s, cfg, g)
    case _ => false
  }

  lemma BadIsOfferedGroup(s: Schema, cfg: Config, g: Group, skip: set<Class>, ps: seq<Problem>, d: Desc)
    requires Acyclic(s) && IsProblem(s, Dropped(GroupEntry(s, cfg, g, skip), ps), BadValue(d))
    ensures CannotMendGroup(s, cfg, g, BadValue(d))
  {
    var e := GroupEntry(s, cfg, g, skip);
    KeepMeans(e.attrs, DropSet(e.given, ps));
    var a :| a in Dropped(e, ps).attrs && a.desc == d && !s.valuesOK(a.desc, a.values);
    assert a in GroupHead(g, e.classes) || a in g.given || a in GroupTail(s, cfg, g);
    InClosed(s, [GroupClass(s, g)], GroupAdded(s, cfg, g, skip), GroupClass(s, g));
  }

  /** A group stays published: nothing else is said of it. */
  lemma GroupStaysPublished(s: Schema, cfg: Config, g: Group, validate: Entry -> seq<Problem>, q: Problem)
    requires World(s, cfg, validate) && IsProblem(s, PublishedGroup(s, cfg, g, validate), q)
    ensures CannotMendGroup(s, cfg, g, q)
  {
    var e := RebuiltGroup(s, cfg, g, validate);
    var ps := validate(e);
    RebuiltGroupIsShaped(s, cfg, g, validate);
    assert ListsFor(s, e, ps);
    OneRoundIsEnough(s, e, ps, q);
    match q
    case MissingRequired(t, ByClass(c)) =>
      DroppedMust(s, e, ps, c, t);
      RebuiltGroupMust(s, cfg, g, validate, c, t);
    case MissingRequired(t, ByRule(rule)) => GroupRuleMust(s, cfg, g, validate, rule, t);
    case BadValue(d) => BadIsOfferedGroup(s, cfg, g, GroupSkip(s, cfg, g, validate), ps, d);
    case RDNNotPresent =>
      if NamedByCn(s, cfg, g) {
        GroupKeepsItsName(s, cfg, g, validate);
      }
    case _ =>
  }

  lemma GroupCarries(s: Schema, cfg: Config, g: Group, skip: set<Class>, c: Class)
    requires Built(s) && Standard(s) && Declarable(s, cfg) && c.Site? && s.kind(c) == Auxiliary
    requires c in GroupAdded(s, cfg, g, {}) && (c in GroupAdded(s, cfg, g, skip) <==> c !in skip)
    ensures c in GroupEntry(s, cfg, g, skip).classes <==> c !in skip
  {
    var base, added := [GroupClass(s, g)], GroupAdded(s, cfg, g, skip);
    GroupRebuilds(s, cfg, g, skip);
    if c in added {
      AddedIsThere(s, base, base, added, c);
    } else if c in Closed(s, added, base) {
      NothingNew(s, base, base, GroupAdded(s, cfg, g, {}), base, added, skip, c);
    }
  }

  /** Every class a source declares for a group is carried, or said to be left off once. */
  lemma GroupCarriedOrSaid(s: Schema, cfg: Config, g: Group, validate: Entry -> seq<Problem>, n: string)
    requires World(s, cfg, validate) && n in g.declared && cfg.known(n).Some?
    ensures var c, off := cfg.known(n).value, GroupOff(s, cfg, g, validate);
            && SaidOnce(off)
            && (c in GroupAdded(s, cfg, g, GroupSkip(s, cfg, g, validate)) <==> c !in ClassesOf(off))
            && (c in RebuiltGroup(s, cfg, g, validate).classes <==> c !in ClassesOf(off))
  {
    var c, skip := cfg.known(n).value, GroupSkip(s, cfg, g, validate);
    var first := GroupEntry(s, cfg, g, {});
    GroupSkipMeans(s, cfg, g, validate);
    CarriedMeans(s, cfg.known, g.declared, {});
    CarriedMeans(s, cfg.known, g.declared, skip);
    assert c in GroupAdded(s, cfg, g, {});
    SkipIsClosed(s, GroupAdded(s, cfg, g, {}), validate(first), c);
    GroupCarries(s, cfg, g, skip, c);
  }
}
