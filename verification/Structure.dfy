/** DIT structure rules (structure.go): what startup checks of the tree, and why it is
    enough for what is placed when the server runs. Which rule governs an entry is a
    library's to say; it depends on the attributes that name the entry, its structural
    class, and the rule of what is above it (section 4.1.7 of RFC 4512). */
module Structure {
  import opened Wrappers
  import opened Schemas
  import opened Names
  import opened Rdns
  import opened Shapes
  import opened Entries
  import opened People
  import opened Groups

  datatype Violation = NameFormViolation | NoRule

  /** A governing rule, by its ID: of an entry named by these types, of this structural
      class, under an entry with this rule, or under none. */
  type Govern = (set<Type>, Class, Option<nat>) -> Result<nat, Violation>

  /** The types an entry with this DN is named by. */
  function TypesIn(s: Schema, dn: string): set<Type> {
    set ava | ava in s.rdnOf(dn) && s.typeOf(ava.0).Some? :: s.typeOf(ava.0).value
  }

  const PERSON_SHAPES: seq<seq<Class>> := [[Account], [Person, OrganizationalPerson, InetOrgPerson]]
  const GROUP_SHAPES: seq<seq<Class>> := [[PosixGroup], [GroupOfNames], [OrganizationalRole]]

  /** The shapes probed at startup are exactly those an entry can have. */
  lemma ShapesAreAll(s: Schema, p: Profile, g: Group)
    ensures PersonChain(s, p) in PERSON_SHAPES && [GroupClass(s, g)] in GROUP_SHAPES
    ensures forall shape :: shape in PERSON_SHAPES + GROUP_SHAPES <==> IsChain(shape)
  {
    assert PERSON_SHAPES[0] == [Account] && PERSON_SHAPES[1] == [Person, OrganizationalPerson, InetOrgPerson];
    assert GROUP_SHAPES[0] == [PosixGroup] && GROUP_SHAPES[1] == [GroupOfNames];
    assert GROUP_SHAPES[2] == [OrganizationalRole];
  }

  // ----- containerClass -----

  const CONTAINER_CLASSES: seq<(Type, Class)> :=
    [(SiteType("dc"), Site("domain")), (SiteType("o"), Site("organization")),
     (SiteType("ou"), Site("organizationalUnit")), (SiteType("c"), Site("country")), (SiteType("l"), Site("locality"))]

  /** The class of a container, of the type that names it. */
  predicate IsContainer(t: Type, c: Class) {
    (t, c) in CONTAINER_CLASSES
  }

  /** The five, as section 3 of RFC 4519 and section 3.4 of RFC 4524 have them. */
  lemma ContainersAre(t: Type, c: Class)
    ensures IsContainer(t, c) <==>
              || (t == SiteType("dc") && c == Site("domain")) || (t == SiteType("o") && c == Site("organization"))
              || (t == SiteType("ou") && c == Site("organizationalUnit"))
              || (t == SiteType("c") && c == Site("country")) || (t == SiteType("l") && c == Site("locality"))
  {
    var l := CONTAINER_CLASSES;
    assert l[0] == (SiteType("dc"), Site("domain")) && l[1] == (SiteType("o"), Site("organization"));
    assert l[2] == (SiteType("ou"), Site("organizationalUnit"));
    assert l[3] == (SiteType("c"), Site("country")) && l[4] == (SiteType("l"), Site("locality"));
  }

  /** containerClass: the class the first part of a DN names, if it is one of the five. */
  method ContainerClass(s: Schema, dn: string) returns (r: Option<Class>)
    ensures r.Some? <==> s.rdnOf(dn) != [] && exists t, c :: s.typeOf(s.rdnOf(dn)[0].0) == Some(t) && IsContainer(t, c)
    ensures r.Some? ==> IsContainer(s.typeOf(s.rdnOf(dn)[0].0).value, r.value)
  {
    var avas := s.rdnOf(dn);
    if avas == [] {
      return None;
    }
    var t := s.typeOf(avas[0].0);
    for i := 0 to |CONTAINER_CLASSES|
      invariant forall j :: 0 <= j < i ==> t != Some(CONTAINER_CLASSES[j].0)
    {
      if t == Some(CONTAINER_CLASSES[i].0) {
        assert IsContainer(t.value, CONTAINER_CLASSES[i].1) by {
          assert CONTAINER_CLASSES[i] in CONTAINER_CLASSES;
        }
        return Some(CONTAINER_CLASSES[i].1);
      }
    }
    r := None;
  }

  // ----- checkStructure -----

  datatype Container = PeopleDn | GroupsDn

  function ContainerDn(cfg: Config, w: Container): string {
    if w.PeopleDn? then cfg.peopleDn else cfg.groupsDn
  }

  /** The DN of the probe entry: named as authnd names its people, or its groups. */
  function ProbeDn(cfg: Config, w: Container): string {
    if w.PeopleDn? then DnOf(cfg.peopleDn, "probe") else GroupDnOf(cfg.groupsDn, "probe")
  }

  function ShapesOf(w: Container): seq<seq<Class>> {
    if w.PeopleDn? then PERSON_SHAPES else GROUP_SHAPES
  }

  datatype Refusal =
    | NoContainerClass | SuffixRefused(why: Violation)
    | NotGoverned(at: Container) | NamedSo(at: Container, shape: seq<Class>) | NothingPlaced(at: Container)

  /** The rules that govern the two containers. */
  datatype Tree = Tree(people: nat, groups: nat)

  function RuleAt(t: Tree, w: Container): nat {
    if w.PeopleDn? then t.people else t.groups
  }

  /** What the rules say of an entry named by these types, of this shape. */
  function Ruling(govern: Govern, names: set<Type>, r: nat, shape: seq<Class>): Result<nat, Violation>
    requires shape != []
  {
    govern(names, shape[|shape| - 1], Some(r))
  }

  /** Under a container no shape is refused for its name, and some shape can be placed. */
  ghost predicate Useful(govern: Govern, names: set<Type>, w: Container, r: nat) {
    && (forall i :: 0 <= i < |ShapesOf(w)| ==> Ruling(govern, names, r, ShapesOf(w)[i]) != Failure(NameFormViolation))
    && (exists i :: 0 <= i < |ShapesOf(w)| && Ruling(govern, names, r, ShapesOf(w)[i]).Success?)
  }

  /** The probes of one container: no refusal exactly when it is useful. */
  method Probe(govern: Govern, names: set<Type>, w: Container, r: nat) returns (errs: seq<Refusal>)
    ensures errs == [] <==> Useful(govern, names, w, r)
  {
    var shapes := ShapesOf(w);
    errs := [];
    var placed := 0;
    for i := 0 to |shapes|
      invariant placed >= 0
      invariant placed == 0 <==> forall j :: 0 <= j < i ==> Ruling(govern, names, r, shapes[j]) == Failure(NoRule)
      invariant errs == [] <==>
                forall j :: 0 <= j < i ==> Ruling(govern, names, r, shapes[j]) != Failure(NameFormViolation)
    {
      var ruling := Ruling(govern, names, r, shapes[i]);
      match ruling
      case Success(_) => placed := placed + 1;
      case Failure(NameFormViolation) =>
        errs := errs + [NamedSo(w, shapes[i])];
        placed := placed + 1;
      case Failure(NoRule) =>
    }
    if placed == 0 {
      NothingIsPlaced(govern, names, w, r);
      errs := errs + [NothingPlaced(w)];
    } else if errs == [] {
      ghost var j :| 0 <= j < |shapes| && Ruling(govern, names, r, shapes[j]) != Failure(NoRule);
      ghost var ruling := Ruling(govern, names, r, shapes[j]);
      assert ruling.Failure? ==> ruling.error == NoRule || ruling.error == NameFormViolation;
    }
  }

  lemma NothingIsPlaced(govern: Govern, names: set<Type>, w: Container, r: nat)
    requires forall j :: 0 <= j < |ShapesOf(w)| ==> Ruling(govern, names, r, ShapesOf(w)[j]) == Failure(NoRule)
    ensures !Useful(govern, names, w, r)
  {
  }

  /** What governs a container under the suffix's rule. */
  function ContainerRule(s: Schema, govern: Govern, cfg: Config, w: Container, root: nat): Result<nat, Violation> {
    govern(TypesIn(s, ContainerDn(cfg, w)), Site("organizationalUnit"), Some(root))
  }

  /** One container is governed, by r, and useful. */
  ghost predicate Sound(s: Schema, govern: Govern, cfg: Config, w: Container, root: nat, r: nat) {
    && govern(TypesIn(s, ContainerDn(cfg, w)), Site("organizationalUnit"), Some(root)) == Success(r)
    && Useful(govern, TypesIn(s, ProbeDn(cfg, w)), w, r)
  }

  /** The suffix has a class, is governed as that class, and both containers are sound. */
  ghost predicate TreeIsSound(s: Schema, govern: Govern, cfg: Config, base: string, t: Tree) {
    exists c, root ::
      && s.rdnOf(base) != [] && s.typeOf(s.rdnOf(base)[0].0).Some? && IsContainer(s.typeOf(s.rdnOf(base)[0].0).value, c)
      && govern(TypesIn(s, base), c, None) == Success(root)
      && Sound(s, govern, cfg, PeopleDn, root, t.people) && Sound(s, govern, cfg, GroupsDn, root, t.groups)
  }

  /** checkStructure: without active rules nothing is checked; with some, startup passes
      exactly when the tree is sound, and keeps its rules. */
  method CheckStructure(s: Schema, govern: Govern, cfg: Config, base: string, active: bool)
    returns (r: Result<Option<Tree>, seq<Refusal>>)
    ensures r == Success(None) <==> !active
    ensures r.Success? && active ==> TreeIsSound(s, govern, cfg, base, r.value.value)
    ensures r.Failure? ==> r.error != [] && forall t :: !TreeIsSound(s, govern, cfg, base, t)
  {
    if !active {
      return Success(None);
    }
    var class_ := ContainerClass(s, base);
    if class_.None? {
      return Failure([NoContainerClass]);
    }
    OneClass(s, base, class_.value);
    var root := govern(TypesIn(s, base), class_.value, None);
    if root.Failure? {
      return Failure([SuffixRefused(root.error)]);
    }
    var people, errs := CheckContainer(s, govern, cfg, PeopleDn, root.value);
    var groups, more := CheckContainer(s, govern, cfg, GroupsDn, root.value);
    errs := errs + more;
    if errs != [] {
      return Failure(errs);
    }
    r := Success(Some(Tree(people, groups)));
  }

  method CheckContainer(s: Schema, govern: Govern, cfg: Config, w: Container, root: nat)
    returns (r: nat, errs: seq<Refusal>)
    ensures errs == [] <==> Sound(s, govern, cfg, w, root, r)
    ensures errs != [] ==> forall n :: !Sound(s, govern, cfg, w, root, n)
  {
    r, errs := 0, [NotGoverned(w)];
    var ruling := ContainerRule(s, govern, cfg, w, root);
    if ruling.Success? {
      r := ruling.value;
      errs := Probe(govern, TypesIn(s, ProbeDn(cfg, w)), w, r);
    }
  }

  /** No type names two kinds of container. */
  lemma OneClass(s: Schema, base: string, c: Class)
    requires s.rdnOf(base) != [] && s.typeOf(s.rdnOf(base)[0].0).Some?
    requires IsContainer(s.typeOf(s.rdnOf(base)[0].0).value, c)
    ensures forall d :: IsContainer(s.typeOf(s.rdnOf(base)[0].0).value, d) ==> d == c
  {
  }

  // ----- placed -----

  /** placed: why no rule of the tree places an entry, if none does. */
  function Unplaced(s: Schema, govern: Govern, tree: Option<Tree>, e: Entry): Option<Violation>
    requires Acyclic(s)
  {
    if tree.None? then None
    else
      var st := StructuralOf(s, e.classes);
      if st.None? then Some(NoRule)
      else
        var sup := RuleAt(tree.value, if e.group then GroupsDn else PeopleDn);
        var ruling := govern(TypesIn(s, e.dn), st.value, Some(sup));
        if ruling.Success? then None else Some(ruling.error)
  }

  /** A shape has no rule under a container, where another that could be there has one. */
  ghost predicate WantsARule(govern: Govern, names: set<Type>, w: Container, r: nat, shape: seq<Class>)
    requires shape != []
  {
    && Ruling(govern, names, r, shape) == Failure(NoRule)
    && exists i ::
         0 <= i < |ShapesOf(w)| && ShapesOf(w)[i] != shape && Ruling(govern, names, r, ShapesOf(w)[i]).Success?
  }

  lemma WantOfARule(govern: Govern, names: set<Type>, w: Container, r: nat, shape: seq<Class>)
    requires Useful(govern, names, w, r) && shape in ShapesOf(w) && shape != []
    requires !Ruling(govern, names, r, shape).Success?
    ensures WantsARule(govern, names, w, r, shape)
  {
    var n :| 0 <= n < |ShapesOf(w)| && ShapesOf(w)[n] == shape;
    var ruling := Ruling(govern, names, r, ShapesOf(w)[n]);
    assert ruling.Failure? && ruling.error != NameFormViolation;
  }

  /** An entry whose DN parses to the name is named by the type the probe was written with. */
  lemma NamedAsProbed(s: Schema, cfg: Config, name: string)
    requires Built(s)
    ensures NamedBy(s, s.rdnOf(DnOf(cfg.peopleDn, name)), Uid, name) ==> TypesIn(s, DnOf(cfg.peopleDn, name)) == {Uid}
    ensures NamedBy(s, s.rdnOf(GroupDnOf(cfg.groupsDn, name)), Cn, name) ==>
              TypesIn(s, GroupDnOf(cfg.groupsDn, name)) == {Cn}
  {
    if NamedBy(s, s.rdnOf(DnOf(cfg.peopleDn, name)), Uid, name) {
      OneType(s, DnOf(cfg.peopleDn, name), Uid);
    }
    if NamedBy(s, s.rdnOf(GroupDnOf(cfg.groupsDn, name)), Cn, name) {
      OneType(s, GroupDnOf(cfg.groupsDn, name), Cn);
    }
  }

  lemma OneType(s: Schema, dn: string, t: Type)
    requires Built(s) && |s.rdnOf(dn)| == 1 && s.rdnOf(dn)[0].0 == Bare(t)
    ensures TypesIn(s, dn) == {t}
  {
    assert s.rdnOf(dn)[0] in s.rdnOf(dn) && s.typeOf(s.rdnOf(dn)[0].0) == Some(t);
  }

  /** Under a container that is a DN, the probes are named by uid and by cn alone. */
  lemma ProbesAreNamed(s: Schema, cfg: Config)
    requires Built(s) && ReadsDns(s, cfg)
    ensures s.rdnOf(cfg.peopleDn) != [] ==> TypesIn(s, ProbeDn(cfg, PeopleDn)) == {Uid}
    ensures s.rdnOf(cfg.groupsDn) != [] ==> TypesIn(s, ProbeDn(cfg, GroupsDn)) == {Cn}
  {
    assert PlainText("probe");
    assert ReadsName(s, cfg.peopleDn, DnOf(cfg.peopleDn, "probe"), Uid, "probe");
    assert ReadsName(s, cfg.groupsDn, GroupDnOf(cfg.groupsDn, "probe"), Cn, "probe");
    if s.rdnOf(cfg.peopleDn) != [] {
      OneType(s, ProbeDn(cfg, PeopleDn), Uid);
    }
    if s.rdnOf(cfg.groupsDn) != [] {
      OneType(s, ProbeDn(cfg, GroupsDn), Cn);
    }
  }

  /** Where a DN that was made there names anything, the container is one. */
  lemma ContainerIsADn(s: Schema, cfg: Config, name: string)
    requires ReadsDns(s, cfg)
    ensures TypesIn(s, DnOf(cfg.peopleDn, name)) != {} ==> s.rdnOf(cfg.peopleDn) != []
    ensures TypesIn(s, GroupDnOf(cfg.groupsDn, name)) != {} ==> s.rdnOf(cfg.groupsDn) != []
  {
    assert ReadsName(s, cfg.peopleDn, DnOf(cfg.peopleDn, name), Uid, name);
    assert ReadsName(s, cfg.groupsDn, GroupDnOf(cfg.groupsDn, name), Cn, name);
  }

  /** The class a person's entry is placed by: the shape's last, whatever was left off and
      whatever their source declares. */
  lemma PersonIsPlacedBy(s: Schema, cfg: Config, p: Profile, skip: set<Class>)
    requires Built(s) && Standard(s) && Declarable(s, cfg)
    ensures StructuralOf(s, PersonEntry(s, cfg, p, skip).classes) == Some(Leaf(PersonChain(s, p)))
  {
    PersonLaid(s, cfg, p, skip);
    OneChain(s, PersonChain(s, p), PersonBase(s, p, skip), PersonAdded(s, cfg, p, skip));
  }

  lemma GroupIsPlacedBy(s: Schema, cfg: Config, g: Group, skip: set<Class>)
    requires Built(s) && Standard(s) && Declarable(s, cfg)
    ensures StructuralOf(s, GroupEntry(s, cfg, g, skip).classes) == Some(GroupClass(s, g))
  {
    GroupRebuilds(s, cfg, g, skip);
    OneChain(s, [GroupClass(s, g)], [GroupClass(s, g)], GroupAdded(s, cfg, g, skip));
  }

  /** Once startup has passed, a person named by uid alone is left out by the structure
      rules only because their structural class has no rule under the container; and there
      is then another class somebody could have had. */
  lemma OnlyForWantOfARule(s: Schema, govern: Govern, tree: Tree, cfg: Config, p: Profile, skip: set<Class>)
    requires Built(s) && Standard(s) && Declarable(s, cfg) && ReadsDns(s, cfg)
    requires TypesIn(s, DnOf(cfg.peopleDn, p.name)) == {Uid}
    requires Useful(govern, TypesIn(s, ProbeDn(cfg, PeopleDn)), PeopleDn, tree.people)
    requires Unplaced(s, govern, Some(tree), PersonEntry(s, cfg, p, skip)).Some?
    ensures WantsARule(govern, {Uid}, PeopleDn, tree.people, PersonChain(s, p))
  {
    PersonIsPlacedBy(s, cfg, p, skip);
    ProbesAreNamed(s, cfg);
    ContainerIsADn(s, cfg, p.name);
    ShapesAreAll(s, p, Group("", [], [], []));
    WantOfARule(govern, {Uid}, PeopleDn, tree.people, PersonChain(s, p));
  }

  lemma GroupOnlyForWantOfARule(s: Schema, govern: Govern, tree: Tree, cfg: Config, g: Group, skip: set<Class>)
    requires Built(s) && Standard(s) && Declarable(s, cfg) && ReadsDns(s, cfg)
    requires TypesIn(s, GroupDnOf(cfg.groupsDn, g.name)) == {Cn}
    requires Useful(govern, TypesIn(s, ProbeDn(cfg, GroupsDn)), GroupsDn, tree.groups)
    requires Unplaced(s, govern, Some(tree), GroupEntry(s, cfg, g, skip)).Some?
    ensures WantsARule(govern, {Cn}, GroupsDn, tree.groups, [GroupClass(s, g)])
  {
    GroupIsPlacedBy(s, cfg, g, skip);
    ProbesAreNamed(s, cfg);
    ContainerIsADn(s, cfg, g.name);
    ShapesAreAll(s, Profile("", [], [], None, "", []), g);
    WantOfARule(govern, {Cn}, GroupsDn, tree.groups, [GroupClass(s, g)]);
  }
}
