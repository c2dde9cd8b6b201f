/** build (entries.go): every entry of one snapshot, each held to the schema, the structure
    rules and the size a message may have. */
module Publication {
  import opened Wrappers
  import opened Schemas
  import opened LeftOff
  import opened Validated
  import opened Entries
  import opened Names
  import opened Rdns
  import opened Structure
  import People
  import Withheld
  import Groups

  /** What never changes while the server runs. */
  datatype Service = Service(
    schema: Schema, cfg: Config, validate: Entry -> seq<Problem>, govern: Govern, tree: Option<Tree>, maxBytes: nat)

  /** Why an entry is withheld, if it is. */
  function Verdict(v: Service, e: Entry): Option<Invalid>
    requires Acyclic(v.schema)
  {
    if v.validate(e) != [] then Some(Problems(v.validate(e)))
    else if Unplaced(v.schema, v.govern, v.tree, e).Some? then Some(NotPlaced)
    else if |e.dn| + Bytes(e.attrs) > v.maxBytes then Some(TooLarge(|e.dn| + Bytes(e.attrs)))
    else None
  }

  /** An entry as build ends with it: its value, the verdict, and the classes left off. */
  datatype Outcome = Outcome(value: Entry, invalid: Option<Invalid>, off: seq<LeftOff>)

  function PersonOutcome(v: Service, p: Profile): Outcome
    requires Acyclic(v.schema)
  {
    var e := People.PersonPublished(v.schema, v.cfg, p, v.validate);
    Outcome(e, Verdict(v, e), People.PersonOff(v.schema, v.cfg, p, v.validate))
  }

  function GroupOutcome(v: Service, g: Group): Outcome
    requires Acyclic(v.schema)
  {
    var e := Groups.PublishedGroup(v.schema, v.cfg, g, v.validate);
    Outcome(e, Verdict(v, e), Groups.GroupOff(v.schema, v.cfg, g, v.validate))
  }

  function Each<A, B>(f: A -> B, l: seq<A>): seq<B> {
    seq(|l|, i requires 0 <= i < |l| => f(l[i]))
  }

  function OutcomeOf(v: Service): Profile -> Outcome
    requires Acyclic(v.schema)
  {
    p => PersonOutcome(v, p)
  }

  /** The outcome of each person, in their order. */
  function PeopleOutcomes(v: Service, people: seq<Profile>): seq<Outcome>
    requires Acyclic(v.schema)
  {
    Each(OutcomeOf(v), people)
  }

  /** A group no source can answer for is left out. */
  function GroupOutcomes(v: Service, groups: seq<Option<Group>>): seq<Outcome>
    requires Acyclic(v.schema)
  {
    if groups == [] then []
    else
      var before, g := GroupOutcomes(v, groups[..|groups| - 1]), groups[|groups| - 1];
      if g.Some? then before + [GroupOutcome(v, g.value)] else before
  }

  class Held {
    const entry: HeldEntry
    const off: seq<LeftOff>

    constructor (entry: HeldEntry, off: seq<LeftOff>)
      ensures this.entry == entry && this.off == off
    {
      this.entry, this.off := entry, off;
    }

    function AsOutcome(): Outcome
      reads entry
    {
      Outcome(entry.Value(), entry.invalid, off)
    }
  }

  /** placedAndValidated. */
  method PlacedAndValidated(v: Service, h: HeldEntry)
    requires Acyclic(v.schema) && h.Valid() && h.dropped == [] && h.validator == v.validate
    modifies h
    ensures h.Valid() && h.Value() == Dropped(old(h.Value()), v.validate(old(h.Value())))
    ensures h.invalid == Verdict(v, h.Value())
  {
    h.Validated();
    h.Hold(Unplaced(v.schema, v.govern, v.tree, h.Value()).None?, v.maxBytes);
  }

  method BuildPerson(v: Service, p: Profile) returns (held: Held)
    requires Acyclic(v.schema)
    ensures fresh(held) && fresh(held.entry) && held.entry.Valid() && held.AsOutcome() == PersonOutcome(v, p)
  {
    var e, declared := MakePersonEntry(v.schema, v.cfg, p, {});
    var h := new HeldEntry(e, v.validate);
    var ps := h.Validate();
    var off, skip := FindUnmet(v.schema, declared, ps, People.RuleName(v.schema, e));
    if off != [] {
      e, declared := MakePersonEntry(v.schema, v.cfg, p, skip);
      h := new HeldEntry(e, v.validate);
    } else {
      assert skip == {};
    }
    assert h.Value() == People.Rebuilt(v.schema, v.cfg, p, v.validate);
    PlacedAndValidated(v, h);
    held := new Held(h, off);
  }

  method BuildGroup(v: Service, g: Group) returns (held: Held)
    requires Acyclic(v.schema)
    ensures fresh(held) && fresh(held.entry) && held.entry.Valid() && held.AsOutcome() == GroupOutcome(v, g)
  {
    var e, declared := MakeGroupEntry(v.schema, v.cfg, g, {});
    var h := new HeldEntry(e, v.validate);
    var ps := h.Validate();
    var off, skip := FindUnmet(v.schema, declared, ps, People.RuleName(v.schema, e));
    if off != [] {
      e, declared := MakeGroupEntry(v.schema, v.cfg, g, skip);
      h := new HeldEntry(e, v.validate);
    } else {
      assert skip == {};
    }
    assert h.Value() == Groups.RebuiltGroup(v.schema, v.cfg, g, v.validate);
    PlacedAndValidated(v, h);
    held := new Held(h, off);
  }

  ghost predicate Are(all: seq<Held>, outcomes: seq<Outcome>)
    reads set h | h in all :: h.entry
  {
    |all| == |outcomes| && forall i :: 0 <= i < |all| ==> all[i].entry.Valid() && all[i].AsOutcome() == outcomes[i]
  }

  lemma AreOneMore(all: seq<Held>, outcomes: seq<Outcome>, h: Held, o: Outcome)
    requires Are(all, outcomes) && h.entry.Valid() && h.AsOutcome() == o
    ensures Are(all + [h], outcomes + [o])
  {
  }

  lemma EachMore<A, B>(f: A -> B, l: seq<A>, i: nat)
    requires i < |l|
    ensures Each(f, l[..i + 1]) == Each(f, l[..i]) + [f(l[i])]
  {
  }

  method BuildPeople(v: Service, people: seq<Profile>) returns (all: seq<Held>)
    requires Acyclic(v.schema)
    ensures Are(all, PeopleOutcomes(v, people))
  {
    all := [];
    for i := 0 to |people|
      invariant Are(all, PeopleOutcomes(v, people[..i]))
    {
      EachMore(OutcomeOf(v), people, i);
      var h := BuildPerson(v, people[i]);
      AreOneMore(all, PeopleOutcomes(v, people[..i]), h, OutcomeOf(v)(people[i]));
      all := all + [h];
    }
    assert people[..|people|] == people;
  }

  method BuildGroups(v: Service, groups: seq<Option<Group>>) returns (all: seq<Held>)
    requires Acyclic(v.schema)
    ensures Are(all, GroupOutcomes(v, groups))
  {
    all := [];
    for i := 0 to |groups|
      invariant Are(all, GroupOutcomes(v, groups[..i]))
    {
      assert groups[..i + 1][..i] == groups[..i];
      if groups[i].Some? {
        ghost var before := GroupOutcomes(v, groups[..i]);
        var h := BuildGroup(v, groups[i].value);
        AreOneMore(all, before, h, GroupOutcome(v, groups[i].value));
        all := all + [h];
      }
    }
    assert groups[..|groups|] == groups;
  }

  /** build as it runs: the people in order, then the groups. */
  method Build(v: Service, people: seq<Profile>, groups: seq<Option<Group>>) returns (all: seq<Held>)
    requires Acyclic(v.schema)
    ensures Are(all, PeopleOutcomes(v, people) + GroupOutcomes(v, groups))
  {
    var first := BuildPeople(v, people);
    var then_ := BuildGroups(v, groups);
    Together(first, PeopleOutcomes(v, people), then_, GroupOutcomes(v, groups));
    all := first + then_;
  }

  lemma Together(a: seq<Held>, x: seq<Outcome>, b: seq<Held>, y: seq<Outcome>)
    requires Are(a, x) && Are(b, y)
    ensures Are(a + b, x + y)
  {
  }

  /** How many groups a source answered for. */
  function Answered(groups: seq<Option<Group>>): nat {
    if groups == [] then 0
    else Answered(groups[..|groups| - 1]) + if groups[|groups| - 1].Some? then 1 else 0
  }

  /** The outcomes of groups are one for each a source answered for, in their order. */
  lemma {:induction false} OneOutcomeEachGroup(v: Service, groups: seq<Option<Group>>)
    requires Acyclic(v.schema)
    ensures |GroupOutcomes(v, groups)| == Answered(groups)
    ensures forall i :: 0 <= i < |groups| && groups[i].Some? ==>
              && Answered(groups[..i]) < |GroupOutcomes(v, groups)|
              && GroupOutcomes(v, groups)[Answered(groups[..i])] == GroupOutcome(v, groups[i].value)
  {
    if groups != [] {
      var front := groups[..|groups| - 1];
      OneOutcomeEachGroup(v, front);
      forall i | 0 <= i < |groups| && groups[i].Some?
        ensures Answered(groups[..i]) < |GroupOutcomes(v, groups)|
        ensures GroupOutcomes(v, groups)[Answered(groups[..i])] == GroupOutcome(v, groups[i].value)
      {
        if i < |front| {
          assert front[..i] == groups[..i] && front[i] == groups[i];
        } else {
          assert groups[..i] == front;
        }
      }
    }
  }

  // ----- what a search is answered from -----

  function Published(outcomes: seq<Outcome>): seq<Entry> {
    if outcomes == [] then []
    else
      var before, o := Published(outcomes[..|outcomes| - 1]), outcomes[|outcomes| - 1];
      if o.invalid.None? then before + [o.value] else before
  }

  /** An entry is searched if and only if it is the value of one nothing is said against. */
  lemma {:induction false} PublishedExactly(outcomes: seq<Outcome>, e: Entry)
    ensures e in Published(outcomes) <==>
              exists i :: 0 <= i < |outcomes| && outcomes[i].value == e && outcomes[i].invalid.None?
  {
    if outcomes != [] {
      var front, last := outcomes[..|outcomes| - 1], outcomes[|outcomes| - 1];
      PublishedExactly(front, e);
      assert outcomes == front + [last];
      if i :| 0 <= i < |outcomes| && outcomes[i].value == e && outcomes[i].invalid.None? {
        assert i < |front| ==> front[i] == outcomes[i];
      }
      if i :| 0 <= i < |front| && front[i].value == e && front[i].invalid.None? {
        assert outcomes[i] == front[i];
      }
    }
  }

  /** How many nothing is said against. */
  function Passing(outcomes: seq<Outcome>): nat {
    if outcomes == [] then 0
    else Passing(outcomes[..|outcomes| - 1]) + if outcomes[|outcomes| - 1].invalid.None? then 1 else 0
  }

  /** ... each once, in the order they were built. */
  lemma {:induction false} PublishedInOrder(outcomes: seq<Outcome>, i: nat)
    requires i < |outcomes| && outcomes[i].invalid.None?
    ensures |Published(outcomes)| == Passing(outcomes)
    ensures Passing(outcomes[..i]) < |Published(outcomes)|
    ensures Published(outcomes)[Passing(outcomes[..i])] == outcomes[i].value
  {
    PassingIs(outcomes);
    var front := outcomes[..|outcomes| - 1];
    PassingIs(front);
    if i < |front| {
      PublishedInOrder(front, i);
      assert front[..i] == outcomes[..i] && front[i] == outcomes[i];
    } else {
      assert outcomes[..i] == front;
    }
  }

  lemma {:induction false} PassingIs(outcomes: seq<Outcome>)
    ensures |Published(outcomes)| == Passing(outcomes)
  {
    if outcomes != [] {
      PassingIs(outcomes[..|outcomes| - 1]);
    }
  }

  /** valid: the entries that pass, in the order they were built. */
  method Valid(all: seq<Held>, ghost outcomes: seq<Outcome>) returns (out: seq<Entry>)
    requires Are(all, outcomes)
    ensures out == Published(outcomes)
  {
    out := [];
    for i := 0 to |all|
      invariant out == Published(outcomes[..i])
    {
      assert outcomes[..i + 1][..i] == outcomes[..i] && all[i].AsOutcome() == outcomes[i];
      if all[i].entry.invalid.None? {
        out := out + [all[i].entry.Value()];
      }
    }
    assert outcomes[..|all|] == outcomes;
  }

  /** A verdict is the first of the three that stands: the problems of the schema, all of
      them; no place, for an entry without any; the size, for one that has its place. */
  lemma VerdictExactly(v: Service, e: Entry)
    requires People.World(v.schema, v.cfg, v.validate)
    ensures var problems := exists q :: IsProblem(v.schema, e, q);
            var unplaced := Unplaced(v.schema, v.govern, v.tree, e).Some?;
            var bytes := |e.dn| + |TextOf(e.attrs)|;
            && (problems <==> exists ps :: Verdict(v, e) == Some(Problems(ps)))
            && (forall ps :: Verdict(v, e) == Some(Problems(ps)) ==> ListsFor(v.schema, e, ps))
            && (Verdict(v, e) == Some(NotPlaced) <==> !problems && unplaced)
            && (Verdict(v, e) == Some(TooLarge(bytes)) <==> !problems && !unplaced && bytes > v.maxBytes)
            && (Verdict(v, e) == None <==> !problems && !unplaced && bytes <= v.maxBytes)
  {
    BytesAreTheText(e.attrs);
    if v.validate(e) != [] {
      assert IsProblem(v.schema, e, v.validate(e)[0]);
      assert Verdict(v, e) == Some(Problems(v.validate(e)));
    }
  }

  /** What a search can return passes the schema, is placed and fits a message; what does
      not is withheld. */
  lemma VerdictMeans(v: Service, e: Entry)
    requires People.World(v.schema, v.cfg, v.validate)
    ensures Verdict(v, e) == None <==>
              && (forall q :: !IsProblem(v.schema, e, q))
              && Unplaced(v.schema, v.govern, v.tree, e).None? && |e.dn| + Bytes(e.attrs) <= v.maxBytes
  {
    if v.validate(e) != [] {
      assert IsProblem(v.schema, e, v.validate(e)[0]);
    }
  }

  /** Nothing goes silently: of a person, each declared class that was checked is one the entry
      has, or is said to be left off, once. */
  lemma PersonSaysWhatIsLeftOff(v: Service, p: Profile, n: string)
    requires People.World(v.schema, v.cfg, v.validate) && n in p.declared && v.cfg.known(n).Some?
    ensures var o, c := PersonOutcome(v, p), v.cfg.known(n).value;
            SaidOnce(o.off) && (c in o.value.classes <==> c !in ClassesOf(o.off))
  {
    People.CarriedOrSaid(v.schema, v.cfg, p, v.validate, n);
  }

  lemma GroupSaysWhatIsLeftOff(v: Service, g: Group, n: string)
    requires People.World(v.schema, v.cfg, v.validate) && n in g.declared && v.cfg.known(n).Some?
    ensures var o, c := GroupOutcome(v, g), v.cfg.known(n).value;
            SaidOnce(o.off) && (c in o.value.classes <==> c !in ClassesOf(o.off))
  {
    Groups.GroupCarriedOrSaid(v.schema, v.cfg, g, v.validate, n);
  }

  /** Startup passed: checkStructure kept this tree. */
  ghost predicate Started(v: Service) {
    v.tree.Some? ==> exists base :: TreeIsSound(v.schema, v.govern, v.cfg, base, v.tree.value)
  }

  lemma StartedIsUseful(v: Service)
    requires Started(v) && v.tree.Some?
    ensures Useful(v.govern, TypesIn(v.schema, ProbeDn(v.cfg, PeopleDn)), PeopleDn, v.tree.value.people)
    ensures Useful(v.govern, TypesIn(v.schema, ProbeDn(v.cfg, GroupsDn)), GroupsDn, v.tree.value.groups)
  {
    var base :| TreeIsSound(v.schema, v.govern, v.cfg, base, v.tree.value);
  }

  lemma NoneToMend(v: Service, p: Profile, e: Entry)
    requires People.World(v.schema, v.cfg, v.validate) && e == People.PersonPublished(v.schema, v.cfg, p, v.validate)
    ensures forall q :: q in v.validate(e) ==> Withheld.CannotMend(v.schema, v.cfg, p, q)
  {
    forall q | q in v.validate(e)
      ensures Withheld.CannotMend(v.schema, v.cfg, p, q)
    {
      assert IsProblem(v.schema, e, q);
      Withheld.PersonStaysPublished(v.schema, v.cfg, p, v.validate, q);
    }
  }

  /** A person of whom Validate says nothing is named by their name, and by uid alone: no
      RDN that the data made different gets as far as the structure rules, unless a source
      gives a uid. */
  lemma PassedIsNamed(v: Service, p: Profile)
    requires People.World(v.schema, v.cfg, v.validate) && ReadsDns(v.schema, v.cfg) && !Has(v.schema, p.given, Uid)
    requires v.validate(People.PersonPublished(v.schema, v.cfg, p, v.validate)) == []
    ensures People.NamedByUid(v.schema, v.cfg, p) && TypesIn(v.schema, DnOf(v.cfg.peopleDn, p.name)) == {Uid}
  {
    People.RdnOfPeople(v.schema, v.cfg, p, v.validate);
    assert !IsProblem(v.schema, People.PersonPublished(v.schema, v.cfg, p, v.validate), RDNNotPresent);
    NamedAsProbed(v.schema, v.cfg, p.name);
  }

  lemma PassedGroupIsNamed(v: Service, g: Group)
    requires People.World(v.schema, v.cfg, v.validate) && ReadsDns(v.schema, v.cfg) && !Has(v.schema, g.given, Cn)
    requires v.validate(Groups.PublishedGroup(v.schema, v.cfg, g, v.validate)) == []
    ensures Groups.NamedByCn(v.schema, v.cfg, g) && TypesIn(v.schema, GroupDnOf(v.cfg.groupsDn, g.name)) == {Cn}
  {
    Groups.RdnOfGroups(v.schema, v.cfg, g, v.validate);
    assert !IsProblem(v.schema, Groups.PublishedGroup(v.schema, v.cfg, g, v.validate), RDNNotPresent);
    NamedAsProbed(v.schema, v.cfg, g.name);
  }

  /** An entry no rule places is one Validate says nothing of; and dropping attributes
      does not change where it is placed. */
  lemma NotPlacedMeans(v: Service, e: Entry, built: Entry)
    requires Acyclic(v.schema) && Verdict(v, e) == Some(NotPlaced) && e == built.(attrs := e.attrs)
    ensures v.validate(e) == [] && v.tree.Some? && Unplaced(v.schema, v.govern, v.tree, built).Some?
  {
  }

  /** Their structural class has no rule under the people's DN, where another that a person
      can have has one; or a source gives a uid, and they are named by something else. */
  ghost predicate PersonHasNoPlace(v: Service, p: Profile) {
    && v.tree.Some?
    && (|| WantsARule(v.govern, {Uid}, PeopleDn, v.tree.value.people, PersonChain(v.schema, p))
        || (Has(v.schema, p.given, Uid) && TypesIn(v.schema, DnOf(v.cfg.peopleDn, p.name)) != {Uid}))
  }

  /** So, once startup has passed, for whoever no rule places. */
  lemma WhyAPersonIsNotPlaced(v: Service, p: Profile)
    requires People.World(v.schema, v.cfg, v.validate) && ReadsDns(v.schema, v.cfg) && Started(v)
    requires PersonOutcome(v, p).invalid == Some(NotPlaced)
    ensures PersonHasNoPlace(v, p)
  {
    var skip := People.PersonSkip(v.schema, v.cfg, p, v.validate);
    NotPlacedMeans(v, PersonOutcome(v, p).value, PersonEntry(v.schema, v.cfg, p, skip));
    StartedIsUseful(v);
    if !Has(v.schema, p.given, Uid) {
      PassedIsNamed(v, p);
    }
    if TypesIn(v.schema, DnOf(v.cfg.peopleDn, p.name)) == {Uid} {
      OnlyForWantOfARule(v.schema, v.govern, v.tree.value, v.cfg, p, skip);
    }
  }

  ghost predicate GroupHasNoPlace(v: Service, g: Group) {
    && v.tree.Some?
    && (|| WantsARule(v.govern, {Cn}, GroupsDn, v.tree.value.groups, [GroupClass(v.schema, g)])
        || (Has(v.schema, g.given, Cn) && TypesIn(v.schema, GroupDnOf(v.cfg.groupsDn, g.name)) != {Cn}))
  }

  lemma WhyAGroupIsNotPlaced(v: Service, g: Group)
    requires People.World(v.schema, v.cfg, v.validate) && ReadsDns(v.schema, v.cfg) && Started(v)
    requires GroupOutcome(v, g).invalid == Some(NotPlaced)
    ensures GroupHasNoPlace(v, g)
  {
    var skip := Groups.GroupSkip(v.schema, v.cfg, g, v.validate);
    NotPlacedMeans(v, GroupOutcome(v, g).value, GroupEntry(v.schema, v.cfg, g, skip));
    StartedIsUseful(v);
    if !Has(v.schema, g.given, Cn) {
      PassedGroupIsNamed(v, g);
    }
    if TypesIn(v.schema, GroupDnOf(v.cfg.groupsDn, g.name)) == {Cn} {
      GroupOnlyForWantOfARule(v.schema, v.govern, v.tree.value, v.cfg, g, skip);
    }
  }

  /** Why a person is withheld: what the content rule or a declared class requires and
      neither a source nor the server still gives, a value, a name their DN does not parse
      to or that is precluded, no place, the size. */
  lemma WhyAPersonIsWithheld(v: Service, p: Profile)
    requires People.World(v.schema, v.cfg, v.validate) && ReadsDns(v.schema, v.cfg) && Started(v)
    ensures var o := PersonOutcome(v, p);
            match o.invalid
            case None => true
            case Some(NotPlaced) => PersonHasNoPlace(v, p)
            case Some(TooLarge(n)) => n == |DnOf(v.cfg.peopleDn, p.name)| + Bytes(o.value.attrs) && n > v.maxBytes
            case Some(Problems(ps)) => ps != [] && forall q :: q in ps ==> Withheld.CannotMend(v.schema, v.cfg, p, q)
  {
    NoneToMend(v, p, PersonOutcome(v, p).value);
    if PersonOutcome(v, p).invalid == Some(NotPlaced) {
      WhyAPersonIsNotPlaced(v, p);
    }
  }

  lemma NoneToMendInGroups(v: Service, g: Group, e: Entry)
    requires People.World(v.schema, v.cfg, v.validate) && e == Groups.PublishedGroup(v.schema, v.cfg, g, v.validate)
    ensures forall q :: q in v.validate(e) ==> Groups.CannotMendGroup(v.schema, v.cfg, g, q)
  {
    forall q | q in v.validate(e)
      ensures Groups.CannotMendGroup(v.schema, v.cfg, g, q)
    {
      assert IsProblem(v.schema, e, q);
      Groups.GroupStaysPublished(v.schema, v.cfg, g, v.validate, q);
    }
  }

  lemma WhyAGroupIsWithheld(v: Service, g: Group)
    requires People.World(v.schema, v.cfg, v.validate) && ReadsDns(v.schema, v.cfg) && Started(v)
    ensures var o := GroupOutcome(v, g);
            match o.invalid
            case None => true
            case Some(NotPlaced) => GroupHasNoPlace(v, g)
            case Some(TooLarge(n)) => n == |GroupDnOf(v.cfg.groupsDn, g.name)| + Bytes(o.value.attrs) && n > v.maxBytes
            case Some(Problems(ps)) => ps != [] && forall q :: q in ps ==> Groups.CannotMendGroup(v.schema, v.cfg, g, q)
  {
    NoneToMendInGroups(v, g, GroupOutcome(v, g).value);
    if GroupOutcome(v, g).invalid == Some(NotPlaced) {
      WhyAGroupIsNotPlaced(v, g);
    }
  }
}
