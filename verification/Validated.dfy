/** The drop round (entries.go): what `validated` leaves out of an entry, why once is
    enough, and the cached answer of Validate. */
module Validated {
  import opened Wrappers
  import opened Schemas

  /** The descriptions validated drops: what a source gave and no class allows or the
      schema does not know, and whatever the content rule precludes. */
  function DropSet(given: set<Desc>, ps: seq<Problem>): set<Desc> {
    (set p | p in ps && (p.NotAllowed? || p.UnknownAttribute?) && p.desc in given :: p.desc) +
    (set p | p in ps && p.Precluded? :: p.desc)
  }

  function Keep(attrs: seq<Attribute>, drop: set<Desc>): seq<Attribute> {
    if attrs == [] then []
    else
      var kept, a := Keep(attrs[..|attrs| - 1], drop), attrs[|attrs| - 1];
      if a.desc in drop then kept else kept + [a]
  }

  function Discard(attrs: seq<Attribute>, drop: set<Desc>): seq<Attribute> {
    if attrs == [] then []
    else
      var cut, a := Discard(attrs[..|attrs| - 1], drop), attrs[|attrs| - 1];
      if a.desc in drop then cut + [a] else cut
  }

  function Dropped(e: Entry, ps: seq<Problem>): Entry {
    e.(attrs := Keep(e.attrs, DropSet(e.given, ps)))
  }

  // ----- what dropping does to a list -----

  /** a is what is left of b when some elements are taken out, the rest in their order. */
  predicate Subsequence<T(==)>(a: seq<T>, b: seq<T>) {
    if a == [] then true
    else if b == [] then false
    else if a[|a| - 1] == b[|b| - 1] && Subsequence(a[..|a| - 1], b[..|b| - 1]) then true
    else Subsequence(a, b[..|b| - 1])
  }

  lemma {:induction false} KeepMeans(attrs: seq<Attribute>, drop: set<Desc>)
    ensures forall a :: a in Keep(attrs, drop) <==> a in attrs && a.desc !in drop
  {
    if attrs != [] {
      var front, a := attrs[..|attrs| - 1], attrs[|attrs| - 1];
      KeepMeans(front, drop);
      assert attrs == front + [a];
    }
  }

  /** The kept and the dropped are a partition of the list. */
  lemma {:induction false} KeepAndDiscardPartition(attrs: seq<Attribute>, drop: set<Desc>)
    ensures multiset(Keep(attrs, drop)) + multiset(Discard(attrs, drop)) == multiset(attrs)
    ensures forall a :: a in Discard(attrs, drop) ==> a.desc in drop
  {
    if attrs != [] {
      var front, a := attrs[..|attrs| - 1], attrs[|attrs| - 1];
      KeepAndDiscardPartition(front, drop);
      assert attrs == front + [a];
    }
  }

  /** ... each in the order the list had. */
  lemma {:induction false} KeepAndDiscardInOrder(attrs: seq<Attribute>, drop: set<Desc>)
    ensures Subsequence(Keep(attrs, drop), attrs) && Subsequence(Discard(attrs, drop), attrs)
  {
    if attrs != [] {
      var front, a := attrs[..|attrs| - 1], attrs[|attrs| - 1];
      KeepAndDiscardInOrder(front, drop);
      assert (Keep(front, drop) + [a])[..|Keep(front, drop)|] == Keep(front, drop);
      assert (Discard(front, drop) + [a])[..|Discard(front, drop)|] == Discard(front, drop);
    }
  }

  /** One attribute of a type is enough, and dropping others leaves it. */
  lemma HasKept(s: Schema, attrs: seq<Attribute>, drop: set<Desc>, t: Type)
    requires forall a :: a in attrs && s.typeOf(a.desc) == Some(t) ==> a.desc !in drop
    ensures Has(s, Keep(attrs, drop), t) <==> Has(s, attrs, t)
  {
    KeepMeans(attrs, drop);
  }

  // ----- an entry as the pipeline shapes it -----

  /** Every superclass is listed, there is one structural chain, the auxiliary classes
      are those the content rule lists, NOT spares every MUST, and what the server adds
      itself is allowed. */
  ghost predicate Shaped(s: Schema, e: Entry)
    requires Acyclic(s)
  {
    && (forall c, p :: c in e.classes && p in s.sups(c) && p != Top ==> p in e.classes)
    && StructuralOf(s, e.classes).Some?
    && (forall c, d :: c in e.classes && d in e.classes && s.kind(c) == Structural && s.kind(d) == Structural ==>
          c in Ancestors(s, d) || d in Ancestors(s, c))
    && (forall c :: c in e.classes && s.kind(c) == Auxiliary && RuleOf(s, e).Some? ==> c in RuleOf(s, e).value.aux)
    && (RuleOf(s, e).Some? ==> Spares(s, e, RuleOf(s, e).value))
    && (forall a :: a in e.attrs && a.desc !in e.given ==>
          s.typeOf(a.desc).Some? && Allowed(s, e, s.typeOf(a.desc).value))
  }

  ghost predicate Spares(s: Schema, e: Entry, r: Rule) {
    r.not !! r.must && forall c :: c in e.classes ==> r.not !! s.must(c)
  }

  /** Something the entry's classes or its content rule require. */
  ghost predicate Required(s: Schema, e: Entry, t: Type)
    requires Acyclic(s)
  {
    (exists c :: c in e.classes && t in s.must(c)) || (RuleOf(s, e).Some? && t in RuleOf(s, e).value.must)
  }

  ghost predicate ListsFor(s: Schema, e: Entry, ps: seq<Problem>)
    requires Acyclic(s)
  {
    forall p :: p in ps <==> IsProblem(s, e, p)
  }

  lemma RequiredIsAllowed(s: Schema, e: Entry, t: Type)
    requires Built(s) && Required(s, e, t)
    ensures Allowed(s, e, t)
  {
    assert s.isA(t, t);
    if c :| c in e.classes && t in s.must(c) {
      assert t in s.must(c) + s.may(c);
    } else {
      assert t in RuleOf(s, e).value.must + RuleOf(s, e).value.may;
    }
  }

  predicate About(p: Problem, d: Desc) {
    (p.NotAllowed? || p.UnknownAttribute? || p.Precluded?) && p.desc == d
  }

  /** Nothing is said against an attribute a MUST asks for. */
  lemma RequiredIsSpared(s: Schema, e: Entry, ps: seq<Problem>, t: Type, a: Attribute)
    requires Built(s) && Shaped(s, e) && ListsFor(s, e, ps) && Required(s, e, t)
    requires s.typeOf(a.desc) == Some(t)
    ensures a.desc !in DropSet(e.given, ps)
  {
    RequiredIsAllowed(s, e, t);
    forall p | p in ps
      ensures !About(p, a.desc)
    {
    }
  }

  /** Dropping never takes an attribute a MUST asks for. */
  lemma DroppingSparesMust(s: Schema, e: Entry, ps: seq<Problem>, t: Type)
    requires Built(s) && Shaped(s, e) && ListsFor(s, e, ps) && Required(s, e, t)
    ensures Has(s, Dropped(e, ps).attrs, t) <==> Has(s, e.attrs, t)
  {
    forall a | a in e.attrs && s.typeOf(a.desc) == Some(t)
      ensures a.desc !in DropSet(e.given, ps)
    {
      RequiredIsSpared(s, e, ps, t, a);
    }
    HasKept(s, e.attrs, DropSet(e.given, ps), t);
  }

  /** ... so what a class misses after the drop round, it missed before. */
  lemma DroppedMust(s: Schema, e: Entry, ps: seq<Problem>, c: Class, t: Type)
    requires Built(s) && Shaped(s, e) && ListsFor(s, e, ps) && c in e.classes && t in s.must(c)
    ensures IsProblem(s, Dropped(e, ps), MissingRequired(t, ByClass(c))) <==> !Has(s, e.attrs, t)
  {
    DroppingSparesMust(s, e, ps, t);
  }

  /** ... and so with the content rule. */
  lemma DroppedRuleMust(s: Schema, e: Entry, ps: seq<Problem>, rule: string, t: Type)
    requires Built(s) && Shaped(s, e) && ListsFor(s, e, ps)
    ensures IsProblem(s, Dropped(e, ps), MissingRequired(t, ByRule(rule))) <==>
              && RuleOf(s, e).Some? && RuleOf(s, e).value.name == rule && t in RuleOf(s, e).value.must
              && !Has(s, e.attrs, t)
  {
    RuleUnmoved(s, e, Dropped(e, ps).attrs);
    if RuleOf(s, e).Some? && t in RuleOf(s, e).value.must {
      DroppingSparesMust(s, e, ps, t);
    }
  }

  /** What Validate says against an attribute is acted on. */
  lemma ActedOn(s: Schema, e: Entry, ps: seq<Problem>, p: Problem)
    requires Built(s) && Shaped(s, e) && ListsFor(s, e, ps) && IsProblem(s, e, p)
    requires p.NotAllowed? || p.UnknownAttribute? || p.Precluded?
    ensures p.desc in DropSet(e.given, ps)
  {
    assert p in ps;
    if !p.Precluded? {
      OwnIsAllowed(s, e, p);
    }
  }

  lemma OwnIsAllowed(s: Schema, e: Entry, p: Problem)
    requires Acyclic(s) && Shaped(s, e) && IsProblem(s, e, p) && (p.NotAllowed? || p.UnknownAttribute?)
    ensures p.desc in e.given
  {
    var a :| a in e.attrs && a.desc == p.desc;
  }

  /** What remains to complain of after the drop round. */
  ghost predicate Remains(s: Schema, e: Entry, p: Problem)
    requires Acyclic(s)
  {
    IsProblem(s, e, p) && (p.MissingRequired? || p.BadValue? || p.RDNNotPresent?)
  }

  lemma RuleUnmoved(s: Schema, e: Entry, attrs: seq<Attribute>)
    requires Acyclic(s)
    ensures RuleOf(s, e.(attrs := attrs)) == RuleOf(s, e)
    ensures forall t :: Allowed(s, e.(attrs := attrs), t) <==> Allowed(s, e, t)
  {
    var f := e.(attrs := attrs);
    assert f.classes == e.classes && RuleOf(s, f) == RuleOf(s, e);
    forall t
      ensures Allowed(s, f, t) <==> Allowed(s, e, t)
    {
      if c, u :| c in e.classes && u in s.must(c) + s.may(c) && s.isA(t, u) {
        assert c in f.classes;
      }
      if c, u :| c in f.classes && u in s.must(c) + s.may(c) && s.isA(t, u) {
        assert c in e.classes;
      }
    }
  }

  /** One drop round is a fixpoint: nothing is left that a second round would drop, and
      what is left to complain of is a missing MUST, a value, or the RDN. */
  lemma OneRoundIsEnough(s: Schema, e: Entry, ps: seq<Problem>, p: Problem)
    requires Built(s) && Shaped(s, e) && ListsFor(s, e, ps) && IsProblem(s, Dropped(e, ps), p)
    ensures Remains(s, Dropped(e, ps), p)
  {
    var drop, f := DropSet(e.given, ps), Dropped(e, ps);
    KeepMeans(e.attrs, drop);
    RuleUnmoved(s, e, f.attrs);
    assert f.classes == e.classes && f.given == e.given;
    if p.NotAllowed? || p.UnknownAttribute? || p.Precluded? {
      StillThere(s, e, ps, p.desc);
      ActedOn(s, e, ps, p);
    }
  }

  lemma StillThere(s: Schema, e: Entry, ps: seq<Problem>, d: Desc)
    requires Carries(Dropped(e, ps).attrs, d)
    ensures Carries(e.attrs, d) && d !in DropSet(e.given, ps)
  {
    KeepMeans(e.attrs, DropSet(e.given, ps));
    var a :| a in Dropped(e, ps).attrs && a.desc == d;
    assert a in e.attrs;
  }

  /** Asked again, validated drops nothing. */
  lemma SecondRoundDropsNothing(s: Schema, e: Entry, ps: seq<Problem>, qs: seq<Problem>)
    requires Built(s) && Shaped(s, e) && ListsFor(s, e, ps) && ListsFor(s, Dropped(e, ps), qs)
    ensures DropSet(e.given, qs) == {} && Dropped(Dropped(e, ps), qs) == Dropped(e, ps)
  {
    forall p | p in qs
      ensures !p.NotAllowed? && !p.UnknownAttribute? && !p.Precluded?
    {
      OneRoundIsEnough(s, e, ps, p);
    }
    KeepAll(Dropped(e, ps).attrs);
  }

  lemma {:induction false} KeepAll(attrs: seq<Attribute>)
    ensures Keep(attrs, {}) == attrs
  {
    if attrs != [] {
      KeepAll(attrs[..|attrs| - 1]);
      assert attrs == attrs[..|attrs| - 1] + [attrs[|attrs| - 1]];
    }
  }

  // ----- the entry as the server holds it -----

  /** Why an entry is withheld. */
  datatype Invalid = Problems(ps: seq<Problem>) | NotPlaced | TooLarge(bytes: nat)

  class HeldEntry {
    const shape: Entry          // classes, given, dn and group: never changed
    const validator: Entry -> seq<Problem>
    var attrs: seq<Attribute>
    var dropped: seq<Attribute>
    var invalid: Option<Invalid>
    var checked: bool
    var answer: seq<Problem>    // checkedErr; no problems is nil

    function Value(): Entry
      reads this
    {
      shape.(attrs := attrs)
    }

    /** The cached answer is always Validate of the attributes as they are. */
    ghost predicate Valid()
      reads this
    {
      checked ==> answer == validator(Value())
    }

    constructor (e: Entry, validator: Entry -> seq<Problem>)
      ensures Valid() && Value() == e && shape == e && this.validator == validator
      ensures dropped == [] && invalid == None && !checked
    {
      shape, attrs := e, e.attrs;
      this.validator := validator;
      dropped, invalid, checked, answer := [], None, false, [];
    }

    /** validate: asked once for each state of the entry. */
    method Validate() returns (ps: seq<Problem>)
      requires Valid()
      modifies this`checked, this`answer
      ensures Valid() && checked && ps == validator(Value())
    {
      if !checked {
        answer := validator(Value());
        checked := true;
      }
      ps := answer;
    }

    /** validated: one question, one drop round, and the question again if the
        attributes changed. */
    method Validated()
      requires Valid() && dropped == []
      modifies this
      ensures Valid() && checked
      ensures Value() == Dropped(old(Value()), validator(old(Value())))
      ensures dropped == Discard(old(attrs), DropSet(shape.given, validator(old(Value()))))
      ensures invalid == if validator(Value()) == [] then None else Some(Problems(validator(Value())))
    {
      var ps := Validate();
      var drop := Drops(shape.given, ps);
      if drop != {} {
        var kept, cut := Divide(attrs, drop);
        dropped := dropped + cut;
        attrs := kept;
        checked := false;
        ps := Validate();
      } else {
        KeepAll(attrs);
        DiscardNothing(attrs);
      }
      invalid := if ps == [] then None else Some(Problems(ps));
    }

    /** placed, then sized: an entry no rule places, or too large to send, is withheld
        as one that fails the schema is. */
    method Hold(placedHere: bool, maxBytes: nat)
      modifies this`invalid
      ensures invalid ==
        if old(invalid).Some? then old(invalid)
        else if !placedHere then Some(NotPlaced)
        else if |shape.dn| + Bytes(attrs) > maxBytes then Some(TooLarge(|shape.dn| + Bytes(attrs)))
        else None
    {
      if invalid.None? && !placedHere {
        invalid := Some(NotPlaced);
      }
      if invalid.Some? {
        return;
      }
      var n := |shape.dn|;
      for i := 0 to |attrs|
        invariant n == |shape.dn| + Bytes(attrs[..i])
      {
        assert attrs[..i + 1][..i] == attrs[..i];
        n := n + BytesOf(attrs[i]);
      }
      assert attrs[..|attrs|] == attrs;
      if n > maxBytes {
        invalid := Some(TooLarge(n));
      }
    }
  }

  lemma {:induction false} DiscardNothing(attrs: seq<Attribute>)
    ensures Discard(attrs, {}) == []
  {
    if attrs != [] {
      DiscardNothing(attrs[..|attrs| - 1]);
    }
  }

  method Divide(attrs: seq<Attribute>, drop: set<Desc>) returns (kept: seq<Attribute>, cut: seq<Attribute>)
    ensures kept == Keep(attrs, drop) && cut == Discard(attrs, drop)
  {
    kept, cut := [], [];
    for i := 0 to |attrs|
      invariant kept == Keep(attrs[..i], drop) && cut == Discard(attrs[..i], drop)
    {
      assert attrs[..i + 1][..i] == attrs[..i];
      if attrs[i].desc in drop {
        cut := cut + [attrs[i]];
      } else {
        kept := kept + [attrs[i]];
      }
    }
    assert attrs[..|attrs|] == attrs;
  }

  method Drops(given: set<Desc>, ps: seq<Problem>) returns (drop: set<Desc>)
    ensures drop == DropSet(given, ps)
  {
    drop := {};
    for i := 0 to |ps|
      invariant drop == DropSet(given, ps[..i])
    {
      var p := ps[i];
      assert ps[..i + 1] == ps[..i] + [p];
      if ((p.NotAllowed? || p.UnknownAttribute?) && p.desc in given) || p.Precluded? {
        drop := drop + {p.desc};
      }
    }
    assert ps[..|ps|] == ps;
  }

  function Total(values: seq<string>): nat {
    if values == [] then 0 else Total(values[..|values| - 1]) + |values[|values| - 1]|
  }

  /** A description as it is sent. */
  function DescText(d: Desc): string {
    match d
    case Written(text) => text
    case Bare(SiteType(name)) => name
    case Bare(ObjectClass) => "objectClass"
    case Bare(Uid) => "uid"
    case Bare(Cn) => "cn"
    case Bare(Sn) => "sn"
    case Bare(UidNumber) => "uidNumber"
    case Bare(GidNumber) => "gidNumber"
    case Bare(HomeDirectory) => "homeDirectory"
    case Bare(SshPublicKey) => "sshPublicKey"
    case Bare(SambaSid) => "sambaSID"
    case Bare(SambaNtPassword) => "sambaNTPassword"
    case Bare(MemberUid) => "memberUid"
    case Bare(Member) => "member"
  }

  function BytesOf(a: Attribute): nat {
    |DescText(a.desc)| + Total(a.values)
  }

  function Bytes(attrs: seq<Attribute>): nat {
    if attrs == [] then 0 else Bytes(attrs[..|attrs| - 1]) + BytesOf(attrs[|attrs| - 1])
  }

  /** The texts one after another. */
  function Joined(texts: seq<string>): string {
    if texts == [] then "" else texts[0] + Joined(texts[1..])
  }

  /** Everything an entry's attributes say: each description, then its values. */
  function TextOf(attrs: seq<Attribute>): string {
    if attrs == [] then "" else DescText(attrs[0].desc) + Joined(attrs[0].values) + TextOf(attrs[1..])
  }

  lemma {:induction false} TotalIsJoined(values: seq<string>)
    ensures Total(values) == |Joined(values)|
  {
    if values != [] {
      TotalIsJoined(values[1..]);
      TotalMore(values[0], values[1..]);
      assert values == [values[0]] + values[1..];
    }
  }

  lemma {:induction false} TotalMore(v: string, values: seq<string>)
    ensures Total([v] + values) == |v| + Total(values)
  {
    if values == [] {
      assert [v] + values == [v] && [v][..0] == [];
    } else {
      TotalMore(v, values[..|values| - 1]);
      assert ([v] + values)[..|values|] == [v] + values[..|values| - 1];
    }
  }

  lemma {:induction false} BytesMore(a: Attribute, attrs: seq<Attribute>)
    ensures Bytes([a] + attrs) == BytesOf(a) + Bytes(attrs)
  {
    if attrs == [] {
      assert [a] + attrs == [a] && [a][..0] == [];
    } else {
      BytesMore(a, attrs[..|attrs| - 1]);
      assert ([a] + attrs)[..|attrs|] == [a] + attrs[..|attrs| - 1];
    }
  }

  /** What is counted against the size of a message is everything the attributes say. */
  lemma {:induction false} BytesAreTheText(attrs: seq<Attribute>)
    ensures Bytes(attrs) == |TextOf(attrs)|
  {
    if attrs != [] {
      BytesAreTheText(attrs[1..]);
      BytesMore(attrs[0], attrs[1..]);
      TotalIsJoined(attrs[0].values);
      assert attrs == [attrs[0]] + attrs[1..];
    }
  }
}
