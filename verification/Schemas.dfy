/** The schema entries are held to, and what Validate says of one.

    The schema is a graph of classes with MUST and MAY, kinds and DIT content rules
    (sections 2.4, 3.3 and 4.1.6 of RFC 4512). The validator itself is a library; what
    this server relies on is the set of problems below. */
module Schemas {
  import opened Wrappers

  /** The classes this server derives itself, by name, and a site's own. */
  datatype Class = Top | Account | Person | OrganizationalPerson | InetOrgPerson | PosixAccount | LdapPublicKey
                 | SambaSamAccount | UidObject | PosixGroup | GroupOfNames | OrganizationalRole | Site(name: string)

  datatype Type = ObjectClass | Uid | Cn | Sn | UidNumber | GidNumber | HomeDirectory | SshPublicKey | SambaSid
                | SambaNtPassword | MemberUid | Member | SiteType(name: string)

  /** An attribute description: a bare type, or anything else somebody wrote. */
  datatype Desc = Bare(t: Type) | Written(text: string)

  datatype Attribute = Attribute(desc: Desc, values: seq<string>)

  datatype Kind = Abstract | Structural | Auxiliary

  datatype Rule = Rule(name: string, aux: set<Class>, must: set<Type>, may: set<Type>, not: set<Type>)

  /** must and may include what a class inherits; rank is the witness that the class
      graph has no cycle. named is the class a name is of; same is a type's matching of two
      values. rdnOf is what parsing a DN gives of its first RDN, an attribute and a value for
      each part of it; nothing, for a text that is no DN. */
  datatype Schema = Schema(
    sups: Class -> seq<Class>,
    rank: Class -> nat,
    kind: Class -> Kind,
    must: Class -> set<Type>,
    may: Class -> set<Type>,
    rule: Class -> Option<Rule>,
    named: string -> Option<Class>,
    typeOf: Desc -> Option<Type>,
    isA: (Type, Type) -> bool,
    valuesOK: (Desc, seq<string>) -> bool,
    same: (Type, string, string) -> bool,
    rdnOf: string -> seq<(Desc, string)>)

  ghost predicate Acyclic(s: Schema) {
    forall c, p :: p in s.sups(c) ==> s.rank(p) < s.rank(c)
  }

  /** What building a schema makes sure of. */
  ghost predicate Built(s: Schema) {
    && Acyclic(s)
    && (forall c, p :: p in s.sups(c) ==> s.must(p) <= s.must(c) && s.may(p) <= s.must(c) + s.may(c))
    && (forall c, p :: p in s.sups(c) && s.kind(c) != Structural ==> s.kind(p) != Structural)
    && (forall c :: s.rule(c).Some? ==> RuleOK(s, c, s.rule(c).value))
    && (forall t :: s.isA(t, t))
    && (forall t :: s.typeOf(Bare(t)) == Some(t))
  }

  /** NOT names no type that a class of the rule, or the rule itself, requires. */
  ghost predicate RuleOK(s: Schema, c: Class, r: Rule) {
    r.not !! s.must(c) && r.not !! r.must && forall a :: a in r.aux ==> r.not !! s.must(a)
  }

  /** The classes this server derives, as RFC 2307, RFC 2798, RFC 4519, RFC 4524,
      openssh-lpk and samba.schema define them. */
  ghost predicate Standard(s: Schema) {
    StandardPeople(s) && StandardGroups(s)
  }

  ghost predicate StandardPeople(s: Schema) {
    && s.kind(Top) == Abstract && s.sups(Top) == []
    && s.kind(Account) == Structural && s.sups(Account) == [Top] && s.must(Account) == {ObjectClass, Uid}
    && s.kind(Person) == Structural && s.sups(Person) == [Top] && s.must(Person) == {ObjectClass, Sn, Cn}
    && s.kind(OrganizationalPerson) == Structural && s.sups(OrganizationalPerson) == [Person]
    && s.must(OrganizationalPerson) == {ObjectClass, Sn, Cn}
    && s.kind(InetOrgPerson) == Structural && s.sups(InetOrgPerson) == [OrganizationalPerson]
    && s.must(InetOrgPerson) == {ObjectClass, Sn, Cn} && Uid in s.may(InetOrgPerson)
    && s.kind(PosixAccount) == Auxiliary && s.sups(PosixAccount) == [Top]
    && s.must(PosixAccount) == {ObjectClass, Cn, Uid, UidNumber, GidNumber, HomeDirectory}
    && s.kind(LdapPublicKey) == Auxiliary && s.sups(LdapPublicKey) == [Top]
    && s.must(LdapPublicKey) == {ObjectClass} && SshPublicKey in s.may(LdapPublicKey)
    && s.kind(SambaSamAccount) == Auxiliary && s.sups(SambaSamAccount) == [Top]
    && s.must(SambaSamAccount) == {ObjectClass, Uid, SambaSid} && SambaNtPassword in s.may(SambaSamAccount)
    && s.kind(UidObject) == Auxiliary && s.sups(UidObject) == [Top] && s.must(UidObject) == {ObjectClass, Uid}
  }

  ghost predicate StandardGroups(s: Schema) {
    && s.kind(PosixGroup) == Structural && s.sups(PosixGroup) == [Top]
    && s.must(PosixGroup) == {ObjectClass, Cn, GidNumber} && MemberUid in s.may(PosixGroup)
    && s.kind(GroupOfNames) == Structural && s.sups(GroupOfNames) == [Top]
    && s.must(GroupOfNames) == {ObjectClass, Cn, Member}
    && s.kind(OrganizationalRole) == Structural && s.sups(OrganizationalRole) == [Top]
    && s.must(OrganizationalRole) == {ObjectClass, Cn}
  }

  /** ... and their names, in those documents. */
  ghost predicate StandardNames(s: Schema) {
    StructuralNames(s) && OtherNames(s)
  }

  ghost predicate StructuralNames(s: Schema) {
    && s.named("account") == Some(Account) && s.named("person") == Some(Person)
    && s.named("organizationalPerson") == Some(OrganizationalPerson)
    && s.named("inetOrgPerson") == Some(InetOrgPerson) && s.named("posixGroup") == Some(PosixGroup)
    && s.named("groupOfNames") == Some(GroupOfNames) && s.named("organizationalRole") == Some(OrganizationalRole)
  }

  ghost predicate OtherNames(s: Schema) {
    && s.named("top") == Some(Top) && s.named("posixAccount") == Some(PosixAccount)
    && s.named("ldapPublicKey") == Some(LdapPublicKey) && s.named("sambaSamAccount") == Some(SambaSamAccount)
    && s.named("uidObject") == Some(UidObject)
  }

  // ----- superclasses -----

  /** A class and its superclasses, at any depth. */
  function Ancestors(s: Schema, c: Class): set<Class>
    requires Acyclic(s)
    decreases s.rank(c)
  {
    {c} + set p, a | p in s.sups(c) && a in Ancestors(s, p) :: a
  }

  lemma Above(s: Schema, c: Class, a: Class) returns (d: Class)
    requires Acyclic(s) && a in Ancestors(s, c) && a != c
    ensures d in s.sups(c) && s.rank(d) < s.rank(c) && a in Ancestors(s, d)
  {
    d :| d in s.sups(c) && a in Ancestors(s, d);
  }

  lemma Below(s: Schema, c: Class, d: Class, a: Class)
    requires Acyclic(s) && d in s.sups(c) && a in Ancestors(s, d)
    ensures a in Ancestors(s, c)
  {
  }

  lemma Self(s: Schema, c: Class)
    requires Acyclic(s)
    ensures c in Ancestors(s, c)
  {
  }

  lemma {:induction false} AncestorsClosed(s: Schema, c: Class, a: Class, p: Class)
    requires Acyclic(s) && a in Ancestors(s, c) && p in s.sups(a)
    ensures p in Ancestors(s, c)
    decreases s.rank(c)
  {
    if a == c {
      Self(s, p);
      Below(s, c, p, p);
    } else {
      var d := Above(s, c, a);
      AncestorsClosed(s, d, a, p);
      Below(s, c, d, p);
    }
  }

  /** Ancestors is the least set that holds the class and every superclass of a class
      it holds (section 3.3 of RFC 4512). */
  lemma {:induction false} AncestorsLeast(s: Schema, c: Class, x: set<Class>)
    requires Acyclic(s) && c in x && forall a, p :: a in x && p in s.sups(a) ==> p in x
    ensures Ancestors(s, c) <= x
    decreases s.rank(c)
  {
    forall a | a in Ancestors(s, c)
      ensures a in x
    {
      if a != c {
        var d := Above(s, c, a);
        AncestorsLeast(s, d, x);
      }
    }
  }

  lemma {:induction false} AncestorsTransitive(s: Schema, c: Class, a: Class, b: Class)
    requires Acyclic(s) && a in Ancestors(s, c) && b in Ancestors(s, a)
    ensures b in Ancestors(s, c)
    decreases s.rank(c)
  {
    if a != c {
      var d := Above(s, c, a);
      AncestorsTransitive(s, d, a, b);
      Below(s, c, d, b);
    }
  }

  lemma {:induction false} MustInherited(s: Schema, c: Class, a: Class)
    requires Built(s) && a in Ancestors(s, c)
    ensures s.must(a) <= s.must(c)
    decreases s.rank(c)
  {
    if a != c {
      var d := Above(s, c, a);
      MustInherited(s, d, a);
    }
  }

  lemma {:induction false} NeverStructuralAbove(s: Schema, c: Class, a: Class)
    requires Built(s) && s.kind(c) != Structural && a in Ancestors(s, c)
    ensures s.kind(a) != Structural
    decreases s.rank(c)
  {
    if a != c {
      var d := Above(s, c, a);
      NeverStructuralAbove(s, d, a);
    }
  }

  /** structuralOf: the most subordinate structural class of a list. */
  function StructuralOf(s: Schema, shape: seq<Class>): Option<Class>
    requires Acyclic(s)
  {
    if shape == [] then None
    else
      var leaf, c := StructuralOf(s, shape[..|shape| - 1]), shape[|shape| - 1];
      if s.kind(c) == Structural && (leaf.None? || leaf.value in Ancestors(s, c)) then Some(c) else leaf
  }

  lemma {:induction false} StructuralOfExtended(s: Schema, a: seq<Class>, b: seq<Class>)
    requires Acyclic(s) && forall c :: c in b ==> s.kind(c) != Structural
    ensures StructuralOf(s, a + b) == StructuralOf(s, a)
  {
    if b == [] {
      assert a + b == a;
    } else {
      assert (a + b)[..|a + b| - 1] == a + b[..|b| - 1];
      StructuralOfExtended(s, a, b[..|b| - 1]);
    }
  }

  // ----- entries and their problems -----

  /** classes is the shape: every object class but top. given are the descriptions a
      source gave. */
  datatype Entry = Entry(classes: seq<Class>, attrs: seq<Attribute>, given: set<Desc>, dn: string, group: bool)

  datatype Requirer = ByClass(c: Class) | ByRule(name: string)

  datatype Problem =
    | MissingSuperclass(c: Class, sup: Class)
    | NoStructuralClass
    | TwoChains(c: Class, d: Class)
    | AuxiliaryNotAllowed(c: Class, rule: string)
    | MissingRequired(t: Type, by_: Requirer)
    | UnknownAttribute(desc: Desc)
    | NotAllowed(desc: Desc)
    | Precluded(desc: Desc, rule: string)
    | BadValue(desc: Desc)
    | RDNNotPresent

  predicate Has(s: Schema, attrs: seq<Attribute>, t: Type) {
    exists a :: a in attrs && s.typeOf(a.desc) == Some(t)
  }

  /** Some attribute of the type has the value, or one that matches it. */
  ghost predicate Holds(s: Schema, attrs: seq<Attribute>, ava: (Desc, string)) {
    s.typeOf(ava.0).Some? &&
    exists a, v ::
      a in attrs && s.typeOf(a.desc) == s.typeOf(ava.0) && v in a.values && s.same(s.typeOf(ava.0).value, v, ava.1)
  }

  function RuleOf(s: Schema, e: Entry): Option<Rule>
    requires Acyclic(s)
  {
    var st := StructuralOf(s, e.classes);
    if st.Some? then s.rule(st.value) else None
  }

  ghost predicate Allowed(s: Schema, e: Entry, t: Type)
    requires Acyclic(s)
  {
    || (exists c, u :: c in e.classes && u in s.must(c) + s.may(c) && s.isA(t, u))
    || (RuleOf(s, e).Some? && exists u :: u in RuleOf(s, e).value.must + RuleOf(s, e).value.may && s.isA(t, u))
  }

  predicate Carries(attrs: seq<Attribute>, desc: Desc) {
    exists a :: a in attrs && a.desc == desc
  }

  ghost predicate IsProblem(s: Schema, e: Entry, p: Problem)
    requires Acyclic(s)
  {
    match p
    case MissingSuperclass(c, sup) => c in e.classes && sup in s.sups(c) && sup != Top && sup !in e.classes
    case NoStructuralClass => StructuralOf(s, e.classes).None?
    case TwoChains(c, d) =>
      c in e.classes && d in e.classes && s.kind(c) == Structural && s.kind(d) == Structural &&
      c !in Ancestors(s, d) && d !in Ancestors(s, c)
    case AuxiliaryNotAllowed(c, rule) =>
      c in e.classes && s.kind(c) == Auxiliary && RuleOf(s, e).Some? && RuleOf(s, e).value.name == rule &&
      c !in RuleOf(s, e).value.aux
    case MissingRequired(t, ByClass(c)) => c in e.classes && t in s.must(c) && !Has(s, e.attrs, t)
    case MissingRequired(t, ByRule(rule)) =>
      RuleOf(s, e).Some? && RuleOf(s, e).value.name == rule && t in RuleOf(s, e).value.must && !Has(s, e.attrs, t)
    case UnknownAttribute(d) => Carries(e.attrs, d) && s.typeOf(d).None?
    case NotAllowed(d) => Carries(e.attrs, d) && s.typeOf(d).Some? && !Allowed(s, e, s.typeOf(d).value)
    case Precluded(d, rule) =>
      Carries(e.attrs, d) && s.typeOf(d).Some? && RuleOf(s, e).Some? && RuleOf(s, e).value.name == rule &&
      s.typeOf(d).value in RuleOf(s, e).value.not
    case BadValue(d) => exists a :: a in e.attrs && a.desc == d && !s.valuesOK(a.desc, a.values)
    case RDNNotPresent => s.rdnOf(e.dn) == [] || exists ava :: ava in s.rdnOf(e.dn) && !Holds(s, e.attrs, ava)
  }

  /** A validator lists exactly the problems of an entry, in whatever order. It is a
      function of the schema and the entry alone. */
  ghost predicate Lists(s: Schema, validate: Entry -> seq<Problem>)
    requires Acyclic(s)
  {
    forall e, p :: p in validate(e) <==> IsProblem(s, e, p)
  }
}
