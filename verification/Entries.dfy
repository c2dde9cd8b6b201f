/** The entries of people and groups (entries.go): their classes, which follow from what
    each has, and the attributes the server adds to what the sources gave. */
module Entries {
  import opened Wrappers
  import opened Schemas
  import opened Declared
  import opened Names

  /** What the configuration says of entries: the declared classes, checked at startup, by
      the name they were declared with, and the DNs people and groups are under. */
  datatype Config = Config(known: string -> Option<Class>, peopleDn: string, groupsDn: string)

  /** What is known of one person: nt is the NT key in hex where it may be published and
      there is one; sid is the SID to publish, or nothing. */
  datatype Profile = Profile(
    name: string, given: seq<Attribute>, keys: seq<string>, nt: Option<string>, sid: string, declared: seq<string>)

  datatype Group = Group(name: string, members: seq<string>, given: seq<Attribute>, declared: seq<string>)

  function ClassName(c: Class): string {
    match c
    case Top => "top"
    case Account => "account"
    case Person => "person"
    case OrganizationalPerson => "organizationalPerson"
    case InetOrgPerson => "inetOrgPerson"
    case PosixAccount => "posixAccount"
    case LdapPublicKey => "ldapPublicKey"
    case SambaSamAccount => "sambaSamAccount"
    case UidObject => "uidObject"
    case PosixGroup => "posixGroup"
    case GroupOfNames => "groupOfNames"
    case OrganizationalRole => "organizationalRole"
    case Site(name) => name
  }

  function ClassNames(cs: seq<Class>): seq<string> {
    seq(|cs|, i requires 0 <= i < |cs| => ClassName(cs[i]))
  }

  /** The values of objectClass, read as the names of classes, are top and the entry's classes,
      in their order. */
  lemma ObjectClassReads(s: Schema, classes: seq<Class>, i: nat)
    requires StandardNames(s) && i <= |classes|
    requires forall c :: c in classes && c.Site? ==> s.named(c.name) == Some(c)
    ensures s.named((["top"] + ClassNames(classes))[i]) == Some(([Top] + classes)[i])
  {
    forall c | c in [Top] + classes
      ensures s.named(ClassName(c)) == Some(c)
    {
      ClassNameReads(s, c);
    }
    ValueReads(s, classes, i);
  }

  lemma ValueReads(s: Schema, classes: seq<Class>, i: nat)
    requires i <= |classes| && forall c :: c in [Top] + classes ==> s.named(ClassName(c)) == Some(c)
    ensures s.named((["top"] + ClassNames(classes))[i]) == Some(([Top] + classes)[i])
  {
    assert ([Top] + classes)[i] in [Top] + classes;
    assert (["top"] + ClassNames(classes))[i] == ClassName(([Top] + classes)[i]);
  }

  lemma ClassNameReads(s: Schema, c: Class)
    requires StandardNames(s) && (c.Site? ==> s.named(c.name) == Some(c))
    ensures s.named(ClassName(c)) == Some(c)
  {
  }

  function Descs(attrs: seq<Attribute>): set<Desc> {
    set a | a in attrs :: a.desc
  }

  /** A site declares classes of its own that are auxiliary, and no others. */
  ghost predicate Declarable(s: Schema, cfg: Config) {
    forall n :: cfg.known(n).Some? ==> cfg.known(n).value.Site? && s.kind(cfg.known(n).value) == Auxiliary
  }

  /** allows: one of the classes has the type itself in its MUST or MAY. */
  predicate AllowsExactly(s: Schema, classes: seq<Class>, t: Type) {
    exists c :: c in classes && t in s.must(c) + s.may(c)
  }

  // ----- a person -----

  function PersonChain(s: Schema, p: Profile): seq<Class> {
    if Has(s, p.given, Sn) then [Person, OrganizationalPerson, InetOrgPerson] else [Account]
  }

  predicate IsPosix(s: Schema, p: Profile) {
    Has(s, p.given, UidNumber) && Has(s, p.given, GidNumber) && Has(s, p.given, HomeDirectory)
  }

  function KeysOf(p: Profile, skip: set<Class>): seq<string> {
    if LdapPublicKey in skip then [] else p.keys
  }

  predicate SambaDerived(p: Profile, skip: set<Class>) {
    p.nt.Some? && SambaSamAccount !in skip && p.sid != ""
  }

  function Plus(l: seq<Class>, b: bool, c: Class): seq<Class> {
    if b then l + [c] else l
  }

  /** The classes that follow from what somebody has, but for those left off. */
  function PersonBase(s: Schema, p: Profile, skip: set<Class>): seq<Class> {
    var posix := Plus(PersonChain(s, p), IsPosix(s, p) && PosixAccount !in skip, PosixAccount);
    var keyed := Plus(posix, KeysOf(p, skip) != [], LdapPublicKey);
    Plus(Plus(keyed, SambaDerived(p, skip), SambaSamAccount), UidObject !in skip, UidObject)
  }

  /** The declared classes somebody's entry carries. */
  function PersonAdded(s: Schema, cfg: Config, p: Profile, skip: set<Class>): seq<Class>
    requires Acyclic(s)
  {
    Carried(s, cfg.known, p.declared, skip)
  }

  function PersonClasses(s: Schema, cfg: Config, p: Profile, skip: set<Class>): seq<Class>
    requires Acyclic(s)
  {
    Closed(s, PersonAdded(s, cfg, p, skip), PersonBase(s, p, skip))
  }

  predicate GivesSid(p: Profile) {
    exists a :: a in p.given && a.desc == Bare(SambaSid) && a.values != []
  }

  function Own(b: bool, t: Type, values: seq<string>): seq<Attribute> {
    if b then [Attribute(Bare(t), values)] else []
  }

  function PersonHead(s: Schema, classes: seq<Class>, p: Profile): seq<Attribute> {
    [Attribute(Bare(ObjectClass), ["top"] + ClassNames(classes)), Attribute(Bare(Uid), [p.name])] +
    Own(AllowsExactly(s, classes, Cn), Cn, [p.name])
  }

  function PersonTail(p: Profile, skip: set<Class>): seq<Attribute> {
    Own(SambaDerived(p, skip) && !GivesSid(p), SambaSid, [p.sid]) +
    Own(SambaDerived(p, skip), SambaNtPassword, [if p.nt.Some? then p.nt.value else ""]) +
    Own(KeysOf(p, skip) != [], SshPublicKey, KeysOf(p, skip))
  }

  function PersonEntry(s: Schema, cfg: Config, p: Profile, skip: set<Class>): Entry
    requires Acyclic(s)
  {
    var classes := PersonClasses(s, cfg, p, skip);
    var attrs := PersonHead(s, classes, p) + p.given + PersonTail(p, skip);
    Entry(classes, attrs, Descs(p.given), DnOf(cfg.peopleDn, p.name), false)
  }

  /** personEntry as it runs: the classes first, which follow from what the person has. */
  method ChooseClasses(s: Schema, p: Profile, skip: set<Class>)
    returns (classes: seq<Class>, keys: seq<string>, nt: Option<string>)
    ensures classes == PersonBase(s, p, skip)
    ensures keys == KeysOf(p, skip) && nt == if SambaDerived(p, skip) then p.nt else None
  {
    classes := if Has(s, p.given, Sn) then [Person, OrganizationalPerson, InetOrgPerson] else [Account];
    if IsPosix(s, p) && PosixAccount !in skip {
      classes := classes + [PosixAccount];
    }
    keys := p.keys;
    if LdapPublicKey in skip {
      keys := [];
    }
    if keys != [] {
      classes := classes + [LdapPublicKey];
    }
    nt := None;
    if p.nt.Some? && SambaSamAccount !in skip && p.sid != "" {
      nt := p.nt;
      classes := classes + [SambaSamAccount];
    }
    if UidObject !in skip {
      classes := classes + [UidObject];
    }
  }

  /** ... then what is derived for them. */
  method ListDerived(p: Profile, skip: set<Class>, keys: seq<string>, nt: Option<string>)
    returns (tail: seq<Attribute>)
    requires keys == KeysOf(p, skip) && nt == if SambaDerived(p, skip) then p.nt else None
    ensures tail == PersonTail(p, skip)
  {
    tail := [];
    if nt.Some? {
      if !GivesSid(p) {
        tail := tail + [Attribute(Bare(SambaSid), [p.sid])];
      }
      tail := tail + [Attribute(Bare(SambaNtPassword), [nt.value])];
    }
    if keys != [] {
      tail := tail + [Attribute(Bare(SshPublicKey), keys)];
    }
  }

  method MakePersonEntry(s: Schema, cfg: Config, p: Profile, skip: set<Class>)
    returns (e: Entry, declared: seq<Class>)
    requires Acyclic(s)
    ensures e == PersonEntry(s, cfg, p, skip) && declared == PersonAdded(s, cfg, p, skip)
  {
    var classes, keys, nt := ChooseClasses(s, p, skip);
    classes, declared := WithDeclared(s, cfg.known, classes, p.declared, skip);
    var list := [Attribute(Bare(ObjectClass), ["top"] + ClassNames(classes)), Attribute(Bare(Uid), [p.name])];
    if AllowsExactly(s, classes, Cn) {
      list := list + [Attribute(Bare(Cn), [p.name])];
    }
    assert list == PersonHead(s, classes, p);
    list := list + p.given;
    var tail := ListDerived(p, skip, keys, nt);
    e := Entry(classes, list + tail, Descs(p.given), DnOf(cfg.peopleDn, p.name), false);
  }

  // ----- a group -----

  function GroupClass(s: Schema, g: Group): Class {
    if Has(s, g.given, GidNumber) then PosixGroup else if g.members != [] then GroupOfNames else OrganizationalRole
  }

  function GroupAdded(s: Schema, cfg: Config, g: Group, skip: set<Class>): seq<Class>
    requires Acyclic(s)
  {
    Carried(s, cfg.known, g.declared, skip)
  }

  function GroupHead(g: Group, classes: seq<Class>): seq<Attribute> {
    [Attribute(Bare(ObjectClass), ["top"] + ClassNames(classes)), Attribute(Bare(Cn), [g.name])]
  }

  function GroupTail(s: Schema, cfg: Config, g: Group): seq<Attribute> {
    Own(g.members != [] && GroupClass(s, g) == PosixGroup, MemberUid, g.members) +
    Own(g.members != [] && GroupClass(s, g) == GroupOfNames, Member, DnsOf(cfg, g.members))
  }

  function DnsOf(cfg: Config, members: seq<string>): seq<string> {
    if members == [] then []
    else DnsOf(cfg, members[..|members| - 1]) + [DnOf(cfg.peopleDn, members[|members| - 1])]
  }

  function GroupEntry(s: Schema, cfg: Config, g: Group, skip: set<Class>): Entry
    requires Acyclic(s)
  {
    var classes := Closed(s, GroupAdded(s, cfg, g, skip), [GroupClass(s, g)]);
    var attrs := GroupHead(g, classes) + g.given + GroupTail(s, cfg, g);
    Entry(classes, attrs, Descs(g.given), GroupDnOf(cfg.groupsDn, g.name), true)
  }

  /** groupEntryFrom as it runs, for a group the snapshot has. */
  method MakeGroupEntry(s: Schema, cfg: Config, g: Group, skip: set<Class>)
    returns (e: Entry, declared: seq<Class>)
    requires Acyclic(s)
    ensures e == GroupEntry(s, cfg, g, skip) && declared == GroupAdded(s, cfg, g, skip)
  {
    var class_ := OrganizationalRole;
    if Has(s, g.given, GidNumber) {
      class_ := PosixGroup;
    } else if g.members != [] {
      class_ := GroupOfNames;
    }
    var classes;
    classes, declared := WithDeclared(s, cfg.known, [class_], g.declared, skip);
    var list := [Attribute(Bare(ObjectClass), ["top"] + ClassNames(classes)), Attribute(Bare(Cn), [g.name])];
    var tail: seq<Attribute> := [];
    if g.members != [] {
      if class_ == PosixGroup {
        tail := [Attribute(Bare(MemberUid), g.members)];
      } else if class_ == GroupOfNames {
        var dns: seq<string> := [];
        for i := 0 to |g.members|
          invariant dns == DnsOf(cfg, g.members[..i])
        {
          assert g.members[..i + 1][..i] == g.members[..i];
          dns := dns + [DnOf(cfg.peopleDn, g.members[i])];
        }
        assert g.members[..|g.members|] == g.members;
        tail := [Attribute(Bare(Member), dns)];
      }
    }
    assert tail == GroupTail(s, cfg, g);
    e := Entry(classes, list + g.given + tail, Descs(g.given), GroupDnOf(cfg.groupsDn, g.name), true);
  }
}
