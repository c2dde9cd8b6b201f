/** A schema to give instances of: the classes the server derives, three declared classes
    one above the other, one that requires a key, and a parser of DNs, without escapes, that
    reads nothing from a text that is none. The content rules are the caller's. */
module Samples {
  import opened Wrappers
  import opened Text
  import opened Schemas
  import opened Names
  import opened Rdns
  import opened Entries
  import opened People

  const KEYED := Site("keyed")
  const LOW := Site("low")
  const MID := Site("mid")
  const HIGH := Site("high")

  function Sups(c: Class): seq<Class> {
    match c
    case Top => []
    case OrganizationalPerson => [Person]
    case InetOrgPerson => [OrganizationalPerson]
    case Site("low") => [MID]
    case Site("mid") => [HIGH]
    case _ => [Top]
  }

  function Rank(c: Class): nat {
    match c
    case Top => 0
    case OrganizationalPerson => 2
    case InetOrgPerson => 3
    case Site("low") => 3
    case Site("mid") => 2
    case _ => 1
  }

  function KindOf(c: Class): Kind {
    match c
    case Top => Abstract
    case PosixAccount => Auxiliary
    case LdapPublicKey => Auxiliary
    case SambaSamAccount => Auxiliary
    case UidObject => Auxiliary
    case Site(_) => Auxiliary
    case _ => Structural
  }

  function Must(c: Class): set<Type> {
    match c
    case Top => {ObjectClass}
    case Account => {ObjectClass, Uid}
    case Person => {ObjectClass, Sn, Cn}
    case OrganizationalPerson => {ObjectClass, Sn, Cn}
    case InetOrgPerson => {ObjectClass, Sn, Cn}
    case PosixAccount => {ObjectClass, Cn, Uid, UidNumber, GidNumber, HomeDirectory}
    case LdapPublicKey => {ObjectClass}
    case SambaSamAccount => {ObjectClass, Uid, SambaSid}
    case UidObject => {ObjectClass, Uid}
    case PosixGroup => {ObjectClass, Cn, GidNumber}
    case GroupOfNames => {ObjectClass, Cn, Member}
    case OrganizationalRole => {ObjectClass, Cn}
    case Site("keyed") => {ObjectClass, SshPublicKey}
    case Site(_) => {ObjectClass}
  }

  function May(c: Class): set<Type> {
    match c
    case InetOrgPerson => {Uid, SiteType("mail")}
    case LdapPublicKey => {SshPublicKey}
    case SambaSamAccount => {SambaNtPassword}
    case PosixGroup => {MemberUid}
    case _ => {}
  }

  function Named(name: string): Option<Class> {
    match name
    case "top" => Some(Top)
    case "account" => Some(Account)
    case "person" => Some(Person)
    case "organizationalPerson" => Some(OrganizationalPerson)
    case "inetOrgPerson" => Some(InetOrgPerson)
    case "posixAccount" => Some(PosixAccount)
    case "ldapPublicKey" => Some(LdapPublicKey)
    case "sambaSamAccount" => Some(SambaSamAccount)
    case "uidObject" => Some(UidObject)
    case "posixGroup" => Some(PosixGroup)
    case "groupOfNames" => Some(GroupOfNames)
    case "organizationalRole" => Some(OrganizationalRole)
    case _ => Some(Site(name))
  }

  /** userid is another name of uid. */
  function TypeOf(d: Desc): Option<Type> {
    match d
    case Bare(t) => Some(t)
    case Written("userid") => Some(Uid)
    case Written(text) => Some(SiteType(text))
  }

  function DescOf(name: string): Desc {
    if name == "uid" then Bare(Uid) else if name == "cn" then Bare(Cn) else Written(name)
  }

  function PartOf(part: string): (Desc, string) {
    var kv := Cut(part, '=');
    if kv.None? then (Written(part), "") else (DescOf(kv.value.0), kv.value.1)
  }

  function PartsOf(parts: seq<string>): seq<(Desc, string)> {
    seq(|parts|, i requires 0 <= i < |parts| => PartOf(parts[i]))
  }

  /** Every part of an RDN is an attribute and a value. */
  predicate AreParts(parts: seq<string>) {
    forall part :: part in parts ==> '=' in part
  }

  predicate IsRdn(rdn: string) {
    AreParts(Split(rdn, '+'))
  }

  predicate AreRdns(rdns: seq<string>) {
    forall rdn :: rdn in rdns ==> IsRdn(rdn)
  }

  predicate IsDn(dn: string) {
    AreRdns(Split(dn, ','))
  }

  /** The parts of what is before the first comma, if the whole text is a DN. */
  function ReadRdn(dn: string): seq<(Desc, string)> {
    if IsDn(dn) then PartsOf(Split(Split(dn, ',')[0], '+')) else []
  }

  type Rules = Class -> Option<Rule>

  function Sample(rules: Rules): Schema {
    Schema(Sups, Rank, KindOf, Must, May, rules, Named, TypeOf,
           (t, u) => t == u, (d, values) => true, (t, a, b) => a == b, ReadRdn)
  }

  function Known(n: string): Option<Class> {
    if n == "keyed" then Some(KEYED) else if n == "mid" then Some(MID) else if n == "low" then Some(LOW) else None
  }

  function UnitDn(unit: string, base: string): string {
    "ou=" + unit + "," + base
  }

  const SITE := Config(Known, UnitDn("people", "dc=x"), UnitDn("groups", "dc=x"))

  // ----- it is a schema as built -----

  lemma SampleIsAcyclic(rules: Rules)
    ensures Acyclic(Sample(rules))
  {
  }

  lemma SampleInherits(c: Class, p: Class)
    requires p in Sups(c)
    ensures Must(p) <= Must(c) && May(p) <= Must(c) + May(c) && (KindOf(c) != Structural ==> KindOf(p) != Structural)
  {
  }

  /** No rule says NOT of what one of its classes requires. */
  ghost predicate RulesOK(rules: Rules) {
    forall c :: rules(c).Some? ==> RuleOK(Sample(rules), c, rules(c).value)
  }

  lemma SampleIsBuilt(rules: Rules)
    requires RulesOK(rules)
    ensures Built(Sample(rules))
  {
    SampleIsAcyclic(rules);
    forall c, p | p in Sample(rules).sups(c)
      ensures Must(p) <= Must(c) && May(p) <= Must(c) + May(c) && (KindOf(c) != Structural ==> KindOf(p) != Structural)
    {
      SampleInherits(c, p);
    }
  }

  lemma SamplePeople(rules: Rules)
    ensures StandardPeople(Sample(rules))
  {
  }

  lemma SampleGroups(rules: Rules)
    ensures StandardGroups(Sample(rules))
  {
  }

  lemma SampleNames(rules: Rules)
    ensures StandardNames(Sample(rules))
  {
    SampleStructuralNames(rules);
    SampleOtherNames(rules);
  }

  lemma SampleStructuralNames(rules: Rules)
    ensures StructuralNames(Sample(rules))
  {
  }

  lemma SampleOtherNames(rules: Rules)
    ensures OtherNames(Sample(rules))
  {
  }

  /** A validator of a schema. */
  ghost predicate Validates(s: Schema, validate: Entry -> seq<Problem>) {
    Acyclic(s) && Lists(s, validate)
  }

  lemma SampleWorld(rules: Rules, validate: Entry -> seq<Problem>)
    requires RulesOK(rules) && Validates(Sample(rules), validate)
    ensures World(Sample(rules), SITE, validate)
  {
    SampleIsBuilt(rules);
    SamplePeople(rules);
    SampleGroups(rules);
  }

  // ----- its parser is as relied on -----

  lemma {:induction false} SplitAfter(a: string, b: string, c: char)
    requires c !in a
    ensures Split(a + b, c) == [a + Split(b, c)[0]] + Split(b, c)[1..]
  {
    if a == "" {
      assert a + b == b && a + Split(b, c)[0] == Split(b, c)[0];
    } else {
      assert (a + b)[0] == a[0] && (a + b)[1..] == a[1..] + b && a == [a[0]] + a[1..];
      SplitAfter(a[1..], b, c);
      assert [a[0]] + (a[1..] + Split(b, c)[0]) == a + Split(b, c)[0];
    }
  }

  lemma {:induction false} SplitBoth(a: string, c: char, b: string)
    ensures Split(a + [c] + b, c) == Split(a, c) + Split(b, c)
  {
    var s := a + [c] + b;
    if a == "" {
      assert s[0] == c && s[1..] == b;
    } else {
      assert s[0] == a[0] && s[1..] == a[1..] + [c] + b;
      SplitBoth(a[1..], c, b);
    }
  }

  lemma PartsOfMore(part: string, rest: seq<string>)
    ensures PartsOf([part] + rest) == [PartOf(part)] + PartsOf(rest)
  {
  }

  /** The first RDN of a DN made with an attribute, a name and a container. */
  function FirstOf(name: string): string {
    Split(name, ',')[0]
  }

  lemma SplitDn(attr: string, name: string, base: string)
    requires ',' !in attr
    ensures Split(attr + "=" + name + "," + base, ',') ==
              [attr + "=" + FirstOf(name)] + (Split(name, ',')[1..] + Split(base, ','))
  {
    assert attr + "=" + name + "," + base == (attr + "=") + (name + [','] + base);
    SplitAfter(attr + "=", name + [','] + base, ',');
    SplitBoth(name, ',', base);
    assert (Split(name, ',') + Split(base, ','))[1..] == Split(name, ',')[1..] + Split(base, ',');
  }

  lemma RdnsOfMore(rdn: string, rest: seq<string>, more: seq<string>)
    ensures AreRdns([rdn] + (rest + more)) <==> IsRdn(rdn) && AreRdns(rest) && AreRdns(more)
  {
    RdnsOfBoth([rdn], rest + more);
    RdnsOfBoth(rest, more);
    assert rdn in [rdn];
  }

  /** It is a DN exactly where the container is one and the name left something that is. */
  lemma DnExactly(attr: string, name: string, base: string)
    requires ',' !in attr && '+' !in attr
    ensures IsDn(attr + "=" + name + "," + base) <==>
              IsDn(base) && AreRdns(Split(name, ',')[1..]) && AreParts(Split(FirstOf(name), '+')[1..])
  {
    var rest := Split(name, ',')[1..];
    SplitDn(attr, name, base);
    FirstParts(attr, FirstOf(name));
    RdnsOfMore(attr + "=" + FirstOf(name), rest, Split(base, ','));
  }

  lemma FirstParts(attr: string, first: string)
    requires '+' !in attr
    ensures Split(attr + "=" + first, '+') == [attr + "=" + Split(first, '+')[0]] + Split(first, '+')[1..]
    ensures AreParts(Split(attr + "=" + first, '+')) <==> AreParts(Split(first, '+')[1..])
  {
    SplitAfter(attr + "=", first, '+');
    var part, rest := attr + "=" + Split(first, '+')[0], Split(first, '+')[1..];
    assert part[|attr|] == '=';
    PartsOfBoth([part], rest);
  }

  lemma PartsOfBoth(a: seq<string>, b: seq<string>)
    ensures AreParts(a + b) <==> AreParts(a) && AreParts(b)
  {
    assert forall x :: x in a + b <==> x in a || x in b;
  }

  lemma RdnsOfBoth(a: seq<string>, b: seq<string>)
    ensures AreRdns(a + b) <==> AreRdns(a) && AreRdns(b)
  {
    assert forall x :: x in a + b <==> x in a || x in b;
  }

  lemma ReadsAttribute(attr: string, name: string, base: string)
    requires ',' !in attr && '+' !in attr && '=' !in attr
    ensures var rest := Split(FirstOf(name), '+');
            && (IsDn(attr + "=" + name + "," + base) ==>
                  ReadRdn(attr + "=" + name + "," + base) == [(DescOf(attr), rest[0])] + PartsOf(rest[1..]))
            && (IsDn(base) && AreRdns(Split(name, ',')[1..]) && AreParts(rest[1..]) <==>
                  IsDn(attr + "=" + name + "," + base))
  {
    var rest := Split(FirstOf(name), '+');
    SplitDn(attr, name, base);
    DnExactly(attr, name, base);
    FirstParts(attr, FirstOf(name));
    PartIs(attr, rest[0]);
    PartsOfMore(attr + "=" + rest[0], rest[1..]);
  }

  lemma PartIs(attr: string, value: string)
    requires '=' !in attr
    ensures PartOf(attr + "=" + value) == (DescOf(attr), value)
  {
    assert attr + "=" + value == attr + ['='] + value;
    CutAt(attr, '=', value);
  }

  /** The first part of a split has nothing the text has not. */
  lemma {:induction false} SplitHeadIn(s: string, c: char)
    ensures Split(s, c)[0] in Split(s, c) && forall x :: x in Split(s, c)[0] ==> x in s
  {
    if s != "" {
      SplitHeadIn(s[1..], c);
    }
  }

  lemma OneField(name: string)
    requires ',' !in name && '+' !in name
    ensures Split(name, ',') == [name] && Split(FirstOf(name), '+') == [name]
  {
    SplitNowhere(name, ',');
    SplitNowhere(name, '+');
  }

  lemma SampleReadsName(s: Schema, attr: string, t: Type, name: string, base: string)
    requires s.rdnOf == ReadRdn && (forall u, a, b :: s.same(u, a, b) <==> a == b)
    requires ',' !in attr && '+' !in attr && '=' !in attr && DescOf(attr) == Bare(t)
    ensures ReadsName(s, base, attr + "=" + name + "," + base, t, name)
  {
    ReadsAttribute(attr, name, base);
    PartsAreClean(FirstOf(name), '+');
    PartsAreClean(name, ',');
    SplitHeadIn(FirstOf(name), '+');
    SplitHeadIn(name, ',');
    if ',' !in name && '+' !in name {
      OneField(name);
    }
  }

  /** Whatever the containers are, and whether or not they are DNs. */
  lemma SampleReadsDns(rules: Rules, cfg: Config)
    ensures ReadsDns(Sample(rules), cfg)
  {
    var s := Sample(rules);
    forall name
      ensures ReadsName(s, cfg.peopleDn, DnOf(cfg.peopleDn, name), Uid, name)
      ensures ReadsName(s, cfg.groupsDn, GroupDnOf(cfg.groupsDn, name), Cn, name)
    {
      assert DnOf(cfg.peopleDn, name) == "uid" + "=" + name + "," + cfg.peopleDn;
      assert GroupDnOf(cfg.groupsDn, name) == "cn" + "=" + name + "," + cfg.groupsDn;
      SampleReadsName(s, "uid", Uid, name, cfg.peopleDn);
      SampleReadsName(s, "cn", Cn, name, cfg.groupsDn);
    }
  }
}
