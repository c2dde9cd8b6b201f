/** What an entry is named by: the first RDN of its DN, as parsing gives it, held to its
    attributes. The DN is put together with nothing escaped (server.go, entries.go), so
    what parsing gives is not always the name. */
module Rdns {
  import opened Wrappers
  import opened Schemas
  import opened Validated
  import opened Entries
  import opened Names

  /** Text that stands for itself in an RDN (section 3 of RFC 4514). */
  predicate PlainText(name: string) {
    && name != "" && name[0] != ' ' && name[0] != '#' && name[|name| - 1] != ' '
    && forall c :: c in name ==> c !in ",+\"\\;<>\0"
  }

  /** An RDN with one part, which is the name. */
  predicate NamedBy(s: Schema, rdn: seq<(Desc, string)>, t: Type, name: string) {
    |rdn| == 1 && rdn[0].0 == Bare(t) && s.same(t, name, rdn[0].1)
  }

  /** The first part is of the attribute that was written; and where its value is the whole
      name, nothing is left of the name for a second part. */
  predicate StartsWith(s: Schema, rdn: seq<(Desc, string)>, t: Type, name: string) {
    rdn != [] ==> rdn[0].0 == Bare(t) && (s.same(t, name, rdn[0].1) ==> |rdn| == 1)
  }

  /** What is relied on of the parser of DNs for one DN the server makes: under a text that
      is no DN nothing is one; under one that is, plain text is read as it is; and any text
      is read as StartsWith says. */
  predicate ReadsName(s: Schema, container: string, dn: string, t: Type, name: string) {
    && (s.rdnOf(container) == [] ==> s.rdnOf(dn) == [])
    && (s.rdnOf(container) != [] && PlainText(name) ==> s.rdnOf(dn) == [(Bare(t), name)])
    && StartsWith(s, s.rdnOf(dn), t, name)
  }

  /** ... and so for every name, under the containers as they are configured. */
  ghost predicate ReadsDns(s: Schema, cfg: Config) {
    && (forall name :: ReadsName(s, cfg.peopleDn, DnOf(cfg.peopleDn, name), Uid, name))
    && (forall name :: ReadsName(s, cfg.groupsDn, GroupDnOf(cfg.groupsDn, name), Cn, name))
  }

  /** What the content rule says NOT of. */
  predicate Precludes(r: Option<Rule>, t: Type) {
    r.Some? && t in r.value.not
  }

  lemma NotAllowedGoes(s: Schema, e: Entry, ps: seq<Problem>, a: Attribute, t: Type)
    requires Built(s) && Shaped(s, e) && ListsFor(s, e, ps) && a in e.attrs && s.typeOf(a.desc) == Some(t)
    requires !Allowed(s, e, t) || Precludes(RuleOf(s, e), t)
    ensures a.desc in DropSet(e.given, ps)
  {
    var p := if Precludes(RuleOf(s, e), t) then Precluded(a.desc, RuleOf(s, e).value.name) else NotAllowed(a.desc);
    assert Carries(e.attrs, a.desc);
    assert IsProblem(s, e, p);
    ActedOn(s, e, ps, p);
  }

  lemma AllowedStays(s: Schema, e: Entry, ps: seq<Problem>, a: Attribute, t: Type)
    requires Built(s) && Shaped(s, e) && ListsFor(s, e, ps) && s.typeOf(a.desc) == Some(t)
    requires Allowed(s, e, t) && !Precludes(RuleOf(s, e), t)
    ensures a.desc !in DropSet(e.given, ps)
  {
    forall p | p in ps
      ensures !About(p, a.desc)
    {
      assert IsProblem(s, e, p);
    }
  }

  /** The drop round takes all attributes of a type or none: a value is held after it if
      and only if it was held before, and the type is allowed and not precluded. */
  lemma HeldAfter(s: Schema, e: Entry, ps: seq<Problem>, ava: (Desc, string))
    requires Built(s) && Shaped(s, e) && ListsFor(s, e, ps) && s.typeOf(ava.0).Some?
    ensures var t := s.typeOf(ava.0).value;
            Holds(s, Dropped(e, ps).attrs, ava) <==>
              Holds(s, e.attrs, ava) && Allowed(s, e, t) && !Precludes(RuleOf(s, e), t)
  {
    var t, drop := s.typeOf(ava.0).value, DropSet(e.given, ps);
    KeepMeans(e.attrs, drop);
    forall a | a in e.attrs && s.typeOf(a.desc) == Some(t)
      ensures a.desc !in drop <==> Allowed(s, e, t) && !Precludes(RuleOf(s, e), t)
    {
      if Allowed(s, e, t) && !Precludes(RuleOf(s, e), t) {
        AllowedStays(s, e, ps, a, t);
      } else {
        NotAllowedGoes(s, e, ps, a, t);
      }
    }
  }

  /** A part of the RDN the published entry does not have. */
  ghost predicate Unheld(s: Schema, e: Entry, ava: (Desc, string))
    requires Acyclic(s)
  {
    || s.typeOf(ava.0).None? || !Holds(s, e.attrs, ava)
    || !Allowed(s, e, s.typeOf(ava.0).value) || Precludes(RuleOf(s, e), s.typeOf(ava.0).value)
  }

  /** For any DN: the published entry lacks what it is named by exactly where the DN gives
      no RDN, or a part of it was never held, is not allowed or is precluded. */
  lemma RdnExactly(s: Schema, e: Entry, ps: seq<Problem>)
    requires Built(s) && Shaped(s, e) && ListsFor(s, e, ps)
    ensures IsProblem(s, Dropped(e, ps), RDNNotPresent) <==>
              s.rdnOf(e.dn) == [] || exists ava :: ava in s.rdnOf(e.dn) && Unheld(s, e, ava)
  {
    forall ava | ava in s.rdnOf(e.dn)
      ensures Holds(s, Dropped(e, ps).attrs, ava) <==> !Unheld(s, e, ava)
    {
      if s.typeOf(ava.0).Some? {
        HeldAfter(s, e, ps, ava);
      }
    }
  }

  lemma OnePart(s: Schema, e: Entry, ps: seq<Problem>, ava: (Desc, string))
    requires Built(s) && Shaped(s, e) && ListsFor(s, e, ps) && s.rdnOf(e.dn) == [ava]
    ensures IsProblem(s, Dropped(e, ps), RDNNotPresent) <==> Unheld(s, e, ava)
  {
    RdnExactly(s, e, ps);
    assert ava in s.rdnOf(e.dn);
  }

  /** Where the RDN is the name, and the entry has the attribute, only NOT takes it. */
  lemma NamedLosesOnlyToNot(s: Schema, e: Entry, ps: seq<Problem>, t: Type, a: Attribute, name: string)
    requires Built(s) && Shaped(s, e) && ListsFor(s, e, ps) && Allowed(s, e, t)
    requires a in e.attrs && a.desc == Bare(t) && name in a.values && NamedBy(s, s.rdnOf(e.dn), t, name)
    ensures IsProblem(s, Dropped(e, ps), RDNNotPresent) <==> Precludes(RuleOf(s, e), t)
  {
    var ava := s.rdnOf(e.dn)[0];
    OnePart(s, e, ps, ava);
    assert s.typeOf(a.desc) == s.typeOf(ava.0) == Some(t) && s.same(t, name, ava.1);
    assert Holds(s, e.attrs, ava);
  }

  /** Where it is not, and the only value of the attribute is the name, it is refused. */
  lemma MisnamedIsRefused(s: Schema, e: Entry, ps: seq<Problem>, t: Type, name: string)
    requires Built(s) && Shaped(s, e) && ListsFor(s, e, ps)
    requires forall a, v :: a in e.attrs && s.typeOf(a.desc) == Some(t) && v in a.values ==> v == name
    requires StartsWith(s, s.rdnOf(e.dn), t, name) && !NamedBy(s, s.rdnOf(e.dn), t, name)
    ensures IsProblem(s, Dropped(e, ps), RDNNotPresent)
  {
    RdnExactly(s, e, ps);
    if s.rdnOf(e.dn) != [] {
      var ava := s.rdnOf(e.dn)[0];
      assert ava in s.rdnOf(e.dn) && !s.same(t, name, ava.1) && s.typeOf(ava.0) == Some(t);
      assert Unheld(s, e, ava);
    }
  }
}
