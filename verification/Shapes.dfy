/** The shape of an entry: a structural chain the server chose, auxiliary classes it
    derived, and the declared classes with everything above them. */
module Shapes {
  import opened Wrappers
  import opened Schemas
  import opened Declared
  import opened Validated

  /** The chains the server chooses among. */
  predicate IsChain(chain: seq<Class>) {
    || chain == [Account] || chain == [Person, OrganizationalPerson, InetOrgPerson]
    || chain == [PosixGroup] || chain == [GroupOfNames] || chain == [OrganizationalRole]
  }

  function Leaf(chain: seq<Class>): Class
    requires IsChain(chain)
  {
    chain[|chain| - 1]
  }

  predicate IsDerived(c: Class) {
    c == PosixAccount || c == LdapPublicKey || c == SambaSamAccount || c == UidObject
  }

  /** base is a chain, then derived classes, each once; added are declared ones. */
  ghost predicate Laid(s: Schema, chain: seq<Class>, base: seq<Class>, added: seq<Class>) {
    && IsChain(chain) && chain <= base && Distinct(base)
    && (forall i :: |chain| <= i < |base| ==> IsDerived(base[i]))
    && (forall c :: c in added ==> s.kind(c) == Auxiliary)
  }

  lemma InBase(s: Schema, chain: seq<Class>, base: seq<Class>, added: seq<Class>, c: Class)
    requires Laid(s, chain, base, added) && c in base
    ensures c in chain || IsDerived(c)
  {
    var i :| 0 <= i < |base| && base[i] == c;
    if i < |chain| {
      assert chain[i] == c;
    }
  }

  lemma ChainMeans(s: Schema, chain: seq<Class>)
    requires Built(s) && Standard(s) && IsChain(chain)
    ensures forall c :: c in chain ==> s.kind(c) == Structural && c in Ancestors(s, Leaf(chain))
    ensures forall c, d :: c in chain && d in chain ==> c in Ancestors(s, d) || d in Ancestors(s, c)
  {
    if |chain| == 1 {
      Self(s, chain[0]);
    } else {
      PersonChainMeans(s);
    }
  }

  lemma PersonChainMeans(s: Schema)
    requires Built(s) && Standard(s)
    ensures {Person, OrganizationalPerson, InetOrgPerson} <= Ancestors(s, InetOrgPerson)
    ensures {Person, OrganizationalPerson} <= Ancestors(s, OrganizationalPerson) && Person in Ancestors(s, Person)
  {
    PersonAncestors(s);
  }

  lemma ChainLeads(s: Schema, chain: seq<Class>)
    requires Built(s) && Standard(s) && IsChain(chain)
    ensures StructuralOf(s, chain) == Some(Leaf(chain))
  {
    if |chain| == 1 {
      assert chain[..0] == [];
    } else {
      PersonAncestors(s);
      assert chain[..2] == [Person, OrganizationalPerson] && chain[..2][..1] == [Person] && chain[..2][..1][..0] == [];
      assert StructuralOf(s, [Person]) == Some(Person);
      assert StructuralOf(s, [Person, OrganizationalPerson]) == Some(OrganizationalPerson);
    }
  }

  lemma PersonAncestors(s: Schema)
    requires Built(s) && Standard(s)
    ensures Ancestors(s, Person) == {Person, Top}
    ensures Ancestors(s, OrganizationalPerson) == {OrganizationalPerson, Person, Top}
    ensures Ancestors(s, InetOrgPerson) == {InetOrgPerson, OrganizationalPerson, Person, Top}
  {
    AncestorsUnfold(s, Top);
    AncestorsOfNone(s);
    AncestorsUnfold(s, Person);
    AncestorsOfOne(s, Top);
    AncestorsUnfold(s, OrganizationalPerson);
    AncestorsOfOne(s, Person);
    AncestorsUnfold(s, InetOrgPerson);
    AncestorsOfOne(s, OrganizationalPerson);
  }

  lemma AncestorsOfNone(s: Schema)
    requires Acyclic(s)
    ensures AncestorsOf(s, []) == {}
  {
  }

  /** What a declared class brings in is never structural. */
  lemma BroughtIn(s: Schema, added: seq<Class>, c: Class) returns (x: Class)
    requires Built(s) && (forall d :: d in added ==> s.kind(d) == Auxiliary) && c in AncestorsOf(s, added)
    ensures x in added && c in Ancestors(s, x) && s.must(c) <= s.must(x) && s.kind(c) != Structural
  {
    x :| x in added && c in Ancestors(s, x);
    MustInherited(s, x, c);
    NeverStructuralAbove(s, x, c);
  }

  lemma InClosed(s: Schema, base: seq<Class>, added: seq<Class>, c: Class)
    requires Acyclic(s)
    ensures c in Closed(s, added, base) <==> c in base || (c != Top && c in AncestorsOf(s, added))
  {
    ClosedMeans(s, added, base);
    assert c in Closed(s, added, base) <==> c in Elements(Closed(s, added, base));
  }

  /** Where a class of an entry comes from. */
  lemma Whence(s: Schema, chain: seq<Class>, base: seq<Class>, added: seq<Class>, c: Class)
    requires Built(s) && Laid(s, chain, base, added) && c in Closed(s, added, base)
    ensures c in chain || (c in base && IsDerived(c)) || (c in AncestorsOf(s, added) && s.kind(c) != Structural)
  {
    InClosed(s, base, added, c);
    if c in base {
      InBase(s, chain, base, added, c);
    } else {
      var _ := BroughtIn(s, added, c);
    }
  }

  /** ... and the chain stays what it is. */
  lemma OneChain(s: Schema, chain: seq<Class>, base: seq<Class>, added: seq<Class>)
    requires Built(s) && Standard(s) && Laid(s, chain, base, added)
    ensures StructuralOf(s, Closed(s, added, base)) == Some(Leaf(chain))
    ensures forall c :: c in Closed(s, added, base) && s.kind(c) == Structural ==> c in chain
  {
    var w := Closed(s, added, base);
    ChainLeads(s, chain);
    forall c | c in w && s.kind(c) == Structural
      ensures c in chain
    {
      Whence(s, chain, base, added, c);
    }
    ClosedMeans(s, added, base);
    var rest := w[|chain|..];
    assert chain <= w && w == chain + rest;
    forall c | c in rest
      ensures s.kind(c) != Structural
    {
      var i :| 0 <= i < |rest| && rest[i] == c;
      assert w[i + |chain|] == c && Distinct(w);
      assert c !in chain;
    }
    StructuralOfExtended(s, chain, rest);
  }

  lemma BaseListed(s: Schema, chain: seq<Class>, base: seq<Class>, added: seq<Class>, c: Class, p: Class)
    requires Built(s) && Standard(s) && Laid(s, chain, base, added)
    requires c in base && p in s.sups(c) && p != Top
    ensures p in base
  {
    InBase(s, chain, base, added, c);
    if c in chain {
      ChainListed(s, chain, c, p);
    } else {
      DerivedMeans(s, c);
    }
  }

  lemma DerivedMeans(s: Schema, c: Class)
    requires Standard(s) && IsDerived(c)
    ensures s.sups(c) == [Top] && s.kind(c) == Auxiliary
  {
  }

  lemma ChainListed(s: Schema, chain: seq<Class>, c: Class, p: Class)
    requires Standard(s) && IsChain(chain) && c in chain && p in s.sups(c) && p != Top
    ensures p in chain
  {
  }

  lemma SuperclassesListed(s: Schema, chain: seq<Class>, base: seq<Class>, added: seq<Class>, c: Class, p: Class)
    requires Built(s) && Standard(s) && Laid(s, chain, base, added)
    requires c in Closed(s, added, base) && p in s.sups(c) && p != Top
    ensures p in Closed(s, added, base)
  {
    InClosed(s, base, added, c);
    InClosed(s, base, added, p);
    if c in base {
      BaseListed(s, chain, base, added, c, p);
    } else {
      var x := BroughtIn(s, added, c);
      AncestorsClosed(s, x, c, p);
    }
  }

  /** Everything an entry's classes require, its content rule spares. */
  lemma RuleSpares(s: Schema, chain: seq<Class>, base: seq<Class>, added: seq<Class>, r: Rule, c: Class)
    requires Built(s) && Standard(s) && Laid(s, chain, base, added) && s.rule(Leaf(chain)) == Some(r)
    requires forall a :: a in Closed(s, added, base) && s.kind(a) == Auxiliary ==> a in r.aux
    requires c in Closed(s, added, base)
    ensures r.not !! s.must(c)
  {
    assert RuleOK(s, Leaf(chain), r);
    Whence(s, chain, base, added, c);
    if c in chain {
      ChainMeans(s, chain);
      MustInherited(s, Leaf(chain), c);
    } else if c in base && IsDerived(c) {
      assert c in r.aux;
    } else {
      var x := BroughtIn(s, added, c);
      AddedIsThere(s, chain, base, added, x);
      assert x in r.aux;
    }
  }

  lemma AddedIsThere(s: Schema, chain: seq<Class>, base: seq<Class>, added: seq<Class>, x: Class)
    requires Built(s) && Standard(s) && Laid(s, chain, base, added) && x in added
    ensures x in Closed(s, added, base)
  {
    InClosed(s, base, added, x);
    Self(s, x);
    assert s.kind(Top) == Abstract;
  }

  /** An entry laid out so is shaped as the drop round needs it, once every auxiliary
      class is one the content rule lists and the server's own attributes are allowed. */
  lemma LaidIsShaped(s: Schema, e: Entry, chain: seq<Class>, base: seq<Class>, added: seq<Class>)
    requires Built(s) && Standard(s) && Laid(s, chain, base, added) && e.classes == Closed(s, added, base)
    requires forall r, c :: s.rule(Leaf(chain)) == Some(r) && c in e.classes && s.kind(c) == Auxiliary ==> c in r.aux
    requires forall a :: a in e.attrs && a.desc !in e.given ==>
              s.typeOf(a.desc).Some? && Allowed(s, e, s.typeOf(a.desc).value)
    ensures Shaped(s, e) && RuleOf(s, e) == s.rule(Leaf(chain))
  {
    OneChain(s, chain, base, added);
    ChainMeans(s, chain);
    forall c, p | c in e.classes && p in s.sups(c) && p != Top
      ensures p in e.classes
    {
      SuperclassesListed(s, chain, base, added, c, p);
    }
    if RuleOf(s, e).Some? {
      var r := RuleOf(s, e).value;
      assert RuleOK(s, Leaf(chain), r);
      forall c | c in e.classes
        ensures r.not !! s.must(c)
      {
        RuleSpares(s, chain, base, added, r, c);
      }
    }
  }
}
