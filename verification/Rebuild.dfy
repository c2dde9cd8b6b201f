/** One rebuild is enough: what two builds of one entry, before and after leaving classes
    off, have to do with each other, for a person or a group alike. */
module Rebuild {
  import opened Wrappers
  import opened Schemas
  import opened Declared
  import opened LeftOff
  import opened Validated
  import opened Shapes

  /** A rebuild keeps the chain, and of the rest what is neither left off nor below a
      class left off. */
  ghost predicate Rebuilds(s: Schema, chain: seq<Class>, base1: seq<Class>, added1: seq<Class>, base2: seq<Class>,
                           added2: seq<Class>, skip: set<Class>)
    requires Acyclic(s)
  {
    && Laid(s, chain, base1, added1) && Laid(s, chain, base2, added2)
    && (forall c :: c in base2 && IsDerived(c) ==> c in base1 && c !in skip)
    && (forall c :: c in added2 <==> c in added1 && !Meets(Ancestors(s, c), skip))
  }

  lemma Complained(s: Schema, e: Entry, ps: seq<Problem>, r: Rule, c: Class)
    requires Acyclic(s) && ListsFor(s, e, ps) && RuleOf(s, e) == Some(r)
    requires c in e.classes && s.kind(c) == Auxiliary && c !in r.aux
    ensures c in NotInAux(ps)
  {
    assert IsProblem(s, e, AuxiliaryNotAllowed(c, r.name));
  }

  /** The classes the content rule refuses. */
  lemma NotInAuxIs(s: Schema, e: Entry, ps: seq<Problem>, c: Class)
    requires Acyclic(s) && ListsFor(s, e, ps)
    ensures c in NotInAux(ps) <==>
              c in e.classes && s.kind(c) == Auxiliary && RuleOf(s, e).Some? && c !in RuleOf(s, e).value.aux
  {
    if c in e.classes && s.kind(c) == Auxiliary && RuleOf(s, e).Some? && c !in RuleOf(s, e).value.aux {
      Complained(s, e, ps, RuleOf(s, e).value, c);
    }
    if c in NotInAux(ps) {
      var q :| q in ps && q.AuxiliaryNotAllowed? && q.c == c;
      assert IsProblem(s, e, q);
    }
  }

  /** What a rebuilt entry carries besides the chain, the first build carried too, and
      it is not left off. */
  lemma NothingNew(s: Schema, chain: seq<Class>, base1: seq<Class>, added1: seq<Class>, base2: seq<Class>,
                   added2: seq<Class>, skip: set<Class>, c: Class)
    requires Built(s) && Standard(s) && Rebuilds(s, chain, base1, added1, base2, added2, skip)
    requires c in Closed(s, added2, base2)
    ensures c in Closed(s, added1, base1) && (c in chain || c !in skip)
  {
    Whence(s, chain, base2, added2, c);
    InClosed(s, base1, added1, c);
    InClosed(s, base2, added2, c);
    if c in chain {
      assert chain <= base1;
    } else if !(c in base2 && IsDerived(c)) {
      assert c != Top by {
        if c in base2 {
          InBase(s, chain, base2, added2, c);
        }
      }
      var x := BroughtIn(s, added2, c);
    }
  }

  /** After the rebuild no auxiliary class is outside the content rule's AUX. */
  lemma RebuiltAuxAllowed(s: Schema, e: Entry, ps: seq<Problem>, chain: seq<Class>, base1: seq<Class>,
                          added1: seq<Class>, base2: seq<Class>, added2: seq<Class>, skip: set<Class>, r: Rule,
                          c: Class)
    requires Built(s) && Standard(s) && Rebuilds(s, chain, base1, added1, base2, added2, skip)
    requires e.classes == Closed(s, added1, base1) && ListsFor(s, e, ps) && NotInAux(ps) <= skip
    requires s.rule(Leaf(chain)) == Some(r) && c in Closed(s, added2, base2) && s.kind(c) == Auxiliary
    ensures c in r.aux
  {
    NothingNew(s, chain, base1, added1, base2, added2, skip, c);
    OneChain(s, chain, base1, added1);
    ChainMeans(s, chain);
    assert RuleOf(s, e) == Some(r) && c !in skip;
    if c !in r.aux {
      Complained(s, e, ps, r, c);
    }
  }

  lemma Missed(s: Schema, e: Entry, ps: seq<Problem>, declared: seq<Class>, c: Class, t: Type)
    requires Acyclic(s) && ListsFor(s, e, ps) && c in e.classes && c in declared && t in s.must(c)
    requires !Has(s, e.attrs, t)
    ensures c in MissesMust(s, declared, ps)
  {
    var p := MissingRequired(t, ByClass(c));
    assert IsProblem(s, e, p);
    assert p in ps && p.MissingRequired? && p.t in s.must(c);
  }

  /** A class that a declared one, still carried, brought in had every MUST already. */
  lemma BroughtInHadMust(s: Schema, e: Entry, ps: seq<Problem>, chain: seq<Class>, base1: seq<Class>,
                         added1: seq<Class>, base2: seq<Class>, added2: seq<Class>, skip: set<Class>, c: Class,
                         t: Type) returns (x: Class)
    requires Built(s) && Standard(s) && Rebuilds(s, chain, base1, added1, base2, added2, skip)
    requires e.classes == Closed(s, added1, base1) && ListsFor(s, e, ps) && MissesMust(s, added1, ps) <= skip
    requires c in AncestorsOf(s, added2) && t in s.must(c)
    ensures x in added2 && c in Ancestors(s, x) && t in s.must(x) && Has(s, e.attrs, t)
  {
    x := BroughtIn(s, added2, c);
    AddedIsThere(s, chain, base1, added1, x);
    Self(s, x);
    assert x !in skip;
    if !Has(s, e.attrs, t) {
      Missed(s, e, ps, added1, x, t);
    }
  }
}
