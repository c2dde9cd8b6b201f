/** Declared object classes (declared.go): the closure under superclasses, and the
    classes an entry must be published without. */
module Declared {
  import opened Wrappers
  import opened Schemas

  // ----- withDeclared -----

  predicate Distinct<T(==)>(l: seq<T>) {
    forall i, j :: 0 <= i < j < |l| ==> l[i] != l[j]
  }

  function Elements<T>(l: seq<T>): set<T> {
    set x | x in l
  }

  /** The walk of withDeclared: the superclasses of c, then c, each unless it is there. */
  function Walk(s: Schema, c: Class, out: seq<Class>): seq<Class>
    requires Acyclic(s)
    decreases s.rank(c), 1, 0
  {
    var above := WalkAll(s, c, s.sups(c), out);
    if c == Top || c in above then above else above + [c]
  }

  function WalkAll(s: Schema, c: Class, cs: seq<Class>, out: seq<Class>): seq<Class>
    requires Acyclic(s) && forall p :: p in cs ==> p in s.sups(c)
    decreases s.rank(c), 0, |cs|
  {
    if cs == [] then out
    else Walk(s, cs[|cs| - 1], WalkAll(s, c, cs[..|cs| - 1], out))
  }

  /** w extends out by classes that are new, not top, and each after all its superclasses. */
  ghost predicate Extends(s: Schema, out: seq<Class>, w: seq<Class>)
    requires Acyclic(s)
  {
    && out <= w
    && (Distinct(out) ==> Distinct(w))
    && (forall i :: |out| <= i < |w| ==> w[i] != Top && Ancestors(s, w[i]) <= Elements(w[..i]) + {Top, w[i]})
  }

  lemma ExtendsTransitive(s: Schema, a: seq<Class>, b: seq<Class>, c: seq<Class>)
    requires Acyclic(s) && Extends(s, a, b) && Extends(s, b, c)
    ensures Extends(s, a, c)
  {
    forall i | |a| <= i < |c|
      ensures c[i] != Top && Ancestors(s, c[i]) <= Elements(c[..i]) + {Top, c[i]}
    {
      if i < |b| {
        assert c[..i] == b[..i];
      }
    }
  }

  ghost function AncestorsOf(s: Schema, cs: seq<Class>): set<Class>
    requires Acyclic(s)
  {
    set p, a | p in cs && a in Ancestors(s, p) :: a
  }

  lemma AncestorsUnfold(s: Schema, c: Class)
    requires Acyclic(s)
    ensures Ancestors(s, c) == {c} + AncestorsOf(s, s.sups(c))
  {
  }

  lemma AncestorsOfBoth(s: Schema, a: seq<Class>, b: seq<Class>)
    requires Acyclic(s)
    ensures AncestorsOf(s, a + b) == AncestorsOf(s, a) + AncestorsOf(s, b)
  {
  }

  lemma AncestorsOfOne(s: Schema, c: Class)
    requires Acyclic(s)
    ensures AncestorsOf(s, [c]) == Ancestors(s, c)
  {
  }

  /** The walk adds exactly c and its superclasses to what was there. */
  lemma {:induction false} WalkElements(s: Schema, c: Class, out: seq<Class>)
    requires Acyclic(s)
    ensures Elements(Walk(s, c, out)) == Elements(out) + (Ancestors(s, c) - {Top})
    decreases s.rank(c), 1, 0
  {
    var above := WalkAll(s, c, s.sups(c), out);
    WalkAllElements(s, c, s.sups(c), out);
    AncestorsUnfold(s, c);
    assert Elements(above + [c]) == Elements(above) + {c};
  }

  lemma {:induction false} WalkAllElements(s: Schema, c: Class, cs: seq<Class>, out: seq<Class>)
    requires Acyclic(s) && forall p :: p in cs ==> p in s.sups(c)
    ensures Elements(WalkAll(s, c, cs, out)) == Elements(out) + (AncestorsOf(s, cs) - {Top})
    decreases s.rank(c), 0, |cs|
  {
    if cs != [] {
      var front, p := cs[..|cs| - 1], cs[|cs| - 1];
      WalkAllElements(s, c, front, out);
      WalkElements(s, p, WalkAll(s, c, front, out));
      assert cs == front + [p];
      AncestorsOfBoth(s, front, [p]);
      AncestorsOfOne(s, p);
    }
  }

  /** ... in an order that has every superclass first. */
  lemma {:induction false} WalkExtends(s: Schema, c: Class, out: seq<Class>)
    requires Acyclic(s)
    ensures Extends(s, out, Walk(s, c, out))
    decreases s.rank(c), 1, 0
  {
    var above := WalkAll(s, c, s.sups(c), out);
    WalkAllExtends(s, c, s.sups(c), out);
    if !(c == Top || c in above) {
      WalkAllElements(s, c, s.sups(c), out);
      AncestorsUnfold(s, c);
      AppendExtends(s, above, c);
      ExtendsTransitive(s, out, above, above + [c]);
    }
  }

  lemma AppendExtends(s: Schema, above: seq<Class>, c: Class)
    requires Acyclic(s) && c != Top && c !in above && Ancestors(s, c) <= Elements(above) + {Top, c}
    ensures Extends(s, above, above + [c])
  {
    var w := above + [c];
    assert w[..|above|] == above;
  }

  lemma {:induction false} WalkAllExtends(s: Schema, c: Class, cs: seq<Class>, out: seq<Class>)
    requires Acyclic(s) && forall p :: p in cs ==> p in s.sups(c)
    ensures Extends(s, out, WalkAll(s, c, cs, out))
    decreases s.rank(c), 0, |cs|
  {
    if cs != [] {
      var front, p := cs[..|cs| - 1], cs[|cs| - 1];
      var mid := WalkAll(s, c, front, out);
      WalkAllExtends(s, c, front, out);
      WalkExtends(s, p, mid);
      ExtendsTransitive(s, out, mid, Walk(s, p, mid));
    }
  }

  /** A class, or one of its superclasses, is left off. */
  function Skipped(s: Schema, c: Class, skip: set<Class>): bool
    requires Acyclic(s)
  {
    c in skip || SkippedBy(s, c, skip).Some?
  }

  ghost predicate Meets(a: set<Class>, b: set<Class>) {
    exists c :: c in a && c in b
  }

  /** skippedBy: the first superclass, at any depth, that is left off. */
  function SkippedBy(s: Schema, c: Class, skip: set<Class>): Option<Class>
    requires Acyclic(s)
    decreases s.rank(c), 1, 0
  {
    SkippedAmong(s, c, s.sups(c), skip)
  }

  function SkippedAmong(s: Schema, c: Class, cs: seq<Class>, skip: set<Class>): Option<Class>
    requires Acyclic(s) && forall p :: p in cs ==> p in s.sups(c)
    decreases s.rank(c), 0, |cs|
  {
    if cs == [] then None
    else if cs[0] in skip then Some(cs[0])
    else
      var up := SkippedBy(s, cs[0], skip);
      if up.Some? then up else SkippedAmong(s, c, cs[1..], skip)
  }

  lemma {:induction false} SkippedAmongMeans(s: Schema, c: Class, cs: seq<Class>, skip: set<Class>)
    requires Acyclic(s) && forall p :: p in cs ==> p in s.sups(c)
    ensures SkippedAmong(s, c, cs, skip).Some? <==> Meets(AncestorsOf(s, cs), skip)
    ensures SkippedAmong(s, c, cs, skip).Some? ==>
              SkippedAmong(s, c, cs, skip).value in AncestorsOf(s, cs) && SkippedAmong(s, c, cs, skip).value in skip
    decreases s.rank(c), |cs|
  {
    if cs != [] {
      var p, rest := cs[0], cs[1..];
      SkippedAmongMeans(s, p, s.sups(p), skip);
      SkippedAmongMeans(s, c, rest, skip);
      SkippedCons(s, p, rest, skip);
      assert cs == [p] + rest;
    }
  }

  lemma SkippedCons(s: Schema, p: Class, rest: seq<Class>, skip: set<Class>)
    requires Acyclic(s)
    ensures Meets(AncestorsOf(s, [p] + rest), skip) <==>
              p in skip || Meets(AncestorsOf(s, s.sups(p)), skip) || Meets(AncestorsOf(s, rest), skip)
    ensures p in AncestorsOf(s, [p] + rest) && AncestorsOf(s, rest) <= AncestorsOf(s, [p] + rest)
    ensures AncestorsOf(s, s.sups(p)) <= AncestorsOf(s, [p] + rest)
  {
    AncestorsUnfold(s, p);
    AncestorsOfBoth(s, [p], rest);
    AncestorsOfOne(s, p);
    assert AncestorsOf(s, [p] + rest) == {p} + AncestorsOf(s, s.sups(p)) + AncestorsOf(s, rest);
  }

  lemma SkippedMeans(s: Schema, c: Class, skip: set<Class>)
    requires Acyclic(s)
    ensures Skipped(s, c, skip) <==> Meets(Ancestors(s, c), skip)
    ensures SkippedBy(s, c, skip).Some? ==>
              SkippedBy(s, c, skip).value in skip && SkippedBy(s, c, skip).value in Ancestors(s, c)
  {
    SkippedAmongMeans(s, c, s.sups(c), skip);
    AncestorsUnfold(s, c);
  }

  /** The superclasses of a class as they are walked: each one, then what is above it, before
      the next. */
  function Upwards(s: Schema, c: Class): seq<Class>
    requires Acyclic(s)
    decreases s.rank(c), 1, 0
  {
    UpwardsAll(s, c, s.sups(c))
  }

  function UpwardsAll(s: Schema, c: Class, cs: seq<Class>): seq<Class>
    requires Acyclic(s) && forall p :: p in cs ==> p in s.sups(c)
    decreases s.rank(c), 0, |cs|
  {
    if cs == [] then [] else [cs[0]] + Upwards(s, cs[0]) + UpwardsAll(s, c, cs[1..])
  }

  /** The first of a list that is left off. */
  ghost predicate IsFirstIn(l: seq<Class>, skip: set<Class>, first: Option<Class>) {
    match first
    case None => forall x :: x in l ==> x !in skip
    case Some(c) => exists i :: 0 <= i < |l| && l[i] == c && c in skip && forall j :: 0 <= j < i ==> l[j] !in skip
  }

  lemma FirstOfTwo(a: seq<Class>, b: seq<Class>, skip: set<Class>, x: Option<Class>, y: Option<Class>)
    requires IsFirstIn(a, skip, x) && IsFirstIn(b, skip, y)
    ensures IsFirstIn(a + b, skip, if x.Some? then x else y)
  {
    if x.Some? {
      var i :| 0 <= i < |a| && a[i] == x.value && x.value in skip && forall j :: 0 <= j < i ==> a[j] !in skip;
      assert (a + b)[i] == x.value && forall j :: 0 <= j < i ==> (a + b)[j] == a[j];
    } else if y.Some? {
      var i :| 0 <= i < |b| && b[i] == y.value && y.value in skip && forall j :: 0 <= j < i ==> b[j] !in skip;
      assert (a + b)[|a| + i] == y.value;
      assert forall j :: 0 <= j < |a| + i ==> (a + b)[j] == (if j < |a| then a[j] else b[j - |a|]);
      assert forall j :: 0 <= j < |a| ==> a[j] in a;
    }
  }

  /** skippedBy is the first superclass, in that order, that is left off. */
  lemma {:induction false} SkippedByIsFirst(s: Schema, c: Class, skip: set<Class>)
    requires Acyclic(s)
    ensures IsFirstIn(Upwards(s, c), skip, SkippedBy(s, c, skip))
    decreases s.rank(c), 1, 0
  {
    SkippedAmongIsFirst(s, c, s.sups(c), skip);
  }

  lemma {:induction false} SkippedAmongIsFirst(s: Schema, c: Class, cs: seq<Class>, skip: set<Class>)
    requires Acyclic(s) && forall p :: p in cs ==> p in s.sups(c)
    ensures IsFirstIn(UpwardsAll(s, c, cs), skip, SkippedAmong(s, c, cs, skip))
    decreases s.rank(c), 0, |cs|
  {
    if cs != [] {
      var p, rest := cs[0], cs[1..];
      SkippedByIsFirst(s, p, skip);
      SkippedAmongIsFirst(s, c, rest, skip);
      var here := if p in skip then Some(p) else None;
      assert [p][0] == p && IsFirstIn([p], skip, here);
      FirstOfTwo([p], Upwards(s, p), skip, here, SkippedBy(s, p, skip));
      FirstOfTwo([p] + Upwards(s, p), UpwardsAll(s, c, rest), skip,
                 if here.Some? then here else SkippedBy(s, p, skip), SkippedAmong(s, c, rest, skip));
    }
  }

  /** Only what is left off above a class matters. */
  lemma {:induction false} SkippedBySame(s: Schema, c: Class, a: set<Class>, b: set<Class>)
    requires Acyclic(s) && forall x :: x in AncestorsOf(s, s.sups(c)) ==> (x in a <==> x in b)
    ensures SkippedBy(s, c, a) == SkippedBy(s, c, b)
    decreases s.rank(c), 1, 0
  {
    SkippedAmongSame(s, c, s.sups(c), a, b);
  }

  lemma {:induction false} SkippedAmongSame(s: Schema, c: Class, cs: seq<Class>, a: set<Class>, b: set<Class>)
    requires Acyclic(s) && (forall p :: p in cs ==> p in s.sups(c))
    requires forall x :: x in AncestorsOf(s, cs) ==> (x in a <==> x in b)
    ensures SkippedAmong(s, c, cs, a) == SkippedAmong(s, c, cs, b)
    decreases s.rank(c), 0, |cs|
  {
    if cs != [] {
      var p, rest := cs[0], cs[1..];
      SkippedCons(s, p, rest, a);
      assert cs == [p] + rest;
      SkippedBySame(s, p, a, b);
      SkippedAmongSame(s, c, rest, a, b);
    }
  }

  /** The declared classes withDeclared adds: known, not skipped, once each. */
  function Carried(s: Schema, known: string -> Option<Class>, declared: seq<string>, skip: set<Class>): seq<Class>
    requires Acyclic(s)
  {
    if declared == [] then []
    else
      var added, oc := Carried(s, known, declared[..|declared| - 1], skip), known(declared[|declared| - 1]);
      if oc.None? || Skipped(s, oc.value, skip) || oc.value in added then added else added + [oc.value]
  }

  function Closed(s: Schema, added: seq<Class>, classes: seq<Class>): seq<Class>
    requires Acyclic(s)
  {
    if added == [] then classes else Walk(s, added[|added| - 1], Closed(s, added[..|added| - 1], classes))
  }

  ghost function DeclaredClasses(known: string -> Option<Class>, declared: seq<string>): set<Class> {
    set n | n in declared && known(n).Some? :: known(n).value
  }

  lemma {:induction false} CarriedMeans(s: Schema, known: string -> Option<Class>, declared: seq<string>,
                                        skip: set<Class>)
    requires Acyclic(s)
    ensures Distinct(Carried(s, known, declared, skip))
    ensures forall c :: c in Carried(s, known, declared, skip) <==>
              c in DeclaredClasses(known, declared) && !Meets(Ancestors(s, c), skip)
  {
    if declared != [] {
      var front, n := declared[..|declared| - 1], declared[|declared| - 1];
      CarriedMeans(s, known, front, skip);
      assert declared == front + [n];
      if known(n).Some? {
        SkippedMeans(s, known(n).value, skip);
        assert DeclaredClasses(known, declared) == DeclaredClasses(known, front) + {known(n).value};
      } else {
        assert DeclaredClasses(known, declared) == DeclaredClasses(known, front);
      }
    }
  }

  lemma {:induction false} ClosedElements(s: Schema, added: seq<Class>, classes: seq<Class>)
    requires Acyclic(s)
    ensures Elements(Closed(s, added, classes)) == Elements(classes) + (AncestorsOf(s, added) - {Top})
  {
    if added != [] {
      var front, c := added[..|added| - 1], added[|added| - 1];
      ClosedElements(s, front, classes);
      WalkElements(s, c, Closed(s, front, classes));
      assert added == front + [c];
      AncestorsOfBoth(s, front, [c]);
      AncestorsOfOne(s, c);
    }
  }

  lemma {:induction false} ClosedExtends(s: Schema, added: seq<Class>, classes: seq<Class>)
    requires Acyclic(s)
    ensures Extends(s, classes, Closed(s, added, classes))
  {
    if added != [] {
      var front, c := added[..|added| - 1], added[|added| - 1];
      var mid := Closed(s, front, classes);
      ClosedExtends(s, front, classes);
      WalkExtends(s, c, mid);
      ExtendsTransitive(s, classes, mid, Walk(s, c, mid));
    }
  }

  lemma ClosedMeans(s: Schema, added: seq<Class>, classes: seq<Class>)
    requires Acyclic(s)
    ensures Extends(s, classes, Closed(s, added, classes))
    ensures Elements(Closed(s, added, classes)) == Elements(classes) + (AncestorsOf(s, added) - {Top})
  {
    ClosedElements(s, added, classes);
    ClosedExtends(s, added, classes);
  }

  method WalkInto(s: Schema, c: Class, out: seq<Class>) returns (w: seq<Class>)
    requires Acyclic(s)
    ensures w == Walk(s, c, out)
    decreases s.rank(c)
  {
    var sups := s.sups(c);
    w := out;
    for i := 0 to |sups|
      invariant w == WalkAll(s, c, sups[..i], out)
    {
      assert sups[i] in s.sups(c);
      assert sups[..i + 1][..i] == sups[..i];
      w := WalkInto(s, sups[i], w);
    }
    assert sups[..|sups|] == sups;
    if c != Top && c !in w {
      w := w + [c];
    }
  }

  /** withDeclared, for any class graph without a cycle: the list it is given, extended by
      exactly the least closure under superclasses of the declared classes that are
      neither left off nor below a class left off. Nothing it adds is left off. */
  method WithDeclared(s: Schema, known: string -> Option<Class>, classes: seq<Class>, declared: seq<string>,
                      skip: set<Class>)
    returns (out: seq<Class>, added: seq<Class>)
    requires Acyclic(s)
    ensures added == Carried(s, known, declared, skip) && out == Closed(s, added, classes)
    ensures Extends(s, classes, out)
    ensures Elements(out) == Elements(classes) + (AncestorsOf(s, added) - {Top})
    ensures forall i :: |classes| <= i < |out| ==> out[i] !in skip
    ensures Elements(added) == set c | c in DeclaredClasses(known, declared) && !Meets(Ancestors(s, c), skip)
  {
    out, added := classes, [];
    for i := 0 to |declared|
      invariant added == Carried(s, known, declared[..i], skip) && out == Closed(s, added, classes)
    {
      assert declared[..i + 1][..i] == declared[..i];
      var oc := known(declared[i]);
      if oc.Some? && !Skipped(s, oc.value, skip) && oc.value !in added {
        out := WalkInto(s, oc.value, out);
        assert (added + [oc.value])[..|added|] == added;
        added := added + [oc.value];
      }
    }
    assert declared[..|declared|] == declared;
    CarriedMeans(s, known, declared, skip);
    ClosedMeans(s, added, classes);
    AddedAreNotSkipped(s, added, classes, skip);
  }

  lemma {:induction false} AddedAreNotSkipped(s: Schema, added: seq<Class>, classes: seq<Class>, skip: set<Class>)
    requires Acyclic(s) && forall c :: c in added ==> !Meets(Ancestors(s, c), skip)
    ensures var out := Closed(s, added, classes);
            classes <= out && forall i :: |classes| <= i < |out| ==> out[i] !in skip
  {
    if added != [] {
      var front, c := added[..|added| - 1], added[|added| - 1];
      AddedAreNotSkipped(s, front, classes, skip);
      NewFromWalk(s, c, Closed(s, front, classes));
    }
  }

  lemma {:induction false} NewFromWalk(s: Schema, c: Class, out: seq<Class>)
    requires Acyclic(s)
    ensures out <= Walk(s, c, out)
    ensures forall i :: |out| <= i < |Walk(s, c, out)| ==> Walk(s, c, out)[i] in Ancestors(s, c)
    decreases s.rank(c), 1, 0
  {
    NewFromWalkAll(s, c, s.sups(c), out);
  }

  lemma {:induction false} NewFromWalkAll(s: Schema, c: Class, cs: seq<Class>, out: seq<Class>)
    requires Acyclic(s) && forall p :: p in cs ==> p in s.sups(c)
    ensures out <= WalkAll(s, c, cs, out)
    ensures forall i :: |out| <= i < |WalkAll(s, c, cs, out)| ==> WalkAll(s, c, cs, out)[i] in Ancestors(s, c)
    decreases s.rank(c), 0, |cs|
  {
    if cs != [] {
      var front, p := cs[..|cs| - 1], cs[|cs| - 1];
      var mid := WalkAll(s, c, front, out);
      NewFromWalkAll(s, c, front, out);
      NewFromWalk(s, p, mid);
      var w := Walk(s, p, mid);
      forall i | |mid| <= i < |w|
        ensures w[i] in Ancestors(s, c)
      {
        Below(s, c, p, w[i]);
      }
    }
  }
}
