/** unmet (declared.go): the classes an entry must be published without, read off what
    Validate said of it. */
module LeftOff {
  import opened Wrappers
  import opened Schemas
  import opened Declared

  /** Why a class is left off. BySuper's rule is empty when the superclass is itself a
      declared class left off for a superclass of its own. */
  datatype LeftOff =
    | NoAux(c: Class, rule: string)
    | BySuper(c: Class, rule: string, sup: Class)
    | ByMissing(c: Class, missing: seq<Type>)

  function ClassesOf(off: seq<LeftOff>): set<Class> {
    set l | l in off :: l.c
  }

  /** Each class is said once. */
  predicate SaidOnce(off: seq<LeftOff>) {
    forall i, j :: 0 <= i < j < |off| ==> off[i].c != off[j].c
  }

  lemma SayAlso(off: seq<LeftOff>, l: LeftOff)
    requires SaidOnce(off) && l.c !in ClassesOf(off)
    ensures SaidOnce(off + [l]) && ClassesOf(off + [l]) == ClassesOf(off) + {l.c}
  {
  }

  // ----- the three loops, as functions -----

  function AddRule(ps: seq<Problem>, rule: string): seq<LeftOff> {
    if ps == [] then []
    else
      var off, p := AddRule(ps[..|ps| - 1], rule), ps[|ps| - 1];
      if p.AuxiliaryNotAllowed? && p.c !in ClassesOf(off) then off + [NoAux(p.c, rule)] else off
  }

  function AddOneSuper(s: Schema, c: Class, off: seq<LeftOff>, start: seq<LeftOff>, rule: string): seq<LeftOff>
    requires Acyclic(s)
  {
    var sup := SkippedBy(s, c, ClassesOf(off));
    if c in ClassesOf(off) || sup.None? then off
    else off + [BySuper(c, if sup.value in ClassesOf(start) then rule else "", sup.value)]
  }

  function AddSuper(s: Schema, declared: seq<Class>, start: seq<LeftOff>, rule: string): seq<LeftOff>
    requires Acyclic(s)
  {
    if declared == [] then start
    else AddOneSuper(s, declared[|declared| - 1], AddSuper(s, declared[..|declared| - 1], start, rule), start, rule)
  }

  function MissingOf(must: set<Type>, ps: seq<Problem>): seq<Type> {
    if ps == [] then []
    else
      var missing, p := MissingOf(must, ps[..|ps| - 1]), ps[|ps| - 1];
      if p.MissingRequired? && p.t in must then missing + [p.t] else missing
  }

  function AddMissing(s: Schema, declared: seq<Class>, ps: seq<Problem>, start: seq<LeftOff>): seq<LeftOff> {
    if declared == [] then start
    else
      var off, c := AddMissing(s, declared[..|declared| - 1], ps, start), declared[|declared| - 1];
      var missing := MissingOf(s.must(c), ps);
      if missing != [] && c !in ClassesOf(off) then off + [ByMissing(c, missing)] else off
  }

  function Unmet(s: Schema, declared: seq<Class>, ps: seq<Problem>, rule: string): seq<LeftOff>
    requires Acyclic(s)
  {
    AddMissing(s, declared, ps, AddSuper(s, declared, AddRule(ps, rule), rule))
  }

  // ----- the same, as sets -----

  /** The auxiliary classes the content rule does not list. */
  function NotInAux(ps: seq<Problem>): set<Class> {
    set p | p in ps && p.AuxiliaryNotAllowed? :: p.c
  }

  /** The declared classes with a superclass the content rule does not list. */
  ghost function BelowNotInAux(s: Schema, declared: seq<Class>, ps: seq<Problem>): set<Class>
    requires Acyclic(s)
  {
    set c | c in declared && Meets(Ancestors(s, c), NotInAux(ps))
  }

  predicate Lacks(must: set<Type>, ps: seq<Problem>) {
    exists p :: p in ps && p.MissingRequired? && p.t in must
  }

  /** The declared classes with a MUST the entry misses. */
  ghost function MissesMust(s: Schema, declared: seq<Class>, ps: seq<Problem>): set<Class> {
    set c | c in declared && Lacks(s.must(c), ps)
  }

  ghost function SkipOf(s: Schema, declared: seq<Class>, ps: seq<Problem>): set<Class>
    requires Acyclic(s)
  {
    NotInAux(ps) + BelowNotInAux(s, declared, ps) + MissesMust(s, declared, ps)
  }

  lemma {:induction false} AddRuleMeans(ps: seq<Problem>, rule: string)
    ensures SaidOnce(AddRule(ps, rule)) && ClassesOf(AddRule(ps, rule)) == NotInAux(ps)
  {
    if ps != [] {
      var front, p := ps[..|ps| - 1], ps[|ps| - 1];
      AddRuleMeans(front, rule);
      assert ps == front + [p];
      assert NotInAux(ps) == NotInAux(front) + if p.AuxiliaryNotAllowed? then {p.c} else {};
      if p.AuxiliaryNotAllowed? && p.c !in NotInAux(front) {
        SayAlso(AddRule(front, rule), NoAux(p.c, rule));
      }
    }
  }

  /** Being below a declared class that is left off for its superclass is being below
      that superclass. */
  lemma BelowBelow(s: Schema, declared: seq<Class>, ps: seq<Problem>, c: Class)
    requires Acyclic(s)
    ensures Meets(Ancestors(s, c), NotInAux(ps) + BelowNotInAux(s, declared, ps)) <==>
              Meets(Ancestors(s, c), NotInAux(ps))
  {
    if a :| a in Ancestors(s, c) && a in NotInAux(ps) + BelowNotInAux(s, declared, ps) {
      if a !in NotInAux(ps) {
        var b :| b in Ancestors(s, a) && b in NotInAux(ps);
        AncestorsTransitive(s, c, a, b);
      }
    }
  }

  lemma BelowOneMore(s: Schema, front: seq<Class>, c: Class, ps: seq<Problem>)
    requires Acyclic(s)
    ensures BelowNotInAux(s, front + [c], ps) ==
              BelowNotInAux(s, front, ps) + if Meets(Ancestors(s, c), NotInAux(ps)) then {c} else {}
  {
  }

  lemma FoundBelow(s: Schema, front: seq<Class>, c: Class, ps: seq<Problem>)
    requires Acyclic(s)
    ensures var gone := NotInAux(ps) + BelowNotInAux(s, front, ps);
            && (SkippedBy(s, c, gone).Some? ==> Meets(Ancestors(s, c), NotInAux(ps)))
            && (Meets(Ancestors(s, c), NotInAux(ps)) ==> c in gone || SkippedBy(s, c, gone).Some?)
  {
    SkippedMeans(s, c, NotInAux(ps) + BelowNotInAux(s, front, ps));
    BelowBelow(s, front, ps, c);
  }

  lemma AddOneSuperMeans(s: Schema, front: seq<Class>, c: Class, ps: seq<Problem>, off: seq<LeftOff>,
                         start: seq<LeftOff>, rule: string)
    requires Acyclic(s) && SaidOnce(off) && ClassesOf(off) == NotInAux(ps) + BelowNotInAux(s, front, ps)
    ensures var more := AddOneSuper(s, c, off, start, rule);
            SaidOnce(more) && ClassesOf(more) == NotInAux(ps) + BelowNotInAux(s, front + [c], ps)
  {
    FoundBelow(s, front, c, ps);
    var more, sup := AddOneSuper(s, c, off, start, rule), SkippedBy(s, c, ClassesOf(off));
    var below := Meets(Ancestors(s, c), NotInAux(ps));
    assert SaidOnce(more) && ClassesOf(more) == ClassesOf(off) + if below then {c} else {} by {
      if c !in ClassesOf(off) && sup.Some? {
        SayAlso(off, BySuper(c, if sup.value in ClassesOf(start) then rule else "", sup.value));
      }
    }
    BelowOneMore(s, front, c, ps);
  }

  lemma {:induction false} AddSuperMeans(s: Schema, declared: seq<Class>, ps: seq<Problem>, start: seq<LeftOff>,
                                         rule: string)
    requires Acyclic(s) && SaidOnce(start) && ClassesOf(start) == NotInAux(ps)
    ensures var off := AddSuper(s, declared, start, rule);
            SaidOnce(off) && ClassesOf(off) == NotInAux(ps) + BelowNotInAux(s, declared, ps)
  {
    if declared != [] {
      var front, c := declared[..|declared| - 1], declared[|declared| - 1];
      AddSuperMeans(s, front, ps, start, rule);
      AddOneSuperMeans(s, front, c, ps, AddSuper(s, front, start, rule), start, rule);
      assert declared == front + [c];
    }
  }

  lemma {:induction false} MissingOfMeans(must: set<Type>, ps: seq<Problem>)
    ensures MissingOf(must, ps) != [] <==> Lacks(must, ps)
  {
    if ps != [] {
      MissingOfMeans(must, ps[..|ps| - 1]);
      assert ps == ps[..|ps| - 1] + [ps[|ps| - 1]];
    }
  }

  /** The types said to be missing are those of the class's MUST that Validate missed. */
  lemma {:induction false} MissingOfExactly(must: set<Type>, ps: seq<Problem>, t: Type)
    ensures t in MissingOf(must, ps) <==> t in must && exists p :: p in ps && p.MissingRequired? && p.t == t
  {
    if ps != [] {
      var front, last := ps[..|ps| - 1], ps[|ps| - 1];
      MissingOfExactly(must, front, t);
      assert ps == front + [last];
    }
  }

  lemma {:induction false} AddMissingMeans(s: Schema, declared: seq<Class>, ps: seq<Problem>, start: seq<LeftOff>)
    requires SaidOnce(start)
    ensures var off := AddMissing(s, declared, ps, start);
            SaidOnce(off) && ClassesOf(off) == ClassesOf(start) + MissesMust(s, declared, ps)
  {
    if declared != [] {
      var front, c := declared[..|declared| - 1], declared[|declared| - 1];
      AddMissingMeans(s, front, ps, start);
      MissingOfMeans(s.must(c), ps);
      assert declared == front + [c];
      assert MissesMust(s, declared, ps) == MissesMust(s, front, ps) + if Lacks(s.must(c), ps) then {c} else {};
      var off := AddMissing(s, front, ps, start);
      if MissingOf(s.must(c), ps) != [] && c !in ClassesOf(off) {
        SayAlso(off, ByMissing(c, MissingOf(s.must(c), ps)));
      }
    }
  }

  /** Each class left off is said once, and they are: those the content rule does not
      list, the declared ones below such a class, and the declared ones with a MUST the
      entry misses. */
  lemma UnmetMeans(s: Schema, declared: seq<Class>, ps: seq<Problem>, rule: string)
    requires Acyclic(s)
    ensures SaidOnce(Unmet(s, declared, ps, rule))
    ensures ClassesOf(Unmet(s, declared, ps, rule)) == SkipOf(s, declared, ps)
  {
    AddRuleMeans(ps, rule);
    AddSuperMeans(s, declared, ps, AddRule(ps, rule), rule);
    AddMissingMeans(s, declared, ps, AddSuper(s, declared, AddRule(ps, rule), rule));
  }

  /** A declared class is skipped with its superclasses exactly when it is itself left
      off: nothing goes silently. */
  lemma SkipIsClosed(s: Schema, declared: seq<Class>, ps: seq<Problem>, c: Class)
    requires Built(s) && c in declared
    requires forall d :: d in declared ==> s.kind(d) == Auxiliary
    ensures Meets(Ancestors(s, c), SkipOf(s, declared, ps)) <==> c in SkipOf(s, declared, ps)
  {
    Self(s, c);
    if a :| a in Ancestors(s, c) && a in SkipOf(s, declared, ps) {
      if a in MissesMust(s, declared, ps) {
        MustInherited(s, c, a);
      } else {
        BelowBelow(s, declared, ps, c);
      }
    }
  }

  // ----- which rule is named -----

  lemma {:induction false} SuperIsFrom(s: Schema, declared: seq<Class>, start: seq<LeftOff>, rule: string)
    requires Acyclic(s)
    ensures forall l :: l in AddSuper(s, declared, start, rule) && l.BySuper? ==>
              l in start || l.rule == if l.sup in ClassesOf(start) then rule else ""
  {
    if declared != [] {
      SuperIsFrom(s, declared[..|declared| - 1], start, rule);
    }
  }

  lemma {:induction false} RuleAddsNoSuper(ps: seq<Problem>, rule: string)
    ensures forall l :: l in AddRule(ps, rule) ==> l.NoAux? && l.rule == rule
  {
    if ps != [] {
      RuleAddsNoSuper(ps[..|ps| - 1], rule);
    }
  }

  lemma {:induction false} MissingAddsNoSuper(s: Schema, declared: seq<Class>, ps: seq<Problem>, start: seq<LeftOff>)
    ensures forall l :: l in AddMissing(s, declared, ps, start) ==> l in start || l.ByMissing?
    ensures forall l :: l in start ==> l in AddMissing(s, declared, ps, start)
  {
    if declared != [] {
      MissingAddsNoSuper(s, declared[..|declared| - 1], ps, start);
    }
  }

  /** A class that goes with a superclass is said with the content rule's name exactly when
      the rule refuses that superclass; with none when it too is a declared class that went
      with a superclass. */
  lemma SuperNamesTheRule(s: Schema, declared: seq<Class>, ps: seq<Problem>, rule: string, l: LeftOff)
    requires Acyclic(s) && l in Unmet(s, declared, ps, rule) && l.BySuper?
    ensures l.rule == if l.sup in NotInAux(ps) then rule else ""
  {
    AddRuleMeans(ps, rule);
    RuleAddsNoSuper(ps, rule);
    SuperIsFrom(s, declared, AddRule(ps, rule), rule);
    MissingAddsNoSuper(s, declared, ps, AddSuper(s, declared, AddRule(ps, rule), rule));
  }

  lemma {:induction false} AddSuperGrows(s: Schema, declared: seq<Class>, n: nat, start: seq<LeftOff>, rule: string)
    requires Acyclic(s) && n <= |declared|
    ensures forall l :: l in AddSuper(s, declared[..n], start, rule) ==> l in AddSuper(s, declared, start, rule)
    ensures forall l :: l in start ==> l in AddSuper(s, declared, start, rule)
    decreases |declared|
  {
    if n == |declared| {
      assert declared[..n] == declared;
      if n > 0 {
        AddSuperGrows(s, declared[..n - 1], n - 1, start, rule);
      }
    } else {
      AddSuperGrows(s, declared[..|declared| - 1], n, start, rule);
      assert declared[..|declared| - 1][..n] == declared[..n];
    }
  }

  /** How a declared class that goes with a superclass is said: with the first superclass,
      in the order of the walk, that the rule refuses or that is an earlier declared class
      below one it refuses. */
  lemma HowItIsSaid(s: Schema, declared: seq<Class>, ps: seq<Problem>, rule: string, n: nat)
    requires Acyclic(s) && n < |declared| && Distinct(declared)
    requires declared[n] !in NotInAux(ps) && Meets(Ancestors(s, declared[n]), NotInAux(ps))
    ensures var sup := SkippedBy(s, declared[n], NotInAux(ps) + BelowNotInAux(s, declared[..n], ps));
            sup.Some? &&
            BySuper(declared[n], if sup.value in NotInAux(ps) then rule else "", sup.value) in
              Unmet(s, declared, ps, rule)
  {
    var c, start := declared[n], AddRule(ps, rule);
    var off := AddSuper(s, declared[..n], start, rule);
    AddRuleMeans(ps, rule);
    AddSuperMeans(s, declared[..n], ps, start, rule);
    FoundBelow(s, declared[..n], c, ps);
    var sup := SkippedBy(s, c, ClassesOf(off)).value;
    var l := BySuper(c, if sup in ClassesOf(start) then rule else "", sup);
    assert declared[..n + 1][..n] == declared[..n];
    assert l in AddSuper(s, declared[..n + 1], start, rule);
    AddSuperGrows(s, declared, n + 1, start, rule);
    MissingAddsNoSuper(s, declared, ps, AddSuper(s, declared, start, rule));
  }

  lemma SaidAgain(off: seq<LeftOff>, k: LeftOff, l: LeftOff)
    requires SaidOnce(off) && k in off && l in off && k.c == l.c
    ensures k == l
  {
  }

  /** No other is said to go with a superclass. */
  lemma WhoIsSaidSo(s: Schema, declared: seq<Class>, ps: seq<Problem>, rule: string, l: LeftOff)
    requires Acyclic(s) && l in Unmet(s, declared, ps, rule) && l.BySuper?
    ensures l.c in declared && l.c !in NotInAux(ps) && Meets(Ancestors(s, l.c), NotInAux(ps))
  {
    var start := AddRule(ps, rule);
    var off := AddSuper(s, declared, start, rule);
    AddRuleMeans(ps, rule);
    RuleAddsNoSuper(ps, rule);
    AddSuperMeans(s, declared, ps, start, rule);
    MissingAddsNoSuper(s, declared, ps, off);
    assert l in off && l.c in ClassesOf(off);
    if k :| k in start && k.c == l.c {
      AddSuperGrows(s, declared, 0, start, rule);
      SaidAgain(off, k, l);
      assert false;
    }
  }

  // ----- what is missing -----

  lemma {:induction false} MissingIsFrom(s: Schema, declared: seq<Class>, ps: seq<Problem>, start: seq<LeftOff>,
                                         l: LeftOff)
    requires l in AddMissing(s, declared, ps, start) && l.ByMissing? && l !in start
    ensures l.c in declared && l.missing == MissingOf(s.must(l.c), ps) && l.c !in ClassesOf(start)
  {
    if declared != [] {
      var front := declared[..|declared| - 1];
      if l in AddMissing(s, front, ps, start) {
        MissingIsFrom(s, front, ps, start, l);
      } else {
        MissingKeeps(s, front, ps, start);
      }
    }
  }

  lemma {:induction false} MissingKeeps(s: Schema, declared: seq<Class>, ps: seq<Problem>, start: seq<LeftOff>)
    ensures ClassesOf(start) <= ClassesOf(AddMissing(s, declared, ps, start))
  {
    if declared != [] {
      MissingKeeps(s, declared[..|declared| - 1], ps, start);
    }
  }

  lemma {:induction false} SuperAddsNoMissing(s: Schema, declared: seq<Class>, start: seq<LeftOff>, rule: string)
    requires Acyclic(s)
    ensures forall l :: l in AddSuper(s, declared, start, rule) ==> l in start || l.BySuper?
  {
    if declared != [] {
      SuperAddsNoMissing(s, declared[..|declared| - 1], start, rule);
    }
  }

  /** A class said to go for what is missing is a declared one, that the rule takes with all
      that is above it, and what is said is missing is exactly what of its MUST Validate
      missed. */
  lemma WhatIsSaidMissing(s: Schema, declared: seq<Class>, ps: seq<Problem>, rule: string, l: LeftOff)
    requires Acyclic(s) && l in Unmet(s, declared, ps, rule) && l.ByMissing?
    ensures l.c in declared && l.c !in NotInAux(ps) && !Meets(Ancestors(s, l.c), NotInAux(ps)) && l.missing != []
    ensures forall t :: t in l.missing <==>
              t in s.must(l.c) && exists p :: p in ps && p.MissingRequired? && p.t == t
  {
    var start := AddRule(ps, rule);
    var off := AddSuper(s, declared, start, rule);
    AddRuleMeans(ps, rule);
    RuleAddsNoSuper(ps, rule);
    SuperAddsNoMissing(s, declared, start, rule);
    AddSuperMeans(s, declared, ps, start, rule);
    MissingIsFrom(s, declared, ps, off, l);
    MissingNotEmpty(s, declared, ps, off, l);
    forall t
      ensures t in l.missing <==> t in s.must(l.c) && exists p :: p in ps && p.MissingRequired? && p.t == t
    {
      MissingOfExactly(s.must(l.c), ps, t);
    }
  }

  lemma {:induction false} MissingNotEmpty(s: Schema, declared: seq<Class>, ps: seq<Problem>, start: seq<LeftOff>,
                                           l: LeftOff)
    requires l in AddMissing(s, declared, ps, start) && l !in start && l.ByMissing?
    ensures l.missing != []
  {
    if declared != [] {
      var front := declared[..|declared| - 1];
      if l in AddMissing(s, front, ps, start) {
        MissingNotEmpty(s, front, ps, start, l);
      }
    }
  }

  /** The failing case: of two declared classes, one above the other, below one the rule
      refuses, the lower is said without the rule. */
  lemma NoRuleIsNamed(s: Schema, ps: seq<Problem>, rule: string, x: Class, y: Class, z: Class)
    requires Acyclic(s) && s.sups(y) == [z] && s.sups(x) == [y]
    requires z in NotInAux(ps) && x !in NotInAux(ps) && y !in NotInAux(ps)
    ensures BySuper(y, rule, z) in Unmet(s, [y, x], ps, rule)
    ensures BySuper(x, "", y) in Unmet(s, [y, x], ps, rule)
  {
    var start := AddRule(ps, rule);
    AddRuleMeans(ps, rule);
    assert s.rank(y) < s.rank(x) && x != y;
    var first := start + [BySuper(y, rule, z)];
    assert SkippedBy(s, y, ClassesOf(start)) == Some(z);
    assert [y, x][..1] == [y] && [y][..0] == [] && AddSuper(s, [y], start, rule) == first;
    assert BySuper(y, rule, z) in first && y in ClassesOf(first);
    assert ClassesOf(first) == ClassesOf(start) + {y};
    assert SkippedBy(s, x, ClassesOf(first)) == Some(y);
    assert AddSuper(s, [y, x], start, rule) == first + [BySuper(x, "", y)];
    MissingAddsNoSuper(s, [y, x], ps, AddSuper(s, [y, x], start, rule));
  }

  /** unmet's three loops, as they run. */
  method FindNotAllowed(ps: seq<Problem>, rule: string) returns (off: seq<LeftOff>, skip: set<Class>)
    ensures off == AddRule(ps, rule) && skip == ClassesOf(off)
  {
    off, skip := [], {};
    for i := 0 to |ps|
      invariant off == AddRule(ps[..i], rule) && skip == ClassesOf(off)
    {
      assert ps[..i + 1][..i] == ps[..i];
      if ps[i].AuxiliaryNotAllowed? && ps[i].c !in skip {
        off := off + [NoAux(ps[i].c, rule)];
        skip := skip + {ps[i].c};
      }
    }
    assert ps[..|ps|] == ps;
  }

  method FindBelow(s: Schema, declared: seq<Class>, start: seq<LeftOff>, ruled: set<Class>, rule: string)
    returns (off: seq<LeftOff>, skip: set<Class>)
    requires Acyclic(s) && ruled == ClassesOf(start)
    ensures off == AddSuper(s, declared, start, rule) && skip == ClassesOf(off)
  {
    off, skip := start, ruled;
    for i := 0 to |declared|
      invariant off == AddSuper(s, declared[..i], start, rule) && skip == ClassesOf(off)
    {
      assert declared[..i + 1][..i] == declared[..i];
      var c := declared[i];
      var sup := SkippedBy(s, c, skip);
      if c !in skip && sup.Some? {
        off := off + [BySuper(c, if sup.value in ruled then rule else "", sup.value)];
        skip := skip + {c};
      }
    }
    assert declared[..|declared|] == declared;
  }

  method FindMissing(s: Schema, declared: seq<Class>, ps: seq<Problem>, start: seq<LeftOff>, gone: set<Class>)
    returns (off: seq<LeftOff>, skip: set<Class>)
    requires gone == ClassesOf(start)
    ensures off == AddMissing(s, declared, ps, start) && skip == ClassesOf(off)
  {
    off, skip := start, gone;
    for i := 0 to |declared|
      invariant off == AddMissing(s, declared[..i], ps, start) && skip == ClassesOf(off)
    {
      assert declared[..i + 1][..i] == declared[..i];
      var c := declared[i];
      var missing := Missing(s.must(c), ps);
      if missing != [] && c !in skip {
        off := off + [ByMissing(c, missing)];
        skip := skip + {c};
      }
    }
    assert declared[..|declared|] == declared;
  }

  /** unmet. */
  method FindUnmet(s: Schema, declared: seq<Class>, ps: seq<Problem>, rule: string)
    returns (off: seq<LeftOff>, skip: set<Class>)
    requires Acyclic(s)
    ensures off == Unmet(s, declared, ps, rule)
    ensures SaidOnce(off) && skip == ClassesOf(off) == SkipOf(s, declared, ps)
  {
    off, skip := FindNotAllowed(ps, rule);
    off, skip := FindBelow(s, declared, off, skip, rule);
    off, skip := FindMissing(s, declared, ps, off, skip);
    UnmetMeans(s, declared, ps, rule);
  }

  method Missing(must: set<Type>, ps: seq<Problem>) returns (missing: seq<Type>)
    ensures missing == MissingOf(must, ps)
  {
    missing := [];
    for i := 0 to |ps|
      invariant missing == MissingOf(must, ps[..i])
    {
      assert ps[..i + 1][..i] == ps[..i];
      if ps[i].MissingRequired? && ps[i].t in must {
        missing := missing + [ps[i].t];
      }
    }
    assert ps[..|ps|] == ps;
  }
}
