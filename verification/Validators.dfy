/** That there is a validator for every schema: the problems of an entry are finitely many. */
module Validators {
  import opened Wrappers
  import opened Schemas

  /** Whatever can be said of an entry is one of these. */
  ghost function Sayable(s: Schema, e: Entry): set<Problem>
    requires Acyclic(s)
  {
    OfClasses(s, e) + OfMusts(s, e) + OfAttributes(s, e) + OfRule(s, e) + {NoStructuralClass, RDNNotPresent}
  }

  function OfClasses(s: Schema, e: Entry): set<Problem> {
    (set c, d | c in e.classes && d in s.sups(c) :: MissingSuperclass(c, d)) +
    (set c, d | c in e.classes && d in e.classes :: TwoChains(c, d))
  }

  function OfMusts(s: Schema, e: Entry): set<Problem> {
    set c, t | c in e.classes && t in s.must(c) :: MissingRequired(t, ByClass(c))
  }

  function OfAttributes(s: Schema, e: Entry): set<Problem> {
    (set a | a in e.attrs :: UnknownAttribute(a.desc)) + (set a | a in e.attrs :: NotAllowed(a.desc)) +
    (set a | a in e.attrs :: BadValue(a.desc))
  }

  function OfRule(s: Schema, e: Entry): set<Problem>
    requires Acyclic(s)
  {
    if RuleOf(s, e).None? then {}
    else
      var r := RuleOf(s, e).value;
      (set c | c in e.classes :: AuxiliaryNotAllowed(c, r.name)) +
      (set t | t in r.must :: MissingRequired(t, ByRule(r.name))) +
      (set a | a in e.attrs :: Precluded(a.desc, r.name))
  }

  lemma CarriedIsSayable(s: Schema, e: Entry, d: Desc)
    requires Acyclic(s) && Carries(e.attrs, d)
    ensures {UnknownAttribute(d), NotAllowed(d), BadValue(d)} <= OfAttributes(s, e)
    ensures RuleOf(s, e).Some? ==> Precluded(d, RuleOf(s, e).value.name) in OfRule(s, e)
  {
    var a :| a in e.attrs && a.desc == d;
  }

  lemma ProblemsAreSayable(s: Schema, e: Entry, p: Problem)
    requires Acyclic(s) && IsProblem(s, e, p)
    ensures p in Sayable(s, e)
  {
    if p.UnknownAttribute? || p.NotAllowed? || p.Precluded? || p.BadValue? {
      CarriedIsSayable(s, e, p.desc);
    }
  }

  ghost function Listed<T(!new)>(all: set<T>): (l: seq<T>)
    ensures forall x :: x in l <==> x in all
  {
    if all == {} then []
    else
      var x :| x in all;
      [x] + Listed(all - {x})
  }

  ghost function ProblemsOf(s: Schema, e: Entry): seq<Problem> {
    if Acyclic(s) then Listed(set p | p in Sayable(s, e) && IsProblem(s, e, p)) else []
  }

  lemma ProblemsOfLists(s: Schema)
    requires Acyclic(s)
    ensures Lists(s, e => ProblemsOf(s, e))
  {
    forall e, p
      ensures p in ProblemsOf(s, e) <==> IsProblem(s, e, p)
    {
      if IsProblem(s, e, p) {
        ProblemsAreSayable(s, e, p);
      }
    }
  }

  /** For every schema there is a validator. */
  lemma ThereIsAValidator(s: Schema)
    requires Acyclic(s)
    ensures exists validate :: Lists(s, validate)
  {
    ProblemsOfLists(s);
  }
}
