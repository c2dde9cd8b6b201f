/** The cap on checks still waiting on a source (limits.go). A check starts or is refused
    at once; one that started runs in a goroutine of its own, which releases its place when
    the source answers, however long after the caller was told the time ran out. */
module PendingChecks {
  const MAX_PENDING_PER_SOURCE: nat := 64

  /** The goroutines still waiting on a source. running names each one and its source. */
  function On(running: map<nat, string>, source: string): set<nat> {
    set g | g in running && running[g] == source
  }

  lemma OneMore(running: map<nat, string>, g: nat, source: string, k: string)
    requires g !in running
    ensures |On(running[g := source], k)| == |On(running, k)| + if k == source then 1 else 0
  {
    assert On(running[g := source], k) == On(running, k) + if k == source then {g} else {};
  }

  lemma OneLess(running: map<nat, string>, g: nat, k: string)
    requires g in running
    ensures |On(running - {g}, k)| == |On(running, k)| - if k == running[g] then 1 else 0
  {
    assert On(running - {g}, k) == On(running, k) - if k == running[g] then {g} else {};
  }

  class Pending {
    var n: map<string, int>
    ghost var running: map<nat, string>

    /** A source's counter is how many goroutines wait on it, never more than the cap; a
        source with none has no counter, so the map does not grow. */
    ghost predicate Valid()
      reads this
    {
      forall k ::
        && |On(running, k)| <= MAX_PENDING_PER_SOURCE
        && (k in n <==> |On(running, k)| > 0)
        && (k in n ==> n[k] == |On(running, k)|)
    }

    constructor ()
      ensures Valid() && running == map[]
    {
      n, running := map[], map[];
      new;
      forall k
        ensures On(running, k) == {}
      {
      }
    }

    /** acquireCheck for the goroutine g about to start: refused exactly when the source has
        its 64 outstanding, whatever waits on the others. */
    method Acquire(key: string, ghost g: nat) returns (ok: bool)
      requires Valid() && g !in running
      modifies this
      ensures Valid()
      ensures ok <==> |On(old(running), key)| < 64
      ensures running == if ok then old(running)[g := key] else old(running)
      ensures !ok ==> n == old(n)
    {
      var was := if key in n then n[key] else 0;
      if was >= MAX_PENDING_PER_SOURCE {
        return false;
      }
      ghost var before := n;
      n := n[key := was + 1];
      running := running[g := key];
      forall k
        ensures |On(running, k)| <= MAX_PENDING_PER_SOURCE && (k in n <==> |On(running, k)| > 0)
        ensures k in n ==> n[k] == |On(running, k)|
      {
        OneMore(old(running), g, key, k);
        assert k != key ==> (k in n <==> k in before);
      }
      return true;
    }

    /** releaseCheck, which each goroutine that started calls once, when its check ends. */
    method Release(key: string, ghost g: nat)
      requires Valid() && g in running && running[g] == key
      modifies this
      ensures Valid() && running == old(running) - {g}
    {
      ghost var before := n;
      n := n[key := (if key in n then n[key] else 0) - 1];
      if n[key] <= 0 {
        n := n - {key};
      }
      running := running - {g};
      forall k
        ensures |On(running, k)| <= MAX_PENDING_PER_SOURCE && (k in n <==> |On(running, k)| > 0)
        ensures k in n ==> n[k] == |On(running, k)|
      {
        OneLess(old(running), g, k);
        assert k != key ==> (k in n <==> k in before);
      }
    }
  }
}
