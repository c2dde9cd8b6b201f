/** Case-fold keys and the roster of people (roster.go).

    A name is a sequence of runes, and simple case folding is a function on runes
    under which every rune comes back to itself: a permutation with finite orbits,
    which is what unicode.SimpleFold is. */
module Rosters {
  import opened Wrappers

  type Fold = char -> char

  // ----- orbits -----

  ghost function Iterate(fold: Fold, n: nat, r: char): char {
    if n == 0 then r else fold(Iterate(fold, n - 1, r))
  }

  ghost predicate Returns(fold: Fold, n: nat, r: char) {
    n > 0 && Iterate(fold, n, r) == r
  }

  ghost predicate Periodic(fold: Fold, r: char) {
    exists n: nat :: Returns(fold, n, r)
  }

  ghost predicate SimpleFolding(fold: Fold) {
    forall r: char :: Periodic(fold, r)
  }

  ghost predicate SameOrbit(fold: Fold, a: char, b: char) {
    exists n: nat :: Iterate(fold, n, a) == b
  }

  ghost predicate IsLeast(fold: Fold, r: char, m: char) {
    SameOrbit(fold, r, m) && forall b :: SameOrbit(fold, r, b) ==> m <= b
  }

  lemma {:induction false} IterateAdds(fold: Fold, m: nat, n: nat, r: char)
    ensures Iterate(fold, m + n, r) == Iterate(fold, m, Iterate(fold, n, r))
  {
    if m > 0 {
      IterateAdds(fold, m - 1, n, r);
      assert (m + n) - 1 == (m - 1) + n;
    }
  }

  lemma {:induction false} OrbitWithin(fold: Fold, period: nat, r: char, k: nat) returns (j: nat)
    requires Returns(fold, period, r)
    ensures j < period && Iterate(fold, k, r) == Iterate(fold, j, r)
  {
    if k == 0 {
      j := 0;
    } else {
      var i := OrbitWithin(fold, period, r, k - 1);
      j := if i + 1 == period then 0 else i + 1;
    }
  }

  lemma OrbitSymmetric(fold: Fold, a: char, b: char)
    requires SimpleFolding(fold) && SameOrbit(fold, a, b)
    ensures SameOrbit(fold, b, a)
  {
    var k: nat :| Iterate(fold, k, a) == b;
    assert Periodic(fold, a);
    var period: nat :| Returns(fold, period, a);
    var j := OrbitWithin(fold, period, a, k);
    var back: nat := period - j;
    IterateAdds(fold, back, j, a);
    assert back + j == period;
    assert Iterate(fold, back, b) == a;
  }

  lemma OrbitTransitive(fold: Fold, a: char, b: char, c: char)
    requires SameOrbit(fold, a, b) && SameOrbit(fold, b, c)
    ensures SameOrbit(fold, a, c)
  {
    var m: nat :| Iterate(fold, m, a) == b;
    var n: nat :| Iterate(fold, n, b) == c;
    IterateAdds(fold, n, m, a);
  }

  /** The walk of foldName for one rune: round the orbit once, keeping the least. */
  method LeastOfOrbit(fold: Fold, r: char) returns (least: char)
    requires SimpleFolding(fold)
    ensures IsLeast(fold, r, least)
  {
    assert Periodic(fold, r);
    ghost var period: nat :| Returns(fold, period, r);
    ghost var n: nat := 1;
    least := r;
    var f := fold(r);
    assert Iterate(fold, 0, r) == r;
    assert Iterate(fold, 1, r) == fold(Iterate(fold, 0, r)) == f;
    while f != r
      invariant 0 < n <= period && f == Iterate(fold, n, r)
      invariant exists k: nat :: k < n && Iterate(fold, k, r) == least
      invariant forall k: nat :: k < n ==> least <= Iterate(fold, k, r)
      decreases period - n
    {
      if f < least {
        least := f;
      }
      assert Iterate(fold, n + 1, r) == fold(f);
      f := fold(f);
      n := n + 1;
    }
    forall b | SameOrbit(fold, r, b)
      ensures least <= b
    {
      var k: nat :| Iterate(fold, k, r) == b;
      var j := OrbitWithin(fold, n, r, k);
    }
  }

  lemma LeastExists(fold: Fold, r: char, period: nat, upTo: nat) returns (m: char)
    requires Returns(fold, period, r) && 0 < upTo <= period
    ensures exists k: nat :: k < upTo && Iterate(fold, k, r) == m
    ensures forall k: nat :: k < upTo ==> m <= Iterate(fold, k, r)
  {
    m := Iterate(fold, 0, r);
    if upTo > 1 {
      var rest := LeastExists(fold, r, period, upTo - 1);
      var last := Iterate(fold, upTo - 1, r);
      m := if last < rest then last else rest;
    }
  }

  /** The least rune of r's orbit. */
  ghost function Least(fold: Fold, r: char): (m: char)
    requires SimpleFolding(fold)
    ensures IsLeast(fold, r, m)
  {
    assert exists m :: IsLeast(fold, r, m) by {
      assert Periodic(fold, r);
      var period: nat :| Returns(fold, period, r);
      var m := LeastExists(fold, r, period, period);
      forall b | SameOrbit(fold, r, b)
        ensures m <= b
      {
        var k: nat :| Iterate(fold, k, r) == b;
        var j := OrbitWithin(fold, period, r, k);
      }
      assert IsLeast(fold, r, m);
    }
    var m :| IsLeast(fold, r, m);
    m
  }

  lemma LeastNamesTheOrbit(fold: Fold, a: char, b: char)
    requires SimpleFolding(fold)
    ensures Least(fold, a) == Least(fold, b) <==> SameOrbit(fold, a, b)
  {
    var x, y := Least(fold, a), Least(fold, b);
    if x == y {
      OrbitSymmetric(fold, b, y);
      OrbitTransitive(fold, a, x, b);
    }
    if SameOrbit(fold, a, b) {
      OrbitSymmetric(fold, a, b);
      OrbitTransitive(fold, a, b, y);
      OrbitTransitive(fold, b, a, x);
    }
  }

  /** foldName's key, as a function. */
  ghost function Key(fold: Fold, name: string): (k: string)
    requires SimpleFolding(fold)
  {
    seq(|name|, i requires 0 <= i < |name| => Least(fold, name[i]))
  }

  method FoldName(fold: Fold, name: string) returns (key: string)
    requires SimpleFolding(fold)
    ensures key == Key(fold, name)
  {
    key := "";
    for i := 0 to |name|
      invariant |key| == i && forall j :: 0 <= j < i ==> key[j] == Least(fold, name[j])
    {
      var least := LeastOfOrbit(fold, name[i]);
      key := key + [least];
    }
  }

  ghost predicate FoldAlike(fold: Fold, a: string, b: string) {
    |a| == |b| && forall i :: 0 <= i < |a| ==> SameOrbit(fold, a[i], b[i])
  }

  /** Two names have one key exactly when they agree orbit by orbit. */
  lemma KeyIsCanonical(fold: Fold, a: string, b: string)
    requires SimpleFolding(fold)
    ensures Key(fold, a) == Key(fold, b) <==> FoldAlike(fold, a, b)
  {
    if |a| == |b| {
      forall i | 0 <= i < |a|
        ensures Least(fold, a[i]) == Least(fold, b[i]) <==> SameOrbit(fold, a[i], b[i])
      {
        LeastNamesTheOrbit(fold, a[i], b[i]);
      }
      if Key(fold, a) == Key(fold, b) {
        forall i | 0 <= i < |a|
          ensures SameOrbit(fold, a[i], b[i])
        {
          assert Key(fold, a)[i] == Key(fold, b)[i];
        }
      }
    } else {
      assert |Key(fold, a)| != |Key(fold, b)|;
    }
  }

  // ----- people -----

  /** Which reading built an identity. Every reading of the configuration file and
      of the other sources makes new objects, so with the name it is the object's
      address: two identities are one object exactly when they are equal. */
  datatype Birth = FromFile(reading: nat) | FromSource(reading: nat)

  /** Somebody a source publishes. Immutable; the password is known here only for
      people of the configuration file. */
  datatype Identity = Identity(name: string, password: Option<string>, born: Birth)

  datatype Roster = Roster(byName: map<string, Identity>, local: set<string>)

  function ByName(ids: seq<Identity>): (m: map<string, Identity>)
  {
    if ids == [] then map[] else ByName(ids[..|ids| - 1])[ids[|ids| - 1].name := ids[|ids| - 1]]
  }

  function NamesOf(ids: seq<Identity>): set<string> {
    set id | id in ids :: id.name
  }

  /** No two distinct names share a key. */
  ghost predicate Apart(key: string -> string, names: set<string>) {
    forall a, b :: a in names && b in names && key(a) == key(b) ==> a == b
  }

  ghost predicate FoldApart(fold: Fold, names: set<string>)
    requires SimpleFolding(fold)
  {
    forall a, b :: a in names && b in names && FoldAlike(fold, a, b) ==> a == b
  }

  lemma {:induction false} ByNameHolds(ids: seq<Identity>)
    ensures ByName(ids).Keys == NamesOf(ids)
    ensures forall n :: n in ByName(ids) ==> ByName(ids)[n] in ids && ByName(ids)[n].name == n
  {
    if ids != [] {
      var front, last := ids[..|ids| - 1], ids[|ids| - 1];
      ByNameHolds(front);
      assert ids == front + [last];
      assert NamesOf(ids) == NamesOf(front) + {last.name};
    }
  }

  /** The people read so far are in folded, each under the key of their name. */
  ghost predicate FoldedHolds(fold: Fold, ids: seq<Identity>, folded: map<string, Identity>)
    requires SimpleFolding(fold)
  {
    && (forall k :: k in folded ==> folded[k] in ids && Key(fold, folded[k].name) == k)
    && (forall id :: id in ids ==> Key(fold, id.name) in folded && folded[Key(fold, id.name)].name == id.name)
  }

  lemma ByNameMore(ids: seq<Identity>, i: nat)
    requires i < |ids|
    ensures ids[..i + 1] == ids[..i] + [ids[i]] && ByName(ids[..i + 1]) == ByName(ids[..i])[ids[i].name := ids[i]]
  {
    assert ids[..i + 1][..i] == ids[..i];
  }

  lemma FoldedMore(fold: Fold, ids: seq<Identity>, folded: map<string, Identity>, id: Identity)
    requires SimpleFolding(fold) && FoldedHolds(fold, ids, folded)
    requires Key(fold, id.name) in folded ==> folded[Key(fold, id.name)].name == id.name
    ensures FoldedHolds(fold, ids + [id], folded[Key(fold, id.name) := id])
  {
  }

  lemma FoldedIsApart(fold: Fold, ids: seq<Identity>, folded: map<string, Identity>)
    requires SimpleFolding(fold) && FoldedHolds(fold, ids, folded)
    ensures FoldApart(fold, NamesOf(ids))
  {
    forall a, b | a in NamesOf(ids) && b in NamesOf(ids) && FoldAlike(fold, a, b)
      ensures a == b
    {
      KeyIsCanonical(fold, a, b);
    }
  }

  lemma Clash(fold: Fold, ids: seq<Identity>, a: Identity, b: Identity)
    requires SimpleFolding(fold) && a in ids && b in ids && a.name != b.name && Key(fold, a.name) == Key(fold, b.name)
    ensures FoldAlike(fold, a.name, b.name) && !FoldApart(fold, NamesOf(ids))
  {
    KeyIsCanonical(fold, a.name, b.name);
    assert a.name in NamesOf(ids) && b.name in NamesOf(ids);
  }

  /** Of several people of one name the last one stands. */
  lemma {:induction false} LastWins(ids: seq<Identity>)
    ensures forall i :: 0 <= i < |ids| && (forall j :: i < j < |ids| ==> ids[j].name != ids[i].name) ==>
              ids[i].name in ByName(ids) && ByName(ids)[ids[i].name] == ids[i]
  {
    if ids != [] {
      LastWins(ids[..|ids| - 1]);
    }
  }

  /** newRoster: an index by name, refused exactly when two different names fold
      alike; the refusal names two such people. */
  method NewRoster(fold: Fold, ids: seq<Identity>, local: seq<Identity>)
    returns (r: Result<Roster, (Identity, Identity)>)
    requires SimpleFolding(fold)
    ensures r.Success? <==> FoldApart(fold, NamesOf(ids))
    ensures r.Success? ==> r.value == Roster(ByName(ids), NamesOf(local))
    ensures r.Success? ==> forall i :: 0 <= i < |ids| && (forall j :: i < j < |ids| ==> ids[j].name != ids[i].name) ==>
              ids[i].name in r.value.byName && r.value.byName[ids[i].name] == ids[i]
    ensures r.Failure? ==>
      r.error.0 in ids && r.error.1 in ids && r.error.0.name != r.error.1.name &&
      FoldAlike(fold, r.error.0.name, r.error.1.name)
  {
    var byName: map<string, Identity> := map[];
    var folded: map<string, Identity> := map[];
    for i := 0 to |ids|
      invariant byName == ByName(ids[..i]) && FoldedHolds(fold, ids[..i], folded)
    {
      var id := ids[i];
      var key := FoldName(fold, id.name);
      if key in folded && folded[key].name != id.name {
        Clash(fold, ids, folded[key], id);
        return Failure((folded[key], id));
      }
      FoldedMore(fold, ids[..i], folded, id);
      ByNameMore(ids, i);
      folded := folded[key := id];
      byName := byName[id.name := id];
    }
    assert ids[..|ids|] == ids;
    FoldedIsApart(fold, ids, folded);
    LastWins(ids);
    var names := LocalNames(local);
    return Success(Roster(byName, names));
  }

  method LocalNames(local: seq<Identity>) returns (names: set<string>)
    ensures names == NamesOf(local)
  {
    names := {};
    for i := 0 to |local|
      invariant names == NamesOf(local[..i])
    {
      assert local[..i + 1] == local[..i] + [local[i]];
      names := names + {local[i].name};
    }
    assert local[..|local|] == local;
  }

  // ----- the ASCII-fold scan of a token bind -----

  function AsciiLower(c: char): char {
    if 'A' <= c <= 'Z' then c - 'A' + 'a' else c
  }

  predicate EqualAsciiFold(a: string, b: string) {
    |a| == |b| && forall i :: 0 <= i < |a| ==> AsciiLower(a[i]) == AsciiLower(b[i])
  }

  /** An ASCII letter and the same one in the other case. */
  predicate OtherCase(a: char, b: char) {
    || ('A' <= a <= 'Z' && b as int == a as int + 32)
    || ('a' <= a <= 'z' && a as int == b as int + 32)
  }

  /** Equal up to ASCII case: letter by letter the same, or the same in the other case. */
  lemma AsciiFoldMeans(a: string, b: string)
    ensures EqualAsciiFold(a, b) <==>
              |a| == |b| && forall i :: 0 <= i < |a| ==> a[i] == b[i] || OtherCase(a[i], b[i])
  {
    assert forall x: char, y: char :: AsciiLower(x) == AsciiLower(y) <==> x == y || OtherCase(x, y);
  }

  /** Simple folding does to ASCII letters what ASCII folding does. */
  ghost predicate FoldsAscii(fold: Fold) {
    forall c :: SameOrbit(fold, c, AsciiLower(c))
  }

  /** Among names a roster accepts, an ASCII-fold lookup has at most one match. */
  lemma AsciiFoldMatchIsUnique(fold: Fold, names: set<string>, wanted: string, a: string, b: string)
    requires SimpleFolding(fold) && FoldsAscii(fold) && FoldApart(fold, names)
    requires a in names && b in names && EqualAsciiFold(a, wanted) && EqualAsciiFold(b, wanted)
    ensures a == b
  {
    forall i | 0 <= i < |a|
      ensures SameOrbit(fold, a[i], b[i])
    {
      var low := AsciiLower(b[i]);
      assert AsciiLower(a[i]) == low && SameOrbit(fold, a[i], low) && SameOrbit(fold, b[i], low);
      OrbitSymmetric(fold, b[i], low);
      OrbitTransitive(fold, a[i], low, b[i]);
    }
    assert FoldAlike(fold, a, b);
  }

  /** The lookup of a token bind: exact in the people of one load of the snapshot, and then
      a scan of those of a second load, which may be another's. Go ranges over the map in
      any order, and the answer does not depend on it. */
  method LookUp(fold: Fold, first: map<string, Identity>, second: map<string, Identity>, wanted: string)
    returns (found: Option<Identity>)
    requires SimpleFolding(fold) && FoldsAscii(fold) && FoldApart(fold, first.Keys) && FoldApart(fold, second.Keys)
    ensures wanted in first ==> found == Some(first[wanted])
    ensures wanted !in first ==> (found.None? <==> forall n :: n in second ==> !EqualAsciiFold(n, wanted))
    ensures wanted !in first ==> forall n :: n in second && EqualAsciiFold(n, wanted) ==> found == Some(second[n])
    ensures first == second ==> forall n :: n in first && EqualAsciiFold(n, wanted) ==> found == Some(first[n])
  {
    if wanted in first {
      found := Some(first[wanted]);
      assert EqualAsciiFold(wanted, wanted);
      forall n | n in first && EqualAsciiFold(n, wanted)
        ensures n == wanted
      {
        AsciiFoldMatchIsUnique(fold, first.Keys, wanted, n, wanted);
      }
      return;
    }
    found := Scan(fold, second, wanted);
  }

  method Scan(fold: Fold, byName: map<string, Identity>, wanted: string) returns (found: Option<Identity>)
    requires SimpleFolding(fold) && FoldsAscii(fold) && FoldApart(fold, byName.Keys)
    ensures found.None? <==> forall n :: n in byName ==> !EqualAsciiFold(n, wanted)
    ensures forall n :: n in byName && EqualAsciiFold(n, wanted) ==> found == Some(byName[n])
  {
    var left := byName.Keys;
    while left != {}
      invariant left <= byName.Keys
      invariant forall n :: n in byName && n !in left ==> !EqualAsciiFold(n, wanted)
      decreases left
    {
      var n :| n in left;
      if EqualAsciiFold(n, wanted) {
        forall m | m in byName && EqualAsciiFold(m, wanted)
          ensures m == n
        {
          AsciiFoldMatchIsUnique(fold, byName.Keys, wanted, m, n);
        }
        return Some(byName[n]);
      }
      left := left - {n};
    }
    found := None;
  }
}
