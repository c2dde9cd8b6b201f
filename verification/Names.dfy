/** The names of people and groups, and their DNs (server.go). */
module Names {
  import opened Wrappers
  import opened Text

  /** Lower case, character by character: strings.ToLower on the names a DN is made of. It
      leaves what a DN is written with alone. */
  type Lower = char -> char

  ghost predicate IsLower(low: Lower) {
    && low('u') == 'u' && low('i') == 'i' && low('d') == 'd'
    && (forall c :: low(c) == '=' <==> c == '=')
    && (forall c :: low(c) == ',' <==> c == ',')
    && (forall c :: low(low(c)) == low(c))
  }

  function Lowered(low: Lower, s: string): string {
    seq(|s|, i requires 0 <= i < |s| => low(s[i]))
  }

  /** dnOf: the name goes in as it is, with nothing escaped. */
  function DnOf(people: string, name: string): string {
    "uid=" + name + "," + people
  }

  function GroupDnOf(groups: string, name: string): string {
    "cn=" + name + "," + groups
  }

  /** nameOf: the name in a DN that ends below the people's, as the client wrote it. */
  function NameOf(low: Lower, people: string, dn: string): Option<string> {
    var suffix := "," + people;
    if !(|dn| >= |suffix| && Lowered(low, dn)[|dn| - |suffix|..] == Lowered(low, suffix)) then None
    else
      var cut := Cut(dn, ',');
      var first := if cut.Some? then cut.value.0 else dn;
      if !("uid=" <= Lowered(low, first)) || |first| == 4 then None
      else Some(first[4..])
  }

  lemma LoweredBoth(low: Lower, a: string, b: string)
    ensures Lowered(low, a + b) == Lowered(low, a) + Lowered(low, b)
  {
  }

  /** A person's own DN names them, whatever is in the name but a comma. */
  lemma NameRoundTrip(low: Lower, people: string, name: string)
    requires IsLower(low)
    ensures NameOf(low, people, DnOf(people, name)) == Some(name) <==> name != "" && ',' !in name
  {
    var dn, suffix := DnOf(people, name), "," + people;
    assert dn == ("uid=" + name) + suffix;
    LoweredBoth(low, "uid=" + name, suffix);
    assert Lowered(low, dn)[|dn| - |suffix|..] == Lowered(low, suffix);
    CutMeans(dn, ',');
    var first := Cut(dn, ',').value.0;
    if ',' !in name {
      CutAt("uid=" + name, ',', people);
      assert first[..4] == "uid=" && Lowered(low, first)[..4] == "uid=";
      assert first[4..] == name;
    }
  }

  /** One name below the people's DN: the first comma is the one before it. */
  predicate Single(people: string, dn: string) {
    var cut := Cut(dn, ',');
    cut.Some? && |cut.value.0| + 1 + |people| == |dn|
  }

  /** What nameOf takes a name from is that person's DN, in any case, exactly when there
      is one name before the people's DN. */
  lemma NameIsOfTheDn(low: Lower, people: string, dn: string)
    requires IsLower(low) && NameOf(low, people, dn).Some?
    ensures Lowered(low, dn) == Lowered(low, DnOf(people, NameOf(low, people, dn).value)) <==> Single(people, dn)
  {
    var suffix, name := "," + people, NameOf(low, people, dn).value;
    SuffixHasComma(low, people, dn);
    CutMeans(dn, ',');
    var first := Cut(dn, ',').value.0;
    assert dn[..|first|] == first && name == first[4..];
    if Single(people, dn) {
      var front := |dn| - |suffix|;
      assert front == |first|;
      assert Lowered(low, dn) == Lowered(low, dn)[..front] + Lowered(low, dn)[front..];
      assert Lowered(low, dn)[..front] == Lowered(low, first);
      LowerPrefix(low, first);
      LoweredBoth(low, "uid=" + name, suffix);
      assert DnOf(people, name) == ("uid=" + name) + suffix;
    } else {
      assert |Lowered(low, dn)| == |dn| && |Lowered(low, DnOf(people, name))| == 4 + |name| + |suffix|;
    }
  }

  lemma LowerPrefix(low: Lower, first: string)
    requires IsLower(low) && "uid=" <= Lowered(low, first)
    ensures Lowered(low, first) == Lowered(low, "uid=" + first[4..])
  {
    assert forall i :: 0 <= i < 4 ==> Lowered(low, first)[i] == "uid="[i];
  }

  lemma SuffixHasComma(low: Lower, people: string, dn: string)
    requires IsLower(low) && NameOf(low, people, dn).Some?
    ensures ',' in dn
  {
    var suffix := "," + people;
    var at := |dn| - |suffix|;
    assert Lowered(low, dn)[at..][0] == low(dn[at]) && Lowered(low, suffix)[0] == low(',');
  }

  // ----- whose password -----

  /** A DN that names somebody, said of its text: uid= in any case, the name as it is,
      then a comma, and the people's DN at the end in any case; anything between. */
  ghost predicate NameIn(low: Lower, people: string, dn: string, name: string) {
    && name != "" && ',' !in name
    && |dn| >= 4 + |name| + 1 + |people|
    && Lowered(low, dn[..4]) == "uid=" && dn[4..4 + |name|] == name && dn[4 + |name|] == ','
    && Lowered(low, dn[|dn| - |people| - 1..]) == Lowered(low, "," + people)
  }

  lemma LoweredPart(low: Lower, s: string, i: nat, j: nat)
    requires i <= j <= |s|
    ensures Lowered(low, s)[i..j] == Lowered(low, s[i..j])
  {
  }

  lemma NamesIsNamed(low: Lower, people: string, dn: string, name: string)
    requires IsLower(low) && NameIn(low, people, dn, name)
    ensures NameOf(low, people, dn) == Some(name)
  {
    var first, rest := dn[..4 + |name|], dn[5 + |name|..];
    assert dn == first + [','] + rest;
    LoweredPart(low, dn, |dn| - |people| - 1, |dn|);
    LoweredPart(low, first, 0, 4);
    assert first[..4] == dn[..4] && first[4..] == name;
    assert ',' !in first by {
      assert forall i :: 0 <= i < 4 ==> low(first[i]) == "uid="[i] by {
        assert forall i :: 0 <= i < 4 ==> Lowered(low, dn[..4])[i] == low(dn[..4][i]);
      }
      assert forall i :: 4 <= i < |first| ==> first[i] == name[i - 4];
    }
    CutAt(first, ',', rest);
  }

  lemma NamedIsNames(low: Lower, people: string, dn: string)
    requires IsLower(low) && NameOf(low, people, dn).Some?
    ensures NameIn(low, people, dn, NameOf(low, people, dn).value)
  {
    var name := NameOf(low, people, dn).value;
    SuffixHasComma(low, people, dn);
    CutMeans(dn, ',');
    var first, rest := Cut(dn, ',').value.0, Cut(dn, ',').value.1;
    assert dn[..|first|] == first && name == first[4..];
    LoweredPart(low, dn, |dn| - |people| - 1, |dn|);
    LoweredPart(low, first, 0, 4);
    assert dn[..4] == first[..4];
    CommaFirst(low, people, dn, first);
  }

  /** The first comma is not past the one before the people's DN. */
  lemma CommaFirst(low: Lower, people: string, dn: string, first: string)
    requires IsLower(low) && |dn| > |people| && first <= dn && ',' !in first
    requires Lowered(low, dn[|dn| - |people| - 1..]) == Lowered(low, "," + people)
    ensures |first| <= |dn| - |people| - 1
  {
    var at := |dn| - |people| - 1;
    assert Lowered(low, dn[at..])[0] == low(dn[at]) && Lowered(low, "," + people)[0] == low(',');
    assert dn[at] == ',';
    assert forall i :: 0 <= i < |first| ==> dn[i] == first[i];
  }

  /** nameOf, for any DN: exactly the DNs that name somebody, and whom. */
  lemma NameOfExactly(low: Lower, people: string, dn: string, name: string)
    requires IsLower(low)
    ensures NameOf(low, people, dn) == Some(name) <==> NameIn(low, people, dn, name)
  {
    if NameIn(low, people, dn, name) {
      NamesIsNamed(low, people, dn, name);
    } else if NameOf(low, people, dn).Some? {
      NamedIsNames(low, people, dn);
    }
  }

  lemma NamesItself(low: Lower, people: string, who: string, between: string)
    requires IsLower(low) && who != "" && ',' !in who && (between == "" || between[0] == ',')
    ensures NameIn(low, people, "uid=" + who + between + "," + people, who)
  {
    var dn, suffix := "uid=" + who + between + "," + people, "," + people;
    assert dn == "uid=" + (who + between + suffix);
    assert dn[..4] == "uid=" && Lowered(low, "uid=") == "uid=";
    assert dn == ("uid=" + who + between) + suffix;
    assert dn[|dn| - |suffix|..] == suffix;
    assert dn[4..4 + |who|] == who;
  }

  /** The failing case: any DN further down is taken for the person of its first name. */
  lemma DeeperDnIsTaken(low: Lower, people: string, who: string, between: string)
    requires IsLower(low) && who != "" && ',' !in who
    ensures var dn := "uid=" + who + ("," + between) + "," + people;
            NameOf(low, people, dn) == Some(who) && !Single(people, dn)
  {
    var dn := "uid=" + who + ("," + between) + "," + people;
    NamesItself(low, people, who, "," + between);
    NameOfExactly(low, people, dn, who);
    CutDeeper("uid=" + who, between, people);
  }

  lemma CutDeeper(first: string, between: string, people: string)
    requires ',' !in first
    ensures Cut(first + ("," + between) + "," + people, ',') == Some((first, between + "," + people))
  {
    assert first + ("," + between) + "," + people == first + [','] + (between + "," + people);
    CutAt(first, ',', between + "," + people);
  }

  /** ownPassword. equal is the comparison of DNs. */
  function OwnPassword(low: Lower, people: string, served: set<string>, equal: (string, string) -> bool,
                       bound: string, dn: string): Option<string>
  {
    var target, self := NameOf(low, people, dn), NameOf(low, people, bound);
    if target.None? || self.None? || self.value !in served || self != target then None
    else if !equal(bound, DnOf(people, target.value)) then None
    else target
  }

  /** For any session and any target DN: a password may be changed exactly where both name
      one served person, letter for letter, and the session is bound as their very DN. So
      one session changes one person's password, and never that of somebody whose name
      differs in case, whom a comparison of DNs takes for the same. */
  lemma OnlyTheirOwn(low: Lower, people: string, served: set<string>, equal: (string, string) -> bool,
                     bound: string, dn: string, who: string)
    requires IsLower(low)
    ensures OwnPassword(low, people, served, equal, bound, dn) == Some(who) <==>
              && NameIn(low, people, dn, who) && NameIn(low, people, bound, who)
              && who in served && equal(bound, DnOf(people, who))
  {
    NameOfExactly(low, people, dn, who);
    NameOfExactly(low, people, bound, who);
  }

  /** The target's DN is not compared: a session changes the password of the person it is
      bound as through any DN further down that begins with their name. */
  lemma DeeperTargetIsTheirs(low: Lower, people: string, served: set<string>, equal: (string, string) -> bool,
                             who: string, between: string)
    requires IsLower(low) && who in served && who != "" && ',' !in who && forall a :: equal(a, a)
    ensures var dn := "uid=" + who + ("," + between) + "," + people;
            OwnPassword(low, people, served, equal, DnOf(people, who), dn) == Some(who)
  {
    NamesItself(low, people, who, "," + between);
    NamesItself(low, people, who, "");
    assert "uid=" + who + "" == "uid=" + who;
    OnlyTheirOwn(low, people, served, equal, DnOf(people, who), "uid=" + who + ("," + between) + "," + people, who);
  }
}
