/** What a token's issuer says it checked (oidc.go), as factors a policy can count: one for
    each kind, however many methods of that kind there were (RFC 8176). */
module TokenFactors {
  datatype Kind = Knowledge | Possession | Inherence | Unknown

  /** One factor: the method it was for, or none for the token itself. */
  datatype Factor = Factor(name: string, kind: Kind)

  /** strings.ToLower, whatever it makes of letters outside ASCII. */
  type Lower = string -> string

  function AmrKind(low: Lower, name: string): Kind {
    var l := low(name);
    if l in ["pwd", "pin", "kba", "mca"] then Knowledge
    else if l in ["otp", "hwk", "swk", "sms", "tel", "sc", "pop", "user", "wia", "mfa"] then Possession
    else if l in ["fpt", "face", "iris", "retina", "vbm", "geo"] then Inherence
    else Unknown
  }

  /** The methods of section 2 of RFC 8176, and user and wia as that registry has them, with
      what each one shows: something known, something held, something somebody is. */
  const REGISTERED: map<string, Kind> :=
    map["pwd" := Knowledge, "pin" := Knowledge, "kba" := Knowledge, "mca" := Knowledge,
        "otp" := Possession, "hwk" := Possession, "swk" := Possession, "sms" := Possession, "tel" := Possession,
        "sc" := Possession, "pop" := Possession, "user" := Possession, "wia" := Possession, "mfa" := Possession,
        "fpt" := Inherence, "face" := Inherence, "iris" := Inherence, "retina" := Inherence, "vbm" := Inherence,
        "geo" := Inherence]

  /** A method is of the kind it is registered for, in any case; one that is not registered
      is Unknown, which no policy that wants distinct kinds counts. */
  lemma AmrKindIsRegistered(low: Lower, name: string)
    ensures AmrKind(low, name) == if low(name) in REGISTERED then REGISTERED[low(name)] else Unknown
  {
  }

  function KindsOf(low: Lower, names: seq<string>): set<Kind> {
    set m | m in names :: AmrKind(low, m)
  }

  function KindsIn(out: seq<Factor>): set<Kind> {
    set f | f in out :: f.kind
  }

  /** No two factors of one kind. */
  predicate OneEach(out: seq<Factor>) {
    forall i, j :: 0 <= i < j < |out| ==> out[i].kind != out[j].kind
  }

  /** A factor stands for the first method of its kind. */
  predicate IsFirst(low: Lower, f: Factor, names: seq<string>) {
    exists i :: 0 <= i < |names| && names[i] == f.name && AmrKind(low, names[i]) == f.kind &&
                forall j :: 0 <= j < i ==> AmrKind(low, names[j]) != f.kind
  }

  /** Where the first method of a kind is. */
  function FirstAt(low: Lower, names: seq<string>, k: Kind): nat {
    if names == [] || AmrKind(low, names[0]) == k then 0 else 1 + FirstAt(low, names[1..], k)
  }

  lemma {:induction false} FirstAtIs(low: Lower, names: seq<string>, k: Kind, i: nat)
    requires i < |names| && AmrKind(low, names[i]) == k && forall j :: 0 <= j < i ==> AmrKind(low, names[j]) != k
    ensures FirstAt(low, names, k) == i
  {
    if i > 0 {
      FirstAtIs(low, names[1..], k, i - 1);
    }
  }

  /** The factors are in the order of their methods, all of them before n. */
  predicate InOrder(low: Lower, out: seq<Factor>, names: seq<string>, n: nat) {
    && (forall i, j :: 0 <= i < j < |out| ==> FirstAt(low, names, out[i].kind) < FirstAt(low, names, out[j].kind))
    && (forall i :: 0 <= i < |out| ==> FirstAt(low, names, out[i].kind) < n)
  }

  /** The factors for the first n methods. */
  predicate AreFor(low: Lower, out: seq<Factor>, names: seq<string>, n: nat)
    requires n <= |names|
  {
    && OneEach(out) && KindsIn(out) == KindsOf(low, names[..n])
    && (forall f :: f in out ==> IsFirst(low, f, names)) && InOrder(low, out, names, n)
  }

  lemma OneMoreMethod(low: Lower, names: seq<string>, i: nat)
    requires i < |names|
    ensures KindsOf(low, names[..i + 1]) == KindsOf(low, names[..i]) + {AmrKind(low, names[i])}
  {
    assert names[..i + 1] == names[..i] + [names[i]];
  }

  /** A method of a kind that was not there is the first of it. */
  lemma NewIsFirst(low: Lower, names: seq<string>, i: nat, k: Kind)
    requires i < |names| && AmrKind(low, names[i]) == k && k !in KindsOf(low, names[..i])
    ensures IsFirst(low, Factor(names[i], k), names) && FirstAt(low, names, k) == i
  {
    assert forall j :: 0 <= j < i ==> names[j] in names[..i] && AmrKind(low, names[j]) in KindsOf(low, names[..i]);
    FirstAtIs(low, names, k, i);
  }

  lemma OneMoreFactor(low: Lower, out: seq<Factor>, names: seq<string>, i: nat, f: Factor)
    requires i < |names| && AreFor(low, out, names, i) && f.kind !in KindsIn(out)
    requires IsFirst(low, f, names) && FirstAt(low, names, f.kind) == i
    requires KindsOf(low, names[..i + 1]) == KindsOf(low, names[..i]) + {f.kind}
    ensures AreFor(low, out + [f], names, i + 1)
  {
    OneMoreKind(out, f);
    OneMoreInOrder(low, out, names, i, f);
    forall g | g in out + [f]
      ensures IsFirst(low, g, names)
    {
      assert g in out || g == f;
    }
  }

  lemma OneMoreKind(out: seq<Factor>, f: Factor)
    requires OneEach(out) && f.kind !in KindsIn(out)
    ensures OneEach(out + [f]) && KindsIn(out + [f]) == KindsIn(out) + {f.kind}
  {
  }

  lemma OneMoreInOrder(low: Lower, out: seq<Factor>, names: seq<string>, i: nat, f: Factor)
    requires InOrder(low, out, names, i) && FirstAt(low, names, f.kind) == i
    ensures InOrder(low, out + [f], names, i + 1)
  {
  }

  /** tokenFactors: with no method named, the token is one thing somebody has; otherwise
      one factor for each kind of method, for the first method of that kind, in the order
      those are named. */
  method TokenFactors(low: Lower, names: seq<string>) returns (out: seq<Factor>)
    ensures names == [] ==> out == [Factor("", Possession)]
    ensures names != [] ==> OneEach(out) && KindsIn(out) == KindsOf(low, names)
    ensures names != [] ==> forall f :: f in out ==> IsFirst(low, f, names)
    ensures names != [] ==> InOrder(low, out, names, |names|)
  {
    if names == [] {
      return [Factor("", Possession)];
    }
    var seen: set<Kind> := {};
    out := [];
    for i := 0 to |names|
      invariant seen == KindsIn(out) && AreFor(low, out, names, i)
    {
      var k := AmrKind(low, names[i]);
      OneMoreMethod(low, names, i);
      if k in seen {
        continue;
      }
      NewIsFirst(low, names, i, k);
      OneMoreFactor(low, out, names, i, Factor(names[i], k));
      OneMoreKind(out, Factor(names[i], k));
      seen := seen + {k};
      out := out + [Factor(names[i], k)];
    }
    assert names[..|names|] == names;
  }

  /** What a policy counts: as many factors as there are kinds of method. */
  lemma {:induction false} CountIsKinds(out: seq<Factor>)
    requires OneEach(out)
    ensures |out| == |KindsIn(out)|
  {
    if out != [] {
      var front, f := out[..|out| - 1], out[|out| - 1];
      CountIsKinds(front);
      assert out == front + [f];
      assert KindsIn(out) == KindsIn(front) + {f.kind} && f.kind !in KindsIn(front);
    }
  }
}
