/** SIDs and RIDs (samba.go): the string form of section 2.4.2.1 of MS-DTYP, and Samba's
    algorithmic mapping from a uid to a RID. */
module Samba {
  import opened Wrappers
  import opened Text

  const MAX_UINT32: nat := 0xffff_ffff
  const MAX_UINT64: nat := 0xffff_ffff_ffff_ffff
  const MAX_AUTHORITY: nat := 0xffff_ffff_ffff
  const DEFAULT_RID_BASE: nat := 1000

  // ----- numbers -----

  function Digit(n: nat): char
    requires n < 10
  {
    '0' + n as char
  }

  predicate IsDigit(c: char) {
    '0' <= c <= '9'
  }

  /** strconv.FormatUint, in base 10. */
  function Format(n: nat): (s: string)
    ensures s != ""
  {
    if n < 10 then [Digit(n)] else Format(n / 10) + [Digit(n % 10)]
  }

  /** The value of a string of digits. */
  function Value(s: string): nat
    requires forall c :: c in s ==> IsDigit(c)
  {
    if s == "" then 0
    else
      assert IsDigit(s[|s| - 1]);
      Value(s[..|s| - 1]) * 10 + (s[|s| - 1] - '0') as nat
  }

  predicate AllDigits(s: string) {
    forall c :: c in s ==> IsDigit(c)
  }

  /** strconv.ParseUint in base 10 and 64 bits: leading zeros are read, signs are not. */
  function ParseUint(s: string): Option<nat> {
    if s == "" || !AllDigits(s) || Value(s) > MAX_UINT64 then None else Some(Value(s))
  }

  lemma {:induction false} ValueOfFormat(n: nat)
    ensures AllDigits(Format(n)) && Value(Format(n)) == n
  {
    if n < 10 {
      assert Format(n)[..0] == "" && Value("") == 0;
    } else {
      ValueOfFormat(n / 10);
      assert Format(n)[..|Format(n)| - 1] == Format(n / 10);
    }
  }

  /** A number is printed with no leading zero. */
  lemma {:induction false} FormatIsPlain(n: nat)
    ensures Format(n)[0] == '0' <==> n == 0
    ensures n < 10 <==> |Format(n)| == 1
  {
    if n >= 10 {
      FormatIsPlain(n / 10);
    }
  }

  lemma FormatParses(n: nat)
    requires n <= MAX_UINT64
    ensures ParseUint(Format(n)) == Some(n)
  {
    ValueOfFormat(n);
  }

  lemma FormatIsInjective(m: nat, n: nat)
    requires Format(m) == Format(n)
    ensures m == n
  {
    ValueOfFormat(m);
    ValueOfFormat(n);
  }

  lemma NoDashInFormat(n: nat)
    ensures '-' !in Format(n)
  {
    ValueOfFormat(n);
  }

  // ----- SIDs -----

  function Limit(i: nat): nat {
    if i == 0 then MAX_AUTHORITY else MAX_UINT32
  }

  /** One number of a SID, written as it is printed and no other way. */
  function Part(p: string, limit: nat): Option<nat> {
    var n := ParseUint(p);
    if n.None? || n.value > limit || p != Format(n.value) then None else n
  }

  function Parts(ps: seq<string>): Option<seq<nat>> {
    if ps == [] then Some([])
    else
      var front, n := Parts(ps[..|ps| - 1]), Part(ps[|ps| - 1], Limit(|ps| - 1));
      if front.None? || n.None? then None else Some(front.value + [n.value])
  }

  function ParsedSID(s: string): Option<seq<nat>> {
    var parts := Split(s, '-');
    if |parts| < 4 || parts[0] != "S" || parts[1] != "1" || |parts| - 3 > 14 then None
    else Parts(parts[2..])
  }

  /** parseSID: the numbers a text is the printed form of, if they can be a domain's. */
  method ParseSID(s: string) returns (r: Option<seq<nat>>)
    ensures r == ParsedSID(s)
    ensures forall ns :: r == Some(ns) <==> IsDomain(ns) && s == Printed(ns)
  {
    ParsedExactly(s);
    var parts := Split(s, '-');
    if |parts| < 4 || parts[0] != "S" || parts[1] != "1" {
      return None;
    }
    if |parts| - 3 > 14 {
      return None;
    }
    r := ParseParts(parts[2..]);
  }

  method ParseParts(ps: seq<string>) returns (r: Option<seq<nat>>)
    ensures r == Parts(ps)
  {
    var out := [];
    for i := 0 to |ps|
      invariant Parts(ps[..i]) == Some(out)
    {
      assert ps[..i + 1][..i] == ps[..i];
      var limit := MAX_UINT32;
      if i == 0 {
        limit := MAX_AUTHORITY;
      }
      var n := Part(ps[i], limit);
      if n.None? {
        RefusedForGood(ps, i + 1);
        return None;
      }
      out := out + [n.value];
    }
    assert ps[..|ps|] == ps;
    r := Some(out);
  }

  lemma {:induction false} RefusedForGood(ps: seq<string>, n: nat)
    requires n <= |ps| && Parts(ps[..n]) == None
    ensures Parts(ps) == None
    decreases |ps| - n
  {
    if n == |ps| {
      assert ps[..n] == ps;
    } else {
      assert ps[..n + 1][..n] == ps[..n];
      RefusedForGood(ps, n + 1);
    }
  }

  /** What a domain's SID is made of: the authority, and one to fourteen sub-authorities,
      so that a RID still fits after them. */
  predicate IsDomain(ns: seq<nat>) {
    2 <= |ns| <= 15 && InLimits(ns)
  }

  /** The limits of its numbers: six bytes, and four bytes each. */
  lemma DomainMeans(ns: seq<nat>)
    ensures IsDomain(ns) <==>
              && 2 <= |ns| <= 15 && ns[0] < 0x1_0000_0000_0000
              && forall i :: 0 < i < |ns| ==> ns[i] < 0x1_0000_0000
  {
  }

  function Tail(ns: seq<nat>): string {
    if ns == [] then "" else Tail(ns[..|ns| - 1]) + "-" + Format(ns[|ns| - 1])
  }

  function Printed(ns: seq<nat>): string {
    "S-1" + Tail(ns)
  }

  /** How numbers are printed: S-1- and the first, then each one after a dash. */
  lemma PrintedIs(ns: seq<nat>, n: nat)
    ensures Printed([n]) == "S-1-" + Format(n) && Printed(ns + [n]) == Printed(ns) + "-" + Format(n)
  {
    assert [n][..0] == [] && (ns + [n])[..|ns|] == ns;
    assert Tail([n]) == "-" + Format(n);
    assert "S-1" + ("-" + Format(n)) == "S-1-" + Format(n);
  }

  function Formats(ns: seq<nat>): seq<string> {
    if ns == [] then [] else Formats(ns[..|ns| - 1]) + [Format(ns[|ns| - 1])]
  }

  lemma {:induction false} SplitBefore(a: string, c: char, b: string)
    requires c !in b
    ensures Split(a + [c] + b, c) == Split(a, c) + [b]
  {
    var s := a + [c] + b;
    if a == "" {
      assert s[1..] == b;
      SplitNowhere(b, c);
    } else {
      assert s[1..] == a[1..] + [c] + b && s[0] == a[0];
      SplitBefore(a[1..], c, b);
    }
  }

  lemma {:induction false} SplitPrinted(ns: seq<nat>)
    ensures Split(Printed(ns), '-') == ["S", "1"] + Formats(ns)
  {
    if ns == [] {
      assert Printed(ns) == "S" + ['-'] + "1";
      SplitAt("S", '-', "1");
      SplitNowhere("1", '-');
    } else {
      var front, n := ns[..|ns| - 1], ns[|ns| - 1];
      SplitPrinted(front);
      NoDashInFormat(n);
      assert Printed(ns) == Printed(front) + ['-'] + Format(n);
      SplitBefore(Printed(front), '-', Format(n));
    }
  }

  /** The inverse of Split: the parts with the byte between them. */
  function Join(parts: seq<string>, c: char): string
    requires |parts| > 0
  {
    if |parts| == 1 then parts[0] else Join(parts[..|parts| - 1], c) + [c] + parts[|parts| - 1]
  }

  lemma {:induction false} JoinCons(p: string, parts: seq<string>, c: char)
    requires |parts| > 0
    ensures Join([p] + parts, c) == p + [c] + Join(parts, c)
  {
    var all := [p] + parts;
    if |parts| == 1 {
      assert all[..1] == [p];
    } else {
      assert all[..|all| - 1] == [p] + parts[..|parts| - 1];
      JoinCons(p, parts[..|parts| - 1], c);
    }
  }

  lemma {:induction false} JoinHead(x: char, parts: seq<string>, c: char)
    requires |parts| > 0
    ensures Join([[x] + parts[0]] + parts[1..], c) == [x] + Join(parts, c)
  {
    var all := [[x] + parts[0]] + parts[1..];
    if |parts| > 1 {
      var front := parts[..|parts| - 1];
      assert all[..|all| - 1] == [[x] + front[0]] + front[1..];
      JoinHead(x, front, c);
    }
  }

  lemma {:induction false} JoinSplit(s: string, c: char)
    ensures Join(Split(s, c), c) == s
  {
    if s != "" {
      var rest := Split(s[1..], c);
      JoinSplit(s[1..], c);
      assert s == [s[0]] + s[1..];
      if s[0] == c {
        JoinCons("", rest, c);
      } else {
        JoinHead(s[0], rest, c);
      }
    }
  }

  predicate InLimits(ns: seq<nat>) {
    forall i :: 0 <= i < |ns| ==> ns[i] <= Limit(i)
  }

  lemma {:induction false} PartsMean(ps: seq<string>, ns: seq<nat>)
    ensures Parts(ps) == Some(ns) <==> ps == Formats(ns) && InLimits(ns)
  {
    FormatsLength(ns);
    PartsLength(ps);
    if |ps| == |ns| && ps != [] {
      var front, p, before, n := ps[..|ps| - 1], ps[|ps| - 1], ns[..|ns| - 1], ns[|ns| - 1];
      PartsMean(front, before);
      assert ns == before + [n] && ps == front + [p];
      PartsMore(front, p, before, n);
      FormatsMore(before, n, front, p);
      LimitsMore(before, n);
      PartMeans(p, Limit(|before|), n);
    }
  }

  lemma PartsMore(front: seq<string>, p: string, before: seq<nat>, n: nat)
    requires |front| == |before|
    ensures Parts(front + [p]) == Some(before + [n]) <==>
              Parts(front) == Some(before) && Part(p, Limit(|front|)) == Some(n)
  {
    var all := front + [p];
    assert all[..|all| - 1] == front && all[|all| - 1] == p;
    if Parts(all) == Some(before + [n]) {
      var out, m := Parts(front).value, Part(p, Limit(|front|)).value;
      assert out + [m] == before + [n];
      assert (out + [m])[..|out|] == out && (before + [n])[..|before|] == before;
    }
  }

  lemma LimitsMore(before: seq<nat>, n: nat)
    ensures InLimits(before + [n]) <==> InLimits(before) && n <= Limit(|before|)
  {
    var all := before + [n];
    assert all[|before|] == n && forall i :: 0 <= i < |before| ==> all[i] == before[i];
  }

  lemma FormatsMore(before: seq<nat>, n: nat, front: seq<string>, p: string)
    ensures front + [p] == Formats(before + [n]) <==> front == Formats(before) && p == Format(n)
  {
    assert (before + [n])[..|before|] == before;
    FormatsLength(before);
    var all := Formats(before) + [Format(n)];
    if front + [p] == all {
      assert |front| == |Formats(before)|;
      assert (front + [p])[..|front|] == all[..|front|];
    }
  }

  lemma PartMeans(p: string, limit: nat, n: nat)
    requires limit <= MAX_UINT64
    ensures Part(p, limit) == Some(n) <==> p == Format(n) && n <= limit
  {
    if n <= limit {
      FormatParses(n);
    }
  }

  lemma {:induction false} FormatsLength(ns: seq<nat>)
    ensures |Formats(ns)| == |ns|
  {
    if ns != [] {
      FormatsLength(ns[..|ns| - 1]);
    }
  }

  lemma {:induction false} PartsLength(ps: seq<string>)
    ensures Parts(ps).Some? ==> |Parts(ps).value| == |ps|
  {
    if ps != [] {
      PartsLength(ps[..|ps| - 1]);
    }
  }

  lemma PrintedIsParsed(ns: seq<nat>)
    requires IsDomain(ns)
    ensures ParsedSID(Printed(ns)) == Some(ns)
  {
    var parts := Split(Printed(ns), '-');
    SplitPrinted(ns);
    FormatsLength(ns);
    assert parts[2..] == Formats(ns);
    PartsMean(parts[2..], ns);
  }

  lemma ParsedIsPrinted(s: string)
    requires ParsedSID(s).Some?
    ensures IsDomain(ParsedSID(s).value) && s == Printed(ParsedSID(s).value)
  {
    var parts, ns := Split(s, '-'), ParsedSID(s).value;
    PartsMean(parts[2..], ns);
    PartsLength(parts[2..]);
    assert parts == ["S", "1"] + Formats(ns);
    SplitPrinted(ns);
    JoinSplit(s, '-');
    JoinSplit(Printed(ns), '-');
  }

  /** A SID is accepted exactly when it is the one way of printing a domain's numbers. */
  lemma ParsedExactly(s: string)
    ensures forall ns :: ParsedSID(s) == Some(ns) <==> IsDomain(ns) && s == Printed(ns)
  {
    forall ns
      ensures ParsedSID(s) == Some(ns) <==> IsDomain(ns) && s == Printed(ns)
    {
      if ParsedSID(s) == Some(ns) {
        ParsedIsPrinted(s);
      } else if IsDomain(ns) {
        PrintedIsParsed(ns);
      }
    }
  }

  // ----- RIDs -----

  /** A samba block: the domain's SID, and the RID base or 0 for Samba's. */
  datatype Block = Block(domain: string, ridBase: int)

  function RidBase(b: Block): int {
    if b.ridBase == 0 then DEFAULT_RID_BASE else b.ridBase
  }

  /** checkSamba's two refusals of a block, where hash publishing is on. */
  predicate Checked(b: Block) {
    && ParsedSID(b.domain).Some?
    && !(b.ridBase != 0 && (b.ridBase < DEFAULT_RID_BASE || b.ridBase % 2 != 0))
    && b.ridBase <= MAX_UINT64 / 2   // an int of 64 bits
  }

  /** The blocks startup accepts: a domain's SID, and no base or an even one of at least 1000. */
  lemma CheckedMeans(b: Block)
    ensures Checked(b) <==>
              && (exists ns :: IsDomain(ns) && b.domain == Printed(ns))
              && (b.ridBase == 0 || (b.ridBase >= 1000 && b.ridBase % 2 == 0))
              && b.ridBase < 0x8000_0000_0000_0000
  {
    ParsedExactly(b.domain);
    if ParsedSID(b.domain).Some? {
      assert IsDomain(ParsedSID(b.domain).value);
    }
  }

  datatype NoSid = NoSidAndNoUid | NotANumber | TooLarge

  /** The RID of a uid, in the 64-bit arithmetic of the source. */
  function Rid(uid: nat, base: nat): Option<nat> {
    var rid := (uid * 2 % (MAX_UINT64 + 1) + base) % (MAX_UINT64 + 1);
    if uid > MAX_UINT32 || rid > 0xffff_fffe then None else Some(rid)
  }

  /** sambaSID: the one a source gives, or the one Samba's mapping makes of the uid. */
  function SambaSID(b: Block, given: seq<string>, uids: seq<string>): Result<string, NoSid>
    requires Checked(b)
  {
    if given != [] then Success(given[0])
    else if uids == [] then Failure(NoSidAndNoUid)
    else
      var uid := ParseUint(uids[0]);
      if uid.None? then Failure(NotANumber)
      else
        var rid := Rid(uid.value, RidBase(b));
        if rid.None? then Failure(TooLarge) else Success(b.domain + "-" + Format(rid.value))
  }

  /** The arithmetic never wraps for a RID it returns: it is 2 * uid + base, which is in
      range, a user's and not a group's (Samba's groups are odd), and maps back to the uid;
      and there is none exactly when that number is past the largest RID. */
  lemma RidIsExact(b: Block, uid: nat)
    requires Checked(b) && uid <= MAX_UINT64
    ensures var base := RidBase(b);
            && (Rid(uid, base).None? <==> 2 * uid + base > 0xffff_fffe)
            && (Rid(uid, base).Some? ==>
                  var rid := Rid(uid, base).value;
                  && rid == 2 * uid + base && DEFAULT_RID_BASE <= rid <= 0xffff_fffe
                  && rid % 2 == 0 && (rid - base) / 2 == uid)
  {
    if uid <= MAX_UINT32 {
      assert uid * 2 % (MAX_UINT64 + 1) == uid * 2;
    }
  }

  /** The SID of a person: what a source gives, whatever else there is; otherwise the
      domain's with 2 * uidNumber + base after it, base being 1000 where none is set; and
      none for somebody with no uidNumber, one that is no number, or one too large. */
  lemma SambaSidExactly(b: Block, given: seq<string>, uids: seq<string>)
    requires Checked(b)
    ensures var sid := SambaSID(b, given, uids);
            var base := if b.ridBase == 0 then 1000 else b.ridBase;
            && (given != [] ==> sid == Success(given[0]))
            && (given == [] && uids == [] ==> sid == Failure(NoSidAndNoUid))
            && (given == [] && uids != [] ==>
                  var uid := ParseUint(uids[0]);
                  && (sid == Failure(NotANumber) <==> uid.None?)
                  && (sid == Failure(TooLarge) <==> uid.Some? && 2 * uid.value + base > 0xffff_fffe)
                  && (sid.Success? ==> sid.value == b.domain + "-" + Format(2 * uid.value + base)))
  {
    if given == [] && uids != [] && ParseUint(uids[0]).Some? {
      RidIsExact(b, ParseUint(uids[0]).value);
    }
  }

  /** What is read as a number: digits, at least one, and less than 2^64. */
  lemma ParseUintExactly(s: string, n: nat)
    ensures ParseUint(s) == Some(n) <==>
              s != "" && (forall c :: c in s ==> '0' <= c <= '9') && Value(s) == n && n < 0x1_0000_0000_0000_0000
  {
  }

  /** Two people with different uids never get one SID. */
  lemma SidsAreApart(b: Block, m: string, n: string)
    requires Checked(b) && SambaSID(b, [], [m]).Success? && SambaSID(b, [], [n]).Success?
    ensures SambaSID(b, [], [m]) == SambaSID(b, [], [n]) <==> ParseUint(m) == ParseUint(n)
  {
    var r1, r2 := Rid(ParseUint(m).value, RidBase(b)).value, Rid(ParseUint(n).value, RidBase(b)).value;
    RidIsExact(b, ParseUint(m).value);
    RidIsExact(b, ParseUint(n).value);
    var prefix := b.domain + "-";
    if prefix + Format(r1) == prefix + Format(r2) {
      assert (prefix + Format(r1))[|prefix|..] == Format(r1);
      assert (prefix + Format(r2))[|prefix|..] == Format(r2);
      FormatIsInjective(r1, r2);
    }
  }

  /** A derived SID is the domain's numbers with the RID after them, printed. */
  lemma DerivedSidIsCanonical(b: Block, uid: string)
    requires Checked(b) && SambaSID(b, [], [uid]).Success?
    ensures var ns := ParsedSID(b.domain).value;
            && SambaSID(b, [], [uid]).value == Printed(ns + [2 * ParseUint(uid).value + RidBase(b)])
            && |ns| + 1 <= 16
  {
    var ns, rid := ParsedSID(b.domain).value, Rid(ParseUint(uid).value, RidBase(b)).value;
    ParsedExactly(b.domain);
    RidIsExact(b, ParseUint(uid).value);
    assert (ns + [rid])[..|ns|] == ns;
    assert Printed(ns + [rid]) == Printed(ns) + "-" + Format(rid);
  }
}
