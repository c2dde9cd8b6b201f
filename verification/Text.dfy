/** Taking strings apart at a byte, as package strings does. */
module Text {
  import opened Wrappers

  /** strings.Split at a byte: always at least one part. */
  function Split(s: string, c: char): (parts: seq<string>)
    ensures |parts| > 0
  {
    if s == "" then [""]
    else if s[0] == c then [""] + Split(s[1..], c)
    else
      var parts := Split(s[1..], c);
      [[s[0]] + parts[0]] + parts[1..]
  }

  lemma {:induction false} SplitAt(a: string, c: char, b: string)
    requires c !in a
    ensures Split(a + [c] + b, c) == [a] + Split(b, c)
  {
    var s := a + [c] + b;
    if a == "" {
      assert s[1..] == b;
    } else {
      assert s[1..] == a[1..] + [c] + b;
      SplitAt(a[1..], c, b);
      assert s[0] == a[0] && a == [a[0]] + a[1..];
    }
  }

  lemma {:induction false} SplitNowhere(a: string, c: char)
    requires c !in a
    ensures Split(a, c) == [a]
  {
    if a != "" {
      SplitNowhere(a[1..], c);
      assert a == [a[0]] + a[1..];
    }
  }

  lemma {:induction false} PartsAreClean(s: string, c: char)
    ensures forall p :: p in Split(s, c) ==> c !in p
  {
    if s != "" {
      PartsAreClean(s[1..], c);
    }
  }

  /** strings.Cut at a byte: what is before the first, and what is after. */
  function Cut(s: string, c: char): Option<(string, string)> {
    if s == "" then None
    else if s[0] == c then Some(("", s[1..]))
    else
      var rest := Cut(s[1..], c);
      if rest.None? then None else Some(([s[0]] + rest.value.0, rest.value.1))
  }

  /** Cut finds the first one, or there is none. */
  lemma {:induction false} CutMeans(s: string, c: char)
    ensures Cut(s, c).None? <==> c !in s
    ensures Cut(s, c).Some? ==> c !in Cut(s, c).value.0 && s == Cut(s, c).value.0 + [c] + Cut(s, c).value.1
  {
    if s != "" {
      CutMeans(s[1..], c);
      assert s == [s[0]] + s[1..];
    }
  }

  lemma {:induction false} CutAt(a: string, c: char, b: string)
    requires c !in a
    ensures Cut(a + [c] + b, c) == Some((a, b))
  {
    var s := a + [c] + b;
    if a == "" {
      assert s[1..] == b;
    } else {
      assert s[1..] == a[1..] + [c] + b;
      CutAt(a[1..], c, b);
      assert s[0] == a[0] && a == [a[0]] + a[1..];
    }
  }
}
