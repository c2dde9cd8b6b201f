/** OAUTHBEARER credentials (oidc.go), printed and parsed: section 3.1 of RFC 7628, with the
    GS2 header of section 4 of RFC 5801. Strings are bytes. */
module OAuthBearer {
  import opened Wrappers
  import opened Rosters
  import opened Text

  const KVSEP: char := 1 as char

  // ----- the escape of an authzid -----

  function Escape(s: string): string {
    if s == "" then ""
    else (if s[0] == ',' then "=2C" else if s[0] == '=' then "=3D" else [s[0]]) + Escape(s[1..])
  }

  /** Left to right, each escape replaced once. */
  function Unescape(s: string): string {
    if s == "" then ""
    else if "=2C" <= s then "," + Unescape(s[3..])
    else if "=3D" <= s then "=" + Unescape(s[3..])
    else [s[0]] + Unescape(s[1..])
  }

  lemma UnescapeStep(c: char, rest: string)
    ensures Unescape((if c == ',' then "=2C" else if c == '=' then "=3D" else [c]) + rest) == [c] + Unescape(rest)
  {
    var s := (if c == ',' then "=2C" else if c == '=' then "=3D" else [c]) + rest;
    if c == ',' {
      assert s[..3] == "=2C" && s[3..] == rest;
    } else if c == '=' {
      assert s[..3] == "=3D" && s[3..] == rest;
      assert s[1] == '3';
    } else {
      assert s[0] == c && s[1..] == rest;
    }
  }

  lemma {:induction false} UnescapeEscape(s: string)
    ensures Unescape(Escape(s)) == s
  {
    if s != "" {
      UnescapeEscape(s[1..]);
      UnescapeStep(s[0], Escape(s[1..]));
      assert s == [s[0]] + s[1..];
    }
  }

  /** An escaped name has no comma and no separator the name did not have. */
  lemma {:induction false} EscapeIsClean(s: string)
    ensures ',' !in Escape(s) && (KVSEP in Escape(s) <==> KVSEP in s) && (Escape(s) == "" <==> s == "")
  {
    if s != "" {
      EscapeIsClean(s[1..]);
      assert s == [s[0]] + s[1..];
    }
  }

  lemma {:induction false} UnescapeAddsNoSeparator(s: string)
    requires KVSEP !in s
    ensures KVSEP !in Unescape(s)
  {
    if s != "" {
      UnescapeAddsNoSeparator(if "=2C" <= s || "=3D" <= s then s[3..] else s[1..]);
    }
  }

  // ----- printing -----

  function Header(authzid: string): string {
    "n," + (if authzid != "" then "a=" + Escape(authzid) else "") + ","
  }

  function Printed(authzid: string, token: string): string {
    Header(authzid) + [KVSEP] + "auth=Bearer " + token + [KVSEP] + [KVSEP]
  }

  /** oauthBearerCredentials: what parseOAuthBearer makes of it, for any authzid and token. */
  method Print(authzid: string, token: string) returns (b: string)
    ensures b == Printed(authzid, token)
    ensures Parsed(b) == Success((authzid, token)) <==> KVSEP !in authzid && KVSEP !in token && token != ""
  {
    b := "n,";
    if authzid != "" {
      b := b + "a=" + Escape(authzid);
    }
    b := b + ",";
    assert b == Header(authzid);
    b := b + [KVSEP] + "auth=Bearer " + token + [KVSEP] + [KVSEP];
    assert b == Printed(authzid, token);
    RoundTrip(authzid, token);
  }

  // ----- parsing -----

  datatype Refusal =
    | Empty | NoSeparator | NoComma | ChannelBinding | NotAFlag | HeaderEnds | NotAnAuthzid
    | NotBearer | EmptyToken | NoAuthKey

  function Gs2Authzid(header: string): Result<string, Refusal> {
    var flag := Cut(header, ',');
    if flag.None? then Failure(NoComma)
    else if !(flag.value.0 == "n" || flag.value.0 == "y") then
      Failure(if "p=" <= flag.value.0 then ChannelBinding else NotAFlag)
    else
      var id := Cut(flag.value.1, ',');
      if id.None? then Failure(HeaderEnds)
      else if id.value.0 == "" then Success("")
      else if !("a=" <= id.value.0) then Failure(NotAnAuthzid)
      else Success(Unescape(id.value.0[2..]))
  }

  /** What one key=value pair says of the token; None for a pair that is none of ours. */
  function Pair(p: string): Option<Result<string, Refusal>> {
    var kv := Cut(p, '=');
    if kv.None? || !EqualAsciiFold(kv.value.0, "auth") then None
    else
      var scheme := Cut(kv.value.1, ' ');
      if scheme.None? || !EqualAsciiFold(scheme.value.0, "Bearer") then Some(Failure(NotBearer))
      else if scheme.value.1 == "" then Some(Failure(EmptyToken))
      else Some(Success(scheme.value.1))
  }

  /** The first pair that is ours decides. */
  function Token(pairs: seq<string>): Result<string, Refusal> {
    if pairs == [] then Failure(NoAuthKey)
    else if Pair(pairs[0]).Some? then Pair(pairs[0]).value
    else Token(pairs[1..])
  }

  function Parsed(creds: string): Result<(string, string), Refusal> {
    if creds == "" then Failure(Empty)
    else
      var parts := Split(creds, KVSEP);
      if |parts| < 2 then Failure(NoSeparator)
      else
        var authzid := Gs2Authzid(parts[0]);
        if authzid.Failure? then Failure(authzid.error)
        else
          var token := Token(parts[1..]);
          if token.Failure? then Failure(token.error) else Success((authzid.value, token.value))
  }

  /** parseOAuthBearer. */
  method Parse(creds: string) returns (r: Result<(string, string), Refusal>)
    ensures r == Parsed(creds)
  {
    if creds == "" {
      return Failure(Empty);
    }
    var parts := Split(creds, KVSEP);
    if |parts| < 2 {
      return Failure(NoSeparator);
    }
    var authzid := Gs2Authzid(parts[0]);
    if authzid.Failure? {
      return Failure(authzid.error);
    }
    var pairs := parts[1..];
    for i := 0 to |pairs|
      invariant Token(pairs) == Token(pairs[i..])
    {
      assert pairs[i..][0] == pairs[i] && pairs[i..][1..] == pairs[i + 1..];
      var kv := Cut(pairs[i], '=');
      if kv.None? || !EqualAsciiFold(kv.value.0, "auth") {
        continue;
      }
      var scheme := Cut(kv.value.1, ' ');
      if scheme.None? || !EqualAsciiFold(scheme.value.0, "Bearer") {
        return Failure(NotBearer);
      }
      if scheme.value.1 == "" {
        return Failure(EmptyToken);
      }
      return Success((authzid.value, scheme.value.1));
    }
    r := Failure(NoAuthKey);
  }

  // ----- the round trip -----

  lemma HeaderSays(authzid: string)
    requires KVSEP !in authzid
    ensures Gs2Authzid(Header(authzid)) == Success(authzid) && KVSEP !in Header(authzid)
  {
    var a := if authzid != "" then "a=" + Escape(authzid) else "";
    EscapeIsClean(authzid);
    assert Header(authzid) == "n" + [','] + (a + ",");
    CutAt("n", ',', a + ",");
    assert a + "," == a + [','] + "";
    CutAt(a, ',', "");
    if authzid != "" {
      assert a[2..] == Escape(authzid);
      UnescapeEscape(authzid);
    }
  }

  lemma AuthPair(token: string)
    ensures Pair("auth=Bearer " + token) == Some(if token == "" then Failure(EmptyToken) else Success(token))
  {
    assert "auth=Bearer " + token == "auth" + ['='] + ("Bearer " + token);
    CutAt("auth", '=', "Bearer " + token);
    assert "Bearer " + token == "Bearer" + [' '] + token;
    CutAt("Bearer", ' ', token);
  }

  /** For every authzid and every token without a separator, the token not empty, parsing
      what was printed gives both back; and otherwise it never does. */
  lemma RoundTrip(authzid: string, token: string)
    ensures Parsed(Printed(authzid, token)) == Success((authzid, token)) <==>
              KVSEP !in authzid && KVSEP !in token && token != ""
  {
    if KVSEP !in authzid && KVSEP !in token {
      PrintedParses(authzid, token);
    } else {
      ParsedIsClean(Printed(authzid, token));
    }
  }

  lemma PrintedParses(authzid: string, token: string)
    requires KVSEP !in authzid && KVSEP !in token
    ensures Parsed(Printed(authzid, token)) == if token == "" then Failure(EmptyToken) else Success((authzid, token))
  {
    var pair := "auth=Bearer " + token;
    HeaderSays(authzid);
    assert Printed(authzid, token) == Header(authzid) + [KVSEP] + (pair + [KVSEP] + [KVSEP]);
    SplitAt(Header(authzid), KVSEP, pair + [KVSEP] + [KVSEP]);
    SplitAt(pair, KVSEP, [KVSEP]);
    AuthPair(token);
  }

  /** What parses has a token that is not empty, and no separator anywhere. */
  lemma ParsedIsClean(creds: string)
    ensures Parsed(creds).Success? ==>
              KVSEP !in Parsed(creds).value.0 && KVSEP !in Parsed(creds).value.1 && Parsed(creds).value.1 != ""
  {
    if Parsed(creds).Success? {
      var parts := Split(creds, KVSEP);
      PartsAreClean(creds, KVSEP);
      assert parts[0] in parts;
      AuthzidIsClean(parts[0]);
      TokenIsClean(parts[1..]);
    }
  }

  lemma AuthzidIsClean(header: string)
    requires KVSEP !in header && Gs2Authzid(header).Success?
    ensures KVSEP !in Gs2Authzid(header).value
  {
    CutMeans(header, ',');
    var rest := Cut(header, ',').value.1;
    CutMeans(rest, ',');
    var id := Cut(rest, ',').value.0;
    if id != "" {
      UnescapeAddsNoSeparator(id[2..]);
    }
  }

  lemma {:induction false} TokenIsClean(pairs: seq<string>)
    requires (forall p :: p in pairs ==> KVSEP !in p) && Token(pairs).Success?
    ensures KVSEP !in Token(pairs).value && Token(pairs).value != ""
  {
    if Pair(pairs[0]).Some? {
      var p := pairs[0];
      CutMeans(p, '=');
      var value := Cut(p, '=').value.1;
      assert KVSEP !in p && p == Cut(p, '=').value.0 + ['='] + value;
      CutMeans(value, ' ');
      assert value == Cut(value, ' ').value.0 + [' '] + Cut(value, ' ').value.1;
    } else {
      TokenIsClean(pairs[1..]);
    }
  }

  /** Whatever was parsed, printing it again and parsing that gives the same: credentials
      of any shape mean what their canonical form means. */
  lemma Canonical(creds: string)
    requires Parsed(creds).Success?
    ensures Parsed(Printed(Parsed(creds).value.0, Parsed(creds).value.1)) == Parsed(creds)
  {
    ParsedIsClean(creds);
    RoundTrip(Parsed(creds).value.0, Parsed(creds).value.1);
  }

  // ----- fields that are not ours -----

  /** A field that is not ours, said of its text: it has no '=', or what is before the first
      one is not auth in any ASCII case. */
  ghost predicate Foreign(field: string) {
    KVSEP !in field &&
    ('=' !in field ||
     exists key, value :: '=' !in key && !EqualAsciiFold(key, "auth") && field == key + ['='] + value)
  }

  lemma ForeignIsSkipped(field: string)
    requires Foreign(field)
    ensures Pair(field).None?
  {
    CutMeans(field, '=');
    if '=' in field {
      var key, value :| '=' !in key && !EqualAsciiFold(key, "auth") && field == key + ['='] + value;
      CutAt(key, '=', value);
    }
  }

  /** Fields one after another, each ended by ^A. */
  function Fields(fields: seq<string>): string {
    if fields == [] then "" else fields[0] + [KVSEP] + Fields(fields[1..])
  }

  /** Section 3.1 of RFC 7628: keys that are not known must be ignored. Whatever foreign
      fields are put between the header and the rest, credentials parse to what they did. */
  lemma {:induction false} UnknownKeysIgnored(header: string, extra: seq<string>, rest: string)
    requires KVSEP !in header && forall f :: f in extra ==> Foreign(f)
    ensures Parsed(header + [KVSEP] + Fields(extra) + rest) == Parsed(header + [KVSEP] + rest)
  {
    if extra == [] {
      assert header + [KVSEP] + Fields(extra) + rest == header + [KVSEP] + rest;
    } else {
      var more := Fields(extra[1..]) + rest;
      OneKeyIgnored(header, extra[0], more);
      UnknownKeysIgnored(header, extra[1..], rest);
      assert header + [KVSEP] + Fields(extra) + rest == header + [KVSEP] + (extra[0] + [KVSEP] + more);
      assert header + [KVSEP] + Fields(extra[1..]) + rest == header + [KVSEP] + more;
    }
  }

  lemma OneKeyIgnored(header: string, field: string, rest: string)
    requires KVSEP !in header && Foreign(field)
    ensures Parsed(header + [KVSEP] + (field + [KVSEP] + rest)) == Parsed(header + [KVSEP] + rest)
  {
    SplitAt(header, KVSEP, field + [KVSEP] + rest);
    SplitAt(header, KVSEP, rest);
    SplitAt(field, KVSEP, rest);
    ForeignIsSkipped(field);
  }

  /** The first auth field decides, whatever comes after it: a token behind Bearer in any
      ASCII case, if there is one, and a refusal for anything else. */
  lemma AuthDecides(header: string, key: string, scheme: string, token: string, rest: string)
    requires KVSEP !in header && KVSEP !in key && KVSEP !in scheme && KVSEP !in token
    requires '=' !in key && EqualAsciiFold(key, "auth") && ' ' !in scheme
    ensures var creds := header + [KVSEP] + (key + ['='] + scheme + [' '] + token + [KVSEP] + rest);
            Parsed(creds) ==
              if Gs2Authzid(header).Failure? then Failure(Gs2Authzid(header).error)
              else if !EqualAsciiFold(scheme, "Bearer") then Failure(NotBearer)
              else if token == "" then Failure(EmptyToken)
              else Success((Gs2Authzid(header).value, token))
  {
    var field := key + ['='] + scheme + [' '] + token;
    SplitAt(header, KVSEP, field + [KVSEP] + rest);
    SplitAt(field, KVSEP, rest);
    assert field == key + ['='] + (scheme + [' '] + token);
    CutAt(key, '=', scheme + [' '] + token);
    CutAt(scheme, ' ', token);
  }

  /** With foreign fields and no other, there is no token. */
  lemma NoAuthNoToken(header: string, fields: seq<string>)
    requires KVSEP !in header && forall f :: f in fields ==> Foreign(f)
    ensures Parsed(header + [KVSEP] + Fields(fields)).Failure?
  {
    UnknownKeysIgnored(header, fields, "");
    assert header + [KVSEP] + Fields(fields) + "" == header + [KVSEP] + Fields(fields);
    SplitAt(header, KVSEP, "");
    assert Split("", KVSEP) == [""];
    ForeignIsSkipped("");
    assert Token([""]) == Token([""][1..]) == Failure(NoAuthKey);
  }

  // ----- the header -----

  /** What a header names, said of its text: a flag that binds no channel, nothing or an
      authzid with its escapes undone, and anything after. */
  ghost predicate NamesAuthzid(header: string, authzid: string) {
    exists flag, id, rest ::
      && (flag == "n" || flag == "y") && ',' !in id && header == flag + [','] + id + [','] + rest
      && ((id == "" && authzid == "") || (exists name :: id == "a=" + name && authzid == Unescape(name)))
  }

  lemma HeaderExactly(header: string, authzid: string)
    ensures Gs2Authzid(header) == Success(authzid) <==> NamesAuthzid(header, authzid)
  {
    if NamesAuthzid(header, authzid) {
      NamedIsRead(header, authzid);
    } else if Gs2Authzid(header) == Success(authzid) {
      ReadIsNamed(header);
    }
  }

  lemma NamedIsRead(header: string, authzid: string)
    requires NamesAuthzid(header, authzid)
    ensures Gs2Authzid(header) == Success(authzid)
  {
    var flag, id, rest :|
      && (flag == "n" || flag == "y") && ',' !in id && header == flag + [','] + id + [','] + rest
      && ((id == "" && authzid == "") || (exists name :: id == "a=" + name && authzid == Unescape(name)));
    assert header == flag + [','] + (id + [','] + rest);
    CutAt(flag, ',', id + [','] + rest);
    CutAt(id, ',', rest);
  }

  lemma ReadIsNamed(header: string)
    requires Gs2Authzid(header).Success?
    ensures NamesAuthzid(header, Gs2Authzid(header).value)
  {
    CutMeans(header, ',');
    var flag, more := Cut(header, ',').value.0, Cut(header, ',').value.1;
    CutMeans(more, ',');
    var id, rest := Cut(more, ',').value.0, Cut(more, ',').value.1;
    assert header == flag + [','] + id + [','] + rest;
    assert id == "" || id == "a=" + id[2..];
  }

  /** The y flag reads as n does, and p= is refused, whatever follows. */
  lemma FlagsMean(rest: string)
    ensures Gs2Authzid("y," + rest) == Gs2Authzid("n," + rest)
    ensures Parsed("p=" + rest).Failure?
  {
    assert "y," + rest == "y" + [','] + rest && "n," + rest == "n" + [','] + rest;
    CutAt("y", ',', rest);
    CutAt("n", ',', rest);
    var header := Split("p=" + rest, KVSEP)[0];
    SplitStarts("p=" + rest, KVSEP);
    CutMeans(header, ',');
    assert header != "" ==> header[0] == 'p';
  }

  lemma {:induction false} SplitStarts(s: string, c: char)
    ensures Split(s, c)[0] <= s
  {
    if s != "" && s[0] != c {
      SplitStarts(s[1..], c);
      assert s == [s[0]] + s[1..];
    }
  }

  /** Undoing the escapes goes from left to right and leaves every other text as it is. */
  lemma UnescapeExactly(before: string, rest: string)
    requires '=' !in before
    ensures Unescape(before) == before
    ensures Unescape(before + ("=2C" + rest)) == before + ("," + Unescape(rest))
    ensures Unescape(before + ("=3D" + rest)) == before + ("=" + Unescape(rest))
    ensures !("2C" <= rest) && !("3D" <= rest) ==>
              Unescape(before + ("=" + rest)) == before + ("=" + Unescape(rest))
  {
    UnescapeBefore(before, "");
    assert before + "" == before;
    UnescapeBefore(before, "=2C" + rest);
    UnescapeBefore(before, "=3D" + rest);
    UnescapeBefore(before, "=" + rest);
    UnescapeStep(',', rest);
    UnescapeStep('=', rest);
    PlainEquals(rest);
  }

  lemma {:induction false} UnescapeBefore(before: string, rest: string)
    requires '=' !in before
    ensures Unescape(before + rest) == before + Unescape(rest)
  {
    if before == "" {
      assert before + rest == rest;
    } else {
      UnescapeBefore(before[1..], rest);
      assert before == [before[0]] + before[1..];
      OneMoreBefore(before[0], before[1..], rest, Unescape(rest));
    }
  }

  lemma OneMoreBefore(c: char, before: string, rest: string, read: string)
    requires c != '=' && Unescape(before + rest) == before + read
    ensures Unescape([c] + before + rest) == [c] + before + read
  {
    OtherStays(c, before + rest);
    assert [c] + before + rest == [c] + (before + rest);
  }

  lemma OtherStays(c: char, rest: string)
    requires c != '='
    ensures Unescape([c] + rest) == [c] + Unescape(rest)
  {
    assert ([c] + rest)[0] == c && ([c] + rest)[1..] == rest;
  }

  lemma PlainEquals(rest: string)
    ensures !("2C" <= rest) && !("3D" <= rest) ==> Unescape("=" + rest) == "=" + Unescape(rest)
  {
    var s := "=" + rest;
    assert s[0] == '=' && s[1..] == rest;
    if "=2C" <= s {
      assert rest[..2] == s[1..3] == "2C";
    }
    if "=3D" <= s {
      assert rest[..2] == s[1..3] == "3D";
    }
  }
}
