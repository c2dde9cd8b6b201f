/** The schema a site builds up (siteschema.go): each file and each block, read with those
    before it, adds what is new, and every OID and name has one owner. Reading, decoding
    and building are a library's; what is relied on of them is stated here. */
module SiteSchema {
  import opened Wrappers
  import opened SchemaBlocks

  /** One definition: an OID, or a structure rule's ID, and its names folded to lower case. */
  datatype Def = Def(oid: string, names: seq<string>)

  function Keys(d: Def): set<string> {
    {d.oid} + set n | n in d.names
  }

  /** The eight kinds, object identifiers first: those are macros, and nobody owns one. */
  type DefKind = k: nat | k < 8

  type Definitions = d: seq<seq<Def>> | |d| == 8 witness [[], [], [], [], [], [], [], []]

  /** Where an addition was written. */
  datatype Where = Standard | InFile(path: string) | InBlock(position: Range)

  /** What one schema file or one schema block added. */
  datatype Addition = Addition(origin: Where, defs: Definitions)

  const NOTHING: Definitions := [[], [], [], [], [], [], [], []]

  predicate Within(a: Definitions, b: Definitions) {
    forall k: DefKind :: a[k] <= b[k]
  }

  /** A reader of files, as schema.Read and hclschema.Decode: it appends in file order,
      kind by kind. */
  type Reader = seq<File> -> Option<Definitions>

  ghost predicate Appends(read: Reader) {
    forall fs, f :: read(fs).Some? && read(fs + [f]).Some? ==> Within(read(fs).value, read(fs + [f]).value)
  }

  function Flat(parts: seq<Definitions>, k: DefKind): seq<Def> {
    if parts == [] then [] else Flat(parts[..|parts| - 1], k) + parts[|parts| - 1][k]
  }

  predicate NothingTwice(all: seq<Def>) {
    forall i, j :: 0 <= i < j < |all| ==> Keys(all[i]) !! Keys(all[j])
  }

  /** A builder, as schema.BuildFrom: what it builds defines no OID and no name twice. */
  type Builder = seq<Definitions> -> bool

  ghost predicate RefusesTwice(build: Builder) {
    forall parts: seq<Definitions>, k: DefKind :: build(parts) && k > 0 ==> NothingTwice(Flat(parts, k))
  }

  // ----- additions -----

  /** since: what one more file added. */
  function Since(all: Definitions, before: Definitions): Definitions
    requires Within(before, all)
  {
    seq(8, k requires 0 <= k < 8 => all[k][|before[k]|..])
  }

  function Added(added: seq<Addition>, k: DefKind): seq<Def> {
    if added == [] then [] else Added(added[..|added| - 1], k) + added[|added| - 1].defs[k]
  }

  /** What was added so far is what is there, kind by kind. */
  ghost predicate AddUp(added: seq<Addition>, site: Definitions, local: Definitions) {
    forall k: DefKind :: Added(added, k) == site[k] + local[k]
  }

  lemma AddFile(added: seq<Addition>, origin: Where, site: Definitions, all: Definitions)
    requires AddUp(added, site, NOTHING) && Within(site, all)
    ensures AddUp(added + [Addition(origin, Since(all, site))], all, NOTHING)
  {
    var more := added + [Addition(origin, Since(all, site))];
    assert more[..|added|] == added;
    forall k: DefKind
      ensures Added(more, k) == all[k] + NOTHING[k]
    {
      assert Added(added, k) == site[k] + NOTHING[k];
      assert all[k] == site[k] + all[k][|site[k]|..];
    }
  }

  lemma AddBlock(added: seq<Addition>, origin: Where, site: Definitions, local: Definitions, all: Definitions)
    requires AddUp(added, site, local) && Within(local, all)
    ensures AddUp(added + [Addition(origin, Since(all, local))], site, all)
  {
    var more := added + [Addition(origin, Since(all, local))];
    assert more[..|added|] == added;
    forall k: DefKind
      ensures Added(more, k) == site[k] + all[k]
    {
      assert Added(added, k) == site[k] + local[k];
      assert all[k] == local[k] + all[k][|local[k]|..];
    }
  }

  // ----- owners -----

  datatype OwnerKey = OwnerKey(kind: DefKind, name: string)

  type Owners = map<OwnerKey, Where>

  predicate Defines(defs: seq<Def>, key: string) {
    exists d :: d in defs && key in Keys(d)
  }

  function Lookup(o: Owners, k: DefKind, key: string): Option<Where> {
    if OwnerKey(k, key) in o then Some(o[OwnerKey(k, key)]) else None
  }

  /** The last addition that defines a key owns it, or the standard schema does, or nobody. */
  function OwnerOf(base: Definitions, added: seq<Addition>, k: DefKind, key: string): Option<Where> {
    if added == [] then (if Defines(base[k], key) then Some(Standard) else None)
    else if Defines(added[|added| - 1].defs[k], key) then Some(added[|added| - 1].origin)
    else OwnerOf(base, added[..|added| - 1], k, key)
  }

  ghost predicate AreOwners(o: Owners, base: Definitions, added: seq<Addition>) {
    forall k: DefKind, key :: Lookup(o, k, key) == if k == 0 then None else OwnerOf(base, added, k, key)
  }

  /** o, with the definitions put over it for their owner. */
  ghost predicate PutOver(o: Owners, defs: Definitions, origin: Where, more: Owners) {
    forall k: DefKind, key ::
      Lookup(more, k, key) == if k > 0 && Defines(defs[k], key) then Some(origin) else Lookup(o, k, key)
  }

  lemma OwnersMore(o: Owners, base: Definitions, added: seq<Addition>, a: Addition, more: Owners)
    requires AreOwners(o, base, added) && PutOver(o, a.defs, a.origin, more)
    ensures AreOwners(more, base, added + [a])
  {
    assert (added + [a])[..|added|] == added;
  }

  lemma OneKey(o: Owners, k: DefKind, at: string, origin: Where)
    ensures forall j: DefKind, key ::
              Lookup(o[OwnerKey(k, at) := origin], j, key) ==
                if j == k && key == at then Some(origin) else Lookup(o, j, key)
  {
    var more := o[OwnerKey(k, at) := origin];
    forall j: DefKind, key
      ensures Lookup(more, j, key) == if j == k && key == at then Some(origin) else Lookup(o, j, key)
    {
      assert OwnerKey(j, key) == OwnerKey(k, at) <==> j == k && key == at;
    }
  }

  /** Whether a key is the OID or among the first names. */
  predicate Among(d: Def, n: nat, key: string)
    requires n <= |d.names|
  {
    key == d.oid || exists i :: 0 <= i < n && d.names[i] == key
  }

  lemma AmongMore(d: Def, n: nat)
    requires n < |d.names|
    ensures forall key :: Among(d, n + 1, key) <==> Among(d, n, key) || key == d.names[n]
  {
    forall key
      ensures Among(d, n + 1, key) <==> Among(d, n, key) || key == d.names[n]
    {
      if key == d.names[n] {
        assert 0 <= n < n + 1 && d.names[n] == key;
      }
    }
  }

  lemma AmongAll(d: Def)
    ensures forall key :: Among(d, |d.names|, key) <==> key in Keys(d)
  {
    forall key
      ensures Among(d, |d.names|, key) <==> key in Keys(d)
    {
      assert key in d.names <==> exists i :: 0 <= i < |d.names| && d.names[i] == key;
    }
  }

  /** put: the OID and the names of one definition. */
  method Put(o: Owners, k: DefKind, d: Def, origin: Where) returns (more: Owners)
    ensures forall j: DefKind, key ::
              Lookup(more, j, key) == if j == k && key in Keys(d) then Some(origin) else Lookup(o, j, key)
  {
    more := o[OwnerKey(k, d.oid) := origin];
    OneKey(o, k, d.oid, origin);
    for i := 0 to |d.names|
      invariant forall j: DefKind, key ::
                Lookup(more, j, key) == if j == k && Among(d, i, key) then Some(origin) else Lookup(o, j, key)
    {
      ghost var before := more;
      OneKey(more, k, d.names[i], origin);
      AmongMore(d, i);
      more := more[OwnerKey(k, d.names[i]) := origin];
      forall j: DefKind, key
        ensures Lookup(more, j, key) == if j == k && Among(d, i + 1, key) then Some(origin) else Lookup(o, j, key)
      {
        assert Lookup(more, j, key) == if j == k && key == d.names[i] then Some(origin) else Lookup(before, j, key);
        assert Among(d, i + 1, key) <==> Among(d, i, key) || key == d.names[i];
      }
    }
    AmongAll(d);
  }

  method PutKind(o: Owners, k: DefKind, defs: seq<Def>, origin: Where) returns (more: Owners)
    ensures forall j: DefKind, key ::
              Lookup(more, j, key) == if j == k && Defines(defs, key) then Some(origin) else Lookup(o, j, key)
  {
    more := o;
    for i := 0 to |defs|
      invariant forall j: DefKind, key ::
                  Lookup(more, j, key) == if j == k && Defines(defs[..i], key) then Some(origin) else Lookup(o, j, key)
    {
      DefinesOneMore(defs, i);
      more := Put(more, k, defs[i], origin);
    }
    assert defs[..|defs|] == defs;
  }

  lemma DefinesOneMore(defs: seq<Def>, i: nat)
    requires i < |defs|
    ensures forall key :: Defines(defs[..i + 1], key) <==> Defines(defs[..i], key) || key in Keys(defs[i])
  {
    assert defs[..i + 1] == defs[..i] + [defs[i]];
  }

  /** owners.add. */
  method AddOwners(o: Owners, defs: Definitions, origin: Where) returns (more: Owners)
    ensures PutOver(o, defs, origin, more)
  {
    more := o;
    for k := 1 to 8
      invariant forall j: DefKind, key ::
                  Lookup(more, j, key) == if 0 < j < k && Defines(defs[j], key) then Some(origin) else Lookup(o, j, key)
    {
      more := PutKind(more, k, defs[k], origin);
    }
  }

  // ----- directorySchema -----

  /** What is served: what the parts build to, what the site added, and who owns what. */
  datatype Served = Served(parts: seq<Definitions>, added: seq<Addition>, owners: Owners)

  /** The schema files first, each under its own path, then the blocks. */
  predicate InOrder(added: seq<Addition>, files: seq<SchemaFile>, blocks: seq<Block>) {
    && |added| <= |files| + |blocks|
    && (forall i :: 0 <= i < |added| && i < |files| ==> added[i].origin == InFile(files[i].0))
    && (forall i :: |files| <= i < |added| ==> added[i].origin == InBlock(blocks[i - |files|].range))
  }

  type SchemaFile = (string, Option<string>)

  function FilesOf(files: seq<SchemaFile>): seq<File> {
    seq(|files|, i requires 0 <= i < |files| => File(files[i].0, if files[i].1.Some? then files[i].1.value else ""))
  }

  /** What the schema files define together, unless one cannot be read, or does not build
      on those before it. */
  function ReadAll(base: Definitions, read: Reader, build: Builder, files: seq<SchemaFile>): Option<Definitions> {
    if files == [] then Some(NOTHING)
    else if ReadAll(base, read, build, files[..|files| - 1]).None? || files[|files| - 1].1.None? then None
    else
      var all := read(FilesOf(files));
      if all.Some? && build([base, all.value]) then all else None
  }

  /** ... and what the blocks define, on top of that. */
  function DecodeAll(base: Definitions, site: Definitions, decode: Reader, build: Builder,
                     fs: seq<File>): Option<Definitions>
  {
    if fs == [] then Some(NOTHING)
    else if DecodeAll(base, site, decode, build, fs[..|fs| - 1]).None? then None
    else
      var all := decode(fs);
      if all.Some? && build([base, site, all.value]) then all else None
  }

  lemma {:induction false} ReadNoMore(base: Definitions, read: Reader, build: Builder, files: seq<SchemaFile>, n: nat)
    requires n <= |files| && ReadAll(base, read, build, files[..n]).None?
    ensures ReadAll(base, read, build, files).None?
    decreases |files| - n
  {
    if n == |files| {
      assert files[..n] == files;
    } else {
      assert files[..n + 1][..n] == files[..n];
      ReadNoMore(base, read, build, files, n + 1);
    }
  }

  lemma {:induction false} DecodeNoMore(base: Definitions, site: Definitions, decode: Reader, build: Builder,
                                        fs: seq<File>, n: nat)
    requires n <= |fs| && DecodeAll(base, site, decode, build, fs[..n]).None?
    ensures DecodeAll(base, site, decode, build, fs).None?
    decreases |fs| - n
  {
    if n == |fs| {
      assert fs[..n] == fs;
    } else {
      assert fs[..n + 1][..n] == fs[..n];
      DecodeNoMore(base, site, decode, build, fs, n + 1);
    }
  }

  ghost predicate SitePart(read: Reader, fs: seq<File>, site: Definitions) {
    site == NOTHING || (read(fs).Some? && site == read(fs).value)
  }

  lemma FilesMore(files: seq<SchemaFile>, i: nat)
    requires i < |files|
    ensures files[..i + 1][..i] == files[..i]
    ensures files[i].1.Some? ==> FilesOf(files[..i + 1]) == FilesOf(files[..i]) + [File(files[i].0, files[i].1.value)]
  {
  }

  method ReadFiles(base: Definitions, read: Reader, build: Builder, files: seq<SchemaFile>, ghost blocks: seq<Block>)
    returns (r: Option<(Definitions, seq<Addition>, Owners)>)
    requires Appends(read)
    ensures r.None? <==> ReadAll(base, read, build, files).None?
    ensures r.Some? ==> var (site, added, owners) := r.value;
              && ReadAll(base, read, build, files) == Some(site)
              && |added| == |files| && InOrder(added, files, blocks)
              && AddUp(added, site, NOTHING) && AreOwners(owners, base, added)
  {
    var fs: seq<File>, site, added: seq<Addition> := [], NOTHING, [];
    var owners := AddOwners(map[], base, Standard);
    for i := 0 to |files|
      invariant |added| == i && InOrder(added, files, blocks)
      invariant fs == FilesOf(files[..i]) && SitePart(read, fs, site)
      invariant ReadAll(base, read, build, files[..i]) == Some(site)
      invariant AddUp(added, site, NOTHING) && AreOwners(owners, base, added)
    {
      FilesMore(files, i);
      if files[i].1.None? {
        ReadNoMore(base, read, build, files, i + 1);
        return None;
      }
      var f := File(files[i].0, files[i].1.value);
      var all := read(fs + [f]);
      if all.None? {
        ReadNoMore(base, read, build, files, i + 1);
        return None;
      }
      assert Within(site, all.value);
      var mine := Since(all.value, site);
      if !build([base, all.value]) {
        ReadNoMore(base, read, build, files, i + 1);
        return None;
      }
      var a := Addition(InFile(files[i].0), mine);
      AddFile(added, a.origin, site, all.value);
      ghost var before := owners;
      owners := AddOwners(owners, mine, a.origin);
      OwnersMore(before, base, added, a, owners);
      fs, site, added := fs + [f], all.value, added + [a];
    }
    assert files[..|files|] == files;
    r := Some((site, added, owners));
  }

  method DecodeBlocks(base: Definitions, decode: Reader, build: Builder, ghost files: seq<SchemaFile>,
                      blocks: seq<Block>, fs: seq<File>, site: Definitions, added0: seq<Addition>, owners0: Owners)
    returns (r: Option<(Definitions, seq<Addition>, Owners)>)
    requires Appends(decode) && |added0| == |files| && InOrder(added0, files, blocks) && |fs| == |blocks|
    requires AddUp(added0, site, NOTHING) && AreOwners(owners0, base, added0)
    ensures r.None? <==> DecodeAll(base, site, decode, build, fs).None?
    ensures r.Some? ==> var (local, added, owners) := r.value;
              && DecodeAll(base, site, decode, build, fs) == Some(local)
              && |added| == |files| + |blocks| && InOrder(added, files, blocks)
              && AddUp(added, site, local) && AreOwners(owners, base, added)
  {
    var local, added, owners := NOTHING, added0, owners0;
    for i := 0 to |fs|
      invariant |added| == |files| + i && InOrder(added, files, blocks)
      invariant SitePart(decode, fs[..i], local) && DecodeAll(base, site, decode, build, fs[..i]) == Some(local)
      invariant AddUp(added, site, local) && AreOwners(owners, base, added)
    {
      assert fs[..i + 1][..i] == fs[..i] && fs[..i + 1] == fs[..i] + [fs[i]];
      var all := decode(fs[..i + 1]);
      if all.None? {
        DecodeNoMore(base, site, decode, build, fs, i + 1);
        return None;
      }
      assert Within(local, all.value);
      var mine := Since(all.value, local);
      if !build([base, site, all.value]) {
        DecodeNoMore(base, site, decode, build, fs, i + 1);
        return None;
      }
      var a := Addition(InBlock(blocks[i].range), mine);
      AddBlock(added, a.origin, site, local, all.value);
      ghost var before := owners;
      owners := AddOwners(owners, mine, a.origin);
      OwnersMore(before, base, added, a, owners);
      local, added := all.value, added + [a];
    }
    assert fs[..|fs|] == fs;
    r := Some((local, added, owners));
  }

  function BlockFiles(blocks: seq<Block>, sources: map<string, string>): seq<File>
    requires forall b :: b in blocks ==> Located(b, sources)
  {
    seq(|blocks|, i requires 0 <= i < |blocks| => FileOf(blocks[i], sources))
  }

  /** The parts of the schema served, or nothing where one step is refused. */
  function Parts(base: Definitions, read: Reader, decode: Reader, build: Builder, files: seq<SchemaFile>,
                 blocks: seq<Block>, sources: map<string, string>): Option<seq<Definitions>>
  {
    if !build([base]) then None
    else if files == [] && blocks == [] then Some([base])
    else
      var site := ReadAll(base, read, build, files);
      if site.None? || exists b :: b in blocks && !Located(b, sources) then None
      else
        var local := DecodeAll(base, site.value, decode, build, BlockFiles(blocks, sources));
        if local.None? || !build([base, site.value, local.value]) then None
        else Some([base, site.value, local.value])
  }

  /** directorySchema: it succeeds exactly when every step does, and then the additions, in
      order, are exactly what was put on top of the standard schema, kind by kind. */
  method DirectorySchema(base: Definitions, read: Reader, decode: Reader, build: Builder, files: seq<SchemaFile>,
                         blocks: seq<Block>, sources: map<string, string>)
    returns (r: Option<Served>)
    requires Appends(read) && Appends(decode)
    ensures r.None? <==> Parts(base, read, decode, build, files, blocks, sources).None?
    ensures r.Some? ==>
              && Parts(base, read, decode, build, files, blocks, sources) == Some(r.value.parts)
              && build(r.value.parts)
              && |r.value.added| == |files| + |blocks| && InOrder(r.value.added, files, blocks)
              && (forall k: DefKind :: Flat(r.value.parts, k) == base[k] + Added(r.value.added, k))
              && AreOwners(r.value.owners, base, r.value.added)
  {
    if !build([base]) {
      return None;
    }
    if files == [] && blocks == [] {
      var owners := AddOwners(map[], base, Standard);
      FlatOne(base);
      return Some(Served([base], [], owners));
    }
    var first := ReadFiles(base, read, build, files, blocks);
    if first.None? {
      return None;
    }
    var (site, added0, owners0) := first.value;
    var fs := SchemaBlockFiles(blocks, sources);
    if fs.Failure? {
      return None;
    }
    assert fs.value == BlockFiles(blocks, sources);
    var second := DecodeBlocks(base, decode, build, files, blocks, fs.value, site, added0, owners0);
    if second.None? {
      return None;
    }
    var (local, added, owners) := second.value;
    if !build([base, site, local]) {
      return None;
    }
    FlatThree(base, site, local);
    r := Some(Served([base, site, local], added, owners));
  }

  lemma FlatOne(base: Definitions)
    ensures forall k: DefKind :: Flat([base], k) == base[k] + []
  {
    assert [base][..0] == [];
  }

  lemma FlatThree(base: Definitions, site: Definitions, local: Definitions)
    ensures forall k: DefKind :: Flat([base, site, local], k) == base[k] + (site[k] + local[k])
  {
    FlatOne(base);
    assert [base, site, local][..2] == [base, site] && [base, site][..1] == [base];
  }

  // ----- one owner -----

  /** In a schema that built, every OID and name is defined by one addition or by the
      standard schema, once, and that is who owns it. */
  lemma OneOwner(s: Served, base: Definitions, build: Builder, k: DefKind, i: nat, d: Def, key: string)
    requires RefusesTwice(build) && build(s.parts) && AreOwners(s.owners, base, s.added) && k > 0
    requires Flat(s.parts, k) == base[k] + Added(s.added, k)
    requires i < |s.added| && d in s.added[i].defs[k] && key in Keys(d)
    ensures Lookup(s.owners, k, key) == Some(s.added[i].origin)
    ensures !Defines(base[k], key) && forall j :: 0 <= j < |s.added| && j != i ==> !Defines(s.added[j].defs[k], key)
  {
    assert NothingTwice(base[k] + Added(s.added, k));
    OnlyHere(base[k], s.added, k, i, d, key);
    LastOwns(base, s.added, k, i, key);
  }

  lemma {:induction false} InAdded(added: seq<Addition>, k: DefKind, i: nat, d: Def) returns (at: nat)
    requires i < |added| && d in added[i].defs[k]
    ensures at < |Added(added, k)| && Added(added, k)[at] == d
    ensures |Added(added[..i], k)| <= at < |Added(added[..i + 1], k)| <= |Added(added, k)|
  {
    if i == |added| - 1 {
      var n :| 0 <= n < |added[i].defs[k]| && added[i].defs[k][n] == d;
      at := |Added(added[..i], k)| + n;
      assert added[..i + 1] == added;
    } else {
      var front := added[..|added| - 1];
      at := InAdded(front, k, i, d);
      assert front[..i] == added[..i] && front[..i + 1] == added[..i + 1];
    }
  }

  lemma {:induction false} AddedGrows(added: seq<Addition>, k: DefKind, i: nat, j: nat)
    requires i <= j <= |added|
    ensures |Added(added[..i], k)| <= |Added(added[..j], k)|
    decreases j - i
  {
    if i < j {
      AddedGrows(added, k, i, j - 1);
      assert added[..j][..j - 1] == added[..j - 1];
    }
  }

  lemma NotInBase(base: seq<Def>, rest: seq<Def>, at: nat, key: string)
    requires NothingTwice(base + rest) && at < |rest| && key in Keys(rest[at])
    ensures !Defines(base, key)
  {
    var all := base + rest;
    assert all[|base| + at] == rest[at];
    forall e | e in base
      ensures key !in Keys(e)
    {
      var n :| 0 <= n < |base| && base[n] == e;
      assert all[n] == e;
    }
  }

  lemma ApartRest(base: seq<Def>, rest: seq<Def>)
    requires NothingTwice(base + rest)
    ensures NothingTwice(rest)
  {
    forall i, j | 0 <= i < j < |rest|
      ensures Keys(rest[i]) !! Keys(rest[j])
    {
      assert (base + rest)[|base| + i] == rest[i] && (base + rest)[|base| + j] == rest[j];
    }
  }

  lemma NotElsewhere(added: seq<Addition>, k: DefKind, i: nat, at: nat, key: string, j: nat, e: Def)
    requires NothingTwice(Added(added, k)) && i < |added| && |Added(added[..i], k)| <= at < |Added(added[..i + 1], k)|
    requires at < |Added(added, k)| && key in Keys(Added(added, k)[at])
    requires j < |added| && j != i && e in added[j].defs[k]
    ensures key !in Keys(e)
  {
    var n := InAdded(added, k, j, e);
    if j < i {
      AddedGrows(added, k, j + 1, i);
    } else {
      AddedGrows(added, k, i + 1, j);
    }
  }

  lemma OnlyHere(base: seq<Def>, added: seq<Addition>, k: DefKind, i: nat, d: Def, key: string)
    requires NothingTwice(base + Added(added, k)) && i < |added| && d in added[i].defs[k] && key in Keys(d)
    ensures !Defines(base, key) && forall j :: 0 <= j < |added| && j != i ==> !Defines(added[j].defs[k], key)
  {
    var at := InAdded(added, k, i, d);
    NotInBase(base, Added(added, k), at, key);
    ApartRest(base, Added(added, k));
    forall j, e | 0 <= j < |added| && j != i && e in added[j].defs[k]
      ensures key !in Keys(e)
    {
      NotElsewhere(added, k, i, at, key, j, e);
    }
  }

  lemma {:induction false} LastOwns(base: Definitions, added: seq<Addition>, k: DefKind, i: nat, key: string)
    requires i < |added| && Defines(added[i].defs[k], key)
    requires forall j :: 0 <= j < |added| && j != i ==> !Defines(added[j].defs[k], key)
    ensures OwnerOf(base, added, k, key) == Some(added[i].origin)
  {
    if i < |added| - 1 {
      LastOwns(base, added[..|added| - 1], k, i, key);
    }
  }
}
