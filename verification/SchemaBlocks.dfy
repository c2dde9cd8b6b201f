/** Schema blocks (siteschema.go): each is decoded as a file of its own, the bytes before it
    blanked so that nothing of it moves. Text is bytes. */
module SchemaBlocks {
  import opened Wrappers

  /** Where the parser found a block's body. */
  datatype Range = Range(file: string, start: int, end: int)

  datatype Block = Block(native: bool, range: Range)

  datatype File = File(name: string, data: string)

  /** The text is where the parser said. */
  predicate Located(b: Block, sources: map<string, string>) {
    && b.native && b.range.file in sources
    && 0 <= b.range.start < b.range.end <= |sources[b.range.file]|
  }

  /** What of the source is handed on: the body without its braces, if it has them. */
  function Inner(src: string, r: Range): (int, int)
    requires 0 <= r.start < r.end <= |src|
  {
    if src[r.start] == '{' && src[r.end - 1] == '}' then (r.start + 1, r.end - 1) else (r.start, r.end)
  }

  function BlankByte(c: char): char {
    if c == '\n' then '\n' else ' '
  }

  /** data is src up to end, blank before start. */
  predicate IsBlanked(src: string, start: nat, end: nat, data: string) {
    && start <= end == |data| <= |src|
    && (forall i :: 0 <= i < start ==> data[i] == BlankByte(src[i]))
    && (forall i :: start <= i < end ==> data[i] == src[i])
  }

  // ----- positions -----

  /** How many line breaks there are before an offset. */
  function Line(s: string, i: nat): nat
    requires i <= |s|
  {
    if i == 0 then 0 else Line(s, i - 1) + if s[i - 1] == '\n' then 1 else 0
  }

  /** How many bytes there are since the last line break. */
  function Column(s: string, i: nat): nat
    requires i <= |s|
  {
    if i == 0 || s[i - 1] == '\n' then 0 else Column(s, i - 1) + 1
  }

  /** Every byte of a block keeps its offset, its line and its byte column. */
  lemma {:induction false} PositionsKept(src: string, start: nat, end: nat, data: string, i: nat)
    requires IsBlanked(src, start, end, data) && i <= end
    ensures Line(data, i) == Line(src, i) && Column(data, i) == Column(src, i)
    ensures start <= i < end ==> data[i] == src[i]
  {
    if i > 0 {
      PositionsKept(src, start, end, data, i - 1);
    }
  }

  /** Nothing but the block's own text is handed on. */
  lemma NothingElseHandedOn(src: string, start: nat, end: nat, data: string)
    requires IsBlanked(src, start, end, data)
    ensures |data| == end && forall i :: 0 <= i < start ==> data[i] == ' ' || data[i] == '\n'
    ensures data[start..] == src[start..end]
  {
  }

  // ----- as it runs -----

  method BlankBefore(src: string, start: nat, end: nat) returns (data: array<char>)
    requires start <= end <= |src|
    ensures fresh(data) && IsBlanked(src, start, end, data[..])
  {
    data := new char[end];
    for i := 0 to start
      invariant forall j :: 0 <= j < i ==> data[j] == BlankByte(src[j])
    {
      if src[i] == '\n' {
        data[i] := '\n';
      } else {
        data[i] := ' ';
      }
    }
    for i := start to end
      invariant forall j :: 0 <= j < start ==> data[j] == BlankByte(src[j])
      invariant forall j :: start <= j < i ==> data[j] == src[j]
    {
      data[i] := src[i];
    }
  }

  function Blanked(src: string, start: nat, end: nat): (data: string)
    requires start <= end <= |src|
    ensures IsBlanked(src, start, end, data)
  {
    seq(end, i requires 0 <= i < end => if i < start then BlankByte(src[i]) else src[i])
  }

  /** The one file a block is. */
  function FileOf(b: Block, sources: map<string, string>): (f: File)
    requires Located(b, sources)
    ensures IsFileOf(f, b, sources)
  {
    var src := sources[b.range.file];
    File(b.range.file, Blanked(src, Inner(src, b.range).0, Inner(src, b.range).1))
  }

  predicate IsFileOf(f: File, b: Block, sources: map<string, string>)
    requires Located(b, sources)
  {
    var src := sources[b.range.file];
    var (start, end) := Inner(src, b.range);
    f.name == b.range.file && IsBlanked(src, start, end, f.data)
  }

  /** schemaBlockFiles: one file for each block, or a refusal for the first block that is
      not where it should be. */
  method SchemaBlockFiles(blocks: seq<Block>, sources: map<string, string>) returns (r: Result<seq<File>, Block>)
    ensures r.Success? <==> forall b :: b in blocks ==>
              && b.native && b.range.file in sources
              && 0 <= b.range.start < b.range.end <= |sources[b.range.file]|
    ensures r.Success? ==> |r.value| == |blocks| && forall i :: 0 <= i < |blocks| ==>
              Located(blocks[i], sources) && r.value[i] == FileOf(blocks[i], sources)
    ensures r.Failure? ==> r.error in blocks && !Located(r.error, sources)
  {
    var out: seq<File> := [];
    for i := 0 to |blocks|
      invariant |out| == i
      invariant forall j :: 0 <= j < i ==> Located(blocks[j], sources) && out[j] == FileOf(blocks[j], sources)
    {
      var b := blocks[i];
      assert b in blocks;
      if !b.native || b.range.file !in sources {
        return Failure(b);
      }
      var src := sources[b.range.file];
      if b.range.start < 0 || b.range.end > |src| || b.range.start >= b.range.end {
        return Failure(b);
      }
      var start, end := b.range.start, b.range.end;
      if src[start] == '{' && src[end - 1] == '}' {
        start, end := start + 1, end - 1;
      }
      var data := BlankBefore(src, start, end);
      assert data[..] == Blanked(src, start, end);
      out := out + [File(b.range.file, data[..])];
    }
    r := Success(out);
  }

  /** Of a body in braces neither brace is handed on, and of one without them all of it is. */
  lemma BracesAreNotHandedOn(b: Block, sources: map<string, string>)
    requires Located(b, sources)
    ensures var src, data, start, end := sources[b.range.file], FileOf(b, sources).data, b.range.start, b.range.end;
            if src[start] == '{' && src[end - 1] == '}' then
              && |data| == end - 1 && (start + 1 < end ==> data[start] == ' ')
              && (start + 1 < end ==> data[start + 1..] == src[start + 1..end - 1])
            else |data| == end && data[start..] == src[start..end]
  {
    var src := sources[b.range.file];
    NothingElseHandedOn(src, Inner(src, b.range).0, Inner(src, b.range).1, FileOf(b, sources).data);
  }

  /** Every byte handed to the decoder is the configuration file's own, at its own place. */
  lemma BlocksKeepTheirPlace(f: File, b: Block, sources: map<string, string>, i: nat)
    requires Located(b, sources) && IsFileOf(f, b, sources) && i < |f.data|
    ensures var src := sources[b.range.file];
            && i < |src| && Line(f.data, i) == Line(src, i) && Column(f.data, i) == Column(src, i)
            && (Inner(src, b.range).0 <= i ==> f.data[i] == src[i])
            && (i < Inner(src, b.range).0 ==> f.data[i] == ' ' || f.data[i] == '\n')
  {
    var src := sources[b.range.file];
    PositionsKept(src, Inner(src, b.range).0, Inner(src, b.range).1, f.data, i);
  }
}
