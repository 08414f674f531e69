/** How an upload cuts a file into parts (drivers/115/util.go). */
module FileSplit {
  import opened Basics

  const KB := 1024
  const GB := 1024 * 1024 * 1024
  const MAX_PARTS := 10000
  const MIN_PART := 100 * KB

  /** `number` counts from one. */
  datatype FileChunk = FileChunk(number: int, offset: int, size: int)

  datatype SplitError = ChunkNumInvalid | ChunkNumTooBig | ChunkSizeInvalid | TooManyParts

  type SplitResult = Result<seq<FileChunk>, SplitError>

  /** Integer division and remainder of the source, which round toward zero. */
  function Quot(a: int, b: int): int
    requires b > 0
  {
    if a >= 0 then a / b else -(-a / b)
  }

  function Rem(a: int, b: int): int
    requires b > 0
  {
    a - Quot(a, b) * b
  }

  /** Where chunk `i` has to start: right after the chunks before it. */
  function End(chunks: seq<FileChunk>): int {
    if chunks == [] then 0 else chunks[|chunks| - 1].offset + chunks[|chunks| - 1].size
  }

  /** Non-empty chunks numbered from one that follow each other from offset 0. */
  predicate Contiguous(chunks: seq<FileChunk>) {
    forall i :: 0 <= i < |chunks| ==>
      chunks[i].number == i + 1 && chunks[i].size > 0 && chunks[i].offset == End(chunks[..i])
  }

  /** The chunks cover the file exactly once, in order. */
  predicate Tiles(chunks: seq<FileChunk>, fileSize: int) {
    Contiguous(chunks) && End(chunks) == fileSize
  }

  lemma ContiguousAdd(chunks: seq<FileChunk>, c: FileChunk)
    requires Contiguous(chunks) && c == FileChunk(|chunks| + 1, End(chunks), c.size) && c.size > 0
    ensures Contiguous(chunks + [c]) && End(chunks + [c]) == c.offset + c.size
  {
    forall i | 0 <= i < |chunks| + 1 ensures (chunks + [c])[..i] == chunks[..i] {
    }
    assert chunks[..|chunks|] == chunks;
  }

  method SplitFileByPartNum(fileSize: int, chunkNum: int) returns (r: SplitResult)
    ensures r.Ok? <==> 0 < chunkNum <= MAX_PARTS && chunkNum <= fileSize
    ensures r.Ok? ==> |r.value| == chunkNum && Tiles(r.value, fileSize)
    ensures r.Ok? ==> forall i :: 0 <= i < chunkNum - 1 ==> r.value[i].size == fileSize / chunkNum
    ensures r.Ok? ==> r.value[chunkNum - 1].size == fileSize / chunkNum + fileSize % chunkNum
  {
    if chunkNum <= 0 || chunkNum > 10000 { return Err(ChunkNumInvalid); }
    if chunkNum > fileSize { return Err(ChunkNumTooBig); }
    var chunks: seq<FileChunk> := [];
    var size := Quot(fileSize, chunkNum);
    PositiveQuot(fileSize, chunkNum);
    for i := 0 to chunkNum
      invariant |chunks| == i && Contiguous(chunks)
      invariant End(chunks) == if i < chunkNum then i * size else fileSize
      invariant forall j :: 0 <= j < i ==>
        chunks[j].size == if j < chunkNum - 1 then size else size + fileSize % chunkNum
    {
      var n := if i == chunkNum - 1 then size + Rem(fileSize, chunkNum) else size;
      ContiguousAdd(chunks, FileChunk(i + 1, i * size, n));
      StepTimes(i, size);
      chunks := chunks + [FileChunk(i + 1, i * size, n)];
    }
    return Ok(chunks);
  }

  lemma PositiveQuot(a: int, b: int)
    requires 0 < b <= a
    ensures Quot(a, b) == a / b >= 1 && Rem(a, b) == a % b
    ensures (b - 1) * (a / b) + (a / b + a % b) == a
  {
  }

  lemma StepTimes(i: int, n: int)
    ensures i * n + n == (i + 1) * n
  {
  }

  method SplitFileByPartSize(fileSize: int, chunkSize: int) returns (r: SplitResult)
    ensures r.Ok? <==> chunkSize > 0 && Quot(fileSize, chunkSize) < MAX_PARTS
    ensures r.Ok? && fileSize <= 0 ==> r.value == []
    ensures r.Ok? && fileSize > 0 ==> 1 <= |r.value| <= MAX_PARTS && Tiles(r.value, fileSize)
    ensures r.Ok? ==> forall i :: 0 <= i < |r.value| - 1 ==> r.value[i].size == chunkSize
  {
    if chunkSize <= 0 { return Err(ChunkSizeInvalid); }
    var chunkN := Quot(fileSize, chunkSize);
    if chunkN >= 10000 { return Err(TooManyParts); }
    var chunks: seq<FileChunk> := [];
    var i := 0;
    while i < chunkN
      invariant |chunks| == i && (i <= chunkN || i == 0) && Contiguous(chunks) && End(chunks) == i * chunkSize
      invariant forall j :: 0 <= j < i ==> chunks[j].size == chunkSize
    {
      ContiguousAdd(chunks, FileChunk(i + 1, i * chunkSize, chunkSize));
      StepTimes(i, chunkSize);
      chunks := chunks + [FileChunk(i + 1, i * chunkSize, chunkSize)];
      i := i + 1;
    }
    QuotSign(fileSize, chunkSize);
    if Rem(fileSize, chunkSize) > 0 {
      ContiguousAdd(chunks, FileChunk(|chunks| + 1, |chunks| * chunkSize, Rem(fileSize, chunkSize)));
      chunks := chunks + [FileChunk(|chunks| + 1, |chunks| * chunkSize, Rem(fileSize, chunkSize))];
    }
    return Ok(chunks);
  }

  lemma QuotSign(a: int, b: int)
    requires b > 0
    ensures a >= 0 ==> Quot(a, b) >= 0 && Rem(a, b) >= 0
    ensures a <= 0 ==> Quot(a, b) <= 0 && Rem(a, b) <= 0
    ensures a > 0 ==> Quot(a, b) > 0 || Rem(a, b) > 0
    ensures Quot(a, b) * b + Rem(a, b) == a
  {
    var m := if a >= 0 then a else -a;
    DivParts(m, b);
    assert Quot(a, b) * b == if a >= 0 then (m / b) * b else -((m / b) * b);
  }

  lemma DivParts(m: nat, b: int)
    requires b > 0
    ensures m / b >= 0 && m == (m / b) * b + m % b && 0 <= m % b
  {
  }

  /** A file of less than a thousand bytes is refused; any other is cut into at most ten
      thousand parts, and no part but the last is below 100 KB. */
  method SplitFile(fileSize: int) returns (r: SplitResult)
    ensures r.Ok? <==> fileSize >= 1000
    ensures r.Ok? ==> 1 <= |r.value| <= MAX_PARTS && Tiles(r.value, fileSize)
    ensures r.Ok? ==> forall i :: 0 <= i < |r.value| - 1 ==> r.value[i].size >= MIN_PART
  {
    var chunkNum := 10000;
    var i := 1;
    while i < 10
      invariant 1 <= i <= 10 && chunkNum == 10000
      invariant i > 1 ==> fileSize >= (i - 1) * GB
    {
      if fileSize < i * GB {
        chunkNum := i * 1000;
        break;
      }
      i := i + 1;
    }
    BigParts(fileSize, i);
    r := SplitFileByPartNum(fileSize, chunkNum);
    if r.Err? { return; }
    if r.value[0].size < 100 * KB {
      r := SplitFileByPartSize(fileSize, 100 * KB);
    }
  }

  /** From one gigabyte on, the part count leaves every part above 100 KB. */
  lemma BigParts(fileSize: int, i: int)
    requires 1 <= i <= 10 && (i > 1 ==> fileSize >= (i - 1) * GB) && (i < 10 ==> fileSize < i * GB)
    ensures i > 1 ==> fileSize / (i * 1000) >= MIN_PART
    ensures i == 1 && fileSize >= 1000 && fileSize / 1000 < MIN_PART ==> Quot(fileSize, MIN_PART) < MAX_PARTS
  {
  }
}
