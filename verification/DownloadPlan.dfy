/** How the range downloader cuts the requested range into chunks. */
module DownloadPlan {

  /** The size sendChunkTask computes for chunk `i` of a range of `length` bytes. */
  function ChunkSize(i: nat, length: nat, part: nat): nat
    requires part > 0
  {
    var first, half := length % part, part / 2;
    if i == 0 && first > 0 then (if first < half then half else first)
    else if i == 1 && 0 < first < half then part + first - half
    else part
  }

  /** Where chunk `i` starts, relative to the start of the range. */
  function Offset(i: nat, length: nat, part: nat): nat
    requires part > 0
  {
    if i == 0 then 0 else Offset(i - 1, length, part) + ChunkSize(i - 1, length, part)
  }

  /** The number of chunks download() announces. */
  function MaxPart(length: nat, part: nat): nat
    requires part > 0
  {
    if length > part then (length + part - 1) / part else 1
  }

  /** From the third chunk on, `i` chunks cover `i` parts, less what the first part lacks. */
  lemma {:induction false} OffsetIs(i: nat, length: nat, part: nat)
    requires part > 0 && i >= 2
    ensures Offset(i, length, part) ==
            if length % part == 0 then part * i else part * (i - 1) + length % part
  {
    var first, half := length % part, part / 2;
    if i == 2 {
      assert Offset(2, length, part) == ChunkSize(0, length, part) + ChunkSize(1, length, part) by {
        assert Offset(1, length, part) == ChunkSize(0, length, part);
      }
    } else {
      OffsetIs(i - 1, length, part);
      OneMore(i, part);
      assert ChunkSize(i - 1, length, part) == part;
    }
  }

  lemma OneMore(i: nat, part: nat)
    ensures part * (i - 1) + part == part * i && part * (i - 2) + part == part * (i - 1)
  {
  }

  lemma MaxPartIs(length: nat, part: nat)
    requires 0 < part < length
    ensures MaxPart(length, part) == length / part + if length % part == 0 then 0 else 1
    ensures MaxPart(length, part) >= 2
  {
    var q, r := length / part, length % part;
    assert length == part * q + r;
    if r == 0 {
      DivUnique(length + part - 1, part, q, part - 1);
    } else {
      DivUnique(length + part - 1, part, q + 1, r - 1);
    }
    TimesGrows(q, 1, part);
    TimesGrows(q, 0, part);
  }

  lemma DivUnique(n: nat, d: nat, q: nat, r: nat)
    requires d > 0 && r < d && n == d * q + r
    ensures n / d == q
  {
    var q', r' := n / d, n % d;
    assert n == d * q' + r';
    TimesGrows(q + 1, q', d);
    TimesGrows(q' + 1, q, d);
  }

  lemma TimesGrows(a: int, b: int, d: nat)
    ensures a <= b ==> d * a <= d * b
  {
  }

  /** The chunks are MaxPart many, none is empty or larger than a part, and they end exactly
      at the end of the range. */
  lemma ChunksTile(length: nat, part: nat)
    requires 0 < part < length
    ensures Offset(MaxPart(length, part), length, part) == length
    ensures forall i: nat :: 1 <= ChunkSize(i, length, part) <= part
  {
    MaxPartIs(length, part);
    OffsetIs(MaxPart(length, part), length, part);
  }

  /** The first chunk takes what does not fill a part, but at least half a part, and the second one
      makes up for it. */
  lemma FirstChunks(length: nat, part: nat)
    requires part > 0
    ensures length % part > 0 && 2 * (length % part) >= part ==> ChunkSize(0, length, part) == length % part
    ensures part / 2 <= ChunkSize(0, length, part) <= part
    ensures ChunkSize(0, length, part) > length % part ==> ChunkSize(0, length, part) == part / 2 || length % part == 0
    ensures ChunkSize(0, length, part) + ChunkSize(1, length, part) ==
            if length % part == 0 then part + part else part + length % part
  {
  }

  /** Offsets strictly increase, so a position below the end means a chunk is still missing. */
  lemma {:induction false} OffsetGrows(i: nat, j: nat, length: nat, part: nat)
    requires 0 < part < length && i <= j
    ensures Offset(i, length, part) + (j - i) <= Offset(j, length, part)
    decreases j - i
  {
    if i < j {
      ChunksTile(length, part);
      OffsetGrows(i, j - 1, length, part);
    }
  }

  /** sendChunkTask's test for the end of the range counts chunks. */
  lemma SendsExactlyMaxPart(i: nat, length: nat, part: nat)
    requires 0 < part < length
    ensures Offset(i, length, part) < length <==> i < MaxPart(length, part)
  {
    var n := MaxPart(length, part);
    ChunksTile(length, part);
    if i < n { OffsetGrows(i, n, length, part); } else { OffsetGrows(n, i, length, part); }
  }
}
