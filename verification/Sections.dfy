/** Pieces of a one-shot stream that are handed out one after the other and held at the same
    time, in recycled buffers (internal/stream/util.go), and the loop that uploads a file part
    by part (drivers/aliyundrive_open/upload.go). */
module Sections {
  import opened Basics
  import opened Buffers
  import opened Streams

  const MB := 1024 * 1024
  const GB := 1024 * MB
  const TB := 1024 * GB

  function PartSize(fileSize: nat): nat {
    if fileSize <= 20 * MB then 20 * MB
    else if fileSize > 1 * TB then 5 * GB
    else if fileSize > 768 * GB then 109951163
    else if fileSize > 512 * GB then 82463373
    else if fileSize > 384 * GB then 54975582
    else if fileSize > 256 * GB then 41231687
    else if fileSize > 128 * GB then 27487791
    else 20 * MB
  }

  /** The number of parts announced for a file: the size in parts, rounded up. */
  function PartCount(fileSize: nat): nat {
    (fileSize + PartSize(fileSize) - 1) / PartSize(fileSize)
  }

  /** The part size keeps the number of parts within ten thousand up to 10000 x 5 GB, and for
      no larger file. */
  lemma AtMostTenThousandParts(fileSize: nat)
    ensures PartCount(fileSize) <= 10000 <==> fileSize <= 10000 * (5 * GB)
  {
  }

  /** The parts before the last are full, and the last is what remains. */
  lemma PartsCover(fileSize: nat)
    ensures var n, p := PartCount(fileSize), PartSize(fileSize);
      && p > 0 && (fileSize == 0 <==> n == 0)
      && (n > 0 ==> (n - 1) * p < fileSize <= n * p)
  {
    var p := PartSize(fileSize);
    var q, r := (fileSize + p - 1) / p, (fileSize + p - 1) % p;
    assert fileSize + p - 1 == p * q + r;
    assert p * q == q * p;
    assert q > 0 ==> (q - 1) * p == q * p - p;
    if q == 0 { assert fileSize == 0; }
  }

  /** getProofRange: eight bytes from `hash` modulo the size on, cut at the end. */
  function ProofRange(hash: nat, size: nat): (nat, nat) {
    if size == 0 then (0, 0)
    else (hash % size, if hash % size + 8 >= size then size else hash % size + 8)
  }

  lemma ProofRangeInside(hash: nat, size: nat)
    ensures var (s, e) := ProofRange(hash, size);
      && s <= e <= size && e <= s + 8
      && (size > 0 ==> s < size && exists k: nat :: k * size + s == hash)
      && (size > 0 ==> s < e) && (e < s + 8 ==> e == size)
  {
    if size > 0 { assert (hash / size) * size + hash % size == hash; }
  }

  // ---------------------------------------------------------------- sections in a temporary file

  /** The file after writing `p` at `base`; a gap before it is filled with zeros. */
  function Overwrite(f: seq<Byte>, base: nat, p: seq<Byte>): seq<Byte> {
    var g := if |f| < base then f + seq(base - |f|, _ => 0) else f;
    g[..base] + p + if base + |p| < |g| then g[base + |p|..] else []
  }

  /** The slots do not overlap. */
  predicate Apart(a: nat, b: nat, size: nat) {
    a + size <= b || b + size <= a
  }

  lemma OverwriteApart(f: seq<Byte>, base: nat, p: seq<Byte>, b: nat, n: nat, size: nat)
    requires |p| <= size && n <= size && b + n <= |f| && Apart(base, b, size)
    ensures var g := Overwrite(f, base, p); b + n <= |g| && g[b..b + n] == f[b..b + n]
  {
  }

  lemma OverwriteThere(f: seq<Byte>, base: nat, p: seq<Byte>)
    ensures var g := Overwrite(f, base, p); base + |p| <= |g| && g[base..base + |p|] == p
  {
  }

  /** Writing `p` at `base` leaves `n` bytes at `b` alone. */
  ghost predicate Spares(f: seq<Byte>, base: nat, p: seq<Byte>, b: nat, n: nat) {
    b + n <= |f| ==> var g := Overwrite(f, base, p); b + n <= |g| && g[b..b + n] == f[b..b + n]
  }

  /** GetSectionReader does not compare a section's length with the slot size: a longer section
      runs into the next slot, and exactly the sections that fit spare all others. */
  lemma FittingSectionsSpare(size: nat, length: nat)
    requires size > 0
    ensures length <= size <==>
            forall f, base: nat, p, b: nat, n: nat :: |p| == length && n <= size && Apart(base, b, size) ==>
              Spares(f, base, p, b, n)
  {
    if length <= size {
      forall f, base: nat, p, b: nat, n: nat | |p| == length && n <= size && Apart(base, b, size)
        ensures Spares(f, base, p, b, n)
      {
        if b + n <= |f| { OverwriteApart(f, base, p, b, n, size); }
      }
    } else {
      LongSectionSpoils(size, length);
    }
  }

  lemma LongSectionSpoils(size: nat, length: nat)
    requires 0 < size < length
    ensures Apart(0, size, size) && !Spares(seq(size + 1, _ => 0), 0, seq(length, _ => 1), size, 1)
  {
    var f: seq<Byte>, p: seq<Byte> := seq(size + 1, _ => 0), seq(length, _ => 1);
    assert Overwrite(f, 0, p)[size..size + 1][0] == 1 && f[size..size + 1][0] == 0;
  }

  /** A section that was handed out: `length` bytes of the slot at `base`. */
  datatype Section = Section(base: nat, length: nat)

  class FileSections {
    const src: Source
    const maxBufferSize: nat
    var fileOffset: nat
    var temp: seq<Byte>
    var tempOffset: nat
    /** The pool of slots that are free again. */
    var free: seq<nat>
    /** The slots in use, with the place in the stream they hold. */
    ghost var held: map<nat, (nat, nat)>

    ghost predicate Valid()
      reads this, src
    {
      Placed() && AllHold(temp, src.content, held, maxBufferSize)
    }

    ghost predicate Placed()
      reads this, src
    {
      fileOffset == src.pos <= |src.content| && Slots(free, held.Keys, tempOffset, maxBufferSize)
    }

    static ghost predicate AllHold(temp: seq<Byte>, content: seq<Byte>, held: map<nat, (nat, nat)>, size: nat) {
      forall b :: b in held ==> HoldsSlot(temp, content, b, held[b], size)
    }

    static ghost predicate Slots(free: seq<nat>, used: set<nat>, end: nat, size: nat) {
      && (forall i :: 0 <= i < |free| ==> free[i] !in used && free[i] + size <= end)
      && (forall b :: b in used ==> b + size <= end)
      && (forall i, j :: 0 <= i < j < |free| ==> free[i] != free[j] && Apart(free[i], free[j], size))
      && (forall i, b :: 0 <= i < |free| && b in used ==> Apart(free[i], b, size))
      && (forall a, b :: a in used && b in used && a != b ==> Apart(a, b, size))
    }

    static ghost predicate HoldsSlot(temp: seq<Byte>, content: seq<Byte>, b: nat, h: (nat, nat), size: nat) {
      && h.1 <= size && h.0 + h.1 <= |content| && b + h.1 <= |temp|
      && temp[b..b + h.1] == content[h.0..h.0 + h.1]
    }

    constructor (src: Source, maxBufferSize: nat)
      requires src.pos == 0 && maxBufferSize > 0
      ensures Valid() && held == map[] && fileOffset == 0 && this.src == src && this.maxBufferSize == maxBufferSize
    {
      this.src, this.maxBufferSize, fileOffset, temp, tempOffset, free := src, maxBufferSize, 0, [], 0, [];
      held := map[];
    }

    /** bufPool.Get: the slot that was freed last, or a new one at the end. */
    method GetSlot() returns (base: nat)
      requires Valid() && maxBufferSize > 0
      modifies `free, `tempOffset
      ensures Valid() && base !in held && Slots(free, held.Keys + {base}, tempOffset, maxBufferSize)
    {
      hide AllHold;
      if |free| > 0 {
        base := free[|free| - 1];
        free := free[..|free| - 1];
      } else {
        base := tempOffset;
        tempOffset := tempOffset + maxBufferSize;
      }
    }

    /** GetSectionReader: the next `length` bytes of the stream, in a slot of their own. What
        other sections hold does not change when they fit in the slot. */
    method GetSectionReader(off: nat, length: nat) returns (r: Option<Section>)
      requires Valid() && 0 < maxBufferSize
      modifies this, src
      ensures Placed() && fileOffset >= old(fileOffset) && (length <= maxBufferSize ==> Valid())
      ensures r.Some? ==>
        && off == old(fileOffset) && fileOffset == off + length && r.value.length == length
        && r.value.base !in old(held) && held == old(held)[r.value.base := (off, length)]
        && temp == Overwrite(old(temp), r.value.base, src.content[off..off + length])
        && temp[r.value.base..r.value.base + length] == src.content[off..off + length]
      ensures r.None? ==> held == old(held)
      ensures src.faults >= old(src.faults)
      ensures src.faults == old(src.faults) ==> (r.Some? <==> off == old(fileOffset) && off + length <= |src.content|)
    {
      if off != fileOffset { return None; }
      hide Slots, AllHold, Overwrite;
      var base := GetSlot();
      r := FillSlot(base, off, length);
    }

    /** The rest of GetSectionReader, with a slot of nobody's. */
    method FillSlot(base: nat, off: nat, length: nat) returns (r: Option<Section>)
      requires fileOffset == src.pos == off <= |src.content| && base !in held
      requires Slots(free, held.Keys + {base}, tempOffset, maxBufferSize)
      modifies `fileOffset, `temp, `held, src
      ensures Placed() && fileOffset >= off
      ensures length <= maxBufferSize && old(AllHold(temp, src.content, held, maxBufferSize)) ==> Valid()
      ensures r.Some? ==>
        && r.value == Section(base, length) && fileOffset == off + length && held == old(held)[base := (off, length)]
        && temp == Overwrite(old(temp), base, src.content[off..off + length])
        && temp[base..base + length] == src.content[off..off + length]
      ensures r.None? ==> held == old(held)
      ensures src.faults >= old(src.faults)
      ensures src.faults == old(src.faults) ==> (r.Some? <==> off + length <= |src.content|)
    {
      hide Slots, AllHold, Overwrite;
      ghost var was := temp;
      var n := Fill(base, length);
      HandOut(was, src.content, held, free, tempOffset, maxBufferSize, base, off, n);
      if n != length { return None; }
      held := held[base := (off, length)];
      return Some(Section(base, length));
    }

    /** CopyWithBufferN into a slot. */
    method Fill(base: nat, length: nat) returns (n: nat)
      requires fileOffset == src.pos <= |src.content|
      modifies `fileOffset, `temp, src
      ensures n <= length && fileOffset == src.pos == old(fileOffset) + n <= |src.content|
      ensures src.faults >= old(src.faults)
      ensures src.faults == old(src.faults) ==> n == Min(length, |src.content| - old(fileOffset))
      ensures temp == Overwrite(old(temp), base, src.content[old(fileOffset)..fileOffset])
    {
      var p := src.ReadFull(length, null);
      fileOffset := fileOffset + |p|;
      temp := Overwrite(temp, base, p);
      return |p|;
    }

    /** Writing a slot of one's own leaves the held ones alone. */
    static lemma WriteKeeps(temp: seq<Byte>, content: seq<Byte>, held: map<nat, (nat, nat)>, free: seq<nat>, end: nat,
                            size: nat, base: nat, p: seq<Byte>, off: nat)
      requires AllHold(temp, content, held, size) && Slots(free, held.Keys + {base}, end, size) && base !in held
      requires |p| <= size && off + |p| <= |content| && p == content[off..off + |p|]
      ensures AllHold(Overwrite(temp, base, p), content, held, size)
      ensures AllHold(Overwrite(temp, base, p), content, held[base := (off, |p|)], size)
    {
      forall b | b in held ensures HoldsSlot(Overwrite(temp, base, p), content, b, held[b], size) {
        OverwriteApart(temp, base, p, b, held[b].1, size);
      }
      OverwriteThere(temp, base, p);
    }

    static lemma SlotsFewer(free: seq<nat>, used: set<nat>, base: nat, end: nat, size: nat)
      requires Slots(free, used + {base}, end, size)
      ensures Slots(free, used, end, size)
    {
    }

    /** A filled slot, handed out or dropped. */
    static lemma HandOut(temp: seq<Byte>, content: seq<Byte>, held: map<nat, (nat, nat)>, free: seq<nat>, end: nat,
                         size: nat, base: nat, off: nat, n: nat)
      requires Slots(free, held.Keys + {base}, end, size) && base !in held && off + n <= |content|
      ensures Slots(free, held.Keys, end, size) && Slots(free, held[base := (off, n)].Keys, end, size)
      ensures n <= size && AllHold(temp, content, held, size) ==>
        var f := Overwrite(temp, base, content[off..off + n]);
        AllHold(f, content, held, size) && AllHold(f, content, held[base := (off, n)], size)
      ensures var f := Overwrite(temp, base, content[off..off + n]);
        base + n <= |f| && f[base..base + n] == content[off..off + n]
    {
      hide Slots, AllHold, Overwrite;
      OverwriteThere(temp, base, content[off..off + n]);
      SlotsFewer(free, held.Keys, base, end, size);
      assert held[base := (off, n)].Keys == held.Keys + {base};
      if n <= size && AllHold(temp, content, held, size) {
        WriteKeeps(temp, content, held, free, end, size, base, content[off..off + n], off);
      }
    }

    /** A section that is not freed yet still reads as its part of the stream. */
    method ReadSection(s: Section) returns (p: seq<Byte>)
      requires Valid() && s.base in held && held[s.base].1 == s.length
      ensures p == src.content[held[s.base].0..held[s.base].0 + s.length]
    {
      p := temp[s.base..s.base + s.length];
    }

    method FreeSectionReader(s: Section)
      requires Valid() && s.base in held
      modifies `free, `held
      ensures Valid() && held == old(held) - {s.base}
    {
      free := free + [s.base];
      held := held - {s.base};
    }

    /** DiscardSection: skip part of the stream. */
    method DiscardSection(off: nat, length: nat) returns (ok: bool)
      requires Valid()
      modifies `fileOffset, src
      ensures Valid() && held == old(held)
      ensures ok ==> off == old(fileOffset) && fileOffset == off + length
      ensures src.faults >= old(src.faults)
      ensures src.faults == old(src.faults) ==> (ok <==> off == old(fileOffset) && off + length <= |src.content|)
    {
      if off != fileOffset { return false; }
      var p := src.ReadFull(length, null);
      fileOffset := fileOffset + |p|;
      return |p| == length;
    }
  }

  // ---------------------------------------------------------------- sections in memory

  class DirectSections {
    const src: Source
    const maxBufferSize: nat
    var fileOffset: nat
    var pool: seq<array<Byte>>
    ghost var held: map<array<Byte>, (nat, nat)>

    ghost function Buffers(): set<array<Byte>>
      reads this
    {
      held.Keys + set i | 0 <= i < |pool| :: pool[i]
    }

    ghost predicate Valid()
      reads this, src, Buffers()
    {
      && fileOffset == src.pos <= |src.content|
      && (forall i :: 0 <= i < |pool| ==> pool[i].Length == maxBufferSize && pool[i] !in held)
      && (forall i, j :: 0 <= i < j < |pool| ==> pool[i] != pool[j])
      && (forall a :: a in held ==> HoldsArray(a, src.content, held[a], maxBufferSize))
    }

    static ghost predicate HoldsArray(a: array<Byte>, content: seq<Byte>, h: (nat, nat), size: nat)
      reads a
    {
      && a.Length == size && h.1 <= size && h.0 + h.1 <= |content|
      && a[..h.1] == content[h.0..h.0 + h.1]
    }

    constructor (src: Source, maxBufferSize: nat)
      requires src.pos == 0
      ensures Valid() && held == map[] && pool == [] && fileOffset == 0
      ensures this.src == src && this.maxBufferSize == maxBufferSize
    {
      this.src, this.maxBufferSize, fileOffset, pool := src, maxBufferSize, 0, [];
      held := map[];
    }

    /** The pool gives back the buffer that was freed last, or a new one. */
    method GetBuffer() returns (a: array<Byte>)
      requires Valid()
      modifies `pool
      ensures Valid() && Buffers() <= old(Buffers()) && held == old(held)
      ensures a.Length == maxBufferSize && a !in Buffers() && (a in old(Buffers()) || fresh(a))
    {
      if |pool| > 0 {
        a := pool[|pool| - 1];
        pool := pool[..|pool| - 1];
      } else {
        a := new Byte[maxBufferSize](_ => 0);
      }
    }

    method GetSectionReader(off: nat, length: nat) returns (r: array?<Byte>)
      requires Valid() && length <= maxBufferSize
      modifies this, src, Buffers()
      ensures Valid() && fresh(Buffers() - old(Buffers())) && fileOffset >= old(fileOffset)
      ensures r != null ==>
        && off == old(fileOffset) && fileOffset == off + length
        && r !in old(held) && held == old(held)[r := (off, length)]
      ensures r == null ==> held == old(held)
      ensures src.faults >= old(src.faults)
      ensures src.faults == old(src.faults) ==> (r != null <==> off == old(fileOffset) && off + length <= |src.content|)
      ensures forall a :: a in old(held) ==> a[..] == old(a[..])
    {
      if off != fileOffset { return null; }
      var buf := GetBuffer();
      var n := Fill(buf, length);
      if n != length { return null; }
      HandOut(buf, off, length);
      return buf;
    }

    /** A filled buffer of nobody's is in use from now on. */
    ghost method HandOut(buf: array<Byte>, off: nat, n: nat)
      requires Valid() && buf !in Buffers() && n <= buf.Length == maxBufferSize
      requires off + n <= |src.content| && buf[..n] == src.content[off..off + n]
      modifies `held
      ensures Valid() && held == old(held)[buf := (off, n)] && Buffers() == old(Buffers()) + {buf}
    {
      held := held[buf := (off, n)];
    }

    /** io.ReadFull into a buffer. */
    method Fill(buf: array<Byte>, length: nat) returns (n: nat)
      requires fileOffset == src.pos <= |src.content| && length <= buf.Length
      modifies `fileOffset, src, buf
      ensures n <= length && fileOffset == src.pos == old(fileOffset) + n <= |src.content|
      ensures src.faults >= old(src.faults)
      ensures src.faults == old(src.faults) ==> n == Min(length, |src.content| - old(fileOffset))
      ensures buf[..n] == src.content[old(fileOffset)..fileOffset]
    {
      var p := src.ReadFull(length, null);
      forall i | 0 <= i < |p| { buf[i] := p[i]; }
      fileOffset := fileOffset + |p|;
      return |p|;
    }

    /** A section that is not freed yet still reads as its part of the stream. */
    method ReadSection(a: array<Byte>, length: nat) returns (p: seq<Byte>)
      requires Valid() && a in held && held[a].1 == length
      ensures p == src.content[held[a].0..held[a].0 + length]
    {
      p := a[..length];
    }

    method FreeSectionReader(a: array<Byte>)
      requires Valid() && a in held
      modifies `pool, `held
      ensures Valid() && held == old(held) - {a} && Buffers() <= old(Buffers())
    {
      pool := pool + [a];
      held := held - {a};
    }

    /** DiscardSection: skip part of the stream. */
    method DiscardSection(off: nat, length: nat) returns (ok: bool)
      requires Valid()
      modifies `fileOffset, src
      ensures Valid() && held == old(held) && Buffers() == old(Buffers())
      ensures ok ==> off == old(fileOffset) && fileOffset == off + length
      ensures src.faults >= old(src.faults)
      ensures src.faults == old(src.faults) ==> (ok <==> off == old(fileOffset) && off + length <= |src.content|)
    {
      if off != fileOffset { return false; }
      var p := src.ReadFull(length, null);
      fileOffset := fileOffset + |p|;
      return |p| == length;
    }
  }

  // ---------------------------------------------------------------- the three section readers

  /** What NewStreamSectionReader returns: sections of a file the stream is cached in, of a
      temporary file, or in memory. */
  datatype SectionReader = InCache(cache: File) | InTemp(file: FileSections) | InMemory(memory: DirectSections)

  ghost function Objects(ss: SectionReader): set<object>
    reads if ss.InMemory? then {ss.memory} else {}
  {
    match ss
    case InCache(f) => FileStream.Pieces(f)
    case InTemp(f) => {f, f.src}
    case InMemory(m) => {m, m.src} + m.Buffers()
  }

  /** How many reads of the stream have failed. */
  ghost function Faults(ss: SectionReader): nat
    reads Objects(ss)
  {
    match ss
    case InCache(_) => 0
    case InTemp(f) => f.src.faults
    case InMemory(m) => m.src.faults
  }

  /** No section is handed out, and the next one starts at `at`. */
  ghost predicate Idle(ss: SectionReader, content: seq<Byte>, size: nat, at: nat)
    reads Objects(ss)
  {
    match ss
    case InCache(f) => FileStream.Reads(f, content)
    case InTemp(f) =>
      f.Valid() && f.held == map[] && f.src.content == content && f.maxBufferSize == size && f.fileOffset == at
    case InMemory(m) =>
      m.Valid() && m.held == map[] && m.src.content == content && m.maxBufferSize == size && m.fileOffset == at
  }

  /** NewStreamSectionReader; `reader` is what reading the stream delivers. A cached stream gives
      its file; slots above the memory limit go to a temporary file, or to a full cache when
      that file cannot be made; smaller ones stay in memory. */
  method NewStreamSectionReader(stream: FileStream, reader: Source, maxBufferSize: nat) returns (r: Option<SectionReader>)
    requires stream.Valid() && reader.content == stream.src.content && reader.pos == 0
    modifies stream, stream.src, stream.tee, stream.Parts()
    ensures var size := Min(maxBufferSize, stream.size);
      && (r.Some? ==> Idle(r.value, stream.src.content, size, 0))
      && (old(stream.GetFile()).Some? ==> r.Some? && r.value.InCache?)
      && (r.Some? && r.value.InTemp? ==> size > stream.maxBufferLimit)
      && (old(stream.GetFile()).None? && size <= stream.maxBufferLimit ==> r.Some? && r.value.InMemory?)
    ensures r.None? ==> stream.Faults() > old(stream.Faults())
  {
    var cache := stream.GetFile();
    if cache.Some? { return Some(InCache(cache.value)); }
    var size := Min(maxBufferSize, stream.size);
    if size > stream.maxBufferLimit {
      if * {
        stream.faults := stream.faults + 1;
        return None;
      }
      var truncated: bool := *;
      if !truncated {
        cache := stream.CacheFullAndWriter(null);
        return if cache.Some? then Some(InCache(cache.value)) else None;
      }
      var file := new FileSections(reader, size);
      return Some(InTemp(file));
    }
    var memory := new DirectSections(reader, size);
    return Some(InMemory(memory));
  }

  // ---------------------------------------------------------------- the upload loop

  method UploadFromTemp(ss: FileSections, offset: nat, length: nat, accepted: bool) returns (r: Option<seq<Byte>>)
    requires ss.Valid() && ss.held == map[] && 0 < length <= ss.maxBufferSize
    modifies ss, ss.src
    ensures r.Some? ==>
      && accepted && ss.Valid() && ss.held == map[] && offset == old(ss.fileOffset) && ss.fileOffset == offset + length
      && offset + length <= |ss.src.content| && r.value == ss.src.content[offset..offset + length]
    ensures ss.src.faults >= old(ss.src.faults)
    ensures ss.src.faults == old(ss.src.faults) ==>
      (r.Some? <==> accepted && offset == old(ss.fileOffset) && offset + length <= |ss.src.content|)
  {
    var rd := ss.GetSectionReader(offset, length);
    if rd.None? { return None; }
    assert ss.held[rd.value.base] == (offset, length);
    var p := ss.ReadSection(rd.value);
    ss.FreeSectionReader(rd.value);
    return if accepted then Some(p) else None;
  }

  method UploadFromMemory(ss: DirectSections, offset: nat, length: nat, accepted: bool) returns (r: Option<seq<Byte>>)
    requires ss.Valid() && ss.held == map[] && 0 < length <= ss.maxBufferSize
    modifies ss, ss.src, ss.Buffers()
    ensures fresh(ss.Buffers() - old(ss.Buffers()))
    ensures r.Some? ==>
      && accepted && ss.Valid() && ss.held == map[] && offset == old(ss.fileOffset) && ss.fileOffset == offset + length
      && offset + length <= |ss.src.content| && r.value == ss.src.content[offset..offset + length]
    ensures ss.src.faults >= old(ss.src.faults)
    ensures ss.src.faults == old(ss.src.faults) ==>
      (r.Some? <==> accepted && offset == old(ss.fileOffset) && offset + length <= |ss.src.content|)
  {
    var rd := ss.GetSectionReader(offset, length);
    if rd == null { return None; }
    assert ss.held[rd] == (offset, length);
    var p := ss.ReadSection(rd, length);
    ss.FreeSectionReader(rd);
    return if accepted then Some(p) else None;
  }

  /** One turn of the loop: a section, its upload, and its slot back to the pool. `accepted` says
      whether the object store takes the part in one of the attempts. */
  method UploadPart(ss: SectionReader, ghost content: seq<Byte>, ghost size: nat, offset: nat, length: nat, accepted: bool)
    returns (r: Option<seq<Byte>>)
    requires Idle(ss, content, size, offset) && 0 < length <= size && offset + length <= |content|
    modifies Objects(ss)
    ensures forall o :: o in Objects(ss) ==> o in old(Objects(ss)) || fresh(o)
    ensures r.Some? ==> accepted && Idle(ss, content, size, offset + length) && r.value == content[offset..offset + length]
    ensures Faults(ss) >= old(Faults(ss)) && (r.None? ==> !accepted || Faults(ss) > old(Faults(ss)))
  {
    match ss
    case InCache(f) =>
      var p := FileStream.ReadSection(f, offset, length, content);
      return if accepted then Some(p) else None;
    case InTemp(f) => r := UploadFromTemp(f, offset, length, accepted);
    case InMemory(m) => r := UploadFromMemory(m, offset, length, accepted);
  }

  lemma NextPart(i: nat, count: nat, partSize: nat, size: nat)
    requires i < count && (count - 1) * partSize < size <= count * partSize && partSize > 0
    ensures i * partSize < size && (i + 1) * partSize == i * partSize + partSize
    ensures i < count - 1 ==> (i + 1) * partSize < size
    ensures i == count - 1 ==> size <= (i + 1) * partSize
  {
    TimesOrder(i, count - 1, partSize);
    TimesOrder(i + 1, count - 1, partSize);
  }

  lemma TimesOrder(a: nat, b: nat, d: nat)
    ensures a <= b ==> a * d <= b * d
  {
  }

  /** The parts so far are the file's beginning, and full but for the last one of all. */
  ghost predicate Uploaded(content: seq<Byte>, parts: seq<seq<Byte>>, count: nat, partSize: nat) {
    && Flatten(parts) == content[..Min(|parts| * partSize, |content|)]
    && forall j :: 0 <= j < |parts| ==> 0 < |parts[j]| <= partSize && (j < count - 1 ==> |parts[j]| == partSize)
  }

  lemma PartAdded(content: seq<Byte>, parts: seq<seq<Byte>>, count: nat, partSize: nat)
    requires Uploaded(content, parts, count, partSize) && |parts| < count && partSize > 0
    requires (count - 1) * partSize < |content| <= count * partSize
    ensures var offset := |parts| * partSize;
      && offset < |content| && offset + partSize == (|parts| + 1) * partSize
      && (|parts| + 1 < count ==> offset + partSize < |content|)
      && Uploaded(content, parts + [content[offset..Min(offset + partSize, |content|)]], count, partSize)
  {
    hide Flatten;
    NextPart(|parts|, count, partSize, |content|);
    var offset := |parts| * partSize;
    var end := Min(offset + partSize, |content|);
    var p := content[offset..end];
    assert content[..offset] + p == content[..end];
    assert Flatten(parts + [p]) == Flatten(parts) + p by { OneMorePart(parts, p); }
  }

  lemma OneMorePart(parts: seq<seq<Byte>>, p: seq<Byte>)
    ensures Flatten(parts + [p]) == Flatten(parts) + p
  {
    assert (parts + [p])[..|parts|] == parts;
  }

  lemma AllUploaded(content: seq<Byte>, parts: seq<seq<Byte>>, count: nat, partSize: nat)
    requires Uploaded(content, parts, count, partSize) && |parts| == count && |content| <= count * partSize
    ensures Flatten(parts) == content
    ensures forall j :: 0 <= j < count ==> 0 < |parts[j]| <= partSize && (j < count - 1 ==> |parts[j]| == partSize)
  {
    hide Flatten;
  }

  /** The loop of upload: part after part, whichever section reader the stream got. The parts
      are full but for the last, and together they are the file. */
  method UploadParts(ss: SectionReader, ghost content: seq<Byte>, size: nat, count: nat, partSize: nat, accepted: seq<bool>)
    returns (ok: bool, parts: seq<seq<Byte>>)
    requires size == |content| && partSize == PartSize(size) && count == PartCount(size)
    requires Idle(ss, content, Min(partSize, size), 0) && |accepted| == count
    modifies Objects(ss)
    ensures !ok ==> Faults(ss) > old(Faults(ss)) || exists i :: 0 <= i < count && !accepted[i]
    ensures ok ==> (forall i :: 0 <= i < count ==> accepted[i]) && |parts| == count && Flatten(parts) == content
    ensures ok ==> forall i :: 0 <= i < count ==> 0 < |parts[i]| <= partSize && (i < count - 1 ==> |parts[i]| == partSize)
  {
    hide Flatten, PartSize, PartCount, Idle, Uploaded, Objects, Faults;
    PartsCover(size);
    var offset, length := 0, partSize;
    parts := [];
    assert Uploaded(content, parts, count, partSize) by { NoParts(content, count, partSize); }
    for i := 0 to count
      invariant Faults(ss) >= old(Faults(ss)) && forall j :: 0 <= j < i ==> accepted[j]
      invariant |parts| == i && offset == i * partSize && Uploaded(content, parts, count, partSize)
      invariant forall o :: o in Objects(ss) ==> o in old(Objects(ss)) || fresh(o)
      invariant i < count ==> length == partSize && Idle(ss, content, Min(partSize, size), offset)
    {
      PartAdded(content, parts, count, partSize);
      var remain := size - offset;
      if length > remain { length := remain; }
      var p := UploadPart(ss, content, Min(partSize, size), offset, length, accepted[i]);
      if p.None? { return false, parts; }
      parts := parts + [p.value];
      offset := offset + partSize;
    }
    AllUploaded(content, parts, count, partSize);
    return true, parts;
  }

  lemma NoParts(content: seq<Byte>, count: nat, partSize: nat)
    ensures Uploaded(content, [], count, partSize)
  {
  }
}
