/** Random access over readers that can only go forward (RangeReadReadAtSeeker and headCache
    in internal/stream/stream.go). */
module RandomAccess {
  import opened Basics
  import opened Buffers

  const MB := 1024 * 1024

  datatype ReadError = NoError | UnexpectedEnd | EndOfFile | Failure

  /** Where the file is read from; `faults` counts the calls that have failed. */
  class Remote {
    var faults: nat

    constructor ()
      ensures faults == 0
    {
      faults := 0;
    }
  }

  /** A reader opened at some offset of the file; any read or skip may fail half-way. */
  class RangeReader {
    const file: seq<Byte>
    const remote: Remote
    var pos: nat

    constructor (file: seq<Byte>, remote: Remote, pos: nat)
      requires pos <= |file|
      ensures this.file == file && this.remote == remote && this.pos == pos
    {
      this.file, this.remote, this.pos := file, remote, pos;
    }

    /** io.ReadFull. */
    method ReadFull(want: nat) returns (p: seq<Byte>, err: ReadError)
      requires pos <= |file|
      modifies this, remote
      ensures |p| <= want && pos == old(pos) + |p| <= |file| && p == file[old(pos)..pos]
      ensures remote.faults >= old(remote.faults) && (err.Failure? ==> remote.faults > old(remote.faults))
      ensures remote.faults == old(remote.faults) ==> |p| == Min(want, |file| - old(pos))
      ensures err.NoError? <==> |p| == want
      ensures err.UnexpectedEnd? ==> |p| > 0 && pos == |file|
      ensures err.EndOfFile? ==> |p| == 0 && pos == |file|
    {
      var n := Min(want, |file| - pos);
      if n == want { err := NoError; } else if n > 0 { err := UnexpectedEnd; } else { err := EndOfFile; }
      var fails: bool := *;
      if fails && n > 0 {
        n :| 0 <= n < Min(want, |file| - pos);
        err := Failure;
        remote.faults := remote.faults + 1;
      }
      p := file[pos..pos + n];
      pos := pos + n;
    }

    /** Skip up to `n` bytes. */
    method Discard(n: nat) returns (skipped: nat)
      requires pos <= |file|
      modifies this, remote
      ensures skipped <= n && pos == old(pos) + skipped <= |file|
      ensures remote.faults >= old(remote.faults)
      ensures remote.faults == old(remote.faults) ==> skipped == Min(n, |file| - old(pos))
    {
      skipped := Min(n, |file| - pos);
      if * {
        skipped :| 0 <= skipped <= Min(n, |file| - pos);
        remote.faults := remote.faults + 1;
      }
      pos := pos + skipped;
    }
  }

  /** The beginning of the file, kept as it is read. */
  class HeadCache {
    const reader: RangeReader
    var bufs: seq<seq<Byte>>

    /** The kept blocks are exactly what the reader has delivered. */
    ghost predicate Valid()
      reads this, reader
    {
      reader.pos <= |reader.file| && Flatten(bufs) == reader.file[..reader.pos]
    }

    constructor (reader: RangeReader)
      requires reader.pos == 0
      ensures Valid() && this.reader == reader
    {
      this.reader, bufs := reader, [];
    }

    method Head(want: nat) returns (p: seq<Byte>, err: ReadError)
      requires Valid()
      modifies this, reader, reader.remote
      ensures Valid() && |p| <= want && |p| <= |reader.file| && p == reader.file[..|p|]
      ensures reader.remote.faults >= old(reader.remote.faults)
      ensures err.Failure? ==> reader.remote.faults > old(reader.remote.faults)
      ensures reader.remote.faults == old(reader.remote.faults) ==> |p| == Min(want, |reader.file|)
      ensures want <= old(reader.pos) ==> reader.pos == old(reader.pos) && |p| == want
      ensures err.NoError? <==> |p| == want
      ensures err.EndOfFile? ==> |p| == |reader.file|
      ensures !err.UnexpectedEnd?
    {
      hide Flatten, NthBlock, Got;
      var blocks := bufs;
      ghost var all := Flatten(blocks);
      GotNothing(all);
      NoBlocks(blocks);
      p := [];
      for i := 0 to |blocks|
        invariant bufs == blocks && reader.pos == old(reader.pos) && reader.remote.faults == old(reader.remote.faults)
        invariant |p| == |Flatten(blocks[..i])| <= |all| && Got(all, 0, p) && (|p| < want || i == 0)
      {
        var buf := blocks[i];
        NextBlock(blocks, i);
        var nn := if want - |p| <= |buf| then want - |p| else |buf|;
        CopyOn(all, buf, |Flatten(blocks[..i])|, 0, p, nn);
        p := p + buf[..nn];
        if |p| == want {
          GotPrefix(all, reader.file, p);
          return p, NoError;
        }
      }
      assert blocks[..|blocks|] == blocks;
      GotPrefix(all, reader.file, p);
      var more;
      more, err := reader.ReadFull(want - |p|);
      if |more| > 0 {
        FlattenCat(bufs, [more]);
        OneBlock(more);
        bufs := bufs + [more];
        if err.UnexpectedEnd? { err := EndOfFile; }
      }
      p := p + more;
    }
  }

  class ReadAtSeeker {
    const file: seq<Byte>
    const remote: Remote
    var masterOff: nat
    var readerMap: map<nat, RangeReader>
    var headCache: HeadCache?

    ghost function Readers(): set<object>
      reads this
    {
      set k | k in readerMap :: readerMap[k]
    }

    ghost function Parts(): set<object>
      reads this
    {
      Readers() + if headCache != null then {headCache, headCache.reader} else {}
    }

    /** A reader stored under key k stands at k, and the head cache is a prefix of the file. */
    ghost predicate Valid()
      reads this, Parts()
    {
      && masterOff <= |file|
      && (forall k :: k in readerMap ==> readerMap[k].file == file && readerMap[k].remote == remote && readerMap[k].pos == k <= |file|)
      && (headCache != null ==>
            headCache.Valid() && headCache.reader.file == file && headCache.reader.remote == remote && headCache.reader !in Readers())
    }

    /** NewReadAtSeeker over a range reader, opened at `offset`. */
    constructor (file: seq<Byte>, remote: Remote, offset: nat)
      requires offset <= |file|
      ensures Valid() && fresh(Parts()) && this.file == file && this.remote == remote
      ensures masterOff == offset && offset in readerMap
    {
      var r := new RangeReader(file, remote, offset);
      this.file, this.remote, masterOff, readerMap, headCache := file, remote, offset, map[offset := r], null;
    }

    /** NewReadAtSeeker as its callers see it: an offset outside the file is an error, and so is
        a failing range read. */
    static method Open(file: seq<Byte>, remote: Remote, offset: int) returns (r: ReadAtSeeker?)
      modifies remote
      ensures remote.faults >= old(remote.faults)
      ensures r == null ==> !(0 <= offset <= |file|) || remote.faults > old(remote.faults)
      ensures r != null ==> 0 <= offset <= |file| && fresh(r) && fresh(r.Parts())
      ensures r != null ==> r.Valid() && r.file == file && r.masterOff == offset
    {
      if offset < 0 || offset > |file| { return null; }
      if * {
        remote.faults := remote.faults + 1;
        return null;
      }
      r := new ReadAtSeeker(file, remote, offset);
    }

    /** The reader at the start becomes the head cache's. */
    method InitHeadCache()
      requires Valid() && (masterOff == 0 ==> 0 in readerMap)
      modifies this
      ensures Valid() && fresh(Parts() - old(Parts())) && masterOff == old(masterOff)
      ensures if masterOff == 0 then
                headCache != null && headCache.reader == old(readerMap[0]) && readerMap == old(readerMap) - {0}
              else headCache == old(headCache) && readerMap == old(readerMap)
    {
      if masterOff == 0 {
        var r := readerMap[0];
        readerMap := readerMap - {0};
        headCache := new HeadCache(r);
      }
    }

    /** The key to start from: `off` itself, else the nearest at most 4 MB before it. */
    method Nearest(off: nat) returns (cur: int)
      ensures cur == -1 || (0 <= cur <= off && cur in readerMap && off - cur <= 4 * MB)
      ensures off in readerMap ==> cur == off
      ensures forall k :: k in readerMap && k <= off && off - k <= 4 * MB ==> k <= cur
    {
      cur := -1;
      var left := readerMap.Keys;
      while left != {}
        invariant left <= readerMap.Keys
        invariant cur == -1 || (0 <= cur < off && cur in readerMap && off - cur <= 4 * MB)
        invariant forall k :: k in readerMap && k !in left ==> k != off && (k <= off && off - k <= 4 * MB ==> k <= cur)
        decreases |left|
      {
        var k :| k in left;
        left := left - {k};
        if off == k { return k; }
        if off > k && off - k <= 4 * MB && k > cur { cur := k; }
      }
    }

    /** Take a reader out of the map. */
    method Take(k: nat) returns (r: RangeReader)
      requires Valid() && k in readerMap
      modifies `readerMap
      ensures r == old(readerMap[k]) && readerMap == old(readerMap) - {k}
      ensures Valid() && Readers() <= old(Readers()) && headCache == old(headCache)
      ensures r in old(Readers()) && r !in Parts() && r.file == file && r.remote == remote && r.pos == k <= |file|
    {
      r := readerMap[k];
      readerMap := readerMap - {k};
    }

    /** A reader that stands at `off`, or the nearest one at most 4 MB before it, skipped forward. */
    method Reuse(off: nat) returns (r: RangeReader?)
      requires Valid() && off <= |file|
      modifies `readerMap, Readers(), remote
      ensures Valid() && Readers() <= old(Readers()) && remote.faults >= old(remote.faults)
      ensures r != null ==> r.file == file && r.remote == remote && r.pos == off && r !in Parts() && r in old(Readers())
      ensures off in old(readerMap) ==> r == old(readerMap[off]) && remote.faults == old(remote.faults)
    {
      var cur := Nearest(off);
      if cur < 0 { return null; }
      var rr := Take(cur);
      if off == cur { return rr; }
      var n := rr.Discard(off - cur);
      return if cur + n == off then rr else null;
    }

    /** The reader to use for `off`: one that is there already, else a new one. It is taken out of
        the map. */
    method GetReaderAtOffset(off: nat) returns (r: RangeReader?)
      requires Valid() && off <= |file|
      modifies `readerMap, Readers(), remote
      ensures Valid() && Readers() <= old(Readers())
      ensures r != null ==>
        r.file == file && r.remote == remote && r.pos == off && r !in Parts() && (r in old(Readers()) || fresh(r))
      ensures remote.faults >= old(remote.faults) && (r == null ==> remote.faults > old(remote.faults))
      ensures off in old(readerMap) ==> r == old(readerMap[off])
    {
      r := Reuse(off);
      if r != null { return; }
      if * {
        remote.faults := remote.faults + 1;
        return null;
      }
      r := new RangeReader(file, remote, off);
    }

    /** Whatever the order of the calls, the bytes are those of the file at that place. */
    method ReadAt(want: nat, off: int) returns (p: seq<Byte>, err: ReadError)
      requires Valid()
      modifies this, Parts(), remote
      ensures Valid() && fresh(Parts() - old(Parts())) && masterOff == old(masterOff)
      ensures remote.faults >= old(remote.faults) && (err.Failure? ==> remote.faults > old(remote.faults))
      ensures remote.faults == old(remote.faults) ==> |p| == if 0 <= off < |file| then Min(want, |file| - off) else 0
      ensures |p| <= want && (p != [] ==> 0 <= off && off + |p| <= |file| && p == file[off..off + |p|])
      ensures err.NoError? ==> |p| == want
      ensures err.EndOfFile? ==> off < 0 || off + |p| >= |file|
      ensures !err.UnexpectedEnd?
    {
      if off < 0 || off >= |file| { return [], EndOfFile; }
      if off == 0 && headCache != null {
        p, err := headCache.Head(want);
        return;
      }
      var rr := GetReaderAtOffset(off);
      if rr == null { return [], Failure; }
      p, err := ReadOn(rr, want);
    }

    /** Read from a reader of one's own, and keep it for the place where it then stands. */
    method ReadOn(rr: RangeReader, want: nat) returns (p: seq<Byte>, err: ReadError)
      requires Valid() && rr !in Parts() && rr.file == file && rr.remote == remote && rr.pos <= |file|
      modifies `readerMap, rr, remote
      ensures Valid() && Parts() <= old(Parts()) + {rr}
      ensures remote.faults >= old(remote.faults) && (err.Failure? ==> remote.faults > old(remote.faults))
      ensures remote.faults == old(remote.faults) ==> |p| == Min(want, |file| - old(rr.pos))
      ensures |p| <= want && old(rr.pos) + |p| <= |file| && p == file[old(rr.pos)..old(rr.pos) + |p|]
      ensures err.NoError? ==> |p| == want
      ensures err.EndOfFile? ==> old(rr.pos) + |p| >= |file|
      ensures !err.UnexpectedEnd?
    {
      p, err := rr.ReadFull(want);
      if |p| > 0 {
        if err.NoError? { readerMap := readerMap[rr.pos := rr]; }
        else if err.UnexpectedEnd? { err := EndOfFile; }
      }
    }

    method Read(want: nat) returns (p: seq<Byte>, err: ReadError)
      requires Valid()
      modifies this, Parts(), remote
      ensures Valid() && fresh(Parts() - old(Parts()))
      ensures remote.faults >= old(remote.faults) && (err.Failure? ==> remote.faults > old(remote.faults))
      ensures remote.faults == old(remote.faults) ==> |p| == Min(want, |file| - old(masterOff))
      ensures |p| <= want && masterOff == old(masterOff) + |p| <= |file| && p == file[old(masterOff)..masterOff]
      ensures err.NoError? ==> |p| == want
      ensures err.EndOfFile? ==> masterOff == |file|
    {
      p, err := ReadAt(want, masterOff);
      masterOff := masterOff + |p|;
    }

    method Seek(offset: int, whence: Whence) returns (r: Option<int>)
      requires Valid()
      modifies `masterOff
      ensures Valid() && r == Target(offset, whence, old(masterOff), |file|)
      ensures masterOff == if r.Some? then r.value else old(masterOff)
    {
      r := Target(offset, whence, masterOff, |file|);
      if r.Some? { masterOff := r.value; }
    }
  }

  lemma GotNothing(all: seq<Byte>)
    ensures Got(all, 0, [])
  {
  }

  lemma NoBlocks(bufs: seq<seq<Byte>>)
    ensures |Flatten(bufs[..0])| == 0
  {
    assert bufs[..0] == [];
  }

  lemma OneBlock(b: seq<Byte>)
    ensures Flatten([b]) == b
  {
    assert [b][..0] == [];
  }

  lemma GotPrefix(all: seq<Byte>, file: seq<Byte>, p: seq<Byte>)
    requires Got(all, 0, p) && all <= file
    ensures |p| <= |file| && p == file[..|p|] && p == all[..|p|]
  {
  }
}
