/** A list of byte blocks that reads like one file, and a file that continues it
    (pkg/buffer/bytes.go, pkg/buffer/file.go). The caller's slice is its length `want`; the
    bytes copied into it are returned. */
module Buffers {
  import opened Basics

  datatype Whence = FromStart | FromCurrent | FromEnd | Invalid

  function Flatten(bufs: seq<seq<Byte>>): seq<Byte> {
    if bufs == [] then [] else Flatten(bufs[..|bufs| - 1]) + bufs[|bufs| - 1]
  }

  lemma CatAssoc(a: seq<Byte>, b: seq<Byte>, c: seq<Byte>)
    ensures a + b + c == a + (b + c)
  {
  }

  lemma {:induction false} FlattenCat(a: seq<seq<Byte>>, b: seq<seq<Byte>>)
    ensures Flatten(a + b) == Flatten(a) + Flatten(b)
  {
    if b == [] {
      assert a + b == a;
    } else {
      var c, last := b[..|b| - 1], b[|b| - 1];
      FlattenCat(a, c);
      assert (a + b)[..|a + b| - 1] == a + c && (a + b)[|a + b| - 1] == last;
      CatAssoc(Flatten(a), Flatten(c), last);
    }
  }

  /** What reading `want` bytes at `off` gives: as much as there is. */
  function Slice(s: seq<Byte>, off: int, want: nat): seq<Byte> {
    if off < 0 || off >= |s| then [] else s[off..Min(off + want, |s|)]
  }

  /** It is as long as it can be, and byte by byte what stands there. */
  lemma SliceHas(s: seq<Byte>, off: int, want: nat)
    ensures var p := Slice(s, off, want);
      && |p| == (if 0 <= off <= |s| then Min(want, |s| - off) else 0)
      && forall i :: 0 <= i < |p| ==> p[i] == s[off + i]
  {
  }

  /** Where a seek leads. */
  function Target(offset: int, whence: Whence, current: int, size: int): Option<int> {
    var t := match whence
      case FromStart => offset
      case FromCurrent => current + offset
      case FromEnd => size + offset
      case Invalid => -1;
    if t < 0 || t > size then None else Some(t)
  }

  /** Every place inside is reached in each of the three ways, and no other one is. */
  lemma SeeksReach(at: int, current: int, size: nat)
    ensures var there := if 0 <= at <= size then Some(at) else None;
      && Target(at, FromStart, current, size) == there
      && Target(at - current, FromCurrent, current, size) == there
      && Target(at - size, FromEnd, current, size) == there
      && Target(at, Invalid, current, size) == None
  {
  }

  class Reader {
    var bufs: seq<seq<Byte>>
    var size: nat
    var offset: nat

    ghost predicate Valid()
      reads this
    {
      size == |Flatten(bufs)| && offset <= size
    }

    constructor ()
      ensures Valid() && bufs == [] && offset == 0
    {
      bufs, size, offset := [], 0, 0;
    }

    method Append(buf: seq<Byte>)
      requires Valid()
      modifies this
      ensures Valid() && Flatten(bufs) == old(Flatten(bufs)) + buf && offset == old(offset)
    {
      size := size + |buf|;
      bufs := bufs + [buf];
    }

    /** The loop over the blocks: skip to the one that holds `off`, then copy on. End of file is
        reported exactly when the slice is not filled. */
    method ReadAt(want: nat, off: int) returns (p: seq<Byte>, eof: bool)
      requires Valid()
      ensures p == Slice(Flatten(bufs), off, want)
      ensures eof <==> off < 0 || off >= size || |p| < want
    {
      if off < 0 || off >= size { return [], true; }
      p := [];
      ghost var all := Flatten(bufs);
      assert bufs[..0] == [] && |Flatten(bufs[..0])| == 0;
      hide Flatten, Slice, Reading;
      var left, readFrom := off, false;
      ghost var at := 0;
      assert Reading(all, off, want, at, left, p, readFrom) by { ReadingStarts(all, off, want); }
      for i := 0 to |bufs|
        invariant 0 <= left && 0 <= off < |all| && at == |Flatten(bufs[..i])|
        invariant Reading(all, off, want, at, left, p, readFrom)
      {
        var buf := bufs[i];
        NextBlock(bufs, i);
        ReadsOn(all, buf, off, want, at, left, p, readFrom);
        if readFrom {
          var nn := if want - |p| <= |buf| then want - |p| else |buf|;
          p := p + buf[..nn];
          if |p| == want { return p, false; }
        } else if left - |buf| >= 0 {
          left := left - |buf|;
        } else {
          var nn := if want <= |buf| - left then want else |buf| - left;
          p := buf[left..left + nn];
          if nn == want { return p, false; }
          readFrom := true;
        }
        at := at + |buf|;
      }
      assert bufs[..|bufs|] == bufs;
      ReadingEnds(all, off, want, at, left, p, readFrom);
      return p, true;
    }

    method Read(want: nat) returns (p: seq<Byte>, eof: bool)
      requires Valid()
      modifies this
      ensures Valid() && bufs == old(bufs)
      ensures p == Slice(Flatten(bufs), old(offset), want) && offset == old(offset) + |p|
      ensures eof <==> old(offset) >= size || |p| < want
    {
      p, eof := ReadAt(want, offset);
      offset := offset + |p|;
    }

    method Seek(off: int, whence: Whence) returns (r: Option<int>)
      requires Valid()
      modifies this
      ensures Valid() && bufs == old(bufs)
      ensures r == Target(off, whence, old(offset), size)
      ensures offset == if r.Some? then r.value else old(offset)
    {
      r := Target(off, whence, offset, size);
      if r.Some? { offset := r.value; }
    }

    method Reset()
      modifies this
      ensures Valid() && Flatten(bufs) == [] && offset == 0
    {
      bufs, size, offset := [], 0, 0;
    }
  }

  /** A block stands in the contents right after the blocks before it. */
  lemma NextBlock(bufs: seq<seq<Byte>>, i: nat)
    requires i < |bufs|
    ensures var k := |Flatten(bufs[..i])|;
      && |Flatten(bufs[..i + 1])| == k + |bufs[i]| <= |Flatten(bufs)|
      && NthBlock(Flatten(bufs), k, bufs[i])
  {
    var head, tail := bufs[..i + 1], bufs[i + 1..];
    assert head[..i] == bufs[..i];
    assert bufs == head + tail;
    FlattenCat(head, tail);
    var k := |Flatten(bufs[..i])|;
    assert (Flatten(bufs[..i]) + bufs[i])[k..] == bufs[i];
  }

  predicate NthBlock(all: seq<Byte>, k: nat, buf: seq<Byte>) {
    k + |buf| <= |all| && all[k..k + |buf|] == buf
  }

  /** `p` is what stands in `all` from `off` on. */
  predicate Got(all: seq<Byte>, off: nat, p: seq<Byte>) {
    off + |p| <= |all| && p == all[off..off + |p|]
  }

  lemma CopyFirst(all: seq<Byte>, buf: seq<Byte>, k: nat, left: nat, n: nat)
    requires NthBlock(all, k, buf) && left + n <= |buf|
    ensures Got(all, k + left, buf[left..left + n])
  {
    var x, y := buf[left..left + n], all[k + left..k + left + n];
    forall i | 0 <= i < n ensures x[i] == y[i] {
      assert all[k..k + |buf|][left + i] == buf[left + i];
    }
  }

  lemma CopyOn(all: seq<Byte>, buf: seq<Byte>, k: nat, off: nat, p: seq<Byte>, n: nat)
    requires NthBlock(all, k, buf) && n <= |buf| && off + |p| == k && Got(all, off, p)
    ensures Got(all, off, p + buf[..n])
  {
    CopyFirst(all, buf, k, 0, n);
    assert buf[..n] == all[k..k + n];
  }

  /** Where the copying loop is when the blocks up to `at` are done: still looking for `off`, or
      copying. */
  predicate Reading(all: seq<Byte>, off: nat, want: nat, at: nat, left: int, p: seq<Byte>, readFrom: bool) {
    at <= |all| && if readFrom then |p| < want && off + |p| == at && Got(all, off, p) else p == [] && left + at == off
  }

  lemma ReadingStarts(all: seq<Byte>, off: nat, want: nat)
    ensures Reading(all, off, want, 0, off, [], false)
  {
  }

  /** What the next block makes of it, in each of the loop's three branches. */
  lemma ReadsOn(all: seq<Byte>, buf: seq<Byte>, off: nat, want: nat, at: nat, left: nat, p: seq<Byte>, readFrom: bool)
    requires off < |all| && NthBlock(all, at, buf) && Reading(all, off, want, at, left, p, readFrom)
    ensures readFrom ==>
      var n := if want - |p| <= |buf| then want - |p| else |buf|;
      if |p| + n == want then p + buf[..n] == Slice(all, off, want)
      else |p| + n < want && Reading(all, off, want, at + |buf|, left, p + buf[..n], true)
    ensures !readFrom && left >= |buf| ==> Reading(all, off, want, at + |buf|, left - |buf|, p, false)
    ensures !readFrom && left < |buf| ==>
      var n := if want <= |buf| - left then want else |buf| - left;
      if n == want then buf[left..left + n] == Slice(all, off, want)
      else Reading(all, off, want, at + |buf|, left, buf[left..left + n], true)
  {
    hide Slice, Got;
    if readFrom {
      var n := if want - |p| <= |buf| then want - |p| else |buf|;
      CopyOn(all, buf, at, off, p, n);
      if |p| + n == want { GotAll(all, off, p + buf[..n], want); }
    } else if left < |buf| {
      var n := if want <= |buf| - left then want else |buf| - left;
      CopyFirst(all, buf, at, left, n);
      if n == want { GotAll(all, off, buf[left..left + n], want); }
    }
  }

  lemma ReadingEnds(all: seq<Byte>, off: nat, want: nat, at: nat, left: nat, p: seq<Byte>, readFrom: bool)
    requires off < |all| == at && Reading(all, off, want, at, left, p, readFrom)
    ensures p == Slice(all, off, want) && |p| < want
  {
    hide Slice;
    GotAll(all, off, p, want);
  }

  lemma GotAll(all: seq<Byte>, off: nat, p: seq<Byte>, want: nat)
    requires Got(all, off, p) && off < |all| && |p| <= want && (|p| == want || off + |p| == |all|)
    ensures p == Slice(all, off, want)
  {
  }

  lemma SliceBefore(a: seq<Byte>, b: seq<Byte>, off: nat, want: nat)
    requires off < |a| && off + want <= |a|
    ensures Slice(a + b, off, want) == Slice(a, off, want) == a[off..off + want]
  {
  }

  lemma SliceAcross(a: seq<Byte>, b: seq<Byte>, off: nat, want: nat)
    requires off < |a| < off + want
    ensures Slice(a + b, off, want) == a[off..] + Slice(b, 0, off + want - |a|) && Slice(a, off, want) == a[off..]
  {
  }

  lemma SliceAfter(a: seq<Byte>, b: seq<Byte>, off: nat, want: nat)
    requires |a| <= off
    ensures Slice(a + b, off, want) == Slice(b, off - |a|, want) && Slice(a, off, want) == []
  {
  }

  /** Reading across the seam of two byte strings. */
  lemma SliceCat(a: seq<Byte>, b: seq<Byte>, off: int, want: nat)
    ensures var p := Slice(a, off, want);
      Slice(a + b, off, want) == p + if off < |a| && |p| == want then [] else Slice(b, off + |p| - |a|, want - |p|)
  {
    if off < 0 {
      NoSlice(a, b, off, want);
    } else {
      hide Slice;
      if |a| <= off { SliceAfter(a, b, off, want); }
      else if off + want <= |a| { SliceBefore(a, b, off, want); }
      else { SliceAcross(a, b, off, want); }
    }
  }

  lemma NoSlice(a: seq<Byte>, b: seq<Byte>, off: int, want: nat)
    requires off < 0
    ensures Slice(a, off, want) == [] == Slice(a + b, off, want) && Slice(b, off - |a|, want) == []
  {
  }

  /** A temporary file. */
  class TempFile {
    var contents: seq<Byte>
    var offset: int

    constructor (contents: seq<Byte>)
      ensures this.contents == contents && offset == 0
    {
      this.contents, offset := contents, 0;
    }

    method ReadAt(want: nat, off: int) returns (p: seq<Byte>, eof: bool)
      ensures p == Slice(contents, off, want)
      ensures eof <==> |p| < want
    {
      p := Slice(contents, off, want);
      eof := |p| < want;
    }

    method SeekStart(off: nat)
      modifies `offset
      ensures offset == off
    {
      offset := off;
    }
  }

  class PeekFile {
    const peek: Reader
    const file: TempFile
    var offset: int
    var size: nat

    ghost predicate Valid()
      reads this, peek, file
    {
      peek.Valid() && size == |Contents()| && 0 <= offset <= size
    }

    /** The peeked bytes, then the file's. */
    ghost function Contents(): seq<Byte>
      reads this, peek, file
    {
      Flatten(peek.bufs) + file.contents
    }

    constructor (peek: Reader, file: TempFile)
      requires peek.Valid()
      ensures Valid() && this.peek == peek && this.file == file && offset == 0
    {
      this.peek, this.file, offset := peek, file, 0;
      size := |file.contents| + peek.size;
    }

    /** An error is reported exactly when the slice is not filled: the end of the file, or a
        negative offset. */
    method ReadAt(want: nat, off: int) returns (p: seq<Byte>, eof: bool)
      requires Valid()
      ensures p == Slice(Contents(), off, want)
      ensures eof <==> |p| < want
    {
      p := [];
      SliceCat(Flatten(peek.bufs), file.contents, off, want);
      if off < peek.size {
        p, eof := peek.ReadAt(want, off);
        if !eof || |p| == want { return p, false; }
      }
      var more;
      more, eof := file.ReadAt(want - |p|, off + |p| - peek.size);
      p := p + more;
    }

    method Read(want: nat) returns (p: seq<Byte>, eof: bool)
      requires Valid()
      modifies `offset
      ensures Valid() && p == Slice(Contents(), old(offset), want) && offset == old(offset) + |p|
      ensures eof <==> |p| < want
    {
      p, eof := ReadAt(want, offset);
      offset := offset + |p|;
    }

    method Seek(off: int, whence: Whence) returns (r: Option<int>)
      requires Valid()
      modifies `offset, peek, file
      ensures Valid() && Contents() == old(Contents()) && peek.bufs == old(peek.bufs)
      ensures r == Target(off, whence, old(offset), size)
      ensures offset == if r.Some? then r.value else old(offset)
    {
      if whence.FromCurrent? && off == 0 { return Some(offset); }
      r := Target(off, whence, offset, size);
      if r.None? { return; }
      if r.value <= peek.size {
        var _ := peek.Seek(r.value, FromStart);
        file.SeekStart(0);
      } else {
        var _ := peek.Seek(peek.size, FromStart);
        file.SeekStart(r.value - peek.size);
      }
      offset := r.value;
    }
  }
}
