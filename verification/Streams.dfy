/** A one-shot upload stream of known size that can be looked into before it is consumed
    (FileStream in internal/stream/stream.go). */
module Streams {
  import opened Basics
  import opened Buffers

  /** The original reader: it delivers its content once, and any read may fail. */
  class Source {
    const content: seq<Byte>
    var pos: nat
    /** How many reads have failed. */
    var faults: nat

    constructor (content: seq<Byte>)
      ensures this.content == content && pos == 0 && faults == 0
    {
      this.content, pos, faults := content, 0, 0;
    }

    /** io.ReadFull, copying what is read to `tee` on the way. */
    method ReadFull(want: nat, tee: Sink?) returns (p: seq<Byte>)
      requires pos <= |content|
      modifies this, tee
      ensures |p| <= want && pos == old(pos) + |p| <= |content| && p == content[old(pos)..pos]
      ensures faults >= old(faults) && (faults == old(faults) ==> |p| == Min(want, |content| - old(pos)))
      ensures tee != null ==> tee.log == old(tee.log) + p
    {
      var n := Min(want, |content| - pos);
      if * {
        n :| 0 <= n <= Min(want, |content| - pos);
        faults := faults + 1;
      }
      p := content[pos..pos + n];
      pos := pos + n;
      if tee != null { tee.log := tee.log + p; }
    }
  }

  /** A writer that takes everything. */
  class Sink {
    var log: seq<Byte>

    constructor ()
      ensures log == []
    {
      log := [];
    }
  }

  /** What `f.Reader` is: the original reader, the peeked bytes followed by it, or a file. */
  datatype Kind = Raw | Multi | Peeked | InFile(f: TempFile) | PeekedAndFile(pf: PeekFile)

  datatype File = OfPeek(r: Reader) | OfTemp(f: TempFile) | OfBoth(pf: PeekFile)

  class FileStream {
    const src: Source
    const size: nat
    const maxBufferLimit: nat
    var kind: Kind
    var peekBuff: Reader?
    var tee: Sink?
    /** How many temporary files and writers have failed. */
    var faults: nat

    /** The failures that an operation can blame. */
    ghost function Faults(): nat
      reads `faults, src`faults
    {
      faults + src.faults
    }

    ghost function Parts(): set<object>
      reads this
    {
      (if peekBuff != null then {peekBuff} else {}) +
      (match kind
         case InFile(f) => {f}
         case PeekedAndFile(pf) => {pf, pf.peek, pf.file}
         case _ => {})
    }

    /** Nothing is consumed, and no writer waits for bytes that are still to come. */
    ghost predicate Valid()
      reads this, src, Parts()
    {
      Unread() && ((kind.Raw? || kind.Multi?) && tee != null ==> src.pos == size)
    }

    /** Whatever has left the source can still be read. */
    ghost predicate Unread()
      reads this, src, Parts()
    {
      && size == |src.content| && src.pos <= size
      && (kind.Raw? ==> peekBuff == null && src.pos == 0)
      && (kind.Multi? ==> peekBuff != null && Holds(peekBuff, src.content[..src.pos]))
      && (kind.Peeked? ==> peekBuff != null && Holds(peekBuff, src.content))
      && (kind.InFile? ==> kind.f.contents == src.content && kind.f.offset == 0)
      && (kind.PeekedAndFile? ==> kind.pf.Valid() && kind.pf.Contents() == src.content && kind.pf.offset == 0)
    }

    static ghost predicate Holds(r: Reader, s: seq<Byte>)
      reads r
    {
      r.Valid() && Flatten(r.bufs) == s && r.offset == 0
    }

    constructor (content: seq<Byte>, maxBufferLimit: nat)
      ensures Valid() && kind.Raw? && src.content == content && fresh(src) && fresh(Parts())
    {
      var s := new Source(content);
      src, size, this.maxBufferLimit := s, |content|, maxBufferLimit;
      kind, peekBuff, tee, faults := Raw, null, null, 0;
    }

    /** GetFile: the stream is a file already. */
    function GetFile(): Option<File>
      reads this
    {
      match kind
      case InFile(f) => Some(OfTemp(f))
      case PeekedAndFile(pf) => Some(OfBoth(pf))
      case Peeked => if peekBuff != null then Some(OfPeek(peekBuff)) else None
      case _ => None
    }

    static ghost function Pieces(f: File): set<object> {
      match f
      case OfPeek(r) => {r}
      case OfTemp(t) => {t}
      case OfBoth(pf) => {pf, pf.peek, pf.file}
    }

    /** The file reads as `s`, from its start. */
    static ghost predicate Reads(f: File, s: seq<Byte>)
      reads Pieces(f)
    {
      match f
      case OfPeek(r) => Holds(r, s)
      case OfTemp(t) => t.contents == s && t.offset == 0
      case OfBoth(pf) => pf.Valid() && pf.Contents() == s && pf.offset == 0
    }

    /** A section reader over a file, read to its end. */
    static method ReadSection(f: File, off: nat, length: int, ghost s: seq<Byte>) returns (p: seq<Byte>)
      requires Reads(f, s)
      ensures p == if length <= 0 then [] else Slice(s, off, length)
    {
      if length <= 0 { return []; }
      var eof;
      match f
      case OfPeek(r) => p, eof := r.ReadAt(length, off);
      case OfTemp(t) => p, eof := t.ReadAt(length, off);
      case OfBoth(pf) => p, eof := pf.ReadAt(length, off);
    }

    /** CreateTempFile over what is left of the source; a wrong size is an error. */
    method DrainToTemp(due: nat) returns (r: Option<TempFile>)
      requires src.pos <= |src.content|
      modifies `faults, src, tee
      ensures src.pos <= |src.content| && Faults() >= old(Faults())
      ensures r.None? && due == |src.content| - old(src.pos) ==> Faults() > old(Faults())
      ensures r.Some? && due == |src.content| - old(src.pos) ==>
        && fresh(r.value) && r.value.contents == src.content[old(src.pos)..] && r.value.offset == 0
        && src.pos == |src.content|
        && (tee != null ==> tee.log == old(tee.log) + src.content[old(src.pos)..])
    {
      var p := src.ReadFull(|src.content| - src.pos, tee);
      if * {
        faults := faults + 1;
        return None;
      }
      if due > 0 && |p| != due { return None; }
      var t := new TempFile(p);
      return Some(t);
    }

    /** cache: make at least the first `maxCacheSize` bytes readable as a file. */
    method Cache(maxCacheSize: nat) returns (r: Option<File>)
      requires Unread() && GetFile().None? && maxCacheSize <= size
      modifies this, src, tee, Parts()
      ensures tee == old(tee) && fresh(Parts() - old(Parts()))
      ensures r.Some? ==> (maxCacheSize > maxBufferLimit <==> !r.value.OfPeek?)
      ensures Faults() >= old(Faults()) && (r.None? ==> Faults() > old(Faults()))
      ensures r.Some? ==> Unread() && !kind.Raw? && old(src.pos) <= src.pos && maxCacheSize <= src.pos
      ensures r.Some? ==> Pieces(r.value) <= Parts() && Reads(r.value, src.content[..src.pos])
      ensures r.Some? && tee != null ==> tee.log == old(tee.log) + src.content[old(src.pos)..src.pos]
    {
      if maxCacheSize > maxBufferLimit {
        r := CacheInTemp();
      } else {
        r := CacheInMemory(maxCacheSize);
      }
    }

    /** What is left of the source goes to a temporary file. */
    method CacheInTemp() returns (r: Option<File>)
      requires Unread() && GetFile().None?
      modifies this, src, tee, Parts()
      ensures tee == old(tee) && fresh(Parts() - old(Parts()))
      ensures r.Some? ==> !r.value.OfPeek?
      ensures Faults() >= old(Faults()) && (r.None? ==> Faults() > old(Faults()))
      ensures r.Some? ==> Unread() && !kind.Raw? && old(src.pos) <= src.pos == size
      ensures r.Some? ==> Pieces(r.value) <= Parts() && Reads(r.value, src.content[..src.pos])
      ensures r.Some? && tee != null ==> tee.log == old(tee.log) + src.content[old(src.pos)..src.pos]
    {
      hide Flatten;
      var rest := size - (if peekBuff != null then peekBuff.size else 0);
      var tmp := DrainToTemp(rest);
      if tmp.None? { return None; }
      if peekBuff != null {
        var pf := new PeekFile(peekBuff, tmp.value);
        kind := PeekedAndFile(pf);
        return Some(OfBoth(pf));
      }
      kind := InFile(tmp.value);
      return Some(OfTemp(tmp.value));
    }

    /** From now on the stream reads the peeked bytes, none yet, and then the source. */
    method StartPeeking()
      requires Unread() && GetFile().None?
      modifies `kind, `peekBuff
      ensures Unread() && kind.Multi? && peekBuff != null && fresh(Parts() - old(Parts()))
    {
      if peekBuff == null {
        peekBuff := new Reader();
        kind := Multi;
      }
    }

    /** The missing bytes are read into one more block of memory. */
    method CacheInMemory(maxCacheSize: nat) returns (r: Option<File>)
      requires Unread() && GetFile().None? && maxCacheSize <= size
      modifies this, src, tee, Parts()
      ensures tee == old(tee) && fresh(Parts() - old(Parts()))
      ensures r.Some? ==> r.value.OfPeek?
      ensures Faults() >= old(Faults()) && (r.None? ==> Faults() > old(Faults()))
      ensures r.Some? ==> Unread() && !kind.Raw? && old(src.pos) <= src.pos && maxCacheSize <= src.pos
      ensures r.Some? ==> Pieces(r.value) <= Parts() && Reads(r.value, src.content[..src.pos])
      ensures r.Some? && tee != null ==> tee.log == old(tee.log) + src.content[old(src.pos)..src.pos]
    {
      hide Flatten;
      StartPeeking();
      if maxCacheSize <= peekBuff.size { return Some(OfPeek(peekBuff)); }
      var buf := src.ReadFull(maxCacheSize - peekBuff.size, tee);
      if |buf| != maxCacheSize - peekBuff.size { return None; }
      peekBuff.Append(buf);
      if peekBuff.size >= size { kind := Peeked; }
      return Some(OfPeek(peekBuff));
    }

    /** RangeRead, with the section it returns read to its end: a negative length, or one beyond the
        end, means everything from `start` on. Only a failure can keep it from answering. */
    method RangeRead(start: nat, length: int) returns (r: Option<seq<Byte>>)
      requires Valid()
      modifies this, src, tee, Parts()
      ensures r.Some? ==> Valid()
      ensures r.Some? && start <= size && (length < 0 || start + length > size) ==> r.value == src.content[start..]
      ensures r.Some? && start <= size && 0 <= length && start + length <= size ==>
        r.value == src.content[start..start + length]
      ensures r.Some? && start > size ==> r.value == []
      ensures tee == old(tee) && fresh(Parts() - old(Parts()))
      ensures Faults() >= old(Faults()) && (r.None? ==> Faults() > old(Faults()))
    {
      hide Flatten, Slice, Holds;
      var n := if length < 0 || start + length > size then size - start else length;
      RangeIs(src.content, start, length, n);
      r := ReadRange(start, n);
    }

    static lemma RangeIs(s: seq<Byte>, start: nat, length: int, n: int)
      requires n == if length < 0 || start + length > |s| then |s| - start else length
      ensures var p := if n <= 0 then [] else Slice(s, start, n);
        if start > |s| then p == []
        else if length < 0 || start + length > |s| then p == s[start..]
        else p == s[start..start + length]
    {
    }

    /** A range of the stream, from its file or from what is made readable for it. */
    method ReadRange(start: nat, n: int) returns (r: Option<seq<Byte>>)
      requires Valid() && 0 <= start + n <= size
      modifies this, src, tee, Parts()
      ensures r.Some? ==> Valid() && r.value == if n <= 0 then [] else Slice(src.content, start, n)
      ensures tee == old(tee) && fresh(Parts() - old(Parts()))
      ensures Faults() >= old(Faults()) && (r.None? ==> Faults() > old(Faults()))
    {
      hide Flatten, Slice, Holds;
      var file := GetFile();
      if file.Some? {
        var p := ReadSection(file.value, start, n, src.content);
        return Some(p);
      }
      file := Cache(start + n);
      if file.None? { return None; }
      PrefixSlice(src.content, src.pos, start, n);
      var p := ReadSection(file.value, start, n, src.content[..src.pos]);
      return Some(p);
    }

    static lemma PrefixSlice(s: seq<Byte>, pos: nat, off: nat, n: int)
      requires pos <= |s| && off + n <= pos
      ensures 0 < n ==> Slice(s[..pos], off, n) == Slice(s, off, n)
    {
    }

    /** CacheFullAndWriter for a known size: everything becomes readable as a file, and a writer
        gets everything exactly once. */
    method CacheFullAndWriter(writer: Sink?) returns (r: Option<File>)
      requires Valid()
      modifies this, src, tee, Parts(), writer
      ensures r.Some? ==> Valid() && Pieces(r.value) <= Parts() && Reads(r.value, src.content)
      ensures r.Some? && writer != null ==> writer.log == old(writer.log) + src.content
      ensures fresh(Parts() - old(Parts()))
      ensures Faults() >= old(Faults()) && (r.None? ==> Faults() > old(Faults()))
    {
      hide Flatten, Slice, Holds, Reads, Faults;
      var file := GetFile();
      FileReads();
      if file.Some? {
        if writer != null {
          var ok := CopyTo(file.value, writer);
          if !ok { return None; }
        }
        return file;
      }
      if writer != null { TeeTo(writer); }
      r := Cache(size);
      assert r.Some? ==> src.content[..src.pos] == src.content;
    }

    lemma FileReads()
      requires Valid()
      ensures GetFile().Some? ==> Pieces(GetFile().value) <= Parts() && Reads(GetFile().value, src.content)
    {
      hide Flatten;
    }

    method CopyTo(file: File, writer: Sink) returns (ok: bool)
      requires Valid() && Reads(file, src.content)
      modifies `faults, writer
      ensures Valid() && Reads(file, src.content) && Parts() == old(Parts())
      ensures Faults() >= old(Faults()) && (!ok ==> Faults() > old(Faults()))
      ensures ok ==> writer.log == old(writer.log) + src.content
    {
      hide Flatten, Holds, Slice;
      RangeIs(src.content, 0, size, size);
      var all := ReadSection(file, 0, size, src.content);
      writer.log := writer.log + all;
      ok := *;
      if !ok { faults := faults + 1; }
    }

    /** Hand a writer what is peeked, and everything else as it is read. */
    method TeeTo(writer: Sink)
      requires Unread() && GetFile().None?
      modifies `tee, peekBuff, writer
      ensures Unread() && tee == writer && writer.log == old(writer.log) + src.content[..src.pos]
    {
      if peekBuff != null {
        var peeked, _ := peekBuff.Read(peekBuff.size);
        writer.log := writer.log + peeked;
        var _ := peekBuff.Seek(0, FromStart);
      }
      tee := writer;
    }

    /** io.ReadAll over the stream: it is consumed. */
    method ReadAll() returns (r: Option<seq<Byte>>)
      requires Valid()
      modifies this, src, tee, Parts()
      ensures r.Some? ==> r.value == src.content
      ensures Faults() >= old(Faults()) && (r.None? ==> Faults() > old(Faults()))
    {
      var file := GetFile();
      if file.Some? {
        var all := ReadSection(file.value, 0, size, src.content);
        return Some(all);
      }
      var peeked: seq<Byte>, eof := [], true;
      if peekBuff != null { peeked, eof := peekBuff.Read(peekBuff.size); }
      var rest := src.ReadFull(size - src.pos, tee);
      if |peeked| + |rest| != size { return None; }
      return Some(peeked + rest);
    }
  }
}
