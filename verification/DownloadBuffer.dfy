/** `Buf` of internal/net/request.go as the object it is: an array that one writer fills and one
    reader drains. Its methods do to the fields what the machine's functions say. */
module DownloadBuffer {
  import opened Basics
  import opened Downloader

  /** What Read's loop does under the lock. */
  datatype ReadAnswer = Delivered(p: seq<Byte>, eof: bool) | WouldWait

  class Buffer {
    const buf: array<Byte>
    var size: nat
    var offR: nat
    var offW: nat
    var readPending: bool
    var readSignal: bool

    /** The value the machine works with. */
    ghost function Value(): Buf
      reads this, buf
    {
      Buf(buf[..], size, offR, offW, readPending, readSignal)
    }

    ghost predicate Valid()
      reads this
    {
      offR <= offW <= size <= buf.Length
    }

    constructor (maxSize: nat)
      ensures Value() == NewBuf(maxSize) && Valid() && fresh(buf)
    {
      buf := new Byte[maxSize](_ => 0);
      size, offR, offW, readPending, readSignal := maxSize, 0, 0, false, false;
    }

    /** A size beyond the capacity is refused; otherwise only the offsets start over. */
    method Reset(n: nat) returns (ok: bool)
      requires Valid()
      modifies this
      ensures Valid() && (ok <==> n <= buf.Length)
      ensures Value() == if ok then Downloader.Reset(old(Value()), n) else old(Value())
    {
      if n > buf.Length { return false; }
      size, offR, offW := n, 0, 0;
      return true;
    }

    /** One turn of Read's loop: what is there, up to the slice's length, and the end of the
        buffer; or, with nothing there, a note that a reader waits. */
    method TryRead(want: nat) returns (r: ReadAnswer)
      requires Valid() && want > 0
      modifies this
      ensures Valid()
      ensures old(offR) >= size ==> r == Delivered([], true) && Value() == old(Value())
      ensures old(offR) < size && offW == old(offR) ==> r == WouldWait && Value() == old(Value()).(pending := true)
      ensures old(offR) < offW ==>
        var n := Min(want, offW - old(offR));
        && r == Delivered(buf[old(offR)..old(offR) + n], n < want && old(offR) + n >= size)
        && Value() == old(Value()).(offR := old(offR) + n)
    {
      if offR >= size { return Delivered([], true); }
      if offW > offR {
        var n := Min(want, offW - offR);
        var p := buf[offR..offR + n];
        offR := offR + n;
        return Delivered(p, n < want && offR >= size);
      }
      readPending := true;
      return WouldWait;
    }

    /** Write copies what fits and wakes a waiting reader. */
    method Write(p: seq<Byte>) returns (n: nat)
      requires Valid()
      modifies this, buf
      ensures Valid() && n == Room(old(Value()), |p|)
      ensures Value() == Downloader.Write(old(Value()), p)
    {
      if offW >= size || |p| == 0 { return 0; }
      n := Min(|p|, size - offW);
      forall i | 0 <= i < n { buf[offW + i] := p[i]; }
      assert buf[..] == old(buf[..])[..offW] + p[..n] + old(buf[..])[offW + n..];
      offW := offW + n;
      if readPending {
        readPending := false;
        readSignal := true;
      }
    }
  }
}
