/** The multi-threaded range downloader of internal/net/request.go as a machine: workers
    that fetch chunks into reused buffers, and one reader that stitches the buffers
    together. A step is one critical section, one channel operation, one lookup of the next
    buffer, one HTTP answer or one write of a piece of a response body. */
module Downloader {
  import opened Basics
  import opened DownloadPlan

  /** The file, the requested range, the part size and the configured concurrency. */
  datatype Config = Config(file: seq<Byte>, start: nat, length: nat, part: nat, concurrency: nat)

  /** `Buf`: capacity |data|; `pending` and `signal` are readPending and readSignal. */
  datatype Buf = Buf(data: seq<Byte>, size: nat, offR: nat, offW: nat, pending: bool, signal: bool)

  /** A chunk in the channel or with a worker; `buf` is the index of its buffer. `start` and
      `size` move when a retry continues from the middle. */
  datatype Chunk = Chunk(id: nat, start: nat, size: nat, buf: nat, newConcurrency: bool)

  datatype Worker =
    | Waiting                     // at the channel
    | Requesting(ch: Chunk)       // about to ask for ch.start, ch.size
    | Copying(ch: Chunk, n: nat)  // n bytes of the response body are written
    | Gone

  /** The reader is outside Read, at the head of Buf.Read's loop, parked on readSignal, about to
      finish its buffer, or about to look up the next one. */
  datatype ReadPc = Outside | Loop(p: nat) | Parked(p: nat) | Finishing | Switching

  datatype State = State(
    pos: nat, nextChunk: nat, bufs: seq<Buf>, concurrency: int, channel: seq<Chunk>, workers: seq<Worker>,
    failed: bool, cur: nat, rPos: nat, read: ReadPc, eof: bool, out: seq<Byte>)

  predicate GoodConfig(c: Config) {
    && 0 < c.part < c.length && c.start + c.length <= |c.file|
    && 0 < c.concurrency <= MaxPart(c.length, c.part)
  }

  function Parts(c: Config): nat
    requires c.part > 0
  {
    MaxPart(c.length, c.part)
  }

  function NewBuf(part: nat): Buf {
    Buf(seq(part, _ => 0), part, 0, 0, false, false)
  }

  function Reset(b: Buf, size: nat): Buf {
    b.(size := size, offR := 0, offW := 0)
  }

  /** How many of `k` bytes Buf.Write takes. */
  function Room(b: Buf, k: nat): nat {
    if b.offW >= b.size || b.offW >= |b.data| then 0
    else Min(k, Min(b.size - b.offW, |b.data| - b.offW))
  }

  /** Buf.Write: it takes what fits and wakes a reader that waits for data. */
  function Write(b: Buf, bytes: seq<Byte>): Buf {
    if b.offW >= b.size || |bytes| == 0 then b
    else
      var n := Room(b, |bytes|);
      b.(data := if n == 0 then b.data else b.data[..b.offW] + bytes[..n] + b.data[b.offW + n..],
         offW := b.offW + n,
         signal := b.signal || b.pending,
         pending := false)
  }

  /** Where getBuf finds the buffer of a chunk. */
  function Slot(id: nat, n: nat): (i: nat)
    requires n > 0
    ensures i < n
  {
    id % n
  }

  /** sendChunkTask after it decided on a worker: pick a buffer, and send the next chunk. */
  function Deliver(c: Config, s: State, isNew: bool, newConcurrency: bool): State
    requires c.part > 0 && (isNew || |s.bufs| > 0)
  {
    var b := if isNew then |s.bufs| else Slot(s.nextChunk, |s.bufs|);
    var bufs := if isNew then s.bufs + [NewBuf(c.part)] else s.bufs;
    var size := ChunkSize(s.nextChunk, c.length, c.part);
    if s.pos >= c.start + c.length || size > |bufs[b].data| then s.(bufs := bufs)
    else s.(bufs := bufs[b := Reset(bufs[b], size)],
            channel := s.channel + [Chunk(s.nextChunk, s.pos, size, b, newConcurrency)],
            pos := s.pos + size,
            nextChunk := s.nextChunk + 1)
  }

  function Spawn(s: State): State {
    s.(concurrency := s.concurrency - 1, workers := s.workers + [Waiting])
  }

  /** sendChunkTask: `limitOk` is the answer of the shared concurrency limit. */
  function SendChunk(c: Config, s: State, newConcurrency: bool, limitOk: bool): State
    requires c.part > 0 && (s.concurrency > 0 || |s.bufs| > 0)
  {
    if newConcurrency && (s.concurrency <= 0 || (s.nextChunk > 0 && !limitOk)) then s
    else Deliver(c, if newConcurrency then Spawn(s) else s, s.concurrency > 0, newConcurrency)
  }

  /** download() up to the point where it hands out the reader. */
  function Start(c: Config): State
    requires c.part > 0 && c.concurrency > 0
  {
    SendChunk(c, State(c.start, 0, [], c.concurrency, [], [], false, 0, 0, Outside, false, []), true, true)
  }

  datatype Label =
    | Receive(w: nat)
    | Drop(w: nat)
    | Fails(w: nat)
    | Overload(w: nat)
    | Responds(w: nat, limitOk: bool)
    | Body(w: nat, k: nat)
    | Done(w: nat)
    | Breaks(w: nat)
    | ReadCall(p: nat)
    | ReadLoop
    | Wake
    | SendNext
    | Switch
    | Abort

  function SetWorker(s: State, w: nat, x: Worker): State
    requires w < |s.workers|
  {
    s.(workers := s.workers[w := x])
  }

  /** What is left of a chunk after n bytes. */
  function Rest(ch: Chunk, n: nat): Chunk {
    ch.(start := ch.start + n, size := if n <= ch.size then ch.size - n else 0)
  }

  predicate Enabled(c: Config, s: State, l: Label) {
    match l
    case Receive(w) => w < |s.workers| && s.workers[w].Waiting? && |s.channel| > 0
    case Drop(w) => w < |s.workers| && (s.workers[w].Requesting? || s.workers[w].Copying?) && s.failed
    case Fails(w) => w < |s.workers| && (s.workers[w].Requesting? || s.workers[w].Copying?)
    case Overload(w) => w < |s.workers| && s.workers[w].Requesting? && s.workers[w].ch.id > 0
    case Responds(w, _) => w < |s.workers| && s.workers[w].Requesting?
    case Body(w, k) =>
      && w < |s.workers| && s.workers[w].Copying?
      && 0 < k && s.workers[w].n + k <= s.workers[w].ch.size
      && s.workers[w].ch.start + s.workers[w].n + k <= |c.file| && s.workers[w].ch.buf < |s.bufs|
    case Done(w) => w < |s.workers| && s.workers[w].Copying? && s.workers[w].n == s.workers[w].ch.size
    case Breaks(w) => w < |s.workers| && s.workers[w].Copying?
    case ReadCall(p) => s.read.Outside?
    case ReadLoop => s.read.Loop?
    case Wake => s.read.Parked? && s.cur < |s.bufs| && s.bufs[s.cur].signal
    case SendNext => s.read.Finishing?
    case Switch => s.read.Switching?
    case Abort => (s.read.Loop? || s.read.Parked?) && s.failed
  }

  /** finishBuf, after the current buffer reported the end: the last chunk ends the range, and
      any other one sends a chunk. The next buffer is looked up after the lock is given back. */
  function FinishBuf(c: Config, s: State): State
    requires c.part > 0 && |s.bufs| > 0
  {
    if s.rPos + 1 >= Parts(c) then s.(read := Outside, eof := true)
    else SendChunk(c, s, false, true).(rPos := s.rPos + 1, read := Switching)
  }

  /** `n` bytes of the current buffer go to the caller. */
  function CopyOut(s: State, n: nat, read: ReadPc): State
    requires s.cur < |s.bufs| && s.bufs[s.cur].offR + n <= |s.bufs[s.cur].data|
  {
    var b := s.bufs[s.cur];
    s.(bufs := s.bufs[s.cur := b.(offR := b.offR + n)], out := s.out + b.data[b.offR..b.offR + n], read := read)
  }

  /** The body of Buf.Read's loop with a slice of `p` bytes. */
  function ReadOnce(s: State, p: nat): State
    requires s.cur < |s.bufs|
  {
    var b := s.bufs[s.cur];
    if b.offW < b.offR || b.offW > |b.data| then s.(read := Outside)
    else if b.offW == b.offR then s.(bufs := s.bufs[s.cur := b.(pending := true)], read := Parked(p))
    else
      var n := if p <= b.offW - b.offR then p else b.offW - b.offR;
      CopyOut(s, n, if n < p && b.offR + n >= b.size then Finishing else Outside)
  }

  /** The state a step leads to. */
  function Step(c: Config, s: State, l: Label): State
    requires c.part > 0 && |s.bufs| > 0 && s.cur < |s.bufs| && Enabled(c, s, l)
  {
    match l
    // a worker takes the first chunk, and gives up when the download has failed
    case Receive(w) =>
      SetWorker(s.(channel := s.channel[1..]), w, if s.failed then Gone else Requesting(s.channel[0]))
    // downloadChunk sees that the download has failed and drops its chunk
    case Drop(w) => SetWorker(s, w, Waiting)
    // a fatal answer, or the last retry failed
    case Fails(w) => SetWorker(s, w, Gone).(failed := true)
    // a later chunk was refused: the worker re-queues the chunk and leaves, or asks again;
    // one that sees a failed download only drops its work
    case Overload(w) =>
      var ch := s.workers[w].ch;
      if ch.newConcurrency || s.concurrency > 0 then
        var k := if s.concurrency > 0 then -s.concurrency else s.concurrency;
        SetWorker(s, w, if s.failed then Waiting else Gone).(concurrency := k - 1, channel := s.channel + [ch])
      else s
    // a response: try to start the next chunk, then copy the body
    case Responds(w, limitOk) =>
      var s' := SendChunk(c, s, true, limitOk);
      SetWorker(s', w, Copying(s.workers[w].ch, 0))
    // the next k bytes of the body go into the chunk's buffer; a short write is retried
    case Body(w, k) =>
      var Copying(ch, n) := s.workers[w];
      var b, m := s.bufs[ch.buf], Room(s.bufs[ch.buf], k);
      SetWorker(s.(bufs := s.bufs[ch.buf := Write(b, c.file[ch.start + n..ch.start + n + k])]), w,
                if m == k then Copying(ch, n + m) else Requesting(Rest(ch, n + m)))
    case Done(w) => SetWorker(s, w, Waiting)
    // the body ended early or with an error: ask for the rest
    case Breaks(w) =>
      var Copying(ch, n) := s.workers[w];
      SetWorker(s, w, Requesting(Rest(ch, n)))
    // Read: an exhausted buffer is seen without taking its lock
    case ReadCall(p) =>
      if p == 0 then s
      else if s.bufs[s.cur].offR >= s.bufs[s.cur].size then s.(read := Finishing)
      else s.(read := Loop(p))
    case ReadLoop => ReadOnce(s, s.read.p)
    case Wake => s.(bufs := s.bufs[s.cur := s.bufs[s.cur].(signal := false)], read := Loop(s.read.p))
    case SendNext => FinishBuf(c, s)
    // getBuf: the ring may have grown since the chunk was sent
    case Switch => s.(cur := Slot(s.rPos, |s.bufs|), read := Outside)
    // the context is cancelled while the reader waits
    case Abort => s.(read := Outside)
  }
}
