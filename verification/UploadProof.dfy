/** Order, memory bound and progress of the upload pipeline. */
module UploadProof {
  import opened Basics
  import opened FileSplit
  import opened UploadPipeline

  // ---------------------------------------------------------------- where the chunks are

  /** Chunks handed to the writer. */
  function Handed(s: State): nat {
    if s.sched.Have? then s.sched.d.index else s.sched.i
  }

  /** Chunks the scheduler has taken. */
  function Picked(s: State): nat {
    Handed(s) + if s.sched.Have? then 1 else 0
  }

  /** Tokens taken so far. */
  function Acquired(s: State): nat {
    s.next + if s.disp.Send? || (s.disp.Stopped? && s.disp.held) then 1 else 0
  }

  /** Tokens given back so far, plus one while the writer works. */
  function Busy(s: State): nat {
    if s.writer.Ready? then 0 else 1
  }

  /** Chunks whose part the collector has been sent. */
  function Unsent(w: Writer): nat {
    if w.Uploading? || w.Uploaded? || w.WriterGone? then 1 else 0
  }

  /** Chunks handed over that the server does not have. */
  function Missing(w: Writer): nat {
    if w.Uploading? || (w.WriterGone? && !w.sent) then 1 else 0
  }

  predicate Holds(r: Reader) {
    r.Reading? || r.Loaded?
  }

  function Index(r: Reader): nat
    requires Holds(r)
  {
    if r.Reading? then r.i else r.d.index
  }

  // ---------------------------------------------------------------- the invariant

  ghost predicate CountInv(c: Config, s: State) {
    && |s.waiters| == N(c) && |s.readers| == READERS
    && Handed(s) <= Picked(s) <= s.next <= Acquired(s) <= N(c)
    && Busy(s) <= Handed(s)
    && s.tokens == Acquired(s) - Handed(s) + Busy(s) <= QUEUE_MAX
  }

  /** Readers work on different chunks that wait for them. */
  ghost predicate ReadersInv(c: Config, readers: seq<Reader>, waiters: seq<Option<ChunkData>>, lo: nat, hi: nat) {
    && hi <= |waiters| == N(c) && |readers| == READERS
    && (forall r :: 0 <= r < READERS && Holds(readers[r]) ==>
          lo <= Index(readers[r]) < hi && waiters[Index(readers[r])].None?)
    && (forall r :: 0 <= r < READERS && readers[r].Loaded? ==> readers[r].d == Good(c, Index(readers[r])))
    && (forall r, q :: 0 <= r < q < READERS && Holds(readers[r]) && Holds(readers[q]) ==>
          Index(readers[r]) != Index(readers[q]))
  }

  ghost predicate WaitersInv(c: Config, waiters: seq<Option<ChunkData>>, lo: nat, hi: nat) {
    && |waiters| == N(c)
    && (forall i :: 0 <= i < N(c) && waiters[i].Some? ==> lo <= i < hi && waiters[i].value == Good(c, i))
  }

  ghost predicate OrderInv(c: Config, sched: Scheduler, writer: Writer, h: nat) {
    && (sched.Have? ==> h < N(c) && sched.d == Good(c, h))
    && (writer.Uploading? ==> 0 < h <= N(c) && writer.d == Good(c, h - 1))
  }

  /** The server has chunk after chunk, each with its own number and bytes. */
  ghost predicate Ordered(c: Config, server: seq<Upload>) {
    && |server| <= N(c)
    && forall k :: 0 <= k < |server| ==>
         server[k].part.number == c.chunks[k].number && server[k].bytes == Good(c, k).bytes
  }

  /** The list of parts follows what the server has accepted. */
  ghost predicate PartsInv(c: Config, h: nat, writer: Writer, coll: Collector, parts: seq<Part>, wg: int, server: seq<Upload>) {
    && |server| == h - Missing(writer) && Ordered(c, server)
    && |parts| + (if coll.Holding? then 1 else 0) == h - Unsent(writer)
    && (forall k :: 0 <= k < |parts| ==> parts[k] == server[k].part)
    && (coll.Holding? ==> coll.part == server[|parts|].part)
    && (writer.Uploaded? ==> writer.part == server[|server| - 1].part)
    && wg == N(c) - |parts| + if coll.Counting? then 1 else 0
  }

  ghost predicate MainInv(c: Config, main: Main, parts: seq<Part>) {
    && (main.Completing? || main.Completed? ==> |parts| == N(c))
    && (main.Completed? ==> main.parts == parts)
  }

  predicate WithReader(readers: seq<Reader>, i: nat) {
    exists r :: 0 <= r < |readers| && Holds(readers[r]) && Index(readers[r]) == i
  }

  /** Between scheduler and dispatcher, a chunk is in its waiter or with a reader, unless a
      reader has given up. */
  ghost predicate FoundInv(readers: seq<Reader>, waiters: seq<Option<ChunkData>>, lo: nat, hi: nat) {
    && hi <= |waiters|
    && (NoneGone(readers) ==> forall i: nat :: lo <= i < hi && waiters[i].None? ==> WithReader(readers, i))
  }

  predicate NoneGone(readers: seq<Reader>) {
    forall r :: 0 <= r < |readers| ==> !readers[r].ReaderGone?
  }

  predicate StopInv(disp: Dispatcher, sched: Scheduler, cancelled: bool) {
    disp.Stopped? || sched.SchedStopped? ==> cancelled
  }

  function Dead(readers: seq<Reader>, writer: Writer): nat
    requires |readers| == READERS
  {
    (if readers[0].ReaderGone? then 1 else 0) + (if readers[1].ReaderGone? then 1 else 0) + (if writer.WriterGone? then 1 else 0)
  }

  /** An error per goroutine that gave up, and no attempt after the last. */
  ghost predicate TriesInv(readers: seq<Reader>, writer: Writer, errs: nat) {
    && |readers| == READERS && errs <= Dead(readers, writer)
    && (forall r :: 0 <= r < READERS && readers[r].Reading? ==> readers[r].tries < RETRIES)
    && (writer.Uploading? ==> writer.tries < RETRIES)
  }

  ghost predicate ChunksInv(c: Config, s: State) {
    && ReadersInv(c, s.readers, s.waiters, Picked(s), s.next)
    && WaitersInv(c, s.waiters, Picked(s), s.next)
    && (!s.sched.SchedStopped? ==> FoundInv(s.readers, s.waiters, Picked(s), s.next))
  }

  ghost predicate Inv(c: Config, s: State) {
    && CountInv(c, s) && ChunksInv(c, s)
    && OrderInv(c, s.sched, s.writer, Handed(s))
    && PartsInv(c, Handed(s), s.writer, s.coll, s.parts, s.wg, s.server)
    && MainInv(c, s.main, s.parts)
    && StopInv(s.disp, s.sched, s.cancelled)
    && TriesInv(s.readers, s.writer, s.errs)
  }

  lemma StartOk(c: Config)
    ensures Inv(c, Start(c))
  {
  }

  lemma TakeTokenKeeps(c: Config, s: State)
    requires Inv(c, s) && Enabled(c, s, TakeToken)
    ensures Inv(c, Step(c, s, TakeToken))
  {
    hide ReadersInv, WaitersInv, FoundInv, OrderInv, PartsInv, MainInv, TriesInv;
  }

  /** Replacing reader `r` keeps the other readers' chunks found. */
  lemma FoundKept(readers: seq<Reader>, r: nat, x: Reader, waiters: seq<Option<ChunkData>>, waiters': seq<Option<ChunkData>>,
                  lo: nat, hi: nat, hi': nat)
    requires FoundInv(readers, waiters, lo, hi) && r < |readers| && hi <= hi' <= |waiters'| && |waiters'| == |waiters|
    requires !readers[r].ReaderGone? && (hi' > hi ==> hi' == hi + 1 && Holds(x) && Index(x) == hi)
    requires forall i :: lo <= i < hi && waiters'[i].None? ==> waiters[i].None?
    requires Holds(readers[r]) ==>
      x.ReaderGone? || (Holds(x) && Index(x) == Index(readers[r])) ||
      (Index(readers[r]) < |waiters| && waiters'[Index(readers[r])].Some?)
    ensures FoundInv(readers[r := x], waiters', lo, hi')
  {
    var readers' := readers[r := x];
    assert readers'[r] == x;
    if NoneGone(readers') {
      assert forall q :: 0 <= q < |readers| && q != r ==> readers[q] == readers'[q];
      forall i: nat | lo <= i < hi' && waiters'[i].None? ensures WithReader(readers', i) {
        if i < hi {
          assert WithReader(readers, i);
          var q :| 0 <= q < |readers| && Holds(readers[q]) && Index(readers[q]) == i;
          assert Holds(readers'[q]) && Index(readers'[q]) == i;
        }
      }
    }
  }

  /** Replacing reader `r` by one with the same chunk, with the next chunk, or with none. */
  lemma ReadersKept(c: Config, readers: seq<Reader>, r: nat, x: Reader, waiters: seq<Option<ChunkData>>,
                    waiters': seq<Option<ChunkData>>, lo: nat, hi: nat, hi': nat)
    requires ReadersInv(c, readers, waiters, lo, hi) && r < READERS && |waiters'| == |waiters| && lo <= hi <= hi' <= N(c)
    requires Holds(x) ==> (Holds(readers[r]) && Index(x) == Index(readers[r])) || (x.Reading? && Index(x) == hi < hi' && waiters'[hi].None?)
    requires x.Loaded? ==> x.d == Good(c, Index(readers[r]))
    requires forall i :: 0 <= i < |waiters| && waiters[i].None? && waiters'[i].Some? ==>
               !Holds(x) && Holds(readers[r]) && Index(readers[r]) == i
    ensures ReadersInv(c, readers[r := x], waiters', lo, hi')
  {
  }

  lemma TriesKept(readers: seq<Reader>, r: nat, x: Reader, writer: Writer, errs: nat, errs': nat)
    requires TriesInv(readers, writer, errs) && r < READERS && !readers[r].ReaderGone?
    requires x.Reading? ==> x.tries < RETRIES
    requires errs' <= errs + if x.ReaderGone? then 1 else 0
    ensures TriesInv(readers[r := x], writer, errs')
  {
  }

  lemma NextIsFree(c: Config, waiters: seq<Option<ChunkData>>, lo: nat, hi: nat)
    requires WaitersInv(c, waiters, lo, hi) && hi < N(c)
    ensures waiters[hi].None? && WaitersInv(c, waiters, lo, hi + 1)
  {
  }

  lemma SendJobKeeps(c: Config, s: State, r: nat)
    requires Inv(c, s) && Enabled(c, s, SendJob(r))
    ensures Inv(c, Step(c, s, SendJob(r)))
  {
    hide OrderInv, PartsInv, MainInv, FoundInv, ReadersInv, TriesInv, WaitersInv;
    var x := Reading(s.next, 0);
    NextIsFree(c, s.waiters, Picked(s), s.next);
    if !s.sched.SchedStopped? {
      FoundKept(s.readers, r, x, s.waiters, s.waiters, Picked(s), s.next, s.next + 1);
    }
    ReadersKept(c, s.readers, r, x, s.waiters, s.waiters, Picked(s), s.next, s.next + 1);
    TriesKept(s.readers, r, x, s.writer, s.errs, s.errs);
  }

  lemma ReadOkKeeps(c: Config, s: State, r: nat)
    requires Inv(c, s) && Enabled(c, s, ReadOk(r))
    ensures Inv(c, Step(c, s, ReadOk(r)))
  {
    hide OrderInv, PartsInv, MainInv, WaitersInv, StopInv, FoundInv, ReadersInv, TriesInv;
    var s' := Step(c, s, ReadOk(r));
    ReadersKept(c, s.readers, r, s'.readers[r], s.waiters, s'.waiters, Picked(s), s.next, s.next);
    TriesKept(s.readers, r, s'.readers[r], s.writer, s.errs, s'.errs);
    if !s.sched.SchedStopped? {
      FoundKept(s.readers, r, s'.readers[r], s.waiters, s'.waiters, Picked(s), s.next, s.next);
    }
  }

  lemma ReadFailsKeeps(c: Config, s: State, r: nat)
    requires Inv(c, s) && Enabled(c, s, ReadFails(r))
    ensures Inv(c, Step(c, s, ReadFails(r)))
  {
    hide OrderInv, PartsInv, MainInv, WaitersInv, StopInv, FoundInv, ReadersInv;
    var s' := Step(c, s, ReadFails(r));
    ReadersKept(c, s.readers, r, s'.readers[r], s.waiters, s'.waiters, Picked(s), s.next, s.next);
    TriesKept(s.readers, r, s'.readers[r], s.writer, s.errs, s'.errs);
    if !s.sched.SchedStopped? {
      FoundKept(s.readers, r, s'.readers[r], s.waiters, s'.waiters, Picked(s), s.next, s.next);
    }
  }

  lemma LoadedIsGood(c: Config, readers: seq<Reader>, r: nat, waiters: seq<Option<ChunkData>>, lo: nat, hi: nat)
    requires ReadersInv(c, readers, waiters, lo, hi) && r < READERS && readers[r].Loaded?
    ensures lo <= readers[r].d.index < hi <= N(c) && readers[r].d == Good(c, readers[r].d.index)
  {
  }

  lemma PutKeeps(c: Config, s: State, r: nat)
    requires Inv(c, s) && Enabled(c, s, Put(r))
    ensures Inv(c, Step(c, s, Put(r)))
  {
    hide OrderInv, PartsInv, MainInv, StopInv, FoundInv, ReadersInv, TriesInv;
    LoadedIsGood(c, s.readers, r, s.waiters, Picked(s), s.next);
    var s' := Step(c, s, Put(r));
    ReadersKept(c, s.readers, r, s'.readers[r], s.waiters, s'.waiters, Picked(s), s.next, s.next);
    TriesKept(s.readers, r, s'.readers[r], s.writer, s.errs, s'.errs);
    if !s.sched.SchedStopped? {
      FoundKept(s.readers, r, s'.readers[r], s.waiters, s'.waiters, Picked(s), s.next, s.next);
    }
  }

  lemma FoundLater(readers: seq<Reader>, waiters: seq<Option<ChunkData>>, waiters': seq<Option<ChunkData>>, lo: nat, hi: nat)
    requires FoundInv(readers, waiters, lo, hi) && |waiters'| == |waiters|
    requires forall i :: lo < i < hi ==> waiters'[i] == waiters[i]
    ensures FoundInv(readers, waiters', lo + 1, hi)
  {
    hide WithReader, NoneGone;
  }

  lemma ReadersLater(c: Config, readers: seq<Reader>, waiters: seq<Option<ChunkData>>, lo: nat, hi: nat)
    requires ReadersInv(c, readers, waiters, lo, hi) && lo < |waiters| && waiters[lo].Some?
    ensures ReadersInv(c, readers, waiters[lo := None], lo + 1, hi)
  {
    hide Good;
  }

  lemma PickKeeps(c: Config, s: State)
    requires Inv(c, s) && Enabled(c, s, Pick)
    ensures Inv(c, Step(c, s, Pick))
  {
    hide PartsInv, MainInv, TriesInv, FoundInv, ReadersInv;
    ReadersLater(c, s.readers, s.waiters, Picked(s), s.next);
    if !s.sched.SchedStopped? { FoundLater(s.readers, s.waiters, Step(c, s, Pick).waiters, Picked(s), s.next); }
  }

  lemma HandKeeps(c: Config, s: State)
    requires Inv(c, s) && Enabled(c, s, Hand)
    ensures Inv(c, Step(c, s, Hand))
  {
    hide ReadersInv, WaitersInv, FoundInv, MainInv;
  }

  lemma UploadOkKeeps(c: Config, s: State, etag: nat)
    requires Inv(c, s) && Enabled(c, s, UploadOk(etag))
    ensures Inv(c, Step(c, s, UploadOk(etag)))
  {
    hide ReadersInv, WaitersInv, FoundInv, MainInv, StopInv;
  }

  lemma TriesOfWriter(readers: seq<Reader>, writer: Writer, x: Writer, errs: nat)
    requires TriesInv(readers, writer, errs) && writer.Uploading?
    ensures x.Uploading? && x.tries < RETRIES ==> TriesInv(readers, x, errs)
    ensures x.WriterGone? ==> TriesInv(readers, x, errs + 1)
  {
  }

  lemma WriterRetries(c: Config, s: State, tries: nat)
    requires Inv(c, s) && s.writer.Uploading? && tries < RETRIES
    ensures Inv(c, s.(writer := Uploading(s.writer.d, tries)))
  {
    TriesOfWriter(s.readers, s.writer, Uploading(s.writer.d, tries), s.errs);
    hide ReadersInv, WaitersInv, FoundInv, StopInv, MainInv, Ordered, TriesInv;
  }

  lemma WriterGivesUp(c: Config, s: State)
    requires Inv(c, s) && s.writer.Uploading?
    ensures Inv(c, s.(writer := WriterGone(false), errs := s.errs + 1))
  {
    TriesOfWriter(s.readers, s.writer, WriterGone(false), s.errs);
    hide ReadersInv, WaitersInv, FoundInv, StopInv, MainInv, Ordered, TriesInv;
  }

  lemma UploadFailsKeeps(c: Config, s: State)
    requires Inv(c, s) && Enabled(c, s, UploadFails)
    ensures Inv(c, Step(c, s, UploadFails))
  {
    hide Inv;
    if s.writer.tries + 1 < RETRIES { WriterRetries(c, s, s.writer.tries + 1); } else { WriterGivesUp(c, s); }
  }

  lemma SendPartKeeps(c: Config, s: State)
    requires Inv(c, s) && Enabled(c, s, SendPart)
    ensures Inv(c, Step(c, s, SendPart))
  {
    hide ReadersInv, WaitersInv, FoundInv, StopInv, MainInv, Ordered;
  }

  lemma AppendKeeps(c: Config, s: State)
    requires Inv(c, s) && Enabled(c, s, Append)
    ensures Inv(c, Step(c, s, Append))
  {
    hide ReadersInv, WaitersInv, FoundInv, StopInv, TriesInv, OrderInv, Ordered;
  }

  lemma CountDownKeeps(c: Config, s: State)
    requires Inv(c, s) && Enabled(c, s, CountDown)
    ensures Inv(c, Step(c, s, CountDown))
  {
    hide ReadersInv, WaitersInv, FoundInv, StopInv, TriesInv, OrderInv, Ordered;
  }

  lemma ReleaseKeeps(c: Config, s: State)
    requires Inv(c, s) && Enabled(c, s, Release)
    ensures Inv(c, Step(c, s, Release))
  {
    hide ReadersInv, WaitersInv, FoundInv, StopInv, MainInv, Ordered;
  }

  lemma QuitKeeps(c: Config, s: State)
    requires Inv(c, s) && Enabled(c, s, Quit)
    ensures Inv(c, Step(c, s, Quit))
  {
    hide ReadersInv, WaitersInv, FoundInv, StopInv, OrderInv, TriesInv, Ordered;
  }

  lemma CompleteKeeps(c: Config, s: State, ok: bool)
    requires Inv(c, s) && Enabled(c, s, Complete(ok))
    ensures Inv(c, Step(c, s, Complete(ok)))
  {
    hide ReadersInv, WaitersInv, FoundInv, StopInv, OrderInv, TriesInv, PartsInv;
  }

  lemma MainErrorKeeps(c: Config, s: State)
    requires Inv(c, s) && Enabled(c, s, MainError)
    ensures Inv(c, Step(c, s, MainError))
  {
    hide ReadersInv, WaitersInv, FoundInv, OrderInv, PartsInv;
  }

  lemma MainStopsKeeps(c: Config, s: State)
    requires Inv(c, s) && Enabled(c, s, MainStops)
    ensures Inv(c, Step(c, s, MainStops))
  {
    hide ReadersInv, WaitersInv, FoundInv, OrderInv, TriesInv, PartsInv;
  }

  lemma CancelKeeps(c: Config, s: State)
    requires Inv(c, s) && Enabled(c, s, Cancel)
    ensures Inv(c, Step(c, s, Cancel))
  {
    hide ReadersInv, WaitersInv, FoundInv, OrderInv, TriesInv, PartsInv;
  }

  lemma StopDispatcherKeeps(c: Config, s: State)
    requires Inv(c, s) && Enabled(c, s, StopDispatcher)
    ensures Inv(c, Step(c, s, StopDispatcher))
  {
    hide ReadersInv, WaitersInv, FoundInv, OrderInv, TriesInv, PartsInv, MainInv;
  }

  lemma StopReaderKeeps(c: Config, s: State, r: nat)
    requires Inv(c, s) && Enabled(c, s, StopReader(r))
    ensures Inv(c, Step(c, s, StopReader(r)))
  {
    hide OrderInv, PartsInv, MainInv, WaitersInv, StopInv, FoundInv, ReadersInv, TriesInv;
    var s' := Step(c, s, StopReader(r));
    ReadersKept(c, s.readers, r, s'.readers[r], s.waiters, s'.waiters, Picked(s), s.next, s.next);
    TriesKept(s.readers, r, s'.readers[r], s.writer, s.errs, s'.errs);
    if !s.sched.SchedStopped? {
      FoundKept(s.readers, r, s'.readers[r], s.waiters, s'.waiters, Picked(s), s.next, s.next);
    }
  }

  lemma StopSchedulerKeeps(c: Config, s: State)
    requires Inv(c, s) && Enabled(c, s, StopScheduler)
    ensures Inv(c, Step(c, s, StopScheduler))
  {
    hide TriesInv, MainInv, Ordered;
  }

  lemma StopWriterKeeps(c: Config, s: State)
    requires Inv(c, s) && Enabled(c, s, StopWriter)
    ensures Inv(c, Step(c, s, StopWriter))
  {
    hide ReadersInv, WaitersInv, FoundInv, MainInv, Ordered;
  }

  lemma StepKeepsInv(c: Config, s: State, l: Label)
    requires Inv(c, s) && Enabled(c, s, l)
    ensures Inv(c, Step(c, s, l))
  {
    hide Inv, Step, Enabled;
    match l
    case TakeToken => TakeTokenKeeps(c, s);
    case SendJob(r) => SendJobKeeps(c, s, r);
    case ReadOk(r) => ReadOkKeeps(c, s, r);
    case ReadFails(r) => ReadFailsKeeps(c, s, r);
    case Put(r) => PutKeeps(c, s, r);
    case Pick => PickKeeps(c, s);
    case Hand => HandKeeps(c, s);
    case UploadOk(etag) => UploadOkKeeps(c, s, etag);
    case UploadFails => UploadFailsKeeps(c, s);
    case SendPart => SendPartKeeps(c, s);
    case Append => AppendKeeps(c, s);
    case CountDown => CountDownKeeps(c, s);
    case Release => ReleaseKeeps(c, s);
    case Quit => QuitKeeps(c, s);
    case Complete(ok) => CompleteKeeps(c, s, ok);
    case MainError => MainErrorKeeps(c, s);
    case MainStops => MainStopsKeeps(c, s);
    case Cancel => CancelKeeps(c, s);
    case StopDispatcher => StopDispatcherKeeps(c, s);
    case StopReader(r) => StopReaderKeeps(c, s, r);
    case StopScheduler => StopSchedulerKeeps(c, s);
    case StopWriter => StopWriterKeeps(c, s);
  }
}
