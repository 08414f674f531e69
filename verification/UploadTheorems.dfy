/** What every run of the upload pipeline guarantees. */
module UploadTheorems {
  import opened Basics
  import opened FileSplit
  import opened UploadPipeline
  import opened UploadProof

  ghost predicate IsRun(c: Config, run: seq<State>, labels: seq<Label>) {
    && |run| == |labels| + 1 && run[0] == Start(c)
    && forall i :: 0 <= i < |labels| ==> IsStep(c, run[i], labels[i], run[i + 1])
  }

  ghost predicate IsStep(c: Config, s: State, l: Label, s': State) {
    Enabled(c, s, l) && s' == Step(c, s, l)
  }

  lemma {:induction false} InvAlways(c: Config, run: seq<State>, labels: seq<Label>, i: nat)
    requires IsRun(c, run, labels) && i < |run|
    ensures Inv(c, run[i])
  {
    hide Inv, Step, Enabled;
    if i == 0 {
      StartOk(c);
    } else {
      InvAlways(c, run, labels, i - 1);
      assert IsStep(c, run[i - 1], labels[i - 1], run[i]);
      StepKeepsInv(c, run[i - 1], labels[i - 1]);
    }
  }

  // ---------------------------------------------------------------- order

  /** The bytes the server has, one part after the other. */
  function Joined(server: seq<Upload>): seq<Byte> {
    if server == [] then [] else Joined(server[..|server| - 1]) + server[|server| - 1].bytes
  }

  /** At every moment the server holds the parts 1, 2, ... without a gap, each with the bytes
      of its own chunk. */
  lemma PartsArriveInOrder(c: Config, run: seq<State>, labels: seq<Label>, i: nat)
    requires IsRun(c, run, labels) && i < |run| && Tiles(c.chunks, End(c.chunks))
    ensures |run[i].server| <= |c.chunks|
    ensures forall k :: 0 <= k < |run[i].server| ==>
      && run[i].server[k].part.number == k + 1
      && run[i].server[k].bytes == ReadAt(c.file, c.chunks[k].offset, c.chunks[k].size)
  {
    InvAlways(c, run, labels, i);
  }

  lemma LastEnd(chunks: seq<FileChunk>, n: nat)
    requires Contiguous(chunks) && 0 < n <= |chunks|
    ensures End(chunks[..n]) == chunks[n - 1].offset + chunks[n - 1].size && chunks[n - 1].offset == End(chunks[..n - 1])
  {
    assert chunks[..n][n - 1] == chunks[n - 1];
  }

  lemma ReadInside(file: seq<Byte>, off: int, size: int)
    requires 0 <= off && 0 <= size && off + size <= |file|
    ensures ReadAt(file, off, size) == file[off..off + size]
    ensures file[..off] + file[off..off + size] == file[..off + size]
  {
  }

  lemma {:induction false} JoinedIs(c: Config, server: seq<Upload>)
    requires Ordered(c, server) && Tiles(c.chunks, |c.file|)
    ensures 0 <= End(c.chunks[..|server|]) <= |c.file|
    ensures Joined(server) == c.file[..End(c.chunks[..|server|])]
  {
    hide ReadAt, End;
    var n := |server|;
    EndsGrow(c.chunks, n);
    if n > 0 {
      JoinedIs(c, server[..n - 1]);
      EndsGrow(c.chunks, n - 1);
      LastEnd(c.chunks, n);
      ReadInside(c.file, c.chunks[n - 1].offset, c.chunks[n - 1].size);
    } else {
      NoChunks();
    }
  }

  lemma NoChunks()
    ensures End([]) == 0
  {
  }

  lemma {:induction false} EndsGrow(chunks: seq<FileChunk>, n: nat)
    requires Contiguous(chunks) && n <= |chunks|
    ensures 0 <= End(chunks[..n]) <= End(chunks)
    decreases |chunks| - n
  {
    if n < |chunks| {
      EndsGrow(chunks, n + 1);
      assert chunks[..n + 1][n] == chunks[n];
      EndIsPositive(chunks[..n]);
    } else {
      assert chunks[..n] == chunks;
      EndIsPositive(chunks);
    }
  }

  lemma {:induction false} EndIsPositive(chunks: seq<FileChunk>)
    requires Contiguous(chunks)
    ensures End(chunks) >= 0
  {
    if chunks != [] {
      var rest := chunks[..|chunks| - 1];
      assert forall i :: 0 <= i < |rest| ==> rest[..i] == chunks[..i];
      EndIsPositive(rest);
    }
  }

  /** The upload is completed only with one part per chunk, in order, and then the server has
      the whole file. */
  lemma CompletedHasEverything(c: Config, run: seq<State>, labels: seq<Label>, i: nat)
    requires IsRun(c, run, labels) && i < |run| && run[i].main.Completed?
    requires Tiles(c.chunks, |c.file|)
    ensures var ps := run[i].main.parts;
      && |ps| == |c.chunks| == |run[i].server|
      && (forall k :: 0 <= k < |ps| ==> ps[k].number == k + 1 && ps[k] == run[i].server[k].part)
    ensures Joined(run[i].server) == c.file
  {
    InvAlways(c, run, labels, i);
    JoinedIs(c, run[i].server);
    assert c.chunks[..N(c)] == c.chunks;
  }

  // ---------------------------------------------------------------- memory

  /** The chunks whose data is in memory: with a reader, in a waiter, with the scheduler or
      with the writer. */
  ghost function Alive(c: Config, s: State): set<int>
    requires CountInv(c, s)
  {
    (set r | 0 <= r < READERS && Holds(s.readers[r]) :: Index(s.readers[r]))
    + (set i | 0 <= i < N(c) && s.waiters[i].Some?)
    + (if s.sched.Have? then {s.sched.d.index} else {})
    + (if s.writer.Uploading? || s.writer.Uploaded? || s.writer.Releasing? then {Handed(s) - 1} else {})
  }

  lemma {:induction false} FitsBetween(a: set<int>, lo: int, hi: int)
    requires lo <= hi && forall k :: k in a ==> lo <= k < hi
    ensures |a| <= hi - lo
    decreases hi - lo
  {
    if lo < hi {
      FitsBetween(a - {hi - 1}, lo, hi - 1);
    } else {
      assert a == {};
    }
  }

  /** A chunk in memory has a token that is not given back. */
  lemma AliveIn(c: Config, s: State, k: int)
    requires CountInv(c, s) && ChunksInv(c, s) && OrderInv(c, s.sched, s.writer, Handed(s)) && k in Alive(c, s)
    ensures Handed(s) - Busy(s) <= k < Acquired(s)
  {
    hide FoundInv, Good;
    if r :| 0 <= r < READERS && Holds(s.readers[r]) && Index(s.readers[r]) == k {
      assert Picked(s) <= k < s.next;
    }
  }

  /** Never more than ten chunks are in memory. */
  lemma MemoryIsBounded(c: Config, run: seq<State>, labels: seq<Label>, i: nat)
    requires IsRun(c, run, labels) && i < |run|
    ensures CountInv(c, run[i]) && |Alive(c, run[i])| <= run[i].tokens <= QUEUE_MAX
  {
    InvAlways(c, run, labels, i);
    hide IsRun, ChunksInv, OrderInv, Alive;
    var s := run[i];
    forall k | k in Alive(c, s) ensures Handed(s) - Busy(s) <= k < Acquired(s) {
      AliveIn(c, s, k);
    }
    FitsBetween(Alive(c, s), Handed(s) - Busy(s), Acquired(s));
  }

  // ---------------------------------------------------------------- no blocked senders

  /** The error channel never fills, and a reader's own waiter channel is always free. */
  lemma SendsNeverBlock(c: Config, run: seq<State>, labels: seq<Label>, i: nat)
    requires IsRun(c, run, labels) && i < |run|
    ensures forall r: nat :: r < |run[i].readers| && run[i].readers[r].Reading? ==> Enabled(c, run[i], ReadFails(r))
    ensures forall r: nat :: r < |run[i].readers| && run[i].readers[r].Loaded? ==> Enabled(c, run[i], Put(r))
    ensures run[i].writer.Uploading? ==> Enabled(c, run[i], UploadFails)
    ensures run[i].writer.Releasing? ==> Enabled(c, run[i], Release)
  {
    InvAlways(c, run, labels, i);
  }

  // ---------------------------------------------------------------- progress

  /** Nothing has been cancelled and no goroutine has used up its retries. */
  predicate Healthy(s: State) {
    !s.cancelled && NoneGone(s.readers) && !s.writer.WriterGone?
  }

  /** The steps of an upload that works. */
  predicate Forward(l: Label) {
    !(l.ReadFails? || l.UploadFails? || l.MainError? || l.MainStops? || l.Cancel?
      || l.StopDispatcher? || l.StopReader? || l.StopScheduler? || l.StopWriter?)
  }

  /** Some forward step of an unfinished healthy state. */
  function NextLabel(c: Config, s: State): Label
    requires |s.readers| == READERS
  {
    if s.main.Completing? then Complete(true)
    else if s.coll.Holding? then Append
    else if s.coll.Counting? then CountDown
    else if s.writer.Uploading? then UploadOk(0)
    else if s.writer.Uploaded? then SendPart
    else if s.writer.Releasing? then Release
    else if s.readers[0].Reading? then ReadOk(0)
    else if s.readers[1].Reading? then ReadOk(1)
    else if s.readers[0].Loaded? then Put(0)
    else if s.readers[1].Loaded? then Put(1)
    else if s.disp.Send? then SendJob(0)
    else if s.sched.Have? then Hand
    else if s.sched.i < s.next then Pick
    else if s.next < N(c) then TakeToken
    else Quit
  }

  /** A healthy upload whose main loop has not returned can always go on. */
  lemma NeverStuck(c: Config, run: seq<State>, labels: seq<Label>, i: nat)
    requires IsRun(c, run, labels) && i < |run|
    requires Healthy(run[i]) && (run[i].main.Looping? || run[i].main.Completing?)
    ensures exists l :: Forward(l) && Enabled(c, run[i], l)
  {
    InvAlways(c, run, labels, i);
    NextIsEnabled(c, run[i]);
    assert Forward(NextLabel(c, run[i]));
  }

  lemma NextIsEnabled(c: Config, s: State)
    requires Inv(c, s) && Healthy(s) && (s.main.Looping? || s.main.Completing?)
    ensures Enabled(c, s, NextLabel(c, s))
  {
    assert s.sched.Want? && s.sched.i < s.next ==> s.waiters[s.sched.i].Some? || WithReader(s.readers, s.sched.i);
  }

  function ReaderWork(r: Reader): nat {
    if r.Reading? then if r.tries < RETRIES then 10 - r.tries else 7 else if r.Loaded? then 5 else 0
  }

  function ReadersWork(readers: seq<Reader>): nat
    requires |readers| == READERS
  {
    ReaderWork(readers[0]) + ReaderWork(readers[1])
  }

  lemma ReplaceWork(readers: seq<Reader>, r: nat, x: Reader)
    requires |readers| == READERS && r < READERS
    ensures ReadersWork(readers[r := x]) == ReadersWork(readers) - ReaderWork(readers[r]) + ReaderWork(x)
  {
  }

  function WriterWork(w: Writer): nat {
    if w.Uploading? then if w.tries < RETRIES then 12 - w.tries else 9
    else if w.Uploaded? then 8 else if w.Releasing? then 3 else 0
  }

  function FeedWork(c: Config, next: nat, d: Dispatcher): int {
    40 * (N(c) - next) + if d.Acquire? then 2 else if d.Send? then 1 else 0
  }

  function SchedWork(c: Config, x: Scheduler): int {
    20 * (N(c) - if x.Have? then x.d.index else x.i) + if x.Want? then 2 else if x.Have? then 1 else 0
  }

  function CollWork(x: Collector): int {
    if x.Holding? then 2 else if x.Counting? then 1 else 0
  }

  function MainWork(m: Main, cancelled: bool): int {
    (if m.Looping? then 3 else if m.Completing? then 1 else 0) + if cancelled then 0 else 1
  }

  /** The work that is left. Every step of the machine, failures included, uses some up. */
  function Work(c: Config, s: State): int
    requires |s.readers| == READERS
  {
    FeedWork(c, s.next, s.disp) + ReadersWork(s.readers) + SchedWork(c, s.sched) + WriterWork(s.writer)
    + CollWork(s.coll) + MainWork(s.main, s.cancelled)
  }

  lemma WorkIsNat(c: Config, s: State)
    requires CountInv(c, s)
    ensures Work(c, s) >= 0
  {
  }

  predicate ByReader(l: Label) {
    l.SendJob? || l.ReadOk? || l.ReadFails? || l.Put? || l.StopReader?
  }

  predicate ByFeed(l: Label) {
    l.TakeToken? || l.Pick? || l.Hand? || l.StopDispatcher? || l.StopScheduler?
  }

  predicate ByWriter(l: Label) {
    l.UploadOk? || l.UploadFails? || l.SendPart? || l.Append? || l.CountDown? || l.Release? || l.StopWriter?
  }

  lemma ReaderStepWork(c: Config, s: State, r: nat, l: Label)
    requires |s.readers| == READERS && TriesInv(s.readers, s.writer, s.errs) && Enabled(c, s, l)
    requires l == SendJob(r) || l == ReadOk(r) || l == ReadFails(r) || l == Put(r) || l == StopReader(r)
    ensures |Step(c, s, l).readers| == READERS && Work(c, Step(c, s, l)) < Work(c, s)
  {
    hide WriterWork, Good, ReadersWork, SchedWork, CollWork, MainWork, Dead;
    ReplaceWork(s.readers, r, Step(c, s, l).readers[r]);
  }

  lemma FeedStepWork(c: Config, s: State, l: Label)
    requires Inv(c, s) && Enabled(c, s, l) && ByFeed(l)
    ensures |Step(c, s, l).readers| == READERS && Work(c, Step(c, s, l)) < Work(c, s)
  {
    hide ReadersInv, FoundInv, PartsInv, MainInv, TriesInv, ReadersWork, CollWork, MainWork;
  }

  lemma WriterStepWork(c: Config, s: State, l: Label)
    requires |s.readers| == READERS && TriesInv(s.readers, s.writer, s.errs) && Enabled(c, s, l) && ByWriter(l)
    ensures |Step(c, s, l).readers| == READERS && Work(c, Step(c, s, l)) < Work(c, s)
  {
    hide ReadersWork, FeedWork, SchedWork, MainWork, Dead;
  }

  lemma MainStepWork(c: Config, s: State, l: Label)
    requires |s.readers| == READERS && Enabled(c, s, l) && !ByReader(l) && !ByFeed(l) && !ByWriter(l)
    ensures |Step(c, s, l).readers| == READERS && Work(c, Step(c, s, l)) < Work(c, s)
  {
    hide ReadersWork, FeedWork, SchedWork, WriterWork, CollWork;
  }

  lemma StepsUseUpWork(c: Config, s: State, l: Label)
    requires Inv(c, s) && Enabled(c, s, l)
    ensures |Step(c, s, l).readers| == READERS && 0 <= Work(c, Step(c, s, l)) < Work(c, s)
  {
    StepKeepsInv(c, s, l);
    hide Step, Enabled, Work;
    WorkIsNat(c, Step(c, s, l));
    if ByReader(l) { ReaderStepWork(c, s, l.r, l); }
    else if ByFeed(l) { FeedStepWork(c, s, l); }
    else if ByWriter(l) { WriterStepWork(c, s, l); }
    else { MainStepWork(c, s, l); }
  }

  /** No run has more steps than the work it starts with: 60 per chunk and a few. */
  lemma {:induction false} RunsAreBounded(c: Config, run: seq<State>, labels: seq<Label>, i: nat)
    requires IsRun(c, run, labels) && i < |run|
    ensures |run[i].readers| == READERS && 0 <= Work(c, run[i]) <= 60 * N(c) + 8 - i
  {
    hide Inv, Step, Enabled, Work;
    if i > 0 {
      RunsAreBounded(c, run, labels, i - 1);
      InvAlways(c, run, labels, i - 1);
      assert IsStep(c, run[i - 1], labels[i - 1], run[i]);
      StepsUseUpWork(c, run[i - 1], labels[i - 1]);
    } else {
      StartWork(c);
    }
  }

  lemma StartWork(c: Config)
    ensures Work(c, Start(c)) == 60 * N(c) + 8
  {
  }

}
