/** What every run of the downloader keeps. */
module DownloaderTheorems {
  import opened Basics
  import opened DownloadPlan
  import opened Downloader
  import opened DownloaderProof

  /** A run: a start state and one label per later state. */
  ghost predicate IsRun(c: Config, run: seq<State>, labels: seq<Label>) {
    && GoodConfig(c) && |run| == |labels| + 1 && run[0] == Start(c)
    && forall i :: 0 <= i < |labels| ==> IsStep(c, run[i], labels[i], run[i + 1])
  }

  ghost predicate IsStep(c: Config, s: State, l: Label, s': State) {
    c.part > 0 && |s.bufs| > 0 && s.cur < |s.bufs| && Enabled(c, s, l) && s' == Step(c, s, l)
  }

  lemma StartOk(c: Config)
    requires GoodConfig(c)
    ensures Inv(c, Start(c))
  {
    RangeFits(c, 0);
    SlotSmall(0, 1);
  }

  lemma WorkerStepKeeps(c: Config, s: State, l: Label)
    requires Inv(c, s) && Enabled(c, s, l)
    requires l.Receive? || l.Drop? || l.Fails? || l.Overload? || l.Done? || l.Breaks?
    ensures Inv(c, Step(c, s, l))
  {
    hide FinishBuf, SendChunk, Deliver, ReadOnce, WindowInv, UniqueInv, AtBuffer, Between;
    match l
    case Receive(w) => ReceiveKeeps(c, s, w, if s.failed then Gone else Requesting(s.channel[0]));
    case Drop(w) => SetWorkerKeeps(c, s, w, Waiting, s.failed);
    case Fails(w) => SetWorkerKeeps(c, s, w, Gone, true);
    case Overload(w) =>
      var ch := s.workers[w].ch;
      if ch.newConcurrency || s.concurrency > 0 {
        RequeueKeeps(c, s, w, if s.failed then Waiting else Gone, (if s.concurrency > 0 then -s.concurrency else s.concurrency) - 1);
      }
    case Done(w) => SetWorkerKeeps(c, s, w, Waiting, s.failed);
    case Breaks(w) => SetWorkerKeeps(c, s, w, Requesting(Rest(s.workers[w].ch, s.workers[w].n)), s.failed);
  }

  lemma RespondsStepKeeps(c: Config, s: State, w: nat, limitOk: bool)
    requires Inv(c, s) && Enabled(c, s, Responds(w, limitOk))
    ensures Inv(c, Step(c, s, Responds(w, limitOk)))
  {
    RespondsKeeps(c, s, limitOk);
    SendWorkers(c, s, limitOk);
    var s1 := SendChunk(c, s, true, limitOk);
    SetWorkerKeeps(c, s1, w, Copying(s.workers[w].ch, 0), s1.failed);
  }

  lemma SendWorkers(c: Config, s: State, limitOk: bool)
    requires c.part > 0 && |s.bufs| > 0
    ensures var s' := SendChunk(c, s, true, limitOk);
      |s.workers| <= |s'.workers| && forall w :: 0 <= w < |s.workers| ==> s'.workers[w] == s.workers[w]
  {
  }

  lemma BodyStepIs(c: Config, s: State, w: nat, k: nat)
    requires c.part > 0 && |s.bufs| > 0 && s.cur < |s.bufs| && Enabled(c, s, Body(w, k))
    requires Room(s.bufs[s.workers[w].ch.buf], k) == k
    ensures var Copying(ch, n) := s.workers[w];
      Step(c, s, Body(w, k)) ==
      Wrote(c, s, w, Write(s.bufs[ch.buf], c.file[ch.start + n..ch.start + n + k]), Copying(ch, n + k))
  {
    hide FinishBuf, SendChunk, Deliver, ReadOnce, Write, Room;
  }

  lemma BodyStepKeeps(c: Config, s: State, w: nat, k: nat)
    requires Inv(c, s) && Enabled(c, s, Body(w, k))
    ensures Inv(c, Step(c, s, Body(w, k)))
  {
    hide Step, Write;
    BodyKeeps(c, s, w, k);
    WriteHolds(c, s, s.workers[w].ch, s.workers[w].n, k);
    BodyStepIs(c, s, w, k);
  }

  lemma ReaderStepKeeps(c: Config, s: State, l: Label)
    requires Inv(c, s) && Enabled(c, s, l) && (l.ReadCall? || l.ReadLoop? || l.Wake? || l.SendNext? || l.Switch? || l.Abort?)
    ensures Inv(c, Step(c, s, l))
  {
    hide FinishBuf, SendChunk, Deliver, ReadOnce, WindowInv, TasksInv, UniqueInv;
    match l
    case ReadCall(p) =>
      if p > 0 { ReadPcKeeps(c, s, if s.bufs[s.cur].offR >= s.bufs[s.cur].size then Finishing else Loop(p)); }
    case ReadLoop => ReadOnceKeeps(c, s, s.read.p);
    case Wake => WakeKeeps(c, s, s.read.p);
    case SendNext => FinishKeeps(c, s);
    case Switch => SwitchKeeps(c, s);
    case Abort => ReadPcKeeps(c, s, Outside);
  }

  lemma StepKeepsInv(c: Config, s: State, l: Label)
    requires Inv(c, s) && Enabled(c, s, l)
    ensures Inv(c, Step(c, s, l))
  {
    hide Step;
    match l
    case Responds(w, limitOk) => RespondsStepKeeps(c, s, w, limitOk);
    case Body(w, k) => BodyStepKeeps(c, s, w, k);
    case ReadCall(_) => ReaderStepKeeps(c, s, l);
    case ReadLoop => ReaderStepKeeps(c, s, l);
    case Wake => ReaderStepKeeps(c, s, l);
    case SendNext => ReaderStepKeeps(c, s, l);
    case Switch => ReaderStepKeeps(c, s, l);
    case Abort => ReaderStepKeeps(c, s, l);
    case _ => WorkerStepKeeps(c, s, l);
  }

  lemma {:induction false} InvAlways(c: Config, run: seq<State>, labels: seq<Label>, i: nat)
    requires IsRun(c, run, labels) && i < |run|
    ensures Inv(c, run[i])
  {
    hide Inv, Step, Enabled;
    if i == 0 {
      StartOk(c);
    } else {
      InvAlways(c, run, labels, i - 1);
      assert IsStep(c, run[i - 1], labels[i - 1], run[i]);
      StepKeepsInv(c, run[i - 1], labels[i - 1]);
    }
  }

  // ---------------------------------------------------------------- results

  lemma DeliveredPrefix(c: Config, out: seq<Byte>, n: nat)
    requires GoodConfig(c) && Delivered(c, out, n) && n <= c.length
    ensures out <= c.file[c.start..c.start + c.length]
    ensures n == c.length ==> out == c.file[c.start..c.start + c.length]
  {
  }

  /** How much the reader has seen, wherever it is. */
  lemma DeliveredSoFar(c: Config, s: State)
    requires Inv(c, s)
    ensures var n := Off(c, s.rPos) + if s.read.Switching? then 0 else s.bufs[s.cur].offR;
      Delivered(c, s.out, n) && n <= c.length && (s.eof ==> n == c.length)
  {
    hide WindowInv, TasksInv, UniqueInv, Delivered, Holds;
    RangeFits(c, s.rPos);
    ChunksTile(c.length, c.part);
    if !s.read.Switching? {
      CurrentHolds(c, s);
      HoldsBounds(c, s.bufs[s.cur], s.rPos, s.rPos);
      assert Off(c, s.rPos + 1) == Off(c, s.rPos) + Siz(c, s.rPos);
    }
  }

  /** The bytes handed out so far are a prefix of the range, and end-of-file is only reported
      after the last of them. */
  lemma ReaderSeesTheRange(c: Config, run: seq<State>, labels: seq<Label>, i: nat)
    requires IsRun(c, run, labels) && i < |run|
    ensures run[i].out <= c.file[c.start..c.start + c.length]
    ensures run[i].eof ==> run[i].out == c.file[c.start..c.start + c.length]
  {
    hide IsStep, Core, AtBuffer, Between, Delivered;
    InvAlways(c, run, labels, i);
    var s := run[i];
    DeliveredSoFar(c, s);
    DeliveredPrefix(c, s.out, Off(c, s.rPos) + if s.read.Switching? then 0 else s.bufs[s.cur].offR);
  }

  /** A parked reader that has data, or whose whole buffer is there, has a signal waiting. */
  lemma ParkedReaderIsOwedASignal(c: Config, run: seq<State>, labels: seq<Label>, i: nat)
    requires IsRun(c, run, labels) && i < |run| && run[i].read.Parked?
    ensures run[i].cur < |run[i].bufs|
    ensures var b := run[i].bufs[run[i].cur]; b.offW > b.offR ==> Enabled(c, run[i], Wake)
  {
    InvAlways(c, run, labels, i);
  }

  /** Each chunk that still has bytes to come sits in bufs[id % len(bufs)], continues exactly
      where that buffer ends, and no write of its bytes is cut short. */
  lemma ChunksInFlight(c: Config, run: seq<State>, labels: seq<Label>, i: nat, w: nat, k: nat)
    requires IsRun(c, run, labels) && i < |run| && w < |run[i].workers| && run[i].workers[w].Copying?
    requires 0 < k && run[i].workers[w].n + k <= run[i].workers[w].ch.size
    ensures var s := run[i]; var Copying(ch, n) := s.workers[w];
      && |s.bufs| > 0 && ch.buf == ch.id % |s.bufs|
      && ch.start + n == c.start + Offset(ch.id, c.length, c.part) + s.bufs[ch.buf].offW
      && Enabled(c, s, Body(w, k)) && Room(s.bufs[ch.buf], k) == k
  {
    InvAlways(c, run, labels, i);
    var s := run[i];
    assert TaskOk(c, s, s.workers[w].ch, s.workers[w].n);
    WriteHolds(c, s, s.workers[w].ch, s.workers[w].n, k);
  }

  /** The buffers of the chunks `from`..`to`: same place, and no byte of them lost. */
  ghost predicate Kept(bufs: seq<Buf>, bufs': seq<Buf>, from: nat, to: nat) {
    forall id: nat :: from <= id < to ==> KeptSlot(bufs, bufs', id)
  }

  ghost predicate KeptSlot(bufs: seq<Buf>, bufs': seq<Buf>, id: nat) {
    && |bufs| > 0 && |bufs'| > 0 && Slot(id, |bufs|) == Slot(id, |bufs'|)
    && KeptBuf(bufs[Slot(id, |bufs|)], bufs'[Slot(id, |bufs'|)])
  }

  /** What has arrived in a buffer. */
  function Filled(b: Buf): seq<Byte> {
    if b.offW <= |b.data| then b.data[..b.offW] else b.data
  }

  ghost predicate KeptBuf(b: Buf, b': Buf) {
    b'.size == b.size && b.offW <= b'.offW && Filled(b) <= Filled(b')
  }

  lemma KeptAll(a: seq<Buf>, b: seq<Buf>, from: nat, to: nat)
    requires |a| > 0 && |b| == |a| && forall i :: 0 <= i < |a| ==> KeptBuf(a[i], b[i])
    ensures Kept(a, b, from, to)
  {
    hide KeptBuf;
  }

  lemma KeptOne(a: seq<Buf>, i: nat, b: Buf, from: nat, to: nat)
    requires i < |a| && KeptBuf(a[i], b)
    ensures Kept(a, a[i := b], from, to)
  {
    KeptAll(a, a[i := b], from, to);
  }

  lemma SendKeepsUnread(c: Config, s: State, newConcurrency: bool, limitOk: bool, from: nat)
    requires PlanInv(c, s) && s.nextChunk <= from + |s.bufs|
    requires !newConcurrency ==> s.nextChunk < from + |s.bufs| || s.concurrency > 0
    ensures Kept(s.bufs, SendChunk(c, s, newConcurrency, limitOk).bufs, from, s.nextChunk)
  {
    var s' := SendChunk(c, s, newConcurrency, limitOk);
    forall id: nat | from <= id < s.nextChunk ensures KeptSlot(s.bufs, s'.bufs, id) {
      if s.concurrency > 0 {
        SlotSmall(id, |s.bufs|);
        SlotSmall(id, |s.bufs| + 1);
      } else if s.nextChunk < id + |s.bufs| {
        SlotsDiffer(id, s.nextChunk, |s.bufs|);
      }
    }
  }

  lemma WriteKeepsBuf(b: Buf, bytes: seq<Byte>)
    requires 0 < |bytes| && b.offW + |bytes| <= b.size <= |b.data|
    ensures KeptBuf(b, Write(b, bytes))
  {
    hide Write, Room;
    WriteIs(b, bytes);
  }

  lemma WriteKeepsUnread(c: Config, s: State, w: nat, k: nat)
    requires Inv(c, s) && Enabled(c, s, Body(w, k))
    ensures Kept(s.bufs, Step(c, s, Body(w, k)).bufs, s.rPos, s.nextChunk)
    ensures Step(c, s, Body(w, k)).rPos == s.rPos
  {
    hide Step, Kept, WindowInv, UniqueInv, AtBuffer, Between, Holds, Room, Write, TaskOk;
    var Copying(ch, n) := s.workers[w];
    assert TaskOk(c, s, ch, n);
    WriteHolds(c, s, ch, n, k);
    WriteKeepsBuf(s.bufs[ch.buf], c.file[ch.start + n..ch.start + n + k]);
    BodyStepIs(c, s, w, k);
    KeptOne(s.bufs, ch.buf, Write(s.bufs[ch.buf], c.file[ch.start + n..ch.start + n + k]), s.rPos, s.nextChunk);
  }

  lemma FinishKeepsUnread(c: Config, s: State)
    requires Inv(c, s) && s.read.Finishing?
    ensures Kept(s.bufs, FinishBuf(c, s).bufs, FinishBuf(c, s).rPos, s.nextChunk)
  {
    hide SendChunk, Kept, WindowInv, TasksInv, UniqueInv;
    if s.rPos + 1 < Parts(c) {
      SendKeepsUnread(c, s, false, true, s.rPos + 1);
    } else {
      KeptAll(s.bufs, s.bufs, s.rPos, s.nextChunk);
    }
  }

  lemma ReadOnceKeepsUnread(c: Config, s: State, p: nat)
    requires Inv(c, s) && !s.read.Switching?
    ensures Kept(s.bufs, ReadOnce(s, p).bufs, ReadOnce(s, p).rPos, s.nextChunk)
  {
    hide ReadOnce, Kept, WindowInv, TasksInv, UniqueInv;
    ReadOnceCases(c, s, p);
    KeptAll(s.bufs, ReadOnce(s, p).bufs, s.rPos, s.nextChunk);
  }

  /** The bytes of every chunk that the reader has not read to its end stay where they are. */
  lemma UnreadChunksStay(c: Config, s: State, l: Label)
    requires Inv(c, s) && Enabled(c, s, l)
    ensures var s' := Step(c, s, l); Kept(s.bufs, s'.bufs, s'.rPos, s.nextChunk)
  {
    hide FinishBuf, SendChunk, Deliver, ReadOnce, WindowInv, TasksInv, UniqueInv, AtBuffer, Between, Write, Room;
    match l
    case Responds(w, limitOk) =>
      SendKeepsUnread(c, s, true, limitOk, s.rPos);
      SendFrame(c, s, true, limitOk);
    case SendNext => FinishKeepsUnread(c, s);
    case ReadLoop => ReadOnceKeepsUnread(c, s, s.read.p);
    case Body(w, k) => WriteKeepsUnread(c, s, w, k);
    case _ =>
  }
}
