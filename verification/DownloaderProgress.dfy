/** Nothing that was sent is forgotten: every missing byte of a sent chunk is on its way, the
    number of workers is what the remaining concurrency says, and a call of Read does not come
    back with nothing. */
module DownloaderProgress {
  import opened Basics
  import opened DownloadPlan
  import opened Downloader
  import opened DownloaderProof
  import opened DownloaderTheorems

  // ---------------------------------------------------------------- chunks that are on their way

  /** A worker has bytes of chunk `id` to bring. */
  predicate Carries(w: Worker, id: nat) {
    Holding(w) && w.ch.id == id && Copied(w) < w.ch.size
  }

  ghost predicate InFlight(channel: seq<Chunk>, workers: seq<Worker>, id: nat) {
    || (exists i :: 0 <= i < |channel| && channel[i].id == id && channel[i].size > 0)
    || (exists w :: 0 <= w < |workers| && Carries(workers[w], id))
  }

  predicate Missing(bufs: seq<Buf>, id: nat) {
    |bufs| > 0 && bufs[Slot(id, |bufs|)].offW < bufs[Slot(id, |bufs|)].size
  }

  /** Unless the download has failed, a sent chunk that is not all there is on its way. */
  ghost predicate Covered(s: State) {
    !s.failed ==>
      forall id: nat :: s.rPos <= id < s.nextChunk && Missing(s.bufs, id) ==> InFlight(s.channel, s.workers, id)
  }

  /** Nothing leaves the channel, and every worker that carries the chunk still does. */
  lemma StillInFlight(channel: seq<Chunk>, workers: seq<Worker>, channel': seq<Chunk>, workers': seq<Worker>, id: nat)
    requires InFlight(channel, workers, id) && channel <= channel' && |workers| <= |workers'|
    requires forall w :: 0 <= w < |workers| && Carries(workers[w], id) ==> Carries(workers'[w], id)
    ensures InFlight(channel', workers', id)
  {
    if i :| 0 <= i < |channel| && channel[i].id == id && channel[i].size > 0 {
      assert channel'[i] == channel[i];
    } else {
      var w :| 0 <= w < |workers| && Carries(workers[w], id);
      assert Carries(workers'[w], id);
    }
  }

  /** What sendChunkTask changes: the chunks before the next keep their buffers, and a new
      chunk is in the channel. */
  lemma SendSame(c: Config, s: State, newConcurrency: bool, limitOk: bool, from: nat)
    requires PlanInv(c, s) && s.nextChunk <= from + |s.bufs|
    requires !newConcurrency ==> s.nextChunk < from + |s.bufs| || s.concurrency > 0
    ensures var s' := SendChunk(c, s, newConcurrency, limitOk);
      && SameSlots(s, s', from) && s.channel <= s'.channel && s.workers <= s'.workers && s'.failed == s.failed
      && s.nextChunk <= s'.nextChunk <= s.nextChunk + 1
      && (s'.nextChunk > s.nextChunk ==>
            s'.channel == s.channel + [s'.channel[|s.channel|]] &&
            var ch := s'.channel[|s.channel|]; ch.id == s.nextChunk && ch.size == Siz(c, ch.id))
  {
    var s' := SendChunk(c, s, newConcurrency, limitOk);
    forall id: nat | from <= id < s.nextChunk ensures SameSlot(s, s', id) {
      if s.concurrency > 0 {
        SlotSmall(id, |s.bufs|);
        SlotSmall(id, |s.bufs| + 1);
      } else if s.nextChunk < id + |s.bufs| {
        SlotsDiffer(id, s.nextChunk, |s.bufs|);
      }
    }
  }

  lemma SameMissing(s: State, s': State, id: nat)
    requires SameSlot(s, s', id) && Missing(s'.bufs, id)
    ensures Missing(s.bufs, id)
  {
  }

  lemma NewInFlight(c: Config, channel: seq<Chunk>, workers: seq<Worker>, i: nat)
    requires GoodConfig(c) && i < |channel| && channel[i].size == Siz(c, channel[i].id)
    ensures InFlight(channel, workers, channel[i].id)
  {
    ChunksTile(c.length, c.part);
  }

  /** A send covers its own chunk and leaves the others covered. */
  lemma SendCovers(c: Config, s: State, newConcurrency: bool, limitOk: bool)
    requires PlanInv(c, s) && Covered(s)
    requires !newConcurrency ==> s.nextChunk < s.rPos + |s.bufs| || s.concurrency > 0
    ensures Covered(SendChunk(c, s, newConcurrency, limitOk))
  {
    var s' := SendChunk(c, s, newConcurrency, limitOk);
    SendSame(c, s, newConcurrency, limitOk, s.rPos);
    SendFrame(c, s, newConcurrency, limitOk);
    hide SendChunk, InFlight, SameSlot, Slot, Missing;
    forall id: nat | !s.failed && s'.rPos <= id < s'.nextChunk && Missing(s'.bufs, id)
      ensures InFlight(s'.channel, s'.workers, id)
    {
      if id < s.nextChunk {
        SameMissing(s, s', id);
        StillInFlight(s.channel, s.workers, s'.channel, s'.workers, id);
      } else {
        NewInFlight(c, s'.channel, s'.workers, |s.channel|);
      }
    }
  }

  lemma RespondsCovers(c: Config, s: State, w: nat, limitOk: bool)
    requires Inv(c, s) && Covered(s) && Enabled(c, s, Responds(w, limitOk))
    ensures Covered(Step(c, s, Responds(w, limitOk)))
  {
    hide WindowInv, TasksInv, UniqueInv, AtBuffer, Between, Covered, Carries;
    SendCovers(c, s, true, limitOk);
    SendWorkers(c, s, limitOk);
    CarriesOn(s.workers[w], Copying(s.workers[w].ch, 0));
    WorkerCovers(SendChunk(c, s, true, limitOk), w, Copying(s.workers[w].ch, 0), false);
  }

  lemma CarriesOn(x: Worker, y: Worker)
    requires Holding(x) && Holding(y) && y.ch.id == x.ch.id && (Copied(x) < x.ch.size ==> Copied(y) < y.ch.size)
    ensures forall id :: Carries(x, id) ==> Carries(y, id)
  {
  }

  /** A worker that goes on with what it carries, or fails the download. */
  lemma WorkerCovers(s: State, w: nat, x: Worker, fails: bool)
    requires Covered(s) && w < |s.workers|
    requires s.failed || fails || forall id :: Carries(s.workers[w], id) ==> Carries(x, id)
    ensures Covered(SetWorker(s, w, x).(failed := s.failed || fails))
  {
    hide InFlight, Missing, Carries;
    var s' := SetWorker(s, w, x).(failed := s.failed || fails);
    forall id: nat | !s'.failed && s'.rPos <= id < s'.nextChunk && Missing(s'.bufs, id)
      ensures InFlight(s'.channel, s'.workers, id)
    {
      StillInFlight(s.channel, s.workers, s'.channel, s'.workers, id);
    }
  }

  lemma ReceivedInFlight(channel: seq<Chunk>, workers: seq<Worker>, w: nat, id: nat)
    requires InFlight(channel, workers, id) && |channel| > 0 && w < |workers| && workers[w].Waiting?
    ensures InFlight(channel[1..], workers[w := Requesting(channel[0])], id)
  {
    var workers' := workers[w := Requesting(channel[0])];
    if i :| 0 <= i < |channel| && channel[i].id == id && channel[i].size > 0 {
      if i == 0 { assert Carries(workers'[w], id); } else { assert channel[1..][i - 1] == channel[i]; }
    } else {
      var v :| 0 <= v < |workers| && Carries(workers[v], id);
      assert Carries(workers'[v], id);
    }
  }

  lemma ReceiveCovers(c: Config, s: State, w: nat)
    requires c.part > 0 && |s.bufs| > 0 && s.cur < |s.bufs| && Covered(s) && Enabled(c, s, Receive(w))
    ensures Covered(Step(c, s, Receive(w)))
  {
    hide InFlight, Missing;
    var s' := Step(c, s, Receive(w));
    forall id: nat | !s.failed && s.rPos <= id < s.nextChunk && Missing(s.bufs, id)
      ensures InFlight(s'.channel, s'.workers, id)
    {
      ReceivedInFlight(s.channel, s.workers, w, id);
    }
  }

  lemma RequeuedInFlight(channel: seq<Chunk>, workers: seq<Worker>, w: nat, x: Worker, id: nat)
    requires InFlight(channel, workers, id) && w < |workers| && workers[w].Requesting?
    ensures InFlight(channel + [workers[w].ch], workers[w := x], id)
  {
    var channel', workers' := channel + [workers[w].ch], workers[w := x];
    if i :| 0 <= i < |channel| && channel[i].id == id && channel[i].size > 0 {
      assert channel'[i] == channel[i];
    } else {
      var v :| 0 <= v < |workers| && Carries(workers[v], id);
      if v == w { assert channel'[|channel|].id == id; } else { assert Carries(workers'[v], id); }
    }
  }

  lemma OverloadCovers(c: Config, s: State, w: nat)
    requires c.part > 0 && |s.bufs| > 0 && s.cur < |s.bufs| && Covered(s) && Enabled(c, s, Overload(w))
    ensures Covered(Step(c, s, Overload(w)))
  {
    hide InFlight, Missing;
    var s' := Step(c, s, Overload(w));
    forall id: nat | s'.channel != s.channel && !s.failed && s.rPos <= id < s.nextChunk && Missing(s.bufs, id)
      ensures InFlight(s'.channel, s'.workers, id)
    {
      RequeuedInFlight(s.channel, s.workers, w, s'.workers[w], id);
    }
  }

  /** A chunk that still misses bytes after a write missed some before, and is still carried. */
  lemma BodyMissing(c: Config, s: State, w: nat, k: nat, b: Buf, id: nat)
    requires PlanInv(c, s) && TasksInv(c, s) && w < |s.workers| && s.workers[w].Copying?
    requires k > 0 && s.workers[w].n + k <= s.workers[w].ch.size && s.workers[w].ch.buf < |s.bufs|
    requires b.size == s.bufs[s.workers[w].ch.buf].size && b.offW == s.bufs[s.workers[w].ch.buf].offW + k
    requires b.size == Siz(c, s.workers[w].ch.id)
    requires s.rPos <= id < s.nextChunk && Missing(s.bufs[s.workers[w].ch.buf := b], id)
    ensures Missing(s.bufs, id)
    ensures s.workers[w].ch.id == id ==> s.workers[w].n + k < s.workers[w].ch.size
  {
    var Copying(ch, n) := s.workers[w];
    assert TaskOk(c, s, ch, n);
    hide TasksInv;
    OtherSlots(c, s, ch.id);
  }

  /** When the last byte of a chunk arrives the chunk is no longer missing. */
  lemma BodyCovers(c: Config, s: State, w: nat, k: nat)
    requires Inv(c, s) && Covered(s) && Enabled(c, s, Body(w, k))
    ensures Covered(Step(c, s, Body(w, k)))
  {
    hide Step, Write, Room, InFlight, WindowInv, UniqueInv, AtBuffer, Between, Holds, Missing, TaskOk;
    var Copying(ch, n) := s.workers[w];
    assert TaskOk(c, s, ch, n);
    WriteHolds(c, s, ch, n, k);
    BodyStepIs(c, s, w, k);
    var bytes := c.file[ch.start + n..ch.start + n + k];
    WriteIs(s.bufs[ch.buf], bytes);
    HoldsBounds(c, Write(s.bufs[ch.buf], bytes), ch.id, s.rPos);
    var s' := Step(c, s, Body(w, k));
    forall id: nat | !s.failed && s.rPos <= id < s.nextChunk && Missing(s'.bufs, id)
      ensures InFlight(s'.channel, s'.workers, id)
    {
      BodyMissing(c, s, w, k, Write(s.bufs[ch.buf], bytes), id);
      StillInFlight(s.channel, s.workers, s'.channel, s'.workers, id);
    }
  }

  predicate OfReader(l: Label) {
    l.ReadCall? || l.ReadLoop? || l.Wake? || l.SendNext? || l.Switch? || l.Abort?
  }

  lemma SameFill(s: State, s': State)
    requires Covered(s) && s'.failed == s.failed && s'.channel == s.channel && s'.workers == s.workers
    requires s'.nextChunk == s.nextChunk && s'.rPos >= s.rPos && |s'.bufs| == |s.bufs|
    requires forall b :: 0 <= b < |s.bufs| ==> s'.bufs[b].offW == s.bufs[b].offW && s'.bufs[b].size == s.bufs[b].size
    ensures Covered(s')
  {
    hide InFlight, Slot;
    forall id: nat | Missing(s'.bufs, id) ensures Missing(s.bufs, id) {
    }
  }

  lemma SendNextCovers(c: Config, s: State)
    requires Inv(c, s) && Covered(s) && s.read.Finishing?
    ensures Covered(FinishBuf(c, s))
  {
    hide WindowInv, TasksInv, UniqueInv, InFlight, SendChunk, FinishBuf, AtBuffer, Between;
    FinishIs(c, s);
    if s.rPos + 1 < Parts(c) { SendCovers(c, s.(rPos := s.rPos + 1), false, true); }
  }

  /** Reading only moves read offsets, and the finished chunk needs no cover. */
  lemma ReaderCovers(c: Config, s: State, l: Label)
    requires Inv(c, s) && Covered(s) && Enabled(c, s, l)
    requires OfReader(l)
    ensures Covered(Step(c, s, l))
  {
    hide WindowInv, TasksInv, UniqueInv, Covered, SendChunk, FinishBuf, ReadOnce, AtBuffer, Between;
    if l.SendNext? {
      SendNextCovers(c, s);
    } else {
      if l.ReadLoop? { ReadOnceCases(c, s, s.read.p); }
      SameFill(s, Step(c, s, l));
    }
  }

  lemma StepCovers(c: Config, s: State, l: Label)
    requires Inv(c, s) && Covered(s) && Enabled(c, s, l)
    ensures Covered(Step(c, s, l))
  {
    hide Covered, WindowInv, TasksInv, UniqueInv, AtBuffer, Between, SendChunk, FinishBuf, ReadOnce, Write, Room;
    match l
    case Receive(w) => ReceiveCovers(c, s, w);
    case Drop(w) => WorkerCovers(s, w, Waiting, false);
    case Fails(w) => WorkerCovers(s, w, Gone, true);
    case Overload(w) => OverloadCovers(c, s, w);
    case Responds(w, limitOk) => RespondsCovers(c, s, w, limitOk);
    case Body(w, k) => BodyCovers(c, s, w, k);
    case Done(w) => WorkerCovers(s, w, Waiting, false);
    case Breaks(w) =>
      CarriesOn(s.workers[w], Requesting(Rest(s.workers[w].ch, s.workers[w].n)));
      WorkerCovers(s, w, Requesting(Rest(s.workers[w].ch, s.workers[w].n)), false);
    case _ => ReaderCovers(c, s, l);
  }

  lemma StartCovered(c: Config)
    requires GoodConfig(c)
    ensures Covered(Start(c))
  {
    ChunksTile(c.length, c.part);
    var s := Start(c);
    assert s.channel[0].id == 0 && s.channel[0].size > 0;
  }

  lemma {:induction false} CoveredAlways(c: Config, run: seq<State>, labels: seq<Label>, i: nat)
    requires IsRun(c, run, labels) && i < |run|
    ensures Inv(c, run[i]) && Covered(run[i])
  {
    hide Inv, Step, Enabled, Covered;
    InvAlways(c, run, labels, i);
    if i == 0 {
      StartCovered(c);
    } else {
      CoveredAlways(c, run, labels, i - 1);
      assert IsStep(c, run[i - 1], labels[i - 1], run[i]);
      StepCovers(c, run[i - 1], labels[i - 1]);
    }
  }

  /** The chunk is in the channel or with a worker, continues where its buffer ends, and what is
      left of it ends where the chunk ends. */
  ghost predicate OnItsWay(c: Config, s: State, id: nat, ch: Chunk, n: nat)
    requires c.part > 0
  {
    && ((ch in s.channel && n == 0) || exists w :: 0 <= w < |s.workers| && Carries(s.workers[w], id)
                                                  && s.workers[w].ch == ch && Copied(s.workers[w]) == n)
    && ch.id == id && n < ch.size && |s.bufs| > 0
    && ch.start + n == c.start + Off(c, id) + s.bufs[Slot(id, |s.bufs|)].offW
    && ch.start + ch.size == c.start + Off(c, id) + Siz(c, id)
  }

  /** Unless the download has failed, every byte of a sent chunk that has not arrived is being
      asked for or is going to be: no response that breaks off, no refusal and no full buffer
      loses one. */
  lemma MissingBytesAreOnTheirWay(c: Config, run: seq<State>, labels: seq<Label>, i: nat, id: nat) returns (ch: Chunk, n: nat)
    requires IsRun(c, run, labels) && i < |run| && !run[i].failed
    requires run[i].rPos <= id < run[i].nextChunk && Missing(run[i].bufs, id)
    ensures c.part > 0 && OnItsWay(c, run[i], id, ch, n)
  {
    CoveredAlways(c, run, labels, i);
    var s := run[i];
    hide IsRun, WindowInv, UniqueInv, ReaderInv;
    assert InFlight(s.channel, s.workers, id);
    if k :| 0 <= k < |s.channel| && s.channel[k].id == id && s.channel[k].size > 0 {
      ch, n := s.channel[k], 0;
    } else {
      var w :| 0 <= w < |s.workers| && Carries(s.workers[w], id);
      ch, n := s.workers[w].ch, Copied(s.workers[w]);
    }
    assert TaskOk(c, s, ch, n);
  }

  // ---------------------------------------------------------------- the workers that are left

  /** How many workers have not left. */
  function Alive(workers: seq<Worker>): nat {
    if workers == [] then 0
    else Alive(workers[..|workers| - 1]) + One(workers[|workers| - 1])
  }

  function One(w: Worker): nat {
    if w.Gone? then 0 else 1
  }

  lemma {:induction false} AliveSet(workers: seq<Worker>, w: nat, x: Worker)
    requires w < |workers|
    ensures Alive(workers[w := x]) + One(workers[w]) == Alive(workers) + One(x)
  {
    var last := |workers| - 1;
    if w == last {
      assert workers[w := x][..last] == workers[..last];
    } else {
      assert workers[w := x][..last] == workers[..last][w := x];
      AliveSet(workers[..last], w, x);
    }
  }

  lemma AliveMore(workers: seq<Worker>, x: Worker)
    ensures Alive(workers + [x]) == Alive(workers) + One(x)
  {
    assert (workers + [x])[..|workers|] == workers;
  }

  lemma {:induction false} SomeoneAlive(workers: seq<Worker>) returns (w: nat)
    requires Alive(workers) > 0
    ensures w < |workers| && !workers[w].Gone?
  {
    w := |workers| - 1;
    if workers[w].Gone? { w := SomeoneAlive(workers[..w]); }
  }

  function Magnitude(k: int): nat {
    if k < 0 then -k else k
  }

  /** Until the download fails, `concurrency` counts the workers: what is left of it while
      workers are still started, and after a refusal, negated, also those that left. */
  ghost predicate Counted(c: Config, s: State) {
    s.concurrency < c.concurrency && (!s.failed ==> Alive(s.workers) + Magnitude(s.concurrency) == c.concurrency)
  }

  lemma SendCounts(c: Config, s: State, newConcurrency: bool, limitOk: bool)
    requires c.part > 0 && |s.bufs| > 0 && Counted(c, s)
    ensures Counted(c, SendChunk(c, s, newConcurrency, limitOk))
  {
    AliveMore(s.workers, Waiting);
    hide Alive;
  }

  lemma CountedSame(c: Config, s: State, s': State)
    requires Counted(c, s) && s'.workers == s.workers && s'.concurrency == s.concurrency && s'.failed == s.failed
    ensures Counted(c, s')
  {
  }

  lemma WorkerCounts(c: Config, s: State, w: nat, x: Worker, fails: bool)
    requires Counted(c, s) && w < |s.workers| && (s.failed || fails || One(x) == One(s.workers[w]))
    ensures Counted(c, SetWorker(s, w, x).(failed := s.failed || fails))
  {
    AliveSet(s.workers, w, x);
  }

  lemma OverloadCounts(c: Config, s: State, w: nat)
    requires c.part > 0 && |s.bufs| > 0 && s.cur < |s.bufs| && Counted(c, s) && Enabled(c, s, Overload(w))
    ensures Counted(c, Step(c, s, Overload(w)))
  {
    AliveSet(s.workers, w, Gone);
    AliveSet(s.workers, w, Waiting);
    hide Alive;
  }

  lemma ReaderCounts(c: Config, s: State, l: Label)
    requires c.part > 0 && |s.bufs| > 0 && s.cur < |s.bufs| && Counted(c, s) && Enabled(c, s, l)
    requires OfReader(l)
    ensures Counted(c, Step(c, s, l))
  {
    hide Alive, SendChunk;
    if l.SendNext? { SendCounts(c, s, false, true); }
  }

  lemma StepCounts(c: Config, s: State, l: Label)
    requires Inv(c, s) && Counted(c, s) && Enabled(c, s, l)
    ensures Counted(c, Step(c, s, l))
  {
    hide WindowInv, TasksInv, UniqueInv, AtBuffer, Between, Counted, SendChunk, FinishBuf, ReadOnce, Write, Room;
    match l
    case Receive(w) =>
      CountedSame(c, s, s.(channel := s.channel[1..]));
      WorkerCounts(c, s.(channel := s.channel[1..]), w, if s.failed then Gone else Requesting(s.channel[0]), false);
    case Drop(w) => WorkerCounts(c, s, w, Waiting, false);
    case Fails(w) => WorkerCounts(c, s, w, Gone, true);
    case Overload(w) => OverloadCounts(c, s, w);
    case Responds(w, limitOk) =>
      SendCounts(c, s, true, limitOk);
      SendWorkers(c, s, limitOk);
      WorkerCounts(c, SendChunk(c, s, true, limitOk), w, Copying(s.workers[w].ch, 0), false);
    case Body(w, k) =>
      CountedSame(c, s, s.(bufs := Step(c, s, l).bufs));
      WorkerCounts(c, s.(bufs := Step(c, s, l).bufs), w, Step(c, s, l).workers[w], false);
    case Done(w) => WorkerCounts(c, s, w, Waiting, false);
    case Breaks(w) => WorkerCounts(c, s, w, Requesting(Rest(s.workers[w].ch, s.workers[w].n)), false);
    case _ => ReaderCounts(c, s, l);
  }

  lemma StartCounted(c: Config)
    requires GoodConfig(c)
    ensures Counted(c, Start(c))
  {
    assert Start(c).workers == [] + [Waiting];
    AliveMore([], Waiting);
  }

  /** In every run that has not failed the workers that have not left are exactly the configured
      concurrency less what `concurrency` says. */
  lemma {:induction false} WorkersAreCounted(c: Config, run: seq<State>, labels: seq<Label>, i: nat)
    requires IsRun(c, run, labels) && i < |run|
    ensures Inv(c, run[i]) && run[i].concurrency < c.concurrency
    ensures !run[i].failed ==> Alive(run[i].workers) + Magnitude(run[i].concurrency) == c.concurrency
  {
    hide Inv, Step, Enabled, Alive;
    InvAlways(c, run, labels, i);
    if i == 0 {
      StartCounted(c);
    } else {
      WorkersAreCounted(c, run, labels, i - 1);
      assert IsStep(c, run[i - 1], labels[i - 1], run[i]);
      StepCounts(c, run[i - 1], labels[i - 1]);
    }
  }

  lemma {:induction false} NobodyAlive(workers: seq<Worker>, w: nat)
    requires Alive(workers) == 0 && w < |workers|
    ensures workers[w].Gone?
  {
    if w < |workers| - 1 { NobodyAlive(workers[..|workers| - 1], w); }
  }

  lemma StaysDeserted(c: Config, s: State, l: Label)
    requires c.part > 0 && |s.bufs| > 0 && s.cur < |s.bufs| && Enabled(c, s, l)
    requires s.concurrency <= 0 && forall w :: 0 <= w < |s.workers| ==> s.workers[w].Gone?
    ensures OfReader(l) && Step(c, s, l).workers == s.workers && Step(c, s, l).concurrency == s.concurrency
  {
    hide Write, Room;
  }

  /** A download whose workers have all left gets no new one. */
  lemma {:induction false} DesertedForGood(c: Config, run: seq<State>, labels: seq<Label>, i: nat, j: nat)
    requires IsRun(c, run, labels) && i <= j < |run| && Alive(run[i].workers) == 0 && run[i].concurrency <= 0
    ensures run[j].workers == run[i].workers && run[j].concurrency == run[i].concurrency
    ensures forall k :: i <= k < j ==> OfReader(labels[k])
  {
    hide Step, Enabled, Alive;
    if i < j {
      DesertedForGood(c, run, labels, i, j - 1);
      assert IsStep(c, run[j - 1], labels[j - 1], run[j]);
      forall w | 0 <= w < |run[i].workers| ensures run[i].workers[w].Gone? { NobodyAlive(run[i].workers, w); }
      StaysDeserted(c, run[j - 1], labels[j - 1]);
    }
  }

  /** Two workers for four bytes in two chunks. */
  function Small(): Config {
    Config([0, 0, 0, 0], 0, 4, 2, 2)
  }

  const CH0 := Chunk(0, 0, 2, 0, true)
  const CH1 := Chunk(1, 2, 2, 1, true)

  /** Its states while nothing is read. */
  function Halfway(sent: nat, bufs: seq<Buf>, concurrency: int, channel: seq<Chunk>, workers: seq<Worker>): State {
    State(2 * sent, sent, bufs, concurrency, channel, workers, false, 0, 0, Outside, false, [])
  }

  ghost predicate Leads(s: State, l: Label, s': State) {
    IsStep(Small(), s, l, s')
  }

  lemma FirstWorkerStarts(one: seq<Buf>)
    requires one == [NewBuf(2)]
    ensures Start(Small()) == Halfway(1, one, 1, [CH0], [Waiting])
  {
    var s := Start(Small());
    assert s.bufs == one && s.channel == [CH0] && s.workers == [Waiting];
  }

  lemma FirstWorkerReceives(one: seq<Buf>)
    requires |one| == 1
    ensures Leads(Halfway(1, one, 1, [CH0], [Waiting]), Receive(0), Halfway(1, one, 1, [], [Requesting(CH0)]))
  {
    hide SendChunk, ReadOnce, FinishBuf, Write, Room;
    var s := Step(Small(), Halfway(1, one, 1, [CH0], [Waiting]), Receive(0));
    assert s.channel == [] && s.workers == [Requesting(CH0)];
  }

  lemma SecondChunkIsSent(one: seq<Buf>, two: seq<Buf>)
    requires one == [NewBuf(2)] && two == [NewBuf(2), NewBuf(2)]
    ensures SendChunk(Small(), Halfway(1, one, 1, [], [Requesting(CH0)]), true, true) ==
            Halfway(2, two, 0, [CH1], [Requesting(CH0), Waiting])
  {
    var s := SendChunk(Small(), Halfway(1, one, 1, [], [Requesting(CH0)]), true, true);
    assert s.bufs == two && s.channel == [CH1] && s.workers == [Requesting(CH0), Waiting];
  }

  lemma SecondWorkerStarts(one: seq<Buf>, two: seq<Buf>)
    requires one == [NewBuf(2)] && two == [NewBuf(2), NewBuf(2)]
    ensures Leads(Halfway(1, one, 1, [], [Requesting(CH0)]), Responds(0, true),
                  Halfway(2, two, 0, [CH1], [Copying(CH0, 0), Waiting]))
  {
    hide SendChunk, ReadOnce, FinishBuf, Write, Room;
    SecondChunkIsSent(one, two);
    var s := Step(Small(), Halfway(1, one, 1, [], [Requesting(CH0)]), Responds(0, true));
    assert s.workers == [Copying(CH0, 0), Waiting];
  }

  lemma SecondWorkerLeaves(two: seq<Buf>)
    requires |two| == 2
    ensures Leads(Halfway(2, two, 0, [CH1], [Copying(CH0, 0), Waiting]), Receive(1),
                  Halfway(2, two, 0, [], [Copying(CH0, 0), Requesting(CH1)]))
    ensures Leads(Halfway(2, two, 0, [], [Copying(CH0, 0), Requesting(CH1)]), Overload(1),
                  Halfway(2, two, -1, [CH1], [Copying(CH0, 0), Gone]))
  {
    hide SendChunk, ReadOnce, FinishBuf, Write, Room;
    var c := Small();
    var s := Step(c, Halfway(2, two, 0, [CH1], [Copying(CH0, 0), Waiting]), Receive(1));
    assert s.channel == [] && s.workers == [Copying(CH0, 0), Requesting(CH1)];
    var s' := Step(c, Halfway(2, two, 0, [], [Copying(CH0, 0), Requesting(CH1)]), Overload(1));
    assert s'.channel == [CH1] && s'.workers == [Copying(CH0, 0), Gone];
  }

  lemma FirstWorkerFinishes(two: seq<Buf>)
    requires two == [NewBuf(2), NewBuf(2)]
    ensures var full := two[0 := Write(two[0], [0, 0])];
      && Leads(Halfway(2, two, -1, [CH1], [Copying(CH0, 0), Gone]), Body(0, 2),
               Halfway(2, full, -1, [CH1], [Copying(CH0, 2), Gone]))
      && Leads(Halfway(2, full, -1, [CH1], [Copying(CH0, 2), Gone]), Done(0),
               Halfway(2, full, -1, [CH1], [Waiting, Gone]))
  {
    hide SendChunk, ReadOnce, FinishBuf, Write;
    var c, full := Small(), two[0 := Write(two[0], [0, 0])];
    assert c.file[0..2] == [0, 0];
    var s := Step(c, Halfway(2, two, -1, [CH1], [Copying(CH0, 0), Gone]), Body(0, 2));
    assert s.workers == [Copying(CH0, 2), Gone];
    s := Step(c, Halfway(2, full, -1, [CH1], [Copying(CH0, 2), Gone]), Done(0));
    assert s.workers == [Waiting, Gone];
  }

  lemma FirstWorkerLeaves(bufs: seq<Buf>)
    requires |bufs| == 2
    ensures Leads(Halfway(2, bufs, -1, [CH1], [Waiting, Gone]), Receive(0),
                  Halfway(2, bufs, -1, [], [Requesting(CH1), Gone]))
    ensures Leads(Halfway(2, bufs, -1, [], [Requesting(CH1), Gone]), Overload(0),
                  Halfway(2, bufs, -2, [CH1], [Gone, Gone]))
  {
    hide SendChunk, ReadOnce, FinishBuf, Write, Room;
    var s := Step(Small(), Halfway(2, bufs, -1, [CH1], [Waiting, Gone]), Receive(0));
    assert s.channel == [] && s.workers == [Requesting(CH1), Gone];
    s := Step(Small(), Halfway(2, bufs, -1, [], [Requesting(CH1), Gone]), Overload(0));
    assert s.channel == [CH1] && s.workers == [Gone, Gone];
  }

  lemma BothGone()
    ensures Alive([Gone, Gone]) == 0
  {
    assert [Gone, Gone][..1] == [Gone] && [Gone][..0] == [];
  }

  /** It can come to that: a refused chunk goes back with the mark of the worker that was started
      for it, and whoever is refused with a marked chunk leaves. Here the second chunk is refused
      once for each of the two workers. */
  lemma LastWorkerLeaves() returns (run: seq<State>, labels: seq<Label>)
    ensures IsRun(Small(), run, labels)
    ensures var s := run[|labels|]; !s.failed && Alive(s.workers) == 0 && s.nextChunk == 2 && Missing(s.bufs, 1)
  {
    var one, two := [NewBuf(2)], [NewBuf(2), NewBuf(2)];
    var full := two[0 := Write(two[0], [0, 0])];
    FirstWorkerStarts(one);
    FirstWorkerReceives(one);
    SecondWorkerStarts(one, two);
    SecondWorkerLeaves(two);
    FirstWorkerFinishes(two);
    FirstWorkerLeaves(full);
    hide Step, Enabled, Write, SendChunk, Start, IsStep, Alive;
    labels := [Receive(0), Responds(0, true), Receive(1), Overload(1), Body(0, 2), Done(0), Receive(0), Overload(0)];
    run := [Halfway(1, one, 1, [CH0], [Waiting]), Halfway(1, one, 1, [], [Requesting(CH0)]),
            Halfway(2, two, 0, [CH1], [Copying(CH0, 0), Waiting]),
            Halfway(2, two, 0, [], [Copying(CH0, 0), Requesting(CH1)]),
            Halfway(2, two, -1, [CH1], [Copying(CH0, 0), Gone]), Halfway(2, full, -1, [CH1], [Copying(CH0, 2), Gone]),
            Halfway(2, full, -1, [CH1], [Waiting, Gone]), Halfway(2, full, -1, [], [Requesting(CH1), Gone]),
            Halfway(2, full, -2, [CH1], [Gone, Gone])];
    assert Alive([Gone, Gone]) == 0 by { BothGone(); }
  }

  // ---------------------------------------------------------------- calls of Read

  /** The reader's buffer has bytes that are still to be read, be they there or not. */
  predicate BufferOpen(s: State) {
    s.cur < |s.bufs| && s.bufs[s.cur].offR < s.bufs[s.cur].size
  }

  /** What the reader has done since a call of Read with a slice of `p` bytes began in `s0`. */
  ghost predicate Reading(s0: State, p: nat, s: State) {
    && s0.out <= s.out && |s.out| <= |s0.out| + p && s0.rPos <= s.rPos
    && (s0.failed ==> s.failed) && (s0.eof ==> s.eof)
    && match s.read
       case Loop(q) => q == p && s.out == s0.out
       case Parked(q) => q == p && s.out == s0.out
       case Finishing => true
       case Switching => s.rPos > s0.rPos
       case Outside => |s.out| > |s0.out| || s.rPos > s0.rPos || s.eof || s.failed
  }

  /** A step that leaves the reader where it is. */
  ghost predicate ReaderAsIs(s: State, s': State) {
    && s'.out == s.out && s'.rPos == s.rPos && s'.read == s.read && s'.eof == s.eof && (s.failed ==> s'.failed)
    && (!s.read.Switching? && BufferOpen(s) ==> BufferOpen(s'))
  }

  lemma RespondsLeavesReader(c: Config, s: State, w: nat, limitOk: bool)
    requires Inv(c, s) && Enabled(c, s, Responds(w, limitOk))
    ensures ReaderAsIs(s, Step(c, s, Responds(w, limitOk)))
  {
    hide WindowInv, TasksInv, UniqueInv, Between, SendChunk;
    SendFrame(c, s, true, limitOk);
    SendKeepsCurrent(c, s, limitOk);
    SendWorkers(c, s, limitOk);
    SendSame(c, s, true, limitOk, s.rPos);
  }

  lemma WorkerLeavesReader(c: Config, s: State, l: Label)
    requires Inv(c, s) && Enabled(c, s, l)
    requires !OfReader(l)
    ensures ReaderAsIs(s, Step(c, s, l))
  {
    hide WindowInv, TasksInv, UniqueInv, AtBuffer, Between, SendChunk, Write;
    match l
    case Responds(w, limitOk) => RespondsLeavesReader(c, s, w, limitOk);
    case Body(w, k) =>
      var Copying(ch, n) := s.workers[w];
      WriteOffsets(s.bufs[ch.buf], c.file[ch.start + n..ch.start + n + k]);
    case _ =>
  }

  lemma WriteOffsets(b: Buf, bytes: seq<Byte>)
    ensures Write(b, bytes).offR == b.offR && Write(b, bytes).size == b.size
  {
  }

  /** The length of the slice of the call that is in Buf.Read's loop. */
  function Want(read: ReadPc): nat {
    match read
    case Loop(p) => p
    case Parked(p) => p
    case _ => 0
  }

  /** A reader in Buf.Read's loop, or parked there, wants bytes of a buffer that has some to come. */
  ghost predicate Open(s: State) {
    s.read.Loop? || s.read.Parked? ==> BufferOpen(s) && Want(s.read) > 0
  }

  /** What one step of the reader does for the call of Read it belongs to. */
  ghost predicate ReaderMoves(s: State, l: Label, s': State) {
    && s'.rPos >= s.rPos && s'.failed == s.failed && (s.eof ==> s'.eof)
    && match l
       case ReadCall(p) => s'.out == s.out && (s'.read == Loop(p) || s'.read.Finishing? || p == 0)
       case ReadLoop =>
         || (s'.read == Parked(Want(s.read)) && s'.out == s.out)
         || ((s'.read.Outside? || s'.read.Finishing?) && s.out <= s'.out && |s.out| < |s'.out| <= |s.out| + Want(s.read))
       case Wake => s'.read == Loop(Want(s.read)) && s'.out == s.out
       case SendNext => s'.out == s.out && if s'.read.Outside? then s'.eof else s'.read.Switching? && s'.rPos > s.rPos
       case Switch => s'.out == s.out && s'.read.Outside?
       case Abort => s'.out == s.out && s'.read.Outside? && s.failed
       case _ => true
  }

  lemma LoopMoves(c: Config, s: State)
    requires Inv(c, s) && s.read.Loop? && Open(s)
    ensures ReaderMoves(s, ReadLoop, ReadOnce(s, s.read.p)) && Open(ReadOnce(s, s.read.p))
  {
    hide WindowInv, TasksInv, UniqueInv, AtBuffer, Between, ReadOnce;
    ReadOnceCases(c, s, s.read.p);
  }

  lemma ReaderStepMoves(c: Config, s: State, l: Label)
    requires Inv(c, s) && Enabled(c, s, l) && OfReader(l) && Open(s)
    ensures ReaderMoves(s, l, Step(c, s, l)) && Open(Step(c, s, l))
  {
    hide WindowInv, TasksInv, UniqueInv, AtBuffer, Between, SendChunk, ReadOnce;
    match l
    case SendNext => SendFrame(c, s, false, true); SendFails(c, s, false, true);
    case ReadLoop => LoopMoves(c, s);
    case _ =>
  }

  lemma SendFails(c: Config, s: State, newConcurrency: bool, limitOk: bool)
    requires c.part > 0 && |s.bufs| > 0
    ensures SendChunk(c, s, newConcurrency, limitOk).failed == s.failed
  {
  }

  lemma StepKeepsOpen(c: Config, s: State, l: Label)
    requires Inv(c, s) && Enabled(c, s, l) && Open(s)
    ensures Open(Step(c, s, l))
  {
    hide Step, Inv, BufferOpen;
    if OfReader(l) { ReaderStepMoves(c, s, l); } else { WorkerLeavesReader(c, s, l); }
  }

  lemma {:induction false} OpenAlways(c: Config, run: seq<State>, labels: seq<Label>, i: nat)
    requires IsRun(c, run, labels) && i < |run|
    ensures Inv(c, run[i]) && Open(run[i])
  {
    hide Inv, Step, Enabled, Open;
    InvAlways(c, run, labels, i);
    if i == 0 {
      assert Open(run[0]) by { StartOutside(c); }
    } else {
      OpenAlways(c, run, labels, i - 1);
      assert IsStep(c, run[i - 1], labels[i - 1], run[i]);
      StepKeepsOpen(c, run[i - 1], labels[i - 1]);
    }
  }

  lemma StartOutside(c: Config)
    requires GoodConfig(c)
    ensures Open(Start(c))
  {
  }

  lemma ReadingGoesOn(s0: State, p: nat, s: State, l: Label, s': State)
    requires Reading(s0, p, s) && !s.read.Outside?
    requires if OfReader(l) then ReaderMoves(s, l, s') && !l.ReadCall? else ReaderAsIs(s, s')
    requires match l
      case ReadLoop => s.read.Loop?
      case Wake => s.read.Parked?
      case SendNext => s.read.Finishing?
      case Switch => s.read.Switching?
      case Abort => s.read.Loop? || s.read.Parked?
      case _ => true
    ensures Reading(s0, p, s')
  {
    hide BufferOpen;
  }

  lemma {:induction false} ReadingSince(c: Config, run: seq<State>, labels: seq<Label>, i: nat, j: nat)
    requires IsRun(c, run, labels) && i < j < |run| && labels[i].ReadCall? && labels[i].p > 0
    requires forall k :: i < k < j ==> !run[k].read.Outside?
    ensures Reading(run[i], labels[i].p, run[j])
  {
    hide Inv, Step, Reading, ReaderMoves, Open, Between;
    OpenAlways(c, run, labels, j - 1);
    assert IsStep(c, run[j - 1], labels[j - 1], run[j]);
    var l := labels[j - 1];
    if OfReader(l) { ReaderStepMoves(c, run[j - 1], l); } else { WorkerLeavesReader(c, run[j - 1], l); }
    if j == i + 1 {
      ReadingBegins(c, run[i], l, run[j]);
    } else {
      ReadingSince(c, run, labels, i, j - 1);
      ReadingGoesOn(run[i], labels[i].p, run[j - 1], l, run[j]);
    }
  }

  lemma ReadingBegins(c: Config, s: State, l: Label, s': State)
    requires l.ReadCall? && l.p > 0 && ReaderMoves(s, l, s')
    ensures Reading(s, l.p, s')
  {
  }

  /** A call of Read with a non-empty slice that comes back has delivered something, or has gone on
      to the next chunk, or the range is over, or the download has failed; and it has delivered
      no more than the slice holds. */
  lemma ReadMakesProgress(c: Config, run: seq<State>, labels: seq<Label>, i: nat, j: nat)
    requires IsRun(c, run, labels) && i < j < |run| && labels[i].ReadCall? && labels[i].p > 0
    requires run[j].read.Outside? && forall k :: i < k < j ==> !run[k].read.Outside?
    ensures run[i].out <= run[j].out && |run[j].out| <= |run[i].out| + labels[i].p
    ensures |run[j].out| > |run[i].out| || run[j].rPos > run[i].rPos || run[j].eof || run[j].failed
  {
    ReadingSince(c, run, labels, i, j);
  }

  /** A parked reader is not forgotten: unless the download has failed it has a signal waiting,
      or some worker can act, as long as one is left. None is left exactly when `concurrency` has
      come down to the negated configured concurrency. */
  lemma ParkedReaderIsServed(c: Config, run: seq<State>, labels: seq<Label>, i: nat) returns (l: Label)
    requires IsRun(c, run, labels) && i < |run| && run[i].read.Parked? && !run[i].failed
    ensures Alive(run[i].workers) == 0 <==> run[i].concurrency + c.concurrency == 0
    ensures run[i].concurrency + c.concurrency != 0 ==>
      Enabled(c, run[i], l) && (l.Wake? || l.Receive? || l.Responds? || l.Body? || l.Done?)
  {
    hide Inv, Enabled, Open, Covered, Step, Alive;
    WorkersAreCounted(c, run, labels, i);
    OpenAlways(c, run, labels, i);
    CoveredAlways(c, run, labels, i);
    l := Wake;
    if run[i].concurrency + c.concurrency != 0 && !Enabled(c, run[i], Wake) {
      l := SomeWorkerCanAct(c, run[i]);
    }
  }

  lemma SomeWorkerCanAct(c: Config, s: State) returns (l: Label)
    requires Inv(c, s) && Covered(s) && Open(s) && !s.failed && s.read.Parked? && !Enabled(c, s, Wake)
    requires Alive(s.workers) > 0
    ensures Enabled(c, s, l) && (l.Receive? || l.Responds? || l.Body? || l.Done?)
  {
    hide WindowInv, TasksInv, UniqueInv, AtBuffer, Between, Missing, Alive;
    ReaderBufferMissing(c, s);
    if w :| 0 <= w < |s.workers| && Carries(s.workers[w], s.rPos) {
      l := WorkerCanAct(c, s, w);
    } else {
      var w := SomeoneAlive(s.workers);
      if s.workers[w].Waiting? { l := Receive(w); } else { l := WorkerCanAct(c, s, w); }
    }
  }

  lemma ReaderBufferMissing(c: Config, s: State)
    requires Inv(c, s) && s.read.Parked? && Open(s) && !Enabled(c, s, Wake)
    ensures Missing(s.bufs, s.rPos)
  {
    hide WindowInv, TasksInv, UniqueInv;
  }

  lemma WorkerCanAct(c: Config, s: State, w: nat) returns (l: Label)
    requires Inv(c, s) && w < |s.workers| && Holding(s.workers[w])
    ensures Enabled(c, s, l) && (l.Responds? || l.Body? || l.Done?)
  {
    hide UniqueInv, ReaderInv;
    var x := s.workers[w];
    if x.Requesting? {
      l := Responds(w, true);
    } else {
      assert TaskOk(c, s, x.ch, x.n);
      if x.n < x.ch.size {
        WriteHolds(c, s, x.ch, x.n, 1);
        l := Body(w, 1);
      } else {
        l := Done(w);
      }
    }
  }
}
