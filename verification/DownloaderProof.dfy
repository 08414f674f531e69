/** Every run of the downloader hands the reader a prefix of the requested range. */
module DownloaderProof {
  import opened Basics
  import opened DownloadPlan
  import opened Downloader

  function Off(c: Config, id: nat): nat
    requires c.part > 0
  {
    Offset(id, c.length, c.part)
  }

  function Siz(c: Config, id: nat): nat
    requires c.part > 0
  {
    ChunkSize(id, c.length, c.part)
  }

  // ---------------------------------------------------------------- the invariant

  /** Chunks sent, buffers in the ring and the reader's place. A buffer per chunk while new
      workers may still come; afterwards the ring has a fixed length. */
  ghost predicate PlanInv(c: Config, s: State) {
    && GoodConfig(c)
    && s.nextChunk <= Parts(c) && s.pos == c.start + Off(c, s.nextChunk)
    && |s.bufs| > 0 && s.rPos <= s.nextChunk <= s.rPos + |s.bufs|
    && (s.concurrency > 0 ==> s.nextChunk <= |s.bufs|)
    && (s.concurrency > 0 && s.nextChunk < Parts(c) ==> |s.bufs| == s.nextChunk)
    && (s.concurrency <= 0 && s.nextChunk < Parts(c) ==> |s.bufs| <= s.nextChunk)
    && (forall b :: 0 <= b < |s.bufs| ==> |s.bufs[b].data| == c.part)
  }

  /** Buffer `b` was last filled for chunk `id` and holds a prefix of it. */
  ghost predicate Holds(c: Config, b: Buf, id: nat, rPos: nat)
    requires GoodConfig(c)
  {
    && b.size == Siz(c, id) && b.offR <= b.offW <= b.size <= |b.data|
    && c.start + Off(c, id) + b.size <= |c.file|
    && b.data[..b.offW] == c.file[c.start + Off(c, id)..c.start + Off(c, id) + b.offW]
    && (id < rPos ==> b.offR == b.size)
    && (id > rPos ==> b.offR == 0)
  }

  /** Every chunk that still has a buffer sits in bufs[id % len(bufs)]. */
  ghost predicate WindowInv(c: Config, s: State)
    requires PlanInv(c, s)
  {
    forall id: nat :: s.nextChunk - |s.bufs| <= id < s.nextChunk ==>
      Holds(c, s.bufs[Slot(id, |s.bufs|)], id, s.rPos)
  }

  /** A chunk in the channel or with a worker continues exactly where its buffer ends. */
  ghost predicate TaskOk(c: Config, s: State, ch: Chunk, n: nat)
    requires PlanInv(c, s)
  {
    && n <= ch.size && ch.id < s.nextChunk
    && (n < ch.size ==>
        && s.rPos <= ch.id && ch.buf == Slot(ch.id, |s.bufs|)
        && ch.start + n == c.start + Off(c, ch.id) + s.bufs[ch.buf].offW
        && s.bufs[ch.buf].offW + ch.size - n == Siz(c, ch.id))
  }

  /** Nothing of the reader's chunk and of the later ones is read. */
  ghost predicate Untouched(s: State) {
    |s.bufs| > 0 && forall id: nat :: s.rPos <= id < s.nextChunk ==> s.bufs[Slot(id, |s.bufs|)].offR == 0
  }

  predicate Holding(w: Worker) {
    w.Requesting? || w.Copying?
  }

  function Copied(w: Worker): nat {
    if w.Copying? then w.n else 0
  }

  ghost predicate TasksInv(c: Config, s: State)
    requires PlanInv(c, s)
  {
    && (forall i :: 0 <= i < |s.channel| ==> TaskOk(c, s, s.channel[i], 0))
    && (forall w :: 0 <= w < |s.workers| && Holding(s.workers[w]) ==>
          TaskOk(c, s, s.workers[w].ch, Copied(s.workers[w])))
  }

  /** No chunk is in two places. */
  ghost predicate UniqueInv(s: State) {
    && (forall i, j :: 0 <= i < j < |s.channel| ==> s.channel[i].id != s.channel[j].id)
    && (forall v, w :: 0 <= v < w < |s.workers| && Holding(s.workers[v]) && Holding(s.workers[w]) ==>
          s.workers[v].ch.id != s.workers[w].ch.id)
    && (forall i, w :: 0 <= i < |s.channel| && 0 <= w < |s.workers| && Holding(s.workers[w]) ==>
          s.channel[i].id != s.workers[w].ch.id)
  }

  ghost predicate Core(c: Config, s: State) {
    PlanInv(c, s) && WindowInv(c, s) && TasksInv(c, s) && UniqueInv(s)
  }

  /** Exactly the first `n` bytes of the range have come out. */
  ghost predicate Delivered(c: Config, out: seq<Byte>, n: nat) {
    c.start + n <= |c.file| && out == c.file[c.start..c.start + n]
  }

  /** At its buffer the reader has delivered the chunks before its own, and the buffer up to
      offR; if it is parked while data waits, a signal is waiting too. */
  ghost predicate AtBuffer(c: Config, s: State)
    requires c.part > 0 && s.cur < |s.bufs|
  {
    && s.cur == Slot(s.rPos, |s.bufs|)
    && Delivered(c, s.out, Off(c, s.rPos) + s.bufs[s.cur].offR)
    && (s.read.Parked? ==>
        s.bufs[s.cur].signal || (s.bufs[s.cur].pending && s.bufs[s.cur].offW == s.bufs[s.cur].offR))
    && (s.read.Finishing? || s.eof ==> s.bufs[s.cur].offR == s.bufs[s.cur].size)
    && (s.eof ==> s.rPos + 1 == Parts(c))
  }

  /** Between two buffers it has delivered the chunks before the next one, and none of that or
      any later one. */
  ghost predicate Between(c: Config, s: State)
    requires c.part > 0
  {
    !s.eof && Untouched(s) && Delivered(c, s.out, Off(c, s.rPos))
  }

  ghost predicate ReaderInv(c: Config, s: State)
    requires PlanInv(c, s)
  {
    && s.rPos < s.nextChunk && s.cur < |s.bufs|
    && (if s.read.Switching? then Between(c, s) else AtBuffer(c, s))
  }

  ghost predicate Inv(c: Config, s: State) {
    Core(c, s) && ReaderInv(c, s)
  }

  // ---------------------------------------------------------------- slots of the ring

  lemma SlotSmall(id: nat, n: nat)
    requires id < n
    ensures Slot(id, n) == id
  {
  }

  lemma SlotsDiffer(i: nat, j: nat, n: nat)
    requires n > 0 && i < j < i + n
    ensures Slot(i, n) != Slot(j, n)
  {
    if i % n == j % n {
      assert j - i == n * (j / n - i / n);
      TimesGrows(j / n - i / n, 0, n);
      TimesGrows(1, j / n - i / n, n);
      assert false;
    }
  }

  lemma RangeFits(c: Config, id: nat)
    requires GoodConfig(c) && id < Parts(c)
    ensures c.start + Off(c, id) + Siz(c, id) <= c.start + c.length <= |c.file|
    ensures 1 <= Siz(c, id) <= c.part
  {
    ChunksTile(c.length, c.part);
    OffsetGrows(id + 1, Parts(c), c.length, c.part);
  }

  // ---------------------------------------------------------------- sendChunkTask

  /** Another worker waits at the channel; everything else is as before. */
  lemma SpawnKeeps(c: Config, s: State)
    requires Core(c, s) && s.concurrency > 0
    ensures Core(c, Spawn(s)) && (Untouched(s) ==> Untouched(Spawn(s)))
  {
    hide Holds;
    forall w | 0 <= w < |Spawn(s).workers| && Holding(Spawn(s).workers[w])
      ensures w < |s.workers| && Spawn(s).workers[w] == s.workers[w]
    {
    }
  }

  /** The new chunk's task, and a reset buffer that waits for it. */
  lemma FreshChunk(c: Config, s: State, b: Buf, rPos: nat)
    requires PlanInv(c, s) && s.nextChunk < Parts(c) && |b.data| == c.part && rPos <= s.nextChunk
    ensures Siz(c, s.nextChunk) <= |b.data| && s.pos < c.start + c.length
    ensures Holds(c, Reset(b, Siz(c, s.nextChunk)), s.nextChunk, rPos)
    ensures s.pos + Siz(c, s.nextChunk) == c.start + Off(c, s.nextChunk + 1)
  {
    RangeFits(c, s.nextChunk);
  }

  ghost predicate SameSlot(s: State, s': State, id: nat) {
    && |s.bufs| > 0 && |s'.bufs| > 0 && Slot(id, |s'.bufs|) == Slot(id, |s.bufs|)
    && s'.bufs[Slot(id, |s'.bufs|)] == s.bufs[Slot(id, |s.bufs|)]
  }

  /** The chunks from `from` on keep their buffers and these their contents. */
  ghost predicate SameSlots(s: State, s': State, from: int) {
    forall id: nat :: from <= id < s.nextChunk ==> SameSlot(s, s', id)
  }

  /** While every chunk has its own buffer, a longer ring changes no chunk's buffer. */
  lemma LongerRing(s: State, s': State)
    requires 0 < |s.bufs| && s.nextChunk <= |s.bufs| && |s'.bufs| == |s.bufs| + 1
    requires forall b :: 0 <= b < s.nextChunk ==> s'.bufs[b] == s.bufs[b]
    ensures SameSlots(s, s', 0)
  {
    forall id: nat | id < s.nextChunk ensures SameSlot(s, s', id) {
      SlotSmall(id, |s.bufs|);
      SlotSmall(id, |s'.bufs|);
    }
  }

  /** The window after a send: the new chunk's buffer, if there is one, holds it, and the others
      are the same. */
  lemma SentWindow(c: Config, s: State, s': State)
    requires PlanInv(c, s) && PlanInv(c, s') && WindowInv(c, s)
    requires s'.rPos == s.rPos && (s'.nextChunk == s.nextChunk || s'.nextChunk == s.nextChunk + 1)
    requires s'.nextChunk - |s'.bufs| >= s.nextChunk - |s.bufs| || s.nextChunk <= |s.bufs|
    requires s'.nextChunk > s.nextChunk ==>
      var b := s'.bufs[Slot(s.nextChunk, |s'.bufs|)]; Holds(c, b, s.nextChunk, s.rPos) && b.offR == 0
    requires SameSlots(s, s', s'.nextChunk - |s'.bufs|)
    ensures WindowInv(c, s') && (Untouched(s) ==> Untouched(s'))
  {
    hide Holds, Slot;
    forall id: nat | s'.nextChunk - |s'.bufs| <= id < s'.nextChunk
      ensures Holds(c, s'.bufs[Slot(id, |s'.bufs|)], id, s.rPos)
      ensures Untouched(s) && s.rPos <= id ==> s'.bufs[Slot(id, |s'.bufs|)].offR == 0
    {
      if id < s.nextChunk { assert SameSlot(s, s', id); }
    }
  }

  /** The tasks after a send, when the buffers of unfinished chunks are untouched. */
  lemma SentTasks(c: Config, s: State, s': State)
    requires PlanInv(c, s) && TasksInv(c, s) && UniqueInv(s) && PlanInv(c, s') && s'.workers == s.workers
    requires s'.rPos == s.rPos && s.nextChunk <= s'.nextChunk
    requires s'.channel == s.channel || (
      && s'.nextChunk == s.nextChunk + 1 && |s'.channel| == |s.channel| + 1 && s'.channel[..|s.channel|] == s.channel
      && s'.channel[|s.channel|].id == s.nextChunk && TaskOk(c, s', s'.channel[|s.channel|], 0))
    requires SameSlots(s, s', s.rPos)
    ensures TasksInv(c, s') && UniqueInv(s')
  {
    forall ch, n: nat | TaskOk(c, s, ch, n) ensures TaskOk(c, s', ch, n) {
      TaskStays(c, s, s', ch, n);
    }
    hide TaskOk, SameSlots;
    forall i | 0 <= i < |s.channel| ensures s'.channel[i] == s.channel[i] {
      assert s'.channel[..|s.channel|][i] == s'.channel[i];
    }
  }

  lemma TaskStays(c: Config, s: State, s': State, ch: Chunk, n: nat)
    requires PlanInv(c, s) && PlanInv(c, s') && TaskOk(c, s, ch, n)
    requires s'.rPos == s.rPos && s.nextChunk <= s'.nextChunk && SameSlots(s, s', s.rPos)
    ensures TaskOk(c, s', ch, n)
  {
    hide Slot;
    if n < ch.size { assert SameSlot(s, s', ch.id); }
  }

  /** A new buffer at the end of the ring for the next chunk. */
  lemma DeliverNewKeeps(c: Config, s: State, more: bool)
    requires Core(c, s) && s.nextChunk == |s.bufs| < Parts(c)
    ensures var s' := Deliver(c, s, true, more);
      && Core(c, s') && s'.nextChunk == s.nextChunk + 1 && |s.bufs| <= |s'.bufs|
      && (Untouched(s) ==> Untouched(s'))
  {
    hide WindowInv, TasksInv, UniqueInv, Untouched, SameSlots, Holds;
    var s' := Deliver(c, s, true, more);
    FreshChunk(c, s, NewBuf(c.part), s.rPos);
    LongerRing(s, s');
    SlotSmall(s.nextChunk, |s'.bufs|);
    SlotsFrom(s, s', 0, s.rPos);
    SlotsFrom(s, s', 0, s'.nextChunk - |s'.bufs|);
    SentWindow(c, s, s');
    SentTasks(c, s, s');
  }

  lemma SlotsFrom(s: State, s': State, i: int, j: int)
    requires (i <= j || i <= 0) && SameSlots(s, s', i)
    ensures SameSlots(s, s', j)
  {
  }

  /** All chunks are sent: the new buffer stays unused. */
  lemma DeliverExtraKeeps(c: Config, s: State, more: bool)
    requires Core(c, s) && s.nextChunk == Parts(c) <= |s.bufs|
    ensures var s' := Deliver(c, s, true, more);
      && Core(c, s') && s'.nextChunk == s.nextChunk && |s.bufs| <= |s'.bufs|
      && (Untouched(s) ==> Untouched(s'))
  {
    hide WindowInv, TasksInv, UniqueInv, Untouched, SameSlots, Holds;
    SendsExactlyMaxPart(s.nextChunk, c.length, c.part);
    var s' := Deliver(c, s, true, more);
    LongerRing(s, s');
    SlotsFrom(s, s', 0, s.rPos);
    SlotsFrom(s, s', 0, s'.nextChunk - |s'.bufs|);
    SentWindow(c, s, s');
    SentTasks(c, s, s');
  }

  lemma ReusedSlots(s: State, s': State)
    requires 0 < |s.bufs| == |s'.bufs|
    requires s'.bufs == s.bufs[Slot(s.nextChunk, |s.bufs|) := s'.bufs[Slot(s.nextChunk, |s.bufs|)]]
    ensures SameSlots(s, s', s.nextChunk + 1 - |s.bufs|)
  {
    forall id: nat | s.nextChunk - |s.bufs| < id < s.nextChunk ensures SameSlot(s, s', id) {
      SlotsDiffer(id, s.nextChunk, |s.bufs|);
    }
  }

  /** The ring is full: the buffer of the chunk that was sent len(bufs) chunks ago is reused. */
  lemma ReuseKeeps(c: Config, s: State, more: bool)
    requires Core(c, s) && s.concurrency <= 0 && s.nextChunk < s.rPos + |s.bufs| && s.nextChunk < Parts(c)
    ensures var s' := Deliver(c, s, false, more);
      && Core(c, s') && s'.nextChunk > s.nextChunk && |s.bufs| <= |s'.bufs| && (Untouched(s) ==> Untouched(s'))
  {
    hide WindowInv, TasksInv, UniqueInv, Untouched, SameSlots, Holds;
    var s', b := Deliver(c, s, false, more), Slot(s.nextChunk, |s.bufs|);
    FreshChunk(c, s, s.bufs[b], s.rPos);
    ReusedSlots(s, s');
    SlotsFrom(s, s', s.nextChunk + 1 - |s.bufs|, s.rPos);
    SentWindow(c, s, s');
    SentTasks(c, s, s');
  }

  lemma DeliverReuseKeeps(c: Config, s: State, more: bool)
    requires Core(c, s) && s.concurrency <= 0 && s.nextChunk < s.rPos + |s.bufs|
    ensures var s' := Deliver(c, s, false, more);
      && Core(c, s') && s'.nextChunk >= s.nextChunk && (s'.nextChunk > s.nextChunk || s'.nextChunk == Parts(c))
      && |s.bufs| <= |s'.bufs| && (Untouched(s) ==> Untouched(s'))
  {
    hide WindowInv, TasksInv, UniqueInv, Untouched;
    if s.nextChunk < Parts(c) {
      ReuseKeeps(c, s, more);
    } else {
      SendsExactlyMaxPart(s.nextChunk, c.length, c.part);
      assert Deliver(c, s, false, more) == s;
    }
  }

  /** sendChunkTask keeps the invariant, and the reader's call sends a chunk while one is missing. */
  lemma SendKeeps(c: Config, s: State, newConcurrency: bool, limitOk: bool)
    requires Core(c, s)
    requires !newConcurrency ==> s.nextChunk < s.rPos + |s.bufs| || s.concurrency > 0
    ensures var s' := SendChunk(c, s, newConcurrency, limitOk);
      && Core(c, s') && |s.bufs| <= |s'.bufs| && (Untouched(s) ==> Untouched(s'))
      && s'.nextChunk >= s.nextChunk
      && (!newConcurrency ==> s'.nextChunk > s.nextChunk || s'.nextChunk == Parts(c))
  {
    hide WindowInv, TasksInv, UniqueInv, Untouched, Deliver;
    if newConcurrency && (s.concurrency <= 0 || (s.nextChunk > 0 && !limitOk)) {
    } else if s.concurrency > 0 {
      var s1 := if newConcurrency then Spawn(s) else s;
      SpawnKeeps(c, s);
      if s.nextChunk < Parts(c) { DeliverNewKeeps(c, s1, newConcurrency); }
      else { DeliverExtraKeeps(c, s1, newConcurrency); }
    } else {
      DeliverReuseKeeps(c, s, newConcurrency);
    }
  }

  /** sendChunkTask does not touch the buffer the reader is at, nor its slot. */
  lemma SendKeepsCurrent(c: Config, s: State, limitOk: bool)
    requires Core(c, s) && s.rPos < s.nextChunk
    ensures var s' := SendChunk(c, s, true, limitOk);
      && Slot(s.rPos, |s'.bufs|) == Slot(s.rPos, |s.bufs|) < |s.bufs| <= |s'.bufs|
      && s'.bufs[Slot(s.rPos, |s.bufs|)] == s.bufs[Slot(s.rPos, |s.bufs|)]
  {
    if s.concurrency > 0 {
      SlotSmall(s.rPos, |s.bufs|);
      SlotSmall(s.rPos, |s.bufs| + 1);
    }
  }

  // ---------------------------------------------------------------- the reader

  /** The buffer of the reader's chunk holds it. */
  lemma CurrentHolds(c: Config, s: State)
    requires Inv(c, s) && !s.read.Switching?
    ensures Holds(c, s.bufs[s.cur], s.rPos, s.rPos)
    ensures s.bufs[s.cur].offR <= s.bufs[s.cur].offW <= s.bufs[s.cur].size <= |s.bufs[s.cur].data| == c.part
  {
    hide TasksInv, UniqueInv, Delivered, Holds;
    assert Holds(c, s.bufs[Slot(s.rPos, |s.bufs|)], s.rPos, s.rPos);
    assert s.bufs[s.cur].offR <= s.bufs[s.cur].offW <= s.bufs[s.cur].size <= |s.bufs[s.cur].data| by { HoldsBounds(c, s.bufs[s.cur], s.rPos, s.rPos); }
  }

  lemma HoldsBounds(c: Config, b: Buf, id: nat, rPos: nat)
    requires GoodConfig(c) && Holds(c, b, id, rPos)
    ensures b.offR <= b.offW <= b.size <= |b.data| && b.size == Siz(c, id)
    ensures c.start + Off(c, id) + b.size <= |c.file|
    ensures (id < rPos ==> b.offR == b.size) && (id > rPos ==> b.offR == 0)
  {
  }

  /** With its chunk read to the end, the reader's next place fits every buffer. */
  lemma NextHolds(c: Config, b: Buf, id: nat, rPos: nat)
    requires GoodConfig(c) && Holds(c, b, id, rPos) && (id == rPos ==> b.offR == b.size)
    ensures Holds(c, b, id, rPos + 1) && (id > rPos ==> b.offR == 0)
  {
  }

  /** A buffer that is read to its end lets the reader move to the next chunk. */
  lemma NextChunkWindow(c: Config, s: State)
    requires Inv(c, s) && !s.read.Switching? && s.bufs[s.cur].offR == s.bufs[s.cur].size
    ensures var s1 := s.(rPos := s.rPos + 1); PlanInv(c, s1) && WindowInv(c, s1) && Untouched(s1)
  {
    hide TasksInv, UniqueInv, Holds, Slot, Delivered;
    forall id: nat | s.nextChunk - |s.bufs| <= id < s.nextChunk
      ensures Holds(c, s.bufs[Slot(id, |s.bufs|)], id, s.rPos + 1)
      ensures id > s.rPos ==> s.bufs[Slot(id, |s.bufs|)].offR == 0
    {
      NextHolds(c, s.bufs[Slot(id, |s.bufs|)], id, s.rPos);
    }
  }

  /** A chunk that is read to its end is in flight no more. */
  lemma NextTask(c: Config, s: State, ch: Chunk, n: nat)
    requires PlanInv(c, s) && TaskOk(c, s, ch, n) && s.rPos < s.nextChunk
    requires s.bufs[Slot(s.rPos, |s.bufs|)].offW == Siz(c, s.rPos)
    ensures PlanInv(c, s.(rPos := s.rPos + 1)) && TaskOk(c, s.(rPos := s.rPos + 1), ch, n)
  {
  }

  lemma NextChunkCore(c: Config, s: State)
    requires Inv(c, s) && !s.read.Switching? && s.bufs[s.cur].offR == s.bufs[s.cur].size
    ensures var s1 := s.(rPos := s.rPos + 1); Core(c, s1) && Untouched(s1)
    ensures Delivered(c, s.out, Off(c, s.rPos + 1))
  {
    hide TaskOk, WindowInv, Untouched, Delivered;
    var s1 := s.(rPos := s.rPos + 1);
    CurrentHolds(c, s);
    NextChunkWindow(c, s);
    forall ch, n: nat | TaskOk(c, s, ch, n) ensures TaskOk(c, s1, ch, n) {
      NextTask(c, s, ch, n);
    }
  }

  /** The invariant's core does not look at the reader's own fields. */
  lemma CoreSame(c: Config, s: State, s': State)
    requires Core(c, s) && s' == s.(cur := s'.cur, out := s'.out, read := s'.read, eof := s'.eof)
    ensures Core(c, s') && (Untouched(s) <==> Untouched(s'))
  {
    forall ch, n: nat ensures TaskOk(c, s, ch, n) <==> TaskOk(c, s', ch, n) {
    }
  }

  lemma SendFrame(c: Config, s: State, newConcurrency: bool, limitOk: bool)
    requires c.part > 0 && |s.bufs| > 0
    ensures var s' := SendChunk(c, s, newConcurrency, limitOk);
      s'.out == s.out && s'.rPos == s.rPos && s'.cur == s.cur && s'.read == s.read && s'.eof == s.eof
  {
  }

  /** Moving the reader on before or after the send makes no difference. */
  lemma FinishIs(c: Config, s: State)
    requires c.part > 0 && |s.bufs| > 0
    ensures FinishBuf(c, s) ==
            if s.rPos + 1 >= Parts(c) then s.(read := Outside, eof := true)
            else SendChunk(c, s.(rPos := s.rPos + 1), false, true).(read := Switching)
  {
  }

  lemma FinishLastKeeps(c: Config, s: State)
    requires Inv(c, s) && s.read.Finishing? && s.rPos + 1 >= Parts(c)
    ensures Inv(c, s.(read := Outside, eof := true))
  {
    CoreSame(c, s, s.(read := Outside, eof := true));
  }

  lemma FinishNextKeeps(c: Config, s: State)
    requires Core(c, s) && Untouched(s) && s.nextChunk < s.rPos + |s.bufs| && s.rPos < Parts(c) && !s.eof
    requires Delivered(c, s.out, Off(c, s.rPos)) && s.cur < |s.bufs|
    ensures Inv(c, SendChunk(c, s, false, true).(read := Switching))
  {
    hide WindowInv, TasksInv, UniqueInv, Delivered, Untouched, SendChunk;
    SendKeeps(c, s, false, true);
    SendFrame(c, s, false, true);
    var s' := SendChunk(c, s, false, true);
    CoreSame(c, s', s'.(read := Switching));
  }

  /** finishBuf either ends the range, or sends a chunk and leaves the reader between two buffers. */
  lemma FinishKeeps(c: Config, s: State)
    requires Inv(c, s) && s.read.Finishing?
    ensures Inv(c, FinishBuf(c, s))
  {
    hide WindowInv, TasksInv, UniqueInv, Delivered, Untouched, SendChunk, FinishBuf;
    FinishIs(c, s);
    if s.rPos + 1 < Parts(c) {
      NextChunkCore(c, s);
      FinishNextKeeps(c, s.(rPos := s.rPos + 1));
    } else {
      FinishLastKeeps(c, s);
    }
  }

  /** Whatever the workers did since the lock was given back, the lookup finds the next chunk. */
  lemma SwitchKeeps(c: Config, s: State)
    requires Inv(c, s) && s.read.Switching?
    ensures Inv(c, s.(cur := Slot(s.rPos, |s.bufs|), read := Outside))
  {
    RangeFits(c, s.rPos);
    CoreSame(c, s, s.(cur := Slot(s.rPos, |s.bufs|), read := Outside));
  }

  /** Replacing the current buffer by one that holds the same chunk. */
  lemma CurrentKeeps(c: Config, s: State, s': State)
    requires Inv(c, s) && !s.read.Switching? && s' == s.(bufs := s'.bufs, out := s'.out, read := s'.read)
    requires |s'.bufs| == |s.bufs| && forall b :: 0 <= b < |s.bufs| && b != s.cur ==> s'.bufs[b] == s.bufs[b]
    requires Holds(c, s'.bufs[s.cur], s.rPos, s.rPos)
    requires s'.bufs[s.cur].data == s.bufs[s.cur].data && s'.bufs[s.cur].offW == s.bufs[s.cur].offW
    ensures Core(c, s')
  {
    forall id: nat | s.nextChunk - |s.bufs| <= id < s.nextChunk && id != s.rPos
      ensures s'.bufs[Slot(id, |s.bufs|)] == s.bufs[Slot(id, |s.bufs|)]
    {
      if id < s.rPos { SlotsDiffer(id, s.rPos, |s.bufs|); } else { SlotsDiffer(s.rPos, id, |s.bufs|); }
    }
    forall ch, n: nat | TaskOk(c, s, ch, n) ensures TaskOk(c, s', ch, n) {
    }
  }

  lemma SliceOf(s: seq<Byte>, at: nat, w: nat, r: nat, n: nat)
    requires at + w <= |s| && r + n <= w
    ensures s[at..at + w][r..r + n] == s[at + r..at + r + n]
  {
    var x, y := s[at..at + w][r..r + n], s[at + r..at + r + n];
    assert |x| == |y| == n;
    assert forall i :: 0 <= i < n ==> x[i] == s[at + r + i] == y[i];
  }

  lemma SlicesMeet(s: seq<Byte>, i: nat, j: nat, k: nat)
    requires i <= j <= k <= |s|
    ensures s[i..j] + s[j..k] == s[i..k]
  {
  }

  lemma ReadOn(file: seq<Byte>, from: nat, data: seq<Byte>, at: nat, r: nat, w: nat, n: nat)
    requires r + n <= w <= |data| && from <= at && at + w <= |file|
    requires data[..w] == file[at..at + w]
    ensures file[from..at + r] + data[r..r + n] == file[from..at + r + n]
  {
    assert data[r..r + n] == data[..w][r..r + n] by { SliceOf(data, 0, w, r, n); }
    SliceOf(file, at, w, r, n);
    SlicesMeet(file, from, at + r, at + r + n);
  }

  /** Reading on inside a buffer continues the range. */
  lemma DeliverMore(c: Config, out: seq<Byte>, b: Buf, id: nat, n: nat)
    requires GoodConfig(c) && Holds(c, b, id, id) && b.offR + n <= b.offW
    requires Delivered(c, out, Off(c, id) + b.offR)
    ensures Delivered(c, out + b.data[b.offR..b.offR + n], Off(c, id) + b.offR + n)
  {
    hide Off, Siz;
    ReadOn(c.file, c.start, b.data, c.start + Off(c, id), b.offR, b.offW, n);
  }

  /** A piece of the current buffer is handed to the caller. */
  lemma CopyOutCore(c: Config, s: State, n: nat, read: ReadPc)
    requires Inv(c, s) && !s.read.Switching? && s.bufs[s.cur].offR + n <= s.bufs[s.cur].offW
    ensures s.bufs[s.cur].offW <= |s.bufs[s.cur].data| && Core(c, CopyOut(s, n, read))
  {
    hide WindowInv, TasksInv, UniqueInv, Delivered;
    var b := s.bufs[s.cur];
    CurrentHolds(c, s);
    CurrentKeeps(c, s, CopyOut(s, n, read));
  }

  lemma CopyOutKeeps(c: Config, s: State, n: nat, last: bool)
    requires Inv(c, s) && !s.read.Switching? && s.bufs[s.cur].offR + n <= s.bufs[s.cur].offW
    requires last ==> s.bufs[s.cur].offR + n >= s.bufs[s.cur].size
    ensures s.bufs[s.cur].offW <= |s.bufs[s.cur].data|
    ensures Inv(c, CopyOut(s, n, if last then Finishing else Outside))
  {
    hide WindowInv, TasksInv, UniqueInv, Holds, Delivered, Off, Siz;
    CopyOutCore(c, s, n, if last then Finishing else Outside);
    CurrentHolds(c, s);
    DeliverMore(c, s.out, s.bufs[s.cur], s.rPos, n);
  }

  /** Nothing left in the buffer: the reader parks and asks for a signal. */
  lemma ParkKeeps(c: Config, s: State, p: nat)
    requires Inv(c, s) && !s.read.Switching? && s.bufs[s.cur].offW == s.bufs[s.cur].offR
    ensures Inv(c, s.(bufs := s.bufs[s.cur := s.bufs[s.cur].(pending := true)], read := Parked(p)))
  {
    hide WindowInv, TasksInv, UniqueInv, Delivered;
    var b := s.bufs[s.cur];
    CurrentHolds(c, s);
    CurrentKeeps(c, s, s.(bufs := s.bufs[s.cur := b.(pending := true)], read := Parked(p)));
  }

  lemma WakeKeeps(c: Config, s: State, p: nat)
    requires Inv(c, s) && !s.read.Switching?
    ensures Inv(c, s.(bufs := s.bufs[s.cur := s.bufs[s.cur].(signal := false)], read := Loop(p)))
  {
    hide WindowInv, TasksInv, UniqueInv, Delivered;
    var b := s.bufs[s.cur];
    CurrentHolds(c, s);
    CurrentKeeps(c, s, s.(bufs := s.bufs[s.cur := b.(signal := false)], read := Loop(p)));
  }

  lemma ReadPcKeeps(c: Config, s: State, r: ReadPc)
    requires Inv(c, s) && !s.read.Switching? && (r.Outside? || r.Loop? || r.Finishing?)
    requires r.Finishing? ==> s.bufs[s.cur].offR >= s.bufs[s.cur].size
    ensures Inv(c, s.(read := r))
  {
    hide WindowInv, TasksInv, UniqueInv, Delivered;
    CurrentHolds(c, s);
    CoreSame(c, s, s.(read := r));
  }

  lemma ReadOnceCases(c: Config, s: State, p: nat)
    requires Inv(c, s) && !s.read.Switching?
    ensures var b := s.bufs[s.cur];
      && b.offR <= b.offW <= b.size <= |b.data|
      && (b.offW == b.offR ==> ReadOnce(s, p) == s.(bufs := s.bufs[s.cur := b.(pending := true)], read := Parked(p)))
      && (b.offW != b.offR ==>
            var n := if p <= b.offW - b.offR then p else b.offW - b.offR;
            ReadOnce(s, p) == CopyOut(s, n, if n < p && b.offR + n >= b.size then Finishing else Outside))
  {
    hide WindowInv, TasksInv, UniqueInv, Delivered;
    CurrentHolds(c, s);
  }

  lemma ReadOnceKeeps(c: Config, s: State, p: nat)
    requires Inv(c, s) && !s.read.Switching?
    ensures Inv(c, ReadOnce(s, p))
  {
    hide Core, AtBuffer, Between, ReadOnce, CopyOut;
    var b := s.bufs[s.cur];
    ReadOnceCases(c, s, p);
    if b.offW == b.offR {
      ParkKeeps(c, s, p);
    } else {
      var n := if p <= b.offW - b.offR then p else b.offW - b.offR;
      CopyOutKeeps(c, s, n, n < p && b.offR + n >= b.size);
    }
  }

  // ---------------------------------------------------------------- the workers

  /** Steps that only move chunks between the channel and the workers. */
  predicate SameBuffers(s: State, s': State) {
    s' == s.(channel := s'.channel, workers := s'.workers, failed := s'.failed, concurrency := s'.concurrency)
  }

  /** Such a step leaves the plan, the window, the reader and every task as they are. */
  lemma SameBuffersKeep(c: Config, s: State, s': State)
    requires Inv(c, s) && SameBuffers(s, s') && (s'.concurrency == s.concurrency || s'.concurrency <= 0)
    ensures PlanInv(c, s') && WindowInv(c, s') && ReaderInv(c, s')
    ensures forall ch, n: nat :: TaskOk(c, s, ch, n) ==> TaskOk(c, s', ch, n)
  {
    hide TasksInv, UniqueInv, Holds, Delivered;
  }

  /** Worker `w` drops, finishes or keeps its chunk. */
  lemma SetWorkerKeeps(c: Config, s: State, w: nat, x: Worker, failed: bool)
    requires Inv(c, s) && w < |s.workers|
    requires Holding(x) ==>
      && Holding(s.workers[w]) && s.workers[w].ch.id == x.ch.id
      && TaskOk(c, s, x.ch, Copied(x))
    ensures Inv(c, SetWorker(s, w, x).(failed := failed))
  {
    hide PlanInv, WindowInv, ReaderInv, TaskOk;
    var s' := SetWorker(s, w, x).(failed := failed);
    SameBuffersKeep(c, s, s');
  }

  lemma ReceiveKeeps(c: Config, s: State, w: nat, x: Worker)
    requires Inv(c, s) && w < |s.workers| && s.workers[w].Waiting? && |s.channel| > 0
    requires x == Gone || x == Requesting(s.channel[0])
    ensures Inv(c, SetWorker(s.(channel := s.channel[1..]), w, x))
  {
    hide PlanInv, WindowInv, ReaderInv, TaskOk;
    var s' := SetWorker(s.(channel := s.channel[1..]), w, x);
    SameBuffersKeep(c, s, s');
    assert forall i :: 0 <= i < |s'.channel| ==> s'.channel[i] == s.channel[i + 1];
  }

  /** A refused chunk goes back into the channel, and no further worker starts. */
  lemma RequeueKeeps(c: Config, s: State, w: nat, x: Worker, k: int)
    requires Inv(c, s) && w < |s.workers| && s.workers[w].Requesting? && k <= 0 && (x.Waiting? || x.Gone?)
    ensures Inv(c, SetWorker(s, w, x).(concurrency := k, channel := s.channel + [s.workers[w].ch]))
  {
    hide PlanInv, WindowInv, ReaderInv, TaskOk;
    var s' := SetWorker(s, w, x).(concurrency := k, channel := s.channel + [s.workers[w].ch]);
    SameBuffersKeep(c, s, s');
    forall i | 0 <= i < |s'.channel|
      ensures s'.channel[i] == if i < |s.channel| then s.channel[i] else s.workers[w].ch
    {
    }
  }

  /** A response: the send for the next chunk leaves the reader and this worker alone. */
  lemma RespondsKeeps(c: Config, s: State, limitOk: bool)
    requires Inv(c, s)
    ensures Inv(c, SendChunk(c, s, true, limitOk))
  {
    hide WindowInv, TasksInv, UniqueInv, Delivered, SendChunk;
    SendKeeps(c, s, true, limitOk);
    SendKeepsCurrent(c, s, limitOk);
    SendFrame(c, s, true, limitOk);
  }

  // ---------------------------------------------------------------- a piece of a body is written

  lemma WriteIs(b: Buf, bytes: seq<Byte>)
    requires 0 < |bytes| && b.offW + |bytes| <= b.size <= |b.data|
    ensures var b' := Write(b, bytes);
      && Room(b, |bytes|) == |bytes| && |b'.data| == |b.data| && b'.offW == b.offW + |bytes|
      && b'.data[..b'.offW] == b.data[..b.offW] + bytes && b'.offR == b.offR && b'.size == b.size
      && (b.signal || b.pending ==> b'.signal)
  {
    assert bytes[..|bytes|] == bytes;
  }

  lemma Continued(file: seq<Byte>, at: nat, data: seq<Byte>, data': seq<Byte>, w: nat, k: nat)
    requires at + w + k <= |file| && w <= |data| && w + k <= |data'|
    requires data[..w] == file[at..at + w] && data'[..w + k] == data[..w] + file[at + w..at + w + k]
    ensures data'[..w + k] == file[at..at + w + k]
  {
    SlicesMeet(file, at, at + w, at + w + k);
  }

  /** Appending the next bytes of the file continues what a buffer holds. */
  lemma HoldsMore(c: Config, b: Buf, b': Buf, id: nat, rPos: nat, k: nat)
    requires GoodConfig(c) && Holds(c, b, id, rPos) && b.offW + k <= b.size && |b'.data| == |b.data|
    requires b'.size == b.size && b'.offR == b.offR && b'.offW == b.offW + k
    requires var at := c.start + Off(c, id) + b.offW;
      at + k <= |c.file| && b'.data[..b'.offW] == b.data[..b.offW] + c.file[at..at + k]
    ensures Holds(c, b', id, rPos)
  {
    hide Off, Siz, MaxPart;
    Continued(c.file, c.start + Off(c, id), b.data, b'.data, b.offW, k);
  }

  /** A write of `k` bytes for a chunk in flight always fits, and continues the chunk. */
  lemma WriteHolds(c: Config, s: State, ch: Chunk, n: nat, k: nat)
    requires Core(c, s) && TaskOk(c, s, ch, n) && n + k <= ch.size && k > 0
    ensures ch.buf < |s.bufs| && ch.start + n + k <= |c.file|
    ensures var b := s.bufs[ch.buf];
      && Room(b, k) == k && b.offW + k <= b.size <= |b.data|
      && Holds(c, Write(b, c.file[ch.start + n..ch.start + n + k]), ch.id, s.rPos)
  {
    hide TasksInv, UniqueInv, Room, Write, Off, Siz, Holds;
    var b := s.bufs[ch.buf];
    assert Holds(c, s.bufs[Slot(ch.id, |s.bufs|)], ch.id, s.rPos);
    HoldsBounds(c, b, ch.id, s.rPos);
    var bytes := c.file[ch.start + n..ch.start + n + k];
    WriteIs(b, bytes);
    HoldsMore(c, b, Write(b, bytes), ch.id, s.rPos, k);
  }

  /** Buffers of other chunks stay as they are. */
  lemma OtherSlots(c: Config, s: State, id: nat)
    requires PlanInv(c, s) && s.rPos <= id < s.nextChunk
    ensures forall j: nat :: s.nextChunk - |s.bufs| <= j < s.nextChunk && j != id ==>
      Slot(j, |s.bufs|) != Slot(id, |s.bufs|)
  {
    forall j: nat | s.nextChunk - |s.bufs| <= j < s.nextChunk && j != id
      ensures Slot(j, |s.bufs|) != Slot(id, |s.bufs|)
    {
      if j < id { SlotsDiffer(j, id, |s.bufs|); } else { SlotsDiffer(id, j, |s.bufs|); }
    }
  }

  function Wrote(c: Config, s: State, w: nat, b: Buf, x: Worker): State
    requires w < |s.workers| && Holding(s.workers[w]) && s.workers[w].ch.buf < |s.bufs|
  {
    SetWorker(s.(bufs := s.bufs[s.workers[w].ch.buf := b]), w, x)
  }

  lemma WrotePlan(c: Config, s: State, w: nat, b: Buf, k: nat)
    requires Core(c, s) && w < |s.workers| && s.workers[w].Copying?
    requires k > 0 && s.workers[w].n + k <= s.workers[w].ch.size
    requires var ch := s.workers[w].ch; ch.buf < |s.bufs| && |b.data| == c.part && Holds(c, b, ch.id, s.rPos)
    ensures var s' := Wrote(c, s, w, b, Copying(s.workers[w].ch, s.workers[w].n + k));
      PlanInv(c, s') && WindowInv(c, s')
  {
    hide UniqueInv;
    assert TaskOk(c, s, s.workers[w].ch, s.workers[w].n);
    OtherSlots(c, s, s.workers[w].ch.id);
  }

  lemma WroteKeeps(c: Config, s: State, w: nat, b: Buf, k: nat)
    requires Core(c, s) && w < |s.workers| && s.workers[w].Copying?
    requires k > 0 && s.workers[w].n + k <= s.workers[w].ch.size
    requires var Copying(ch, n) := s.workers[w];
      && ch.buf < |s.bufs| && |b.data| == c.part && b.offW == s.bufs[ch.buf].offW + k
      && Holds(c, b, ch.id, s.rPos)
    ensures Core(c, Wrote(c, s, w, b, Copying(s.workers[w].ch, s.workers[w].n + k)))
  {
    hide WindowInv, Holds;
    var Copying(ch, n) := s.workers[w];
    assert TaskOk(c, s, ch, n);
    WrotePlan(c, s, w, b, k);
    OtherSlots(c, s, ch.id);
    var s' := Wrote(c, s, w, b, Copying(ch, n + k));
    forall d, m: nat | TaskOk(c, s, d, m) && d.id != ch.id ensures TaskOk(c, s', d, m) {
    }
    assert TaskOk(c, s', ch, n + k);
  }

  /** The reader does not notice more bytes, unless it waits for a signal and then gets one. */
  lemma WroteReader(c: Config, s: State, w: nat, b: Buf, x: Worker)
    requires Inv(c, s) && w < |s.workers| && Holding(s.workers[w]) && s.workers[w].ch.buf < |s.bufs|
    requires var b0 := s.bufs[s.workers[w].ch.buf];
      b.offR == b0.offR && b.size == b0.size && (b0.signal || b0.pending ==> b.signal)
    requires PlanInv(c, Wrote(c, s, w, b, x))
    ensures ReaderInv(c, Wrote(c, s, w, b, x))
  {
    hide WindowInv, TasksInv, UniqueInv, PlanInv, Delivered;
  }

  lemma BodyKeeps(c: Config, s: State, w: nat, k: nat)
    requires Inv(c, s) && w < |s.workers| && s.workers[w].Copying?
    requires k > 0 && s.workers[w].n + k <= s.workers[w].ch.size
    ensures var Copying(ch, n) := s.workers[w];
      && ch.buf < |s.bufs| && ch.start + n + k <= |c.file|
      && Inv(c, Wrote(c, s, w, Write(s.bufs[ch.buf], c.file[ch.start + n..ch.start + n + k]), Copying(ch, n + k)))
  {
    hide WindowInv, UniqueInv, ReaderInv, Holds, Room, TaskOk, Write, Wrote;
    var Copying(ch, n) := s.workers[w];
    assert TaskOk(c, s, ch, n);
    WriteHolds(c, s, ch, n, k);
    var bytes := c.file[ch.start + n..ch.start + n + k];
    WriteIs(s.bufs[ch.buf], bytes);
    var b' := Write(s.bufs[ch.buf], bytes);
    WroteKeeps(c, s, w, b', k);
    WroteReader(c, s, w, b', Copying(ch, n + k));
  }
}
