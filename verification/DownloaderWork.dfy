/** What workers do is bounded: every step by which a worker gets on uses up
    some work, and only a refused or broken response gives a little of it back. */
module DownloaderWork {
  import opened Basics
  import opened DownloadPlan
  import opened Downloader
  import opened DownloaderProof
  import opened DownloaderTheorems

  /** A worker's steps with its chunk: the response, the bytes, the end. */
  function WorkerWork(w: Worker): nat {
    match w
    case Requesting(ch) => 2 + ch.size
    case Copying(ch, n) => if n <= ch.size then 1 + ch.size - n else 1
    case _ => 0
  }

  function WorkersWork(workers: seq<Worker>): nat {
    if workers == [] then 0 else WorkersWork(workers[..|workers| - 1]) + WorkerWork(workers[|workers| - 1])
  }

  function ChannelWork(channel: seq<Chunk>): nat {
    if channel == [] then 0 else 3 + channel[0].size + ChannelWork(channel[1..])
  }

  /** The same for the chunks that are not sent yet. */
  function UnsentWork(c: Config, sent: nat): int
    requires c.part > 0
  {
    3 * (Parts(c) - sent) + c.length - Off(c, sent)
  }

  function Work(c: Config, s: State): int
    requires c.part > 0
  {
    UnsentWork(c, s.nextChunk) + ChannelWork(s.channel) + WorkersWork(s.workers)
  }

  lemma {:induction false} WorkerSet(workers: seq<Worker>, w: nat, x: Worker)
    requires w < |workers|
    ensures WorkersWork(workers[w := x]) == WorkersWork(workers) - WorkerWork(workers[w]) + WorkerWork(x)
  {
    var last := |workers| - 1;
    if w == last {
      assert workers[w := x][..last] == workers[..last];
    } else {
      assert workers[w := x][..last] == workers[..last][w := x];
      WorkerSet(workers[..last], w, x);
    }
  }

  lemma WorkerAdded(workers: seq<Worker>, x: Worker)
    ensures WorkersWork(workers + [x]) == WorkersWork(workers) + WorkerWork(x)
  {
    assert (workers + [x])[..|workers|] == workers;
  }

  lemma {:induction false} ChunkAdded(channel: seq<Chunk>, ch: Chunk)
    ensures ChannelWork(channel + [ch]) == ChannelWork(channel) + 3 + ch.size
  {
    if channel == [] {
      assert [ch][1..] == [];
    } else {
      assert (channel + [ch])[1..] == channel[1..] + [ch];
      ChunkAdded(channel[1..], ch);
    }
  }

  /** A worker gets on with its chunk, or takes the next. */
  predicate Advances(l: Label) {
    l.Receive? || l.Responds? || l.Body? || l.Done?
  }

  /** A response is refused, or ends too early. */
  predicate Disturbs(l: Label) {
    l.Overload? || l.Breaks?
  }

  lemma DeliverWork(c: Config, s: State, isNew: bool, newConcurrency: bool)
    requires c.part > 0 && (isNew || |s.bufs| > 0)
    ensures Work(c, Deliver(c, s, isNew, newConcurrency)) == Work(c, s)
  {
    hide WorkersWork, ChannelWork, MaxPart, ChunkSize;
    var b := if isNew then |s.bufs| else Slot(s.nextChunk, |s.bufs|);
    ChunkAdded(s.channel, Chunk(s.nextChunk, s.pos, Siz(c, s.nextChunk), b, newConcurrency));
    assert Off(c, s.nextChunk + 1) == Off(c, s.nextChunk) + Siz(c, s.nextChunk);
  }

  lemma SendWork(c: Config, s: State, newConcurrency: bool, limitOk: bool)
    requires c.part > 0 && |s.bufs| > 0
    ensures Work(c, SendChunk(c, s, newConcurrency, limitOk)) == Work(c, s)
  {
    hide Deliver, UnsentWork, ChannelWork;
    WorkerAdded(s.workers, Waiting);
    hide WorkersWork;
    DeliverWork(c, if newConcurrency && s.concurrency > 0 then Spawn(s) else s, s.concurrency > 0, newConcurrency);
  }

  /** How the work changes in a step. */
  function Allowed(l: Label): int {
    if Advances(l) then -1 else if Disturbs(l) then 1 else 0
  }

  lemma ReceiveWork(c: Config, s: State, w: nat)
    requires c.part > 0 && |s.bufs| > 0 && s.cur < |s.bufs| && Enabled(c, s, Receive(w))
    ensures Work(c, Step(c, s, Receive(w))) <= Work(c, s) - 1
  {
    hide UnsentWork;
    WorkerSet(s.workers, w, Step(c, s, Receive(w)).workers[w]);
    hide WorkersWork;
  }

  lemma OverloadWork(c: Config, s: State, w: nat)
    requires c.part > 0 && |s.bufs| > 0 && s.cur < |s.bufs| && Enabled(c, s, Overload(w))
    ensures Work(c, Step(c, s, Overload(w))) <= Work(c, s) + 1
  {
    hide UnsentWork;
    ChunkAdded(s.channel, s.workers[w].ch);
    WorkerSet(s.workers, w, Gone);
    WorkerSet(s.workers, w, Waiting);
    hide WorkersWork, ChannelWork;
  }

  lemma RespondsWork(c: Config, s: State, w: nat, limitOk: bool)
    requires c.part > 0 && |s.bufs| > 0 && s.cur < |s.bufs| && Enabled(c, s, Responds(w, limitOk))
    ensures Work(c, Step(c, s, Responds(w, limitOk))) <= Work(c, s) - 1
  {
    hide UnsentWork, ChannelWork, WorkersWork, SendChunk;
    SendWork(c, s, true, limitOk);
    SendWorkers(c, s, limitOk);
    var s' := SendChunk(c, s, true, limitOk);
    WorkerSet(s'.workers, w, Copying(s.workers[w].ch, 0));
  }

  /** A worker that goes on without a new chunk. */
  lemma WorkerGoes(c: Config, s: State, w: nat, x: Worker, s': State)
    requires c.part > 0 && w < |s.workers| && s'.workers == s.workers[w := x]
    requires s'.nextChunk == s.nextChunk && s'.channel == s.channel
    ensures Work(c, s') == Work(c, s) - WorkerWork(s.workers[w]) + WorkerWork(x)
  {
    hide UnsentWork, ChannelWork;
    WorkerSet(s.workers, w, x);
  }

  lemma StepWork(c: Config, s: State, l: Label)
    requires Inv(c, s) && Enabled(c, s, l)
    ensures Work(c, Step(c, s, l)) <= Work(c, s) + Allowed(l)
  {
    hide WindowInv, TasksInv, UniqueInv, AtBuffer, Between, SendChunk, ReadOnce, Write, Work;
    var s' := Step(c, s, l);
    match l
    case Receive(w) => ReceiveWork(c, s, w);
    case Overload(w) => OverloadWork(c, s, w);
    case Responds(w, limitOk) => RespondsWork(c, s, w, limitOk);
    case Body(w, k) => BodyWork(c, s, w, k);
    case Done(w) => WorkerGoes(c, s, w, s'.workers[w], s');
    case Breaks(w) => WorkerGoes(c, s, w, s'.workers[w], s');
    case Drop(w) => WorkerGoes(c, s, w, s'.workers[w], s');
    case Fails(w) => WorkerGoes(c, s, w, s'.workers[w], s');
    case _ => ReaderWork(c, s, l);
  }

  lemma BodyWork(c: Config, s: State, w: nat, k: nat)
    requires Inv(c, s) && Enabled(c, s, Body(w, k))
    ensures Work(c, Step(c, s, Body(w, k))) <= Work(c, s) - 1
  {
    hide Step, Work, WindowInv, UniqueInv, AtBuffer, Between, Write, Room, Holds;
    var Copying(ch, n) := s.workers[w];
    assert TaskOk(c, s, ch, n);
    WriteHolds(c, s, ch, n, k);
    BodyStepIs(c, s, w, k);
    WorkerGoes(c, s, w, Copying(ch, n + k), Step(c, s, Body(w, k)));
  }

  lemma ReaderWork(c: Config, s: State, l: Label)
    requires Inv(c, s) && Enabled(c, s, l)
    requires l.ReadCall? || l.ReadLoop? || l.Wake? || l.SendNext? || l.Switch? || l.Abort?
    ensures Work(c, Step(c, s, l)) == Work(c, s)
  {
    hide WindowInv, TasksInv, UniqueInv, AtBuffer, Between, SendChunk, UnsentWork, ChannelWork, WorkersWork;
    if l.SendNext? { SendWork(c, s, false, true); }
  }

  /** How many of the labels are of a kind. */
  function Steps(labels: seq<Label>, kind: Label -> bool): nat {
    if labels == [] then 0 else Steps(labels[..|labels| - 1], kind) + if kind(labels[|labels| - 1]) then 1 else 0
  }

  lemma WorkIsNat(c: Config, s: State)
    requires PlanInv(c, s)
    ensures Work(c, s) >= 0
  {
    OffsetGrows(s.nextChunk, Parts(c), c.length, c.part);
    ChunksTile(c.length, c.part);
  }

  lemma {:induction false} WorkGoesDown(c: Config, run: seq<State>, labels: seq<Label>, i: nat)
    requires IsRun(c, run, labels) && i < |run|
    ensures Work(c, run[i]) + Steps(labels[..i], l => Advances(l)) <=
            Work(c, Start(c)) + Steps(labels[..i], l => Disturbs(l))
  {
    hide Inv, Step, Enabled, Work, Advances, Disturbs;
    if i > 0 {
      WorkGoesDown(c, run, labels, i - 1);
      InvAlways(c, run, labels, i - 1);
      assert IsStep(c, run[i - 1], labels[i - 1], run[i]);
      StepWork(c, run[i - 1], labels[i - 1]);
      KindsApart(labels[i - 1]);
      assert labels[..i][..i - 1] == labels[..i - 1];
    }
  }

  lemma KindsApart(l: Label)
    ensures !(Advances(l) && Disturbs(l))
  {
  }

  lemma StartWork(c: Config)
    requires GoodConfig(c)
    ensures Work(c, Start(c)) == c.length + 3 * Parts(c)
  {
    var s := State(c.start, 0, [], c.concurrency, [], [], false, 0, 0, Outside, false, []);
    WorkerAdded([], Waiting);
    assert [] + [Waiting] == [Waiting];
    DeliverWork(c, Spawn(s), true, true);
  }

  /** In any run the steps by which workers get on are at most the bytes of the range and three a
      chunk, and one more for every response that was refused or broke off. */
  lemma WorkIsBounded(c: Config, run: seq<State>, labels: seq<Label>)
    requires IsRun(c, run, labels)
    ensures c.part > 0
    ensures Steps(labels, l => Advances(l)) <= c.length + 3 * Parts(c) + Steps(labels, l => Disturbs(l))
  {
    hide Work, Advances, Disturbs, Start, Step;
    WorkGoesDown(c, run, labels, |labels|);
    InvAlways(c, run, labels, |labels|);
    WorkIsNat(c, run[|labels|]);
    StartWork(c);
    assert labels[..|labels|] == labels;
  }
}
