/** Group of pkg/singleflight as a machine: every Do, DoChan and spawned goroutine is a thread,
    and a step is one critical section, one return of the function or one wake-up. */
module SingleFlight {
  import opened Basics

  type Key(==,!new)
  type Res(==,!new)

  /** A run of the function: `owner` is the thread that runs it, `dups` the callers that joined
      it, `chans` the channels its result goes to. */
  datatype Call = Call(key: Key, owner: nat, done: bool, res: Option<Res>, dups: nat, chans: seq<nat>)

  datatype Message = Message(res: Res, shared: bool)

  datatype Thread =
    | Waiting(c: nat)                       // Do joined c and waits
    | Running(c: nat)                       // in the function
    | Finishing(c: nat)                     // the function has returned
    | Leaving(c: nat)                       // doCall is over
    | Returned(c: nat, msg: Message)        // Do has returned

  /** A channel made by DoChan, of capacity one, with what was sent on it. */
  datatype Channel = Channel(c: nat, sent: seq<Message>)

  datatype State = State(m: map<Key, nat>, calls: seq<Call>, threads: seq<Thread>, channels: seq<Channel>, forgotten: set<Key>)

  datatype Label =
    | Do(key: Key)
    | DoChan(key: Key)
    | Return(t: nat, res: Res)
    | Finish(t: nat)
    | Leave(t: nat)
    | Wake(t: nat)
    | Forget(key: Key)

  function Start(): State {
    State(map[], [], [], [], {})
  }

  predicate Enabled(s: State, l: Label) {
    match l
    case Do(k) => k in s.m ==> s.m[k] < |s.calls|
    case DoChan(k) => k in s.m ==> s.m[k] < |s.calls|
    case Return(t, _) => t < |s.threads| && s.threads[t].Running? && s.threads[t].c < |s.calls|
    case Finish(t) => t < |s.threads| && s.threads[t].Finishing? && s.threads[t].c < |s.calls| && s.calls[s.threads[t].c].res.Some?
    case Leave(t) => t < |s.threads| && s.threads[t].Leaving? && s.threads[t].c < |s.calls| && s.calls[s.threads[t].c].res.Some?
    case Wake(t) =>
      && t < |s.threads| && s.threads[t].Waiting? && s.threads[t].c < |s.calls|
      && s.calls[s.threads[t].c].done && s.calls[s.threads[t].c].res.Some?
    case Forget(_) => true
  }

  function SetCall(s: State, c: nat, x: Call): State
    requires c < |s.calls|
  {
    s.(calls := s.calls[c := x])
  }

  function SetThread(s: State, t: nat, x: Thread): State
    requires t < |s.threads|
  {
    s.(threads := s.threads[t := x])
  }

  /** The sends at the end of doCall. */
  function SendAll(channels: seq<Channel>, to: seq<nat>, msg: Message): seq<Channel> {
    seq(|channels|, i requires 0 <= i < |channels| =>
      if i in to then channels[i].(sent := channels[i].sent + [msg]) else channels[i])
  }

  function Step(s: State, l: Label): State
    requires Enabled(s, l)
  {
    match l
    case Do(k) =>
      if k in s.m then
        var c := s.calls[s.m[k]];
        SetCall(s, s.m[k], c.(dups := c.dups + 1)).(threads := s.threads + [Waiting(s.m[k])])
      else
        s.(m := s.m[k := |s.calls|], calls := s.calls + [Call(k, |s.threads|, false, None, 0, [])],
           threads := s.threads + [Running(|s.calls|)])
    case DoChan(k) =>
      var ch := |s.channels|;
      if k in s.m then
        var c := s.calls[s.m[k]];
        SetCall(s, s.m[k], c.(dups := c.dups + 1, chans := c.chans + [ch])).(channels := s.channels + [Channel(s.m[k], [])])
      else
        s.(m := s.m[k := |s.calls|], calls := s.calls + [Call(k, |s.threads|, false, None, 0, [ch])],
           threads := s.threads + [Running(|s.calls|)], channels := s.channels + [Channel(|s.calls|, [])])
    case Return(t, res) =>
      var c := s.threads[t].c;
      SetCall(SetThread(s, t, Finishing(c)), c, s.calls[c].(res := Some(res)))
    case Finish(t) =>
      var c := s.threads[t].c;
      var call := s.calls[c];
      SetCall(SetThread(s, t, Leaving(c)), c, call.(done := true)).(
        m := if call.key in s.m && s.m[call.key] == c then s.m - {call.key} else s.m,
        channels := SendAll(s.channels, call.chans, Message(call.res.value, call.dups > 0)))
    case Leave(t) =>
      var c := s.threads[t].c;
      SetThread(s, t, Returned(c, Message(s.calls[c].res.value, s.calls[c].dups > 0)))
    case Wake(t) =>
      var c := s.threads[t].c;
      SetThread(s, t, Returned(c, Message(s.calls[c].res.value, true)))
    case Forget(k) => s.(m := s.m - {k}, forgotten := s.forgotten + {k})
  }

  // ---------------------------------------------------------------- the invariant

  /** What is registered is running; what is running is registered, unless it was forgotten. */
  ghost predicate RegistryInv(m: map<Key, nat>, calls: seq<Call>, forgotten: set<Key>) {
    && (forall k :: k in m ==> m[k] < |calls| && calls[m[k]].key == k && !calls[m[k]].done)
    && (forall c :: 0 <= c < |calls| && !calls[c].done && calls[c].key !in forgotten ==>
          calls[c].key in m && m[calls[c].key] == c)
  }

  predicate Working(x: Thread, c: nat, call: Call) {
    x.c == c && ((x.Running? && call.res.None?) || (x.Finishing? && call.res.Some?))
  }

  /** A call that is not done is with its owner; a done one has its result. */
  ghost predicate CallsInv(calls: seq<Call>, threads: seq<Thread>) {
    forall c :: 0 <= c < |calls| ==>
      && calls[c].owner < |threads|
      && if calls[c].done then calls[c].res.Some? else Working(threads[calls[c].owner], c, calls[c])
  }

  ghost predicate ThreadOk(x: Thread, t: nat, calls: seq<Call>) {
    && x.c < |calls|
    && (x.Waiting? ==> calls[x.c].owner != t && calls[x.c].dups > 0)
    && (x.Running? ==> calls[x.c].owner == t && !calls[x.c].done && calls[x.c].res.None?)
    && (x.Finishing? ==> calls[x.c].owner == t && !calls[x.c].done && calls[x.c].res.Some?)
    && (x.Leaving? ==> calls[x.c].owner == t && calls[x.c].done)
    && (x.Returned? ==> calls[x.c].done && Some(x.msg.res) == calls[x.c].res && (x.msg.shared <==> calls[x.c].dups > 0))
  }

  ghost predicate ThreadsInv(calls: seq<Call>, threads: seq<Thread>) {
    forall t :: 0 <= t < |threads| ==> ThreadOk(threads[t], t, calls)
  }

  /** A channel belongs to one call, and gets that call's result once, when it is done. */
  ghost predicate ChannelOk(x: Channel, i: nat, calls: seq<Call>) {
    && x.c < |calls| && i in calls[x.c].chans
    && x.sent == if calls[x.c].done && calls[x.c].res.Some? then [Message(calls[x.c].res.value, calls[x.c].dups > 0)] else []
  }

  ghost predicate ChannelsInv(calls: seq<Call>, channels: seq<Channel>) {
    && (forall i :: 0 <= i < |channels| ==> ChannelOk(channels[i], i, calls))
    && (forall c :: 0 <= c < |calls| ==> OwnChannels(calls[c], c, channels))
  }

  ghost predicate OwnChannels(call: Call, c: nat, channels: seq<Channel>) {
    forall j :: 0 <= j < |call.chans| ==> call.chans[j] < |channels| && channels[call.chans[j]].c == c
  }

  ghost predicate Inv(s: State) {
    && RegistryInv(s.m, s.calls, s.forgotten) && CallsInv(s.calls, s.threads)
    && ThreadsInv(s.calls, s.threads) && ChannelsInv(s.calls, s.channels)
  }

  lemma StartOk()
    ensures Inv(Start())
  {
  }

  /** A caller joins call `c`; `more` is its channel, if it has one. */
  lemma JoinKeeps(m: map<Key, nat>, calls: seq<Call>, threads: seq<Thread>, channels: seq<Channel>, forgotten: set<Key>,
                  c: nat, calls': seq<Call>, more: seq<nat>)
    requires RegistryInv(m, calls, forgotten) && CallsInv(calls, threads) && ThreadsInv(calls, threads)
    requires c < |calls| && !calls[c].done && calls' == calls[c := calls[c].(dups := calls[c].dups + 1, chans := calls[c].chans + more)]
    ensures RegistryInv(m, calls', forgotten) && CallsInv(calls', threads) && ThreadsInv(calls', threads)
  {
  }

  /** A new call is registered and starts to run on thread `t`. */
  lemma NewKeeps(m: map<Key, nat>, calls: seq<Call>, threads: seq<Thread>, forgotten: set<Key>, k: Key, chans: seq<nat>)
    requires RegistryInv(m, calls, forgotten) && CallsInv(calls, threads) && ThreadsInv(calls, threads) && k !in m
    ensures var calls' := calls + [Call(k, |threads|, false, None, 0, chans)];
      var threads' := threads + [Running(|calls|)];
      RegistryInv(m[k := |calls|], calls', forgotten) && CallsInv(calls', threads') && ThreadsInv(calls', threads')
  {
    var calls', threads' := calls + [Call(k, |threads|, false, None, 0, chans)], threads + [Running(|calls|)];
    assert forall c :: 0 <= c < |calls| ==> calls'[c] == calls[c];
    assert forall t :: 0 <= t < |threads| ==> threads'[t] == threads[t];
  }

  lemma WaiterKeeps(calls: seq<Call>, threads: seq<Thread>, c: nat)
    requires CallsInv(calls, threads) && ThreadsInv(calls, threads) && c < |calls| && calls[c].dups > 0
    ensures CallsInv(calls, threads + [Waiting(c)]) && ThreadsInv(calls, threads + [Waiting(c)])
  {
    var threads' := threads + [Waiting(c)];
    assert forall t :: 0 <= t < |threads| ==> threads'[t] == threads[t];
  }

  /** Channels after call `c` changed without finishing; `ch` is a new channel of its, if any. */
  lemma ChannelsKept(calls: seq<Call>, calls': seq<Call>, channels: seq<Channel>, c: nat)
    requires ChannelsInv(calls, channels) && |calls| <= |calls'| && c < |calls'|
    requires forall d :: 0 <= d < |calls| && d != c ==> calls'[d] == calls[d]
    requires |calls'| == |calls| || (|calls'| == |calls| + 1 && c == |calls|)
    requires !calls'[c].done && (c < |calls| ==> !calls[c].done)
    ensures calls'[c].chans == (if c < |calls| then calls[c].chans else []) ==> ChannelsInv(calls', channels)
    ensures calls'[c].chans == (if c < |calls| then calls[c].chans else []) + [|channels|] ==>
      ChannelsInv(calls', channels + [Channel(c, [])])
  {
    var more := channels + [Channel(c, [])];
    assert forall i :: 0 <= i < |channels| ==> more[i] == channels[i];
    forall d | 0 <= d < |calls'| && d != c ensures OwnChannels(calls'[d], d, channels) && OwnChannels(calls'[d], d, more) {
      assert OwnChannels(calls[d], d, channels);
    }
    if c < |calls| { assert OwnChannels(calls[c], c, channels); }
  }

  lemma DoKeeps(s: State, k: Key)
    requires Inv(s)
    ensures Enabled(s, Do(k)) && Inv(Step(s, Do(k)))
  {
    hide CallsInv, ThreadsInv, ChannelsInv;
    var s' := Step(s, Do(k));
    if k in s.m {
      assert s.calls[s.m[k]].chans + [] == s.calls[s.m[k]].chans;
      JoinKeeps(s.m, s.calls, s.threads, s.channels, s.forgotten, s.m[k], s'.calls, []);
      WaiterKeeps(s'.calls, s.threads, s.m[k]);
      ChannelsKept(s.calls, s'.calls, s.channels, s.m[k]);
    } else {
      NewKeeps(s.m, s.calls, s.threads, s.forgotten, k, []);
      ChannelsKept(s.calls, s'.calls, s.channels, |s.calls|);
    }
  }

  lemma DoChanKeeps(s: State, k: Key)
    requires Inv(s)
    ensures Enabled(s, DoChan(k)) && Inv(Step(s, DoChan(k)))
  {
    hide CallsInv, ThreadsInv, ChannelsInv;
    var s' := Step(s, DoChan(k));
    if k in s.m {
      JoinKeeps(s.m, s.calls, s.threads, s.channels, s.forgotten, s.m[k], s'.calls, [|s.channels|]);
      ChannelsKept(s.calls, s'.calls, s.channels, s.m[k]);
    } else {
      NewKeeps(s.m, s.calls, s.threads, s.forgotten, k, [|s.channels|]);
      ChannelsKept(s.calls, s'.calls, s.channels, |s.calls|);
    }
  }

  lemma ReturnKeeps(s: State, t: nat, res: Res)
    requires Inv(s) && Enabled(s, Return(t, res))
    ensures Inv(Step(s, Return(t, res)))
  {
    hide ChannelsInv;
    var c, s' := s.threads[t].c, Step(s, Return(t, res));
    assert ThreadOk(s.threads[t], t, s.calls);
    ChannelsKept(s.calls, s'.calls, s.channels, c);
    assert CallsInv(s'.calls, s'.threads) by { hide RegistryInv; }
    assert ThreadsInv(s'.calls, s'.threads) by { hide RegistryInv, CallsInv; }
    hide ThreadsInv, CallsInv;
  }

  lemma FinishChannels(calls: seq<Call>, calls': seq<Call>, channels: seq<Channel>, c: nat, res: Res)
    requires ChannelsInv(calls, channels) && c < |calls| && !calls[c].done && calls[c].res == Some(res)
    requires calls' == calls[c := calls[c].(done := true)]
    ensures ChannelsInv(calls', SendAll(channels, calls[c].chans, Message(res, calls[c].dups > 0)))
  {
    var sent := SendAll(channels, calls[c].chans, Message(res, calls[c].dups > 0));
    forall i | 0 <= i < |channels| ensures ChannelOk(sent[i], i, calls') {
      assert ChannelOk(channels[i], i, calls) && OwnChannels(calls[c], c, channels);
      FinishChannel(calls, calls', channels, c, res, i);
    }
    hide SendAll, ChannelOk;
    forall d | 0 <= d < |calls| ensures OwnChannels(calls'[d], d, sent) {
      assert OwnChannels(calls[d], d, channels);
      SentSame(channels, calls[c].chans, Message(res, calls[c].dups > 0));
    }
  }

  lemma SentSame(channels: seq<Channel>, to: seq<nat>, msg: Message)
    ensures var sent := SendAll(channels, to, msg);
      |sent| == |channels| && forall i :: 0 <= i < |channels| ==> sent[i].c == channels[i].c
  {
  }

  lemma FinishChannel(calls: seq<Call>, calls': seq<Call>, channels: seq<Channel>, c: nat, res: Res, i: nat)
    requires i < |channels| && ChannelOk(channels[i], i, calls) && c < |calls| && OwnChannels(calls[c], c, channels)
    requires !calls[c].done && calls[c].res == Some(res) && calls' == calls[c := calls[c].(done := true)]
    ensures ChannelOk(SendAll(channels, calls[c].chans, Message(res, calls[c].dups > 0))[i], i, calls')
  {
    assert i in calls[c].chans <==> channels[i].c == c;
  }

  lemma FinishKeeps(s: State, t: nat)
    requires Inv(s) && Enabled(s, Finish(t))
    ensures Inv(Step(s, Finish(t)))
  {
    hide ChannelsInv, SendAll;
    var c, s' := s.threads[t].c, Step(s, Finish(t));
    assert ThreadOk(s.threads[t], t, s.calls);
    FinishChannels(s.calls, s'.calls, s.channels, c, s.calls[c].res.value);
    assert RegistryInv(s'.m, s'.calls, s'.forgotten) by { hide CallsInv, ThreadsInv; }
    assert CallsInv(s'.calls, s'.threads) by { hide RegistryInv; }
    assert ThreadsInv(s'.calls, s'.threads) by { hide RegistryInv, CallsInv; }
    hide RegistryInv, ThreadsInv, CallsInv;
  }

  lemma EndKeeps(s: State, l: Label)
    requires Inv(s) && Enabled(s, l) && (l.Leave? || l.Wake? || l.Forget?)
    ensures Inv(Step(s, l))
  {
  }

  lemma StepKeepsInv(s: State, l: Label)
    requires Inv(s) && Enabled(s, l)
    ensures Inv(Step(s, l))
  {
    hide Inv, Step, Enabled;
    match l
    case Do(k) => DoKeeps(s, k);
    case DoChan(k) => DoChanKeeps(s, k);
    case Return(t, res) => ReturnKeeps(s, t, res);
    case Finish(t) => FinishKeeps(s, t);
    case _ => EndKeeps(s, l);
  }

  // ---------------------------------------------------------------- every interleaving

  ghost predicate IsRun(run: seq<State>, labels: seq<Label>) {
    && |run| == |labels| + 1 && run[0] == Start()
    && forall i :: 0 <= i < |labels| ==> IsStep(run[i], labels[i], run[i + 1])
  }

  ghost predicate IsStep(s: State, l: Label, s': State) {
    Enabled(s, l) && s' == Step(s, l)
  }

  lemma {:induction false} InvAlways(run: seq<State>, labels: seq<Label>, i: nat)
    requires IsRun(run, labels) && i < |run|
    ensures Inv(run[i])
  {
    hide Inv, Step, Enabled;
    if i == 0 {
      StartOk();
    } else {
      InvAlways(run, labels, i - 1);
      assert IsStep(run[i - 1], labels[i - 1], run[i]);
      StepKeepsInv(run[i - 1], labels[i - 1]);
    }
  }

  /** The registered call of a key is a running one; and unless the key was forgotten, the
      function runs at most once at a time for it. */
  lemma OneRunPerKey(run: seq<State>, labels: seq<Label>, i: nat, k: Key)
    requires IsRun(run, labels) && i < |run|
    ensures var s := run[i];
      && (k in s.m ==> s.m[k] < |s.calls| && s.calls[s.m[k]].key == k && !s.calls[s.m[k]].done)
      && (k !in s.forgotten ==> forall c, d :: 0 <= c < |s.calls| && 0 <= d < |s.calls| ==>
            (s.calls[c].key == k == s.calls[d].key && !s.calls[c].done && !s.calls[d].done ==> c == d))
  {
    InvAlways(run, labels, i);
  }

  /** Two threads in the function work on different calls. */
  lemma OneThreadPerRun(run: seq<State>, labels: seq<Label>, i: nat, t: nat, u: nat)
    requires IsRun(run, labels) && i < |run| && t < |run[i].threads| && u < |run[i].threads|
    requires run[i].threads[t].Running? && run[i].threads[u].Running? && run[i].threads[t].c == run[i].threads[u].c
    ensures t == u
  {
    InvAlways(run, labels, i);
    assert ThreadOk(run[i].threads[t], t, run[i].calls) && ThreadOk(run[i].threads[u], u, run[i].calls);
  }

  /** A finishing call removes its own registration and no other. */
  lemma FinishRemovesItsOwn(run: seq<State>, labels: seq<Label>, i: nat)
    requires IsRun(run, labels) && i < |labels| && labels[i].Finish?
    ensures var s, s' := run[i], run[i + 1];
      var c := s.threads[labels[i].t].c;
      && (forall k :: k in s.m && s.m[k] != c ==> k in s'.m && s'.m[k] == s.m[k])
      && (forall k :: k in s'.m ==> k in s.m && s'.m[k] == s.m[k] && s'.m[k] != c)
  {
    InvAlways(run, labels, i);
    InvAlways(run, labels, i + 1);
    assert IsStep(run[i], labels[i], run[i + 1]);
  }

  // ---------------------------------------------------------------- who joined which run

  /** The run a caller of `k` joins, or starts. */
  function Joined(s: State, k: Key): nat {
    if k in s.m then s.m[k] else |s.calls|
  }

  /** Threads and channels stay with their run, and a run with its key; a result once there stays. */
  ghost predicate Follows(s: State, s': State) {
    && |s.threads| <= |s'.threads| && |s.channels| <= |s'.channels| && |s.calls| <= |s'.calls|
    && (forall t :: 0 <= t < |s.threads| ==> s'.threads[t].c == s.threads[t].c)
    && (forall i :: 0 <= i < |s.channels| ==> s'.channels[i].c == s.channels[i].c)
    && (forall c :: 0 <= c < |s.calls| ==> CallFollows(s.calls[c], s'.calls[c]))
  }

  predicate CallFollows(x: Call, x': Call) {
    x'.key == x.key && (x.res.Some? ==> x'.res == x.res) && (x.done ==> x'.done)
  }

  lemma ReturnFollows(s: State, t: nat, res: Res)
    requires Inv(s) && Enabled(s, Return(t, res))
    ensures Follows(s, Step(s, Return(t, res)))
  {
    hide RegistryInv, ChannelsInv, CallsInv;
    assert ThreadOk(s.threads[t], t, s.calls);
  }

  lemma StepFollows(s: State, l: Label)
    requires Inv(s) && Enabled(s, l)
    ensures Follows(s, Step(s, l))
  {
    hide Inv;
    if l.Return? { ReturnFollows(s, l.t, l.res); }
  }

  lemma {:induction false} RunFollows(run: seq<State>, labels: seq<Label>, i: nat, j: nat)
    requires IsRun(run, labels) && i <= j < |run|
    ensures Follows(run[i], run[j])
  {
    hide Inv, Step, Enabled;
    if i < j {
      RunFollows(run, labels, i, j - 1);
      InvAlways(run, labels, j - 1);
      assert IsStep(run[j - 1], labels[j - 1], run[j]);
      StepFollows(run[j - 1], labels[j - 1]);
    }
  }

  /** A call of Do, at step `i`, joins the run registered for its key or starts one. It stays with
      that run, which is for its key and was not over, and what it returns in the end is that
      run's result, told as shared exactly when there was another caller. */
  lemma CallersGetTheirRun(run: seq<State>, labels: seq<Label>, i: nat, j: nat)
    requires IsRun(run, labels) && i < j < |run| && labels[i].Do?
    ensures var k, t, c := labels[i].key, |run[i].threads|, Joined(run[i], labels[i].key);
      && c < |run[i + 1].calls| && !run[i + 1].calls[c].done
      && t < |run[j].threads| && run[j].threads[t].c == c
      && c < |run[j].calls| && run[j].calls[c].key == k
      && (run[j].threads[t].Returned? ==>
            && run[j].calls[c].done && run[j].calls[c].res == Some(run[j].threads[t].msg.res)
            && (run[j].threads[t].msg.shared <==> run[j].calls[c].dups > 0))
  {
    hide ChannelsInv, CallsInv;
    InvAlways(run, labels, i);
    assert IsStep(run[i], labels[i], run[i + 1]);
    RunFollows(run, labels, i + 1, j);
    if run[j].threads[|run[i].threads|].Returned? { ReturnedHasResult(run, labels, j, |run[i].threads|); }
  }

  /** A channel made by DoChan, at step `i`, belongs to the run registered for its key or to a new
      one, for ever; it gets exactly one message, that run's result, when the run is over. */
  lemma ChannelsGetTheirRun(run: seq<State>, labels: seq<Label>, i: nat, j: nat)
    requires IsRun(run, labels) && i < j < |run| && labels[i].DoChan?
    ensures var k, ch, c := labels[i].key, |run[i].channels|, Joined(run[i], labels[i].key);
      && c < |run[i + 1].calls| && !run[i + 1].calls[c].done
      && ch < |run[j].channels| && run[j].channels[ch].c == c
      && c < |run[j].calls| && run[j].calls[c].key == k
      && (if run[j].calls[c].done
          then run[j].calls[c].res.Some?
               && run[j].channels[ch].sent == [Message(run[j].calls[c].res.value, run[j].calls[c].dups > 0)]
          else run[j].channels[ch].sent == [])
  {
    hide ThreadsInv, CallsInv;
    InvAlways(run, labels, i);
    assert IsStep(run[i], labels[i], run[i + 1]);
    RunFollows(run, labels, i + 1, j);
    ChannelHasResult(run, labels, j, |run[i].channels|);
  }

  /** The result a run ends with is what its function returned. */
  lemma ResultIsReturned(run: seq<State>, labels: seq<Label>, i: nat, j: nat)
    requires IsRun(run, labels) && i < j < |run| && labels[i].Return?
    ensures var t := labels[i].t;
      && t < |run[i].threads| && run[i].threads[t].Running?
      && run[i].threads[t].c < |run[j].calls| && run[j].calls[run[i].threads[t].c].res == Some(labels[i].res)
  {
    hide Inv;
    InvAlways(run, labels, i);
    assert IsStep(run[i], labels[i], run[i + 1]);
    RunFollows(run, labels, i + 1, j);
  }

  /** What a caller has returned is its run's result. */
  lemma ReturnedHasResult(run: seq<State>, labels: seq<Label>, i: nat, t: nat)
    requires IsRun(run, labels) && i < |run| && t < |run[i].threads| && run[i].threads[t].Returned?
    ensures var x := run[i].threads[t];
      && x.c < |run[i].calls| && run[i].calls[x.c].done && run[i].calls[x.c].res == Some(x.msg.res)
      && (x.msg.shared <==> run[i].calls[x.c].dups > 0)
  {
    InvAlways(run, labels, i);
    assert ThreadOk(run[i].threads[t], t, run[i].calls);
  }

  /** What a channel has got is its run's result. */
  lemma ChannelHasResult(run: seq<State>, labels: seq<Label>, i: nat, ch: nat)
    requires IsRun(run, labels) && i < |run| && ch < |run[i].channels|
    ensures var x := run[i].channels[ch];
      && x.c < |run[i].calls|
      && (if run[i].calls[x.c].done
          then run[i].calls[x.c].res.Some? && x.sent == [Message(run[i].calls[x.c].res.value, run[i].calls[x.c].dups > 0)]
          else x.sent == [])
  {
    InvAlways(run, labels, i);
    assert ChannelOk(run[i].channels[ch], ch, run[i].calls);
  }

  /** Nobody waits for a run that nobody is in: its owner can return, then finish, and then the
      waiting caller can wake up. */
  lemma WaitersAreServed(run: seq<State>, labels: seq<Label>, i: nat, t: nat, res: Res)
    requires IsRun(run, labels) && i < |run| && t < |run[i].threads| && run[i].threads[t].Waiting?
    ensures var s := run[i];
      && s.threads[t].c < |s.calls|
      && var o := s.calls[s.threads[t].c].owner;
         Enabled(s, Wake(t)) || Enabled(s, Return(o, res)) || Enabled(s, Finish(o))
  {
    InvAlways(run, labels, i);
    assert ThreadOk(run[i].threads[t], t, run[i].calls);
  }

  // ---------------------------------------------------------------- every call comes to an end

  /** The steps a caller or a goroutine still has to take. */
  function Rank(x: Thread): nat {
    match x
    case Running(_) => 3
    case Finishing(_) => 2
    case Leaving(_) => 1
    case Waiting(_) => 1
    case Returned(_, _) => 0
  }

  function Work(threads: seq<Thread>): nat {
    if threads == [] then 0 else Work(threads[..|threads| - 1]) + Rank(threads[|threads| - 1])
  }

  lemma {:induction false} WorkSet(threads: seq<Thread>, t: nat, x: Thread)
    requires t < |threads|
    ensures Work(threads[t := x]) == Work(threads) - Rank(threads[t]) + Rank(x)
  {
    var last := |threads| - 1;
    if t == last {
      assert threads[t := x][..last] == threads[..last];
    } else {
      assert threads[t := x][..last] == threads[..last][t := x];
      WorkSet(threads[..last], t, x);
    }
  }

  lemma WorkAdded(threads: seq<Thread>, x: Thread)
    ensures Work(threads + [x]) == Work(threads) + Rank(x)
  {
    assert (threads + [x])[..|threads|] == threads;
  }

  predicate Calls(l: Label) {
    l.Do? || l.DoChan?
  }

  predicate Goes(l: Label) {
    l.Return? || l.Finish? || l.Leave? || l.Wake?
  }

  lemma StepWork(s: State, l: Label)
    requires Enabled(s, l)
    ensures Work(Step(s, l).threads) <= Work(s.threads) + if Calls(l) then 3 else if Goes(l) then -1 else 0
  {
    hide Work;
    match l
    case Do(k) => WorkAdded(s.threads, if k in s.m then Waiting(s.m[k]) else Running(|s.calls|));
    case DoChan(k) => if k !in s.m { WorkAdded(s.threads, Running(|s.calls|)); }
    case Forget(_) =>
    case _ => WorkSet(s.threads, l.t, Step(s, l).threads[l.t]);
  }

  /** How many of the labels are of a kind. */
  function Steps(labels: seq<Label>, kind: Label -> bool): nat {
    if labels == [] then 0 else Steps(labels[..|labels| - 1], kind) + if kind(labels[|labels| - 1]) then 1 else 0
  }

  /** A call takes at most three steps after the one that made it, whatever the others do. */
  lemma {:induction false} StepsAreBounded(run: seq<State>, labels: seq<Label>, i: nat)
    requires IsRun(run, labels) && i < |run|
    ensures Work(run[i].threads) + Steps(labels[..i], l => Goes(l)) <= 3 * Steps(labels[..i], l => Calls(l))
  {
    hide Step, Enabled, Work, Goes, Calls;
    if i > 0 {
      StepsAreBounded(run, labels, i - 1);
      assert IsStep(run[i - 1], labels[i - 1], run[i]);
      StepWork(run[i - 1], labels[i - 1]);
      KindsApart(labels[i - 1]);
      assert labels[..i][..i - 1] == labels[..i - 1];
    } else {
      NoWork();
    }
  }

  lemma NoWork()
    ensures Work([]) == 0
  {
  }

  lemma KindsApart(l: Label)
    ensures !(Calls(l) && Goes(l))
  {
  }

  /** And until it has returned, it or the owner of its run can take one. */
  lemma CallsGoOn(run: seq<State>, labels: seq<Label>, i: nat, t: nat, res: Res) returns (l: Label)
    requires IsRun(run, labels) && i < |run| && t < |run[i].threads| && !run[i].threads[t].Returned?
    ensures Goes(l) && Enabled(run[i], l)
  {
    hide RegistryInv, ChannelsInv;
    InvAlways(run, labels, i);
    var s := run[i];
    var x := s.threads[t];
    assert ThreadOk(x, t, s.calls);
    match x
    case Running(_) => l := Return(t, res);
    case Finishing(_) => l := Finish(t);
    case Leaving(_) => l := Leave(t);
    case Waiting(c) =>
      var o := s.calls[c].owner;
      l := if s.calls[c].done then Wake(t) else if s.threads[o].Running? then Return(o, res) else Finish(o);
  }
}
