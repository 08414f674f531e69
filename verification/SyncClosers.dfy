/** The counted closers of pkg/utils/io.go as a machine: fewer than 2^31 goroutines acquire a
    reference and give it back, again and again, with one step per atomic operation on the
    32-bit counter. */
module SyncClosers {
  const MIN_INT32 := -0x8000_0000
  const MAX_INT32 := 0x7fff_ffff

  /** atomic.AddInt32 wraps around. */
  function AddInt32(ref: int): int {
    if ref == MAX_INT32 then MIN_INT32 else ref + 1
  }

  datatype Thread =
    | Out                // has no reference
    | Holding            // AcquireReference returned true
    | Failing            // the increment was not positive: about to store closersClosed
    | Refused            // AcquireReference returned false
    | Closing            // in Close, about to load
    | Loaded(ref: int)   // in Close, about to compare and swap
    | Winner             // swapped in closersClosed, about to run the closers
    | Done

  /** `runs` counts how often the closers ran; `used` tells that a reference was ever held. */
  datatype State = State(ref: int, threads: seq<Thread>, runs: nat, closed: bool, used: bool)

  datatype Label = Acquire(t: nat) | StoreClosed(t: nat) | CallClose(t: nat) | Load(t: nat) | Swap(t: nat) | RunClosers(t: nat)

  function Start(n: nat): State {
    State(0, seq(n, _ => Out), 0, false, false)
  }

  predicate Enabled(s: State, l: Label) {
    && l.t < |s.threads|
    && match l
       case Acquire(t) => s.threads[t].Out? || s.threads[t].Refused? || s.threads[t].Done?
       case StoreClosed(t) => s.threads[t].Failing?
       case CallClose(t) => s.threads[t].Holding?
       case Load(t) => s.threads[t].Closing?
       case Swap(t) => s.threads[t].Loaded?
       case RunClosers(t) => s.threads[t].Winner?
  }

  function Step(s: State, l: Label): State
    requires Enabled(s, l)
  {
    var t := l.t;
    match l
    case Acquire(_) =>
      var ref := AddInt32(s.ref);
      s.(ref := ref, threads := s.threads[t := if ref > 0 then Holding else Failing], used := s.used || ref > 0)
    case StoreClosed(_) => s.(ref := MIN_INT32, threads := s.threads[t := Refused])
    case CallClose(_) => s.(threads := s.threads[t := Closing])
    case Load(_) => s.(threads := s.threads[t := if s.ref < 0 then Done else Loaded(s.ref)])
    case Swap(_) =>
      var ref := s.threads[t].ref;
      if s.ref != ref then s.(threads := s.threads[t := Closing])
      else if ref > 1 then s.(ref := ref - 1, threads := s.threads[t := Done])
      else s.(ref := MIN_INT32, threads := s.threads[t := Winner], closed := true)
    case RunClosers(_) => s.(threads := s.threads[t := Done], runs := s.runs + 1)
  }

  // ---------------------------------------------------------------- counting

  /** A thread that still has its reference. */
  predicate Holds(x: Thread) {
    x.Holding? || x.Closing? || x.Loaded?
  }

  function Count(ts: seq<Thread>, p: Thread -> bool): nat {
    if ts == [] then 0 else Count(ts[..|ts| - 1], p) + if p(ts[|ts| - 1]) then 1 else 0
  }

  lemma {:induction false} CountUpdate(ts: seq<Thread>, t: nat, x: Thread, p: Thread -> bool)
    requires t < |ts|
    ensures Count(ts[t := x], p) == Count(ts, p) - (if p(ts[t]) then 1 else 0) + (if p(x) then 1 else 0)
  {
    var n := |ts| - 1;
    if t < n {
      assert ts[t := x][..n] == ts[..n][t := x];
      CountUpdate(ts[..n], t, x, p);
    } else {
      assert ts[t := x][..n] == ts[..n];
    }
  }

  lemma {:induction false} CountBounds(ts: seq<Thread>, p: Thread -> bool)
    ensures Count(ts, p) <= |ts|
    ensures (exists i :: 0 <= i < |ts| && p(ts[i])) <==> Count(ts, p) > 0
  {
    if ts != [] {
      var n := |ts| - 1;
      CountBounds(ts[..n], p);
      assert forall i :: 0 <= i < n ==> ts[..n][i] == ts[i];
    }
  }

  lemma {:induction false} CountOthers(ts: seq<Thread>, t: nat, p: Thread -> bool)
    requires t < |ts| && !p(ts[t])
    ensures Count(ts, p) < |ts|
  {
    var n := |ts| - 1;
    CountBounds(ts[..n], p);
    if t < n { CountOthers(ts[..n], t, p); }
  }

  function Held(s: State): nat {
    Count(s.threads, x => Holds(x))
  }

  function Pending(s: State): nat {
    Count(s.threads, (x: Thread) => x.Failing?)
  }

  function Winners(s: State): nat {
    Count(s.threads, (x: Thread) => x.Winner?)
  }

  // ---------------------------------------------------------------- the invariant

  /** While open the counter is the number of references held. Once closed it is at most as far
      above its minimum as there are callers about to store it again. */
  ghost predicate Inv(s: State) {
    && |s.threads| <= MAX_INT32
    && (!s.closed ==> s.ref == Held(s) && Pending(s) == 0 && Winners(s) == 0 && s.runs == 0 && (s.used ==> s.ref > 0))
    && (s.closed ==> Held(s) == 0 && MIN_INT32 <= s.ref <= MIN_INT32 + Pending(s) && Winners(s) + s.runs == 1)
    && (forall t :: 0 <= t < |s.threads| && s.threads[t].Loaded? ==> s.threads[t].ref > 0)
  }

  lemma {:induction false} CountNone(n: nat, p: Thread -> bool)
    requires !p(Out)
    ensures Count(seq(n, _ => Out), p) == 0
  {
    if n > 0 {
      assert seq<Thread>(n, _ => Out)[..n - 1] == seq<Thread>(n - 1, _ => Out);
      CountNone(n - 1, p);
    }
  }

  lemma StartOk(n: nat)
    requires n <= MAX_INT32
    ensures Inv(Start(n))
  {
    CountNone(n, x => Holds(x));
    CountNone(n, (x: Thread) => x.Failing?);
    CountNone(n, (x: Thread) => x.Winner?);
  }

  lemma StepKeepsInv(s: State, l: Label)
    requires Inv(s) && Enabled(s, l)
    ensures Inv(Step(s, l))
  {
    hide Count;
    var t, s' := l.t, Step(s, l);
    var x := s'.threads[t];
    CountUpdate(s.threads, t, x, y => Holds(y));
    CountUpdate(s.threads, t, x, (y: Thread) => y.Failing?);
    CountUpdate(s.threads, t, x, (y: Thread) => y.Winner?);
    CountBounds(s.threads, y => Holds(y));
    CountBounds(s.threads, (y: Thread) => y.Failing?);
    if l.Acquire? {
      CountOthers(s.threads, t, y => Holds(y));
      CountOthers(s.threads, t, (y: Thread) => y.Failing?);
    }
  }

  // ---------------------------------------------------------------- every interleaving

  ghost predicate IsRun(n: nat, run: seq<State>, labels: seq<Label>) {
    && n <= MAX_INT32 && |run| == |labels| + 1 && run[0] == Start(n)
    && forall i :: 0 <= i < |labels| ==> IsStep(run[i], labels[i], run[i + 1])
  }

  ghost predicate IsStep(s: State, l: Label, s': State) {
    Enabled(s, l) && s' == Step(s, l)
  }

  lemma {:induction false} InvAlways(n: nat, run: seq<State>, labels: seq<Label>, i: nat)
    requires IsRun(n, run, labels) && i < |run|
    ensures Inv(run[i])
  {
    if i == 0 {
      StartOk(n);
    } else {
      InvAlways(n, run, labels, i - 1);
      assert IsStep(run[i - 1], labels[i - 1], run[i]);
      StepKeepsInv(run[i - 1], labels[i - 1]);
    }
  }

  /** The closers run at most once, and not while a reference is held; once every reference is
      given back and nobody is about to run them, they have run exactly once. */
  lemma ClosersRunOnce(n: nat, run: seq<State>, labels: seq<Label>, i: nat)
    requires IsRun(n, run, labels) && i < |run|
    ensures run[i].runs <= 1
    ensures run[i].runs == 1 || (exists t :: 0 <= t < |run[i].threads| && run[i].threads[t].Winner?) ==>
      forall t :: 0 <= t < |run[i].threads| ==> !Holds(run[i].threads[t])
    ensures run[i].used && (forall t :: 0 <= t < |run[i].threads| ==> !Holds(run[i].threads[t]) && !run[i].threads[t].Winner?) ==>
      run[i].runs == 1
  {
    InvAlways(n, run, labels, i);
    CountBounds(run[i].threads, x => Holds(x));
    CountBounds(run[i].threads, (x: Thread) => x.Winner?);
  }

  /** Before the closers are given over, every acquirer gets a reference; afterwards none does. */
  lemma AcquireAnswers(n: nat, run: seq<State>, labels: seq<Label>, i: nat)
    requires IsRun(n, run, labels) && i < |labels| && labels[i].Acquire?
    ensures var x := run[i + 1].threads[labels[i].t]; if run[i].closed then x.Failing? else x.Holding?
  {
    InvAlways(n, run, labels, i);
    InvAlways(n, run, labels, i + 1);
    assert IsStep(run[i], labels[i], run[i + 1]);
    CountOthers(run[i].threads, labels[i].t, x => Holds(x));
    CountOthers(run[i].threads, labels[i].t, (x: Thread) => x.Failing?);
  }

  /** Expired. */
  predicate Expired(s: State) {
    s.ref < 0
  }

  /** The counter's sign tells at every moment whether the closers have been given over. */
  lemma ExpiredIsClosed(n: nat, run: seq<State>, labels: seq<Label>, i: nat)
    requires IsRun(n, run, labels) && i < |run|
    ensures Expired(run[i]) <==> run[i].closed
  {
    InvAlways(n, run, labels, i);
    CountBounds(run[i].threads, (x: Thread) => x.Failing?);
  }

  lemma {:induction false} ClosedForEver(n: nat, run: seq<State>, labels: seq<Label>, i: nat, j: nat)
    requires IsRun(n, run, labels) && i <= j < |run| && run[i].closed
    ensures run[j].closed
  {
    if i < j {
      ClosedForEver(n, run, labels, i, j - 1);
      assert IsStep(run[j - 1], labels[j - 1], run[j]);
    }
  }

  /** Whoever holds a reference can give it back: Close never finds the counter negative, and a
      failed swap only means to look again. */
  lemma HoldersAreNotDropped(n: nat, run: seq<State>, labels: seq<Label>, i: nat)
    requires IsRun(n, run, labels) && i < |labels| && labels[i].Load?
    ensures run[i + 1].threads[labels[i].t] == Loaded(run[i].ref) && run[i].ref > 0
  {
    InvAlways(n, run, labels, i);
    assert IsStep(run[i], labels[i], run[i + 1]);
    CountBounds(run[i].threads, x => Holds(x));
  }

  // ---------------------------------------------------------------- every call comes to an end

  /** The steps a call may still take by itself; a swap that has been overtaken starts over. */
  function Work(s: State, x: Thread): nat {
    match x
    case Failing => 1
    case Closing => 3
    case Loaded(ref) => if ref == s.ref then 2 else 4
    case Winner => 1
    case _ => 0
  }

  /** In the steps from `i` to `j` only thread `t` goes on, with a call it has begun. */
  ghost predicate Alone(labels: seq<Label>, i: nat, j: nat, t: nat) {
    j <= |labels| && forall k :: i <= k < j ==> labels[k].t == t && !labels[k].Acquire? && !labels[k].CallClose?
  }

  lemma OwnStepUsesWork(s: State, l: Label)
    requires Enabled(s, l) && !l.Acquire? && !l.CallClose?
    ensures Work(Step(s, l), Step(s, l).threads[l.t]) < Work(s, s.threads[l.t])
  {
  }

  /** Left alone, an acquirer that was refused and a holder that closes need at most four steps,
      and in any state such a call has a step to take. */
  lemma {:induction false} CallsFinishAlone(n: nat, run: seq<State>, labels: seq<Label>, i: nat, j: nat, t: nat)
    requires IsRun(n, run, labels) && i <= j < |run| && t < |run[i].threads| && Alone(labels, i, j, t)
    ensures t < |run[j].threads|
    ensures Work(run[j], run[j].threads[t]) + (j - i) <= Work(run[i], run[i].threads[t]) <= 4
    ensures Work(run[i], run[i].threads[t]) > 0 <==>
      exists l: Label :: l.t == t && !l.Acquire? && !l.CallClose? && Enabled(run[i], l)
    decreases j - i
  {
    var x := run[i].threads[t];
    var l := if x.Failing? then StoreClosed(t) else if x.Closing? then Load(t) else if x.Loaded? then Swap(t) else RunClosers(t);
    assert Work(run[i], x) > 0 ==> l.t == t && !l.Acquire? && !l.CallClose? && Enabled(run[i], l);
    if i < j {
      assert IsStep(run[i], labels[i], run[i + 1]);
      OwnStepUsesWork(run[i], labels[i]);
      CallsFinishAlone(n, run, labels, i + 1, j, t);
    }
  }
}
