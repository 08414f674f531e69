/** Whole runs of the concurrent map: it behaves as one plain map. */
module ConcurrentMapTheorems {
  import opened Basics
  import opened ConcurrentMap
  import opened ConcurrentMapInvariant
  import opened ConcurrentMapSteps
  import opened ConcurrentMapActions

  /** The actions of the owner of the mutex on entries and on its way out. */
  lemma OwnerEntryActOk(s: Shared, hist: seq<map<Key, Value>>, t: Tid, th: Thread, c: Choice, gap: set<Key>, building: bool)
    requires Ready(s, hist, t, th, gap, building) && Enabled(s, th.op, th.pc, c) && HasLock(th.pc) && OnEntries(th.pc)
    ensures StepOk(s, hist, t, th, Act(s, t, th.op, th.pc, c), gap, building)
  {
    hide StepOk, SharedInv, Abs, EffectAt, Remembers, Evolves, WholeMap, Seen;
    match th.pc
    case ReleaseLoad(f) =>
      if f.Some? { ReleaseOk(s, hist, t, th, LoadEntry(f.value), gap, building); }
      else { ReleaseAbsentOk(s, hist, t, th, Finished(Loaded(None)), gap, building); }
    case Unexpunge(e) =>
      if Word(s, e).Expunged? { UnexpungeOk(s, hist, t, th, gap, building); }
      else { UnexpungedOk(s, hist, t, th, if th.op.Store? then StoreLocked(e) else TryLos(e, InRead), gap, building); }
    case StoreLocked(_) => StoreLockedOk(s, hist, t, th, c.addr, gap, building);
    case TryLos(e, mode) =>
      if Word(s, e).Box? { TryLosOk(s, hist, t, th, gap, building); }
      else { RetryLosOk(s, hist, t, th, CasLos(e, mode), gap, building); }
    case CasLos(e, mode) =>
      if Word(s, e).Nil? { LockedLosOk(s, hist, t, th, c.addr, gap, building); }
      else { RetryLosOk(s, hist, t, th, TryLos(e, mode), gap, building); }
    case Release(ret) => ReleaseOk(s, hist, t, th, Finished(ret), gap, building);
    case ReleaseDelete(f) =>
      if f.None? && th.eff.None? { ReleaseAbsentOk(s, hist, t, th, Finished(Deleted), gap, building); }
      else { ReleaseDeletedOk(s, hist, t, th, gap, building); }
    case ReleaseRange(m) => ReleaseOk(s, hist, t, th, Visit(m, m.Keys, map[]), gap, building);
  }

  predicate OnEntries(pc: Pc) {
    pc.ReleaseLoad? || pc.Unexpunge? || pc.StoreLocked? || pc.TryLos? || pc.CasLos? || pc.Release? || pc.ReleaseDelete? || pc.ReleaseRange?
  }

  /** The actions of the owner of the mutex. */
  lemma OwnerActOk(s: Shared, hist: seq<map<Key, Value>>, t: Tid, th: Thread, c: Choice, gap: set<Key>, building: bool)
    requires Ready(s, hist, t, th, gap, building) && Enabled(s, th.op, th.pc, c) && HasLock(th.pc)
    ensures StepOk(s, hist, t, th, Act(s, t, th.op, th.pc, c), gap, building)
  {
    hide StepOk, Abs, EffOk, Remembers, Evolves;
    if OnEntries(th.pc) {
      OwnerEntryActOk(s, hist, t, th, c, gap, building);
    } else {
      match th.pc
      case Locked =>
        if th.op.Range? { StartRangeOk(s, hist, t, th, gap, building); } else { LockedOk(s, hist, t, th, gap, building); }
      case Miss(_) => MissOk(s, hist, t, th, gap, building);
      case Link(e) => LinkOk(s, hist, t, th, if th.op.Store? then StoreLocked(e) else TryLos(e, InRead), gap, building);
      case DirtyInit => DirtyInitOk(s, hist, t, th, gap, building);
      case DirtyNext(_) => DirtyNextOk(s, hist, t, th, c.x, gap, building);
      case DirtyLoad(todo, x, e) =>
        DirtyCopyOk(s, hist, t, th, gap, building);
        if Word(s, e).Nil? { DirtyRetryOk(s, hist, t, th, DirtyCas(todo, x, e), gap, building); }
      case DirtyCas(todo, x, e) =>
        if Word(s, e).Nil? { DirtyCasOk(s, hist, t, th, gap, building); }
        else { DirtyRetryOk(s, hist, t, th, DirtyLoad(todo, x, e), gap, building); }
      case Amend => AmendOk(s, hist, t, th, gap, building);
      case Insert => InsertOk(s, hist, t, th, c.addr, gap, building);
      case MissLos(_) => MissLosOk(s, hist, t, th, gap, building);
      case DeleteDirty => DeleteDirtyOk(s, hist, t, th, gap, building);
      case Promote => PromoteOk(s, hist, t, th, gap, building);
    }
  }

  /** The actions of everyone else: the lock-free paths and the wait for the mutex. */
  lemma FreeActOk(s: Shared, hist: seq<map<Key, Value>>, t: Tid, th: Thread, c: Choice, gap: set<Key>, building: bool)
    requires Ready(s, hist, t, th, gap, building) && Enabled(s, th.op, th.pc, c) && !HasLock(th.pc)
    ensures StepOk(s, hist, t, th, Act(s, t, th.op, th.pc, c), gap, building)
  {
    match th.pc
    case Start =>
      if th.op.Range? { StartRangeOk(s, hist, t, th, gap, building); } else { StartOk(s, hist, t, th, gap, building); }
    case WantLock => AcquireOk(s, hist, t, th, gap, building);
    case LoadEntry(_) => LoadEntryOk(s, hist, t, th, gap, building);
    case TryStore(e) =>
      AttemptOk(s, hist, t, th, e, if Word(s, e).Expunged? then WantLock else CasStore(e, Word(s, e)), gap, building);
    case CasStore(e, p) =>
      if Word(s, e) == p { FastStoreOk(s, hist, t, th, c.addr, gap, building); }
      else { AttemptOk(s, hist, t, th, e, TryStore(e), gap, building); }
    case TryLos(e, mode) =>
      if Word(s, e).Box? { TryLosOk(s, hist, t, th, gap, building); }
      else { AttemptOk(s, hist, t, th, e, if Word(s, e).Nil? then CasLos(e, mode) else WantLock, gap, building); }
    case CasLos(e, mode) =>
      if Word(s, e).Nil? { FastLosOk(s, hist, t, th, c.addr, gap, building); }
      else { AttemptOk(s, hist, t, th, e, TryLos(e, mode), gap, building); }
    case TryDelete(e) =>
      if Word(s, e).Box? { AttemptOk(s, hist, t, th, e, CasDelete(e, Word(s, e)), gap, building); }
      else { TryDeleteOk(s, hist, t, th, gap, building); }
    case CasDelete(e, p) =>
      if Word(s, e) == p { CasDeleteOk(s, hist, t, th, gap, building); }
      else { AttemptOk(s, hist, t, th, e, TryDelete(e), gap, building); }
    case Visit(m, todo, acc) =>
      if todo == {} { VisitEndOk(s, hist, t, th, gap, building); }
      else {
        match ValueOf(Word(s, m[c.x]))
        case None => VisitAbsentOk(s, hist, t, th, c.x, gap, building);
        case Some(v) =>
          if c.stop { VisitStopOk(s, hist, t, th, c.x, v, gap, building); }
          else { VisitOk(s, hist, t, th, c.x, v, gap, building); }
      }
  }

  // ---------------------------------------------------------------- runs

  datatype Label = Invoke(t: Tid, op: Op) | Do(t: Tid, c: Choice) | Return(t: Tid)

  ghost predicate Init(st: State) {
    st == State(Shared([], Snap(map[], false), None, 0, None), map[], [map[]])
  }

  ghost predicate Next(st: State, l: Label, st': State) {
    match l
    case Invoke(t, op) =>
      && t !in st.threads && |st.hist| > 0
      && st' == st.(threads := st.threads[t := Thread(op, Start, |st.hist| - 1, None)])
    case Return(t) =>
      && t in st.threads && st.threads[t].pc.Finished?
      && st' == st.(threads := st.threads - {t})
    case Do(t, c) =>
      && t in st.threads && |st.hist| > 0
      && var th := st.threads[t];
      && Fits(th.op, th.pc) && Enabled(st.sh, th.op, th.pc, c)
      && var out := Act(st.sh, t, th.op, th.pc, c);
      && st' == State(out.sh, st.threads[t := After(st.hist, th, out)], st.hist + [Abs(out.sh)])
  }

  ghost predicate IsRun(run: seq<State>, labels: seq<Label>) {
    && |run| == |labels| + 1
    && Init(run[0])
    && forall i :: 0 <= i < |labels| ==> Next(run[i], labels[i], run[i + 1])
  }

  lemma DoOk(st: State, t: Tid, c: Choice, st': State)
    requires Inv(st) && Next(st, Do(t, c), st')
    ensures StepOk(st.sh, st.hist, t, st.threads[t], Act(st.sh, t, st.threads[t].op, st.threads[t].pc, c),
                   OwnerGap(st), OwnerBuilding(st))
  {
    var th := st.threads[t];
    assert Ready(st.sh, st.hist, t, th, OwnerGap(st), OwnerBuilding(st));
    if HasLock(th.pc) { OwnerActOk(st.sh, st.hist, t, th, c, OwnerGap(st), OwnerBuilding(st)); }
    else { FreeActOk(st.sh, st.hist, t, th, c, OwnerGap(st), OwnerBuilding(st)); }
  }

  lemma DoKeepsThreads(st: State, t: Tid, c: Choice, st': State)
    requires Inv(st) && Next(st, Do(t, c), st')
    ensures forall u :: u in st'.threads ==> ThreadInv(st'.sh, st'.hist, st'.threads[u])
  {
    hide Act, SharedInv, Evolves, AbsOk, Quiet, Abs, ThreadInv;
    DoOk(st, t, c, st');
    forall u | u in st.threads && u != t ensures ThreadInv(st'.sh, st'.hist, st.threads[u]) {
      OtherKept(st.sh, st'.sh, st.hist, Abs(st'.sh), st.threads[u]);
    }
  }

  lemma DoKeepsInv(st: State, t: Tid, c: Choice, st': State)
    requires Inv(st) && Next(st, Do(t, c), st')
    ensures Inv(st')
  {
    hide Act, SharedInv, Evolves, Abs, AbsOk, ThreadInv;
    DoKeepsThreads(st, t, c, st');
    DoOk(st, t, c, st');
  }

  lemma InvokeKeepsInv(st: State, t: Tid, op: Op, st': State)
    requires Inv(st) && Next(st, Invoke(t, op), st')
    ensures Inv(st')
  {
    hide SharedInv, ThreadInv, Abs;
    NewThread(st.sh, st.hist, op);
    forall u | u in st'.threads ensures ThreadInv(st'.sh, st'.hist, st'.threads[u]) {
      if u != t { assert st'.threads[u] == st.threads[u]; }
    }
  }

  lemma NewThread(s: Shared, hist: seq<map<Key, Value>>, op: Op)
    requires |hist| > 0
    ensures ThreadInv(s, hist, Thread(op, Start, |hist| - 1, None))
  {
  }

  lemma ReturnKeepsInv(st: State, t: Tid, st': State)
    requires Inv(st) && Next(st, Return(t), st')
    ensures Inv(st')
  {
    hide SharedInv, ThreadInv, Abs;
    forall u | u in st'.threads ensures ThreadInv(st'.sh, st'.hist, st'.threads[u]) {
      assert st'.threads[u] == st.threads[u];
    }
  }

  lemma StepKeepsInv(st: State, l: Label, st': State)
    requires Inv(st) && Next(st, l, st')
    ensures Inv(st')
  {
    hide Inv, Next;
    match l
    case Do(t, c) => DoKeepsInv(st, t, c, st');
    case Invoke(t, op) => InvokeKeepsInv(st, t, op, st');
    case Return(t) => ReturnKeepsInv(st, t, st');
  }

  lemma {:induction false} InvAlways(run: seq<State>, labels: seq<Label>, i: nat)
    requires IsRun(run, labels) && i < |run|
    ensures Inv(run[i])
  {
    if i == 0 {
      assert Abs(run[0].sh) == map[];
    } else {
      InvAlways(run, labels, i - 1);
      StepKeepsInv(run[i - 1], labels[i - 1], run[i]);
    }
  }

  // ---------------------------------------------------------------- theorems

  /** A finished call's answer is the plain map's answer at a moment between its
      invocation and its return; a call that changes the map does so in one step inside
      that interval, and that step is exactly its operation. */
  lemma ResultsAreAtomic(run: seq<State>, labels: seq<Label>, i: nat, t: Tid)
    requires IsRun(run, labels) && i < |run| && t in run[i].threads && run[i].threads[t].pc.Finished?
    ensures var th := run[i].threads[t];
      && ResultOk(run[i].hist, th, th.pc.ret)
      && (th.eff.Some? ==> EffectAt(run[i].hist, th.start, th.op, th.eff.value))
  {
    hide SharedInv, Abs, EffectAt, ResultOk;
    InvAlways(run, labels, i);
  }

  /** A step leaves the plain map alone, or is the one effect of the acting thread's call. */
  lemma StepsAreOperations(run: seq<State>, labels: seq<Label>, i: nat)
    requires IsRun(run, labels) && i < |labels|
    ensures |run[i].hist| > 0
    ensures var h, h', l := run[i].hist, run[i + 1].hist, labels[i];
      if l.Do? then
        var th, th' := run[i].threads[l.t], run[i + 1].threads[l.t];
        && h' == h + [Abs(run[i + 1].sh)]
        && th'.op == th.op && th'.start == th.start
        && (|| (th'.eff == th.eff && Abs(run[i + 1].sh) == Abs(run[i].sh))
            || (th.eff.None? && th'.eff == Some(|h| - 1) && Abs(run[i + 1].sh) == Effect(th.op, Abs(run[i].sh))))
      else h' == h && run[i + 1].sh == run[i].sh
  {
    InvAlways(run, labels, i);
    match labels[i]
    case Do(t, c) => DoOk(run[i], t, c, run[i + 1]);
    case _ =>
  }

  // ---------------------------------------------------------------- Range and its callback

  /** The pairs a Range has shown to its callback. */
  function Shown(pc: Pc): map<Key, Value> {
    match pc
    case Visit(_, _, acc) => acc
    case Finished(Ranged(acc, _)) => acc
    case _ => map[]
  }

  /** What was shown grows from `a` to `a'` by the pair that the map holds for `x`. */
  ghost predicate Shows(st: State, a: map<Key, Value>, a': map<Key, Value>, x: Key) {
    x !in a && x in a' && a' == a[x := a'[x]] && Get(Abs(st.sh), x) == Some(a'[x])
  }

  lemma RangeAct(s: Shared, t: Tid, op: Op, pc: Pc, c: Choice)
    requires op.Range? && Fits(op, pc) && Enabled(s, op, pc, c)
    ensures var pc' := Act(s, t, op, pc, c).pc;
      if pc.Visit? && pc.todo != {} && Word(s, pc.m[c.x]).Box?
      then Shown(pc') == pc.acc[c.x := Word(s, pc.m[c.x]).value] && (pc' == Finished(Ranged(Shown(pc'), false)) <==> c.stop)
      else Shown(pc') == Shown(pc) && pc' != Finished(Ranged(Shown(pc'), false))
  {
  }

  lemma VisitShows(s: Shared, hist: seq<map<Key, Value>>, t: Tid, th: Thread, x: Key, gap: set<Key>, building: bool)
    requires Ready(s, hist, t, th, gap, building) && th.pc.Visit? && x in th.pc.todo && Word(s, th.pc.m[x]).Box?
    ensures x !in th.pc.acc && Get(Abs(s), x) == ValueOf(Word(s, th.pc.m[x]))
  {
    hide Abs, Seen;
    LookInAbs(s, x);
    assert HeldSnap(s, hist, th.start, x, th.pc.m[x]);
  }

  /** A step of Range shows nothing, or one pair, which the map holds at that moment and which
      was not shown before. It ends the call early exactly when the callback it has just called
      asks to stop. */
  lemma RangeStep(run: seq<State>, labels: seq<Label>, i: nat)
    requires IsRun(run, labels) && i < |labels| && labels[i].Do?
    requires labels[i].t in run[i].threads && run[i].threads[labels[i].t].op.Range?
    ensures labels[i].t in run[i + 1].threads
    ensures var c, pc, pc' := labels[i].c, run[i].threads[labels[i].t].pc, run[i + 1].threads[labels[i].t].pc;
      && (Shown(pc') == Shown(pc) || Shows(run[i], Shown(pc), Shown(pc'), c.x))
      && (pc' == Finished(Ranged(Shown(pc'), false)) <==> Shown(pc') != Shown(pc) && c.stop)
  {
    hide Abs, SharedInv, Act, Remembers;
    InvAlways(run, labels, i);
    assert Next(run[i], labels[i], run[i + 1]);
    var t, c := labels[i].t, labels[i].c;
    var th := run[i].threads[t];
    RangeAct(run[i].sh, t, th.op, th.pc, c);
    if th.pc.Visit? && th.pc.todo != {} && Word(run[i].sh, th.pc.m[c.x]).Box? {
      VisitShows(run[i].sh, run[i].hist, t, th, c.x, OwnerGap(run[i]), OwnerBuilding(run[i]));
    }
  }

  /** In step `j` the callback of thread t's Range, called with a new pair of `acc`, asked to stop. */
  ghost predicate StoppedAt(run: seq<State>, labels: seq<Label>, j: nat, t: Tid, start: nat, acc: map<Key, Value>) {
    && j < |labels| && j < |run| && ActsFor(run[j], labels[j], t, start) && labels[j].c.stop
    && run[j].threads[t].op.Range?
    && Shows(run[j], Shown(run[j].threads[t].pc), acc, labels[j].c.x)
  }

  /** A Range that ends early does so because its callback asked for it, in the very step that
      showed the callback its last pair. */
  lemma {:induction false} RangeEndsEarlyOnlyWhenAsked(run: seq<State>, labels: seq<Label>, i: nat, t: Tid) returns (j: nat)
    requires IsRun(run, labels) && i < |run| && t in run[i].threads && run[i].threads[t].op.Range?
    requires run[i].threads[t].pc == Finished(Ranged(Shown(run[i].threads[t].pc), false))
    ensures j < i && StoppedAt(run, labels, j, t, run[i].threads[t].start, Shown(run[i].threads[t].pc))
  {
    hide Shows, Abs, Act;
    assert Next(run[i - 1], labels[i - 1], run[i]);
    if labels[i - 1].Do? && labels[i - 1].t == t {
      RangeStep(run, labels, i - 1);
      j := i - 1;
    } else {
      assert run[i - 1].threads[t] == run[i].threads[t];
      j := RangeEndsEarlyOnlyWhenAsked(run, labels, i - 1, t);
    }
  }

  ghost predicate ThereThroughout(hist: seq<map<Key, Value>>, start: nat, k: Key) {
    forall n :: start <= n < |hist| ==> k in hist[n]
  }

  /** The step belongs to thread t's call that began at `start`. */
  predicate ActsFor(st: State, l: Label, t: Tid, start: nat) {
    l.Do? && l.t == t && t in st.threads && st.threads[t].start == start
  }

  /** A finished Range whose callback never asked to stop is complete, and has shown every key
      that was in the map throughout the call. */
  lemma RangeShowsEverything(run: seq<State>, labels: seq<Label>, i: nat, t: Tid, k: Key)
    requires IsRun(run, labels) && i < |run| && t in run[i].threads
    requires run[i].threads[t].op.Range? && run[i].threads[t].pc.Finished?
    requires forall j :: 0 <= j < i && ActsFor(run[j], labels[j], t, run[i].threads[t].start) ==> !labels[j].c.stop
    ensures var th := run[i].threads[t];
      && th.pc.ret == Ranged(Shown(th.pc), true)
      && (ThereThroughout(run[i].hist, th.start, k) ==> k in Shown(th.pc))
  {
    hide Next, Init, Abs, Shows;
    ResultsAreAtomic(run, labels, i, t);
    if !run[i].threads[t].pc.ret.complete {
      var j := RangeEndsEarlyOnlyWhenAsked(run, labels, i, t);
    }
  }

  lemma RunEvolves(run: seq<State>, labels: seq<Label>, i: nat)
    requires IsRun(run, labels) && i < |labels|
    ensures Evolves(run[i].sh, run[i + 1].sh)
  {
    InvAlways(run, labels, i);
    match labels[i]
    case Do(t, c) => DoOk(run[i], t, c, run[i + 1]);
    case _ => SameFields(run[i].sh, run[i + 1].sh);
  }

  ghost predicate Dead(s: Shared, e: Ref) {
    e < |s.heap| && Cur(s, s.heap[e].key) != Some(e)
  }

  lemma StaysDead(s: Shared, s': Shared, e: Ref)
    requires Evolves(s, s') && Dead(s, e)
    ensures Dead(s', e) && s'.heap[e] == s.heap[e]
  {
  }

  /** An entry that is not, or no longer, its key's entry never changes and never comes
      back: a late compare-and-swap through an old snapshot cannot revive it. */
  lemma {:induction false} DeadEntriesStayDead(run: seq<State>, labels: seq<Label>, i: nat, j: nat, e: Ref)
    requires IsRun(run, labels) && i <= j < |run| && Dead(run[i].sh, e)
    ensures Dead(run[j].sh, e) && run[j].sh.heap[e] == run[i].sh.heap[e]
  {
    hide Evolves, Init, Next;
    if i < j {
      DeadEntriesStayDead(run, labels, i, j - 1, e);
      RunEvolves(run, labels, j - 1);
      StaysDead(run[j - 1].sh, run[j].sh, e);
    }
  }

  /** An entry that leaves the snapshot in a step is expunged by then. */
  lemma DroppedEntriesAreExpunged(run: seq<State>, labels: seq<Label>, i: nat, k: Key)
    requires IsRun(run, labels) && i < |labels|
    requires k in run[i].sh.read.m && Get(run[i + 1].sh.read.m, k) != Some(run[i].sh.read.m[k])
    ensures var e := run[i].sh.read.m[k];
      && e < |run[i + 1].sh.heap| && run[i + 1].sh.heap[e].p.Expunged?
      && Cur(run[i + 1].sh, k) != Some(e)
  {
    InvAlways(run, labels, i);
    RunEvolves(run, labels, i);
  }

  /** While nobody holds the mutex, the dirty map exists exactly when `read` is amended, and
      then it shares every live entry of the snapshot and misses every expunged one. */
  lemma LiveEntriesAreShared(run: seq<State>, labels: seq<Label>, i: nat, k: Key)
    requires IsRun(run, labels) && i < |run| && run[i].sh.owner.None?
    ensures var s := run[i].sh;
      && s.read.amended == s.dirty.Some?
      && (k in s.read.m ==> s.read.m[k] < |s.heap|)
      && (k in s.read.m && s.dirty.None? ==> !s.heap[s.read.m[k]].p.Expunged?)
      && (k in s.read.m && s.dirty.Some? ==>
            if s.heap[s.read.m[k]].p.Expunged? then k !in s.dirty.value else Get(s.dirty.value, k) == Some(s.read.m[k]))
  {
    InvAlways(run, labels, i);
  }

  /** No thread writes to a nil dirty map, and the result that LoadOrStore ignores under
      the mutex is always true: the machine never reaches Fault. And it is never stuck:
      while a call is unfinished, some thread can act. */
  lemma NeverStuck(run: seq<State>, labels: seq<Label>, i: nat, t: Tid, anyKey: Key)
    requires IsRun(run, labels) && i < |run| && t in run[i].threads && !run[i].threads[t].pc.Finished?
    ensures forall u :: u in run[i].threads ==> !run[i].threads[u].pc.Fault?
    ensures exists u, c :: u in run[i].threads && Enabled(run[i].sh, run[i].threads[u].op, run[i].threads[u].pc, c)
  {
    hide IsRun, Abs, Remembers, EffOk;
    InvAlways(run, labels, i);
    var s := run[i].sh;
    var u := if s.owner.Some? then s.owner.value else t;
    var pc := run[i].threads[u].pc;
    if (pc.DirtyNext? || pc.Visit?) && pc.todo != {} {
      var x :| x in pc.todo;
      assert Enabled(s, run[i].threads[u].op, pc, Choice(0, x, false));
    } else {
      assert Enabled(s, run[i].threads[u].op, pc, Choice(0, anyKey, false));
    }
  }
}
