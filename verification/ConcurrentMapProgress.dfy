/** Every call ends: a thread that is left alone needs no more steps than its call still has
    work, whatever the others left half done. Only a call that waits for the mutex depends on
    another thread, the mutex's owner. */
module ConcurrentMapProgress {
  import opened Basics
  import opened ConcurrentMap
  import opened ConcurrentMapInvariant
  import opened ConcurrentMapTheorems

  function LoadWork(pc: Pc): nat {
    match pc
    case Start => 6
    case WantLock => 5
    case Locked => 4
    case Miss(_) => 3
    case ReleaseLoad(_) => 2
    case LoadEntry(_) => 1
    case _ => 0
  }

  function DeleteWork(s: Shared, pc: Pc): nat {
    match pc
    case Start => 7
    case WantLock => 6
    case Locked => 5
    case DeleteDirty => 4
    case ReleaseDelete(_) => 3
    case TryDelete(_) => 2
    case CasDelete(e, p) => if Word(s, e) == p then 1 else 3
    case _ => 0
  }

  /** The copying of the dirty map takes at most three steps a key. */
  function InsertWork(s: Shared, pc: Pc): nat {
    match pc
    case DirtyInit => 6 + 3 * |s.read.m|
    case DirtyNext(todo) => 5 + 3 * |todo|
    case DirtyLoad(todo, _, _) => 4 + 3 * |todo|
    case DirtyCas(todo, _, e) => (if Word(s, e).Nil? then 3 else 5) + 3 * |todo|
    case Amend => 3
    case Insert => 2
    case Release(_) => 1
    case _ => 0
  }

  function StoreWork(s: Shared, pc: Pc): nat {
    var keys := |s.read.m|;
    match pc
    case Start => 10 + 3 * keys
    case TryStore(_) => 9 + 3 * keys
    case CasStore(e, p) => if Word(s, e) == p then 1 else 10 + 3 * keys
    case WantLock => 8 + 3 * keys
    case Locked => 7 + 3 * keys
    case Unexpunge(_) => 4
    case Link(_) => 3
    case StoreLocked(_) => 2
    case _ => InsertWork(s, pc)
  }

  function LosWork(s: Shared, pc: Pc): nat {
    var keys := |s.read.m|;
    match pc
    case Start => 12 + 3 * keys
    case TryLos(_, mode) => if mode.Fast? then 10 + 3 * keys else 4
    case CasLos(e, mode) => if Word(s, e).Nil? then 3 else if mode.Fast? then 11 + 3 * keys else 5
    case WantLock => 9 + 3 * keys
    case Locked => 8 + 3 * keys
    case Unexpunge(_) => 6
    case Link(_) => 5
    case MissLos(_) => 2
    case _ => InsertWork(s, pc)
  }

  function RangeWork(s: Shared, pc: Pc): nat {
    match pc
    case Start => 6 + |s.read.m| + |DirtyKeys(s)|
    case WantLock => 5 + |s.read.m| + |DirtyKeys(s)|
    case Locked => 4 + |s.read.m| + |DirtyKeys(s)|
    case Promote => 3 + |DirtyKeys(s)|
    case ReleaseRange(m) => 2 + |m|
    case Visit(_, todo, _) => 1 + |todo|
    case _ => 0
  }

  /** How many steps a call may still take by itself. */
  function Work(s: Shared, op: Op, pc: Pc): nat {
    match op
    case Load(_) => LoadWork(pc)
    case Store(_, _) => StoreWork(s, pc)
    case LoadOrStore(_, _) => LosWork(s, pc)
    case Delete(_) => DeleteWork(s, pc)
    case Range => RangeWork(s, pc)
  }

  lemma OneLess<T>(todo: set<T>, x: T)
    requires x in todo
    ensures |todo - {x}| == |todo| - 1
  {
  }

  lemma SameSize(m: map<Key, Ref>)
    ensures |m.Keys| == |m|
  {
  }

  predicate Inserting(pc: Pc) {
    pc.DirtyInit? || pc.DirtyNext? || pc.DirtyLoad? || pc.DirtyCas? || pc.Amend? || pc.Insert? || pc.Release?
  }

  lemma CopyActUsesWork(s: Shared, t: Tid, op: Op, pc: Pc, c: Choice)
    requires Fits(op, pc) && Enabled(s, op, pc, c) && (pc.DirtyLoad? || pc.DirtyCas?) && pc.x in pc.todo
    ensures var out := Act(s, t, op, pc, c);
      InsertWork(out.sh, out.pc) < InsertWork(s, pc) && (Inserting(out.pc) || out.pc.Fault?)
  {
    hide Put;
    OneLess(pc.todo, pc.x);
  }

  /** Copying and inserting is the same for both operations that store. */
  lemma InsertActUsesWork(s: Shared, t: Tid, op: Op, pc: Pc, c: Choice)
    requires Fits(op, pc) && Enabled(s, op, pc, c) && Inserting(pc)
    requires (pc.DirtyLoad? || pc.DirtyCas?) ==> pc.x in pc.todo
    ensures var out := Act(s, t, op, pc, c);
      InsertWork(out.sh, out.pc) < InsertWork(s, pc) && (Inserting(out.pc) || out.pc.Fault? || out.pc.Finished?)
  {
    hide Put, Word;
    if pc.DirtyLoad? || pc.DirtyCas? {
      CopyActUsesWork(s, t, op, pc, c);
    } else if pc.DirtyInit? {
      SameSize(s.read.m);
    }
  }

  lemma StoreActUsesWork(s: Shared, t: Tid, op: Op, pc: Pc, c: Choice)
    requires Fits(op, pc) && Enabled(s, op, pc, c) && op.Store? && !Inserting(pc)
    ensures var out := Act(s, t, op, pc, c); StoreWork(out.sh, out.pc) < StoreWork(s, pc)
  {
  }

  lemma LosActUsesWork(s: Shared, t: Tid, op: Op, pc: Pc, c: Choice)
    requires Fits(op, pc) && Enabled(s, op, pc, c) && op.LoadOrStore? && !Inserting(pc)
    ensures var out := Act(s, t, op, pc, c); LosWork(out.sh, out.pc) < LosWork(s, pc)
  {
  }

  lemma LoadActUsesWork(s: Shared, t: Tid, op: Op, pc: Pc, c: Choice)
    requires Fits(op, pc) && Enabled(s, op, pc, c) && op.Load?
    ensures LoadWork(Act(s, t, op, pc, c).pc) < LoadWork(pc)
  {
    hide Word, MissLocked;
  }

  lemma DeleteActUsesWork(s: Shared, t: Tid, op: Op, pc: Pc, c: Choice)
    requires Fits(op, pc) && Enabled(s, op, pc, c) && op.Delete?
    ensures var out := Act(s, t, op, pc, c); DeleteWork(out.sh, out.pc) < DeleteWork(s, pc)
  {
  }

  lemma VisitUsesWork(s: Shared, t: Tid, op: Op, pc: Pc, c: Choice)
    requires Fits(op, pc) && Enabled(s, op, pc, c) && pc.Visit?
    ensures RangeWork(Act(s, t, op, pc, c).sh, Act(s, t, op, pc, c).pc) < RangeWork(s, pc)
  {
    hide Word, DirtyKeys;
    if pc.todo != {} { OneLess(pc.todo, c.x); }
  }

  lemma RangeActUsesWork(s: Shared, t: Tid, op: Op, pc: Pc, c: Choice)
    requires Fits(op, pc) && Enabled(s, op, pc, c) && op.Range?
    ensures RangeWork(Act(s, t, op, pc, c).sh, Act(s, t, op, pc, c).pc) < RangeWork(s, pc)
  {
    if pc.Visit? {
      VisitUsesWork(s, t, op, pc, c);
    } else {
      hide Word;
      SameSize(s.read.m);
      if pc.Promote? && s.dirty.Some? { SameSize(s.dirty.value); }
      if pc.ReleaseRange? { SameSize(pc.m); }
    }
  }

  /** Every action of a call uses up some of its work; only a compare-and-swap that finds
      another word than was read has to be tried again, and the work counts that ahead. */
  lemma ActUsesWork(s: Shared, t: Tid, op: Op, pc: Pc, c: Choice)
    requires Fits(op, pc) && Enabled(s, op, pc, c)
    requires (pc.DirtyLoad? || pc.DirtyCas?) ==> pc.x in pc.todo
    ensures var out := Act(s, t, op, pc, c); Work(out.sh, op, out.pc) < Work(s, op, pc)
  {
    hide Act, LoadWork, DeleteWork, RangeWork;
    match op
    case Load(_) => LoadActUsesWork(s, t, op, pc, c);
    case Store(_, _) =>
      if Inserting(pc) { InsertActUsesWork(s, t, op, pc, c); } else { StoreActUsesWork(s, t, op, pc, c); }
    case LoadOrStore(_, _) =>
      if Inserting(pc) { InsertActUsesWork(s, t, op, pc, c); } else { LosActUsesWork(s, t, op, pc, c); }
    case Delete(_) => DeleteActUsesWork(s, t, op, pc, c);
    case Range => RangeActUsesWork(s, t, op, pc, c);
  }

  /** In the steps from `i` to `j` only thread `t` acts. */
  ghost predicate Alone(labels: seq<Label>, i: nat, j: nat, t: Tid) {
    j <= |labels| && forall k :: i <= k < j ==> labels[k].Do? && labels[k].t == t
  }

  /** Left alone, a call takes no more steps than it has work. */
  lemma {:induction false} CallsFinishAlone(run: seq<State>, labels: seq<Label>, i: nat, j: nat, t: Tid)
    requires IsRun(run, labels) && i <= j < |run| && t in run[i].threads && Alone(labels, i, j, t)
    ensures t in run[j].threads && run[j].threads[t].op == run[i].threads[t].op
    ensures var th, th' := run[i].threads[t], run[j].threads[t];
      Work(run[j].sh, th'.op, th'.pc) + (j - i) <= Work(run[i].sh, th.op, th.pc)
    decreases j - i
  {
    hide Act, Work, Abs, SharedInv, Remembers, EffOk;
    if i < j {
      assert Next(run[i], labels[i], run[i + 1]);
      InvAlways(run, labels, i);
      var th := run[i].threads[t];
      ActUsesWork(run[i].sh, t, th.op, th.pc, labels[i].c);
      CallsFinishAlone(run, labels, i + 1, j, t);
    }
  }

  lemma WorkBefore(s: Shared, op: Op, pc: Pc)
    requires Fits(op, pc) && (pc.Start? || pc.WantLock?)
    ensures Work(s, op, pc) <= 12 + 3 * |s.read.m| + |DirtyKeys(s)|
  {
  }

  lemma WorkAtEnd(s: Shared, op: Op, pc: Pc)
    requires Fits(op, pc) && !pc.Fault?
    ensures Work(s, op, pc) == 0 <==> pc.Finished?
  {
  }

  /** The work of a call is bounded by the sizes of the two maps, and a call without work is over. */
  lemma WorkIsBounded(run: seq<State>, labels: seq<Label>, i: nat, t: Tid)
    requires IsRun(run, labels) && i < |run| && t in run[i].threads
    ensures var th, s := run[i].threads[t], run[i].sh;
      && (th.pc.Start? || th.pc.WantLock? ==> Work(s, th.op, th.pc) <= 12 + 3 * |s.read.m| + |DirtyKeys(s)|)
      && (Work(s, th.op, th.pc) == 0 <==> th.pc.Finished?)
  {
    hide Abs, SharedInv, Remembers, EffOk, Work;
    InvAlways(run, labels, i);
    var th, s := run[i].threads[t], run[i].sh;
    if th.pc.Start? || th.pc.WantLock? { WorkBefore(s, th.op, th.pc); }
    WorkAtEnd(s, th.op, th.pc);
  }
}
