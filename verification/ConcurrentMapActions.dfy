/** The actions one by one: each keeps the invariant. */
module ConcurrentMapActions {
  import opened Basics
  import opened ConcurrentMap
  import opened ConcurrentMapInvariant
  import opened ConcurrentMapSteps

  // ---------------------------------------------------------------- the acting thread

  /** A thread that moves on with no more than it had. */
  lemma MovesOn(s: Shared, s': Shared, hist: seq<map<Key, Value>>, a: map<Key, Value>, th: Thread, next: Pc)
    requires |hist| > 0 && hist[|hist| - 1] == Abs(s) && Evolves(s, s')
    requires ThreadInv(s, hist, th) && Fits(th.op, next) && Knows(s', th.op, next)
    requires SnapEntry(next).Some? ==> SnapEntry(next) == SnapEntry(th.pc)
    requires LoadedEntry(next).Some? ==> LoadedEntry(next) == LoadedEntry(th.pc)
    requires FoundNothing(th.(pc := next)) ==> FoundNothing(th)
    requires Iterated(next).Some? ==> Iterated(next) == Iterated(th.pc)
    requires next.Visit? ==> next.acc == map[] && next.todo == next.m.Keys
    requires Answer(next).Some? ==> Answer(next) == Answer(th.pc)
    requires th.eff.Some? ==> MayHaveEffect(next)
    ensures ThreadInv(s', hist + [a], th.(pc := next))
  {
    RememberedKept(s, s', hist, a, th);
    if th.eff.Some? { EffectGrows(hist, a, th.start, th.op, th.eff.value); }
    if Answer(next).Some? { ResultGrows(hist, a, th, Answer(next).value); }
  }

  /** A thread that moves on with what it just read. */
  lemma Learns(s: Shared, h: seq<map<Key, Value>>, th: Thread, next: Pc)
    requires |h| > 0 && h[|h| - 1] == Abs(s) && th.start < |h| && th.eff.None?
    requires Fits(th.op, next) && Knows(s, th.op, next) && Iterated(next).None? && RefsOk(s, s.read.m)
    requires SnapEntry(next).Some? ==> SnapEntry(next) == Get(s.read.m, th.op.k)
    requires LoadedEntry(next).Some? ==> LoadedEntry(next) == Get(s.read.m, th.op.k)
    requires FoundNothing(th.(pc := next)) ==> Look(s, th.op.k).None?
    requires match Answer(next)
      case None => true
      case Some(Loaded(r)) => th.op.Load? && r == Look(s, th.op.k)
      case Some(LoadedOrStored(v, loaded)) => th.op.LoadOrStore? && loaded && Look(s, th.op.k) == Some(v)
      case Some(Deleted) => th.op.Delete? && Look(s, th.op.k).None?
      case _ => false
    ensures ThreadInv(s, h, th.(pc := next))
  {
    if !th.op.Range? { SeenNow(s, h, th.start, th.op.k); }
  }

  /** A thread right after the step by which its operation took effect. */
  lemma StoredThread(s': Shared, hist: seq<map<Key, Value>>, a: map<Key, Value>, th: Thread, next: Pc)
    requires |hist| > 0 && th.start < |hist| && th.op.Store? && a == hist[|hist| - 1][th.op.k := th.op.v]
    requires next == Release(Stored) || next == Finished(Stored)
    ensures ThreadInv(s', hist + [a], th.(pc := next, eff := Some(|hist| - 1)))
  {
    assert EffectAt(hist + [a], th.start, th.op, |hist| - 1);
  }

  lemma LosThread(s': Shared, hist: seq<map<Key, Value>>, a: map<Key, Value>, th: Thread, next: Pc)
    requires |hist| > 0 && th.start < |hist| && th.op.LoadOrStore? && a == hist[|hist| - 1][th.op.k := th.op.v]
    requires th.op.k !in hist[|hist| - 1]
    requires next.Release? || next.Finished? || (next.MissLos? && s'.dirty.Some?)
    requires next.ret == LoadedOrStored(th.op.v, false)
    ensures ThreadInv(s', hist + [a], th.(pc := next, eff := Some(|hist| - 1)))
  {
    assert EffectAt(hist + [a], th.start, th.op, |hist| - 1);
  }

  lemma DeletedThread(s': Shared, hist: seq<map<Key, Value>>, a: map<Key, Value>, th: Thread, next: Pc)
    requires |hist| > 0 && th.start < |hist| && th.op.Delete? && a == hist[|hist| - 1] - {th.op.k}
    requires next == ReleaseDelete(None) || next == Finished(Deleted)
    ensures ThreadInv(s', hist + [a], th.(pc := next, eff := Some(|hist| - 1)))
  {
    assert EffectAt(hist + [a], th.start, th.op, |hist| - 1);
  }

  /** A map read from `read` when the dirty map adds nothing to it is a whole map. */
  lemma SnapshotIsWhole(s: Shared, hist: seq<map<Key, Value>>, start: nat)
    requires start < |hist| && hist[|hist| - 1] == Abs(s)
    requires RefsOk(s, s.read.m) && DirtyKeys(s) <= s.read.m.Keys
    ensures WholeMap(s, hist, start, s.read.m)
  {
    forall k | k !in s.read.m ensures Seen(hist, start, k, None) {
      assert Look(s, k) == None;
      SeenNow(s, hist, start, k);
    }
  }

  // ---------------------------------------------------------------- steps that change nothing

  /** A step that changes nothing but the program counter. */
  lemma LocalOk(s: Shared, hist: seq<map<Key, Value>>, t: Tid, th: Thread, next: Pc, gap: set<Key>, building: bool)
    requires Ready(s, hist, t, th, gap, building) && HasLock(next) == HasLock(th.pc)
    requires HasLock(next) ==> Gap(th.op, next) == gap && Building(next) == building
    requires ThreadInv(s, hist + [Abs(s)], th.(pc := next))
    ensures StepOk(s, hist, t, th, Out(s, next, false), gap, building)
  {
    SameFields(s, s);
  }

  /** A step that only moves a thread on. */
  lemma MoveOk(s: Shared, hist: seq<map<Key, Value>>, t: Tid, th: Thread, next: Pc, gap: set<Key>, building: bool)
    requires Ready(s, hist, t, th, gap, building) && HasLock(next) == HasLock(th.pc)
    requires HasLock(next) ==> Gap(th.op, next) == gap && Building(next) == building
    requires th.eff.None? && Fits(th.op, next) && Knows(s, th.op, next)
    requires SnapEntry(next).Some? ==> SnapEntry(next) == SnapEntry(th.pc)
    requires LoadedEntry(next).None? && !FoundNothing(th.(pc := next)) && Iterated(next).None? && Answer(next).None?
    ensures StepOk(s, hist, t, th, Out(s, next, false), gap, building)
  {
    SameFields(s, s);
    MovesOn(s, s, hist, Abs(s), th, next);
    LocalOk(s, hist, t, th, next, gap, building);
  }

  /** A failed or first attempt of a thread that reached an entry through a snapshot. */
  lemma AttemptOk(s: Shared, hist: seq<map<Key, Value>>, t: Tid, th: Thread, e: Ref, next: Pc, gap: set<Key>, building: bool)
    requires Ready(s, hist, t, th, gap, building) && !HasLock(th.pc) && SnapEntry(th.pc) == Some(e)
    requires || next == WantLock
             || (th.op.Store? && (next == TryStore(e) || (next == CasStore(e, Word(s, e)) && !Word(s, e).Expunged?)))
             || (th.op.LoadOrStore? && (next == TryLos(e, Fast) || next == CasLos(e, Fast)))
             || (th.op.Delete? && (next == TryDelete(e) || (next == CasDelete(e, Word(s, e)) && Word(s, e).Box?)))
    ensures StepOk(s, hist, t, th, Out(s, next, false), gap, building)
  {
    hide SharedInv, Evolves, StepOk, LockOk, AbsOk, Abs, Remembers, Seen, EffectAt;
    MoveOk(s, hist, t, th, next, gap, building);
  }

  lemma UnexpungedOk(s: Shared, hist: seq<map<Key, Value>>, t: Tid, th: Thread, next: Pc, gap: set<Key>, building: bool)
    requires Ready(s, hist, t, th, gap, building) && th.pc.Unexpunge? && !Word(s, th.pc.e).Expunged?
    requires next == if th.op.Store? then StoreLocked(th.pc.e) else TryLos(th.pc.e, InRead)
    ensures StepOk(s, hist, t, th, Out(s, next, false), gap, building)
  {
    MoveOk(s, hist, t, th, next, gap, building);
  }

  lemma RetryLosOk(s: Shared, hist: seq<map<Key, Value>>, t: Tid, th: Thread, next: Pc, gap: set<Key>, building: bool)
    requires Ready(s, hist, t, th, gap, building) && (th.pc.TryLos? || th.pc.CasLos?) && !th.pc.mode.Fast?
    requires next == TryLos(th.pc.e, th.pc.mode) || next == CasLos(th.pc.e, th.pc.mode)
    ensures !Word(s, th.pc.e).Expunged?
    ensures StepOk(s, hist, t, th, Out(s, next, false), gap, building)
  {
    hide Evolves, StepOk, LockOk, AbsOk, Abs;
    MoveOk(s, hist, t, th, next, gap, building);
  }

  lemma DirtyNextOk(s: Shared, hist: seq<map<Key, Value>>, t: Tid, th: Thread, x: Key, gap: set<Key>, building: bool)
    requires Ready(s, hist, t, th, gap, building) && th.pc.DirtyNext?
    requires th.pc.todo != {} ==> x in th.pc.todo && x in s.read.m
    ensures StepOk(s, hist, t, th,
      Out(s, if th.pc.todo == {} then Amend else DirtyLoad(th.pc.todo, x, s.read.m[x]), false), gap, building)
  {
    MoveOk(s, hist, t, th, if th.pc.todo == {} then Amend else DirtyLoad(th.pc.todo, x, s.read.m[x]), gap, building);
  }

  lemma DirtyRetryOk(s: Shared, hist: seq<map<Key, Value>>, t: Tid, th: Thread, next: Pc, gap: set<Key>, building: bool)
    requires Ready(s, hist, t, th, gap, building) && (th.pc.DirtyLoad? || th.pc.DirtyCas?)
    requires next == DirtyLoad(th.pc.todo, th.pc.x, th.pc.e) || next == DirtyCas(th.pc.todo, th.pc.x, th.pc.e)
    ensures StepOk(s, hist, t, th, Out(s, next, false), gap, building)
  {
    hide Evolves, Abs, EffectAt, Remembers;
    MoveOk(s, hist, t, th, next, gap, building);
  }

  lemma StartOk(s: Shared, hist: seq<map<Key, Value>>, t: Tid, th: Thread, gap: set<Key>, building: bool)
    requires Ready(s, hist, t, th, gap, building) && th.pc.Start? && !th.op.Range?
    ensures StepOk(s, hist, t, th, ActStart(s, th.op), gap, building)
  {
    hide Evolves, StepOk, LockOk, AbsOk, Abs;
    var h := hist + [Abs(s)];
    Learns(s, h, th, ActStart(s, th.op).pc);
    LocalOk(s, hist, t, th, ActStart(s, th.op).pc, gap, building);
  }

  /** What the shared invariant says of a lookup under the mutex. */
  lemma WhatIsThere(s: Shared, k: Key)
    requires SharedInv(s, {}, false)
    ensures RefsOk(s, s.read.m) && s.read.amended == s.dirty.Some?
    ensures k in DirtyKeys(s) ==> !Word(s, s.dirty.value[k]).Expunged?
  {
  }

  lemma LockedWriteOk(s: Shared, hist: seq<map<Key, Value>>, t: Tid, th: Thread, gap: set<Key>, building: bool)
    requires Ready(s, hist, t, th, gap, building) && th.pc.Locked? && (th.op.Store? || th.op.LoadOrStore?)
    ensures StepOk(s, hist, t, th, ActLocked(s, th.op), gap, building)
  {
    WhatIsThere(s, th.op.k);
    hide SharedInv, Evolves, StepOk, LockOk, AbsOk, Abs, Remembers, EffectAt, Seen, Quiet;
    Learns(s, hist + [Abs(s)], th, ActLocked(s, th.op).pc);
    LocalOk(s, hist, t, th, ActLocked(s, th.op).pc, gap, building);
  }

  lemma LockedOk(s: Shared, hist: seq<map<Key, Value>>, t: Tid, th: Thread, gap: set<Key>, building: bool)
    requires Ready(s, hist, t, th, gap, building) && th.pc.Locked? && !th.op.Range?
    ensures StepOk(s, hist, t, th, ActLocked(s, th.op), gap, building)
  {
    if th.op.Store? || th.op.LoadOrStore? {
      hide Ready, StepOk, ActLocked;
      LockedWriteOk(s, hist, t, th, gap, building);
    } else {
      hide StepOk;
      LockedReadOk(s, hist, t, th, gap, building);
    }
  }

  lemma LockedReadOk(s: Shared, hist: seq<map<Key, Value>>, t: Tid, th: Thread, gap: set<Key>, building: bool)
    requires Ready(s, hist, t, th, gap, building) && th.pc.Locked? && (th.op.Load? || th.op.Delete?)
    ensures StepOk(s, hist, t, th, ActLocked(s, th.op), gap, building)
  {
    WhatIsThere(s, th.op.k);
    hide SharedInv, Evolves, StepOk, LockOk, AbsOk, Abs, Remembers, EffectAt, Seen, Quiet;
    Learns(s, hist + [Abs(s)], th, ActLocked(s, th.op).pc);
    LocalOk(s, hist, t, th, ActLocked(s, th.op).pc, gap, building);
  }

  lemma StartRangeOk(s: Shared, hist: seq<map<Key, Value>>, t: Tid, th: Thread, gap: set<Key>, building: bool)
    requires Ready(s, hist, t, th, gap, building) && (th.pc.Start? || th.pc.Locked?) && th.op.Range?
    ensures StepOk(s, hist, t, th, if th.pc.Start? then ActStart(s, th.op) else ActLocked(s, th.op), gap, building)
  {
    hide Evolves, StepOk, LockOk, AbsOk, Abs;
    var h := hist + [Abs(s)];
    if !s.read.amended { SnapshotIsWhole(s, h, th.start); }
    LocalOk(s, hist, t, th, (if th.pc.Start? then ActStart(s, th.op) else ActLocked(s, th.op)).pc, gap, building);
  }

  lemma LoadEntryOk(s: Shared, hist: seq<map<Key, Value>>, t: Tid, th: Thread, gap: set<Key>, building: bool)
    requires Ready(s, hist, t, th, gap, building) && th.pc.LoadEntry?
    ensures StepOk(s, hist, t, th, Out(s, Finished(Loaded(ValueOf(Word(s, th.pc.e)))), false), gap, building)
  {
    hide SharedInv, Evolves, StepOk, LockOk, AbsOk, Abs;
    var r := ValueOf(Word(s, th.pc.e));
    SeenNow(s, hist, th.start, th.op.k);
    SeenGrows(hist, Abs(s), th.start, th.op.k, r);
    LocalOk(s, hist, t, th, Finished(Loaded(r)), gap, building);
  }

  lemma TryLosOk(s: Shared, hist: seq<map<Key, Value>>, t: Tid, th: Thread, gap: set<Key>, building: bool)
    requires Ready(s, hist, t, th, gap, building) && th.pc.TryLos? && Word(s, th.pc.e).Box?
    ensures StepOk(s, hist, t, th, Out(s, AfterLos(th.pc.mode, LoadedOrStored(Word(s, th.pc.e).value, true)), false), gap, building)
  {
    hide Evolves, StepOk, LockOk, AbsOk, Abs, EffectAt, Quiet;
    var next := AfterLos(th.pc.mode, LoadedOrStored(Word(s, th.pc.e).value, true));
    Learns(s, hist + [Abs(s)], th, next);
    LocalOk(s, hist, t, th, next, gap, building);
  }

  lemma TryDeleteOk(s: Shared, hist: seq<map<Key, Value>>, t: Tid, th: Thread, gap: set<Key>, building: bool)
    requires Ready(s, hist, t, th, gap, building) && th.pc.TryDelete? && !Word(s, th.pc.e).Box?
    ensures StepOk(s, hist, t, th, Out(s, Finished(Deleted), false), gap, building)
  {
    hide SharedInv, Evolves, StepOk, LockOk, AbsOk, Abs, Quiet, HeldAny;
    SeenNow(s, hist, th.start, th.op.k);
    SeenGrows(hist, Abs(s), th.start, th.op.k, None);
    LocalOk(s, hist, t, th, Finished(Deleted), gap, building);
  }

  lemma VisitEndOk(s: Shared, hist: seq<map<Key, Value>>, t: Tid, th: Thread, gap: set<Key>, building: bool)
    requires Ready(s, hist, t, th, gap, building) && th.pc.Visit? && th.pc.todo == {}
    ensures StepOk(s, hist, t, th, Out(s, Finished(Ranged(th.pc.acc, true)), false), gap, building)
  {
    hide SharedInv, Evolves, StepOk, LockOk, AbsOk, Abs;
    VisitGrows(hist, Abs(s), th.start, th.pc.m, th.pc.todo, th.pc.acc);
    forall k | k !in th.pc.m ensures Seen(hist + [Abs(s)], th.start, k, None) { SeenGrows(hist, Abs(s), th.start, k, None); }
    LocalOk(s, hist, t, th, Finished(Ranged(th.pc.acc, true)), gap, building);
  }

  /** What an entry of an iterated map holds now, its key has held during the call. */
  lemma VisitSees(s: Shared, hist: seq<map<Key, Value>>, th: Thread, x: Key)
    requires |hist| > 0 && hist[|hist| - 1] == Abs(s) && ThreadInv(s, hist, th)
    requires th.pc.Visit? && x in th.pc.todo
    ensures Seen(hist + [Abs(s)], th.start, x, ValueOf(Word(s, th.pc.m[x])))
    ensures VisitInv(hist + [Abs(s)], th.start, th.pc.m, th.pc.todo, th.pc.acc)
    ensures WholeMap(s, hist + [Abs(s)], th.start, th.pc.m)
    ensures th.op.Range? && th.start < |hist| && th.eff.None? && th.pc.todo <= th.pc.m.Keys
  {
    SameFields(s, s);
    WholeMapKept(s, s, hist, Abs(s), th.start, th.pc.m);
    VisitGrows(hist, Abs(s), th.start, th.pc.m, th.pc.todo, th.pc.acc);
    SeenNow(s, hist + [Abs(s)], th.start, x);
  }

  /** One key more is visited, and its value is a value it has held. */
  lemma VisitedOne(h: seq<map<Key, Value>>, st: nat, m: map<Key, Ref>, todo: set<Key>, acc: map<Key, Value>, x: Key, v: Value)
    requires VisitInv(h, st, m, todo, acc) && x in todo && todo <= m.Keys && Seen(h, st, x, Some(v))
    ensures VisitInv(h, st, m, todo - {x}, acc[x := v])
  {
    hide Seen;
  }

  lemma VisitedNone(h: seq<map<Key, Value>>, st: nat, m: map<Key, Ref>, todo: set<Key>, acc: map<Key, Value>, x: Key)
    requires VisitInv(h, st, m, todo, acc) && x in todo && Seen(h, st, x, None)
    ensures VisitInv(h, st, m, todo - {x}, acc)
  {
    hide Seen;
  }

  /** A thread that goes on with its iteration. */
  lemma VisitThread(s: Shared, h: seq<map<Key, Value>>, th: Thread, todo: set<Key>, acc: map<Key, Value>)
    requires th.pc.Visit? && th.op.Range? && th.start < |h| && th.eff.None? && todo <= th.pc.m.Keys
    requires WholeMap(s, h, th.start, th.pc.m) && VisitInv(h, th.start, th.pc.m, todo, acc)
    ensures ThreadInv(s, h, th.(pc := Visit(th.pc.m, todo, acc)))
  {
    hide WholeMap, VisitInv;
  }

  lemma StoppedThread(s: Shared, h: seq<map<Key, Value>>, th: Thread, todo: set<Key>, acc: map<Key, Value>)
    requires th.pc.Visit? && th.op.Range? && th.start < |h| && th.eff.None? && VisitInv(h, th.start, th.pc.m, todo, acc)
    ensures ThreadInv(s, h, th.(pc := Finished(Ranged(acc, false))))
  {
    hide Seen;
  }

  /** Range looked at an entry that holds no value. */
  lemma VisitAbsentOk(s: Shared, hist: seq<map<Key, Value>>, t: Tid, th: Thread, x: Key, gap: set<Key>, building: bool)
    requires Ready(s, hist, t, th, gap, building) && th.pc.Visit? && x in th.pc.todo && ValueOf(Word(s, th.pc.m[x])).None?
    ensures StepOk(s, hist, t, th, Out(s, Visit(th.pc.m, th.pc.todo - {x}, th.pc.acc), false), gap, building)
  {
    hide SharedInv, Evolves, StepOk, LockOk, AbsOk, Abs, ThreadInv, WholeMap, VisitInv, Seen;
    VisitSees(s, hist, th, x);
    VisitedNone(hist + [Abs(s)], th.start, th.pc.m, th.pc.todo, th.pc.acc, x);
    VisitThread(s, hist + [Abs(s)], th, th.pc.todo - {x}, th.pc.acc);
    LocalOk(s, hist, t, th, Visit(th.pc.m, th.pc.todo - {x}, th.pc.acc), gap, building);
  }

  /** Range handed an entry's value to its callback. */
  lemma VisitOk(s: Shared, hist: seq<map<Key, Value>>, t: Tid, th: Thread, x: Key, v: Value, gap: set<Key>, building: bool)
    requires Ready(s, hist, t, th, gap, building) && th.pc.Visit? && x in th.pc.todo && ValueOf(Word(s, th.pc.m[x])) == Some(v)
    ensures StepOk(s, hist, t, th, Out(s, Visit(th.pc.m, th.pc.todo - {x}, th.pc.acc[x := v]), false), gap, building)
  {
    hide SharedInv, Evolves, StepOk, LockOk, AbsOk, Abs, ThreadInv, WholeMap, VisitInv, Seen;
    VisitSees(s, hist, th, x);
    VisitedOne(hist + [Abs(s)], th.start, th.pc.m, th.pc.todo, th.pc.acc, x, v);
    VisitThread(s, hist + [Abs(s)], th, th.pc.todo - {x}, th.pc.acc[x := v]);
    LocalOk(s, hist, t, th, Visit(th.pc.m, th.pc.todo - {x}, th.pc.acc[x := v]), gap, building);
  }

  /** The callback asked Range to stop. */
  lemma VisitStopOk(s: Shared, hist: seq<map<Key, Value>>, t: Tid, th: Thread, x: Key, v: Value, gap: set<Key>, building: bool)
    requires Ready(s, hist, t, th, gap, building) && th.pc.Visit? && x in th.pc.todo && ValueOf(Word(s, th.pc.m[x])) == Some(v)
    ensures StepOk(s, hist, t, th, Out(s, Finished(Ranged(th.pc.acc[x := v], false)), false), gap, building)
  {
    hide SharedInv, Evolves, StepOk, LockOk, AbsOk, Abs, ThreadInv, WholeMap, VisitInv, Seen;
    VisitSees(s, hist, th, x);
    VisitedOne(hist + [Abs(s)], th.start, th.pc.m, th.pc.todo, th.pc.acc, x, v);
    StoppedThread(s, hist + [Abs(s)], th, th.pc.todo - {x}, th.pc.acc[x := v]);
    LocalOk(s, hist, t, th, Finished(Ranged(th.pc.acc[x := v], false)), gap, building);
  }

  // ---------------------------------------------------------------- the mutex

  lemma AcquireOk(s: Shared, hist: seq<map<Key, Value>>, t: Tid, th: Thread, gap: set<Key>, building: bool)
    requires Ready(s, hist, t, th, gap, building) && th.pc.WantLock? && s.owner.None?
    ensures StepOk(s, hist, t, th, Out(s.(owner := Some(t)), Locked, false), gap, building)
  {
    var s' := s.(owner := Some(t));
    SameFields(s, s');
    MovesOn(s, s', hist, Abs(s'), th, Locked);
  }

  /** Releasing the mutex with an entry, a map or an answer. */
  lemma ReleaseOk(s: Shared, hist: seq<map<Key, Value>>, t: Tid, th: Thread, next: Pc, gap: set<Key>, building: bool)
    requires Ready(s, hist, t, th, gap, building) && HasLock(th.pc) && !HasLock(next) && gap == {} && !building && Fits(th.op, next) && Knows(s.(owner := None), th.op, next)
    requires SnapEntry(next).Some? ==> SnapEntry(next) == SnapEntry(th.pc)
    requires LoadedEntry(next).Some? ==> LoadedEntry(next) == LoadedEntry(th.pc)
    requires !FoundNothing(th.(pc := next))
    requires Iterated(next).Some? ==> Iterated(next) == Iterated(th.pc)
    requires next.Visit? ==> next.acc == map[] && next.todo == next.m.Keys
    requires Answer(next).Some? ==> Answer(next) == Answer(th.pc)
    requires th.eff.Some? ==> MayHaveEffect(next)
    ensures StepOk(s, hist, t, th, Out(s.(owner := None), next, false), gap, building)
  {
    var s' := s.(owner := None);
    SameFields(s, s');
    MovesOn(s, s', hist, Abs(s'), th, next);
  }

  /** Releasing the mutex after a lookup that found nothing. */
  lemma ReleaseAbsentOk(s: Shared, hist: seq<map<Key, Value>>, t: Tid, th: Thread, next: Pc, gap: set<Key>, building: bool)
    requires Ready(s, hist, t, th, gap, building) && FoundNothing(th) && next == if th.op.Load? then Finished(Loaded(None)) else Finished(Deleted)
    ensures StepOk(s, hist, t, th, Out(s.(owner := None), next, false), gap, building)
  {
    hide Evolves, SharedInv, Abs;
    SameFields(s, s.(owner := None));
    SeenGrows(hist, Abs(s), th.start, th.op.k, None);
  }

  /** Releasing the mutex after Delete's lookup found an entry, or removed one. */
  lemma ReleaseDeletedOk(s: Shared, hist: seq<map<Key, Value>>, t: Tid, th: Thread, gap: set<Key>, building: bool)
    requires Ready(s, hist, t, th, gap, building) && th.pc.ReleaseDelete? && !FoundNothing(th)
    ensures var f := th.pc.found;
      StepOk(s, hist, t, th, Out(s.(owner := None), if f.Some? then TryDelete(f.value) else Finished(Deleted), false), gap, building)
  {
    hide Evolves, SharedInv, Abs, StepOk;
    if th.pc.found.Some? {
      ReleaseOk(s, hist, t, th, TryDelete(th.pc.found.value), gap, building);
    } else {
      ReleaseRemovedOk(s, hist, t, th, gap, building);
    }
  }

  /** Releasing the mutex after Delete took its key out of the dirty map. */
  lemma ReleaseRemovedOk(s: Shared, hist: seq<map<Key, Value>>, t: Tid, th: Thread, gap: set<Key>, building: bool)
    requires Ready(s, hist, t, th, gap, building) && th.pc.ReleaseDelete? && th.pc.found.None? && th.eff.Some?
    ensures StepOk(s, hist, t, th, Out(s.(owner := None), Finished(Deleted), false), gap, building)
  {
    hide Evolves, SharedInv, Abs, EffectAt;
    SameFields(s, s.(owner := None));
    EffectGrows(hist, Abs(s), th.start, th.op, th.eff.value);
  }

  // ---------------------------------------------------------------- writes to entries

  /** A live entry reached through a snapshot is its key's entry. */
  lemma LiveIsCurrent(s: Shared, hist: seq<map<Key, Value>>, th: Thread, e: Ref)
    requires ThreadInv(s, hist, th) && SnapEntry(th.pc) == Some(e) && !Word(s, e).Expunged?
    ensures th.eff.None? && e < |s.heap| && s.heap[e].key == th.op.k && Cur(s, th.op.k) == Some(e)
  {
  }

  lemma FastStoreOk(s: Shared, hist: seq<map<Key, Value>>, t: Tid, th: Thread, addr: nat, gap: set<Key>, building: bool)
    requires Ready(s, hist, t, th, gap, building) && th.pc.CasStore? && Word(s, th.pc.e) == th.pc.p
    ensures StepOk(s, hist, t, th, Out(Put(s, th.pc.e, Box(addr, th.op.v)), Finished(Stored), true), gap, building)
  {
    hide Evolves, SharedInv, Abs;
    var s' := Put(s, th.pc.e, Box(addr, th.op.v));
    LiveIsCurrent(s, hist, th, th.pc.e);
    WriteLive(s, gap, building, th.pc.e, Box(addr, th.op.v));
    StoredThread(s', hist, Abs(s'), th, Finished(Stored));
  }

  lemma StoreLockedOk(s: Shared, hist: seq<map<Key, Value>>, t: Tid, th: Thread, addr: nat, gap: set<Key>, building: bool)
    requires Ready(s, hist, t, th, gap, building) && th.pc.StoreLocked?
    ensures StepOk(s, hist, t, th, Out(Put(s, th.pc.e, Box(addr, th.op.v)), Release(Stored), true), gap, building)
  {
    hide Evolves, SharedInv, Abs;
    var s' := Put(s, th.pc.e, Box(addr, th.op.v));
    CurInRange(s, th.op.k, gap, building);
    WriteLive(s, gap, building, th.pc.e, Box(addr, th.op.v));
    StoredThread(s', hist, Abs(s'), th, Release(Stored));
  }

  lemma FastLosOk(s: Shared, hist: seq<map<Key, Value>>, t: Tid, th: Thread, addr: nat, gap: set<Key>, building: bool)
    requires Ready(s, hist, t, th, gap, building) && th.pc.CasLos? && Word(s, th.pc.e).Nil? && th.pc.mode.Fast?
    ensures StepOk(s, hist, t, th,
      Out(Put(s, th.pc.e, Box(addr, th.op.v)), Finished(LoadedOrStored(th.op.v, false)), true), gap, building)
  {
    hide Evolves, SharedInv, Abs;
    var s' := Put(s, th.pc.e, Box(addr, th.op.v));
    LookInAbs(s, th.op.k);
    LiveIsCurrent(s, hist, th, th.pc.e);
    WriteLive(s, gap, building, th.pc.e, Box(addr, th.op.v));
    LosThread(s', hist, Abs(s'), th, Finished(LoadedOrStored(th.op.v, false)));
  }

  lemma LockedLosOk(s: Shared, hist: seq<map<Key, Value>>, t: Tid, th: Thread, addr: nat, gap: set<Key>, building: bool)
    requires Ready(s, hist, t, th, gap, building) && th.pc.CasLos? && Word(s, th.pc.e).Nil? && !th.pc.mode.Fast?
    ensures StepOk(s, hist, t, th,
      Out(Put(s, th.pc.e, Box(addr, th.op.v)), AfterLos(th.pc.mode, LoadedOrStored(th.op.v, false)), true), gap, building)
  {
    hide Evolves, SharedInv, Abs;
    var s' := Put(s, th.pc.e, Box(addr, th.op.v));
    LookInAbs(s, th.op.k);
    CurInRange(s, th.op.k, gap, building);
    WriteLive(s, gap, building, th.pc.e, Box(addr, th.op.v));
    LosThread(s', hist, Abs(s'), th, AfterLos(th.pc.mode, LoadedOrStored(th.op.v, false)));
  }

  lemma CasDeleteOk(s: Shared, hist: seq<map<Key, Value>>, t: Tid, th: Thread, gap: set<Key>, building: bool)
    requires Ready(s, hist, t, th, gap, building) && th.pc.CasDelete? && Word(s, th.pc.e) == th.pc.p
    ensures StepOk(s, hist, t, th, Out(Put(s, th.pc.e, Nil), Finished(Deleted), true), gap, building)
  {
    hide Evolves, SharedInv, Abs;
    var s' := Put(s, th.pc.e, Nil);
    LiveIsCurrent(s, hist, th, th.pc.e);
    WriteLive(s, gap, building, th.pc.e, Nil);
    DeletedThread(s', hist, Abs(s'), th, Finished(Deleted));
  }

  lemma UnexpungeOk(s: Shared, hist: seq<map<Key, Value>>, t: Tid, th: Thread, gap: set<Key>, building: bool)
    requires Ready(s, hist, t, th, gap, building) && th.pc.Unexpunge? && Word(s, th.pc.e).Expunged?
    ensures StepOk(s, hist, t, th, Out(Put(s, th.pc.e, Nil), Link(th.pc.e), false), gap, building)
  {
    hide Evolves, Abs;
    var s' := Put(s, th.pc.e, Nil);
    UnexpungeKeeps(s, th.op.k);
    MovesOn(s, s', hist, Abs(s'), th, Link(th.pc.e));
  }

  lemma LinkedThread(s: Shared, s': Shared, hist: seq<map<Key, Value>>, a: map<Key, Value>, th: Thread, next: Pc)
    requires |hist| > 0 && hist[|hist| - 1] == Abs(s) && Evolves(s, s') && ThreadInv(s, hist, th) && th.pc.Link?
    requires next == if th.op.Store? then StoreLocked(th.pc.e) else TryLos(th.pc.e, InRead)
    requires Cur(s', th.op.k) == Some(th.pc.e) && !Word(s', th.pc.e).Expunged?
    ensures ThreadInv(s', hist + [a], th.(pc := next))
  {
    MovesOn(s, s', hist, a, th, next);
  }

  lemma LinkOk(s: Shared, hist: seq<map<Key, Value>>, t: Tid, th: Thread, next: Pc, gap: set<Key>, building: bool)
    requires Ready(s, hist, t, th, gap, building) && th.pc.Link?
    requires next == if th.op.Store? then StoreLocked(th.pc.e) else TryLos(th.pc.e, InRead)
    ensures StepOk(s, hist, t, th, WriteDirty(s, th.op.k, th.pc.e, next), gap, building)
  {
    hide Evolves, SharedInv, Abs;
    var s' := s.(dirty := Some(s.dirty.value[th.op.k := th.pc.e]));
    LinkKeeps(s, th.op.k);
    LinkedThread(s, s', hist, Abs(s'), th, next);
  }

  // ---------------------------------------------------------------- the dirty map

  lemma MissedThread(s: Shared, s': Shared, hist: seq<map<Key, Value>>, a: map<Key, Value>, th: Thread)
    requires |hist| > 0 && hist[|hist| - 1] == Abs(s) && Evolves(s, s')
    requires ThreadInv(s, hist, th) && th.pc.Miss? && RefsOk(s, s.dirty.value)
    ensures ThreadInv(s', hist + [a], th.(pc := ReleaseLoad(th.pc.found)))
  {
    SeenNow(s, hist, th.start, th.op.k);
    if th.pc.found.Some? { HeldAnyKept(s, s', hist, a, th.start, th.op.k, th.pc.found.value); }
    else { SeenGrows(hist, a, th.start, th.op.k, None); }
  }

  lemma MissOk(s: Shared, hist: seq<map<Key, Value>>, t: Tid, th: Thread, gap: set<Key>, building: bool)
    requires Ready(s, hist, t, th, gap, building) && th.pc.Miss?
    ensures StepOk(s, hist, t, th, Out(MissLocked(s), ReleaseLoad(th.pc.found), false), gap, building)
  {
    hide Evolves, Abs;
    MissKeeps(s);
    MissedThread(s, MissLocked(s), hist, Abs(MissLocked(s)), th);
  }

  lemma MissedLosThread(s: Shared, s': Shared, hist: seq<map<Key, Value>>, a: map<Key, Value>, th: Thread)
    requires |hist| > 0 && hist[|hist| - 1] == Abs(s) && Evolves(s, s')
    requires ThreadInv(s, hist, th) && th.pc.MissLos?
    ensures ThreadInv(s', hist + [a], th.(pc := Release(th.pc.ret)))
  {
    MovesOn(s, s', hist, a, th, Release(th.pc.ret));
  }

  lemma MissLosOk(s: Shared, hist: seq<map<Key, Value>>, t: Tid, th: Thread, gap: set<Key>, building: bool)
    requires Ready(s, hist, t, th, gap, building) && th.pc.MissLos?
    ensures StepOk(s, hist, t, th, Out(MissLocked(s), Release(th.pc.ret), false), gap, building)
  {
    hide Evolves, SharedInv, Abs, MissLocked, Remembers, EffOk;
    MissKeeps(s);
    MissedLosThread(s, MissLocked(s), hist, Abs(MissLocked(s)), th);
  }

  lemma DirtyInitOk(s: Shared, hist: seq<map<Key, Value>>, t: Tid, th: Thread, gap: set<Key>, building: bool)
    requires Ready(s, hist, t, th, gap, building) && th.pc.DirtyInit?
    ensures s.dirty.None?
    ensures StepOk(s, hist, t, th, Out(s.(dirty := Some(map[])), DirtyNext(s.read.m.Keys), false), gap, building)
  {
    var s' := s.(dirty := Some(map[]));
    BuildStarts(s);
    MovesOn(s, s', hist, Abs(s'), th, DirtyNext(s.read.m.Keys));
  }

  /** dirtyLocked never meets an expunged entry, and copies a live one. */
  lemma DirtyCopyOk(s: Shared, hist: seq<map<Key, Value>>, t: Tid, th: Thread, gap: set<Key>, building: bool)
    requires Ready(s, hist, t, th, gap, building) && th.pc.DirtyLoad?
    ensures !Word(s, th.pc.e).Expunged?
    ensures StepOk(s, hist, t, th, WriteDirty(s, th.pc.x, th.pc.e, DirtyNext(th.pc.todo - {th.pc.x})), gap, building)
  {
    hide Evolves, Abs;
    BuildCopies(s, th.pc.todo, th.pc.x);
    var s' := s.(dirty := Some(s.dirty.value[th.pc.x := th.pc.e]));
    MovesOn(s, s', hist, Abs(s'), th, DirtyNext(th.pc.todo - {th.pc.x}));
  }

  lemma DirtyCasOk(s: Shared, hist: seq<map<Key, Value>>, t: Tid, th: Thread, gap: set<Key>, building: bool)
    requires Ready(s, hist, t, th, gap, building) && th.pc.DirtyCas? && Word(s, th.pc.e).Nil?
    ensures StepOk(s, hist, t, th, Out(Put(s, th.pc.e, Expunged), DirtyNext(th.pc.todo - {th.pc.x}), false), gap, building)
  {
    hide Evolves, Abs, EffectAt, Remembers;
    var s' := Put(s, th.pc.e, Expunged);
    BuildExpunges(s, th.pc.todo, th.pc.x);
    MovesOn(s, s', hist, Abs(s'), th, DirtyNext(th.pc.todo - {th.pc.x}));
  }

  lemma AmendOk(s: Shared, hist: seq<map<Key, Value>>, t: Tid, th: Thread, gap: set<Key>, building: bool)
    requires Ready(s, hist, t, th, gap, building) && th.pc.Amend?
    ensures StepOk(s, hist, t, th, Out(s.(read := s.read.(amended := true)), Insert, false), gap, building)
  {
    var s' := s.(read := s.read.(amended := true));
    AmendKeeps(s);
    MovesOn(s, s', hist, Abs(s'), th, Insert);
  }

  lemma InsertedThread(s': Shared, hist: seq<map<Key, Value>>, a: map<Key, Value>, th: Thread)
    requires |hist| > 0 && th.start < |hist| && (th.op.Store? || th.op.LoadOrStore?)
    requires a == hist[|hist| - 1][th.op.k := th.op.v] && th.op.k !in hist[|hist| - 1]
    ensures ThreadInv(s', hist + [a],
      th.(pc := Release(if th.op.Store? then Stored else LoadedOrStored(th.op.v, false)), eff := Some(|hist| - 1)))
  {
    if th.op.Store? { StoredThread(s', hist, a, th, Release(Stored)); }
    else { LosThread(s', hist, a, th, Release(LoadedOrStored(th.op.v, false))); }
  }

  lemma InsertOk(s: Shared, hist: seq<map<Key, Value>>, t: Tid, th: Thread, addr: nat, gap: set<Key>, building: bool)
    requires Ready(s, hist, t, th, gap, building) && th.pc.Insert? && s.dirty.Some?
    ensures StepOk(s, hist, t, th,
      Out(s.(heap := s.heap + [Cell(th.op.k, Box(addr, th.op.v))], dirty := Some(s.dirty.value[th.op.k := |s.heap|])),
          Release(if th.op.Store? then Stored else LoadedOrStored(th.op.v, false)), true), gap, building)
  {
    hide Evolves, SharedInv, Abs;
    var s' := s.(heap := s.heap + [Cell(th.op.k, Box(addr, th.op.v))], dirty := Some(s.dirty.value[th.op.k := |s.heap|]));
    InsertKeeps(s, th.op.k, addr, th.op.v);
    InsertedThread(s', hist, Abs(s'), th);
  }

  lemma DeleteDirtyOk(s: Shared, hist: seq<map<Key, Value>>, t: Tid, th: Thread, gap: set<Key>, building: bool)
    requires Ready(s, hist, t, th, gap, building) && th.pc.DeleteDirty? && s.dirty.Some?
    ensures StepOk(s, hist, t, th, Out(s.(dirty := Some(s.dirty.value - {th.op.k})), ReleaseDelete(None), true), gap, building)
  {
    hide Evolves, SharedInv, Abs;
    var s' := s.(dirty := Some(s.dirty.value - {th.op.k}));
    DeleteDirtyKeeps(s, th.op.k);
    DeletedThread(s', hist, Abs(s'), th, ReleaseDelete(None));
  }

  lemma PromotedThread(s': Shared, h: seq<map<Key, Value>>, th: Thread)
    requires th.start < |h| && h[|h| - 1] == Abs(s') && th.eff.None? && th.op.Range?
    requires SharedInv(s', {}, false) && s'.dirty.None?
    ensures ThreadInv(s', h, th.(pc := ReleaseRange(s'.read.m)))
  {
    SnapshotIsWhole(s', h, th.start);
  }

  lemma PromoteOk(s: Shared, hist: seq<map<Key, Value>>, t: Tid, th: Thread, gap: set<Key>, building: bool)
    requires Ready(s, hist, t, th, gap, building) && th.pc.Promote? && s.dirty.Some?
    ensures StepOk(s, hist, t, th, Out(PromoteDirty(s), ReleaseRange(s.dirty.value), false), gap, building)
  {
    hide Evolves, SharedInv, Abs;
    PromoteKeeps(s);
    PromotedThread(PromoteDirty(s), hist + [Abs(PromoteDirty(s))], th);
  }

}
