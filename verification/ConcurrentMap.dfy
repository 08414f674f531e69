/** The concurrent map as a machine that takes one atomic action per step: every
    atomic load, store and compare-and-swap of pkg/generic_sync/map.go is a step of
    its own, and so is every access to the fields guarded by the mutex. Threads keep
    what they read in earlier steps, so stale snapshots and stale entry pointers are
    part of the state. */
module ConcurrentMap {
  import opened Basics

  type Key(==, !new)
  type Value(==, !new)
  type Tid = nat
  type Ref = nat

  /** The word of an entry: nil, the expunged marker, or a pointer to a value. */
  datatype Ptr = Nil | Expunged | Box(addr: nat, value: Value)

  /** An entry object. `key` is the key it was allocated for; no code reads it. */
  datatype Cell = Cell(key: Key, p: Ptr)

  datatype Snap = Snap(m: map<Key, Ref>, amended: bool)

  datatype Shared = Shared(
    heap: seq<Cell>, read: Snap, dirty: Option<map<Key, Ref>>, misses: nat, owner: Option<Tid>)

  datatype Op =
    | Load(k: Key)
    | Store(k: Key, v: Value)
    | LoadOrStore(k: Key, v: Value)
    | Delete(k: Key)
    | Range

  datatype Ret =
    | Loaded(r: Option<Value>)
    | Stored
    | LoadedOrStored(actual: Value, loaded: bool)
    | Deleted
    | Ranged(acc: map<Key, Value>, complete: bool)

  /** Where LoadOrStore found its entry. */
  datatype Mode = Fast | InRead | InDirty

  /** Program counters, with the local variables that are live there. */
  datatype Pc =
    | Start
    | WantLock
    | Locked
    | Miss(found: Option<Ref>)
    | ReleaseLoad(found: Option<Ref>)
    | LoadEntry(e: Ref)
    | TryStore(e: Ref)
    | CasStore(e: Ref, p: Ptr)
    | Unexpunge(e: Ref)
    | Link(e: Ref)
    | StoreLocked(e: Ref)
    | DirtyInit
    | DirtyNext(todo: set<Key>)
    | DirtyLoad(todo: set<Key>, x: Key, e: Ref)
    | DirtyCas(todo: set<Key>, x: Key, e: Ref)
    | Amend
    | Insert
    | TryLos(e: Ref, mode: Mode)
    | CasLos(e: Ref, mode: Mode)
    | MissLos(ret: Ret)
    | Release(ret: Ret)
    | DeleteDirty
    | ReleaseDelete(found: Option<Ref>)
    | TryDelete(e: Ref)
    | CasDelete(e: Ref, p: Ptr)
    | Promote
    | ReleaseRange(m: map<Key, Ref>)
    | Visit(m: map<Key, Ref>, todo: set<Key>, acc: map<Key, Value>)
    | Fault
    | Finished(ret: Ret)

  /** `start` is the index in the history at which the call began, `eff` the index of
      the step at which the call changed the map. Both are history variables. */
  datatype Thread = Thread(op: Op, pc: Pc, start: nat, eff: Option<nat>)

  /** `hist` lists the abstract map before the first step and after every step. */
  datatype State = State(sh: Shared, threads: map<Tid, Thread>, hist: seq<map<Key, Value>>)

  /** What a step leaves to chance: the address of a new box, the key a map iteration
      yields next, and whether Range's callback asks to stop. */
  datatype Choice = Choice(addr: nat, x: Key, stop: bool)

  datatype Out = Out(sh: Shared, pc: Pc, eff: bool)

  // ---------------------------------------------------------------- the abstract map

  /** The entry a lookup under the mutex finds. */
  function Cur(s: Shared, k: Key): Option<Ref> {
    if k in s.read.m then Some(s.read.m[k])
    else if s.dirty.Some? then Get(s.dirty.value, k)
    else None
  }

  function ValueOf(p: Ptr): Option<Value> {
    if p.Box? then Some(p.value) else None
  }

  /** The word of an entry. */
  function Word(s: Shared, e: Ref): Ptr {
    if e < |s.heap| then s.heap[e].p else Nil
  }

  function Look(s: Shared, k: Key): Option<Value> {
    match Cur(s, k)
    case None => None
    case Some(e) => ValueOf(Word(s, e))
  }

  function DirtyKeys(s: Shared): set<Key> {
    if s.dirty.Some? then s.dirty.value.Keys else {}
  }

  function Abs(s: Shared): map<Key, Value> {
    map k | k in s.read.m.Keys + DirtyKeys(s) && Look(s, k).Some? :: Look(s, k).value
  }

  /** What an operation that changes the map makes of it. */
  function Effect(op: Op, m: map<Key, Value>): map<Key, Value> {
    match op
    case Store(k, v) => m[k := v]
    case LoadOrStore(k, v) => m[k := v]
    case Delete(k) => m - {k}
    case _ => m
  }

  // ---------------------------------------------------------------- the steps

  function KeyOf(op: Op): Key
    requires !op.Range?
  {
    match op
    case Load(k) => k
    case Store(k, v) => k
    case LoadOrStore(k, v) => k
    case Delete(k) => k
  }

  function Put(s: Shared, e: Ref, p: Ptr): Shared {
    if e < |s.heap| then s.(heap := s.heap[e := s.heap[e].(p := p)]) else s
  }

  function PromoteDirty(s: Shared): Shared {
    s.(read := Snap(if s.dirty.Some? then s.dirty.value else map[], false), dirty := None, misses := 0)
  }

  function MissLocked(s: Shared): Shared {
    if s.misses + 1 < |DirtyKeys(s)| then s.(misses := s.misses + 1) else PromoteDirty(s)
  }

  /** Which operation may stand at a program counter. */
  predicate Fits(op: Op, pc: Pc) {
    match pc
    case Start => true
    case WantLock => true
    case Locked => true
    case Miss(_) => op.Load?
    case ReleaseLoad(_) => op.Load?
    case LoadEntry(_) => op.Load?
    case TryStore(_) => op.Store?
    case CasStore(_, _) => op.Store?
    case StoreLocked(_) => op.Store?
    case TryLos(_, _) => op.LoadOrStore?
    case CasLos(_, _) => op.LoadOrStore?
    case MissLos(_) => op.LoadOrStore?
    case DeleteDirty => op.Delete?
    case ReleaseDelete(_) => op.Delete?
    case TryDelete(_) => op.Delete?
    case CasDelete(_, _) => op.Delete?
    case Promote => op.Range?
    case ReleaseRange(_) => op.Range?
    case Visit(m, todo, _) => op.Range? && todo <= m.Keys
    case Fault => true
    case Finished(_) => true
    case _ => op.Store? || op.LoadOrStore?
  }

  /** A step is possible unless it waits for the mutex, or the call is over. */
  predicate Enabled(s: Shared, op: Op, pc: Pc, c: Choice) {
    match pc
    case WantLock => s.owner.None?
    case DirtyNext(todo) => todo == {} || (c.x in todo && c.x in s.read.m)
    case Visit(m, todo, acc) => todo == {} || c.x in todo
    case Fault => false
    case Finished(_) => false
    case _ => true
  }

  /** The first step of every operation: the atomic load of `read` and the lookup in it. */
  function ActStart(s: Shared, op: Op): Out {
    match op
    case Load(k) =>
      if k in s.read.m then Out(s, LoadEntry(s.read.m[k]), false)
      else if s.read.amended then Out(s, WantLock, false)
      else Out(s, Finished(Loaded(None)), false)
    case Store(k, v) =>
      if k in s.read.m then Out(s, TryStore(s.read.m[k]), false) else Out(s, WantLock, false)
    case LoadOrStore(k, v) =>
      if k in s.read.m then Out(s, TryLos(s.read.m[k], Fast), false) else Out(s, WantLock, false)
    case Delete(k) =>
      if k in s.read.m then Out(s, TryDelete(s.read.m[k]), false)
      else if s.read.amended then Out(s, WantLock, false)
      else Out(s, Finished(Deleted), false)
    case Range =>
      if s.read.amended then Out(s, WantLock, false)
      else Out(s, Visit(s.read.m, s.read.m.Keys, map[]), false)
  }

  /** The second lookup, made with the mutex held. */
  function ActLocked(s: Shared, op: Op): Out {
    match op
    case Load(k) =>
      if k in s.read.m then Out(s, ReleaseLoad(Some(s.read.m[k])), false)
      else if s.read.amended then Out(s, Miss(if s.dirty.Some? then Get(s.dirty.value, k) else None), false)
      else Out(s, ReleaseLoad(None), false)
    case Store(k, v) =>
      if k in s.read.m then Out(s, Unexpunge(s.read.m[k]), false)
      else if k in DirtyKeys(s) then Out(s, StoreLocked(s.dirty.value[k]), false)
      else if !s.read.amended then Out(s, DirtyInit, false)
      else Out(s, Insert, false)
    case LoadOrStore(k, v) =>
      if k in s.read.m then Out(s, Unexpunge(s.read.m[k]), false)
      else if k in DirtyKeys(s) then Out(s, TryLos(s.dirty.value[k], InDirty), false)
      else if !s.read.amended then Out(s, DirtyInit, false)
      else Out(s, Insert, false)
    case Delete(k) =>
      if k in s.read.m then Out(s, ReleaseDelete(Some(s.read.m[k])), false)
      else if s.read.amended then Out(s, DeleteDirty, false)
      else Out(s, ReleaseDelete(None), false)
    case Range =>
      if s.read.amended then Out(s, Promote, false) else Out(s, ReleaseRange(s.read.m), false)
  }

  /** Writing to a nil dirty map would be a run-time panic. */
  function WriteDirty(s: Shared, k: Key, e: Ref, next: Pc): Out {
    if s.dirty.None? then Out(s, Fault, false) else Out(s.(dirty := Some(s.dirty.value[k := e])), next, false)
  }

  /** tryLoadOrStore has an answer; the mutex may have to be released after it. */
  function AfterLos(mode: Mode, ret: Ret): Pc {
    match mode
    case Fast => Finished(ret)
    case InRead => Release(ret)
    case InDirty => MissLos(ret)
  }

  /** One atomic action of thread `t`. */
  function Act(s: Shared, t: Tid, op: Op, pc: Pc, c: Choice): Out
    requires Fits(op, pc) && Enabled(s, op, pc, c)
  {
    match pc
    case Start => ActStart(s, op)
    case WantLock => Out(s.(owner := Some(t)), Locked, false)
    case Locked => ActLocked(s, op)
    // Load
    case Miss(f) => Out(MissLocked(s), ReleaseLoad(f), false)
    case ReleaseLoad(f) =>
      Out(s.(owner := None), if f.Some? then LoadEntry(f.value) else Finished(Loaded(None)), false)
    case LoadEntry(e) => Out(s, Finished(Loaded(ValueOf(Word(s, e)))), false)
    // Store
    case TryStore(e) =>
      Out(s, if Word(s, e).Expunged? then WantLock else CasStore(e, Word(s, e)), false)
    case CasStore(e, p) =>
      if Word(s, e) == p then Out(Put(s, e, Box(c.addr, op.v)), Finished(Stored), true)
      else Out(s, TryStore(e), false)
    case Unexpunge(e) =>
      var next := if op.Store? then StoreLocked(e) else TryLos(e, InRead);
      if Word(s, e).Expunged? then Out(Put(s, e, Nil), Link(e), false) else Out(s, next, false)
    case Link(e) =>
      var next := if op.Store? then StoreLocked(e) else TryLos(e, InRead);
      WriteDirty(s, KeyOf(op), e, next)
    case StoreLocked(e) => Out(Put(s, e, Box(c.addr, op.v)), Release(Stored), true)
    // dirtyLocked and the insertion of a new entry
    case DirtyInit =>
      if s.dirty.Some? then Out(s, Amend, false)
      else Out(s.(dirty := Some(map[])), DirtyNext(s.read.m.Keys), false)
    case DirtyNext(todo) => Out(s, if todo == {} then Amend else DirtyLoad(todo, c.x, s.read.m[c.x]), false)
    case DirtyLoad(todo, x, e) =>
      (match Word(s, e)
       case Nil => Out(s, DirtyCas(todo, x, e), false)
       case Expunged => Out(s, DirtyNext(todo - {x}), false)
       case Box(_, _) => WriteDirty(s, x, e, DirtyNext(todo - {x})))
    case DirtyCas(todo, x, e) =>
      if Word(s, e).Nil? then Out(Put(s, e, Expunged), DirtyNext(todo - {x}), false)
      else Out(s, DirtyLoad(todo, x, e), false)
    case Amend => Out(s.(read := s.read.(amended := true)), Insert, false)
    case Insert =>
      if s.dirty.None? then Out(s, Fault, false)
      else
        var s' := s.(heap := s.heap + [Cell(KeyOf(op), Box(c.addr, op.v))],
                     dirty := Some(s.dirty.value[KeyOf(op) := |s.heap|]));
        Out(s', Release(if op.Store? then Stored else LoadedOrStored(op.v, false)), true)
    // LoadOrStore
    case TryLos(e, mode) =>
      (match Word(s, e)
       case Expunged => Out(s, if mode.Fast? then WantLock else Fault, false)
       case Box(_, v) => Out(s, AfterLos(mode, LoadedOrStored(v, true)), false)
       case Nil => Out(s, CasLos(e, mode), false))
    case CasLos(e, mode) =>
      if Word(s, e).Nil? then Out(Put(s, e, Box(c.addr, op.v)), AfterLos(mode, LoadedOrStored(op.v, false)), true)
      else Out(s, TryLos(e, mode), false)
    case MissLos(ret) => Out(MissLocked(s), Release(ret), false)
    case Release(ret) => Out(s.(owner := None), Finished(ret), false)
    // Delete
    case DeleteDirty =>
      Out(s.(dirty := if s.dirty.Some? then Some(s.dirty.value - {op.k}) else None), ReleaseDelete(None), true)
    case ReleaseDelete(f) =>
      Out(s.(owner := None), if f.Some? then TryDelete(f.value) else Finished(Deleted), false)
    case TryDelete(e) =>
      Out(s, if Word(s, e).Box? then CasDelete(e, Word(s, e)) else Finished(Deleted), false)
    case CasDelete(e, p) =>
      if Word(s, e) == p then Out(Put(s, e, Nil), Finished(Deleted), true) else Out(s, TryDelete(e), false)
    // Range
    case Promote => Out(PromoteDirty(s), ReleaseRange(if s.dirty.Some? then s.dirty.value else map[]), false)
    case ReleaseRange(m) => Out(s.(owner := None), Visit(m, m.Keys, map[]), false)
    case Visit(m, todo, acc) =>
      if todo == {} then Out(s, Finished(Ranged(acc, true)), false)
      else
        var v := ValueOf(Word(s, m[c.x]));
        if v.None? then Out(s, Visit(m, todo - {c.x}, acc), false)
        else if c.stop then Out(s, Finished(Ranged(acc[c.x := v.value], false)), false)
        else Out(s, Visit(m, todo - {c.x}, acc[c.x := v.value]), false)
  }
}
