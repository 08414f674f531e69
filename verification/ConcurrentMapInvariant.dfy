/** The invariant of the concurrent map's machine, and the proof that every step keeps it. */
module ConcurrentMapInvariant {
  import opened Basics
  import opened ConcurrentMap

  // ---------------------------------------------------------------- what threads know

  /** At some moment since `start` the map held `r` for `k`. */
  ghost predicate Seen(hist: seq<map<Key, Value>>, start: nat, k: Key, r: Option<Value>) {
    exists i :: start <= i < |hist| && Get(hist[i], k) == r
  }

  /** `e` came from a snapshot: it is still the key's entry, or it is dead for good. */
  ghost predicate HeldSnap(s: Shared, hist: seq<map<Key, Value>>, start: nat, k: Key, e: Ref) {
    && e < |s.heap| && s.heap[e].key == k
    && (|| Get(s.read.m, k) == Some(e)
        || (Cur(s, k) != Some(e) && s.heap[e].p.Expunged? && Seen(hist, start, k, None)))
  }

  /** `e` may also have been cut out of the dirty map after a lookup there found it. */
  ghost predicate HeldAny(s: Shared, hist: seq<map<Key, Value>>, start: nat, k: Key, e: Ref) {
    && e < |s.heap| && s.heap[e].key == k
    && (Cur(s, k) == Some(e) || Seen(hist, start, k, ValueOf(s.heap[e].p)))
  }

  /** The moment `eff` lies inside the call and its step did exactly what the operation says. */
  ghost predicate EffectAt(hist: seq<map<Key, Value>>, start: nat, op: Op, i: nat) {
    && start <= i < |hist| - 1
    && hist[i + 1] == Effect(op, hist[i])
    && (op.LoadOrStore? ==> op.k !in hist[i])
  }

  /** The answer of a finished call is the plain map's answer at a moment inside the call. */
  ghost predicate ResultOk(hist: seq<map<Key, Value>>, th: Thread, ret: Ret) {
    match (th.op, ret)
    case (Load(k), Loaded(r)) => th.eff.None? && Seen(hist, th.start, k, r)
    case (Store(k, v), Stored) => th.eff.Some?
    case (LoadOrStore(k, v), LoadedOrStored(actual, loaded)) =>
      if loaded then th.eff.None? && Seen(hist, th.start, k, Some(actual)) else th.eff.Some? && actual == v
    case (Delete(k), Deleted) => th.eff.Some? || Seen(hist, th.start, k, None)
    case (Range, Ranged(acc, complete)) =>
      && th.eff.None?
      && (forall k :: k in acc ==> Seen(hist, th.start, k, Some(acc[k])))
      && (complete ==> forall k :: k !in acc ==> Seen(hist, th.start, k, None))
    case _ => false
  }

  predicate HasLock(pc: Pc) {
    match pc
    case Locked => true
    case Miss(_) => true
    case ReleaseLoad(_) => true
    case Unexpunge(_) => true
    case Link(_) => true
    case StoreLocked(_) => true
    case DirtyInit => true
    case DirtyNext(_) => true
    case DirtyLoad(_, _, _) => true
    case DirtyCas(_, _, _) => true
    case Amend => true
    case Insert => true
    case TryLos(_, mode) => !mode.Fast?
    case CasLos(_, mode) => !mode.Fast?
    case MissLos(_) => true
    case Release(_) => true
    case DeleteDirty => true
    case ReleaseDelete(_) => true
    case Promote => true
    case ReleaseRange(_) => true
    case _ => false
  }

  // ---------------------------------------------------------------- the shared invariant

  /** Keys the owner of the mutex is moving, for which a live entry of the snapshot may be
      missing in the dirty map. */
  function Gap(op: Op, pc: Pc): set<Key> {
    match pc
    case Link(_) => if op.Range? then {} else {KeyOf(op)}
    case DirtyNext(todo) => todo
    case DirtyLoad(todo, _, _) => todo
    case DirtyCas(todo, _, _) => todo
    case _ => {}
  }

  /** The dirty map exists but `amended` does not say so yet. */
  predicate Building(pc: Pc) {
    pc.DirtyNext? || pc.DirtyLoad? || pc.DirtyCas? || pc.Amend?
  }

  ghost predicate RefsOk(s: Shared, m: map<Key, Ref>) {
    forall k :: k in m ==> m[k] < |s.heap| && s.heap[m[k]].key == k
  }

  ghost predicate SharedInv(s: Shared, gap: set<Key>, building: bool) {
    && RefsOk(s, s.read.m)
    && (s.dirty.Some? ==>
        && RefsOk(s, s.dirty.value)
        && (forall k :: k in s.dirty.value ==> !s.heap[s.dirty.value[k]].p.Expunged?)
        && (forall k :: k in s.dirty.value && k in s.read.m ==> s.dirty.value[k] == s.read.m[k])
        && (forall k :: k in s.read.m && k !in s.dirty.value ==> (s.heap[s.read.m[k]].p.Expunged? <==> k !in gap))
        && (forall k :: k in gap ==> k in s.read.m && k !in s.dirty.value)
        && (!s.read.amended ==> s.dirty.value.Keys <= s.read.m.Keys))
    && (s.dirty.None? ==> gap == {} && forall k :: k in s.read.m ==> !s.heap[s.read.m[k]].p.Expunged?)
    && (if building then s.dirty.Some? && !s.read.amended else s.read.amended == s.dirty.Some?)
  }

  // ---------------------------------------------------------------- the threads' invariant

  /** The entry a thread reached through a snapshot of `read`. */
  function SnapEntry(pc: Pc): Option<Ref> {
    match pc
    case TryStore(e) => Some(e)
    case CasStore(e, _) => Some(e)
    case TryLos(e, mode) => if mode.Fast? then Some(e) else None
    case CasLos(e, mode) => if mode.Fast? then Some(e) else None
    case ReleaseDelete(f) => f
    case TryDelete(e) => Some(e)
    case CasDelete(e, _) => Some(e)
    case _ => None
  }

  /** The entry Load is about to read. */
  function LoadedEntry(pc: Pc): Option<Ref> {
    match pc
    case ReleaseLoad(f) => f
    case LoadEntry(e) => Some(e)
    case _ => None
  }

  /** A lookup under the mutex found no entry. */
  predicate FoundNothing(th: Thread) {
    || (th.pc.ReleaseLoad? && th.pc.found.None?)
    || (th.pc.ReleaseDelete? && th.pc.found.None? && th.eff.None?)
  }

  /** The map Range iterates. */
  function Iterated(pc: Pc): Option<map<Key, Ref>> {
    match pc
    case ReleaseRange(m) => Some(m)
    case Visit(m, _, _) => Some(m)
    case _ => None
  }

  /** The answer the call is going to return. */
  function Answer(pc: Pc): Option<Ret> {
    match pc
    case MissLos(ret) => Some(ret)
    case Release(ret) => Some(ret)
    case Finished(ret) => Some(ret)
    case _ => None
  }

  /** Every key in the map is held, every other key was absent. */
  ghost predicate WholeMap(s: Shared, h: seq<map<Key, Value>>, st: nat, m: map<Key, Ref>) {
    && (forall k :: k in m ==> HeldSnap(s, h, st, k, m[k]))
    && (forall k :: k !in m ==> Seen(h, st, k, None))
  }

  ghost predicate VisitInv(h: seq<map<Key, Value>>, st: nat, m: map<Key, Ref>, todo: set<Key>, acc: map<Key, Value>) {
    && acc.Keys <= m.Keys - todo
    && (forall k :: k in acc ==> Seen(h, st, k, Some(acc[k])))
    && (forall k :: k in m && k !in todo && k !in acc ==> Seen(h, st, k, None))
  }

  /** What a thread learnt in earlier steps, in terms of the history. */
  ghost predicate Remembers(s: Shared, h: seq<map<Key, Value>>, th: Thread)
    requires Fits(th.op, th.pc)
  {
    && (SnapEntry(th.pc).Some? ==> HeldSnap(s, h, th.start, th.op.k, SnapEntry(th.pc).value))
    && (LoadedEntry(th.pc).Some? ==> HeldAny(s, h, th.start, th.op.k, LoadedEntry(th.pc).value))
    && (FoundNothing(th) ==> Seen(h, th.start, th.op.k, None))
    && (Iterated(th.pc).Some? ==> WholeMap(s, h, th.start, Iterated(th.pc).value))
    && (th.pc.Visit? ==> VisitInv(h, th.start, th.pc.m, th.pc.todo, th.pc.acc))
    && (Answer(th.pc).Some? ==> ResultOk(h, th, Answer(th.pc).value))
  }

  /** What a thread knows about the shared state as it is now. */
  ghost predicate Knows(s: Shared, op: Op, pc: Pc)
    requires Fits(op, pc)
  {
    match pc
    case Miss(f) => s.read.amended && s.dirty.Some? && op.k !in s.read.m && f == Get(s.dirty.value, op.k)
    case CasStore(_, p) => !p.Expunged?
    case Unexpunge(e) => Get(s.read.m, op.k) == Some(e)
    case Link(e) => Get(s.read.m, op.k) == Some(e) && s.dirty.Some? && op.k !in s.dirty.value
    case StoreLocked(e) => Cur(s, op.k) == Some(e) && !Word(s, e).Expunged?
    case DirtyInit => op.k !in s.read.m && s.dirty.None?
    case DirtyNext(_) => op.k !in s.read.m
    case DirtyLoad(todo, x, e) => op.k !in s.read.m && x in todo && Get(s.read.m, x) == Some(e)
    case DirtyCas(todo, x, e) => op.k !in s.read.m && x in todo && Get(s.read.m, x) == Some(e)
    case Amend => op.k !in s.read.m
    case Insert => s.read.amended && op.k !in s.read.m && op.k !in DirtyKeys(s)
    case TryLos(e, mode) => LosKnows(s, op.k, e, mode)
    case CasLos(e, mode) => LosKnows(s, op.k, e, mode)
    case MissLos(_) => s.dirty.Some?
    case DeleteDirty => s.read.amended && op.k !in s.read.m
    case CasDelete(_, p) => p.Box?
    case Promote => s.read.amended
    case Fault => false
    case _ => true
  }

  ghost predicate LosKnows(s: Shared, k: Key, e: Ref, mode: Mode) {
    && (!mode.Fast? ==> Cur(s, k) == Some(e) && !Word(s, e).Expunged?)
    && (mode.InDirty? ==> s.dirty.Some?)
  }

  /** At these program counters a call may already have changed the map. */
  predicate MayHaveEffect(pc: Pc) {
    pc.MissLos? || pc.Release? || (pc.ReleaseDelete? && pc.found.None?) || pc.Finished?
  }

  ghost predicate EffOk(hist: seq<map<Key, Value>>, th: Thread) {
    th.eff.Some? ==> MayHaveEffect(th.pc) && EffectAt(hist, th.start, th.op, th.eff.value)
  }

  ghost predicate ThreadInv(s: Shared, hist: seq<map<Key, Value>>, th: Thread) {
    && Fits(th.op, th.pc)
    && th.start < |hist|
    && EffOk(hist, th)
    && Remembers(s, hist, th)
    && Knows(s, th.op, th.pc)
  }

  function OwnerGap(st: State): set<Key> {
    if st.sh.owner.Some? && st.sh.owner.value in st.threads then
      var th := st.threads[st.sh.owner.value]; Gap(th.op, th.pc)
    else {}
  }

  predicate OwnerBuilding(st: State) {
    st.sh.owner.Some? && st.sh.owner.value in st.threads && Building(st.threads[st.sh.owner.value].pc)
  }

  ghost predicate Inv(st: State) {
    && |st.hist| > 0 && st.hist[|st.hist| - 1] == Abs(st.sh)
    && (st.sh.owner.Some? ==> st.sh.owner.value in st.threads && HasLock(st.threads[st.sh.owner.value].pc))
    && (forall t :: t in st.threads && HasLock(st.threads[t].pc) ==> st.sh.owner == Some(t))
    && SharedInv(st.sh, OwnerGap(st), OwnerBuilding(st))
    && (forall t :: t in st.threads ==> ThreadInv(st.sh, st.hist, st.threads[t]))
  }

  // ---------------------------------------------------------------- how a step looks to others

  /** What any step may do to an entry, seen by a thread that holds it. */
  ghost predicate Evolves(s: Shared, s': Shared) {
    && |s.heap| <= |s'.heap|
    && (forall e :: 0 <= e < |s.heap| ==> s'.heap[e].key == s.heap[e].key)
    // an entry that is not its key's entry never becomes it again and never changes
    && (forall e :: 0 <= e < |s.heap| && Cur(s, s.heap[e].key) != Some(e) ==>
          Cur(s', s.heap[e].key) != Some(e) && s'.heap[e].p == s.heap[e].p)
    // one that stops being its key's entry keeps its word
    && (forall e :: 0 <= e < |s.heap| && Cur(s', s.heap[e].key) != Some(e) ==> s'.heap[e].p == s.heap[e].p)
    // and one that leaves the snapshot is expunged
    && (forall k :: k in s.read.m && s.read.m[k] < |s.heap| && Get(s'.read.m, k) != Some(s.read.m[k]) ==>
          s.heap[s.read.m[k]].p.Expunged? && Cur(s', k) != Some(s.read.m[k]))
  }

  /** What a step of another thread leaves alone for the owner of the mutex. */
  ghost predicate Quiet(s: Shared, s': Shared) {
    && s'.read == s.read && s'.dirty == s.dirty && s'.owner == s.owner && |s'.heap| == |s.heap|
    && forall e :: 0 <= e < |s.heap| ==> (s'.heap[e].p.Expunged? <==> s.heap[e].p.Expunged?)
  }

  lemma LookInAbs(s: Shared, k: Key)
    ensures Get(Abs(s), k) == Look(s, k)
  {
  }

  lemma SameMaps(a: map<Key, Value>, b: map<Key, Value>)
    requires forall k :: Get(a, k) == Get(b, k)
    ensures a == b
  {
    assert forall k :: k in a <==> Get(a, k).Some?;
    assert forall k :: k in b <==> Get(b, k).Some?;
    assert forall k :: k in a ==> Get(a, k).value == a[k];
  }

  lemma SameAbs(s: Shared, s': Shared)
    requires forall k :: Look(s, k) == Look(s', k)
    ensures Abs(s) == Abs(s')
  {
    hide Abs, Look, Get;
    forall k ensures Get(Abs(s), k) == Get(Abs(s'), k) {
      LookInAbs(s, k);
      LookInAbs(s', k);
    }
    SameMaps(Abs(s), Abs(s'));
  }

  lemma SeenGrows(hist: seq<map<Key, Value>>, a: map<Key, Value>, start: nat, k: Key, r: Option<Value>)
    requires Seen(hist, start, k, r)
    ensures Seen(hist + [a], start, k, r)
  {
    var i :| start <= i < |hist| && Get(hist[i], k) == r;
    assert (hist + [a])[i] == hist[i];
  }

  lemma SeenNow(s: Shared, hist: seq<map<Key, Value>>, start: nat, k: Key)
    requires start < |hist| && hist[|hist| - 1] == Abs(s)
    ensures Seen(hist, start, k, Look(s, k))
  {
    LookInAbs(s, k);
  }

  lemma ResultGrows(hist: seq<map<Key, Value>>, a: map<Key, Value>, th: Thread, ret: Ret)
    requires ResultOk(hist, th, ret)
    ensures ResultOk(hist + [a], th, ret)
  {
    forall k, r | Seen(hist, th.start, k, r) ensures Seen(hist + [a], th.start, k, r) {
      SeenGrows(hist, a, th.start, k, r);
    }
  }

  lemma HeldSnapKept(s: Shared, s': Shared, hist: seq<map<Key, Value>>, a: map<Key, Value>, start: nat, k: Key, e: Ref)
    requires start < |hist| && hist[|hist| - 1] == Abs(s)
    requires Evolves(s, s') && HeldSnap(s, hist, start, k, e)
    ensures HeldSnap(s', hist + [a], start, k, e)
  {
    if Get(s.read.m, k) == Some(e) {
      SeenNow(s, hist, start, k);
      if s.heap[e].p.Expunged? { SeenGrows(hist, a, start, k, None); }
    } else {
      SeenGrows(hist, a, start, k, None);
    }
  }

  lemma HeldAnyKept(s: Shared, s': Shared, hist: seq<map<Key, Value>>, a: map<Key, Value>, start: nat, k: Key, e: Ref)
    requires start < |hist| && hist[|hist| - 1] == Abs(s)
    requires Evolves(s, s') && HeldAny(s, hist, start, k, e)
    ensures HeldAny(s', hist + [a], start, k, e)
  {
    SeenNow(s, hist, start, k);
    if Cur(s', k) != Some(e) {
      SeenGrows(hist, a, start, k, ValueOf(s.heap[e].p));
    } else {
      assert Cur(s, k) == Some(e);
    }
  }

  lemma WholeMapKept(s: Shared, s': Shared, hist: seq<map<Key, Value>>, a: map<Key, Value>, start: nat, m: map<Key, Ref>)
    requires start < |hist| && hist[|hist| - 1] == Abs(s)
    requires Evolves(s, s') && WholeMap(s, hist, start, m)
    ensures WholeMap(s', hist + [a], start, m)
  {
    forall k | k in m ensures HeldSnap(s', hist + [a], start, k, m[k]) {
      HeldSnapKept(s, s', hist, a, start, k, m[k]);
    }
    forall k | k !in m ensures Seen(hist + [a], start, k, None) {
      SeenGrows(hist, a, start, k, None);
    }
  }

  lemma EffectGrows(hist: seq<map<Key, Value>>, a: map<Key, Value>, start: nat, op: Op, i: nat)
    requires EffectAt(hist, start, op, i)
    ensures EffectAt(hist + [a], start, op, i)
  {
    assert (hist + [a])[i] == hist[i] && (hist + [a])[i + 1] == hist[i + 1];
  }

  lemma VisitGrows(h: seq<map<Key, Value>>, a: map<Key, Value>, st: nat, m: map<Key, Ref>, todo: set<Key>, acc: map<Key, Value>)
    requires VisitInv(h, st, m, todo, acc)
    ensures VisitInv(h + [a], st, m, todo, acc)
  {
    forall k | k in acc ensures Seen(h + [a], st, k, Some(acc[k])) { SeenGrows(h, a, st, k, Some(acc[k])); }
    forall k | k in m && k !in todo && k !in acc ensures Seen(h + [a], st, k, None) { SeenGrows(h, a, st, k, None); }
  }

  lemma RememberedKept(s: Shared, s': Shared, hist: seq<map<Key, Value>>, a: map<Key, Value>, th: Thread)
    requires th.start < |hist| && hist[|hist| - 1] == Abs(s) && Evolves(s, s')
    requires Fits(th.op, th.pc) && Remembers(s, hist, th)
    ensures Remembers(s', hist + [a], th)
  {
    var pc := th.pc;
    if SnapEntry(pc).Some? { HeldSnapKept(s, s', hist, a, th.start, th.op.k, SnapEntry(pc).value); }
    if LoadedEntry(pc).Some? { HeldAnyKept(s, s', hist, a, th.start, th.op.k, LoadedEntry(pc).value); }
    if FoundNothing(th) { SeenGrows(hist, a, th.start, th.op.k, None); }
    if Iterated(pc).Some? { WholeMapKept(s, s', hist, a, th.start, Iterated(pc).value); }
    if pc.Visit? { VisitGrows(hist, a, th.start, pc.m, pc.todo, pc.acc); }
    if Answer(pc).Some? { ResultGrows(hist, a, th, Answer(pc).value); }
  }

  lemma KnowledgeKept(s: Shared, s': Shared, op: Op, pc: Pc)
    requires Fits(op, pc) && Knows(s, op, pc)
    requires HasLock(pc) ==> Quiet(s, s')
    ensures Knows(s', op, pc)
  {
  }

  /** A step of one thread keeps what every other thread knows. */
  lemma OtherKept(s: Shared, s': Shared, hist: seq<map<Key, Value>>, a: map<Key, Value>, th: Thread)
    requires |hist| > 0 && hist[|hist| - 1] == Abs(s)
    requires ThreadInv(s, hist, th) && Evolves(s, s')
    requires HasLock(th.pc) ==> Quiet(s, s')
    ensures ThreadInv(s', hist + [a], th)
  {
    if th.eff.Some? { EffectGrows(hist, a, th.start, th.op, th.eff.value); }
    RememberedKept(s, s', hist, a, th);
    KnowledgeKept(s, s', th.op, th.pc);
  }
}
