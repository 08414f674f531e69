/** Every atomic action keeps the invariant and changes the abstract map only as its operation may. */
module ConcurrentMapSteps {
  import opened Basics
  import opened ConcurrentMap
  import opened ConcurrentMapInvariant

  /** Thread `t` is about to act: `gap` and `building` describe the owner of the mutex. */
  ghost predicate Ready(s: Shared, hist: seq<map<Key, Value>>, t: Tid, th: Thread, gap: set<Key>, building: bool) {
    && |hist| > 0 && hist[|hist| - 1] == Abs(s)
    && ThreadInv(s, hist, th)
    && SharedInv(s, gap, building)
    && (HasLock(th.pc) ==> s.owner == Some(t) && gap == Gap(th.op, th.pc) && building == Building(th.pc))
    && (!HasLock(th.pc) ==> s.owner != Some(t))
    && (s.owner.None? ==> gap == {} && !building)
  }

  function After(hist: seq<map<Key, Value>>, th: Thread, out: Out): Thread
    requires |hist| > 0
  {
    th.(pc := out.pc, eff := if out.eff then Some(|hist| - 1) else th.eff)
  }

  /** The keys being moved after the action, by whoever owns the mutex then. */
  function GapAfter(th: Thread, out: Out, gap: set<Key>): set<Key> {
    if HasLock(out.pc) then Gap(th.op, out.pc) else if HasLock(th.pc) then {} else gap
  }

  predicate BuildingAfter(th: Thread, out: Out, building: bool) {
    if HasLock(out.pc) then Building(out.pc) else !HasLock(th.pc) && building
  }

  /** The mutex after the action. */
  ghost predicate LockOk(s: Shared, t: Tid, th: Thread, out: Out) {
    && (HasLock(out.pc) && !HasLock(th.pc) ==> s.owner.None?)
    && (HasLock(out.pc) ==> out.sh.owner == Some(t))
    && (HasLock(th.pc) && !HasLock(out.pc) ==> out.sh.owner.None?)
    && (!HasLock(th.pc) && !HasLock(out.pc) ==> Quiet(s, out.sh))
  }

  /** The abstract map changes only by the operation of the acting thread. */
  ghost predicate AbsOk(s: Shared, th: Thread, out: Out) {
    if out.eff then
      && th.eff.None?
      && Abs(out.sh) == Effect(th.op, Abs(s))
      && (th.op.LoadOrStore? ==> th.op.k !in Abs(s))
    else Abs(out.sh) == Abs(s)
  }

  ghost predicate StepOk(s: Shared, hist: seq<map<Key, Value>>, t: Tid, th: Thread, out: Out, gap: set<Key>, building: bool)
    requires |hist| > 0
  {
    && Evolves(s, out.sh)
    && LockOk(s, t, th, out)
    && SharedInv(out.sh, GapAfter(th, out, gap), BuildingAfter(th, out, building))
    && AbsOk(s, th, out)
    && ThreadInv(out.sh, hist + [Abs(out.sh)], After(hist, th, out))
  }

  // ---------------------------------------------------------------- kinds of change

  lemma AbsAt(s: Shared, s': Shared, k: Key)
    requires forall x :: x != k ==> Look(s', x) == Look(s, x)
    ensures Look(s', k).Some? ==> Abs(s') == Abs(s)[k := Look(s', k).value]
    ensures Look(s', k).None? ==> Abs(s') == Abs(s) - {k}
  {
    hide Abs, Look;
    var a := if Look(s', k).Some? then Abs(s)[k := Look(s', k).value] else Abs(s) - {k};
    forall x ensures Get(Abs(s'), x) == Get(a, x) {
      LookInAbs(s, x);
      LookInAbs(s', x);
    }
    SameMaps(Abs(s'), a);
  }

  /** Writing a word that is not expunged over one that is not, in a key's own entry. */
  lemma WriteLive(s: Shared, gap: set<Key>, building: bool, e: Ref, p: Ptr)
    requires SharedInv(s, gap, building)
    requires e < |s.heap| && Cur(s, s.heap[e].key) == Some(e)
    requires !s.heap[e].p.Expunged? && !p.Expunged?
    ensures var s' := Put(s, e, p);
      && Evolves(s, s') && Quiet(s, s') && SharedInv(s', gap, building)
      && Abs(s') == (if p.Box? then Abs(s)[s.heap[e].key := p.value] else Abs(s) - {s.heap[e].key})
  {
    hide Abs;
    AbsAt(s, Put(s, e, p), s.heap[e].key);
  }

  lemma CurInRange(s: Shared, k: Key, gap: set<Key>, building: bool)
    requires SharedInv(s, gap, building)
    ensures Cur(s, k).Some? ==> Cur(s, k).value < |s.heap| && s.heap[Cur(s, k).value].key == k
  {
  }

  /** Changing the owner, `misses` or nothing at all. */
  lemma SameFields(s: Shared, s': Shared)
    requires s'.heap == s.heap && s'.read == s.read && s'.dirty == s.dirty
    ensures Evolves(s, s') && Abs(s') == Abs(s)
    ensures forall gap, b :: SharedInv(s, gap, b) ==> SharedInv(s', gap, b)
  {
    hide Abs;
    SameAbs(s, s');
  }

  lemma PromoteKeeps(s: Shared)
    requires SharedInv(s, {}, false) && s.dirty.Some?
    ensures var s' := PromoteDirty(s);
      Evolves(s, s') && Abs(s') == Abs(s) && SharedInv(s', {}, false)
  {
    hide Abs;
    SameAbs(s, PromoteDirty(s));
  }

  lemma MissKeeps(s: Shared)
    requires SharedInv(s, {}, false) && s.dirty.Some?
    ensures var s' := MissLocked(s);
      Evolves(s, s') && Abs(s') == Abs(s) && SharedInv(s', {}, false) && s'.owner == s.owner
  {
    if s.misses + 1 < |DirtyKeys(s)| { SameFields(s, MissLocked(s)); } else { PromoteKeeps(s); }
  }

  lemma UnexpungeKeeps(s: Shared, k: Key)
    requires SharedInv(s, {}, false) && k in s.read.m && s.heap[s.read.m[k]].p.Expunged?
    ensures var s' := Put(s, s.read.m[k], Nil);
      && Evolves(s, s') && Abs(s') == Abs(s) && SharedInv(s', {k}, false)
      && s'.dirty.Some? && k !in s'.dirty.value
  {
    hide Abs;
    SameAbs(s, Put(s, s.read.m[k], Nil));
  }

  lemma LinkKeeps(s: Shared, k: Key)
    requires SharedInv(s, {k}, false) && s.dirty.Some?
    ensures var s' := s.(dirty := Some(s.dirty.value[k := s.read.m[k]]));
      Evolves(s, s') && Abs(s') == Abs(s) && SharedInv(s', {}, false) && !s.heap[s.read.m[k]].p.Expunged?
  {
    hide Abs;
    SameAbs(s, s.(dirty := Some(s.dirty.value[k := s.read.m[k]])));
  }

  lemma BuildStarts(s: Shared)
    requires SharedInv(s, {}, false) && s.dirty.None?
    ensures var s' := s.(dirty := Some(map[]));
      Evolves(s, s') && Abs(s') == Abs(s) && SharedInv(s', s.read.m.Keys, true)
  {
    hide Abs;
    SameAbs(s, s.(dirty := Some(map[])));
  }

  lemma BuildCopies(s: Shared, todo: set<Key>, x: Key)
    requires SharedInv(s, todo, true) && x in todo
    ensures s.dirty.Some? && x in s.read.m && !s.heap[s.read.m[x]].p.Expunged?
    ensures var s' := s.(dirty := Some(s.dirty.value[x := s.read.m[x]]));
      Evolves(s, s') && Abs(s') == Abs(s) && SharedInv(s', todo - {x}, true)
  {
    hide Abs;
    SameAbs(s, s.(dirty := Some(s.dirty.value[x := s.read.m[x]])));
  }

  lemma BuildExpunges(s: Shared, todo: set<Key>, x: Key)
    requires SharedInv(s, todo, true) && x in todo && x in s.read.m && s.heap[s.read.m[x]].p.Nil?
    ensures var s' := Put(s, s.read.m[x], Expunged);
      Evolves(s, s') && Abs(s') == Abs(s) && SharedInv(s', todo - {x}, true)
  {
    hide Abs;
    SameAbs(s, Put(s, s.read.m[x], Expunged));
  }

  lemma AmendKeeps(s: Shared)
    requires SharedInv(s, {}, true)
    ensures var s' := s.(read := s.read.(amended := true));
      Evolves(s, s') && Abs(s') == Abs(s) && SharedInv(s', {}, false)
  {
    hide Abs;
    SameAbs(s, s.(read := s.read.(amended := true)));
  }

  /** The state with a new entry for a key that has none. */
  function Inserted(s: Shared, k: Key, p: Ptr): Shared {
    s.(heap := s.heap + [Cell(k, p)], dirty := if s.dirty.Some? then Some(s.dirty.value[k := |s.heap|]) else None)
  }

  lemma InsertKeepsShared(s: Shared, k: Key, p: Ptr)
    requires SharedInv(s, {}, false) && s.dirty.Some? && k !in s.read.m && k !in s.dirty.value && !p.Expunged?
    ensures SharedInv(Inserted(s, k, p), {}, false)
  {
    assert forall e :: 0 <= e < |s.heap| ==> Inserted(s, k, p).heap[e] == s.heap[e];
  }

  lemma InsertEvolves(s: Shared, k: Key, p: Ptr)
    requires SharedInv(s, {}, false) && s.dirty.Some? && k !in s.read.m && k !in s.dirty.value
    ensures Evolves(s, Inserted(s, k, p))
  {
    assert forall e :: 0 <= e < |s.heap| ==> Inserted(s, k, p).heap[e] == s.heap[e];
  }

  lemma InsertLooks(s: Shared, k: Key, p: Ptr, x: Key)
    requires SharedInv(s, {}, false) && s.dirty.Some? && k !in s.read.m && k !in s.dirty.value && x != k
    ensures Look(Inserted(s, k, p), x) == Look(s, x)
  {
    CurInRange(s, x, {}, false);
    hide SharedInv;
    assert Cur(Inserted(s, k, p), x) == Cur(s, x);
  }

  lemma InsertKeeps(s: Shared, k: Key, addr: nat, v: Value)
    requires SharedInv(s, {}, false) && s.dirty.Some? && k !in s.read.m && k !in s.dirty.value
    ensures var s' := s.(heap := s.heap + [Cell(k, Box(addr, v))], dirty := Some(s.dirty.value[k := |s.heap|]));
      Evolves(s, s') && Abs(s') == Abs(s)[k := v] && k !in Abs(s) && SharedInv(s', {}, false)
  {
    hide SharedInv, Evolves, Abs;
    InsertKeepsShared(s, k, Box(addr, v));
    InsertEvolves(s, k, Box(addr, v));
    LookInAbs(s, k);
    forall x | x != k ensures Look(Inserted(s, k, Box(addr, v)), x) == Look(s, x) {
      InsertLooks(s, k, Box(addr, v), x);
    }
    AbsAt(s, Inserted(s, k, Box(addr, v)), k);
  }

  lemma DeleteDirtyKeeps(s: Shared, k: Key)
    requires SharedInv(s, {}, false) && s.dirty.Some? && k !in s.read.m && s.read.amended
    ensures var s' := s.(dirty := Some(s.dirty.value - {k}));
      Evolves(s, s') && Abs(s') == Abs(s) - {k} && SharedInv(s', {}, false)
  {
    hide Abs;
    AbsAt(s, s.(dirty := Some(s.dirty.value - {k})), k);
  }
}
