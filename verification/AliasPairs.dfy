/** How a merged folder picks its backing objects, and how it pairs sources with destinations
    when it moves or copies (drivers/alias/util.go). */
module AliasPairs {
  import opened Basics

  /** A backing object: `id` tells objects apart, `mount` is the mount path of its storage. */
  datatype Obj = Obj(id: nat, mount: string)

  datatype Policy = First | Deterministic | DeterministicOrAll | All | AllStrict | Balanced

  datatype PickError = ObjectNotFound | PathConflict | SamePathLeak

  /** The objects whose lookup succeeded, in order. */
  function Found(os: seq<Obj>, found: seq<bool>): seq<Obj>
    requires |os| == |found|
  {
    if os == [] then []
    else
      var n := |os| - 1;
      Found(os[..n], found[..n]) + if found[n] then [os[n]] else []
  }

  predicate AllFound(found: seq<bool>) {
    forall i :: 0 <= i < |found| ==> found[i]
  }

  /** What a policy accepts. */
  predicate Accepts(policy: Policy, os: seq<Obj>, found: seq<bool>)
    requires |os| == |found|
  {
    match policy
    case Deterministic => |Found(os, found)| <= 1
    case DeterministicOrAll => |Found(os, found)| <= 1 || AllFound(found)
    case AllStrict => AllFound(found)
    case _ => true
  }

  lemma {:induction false} FoundAll(os: seq<Obj>, found: seq<bool>)
    requires |os| == |found|
    ensures |Found(os, found)| <= |os| && (|Found(os, found)| == |os| <==> AllFound(found))
  {
    if os != [] {
      var n := |os| - 1;
      FoundAll(os[..n], found[..n]);
      assert AllFound(found) <==> AllFound(found[..n]) && found[n];
    }
  }

  lemma {:induction false} FoundGrows(os: seq<Obj>, found: seq<bool>, i: nat)
    requires |os| == |found| && i <= |os|
    ensures Found(os[..i], found[..i]) <= Found(os, found)
    decreases |os| - i
  {
    if i < |os| {
      FoundGrows(os, found, i + 1);
      assert os[..i + 1][..i] == os[..i] && found[..i + 1][..i] == found[..i];
    } else {
      assert os[..i] == os && found[..i] == found;
    }
  }

  /** The same case by case: with nothing found every policy refuses; the strict ones also want
      exactly one object, or all of them. */
  predicate Picks(policy: Policy, os: seq<Obj>, found: seq<bool>)
    requires |os| == |found|
  {
    match policy
    case First => exists i :: 0 <= i < |found| && found[i]
    case Deterministic => |Found(os, found)| == 1
    case DeterministicOrAll => |Found(os, found)| == 1 || (os != [] && forall i :: 0 <= i < |found| ==> found[i])
    case All => exists i :: 0 <= i < |found| && found[i]
    case AllStrict => os != [] && forall i :: 0 <= i < |found| ==> found[i]
    case Balanced => exists i :: 0 <= i < |found| && found[i]
  }

  lemma {:induction false} FoundNone(os: seq<Obj>, found: seq<bool>)
    requires |os| == |found|
    ensures Found(os, found) == [] <==> forall i :: 0 <= i < |found| ==> !found[i]
  {
    if os != [] {
      var n := |os| - 1;
      FoundNone(os[..n], found[..n]);
      assert forall i :: 0 <= i < n ==> found[..n][i] == found[i];
    }
  }

  lemma PicksIs(policy: Policy, os: seq<Obj>, found: seq<bool>)
    requires |os| == |found|
    ensures Picks(policy, os, found) <==> Accepts(policy, os, found) && Found(os, found) != []
  {
    hide Found;
    FoundNone(os, found);
    FoundAll(os, found);
    if os != [] && AllFound(found) { assert found[0]; }
  }

  /** getAllObjs with the filter closure of getWriteAndPutFilterFunc: `all` and `l` are its
      captured counters. The objects that were found move to the front of the list (under the
      first policy only the first of them), and it fails exactly when the policy does not
      accept what was found. */
  method GetAllObjs(objs: array<Obj>, found: seq<bool>, policy: Policy) returns (r: Result<nat, PickError>)
    requires objs.Length == |found|
    modifies objs
    ensures r.Ok? <==> Picks(policy, old(objs[..]), found)
    ensures r.Ok? ==> Found(old(objs[..]), found) != [] && r.value <= objs.Length
    ensures r.Ok? ==> objs[..r.value] == if policy.First? then Found(old(objs[..]), found)[..1] else Found(old(objs[..]), found)
    ensures r.Err? ==> (r.error.ObjectNotFound? <==> Accepts(policy, old(objs[..]), found))
    ensures r.Err? && r.error.PathConflict? ==> policy.Deterministic?
  {
    hide Found, Accepts, AllFound, Picks;
    ghost var os := objs[..];
    PicksIs(policy, os, found);
    NothingYet(os, found);
    var length, all, l := 0, true, 0;
    for i := 0 to objs.Length
      invariant length <= i && objs[..length] == Found(os[..i], found[..i]) && objs[i..] == os[i..]
      invariant l == length && (all <==> AllFound(found[..i])) && Legal(policy, l, all)
    {
      var o := objs[i];
      assert o == objs[i..][0] == os[i];
      OneMore(os, found, i);
      NotAccepted(os, found, i, policy, l);
      if !found[i] {
        if policy.AllStrict? { return Err(SamePathLeak); }
        if policy.DeterministicOrAll? && l >= 2 { return Err(SamePathLeak); }
        all := false;
      } else {
        if policy.Deterministic? && l > 0 { return Err(PathConflict); }
        if policy.DeterministicOrAll? && l > 0 && !all { return Err(SamePathLeak); }
        l := l + 1;
        objs[length] := o;
        length := length + 1;
        if policy.First? { return Ok(length); }
      }
    }
    assert os[..objs.Length] == os && found[..objs.Length] == found;
    AcceptedAtEnd(os, found, policy, l, all);
    if length == 0 { return Err(ObjectNotFound); }
    return Ok(length);
  }

  /** What the counters may be while the loop goes on. */
  predicate Legal(policy: Policy, l: nat, all: bool) {
    && (policy.First? ==> l == 0)
    && (policy.Deterministic? ==> l <= 1)
    && (policy.DeterministicOrAll? ==> l <= 1 || all)
    && (policy.AllStrict? ==> all)
  }

  lemma NothingYet(os: seq<Obj>, found: seq<bool>)
    requires |os| == |found|
    ensures Found(os[..0], found[..0]) == [] && AllFound(found[..0])
  {
  }

  lemma AllOneMore(found: seq<bool>, i: nat)
    requires i < |found|
    ensures AllFound(found[..i + 1]) <==> AllFound(found[..i]) && found[i]
  {
    var f, g := found[..i], found[..i + 1];
    assert g == f + [found[i]];
    assert forall j :: 0 <= j < i ==> g[j] == f[j];
  }

  lemma OneMore(os: seq<Obj>, found: seq<bool>, i: nat)
    requires |os| == |found| && i < |os|
    ensures Found(os[..i + 1], found[..i + 1]) == Found(os[..i], found[..i]) + if found[i] then [os[i]] else []
    ensures AllFound(found[..i + 1]) <==> AllFound(found[..i]) && found[i]
    ensures Found(os[..i + 1], found[..i + 1]) <= Found(os, found)
  {
    hide AllFound;
    AllOneMore(found, i);
    FoundGrows(os, found, i + 1);
    assert os[..i + 1][..i] == os[..i] && found[..i + 1][..i] == found[..i];
  }

  /** Each early exit is taken only when the policy cannot accept any more. */
  lemma NotAccepted(os: seq<Obj>, found: seq<bool>, i: nat, policy: Policy, l: nat)
    requires |os| == |found| && i < |os| && l == |Found(os[..i], found[..i])|
    ensures !found[i] && policy.AllStrict? ==> !Accepts(policy, os, found)
    ensures !found[i] && policy.DeterministicOrAll? && l >= 2 ==> !Accepts(policy, os, found)
    ensures found[i] && policy.Deterministic? && l > 0 ==> !Accepts(policy, os, found)
    ensures found[i] && policy.DeterministicOrAll? && l > 0 && !AllFound(found[..i]) ==> !Accepts(policy, os, found)
    ensures found[i] && policy.First? ==> Accepts(policy, os, found) && Found(os, found) != []
    ensures found[i] && policy.First? && l == 0 ==> Found(os, found)[..1] == [os[i]]
  {
    OneMore(os, found, i);
    assert l <= |Found(os, found)| by { FoundGrows(os, found, i); }
  }

  lemma AcceptedAtEnd(os: seq<Obj>, found: seq<bool>, policy: Policy, l: nat, all: bool)
    requires |os| == |found| && l == |Found(os, found)| && (all <==> AllFound(found)) && Legal(policy, l, all)
    ensures Accepts(policy, os, found)
  {
  }

  // ---------------------------------------------------------------- pairs

  /** The mounts of a list, with multiplicity. */
  function Mounts(os: seq<Obj>): multiset<string> {
    if os == [] then multiset{} else Mounts(os[..|os| - 1]) + multiset{os[|os| - 1].mount}
  }

  lemma MountsSnoc(os: seq<Obj>, o: Obj)
    ensures Mounts(os + [o]) == Mounts(os) + multiset{o.mount}
  {
    assert (os + [o])[..|os|] == os;
  }

  lemma {:induction false} MountsCat(a: seq<Obj>, b: seq<Obj>)
    ensures Mounts(a + b) == Mounts(a) + Mounts(b)
  {
    if b == [] {
      assert a + b == a;
    } else {
      var c, o := b[..|b| - 1], b[|b| - 1];
      assert b == c + [o] && a + b == (a + c) + [o];
      MountsCat(a, c);
      MountsSnoc(a + c, o);
      MountsSnoc(c, o);
      hide Mounts;
    }
  }

  lemma {:induction false} MountsIn(os: seq<Obj>, m: string)
    ensures m in Mounts(os) <==> exists i :: 0 <= i < |os| && os[i].mount == m
    ensures |Mounts(os)| == |os|
  {
    if os != [] {
      var rest := os[..|os| - 1];
      MountsIn(rest, m);
      assert forall i :: 0 <= i < |rest| ==> rest[i] == os[i];
    }
  }

  lemma TakeOut(s: seq<Obj>, i: nat)
    requires i < |s|
    ensures multiset(s) == multiset(s[..i] + s[i + 1..]) + multiset{s[i]}
  {
    assert s == s[..i] + [s[i]] + s[i + 1..];
  }

  lemma Rearrange(a: multiset<string>, b: multiset<string>, x: string)
    ensures (a + multiset{x}) + b == a + (multiset{x} + b) == (a + b) + multiset{x}
  {
  }

  lemma Cancel(a: multiset<Obj>, b: multiset<Obj>, x: Obj)
    requires a + multiset{x} == b + multiset{x}
    ensures a == b
  {
    assert (a + multiset{x}) - multiset{x} == a && (b + multiset{x}) - multiset{x} == b;
  }

  lemma MountsAround(d: seq<Obj>, n: nat)
    requires n < |d|
    ensures Mounts(d) == Mounts(d[..n]) + (multiset{d[n].mount} + Mounts(d[n + 1..]))
    ensures Mounts(d) == Mounts(d[..n] + d[n + 1..]) + multiset{d[n].mount}
  {
    hide Mounts;
    var a, b := d[..n], d[n + 1..];
    assert d == (a + [d[n]]) + b;
    MountsSnoc(a, d[n]);
    MountsCat(a + [d[n]], b);
    MountsCat(a, b);
    Rearrange(Mounts(a), Mounts(b), d[n].mount);
  }

  /** The mounts depend on the objects, not on their order. */
  lemma {:induction false} MountsPermuted(a: seq<Obj>, b: seq<Obj>)
    requires multiset(a) == multiset(b)
    ensures Mounts(a) == Mounts(b)
  {
    if a == [] {
      assert |multiset(b)| == 0;
    } else {
      var n := |a| - 1;
      assert a[n] in multiset(b);
      var i :| 0 <= i < |b| && b[i] == a[n];
      TakeOut(a, n);
      TakeOut(b, i);
      assert a[..n] + a[n + 1..] == a[..n];
      Cancel(multiset(a[..n]), multiset(b[..i] + b[i + 1..]), a[n]);
      MountsPermuted(a[..n], b[..i] + b[i + 1..]);
      MountsAround(b, i);
      MountsAround(a, n);
    }
  }

  /** How many of the pairs, taken position by position, stay on one mount. */
  function SameMount(s: seq<Obj>, d: seq<Obj>): nat
    decreases |s|
  {
    if s == [] then 0
    else
      var n := |s| - 1;
      SameMount(s[..n], d) + if n < |d| && s[n].mount == d[n].mount then 1 else 0
  }

  /** No way to pair them has more pairs on one mount than the mounts they share. */
  lemma {:induction false} SharedBound(s: seq<Obj>, d: seq<Obj>)
    ensures SameMount(s, d) <= |Mounts(s) * Mounts(d)|
    decreases |s|
  {
    hide Mounts;
    if s != [] {
      var n := |s| - 1;
      MountsSnoc(s[..n], s[n]);
      assert s == s[..n] + [s[n]];
      if n < |d| {
        SharedBound(s[..n], d[..n]);
        SameMountPrefix(s[..n], d, n);
        MountsAround(d, n);
        Intersect(Mounts(s[..n]), s[n].mount, Mounts(d[..n]), d[n].mount, Mounts(d[n + 1..]));
      } else {
        SharedBound(s[..n], d);
        Shrink(Mounts(s[..n]), s[n].mount, Mounts(d));
      }
    }
  }

  lemma {:induction false} SameMountPrefix(s: seq<Obj>, d: seq<Obj>, n: nat)
    requires |s| <= n <= |d|
    ensures SameMount(s, d[..n]) == SameMount(s, d)
  {
    if s != [] { SameMountPrefix(s[..|s| - 1], d, n); }
  }

  lemma Shrink(a: multiset<string>, x: string, b: multiset<string>)
    ensures |a * b| <= |(a + multiset{x}) * b|
  {
    SubCard(a * b, (a + multiset{x}) * b);
  }

  lemma SubCard(a: multiset<string>, b: multiset<string>)
    requires a <= b
    ensures |a| <= |b|
  {
    assert b == a + (b - a);
  }

  lemma Intersect(a: multiset<string>, x: string, b: multiset<string>, y: string, more: multiset<string>)
    ensures |a * b| + (if x == y then 1 else 0) <= |(a + multiset{x}) * (b + (multiset{y} + more))|
  {
    var both := (a + multiset{x}) * (b + (multiset{y} + more));
    if x == y {
      SubCard(a * b + multiset{x}, both);
    } else {
      SubCard(a * b, both);
    }
  }

  /** The destinations that are not given a source yet, as the maps hold them. */
  ghost predicate Waiting(byMount: map<string, seq<Obj>>, open: set<Obj>) {
    && (forall m :: m in byMount ==> byMount[m] != [])
    && (forall m, i :: m in byMount && 0 <= i < |byMount[m]| ==> byMount[m][i].mount == m && byMount[m][i] in open)
    && (forall m, i, j :: m in byMount && 0 <= i < j < |byMount[m]| ==> byMount[m][i] != byMount[m][j])
    && (forall o :: o in open ==> o.mount in byMount && o in byMount[o.mount])
  }

  /** Destinations are different objects. */
  predicate Distinct(os: seq<Obj>) {
    forall i, j :: 0 <= i < j < |os| ==> os[i] != os[j]
  }

  /** The first loop: destinations by mount. */
  method ByMount(dst: seq<Obj>) returns (byMount: map<string, seq<Obj>>, open: set<Obj>)
    requires Distinct(dst)
    ensures Waiting(byMount, open) && open == set o | o in dst
  {
    byMount, open := map[], {};
    for i := 0 to |dst|
      invariant Waiting(byMount, open) && open == set o | o in dst[..i]
    {
      var o := dst[i];
      assert dst[..i + 1] == dst[..i] + [o];
      assert forall j :: 0 <= j < i ==> dst[..i][j] == dst[j] != o;
      WaitingMore(byMount, open, o);
      byMount := byMount[o.mount := (if o.mount in byMount then byMount[o.mount] else []) + [o]];
      open := open + {o};
    }
    assert dst[..|dst|] == dst;
  }

  lemma WaitingMore(byMount: map<string, seq<Obj>>, open: set<Obj>, o: Obj)
    requires Waiting(byMount, open) && o !in open
    ensures Waiting(byMount[o.mount := (if o.mount in byMount then byMount[o.mount] else []) + [o]], open + {o})
  {
  }

  /** One destination is served, as getMoveObjs does it. */
  function ServeOne(byMount: map<string, seq<Obj>>, m: string): map<string, seq<Obj>>
    requires m in byMount && byMount[m] != []
  {
    if |byMount[m]| == 1 then byMount - {m} else byMount[m := byMount[m][1..]]
  }

  lemma ServedOne(byMount: map<string, seq<Obj>>, open: set<Obj>, m: string)
    requires Waiting(byMount, open) && m in byMount
    ensures Waiting(ServeOne(byMount, m), open - {byMount[m][0]})
    ensures byMount[m][0] in open && byMount[m][0].mount == m
  {
  }

  /** All destinations of a mount are served, as getCopyObjs does it. */
  lemma ServedAll(byMount: map<string, seq<Obj>>, open: set<Obj>, m: string)
    requires Waiting(byMount, open) && m in byMount
    ensures Waiting(byMount - {m}, open - set o | o in byMount[m])
  {
  }

  // ---------------------------------------------------------------- getMoveObjs

  /** The first `k` pairs stay on one mount. */
  predicate Paired(srcs: seq<Obj>, dst: seq<Obj>, k: nat) {
    k <= |srcs| && k <= |dst| && forall j :: 0 <= j < k ==> srcs[j].mount == dst[j].mount
  }

  /** None of `rest` is on a mount that still waits. */
  predicate Unwanted(rest: seq<Obj>, byMount: map<string, seq<Obj>>) {
    forall j :: 0 <= j < |rest| ==> rest[j].mount !in byMount
  }

  /** getMoveObjs, when every storage lookup succeeds. `dst` is overwritten in place: it keeps
      its objects, every source is used exactly once, and as many pairs as possible stay on
      one mount. It refuses when there are fewer sources than destinations. */
  method GetMoveObjs(dst: array<Obj>, src: seq<Obj>) returns (r: Option<seq<Obj>>)
    requires Distinct(dst[..])
    modifies dst
    ensures r.None? <==> |src| < dst.Length
    ensures multiset(dst[..]) == multiset(old(dst[..]))
    ensures r.Some? ==> multiset(r.value) == multiset(src)
    ensures r.Some? ==> SameMount(r.value, dst[..]) == |Mounts(src) * Mounts(dst[..])|
  {
    hide Distinct, Waiting, Unwanted, Paired, Mounts, SameMount, Placed, Divided;
    if |src| < dst.Length { return None; }
    ghost var dst0 := dst[..];
    var byMount, open := ByMount(dst[..]);
    OpenAll(dst0, open);
    var srcs, rest;
    srcs, rest, byMount, open := MatchSources(dst, src, byMount, open);
    ghost var first, was := dst[..|srcs|], dst[..];
    FillRest(dst, |srcs|, open);
    FirstPaired(srcs, was, first);
    MovePairs(srcs, rest, first, dst[|srcs|..], byMount, open);
    assert dst[..] == first + dst[|srcs|..];
    AllPlaced(first, dst[|srcs|..], open, multiset(dst0));
    AllUsed(srcs, rest, src);
    return Some(srcs + rest);
  }

  lemma FirstPaired(srcs: seq<Obj>, dst: seq<Obj>, first: seq<Obj>)
    requires Paired(srcs, dst, |srcs|) && |srcs| <= |dst| && first == dst[..|srcs|]
    ensures Paired(srcs, first, |srcs|)
  {
  }

  lemma AllPlaced(placed: seq<Obj>, others: seq<Obj>, open: set<Obj>, all: multiset<Obj>)
    requires Placed(placed, open, all) && multiset(others) == multiset(open)
    ensures multiset(placed + others) == all
  {
  }

  lemma AllUsed(srcs: seq<Obj>, rest: seq<Obj>, src: seq<Obj>)
    requires Divided(srcs, rest, src)
    ensures multiset(srcs + rest) == multiset(src) && Mounts(srcs + rest) == Mounts(src)
  {
    MountsPermuted(srcs + rest, src);
  }

  /** The placed destinations and the open ones together are `all`. */
  ghost predicate Placed(placed: seq<Obj>, open: set<Obj>, all: multiset<Obj>) {
    multiset(placed) + multiset(open) == all
  }

  /** One open destination is placed. */
  lemma PlacedOne(placed: seq<Obj>, open: set<Obj>, all: multiset<Obj>, d: Obj)
    requires Placed(placed, open, all) && d in open
    ensures Placed(placed + [d], open - {d}, all) && |open| == |open - {d}| + 1
  {
    OpenLess(open, d);
  }

  /** Each source seen is in exactly one of the two lists. */
  ghost predicate Divided(srcs: seq<Obj>, rest: seq<Obj>, seen: seq<Obj>) {
    multiset(srcs + rest) == multiset(seen)
  }

  /** The loop over the sources: a source takes a destination that waits on its own mount. */
  method MatchSources(dst: array<Obj>, src: seq<Obj>, byMount0: map<string, seq<Obj>>, open0: set<Obj>)
    returns (srcs: seq<Obj>, rest: seq<Obj>, byMount: map<string, seq<Obj>>, open: set<Obj>)
    requires Waiting(byMount0, open0) && |open0| == dst.Length
    modifies dst
    ensures Waiting(byMount, open) && Unwanted(rest, byMount) && Divided(srcs, rest, src)
    ensures |srcs| + |open| == dst.Length && Paired(srcs, dst[..], |srcs|)
    ensures Placed(dst[..|srcs|], open, multiset(open0))
  {
    NonePaired(dst[..], byMount0);
    NonePlaced(dst[..], src, open0);
    srcs, rest, byMount, open := [], [], byMount0, open0;
    hide Waiting, ServeOne, Paired, Unwanted, Placed, Divided;
    for i := 0 to |src|
      invariant Waiting(byMount, open) && Unwanted(rest, byMount) && Divided(srcs, rest, src[..i])
      invariant |srcs| + |open| == dst.Length && Paired(srcs, dst[..], |srcs|)
      invariant Placed(dst[..|srcs|], open, multiset(open0))
    {
      var o := src[i];
      TakenOn(src, i, srcs, rest);
      if o.mount in byMount {
        StillUnwanted(rest, byMount, open, o.mount);
        byMount, open := Pair(dst, srcs, o, byMount, open, multiset(open0));
        srcs := srcs + [o];
      } else {
        OneUnwanted(rest, byMount, o);
        rest := rest + [o];
      }
    }
    assert src[..|src|] == src;
  }

  /** The source `o` takes the first destination that waits on its mount. */
  method Pair(dst: array<Obj>, ghost srcs: seq<Obj>, o: Obj, byMount0: map<string, seq<Obj>>, open0: set<Obj>,
              ghost all: multiset<Obj>) returns (byMount: map<string, seq<Obj>>, open: set<Obj>)
    requires Waiting(byMount0, open0) && o.mount in byMount0 && |srcs| + |open0| == dst.Length
    requires Paired(srcs, dst[..], |srcs|) && Placed(dst[..|srcs|], open0, all)
    modifies dst
    ensures byMount0[o.mount] != [] && byMount == ServeOne(byMount0, o.mount) && Waiting(byMount, open)
    ensures |srcs + [o]| + |open| == dst.Length && Paired(srcs + [o], dst[..], |srcs + [o]|)
    ensures Placed(dst[..|srcs + [o]|], open, all)
  {
    HasOne(byMount0, open0, o.mount);
    var d := byMount0[o.mount][0];
    ServedOne(byMount0, open0, o.mount);
    PairedMore(srcs, dst[..], o, d);
    PlacedOne(dst[..|srcs|], open0, all, d);
    hide Waiting, ServeOne, Paired, Placed;
    byMount, open := ServeOne(byMount0, o.mount), open0 - {d};
    Place(dst, dst.Length - |open0|, d);
  }

  method Place(dst: array<Obj>, k: nat, d: Obj)
    requires k < dst.Length
    modifies dst
    ensures dst[..] == old(dst[..])[k := d] && dst[..k + 1] == old(dst[..k]) + [d]
  {
    dst[k] := d;
    assert dst[..k + 1] == old(dst[..k]) + [d];
  }

  lemma NonePlaced(dst: seq<Obj>, src: seq<Obj>, open: set<Obj>)
    ensures Placed(dst[..0], open, multiset(open)) && Divided([], [], src[..0])
  {
  }

  lemma NonePaired(dst: seq<Obj>, byMount: map<string, seq<Obj>>)
    ensures Paired([], dst, 0) && Unwanted([], byMount)
  {
  }

  lemma PairedMore(srcs: seq<Obj>, dst: seq<Obj>, o: Obj, d: Obj)
    requires Paired(srcs, dst, |srcs|) && |srcs| < |dst| && o.mount == d.mount
    ensures Paired(srcs + [o], dst[|srcs| := d], |srcs + [o]|)
  {
  }

  lemma OneUnwanted(rest: seq<Obj>, byMount: map<string, seq<Obj>>, o: Obj)
    requires Unwanted(rest, byMount) && o.mount !in byMount
    ensures Unwanted(rest + [o], byMount)
  {
  }

  lemma StillUnwanted(rest: seq<Obj>, byMount: map<string, seq<Obj>>, open: set<Obj>, m: string)
    requires Unwanted(rest, byMount) && Waiting(byMount, open) && m in byMount
    ensures byMount[m] != [] && Unwanted(rest, ServeOne(byMount, m))
  {
    hide Waiting;
    HasOne(byMount, open, m);
  }

  lemma HasOne(byMount: map<string, seq<Obj>>, open: set<Obj>, m: string)
    requires Waiting(byMount, open) && m in byMount
    ensures byMount[m] != [] && |open| > 0
  {
    assert byMount[m][0] in open;
  }

  lemma TakenOn(src: seq<Obj>, i: nat, srcs: seq<Obj>, rest: seq<Obj>)
    requires i < |src| && Divided(srcs, rest, src[..i])
    ensures Divided(srcs + [src[i]], rest, src[..i + 1]) && Divided(srcs, rest + [src[i]], src[..i + 1])
  {
    assert src[..i + 1] == src[..i] + [src[i]];
  }

  /** The destinations that are left over, in any order. */
  method FillRest(dst: array<Obj>, k: nat, open: set<Obj>)
    requires k + |open| == dst.Length
    modifies dst
    ensures dst[..k] == old(dst[..k]) && multiset(dst[k..]) == multiset(open)
  {
    var left, n := open, k;
    NonePlaced(dst[k..], [], open);
    assert dst[k..k] == dst[k..][..0];
    while left != {}
      invariant n + |left| == dst.Length && k <= n && dst[..k] == old(dst[..k])
      invariant Placed(dst[k..n], left, multiset(open))
      decreases |left|
    {
      hide Placed;
      var d :| d in left;
      PlacedOne(dst[k..n], left, multiset(open), d);
      left := left - {d};
      PlaceAfter(dst, k, n, d);
      n := n + 1;
    }
    assert dst[k..n] == dst[k..];
  }

  method PlaceAfter(dst: array<Obj>, k: nat, n: nat, d: Obj)
    requires k <= n < dst.Length
    modifies dst
    ensures dst[..k] == old(dst[..k]) && dst[k..n + 1] == old(dst[k..n]) + [d]
  {
    dst[n] := d;
    assert dst[k..n + 1] == old(dst[k..n]) + [d];
  }

  lemma LastIsNew(dst: seq<Obj>)
    requires Distinct(dst) && dst != []
    ensures var n := |dst| - 1;
      && Distinct(dst[..n]) && dst[n] !in dst[..n]
      && (set o | o in dst) - {dst[n]} == (set o | o in dst[..n]) && multiset(dst) == multiset(dst[..n]) + multiset{dst[n]}
  {
    var n := |dst| - 1;
    assert dst == dst[..n] + [dst[n]];
    assert forall j :: 0 <= j < n ==> dst[..n][j] == dst[j] != dst[n];
  }

  lemma {:induction false} OpenAll(dst: seq<Obj>, open: set<Obj>)
    requires Distinct(dst) && open == set o | o in dst
    ensures multiset(open) == multiset(dst) && |open| == |dst|
  {
    if dst != [] {
      LastIsNew(dst);
      hide Distinct;
      OpenAll(dst[..|dst| - 1], open - {dst[|dst| - 1]});
      OpenLess(open, dst[|dst| - 1]);
    }
  }

  lemma OpenLess(open: set<Obj>, d: Obj)
    requires d in open
    ensures multiset(open) == multiset(open - {d}) + multiset{d} && |open| == |open - {d}| + 1
  {
  }

  /** What is left over on both sides shares no mount. */
  lemma NoneInCommon(rest: seq<Obj>, others: seq<Obj>, byMount: map<string, seq<Obj>>, open: set<Obj>, m: string)
    requires Waiting(byMount, open) && Unwanted(rest, byMount) && multiset(others) == multiset(open)
    requires m in Mounts(rest)
    ensures m !in Mounts(others)
  {
    hide Mounts;
    MountsIn(rest, m);
    MountsIn(others, m);
    forall j | 0 <= j < |others| ensures others[j].mount in byMount {
      assert others[j] in multiset(open);
    }
  }

  lemma Meet(a: multiset<string>, x: multiset<string>, y: multiset<string>)
    requires forall m :: m in x ==> m !in y
    ensures (a + x) * (a + y) == a
  {
  }

  /** What is left over on both sides shares no mount, so the pairs made are all there can be. */
  lemma MovePairs(srcs: seq<Obj>, rest: seq<Obj>, first: seq<Obj>, others: seq<Obj>,
                  byMount: map<string, seq<Obj>>, open: set<Obj>)
    requires Waiting(byMount, open) && Unwanted(rest, byMount) && multiset(others) == multiset(open)
    requires |srcs| == |first| && Paired(srcs, first, |srcs|)
    ensures SameMount(srcs + rest, first + others) == |srcs| == |Mounts(srcs + rest) * Mounts(first + others)|
  {
    forall m | m in Mounts(rest) ensures m !in Mounts(others) {
      NoneInCommon(rest, others, byMount, open, m);
    }
    hide Mounts, Waiting, Unwanted, Paired, SameMount;
    PairedMounts(srcs, first);
    MountsCat(srcs, rest);
    MountsCat(first, others);
    MountsIn(srcs, "");
    Meet(Mounts(srcs), Mounts(rest), Mounts(others));
    SharedBound(srcs + rest, first + others);
    AtLeast(srcs, rest, first, others);
  }

  lemma {:induction false} PairedMounts(a: seq<Obj>, b: seq<Obj>)
    requires |a| == |b| && Paired(a, b, |a|)
    ensures Mounts(a) == Mounts(b)
  {
    if a != [] { PairedMounts(a[..|a| - 1], b[..|b| - 1]); }
  }

  lemma {:induction false} AtLeast(srcs: seq<Obj>, rest: seq<Obj>, first: seq<Obj>, others: seq<Obj>)
    requires |srcs| == |first| && Paired(srcs, first, |srcs|)
    ensures SameMount(srcs + rest, first + others) >= |srcs|
  {
    if rest != [] {
      AtLeast(srcs, rest[..|rest| - 1], first, others);
      assert (srcs + rest)[..|srcs + rest| - 1] == srcs + rest[..|rest| - 1];
    } else {
      assert srcs + rest == srcs;
      SameAll(srcs, first + others);
    }
  }

  lemma {:induction false} SameAll(s: seq<Obj>, d: seq<Obj>)
    requires Paired(s, d, |s|)
    ensures SameMount(s, d) == |s|
  {
    if s != [] { SameAll(s[..|s| - 1], d); }
  }

  /** No other way to pair the same objects keeps more pairs on one mount. */
  lemma MoveIsBest(src: seq<Obj>, dst: seq<Obj>, srcs: seq<Obj>, dsts: seq<Obj>, s: seq<Obj>, d: seq<Obj>)
    requires multiset(srcs) == multiset(s) == multiset(src) && multiset(dsts) == multiset(d) == multiset(dst)
    requires SameMount(srcs, dsts) == |Mounts(src) * Mounts(dsts)|
    ensures SameMount(s, d) <= SameMount(srcs, dsts)
  {
    SharedBound(s, d);
    MountsPermuted(s, src);
    MountsPermuted(d, dsts);
  }

  // ---------------------------------------------------------------- getCopyObjs

  predicate OnMount(src: seq<Obj>, m: string) {
    exists i :: 0 <= i < |src| && src[i].mount == m
  }

  /** `o` is the first source on the mount. */
  predicate FirstOn(src: seq<Obj>, o: Obj, m: string) {
    exists i :: 0 <= i < |src| && src[i] == o && o.mount == m && forall h :: 0 <= h < i ==> src[h].mount != m
  }

  /** What a destination is to get: the first source on its mount, if there is one. */
  predicate WellServed(src: seq<Obj>, random: bool, s: Obj, d: Obj) {
    && s in src
    && (OnMount(src, d.mount) ==> FirstOn(src, s, d.mount))
    && (!OnMount(src, d.mount) && !random ==> s == src[0])
  }

  predicate AllServed(src: seq<Obj>, random: bool, srcs: seq<Obj>, dst: seq<Obj>) {
    |srcs| <= |dst| && forall j :: 0 <= j < |srcs| ==> WellServed(src, random, srcs[j], dst[j])
  }

  /** getCopyObjs, when every storage lookup succeeds. `dst` keeps its objects, and each gets
      the first source on its own mount when there is one; otherwise the first source of all,
      or a random one under the policies that balance reads. */
  method GetCopyObjs(dst: array<Obj>, src: seq<Obj>, random: bool) returns (srcs: seq<Obj>)
    requires Distinct(dst[..]) && src != []
    modifies dst
    ensures |srcs| == dst.Length && multiset(dst[..]) == multiset(old(dst[..]))
    ensures AllServed(src, random, srcs, dst[..])
  {
    ghost var all := multiset(dst[..]);
    var byMount, open := ByMount(dst[..]);
    OpenAll(dst[..], open);
    srcs := [];
    NoneServed(src, random, dst[..]);
    NonePlaced(dst[..], src, open);
    hide Distinct, Waiting, AllServed, Unwanted, OnMount, Placed;
    for i := 0 to |src|
      invariant Waiting(byMount, open) && Unwanted(src[..i], byMount)
      invariant |srcs| + |open| == dst.Length && AllServed(src, random, srcs, dst[..])
      invariant Placed(dst[..|srcs|], open, all)
    {
      var o := src[i];
      assert src[..i + 1] == src[..i] + [o];
      if o.mount in byMount {
        FirstHere(src, i, byMount);
        srcs, open := ServeMount(dst, src, random, srcs, open, o, byMount, all);
        StillUnwantedAll(src[..i], byMount, o);
        byMount := byMount - {o.mount};
      } else {
        OneUnwanted(src[..i], byMount, o);
      }
    }
    assert src[..|src|] == src;
    NotOnAny(src, byMount, open);
    srcs := ServeRest(dst, src, random, srcs, open, all);
    assert dst[..|srcs|] == dst[..];
    AllPlaced(dst[..], [], {}, all);
    assert dst[..] + [] == dst[..];
  }

  /** No source is on the mount of a destination that is still open. */
  lemma NotOnAny(src: seq<Obj>, byMount: map<string, seq<Obj>>, open: set<Obj>)
    requires Waiting(byMount, open) && Unwanted(src, byMount)
    ensures forall d :: d in open ==> !OnMount(src, d.mount)
  {
  }

  /** The loop over the destinations that no source shares a mount with. */
  method ServeRest(dst: array<Obj>, src: seq<Obj>, random: bool, srcs0: seq<Obj>, open0: set<Obj>, ghost all: multiset<Obj>)
    returns (srcs: seq<Obj>)
    requires src != [] && forall d :: d in open0 ==> !OnMount(src, d.mount)
    requires |srcs0| + |open0| == dst.Length && AllServed(src, random, srcs0, dst[..]) && Placed(dst[..|srcs0|], open0, all)
    modifies dst
    ensures |srcs| == dst.Length && AllServed(src, random, srcs, dst[..]) && Placed(dst[..|srcs|], {}, all)
  {
    hide AllServed, Placed, OnMount, FirstOn;
    var open := open0;
    srcs := srcs0;
    while open != {}
      invariant open <= open0 && |srcs| + |open| == dst.Length
      invariant AllServed(src, random, srcs, dst[..]) && Placed(dst[..|srcs|], open, all)
      decreases |open|
    {
      var d :| d in open;
      var k := 0;
      if random { k :| 0 <= k < |src|; }
      Give(dst, src, random, srcs, src[k], d, open, all);
      srcs := srcs + [src[k]];
      open := open - {d};
    }
  }

  /** The destination `d` is the next one and gets `o`. */
  method Give(dst: array<Obj>, ghost src: seq<Obj>, ghost random: bool, srcs: seq<Obj>, ghost o: Obj, d: Obj,
              ghost open: set<Obj>, ghost all: multiset<Obj>)
    requires AllServed(src, random, srcs, dst[..]) && WellServed(src, random, o, d)
    requires d in open && |srcs| + |open| == dst.Length && Placed(dst[..|srcs|], open, all)
    modifies dst
    ensures AllServed(src, random, srcs + [o], dst[..]) && Placed(dst[..|srcs + [o]|], open - {d}, all)
    ensures |srcs + [o]| + |open - {d}| == dst.Length
  {
    hide AllServed, WellServed, Placed;
    PlacedOne(dst[..|srcs|], open, all, d);
    ServedMore(src, random, srcs, dst[..], o, d);
    Place(dst, |srcs|, d);
  }

  /** All destinations on the mount of `o` get `o`. */
  method ServeMount(dst: array<Obj>, src: seq<Obj>, random: bool, srcs0: seq<Obj>, open0: set<Obj>, o: Obj,
                    byMount: map<string, seq<Obj>>, ghost all: multiset<Obj>) returns (srcs: seq<Obj>, open: set<Obj>)
    requires Waiting(byMount, open0) && o.mount in byMount && FirstOn(src, o, o.mount)
    requires |srcs0| + |open0| == dst.Length && AllServed(src, random, srcs0, dst[..]) && Placed(dst[..|srcs0|], open0, all)
    modifies dst
    ensures Waiting(byMount - {o.mount}, open)
    ensures |srcs| + |open| == dst.Length && AllServed(src, random, srcs, dst[..]) && Placed(dst[..|srcs|], open, all)
  {
    MountList(byMount, open0, o.mount);
    hide AllServed, FirstOn, Waiting, WellServed, Placed, Distinct, Left;
    var tmp := byMount[o.mount];
    NoneLeftOut(open0, tmp);
    srcs, open := srcs0, open0;
    for i := 0 to |tmp|
      invariant open == Left(open0, tmp, i)
      invariant |srcs| + |open| == dst.Length && AllServed(src, random, srcs, dst[..])
      invariant Placed(dst[..|srcs|], open, all)
    {
      OneLeftOut(open0, tmp, i);
      FirstServes(src, random, o, tmp[i]);
      Give(dst, src, random, srcs, o, tmp[i], open, all);
      open := open - {tmp[i]};
      srcs := srcs + [o];
    }
    ServedAll(byMount, open0, o.mount);
    AllLeftOut(open0, tmp);
  }

  /** The open destinations without the first `i` of a list. */
  ghost function Left(open: set<Obj>, tmp: seq<Obj>, i: nat): set<Obj>
    requires i <= |tmp|
  {
    open - set x | x in tmp[..i]
  }

  lemma NoneLeftOut(open: set<Obj>, tmp: seq<Obj>)
    ensures Left(open, tmp, 0) == open
  {
  }

  lemma OneLeftOut(open: set<Obj>, tmp: seq<Obj>, i: nat)
    requires Distinct(tmp) && i < |tmp| && tmp[i] in open
    ensures tmp[i] in Left(open, tmp, i) && Left(open, tmp, i + 1) == Left(open, tmp, i) - {tmp[i]}
  {
    assert tmp[..i + 1] == tmp[..i] + [tmp[i]];
    assert forall j :: 0 <= j < i ==> tmp[..i][j] == tmp[j] != tmp[i];
  }

  lemma AllLeftOut(open: set<Obj>, tmp: seq<Obj>)
    ensures Left(open, tmp, |tmp|) == open - set x | x in tmp
  {
    assert tmp[..|tmp|] == tmp;
  }

  lemma MountList(byMount: map<string, seq<Obj>>, open: set<Obj>, m: string)
    requires Waiting(byMount, open) && m in byMount
    ensures Distinct(byMount[m]) && forall i :: 0 <= i < |byMount[m]| ==> byMount[m][i] in open && byMount[m][i].mount == m
  {
  }

  lemma NoneServed(src: seq<Obj>, random: bool, dst: seq<Obj>)
    ensures AllServed(src, random, [], dst) && forall byMount :: Unwanted(src[..0], byMount)
  {
  }

  lemma ServedMore(src: seq<Obj>, random: bool, srcs: seq<Obj>, dst: seq<Obj>, o: Obj, d: Obj)
    requires AllServed(src, random, srcs, dst) && |srcs| < |dst| && WellServed(src, random, o, d)
    ensures AllServed(src, random, srcs + [o], dst[|srcs| := d])
  {
  }

  lemma FirstServes(src: seq<Obj>, random: bool, o: Obj, d: Obj)
    requires FirstOn(src, o, o.mount) && d.mount == o.mount
    ensures WellServed(src, random, o, d)
  {
  }

  lemma FirstHere(src: seq<Obj>, i: nat, byMount: map<string, seq<Obj>>)
    requires i < |src| && src[i].mount in byMount && Unwanted(src[..i], byMount)
    ensures FirstOn(src, src[i], src[i].mount)
  {
    assert forall h :: 0 <= h < i ==> src[..i][h] == src[h];
  }

  lemma StillUnwantedAll(rest: seq<Obj>, byMount: map<string, seq<Obj>>, o: Obj)
    requires Unwanted(rest, byMount)
    ensures Unwanted(rest + [o], byMount - {o.mount})
  {
  }
}
