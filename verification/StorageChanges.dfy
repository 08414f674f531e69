/** How each kind of change of the tree, with the patch made to the cache, keeps them in
    agreement. */
module StorageChanges {
  import opened StorageTree
  import opened DirectoryCaching

  /** `p` and everything below it is gone. */
  function Without(t: Tree, p: Path): Tree {
    map q | q in t && !(p <= q) :: t[q]
  }

  /** The subtree at `src` now (also) stands at `dst`; unless `keep`, it left its old place. */
  ghost predicate Grafted(t: Tree, t': Tree, src: Path, dst: Path, keep: bool) {
    && (forall q :: q in t' <==> if dst <= q then src + q[|dst|..] in t else q in t && (keep || !(src <= q)))
    && (forall q :: q in t' ==> t'[q] == if dst <= q then t[src + q[|dst|..]] else t[q])
  }

  /** When a driver can put the object at `src` at `dst`. */
  predicate CanGraft(t: Tree, src: Path, dst: Path, keep: bool) {
    && src in t && src != [] && dst != [] && Last(dst) != ""
    && IsDir(t, Parent(dst)) && dst !in t && (keep || !(src <= dst))
  }

  lemma {:induction false} PrefixInTree(t: Tree, p: Path, q: Path)
    requires WellFormed(t) && q in t && p <= q
    ensures p in t && (p != q ==> t[p].isDir)
    decreases |q|
  {
    if p != q {
      assert p <= Parent(q);
      PrefixInTree(t, p, Parent(q));
    }
  }

  lemma {:induction false} PrefixCached(view: View, p: Path, q: Path)
    requires ParentsCached(view) && q in view && p <= q
    ensures p in view
    decreases |q|
  {
    if p != q {
      assert p <= Parent(q);
      PrefixCached(view, p, Parent(q));
    }
  }

  lemma ChildPrefix(p: Path, q: Path, n: Name)
    ensures p <= q + [n] <==> p <= q || p == q + [n]
    ensures q + [n] != [] && Parent(q + [n]) == q && Last(q + [n]) == n
  {
  }

  lemma KindListed(t: Tree, view: View, q: Path)
    requires ListingsOk(t, view) && q != [] && q in t && Parent(q) in view
    ensures ListsKind(view[Parent(q)], Last(q), t[q].isDir)
  {
    assert Parent(q) + [Last(q)] == q;
    var i := FirstOf(view[Parent(q)], Last(q));
  }

  /** What agrees is what deleteDirectoryTree relies on. */
  lemma AgreesAnnounced(t: Tree, view: View, links: Links, p: Path)
    requires Agrees(t, view, links)
    ensures Announced(view, links, p)
  {
    hide WellFormed, ListingOk, ListsKind;
    forall q | q != [] && q in t && Parent(q) in view ensures ListsKind(view[Parent(q)], Last(q), t[q].isDir) {
      KindListed(t, view, q);
    }
  }

  lemma DropKeeps(t: Tree, view: View, links: Links, p: Path)
    requires Agrees(t, view, links)
    ensures Agrees(t, DropDirs(view, p), DropLinks(links, p))
  {
    hide WellFormed, ListingOk;
    forall q | q in view && q != [] && p <= Parent(q) ensures p <= q {
    }
    forall l | l in links && p <= Parent(l) ensures Below(p, l) {
    }
  }

  /** Below a directory whose parent is not cached nothing is cached. */
  lemma NothingCached(t: Tree, view: View, links: Links, p: Path)
    requires Agrees(t, view, links) && p != [] && Parent(p) !in view
    ensures DropDirs(view, p) == view && DropLinks(links, p) == links && p !in links
  {
    hide ListingsOk, WellFormed;
    forall q | q in view ensures !(p <= q) {
      if p <= q { PrefixCached(view, Parent(p), q); }
    }
    assert forall l :: l in links && Below(p, l) ==> p <= Parent(l);
  }

  lemma NoDirBelow(t: Tree, view: View, p: Path, q: Path)
    requires WellFormed(t) && ListingsOk(t, view) && !IsDir(t, p) && q in view
    ensures !(p <= q)
  {
    hide WellFormed, ListingOk;
    if p <= q { PrefixInTree(t, p, q); }
  }

  lemma NotCached(t: Tree, view: View, links: Links, p: Path)
    requires Agrees(t, view, links) && !IsDir(t, p)
    ensures DropDirs(view, p) == view && DropLinks(links, p) == links
  {
    hide WellFormed, ListingsOk;
    forall q | q in view ensures !(p <= q) {
      NoDirBelow(t, view, p, q);
    }
    assert forall l :: l in links && Below(p, l) ==> p <= Parent(l);
  }

  // ---------------------------------------------------------------- a listing is fetched

  lemma SetKeeps(t: Tree, view: View, links: Links, p: Path, objs: seq<Obj>)
    requires Agrees(t, view, links) && IsDir(t, p) && ListingOk(t, p, objs)
    requires p != [] ==> Parent(p) in view
    ensures Agrees(t, view[p := objs], links)
  {
  }

  lemma LinkKeeps(t: Tree, view: View, links: Links, p: Path)
    requires Agrees(t, view, links) && p != [] && p in t && !t[p].isDir && Parent(p) in view
    ensures Agrees(t, view, links[p := t[p].version])
  {
  }

  // ---------------------------------------------------------------- one object

  function Patch(view: View, dir: Path, oldName: Name, o: Obj): View {
    if dir in view then view[dir := UpdateName(view[dir], oldName, o)] else view
  }

  function Unlist(view: View, dir: Path, name: Name): View {
    if dir in view then view[dir := RemoveName(view[dir], name)] else view
  }

  /** A new object, or a file written over a file. */
  lemma WriteWellFormed(t: Tree, p: Path, node: Node)
    requires WellFormed(t) && p != [] && IsDir(t, Parent(p)) && Last(p) != ""
    requires p in t ==> !t[p].isDir && !node.isDir
    ensures WellFormed(t[p := node])
  {
    forall q | q in t && q != [] ensures IsDir(t, Parent(q)) && Parent(q) != p {
    }
  }

  lemma WriteListings(t: Tree, view: View, p: Path, node: Node, oldName: Name, o: Obj)
    requires ListingsOk(t, view) && p != [] && IsDir(t, Parent(p)) && Last(p) != ""
    requires p in t ==> !t[p].isDir && !node.isDir && oldName == Last(p)
    requires o.name == Last(p) && Matches(o, node) && (oldName == "" || oldName == o.name)
    ensures ListingsOk(t[p := node], Patch(view, Parent(p), oldName, o))
  {
    hide ListingOk;
    var t', dir := t[p := node], Parent(p);
    assert dir + [o.name] == p;
    forall q | q in view && q != dir ensures ListingOk(t', q, view[q]) {
      forall n: Name ensures q + [n] != p {
        ChildPrefix(p, q, n);
      }
      ListingSame(t, t', q, view[q]);
    }
    if dir in view {
      if p in t {
        ListingReplace(t, t', dir, view[dir], oldName, o);
      } else {
        ListingAdd(t, t', dir, view[dir], oldName, o);
      }
    }
  }

  lemma WriteKeeps(t: Tree, view: View, links: Links, p: Path, node: Node, oldName: Name, o: Obj)
    requires Agrees(t, view, links) && p != [] && IsDir(t, Parent(p)) && Last(p) != ""
    requires p in t ==> !t[p].isDir && !node.isDir && oldName == Last(p)
    requires o.name == Last(p) && Matches(o, node) && (oldName == "" || oldName == o.name)
    ensures Agrees(t[p := node], Patch(view, Parent(p), oldName, o), links - {p})
  {
    hide WellFormed, ListingsOk, Matches;
    WriteWellFormed(t, p, node);
    WriteListings(t, view, p, node, oldName, o);
  }

  // ---------------------------------------------------------------- a subtree goes away

  lemma WithoutWellFormed(t: Tree, p: Path)
    requires WellFormed(t) && p != []
    ensures WellFormed(Without(t, p))
  {
    forall q | q in t && q != [] && p <= Parent(q) ensures p <= q {
    }
  }

  lemma WithoutListings(t: Tree, view: View, p: Path)
    requires ListingsOk(t, view) && p != []
    ensures ListingsOk(Without(t, p), Unlist(DropDirs(view, p), Parent(p), Last(p)))
  {
    hide ListingOk;
    var t', dir := Without(t, p), Parent(p);
    assert dir + [Last(p)] == p;
    forall q | q in view && !(p <= q) && q != dir ensures ListingOk(t', q, view[q]) {
      forall n: Name ensures !(p <= q + [n]) {
        ChildPrefix(p, q, n);
      }
      ListingSame(t, t', q, view[q]);
    }
    if dir in view {
      ListingRemove(t, t', dir, view[dir], Last(p));
    }
  }

  lemma WithoutKeeps(t: Tree, view: View, links: Links, p: Path)
    requires Agrees(t, view, links) && p != []
    ensures Agrees(Without(t, p), Unlist(DropDirs(view, p), Parent(p), Last(p)), DropLinks(links, p) - {p})
  {
    DropKeeps(t, view, links, p);
    WithoutWellFormed(t, p);
    WithoutListings(t, view, p);
    hide WellFormed, ListingsOk;
  }

  // ---------------------------------------------------------------- a subtree is moved or copied

  /** What a graft makes of one path. */
  lemma GraftedAt(t: Tree, t': Tree, src: Path, dst: Path, keep: bool, q: Path)
    requires Grafted(t, t', src, dst, keep)
    ensures q in t' <==> if dst <= q then src + q[|dst|..] in t else q in t && (keep || !(src <= q))
    ensures q in t' ==> t'[q] == if dst <= q then t[src + q[|dst|..]] else t[q]
  {
  }

  lemma ParentThere(t: Tree, q: Path)
    requires WellFormed(t) && q in t && q != []
    ensures IsDir(t, Parent(q)) && Last(q) != ""
  {
  }

  lemma GraftedParent(t: Tree, t': Tree, src: Path, dst: Path, keep: bool, q: Path)
    requires WellFormed(t) && CanGraft(t, src, dst, keep) && Grafted(t, t', src, dst, keep)
    requires q in t' && q != []
    ensures IsDir(t', Parent(q)) && Last(q) != ""
  {
    hide WellFormed, Grafted;
    GraftedAt(t, t', src, dst, keep, q);
    GraftedAt(t, t', src, dst, keep, Parent(q));
    assert Parent(q) + [Last(q)] == q;
    ChildPrefix(dst, Parent(q), Last(q));
    ChildPrefix(src, Parent(q), Last(q));
    if q != dst {
      if dst <= q {
        var o := src + q[|dst|..];
        assert Parent(o) == src + Parent(q)[|dst|..] && Last(o) == Last(q);
        ParentThere(t, o);
      } else {
        ParentThere(t, q);
      }
    }
  }

  lemma GraftWellFormed(t: Tree, t': Tree, src: Path, dst: Path, keep: bool)
    requires WellFormed(t) && CanGraft(t, src, dst, keep) && Grafted(t, t', src, dst, keep)
    ensures WellFormed(t')
  {
    assert [] in t';
    forall q | q in t' && q != [] ensures IsDir(t', Parent(q)) && Last(q) != "" {
      GraftedParent(t, t', src, dst, keep, q);
    }
  }

  /** Nothing stood at the destination before. */
  lemma NothingThere(t: Tree, dst: Path, q: Path)
    requires WellFormed(t) && dst !in t && q in t
    ensures !(dst <= q)
  {
    if dst <= q { PrefixInTree(t, dst, q); }
  }

  /** Away from both ends a directory keeps its children. */
  lemma GraftElsewhere(t: Tree, t': Tree, src: Path, dst: Path, keep: bool, q: Path, n: Name)
    requires WellFormed(t) && CanGraft(t, src, dst, keep) && Grafted(t, t', src, dst, keep)
    requires q in t && (keep || !(src <= q)) && q + [n] != dst && (keep || q + [n] != src)
    ensures q + [n] in t <==> q + [n] in t'
    ensures q + [n] in t' ==> t'[q + [n]] == t[q + [n]]
    ensures q in t' && t'[q] == t[q]
  {
    NothingThere(t, dst, q);
    ChildPrefix(dst, q, n);
    ChildPrefix(src, q, n);
  }

  lemma GraftKeeps(t: Tree, t': Tree, src: Path, dst: Path, keep: bool, q: Path)
    requires WellFormed(t) && CanGraft(t, src, dst, keep) && Grafted(t, t', src, dst, keep)
    requires q in t && (keep || !(src <= q))
    ensures q in t' && t'[q] == t[q]
  {
    NothingThere(t, dst, q);
  }

  lemma GraftEnds(t: Tree, t': Tree, src: Path, dst: Path, keep: bool)
    requires WellFormed(t) && CanGraft(t, src, dst, keep) && Grafted(t, t', src, dst, keep)
    ensures dst in t' && t'[dst] == t[src] && (!keep ==> src !in t')
  {
    NothingThere(t, dst, src);
    assert src + dst[|dst|..] == src;
  }

  /** All children of a directory but one are as before. */
  lemma GraftSiblings(t: Tree, t': Tree, src: Path, dst: Path, keep: bool, dir: Path, name: Name)
    requires WellFormed(t) && CanGraft(t, src, dst, keep) && Grafted(t, t', src, dst, keep)
    requires dir in t && (keep || !(src <= dir))
    requires dir == Parent(dst) ==> name == Last(dst)
    requires !keep && dir == Parent(src) ==> name == Last(src)
    ensures forall n: Name :: n != name ==> (dir + [n] in t <==> dir + [n] in t')
    ensures forall n: Name :: n != name && dir + [n] in t ==> t'[dir + [n]] == t[dir + [n]]
  {
    hide WellFormed, Grafted;
    forall n: Name | n != name
      ensures (dir + [n] in t <==> dir + [n] in t') && (dir + [n] in t ==> t'[dir + [n]] == t[dir + [n]])
    {
      assert Parent(dir + [n]) == dir && Last(dir + [n]) == n;
      GraftElsewhere(t, t', src, dst, keep, dir, n);
    }
  }

  lemma GraftListing(t: Tree, t': Tree, src: Path, dst: Path, keep: bool, q: Path, objs: seq<Obj>)
    requires WellFormed(t) && CanGraft(t, src, dst, keep) && Grafted(t, t', src, dst, keep)
    requires q in t && (keep || (!(src <= q) && q != Parent(src))) && q != Parent(dst) && ListingOk(t, q, objs)
    ensures ListingOk(t', q, objs)
  {
    hide WellFormed, Grafted;
    GraftSiblings(t, t', src, dst, keep, q, "a");
    GraftSiblings(t, t', src, dst, keep, q, "b");
    ListingSame(t, t', q, objs);
  }

  lemma MovedAway(t: Tree, t': Tree, src: Path, dst: Path, objs: seq<Obj>)
    requires WellFormed(t) && CanGraft(t, src, dst, false) && Grafted(t, t', src, dst, false)
    requires Parent(src) in t && Parent(src) != Parent(dst) && ListingOk(t, Parent(src), objs)
    ensures ListingOk(t', Parent(src), RemoveName(objs, Last(src)))
  {
    hide WellFormed, Grafted, ListingOk;
    assert Parent(src) + [Last(src)] == src;
    GraftEnds(t, t', src, dst, false);
    GraftSiblings(t, t', src, dst, false, Parent(src), Last(src));
    ListingRemove(t, t', Parent(src), objs, Last(src));
  }

  lemma GraftedHere(t: Tree, t': Tree, src: Path, dst: Path, keep: bool, objs: seq<Obj>, oldName: Name, o: Obj)
    requires WellFormed(t) && CanGraft(t, src, dst, keep) && Grafted(t, t', src, dst, keep)
    requires (keep || Parent(src) != Parent(dst)) && ListingOk(t, Parent(dst), objs)
    requires Last(dst) == o.name == oldName && Matches(o, t[src])
    ensures ListingOk(t', Parent(dst), UpdateName(objs, oldName, o))
  {
    hide WellFormed, Grafted, ListingOk;
    assert Parent(dst) + [Last(dst)] == dst;
    ChildPrefix(src, Parent(dst), Last(dst));
    GraftEnds(t, t', src, dst, keep);
    GraftSiblings(t, t', src, dst, keep, Parent(dst), Last(dst));
    ListingAdd(t, t', Parent(dst), objs, oldName, o);
  }

  lemma RenamedHere(t: Tree, t': Tree, src: Path, dst: Path, objs: seq<Obj>, o: Obj)
    requires WellFormed(t) && CanGraft(t, src, dst, false) && Grafted(t, t', src, dst, false)
    requires Parent(src) == Parent(dst) && ListingOk(t, Parent(src), objs)
    requires Last(dst) == o.name && Matches(o, t[src])
    ensures ListingOk(t', Parent(dst), UpdateName(objs, Last(src), o))
  {
    hide WellFormed, ListingOk;
    var dir := Parent(src);
    assert dir + [Last(dst)] == dst && dir + [Last(src)] == src;
    GraftEnds(t, t', src, dst, false);
    forall n: Name | n != Last(dst) && n != Last(src)
      ensures (dir + [n] in t <==> dir + [n] in t') && (dir + [n] in t ==> t'[dir + [n]] == t[dir + [n]])
    {
      assert Last(dir + [n]) == n;
      GraftElsewhere(t, t', src, dst, false, dir, n);
    }
    NameThere(t, src);
    ListingReplace(t, t', dir, objs, Last(src), o);
  }

  lemma NameThere(t: Tree, p: Path)
    requires WellFormed(t) && p in t && p != []
    ensures Last(p) != ""
  {
  }

  // The patches the operations make to the listings.

  function MovePatch(view: View, src: Path, dst: Path, o: Obj): View
    requires src != [] && dst != []
  {
    Patch(Unlist(DropDirs(view, src), Parent(src), Last(src)), Parent(dst), Last(src), o)
  }

  function RenamePatch(view: View, src: Path, o: Obj): View
    requires src != []
  {
    Patch(DropDirs(view, src), Parent(src), Last(src), o)
  }

  lemma MoveListings(t: Tree, t': Tree, src: Path, dst: Path, view: View, o: Obj)
    requires WellFormed(t) && CanGraft(t, src, dst, false) && Grafted(t, t', src, dst, false)
    requires ListingsOk(t, view) && Parent(src) != Parent(dst) && Last(dst) == Last(src) == o.name && Matches(o, t[src])
    ensures ListingsOk(t', MovePatch(view, src, dst, o))
  {
    hide WellFormed, ListingOk, Grafted;
    var view1 := DropDirs(view, src);
    forall q | q in view1 ensures IsDir(t', q) {
      GraftKeeps(t, t', src, dst, false, q);
    }
    forall q | q in view1 && q != Parent(dst) && q != Parent(src) ensures ListingOk(t', q, view[q]) {
      GraftListing(t, t', src, dst, false, q, view[q]);
    }
    if Parent(src) in view1 { MovedAway(t, t', src, dst, view[Parent(src)]); }
    if Parent(dst) in view1 { GraftedHere(t, t', src, dst, false, view[Parent(dst)], Last(src), o); }
  }

  lemma MoveKeeps(t: Tree, t': Tree, src: Path, dst: Path, view: View, links: Links, o: Obj)
    requires Agrees(t, view, links) && CanGraft(t, src, dst, false) && Grafted(t, t', src, dst, false)
    requires Parent(src) != Parent(dst) && Last(dst) == Last(src) == o.name && Matches(o, t[src])
    ensures Agrees(t', MovePatch(view, src, dst, o), DropLinks(links, src) - {src})
  {
    hide WellFormed, ListingsOk, Grafted;
    DropKeeps(t, view, links, src);
    GraftWellFormed(t, t', src, dst, false);
    MoveListings(t, t', src, dst, view, o);
    GraftLinks(t, t', src, dst, false, DropDirs(view, src), DropLinks(links, src) - {src});
  }

  lemma RenameKeeps(t: Tree, t': Tree, src: Path, dst: Path, view: View, links: Links, o: Obj)
    requires Agrees(t, view, links) && CanGraft(t, src, dst, false) && Grafted(t, t', src, dst, false)
    requires Parent(src) == Parent(dst) && Last(dst) == o.name && Matches(o, t[src])
    ensures Agrees(t', RenamePatch(view, src, o), DropLinks(links, src) - {src})
  {
    hide WellFormed, ListingOk, Grafted;
    DropKeeps(t, view, links, src);
    GraftWellFormed(t, t', src, dst, false);
    var view1 := DropDirs(view, src);
    forall q | q in view1 ensures IsDir(t', q) {
      GraftKeeps(t, t', src, dst, false, q);
    }
    forall q | q in view1 && q != Parent(dst) ensures ListingOk(t', q, view[q]) {
      GraftListing(t, t', src, dst, false, q, view[q]);
    }
    if Parent(dst) in view1 { RenamedHere(t, t', src, dst, view[Parent(dst)], o); }
    GraftLinks(t, t', src, dst, false, view1, DropLinks(links, src) - {src});
  }

  lemma CopyKeeps(t: Tree, t': Tree, src: Path, dst: Path, view: View, links: Links, o: Obj)
    requires Agrees(t, view, links) && CanGraft(t, src, dst, true) && Grafted(t, t', src, dst, true)
    requires Last(dst) == Last(src) == o.name && Matches(o, t[src])
    ensures Agrees(t', Patch(view, Parent(dst), Last(src), o), links)
  {
    hide WellFormed, ListingOk, Grafted;
    GraftWellFormed(t, t', src, dst, true);
    forall q | q in view ensures IsDir(t', q) {
      GraftKeeps(t, t', src, dst, true, q);
    }
    forall q | q in view && q != Parent(dst) ensures ListingOk(t', q, view[q]) {
      GraftListing(t, t', src, dst, true, q, view[q]);
    }
    if Parent(dst) in view { GraftedHere(t, t', src, dst, true, view[Parent(dst)], Last(src), o); }
    GraftLinks(t, t', src, dst, true, view, links);
  }

  lemma GraftLinks(t: Tree, t': Tree, src: Path, dst: Path, keep: bool, view: View, links: Links)
    requires WellFormed(t) && CanGraft(t, src, dst, keep) && Grafted(t, t', src, dst, keep)
    requires LinksCached(t, view, links) && (keep || forall l :: l in links ==> !(src <= l))
    ensures LinksCached(t', view, links)
  {
    forall l | l in links ensures l in t' && t'[l] == t[l] {
      GraftKeeps(t, t', src, dst, keep, l);
    }
  }

  // ---------------------------------------------------------------- several changes in a row

  /** Only directories on the way to `path` were added. */
  ghost predicate OnlyDirsAdded(t: Tree, t': Tree, path: Path) {
    && (forall q :: q in t ==> q in t' && t'[q] == t[q])
    && (forall q :: q in t' && q !in t ==> q <= path && t'[q].isDir)
  }

  /** Away from `dst` and `temp` only directories on the way to `dst` were added. */
  ghost predicate Outside(t: Tree, t': Tree, dst: Path, temp: Path) {
    forall q :: !(dst <= q) && !(temp <= q) ==>
      && (q in t ==> q in t' && t'[q] == t[q])
      && (q in t' && q !in t ==> q <= dst && t'[q].isDir)
  }

  /** Nothing but `dst` was written, and only directories on the way to it were added. */
  ghost predicate WrittenAt(t: Tree, t': Tree, dst: Path) {
    && (forall q :: q in t && q != dst ==> q in t' && t'[q] == t[q])
    && (forall q :: q in t' && q !in t && q != dst ==> q <= dst && t'[q].isDir)
  }

  lemma DirsThenFile(t: Tree, t1: Tree, t': Tree, dir: Path, name: Name)
    requires OnlyDirsAdded(t, t1, dir)
    requires t' == t1 || (dir + [name] in t' && t' == t1[dir + [name] := t'[dir + [name]]])
    ensures WrittenAt(t, t', dir + [name])
  {
    forall q | q in t' && q !in t && q != dir + [name] ensures q <= dir + [name] {
      assert q <= dir;
    }
  }

  lemma OutsideTrans(t: Tree, t1: Tree, t': Tree, dst: Path, temp: Path)
    requires Outside(t, t1, dst, temp) && Outside(t1, t', dst, temp)
    ensures Outside(t, t', dst, temp)
  {
  }

  lemma WithoutOutside(t: Tree, dst: Path, temp: Path)
    ensures Outside(t, Without(t, dst), dst, temp) && Outside(t, Without(t, temp), dst, temp)
  {
  }

  lemma GraftOutside(t: Tree, t': Tree, dst: Path, temp: Path)
    requires Grafted(t, t', dst, temp, false) || Grafted(t, t', temp, dst, false)
    ensures Outside(t, t', dst, temp)
  {
  }

  lemma DirsOutside(t: Tree, t': Tree, dir: Path, name: Name, temp: Path)
    requires OnlyDirsAdded(t, t', dir)
    ensures Outside(t, t', dir + [name], temp)
  {
  }

  lemma NoDirsNeeded(t: Tree, t': Tree, dir: Path)
    requires WellFormed(t) && OnlyDirsAdded(t, t', dir) && dir in t
    ensures t' == t
  {
    forall q | q in t' ensures q in t {
      if q <= dir { PrefixInTree(t, q, dir); }
    }
  }

  /** Moving there and back changes nothing. */
  lemma GraftBackAt(t: Tree, t1: Tree, t': Tree, a: Path, b: Path, q: Path)
    requires WellFormed(t) && CanGraft(t, a, b, false) && Grafted(t, t1, a, b, false) && Grafted(t1, t', b, a, false)
    ensures q in t' <==> q in t
    ensures q in t ==> t'[q] == t[q]
  {
    if a <= q {
      var r := b + q[|a|..];
      assert b <= r && r[|b|..] == q[|a|..] && a + q[|a|..] == q;
    } else if b <= q && q in t {
      NothingThere(t, b, q);
    }
  }

  lemma GraftBack(t: Tree, t1: Tree, t': Tree, a: Path, b: Path)
    requires WellFormed(t) && CanGraft(t, a, b, false) && Grafted(t, t1, a, b, false) && Grafted(t1, t', b, a, false)
    ensures t' == t
  {
    hide WellFormed, Grafted;
    forall q: Path ensures (q in t' <==> q in t) && (q in t ==> t'[q] == t[q]) {
      GraftBackAt(t, t1, t', a, b, q);
    }
  }

  /** How Put makes room for a new file: nothing, a removal, or a step aside. */
  ghost predicate RoomMade(t: Tree, t': Tree, dst: Path, temp: Path, aside: bool) {
    if dst !in t then t' == t
    else if t[dst].size == 0 then t' == Without(t, dst)
    else if aside then CanGraft(t, dst, temp, false) && Grafted(t, t', dst, temp, false)
    else t' == t
  }

  /** An empty object is gone before the file is written. */
  lemma ReplacedEmpty(t: Tree, t1: Tree, t': Tree, dst: Path, file: Node)
    requires t1 == Without(t, dst) && t' == t1[dst := file]
    ensures t' == Without(t, dst)[dst := file]
  {
  }

  /** A file is written over. */
  lemma ReplacedOver(t: Tree, t': Tree, dst: Path, file: Node)
    requires WellFormed(t) && dst in t && !t[dst].isDir && t' == t[dst := file]
    ensures t' == Without(t, dst)[dst := file]
  {
    hide WellFormed;
    forall q | q in t && q != dst ensures !(dst <= q) {
      if dst <= q { PrefixInTree(t, dst, q); }
    }
  }

  /** An object has stepped aside and is removed after the file is written. */
  lemma ReplacedAside(t: Tree, t1: Tree, t': Tree, dst: Path, temp: Path, file: Node)
    requires WellFormed(t) && CanGraft(t, dst, temp, false) && Grafted(t, t1, dst, temp, false)
    requires !(temp <= dst) && t' == Without(t1[dst := file], temp)
    ensures t' == Without(t, dst)[dst := file]
  {
    hide WellFormed, Grafted;
    var was := Without(t, dst)[dst := file];
    forall q: Path ensures (q in t' <==> q in was) && (q in t' ==> t'[q] == was[q]) {
      GraftedAt(t, t1, dst, temp, false, q);
      if q in t { NothingThere(t, temp, q); }
    }
  }

  /** After room is made, the file written and the old object gone, the tree is the old one
      with that object replaced. */
  lemma Replaced(t: Tree, t1: Tree, t': Tree, dst: Path, temp: Path, aside: bool, file: Node)
    requires WellFormed(t) && dst in t && RoomMade(t, t1, dst, temp, aside) && !file.isDir
    requires dst in t1 ==> !t1[dst].isDir
    requires !(temp <= dst)
    requires t' == if aside && t[dst].size > 0 then Without(t1[dst := file], temp) else t1[dst := file]
    ensures t' == Without(t, dst)[dst := file]
  {
    hide WellFormed, Without, Grafted, CanGraft;
    if t[dst].size == 0 {
      ReplacedEmpty(t, t1, t', dst, file);
    } else if aside {
      ReplacedAside(t, t1, t', dst, temp, file);
    } else {
      ReplacedOver(t, t', dst, file);
    }
  }

  lemma NoFileOnWay(t: Tree, path: Path, q: Path)
    requires WellFormed(t) && IsDir(t, path) && q <= path
    ensures IsDir(t, q)
  {
    PrefixInTree(t, q, path);
  }

  lemma KeepsDir(t: Tree, t': Tree, dir: Path, name: Name, temp: Path)
    requires WellFormed(t) && dir + [name] in t && |temp| == |dir| + 1 && Outside(t, t', dir + [name], temp)
    ensures IsDir(t', dir)
  {
    assert Parent(dir + [name]) == dir;
  }

  lemma WithoutKeepsOther(t: Tree, p: Path, q: Path)
    requires !(p <= q) && q in t
    ensures q in Without(t, p) && Without(t, p)[q] == t[q]
  {
  }
}
