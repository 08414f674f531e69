/** The caches of internal/op/cache.go: a listing that is edited in place, and the manager
    that drops whole subtrees by walking the cached listings. */
module DirectoryCaching {
  import opened Basics
  import opened StorageTree

  class DirectoryCache {
    var objs: seq<Obj>
    var sorted: seq<Obj>
    var dirtyRemove: bool
    var dirtyUpdate: bool

    /** While nothing is dirty the sorted copy has the same objects. */
    ghost predicate Valid()
      reads this
    {
      !dirtyRemove && !dirtyUpdate ==> multiset(sorted) == multiset(objs)
    }

    constructor (files: seq<Obj>)
      ensures Valid() && objs == files
    {
      objs, sorted, dirtyRemove, dirtyUpdate := files, files, false, false;
    }

    method RemoveObject(name: Name)
      requires Valid()
      modifies this
      ensures Valid() && objs == RemoveName(old(objs), name)
    {
      for i := 0 to |objs|
        invariant objs == old(objs) && Valid() && forall j :: 0 <= j < i ==> objs[j].name != name
      {
        if objs[i].name == name {
          RemoveNameAt(objs, name, i);
          objs := objs[..i] + objs[i + 1..];
          dirtyRemove := true;
          return;
        }
      }
      RemoveNameAbsent(objs, name);
    }

    method UpdateObject(oldName: Name, newObj: Obj)
      requires Valid()
      modifies this
      ensures Valid() && objs == UpdateName(old(objs), oldName, newObj)
    {
      if oldName != "" {
        for i := 0 to |objs|
          invariant objs == old(objs) && Valid() && forall j :: 0 <= j < i ==> objs[j].name != oldName
        {
          if objs[i].name == oldName {
            UpdateNameAt(objs, oldName, newObj, i);
            objs := objs[i := newObj];
            dirtyUpdate := true;
            return;
          }
        }
      }
      UpdateNameAbsent(objs, oldName, newObj);
      objs := objs + [newObj];
      dirtyUpdate := true;
    }

    /** After an update the fresh copy is put in order; which one is left open. */
    method GetSortedObjects() returns (r: seq<Obj>)
      requires Valid()
      modifies this
      ensures Valid() && objs == old(objs) && multiset(r) == multiset(objs)
    {
      if !dirtyRemove && !dirtyUpdate { return sorted; }
      sorted := objs;
      if dirtyUpdate {
        sorted := SortFiles(sorted);
      }
      dirtyRemove, dirtyUpdate := false, false;
      return sorted;
    }
  }

  /** SortFiles and ExtractFolder: some permutation. */
  method SortFiles(objs: seq<Obj>) returns (r: seq<Obj>)
    ensures multiset(r) == multiset(objs)
  {
    assert multiset(objs) == multiset(objs);
    r :| multiset(r) == multiset(objs);
  }

  // ---------------------------------------------------------------- subtrees

  /** Properly below. */
  predicate Below(p: Path, q: Path) {
    p <= q && p != q
  }

  function DropDirs(view: View, p: Path): View {
    map q | q in view && !(p <= q) :: view[q]
  }

  function DropLinks(links: Links, p: Path): Links {
    map l | l in links && !Below(p, l) :: links[l]
  }

  predicate ListsKind(objs: seq<Obj>, n: Name, isDir: bool) {
    exists i :: 0 <= i < |objs| && objs[i].name == n && objs[i].isDir == isDir
  }

  /** Below `p`, everything cached is announced by the listing of its parent. */
  ghost predicate Announced(view: View, links: Links, p: Path) {
    && (forall q :: q in view && Below(p, q) ==> Parent(q) in view && ListsKind(view[Parent(q)], Last(q), true))
    && (forall l :: l in links && Below(p, l) ==> Parent(l) in view && ListsKind(view[Parent(l)], Last(l), false))
  }

  /** The child of `p` on the way to `q`. */
  function Toward(p: Path, q: Path): Path
    requires Below(p, q)
  {
    q[..|p| + 1]
  }

  lemma {:induction false} WayIsCached(view: View, links: Links, p: Path, q: Path)
    requires Announced(view, links, p) && Below(p, q) && q in view
    ensures p in view && Toward(p, q) in view && ListsKind(view[p], q[|p|], true)
    decreases |q|
  {
    if |q| == |p| + 1 {
      assert Parent(q) == p && Toward(p, q) == q;
    } else {
      assert Below(p, Parent(q)) && Toward(p, Parent(q)) == Toward(p, q);
      WayIsCached(view, links, p, Parent(q));
    }
  }

  /** What the walk over the first `i` objects of a popped listing has dropped. */
  predicate Walked(objs: seq<Obj>, i: nat, p: Path, q: Path)
    requires i <= |objs|
  {
    exists j :: 0 <= j < i && objs[j].isDir && p + [objs[j].name] <= q
  }

  predicate WalkedLink(objs: seq<Obj>, i: nat, p: Path, l: Path)
    requires i <= |objs|
  {
    exists j :: 0 <= j < i && if objs[j].isDir then Below(p + [objs[j].name], l) else l == p + [objs[j].name]
  }

  function LeftDirs(view: View, objs: seq<Obj>, i: nat, p: Path): View
    requires i <= |objs|
  {
    map q | q in view && q != p && !Walked(objs, i, p, q) :: view[q]
  }

  function LeftLinks(links: Links, objs: seq<Obj>, i: nat, p: Path): Links
    requires i <= |objs|
  {
    map l | l in links && !WalkedLink(objs, i, p, l) :: links[l]
  }

  lemma WalkStart(view: View, links: Links, p: Path)
    requires p in view
    ensures LeftDirs(view, view[p], 0, p) == view - {p} && LeftLinks(links, view[p], 0, p) == links
  {
  }

  /** One object further, for a directory. */
  lemma WalkDir(view: View, links: Links, objs: seq<Obj>, i: nat, p: Path)
    requires i < |objs|
    ensures objs[i].isDir ==> DropDirs(LeftDirs(view, objs, i, p), p + [objs[i].name]) == LeftDirs(view, objs, i + 1, p)
    ensures objs[i].isDir ==> DropLinks(LeftLinks(links, objs, i, p), p + [objs[i].name]) == LeftLinks(links, objs, i + 1, p)
  {
  }

  lemma WalkFile(view: View, links: Links, objs: seq<Obj>, i: nat, p: Path)
    requires i < |objs|
    ensures !objs[i].isDir ==> LeftDirs(view, objs, i, p) == LeftDirs(view, objs, i + 1, p)
    ensures !objs[i].isDir ==> LeftLinks(links, objs, i, p) - {p + [objs[i].name]} == LeftLinks(links, objs, i + 1, p)
  {
  }

  /** Dropping a directory drops what is in it. */
  lemma WalkedOn(objs: seq<Obj>, i: nat, p: Path, q: Path)
    requires i <= |objs| && q != []
    ensures Walked(objs, i, p, Parent(q)) ==> Walked(objs, i, p, q) && WalkedLink(objs, i, p, q)
  {
    if j :| 0 <= j < i && objs[j].isDir && p + [objs[j].name] <= Parent(q) {
      assert p + [objs[j].name] <= q && Below(p + [objs[j].name], q);
    }
  }

  /** Each child's part of the subtree is still announced during the walk. */
  lemma StillAnnounced(view: View, links: Links, i: nat, p: Path)
    requires p in view && i < |view[p]| && Announced(view, links, p)
    ensures Announced(LeftDirs(view, view[p], i, p), LeftLinks(links, view[p], i, p), p + [view[p][i].name])
  {
    var objs, c := view[p], p + [view[p][i].name];
    var view', links' := LeftDirs(view, objs, i, p), LeftLinks(links, objs, i, p);
    forall q | q in view' && Below(c, q) ensures Parent(q) in view' {
      assert Below(p, q) && c <= Parent(q);
      WalkedOn(objs, i, p, q);
    }
    forall l | l in links' && Below(c, l) ensures Parent(l) in view' {
      assert Below(p, l) && c <= Parent(l);
      WalkedOn(objs, i, p, l);
    }
  }

  /** The whole walk drops everything below. */
  lemma WalkEnd(view: View, links: Links, p: Path)
    requires p in view && Announced(view, links, p)
    ensures LeftDirs(view, view[p], |view[p]|, p) == DropDirs(view, p)
    ensures LeftLinks(links, view[p], |view[p]|, p) == DropLinks(links, p)
  {
    var objs := view[p];
    forall q | q in view && q != p ensures Walked(objs, |objs|, p, q) <==> p <= q {
      if p <= q { WalkReaches(view, links, p, q); }
    }
    forall l | l in links ensures WalkedLink(objs, |objs|, p, l) <==> Below(p, l) {
      if Below(p, l) { WalkReachesLink(view, links, p, l); }
    }
  }

  lemma WalkReaches(view: View, links: Links, p: Path, q: Path)
    requires p in view && Announced(view, links, p) && q in view && Below(p, q)
    ensures Walked(view[p], |view[p]|, p, q)
  {
    WayIsCached(view, links, p, q);
    var j :| 0 <= j < |view[p]| && view[p][j].name == q[|p|] && view[p][j].isDir;
    assert p + [view[p][j].name] == Toward(p, q);
  }

  lemma WalkReachesLink(view: View, links: Links, p: Path, l: Path)
    requires p in view && Announced(view, links, p) && l in links && Below(p, l)
    ensures WalkedLink(view[p], |view[p]|, p, l)
  {
    if |l| == |p| + 1 {
      assert Parent(l) == p;
      var j :| 0 <= j < |view[p]| && view[p][j].name == Last(l) && !view[p][j].isDir;
      assert p + [view[p][j].name] == l;
    } else {
      assert Below(p, Parent(l)) && Toward(p, Parent(l)) == Toward(p, l);
      WayIsCached(view, links, p, Parent(l));
      var j :| 0 <= j < |view[p]| && view[p][j].name == l[|p|] && view[p][j].isDir;
      assert p + [view[p][j].name] == Toward(p, l);
      assert Below(p + [view[p][j].name], l);
    }
  }

  /** Nothing is cached below a directory that is not cached itself. */
  lemma NothingBelow(view: View, links: Links, p: Path)
    requires p !in view && Announced(view, links, p)
    ensures DropDirs(view, p) == view && DropLinks(links, p) == links
  {
    forall q | q in view ensures !(p <= q) {
      if p <= q { WayIsCached(view, links, p, q); }
    }
    forall l | l in links ensures !Below(p, l) {
    }
  }

  // ---------------------------------------------------------------- the manager

  class CacheManager {
    var dirCache: map<Path, DirectoryCache>
    var linkCache: Links

    ghost function Objects(): set<DirectoryCache>
      reads this
    {
      set p | p in dirCache :: dirCache[p]
    }

    ghost predicate Valid()
      reads this, Objects()
    {
      && (forall p, q :: p in dirCache && q in dirCache && dirCache[p] == dirCache[q] ==> p == q)
      && (forall p :: p in dirCache ==> dirCache[p].Valid())
    }

    /** What is cached: a listing per directory. */
    ghost function Listings(): View
      reads this, Objects()
    {
      map p | p in dirCache :: dirCache[p].objs
    }

    constructor ()
      ensures Valid() && Listings() == map[] && linkCache == map[] && Objects() == {}
    {
      dirCache, linkCache := map[], map[];
    }

    method DeleteDirectoryTree(key: Path)
      requires Valid() && Announced(Listings(), linkCache, key)
      modifies this
      ensures Valid() && Objects() <= old(Objects()) && dirCache.Keys <= old(dirCache).Keys
      ensures Listings() == DropDirs(old(Listings()), key) && linkCache == DropLinks(old(linkCache), key)
      decreases dirCache.Keys, 0
    {
      hide Announced, DropDirs, DropLinks, LeftDirs, LeftLinks;
      ghost var view, links := Listings(), linkCache;
      if key !in dirCache {
        NothingBelow(view, links, key);
        return;
      }
      var dc := dirCache[key];
      dirCache := dirCache - {key};
      WalkStart(view, links, key);
      for i := 0 to |dc.objs|
        invariant Valid() && Objects() <= old(Objects()) && dirCache.Keys <= old(dirCache).Keys - {key}
        invariant Listings() == LeftDirs(view, dc.objs, i, key)
        invariant linkCache == LeftLinks(links, dc.objs, i, key)
      {
        StillAnnounced(view, links, i, key);
        WalkDir(view, links, dc.objs, i, key);
        WalkFile(view, links, dc.objs, i, key);
        DropChild(key + [dc.objs[i].name], dc.objs[i].isDir);
      }
      WalkEnd(view, links, key);
    }

    /** The loop body: a directory's subtree goes, or a file's link. */
    method DropChild(child: Path, isDir: bool)
      requires Valid() && (isDir ==> Announced(Listings(), linkCache, child))
      modifies this
      ensures Valid() && Objects() <= old(Objects()) && dirCache.Keys <= old(dirCache).Keys
      ensures Listings() == if isDir then DropDirs(old(Listings()), child) else old(Listings())
      ensures linkCache == if isDir then DropLinks(old(linkCache), child) else old(linkCache) - {child}
      decreases dirCache.Keys, 1
    {
      hide Announced, DropDirs, DropLinks;
      if isDir { DeleteDirectoryTree(child); } else { linkCache := linkCache - {child}; }
    }

    method Set(key: Path, files: seq<Obj>)
      requires Valid()
      modifies this
      ensures Valid() && fresh(Objects() - old(Objects())) && linkCache == old(linkCache)
      ensures Listings() == old(Listings())[key := files]
    {
      var dc := new DirectoryCache(files);
      dirCache := dirCache[key := dc];
    }

    /** The listing of a cached directory, in some order. */
    method Get(key: Path) returns (r: Option<seq<Obj>>)
      requires Valid()
      modifies Objects()
      ensures Valid() && Listings() == old(Listings())
      ensures r.Some? <==> key in Listings()
      ensures r.Some? ==> multiset(r.value) == multiset(Listings()[key])
    {
      if key !in dirCache { return None; }
      var objs := dirCache[key].GetSortedObjects();
      return Some(objs);
    }

    method UpdateObject(key: Path, oldName: Name, newObj: Obj)
      requires Valid() && key in Listings()
      modifies Objects()
      ensures Valid() && Listings() == old(Listings())[key := UpdateName(old(Listings())[key], oldName, newObj)]
    {
      dirCache[key].UpdateObject(oldName, newObj);
    }

    method RemoveObject(key: Path, name: Name)
      requires Valid() && key in Listings()
      modifies Objects()
      ensures Valid() && Listings() == old(Listings())[key := RemoveName(old(Listings())[key], name)]
    {
      dirCache[key].RemoveObject(name);
    }

    method DeleteLink(key: Path)
      requires Valid()
      modifies this
      ensures Valid() && Objects() == old(Objects()) && Listings() == old(Listings())
      ensures linkCache == old(linkCache) - {key}
    {
      linkCache := linkCache - {key};
    }

    method AddLink(key: Path, version: nat)
      requires Valid()
      modifies this
      ensures Valid() && Objects() == old(Objects()) && Listings() == old(Listings())
      ensures linkCache == old(linkCache)[key := version]
    {
      linkCache := linkCache[key := version];
    }
  }
}
