/** The operations of internal/op/fs.go on one storage: each changes the driver's tree and
    then patches the caches by hand. The driver is list-only; any call of it may fail and
    then changes nothing, and it refuses a destination name that is taken. */
module StorageOps {
  import opened Basics
  import opened StorageTree
  import opened DirectoryCaching
  import opened StorageChanges

  const ROOT_NAME := "root"

  /** What a driver call gives back: some drivers return the new object. */
  datatype Outcome = Failed | Made(o: Option<Obj>)

  datatype Reason = RootFolder | InPlace | NotFound | NotFile | FileExists | DriverFailed | UploadFailed | CleanupFailed

  datatype OpResult = Done | Refused(reason: Reason)

  /** A file stands where a directory is needed. */
  ghost predicate FileOnWay(t: Tree, path: Path) {
    exists q :: q <= path && q in t && !t[q].isDir
  }

  /** When a driver can make a directory, and when it can write a file. */
  predicate CanMake(t: Tree, dir: Path, name: Name) {
    IsDir(t, dir) && dir + [name] !in t && name != ""
  }

  predicate CanPut(t: Tree, dir: Path, name: Name) {
    IsDir(t, dir) && !IsDir(t, dir + [name]) && name != ""
  }

  /** A directory path that cannot be made. */
  ghost predicate Unmakable(t: Tree, path: Path) {
    FileOnWay(t, path) || "" in path
  }

  /** A file that cannot be written: its directory cannot be made, it has no name, or a directory
      is in its place. */
  ghost predicate NoUpload(t: Tree, dir: Path, name: Name) {
    Unmakable(t, dir) || name == "" || IsDir(t, dir + [name])
  }

  /** An upload that no driver can carry out: its directory cannot be made, it has no name, or an
      object that is not empty is in the way, a directory where files are overwritten or one whose
      temporary name is taken where they are not. */
  ghost predicate Blocked(t: Tree, dir: Path, name: Name, noOverwrite: bool) {
    || Unmakable(t, dir) || name == ""
    || (dir + [name] in t && t[dir + [name]].size > 0
        && if noOverwrite then dir + [TempName(name)] in t else t[dir + [name]].isDir)
  }

  /** Where an object stands while its successor is uploaded. */
  function TempName(name: Name): Name {
    name + ".openlist_to_delete"
  }

  /** The children of `dir` that are not in `left` are listed. */
  ghost predicate PartListed(t: Tree, dir: Path, objs: seq<Obj>, left: set<Path>) {
    && (forall p :: p in left ==> p in t && p != [] && Parent(p) == dir)
    && (forall i :: 0 <= i < |objs| ==>
          && dir + [objs[i].name] in t && dir + [objs[i].name] !in left
          && Matches(objs[i], t[dir + [objs[i].name]]) && !objs[i].temp)
    && (forall n :: dir + [n] in t && dir + [n] !in left ==> Lists(objs, n))
    && (forall i, j :: 0 <= i < j < |objs| ==> objs[i].name != objs[j].name)
  }

  lemma ListingStarts(t: Tree, dir: Path, left: set<Path>)
    requires left == set p | p in t && p != [] && Parent(p) == dir
    ensures PartListed(t, dir, [], left)
  {
    forall n: Name | dir + [n] in t ensures dir + [n] in left {
      assert Parent(dir + [n]) == dir;
    }
  }

  lemma ListingGrows(t: Tree, dir: Path, objs: seq<Obj>, left: set<Path>, p: Path)
    requires PartListed(t, dir, objs, left) && p in left
    ensures PartListed(t, dir, objs + [Obj(Last(p), t[p].isDir, t[p].size, false)], left - {p})
  {
    assert dir + [Last(p)] == p;
    var more := objs + [Obj(Last(p), t[p].isDir, t[p].size, false)];
    forall n | dir + [n] in t && dir + [n] !in left - {p} ensures Lists(more, n) {
      if dir + [n] == p {
        assert Last(p) == n && more[|objs|].name == n;
      } else {
        var i := FirstOf(objs, n);
        assert more[i].name == n;
      }
    }
  }

  class Storage {
    var tree: Tree
    var faults: nat
    const cache: CacheManager
    const noOverwriteUpload: bool

    /** The caches agree with the driver's tree. */
    ghost predicate Consistent()
      reads this, cache, cache.Objects()
    {
      cache.Valid() && Agrees(tree, cache.Listings(), cache.linkCache)
    }

    constructor (tree: Tree, noOverwriteUpload: bool)
      requires WellFormed(tree)
      ensures Consistent() && fresh(cache) && fresh(cache.Objects()) && this.tree == tree
    {
      var c := new CacheManager();
      this.tree, this.faults, this.cache := tree, 0, c;
      this.noOverwriteUpload := noOverwriteUpload;
    }

    // -------------------------------------------------------------- the driver

    /** The children of a directory, in any order. */
    method DriverList(dir: Path) returns (r: Option<seq<Obj>>)
      requires WellFormed(tree) && IsDir(tree, dir)
      modifies `faults
      ensures if r.None? then faults == old(faults) + 1 else faults == old(faults)
      ensures r.Some? ==> ListingOk(tree, dir, r.value) && forall i :: 0 <= i < |r.value| ==> !r.value[i].temp
    {
      if * {
        faults := faults + 1;
        return None;
      }
      var objs: seq<Obj> := [];
      var left := set p | p in tree && p != [] && Parent(p) == dir;
      ListingStarts(tree, dir, left);
      while left != {}
        invariant PartListed(tree, dir, objs, left) && faults == old(faults)
        decreases |left|
      {
        var p :| p in left;
        ListingGrows(tree, dir, objs, left, p);
        left := left - {p};
        objs := objs + [Obj(Last(p), tree[p].isDir, tree[p].size, false)];
      }
      return Some(objs);
    }

    method DriverMakeDir(dir: Path, name: Name) returns (r: Outcome)
      modifies `faults, `tree
      ensures r.Failed? ==> tree == old(tree) && faults >= old(faults)
      ensures r.Failed? ==> faults == old(faults) + 1 || (faults == old(faults) && !CanMake(old(tree), dir, name))
      ensures r.Made? ==>
        && faults == old(faults) && CanMake(old(tree), dir, name)
        && dir + [name] in tree && tree[dir + [name]].isDir && tree == old(tree)[dir + [name] := tree[dir + [name]]]
        && (r.o.Some? ==> r.o.value == Obj(name, true, tree[dir + [name]].size, false))
    {
      var fails: bool, size: nat, version: nat, result: bool := *, *, *, *;
      if fails { faults := faults + 1; }
      if fails || !CanMake(tree, dir, name) { return Failed; }
      tree := tree[dir + [name] := Node(true, size, version)];
      return Made(if result then Some(Obj(name, true, size, false)) else None);
    }

    /** Move, rename and copy. */
    method DriverGraft(src: Path, dst: Path, keep: bool) returns (r: Outcome)
      requires dst != []
      modifies `faults, `tree
      ensures r.Failed? ==> tree == old(tree) && faults >= old(faults)
      ensures r.Failed? ==> faults == old(faults) + 1 || (faults == old(faults) && !CanGraft(old(tree), src, dst, keep))
      ensures r.Made? ==>
        && faults == old(faults) && CanGraft(old(tree), src, dst, keep) && Grafted(old(tree), tree, src, dst, keep)
        && (r.o.Some? ==> r.o.value == Obj(Last(dst), old(tree)[src].isDir, old(tree)[src].size, false))
    {
      var fails: bool, result: bool := *, *;
      if fails { faults := faults + 1; }
      if fails || !CanGraft(tree, src, dst, keep) { return Failed; }
      var o := Obj(Last(dst), tree[src].isDir, tree[src].size, false);
      var places := set q | q in tree && src <= q :: dst + q[|src|..];
      forall q ensures q in places <==> dst <= q && src + q[|dst|..] in tree {
        if dst <= q && src + q[|dst|..] in tree {
          var from := src + q[|dst|..];
          assert src <= from && dst + from[|src|..] == q;
        }
        if from :| from in tree && src <= from && q == dst + from[|src|..] {
          assert src + q[|dst|..] == from;
        }
      }
      tree := (map q | q in tree && !(dst <= q) && (keep || !(src <= q)) :: tree[q])
            + (map q | q in places :: tree[src + q[|dst|..]]);
      return Made(if result then Some(o) else None);
    }

    method DriverRemove(p: Path) returns (ok: bool)
      modifies `faults, `tree
      ensures if ok then faults == old(faults) && tree == Without(old(tree), p) else faults == old(faults) + 1 && tree == old(tree)
    {
      if * {
        faults := faults + 1;
        return false;
      }
      tree := map q | q in tree && !(p <= q) :: tree[q];
      return true;
    }

    method DriverPut(dir: Path, name: Name, size: nat) returns (r: Outcome)
      modifies `faults, `tree
      ensures r.Failed? ==> tree == old(tree) && faults >= old(faults)
      ensures r.Failed? ==> faults == old(faults) + 1 || (faults == old(faults) && !CanPut(old(tree), dir, name))
      ensures r.Made? ==>
        && faults == old(faults) && CanPut(old(tree), dir, name)
        && IsFile(tree, dir + [name], size) && tree == old(tree)[dir + [name] := tree[dir + [name]]]
        && (r.o.Some? ==> r.o.value == Obj(name, false, size, false))
    {
      var fails: bool, version: nat, result: bool := *, *, *;
      if fails { faults := faults + 1; }
      if fails || !CanPut(tree, dir, name) { return Failed; }
      tree := tree[dir + [name] := Node(false, size, version)];
      return Made(if result then Some(Obj(name, false, size, false)) else None);
    }

    /** A link is for the version of the file there is at the time. */
    method DriverLink(path: Path) returns (r: Option<nat>)
      requires path in tree
      modifies `faults
      ensures faults == if r.Some? then old(faults) else old(faults) + 1
      ensures r.Some? ==> r.value == tree[path].version
    {
      if * {
        faults := faults + 1;
        return None;
      }
      return Some(tree[path].version);
    }

    // -------------------------------------------------------------- List and Get

    /** list: cached listings are answered from the cache; others are fetched and kept. */
    method List(path: Path, refresh: bool) returns (r: Option<seq<Obj>>)
      requires Consistent()
      modifies `faults, cache, cache.Objects()
      ensures Consistent() && fresh(cache.Objects() - old(cache.Objects())) && faults >= old(faults)
      ensures r.Some? ==> IsDir(tree, path) && ListingOk(tree, path, r.value)
      ensures r.Some? && r.value != [] ==> path in cache.Listings()
      ensures r.Some? && (refresh || path !in old(cache.Listings())) ==> forall i :: 0 <= i < |r.value| ==> !r.value[i].temp
      ensures r.None? ==> !IsDir(tree, path) || faults > old(faults)
      ensures !refresh && path in old(cache.Listings()) ==> r.Some? && faults == old(faults)
      decreases |path|, 1
    {
      hide Consistent, ListingOk, Matches;
      if !refresh {
        var cached := Cached(path);
        if cached.Some? { return cached; }
      }
      var dir := Get(path, true);
      if dir.None? || !dir.value.isDir { return None; }
      r := Fetch(path);
    }

    /** What the cache has for a directory, in some order. */
    method Cached(path: Path) returns (r: Option<seq<Obj>>)
      requires Consistent()
      modifies cache.Objects()
      ensures Consistent() && cache.Listings() == old(cache.Listings())
      ensures r.Some? <==> path in cache.Listings()
      ensures r.Some? ==> IsDir(tree, path) && ListingOk(tree, path, r.value)
    {
      hide ListingOk, WellFormed, ParentsCached, LinksCached;
      r := cache.Get(path);
      if r.Some? { ListingPermuted(tree, path, cache.Listings()[path], r.value); }
    }

    /** A directory is listed by the driver, and the listing is kept unless it is empty. */
    method Fetch(path: Path) returns (r: Option<seq<Obj>>)
      requires Consistent() && IsDir(tree, path) && (path != [] ==> Parent(path) in cache.Listings())
      modifies `faults, cache, cache.Objects()
      ensures Consistent() && fresh(cache.Objects() - old(cache.Objects())) && faults >= old(faults)
      ensures r.Some? ==> ListingOk(tree, path, r.value) && forall i :: 0 <= i < |r.value| ==> !r.value[i].temp
      ensures r.Some? && r.value != [] ==> path in cache.Listings()
      ensures r.None? ==> faults > old(faults)
    {
      hide Agrees, ListingOk, DropDirs, DropLinks, Announced;
      TreeOk();
      r := DriverList(path);
      if r.None? { return; }
      if |r.value| > 0 {
        SetKeeps(tree, cache.Listings(), cache.linkCache, path, r.value);
        cache.Set(path, r.value);
      } else {
        AgreesAnnounced(tree, cache.Listings(), cache.linkCache, path);
        DropKeeps(tree, cache.Listings(), cache.linkCache, path);
        cache.DeleteDirectoryTree(path);
      }
    }

    /** Get: found in the parent's listing; `excludeTemp` refreshes a listing whose entry was
        made up. An error of the listing counts as not found. */
    method Get(path: Path, excludeTemp: bool) returns (r: Option<Obj>)
      requires Consistent()
      modifies `faults, cache, cache.Objects()
      ensures Consistent() && fresh(cache.Objects() - old(cache.Objects())) && faults >= old(faults)
      ensures r.Some? ==> path in tree && r.value.isDir == tree[path].isDir
      ensures r.Some? && path != [] ==> r.value.name == Last(path) && Parent(path) in cache.Listings() && Matches(r.value, tree[path])
      ensures r.Some? && path != [] && excludeTemp ==> !r.value.temp
      ensures r.None? ==> path != [] && (path !in tree || faults > old(faults))
      decreases |path|, 0
    {
      hide Consistent, ListingOk, Matches, Lists;
      TreeOk();
      if path == [] { return Some(Obj(ROOT_NAME, true, 0, false)); }
      var dir, name := Parent(path), Last(path);
      assert dir + [name] == path;
      var cached := Cached(dir);
      var refreshList := false;
      if cached.Some? {
        var f := FindName(cached.value, name);
        LookedUp(tree, dir, cached.value, name, f);
        if f.Some? {
          if !(excludeTemp && f.value.temp) { return f; }
          refreshList := true;
        }
      }
      if cached.None? || refreshList {
        var objs := List(dir, refreshList);
        if objs.Some? {
          var f := FindName(objs.value, name);
          LookedUp(tree, dir, objs.value, name, f);
          return f;
        }
      }
      if !IsDir(tree, dir) { NoParentNoChild(path); }
      return None;
    }

    lemma NoParentNoChild(path: Path)
      requires Consistent() && path != [] && !IsDir(tree, Parent(path))
      ensures path !in tree
    {
    }

    // -------------------------------------------------------------- the other operations

    method Link(path: Path) returns (r: OpResult)
      requires Consistent()
      modifies `faults, cache, cache.Objects()
      ensures Consistent() && fresh(cache.Objects() - old(cache.Objects())) && faults >= old(faults)
      ensures r == Done ==> path in tree && !tree[path].isDir && path in cache.linkCache && cache.linkCache[path] == tree[path].version
      ensures r == Refused(NotFound) ==> path !in tree || faults > old(faults)
      ensures r == Refused(NotFile) ==> IsDir(tree, path)
      ensures r == Refused(DriverFailed) ==> faults > old(faults)
      ensures r == Done || r == Refused(NotFound) || r == Refused(NotFile) || r == Refused(DriverFailed)
      ensures faults == old(faults) ==> (r == Done <==> path in tree && !tree[path].isDir)
      ensures path in old(cache.linkCache) ==> r == Done && faults == old(faults)
    {
      hide ListingsOk, ListingOk, ParentsCached;
      if path in cache.linkCache { return Done; }
      var file := Get(path, true);
      if file.None? { return Refused(NotFound); }
      if file.value.isDir { return Refused(NotFile); }
      var version := DriverLink(path);
      if version.None? { return Refused(DriverFailed); }
      assert path != [];
      LinkKeeps(tree, cache.Listings(), cache.linkCache, path);
      cache.AddLink(path, version.value);
      return Done;
    }

    /** What Move, Rename and Remove do to a subtree whose parent may be cached. */
    method Forget(p: Path, isDir: bool, ghost was: Tree)
      requires cache.Valid() && Agrees(was, cache.Listings(), cache.linkCache)
      requires p != [] && p in was && isDir == was[p].isDir
      modifies cache
      ensures cache.Valid() && cache.Objects() <= old(cache.Objects())
      ensures cache.Listings() == DropDirs(old(cache.Listings()), p)
      ensures cache.linkCache == DropLinks(old(cache.linkCache), p)
    {
      if !isDir {
        NotCached(was, cache.Listings(), cache.linkCache, p);
      } else if Parent(p) in cache.dirCache {
        AgreesAnnounced(was, cache.Listings(), cache.linkCache, p);
        cache.DeleteDirectoryTree(p);
      } else {
        NothingCached(was, cache.Listings(), cache.linkCache, p);
      }
    }

    method PatchListing(dir: Path, oldName: Name, o: Obj)
      requires cache.Valid()
      modifies cache.Objects()
      ensures cache.Valid() && cache.Listings() == Patch(old(cache.Listings()), dir, oldName, o)
    {
      if dir in cache.dirCache { cache.UpdateObject(dir, oldName, o); }
    }

    method Move(srcPath: Path, dstDirPath: Path) returns (r: OpResult)
      requires Consistent()
      modifies `faults, `tree, cache, cache.Objects()
      ensures Consistent() && fresh(cache.Objects() - old(cache.Objects())) && faults >= old(faults)
      ensures r == Done ==>
        && srcPath != [] && CanGraft(old(tree), srcPath, dstDirPath + [Last(srcPath)], false)
        && Grafted(old(tree), tree, srcPath, dstDirPath + [Last(srcPath)], false)
      ensures r != Done ==> tree == old(tree)
      ensures r == Refused(RootFolder) ==> srcPath == []
      ensures r == Refused(InPlace) ==> srcPath != [] && dstDirPath == Parent(srcPath)
      ensures r == Refused(NotFound) ==> srcPath !in tree || dstDirPath !in tree || faults > old(faults)
      ensures r == Done || r == Refused(RootFolder) || r == Refused(InPlace) || r == Refused(NotFound) || r == Refused(DriverFailed)
      ensures faults == old(faults) ==>
        (r == Done <==> srcPath != [] && CanGraft(old(tree), srcPath, dstDirPath + [Last(srcPath)], false))
    {
      hide Agrees, Grafted, ListingOk, WellFormed;
      if srcPath == [] { return Refused(RootFolder); }
      if dstDirPath == Parent(srcPath) { return Refused(InPlace); }
      var src := Get(srcPath, true);
      if src.None? { return Refused(NotFound); }
      var dstDir := Get(dstDirPath, true);
      if dstDir.None? { return Refused(NotFound); }
      r := MoveFound(srcPath, dstDirPath, src.value);
    }

    /** Move once both ends are found. */
    method MoveFound(srcPath: Path, dstDirPath: Path, obj: Obj) returns (r: OpResult)
      requires Consistent() && srcPath != [] && dstDirPath != Parent(srcPath)
      requires srcPath in tree && obj.name == Last(srcPath) && Matches(obj, tree[srcPath]) && !obj.temp
      modifies `faults, `tree, cache, cache.Objects()
      ensures Consistent() && cache.Objects() <= old(cache.Objects())
      ensures r == Done ==>
        && CanGraft(old(tree), srcPath, dstDirPath + [Last(srcPath)], false)
        && Grafted(old(tree), tree, srcPath, dstDirPath + [Last(srcPath)], false)
      ensures r != Done ==>
        && r == Refused(DriverFailed) && tree == old(tree) && faults >= old(faults)
        && (faults > old(faults) || !CanGraft(old(tree), srcPath, dstDirPath + [Last(srcPath)], false))
      ensures r == Done ==> faults == old(faults)
    {
      hide Agrees, Grafted, ListingOk, WellFormed;
      var dstPath := dstDirPath + [obj.name];
      assert Parent(dstPath) == dstDirPath && Last(dstPath) == obj.name;
      ghost var t := tree;
      var made := DriverGraft(srcPath, dstPath, false);
      if made.Failed? { return Refused(DriverFailed); }
      PatchMove(srcPath, dstPath, obj, if made.o.None? then obj.(temp := true) else made.o.value, t);
      return Done;
    }

    /** The patches of Move, in its order. */
    method PatchMove(src: Path, dst: Path, obj: Obj, newObj: Obj, ghost was: Tree)
      requires cache.Valid() && Agrees(was, cache.Listings(), cache.linkCache)
      requires CanGraft(was, src, dst, false) && Grafted(was, tree, src, dst, false)
      requires Parent(src) != Parent(dst) && Last(dst) == Last(src) == obj.name == newObj.name
      requires obj.isDir == was[src].isDir && Matches(newObj, was[src])
      modifies cache, cache.Objects()
      ensures Consistent() && cache.Objects() <= old(cache.Objects())
    {
      hide WellFormed, ListingsOk, ParentsCached, Grafted, DropDirs, DropLinks, LinksCached;
      ghost var view, links := cache.Listings(), cache.linkCache;
      if !obj.isDir {
        cache.DeleteLink(src);
        cache.DeleteLink(dst);
      }
      NoLinkThere(was, view, links, src, dst);
      Forget(src, obj.isDir, was);
      if Parent(src) in cache.dirCache { cache.RemoveObject(Parent(src), obj.name); }
      PatchListing(Parent(dst), obj.name, newObj);
      MoveKeeps(was, tree, src, dst, view, links, newObj);
    }

    /** Links of the two ends of a move. */
    lemma NoLinkThere(t: Tree, view: View, links: Links, src: Path, dst: Path)
      requires Agrees(t, view, links) && src in t && dst !in t
      ensures IsDir(t, src) ==> links - {src} - {dst} == links
      ensures DropLinks(links - {src} - {dst}, src) == DropLinks(links, src) - {src}
      ensures Agrees(t, view, links - {src} - {dst})
    {
      hide ListingsOk, WellFormed, ParentsCached;
    }

    method Rename(srcPath: Path, dstName: Name) returns (r: OpResult)
      requires Consistent()
      modifies `faults, `tree, cache, cache.Objects()
      ensures Consistent() && fresh(cache.Objects() - old(cache.Objects())) && faults >= old(faults)
      ensures r == Done ==>
        && srcPath != [] && CanGraft(old(tree), srcPath, Parent(srcPath) + [dstName], false)
        && Grafted(old(tree), tree, srcPath, Parent(srcPath) + [dstName], false)
      ensures r != Done ==> tree == old(tree)
      ensures r == Refused(NotFound) ==> srcPath !in tree || faults > old(faults)
      ensures r == Refused(RootFolder) ==> srcPath == []
      ensures r == Done || r == Refused(RootFolder) || r == Refused(NotFound) || r == Refused(DriverFailed)
      ensures faults == old(faults) ==>
        (r == Done <==> srcPath != [] && CanGraft(old(tree), srcPath, Parent(srcPath) + [dstName], false))
    {
      hide Agrees, Grafted, ListingOk, WellFormed;
      if srcPath == [] { return Refused(RootFolder); }
      var src := Get(srcPath, true);
      if src.None? { return Refused(NotFound); }
      r := RenameFound(srcPath, dstName, src.value);
    }

    method RenameFound(srcPath: Path, dstName: Name, obj: Obj) returns (r: OpResult)
      requires Consistent() && srcPath != []
      requires srcPath in tree && obj.name == Last(srcPath) && Matches(obj, tree[srcPath]) && !obj.temp
      modifies `faults, `tree, cache, cache.Objects()
      ensures Consistent() && cache.Objects() <= old(cache.Objects())
      ensures r == Done ==>
        && CanGraft(old(tree), srcPath, Parent(srcPath) + [dstName], false)
        && Grafted(old(tree), tree, srcPath, Parent(srcPath) + [dstName], false)
      ensures r != Done ==>
        && r == Refused(DriverFailed) && tree == old(tree) && faults >= old(faults)
        && (faults > old(faults) || !CanGraft(old(tree), srcPath, Parent(srcPath) + [dstName], false))
      ensures r == Done ==> faults == old(faults)
    {
      hide Agrees, Grafted, ListingOk, WellFormed;
      var dstPath := Parent(srcPath) + [dstName];
      assert Parent(dstPath) == Parent(srcPath) && Last(dstPath) == dstName;
      ghost var t := tree;
      var made := DriverGraft(srcPath, dstPath, false);
      if made.Failed? { return Refused(DriverFailed); }
      PatchRename(srcPath, dstPath, obj, if made.o.None? then Obj(dstName, obj.isDir, obj.size, true) else made.o.value, t);
      return Done;
    }

    /** The patches of Rename, in its order. */
    method PatchRename(src: Path, dst: Path, obj: Obj, newObj: Obj, ghost was: Tree)
      requires cache.Valid() && Agrees(was, cache.Listings(), cache.linkCache)
      requires CanGraft(was, src, dst, false) && Grafted(was, tree, src, dst, false)
      requires Parent(src) == Parent(dst) && Last(src) == obj.name && Last(dst) == newObj.name
      requires obj.isDir == was[src].isDir && Matches(newObj, was[src])
      modifies cache, cache.Objects()
      ensures Consistent() && cache.Objects() <= old(cache.Objects())
    {
      hide WellFormed, ListingsOk, ParentsCached, Grafted, DropDirs, DropLinks, LinksCached;
      ghost var view, links := cache.Listings(), cache.linkCache;
      if !obj.isDir {
        cache.DeleteLink(src);
        cache.DeleteLink(dst);
      }
      NoLinkThere(was, view, links, src, dst);
      Forget(src, obj.isDir, was);
      PatchListing(Parent(src), obj.name, newObj);
      RenameKeeps(was, tree, src, dst, view, links, newObj);
    }

    method Copy(srcPath: Path, dstDirPath: Path) returns (r: OpResult)
      requires Consistent()
      modifies `faults, `tree, cache, cache.Objects()
      ensures Consistent() && fresh(cache.Objects() - old(cache.Objects())) && faults >= old(faults)
      ensures r == Done ==>
        && srcPath != [] && CanGraft(old(tree), srcPath, dstDirPath + [Last(srcPath)], true)
        && Grafted(old(tree), tree, srcPath, dstDirPath + [Last(srcPath)], true)
      ensures r != Done ==> tree == old(tree)
      ensures r == Refused(InPlace) ==> dstDirPath == if srcPath == [] then [] else Parent(srcPath)
      ensures r == Refused(NotFound) ==> srcPath !in tree || dstDirPath !in tree || faults > old(faults)
      ensures r == Done || r == Refused(InPlace) || r == Refused(NotFound) || r == Refused(DriverFailed)
      ensures faults == old(faults) ==>
        (r == Done <==> srcPath != [] && CanGraft(old(tree), srcPath, dstDirPath + [Last(srcPath)], true))
    {
      hide Agrees, Grafted, ListingOk, WellFormed;
      assert srcPath != [] ==> Parent(srcPath) + [Last(srcPath)] == srcPath;
      if dstDirPath == (if srcPath == [] then [] else Parent(srcPath)) { return Refused(InPlace); }
      var src := Get(srcPath, true);
      if src.None? { return Refused(NotFound); }
      var dstDir := Get(dstDirPath, true);
      if dstDir.None? { return Refused(NotFound); }
      r := CopyFound(srcPath, dstDirPath, src.value);
    }

    method CopyFound(srcPath: Path, dstDirPath: Path, obj: Obj) returns (r: OpResult)
      requires Consistent() && srcPath in tree
      requires srcPath != [] ==> obj.name == Last(srcPath) && Matches(obj, tree[srcPath]) && !obj.temp
      modifies `faults, `tree, cache, cache.Objects()
      ensures Consistent() && cache.Objects() <= old(cache.Objects())
      ensures r == Done ==>
        && srcPath != [] && CanGraft(old(tree), srcPath, dstDirPath + [Last(srcPath)], true)
        && Grafted(old(tree), tree, srcPath, dstDirPath + [Last(srcPath)], true)
      ensures r != Done ==>
        && r == Refused(DriverFailed) && tree == old(tree) && faults >= old(faults)
        && (faults > old(faults) || srcPath == [] || !CanGraft(old(tree), srcPath, dstDirPath + [Last(srcPath)], true))
      ensures r == Done ==> faults == old(faults)
    {
      hide Agrees, Grafted, ListingOk, WellFormed;
      var dstPath := dstDirPath + [obj.name];
      assert Parent(dstPath) == dstDirPath && Last(dstPath) == obj.name;
      ghost var t := tree;
      var made := DriverGraft(srcPath, dstPath, true);
      if made.Failed? { return Refused(DriverFailed); }
      PatchCopy(srcPath, dstPath, obj, if made.o.None? then obj.(temp := true) else made.o.value, t);
      return Done;
    }

    /** The patches of Copy. */
    method PatchCopy(src: Path, dst: Path, obj: Obj, newObj: Obj, ghost was: Tree)
      requires cache.Valid() && Agrees(was, cache.Listings(), cache.linkCache)
      requires CanGraft(was, src, dst, true) && Grafted(was, tree, src, dst, true)
      requires Last(dst) == Last(src) == obj.name == newObj.name
      requires obj.isDir == was[src].isDir && Matches(newObj, was[src])
      modifies cache, cache.Objects()
      ensures Consistent() && cache.Objects() <= old(cache.Objects())
    {
      hide Agrees, Grafted, WellFormed, Matches;
      ghost var view, links := cache.Listings(), cache.linkCache;
      if !obj.isDir { cache.DeleteLink(dst); }
      NewHasNoLink(was, view, links, dst);
      PatchListing(Parent(dst), obj.name, newObj);
      CopyKeeps(was, tree, src, dst, view, links, newObj);
    }

    /** Remove: an object that is not there counts as removed. */
    method Remove(path: Path) returns (r: OpResult)
      requires Consistent()
      modifies `faults, `tree, cache, cache.Objects()
      ensures Consistent() && fresh(cache.Objects() - old(cache.Objects())) && faults >= old(faults)
      ensures r == Done ==> tree == Without(old(tree), path) || (faults > old(faults) && tree == old(tree))
      ensures r != Done ==> tree == old(tree) && (path == [] || faults > old(faults))
      ensures path == [] ==> r == Refused(RootFolder)
      ensures r == Done || r == Refused(RootFolder) || r == Refused(DriverFailed)
    {
      hide Agrees, ListingOk, WellFormed, Without;
      if path == [] { return Refused(RootFolder); }
      var obj := Get(path, true);
      if obj.None? {
        if faults == old(faults) { NothingToRemove(path); }
        return Done;
      }
      r := RemoveFound(path, obj.value);
    }

    lemma NothingToRemove(path: Path)
      requires Consistent() && path !in tree
      ensures Without(tree, path) == tree
    {
      forall q | q in tree ensures !(path <= q) {
        if path <= q { PrefixInTree(tree, path, q); }
      }
    }

    method RemoveFound(path: Path, obj: Obj) returns (r: OpResult)
      requires Consistent() && path != []
      requires path in tree && obj.name == Last(path) && obj.isDir == tree[path].isDir
      modifies `faults, `tree, cache, cache.Objects()
      ensures Consistent() && cache.Objects() <= old(cache.Objects())
      ensures r == Done ==> faults == old(faults) && tree == Without(old(tree), path)
      ensures r != Done ==> r == Refused(DriverFailed) && faults > old(faults) && tree == old(tree)
    {
      hide WellFormed, ListingsOk, ParentsCached, DropDirs, DropLinks, LinksCached, Without;
      ghost var t, view, links := tree, cache.Listings(), cache.linkCache;
      var ok := DriverRemove(path);
      if !ok { return Refused(DriverFailed); }
      if !obj.isDir { cache.DeleteLink(path); }
      NoLinkHere(t, view, links, path);
      Forget(path, obj.isDir, t);
      if Parent(path) in cache.dirCache { cache.RemoveObject(Parent(path), obj.name); }
      WithoutKeeps(t, view, links, path);
      return Done;
    }

    lemma NoLinkHere(t: Tree, view: View, links: Links, p: Path)
      requires Agrees(t, view, links) && p in t
      ensures IsDir(t, p) ==> links - {p} == links
      ensures DropLinks(links - {p}, p) == DropLinks(links, p) - {p}
      ensures Agrees(t, view, links - {p})
    {
      hide ListingsOk, WellFormed, ParentsCached;
    }

    /** MakeDir makes the missing directories of a path, from the top down. */
    method MakeDir(path: Path) returns (r: OpResult)
      requires Consistent()
      modifies `faults, `tree, cache, cache.Objects()
      ensures Consistent() && fresh(cache.Objects() - old(cache.Objects())) && faults >= old(faults)
      ensures OnlyDirsAdded(old(tree), tree, path)
      ensures r == Done ==> IsDir(tree, path)
      ensures r == Done ==> !Unmakable(old(tree), path)
      ensures r != Done ==> faults > old(faults) || Unmakable(old(tree), path)
      ensures r != Refused(UploadFailed)
      decreases |path|
    {
      hide Consistent, Matches, OnlyDirsAdded, Unmakable, CanMake;
      ghost var t := tree;
      NothingMade(t, path);
      var f := Get(path, false);
      if f.Some? {
        if f.value.isDir { DirIsMade(tree, path); }
        return if f.value.isDir then Done else Refused(FileExists);
      }
      r := MakeDir(Parent(path));
      ParentsMade(t, tree, path);
      if r == Done {
        ghost var t1 := tree;
        if path !in t { LastCanBeMade(t, t1, path); }
        r := MakeLastDir(path);
        if r == Done {
          OneMoreMade(t, t1, path, tree[path]);
          DirIsMade(tree, path);
          WasMakable(t, tree, path);
        }
      }
    }

    /** The last directory of a path whose parent is there. */
    method MakeLastDir(path: Path) returns (r: OpResult)
      requires Consistent() && path != [] && Parent(path) in tree
      modifies `faults, `tree, cache, cache.Objects()
      ensures Consistent() && fresh(cache.Objects() - old(cache.Objects()))
      ensures r == Done ==>
        faults >= old(faults) && path !in old(tree) && IsDir(tree, path) && tree == old(tree)[path := tree[path]]
      ensures r != Done ==> r != Refused(UploadFailed) && faults >= old(faults) && tree == old(tree)
      ensures r != Done ==> faults > old(faults) || !CanMake(old(tree), Parent(path), Last(path))
    {
      hide Consistent, Matches, CanMake;
      var parentDir := Get(Parent(path), true);
      if parentDir.None? { return Refused(NotFound); }
      assert Parent(path) + [Last(path)] == path;
      r := MakeDirIn(Parent(path), Last(path));
    }

    lemma NothingMade(t: Tree, path: Path)
      ensures OnlyDirsAdded(t, t, path) && (path in t && !t[path].isDir ==> Unmakable(t, path))
    {
    }

    lemma WasMakable(t: Tree, t': Tree, path: Path)
      requires OnlyDirsAdded(t, t', path) && !Unmakable(t', path)
      ensures !Unmakable(t, path)
    {
    }

    lemma LastCanBeMade(t: Tree, t1: Tree, path: Path)
      requires path != [] && OnlyDirsAdded(t, t1, Parent(path)) && path !in t && IsDir(t1, Parent(path))
      ensures CanMake(t1, Parent(path), Last(path)) || Unmakable(t, path)
    {
      assert Parent(path) + [Last(path)] == path && Last(path) in path;
    }

    lemma ParentsMade(t: Tree, t1: Tree, path: Path)
      requires path != [] && OnlyDirsAdded(t, t1, Parent(path))
      ensures OnlyDirsAdded(t, t1, path) && (Unmakable(t, Parent(path)) ==> Unmakable(t, path))
    {
      if q :| q <= Parent(path) && q in t && !t[q].isDir {
        assert q <= path;
      }
    }

    lemma OneMoreMade(t: Tree, t1: Tree, path: Path, node: Node)
      requires OnlyDirsAdded(t, t1, path) && path !in t1 && node.isDir
      ensures OnlyDirsAdded(t, t1[path := node], path)
    {
    }

    method MakeDirIn(dir: Path, name: Name) returns (r: OpResult)
      requires Consistent()
      modifies `faults, `tree, cache, cache.Objects()
      ensures Consistent() && cache.Objects() <= old(cache.Objects())
      ensures r == Done ==>
        && faults == old(faults) && dir + [name] !in old(tree) && IsDir(tree, dir + [name])
        && tree == old(tree)[dir + [name] := tree[dir + [name]]]
      ensures r != Done ==>
        && r == Refused(DriverFailed) && tree == old(tree) && faults >= old(faults)
        && (faults > old(faults) || !CanMake(old(tree), dir, name))
    {
      hide Agrees, ListingOk, WellFormed;
      ghost var t, view, links := tree, cache.Listings(), cache.linkCache;
      var made := DriverMakeDir(dir, name);
      if made.Failed? { return Refused(DriverFailed); }
      var newObj := if made.o.None? then Obj(name, true, 0, true) else made.o.value;
      PatchListing(dir, "", newObj);
      ghost var p := dir + [name];
      assert Parent(p) == dir && Last(p) == name;
      NewHasNoLink(t, view, links, p);
      WriteKeeps(t, view, links, p, tree[p], "", newObj);
      return Done;
    }

    lemma NewHasNoLink(t: Tree, view: View, links: Links, p: Path)
      requires Agrees(t, view, links) && p !in t
      ensures links - {p} == links
    {
    }

    /** Put: an empty object of that name is removed first; on storages that cannot overwrite,
        another one steps aside under a temporary name until the upload is done. */
    method Put(dstDirPath: Path, name: Name, size: nat) returns (r: OpResult)
      requires Consistent()
      modifies `faults, `tree, cache, cache.Objects()
      ensures Consistent() && fresh(cache.Objects() - old(cache.Objects())) && faults >= old(faults)
      ensures Outside(old(tree), tree, dstDirPath + [name], dstDirPath + [TempName(name)])
      ensures r == Done ==> IsFile(tree, dstDirPath + [name], size)
      ensures r == Done && faults == old(faults) && dstDirPath + [name] in old(tree) ==>
                tree == Without(old(tree), dstDirPath + [name])[dstDirPath + [name] := tree[dstDirPath + [name]]]
      ensures r == Done && faults == old(faults) && dstDirPath + [name] !in old(tree) ==>
                WrittenAt(old(tree), tree, dstDirPath + [name])
      ensures (r == Refused(UploadFailed) && faults <= old(faults) + 1
               && dstDirPath + [name] in old(tree) && old(tree)[dstDirPath + [name]].size > 0) ==> tree == old(tree)
      ensures faults == old(faults) ==> (r == Done <==> !Blocked(old(tree), dstDirPath, name, noOverwriteUpload))
    {
      hide Consistent, WellFormed, Outside, WrittenAt, Without, Grafted, CanGraft, RoomMade, TempName, Blocked, NoUpload;
      TreeOk();
      TempApart(dstDirPath, name);
      ghost var t0, f0, dst, temp := tree, faults, dstDirPath + [name], dstDirPath + [TempName(name)];
      var fi := Get(dstDirPath + [name], true);
      r := PutPrepare(dstDirPath, name, fi);
      if r != Done {
        if faults == f0 { AsideBlocked(t0, dstDirPath, name); }
        return;
      }
      ghost var t1, f1 := tree, faults;
      var aside := noOverwriteUpload && fi.Some? && fi.value.size > 0;
      r := PutReplace(dstDirPath, name, size, aside);
      OutsideTrans(t0, t1, tree, dst, temp);
      TreeOk();
      PutOutcome(t0, t1, tree, dstDirPath, name, noOverwriteUpload, aside, r, f1 - f0, faults - f0);
    }

    /** What the two halves of Put come to; `n1` and `n` driver calls have failed after the first half
        and in all. */
    lemma PutOutcome(t: Tree, t1: Tree, t': Tree, dir: Path, name: Name, noOverwrite: bool, aside: bool, r: OpResult, n1: nat, n: nat)
      requires WellFormed(t) && WellFormed(t') && n1 <= n
      requires Outside(t, t1, dir + [name], dir + [TempName(name)]) && Outside(t, t', dir + [name], dir + [TempName(name)])
      requires n1 == 0 ==>
        && RoomMade(t, t1, dir + [name], dir + [TempName(name)], noOverwrite)
        && aside == (noOverwrite && dir + [name] in t && t[dir + [name]].size > 0)
      requires dir + [name] in t && t[dir + [name]].size > 0 ==>
        if aside then RoomMade(t, t1, dir + [name], dir + [TempName(name)], true) else t1 == t
      requires !aside ==> WrittenAt(t1, t', dir + [name])
      requires r == Done ==> dir + [name] in t' && !t'[dir + [name]].isDir
      requires n == 0 && r == Done && IsDir(t1, dir) ==>
        && (dir + [name] in t1 ==> !t1[dir + [name]].isDir)
        && var w := t1[dir + [name] := t'[dir + [name]]]; t' == if aside then Without(w, dir + [TempName(name)]) else w
      requires n == 0 && r != Done ==> NoUpload(t1, dir, name)
      requires IsDir(t1, dir) && r == Refused(UploadFailed) && n <= 1 ==>
        if !aside then t' == t1
        else CanGraft(t1, dir + [TempName(name)], dir + [name], false) ==>
          Grafted(t1, t', dir + [TempName(name)], dir + [name], false)
      ensures r == Done && n == 0 && dir + [name] in t ==> t' == Without(t, dir + [name])[dir + [name] := t'[dir + [name]]]
      ensures n == 0 && dir + [name] !in t ==> WrittenAt(t, t', dir + [name])
      ensures r == Refused(UploadFailed) && n <= 1 && dir + [name] in t && t[dir + [name]].size > 0 ==> t' == t
      ensures n == 0 ==> (r == Done <==> !Blocked(t, dir, name, noOverwrite))
    {
      hide WellFormed, Outside, WrittenAt, Without, Grafted, CanGraft, RoomMade, TempName, Blocked, NoUpload;
      ghost var dst, temp := dir + [name], dir + [TempName(name)];
      TempApart(dir, name);
      if dst in t { KeepsDir(t, t1, dir, name, temp); }
      if n == 0 {
        if dst !in t { NothingAside(t, t1, dst, temp, noOverwrite); }
        PutEnds(t, t1, t', dst, temp, noOverwrite, r == Done);
        BlockedIff(t, t1, t', dir, name, noOverwrite, r == Done);
      }
      if r == Refused(UploadFailed) && n <= 1 && dst in t && t[dst].size > 0 {
        PutFailed(t, t1, t', dir, name, aside);
      }
    }

    lemma AsideBlocked(t: Tree, dir: Path, name: Name)
      requires dir + [name] in t && t[dir + [name]].size > 0 && dir + [TempName(name)] in t
      ensures Blocked(t, dir, name, true)
    {
    }

    lemma BlockedIff(t: Tree, t1: Tree, t': Tree, dir: Path, name: Name, noOverwrite: bool, done: bool)
      requires WellFormed(t) && WellFormed(t')
      requires RoomMade(t, t1, dir + [name], dir + [TempName(name)], noOverwrite)
      requires Outside(t, t1, dir + [name], dir + [TempName(name)]) && Outside(t, t', dir + [name], dir + [TempName(name)])
      requires if !done then NoUpload(t1, dir, name)
               else dir + [name] in t' && (dir + [name] in t && dir + [name] in t1 ==> !t1[dir + [name]].isDir)
      ensures done <==> !Blocked(t, dir, name, noOverwrite)
    {
      hide WellFormed, Outside, RoomMade, Blocked, NoUpload, TempName;
      if done { UploadNotBlocked(t, t1, t', dir, name, noOverwrite); } else { UploadBlocked(t, t1, dir, name, noOverwrite); }
    }

    /** What blocks the upload after room was made blocked Put from the start. */
    lemma UploadBlocked(t: Tree, t1: Tree, dir: Path, name: Name, noOverwrite: bool)
      requires WellFormed(t) && NoUpload(t1, dir, name)
      requires RoomMade(t, t1, dir + [name], dir + [TempName(name)], noOverwrite)
      requires Outside(t, t1, dir + [name], dir + [TempName(name)])
      ensures Blocked(t, dir, name, noOverwrite)
    {
      hide WellFormed, Outside, Grafted;
      var dst, temp := dir + [name], dir + [TempName(name)];
      if q :| q <= dir && q in t1 && !t1[q].isDir {
        StillOnWay(t, t1, dir, name, q);
      } else if IsDir(t1, dst) && dst in t && t[dst].size > 0 && noOverwrite {
        GraftEnds(t, t1, dst, temp, false);
      }
    }

    lemma StillOnWay(t: Tree, t1: Tree, dir: Path, name: Name, q: Path)
      requires Outside(t, t1, dir + [name], dir + [TempName(name)]) && q <= dir && (q in t1 ==> !t1[q].isDir)
      ensures q in t <==> q in t1
      ensures q in t ==> t1[q] == t[q]
    {
      assert !(dir + [name] <= q) && !(dir + [TempName(name)] <= q);
    }

    /** A file that was written was not blocked. */
    lemma UploadNotBlocked(t: Tree, t1: Tree, t': Tree, dir: Path, name: Name, noOverwrite: bool)
      requires WellFormed(t') && dir + [name] in t'
      requires RoomMade(t, t1, dir + [name], dir + [TempName(name)], noOverwrite)
      requires Outside(t, t', dir + [name], dir + [TempName(name)])
      requires dir + [name] in t && dir + [name] in t1 ==> !t1[dir + [name]].isDir
      ensures !Blocked(t, dir, name, noOverwrite)
    {
      hide WellFormed, Outside, Grafted;
      CleanPath(t', dir + [name]);
      assert (dir + [name])[|dir|] == name;
      assert forall n :: n in dir ==> n in dir + [name];
      if q :| q <= dir && q in t && !t[q].isDir {
        KeptOutside(t, t', dir, name, q);
        PrefixInTree(t', q, dir + [name]);
      }
    }

    lemma KeptOutside(t: Tree, t': Tree, dir: Path, name: Name, q: Path)
      requires Outside(t, t', dir + [name], dir + [TempName(name)]) && q <= dir && q in t
      ensures q in t' && t'[q] == t[q]
    {
      assert !(dir + [name] <= q) && !(dir + [TempName(name)] <= q);
    }

    /** After a failed upload an object that stepped aside is back. */
    lemma PutFailed(t: Tree, t1: Tree, t': Tree, dir: Path, name: Name, aside: bool)
      requires WellFormed(t) && dir + [name] in t && t[dir + [name]].size > 0
      requires if aside then RoomMade(t, t1, dir + [name], dir + [TempName(name)], true) else t1 == t
      requires Outside(t, t1, dir + [name], dir + [TempName(name)])
      requires if aside then CanGraft(t1, dir + [TempName(name)], dir + [name], false) ==>
                               Grafted(t1, t', dir + [TempName(name)], dir + [name], false)
               else t' == t1
      ensures t' == t
    {
      hide WellFormed, Outside, Grafted, TempName;
      var dst, temp := dir + [name], dir + [TempName(name)];
      if aside {
        GraftEnds(t, t1, dst, temp, false);
        KeepsDir(t, t1, dir, name, temp);
        TempApart(dir, name);
        CleanPath(t, dst);
        assert Parent(dst) == dir && Last(dst) == name && name in dst;
        GraftBack(t, t1, t', dst, temp);
      }
    }

    /** What the two halves of Put make of the tree together. */
    lemma PutEnds(t: Tree, t1: Tree, t': Tree, dst: Path, temp: Path, aside: bool, done: bool)
      requires WellFormed(t) && !(temp <= dst) && RoomMade(t, t1, dst, temp, aside)
      requires dst !in t ==> WrittenAt(t1, t', dst)
      requires done && dst in t ==>
        && dst in t' && !t'[dst].isDir && (dst in t1 ==> !t1[dst].isDir)
        && t' == if aside && t[dst].size > 0 then Without(t1[dst := t'[dst]], temp) else t1[dst := t'[dst]]
      ensures dst !in t ==> WrittenAt(t, t', dst)
      ensures done && dst in t ==> t' == Without(t, dst)[dst := t'[dst]]
    {
      hide WellFormed, WrittenAt, Without, Grafted, CanGraft, RoomMade;
      if dst !in t {
        NothingAside(t, t1, dst, temp, aside);
      } else if done {
        Replaced(t, t1, t', dst, temp, aside, t'[dst]);
      }
    }

    /** Put from the upload on; only an upload that was tried is cleaned up after. */
    method PutReplace(dstDirPath: Path, name: Name, size: nat, aside: bool) returns (r: OpResult)
      requires Consistent()
      modifies `faults, `tree, cache, cache.Objects()
      ensures Consistent() && fresh(cache.Objects() - old(cache.Objects())) && faults >= old(faults)
      ensures Outside(old(tree), tree, dstDirPath + [name], dstDirPath + [TempName(name)])
      ensures !aside ==> WrittenAt(old(tree), tree, dstDirPath + [name])
      ensures r == Done ==> IsFile(tree, dstDirPath + [name], size)
      ensures IsDir(old(tree), dstDirPath) && r == Done && faults == old(faults) ==>
        && (dstDirPath + [name] in old(tree) ==> !old(tree)[dstDirPath + [name]].isDir)
        && var t := old(tree)[dstDirPath + [name] := tree[dstDirPath + [name]]];
           tree == if aside then Without(t, dstDirPath + [TempName(name)]) else t
      ensures r != Done ==> faults > old(faults) || NoUpload(old(tree), dstDirPath, name)
      ensures IsDir(old(tree), dstDirPath) && r == Refused(UploadFailed) ==>
        if !aside then tree == old(tree)
        else faults <= old(faults) + 1 && CanGraft(old(tree), dstDirPath + [TempName(name)], dstDirPath + [name], false) ==>
          Grafted(old(tree), tree, dstDirPath + [TempName(name)], dstDirPath + [name], false)
    {
      hide Agrees, ListingOk, WellFormed, Outside, WrittenAt, Without, Grafted, Unmakable;
      if IsDir(tree, dstDirPath) { DirIsMade(tree, dstDirPath); }
      r := PutUpload(dstDirPath, name, size);
      if r != Done && r != Refused(UploadFailed) { return; }
      if aside {
        ghost var t1 := tree;
        r := PutFinish(dstDirPath, name, r);
        OutsideTrans(old(tree), t1, tree, dstDirPath + [name], dstDirPath + [TempName(name)]);
      }
    }

    lemma {:induction false} CleanPath(t: Tree, path: Path)
      requires WellFormed(t) && path in t
      ensures "" !in path
      decreases |path|
    {
      if path != [] {
        CleanPath(t, Parent(path));
        assert path == Parent(path) + [Last(path)];
      }
    }

    lemma DirIsMade(t: Tree, dir: Path)
      requires Consistent() && t == tree && IsDir(t, dir)
      ensures !Unmakable(t, dir)
    {
      CleanPath(t, dir);
      if q :| q <= dir && q in t && !t[q].isDir { NoFileOnWay(t, dir, q); }
    }

    lemma NothingAside(t: Tree, t1: Tree, dst: Path, temp: Path, aside: bool)
      requires dst !in t && RoomMade(t, t1, dst, temp, aside)
      ensures t1 == t
    {
    }

    lemma TreeOk()
      requires Consistent()
      ensures WellFormed(tree) && IsDir(tree, [])
    {
    }

    /** The part of Put before the upload. */
    method PutPrepare(dstDirPath: Path, name: Name, fi: Option<Obj>) returns (r: OpResult)
      requires Consistent()
      requires fi.Some? ==> dstDirPath + [name] in tree && fi.value.size == tree[dstDirPath + [name]].size
      modifies `faults, `tree, cache, cache.Objects()
      ensures Consistent() && fresh(cache.Objects() - old(cache.Objects())) && faults >= old(faults)
      ensures Outside(old(tree), tree, dstDirPath + [name], dstDirPath + [TempName(name)])
      ensures r != Done ==> tree == old(tree) && r != Refused(UploadFailed)
      ensures r != Done && faults == old(faults) ==>
        fi.Some? && fi.value.size > 0 && noOverwriteUpload && dstDirPath + [TempName(name)] in old(tree)
      ensures r == Done && fi.None? ==> tree == old(tree)
      ensures r == Done && fi.Some? && fi.value.size > 0 ==>
        if noOverwriteUpload then RoomMade(old(tree), tree, dstDirPath + [name], dstDirPath + [TempName(name)], true)
        else tree == old(tree)
      ensures r == Done && faults == old(faults) && (fi.None? ==> dstDirPath + [name] !in old(tree)) ==>
        RoomMade(old(tree), tree, dstDirPath + [name], dstDirPath + [TempName(name)], noOverwriteUpload)
    {
      hide Agrees, ListingOk, WellFormed, Outside, Without, Grafted, CanGraft;
      ghost var dst, temp := dstDirPath + [name], dstDirPath + [TempName(name)];
      assert Parent(dst) == dstDirPath && Last(dst) == name;
      Nothing(tree, dst, temp);
      if fi.Some? && fi.value.size == 0 {
        r := Remove(dstDirPath + [name]);
        WithoutOutside(old(tree), dst, temp);
      } else if fi.Some? && noOverwriteUpload {
        CanStepAside(tree, dstDirPath, name);
        r := Rename(dstDirPath + [name], TempName(name));
        if r == Done { GraftOutside(old(tree), tree, dst, temp); }
      } else {
        r := Done;
      }
    }

    lemma CanStepAside(t: Tree, dir: Path, name: Name)
      requires Consistent() && t == tree && dir + [name] in t
      ensures CanGraft(t, dir + [name], dir + [TempName(name)], false) <==> dir + [TempName(name)] !in t
    {
      var dst, temp := dir + [name], dir + [TempName(name)];
      assert Parent(dst) == dir == Parent(temp) && Last(temp) == TempName(name) != "";
      assert dst[|dir|] != temp[|dir|] by { assert |TempName(name)| > |name|; }
    }

    lemma Nothing(t: Tree, dst: Path, temp: Path)
      ensures Outside(t, t, dst, temp)
    {
    }

    /** The part of Put around the driver's upload. */
    method PutUpload(dstDirPath: Path, name: Name, size: nat) returns (r: OpResult)
      requires Consistent()
      modifies `faults, `tree, cache, cache.Objects()
      ensures Consistent() && fresh(cache.Objects() - old(cache.Objects())) && faults >= old(faults)
      ensures Outside(old(tree), tree, dstDirPath + [name], dstDirPath + [TempName(name)])
      ensures r == Done ==> IsFile(tree, dstDirPath + [name], size)
      ensures WrittenAt(old(tree), tree, dstDirPath + [name])
      ensures IsDir(old(tree), dstDirPath) ==>
        && (r == Done ==> (dstDirPath + [name] in old(tree) ==> !old(tree)[dstDirPath + [name]].isDir)
                          && tree == old(tree)[dstDirPath + [name] := tree[dstDirPath + [name]]])
        && (r != Done ==> tree == old(tree))
      ensures r != Done ==> faults > old(faults) || NoUpload(old(tree), dstDirPath, name)
    {
      hide Agrees, ListingOk, WellFormed, Outside, OnlyDirsAdded, WrittenAt, Unmakable, CanPut;
      TreeOk();
      ghost var dst, temp := dstDirPath + [name], dstDirPath + [TempName(name)];
      r := MakeDir(dstDirPath);
      DirsThenFile(old(tree), tree, tree, dstDirPath, name);
      DirsOutside(old(tree), tree, dstDirPath, name, temp);
      if IsDir(old(tree), dstDirPath) { NoDirsNeeded(old(tree), tree, dstDirPath); }
      if r != Done { return; }
      var parentDir := Get(dstDirPath, true);
      if parentDir.None? { return Refused(NotFound); }
      ghost var t2 := tree;
      UploadCanGo(old(tree), t2, dstDirPath, name);
      r := PutIn(dstDirPath, name, size);
      DirsThenFile(old(tree), t2, tree, dstDirPath, name);
      OutsideTrans(old(tree), t2, tree, dst, temp);
    }

    lemma UploadCanGo(t: Tree, t1: Tree, dir: Path, name: Name)
      requires OnlyDirsAdded(t, t1, dir) && IsDir(t1, dir)
      ensures CanPut(t1, dir, name) || NoUpload(t, dir, name)
    {
    }

    method PutIn(dir: Path, name: Name, size: nat) returns (r: OpResult)
      requires Consistent()
      modifies `faults, `tree, cache, cache.Objects()
      ensures Consistent() && cache.Objects() <= old(cache.Objects())
      ensures Outside(old(tree), tree, dir + [name], dir + [TempName(name)])
      ensures r == Done ==>
        && faults == old(faults) && (dir + [name] in old(tree) ==> !old(tree)[dir + [name]].isDir)
        && IsFile(tree, dir + [name], size) && tree == old(tree)[dir + [name] := tree[dir + [name]]]
      ensures r != Done ==>
        && r == Refused(UploadFailed) && tree == old(tree) && faults >= old(faults)
        && (faults > old(faults) || !CanPut(old(tree), dir, name))
    {
      hide Agrees, ListingOk, WellFormed;
      ghost var t, view, links := tree, cache.Listings(), cache.linkCache;
      var made := DriverPut(dir, name, size);
      if made.Failed? { return Refused(UploadFailed); }
      var newObj := if made.o.None? then Obj(name, false, size, true) else made.o.value;
      cache.DeleteLink(dir + [name]);
      PatchListing(dir, newObj.name, newObj);
      ghost var p := dir + [name];
      assert Parent(p) == dir && Last(p) == name;
      WriteKeeps(t, view, links, p, tree[p], newObj.name, newObj);
      return Done;
    }

    /** After the upload the object that stepped aside is put back or removed. */
    method PutFinish(dstDirPath: Path, name: Name, upload: OpResult) returns (r: OpResult)
      requires Consistent()
      modifies `faults, `tree, cache, cache.Objects()
      ensures Consistent() && fresh(cache.Objects() - old(cache.Objects())) && faults >= old(faults)
      ensures Outside(old(tree), tree, dstDirPath + [name], dstDirPath + [TempName(name)])
      ensures upload != Done ==> r == upload
      ensures upload == Done ==> r == Done || (r == Refused(CleanupFailed) && faults > old(faults))
      ensures upload == Done && faults == old(faults) ==> tree == Without(old(tree), dstDirPath + [TempName(name)])
      ensures upload == Done && dstDirPath + [name] in old(tree) ==>
                dstDirPath + [name] in tree && tree[dstDirPath + [name]] == old(tree)[dstDirPath + [name]]
      ensures upload != Done && faults == old(faults)
              && CanGraft(old(tree), dstDirPath + [TempName(name)], dstDirPath + [name], false) ==>
                Grafted(old(tree), tree, dstDirPath + [TempName(name)], dstDirPath + [name], false)
    {
      hide Agrees, ListingOk, WellFormed, Outside, Without, Grafted, CanGraft;
      var tempPath := dstDirPath + [TempName(name)];
      ghost var dst := dstDirPath + [name];
      assert Parent(tempPath) == dstDirPath && Last(tempPath) == TempName(name);
      Nothing(tree, dst, tempPath);
      if upload != Done {
        var back := Rename(tempPath, name);
        if back == Done { GraftOutside(old(tree), tree, dst, tempPath); }
        return upload;
      }
      var gone := Remove(tempPath);
      TempApart(dstDirPath, name);
      if dst in old(tree) { WithoutKeepsOther(old(tree), tempPath, dst); }
      WithoutOutside(old(tree), dst, tempPath);
      return if gone == Done then Done else Refused(CleanupFailed);
    }
  }

  lemma LookedUp(t: Tree, dir: Path, objs: seq<Obj>, name: Name, f: Option<Obj>)
    requires ListingOk(t, dir, objs) && (f.None? ==> !Lists(objs, name))
    requires f.Some? ==> f.value in objs && f.value.name == name
    ensures f.Some? <==> dir + [name] in t
    ensures f.Some? ==> Matches(f.value, t[dir + [name]]) && f.value.isDir == t[dir + [name]].isDir
  {
  }

  lemma TempApart(dir: Path, name: Name)
    ensures !(dir + [TempName(name)] <= dir + [name])
  {
    var temp, dst := dir + [TempName(name)], dir + [name];
    assert temp[|dir|] != dst[|dir|] by { assert |TempName(name)| > |name|; }
  }

  method FindName(objs: seq<Obj>, name: Name) returns (r: Option<Obj>)
    ensures r.Some? ==> r.value in objs && r.value.name == name
    ensures r.None? ==> !Lists(objs, name)
  {
    for i := 0 to |objs|
      invariant forall j :: 0 <= j < i ==> objs[j].name != name
    {
      if objs[i].name == name { return Some(objs[i]); }
    }
    return None;
  }

  lemma {:induction false} TwiceIn(s: seq<Obj>, i: nat, j: nat)
    requires i < j < |s| && s[i] == s[j]
    ensures multiset(s)[s[i]] >= 2
  {
    assert s == s[..j] + s[j..];
    assert s[i] in s[..j] && s[j] in s[j..];
    assert multiset(s)[s[i]] == multiset(s[..j])[s[i]] + multiset(s[j..])[s[i]];
  }

  lemma {:induction false} OnceIn(s: seq<Obj>, o: Obj)
    requires forall i, j :: 0 <= i < j < |s| ==> s[i].name != s[j].name
    ensures multiset(s)[o] <= 1
  {
    if s != [] {
      var rest := s[..|s| - 1];
      assert s == rest + [s[|s| - 1]];
      OnceIn(rest, o);
      if s[|s| - 1] == o { assert o !in rest; }
    }
  }

  /** The order of a listing does not matter. */
  lemma ListingPermuted(t: Tree, p: Path, a: seq<Obj>, b: seq<Obj>)
    requires ListingOk(t, p, a) && multiset(a) == multiset(b)
    ensures ListingOk(t, p, b)
  {
    assert forall o :: o in a <==> o in multiset(a);
    forall i | 0 <= i < |b| ensures b[i] in a {
      assert b[i] in multiset(b);
    }
    forall n | p + [n] in t ensures Lists(b, n) {
      var i := FirstOf(a, n);
      assert a[i] in multiset(b);
    }
    forall i, j | 0 <= i < j < |b| ensures b[i].name != b[j].name {
      if b[i] == b[j] {
        TwiceIn(b, i, j);
        OnceIn(a, b[i]);
      } else {
        assert b[i] in a && b[j] in a;
      }
    }
  }
}
