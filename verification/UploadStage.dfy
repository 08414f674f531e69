/** The stage of server/ftp/upload_stage.go: files that are still being uploaded, seen under
    their latest path, with a link per path they were moved to. Every operation runs under the
    stage's mutex. */
module UploadStage {
  import opened Basics

  /** FTP paths are absolute, so never empty; an empty current path marks a removed file. */
  type Path = p: string | p != "" witness "/"

  datatype Item = Origin(f: UploadingFile) | Link(f: UploadingFile)

  datatype StageError = NotFound | Moved | Conflict | OpenFailed

  /** `moved` records the paths mvCallback was called with. */
  class UploadingFile {
    const origin: Path
    var refCount: int
    var currentPath: string
    var softLinks: seq<Path>
    var moved: seq<string>

    constructor (path: Path)
      ensures origin == path && refCount == 1 && currentPath == path && softLinks == [] && moved == []
    {
      origin, refCount, currentPath, softLinks, moved := path, 1, path, [], [];
    }

    /** mvCallback, for a file that was moved away from `path` and not removed. */
    method Tell(path: Path)
      modifies `moved
      ensures moved == old(moved) + if currentPath != path && currentPath != "" then [currentPath] else []
    {
      if currentPath != path {
        if currentPath != "" { moved := moved + [currentPath]; }
      }
    }

    /** The path the file was last moved to. */
    ghost function Latest(): Path
      reads this
    {
      if softLinks == [] then origin else softLinks[|softLinks| - 1]
    }
  }

  class Stage {
    var trie: map<Path, Item>
    /** Every file ever staged, with the paths its open handles were opened at. */
    ghost var open: map<UploadingFile, multiset<Path>>

    ghost predicate Valid()
      reads this, open.Keys
    {
      Consistent(trie, open)
    }

    static ghost predicate Consistent(trie: map<Path, Item>, open: map<UploadingFile, multiset<Path>>)
      reads open.Keys
    {
      EntriesOk(trie, open) && CountsOk(open) && LivesOk(trie, open)
    }

    static ghost predicate EntriesOk(trie: map<Path, Item>, open: map<UploadingFile, multiset<Path>>)
      reads open.Keys
    {
      forall p :: p in trie ==> trie[p].f in open && EntryOk(p, trie[p])
    }

    static ghost predicate CountsOk(open: map<UploadingFile, multiset<Path>>)
      reads open.Keys
    {
      forall f :: f in open ==> f.refCount == |open[f]| && FileOk(f)
    }

    static ghost predicate LivesOk(trie: map<Path, Item>, open: map<UploadingFile, multiset<Path>>)
      reads open.Keys
    {
      forall f :: f in open && f.refCount > 0 ==> LiveOk(f, trie, open[f])
    }

    /** A file stands at its origin, and every soft link names a file in use that lists it. A
        file out of use does not answer any more. */
    static ghost predicate EntryOk(p: Path, x: Item)
      reads x.f
    {
      if x.Origin? then x.f.origin == p && (x.f.refCount > 0 || x.f.currentPath != p)
      else p in x.f.softLinks && x.f.refCount > 0
    }

    static ghost predicate FileOk(f: UploadingFile)
      reads f
    {
      f.currentPath == "" || f.currentPath == f.Latest()
    }

    /** A file in use is in the trie under its origin and all its links, and every handle was
        opened at one of them. */
    static ghost predicate LiveOk(f: UploadingFile, trie: map<Path, Item>, handles: multiset<Path>)
      reads f
    {
      && f.origin in trie && trie[f.origin] == Origin(f) && f.origin !in f.softLinks
      && (forall p :: p in f.softLinks ==> p in trie && trie[p] == Link(f))
      && (forall p :: p in handles ==> p == f.origin || p in f.softLinks)
    }

    constructor ()
      ensures Valid() && trie == map[] && open == map[]
    {
      trie := map[];
      open := map[];
    }

    static lemma NewEntry(trie: map<Path, Item>, open: map<UploadingFile, multiset<Path>>, path: Path, f: UploadingFile)
      requires Consistent(trie, open) && path !in trie && f !in open
      requires f.origin == path && f.refCount == 1 && f.currentPath == path && f.softLinks == []
      ensures Consistent(trie[path := Origin(f)], open[f := multiset{path}])
    {
      var trie', open' := trie[path := Origin(f)], open[f := multiset{path}];
      NewFile(trie', f);
      hide LiveOk, EntryOk, FileOk;
      assert EntriesOk(trie', open') by { hide LivesOk, CountsOk; }
      assert CountsOk(open') by { hide LivesOk, EntriesOk; }
      assert LivesOk(trie', open') by { NewLives(trie, open, path, f); }
    }

    static lemma NewLives(trie: map<Path, Item>, open: map<UploadingFile, multiset<Path>>, path: Path, f: UploadingFile)
      requires LivesOk(trie, open) && path !in trie && f !in open
      requires LiveOk(f, trie[path := Origin(f)], multiset{path})
      ensures LivesOk(trie[path := Origin(f)], open[f := multiset{path}])
    {
      hide LiveOk;
      var trie', open' := trie[path := Origin(f)], open[f := multiset{path}];
      forall g | g in open' && g.refCount > 0 ensures LiveOk(g, trie', open'[g]) {
        if g != f { LiveStays(g, trie, trie', open[g], f); }
      }
    }

    static lemma NewFile(trie: map<Path, Item>, f: UploadingFile)
      requires f.origin in trie && trie[f.origin] == Origin(f) && f.refCount == 1 && f.currentPath == f.origin && f.softLinks == []
      ensures EntryOk(f.origin, trie[f.origin]) && FileOk(f) && LiveOk(f, trie, multiset{f.origin})
    {
    }

    /** What a path resolves to. */
    ghost function At(p: Path): Option<UploadingFile>
      reads this
    {
      if p in trie then Some(trie[p].f) else None
    }

    method MakeStage(path: Path) returns (r: Result<UploadingFile, StageError>)
      requires Valid()
      modifies this
      ensures Valid()
      ensures r.Ok? <==> path !in old(trie)
      ensures r.Ok? ==> fresh(r.value) && r.value.origin == path && r.value.currentPath == path
      ensures r.Ok? ==> trie == old(trie)[path := Origin(r.value)] && open == old(open)[r.value := multiset{path}]
      ensures r.Err? ==> r.error == Conflict && trie == old(trie) && open == old(open)
    {
      if path in trie { return Err(Conflict); }
      hide Consistent;
      var f := new UploadingFile(path);
      ghost var t, was := trie, open;
      assert Consistent(t, was);
      trie := trie[path := Origin(f)];
      open := was[f := multiset{path}];
      NewEntry(t, was, path, f);
      return Ok(f);
    }

    /** The check that Borrow, StatStage, MoveStage and RemoveStage share: a path answers only
        for the file whose latest path it is, and not after it was removed. */
    method Find(path: Path) returns (r: Result<UploadingFile, StageError>)
      requires Valid()
      ensures r.Ok? <==> path in trie && trie[path].f.currentPath == path
      ensures r.Ok? ==> r.value == trie[path].f && r.value in open && r.value.Latest() == path && r.value.refCount > 0
      ensures r.Err? ==> r.error == if path in trie then Moved else NotFound
    {
      if path !in trie { return Err(NotFound); }
      var s := trie[path].f;
      if s.currentPath != path { return Err(Moved); }
      return Ok(s);
    }

    /** Everything is in order but, maybe, for `f` and its entries. */
    static ghost predicate OthersOk(trie: map<Path, Item>, open: map<UploadingFile, multiset<Path>>, f: UploadingFile)
      reads open.Keys - {f}
    {
      && (forall p :: p in trie && trie[p].f != f ==> trie[p].f in open && EntryOk(p, trie[p]))
      && (forall g :: g in open && g != f ==> g.refCount == |open[g]| && FileOk(g))
      && (forall g :: g in open && g != f && g.refCount > 0 ==> LiveOk(g, trie, open[g]))
    }

    /** A change of `f` and its entries that leaves them in order. */
    static lemma Together(trie: map<Path, Item>, open: map<UploadingFile, multiset<Path>>,
                          f: UploadingFile, trie': map<Path, Item>, handles: multiset<Path>)
      requires OthersOk(trie, open, f) && f in open
      requires forall p :: p in trie && trie[p].f != f ==> p in trie' && trie'[p] == trie[p]
      requires forall p :: p in trie' && trie'[p].f != f ==> p in trie && trie'[p] == trie[p]
      requires forall p :: p in trie' && trie'[p].f == f ==> EntryOk(p, trie'[p])
      requires f.refCount == |handles| && FileOk(f) && (f.refCount > 0 ==> LiveOk(f, trie', handles))
      ensures Consistent(trie', open[f := handles])
    {
      hide LiveOk, EntryOk, FileOk;
      var open' := open[f := handles];
      assert EntriesOk(trie', open') by { hide LivesOk, CountsOk; }
      assert CountsOk(open') by { hide LivesOk, EntriesOk; }
      forall g | g in open' && g.refCount > 0 ensures LiveOk(g, trie', open'[g]) {
        if g != f { LiveStays(g, trie, trie', open[g], f); }
      }
    }

    static lemma LiveStays(g: UploadingFile, trie: map<Path, Item>, trie': map<Path, Item>, handles: multiset<Path>, f: UploadingFile)
      requires LiveOk(g, trie, handles) && g != f
      requires forall p :: p in trie && trie[p].f != f ==> p in trie' && trie'[p] == trie[p]
      ensures LiveOk(g, trie', handles)
    {
    }

    /** Borrow: one more handle on the file that answers at `path`. */
    method Borrow(path: Path, opens: bool) returns (r: Result<UploadingFile, StageError>)
      requires Valid()
      modifies this, open.Keys
      ensures Valid() && trie == old(trie)
      ensures r.Ok? <==> old(Answers(path)) && opens
      ensures r.Err? ==> r.error == if old(Answers(path)) then OpenFailed else if path in trie then Moved else NotFound
      ensures r.Ok? ==> r.value in old(open) && path in trie && trie[path].f == r.value && r.value.currentPath == path
      ensures r.Ok? ==> open == old(open)[r.value := old(open)[r.value] + multiset{path}]
      ensures r.Err? ==> open == old(open) && forall g :: g in open ==> g.refCount == old(g.refCount)
      ensures forall g :: g in open ==> g.currentPath == old(g.currentPath) && g.softLinks == old(g.softLinks)
    {
      hide Valid, Consistent;
      var s := Find(path);
      if s.Err? { return s; }
      if !opens { return Err(OpenFailed); }
      AddHandle(s.value, path);
      return s;
    }

    /** Everything the trie has of a file: its origin and its links. */
    static ghost predicate OwnAll(trie: map<Path, Item>, f: UploadingFile, links: seq<Path>, path: Path) {
      && f.origin in trie && trie[f.origin] == Origin(f) && f.origin !in links
      && (forall p :: p in trie && trie[p].f == f ==> if trie[p].Origin? then p == f.origin else p in links)
      && (forall p :: p in links ==> p in trie && trie[p] == Link(f))
      && (path == f.origin || path in links)
    }

    static predicate HandlesOk(origin: Path, links: seq<Path>, handles: multiset<Path>) {
      forall p :: p in handles ==> p == origin || p in links
    }

    /** What is known of a file in use. */
    static lemma InUse(trie: map<Path, Item>, open: map<UploadingFile, multiset<Path>>, f: UploadingFile)
      requires Consistent(trie, open) && f in open && f.refCount > 0
      ensures OthersOk(trie, open, f) && OwnAll(trie, f, f.softLinks, f.origin)
      ensures HandlesOk(f.origin, f.softLinks, open[f]) && f.refCount == |open[f]| && FileOk(f)
    {
      assert LiveOk(f, trie, open[f]);
    }

    /** A change of a file in use, its handles included, that leaves its entries alone. */
    static lemma StillInUse(trie: map<Path, Item>, open: map<UploadingFile, multiset<Path>>, f: UploadingFile, handles: multiset<Path>)
      requires OthersOk(trie, open, f) && f in open && f.refCount == |handles| && f.refCount > 0 && FileOk(f)
      requires OwnAll(trie, f, f.softLinks, f.origin) && HandlesOk(f.origin, f.softLinks, handles)
      ensures Consistent(trie, open[f := handles])
    {
      hide OthersOk, Consistent;
      Together(trie, open, f, trie, handles);
    }

    method Count(f: UploadingFile, refCount: int, ghost handles: multiset<Path>)
      modifies `open, f`refCount
      ensures f.refCount == refCount && open == old(open)[f := handles]
    {
      f.refCount := refCount;
      open := open[f := handles];
    }

    method AddHandle(f: UploadingFile, path: Path)
      requires Valid() && f in open && path in trie && trie[path].f == f && f.refCount > 0
      modifies `open, f`refCount
      ensures Valid() && open == old(open)[f := old(open)[f] + multiset{path}]
    {
      hide Consistent, OthersOk, OwnAll, HandlesOk;
      InUse(trie, open, f);
      PathIsOwn(trie, f, f.softLinks, path, open[f]);
      ghost var was := open;
      Count(f, f.refCount + 1, was[f] + multiset{path});
      StillInUse(trie, was, f, was[f] + multiset{path});
    }

    static lemma PathIsOwn(trie: map<Path, Item>, f: UploadingFile, links: seq<Path>, path: Path, handles: multiset<Path>)
      requires OwnAll(trie, f, links, f.origin) && HandlesOk(f.origin, links, handles) && path in trie && trie[path].f == f
      ensures HandlesOk(f.origin, links, handles + multiset{path}) && |handles + multiset{path}| == |handles| + 1
    {
    }

    /** A path a handle was opened at still leads to the handle's file. */
    static lemma HandleLeads(trie: map<Path, Item>, open: map<UploadingFile, multiset<Path>>, f: UploadingFile, path: Path)
      requires Consistent(trie, open) && f in open && path in open[f]
      ensures path in trie && trie[path].f == f
    {
      OneHandle(open[f], path);
      assert LiveOk(f, trie, open[f]);
    }

    /** drop: a handle of `f`, opened at `path`, is closed. The path always leads to `f`. The last
        handle removes the links and the path it was opened at, and tells where a file that was
        moved, and not removed, is to go. */
    method Drop(path: Path, ghost f: UploadingFile) returns (last: bool)
      requires Valid() && f in open && path in open[f]
      modifies this, f
      ensures Valid() && open == old(open)[f := old(open)[f] - multiset{path}]
      ensures path in old(trie) && old(trie)[path].f == f
      ensures last <==> |open[f]| == 0
      ensures f.softLinks == old(f.softLinks) && f.currentPath == old(f.currentPath)
      ensures trie == if last then Dropped(old(trie), f.softLinks, path) else old(trie)
      ensures f.moved == old(f.moved) + if last && f.currentPath != path && f.currentPath != "" then [f.currentPath] else []
    {
      HandleLeads(trie, open, f, path);
      hide Valid, Consistent, Dropped;
      last := DropFrom(trie[path].f, path);
    }

    static lemma Counted(trie: map<Path, Item>, open: map<UploadingFile, multiset<Path>>, f: UploadingFile)
      requires Consistent(trie, open) && f in open
      ensures f.refCount == |open[f]|
    {
      hide EntriesOk, LivesOk, FileOk;
    }

    /** The rest of drop, on the file the path leads to. */
    method DropFrom(f: UploadingFile, path: Path) returns (last: bool)
      requires Valid() && f in open && path in open[f]
      modifies this, f
      ensures Valid() && open == old(open)[f := old(open)[f] - multiset{path}]
      ensures last <==> |open[f]| == 0
      ensures f.softLinks == old(f.softLinks) && f.currentPath == old(f.currentPath)
      ensures trie == if last then Dropped(old(trie), f.softLinks, path) else old(trie)
      ensures f.moved == old(f.moved) + if last && f.currentPath != path && f.currentPath != "" then [f.currentPath] else []
    {
      hide Consistent, Dropped;
      Counted(trie, open, f);
      OneHandle(open[f], path);
      last := f.refCount == 1;
      if last {
        DropLast(f, path);
      } else {
        DropOne(f, path);
      }
    }

    method DropOne(f: UploadingFile, path: Path)
      requires Valid() && f in open && path in open[f] && |open[f]| > 1
      modifies `open, f`refCount
      ensures Valid() && open == old(open)[f := old(open)[f] - multiset{path}]
    {
      InUse(trie, open, f);
      OneHandle(open[f], path);
      FewerHandles(f.origin, f.softLinks, open[f], path);
      hide Consistent, OthersOk, OwnAll, HandlesOk;
      ghost var was := open;
      Count(f, f.refCount - 1, was[f] - multiset{path});
      StillInUse(trie, was, f, was[f] - multiset{path});
    }

    static lemma FewerHandles(origin: Path, links: seq<Path>, handles: multiset<Path>, path: Path)
      requires HandlesOk(origin, links, handles)
      ensures HandlesOk(origin, links, handles - multiset{path})
    {
    }

    method DropLast(f: UploadingFile, path: Path)
      requires Valid() && f in open && open[f] == multiset{path}
      modifies this, f`refCount, f`moved
      ensures Valid() && open == old(open)[f := multiset{}]
      ensures trie == Dropped(old(trie), f.softLinks, path)
      ensures f.moved == old(f.moved) + if f.currentPath != path && f.currentPath != "" then [f.currentPath] else []
    {
      OwnPlaces(trie, open, f, path);
      hide Consistent, OthersOk, Dropped, OwnAll;
      ghost var t, was := trie, open;
      Release(f, path);
      assert OthersOk(t, was, f);
      open := was[f := multiset{}];
      LastDrop(t, was, f, path);
    }

    method Release(f: UploadingFile, path: Path)
      modifies `trie, f`refCount, f`moved
      ensures f.refCount == old(f.refCount) - 1 && trie == Dropped(old(trie), f.softLinks, path)
      ensures f.moved == old(f.moved) + if f.currentPath != path && f.currentPath != "" then [f.currentPath] else []
    {
      f.refCount := f.refCount - 1;
      DeleteAll(f.softLinks, path);
      f.Tell(path);
    }

    static lemma OwnPlaces(trie: map<Path, Item>, open: map<UploadingFile, multiset<Path>>, f: UploadingFile, path: Path)
      requires Consistent(trie, open) && f in open && open[f] == multiset{path}
      ensures OthersOk(trie, open, f) && OwnAll(trie, f, f.softLinks, path) && f.refCount == 1 && FileOk(f)
    {
      InUse(trie, open, f);
      assert path in open[f];
    }

    static lemma OneHandle(handles: multiset<Path>, path: Path)
      requires path in handles
      ensures |handles - multiset{path}| == |handles| - 1
      ensures |handles| == 1 ==> handles == multiset{path} && handles - multiset{path} == multiset{}
    {
      assert handles == (handles - multiset{path}) + multiset{path};
    }

    /** The trie without some links and a path. */
    static ghost function Dropped(trie: map<Path, Item>, links: seq<Path>, path: Path): map<Path, Item> {
      map p | p in trie && p !in links && p != path :: trie[p]
    }

    method DeleteAll(links: seq<Path>, path: Path)
      modifies `trie
      ensures trie == Dropped(old(trie), links, path)
    {
      for i := 0 to |links|
        invariant trie == map p | p in old(trie) && p !in links[..i] :: old(trie)[p]
      {
        assert links[..i + 1] == links[..i] + [links[i]];
        trie := trie - {links[i]};
      }
      assert links[..|links|] == links;
      trie := trie - {path};
    }

    static lemma LastDrop(trie: map<Path, Item>, open: map<UploadingFile, multiset<Path>>, f: UploadingFile, path: Path)
      requires OthersOk(trie, open, f) && f in open && f.refCount == 0 && FileOk(f) && OwnAll(trie, f, f.softLinks, path)
      ensures Consistent(Dropped(trie, f.softLinks, path), open[f := multiset{}])
    {
      hide OthersOk, Consistent;
      var trie' := Dropped(trie, f.softLinks, path);
      if path != f.origin { assert f.softLinks != [] && f.Latest() in f.softLinks; }
      Together(trie, open, f, trie', multiset{});
    }

    method MoveStage(from: Path, to: Path) returns (r: Option<StageError>)
      requires Valid()
      modifies this, open.Keys
      ensures Valid() && open == old(open)
      ensures r.None? <==> from in old(trie) && old(trie[from].f.currentPath) == from && to !in old(trie)
      ensures r.None? ==>
        var f := old(trie)[from].f;
        trie == old(trie)[to := Link(f)] && f.currentPath == to && f.softLinks == old(f.softLinks) + [to]
      ensures r.Some? ==> trie == old(trie)
      ensures forall g :: g in open && (r.Some? || g != old(trie)[from].f) ==>
        g.currentPath == old(g.currentPath) && g.softLinks == old(g.softLinks)
      ensures r == Some(Conflict) <==> from in old(trie) && old(trie[from].f.currentPath) == from && to in old(trie)
    {
      hide Valid, Consistent;
      var s := Find(from);
      if s.Err? { return Some(s.error); }
      if to in trie { return Some(Conflict); }
      AddLink(s.value, to);
      return None;
    }

    method AddLink(f: UploadingFile, to: Path)
      requires Valid() && f in open && f.refCount > 0 && to !in trie
      modifies `trie, f`currentPath, f`softLinks
      ensures Valid() && trie == old(trie)[to := Link(f)]
      ensures f.currentPath == to && f.softLinks == old(f.softLinks) + [to]
    {
      InUse(trie, open, f);
      hide Consistent, OthersOk, HandlesOk, OwnAll;
      ghost var t, links := trie, f.softLinks;
      trie := trie[to := Link(f)];
      f.currentPath := to;
      f.softLinks := f.softLinks + [to];
      LinkAdded(t, open, f, to, links);
    }

    static lemma LinkAdded(trie: map<Path, Item>, open: map<UploadingFile, multiset<Path>>, f: UploadingFile,
                           to: Path, links: seq<Path>)
      requires OthersOk(trie, open, f) && f in open && to !in trie && f.refCount == |open[f]| && f.refCount > 0
      requires OwnAll(trie, f, links, f.origin) && HandlesOk(f.origin, links, open[f])
      requires f.softLinks == links + [to] && f.currentPath == to
      ensures Consistent(trie[to := Link(f)], open)
    {
      hide OthersOk, Consistent;
      assert f.Latest() == to;
      Together(trie, open, f, trie[to := Link(f)], open[f]);
      assert open[f := open[f]] == open;
    }

    method RemoveStage(path: Path) returns (r: Option<StageError>)
      requires Valid()
      modifies open.Keys
      ensures Valid() && trie == old(trie) && open == old(open)
      ensures r.None? <==> path in trie && old(trie[path].f.currentPath) == path
      ensures r.None? ==> trie[path].f.currentPath == ""
      ensures forall g :: g in open ==> g.softLinks == old(g.softLinks)
      ensures forall g :: g in open && (r.Some? || g != trie[path].f) ==> g.currentPath == old(g.currentPath)
    {
      hide Valid, Consistent;
      var s := Find(path);
      if s.Err? { return Some(s.error); }
      Unlist(s.value);
      return None;
    }

    method Unlist(f: UploadingFile)
      requires Valid() && f in open && f.refCount > 0
      modifies f`currentPath
      ensures Valid() && f.currentPath == ""
    {
      InUse(trie, open, f);
      hide Consistent, OthersOk, OwnAll, HandlesOk;
      f.currentPath := "";
      StillInUse(trie, open, f, open[f]);
      assert open[f := open[f]] == open;
    }

    /** StatStage: like Borrow, without a handle. */
    method StatStage(path: Path, opens: bool) returns (r: Result<UploadingFile, StageError>)
      requires Valid()
      ensures r.Ok? <==> Answers(path) && opens
      ensures r.Ok? ==> path in trie && trie[path].f == r.value
      ensures r.Err? ==> r.error == if Answers(path) then OpenFailed else if path in trie then Moved else NotFound
    {
      hide Valid, Consistent;
      r := Find(path);
      if r.Ok? && !opens { r := Err(OpenFailed); }
    }

    /** A path under which a file is seen. */
    ghost predicate Answers(p: Path)
      reads this, open.Keys
      requires Valid()
    {
      p in trie && trie[p].f.currentPath == p
    }

    /** Whether a path names something directly in a directory. */
    predicate DirectlyIn(p: Path, dir: string) {
      dir + "/" <= p && '/' !in p[|dir| + 1..]
    }

    /** It is the directory, a slash and a name. */
    lemma DirectlyInIs(p: Path, dir: string)
      ensures DirectlyIn(p, dir) <==> exists name: string {:trigger dir + "/" + name} :: '/' !in name && p == dir + "/" + name
    {
      if dir + "/" <= p { assert p == dir + "/" + p[|dir| + 1..]; }
      if name: string :| '/' !in name && p == dir + "/" + name {
        assert p[|dir| + 1..] == name;
      }
    }

    /** ListStage: the paths directly in a directory that answer. */
    method ListStage(dir: string) returns (r: set<Path>)
      requires Valid()
      ensures forall p :: p in r <==> DirectlyIn(p, dir) && Answers(p)
    {
      r := {};
      var left := trie.Keys;
      while left != {}
        invariant left <= trie.Keys
        invariant forall p :: p in r <==> p in trie && p !in left && DirectlyIn(p, dir) && trie[p].f.currentPath == p
        decreases |left|
      {
        var p: Path :| p in left;
        left := left - {p};
        if DirectlyIn(p, dir) && trie[p].f.currentPath == p { r := r + {p}; }
      }
    }

    // -------------------------------------------------------------- what a stage guarantees

    /** A file answers under no path but its latest, and under none once it is removed or its
        last handle is gone; every soft link names a file that lists it; and the handle count
        is the reference count. */
    lemma AnswersAtLatestOnly(p: Path)
      requires Valid() && p in trie
      ensures var f := trie[p].f;
        && f in open && f.refCount == |open[f]|
        && (trie[p].Link? ==> p in f.softLinks)
        && (Answers(p) ==> p == f.Latest() && f.refCount > 0)
        && (f.refCount == 0 || f.currentPath == "" ==> !Answers(p))
    {
      assert EntryOk(p, trie[p]) && FileOk(trie[p].f);
    }

    /** After the last drop, as `Drop` leaves the trie, nothing of the file is left in it if and
        only if the handle was opened at the origin; otherwise the origin's entry stays. */
    static lemma LastDropClears(trie: map<Path, Item>, open: map<UploadingFile, multiset<Path>>, f: UploadingFile, path: Path)
      requires Consistent(trie, open) && f in open && open[f] == multiset{path}
      ensures var t := Dropped(trie, f.softLinks, path);
        && ((forall p :: p in t ==> t[p].f != f) <==> path == f.origin)
        && (path != f.origin ==> f.origin in t && t[f.origin] == Origin(f))
    {
      OwnPlaces(trie, open, f, path);
      var t := Dropped(trie, f.softLinks, path);
      if path != f.origin { assert f.origin in t && t[f.origin].f == f; }
    }

    /** When the last handle was opened at the origin, mvCallback is called exactly when the file
        was moved and not removed, with the path it was last moved to. */
    static lemma CallbackWhenMoved(trie: map<Path, Item>, open: map<UploadingFile, multiset<Path>>, f: UploadingFile)
      requires Consistent(trie, open) && f in open && f.refCount > 0
      ensures f.currentPath != f.origin && f.currentPath != "" <==> f.softLinks != [] && f.currentPath != ""
      ensures f.currentPath != "" ==> f.currentPath == f.Latest()
    {
      assert LiveOk(f, trie, open[f]) && FileOk(f);
      if f.softLinks != [] { assert f.Latest() in f.softLinks; }
    }
  }
}
