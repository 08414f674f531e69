/** A storage's tree of directories and files, and what it means for cached listings and
    links to agree with it (internal/op/cache.go, internal/op/fs.go). */
module StorageTree {
  type Name = string
  type Path = seq<Name>

  /** `version` tells contents apart: a link is for one version of a file. */
  datatype Node = Node(isDir: bool, size: nat, version: nat)

  /** A listed object. `temp` marks one that was made up by the cache after an operation. */
  datatype Obj = Obj(name: Name, isDir: bool, size: nat, temp: bool)

  type Tree = map<Path, Node>
  type View = map<Path, seq<Obj>>

  /** The cached links: of which version of the file each one is. */
  type Links = map<Path, nat>

  function Parent(p: Path): Path
    requires p != []
  {
    p[..|p| - 1]
  }

  function Last(p: Path): Name
    requires p != []
  {
    p[|p| - 1]
  }

  predicate IsDir(t: Tree, p: Path) {
    p in t && t[p].isDir
  }

  /** A file of that size, of whatever version. */
  predicate IsFile(t: Tree, p: Path, size: nat) {
    p in t && !t[p].isDir && t[p].size == size
  }

  ghost predicate WellFormed(t: Tree) {
    IsDir(t, []) && forall p :: p in t && p != [] ==> IsDir(t, Parent(p)) && Last(p) != ""
  }

  predicate Matches(o: Obj, n: Node) {
    o.isDir == n.isDir && (!o.temp ==> o.size == n.size)
  }

  /** `objs` lists the children of `p`, each once, with the right kind, and with the right
      size unless the entry is temporary. */
  ghost predicate ListingOk(t: Tree, p: Path, objs: seq<Obj>) {
    && (forall i :: 0 <= i < |objs| ==> p + [objs[i].name] in t && Matches(objs[i], t[p + [objs[i].name]]))
    && (forall n :: p + [n] in t ==> Lists(objs, n))
    && (forall i, j :: 0 <= i < j < |objs| ==> objs[i].name != objs[j].name)
  }

  predicate Lists(objs: seq<Obj>, n: Name) {
    exists i :: 0 <= i < |objs| && objs[i].name == n
  }

  /** Cached listings agree with the tree, a cached directory's parent is cached, and a
      cached link is for the present version of a file whose directory is cached. */
  ghost predicate Agrees(t: Tree, view: View, links: Links) {
    && WellFormed(t)
    && ListingsOk(t, view)
    && ParentsCached(view)
    && LinksCached(t, view, links)
  }

  ghost predicate ListingsOk(t: Tree, view: View) {
    forall p :: p in view ==> IsDir(t, p) && ListingOk(t, p, view[p])
  }

  ghost predicate ParentsCached(view: View) {
    forall p :: p in view && p != [] ==> Parent(p) in view
  }

  ghost predicate LinksCached(t: Tree, view: View, links: Links) {
    forall l :: l in links ==> l != [] && l in t && !t[l].isDir && links[l] == t[l].version && Parent(l) in view
  }

  // ---------------------------------------------------------------- listings

  /** Two trees that agree on the children of `p` have the same listings of `p`. */
  lemma ListingSame(t: Tree, t': Tree, p: Path, objs: seq<Obj>)
    requires ListingOk(t, p, objs)
    requires forall n :: p + [n] in t <==> p + [n] in t'
    requires forall n :: p + [n] in t ==> t'[p + [n]] == t[p + [n]]
    ensures ListingOk(t', p, objs)
  {
  }

  /** The listing without its first entry of that name. */
  function RemoveName(objs: seq<Obj>, name: Name): seq<Obj> {
    if objs == [] then [] else if objs[0].name == name then objs[1..] else [objs[0]] + RemoveName(objs[1..], name)
  }

  /** The listing with the first entry called `oldName` replaced, or `o` added. */
  function UpdateName(objs: seq<Obj>, oldName: Name, o: Obj): seq<Obj> {
    if objs == [] || oldName == "" then objs + [o]
    else if objs[0].name == oldName then [o] + objs[1..]
    else [objs[0]] + UpdateName(objs[1..], oldName, o)
  }

  lemma LeaveOut<T>(s: seq<T>, i: nat)
    requires 0 < i < |s|
    ensures [s[0]] + (s[1..][..i - 1] + s[1..][i..]) == s[..i] + s[i + 1..]
  {
    assert s[1..][..i - 1] == s[1..i] && s[1..][i..] == s[i + 1..];
    assert [s[0]] + s[1..i] == s[..i];
  }

  lemma {:induction false} RemoveNameAt(objs: seq<Obj>, name: Name, i: nat)
    requires i < |objs| && objs[i].name == name && forall j :: 0 <= j < i ==> objs[j].name != name
    ensures RemoveName(objs, name) == objs[..i] + objs[i + 1..]
  {
    if i > 0 {
      RemoveNameAt(objs[1..], name, i - 1);
      LeaveOut(objs, i);
    }
  }

  lemma {:induction false} RemoveNameAbsent(objs: seq<Obj>, name: Name)
    requires forall j :: 0 <= j < |objs| ==> objs[j].name != name
    ensures RemoveName(objs, name) == objs
  {
    if objs != [] { RemoveNameAbsent(objs[1..], name); }
  }

  lemma {:induction false} UpdateNameAt(objs: seq<Obj>, oldName: Name, o: Obj, i: nat)
    requires oldName != "" && i < |objs| && objs[i].name == oldName && forall j :: 0 <= j < i ==> objs[j].name != oldName
    ensures UpdateName(objs, oldName, o) == objs[i := o]
  {
    if i > 0 {
      UpdateNameAt(objs[1..], oldName, o, i - 1);
      assert [objs[0]] + objs[1..][i - 1 := o] == objs[i := o];
    }
  }

  lemma {:induction false} UpdateNameAbsent(objs: seq<Obj>, oldName: Name, o: Obj)
    requires oldName == "" || forall j :: 0 <= j < |objs| ==> objs[j].name != oldName
    ensures UpdateName(objs, oldName, o) == objs + [o]
  {
    if objs != [] && oldName != "" {
      UpdateNameAbsent(objs[1..], oldName, o);
      assert [objs[0]] + (objs[1..] + [o]) == objs + [o];
    }
  }

  /** The first entry of a name that is listed. */
  lemma FirstOf(objs: seq<Obj>, n: Name) returns (i: nat)
    requires Lists(objs, n)
    ensures i < |objs| && objs[i].name == n && forall j :: 0 <= j < i ==> objs[j].name != n
  {
    i := 0;
    while objs[i].name != n
      invariant i < |objs| && forall j :: 0 <= j < i ==> objs[j].name != n
      decreases |objs| - i
    {
      i := i + 1;
    }
  }

  /** A listing whose entry `i` is left out. */
  lemma ListingWithout(t: Tree, t': Tree, p: Path, objs: seq<Obj>, i: nat, r: seq<Obj>)
    requires ListingOk(t, p, objs) && i < |objs| && p + [objs[i].name] !in t'
    requires forall n :: n != objs[i].name ==> (p + [n] in t <==> p + [n] in t')
    requires forall n :: n != objs[i].name && p + [n] in t ==> t'[p + [n]] == t[p + [n]]
    requires r == objs[..i] + objs[i + 1..]
    ensures ListingOk(t', p, r)
  {
    assert forall k :: 0 <= k < |r| ==> r[k] == objs[if k < i then k else k + 1];
    forall n | p + [n] in t' ensures Lists(r, n) {
      var k := FirstOf(objs, n);
      assert r[if k < i then k else k - 1].name == n;
    }
  }

  /** A child is gone from the tree and from the listing. */
  lemma ListingRemove(t: Tree, t': Tree, p: Path, objs: seq<Obj>, name: Name)
    requires ListingOk(t, p, objs) && p + [name] !in t'
    requires forall n :: n != name ==> (p + [n] in t <==> p + [n] in t')
    requires forall n :: n != name && p + [n] in t ==> t'[p + [n]] == t[p + [n]]
    ensures ListingOk(t', p, RemoveName(objs, name))
  {
    hide RemoveName;
    if Lists(objs, name) {
      hide ListingOk;
      var i := FirstOf(objs, name);
      RemoveNameAt(objs, name, i);
      ListingWithout(t, t', p, objs, i, RemoveName(objs, name));
    } else {
      RemoveNameAbsent(objs, name);
      assert p + [name] !in t;
    }
  }

  /** A new child is in the tree and in the listing. */
  lemma ListingAdd(t: Tree, t': Tree, p: Path, objs: seq<Obj>, oldName: Name, o: Obj)
    requires ListingOk(t, p, objs) && p + [o.name] !in t && p + [o.name] in t' && Matches(o, t'[p + [o.name]])
    requires oldName == "" || oldName == o.name
    requires forall n :: n != o.name ==> (p + [n] in t <==> p + [n] in t')
    requires forall n :: n != o.name && p + [n] in t ==> t'[p + [n]] == t[p + [n]]
    ensures ListingOk(t', p, UpdateName(objs, oldName, o))
  {
    UpdateNameAbsent(objs, oldName, o);
    var r := objs + [o];
    forall n | p + [n] in t' ensures Lists(r, n) {
      if n == o.name {
        assert r[|objs|].name == n;
      } else {
        var k := FirstOf(objs, n);
        assert r[k].name == n;
      }
    }
  }

  /** A child is renamed, or replaced under its own name, in the tree and in the listing. */
  lemma ListingReplace(t: Tree, t': Tree, p: Path, objs: seq<Obj>, oldName: Name, o: Obj)
    requires ListingOk(t, p, objs) && oldName != "" && p + [oldName] in t
    requires o.name != oldName ==> p + [o.name] !in t && p + [oldName] !in t'
    requires p + [o.name] in t' && Matches(o, t'[p + [o.name]])
    requires forall n :: n != o.name && n != oldName ==> (p + [n] in t <==> p + [n] in t')
    requires forall n :: n != o.name && n != oldName && p + [n] in t ==> t'[p + [n]] == t[p + [n]]
    ensures ListingOk(t', p, UpdateName(objs, oldName, o))
  {
    var i := FirstOf(objs, oldName);
    UpdateNameAt(objs, oldName, o, i);
    var r := objs[i := o];
    forall n | p + [n] in t' ensures Lists(r, n) {
      if n == o.name {
        assert r[i].name == n;
      } else {
        var k := FirstOf(objs, n);
        assert r[k].name == n;
      }
    }
  }
}
