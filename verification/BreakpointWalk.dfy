/** The walk of drivers/aliyun_to_115/sync.go that can be resumed from a saved breakpoint,
    as a function of the tree. */
module BreakpointWalk {
  import opened PathOrder

  /** A directory's entries are in the order the walk sorts them: by name. */
  datatype Entry = File(name: Name) | Dir(name: Name, entries: seq<Entry>)

  type White = string -> bool

  ghost predicate Sorted(es: seq<Entry>)
    decreases es
  {
    && (forall i :: 0 <= i < |es| ==> IsName(es[i].name) && (es[i].Dir? ==> Sorted(es[i].entries)))
    && (forall i, j :: 0 <= i < j < |es| ==> StrLess(es[i].name, es[j].name))
  }

  function Under(n: Name, ps: seq<seq<Name>>): seq<seq<Name>> {
    seq(|ps|, i requires 0 <= i < |ps| => [n] + ps[i])
  }

  /** The whitelisted files below an entry of `dir`, and below a list of entries, in walk
      order, as names relative to `dir` (which ends in a slash). */
  function FilesOf(w: White, dir: string, e: Entry): seq<seq<Name>>
    decreases e
  {
    if !w(dir + e.name) then []
    else if e.File? then [[e.name]]
    else Under(e.name, Files(w, dir + e.name + "/", e.entries))
  }

  function Files(w: White, dir: string, es: seq<Entry>): seq<seq<Name>>
    decreases es
  {
    if es == [] then [] else Files(w, dir, es[..|es| - 1]) + FilesOf(w, dir, es[|es| - 1])
  }

  /** A file of the tree, by the names that lead to it. */
  predicate HasFile(es: seq<Entry>, p: seq<Name>)
    decreases es
  {
    exists i :: 0 <= i < |es| && EntryHas(es[i], p)
  }

  predicate EntryHas(e: Entry, p: seq<Name>)
    decreases e
  {
    p != [] && e.name == p[0] && if e.File? then |p| == 1 else HasFile(e.entries, p[1..])
  }

  /** Every directory on the way, and the file, is whitelisted. */
  predicate WhiteAlong(w: White, dir: string, p: seq<Name>)
    decreases |p|
  {
    p != [] ==> w(dir + p[0]) && WhiteAlong(w, dir + p[0] + "/", p[1..])
  }

  lemma UnderIs(n: Name, ps: seq<seq<Name>>, p: seq<Name>)
    ensures p in Under(n, ps) <==> p != [] && p[0] == n && p[1..] in ps
  {
    if p in Under(n, ps) {
      var i :| 0 <= i < |ps| && Under(n, ps)[i] == p;
      assert p[1..] == ps[i];
    }
    if p != [] && p[0] == n && p[1..] in ps {
      var i :| 0 <= i < |ps| && ps[i] == p[1..];
      assert Under(n, ps)[i] == p;
    }
  }

  lemma {:induction false} EntryFilesAre(w: White, dir: string, e: Entry, p: seq<Name>)
    ensures p in FilesOf(w, dir, e) <==> EntryHas(e, p) && WhiteAlong(w, dir, p)
    decreases e
  {
    if e.Dir? {
      var below := Files(w, dir + e.name + "/", e.entries);
      UnderIs(e.name, below, p);
      if p != [] { FilesAre(w, dir + e.name + "/", e.entries, p[1..]); }
    } else if EntryHas(e, p) {
      assert p == [e.name] && p[1..] == [];
    }
  }

  /** The walk is over exactly the files that are whitelisted all the way. */
  lemma {:induction false} FilesAre(w: White, dir: string, es: seq<Entry>, p: seq<Name>)
    ensures p in Files(w, dir, es) <==> HasFile(es, p) && WhiteAlong(w, dir, p)
    decreases es
  {
    if es != [] {
      var before, last := es[..|es| - 1], es[|es| - 1];
      FilesAre(w, dir, before, p);
      EntryFilesAre(w, dir, last, p);
      HasFileLast(es, p);
    }
  }

  lemma HasFileLast(es: seq<Entry>, p: seq<Name>)
    requires es != []
    ensures HasFile(es, p) <==> HasFile(es[..|es| - 1], p) || EntryHas(es[|es| - 1], p)
  {
    hide EntryHas;
    var before := es[..|es| - 1];
    if i :| 0 <= i < |es| && EntryHas(es[i], p) {
      if i < |es| - 1 { assert before[i] == es[i]; }
    }
    if i :| 0 <= i < |before| && EntryHas(before[i], p) { assert es[i] == before[i]; }
  }

  datatype Outcome = Outcome(files: seq<seq<Name>>, scan: bool)

  function TrimSlashes(s: string): string {
    if s != "" && s[|s| - 1] == '/' then TrimSlashes(s[..|s| - 1]) else s
  }

  /** What the breakpoint test decides for an entry: go on with this `fullScan`, or skip it. */
  datatype Verdict = Go(scan: bool) | Skip

  function Judge(full: string, isDir: bool, bp: string): Verdict {
    if TrimSlashes(full) == TrimSlashes(bp) then Go(true)
    else if isDir && full + "/" <= bp then Go(false)
    else if StrLess(TrimSlashes(bp), TrimSlashes(full)) then Go(true)
    else Skip
  }

  /** One entry: `scan` is fullScan before it; the files are those handed on. */
  function Visit(w: White, dir: string, e: Entry, bp: string, scan: bool): Outcome
    decreases e
  {
    var full := dir + e.name;
    if !w(full) then Outcome([], scan)
    else
      var v := if scan then Go(true) else Judge(full, e.Dir?, bp);
      if v.Skip? then Outcome([], scan)
      else if e.Dir? then
        var r := Walk(w, full + "/", e.entries, bp, v.scan);
        Outcome(Under(e.name, r.files), r.scan)
      else Outcome(if v.scan then [[e.name]] else [], v.scan)
  }

  /** fsWalkAndSync over a directory, when nothing stops it. */
  function Walk(w: White, dir: string, es: seq<Entry>, bp: string, scan: bool): Outcome
    decreases es
  {
    if es == [] then Outcome([], scan)
    else
      var r := Walk(w, dir, es[..|es| - 1], bp, scan);
      var v := Visit(w, dir, es[|es| - 1], bp, r.scan);
      Outcome(r.files + v.files, v.scan)
  }

  /** The paths of `ps` that do not come before `from`. */
  function NotBefore(ps: seq<seq<Name>>, from: seq<Name>): seq<seq<Name>> {
    if ps == [] then []
    else NotBefore(ps[..|ps| - 1], from) + if Before(ps[|ps| - 1], from) then [] else [ps[|ps| - 1]]
  }
}
