/** fsWalkAndSync and its use in doSync as they run: a shared fullScan flag, a breakpoint that
    is saved before every file, and a process that can stop at any moment. */
module BreakpointSync {
  import opened PathOrder
  import opened BreakpointWalk
  import opened BreakpointResume

  function Full(dir: string, p: seq<Name>): string {
    if p == [] then dir else dir + Join(p)
  }

  function Paths(dir: string, ps: seq<seq<Name>>): seq<string> {
    seq(|ps|, i requires 0 <= i < |ps| => Full(dir, ps[i]))
  }

  /** The breakpoint after the files `done` were handed on one after the other. */
  function Saved(bp: string, done: seq<string>): string {
    if done == [] then bp else done[|done| - 1]
  }

  /** Stopped on the way through `fs`: some were handed on, and the breakpoint is the last of
      them, or already the next. */
  ghost predicate Stopped(handled0: seq<string>, bp0: string, handled: seq<string>, bp: string, fs: seq<string>) {
    exists n {:trigger fs[..n]} :: 0 <= n <= |fs| && StoppedAt(handled0, bp0, handled, bp, fs, n)
  }

  predicate StoppedAt(handled0: seq<string>, bp0: string, handled: seq<string>, bp: string, fs: seq<string>, n: nat)
    requires n <= |fs|
  {
    handled == handled0 + fs[..n] && (bp == Saved(bp0, fs[..n]) || (n < |fs| && bp == fs[n]))
  }

  lemma NonEmptyPaths(w: White, dir: string, es: seq<Entry>, bp: string, scan: bool)
    ensures forall i :: 0 <= i < |Walk(w, dir, es, bp, scan).files| ==> Walk(w, dir, es, bp, scan).files[i] != []
  {
  }

  lemma PathsUnder(dir: string, n: Name, ps: seq<seq<Name>>)
    requires forall i :: 0 <= i < |ps| ==> ps[i] != []
    ensures Paths(dir, Under(n, ps)) == Paths(dir + n + "/", ps)
  {
    forall i | 0 <= i < |ps| ensures Full(dir, [n] + ps[i]) == Full(dir + n + "/", ps[i]) {
      assert ([n] + ps[i])[1..] == ps[i];
      assert Join([n] + ps[i]) == n + "/" + Join(ps[i]);
      assert dir + (n + "/" + Join(ps[i])) == (dir + n + "/") + Join(ps[i]);
    }
  }

  lemma PathsCat(dir: string, a: seq<seq<Name>>, b: seq<seq<Name>>)
    ensures Paths(dir, a + b) == Paths(dir, a) + Paths(dir, b)
  {
  }

  lemma StoppedLater(h0: seq<string>, b0: string, h: seq<string>, b: string, a: seq<string>, fs: seq<string>)
    requires Stopped(h0 + a, Saved(b0, a), h, b, fs)
    ensures Stopped(h0, b0, h, b, a + fs)
  {
    var n :| 0 <= n <= |fs| && StoppedAt(h0 + a, Saved(b0, a), h, b, fs, n);
    assert (a + fs)[..|a| + n] == a + fs[..n];
    assert StoppedAt(h0, b0, h, b, a + fs, |a| + n);
  }

  lemma StoppedBefore(h0: seq<string>, b0: string, h: seq<string>, b: string, fs: seq<string>, more: seq<string>)
    requires Stopped(h0, b0, h, b, fs)
    ensures Stopped(h0, b0, h, b, fs + more)
  {
    var n :| 0 <= n <= |fs| && StoppedAt(h0, b0, h, b, fs, n);
    assert (fs + more)[..n] == fs[..n];
    assert StoppedAt(h0, b0, h, b, fs + more, n);
  }

  lemma StoppedNow(h0: seq<string>, b0: string, fs: seq<string>)
    ensures Stopped(h0, b0, h0, b0, fs)
    ensures fs != [] ==> Stopped(h0, b0, h0, fs[0], fs)
    ensures fs != [] ==> Stopped(h0, b0, h0 + [fs[0]], fs[0], fs)
  {
    assert fs[..0] == [] && StoppedAt(h0, b0, h0, b0, fs, 0);
    if fs != [] {
      assert StoppedAt(h0, b0, h0, fs[0], fs, 0);
      assert fs[..1] == [fs[0]] && StoppedAt(h0, b0, h0 + [fs[0]], fs[0], fs, 1);
    }
  }

  /** The path of a directory, ending in a slash. */
  function Slashed(path: string): string {
    if path != "" && path[|path| - 1] == '/' then path else path + "/"
  }

  lemma SlashedIs(path: string)
    ensures Slashed(path + "/") == path + "/"
  {
  }

  class Syncer {
    const white: White
    /** The saved breakpoint, "" when there is none. */
    var breakpoint: string
    var fullScan: bool
    /** Every path handed to processSingleFile, in order. */
    var handled: seq<string>
    /** How often something has stopped a run. */
    var cuts: nat

    constructor (white: White)
      ensures breakpoint == "" && handled == [] && this.white == white && cuts == 0
    {
      this.white, breakpoint, fullScan, handled, cuts := white, "", false, [], 0;
    }

    /** Whatever may go wrong here: the context is done, a listing fails, the process dies. */
    method MayStop() returns (stopped: bool)
      modifies `cuts
      ensures cuts == old(cuts) + if stopped then 1 else 0
    {
      stopped := *;
      if stopped { cuts := cuts + 1; }
    }

    /** One file with fullScan set: save the breakpoint, then process. */
    method SyncFile(path: string) returns (stopped: bool)
      modifies `breakpoint, `handled, `cuts
      ensures cuts == old(cuts) + if stopped then 1 else 0
      ensures !stopped ==> handled == old(handled) + [path] && breakpoint == path
      ensures stopped ==> Stopped(old(handled), old(breakpoint), handled, breakpoint, [path])
    {
      StoppedNow(handled, breakpoint, [path]);
      stopped := MayStop();
      if stopped { return; }
      breakpoint := path;
      stopped := MayStop();
      if stopped { return; }
      handled := handled + [path];
      stopped := MayStop();
    }

    /** fsWalkAndSync. It comes to its end unless something stops it. */
    method WalkAndSync(currentPath: string, es: seq<Entry>, bp: string) returns (stopped: bool)
      modifies this
      ensures cuts == old(cuts) + if stopped then 1 else 0
      ensures var dir := Slashed(currentPath); var r := Walk(white, dir, es, bp, old(fullScan));
        stopped ==> Stopped(old(handled), old(breakpoint), handled, breakpoint, Paths(dir, r.files))
      ensures var dir := Slashed(currentPath); var r := Walk(white, dir, es, bp, old(fullScan));
        !stopped ==> handled == old(handled) + Paths(dir, r.files) && fullScan == r.scan
                     && breakpoint == Saved(old(breakpoint), Paths(dir, r.files))
      decreases es
    {
      hide Walk, Visit, Paths, Saved, Stopped, Slashed;
      var dir := Slashed(currentPath);
      ghost var all := Walk(white, dir, es, bp, fullScan);
      StoppedNow(handled, breakpoint, Paths(dir, all.files));
      stopped := MayStop();
      if stopped { return; }
      WalkNone(white, dir, bp, fullScan);
      assert es[..0] == [];
      assert handled + [] == handled;
      for i := 0 to |es|
        invariant !stopped && cuts == old(cuts)
        invariant var r := Walk(white, dir, es[..i], bp, old(fullScan));
          && handled == old(handled) + Paths(dir, r.files) && fullScan == r.scan
          && breakpoint == Saved(old(breakpoint), Paths(dir, r.files))
      {
        WalkStep(white, dir, es, i, bp, old(fullScan));
        ghost var r := Walk(white, dir, es[..i], bp, old(fullScan));
        ghost var v := Visit(white, dir, es[i], bp, fullScan);
        OneEntryMore(old(handled), old(breakpoint), dir, r.files, v.files);
        var cut := VisitEntry(dir, es[i], bp);
        if cut {
          StoppedInside(old(handled), old(breakpoint), handled, breakpoint, dir, r.files, v.files, all.files);
          return true;
        }
      }
      assert es[..|es|] == es;
    }

    /** The loop body. */
    method VisitEntry(dir: string, e: Entry, bp: string) returns (stopped: bool)
      modifies this
      ensures cuts == old(cuts) + if stopped then 1 else 0
      ensures var v := Visit(white, dir, e, bp, old(fullScan));
        if stopped then Stopped(old(handled), old(breakpoint), handled, breakpoint, Paths(dir, v.files))
        else && handled == old(handled) + Paths(dir, v.files) && fullScan == v.scan
             && breakpoint == Saved(old(breakpoint), Paths(dir, v.files))
      decreases e
    {
      var fullPath := dir + e.name;
      if !white(fullPath) { return false; }
      if !fullScan {
        var v := Judge(fullPath, e.Dir?, bp);
        if v.Skip? { return false; }
        fullScan := v.scan;
      }
      if e.Dir? {
        SlashedIs(fullPath);
        ghost var r := Walk(white, fullPath + "/", e.entries, bp, fullScan);
        NonEmptyPaths(white, fullPath + "/", e.entries, bp, fullScan);
        PathsUnder(dir, e.name, r.files);
        stopped := WalkAndSync(fullPath + "/", e.entries, bp);
      } else if fullScan {
        assert Paths(dir, [[e.name]]) == [fullPath];
        stopped := SyncFile(fullPath);
      }
    }

    /** The breakpoint is where the files `order` are to be taken up at `at`. */
    ghost predicate At(order: seq<string>, at: nat)
      reads this
    {
      if breakpoint == "" then at == 0 else at < |order| && breakpoint == order[at]
    }

    /** doSync's treatment of one directory: full scan without a breakpoint, and the breakpoint
        is cleared only when the walk came to its end, which it does unless it is stopped. On an unchanged tree the run hands on
        what follows the breakpoint, and a run that is stopped leaves a breakpoint at most one
        file back. */
    method SyncDirectory(srcPath: string, es: seq<Entry>, ghost at: nat) returns (ok: bool, ghost next: nat)
      requires Sorted(es) && At(Paths(srcPath + "/", Files(white, srcPath + "/", es)), at)
      modifies this
      ensures cuts == old(cuts) + if ok then 0 else 1
      ensures var order := Paths(srcPath + "/", Files(white, srcPath + "/", es));
        && at <= |order|
        && (ok ==> handled == old(handled) + order[at..] && breakpoint == "")
        && (!ok ==> At(order, next) && exists n :: 0 <= n <= |order| - at && RanTo(old(handled), handled, order, at, n, next))
    {
      var bp := breakpoint;
      fullScan := bp == "";
      ghost var dir := srcPath + "/";
      ghost var files := Files(white, dir, es);
      ghost var order := Paths(dir, files);
      SlashedIs(srcPath);
      if bp == "" {
        ScanAll(white, dir, es, bp);
      } else {
        AtIsFile(white, dir, es, at);
        UnchangedTree(white, dir, es, at);
        PathsFrom(dir, files, at);
      }
      ghost var h0 := handled;
      var stopped := WalkAndSync(srcPath + "/", es, bp);
      next := 0;
      if !stopped {
        breakpoint := "";
      } else {
        assert dir != "" && forall k :: 0 <= k < |order| ==> order[k] != "";
        next := TakeUp(h0, bp, handled, breakpoint, order, at);
      }
      return !stopped, next;
    }

    /** Runs of the same directory until one comes to its end: every file has been handed on,
        and each stop repeated at most one. Only a stop in every attempt keeps it from that. */
    method SyncUntilDone(srcPath: string, es: seq<Entry>, attempts: nat) returns (ok: bool, stops: nat)
      requires Sorted(es) && breakpoint == ""
      modifies this
      ensures cuts == old(cuts) + stops && (ok <==> stops < attempts)
      ensures var order := Paths(srcPath + "/", Files(white, srcPath + "/", es));
        && old(handled) <= handled
        && (ok ==> && breakpoint == ""
                   && (forall k :: 0 <= k < |order| ==> order[k] in handled[|old(handled)|..])
                   && |handled| - |old(handled)| <= |order| + stops)
    {
      ghost var order := Paths(srcPath + "/", Files(white, srcPath + "/", es));
      ghost var at: nat, covered: nat := 0, 0;
      ok, stops := false, 0;
      while !ok && stops < attempts
        invariant old(handled) <= handled && covered <= |order|
        invariant cuts == old(cuts) + stops && stops <= attempts && (ok ==> stops < attempts)
        invariant !ok ==> At(order, at) && at <= covered <= at + 1 && |handled| - |old(handled)| <= at + stops
        invariant forall k :: 0 <= k < covered ==> order[k] in handled[|old(handled)|..]
        invariant ok ==> covered == |order| && breakpoint == "" && |handled| - |old(handled)| <= |order| + stops
        decreases !ok, attempts - stops
      {
        ghost var before := handled;
        ghost var next: nat;
        ok, next := SyncDirectory(srcPath, es, at);
        if ok {
          Covers(old(handled), before, handled, order, at, |order| - at, covered);
          covered := |order|;
        } else {
          stops := stops + 1;
          ghost var n: nat :| n <= |order| - at && RanTo(before, handled, order, at, n, next);
          Covers(old(handled), before, handled, order, at, n, covered);
          covered := if at + n > covered then at + n else covered;
          at := next;
        }
      }
    }
  }

  /** A run from `at` handed on `n` files and left off at `next`. */
  predicate RanTo(handled0: seq<string>, handled: seq<string>, order: seq<string>, at: nat, n: nat, next: nat) {
    && at + n <= |order| && handled == handled0 + order[at..at + n]
    && at <= next && (next == at + n || next + 1 == at + n)
  }

  lemma PathsFrom(dir: string, ps: seq<seq<Name>>, k: nat)
    requires k <= |ps|
    ensures Paths(dir, ps[k..]) == Paths(dir, ps)[k..]
  {
  }

  /** A saved breakpoint is the path of a file. */
  lemma AtIsFile(w: White, dir: string, es: seq<Entry>, at: nat)
    requires Sorted(es) && at < |Files(w, dir, es)|
    ensures Files(w, dir, es)[at] != [] && Paths(dir, Files(w, dir, es))[at] == dir + Join(Files(w, dir, es)[at])
  {
    HeadsAre(w, dir, es);
  }

  /** Where a stopped run will be taken up. */
  lemma TakeUp(h0: seq<string>, bp0: string, h: seq<string>, bp: string, order: seq<string>, at: nat) returns (next: nat)
    requires at <= |order| && Stopped(h0, bp0, h, bp, order[at..])
    requires if bp0 == "" then at == 0 else at < |order| && bp0 == order[at]
    requires forall k :: 0 <= k < |order| ==> order[k] != ""
    ensures if bp == "" then next == 0 else next < |order| && bp == order[next]
    ensures exists n :: 0 <= n <= |order| - at && RanTo(h0, h, order, at, n, next)
  {
    var fs := order[at..];
    var n :| 0 <= n <= |fs| && StoppedAt(h0, bp0, h, bp, fs, n);
    next := if n < |fs| && bp == fs[n] then at + n else if n == 0 then at else at + n - 1;
    assert fs[..n] == order[at..at + n];
    assert RanTo(h0, h, order, at, n, next);
  }

  lemma Covers(h0: seq<string>, before: seq<string>, h: seq<string>, order: seq<string>, at: nat, n: nat, covered: nat)
    requires h0 <= before && at + n <= |order| && h == before + order[at..at + n] && at <= covered <= |order|
    requires forall k :: 0 <= k < covered ==> order[k] in before[|h0|..]
    ensures h0 <= h && forall k :: 0 <= k < (if at + n > covered then at + n else covered) ==> order[k] in h[|h0|..]
  {
    assert h[|h0|..] == before[|h0|..] + order[at..at + n];
    forall k | covered <= k < at + n ensures order[k] in h[|h0|..] {
      assert order[at..at + n][k - at] == order[k];
    }
  }

  lemma WalkNone(w: White, dir: string, bp: string, scan: bool)
    ensures Walk(w, dir, [], bp, scan) == Outcome([], scan) && Paths(dir, []) == [] && Saved(bp, []) == bp
    ensures forall b: string :: Saved(b, []) == b
  {
  }

  lemma OneEntryMore(h0: seq<string>, b0: string, dir: string, a: seq<seq<Name>>, b: seq<seq<Name>>)
    ensures h0 + Paths(dir, a) + Paths(dir, b) == h0 + Paths(dir, a + b)
    ensures Saved(Saved(b0, Paths(dir, a)), Paths(dir, b)) == Saved(b0, Paths(dir, a + b))
  {
    PathsCat(dir, a, b);
    assert h0 + Paths(dir, a) + Paths(dir, b) == h0 + (Paths(dir, a) + Paths(dir, b));
  }

  /** Stopped inside an entry is stopped inside the directory. */
  lemma StoppedInside(h0: seq<string>, b0: string, h: seq<string>, b: string, dir: string,
                      before: seq<seq<Name>>, here: seq<seq<Name>>, all: seq<seq<Name>>)
    requires Stopped(h0 + Paths(dir, before), Saved(b0, Paths(dir, before)), h, b, Paths(dir, here))
    requires before + here <= all
    ensures Stopped(h0, b0, h, b, Paths(dir, all))
  {
    hide Paths, Stopped;
    var rest := all[|before + here|..];
    StoppedLater(h0, b0, h, b, Paths(dir, before), Paths(dir, here));
    StoppedBefore(h0, b0, h, b, Paths(dir, before) + Paths(dir, here), Paths(dir, rest));
    PathsCat(dir, before, here);
    PathsCat(dir, before + here, rest);
    assert before + here + rest == all;
  }

  lemma WalkStep(w: White, dir: string, es: seq<Entry>, i: nat, bp: string, scan: bool)
    requires i < |es|
    ensures var r := Walk(w, dir, es[..i], bp, scan); var v := Visit(w, dir, es[i], bp, r.scan);
      && Walk(w, dir, es[..i + 1], bp, scan) == Outcome(r.files + v.files, v.scan)
      && r.files + v.files <= Walk(w, dir, es, bp, scan).files
  {
    assert es[..i + 1][..i] == es[..i];
    assert es == es[..i + 1] + es[i + 1..];
    WalkCat(w, dir, es[..i + 1], es[i + 1..], bp, scan);
  }
}
