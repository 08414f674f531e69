/** What a resumed walk hands on: exactly the files from the breakpoint on, and exactly when
    a deleted breakpoint makes it lose some. */
module BreakpointResume {
  import opened PathOrder
  import opened BreakpointWalk

  // ---------------------------------------------------------------- lists

  lemma CatLast<T>(a: seq<T>, b: seq<T>)
    requires b != []
    ensures (a + b)[..|a + b| - 1] == a + b[..|b| - 1] && (a + b)[|a + b| - 1] == b[|b| - 1]
  {
  }

  lemma Assoc<T>(a: seq<T>, b: seq<T>, c: seq<T>)
    ensures (a + b) + c == a + (b + c)
  {
  }

  lemma FilesLast(w: White, dir: string, es: seq<Entry>)
    ensures Files(w, dir, es) == if es == [] then [] else Files(w, dir, es[..|es| - 1]) + FilesOf(w, dir, es[|es| - 1])
  {
  }

  lemma {:induction false} FilesCat(w: White, dir: string, a: seq<Entry>, b: seq<Entry>)
    ensures Files(w, dir, a + b) == Files(w, dir, a) + Files(w, dir, b)
  {
    hide Files, FilesOf;
    FilesLast(w, dir, b);
    if b == [] {
      assert a + b == a;
    } else {
      FilesCat(w, dir, a, b[..|b| - 1]);
      CatLast(a, b);
      FilesLast(w, dir, a + b);
      Assoc(Files(w, dir, a), Files(w, dir, b[..|b| - 1]), FilesOf(w, dir, b[|b| - 1]));
    }
  }

  lemma {:induction false} WalkCat(w: White, dir: string, a: seq<Entry>, b: seq<Entry>, bp: string, scan: bool)
    ensures var r := Walk(w, dir, a, bp, scan); var s := Walk(w, dir, b, bp, r.scan);
      Walk(w, dir, a + b, bp, scan) == Outcome(r.files + s.files, s.scan)
  {
    hide Visit;
    if b == [] {
      assert a + b == a;
    } else {
      WalkCat(w, dir, a, b[..|b| - 1], bp, scan);
      assert (a + b)[..|a + b| - 1] == a + b[..|b| - 1];
    }
  }

  lemma {:induction false} NotBeforeCat(a: seq<seq<Name>>, b: seq<seq<Name>>, from: seq<Name>)
    ensures NotBefore(a + b, from) == NotBefore(a, from) + NotBefore(b, from)
  {
    if b == [] {
      assert a + b == a;
    } else {
      NotBeforeCat(a, b[..|b| - 1], from);
      assert (a + b)[..|a + b| - 1] == a + b[..|b| - 1];
    }
  }

  lemma {:induction false} NotBeforeNone(ps: seq<seq<Name>>, from: seq<Name>)
    requires forall i :: 0 <= i < |ps| ==> Before(ps[i], from)
    ensures NotBefore(ps, from) == []
  {
    if ps != [] { NotBeforeNone(ps[..|ps| - 1], from); }
  }

  lemma {:induction false} NotBeforeAll(ps: seq<seq<Name>>, from: seq<Name>)
    requires forall i :: 0 <= i < |ps| ==> !Before(ps[i], from)
    ensures NotBefore(ps, from) == ps
  {
    if ps != [] { NotBeforeAll(ps[..|ps| - 1], from); }
  }

  lemma {:induction false} NotBeforeUnder(n: Name, ps: seq<seq<Name>>, from: seq<Name>)
    requires |from| > 1 && from[0] == n
    ensures NotBefore(Under(n, ps), from) == Under(n, NotBefore(ps, from[1..]))
  {
    if ps != [] {
      var k := |ps| - 1;
      NotBeforeUnder(n, ps[..k], from);
      assert Under(n, ps)[..k] == Under(n, ps[..k]);
      assert ([n] + ps[k])[1..] == ps[k];
    }
  }

  /** Paths below an entry start with its name. */
  lemma HeadIs(w: White, dir: string, e: Entry)
    ensures forall i :: 0 <= i < |FilesOf(w, dir, e)| ==> FilesOf(w, dir, e)[i] != [] && FilesOf(w, dir, e)[i][0] == e.name
  {
  }

  predicate Named(es: seq<Entry>, n: Name) {
    exists j :: 0 <= j < |es| && es[j].name == n
  }

  lemma {:induction false} HeadsAre(w: White, dir: string, es: seq<Entry>)
    ensures forall i :: 0 <= i < |Files(w, dir, es)| ==> Files(w, dir, es)[i] != [] && Named(es, Files(w, dir, es)[i][0])
  {
    if es != [] {
      var rest, last := es[..|es| - 1], es[|es| - 1];
      HeadsAre(w, dir, rest);
      HeadIs(w, dir, last);
      forall n | Named(rest, n) || n == last.name ensures Named(es, n) {
        if n == last.name {
          assert es[|es| - 1].name == n;
        } else {
          var j :| 0 <= j < |rest| && rest[j].name == n;
          assert es[j].name == n;
        }
      }
    }
  }

  lemma {:induction false} ScanAll(w: White, dir: string, es: seq<Entry>, bp: string)
    ensures Walk(w, dir, es, bp, true) == Outcome(Files(w, dir, es), true)
    decreases es
  {
    if es != [] {
      ScanAll(w, dir, es[..|es| - 1], bp);
      ScanOne(w, dir, es[|es| - 1], bp);
    }
  }

  lemma {:induction false} ScanOne(w: White, dir: string, e: Entry, bp: string)
    ensures Visit(w, dir, e, bp, true) == Outcome(FilesOf(w, dir, e), true)
    decreases e
  {
    if e.Dir? { ScanAll(w, dir + e.name + "/", e.entries, bp); }
  }

  // ---------------------------------------------------------------- the test on names

  lemma {:induction false} NoTrim(s: string)
    requires s == "" || s[|s| - 1] != '/'
    ensures TrimSlashes(s) == s
  {
  }

  lemma PrefixedPrefix(d: string, a: string, b: string)
    ensures d + a <= d + b <==> a <= b
  {
    if d + a <= d + b { assert a == (d + a)[|d|..] && b[..|a|] == (d + b)[|d|..][..|a|]; }
  }

  /** What the string tests mean for names. */
  function JudgeName(name: Name, isDir: bool, p: seq<Name>): Verdict
    requires p != []
  {
    if name == p[0] && |p| == 1 then Go(true)
    else if name == p[0] && isDir then Go(false)
    else if StrLess(p[0], name) && (|p| > 1 ==> !Follows(name, p[0])) then Go(true)
    else Skip
  }

  lemma JudgeIs(dir: string, name: Name, isDir: bool, p: seq<Name>)
    requires IsName(name) && AreNames(p)
    ensures Judge(dir + name, isDir, dir + Join(p)) == JudgeName(name, isDir, p)
  {
    TestsOnNames(name, p);
    JoinHasNoTail(p);
    NoTrim(dir + name);
    NoTrim(dir + Join(p));
    StrPrefixed(dir, Join(p), name);
    assert dir + name + "/" == dir + (name + "/");
    PrefixedPrefix(dir, name + "/", Join(p));
    if dir + name == dir + Join(p) { assert (dir + name)[|dir|..] == (dir + Join(p))[|dir|..]; }
    StrTrichotomy(name, p[0]);
  }

  // ---------------------------------------------------------------- one level of the tree

  ghost predicate AllNames(es: seq<Entry>) {
    forall i :: 0 <= i < |es| ==> IsName(es[i].name)
  }

  /** Entries before the breakpoint's component are skipped, rightly. */
  lemma {:induction false} LowPart(w: White, dir: string, es: seq<Entry>, p: seq<Name>)
    requires AllNames(es) && AreNames(p) && forall i :: 0 <= i < |es| ==> StrLess(es[i].name, p[0])
    ensures Walk(w, dir, es, dir + Join(p), false) == Outcome([], false)
    ensures NotBefore(Files(w, dir, es), p) == []
  {
    if es != [] {
      var e := es[|es| - 1];
      LowPart(w, dir, es[..|es| - 1], p);
      JudgeIs(dir, e.name, e.Dir?, p);
      StrTrichotomy(e.name, p[0]);
      HeadIs(w, dir, e);
      NotBeforeNone(FilesOf(w, dir, e), p);
      NotBeforeCat(Files(w, dir, es[..|es| - 1]), FilesOf(w, dir, e), p);
    }
  }

  /** An entry that holds files, lies after the breakpoint and compares below it. */
  predicate Loses(w: White, dir: string, e: Entry, c: Name) {
    Follows(e.name, c) && FilesOf(w, dir, e) != []
  }

  predicate Lost(w: White, dir: string, es: seq<Entry>, c: Name) {
    exists i :: 0 <= i < |es| && Loses(w, dir, es[i], c)
  }

  predicate WakesHere(w: White, dir: string, e: Entry, p: seq<Name>)
    requires p != []
  {
    w(dir + e.name) && StrLess(p[0], e.name) && (|p| > 1 ==> !Follows(e.name, p[0]))
  }

  predicate WakesAmong(w: White, dir: string, es: seq<Entry>, p: seq<Name>)
    requires p != []
  {
    exists i :: 0 <= i < |es| && WakesHere(w, dir, es[i], p)
  }

  lemma {:induction false} HighFiles(w: White, dir: string, es: seq<Entry>, p: seq<Name>)
    requires AreNames(p) && forall i :: 0 <= i < |es| ==> StrLess(p[0], es[i].name)
    ensures NotBefore(Files(w, dir, es), p) == Files(w, dir, es)
  {
    HeadsAre(w, dir, es);
    forall i | 0 <= i < |Files(w, dir, es)| ensures !Before(Files(w, dir, es)[i], p) {
      var n := Files(w, dir, es)[i][0];
      var j :| 0 <= j < |es| && es[j].name == n;
      StrTrichotomy(p[0], n);
    }
    NotBeforeAll(Files(w, dir, es), p);
  }

  /** Entries after the breakpoint's component: all are handed on, unless a name continues the
      component with a byte below the separator. */
  lemma {:induction false} HighPart(w: White, dir: string, es: seq<Entry>, p: seq<Name>)
    requires AllNames(es) && AreNames(p) && forall i :: 0 <= i < |es| ==> StrLess(p[0], es[i].name)
    requires forall i, j :: 0 <= i < j < |es| ==> StrLess(es[i].name, es[j].name)
    ensures var r := Walk(w, dir, es, dir + Join(p), false);
      && (r.scan <==> WakesAmong(w, dir, es, p))
      && (if |p| > 1 && Lost(w, dir, es, p[0]) then |r.files| < |Files(w, dir, es)| else r.files == Files(w, dir, es))
  {
    if es != [] {
      var e, rest := es[|es| - 1], es[..|es| - 1];
      HighPart(w, dir, rest, p);
      MoreAmong(w, dir, es, p);
      HighEntry(w, dir, e, p);
      if WakesAmong(w, dir, rest, p) {
        ScanOne(w, dir, e, dir + Join(p));
        if |p| > 1 && Follows(e.name, p[0]) {
          var i :| 0 <= i < |rest| && WakesHere(w, dir, rest[i], p);
          FollowsFirst(p[0], rest[i].name, e.name);
        }
      }
    }
  }

  lemma MoreAmong(w: White, dir: string, es: seq<Entry>, p: seq<Name>)
    requires es != [] && p != []
    ensures var e, rest := es[|es| - 1], es[..|es| - 1];
      && (WakesAmong(w, dir, es, p) <==> WakesAmong(w, dir, rest, p) || WakesHere(w, dir, e, p))
      && (Lost(w, dir, es, p[0]) <==> Lost(w, dir, rest, p[0]) || Loses(w, dir, e, p[0]))
  {
    var rest := es[..|es| - 1];
    assert forall i :: 0 <= i < |rest| ==> rest[i] == es[i];
  }

  lemma HighEntry(w: White, dir: string, e: Entry, p: seq<Name>)
    requires IsName(e.name) && AreNames(p) && StrLess(p[0], e.name)
    ensures Visit(w, dir, e, dir + Join(p), false) ==
            if WakesHere(w, dir, e, p) then Outcome(FilesOf(w, dir, e), true) else Outcome([], false)
  {
    JudgeIs(dir, e.name, e.Dir?, p);
    StrTrichotomy(p[0], e.name);
    if e.Dir? { ScanAll(w, dir + e.name + "/", e.entries, dir + Join(p)); }
  }

  // ---------------------------------------------------------------- all levels

  /** The directory that still stands on the way to the breakpoint. */
  predicate OnWay(w: White, dir: string, e: Entry, p: seq<Name>) {
    |p| > 1 && e.Dir? && e.name == p[0] && w(dir + p[0])
  }

  /** Something at or after the breakpoint's place makes the walk start handing on files. */
  predicate Wakes(w: White, dir: string, es: seq<Entry>, p: seq<Name>)
    decreases |p|
  {
    exists i :: 0 <= i < |es| && p != [] &&
      ( (es[i].name == p[0] && |p| == 1 && w(dir + p[0])) || WakesHere(w, dir, es[i], p)
        || (OnWay(w, dir, es[i], p) && Wakes(w, dir + p[0] + "/", es[i].entries, p[1..])))
  }

  /** The guard that fails: at some directory on the way, an entry with files continues the
      name of the way with a byte below the separator, and nothing further down wakes the walk
      before it gets there. */
  predicate Misled(w: White, dir: string, es: seq<Entry>, p: seq<Name>)
    decreases |p|
  {
    && |p| > 1
    && ((exists i :: 0 <= i < |es| && OnWay(w, dir, es[i], p) && Misled(w, dir + p[0] + "/", es[i].entries, p[1..]))
        || (Lost(w, dir, es, p[0]) &&
            !exists i :: 0 <= i < |es| && OnWay(w, dir, es[i], p) && Wakes(w, dir + p[0] + "/", es[i].entries, p[1..])))
  }

  /** What the walk hands on against what it should. */
  ghost predicate Resumed(r: Outcome, all: seq<seq<Name>>, p: seq<Name>, misled: bool) {
    if misled then |r.files| < |NotBefore(all, p)| else r.files == NotBefore(all, p)
  }

  lemma SplitAt(es: seq<Entry>, c: Name) returns (i: nat)
    requires Sorted(es)
    ensures i <= |es| && forall k :: 0 <= k < i ==> StrLess(es[k].name, c)
    ensures i < |es| ==> !StrLess(es[i].name, c)
    ensures forall k :: i < k < |es| ==> StrLess(c, es[k].name)
  {
    i := 0;
    while i < |es| && StrLess(es[i].name, c)
      invariant i <= |es| && forall k :: 0 <= k < i ==> StrLess(es[k].name, c)
    {
      i := i + 1;
    }
    forall k | i < k < |es| ensures StrLess(c, es[k].name) {
      StrTrichotomy(es[i].name, c);
      if es[i].name != c { StrTransitive(c, es[i].name, es[k].name); }
    }
  }

  /** The entry that has the breakpoint's own component as its name. */
  lemma {:induction false} MidEntry(w: White, dir: string, e: Entry, p: seq<Name>)
    requires AreNames(p) && e.name == p[0] && IsName(e.name) && (e.Dir? ==> Sorted(e.entries))
    ensures var r := Visit(w, dir, e, dir + Join(p), false);
      && (r.scan <==> (|p| == 1 && w(dir + p[0])) || (OnWay(w, dir, e, p) && Wakes(w, dir + p[0] + "/", e.entries, p[1..])))
      && Resumed(r, FilesOf(w, dir, e), p, OnWay(w, dir, e, p) && Misled(w, dir + p[0] + "/", e.entries, p[1..]))
    decreases |p|, 0
  {
    JudgeIs(dir, e.name, e.Dir?, p);
    StrIrreflexive(p[0]);
    HeadIs(w, dir, e);
    var all := FilesOf(w, dir, e);
    if OnWay(w, dir, e, p) {
      JoinHead(p);
      var sub := dir + p[0] + "/";
      assert dir + Join(p) == sub + Join(p[1..]);
      ResumeLevel(w, sub, e.entries, p[1..]);
      NotBeforeUnder(p[0], Files(w, sub, e.entries), p);
    } else if |p| == 1 {
      if e.Dir? { ScanAll(w, dir + e.name + "/", e.entries, dir + Join(p)); }
      forall i | 0 <= i < |all| ensures !Before(all[i], p) {
        assert p[1..] == [];
      }
      NotBeforeAll(all, p);
    } else {
      NotBeforeNone(all, p);
    }
  }

  lemma LowEntry(w: White, dir: string, e: Entry, p: seq<Name>)
    requires p != [] && StrLess(e.name, p[0])
    ensures e.name != p[0] && !WakesHere(w, dir, e, p) && !Loses(w, dir, e, p[0]) && !OnWay(w, dir, e, p)
  {
    StrTrichotomy(e.name, p[0]);
    if Follows(e.name, p[0]) { PrefixLess(p[0], e.name); }
  }

  lemma {:induction false} PrefixLess(a: string, b: string)
    requires a <= b && |a| < |b|
    ensures StrLess(a, b)
  {
    if a != [] { PrefixLess(a[1..], b[1..]); }
  }

  predicate WakesMid(w: White, dir: string, es: seq<Entry>, i: nat, p: seq<Name>) {
    i < |es| && p != [] && es[i].name == p[0] &&
    ((|p| == 1 && w(dir + p[0])) || (OnWay(w, dir, es[i], p) && Wakes(w, dir + p[0] + "/", es[i].entries, p[1..])))
  }

  predicate MisledMid(w: White, dir: string, es: seq<Entry>, i: nat, p: seq<Name>) {
    i < |es| && OnWay(w, dir, es[i], p) && Misled(w, dir + p[0] + "/", es[i].entries, p[1..])
  }

  /** Only the entry of the breakpoint's component and those after it matter. */
  lemma LevelIs(w: White, dir: string, es: seq<Entry>, p: seq<Name>, i: nat, high: nat)
    requires AreNames(p) && i <= high <= |es| && high <= i + 1
    requires forall k :: 0 <= k < i ==> StrLess(es[k].name, p[0])
    requires high == i + 1 ==> es[i].name == p[0]
    requires forall k :: high <= k < |es| ==> StrLess(p[0], es[k].name)
    ensures var mid := high == i + 1;
      && (Wakes(w, dir, es, p) <==> (mid && WakesMid(w, dir, es, i, p)) || WakesAmong(w, dir, es[high..], p))
      && (Misled(w, dir, es, p) <==>
            (|p| > 1 && ((mid && MisledMid(w, dir, es, i, p))
                         || (Lost(w, dir, es[high..], p[0]) && !(mid && WakesMid(w, dir, es, i, p))))))
  {
    StrIrreflexive(p[0]);
    forall k | 0 <= k < i
      ensures es[k].name != p[0] && !WakesHere(w, dir, es[k], p) && !Loses(w, dir, es[k], p[0]) && !OnWay(w, dir, es[k], p)
    {
      LowEntry(w, dir, es[k], p);
    }
    assert forall k :: high <= k < |es| ==> es[k].name != p[0] && es[high..][k - high] == es[k];
    assert forall k :: 0 <= k < |es[high..]| ==> es[high..][k] == es[high + k];
    assert high == i + 1 ==> !Loses(w, dir, es[i], p[0]) && !WakesHere(w, dir, es[i], p);
  }

  /** A walk that looks for the breakpoint `p` in a directory hands on exactly the files that
      are not before it, unless it is misled, and then it loses some. */
  lemma {:induction false} ResumeLevel(w: White, dir: string, es: seq<Entry>, p: seq<Name>)
    requires Sorted(es) && AreNames(p)
    ensures var r := Walk(w, dir, es, dir + Join(p), false);
      && (r.scan <==> Wakes(w, dir, es, p))
      && Resumed(r, Files(w, dir, es), p, Misled(w, dir, es, p))
    decreases |p|, 2
  {
    hide Sorted, AllNames, Wakes, Misled, Walk, Files, Join, NotBefore, WakesAmong, Lost, WakesMid;
    var bp := dir + Join(p);
    var i := SplitAt(es, p[0]);
    var high := if i < |es| && es[i].name == p[0] then i + 1 else i;
    if high == i && i < |es| { StrTrichotomy(es[i].name, p[0]); }
    LevelIs(w, dir, es, p, i, high);
    AroundSplit(es, p[0], i, high);
    assert es == es[..i] + es[i..high] + es[high..];
    Walk3(w, dir, es[..i], es[i..high], es[high..], p);
    LowPart(w, dir, es[..i], p);
    HighFiles(w, dir, es[high..], p);
    HighPart(w, dir, es[high..], p);
    ScanAll(w, dir, es[high..], bp);
    MidPart(w, dir, es, p, i, high);
    var m, h := Walk(w, dir, es[i..high], bp, false), Walk(w, dir, es[high..], bp, false);
    Joined(m.files, NotBefore(Files(w, dir, es[i..high]), p),
           if m.scan then Files(w, dir, es[high..]) else h.files, Files(w, dir, es[high..]));
  }

  /** What the split says of the two slices. */
  lemma AroundSplit(es: seq<Entry>, c: Name, i: nat, high: nat)
    requires Sorted(es) && i <= high <= |es|
    requires forall k :: 0 <= k < i ==> StrLess(es[k].name, c)
    requires forall k :: high <= k < |es| ==> StrLess(c, es[k].name)
    ensures AllNames(es[..i]) && forall k :: 0 <= k < |es[..i]| ==> StrLess(es[..i][k].name, c)
    ensures AllNames(es[high..]) && forall k :: 0 <= k < |es[high..]| ==> StrLess(c, es[high..][k].name)
    ensures forall j, k :: 0 <= j < k < |es[high..]| ==> StrLess(es[high..][j].name, es[high..][k].name)
  {
    var a, b := es[..i], es[high..];
    assert forall k :: 0 <= k < |a| ==> a[k] == es[k];
    assert forall k :: 0 <= k < |b| ==> b[k] == es[high + k];
  }

  /** The entry that has the breakpoint's own component as its name, if it is there. */
  lemma {:induction false} MidPart(w: White, dir: string, es: seq<Entry>, p: seq<Name>, i: nat, high: nat)
    requires Sorted(es) && AreNames(p) && i <= high <= |es| && high <= i + 1 && (high == i + 1 ==> es[i].name == p[0])
    ensures var r := Walk(w, dir, es[i..high], dir + Join(p), false);
      && (r.scan <==> high == i + 1 && WakesMid(w, dir, es, i, p))
      && Resumed(r, Files(w, dir, es[i..high]), p, high == i + 1 && MisledMid(w, dir, es, i, p))
    decreases |p|, 1
  {
    hide Wakes, Misled, Walk, Files, Join;
    if high == i + 1 {
      assert es[i..high] == [es[i]];
      OneEntry(w, dir, es[i], dir + Join(p));
      MidEntry(w, dir, es[i], p);
    } else {
      assert es[i..high] == [];
      NoEntry(w, dir, dir + Join(p));
    }
  }

  /** Two stretches that each hand on all they should, or lose some. */
  lemma Joined(m: seq<seq<Name>>, allM: seq<seq<Name>>, h: seq<seq<Name>>, allH: seq<seq<Name>>)
    requires (m == allM || |m| < |allM|) && (h == allH || |h| < |allH|)
    ensures [] + m + h == [] + allM + allH <==> m == allM && h == allH
    ensures [] + m + h == [] + allM + allH || |[] + m + h| < |[] + allM + allH|
  {
  }

  lemma OneEntry(w: White, dir: string, e: Entry, bp: string)
    ensures Files(w, dir, [e]) == FilesOf(w, dir, e)
    ensures Walk(w, dir, [e], bp, false) == Visit(w, dir, e, bp, false)
  {
    assert [e][..0] == [];
  }

  lemma NoEntry(w: White, dir: string, bp: string)
    ensures Files(w, dir, []) == [] && Walk(w, dir, [], bp, false) == Outcome([], false)
  {
  }

  lemma Walk3(w: White, dir: string, a: seq<Entry>, b: seq<Entry>, d: seq<Entry>, p: seq<Name>)
    requires p != []
    ensures var bp := dir + Join(p);
      var r := Walk(w, dir, a, bp, false); var s := Walk(w, dir, b, bp, r.scan); var t := Walk(w, dir, d, bp, s.scan);
      Walk(w, dir, a + b + d, bp, false) == Outcome(r.files + s.files + t.files, t.scan)
    ensures NotBefore(Files(w, dir, a + b + d), p) ==
            NotBefore(Files(w, dir, a), p) + NotBefore(Files(w, dir, b), p) + NotBefore(Files(w, dir, d), p)
  {
    WalkCat(w, dir, a, b, dir + Join(p), false);
    WalkCat(w, dir, a + b, d, dir + Join(p), false);
    FilesCat(w, dir, a, b);
    FilesCat(w, dir, a + b, d);
    NotBeforeCat(Files(w, dir, a), Files(w, dir, b), p);
    NotBeforeCat(Files(w, dir, a + b), Files(w, dir, d), p);
  }

  // ---------------------------------------------------------------- results

  /** With a deleted breakpoint the resumed walk hands on exactly the files after it in walk
      order if and only if it is not misled. */
  lemma DeletedBreakpoint(w: White, dir: string, es: seq<Entry>, p: seq<Name>)
    requires Sorted(es) && AreNames(p)
    ensures Walk(w, dir, es, dir + Join(p), false).files == NotBefore(Files(w, dir, es), p) <==> !Misled(w, dir, es, p)
  {
    ResumeLevel(w, dir, es, p);
  }

  /** No directory on the way to the breakpoint has an entry whose name continues the way with
      a byte below the separator. */
  ghost predicate NoSuchSibling(es: seq<Entry>, p: seq<Name>)
    decreases |p|
  {
    |p| > 1 ==> forall i :: 0 <= i < |es| ==>
      !Follows(es[i].name, p[0]) && (es[i].Dir? && es[i].name == p[0] ==> NoSuchSibling(es[i].entries, p[1..]))
  }

  lemma {:induction false} NoSuchSiblingIsSafe(w: White, dir: string, es: seq<Entry>, p: seq<Name>)
    requires NoSuchSibling(es, p)
    ensures !Misled(w, dir, es, p)
    decreases |p|
  {
    if |p| > 1 {
      forall i | 0 <= i < |es| && OnWay(w, dir, es[i], p) ensures !Misled(w, dir + p[0] + "/", es[i].entries, p[1..]) {
        NoSuchSiblingIsSafe(w, dir + p[0] + "/", es[i].entries, p[1..]);
      }
    }
  }

  /** The case that fails: "/a/f" was the breakpoint, "/a" is gone, and "/a!" comes next: it
      lies after the breakpoint, but the resumed walk skips it. */
  lemma LosesAFile(w: White)
    requires w("/a!")
    ensures var es := [File("a!")];
      && Sorted(es) && Files(w, "/", es) == [["a!"]] && !Before(["a!"], ["a", "f"])
      && Misled(w, "/", es, ["a", "f"]) && Walk(w, "/", es, "/a/f", false).files == []
  {
    hide Judge, TrimSlashes;
    var e := File("a!");
    OneEntry(w, "/", e, "/a/f");
    NotBeforeIt();
    BreakpointText();
    JudgeIs("/", "a!", false, ["a", "f"]);
    FollowsIt();
    assert "/" + "a!" == "/a!";
    assert Loses(w, "/", [e][0], "a");
  }

  lemma FollowsIt()
    ensures Follows("a!", "a")
  {
    assert "a!"[1] == '!' && "a!"[..1] == "a";
  }

  lemma NotBeforeIt()
    ensures !Before(["a!"], ["a", "f"])
  {
    assert "a!"[1..] == "!" && "a"[1..] == "";
  }

  lemma BreakpointText()
    ensures "/" + Join(["a", "f"]) == "/a/f"
  {
    assert ["a", "f"][1..] == ["f"];
  }

  lemma {:induction false} FilesSorted(w: White, dir: string, es: seq<Entry>)
    requires Sorted(es)
    ensures forall i, j :: 0 <= i < j < |Files(w, dir, es)| ==> Before(Files(w, dir, es)[i], Files(w, dir, es)[j])
    decreases es
  {
    if es != [] {
      var rest, e := es[..|es| - 1], es[|es| - 1];
      assert forall i :: 0 <= i < |rest| ==> rest[i] == es[i];
      FilesSorted(w, dir, rest);
      HeadsAre(w, dir, rest);
      HeadIs(w, dir, e);
      var a, b := Files(w, dir, rest), FilesOf(w, dir, e);
      forall i, j | 0 <= i < |a| && 0 <= j < |b| ensures Before(a[i], b[j]) {
        var k :| 0 <= k < |rest| && rest[k].name == a[i][0];
        StrTrichotomy(rest[k].name, e.name);
      }
      if e.Dir? && w(dir + e.name) {
        var sub := Files(w, dir + e.name + "/", e.entries);
        FilesSorted(w, dir + e.name + "/", e.entries);
        forall i, j | 0 <= i < j < |b| ensures Before(b[i], b[j]) {
          assert b[i][1..] == sub[i] && b[j][1..] == sub[j];
        }
      }
    }
  }

  lemma {:induction false} SuffixFrom(ps: seq<seq<Name>>, k: nat)
    requires forall i, j :: 0 <= i < j < |ps| ==> Before(ps[i], ps[j])
    requires k < |ps|
    ensures NotBefore(ps, ps[k]) == ps[k..]
  {
    hide Before, NotBefore;
    forall i | k <= i < |ps| ensures !Before(ps[i], ps[k]) {
      BeforeTrichotomy(ps[i], ps[k]);
    }
    var low, high := ps[..k], ps[k..];
    assert forall i :: 0 <= i < |low| ==> low[i] == ps[i];
    assert forall i :: 0 <= i < |high| ==> high[i] == ps[k + i];
    NotBeforeNone(low, ps[k]);
    NotBeforeAll(high, ps[k]);
    NotBeforeCat(low, high, ps[k]);
    assert ps == low + high;
  }

  lemma {:induction false} InFiles(w: White, dir: string, es: seq<Entry>, p: seq<Name>) returns (i: nat)
    requires p in Files(w, dir, es)
    ensures i < |es| && p in FilesOf(w, dir, es[i])
    decreases es
  {
    if p in FilesOf(w, dir, es[|es| - 1]) {
      i := |es| - 1;
    } else {
      i := InFiles(w, dir, es[..|es| - 1], p);
    }
  }

  /** A breakpoint that still stands is found. */
  lemma {:induction false} StandingIsFound(w: White, dir: string, es: seq<Entry>, p: seq<Name>)
    requires Sorted(es) && p in Files(w, dir, es)
    ensures AreNames(p) && Wakes(w, dir, es, p) && !Misled(w, dir, es, p)
    decreases es
  {
    var i := InFiles(w, dir, es, p);
    HeadIs(w, dir, es[i]);
    if es[i].Dir? {
      var sub := dir + es[i].name + "/";
      assert exists k :: 0 <= k < |Files(w, sub, es[i].entries)| && p == [es[i].name] + Files(w, sub, es[i].entries)[k];
      assert p[1..] in Files(w, sub, es[i].entries);
      StandingIsFound(w, sub, es[i].entries, p[1..]);
      assert OnWay(w, dir, es[i], p);
      forall j | 0 <= j < |es| && OnWay(w, dir, es[j], p) ensures j == i {
        if j < i { StrIrreflexive(p[0]); } else if i < j { StrIrreflexive(p[0]); }
      }
    }
  }

  /** On an unchanged tree the resumed walk hands on exactly the suffix that starts at the
      saved breakpoint. */
  lemma UnchangedTree(w: White, dir: string, es: seq<Entry>, k: nat)
    requires Sorted(es) && k < |Files(w, dir, es)|
    ensures AreNames(Files(w, dir, es)[k])
    ensures Walk(w, dir, es, dir + Join(Files(w, dir, es)[k]), false).files == Files(w, dir, es)[k..]
  {
    var p := Files(w, dir, es)[k];
    StandingIsFound(w, dir, es, p);
    ResumeLevel(w, dir, es, p);
    FilesSorted(w, dir, es);
    SuffixFrom(Files(w, dir, es), k);
  }
}
