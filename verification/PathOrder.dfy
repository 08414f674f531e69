/** Byte order on full paths against the order of a directory walk. */
module PathOrder {

  type Name = string

  /** Go's string comparison. */
  predicate StrLess(a: string, b: string) {
    if b == [] then false
    else if a == [] then true
    else if a[0] != b[0] then a[0] < b[0]
    else StrLess(a[1..], b[1..])
  }

  predicate IsName(n: string) {
    n != "" && '/' !in n
  }

  ghost predicate AreNames(p: seq<Name>) {
    p != [] && forall i :: 0 <= i < |p| ==> IsName(p[i])
  }

  /** The path of a sequence of names. */
  function Join(p: seq<Name>): string
    requires p != []
  {
    if |p| == 1 then p[0] else p[0] + "/" + Join(p[1..])
  }

  /** The order in which a walk meets paths: name by name, a directory before what is in it. */
  predicate Before(p: seq<Name>, q: seq<Name>) {
    if q == [] then false
    else if p == [] then true
    else if p[0] != q[0] then StrLess(p[0], q[0])
    else Before(p[1..], q[1..])
  }

  /** `name` continues `c` with a byte below the separator. */
  predicate Follows(name: string, c: string) {
    c <= name && |name| > |c| && name[|c|] < '/'
  }

  // ---------------------------------------------------------------- string order

  lemma {:induction false} StrTrichotomy(a: string, b: string)
    ensures !(StrLess(a, b) && StrLess(b, a)) && (a != b ==> StrLess(a, b) || StrLess(b, a)) && !StrLess(a, a)
  {
    if a != [] && b != [] {
      StrTrichotomy(a[1..], b[1..]);
      assert a == [a[0]] + a[1..] && b == [b[0]] + b[1..];
    }
    if a != [] { StrIrreflexive(a); }
  }

  lemma {:induction false} StrIrreflexive(a: string)
    ensures !StrLess(a, a)
  {
    if a != [] { StrIrreflexive(a[1..]); }
  }

  lemma {:induction false} StrTransitive(a: string, b: string, c: string)
    requires StrLess(a, b) && StrLess(b, c)
    ensures StrLess(a, c)
  {
    if a != [] && a[0] == b[0] == c[0] { StrTransitive(a[1..], b[1..], c[1..]); }
  }

  lemma {:induction false} StrPrefixed(d: string, a: string, b: string)
    ensures StrLess(d + a, d + b) <==> StrLess(a, b)
  {
    if d == [] {
      assert d + a == a && d + b == b;
    } else {
      assert (d + a)[1..] == d[1..] + a && (d + b)[1..] == d[1..] + b;
      StrPrefixed(d[1..], a, b);
    }
  }

  /** Where a name stands against a longer path that starts with `c`. */
  lemma {:induction false} NameAgainstPath(name: string, c: string, rest: string)
    requires '/' !in name
    ensures StrLess(c + "/" + rest, name) <==> StrLess(c, name) && !Follows(name, c)
  {
    var s := c + "/" + rest;
    if c == [] {
      assert s == "/" + rest;
    } else if name != [] {
      assert s[1..] == c[1..] + "/" + rest;
      if c[0] == name[0] {
        assert '/' !in name[1..];
        NameAgainstPath(name[1..], c[1..], rest);
        assert c <= name <==> c[1..] <= name[1..];
      }
    }
  }

  /** A name between `c` and a name that follows `c` follows `c` too. */
  lemma {:induction false} FollowsFirst(c: string, m: string, n: string)
    requires StrLess(c, m) && StrLess(m, n) && Follows(n, c)
    ensures Follows(m, c)
  {
    if c != [] {
      FollowsFirst(c[1..], m[1..], n[1..]);
      assert m == [m[0]] + m[1..];
    }
  }

  // ---------------------------------------------------------------- names against a breakpoint

  lemma JoinHead(p: seq<Name>)
    requires AreNames(p) && |p| > 1
    ensures Join(p) == p[0] + "/" + Join(p[1..]) && AreNames(p[1..])
  {
  }

  /** The three tests of the walk, on the last component and the rest of the breakpoint. */
  lemma {:induction false} PrefixOfPath(name: string, c: string, rest: string)
    requires '/' !in name && '/' !in c
    ensures name != c + "/" + rest
    ensures name + "/" <= c + "/" + rest <==> name == c
  {
    var s, n := c + "/" + rest, name + "/";
    assert s != [] && n != [];
    assert n <= s <==> n[0] == s[0] && n[1..] <= s[1..];
    if name != [] && c != [] {
      assert n[1..] == name[1..] + "/" && s[1..] == c[1..] + "/" + rest;
      assert name == [name[0]] + name[1..] && c == [c[0]] + c[1..];
      PrefixOfPath(name[1..], c[1..], rest);
      assert s == [c[0]] + (c[1..] + "/" + rest);
    } else {
      assert s[|c|] == '/' && n[|name|] == '/';
    }
  }

  lemma {:induction false} PrefixOfName(name: string, c: string)
    requires '/' !in c
    ensures !(name + "/" <= c)
  {
    var n := name + "/";
    if name != [] && c != [] {
      assert n[1..] == name[1..] + "/";
      assert n <= c <==> n[0] == c[0] && n[1..] <= c[1..];
      PrefixOfName(name[1..], c[1..]);
    } else if c != [] {
      assert n[0] == '/' && c[0] in c;
    }
  }

  /** The three tests of the walk, on the first component and the rest of the breakpoint. */
  lemma TestsOnNames(name: Name, p: seq<Name>)
    requires IsName(name) && AreNames(p)
    ensures name == Join(p) <==> |p| == 1 && name == p[0]
    ensures name + "/" <= Join(p) <==> |p| > 1 && name == p[0]
    ensures StrLess(Join(p), name) <==> StrLess(p[0], name) && (|p| > 1 ==> !Follows(name, p[0]))
  {
    if |p| > 1 {
      JoinHead(p);
      NameAgainstPath(name, p[0], Join(p[1..]));
      PrefixOfPath(name, p[0], Join(p[1..]));
    } else {
      PrefixOfName(name, p[0]);
    }
  }

  lemma {:induction false} JoinHasNoTail(p: seq<Name>)
    requires AreNames(p)
    ensures Join(p) != "" && Join(p)[|Join(p)| - 1] != '/'
  {
    if |p| > 1 {
      JoinHead(p);
      JoinHasNoTail(p[1..]);
    }
  }

  lemma {:induction false} BeforeTrichotomy(p: seq<Name>, q: seq<Name>)
    ensures !(Before(p, q) && Before(q, p)) && (p != q ==> Before(p, q) || Before(q, p)) && !Before(p, p)
  {
    if p != [] { BeforeIrreflexive(p); }
    if p != [] && q != [] {
      StrTrichotomy(p[0], q[0]);
      BeforeTrichotomy(p[1..], q[1..]);
      assert p == [p[0]] + p[1..] && q == [q[0]] + q[1..];
    }
  }

  lemma {:induction false} BeforeIrreflexive(p: seq<Name>)
    ensures !Before(p, p)
  {
    if p != [] { BeforeIrreflexive(p[1..]); }
  }
}
