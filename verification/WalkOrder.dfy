/** pathLess, the order remote directory listings are sorted by, and the order in
    which filepath.Walk visits a tree (data-mig/storagex/inspect.go). */
module WalkOrder {

  /** Go's < on strings. */
  predicate Less(a: string, b: string) {
    b != "" && (a == "" || a[0] < b[0] || (a[0] == b[0] && Less(a[1..], b[1..])))
  }

  const NUL := 0 as char

  /** The separator as NUL. */
  function Nulled(s: string): (r: string)
    ensures |r| == |s|
  {
    if s == "" then "" else [if s[0] == '/' then NUL else s[0]] + Nulled(s[1..])
  }

  /** pathLess. */
  predicate PathLess(a: string, b: string) {
    Less(Nulled(a), Nulled(b))
  }

  ghost predicate Sorted(paths: seq<string>) {
    forall i, j :: 0 <= i < j < |paths| ==> PathLess(paths[i], paths[j])
  }

  // ---- the tree ----

  datatype Dir = Dir(name: string, children: seq<Dir>)

  predicate IsName(s: string) {
    s != "" && '/' !in s && NUL !in s
  }

  /** A directory as the operating system has it, its entries in the order
      os.ReadDir sorts them. */
  predicate Named(d: Dir) {
    forall i :: 0 <= i < |d.children| ==> IsName(d.children[i].name) && Named(d.children[i])
  }

  predicate Ordered(ts: seq<Dir>) {
    forall i, j :: 0 <= i < j < |ts| ==> Less(ts[i].name, ts[j].name)
  }

  predicate AllOrdered(d: Dir) {
    Ordered(d.children) && forall i :: 0 <= i < |d.children| ==> AllOrdered(d.children[i])
  }

  /** filepath.Join of a clean path and a name. */
  function Child(path: string, name: string): string {
    (if path == "/" then "/" else path + "/") + name
  }

  /** The paths filepath.Walk visits from a directory down, itself first. */
  function Visit(path: string, d: Dir): seq<string>
    decreases d, 0
  {
    [path] + VisitAll(path, d.children)
  }

  function VisitAll(path: string, ts: seq<Dir>): seq<string>
    decreases ts, 1
  {
    if ts == [] then [] else Visit(Child(path, ts[0].name), ts[0]) + VisitAll(path, ts[1..])
  }

  /** path is at or below base. */
  predicate AtOrBelow(base: string, path: string) {
    base <= path && (|path| == |base| || path[|base|] == '/')
  }

  lemma {:induction false} VisitedBelow(path: string, d: Dir)
    requires Named(d) && path != "/"
    ensures forall x :: x in Visit(path, d) ==> AtOrBelow(path, x)
    decreases d, 0
  {
    VisitedAllBelow(path, d.children);
    forall x | x in VisitAll(path, d.children) ensures AtOrBelow(path, x) {
      var k :| 0 <= k < |d.children| && AtOrBelow(Child(path, d.children[k].name), x);
      assert path + "/" <= Child(path, d.children[k].name) <= x;
      assert x[|path|] == '/';
    }
  }

  /** Everything visited below a directory is at or below one of its entries. */
  lemma {:induction false} VisitedAllBelow(path: string, ts: seq<Dir>)
    requires forall i :: 0 <= i < |ts| ==> IsName(ts[i].name) && Named(ts[i])
    ensures forall x :: x in VisitAll(path, ts) ==> exists k :: 0 <= k < |ts| && AtOrBelow(Child(path, ts[k].name), x)
    decreases ts, 1
  {
    if ts != [] {
      var first := Child(path, ts[0].name);
      assert first != "/" by {
        assert first[|first| - 1] == ts[0].name[|ts[0].name| - 1];
      }
      VisitedBelow(first, ts[0]);
      VisitedAllBelow(path, ts[1..]);
      var rest := VisitAll(path, ts[1..]);
      assert VisitAll(path, ts) == Visit(first, ts[0]) + rest;
      forall x | x in VisitAll(path, ts) ensures exists k :: 0 <= k < |ts| && AtOrBelow(Child(path, ts[k].name), x) {
        if x in Visit(first, ts[0]) {
          assert AtOrBelow(Child(path, ts[0].name), x);
        } else {
          assert x in rest;
          var k :| 0 <= k < |ts[1..]| && AtOrBelow(Child(path, ts[1..][k].name), x);
          assert AtOrBelow(Child(path, ts[k + 1].name), x);
        }
      }
    }
  }

  // ---- comparing paths ----

  lemma {:induction false} NulledAppend(a: string, b: string)
    ensures Nulled(a + b) == Nulled(a) + Nulled(b)
  {
    if a == "" {
      assert a + b == b;
    } else {
      assert (a + b)[1..] == a[1..] + b;
      NulledAppend(a[1..], b);
    }
  }

  lemma {:induction false} NulledName(s: string)
    requires '/' !in s
    ensures Nulled(s) == s
  {
    if s != "" {
      NulledName(s[1..]);
    }
  }

  lemma {:induction false} LessAfter(p: string, a: string, b: string)
    ensures Less(p + a, p + b) <==> Less(a, b)
  {
    if p == "" {
      assert p + a == a && p + b == b;
    } else {
      assert (p + a)[1..] == p[1..] + a && (p + b)[1..] == p[1..] + b;
      LessAfter(p[1..], a, b);
    }
  }

  /** What follows a name in a path does not matter: it is nothing, or NUL, which
      is before all that a longer name could have there. */
  lemma {:induction false} LessByName(a: string, b: string, r: string, t: string)
    requires Less(a, b) && NUL !in b && (r == "" || r[0] == NUL)
    ensures Less(a + r, b + t)
  {
    if a == "" {
      assert a + r == r;
      assert (b + t)[0] == b[0];
      if r != "" {
        assert b[0] != NUL;
      }
    } else {
      assert (a + r)[0] == a[0] && (b + t)[0] == b[0];
      if a[0] == b[0] {
        LessByName(a[1..], b[1..], r, t);
        assert (a + r)[1..] == a[1..] + r && (b + t)[1..] == b[1..] + t;
      }
    }
  }

  /** Of two entries of a directory, everything at or below the first in order is
      before everything at or below the second. */
  lemma EntriesApart(path: string, a: string, b: string, x: string, y: string)
    requires IsName(a) && IsName(b) && Less(a, b)
    requires AtOrBelow(Child(path, a), x) && AtOrBelow(Child(path, b), y)
    ensures PathLess(x, y)
  {
    var top := if path == "/" then "/" else path + "/";
    var r, t := x[|Child(path, a)|..], y[|Child(path, b)|..];
    assert x == top + (a + r) && y == top + (b + t);
    NulledAppend(top, a + r);
    NulledAppend(top, b + t);
    NulledAppend(a, r);
    NulledAppend(b, t);
    NulledName(a);
    NulledName(b);
    LessByName(a, b, Nulled(r), Nulled(t));
    LessAfter(Nulled(top), a + Nulled(r), b + Nulled(t));
  }

  lemma LongerIsLater(a: string, r: string)
    requires r != ""
    ensures PathLess(a, a + r)
  {
    NulledAppend(a, r);
    LessAfter(Nulled(a), "", Nulled(r));
    assert Nulled(a) + "" == Nulled(a);
  }

  // ---- the walk is sorted ----

  lemma SortedJoin(a: seq<string>, b: seq<string>)
    requires Sorted(a) && Sorted(b)
    requires forall x, y :: x in a && y in b ==> PathLess(x, y)
    ensures Sorted(a + b)
  {
  }

  lemma {:induction false} VisitSorted(path: string, d: Dir)
    requires Named(d) && AllOrdered(d)
    ensures Sorted(Visit(path, d))
    decreases d, 0
  {
    VisitAllSorted(path, d.children);
    VisitedAllBelow(path, d.children);
    forall x | x in VisitAll(path, d.children) ensures PathLess(path, x) {
      var k :| 0 <= k < |d.children| && AtOrBelow(Child(path, d.children[k].name), x);
      assert path <= Child(path, d.children[k].name) <= x;
      LongerIsLater(path, x[|path|..]);
      assert path + x[|path|..] == x;
    }
    SortedJoin([path], VisitAll(path, d.children));
  }

  lemma {:induction false} VisitAllSorted(path: string, ts: seq<Dir>)
    requires Ordered(ts) && forall i :: 0 <= i < |ts| ==> IsName(ts[i].name) && Named(ts[i]) && AllOrdered(ts[i])
    ensures Sorted(VisitAll(path, ts))
    decreases ts, 1
  {
    if ts != [] {
      var first, rest := Visit(Child(path, ts[0].name), ts[0]), VisitAll(path, ts[1..]);
      VisitSorted(Child(path, ts[0].name), ts[0]);
      VisitAllSorted(path, ts[1..]);
      FirstBeforeRest(path, ts);
      SortedJoin(first, rest);
    }
  }

  lemma FirstBeforeRest(path: string, ts: seq<Dir>)
    requires ts != [] && Ordered(ts) && forall i :: 0 <= i < |ts| ==> IsName(ts[i].name) && Named(ts[i])
    ensures forall x, y :: x in Visit(Child(path, ts[0].name), ts[0]) && y in VisitAll(path, ts[1..]) ==> PathLess(x, y)
  {
    var base := Child(path, ts[0].name);
    assert base != "/" by {
      assert base[|base| - 1] == ts[0].name[|ts[0].name| - 1];
    }
    VisitedBelow(base, ts[0]);
    VisitedAllBelow(path, ts[1..]);
    forall x, y | x in Visit(base, ts[0]) && y in VisitAll(path, ts[1..]) ensures PathLess(x, y) {
      var k :| 0 <= k < |ts[1..]| && AtOrBelow(Child(path, ts[1..][k].name), y);
      assert ts[1..][k] == ts[k + 1];
      EntriesApart(path, ts[0].name, ts[k + 1].name, x, y);
    }
  }

  /** What a sort by pathLess promises of its result. */
  ghost predicate InOrder(paths: seq<string>) {
    forall i, j :: 0 <= i < j < |paths| ==> !PathLess(paths[j], paths[i])
  }

  lemma SameFirst(a: seq<string>, b: seq<string>)
    requires Sorted(a) && InOrder(b) && a != [] && b != [] && a[0] in b && b[0] in a
    ensures a[0] == b[0]
  {
  }

  lemma SameRest(a: seq<string>, b: seq<string>)
    requires a != [] && b != [] && a[0] == b[0] && multiset(a) == multiset(b)
    ensures multiset(a[1..]) == multiset(b[1..])
  {
    assert a == [a[0]] + a[1..] && b == [b[0]] + b[1..];
    assert multiset(a[1..]) == multiset(a) - multiset{a[0]};
    assert multiset(b[1..]) == multiset(b) - multiset{b[0]};
  }

  /** A strictly sorted list is the only one of its elements that is in order. */
  lemma {:induction false} SortedIsUnique(a: seq<string>, b: seq<string>)
    requires Sorted(a) && InOrder(b) && multiset(a) == multiset(b)
    ensures a == b
  {
    assert |multiset(a)| == |a| && |multiset(b)| == |b|;
    if a != [] {
      assert a[0] in multiset(b) && b[0] in multiset(a);
      SameFirst(a, b);
      SameRest(a, b);
      assert a == [a[0]] + a[1..] && b == [b[0]] + b[1..];
      SortedIsUnique(a[1..], b[1..]);
    }
  }

  /** Whatever order a listing of a tree comes in, sorted by pathLess it is the
      order of the walk: each directory before what is in it, and before its later
      siblings with all that is in them. */
  lemma SortingIsWalking(root: string, d: Dir, order: seq<string>)
    requires Named(d) && AllOrdered(d)
    requires multiset(order) == multiset(Visit(root, d)) && InOrder(order)
    ensures order == Visit(root, d)
  {
    VisitSorted(root, d);
    SortedIsUnique(Visit(root, d), order);
  }

  /** Comparing the paths as they are would not do: a sibling can come between a
      directory and what is in it. */
  lemma PlainOrderDiffers()
    ensures Less("a.b", "a/c") && !PathLess("a.b", "a/c") && PathLess("a/c", "a.b")
  {
    assert "a.b"[1..] == ".b" && "a/c"[1..] == "/c";
    assert Nulled("a/c")[1..] == Nulled("/c") && Nulled("a.b")[1..] == Nulled(".b");
  }
}
