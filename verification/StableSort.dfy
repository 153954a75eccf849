/** What Go's slices.SortStableFunc does with a "larger key first" comparison:
    the order both splitBySize and largestFirst ask for. */
module StableSort {

  /** Puts x before the first element whose key is not larger than its own, so
      x stays in front of the equal keys that came after it. */
  function Insert<T>(x: T, xs: seq<T>, key: T -> nat): seq<T> {
    if xs == [] || key(x) >= key(xs[0]) then [x] + xs
    else [xs[0]] + Insert(x, xs[1..], key)
  }

  function LargestFirst<T>(xs: seq<T>, key: T -> nat): seq<T> {
    if xs == [] then [] else Insert(xs[0], LargestFirst(xs[1..], key), key)
  }

  ghost predicate Descending<T>(xs: seq<T>, key: T -> nat) {
    forall i, j :: 0 <= i < j < |xs| ==> key(xs[i]) >= key(xs[j])
  }

  /** The elements of key z, in their order. */
  function OfKey<T>(xs: seq<T>, key: T -> nat, z: nat): seq<T> {
    if xs == [] then []
    else (if key(xs[0]) == z then [xs[0]] else []) + OfKey(xs[1..], key, z)
  }

  lemma {:induction false} InsertHolds<T>(x: T, xs: seq<T>, key: T -> nat)
    ensures multiset(Insert(x, xs, key)) == multiset([x] + xs)
  {
    if xs != [] && key(x) < key(xs[0]) {
      InsertHolds(x, xs[1..], key);
      assert xs == [xs[0]] + xs[1..];
    }
  }

  lemma {:induction false} InsertDescends<T>(x: T, xs: seq<T>, key: T -> nat)
    requires Descending(xs, key)
    ensures Descending(Insert(x, xs, key), key)
  {
    if xs != [] && key(x) < key(xs[0]) {
      var tail := Insert(x, xs[1..], key);
      InsertDescends(x, xs[1..], key);
      InsertHolds(x, xs[1..], key);
      forall j | 0 <= j < |tail| ensures key(xs[0]) >= key(tail[j]) {
        assert tail[j] in multiset([x] + xs[1..]);
      }
    }
  }

  lemma {:induction false} InsertStable<T>(x: T, xs: seq<T>, key: T -> nat, z: nat)
    ensures OfKey(Insert(x, xs, key), key, z) == OfKey([x] + xs, key, z)
  {
    assert ([x] + xs)[1..] == xs;
    if xs != [] && key(x) < key(xs[0]) {
      var tail := Insert(x, xs[1..], key);
      InsertStable(x, xs[1..], key, z);
      assert ([x] + xs[1..])[1..] == xs[1..];
      assert ([xs[0]] + tail)[1..] == tail;
    }
  }

  /** A stable descending sort: the same elements, larger keys first, and equal
      keys in the order they came in. */
  lemma {:induction false} LargestFirstSorts<T>(xs: seq<T>, key: T -> nat, z: nat)
    ensures var r := LargestFirst(xs, key);
            && |r| == |xs|
            && Descending(r, key)
            && multiset(r) == multiset(xs)
            && OfKey(r, key, z) == OfKey(xs, key, z)
  {
    if xs != [] {
      var tail := LargestFirst(xs[1..], key);
      LargestFirstSorts(xs[1..], key, z);
      InsertHolds(xs[0], tail, key);
      InsertDescends(xs[0], tail, key);
      InsertStable(xs[0], tail, key, z);
      assert xs == [xs[0]] + xs[1..];
      assert ([xs[0]] + tail)[1..] == tail;
      assert |multiset(LargestFirst(xs, key))| == |multiset(xs)|;
    }
  }
}
