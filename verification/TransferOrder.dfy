/** The order a transfer takes its objects in: largest first
    (data-mig/storagex/s3-concurrency.go). */
module TransferOrder {
  import Sort = StableSort

  function Indices(n: nat): (r: seq<nat>)
    ensures |r| == n && forall i :: 0 <= i < n ==> r[i] == i
  {
    seq(n, i => i)
  }

  function OrderOf(sizes: seq<nat>): seq<nat> {
    Sort.LargestFirst(Indices(|sizes|), (i: nat) => if i < |sizes| then sizes[i] else 0)
  }

  /** largestFirst. */
  method LargestFirst(sizes: seq<nat>) returns (order: seq<nat>)
    ensures order == OrderOf(sizes)
  {
    var all := new nat[|sizes|];
    var i := 0;
    while i < all.Length
      invariant 0 <= i <= all.Length
      invariant forall k :: 0 <= k < i ==> all[k] == k
    {
      all[i] := i;
      i := i + 1;
    }
    assert all[..] == Indices(|sizes|);
    order := Sort.LargestFirst(all[..], (i: nat) => if i < |sizes| then sizes[i] else 0);
  }

  ghost predicate Distinct(xs: seq<nat>) {
    forall i, j :: 0 <= i < j < |xs| ==> xs[i] != xs[j]
  }

  ghost predicate Before(sizes: seq<nat>, i: nat, j: nat) {
    i < |sizes| && j < |sizes| && (sizes[i] > sizes[j] || (sizes[i] == sizes[j] && i < j))
  }

  /** Every index once, larger objects first, and equal ones in listing order. */
  lemma OrderIsLargestFirst(sizes: seq<nat>)
    ensures var order := OrderOf(sizes);
            && Distinct(order)
            && (forall i: nat :: i in order <==> i < |sizes|)
            && (forall a, b :: 0 <= a < b < |order| ==> Before(sizes, order[a], order[b]))
  {
    var order := OrderOf(sizes);
    OrderHolds(sizes);
    forall a, b | 0 <= a < b < |order| ensures Before(sizes, order[a], order[b]) {
      OrderPutsBefore(sizes, a, b);
    }
  }

  lemma OrderHolds(sizes: seq<nat>)
    ensures Distinct(OrderOf(sizes)) && forall i: nat :: i in OrderOf(sizes) <==> i < |sizes|
  {
    var all, order := Indices(|sizes|), OrderOf(sizes);
    Sort.LargestFirstSorts(all, (i: nat) => if i < |sizes| then sizes[i] else 0, 0);
    SameMultisetDistinct(all, order);
    forall i: nat ensures i in order <==> i < |sizes| {
      assert i in order <==> i in multiset(order);
      assert i in all <==> i in multiset(all);
      assert i < |sizes| ==> all[i] == i;
    }
  }

  lemma OrderPutsBefore(sizes: seq<nat>, a: nat, b: nat)
    requires a < b < |OrderOf(sizes)|
    ensures Before(sizes, OrderOf(sizes)[a], OrderOf(sizes)[b])
  {
    var order := OrderOf(sizes);
    var key := (i: nat) => if i < |sizes| then sizes[i] else 0;
    var z := key(order[a]);
    OrderHolds(sizes);
    assert order[a] in order && order[b] in order;
    Sort.LargestFirstSorts(Indices(|sizes|), key, z);
    if key(order[b]) == z {
      OfKeyAscends(Indices(|sizes|), key, z);
      OfKeyKeepsOrder(order, key, z, a, b);
    }
  }

  lemma SameMultisetDistinct(all: seq<nat>, order: seq<nat>)
    requires Distinct(all) && multiset(all) == multiset(order)
    ensures Distinct(order)
  {
    DistinctIsOnce(all);
    forall i, j | 0 <= i < j < |order| ensures order[i] != order[j] {
      if order[i] == order[j] {
        TwiceCounts(order, i, j);
      }
    }
  }

  lemma {:induction false} DistinctIsOnce(xs: seq<nat>)
    requires Distinct(xs)
    ensures forall x :: multiset(xs)[x] <= 1
  {
    if xs != [] {
      var n := |xs| - 1;
      DistinctIsOnce(xs[..n]);
      assert xs == xs[..n] + [xs[n]];
      assert xs[n] !in xs[..n];
      assert multiset(xs[..n])[xs[n]] == 0;
    }
  }

  lemma TwiceCounts(xs: seq<nat>, i: nat, j: nat)
    requires i < j < |xs| && xs[i] == xs[j]
    ensures multiset(xs)[xs[i]] >= 2
  {
    assert xs == xs[..i] + [xs[i]] + xs[i + 1..j] + [xs[j]] + xs[j + 1..];
  }

  ghost predicate Ascends(xs: seq<nat>) {
    forall i, j :: 0 <= i < j < |xs| ==> xs[i] < xs[j]
  }

  ghost predicate AllAbove(xs: seq<nat>, low: nat) {
    forall i :: 0 <= i < |xs| ==> xs[i] > low
  }

  lemma {:induction false} OfKeyFrom(xs: seq<nat>, key: nat -> nat, z: nat, low: nat)
    requires AllAbove(xs, low)
    ensures AllAbove(Sort.OfKey(xs, key, z), low)
  {
    if xs != [] {
      OfKeyFrom(xs[1..], key, z, low);
    }
  }

  lemma {:induction false} OfKeyAscends(xs: seq<nat>, key: nat -> nat, z: nat)
    requires Ascends(xs)
    ensures Ascends(Sort.OfKey(xs, key, z))
  {
    if xs != [] {
      var rest := Sort.OfKey(xs[1..], key, z);
      OfKeyAscends(xs[1..], key, z);
      OfKeyFrom(xs[1..], key, z, xs[0]);
      assert key(xs[0]) != z ==> Sort.OfKey(xs, key, z) == rest;
    }
  }

  /** Two elements of one key are in OfKey in the same order. */
  lemma {:induction false} OfKeyKeepsOrder(xs: seq<nat>, key: nat -> nat, z: nat, a: nat, b: nat)
    requires a < b < |xs| && key(xs[a]) == z && key(xs[b]) == z
    requires Ascends(Sort.OfKey(xs, key, z))
    ensures xs[a] < xs[b]
  {
    var rest := Sort.OfKey(xs[1..], key, z);
    if a == 0 {
      HasKey(xs[1..], key, z, b - 1);
      var j :| 0 <= j < |rest| && rest[j] == xs[b];
      assert Sort.OfKey(xs, key, z)[j + 1] == xs[b] && Sort.OfKey(xs, key, z)[0] == xs[0];
    } else {
      var d := |Sort.OfKey(xs, key, z)| - |rest|;
      assert forall i :: 0 <= i < |rest| ==> rest[i] == Sort.OfKey(xs, key, z)[i + d];
      OfKeyKeepsOrder(xs[1..], key, z, a - 1, b - 1);
    }
  }

  lemma {:induction false} HasKey(xs: seq<nat>, key: nat -> nat, z: nat, b: nat)
    requires b < |xs| && key(xs[b]) == z
    ensures xs[b] in Sort.OfKey(xs, key, z)
  {
    if b > 0 {
      HasKey(xs[1..], key, z, b - 1);
    }
  }
}
