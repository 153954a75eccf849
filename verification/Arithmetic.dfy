/** Numbers, sums of numbers and sets of them. */
module Arithmetic {

  function Min(a: int, b: int): int { if a < b then a else b }
  function Max(a: int, b: int): int { if a > b then a else b }

  lemma NextMultiple(m: nat, x: nat)
    ensures (m + 1) * x == m * x + x
  {
  }

  lemma {:induction false} MultipleGrows(n: nat, x: nat, y: nat)
    requires x <= y
    ensures n * x <= n * y
  {
    if n > 0 {
      MultipleGrows(n - 1, x, y);
      NextMultiple(n - 1, x);
      NextMultiple(n - 1, y);
    }
  }

  function Sum(xs: seq<nat>): nat {
    if xs == [] then 0 else Sum(xs[..|xs| - 1]) + xs[|xs| - 1]
  }

  lemma {:induction false} SumUpdate(xs: seq<nat>, i: nat, x: nat)
    requires i < |xs|
    ensures Sum(xs[i := x]) == Sum(xs) - xs[i] + x
  {
    var n := |xs| - 1;
    if i < n {
      SumUpdate(xs[..n], i, x);
      assert xs[i := x][..n] == xs[..n][i := x];
    } else {
      assert xs[i := x][..n] == xs[..n];
    }
  }

  lemma {:induction false} SumZeros(n: nat)
    ensures Sum(seq(n, _ => 0)) == 0
  {
    if n > 0 {
      SumZeros(n - 1);
      assert seq(n, _ => 0)[..n - 1] == seq(n - 1, _ => 0);
    }
  }

  /** Larger numbers, one by one, have the larger sum. */
  lemma {:induction false} SumGrows(xs: seq<nat>, ys: seq<nat>)
    requires |xs| == |ys| && forall i :: 0 <= i < |xs| ==> xs[i] <= ys[i]
    ensures Sum(xs) <= Sum(ys)
  {
    if xs != [] {
      SumGrows(xs[..|xs| - 1], ys[..|ys| - 1]);
    }
  }

  /** If then the sums are the same, so are the numbers. */
  lemma {:induction false} SumSame(xs: seq<nat>, ys: seq<nat>)
    requires |xs| == |ys| && (forall i :: 0 <= i < |xs| ==> xs[i] <= ys[i]) && Sum(xs) == Sum(ys)
    ensures xs == ys
  {
    if xs != [] {
      var n := |xs| - 1;
      SumGrows(xs[..n], ys[..n]);
      SumSame(xs[..n], ys[..n]);
      assert xs == xs[..n] + [xs[n]] && ys == ys[..n] + [ys[n]];
    }
  }

  /** A set inside another has no more elements. */
  lemma {:induction false} Fewer(a: set<nat>, b: set<nat>)
    requires a <= b
    ensures |a| <= |b|
  {
    if a != {} {
      var x :| x in a;
      Fewer(a - {x}, b - {x});
    }
  }
}
