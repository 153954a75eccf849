/** The two lanes a transfer's objects go in, those written in parts and the
    others, and the connections they come to
    (data-mig/storagex/executor-s3.go, s3-concurrency.go). */
module Lanes {
  import opened TransferOrder
  import opened Arithmetic

  // ---- the two lanes ----

  /** What of order is in parts, or is not, in order. */
  function Picked(order: seq<nat>, inParts: set<nat>, want: bool): seq<nat> {
    if order == [] then []
    else
      var n := |order| - 1;
      Picked(order[..n], inParts, want) + if (order[n] in inParts) == want then [order[n]] else []
  }

  /** The split at the head of forEachInLanes. */
  method SplitLanes(order: seq<nat>, inParts: set<nat>) returns (parted: seq<nat>, whole: seq<nat>)
    ensures parted == Picked(order, inParts, true) && whole == Picked(order, inParts, false)
  {
    parted, whole := [], [];
    var k := 0;
    while k < |order|
      invariant 0 <= k <= |order|
      invariant parted == Picked(order[..k], inParts, true) && whole == Picked(order[..k], inParts, false)
    {
      assert order[..k + 1][..k] == order[..k];
      if order[k] in inParts {
        parted := parted + [order[k]];
      } else {
        whole := whole + [order[k]];
      }
      k := k + 1;
    }
    assert order[..k] == order;
  }

  /** The lanes share no index, repeat none, and leave none out. */
  lemma {:induction false} LanesCover(order: seq<nat>, inParts: set<nat>)
    requires Distinct(order)
    ensures var parted, whole := Picked(order, inParts, true), Picked(order, inParts, false);
            && Distinct(parted) && Distinct(whole)
            && (forall i :: i in parted <==> i in order && i in inParts)
            && (forall i :: i in whole <==> i in order && i !in inParts)
  {
    if order != [] {
      var n := |order| - 1;
      LanesCover(order[..n], inParts);
      assert order == order[..n] + [order[n]];
      assert order[n] !in order[..n];
    }
  }

  // ---- the connections the two lanes come to ----

  const MAX_CONNECTIONS := 256 // s3MaxConnections

  /** s3Parts, of the concurrency c that s3Objects is. */
  function PartsAtOnce(c: nat): int {
    Max(1, Min(c, MAX_CONNECTIONS - c))
  }

  /** Objects and parts together keep to the cap exactly while there is a
      connection left for a part; and short of the cap nothing is cut back. There
      are no more parts at once than objects, and where none is left one. */
  lemma ConnectionsCapped(c: nat)
    requires c > 0
    ensures 1 <= PartsAtOnce(c) <= c
    ensures c >= MAX_CONNECTIONS ==> PartsAtOnce(c) == 1
    ensures c + PartsAtOnce(c) <= MAX_CONNECTIONS <==> c < MAX_CONNECTIONS
    ensures PartsAtOnce(c) < c ==> c + PartsAtOnce(c) >= MAX_CONNECTIONS
  {
  }
}
