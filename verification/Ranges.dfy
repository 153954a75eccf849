/** How an object of a given size is cut into parts
    (data-mig/storagex/s3-multipart.go, lines 81-95). */
module Ranges {

  type Bytes = seq<bv8>

  /** How many parts of partSize an object of size bytes is sent in. */
  function Parts(size: nat, partSize: nat): nat
    requires partSize > 0
  {
    (size + partSize - 1) / partSize
  }

  function Offset(partSize: int, i: nat): int {
    i * partSize
  }

  /** Part i's length: partSize for every part but the last. */
  function Length(size: nat, partSize: int, i: nat): int {
    var left := size - Offset(partSize, i);
    if partSize < left then partSize else left
  }

  lemma PartBounds(size: nat, partSize: nat, i: nat)
    requires partSize > 0 && i < Parts(size, partSize)
    ensures 0 < Length(size, partSize, i) <= partSize
    ensures 0 <= Offset(partSize, i)
    ensures Offset(partSize, i) + Length(size, partSize, i) <= size
    ensures i + 1 < Parts(size, partSize) ==> Length(size, partSize, i) == partSize
    ensures i + 1 == Parts(size, partSize) ==> Offset(partSize, i) + Length(size, partSize, i) == size
    ensures Offset(partSize, i + 1) == Offset(partSize, i) + partSize
  {
    var n := Parts(size, partSize);
    PartsCover(size, partSize);
    NextOffset(partSize, i);
    NextOffset(partSize, n - 1);
    OffsetGrows(partSize, i, n - 1);
    if i + 1 < n {
      OffsetGrows(partSize, i + 1, n - 1);
    }
  }

  lemma NextOffset(partSize: nat, i: nat)
    ensures Offset(partSize, i + 1) == Offset(partSize, i) + partSize
  {
  }

  lemma {:induction false} OffsetGrows(partSize: nat, i: nat, j: nat)
    requires i <= j
    ensures 0 <= Offset(partSize, i) <= Offset(partSize, j)
  {
    if i < j {
      OffsetGrows(partSize, i, j - 1);
      NextOffset(partSize, j - 1);
    } else if i > 0 {
      OffsetGrows(partSize, 0, i - 1);
      NextOffset(partSize, i - 1);
    }
  }

  /** The last part is needed, and is enough. */
  lemma PartsCover(size: nat, partSize: nat)
    requires partSize > 0
    ensures var n := Parts(size, partSize);
            size <= Offset(partSize, n) && (n > 0 ==> Offset(partSize, n - 1) < size)
  {
    var n := Parts(size, partSize);
    assert Offset(partSize, n) + (size + partSize - 1) % partSize == size + partSize - 1;
    if n > 0 {
      NextOffset(partSize, n - 1);
    }
  }

  /** source holds every byte of part i. */
  predicate Fits(source: Bytes, size: nat, partSize: nat, i: nat)
    requires partSize > 0 && i < Parts(size, partSize)
  {
    PartBounds(size, partSize, i);
    Offset(partSize, i) + Length(size, partSize, i) <= |source|
  }

  /** The bytes of part i: what a range request for them returns. */
  function Range(source: Bytes, size: nat, partSize: nat, i: nat): (r: Bytes)
    requires partSize > 0 && i < Parts(size, partSize)
    requires Fits(source, size, partSize, i)
  {
    PartBounds(size, partSize, i);
    source[Offset(partSize, i)..Offset(partSize, i) + Length(size, partSize, i)]
  }

  /** The parts' bytes one after the other. */
  function Concat(bodies: seq<Bytes>): Bytes {
    if bodies == [] then [] else Concat(bodies[..|bodies| - 1]) + bodies[|bodies| - 1]
  }

  lemma {:induction false} ConcatRanges(source: Bytes, size: nat, partSize: nat, bodies: seq<Bytes>)
    requires partSize > 0 && |bodies| <= Parts(size, partSize)
    requires forall i :: 0 <= i < |bodies| ==> Fits(source, size, partSize, i) && bodies[i] == Range(source, size, partSize, i)
    ensures var end := if |bodies| == Parts(size, partSize) then size else Offset(partSize, |bodies|);
            end <= |source| && Concat(bodies) == source[..end]
  {
    var k := |bodies|;
    if k == 0 {
      if Parts(size, partSize) == 0 {
        assert size == 0;
      }
    } else {
      ConcatRanges(source, size, partSize, bodies[..k - 1]);
      PartBounds(size, partSize, k - 1);
      assert Fits(source, size, partSize, k - 1);
      var off := Offset(partSize, k - 1);
      var end := off + Length(size, partSize, k - 1);
      assert source[..off] + source[off..end] == source[..end];
    }
  }

  /** Parts that together are every part, each exactly its range of the source,
      join into the first size bytes of it, and the source has that many. */
  lemma RangesJoin(source: Bytes, size: nat, partSize: nat, bodies: seq<Bytes>)
    requires partSize > 0 && |bodies| == Parts(size, partSize)
    requires forall i :: 0 <= i < |bodies| ==> Fits(source, size, partSize, i) && bodies[i] == Range(source, size, partSize, i)
    ensures size <= |source| && Concat(bodies) == source[..size]
  {
    ConcatRanges(source, size, partSize, bodies);
  }
}
