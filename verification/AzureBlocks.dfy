/** Azure's staged blocks: how large they are, how many, and what they are called
    (data-mig/storagex/s3-azure.go). The service's limits are parameters. */
module AzureBlocks {
  import opened Options
  import opened Ranges
  import opened Arithmetic

  const MIB := 1048576

  /** (b + 1<<20 - 1) &^ (1<<20 - 1): b, rounded up to whole MiB. */
  function WholeMiB(b: nat): nat {
    (b + MIB - 1) / MIB * MIB
  }

  /** startMultipart's block size and block count, or None where it refuses. */
  function StartMultipart(size: nat, minBlock: nat, maxBlocks: nat, maxStage: nat): Option<(nat, nat)>
    requires minBlock > 0 && maxBlocks > 0
  {
    var block := WholeMiB(Max(minBlock, (size + maxBlocks - 1) / maxBlocks));
    WholeMiBCovers(Max(minBlock, (size + maxBlocks - 1) / maxBlocks));
    if block > maxStage then None else Some((block, (size + block - 1) / block))
  }

  lemma WholeMiBCovers(b: nat)
    ensures b <= WholeMiB(b) < b + MIB && WholeMiB(b) % MIB == 0
  {
  }

  /** Nothing smaller that is whole MiB covers b. */
  lemma WholeMiBLeast(b: nat, m: nat)
    requires m % MIB == 0 && b <= m
    ensures WholeMiB(b) <= m
  {
    var k := m / MIB;
    assert m == k * MIB;
    assert b + MIB - 1 < (k + 1) * MIB;
    assert (b + MIB - 1) / MIB <= k;
  }

  lemma CeilCovers(size: nat, n: nat, block: nat)
    requires n > 0
    ensures (size + n - 1) / n <= block <==> size <= n * block
  {
    var q := (size + n - 1) / n;
    assert n * q + (size + n - 1) % n == size + n - 1;
    if q <= block {
      MultipleGrows(n, q, block);
    } else {
      MultipleGrows(n, block + 1, q);
      assert n * (block + 1) == n * block + n;
    }
  }

  /** The object is refused iff maxBlocks blocks of the largest size do not hold
      it. Otherwise the block is the least of whole MiB, no smaller than minBlock,
      with which maxBlocks hold it; the block list is as long as runMultipart
      counts parts, and no longer than maxBlocks. */
  lemma BlockChoiceIsExact(size: nat, minBlock: nat, maxBlocks: nat, maxStage: nat, smaller: nat)
    requires minBlock > 0 && maxBlocks > 0
    requires maxStage % MIB == 0 && minBlock <= maxStage
    ensures var r := StartMultipart(size, minBlock, maxBlocks, maxStage);
            && (r.None? <==> size > maxBlocks * maxStage)
            && (r.Some? ==>
                  var (block, blocks) := r.value;
                  && minBlock <= block <= maxStage && block % MIB == 0
                  && size <= maxBlocks * block
                  && (minBlock <= smaller < block && smaller % MIB == 0 ==> size > maxBlocks * smaller)
                  && blocks == Parts(size, block) && blocks <= maxBlocks)
  {
    var need := Max(minBlock, (size + maxBlocks - 1) / maxBlocks);
    var block := WholeMiB(need);
    WholeMiBCovers(need);
    CeilCovers(size, maxBlocks, maxStage);
    CeilCovers(size, maxBlocks, block);
    if need <= maxStage {
      WholeMiBLeast(need, maxStage);
      CeilCovers(size, block, maxBlocks);
      assert block * maxBlocks == maxBlocks * block;
      if minBlock <= smaller < block && smaller % MIB == 0 && size <= maxBlocks * smaller {
        CeilCovers(size, maxBlocks, smaller);
        WholeMiBLeast(need, smaller);
      }
    }
  }

  // ---- block IDs ----

  /** fmt's %0wd: n in decimal, at least w digits. */
  function Padded(n: nat, w: nat): (d: seq<nat>)
    ensures forall i :: 0 <= i < |d| ==> d[i] < 10
    ensures |d| >= 1
    decreases n + w
  {
    (if n >= 10 || w > 1 then Padded(n / 10, if w > 0 then w - 1 else 0) else []) + [n % 10]
  }

  function Value(d: seq<nat>): nat {
    if d == [] then 0 else Value(d[..|d| - 1]) * 10 + d[|d| - 1]
  }

  lemma {:induction false} PaddedValue(n: nat, w: nat)
    ensures Value(Padded(n, w)) == n
    decreases n + w
  {
    var d := Padded(n, w);
    if n >= 10 || w > 1 {
      PaddedValue(n / 10, if w > 0 then w - 1 else 0);
      assert d[..|d| - 1] == Padded(n / 10, if w > 0 then w - 1 else 0);
    } else {
      assert d[..|d| - 1] == [];
    }
  }

  function Pow10(w: nat): nat {
    if w == 0 then 1 else 10 * Pow10(w - 1)
  }

  /** w digits are enough exactly below ten to the w. */
  lemma {:induction false} PaddedLength(n: nat, w: nat)
    requires w > 0
    ensures |Padded(n, w)| >= w
    ensures |Padded(n, w)| == w <==> n < Pow10(w)
    decreases w
  {
    if w > 1 {
      PaddedLength(n / 10, w - 1);
    } else if n >= 10 {
      assert Pow10(1) == 10 * Pow10(0);
    } else {
      assert Pow10(1) == 10 * Pow10(0);
    }
  }

  /** The 64 characters of base64's standard alphabet (section 4 of RFC 4648). */
  function Char64(v: nat): char
    requires v < 64
  {
    if v < 26 then 'A' + v as char
    else if v < 52 then 'a' + (v - 26) as char
    else if v < 62 then '0' + (v - 52) as char
    else if v == 62 then '+' else '/'
  }

  lemma Char64Injective(v: nat, w: nat)
    requires v < 64 && w < 64 && Char64(v) == Char64(w)
    ensures v == w
  {
  }

  /** Three bytes, as four characters. */
  function Group(a: nat, b: nat, c: nat): (r: string)
    requires a < 256 && b < 256 && c < 256
    ensures |r| == 4
  {
    [Char64(a / 4), Char64(a % 4 * 16 + b / 16), Char64(b % 16 * 4 + c / 64), Char64(c % 64)]
  }

  /** Standard base64 with padding. */
  function Base64(b: seq<nat>): string
    requires forall i :: 0 <= i < |b| ==> b[i] < 256
  {
    if b == [] then ""
    else if |b| == 1 then Group(b[0], 0, 0)[..2] + "=="
    else if |b| == 2 then Group(b[0], b[1], 0)[..3] + "="
    else Group(b[0], b[1], b[2]) + Base64(b[3..])
  }

  lemma {:induction false} Base64Length(b: seq<nat>)
    requires forall i :: 0 <= i < |b| ==> b[i] < 256
    ensures |Base64(b)| == (|b| + 2) / 3 * 4
  {
    if |b| >= 3 {
      Base64Length(b[3..]);
      assert (|b| + 2) / 3 == (|b[3..]| + 2) / 3 + 1;
      assert |Base64(b)| == 4 + |Base64(b[3..])|;
    }
  }

  lemma SextetsInjective(a: nat, b: nat, c: nat, x: nat, y: nat, z: nat)
    requires a < 256 && b < 256 && c < 256 && x < 256 && y < 256 && z < 256
    requires a / 4 == x / 4 && a % 4 * 16 + b / 16 == x % 4 * 16 + y / 16
    requires b % 16 * 4 + c / 64 == y % 16 * 4 + z / 64 && c % 64 == z % 64
    ensures a == x && b == y && c == z
  {
  }

  /** A group's characters decide its bytes. */
  lemma GroupInjective(a: nat, b: nat, c: nat, x: nat, y: nat, z: nat)
    requires a < 256 && b < 256 && c < 256 && x < 256 && y < 256 && z < 256
    requires forall i :: 0 <= i < 4 ==> Group(a, b, c)[i] == Group(x, y, z)[i]
    ensures a == x && b == y && c == z
  {
    var g, h := Group(a, b, c), Group(x, y, z);
    assert g[0] == h[0] && g[1] == h[1] && g[2] == h[2] && g[3] == h[3];
    Char64Injective(a / 4, x / 4);
    Char64Injective(a % 4 * 16 + b / 16, x % 4 * 16 + y / 16);
    Char64Injective(b % 16 * 4 + c / 64, y % 16 * 4 + z / 64);
    Char64Injective(c % 64, z % 64);
    SextetsInjective(a, b, c, x, y, z);
  }

  lemma {:induction false} Base64Injective(a: seq<nat>, b: seq<nat>)
    requires forall i :: 0 <= i < |a| ==> a[i] < 256
    requires forall i :: 0 <= i < |b| ==> b[i] < 256
    requires |a| == |b| && Base64(a) == Base64(b)
    ensures a == b
  {
    if |a| == 1 {
      SamePrefix(Group(a[0], 0, 0)[..2], "==", Group(b[0], 0, 0)[..2], "==", Group(a[0], 0, 0), Group(b[0], 0, 0));
      GroupInjective(a[0], 0, 0, b[0], 0, 0);
    } else if |a| == 2 {
      SamePrefix(Group(a[0], a[1], 0)[..3], "=", Group(b[0], b[1], 0)[..3], "=", Group(a[0], a[1], 0), Group(b[0], b[1], 0));
      GroupInjective(a[0], a[1], 0, b[0], b[1], 0);
    } else if |a| > 2 {
      var g, h := Group(a[0], a[1], a[2]), Group(b[0], b[1], b[2]);
      SamePrefix(g, Base64(a[3..]), h, Base64(b[3..]), g, h);
      GroupInjective(a[0], a[1], a[2], b[0], b[1], b[2]);
      Base64Injective(a[3..], b[3..]);
      assert a == a[..3] + a[3..] && b == b[..3] + b[3..];
    }
  }

  lemma SamePrefix(p: string, s: string, q: string, t: string, g: string, h: string)
    requires p + s == q + t && |p| == |q|
    requires p <= g && q <= h
    ensures s == t && forall i :: 0 <= i < |p| ==> g[i] == h[i]
  {
    assert p == (p + s)[..|p|] == (q + t)[..|p|] == q;
    assert s == (p + s)[|p|..] == (q + t)[|p|..] == t;
    assert forall i :: 0 <= i < |p| ==> g[i] == p[i] && h[i] == q[i];
  }

  /** azureBlockID: the base64 of n's eight decimal digits. */
  function BlockId(n: nat): string {
    Base64(Ascii(Padded(n, 8)))
  }

  function Ascii(d: seq<nat>): (b: seq<nat>)
    requires forall i :: 0 <= i < |d| ==> d[i] < 10
    ensures |b| == |d| && forall i :: 0 <= i < |b| ==> b[i] == 48 + d[i]
  {
    seq(|d|, i requires 0 <= i < |d| => 48 + d[i])
  }

  /** Every part of a blob has a name of its own, and all the names are equally
      long, as the service demands: up to 99,999,999 parts. */
  lemma BlockIdsDistinct(n: nat, m: nat)
    requires n < 100_000_000 && m < 100_000_000
    ensures |BlockId(n)| == |BlockId(m)| == 12
    ensures BlockId(n) == BlockId(m) <==> n == m
  {
    assert Pow10(8) == 100_000_000;
    PaddedLength(n, 8);
    PaddedLength(m, 8);
    Base64Length(Ascii(Padded(n, 8)));
    Base64Length(Ascii(Padded(m, 8)));
    if BlockId(n) == BlockId(m) {
      Base64Injective(Ascii(Padded(n, 8)), Ascii(Padded(m, 8)));
      var a, b := Padded(n, 8), Padded(m, 8);
      assert forall i :: 0 <= i < 8 ==> Ascii(a)[i] == Ascii(b)[i];
      assert a == b;
      PaddedValue(n, 8);
      PaddedValue(m, 8);
    }
  }
}
