/** Graham's bound is exact for every number of processes: the files on which
    dealing largest first is as far from the best split as it can be
    (data-mig/storagex/executor-rsync-shard.go). */
module TightBound {
  import Sort = StableSort
  import opened Arithmetic
  import opened Shards

  /** Two files of each size from 2n - 1 down to n, and one more of n. */
  function TightSize(n: nat, k: nat): nat
    requires k <= 2 * n
  {
    if k == 2 * n then n else 2 * n - 1 - k / 2
  }

  ghost predicate IsTight(files: seq<FileInfo>, n: nat) {
    n > 0 && |files| == 2 * n + 1 && forall k :: 0 <= k <= 2 * n ==> files[k].size == TightSize(n, k)
  }

  function TightFiles(n: nat): (files: seq<FileInfo>)
    requires n > 0
    ensures IsTight(files, n)
  {
    seq(2 * n + 1, k requires 0 <= k < 2 * n + 1 => FileInfo("", TightSize(n, k)))
  }

  // ---- how they are dealt ----

  /** One more file, onto the lightest list. */
  function Put(loads: seq<nat>, size: nat): (r: seq<nat>)
    requires loads != []
    ensures |r| == |loads|
  {
    loads[Lightest(loads) := loads[Lightest(loads)] + size]
  }

  /** The loads of the lists after k files. */
  function Dealt(n: nat, k: nat): (r: seq<nat>)
    requires n > 0 && k <= 2 * n + 1
    ensures |r| == n
  {
    if k == 0 then seq(n, _ => 0) else Put(Dealt(n, k - 1), TightSize(n, k - 1))
  }

  lemma {:induction false} DealtIsDeal(files: seq<FileInfo>, n: nat, k: nat)
    requires IsTight(files, n) && k <= |files|
    ensures Loads(Deal(files[..k], n)) == Dealt(n, k)
  {
    if k == 0 {
      NothingDealt(files, n);
    } else {
      DealtIsDeal(files, n, k - 1);
      LoadsPut(files, n, k - 1);
    }
  }

  lemma NothingDealt(files: seq<FileInfo>, n: nat)
    requires n > 0
    ensures Loads(Deal(files[..0], n)) == seq(n, _ => 0)
  {
    assert files[..0] == [];
  }

  lemma LoadsPut(files: seq<FileInfo>, n: nat, k: nat)
    requires n > 0 && k < |files|
    ensures Loads(Deal(files[..k + 1], n)) == Put(Loads(Deal(files[..k], n)), files[k].size)
  {
    DealStep(files, n, k);
    PutOnLists(Deal(files[..k], n), files[k]);
  }

  lemma PutOnLists(shards: seq<seq<FileInfo>>, f: FileInfo)
    requires shards != []
    ensures var low := Lightest(Loads(shards)); Loads(shards[low := shards[low] + [f]]) == Put(Loads(shards), f.size)
  {
    LoadsUpdate(shards, Lightest(Loads(shards)), f);
  }

  /** The first n files go to a list each. */
  lemma {:induction false} FirstRound(n: nat, k: nat)
    requires 0 < n && k <= n
    ensures forall j :: 0 <= j < n ==> Dealt(n, k)[j] == if j < k then TightSize(n, j) else 0
  {
    if k > 0 {
      FirstRound(n, k - 1);
      var loads := Dealt(n, k - 1);
      assert loads[k - 1] == 0;
      assert loads[Lightest(loads)] == 0;
      assert forall j :: 0 <= j < k - 1 ==> loads[j] > 0;
      assert Lightest(loads) == k - 1;
    }
  }

  ghost predicate AllWithin(loads: seq<nat>, h: nat) {
    forall j :: 0 <= j < |loads| ==> loads[j] <= h
  }

  /** Lists that still hold one file alone. */
  ghost predicate Single(n: nat, loads: seq<nat>, single: set<nat>) {
    |loads| == n && forall i :: i in single ==> i < n && loads[i] == TightSize(n, i)
  }

  lemma {:induction false} Numbers(m: nat) returns (r: set<nat>)
    ensures |r| == m && forall i: nat :: i in r <==> i < m
  {
    r := {};
    if m > 0 {
      r := Numbers(m - 1);
      r := r + {m - 1};
    }
  }

  /** More than m numbers are not all below m. */
  lemma OneIsHigh(single: set<nat>, m: nat) returns (i: nat)
    requires |single| > m
    ensures i in single && i >= m
  {
    var below := Numbers(m);
    if single <= below {
      Fewer(single, below);
      assert false;
    }
    i :| i in single && i !in below;
  }

  lemma RoomForNext(n: nat, k: nat, i: nat)
    requires n <= k < 2 * n && 2 * n - k - 1 <= i < n
    ensures TightSize(n, i) + TightSize(n, k) <= 3 * n - 1
  {
  }

  /** One more file, on the lightest list: of the lists with one file there are
      enough left for one to hold a small one. */
  lemma SecondRoundStep(n: nat, k: nat, loads: seq<nat>, before: set<nat>) returns (single: set<nat>)
    requires n <= k < 2 * n && |before| >= 2 * n - k && Single(n, loads, before)
    requires AllWithin(loads, 3 * n - 1)
    ensures |single| >= 2 * n - (k + 1) && Single(n, Put(loads, TightSize(n, k)), single)
    ensures AllWithin(Put(loads, TightSize(n, k)), 3 * n - 1)
  {
    var i := OneIsHigh(before, 2 * n - k - 1);
    RoomForNext(n, k, i);
    single := before - {Lightest(loads)};
    assert loads[Lightest(loads)] <= loads[i];
    Fewer(before, single + {Lightest(loads)});
  }

  /** In the second round no list goes over 3n - 1. */
  lemma {:induction false} SecondRound(n: nat, k: nat) returns (single: set<nat>)
    requires 0 < n <= k <= 2 * n
    ensures |single| >= 2 * n - k && Single(n, Dealt(n, k), single)
    ensures AllWithin(Dealt(n, k), 3 * n - 1)
  {
    if k == n {
      FirstRound(n, n);
      single := Numbers(n);
    } else {
      single := SecondRound(n, k - 1);
      single := SecondRoundStep(n, k - 1, Dealt(n, k - 1), single);
    }
  }

  // ---- what they add up to ----

  function Together(n: nat, k: nat): nat
    requires k <= 2 * n
  {
    if k == 0 then 0 else Together(n, k - 1) + TightSize(n, k - 1)
  }

  lemma PutAdds(loads: seq<nat>, size: nat)
    requires loads != []
    ensures Sum(Put(loads, size)) == Sum(loads) + size
  {
    SumUpdate(loads, Lightest(loads), loads[Lightest(loads)] + size);
  }

  lemma {:induction false} LoadsAddUp(n: nat, k: nat)
    requires 0 < n && k <= 2 * n
    ensures Sum(Dealt(n, k)) == Together(n, k)
  {
    if k == 0 {
      SumZeros(n);
    } else {
      LoadsAddUp(n, k - 1);
      PutAdds(Dealt(n, k - 1), TightSize(n, k - 1));
    }
  }

  lemma {:induction false} TwoOfEach(n: nat, m: nat)
    requires m <= n
    ensures Together(n, 2 * m) == m * (4 * n - 1 - m)
  {
    if m > 0 {
      TwoOfEach(n, m - 1);
      assert Together(n, 2 * m) == Together(n, 2 * m - 1) + TightSize(n, 2 * m - 1);
      assert Together(n, 2 * m - 1) == Together(n, 2 * m - 2) + TightSize(n, 2 * m - 2);
      TwoMore(n, m - 1);
    }
  }

  lemma TwoMore(n: nat, m: nat)
    requires m < n
    ensures (m + 1) * (4 * n - 2 - m) == m * (4 * n - 1 - m) + 2 * (2 * n - 1 - m)
  {
  }

  lemma {:induction false} SumWithin(xs: seq<nat>, h: nat)
    requires AllWithin(xs, h)
    ensures Sum(xs) <= |xs| * h
  {
    if xs != [] {
      SumWithin(xs[..|xs| - 1], h);
      NextMultiple(|xs| - 1, h);
    }
  }

  /** Numbers that reach their bound together reach it each. */
  lemma AllAtBound(xs: seq<nat>, h: nat, j: nat)
    requires j < |xs| && AllWithin(xs, h) && Sum(xs) == |xs| * h
    ensures xs[j] == h
  {
    SumUpdate(xs, j, h);
    SumWithin(xs[j := h], h);
  }

  /** After two rounds every list holds 3n - 1, and the last file goes on top. */
  lemma LastOnTop(n: nat) returns (i: nat)
    requires n > 0
    ensures i < n && Dealt(n, 2 * n + 1)[i] == 4 * n - 1
  {
    var loads := Dealt(n, 2 * n);
    var single := SecondRound(n, 2 * n);
    LoadsAddUp(n, 2 * n);
    TwoOfEach(n, n);
    i := Lightest(loads);
    AllAtBound(loads, 3 * n - 1, i);
  }

  lemma DealtHigh(files: seq<FileInfo>, n: nat)
    requires IsTight(files, n)
    ensures Heaviest(Deal(files, n)) >= 4 * n - 1
  {
    var i := LastOnTop(n);
    DealtIsDeal(files, n, 2 * n + 1);
    HighLoad(Deal(files[..2 * n + 1], n), Dealt(n, 2 * n + 1), i, 4 * n - 1);
    assert files[..2 * n + 1] == files;
  }

  lemma HighLoad(shards: seq<seq<FileInfo>>, loads: seq<nat>, i: nat, h: nat)
    requires i < |shards| && Loads(shards) == loads && loads[i] == h
    ensures Heaviest(shards) >= h
  {
  }

  // ---- how they could be dealt ----

  /** The largest with the smallest, the next with the next, and so on; and the last
      three together. */
  function Target(n: nat, k: nat): (i: nat)
    requires n > 0 && k <= 2 * n
    ensures i < n
  {
    if k < n - 1 then k else if k < 2 * n - 2 then 2 * n - 3 - k else n - 1
  }

  function Assigned(files: seq<FileInfo>, n: nat, k: nat): (r: seq<seq<FileInfo>>)
    requires n > 0 && k <= |files| == 2 * n + 1
    ensures |r| == n
    decreases k
  {
    if k == 0 then seq(n, _ => [])
    else
      var rest := Assigned(files, n, k - 1);
      rest[Target(n, k - 1) := rest[Target(n, k - 1)] + [files[k - 1]]]
  }

  function Best(files: seq<FileInfo>, n: nat): (r: seq<seq<FileInfo>>)
    requires n > 0 && |files| == 2 * n + 1
    ensures |r| == n
  {
    Assigned(files, n, 2 * n + 1)
  }

  lemma {:induction false} AssignedConserves(files: seq<FileInfo>, n: nat, k: nat)
    requires n > 0 && k <= |files| == 2 * n + 1
    ensures multiset(Flatten(Assigned(files, n, k))) == multiset(files[..k])
    decreases k
  {
    if k == 0 {
      FlattenEmpty(n);
      assert files[..0] == [];
    } else {
      AssignedConserves(files, n, k - 1);
      OneMoreHeld(Assigned(files, n, k - 1), Target(n, k - 1), files, k - 1);
    }
  }

  lemma OneMoreHeld(shards: seq<seq<FileInfo>>, i: nat, files: seq<FileInfo>, k: nat)
    requires i < |shards| && k < |files| && multiset(Flatten(shards)) == multiset(files[..k])
    ensures multiset(Flatten(shards[i := shards[i] + [files[k]]])) == multiset(files[..k + 1])
  {
    FlattenUpdate(shards, i, files[k]);
    assert files[..k + 1] == files[..k] + [files[k]];
  }

  lemma BestIsSplit(files: seq<FileInfo>, n: nat)
    requires n > 0 && |files| == 2 * n + 1
    ensures IsSplit(Best(files, n), files, n)
  {
    AssignedConserves(files, n, 2 * n + 1);
    assert files[..2 * n + 1] == files;
  }

  /** What list i holds after k files. */
  function AssignedLoad(n: nat, k: nat, i: nat): nat
    requires n > 0 && i < n && k <= 2 * n + 1
  {
    if i == n - 1 then if k <= 2 * n - 2 then 0 else if k == 2 * n - 1 then n else if k == 2 * n then 2 * n else 3 * n
    else (if i < k then TightSize(n, i) else 0) + if 2 * n - 3 - i < k then TightSize(n, 2 * n - 3 - i) else 0
  }

  lemma AssignedStep(n: nat, k: nat, i: nat)
    requires n > 0 && i < n && k <= 2 * n
    ensures AssignedLoad(n, k + 1, i) == AssignedLoad(n, k, i) + if i == Target(n, k) then TightSize(n, k) else 0
  {
  }

  lemma {:induction false} AssignedLoads(files: seq<FileInfo>, n: nat, k: nat, i: nat)
    requires IsTight(files, n) && k <= |files| && i < n
    ensures Load(Assigned(files, n, k)[i]) == AssignedLoad(n, k, i)
    decreases k
  {
    if k > 0 {
      AssignedLoads(files, n, k - 1, i);
      AssignedStep(n, k - 1, i);
      LoadPush(Assigned(files, n, k - 1)[i], files[k - 1]);
    }
  }

  lemma BestIsEven(files: seq<FileInfo>, n: nat)
    requires IsTight(files, n)
    ensures Heaviest(Best(files, n)) == 3 * n
  {
    forall i | 0 <= i < n ensures Load(Best(files, n)[i]) == 3 * n {
      AssignedLoads(files, n, 2 * n + 1, i);
    }
    EvenIsHeaviest(Best(files, n), 3 * n);
  }

  lemma EvenIsHeaviest(shards: seq<seq<FileInfo>>, h: nat)
    requires shards != [] && forall i :: 0 <= i < |shards| ==> Load(shards[i]) == h
    ensures Heaviest(shards) == h
  {
  }

  // ---- the bound ----

  lemma TightIsSorted(files: seq<FileInfo>, n: nat)
    requires IsTight(files, n)
    ensures BySize(files) == files
  {
    forall i, j | 0 <= i < j < |files| ensures Size(files[i]) >= Size(files[j]) {
    }
    SortedAlready(files);
  }

  lemma AtMostTop(n: nat, h: nat)
    requires n > 0 && 3 * (n * h) <= (4 * n - 1) * (3 * n)
    ensures h <= 4 * n - 1
  {
    if h >= 4 * n {
      MultipleGrows(n, 4 * n, h);
    }
  }

  /** For every number of processes the bound is attained: these files end at
      4n - 1 where 3n would do. */
  lemma BoundAttained(files: seq<FileInfo>, n: nat)
    requires IsTight(files, n)
    ensures IsSplit(Best(files, n), files, n)
    ensures Heaviest(Best(files, n)) == 3 * n && Heaviest(Deal(BySize(files), n)) == 4 * n - 1
    ensures 3 * (n * Heaviest(Deal(BySize(files), n))) == (4 * n - 1) * Heaviest(Best(files, n))
  {
    BestIsSplit(files, n);
    BestIsEven(files, n);
    DealtTop(files, n);
    SameThing(n);
  }

  lemma DealtTop(files: seq<FileInfo>, n: nat)
    requires IsTight(files, n)
    ensures Heaviest(Deal(BySize(files), n)) == 4 * n - 1
  {
    BestIsSplit(files, n);
    BestIsEven(files, n);
    TightIsSorted(files, n);
    DealtHigh(files, n);
    GrahamBound(files, n, Best(files, n));
    AtMostTop(n, Heaviest(Deal(files, n)));
  }

  lemma SameThing(n: nat)
    requires n > 0
    ensures 3 * (n * (4 * n - 1)) == (4 * n - 1) * (3 * n)
  {
  }
}
