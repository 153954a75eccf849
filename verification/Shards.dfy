/** Sharded rsync: how many processes a transfer is worth, and how its files are
    dealt to them (data-mig/storagex/executor-rsync-shard.go). */
module Shards {
  import Sort = StableSort
  import opened Arithmetic

  datatype FileInfo = FileInfo(path: string, size: nat)

  /** The total of a measure over a list of files. */
  function Measure(f: FileInfo -> nat, xs: seq<FileInfo>): nat {
    if xs == [] then 0 else f(xs[0]) + Measure(f, xs[1..])
  }

  function Size(f: FileInfo): nat {
    f.size
  }

  function Load(xs: seq<FileInfo>): nat {
    Measure(Size, xs)
  }

  function Flatten(shards: seq<seq<FileInfo>>): seq<FileInfo> {
    if shards == [] then [] else shards[0] + Flatten(shards[1..])
  }

  /** shards deals exactly the files of files, each once, into n lists. */
  ghost predicate IsSplit(shards: seq<seq<FileInfo>>, files: seq<FileInfo>, n: nat) {
    |shards| == n && multiset(Flatten(shards)) == multiset(files)
  }

  /** No list of shards is heavier than bytes. */
  ghost predicate AtMost(shards: seq<seq<FileInfo>>, bytes: int) {
    forall i :: 0 <= i < |shards| ==> Load(shards[i]) <= bytes
  }

  /** The bytes of the heaviest list: when the last of the processes is done. */
  function Heaviest(shards: seq<seq<FileInfo>>): (h: nat)
    ensures AtMost(shards, h)
    ensures shards != [] ==> exists i :: 0 <= i < |shards| && Load(shards[i]) == h
  {
    if shards == [] then 0
    else
      var h := Heaviest(shards[1..]);
      assert shards == [shards[0]] + shards[1..];
      assert forall i :: 1 <= i < |shards| ==> shards[i] == shards[1..][i - 1];
      if Load(shards[0]) >= h then Load(shards[0]) else
        assert |shards| > 1;
        assert exists i :: 0 <= i < |shards[1..]| && Load(shards[1..][i]) == h;
        var i :| 0 <= i < |shards[1..]| && Load(shards[1..][i]) == h;
        assert Load(shards[i + 1]) == h;
        h
  }

  // ---- dealing ----

  /** slices.Index(totals, slices.Min(totals)). */
  function Lightest(totals: seq<nat>): (i: nat)
    requires totals != []
    ensures i < |totals|
    ensures forall j :: 0 <= j < |totals| ==> totals[i] <= totals[j]
    ensures forall j :: 0 <= j < i ==> totals[i] < totals[j]
  {
    if |totals| == 1 then 0
    else
      var k := Lightest(totals[1..]);
      assert forall j :: 1 <= j < |totals| ==> totals[j] == totals[1..][j - 1];
      if totals[0] <= totals[1..][k] then 0 else k + 1
  }

  function Loads(shards: seq<seq<FileInfo>>): (r: seq<nat>)
    ensures |r| == |shards|
    ensures forall i :: 0 <= i < |shards| ==> r[i] == Load(shards[i])
  {
    seq(|shards|, i requires 0 <= i < |shards| => Load(shards[i]))
  }

  /** Deals files in the order given, each to the list lightest so far. */
  function Deal(files: seq<FileInfo>, n: nat): (shards: seq<seq<FileInfo>>)
    requires n > 0
    ensures |shards| == n
  {
    if files == [] then seq(n, _ => [])
    else
      var rest := Deal(files[..|files| - 1], n);
      var i := Lightest(Loads(rest));
      rest[i := rest[i] + [files[|files| - 1]]]
  }

  lemma DealStep(files: seq<FileInfo>, n: nat, k: nat)
    requires n > 0 && k < |files|
    ensures var rest := Deal(files[..k], n);
            var i := Lightest(Loads(rest));
            Deal(files[..k + 1], n) == rest[i := rest[i] + [files[k]]]
  {
    assert files[..k + 1][..k] == files[..k];
  }

  /** The lists and their loads after k files. */
  ghost predicate DealtUpTo(files: seq<FileInfo>, n: nat, k: nat, lists: seq<seq<FileInfo>>, totals: seq<nat>)
    requires n > 0 && k <= |files|
  {
    lists == Deal(files[..k], n) && totals == Loads(lists) && |totals| == n
  }

  lemma DealRound(files: seq<FileInfo>, n: nat, k: nat, lists: seq<seq<FileInfo>>, totals: seq<nat>)
    requires n > 0 && k < |files| && DealtUpTo(files, n, k, lists, totals)
    ensures var i := Lightest(totals);
            DealtUpTo(files, n, k + 1, lists[i := lists[i] + [files[k]]], totals[i := totals[i] + files[k].size])
  {
    DealStep(files, n, k);
    LoadsUpdate(lists, Lightest(totals), files[k]);
  }

  function BySize(files: seq<FileInfo>): seq<FileInfo> {
    Sort.LargestFirst(files, Size)
  }

  /** splitBySize. */
  method SplitBySize(files: seq<FileInfo>, n: nat) returns (shards: seq<seq<FileInfo>>)
    requires n > 0
    ensures shards == Deal(BySize(files), n)
    ensures IsSplit(shards, files, n)
    ensures WithinGraham(shards, files, n)
  {
    shards := DealOut(BySize(files), n);
    DealIsSplit(files, n);
    NoSplitIsMuchBetter(files, n);
  }

  /** The loop of splitBySize. */
  method DealOut(sorted: seq<FileInfo>, n: nat) returns (shards: seq<seq<FileInfo>>)
    requires n > 0
    ensures shards == Deal(sorted, n)
  {
    var lists := new seq<FileInfo>[n](_ => []);
    var totals := new nat[n](_ => 0);
    StartEmpty(sorted, n, lists[..], totals[..]);
    var k := 0;
    while k < |sorted|
      invariant 0 <= k <= |sorted|
      invariant DealtUpTo(sorted, n, k, lists[..], totals[..])
    {
      DealRound(sorted, n, k, lists[..], totals[..]);
      DealOne(lists, totals, sorted[k]);
      k := k + 1;
    }
    shards := lists[..];
    AllDealt(sorted, n, shards, totals[..]);
  }

  lemma AllDealt(files: seq<FileInfo>, n: nat, lists: seq<seq<FileInfo>>, totals: seq<nat>)
    requires n > 0 && DealtUpTo(files, n, |files|, lists, totals)
    ensures lists == Deal(files, n)
  {
    assert files[..|files|] == files;
  }

  /** One round of the loop. */
  method DealOne(lists: array<seq<FileInfo>>, totals: array<nat>, f: FileInfo)
    requires 0 < lists.Length == totals.Length
    modifies lists, totals
    ensures var i := Lightest(old(totals[..]));
            && lists[..] == old(lists[..])[i := old(lists[..])[i] + [f]]
            && totals[..] == old(totals[..])[i := old(totals[..])[i] + f.size]
  {
    var i := Lightest(totals[..]);
    lists[i] := lists[i] + [f];
    totals[i] := totals[i] + f.size;
  }

  lemma StartEmpty(files: seq<FileInfo>, n: nat, lists: seq<seq<FileInfo>>, totals: seq<nat>)
    requires n > 0 && |lists| == |totals| == n && forall i :: 0 <= i < n ==> lists[i] == [] && totals[i] == 0
    ensures DealtUpTo(files, n, 0, lists, totals)
  {
    assert lists == seq(n, _ => []);
  }

  /** Against any other split, the heaviest list is at most 4/3 - 1/(3n) times as
      heavy. */
  ghost predicate WithinGraham(shards: seq<seq<FileInfo>>, files: seq<FileInfo>, n: nat) {
    forall other :: IsSplit(other, files, n) ==> 3 * (n * Heaviest(shards)) <= (4 * n - 1) * Heaviest(other)
  }

  lemma NoSplitIsMuchBetter(files: seq<FileInfo>, n: nat)
    requires n > 0
    ensures WithinGraham(Deal(BySize(files), n), files, n)
  {
    forall other | IsSplit(other, files, n)
      ensures 3 * (n * Heaviest(Deal(BySize(files), n))) <= (4 * n - 1) * Heaviest(other)
    {
      GrahamBound(files, n, other);
    }
  }

  // ---- sums over lists ----

  lemma {:induction false} SumAppend(f: FileInfo -> nat, xs: seq<FileInfo>, ys: seq<FileInfo>)
    ensures Measure(f, xs + ys) == Measure(f, xs) + Measure(f, ys)
  {
    if xs == [] {
      assert xs + ys == ys;
    } else {
      SumAppend(f, xs[1..], ys);
      assert (xs + ys)[1..] == xs[1..] + ys;
    }
  }

  lemma LoadAppend(xs: seq<FileInfo>, ys: seq<FileInfo>)
    ensures Load(xs + ys) == Load(xs) + Load(ys)
  {
    SumAppend(Size, xs, ys);
  }

  lemma LoadPush(xs: seq<FileInfo>, f: FileInfo)
    ensures Load(xs + [f]) == Load(xs) + f.size
  {
    LoadAppend(xs, [f]);
    assert Measure(Size, [f]) == Size([f][0]) + Measure(Size, [f][1..]);
  }

  lemma LoadsUpdate(shards: seq<seq<FileInfo>>, i: nat, f: FileInfo)
    requires i < |shards|
    ensures Loads(shards[i := shards[i] + [f]]) == Loads(shards)[i := Loads(shards)[i] + f.size]
  {
    LoadPush(shards[i], f);
  }

  /** A total depends on which files a list holds, not on their order. */
  lemma {:induction false} SumPermutes(f: FileInfo -> nat, xs: seq<FileInfo>, ys: seq<FileInfo>)
    requires multiset(xs) == multiset(ys)
    ensures Measure(f, xs) == Measure(f, ys)
  {
    if xs == [] {
      NoFiles(ys);
    } else {
      var k := PlaceOf(xs, ys);
      FirstOut(xs);
      TakenOut(ys, k);
      SumPermutes(f, xs[1..], ys[..k] + ys[k + 1..]);
      SumTakenOut(f, ys, k);
    }
  }

  lemma NoFiles(ys: seq<FileInfo>)
    requires multiset(ys) == multiset([])
    ensures ys == []
  {
    assert |multiset(ys)| == |ys|;
  }

  lemma PlaceOf(xs: seq<FileInfo>, ys: seq<FileInfo>) returns (k: nat)
    requires xs != [] && multiset(xs) == multiset(ys)
    ensures k < |ys| && ys[k] == xs[0]
  {
    assert xs[0] in multiset(ys);
    k :| 0 <= k < |ys| && ys[k] == xs[0];
  }

  lemma FirstOut(xs: seq<FileInfo>)
    requires xs != []
    ensures multiset(xs[1..]) == multiset(xs) - multiset{xs[0]}
  {
    assert xs == [xs[0]] + xs[1..];
  }

  lemma TakenOut(ys: seq<FileInfo>, k: nat)
    requires k < |ys|
    ensures multiset(ys[..k] + ys[k + 1..]) == multiset(ys) - multiset{ys[k]}
  {
    assert ys == ys[..k] + ([ys[k]] + ys[k + 1..]);
  }

  lemma SumTakenOut(f: FileInfo -> nat, ys: seq<FileInfo>, k: nat)
    requires k < |ys|
    ensures Measure(f, ys) == f(ys[k]) + Measure(f, ys[..k] + ys[k + 1..])
  {
    SumAround(f, ys[..k], ys[k], ys[k + 1..]);
    Around(ys, k);
  }

  lemma Around(ys: seq<FileInfo>, k: nat)
    requires k < |ys|
    ensures ys == ys[..k] + ([ys[k]] + ys[k + 1..])
  {
  }

  lemma SumAround(f: FileInfo -> nat, a: seq<FileInfo>, y: FileInfo, b: seq<FileInfo>)
    ensures Measure(f, a + ([y] + b)) == f(y) + Measure(f, a + b)
  {
    SumAppend(f, a, [y] + b);
    SumAppend(f, a, b);
    SumFirst(f, y, b);
  }

  lemma SumFirst(f: FileInfo -> nat, x: FileInfo, xs: seq<FileInfo>)
    ensures Measure(f, [x] + xs) == f(x) + Measure(f, xs)
  {
    assert ([x] + xs)[1..] == xs;
  }

  lemma {:induction false} SumAtLeast(f: FileInfo -> nat, shards: seq<seq<FileInfo>>, n: nat, lo: nat)
    requires n == |shards|
    requires forall i :: 0 <= i < n ==> lo <= Measure(f, shards[i])
    ensures n * lo <= Measure(f, Flatten(shards))
  {
    if n > 0 {
      var m, rest := n - 1, shards[1..];
      forall i | 0 <= i < m ensures lo <= Measure(f, rest[i]) {
        assert rest[i] == shards[i + 1];
      }
      SumAtLeast(f, rest, m, lo);
      SumAppend(f, shards[0], Flatten(rest));
      NextMultiple(m, lo);
    }
  }

  lemma {:induction false} SumAtMost(f: FileInfo -> nat, shards: seq<seq<FileInfo>>, n: nat, hi: nat)
    requires n == |shards|
    requires forall i :: 0 <= i < n ==> Measure(f, shards[i]) <= hi
    ensures Measure(f, Flatten(shards)) <= n * hi
  {
    if n > 0 {
      var m, rest := n - 1, shards[1..];
      forall i | 0 <= i < m ensures Measure(f, rest[i]) <= hi {
        assert rest[i] == shards[i + 1];
      }
      SumAtMost(f, rest, m, hi);
      SumAppend(f, shards[0], Flatten(rest));
      NextMultiple(m, hi);
    }
  }

  lemma {:induction false} FlattenUpdate(shards: seq<seq<FileInfo>>, i: nat, f: FileInfo)
    requires i < |shards|
    ensures multiset(Flatten(shards[i := shards[i] + [f]])) == multiset(Flatten(shards)) + multiset{f}
  {
    var after := shards[i := shards[i] + [f]];
    if i == 0 {
      assert after[1..] == shards[1..];
    } else {
      FlattenUpdate(shards[1..], i - 1, f);
      assert after[1..] == shards[1..][i - 1 := shards[1..][i - 1] + [f]];
    }
  }

  lemma {:induction false} FlattenEmpty(n: nat)
    ensures Flatten(seq(n, _ => [])) == []
  {
    var e: seq<seq<FileInfo>> := seq(n, _ => []);
    if n > 0 {
      FlattenEmpty(n - 1);
      assert e[1..] == seq(n - 1, _ => []);
    }
  }

  lemma {:induction false} DealConserves(files: seq<FileInfo>, n: nat)
    requires n > 0
    ensures multiset(Flatten(Deal(files, n))) == multiset(files)
  {
    if files == [] {
      FlattenEmpty(n);
    } else {
      var last := files[|files| - 1];
      var rest := files[..|files| - 1];
      DealConserves(rest, n);
      FlattenUpdate(Deal(rest, n), Lightest(Loads(Deal(rest, n))), last);
      assert files == rest + [last];
    }
  }

  /** Every file is dealt exactly once. */
  lemma DealIsSplit(files: seq<FileInfo>, n: nat)
    requires n > 0
    ensures IsSplit(Deal(BySize(files), n), files, n)
  {
    DealConserves(BySize(files), n);
    Sort.LargestFirstSorts(files, Size, 0);
  }

  // ---- Graham's bound ----

  /** How many of a list's two places a file takes, in a split no list of which
      exceeds top: none below p, one from p on, both when a file of p no longer
      fits beside it. */
  function Places(p: nat, top: nat): FileInfo -> nat {
    (f: FileInfo) => if f.size < p then 0 else if f.size <= top - p then 1 else 2
  }

  /** Where a file of p is over a third of top, a list within top has room for
      two places at most. */
  lemma {:induction false} PlacesWithin(p: nat, top: nat, xs: seq<FileInfo>)
    requires p <= top < 3 * p
    ensures var w := Measure(Places(p, top), xs);
            && (w >= 1 ==> Load(xs) >= p)
            && (w >= 2 ==> Load(xs) >= 2 * p || Load(xs) > top - p)
            && (w >= 3 ==> Load(xs) > top)
  {
    if xs != [] {
      PlacesWithin(p, top, xs[1..]);
    }
  }

  /** A list of files of at least p with no room left for one more takes up two
      places. */
  lemma PlacesFull(p: nat, top: nat, xs: seq<FileInfo>)
    requires p <= top
    requires forall f: FileInfo :: f in xs ==> f.size >= p
    requires Load(xs) + p > top
    ensures Measure(Places(p, top), xs) >= 2
  {
    var w := Places(p, top);
    assert xs != [];
    assert xs[0] in xs && w(xs[0]) >= 1;
    if |xs| == 1 {
      assert xs[1..] == [];
      assert Measure(Size, xs) == Size(xs[0]) + Measure(Size, xs[1..]);
    } else {
      assert xs[1] in xs && w(xs[1]) >= 1;
      MeasureTwo(w, xs);
    }
  }

  lemma MeasureTwo(f: FileInfo -> nat, xs: seq<FileInfo>)
    requires |xs| >= 2
    ensures Measure(f, xs) >= f(xs[0]) + f(xs[1])
  {
    assert xs[1..][0] == xs[1];
    assert Measure(f, xs[1..]) == f(xs[1..][0]) + Measure(f, xs[1..][1..]);
  }

  lemma {:induction false} InFlatten(shards: seq<seq<FileInfo>>, i: nat, f: FileInfo)
    requires i < |shards| && f in shards[i]
    ensures f in Flatten(shards)
  {
    if i > 0 {
      InFlatten(shards[1..], i - 1, f);
    }
  }

  lemma {:induction false} OwnerOf(shards: seq<seq<FileInfo>>, f: FileInfo) returns (i: nat)
    requires f in Flatten(shards)
    ensures i < |shards| && f in shards[i]
  {
    if f in shards[0] {
      i := 0;
    } else {
      i := OwnerOf(shards[1..], f);
      i := i + 1;
    }
  }

  lemma {:induction false} LoadCovers(xs: seq<FileInfo>, f: FileInfo)
    requires f in xs
    ensures f.size <= Load(xs)
  {
    if f != xs[0] {
      LoadCovers(xs[1..], f);
    }
  }

  /** Some list of any split holds a given file, so the heaviest is no lighter. */
  lemma BiggestWithin(files: seq<FileInfo>, n: nat, other: seq<seq<FileInfo>>, top: nat, f: FileInfo)
    requires IsSplit(other, files, n) && AtMost(other, top) && f in files
    ensures f.size <= top
  {
    assert f in multiset(files);
    var i := OwnerOf(other, f);
    LoadCovers(other[i], f);
  }

  /** A split no list of which exceeds top offers two places a list. */
  lemma PlacesOffered(files: seq<FileInfo>, n: nat, other: seq<seq<FileInfo>>, p: nat, top: nat)
    requires IsSplit(other, files, n) && AtMost(other, top)
    requires p <= top < 3 * p
    ensures Measure(Places(p, top), files) <= 2 * n
  {
    var w := Places(p, top);
    forall j | 0 <= j < n ensures Measure(w, other[j]) <= 2 {
      PlacesWithin(p, top, other[j]);
    }
    SumAtMost(w, other, n, 2);
    SumPermutes(w, Flatten(other), files);
  }

  /** When files of at least p leave no room for one more on any list, they take
      up two places a list. */
  lemma PlacesTaken(files: seq<FileInfo>, n: nat, p: nat, top: nat)
    requires n > 0 && p <= top
    requires forall f: FileInfo :: f in files ==> f.size >= p
    requires var shards := Deal(files, n); Load(shards[Lightest(Loads(shards))]) + p > top
    ensures Measure(Places(p, top), files) >= 2 * n
  {
    var w := Places(p, top);
    var shards := Deal(files, n);
    DealConserves(files, n);
    forall j | 0 <= j < n ensures 2 <= Measure(w, shards[j]) {
      forall f: FileInfo | f in shards[j] ensures f.size >= p {
        InFlatten(shards, j, f);
        assert f in multiset(files);
      }
      assert Loads(shards)[Lightest(Loads(shards))] <= Loads(shards)[j];
      PlacesFull(p, top, shards[j]);
    }
    SumAtLeast(w, shards, n, 2);
    SumPermutes(w, Flatten(shards), files);
  }

  /** The combinatorial heart: when every file dealt so far, and the next one, is
      over a third of what some split of all files needs, the lightest list still
      has room for the next file. Otherwise each of the n lists would take up its
      two places, the next file one more, and no split offers more than 2n. */
  lemma BigFileFits(files: seq<FileInfo>, n: nat, other: seq<seq<FileInfo>>, k: nat, top: nat)
    requires n > 0 && k < |files|
    requires Sort.Descending(files, Size)
    requires IsSplit(other, files, n) && AtMost(other, top)
    requires 3 * files[k].size > top
    ensures var shards := Deal(files[..k], n);
            Load(shards[Lightest(Loads(shards))]) + files[k].size <= top
  {
    var p := files[k].size;
    var shards := Deal(files[..k], n);
    BiggestWithin(files, n, other, top, files[k]);
    if Load(shards[Lightest(Loads(shards))]) + p > top {
      LargerBefore(files, k);
      PlacesTaken(files[..k], n, p, top);
      PlacesOffered(files, n, other, p, top);
      SumPast(Places(p, top), files, k);
    }
  }

  lemma LargerBefore(files: seq<FileInfo>, k: nat)
    requires k < |files| && Sort.Descending(files, Size)
    ensures forall f: FileInfo :: f in files[..k] ==> f.size >= files[k].size
  {
    forall f: FileInfo | f in files[..k] ensures f.size >= files[k].size {
      var m :| 0 <= m < k && files[m] == f;
      assert Size(files[m]) >= Size(files[k]);
    }
  }

  lemma SumPast(f: FileInfo -> nat, files: seq<FileInfo>, k: nat)
    requires k < |files|
    ensures Measure(f, files[..k]) + f(files[k]) <= Measure(f, files)
  {
    assert files == files[..k] + ([files[k]] + files[k + 1..]);
    SumAppend(f, files[..k], [files[k]] + files[k + 1..]);
  }

  /** The list the next file goes to holds at most the mean of what was dealt. */
  lemma LightestBelowMean(files: seq<FileInfo>, n: nat)
    requires n > 0
    ensures var shards := Deal(files, n);
            n * Load(shards[Lightest(Loads(shards))]) <= Load(files)
  {
    var shards := Deal(files, n);
    var i := Lightest(Loads(shards));
    forall j | 0 <= j < n ensures Load(shards[i]) <= Measure(Size, shards[j]) {
      assert Loads(shards)[i] <= Loads(shards)[j];
    }
    SumAtLeast(Size, shards, n, Load(shards[i]));
    DealConserves(files, n);
    SumPermutes(Size, Flatten(shards), files);
  }

  /** All the bytes fit into n lists of top. */
  lemma TotalWithin(files: seq<FileInfo>, n: nat, other: seq<seq<FileInfo>>, top: nat)
    requires IsSplit(other, files, n) && AtMost(other, top)
    ensures Load(files) <= n * top
  {
    forall j | 0 <= j < n ensures Measure(Size, other[j]) <= top {
      assert Load(other[j]) <= top;
    }
    SumAtMost(Size, other, n, top);
    SumPermutes(Size, Flatten(other), files);
  }

  /** The bytes of the list the next file goes to, with that file. */
  function After(files: seq<FileInfo>, n: nat, k: nat): nat
    requires n > 0 && k < |files|
  {
    var shards := Deal(files[..k], n);
    Load(shards[Lightest(Loads(shards))]) + files[k].size
  }

  /** List scheduling: the list a file goes to ends at the mean of everything
      plus (1 - 1/n) of that file, at most. */
  lemma StepWithinMean(files: seq<FileInfo>, n: nat, k: nat)
    requires n > 0 && k < |files|
    ensures n * After(files, n, k) <= Load(files) + (n - 1) * files[k].size
  {
    var p := files[k].size;
    LightestBelowMean(files[..k], n);
    assert files == files[..k] + ([files[k]] + files[k + 1..]);
    LoadAppend(files[..k], [files[k]] + files[k + 1..]);
    Distribute(n, After(files, n, k) - p, p);
  }

  lemma Distribute(n: nat, low: nat, p: nat)
    ensures n * (low + p) == n * low + p + (n - 1) * p
  {
  }

  lemma BoundSplits(n: nat, top: nat)
    requires n > 0
    ensures (4 * n - 1) * top == 3 * (n * top) + (n - 1) * top
  {
  }

  lemma ThirdsOf(m: nat, p: nat)
    ensures m * (3 * p) == 3 * (m * p)
  {
  }

  lemma BoundArithmetic(n: nat, x: nat, p: nat, top: nat)
    requires n > 0 && 3 * p <= top && n * x <= n * top + (n - 1) * p
    ensures 3 * (n * x) <= (4 * n - 1) * top
  {
    MultipleGrows(n - 1, 3 * p, top);
    ThirdsOf(n - 1, p);
    BoundSplits(n, top);
  }

  lemma BoundMonotone(n: nat, x: nat, top: nat)
    requires n > 0 && x <= top
    ensures 3 * (n * x) <= (4 * n - 1) * top
  {
    MultipleGrows(n, x, top);
    MultipleGrows(n - 1, 0, top);
    BoundSplits(n, top);
  }

  /** One dealt file keeps its list within Graham's bound. */
  lemma StepWithinBound(files: seq<FileInfo>, n: nat, other: seq<seq<FileInfo>>, k: nat, top: nat)
    requires n > 0 && k < |files|
    requires Sort.Descending(files, Size)
    requires IsSplit(other, files, n) && AtMost(other, top)
    ensures 3 * (n * After(files, n, k)) <= (4 * n - 1) * top
  {
    if 3 * files[k].size > top {
      BigFileFits(files, n, other, k, top);
      BoundMonotone(n, After(files, n, k), top);
    } else {
      StepWithinMean(files, n, k);
      TotalWithin(files, n, other, top);
      BoundArithmetic(n, After(files, n, k), files[k].size, top);
    }
  }

  lemma ListAfterOneMore(files: seq<FileInfo>, n: nat, k: nat, i: nat)
    requires n > 0 && k < |files| && i < n
    ensures var rest := Deal(files[..k], n);
            Load(Deal(files[..k + 1], n)[i]) == if i == Lightest(Loads(rest)) then After(files, n, k) else Load(rest[i])
  {
    DealStep(files, n, k);
    var rest := Deal(files[..k], n);
    LoadPush(rest[Lightest(Loads(rest))], files[k]);
  }

  /** What a list of k dealt files holds is what its last file left there. */
  lemma {:induction false} ListEndsSomewhere(files: seq<FileInfo>, n: nat, k: nat, i: nat) returns (m: int)
    requires n > 0 && k <= |files| && i < n
    ensures m < k
    ensures m < 0 ==> Load(Deal(files[..k], n)[i]) == 0
    ensures m >= 0 ==> Load(Deal(files[..k], n)[i]) == After(files, n, m)
  {
    if k == 0 {
      m := -1;
    } else {
      ListAfterOneMore(files, n, k - 1, i);
      if i == Lightest(Loads(Deal(files[..k - 1], n))) {
        m := k - 1;
      } else {
        m := ListEndsSomewhere(files, n, k - 1, i);
      }
    }
  }

  /** The last file to land on the heaviest list, or none when all are empty. */
  lemma LastOnHeaviest(files: seq<FileInfo>, n: nat) returns (m: int)
    requires n > 0
    ensures m < |files|
    ensures m < 0 ==> Heaviest(Deal(files, n)) == 0
    ensures m >= 0 ==> Heaviest(Deal(files, n)) == After(files, n, m)
  {
    var shards := Deal(files, n);
    var i :| 0 <= i < n && Load(shards[i]) == Heaviest(shards);
    assert files[..|files|] == files;
    m := ListEndsSomewhere(files, n, |files|, i);
  }

  /** Graham's bound for dealing largest first: against ANY other split of the
      same files into n lists, the heaviest list is at most 4/3 - 1/(3n) times as
      heavy. */
  lemma GrahamBound(files: seq<FileInfo>, n: nat, other: seq<seq<FileInfo>>)
    requires n > 0
    requires IsSplit(other, files, n)
    ensures 3 * (n * Heaviest(Deal(BySize(files), n))) <= (4 * n - 1) * Heaviest(other)
  {
    var sorted, top := BySize(files), Heaviest(other);
    Sort.LargestFirstSorts(files, Size, 0);
    var m := LastOnHeaviest(sorted, n);
    if m >= 0 {
      StepWithinBound(sorted, n, other, m, top);
    } else {
      BoundMonotone(n, 0, top);
    }
  }

  lemma MeanArithmetic(n: nat, x: nat, total: nat, p: nat, largest: nat)
    requires n > 0 && p <= largest && n * x <= total + (n - 1) * p
    ensures n * x <= total + (n - 1) * largest
  {
    MultipleGrows(n - 1, p, largest);
  }

  /** The lists' spread over their mean: heaviest <= mean + (1 - 1/n) * largest,
      in whatever order the files are dealt. */
  lemma HeaviestNearMean(files: seq<FileInfo>, n: nat, largest: nat)
    requires n > 0
    requires forall f: FileInfo :: f in files ==> f.size <= largest
    ensures n * Heaviest(Deal(files, n)) <= Load(files) + (n - 1) * largest
  {
    var m := LastOnHeaviest(files, n);
    if m >= 0 {
      StepWithinMean(files, n, m);
      assert files[m] in files;
      MeanArithmetic(n, After(files, n, m), Load(files), files[m].size, largest);
    } else {
      MeanArithmetic(n, 0, Load(files), 0, largest);
    }
  }

  lemma {:induction false} SortedAlready(files: seq<FileInfo>)
    requires Sort.Descending(files, Size)
    ensures BySize(files) == files
  {
    if files != [] {
      SortedAlready(files[1..]);
      assert files == [files[0]] + files[1..];
    }
  }

  /** Two lists never end further apart than the largest single file. */
  lemma {:induction false} Spread(files: seq<FileInfo>, n: nat, largest: nat, i: nat, j: nat)
    requires i < n && j < n
    requires forall f: FileInfo :: f in files ==> f.size <= largest
    ensures Load(Deal(files, n)[i]) <= Load(Deal(files, n)[j]) + largest
  {
    if files != [] {
      var k := |files| - 1;
      var rest := Deal(files[..k], n);
      var low := Lightest(Loads(rest));
      Spread(files[..k], n, largest, i, j);
      LoadPush(rest[low], files[k]);
      assert files[k] in files;
      assert Loads(rest)[low] <= Loads(rest)[j];
    }
  }

  // ---- how many processes ----

  const MIN_FILES_PER_SHARD := 50
  const MIN_BYTES_PER_SHARD := 128 * 1024 * 1024

  /** shardsFor. */
  function ShardsFor(n: nat, files: nat, size: nat): nat {
    Min(n, Min(files, Max(files / MIN_FILES_PER_SHARD, size / MIN_BYTES_PER_SHARD)))
  }

  /** m processes are worth starting: no more than asked for or than there are
      files, and each brings a full share of files or a full share of bytes. */
  predicate Worth(m: nat, n: nat, files: nat, size: nat) {
    m <= n && m <= files && (m * MIN_FILES_PER_SHARD <= files || m * MIN_BYTES_PER_SHARD <= size)
  }

  /** shardsFor is the largest number of processes that is worth it. */
  lemma ShardsForIsLargest(n: nat, files: nat, size: nat, m: nat)
    ensures Worth(m, n, files, size) <==> m <= ShardsFor(n, files, size)
  {
    assert m * 50 <= files <==> m <= files / 50;
    assert m * 134217728 <= size <==> m <= size / 134217728;
  }

  // ---- lists left empty ----

  function Positive(files: seq<FileInfo>): nat {
    Measure(HasBytes, files)
  }

  function HasBytes(f: FileInfo): nat { if f.size > 0 then 1 else 0 }

  /** The first lists have files with bytes, one more may have files of none. */
  ghost predicate FilledUpTo(shards: seq<seq<FileInfo>>, k: nat, q: nat) {
    forall i :: 0 <= i < |shards| ==>
      && (Load(shards[i]) > 0 <==> i < Min(k, q))
      && (shards[i] != [] <==> i < Min(k, q) || (i == q < k))
  }

  /** The lightest list is the first that weighs nothing, if there is one. */
  lemma LightestIsFree(shards: seq<seq<FileInfo>>, k: nat, q: nat)
    requires shards != [] && FilledUpTo(shards, k, q)
    ensures Min(k, q) < |shards| ==> Lightest(Loads(shards)) == Min(k, q)
  {
    var low, free := Lightest(Loads(shards)), Min(k, q);
    if free < |shards| {
      assert Loads(shards)[free] == Load(shards[free]) == 0;
      assert Load(shards[low]) == Loads(shards)[low] == 0;
    }
  }

  lemma FillsNext(shards: seq<seq<FileInfo>>, k: nat, q: nat, f: FileInfo)
    requires shards != [] && FilledUpTo(shards, k, q) && (f.size > 0 <==> k < q)
    ensures var low := Lightest(Loads(shards)); FilledUpTo(shards[low := shards[low] + [f]], k + 1, q)
  {
    var low := Lightest(Loads(shards));
    LightestIsFree(shards, k, q);
    LoadPush(shards[low], f);
  }

  /** Files of no bytes do not make a list heavier, so they pile up on the first
      list that weighs nothing. */
  lemma {:induction false} DealtSoFar(files: seq<FileInfo>, n: nat, k: nat, q: nat)
    requires n > 0 && k <= |files| && q <= |files|
    requires forall i :: 0 <= i < |files| ==> (files[i].size > 0 <==> i < q)
    ensures FilledUpTo(Deal(files[..k], n), k, q)
  {
    if k > 0 {
      DealtSoFar(files, n, k - 1, q);
      DealStep(files, n, k - 1);
      FillsNext(Deal(files[..k - 1], n), k - 1, q, files[k - 1]);
    }
  }

  /** Every process is given a file iff there are n files and at most one list is
      left to files of no bytes. shardsFor counts files, not files with bytes, so
      it can ask for processes that are started on an empty list. */
  lemma EveryListFed(files: seq<FileInfo>, n: nat, q: nat)
    requires n > 0
    requires q == Positive(files)
    ensures (forall i :: 0 <= i < n ==> Deal(BySize(files), n)[i] != []) <==> |files| >= n && q >= n - 1
  {
    var sorted := BySize(files);
    Sort.LargestFirstSorts(files, Size, 0);
    SumPermutes(HasBytes, files, sorted);
    PositivesFirst(sorted);
    assert Positive(sorted) == q;
    DealtSoFar(sorted, n, |sorted|, q);
    assert sorted[..|sorted|] == sorted;
    if |files| < n {
      assert Deal(sorted, n)[n - 1] == [];
    } else if q < n - 1 {
      assert Deal(sorted, n)[n - 1] == [];
    }
  }

  /** A hundred empty files are worth two processes by their number, and the second
      is given none of them. */
  lemma EmptyFilesStarve(files: seq<FileInfo>)
    requires |files| == 100 && forall i :: 0 <= i < |files| ==> files[i].size == 0
    ensures ShardsFor(2, |files|, Load(files)) == 2 && Deal(BySize(files), 2)[1] == []
  {
    var sorted := BySize(files);
    Sort.LargestFirstSorts(files, Size, 0);
    forall i | 0 <= i < |sorted| ensures sorted[i].size == 0 {
      assert sorted[i] in multiset(files);
    }
    DealtSoFar(sorted, 2, |sorted|, 0);
    assert sorted[..|sorted|] == sorted;
  }

  lemma {:induction false} PositivesFirst(files: seq<FileInfo>)
    requires Sort.Descending(files, Size)
    ensures Positive(files) <= |files|
    ensures forall i :: 0 <= i < |files| ==> (files[i].size > 0 <==> i < Positive(files))
  {
    if files != [] {
      PositivesFirst(files[1..]);
      forall i | 1 <= i < |files| ensures files[i].size > 0 <==> i < Positive(files) {
        assert files[i] == files[1..][i - 1];
        assert Size(files[0]) >= Size(files[i]);
      }
      if files[0].size == 0 && |files| > 1 {
        assert Size(files[0]) >= Size(files[1]);
        assert files[1..][0] == files[1];
      }
    }
  }
}
