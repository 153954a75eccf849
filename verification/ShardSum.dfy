/** One transfer's progress out of several rsync processes': their figures folded
    into sums, and the final run's counted from there (shardSum,
    data-mig/storagex/executor-rsync-shard.go). */
module ShardSum {
  import opened Arithmetic

  /** A report; a negative figure is one it does not give. */
  datatype Update = Update(bytes: int, files: int)

  /** total, in its loop. */
  method Total(v: array<nat>) returns (t: nat)
    ensures t == Sum(v[..])
  {
    t := 0;
    var i := 0;
    while i < v.Length
      invariant 0 <= i <= v.Length && t == Sum(v[..i])
    {
      assert v[..i + 1][..i] == v[..i];
      t := t + v[i];
      i := i + 1;
    }
    assert v[..i] == v[..];
  }

  /** A figure that is given takes the place of the last one. */
  function Latest(last: nat, given: int): nat {
    if given >= 0 then given else last
  }

  class ShardSum {
    const bytes: array<nat>
    const files: array<nat>
    var sent: seq<Update> // what was handed to the reporter

    ghost predicate Valid()
      reads this
    {
      bytes != files && bytes.Length == files.Length
    }

    /** newShardSum. */
    constructor (n: nat)
      ensures Valid() && fresh(bytes) && fresh(files) && sent == []
      ensures bytes[..] == files[..] == seq(n, _ => 0)
    {
      bytes := new nat[n](_ => 0);
      files := new nat[n](_ => 0);
      sent := [];
    }

    /** What shard i's reporter does with an update. */
    method Report(i: nat, u: Update)
      requires Valid() && i < bytes.Length
      modifies this, bytes, files
      ensures Valid()
      ensures bytes[..] == old(bytes[..])[i := Latest(old(bytes[i]), u.bytes)]
      ensures files[..] == old(files[..])[i := Latest(old(files[i]), u.files)]
      ensures sent == old(sent) + [Update(Sum(bytes[..]), Sum(files[..]))]
    {
      if u.bytes >= 0 {
        bytes[i] := u.bytes;
      }
      if u.files >= 0 {
        files[i] := u.files;
      }
      var b := Total(bytes);
      var f := Total(files);
      sent := sent + [Update(b, f)];
    }

    /** offset: the reporter the final run reports through. It counts from what
        the shards have moved by now. */
    method FinalReporter() returns (r: OffsetReporter)
      requires Valid()
      ensures fresh(r) && r.sum == this && r.moved == Sum(bytes[..]) && r.counted == Sum(files[..])
    {
      var moved := Total(bytes);
      var counted := Total(files);
      r := new OffsetReporter(this, moved, counted);
    }
  }

  class OffsetReporter {
    const sum: ShardSum
    const moved: nat
    const counted: nat

    constructor (s: ShardSum, m: nat, c: nat)
      ensures sum == s && moved == m && counted == c
    {
      sum, moved, counted := s, m, c;
    }

    /** Passes on the figures that are given, counted from what was moved. */
    method Report(u: Update)
      modifies sum`sent
      ensures sum.sent == old(sum.sent) + [Offset(moved, counted, u)]
    {
      var bytes, files := u.bytes, u.files;
      if bytes >= 0 {
        bytes := bytes + moved;
      }
      if files >= 0 {
        files := files + counted;
      }
      sum.sent := sum.sent + [Update(bytes, files)];
    }
  }

  function Offset(moved: nat, counted: nat, u: Update): Update {
    Update(if u.bytes >= 0 then u.bytes + moved else u.bytes, if u.files >= 0 then u.files + counted else u.files)
  }

  // ---- runs: the shards' reports, in the order the lock admits them ----

  datatype Event = Event(shard: nat, u: Update)

  datatype State = State(bytes: seq<nat>, files: seq<nat>, sent: seq<Update>)

  ghost predicate Known(run: seq<Event>, n: nat) {
    forall k :: 0 <= k < |run| ==> run[k].shard < n
  }

  /** The sums after a run of n shards. */
  function After(n: nat, run: seq<Event>): (s: State)
    requires Known(run, n)
    ensures |s.bytes| == |s.files| == n && |s.sent| == |run|
  {
    if run == [] then State(seq(n, _ => 0), seq(n, _ => 0), [])
    else
      var s, e := After(n, run[..|run| - 1]), run[|run| - 1];
      var b := s.bytes[e.shard := Latest(s.bytes[e.shard], e.u.bytes)];
      var f := s.files[e.shard := Latest(s.files[e.shard], e.u.files)];
      State(b, f, s.sent + [Update(Sum(b), Sum(f))])
  }

  /** The last figure of bytes a shard gave, read off the run alone. */
  function LastBytes(run: seq<Event>, i: nat): nat {
    if run == [] then 0
    else
      var e := run[|run| - 1];
      if e.shard == i && e.u.bytes >= 0 then e.u.bytes else LastBytes(run[..|run| - 1], i)
  }

  function LastFiles(run: seq<Event>, i: nat): nat {
    if run == [] then 0
    else
      var e := run[|run| - 1];
      if e.shard == i && e.u.files >= 0 then e.u.files else LastFiles(run[..|run| - 1], i)
  }

  function AllBytes(run: seq<Event>, n: nat): (r: seq<nat>)
    ensures |r| == n && forall i :: 0 <= i < n ==> r[i] == LastBytes(run, i)
  {
    seq(n, i requires 0 <= i < n => LastBytes(run, i))
  }

  function AllFiles(run: seq<Event>, n: nat): (r: seq<nat>)
    ensures |r| == n && forall i :: 0 <= i < n ==> r[i] == LastFiles(run, i)
  {
    seq(n, i requires 0 <= i < n => LastFiles(run, i))
  }

  lemma {:induction false} FiguresAreLast(n: nat, run: seq<Event>)
    requires Known(run, n)
    ensures After(n, run).bytes == AllBytes(run, n) && After(n, run).files == AllFiles(run, n)
  {
    if run != [] {
      FiguresAreLast(n, run[..|run| - 1]);
    }
  }

  lemma {:induction false} SentAlong(n: nat, run: seq<Event>, k: nat)
    requires Known(run, n) && 0 < k <= |run|
    ensures var s := After(n, run[..k]); After(n, run).sent[k - 1] == Update(Sum(s.bytes), Sum(s.files))
  {
    if k == |run| {
      assert run[..k] == run;
    } else {
      SentAlong(n, run[..|run| - 1], k);
      assert run[..|run| - 1][..k] == run[..k];
    }
  }

  /** However the shards' reports interleave, each report passed on is the sum of
      the last figure every shard has given by then. */
  lemma ReportsAreSums(n: nat, run: seq<Event>, k: nat)
    requires Known(run, n) && 0 < k <= |run|
    ensures After(n, run).sent[k - 1] == Update(Sum(AllBytes(run[..k], n)), Sum(AllFiles(run[..k], n)))
  {
    SentAlong(n, run, k);
    FiguresAreLast(n, run[..k]);
  }

  /** No shard takes a figure back. */
  ghost predicate ShardsGrow(run: seq<Event>) {
    forall k :: 0 <= k < |run| ==>
      && (run[k].u.bytes >= 0 ==> LastBytes(run[..k], run[k].shard) <= run[k].u.bytes)
      && (run[k].u.files >= 0 ==> LastFiles(run[..k], run[k].shard) <= run[k].u.files)
  }

  lemma LastGrows(run: seq<Event>, j: nat, i: nat)
    requires ShardsGrow(run) && j < |run|
    ensures LastBytes(run[..j], i) <= LastBytes(run[..j + 1], i) && LastFiles(run[..j], i) <= LastFiles(run[..j + 1], i)
  {
    assert run[..j + 1][..j] == run[..j];
  }

  lemma BytesGrow(n: nat, run: seq<Event>, j: nat)
    requires ShardsGrow(run) && j < |run|
    ensures Sum(AllBytes(run[..j], n)) <= Sum(AllBytes(run[..j + 1], n))
  {
    var a, b := AllBytes(run[..j], n), AllBytes(run[..j + 1], n);
    forall i | 0 <= i < n ensures a[i] <= b[i] {
      LastGrows(run, j, i);
    }
    SumGrows(a, b);
  }

  lemma FilesGrow(n: nat, run: seq<Event>, j: nat)
    requires ShardsGrow(run) && j < |run|
    ensures Sum(AllFiles(run[..j], n)) <= Sum(AllFiles(run[..j + 1], n))
  {
    var a, b := AllFiles(run[..j], n), AllFiles(run[..j + 1], n);
    forall i | 0 <= i < n ensures a[i] <= b[i] {
      LastGrows(run, j, i);
    }
    SumGrows(a, b);
  }

  lemma NextReportGrows(n: nat, run: seq<Event>, k: nat)
    requires Known(run, n) && ShardsGrow(run) && 0 < k < |run|
    ensures var sent := After(n, run).sent; sent[k - 1].bytes <= sent[k].bytes && sent[k - 1].files <= sent[k].files
  {
    ReportsAreSums(n, run, k);
    ReportsAreSums(n, run, k + 1);
    BytesGrow(n, run, k);
    FilesGrow(n, run, k);
  }

  /** So if no shard takes a figure back, no report does. */
  lemma {:induction false} ReportsGrow(n: nat, run: seq<Event>, j: nat, k: nat)
    requires Known(run, n) && ShardsGrow(run) && 0 < j <= k <= |run|
    ensures var sent := After(n, run).sent; sent[j - 1].bytes <= sent[k - 1].bytes && sent[j - 1].files <= sent[k - 1].files
  {
    if j < k {
      ReportsGrow(n, run, j, k - 1);
      NextReportGrows(n, run, k - 1);
    }
  }

  /** The final run goes on from there: a figure it gives is added to what the shards
      had reported last, one it does not give stays one that is not given; so its
      reports are never below the shards' and grow as its own figures do. */
  lemma FinalGoesOn(n: nat, run: seq<Event>, u: Update, later: Update)
    requires Known(run, n) && run != []
    ensures var s := After(n, run);
            var last, a, b := s.sent[|run| - 1], Offset(Sum(s.bytes), Sum(s.files), u), Offset(Sum(s.bytes), Sum(s.files), later);
            && a.bytes == (if u.bytes < 0 then u.bytes else last.bytes + u.bytes)
            && a.files == (if u.files < 0 then u.files else last.files + u.files)
            && (0 <= u.bytes <= later.bytes ==> last.bytes <= a.bytes <= b.bytes)
            && (0 <= u.files <= later.files ==> last.files <= a.files <= b.files)
  {
    SentAlong(n, run, |run|);
    assert run[..|run|] == run;
  }
}
