/** Which of a location's listed objects a transfer takes: streamed, downloaded,
    sized beforehand or inspected (data-mig/storagex/executor-s3.go,
    s3-sizelimit.go, inspect.go). */
module Selection {
  import opened Options
  import opened Paths
  import opened Placement
  import opened Filter
  import opened Rollup

  /** The filter keeps the object, judged relative to the location. */
  predicate Judged(prefix: string, o: Option<FilterOption>, x: ObjectInfo) {
    o.None? || PathKept(EffectiveRules(o.value), Rel(prefix, x.key), x.size, false)
  }

  function Judge(prefix: string, o: Option<FilterOption>, objects: seq<ObjectInfo>): nat -> bool {
    (i: nat) => i < |objects| && Judged(prefix, o, objects[i])
  }

  /** The object belongs to the location, and the filter keeps it. */
  function Take(prefix: string, o: Option<FilterOption>, objects: seq<ObjectInfo>): nat -> bool {
    (i: nat) => i < |objects| && KeyUnderPrefix(prefix, objects[i].key) && Judged(prefix, o, objects[i])
  }

  function UpTo(n: nat): (r: seq<nat>)
    ensures |r| == n && forall i :: 0 <= i < n ==> r[i] == i
  {
    if n == 0 then [] else UpTo(n - 1) + [n - 1]
  }

  /** The objects a stream sends, by their places in the listing. */
  function Chosen(prefix: string, o: Option<FilterOption>, objects: seq<ObjectInfo>): seq<nat> {
    Select(Take(prefix, o, objects), UpTo(|objects|))
  }

  lemma SelectNext(keep: nat -> bool, n: nat)
    ensures Select(keep, UpTo(n + 1)) == Select(keep, UpTo(n)) + if keep(n) then [n] else []
  {
    SelectAppend(keep, UpTo(n), [n]);
    SelectOne(keep, n);
  }

  /** The loop of S3StreamExecutor, and of objectSizes. */
  method SelectForStream(prefix: string, o: Option<FilterOption>, objects: seq<ObjectInfo>) returns (matched: seq<nat>)
    ensures matched == Chosen(prefix, o, objects)
  {
    matched := [];
    var i := 0;
    while i < |objects|
      invariant 0 <= i <= |objects|
      invariant matched == Select(Take(prefix, o, objects), UpTo(i))
    {
      SelectNext(Take(prefix, o, objects), i);
      if KeyUnderPrefix(prefix, objects[i].key) {
        var kept := MatchPath(o, Rel(prefix, objects[i].key), objects[i].size, false);
        if kept {
          matched := matched + [i];
        }
      }
      i := i + 1;
    }
  }

  // ---- a download ----

  function KeysAt(objects: seq<ObjectInfo>, at: seq<nat>): (keys: seq<string>)
    requires forall n :: 0 <= n < |at| ==> at[n] < |objects|
    ensures |keys| == |at| && forall n :: 0 <= n < |at| ==> keys[n] == objects[at[n]].key
  {
    seq(|at|, n requires 0 <= n < |at| => objects[at[n]].key)
  }

  lemma {:induction false} SelectKeeps<T>(keep: T -> bool, xs: seq<T>)
    ensures forall x :: x in Select(keep, xs) <==> x in xs && keep(x)
  {
    if xs != [] {
      SelectKeeps(keep, xs[1..]);
    }
  }

  /** S3Executor.download, up to its workers: filters the listing, places what is
      left, and hands out the jobs that are not skipped. None is its error. */
  method SelectForDownload(prefix: string, o: Option<FilterOption>, objects: seq<ObjectInfo>) returns (taken: Option<seq<nat>>)
    ensures taken.Some? ==> taken.value == Chosen(prefix, o, objects)
    ensures taken.None? <==> !Placeable(prefix, KeysAt(objects, Filtered(prefix, o, objects)))
  {
    var matched: seq<nat> := [];
    var i := 0;
    while i < |objects|
      invariant 0 <= i <= |objects|
      invariant matched == Select(Judge(prefix, o, objects), UpTo(i))
    {
      SelectNext(Judge(prefix, o, objects), i);
      var kept := MatchPath(o, Rel(prefix, objects[i].key), objects[i].size, false);
      if kept {
        matched := matched + [i];
      }
      i := i + 1;
    }
    assert matched == Filtered(prefix, o, objects);
    var keys := KeysAt(objects, matched);
    var verdict := ObjectLocalPaths(prefix, keys);
    if verdict.Refused? {
      return None;
    }
    var jobs := WithJobs(matched, verdict.jobs);
    JobsAreChosen(prefix, o, objects, verdict.jobs);
    return Some(jobs);
  }

  /** What the filter alone leaves of the listing. */
  function Filtered(prefix: string, o: Option<FilterOption>, objects: seq<ObjectInfo>): (at: seq<nat>)
    ensures forall n :: 0 <= n < |at| ==> at[n] < |objects|
  {
    SelectKeeps(Judge(prefix, o, objects), UpTo(|objects|));
    var at := Select(Judge(prefix, o, objects), UpTo(|objects|));
    assert forall n :: 0 <= n < |at| ==> at[n] in at;
    at
  }

  /** The indices whose job is not skipped, in order. */
  function Unskipped(at: seq<nat>, jobs: Jobs): seq<nat>
    requires |at| == |jobs|
  {
    if at == [] then [] else (if jobs[0].Some? then [at[0]] else []) + Unskipped(at[1..], jobs[1..])
  }

  method WithJobs(at: seq<nat>, jobs: Jobs) returns (taken: seq<nat>)
    requires |at| == |jobs|
    ensures taken == Unskipped(at, jobs)
  {
    taken := [];
    var n := 0;
    assert at[0..] == at && jobs[0..] == jobs;
    while n < |at|
      invariant 0 <= n <= |at|
      invariant taken + Unskipped(at[n..], jobs[n..]) == Unskipped(at, jobs)
    {
      UnskippedNext(at, jobs, n, taken);
      if jobs[n].Some? {
        taken := taken + [at[n]];
      }
      n := n + 1;
    }
  }

  lemma UnskippedNext(at: seq<nat>, jobs: Jobs, n: nat, taken: seq<nat>)
    requires n < |at| == |jobs|
    ensures taken + Unskipped(at[n..], jobs[n..]) == (if jobs[n].Some? then taken + [at[n]] else taken) + Unskipped(at[n + 1..], jobs[n + 1..])
  {
    assert at[n..][1..] == at[n + 1..] && jobs[n..][1..] == jobs[n + 1..];
  }

  // ---- the same objects either way ----

  lemma {:induction false} UnskippedIsSelect(under: nat -> bool, at: seq<nat>, jobs: Jobs)
    requires |at| == |jobs| && forall n :: 0 <= n < |at| ==> (jobs[n].Some? <==> under(at[n]))
    ensures Unskipped(at, jobs) == Select(under, at)
  {
    if at != [] {
      UnskippedIsSelect(under, at[1..], jobs[1..]);
    }
  }

  lemma {:induction false} SelectTwice(first: nat -> bool, second: nat -> bool, both: nat -> bool, xs: seq<nat>)
    requires forall x :: x in xs ==> (both(x) <==> first(x) && second(x))
    ensures Select(second, Select(first, xs)) == Select(both, xs)
  {
    if xs != [] {
      SelectTwice(first, second, both, xs[1..]);
      SelectAppend(second, if first(xs[0]) then [xs[0]] else [], Select(first, xs[1..]));
      SelectOne(second, xs[0]);
    }
  }

  function Under(prefix: string, objects: seq<ObjectInfo>): nat -> bool {
    (i: nat) => i < |objects| && KeyUnderPrefix(prefix, objects[i].key)
  }

  lemma JobsAreChosen(prefix: string, o: Option<FilterOption>, objects: seq<ObjectInfo>, jobs: Jobs)
    requires jobs == JobsOf(prefix, KeysAt(objects, Filtered(prefix, o, objects)))
    requires NoneEscapes(prefix, KeysAt(objects, Filtered(prefix, o, objects)), |Filtered(prefix, o, objects)|)
    ensures Unskipped(Filtered(prefix, o, objects), jobs) == Chosen(prefix, o, objects)
  {
    var at := Filtered(prefix, o, objects);
    var keys := KeysAt(objects, at);
    forall n | 0 <= n < |at| ensures jobs[n].Some? <==> Under(prefix, objects)(at[n]) {
      JobAt(prefix, keys, n);
      assert !ObjectLocalPath(prefix, keys[n]).Escapes?;
    }
    UnskippedIsSelect(Under(prefix, objects), at, jobs);
    SelectTwice(Judge(prefix, o, objects), Under(prefix, objects), Take(prefix, o, objects), UpTo(|objects|));
  }

  // ---- what the filter is asked about ----

  /** An object below the location is judged by the path it is placed at. */
  lemma JudgedWherePlaced(prefix: seq<string>, names: seq<string>)
    requires AreNames(prefix) && AreNames(names) && names != []
    ensures var key := Join(prefix + names, '/');
            && Rel(Join(prefix, '/'), key) == Join(names, '/')
            && ObjectLocalPath(Join(prefix, '/'), key) == At(ObjectPath(names, false))
  {
    var all := prefix + names;
    RelBelow(prefix, names);
    PlacedBySegments(Join(prefix, '/'), Join(all, '/'));
    NamesRest(prefix, names);
    CleanNames([], names, false);
    assert [] + names == names;
  }

  lemma NamesRest(prefix: seq<string>, names: seq<string>)
    requires AreNames(prefix) && AreNames(names) && names != []
    ensures Belongs(Join(prefix, '/'), Join(prefix + names, '/')) && Rest(Join(prefix, '/'), Join(prefix + names, '/')) == names
    ensures Join(prefix + names, '/') != ""
  {
    var all := prefix + names;
    NamesEnds(all);
    SplitJoin(all, '/');
    if prefix == [] {
      assert all == names;
    } else {
      NamesEnds(prefix);
      SplitJoin(prefix, '/');
      assert all[|prefix|..] == names;
    }
  }

  /** So an object below the location is sent iff the filter keeps the path it is
      placed at, at its size. */
  lemma ChosenByPlace(prefix: seq<string>, names: seq<string>, o: FilterOption, objects: seq<ObjectInfo>, i: nat)
    requires AreNames(prefix) && AreNames(names) && names != []
    requires i < |objects| && objects[i].key == Join(prefix + names, '/')
    ensures i in Chosen(Join(prefix, '/'), Some(o), objects) <==> PathKept(EffectiveRules(o), Join(names, '/'), objects[i].size, false)
  {
    var at := Join(prefix, '/');
    JudgedWherePlaced(prefix, names);
    UnderIsBelongs(at, objects[i].key);
    NamesRest(prefix, names);
    SelectKeeps(Take(at, Some(o), objects), UpTo(|objects|));
    assert UpTo(|objects|)[i] == i;
  }

  // ---- an inspection ----

  lemma {:induction false} SelectCounts<T>(keep: T -> bool, xs: seq<T>)
    ensures |Select(keep, xs)| <= |xs|
    ensures |Select(keep, xs)| == |xs| <==> forall x :: x in xs ==> keep(x)
  {
    if xs != [] {
      SelectCounts(keep, xs[1..]);
    }
  }

  lemma AllTaken(prefix: string, objects: seq<ObjectInfo>)
    ensures |Chosen(prefix, None, objects)| <= |objects|
    ensures |Chosen(prefix, None, objects)| == |objects| <==> forall i :: 0 <= i < |objects| ==> KeyUnderPrefix(prefix, objects[i].key)
  {
    SelectCounts(Take(prefix, None, objects), UpTo(|objects|));
    if forall x :: x in UpTo(|objects|) ==> Take(prefix, None, objects)(x) {
      forall i | 0 <= i < |objects| ensures KeyUnderPrefix(prefix, objects[i].key) {
        assert UpTo(|objects|)[i] == i;
        assert Take(prefix, None, objects)(i);
      }
    }
  }

  /** An inspection counts the listing: without a filter as many objects as a
      transfer of the same location takes iff every key listed belongs to it, and
      more otherwise. */
  lemma InspectionCountsListing(bucket: string, prefix: string, objects: seq<ObjectInfo>)
    ensures |Chosen(prefix, None, objects)| <= Rollup.Total(Locate(bucket, objects), |objects|).count
    ensures |Chosen(prefix, None, objects)| == Rollup.Total(Locate(bucket, objects), |objects|).count <==>
            forall i :: 0 <= i < |objects| ==> Belongs(prefix, objects[i].key)
  {
    TotalIsSum(bucket, objects);
    AllTaken(prefix, objects);
    forall i | 0 <= i < |objects| ensures KeyUnderPrefix(prefix, objects[i].key) <==> Belongs(prefix, objects[i].key) {
      UnderIsBelongs(prefix, objects[i].key);
    }
  }
}
