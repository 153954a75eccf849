/** What every run of forEachInLanes comes to
    (data-mig/storagex/executor-s3.go). */
module LaneRuns {
  import opened Options
  import opened Arithmetic
  import opened TransferOrder
  import opened Lanes
  import opened LaneSteps

  // ---- whole runs ----

  lemma {:induction false} RunKeepsInv(c: Config, s: State, run: seq<Action>)
    requires Inv(c, s) && Legal(c, s, run)
    ensures Inv(c, After(c, s, run))
    decreases |run|
  {
    if run != [] {
      StepKeepsInv(c, s, run[0]);
      RunKeepsInv(c, Apply(c, s, run[0]), run[1..]);
    }
  }

  function LanesOf(order: seq<nat>, inParts: set<nat>, limit: nat): Config {
    Config(Picked(order, inParts, true), Picked(order, inParts, false), limit)
  }

  lemma ReachableInv(order: seq<nat>, inParts: set<nat>, limit: nat, run: seq<Action>)
    requires Distinct(order) && Legal(LanesOf(order, inParts, limit), Start(), run)
    ensures var c := LanesOf(order, inParts, limit); Inv(c, After(c, Start(), run))
  {
    LanesCover(order, inParts);
    RunKeepsInv(LanesOf(order, inParts, limit), Start(), run);
  }

  /** The calls in flight. */
  function Running(s: State): set<nat> {
    set i | i in s.calls && i !in s.results
  }

  /** At any time of any run: no index was called twice, and in flight are at most
      one object in parts and limit others. */
  lemma CallsAreBounded(order: seq<nat>, inParts: set<nat>, limit: nat, run: seq<Action>)
    requires Distinct(order) && Legal(LanesOf(order, inParts, limit), Start(), run)
    ensures var s := After(LanesOf(order, inParts, limit), Start(), run);
            && Distinct(s.calls)
            && (forall i :: i in s.calls ==> i in order)
            && |Running(s) * inParts| <= 1
            && |Running(s) - inParts| <= limit
  {
    var c := LanesOf(order, inParts, limit);
    var s := After(c, Start(), run);
    LanesCover(order, inParts);
    ReachableInv(order, inParts, limit, run);
    RunningParted(c, s, inParts);
    RunningOthers(c, s, inParts);
    forall i | i in s.calls ensures i in order {
      assert i in c.parted || i in c.whole;
    }
  }

  lemma RunningOthers(c: Config, s: State, inParts: set<nat>)
    requires Inv(c, s)
    requires forall i :: i in s.calls && i !in inParts ==> i in c.whole
    ensures |Running(s) - inParts| <= c.limit
  {
    RunningWhole(c, s.tasks, |s.tasks|);
    assert s.tasks[..|s.tasks|] == s.tasks;
    forall i | i in Running(s) - inParts ensures i in Called(c, s.tasks, |s.tasks|) {
      var k :| 0 <= k < |c.whole| && c.whole[k] == i;
      assert s.tasks[k].Calling?;
    }
    Fewer(Running(s) - inParts, Called(c, s.tasks, |s.tasks|));
  }

  lemma RunningParted(c: Config, s: State, inParts: set<nat>)
    requires Inv(c, s)
    requires forall i :: i in inParts && i in s.calls ==> i in c.parted
    ensures |Running(s) * inParts| <= 1
  {
    if s.parted.InCall? {
      Fewer(Running(s) * inParts, {c.parted[s.begun - 1]});
    } else {
      assert Running(s) * inParts == {};
    }
  }

  /** What the first n tasks are calling. */
  function Called(c: Config, tasks: seq<Task>, n: nat): set<nat>
    requires n <= |tasks| <= |c.whole|
  {
    set k | 0 <= k < n && tasks[k].Calling? :: c.whole[k]
  }

  lemma {:induction false} RunningWhole(c: Config, tasks: seq<Task>, n: nat)
    requires n <= |tasks| <= |c.whole|
    ensures |Called(c, tasks, n)| <= Active(tasks[..n])
  {
    if n > 0 {
      RunningWhole(c, tasks, n - 1);
      assert tasks[..n][..n - 1] == tasks[..n - 1];
      Fewer(Called(c, tasks, n), Called(c, tasks, n - 1) + if tasks[n - 1].Calling? then {c.whole[n - 1]} else {});
    }
  }

  /** A nil return means that every index was called, once, and succeeded, and
      that nothing was cancelled. Without a cancellation from outside, an error is
      one that a call really returned of its own. Either way, no call is still in
      flight. */
  lemma ReturnTellsTheTruth(order: seq<nat>, inParts: set<nat>, limit: nat, run: seq<Action>)
    requires Distinct(order) && Legal(LanesOf(order, inParts, limit), Start(), run)
    requires After(LanesOf(order, inParts, limit), Start(), run).returned.Some?
    ensures var s := After(LanesOf(order, inParts, limit), Start(), run);
            && Running(s) == {}
            && (s.returned.value.None? ==>
                  !s.outside && forall i :: i in order ==> i in s.calls && i in s.results && s.results[i].None?)
            && (s.returned.value.Some? && !s.outside ==>
                  s.returned.value.value.Failed? && s.returned.value.value.index in s.results
                  && s.results[s.returned.value.value.index] == s.returned.value)
  {
    var c := LanesOf(order, inParts, limit);
    var s := After(c, Start(), run);
    LanesCover(order, inParts);
    ReachableInv(order, inParts, limit, run);
    NothingRuns(c, s);
    if s.returned.value.None? {
      forall i | i in order ensures i in s.calls && i in s.results && s.results[i].None? {
        if i in inParts {
          var x :| 0 <= x < |c.parted| && c.parted[x] == i;
          assert s.begun == |c.parted|;
        } else {
          var k :| 0 <= k < |c.whole| && c.whole[k] == i;
          AllTasksEnded(s.tasks, k);
        }
      }
    }
  }

  lemma AllTasksEnded(tasks: seq<Task>, k: nat)
    requires Active(tasks) == 0 && k < |tasks|
    ensures tasks[k].Ended?
  {
    if !Over(tasks[k]) {
      ActiveSome(tasks, k);
    }
  }

  lemma NothingRuns(c: Config, s: State)
    requires Inv(c, s) && s.returned.Some?
    ensures Running(s) == {}
  {
    forall i | i in s.calls ensures i in s.results {
      if i in c.parted {
        var x :| 0 <= x < |c.parted| && c.parted[x] == i;
      } else {
        var k :| 0 <= k < |c.whole| && c.whole[k] == i;
        AllTasksEnded(s.tasks, k);
      }
    }
  }

  // ---- every run comes to an end ----

  /** What is not the scheduler's or the outside's doing. */
  predicate Works(a: Action) {
    !a.CancelOutside? && !a.SeeOuter? && !a.SeeInner?
  }

  function TaskRank(tasks: seq<Task>): nat {
    if tasks == [] then 0
    else TaskRank(tasks[..|tasks| - 1]) + match tasks[|tasks| - 1] case Spawned => 2 case Calling => 1 case Ended(_) => 0
  }

  function Rank(c: Config, s: State): int {
    2 * (|c.parted| - s.begun) + (match s.parted case Between => 1 case InCall => 2 case PartedOver(_) => 0)
    + 5 * (|c.whole| - |s.tasks|) + (match s.feeder case Checking => 3 case Acquiring => 2 case Waiting => 1 case FeederOver(_) => 0)
    + TaskRank(s.tasks) + if s.returned.None? then 1 else 0
  }

  lemma {:induction false} TaskRankUpdate(tasks: seq<Task>, k: nat, t: Task)
    requires k < |tasks|
    requires (tasks[k].Spawned? && !t.Spawned?) || (tasks[k].Calling? && t.Ended?)
    ensures TaskRank(tasks[k := t]) < TaskRank(tasks)
  {
    var n := |tasks| - 1;
    if k < n {
      TaskRankUpdate(tasks[..n], k, t);
      assert tasks[k := t][..n] == tasks[..n][k := t];
    } else {
      assert tasks[k := t][..n] == tasks[..n];
    }
  }

  lemma TaskRankAppend(tasks: seq<Task>)
    ensures TaskRank(tasks + [Spawned]) == TaskRank(tasks) + 2
  {
    assert (tasks + [Spawned])[..|tasks|] == tasks;
  }

  lemma TaskWorkDescends(c: Config, s: State, a: Action)
    requires Enabled(c, s, a) && (a.TaskNext? || a.TaskReturn?)
    ensures Rank(c, Apply(c, s, a)) < Rank(c, s)
  {
    match a
    case TaskNext(k) => TaskRankUpdate(s.tasks, k, if s.stop2 then Ended(false) else Calling);
    case TaskReturn(k, _) => TaskRankUpdate(s.tasks, k, Ended(true));
  }

  lemma SpawnDescends(c: Config, s: State)
    requires Enabled(c, s, Spawn)
    ensures Rank(c, Apply(c, s, Spawn)) < Rank(c, s)
  {
    TaskRankAppend(s.tasks);
  }

  lemma WorkDescends(c: Config, s: State, a: Action)
    requires Enabled(c, s, a)
    ensures Rank(c, Apply(c, s, a)) <= Rank(c, s) - if Works(a) then 1 else 0
  {
    match a
    case TaskNext(_) => TaskWorkDescends(c, s, a);
    case TaskReturn(_, _) => TaskWorkDescends(c, s, a);
    case Spawn => SpawnDescends(c, s);
    case _ =>
  }

  function Worked(run: seq<Action>): nat {
    if run == [] then 0 else (if Works(run[0]) then 1 else 0) + Worked(run[1..])
  }

  lemma {:induction false} RunDescends(c: Config, s: State, run: seq<Action>)
    requires Inv(c, s) && Legal(c, s, run)
    ensures Worked(run) + Rank(c, After(c, s, run)) <= Rank(c, s)
    decreases |run|
  {
    if run != [] {
      WorkDescends(c, s, run[0]);
      StepKeepsInv(c, s, run[0]);
      RunDescends(c, Apply(c, s, run[0]), run[1..]);
    }
  }

  lemma {:induction false} SomeActive(tasks: seq<Task>) returns (k: nat)
    requires Active(tasks) > 0
    ensures k < |tasks| && !Over(tasks[k])
  {
    k := |tasks| - 1;
    if Over(tasks[k]) {
      k := SomeActive(tasks[..k]);
    }
  }

  /** Something can always move. */
  lemma NextStep(c: Config, s: State) returns (a: Action)
    requires Inv(c, s) && s.returned.None? && c.limit > 0
    ensures Works(a) && Enabled(c, s, a)
    ensures (a.PartedReturn? ==> a.result.None?) && (a.TaskReturn? ==> a.result.None?)
  {
    if s.parted.Between? {
      a := PartedNext;
    } else if s.parted.InCall? {
      a := PartedReturn(None);
    } else if s.feeder.Checking? {
      a := Check;
    } else if s.feeder.FeederOver? {
      a := Return;
    } else if Active(s.tasks) == 0 {
      a := if s.feeder.Acquiring? then Spawn else Join;
    } else {
      var k := SomeActive(s.tasks);
      a := if s.tasks[k].Spawned? then TaskNext(k) else TaskReturn(k, None);
    }
  }

  /** forEachInLanes returns: no run is longer than its objects allow, and until it
      has returned there is a step to take. */
  lemma LanesReturn(order: seq<nat>, inParts: set<nat>, limit: nat, run: seq<Action>)
    requires Distinct(order) && limit > 0 && Legal(LanesOf(order, inParts, limit), Start(), run)
    ensures Worked(run) <= 5 * |order| + 5
    ensures var c := LanesOf(order, inParts, limit);
            var s := After(c, Start(), run);
            s.returned.None? ==> exists a :: Works(a) && Enabled(c, s, a)
  {
    var c := LanesOf(order, inParts, limit);
    var s := After(c, Start(), run);
    LanesCover(order, inParts);
    LanesLength(order, inParts);
    RunDescends(c, Start(), run);
    ReachableInv(order, inParts, limit, run);
    RankIsNat(c, s);
    if s.returned.None? {
      var a := NextStep(c, s);
    }
  }

  /** Nothing has gone wrong so far. */
  ghost predicate Smooth(s: State) {
    && !s.outside && !s.stop1 && !s.stop2 && s.err1.None? && s.err2.None?
    && (s.parted.PartedOver? ==> s.parted.result.None?)
  }

  lemma SmoothStep(c: Config, s: State, a: Action)
    requires Smooth(s) && Enabled(c, s, a) && Works(a)
    requires (a.PartedReturn? ==> a.result.None?) && (a.TaskReturn? ==> a.result.None?)
    ensures Smooth(Apply(c, s, a))
  {
  }

  lemma {:induction false} RunsToNil(c: Config, s: State) returns (run: seq<Action>)
    requires Inv(c, s) && Smooth(s) && c.limit > 0
    ensures Legal(c, s, run) && After(c, s, run).returned == Some(None)
    decreases Rank(c, s)
  {
    if s.returned.Some? {
      run := [];
    } else {
      var a := NextStep(c, s);
      SmoothStep(c, s, a);
      StepKeepsInv(c, s, a);
      WorkDescends(c, s, a);
      RankIsNat(c, Apply(c, s, a));
      var rest := RunsToNil(c, Apply(c, s, a));
      run := [a] + rest;
      assert run[1..] == rest;
    }
  }

  /** And nil is among what it can return, whatever the order and the lanes. */
  lemma NilIsReached(order: seq<nat>, inParts: set<nat>, limit: nat) returns (run: seq<Action>)
    requires Distinct(order) && limit > 0
    ensures var c := LanesOf(order, inParts, limit);
            Legal(c, Start(), run) && After(c, Start(), run).returned == Some(None)
  {
    LanesCover(order, inParts);
    run := RunsToNil(LanesOf(order, inParts, limit), Start());
  }

  lemma RankIsNat(c: Config, s: State)
    requires Inv(c, s)
    ensures Rank(c, s) >= 0
  {
  }

  lemma {:induction false} LanesLength(order: seq<nat>, inParts: set<nat>)
    ensures |Picked(order, inParts, true)| + |Picked(order, inParts, false)| == |order|
  {
    if order != [] {
      LanesLength(order[..|order| - 1], inParts);
    }
  }
}
