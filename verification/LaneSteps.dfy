/** forEachInLanes as a step system: what its goroutines do, under any scheduler,
    any outcome of the calls and a cancellation from outside at any time
    (data-mig/storagex/executor-s3.go).

    Two error groups are nested. The outer one runs the lane of the objects
    written in parts, one after the other, and the feeder of the rest; the inner
    one runs a task per object the feeder hands out. Each group keeps the first
    error one of its own members returned, and cancels its context over it; when a
    cancellation is seen is the scheduler's choice. */
module LaneSteps {
  import opened Options
  import opened TransferOrder
  import opened Lanes

  /** The two lanes, and how many of the whole ones run at once. */
  datatype Config = Config(parted: seq<nat>, whole: seq<nat>, limit: nat)

  /** Failed is what the call of an index returned of its own; Cancelled is a
      context's error. */
  datatype Error = Cancelled | Failed(index: nat)

  /** A goroutine of the inner group: handed out, inside the call, or over. */
  datatype Task = Spawned | Calling | Ended(called: bool)

  datatype Parted = Between | InCall | PartedOver(result: Option<Error>)

  /** The loop of forEachConcurrently: about to look at its context, waiting for a
      slot, waiting for its tasks, or over. */
  datatype Feeder = Checking | Acquiring | Waiting | FeederOver(result: Option<Error>)

  /** stop1 and stop2: a cancellation of the outer and of the inner context is
      seen. err1 and err2: what the groups keep. begun: how many parted calls were
      begun. calls and results: the calls begun, in order, and what those that
      returned gave. */
  datatype State = State(outside: bool, stop1: bool, stop2: bool, err1: Option<Error>, err2: Option<Error>,
                         begun: nat, parted: Parted, tasks: seq<Task>, feeder: Feeder,
                         calls: seq<nat>, results: map<nat, Option<Error>>, returned: Option<Option<Error>>)

  function Start(): State {
    State(false, false, false, None, None, 0, Between, [], Checking, [], map[], None)
  }

  datatype Action =
    | CancelOutside
    | SeeOuter // the outer context's cancellation becomes visible
    | SeeInner // the inner one's
    | PartedNext // the parted lane looks at its context, and calls the next index
    | PartedReturn(result: Option<Error>)
    | Check // the feeder looks at its context
    | Spawn // the feeder gets its slot
    | TaskNext(k: nat) // a task looks at its context, and calls its index
    | TaskReturn(k: nat, result: Option<Error>)
    | Join // the feeder's Wait returns
    | Return // the outer Wait returns

  predicate Over(t: Task) {
    t.Ended?
  }

  function Active(tasks: seq<Task>): nat {
    if tasks == [] then 0 else Active(tasks[..|tasks| - 1]) + if Over(tasks[|tasks| - 1]) then 0 else 1
  }

  /** What a call may return: success, a failure of its own, or its context's
      error, if that is cancelled. */
  predicate MayReturn(i: nat, stopped: bool, result: Option<Error>) {
    result == None || result == Some(Failed(i)) || (stopped && result == Some(Cancelled))
  }

  predicate Enabled(c: Config, s: State, a: Action) {
    s.returned.None? &&
    match a
    case CancelOutside => true
    case SeeOuter => s.outside || s.err1.Some?
    case SeeInner => s.stop1 || s.err2.Some?
    case PartedNext => s.parted.Between? && s.begun <= |c.parted|
    case PartedReturn(result) => s.parted.InCall? && 0 < s.begun <= |c.parted| && MayReturn(c.parted[s.begun - 1], s.stop1, result)
    case Check => s.feeder.Checking?
    case Spawn => s.feeder.Acquiring? && Active(s.tasks) < c.limit
    case TaskNext(k) => k < |s.tasks| <= |c.whole| && s.tasks[k].Spawned?
    case TaskReturn(k, result) => k < |s.tasks| <= |c.whole| && s.tasks[k].Calling? && MayReturn(c.whole[k], s.stop2, result)
    case Join => s.feeder.Waiting? && Active(s.tasks) == 0
    case Return => s.parted.PartedOver? && s.feeder.FeederOver?
  }

  /** errgroup keeps the first error a member returns. */
  function Keep(err: Option<Error>, result: Option<Error>): Option<Error> {
    if err.None? then result else err
  }

  function Stopped(stop: bool): Option<Error> {
    if stop then Some(Cancelled) else None
  }

  function Apply(c: Config, s: State, a: Action): State
    requires Enabled(c, s, a)
  {
    match a
    case CancelOutside => s.(outside := true)
    case SeeOuter => s.(stop1 := true)
    case SeeInner => s.(stop2 := true)
    case PartedNext =>
      if s.begun < |c.parted| && !s.stop1 then s.(begun := s.begun + 1, parted := InCall, calls := s.calls + [c.parted[s.begun]])
      else
        var result := if s.begun < |c.parted| then Some(Cancelled) else None;
        s.(parted := PartedOver(result), err1 := Keep(s.err1, result))
    case PartedReturn(result) =>
      var s' := s.(results := s.results[c.parted[s.begun - 1] := result]);
      if result.None? then s'.(parted := Between) else s'.(parted := PartedOver(result), err1 := Keep(s.err1, result))
    case Check => s.(feeder := if |s.tasks| >= |c.whole| || s.stop2 then Waiting else Acquiring)
    case Spawn => s.(tasks := s.tasks + [Spawned], feeder := Checking)
    case TaskNext(k) =>
      if s.stop2 then s.(tasks := s.tasks[k := Ended(false)], err2 := Keep(s.err2, Some(Cancelled)))
      else s.(tasks := s.tasks[k := Calling], calls := s.calls + [c.whole[k]])
    case TaskReturn(k, result) =>
      s.(tasks := s.tasks[k := Ended(true)], results := s.results[c.whole[k] := result], err2 := Keep(s.err2, result))
    case Join =>
      var result := Keep(s.err2, Stopped(s.stop1));
      s.(feeder := FeederOver(result), err1 := Keep(s.err1, result))
    case Return => s.(returned := Some(Keep(s.err1, Stopped(s.outside))))
  }

  predicate Legal(c: Config, s: State, run: seq<Action>)
    decreases |run|
  {
    run == [] || (Enabled(c, s, run[0]) && Legal(c, Apply(c, s, run[0]), run[1..]))
  }

  function After(c: Config, s: State, run: seq<Action>): State
    requires Legal(c, s, run)
    decreases |run|
  {
    if run == [] then s else After(c, Apply(c, s, run[0]), run[1..])
  }

  // ---- what every step keeps ----

  ghost predicate Lanes2(c: Config) {
    Distinct(c.parted) && Distinct(c.whole) && forall i :: i in c.parted ==> i !in c.whole
  }

  /** Where the lanes stand. */
  ghost predicate Positions(c: Config, begun: nat, parted: Parted, tasks: seq<Task>, feeder: Feeder) {
    && begun <= |c.parted|
    && (parted.InCall? ==> begun > 0)
    && |tasks| <= |c.whole|
    && (feeder.Acquiring? ==> |tasks| < |c.whole|)
    && Active(tasks) <= c.limit
    && (feeder.FeederOver? ==> Active(tasks) == 0)
  }

  /** A cancellation has a cause. */
  ghost predicate Causes(outside: bool, stop1: bool, stop2: bool, err1: Option<Error>, err2: Option<Error>) {
    && (stop1 ==> outside || err1.Some?)
    && (stop2 ==> stop1 || err2.Some?)
    && (err1 == Some(Cancelled) ==> outside)
    && (err2 == Some(Cancelled) ==> outside || err1.Some?)
  }

  /** A lane that is over without an error was gone through. */
  ghost predicate LaneEnds(c: Config, begun: nat, parted: Parted, tasks: seq<Task>, feeder: Feeder, stop2: bool, err1: Option<Error>, err2: Option<Error>) {
    && (parted.PartedOver? && parted.result.None? ==> begun == |c.parted|)
    && (parted.PartedOver? && parted.result.Some? ==> err1.Some?)
    && (feeder.Waiting? ==> |tasks| == |c.whole| || stop2)
    && (feeder.FeederOver? && feeder.result.Some? ==> err1.Some?)
    && (feeder.FeederOver? && feeder.result.None? ==> err2.None? && |tasks| == |c.whole|)
  }

  /** The parted lane in the log: what it has begun was called, and all of it but
      the call it is in has returned. */
  ghost predicate PartedLog(c: Config, begun: nat, parted: Parted, calls: seq<nat>, results: map<nat, Option<Error>>) {
    && begun <= |c.parted| && (parted.InCall? ==> begun > 0)
    && (forall x :: 0 <= x < |c.parted| ==> (c.parted[x] in calls <==> x < begun))
    && (forall x :: 0 <= x < |c.parted| ==> (c.parted[x] in results <==> x < begun && !(parted.InCall? && x == begun - 1)))
    && (forall x :: 0 <= x < |c.parted| && c.parted[x] in results && results[c.parted[x]].Some? ==>
          parted.PartedOver? && parted.result.Some?)
  }

  /** The whole lane in the log. */
  ghost predicate WholeLog(c: Config, tasks: seq<Task>, err2: Option<Error>, calls: seq<nat>, results: map<nat, Option<Error>>) {
    && |tasks| <= |c.whole|
    && (forall k :: 0 <= k < |c.whole| ==> (c.whole[k] in calls <==> k < |tasks| && tasks[k] != Spawned && tasks[k] != Ended(false)))
    && (forall k :: 0 <= k < |c.whole| ==> (c.whole[k] in results <==> k < |tasks| && tasks[k] == Ended(true)))
    && (forall k :: 0 <= k < |c.whole| && c.whole[k] in results && results[c.whole[k]].Some? ==> err2.Some?)
    && (forall k :: 0 <= k < |tasks| && tasks[k] == Ended(false) ==> err2.Some?)
  }

  /** No call is made twice, or of what is in neither lane. */
  ghost predicate CallsOnce(c: Config, calls: seq<nat>) {
    Distinct(calls) && forall i :: i in calls ==> i in c.parted || i in c.whole
  }

  /** A failure that a group keeps is one that a call gave. */
  ghost predicate Real(err: Option<Error>, results: map<nat, Option<Error>>) {
    err.Some? && err.value.Failed? ==> err.value.index in results && results[err.value.index] == err
  }

  ghost predicate Results(calls: seq<nat>, results: map<nat, Option<Error>>, err1: Option<Error>, err2: Option<Error>) {
    (forall i :: i in results ==> i in calls) && Real(err1, results) && Real(err2, results)
  }

  ghost predicate Inv(c: Config, s: State) {
    && Lanes2(c)
    && Positions(c, s.begun, s.parted, s.tasks, s.feeder)
    && Causes(s.outside, s.stop1, s.stop2, s.err1, s.err2)
    && LaneEnds(c, s.begun, s.parted, s.tasks, s.feeder, s.stop2, s.err1, s.err2)
    && PartedLog(c, s.begun, s.parted, s.calls, s.results)
    && WholeLog(c, s.tasks, s.err2, s.calls, s.results)
    && CallsOnce(c, s.calls)
    && Results(s.calls, s.results, s.err1, s.err2)
    && ReturnedAs(s)
  }

  /** What was returned: the outer group's error, or else the outside
      cancellation. */
  ghost predicate ReturnedAs(s: State) {
    s.returned.Some? ==> s.parted.PartedOver? && s.feeder.FeederOver? && s.returned.value == Keep(s.err1, Stopped(s.outside))
  }

  lemma {:induction false} ActiveUpdate(tasks: seq<Task>, k: nat, t: Task)
    requires k < |tasks| && !Over(tasks[k])
    ensures Active(tasks[k := t]) == Active(tasks) - if Over(t) then 1 else 0
  {
    var n := |tasks| - 1;
    if k < n {
      ActiveUpdate(tasks[..n], k, t);
      assert tasks[k := t][..n] == tasks[..n][k := t];
    } else {
      assert tasks[k := t][..n] == tasks[..n];
    }
  }

  lemma ActiveAppend(tasks: seq<Task>)
    ensures Active(tasks + [Spawned]) == Active(tasks) + 1
  {
    assert (tasks + [Spawned])[..|tasks|] == tasks;
  }

  lemma TaskStepCounts(c: Config, s: State, a: Action)
    requires Enabled(c, s, a) && (a.TaskNext? || a.TaskReturn?)
    ensures var t := Apply(c, s, a);
            && |t.tasks| == |s.tasks| && Active(t.tasks) <= Active(s.tasks)
            && t.begun == s.begun && t.parted == s.parted && t.feeder == s.feeder
  {
    match a
    case TaskNext(k) => ActiveUpdate(s.tasks, k, if s.stop2 then Ended(false) else Calling);
    case TaskReturn(k, _) => ActiveUpdate(s.tasks, k, Ended(true));
  }

  lemma StepKeepsPositions(c: Config, s: State, a: Action)
    requires Positions(c, s.begun, s.parted, s.tasks, s.feeder) && Enabled(c, s, a)
    ensures var t := Apply(c, s, a); Positions(c, t.begun, t.parted, t.tasks, t.feeder)
  {
    match a
    case TaskNext(_) => TaskStepCounts(c, s, a);
    case TaskReturn(_, _) => TaskStepCounts(c, s, a);
    case Spawn => ActiveAppend(s.tasks);
    case _ =>
  }

  lemma StepKeepsCauses(c: Config, s: State, a: Action)
    requires Inv(c, s) && Enabled(c, s, a)
    ensures var t := Apply(c, s, a); Causes(t.outside, t.stop1, t.stop2, t.err1, t.err2)
  {
  }

  lemma {:induction false} ActiveSome(tasks: seq<Task>, k: nat)
    requires k < |tasks| && !Over(tasks[k])
    ensures Active(tasks) > 0
  {
    if k < |tasks| - 1 {
      ActiveSome(tasks[..|tasks| - 1], k);
    }
  }

  lemma StepKeepsLaneEnds(c: Config, s: State, a: Action)
    requires Inv(c, s) && Enabled(c, s, a)
    ensures var t := Apply(c, s, a); LaneEnds(c, t.begun, t.parted, t.tasks, t.feeder, t.stop2, t.err1, t.err2) && ReturnedAs(t)
  {
    match a
    case TaskNext(k) => ActiveSome(s.tasks, k);
    case TaskReturn(k, _) => ActiveSome(s.tasks, k);
    case _ =>
  }

  /** A call or a return of the other lane's says nothing about this one. */
  lemma PartedLogFrame(c: Config, begun: nat, parted: Parted, calls: seq<nat>, results: map<nat, Option<Error>>, i: nat, result: Option<Error>)
    requires PartedLog(c, begun, parted, calls, results) && i !in c.parted
    ensures PartedLog(c, begun, parted, calls + [i], results)
    ensures PartedLog(c, begun, parted, calls, results[i := result])
  {
    assert forall x :: 0 <= x < |c.parted| ==> c.parted[x] in c.parted;
  }

  lemma PartedCallLogs(c: Config, begun: nat, calls: seq<nat>, results: map<nat, Option<Error>>)
    requires Distinct(c.parted) && begun < |c.parted| && PartedLog(c, begun, Between, calls, results)
    ensures PartedLog(c, begun + 1, InCall, calls + [c.parted[begun]], results)
  {
    forall x | 0 <= x < |c.parted| ensures c.parted[x] in calls + [c.parted[begun]] <==> x < begun + 1 {
    }
  }

  lemma PartedReturnLogs(c: Config, begun: nat, calls: seq<nat>, results: map<nat, Option<Error>>, result: Option<Error>)
    requires Distinct(c.parted) && PartedLog(c, begun, InCall, calls, results)
    ensures PartedLog(c, begun, if result.None? then Between else PartedOver(result), calls, results[c.parted[begun - 1] := result])
  {
    forall x | 0 <= x < |c.parted|
      ensures c.parted[x] in results[c.parted[begun - 1] := result] <==> x < begun
    {
    }
  }

  lemma PartedStepLogs(c: Config, s: State, a: Action)
    requires Distinct(c.parted) && PartedLog(c, s.begun, s.parted, s.calls, s.results) && Enabled(c, s, a)
    requires a.PartedNext? || a.PartedReturn?
    ensures var t := Apply(c, s, a); PartedLog(c, t.begun, t.parted, t.calls, t.results)
  {
    if a.PartedReturn? {
      PartedReturnLogs(c, s.begun, s.calls, s.results, a.result);
    } else if s.begun < |c.parted| {
      PartedCallLogs(c, s.begun, s.calls, s.results);
    }
  }

  lemma TaskStepLogs(c: Config, s: State, a: Action)
    requires PartedLog(c, s.begun, s.parted, s.calls, s.results) && Enabled(c, s, a)
    requires (a.TaskNext? || a.TaskReturn?) && c.whole[a.k] !in c.parted
    ensures var t := Apply(c, s, a); PartedLog(c, t.begun, t.parted, t.calls, t.results)
  {
    PartedLogFrame(c, s.begun, s.parted, s.calls, s.results, c.whole[a.k], if a.TaskReturn? then a.result else None);
  }

  lemma StepKeepsPartedLog(c: Config, s: State, a: Action)
    requires Inv(c, s) && Enabled(c, s, a)
    ensures var t := Apply(c, s, a); PartedLog(c, t.begun, t.parted, t.calls, t.results)
  {
    if a.PartedNext? || a.PartedReturn? {
      PartedStepLogs(c, s, a);
    } else if a.TaskNext? || a.TaskReturn? {
      assert c.whole[a.k] in c.whole;
      TaskStepLogs(c, s, a);
    }
  }

  lemma WholeLogFrame(c: Config, tasks: seq<Task>, err2: Option<Error>, calls: seq<nat>, results: map<nat, Option<Error>>, i: nat, result: Option<Error>)
    requires WholeLog(c, tasks, err2, calls, results) && i !in c.whole
    ensures WholeLog(c, tasks, err2, calls + [i], results)
    ensures WholeLog(c, tasks, err2, calls, results[i := result])
  {
    assert forall k :: 0 <= k < |c.whole| ==> c.whole[k] in c.whole;
  }

  lemma SpawnLogs(c: Config, tasks: seq<Task>, err2: Option<Error>, calls: seq<nat>, results: map<nat, Option<Error>>)
    requires WholeLog(c, tasks, err2, calls, results) && |tasks| < |c.whole|
    ensures WholeLog(c, tasks + [Spawned], err2, calls, results)
  {
  }

  lemma SkipLogs(c: Config, tasks: seq<Task>, err2: Option<Error>, calls: seq<nat>, results: map<nat, Option<Error>>, k: nat)
    requires WholeLog(c, tasks, err2, calls, results) && k < |tasks| && tasks[k].Spawned?
    ensures WholeLog(c, tasks[k := Ended(false)], Keep(err2, Some(Cancelled)), calls, results)
  {
  }

  lemma CallLogs(c: Config, tasks: seq<Task>, err2: Option<Error>, calls: seq<nat>, results: map<nat, Option<Error>>, k: nat)
    requires Distinct(c.whole) && WholeLog(c, tasks, err2, calls, results) && k < |tasks| && tasks[k].Spawned?
    ensures WholeLog(c, tasks[k := Calling], err2, calls + [c.whole[k]], results)
  {
    forall x | 0 <= x < |c.whole|
      ensures c.whole[x] in calls + [c.whole[k]] <==> x == k || c.whole[x] in calls
    {
    }
  }

  lemma ReturnLogs(c: Config, tasks: seq<Task>, err2: Option<Error>, calls: seq<nat>, results: map<nat, Option<Error>>, k: nat, result: Option<Error>)
    requires Distinct(c.whole) && WholeLog(c, tasks, err2, calls, results) && k < |tasks| && tasks[k].Calling?
    ensures WholeLog(c, tasks[k := Ended(true)], Keep(err2, result), calls, results[c.whole[k] := result])
  {
    forall x | 0 <= x < |c.whole|
      ensures c.whole[x] in results[c.whole[k] := result] <==> x == k || c.whole[x] in results
    {
    }
  }

  lemma StepKeepsWholeLog(c: Config, s: State, a: Action)
    requires Inv(c, s) && Enabled(c, s, a)
    ensures var t := Apply(c, s, a); WholeLog(c, t.tasks, t.err2, t.calls, t.results)
  {
    match a
    case PartedNext =>
      if s.begun < |c.parted| {
        WholeLogFrame(c, s.tasks, s.err2, s.calls, s.results, c.parted[s.begun], None);
      }
    case PartedReturn(result) => WholeLogFrame(c, s.tasks, s.err2, s.calls, s.results, c.parted[s.begun - 1], result);
    case Spawn => SpawnLogs(c, s.tasks, s.err2, s.calls, s.results);
    case TaskNext(k) =>
      SkipLogs(c, s.tasks, s.err2, s.calls, s.results, k);
      CallLogs(c, s.tasks, s.err2, s.calls, s.results, k);
    case TaskReturn(k, result) => ReturnLogs(c, s.tasks, s.err2, s.calls, s.results, k, result);
    case _ =>
  }

  lemma StepKeepsCallsOnce(c: Config, s: State, a: Action)
    requires Inv(c, s) && Enabled(c, s, a)
    ensures CallsOnce(c, Apply(c, s, a).calls)
  {
  }

  /** A call that returns was begun and had not returned: so no kept error was
      that call's, and now it may be. */
  lemma ReturnKeepsResults(calls: seq<nat>, results: map<nat, Option<Error>>, err1: Option<Error>, err2: Option<Error>, i: nat, result: Option<Error>)
    requires Results(calls, results, err1, err2) && i in calls && i !in results && (result == Some(Failed(i)) || result == Some(Cancelled) || result == None)
    ensures Results(calls, results[i := result], err1, err2)
    ensures Results(calls, results[i := result], Keep(err1, result), err2)
    ensures Results(calls, results[i := result], err1, Keep(err2, result))
  {
  }

  lemma StepKeepsResults(c: Config, s: State, a: Action)
    requires Inv(c, s) && Enabled(c, s, a)
    ensures var t := Apply(c, s, a); Results(t.calls, t.results, t.err1, t.err2)
  {
    match a
    case PartedReturn(result) => ReturnKeepsResults(s.calls, s.results, s.err1, s.err2, c.parted[s.begun - 1], result);
    case TaskReturn(k, result) => ReturnKeepsResults(s.calls, s.results, s.err1, s.err2, c.whole[k], result);
    case _ =>
  }

  lemma StepKeepsInv(c: Config, s: State, a: Action)
    requires Inv(c, s) && Enabled(c, s, a)
    ensures Inv(c, Apply(c, s, a))
  {
    StepKeepsPositions(c, s, a);
    StepKeepsCauses(c, s, a);
    StepKeepsLaneEnds(c, s, a);
    StepKeepsPartedLog(c, s, a);
    StepKeepsWholeLog(c, s, a);
    StepKeepsCallsOnce(c, s, a);
    StepKeepsResults(c, s, a);
  }
}
