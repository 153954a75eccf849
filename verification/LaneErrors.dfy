/** Which of several failures forEachInLanes returns
    (data-mig/storagex/executor-s3.go). */
module LaneErrors {
  import opened Options
  import opened TransferOrder
  import opened Lanes
  import opened LaneSteps
  import opened LaneRuns

  /** What the action says a call failed with, of its own. */
  function FailureOf(a: Action): Option<Error> {
    match a
    case PartedReturn(result) => if result.Some? && result.value.Failed? then result else None
    case TaskReturn(_, result) => if result.Some? && result.value.Failed? then result else None
    case _ => None
  }

  /** The first failure of a run. */
  function FirstFailure(run: seq<Action>): Option<Error> {
    if run == [] then None else Keep(FailureOf(run[0]), FirstFailure(run[1..]))
  }

  ghost predicate OneLane(c: Config) {
    c.parted == [] || c.whole == []
  }

  /** With one lane only, the group that lane belongs to holds the first failure so
      far, and hands it on when the lane is over. */
  ghost predicate HoldsFirst(c: Config, s: State, first: Option<Error>) {
    !s.outside ==>
      if c.whole == [] then s.err2.None? && s.err1 == first
      else s.err2 == first && s.err1 == if s.feeder.FeederOver? then first else None
  }

  lemma PartedKeepsFirst(c: Config, s: State, a: Action, first: Option<Error>)
    requires Inv(c, s) && OneLane(c) && HoldsFirst(c, s, first) && Enabled(c, s, a)
    requires a.PartedNext? || a.PartedReturn?
    ensures HoldsFirst(c, Apply(c, s, a), Keep(first, FailureOf(a)))
  {
  }

  lemma TaskKeepsFirst(c: Config, s: State, a: Action, first: Option<Error>)
    requires Inv(c, s) && OneLane(c) && HoldsFirst(c, s, first) && Enabled(c, s, a)
    requires a.TaskNext? || a.TaskReturn?
    ensures HoldsFirst(c, Apply(c, s, a), Keep(first, FailureOf(a)))
  {
    ActiveSome(s.tasks, a.k);
  }

  lemma OtherKeepsFirst(c: Config, s: State, a: Action, first: Option<Error>)
    requires Inv(c, s) && OneLane(c) && HoldsFirst(c, s, first) && Enabled(c, s, a)
    requires !a.PartedNext? && !a.PartedReturn? && !a.TaskNext? && !a.TaskReturn?
    ensures HoldsFirst(c, Apply(c, s, a), first)
  {
  }

  lemma StepKeepsFirst(c: Config, s: State, a: Action, first: Option<Error>)
    requires Inv(c, s) && OneLane(c) && HoldsFirst(c, s, first) && Enabled(c, s, a)
    ensures HoldsFirst(c, Apply(c, s, a), Keep(first, FailureOf(a)))
  {
    match a
    case PartedNext => PartedKeepsFirst(c, s, a, first);
    case PartedReturn(_) => PartedKeepsFirst(c, s, a, first);
    case TaskNext(_) => TaskKeepsFirst(c, s, a, first);
    case TaskReturn(_, _) => TaskKeepsFirst(c, s, a, first);
    case _ => OtherKeepsFirst(c, s, a, first);
  }

  lemma {:induction false} RunKeepsFirst(c: Config, s: State, run: seq<Action>, first: Option<Error>)
    requires Inv(c, s) && OneLane(c) && HoldsFirst(c, s, first) && Legal(c, s, run)
    ensures HoldsFirst(c, After(c, s, run), Keep(first, FirstFailure(run)))
    decreases |run|
  {
    if run != [] {
      StepKeepsInv(c, s, run[0]);
      StepKeepsFirst(c, s, run[0], first);
      RunKeepsFirst(c, Apply(c, s, run[0]), run[1..], Keep(first, FailureOf(run[0])));
    }
  }

  // ---- two lanes ----

  lemma OneStep(c: Config, run: seq<Action>, a: Action) returns (longer: seq<Action>)
    requires Legal(c, Start(), run) && Enabled(c, After(c, Start(), run), a)
    ensures longer == run + [a] && Legal(c, Start(), longer)
    ensures After(c, Start(), longer) == Apply(c, After(c, Start(), run), a)
    ensures FirstFailure(longer) == Keep(FirstFailure(run), FailureOf(a))
  {
    longer := run + [a];
    OneMore(c, Start(), run, a);
    LastFailure(run, a);
  }

  lemma {:induction false} OneMore(c: Config, s: State, run: seq<Action>, a: Action)
    requires Legal(c, s, run) && Enabled(c, After(c, s, run), a)
    ensures Legal(c, s, run + [a])
    ensures After(c, s, run + [a]) == Apply(c, After(c, s, run), a)
    decreases |run|
  {
    if run == [] {
      assert [] + [a] == [a] && [a][1..] == [];
    } else {
      assert (run + [a])[1..] == run[1..] + [a];
      OneMore(c, Apply(c, s, run[0]), run[1..], a);
    }
  }

  lemma {:induction false} LastFailure(run: seq<Action>, a: Action)
    ensures FirstFailure(run + [a]) == Keep(FirstFailure(run), FailureOf(a))
  {
    if run == [] {
      assert [] + [a] == [a] && [a][1..] == [];
    } else {
      assert (run + [a])[1..] == run[1..] + [a];
      LastFailure(run[1..], a);
    }
  }

  /** The first whole object has failed while the first parted one is in its call. */
  function OneFailed(p: nat, w: nat): State {
    State(false, false, false, None, Some(Failed(w)), 1, InCall, [Ended(true)], Checking, [w, p], map[w := Some(Failed(w))], None)
  }

  lemma FirstFails(c: Config) returns (run: seq<Action>)
    requires c.parted != [] && c.whole != [] && c.limit > 0
    ensures Legal(c, Start(), run) && After(c, Start(), run) == OneFailed(c.parted[0], c.whole[0])
    ensures FirstFailure(run) == Some(Failed(c.whole[0]))
  {
    var p, w := c.parted[0], c.whole[0];
    run := OneStep(c, [], Check);
    run := OneStep(c, run, Spawn);
    assert After(c, Start(), run) == Start().(tasks := [Spawned]);
    run := OneStep(c, run, TaskNext(0));
    assert After(c, Start(), run) == Start().(tasks := [Calling], calls := [w]);
    run := OneStep(c, run, PartedNext);
    assert After(c, Start(), run) == Start().(tasks := [Calling], calls := [w, p], begun := 1, parted := InCall);
    run := OneStep(c, run, TaskReturn(0, Some(Failed(w))));
  }

  /** With objects in both lanes, the error returned may be a later failure: the
      inner group holds its own back until its other tasks are over, and the parted
      lane may fail in the meantime. */
  lemma LaterFailureMayBeReturned(c: Config) returns (run: seq<Action>)
    requires c.parted != [] && c.whole != [] && c.limit > 0
    ensures Legal(c, Start(), run) && !After(c, Start(), run).outside
    ensures FirstFailure(run) == Some(Failed(c.whole[0]))
    ensures After(c, Start(), run).returned == Some(Some(Failed(c.parted[0])))
  {
    run := FirstFails(c);
    run := OneStep(c, run, PartedReturn(Some(Failed(c.parted[0]))));
    run := OneStep(c, run, SeeInner);
    run := OneStep(c, run, Check);
    run := OneStep(c, run, Join);
    run := OneStep(c, run, Return);
  }

  /** Every error returned without a cancellation from outside is the first failure
      of its run. */
  ghost predicate ReturnsFirst(c: Config) {
    forall run :: Legal(c, Start(), run) && ErrorReturned(After(c, Start(), run)) ==>
      After(c, Start(), run).returned == Some(FirstFailure(run))
  }

  predicate ErrorReturned(s: State) {
    !s.outside && s.returned.Some? && s.returned.value.Some?
  }

  /** The first failure is what is returned, in every run, iff all objects go in one
      lane: all of them in parts, or none. */
  lemma FirstFailureExactly(order: seq<nat>, inParts: set<nat>, limit: nat)
    requires Distinct(order) && limit > 0
    ensures ReturnsFirst(LanesOf(order, inParts, limit)) <==>
            (forall i :: i in order ==> i in inParts) || (forall i :: i in order ==> i !in inParts)
  {
    var c := LanesOf(order, inParts, limit);
    LanesCover(order, inParts);
    OneLaneMeans(order, inParts, limit);
    if OneLane(c) {
      OneLaneReturnsFirst(c);
    } else {
      assert c.parted[0] in c.parted && c.whole[0] in c.whole;
      TwoLanesMayNot(c);
    }
  }

  lemma OneLaneReturnsFirst(c: Config)
    requires Inv(c, Start()) && OneLane(c)
    ensures ReturnsFirst(c)
  {
    forall run | Legal(c, Start(), run) && ErrorReturned(After(c, Start(), run))
      ensures After(c, Start(), run).returned == Some(FirstFailure(run))
    {
      RunKeepsInv(c, Start(), run);
      RunKeepsFirst(c, Start(), run, None);
      FirstIsReturned(c, After(c, Start(), run), FirstFailure(run));
    }
  }

  lemma FirstIsReturned(c: Config, s: State, first: Option<Error>)
    requires Inv(c, s) && OneLane(c) && HoldsFirst(c, s, first) && ErrorReturned(s)
    ensures s.returned == Some(first)
  {
  }

  lemma TwoLanesMayNot(c: Config)
    requires c.parted != [] && c.whole != [] && c.limit > 0 && c.parted[0] != c.whole[0]
    ensures !ReturnsFirst(c)
  {
    var run := LaterFailureMayBeReturned(c);
    assert ErrorReturned(After(c, Start(), run));
  }

  lemma OneLaneMeans(order: seq<nat>, inParts: set<nat>, limit: nat)
    requires Distinct(order)
    ensures OneLane(LanesOf(order, inParts, limit)) <==>
            (forall i :: i in order ==> i in inParts) || (forall i :: i in order ==> i !in inParts)
  {
    var c := LanesOf(order, inParts, limit);
    LanesCover(order, inParts);
    if c.parted != [] {
      assert c.parted[0] in order;
    }
    if c.whole != [] {
      assert c.whole[0] in order;
    }
  }
}
