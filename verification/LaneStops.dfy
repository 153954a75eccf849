/** What forEachInLanes does once a cancellation is seen
    (data-mig/storagex/executor-s3.go). */
module LaneStops {
  import opened Options
  import opened LaneSteps

  /** How many tasks there are, with one the feeder may be about to hand out. */
  function MostTasks(s: State): nat {
    |s.tasks| + if s.feeder.Acquiring? then 1 else 0
  }

  lemma StepStaysStopped(c: Config, s: State, a: Action)
    requires Enabled(c, s, a)
    ensures var t := Apply(c, s, a);
            && (s.stop1 ==> t.stop1 && t.begun == s.begun)
            && (s.stop2 ==> t.stop2 && MostTasks(t) <= MostTasks(s))
            && (s.stop1 && s.stop2 ==> t.calls == s.calls)
            && (s.stop2 && t.calls != s.calls ==> a.PartedNext?)
            && (s.stop1 && t.calls != s.calls ==> a.TaskNext?)
  {
  }

  /** Once the outer cancellation is seen, no object in parts is begun; once the
      inner one is, none of the others, and the feeder hands out one more task
      at most. With both, no call is made any more. */
  lemma {:induction false} NoCallOnceStopped(c: Config, s: State, run: seq<Action>)
    requires Legal(c, s, run)
    ensures var t := After(c, s, run);
            && (s.stop1 ==> t.stop1 && t.begun == s.begun)
            && (s.stop2 ==> t.stop2 && MostTasks(t) <= MostTasks(s))
            && (s.stop1 && s.stop2 ==> t.calls == s.calls)
    decreases |run|
  {
    if run != [] {
      StepStaysStopped(c, s, run[0]);
      NoCallOnceStopped(c, Apply(c, s, run[0]), run[1..]);
    }
  }

  // ---- what a failure stops ----

  /** Any failure a group keeps, and a cancellation from outside, can be seen by
      both lanes, but for one of the inner group's, which the lane of the objects in
      parts sees when the feeder has waited for its tasks. */
  lemma FailureIsSeen(c: Config, s: State)
    requires s.returned.None?
    ensures s.outside || s.err1.Some? ==>
              Enabled(c, s, SeeOuter) && Enabled(c, Apply(c, s, SeeOuter), SeeInner)
              && var t := Apply(c, Apply(c, s, SeeOuter), SeeInner); t.stop1 && t.stop2 && t.calls == s.calls
    ensures s.err2.Some? ==> Enabled(c, s, SeeInner) && Apply(c, s, SeeInner).stop2
  {
  }
}
