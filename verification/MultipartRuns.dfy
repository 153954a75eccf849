/** The multipart protocol always comes to an end. */
module MultipartRuns {
  import opened Options
  import opened Ranges
  import opened Multipart
  import opened MultipartSafety

  // ---- runs end ----

  /** An upper bound on the steps a part's goroutine still takes. */
  function PartRank(p: PartState): int {
    match p
    case Idle => 10
    case Opening(a) => 3 * (ATTEMPTS - a) + 3
    case Sending(a, _) => 3 * (ATTEMPTS - a) + 2
    case Backoff(a) => 3 * (ATTEMPTS - a) + 1
    case Landed => 0
    case Failed => 0
  }

  function PartsRank(parts: seq<PartState>): int {
    if parts == [] then 0 else PartsRank(parts[..|parts| - 1]) + PartRank(parts[|parts| - 1])
  }

  function MainRank(c: Config, main: Main, n: nat): int {
    match main
    case StartReady(a) => 12 * Count(c) + 34 + 3 * (ATTEMPTS - a) + 3
    case StartWait(a, _) => 12 * Count(c) + 34 + 3 * (ATTEMPTS - a) + 2
    case StartBackoff(a) => 12 * Count(c) + 34 + 3 * (ATTEMPTS - a) + 1
    case Planning => 12 * Count(c) + 33
    case Spawning(i, checked) => 31 + 2 * (n - i) + if checked then 0 else 1
    case Joining => 30
    case CompleteReady(a) => 10 + 3 * (ATTEMPTS - a) + 3
    case CompleteWait(a, _, _) => 10 + 3 * (ATTEMPTS - a) + 2
    case CompleteBackoff(a) => 10 + 3 * (ATTEMPTS - a) + 1
    case StatWait(_) => 2
    case Aborting => 1
    case Returned(_) => 0
  }

  function Rank(c: Config, s: State): int {
    MainRank(c, s.main, |s.parts|) + PartsRank(s.parts)
  }

  lemma {:induction false} RankUpdate(parts: seq<PartState>, i: nat, p: PartState)
    requires i < |parts|
    ensures PartsRank(parts[i := p]) + PartRank(parts[i]) == PartsRank(parts) + PartRank(p)
  {
    var n := |parts| - 1;
    if i < n {
      RankUpdate(parts[..n], i, p);
      assert parts[i := p][..n] == parts[..n][i := p];
    } else {
      assert parts[i := p][..n] == parts[..n];
    }
  }

  lemma {:induction false} IdleRank(n: nat)
    ensures PartsRank(seq(n, _ => Idle)) == 10 * n
  {
    if n > 0 {
      var idle: seq<PartState> := seq(n, _ => Idle);
      IdleRank(n - 1);
      assert idle[..n - 1] == seq(n - 1, _ => Idle);
    }
  }

  lemma {:induction false} RankNonNegative(c: Config, parts: seq<PartState>, tags: seq<Option<nat>>, tries: seq<nat>, failed: bool)
    requires PartsOk(c, parts, tags, tries, failed)
    ensures PartsRank(parts) >= 0
  {
    var n := |parts|;
    if n > 0 {
      assert PartOk(c, n - 1, parts[n - 1], tags[n - 1], tries[n - 1], failed);
      RankNonNegative(c, parts[..n - 1], tags[..n - 1], tries[..n - 1], failed);
    }
  }

  lemma PartStepRanks(c: Config, s: State, i: nat, p: OnPart)
    requires PartEnabled(c, s, i, p)
    requires PartOk(c, i, s.parts[i], s.tags[i], s.tries[i], s.failed)
    ensures i < |ApplyPart(c, s, i, p).parts| && PartRank(ApplyPart(c, s, i, p).parts[i]) < PartRank(s.parts[i])
  {
  }

  lemma PartStepDescends(c: Config, s: State, i: nat, p: OnPart)
    requires PartEnabled(c, s, i, p)
    requires PartOk(c, i, s.parts[i], s.tags[i], s.tries[i], s.failed)
    ensures var t := ApplyPart(c, s, i, p);
            t.main == s.main && i < |t.parts| && t.parts == s.parts[i := t.parts[i]] && PartRank(t.parts[i]) < PartRank(s.parts[i])
  {
    PartRests(c, s, i, p);
    PartStepRanks(c, s, i, p);
  }

  /** What MainOk says that bounds the steps left. */
  predicate WithinAttempts(main: Main, n: nat) {
    match main
    case StartReady(a) => a <= ATTEMPTS
    case StartWait(a, _) => a <= ATTEMPTS
    case StartBackoff(a) => a < ATTEMPTS
    case CompleteReady(a) => a <= ATTEMPTS
    case CompleteWait(a, _, _) => a <= ATTEMPTS
    case CompleteBackoff(a) => a < ATTEMPTS
    case Spawning(i, _) => i <= n
    case _ => true
  }

  lemma LaunchStepDescends(c: Config, s: State, l: Launch)
    requires WithinAttempts(s.main, |s.parts|) && LaunchEnabled(c, s, l)
    requires s.main.Planning? ==> s.parts == []
    requires s.main.Spawning? && s.main.checked ==> s.parts[s.main.i].Idle?
    ensures Rank(c, ApplyLaunch(c, s, l)) < Rank(c, s)
  {
    match l
    case Plan => IdleRank(Count(c));
    case SpawnGo =>
      RankUpdate(s.parts, s.main.i, Opening(1));
      assert ApplyLaunch(c, s, l).parts == s.parts[s.main.i := Opening(1)];
    case _ =>
  }

  lemma BeginStepDescends(c: Config, s: State, b: Begin)
    requires WithinAttempts(s.main, |s.parts|) && BeginEnabled(c, s, b)
    ensures Rank(c, ApplyBegin(c, s, b)) < Rank(c, s)
  {
  }

  lemma FinishStepDescends(c: Config, s: State, f: Finish)
    requires WithinAttempts(s.main, |s.parts|) && FinishEnabled(c, s, f)
    ensures ApplyFinish(c, s, f).parts == s.parts
    ensures MainRank(c, ApplyFinish(c, s, f).main, |s.parts|) < MainRank(c, s.main, |s.parts|)
  {
    var m := ApplyFinish(c, s, f).main;
    match f
    case CompleteSend => assert m.CompleteWait? && m.attempt == s.main.attempt;
    case CompleteOk => assert m == Returned(true);
    case CompleteGone => assert m.StatWait?;
    case CompleteFail(_) => assert m == Aborting || m == CompleteBackoff(s.main.attempt);
    case CompleteAgain => assert m == CompleteReady(s.main.attempt + 1);
    case CompleteGiveUp => assert m == Aborting;
    case StatOk => assert m == Returned(true);
    case StatFail => assert m == Aborting;
    case AbortCall => assert m == Returned(false);
  }

  lemma ClientStepDescends(c: Config, s: State, a: Action)
    requires ClientOk(c, s) && Enabled(c, s, a) && !a.W?
    ensures Rank(c, Apply(c, s, a)) < Rank(c, s)
  {
    match a
    case P(i, p) =>
      assert PartOk(c, i, s.parts[i], s.tags[i], s.tries[i], s.failed);
      PartStepDescends(c, s, i, p);
      RankUpdate(s.parts, i, ApplyPart(c, s, i, p).parts[i]);
    case B(b) => BeginStepDescends(c, s, b);
    case L(l) => LaunchStepDescends(c, s, l);
    case F(f) => FinishStepDescends(c, s, f);
  }

  function ClientSteps(run: seq<Action>): nat {
    if run == [] then 0 else (if run[0].W? then 0 else 1) + ClientSteps(run[1..])
  }

  lemma {:induction false} StepsWithinRank(c: Config, s: State, run: seq<Action>, before: Option<Bytes>)
    requires Inv(c, s, before) && Legal(c, s, run)
    ensures ClientSteps(run) <= Rank(c, s)
    decreases |run|
  {
    if run == [] {
      RankNonNegative(c, s.parts, s.tags, s.tries, s.failed);
      assert MainRank(c, s.main, |s.parts|) >= 0;
    } else {
      StepKeepsInv(c, s, run[0], before);
      StepsWithinRank(c, Apply(c, s, run[0]), run[1..], before);
      StepCosts(c, s, run[0]);
    }
  }

  /** The store's doings cost nothing. */
  lemma StepCosts(c: Config, s: State, a: Action)
    requires ClientOk(c, s) && Enabled(c, s, a)
    ensures Rank(c, Apply(c, s, a)) <= Rank(c, s) - if a.W? then 0 else 1
  {
    if !a.W? {
      ClientStepDescends(c, s, a);
    }
  }

  /** Until runMultipart has returned, it can always move on its own, without the
      store or anything else having to act. */
  lemma NextStep(c: Config, s: State, before: Option<Bytes>) returns (a: Action)
    requires Inv(c, s, before) && c.slots > 0 && !s.main.Returned?
    ensures !a.W? && Enabled(c, s, a)
  {
    match s.main
    case StartReady(_) => a := B(StartSend);
    case StartWait(_, _) => a := B(StartFail(false));
    case StartBackoff(_) => a := B(StartAgain);
    case Planning => a := L(Plan);
    case Spawning(i, checked) =>
      if !checked {
        a := L(SpawnCheck);
      } else if RunningCount(s.parts) < c.slots {
        a := L(SpawnGo);
      } else {
        a := StepOfRunning(c, s);
      }
    case Joining =>
      if NoneRunning(s.parts) {
        a := L(Join);
      } else {
        SomeRunning(s.parts);
        a := StepOfRunning(c, s);
      }
    case CompleteReady(_) => a := F(CompleteSend);
    case CompleteWait(_, _, _) => a := F(CompleteFail(false));
    case CompleteBackoff(_) => a := F(CompleteAgain);
    case StatWait(_) => a := F(StatFail);
    case Aborting => a := F(AbortCall);
  }

  lemma {:induction false} SomeRunning(parts: seq<PartState>)
    ensures RunningCount(parts) > 0 <==> !NoneRunning(parts)
  {
    if parts != [] {
      var n := |parts| - 1;
      SomeRunning(parts[..n]);
      if Running(parts[n]) {
      } else if RunningCount(parts[..n]) > 0 {
        var i :| 0 <= i < n && Running(parts[..n][i]);
        assert Running(parts[i]);
      }
    }
  }

  lemma StepOfRunning(c: Config, s: State) returns (a: Action)
    requires ClientOk(c, s) && RunningCount(s.parts) > 0
    ensures !a.W? && Enabled(c, s, a)
  {
    SomeRunning(s.parts);
    var i :| 0 <= i < |s.parts| && Running(s.parts[i]);
    a := P(i, if s.parts[i].Opening? then OpenFail(false) else if s.parts[i].Sending? then PutFail(false) else PartAgain);
  }

  /** A transfer of n parts takes at most 12n + 43 steps of its own in any run,
      and one that has not returned has a step to take: it always returns. */
  lemma AlwaysReturns(c: Config, server: Server, run: seq<Action>)
    requires WellSized(c) && c.slots > 0 && Numbered(server) && Legal(c, Init(server), run)
    ensures ClientSteps(run) <= 12 * Count(c) + 43
    ensures var t := After(c, Init(server), run);
            t.main.Returned? || exists a: Action :: !a.W? && Enabled(c, t, a)
  {
    StepsWithinRank(c, Init(server), run, server.stored);
    RunKeepsInv(c, Init(server), run, server.stored);
    var t := After(c, Init(server), run);
    if !t.main.Returned? {
      var a := NextStep(c, t, server.stored);
    }
  }
}
