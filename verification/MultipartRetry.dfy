/** What a transfer in parts makes of failures that pass: it tries again, and
    whatever is tried three times in vain fails the transfer. */
module MultipartRetry {
  import opened Options
  import opened Ranges
  import opened Multipart
  import opened MultipartSafety
  import opened MultipartRuns

  // ---- runs, a step at a time ----

  /** run can be taken from s and ends in t. */
  predicate Reaches(c: Config, s: State, run: seq<Action>, t: State) {
    Legal(c, s, run) && After(c, s, run) == t
  }

  predicate NilReached(c: Config, server: Server, run: seq<Action>) {
    Legal(c, Init(server), run) && After(c, Init(server), run).main == Returned(true)
  }

  lemma {:induction false} OneMore(c: Config, s: State, run: seq<Action>, t: State, a: Action)
    requires Reaches(c, s, run, t) && Enabled(c, t, a)
    ensures Reaches(c, s, run + [a], Apply(c, t, a)) && Failures(run + [a]) == Failures(run) + Failures([a])
    decreases |run|
  {
    if run == [] {
      assert run + [a] == [a];
    } else {
      OneMore(c, Apply(c, s, run[0]), run[1..], t, a);
      assert (run + [a])[0] == run[0] && (run + [a])[1..] == run[1..] + [a];
    }
  }

  lemma Take(c: Config, s: State, run: seq<Action>, t: State, a: Action) returns (run': seq<Action>, t': State)
    requires Reaches(c, s, run, t) && Enabled(c, t, a)
    ensures Reaches(c, s, run', t') && t' == Apply(c, t, a)
    ensures Failures(run') == Failures(run) + if Fails(a) then [a] else []
  {
    OneMore(c, s, run, t, a);
    run', t' := run + [a], Apply(c, t, a);
  }

  // ---- failures ----

  predicate Fails(a: Action) {
    match a
    case W(_) => false
    case B(b) => b.StartFail? || b.StartGiveUp?
    case L(_) => false
    case P(_, p) => p.OpenFail? || p.PutFail? || p.PartGiveUp?
    case F(f) => f.CompleteFail? || f.CompleteGiveUp? || f.StatFail?
  }

  /** What fails in a run, in its order. */
  function Failures(run: seq<Action>): seq<Action> {
    if run == [] then [] else (if Fails(run[0]) then [run[0]] else []) + Failures(run[1..])
  }

  /** A failure of a part that another try may mend. */
  predicate Passing(p: OnPart) {
    p == OpenFail(false) || p == PutFail(false)
  }

  /** How often the start fails, what goes wrong with each part, how often the
      completing fails; none of it for good. */
  datatype Setbacks = Setbacks(starts: nat, parts: seq<seq<OnPart>>, completes: nat)

  ghost predicate AreSetbacks(c: Config, b: Setbacks) {
    && |b.parts| == Count(c)
    && forall i, k :: 0 <= i < |b.parts| && 0 <= k < |b.parts[i]| ==> Passing(b.parts[i][k])
  }

  function NoSetbacks(c: Config): Setbacks {
    Setbacks(0, seq(Count(c), _ => []), 0)
  }

  function Times(n: nat, a: Action): seq<Action> {
    if n == 0 then [] else Times(n - 1, a) + [a]
  }

  function OfPart(i: nat, fails: seq<OnPart>): seq<Action> {
    if fails == [] then [] else OfPart(i, fails[..|fails| - 1]) + [P(i, fails[|fails| - 1])]
  }

  function OfParts(parts: seq<seq<OnPart>>): seq<Action> {
    if parts == [] then [] else OfParts(parts[..|parts| - 1]) + OfPart(|parts| - 1, parts[|parts| - 1])
  }

  /** Those failures, one part after the other. */
  function AsActions(b: Setbacks): seq<Action> {
    Times(b.starts, B(StartFail(false))) + OfParts(b.parts) + Times(b.completes, F(CompleteFail(false)))
  }

  /** Nothing fails three times. On Azure nothing is asked of the store to start,
      so no start can fail in passing. */
  predicate AtMostTwo(c: Config, b: Setbacks) {
    && b.starts <= 2 && (c.kind.Azure? ==> b.starts == 0) && b.completes <= 2
    && forall i :: 0 <= i < |b.parts| ==> |b.parts[i]| <= 2
  }

  // ---- a run with no more than two failures of anything ----

  /** The first n parts are on the store, under their numbers as tags. */
  ghost predicate OnStore(c: Config, v: Server, u: nat, n: nat) {
    if c.kind.Azure? then forall j :: 0 <= j < n ==> HasBlock(v, j)
    else u in v.uploads && forall j :: 0 <= j < n ==> j in v.uploads[u] && v.uploads[u][j].tag == j
  }

  /** The first n parts have landed, and part n is where p says. */
  ghost predicate PartsLanded(c: Config, parts: seq<PartState>, tags: seq<Option<nat>>, tries: seq<nat>, n: nat, p: PartState) {
    && |parts| == |tags| == |tries| == Count(c) && n <= Count(c)
    && (forall j :: 0 <= j < Count(c) ==> parts[j] == if j < n then Landed else if j == n then p else Idle)
    && (forall j :: 0 <= j < n ==> tags[j] == Some(j))
  }

  /** Nothing has gone wrong for good, and the key holds what it held. */
  ghost predicate Well(t: State, u: nat, before: Option<Bytes>) {
    && !t.cancelled && !t.failed && !t.removed && !t.completeSent
    && t.upload == Some(u) && t.server.stored == before
  }

  /** The first n parts have landed, and the next is about to be started. */
  ghost predicate Landing(c: Config, t: State, u: nat, n: nat, before: Option<Bytes>) {
    && Well(t, u, before) && t.main == Spawning(n, false)
    && PartsLanded(c, t.parts, t.tags, t.tries, n, Idle) && OnStore(c, t.server, u, n)
  }

  /** The first n parts have landed, and the next is in its attempt-th try. */
  ghost predicate Trying(c: Config, t: State, u: nat, n: nat, attempt: nat, before: Option<Bytes>) {
    && Well(t, u, before) && t.main == Spawning(n + 1, false) && n < Count(c)
    && PartsLanded(c, t.parts, t.tags, t.tries, n, Opening(attempt)) && OnStore(c, t.server, u, n)
  }

  lemma {:induction false} StartsAgain(c: Config, server: Server, n: nat) returns (run: seq<Action>, t: State)
    requires n <= 2 && (c.kind.Azure? ==> n == 0)
    ensures Reaches(c, Init(server), run, t) && t == Init(server).(main := StartReady(n + 1), sent := t.sent)
    ensures Failures(run) == Times(n, B(StartFail(false)))
  {
    var s := Init(server);
    if n == 0 {
      run, t := [], s;
    } else {
      run, t := StartsAgain(c, server, n - 1);
      run, t := Take(c, s, run, t, B(StartSend));
      run, t := Take(c, s, run, t, B(StartFail(false)));
      run, t := Take(c, s, run, t, B(StartAgain));
    }
  }

  /** The try at starting that no failure meets. */
  lemma Starts(c: Config, s: State, run: seq<Action>, t: State) returns (run': seq<Action>, t': State, u: nat)
    requires Reaches(c, s, run, t) && t.main.StartReady?
    ensures Reaches(c, s, run', t') && Failures(run') == Failures(run) && (c.kind.Minio? ==> u in t'.server.uploads)
    ensures t'.server.stored == t.server.stored
    ensures t' == t.(main := Planning, upload := Some(u), server := t'.server, sent := t'.sent, replies := t'.replies)
  {
    var call := |t.sent|;
    run', t' := Take(c, s, run, t, B(StartSend));
    if c.kind.Azure? {
      u := 0;
    } else {
      u := t.server.next;
      run', t' := Take(c, s, run', t', W(Serve(call, 0)));
      assert (call, Started(u)) in t'.replies;
      run', t' := Take(c, s, run', t', B(StartOk(u)));
    }
  }

  lemma Begun(c: Config, server: Server, n: nat) returns (run: seq<Action>, t: State, u: nat)
    requires !c.badPartSize && n <= 2 && (c.kind.Azure? ==> n == 0)
    ensures Reaches(c, Init(server), run, t) && Landing(c, t, u, 0, server.stored)
    ensures Failures(run) == Times(n, B(StartFail(false)))
  {
    run, t := StartsAgain(c, server, n);
    run, t, u := Starts(c, Init(server), run, t);
    run, t := Take(c, Init(server), run, t, L(Plan));
  }

  lemma PartStarts(c: Config, s: State, run: seq<Action>, t: State, u: nat, n: nat, before: Option<Bytes>) returns (run': seq<Action>, t': State)
    requires Reaches(c, s, run, t) && Landing(c, t, u, n, before)
    requires n < Count(c) && c.slots > 0
    ensures Reaches(c, s, run', t') && Trying(c, t', u, n, 1, before) && Failures(run') == Failures(run)
  {
    SomeRunning(t.parts);
    run', t' := Take(c, s, run, t, L(SpawnCheck));
    run', t' := Take(c, s, run', t', L(SpawnGo));
  }

  lemma PartOpens(c: Config, s: State, run: seq<Action>, t: State, u: nat, n: nat, attempt: nat, before: Option<Bytes>) returns (run': seq<Action>, t': State)
    requires Reaches(c, s, run, t) && Trying(c, t, u, n, attempt, before) && HasRange(c, n)
    ensures Reaches(c, s, run', t') && Well(t', u, before) && Failures(run') == Failures(run)
    ensures t'.main == t.main && t'.server == t.server && t'.tags == t.tags && |t'.tries| == |t.tries|
    ensures t'.parts == t.parts[n := Sending(attempt, |t.sent|)] && t'.sent == t.sent + [Put(u, n, Body(c, n))]
  {
    run', t' := Take(c, s, run, t, P(n, OpenOk));
    assert t'.parts == t.parts[n := Sending(attempt, |t.sent|)];
  }

  /** A failure that passes is followed by another try. */
  lemma TriesAgain(c: Config, s: State, run: seq<Action>, t: State, u: nat, n: nat, attempt: nat, p: OnPart, before: Option<Bytes>) returns (run': seq<Action>, t': State)
    requires Reaches(c, s, run, t) && Trying(c, t, u, n, attempt, before) && HasRange(c, n)
    requires attempt <= 2 && Passing(p)
    ensures Reaches(c, s, run', t') && Trying(c, t', u, n, attempt + 1, before) && Failures(run') == Failures(run) + [P(n, p)]
  {
    if p.OpenFail? {
      run', t' := run, t;
    } else {
      run', t' := PartOpens(c, s, run, t, u, n, attempt, before);
    }
    run', t' := Take(c, s, run', t', P(n, p));
    run', t' := Take(c, s, run', t', P(n, PartAgain));
  }

  lemma {:induction false} AllAgain(c: Config, s: State, run: seq<Action>, t: State, u: nat, n: nat, fails: seq<OnPart>, before: Option<Bytes>) returns (run': seq<Action>, t': State)
    requires Reaches(c, s, run, t) && Trying(c, t, u, n, 1, before) && HasRange(c, n)
    requires |fails| <= 2 && forall k :: 0 <= k < |fails| ==> Passing(fails[k])
    ensures Reaches(c, s, run', t') && Trying(c, t', u, n, |fails| + 1, before)
    ensures Failures(run') == Failures(run) + OfPart(n, fails)
    decreases |fails|
  {
    if fails == [] {
      run', t' := run, t;
    } else {
      var k := |fails| - 1;
      run', t' := AllAgain(c, s, run, t, u, n, fails[..k], before);
      run', t' := TriesAgain(c, s, run', t', u, n, |fails|, fails[k], before);
    }
  }

  lemma PutAdds(c: Config, v: Server, u: nat, n: nat, body: Bytes)
    requires OnStore(c, v, u, n)
    ensures OnStore(c, Handle(c.kind, v, Put(u, n, body), n).0, u, n + 1)
  {
    var w := Handle(c.kind, v, Put(u, n, body), n).0;
    if c.kind.Azure? {
      forall j | 0 <= j < n + 1 ensures HasBlock(w, j) {
        assert j < n ==> HasBlock(v, j);
      }
    }
  }

  /** The try that no failure meets. */
  lemma TryLands(c: Config, s: State, run: seq<Action>, t: State, u: nat, n: nat, attempt: nat, before: Option<Bytes>) returns (run': seq<Action>, t': State)
    requires Reaches(c, s, run, t) && Trying(c, t, u, n, attempt, before) && HasRange(c, n)
    ensures Reaches(c, s, run', t') && Landing(c, t', u, n + 1, before) && Failures(run') == Failures(run)
  {
    run', t' := PartOpens(c, s, run, t, u, n, attempt, before);
    var call := |t.sent|;
    assert t'.sent[call] == Put(u, n, Body(c, n));
    run', t' := Take(c, s, run', t', W(Serve(call, n)));
    assert (call, Stored(n)) in t'.replies;
    PutAdds(c, t.server, u, n, Body(c, n));
    run', t' := Take(c, s, run', t', P(n, PutOk(n)));
  }

  /** One part's whole round. */
  lemma PartLands(c: Config, s: State, run: seq<Action>, t: State, u: nat, n: nat, fails: seq<OnPart>, before: Option<Bytes>) returns (run': seq<Action>, t': State)
    requires Reaches(c, s, run, t) && Landing(c, t, u, n, before)
    requires HasRange(c, n) && c.slots > 0
    requires |fails| <= 2 && forall k :: 0 <= k < |fails| ==> Passing(fails[k])
    ensures Reaches(c, s, run', t') && Landing(c, t', u, n + 1, before)
    ensures Failures(run') == Failures(run) + OfPart(n, fails)
  {
    run', t' := PartStarts(c, s, run, t, u, n, before);
    run', t' := AllAgain(c, s, run', t', u, n, fails, before);
    run', t' := TryLands(c, s, run', t', u, n, |fails| + 1, before);
  }

  lemma OfPartsAdds(parts: seq<seq<OnPart>>, n: nat)
    requires n < |parts|
    ensures OfParts(parts[..n + 1]) == OfParts(parts[..n]) + OfPart(n, parts[n])
  {
    assert parts[..n + 1][..n] == parts[..n];
  }

  lemma {:induction false} AllLand(c: Config, server: Server, b: Setbacks, n: nat) returns (run: seq<Action>, t: State, u: nat)
    requires !c.badPartSize && AllThere(c) && c.slots > 0
    requires AreSetbacks(c, b) && AtMostTwo(c, b) && n <= Count(c)
    ensures Reaches(c, Init(server), run, t) && Landing(c, t, u, n, server.stored)
    ensures Failures(run) == Times(b.starts, B(StartFail(false))) + OfParts(b.parts[..n])
  {
    if n == 0 {
      run, t, u := Begun(c, server, b.starts);
    } else {
      run, t, u := AllLand(c, server, b, n - 1);
      run, t := NextLands(c, server, b, n - 1, run, t, u);
    }
  }

  lemma NextLands(c: Config, server: Server, b: Setbacks, n: nat, run: seq<Action>, t: State, u: nat) returns (run': seq<Action>, t': State)
    requires c.slots > 0 && AreSetbacks(c, b) && AtMostTwo(c, b) && n < Count(c) && HasRange(c, n)
    requires Reaches(c, Init(server), run, t) && Landing(c, t, u, n, server.stored)
    requires Failures(run) == Times(b.starts, B(StartFail(false))) + OfParts(b.parts[..n])
    ensures Reaches(c, Init(server), run', t') && Landing(c, t', u, n + 1, server.stored)
    ensures Failures(run') == Times(b.starts, B(StartFail(false))) + OfParts(b.parts[..n + 1])
  {
    run', t' := PartLands(c, Init(server), run, t, u, n, b.parts[n], server.stored);
    OfPartsAdds(b.parts, n);
  }

  /** Every part has landed, and none has been joined. */
  ghost predicate Ready(c: Config, t: State, u: nat, before: Option<Bytes>) {
    && Well(t, u, before) && t.main == CompleteReady(1)
    && |t.tags| == Count(c) && (forall j :: 0 <= j < Count(c) ==> t.tags[j] == Some(j))
    && OnStore(c, t.server, u, Count(c))
  }

  lemma GetsReady(c: Config, server: Server, b: Setbacks) returns (run: seq<Action>, t: State, u: nat)
    requires !c.badPartSize && AllThere(c) && c.slots > 0
    requires AreSetbacks(c, b) && AtMostTwo(c, b)
    ensures Reaches(c, Init(server), run, t) && Ready(c, t, u, server.stored)
    ensures Failures(run) == Times(b.starts, B(StartFail(false))) + OfParts(b.parts)
  {
    var s := Init(server);
    run, t, u := AllLand(c, server, b, Count(c));
    run, t := Take(c, s, run, t, L(SpawnCheck));
    run, t := Take(c, s, run, t, L(Join));
    assert b.parts[..Count(c)] == b.parts;
  }

  lemma CompletesOnceMore(c: Config, s: State, run: seq<Action>, t: State, attempt: nat) returns (run': seq<Action>, t': State)
    requires Reaches(c, s, run, t) && t.main == CompleteReady(attempt) && t.upload.Some? && !t.cancelled && attempt <= 2
    ensures Reaches(c, s, run', t') && Failures(run') == Failures(run) + [F(CompleteFail(false))]
    ensures t' == t.(main := CompleteReady(attempt + 1), sent := t'.sent, completeSent := t'.completeSent)
  {
    run', t' := Take(c, s, run, t, F(CompleteSend));
    run', t' := Take(c, s, run', t', F(CompleteFail(false)));
    run', t' := Take(c, s, run', t', F(CompleteAgain));
  }

  lemma {:induction false} CompletesAgain(c: Config, server: Server, run: seq<Action>, t: State, u: nat, n: nat) returns (run': seq<Action>, t': State)
    requires Reaches(c, Init(server), run, t) && Ready(c, t, u, server.stored) && n <= 2
    ensures Reaches(c, Init(server), run', t')
    ensures t' == t.(main := CompleteReady(n + 1), sent := t'.sent, completeSent := t'.completeSent)
    ensures Failures(run') == Failures(run) + Times(n, F(CompleteFail(false)))
  {
    if n == 0 {
      run', t' := run, t;
    } else {
      run', t' := CompletesAgain(c, server, run, t, u, n - 1);
      run', t' := CompletesOnceMore(c, Init(server), run', t', n);
    }
  }

  lemma Joins(c: Config, s: State, run: seq<Action>, t: State, u: nat) returns (run': seq<Action>, t': State)
    requires Reaches(c, s, run, t) && t.main.CompleteReady? && t.upload == Some(u) && !t.removed
    requires |t.tags| == Count(c) && (forall j :: 0 <= j < Count(c) ==> t.tags[j] == Some(j)) && OnStore(c, t.server, u, Count(c))
    ensures Reaches(c, s, run', t') && t'.main == Returned(true) && !t'.removed && Failures(run') == Failures(run)
  {
    var call := |t.sent|;
    run', t' := Take(c, s, run, t, F(CompleteSend));
    run', t' := Take(c, s, run', t', W(Serve(call, 0)));
    assert (call, Completed) in t'.replies;
    run', t' := Take(c, s, run', t', F(CompleteOk));
  }

  lemma PassesSetbacks(c: Config, server: Server, b: Setbacks) returns (run: seq<Action>, t: State)
    requires !c.badPartSize && AllThere(c) && c.slots > 0
    requires AreSetbacks(c, b) && AtMostTwo(c, b)
    ensures Reaches(c, Init(server), run, t) && t.main == Returned(true) && !t.removed
    ensures Failures(run) == AsActions(b)
  {
    var u;
    run, t, u := GetsReady(c, server, b);
    run, t := CompletesAgain(c, server, run, t, u, b.completes);
    run, t := Joins(c, Init(server), run, t, u);
  }

  // ---- three failures of one thing ----

  /** What is tried again on its own. */
  datatype Piece = Starting | PartNo(i: nat) | Completing

  /** How a failed try counts against what was tried: one that no other try can
      mend counts for all three. */
  function Strike(a: Action, x: Piece): nat {
    match (a, x)
    case (B(StartFail(permanent)), Starting) => if permanent then 3 else 1
    case (P(j, OpenFail(permanent)), PartNo(i)) => if i != j then 0 else if permanent then 3 else 1
    case (P(j, PutFail(permanent)), PartNo(i)) => if i != j then 0 else if permanent then 3 else 1
    case (F(CompleteFail(permanent)), Completing) => if permanent then 3 else 1
    case _ => 0
  }

  function Strikes(run: seq<Action>, x: Piece): nat {
    if run == [] then 0 else Strike(run[0], x) + Strikes(run[1..], x)
  }

  ghost predicate StartStruck(azure: bool, main: Main, k: nat) {
    match main
    case StartReady(a) => k == a - 1 && (azure ==> k == 0)
    case StartWait(a, _) => k == a - 1 && !azure
    case StartBackoff(a) => k == a && !azure
    case Returned(ok) => ok ==> k <= 2 && (azure ==> k == 0)
    case _ => k <= 2 && (azure ==> k == 0)
  }

  ghost predicate PartStruck(p: PartState, k: nat) {
    match p
    case Idle => k == 0
    case Opening(a) => k == a - 1
    case Sending(a, _) => k == a - 1
    case Backoff(a) => k == a
    case Landed => k <= 2
    case Failed => true
  }

  ghost predicate CompleteStruck(main: Main, k: nat) {
    match main
    case CompleteReady(a) => k == a - 1
    case CompleteWait(a, _, _) => k == a - 1
    case CompleteBackoff(a) => k == a
    case StatWait(_) => k <= 2
    case Aborting => true
    case Returned(ok) => ok ==> k <= 2
    case _ => k == 0
  }

  /** The number of the current try is what has failed before it. */
  ghost predicate Struck(c: Config, s: State, x: Piece, k: nat) {
    match x
    case Starting => StartStruck(c.kind.Azure?, s.main, k)
    case PartNo(i) => if i < |s.parts| then PartStruck(s.parts[i], k) else k == 0
    case Completing => CompleteStruck(s.main, k)
  }

  lemma WorldStepStrikes(c: Config, s: State, w: World, x: Piece, k: nat)
    requires Struck(c, s, x, k) && (w.Serve? ==> w.call < |s.sent|)
    ensures Struck(c, ApplyWorld(c, s, w), x, k + Strike(W(w), x))
  {
  }

  lemma PartStepStrikes(c: Config, s: State, j: nat, p: OnPart, x: Piece, k: nat)
    requires ClientOk(c, s) && Struck(c, s, x, k) && PartEnabled(c, s, j, p)
    ensures Struck(c, ApplyPart(c, s, j, p), x, k + Strike(P(j, p), x))
  {
    assert PartOk(c, j, s.parts[j], s.tags[j], s.tries[j], s.failed);
  }

  lemma LaunchStepStrikes(c: Config, s: State, l: Launch, x: Piece, k: nat)
    requires ClientOk(c, s) && Struck(c, s, x, k) && LaunchEnabled(c, s, l)
    ensures Struck(c, ApplyLaunch(c, s, l), x, k)
  {
  }

  lemma BeginStepStrikes(c: Config, s: State, b: Begin, x: Piece, k: nat)
    requires ClientOk(c, s) && Struck(c, s, x, k) && BeginEnabled(c, s, b)
    ensures Struck(c, ApplyBegin(c, s, b), x, k + Strike(B(b), x))
  {
  }

  lemma FinishMainStrikes(c: Config, s: State, f: Finish, k: nat)
    requires MainOk(c, s.main, s.upload, s.parts, Stopped(s), s.aborted)
    requires CompleteStruck(s.main, k) && FinishEnabled(c, s, f)
    ensures CompleteStruck(FinishMain(c, s, f), k + Strike(F(f), Completing))
  {
  }

  lemma FinishStepStrikes(c: Config, s: State, f: Finish, x: Piece, k: nat)
    requires ClientOk(c, s) && Struck(c, s, x, k) && FinishEnabled(c, s, f)
    ensures Struck(c, ApplyFinish(c, s, f), x, k + Strike(F(f), x))
  {
    FinishRests(c, s, f);
    match x
    case Starting =>
    case PartNo(i) =>
    case Completing => FinishMainStrikes(c, s, f, k);
  }

  lemma EarlyStepStrikes(c: Config, s: State, a: Action, x: Piece, k: nat)
    requires ClientOk(c, s) && Struck(c, s, x, k) && Enabled(c, s, a) && !a.P? && !a.F?
    ensures Struck(c, Apply(c, s, a), x, k + Strike(a, x))
  {
    match a
    case W(w) => WorldStepStrikes(c, s, w, x, k);
    case B(b) => BeginStepStrikes(c, s, b, x, k);
    case L(l) => LaunchStepStrikes(c, s, l, x, k);
  }

  lemma StepStrikes(c: Config, s: State, a: Action, x: Piece, k: nat)
    requires ClientOk(c, s) && Struck(c, s, x, k) && Enabled(c, s, a)
    ensures Struck(c, Apply(c, s, a), x, k + Strike(a, x))
  {
    if a.P? {
      PartStepStrikes(c, s, a.i, a.p, x, k);
    } else if a.F? {
      FinishStepStrikes(c, s, a.f, x, k);
    } else {
      EarlyStepStrikes(c, s, a, x, k);
    }
  }

  lemma {:induction false} RunStrikes(c: Config, s: State, run: seq<Action>, x: Piece, k: nat, before: Option<Bytes>)
    requires Inv(c, s, before) && Struck(c, s, x, k) && Legal(c, s, run)
    ensures Struck(c, After(c, s, run), x, k + Strikes(run, x))
    decreases |run|
  {
    if run != [] {
      StepStrikes(c, s, run[0], x, k);
      StepKeepsInv(c, s, run[0], before);
      RunStrikes(c, Apply(c, s, run[0]), run[1..], x, k + Strike(run[0], x), before);
    }
  }

  /** Whatever else happens: once the start, one part or the completing has failed
      three times, or once for good, nil is never returned. */
  lemma ThreeStrikes(kind: Kind, source: Bytes, size: nat, partSize: int, slots: nat, server: Server, run: seq<Action>, x: Piece)
    requires Numbered(server) && Legal(Transfer(kind, source, size, partSize, slots), Init(server), run)
    ensures var t := After(Transfer(kind, source, size, partSize, slots), Init(server), run);
            Strikes(run, x) >= 3 ==> t.main != Returned(true)
    ensures var t := After(Transfer(kind, source, size, partSize, slots), Init(server), run);
            kind.Azure? && Strikes(run, Starting) > 0 ==> t.main != Returned(true)
  {
    var c := Transfer(kind, source, size, partSize, slots);
    TransferIsTarget(kind, source, size, partSize, slots, server.stored);
    RunStrikes(c, Init(server), run, x, 0, server.stored);
    RunStrikes(c, Init(server), run, Starting, 0, server.stored);
    RunKeepsInv(c, Init(server), run, server.stored);
  }

  // ---- exactly which failures are got over ----

  lemma {:induction false} StrikesAdd(xs: seq<Action>, ys: seq<Action>, x: Piece)
    ensures Strikes(xs + ys, x) == Strikes(xs, x) + Strikes(ys, x)
  {
    if xs == [] {
      assert xs + ys == ys;
    } else {
      StrikesAdd(xs[1..], ys, x);
      assert (xs + ys)[1..] == xs[1..] + ys;
    }
  }

  lemma {:induction false} FailuresStrike(run: seq<Action>, x: Piece)
    ensures Strikes(Failures(run), x) == Strikes(run, x)
  {
    if run != [] {
      FailuresStrike(run[1..], x);
      StrikesAdd(if Fails(run[0]) then [run[0]] else [], Failures(run[1..]), x);
    }
  }

  lemma {:induction false} TimesStrike(n: nat, a: Action, x: Piece)
    requires Strike(a, x) <= 1
    ensures Strikes(Times(n, a), x) == if Strike(a, x) == 1 then n else 0
  {
    if n > 0 {
      TimesStrike(n - 1, a, x);
      StrikesAdd(Times(n - 1, a), [a], x);
    }
  }

  lemma {:induction false} OfPartStrikes(i: nat, fails: seq<OnPart>, x: Piece)
    requires forall k :: 0 <= k < |fails| ==> Passing(fails[k])
    ensures Strikes(OfPart(i, fails), x) == if x == PartNo(i) then |fails| else 0
  {
    if fails != [] {
      var k := |fails| - 1;
      OfPartStrikes(i, fails[..k], x);
      StrikesAdd(OfPart(i, fails[..k]), [P(i, fails[k])], x);
    }
  }

  lemma {:induction false} OfPartsStrike(parts: seq<seq<OnPart>>, x: Piece)
    requires forall i, k :: 0 <= i < |parts| && 0 <= k < |parts[i]| ==> Passing(parts[i][k])
    ensures Strikes(OfParts(parts), x) == if x.PartNo? && x.i < |parts| then |parts[x.i]| else 0
  {
    if parts != [] {
      var n := |parts| - 1;
      OfPartsStrike(parts[..n], x);
      OfPartStrikes(n, parts[n], x);
      StrikesAdd(OfParts(parts[..n]), OfPart(n, parts[n]), x);
    }
  }

  lemma StrikesOfThree(xs: seq<Action>, ys: seq<Action>, zs: seq<Action>, x: Piece)
    ensures Strikes(xs + ys + zs, x) == Strikes(xs, x) + Strikes(ys, x) + Strikes(zs, x)
  {
    StrikesAdd(xs + ys, zs, x);
    StrikesAdd(xs, ys, x);
  }

  lemma AsActionsStrike(c: Config, b: Setbacks, x: Piece)
    requires AreSetbacks(c, b)
    ensures Strikes(AsActions(b), x) ==
            match x
            case Starting => b.starts
            case PartNo(i) => if i < |b.parts| then |b.parts[i]| else 0
            case Completing => b.completes
  {
    var starts, completes := Times(b.starts, B(StartFail(false))), Times(b.completes, F(CompleteFail(false)));
    TimesStrike(b.starts, B(StartFail(false)), x);
    OfPartsStrike(b.parts, x);
    TimesStrike(b.completes, F(CompleteFail(false)), x);
    StrikesOfThree(starts, OfParts(b.parts), completes, x);
  }

  /** A transfer whose source has what was listed gets over failures that pass iff
      nothing fails three times: no part, nor the start, nor the completing. */
  lemma GetsOverExactly(kind: Kind, source: Bytes, size: nat, partSize: int, slots: nat, server: Server, b: Setbacks)
    requires Numbered(server) && slots > 0 && partSize > 0 && size <= |source|
    requires AreSetbacks(Transfer(kind, source, size, partSize, slots), b)
    ensures var c := Transfer(kind, source, size, partSize, slots);
            (exists run :: NilReached(c, server, run) && Failures(run) == AsActions(b)) <==> AtMostTwo(c, b)
  {
    var c := Transfer(kind, source, size, partSize, slots);
    if run :| NilReached(c, server, run) && Failures(run) == AsActions(b) {
      forall x: Piece ensures Strikes(AsActions(b), x) <= 2 {
        ThreeStrikes(kind, source, size, partSize, slots, server, run, x);
        FailuresStrike(run, x);
      }
      ThreeStrikes(kind, source, size, partSize, slots, server, run, Starting);
      FailuresStrike(run, Starting);
      AsActionsStrike(c, b, Starting);
      AsActionsStrike(c, b, Completing);
      forall i | 0 <= i < |b.parts| ensures |b.parts[i]| <= 2 {
        AsActionsStrike(c, b, PartNo(i));
      }
    }
    if AtMostTwo(c, b) {
      TransferIsTarget(kind, source, size, partSize, slots, Some(source[..size]));
      var run, t := PassesSetbacks(c, server, b);
      assert NilReached(c, server, run);
    }
  }

  // ---- when the group is stopped ----

  /** A stopped transfer that is not completing yet is past all hope of nil. */
  predicate Doomed(s: State) {
    Stopped(s) && !s.main.CompleteReady? && !s.main.CompleteWait? && !s.main.CompleteBackoff? && !s.main.StatWait? && s.main != Returned(true)
  }

  lemma PartStaysDoomed(c: Config, s: State, i: nat, p: OnPart)
    requires Doomed(s) && PartEnabled(c, s, i, p)
    ensures Doomed(ApplyPart(c, s, i, p))
  {
  }

  lemma WorldStaysDoomed(c: Config, s: State, w: World)
    requires Doomed(s) && (w.Serve? ==> w.call < |s.sent|)
    ensures Doomed(ApplyWorld(c, s, w))
  {
  }

  lemma BeginStaysDoomed(c: Config, s: State, b: Begin)
    requires Doomed(s) && BeginEnabled(c, s, b)
    ensures Doomed(ApplyBegin(c, s, b))
  {
  }

  lemma FinishStaysDoomed(c: Config, s: State, f: Finish)
    requires Doomed(s) && FinishEnabled(c, s, f)
    ensures Doomed(ApplyFinish(c, s, f))
  {
  }

  lemma StepStaysDoomed(c: Config, s: State, a: Action)
    requires Doomed(s) && Enabled(c, s, a)
    ensures Doomed(Apply(c, s, a))
  {
    match a
    case P(i, p) => PartStaysDoomed(c, s, i, p);
    case F(f) => FinishStaysDoomed(c, s, f);
    case W(w) => WorldStaysDoomed(c, s, w);
    case B(b) => BeginStaysDoomed(c, s, b);
    case L(l) => LaunchRests(c, s, l);
  }

  lemma {:induction false} StaysDoomed(c: Config, s: State, run: seq<Action>)
    requires Doomed(s) && Legal(c, s, run)
    ensures Doomed(After(c, s, run))
    decreases |run|
  {
    if run != [] {
      StepStaysDoomed(c, s, run[0]);
      StaysDoomed(c, Apply(c, s, run[0]), run[1..]);
    }
  }

  /** The tries a part may still make in a stopped group: one that waits, or has
      not begun, makes at most one; one that is under way makes no other. */
  function TriesLeft(p: PartState): nat {
    if p.Idle? || p.Backoff? then 1 else 0
  }

  /** The parts below this are started, or past the check that lets them be. */
  function LetIn(main: Main): nat {
    match main
    case Spawning(i, checked) => if checked then i + 1 else i
    case _ => 0
  }

  /** In a stopped group, part i is tried most times in all, and never if barred. */
  ghost predicate Winding(s: State, i: nat, most: nat, barred: bool) {
    && Stopped(s) && IsPart(s, i) && !s.main.Planning?
    && s.tries[i] + TriesLeft(s.parts[i]) <= most
    && (barred ==> s.parts[i].Idle? && LetIn(s.main) <= i)
  }

  lemma WorldKeepsWinding(c: Config, s: State, w: World, i: nat, most: nat, barred: bool)
    requires Winding(s, i, most, barred) && (w.Serve? ==> w.call < |s.sent|)
    ensures Winding(ApplyWorld(c, s, w), i, most, barred)
  {
  }

  lemma BeginKeepsWinding(c: Config, s: State, b: Begin, i: nat, most: nat, barred: bool)
    requires ClientOk(c, s) && Winding(s, i, most, barred)
    ensures !BeginEnabled(c, s, b)
  {
  }

  lemma LaunchKeepsWinding(c: Config, s: State, l: Launch, i: nat, most: nat, barred: bool)
    requires ClientOk(c, s) && Winding(s, i, most, barred) && LaunchEnabled(c, s, l)
    ensures Winding(ApplyLaunch(c, s, l), i, most, barred)
  {
  }

  lemma PartKeepsWinding(c: Config, s: State, j: nat, p: OnPart, i: nat, most: nat, barred: bool)
    requires Winding(s, i, most, barred) && PartEnabled(c, s, j, p)
    ensures Winding(ApplyPart(c, s, j, p), i, most, barred)
  {
  }

  lemma FinishKeepsWinding(c: Config, s: State, f: Finish, i: nat, most: nat, barred: bool)
    requires Winding(s, i, most, barred) && FinishEnabled(c, s, f)
    ensures Winding(ApplyFinish(c, s, f), i, most, barred)
  {
    FinishRests(c, s, f);
  }

  lemma StepKeepsWinding(c: Config, s: State, a: Action, i: nat, most: nat, barred: bool)
    requires ClientOk(c, s) && Winding(s, i, most, barred) && Enabled(c, s, a)
    ensures Winding(Apply(c, s, a), i, most, barred)
  {
    match a
    case W(w) => WorldKeepsWinding(c, s, w, i, most, barred);
    case B(b) => BeginKeepsWinding(c, s, b, i, most, barred);
    case L(l) => LaunchKeepsWinding(c, s, l, i, most, barred);
    case P(j, p) => PartKeepsWinding(c, s, j, p, i, most, barred);
    case F(f) => FinishKeepsWinding(c, s, f, i, most, barred);
  }

  lemma {:induction false} RunKeepsWinding(c: Config, s: State, run: seq<Action>, i: nat, most: nat, barred: bool, before: Option<Bytes>)
    requires Inv(c, s, before) && Winding(s, i, most, barred) && Legal(c, s, run)
    ensures Winding(After(c, s, run), i, most, barred)
    decreases |run|
  {
    if run != [] {
      StepKeepsWinding(c, s, run[0], i, most, barred);
      StepKeepsInv(c, s, run[0], before);
      RunKeepsWinding(c, Apply(c, s, run[0]), run[1..], i, most, barred, before);
    }
  }

  /** Once the transfer is cancelled or a part has failed, no part is tried more
      than once again, a part under way not at all, and no part is started but
      the one that was past the check. Unless it had come to the completing, nil
      is never returned. */
  lemma StopsSoon(kind: Kind, source: Bytes, size: nat, partSize: int, slots: nat, server: Server, before: seq<Action>, after: seq<Action>)
    requires Numbered(server)
    requires var c := Transfer(kind, source, size, partSize, slots);
             && Legal(c, Init(server), before) && Stopped(After(c, Init(server), before))
             && Legal(c, After(c, Init(server), before), after)
    ensures var c := Transfer(kind, source, size, partSize, slots);
            var s := After(c, Init(server), before);
            var t := After(c, s, after);
            && (Doomed(s) ==> t.main != Returned(true))
            && forall i :: 0 <= i && IsPart(s, i) ==>
                 && i < |t.tries|
                 && t.tries[i] <= s.tries[i] + TriesLeft(s.parts[i])
                 && (s.main.Spawning? && i >= LetIn(s.main) ==> t.tries[i] == 0)
  {
    var c := Transfer(kind, source, size, partSize, slots);
    var s := After(c, Init(server), before);
    TransferIsTarget(kind, source, size, partSize, slots, server.stored);
    RunKeepsInv(c, Init(server), before, server.stored);
    RunKeepsInv(c, s, after, server.stored);
    var t := After(c, s, after);
    if Doomed(s) {
      StaysDoomed(c, s, after);
    }
    forall i | 0 <= i && IsPart(s, i)
      ensures i < |t.tries| && t.tries[i] <= s.tries[i] + TriesLeft(s.parts[i])
      ensures s.main.Spawning? && i >= LetIn(s.main) ==> t.tries[i] == 0
    {
      var barred := s.main.Spawning? && i >= LetIn(s.main);
      RunKeepsWinding(c, s, after, i, s.tries[i] + TriesLeft(s.parts[i]), barred, server.stored);
      assert PartOk(c, i, t.parts[i], t.tags[i], t.tries[i], t.failed);
    }
  }

  // ---- requests of a cancelled transfer ----

  /** The requests to start or to complete that a cancelled transfer may still send. */
  function CallsLeft(main: Main): nat {
    if main.StartReady? || main.StartBackoff? || main.CompleteReady? || main.CompleteBackoff? then 1 else 0
  }

  function Calls(run: seq<Action>): nat {
    if run == [] then 0 else (if run[0] == B(StartSend) || run[0] == F(CompleteSend) then 1 else 0) + Calls(run[1..])
  }

  lemma PartMakesNoCall(c: Config, s: State, i: nat, p: OnPart)
    requires PartEnabled(c, s, i, p)
    ensures ApplyPart(c, s, i, p).main == s.main && ApplyPart(c, s, i, p).cancelled == s.cancelled
  {
  }

  lemma CallsFall(c: Config, s: State, a: Action)
    requires s.cancelled && Enabled(c, s, a)
    ensures var t := Apply(c, s, a); t.cancelled && CallsLeft(t.main) + Calls([a]) <= CallsLeft(s.main)
  {
    assert Calls([a]) == if a == B(StartSend) || a == F(CompleteSend) then 1 else 0;
    match a
    case P(i, p) => PartMakesNoCall(c, s, i, p);
    case _ =>
  }

  /** After a cancellation at most one more request to start or to complete is sent. */
  lemma {:induction false} CancelledCalls(c: Config, s: State, run: seq<Action>)
    requires s.cancelled && Legal(c, s, run)
    ensures Calls(run) <= CallsLeft(s.main) <= 1
    decreases |run|
  {
    if run != [] {
      CallsFall(c, s, run[0]);
      CancelledCalls(c, Apply(c, s, run[0]), run[1..]);
    }
  }

  // ---- returning at once ----

  /** Another try at anything. */
  predicate TriesAnew(a: Action) {
    a == B(StartAgain) || a == F(CompleteAgain) || (a.P? && a.p == PartAgain)
  }

  /** A cancelled client's way out. */
  lemma WayOut(c: Config, s: State, before: Option<Bytes>) returns (a: Action)
    requires Inv(c, s, before) && s.cancelled && c.slots > 0 && !s.main.Returned?
    ensures !a.W? && Enabled(c, s, a) && !TriesAnew(a)
  {
    a := NextStep(c, s, before);
    match a
    case B(b) => if b.StartAgain? { a := B(StartGiveUp); }
    case P(i, p) => if p.PartAgain? { a := P(i, PartGiveUp); }
    case F(f) => if f.CompleteAgain? { a := F(CompleteGiveUp); }
    case _ =>
  }

  /** A cancelled transfer need not wait for another try of anything: from wherever
      it is, it can return without one, and without a move of the store. */
  lemma {:induction false} CancelledCanReturn(c: Config, s: State, before: Option<Bytes>) returns (run: seq<Action>)
    requires Inv(c, s, before) && s.cancelled && c.slots > 0
    ensures Legal(c, s, run) && After(c, s, run).main.Returned?
    ensures forall a :: a in run ==> !a.W? && !TriesAnew(a)
    decreases Rank(c, s)
  {
    if s.main.Returned? {
      run := [];
    } else {
      var a := WayOut(c, s, before);
      var t := Apply(c, s, a);
      StepKeepsInv(c, s, a, before);
      ClientStepDescends(c, s, a);
      RankIsNat(c, t);
      CallsFall(c, s, a);
      var rest := CancelledCanReturn(c, t, before);
      run := [a] + rest;
      assert run[1..] == rest;
    }
  }

  lemma RankIsNat(c: Config, s: State)
    requires ClientOk(c, s)
    ensures Rank(c, s) >= 0
  {
    RankNonNegative(c, s.parts, s.tags, s.tries, s.failed);
    assert MainRank(c, s.main, |s.parts|) >= 0;
  }

  // ---- what each store is asked for ----

  /** Azure is asked for nothing but blocks and the block list. */
  ghost predicate AskedRightly(c: Config, sent: seq<Request>) {
    c.kind.Azure? ==> forall k :: 0 <= k < |sent| ==> sent[k].Put? || sent[k].Complete?
  }

  lemma StepAsksRightly(c: Config, s: State, a: Action)
    requires ClientOk(c, s) && Enabled(c, s, a) && AskedRightly(c, s.sent)
    ensures var t := Apply(c, s, a); AskedRightly(c, t.sent)
  {
    match a
    case P(i, p) => PartRests(c, s, i, p);
    case L(l) => LaunchRests(c, s, l);
    case F(f) => FinishRests(c, s, f);
    case _ =>
  }

  lemma {:induction false} RunAsksRightly(c: Config, s: State, run: seq<Action>, before: Option<Bytes>)
    requires Inv(c, s, before) && Legal(c, s, run) && AskedRightly(c, s.sent)
    ensures var t := After(c, s, run); AskedRightly(c, t.sent)
    decreases |run|
  {
    if run != [] {
      StepAsksRightly(c, s, run[0]);
      StepKeepsInv(c, s, run[0], before);
      RunAsksRightly(c, Apply(c, s, run[0]), run[1..], before);
    }
  }

  /** On Azure there is nothing to start, to abort or to look up. */
  lemma AzureAsksForBlocks(source: Bytes, size: nat, partSize: int, slots: nat, server: Server, run: seq<Action>)
    requires Numbered(server) && Legal(Transfer(Azure, source, size, partSize, slots), Init(server), run)
    ensures var t := After(Transfer(Azure, source, size, partSize, slots), Init(server), run);
            forall k :: 0 <= k < |t.sent| ==> t.sent[k].Put? || t.sent[k].Complete?
  {
    var c := Transfer(Azure, source, size, partSize, slots);
    TransferIsTarget(Azure, source, size, partSize, slots, server.stored);
    RunAsksRightly(c, Init(server), run, server.stored);
  }
}
