/** What every run of the multipart protocol keeps. */
module MultipartSafety {
  import opened Options
  import opened Ranges
  import opened Multipart

  ghost predicate AllThere(c: Config) {
    forall i :: 0 <= i < |c.ranges| ==> c.ranges[i].Some?
  }

  function Contents(c: Config): seq<Bytes> {
    seq(|c.ranges|, i requires 0 <= i < |c.ranges| => if c.ranges[i].Some? then c.ranges[i].value else [])
  }

  /** b is every range of the source, in order. */
  ghost predicate IsTarget(c: Config, b: Option<Bytes>) {
    !c.badPartSize && AllThere(c) && b == Some(Concat(Contents(c)))
  }

  ghost predicate AllLanded(c: Config, parts: seq<PartState>) {
    !c.badPartSize && |parts| == Count(c) && forall i :: 0 <= i < |parts| ==> parts[i].Landed?
  }

  function LengthAt(c: Config, p: PartState, i: nat): nat {
    if p.Landed? && HasRange(c, i) then |Body(c, i)| else 0
  }

  function LandedBytes(c: Config, parts: seq<PartState>): int {
    if parts == [] then 0
    else
      var n := |parts| - 1;
      LandedBytes(c, parts[..n]) + LengthAt(c, parts[n], n)
  }

  ghost predicate PartOk(c: Config, i: nat, p: PartState, tag: Option<nat>, tries: nat, failed: bool) {
    && (tag.Some? <==> p.Landed?)
    && match p
       case Idle => tries == 0
       case Opening(a) => 1 <= a <= ATTEMPTS && tries == a
       case Sending(a, _) => 1 <= a <= ATTEMPTS && tries == a
       case Backoff(a) => 1 <= a < ATTEMPTS && tries == a
       case Landed => tries <= ATTEMPTS && HasRange(c, i) && (c.kind.Azure? ==> tag == Some(i))
       case Failed => tries <= ATTEMPTS && failed
  }

  ghost predicate PartsOk(c: Config, parts: seq<PartState>, tags: seq<Option<nat>>, tries: seq<nat>, failed: bool) {
    && |parts| == |tags| == |tries|
    && forall i :: 0 <= i < |parts| ==> PartOk(c, i, parts[i], tags[i], tries[i], failed)
  }

  /** Where the client is says what its parts are doing. */
  ghost predicate MainOk(c: Config, main: Main, upload: Option<nat>, parts: seq<PartState>, stopped: bool, aborted: bool) {
    match main
    case StartReady(a) => 1 <= a <= ATTEMPTS && parts == [] && upload.None?
    case StartWait(a, _) => 1 <= a <= ATTEMPTS && parts == [] && upload.None?
    case StartBackoff(a) => 1 <= a < ATTEMPTS && parts == [] && upload.None?
    case Planning => parts == [] && upload.Some?
    case Spawning(i, checked) =>
      && upload.Some? && !c.badPartSize && |parts| == Count(c) && i <= |parts| && (checked ==> i < |parts|)
      && forall j :: 0 <= j < |parts| ==> (parts[j].Idle? <==> j >= i)
    case Joining =>
      && upload.Some? && !c.badPartSize && |parts| == Count(c)
      && (stopped || forall j :: 0 <= j < |parts| ==> !parts[j].Idle?)
    case CompleteReady(a) => upload.Some? && AllLanded(c, parts) && 1 <= a <= ATTEMPTS
    case CompleteWait(a, _, _) => upload.Some? && AllLanded(c, parts) && 1 <= a <= ATTEMPTS
    case CompleteBackoff(a) => upload.Some? && AllLanded(c, parts) && 1 <= a < ATTEMPTS
    case StatWait(_) => upload.Some? && AllLanded(c, parts)
    case Aborting => upload.Some? && NoneRunning(parts)
    case Returned(ok) =>
      if ok then upload.Some? && AllLanded(c, parts) else NoneRunning(parts) && (upload.Some? ==> aborted)
  }

  predicate Late(main: Main) {
    main.CompleteReady? || main.CompleteWait? || main.CompleteBackoff? || main.StatWait? || main.Aborting? || main.Returned?
  }

  /** The client's own bookkeeping. */
  ghost predicate ClientOk(c: Config, s: State) {
    && PartsOk(c, s.parts, s.tags, s.tries, s.failed)
    && MainOk(c, s.main, s.upload, s.parts, Stopped(s), s.aborted)
    && (s.aborted ==> s.main == Returned(false))
    && (s.completeSent ==> AllLanded(c, s.parts) && Late(s.main))
    && RunningCount(s.parts) <= c.slots
    && s.written == LandedBytes(c, s.parts)
  }

  ghost predicate RequestOk(c: Config, r: Request, upload: Option<nat>, tags: seq<Option<nat>>, completeSent: bool, aborted: bool) {
    match r
    case Start => true
    case Put(u, n, body) => upload == Some(u) && HasRange(c, n) && body == Body(c, n)
    case Complete(u, listed) => upload == Some(u) && completeSent && listed == tags
    case Abort(u) => upload == Some(u) && aborted
    case Stat => true
  }

  ghost predicate SentOk(c: Config, sent: seq<Request>, upload: Option<nat>, tags: seq<Option<nat>>, completeSent: bool, aborted: bool) {
    forall k :: 0 <= k < |sent| ==> RequestOk(c, sent[k], upload, tags, completeSent, aborted)
  }

  ghost predicate PutAwaited(p: PartState, i: nat, sent: seq<Request>) {
    p.Sending? ==> p.call < |sent| && sent[p.call].Put? && sent[p.call].part == i
  }

  ghost predicate PutsAwaited(parts: seq<PartState>, sent: seq<Request>) {
    forall i :: 0 <= i < |parts| ==> PutAwaited(parts[i], i, sent)
  }

  ghost predicate CallAwaited(main: Main, sent: seq<Request>) {
    && (main.StartWait? ==> main.call < |sent| && sent[main.call].Start?)
    && (main.CompleteWait? ==> main.call < |sent| && sent[main.call].Complete?)
    && (main.StatWait? ==> main.call < |sent| && sent[main.call].Stat?)
  }

  /** Every awaited answer is awaited to the right request. */
  ghost predicate CallsOk(main: Main, parts: seq<PartState>, sent: seq<Request>) {
    PutsAwaited(parts, sent) && CallAwaited(main, sent)
  }

  /** The upload cannot be found any more only once it was discarded or joined. */
  ghost predicate GoneRightly(c: Config, s: State) {
    s.removed || s.aborted || IsTarget(c, s.server.stored)
  }

  ghost predicate BlockOk(c: Config, v: Server, i: nat) {
    HasBlock(v, i) && HasRange(c, i) && Block(v, i) == Body(c, i)
  }

  /** What an answer still means, however long ago it was given: gone says the
      upload may be gone. */
  ghost predicate ReplyOk(c: Config, sent: seq<Request>, upload: Option<nat>, v: Server, gone: bool, call: nat, r: Reply) {
    && call < |sent|
    && match r
       case Started(u) => sent[call].Start? && u < v.next
                          && (if u in v.uploads then upload == Some(u) || v.uploads[u] == map[] else gone)
       case Stored(tag) => sent[call].Put? && (c.kind.Azure? ==> tag == sent[call].part && BlockOk(c, v, tag))
       case Completed => sent[call].Complete? && IsTarget(c, v.stored)
       case Refused => true
       case NoSuchUpload => sent[call].Complete? ==> gone
       case SizeIs(bytes) => bytes.Some? ==> v.stored.Some? && |v.stored.value| in {bytes.value, c.size}
       case Aborted => true
  }

  ghost predicate RepliesOk(c: Config, replies: set<(nat, Reply)>, sent: seq<Request>, upload: Option<nat>, v: Server, gone: bool) {
    forall k, r :: (k, r) in replies ==> ReplyOk(c, sent, upload, v, gone, k, r)
  }

  /** The upload's parts on the store are the source's ranges. */
  ghost predicate UploadsOk(c: Config, v: Server, upload: Option<nat>, gone: bool) {
    && (forall u :: u in v.uploads ==> u < v.next)
    && (upload.Some? ==>
          var u := upload.value;
          && u < v.next
          && (u !in v.uploads ==> gone)
          && (u in v.uploads ==> forall n :: n in v.uploads[u] ==> HasRange(c, n) && v.uploads[u][n].body == Body(c, n)))
  }

  ghost predicate BlocksOk(c: Config, v: Server, parts: seq<PartState>) {
    forall i :: 0 <= i < |parts| && parts[i].Landed? ==> BlockOk(c, v, i)
  }

  /** What nil promises: the object is the source; or somebody else discarded
      the upload, and all that is known of the object is its size. */
  ghost predicate StoredRightly(c: Config, s: State) {
    || IsTarget(c, s.server.stored)
    || (s.removed && c.kind.Minio? && s.server.stored.Some? && |s.server.stored.value| == c.size)
  }

  /** The store, and what its answers still mean. before is what the key held
      when the upload began. */
  ghost predicate ServerOk(c: Config, s: State, before: Option<Bytes>) {
    && (s.server.stored == before || IsTarget(c, s.server.stored))
    && RepliesOk(c, s.replies, s.sent, s.upload, s.server, GoneRightly(c, s))
    && (c.kind.Minio? ==> UploadsOk(c, s.server, s.upload, GoneRightly(c, s)))
    && (c.kind.Azure? ==> BlocksOk(c, s.server, s.parts))
    && (s.main.StatWait? ==> c.kind.Minio? && GoneRightly(c, s))
    && (s.main == Returned(true) ==> StoredRightly(c, s))
  }

  /** The ranges together are as long as the object was listed to be. */
  ghost predicate WellSized(c: Config) {
    !c.badPartSize && AllThere(c) ==> |Concat(Contents(c))| == c.size
  }

  ghost predicate Inv(c: Config, s: State, before: Option<Bytes>) {
    && WellSized(c)
    && ClientOk(c, s)
    && SentOk(c, s.sent, s.upload, s.tags, s.completeSent, s.aborted)
    && CallsOk(s.main, s.parts, s.sent)
    && ServerOk(c, s, before)
  }

  // ---- counting ----

  lemma {:induction false} CountUpdate(parts: seq<PartState>, i: nat, p: PartState)
    requires i < |parts|
    ensures RunningCount(parts[i := p]) + (if Running(parts[i]) then 1 else 0) == RunningCount(parts) + (if Running(p) then 1 else 0)
  {
    var n := |parts| - 1;
    if i < n {
      CountUpdate(parts[..n], i, p);
      assert parts[i := p][..n] == parts[..n][i := p];
    } else {
      assert parts[i := p][..n] == parts[..n];
    }
  }

  lemma {:induction false} BytesUpdate(c: Config, parts: seq<PartState>, i: nat, p: PartState)
    requires i < |parts|
    ensures LandedBytes(c, parts[i := p]) + LengthAt(c, parts[i], i) == LandedBytes(c, parts) + LengthAt(c, p, i)
  {
    var n := |parts| - 1;
    if i < n {
      BytesUpdate(c, parts[..n], i, p);
      assert parts[i := p][..n] == parts[..n][i := p];
    } else {
      assert parts[i := p][..n] == parts[..n];
    }
  }

  lemma {:induction false} IdleCounts(c: Config, n: nat)
    ensures var idle: seq<PartState> := seq(n, _ => Idle); RunningCount(idle) == 0 && LandedBytes(c, idle) == 0
  {
    if n > 0 {
      var idle: seq<PartState> := seq(n, _ => Idle);
      IdleCounts(c, n - 1);
      assert idle[..n - 1] == seq(n - 1, _ => Idle);
    }
  }

  // ---- the client ----

  /** The parts' own bookkeeping rests when one part's entry changes rightly. */
  lemma PartsUpdate(c: Config, parts: seq<PartState>, tags: seq<Option<nat>>, tries: seq<nat>, failed: bool,
    i: nat, p: PartState, tag: Option<nat>, n: nat, after: bool)
    requires PartsOk(c, parts, tags, tries, failed) && i < |parts|
    requires PartOk(c, i, p, tag, n, after) && (failed ==> after)
    ensures PartsOk(c, parts[i := p], tags[i := tag], tries[i := n], after)
  {
  }

  /** What one part's step leaves alone, and what it does to the part. */
  ghost predicate PartMoved(c: Config, s: State, t: State, i: nat) {
    && IsPart(s, i) && IsPart(t, i)
    && PartOk(c, i, t.parts[i], t.tags[i], t.tries[i], t.failed) && !t.parts[i].Idle?
    && t.parts == s.parts[i := t.parts[i]] && t.tags == s.tags[i := t.tags[i]] && t.tries == s.tries[i := t.tries[i]]
    && t.written == s.written + LengthAt(c, t.parts[i], i)
    && t.main == s.main && t.upload == s.upload && (s.failed ==> t.failed) && t.cancelled == s.cancelled
    && t.aborted == s.aborted && t.completeSent == s.completeSent
  }

  lemma PartMoves(c: Config, s: State, i: nat, p: OnPart)
    requires PartEnabled(c, s, i, p)
    requires PartOk(c, i, s.parts[i], s.tags[i], s.tries[i], s.failed)
    requires p.PutOk? && c.kind.Azure? ==> p.tag == i
    ensures PartMoved(c, s, ApplyPart(c, s, i, p), i)
  {
  }

  lemma PartKeepsMain(c: Config, main: Main, upload: Option<nat>, parts: seq<PartState>, i: nat, p: PartState,
    stopped: bool, after: bool, aborted: bool)
    requires MainOk(c, main, upload, parts, stopped, aborted)
    requires i < |parts| && Running(parts[i]) && !p.Idle? && (stopped ==> after)
    ensures MainOk(c, main, upload, parts[i := p], after, aborted)
    ensures !Late(main) && !AllLanded(c, parts)
  {
  }

  lemma PartKeepsClient(c: Config, s: State, i: nat, p: OnPart)
    requires ClientOk(c, s) && PartEnabled(c, s, i, p)
    requires p.PutOk? && c.kind.Azure? ==> p.tag == i
    ensures ClientOk(c, ApplyPart(c, s, i, p))
  {
    var t := ApplyPart(c, s, i, p);
    assert PartOk(c, i, s.parts[i], s.tags[i], s.tries[i], s.failed);
    PartMoves(c, s, i, p);
    PartsUpdate(c, s.parts, s.tags, s.tries, s.failed, i, t.parts[i], t.tags[i], t.tries[i], t.failed);
    PartKeepsMain(c, s.main, s.upload, s.parts, i, t.parts[i], Stopped(s), Stopped(t), s.aborted);
    CountUpdate(s.parts, i, t.parts[i]);
    BytesUpdate(c, s.parts, i, t.parts[i]);
  }

  /** Completing goes on, comes to an end or is given up. */
  lemma CompleteKeepsMain(c: Config, s: State, f: Finish)
    requires FinishEnabled(c, s, f) && f != AbortCall
    requires MainOk(c, s.main, s.upload, s.parts, Stopped(s), s.aborted)
    ensures var t := ApplyFinish(c, s, f);
            MainOk(c, t.main, t.upload, t.parts, Stopped(t), t.aborted) && Late(t.main) && AllLanded(c, t.parts)
  {
    assert AllLanded(c, s.parts);
    assert NoneRunning(s.parts);
  }

  /** No step of completing or aborting touches the parts. */
  lemma FinishRests(c: Config, s: State, f: Finish)
    requires FinishEnabled(c, s, f)
    ensures var t := ApplyFinish(c, s, f);
            && t.parts == s.parts && t.tags == s.tags && t.tries == s.tries && t.failed == s.failed && t.written == s.written
            && t.aborted == (s.aborted || f.AbortCall?) && t.completeSent == (s.completeSent || f.CompleteSend?)
  {
  }

  lemma FinishKeepsMain(c: Config, s: State, f: Finish)
    requires FinishEnabled(c, s, f)
    requires MainOk(c, s.main, s.upload, s.parts, Stopped(s), s.aborted)
    requires s.aborted ==> s.main == Returned(false)
    requires s.completeSent ==> AllLanded(c, s.parts) && Late(s.main)
    ensures var t := ApplyFinish(c, s, f);
            && MainOk(c, t.main, t.upload, t.parts, Stopped(t), t.aborted)
            && (t.aborted ==> t.main == Returned(false))
            && (t.completeSent ==> AllLanded(c, t.parts) && Late(t.main))
  {
    FinishRests(c, s, f);
    if f != AbortCall {
      CompleteKeepsMain(c, s, f);
    }
  }

  lemma ClientFrame(c: Config, s: State, t: State)
    requires ClientOk(c, s)
    requires t.parts == s.parts && t.tags == s.tags && t.tries == s.tries && t.failed == s.failed && t.written == s.written
    requires MainOk(c, t.main, t.upload, t.parts, Stopped(t), t.aborted)
    requires t.aborted ==> t.main == Returned(false)
    requires t.completeSent ==> AllLanded(c, t.parts) && Late(t.main)
    ensures ClientOk(c, t)
  {
  }

  lemma FinishKeepsClient(c: Config, s: State, f: Finish)
    requires ClientOk(c, s) && FinishEnabled(c, s, f)
    ensures ClientOk(c, ApplyFinish(c, s, f))
  {
    FinishKeepsMain(c, s, f);
    FinishRests(c, s, f);
    ClientFrame(c, s, ApplyFinish(c, s, f));
  }

  lemma BeginKeepsClient(c: Config, s: State, b: Begin)
    requires ClientOk(c, s) && BeginEnabled(c, s, b)
    ensures ClientOk(c, ApplyBegin(c, s, b))
  {
  }

  lemma WorldKeepsClient(c: Config, s: State, w: World)
    requires ClientOk(c, s) && (w.Serve? ==> w.call < |s.sent|)
    ensures ClientOk(c, ApplyWorld(c, s, w))
  {
  }

  lemma PlanKeepsClient(c: Config, s: State)
    requires ClientOk(c, s) && LaunchEnabled(c, s, Plan)
    ensures ClientOk(c, ApplyLaunch(c, s, Plan))
  {
    IdleCounts(c, Count(c));
  }

  lemma SpawnKeepsClient(c: Config, s: State)
    requires ClientOk(c, s) && LaunchEnabled(c, s, SpawnGo)
    ensures ClientOk(c, ApplyLaunch(c, s, SpawnGo))
  {
    CountUpdate(s.parts, s.main.i, Opening(1));
    BytesUpdate(c, s.parts, s.main.i, Opening(1));
  }

  lemma JoinKeepsClient(c: Config, s: State)
    requires ClientOk(c, s) && LaunchEnabled(c, s, Join)
    ensures ClientOk(c, ApplyLaunch(c, s, Join))
  {
    if !Stopped(s) {
      forall i | 0 <= i < |s.parts| ensures s.parts[i].Landed? {
        assert PartOk(c, i, s.parts[i], s.tags[i], s.tries[i], s.failed);
      }
    }
  }

  lemma LaunchKeepsClient(c: Config, s: State, l: Launch)
    requires ClientOk(c, s) && LaunchEnabled(c, s, l)
    ensures ClientOk(c, ApplyLaunch(c, s, l))
  {
    match l
    case Plan => PlanKeepsClient(c, s);
    case SpawnCheck =>
    case SpawnGo => SpawnKeepsClient(c, s);
    case Join => JoinKeepsClient(c, s);
  }

  // ---- what was sent ----

  /** Requests stay right while the upload, its tags and its end stay known. */
  lemma SentFrame(c: Config, s: State, t: State)
    requires SentOk(c, s.sent, s.upload, s.tags, s.completeSent, s.aborted)
    requires s.upload.None? || t.upload == s.upload
    requires s.completeSent ==> t.tags == s.tags && t.completeSent
    requires s.aborted ==> t.aborted
    requires s.sent <= t.sent
    requires forall k :: |s.sent| <= k < |t.sent| ==> RequestOk(c, t.sent[k], t.upload, t.tags, t.completeSent, t.aborted)
    ensures SentOk(c, t.sent, t.upload, t.tags, t.completeSent, t.aborted)
  {
    forall k | 0 <= k < |t.sent| ensures RequestOk(c, t.sent[k], t.upload, t.tags, t.completeSent, t.aborted) {
      if k < |s.sent| {
        assert RequestOk(c, s.sent[k], s.upload, s.tags, s.completeSent, s.aborted);
        assert t.sent[k] == s.sent[k];
      }
    }
  }

  lemma BeginKeepsSent(c: Config, s: State, b: Begin)
    requires ClientOk(c, s) && BeginEnabled(c, s, b)
    requires SentOk(c, s.sent, s.upload, s.tags, s.completeSent, s.aborted) && CallsOk(s.main, s.parts, s.sent)
    ensures var t := ApplyBegin(c, s, b);
            SentOk(c, t.sent, t.upload, t.tags, t.completeSent, t.aborted) && CallsOk(t.main, t.parts, t.sent)
  {
    SentFrame(c, s, ApplyBegin(c, s, b));
  }

  lemma LaunchKeepsSent(c: Config, s: State, l: Launch)
    requires ClientOk(c, s) && LaunchEnabled(c, s, l)
    requires SentOk(c, s.sent, s.upload, s.tags, s.completeSent, s.aborted) && CallsOk(s.main, s.parts, s.sent)
    ensures var t := ApplyLaunch(c, s, l);
            SentOk(c, t.sent, t.upload, t.tags, t.completeSent, t.aborted) && CallsOk(t.main, t.parts, t.sent)
  {
    SentFrame(c, s, ApplyLaunch(c, s, l));
  }

  lemma PartKeepsSent(c: Config, s: State, i: nat, p: OnPart)
    requires ClientOk(c, s) && PartEnabled(c, s, i, p)
    requires SentOk(c, s.sent, s.upload, s.tags, s.completeSent, s.aborted) && CallsOk(s.main, s.parts, s.sent)
    ensures var t := ApplyPart(c, s, i, p);
            SentOk(c, t.sent, t.upload, t.tags, t.completeSent, t.aborted) && CallsOk(t.main, t.parts, t.sent)
  {
    assert !s.completeSent;
    SentFrame(c, s, ApplyPart(c, s, i, p));
  }

  lemma FinishKeepsSent(c: Config, s: State, f: Finish)
    requires FinishEnabled(c, s, f)
    requires SentOk(c, s.sent, s.upload, s.tags, s.completeSent, s.aborted)
    ensures var t := ApplyFinish(c, s, f); SentOk(c, t.sent, t.upload, t.tags, t.completeSent, t.aborted)
  {
    SentFrame(c, s, ApplyFinish(c, s, f));
  }

  lemma PutsFrame(parts: seq<PartState>, sent: seq<Request>, after: seq<Request>)
    requires PutsAwaited(parts, sent) && sent <= after
    ensures PutsAwaited(parts, after)
  {
    forall i | 0 <= i < |parts| ensures PutAwaited(parts[i], i, after) {
      assert PutAwaited(parts[i], i, sent);
    }
  }

  lemma FinishKeepsCalls(c: Config, s: State, f: Finish)
    requires FinishEnabled(c, s, f) && CallsOk(s.main, s.parts, s.sent)
    ensures var t := ApplyFinish(c, s, f); CallsOk(t.main, t.parts, t.sent)
  {
    var t := ApplyFinish(c, s, f);
    assert s.sent <= t.sent && t.parts == s.parts && CallAwaited(t.main, t.sent);
    PutsFrame(s.parts, s.sent, t.sent);
  }

  // ---- what the store's answers mean, as the client moves on ----

  lemma RepliesFrame(c: Config, s: State, t: State)
    requires RepliesOk(c, s.replies, s.sent, s.upload, s.server, GoneRightly(c, s))
    requires t.replies == s.replies && t.server == s.server && s.sent <= t.sent
    requires s.upload.None? || t.upload == s.upload
    requires GoneRightly(c, s) ==> GoneRightly(c, t)
    ensures RepliesOk(c, t.replies, t.sent, t.upload, t.server, GoneRightly(c, t))
  {
    forall k, r | (k, r) in t.replies ensures ReplyOk(c, t.sent, t.upload, t.server, GoneRightly(c, t), k, r) {
      assert ReplyOk(c, s.sent, s.upload, s.server, GoneRightly(c, s), k, r);
    }
  }

  /** A step of the client's that sends at most a request, and after which it does
      not say that it is done, leaves right what the store holds and has said. */
  lemma StoreFrame(c: Config, s: State, t: State, before: Option<Bytes>)
    requires ServerOk(c, s, before) && t.server == s.server && t.replies == s.replies && s.sent <= t.sent
    requires t.upload == s.upload && t.removed == s.removed && (s.aborted ==> t.aborted)
    requires forall i :: 0 <= i < |t.parts| && t.parts[i].Landed? ==> i < |s.parts| && s.parts[i].Landed?
    requires !t.main.StatWait? && t.main != Returned(true)
    ensures ServerOk(c, t, before)
  {
    RepliesFrame(c, s, t);
  }

  /** An upload that the store has named is its latest of that number, or gone. */
  lemma StartedServer(c: Config, s: State, u: nat, before: Option<Bytes>)
    requires ServerOk(c, s, before) && BeginEnabled(c, s, StartOk(u)) && s.upload.None? && s.parts == []
    ensures ServerOk(c, ApplyBegin(c, s, StartOk(u)), before)
  {
    RepliesFrame(c, s, ApplyBegin(c, s, StartOk(u)));
    assert ReplyOk(c, s.sent, s.upload, s.server, GoneRightly(c, s), s.main.call, Started(u));
  }

  lemma SendingStart(c: Config, s: State, before: Option<Bytes>)
    requires ServerOk(c, s, before) && BeginEnabled(c, s, StartSend) && s.upload.None? && s.parts == []
    ensures ServerOk(c, ApplyBegin(c, s, StartSend), before)
  {
    RepliesFrame(c, s, ApplyBegin(c, s, StartSend));
  }

  lemma BeginKeepsServer(c: Config, s: State, b: Begin, before: Option<Bytes>)
    requires ServerOk(c, s, before) && BeginEnabled(c, s, b) && s.upload.None? && s.parts == []
    ensures ServerOk(c, ApplyBegin(c, s, b), before)
  {
    match b
    case StartSend => SendingStart(c, s, before);
    case StartOk(u) => StartedServer(c, s, u, before);
    case StartFail(_) => StoreFrame(c, s, ApplyBegin(c, s, b), before);
    case StartAgain => StoreFrame(c, s, ApplyBegin(c, s, b), before);
    case StartGiveUp => StoreFrame(c, s, ApplyBegin(c, s, b), before);
  }

  /** Starting and awaiting the parts is no business of the store's. */
  lemma LaunchRests(c: Config, s: State, l: Launch)
    requires LaunchEnabled(c, s, l)
    ensures var t := ApplyLaunch(c, s, l);
            && t.server == s.server && t.replies == s.replies && t.sent == s.sent && t.upload == s.upload
            && t.removed == s.removed && t.aborted == s.aborted && !t.main.StatWait? && t.main != Returned(true)
  {
  }

  lemma LaunchLands(c: Config, s: State, l: Launch)
    requires LaunchEnabled(c, s, l)
    ensures var t := ApplyLaunch(c, s, l);
            forall i :: 0 <= i < |t.parts| && t.parts[i].Landed? ==> i < |s.parts| && s.parts[i].Landed?
  {
  }

  lemma LaunchKeepsServer(c: Config, s: State, l: Launch, before: Option<Bytes>)
    requires ServerOk(c, s, before) && LaunchEnabled(c, s, l)
    ensures ServerOk(c, ApplyLaunch(c, s, l), before)
  {
    LaunchRests(c, s, l);
    LaunchLands(c, s, l);
    StoreFrame(c, s, ApplyLaunch(c, s, l), before);
  }

  /** What one part's step leaves alone of the store, of the rest of the client and
      of the other parts. */
  ghost predicate PartRested(s: State, t: State, i: nat, landed: bool) {
    && t.server == s.server && t.replies == s.replies && s.sent <= t.sent && t.upload == s.upload && t.main == s.main
    && t.removed == s.removed && t.aborted == s.aborted && i < |s.parts| == |t.parts| && t.parts == s.parts[i := t.parts[i]]
    && (t.parts[i].Landed? ==> landed)
  }

  lemma PartRests(c: Config, s: State, i: nat, p: OnPart)
    requires PartEnabled(c, s, i, p)
    ensures PartRested(s, ApplyPart(c, s, i, p), i, p.PutOk?)
  {
  }

  /** A part that landed is on the store as the block its number names. */
  lemma PartStored(c: Config, s: State, i: nat, tag: nat, before: Option<Bytes>)
    requires ServerOk(c, s, before) && PutsAwaited(s.parts, s.sent) && PartEnabled(c, s, i, PutOk(tag))
    ensures c.kind.Azure? ==> tag == i && BlockOk(c, s.server, i)
  {
    assert ReplyOk(c, s.sent, s.upload, s.server, GoneRightly(c, s), s.parts[i].call, Stored(tag));
    assert PutAwaited(s.parts[i], i, s.sent);
  }

  lemma PartKeepsServer(c: Config, s: State, i: nat, p: OnPart, before: Option<Bytes>)
    requires ServerOk(c, s, before) && PartEnabled(c, s, i, p) && s.upload.Some?
    requires PutsAwaited(s.parts, s.sent)
    ensures ServerOk(c, ApplyPart(c, s, i, p), before)
  {
    var t := ApplyPart(c, s, i, p);
    PartRests(c, s, i, p);
    if p.PutOk? {
      PartStored(c, s, i, p.tag, before);
    }
    ServerFrame(c, s, t, i, before);
  }

  lemma ServerFrame(c: Config, s: State, t: State, i: nat, before: Option<Bytes>)
    requires ServerOk(c, s, before) && s.upload.Some?
    requires t.server == s.server && t.replies == s.replies && s.sent <= t.sent && t.upload == s.upload && t.main == s.main
    requires t.removed == s.removed && t.aborted == s.aborted && i < |s.parts| == |t.parts| && t.parts == s.parts[i := t.parts[i]]
    requires t.parts[i].Landed? && c.kind.Azure? ==> BlockOk(c, s.server, i)
    ensures ServerOk(c, t, before)
  {
    RepliesFrame(c, s, t);
    forall j | 0 <= j < |t.parts| && t.parts[j].Landed? && c.kind.Azure? ensures BlockOk(c, t.server, j) {
      if j != i {
        assert s.parts[j].Landed?;
      }
    }
  }

  /** What the store answered is what the client makes of it. */
  lemma AnswerKeepsServer(c: Config, s: State, f: Finish, before: Option<Bytes>)
    requires ServerOk(c, s, before) && FinishEnabled(c, s, f) && s.upload.Some? && CallsOk(s.main, s.parts, s.sent)
    requires !s.aborted && (f.CompleteOk? || f.StatOk?)
    ensures ServerOk(c, ApplyFinish(c, s, f), before)
  {
    var t := ApplyFinish(c, s, f);
    RepliesFrame(c, s, t);
    if f.CompleteOk? {
      assert ReplyOk(c, s.sent, s.upload, s.server, GoneRightly(c, s), s.main.call, Completed);
    } else {
      assert ReplyOk(c, s.sent, s.upload, s.server, GoneRightly(c, s), s.main.call, SizeIs(Some(c.size)));
    }
  }

  lemma GoneKeepsServer(c: Config, s: State, before: Option<Bytes>)
    requires ServerOk(c, s, before) && FinishEnabled(c, s, CompleteGone) && s.upload.Some? && CallsOk(s.main, s.parts, s.sent)
    ensures ServerOk(c, ApplyFinish(c, s, CompleteGone), before)
  {
    RepliesFrame(c, s, ApplyFinish(c, s, CompleteGone));
    assert ReplyOk(c, s.sent, s.upload, s.server, GoneRightly(c, s), s.main.call, NoSuchUpload);
  }

  lemma FinishLeavesStore(c: Config, s: State, f: Finish)
    requires FinishEnabled(c, s, f) && !f.CompleteOk? && !f.StatOk? && !f.CompleteGone?
    ensures var t := ApplyFinish(c, s, f);
            && t.server == s.server && t.replies == s.replies && s.sent <= t.sent && t.upload == s.upload && t.parts == s.parts
            && t.removed == s.removed && (s.aborted ==> t.aborted) && !t.main.StatWait? && t.main != Returned(true)
  {
  }

  lemma FinishKeepsServer(c: Config, s: State, f: Finish, before: Option<Bytes>)
    requires ServerOk(c, s, before) && FinishEnabled(c, s, f) && s.upload.Some?
    requires !s.aborted && CallsOk(s.main, s.parts, s.sent)
    ensures ServerOk(c, ApplyFinish(c, s, f), before)
  {
    if f.CompleteOk? || f.StatOk? {
      AnswerKeepsServer(c, s, f, before);
    } else if f.CompleteGone? {
      GoneKeepsServer(c, s, before);
    } else {
      FinishLeavesStore(c, s, f);
      StoreFrame(c, s, ApplyFinish(c, s, f), before);
    }
  }

  // ---- what the store's answers mean, as the store acts ----

  /** The surroundings' moves other than the store's own. */
  lemma OutsideKeepsServer(c: Config, s: State, w: World, before: Option<Bytes>)
    requires ServerOk(c, s, before) && !w.Serve?
    ensures ServerOk(c, ApplyWorld(c, s, w), before)
  {
    var t := ApplyWorld(c, s, w);
    forall k, r | (k, r) in t.replies ensures ReplyOk(c, t.sent, t.upload, t.server, GoneRightly(c, t), k, r) {
      assert ReplyOk(c, s.sent, s.upload, s.server, GoneRightly(c, s), k, r);
    }
  }

  /** The store moves on from v to w without losing what its answers mean. */
  ghost predicate Grows(c: Config, v: Server, w: Server, upload: Option<nat>, gone: bool, after: bool) {
    && v.next <= w.next
    && (gone ==> after)
    && (w.stored == v.stored || IsTarget(c, w.stored))
    && (forall u :: u < v.next && upload != Some(u) && u in v.uploads ==> u in w.uploads && w.uploads[u] == v.uploads[u])
    && (forall u :: u < v.next && u in w.uploads ==> u in v.uploads)
    && (upload.Some? && upload.value in v.uploads && upload.value !in w.uploads ==> after)
    && (c.kind.Azure? ==> forall i :: BlockOk(c, v, i) ==> BlockOk(c, w, i))
  }

  lemma RepliesGrow(c: Config, s: State, w: Server, after: bool, call: nat, reply: Reply)
    requires WellSized(c)
    requires RepliesOk(c, s.replies, s.sent, s.upload, s.server, GoneRightly(c, s))
    requires Grows(c, s.server, w, s.upload, GoneRightly(c, s), after)
    requires ReplyOk(c, s.sent, s.upload, w, after, call, reply)
    ensures RepliesOk(c, s.replies + {(call, reply)}, s.sent, s.upload, w, after)
  {
    forall k, r | (k, r) in s.replies ensures ReplyOk(c, s.sent, s.upload, w, after, k, r) {
      assert ReplyOk(c, s.sent, s.upload, s.server, GoneRightly(c, s), k, r);
    }
  }

  /** S3 joins the parts a complete lists only if they are all there: each is its
      range of the source, so the object is the source. */
  lemma JoinedIsTarget(c: Config, v: Server, upload: nat, tags: seq<Option<nat>>)
    requires !c.badPartSize
    requires upload in v.uploads && Matches(v.uploads[upload], tags) && |tags| == Count(c)
    requires forall n :: n in v.uploads[upload] ==> HasRange(c, n) && v.uploads[upload][n].body == Body(c, n)
    ensures IsTarget(c, Some(Concat(Bodies(v.uploads[upload], |tags|))))
  {
    forall i | 0 <= i < |c.ranges| ensures c.ranges[i].Some? && Bodies(v.uploads[upload], |tags|)[i] == Contents(c)[i] {
      assert i in v.uploads[upload];
    }
    assert Bodies(v.uploads[upload], |tags|) == Contents(c);
  }

  /** Azure commits the blocks a list names: each is its range of the source. */
  lemma CommittedIsTarget(c: Config, v: Server)
    requires !c.badPartSize
    requires forall i :: 0 <= i < Count(c) ==> BlockOk(c, v, i) && HasBlock(v, i)
    ensures IsTarget(c, Some(Concat(Blocks(v, Count(c)))))
  {
    forall i | 0 <= i < |c.ranges| ensures c.ranges[i].Some? && Blocks(v, Count(c))[i] == Contents(c)[i] {
      assert BlockOk(c, v, i);
    }
    assert Blocks(v, Count(c)) == Contents(c);
  }

  /** What the store does with one of the client's requests. */
  lemma HandleGrows(c: Config, s: State, call: nat, tag: nat, before: Option<Bytes>)
    requires Inv(c, s, before) && call < |s.sent|
    ensures var (w, reply) := Handle(c.kind, s.server, s.sent[call], tag);
            var after := s.removed || s.aborted || IsTarget(c, w.stored);
            && Grows(c, s.server, w, s.upload, GoneRightly(c, s), after)
            && ReplyOk(c, s.sent, s.upload, w, after, call, reply)
            && (c.kind.Minio? ==> UploadsOk(c, w, s.upload, after))
            && (c.kind.Azure? ==> BlocksOk(c, w, s.parts))
  {
    var r := s.sent[call];
    assert RequestOk(c, r, s.upload, s.tags, s.completeSent, s.aborted);
    match r
    case Put(u, n, body) => PutGrows(c, s, call, tag, before);
    case Complete(u, tags) =>
      if c.kind.Azure? {
        CommitGrows(c, s, call, tag, before);
      } else {
        CompleteGrows(c, s, call, tag, before);
      }
    case _ => OtherGrows(c, s, call, tag, before);
  }

  /** A start, an abort or a question. */
  lemma OtherGrows(c: Config, s: State, call: nat, tag: nat, before: Option<Bytes>)
    requires Inv(c, s, before) && call < |s.sent| && !s.sent[call].Put? && !s.sent[call].Complete?
    ensures var (w, reply) := Handle(c.kind, s.server, s.sent[call], tag);
            var after := s.removed || s.aborted || IsTarget(c, w.stored);
            && Grows(c, s.server, w, s.upload, GoneRightly(c, s), after)
            && ReplyOk(c, s.sent, s.upload, w, after, call, reply)
            && (c.kind.Minio? ==> UploadsOk(c, w, s.upload, after))
            && (c.kind.Azure? ==> BlocksOk(c, w, s.parts))
  {
    assert RequestOk(c, s.sent[call], s.upload, s.tags, s.completeSent, s.aborted);
  }

  lemma PutGrows(c: Config, s: State, call: nat, tag: nat, before: Option<Bytes>)
    requires Inv(c, s, before) && call < |s.sent| && s.sent[call].Put?
    ensures var (w, reply) := Handle(c.kind, s.server, s.sent[call], tag);
            var after := s.removed || s.aborted || IsTarget(c, w.stored);
            && Grows(c, s.server, w, s.upload, GoneRightly(c, s), after)
            && ReplyOk(c, s.sent, s.upload, w, after, call, reply)
            && (c.kind.Minio? ==> UploadsOk(c, w, s.upload, after))
            && (c.kind.Azure? ==> BlocksOk(c, w, s.parts))
  {
    assert RequestOk(c, s.sent[call], s.upload, s.tags, s.completeSent, s.aborted);
  }

  lemma CompleteGrows(c: Config, s: State, call: nat, tag: nat, before: Option<Bytes>)
    requires Inv(c, s, before) && call < |s.sent| && s.sent[call].Complete? && c.kind.Minio?
    ensures var (w, reply) := Handle(c.kind, s.server, s.sent[call], tag);
            var after := s.removed || s.aborted || IsTarget(c, w.stored);
            && Grows(c, s.server, w, s.upload, GoneRightly(c, s), after)
            && ReplyOk(c, s.sent, s.upload, w, after, call, reply)
            && UploadsOk(c, w, s.upload, after)
  {
    var u, tags := s.sent[call].upload, s.sent[call].tags;
    assert RequestOk(c, s.sent[call], s.upload, s.tags, s.completeSent, s.aborted);
    if u in s.server.uploads && Matches(s.server.uploads[u], tags) {
      JoinedIsTarget(c, s.server, u, tags);
    }
  }

  lemma CommitGrows(c: Config, s: State, call: nat, tag: nat, before: Option<Bytes>)
    requires Inv(c, s, before) && call < |s.sent| && s.sent[call].Complete? && c.kind.Azure?
    ensures var (w, reply) := Handle(c.kind, s.server, s.sent[call], tag);
            var after := s.removed || s.aborted || IsTarget(c, w.stored);
            && Grows(c, s.server, w, s.upload, GoneRightly(c, s), after)
            && ReplyOk(c, s.sent, s.upload, w, after, call, reply)
            && BlocksOk(c, w, s.parts)
  {
    assert RequestOk(c, s.sent[call], s.upload, s.tags, s.completeSent, s.aborted);
    AllBlocks(c, s);
    CommittedIsTarget(c, s.server);
  }

  /** Once every part has landed, every block is there. */
  lemma AllBlocks(c: Config, s: State)
    requires AllLanded(c, s.parts) && BlocksOk(c, s.server, s.parts)
    ensures forall i :: 0 <= i < Count(c) ==> BlockOk(c, s.server, i) && HasBlock(s.server, i)
  {
    forall i | 0 <= i < Count(c) ensures BlockOk(c, s.server, i) && HasBlock(s.server, i) {
      assert s.parts[i].Landed?;
    }
  }

  lemma ServeKeepsServer(c: Config, s: State, call: nat, tag: nat, before: Option<Bytes>)
    requires Inv(c, s, before) && call < |s.sent|
    ensures ServerOk(c, ApplyWorld(c, s, Serve(call, tag)), before)
  {
    var t := ApplyWorld(c, s, Serve(call, tag));
    var (w, reply) := Handle(c.kind, s.server, s.sent[call], tag);
    HandleGrows(c, s, call, tag, before);
    RepliesGrow(c, s, w, GoneRightly(c, t), call, reply);
  }

  // ---- every run ----

  lemma WorldKeepsInv(c: Config, s: State, w: World, before: Option<Bytes>)
    requires Inv(c, s, before) && (w.Serve? ==> w.call < |s.sent|)
    ensures Inv(c, ApplyWorld(c, s, w), before)
  {
    WorldKeepsClient(c, s, w);
    if w.Serve? {
      ServeKeepsServer(c, s, w.call, w.tag, before);
    } else {
      OutsideKeepsServer(c, s, w, before);
    }
  }

  lemma BeginKeepsInv(c: Config, s: State, b: Begin, before: Option<Bytes>)
    requires Inv(c, s, before) && BeginEnabled(c, s, b)
    ensures Inv(c, ApplyBegin(c, s, b), before)
  {
    BeginKeepsClient(c, s, b);
    BeginKeepsSent(c, s, b);
    BeginKeepsServer(c, s, b, before);
  }

  lemma LaunchKeepsInv(c: Config, s: State, l: Launch, before: Option<Bytes>)
    requires Inv(c, s, before) && LaunchEnabled(c, s, l)
    ensures Inv(c, ApplyLaunch(c, s, l), before)
  {
    LaunchKeepsClient(c, s, l);
    LaunchKeepsSent(c, s, l);
    LaunchKeepsServer(c, s, l, before);
  }

  lemma PartKeepsInv(c: Config, s: State, i: nat, p: OnPart, before: Option<Bytes>)
    requires Inv(c, s, before) && PartEnabled(c, s, i, p)
    ensures Inv(c, ApplyPart(c, s, i, p), before)
  {
    if p.PutOk? {
      PartStored(c, s, i, p.tag, before);
    }
    PartKeepsClient(c, s, i, p);
    PartKeepsSent(c, s, i, p);
    PartKeepsServer(c, s, i, p, before);
  }

  lemma FinishKeepsInv(c: Config, s: State, f: Finish, before: Option<Bytes>)
    requires Inv(c, s, before) && FinishEnabled(c, s, f)
    ensures Inv(c, ApplyFinish(c, s, f), before)
  {
    FinishKeepsClient(c, s, f);
    FinishKeepsSent(c, s, f);
    FinishKeepsCalls(c, s, f);
    FinishKeepsServer(c, s, f, before);
  }

  lemma StepKeepsInv(c: Config, s: State, a: Action, before: Option<Bytes>)
    requires Inv(c, s, before) && Enabled(c, s, a)
    ensures Inv(c, Apply(c, s, a), before)
  {
    match a
    case W(w) => WorldKeepsInv(c, s, w, before);
    case B(b) => BeginKeepsInv(c, s, b, before);
    case L(l) => LaunchKeepsInv(c, s, l, before);
    case P(i, p) => PartKeepsInv(c, s, i, p, before);
    case F(f) => FinishKeepsInv(c, s, f, before);
  }

  lemma {:induction false} RunKeepsInv(c: Config, s: State, run: seq<Action>, before: Option<Bytes>)
    requires Inv(c, s, before) && Legal(c, s, run)
    ensures Inv(c, After(c, s, run), before)
    decreases |run|
  {
    if run != [] {
      StepKeepsInv(c, s, run[0], before);
      RunKeepsInv(c, Apply(c, s, run[0]), run[1..], before);
    }
  }

  /** The store numbers its uploads and gives no number twice. */
  predicate Numbered(server: Server) {
    forall u :: u in server.uploads ==> u < server.next
  }

  lemma TransferIsTarget(kind: Kind, source: Bytes, size: nat, partSize: int, slots: nat, b: Option<Bytes>)
    ensures var c := Transfer(kind, source, size, partSize, slots);
            && WellSized(c)
            && (IsTarget(c, b) <==> partSize > 0 && size <= |source| && b == Some(source[..size]))
  {
    var c := Transfer(kind, source, size, partSize, slots);
    if partSize > 0 {
      if AllThere(c) {
        forall i | 0 <= i < |c.ranges|
          ensures Fits(source, size, partSize, i) && Contents(c)[i] == Range(source, size, partSize, i)
        {
          assert c.ranges[i].Some?;
        }
        RangesJoin(source, size, partSize, Contents(c));
      }
      if size <= |source| {
        forall i | 0 <= i < |c.ranges| ensures c.ranges[i].Some? {
          PartBounds(size, partSize, i);
        }
      }
    }
  }

  lemma {:induction false} LandedAdds(c: Config, parts: seq<PartState>)
    requires |parts| <= |c.ranges| && AllThere(c)
    requires forall i :: 0 <= i < |parts| ==> parts[i].Landed?
    ensures LandedBytes(c, parts) == |Concat(Contents(c)[..|parts|])|
  {
    var n := |parts|;
    if n > 0 {
      LandedAdds(c, parts[..n - 1]);
      assert Contents(c)[..n][..n - 1] == Contents(c)[..n - 1];
    }
  }

  /** In every run, whatever is lost, delayed, cancelled or refused and in
      whatever order the parts go:
      - the key holds what it held before, or the first size bytes of the source,
        and nothing in between;
      - no part is tried more than three times, and no more than slots at once. */
  lemma AllOrNothing(kind: Kind, source: Bytes, size: nat, partSize: int, slots: nat, server: Server, run: seq<Action>)
    requires Numbered(server) && Legal(Transfer(kind, source, size, partSize, slots), Init(server), run)
    ensures var t := After(Transfer(kind, source, size, partSize, slots), Init(server), run);
            && (t.server.stored == server.stored || (size <= |source| && t.server.stored == Some(source[..size])))
            && (forall i :: 0 <= i < |t.tries| ==> t.tries[i] <= ATTEMPTS)
            && RunningCount(t.parts) <= slots
  {
    var c := Transfer(kind, source, size, partSize, slots);
    TransferIsTarget(kind, source, size, partSize, slots, server.stored);
    RunKeepsInv(c, Init(server), run, server.stored);
    var t := After(c, Init(server), run);
    TransferIsTarget(kind, source, size, partSize, slots, t.server.stored);
    forall i | 0 <= i < |t.tries| ensures t.tries[i] <= ATTEMPTS {
      assert PartOk(c, i, t.parts[i], t.tags[i], t.tries[i], t.failed);
    }
  }

  /** A nil return means the object is the source as far as its listed size, all
      of which was reported written; after an error the upload that was started
      has been aborted, and after nil it has not. Where somebody else discarded
      the upload meanwhile, the S3 client's check of a lost response knows the
      object by its size alone. */
  lemma NilMeansStored(kind: Kind, source: Bytes, size: nat, partSize: int, slots: nat, server: Server, run: seq<Action>)
    requires Numbered(server) && Legal(Transfer(kind, source, size, partSize, slots), Init(server), run)
    ensures var t := After(Transfer(kind, source, size, partSize, slots), Init(server), run);
            && (t.main == Returned(true) && (kind.Azure? || !t.removed) ==>
                  size <= |source| && t.server.stored == Some(source[..size]))
            && (t.main == Returned(true) ==> t.server.stored.Some? && |t.server.stored.value| == size && t.written == size)
            && (t.main == Returned(true) ==> !t.aborted)
            && (t.main == Returned(false) && t.upload.Some? ==> t.aborted)
  {
    var c := Transfer(kind, source, size, partSize, slots);
    TransferIsTarget(kind, source, size, partSize, slots, server.stored);
    RunKeepsInv(c, Init(server), run, server.stored);
    var t := After(c, Init(server), run);
    TransferIsTarget(kind, source, size, partSize, slots, t.server.stored);
    if t.main == Returned(true) {
      LandedIsAll(c, t);
    }
  }

  /** With every part landed, every range was there, and all bytes were counted. */
  lemma LandedIsAll(c: Config, t: State)
    requires ClientOk(c, t) && AllLanded(c, t.parts)
    ensures AllThere(c) && t.written == |Concat(Contents(c))|
  {
    forall i | 0 <= i < |c.ranges| ensures c.ranges[i].Some? {
      assert PartOk(c, i, t.parts[i], t.tags[i], t.tries[i], t.failed);
    }
    LandedAdds(c, t.parts);
    assert Contents(c)[..|t.parts|] == Contents(c);
  }
}
