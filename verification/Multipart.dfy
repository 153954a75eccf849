/** runMultipart and the uploads it drives, as a protocol: the client's steps,
    the store's, and the network between them, which may lose any response and
    hold any request back to act on it later
    (data-mig/storagex/s3-multipart.go, s3-minio.go, s3-azure.go).

    A run is a list of actions. Every action names who moves and which way a
    choice falls: a part whose source fails to open, a response that never comes,
    a cancellation. The store may act on a request any number of times and in any
    order once it is sent, also long after the client gave up on the response. */
module Multipart {
  import opened Options
  import opened Ranges

  datatype Kind = Minio | Azure

  /** ranges[i] is what opening part i's range of the source yields: its bytes,
      or None where the source does not have all of them. badPartSize says the
      provider chose a part size that is not positive. */
  datatype Config = Config(kind: Kind, ranges: seq<Option<Bytes>>, size: nat, badPartSize: bool, slots: nat)

  const ATTEMPTS := 3 // s3Attempts

  /** The transfer of the first size bytes of source in parts of partSize. */
  function Transfer(kind: Kind, source: Bytes, size: nat, partSize: int, slots: nat): Config {
    if partSize <= 0 then Config(kind, [], size, true, slots)
    else Config(kind, seq(Parts(size, partSize), i requires 0 <= i < Parts(size, partSize) =>
      RangeOf(source, size, partSize, i)), size, false, slots)
  }

  function RangeOf(source: Bytes, size: nat, partSize: nat, i: nat): Option<Bytes>
    requires partSize > 0 && i < Parts(size, partSize)
  {
    if Fits(source, size, partSize, i) then Some(Range(source, size, partSize, i)) else None
  }

  function Count(c: Config): nat {
    |c.ranges|
  }

  predicate HasRange(c: Config, i: nat) {
    i < |c.ranges| && c.ranges[i].Some?
  }

  function Body(c: Config, i: nat): Bytes
    requires HasRange(c, i)
  {
    c.ranges[i].value
  }

  // ---- the store ----

  datatype Part = Part(tag: nat, body: Bytes)

  /** stored is what the key holds. On S3, uploads are the multipart uploads in
      progress; on Azure, staged and committed are the key's blocks by number. */
  datatype Server = Server(stored: Option<Bytes>, uploads: map<nat, map<nat, Part>>, next: nat,
                           staged: map<nat, Bytes>, committed: map<nat, Bytes>)

  datatype Request =
    | Start
    | Put(upload: nat, part: nat, body: Bytes)
    | Complete(upload: nat, tags: seq<Option<nat>>)
    | Abort(upload: nat)
    | Stat

  datatype Reply = Started(upload: nat) | Stored(tag: nat) | Completed | Refused | NoSuchUpload | SizeIs(bytes: Option<nat>) | Aborted

  /** The listed parts are all there, under the tags they were stored with. */
  predicate Matches(parts: map<nat, Part>, tags: seq<Option<nat>>) {
    forall i :: 0 <= i < |tags| ==> tags[i].Some? && i in parts && parts[i].tag == tags[i].value
  }

  function Bodies(parts: map<nat, Part>, n: nat): seq<Bytes>
    requires forall i :: 0 <= i < n ==> i in parts
  {
    seq(n, i requires 0 <= i < n => parts[i].body)
  }

  predicate HasBlock(v: Server, i: nat) {
    i in v.staged || i in v.committed
  }

  /** A block list names the latest block of an ID: the staged one, or else the
      one the blob was last committed with. */
  function Block(v: Server, i: nat): Bytes
    requires HasBlock(v, i)
  {
    if i in v.staged then v.staged[i] else v.committed[i]
  }

  function Blocks(v: Server, n: nat): seq<Bytes>
    requires forall i :: 0 <= i < n ==> HasBlock(v, i)
  {
    seq(n, i requires 0 <= i < n => Block(v, i))
  }

  function WithPart(parts: map<nat, Part>, n: nat, part: Part): map<nat, Part> {
    parts[n := part]
  }

  /** What the store does with a request. tag is the tag it picks for a part. */
  function Handle(k: Kind, v: Server, r: Request, tag: nat): (Server, Reply) {
    match r
    case Start => (v.(uploads := v.uploads[v.next := map[]], next := v.next + 1), Started(v.next))
    case Put(u, n, body) =>
      if k.Azure? then (v.(staged := v.staged[n := body]), Stored(n))
      else if u !in v.uploads then (v, NoSuchUpload)
      else (v.(uploads := v.uploads[u := WithPart(v.uploads[u], n, Part(tag, body))]), Stored(tag))
    case Complete(u, tags) =>
      if k.Azure? then
        if forall i :: 0 <= i < |tags| ==> tags[i] == Some(i) && HasBlock(v, i) then
          (v.(stored := Some(Concat(Blocks(v, |tags|))), staged := map[],
              committed := map i: nat | 0 <= i < |tags| :: Block(v, i)), Completed)
        else (v, Refused)
      else if u !in v.uploads then (v, NoSuchUpload)
      else if Matches(v.uploads[u], tags) then
        (v.(stored := Some(Concat(Bodies(v.uploads[u], |tags|))), uploads := v.uploads - {u}), Completed)
      else (v, Refused)
    case Abort(u) => (v.(uploads := v.uploads - {u}), Aborted)
    case Stat => (v, SizeIs(if v.stored.Some? then Some(|v.stored.value|) else None))
  }

  // ---- the client ----

  /** One part's goroutine: in withRetry's attempt-th try, about to open its
      range or waiting for call's response; waiting to try again; or returned. */
  datatype PartState = Idle | Opening(attempt: nat) | Sending(attempt: nat, call: nat) | Backoff(attempt: nat) | Landed | Failed

  predicate Running(p: PartState) {
    p.Opening? || p.Sending? || p.Backoff?
  }

  /** Where runMultipart itself is. A Spawning client has started parts below i;
      checked says it found the group's context live before starting part i. */
  datatype Main =
    | StartReady(attempt: nat) | StartWait(attempt: nat, call: nat) | StartBackoff(attempt: nat)
    | Planning
    | Spawning(i: nat, checked: bool) | Joining
    | CompleteReady(attempt: nat) | CompleteWait(attempt: nat, call: nat, retry: bool) | CompleteBackoff(attempt: nat)
    | StatWait(call: nat)
    | Aborting
    | Returned(ok: bool)

  /** A call is known by its place in sent. tags are minioUpload's etags, or
      azureUpload's ids; tries counts the attempts at each part; completeSent is
      minioUpload's completed. removed says somebody else discarded an upload. */
  datatype State = State(
    server: Server, sent: seq<Request>, replies: set<(nat, Reply)>, removed: bool,
    cancelled: bool, failed: bool, main: Main, upload: Option<nat>,
    parts: seq<PartState>, tags: seq<Option<nat>>, tries: seq<nat>, written: int,
    completeSent: bool, aborted: bool)

  /** The surroundings: a cancellation from outside, somebody else discarding an
      upload, the store acting on a request. */
  datatype World = Cancel | Remove(upload: nat) | Serve(call: nat, tag: nat)

  /** startMultipart, under withRetry. */
  datatype Begin = StartSend | StartOk(upload: nat) | StartFail(permanent: bool) | StartAgain | StartGiveUp

  /** The loop that starts the parts, and the wait for them. */
  datatype Launch = Plan | SpawnCheck | SpawnGo | Join

  /** One part's goroutine. */
  datatype OnPart = OpenOk | OpenFail(permanent: bool) | PutOk(tag: nat) | PutFail(permanent: bool) | PartAgain | PartGiveUp

  /** complete, under withRetry, and the deferred abort. */
  datatype Finish = CompleteSend | CompleteOk | CompleteGone | CompleteFail(permanent: bool) | CompleteAgain | CompleteGiveUp
                  | StatOk | StatFail | AbortCall

  datatype Action = W(w: World) | B(b: Begin) | L(l: Launch) | P(i: nat, p: OnPart) | F(f: Finish)

  function Init(server: Server): State {
    State(server, [], {}, false, false, false, StartReady(1), None, [], [], [], 0, false, false)
  }

  function RunningCount(parts: seq<PartState>): nat {
    if parts == [] then 0 else (if Running(parts[|parts| - 1]) then 1 else 0) + RunningCount(parts[..|parts| - 1])
  }

  /** gctx.Err() != nil. */
  predicate Stopped(s: State) {
    s.cancelled || s.failed
  }

  predicate IsPart(s: State, i: nat) {
    i < |s.parts| == |s.tags| == |s.tries|
  }

  predicate BeginEnabled(c: Config, s: State, b: Begin) {
    match b
    case StartSend => s.main.StartReady?
    case StartOk(u) => s.main.StartWait? && (s.main.call, Started(u)) in s.replies
    case StartFail(permanent) => s.main.StartWait? || (s.main.StartReady? && permanent)
    case StartAgain => s.main.StartBackoff?
    case StartGiveUp => s.main.StartBackoff? && s.cancelled
  }

  function BeginMain(c: Config, s: State, b: Begin): Main
    requires BeginEnabled(c, s, b)
  {
    match b
    case StartSend => if c.kind.Azure? then Planning else StartWait(s.main.attempt, |s.sent|)
    case StartOk(_) => Planning
    case StartFail(permanent) => if permanent || s.cancelled || s.main.attempt >= ATTEMPTS then Returned(false) else StartBackoff(s.main.attempt)
    case StartAgain => StartReady(s.main.attempt + 1)
    case StartGiveUp => Returned(false)
  }

  /** Azure keeps no upload: nothing is sent, and the client has its handle. */
  function ApplyBegin(c: Config, s: State, b: Begin): State
    requires BeginEnabled(c, s, b)
  {
    s.(main := BeginMain(c, s, b),
       sent := if b.StartSend? && c.kind.Minio? then s.sent + [Start] else s.sent,
       upload := if b.StartSend? && c.kind.Azure? then Some(0) else if b.StartOk? then Some(b.upload) else s.upload)
  }

  predicate LaunchEnabled(c: Config, s: State, l: Launch) {
    match l
    case Plan => s.main.Planning?
    case SpawnCheck => s.main.Spawning? && !s.main.checked
    case SpawnGo => s.main.Spawning? && s.main.checked && RunningCount(s.parts) < c.slots && IsPart(s, s.main.i)
    case Join => s.main.Joining? && NoneRunning(s.parts)
  }

  predicate NoneRunning(parts: seq<PartState>) {
    forall i :: 0 <= i < |parts| ==> !Running(parts[i])
  }

  function ApplyLaunch(c: Config, s: State, l: Launch): State
    requires LaunchEnabled(c, s, l)
  {
    if l.Plan? && !c.badPartSize then
      s.(parts := seq(Count(c), _ => Idle), tags := seq(Count(c), _ => None), tries := seq(Count(c), _ => 0), main := Spawning(0, false))
    else if l.SpawnGo? then
      var i := s.main.i;
      s.(parts := s.parts[i := Opening(1)], tries := s.tries[i := s.tries[i] + 1], main := Spawning(i + 1, false))
    else s.(main := LaunchMain(c, s, l))
  }

  /** Where runMultipart is after a step that touches no part. */
  function LaunchMain(c: Config, s: State, l: Launch): Main
    requires LaunchEnabled(c, s, l) && !l.SpawnGo?
  {
    match l
    case Plan => Aborting // no usable part size
    case SpawnCheck => if s.main.i >= |s.parts| || Stopped(s) then Joining else Spawning(s.main.i, true)
    case Join => if Stopped(s) then Aborting else CompleteReady(1)
  }

  predicate PartEnabled(c: Config, s: State, i: nat, p: OnPart) {
    && IsPart(s, i)
    && match p
       case OpenOk => s.parts[i].Opening? && HasRange(c, i) && s.upload.Some?
       case OpenFail(permanent) => s.parts[i].Opening?
       case PutOk(tag) => s.parts[i].Sending? && (s.parts[i].call, Stored(tag)) in s.replies && HasRange(c, i)
       case PutFail(permanent) => s.parts[i].Sending?
       case PartAgain => s.parts[i].Backoff?
       case PartGiveUp => s.parts[i].Backoff? && Stopped(s)
  }

  /** withRetry's answer to a failed attempt at a part: give up on a permanent
      error, a stopped group or the last attempt, or wait and try again. */
  function Retried(s: State, attempt: nat, permanent: bool): PartState {
    if permanent || Stopped(s) || attempt >= ATTEMPTS then Failed else Backoff(attempt)
  }

  function PartNext(c: Config, s: State, i: nat, p: OnPart): PartState
    requires PartEnabled(c, s, i, p)
  {
    match p
    case OpenOk => Sending(s.parts[i].attempt, |s.sent|)
    case OpenFail(permanent) => Retried(s, s.parts[i].attempt, permanent)
    case PutOk(_) => Landed
    case PutFail(permanent) => Retried(s, s.parts[i].attempt, permanent)
    case PartAgain => Opening(s.parts[i].attempt + 1)
    case PartGiveUp => Failed
  }

  /** A part that gives up stops the group. */
  function ApplyPart(c: Config, s: State, i: nat, p: OnPart): State
    requires PartEnabled(c, s, i, p)
  {
    var next := PartNext(c, s, i, p);
    s.(parts := s.parts[i := next],
       failed := s.failed || next.Failed?,
       sent := if p.OpenOk? then s.sent + [Put(s.upload.value, i, Body(c, i))] else s.sent,
       tags := if p.PutOk? then s.tags[i := Some(p.tag)] else s.tags,
       tries := if p.PartAgain? then s.tries[i := s.tries[i] + 1] else s.tries,
       written := if p.PutOk? then s.written + |Body(c, i)| else s.written)
  }

  predicate FinishEnabled(c: Config, s: State, f: Finish) {
    match f
    case CompleteSend => s.main.CompleteReady? && s.upload.Some?
    case CompleteOk => s.main.CompleteWait? && (s.main.call, Completed) in s.replies
    case CompleteGone => s.main.CompleteWait? && c.kind.Minio? && s.main.retry && (s.main.call, NoSuchUpload) in s.replies
    case CompleteFail(permanent) => s.main.CompleteWait?
    case CompleteAgain => s.main.CompleteBackoff?
    case CompleteGiveUp => s.main.CompleteBackoff? && s.cancelled
    case StatOk => s.main.StatWait? && (s.main.call, SizeIs(Some(c.size))) in s.replies
    case StatFail => s.main.StatWait?
    case AbortCall => s.main.Aborting? && s.upload.Some?
  }

  function FinishMain(c: Config, s: State, f: Finish): Main
    requires FinishEnabled(c, s, f)
  {
    match f
    case CompleteSend => CompleteWait(s.main.attempt, |s.sent|, s.completeSent)
    case CompleteOk => Returned(true)
    case CompleteGone => StatWait(|s.sent|)
    case CompleteFail(permanent) => if permanent || s.cancelled || s.main.attempt >= ATTEMPTS then Aborting else CompleteBackoff(s.main.attempt)
    case CompleteAgain => CompleteReady(s.main.attempt + 1)
    case CompleteGiveUp => Aborting
    case StatOk => Returned(true)
    case StatFail => Aborting
    case AbortCall => Returned(false)
  }

  /** What is sent; on Azure there is nothing to abort. */
  function FinishSends(c: Config, s: State, f: Finish): seq<Request>
    requires FinishEnabled(c, s, f)
  {
    if f.CompleteSend? then [Complete(s.upload.value, s.tags)]
    else if f.CompleteGone? then [Stat]
    else if f.AbortCall? && c.kind.Minio? then [Abort(s.upload.value)]
    else []
  }

  function ApplyFinish(c: Config, s: State, f: Finish): State
    requires FinishEnabled(c, s, f)
  {
    s.(main := FinishMain(c, s, f), sent := s.sent + FinishSends(c, s, f),
       completeSent := s.completeSent || f.CompleteSend?, aborted := s.aborted || f.AbortCall?)
  }

  function ApplyWorld(c: Config, s: State, w: World): State
    requires w.Serve? ==> w.call < |s.sent|
  {
    match w
    case Cancel => s.(cancelled := true)
    case Remove(u) => s.(server := s.server.(uploads := s.server.uploads - {u}), removed := true)
    case Serve(call, tag) =>
      var (server, reply) := Handle(c.kind, s.server, s.sent[call], tag);
      s.(server := server, replies := s.replies + {(call, reply)})
  }

  predicate Enabled(c: Config, s: State, a: Action) {
    match a
    case W(w) => w.Serve? ==> w.call < |s.sent|
    case B(b) => BeginEnabled(c, s, b)
    case L(l) => LaunchEnabled(c, s, l)
    case P(i, p) => PartEnabled(c, s, i, p)
    case F(f) => FinishEnabled(c, s, f)
  }

  function Apply(c: Config, s: State, a: Action): State
    requires Enabled(c, s, a)
  {
    match a
    case W(w) => ApplyWorld(c, s, w)
    case B(b) => ApplyBegin(c, s, b)
    case L(l) => ApplyLaunch(c, s, l)
    case P(i, p) => ApplyPart(c, s, i, p)
    case F(f) => ApplyFinish(c, s, f)
  }

  /** Every action of run can be taken in its turn. */
  predicate Legal(c: Config, s: State, run: seq<Action>)
    decreases |run|
  {
    run == [] || (Enabled(c, s, run[0]) && Legal(c, Apply(c, s, run[0]), run[1..]))
  }

  /** The state a run ends in. */
  function After(c: Config, s: State, run: seq<Action>): State
    requires Legal(c, s, run)
    decreases |run|
  {
    if run == [] then s else After(c, Apply(c, s, run[0]), run[1..])
  }
}
