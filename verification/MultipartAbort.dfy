/** What the abort of a failed S3 upload comes to on the store. */
module MultipartAbort {
  import opened Options
  import opened Ranges
  import opened Multipart
  import opened MultipartSafety

  /** aborted is no flag alone: the request that discards the upload was sent. */
  ghost predicate AbortSent(c: Config, s: State) {
    s.aborted && c.kind.Minio? ==> s.upload.Some? && Abort(s.upload.value) in s.sent
  }

  /** All but the start and the abort leave what is known of the upload alone. */
  ghost predicate Rests(s: State, t: State) {
    t.aborted == s.aborted && t.upload == s.upload && s.sent <= t.sent
  }

  lemma WorldRests(c: Config, s: State, w: World)
    requires w.Serve? ==> w.call < |s.sent|
    ensures Rests(s, ApplyWorld(c, s, w))
  {
  }

  lemma FinishAborts(c: Config, s: State, f: Finish)
    requires FinishEnabled(c, s, f)
    ensures var t := ApplyFinish(c, s, f);
            Rests(s, t) || (f.AbortCall? && t.upload == s.upload && s.upload.Some? && (c.kind.Minio? ==> t.sent == s.sent + [Abort(s.upload.value)]))
  {
  }

  lemma BeginIsNotAborted(c: Config, s: State, b: Begin)
    requires ClientOk(c, s) && BeginEnabled(c, s, b)
    ensures !ApplyBegin(c, s, b).aborted
  {
  }

  lemma StepKeepsAbortSent(c: Config, s: State, a: Action)
    requires ClientOk(c, s) && AbortSent(c, s) && Enabled(c, s, a)
    ensures AbortSent(c, Apply(c, s, a))
  {
    match a
    case W(w) => WorldRests(c, s, w);
    case B(b) => BeginIsNotAborted(c, s, b);
    case L(l) => LaunchRests(c, s, l);
    case P(i, p) => PartRests(c, s, i, p);
    case F(f) => FinishAborts(c, s, f);
  }

  lemma {:induction false} RunKeepsAbortSent(c: Config, s: State, run: seq<Action>, before: Option<Bytes>)
    requires Inv(c, s, before) && AbortSent(c, s) && Legal(c, s, run)
    ensures AbortSent(c, After(c, s, run))
    decreases |run|
  {
    if run != [] {
      StepKeepsAbortSent(c, s, run[0]);
      StepKeepsInv(c, s, run[0], before);
      RunKeepsAbortSent(c, Apply(c, s, run[0]), run[1..], before);
    }
  }

  /** After an error, an upload that was started on S3 has been sent its abort. */
  lemma ErrorSendsAbort(source: Bytes, size: nat, partSize: int, slots: nat, server: Server, run: seq<Action>)
    requires Numbered(server) && Legal(Transfer(Minio, source, size, partSize, slots), Init(server), run)
    ensures var t := After(Transfer(Minio, source, size, partSize, slots), Init(server), run);
            t.main == Returned(false) && t.upload.Some? ==> Abort(t.upload.value) in t.sent
  {
    var c := Transfer(Minio, source, size, partSize, slots);
    TransferIsTarget(Minio, source, size, partSize, slots, server.stored);
    RunKeepsInv(c, Init(server), run, server.stored);
    RunKeepsAbortSent(c, Init(server), run, server.stored);
    NilMeansStored(Minio, source, size, partSize, slots, server, run);
  }

  /** An upload that is gone stays gone: its number is not given again, and a part
      that arrives late does not bring it back. */
  ghost predicate Gone(v: Server, u: nat) {
    u < v.next && u !in v.uploads
  }

  lemma GoneStaysGone(k: Kind, v: Server, u: nat, r: Request, tag: nat)
    requires Gone(v, u)
    ensures Gone(Handle(k, v, r, tag).0, u)
  {
  }

  /** The client's own steps are not the store's. */
  lemma BeginIsNoStore(c: Config, s: State, b: Begin)
    requires BeginEnabled(c, s, b)
    ensures ApplyBegin(c, s, b).server == s.server
  {
  }

  lemma FinishIsNoStore(c: Config, s: State, f: Finish)
    requires FinishEnabled(c, s, f)
    ensures ApplyFinish(c, s, f).server == s.server
  {
  }

  lemma WorldLeavesGone(c: Config, s: State, u: nat, w: World)
    requires Gone(s.server, u) && (w.Serve? ==> w.call < |s.sent|)
    ensures Gone(ApplyWorld(c, s, w).server, u)
  {
    if w.Serve? {
      GoneStaysGone(c.kind, s.server, u, s.sent[w.call], w.tag);
    }
  }

  lemma StepLeavesGone(c: Config, s: State, u: nat, a: Action)
    requires Gone(s.server, u) && Enabled(c, s, a)
    ensures Gone(Apply(c, s, a).server, u)
  {
    match a
    case W(w) => WorldLeavesGone(c, s, u, w);
    case B(b) => BeginIsNoStore(c, s, b);
    case L(l) => LaunchRests(c, s, l);
    case P(i, p) => PartRests(c, s, i, p);
    case F(f) => FinishIsNoStore(c, s, f);
  }

  lemma {:induction false} RunLeavesGone(c: Config, s: State, u: nat, run: seq<Action>)
    requires Gone(s.server, u) && Legal(c, s, run)
    ensures Gone(After(c, s, run).server, u)
    decreases |run|
  {
    if run != [] {
      StepLeavesGone(c, s, u, run[0]);
      RunLeavesGone(c, Apply(c, s, run[0]), u, run[1..]);
    }
  }

  /** Once the store has acted on the abort, the upload and all its parts are gone
      for good, whatever requests are still on their way and whatever else goes on. */
  lemma AbortDiscards(source: Bytes, size: nat, partSize: int, slots: nat, server: Server, run: seq<Action>, call: nat, tag: nat, later: seq<Action>)
    requires Numbered(server) && Legal(Transfer(Minio, source, size, partSize, slots), Init(server), run)
    requires var t := After(Transfer(Minio, source, size, partSize, slots), Init(server), run);
             && call < |t.sent| && t.upload.Some? && t.sent[call] == Abort(t.upload.value)
             && Legal(Transfer(Minio, source, size, partSize, slots), ApplyWorld(Transfer(Minio, source, size, partSize, slots), t, Serve(call, tag)), later)
    ensures var c := Transfer(Minio, source, size, partSize, slots);
            var t := After(c, Init(server), run);
            t.upload.value !in After(c, ApplyWorld(c, t, Serve(call, tag)), later).server.uploads
  {
    var c := Transfer(Minio, source, size, partSize, slots);
    TransferIsTarget(Minio, source, size, partSize, slots, server.stored);
    RunKeepsInv(c, Init(server), run, server.stored);
    var t := After(c, Init(server), run);
    RunLeavesGone(c, ApplyWorld(c, t, Serve(call, tag)), t.upload.value, later);
  }
}
