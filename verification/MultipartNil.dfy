/** When a transfer in parts can return nil, and exactly when its nil means that
    the object is the source. */
module MultipartNil {
  import opened Options
  import opened Ranges
  import opened Multipart
  import opened MultipartSafety
  import opened MultipartRetry

  /** A transfer that has all its ranges can return nil, and nobody else need have
      a hand in it. */
  lemma CanSucceed(c: Config, server: Server) returns (run: seq<Action>, t: State)
    requires !c.badPartSize && AllThere(c) && c.slots > 0
    ensures Reaches(c, Init(server), run, t) && t.main == Returned(true) && !t.removed
  {
    run, t := PassesSetbacks(c, server, NoSetbacks(c));
  }

  // ---- when nil is returned at all ----

  /** Nil needs every byte of the listed size, whatever else goes on. */
  lemma NilNeedsSource(kind: Kind, source: Bytes, size: nat, partSize: int, slots: nat, server: Server, run: seq<Action>)
    requires Numbered(server) && NilReached(Transfer(kind, source, size, partSize, slots), server, run)
    ensures partSize > 0 && size <= |source|
  {
    var c := Transfer(kind, source, size, partSize, slots);
    TransferIsTarget(kind, source, size, partSize, slots, server.stored);
    RunKeepsInv(c, Init(server), run, server.stored);
    var t := After(c, Init(server), run);
    LandedIsAll(c, t);
    TransferIsTarget(kind, source, size, partSize, slots, Some(Concat(Contents(c))));
  }

  /** Nil can be returned iff the part size is one, and the source has the bytes it
      was listed with. */
  lemma NilExactly(kind: Kind, source: Bytes, size: nat, partSize: int, slots: nat, server: Server)
    requires Numbered(server) && slots > 0
    ensures (exists run :: NilReached(Transfer(kind, source, size, partSize, slots), server, run)) <==> partSize > 0 && size <= |source|
  {
    var c := Transfer(kind, source, size, partSize, slots);
    if run :| NilReached(c, server, run) {
      NilNeedsSource(kind, source, size, partSize, slots, server, run);
    }
    if partSize > 0 && size <= |source| {
      TransferIsTarget(kind, source, size, partSize, slots, Some(source[..size]));
      var run, t := CanSucceed(c, server);
      assert NilReached(c, server, run);
    }
  }

  /** So a source that grew after it was listed is not refused, as a shrunk one is:
      nil is returned with its first bytes only. */
  lemma GrownSourceLandsShort(kind: Kind, source: Bytes, size: nat, partSize: int, slots: nat, server: Server) returns (run: seq<Action>)
    requires Numbered(server) && slots > 0 && partSize > 0 && size < |source|
    ensures var c := Transfer(kind, source, size, partSize, slots);
            NilReached(c, server, run) && After(c, Init(server), run).server.stored == Some(source[..size]) != Some(source)
  {
    var c := Transfer(kind, source, size, partSize, slots);
    var t;
    TransferIsTarget(kind, source, size, partSize, slots, Some(source[..size]));
    run, t := CanSucceed(c, server);
    NilMeansStored(kind, source, size, partSize, slots, server, run);
  }

  // ---- when nil means what it says ----

  /** An upload that somebody else discards, after a complete that never arrived:
      what the key held passes for it. */
  lemma DiscardedUploadPasses(c: Config, server: Server) returns (run: seq<Action>, t: State)
    requires c.kind.Minio? && !c.badPartSize && AllThere(c) && c.slots > 0
    requires server.stored.Some? && |server.stored.value| == c.size
    ensures Reaches(c, Init(server), run, t) && t.main == Returned(true) && t.server.stored == server.stored
  {
    var s, u := Init(server), 0;
    run, t, u := GetsReady(c, server, NoSetbacks(c));
    run, t := Take(c, s, run, t, F(CompleteSend));
    run, t := Take(c, s, run, t, F(CompleteFail(false)));
    run, t := Take(c, s, run, t, W(Remove(u)));
    run, t := Take(c, s, run, t, F(CompleteAgain));
    run, t := DiscardedTwice(c, s, run, t, u);
  }

  lemma DiscardedTwice(c: Config, s: State, run: seq<Action>, t: State, u: nat) returns (run': seq<Action>, t': State)
    requires c.kind.Minio? && Reaches(c, s, run, t)
    requires t.main == CompleteReady(2) && t.upload == Some(u) && t.completeSent && u !in t.server.uploads
    requires t.server.stored.Some? && |t.server.stored.value| == c.size
    ensures Reaches(c, s, run', t') && t'.main == Returned(true) && t'.server.stored == t.server.stored
  {
    var call := |t.sent|;
    run', t' := Take(c, s, run, t, F(CompleteSend));
    run', t' := Take(c, s, run', t', W(Serve(call, 0)));
    assert (call, NoSuchUpload) in t'.replies;
    run', t' := Take(c, s, run', t', F(CompleteGone));
    run', t' := SizeAgrees(c, s, run', t', call + 1);
  }

  lemma SizeAgrees(c: Config, s: State, run: seq<Action>, t: State, call: nat) returns (run': seq<Action>, t': State)
    requires Reaches(c, s, run, t) && t.main == StatWait(call) && call < |t.sent| && t.sent[call] == Stat
    requires t.server.stored.Some? && |t.server.stored.value| == c.size
    ensures Reaches(c, s, run', t') && t'.main == Returned(true) && t'.server.stored == t.server.stored
  {
    run', t' := Take(c, s, run, t, W(Serve(call, 0)));
    assert (call, SizeIs(Some(c.size))) in t'.replies;
    run', t' := Take(c, s, run', t', F(StatOk));
  }

  /** Every nil return leaves the source's first size bytes in the key. */
  ghost predicate NilIsSource(kind: Kind, source: Bytes, size: nat, partSize: int, slots: nat, server: Server) {
    var c := Transfer(kind, source, size, partSize, slots);
    forall run :: NilReached(c, server, run) ==>
      size <= |source| && After(c, Init(server), run).server.stored == Some(source[..size])
  }

  /** The key holds something else that a check of its size cannot tell from the
      object. */
  predicate Confusable(kind: Kind, source: Bytes, size: nat, partSize: int, server: Server) {
    && kind.Minio? && partSize > 0 && size <= |source|
    && server.stored.Some? && |server.stored.value| == size && server.stored.value != source[..size]
  }

  /** Whatever happens, and whoever else discards the upload, nil means that the
      object is the source; except on S3, over an older object of the same size
      and other bytes: there it need not. */
  lemma NilIsSourceExactly(kind: Kind, source: Bytes, size: nat, partSize: int, slots: nat, server: Server)
    requires Numbered(server) && slots > 0
    ensures NilIsSource(kind, source, size, partSize, slots, server) <==> !Confusable(kind, source, size, partSize, server)
  {
    var c := Transfer(kind, source, size, partSize, slots);
    if Confusable(kind, source, size, partSize, server) {
      TransferIsTarget(kind, source, size, partSize, slots, Some(source[..size]));
      var run, t := DiscardedUploadPasses(c, server);
      assert NilReached(c, server, run);
    } else {
      forall run | NilReached(c, server, run)
        ensures size <= |source| && After(c, Init(server), run).server.stored == Some(source[..size])
      {
        NilNeedsSource(kind, source, size, partSize, slots, server, run);
        AllOrNothing(kind, source, size, partSize, slots, server, run);
        NilMeansStored(kind, source, size, partSize, slots, server, run);
      }
    }
  }

  // ---- the first answer ----

  /** Until a complete has failed, the client has only its first answer to go by. */
  ghost predicate FirstAnswer(c: Config, s: State, k: nat) {
    match s.main
    case CompleteReady(_) => s.completeSent ==> k > 0
    case CompleteWait(_, _, retry) => retry ==> k > 0
    case CompleteBackoff(_) => k > 0
    case StatWait(_) => k > 0
    case Aborting => true
    case Returned(ok) => ok && k == 0 ==> IsTarget(c, s.server.stored)
    case _ => !s.completeSent
  }

  lemma StoredStays(c: Config, s: State, w: World, before: Option<Bytes>)
    requires Inv(c, s, before) && (w.Serve? ==> w.call < |s.sent|) && IsTarget(c, s.server.stored)
    ensures IsTarget(c, ApplyWorld(c, s, w).server.stored)
  {
    if w.Serve? {
      HandleGrows(c, s, w.call, w.tag, before);
    }
  }

  lemma WorldKeepsAnswer(c: Config, s: State, w: World, k: nat, before: Option<Bytes>)
    requires Inv(c, s, before) && (w.Serve? ==> w.call < |s.sent|) && FirstAnswer(c, s, k)
    ensures FirstAnswer(c, ApplyWorld(c, s, w), k)
  {
    if s.main == Returned(true) && k == 0 {
      StoredStays(c, s, w, before);
    }
  }

  lemma FinishKeepsAnswer(c: Config, s: State, f: Finish, k: nat, before: Option<Bytes>)
    requires Inv(c, s, before) && FinishEnabled(c, s, f) && FirstAnswer(c, s, k)
    ensures FirstAnswer(c, ApplyFinish(c, s, f), k + Strike(F(f), Completing))
  {
    if f.CompleteOk? {
      assert ReplyOk(c, s.sent, s.upload, s.server, GoneRightly(c, s), s.main.call, Completed);
    }
  }

  lemma PartKeepsAnswer(c: Config, s: State, i: nat, p: OnPart, k: nat)
    requires ClientOk(c, s) && PartEnabled(c, s, i, p) && FirstAnswer(c, s, k)
    ensures FirstAnswer(c, ApplyPart(c, s, i, p), k)
  {
    PartKeepsMain(c, s.main, s.upload, s.parts, i, Failed, Stopped(s), true, s.aborted);
  }

  lemma BeginKeepsAnswer(c: Config, s: State, b: Begin, k: nat)
    requires BeginEnabled(c, s, b) && FirstAnswer(c, s, k)
    ensures FirstAnswer(c, ApplyBegin(c, s, b), k)
  {
  }

  lemma LaunchKeepsAnswer(c: Config, s: State, l: Launch, k: nat)
    requires LaunchEnabled(c, s, l) && FirstAnswer(c, s, k)
    ensures FirstAnswer(c, ApplyLaunch(c, s, l), k)
  {
  }

  lemma {:induction false} RunKeepsAnswer(c: Config, s: State, run: seq<Action>, k: nat, before: Option<Bytes>)
    requires Inv(c, s, before) && FirstAnswer(c, s, k) && Legal(c, s, run)
    ensures FirstAnswer(c, After(c, s, run), k + Strikes(run, Completing))
    decreases |run|
  {
    if run != [] {
      match run[0] {
        case W(w) => WorldKeepsAnswer(c, s, w, k, before);
        case B(b) => BeginKeepsAnswer(c, s, b, k);
        case L(l) => LaunchKeepsAnswer(c, s, l, k);
        case P(i, p) => PartKeepsAnswer(c, s, i, p, k);
        case F(f) => FinishKeepsAnswer(c, s, f, k, before);
      }
      StepKeepsInv(c, s, run[0], before);
      RunKeepsAnswer(c, Apply(c, s, run[0]), run[1..], k + Strike(run[0], Completing), before);
    }
  }

  /** Unless a complete failed, the size of the object is never asked for: then nil
      means that the object is the source, whoever discarded whatever. */
  lemma FirstAnswerIsSource(kind: Kind, source: Bytes, size: nat, partSize: int, slots: nat, server: Server, run: seq<Action>)
    requires Numbered(server) && NilReached(Transfer(kind, source, size, partSize, slots), server, run)
    requires Strikes(run, Completing) == 0
    ensures size <= |source|
    ensures After(Transfer(kind, source, size, partSize, slots), Init(server), run).server.stored == Some(source[..size])
  {
    var c := Transfer(kind, source, size, partSize, slots);
    TransferIsTarget(kind, source, size, partSize, slots, server.stored);
    RunKeepsAnswer(c, Init(server), run, 0, server.stored);
    TransferIsTarget(kind, source, size, partSize, slots, After(c, Init(server), run).server.stored);
  }
}
