/** The tags a complete lists: each is the store's own answer to that part. */
module MultipartTags {
  import opened Options
  import opened Ranges
  import opened Multipart
  import opened MultipartSafety

  /** The store answered part i's request, as the call-th one sent, with this tag. */
  predicate AnsweredBy(sent: seq<Request>, replies: set<(nat, Reply)>, i: nat, tag: nat, call: nat) {
    call < |sent| && sent[call].Put? && sent[call].part == i && (call, Stored(tag)) in replies
  }

  ghost predicate Answered(sent: seq<Request>, replies: set<(nat, Reply)>, i: nat, tag: nat) {
    exists call :: AnsweredBy(sent, replies, i, tag, call)
  }

  ghost predicate TagsAnswered(tags: seq<Option<nat>>, sent: seq<Request>, replies: set<(nat, Reply)>) {
    forall i :: 0 <= i < |tags| && tags[i].Some? ==> Answered(sent, replies, i, tags[i].value)
  }

  /** An answer stays one as more is sent and answered. */
  lemma AnswersStay(tags: seq<Option<nat>>, sent: seq<Request>, replies: set<(nat, Reply)>, sent': seq<Request>, replies': set<(nat, Reply)>)
    requires TagsAnswered(tags, sent, replies) && sent <= sent' && replies <= replies'
    ensures TagsAnswered(tags, sent', replies')
  {
    forall i | 0 <= i < |tags| && tags[i].Some? ensures Answered(sent', replies', i, tags[i].value) {
      var call :| AnsweredBy(sent, replies, i, tags[i].value, call);
      assert AnsweredBy(sent', replies', i, tags[i].value, call);
    }
  }

  lemma PartKeepsTags(c: Config, s: State, i: nat, p: OnPart)
    requires PartEnabled(c, s, i, p) && PutsAwaited(s.parts, s.sent) && TagsAnswered(s.tags, s.sent, s.replies)
    ensures var t := ApplyPart(c, s, i, p); TagsAnswered(t.tags, t.sent, t.replies)
  {
    var t := ApplyPart(c, s, i, p);
    PartSends(c, s, i, p);
    AnswersStay(s.tags, s.sent, s.replies, t.sent, t.replies);
    if p.PutOk? {
      assert PutAwaited(s.parts[i], i, s.sent);
      assert AnsweredBy(t.sent, t.replies, i, p.tag, s.parts[i].call);
    }
  }

  lemma PartSends(c: Config, s: State, i: nat, p: OnPart)
    requires PartEnabled(c, s, i, p)
    ensures var t := ApplyPart(c, s, i, p); s.sent <= t.sent && t.replies == s.replies && (p.PutOk? || t.tags == s.tags)
  {
  }

  lemma OtherKeepsTags(c: Config, s: State, a: Action)
    requires Enabled(c, s, a) && !a.P? && TagsAnswered(s.tags, s.sent, s.replies)
    ensures var t := Apply(c, s, a); TagsAnswered(t.tags, t.sent, t.replies)
  {
    var t := Apply(c, s, a);
    OtherSends(c, s, a);
    AnswersStay(s.tags, s.sent, s.replies, t.sent, t.replies);
  }

  lemma OtherSends(c: Config, s: State, a: Action)
    requires Enabled(c, s, a) && !a.P?
    ensures var t := Apply(c, s, a);
            s.sent <= t.sent && s.replies <= t.replies && (t.tags == s.tags || forall i :: 0 <= i < |t.tags| ==> t.tags[i].None?)
  {
    match a
    case W(w) =>
    case B(b) =>
    case L(l) =>
    case F(f) => FinishRests(c, s, f);
  }

  lemma {:induction false} RunKeepsTags(c: Config, s: State, run: seq<Action>, before: Option<Bytes>)
    requires Inv(c, s, before) && Legal(c, s, run) && TagsAnswered(s.tags, s.sent, s.replies)
    ensures var t := After(c, s, run); TagsAnswered(t.tags, t.sent, t.replies)
    decreases |run|
  {
    if run != [] {
      match run[0] {
        case P(i, p) => PartKeepsTags(c, s, i, p);
        case _ => OtherKeepsTags(c, s, run[0]);
      }
      StepKeepsInv(c, s, run[0], before);
      RunKeepsTags(c, Apply(c, s, run[0]), run[1..], before);
    }
  }

  /** In every run, whatever tags the store picks and however its answers are held
      back: a complete lists for every part a tag the store answered that part's
      request with. */
  lemma ListedTagsAreAnswers(kind: Kind, source: Bytes, size: nat, partSize: int, slots: nat, server: Server, run: seq<Action>, k: nat)
    requires Numbered(server) && Legal(Transfer(kind, source, size, partSize, slots), Init(server), run)
    requires var sent := After(Transfer(kind, source, size, partSize, slots), Init(server), run).sent;
             k < |sent| && sent[k].Complete?
    ensures var c := Transfer(kind, source, size, partSize, slots);
            var t := After(c, Init(server), run);
            var listed := t.sent[k].tags;
            |listed| == Count(c) && forall i :: 0 <= i < |listed| ==> listed[i].Some? && Answered(t.sent, t.replies, i, listed[i].value)
  {
    var c := Transfer(kind, source, size, partSize, slots);
    TransferIsTarget(kind, source, size, partSize, slots, server.stored);
    RunKeepsInv(c, Init(server), run, server.stored);
    RunKeepsTags(c, Init(server), run, server.stored);
    var t := After(c, Init(server), run);
    assert RequestOk(c, t.sent[k], t.upload, t.tags, t.completeSent, t.aborted);
    forall i | 0 <= i < |t.tags| ensures t.tags[i].Some? {
      assert PartOk(c, i, t.parts[i], t.tags[i], t.tries[i], t.failed);
    }
  }
}
