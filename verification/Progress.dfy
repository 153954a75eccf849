/** The progress of a transfer: totals that many workers add to and a reporter
    reads (s3Progress, data-mig/storagex/executor-s3.go). */
module Progress {
  import opened Arithmetic

  const REPORT_EVERY := 1048576 // s3ReportEvery

  /** What the reporter is sent. */
  datatype Update = Update(bytes: nat, files: nat)

  /** reported is the bytes as of the last report; sent is every report so far. */
  datatype Totals = Totals(bytes: nat, files: nat, reported: nat, sent: seq<Update>)

  function Zero(): Totals {
    Totals(0, 0, 0, [])
  }

  /** report. */
  function Reported(t: Totals): Totals {
    t.(reported := t.bytes, sent := t.sent + [Update(t.bytes, t.files)])
  }

  function Credited(t: Totals, credited: nat, pos: nat): Totals {
    if pos <= credited then t
    else
      var t' := t.(bytes := t.bytes + (pos - credited));
      if t'.bytes - t'.reported >= REPORT_EVERY then Reported(t') else t'
  }

  function Finished(t: Totals, credited: nat, size: nat): Totals {
    Reported(t.(bytes := t.bytes + Max(size, credited) - credited, files := t.files + 1))
  }

  /** One object's own count, over all its attempts. */
  class Count {
    var n: nat
    constructor ()
      ensures n == 0
    {
      n := 0;
    }
  }

  class S3Progress {
    var bytes: nat
    var files: nat
    var reported: nat
    var sent: seq<Update> // what was handed to the reporter

    function View(): Totals
      reads this
    {
      Totals(bytes, files, reported, sent)
    }

    constructor ()
      ensures View() == Zero()
    {
      bytes, files, reported, sent := 0, 0, 0, [];
    }

    /** report. */
    method Report()
      modifies this
      ensures View() == Reported(old(View()))
    {
      reported := bytes;
      sent := sent + [Update(bytes, files)];
    }

    /** done: an object that was not counted while it was read. */
    method Done(size: nat)
      modifies this
      ensures View() == Finished(old(View()), 0, size)
    {
      bytes := bytes + size;
      files := files + 1;
      Report();
    }

    /** credit. */
    method Credit(credited: Count, pos: nat)
      modifies this, credited
      ensures View() == Credited(old(View()), old(credited.n), pos)
      ensures credited.n == Max(pos, old(credited.n))
    {
      if pos <= credited.n {
        return;
      }
      bytes := bytes + (pos - credited.n);
      credited.n := pos;
      if bytes - reported >= REPORT_EVERY {
        Report();
      }
    }

    /** finish. */
    method Finish(credited: Count, size: nat)
      modifies this, credited
      ensures View() == Finished(old(View()), old(credited.n), size)
      ensures credited.n == Max(size, old(credited.n))
    {
      if size > credited.n {
        bytes := bytes + (size - credited.n);
        credited.n := size;
      }
      files := files + 1;
      Report();
    }
  }

  // ---- runs: the calls of all workers, in the order the lock admits them ----

  /** Which object a call is for, by its number in the listing. */
  datatype Event = DoneEvent(item: nat, size: nat) | CreditEvent(item: nat, pos: nat) | FinishEvent(item: nat, size: nat)

  datatype State = State(totals: Totals, counts: seq<nat>)

  function Apply(s: State, e: Event): State
    requires e.item < |s.counts|
  {
    match e
    case DoneEvent(_, size) => s.(totals := Finished(s.totals, 0, size))
    case CreditEvent(i, pos) => State(Credited(s.totals, s.counts[i], pos), s.counts[i := Max(pos, s.counts[i])])
    case FinishEvent(i, size) => State(Finished(s.totals, s.counts[i], size), s.counts[i := Max(size, s.counts[i])])
  }

  ghost predicate AllKnown(run: seq<Event>, n: nat) {
    forall k :: 0 <= k < |run| ==> run[k].item < n
  }

  /** The totals after a run over n objects. */
  function After(n: nat, run: seq<Event>): (s: State)
    requires AllKnown(run, n)
    ensures |s.counts| == n
  {
    if run == [] then State(Zero(), seq(n, _ => 0))
    else Apply(After(n, run[..|run| - 1]), run[|run| - 1])
  }

  // ---- what the totals are, read off the run alone ----

  /** The furthest point any attempt at the object was credited or finished with. */
  function Furthest(run: seq<Event>, i: nat): nat {
    if run == [] then 0
    else
      var e := run[|run| - 1];
      Max(Furthest(run[..|run| - 1], i), if e.item != i || e.DoneEvent? then 0 else if e.CreditEvent? then e.pos else e.size)
  }

  /** What the object was reported done with, uncounted before. */
  function DoneBytes(run: seq<Event>, i: nat): nat {
    if run == [] then 0
    else DoneBytes(run[..|run| - 1], i) + if run[|run| - 1].DoneEvent? && run[|run| - 1].item == i then run[|run| - 1].size else 0
  }

  /** How often the object was reported done or finished. */
  function Ended(run: seq<Event>, i: nat): nat {
    if run == [] then 0
    else Ended(run[..|run| - 1], i) + if !run[|run| - 1].CreditEvent? && run[|run| - 1].item == i then 1 else 0
  }

  function Moved(run: seq<Event>, n: nat): (r: seq<nat>)
    ensures |r| == n && forall i :: 0 <= i < n ==> r[i] == Furthest(run, i) + DoneBytes(run, i)
  {
    seq(n, i requires 0 <= i < n => Furthest(run, i) + DoneBytes(run, i))
  }

  function Ends(run: seq<Event>, n: nat): (r: seq<nat>)
    ensures |r| == n && forall i :: 0 <= i < n ==> r[i] == Ended(run, i)
  {
    seq(n, i requires 0 <= i < n => Ended(run, i))
  }

  /** Each object's count is how far it got. */
  lemma {:induction false} CountsAreFurthest(n: nat, run: seq<Event>)
    requires AllKnown(run, n)
    ensures forall i :: 0 <= i < n ==> After(n, run).counts[i] == Furthest(run, i)
  {
    if run != [] {
      CountsAreFurthest(n, run[..|run| - 1]);
    }
  }

  /** One call changes what its own object moved, and nothing else. */
  lemma MovedAlong(n: nat, run: seq<Event>)
    requires AllKnown(run, n) && run != []
    ensures var rest, e := run[..|run| - 1], run[|run| - 1];
            && Moved(run, n) == Moved(rest, n)[e.item := Furthest(run, e.item) + DoneBytes(run, e.item)]
            && Ends(run, n) == Ends(rest, n)[e.item := Ended(run, e.item)]
  {
  }

  lemma CallMoves(s: State, e: Event)
    requires e.item < |s.counts|
    ensures Apply(s, e).totals.bytes == s.totals.bytes +
            match e
            case DoneEvent(_, size) => size
            case CreditEvent(i, pos) => Max(pos, s.counts[i]) - s.counts[i]
            case FinishEvent(i, size) => Max(size, s.counts[i]) - s.counts[i]
  {
  }

  lemma {:induction false} BytesAreConserved(n: nat, run: seq<Event>)
    requires AllKnown(run, n)
    ensures After(n, run).totals.bytes == Sum(Moved(run, n))
  {
    if run == [] {
      SumZeros(n);
      assert Moved(run, n) == seq(n, _ => 0);
    } else {
      var rest, e := run[..|run| - 1], run[|run| - 1];
      BytesAreConserved(n, rest);
      CountsAreFurthest(n, rest);
      MovedAlong(n, run);
      CallMoves(After(n, rest), e);
      SumUpdate(Moved(rest, n), e.item, Furthest(run, e.item) + DoneBytes(run, e.item));
    }
  }

  lemma {:induction false} FilesAreConserved(n: nat, run: seq<Event>)
    requires AllKnown(run, n)
    ensures After(n, run).totals.files == Sum(Ends(run, n))
  {
    if run == [] {
      SumZeros(n);
      assert Ends(run, n) == seq(n, _ => 0);
    } else {
      var rest, e := run[..|run| - 1], run[|run| - 1];
      FilesAreConserved(n, rest);
      MovedAlong(n, run);
      SumUpdate(Ends(rest, n), e.item, Ended(run, e.item));
    }
  }

  /** Conservation: however the calls of the workers interleave, whatever is read
      again and however late a point is credited, the bytes are, object by object,
      the furthest point it was counted to and the sizes it was reported done with;
      and the files are the ends reported. */
  lemma TotalsAreConserved(n: nat, run: seq<Event>)
    requires AllKnown(run, n)
    ensures After(n, run).totals.bytes == Sum(Moved(run, n))
    ensures After(n, run).totals.files == Sum(Ends(run, n))
  {
    BytesAreConserved(n, run);
    FilesAreConserved(n, run);
  }

  ghost predicate Grows(sent: seq<Update>) {
    forall i, j :: 0 <= i < j < |sent| ==> sent[i].bytes <= sent[j].bytes && sent[i].files <= sent[j].files
  }

  /** The reports only grow, none is ahead of the totals, and what is not yet
      reported is less than one step. */
  ghost predicate InStep(t: Totals) {
    && Grows(t.sent)
    && t.reported <= t.bytes < t.reported + REPORT_EVERY
    && (t.sent != [] ==> t.sent[|t.sent| - 1] == Update(t.reported, t.files))
    && (t.sent == [] ==> t.reported == 0 && t.files == 0)
  }

  lemma ReportGrows(sent: seq<Update>, u: Update)
    requires Grows(sent)
    requires sent != [] ==> sent[|sent| - 1].bytes <= u.bytes && sent[|sent| - 1].files <= u.files
    ensures Grows(sent + [u])
  {
  }

  lemma CreditedInStep(t: Totals, credited: nat, pos: nat)
    requires InStep(t)
    ensures InStep(Credited(t, credited, pos))
  {
    if pos > credited {
      ReportGrows(t.sent, Update(t.bytes + (pos - credited), t.files));
    }
  }

  lemma FinishedInStep(t: Totals, credited: nat, size: nat)
    requires InStep(t)
    ensures InStep(Finished(t, credited, size))
  {
    ReportGrows(t.sent, Update(t.bytes + (Max(size, credited) - credited), t.files + 1));
  }

  lemma {:induction false} ReportsGrow(n: nat, run: seq<Event>)
    requires AllKnown(run, n)
    ensures InStep(After(n, run).totals)
  {
    if run != [] {
      var s := After(n, run[..|run| - 1]);
      ReportsGrow(n, run[..|run| - 1]);
      match run[|run| - 1]
      case DoneEvent(_, size) => FinishedInStep(s.totals, 0, size);
      case CreditEvent(i, pos) => CreditedInStep(s.totals, s.counts[i], pos);
      case FinishEvent(i, size) => FinishedInStep(s.totals, s.counts[i], size);
    }
  }

  /** No more reports than files, and one for each step of bytes. */
  ghost predicate Few(t: Totals) {
    |t.sent| <= t.files + t.reported / REPORT_EVERY
  }

  lemma StepsApart(a: nat, b: nat)
    requires b - a >= REPORT_EVERY
    ensures b / REPORT_EVERY >= a / REPORT_EVERY + 1
  {
  }

  lemma CreditedFew(t: Totals, credited: nat, pos: nat)
    requires Few(t) && t.reported <= t.bytes
    ensures Few(Credited(t, credited, pos))
  {
    var t' := Credited(t, credited, pos);
    if t'.sent != t.sent {
      StepsApart(t.reported, t'.reported);
    }
  }

  lemma FinishedFew(t: Totals, credited: nat, size: nat)
    requires Few(t) && t.reported <= t.bytes
    ensures Few(Finished(t, credited, size))
  {
    var t' := Finished(t, credited, size);
    assert t.reported / REPORT_EVERY <= t'.reported / REPORT_EVERY;
  }

  /** However small the steps the workers credit, there are no more reports than
      files, and one for each MiB. */
  lemma {:induction false} ReportsAreFew(n: nat, run: seq<Event>)
    requires AllKnown(run, n)
    ensures var t := After(n, run).totals; |t.sent| <= t.files + t.bytes / REPORT_EVERY && Few(t)
  {
    if run != [] {
      var rest := run[..|run| - 1];
      var s := After(n, rest);
      ReportsGrow(n, rest);
      ReportsAreFew(n, rest);
      match run[|run| - 1]
      case DoneEvent(_, size) => FinishedFew(s.totals, 0, size);
      case CreditEvent(i, pos) => CreditedFew(s.totals, s.counts[i], pos);
      case FinishEvent(i, size) => FinishedFew(s.totals, s.counts[i], size);
    }
    ReportsGrow(n, run);
    var t := After(n, run).totals;
    assert t.reported / REPORT_EVERY <= t.bytes / REPORT_EVERY;
  }

  // ---- whole transfers ----

  ghost predicate IsEnd(e: Event, i: nat) {
    e.item == i && !e.CreditEvent?
  }

  ghost predicate HasEnd(run: seq<Event>, i: nat) {
    exists k :: 0 <= k < |run| && IsEnd(run[k], i)
  }

  /** A run in which every object comes to its end once, at its listed size: it is
      done without having been counted, or counted and then finished. */
  ghost predicate Completes(run: seq<Event>, sizes: seq<nat>) {
    && (forall i: nat :: i < |sizes| ==> HasEnd(run, i))
    && (forall k :: 0 <= k < |run| ==>
          run[k].item < |sizes| && (!run[k].CreditEvent? ==> run[k].size == sizes[run[k].item]))
    && (forall j, k :: 0 <= j < k < |run| && run[j].item == run[k].item ==>
          && !(IsEnd(run[j], run[j].item) && IsEnd(run[k], run[k].item))
          && !run[j].DoneEvent? && !run[k].DoneEvent?)
  }

  /** Nothing of the object was read past its listed size. */
  ghost predicate ReadWithin(run: seq<Event>, i: nat, size: nat) {
    forall k :: 0 <= k < |run| && run[k].CreditEvent? && run[k].item == i ==> run[k].pos <= size
  }

  /** Of an object that has one end and that is a done, nothing else was said. */
  lemma {:induction false} OnlyDone(run: seq<Event>, i: nat, k: nat)
    requires k < |run| && run[k].DoneEvent? && run[k].item == i
    requires forall j :: 0 <= j < |run| && j != k ==> run[j].item != i
    ensures Furthest(run, i) == 0 && DoneBytes(run, i) == run[k].size && Ended(run, i) == 1
  {
    var n := |run| - 1;
    if k < n {
      OnlyDone(run[..n], i, k);
    } else {
      Unsaid(run[..n], i);
    }
  }

  lemma {:induction false} Unsaid(run: seq<Event>, i: nat)
    requires forall j :: 0 <= j < |run| ==> run[j].item != i
    ensures Furthest(run, i) == 0 && DoneBytes(run, i) == 0 && Ended(run, i) == 0
  {
    if run != [] {
      Unsaid(run[..|run| - 1], i);
    }
  }

  lemma {:induction false} OnlyCounted(run: seq<Event>, i: nat, size: nat)
    requires forall j :: 0 <= j < |run| && run[j].item == i ==> run[j].CreditEvent?
    ensures (Furthest(run, i) <= size <==> ReadWithin(run, i, size)) && DoneBytes(run, i) == 0 && Ended(run, i) == 0
  {
    if run != [] {
      var n := |run| - 1;
      OnlyCounted(run[..n], i, size);
      WithinAlong(run, i, size);
    }
  }

  lemma WithinAlong(run: seq<Event>, i: nat, size: nat)
    requires run != []
    ensures var e := run[|run| - 1];
            ReadWithin(run, i, size) <==> ReadWithin(run[..|run| - 1], i, size) && (e.CreditEvent? && e.item == i ==> e.pos <= size)
  {
  }

  /** An object that was counted, and finished once. */
  lemma {:induction false} FinishedOnce(run: seq<Event>, i: nat, k: nat)
    requires k < |run| && run[k].FinishEvent? && run[k].item == i
    requires forall j :: 0 <= j < |run| && j != k && run[j].item == i ==> run[j].CreditEvent?
    ensures Furthest(run, i) >= run[k].size && (Furthest(run, i) == run[k].size <==> ReadWithin(run, i, run[k].size))
    ensures DoneBytes(run, i) == 0 && Ended(run, i) == 1
  {
    var n := |run| - 1;
    WithinAlong(run, i, run[k].size);
    if k < n {
      FinishedOnce(run[..n], i, k);
    } else {
      OnlyCounted(run[..n], i, run[k].size);
    }
  }

  lemma MovedItsSize(run: seq<Event>, sizes: seq<nat>, i: nat)
    requires Completes(run, sizes) && i < |sizes|
    ensures var moved := Furthest(run, i) + DoneBytes(run, i);
            moved >= sizes[i] && (moved == sizes[i] <==> ReadWithin(run, i, sizes[i])) && Ended(run, i) == 1
  {
    assert HasEnd(run, i);
    var k :| 0 <= k < |run| && IsEnd(run[k], i);
    if run[k].DoneEvent? {
      OnlyDone(run, i, k);
    } else {
      FinishedOnce(run, i, k);
    }
  }

  lemma {:induction false} SumOnes(xs: seq<nat>)
    requires forall i :: 0 <= i < |xs| ==> xs[i] == 1
    ensures Sum(xs) == |xs|
  {
    if xs != [] {
      SumOnes(xs[..|xs| - 1]);
    }
  }

  /** When every object has come to its end, in whatever order and however often
      its bytes were read again, the files are the objects, and the bytes are at
      least the sum of the sizes: exactly that iff no object was read past its
      listed size, as one is that grew since. If the last call was such an end, the
      totals are what was last reported. */
  lemma CompleteTotal(run: seq<Event>, sizes: seq<nat>)
    requires Completes(run, sizes)
    ensures AllKnown(run, |sizes|)
    ensures var t := After(|sizes|, run).totals;
            && t.files == |sizes| && t.bytes >= Sum(sizes)
            && (t.bytes == Sum(sizes) <==> forall i: nat :: i < |sizes| ==> ReadWithin(run, i, sizes[i]))
            && (run != [] && !run[|run| - 1].CreditEvent? ==> t.sent != [] && t.sent[|t.sent| - 1] == Update(t.bytes, t.files))
  {
    var n := |sizes|;
    assert AllKnown(run, n);
    TotalsAreConserved(n, run);
    var moved := Moved(run, n);
    forall i: nat | i < n ensures moved[i] >= sizes[i] && (moved[i] == sizes[i] <==> ReadWithin(run, i, sizes[i])) && Ends(run, n)[i] == 1 {
      MovedItsSize(run, sizes, i);
    }
    SumOnes(Ends(run, n));
    SumGrows(sizes, moved);
    if forall i: nat :: i < n ==> ReadWithin(run, i, sizes[i]) {
      assert moved == sizes;
    }
    if Sum(moved) == Sum(sizes) {
      SumSame(sizes, moved);
    }
    EndIsReported(n, run);
  }

  /** A done and a finish report. */
  lemma EndIsReported(n: nat, run: seq<Event>)
    requires AllKnown(run, n)
    ensures var t := After(n, run).totals;
            run != [] && !run[|run| - 1].CreditEvent? ==> t.sent != [] && t.sent[|t.sent| - 1] == Update(t.bytes, t.files)
  {
  }
}
