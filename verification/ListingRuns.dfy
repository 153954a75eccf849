/** A whole transfer: the objects of a listing, taken largest first, in two lanes
    (data-mig/storagex/executor-s3.go). */
module ListingRuns {
  import opened Options
  import opened TransferOrder
  import opened LaneSteps
  import opened LaneRuns

  /** For a listing of these sizes, nil means that every object was moved. */
  lemma NilMeansAllMoved(sizes: seq<nat>, inParts: set<nat>, limit: nat, run: seq<Action>)
    requires Legal(LanesOf(OrderOf(sizes), inParts, limit), Start(), run)
    requires After(LanesOf(OrderOf(sizes), inParts, limit), Start(), run).returned == Some(None)
    ensures var s := After(LanesOf(OrderOf(sizes), inParts, limit), Start(), run);
            forall i: nat :: (i in s.calls <==> i < |sizes|) && (i < |sizes| ==> i in s.results && s.results[i].None?)
  {
    OrderIsLargestFirst(sizes);
    ReturnTellsTheTruth(OrderOf(sizes), inParts, limit, run);
    CallsAreBounded(OrderOf(sizes), inParts, limit, run);
  }
}
