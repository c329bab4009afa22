/// No patch is lost: under every interleaving each column of an appraisal holds what the last committed
/// operation that provides the column asked for, read off the list of requests without running them.

module Patches {
  import opened Apartment
  import opened Domain
  import opened Tables
  import opened Machine
  import opened CoreInvariant
  import opened SessionInvariant
  import opened Lifecycle

  /// What the latest request that provides a value provides.
  function Latest<T>(requests: seq<Request>, wanted: Operation -> Option<T>): Option<T> {
    if requests == [] then None
    else
      var last := wanted(requests[|requests| - 1].op);
      if last.Some? then last else Latest(requests[..|requests| - 1], wanted)
  }

  ghost predicate LastToProvide<T>(requests: seq<Request>, wanted: Operation -> Option<T>, i: int) {
    && 0 <= i < |requests|
    && wanted(requests[i].op) == Latest(requests, wanted)
    && (forall j :: i < j < |requests| ==> wanted(requests[j].op) == None)
  }

  /// The same without recursion: None if no request provides a value, else the value of one that no later
  /// request overrides.
  lemma {:induction false} LatestIsLast<T>(requests: seq<Request>, wanted: Operation -> Option<T>)
    ensures Latest(requests, wanted) == None <==> forall i :: 0 <= i < |requests| ==> wanted(requests[i].op) == None
    ensures Latest(requests, wanted).Some? ==> exists i :: LastToProvide(requests, wanted, i)
  {
    if requests != [] {
      var n := |requests| - 1;
      LatestIsLast(requests[..n], wanted);
      assert forall i :: 0 <= i < n ==> requests[..n][i] == requests[i];
      if wanted(requests[n].op).Some? {
        assert LastToProvide(requests, wanted, n);
      } else if Latest(requests, wanted).Some? {
        var i :| LastToProvide(requests[..n], wanted, i);
        assert LastToProvide(requests, wanted, i);
      }
    }
  }

  // ---------- What an operation provides ----------

  function Appraiser(op: Operation): Option<Uuid> {
    if op.Update? then op.input.appraiserId else None
  }

  function Notes(op: Operation): Option<string> {
    if op.Update? then op.input.notes else None
  }

  /// Entered by hand, or the printed result of a calculation.
  function MarketValue(op: Operation): Option<string> {
    if op.Update? then op.input.marketValue
    else if op.ApplyCalculation? then Some(op.marketValue)
    else None
  }

  function ReportKey(op: Operation): Option<string> {
    if op.UploadReport? then Some(op.key) else None
  }

  function CalculationData(op: Operation): Option<CalculationResult> {
    if op.ApplyCalculation? then Some(op.calculation) else None
  }

  // ---------- The columns ----------

  ghost predicate Completes(requests: seq<Request>) {
    exists i :: 0 <= i < |requests| && requests[i].op.Complete?
  }

  /// The row, column by column, from its creation and the list of committed requests.
  ghost predicate Assembled(row: Appraisal, first: Appraisal, requests: seq<Request>) {
    && row.id == first.id && row.requestId == first.requestId && row.createdAt == first.createdAt
    && row.appraiserId == Latest(requests, Appraiser)
    && row.notes == Latest(requests, Notes)
    && row.marketValue == Latest(requests, MarketValue)
    && row.reportKey == Latest(requests, ReportKey)
    && row.calculationData == Latest(requests, CalculationData)
    && row.updatedAt == (if requests == [] then first.createdAt else requests[|requests| - 1].at)
    && (row.status == Completed <==> Completes(requests))
  }

  lemma CompletesSnoc(requests: seq<Request>, last: Request)
    ensures Completes(requests + [last]) <==> Completes(requests) || last.op.Complete?
  {
    var longer := requests + [last];
    if Completes(requests) {
      var i :| 0 <= i < |requests| && requests[i].op.Complete?;
      assert longer[i].op.Complete?;
    }
    if last.op.Complete? {
      assert longer[|requests|].op.Complete?;
    }
  }

  /// Requests that are committed on the row; comparables live in their own table.
  ghost predicate OnTheRow(requests: seq<Request>) {
    forall i :: 0 <= i < |requests| ==> requests[i].op.Saves() || requests[i].op.Complete?
  }

  lemma {:induction false} CommittedOnTheRow(h: seq<Version>)
    requires Chain(h)
    ensures OnTheRow(Requests(h))
  {
    if |h| > 1 {
      ChainPrefix(h, |h| - 1);
      CommittedOnTheRow(h[..|h| - 1]);
      assert CommitOk(h, |h| - 1);
    }
  }

  lemma LatestSnoc<T>(requests: seq<Request>, last: Request, wanted: Operation -> Option<T>)
    ensures Latest(requests + [last], wanted) ==
      if wanted(last.op).Some? then wanted(last.op) else Latest(requests, wanted)
  {
    assert (requests + [last])[..|requests|] == requests;
  }

  lemma AssembledSnoc(row: Appraisal, first: Appraisal, requests: seq<Request>, last: Request)
    requires Assembled(row, first, requests) && (last.op.Saves() || last.op.Complete?)
    ensures Assembled(Edited(last.op, row, last.at), first, requests + [last])
  {
    LatestSnoc(requests, last, Appraiser);
    LatestSnoc(requests, last, Notes);
    LatestSnoc(requests, last, MarketValue);
    LatestSnoc(requests, last, ReportKey);
    LatestSnoc(requests, last, CalculationData);
    CompletesSnoc(requests, last);
  }

  lemma {:induction false} AssembledByRequests(a: Appraisal, requests: seq<Request>)
    requires OnTheRow(requests)
    requires a == NewAppraisal(a.id, a.requestId, a.createdAt)
    ensures Assembled(AtomicRun(a, requests), a, requests)
  {
    if requests != [] {
      var before, last := requests[..|requests| - 1], requests[|requests| - 1];
      AssembledByRequests(a, before);
      AssembledSnoc(AtomicRun(a, before), a, before, last);
      assert requests == before + [last];
    }
  }

  lemma AssembledByHistory(core: Core, id: Uuid)
    requires HistoriesOk(core) && id in core.db.rows && StampsDistinct(core.history[id])
    ensures Assembled(core.db.rows[id], core.history[id][0].row, Requests(core.history[id]))
  {
    var h := core.history[id];
    AtomicHistory(h);
    CommittedOnTheRow(h);
    AssembledByRequests(h[0].row, Requests(h));
  }

  /// Under every interleaving the row is exactly what its committed requests add up to.
  lemma NoPatchLost(schedule: seq<Label>, id: Uuid)
    requires DistinctStamps(Run(INITIAL, schedule).core)
    requires id in Run(INITIAL, schedule).core.db.rows
    ensures var core := Run(INITIAL, schedule).core; var h := History(core, id);
      |h| > 0 && Assembled(core.db.rows[id], h[0].row, Requests(h))
  {
    InvReachable(schedule);
    Linearizable(schedule, id);
    AssembledByHistory(Run(INITIAL, schedule).core, id);
  }
}
