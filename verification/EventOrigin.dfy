/// Where the event of a completion comes from, and exactly when it agrees with the completed row.

module EventOrigin {
  import opened Domain
  import opened Machine
  import opened CoreInvariant
  import opened SessionInvariant
  import opened Lifecycle
  import opened Patches

  /// Event e was built by the completion that wrote version j of its appraisal from version i, which the
  /// completion had read. Ids and completion time are those of the completed row, appraiser and report key
  /// those of version i. They are also the closed row's if and only if version j - 1, the row right before
  /// the completion, still had them.
  ghost predicate ComesFrom(core: Core, e: Event, i: int, j: int) {
    var id := e.data.appraisalId;
    var h := History(core, id);
    && id in core.db.rows
    && core.db.rows[id].status == Completed
    && e.requestId == core.db.rows[id].requestId
    && core.db.rows[id].completedAt == Some(e.data.completedAt)
    && 0 <= i < j < |h|
    && h[i].row.status == InProgress
    && h[j - 1].row.status == InProgress
    && h[j].row.status == Completed
    && h[j].author.Some? && h[j].author.value.op.Complete? && h[j].author.value.readAt == i + 1
    && e.data.appraiserId == h[i].row.appraiserId
    && e.data.reportKey == h[i].row.reportKey
    && (e.data.appraiserId == h[j].row.appraiserId <==> h[i].row.appraiserId == h[j - 1].row.appraiserId)
    && (e.data.reportKey == h[j].row.reportKey <==> h[i].row.reportKey == h[j - 1].row.reportKey)
    && (DistinctStamps(core) ==> core.db.rows[id] == h[j].row)
  }

  lemma ClosingVersion(h: seq<Version>, j: int)
    requires Chain(h) && 1 <= j < |h| && h[j].author.Some? && h[j].author.value.op.Complete?
    ensures var i := h[j].author.value.readAt - 1;
      && 0 <= i < j
      && h[i].row.status == InProgress && h[j - 1].row.status == InProgress && h[j].row.status == Completed
      && h[j].row.appraiserId == h[j - 1].row.appraiserId && h[j].row.reportKey == h[j - 1].row.reportKey
      && (StampsDistinct(h) ==> j == |h| - 1)
  {
    assert CommitOk(h, j);
    if StampsDistinct(h) && j < |h| - 1 {
      NoCommitAfterCompletion(h, j + 1);
    }
  }

  lemma AnnouncementComesFrom(core: Core, e: Event, j: int)
    requires HistoriesOk(core) && Announces(core, e, j)
    ensures ComesFrom(core, e, core.history[e.data.appraisalId][j].author.value.readAt - 1, j)
  {
    var h := core.history[e.data.appraisalId];
    ClosingVersion(h, j);
    OneWay(h, j, |h| - 1);
  }

  lemma ProvenanceInCore(core: Core, k: nat) returns (i: int, j: int)
    requires HistoriesOk(core) && OutboxAnnounces(core) && k in core.db.outbox
    ensures ComesFrom(core, core.db.outbox[k].event, i, j)
  {
    var e := core.db.outbox[k].event;
    assert exists j :: Announces(core, e, j);
    j :| Announces(core, e, j);
    AnnouncementComesFrom(core, e, j);
    i := core.history[e.data.appraisalId][j].author.value.readAt - 1;
  }

  /// Every event comes from one version of its row. This needs no assumption on clocks.
  lemma Provenance(schedule: seq<Label>, k: nat) returns (i: int, j: int)
    requires k in Run(INITIAL, schedule).core.db.outbox
    ensures ComesFrom(Run(INITIAL, schedule).core, Run(INITIAL, schedule).core.db.outbox[k].event, i, j)
  {
    InvReachable(schedule);
    i, j := ProvenanceInCore(Run(INITIAL, schedule).core, k);
  }

  // ---------- When an event is current ----------

  /// The requests committed after version i and before version j.
  function Between(h: seq<Version>, i: int, j: int): seq<Request>
    requires 0 <= i <= j <= |h|
  {
    Requests(h[i..j])
  }

  /// What a column becomes: the last provided value, or the value it had.
  function Overridden<T>(last: Option<T>, had: Option<T>): Option<T> {
    if last.Some? then last else had
  }

  /// From version i on, appraiser and report key are those last provided since, or those of version i.
  lemma {:induction false} ColumnsSince(h: seq<Version>, i: int, j: int)
    requires Chain(h) && StampsDistinct(h) && 0 <= i < j <= |h|
    ensures h[j - 1].row.appraiserId == Overridden(Latest(Between(h, i, j), Appraiser), h[i].row.appraiserId)
    ensures h[j - 1].row.reportKey == Overridden(Latest(Between(h, i, j), ReportKey), h[i].row.reportKey)
    decreases j
  {
    if i < j - 1 {
      ColumnsSince(h, i, j - 1);
      AtomicCommit(h, j - 1);
      assert CommitOk(h, j - 1);
      assert h[i..j][..j - 1 - i] == h[i..j - 1];
      var last := Request(h[j - 1].author.value.op, h[j - 1].row.updatedAt);
      assert Between(h, i, j) == Between(h, i, j - 1) + [last];
      LatestSnoc(Between(h, i, j - 1), last, Appraiser);
      LatestSnoc(Between(h, i, j - 1), last, ReportKey);
    }
  }

  /// Nothing in between provides the column, or the last to provide it provides the value it had.
  predicate Restored<T(==)>(last: Option<T>, had: Option<T>) {
    last == None || last == had
  }

  ghost predicate CurrentIff(h: seq<Version>, i: int, j: int, e: Event, row: Appraisal)
    requires 0 <= i < j < |h|
  {
    && (e.data.appraiserId == row.appraiserId <==> Restored(Latest(Between(h, i, j), Appraiser), h[i].row.appraiserId))
    && (e.data.reportKey == row.reportKey <==> Restored(Latest(Between(h, i, j), ReportKey), h[i].row.reportKey))
  }

  lemma CurrentInCore(core: Core, k: nat) returns (i: int, j: int)
    requires HistoriesOk(core) && OutboxAnnounces(core) && DistinctStamps(core) && k in core.db.outbox
    ensures var e := core.db.outbox[k].event;
      && ComesFrom(core, e, i, j)
      && CurrentIff(History(core, e.data.appraisalId), i, j, e, core.db.rows[e.data.appraisalId])
  {
    i, j := ProvenanceInCore(core, k);
    ColumnsSince(core.history[core.db.outbox[k].event.data.appraisalId], i, j);
  }

  /// An event names the completed row's appraiser if and only if the last operation that was committed between
  /// the completion's read and its write and provides an appraiser provides the one that was read, or there is
  /// no such operation; likewise for the report key.
  lemma EventCurrentIff(schedule: seq<Label>, k: nat) returns (i: int, j: int)
    requires DistinctStamps(Run(INITIAL, schedule).core)
    requires k in Run(INITIAL, schedule).core.db.outbox
    ensures var core := Run(INITIAL, schedule).core; var e := core.db.outbox[k].event;
      && ComesFrom(core, e, i, j)
      && CurrentIff(History(core, e.data.appraisalId), i, j, e, core.db.rows[e.data.appraisalId])
  {
    InvReachable(schedule);
    i, j := CurrentInCore(Run(INITIAL, schedule).core, k);
  }
}
