/// What every change keeps about the database and its commit history, provided the change comes from a
/// service operation (`Sound`). Each row's history is a chain of commits, each outbox row announces one
/// completion, and the two are in bijection.

module CoreInvariant {
  import opened Domain
  import opened Tables
  import opened Machine

  // ---------- Row histories ----------

  /// Version k was committed by an operation that had read version readAt - 1 while it was in progress.
  /// A save passed the stamp guard and set its columns from that copy; a completion passed the status guard.
  ghost predicate CommitOk(h: seq<Version>, k: int)
    requires 1 <= k < |h|
  {
    && h[k].author.Some?
    && var who := h[k].author.value;
    && 1 <= who.readAt <= k
    && h[who.readAt - 1].row.status == InProgress
    && (who.op.Saves() || who.op.Complete?)
    && (who.op.Saves() ==>
          && h[who.readAt - 1].row.updatedAt == h[k - 1].row.updatedAt
          && h[k].row == SavedColumns(h[k - 1].row, Edited(who.op, h[who.readAt - 1].row, h[k].row.updatedAt)))
    && (who.op.Complete? ==>
          && h[k - 1].row.status == InProgress
          && h[k].row == Edited(Complete, h[k - 1].row, h[k].row.updatedAt))
  }

  ghost predicate Chain(h: seq<Version>) {
    && |h| > 0
    && h[0].author == None
    && h[0].row == NewAppraisal(h[0].row.id, h[0].row.requestId, h[0].row.createdAt)
    && (forall k :: 1 <= k < |h| ==> CommitOk(h, k))
  }

  /// What never changes along a history, and the tie between status and completed_at.
  ghost predicate Uniform(h: seq<Version>, id: Uuid) {
    forall k :: 0 <= k < |h| ==>
      && h[k].row.id == id
      && h[k].row.requestId == h[0].row.requestId
      && (h[k].row.completedAt.Some? <==> h[k].row.status == Completed)
  }

  ghost predicate HistoriesOk(core: Core) {
    && core.history.Keys == core.db.rows.Keys
    && (forall id :: id in core.db.rows ==>
          var h := core.history[id];
          Chain(h) && Uniform(h, id) && h[|h| - 1].row == core.db.rows[id])
  }

  ghost predicate AuthorAt(core: Core, id: Uuid, k: int) {
    id in core.history && 0 <= k < |core.history[id]| && core.history[id][k].author.Some?
  }

  /// A session commits at most once, on one row.
  ghost predicate AuthorsUnique(core: Core) {
    forall id, k, id', k' | AuthorAt(core, id, k) && AuthorAt(core, id', k') ::
      core.history[id][k].author.value.sid == core.history[id'][k'].author.value.sid ==> id == id' && k == k'
  }

  ghost predicate Wrote(core: Core, sid: nat, id: Uuid, k: int) {
    AuthorAt(core, id, k) && core.history[id][k].author.value.sid == sid
  }

  // ---------- Tables ----------

  ghost predicate RequestsUnique(db: Db) {
    forall id, id' | id in db.rows && id' in db.rows :: db.rows[id].requestId == db.rows[id'].requestId ==> id == id'
  }

  ghost predicate ForeignKeys(db: Db) {
    forall c | c in db.comparables :: db.comparables[c].id == c && db.comparables[c].appraisalId in db.rows
  }

  /// Outbox event e announces that version j of its appraisal closed the row: ids and completion time are
  /// those of the row, appraiser and report key those of the version the completing operation had read.
  ghost predicate Announces(core: Core, e: Event, j: int) {
    var id := e.data.appraisalId;
    && id in core.history
    && var h := core.history[id];
    && 1 <= j < |h|
    && h[j].author.Some?
    && h[j].author.value.op.Complete?
    && 1 <= h[j].author.value.readAt <= j
    && var read := h[h[j].author.value.readAt - 1].row;
    && e.eventType == EVENT_TYPE_REPORT_READY
    && e.version == EVENT_VERSION
    && e.requestId == h[0].row.requestId
    && h[j].row.completedAt == Some(e.data.completedAt)
    && e.data.appraiserId == read.appraiserId
    && e.data.reportKey == read.reportKey
  }

  ghost predicate Announced(core: Core, e: Event) {
    exists j :: Announces(core, e, j)
  }

  ghost predicate OutboxAnnounces(core: Core) {
    forall k | k in core.db.outbox ::
      && core.db.outbox[k].aggregateId == core.db.outbox[k].event.requestId
      && core.db.outbox[k].topic == TOPIC_REVIEW_EVENTS
      && Announced(core, core.db.outbox[k].event)
  }

  ghost predicate AggregatesDistinct(db: Db) {
    forall k, k' | k in db.outbox && k' in db.outbox ::
      (db.outbox[k].aggregateId == db.outbox[k'].aggregateId ==> k == k') &&
      (db.outbox[k].event.eventId == db.outbox[k'].event.eventId ==> k == k')
  }

  ghost predicate AnnouncedIn(db: Db, id: Uuid) {
    exists k :: k in db.outbox && db.outbox[k].event.data.appraisalId == id
  }

  ghost predicate CompletionsAnnounced(db: Db) {
    forall id | id in db.rows && db.rows[id].status == Completed :: AnnouncedIn(db, id)
  }

  ghost predicate VisibleOk(core: Core) {
    && (forall k :: k in core.db.outbox <==> k in core.visible)
    && (forall i, j :: 0 <= i < j < |core.visible| ==> core.visible[i] != core.visible[j])
  }

  ghost predicate CoreInv(core: Core) {
    && HistoriesOk(core)
    && AuthorsUnique(core)
    && RequestsUnique(core.db)
    && ForeignKeys(core.db)
    && OutboxAnnounces(core)
    && AggregatesDistinct(core.db)
    && CompletionsAnnounced(core.db)
    && VisibleOk(core)
  }

  // ---------- Changes the service makes ----------

  /// The author read a version of the row that was in progress, and has committed nothing yet.
  ghost predicate ReadBy(core: Core, id: Uuid, author: Author) {
    && 1 <= author.readAt <= |History(core, id)|
    && History(core, id)[author.readAt - 1].row.status == InProgress
    && (forall id', k :: !Wrote(core, author.sid, id', k))
  }

  ghost predicate Sound(core: Core, ch: Change) {
    match ch
    case Insert(a) => a == NewAppraisal(a.id, a.requestId, a.createdAt)
    case Save(a, prev, author) =>
      && ReadBy(core, a.id, author)
      && author.op.Saves()
      && var read := History(core, a.id)[author.readAt - 1].row;
      && prev == read.updatedAt
      && a == Edited(author.op, read, a.updatedAt)
    case Close(id, at, outboxId, event, author) =>
      && ReadBy(core, id, author)
      && author.op.Complete?
      && var read := History(core, id)[author.readAt - 1].row;
      && event == NewReportReadyEvent(Edited(Complete, read, at), event.eventId, event.occurredAt)
    case _ => true
  }

  // ---------- Completion is one-way ----------

  /// Along a chain a completed version is followed by completed versions with the same completion time.
  lemma {:induction false} OneWay(h: seq<Version>, i: int, j: int)
    requires Chain(h) && 0 <= i <= j < |h|
    requires h[i].row.status == Completed
    ensures h[j].row.status == Completed && h[j].row.completedAt == h[i].row.completedAt
  {
    if i < j {
      OneWay(h, i, j - 1);
      assert CommitOk(h, j);
    }
  }

  lemma ChainExtends(h: seq<Version>, v: Version, id: Uuid)
    requires Chain(h) && Uniform(h, id)
    requires CommitOk(h + [v], |h|)
    ensures Chain(h + [v]) && Uniform(h + [v], id)
  {
    var g := h + [v];
    forall k | 1 <= k < |g| ensures CommitOk(g, k) {
      if k < |h| {
        assert CommitOk(h, k);
      }
    }
  }

  // ---------- Each change keeps each part ----------

  lemma SaveCommits(core: Core, ch: Change)
    requires HistoriesOk(core) && ch.Save? && Sound(core, ch) && UpdateHits(core.db, ch.a.id, ch.prev)
    ensures var h := Apply(core, ch).history[ch.a.id];
      h[..|h| - 1] == core.history[ch.a.id] && Chain(h) && Uniform(h, ch.a.id)
  {
    var id := ch.a.id;
    var h := core.history[id];
    var v := Version(SavedColumns(core.db.rows[id], ch.a), Some(ch.author));
    var read := h[ch.author.readAt - 1].row;
    assert (h + [v])[|h|] == v;
    assert ch.a == Edited(ch.author.op, read, ch.a.updatedAt);
    assert v.row.updatedAt == ch.a.updatedAt;
    assert CommitOk(h + [v], |h|);
    ChainExtends(h, v, id);
  }

  lemma CloseCommits(core: Core, ch: Change)
    requires HistoriesOk(core) && ch.Close? && Sound(core, ch)
    requires CompleteOutcomeOf(core.db, ch.id, ch.outboxId, ch.event) == Closed
    ensures var h := Apply(core, ch).history[ch.id];
      h[..|h| - 1] == core.history[ch.id] && Chain(h) && Uniform(h, ch.id)
  {
    var h := core.history[ch.id];
    var v := Version(ClosedRow(core.db.rows[ch.id], ch.at), Some(ch.author));
    assert CommitOk(h + [v], |h|);
    ChainExtends(h, v, ch.id);
  }

  lemma OneHistoryChanges(core: Core, after: Core, id: Uuid)
    requires HistoriesOk(core)
    requires id in after.history && Chain(after.history[id]) && Uniform(after.history[id], id)
    requires after.history == core.history[id := after.history[id]]
    requires after.db.rows == core.db.rows[id := after.history[id][|after.history[id]| - 1].row]
    ensures HistoriesOk(after)
  {
  }

  lemma KeepsHistories(core: Core, ch: Change)
    requires HistoriesOk(core) && Sound(core, ch)
    ensures HistoriesOk(Apply(core, ch))
  {
    match ch
    case Insert(a) =>
      if CreateOutcomeOf(core.db, a) == Created {
        OneHistoryChanges(core, Apply(core, ch), a.id);
      }
    case Save(a, prev, _) =>
      if UpdateHits(core.db, a.id, prev) {
        SaveCommits(core, ch);
        OneHistoryChanges(core, Apply(core, ch), a.id);
      }
    case Close(id, _, outboxId, event, _) =>
      if CompleteOutcomeOf(core.db, id, outboxId, event) == Closed {
        CloseCommits(core, ch);
        OneHistoryChanges(core, Apply(core, ch), id);
      }
    case _ =>
  }

  ghost predicate HistoriesGrow(a: map<Uuid, seq<Version>>, b: map<Uuid, seq<Version>>) {
    forall id :: id in a ==> id in b && a[id] <= b[id]
  }

  ghost predicate OutboxGrows(a: map<nat, OutboxRow>, b: map<nat, OutboxRow>) {
    forall k :: k in a ==>
      k in b && b[k].event == a[k].event && b[k].aggregateId == a[k].aggregateId && (a[k].published ==> b[k].published)
  }

  /// Histories only grow at the end, and no row, outbox row or event is ever lost.
  ghost predicate Grows(a: Core, b: Core) {
    && HistoriesGrow(a.history, b.history)
    && OutboxGrows(a.db.outbox, b.db.outbox)
    && a.visible <= b.visible
  }

  lemma HistoryGrows(core: Core, ch: Change)
    requires HistoriesOk(core)
    ensures HistoriesGrow(core.history, Apply(core, ch).history)
  {
  }

  lemma ApplyGrows(core: Core, ch: Change)
    requires HistoriesOk(core)
    ensures Grows(core, Apply(core, ch))
  {
    HistoryGrows(core, ch);
    assert OutboxGrows(core.db.outbox, Apply(core, ch).db.outbox);
  }

  lemma GrowsTransitive(a: Core, b: Core, c: Core)
    requires Grows(a, b) && Grows(b, c)
    ensures Grows(a, c)
  {
  }

  /// Version k of row id in `after` either was there before, or is the one change ch adds.
  ghost predicate Origin(core: Core, after: Core, ch: Change, id: Uuid, k: int)
    requires AuthorAt(after, id, k)
  {
    || (AuthorAt(core, id, k) && after.history[id][k] == core.history[id][k])
    || (&& (ch.Save? || ch.Close?)
        && id == (if ch.Save? then ch.a.id else ch.id)
        && k == |History(core, id)|
        && after.history[id][k].author.value == ch.author
        && forall id', k' :: !Wrote(core, ch.author.sid, id', k'))
  }

  lemma AuthorOrigin(core: Core, ch: Change, id: Uuid, k: int)
    requires HistoriesOk(core) && Sound(core, ch) && AuthorAt(Apply(core, ch), id, k)
    ensures Origin(core, Apply(core, ch), ch, id, k)
  {
  }

  lemma TwoAuthors(core: Core, after: Core, ch: Change, id: Uuid, k: int, id': Uuid, k': int)
    requires AuthorsUnique(core)
    requires AuthorAt(after, id, k) && AuthorAt(after, id', k')
    requires Origin(core, after, ch, id, k) && Origin(core, after, ch, id', k')
    ensures after.history[id][k].author.value.sid == after.history[id'][k'].author.value.sid ==> id == id' && k == k'
  {
    if AuthorAt(core, id, k) {
      assert Wrote(core, core.history[id][k].author.value.sid, id, k);
    }
    if AuthorAt(core, id', k') {
      assert Wrote(core, core.history[id'][k'].author.value.sid, id', k');
    }
  }

  lemma KeepsAuthors(core: Core, ch: Change)
    requires HistoriesOk(core) && AuthorsUnique(core) && Sound(core, ch)
    ensures AuthorsUnique(Apply(core, ch))
  {
    forall id, k, id', k' | AuthorAt(Apply(core, ch), id, k) && AuthorAt(Apply(core, ch), id', k')
      ensures Apply(core, ch).history[id][k].author.value.sid == Apply(core, ch).history[id'][k'].author.value.sid ==>
        id == id' && k == k'
    {
      AuthorOrigin(core, ch, id, k);
      AuthorOrigin(core, ch, id', k');
      TwoAuthors(core, Apply(core, ch), ch, id, k, id', k');
    }
  }

  /// The only new row is one that was inserted for a request without an appraisal.
  lemma RequestsStay(core: Core, ch: Change, id: Uuid)
    requires HistoriesOk(core) && id in Apply(core, ch).db.rows
    ensures id in core.db.rows ==> Apply(core, ch).db.rows[id].requestId == core.db.rows[id].requestId
    ensures id !in core.db.rows ==>
      && ch.Insert? && id == ch.row.id && Apply(core, ch).db.rows[id].requestId == ch.row.requestId
      && !HasRequest(core.db, ch.row.requestId)
  {
  }

  lemma KeepsRequests(core: Core, ch: Change)
    requires HistoriesOk(core) && RequestsUnique(core.db)
    ensures RequestsUnique(Apply(core, ch).db)
  {
    var rows := Apply(core, ch).db.rows;
    forall id, id' | id in rows && id' in rows && rows[id].requestId == rows[id'].requestId ensures id == id' {
      RequestsStay(core, ch, id);
      RequestsStay(core, ch, id');
    }
  }

  lemma KeepsForeignKeys(core: Core, ch: Change)
    requires ForeignKeys(core.db)
    ensures ForeignKeys(Apply(core, ch).db)
  {
  }

  lemma AnnouncesStays(a: Core, b: Core, e: Event, j: int)
    requires Grows(a, b) && Announces(a, e, j)
    ensures Announces(b, e, j)
  {
  }

  lemma NewRowAnnounces(core: Core, ch: Change)
    requires HistoriesOk(core) && ch.Close? && Sound(core, ch)
    requires CompleteOutcomeOf(core.db, ch.id, ch.outboxId, ch.event) == Closed
    ensures Announces(Apply(core, ch), ch.event, |core.history[ch.id]|)
  {
    CloseCommits(core, ch);
    var h := core.history[ch.id];
    var h' := Apply(core, ch).history[ch.id];
    assert h' == h + [Version(ClosedRow(core.db.rows[ch.id], ch.at), Some(ch.author))];
    assert h'[ch.author.readAt - 1] == h[ch.author.readAt - 1];
  }

  /// Of an outbox row only the mark changes, and a new one is that of a completion.
  lemma OutboxRowStays(core: Core, ch: Change, k: nat)
    requires k in Apply(core, ch).db.outbox
    ensures var row := Apply(core, ch).db.outbox[k];
      if k in core.db.outbox then
        row == core.db.outbox[k].(published := row.published)
      else
        && ch.Close? && CompleteOutcomeOf(core.db, ch.id, ch.outboxId, ch.event) == Closed
        && row == OutboxEntry(ch.event)
  {
  }

  lemma AnnouncedStays(core: Core, ch: Change, e: Event)
    requires HistoriesOk(core) && Announced(core, e)
    ensures Announced(Apply(core, ch), e)
  {
    ApplyGrows(core, ch);
    var j :| Announces(core, e, j);
    AnnouncesStays(core, Apply(core, ch), e, j);
  }

  lemma KeepsOutbox(core: Core, ch: Change)
    requires HistoriesOk(core) && OutboxAnnounces(core) && Sound(core, ch)
    ensures OutboxAnnounces(Apply(core, ch))
  {
    var after := Apply(core, ch);
    forall k | k in after.db.outbox
      ensures after.db.outbox[k].aggregateId == after.db.outbox[k].event.requestId
      ensures after.db.outbox[k].topic == TOPIC_REVIEW_EVENTS && Announced(after, after.db.outbox[k].event)
    {
      OutboxRowStays(core, ch, k);
      if k in core.db.outbox {
        AnnouncedStays(core, ch, core.db.outbox[k].event);
      } else {
        NewRowAnnounces(core, ch);
      }
    }
  }

  /// The appraisal an outbox row announces is completed and carries the announced request.
  lemma AnnouncedRow(core: Core, k: nat)
    requires HistoriesOk(core) && OutboxAnnounces(core) && k in core.db.outbox
    ensures var e := core.db.outbox[k].event; var id := e.data.appraisalId;
      && id in core.db.rows
      && core.db.rows[id].status == Completed
      && core.db.rows[id].requestId == e.requestId == core.db.outbox[k].aggregateId
      && core.db.rows[id].completedAt == Some(e.data.completedAt)
  {
    var e := core.db.outbox[k].event;
    var j :| Announces(core, e, j);
    var h := core.history[e.data.appraisalId];
    OneWay(h, j, |h| - 1);
  }

  lemma KeepsAggregates(core: Core, ch: Change)
    requires HistoriesOk(core) && OutboxAnnounces(core) && AggregatesDistinct(core.db) && RequestsUnique(core.db)
    requires Sound(core, ch)
    ensures AggregatesDistinct(Apply(core, ch).db)
  {
    if ch.Close? && CompleteOutcomeOf(core.db, ch.id, ch.outboxId, ch.event) == Closed {
      assert ch.event.requestId == core.db.rows[ch.id].requestId;
      forall k | k in core.db.outbox
        ensures core.db.outbox[k].aggregateId != ch.event.requestId
        ensures core.db.outbox[k].event.eventId != ch.event.eventId
      {
        AnnouncedRow(core, k);
      }
    }
  }

  /// Only the completion transaction completes a row, and it announces it.
  lemma NewlyCompleted(core: Core, ch: Change, id: Uuid)
    requires HistoriesOk(core) && Sound(core, ch)
    requires var after := Apply(core, ch).db; id in after.rows && after.rows[id].status == Completed
    requires !(id in core.db.rows && core.db.rows[id].status == Completed)
    ensures AnnouncedIn(Apply(core, ch).db, id)
  {
    assert ch.Close? && ch.id == id;
    assert ch.outboxId in Apply(core, ch).db.outbox;
  }

  lemma KeepsCompletions(core: Core, ch: Change)
    requires HistoriesOk(core) && CompletionsAnnounced(core.db) && Sound(core, ch)
    ensures CompletionsAnnounced(Apply(core, ch).db)
  {
    var db, after := core.db, Apply(core, ch).db;
    ApplyGrows(core, ch);
    forall id | id in after.rows && after.rows[id].status == Completed ensures AnnouncedIn(after, id) {
      if id in db.rows && db.rows[id].status == Completed {
        assert AnnouncedIn(db, id);
      } else {
        NewlyCompleted(core, ch, id);
      }
    }
  }

  lemma KeepsVisible(core: Core, ch: Change)
    requires VisibleOk(core)
    ensures VisibleOk(Apply(core, ch))
  {
  }

  lemma CoreInvKept(core: Core, ch: Change)
    requires CoreInv(core) && Sound(core, ch)
    ensures CoreInv(Apply(core, ch)) && Grows(core, Apply(core, ch))
  {
    KeepsHistories(core, ch);
    KeepsAuthors(core, ch);
    KeepsRequests(core, ch);
    KeepsForeignKeys(core, ch);
    KeepsOutbox(core, ch);
    KeepsAggregates(core, ch);
    KeepsCompletions(core, ch);
    KeepsVisible(core, ch);
    ApplyGrows(core, ch);
  }
}
