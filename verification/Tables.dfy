/// The tables of review_db and the SQL statements that change them
/// (internal/repository/postgres.go, migrations/). Each statement, and the transaction of
/// Complete, is one atomic function of the whole database.

module Tables {
  import opened Domain

  datatype OutboxRow = OutboxRow(event: Event, topic: string, aggregateId: Uuid, published: bool)

  datatype Db = Db(
    rows: map<Uuid, Appraisal>,
    comparables: map<Uuid, Comparable>,
    outbox: map<nat, OutboxRow>)

  predicate HasRequest(db: Db, requestId: Uuid) {
    exists id :: id in db.rows && db.rows[id].requestId == requestId
  }

  /// The comparables of one appraisal.
  function ComparablesOf(db: Db, id: Uuid): map<Uuid, Comparable> {
    map c | c in db.comparables && db.comparables[c].appraisalId == id :: db.comparables[c]
  }

  /// What SELECT ... FROM comparables WHERE appraisal_id = id ORDER BY created_at may return:
  /// every comparable of the appraisal once, oldest first, ties in any order.
  predicate IsListing(db: Db, id: Uuid, list: seq<Comparable>) {
    && (forall i :: 0 <= i < |list| ==>
          list[i].id in ComparablesOf(db, id) && ComparablesOf(db, id)[list[i].id] == list[i])
    && (forall c | c in ComparablesOf(db, id) :: exists i :: 0 <= i < |list| && list[i].id == c)
    && (forall i, j :: 0 <= i < j < |list| ==> list[i].id != list[j].id && list[i].createdAt <= list[j].createdAt)
  }

  // ---------- INSERT INTO appraisals ... ON CONFLICT (request_id) DO NOTHING ----------

  datatype CreateOutcome = Created | AlreadyThere | KeyTaken

  function CreateOutcomeOf(db: Db, a: Appraisal): CreateOutcome {
    if HasRequest(db, a.requestId) then AlreadyThere
    else if a.id in db.rows then KeyTaken
    else Created
  }

  /// A row as the consumer inserts it.
  function NewAppraisal(id: Uuid, requestId: Uuid, now: Stamp): Appraisal {
    Appraisal(id, requestId, None, InProgress, None, None, None, None, None, now, now)
  }

  function DbCreate(db: Db, a: Appraisal): Db {
    if CreateOutcomeOf(db, a) == Created then db.(rows := db.rows[a.id := a]) else db
  }

  // ---------- UPDATE appraisals ... WHERE id = $7 AND updated_at = $8 ----------

  predicate UpdateHits(db: Db, id: Uuid, prev: Stamp) {
    id in db.rows && db.rows[id].updatedAt == prev
  }

  /// The columns the UPDATE sets; status, completed_at and the keys are not among them.
  function SavedColumns(stored: Appraisal, a: Appraisal): Appraisal {
    stored.(appraiserId := a.appraiserId, notes := a.notes, marketValue := a.marketValue,
          reportKey := a.reportKey, calculationData := a.calculationData, updatedAt := a.updatedAt)
  }

  function DbUpdate(db: Db, a: Appraisal, prev: Stamp): Db {
    if UpdateHits(db, a.id, prev) then db.(rows := db.rows[a.id := SavedColumns(db.rows[a.id], a)]) else db
  }

  // ---------- The completion transaction: guarded UPDATE, then INSERT INTO outbox ----------

  datatype CompleteOutcome = Closed | Missing | NotOpen | Rejected

  predicate EventKnown(db: Db, eventId: Uuid) {
    exists k :: k in db.outbox && db.outbox[k].event.eventId == eventId
  }

  function CompleteOutcomeOf(db: Db, id: Uuid, outboxId: nat, event: Event): CompleteOutcome {
    if id !in db.rows then Missing
    else if db.rows[id].status != InProgress then NotOpen
    else if outboxId in db.outbox || EventKnown(db, event.eventId) then Rejected
    else Closed
  }

  function ClosedRow(a: Appraisal, at: Stamp): Appraisal {
    a.(status := Completed, completedAt := Some(at), updatedAt := at)
  }

  function OutboxEntry(event: Event): OutboxRow {
    OutboxRow(event, TOPIC_REVIEW_EVENTS, event.requestId, false)
  }

  function DbComplete(db: Db, id: Uuid, at: Stamp, outboxId: nat, event: Event): Db {
    if CompleteOutcomeOf(db, id, outboxId, event) == Closed then
      db.(rows := db.rows[id := ClosedRow(db.rows[id], at)],
          outbox := db.outbox[outboxId := OutboxEntry(event)])
    else db
  }

  // ---------- INSERT INTO comparables ... WHERE EXISTS (in-progress appraisal) ----------

  datatype AddOutcome = Inserted | NoOpenParent | Duplicate

  function AddOutcomeOf(db: Db, c: Comparable): AddOutcome {
    if c.appraisalId !in db.rows || db.rows[c.appraisalId].status != InProgress then NoOpenParent
    else if c.id in db.comparables then Duplicate
    else Inserted
  }

  function DbAddComparable(db: Db, c: Comparable): Db {
    if AddOutcomeOf(db, c) == Inserted then db.(comparables := db.comparables[c.id := c]) else db
  }

  // ---------- DELETE FROM comparables WHERE id = $1 AND appraisal_id = $2 ----------

  predicate DeleteHits(db: Db, appraisalId: Uuid, comparableId: Uuid) {
    comparableId in db.comparables && db.comparables[comparableId].appraisalId == appraisalId
  }

  function DbDeleteComparable(db: Db, appraisalId: Uuid, comparableId: Uuid): Db {
    if DeleteHits(db, appraisalId, comparableId) then db.(comparables := db.comparables - {comparableId}) else db
  }

  // ---------- The relay's SELECT and UPDATE on the outbox ----------

  const BATCH_SIZE := 100

  datatype OutMessage = OutMessage(outboxId: nat, event: Event)

  predicate Unpublished(db: Db, k: nat) {
    k in db.outbox && !db.outbox[k].published
  }

  /// What SELECT ... WHERE published_at IS NULL ORDER BY id LIMIT 100 returns.
  predicate IsBatch(db: Db, batch: seq<OutMessage>) {
    && |batch| <= BATCH_SIZE
    && (forall i :: 0 <= i < |batch| ==>
          Unpublished(db, batch[i].outboxId) && db.outbox[batch[i].outboxId].event == batch[i].event)
    && (forall i, j :: 0 <= i < j < |batch| ==> batch[i].outboxId < batch[j].outboxId)
    && (forall k | k in db.outbox && Unpublished(db, k) ::
          || (exists i :: 0 <= i < |batch| && batch[i].outboxId == k)
          || (|batch| == BATCH_SIZE && batch[BATCH_SIZE - 1].outboxId < k))
  }

  function DbMarkPublished(db: Db, k: nat): Db {
    if k in db.outbox then db.(outbox := db.outbox[k := db.outbox[k].(published := true)]) else db
  }
}
