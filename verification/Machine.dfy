/// The whole system as a state machine: the database, the HTTP operations in flight, the inbound
/// consumer with its dedup marks, and the outbox relay. Every source of nondeterminism (which party
/// moves, clocks, fresh ids, faults, crashes) is carried by a label, so a schedule is a sequence of
/// labels and "for every schedule" means for every interleaving. A label that is not enabled does nothing;
/// a crashed operation is one that gets no further label.

module Machine {
  import opened Domain
  import opened Tables

  // ---------- The database with its commit history ----------

  /// Who wrote a version of a row: the session, what it asked for, and how many versions
  /// the row had when the session read it.
  datatype Author = Author(sid: nat, op: Operation, readAt: nat)

  datatype Version = Version(row: Appraisal, author: Option<Author>)

  /// The database, plus two records that no statement reads: every committed version of each
  /// appraisal row, and the outbox ids in the order in which they became visible.
  datatype Core = Core(db: Db, history: map<Uuid, seq<Version>>, visible: seq<nat>)

  function History(core: Core, id: Uuid): seq<Version> {
    if id in core.history then core.history[id] else []
  }

  datatype Change =
    | Nothing
    | Insert(row: Appraisal)
    | Save(a: Appraisal, prev: Stamp, author: Author)
    | Close(id: Uuid, at: Stamp, outboxId: nat, event: Event, author: Author)
    | AddRow(c: Comparable)
    | DropRow(appraisalId: Uuid, comparableId: Uuid)
    | MarkPublished(outboxId: nat)

  function Apply(core: Core, ch: Change): Core {
    match ch
    case Nothing => core
    case Insert(a) =>
      if CreateOutcomeOf(core.db, a) == Created then
        core.(db := DbCreate(core.db, a), history := core.history[a.id := [Version(a, None)]])
      else core
    case Save(a, prev, author) =>
      if UpdateHits(core.db, a.id, prev) then
        core.(db := DbUpdate(core.db, a, prev),
              history := core.history[a.id :=
                History(core, a.id) + [Version(SavedColumns(core.db.rows[a.id], a), Some(author))]])
      else core
    case Close(id, at, outboxId, event, author) =>
      if CompleteOutcomeOf(core.db, id, outboxId, event) == Closed then
        Core(DbComplete(core.db, id, at, outboxId, event),
             core.history[id := History(core, id) + [Version(ClosedRow(core.db.rows[id], at), Some(author))]],
             core.visible + [outboxId])
      else core
    case AddRow(c) => core.(db := DbAddComparable(core.db, c))
    case DropRow(id, c) => core.(db := DbDeleteComparable(core.db, id, c))
    case MarkPublished(k) => core.(db := DbMarkPublished(core.db, k))
  }

  // ---------- HTTP operations (internal/service/appraisal.go) ----------

  datatype Result =
    | Returned(a: Appraisal)
    | Stored(key: string)
    | Added(c: Comparable)
    | Deleted
    | Failed(error: Error)

  /// Where an operation stands. GotRow: the row is read, the comparables are not. Checked: both are read
  /// and the status was in progress, so the write is next. Missed: the write hit no row and the existence
  /// probe is next. The Sync stages are the clean-up that follows a saved calculation: `del` are the old
  /// comparables still to delete, `add` the entries still to insert, each through a nested AddComparable.
  datatype Stage =
    | Start
    | GotRow(row: Appraisal)
    | Checked(row: Appraisal, comparables: seq<Comparable>)
    | Missed
    | Syncing(del: seq<Uuid>, add: seq<ComparableData>)
    | SyncRow(row: Appraisal, add: seq<ComparableData>)
    | SyncChecked(add: seq<ComparableData>)
    | SyncMissed(add: seq<ComparableData>)
    | Done(result: Result)

  /// `readAt` and `missedAt` only record how many versions the row had at the read and at the failed write.
  datatype Session = Session(op: Operation, target: Uuid, stage: Stage, readAt: nat, missedAt: nat)

  /// A statement of an operation with its outcome. GiveUp: a checked operation ends before its write, because
  /// what it still needs (a valid input, the formula configuration, an upload URL) is not to be had.
  datatype Act =
    | SelectRow(fault: Fault)
    | SelectComparables(list: seq<Comparable>, fault: Fault)
    | Execute(now: Stamp, freshId: Uuid, outboxId: nat, occurredAt: Stamp, fault: Fault)
    | Probe(fault: Fault)
    | GiveUp(badInput: bool)

  function Ids(list: seq<Comparable>): seq<Uuid> {
    seq(|list|, i requires 0 <= i < |list| => list[i].id)
  }

  function SkipEntry(add: seq<ComparableData>): Stage {
    if add == [] then Done(Failed(Storage)) else Syncing([], add[1..])
  }

  function CompletionEvent(row: Appraisal, act: Act): Event
    requires act.Execute?
  {
    NewReportReadyEvent(Edited(Complete, row, act.now), act.freshId, act.occurredAt)
  }

  /// What the write statement of a checked operation does to the database.
  function WriteOf(sid: nat, s: Session, act: Act): Change
    requires s.stage.Checked? && act.Execute?
  {
    var row := s.stage.row;
    var author := Author(sid, s.op, s.readAt);
    match s.op
    case Complete => Close(s.target, act.now, act.outboxId, CompletionEvent(row, act), author)
    case AddComparable(data) => AddRow(Comparable(act.freshId, s.target, data, act.now))
    case DeleteComparable(c) => DropRow(s.target, c)
    case _ => Save(Edited(s.op, row, act.now), row.updatedAt, author)
  }

  function SessionChange(sid: nat, s: Session, act: Act): Change {
    if !act.Execute? || act.fault == Lost then Nothing
    else match s.stage
    case Checked(_, _) => WriteOf(sid, s, act)
    case Syncing(del, _) => if del == [] then Nothing else DropRow(s.target, del[0])
    case SyncChecked(add) => if add == [] then Nothing else AddRow(Comparable(act.freshId, s.target, add[0], act.now))
    case _ => Nothing
  }

  /// The stage after the write statement of a checked operation, given the database before it.
  function AfterWrite(db: Db, s: Session, act: Act): Stage
    requires s.stage.Checked? && act.Execute?
  {
    var row := s.stage.row;
    if act.fault != NoFault then Done(Failed(Storage))
    else match s.op
    case Complete =>
      (match CompleteOutcomeOf(db, s.target, act.outboxId, CompletionEvent(row, act))
       case Closed => Done(Returned(Edited(Complete, row, act.now)))
       case Missing => Done(Failed(NotFound))
       case NotOpen => Done(Failed(Conflict))
       case Rejected => Done(Failed(Storage)))
    case AddComparable(data) =>
      var c := Comparable(act.freshId, s.target, data, act.now);
      (match AddOutcomeOf(db, c)
       case Inserted => Done(Added(c))
       case NoOpenParent => Missed
       case Duplicate => Done(Failed(Storage)))
    case DeleteComparable(c) =>
      if DeleteHits(db, s.target, c) then Done(Deleted) else Done(Failed(NotFound))
    case _ =>
      if !UpdateHits(db, row.id, row.updatedAt) then Missed
      else match s.op
        case UploadReport(key) => Done(Stored(key))
        case ApplyCalculation(_, _, entries) => Syncing(Ids(s.stage.comparables), entries)
        case _ => Done(Returned(Edited(s.op, row, act.now)))
  }

  function AfterSelectRow(db: Db, s: Session, fault: Fault): Stage {
    match s.stage
    case Start =>
      if fault != NoFault then Done(Failed(Storage))
      else if s.target !in db.rows then Done(Failed(NotFound))
      else GotRow(db.rows[s.target])
    case Syncing(del, add) =>
      if del != [] then s.stage
      else if fault != NoFault then SkipEntry(add)
      else if s.target !in db.rows then (if add == [] then Done(Failed(NotFound)) else SkipEntry(add))
      else SyncRow(db.rows[s.target], add)
    case _ => s.stage
  }

  function AfterSelectComparables(s: Session, list: seq<Comparable>, fault: Fault): Stage {
    match s.stage
    case GotRow(row) =>
      if fault != NoFault then Done(Failed(Storage))
      else if row.status != InProgress then Done(Failed(InvalidStatus))
      else Checked(row, list)
    case SyncRow(row, add) =>
      if fault != NoFault then SkipEntry(add)
      else if add == [] then Done(Returned(row))
      else if row.status != InProgress then SkipEntry(add)
      else SyncChecked(add)
    case _ => s.stage
  }

  function AfterExecute(db: Db, s: Session, act: Act): Stage
    requires act.Execute?
  {
    match s.stage
    case Checked(_, _) => AfterWrite(db, s, act)
    case Syncing(del, add) => if del == [] then s.stage else Syncing(del[1..], add)
    case SyncChecked(add) =>
      if add != [] && act.fault == NoFault
         && AddOutcomeOf(db, Comparable(act.freshId, s.target, add[0], act.now)) == NoOpenParent
      then SyncMissed(add)
      else SkipEntry(add)
    case _ => s.stage
  }

  function AfterProbe(db: Db, s: Session, fault: Fault): Stage {
    match s.stage
    case Missed =>
      if fault != NoFault then Done(Failed(Storage))
      else if s.target !in db.rows then Done(Failed(NotFound))
      else if s.op.AddComparable? then Done(Failed(InvalidStatus))
      else Done(Failed(Conflict))
    case SyncMissed(add) => SkipEntry(add)
    case _ => s.stage
  }

  function AfterGivingUp(s: Session, badInput: bool): Stage {
    if s.stage.Checked? then Done(Failed(if badInput && s.op.ApplyCalculation? then BadInput else Storage))
    else s.stage
  }

  /// A list of comparables can only be read if it is a listing of the table.
  predicate ActEnabled(db: Db, s: Session, act: Act) {
    act.SelectComparables? && act.fault == NoFault ==> IsListing(db, s.target, act.list)
  }

  function NextSession(core: Core, s: Session, act: Act): Session {
    match act
    case SelectRow(fault) =>
      s.(stage := AfterSelectRow(core.db, s, fault),
         readAt := if s.stage.Start? then |History(core, s.target)| else s.readAt)
    case SelectComparables(list, fault) => s.(stage := AfterSelectComparables(s, list, fault))
    case Execute(_, _, _, _, _) =>
      s.(stage := AfterExecute(core.db, s, act),
         missedAt := if s.stage.Checked? then |History(core, s.target)| else s.missedAt)
    case Probe(fault) => s.(stage := AfterProbe(core.db, s, fault))
    case GiveUp(badInput) => s.(stage := AfterGivingUp(s, badInput))
  }

  // ---------- The inbound consumer (internal/kafka/consumer.go, internal/dedup/redis.go) ----------

  /// Between two consumer calls: a message was fetched, must be created, marked or committed.
  datatype Reading = Waiting | Fetched | Creating | Marking | Committing | Stopped

  /// `log` is the request.events partition, `committed` the group's offset, `at` the reader's position,
  /// `marks` the dedup keys present in Redis. `delivered` records which offsets were ever fetched.
  datatype Inbound = Inbound(
    log: seq<Message>,
    committed: nat,
    marks: set<Uuid>,
    reading: Reading,
    at: nat,
    delivered: set<nat>)

  datatype InboundAct =
    | Produce(m: Message)
    | Fetch
    | CheckDup(fault: Fault)
    | Create(freshId: Uuid, now: Stamp, fault: Fault)
    | Mark(fault: Fault)
    | Commit(fault: Fault)
    | Restart(position: nat)
    | Expire(gone: set<Uuid>)

  /// The message being handled.
  predicate Handling(b: Inbound) {
    b.at < |b.log| && Relevant(b.log[b.at])
  }

  function InboundChange(b: Inbound, act: InboundAct): Change {
    if act.Create? && act.fault != Lost && b.reading == Creating && Handling(b)
    then Insert(NewAppraisal(act.freshId, b.log[b.at].requestId, act.now))
    else Nothing
  }

  /// With `dedup` false the consumer never consults the marks.
  function NextInbound(dedup: bool, db: Db, b: Inbound, act: InboundAct): Inbound {
    match act
    case Produce(m) => b.(log := b.log + [m])
    case Expire(gone) => b.(marks := b.marks - gone)
    case Restart(position) => if position <= b.committed then b.(reading := Waiting, at := position) else b
    case Fetch =>
      if b.reading == Waiting && b.at < |b.log| then
        b.(reading := if Relevant(b.log[b.at]) then Fetched else Committing, delivered := b.delivered + {b.at})
      else b
    case CheckDup(fault) =>
      if b.reading == Fetched && Handling(b) then
        b.(reading := if fault != NoFault then Stopped
                      else if dedup && b.log[b.at].eventId in b.marks then Committing
                      else Creating)
      else b
    case Create(freshId, now, fault) =>
      if b.reading == Creating && Handling(b) then
        b.(reading := if fault != NoFault
                         || CreateOutcomeOf(db, NewAppraisal(freshId, b.log[b.at].requestId, now)) == KeyTaken
                      then Stopped else Marking)
      else b
    case Mark(fault) =>
      if b.reading == Marking && Handling(b) then
        b.(reading := if fault != NoFault then Stopped else Committing,
           marks := if fault == Lost then b.marks else b.marks + {b.log[b.at].eventId})
      else b
    case Commit(fault) =>
      if b.reading == Committing then
        b.(reading := if fault != NoFault then Stopped else Waiting,
           committed := if fault == Lost then b.committed else b.at + 1,
           at := if fault != NoFault then b.at else b.at + 1)
      else b
  }

  // ---------- The outbox relay (internal/outbox/relay.go) ----------

  /// `batch` is what is left of the batch being published, `sent` whether its first row is
  /// published but not yet marked, `log` the review.events topic in publishing order.
  datatype Relay = Relay(batch: seq<OutMessage>, sent: bool, log: seq<OutMessage>)

  datatype RelayAct =
    | Poll(batch: seq<OutMessage>)
    | Publish(fault: Fault)
    | MarkSent(fault: Fault)
    | RelayCrash

  function RelayChange(r: Relay, act: RelayAct): Change {
    if act.MarkSent? && act.fault != Lost && r.sent && r.batch != []
    then MarkPublished(r.batch[0].outboxId)
    else Nothing
  }

  predicate RelayEnabled(db: Db, r: Relay, act: RelayAct) {
    act.Poll? ==> r.batch == [] && IsBatch(db, act.batch)
  }

  function NextRelay(r: Relay, act: RelayAct): Relay {
    match act
    case Poll(batch) => r.(batch := batch, sent := false)
    case Publish(fault) =>
      if r.batch == [] || r.sent then r
      else if fault == NoFault then r.(log := r.log + [r.batch[0]], sent := true)
      else if fault == Lost then r.(batch := [])
      else r.(log := r.log + [r.batch[0]], batch := [])
    case MarkSent(fault) =>
      if r.batch == [] || !r.sent then r
      else if fault == NoFault then r.(batch := r.batch[1..], sent := false)
      else r.(batch := [], sent := false)
    case RelayCrash => r.(batch := [], sent := false)
  }

  // ---------- The world ----------

  datatype World = World(core: Core, sessions: map<nat, Session>, inbound: Inbound, relay: Relay)

  datatype Label =
    | Begin(sid: nat, target: Uuid, op: Operation)
    | Proceed(sid: nat, act: Act)
    | Consume(inb: InboundAct)
    | Forward(rel: RelayAct)

  const INITIAL := World(Core(Db(map[], map[], map[]), map[], []), map[],
                         Inbound([], 0, {}, Waiting, 0, {}), Relay([], false, []))

  predicate Enabled(w: World, l: Label) {
    match l
    case Begin(sid, _, _) => sid !in w.sessions
    case Proceed(sid, act) => sid in w.sessions && ActEnabled(w.core.db, w.sessions[sid], act)
    case Consume(_) => true
    case Forward(rel) => RelayEnabled(w.core.db, w.relay, rel)
  }

  function ChangeOf(w: World, l: Label): Change {
    match l
    case Begin(_, _, _) => Nothing
    case Proceed(sid, act) => if sid in w.sessions then SessionChange(sid, w.sessions[sid], act) else Nothing
    case Consume(inb) => InboundChange(w.inbound, inb)
    case Forward(rel) => RelayChange(w.relay, rel)
  }

  function NextSessions(w: World, l: Label): map<nat, Session> {
    match l
    case Begin(sid, target, op) => w.sessions[sid := Session(op, target, Start, 0, 0)]
    case Proceed(sid, act) =>
      if sid in w.sessions then w.sessions[sid := NextSession(w.core, w.sessions[sid], act)] else w.sessions
    case Consume(_) => w.sessions
    case Forward(_) => w.sessions
  }

  function Take(dedup: bool, w: World, l: Label): World {
    World(Apply(w.core, ChangeOf(w, l)),
          NextSessions(w, l),
          if l.Consume? then NextInbound(dedup, w.core.db, w.inbound, l.inb) else w.inbound,
          if l.Forward? then NextRelay(w.relay, l.rel) else w.relay)
  }

  function StepWith(dedup: bool, w: World, l: Label): World {
    if Enabled(w, l) then Take(dedup, w, l) else w
  }

  function Step(w: World, l: Label): World {
    StepWith(true, w, l)
  }

  function RunWith(dedup: bool, w: World, schedule: seq<Label>): World {
    if schedule == [] then w
    else StepWith(dedup, RunWith(dedup, w, schedule[..|schedule| - 1]), schedule[|schedule| - 1])
  }

  function Run(w: World, schedule: seq<Label>): World {
    RunWith(true, w, schedule)
  }

  lemma RunConcat(dedup: bool, w: World, a: seq<Label>, b: seq<Label>)
    ensures RunWith(dedup, w, a + b) == RunWith(dedup, RunWith(dedup, w, a), b)
  {
    if b == [] {
      assert a + b == a;
    } else {
      var n := |b| - 1;
      RunConcat(dedup, w, a, b[..n]);
      assert (a + b)[..|a + b| - 1] == a + b[..n];
    }
  }

  lemma RunOne(dedup: bool, w: World, l: Label)
    ensures RunWith(dedup, w, [l]) == StepWith(dedup, w, l)
  {
    assert [l][..0] == [];
  }

  lemma RunSnoc(schedule: seq<Label>, l: Label)
    ensures Run(INITIAL, schedule + [l]) == Step(Run(INITIAL, schedule), l)
  {
    RunConcat(true, INITIAL, schedule, [l]);
    RunOne(true, Run(INITIAL, schedule), l);
  }
}
