/// The repository and service methods of internal/repository/postgres.go and internal/service/appraisal.go,
/// statement by statement, with anything happening between two statements. Each method is proved to be
/// a run of one session of the state machine that ends with the result it returns; when nobody interferes and
/// nothing fails, applying a calculation also has the exact sequential effect stated on it.

module Services {
  import opened Domain
  import opened Tables
  import opened Machine
  import opened Sites

  datatype Fetch = Got(a: Appraisal, comparables: seq<Comparable>) | Unread(error: Error)

  /// Where a session stands once GetByID has returned.
  function AfterGet(before: Stage, r: Fetch): Stage {
    match before
    case Syncing(_, add) =>
      if r.Unread? then (if add == [] then Done(Failed(r.error)) else SkipEntry(add))
      else if add == [] then Done(Returned(r.a))
      else if r.a.status != InProgress then SkipEntry(add)
      else SyncChecked(add)
    case _ =>
      if r.Unread? then Done(Failed(r.error))
      else if r.a.status != InProgress then Done(Failed(InvalidStatus))
      else Checked(r.a, r.comparables)
  }

  /// Where a session stands once its save is in.
  function AfterSave(op: Operation, row: Appraisal, list: seq<Comparable>, now: Stamp): Stage {
    match op
    case UploadReport(key) => Done(Stored(key))
    case ApplyCalculation(_, _, entries) => Syncing(Ids(list), entries)
    case _ => Done(Returned(Edited(op, row, now)))
  }

  /// The effect and answer of an operation that runs alone and without faults.
  function Alone(db: Db, id: Uuid, op: Operation, now: Stamp, freshId: Uuid, outboxId: nat, occurredAt: Stamp)
      : (Db, Result)
  {
    if id !in db.rows then (db, Failed(NotFound))
    else if db.rows[id].status != InProgress then (db, Failed(InvalidStatus))
    else
      var a := Edited(op, db.rows[id], now);
      match op
      case Update(_) => (db.(rows := db.rows[id := a]), Returned(a))
      case UploadReport(key) => (db.(rows := db.rows[id := a]), Stored(key))
      case Complete =>
        var event := NewReportReadyEvent(a, freshId, occurredAt);
        if outboxId in db.outbox || EventKnown(db, freshId) then (db, Failed(Storage))
        else (db.(rows := db.rows[id := a], outbox := db.outbox[outboxId := OutboxEntry(event)]), Returned(a))
      case AddComparable(data) =>
        var c := Comparable(freshId, id, data, now);
        if freshId in db.comparables then (db, Failed(Storage))
        else (db.(comparables := db.comparables[freshId := c]), Added(c))
      case DeleteComparable(c) =>
        if c in ComparablesOf(db, id) then (db.(comparables := db.comparables - {c}), Deleted)
        else (db, Failed(NotFound))
      case ApplyCalculation(_, _, _) => (db, Returned(a))
  }

  /// What Alone says, operation by operation, of an appraisal in progress: the columns and rows that change.
  lemma AloneEffects(db: Db, id: Uuid, now: Stamp, freshId: Uuid, outboxId: nat, occurredAt: Stamp, input: UpdateInput,
                     key: string, data: ComparableData, c: Uuid)
    requires id in db.rows && db.rows[id].status == InProgress
    ensures Alone(db, id, Operation.Update(input), now, freshId, outboxId, occurredAt) ==
      (var row := db.rows[id];
       var a := row.(appraiserId := if input.appraiserId != None then input.appraiserId else row.appraiserId,
                     notes := if input.notes != None then input.notes else row.notes,
                     marketValue := if input.marketValue != None then input.marketValue else row.marketValue,
                     updatedAt := now);
       (db.(rows := db.rows[id := a]), Returned(a)))
    ensures Alone(db, id, UploadReport(key), now, freshId, outboxId, occurredAt) ==
      (db.(rows := db.rows[id := db.rows[id].(reportKey := Some(key), updatedAt := now)]), Stored(key))
    ensures outboxId !in db.outbox && (forall k :: k in db.outbox ==> db.outbox[k].event.eventId != freshId) ==>
      Alone(db, id, Operation.Complete, now, freshId, outboxId, occurredAt) ==
        (var a := db.rows[id].(status := Completed, completedAt := Some(now), updatedAt := now);
         var event := Event(freshId, "report.ready", 1, occurredAt, a.requestId,
                            ReportReady(a.id, a.appraiserId, a.reportKey, now));
         (db.(rows := db.rows[id := a],
              outbox := db.outbox[outboxId := OutboxRow(event, "review.events", a.requestId, false)]),
          Returned(a)))
    ensures freshId !in db.comparables ==>
      Alone(db, id, Operation.AddComparable(data), now, freshId, outboxId, occurredAt) ==
        (db.(comparables := db.comparables[freshId := Comparable(freshId, id, data, now)]),
         Added(Comparable(freshId, id, data, now)))
    ensures Alone(db, id, Operation.DeleteComparable(c), now, freshId, outboxId, occurredAt) ==
      if c in db.comparables && db.comparables[c].appraisalId == id then
        (db.(comparables := db.comparables - {c}), Deleted)
      else (db, Failed(NotFound))
  {
  }

  /// Where the insert of a comparable leaves a session.
  lemma AfterAdd(core: Core, s: Session, c: Comparable, fault: Fault)
    requires s.target == c.appraisalId
    requires (s.stage.Checked? && s.op == Operation.AddComparable(c.data))
             || (s.stage.SyncChecked? && s.stage.add != [] && s.stage.add[0] == c.data)
    ensures var act := Execute(c.createdAt, c.id, 0, 0, fault); var outcome := AddOutcomeOf(core.db, c);
      && SessionChange(0, s, act) == (if fault == Lost then Nothing else AddRow(c))
      && NextSession(core, s, act).stage ==
           if fault == NoFault && outcome == NoOpenParent
           then (if s.stage.SyncChecked? then SyncMissed(s.stage.add) else Missed)
           else if s.stage.SyncChecked? then SkipEntry(s.stage.add)
           else if fault == NoFault && outcome == Inserted then Done(Added(c))
           else Done(Failed(Storage))
  {
  }

  /// Where the save of an edited copy leaves the database and a session.
  lemma AfterSaving(core: Core, sid: nat, s: Session, now: Stamp, fault: Fault)
    requires s.stage.Checked? && s.op.Saves()
    ensures var act := Execute(now, 0, 0, 0, fault); var a := Edited(s.op, s.stage.row, now);
      && Apply(core, SessionChange(sid, s, act)).db ==
           (if fault == Lost then core.db else DbUpdate(core.db, a, s.stage.row.updatedAt))
      && (fault == Lost || !UpdateHits(core.db, a.id, s.stage.row.updatedAt) ==>
            Apply(core, SessionChange(sid, s, act)) == core)
      && NextSession(core, s, act).op == s.op && NextSession(core, s, act).target == s.target
      && NextSession(core, s, act).stage ==
           if fault != NoFault then Done(Failed(Storage))
           else if UpdateHits(core.db, a.id, s.stage.row.updatedAt)
           then AfterSave(s.op, s.stage.row, s.stage.comparables, now)
           else Missed
  {
  }

  /// Where the delete of a comparable leaves the database and a session.
  lemma AfterDeleting(core: Core, sid: nat, s: Session, c: Uuid, fault: Fault)
    requires (s.stage.Checked? && s.op == Operation.DeleteComparable(c))
             || (s.stage.Syncing? && s.stage.del != [] && s.stage.del[0] == c)
    ensures var act := Execute(0, 0, 0, 0, fault);
      && SessionChange(sid, s, act) == (if fault == Lost then Nothing else DropRow(s.target, c))
      && NextSession(core, s, act).op == s.op && NextSession(core, s, act).target == s.target
      && NextSession(core, s, act).stage ==
           if s.stage.Syncing? then Syncing(s.stage.del[1..], s.stage.add)
           else if fault != NoFault then Done(Failed(Storage))
           else if DeleteHits(core.db, s.target, c) then Done(Deleted)
           else Done(Failed(NotFound))
  {
  }

  /// Where reading the row leaves a session.
  lemma AfterReadingRow(core: Core, s: Session, fault: Fault)
    requires s.stage.Start? || (s.stage.Syncing? && s.stage.del == [])
    ensures var s' := NextSession(core, s, SelectRow(fault));
      && s'.op == s.op && s'.target == s.target
      && SessionChange(0, s, SelectRow(fault)) == Nothing
      && s'.stage ==
           if fault == NoFault && s.target in core.db.rows then
             (if s.stage.Start? then GotRow(core.db.rows[s.target]) else SyncRow(core.db.rows[s.target], s.stage.add))
           else AfterGet(s.stage, Unread(if fault == NoFault then NotFound else Storage))
  {
  }

  class PostgresRepository {
    const site: Site

    constructor (site: Site)
      ensures this.site == site
    {
      this.site := site;
    }

    ghost predicate Serving(sid: nat)
      reads site, site.db, site.dedup
    {
      site.Valid() && sid in site.world.sessions && ForeignScript(site.script, Caller(sid))
    }

    /// What every call keeps: the recorded run grows, and the session keeps its request.
    twostate predicate Proceeds(sid: nat)
      reads site, site.db, site.dedup
    {
      && Serving(sid)
      && old(site.trace) <= site.trace
      && sid in old(site.world.sessions)
      && site.world.sessions[sid].op == old(site.world.sessions[sid].op)
      && site.world.sessions[sid].target == old(site.world.sessions[sid].target)
      && (old(site.script) == [] ==> site.script == [])
      && (old(NoFaults(site.script)) ==> NoFaults(site.script))
    }

    /// The second statement of GetByID.
    method ListComparables(sid: nat, id: Uuid) returns (list: seq<Comparable>, ok: bool)
      requires Serving(sid) && site.world.sessions[sid].target == id
      modifies site, site.db, site.dedup
      ensures Proceeds(sid)
      ensures site.world.sessions[sid].stage ==
        AfterSelectComparables(old(site.world.sessions[sid]), list, if ok then NoFault else Lost)
      ensures old(site.script) == [] ==>
        ok && IsListing(site.world.core.db, id, list) && site.world.core == old(site.world.core)
      ensures old(NoFaults(site.script)) ==> ok
    {
      var fault := site.Yield(Caller(sid));
      list := [];
      if fault == NoFault {
        ReachableKeys(site.trace);
        list := site.db.ListComparables(id);
      }
      site.Act(sid, SelectComparables(list, fault));
      ok := fault == NoFault;
    }

    /// Two statements: the row, then its comparables.
    method GetByID(sid: nat, id: Uuid) returns (r: Fetch)
      requires Serving(sid) && site.world.sessions[sid].target == id
      requires var st := site.world.sessions[sid].stage; st.Start? || (st.Syncing? && st.del == [])
      modifies site, site.db, site.dedup
      ensures Proceeds(sid)
      ensures site.world.sessions[sid].stage == AfterGet(old(site.world.sessions[sid].stage), r)
      ensures old(site.script) == [] ==>
        && site.world.core == old(site.world.core)
        && if id in site.world.core.db.rows
           then r.Got? && r.a == site.world.core.db.rows[id] && IsListing(site.world.core.db, id, r.comparables)
           else r == Unread(NotFound)
      ensures r.Got? || r == Unread(NotFound) || r == Unread(Storage)
      ensures old(NoFaults(site.script)) ==> r != Unread(Storage)
    {
      var fault := site.Yield(Caller(sid));
      var row := None;
      if fault == NoFault {
        row := site.db.SelectRow(id);
      }
      AfterReadingRow(site.world.core, site.world.sessions[sid], fault);
      site.Act(sid, SelectRow(fault));
      if fault != NoFault {
        return Unread(Storage);
      }
      if row == None {
        return Unread(NotFound);
      }
      var list, ok := ListComparables(sid, id);
      r := if ok then Got(row.value, list) else Unread(Storage);
    }

    /// The probe after a write that hit no row.
    method NotFoundOrConflict(sid: nat, id: Uuid) returns (e: Error)
      requires Serving(sid) && site.world.sessions[sid].target == id
      requires var st := site.world.sessions[sid].stage; st.Missed? || st.SyncMissed?
      modifies site, site.db, site.dedup
      ensures Proceeds(sid)
      ensures var st := old(site.world.sessions[sid].stage);
        site.world.sessions[sid].stage ==
          if st.SyncMissed? then SkipEntry(st.add)
          else Done(Failed(if e == Conflict && site.world.sessions[sid].op.AddComparable? then InvalidStatus else e))
      ensures e == Storage || e == Conflict || e == NotFound
      ensures e != Storage ==> e == if id in site.world.core.db.rows then Conflict else NotFound
      ensures old(site.script) == [] ==> site.world.core == old(site.world.core)
      ensures old(NoFaults(site.script)) ==> e != Storage
    {
      var fault := site.Yield(Caller(sid));
      var found := false;
      if fault == NoFault {
        found := site.db.Exists(id);
      }
      site.Act(sid, Probe(fault));
      e := if fault != NoFault then Storage else if found then Conflict else NotFound;
    }

    /// The optimistic save of an edited copy.
    method Update(sid: nat, a: Appraisal, prev: Stamp, now: Stamp) returns (err: Option<Error>)
      requires Serving(sid)
      requires var s := site.world.sessions[sid];
        s.stage.Checked? && s.op.Saves() && a == Edited(s.op, s.stage.row, now) && prev == s.stage.row.updatedAt
      modifies site, site.db, site.dedup
      ensures Proceeds(sid)
      ensures var s := old(site.world.sessions[sid]);
        site.world.sessions[sid].stage ==
          if err.Some? then Done(Failed(err.value)) else AfterSave(s.op, s.stage.row, s.stage.comparables, now)
      ensures old(site.script) == [] && UpdateHits(old(site.world.core.db), a.id, prev) ==>
        err == None && site.world.core.db == DbUpdate(old(site.world.core.db), a, prev)
      ensures old(site.script) == [] && !UpdateHits(old(site.world.core.db), a.id, prev) ==>
        && err == Some(if a.id in old(site.world.core.db.rows) then Conflict else NotFound)
        && site.world.core == old(site.world.core)
      ensures err != Some(BadInput)
      ensures old(NoFaults(site.script)) ==> err != Some(Storage)
    {
      ReachableCopy(site.trace, sid);
      var fault := site.Yield(Caller(sid));
      var hit := false;
      if fault != Lost {
        hit := site.db.Update(a, prev);
      }
      AfterSaving(site.world.core, sid, site.world.sessions[sid], now, fault);
      site.Act(sid, Execute(now, 0, 0, 0, fault));
      if fault != NoFault {
        return Some(Storage);
      }
      if !hit {
        var e := NotFoundOrConflict(sid, a.id);
        return Some(e);
      }
      err := None;
    }

    /// The completion transaction.
    method Complete(sid: nat, id: Uuid, at: Stamp, event: Event, outboxId: nat) returns (err: Option<Error>)
      requires Serving(sid)
      requires var s := site.world.sessions[sid];
        s.stage.Checked? && s.op.Complete? && s.target == id
        && event == NewReportReadyEvent(Edited(s.op, s.stage.row, at), event.eventId, event.occurredAt)
      modifies site, site.db, site.dedup
      ensures Proceeds(sid)
      ensures var s := old(site.world.sessions[sid]);
        site.world.sessions[sid].stage ==
          if err.Some? then Done(Failed(err.value)) else Done(Returned(Edited(s.op, s.stage.row, at)))
      ensures old(site.script) == [] ==>
        && site.world.core.db == DbComplete(old(site.world.core.db), id, at, outboxId, event)
        && err == (match CompleteOutcomeOf(old(site.world.core.db), id, outboxId, event)
                   case Closed => None
                   case Missing => Some(NotFound)
                   case NotOpen => Some(Conflict)
                   case Rejected => Some(Storage))
    {
      var fault := site.Yield(Caller(sid));
      var outcome := Missing;
      if fault != Lost {
        outcome := site.db.Complete(id, at, outboxId, event);
      }
      site.Act(sid, Execute(at, event.eventId, outboxId, event.occurredAt, fault));
      if fault != NoFault {
        return Some(Storage);
      }
      match outcome {
        case Closed => err := None;
        case Missing => err := Some(NotFound);
        case NotOpen => err := Some(Conflict);
        case Rejected => err := Some(Storage);
      }
    }

    /// The guarded insert of a comparable.
    method AddComparable(sid: nat, c: Comparable) returns (err: Option<Error>)
      requires Serving(sid) && site.world.sessions[sid].target == c.appraisalId
      requires var s := site.world.sessions[sid];
        || (s.stage.Checked? && s.op == Operation.AddComparable(c.data))
        || (s.stage.SyncChecked? && s.stage.add != [] && s.stage.add[0] == c.data)
      modifies site, site.db, site.dedup
      ensures Proceeds(sid)
      ensures var st := old(site.world.sessions[sid].stage);
        site.world.sessions[sid].stage ==
          if st.SyncChecked? then SkipEntry(st.add)
          else if err == None then Done(Added(c))
          else Done(Failed(if err == Some(Conflict) then InvalidStatus else err.value))
      ensures old(site.script) == [] ==> site.world.core.db == DbAddComparable(old(site.world.core.db), c)
      ensures old(site.script) == [] ==>
        err == match AddOutcomeOf(old(site.world.core.db), c)
               case Inserted => None
               case Duplicate => Some(Storage)
               case NoOpenParent => Some(if c.appraisalId in old(site.world.core.db.rows) then Conflict else NotFound)
    {
      var fault := site.Yield(Caller(sid));
      var outcome := Duplicate;
      if fault != Lost {
        outcome := site.db.AddComparable(c);
      }
      AfterAdd(site.world.core, site.world.sessions[sid], c, fault);
      site.Act(sid, Execute(c.createdAt, c.id, 0, 0, fault));
      if fault != NoFault || outcome == Duplicate {
        return Some(Storage);
      }
      if outcome == NoOpenParent {
        var e := NotFoundOrConflict(sid, c.appraisalId);
        return Some(e);
      }
      err := None;
    }

    /// The unguarded delete of a comparable.
    method DeleteComparable(sid: nat, id: Uuid, comparableId: Uuid) returns (err: Option<Error>)
      requires Serving(sid) && site.world.sessions[sid].target == id
      requires var s := site.world.sessions[sid];
        || (s.stage.Checked? && s.op == Operation.DeleteComparable(comparableId))
        || (s.stage.Syncing? && s.stage.del != [] && s.stage.del[0] == comparableId)
      modifies site, site.db, site.dedup
      ensures Proceeds(sid)
      ensures var st := old(site.world.sessions[sid].stage);
        site.world.sessions[sid].stage ==
          if st.Syncing? then Syncing(st.del[1..], st.add)
          else if err == None then Done(Deleted) else Done(Failed(err.value))
      ensures old(site.script) == [] ==>
        && site.world.core.db == DbDeleteComparable(old(site.world.core.db), id, comparableId)
        && err == if DeleteHits(old(site.world.core.db), id, comparableId) then None else Some(NotFound)
      ensures old(NoFaults(site.script)) ==> err != Some(Storage)
    {
      var fault := site.Yield(Caller(sid));
      var hit := false;
      if fault != Lost {
        hit := site.db.DeleteComparable(id, comparableId);
      }
      AfterDeleting(site.world.core, sid, site.world.sessions[sid], comparableId, fault);
      site.Act(sid, Execute(0, 0, 0, 0, fault));
      err := if fault != NoFault then Some(Storage) else if hit then None else Some(NotFound);
    }
  }

  class AppraisalService {
    const repo: PostgresRepository

    constructor (repo: PostgresRepository)
      ensures this.repo == repo
    {
      this.repo := repo;
    }

    /// A request can start: its session is new, and the script of the others does not speak for it.
    ghost predicate Ready(sid: nat)
      reads repo.site, repo.site.db, repo.site.dedup
    {
      repo.site.Valid() && sid !in repo.site.world.sessions && ForeignScript(repo.site.script, Caller(sid))
    }

    /// The call was one session of the machine, for this operation on this appraisal, and ended with this result.
    twostate predicate Served(sid: nat, id: Uuid, op: Operation, r: Result)
      reads repo.site, repo.site.db, repo.site.dedup
    {
      && repo.Serving(sid)
      && old(repo.site.trace) <= repo.site.trace
      && repo.site.world.sessions[sid].op == op
      && repo.site.world.sessions[sid].target == id
      && repo.site.world.sessions[sid].stage == Done(r)
    }

    method Update(sid: nat, id: Uuid, input: UpdateInput, now: Stamp) returns (r: Result)
      requires Ready(sid)
      modifies repo.site, repo.site.db, repo.site.dedup
      ensures Served(sid, id, Operation.Update(input), r)
      ensures old(repo.site.script) == [] ==>
        (repo.site.world.core.db, r) == Alone(old(repo.site.world.core.db), id, Operation.Update(input), now, 0, 0, 0)
      ensures old(NoFaults(repo.site.script)) ==> r != Failed(Storage)
    {
      repo.site.Begin(sid, id, Operation.Update(input));
      var got := repo.GetByID(sid, id);
      if got.Unread? {
        return Failed(got.error);
      }
      var a := got.a;
      if a.status != InProgress {
        return Failed(InvalidStatus);
      }
      if input.appraiserId.Some? {
        a := a.(appraiserId := input.appraiserId);
      }
      if input.notes.Some? {
        a := a.(notes := input.notes);
      }
      if input.marketValue.Some? {
        a := a.(marketValue := input.marketValue);
      }
      var prev := a.updatedAt;
      a := a.(updatedAt := now);
      ReachableCopy(repo.site.trace, sid);
      var err := repo.Update(sid, a, prev, now);
      r := if err.Some? then Failed(err.value) else Returned(a);
    }

    method Complete(sid: nat, id: Uuid, completedAt: Stamp, eventId: Uuid, occurredAt: Stamp, outboxId: nat)
        returns (r: Result)
      requires Ready(sid)
      modifies repo.site, repo.site.db, repo.site.dedup
      ensures Served(sid, id, Operation.Complete, r)
      ensures old(repo.site.script) == [] ==>
        (repo.site.world.core.db, r) ==
          Alone(old(repo.site.world.core.db), id, Operation.Complete, completedAt, eventId, outboxId, occurredAt)
    {
      repo.site.Begin(sid, id, Operation.Complete);
      var got := repo.GetByID(sid, id);
      if got.Unread? {
        return Failed(got.error);
      }
      var a := got.a;
      if a.status != InProgress {
        return Failed(InvalidStatus);
      }
      a := a.(status := Completed, completedAt := Some(completedAt), updatedAt := completedAt);
      var event := NewReportReadyEvent(a, eventId, occurredAt);
      var err := repo.Complete(sid, id, completedAt, event, outboxId);
      r := if err.Some? then Failed(err.value) else Returned(a);
    }

    /// `key` is the fresh object key, `presigned` whether the storage issued an upload URL for it.
    method UploadReport(sid: nat, id: Uuid, key: string, presigned: bool, now: Stamp) returns (r: Result)
      requires Ready(sid)
      modifies repo.site, repo.site.db, repo.site.dedup
      ensures Served(sid, id, Operation.UploadReport(key), r)
      ensures old(repo.site.script) == [] && presigned ==>
        (repo.site.world.core.db, r) ==
          Alone(old(repo.site.world.core.db), id, Operation.UploadReport(key), now, 0, 0, 0)
      ensures old(NoFaults(repo.site.script)) && presigned ==> r != Failed(Storage)
      ensures !presigned ==> r.Failed?
      ensures old(repo.site.script) == [] && !presigned ==> repo.site.world.core.db == old(repo.site.world.core.db)
    {
      repo.site.Begin(sid, id, Operation.UploadReport(key));
      var got := repo.GetByID(sid, id);
      if got.Unread? {
        return Failed(got.error);
      }
      var a := got.a;
      if a.status != InProgress {
        return Failed(InvalidStatus);
      }
      if !presigned {
        repo.site.Act(sid, GiveUp(false));
        return Failed(Storage);
      }
      a := a.(reportKey := Some(key));
      var prev := a.updatedAt;
      a := a.(updatedAt := now);
      ReachableCopy(repo.site.trace, sid);
      var err := repo.Update(sid, a, prev, now);
      r := if err.Some? then Failed(err.value) else Stored(key);
    }

    /// A conflict in the guarded insert means the appraisal was completed in between.
    method AddComparable(sid: nat, id: Uuid, data: ComparableData, freshId: Uuid, now: Stamp) returns (r: Result)
      requires Ready(sid)
      modifies repo.site, repo.site.db, repo.site.dedup
      ensures Served(sid, id, Operation.AddComparable(data), r)
      ensures old(repo.site.script) == [] ==>
        (repo.site.world.core.db, r) ==
          Alone(old(repo.site.world.core.db), id, Operation.AddComparable(data), now, freshId, 0, 0)
    {
      repo.site.Begin(sid, id, Operation.AddComparable(data));
      var got := repo.GetByID(sid, id);
      if got.Unread? {
        return Failed(got.error);
      }
      if got.a.status != InProgress {
        return Failed(InvalidStatus);
      }
      var c := Comparable(freshId, id, data, now);
      var err := repo.AddComparable(sid, c);
      r := if err == None then Added(c)
           else if err == Some(Conflict) then Failed(InvalidStatus)
           else Failed(err.value);
    }

    method DeleteComparable(sid: nat, id: Uuid, comparableId: Uuid) returns (r: Result)
      requires Ready(sid)
      modifies repo.site, repo.site.db, repo.site.dedup
      ensures Served(sid, id, Operation.DeleteComparable(comparableId), r)
      ensures old(repo.site.script) == [] ==>
        (repo.site.world.core.db, r) ==
          Alone(old(repo.site.world.core.db), id, Operation.DeleteComparable(comparableId), 0, 0, 0, 0)
      ensures old(NoFaults(repo.site.script)) ==> r != Failed(Storage)
    {
      repo.site.Begin(sid, id, Operation.DeleteComparable(comparableId));
      var got := repo.GetByID(sid, id);
      if got.Unread? {
        return Failed(got.error);
      }
      if got.a.status != InProgress {
        return Failed(InvalidStatus);
      }
      var err := repo.DeleteComparable(sid, id, comparableId);
      r := if err.Some? then Failed(err.value) else Deleted;
    }
  }
}
