/// Schedules that show where the stronger claims stop being true, and so why the lemmas elsewhere are
/// stated as they are. Every schedule starts from the empty system.

module Witnesses {
  import opened Domain
  import opened Tables
  import opened Machine
  import opened Lifecycle
  import opened SessionInvariant
  import opened ComparableFreeze
  import opened PublishingOrder

  // ---------- Building schedules ----------

  ghost predicate Reaches(s: seq<Label>, w: World) {
    Run(INITIAL, s) == w
  }

  lemma Extend(s: seq<Label>, w: World, l: Label) returns (s': seq<Label>, w': World)
    requires Reaches(s, w)
    ensures s' == s + [l] && w' == Step(w, l) && Reaches(s', w')
  {
    RunSnoc(s, l);
    s', w' := s + [l], Step(w, l);
  }

  function StatusEvent(e: Uuid, r: Uuid): Message {
    Envelope(e, EVENT_TYPE_STATUS_CHANGED, r, StatusChanged(STATUS_APPRAISAL))
  }

  predicate CaughtUp(b: Inbound) {
    b.reading == Waiting && b.at == b.committed == |b.log|
  }

  function Inserted(core: Core, a: Appraisal): Core {
    core.(db := core.db.(rows := core.db.rows[a.id := a]), history := core.history[a.id := [Version(a, None)]])
  }

  /// One event is produced, delivered, handled and committed; it creates appraisal `id`.
  lemma Deliver(s: seq<Label>, w: World, e: Uuid, r: Uuid, id: Uuid, now: Stamp) returns (s': seq<Label>, w': World)
    requires Reaches(s, w) && CaughtUp(w.inbound)
    requires e != NIL && e !in w.inbound.marks && !HasRequest(w.core.db, r) && id !in w.core.db.rows
    ensures Reaches(s', w') && s <= s'
    ensures w'.core == Inserted(w.core, NewAppraisal(id, r, now))
    ensures w'.sessions == w.sessions && w'.relay == w.relay && CaughtUp(w'.inbound)
    ensures w'.inbound.log == w.inbound.log + [StatusEvent(e, r)] && w'.inbound.marks == w.inbound.marks + {e}
  {
    s', w' := Extend(s, w, Consume(Produce(StatusEvent(e, r))));
    s', w' := Extend(s', w', Consume(Fetch));
    s', w' := Extend(s', w', Consume(CheckDup(NoFault)));
    s', w' := Extend(s', w', Consume(Create(id, now, NoFault)));
    s', w' := Extend(s', w', Consume(Mark(NoFault)));
    s', w' := Extend(s', w', Consume(Commit(NoFault)));
  }

  /// A session starts, reads the row and its comparables, and passes the status check.
  lemma Open(s: seq<Label>, w: World, sid: nat, id: Uuid, op: Operation, list: seq<Comparable>)
    returns (s': seq<Label>, w': World)
    requires Reaches(s, w) && sid !in w.sessions
    requires id in w.core.db.rows && w.core.db.rows[id].status == InProgress && IsListing(w.core.db, id, list)
    ensures Reaches(s', w') && s <= s'
    ensures w' == w.(sessions := w.sessions[sid := Session(op, id, Checked(w.core.db.rows[id], list),
      |History(w.core, id)|, 0)])
  {
    s', w' := Extend(s, w, Begin(sid, id, op));
    s', w' := Extend(s', w', Proceed(sid, SelectRow(NoFault)));
    s', w' := Extend(s', w', Proceed(sid, SelectComparables(list, NoFault)));
  }

  /// The write of an open session.
  lemma Write(s: seq<Label>, w: World, sid: nat, act: Act) returns (s': seq<Label>, w': World)
    requires Reaches(s, w) && sid in w.sessions && act.Execute?
    ensures s' == s + [Proceed(sid, act)] && Reaches(s', w')
    ensures w'.core == Apply(w.core, SessionChange(sid, w.sessions[sid], act))
    ensures w'.inbound == w.inbound && w'.relay == w.relay
    ensures w'.sessions == w.sessions[sid := NextSession(w.core, w.sessions[sid], act)]
  {
    s', w' := Extend(s, w, Proceed(sid, act));
  }

  function Closing(core: Core, id: Uuid, at: Stamp, outboxId: nat, event: Event, author: Author): Core
    requires id in core.db.rows
  {
    Core(core.db.(rows := core.db.rows[id := ClosedRow(core.db.rows[id], at)],
      outbox := core.db.outbox[outboxId := OutboxEntry(event)]),
         core.history[id := History(core, id) + [Version(ClosedRow(core.db.rows[id], at), Some(author))]],
         core.visible + [outboxId])
  }

  /// An open completion that is still in time.
  lemma Finish(s: seq<Label>, w: World, sid: nat, at: Stamp, eventId: Uuid, outboxId: nat)
      returns (s': seq<Label>, w': World)
    requires Reaches(s, w) && sid in w.sessions && w.sessions[sid].op == Complete && w.sessions[sid].stage.Checked?
    requires w.sessions[sid].target in w.core.db.rows && w.core.db.rows[w.sessions[sid].target].status == InProgress
    requires outboxId !in w.core.db.outbox && !EventKnown(w.core.db, eventId)
    ensures s' == s + [Proceed(sid, Execute(at, eventId, outboxId, at, NoFault))] && Reaches(s', w')
    ensures var row := w.sessions[sid].stage.row;
      w'.core == Closing(w.core, w.sessions[sid].target, at, outboxId,
                         Event(eventId, EVENT_TYPE_REPORT_READY, EVENT_VERSION, at, row.requestId,
                               ReportReady(row.id, row.appraiserId, row.reportKey, at)),
                         Author(sid, Complete, w.sessions[sid].readAt))
    ensures w'.inbound == w.inbound && w'.relay == w.relay
    ensures w'.sessions.Keys == w.sessions.Keys
    ensures forall other :: other in w.sessions && other != sid ==> w'.sessions[other] == w.sessions[other]
  {
    s', w' := Write(s, w, sid, Execute(at, eventId, outboxId, at, NoFault));
  }

  lemma InitialReached()
    ensures Reaches([], INITIAL) && CaughtUp(INITIAL.inbound) && !HasRequest(INITIAL.core.db, 7)
  {
  }

  const NOTE := Update(UpdateInput(None, Some("late note"), None))
  const TAKE_OVER := Update(UpdateInput(Some(5), None, None))

  // ---------- The witnesses ----------

  /// Appraisal 1 is in progress with stamp 10; a note and a completion, read at that stamp, are about to be written.
  lemma NoteAndCompletion() returns (s: seq<Label>, w: World)
    ensures Reaches(s, w) && w.core.db.rows == map[1 := NewAppraisal(1, 7, 10)] && w.core.db.outbox == map[]
    ensures w.sessions == map[0 := Session(NOTE, 1, Checked(NewAppraisal(1, 7, 10), []), 1, 0),
                              1 := Session(Complete, 1, Checked(NewAppraisal(1, 7, 10), []), 1, 0)]
  {
    InitialReached();
    s, w := Deliver([], INITIAL, 3, 7, 1, 10);
    assert IsListing(w.core.db, 1, []);
    s, w := Open(s, w, 0, 1, NOTE, []);
    s, w := Open(s, w, 1, 1, Complete, []);
  }

  /// The completion reuses the stamp 10.
  lemma ClosedAtTen() returns (s: seq<Label>, w: World)
    ensures Reaches(s, w) && 1 in w.core.db.rows
    ensures w.core.db.rows[1] == ClosedRow(NewAppraisal(1, 7, 10), 10)
    ensures 0 in w.sessions && w.sessions[0] == Session(NOTE, 1, Checked(NewAppraisal(1, 7, 10), []), 1, 0)
  {
    s, w := NoteAndCompletion();
    s, w := Finish(s, w, 1, 10, 4, 1);
  }

  /// If a completion reuses the stamp of the version another operation holds, that operation's save
  /// lands on the completed row: the freeze needs distinct stamps.
  lemma RepeatedStampThaws() returns (first: seq<Label>, second: seq<Label>)
    ensures var db, db' := Run(INITIAL, first).core.db, Run(INITIAL, first + second).core.db;
      && 1 in db.rows && 1 in db'.rows
      && db.rows[1].status == Completed
      && db'.rows[1].notes != db.rows[1].notes
  {
    var s, w := ClosedAtTen();
    first := s;
    var save := Execute(12, 0, 0, 0, NoFault);
    s, w := Write(s, w, 0, save);
    assert w.core.db.rows[1].notes == Some("late note");
    second := [Proceed(0, save)];
  }

  /// Appraisal 1 has a new appraiser, and a completion that read it before is about to be written.
  lemma TakenOver() returns (s: seq<Label>, w: World)
    ensures Reaches(s, w)
    ensures 0 in w.sessions && w.sessions[0] == Session(Complete, 1, Checked(NewAppraisal(1, 7, 10), []), 1, 0)
    ensures w.core.db.outbox == map[] && w.core.history.Keys == {1}
    ensures 1 in w.core.db.rows && w.core.db.rows[1] == NewAppraisal(1, 7, 10).(appraiserId := Some(5), updatedAt := 11)
    ensures |w.core.history[1]| == 2 && w.core.history[1][0].row.updatedAt == 10
    ensures w.core.history[1][1].row.updatedAt == 11
  {
    InitialReached();
    s, w := Deliver([], INITIAL, 3, 7, 1, 10);
    assert IsListing(w.core.db, 1, []);
    s, w := Open(s, w, 0, 1, Complete, []);
    s, w := Open(s, w, 1, 1, TAKE_OVER, []);
    s, w := Write(s, w, 1, Execute(11, 0, 0, 0, NoFault));
  }

  /// Even with distinct stamps an event may carry an appraiser the completed row no longer has:
  /// the completion's copy was read before another save landed.
  lemma EventCanBeStale() returns (s: seq<Label>)
    ensures var core := Run(INITIAL, s).core;
      && DistinctStamps(core)
      && 1 in core.db.rows && 1 in core.db.outbox
      && core.db.outbox[1].event.data.appraisalId == 1
      && core.db.outbox[1].event.data.appraiserId != core.db.rows[1].appraiserId
  {
    var w;
    s, w := TakenOver();
    s, w := Finish(s, w, 0, 12, 4, 1);
    assert w.core.db.outbox[1].event.data.appraiserId == None;
    assert w.core.history.Keys == {1} && |w.core.history[1]| == 3;
  }

  const COMPARABLE := Comparable(2, 1, FreeForm("{}"), 11)

  /// Appraisal 1 is in progress with one comparable.
  lemma WithComparable() returns (s: seq<Label>, w: World)
    ensures Reaches(s, w)
    ensures 1 in w.core.db.rows && w.core.db.rows[1].status == InProgress && w.core.db.outbox == map[]
    ensures w.core.db.comparables == map[2 := COMPARABLE]
    ensures IsListing(w.core.db, 1, [COMPARABLE])
    ensures w.sessions.Keys == {0}
  {
    InitialReached();
    s, w := Deliver([], INITIAL, 3, 7, 1, 10);
    assert IsListing(w.core.db, 1, []);
    s, w := Open(s, w, 0, 1, AddComparable(FreeForm("{}")), []);
    s, w := Write(s, w, 0, Execute(11, 2, 0, 0, NoFault));
    assert w.core.db.comparables == map[2 := COMPARABLE];
    assert ComparablesOf(w.core.db, 1) == map[2 := COMPARABLE];
    assert [COMPARABLE][0] == COMPARABLE;
  }

  /// A delete of the comparable and a completion are about to be written.
  lemma DeleteAndCompletion() returns (s: seq<Label>, w: World)
    ensures Reaches(s, w) && 1 in w.core.db.rows && w.core.db.rows[1].status == InProgress
    ensures w.core.db.outbox == map[] && w.core.db.comparables == map[2 := COMPARABLE]
    ensures 1 in w.sessions && 2 in w.sessions
    ensures w.sessions[1].op == DeleteComparable(2) && w.sessions[1].target == 1 && w.sessions[1].stage.Checked?
    ensures w.sessions[2].op == Complete && w.sessions[2].target == 1 && w.sessions[2].stage.Checked?
  {
    s, w := WithComparable();
    s, w := Open(s, w, 1, 1, DeleteComparable(2), [COMPARABLE]);
    s, w := Open(s, w, 2, 1, Complete, [COMPARABLE]);
  }

  /// A delete that checked the status before the completion still removes a comparable afterwards.
  lemma ComparableCanVanish() returns (first: seq<Label>, second: seq<Label>)
    ensures var db, db' := Run(INITIAL, first).core.db, Run(INITIAL, first + second).core.db;
      && 1 in db.rows && db.rows[1].status == Completed
      && 2 in ComparablesOf(db, 1) && 2 !in ComparablesOf(db', 1)
  {
    var s, w := DeleteAndCompletion();
    s, w := Finish(s, w, 2, 12, 4, 1);
    first := s;
    var deletion := Execute(13, 0, 0, 0, NoFault);
    s, w := Write(s, w, 1, deletion);
    second := [Proceed(1, deletion)];
  }

  /// A session on an appraisal while there are no comparables at all.
  lemma OpenEmpty(s: seq<Label>, w: World, sid: nat, id: Uuid, op: Operation) returns (s': seq<Label>, w': World)
    requires Reaches(s, w) && sid !in w.sessions && w.core.db.comparables == map[]
    requires id in w.core.db.rows && w.core.db.rows[id].status == InProgress
    ensures Reaches(s', w') && s <= s'
    ensures w' == w.(sessions := w'.sessions)
    ensures w'.sessions ==
      w.sessions[sid := Session(op, id, Checked(w.core.db.rows[id], []), |History(w.core, id)|, 0)]
  {
    assert IsListing(w.core.db, id, []);
    s', w' := Open(s, w, sid, id, op, []);
  }

  lemma TwoAppraisals() returns (s: seq<Label>, w: World)
    ensures Reaches(s, w) && w.sessions == map[] && w.relay == INITIAL.relay && w.core.visible == []
    ensures w.core.db.rows == map[1 := NewAppraisal(1, 7, 10), 2 := NewAppraisal(2, 8, 10)]
    ensures w.core.db.outbox == map[] && w.core.db.comparables == map[]
  {
    InitialReached();
    s, w := Deliver([], INITIAL, 3, 7, 1, 10);
    assert !HasRequest(w.core.db, 8);
    s, w := Deliver(s, w, 4, 8, 2, 10);
  }

  /// Two appraisals, each with a completion about to be written.
  lemma TwoClosing() returns (s: seq<Label>, w: World)
    ensures Reaches(s, w)
    ensures w.core.db.rows == map[1 := NewAppraisal(1, 7, 10), 2 := NewAppraisal(2, 8, 10)] && w.core.db.outbox == map[]
    ensures w.sessions.Keys == {0, 1} && w.relay == INITIAL.relay && w.core.visible == []
    ensures forall i :: 0 <= i < 2 ==>
      && w.sessions[i].op == Complete && w.sessions[i].target == i + 1
      && w.sessions[i].stage == Checked(w.core.db.rows[i + 1], [])
  {
    s, w := TwoAppraisals();
    s, w := OpenEmpty(s, w, 0, 1, Complete);
    s, w := OpenEmpty(s, w, 1, 2, Complete);
  }

  /// The relay polls, publishes and marks the one unpublished row.
  lemma PublishOnly(s: seq<Label>, w: World, k: nat) returns (s': seq<Label>, w': World)
    requires Reaches(s, w) && w.relay.batch == [] && !w.relay.sent
    requires Unpublished(w.core.db, k) && forall j :: Unpublished(w.core.db, j) ==> j == k
    ensures Reaches(s', w')
    ensures w'.sessions == w.sessions && w'.inbound == w.inbound
    ensures w'.core == w.core.(db := DbMarkPublished(w.core.db, k))
    ensures w'.relay == Relay([], false, w.relay.log + [OutMessage(k, w.core.db.outbox[k].event)])
  {
    var m := OutMessage(k, w.core.db.outbox[k].event);
    assert [m][0] == m;
    assert IsBatch(w.core.db, [m]);
    s', w' := Extend(s, w, Forward(Poll([m])));
    s', w' := Extend(s', w', Forward(Publish(NoFault)));
    s', w' := Extend(s', w', Forward(MarkSent(NoFault)));
  }

  /// Outbox row 2 is published and marked, while the completion that will take id 1 is about to be written.
  lemma LargerPublished() returns (s: seq<Label>, w: World)
    ensures Reaches(s, w) && w.relay.batch == [] && !w.relay.sent && IdsOf(w.relay.log) == [2]
    ensures w.core.db.outbox.Keys == {2} && w.core.db.outbox[2].published && w.core.db.outbox[2].event.eventId == 5
    ensures 1 in w.sessions && w.sessions[1].op == Complete && w.sessions[1].stage.Checked? && w.sessions[1].target == 2
    ensures 2 in w.core.db.rows && w.core.db.rows[2].status == InProgress
  {
    s, w := TwoClosing();
    s, w := Finish(s, w, 0, 11, 5, 2);
    s, w := PublishOnly(s, w, 2);
  }

  /// When a smaller outbox id becomes visible after a larger one was published, the topic is out of id order.
  lemma LateIdOvertaken() returns (s: seq<Label>)
    ensures IdsOf(Run(INITIAL, s).relay.log) == [2, 1]
  {
    var w;
    s, w := LargerPublished();
    s, w := Finish(s, w, 1, 12, 6, 1);
    s, w := PublishOnly(s, w, 1);
  }

  /// The relay polls rows 1 and 2, publishes and marks 1, and publishes 2.
  lemma PublishTwo(s: seq<Label>, w: World) returns (s': seq<Label>, w': World)
    requires Reaches(s, w) && w.relay == INITIAL.relay
    requires forall j :: Unpublished(w.core.db, j) <==> j == 1 || j == 2
    ensures Reaches(s', w') && w'.core.visible == w.core.visible && IdsOf(w'.relay.log) == [1, 2]
  {
    assert Unpublished(w.core.db, 1) && Unpublished(w.core.db, 2);
    var batch := [OutMessage(1, w.core.db.outbox[1].event), OutMessage(2, w.core.db.outbox[2].event)];
    assert batch[0].outboxId == 1 && batch[1].outboxId == 2;
    assert IsBatch(w.core.db, batch);
    s', w' := Extend(s, w, Forward(Poll(batch)));
    s', w' := Extend(s', w', Forward(Publish(NoFault)));
    s', w' := Extend(s', w', Forward(MarkSent(NoFault)));
    s', w' := Extend(s', w', Forward(Publish(NoFault)));
  }

  /// Ids that become visible out of order before a poll are still published in order.
  lemma UnorderedButInTime() returns (s: seq<Label>)
    ensures Run(INITIAL, s).core.visible == [2, 1] && IdsOf(Run(INITIAL, s).relay.log) == [1, 2]
  {
    var w;
    s, w := TwoClosing();
    s, w := Finish(s, w, 0, 11, 5, 2);
    s, w := Finish(s, w, 1, 12, 6, 1);
    s, w := PublishTwo(s, w);
  }

  /// One event whose id is marked is produced, delivered, skipped and committed.
  lemma SkipMarked(s: seq<Label>, w: World, e: Uuid, r': Uuid) returns (s': seq<Label>, w': World)
    requires Reaches(s, w) && CaughtUp(w.inbound) && e != NIL && e in w.inbound.marks
    ensures Reaches(s', w') && w'.core == w.core && CaughtUp(w'.inbound)
    ensures w'.inbound.log == w.inbound.log + [StatusEvent(e, r')]
  {
    s', w' := Extend(s, w, Consume(Produce(StatusEvent(e, r'))));
    s', w' := Extend(s', w', Consume(Fetch));
    s', w' := Extend(s', w', Consume(CheckDup(NoFault)));
    s', w' := Extend(s', w', Consume(Commit(NoFault)));
  }

  /// If the producer reuses an event id for two requests, the dedup cache drops the second one for good:
  /// for any event id and any two requests, the second is below the committed offset without an appraisal.
  lemma ReusedEventIdDropsRequest(e: Uuid, r: Uuid, r': Uuid) returns (s: seq<Label>)
    requires e != NIL && r != r'
    ensures var w := Run(INITIAL, s); var b := w.inbound;
      && b.log == [StatusEvent(e, r), StatusEvent(e, r')] && b.committed == 2
      && HasRequest(w.core.db, r) && !HasRequest(w.core.db, r')
  {
    InitialReached();
    var w;
    s, w := Deliver([], INITIAL, e, r, 1, 10);
    assert w.core.db.rows[1].requestId == r;
    s, w := SkipMarked(s, w, e, r');
  }

  // ---------- Overlapping calculations ----------

  /// The reads of the nested AddComparable.
  lemma ReadForAdd(s: seq<Label>, w: World, sid: nat) returns (s': seq<Label>, w': World)
    requires Reaches(s, w) && sid in w.sessions && w.sessions[sid].stage.Syncing?
    requires w.sessions[sid].stage.del == [] && w.sessions[sid].stage.add != []
    requires w.sessions[sid].target in w.core.db.rows && w.core.db.rows[w.sessions[sid].target].status == InProgress
    ensures var se := w.sessions[sid];
      && Reaches(s', w') && w'.core == w.core
      && w'.sessions == w.sessions[sid := se.(stage := SyncChecked(se.stage.add))]
  {
    InvReachable(s);
    var list := ListingExists(w.core.db, w.sessions[sid].target);
    s', w' := Extend(s, w, Proceed(sid, SelectRow(NoFault)));
    s', w' := Extend(s', w', Proceed(sid, SelectComparables(list, NoFault)));
  }

  /// One entry of a calculation's clean-up is added, under the id `newId`.
  lemma AddOne(s: seq<Label>, w: World, sid: nat, newId: Uuid) returns (s': seq<Label>, w': World)
    requires Reaches(s, w) && sid in w.sessions && w.sessions[sid].stage.Syncing?
    requires w.sessions[sid].stage.del == [] && w.sessions[sid].stage.add != []
    requires w.sessions[sid].target in w.core.db.rows && w.core.db.rows[w.sessions[sid].target].status == InProgress
    requires newId !in w.core.db.comparables
    ensures var se := w.sessions[sid];
      && Reaches(s', w')
      && w'.core.db.rows == w.core.db.rows
      && w'.core.db.comparables == w.core.db.comparables[newId := Comparable(newId, se.target, se.stage.add[0], 0)]
      && w'.sessions == w.sessions[sid := se.(stage := Syncing([], se.stage.add[1..]))]
  {
    s', w' := ReadForAdd(s, w, sid);
    s', w' := Write(s', w', sid, Execute(0, newId, 0, 0, NoFault));
  }

  lemma CountOneMore(db: Db, db': Db, c: Comparable)
    requires c.id !in db.comparables && db'.comparables == db.comparables[c.id := c]
    ensures |ComparablesOf(db', c.appraisalId)| == |ComparablesOf(db, c.appraisalId)| + 1
  {
    assert ComparablesOf(db', c.appraisalId) == ComparablesOf(db, c.appraisalId)[c.id := c];
  }

  /// All entries are added, under the ids from `next` on.
  lemma {:induction false} AddAll(s: seq<Label>, w: World, sid: nat, next: Uuid) returns (s': seq<Label>, w': World)
    requires Reaches(s, w) && sid in w.sessions && w.sessions[sid].stage.Syncing? && w.sessions[sid].stage.del == []
    requires w.sessions[sid].target in w.core.db.rows && w.core.db.rows[w.sessions[sid].target].status == InProgress
    requires forall c :: c in w.core.db.comparables ==> c < next
    ensures var se := w.sessions[sid]; var n := |se.stage.add|;
      && Reaches(s', w')
      && w'.core.db.rows == w.core.db.rows
      && (forall c :: c in w'.core.db.comparables ==> c < next + n)
      && |ComparablesOf(w'.core.db, se.target)| == |ComparablesOf(w.core.db, se.target)| + n
      && w'.sessions == w.sessions[sid := se.(stage := Syncing([], []))]
    decreases |w.sessions[sid].stage.add|
  {
    s', w' := s, w;
    var se := w.sessions[sid];
    if se.stage.add != [] {
      s', w' := AddOne(s, w, sid, next);
      CountOneMore(w.core.db, w'.core.db, Comparable(next, se.target, se.stage.add[0], 0));
      s', w' := AddAll(s', w', sid, next + 1);
    }
  }

  /// Appraisal 1 is in progress without comparables; the first calculation is saved and about to add its entries.
  lemma FirstSaved(op: Operation) returns (s: seq<Label>, w: World)
    requires op.ApplyCalculation?
    ensures Reaches(s, w) && w.core.db.rows == map[1 := Edited(op, NewAppraisal(1, 7, 10), 11)]
    ensures w.core.db.comparables == map[] && w.core.db.outbox == map[]
    ensures w.sessions.Keys == {0} && w.sessions[0].target == 1 && w.sessions[0].stage == Syncing([], op.entries)
  {
    InitialReached();
    s, w := Deliver([], INITIAL, 3, 7, 1, 10);
    assert IsListing(w.core.db, 1, []);
    s, w := Open(s, w, 0, 1, op, []);
    s, w := Write(s, w, 0, Execute(11, 0, 0, 0, NoFault));
    assert Ids([]) == [];
  }

  lemma SecondSaved(s: seq<Label>, w: World, op: Operation, op': Operation) returns (s': seq<Label>, w': World)
    requires op.ApplyCalculation? && op'.ApplyCalculation?
    requires Reaches(s, w) && w.core.db.rows == map[1 := Edited(op, NewAppraisal(1, 7, 10), 11)]
    requires w.core.db.comparables == map[] && w.sessions.Keys == {0}
    ensures Reaches(s', w') && w'.core.db.comparables == map[] && w'.sessions.Keys == {0, 1}
    ensures w'.core.db.rows == map[1 := Edited(op', Edited(op, NewAppraisal(1, 7, 10), 11), 12)]
    ensures w'.sessions[0] == w.sessions[0]
    ensures w'.sessions[1].target == 1 && w'.sessions[1].stage == Syncing([], op'.entries)
  {
    assert IsListing(w.core.db, 1, []);
    s', w' := Open(s, w, 1, 1, op', []);
    s', w' := Write(s', w', 1, Execute(12, 0, 0, 0, NoFault));
    assert Ids([]) == [];
  }

  /// Any two calculations can overlap so that the entries of both are left beside the second one's result: four
  /// and four make eight.
  lemma OverlapKeepsBoth(op: Operation, op': Operation) returns (s: seq<Label>)
    requires op.ApplyCalculation? && op'.ApplyCalculation?
    ensures var db := Run(INITIAL, s).core.db;
      && 1 in db.rows && db.rows[1].calculationData == Some(op'.calculation)
      && |ComparablesOf(db, 1)| == |op.entries| + |op'.entries|
  {
    var w;
    s, w := FirstSaved(op);
    s, w := SecondSaved(s, w, op, op');
    assert ComparablesOf(w.core.db, 1) == map[];
    s, w := AddAll(s, w, 0, 0);
    s, w := AddAll(s, w, 1, |op.entries|);
  }

  /// If a completion lands between the save of a calculation and its first insert, the completed row holds the
  /// calculation and never gets a comparable.
  lemma CompletionLeavesNone(op: Operation) returns (first: seq<Label>)
    requires op.ApplyCalculation?
    ensures var db := Run(INITIAL, first).core.db;
      1 in db.rows && db.rows[1].status == Completed && db.rows[1].calculationData == Some(op.calculation)
    ensures forall second :: ComparablesOf(Run(INITIAL, first + second).core.db, 1) == map[]
  {
    var s, w := FirstSaved(op);
    assert IsListing(w.core.db, 1, []);
    s, w := Open(s, w, 1, 1, Complete, []);
    s, w := Finish(s, w, 1, 12, 4, 1);
    first := s;
    assert ComparablesOf(w.core.db, 1) == map[];
    forall second ensures ComparablesOf(Run(INITIAL, first + second).core.db, 1) == map[] {
      ComparablesSettle(first, second, 1);
    }
  }
}
