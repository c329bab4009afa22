/// The relay over every schedule of publish errors, lost acknowledgements, ambiguous marks and crashes:
/// only committed events reach review.events, one per request.

module OutboundSafety {
  import opened Domain
  import opened Tables
  import opened Machine
  import opened CoreInvariant
  import opened SessionInvariant
  import opened InboundSafety

  // ---------- Only committed events are published ----------

  ghost predicate FromOutbox(db: Db, messages: seq<OutMessage>) {
    forall i :: 0 <= i < |messages| ==>
      messages[i].outboxId in db.outbox && db.outbox[messages[i].outboxId].event == messages[i].event
  }

  ghost predicate Truthful(db: Db, r: Relay) {
    FromOutbox(db, r.log) && FromOutbox(db, r.batch)
  }

  lemma FromOutboxStays(a: Core, b: Core, messages: seq<OutMessage>)
    requires Grows(a, b) && FromOutbox(a.db, messages)
    ensures FromOutbox(b.db, messages)
  {
  }

  lemma TruthfulMoves(db: Db, r: Relay, act: RelayAct)
    requires Truthful(db, r)
    requires act.Poll? ==> FromOutbox(db, act.batch)
    ensures Truthful(db, NextRelay(r, act))
  {
  }

  lemma TruthfulKept(dedup: bool, w: World, l: Label)
    requires HistoriesOk(w.core) && Truthful(w.core.db, w.relay)
    ensures var w' := StepWith(dedup, w, l); Truthful(w'.core.db, w'.relay)
  {
    if Enabled(w, l) {
      var core' := Apply(w.core, ChangeOf(w, l));
      ApplyGrows(w.core, ChangeOf(w, l));
      FromOutboxStays(w.core, core', w.relay.log);
      FromOutboxStays(w.core, core', w.relay.batch);
      if l.Forward? {
        if l.rel.Poll? {
          assert FromOutbox(w.core.db, l.rel.batch);
          FromOutboxStays(w.core, core', l.rel.batch);
        }
        TruthfulMoves(core'.db, w.relay, l.rel);
      }
    }
  }

  lemma {:induction false} TruthfulReachable(schedule: seq<Label>)
    ensures var w := Run(INITIAL, schedule); Inv(w) && Truthful(w.core.db, w.relay)
  {
    InvReachable(schedule);
    if schedule != [] {
      var before := schedule[..|schedule| - 1];
      TruthfulReachable(before);
      TruthfulKept(true, Run(INITIAL, before), schedule[|schedule| - 1]);
    }
  }

  lemma Announcement(core: Core, k: nat)
    requires CoreInv(core) && k in core.db.outbox
    ensures var e := core.db.outbox[k].event;
      && e.data.appraisalId in core.db.rows
      && core.db.rows[e.data.appraisalId].status == Completed
      && core.db.rows[e.data.appraisalId].requestId == e.requestId == core.db.outbox[k].aggregateId
      && e.eventType == EVENT_TYPE_REPORT_READY && e.version == EVENT_VERSION
  {
    AnnouncedRow(core, k);
    assert exists j :: Announces(core, core.db.outbox[k].event, j);
  }

  /// End to end, over any run: however often a row is published, all report.ready messages of one request
  /// are the same event, and each traces back to an appraisal that is completed and was created for a
  /// delivered event that moved its request to appraisal.
  lemma EndToEnd(schedule: seq<Label>, i: nat, j: nat) returns (source: nat)
    requires i < |Run(INITIAL, schedule).relay.log| && j < |Run(INITIAL, schedule).relay.log|
    ensures var w := Run(INITIAL, schedule); var e := w.relay.log[i].event;
      && (w.relay.log[j].event.requestId == e.requestId ==> w.relay.log[j] == w.relay.log[i])
      && (w.relay.log[j].event.eventId == e.eventId ==> w.relay.log[j] == w.relay.log[i])
      && e.eventType == EVENT_TYPE_REPORT_READY
      && e.data.appraisalId in w.core.db.rows
      && w.core.db.rows[e.data.appraisalId].status == Completed
      && w.core.db.rows[e.data.appraisalId].requestId == e.requestId
      && Traced(w.inbound, e.requestId)
    ensures var w := Run(INITIAL, schedule); var b := w.inbound; var e := w.relay.log[i].event;
      && e.eventType == "report.ready" && e.version == 1
      && source in b.delivered && source < |b.log|
      && b.log[source].Envelope? && b.log[source].eventType == "request.status_changed" && b.log[source].eventId != 0
      && b.log[source].data == StatusChanged("appraisal") && b.log[source].requestId == e.requestId
  {
    TruthfulReachable(schedule);
    OriginsReachable(schedule);
    var core := Run(INITIAL, schedule).core;
    var k, k' := Run(INITIAL, schedule).relay.log[i].outboxId, Run(INITIAL, schedule).relay.log[j].outboxId;
    Announcement(core, k);
    Announcement(core, k');
    source := AppraisalAskedFor(schedule, core.db.outbox[k].event.data.appraisalId);
  }
}
