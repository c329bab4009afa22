/// The consumer over every schedule of deliveries, redeliveries, crashes, ambiguous faults and expiring
/// marks: no relevant event is lost, each appraisal traces back to a delivered event, and the dedup cache
/// changes nothing but the work done.

module InboundSafety {
  import opened Domain
  import opened Tables
  import opened Machine
  import opened CoreInvariant
  import opened SessionInvariant

  /// Message j asks for a request that a relevant message before it asked for.
  ghost predicate AskedBefore(log: seq<Message>, j: int)
    requires 0 <= j < |log| && Relevant(log[j])
  {
    exists k :: 0 <= k < j && Relevant(log[k]) && log[k].requestId == log[j].requestId
  }

  /// What a log must satisfy for its event ids to be safe to deduplicate on: an event id is reused only for a
  /// request that was asked for before.
  ghost predicate FirstsFresh(log: seq<Message>) {
    forall i, j :: 0 <= i < j < |log| && Relevant(log[i]) && Relevant(log[j]) && log[i].eventId == log[j].eventId ==>
      AskedBefore(log, j)
  }

  /// The producer's usual side of the contract: an event id stands for one request.
  ghost predicate EventIdsConsistent(log: seq<Message>) {
    forall i, j | 0 <= i < |log| && 0 <= j < |log| && Relevant(log[i]) && Relevant(log[j]) ::
      log[i].eventId == log[j].eventId ==> log[i].requestId == log[j].requestId
  }

  lemma ConsistentFirstsFresh(log: seq<Message>)
    requires EventIdsConsistent(log)
    ensures FirstsFresh(log)
  {
  }

  /// Message i needs nothing more: it is irrelevant, or its request has an appraisal.
  ghost predicate Handled(db: Db, log: seq<Message>, i: int)
    requires 0 <= i < |log|
  {
    Relevant(log[i]) ==> HasRequest(db, log[i].requestId)
  }

  ghost predicate HandledBelow(db: Db, log: seq<Message>, n: int) {
    n <= |log| && forall i :: 0 <= i < n ==> Handled(db, log, i)
  }

  /// Relevant message i has this event id, and nothing up to it needs anything more.
  ghost predicate Justifies(db: Db, log: seq<Message>, e: Uuid, i: int) {
    0 <= i < |log| && Relevant(log[i]) && log[i].eventId == e && HandledBelow(db, log, i + 1)
  }

  ghost predicate MarkJustified(db: Db, log: seq<Message>, e: Uuid) {
    exists i :: Justifies(db, log, e, i)
  }

  /// Some delivered relevant message asked for this request.
  ghost predicate Traced(b: Inbound, requestId: Uuid) {
    exists i :: i in b.delivered && i < |b.log| && Relevant(b.log[i]) && b.log[i].requestId == requestId
  }

  /// Where appraisals come from; this needs no assumption on event ids.
  ghost predicate OriginsOk(db: Db, b: Inbound) {
    && (b.reading in {Fetched, Creating, Marking} ==> Handling(b) && b.at in b.delivered)
    && (forall id | id in db.rows :: Traced(b, db.rows[id].requestId))
  }

  ghost predicate PositionOk(db: Db, b: Inbound) {
    && (b.reading in {Fetched, Creating, Marking} ==> Handling(b))
    && (b.reading == Committing ==> b.at < |b.log|)
    && (b.reading in {Marking, Committing} ==> Handled(db, b.log, b.at))
  }

  ghost predicate InboundInv(db: Db, b: Inbound) {
    && HandledBelow(db, b.log, b.committed)
    && HandledBelow(db, b.log, b.at)
    && PositionOk(db, b)
    && (forall e | e in b.marks :: MarkJustified(db, b.log, e))
  }

  // ---------- Safety ----------

  /// Appraisals never disappear, so a request that has one keeps it.
  ghost predicate KeepsRows(db: Db, db': Db) {
    forall id | id in db.rows :: id in db'.rows && db'.rows[id].requestId == db.rows[id].requestId
  }

  lemma ChangeKeepsRows(core: Core, ch: Change)
    requires HistoriesOk(core)
    ensures KeepsRows(core.db, Apply(core, ch).db)
  {
  }

  lemma HasRequestStays(db: Db, db': Db, r: Uuid)
    requires KeepsRows(db, db') && HasRequest(db, r)
    ensures HasRequest(db', r)
  {
    var id :| id in db.rows && db.rows[id].requestId == r;
    assert id in db'.rows && db'.rows[id].requestId == r;
  }

  /// The consumer's facts survive any change of the database.
  lemma SurvivesDb(db: Db, db': Db, b: Inbound)
    requires InboundInv(db, b) && KeepsRows(db, db')
    ensures HandledBelow(db', b.log, b.committed) && HandledBelow(db', b.log, b.at) && PositionOk(db', b)
    ensures forall e | e in b.marks :: MarkJustified(db', b.log, e)
  {
    forall i | 0 <= i < |b.log| && Handled(db, b.log, i) ensures Handled(db', b.log, i) {
      if Relevant(b.log[i]) {
        HasRequestStays(db, db', b.log[i].requestId);
      }
    }
    forall e | e in b.marks ensures MarkJustified(db', b.log, e) {
      var i :| Justifies(db, b.log, e, i);
      assert Justifies(db', b.log, e, i);
    }
  }

  /// New rows come only from the consumer's create, for the message it is handling.
  lemma RowsTraced(core: Core, b: Inbound, ch: Change)
    requires HistoriesOk(core) && OriginsOk(core.db, b)
    requires ch.Insert? ==> b.at in b.delivered && Handling(b) && ch.row.requestId == b.log[b.at].requestId
    ensures forall id | id in Apply(core, ch).db.rows :: Traced(b, Apply(core, ch).db.rows[id].requestId)
  {
    var db' := Apply(core, ch).db;
    forall id | id in db'.rows ensures Traced(b, db'.rows[id].requestId) {
      if id in core.db.rows {
        assert db'.rows[id].requestId == core.db.rows[id].requestId;
      }
    }
  }

  /// A marked message needs nothing more: it was handled itself, or its request was asked for below it.
  lemma SkipIsHandled(db: Db, b: Inbound)
    requires HandledBelow(db, b.log, b.at) && Handling(b) && FirstsFresh(b.log)
    requires MarkJustified(db, b.log, b.log[b.at].eventId)
    ensures Handled(db, b.log, b.at)
  {
    var i :| Justifies(db, b.log, b.log[b.at].eventId, i);
    if i < b.at {
      assert AskedBefore(b.log, b.at);
      var k :| 0 <= k < b.at && Relevant(b.log[k]) && b.log[k].requestId == b.log[b.at].requestId;
      assert Handled(db, b.log, k);
    }
  }

  /// The facts that hold of any consumer state over the same database: what the last step of each action needs.
  lemma ConsumerMoves(dedup: bool, db: Db, db': Db, b: Inbound, act: InboundAct)
    requires InboundInv(db, b)
    requires HandledBelow(db', b.log, b.committed) && HandledBelow(db', b.log, b.at) && PositionOk(db', b)
    requires forall e | e in b.marks :: MarkJustified(db', b.log, e)
    requires FirstsFresh(b.log)
    requires
      (act.Create? && act.fault == NoFault && b.reading == Creating &&
       CreateOutcomeOf(db, NewAppraisal(act.freshId, b.log[b.at].requestId, act.now)) != KeyTaken)
      ==> HasRequest(db', b.log[b.at].requestId)
    ensures var b' := NextInbound(dedup, db, b, act);
      HandledBelow(db', b'.log, b'.committed) && HandledBelow(db', b'.log, b'.at) && PositionOk(db', b')
  {
    forall i | 0 <= i < |b.log| && Handled(db', b.log, i) ensures Handled(db', NextInbound(dedup, db, b, act).log, i) {
    }
    if act.CheckDup? && dedup && b.reading == Fetched && b.log[b.at].eventId in b.marks {
      SkipIsHandled(db', b);
    }
  }

  lemma JustifiesLonger(db: Db, log: seq<Message>, log': seq<Message>, e: Uuid, i: int)
    requires log <= log' && Justifies(db, log, e, i)
    ensures Justifies(db, log', e, i)
  {
    forall k | 0 <= k < i + 1 ensures Handled(db, log', k) {
      assert Handled(db, log, k);
    }
  }

  lemma MarksStayJustified(dedup: bool, db: Db, db': Db, b: Inbound, act: InboundAct)
    requires PositionOk(db', b) && HandledBelow(db', b.log, b.at)
    requires forall e | e in b.marks :: MarkJustified(db', b.log, e)
    ensures var b' := NextInbound(dedup, db, b, act);
      forall e | e in b'.marks :: MarkJustified(db', b'.log, e)
  {
    var b' := NextInbound(dedup, db, b, act);
    forall e | e in b'.marks ensures MarkJustified(db', b'.log, e) {
      if e in b.marks {
        var i :| Justifies(db', b.log, e, i);
        JustifiesLonger(db', b.log, b'.log, e, i);
      } else {
        assert Justifies(db', b'.log, e, b.at);
      }
    }
  }

  lemma TracesStay(dedup: bool, db: Db, b: Inbound, act: InboundAct, r: Uuid)
    requires Traced(b, r)
    ensures Traced(NextInbound(dedup, db, b, act), r)
  {
    var b' := NextInbound(dedup, db, b, act);
    var i :| i in b.delivered && i < |b.log| && Relevant(b.log[i]) && b.log[i].requestId == r;
    assert i in b'.delivered && b'.log[i] == b.log[i];
  }

  lemma CreateHandles(core: Core, b: Inbound, act: InboundAct)
    requires PositionOk(core.db, b) && act.Create? && act.fault == NoFault && b.reading == Creating
    requires CreateOutcomeOf(core.db, NewAppraisal(act.freshId, b.log[b.at].requestId, act.now)) != KeyTaken
    ensures HasRequest(Apply(core, InboundChange(b, act)).db, b.log[b.at].requestId)
  {
    var db' := Apply(core, InboundChange(b, act)).db;
    if CreateOutcomeOf(core.db, NewAppraisal(act.freshId, b.log[b.at].requestId, act.now)) == Created {
      assert db'.rows[act.freshId].requestId == b.log[b.at].requestId;
    }
  }

  lemma InboundInvKept(dedup: bool, w: World, l: Label)
    requires Inv(w) && InboundInv(w.core.db, w.inbound) && FirstsFresh(w.inbound.log)
    ensures var w' := StepWith(dedup, w, l); InboundInv(w'.core.db, w'.inbound)
  {
    if Enabled(w, l) {
      var ch := ChangeOf(w, l);
      var db' := Apply(w.core, ch).db;
      ChangeKeepsRows(w.core, ch);
      SurvivesDb(w.core.db, db', w.inbound);
      if l.Consume? {
        if l.inb.Create? && l.inb.fault == NoFault && w.inbound.reading == Creating
           && CreateOutcomeOf(w.core.db,
             NewAppraisal(l.inb.freshId, w.inbound.log[w.inbound.at].requestId, l.inb.now)) != KeyTaken {
          CreateHandles(w.core, w.inbound, l.inb);
        }
        ConsumerMoves(dedup, w.core.db, db', w.inbound, l.inb);
        MarksStayJustified(dedup, w.core.db, db', w.inbound, l.inb);
      }
    }
  }

  lemma PositionDelivered(dedup: bool, db: Db, b: Inbound, act: InboundAct)
    requires b.reading in {Fetched, Creating, Marking} ==> Handling(b) && b.at in b.delivered
    ensures var b' := NextInbound(dedup, db, b, act);
      b'.reading in {Fetched, Creating, Marking} ==> Handling(b') && b'.at in b'.delivered
  {
  }

  lemma OriginsFollow(dedup: bool, db: Db, db': Db, b: Inbound, act: InboundAct)
    requires OriginsOk(db', b)
    ensures OriginsOk(db', NextInbound(dedup, db, b, act))
  {
    PositionDelivered(dedup, db, b, act);
    forall id | id in db'.rows ensures Traced(NextInbound(dedup, db, b, act), db'.rows[id].requestId) {
      TracesStay(dedup, db, b, act, db'.rows[id].requestId);
    }
  }

  lemma OriginsKept(dedup: bool, w: World, l: Label)
    requires HistoriesOk(w.core) && OriginsOk(w.core.db, w.inbound)
    ensures var w' := StepWith(dedup, w, l); OriginsOk(w'.core.db, w'.inbound)
  {
    if Enabled(w, l) {
      RowsTraced(w.core, w.inbound, ChangeOf(w, l));
      if l.Consume? {
        OriginsFollow(dedup, w.core.db, Apply(w.core, ChangeOf(w, l)).db, w.inbound, l.inb);
      }
    }
  }

  /// Every appraisal was asked for by a delivered relevant event.
  lemma {:induction false} OriginsReachable(schedule: seq<Label>)
    ensures var w := Run(INITIAL, schedule); Inv(w) && OriginsOk(w.core.db, w.inbound)
  {
    InvReachable(schedule);
    if schedule != [] {
      var before := schedule[..|schedule| - 1];
      OriginsReachable(before);
      OriginsKept(true, Run(INITIAL, before), schedule[|schedule| - 1]);
    }
  }

  lemma LogGrows(dedup: bool, w: World, l: Label)
    ensures w.inbound.log <= StepWith(dedup, w, l).inbound.log
  {
  }

  lemma FreshPrefix(log: seq<Message>, log': seq<Message>)
    requires log <= log' && FirstsFresh(log')
    ensures FirstsFresh(log)
  {
    forall i, j | 0 <= i < j < |log| && Relevant(log[i]) && Relevant(log[j]) && log[i].eventId == log[j].eventId
      ensures AskedBefore(log, j)
    {
      assert log'[i] == log[i] && log'[j] == log[j];
      assert AskedBefore(log', j);
      var k :| 0 <= k < j && Relevant(log'[k]) && log'[k].requestId == log'[j].requestId;
      assert log[k] == log'[k];
    }
  }

  lemma {:induction false} InboundReachable(schedule: seq<Label>)
    requires FirstsFresh(Run(INITIAL, schedule).inbound.log)
    ensures var w := Run(INITIAL, schedule); Inv(w) && InboundInv(w.core.db, w.inbound)
  {
    InvReachable(schedule);
    if schedule != [] {
      var w := Run(INITIAL, schedule[..|schedule| - 1]);
      var l := schedule[|schedule| - 1];
      LogGrows(true, w, l);
      FreshPrefix(w.inbound.log, Step(w, l).inbound.log);
      InboundReachable(schedule[..|schedule| - 1]);
      InboundInvKept(true, w, l);
    }
  }

  /// Every appraisal goes back to a delivered event of type request.status_changed, with an event id, that moved
  /// its request to appraisal; this needs no assumption on event ids.
  lemma AppraisalAskedFor(schedule: seq<Label>, id: Uuid) returns (i: nat)
    requires id in Run(INITIAL, schedule).core.db.rows
    ensures var w := Run(INITIAL, schedule); var b := w.inbound;
      && i in b.delivered && i < |b.log|
      && b.log[i].Envelope? && b.log[i].eventType == "request.status_changed" && b.log[i].eventId != 0
      && b.log[i].data == StatusChanged("appraisal")
      && b.log[i].requestId == w.core.db.rows[id].requestId
  {
    OriginsReachable(schedule);
    var w := Run(INITIAL, schedule);
    var b := w.inbound;
    assert Traced(b, w.core.db.rows[id].requestId);
    i :| i in b.delivered && i < |b.log| && Relevant(b.log[i]) && b.log[i].requestId == w.core.db.rows[id].requestId;
  }

  /// Whatever the crash points, redeliveries and expiries: every relevant event below the committed offset
  /// has an appraisal for its request, every mark is of a message that was handled with all before it, no request
  /// has two appraisals, and every appraisal was asked for by a delivered relevant event.
  lemma ConsumerSafety(schedule: seq<Label>)
    requires FirstsFresh(Run(INITIAL, schedule).inbound.log)
    ensures var w := Run(INITIAL, schedule); var b := w.inbound;
      && b.committed <= |b.log|
      && (forall i :: 0 <= i < b.committed && Relevant(b.log[i]) ==> HasRequest(w.core.db, b.log[i].requestId))
      && (forall e | e in b.marks :: MarkJustified(w.core.db, b.log, e))
      && RequestsUnique(w.core.db)
      && (forall id | id in w.core.db.rows :: Traced(b, w.core.db.rows[id].requestId))
    ensures var w := Run(INITIAL, schedule); var b := w.inbound;
      forall i :: 0 <= i < b.committed
                  && b.log[i].Envelope? && b.log[i].eventType == "request.status_changed" && b.log[i].eventId != 0
                  && b.log[i].data == StatusChanged("appraisal") ==>
        HasRequest(w.core.db, b.log[i].requestId)
  {
    InboundReachable(schedule);
    OriginsReachable(schedule);
    var w := Run(INITIAL, schedule);
    var b := w.inbound;
    forall i | 0 <= i < b.committed && Relevant(b.log[i]) ensures HasRequest(w.core.db, b.log[i].requestId) {
      assert Handled(w.core.db, b.log, i);
    }
  }

  /// If each event id stands for one request, then also every message with a marked event id has its appraisal,
  /// wherever it is in the log.
  lemma MarkedHaveAppraisals(schedule: seq<Label>)
    requires EventIdsConsistent(Run(INITIAL, schedule).inbound.log)
    ensures var w := Run(INITIAL, schedule); var b := w.inbound;
      forall i :: 0 <= i < |b.log| && Relevant(b.log[i]) && b.log[i].eventId in b.marks ==>
        HasRequest(w.core.db, b.log[i].requestId)
  {
    var w := Run(INITIAL, schedule);
    var b := w.inbound;
    ConsistentFirstsFresh(b.log);
    InboundReachable(schedule);
    forall i | 0 <= i < |b.log| && Relevant(b.log[i]) && b.log[i].eventId in b.marks
      ensures HasRequest(w.core.db, b.log[i].requestId)
    {
      assert MarkJustified(w.core.db, b.log, b.log[i].eventId);
      var j :| Justifies(w.core.db, b.log, b.log[i].eventId, j);
      assert Handled(w.core.db, b.log, j);
    }
  }

  // ---------- Transparency of the dedup cache ----------

  /// The step at which the consumer skips a message because its event id is marked.
  ghost predicate Skips(w: World, l: Label) {
    && l == Consume(CheckDup(NoFault))
    && w.inbound.reading == Fetched && Handling(w.inbound)
    && w.inbound.log[w.inbound.at].eventId in w.inbound.marks
  }

  /// The same deliveries for a consumer without dedup: each skip becomes a full pass, with its create and its mark.
  ghost function Unskipped(schedule: seq<Label>): seq<Label> {
    if schedule == [] then []
    else
      var before := schedule[..|schedule| - 1];
      var l := schedule[|schedule| - 1];
      Unskipped(before) +
      if Skips(Run(INITIAL, before), l) then [l, Consume(Create(0, 0, NoFault)), Consume(Mark(NoFault))] else [l]
  }

  /// The same world, apart from which marks happen to be present.
  ghost predicate SameButMarks(w: World, v: World) {
    w == v.(inbound := v.inbound.(marks := w.inbound.marks))
  }

  lemma PlainStep(w: World, v: World, l: Label)
    requires SameButMarks(w, v) && !Skips(w, l)
    ensures SameButMarks(Step(w, l), StepWith(false, v, l))
  {
  }

  /// A skipped create would have found the appraisal and done nothing.
  lemma SkippedStep(w: World, v: World, l: Label)
    requires InboundInv(w.core.db, w.inbound) && FirstsFresh(w.inbound.log)
    requires SameButMarks(w, v) && Skips(w, l)
    ensures var v1 := StepWith(false, v, l);
      var v2 := StepWith(false, v1, Consume(Create(0, 0, NoFault)));
      var v3 := StepWith(false, v2, Consume(Mark(NoFault)));
      v2.core == v1.core && SameButMarks(Step(w, l), v3)
  {
    var b := w.inbound;
    SkipIsHandled(w.core.db, b);
    assert HasRequest(v.core.db, b.log[b.at].requestId);
  }

  lemma RunThree(w: World, s: seq<Label>, a: Label, b: Label, c: Label)
    ensures RunWith(false, w, s + [a, b, c]) ==
      StepWith(false, StepWith(false, StepWith(false, RunWith(false, w, s), a), b), c)
  {
    RunConcat(false, w, s, [a, b, c]);
    RunConcat(false, RunWith(false, w, s), [a, b], [c]);
    RunConcat(false, RunWith(false, w, s), [a], [b]);
    assert [a, b, c] == [a, b] + [c] && [a, b] == [a] + [b];
    RunOne(false, RunWith(false, w, s), a);
    RunOne(false, StepWith(false, RunWith(false, w, s), a), b);
    RunOne(false, StepWith(false, StepWith(false, RunWith(false, w, s), a), b), c);
  }

  /// A consumer with the dedup set, whatever marks expire and whenever, leaves the same database
  /// (and sessions, offsets, relay) as a consumer that creates on every delivery.
  lemma {:induction false} CacheTransparent(schedule: seq<Label>)
    requires FirstsFresh(Run(INITIAL, schedule).inbound.log)
    ensures SameButMarks(Run(INITIAL, schedule), RunWith(false, INITIAL, Unskipped(schedule)))
  {
    if schedule != [] {
      var before := schedule[..|schedule| - 1];
      var l := schedule[|schedule| - 1];
      var w := Run(INITIAL, before);
      LogGrows(true, w, l);
      FreshPrefix(w.inbound.log, Step(w, l).inbound.log);
      CacheTransparent(before);
      var v := RunWith(false, INITIAL, Unskipped(before));
      if Skips(w, l) {
        InboundReachable(before);
        SkippedStep(w, v, l);
        RunThree(INITIAL, Unskipped(before), l, Consume(Create(0, 0, NoFault)), Consume(Mark(NoFault)));
      } else {
        PlainStep(w, v, l);
        RunConcat(false, INITIAL, Unskipped(before), [l]);
        RunOne(false, v, l);
      }
    }
  }
}
