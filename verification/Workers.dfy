/// The two background loops: the consumer of internal/kafka/consumer.go with CreateFromRequest of
/// internal/service/appraisal.go, and the relay of internal/outbox/relay.go, with anything happening
/// between two calls. Each loop is a run of its part of the state machine.

module Workers {
  import opened Domain
  import opened Tables
  import opened Machine
  import opened Sites
  import opened InboundSafety
  import opened RelayDrain

  /// Ids as uuid.New hands them out.
  predicate Unused(ids: seq<Uuid>, db: Db) {
    && (forall i :: 0 <= i < |ids| ==> ids[i] !in db.rows)
    && (forall i, j :: 0 <= i < j < |ids| ==> ids[i] != ids[j])
  }

  class Consumer {
    const site: Site

    constructor (site: Site)
      ensures this.site == site
    {
      this.site := site;
    }

    ghost predicate Running()
      reads site, site.db, site.dedup
    {
      site.Valid() && ForeignScript(site.script, TheConsumer)
    }

    /// What handling one message keeps.
    twostate predicate SameMessage()
      reads site, site.db, site.dedup
    {
      && Running()
      && old(site.trace) <= site.trace
      && old(site.world.inbound.log) <= site.world.inbound.log
      && site.world.inbound.at == old(site.world.inbound.at)
      && site.world.inbound.committed == old(site.world.inbound.committed)
    }

    /// The idempotent creation; `created` is false when the request already had its appraisal.
    method CreateFromRequest(requestId: Uuid, freshId: Uuid, now: Stamp) returns (created: bool, ok: bool)
      requires Running() && Handling(site.world.inbound)
      requires site.world.inbound.reading == Creating
      requires site.world.inbound.log[site.world.inbound.at].requestId == requestId
      modifies site, site.db, site.dedup
      ensures SameMessage()
      ensures site.world.inbound.reading == if ok then Marking else Stopped
      ensures ok ==> HasRequest(site.world.core.db, requestId)
      ensures old(site.script) == [] ==>
        && site.script == []
        && site.world.core.db == DbCreate(old(site.world.core.db), NewAppraisal(freshId, requestId, now))
        && site.world.inbound.log == old(site.world.inbound.log)
        && (ok <==> CreateOutcomeOf(old(site.world.core.db), NewAppraisal(freshId, requestId, now)) != KeyTaken)
        && (ok ==> (created <==> !HasRequest(old(site.world.core.db), requestId)))
    {
      var fault := site.Yield(TheConsumer);
      var a := NewAppraisal(freshId, requestId, now);
      ghost var before := site.world.core.db;
      var outcome := KeyTaken;
      if fault != Lost {
        outcome := site.db.Create(a);
      }
      site.ActInbound(Create(freshId, now, fault));
      created := outcome == Created;
      ok := fault == NoFault && outcome != KeyTaken;
      if ok && created {
        assert site.world.core.db.rows[freshId].requestId == requestId;
      }
    }

    /// Create, then mark.
    method CreateAndMark(m: Message, freshId: Uuid, now: Stamp) returns (ok: bool)
      requires Running() && Handling(site.world.inbound) && site.world.inbound.log[site.world.inbound.at] == m
      requires site.world.inbound.reading == Creating
      modifies site, site.db, site.dedup
      ensures SameMessage()
      ensures site.world.inbound.reading == if ok then Committing else Stopped
      ensures old(site.script) == [] ==>
        && site.script == []
        && site.world.core.db == DbCreate(old(site.world.core.db), NewAppraisal(freshId, m.requestId, now))
        && site.world.inbound.log == old(site.world.inbound.log)
        && (freshId !in old(site.world.core.db.rows) ==> ok)
    {
      var _, created := CreateFromRequest(m.requestId, freshId, now);
      if !created {
        return false;
      }
      var fault := site.Yield(TheConsumer);
      if fault != Lost {
        site.dedup.Mark(m.eventId);
      }
      site.ActInbound(Mark(fault));
      ok := fault == NoFault;
    }

    /// The database after a message was processed alone.
    function Processed(db: Db, marks: set<Uuid>, m: Message, freshId: Uuid, now: Stamp): Db {
      if Relevant(m) && m.eventId !in marks then DbCreate(db, NewAppraisal(freshId, m.requestId, now)) else db
    }

    /// Exactly which message, handled alone, creates an appraisal, for which request, and what the row is; any
    /// other message leaves the database as it was.
    lemma ProcessedIff(db: Db, marks: set<Uuid>, m: Message, freshId: Uuid, now: Stamp, r: Uuid)
      ensures var db' := Processed(db, marks, m, freshId, now);
        !HasRequest(db, r) && HasRequest(db', r) <==>
          && m.Envelope? && m.eventType == "request.status_changed" && m.requestId == r
          && m.eventId != 0 && m.eventId !in marks
          && m.data.StatusChanged? && m.data.newStatus == "appraisal"
          && !HasRequest(db, r) && freshId !in db.rows
      ensures var db' := Processed(db, marks, m, freshId, now);
        db' == db || (&& m.Envelope? && freshId !in db.rows
                      && db' == db.(rows := db.rows[freshId :=
                           Appraisal(freshId, m.requestId, None, InProgress, None, None, None, None, None, now, now)]))
    {
      var db' := Processed(db, marks, m, freshId, now);
      if db' != db {
        assert db'.rows[freshId].requestId == m.requestId;
      }
    }

    /// A message about to be committed has its appraisal.
    lemma HandledWhenDone(m: Message)
      requires Running() && Handling(site.world.inbound) && site.world.inbound.log[site.world.inbound.at] == m
      requires site.world.inbound.reading == Committing
      ensures FirstsFresh(site.world.inbound.log) ==> HasRequest(site.world.core.db, m.requestId)
    {
      if FirstsFresh(site.world.inbound.log) {
        InboundReachable(site.trace);
      }
    }

    /// Filter, check for a duplicate, create, mark. False means the message must not be committed.
    method Process(m: Message, freshId: Uuid, now: Stamp) returns (ok: bool)
      requires Running() && site.world.inbound.at < |site.world.inbound.log|
      requires site.world.inbound.log[site.world.inbound.at] == m
      requires site.world.inbound.reading == if Relevant(m) then Fetched else Committing
      modifies site, site.db, site.dedup
      ensures SameMessage()
      ensures site.world.inbound.reading == if ok then Committing else Stopped
      ensures ok && Relevant(m) && FirstsFresh(site.world.inbound.log) ==>
        HasRequest(site.world.core.db, m.requestId)
      ensures !Relevant(m) ==> ok && site.world == old(site.world) && site.script == old(site.script)
      ensures old(site.script) == [] ==>
        && site.script == []
        && site.world.core.db == Processed(old(site.world.core.db), old(site.world.inbound.marks), m, freshId, now)
        && site.world.inbound.log == old(site.world.inbound.log)
        && (freshId !in old(site.world.core.db.rows) ==> ok)
      ensures var db, db' := old(site.world.core.db), site.world.core.db;
        old(site.script) == [] ==>
          if m.Envelope? && m.eventType == "request.status_changed" && m.eventId != 0
             && m.eventId !in old(site.world.inbound.marks) && m.data == StatusChanged("appraisal")
             && !HasRequest(db, m.requestId) && freshId !in db.rows
          then db' == db.(rows := db.rows[freshId :=
                 Appraisal(freshId, m.requestId, None, InProgress, None, None, None, None, None, now, now)])
          else db' == db
    {
      if m.Malformed? {
        return true;
      }
      if m.eventType != EVENT_TYPE_STATUS_CHANGED {
        return true;
      }
      if m.eventId == NIL {
        return true;
      }
      if m.data.Unreadable? {
        return true;
      }
      if m.data.newStatus != STATUS_APPRAISAL {
        return true;
      }
      var fault := site.Yield(TheConsumer);
      var dup := false;
      if fault == NoFault {
        dup := site.dedup.Seen(m.eventId);
      }
      site.ActInbound(CheckDup(fault));
      if fault != NoFault {
        return false;
      }
      ok := true;
      if !dup {
        ok := CreateAndMark(m, freshId, now);
      }
      if ok {
        HandledWhenDone(m);
      }
    }

    /// One round on a message that is there: fetch, process, commit.
    method HandleNext(freshId: Uuid, now: Stamp) returns (ok: bool)
      requires Running() && site.world.inbound.reading == Waiting
      requires site.world.inbound.at == site.world.inbound.committed < |site.world.inbound.log|
      modifies site, site.db, site.dedup
      ensures Running() && old(site.trace) <= site.trace && old(site.world.inbound.log) <= site.world.inbound.log
      ensures old(site.world.inbound.committed) <= site.world.inbound.committed <= old(site.world.inbound.committed) + 1
      ensures ok ==>
        && site.world.inbound.reading == Waiting
        && site.world.inbound.at == site.world.inbound.committed == old(site.world.inbound.committed) + 1
      ensures old(site.script) == [] ==>
        && site.script == []
        && site.world.inbound.log == old(site.world.inbound.log)
        && site.world.core.db == Processed(old(site.world.core.db), old(site.world.inbound.marks),
                                           old(site.world.inbound.log[site.world.inbound.at]), freshId, now)
        && (freshId !in old(site.world.core.db.rows) ==> ok)
    {
      var m := site.world.inbound.log[site.world.inbound.at];
      site.ActInbound(Fetch);
      var handled := Process(m, freshId, now);
      if !handled {
        return false;
      }
      var fault := site.Yield(TheConsumer);
      site.ActInbound(Commit(fault));
      ok := fault == NoFault;
    }

    method RunLoop(rounds: nat, ids: seq<Uuid>, now: Stamp) returns (ok: bool)
      requires Running() && |ids| == rounds
      requires site.world.inbound.reading == Waiting && site.world.inbound.at == site.world.inbound.committed
      modifies site, site.db, site.dedup
      ensures Running() && old(site.trace) <= site.trace
      ensures old(site.world.inbound.committed) <= site.world.inbound.committed
      ensures site.world.inbound.committed <= old(site.world.inbound.committed) + rounds
      ensures ok ==>
        || site.world.inbound.committed == old(site.world.inbound.committed) + rounds
        || site.world.inbound.committed >= |old(site.world.inbound.log)|
      ensures old(site.script) == [] && Unused(ids, old(site.world.core.db)) ==> ok
    {
      for i := 0 to rounds
        invariant Running() && old(site.trace) <= site.trace
        invariant site.world.inbound.reading == Waiting && site.world.inbound.at == site.world.inbound.committed
        invariant site.world.inbound.committed == old(site.world.inbound.committed) + i
        invariant old(site.world.inbound.log) <= site.world.inbound.log
        invariant old(site.script) == [] ==> site.script == []
        invariant old(site.script) == [] && Unused(ids, old(site.world.core.db)) ==>
          Unused(ids[i..], site.world.core.db)
      {
        assert ids[i..][0] == ids[i] && ids[i..][1..] == ids[i + 1..];
        var fault := site.Yield(TheConsumer);
        if fault != NoFault {
          return false;
        }
        if site.world.inbound.at >= |site.world.inbound.log| {
          return true;
        }
        var handled := HandleNext(ids[i], now);
        if !handled {
          return false;
        }
      }
      ok := true;
    }

    /// Fetch, process and commit until `rounds` messages are committed, the log is exhausted, or a call fails.
    method Run(rounds: nat, ids: seq<Uuid>, now: Stamp) returns (ok: bool)
      requires Running() && |ids| == rounds
      requires site.world.inbound.reading == Waiting && site.world.inbound.at == site.world.inbound.committed
      modifies site, site.db, site.dedup
      ensures Running() && old(site.trace) <= site.trace
      ensures old(site.world.inbound.committed) <= site.world.inbound.committed
      ensures site.world.inbound.committed <= old(site.world.inbound.committed) + rounds
      ensures ok ==>
        || site.world.inbound.committed == old(site.world.inbound.committed) + rounds
        || site.world.inbound.committed >= |old(site.world.inbound.log)|
      ensures old(site.script) == [] && Unused(ids, old(site.world.core.db)) ==> ok
      ensures FirstsFresh(site.world.inbound.log) ==>
        forall i :: 0 <= i < site.world.inbound.committed && i < |site.world.inbound.log|
                    && Relevant(site.world.inbound.log[i]) ==>
          HasRequest(site.world.core.db, site.world.inbound.log[i].requestId)
    {
      ok := RunLoop(rounds, ids, now);
      if FirstsFresh(site.world.inbound.log) {
        ConsumerSafety(site.trace);
      }
    }

  }

  class OutboxRelay {
    const site: Site

    constructor (site: Site)
      ensures this.site == site
    {
      this.site := site;
    }

    ghost predicate Running()
      reads site, site.db, site.dedup
    {
      site.Valid() && ForeignScript(site.script, TheRelay) && Idle(site.world)
    }

    /// Mark a row that was just published.
    method MarkRow(row: OutMessage, ghost rest: seq<OutMessage>) returns (ok: bool)
      requires site.Valid() && ForeignScript(site.script, TheRelay)
      requires site.world.relay.batch == [row] + rest && site.world.relay.sent
      modifies site, site.db, site.dedup
      ensures site.Valid() && ForeignScript(site.script, TheRelay) && old(site.trace) <= site.trace
      ensures site.world.relay == Relay(if ok then rest else [], false, old(site.world.relay.log))
      ensures old(NoFaults(site.script)) ==> ok && NoFaults(site.script)
      ensures old(site.script) == [] ==>
        ok && site.script == [] && site.world.core.db == DbMarkPublished(old(site.world.core.db), row.outboxId)
    {
      var fault := site.Yield(TheRelay);
      if fault != Lost {
        site.db.MarkPublished(row.outboxId);
      }
      site.ActRelay(MarkSent(fault));
      ok := fault == NoFault;
    }

    /// Publish one row, then mark it; false stops the batch.
    method PublishRow(row: OutMessage, ghost rest: seq<OutMessage>) returns (ok: bool)
      requires site.Valid() && ForeignScript(site.script, TheRelay)
      requires site.world.relay.batch == [row] + rest && !site.world.relay.sent
      modifies site, site.db, site.dedup
      ensures site.Valid() && ForeignScript(site.script, TheRelay) && old(site.trace) <= site.trace
      ensures ok ==> site.world.relay == Relay(rest, false, old(site.world.relay.log) + [row])
      ensures !ok ==> Idle(site.world)
      ensures !ok ==>
        (site.world.relay.log == old(site.world.relay.log) || site.world.relay.log == old(site.world.relay.log) + [row])
      ensures old(NoFaults(site.script)) ==> ok && NoFaults(site.script)
      ensures old(site.script) == [] ==>
        ok && site.script == [] && site.world.core.db == DbMarkPublished(old(site.world.core.db), row.outboxId)
    {
      var fault := site.Yield(TheRelay);
      site.ActRelay(Publish(fault));
      if fault != NoFault {
        return false;
      }
      ok := MarkRow(row, rest);
    }

    lemma OneMoreSent(log: seq<OutMessage>, batch: seq<OutMessage>, i: nat)
      requires i < |batch|
      ensures log + batch[..i + 1] == log + batch[..i] + [batch[i]]
      ensures log + batch[..i] <= log + batch && log + batch[..i + 1] <= log + batch
    {
      assert batch[..i + 1] == batch[..i] + [batch[i]];
      assert batch == batch[..i] + batch[i..] && batch == batch[..i + 1] + batch[i + 1..];
    }

    /// The publishing loop over the batch in hand.
    method PublishRows(batch: seq<OutMessage>) returns (ok: bool)
      requires site.Valid() && ForeignScript(site.script, TheRelay)
      requires site.world.relay.batch == batch && !site.world.relay.sent
      modifies site, site.db, site.dedup
      ensures Running() && old(site.trace) <= site.trace
      ensures old(site.world.relay.log) <= site.world.relay.log <= old(site.world.relay.log) + batch
      ensures ok ==> site.world.relay.log == old(site.world.relay.log) + batch
      ensures old(NoFaults(site.script)) ==> ok && NoFaults(site.script)
      ensures old(site.script) == [] ==>
        site.script == [] && Backlog(site.world.core.db) == Backlog(old(site.world.core.db)) - IdSet(batch)
    {
      ghost var all := Backlog(site.world.core.db);
      ghost var log := site.world.relay.log;
      var i := 0;
      while i < |batch|
        invariant 0 <= i <= |batch|
        invariant site.Valid() && ForeignScript(site.script, TheRelay) && old(site.trace) <= site.trace
        invariant site.world.relay == Relay(batch[i..], false, log + batch[..i])
        invariant old(NoFaults(site.script)) ==> NoFaults(site.script)
        invariant old(site.script) == [] ==> site.script == []
        invariant old(site.script) == [] ==> Backlog(site.world.core.db) == all - IdSet(batch[..i])
      {
        ghost var db := site.world.core.db;
        var sent := PublishRow(batch[i], batch[i + 1..]);
        OneMoreSent(log, batch, i);
        if !sent {
          return false;
        }
        if old(site.script) == [] {
          MarkNext(db, all, batch, i);
        }
        i := i + 1;
      }
      assert batch[..i] == batch;
      ok := true;
    }

    /// One tick: read a batch, publish it in id order, mark each row after its publish, stop at the first error.
    /// What reaches the topic is a prefix of the batch that was read, `polled` the run up to that read.
    method PublishBatch() returns (ok: bool, ghost batch: seq<OutMessage>, ghost polled: seq<Label>)
      requires Running()
      modifies site, site.db, site.dedup
      ensures Running() && old(site.trace) <= site.trace
      ensures old(site.trace) <= polled <= site.trace
      ensures batch != [] ==> IsBatch(Machine.Run(INITIAL, polled).core.db, batch)
      ensures old(site.world.relay.log) <= site.world.relay.log <= old(site.world.relay.log) + batch
      ensures ok ==> site.world.relay.log == old(site.world.relay.log) + batch
      ensures old(NoFaults(site.script)) ==> ok && NoFaults(site.script)
      ensures old(site.script) == [] ==>
        && site.script == []
        && IsBatch(old(site.world.core.db), batch)
        && Backlog(site.world.core.db) == Backlog(old(site.world.core.db)) - IdSet(batch)
    {
      batch := [];
      var fault := site.Yield(TheRelay);
      polled := site.trace;
      if fault != NoFault {
        return false, [], polled;
      }
      var rows := site.db.SelectBatch();
      batch := rows;
      site.ActRelay(Poll(rows));
      ok := PublishRows(rows);
    }

    /// k ticks; an error is logged and the next tick tries again.
    method Run(ticks: nat)
      requires Running()
      modifies site, site.db, site.dedup
      ensures Running() && old(site.trace) <= site.trace
      ensures old(site.world.relay.log) <= site.world.relay.log
      ensures old(site.script) == [] ==>
        |Backlog(site.world.core.db)| == Left(|Backlog(old(site.world.core.db))|, ticks)
    {
      ghost var all := |Backlog(site.world.core.db)|;
      for k := 0 to ticks
        invariant Running() && old(site.trace) <= site.trace
        invariant old(site.world.relay.log) <= site.world.relay.log
        invariant old(site.script) == [] ==> site.script == []
        invariant old(site.script) == [] ==>
          |Backlog(site.world.core.db)| == Left(all, k)
      {
        ghost var before := site.world.core.db;
        var _, batch, _ := PublishBatch();
        if old(site.script) == [] {
          BatchTakes(before, batch);
          IdSetSize(batch);
          SubsetSize(IdSet(batch), Backlog(before));
        }
      }
    }
  }
}
