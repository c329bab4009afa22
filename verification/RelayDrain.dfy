/// How fast undisturbed ticks of the relay work off a backlog.

module RelayDrain {
  import opened Domain
  import opened Tables
  import opened Machine

  function Backlog(db: Db): set<nat> {
    set k | k in db.outbox && !db.outbox[k].published
  }

  function IdSet(batch: seq<OutMessage>): set<nat> {
    set x | x in batch :: x.outboxId
  }

  lemma MarkNext(db: Db, all: set<nat>, batch: seq<OutMessage>, i: nat)
    requires i < |batch| && Backlog(db) == all - IdSet(batch[..i])
    ensures Backlog(DbMarkPublished(db, batch[i].outboxId)) == all - IdSet(batch[..i + 1])
  {
    assert batch[..i + 1] == batch[..i] + [batch[i]];
    assert IdSet(batch[..i + 1]) == IdSet(batch[..i]) + {batch[i].outboxId};
    assert Backlog(DbMarkPublished(db, batch[i].outboxId)) == Backlog(db) - {batch[i].outboxId};
  }

  function MarkAll(db: Db, batch: seq<OutMessage>): Db
    decreases |batch|
  {
    if batch == [] then db else MarkAll(DbMarkPublished(db, batch[0].outboxId), batch[1..])
  }

  lemma {:induction false} MarkAllBacklog(db: Db, batch: seq<OutMessage>)
    ensures Backlog(MarkAll(db, batch)) == Backlog(db) - IdSet(batch)
    ensures MarkAll(db, batch).outbox.Keys == db.outbox.Keys
    decreases |batch|
  {
    if batch != [] {
      MarkAllBacklog(DbMarkPublished(db, batch[0].outboxId), batch[1..]);
      assert IdSet(batch) == {batch[0].outboxId} + IdSet(batch[1..]);
    }
  }

  lemma {:induction false} IdSetSize(batch: seq<OutMessage>)
    requires forall i, j :: 0 <= i < j < |batch| ==> batch[i].outboxId < batch[j].outboxId
    ensures |IdSet(batch)| == |batch|
  {
    if batch != [] {
      var n := |batch| - 1;
      IdSetSize(batch[..n]);
      assert IdSet(batch) == IdSet(batch[..n]) + {batch[n].outboxId};
    }
  }

  lemma SubsetSize(a: set<nat>, b: set<nat>)
    requires a <= b
    ensures |a| <= |b| && |b - a| == |b| - |a|
  {
    assert b == a + (b - a);
  }

  /// A poll takes the whole backlog, or the hundred oldest of it.
  lemma BatchTakes(db: Db, batch: seq<OutMessage>)
    requires IsBatch(db, batch)
    ensures IdSet(batch) <= Backlog(db)
    ensures |batch| == if |Backlog(db)| <= 100 then |Backlog(db)| else 100
  {
    IdSetSize(batch);
    var taken, all := IdSet(batch), Backlog(db);
    SubsetSize(taken, all);
    if |batch| < BATCH_SIZE {
      forall k | k in all ensures k in taken {
        assert Unpublished(db, k);
      }
      assert taken == all;
    }
  }

  /// The relay's statements for n rows when nothing fails.
  function PublishAll(n: nat): seq<Label> {
    if n == 0 then [] else [Forward(Publish(NoFault)), Forward(MarkSent(NoFault))] + PublishAll(n - 1)
  }

  /// One undisturbed tick of the relay.
  function Tick(batch: seq<OutMessage>): seq<Label> {
    [Forward(Poll(batch))] + PublishAll(|batch|)
  }

  predicate Idle(w: World) {
    w.relay.batch == [] && !w.relay.sent
  }

  lemma RunTwo(w: World, a: Label, b: Label, rest: seq<Label>)
    ensures Run(w, [a, b] + rest) == Run(Step(Step(w, a), b), rest)
  {
    assert [a, b] == [a] + [b];
    RunConcat(true, w, [a], [b]);
    RunOne(true, w, a);
    RunOne(true, Step(w, a), b);
    RunConcat(true, w, [a, b], rest);
  }

  /// Publishing and marking the first row of the batch.
  lemma PublishFirst(w: World)
    requires !w.relay.sent && w.relay.batch != []
    ensures var batch := w.relay.batch;
      Step(Step(w, Forward(Publish(NoFault))), Forward(MarkSent(NoFault))) ==
        w.(core := w.core.(db := DbMarkPublished(w.core.db, batch[0].outboxId)),
           relay := Relay(batch[1..], false, w.relay.log + [batch[0]]))
  {
  }

  lemma {:induction false} PublishAllRuns(w: World)
    requires !w.relay.sent
    ensures var w' := Run(w, PublishAll(|w.relay.batch|));
      && Idle(w')
      && w'.relay.log == w.relay.log + w.relay.batch
      && w'.core == w.core.(db := MarkAll(w.core.db, w.relay.batch))
      && w'.sessions == w.sessions && w'.inbound == w.inbound
    decreases |w.relay.batch|
  {
    var batch := w.relay.batch;
    if batch != [] {
      var v := Step(Step(w, Forward(Publish(NoFault))), Forward(MarkSent(NoFault)));
      PublishFirst(w);
      PublishAllRuns(v);
      RunTwo(w, Forward(Publish(NoFault)), Forward(MarkSent(NoFault)), PublishAll(|batch| - 1));
      assert batch == [batch[0]] + batch[1..];
      assert w.relay.log + batch == (w.relay.log + [batch[0]]) + batch[1..];
    }
  }

  /// What k full batches leave of u rows.
  function Left(u: nat, k: nat): nat {
    if u <= 100 * k then 0 else u - 100 * k
  }

  /// A tick publishes its batch in order and marks it; the backlog shrinks by a hundred or vanishes.
  lemma TickRuns(w: World, batch: seq<OutMessage>)
    requires Idle(w) && IsBatch(w.core.db, batch)
    ensures var w' := Run(w, Tick(batch));
      && Idle(w')
      && w'.relay.log == w.relay.log + batch
      && Backlog(w'.core.db) == Backlog(w.core.db) - IdSet(batch)
      && |Backlog(w'.core.db)| == Left(|Backlog(w.core.db)|, 1)
  {
    var v := Step(w, Forward(Poll(batch)));
    RunConcat(true, w, [Forward(Poll(batch))], PublishAll(|batch|));
    RunOne(true, w, Forward(Poll(batch)));
    PublishAllRuns(v);
    MarkAllBacklog(w.core.db, batch);
    BatchTakes(w.core.db, batch);
    IdSetSize(batch);
    SubsetSize(IdSet(batch), Backlog(w.core.db));
  }

  /// k undisturbed ticks in a row, each publishing what its poll returned.
  ghost predicate Ticks(w: World, batches: seq<seq<OutMessage>>)
    decreases |batches|
  {
    batches == [] || (IsBatch(w.core.db, batches[0]) && Ticks(Run(w, Tick(batches[0])), batches[1..]))
  }

  function TickLabels(batches: seq<seq<OutMessage>>): seq<Label> {
    if batches == [] then [] else Tick(batches[0]) + TickLabels(batches[1..])
  }

  lemma LeftAgain(u: nat, k: nat)
    requires k > 0
    ensures Left(u, k) == Left(Left(u, 1), k - 1)
  {
  }

  /// With U unpublished rows, no errors and no new rows, k ticks leave max(0, U - 100 k).
  lemma {:induction false} Drain(w: World, batches: seq<seq<OutMessage>>)
    requires Idle(w) && Ticks(w, batches)
    ensures |Backlog(Run(w, TickLabels(batches)).core.db)| == Left(|Backlog(w.core.db)|, |batches|)
    decreases |batches|
  {
    if batches != [] {
      TickRuns(w, batches[0]);
      LeftAgain(|Backlog(w.core.db)|, |batches|);
      Drain(Run(w, Tick(batches[0])), batches[1..]);
      RunConcat(true, w, Tick(batches[0]), TickLabels(batches[1..]));
    }
  }

  /// So ceil(U / 100) ticks publish everything, and no fewer do.
  lemma DrainTime(w: World, batches: seq<seq<OutMessage>>)
    requires Idle(w) && Ticks(w, batches)
    ensures Backlog(Run(w, TickLabels(batches)).core.db) == {} <==>
      |batches| >= (|Backlog(w.core.db)| + 99) / 100
  {
    Drain(w, batches);
  }
}
