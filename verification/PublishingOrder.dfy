/// The order in which the relay publishes: exactly when the topic follows the outbox ids.

module PublishingOrder {
  import opened Domain
  import opened Tables
  import opened Machine
  import opened CoreInvariant
  import opened SessionInvariant
  import opened OutboundSafety

  predicate Increasing(ids: seq<nat>) {
    forall i, j :: 0 <= i < j < |ids| ==> ids[i] < ids[j]
  }

  function IdsOf(messages: seq<OutMessage>): seq<nat> {
    seq(|messages|, i requires 0 <= i < |messages| => messages[i].outboxId)
  }

  // ---------- Adjacent repeats ----------

  /// The sequence with adjacent repeats removed.
  function Compress(s: seq<nat>): seq<nat> {
    if |s| <= 1 then s
    else if s[|s| - 1] == s[|s| - 2] then Compress(s[..|s| - 1])
    else Compress(s[..|s| - 1]) + [s[|s| - 1]]
  }

  lemma {:induction false} CompressLast(s: seq<nat>)
    requires s != []
    ensures Compress(s) != [] && Compress(s)[|Compress(s)| - 1] == s[|s| - 1]
  {
    if |s| > 1 && s[|s| - 1] == s[|s| - 2] {
      CompressLast(s[..|s| - 1]);
    }
  }

  lemma CompressSnoc(s: seq<nat>, x: nat)
    ensures Compress(s + [x]) == if s != [] && s[|s| - 1] == x then Compress(s) else Compress(s) + [x]
  {
    assert (s + [x])[..|s + [x]| - 1] == s;
    if s == [] {
      assert s + [x] == [x];
    }
  }

  lemma {:induction false} CompressElements(s: seq<nat>)
    ensures forall x :: x in Compress(s) <==> x in s
  {
    if |s| > 1 {
      CompressElements(s[..|s| - 1]);
      assert s == s[..|s| - 1] + [s[|s| - 1]];
    }
  }

  /// If the topic without repeats increases, the topic never goes back.
  lemma {:induction false} NeverBack(s: seq<nat>, p: nat, q: nat)
    requires Increasing(Compress(s)) && p < q < |s|
    ensures s[p] <= s[q]
  {
    var front := s[..|s| - 1];
    assert s == front + [s[|s| - 1]];
    CompressSnoc(front, s[|s| - 1]);
    assert Compress(front) <= Compress(s);
    CompressLast(front);
    assert s[|s| - 2] <= s[|s| - 1] by {
      if s[|s| - 2] != s[|s| - 1] {
        var c := Compress(s);
        assert c == Compress(front) + [s[|s| - 1]];
        assert c[|c| - 2] < c[|c| - 1];
      }
    }
    if q < |s| - 1 {
      NeverBack(front, p, q);
    } else if p < |s| - 2 {
      NeverBack(front, p, |s| - 2);
    }
  }

  // ---------- The topic and the outbox ----------

  /// The outbox ids from smallest to largest.
  ghost predicate ById(db: Db, ids: seq<nat>) {
    Increasing(ids) && forall k :: k in ids <==> k in db.outbox
  }

  /// The published ids increase, and no id is missing below one of them.
  ghost predicate InOrder(db: Db, log: seq<OutMessage>) {
    && Increasing(Compress(IdsOf(log)))
    && (forall k, x :: k in db.outbox && x in IdsOf(log) && k < x ==> k in IdsOf(log))
  }

  lemma Rises(ids: seq<nat>, i: nat, j: nat)
    requires Increasing(ids) && i < |ids| && j < |ids|
    ensures ids[i] < ids[j] <==> i < j
  {
    if j < i {
      assert ids[j] < ids[i];
    }
  }

  lemma {:induction false} AgreesUpTo(sent: seq<nat>, ids: seq<nat>, n: nat)
    requires Increasing(ids) && Increasing(sent) && n <= |sent|
    requires forall x :: x in sent ==> x in ids
    requires forall k, x :: k in ids && x in sent && k < x ==> k in sent
    ensures n <= |ids| && forall i :: 0 <= i < n ==> sent[i] == ids[i]
  {
    if n > 0 {
      AgreesUpTo(sent, ids, n - 1);
      var x := sent[n - 1];
      assert x in sent;
      var p :| 0 <= p < |ids| && ids[p] == x;
      assert p >= n - 1;
      Rises(ids, n - 1, p);
      assert ids[n - 1] in ids;
      if ids[n - 1] in sent {
        var q :| 0 <= q < |sent| && sent[q] == ids[n - 1];
        assert q >= n - 1;
        Rises(sent, n - 1, q);
      }
    }
  }

  /// The topic without repeats is a prefix of the outbox in id order if and only if it is in order.
  lemma PrefixIff(db: Db, log: seq<OutMessage>, ids: seq<nat>)
    requires ById(db, ids) && FromOutbox(db, log)
    ensures Compress(IdsOf(log)) <= ids <==> InOrder(db, log)
  {
    var sent := Compress(IdsOf(log));
    CompressElements(IdsOf(log));
    if InOrder(db, log) {
      AgreesUpTo(sent, ids, |sent|);
    }
    if sent <= ids {
      forall k, x | k in db.outbox && x in sent && k < x ensures k in sent {
        var p :| 0 <= p < |sent| && sent[p] == x;
        var q :| 0 <= q < |ids| && ids[q] == k;
      }
    }
  }

  // ---------- Becoming visible in time ----------

  predicate PollsIn(w: World, l: Label) {
    l.Forward? && l.rel.Poll? && Enabled(w, l)
  }

  /// How many outbox rows were visible at the last poll.
  ghost function Polled(schedule: seq<Label>): nat {
    if schedule == [] then 0
    else
      var before, l := schedule[..|schedule| - 1], schedule[|schedule| - 1];
      if PollsIn(Run(INITIAL, before), l) then |Run(INITIAL, before).core.visible| else Polled(before)
  }

  ghost predicate VisibleInTime(w: World, w': World) {
    forall i, x :: |w.core.visible| <= i < |w'.core.visible| && x in IdsOf(w.relay.log) ==> x < w'.core.visible[i]
  }

  ghost predicate PublishedInTime(w: World, w': World, polled: nat) {
    forall i, p :: polled <= i < |w.core.visible| && |w.relay.log| <= p < |w'.relay.log| ==>
      w'.relay.log[p].outboxId < w.core.visible[i]
  }

  /// An id that becomes visible exceeds all that were published, and nothing is published above an id that
  /// became visible after the poll.
  ghost predicate InTimeStep(w: World, l: Label, polled: nat) {
    VisibleInTime(w, Step(w, l)) && PublishedInTime(w, Step(w, l), polled)
  }

  ghost predicate InTime(schedule: seq<Label>) {
    schedule == [] ||
    var before, l := schedule[..|schedule| - 1], schedule[|schedule| - 1];
    InTime(before) && InTimeStep(Run(INITIAL, before), l, Polled(before))
  }

  // ---------- What the relay holds, in any order ----------

  ghost predicate SeenIds(seen: seq<nat>, r: Relay) {
    && (forall x :: x in IdsOf(r.log) ==> x in seen)
    && (forall b :: b in IdsOf(r.batch) ==> b in seen)
  }

  ghost predicate MarkedLogged(db: Db, log: seq<OutMessage>) {
    forall k :: k in db.outbox && db.outbox[k].published ==> k in IdsOf(log)
  }

  ghost predicate BatchFirst(db: Db, seen: seq<nat>, batch: seq<nat>) {
    forall k, b :: k in seen && Unpublished(db, k) && b in batch ==> k in batch || b < k
  }

  /// Everything published and everything in hand was visible at the last poll, what is in hand is not marked,
  /// what is marked was published, and what else is not marked from the last poll exceeds what is in hand.
  ghost predicate Held(core: Core, r: Relay, polled: nat) {
    && polled <= |core.visible|
    && SeenIds(core.visible[..polled], r)
    && (forall b :: b in IdsOf(r.batch) ==> Unpublished(core.db, b))
    && Increasing(IdsOf(r.batch))
    && (r.sent ==> r.batch != [] && r.log != [] && r.log[|r.log| - 1].outboxId == r.batch[0].outboxId)
    && MarkedLogged(core.db, r.log)
    && BatchFirst(core.db, core.visible[..polled], IdsOf(r.batch))
  }

  /// Of the published ids at most the last is not marked.
  ghost predicate AllButLastMarked(db: Db, log: seq<OutMessage>) {
    forall x :: x in IdsOf(log) && Unpublished(db, x) ==> log != [] && x == log[|log| - 1].outboxId
  }

  lemma LogSnoc(log: seq<OutMessage>, x: OutMessage)
    ensures IdsOf(log + [x]) == IdsOf(log) + [x.outboxId]
  {
  }

  lemma InBatchOrAbove(db: Db, batch: seq<OutMessage>, k: nat, b: nat)
    requires IsBatch(db, batch) && Unpublished(db, k) && b in IdsOf(batch)
    ensures k in IdsOf(batch) || b < k
  {
    var j :| 0 <= j < |batch| && batch[j].outboxId == b;
    if exists i :: 0 <= i < |batch| && batch[i].outboxId == k {
      var i :| 0 <= i < |batch| && batch[i].outboxId == k;
      assert IdsOf(batch)[i] == k;
    } else {
      assert batch[|batch| - 1].outboxId < k;
      assert j < |batch| - 1 ==> batch[j].outboxId < batch[|batch| - 1].outboxId;
    }
  }

  lemma HeldPoll(core: Core, r: Relay, polled: nat, batch: seq<OutMessage>)
    requires VisibleOk(core) && Held(core, r, polled) && IsBatch(core.db, batch)
    ensures Held(core, NextRelay(r, Poll(batch)), |core.visible|)
  {
    assert core.visible[..|core.visible|] == core.visible;
    forall k, b | k in core.visible && Unpublished(core.db, k) && b in IdsOf(batch) ensures k in IdsOf(batch) || b < k {
      InBatchOrAbove(core.db, batch, k, b);
    }
    forall b | b in IdsOf(batch) ensures Unpublished(core.db, b) {
      var j :| 0 <= j < |batch| && batch[j].outboxId == b;
    }
  }

  lemma HeldPublish(core: Core, r: Relay, polled: nat, fault: Fault)
    requires Held(core, r, polled)
    ensures Held(core, NextRelay(r, Publish(fault)), polled)
  {
    if r.batch != [] {
      LogSnoc(r.log, r.batch[0]);
      assert IdsOf(r.batch)[0] in IdsOf(r.batch);
    }
  }

  lemma MarkKeeps(db: Db, seen: seq<nat>, log: seq<OutMessage>, ids: seq<nat>, k: nat)
    requires ids != [] && ids[0] == k && k !in ids[1..] && k in IdsOf(log) && k in db.outbox
    requires MarkedLogged(db, log) && BatchFirst(db, seen, ids) && forall b :: b in ids ==> Unpublished(db, b)
    ensures var db' := DbMarkPublished(db, k);
      && MarkedLogged(db', log) && BatchFirst(db', seen, ids[1..])
      && (forall b :: b in ids[1..] ==> Unpublished(db', b))
      && (forall other :: Unpublished(db', other) ==> Unpublished(db, other))
  {
    assert forall b :: b in ids <==> b == k || b in ids[1..] by {
      assert ids == [k] + ids[1..];
    }
  }

  lemma HeldMark(core: Core, r: Relay, polled: nat, fault: Fault)
    requires VisibleOk(core) && Held(core, r, polled)
    ensures Held(Apply(core, RelayChange(r, MarkSent(fault))), NextRelay(r, MarkSent(fault)), polled)
  {
    if r.batch != [] && r.sent {
      var k := r.batch[0].outboxId;
      var ids := IdsOf(r.batch);
      assert IdsOf(r.log)[|r.log| - 1] == k;
      assert ids[0] == k;
      assert IdsOf(r.batch[1..]) == ids[1..];
      assert k !in ids[1..];
      assert ids == [k] + ids[1..];
      MarkKeeps(core.db, core.visible[..polled], r.log, ids, k);
    }
  }

  lemma OutboxWatches(core: Core, ch: Change)
    requires VisibleOk(core) && !ch.MarkPublished?
    ensures var db, db' := core.db, Apply(core, ch).db;
      && (forall k :: k in core.visible ==> k in db'.outbox && db'.outbox[k].published == db.outbox[k].published)
      && (forall k :: k in db'.outbox && k !in db.outbox ==> !db'.outbox[k].published)
  {
  }

  /// Changes that others make.
  lemma HeldWatches(core: Core, ch: Change, r: Relay, polled: nat)
    requires VisibleOk(core) && Held(core, r, polled) && !ch.MarkPublished?
    ensures Held(Apply(core, ch), r, polled)
  {
    var core' := Apply(core, ch);
    assert core'.visible[..polled] == core.visible[..polled];
    OutboxWatches(core, ch);
  }

  lemma HeldStep(w: World, l: Label, polled: nat)
    requires VisibleOk(w.core) && Held(w.core, w.relay, polled)
    ensures Held(Step(w, l).core, Step(w, l).relay, if PollsIn(w, l) then |w.core.visible| else polled)
  {
    if Enabled(w, l) {
      if !l.Forward? {
        HeldWatches(w.core, ChangeOf(w, l), w.relay, polled);
      } else {
        match l.rel
        case Poll(batch) => HeldPoll(w.core, w.relay, polled, batch);
        case Publish(fault) => HeldPublish(w.core, w.relay, polled, fault);
        case MarkSent(fault) => HeldMark(w.core, w.relay, polled, fault);
        case RelayCrash =>
      }
    }
  }

  // ---------- In time, in order ----------

  lemma NotBelowFirst(ids: seq<nat>, k: nat)
    requires Increasing(ids) && ids != [] && k < ids[0]
    ensures k !in ids
  {
    forall j | 0 <= j < |ids| ensures ids[j] >= ids[0] {
      Rises(ids, j, 0);
    }
  }

  /// Below the first row in hand everything was published, if nothing smaller became visible since the poll.
  lemma BelowFirst(core: Core, r: Relay, polled: nat, k: nat)
    requires VisibleOk(core) && Held(core, r, polled) && r.batch != []
    requires forall i :: polled <= i < |core.visible| ==> r.batch[0].outboxId < core.visible[i]
    requires k in core.db.outbox && k < r.batch[0].outboxId
    ensures k in IdsOf(r.log)
  {
    var i :| 0 <= i < |core.visible| && core.visible[i] == k;
    assert core.visible[..polled][i] == k;
    var ids := IdsOf(r.batch);
    assert ids[0] in ids;
    NotBelowFirst(ids, k);
  }

  /// A row that was published but not marked is the first in hand.
  lemma UnmarkedIsFirst(core: Core, r: Relay, polled: nat, y: nat)
    requires Held(core, r, polled) && r.batch != [] && r.batch[0].outboxId in core.db.outbox
    requires InOrder(core.db, r.log) && AllButLastMarked(core.db, r.log)
    requires y in IdsOf(r.log) && Unpublished(core.db, y)
    ensures y == r.batch[0].outboxId
  {
    var ids := IdsOf(r.batch);
    var x := r.batch[0].outboxId;
    assert ids[0] == x && x in ids;
    if y in ids {
      var j :| 0 <= j < |ids| && ids[j] == y;
      Rises(ids, 0, j);
    }
    assert x <= y;
    assert x < y ==> x in IdsOf(r.log);
  }

  lemma InOrderSnoc(db: Db, log: seq<OutMessage>, x: OutMessage)
    requires InOrder(db, log) && x.outboxId in db.outbox
    requires forall k :: k in db.outbox && k < x.outboxId ==> k in IdsOf(log)
    requires x.outboxId in IdsOf(log) ==> log[|log| - 1].outboxId == x.outboxId
    ensures InOrder(db, log + [x])
  {
    var ids, k := IdsOf(log), x.outboxId;
    LogSnoc(log, x);
    CompressSnoc(ids, k);
    CompressElements(ids);
    if k !in ids {
      forall y | y in ids ensures y < k {
        assert k < y ==> k in ids;
      }
      var sent := Compress(ids);
      assert forall i :: 0 <= i < |sent| ==> sent[i] in sent;
      assert ids == [] || ids[|ids| - 1] in ids;
      assert Compress(ids + [k]) == sent + [k];
    }
  }

  lemma PublishInOrder(core: Core, r: Relay, polled: nat)
    requires VisibleOk(core) && Held(core, r, polled) && r.batch != [] && r.batch[0].outboxId in core.db.outbox
    requires InOrder(core.db, r.log) && AllButLastMarked(core.db, r.log)
    requires forall i :: polled <= i < |core.visible| ==> r.batch[0].outboxId < core.visible[i]
    ensures InOrder(core.db, r.log + [r.batch[0]]) && AllButLastMarked(core.db, r.log + [r.batch[0]])
  {
    var x := r.batch[0];
    assert IdsOf(r.batch)[0] in IdsOf(r.batch);
    forall k | k in core.db.outbox && k < x.outboxId ensures k in IdsOf(r.log) {
      BelowFirst(core, r, polled, k);
    }
    InOrderSnoc(core.db, r.log, x);
    LogSnoc(r.log, x);
    forall y | y in IdsOf(r.log) && Unpublished(core.db, y) ensures y == x.outboxId {
      UnmarkedIsFirst(core, r, polled, y);
    }
  }

  lemma ChangeShapes(core: Core, ch: Change)
    requires VisibleOk(core)
    ensures var core' := Apply(core, ch);
      && core.visible <= core'.visible && |core'.visible| <= |core.visible| + 1
      && (forall k :: k in core'.db.outbox <==> k in core'.visible)
      && (forall k :: k in core.visible && Unpublished(core'.db, k) ==> Unpublished(core.db, k))
  {
  }

  /// What happens to the outbox ids and to the topic in one step.
  lemma StepShapes(w: World, l: Label)
    requires VisibleOk(w.core)
    ensures var w' := Step(w, l);
      && w.core.visible <= w'.core.visible && |w'.core.visible| <= |w.core.visible| + 1
      && w.relay.log <= w'.relay.log
      && (w'.relay.log == w.relay.log
          || (&& w.relay.batch != [] && !w.relay.sent
              && w'.relay.log == w.relay.log + [w.relay.batch[0]] && w'.core == w.core))
      && (forall k :: k in w'.core.db.outbox <==> k in w'.core.visible)
      && (forall k :: k in w.core.visible && Unpublished(w'.core.db, k) ==> Unpublished(w.core.db, k))
  {
    if Enabled(w, l) {
      ChangeShapes(w.core, ChangeOf(w, l));
    }
  }

  lemma OldBelow(visible: seq<nat>, visible': seq<nat>, k: nat)
    requires visible <= visible' && k in visible'
    ensures k in visible || exists i :: |visible| <= i < |visible'| && visible'[i] == k
  {
    var i :| 0 <= i < |visible'| && visible'[i] == k;
    assert i < |visible| ==> visible[i] == k;
  }

  lemma RowsStayInOrder(core: Core, core': Core, log: seq<OutMessage>, polled: nat)
    requires VisibleOk(core) && InOrder(core.db, log) && AllButLastMarked(core.db, log)
    requires polled <= |core.visible| && forall x :: x in IdsOf(log) ==> x in core.visible[..polled]
    requires core.visible <= core'.visible && forall k :: k in core'.db.outbox <==> k in core'.visible
    requires forall k :: k in core.visible && Unpublished(core'.db, k) ==> Unpublished(core.db, k)
    requires forall i, x :: |core.visible| <= i < |core'.visible| && x in IdsOf(log) ==> x < core'.visible[i]
    ensures InOrder(core'.db, log) && AllButLastMarked(core'.db, log)
  {
    forall k, x | k in core'.db.outbox && x in IdsOf(log) && k < x ensures k in IdsOf(log) {
      OldBelow(core.visible, core'.visible, k);
    }
    forall x | x in IdsOf(log) && Unpublished(core'.db, x) ensures log != [] && x == log[|log| - 1].outboxId {
      assert x in core.visible[..polled];
    }
  }

  lemma StaysInOrder(w: World, l: Label, polled: nat)
    requires VisibleOk(w.core) && Held(w.core, w.relay, polled) && FromOutbox(w.core.db, w.relay.batch)
    requires InOrder(w.core.db, w.relay.log) && AllButLastMarked(w.core.db, w.relay.log) && InTimeStep(w, l, polled)
    ensures var w' := Step(w, l); InOrder(w'.core.db, w'.relay.log) && AllButLastMarked(w'.core.db, w'.relay.log)
  {
    var w' := Step(w, l);
    StepShapes(w, l);
    var log, log' := w.relay.log, w'.relay.log;
    if log' != log {
      assert log'[|log|] == w.relay.batch[0];
      PublishInOrder(w.core, w.relay, polled);
    } else {
      RowsStayInOrder(w.core, w'.core, log, polled);
    }
  }

  lemma LateMissing(core: Core, core': Core, r: Relay, polled: nat, i: nat)
    requires Held(core, r, polled) && core.visible <= core'.visible && |core.visible| <= i < |core'.visible|
    requires VisibleOk(core')
    ensures core'.visible[i] !in IdsOf(r.log) && core'.visible[i] in core'.db.outbox
  {
    forall x | x in IdsOf(r.log) ensures x != core'.visible[i] {
      var j :| 0 <= j < polled && core.visible[j] == x;
      assert core'.visible[j] == x;
    }
    assert core'.visible[i] in core'.visible;
  }

  lemma VisibleTooLate(w: World, w': World, polled: nat, i: nat, x: nat)
    requires Held(w.core, w.relay, polled) && VisibleOk(w'.core) && w.core.visible <= w'.core.visible
    requires w.relay.log <= w'.relay.log
    requires w'.relay.log == w.relay.log || w'.core == w.core
    requires |w.core.visible| <= i < |w'.core.visible| && x in IdsOf(w.relay.log) && x >= w'.core.visible[i]
    ensures !InOrder(w'.core.db, w'.relay.log)
  {
    LateMissing(w.core, w'.core, w.relay, polled, i);
  }

  lemma UnseenMissing(core: Core, r: Relay, polled: nat, i: nat)
    requires VisibleOk(core) && Held(core, r, polled) && polled <= i < |core.visible|
    ensures core.visible[i] !in IdsOf(r.log) && core.visible[i] !in IdsOf(r.batch) && core.visible[i] in core.db.outbox
  {
    forall x | x in core.visible[..polled] ensures x != core.visible[i] {
      var j :| 0 <= j < polled && core.visible[j] == x;
    }
    assert core.visible[i] in core.visible;
  }

  lemma PublishedTooEarly(w: World, w': World, polled: nat, i: nat)
    requires VisibleOk(w.core) && Held(w.core, w.relay, polled) && polled <= i < |w.core.visible|
    requires w.relay.batch != [] && w'.relay.log == w.relay.log + [w.relay.batch[0]] && w'.core == w.core
    requires w.relay.batch[0].outboxId >= w.core.visible[i]
    ensures !InOrder(w'.core.db, w'.relay.log)
  {
    LogSnoc(w.relay.log, w.relay.batch[0]);
    UnseenMissing(w.core, w.relay, polled, i);
    var x := w.relay.batch[0].outboxId;
    assert IdsOf(w.relay.batch)[0] in IdsOf(w.relay.batch);
    assert x in IdsOf(w'.relay.log);
  }

  /// A step that is not in time leaves a hole below a published id.
  lemma FallsOut(w: World, l: Label, polled: nat)
    requires VisibleOk(w.core) && Held(w.core, w.relay, polled) && !InTimeStep(w, l, polled)
    requires VisibleOk(Step(w, l).core)
    ensures !InOrder(Step(w, l).core.db, Step(w, l).relay.log)
  {
    var w' := Step(w, l);
    StepShapes(w, l);
    if !VisibleInTime(w, w') {
      var i, x :| |w.core.visible| <= i < |w'.core.visible| && x in IdsOf(w.relay.log) && x >= w'.core.visible[i];
      VisibleTooLate(w, w', polled, i, x);
    } else {
      var i, p :| polled <= i < |w.core.visible| && |w.relay.log| <= p < |w'.relay.log|
        && w'.relay.log[p].outboxId >= w.core.visible[i];
      PublishedTooEarly(w, w', polled, i);
    }
  }

  lemma MembersSnoc(ids: seq<nat>, x: nat)
    ensures forall z :: z in ids + [x] <==> z in ids || z == x
  {
  }

  lemma LastIsLargest(ids: seq<nat>, x: nat, longer: seq<nat>, y: nat)
    requires longer == ids + [x] && Increasing(Compress(longer)) && y in ids
    ensures y <= x
  {
    var p :| 0 <= p < |ids| && ids[p] == y;
    assert longer[p] == y && longer[|ids|] == x;
    NeverBack(longer, p, |ids|);
  }

  lemma DropLast(db: Db, ids: seq<nat>, x: nat, longer: seq<nat>)
    requires longer == ids + [x] && Increasing(Compress(longer))
    requires forall k, y :: k in db.outbox && y in longer && k < y ==> k in longer
    ensures Increasing(Compress(ids))
    ensures forall k, y :: k in db.outbox && y in ids && k < y ==> k in ids
  {
    CompressSnoc(ids, x);
    assert Compress(ids) <= Compress(longer);
    MembersSnoc(ids, x);
    forall k, y | k in db.outbox && y in ids && k < y ensures k in ids {
      LastIsLargest(ids, x, longer, y);
    }
  }

  /// A topic that is out of order stays out of order.
  lemma NeverRecovers(w: World, l: Label)
    requires VisibleOk(w.core) && InOrder(Step(w, l).core.db, Step(w, l).relay.log)
    ensures InOrder(w.core.db, w.relay.log)
  {
    var w' := Step(w, l);
    StepShapes(w, l);
    if w'.relay.log != w.relay.log {
      LogSnoc(w.relay.log, w.relay.batch[0]);
      DropLast(w.core.db, IdsOf(w.relay.log), w.relay.batch[0].outboxId, IdsOf(w'.relay.log));
    }
  }

  lemma OrderStep(w: World, l: Label, polled: nat, inTime: bool)
    requires VisibleOk(w.core) && VisibleOk(Step(w, l).core)
    requires Held(w.core, w.relay, polled) && FromOutbox(w.core.db, w.relay.batch)
    requires inTime <==> InOrder(w.core.db, w.relay.log)
    requires inTime ==> AllButLastMarked(w.core.db, w.relay.log)
    ensures var w' := Step(w, l);
      && Held(w'.core, w'.relay, if PollsIn(w, l) then |w.core.visible| else polled)
      && (inTime && InTimeStep(w, l, polled) <==> InOrder(w'.core.db, w'.relay.log))
      && (inTime && InTimeStep(w, l, polled) ==> AllButLastMarked(w'.core.db, w'.relay.log))
  {
    HeldStep(w, l, polled);
    if inTime && InTimeStep(w, l, polled) {
      StaysInOrder(w, l, polled);
    } else if inTime {
      FallsOut(w, l, polled);
    } else if InOrder(Step(w, l).core.db, Step(w, l).relay.log) {
      NeverRecovers(w, l);
    }
  }

  lemma {:induction false} OrderReachable(schedule: seq<Label>)
    ensures var w := Run(INITIAL, schedule);
      && VisibleOk(w.core)
      && Held(w.core, w.relay, Polled(schedule))
      && (InTime(schedule) <==> InOrder(w.core.db, w.relay.log))
      && (InTime(schedule) ==> AllButLastMarked(w.core.db, w.relay.log))
  {
    InvReachable(schedule);
    if schedule != [] {
      var before, l := schedule[..|schedule| - 1], schedule[|schedule| - 1];
      OrderReachable(before);
      TruthfulReachable(before);
      OrderStep(Run(INITIAL, before), l, Polled(before), InTime(before));
    }
  }

  // ---------- The main result ----------

  /// The first m rows in id order are the marked ones; one more may be published.
  ghost predicate MarkedFirst(db: Db, ids: seq<nat>, sent: seq<nat>, m: int) {
    && 0 <= m <= |sent| <= m + 1
    && |sent| <= |ids|
    && (forall i :: 0 <= i < |ids| ==> ids[i] in db.outbox && (db.outbox[ids[i]].published <==> i < m))
  }

  lemma BeyondPrefix(sent: seq<nat>, ids: seq<nat>, i: nat)
    requires sent <= ids && Increasing(ids) && |sent| <= i < |ids|
    ensures ids[i] !in sent
  {
    forall j | 0 <= j < |sent| ensures sent[j] < ids[i] {
      Rises(ids, j, i);
    }
  }

  lemma CountMarked(db: Db, log: seq<OutMessage>, ids: seq<nat>) returns (m: int)
    requires ById(db, ids) && Compress(IdsOf(log)) <= ids && MarkedLogged(db, log) && AllButLastMarked(db, log)
    ensures MarkedFirst(db, ids, Compress(IdsOf(log)), m)
  {
    var sent := Compress(IdsOf(log));
    CompressElements(IdsOf(log));
    m := |sent|;
    if log != [] {
      CompressLast(IdsOf(log));
      if Unpublished(db, sent[|sent| - 1]) {
        m := |sent| - 1;
      }
    }
    forall i | 0 <= i < |ids| ensures ids[i] in db.outbox && (db.outbox[ids[i]].published <==> i < m) {
      assert ids[i] in ids;
      if i < |sent| {
        assert sent[i] in sent;
      } else {
        BeyondPrefix(sent, ids, i);
      }
    }
  }

  /// The topic with adjacent repeats removed is a prefix of the outbox in id order if and only if every outbox id
  /// became visible in time. In that case the marked rows are a prefix too, and at most one row is published but
  /// not marked.
  lemma RelayOrder(schedule: seq<Label>, ids: seq<nat>) returns (m: int)
    requires ById(Run(INITIAL, schedule).core.db, ids)
    ensures InTime(schedule) <==> Compress(IdsOf(Run(INITIAL, schedule).relay.log)) <= ids
    ensures InTime(schedule) ==>
      MarkedFirst(Run(INITIAL, schedule).core.db, ids, Compress(IdsOf(Run(INITIAL, schedule).relay.log)), m)
  {
    OrderReachable(schedule);
    TruthfulReachable(schedule);
    var w := Run(INITIAL, schedule);
    PrefixIff(w.core.db, w.relay.log, ids);
    m := 0;
    if InTime(schedule) {
      m := CountMarked(w.core.db, w.relay.log, ids);
    }
  }

  // ---------- Sufficient, and necessary ----------

  lemma IncreasingPrefix(a: seq<nat>, b: seq<nat>)
    requires a <= b && Increasing(b)
    ensures Increasing(a)
  {
  }

  lemma SeenIsSmaller(visible: seq<nat>, polled: nat, x: nat, i: nat)
    requires Increasing(visible) && polled <= i < |visible| && x in visible[..polled]
    ensures x < visible[i]
  {
    var j :| 0 <= j < polled && visible[j] == x;
  }

  lemma IncreasingStep(w: World, l: Label, polled: nat)
    requires VisibleOk(w.core) && Held(w.core, w.relay, polled) && Increasing(Step(w, l).core.visible)
    ensures InTimeStep(w, l, polled)
  {
    StepShapes(w, l);
    var w' := Step(w, l);
    forall i, x | |w.core.visible| <= i < |w'.core.visible| && x in IdsOf(w.relay.log) ensures x < w'.core.visible[i] {
      SeenIsSmaller(w'.core.visible, polled, x, i);
    }
    forall i, p | polled <= i < |w.core.visible| && |w.relay.log| <= p < |w'.relay.log|
      ensures w'.relay.log[p].outboxId < w.core.visible[i]
    {
      assert IdsOf(w.relay.batch)[0] in IdsOf(w.relay.batch);
      SeenIsSmaller(w'.core.visible, polled, w.relay.batch[0].outboxId, i);
    }
  }

  /// Ids that become visible in increasing order are always in time.
  lemma {:induction false} IncreasingInTime(schedule: seq<Label>)
    requires Increasing(Run(INITIAL, schedule).core.visible)
    ensures InTime(schedule) && ById(Run(INITIAL, schedule).core.db, Run(INITIAL, schedule).core.visible)
  {
    OrderReachable(schedule);
    if schedule != [] {
      var before, l := schedule[..|schedule| - 1], schedule[|schedule| - 1];
      OrderReachable(before);
      StepShapes(Run(INITIAL, before), l);
      IncreasingPrefix(Run(INITIAL, before).core.visible, Step(Run(INITIAL, before), l).core.visible);
      IncreasingInTime(before);
      IncreasingStep(Run(INITIAL, before), l, Polled(before));
    }
  }

  lemma GoesBack(db: Db, log: seq<OutMessage>, log': seq<OutMessage>, k: nat, x: nat)
    requires FromOutbox(db, log) && log <= log' && x in IdsOf(log) && k < x && k !in db.outbox && k in IdsOf(log')
    ensures !Increasing(Compress(IdsOf(log')))
  {
    var ids := IdsOf(log');
    var p :| 0 <= p < |log| && IdsOf(log)[p] == x;
    var q :| 0 <= q < |ids| && ids[q] == k;
    assert ids[p] == x && log'[q].outboxId == k;
    assert q >= |log|;
    if Increasing(Compress(ids)) {
      NeverBack(ids, p, q);
    }
  }

  lemma {:induction false} LogOnlyGrows(first: seq<Label>, second: seq<Label>)
    ensures Run(INITIAL, first).relay.log <= Run(INITIAL, first + second).relay.log
  {
    if second == [] {
      assert first + second == first;
    } else {
      var before, l := second[..|second| - 1], second[|second| - 1];
      LogOnlyGrows(first, before);
      assert first + second == (first + before) + [l];
      RunSnoc(first + before, l);
      OrderReachable(first + before);
      StepShapes(Run(INITIAL, first + before), l);
    }
  }

  /// An id that becomes visible below a published one and is published itself puts the topic out of order.
  lemma LateIdGoesBack(first: seq<Label>, second: seq<Label>, k: nat, x: nat)
    requires x in IdsOf(Run(INITIAL, first).relay.log) && k < x && k !in Run(INITIAL, first).core.db.outbox
    requires k in IdsOf(Run(INITIAL, first + second).relay.log)
    ensures !Increasing(Compress(IdsOf(Run(INITIAL, first + second).relay.log)))
  {
    TruthfulReachable(first);
    LogOnlyGrows(first, second);
    GoesBack(Run(INITIAL, first).core.db, Run(INITIAL, first).relay.log, Run(INITIAL, first + second).relay.log, k, x);
  }

  // ---------- What a poll reads ----------

  /// An unpublished id smaller than an entry of the batch is itself in the batch, before that entry.
  lemma NothingSkipped(db: Db, batch: seq<OutMessage>, j: nat, k: nat)
    requires IsBatch(db, batch) && j < |batch| && Unpublished(db, k) && k < batch[j].outboxId
    ensures j > 0 && k <= batch[j - 1].outboxId
  {
    assert j < |batch| - 1 ==> batch[j].outboxId < batch[|batch| - 1].outboxId;
    var i :| 0 <= i < |batch| && batch[i].outboxId == k;
    assert i < j;
    assert i == j - 1 || batch[i].outboxId < batch[j - 1].outboxId;
  }

  /// Where an entry of the batch stands among the ids.
  lemma PositionOf(db: Db, ids: seq<nat>, batch: seq<OutMessage>, m: nat, j: nat) returns (p: nat)
    requires ById(db, ids) && forall i :: 0 <= i < |ids| ==> (Unpublished(db, ids[i]) <==> m <= i)
    requires IsBatch(db, batch) && j < |batch|
    ensures m <= p < |ids| && ids[p] == batch[j].outboxId
    ensures j > 0 ==> batch[j - 1].outboxId < batch[j].outboxId
  {
    assert Unpublished(db, batch[j].outboxId);
    p :| 0 <= p < |ids| && ids[p] == batch[j].outboxId;
  }

  /// Whenever the marked rows are the first m, a poll reads exactly the next rows in id order.
  lemma {:induction false} PollAligned(db: Db, ids: seq<nat>, batch: seq<OutMessage>, m: nat, j: nat)
    requires ById(db, ids) && forall i :: 0 <= i < |ids| ==> (Unpublished(db, ids[i]) <==> m <= i)
    requires IsBatch(db, batch) && j < |batch|
    ensures m + j < |ids| && batch[j].outboxId == ids[m + j]
  {
    var p := PositionOf(db, ids, batch, m, j);
    if j > 0 {
      PollAligned(db, ids, batch, m, j - 1);
      Rises(ids, m + j - 1, p);
    }
    Rises(ids, m + j, p);
    if ids[m + j] < batch[j].outboxId {
      NothingSkipped(db, batch, j, ids[m + j]);
    }
  }
}
