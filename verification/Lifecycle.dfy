/// Safety of the appraisal lifecycle over every schedule: saves and completions are linearizable, every answer
/// is justified, a completed row is frozen, and completions and outbox rows are in bijection.
///
/// `DistinctStamps` is the one assumption on clocks: the versions of a row carry pairwise different
/// updated_at values (they need not increase). It is a condition on the final history; a lemma that does not
/// name it holds whatever the clocks do.

module Lifecycle {
  import opened Domain
  import opened Tables
  import opened Machine
  import opened CoreInvariant
  import opened SessionInvariant

  ghost predicate StampsDistinct(h: seq<Version>) {
    forall i, j :: 0 <= i < j < |h| ==> h[i].row.updatedAt != h[j].row.updatedAt
  }

  ghost predicate DistinctStamps(core: Core) {
    forall id | id in core.history :: StampsDistinct(core.history[id])
  }

  // ---------- The atomic machine ----------

  datatype Request = Request(op: Operation, at: Stamp)

  /// An appraisal that serves requests one at a time, each on its current state.
  function AtomicRun(a: Appraisal, requests: seq<Request>): Appraisal {
    if requests == [] then a
    else
      var last := requests[|requests| - 1];
      Edited(last.op, AtomicRun(a, requests[..|requests| - 1]), last.at)
  }

  /// The requests committed on a row, in commit order.
  function Requests(h: seq<Version>): seq<Request> {
    if |h| <= 1 || h[|h| - 1].author.None? then []
    else Requests(h[..|h| - 1]) + [Request(h[|h| - 1].author.value.op, h[|h| - 1].row.updatedAt)]
  }

  /// With distinct stamps a save wrote on exactly the version it had read, and every commit
  /// is its operation applied to the version just before it.
  lemma AtomicCommit(h: seq<Version>, k: int)
    requires Chain(h) && StampsDistinct(h) && 1 <= k < |h|
    ensures h[k].author.Some?
    ensures h[k].row == Edited(h[k].author.value.op, h[k - 1].row, h[k].row.updatedAt)
    ensures h[k].author.value.op.Saves() ==> h[k].author.value.readAt == k
  {
    assert CommitOk(h, k);
  }

  lemma ChainPrefix(h: seq<Version>, n: nat)
    requires Chain(h) && 0 < n <= |h|
    ensures Chain(h[..n])
  {
    forall k | 1 <= k < n ensures CommitOk(h[..n], k) {
      assert CommitOk(h, k);
    }
  }

  lemma {:induction false} AtomicHistory(h: seq<Version>)
    requires Chain(h) && StampsDistinct(h)
    ensures |Requests(h)| == |h| - 1
    ensures h[|h| - 1].row == AtomicRun(h[0].row, Requests(h))
  {
    if |h| > 1 {
      var n := |h| - 1;
      ChainPrefix(h, n);
      AtomicHistory(h[..n]);
      assert CommitOk(h, n);
      AtomicCommit(h, n);
      var rs := Requests(h[..n]);
      var last := Request(h[n].author.value.op, h[n].row.updatedAt);
      assert Requests(h) == rs + [last];
      assert (rs + [last])[..|rs + [last]| - 1] == rs;
    }
  }

  /// Under every interleaving each row is the atomic machine's state after the row's committed requests.
  lemma Linearizable(schedule: seq<Label>, id: Uuid)
    requires DistinctStamps(Run(INITIAL, schedule).core)
    requires id in Run(INITIAL, schedule).core.db.rows
    ensures var core := Run(INITIAL, schedule).core; var h := History(core, id);
      && |h| > 0
      && core.db.rows[id] == AtomicRun(NewAppraisal(id, core.db.rows[id].requestId, h[0].row.createdAt), Requests(h))
      && |Requests(h)| == |h| - 1
  {
    InvReachable(schedule);
    AtomicHistory(Run(INITIAL, schedule).core.history[id]);
  }

  /// An operation that reports success is committed exactly once, on its own row and with its own request.
  lemma SuccessCommitsOnce(schedule: seq<Label>, sid: nat) returns (k: int)
    requires sid in Run(INITIAL, schedule).sessions
    requires var r := Run(INITIAL, schedule).sessions[sid].stage; r.Done? && (r.result.Returned? || r.result.Stored?)
    ensures var w := Run(INITIAL, schedule);
      && CommittedAt(w.core, sid, w.sessions[sid], k)
      && forall id', k' :: Wrote(w.core, sid, id', k') ==> id' == w.sessions[sid].target && k' == k
  {
    InvReachable(schedule);
    var w := Run(INITIAL, schedule);
    var s := w.sessions[sid];
    assert SessionOk(w.core, sid, s);
    if !s.op.ApplyCalculation? && s.stage.result.Returned? {
      k :| Answered(w.core, sid, s, s.stage.result.a, k);
    } else {
      k :| CommittedAt(w.core, sid, s, k);
    }
    forall id', k' | Wrote(w.core, sid, id', k') ensures id' == s.target && k' == k {
      assert AuthorAt(w.core, id', k') && AuthorAt(w.core, s.target, k);
    }
  }

  /// An operation that reports anything but a storage failure, and no success on the row, committed nothing.
  lemma FailureCommitsNothing(schedule: seq<Label>, sid: nat, id: Uuid, k: int)
    requires sid in Run(INITIAL, schedule).sessions
    requires var st := Run(INITIAL, schedule).sessions[sid].stage;
      st.Done? && st.result.Failed? && st.result.error != Storage
    ensures !Wrote(Run(INITIAL, schedule).core, sid, id, k)
  {
    InvReachable(schedule);
    var w := Run(INITIAL, schedule);
    assert SessionOk(w.core, sid, w.sessions[sid]);
  }

  /// An operation is refused only for a reason. Not found means that no version of the row existed when it was
  /// read (a delete may also have missed its comparable); an invalid status means that the row is completed.
  lemma RefusalsJustified(schedule: seq<Label>, sid: nat)
    requires sid in Run(INITIAL, schedule).sessions && Run(INITIAL, schedule).sessions[sid].stage.Done?
    ensures var w := Run(INITIAL, schedule); var s := w.sessions[sid];
      && (s.stage.result == Failed(InvalidStatus) ==>
            s.target in w.core.db.rows && w.core.db.rows[s.target].status == Completed)
      && (s.stage.result == Failed(NotFound) && !s.op.DeleteComparable? ==> s.readAt == 0)
  {
    InvReachable(schedule);
    var w := Run(INITIAL, schedule);
    assert SessionOk(w.core, sid, w.sessions[sid]);
  }

  ghost predicate Took(db: Db, db': Db, s: Session, r: Result) {
    match r
    case Added(c) =>
      && s.op == AddComparable(c.data) && c.appraisalId == s.target
      && s.target in db.rows && db.rows[s.target].status == InProgress
      && c.id !in db.comparables && db' == db.(comparables := db.comparables[c.id := c])
    case Deleted =>
      && s.op.DeleteComparable? && s.op.comparableId in ComparablesOf(db, s.target)
      && db' == db.(comparables := db.comparables - {s.op.comparableId})
    case Failed(e) =>
      e != Storage ==>
        && db' == db
        && (e == NotFound ==> s.target !in db.rows
                              || (s.op.DeleteComparable? && s.op.comparableId !in ComparablesOf(db, s.target)))
    case _ => false
  }

  lemma AnswerTakes(core: Core, sid: nat, s: Session, act: Act)
    requires HistoriesOk(core) && SessionOk(core, sid, s)
    requires !s.stage.Done? && (s.op.AddComparable? || s.op.DeleteComparable?)
    requires NextSession(core, s, act).stage.Done?
    ensures Took(core.db, Apply(core, SessionChange(sid, s, act)).db, s, NextSession(core, s, act).stage.result)
  {
  }

  /// The answer of an operation on comparables is given by the step that has its effect: the comparable was
  /// added under an appraisal in progress, or was there and is gone, or there was none to delete.
  lemma ComparableAnswers(schedule: seq<Label>, l: Label, sid: nat)
    requires sid in Run(INITIAL, schedule).sessions
    requires var s := Run(INITIAL, schedule).sessions[sid];
      !s.stage.Done? && (s.op.AddComparable? || s.op.DeleteComparable?)
    requires Step(Run(INITIAL, schedule), l).sessions[sid].stage.Done?
    ensures var w := Run(INITIAL, schedule); var w' := Step(w, l);
      Took(w.core.db, w'.core.db, w.sessions[sid], w'.sessions[sid].stage.result)
  {
    InvReachable(schedule);
    var w := Run(INITIAL, schedule);
    assert SessionOk(w.core, sid, w.sessions[sid]);
    AnswerTakes(w.core, sid, w.sessions[sid], l.act);
  }

  /// What Update returns to its caller is the atomic machine's state right after it.
  lemma UpdateAnswersAtomically(schedule: seq<Label>, sid: nat) returns (k: int)
    requires DistinctStamps(Run(INITIAL, schedule).core)
    requires sid in Run(INITIAL, schedule).sessions
    requires var s := Run(INITIAL, schedule).sessions[sid]; s.op.Update? && s.stage.Done? && s.stage.result.Returned?
    ensures var w := Run(INITIAL, schedule); var s := w.sessions[sid];
      && CommittedAt(w.core, sid, s, k)
      && s.stage.result.a == w.core.history[s.target][k].row
      && s.stage.result.a == AtomicRun(w.core.history[s.target][0].row, Requests(w.core.history[s.target][..k + 1]))
  {
    InvReachable(schedule);
    var w := Run(INITIAL, schedule);
    var s := w.sessions[sid];
    assert SessionOk(w.core, sid, s);
    k :| Answered(w.core, sid, s, s.stage.result.a, k);
    var h := w.core.history[s.target];
    assert CommitOk(h, k);
    AtomicCommit(h, k);
    ChainPrefix(h, k + 1);
    AtomicHistory(h[..k + 1]);
  }

  /// What Complete returns agrees with the row it closed on status, times and keys; it is the whole row
  /// when no other commit landed between its read and its write.
  lemma CompleteAnswers(schedule: seq<Label>, sid: nat) returns (k: int)
    requires sid in Run(INITIAL, schedule).sessions
    requires var s := Run(INITIAL, schedule).sessions[sid]; s.op.Complete? && s.stage.Done? && s.stage.result.Returned?
    ensures var w := Run(INITIAL, schedule); var s := w.sessions[sid]; var a := s.stage.result.a;
      && CommittedAt(w.core, sid, s, k)
      && var row := w.core.history[s.target][k].row;
      && a.id == row.id && a.requestId == row.requestId && a.status == row.status == Completed
      && a.completedAt == row.completedAt && a.updatedAt == row.updatedAt
      && (s.readAt == k ==> a == row)
  {
    InvReachable(schedule);
    var w := Run(INITIAL, schedule);
    var s := w.sessions[sid];
    assert SessionOk(w.core, sid, s);
    k :| Answered(w.core, sid, s, s.stage.result.a, k);
    assert CommitOk(w.core.history[s.target], k);
  }

  /// A conflict is always caused by another operation's commit on the row between the read and the write.
  lemma ConflictHasCause(schedule: seq<Label>, sid: nat) returns (k: int, other: nat)
    requires sid in Run(INITIAL, schedule).sessions
    requires Run(INITIAL, schedule).sessions[sid].stage == Done(Failed(Conflict))
    ensures var w := Run(INITIAL, schedule); var s := w.sessions[sid];
      s.readAt <= k < s.missedAt && other != sid && Wrote(w.core, other, s.target, k)
  {
    InvReachable(schedule);
    var w := Run(INITIAL, schedule);
    var s := w.sessions[sid];
    assert SessionOk(w.core, sid, s);
    k := s.readAt;
    assert CommitOk(w.core.history[s.target], k);
    other := w.core.history[s.target][k].author.value.sid;
    assert Wrote(w.core, other, s.target, k);
  }

  /// With distinct stamps the optimistic lock is exact: a save misses if and only if some commit
  /// landed on its row since its read.
  lemma SaveMissesIffOvertaken(schedule: seq<Label>, sid: nat, act: Act)
    requires DistinctStamps(Run(INITIAL, schedule).core)
    requires sid in Run(INITIAL, schedule).sessions
    requires var s := Run(INITIAL, schedule).sessions[sid]; s.stage.Checked? && s.op.Saves()
    requires act.Execute? && act.fault == NoFault
    ensures var w := Run(INITIAL, schedule); var s := w.sessions[sid];
      AfterExecute(w.core.db, s, act).Missed? <==> s.readAt < |History(w.core, s.target)|
  {
    InvReachable(schedule);
    var w := Run(INITIAL, schedule);
    var s := w.sessions[sid];
    assert SessionOk(w.core, sid, s);
    var h := w.core.history[s.target];
    assert h[|h| - 1].row == w.core.db.rows[s.target];
  }

  // ---------- Real-time order ----------

  /// A session that begins after world w reads a version at least as new as the last one in w.
  ghost predicate ReadsLater(w: World, w': World, sid: nat) {
    sid in w'.sessions ==>
      var s := w'.sessions[sid];
      s.stage.Start? || s.readAt >= |History(w.core, s.target)| || s.readAt == 0
  }

  /// A session notes what it read when it leaves the start, and never again.
  lemma ReadsOnce(core: Core, s: Session, act: Act)
    ensures var s' := NextSession(core, s, act);
      && s'.target == s.target
      && (s.stage.Start? && !s'.stage.Start? ==> s'.readAt == |History(core, s.target)|)
      && (!s.stage.Start? ==> s'.readAt == s.readAt && !s'.stage.Start?)
  {
  }

  lemma ReadsLaterStep(w: World, v: World, l: Label, sid: nat)
    requires Grows(w.core, v.core) && ReadsLater(w, v, sid)
    ensures ReadsLater(w, Step(v, l), sid)
  {
    if sid in v.sessions {
      var s := v.sessions[sid];
      assert |History(w.core, s.target)| <= |History(v.core, s.target)|;
      if l.Proceed? {
        ReadsOnce(v.core, s, l.act);
      }
    }
  }

  lemma {:induction false} LaterSessionsReadLater(w: World, schedule: seq<Label>, sid: nat)
    requires Inv(w) && sid !in w.sessions
    ensures ReadsLater(w, Run(w, schedule), sid)
  {
    if schedule != [] {
      var before := schedule[..|schedule| - 1];
      LaterSessionsReadLater(w, before, sid);
      InvRun(true, w, before);
      ReadsLaterStep(w, Run(w, before), schedule[|schedule| - 1], sid);
    }
  }

  /// If one operation had finished before another began, its commit precedes what the other read,
  /// and so precedes the other's commit.
  lemma RealTimeOrder(first: seq<Label>, second: seq<Label>, a: nat, b: nat, id: Uuid, i: int, j: int)
    requires b !in Run(INITIAL, first).sessions
    requires Wrote(Run(INITIAL, first).core, a, id, i)
    requires Wrote(Run(INITIAL, first + second).core, b, id, j)
    ensures var w := Run(INITIAL, first + second);
      b in w.sessions && i < w.sessions[b].readAt <= j
  {
    InvReachable(first);
    InvReachable(first + second);
    var w := Run(INITIAL, first);
    RunConcat(true, INITIAL, first, second);
    var w' := Run(w, second);
    LaterSessionsReadLater(w, second, b);
    assert AuthorAt(w'.core, id, j);
    var s := w'.sessions[b];
    assert SessionOk(w'.core, b, s);
    assert CommitOk(w'.core.history[id], j);
    assert AuthorAt(w.core, id, i);
  }

  // ---------- Freeze ----------

  lemma GrowsAlong(first: seq<Label>, second: seq<Label>)
    ensures Inv(Run(INITIAL, first)) && Inv(Run(INITIAL, first + second))
    ensures Grows(Run(INITIAL, first).core, Run(INITIAL, first + second).core)
  {
    InvReachable(first);
    RunConcat(true, INITIAL, first, second);
    InvRun(true, Run(INITIAL, first), second);
  }

  lemma FinalInCore(a: Core, b: Core, id: Uuid)
    requires HistoriesOk(a) && HistoriesOk(b) && Grows(a, b)
    requires id in a.db.rows && a.db.rows[id].status == Completed
    ensures id in b.db.rows && b.db.rows[id].status == Completed
    ensures b.db.rows[id].completedAt == a.db.rows[id].completedAt
  {
    var h := b.history[id];
    OneWay(h, |a.history[id]| - 1, |h| - 1);
  }

  /// In-progress to completed is the only transition, whatever the clocks do.
  lemma CompletionIsFinal(first: seq<Label>, second: seq<Label>, id: Uuid)
    requires id in Run(INITIAL, first).core.db.rows
    requires Run(INITIAL, first).core.db.rows[id].status == Completed
    ensures var db := Run(INITIAL, first + second).core.db;
      && id in db.rows && db.rows[id].status == Completed
      && db.rows[id].completedAt == Run(INITIAL, first).core.db.rows[id].completedAt
  {
    GrowsAlong(first, second);
    FinalInCore(Run(INITIAL, first).core, Run(INITIAL, first + second).core, id);
  }

  /// Nothing can be committed on top of a completed version.
  lemma NoCommitAfterCompletion(h: seq<Version>, k: int)
    requires Chain(h) && StampsDistinct(h) && 1 <= k < |h|
    ensures h[k - 1].row.status == InProgress
  {
    AtomicCommit(h, k);
    assert CommitOk(h, k);
  }

  lemma FrozenInCore(a: Core, b: Core, id: Uuid)
    requires HistoriesOk(a) && HistoriesOk(b) && Grows(a, b) && DistinctStamps(b)
    requires id in a.db.rows && a.db.rows[id].status == Completed
    ensures id in b.db.rows && b.db.rows[id] == a.db.rows[id] && b.history[id] == a.history[id]
  {
    var h, h' := a.history[id], b.history[id];
    if |h| < |h'| {
      NoCommitAfterCompletion(h', |h|);
    }
  }

  /// Once completed, no later step of any operation changes any column of the row.
  lemma Frozen(first: seq<Label>, second: seq<Label>, id: Uuid)
    requires DistinctStamps(Run(INITIAL, first + second).core)
    requires id in Run(INITIAL, first).core.db.rows
    requires Run(INITIAL, first).core.db.rows[id].status == Completed
    ensures var core, core' := Run(INITIAL, first).core, Run(INITIAL, first + second).core;
      && id in core'.db.rows && core'.db.rows[id] == core.db.rows[id]
      && History(core', id) == History(core, id)
  {
    GrowsAlong(first, second);
    FrozenInCore(Run(INITIAL, first).core, Run(INITIAL, first + second).core, id);
  }

  lemma LastColumns(h: seq<Version>, id: Uuid)
    requires Chain(h) && Uniform(h, id) && StampsDistinct(h)
    ensures var row := h[|h| - 1].row;
      row.completedAt == if row.status == Completed then Some(row.updatedAt) else None
  {
    var k := |h| - 1;
    if k > 0 {
      AtomicCommit(h, k);
      NoCommitAfterCompletion(h, k);
    }
  }

  /// completed_at is set exactly when the status is completed, and then equals updated_at.
  lemma CompletionColumns(schedule: seq<Label>, id: Uuid)
    requires DistinctStamps(Run(INITIAL, schedule).core)
    requires id in Run(INITIAL, schedule).core.db.rows
    ensures var row := Run(INITIAL, schedule).core.db.rows[id];
      row.completedAt == if row.status == Completed then Some(row.updatedAt) else None
  {
    InvReachable(schedule);
    LastColumns(Run(INITIAL, schedule).core.history[id], id);
  }

  lemma SaveLands(core: Core, sid: nat, s: Session, act: Act)
    requires HistoriesOk(core) && SessionOk(core, sid, s)
    requires s.stage.Checked? && s.op.Saves() && act.Execute? && act.fault != Lost
    ensures s.target in core.db.rows
    ensures History(Apply(core, SessionChange(sid, s, act)), s.target) != History(core, s.target)
      <==> s.stage.row.updatedAt == core.db.rows[s.target].updatedAt
  {
    assert s.stage.row.id == s.target;
    var h := History(core, s.target);
    var ch := WriteOf(sid, s, act);
    if UpdateHits(core.db, ch.a.id, ch.prev) {
      assert |History(Apply(core, ch), s.target)| == |h| + 1;
    }
  }

  /// Exactly when a save can still land on a completed row: when the copy it holds carries the same stamp.
  lemma SaveAfterCompletion(schedule: seq<Label>, sid: nat, act: Act)
    requires sid in Run(INITIAL, schedule).sessions
    requires var w := Run(INITIAL, schedule); var s := w.sessions[sid];
      s.stage.Checked? && s.op.Saves() && s.target in w.core.db.rows && w.core.db.rows[s.target].status == Completed
    requires act.Execute? && act.fault != Lost
    ensures var w := Run(INITIAL, schedule); var s := w.sessions[sid];
      History(Apply(w.core, SessionChange(sid, s, act)), s.target) != History(w.core, s.target)
      <==> s.stage.row.updatedAt == w.core.db.rows[s.target].updatedAt
  {
    InvReachable(schedule);
    var w := Run(INITIAL, schedule);
    SaveLands(w.core, sid, w.sessions[sid], act);
  }

  // ---------- Completion and the outbox ----------

  ghost predicate AnnouncedFor(db: Db, requestId: Uuid) {
    exists k :: k in db.outbox && db.outbox[k].aggregateId == requestId
  }

  ghost predicate CompletedFor(db: Db, requestId: Uuid) {
    exists id :: id in db.rows && db.rows[id].status == Completed && db.rows[id].requestId == requestId
  }

  /// Completed appraisals and outbox rows match one to one through the request.
  ghost predicate OutboxMatchesCompletions(db: Db) {
    && (forall id | id in db.rows && db.rows[id].status == Completed :: AnnouncedFor(db, db.rows[id].requestId))
    && (forall k | k in db.outbox :: CompletedFor(db, db.outbox[k].aggregateId))
    && (forall k, k' | k in db.outbox && k' in db.outbox ::
          db.outbox[k].aggregateId == db.outbox[k'].aggregateId ==> k == k')
    && (forall id, id' | id in db.rows && id' in db.rows ::
          db.rows[id].requestId == db.rows[id'].requestId ==> id == id')
  }

  predicate WritesCompletion(w: World, l: Label) {
    && l.Proceed? && l.sid in w.sessions && l.act.Execute? && l.act.fault == NoFault
    && w.sessions[l.sid].op.Complete? && w.sessions[l.sid].stage.Checked?
  }

  ghost predicate ClosesNothing(db: Db, db': Db) {
    && db'.outbox.Keys == db.outbox.Keys
    && (forall id :: id in db'.rows && db'.rows[id].status == Completed ==>
          id in db.rows && db.rows[id].status == Completed)
  }

  ghost predicate ClosesOne(db: Db, db': Db, id: Uuid, k: nat) {
    && id in db.rows && db.rows[id].status == InProgress
    && id in db'.rows && db'.rows[id].status == Completed
    && k !in db.outbox && k in db'.outbox
    && !db'.outbox[k].published && db'.outbox[k].aggregateId == db.rows[id].requestId
    && db' == db.(rows := db.rows[id := db'.rows[id]], outbox := db.outbox[k := db'.outbox[k]])
  }

  lemma ClosesOneOrNothing(core: Core, ch: Change)
    requires HistoriesOk(core) && Sound(core, ch)
    ensures var db' := Apply(core, ch).db;
      ClosesNothing(core.db, db') || exists id, k :: ClosesOne(core.db, db', id, k)
  {
    if ch.Close? && CompleteOutcomeOf(core.db, ch.id, ch.outboxId, ch.event) == Closed {
      assert ClosesOne(core.db, Apply(core, ch).db, ch.id, ch.outboxId);
    } else {
      assert ClosesNothing(core.db, Apply(core, ch).db);
    }
  }

  lemma StepCloses(w: World, l: Label)
    requires Inv(w)
    ensures var db, db' := w.core.db, Step(w, l).core.db;
      ClosesNothing(db, db') || exists id, k :: ClosesOne(db, db', id, k)
  {
    if Enabled(w, l) {
      SoundStep(w, l);
      ClosesOneOrNothing(w.core, ChangeOf(w, l));
    }
  }

  /// A completion that reports an error without a storage fault changed nothing, and one that succeeds
  /// adds exactly one outbox row, unpublished, for the request of its row.
  lemma CompletionWrites(core: Core, sid: nat, s: Session, act: Act)
    requires HistoriesOk(core) && SessionOk(core, sid, s)
    requires s.stage.Checked? && s.op.Complete? && act.Execute? && act.fault == NoFault
    ensures var core' := Apply(core, SessionChange(sid, s, act)); var r := AfterExecute(core.db, s, act);
      && r.Done?
      && (r.result.Failed? <==> !r.result.Returned?)
      && (r.result.Failed? ==> core' == core)
      && (r.result.Returned? ==> ClosesOne(core.db, core'.db, s.target, act.outboxId))
  {
  }

  /// Success exactly when the row was closed and announced, and otherwise no change at all.
  ghost predicate AnswersCompletion(w: World, w': World, l: Label)
    requires WritesCompletion(w, l)
  {
    && l.sid in w'.sessions && w'.sessions[l.sid].stage.Done?
    && var r := w'.sessions[l.sid].stage.result;
    && (r.Returned? <==> ClosesOne(w.core.db, w'.core.db, w.sessions[l.sid].target, l.act.outboxId))
    && (r.Failed? <==> !r.Returned?)
    && (r.Failed? ==> w'.core == w.core)
  }

  lemma CompletionAnswered(w: World, l: Label)
    requires HistoriesOk(w.core) && SessionsOk(w) && WritesCompletion(w, l)
    ensures AnswersCompletion(w, Step(w, l), l)
  {
    assert SessionOk(w.core, l.sid, w.sessions[l.sid]);
    CompletionWrites(w.core, l.sid, w.sessions[l.sid], l.act);
  }

  lemma MatchInCore(core: Core)
    requires CoreInv(core)
    ensures OutboxMatchesCompletions(core.db)
  {
    var db := core.db;
    forall id | id in db.rows && db.rows[id].status == Completed
      ensures AnnouncedFor(db, db.rows[id].requestId)
    {
      assert AnnouncedIn(db, id);
      var k :| k in db.outbox && db.outbox[k].event.data.appraisalId == id;
      AnnouncedRow(core, k);
    }
    forall k | k in db.outbox ensures CompletedFor(db, db.outbox[k].aggregateId) {
      AnnouncedRow(core, k);
      assert db.outbox[k].event.data.appraisalId in db.rows;
    }
  }

  /// In every reachable state completed appraisals and outbox rows are in bijection. Every step either completes
  /// nothing and leaves the set of outbox rows alone, or completes one row and adds one outbox row for it. A
  /// completion whose write is not hit by a fault reports success exactly when its step did the latter.
  lemma AtomicCompletion(schedule: seq<Label>, l: Label)
    ensures var w := Run(INITIAL, schedule); var w' := Step(w, l);
      && OutboxMatchesCompletions(w.core.db)
      && (ClosesNothing(w.core.db, w'.core.db) || exists id, k :: ClosesOne(w.core.db, w'.core.db, id, k))
      && (WritesCompletion(w, l) ==> AnswersCompletion(w, w', l))
  {
    InvReachable(schedule);
    var w := Run(INITIAL, schedule);
    MatchInCore(w.core);
    StepCloses(w, l);
    if WritesCompletion(w, l) {
      CompletionAnswered(w, l);
    }
  }

}
