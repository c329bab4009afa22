/// What every schedule keeps about the operations in flight: each holds a committed version of its row,
/// commits at most once, and an outcome reported to the caller matches what it did to the history.
/// No assumption on clocks is made here.

module SessionInvariant {
  import opened Domain
  import opened Tables
  import opened Machine
  import opened CoreInvariant

  ghost predicate NeverWrote(core: Core, sid: nat) {
    forall id, k :: !Wrote(core, sid, id, k)
  }

  /// Version k of the target is the commit of this session.
  ghost predicate CommittedAt(core: Core, sid: nat, s: Session, k: int) {
    Wrote(core, sid, s.target, k) && core.history[s.target][k].author.value == Author(sid, s.op, s.readAt)
  }

  ghost predicate Committed(core: Core, sid: nat, s: Session) {
    exists k :: CommittedAt(core, sid, s, k)
  }

  /// The copy an operation works on is version readAt - 1 of its row.
  ghost predicate Holds(core: Core, s: Session, row: Appraisal) {
    1 <= s.readAt <= |History(core, s.target)| && History(core, s.target)[s.readAt - 1].row == row
  }

  /// Another commit landed on the row between the read and the failed write.
  ghost predicate Overtaken(core: Core, s: Session) {
    1 <= s.readAt < s.missedAt <= |History(core, s.target)|
  }

  /// An answer built from the copy that was read: the version k it committed differs from the copy it
  /// returns at most in the columns its write statement does not set.
  ghost predicate Answered(core: Core, sid: nat, s: Session, a: Appraisal, k: int) {
    && CommittedAt(core, sid, s, k)
    && 1 <= s.readAt <= k
    && a == Edited(s.op, core.history[s.target][s.readAt - 1].row, core.history[s.target][k].row.updatedAt)
  }

  /// The row exists and is completed, which is then so for ever.
  ghost predicate Finished(core: Core, id: Uuid) {
    id in core.history && core.history[id] != [] && core.history[id][|core.history[id]| - 1].row.status == Completed
  }

  /// What a reported outcome says of the history. Not found means that the operation had read no version
  /// (`readAt` counts them), except that a delete may also have missed its comparable.
  ghost predicate OutcomeOk(core: Core, sid: nat, s: Session, r: Result) {
    match r
    case Returned(a) =>
      if s.op.ApplyCalculation? then Committed(core, sid, s)
      else (s.op.Update? || s.op.Complete?) && exists k :: Answered(core, sid, s, a, k)
    case Stored(key) => s.op == UploadReport(key) && Committed(core, sid, s)
    case Added(c) => s.op == AddComparable(c.data) && c.appraisalId == s.target && NeverWrote(core, sid)
    case Deleted => s.op.DeleteComparable? && NeverWrote(core, sid)
    case Failed(e) =>
      match e
      case Conflict => NeverWrote(core, sid) && (s.op.Saves() || s.op.Complete?) && Overtaken(core, s)
      case NotFound => NeverWrote(core, sid) && (s.readAt == 0 || s.op.DeleteComparable?)
      case InvalidStatus => NeverWrote(core, sid) && Finished(core, s.target)
      case BadInput => NeverWrote(core, sid) && s.op.ApplyCalculation?
      case Storage => true
  }

  ghost predicate SessionOk(core: Core, sid: nat, s: Session) {
    match s.stage
    case Start => NeverWrote(core, sid)
    case GotRow(row) => Holds(core, s, row) && NeverWrote(core, sid)
    case Checked(row, _) => Holds(core, s, row) && row.status == InProgress && NeverWrote(core, sid)
    case Missed =>
      && NeverWrote(core, sid)
      && ((s.op.AddComparable? && Finished(core, s.target)) || (s.op.Saves() && Overtaken(core, s)))
    case Done(r) => OutcomeOk(core, sid, s, r)
    case _ => s.op.ApplyCalculation? && Committed(core, sid, s)
  }

  ghost predicate SessionsOk(w: World) {
    forall sid | sid in w.sessions :: SessionOk(w.core, sid, w.sessions[sid])
  }

  /// Every commit belongs to a session that asked for exactly that operation on that row.
  ghost predicate AuthorsKnown(w: World) {
    forall id, k | AuthorAt(w.core, id, k) ::
      var who := w.core.history[id][k].author.value;
      && who.sid in w.sessions && w.sessions[who.sid].op == who.op
      && w.sessions[who.sid].target == id && w.sessions[who.sid].readAt == who.readAt
  }

  ghost predicate Inv(w: World) {
    CoreInv(w.core) && SessionsOk(w) && AuthorsKnown(w)
  }

  // ---------- Every step keeps the invariant ----------

  lemma SoundAct(core: Core, sid: nat, s: Session, act: Act)
    requires HistoriesOk(core) && SessionOk(core, sid, s) && act.Execute?
    ensures Sound(core, SessionChange(sid, s, act))
  {
  }

  lemma SoundStep(w: World, l: Label)
    requires Inv(w)
    ensures Sound(w.core, ChangeOf(w, l))
  {
    if l.Proceed? && l.sid in w.sessions && l.act.Execute? {
      assert SessionOk(w.core, l.sid, w.sessions[l.sid]);
      SoundAct(w.core, l.sid, w.sessions[l.sid], l.act);
    }
  }

  /// Changes carry the session that makes them as author.
  lemma ChangeAuthor(w: World, l: Label)
    requires Inv(w)
    ensures var ch := ChangeOf(w, l);
      ch.Save? || ch.Close? ==>
        && l.Proceed? && l.sid in w.sessions && l.act.Execute? && w.sessions[l.sid].stage.Checked?
        && ch.author == Author(l.sid, w.sessions[l.sid].op, w.sessions[l.sid].readAt)
        && (if ch.Save? then ch.a.id else ch.id) == w.sessions[l.sid].target
  {
    if l.Proceed? && l.sid in w.sessions && l.act.Execute? && w.sessions[l.sid].stage.Checked? {
      assert SessionOk(w.core, l.sid, w.sessions[l.sid]);
    }
  }

  lemma StaysSilent(core: Core, ch: Change, sid: nat)
    requires HistoriesOk(core) && Sound(core, ch) && NeverWrote(core, sid)
    requires ch.Save? || ch.Close? ==> ch.author.sid != sid
    ensures NeverWrote(Apply(core, ch), sid)
  {
    forall id, k ensures !Wrote(Apply(core, ch), sid, id, k) {
      if AuthorAt(Apply(core, ch), id, k) {
        AuthorOrigin(core, ch, id, k);
        assert !Wrote(core, sid, id, k);
      }
    }
  }

  lemma StaysCommitted(a: Core, b: Core, sid: nat, s: Session, k: int)
    requires Grows(a, b) && CommittedAt(a, sid, s, k)
    ensures CommittedAt(b, sid, s, k)
    ensures b.history[s.target][..k + 1] == a.history[s.target][..k + 1]
  {
  }

  lemma StaysAnswered(a: Core, b: Core, sid: nat, s: Session, row: Appraisal)
    requires Grows(a, b) && exists k :: Answered(a, sid, s, row, k)
    ensures exists k :: Answered(b, sid, s, row, k)
  {
    var k :| Answered(a, sid, s, row, k);
    StaysCommitted(a, b, sid, s, k);
    assert Answered(b, sid, s, row, k);
  }

  lemma FinishedStays(core: Core, ch: Change, id: Uuid)
    requires HistoriesOk(core) && Sound(core, ch) && Finished(core, id)
    ensures Finished(Apply(core, ch), id)
  {
    KeepsHistories(core, ch);
    ApplyGrows(core, ch);
    var h, h' := core.history[id], Apply(core, ch).history[id];
    OneWay(h', |h| - 1, |h'| - 1);
  }

  /// A session that does not move stays as it was.
  lemma StaysOk(core: Core, ch: Change, sid: nat, s: Session)
    requires HistoriesOk(core) && Sound(core, ch) && SessionOk(core, sid, s)
    requires ch.Save? || ch.Close? ==> ch.author.sid != sid
    ensures SessionOk(Apply(core, ch), sid, s)
  {
    ApplyGrows(core, ch);
    if Finished(core, s.target) {
      FinishedStays(core, ch, s.target);
    }
    if NeverWrote(core, sid) {
      StaysSilent(core, ch, sid);
    }
    if Committed(core, sid, s) {
      var k :| CommittedAt(core, sid, s, k);
      StaysCommitted(core, Apply(core, ch), sid, s, k);
    }
    if s.stage.Done? && s.stage.result.Returned? && !s.op.ApplyCalculation? {
      StaysAnswered(core, Apply(core, ch), sid, s, s.stage.result.a);
    }
  }

  /// A save or completion that lands commits for its session.
  lemma WriteCommits(core: Core, sid: nat, s: Session, act: Act)
    requires HistoriesOk(core) && s.stage.Checked? && act.Execute? && act.fault == NoFault
    requires SessionOk(core, sid, s)
    requires s.op.Saves() ==> UpdateHits(core.db, s.stage.row.id, s.stage.row.updatedAt)
    requires s.op.Saves() || s.op.Complete?
    requires s.op.Complete? ==>
      CompleteOutcomeOf(core.db, s.target, act.outboxId, CompletionEvent(s.stage.row, act)) == Closed
    ensures var after := Apply(core, WriteOf(sid, s, act));
      Answered(after, sid, s, Edited(s.op, s.stage.row, act.now), |core.history[s.target]|)
  {
    var ch := WriteOf(sid, s, act);
    var h := core.history[s.target];
    var after := Apply(core, ch);
    assert after.history[s.target][..|h|] == h;
  }

  /// Only the history matters to a session.
  lemma SameHistory(core: Core, after: Core, sid: nat, s: Session)
    requires after.history == core.history && SessionOk(core, sid, s)
    ensures SessionOk(after, sid, s)
  {
    assert forall id, k :: Wrote(after, sid, id, k) == Wrote(core, sid, id, k);
    assert forall k :: CommittedAt(after, sid, s, k) == CommittedAt(core, sid, s, k);
    if s.stage.Done? && s.stage.result.Returned? && !s.op.ApplyCalculation? {
      var k :| Answered(core, sid, s, s.stage.result.a, k);
      assert Answered(after, sid, s, s.stage.result.a, k);
    }
  }

  lemma AddMoves(core: Core, s: Session, act: Act)
    requires s.stage.Checked? && act.Execute? && s.op.AddComparable?
    ensures var s' := NextSession(core, s, act);
      && s'.op == s.op && s'.target == s.target && s'.readAt == s.readAt
      && (s'.stage.Missed? || s'.stage == Done(Failed(Storage)) || (s'.stage.Done? && s'.stage.result.Added?))
      && (s'.stage.Missed? ==> s.target !in core.db.rows || core.db.rows[s.target].status != InProgress)
  {
  }

  lemma NoOpenParentMeansFinished(core: Core, s: Session)
    requires HistoriesOk(core) && s.stage.Checked? && Holds(core, s, s.stage.row)
    ensures s.target !in core.db.rows || core.db.rows[s.target].status != InProgress ==> Finished(core, s.target)
  {
    var h := core.history[s.target];
    assert h[|h| - 1].row == core.db.rows[s.target];
  }

  lemma DeleteMoves(core: Core, s: Session, act: Act)
    requires s.stage.Checked? && act.Execute? && s.op.DeleteComparable?
    ensures var s' := NextSession(core, s, act);
      && s'.op == s.op && s'.target == s.target && s'.readAt == s.readAt
      && s'.stage in {Done(Deleted), Done(Failed(NotFound)), Done(Failed(Storage))}
  {
  }

  /// A statement on the comparables leaves the session without a commit.
  lemma ComparableMoves(core: Core, sid: nat, s: Session, act: Act)
    requires HistoriesOk(core) && s.stage.Checked? && act.Execute? && SessionOk(core, sid, s)
    requires s.op.AddComparable? || s.op.DeleteComparable?
    ensures SessionOk(core, sid, NextSession(core, s, act))
    ensures Apply(core, WriteOf(sid, s, act)).history == core.history
  {
    if s.op.AddComparable? {
      AddMoves(core, s, act);
      NoOpenParentMeansFinished(core, s);
    } else {
      DeleteMoves(core, s, act);
    }
    assert NeverWrote(core, sid);
  }

  /// A write guard that fails on the copy an operation holds was overtaken by another commit.
  lemma MissMeansOvertaken(core: Core, s: Session, row: Appraisal)
    requires HistoriesOk(core) && Holds(core, s, row) && row.status == InProgress
    requires !UpdateHits(core.db, row.id, row.updatedAt) || core.db.rows[s.target].status != InProgress
    ensures s.readAt < |History(core, s.target)|
  {
    var h := core.history[s.target];
    assert h[|h| - 1].row == core.db.rows[s.target];
  }

  /// A write that hits no row, or whose transaction rolls back, leaves everything as it was.
  lemma MissChangesNothing(core: Core, sid: nat, s: Session, act: Act)
    requires s.stage.Checked? && act.Execute?
    requires s.op.Saves() || s.op.Complete?
    requires s.op.Saves() ==> !UpdateHits(core.db, s.stage.row.id, s.stage.row.updatedAt)
    requires s.op.Complete? ==>
      CompleteOutcomeOf(core.db, s.target, act.outboxId, CompletionEvent(s.stage.row, act)) != Closed
    ensures Apply(core, WriteOf(sid, s, act)) == core
  {
  }

  lemma SaveMisses(core: Core, sid: nat, s: Session, act: Act)
    requires HistoriesOk(core) && s.stage.Checked? && act.Execute? && SessionOk(core, sid, s)
    requires s.op.Saves() && !UpdateHits(core.db, s.stage.row.id, s.stage.row.updatedAt)
    ensures SessionOk(core, sid, NextSession(core, s, act))
  {
    MissMeansOvertaken(core, s, s.stage.row);
  }

  lemma CompletionMisses(core: Core, sid: nat, s: Session, act: Act)
    requires HistoriesOk(core) && s.stage.Checked? && act.Execute? && SessionOk(core, sid, s) && s.op.Complete?
    requires CompleteOutcomeOf(core.db, s.target, act.outboxId, CompletionEvent(s.stage.row, act)) != Closed
    ensures SessionOk(core, sid, NextSession(core, s, act))
  {
    assert s.target in core.history;
    if core.db.rows[s.target].status != InProgress {
      MissMeansOvertaken(core, s, s.stage.row);
    }
  }

  lemma HitAnswers(after: Core, db: Db, sid: nat, s: Session, act: Act, k: int, missedAt: nat)
    requires s.stage.Checked? && act.Execute? && act.fault == NoFault
    requires s.op.Saves() || s.op.Complete?
    requires s.op.Saves() ==> UpdateHits(db, s.stage.row.id, s.stage.row.updatedAt)
    requires s.op.Complete? ==>
      CompleteOutcomeOf(db, s.target, act.outboxId, CompletionEvent(s.stage.row, act)) == Closed
    requires Answered(after, sid, s, Edited(s.op, s.stage.row, act.now), k)
    ensures SessionOk(after, sid, s.(stage := AfterExecute(db, s, act), missedAt := missedAt))
  {
    var s' := s.(stage := AfterExecute(db, s, act), missedAt := missedAt);
    assert Answered(after, sid, s', Edited(s.op, s.stage.row, act.now), k);
    assert CommittedAt(after, sid, s', k);
  }

  lemma HitMoves(core: Core, sid: nat, s: Session, act: Act)
    requires HistoriesOk(core) && s.stage.Checked? && act.Execute? && act.fault == NoFault && SessionOk(core, sid, s)
    requires s.op.Saves() || s.op.Complete?
    requires s.op.Saves() ==> UpdateHits(core.db, s.stage.row.id, s.stage.row.updatedAt)
    requires s.op.Complete? ==>
      CompleteOutcomeOf(core.db, s.target, act.outboxId, CompletionEvent(s.stage.row, act)) == Closed
    ensures SessionOk(Apply(core, WriteOf(sid, s, act)), sid, NextSession(core, s, act))
  {
    WriteCommits(core, sid, s, act);
    HitAnswers(Apply(core, WriteOf(sid, s, act)), core.db, sid, s, act, |core.history[s.target]|,
      |History(core, s.target)|);
  }

  /// Moves before the write: the reads and the probe.
  lemma EarlyMoves(core: Core, sid: nat, s: Session, act: Act)
    requires HistoriesOk(core) && SessionOk(core, sid, s)
    requires s.stage.Start? || s.stage.GotRow? || s.stage.Checked? || s.stage.Missed?
    requires !(s.stage.Checked? && act.Execute?)
    ensures SessionOk(core, sid, NextSession(core, s, act))
  {
    if s.stage.Start? && s.target in core.db.rows {
      var h := core.history[s.target];
      assert h[|h| - 1].row == core.db.rows[s.target];
    } else if s.stage.GotRow? && s.stage.row.status == Completed {
      OneWay(core.history[s.target], s.readAt - 1, |core.history[s.target]| - 1);
    }
  }

  /// Moves of the clean-up after a saved calculation.
  lemma SyncMoves(core: Core, sid: nat, s: Session, act: Act)
    requires core.history.Keys == core.db.rows.Keys && SessionOk(core, sid, s)
    requires s.stage.Syncing? || s.stage.SyncRow? || s.stage.SyncChecked? || s.stage.SyncMissed?
    ensures SessionOk(core, sid, NextSession(core, s, act))
  {
    var k :| CommittedAt(core, sid, s, k);
    var s' := NextSession(core, s, act);
    assert CommittedAt(core, sid, s', k);
    assert s.target in core.db.rows;
  }

  lemma WriteMoves(core: Core, sid: nat, s: Session, act: Act)
    requires HistoriesOk(core) && s.stage.Checked? && act.Execute? && SessionOk(core, sid, s)
    ensures SessionOk(Apply(core, SessionChange(sid, s, act)), sid, NextSession(core, s, act))
  {
    if act.fault != NoFault {
      assert NextSession(core, s, act).stage == Done(Failed(Storage));
    } else if s.op.AddComparable? || s.op.DeleteComparable? {
      ComparableMoves(core, sid, s, act);
      SameHistory(core, Apply(core, WriteOf(sid, s, act)), sid, NextSession(core, s, act));
    } else if s.op.Saves() && UpdateHits(core.db, s.stage.row.id, s.stage.row.updatedAt) {
      HitMoves(core, sid, s, act);
    } else if s.op.Complete?
              && CompleteOutcomeOf(core.db, s.target, act.outboxId, CompletionEvent(s.stage.row, act)) == Closed {
      HitMoves(core, sid, s, act);
    } else {
      MissChangesNothing(core, sid, s, act);
      if s.op.Saves() {
        SaveMisses(core, sid, s, act);
      } else {
        CompletionMisses(core, sid, s, act);
      }
    }
  }

  lemma ActMoves(core: Core, sid: nat, s: Session, act: Act)
    requires HistoriesOk(core) && SessionOk(core, sid, s)
    ensures SessionOk(Apply(core, SessionChange(sid, s, act)), sid, NextSession(core, s, act))
  {
    var ch := SessionChange(sid, s, act);
    var s' := NextSession(core, s, act);
    if s.stage.Checked? && act.Execute? {
      WriteMoves(core, sid, s, act);
    } else {
      if s.stage.Done? {
        assert s' == s;
      } else if s.stage.Start? || s.stage.GotRow? || s.stage.Checked? || s.stage.Missed? {
        EarlyMoves(core, sid, s, act);
      } else {
        SyncMoves(core, sid, s, act);
      }
      SameHistory(core, Apply(core, ch), sid, s');
    }
  }

  /// The session that commits keeps its request and what it had read.
  lemma NewAuthorKnown(w: World, l: Label)
    requires Enabled(w, l) && l.Proceed? && l.sid in w.sessions && w.sessions[l.sid].stage.Checked? && l.act.Execute?
    ensures l.sid in NextSessions(w, l)
    ensures var s, s' := w.sessions[l.sid], NextSessions(w, l)[l.sid];
      s'.op == s.op && s'.target == s.target && s'.readAt == s.readAt
  {
  }

  /// A session that has committed does not read its row again, and keeps its request.
  lemma KnownStays(w: World, l: Label, id: Uuid, k: int)
    requires Inv(w) && Enabled(w, l) && AuthorAt(w.core, id, k)
    ensures var sid := w.core.history[id][k].author.value.sid;
      && sid in w.sessions && sid in NextSessions(w, l)
      && NextSessions(w, l)[sid].op == w.sessions[sid].op
      && NextSessions(w, l)[sid].target == w.sessions[sid].target
      && NextSessions(w, l)[sid].readAt == w.sessions[sid].readAt
  {
    var sid := w.core.history[id][k].author.value.sid;
    assert Wrote(w.core, sid, id, k);
    assert SessionOk(w.core, sid, w.sessions[sid]);
    assert !w.sessions[sid].stage.Start?;
  }

  lemma KeepsAuthorsKnown(dedup: bool, w: World, l: Label)
    requires Inv(w) && Enabled(w, l)
    ensures AuthorsKnown(Take(dedup, w, l))
  {
    var ch := ChangeOf(w, l);
    SoundStep(w, l);
    ChangeAuthor(w, l);
    forall id, k | AuthorAt(Apply(w.core, ch), id, k)
      ensures var who := Apply(w.core, ch).history[id][k].author.value;
        who.sid in NextSessions(w, l) && NextSessions(w, l)[who.sid].op == who.op &&
        NextSessions(w, l)[who.sid].target == id && NextSessions(w, l)[who.sid].readAt == who.readAt
    {
      AuthorOrigin(w.core, ch, id, k);
      if AuthorAt(w.core, id, k) {
        KnownStays(w, l, id, k);
      } else {
        NewAuthorKnown(w, l);
      }
    }
  }

  lemma KeepsSessions(dedup: bool, w: World, l: Label)
    requires Inv(w) && Enabled(w, l)
    ensures SessionsOk(Take(dedup, w, l))
  {
    var ch := ChangeOf(w, l);
    SoundStep(w, l);
    ChangeAuthor(w, l);
    forall sid | sid in NextSessions(w, l) ensures SessionOk(Apply(w.core, ch), sid, NextSessions(w, l)[sid]) {
      if l.Proceed? && l.sid == sid {
        ActMoves(w.core, sid, w.sessions[sid], l.act);
      } else if sid in w.sessions {
        StaysOk(w.core, ch, sid, w.sessions[sid]);
      } else {
        assert NeverWrote(w.core, sid);
      }
    }
  }

  lemma InvKept(dedup: bool, w: World, l: Label)
    requires Inv(w)
    ensures Inv(StepWith(dedup, w, l)) && Grows(w.core, StepWith(dedup, w, l).core)
  {
    if Enabled(w, l) {
      SoundStep(w, l);
      CoreInvKept(w.core, ChangeOf(w, l));
      KeepsSessions(dedup, w, l);
      KeepsAuthorsKnown(dedup, w, l);
    }
  }

  lemma {:induction false} InvRun(dedup: bool, w: World, schedule: seq<Label>)
    requires Inv(w)
    ensures Inv(RunWith(dedup, w, schedule)) && Grows(w.core, RunWith(dedup, w, schedule).core)
  {
    if schedule != [] {
      var before := schedule[..|schedule| - 1];
      InvRun(dedup, w, before);
      InvKept(dedup, RunWith(dedup, w, before), schedule[|schedule| - 1]);
      GrowsTransitive(w.core, RunWith(dedup, w, before).core, RunWith(dedup, w, schedule).core);
    }
  }

  lemma InvReachable(schedule: seq<Label>)
    ensures Inv(Run(INITIAL, schedule))
  {
    InvRun(true, INITIAL, schedule);
  }
}
