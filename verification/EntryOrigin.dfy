/// Where the comparables come from, and when those of an appraisal are exactly the entries of the calculation
/// that its row holds.

module EntryOrigin {
  import opened Domain
  import opened Tables
  import opened Machine
  import opened SessionInvariant

  // ---------- Every comparable was asked for ----------

  /// Session sid asked for this comparable: a caller added it, or it is an entry of a committed calculation of
  /// the same appraisal.
  ghost predicate AskedFor(w: World, sid: nat, c: Comparable) {
    && sid in w.sessions
    && var s := w.sessions[sid];
    && s.target == c.appraisalId
    && (s.op == AddComparable(c.data)
        || (s.op.ApplyCalculation? && c.data in s.op.entries && Committed(w.core, sid, s)))
  }

  ghost predicate Sourced(w: World, c: Comparable) {
    exists sid :: AskedFor(w, sid, c)
  }

  /// The entries a session still has to add.
  function Pending(st: Stage): seq<ComparableData> {
    match st
    case Syncing(_, add) => add
    case SyncRow(_, add) => add
    case SyncChecked(add) => add
    case SyncMissed(add) => add
    case _ => []
  }

  ghost predicate PendingOk(s: Session) {
    forall d :: d in Pending(s.stage) ==> s.op.ApplyCalculation? && d in s.op.entries
  }

  ghost predicate SourcesOk(w: World) {
    && (forall sid | sid in w.sessions :: PendingOk(w.sessions[sid]))
    && (forall c | c in w.core.db.comparables :: Sourced(w, w.core.db.comparables[c]))
  }

  lemma PendingShrinks(core: Core, s: Session, act: Act)
    requires PendingOk(s)
    ensures PendingOk(NextSession(core, s, act))
    ensures NextSession(core, s, act).op == s.op && NextSession(core, s, act).target == s.target
  {
    var add, add' := Pending(s.stage), Pending(NextSession(core, s, act).stage);
    assert s.stage.Checked? || add' == add || add' == [] || (add != [] && add' == add[1..]);
    forall d | d in add' && !s.stage.Checked? ensures d in add {
      var i :| 0 <= i < |add'| && add'[i] == d;
      assert add' == add || add[i + 1] == d;
    }
  }

  /// A session that has committed keeps its commit.
  lemma CommitStays(w: World, l: Label, sid: nat)
    requires Inv(w) && sid in w.sessions && Committed(w.core, sid, w.sessions[sid])
    ensures var w' := Step(w, l); sid in w'.sessions && Committed(w'.core, sid, w'.sessions[sid])
  {
    var k :| CommittedAt(w.core, sid, w.sessions[sid], k);
    InvKept(true, w, l);
    if Enabled(w, l) {
      KnownStays(w, l, w.sessions[sid].target, k);
    }
    var w' := Step(w, l);
    StaysCommitted(w.core, w'.core, sid, w.sessions[sid], k);
    assert CommittedAt(w'.core, sid, w'.sessions[sid], k);
  }

  lemma SourceStays(w: World, l: Label, sid: nat, c: Comparable)
    requires Inv(w) && SourcesOk(w) && AskedFor(w, sid, c)
    ensures Sourced(Step(w, l), c)
  {
    var s := w.sessions[sid];
    if l.Proceed? && l.sid == sid && Enabled(w, l) {
      PendingShrinks(w.core, s, l.act);
    }
    if s.op.ApplyCalculation? {
      CommitStays(w, l, sid);
    }
    assert AskedFor(Step(w, l), sid, c);
  }

  lemma NewIsAdded(core: Core, ch: Change, c: Uuid)
    requires c in Apply(core, ch).db.comparables && c !in core.db.comparables
    ensures ch.AddRow? && Apply(core, ch).db.comparables[c] == ch.c
  {
  }

  lemma AdderAskedFor(w: World, l: Label)
    requires SessionsOk(w) && SourcesOk(w) && ChangeOf(w, l).AddRow?
    ensures AskedFor(w, l.sid, ChangeOf(w, l).c)
  {
    var s := w.sessions[l.sid];
    assert SessionOk(w.core, l.sid, s) && PendingOk(s);
    assert s.stage.SyncChecked? ==> s.stage.add[0] in Pending(s.stage);
  }

  /// A new comparable comes from the session that inserts it.
  lemma NewIsSourced(w: World, l: Label, c: Uuid)
    requires SessionsOk(w) && SourcesOk(w) && Enabled(w, l)
    requires c in Step(w, l).core.db.comparables && c !in w.core.db.comparables
    ensures Sourced(w, Step(w, l).core.db.comparables[c])
  {
    var ch := ChangeOf(w, l);
    NewIsAdded(w.core, ch, c);
    AdderAskedFor(w, l);
  }

  lemma KeptUnchanged(core: Core, ch: Change, c: Uuid)
    requires c in core.db.comparables && c in Apply(core, ch).db.comparables
    ensures Apply(core, ch).db.comparables[c] == core.db.comparables[c]
  {
  }

  lemma SourcesKept(w: World, l: Label)
    requires Inv(w) && SourcesOk(w)
    ensures SourcesOk(Step(w, l))
  {
    if Enabled(w, l) {
      var w' := Step(w, l);
      forall sid | sid in w'.sessions ensures PendingOk(w'.sessions[sid]) {
        if l.Proceed? && l.sid == sid {
          PendingShrinks(w.core, w.sessions[sid], l.act);
        }
      }
      forall c | c in w'.core.db.comparables ensures Sourced(w', w'.core.db.comparables[c]) {
        if c in w.core.db.comparables {
          KeptUnchanged(w.core, ChangeOf(w, l), c);
        } else {
          NewIsSourced(w, l, c);
        }
        var sid :| AskedFor(w, sid, w'.core.db.comparables[c]);
        SourceStays(w, l, sid, w'.core.db.comparables[c]);
      }
    }
  }

  lemma {:induction false} SourcesReachable(schedule: seq<Label>)
    ensures Inv(Run(INITIAL, schedule)) && SourcesOk(Run(INITIAL, schedule))
  {
    InvReachable(schedule);
    if schedule != [] {
      var before := schedule[..|schedule| - 1];
      SourcesReachable(before);
      SourcesKept(Run(INITIAL, before), schedule[|schedule| - 1]);
    }
  }

  /// Under every interleaving each comparable was added by a caller of its appraisal, or is an entry of a
  /// calculation that was committed on its appraisal.
  lemma ComparablesSourced(schedule: seq<Label>, c: Uuid) returns (sid: nat)
    requires c in Run(INITIAL, schedule).core.db.comparables
    ensures AskedFor(Run(INITIAL, schedule), sid, Run(INITIAL, schedule).core.db.comparables[c])
  {
    SourcesReachable(schedule);
    sid :| AskedFor(Run(INITIAL, schedule), sid, Run(INITIAL, schedule).core.db.comparables[c]);
  }

  // ---------- A calculation that is left alone ----------

  /// A step that leaves an appraisal to session sid: the others do not touch its row or its comparables, and
  /// the session's own statements do not fail and insert under an unused id.
  ghost predicate Calm(w: World, l: Label, sid: nat, id: Uuid) {
    if l.Proceed? && l.sid == sid then
      match l.act
      case SelectRow(fault) => fault == NoFault
      case SelectComparables(_, fault) => fault == NoFault
      case Execute(_, freshId, _, _, fault) => fault == NoFault && freshId !in w.core.db.comparables
      case Probe(fault) => fault == NoFault
      case GiveUp(_) => false
    else
      var db, db' := w.core.db, Step(w, l).core.db;
      && ComparablesOf(db', id) == ComparablesOf(db, id)
      && (id in db.rows ==> id in db'.rows && db'.rows[id] == db.rows[id])
  }

  ghost predicate CalmRun(w: World, labels: seq<Label>, sid: nat, id: Uuid)
    decreases |labels|
  {
    labels == [] || (Calm(w, labels[0], sid, id) && CalmRun(Step(w, labels[0]), labels[1..], sid, id))
  }

  /// The comparables are those of `del` that are left, and one for each of these entries.
  ghost predicate Holding(have: map<Uuid, Comparable>, del: seq<Uuid>, entries: seq<ComparableData>, ids: seq<Uuid>) {
    && |ids| == |entries|
    && (forall i, j :: 0 <= i < j < |ids| ==> ids[i] != ids[j])
    && (forall i :: 0 <= i < |ids| ==> ids[i] in have && ids[i] !in del && have[ids[i]].data == entries[i])
    && (forall c :: c in have ==> c in ids || c in del)
  }

  /// The comparables are exactly the entries, one each.
  ghost predicate Exactly(have: map<Uuid, Comparable>, entries: seq<ComparableData>) {
    exists ids :: Holding(have, [], entries, ids)
  }

  /// How far the session has come: its row carries the calculation, and what it has added stands for the
  /// entries it no longer has to add.
  ghost predicate Underway(w: World, sid: nat, id: Uuid, done: seq<ComparableData>, ids: seq<Uuid>) {
    && sid in w.sessions && id in w.core.db.rows
    && var s := w.sessions[sid]; var row := w.core.db.rows[id];
    && s.target == id && s.op.ApplyCalculation?
    && row.status == InProgress
    && row.calculationData == Some(s.op.calculation) && row.marketValue == Some(s.op.marketValue)
    && var del := if s.stage.Syncing? then s.stage.del else [];
    && Holding(ComparablesOf(w.core.db, id), del, done, ids)
    && s.op.entries == done + Pending(s.stage)
    && match s.stage
       case Syncing(_, _) => true
       case SyncRow(r, _) => r.status == InProgress
       case SyncChecked(add) => add != []
       case Done(_) => true
       case _ => false
  }

  /// The clean-up has deleted one more of the old comparables.
  lemma DeletedOne(have: map<Uuid, Comparable>, del: seq<Uuid>, entries: seq<ComparableData>, ids: seq<Uuid>)
    requires del != [] && Holding(have, del, entries, ids)
    ensures Holding(have - {del[0]}, del[1..], entries, ids)
  {
    assert del == [del[0]] + del[1..];
    assert forall d :: d in del[1..] ==> d in del;
  }

  /// The clean-up has added one more entry.
  lemma AddedOne(have: map<Uuid, Comparable>, c: Comparable, entries: seq<ComparableData>, ids: seq<Uuid>)
    requires Holding(have, [], entries, ids) && c.id !in have
    ensures Holding(have[c.id := c], [], entries + [c.data], ids + [c.id])
  {
  }

  lemma DropOf(db: Db, id: Uuid, c: Uuid)
    ensures ComparablesOf(DbDeleteComparable(db, id, c), id) == ComparablesOf(db, id) - {c}
  {
  }

  lemma AddOf(db: Db, c: Comparable)
    requires AddOutcomeOf(db, c) == Inserted
    ensures ComparablesOf(DbAddComparable(db, c), c.appraisalId) == ComparablesOf(db, c.appraisalId)[c.id := c]
  {
  }

  /// The clean-up's own statements.
  lemma OwnStep(w: World, l: Label, sid: nat, id: Uuid, done: seq<ComparableData>, ids: seq<Uuid>)
    returns (done': seq<ComparableData>, ids': seq<Uuid>)
    requires Underway(w, sid, id, done, ids) && Calm(w, l, sid, id) && l.Proceed? && l.sid == sid && Enabled(w, l)
    ensures Underway(Step(w, l), sid, id, done', ids')
  {
    var s := w.sessions[sid];
    var db := w.core.db;
    done', ids' := done, ids;
    if l.act.Execute? && s.stage.Syncing? && s.stage.del != [] {
      DeletedOne(ComparablesOf(db, id), s.stage.del, done, ids);
      DropOf(db, id, s.stage.del[0]);
    } else if l.act.Execute? && s.stage.SyncChecked? {
      var c := Comparable(l.act.freshId, id, s.stage.add[0], l.act.now);
      AddedOne(ComparablesOf(db, id), c, done, ids);
      AddOf(db, c);
      done', ids' := done + [c.data], ids + [c.id];
      assert done + s.stage.add == done' + s.stage.add[1..];
    }
  }

  lemma OthersStep(w: World, l: Label, sid: nat, id: Uuid, done: seq<ComparableData>, ids: seq<Uuid>)
    requires Underway(w, sid, id, done, ids) && Calm(w, l, sid, id) && !(l.Proceed? && l.sid == sid)
    ensures Underway(Step(w, l), sid, id, done, ids)
  {
    assert Enabled(w, l) ==> Step(w, l).sessions[sid] == w.sessions[sid];
  }

  lemma {:induction false} UnderwayAlong(w: World, labels: seq<Label>, sid: nat, id: Uuid, done: seq<ComparableData>,
                                         ids: seq<Uuid>)
    returns (done': seq<ComparableData>, ids': seq<Uuid>)
    requires Underway(w, sid, id, done, ids) && CalmRun(w, labels, sid, id)
    ensures Underway(Run(w, labels), sid, id, done', ids')
    decreases |labels|
  {
    done', ids' := done, ids;
    if labels != [] {
      var l := labels[0];
      if l.Proceed? && l.sid == sid {
        if Enabled(w, l) {
          done', ids' := OwnStep(w, l, sid, id, done, ids);
        }
      } else {
        OthersStep(w, l, sid, id, done, ids);
      }
      done', ids' := UnderwayAlong(Step(w, l), labels[1..], sid, id, done', ids');
      RunConcat(true, w, [l], labels[1..]);
      RunOne(true, w, l);
      assert labels == [l] + labels[1..];
    }
  }

  /// The save of a calculation whose copy and list of comparables are current.
  ghost predicate CurrentCopy(w: World, sid: nat, id: Uuid) {
    && sid in w.sessions && id in w.core.db.rows
    && var s := w.sessions[sid];
    && s.target == id && s.op.ApplyCalculation? && s.stage.Checked?
    && s.stage.row == w.core.db.rows[id]
    && s.stage.row.id == id && s.stage.row.status == InProgress
    && IsListing(w.core.db, id, s.stage.comparables)
  }

  lemma SaveBegins(w: World, sid: nat, id: Uuid, now: Stamp)
    requires CurrentCopy(w, sid, id)
    ensures Underway(Step(w, Proceed(sid, Execute(now, 0, 0, 0, NoFault))), sid, id, [], [])
  {
    var s := w.sessions[sid];
    var w' := Step(w, Proceed(sid, Execute(now, 0, 0, 0, NoFault)));
    assert w'.sessions[sid].stage == Syncing(Ids(s.stage.comparables), s.op.entries);
    assert ComparablesOf(w'.core.db, id) == ComparablesOf(w.core.db, id);
    forall c | c in ComparablesOf(w.core.db, id) ensures c in Ids(s.stage.comparables) {
      var i :| 0 <= i < |s.stage.comparables| && s.stage.comparables[i].id == c;
      assert Ids(s.stage.comparables)[i] == c;
    }
    assert [] + s.op.entries == s.op.entries;
  }

  /// A session keeps what it was asked.
  lemma {:induction false} RequestStays(w: World, labels: seq<Label>, sid: nat)
    requires sid in w.sessions
    ensures sid in Run(w, labels).sessions && Run(w, labels).sessions[sid].op == w.sessions[sid].op
  {
    if labels != [] {
      RequestStays(w, labels[..|labels| - 1], sid);
    }
  }

  /// If a calculation saves on a current copy, and from then on its appraisal is left to it and none of its
  /// statements fails, then whenever it is done the row holds that calculation and the comparables are
  /// exactly its entries, whatever happens to other appraisals in between.
  lemma LeftAloneIsExact(w: World, sid: nat, id: Uuid, now: Stamp, labels: seq<Label>)
    requires CurrentCopy(w, sid, id)
    requires CalmRun(Step(w, Proceed(sid, Execute(now, 0, 0, 0, NoFault))), labels, sid, id)
    ensures var w' := Run(Step(w, Proceed(sid, Execute(now, 0, 0, 0, NoFault))), labels);
      sid in w'.sessions && id in w'.core.db.rows
      && (w'.sessions[sid].stage.Done? ==>
            && w'.core.db.rows[id].calculationData == Some(w.sessions[sid].op.calculation)
            && w'.core.db.rows[id].marketValue == Some(w.sessions[sid].op.marketValue)
            && Exactly(ComparablesOf(w'.core.db, id), w.sessions[sid].op.entries))
  {
    var saved := Step(w, Proceed(sid, Execute(now, 0, 0, 0, NoFault)));
    SaveBegins(w, sid, id, now);
    var done, ids := UnderwayAlong(saved, labels, sid, id, [], []);
    RequestStays(saved, labels, sid);
    assert done + [] == done;
  }
}
