/// The comparables of a completed appraisal: they never grow, and exactly when they can still shrink.

module ComparableFreeze {
  import opened Domain
  import opened Tables
  import opened Machine
  import opened CoreInvariant
  import opened SessionInvariant
  import opened Lifecycle
  import opened Stores

  // ---------- Who can still remove a comparable ----------

  /// The session passed, or is bound to pass, its status check with a copy from before the completion.
  predicate PassedCheck(s: Session) {
    s.stage.Checked? || (s.stage.GotRow? && s.stage.row.status == InProgress)
  }

  predicate Hits(ids: seq<Uuid>, have: map<Uuid, Comparable>) {
    exists i :: 0 <= i < |ids| && ids[i] in have
  }

  /// A delete still to come, of a caller or of a calculation's clean-up, names a comparable the appraisal has.
  predicate WillDelete(s: Session, id: Uuid, have: map<Uuid, Comparable>) {
    && s.target == id
    && if s.stage.Syncing? then Hits(s.stage.del, have)
       else PassedCheck(s) && s.op.DeleteComparable? && s.op.comparableId in have
  }

  /// A calculation that would replace some of the comparables, if its save lands.
  predicate WouldReplace(s: Session, id: Uuid, have: map<Uuid, Comparable>) {
    && s.target == id
    && s.op.ApplyCalculation?
    && PassedCheck(s)
    && if s.stage.Checked? then Hits(Ids(s.stage.comparables), have) else have != map[]
  }

  /// A save that lands if the row carries this stamp.
  predicate CanSave(s: Session, id: Uuid, stamp: Stamp) {
    s.target == id && s.op.Saves() && PassedCheck(s) && s.stage.row.updatedAt == stamp
  }

  ghost predicate SomeoneWillDelete(w: World, id: Uuid) {
    exists sid :: sid in w.sessions && WillDelete(w.sessions[sid], id, ComparablesOf(w.core.db, id))
  }

  ghost predicate SomeoneWouldReplace(w: World, id: Uuid) {
    exists sid :: sid in w.sessions && WouldReplace(w.sessions[sid], id, ComparablesOf(w.core.db, id))
  }

  ghost predicate SomeoneCanSave(w: World, id: Uuid)
    requires id in w.core.db.rows
  {
    exists sid :: sid in w.sessions && CanSave(w.sessions[sid], id, w.core.db.rows[id].updatedAt)
  }

  /// Some comparable can still go. The save that lets a replacement through may be another session's: it may
  /// write the very stamp that the replacing session holds.
  ghost predicate Threatened(w: World, id: Uuid)
    requires id in w.core.db.rows
  {
    SomeoneWillDelete(w, id) || (SomeoneWouldReplace(w, id) && SomeoneCanSave(w, id))
  }

  ghost predicate CompletedIn(w: World, id: Uuid) {
    id in w.core.db.rows && w.core.db.rows[id].status == Completed
  }

  // ---------- One step ----------

  /// The step executes a delete, of a caller or of a calculation's clean-up, that finds its comparable.
  predicate Removes(w: World, l: Label, id: Uuid) {
    && l.Proceed? && l.sid in w.sessions && l.act.Execute? && l.act.fault != Lost
    && var s := w.sessions[l.sid];
    && s.target == id
    && if s.stage.Syncing? then s.stage.del != [] && s.stage.del[0] in ComparablesOf(w.core.db, id)
       else s.stage.Checked? && s.op.DeleteComparable? && s.op.comparableId in ComparablesOf(w.core.db, id)
  }

  predicate Shrinks(a: map<Uuid, Comparable>, b: map<Uuid, Comparable>) {
    forall c :: c in b ==> c in a && b[c] == a[c]
  }

  predicate Drops(db: Db, ch: Change, id: Uuid) {
    ch.DropRow? && ch.appraisalId == id && ch.comparableId in ComparablesOf(db, id)
  }

  lemma ChangeDropsIff(core: Core, ch: Change, id: Uuid)
    requires id in core.db.rows && core.db.rows[id].status == Completed
    ensures ComparablesOf(Apply(core, ch).db, id) != ComparablesOf(core.db, id) <==> Drops(core.db, ch, id)
    ensures Shrinks(ComparablesOf(core.db, id), ComparablesOf(Apply(core, ch).db, id))
  {
    if Drops(core.db, ch, id) {
      assert ch.comparableId !in ComparablesOf(Apply(core, ch).db, id);
    } else {
      assert ComparablesOf(Apply(core, ch).db, id) == ComparablesOf(core.db, id);
    }
  }

  lemma DropsIff(w: World, l: Label, id: Uuid)
    requires SessionsOk(w)
    ensures Drops(w.core.db, ChangeOf(w, l), id) <==> Removes(w, l, id)
  {
    if l.Proceed? && l.sid in w.sessions {
      assert SessionOk(w.core, l.sid, w.sessions[l.sid]);
    }
  }

  /// A step changes the comparables of a completed appraisal if and only if it executes a delete that hits.
  lemma StepRemovesIff(w: World, l: Label, id: Uuid)
    requires SessionsOk(w) && CompletedIn(w, id)
    ensures ComparablesOf(Step(w, l).core.db, id) != ComparablesOf(w.core.db, id) <==> Removes(w, l, id)
    ensures Shrinks(ComparablesOf(w.core.db, id), ComparablesOf(Step(w, l).core.db, id))
  {
    if Enabled(w, l) {
      ChangeDropsIff(w.core, ChangeOf(w, l), id);
      DropsIff(w, l, id);
    }
  }

  // ---------- Without a threat nothing changes ----------

  /// A session that moves gets no new chance to replace or save, and one to delete only from a save that lands.
  lemma ChancesAreOld(core: Core, sid: nat, s: Session, act: Act, id: Uuid)
    requires HistoriesOk(core) && SessionOk(core, sid, s) && ActEnabled(core.db, s, act)
    requires id in core.db.rows && core.db.rows[id].status == Completed
    ensures var s' := NextSession(core, s, act); var have := ComparablesOf(core.db, id);
      && (WouldReplace(s', id, have) ==> WouldReplace(s, id, have))
      && (forall stamp :: CanSave(s', id, stamp) ==> CanSave(s, id, stamp))
      && (WillDelete(s', id, have) ==>
            WillDelete(s, id, have) || (WouldReplace(s, id, have) && CanSave(s, id, core.db.rows[id].updatedAt)))
  {
  }

  lemma SaverCanSave(core: Core, sid: nat, s: Session, act: Act, id: Uuid)
    requires HistoriesOk(core) && SessionOk(core, sid, s)
    requires var ch := SessionChange(sid, s, act); ch.Save? && ch.a.id == id && UpdateHits(core.db, id, ch.prev)
    ensures CanSave(s, id, core.db.rows[id].updatedAt)
  {
  }

  lemma ChangeKeepsRow(core: Core, ch: Change, id: Uuid)
    requires id in core.db.rows && core.db.rows[id].status == Completed
    ensures var db' := Apply(core, ch).db;
      && id in db'.rows && db'.rows[id].status == Completed
      && (!(ch.Save? && ch.a.id == id && UpdateHits(core.db, id, ch.prev)) ==> db'.rows[id] == core.db.rows[id])
  {
  }

  /// A completed row changes only by a save that carries its stamp.
  lemma RowStays(w: World, l: Label, id: Uuid)
    requires HistoriesOk(w.core) && SessionsOk(w) && CompletedIn(w, id)
    ensures CompletedIn(Step(w, l), id)
    ensures !SomeoneCanSave(w, id) ==> Step(w, l).core.db.rows[id] == w.core.db.rows[id]
  {
    if Enabled(w, l) {
      ChangeKeepsRow(w.core, ChangeOf(w, l), id);
      var ch := ChangeOf(w, l);
      if ch.Save? && ch.a.id == id && UpdateHits(w.core.db, id, ch.prev) {
        assert SessionOk(w.core, l.sid, w.sessions[l.sid]);
        SaverCanSave(w.core, l.sid, w.sessions[l.sid], l.act, id);
      }
    }
  }

  /// Every chance after a step was a chance before it, or comes from a save that lands.
  lemma ChancesBefore(w: World, l: Label, id: Uuid, sid: nat)
    requires HistoriesOk(w.core) && SessionsOk(w) && CompletedIn(w, id) && Enabled(w, l)
    requires sid in NextSessions(w, l)
    ensures var s := NextSessions(w, l)[sid]; var have := ComparablesOf(w.core.db, id);
      && (WouldReplace(s, id, have) ==> SomeoneWouldReplace(w, id))
      && (CanSave(s, id, w.core.db.rows[id].updatedAt) ==> SomeoneCanSave(w, id))
      && (WillDelete(s, id, have) ==> Threatened(w, id))
  {
    if sid in w.sessions {
      assert SessionOk(w.core, sid, w.sessions[sid]);
      if l.Proceed? && l.sid == sid {
        ChancesAreOld(w.core, sid, w.sessions[sid], l.act, id);
      }
    }
  }

  lemma RemoverWillDelete(w: World, l: Label, id: Uuid)
    requires Removes(w, l, id)
    ensures SomeoneWillDelete(w, id)
  {
    var s := w.sessions[l.sid];
    assert s.stage.Syncing? ==> s.stage.del[0] in ComparablesOf(w.core.db, id);
    assert WillDelete(s, id, ComparablesOf(w.core.db, id));
  }

  lemma NothingRemoved(w: World, l: Label, id: Uuid)
    requires SessionsOk(w) && CompletedIn(w, id) && !SomeoneWillDelete(w, id)
    ensures ComparablesOf(Step(w, l).core.db, id) == ComparablesOf(w.core.db, id)
  {
    StepRemovesIff(w, l, id);
    if ComparablesOf(Step(w, l).core.db, id) != ComparablesOf(w.core.db, id) {
      RemoverWillDelete(w, l, id);
    }
  }

  /// Without a threat a step changes nothing and brings no threat.
  lemma NoThreatStep(w: World, l: Label, id: Uuid)
    requires HistoriesOk(w.core) && SessionsOk(w) && CompletedIn(w, id) && !Threatened(w, id)
    ensures var w' := Step(w, l);
      CompletedIn(w', id) && !Threatened(w', id) && ComparablesOf(w'.core.db, id) == ComparablesOf(w.core.db, id)
  {
    if Enabled(w, l) {
      var w' := Step(w, l);
      RowStays(w, l, id);
      NothingRemoved(w, l, id);
      forall sid | sid in w'.sessions
        ensures !WillDelete(w'.sessions[sid], id, ComparablesOf(w'.core.db, id))
        ensures WouldReplace(w'.sessions[sid], id, ComparablesOf(w'.core.db, id)) ==> SomeoneWouldReplace(w, id)
        ensures CanSave(w'.sessions[sid], id, w.core.db.rows[id].updatedAt) ==> SomeoneCanSave(w, id)
      {
        ChancesBefore(w, l, id, sid);
      }
    }
  }

  /// The comparables only shrink, and without a threat they stay for ever.
  ghost predicate Settles(w: World, w': World, id: Uuid)
    requires id in w.core.db.rows
  {
    && CompletedIn(w', id)
    && Shrinks(ComparablesOf(w.core.db, id), ComparablesOf(w'.core.db, id))
    && (!Threatened(w, id) ==> ComparablesOf(w'.core.db, id) == ComparablesOf(w.core.db, id) && !Threatened(w', id))
  }

  lemma SettlesStep(w: World, v: World, l: Label, id: Uuid)
    requires HistoriesOk(v.core) && SessionsOk(v) && CompletedIn(w, id) && Settles(w, v, id)
    ensures Settles(w, Step(v, l), id)
  {
    RowStays(v, l, id);
    StepRemovesIff(v, l, id);
    if !Threatened(v, id) {
      NoThreatStep(v, l, id);
    }
  }

  lemma SettlesSnoc(w: World, schedule: seq<Label>, l: Label, id: Uuid)
    requires CompletedIn(w, id) && Settles(w, Run(INITIAL, schedule), id)
    ensures Settles(w, Run(INITIAL, schedule + [l]), id)
  {
    InvReachable(schedule);
    SettlesStep(w, Run(INITIAL, schedule), l, id);
    RunSnoc(schedule, l);
  }

  /// After completion an appraisal's comparables never grow, and once no operation that checked the status
  /// before the completion threatens one, they are constant for ever.
  lemma {:induction false} ComparablesSettle(first: seq<Label>, second: seq<Label>, id: Uuid)
    requires CompletedIn(Run(INITIAL, first), id)
    ensures Settles(Run(INITIAL, first), Run(INITIAL, first + second), id)
    decreases |second|
  {
    if second == [] {
      assert first + second == first;
    } else {
      var before, l := second[..|second| - 1], second[|second| - 1];
      ComparablesSettle(first, before, id);
      SettlesSnoc(Run(INITIAL, first), first + before, l, id);
      assert first + second == (first + before) + [l];
    }
  }

  // ---------- Every threat can come true ----------

  /// Some continuation changes the comparables.
  ghost predicate CanLose(w: World, id: Uuid) {
    exists labels :: ComparablesOf(Run(w, labels).core.db, id) != ComparablesOf(w.core.db, id)
  }

  lemma LosesNow(w: World, l: Label, id: Uuid)
    requires ComparablesOf(Step(w, l).core.db, id) != ComparablesOf(w.core.db, id)
    ensures CanLose(w, id)
  {
    RunOne(true, w, l);
    assert ComparablesOf(Run(w, [l]).core.db, id) != ComparablesOf(w.core.db, id);
  }

  lemma LosesLater(w: World, l: Label, id: Uuid)
    requires ComparablesOf(Step(w, l).core.db, id) == ComparablesOf(w.core.db, id) && CanLose(Step(w, l), id)
    ensures CanLose(w, id)
  {
    var labels :| ComparablesOf(Run(Step(w, l), labels).core.db, id) != ComparablesOf(Step(w, l).core.db, id);
    RunConcat(true, w, [l], labels);
    RunOne(true, w, l);
    assert ComparablesOf(Run(w, [l] + labels).core.db, id) != ComparablesOf(w.core.db, id);
  }

  lemma {:induction false} OldestExists(all: map<Uuid, Comparable>, keys: set<Uuid>) returns (oldest: Uuid)
    requires keys != {} && keys <= all.Keys
    ensures oldest in keys && forall c :: c in keys ==> all[oldest].createdAt <= all[c].createdAt
    decreases |keys|
  {
    oldest :| oldest in keys;
    if keys != {oldest} {
      var best := OldestExists(all, keys - {oldest});
      if all[best].createdAt < all[oldest].createdAt {
        oldest := best;
      }
    }
  }

  lemma {:induction false} FinishListing(all: map<Uuid, Comparable>, remaining: set<Uuid>, list: seq<Comparable>)
    returns (whole: seq<Comparable>)
    requires remaining <= all.Keys && Listed(all, remaining, list)
    requires forall c :: c in all ==> all[c].id == c
    ensures Listed(all, {}, whole)
    decreases |remaining|
  {
    if remaining == {} {
      return list;
    }
    var oldest := OldestExists(all, remaining);
    ListOne(all, remaining, list, oldest);
    whole := FinishListing(all, remaining - {oldest}, list + [all[oldest]]);
  }

  /// The comparables of an appraisal can always be listed.
  lemma ListingExists(db: Db, id: Uuid) returns (list: seq<Comparable>)
    requires ForeignKeys(db)
    ensures IsListing(db, id, list)
  {
    list := FinishListing(ComparablesOf(db, id), ComparablesOf(db, id).Keys, []);
  }

  /// The copy a session holds is of its own row.
  predicate OwnCopy(s: Session) {
    PassedCheck(s) ==> s.stage.row.id == s.target
  }

  /// The second read of an operation that got its row in progress.
  lemma Prepared(w: World, sid: nat) returns (l: Label)
    requires ForeignKeys(w.core.db) && sid in w.sessions
    requires w.sessions[sid].stage.GotRow? && w.sessions[sid].stage.row.status == InProgress
    ensures var w' := Step(w, l); var s := w.sessions[sid];
      && w'.core == w.core
      && sid in w'.sessions
      && w' == w.(sessions := w.sessions[sid := w'.sessions[sid]])
      && w'.sessions[sid].stage.Checked?
      && w'.sessions[sid] == s.(stage := Checked(s.stage.row, w'.sessions[sid].stage.comparables))
      && IsListing(w.core.db, s.target, w'.sessions[sid].stage.comparables)
  {
    var list := ListingExists(w.core.db, w.sessions[sid].target);
    l := Proceed(sid, SelectComparables(list, NoFault));
  }

  const WRITE := Execute(0, 0, 0, 0, NoFault)

  lemma DeleteStep(w: World, sid: nat, id: Uuid)
    requires sid in w.sessions && w.sessions[sid].stage.Checked? && w.sessions[sid].op.DeleteComparable?
    requires WillDelete(w.sessions[sid], id, ComparablesOf(w.core.db, id))
    ensures ComparablesOf(Step(w, Proceed(sid, WRITE)).core.db, id) != ComparablesOf(w.core.db, id)
  {
    assert w.sessions[sid].op.comparableId !in ComparablesOf(Step(w, Proceed(sid, WRITE)).core.db, id);
  }

  lemma CleanUpStep(w: World, sid: nat, id: Uuid)
    requires sid in w.sessions && w.sessions[sid].target == id
    requires w.sessions[sid].stage.Syncing? && w.sessions[sid].stage.del != []
    ensures var w' := Step(w, Proceed(sid, WRITE)); var s := w.sessions[sid];
      && sid in w'.sessions
      && w'.sessions[sid] == s.(stage := Syncing(s.stage.del[1..], s.stage.add))
      && (ComparablesOf(w'.core.db, id) != ComparablesOf(w.core.db, id) <==>
            s.stage.del[0] in ComparablesOf(w.core.db, id))
  {
    var c := w.sessions[sid].stage.del[0];
    var after := Step(w, Proceed(sid, WRITE)).core.db;
    if c in ComparablesOf(w.core.db, id) {
      assert c !in ComparablesOf(after, id);
    } else {
      assert ComparablesOf(after, id) == ComparablesOf(w.core.db, id);
    }
  }

  ghost predicate ForeignSessions(w: World, w': World, sid: nat) {
    sid in w'.sessions && forall other :: other in w.sessions && other != sid ==>
      other in w'.sessions && w'.sessions[other] == w.sessions[other]
  }

  /// A save that lands, at time `now`.
  lemma SaveStep(w: World, sid: nat, id: Uuid, now: Stamp)
    requires sid in w.sessions && w.sessions[sid].stage.Checked? && OwnCopy(w.sessions[sid])
    requires id in w.core.db.rows && CanSave(w.sessions[sid], id, w.core.db.rows[id].updatedAt)
    ensures var w' := Step(w, Proceed(sid, Execute(now, 0, 0, 0, NoFault))); var s := w.sessions[sid];
      && id in w'.core.db.rows && w'.core.db.rows[id].updatedAt == now
      && w'.core.db.comparables == w.core.db.comparables
      && ForeignSessions(w, w', sid)
      && (s.op.ApplyCalculation? ==>
            && w'.sessions[sid].target == s.target
            && w'.sessions[sid].stage == Syncing(Ids(s.stage.comparables), s.op.entries))
  {
  }

  lemma {:induction false} CleanUpLoses(w: World, sid: nat, id: Uuid)
    requires sid in w.sessions && w.sessions[sid].stage.Syncing?
    requires WillDelete(w.sessions[sid], id, ComparablesOf(w.core.db, id))
    ensures CanLose(w, id)
    decreases |w.sessions[sid].stage.del|
  {
    var del := w.sessions[sid].stage.del;
    var have := ComparablesOf(w.core.db, id);
    var l := Proceed(sid, WRITE);
    CleanUpStep(w, sid, id);
    if del[0] in have {
      LosesNow(w, l, id);
    } else {
      var i :| 0 <= i < |del| && del[i] in have;
      assert del[1..][i - 1] in have;
      CleanUpLoses(Step(w, l), sid, id);
      LosesLater(w, l, id);
    }
  }

  lemma DeleteLoses(w: World, sid: nat, id: Uuid)
    requires ForeignKeys(w.core.db) && sid in w.sessions
    requires WillDelete(w.sessions[sid], id, ComparablesOf(w.core.db, id))
    ensures CanLose(w, id)
  {
    if w.sessions[sid].stage.Syncing? {
      CleanUpLoses(w, sid, id);
    } else if w.sessions[sid].stage.Checked? {
      DeleteStep(w, sid, id);
      LosesNow(w, Proceed(sid, WRITE), id);
    } else {
      var read := Prepared(w, sid);
      DeleteStep(Step(w, read), sid, id);
      LosesNow(Step(w, read), Proceed(sid, WRITE), id);
      LosesLater(w, read, id);
    }
  }

  /// A checked calculation whose save lands goes on to delete.
  lemma SavedLoses(w: World, sid: nat, id: Uuid)
    requires id in w.core.db.rows && sid in w.sessions && w.sessions[sid].stage.Checked? && OwnCopy(w.sessions[sid])
    requires WouldReplace(w.sessions[sid], id, ComparablesOf(w.core.db, id))
    requires CanSave(w.sessions[sid], id, w.core.db.rows[id].updatedAt)
    ensures CanLose(w, id)
  {
    SaveStep(w, sid, id, 0);
    CleanUpLoses(Step(w, Proceed(sid, WRITE)), sid, id);
    LosesLater(w, Proceed(sid, WRITE), id);
  }

  lemma ListingHits(db: Db, id: Uuid, list: seq<Comparable>)
    requires IsListing(db, id, list) && ComparablesOf(db, id) != map[]
    ensures Hits(Ids(list), ComparablesOf(db, id))
  {
    var c :| c in ComparablesOf(db, id);
    var i :| 0 <= i < |list| && list[i].id == c;
    assert Ids(list)[i] == c;
  }

  /// A calculation whose copy carries the row's stamp.
  lemma ReplaceLoses(w: World, sid: nat, id: Uuid)
    requires ForeignKeys(w.core.db) && id in w.core.db.rows && sid in w.sessions && OwnCopy(w.sessions[sid])
    requires WouldReplace(w.sessions[sid], id, ComparablesOf(w.core.db, id))
    requires CanSave(w.sessions[sid], id, w.core.db.rows[id].updatedAt)
    ensures CanLose(w, id)
  {
    if w.sessions[sid].stage.Checked? {
      SavedLoses(w, sid, id);
    } else {
      var read := Prepared(w, sid);
      ListingHits(w.core.db, id, Step(w, read).sessions[sid].stage.comparables);
      SavedLoses(Step(w, read), sid, id);
      LosesLater(w, read, id);
    }
  }

  lemma ForeignKeysOf(db: Db, db': Db)
    requires ForeignKeys(db) && db'.comparables == db.comparables && db.rows.Keys <= db'.rows.Keys
    ensures ForeignKeys(db')
  {
  }

  lemma KeysStay(w: World, l: Label)
    ensures w.core.db.rows.Keys <= Step(w, l).core.db.rows.Keys
  {
  }

  /// The checked save of another operation writes the stamp that a calculation holds.
  lemma RestampLoses(w: World, sid: nat, saver: nat, id: Uuid)
    requires ForeignKeys(w.core.db) && id in w.core.db.rows && sid in w.sessions && saver in w.sessions && sid != saver
    requires OwnCopy(w.sessions[sid]) && OwnCopy(w.sessions[saver])
    requires WouldReplace(w.sessions[sid], id, ComparablesOf(w.core.db, id))
    requires w.sessions[saver].stage.Checked? && CanSave(w.sessions[saver], id, w.core.db.rows[id].updatedAt)
    ensures CanLose(w, id)
  {
    var stamp := w.sessions[sid].stage.row.updatedAt;
    var l := Proceed(saver, Execute(stamp, 0, 0, 0, NoFault));
    SaveStep(w, saver, id, stamp);
    KeysStay(w, l);
    ForeignKeysOf(w.core.db, Step(w, l).core.db);
    ReplaceLoses(Step(w, l), sid, id);
    LosesLater(w, l, id);
  }

  lemma ThreatLoses(w: World, id: Uuid)
    requires ForeignKeys(w.core.db) && id in w.core.db.rows && Threatened(w, id)
    requires forall sid :: sid in w.sessions ==> OwnCopy(w.sessions[sid])
    ensures CanLose(w, id)
  {
    var have := ComparablesOf(w.core.db, id);
    if SomeoneWillDelete(w, id) {
      var sid :| sid in w.sessions && WillDelete(w.sessions[sid], id, have);
      DeleteLoses(w, sid, id);
    } else {
      var sid :| sid in w.sessions && WouldReplace(w.sessions[sid], id, have);
      var saver :| saver in w.sessions && CanSave(w.sessions[saver], id, w.core.db.rows[id].updatedAt);
      if sid == saver {
        ReplaceLoses(w, sid, id);
      } else if w.sessions[saver].stage.Checked? {
        RestampLoses(w, sid, saver, id);
      } else {
        var read := Prepared(w, saver);
        RestampLoses(Step(w, read), sid, saver, id);
        LosesLater(w, read, id);
      }
    }
  }

  lemma CopiesOwned(w: World)
    requires HistoriesOk(w.core) && SessionsOk(w)
    ensures forall sid :: sid in w.sessions ==> OwnCopy(w.sessions[sid])
  {
    forall sid | sid in w.sessions ensures OwnCopy(w.sessions[sid]) {
      assert SessionOk(w.core, sid, w.sessions[sid]);
    }
  }

  /// From any reachable state, some continuation changes the comparables of a completed appraisal if and only
  /// if a pending delete names one of them, or a pending calculation would replace one and a pending save
  /// carries the row's stamp.
  lemma ComparablesCanGoIff(schedule: seq<Label>, id: Uuid)
    requires CompletedIn(Run(INITIAL, schedule), id)
    ensures CanLose(Run(INITIAL, schedule), id) <==> Threatened(Run(INITIAL, schedule), id)
  {
    InvReachable(schedule);
    var w := Run(INITIAL, schedule);
    if CanLose(w, id) {
      var labels :| ComparablesOf(Run(w, labels).core.db, id) != ComparablesOf(w.core.db, id);
      ComparablesSettle(schedule, labels, id);
      RunConcat(true, INITIAL, schedule, labels);
    }
    if Threatened(w, id) {
      CopiesOwned(w);
      ThreatLoses(w, id);
    }
  }

  lemma StaleCopy(core: Core, sid: nat, s: Session, id: Uuid)
    requires HistoriesOk(core) && SessionOk(core, sid, s)
    requires id in core.db.rows && core.db.rows[id].status == Completed && StampsDistinct(core.history[id])
    ensures !CanSave(s, id, core.db.rows[id].updatedAt)
  {
    var h := core.history[id];
    assert h[|h| - 1].row == core.db.rows[id];
  }

  /// With distinct stamps no save can land on a completed row.
  lemma NoSaver(w: World, id: Uuid)
    requires HistoriesOk(w.core) && SessionsOk(w) && CompletedIn(w, id) && DistinctStamps(w.core)
    ensures !SomeoneCanSave(w, id)
  {
    forall sid | sid in w.sessions ensures !CanSave(w.sessions[sid], id, w.core.db.rows[id].updatedAt) {
      assert SessionOk(w.core, sid, w.sessions[sid]);
      StaleCopy(w.core, sid, w.sessions[sid], id);
    }
  }

  /// With distinct stamps only the deletes that are already due can still remove a comparable.
  lemma OnlyDueDeletes(schedule: seq<Label>, id: Uuid)
    requires CompletedIn(Run(INITIAL, schedule), id) && DistinctStamps(Run(INITIAL, schedule).core)
    ensures CanLose(Run(INITIAL, schedule), id) <==> SomeoneWillDelete(Run(INITIAL, schedule), id)
  {
    InvReachable(schedule);
    ComparablesCanGoIff(schedule, id);
    NoSaver(Run(INITIAL, schedule), id);
  }
}
