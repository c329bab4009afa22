/// Exactly when the row of a completed appraisal can still change, whatever the clocks do.

module RowFreeze {
  import opened Domain
  import opened Machine
  import opened CoreInvariant
  import opened SessionInvariant
  import opened ComparableFreeze

  /// The row is there, as in w.
  ghost predicate SameRow(w: World, w': World, id: Uuid)
    requires id in w.core.db.rows
  {
    id in w'.core.db.rows && w'.core.db.rows[id] == w.core.db.rows[id]
  }

  /// Some continuation changes the row.
  ghost predicate RowCanChange(w: World, id: Uuid)
    requires id in w.core.db.rows
  {
    exists labels :: !SameRow(w, Run(w, labels), id)
  }

  // ---------- Without a save that carries the stamp the row stays ----------

  lemma NoSaverStep(w: World, l: Label, id: Uuid)
    requires HistoriesOk(w.core) && SessionsOk(w) && CompletedIn(w, id) && !SomeoneCanSave(w, id)
    ensures CompletedIn(Step(w, l), id) && SameRow(w, Step(w, l), id) && !SomeoneCanSave(Step(w, l), id)
  {
    RowStays(w, l, id);
    if Enabled(w, l) {
      var w' := Step(w, l);
      forall sid | sid in w'.sessions ensures !CanSave(w'.sessions[sid], id, w.core.db.rows[id].updatedAt) {
        ChancesBefore(w, l, id, sid);
      }
    }
  }

  lemma {:induction false} NoSaverAlong(w: World, labels: seq<Label>, id: Uuid)
    requires Inv(w) && CompletedIn(w, id) && !SomeoneCanSave(w, id)
    ensures var w' := Run(w, labels);
      CompletedIn(w', id) && SameRow(w, w', id) && !SomeoneCanSave(w', id)
  {
    if labels != [] {
      var before := labels[..|labels| - 1];
      NoSaverAlong(w, before, id);
      InvRun(true, w, before);
      NoSaverStep(Run(w, before), labels[|labels| - 1], id);
    }
  }

  // ---------- Such a save changes it ----------

  lemma ChangesNow(w: World, l: Label, id: Uuid)
    requires id in w.core.db.rows && !SameRow(w, Step(w, l), id)
    ensures RowCanChange(w, id)
  {
    RunOne(true, w, l);
    assert !SameRow(w, Run(w, [l]), id);
  }

  lemma ChangesNext(w: World, l: Label, m: Label, id: Uuid)
    requires id in w.core.db.rows && Step(w, l).core == w.core && !SameRow(w, Step(Step(w, l), m), id)
    ensures RowCanChange(w, id)
  {
    RunConcat(true, w, [l], [m]);
    RunOne(true, w, l);
    RunOne(true, Step(w, l), m);
    assert !SameRow(w, Run(w, [l] + [m]), id);
  }

  lemma SaverChanges(w: World, sid: nat, id: Uuid)
    requires ForeignKeys(w.core.db) && id in w.core.db.rows && sid in w.sessions && OwnCopy(w.sessions[sid])
    requires CanSave(w.sessions[sid], id, w.core.db.rows[id].updatedAt)
    ensures RowCanChange(w, id)
  {
    var now := w.core.db.rows[id].updatedAt + 1;
    var write := Proceed(sid, Execute(now, 0, 0, 0, NoFault));
    if w.sessions[sid].stage.Checked? {
      SaveStep(w, sid, id, now);
      ChangesNow(w, write, id);
    } else {
      var read := Prepared(w, sid);
      SaveStep(Step(w, read), sid, id, now);
      ChangesNext(w, read, write, id);
    }
  }

  /// From any reachable state, some continuation changes the row of a completed appraisal if and only if a
  /// pending save carries the row's stamp.
  lemma RowCanChangeIff(schedule: seq<Label>, id: Uuid)
    requires CompletedIn(Run(INITIAL, schedule), id)
    ensures RowCanChange(Run(INITIAL, schedule), id) <==> SomeoneCanSave(Run(INITIAL, schedule), id)
  {
    InvReachable(schedule);
    var w := Run(INITIAL, schedule);
    if !SomeoneCanSave(w, id) {
      forall labels ensures SameRow(w, Run(w, labels), id) {
        NoSaverAlong(w, labels, id);
      }
    } else {
      var sid :| sid in w.sessions && CanSave(w.sessions[sid], id, w.core.db.rows[id].updatedAt);
      CopiesOwned(w);
      SaverChanges(w, sid, id);
    }
  }
}
