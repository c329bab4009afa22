/// ApplyApartmentCalculation (internal/service/appraisal.go): read and check, calculate, save through the
/// optimistic lock, then replace the comparables by the four analogs, ignoring errors of the replacement.

module ApplyService {
  import opened Apartment
  import opened Domain
  import opened Tables
  import opened Machine
  import opened Sites
  import opened Services
  import opened Rounding
  import opened Valuation

  /// The comparable written for each analog, numbered from 1.
  function Entries(input: CalculationInput, r: CalculationResult): (es: seq<ComparableData>)
    requires |r.analogs| == |input.analogs|
    ensures |es| == |input.analogs|
  {
    seq(|input.analogs|, i requires 0 <= i < |input.analogs| =>
      AnalogEntry(i + 1, input.analogs[i], r.analogs[i].priceAfterFloor, r.analogs[i].weight))
  }

  /// The operation a call amounts to. An invalid input never gets as far as a write.
  function Planned(input: CalculationInput, cfg: FormulaConfig, pow: Power, calculatedAt: int): (op: Operation)
    ensures op.ApplyCalculation?
  {
    if ValidInput(input) then
      var r := Calculate(cfg, pow, input, calculatedAt);
      ApplyCalculation(FormatFloat(r.totalMarketValue), r, Entries(input, r))
    else ApplyCalculation("", CalculationResult(input.subject, [], 0.0, 0.0, 0.0, calculatedAt), [])
  }

  /// The comparables table after the first k entries were added under fresh ids.
  function WithEntries(table: map<Uuid, Comparable>, id: Uuid, entries: seq<ComparableData>, newIds: seq<Uuid>,
      at: Stamp, k: nat): map<Uuid, Comparable>
    requires k <= |entries| == |newIds|
  {
    if k == 0 then table
    else
      var c := Comparable(newIds[k - 1], id, entries[k - 1], at);
      WithEntries(table, id, entries, newIds, at, k - 1)[c.id := c]
  }

  /// The comparables table without the listed comparables of an appraisal.
  function Without(table: map<Uuid, Comparable>, id: Uuid, gone: seq<Uuid>): map<Uuid, Comparable> {
    map c | c in table && !(c in gone && table[c].appraisalId == id) :: table[c]
  }

  predicate FreshIds(newIds: seq<Uuid>, table: map<Uuid, Comparable>) {
    && (forall i :: 0 <= i < |newIds| ==> newIds[i] !in table)
    && (forall i, j :: 0 <= i < j < |newIds| ==> newIds[i] != newIds[j])
  }

  lemma {:induction false} WithEntriesLooks(table: map<Uuid, Comparable>, id: Uuid, entries: seq<ComparableData>,
      newIds: seq<Uuid>, at: Stamp, k: nat)
    requires k <= |entries| == |newIds| && FreshIds(newIds, table)
    ensures var t := WithEntries(table, id, entries, newIds, at, k);
      && (forall c :: c in t <==> c in table || c in newIds[..k])
      && (forall c :: c in table ==> t[c] == table[c])
      && (forall i :: 0 <= i < k ==> newIds[i] in t && t[newIds[i]] == Comparable(newIds[i], id, entries[i], at))
  {
    if k > 0 {
      WithEntriesLooks(table, id, entries, newIds, at, k - 1);
      assert newIds[..k] == newIds[..k - 1] + [newIds[k - 1]];
    }
  }

  /// The exact effect of an undisturbed, fault-free application: the row is edited in the market value, the
  /// calculation data and the stamp only; its comparables are the entries and nothing else; the other
  /// appraisals' comparables and the outbox stay.
  ghost predicate Applied(db: Db, db': Db, id: Uuid, op: Operation, now: Stamp, newIds: seq<Uuid>, at: Stamp)
    requires op.ApplyCalculation?
  {
    && id in db.rows && |newIds| == |op.entries|
    && db'.rows == db.rows[id := Edited(op, db.rows[id], now)]
    && db'.outbox == db.outbox
    && (forall c :: c in ComparablesOf(db', id) <==> c in newIds)
    && (forall i :: 0 <= i < |newIds| ==>
          newIds[i] in db'.comparables && db'.comparables[newIds[i]] == Comparable(newIds[i], id, op.entries[i], at))
    && (forall other :: other != id ==> ComparablesOf(db', other) == ComparablesOf(db, other))
  }

  lemma ListedAll(db: Db, id: Uuid, list: seq<Comparable>, c: Uuid)
    requires IsListing(db, id, list) && c in ComparablesOf(db, id)
    ensures c in Ids(list)
  {
    var i :| 0 <= i < |list| && list[i].id == c;
    assert Ids(list)[i] == c;
  }

  lemma WithoutListed(db: Db, id: Uuid, list: seq<Comparable>, c: Uuid)
    requires IsListing(db, id, list) && c in Without(db.comparables, id, Ids(list))
    ensures db.comparables[c].appraisalId != id
  {
    if c in ComparablesOf(db, id) {
      ListedAll(db, id, list, c);
    }
  }

  /// Adding entries under fresh ids to a table that holds nothing of the appraisal.
  lemma OnlyTheEntries(left: map<Uuid, Comparable>, db': Db, id: Uuid, entries: seq<ComparableData>,
      newIds: seq<Uuid>, at: Stamp)
    requires |entries| == |newIds| && FreshIds(newIds, left)
    requires forall c :: c in left ==> left[c].appraisalId != id
    requires db'.comparables == WithEntries(left, id, entries, newIds, at, |newIds|)
    ensures forall c :: c in ComparablesOf(db', id) <==> c in newIds
    ensures forall i :: 0 <= i < |newIds| ==>
      newIds[i] in db'.comparables && db'.comparables[newIds[i]] == Comparable(newIds[i], id, entries[i], at)
    ensures forall c :: c in db'.comparables && db'.comparables[c].appraisalId != id <==> c in left
    ensures forall c :: c in left ==> db'.comparables[c] == left[c]
  {
    WithEntriesLooks(left, id, entries, newIds, at, |newIds|);
    assert newIds[..|newIds|] == newIds;
  }

  /// The listed comparables gave way to the entries.
  ghost predicate Replaced(db: Db, db': Db, id: Uuid, list: seq<Comparable>, entries: seq<ComparableData>,
      newIds: seq<Uuid>, at: Stamp)
    requires |entries| == |newIds|
  {
    db' == db.(comparables := WithEntries(Without(db.comparables, id, Ids(list)), id, entries, newIds, at, |newIds|))
  }

  lemma AppliedFrom(db: Db, db': Db, id: Uuid, op: Operation, now: Stamp, list: seq<Comparable>, newIds: seq<Uuid>,
      at: Stamp)
    requires op.ApplyCalculation? && |newIds| == |op.entries|
    requires id in db.rows && IsListing(db, id, list) && FreshIds(newIds, db.comparables)
    requires Replaced(db.(rows := db.rows[id := Edited(op, db.rows[id], now)]), db', id, list, op.entries, newIds, at)
    ensures Applied(db, db', id, op, now, newIds, at)
  {
    var left := Without(db.comparables, id, Ids(list));
    forall c | c in left ensures left[c].appraisalId != id {
      WithoutListed(db, id, list, c);
    }
    OnlyTheEntries(left, db', id, op.entries, newIds, at);
  }

  ghost function Elements(ids: seq<Uuid>): set<Uuid> {
    set c | c in ids
  }

  lemma {:induction false} DistinctCount(ids: seq<Uuid>)
    requires forall i, j :: 0 <= i < j < |ids| ==> ids[i] != ids[j]
    ensures |Elements(ids)| == |ids|
  {
    if ids != [] {
      var front, last := ids[..|ids| - 1], ids[|ids| - 1];
      DistinctCount(front);
      assert ids == front + [last];
      assert last !in front;
      assert Elements(ids) == Elements(front) + {last};
    }
  }

  lemma AppliedCount(db: Db, db': Db, id: Uuid, op: Operation, now: Stamp, newIds: seq<Uuid>, at: Stamp)
    requires op.ApplyCalculation? && Applied(db, db', id, op, now, newIds, at)
    requires forall i, j :: 0 <= i < j < |newIds| ==> newIds[i] != newIds[j]
    ensures |ComparablesOf(db', id)| == |op.entries|
    ensures forall i :: 0 <= i < |newIds| ==>
      newIds[i] in ComparablesOf(db', id) && ComparablesOf(db', id)[newIds[i]].data == op.entries[i]
  {
    DistinctCount(newIds);
    assert ComparablesOf(db', id).Keys == Elements(newIds);
  }

  lemma PlannedEntries(input: CalculationInput, cfg: FormulaConfig, pow: Power, calculatedAt: int)
    requires ValidInput(input)
    ensures var op := Planned(input, cfg, pow, calculatedAt); var r := Calculate(cfg, pow, input, calculatedAt);
      && |op.entries| == 4
      && (forall i :: 0 <= i < 4 ==>
            op.entries[i] == AnalogEntry(i + 1, input.analogs[i], r.analogs[i].priceAfterFloor, r.analogs[i].weight))
      && forall a, now :: Edited(op, a, now) ==
           a.(marketValue := Some(FormatFloat(r.totalMarketValue)), calculationData := Some(r), updatedAt := now)
  {
  }

  /// Of two applications in a row only the second leaves a trace.
  lemma AppliedTwice(db: Db, once: Db, twice: Db, id: Uuid, op1: Operation, op2: Operation,
                     now: (Stamp, Stamp), ids: (seq<Uuid>, seq<Uuid>), at: (Stamp, Stamp))
    requires op1.ApplyCalculation? && op2.ApplyCalculation?
    requires Applied(db, once, id, op1, now.0, ids.0, at.0)
    requires Applied(once, twice, id, op2, now.1, ids.1, at.1)
    requires forall i, j :: 0 <= i < j < |ids.1| ==> ids.1[i] != ids.1[j]
    ensures twice.rows == db.rows[id := Edited(op2, db.rows[id], now.1)] && twice.outbox == db.outbox
    ensures |ComparablesOf(twice, id)| == |op2.entries|
    ensures forall i :: 0 <= i < |ids.1| ==>
      ids.1[i] in ComparablesOf(twice, id) && ComparablesOf(twice, id)[ids.1[i]].data == op2.entries[i]
    ensures forall other :: other != id ==> ComparablesOf(twice, other) == ComparablesOf(db, other)
  {
    AppliedCount(once, twice, id, op2, now.1, ids.1, at.1);
    forall other | other != id ensures ComparablesOf(twice, other) == ComparablesOf(db, other) {
      assert ComparablesOf(twice, other) == ComparablesOf(once, other);
    }
  }

  /// Applying again, after any application, leaves the second calculation and nothing of the first: exactly four
  /// comparables, numbered 1 to 4 with the second run's prices and weights, while notes, appraiser, report key,
  /// status and the other appraisals' comparables are those from before both.
  lemma ApplyTwice(db: Db, once: Db, twice: Db, id: Uuid, first: Operation, second: CalculationInput,
                   cfg: FormulaConfig, pow: Power, calculatedAt: int,
                   now: (Stamp, Stamp), ids: (seq<Uuid>, seq<Uuid>), at: (Stamp, Stamp))
    requires first.ApplyCalculation? && ValidInput(second)
    requires FreshIds(ids.1, once.comparables)
    requires Applied(db, once, id, first, now.0, ids.0, at.0)
    requires Applied(once, twice, id, Planned(second, cfg, pow, calculatedAt), now.1, ids.1, at.1)
    ensures |ComparablesOf(twice, id)| == 4 == |ids.1|
    ensures var r := Calculate(cfg, pow, second, calculatedAt);
      forall i :: 0 <= i < 4 ==>
        && ids.1[i] in ComparablesOf(twice, id)
        && ComparablesOf(twice, id)[ids.1[i]].data ==
          AnalogEntry(i + 1, second.analogs[i], r.analogs[i].priceAfterFloor, r.analogs[i].weight)
    ensures var r := Calculate(cfg, pow, second, calculatedAt);
      twice.rows[id] == db.rows[id].(marketValue := Some(FormatFloat(r.totalMarketValue)), calculationData := Some(r),
        updatedAt := now.1)
    ensures forall other :: other != id ==> ComparablesOf(twice, other) == ComparablesOf(db, other)
    ensures twice.rows.Keys == db.rows.Keys && twice.outbox == db.outbox
    ensures forall other :: other != id && other in db.rows ==> twice.rows[other] == db.rows[other]
  {
    PlannedEntries(second, cfg, pow, calculatedAt);
    AppliedTwice(db, once, twice, id, first, Planned(second, cfg, pow, calculatedAt), now, ids, at);
  }

  /// An undisturbed save hits its row and sets every column the operation edits.
  lemma QuietSave(db: Db, id: Uuid, op: Operation, now: Stamp)
    requires id in db.rows && db.rows[id].id == id && op.ApplyCalculation?
    ensures var a := db.rows[id];
      && UpdateHits(db, id, a.updatedAt)
      && DbUpdate(db, Edited(op, a, now), a.updatedAt) == db.(rows := db.rows[id := Edited(op, a, now)])
  {
  }

  /// The row holds the result of this calculation, under this configuration, and is else as it was.
  ghost predicate Written(db: Db, db': Db, id: Uuid, input: CalculationInput, cfg: FormulaConfig, pow: Power,
                          calculatedAt: int, now: Stamp)
    requires ValidInput(input)
  {
    && id in db.rows && id in db'.rows
    && var c := Calculate(cfg, pow, input, calculatedAt);
       db'.rows[id] == db.rows[id].(marketValue := Some(FormatFloat(c.totalMarketValue)), calculationData := Some(c),
                                    updatedAt := now)
  }

  lemma AppliedWrites(db: Db, db': Db, id: Uuid, input: CalculationInput, cfg: FormulaConfig, pow: Power,
                      calculatedAt: int, now: Stamp, newIds: seq<Uuid>, at: Stamp)
    requires ValidInput(input) && Applied(db, db', id, Planned(input, cfg, pow, calculatedAt), now, newIds, at)
    ensures Written(db, db', id, input, cfg, pow, calculatedAt, now)
  {
    PlannedEntries(input, cfg, pow, calculatedAt);
  }

  datatype Calculation = Computed(result: CalculationResult) | InvalidInput | ConfigUnread

  /// The stored configuration, or the default when none is stored.
  function InForce(stored: Option<FormulaConfig>): FormulaConfig {
    if stored.Some? then stored.value else DefaultConfig()
  }

  class ApplyCalculationService {
    const repo: PostgresRepository

    constructor (repo: PostgresRepository)
      ensures this.repo == repo
    {
      this.repo := repo;
    }

    ghost predicate Ready(sid: nat)
      reads repo.site, repo.site.db, repo.site.dedup
    {
      repo.site.Valid() && sid !in repo.site.world.sessions && ForeignScript(repo.site.script, Caller(sid))
    }

    /// Delete the comparables that were there at the read; errors are ignored.
    method DeleteOld(sid: nat, id: Uuid, listed: seq<Comparable>, ghost add: seq<ComparableData>)
      requires repo.Serving(sid) && repo.site.world.sessions[sid].target == id
      requires repo.site.world.sessions[sid].stage == Syncing(Ids(listed), add)
      modifies repo.site, repo.site.db, repo.site.dedup
      ensures repo.Proceeds(sid)
      ensures repo.site.world.sessions[sid].stage == Syncing([], add)
      ensures old(repo.site.script) == [] ==>
        repo.site.world.core.db ==
          old(repo.site.world.core.db).(comparables :=
            Without(old(repo.site.world.core.db.comparables), id, Ids(listed)))
    {
      ghost var db := repo.site.world.core.db;
      assert Without(db.comparables, id, []) == db.comparables;
      for i := 0 to |listed|
        invariant repo.Proceeds(sid)
        invariant repo.site.world.sessions[sid].stage == Syncing(Ids(listed)[i..], add)
        invariant old(repo.site.script) == [] ==>
          repo.site.world.core.db == db.(comparables := Without(db.comparables, id, Ids(listed)[..i]))
      {
        var _ := repo.DeleteComparable(sid, id, listed[i].id);
        assert Ids(listed)[i..][1..] == Ids(listed)[i + 1..];
        assert Ids(listed)[..i + 1] == Ids(listed)[..i] + [Ids(listed)[i]];
      }
      assert Ids(listed)[..|listed|] == Ids(listed);
    }

    /// The service's AddComparable for one entry: read, check, guarded insert; errors are ignored.
    method AddEntry(sid: nat, id: Uuid, data: ComparableData, freshId: Uuid, at: Stamp, ghost rest: seq<ComparableData>)
      requires repo.Serving(sid) && repo.site.world.sessions[sid].target == id
      requires repo.site.world.sessions[sid].stage == Syncing([], [data] + rest)
      modifies repo.site, repo.site.db, repo.site.dedup
      ensures repo.Proceeds(sid)
      ensures repo.site.world.sessions[sid].stage == Syncing([], rest)
      ensures var db := old(repo.site.world.core.db); var c := Comparable(freshId, id, data, at);
        old(repo.site.script) == [] && AddOutcomeOf(db, c) == Inserted ==>
          repo.site.world.core.db == DbAddComparable(db, c)
    {
      assert ([data] + rest)[1..] == rest;
      var got := repo.GetByID(sid, id);
      if got.Got? && got.a.status == InProgress {
        var _ := repo.AddComparable(sid, Comparable(freshId, id, data, at));
      }
    }

    method AddEntries(sid: nat, id: Uuid, entries: seq<ComparableData>, newIds: seq<Uuid>, at: Stamp)
      requires |newIds| == |entries|
      requires repo.Serving(sid) && repo.site.world.sessions[sid].target == id
      requires repo.site.world.sessions[sid].stage == Syncing([], entries)
      modifies repo.site, repo.site.db, repo.site.dedup
      ensures repo.Proceeds(sid)
      ensures repo.site.world.sessions[sid].stage == Syncing([], [])
      ensures var db := old(repo.site.world.core.db);
        && old(repo.site.script) == []
        && id in db.rows && db.rows[id].status == InProgress && FreshIds(newIds, db.comparables) ==>
          repo.site.world.core.db == db.(comparables := WithEntries(db.comparables, id, entries, newIds, at, |newIds|))
    {
      ghost var db := repo.site.world.core.db;
      ghost var quiet := repo.site.script == [] && id in db.rows && db.rows[id].status == InProgress
                         && FreshIds(newIds, db.comparables);
      for i := 0 to |entries|
        invariant repo.Proceeds(sid)
        invariant repo.site.world.sessions[sid].stage == Syncing([], entries[i..])
        invariant quiet ==>
          repo.site.world.core.db == db.(comparables := WithEntries(db.comparables, id, entries, newIds, at, i))
      {
        if quiet {
          WithEntriesLooks(db.comparables, id, entries, newIds, at, i);
        }
        assert entries[i..] == [entries[i]] + entries[i + 1..];
        AddEntry(sid, id, entries[i], newIds[i], at, entries[i + 1..]);
      }
    }

    /// What follows the save: delete the comparables that were read, add the entries, read the result.
    method ReplaceComparables(sid: nat, id: Uuid, list: seq<Comparable>, entries: seq<ComparableData>,
        newIds: seq<Uuid>, at: Stamp)
      returns (r: Result)
      requires |newIds| == |entries|
      requires repo.Serving(sid) && repo.site.world.sessions[sid].target == id
      requires repo.site.world.sessions[sid].stage == Syncing(Ids(list), entries)
      modifies repo.site, repo.site.db, repo.site.dedup
      ensures repo.Proceeds(sid)
      ensures repo.site.world.sessions[sid].stage == Done(r)
      ensures r != Failed(BadInput)
      ensures var db := old(repo.site.world.core.db);
        && old(repo.site.script) == []
        && id in db.rows && db.rows[id].status == InProgress && FreshIds(newIds, db.comparables) ==>
          && Replaced(db, repo.site.world.core.db, id, list, entries, newIds, at)
          && r == Returned(db.rows[id])
    {
      DeleteOld(sid, id, list, entries);
      AddEntries(sid, id, entries, newIds, at);
      var final := repo.GetByID(sid, id);
      r := if final.Unread? then Failed(final.error) else Returned(final.a);
    }

    /// What follows the calculation: save the edited copy through the optimistic lock, then replace the comparables.
    method StoreCalculation(sid: nat, id: Uuid, op: Operation, read: Appraisal, list: seq<Comparable>, a: Appraisal,
                            now: Stamp,
                            newIds: seq<Uuid>, addedAt: Stamp)
      returns (r: Result)
      requires op.ApplyCalculation? && |newIds| == |op.entries| && a == Edited(op, read, now) && read.id == id
      requires repo.Serving(sid) && repo.site.world.sessions[sid].target == id && repo.site.world.sessions[sid].op == op
      requires repo.site.world.sessions[sid].stage == Checked(read, list)
      modifies repo.site, repo.site.db, repo.site.dedup
      ensures repo.Proceeds(sid)
      ensures repo.site.world.sessions[sid].stage == Done(r)
      ensures r != Failed(BadInput)
      ensures var db := old(repo.site.world.core.db); var db' := repo.site.world.core.db;
        && old(repo.site.script) == [] && id in db.rows && db.rows[id] == read && read.status == InProgress
        && IsListing(db, id, list) && FreshIds(newIds, db.comparables) ==>
          Applied(db, db', id, op, now, newIds, addedAt) && r == Returned(db'.rows[id])
    {
      ghost var db := repo.site.world.core.db;
      ghost var quiet := repo.site.script == [] && id in db.rows && db.rows[id] == read && read.status == InProgress
                         && IsListing(db, id, list) && FreshIds(newIds, db.comparables);
      if quiet {
        QuietSave(db, id, op, now);
      }
      var err := repo.Update(sid, a, read.updatedAt, now);
      if err.Some? {
        r := Failed(err.value);
        return;
      }
      r := ReplaceComparables(sid, id, list, op.entries, newIds, addedAt);
      if quiet {
        AppliedFrom(db, repo.site.world.core.db, id, op, now, list, newIds, addedAt);
      }
    }

    /// Reading the configuration can fail. When nothing is stored the default is used and saved, with errors of
    /// that save ignored.
    method ReadConfig(sid: nat, stored: Option<FormulaConfig>) returns (ok: bool)
      requires repo.Serving(sid)
      modifies repo.site, repo.site.db, repo.site.dedup
      ensures repo.Proceeds(sid)
      ensures repo.site.world.sessions[sid] == old(repo.site.world.sessions[sid])
      ensures old(NoFaults(repo.site.script)) ==> ok
      ensures old(repo.site.script) == [] ==> repo.site.world == old(repo.site.world)
    {
      var fault := repo.site.Yield(Caller(sid));
      if fault == NoFault && stored.None? {
        var _ := repo.site.Yield(Caller(sid));
      }
      ok := fault == NoFault;
    }

    /// The service's CalculateApartment: validate, read the configuration, calculate.
    method CalculateApartment(sid: nat, input: CalculationInput, stored: Option<FormulaConfig>, pow: Power,
                              calculatedAt: int)
      returns (c: Calculation)
      requires repo.Serving(sid)
      modifies repo.site, repo.site.db, repo.site.dedup
      ensures repo.Proceeds(sid)
      ensures repo.site.world.sessions[sid] == old(repo.site.world.sessions[sid])
      ensures c.InvalidInput? <==> !ValidInput(input)
      ensures c.InvalidInput? ==> repo.site.world == old(repo.site.world)
      ensures c.Computed? ==> ValidInput(input) && c.result == Calculate(InForce(stored), pow, input, calculatedAt)
      ensures c.Computed? && stored.Some? ==> c.result == Calculate(stored.value, pow, input, calculatedAt)
      ensures c.Computed? && stored.None? ==> c.result == Calculate(DefaultConfig(), pow, input, calculatedAt)
      ensures old(NoFaults(repo.site.script)) ==> c != ConfigUnread
      ensures old(repo.site.script) == [] ==> repo.site.world == old(repo.site.world)
    {
      var valid := Validate(input);
      if !valid {
        return InvalidInput;
      }
      var ok := ReadConfig(sid, stored);
      if !ok {
        return ConfigUnread;
      }
      var result := CalculateWithConfig(input, InForce(stored), pow, calculatedAt);
      c := Computed(result);
    }

    /// What follows the calculation: store it; without a calculation nothing is written.
    method StoreOrGiveUp(sid: nat, id: Uuid, op: Operation, read: Appraisal, list: seq<Comparable>,
                         calculation: Calculation, now: Stamp, newIds: seq<Uuid>, addedAt: Stamp)
      returns (r: Result)
      requires op.ApplyCalculation?
      requires calculation.Computed? ==>
        && op.calculation == calculation.result && op.marketValue == FormatFloat(calculation.result.totalMarketValue)
        && |newIds| == |op.entries|
      requires repo.Serving(sid) && repo.site.world.sessions[sid].target == id && read.id == id
      requires repo.site.world.sessions[sid].op == op
      requires repo.site.world.sessions[sid].stage == Checked(read, list)
      modifies repo.site, repo.site.db, repo.site.dedup
      ensures repo.Proceeds(sid)
      ensures repo.site.world.sessions[sid].stage == Done(r)
      ensures r == Failed(BadInput) <==> calculation.InvalidInput?
      ensures calculation.ConfigUnread? ==> r == Failed(Storage)
      ensures !calculation.Computed? ==> repo.site.world.core == old(repo.site.world.core)
      ensures var db := old(repo.site.world.core.db); var db' := repo.site.world.core.db;
        && old(repo.site.script) == [] && id in db.rows && db.rows[id] == read && read.status == InProgress
        && IsListing(db, id, list) && calculation.Computed? && FreshIds(newIds, db.comparables) ==>
          Applied(db, db', id, op, now, newIds, addedAt) && r == Returned(db'.rows[id])
    {
      if !calculation.Computed? {
        var badInput := calculation.InvalidInput?;
        repo.site.Act(sid, GiveUp(badInput));
        return Failed(if badInput then BadInput else Storage);
      }
      var result := calculation.result;
      var a := read.(marketValue := Some(FormatFloat(result.totalMarketValue)), calculationData := Some(result));
      a := a.(updatedAt := now);
      r := StoreCalculation(sid, id, op, read, list, a, now, newIds, addedAt);
    }

    /// What follows the status check.
    method CalculateAndStore(sid: nat, id: Uuid, op: Operation, read: Appraisal, list: seq<Comparable>,
                             input: CalculationInput, stored: Option<FormulaConfig>, pow: Power, calculatedAt: int,
                             now: Stamp, newIds: seq<Uuid>, addedAt: Stamp)
      returns (r: Result)
      requires ValidInput(input) ==> |newIds| == 4
      requires repo.Serving(sid) && repo.site.world.sessions[sid].target == id && read.id == id
      requires repo.site.world.sessions[sid].op == op && op == Planned(input, InForce(stored), pow, calculatedAt)
      requires repo.site.world.sessions[sid].stage == Checked(read, list)
      modifies repo.site, repo.site.db, repo.site.dedup
      ensures repo.Proceeds(sid)
      ensures repo.site.world.sessions[sid].stage == Done(r)
      ensures r == Failed(BadInput) <==> !ValidInput(input)
      ensures !ValidInput(input) ==> repo.site.world.core == old(repo.site.world.core)
      ensures var db := old(repo.site.world.core.db); var db' := repo.site.world.core.db;
        && old(repo.site.script) == [] && id in db.rows && db.rows[id] == read && read.status == InProgress
        && IsListing(db, id, list) && ValidInput(input) && FreshIds(newIds, db.comparables) ==>
          Applied(db, db', id, op, now, newIds, addedAt) && r == Returned(db'.rows[id])
    {
      var calculation := CalculateApartment(sid, input, stored, pow, calculatedAt);
      r := StoreOrGiveUp(sid, id, op, read, list, calculation, now, newIds, addedAt);
    }

    /// What an undisturbed application to an appraisal comes to.
    ghost predicate Alone(db: Db, db': Db, id: Uuid, input: CalculationInput, op: Operation, now: Stamp,
                          newIds: seq<Uuid>, addedAt: Stamp, r: Result)
      requires op.ApplyCalculation?
    {
      if id !in db.rows then r == Failed(NotFound) && db' == db
      else if db.rows[id].status != InProgress then r == Failed(InvalidStatus) && db' == db
      else if !ValidInput(input) then r == Failed(BadInput) && db' == db
      else FreshIds(newIds, db.comparables) ==>
        Applied(db, db', id, op, now, newIds, addedAt) && r == Returned(db'.rows[id])
    }

    /// Read and check, then calculate and store.
    method CheckAndApply(sid: nat, id: Uuid, op: Operation, input: CalculationInput, stored: Option<FormulaConfig>,
                         pow: Power, calculatedAt: int, now: Stamp, newIds: seq<Uuid>, addedAt: Stamp)
      returns (r: Result)
      requires ValidInput(input) ==> |newIds| == 4
      requires repo.Serving(sid) && repo.site.world.sessions[sid].target == id
      requires repo.site.world.sessions[sid].op == op && op == Planned(input, InForce(stored), pow, calculatedAt)
      requires repo.site.world.sessions[sid].stage == Start
      modifies repo.site, repo.site.db, repo.site.dedup
      ensures repo.Proceeds(sid)
      ensures repo.site.world.sessions[sid].stage == Done(r)
      ensures r == Failed(BadInput) ==> !ValidInput(input)
      ensures !ValidInput(input) ==> r.Failed?
      ensures old(NoFaults(repo.site.script)) && !ValidInput(input) ==> r != Failed(Storage)
      ensures old(repo.site.script) == [] ==>
        Alone(old(repo.site.world.core.db), repo.site.world.core.db, id, input, op, now, newIds,
              addedAt, r)
    {
      var got := repo.GetByID(sid, id);
      if got.Unread? {
        return Failed(got.error);
      }
      var a := got.a;
      if a.status != InProgress {
        return Failed(InvalidStatus);
      }
      ReachableCopy(repo.site.trace, sid);
      r := CalculateAndStore(sid, id, op, a, got.comparables, input, stored, pow, calculatedAt, now, newIds, addedAt);
    }

    /// `stored` is the configuration the call finds in the database, if any.
    method ApplyApartmentCalculation(sid: nat, id: Uuid, input: CalculationInput, stored: Option<FormulaConfig>,
                                     pow: Power, calculatedAt: int, now: Stamp, newIds: seq<Uuid>, addedAt: Stamp)
      returns (r: Result)
      requires Ready(sid)
      requires ValidInput(input) ==> |newIds| == 4
      modifies repo.site, repo.site.db, repo.site.dedup
      ensures repo.Serving(sid) && old(repo.site.trace) <= repo.site.trace
      ensures repo.site.world.sessions[sid].op == Planned(input, InForce(stored), pow, calculatedAt)
      ensures repo.site.world.sessions[sid].target == id
      ensures repo.site.world.sessions[sid].stage == Done(r)
      ensures r == Failed(BadInput) ==> !ValidInput(input)
      ensures !ValidInput(input) ==> r.Failed?
      ensures old(NoFaults(repo.site.script)) && !ValidInput(input) ==> r != Failed(Storage)
      ensures old(repo.site.script) == [] ==> repo.site.script == []
      ensures old(repo.site.script) == [] ==>
        Alone(old(repo.site.world.core.db), repo.site.world.core.db, id, input,
              Planned(input, InForce(stored), pow, calculatedAt), now, newIds, addedAt, r)
      ensures var db, db' := old(repo.site.world.core.db), repo.site.world.core.db;
        && old(repo.site.script) == [] && id in db.rows && db.rows[id].status == InProgress && ValidInput(input)
        && FreshIds(newIds, db.comparables) ==>
          && (stored.Some? ==> Written(db, db', id, input, stored.value, pow, calculatedAt, now))
          && (stored.None? ==> Written(db, db', id, input, DefaultConfig(), pow, calculatedAt, now))
    {
      var op := Planned(input, InForce(stored), pow, calculatedAt);
      ghost var db := repo.site.world.core.db;
      repo.site.Begin(sid, id, op);
      r := CheckAndApply(sid, id, op, input, stored, pow, calculatedAt, now, newIds, addedAt);
      if old(repo.site.script) == [] && id in db.rows && db.rows[id].status == InProgress && ValidInput(input)
         && FreshIds(newIds, db.comparables) {
        AppliedWrites(db, repo.site.world.core.db, id, input, InForce(stored), pow, calculatedAt, now, newIds, addedAt);
      }
    }
  }
}
