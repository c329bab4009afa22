/// The tables as mutable state, with the statements of internal/repository/postgres.go and
/// internal/outbox/relay.go as methods, and the dedup store of internal/dedup/redis.go.
/// Each method is proved against the function or predicate of module Tables that specifies its statement.

module Stores {
  import opened Domain
  import opened Tables

  /// The comparables outside `remaining` are listed, oldest first, and nothing that remains is older.
  ghost predicate Listed(all: map<Uuid, Comparable>, remaining: set<Uuid>, list: seq<Comparable>) {
    && (forall i :: 0 <= i < |list| ==> list[i].id in all && list[i].id !in remaining && all[list[i].id] == list[i])
    && (forall c | c in all && c !in remaining :: exists i :: 0 <= i < |list| && list[i].id == c)
    && (forall i, j :: 0 <= i < j < |list| ==> list[i].id != list[j].id && list[i].createdAt <= list[j].createdAt)
    && (forall i, c :: 0 <= i < |list| && c in remaining && c in all ==> list[i].createdAt <= all[c].createdAt)
  }

  lemma ListOne(all: map<Uuid, Comparable>, remaining: set<Uuid>, list: seq<Comparable>, oldest: Uuid)
    requires Listed(all, remaining, list) && oldest in remaining && oldest in all && all[oldest].id == oldest
    requires forall c :: c in remaining && c in all ==> all[oldest].createdAt <= all[c].createdAt
    ensures Listed(all, remaining - {oldest}, list + [all[oldest]])
  {
    var longer := list + [all[oldest]];
    forall c | c in all && c !in remaining - {oldest} ensures exists i :: 0 <= i < |longer| && longer[i].id == c {
      if c == oldest {
        assert longer[|list|].id == c;
      } else {
        var i :| 0 <= i < |list| && list[i].id == c;
        assert longer[i].id == c;
      }
    }
  }

  /// An entry of a non-empty set of keys with the smallest creation time.
  method Oldest(all: map<Uuid, Comparable>, keys: set<Uuid>) returns (oldest: Uuid)
    requires keys != {} && keys <= all.Keys
    ensures oldest in keys && forall c :: c in keys ==> all[oldest].createdAt <= all[c].createdAt
  {
    oldest :| oldest in keys;
    var rest := keys - {oldest};
    while rest != {}
      invariant rest <= keys && oldest in keys
      invariant forall c :: c in keys - rest ==> all[oldest].createdAt <= all[c].createdAt
      decreases |rest|
    {
      var c :| c in rest;
      if all[c].createdAt < all[oldest].createdAt {
        oldest := c;
      }
      rest := rest - {c};
    }
  }

  /// The smallest number of a non-empty set.
  method Least(keys: set<nat>) returns (least: nat)
    requires keys != {}
    ensures least in keys && forall k :: k in keys ==> least <= k
  {
    least :| least in keys;
    var rest := keys - {least};
    while rest != {}
      invariant rest <= keys && least in keys
      invariant forall k :: k in keys && k !in rest ==> least <= k
      decreases |rest|
    {
      var k :| k in rest;
      if k < least {
        least := k;
      }
      rest := rest - {k};
    }
  }

  /// The `limit` smallest numbers of a set, in increasing order.
  method Smallest(all: set<nat>, limit: nat) returns (ids: seq<nat>)
    ensures |ids| <= limit
    ensures forall i :: 0 <= i < |ids| ==> ids[i] in all
    ensures forall i, j :: 0 <= i < j < |ids| ==> ids[i] < ids[j]
    ensures forall k :: k in all && k !in ids ==> |ids| == limit && (limit > 0 ==> ids[limit - 1] < k)
  {
    var remaining := all;
    ids := [];
    while remaining != {} && |ids| < limit
      invariant |ids| <= limit
      invariant remaining <= all
      invariant forall i :: 0 <= i < |ids| ==> ids[i] in all
      invariant forall i, j :: 0 <= i < j < |ids| ==> ids[i] < ids[j]
      invariant forall k :: k in all ==> k in remaining || k in ids
      invariant forall i, k :: 0 <= i < |ids| && k in remaining ==> ids[i] < k
      decreases |remaining|
    {
      var k := Least(remaining);
      ids := ids + [k];
      remaining := remaining - {k};
    }
  }

  /// A listing holds each comparable of the appraisal once, nothing else, oldest first.
  lemma ListingHolds(db: Db, id: Uuid, list: seq<Comparable>)
    requires IsListing(db, id, list)
    ensures forall c :: c in db.comparables && db.comparables[c].appraisalId == id ==>
      exists i :: 0 <= i < |list| && list[i] == db.comparables[c]
    ensures forall i :: 0 <= i < |list| ==>
      list[i].id in db.comparables && list[i] == db.comparables[list[i].id] && list[i].appraisalId == id
    ensures forall i, j :: 0 <= i < j < |list| ==> list[i].id != list[j].id && list[i].createdAt <= list[j].createdAt
  {
    forall c | c in db.comparables && db.comparables[c].appraisalId == id
      ensures exists i :: 0 <= i < |list| && list[i] == db.comparables[c]
    {
      assert c in ComparablesOf(db, id);
      var i :| 0 <= i < |list| && list[i].id == c;
      assert list[i] == db.comparables[c];
    }
  }

  class Database {
    var rows: map<Uuid, Appraisal>
    var comparables: map<Uuid, Comparable>
    var outbox: map<nat, OutboxRow>

    function Contents(): Db
      reads this
    {
      Db(rows, comparables, outbox)
    }

    constructor (contents: Db)
      ensures Contents() == contents
    {
      rows, comparables, outbox := contents.rows, contents.comparables, contents.outbox;
    }

    /// Other parties' statements take effect.
    method Become(contents: Db)
      modifies this
      ensures Contents() == contents
    {
      rows, comparables, outbox := contents.rows, contents.comparables, contents.outbox;
    }

    /// INSERT INTO appraisals ... ON CONFLICT (request_id) DO NOTHING.
    method Create(a: Appraisal) returns (outcome: CreateOutcome)
      modifies this
      ensures outcome == CreateOutcomeOf(old(Contents()), a)
      ensures Contents() == DbCreate(old(Contents()), a)
    {
      if exists id :: id in rows && rows[id].requestId == a.requestId {
        assert HasRequest(Contents(), a.requestId);
        return AlreadyThere;
      }
      if a.id in rows {
        return KeyTaken;
      }
      rows := rows[a.id := a];
      outcome := Created;
    }

    /// SELECT ... FROM appraisals WHERE id = $1.
    method SelectRow(id: Uuid) returns (row: Option<Appraisal>)
      ensures row == if id in Contents().rows then Some(Contents().rows[id]) else None
    {
      row := if id in rows then Some(rows[id]) else None;
    }

    /// SELECT EXISTS(SELECT 1 FROM appraisals WHERE id = $1).
    method Exists(id: Uuid) returns (found: bool)
      ensures found <==> id in Contents().rows
    {
      found := id in rows;
    }

    /// SELECT ... FROM comparables WHERE appraisal_id = $1 ORDER BY created_at: oldest first, one row at a time.
    method ListComparables(id: Uuid) returns (list: seq<Comparable>)
      requires forall c :: c in comparables ==> comparables[c].id == c
      ensures IsListing(Contents(), id, list)
    {
      var all := ComparablesOf(Contents(), id);
      var remaining := all.Keys;
      list := [];
      while remaining != {}
        invariant remaining <= all.Keys && Listed(all, remaining, list)
        decreases |remaining|
      {
        var oldest := Oldest(all, remaining);
        ListOne(all, remaining, list, oldest);
        list := list + [all[oldest]];
        remaining := remaining - {oldest};
      }
    }

    /// UPDATE appraisals ... WHERE id = $7 AND updated_at = $8; reports whether a row was hit.
    method Update(a: Appraisal, prev: Stamp) returns (hit: bool)
      modifies this
      ensures hit == UpdateHits(old(Contents()), a.id, prev)
      ensures Contents() == DbUpdate(old(Contents()), a, prev)
    {
      hit := a.id in rows && rows[a.id].updatedAt == prev;
      if hit {
        rows := rows[a.id := SavedColumns(rows[a.id], a)];
      }
    }

    /// The completion transaction. The guarded UPDATE runs first; if the outbox INSERT then violates a key,
    /// the rollback restores the row.
    method Complete(id: Uuid, at: Stamp, outboxId: nat, event: Event) returns (outcome: CompleteOutcome)
      modifies this
      ensures outcome == CompleteOutcomeOf(old(Contents()), id, outboxId, event)
      ensures Contents() == DbComplete(old(Contents()), id, at, outboxId, event)
    {
      var begun := rows;
      if id !in rows || rows[id].status != InProgress {
        var found := Exists(id);
        outcome := if found then NotOpen else Missing;
        return;
      }
      rows := rows[id := ClosedRow(rows[id], at)];
      if outboxId in outbox || exists k :: k in outbox && outbox[k].event.eventId == event.eventId {
        rows := begun;
        return Rejected;
      }
      outbox := outbox[outboxId := OutboxEntry(event)];
      outcome := Closed;
    }

    /// INSERT INTO comparables ... WHERE EXISTS (in-progress appraisal).
    method AddComparable(c: Comparable) returns (outcome: AddOutcome)
      modifies this
      ensures outcome == AddOutcomeOf(old(Contents()), c)
      ensures Contents() == DbAddComparable(old(Contents()), c)
    {
      if c.appraisalId !in rows || rows[c.appraisalId].status != InProgress {
        return NoOpenParent;
      }
      if c.id in comparables {
        return Duplicate;
      }
      comparables := comparables[c.id := c];
      outcome := Inserted;
    }

    /// DELETE FROM comparables WHERE id = $1 AND appraisal_id = $2; reports whether a row was hit.
    method DeleteComparable(appraisalId: Uuid, comparableId: Uuid) returns (hit: bool)
      modifies this
      ensures hit == DeleteHits(old(Contents()), appraisalId, comparableId)
      ensures Contents() == DbDeleteComparable(old(Contents()), appraisalId, comparableId)
    {
      hit := comparableId in comparables && comparables[comparableId].appraisalId == appraisalId;
      if hit {
        comparables := comparables - {comparableId};
      }
    }

    /// The relay's poll: unpublished rows, smallest id first, at most BATCH_SIZE of them.
    method SelectBatch() returns (batch: seq<OutMessage>)
      ensures IsBatch(Contents(), batch)
    {
      var unpublished := set k | k in outbox && !outbox[k].published;
      var ids := Smallest(unpublished, BATCH_SIZE);
      batch := [];
      for i := 0 to |ids|
        invariant |batch| == i
        invariant forall j :: 0 <= j < i ==> ids[j] in outbox && batch[j] == OutMessage(ids[j], outbox[ids[j]].event)
      {
        batch := batch + [OutMessage(ids[i], outbox[ids[i]].event)];
      }
      forall k | k in outbox && Unpublished(Contents(), k)
        ensures (exists i :: 0 <= i < |batch| && batch[i].outboxId == k)
                || (|batch| == BATCH_SIZE && batch[BATCH_SIZE - 1].outboxId < k)
      {
        if k in ids {
          var i :| 0 <= i < |ids| && ids[i] == k;
          assert batch[i].outboxId == k;
        }
      }
    }

    /// UPDATE outbox SET published_at = NOW() WHERE id = $1.
    method MarkPublished(k: nat)
      modifies this
      ensures Contents() == DbMarkPublished(old(Contents()), k)
    {
      if k in outbox {
        outbox := outbox[k := outbox[k].(published := true)];
      }
    }
  }

  /// The dedup keys in Redis. Expiry is an outside event.
  class DedupStore {
    var keys: set<Uuid>

    constructor (keys: set<Uuid>)
      ensures this.keys == keys
    {
      this.keys := keys;
    }

    method Become(now: set<Uuid>)
      modifies this
      ensures keys == now
    {
      keys := now;
    }

    method Seen(eventId: Uuid) returns (dup: bool)
      ensures dup <==> eventId in keys
    {
      dup := eventId in keys;
    }

    method Mark(eventId: Uuid)
      modifies this
      ensures keys == old(keys) + {eventId}
    {
      keys := keys + {eventId};
    }
  }
}
