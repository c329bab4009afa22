/// Exactly which logs of inbound events the dedup cache is safe for, and transparent for.

module DedupExact {
  import opened Domain
  import opened Tables
  import opened Machine
  import opened InboundSafety
  import opened Witnesses

  /// No relevant event below the committed offset lacks its appraisal.
  ghost predicate NothingLost(w: World) {
    forall i :: 0 <= i < w.inbound.committed && i < |w.inbound.log| && Relevant(w.inbound.log[i]) ==>
      HasRequest(w.core.db, w.inbound.log[i].requestId)
  }

  /// Whatever happens, a consumer of this log loses nothing.
  ghost predicate SafeLog(log: seq<Message>) {
    forall s :: Run(INITIAL, s).inbound.log == log ==> NothingLost(Run(INITIAL, s))
  }

  ghost predicate TransparentRun(s: seq<Label>) {
    SameButMarks(Run(INITIAL, s), RunWith(false, INITIAL, Unskipped(s)))
  }

  /// Whatever happens, the cache makes no difference to a consumer of this log.
  ghost predicate TransparentLog(log: seq<Message>) {
    forall s :: Run(INITIAL, s).inbound.log == log ==> TransparentRun(s)
  }

  // ---------- A consumer that keeps up ----------

  /// Some relevant message among the first n asked for this request.
  ghost predicate AskedBelow(log: seq<Message>, n: int, r: Uuid) {
    exists k :: 0 <= k < n && k < |log| && Relevant(log[k]) && log[k].requestId == r
  }

  /// The first n messages were produced, handled and committed, nothing expired, and the appraisals are
  /// those they asked for, with ids from 1 to n.
  ghost predicate KeptUp(w: World, log: seq<Message>, n: nat) {
    && n <= |log|
    && w.inbound.log == log[..n]
    && CaughtUp(w.inbound)
    && (forall k :: 0 <= k < n && Relevant(log[k]) ==> log[k].eventId in w.inbound.marks)
    && (forall id | id in w.core.db.rows :: 0 < id <= n && AskedBelow(log, n, w.core.db.rows[id].requestId))
  }

  lemma KeepUpIrrelevant(s: seq<Label>, w: World, log: seq<Message>, n: nat) returns (s': seq<Label>, w': World)
    requires Reaches(s, w) && KeptUp(w, log, n) && n < |log| && !Relevant(log[n])
    ensures Reaches(s', w') && w'.core == w.core && w'.inbound.marks == w.inbound.marks
    ensures w'.inbound.log == log[..n + 1] && CaughtUp(w'.inbound)
  {
    s', w' := Extend(s, w, Consume(Produce(log[n])));
    s', w' := Extend(s', w', Consume(Fetch));
    s', w' := Extend(s', w', Consume(Commit(NoFault)));
  }

  lemma KeepUpMarked(s: seq<Label>, w: World, log: seq<Message>, n: nat) returns (s': seq<Label>, w': World)
    requires Reaches(s, w) && KeptUp(w, log, n) && n < |log| && Relevant(log[n]) && log[n].eventId in w.inbound.marks
    ensures Reaches(s', w') && w'.core == w.core && w'.inbound.marks == w.inbound.marks
    ensures w'.inbound.log == log[..n + 1] && CaughtUp(w'.inbound)
  {
    s', w' := Extend(s, w, Consume(Produce(log[n])));
    s', w' := Extend(s', w', Consume(Fetch));
    s', w' := Extend(s', w', Consume(CheckDup(NoFault)));
    s', w' := Extend(s', w', Consume(Commit(NoFault)));
  }

  /// Create, mark and commit.
  lemma FinishNew(s: seq<Label>, w: World, id: Uuid) returns (s': seq<Label>, w': World)
    requires Reaches(s, w) && Handling(w.inbound) && w.inbound.reading == Creating && id !in w.core.db.rows
    ensures var b := w.inbound;
      && Reaches(s', w')
      && w'.core == Apply(w.core, Insert(NewAppraisal(id, b.log[b.at].requestId, 0)))
      && w'.inbound == b.(reading := Waiting, at := b.at + 1, committed := b.at + 1,
                          marks := b.marks + {b.log[b.at].eventId})
  {
    s', w' := Extend(s, w, Consume(Create(id, 0, NoFault)));
    s', w' := Extend(s', w', Consume(Mark(NoFault)));
    s', w' := Extend(s', w', Consume(Commit(NoFault)));
  }

  lemma KeepUpNew(s: seq<Label>, w: World, log: seq<Message>, n: nat) returns (s': seq<Label>, w': World)
    requires Reaches(s, w) && KeptUp(w, log, n) && n < |log| && Relevant(log[n]) && log[n].eventId !in w.inbound.marks
    ensures Reaches(s', w') && w'.core == Apply(w.core, Insert(NewAppraisal(n + 1, log[n].requestId, 0)))
    ensures w'.inbound.marks == w.inbound.marks + {log[n].eventId}
    ensures w'.inbound.log == log[..n + 1] && CaughtUp(w'.inbound)
  {
    s', w' := Extend(s, w, Consume(Produce(log[n])));
    s', w' := Extend(s', w', Consume(Fetch));
    s', w' := Extend(s', w', Consume(CheckDup(NoFault)));
    s', w' := FinishNew(s', w', n + 1);
  }

  lemma KeptUpNext(w: World, w': World, log: seq<Message>, n: nat)
    requires KeptUp(w, log, n) && n < |log|
    requires w'.inbound.log == log[..n + 1] && CaughtUp(w'.inbound) && w.inbound.marks <= w'.inbound.marks
    requires Relevant(log[n]) ==> log[n].eventId in w'.inbound.marks
    requires w'.core == w.core
             || (Relevant(log[n]) && w'.core == Apply(w.core, Insert(NewAppraisal(n + 1, log[n].requestId, 0))))
    ensures KeptUp(w', log, n + 1)
  {
    forall id | id in w'.core.db.rows ensures 0 < id <= n + 1 && AskedBelow(log, n + 1, w'.core.db.rows[id].requestId) {
      if id in w.core.db.rows {
        assert AskedBelow(log, n, w.core.db.rows[id].requestId);
      }
    }
  }

  lemma KeepUpOne(s: seq<Label>, w: World, log: seq<Message>, n: nat) returns (s': seq<Label>, w': World)
    requires Reaches(s, w) && KeptUp(w, log, n) && n < |log|
    ensures Reaches(s', w') && KeptUp(w', log, n + 1)
  {
    if !Relevant(log[n]) {
      s', w' := KeepUpIrrelevant(s, w, log, n);
    } else if log[n].eventId in w.inbound.marks {
      s', w' := KeepUpMarked(s, w, log, n);
    } else {
      s', w' := KeepUpNew(s, w, log, n);
    }
    KeptUpNext(w, w', log, n);
  }

  lemma {:induction false} KeepUp(log: seq<Message>, n: nat) returns (s: seq<Label>, w: World)
    requires n <= |log|
    ensures Reaches(s, w) && KeptUp(w, log, n)
  {
    if n == 0 {
      InitialReached();
      s, w := [], INITIAL;
    } else {
      s, w := KeepUp(log, n - 1);
      s, w := KeepUpOne(s, w, log, n - 1);
    }
  }

  // ---------- The consumer with and without the cache, side by side ----------

  /// The two runs of a schedule end in w and v.
  ghost predicate Both(s: seq<Label>, w: World, v: World) {
    Reaches(s, w) && RunWith(false, INITIAL, Unskipped(s)) == v
  }

  lemma BothPlain(s: seq<Label>, w: World, v: World, l: Label) returns (s': seq<Label>, w': World, v': World)
    requires Both(s, w, v) && !Skips(w, l)
    ensures s' == s + [l] && w' == Step(w, l) && v' == StepWith(false, v, l) && Both(s', w', v')
  {
    s', w' := Extend(s, w, l);
    v' := StepWith(false, v, l);
    assert s'[..|s'| - 1] == s;
    RunConcat(false, INITIAL, Unskipped(s), [l]);
    RunOne(false, v, l);
  }

  /// At a skip the consumer without the cache creates and marks.
  lemma BothSkip(s: seq<Label>, w: World, v: World, l: Label) returns (s': seq<Label>, w': World, v': World)
    requires Both(s, w, v) && Skips(w, l)
    ensures s' == s + [l] && w' == Step(w, l) && Both(s', w', v')
    ensures v' == StepWith(false, StepWith(false, StepWith(false, v, l), Consume(Create(0, 0, NoFault))),
                           Consume(Mark(NoFault)))
  {
    s', w' := Extend(s, w, l);
    assert s'[..|s'| - 1] == s;
    RunThree(INITIAL, Unskipped(s), l, Consume(Create(0, 0, NoFault)), Consume(Mark(NoFault)));
    v' := RunWith(false, INITIAL, Unskipped(s'));
  }

  // ---------- A reused event id that is not safe ----------

  /// Message j reuses the event id of message i for a request that nobody asked for before.
  ghost predicate Reuses(log: seq<Message>, i: int, j: int) {
    && 0 <= i < j < |log|
    && Relevant(log[i]) && Relevant(log[j]) && log[i].eventId == log[j].eventId
    && !AskedBefore(log, j)
  }

  lemma AskedInPrefix(log: seq<Message>, n: nat, j: nat)
    requires j < n <= |log| && Relevant(log[j])
    ensures AskedBefore(log[..n], j) <==> AskedBefore(log, j)
  {
    if AskedBefore(log, j) {
      var k :| 0 <= k < j && Relevant(log[k]) && log[k].requestId == log[j].requestId;
      assert log[..n][k] == log[k];
    }
  }

  lemma ReuseInLonger(log: seq<Message>, n: nat, i: nat, j: nat)
    requires n <= |log| && Reuses(log[..n], i, j)
    ensures Reuses(log, i, j)
  {
    AskedInPrefix(log, n, j);
  }

  lemma SomeReuse(log: seq<Message>) returns (i: nat, j: nat)
    requires !FirstsFresh(log)
    ensures Reuses(log, i, j)
  {
    var x, y :| 0 <= x < y < |log| && Relevant(log[x]) && Relevant(log[y]) && log[x].eventId == log[y].eventId
      && !AskedBefore(log, y);
    i, j := x, y;
  }

  /// The first such message.
  lemma {:induction false} FirstReuse(log: seq<Message>) returns (i: nat, j: nat)
    requires !FirstsFresh(log)
    ensures Reuses(log, i, j) && FirstsFresh(log[..j])
  {
    i, j := SomeReuse(log);
    if !FirstsFresh(log[..j]) {
      var n := j;
      i, j := FirstReuse(log[..n]);
      ReuseInLonger(log, n, i, j);
      assert log[..n][..j] == log[..j];
    }
  }

  /// Two runs that differ in the appraisal of a request below the offset of the first.
  ghost predicate Lost(w: World, v: World, j: nat, r: Uuid) {
    && j < w.inbound.committed && j < |w.inbound.log|
    && Relevant(w.inbound.log[j]) && w.inbound.log[j].requestId == r
    && !HasRequest(w.core.db, r) && HasRequest(v.core.db, r)
  }

  lemma FetchBoth(s: seq<Label>, w: World, v: World, log: seq<Message>, j: nat)
    returns (s': seq<Label>, w': World, v': World)
    requires Both(s, w, v) && SameButMarks(w, v) && KeptUp(w, log, j) && j < |log| && Relevant(log[j])
    ensures Both(s', w', v') && SameButMarks(w', v') && w'.core == w.core
    ensures w'.inbound.marks == w.inbound.marks && w'.inbound.log == log[..j + 1]
    ensures w'.inbound.at == j && w'.inbound.reading == Fetched
  {
    s', w', v' := BothPlain(s, w, v, Consume(Produce(log[j])));
    s', w', v' := BothPlain(s', w', v', Consume(Fetch));
  }

  /// Without the cache, the appraisal of the fetched message is created under the free id 0.
  lemma CreatesMissing(v: World)
    requires Handling(v.inbound) && v.inbound.reading == Fetched && 0 !in v.core.db.rows
    requires !HasRequest(v.core.db, v.inbound.log[v.inbound.at].requestId)
    ensures var v1 := StepWith(false, v, Consume(CheckDup(NoFault)));
      var v2 := StepWith(false, v1, Consume(Create(0, 0, NoFault)));
      var v3 := StepWith(false, v2, Consume(Mark(NoFault)));
      HasRequest(v3.core.db, v.inbound.log[v.inbound.at].requestId)
  {
    var v1 := StepWith(false, v, Consume(CheckDup(NoFault)));
    var v2 := StepWith(false, v1, Consume(Create(0, 0, NoFault)));
    assert v2.core.db.rows[0].requestId == v.inbound.log[v.inbound.at].requestId;
  }

  lemma SkipFetched(s: seq<Label>, w: World, v: World, j: nat) returns (s': seq<Label>, w': World, v': World)
    requires Both(s, w, v) && SameButMarks(w, v)
    requires w.inbound.at == j && w.inbound.reading == Fetched && Handling(w.inbound) && 0 !in w.core.db.rows
    requires w.inbound.log[j].eventId in w.inbound.marks && !HasRequest(w.core.db, w.inbound.log[j].requestId)
    ensures Both(s', w', v') && Lost(w', v', j, w.inbound.log[j].requestId) && w'.inbound.log == w.inbound.log
  {
    CreatesMissing(v);
    s', w', v' := BothSkip(s, w, v, Consume(CheckDup(NoFault)));
    s', w', v' := BothPlain(s', w', v', Consume(Commit(NoFault)));
  }

  /// The consumer skips message j, the one without the cache creates its appraisal.
  lemma SkipLoses(s: seq<Label>, w: World, v: World, log: seq<Message>, j: nat)
    returns (s': seq<Label>, w': World, v': World)
    requires Both(s, w, v) && SameButMarks(w, v) && KeptUp(w, log, j) && j < |log| && Relevant(log[j])
    requires log[j].eventId in w.inbound.marks && !HasRequest(w.core.db, log[j].requestId)
    ensures Both(s', w', v') && Lost(w', v', j, log[j].requestId) && w'.inbound.log == log[..j + 1]
  {
    s', w', v' := FetchBoth(s, w, v, log, j);
    s', w', v' := SkipFetched(s', w', v', j);
  }

  /// The rest of the log is produced; nothing is recovered by that.
  lemma {:induction false} ProduceRest(s: seq<Label>, w: World, v: World, log: seq<Message>, j: nat, n: nat)
    returns (s': seq<Label>, w': World, v': World)
    requires n <= |log| && Both(s, w, v) && w.inbound.log == log[..n]
    requires j < n && Relevant(log[j]) && Lost(w, v, j, log[j].requestId)
    ensures Both(s', w', v') && w'.inbound.log == log && Lost(w', v', j, log[j].requestId)
    decreases |log| - n
  {
    if n == |log| {
      s', w', v' := s, w, v;
    } else {
      s', w', v' := BothPlain(s, w, v, Consume(Produce(log[n])));
      s', w', v' := ProduceRest(s', w', v', log, j, n + 1);
    }
  }

  lemma ReuseLoses(log: seq<Message>) returns (s: seq<Label>)
    requires !FirstsFresh(log)
    ensures Run(INITIAL, s).inbound.log == log && !NothingLost(Run(INITIAL, s)) && !TransparentRun(s)
  {
    var i, j := FirstReuse(log);
    var w;
    s, w := KeepUp(log, j);
    CacheTransparent(s);
    var v := RunWith(false, INITIAL, Unskipped(s));
    s, w, v := SkipLoses(s, w, v, log, j);
    s, w, v := ProduceRest(s, w, v, log, j, j + 1);
  }

  // ---------- The exact condition ----------

  /// Every consumer run over a log loses nothing if and only if the log reuses an event id only for requests
  /// that were asked for before.
  lemma SafeIff(log: seq<Message>)
    ensures SafeLog(log) <==> FirstsFresh(log)
  {
    if FirstsFresh(log) {
      forall s | Run(INITIAL, s).inbound.log == log ensures NothingLost(Run(INITIAL, s)) {
        ConsumerSafety(s);
      }
    } else {
      var s := ReuseLoses(log);
    }
  }

  /// The same condition decides whether the cache can make a difference.
  lemma TransparentIff(log: seq<Message>)
    ensures TransparentLog(log) <==> FirstsFresh(log)
  {
    if FirstsFresh(log) {
      forall s | Run(INITIAL, s).inbound.log == log ensures TransparentRun(s) {
        CacheTransparent(s);
      }
    } else {
      var s := ReuseLoses(log);
    }
  }
}
