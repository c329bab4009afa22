/// The surroundings of one running party (an HTTP operation, the consumer or the relay): the stores it
/// calls, and everybody else. Before each call the others may take any number of steps, given by a script,
/// and the call may fail; the world records every step, so that what imperative code does is a run
/// of the state machine whatever happens in between.

module Sites {
  import opened Domain
  import opened Machine
  import opened SessionInvariant
  import opened Stores

  datatype Party = Caller(sid: nat) | TheConsumer | TheRelay

  /// A step that is not the party's own.
  predicate Foreign(l: Label, p: Party) {
    match p
    case Caller(sid) => !(l.Begin? && l.sid == sid) && !(l.Proceed? && l.sid == sid)
    case TheConsumer => l.Consume? ==> l.inb.Produce? || l.inb.Expire?
    case TheRelay => !l.Forward?
  }

  /// What happens before a call: others move, then the call has this fault.
  datatype Turn = Turn(others: seq<Label>, fault: Fault)

  predicate ForeignScript(script: seq<Turn>, p: Party) {
    forall i, j :: 0 <= i < |script| && 0 <= j < |script[i].others| ==> Foreign(script[i].others[j], p)
  }

  predicate NoFaults(script: seq<Turn>) {
    forall i :: 0 <= i < |script| ==> script[i].fault == NoFault
  }

  /// What the others cannot change of a party.
  ghost predicate Untouched(w: World, w': World, p: Party) {
    match p
    case Caller(sid) => sid in w.sessions ==> sid in w'.sessions && w'.sessions[sid] == w.sessions[sid]
    case TheConsumer =>
      && w.inbound.log <= w'.inbound.log
      && w'.inbound == w.inbound.(log := w'.inbound.log, marks := w'.inbound.marks)
      && w'.inbound.marks <= w.inbound.marks
    case TheRelay => w'.relay == w.relay
  }

  lemma ForeignStep(w: World, l: Label, p: Party)
    requires Foreign(l, p)
    ensures Untouched(w, Step(w, l), p)
  {
  }

  lemma {:induction false} ForeignRun(w: World, labels: seq<Label>, p: Party)
    requires forall j :: 0 <= j < |labels| ==> Foreign(labels[j], p)
    ensures Untouched(w, Run(w, labels), p)
  {
    if labels != [] {
      var before := labels[..|labels| - 1];
      ForeignRun(w, before, p);
      ForeignStep(Run(w, before), labels[|labels| - 1], p);
    }
  }

  /// What the database keys promise in every reachable world.
  lemma ReachableKeys(trace: seq<Label>)
    ensures forall c :: c in Run(INITIAL, trace).core.db.comparables ==>
      Run(INITIAL, trace).core.db.comparables[c].id == c
  {
    InvReachable(trace);
  }

  /// The copy an operation holds is of its own target.
  lemma ReachableCopy(trace: seq<Label>, sid: nat)
    requires sid in Run(INITIAL, trace).sessions && Run(INITIAL, trace).sessions[sid].stage.Checked?
    ensures Run(INITIAL, trace).sessions[sid].stage.row.id == Run(INITIAL, trace).sessions[sid].target
  {
    InvReachable(trace);
    var w := Run(INITIAL, trace);
    assert SessionOk(w.core, sid, w.sessions[sid]);
  }

  class Site {
    const db: Database
    const dedup: DedupStore
    var world: World
    var script: seq<Turn>
    ghost var trace: seq<Label>

    ghost predicate Recorded()
      reads this
    {
      world == Run(INITIAL, trace)
    }

    ghost predicate Mirrored()
      reads this, db, dedup
    {
      world.core.db == db.Contents() && world.inbound.marks == dedup.keys
    }

    /// The world is what the recorded steps made of the empty system, and the stores show its contents.
    ghost predicate Valid()
      reads this, db, dedup
    {
      Recorded() && Mirrored()
    }

    constructor (past: seq<Label>, script: seq<Turn>)
      ensures Valid() && trace == past && this.script == script
      ensures fresh(db) && fresh(dedup)
    {
      var start := Run(INITIAL, past);
      db := new Database(start.core.db);
      dedup := new DedupStore(start.inbound.marks);
      world, trace := start, past;
      this.script := script;
    }

    /// One step of the machine is taken by the running party.
    method Record(l: Label)
      requires Recorded()
      modifies this
      ensures Recorded() && world == Step(old(world), l)
      ensures script == old(script) && trace == old(trace) + [l]
    {
      RunSnoc(trace, l);
      world := Step(world, l);
      trace := trace + [l];
    }

    /// A session takes a step.
    method Act(sid: nat, act: Machine.Act)
      requires Recorded() && sid in world.sessions && ActEnabled(world.core.db, world.sessions[sid], act)
      modifies this
      ensures Recorded() && script == old(script) && old(trace) <= trace
      ensures world.inbound == old(world.inbound)
      ensures world.core == Apply(old(world.core), SessionChange(sid, old(world.sessions[sid]), act))
      ensures sid in world.sessions
      ensures world.sessions[sid] == NextSession(old(world.core), old(world.sessions[sid]), act)
    {
      Record(Proceed(sid, act));
    }

    /// The consumer takes a step.
    method ActInbound(act: InboundAct)
      requires Recorded()
      modifies this
      ensures Recorded() && script == old(script) && old(trace) <= trace
      ensures world.inbound == NextInbound(true, old(world.core.db), old(world.inbound), act)
      ensures world.core == Apply(old(world.core), InboundChange(old(world.inbound), act))
    {
      Record(Consume(act));
    }

    /// The relay takes a step.
    method ActRelay(act: RelayAct)
      requires Recorded() && RelayEnabled(world.core.db, world.relay, act)
      modifies this
      ensures Recorded() && script == old(script) && old(trace) <= trace
      ensures world.relay == NextRelay(old(world.relay), act) && world.inbound == old(world.inbound)
      ensures world.core == Apply(old(world.core), RelayChange(old(world.relay), act))
    {
      Record(Forward(act));
    }

    /// A new session begins.
    method Begin(sid: nat, target: Uuid, op: Operation)
      requires Valid() && sid !in world.sessions
      modifies this
      ensures Valid() && script == old(script) && old(trace) <= trace
      ensures world.core == old(world.core)
      ensures sid in world.sessions && world.sessions[sid] == Session(op, target, Start, 0, 0)
    {
      Record(Label.Begin(sid, target, op));
    }

    /// The others move; the next call has the returned fault. An exhausted script means nobody interferes
    /// and nothing fails.
    method Yield(ghost p: Party) returns (fault: Fault)
      requires Valid() && ForeignScript(script, p)
      modifies this, db, dedup
      ensures Valid() && ForeignScript(script, p)
      ensures old(trace) <= trace
      ensures Untouched(old(world), world, p)
      ensures old(script) == [] ==> script == [] && fault == NoFault && world == old(world)
      ensures old(NoFaults(script)) ==> NoFaults(script) && fault == NoFault
    {
      if script == [] {
        return NoFault;
      }
      var others := script[0].others;
      fault := script[0].fault;
      ForeignRun(world, others, p);
      RunConcat(true, INITIAL, trace, others);
      world := Run(world, others);
      trace := trace + others;
      script := script[1..];
      db.Become(world.core.db);
      dedup.Become(world.inbound.marks);
    }
  }
}
