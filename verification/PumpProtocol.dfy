/**
 The durable pump as a concurrent protocol: every stretch between two awaits is one event, any
 number of callbacks and recomputations may be in flight, and the isolate may be reset between
 any two events.
 */
module PumpProtocol {
  import opened Wrappers
  import opened DurablePump

  type OpId = nat

  /** An operation suspended at an await. */
  datatype Op =
    | Prearming(row: TaskId, context: Option<TaskId>, candidate: TaskId, epoch: Epoch)
    | Running(row: TaskId, context: Option<TaskId>)
    | Returning(row: TaskId)
    | Rearming(candidate: TaskId, epoch: Epoch)

  /** `history` remembers the payload of every row ever written; identifiers are never minted twice. */
  datatype System = System(pump: Pump, ops: map<OpId, Op>, history: map<TaskId, Option<Epoch>>)

  datatype Event =
    | Admit(latestSecond: int, id: TaskId, time: int)
    | BeginCallback(op: OpId, row: TaskId, context: Option<TaskId>, id: TaskId, epoch: Epoch, time: int)
    | BeginCallbackFallback(op: OpId, row: TaskId, context: Option<TaskId>, id: TaskId, time: int)
    | FinishPrearm(op: OpId, fallback: TaskId, time: int)
    | FailPrearm(op: OpId, fallback: TaskId, time: int)
    | StaleCallback(op: OpId, row: TaskId)
    | ReturnCallback(op: OpId)
    | DeleteInvoked(op: OpId)
    | Recompute(op: OpId, wake: Option<int>, now: int, id: TaskId, epoch: Epoch)
    | FinishRearm(op: OpId)
    | Fallback(id: TaskId, time: int)
    | Park(id: TaskId, time: int)
    | ParkEmpty
    | Reset

  predicate FreshId(s: System, id: TaskId) {
    id !in s.history
  }

  ghost predicate FreshEpoch(s: System, epoch: Epoch) {
    forall id :: id in s.history ==> s.history[id] != Some(epoch)
  }

  ghost predicate Enabled(s: System, e: Event) {
    match e
    case Admit(_, id, _) => FreshId(s, id)
    case BeginCallback(op, row, context, id, epoch, _) =>
      op !in s.ops && row in s.history && Current(s.pump, s.history[row]) &&
      (context == None || context == Some(row)) && FreshId(s, id) && FreshEpoch(s, epoch)
    case BeginCallbackFallback(op, row, context, id, _) =>
      op !in s.ops && row in s.history && Current(s.pump, s.history[row]) && FreshId(s, id)
    case FinishPrearm(op, fallback, _) => op in s.ops && s.ops[op].Prearming? && FreshId(s, fallback)
    case FailPrearm(op, fallback, _) => op in s.ops && s.ops[op].Prearming? && FreshId(s, fallback)
    case StaleCallback(op, row) => op !in s.ops && row in s.history && !Current(s.pump, s.history[row])
    case ReturnCallback(op) => op in s.ops && s.ops[op].Running?
    case DeleteInvoked(op) => op in s.ops && s.ops[op].Returning?
    case Recompute(op, _, _, id, epoch) => op !in s.ops && FreshId(s, id) && FreshEpoch(s, epoch)
    case FinishRearm(op) => op in s.ops && s.ops[op].Rearming?
    case Fallback(id, _) => FreshId(s, id)
    case Park(id, _) => FreshId(s, id)
    case ParkEmpty => true
    case Reset => true
  }

  ghost function Apply(s: System, e: Event): System
    requires Enabled(s, e)
  {
    match e
    case Admit(latestSecond, id, time) =>
      s.(pump := EnsureImmediateWake(s.pump, latestSecond, id, time), history := s.history[id := None])
    case BeginCallback(op, row, context, id, epoch, time) =>
      System(Insert(s.pump, id, Some(epoch), time),
             s.ops[op := Prearming(row, context, id, epoch)],
             s.history[id := Some(epoch)])
    case BeginCallbackFallback(op, row, context, id, time) =>
      System(PersistFallback(s.pump, id, time), s.ops[op := Running(row, context)], s.history[id := None])
    case FinishPrearm(op, fallback, time) =>
      var o := s.ops[op];
      var published := PublishPrearm(s.pump, o.candidate, o.epoch, o.context);
      System(if published.Some? then published.value else PersistFallback(s.pump, fallback, time),
             s.ops[op := Running(o.row, o.context)],
             s.history[fallback := None])
    case FailPrearm(op, fallback, time) =>
      System(PersistFallback(s.pump, fallback, time),
             s.ops[op := Running(s.ops[op].row, s.ops[op].context)],
             s.history[fallback := None])
    case StaleCallback(op, row) => s.(ops := s.ops[op := Returning(row)])
    case ReturnCallback(op) => s.(ops := s.ops[op := Returning(s.ops[op].row)])
    case DeleteInvoked(op) => s.(pump := WithoutRow(s.pump, s.ops[op].row), ops := s.ops - {op})
    case Recompute(op, wake, now, id, epoch) =>
      var (pump, outcome) := BeginRearm(s.pump, wake, now, id, epoch);
      System(pump,
             if outcome.Scheduled? then s.ops[op := Rearming(id, epoch)] else s.ops,
             s.history[id := Some(epoch)])
    case FinishRearm(op) =>
      s.(pump := PublishRearm(s.pump, s.ops[op].candidate, s.ops[op].epoch).0, ops := s.ops - {op})
    case Fallback(id, time) => s.(pump := PersistFallback(s.pump, id, time), history := s.history[id := None])
    case Park(id, time) => s.(pump := PersistParked(s.pump, id, time), history := s.history[id := None])
    case ParkEmpty => s.(pump := ParkNothing(s.pump))
    case Reset => s.(pump := s.pump.(prearm := None), ops := map[])
  }

  ghost predicate Legal(s: System, run: seq<Event>)
    decreases |run|
  {
    run != [] ==> Enabled(s, run[0]) && Legal(Apply(s, run[0]), run[1..])
  }

  ghost function After(s: System, run: seq<Event>): System
    requires Legal(s, run)
    decreases |run|
  {
    if run == [] then s else After(Apply(s, run[0]), run[1..])
  }

  const Start := System(Pump(map[], None, None), map[], map[])

  // ---- The invariant ----

  /** Some suspended operation may still publish this row as the driver. */
  ghost predicate InFlight(s: System, row: TaskId) {
    exists op :: op in s.ops && Publishes(s.ops[op], row)
  }

  predicate Publishes(op: Op, row: TaskId) {
    (op.Prearming? || op.Rearming?) && op.candidate == row
  }

  /** Rows agree with what was written, and no two rows ever carried one epoch. */
  ghost predicate Recorded(s: System) {
    && (forall id :: id in s.pump.rows ==> id in s.history && s.pump.rows[id].payload == s.history[id])
    && EpochsApart(s.history)
  }

  ghost predicate EpochsApart(history: map<TaskId, Option<Epoch>>) {
    forall a, b :: a in history && b in history && history[a].Some? && history[a] == history[b] ==> a == b
  }

  ghost predicate CandidatesRecorded(s: System) {
    forall op :: op in s.ops ==> CandidateRecorded(s, s.ops[op])
  }

  predicate CandidateRecorded(s: System, op: Op) {
    && (op.Prearming? || op.Rearming? ==> op.candidate in s.history && s.history[op.candidate] == Some(op.epoch))
    && (op.Prearming? ==> op.row in s.history && op.row != op.candidate)
  }

  /** What is written down is true, whatever races. */
  ghost predicate Sound(s: System) {
    && Recorded(s) && CandidatesRecorded(s)
    && (s.pump.driver.Some? ==> WasWritten(s, s.pump.driver.value))
    && (forall op :: op in s.ops && (s.ops[op].Running? || s.ops[op].Returning?) ==> s.ops[op].row in s.history)
  }

  predicate WasWritten(s: System, driver: Driver) {
    driver.task in s.history && s.history[driver.task] == Some(driver.epoch)
  }

  /** A row the base class is about to delete, that can neither be the driver's nor become it. */
  ghost predicate Expendable(s: System, row: TaskId) {
    row !in s.pump.rows || s.pump.rows[row].payload.None? ||
    (!(s.pump.driver.Some? && s.pump.driver.value.task == row) && !InFlight(s, row))
  }

  /** Past its pre-arm, a callback's invoking row is expendable, and gone when it named itself. */
  ghost predicate InvokedRowsExpendable(s: System) {
    forall op :: op in s.ops && (s.ops[op].Running? || s.ops[op].Returning?) ==>
      s.ops[op].row in s.history && Expendable(s, s.ops[op].row)
  }

  ghost predicate Inv(s: System) {
    Recorded(s) && CandidatesRecorded(s) && DriverLive(s.pump) && InvokedRowsExpendable(s)
  }

  /** A stale callback returned while its row was still some suspended operation's candidate. */
  ghost predicate RacesPublication(s: System, e: Event) {
    e.StaleCallback? && e.row in s.pump.rows && InFlight(s, e.row)
  }

  ghost predicate RaceFree(s: System, run: seq<Event>)
    requires Legal(s, run)
    decreases |run|
  {
    run != [] ==> !RacesPublication(s, run[0]) && RaceFree(Apply(s, run[0]), run[1..])
  }

  lemma StepKeepsRows(s: System, e: Event)
    requires Sound(s) && Enabled(s, e)
    ensures forall id :: id in Apply(s, e).pump.rows ==>
      id in Apply(s, e).history && Apply(s, e).pump.rows[id].payload == Apply(s, e).history[id]
  {
  }

  lemma StepKeepsEpochsApart(s: System, e: Event)
    requires Sound(s) && Enabled(s, e)
    ensures EpochsApart(Apply(s, e).history)
  {
  }

  lemma StepKeepsCandidates(s: System, e: Event)
    requires Sound(s) && Enabled(s, e)
    ensures CandidatesRecorded(Apply(s, e))
  {
    var t := Apply(s, e);
    forall op | op in t.ops
      ensures CandidateRecorded(t, t.ops[op])
    {
      if op in s.ops {
        assert CandidateRecorded(s, s.ops[op]);
      }
    }
  }

  lemma StepKeepsDriverWritten(s: System, e: Event)
    requires Sound(s) && Enabled(s, e)
    ensures var t := Apply(s, e); t.pump.driver.Some? ==> WasWritten(t, t.pump.driver.value)
  {
    if e.FinishRearm? || e.FinishPrearm? {
      assert CandidateRecorded(s, s.ops[e.op]);
    }
  }

  lemma StepKeepsInvokedRowsWritten(s: System, e: Event, op: OpId)
    requires Sound(s) && Enabled(s, e)
    requires op in Apply(s, e).ops && (Apply(s, e).ops[op].Running? || Apply(s, e).ops[op].Returning?)
    ensures Apply(s, e).ops[op].row in Apply(s, e).history
  {
    if e.FinishPrearm? || e.FailPrearm? {
      assert CandidateRecorded(s, s.ops[e.op]);
    }
  }

  lemma StepKeepsSound(s: System, e: Event)
    requires Sound(s) && Enabled(s, e)
    ensures Sound(Apply(s, e))
  {
    var t := Apply(s, e);
    StepKeepsRows(s, e);
    StepKeepsEpochsApart(s, e);
    StepKeepsCandidates(s, e);
    StepKeepsDriverWritten(s, e);
    forall op | op in t.ops && (t.ops[op].Running? || t.ops[op].Returning?)
      ensures t.ops[op].row in t.history
    {
      StepKeepsInvokedRowsWritten(s, e, op);
    }
  }

  /** Every reachable state is sound. */
  lemma {:induction false} RunKeepsSound(s: System, run: seq<Event>)
    requires Sound(s) && Legal(s, run)
    ensures Sound(After(s, run))
    decreases |run|
  {
    if run != [] {
      StepKeepsSound(s, run[0]);
      RunKeepsSound(Apply(s, run[0]), run[1..]);
    }
  }

  lemma InvIsSound(s: System)
    requires Inv(s)
    ensures Sound(s)
  {
  }

  lemma StepKeepsDriverLive(s: System, e: Event)
    requires Inv(s) && Enabled(s, e)
    ensures DriverLive(Apply(s, e).pump)
  {
    if e.FinishRearm? || e.FinishPrearm? {
      assert CandidateRecorded(s, s.ops[e.op]);
    }
  }

  /** Nothing brings an expendable row back: publications only ever name their own fresh candidate. */
  lemma ExpendableStable(s: System, e: Event, row: TaskId)
    requires Inv(s) && Enabled(s, e) && row in s.history && Expendable(s, row)
    ensures Expendable(Apply(s, e), row)
  {
    if InFlight(Apply(s, e), row) { FlightsStayKnown(s, e, row); }
    if e.FinishRearm? || e.FinishPrearm? {
      PublicationLeavesExpendable(s, e, row);
    }
  }

  lemma FlightsStayKnown(s: System, e: Event, row: TaskId)
    requires Enabled(s, e) && row in s.history && InFlight(Apply(s, e), row)
    ensures InFlight(s, row)
  {
    var t := Apply(s, e);
    var op :| op in t.ops && Publishes(t.ops[op], row);
    assert op in s.ops && t.ops[op] == s.ops[op];
  }

  lemma PublicationLeavesExpendable(s: System, e: Event, row: TaskId)
    requires Inv(s) && Enabled(s, e) && row in s.history && Expendable(s, row) && (e.FinishRearm? || e.FinishPrearm?)
    ensures Expendable(Apply(s, e), row)
  {
    assert Publishes(s.ops[e.op], s.ops[e.op].candidate);
    if InFlight(Apply(s, e), row) { FlightsStayKnown(s, e, row); }
  }

  lemma InvokedRowExpendable(s: System, e: Event)
    requires Inv(s) && Enabled(s, e) && !RacesPublication(s, e)
    requires e.BeginCallbackFallback? || e.FinishPrearm? || e.FailPrearm? || e.StaleCallback?
    ensures Expendable(Apply(s, e), Apply(s, e).ops[e.op].row)
  {
    var t := Apply(s, e);
    if e.FinishPrearm? || e.FailPrearm? {
      assert CandidateRecorded(s, s.ops[e.op]);
    }
    if e.StaleCallback? && InFlight(t, e.row) {
      var op :| op in t.ops && Publishes(t.ops[op], e.row);
      assert op in s.ops && Publishes(s.ops[op], e.row);
    }
  }

  lemma StepKeepsInvokedRows(s: System, e: Event)
    requires Inv(s) && Enabled(s, e) && !RacesPublication(s, e)
    ensures InvokedRowsExpendable(Apply(s, e))
  {
    var t := Apply(s, e);
    forall op | op in t.ops && (t.ops[op].Running? || t.ops[op].Returning?)
      ensures t.ops[op].row in t.history && Expendable(t, t.ops[op].row)
    {
      if e.BeginCallbackFallback? || e.FinishPrearm? || e.FailPrearm? || e.StaleCallback? {
        if op == e.op {
          if e.FinishPrearm? || e.FailPrearm? { assert CandidateRecorded(s, s.ops[op]); }
          InvokedRowExpendable(s, e);
        } else {
          ExpendableStable(s, e, s.ops[op].row);
        }
      } else {
        ExpendableStable(s, e, s.ops[op].row);
      }
    }
  }

  lemma RaceBreaksInv(s: System, e: Event)
    requires Inv(s) && Enabled(s, e) && RacesPublication(s, e)
    ensures !Inv(Apply(s, e))
  {
    var t := Apply(s, e);
    var op :| op in s.ops && Publishes(s.ops[op], e.row);
    assert CandidateRecorded(s, s.ops[op]);
    assert op in t.ops && Publishes(t.ops[op], e.row);
    assert InFlight(t, e.row) && !Expendable(t, e.row) && t.ops[e.op] == Returning(e.row);
  }

  /** Main result: of all the steps, the race is the one that breaks the invariant, and it always does. */
  lemma StepKeepsInv(s: System, e: Event)
    requires Inv(s) && Enabled(s, e)
    ensures Inv(Apply(s, e)) <==> !RacesPublication(s, e)
  {
    if RacesPublication(s, e) {
      RaceBreaksInv(s, e);
    } else {
      InvIsSound(s);
      StepKeepsRows(s, e);
      StepKeepsEpochsApart(s, e);
      StepKeepsCandidates(s, e);
      StepKeepsDriverLive(s, e);
      StepKeepsInvokedRows(s, e);
    }
  }

  ghost predicate InvThroughout(s: System, run: seq<Event>)
    requires Legal(s, run)
    decreases |run|
  {
    Inv(s) && (run != [] ==> InvThroughout(Apply(s, run[0]), run[1..]))
  }

  /**
   Main result: exactly the race-free runs keep the invariant all along, so in them the driver always
   names an existing row that carries its epoch.
   */
  lemma {:induction false} RunKeepsInv(s: System, run: seq<Event>)
    requires Inv(s) && Legal(s, run)
    ensures InvThroughout(s, run) <==> RaceFree(s, run)
    ensures RaceFree(s, run) ==> Inv(After(s, run)) && DriverLive(After(s, run).pump)
    decreases |run|
  {
    if run != [] {
      StepKeepsInv(s, run[0]);
      if !RacesPublication(s, run[0]) { RunKeepsInv(Apply(s, run[0]), run[1..]); }
    }
  }

  /** A recomputation publishes its candidate exactly when no concurrent swap has compacted it. */
  lemma PublishedIffStillStored(s: System, op: OpId)
    requires Inv(s) && Enabled(s, FinishRearm(op))
    ensures var t := Apply(s, FinishRearm(op));
      if s.ops[op].candidate in s.pump.rows
      then t.pump.driver == Some(Driver(s.ops[op].epoch, s.ops[op].candidate))
      else t.pump == s.pump
  {
    assert CandidateRecorded(s, s.ops[op]);
  }

  /** Runs are taken apart from the front. */
  lemma Unroll(s: System, run: seq<Event>)
    requires run != [] && Enabled(s, run[0]) && Legal(Apply(s, run[0]), run[1..])
    ensures Legal(s, run) && After(s, run) == After(Apply(s, run[0]), run[1..])
    ensures RaceFree(s, run) <==> !RacesPublication(s, run[0]) && RaceFree(Apply(s, run[0]), run[1..])
  {
  }

  // ---- The gap between the stale check and the deletion, exactly ----

  /** A fresh identifier always exists. */
  lemma Unused(ids: set<TaskId>) returns (id: TaskId)
    ensures forall other :: other in ids ==> other < id
  {
    if ids == {} {
      id := 0;
    } else {
      var one :| one in ids;
      var bound := Unused(ids - {one});
      id := Max(one + 1, bound);
      assert forall other :: other in ids ==> other == one || other in ids - {one};
    }
  }

  /**
   Main result: when a stale callback returns but its row is only deleted later, the driver can be
   left naming a deleted row exactly when that row is still a candidate some suspended operation may
   publish. Deleting in the same stretch as the stale check never leaves that gap open.
   */
  lemma StaleReturnIsUnsafeIff(s: System, e: Event)
    requires Inv(s) && e.StaleCallback? && Enabled(s, e)
    ensures (exists run :: Legal(Apply(s, e), run) && RaceFree(Apply(s, e), run) && !DriverLive(After(Apply(s, e), run).pump))
        <==> RacesPublication(s, e)
  {
    var t := Apply(s, e);
    if RacesPublication(s, e) {
      var run := DanglingRun(s, e);
    } else {
      StepKeepsInv(s, e);
      forall run | Legal(t, run) && RaceFree(t, run)
        ensures DriverLive(After(t, run).pump)
      {
        RunKeepsInv(t, run);
      }
    }
  }

  lemma DanglingRun(s: System, e: Event) returns (run: seq<Event>)
    requires Inv(s) && Enabled(s, e) && RacesPublication(s, e)
    ensures Legal(Apply(s, e), run) && RaceFree(Apply(s, e), run) && !DriverLive(After(Apply(s, e), run).pump)
  {
    var t := Apply(s, e);
    var op :| op in s.ops && Publishes(s.ops[op], e.row);
    assert CandidateRecorded(s, s.ops[op]);
    var unused := Unused(t.history.Keys);
    var publish := if s.ops[op].Prearming? then FinishPrearm(op, unused, 0) else FinishRearm(op);
    var delete := DeleteInvoked(e.op);
    var u := Apply(t, publish);
    assert u.pump.driver == Some(Driver(s.ops[op].epoch, e.row));
    var v := Apply(u, delete);
    run := [publish, delete];
    assert run[1..] == [delete] && run[1..][1..] == [];
    assert After(u, [delete]) == v;
    assert Legal(u, [delete]) && RaceFree(u, [delete]);
  }

  // From the start: a recomputation, a stale callback on its candidate, the publication, the deletion.
  const RACE1 := System(Pump(map[0 := Row(Some(0), 1)], None, None), map[0 := Rearming(0, 0)], map[0 := Some(0)])
  const RACE2 := RACE1.(ops := map[0 := Rearming(0, 0), 1 := Returning(0)])
  const RACE3 := RACE2.(pump := Pump(map[0 := Row(Some(0), 1)], Some(Driver(0, 0)), None), ops := map[1 := Returning(0)])
  const RACE4 := RACE3.(pump := Pump(map[], Some(Driver(0, 0)), None), ops := map[])

  lemma RaceBegins()
    ensures Enabled(Start, Recompute(0, Some(0), 0, 0, 0)) && Apply(Start, Recompute(0, Some(0), 0, 0, 0)) == RACE1
    ensures Enabled(RACE1, StaleCallback(1, 0)) && Apply(RACE1, StaleCallback(1, 0)) == RACE2
    ensures RacesPublication(RACE1, StaleCallback(1, 0))
  {
    assert !HasReusable(Start.pump, 1000);
    assert Publishes(RACE1.ops[0], 0);
  }

  lemma RaceEnds()
    ensures Enabled(RACE2, FinishRearm(0)) && Apply(RACE2, FinishRearm(0)) == RACE3
    ensures Enabled(RACE3, DeleteInvoked(1)) && Apply(RACE3, DeleteInvoked(1)) == RACE4
  {
    assert PublishRearm(RACE2.pump, 0, 0).0 == RACE3.pump;
    assert RACE2.ops - {0} == RACE3.ops && RACE3.ops - {1} == RACE4.ops;
    assert WithoutRow(RACE3.pump, 0) == RACE4.pump;
  }

  /** The race is reached from the start in two steps, and two more leave the driver without its row. */
  lemma DriverDangles(run: seq<Event>)
    requires run == [Recompute(0, Some(0), 0, 0, 0), StaleCallback(1, 0), FinishRearm(0), DeleteInvoked(1)]
    ensures Legal(Start, run) && !DriverLive(After(Start, run).pump) && !HasEffective(After(Start, run).pump)
    ensures RacesPublication(Apply(Start, run[0]), run[1])
  {
    RaceBegins();
    RaceEnds();
    assert run[1..][1..] == run[2..] && run[2..][1..] == run[3..] && run[3..][1..] == [];
    Unroll(RACE3, run[3..]);
    Unroll(RACE2, run[2..]);
    Unroll(RACE1, run[1..]);
    Unroll(Start, run);
  }
}
