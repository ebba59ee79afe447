/**
 One callback from its pre-arm to the deletion of its row, and two recomputations that overlap.
 */
module PumpCallbacks {
  import opened Wrappers
  import opened DurablePump
  import opened PumpProtocol
  import opened PumpWakes

  // ---- An uninterrupted callback ----

  function Prearmed(p: Pump, context: Option<TaskId>, prearm: (TaskId, Epoch), time: int): Pump {
    PublishPrearm(Insert(p, prearm.0, Some(prearm.1), time), prearm.0, prearm.1, context).value
  }

  /** Pre-arm, the closing recomputation, and the base class's deletion. */
  ghost function WholeCallback(p: Pump, row: TaskId, context: Option<TaskId>, prearm: (TaskId, Epoch), time: int,
                               wake: int, now: int, rearm: (TaskId, Epoch)): Pump
  {
    var (begun, outcome) := BeginRearm(Prearmed(p, context, prearm, time), Some(wake), now, rearm.0, rearm.1);
    WithoutRow(if outcome.Scheduled? then PublishRearm(begun, rearm.0, rearm.1).0 else begun, row)
  }

  /** The same as a run of the protocol, by a callback `op` whose recomputation is suspended as `inner`. */
  function CallbackRun(op: OpId, inner: OpId, row: TaskId, context: Option<TaskId>, prearm: (TaskId, Epoch), time: int,
                       fallback: TaskId, wake: int, now: int, rearm: (TaskId, Epoch), scheduled: bool): seq<Event>
  {
    [BeginCallback(op, row, context, prearm.0, prearm.1, time), FinishPrearm(op, fallback, time),
     Recompute(inner, Some(wake), now, rearm.0, rearm.1)] +
    (if scheduled then [FinishRearm(inner)] else []) + [ReturnCallback(op), DeleteInvoked(op)]
  }

  lemma PrearmRun(s: System, op: OpId, row: TaskId, context: Option<TaskId>, prearm: (TaskId, Epoch), time: int, fallback: TaskId)
    requires op !in s.ops && row in s.history && Current(s.pump, s.history[row]) && (context == None || context == Some(row))
    requires FreshId(s, prearm.0) && FreshEpoch(s, prearm.1) && FreshId(s, fallback) && fallback != prearm.0
    ensures Enabled(s, BeginCallback(op, row, context, prearm.0, prearm.1, time))
    ensures var t := Apply(s, BeginCallback(op, row, context, prearm.0, prearm.1, time));
      Enabled(t, FinishPrearm(op, fallback, time)) &&
      Apply(t, FinishPrearm(op, fallback, time)) ==
        System(Prearmed(s.pump, context, prearm, time), s.ops[op := Running(row, context)],
               s.history[prearm.0 := Some(prearm.1)][fallback := None])
  {
  }

  lemma ReturnRun(s: System, op: OpId, run: seq<Event>)
    requires op in s.ops && s.ops[op].Running? && run == [ReturnCallback(op), DeleteInvoked(op)]
    ensures Legal(s, run) && RaceFree(s, run) && After(s, run).pump == WithoutRow(s.pump, s.ops[op].row)
  {
    var t := Apply(s, run[0]);
    assert run[1..][1..] == [] && t.ops[op] == Returning(s.ops[op].row);
    Unroll(t, run[1..]);
    Unroll(s, run);
  }

  lemma RearmRun(s: System, op: OpId, inner: OpId, wake: int, now: int, rearm: (TaskId, Epoch), run: seq<Event>)
    requires op in s.ops && s.ops[op].Running? && inner !in s.ops && FreshId(s, rearm.0) && FreshEpoch(s, rearm.1)
    requires run == [Recompute(inner, Some(wake), now, rearm.0, rearm.1)] +
      (if HasReusable(s.pump, Target(wake, now)) then [] else [FinishRearm(inner)]) + [ReturnCallback(op), DeleteInvoked(op)]
    ensures Legal(s, run) && RaceFree(s, run)
    ensures var (begun, outcome) := BeginRearm(s.pump, Some(wake), now, rearm.0, rearm.1);
      After(s, run).pump ==
        WithoutRow(if outcome.Scheduled? then PublishRearm(begun, rearm.0, rearm.1).0 else begun, s.ops[op].row)
  {
    var t := Apply(s, run[0]);
    if HasReusable(s.pump, Target(wake, now)) {
      ReturnRun(t, op, run[1..]);
    } else {
      assert t.ops[inner] == Rearming(rearm.0, rearm.1);
      ReturnRun(Apply(t, run[1]), op, run[1..][1..]);
      Unroll(t, run[1..]);
    }
    Unroll(s, run);
  }

  /** Main result: `WholeCallback` is what the protocol does with a callback that nothing interrupts. */
  lemma WholeCallbackIsRun(s: System, op: OpId, inner: OpId, row: TaskId, context: Option<TaskId>, prearm: (TaskId, Epoch),
                           time: int, fallback: TaskId, wake: int, now: int, rearm: (TaskId, Epoch))
    requires op !in s.ops && inner !in s.ops && op != inner
    requires row in s.history && Current(s.pump, s.history[row]) && (context == None || context == Some(row))
    requires FreshId(s, prearm.0) && FreshId(s, fallback) && FreshId(s, rearm.0)
    requires prearm.0 != fallback && rearm.0 != prearm.0 && rearm.0 != fallback
    requires FreshEpoch(s, prearm.1) && FreshEpoch(s, rearm.1) && prearm.1 != rearm.1
    ensures var scheduled := !HasReusable(Prearmed(s.pump, context, prearm, time), Target(wake, now));
      var run := CallbackRun(op, inner, row, context, prearm, time, fallback, wake, now, rearm, scheduled);
      Legal(s, run) && RaceFree(s, run) && After(s, run).pump == WholeCallback(s.pump, row, context, prearm, time, wake, now, rearm)
  {
    var scheduled := !HasReusable(Prearmed(s.pump, context, prearm, time), Target(wake, now));
    var run := CallbackRun(op, inner, row, context, prearm, time, fallback, wake, now, rearm, scheduled);
    PrearmRun(s, op, row, context, prearm, time, fallback);
    var t := Apply(s, run[0]);
    var u := Apply(t, run[1]);
    assert run[1..][1..] == run[2..] == [Recompute(inner, Some(wake), now, rearm.0, rearm.1)] +
      (if scheduled then [FinishRearm(inner)] else []) + [ReturnCallback(op), DeleteInvoked(op)];
    RearmRun(u, op, inner, wake, now, rearm, run[2..]);
    Unroll(t, run[1..]);
    Unroll(s, run);
  }

  lemma ReusableOncePrearmed(p: Pump, context: Option<TaskId>, prearm: (TaskId, Epoch), time: int, target: int, id: TaskId)
    requires prearm.0 !in p.rows
    ensures Reusable(Prearmed(p, context, prearm, time), target, id) <==>
      PayloadFree(p, id) && Some(id) != context && p.rows[id].time * 1000 <= target
  {
  }

  /** With the temporary row gone and no new one, the payload-free rows are what is left. */
  lemma LeftAfterReuse(p: Pump, row: TaskId, context: Option<TaskId>, prearm: (TaskId, Epoch), time: int,
                       wake: int, now: int, rearm: (TaskId, Epoch), id: TaskId)
    requires prearm.0 !in p.rows && HasReusable(Prearmed(p, context, prearm, time), Target(wake, now))
    ensures Effective(WholeCallback(p, row, context, prearm, time, wake, now, rearm), id) <==>
      PayloadFree(p, id) && Some(id) != context && id != row
  {
  }

  lemma LeftAfterRearm(p: Pump, row: TaskId, context: Option<TaskId>, prearm: (TaskId, Epoch), time: int,
                       wake: int, now: int, rearm: (TaskId, Epoch))
    requires row in p.rows && rearm.0 !in p.rows && prearm.0 !in p.rows && prearm.0 != rearm.0
    requires !HasReusable(Prearmed(p, context, prearm, time), Target(wake, now))
    ensures Effective(WholeCallback(p, row, context, prearm, time, wake, now, rearm), rearm.0)
  {
  }

  /**
   Main result: an uninterrupted callback leaves an effective row behind exactly when it was told its
   own row's identifier, or ran on an epoch row, or no payload-free row was due (so a new row was
   written), or another payload-free row remains. Without the identifier the recomputation may reuse
   the very row the base class is about to delete.
   */
  lemma CallbackKeepsWakeIff(p: Pump, row: TaskId, context: Option<TaskId>, prearm: (TaskId, Epoch), time: int,
                             wake: int, now: int, rearm: (TaskId, Epoch))
    requires Effective(p, row) && (context == None || context == Some(row))
    requires prearm.0 !in p.rows && rearm.0 !in p.rows && prearm.0 != rearm.0
    ensures HasEffective(WholeCallback(p, row, context, prearm, time, wake, now, rearm)) <==>
      || context == Some(row)
      || p.rows[row].payload.Some?
      || (forall id :: PayloadFree(p, id) ==> p.rows[id].time * 1000 > Target(wake, now))
      || (exists id :: PayloadFree(p, id) && id != row)
  {
    var q := Prearmed(p, context, prearm, time);
    var target := Target(wake, now);
    var r := WholeCallback(p, row, context, prearm, time, wake, now, rearm);
    forall id: TaskId { ReusableOncePrearmed(p, context, prearm, time, target, id); }
    if HasReusable(q, target) {
      var reused :| Reusable(q, target, reused);
      forall id: TaskId { LeftAfterReuse(p, row, context, prearm, time, wake, now, rearm, id); }
      if context == Some(row) || p.rows[row].payload.Some? { assert Effective(r, reused); }
    } else {
      LeftAfterRearm(p, row, context, prearm, time, wake, now, rearm);
      FreshRowReasons(p, row, context, prearm, time, target);
    }
  }

  lemma FreshRowReasons(p: Pump, row: TaskId, context: Option<TaskId>, prearm: (TaskId, Epoch), time: int, target: int)
    requires row in p.rows && prearm.0 !in p.rows && (context == None || context == Some(row))
    requires !HasReusable(Prearmed(p, context, prearm, time), target)
    ensures || context == Some(row)
            || (forall id :: PayloadFree(p, id) ==> p.rows[id].time * 1000 > target)
  {
    forall id: TaskId | context == None && PayloadFree(p, id)
      ensures p.rows[id].time * 1000 > target
    {
      ReusableOncePrearmed(p, context, prearm, time, target, id);
    }
  }

  // ---- Recomputations that overlap ----

  /**
   Two recomputations overlap and the other one publishes first: this one's candidate is compacted
   and nothing is published for it. The pump still wakes by this one's target exactly when the
   winner's row, or a payload-free row other than the pre-arm row, happens to be due by then.
   */
  lemma LoserWakesInTimeIff(p: Pump, winner: (TaskId, Epoch), loser: (TaskId, Epoch), target: int)
    requires winner.0 in p.rows && loser.0 in p.rows && winner.0 != loser.0
    requires p.rows[winner.0].payload == Some(winner.1) && p.rows[loser.0].payload == Some(loser.1)
    ensures var afterWinner := PublishRearm(p, winner.0, winner.1).0;
      PublishRearm(afterWinner, loser.0, loser.1) == (afterWinner, false) &&
      (WakesBy(afterWinner, target) <==>
        p.rows[winner.0].time * 1000 <= target ||
        exists id :: PayloadFree(p, id) && Some(id) != p.prearm && p.rows[id].time * 1000 <= target)
  {
    var q := PublishRearm(p, winner.0, winner.1).0;
    assert Effective(q, winner.0) && q.rows[winner.0] == p.rows[winner.0];
    assert forall id :: Effective(q, id) <==> id == winner.0 || (PayloadFree(p, id) && Some(id) != p.prearm);
  }

  /** A published or reused row is due by the wake that was computed, or within the next second. */
  lemma RearmWakesInTime(p: Pump, wake: int, now: int, task: TaskId, epoch: Epoch)
    requires DriverLive(p) && task !in p.rows
    ensures var (begun, outcome) := BeginRearm(p, Some(wake), now, task, epoch);
      WakesBy(if outcome.Scheduled? then PublishRearm(begun, task, epoch).0 else begun, Max(wake, now + 1000))
  {
    var target := Target(wake, now);
    if HasReusable(p, target) {
      var id :| Reusable(p, target, id);
      assert Effective(DiscardPrearm(p), id);
    } else {
      var q := PublishRearm(BeginRearm(p, Some(wake), now, task, epoch).0, task, epoch).0;
      assert Effective(q, task) && q.rows[task].time == target / 1000;
    }
  }

  // The overlap of `CompactedRecomputationMayWakeLate`, state by state.
  const LATE := Row(Some(0), 200)
  const EARLY := Row(Some(1), 100)
  const OVERLAP1 := System(Pump(map[0 := LATE], None, None), map[0 := Rearming(0, 0)], map[0 := Some(0)])
  const OVERLAP2 := System(Pump(map[0 := LATE, 1 := EARLY], None, None),
                           map[0 := Rearming(0, 0), 1 := Rearming(1, 1)], map[0 := Some(0), 1 := Some(1)])
  const OVERLAP3 := System(Pump(map[0 := LATE], Some(Driver(0, 0)), None),
                           map[1 := Rearming(1, 1)], map[0 := Some(0), 1 := Some(1)])
  const OVERLAP4 := System(Pump(map[0 := LATE], Some(Driver(0, 0)), None), map[], map[0 := Some(0), 1 := Some(1)])

  lemma OverlapBegins()
    ensures Enabled(Start, Recompute(0, Some(200_000), 0, 0, 0))
    ensures Apply(Start, Recompute(0, Some(200_000), 0, 0, 0)) == OVERLAP1
    ensures Enabled(OVERLAP1, Recompute(1, Some(100_000), 0, 1, 1))
    ensures Apply(OVERLAP1, Recompute(1, Some(100_000), 0, 1, 1)) == OVERLAP2
  {
    assert !Reusable(OVERLAP1.pump, 100_000, 0);
  }

  lemma OverlapEnds()
    ensures Enabled(OVERLAP2, FinishRearm(0)) && Apply(OVERLAP2, FinishRearm(0)) == OVERLAP3
    ensures Enabled(OVERLAP3, FinishRearm(1)) && Apply(OVERLAP3, FinishRearm(1)) == OVERLAP4
    ensures !WakesBy(OVERLAP4.pump, 100_000)
  {
    var q := PublishRearm(OVERLAP2.pump, 0, 0).0;
    assert q.rows == map[0 := LATE];
  }

  /**
   A published winner may wake later than a recomputation it compacted: one that read the tables
   before an earlier wake was committed schedules 200 s, one that read them after schedules 100 s,
   and the one that read first publishes first.
   */
  lemma CompactedRecomputationMayWakeLate(run: seq<Event>)
    requires run == [Recompute(0, Some(200_000), 0, 0, 0), Recompute(1, Some(100_000), 0, 1, 1), FinishRearm(0), FinishRearm(1)]
    ensures Legal(Start, run) && RaceFree(Start, run)
    ensures !WakesBy(After(Start, run).pump, 100_000)
  {
    OverlapBegins();
    OverlapEnds();
    assert run[1..][1..] == run[2..] && run[2..][1..] == run[3..] && run[3..][1..] == [];
    Unroll(OVERLAP3, run[3..]);
    Unroll(OVERLAP2, run[2..]);
    Unroll(OVERLAP1, run[1..]);
    Unroll(Start, run);
  }
}
