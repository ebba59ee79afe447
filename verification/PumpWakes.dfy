/**
 The wake that is never lost: which rows a pump state can still count on, and which steps leave none.
 The base class deletes a callback's row after it returned, so a row may do work now and be doomed.
 */
module PumpWakes {
  import opened Wrappers
  import opened DurablePump
  import opened PumpProtocol

  /** An operation past its pre-arm whose row the base class will delete. */
  predicate Deletes(op: Op, row: TaskId) {
    (op.Running? || op.Returning?) && op.row == row
  }

  ghost predicate Doomed(s: System, row: TaskId) {
    exists op :: op in s.ops && Deletes(s.ops[op], row)
  }

  /** A row that would do work, and that no suspended callback takes with it. */
  ghost predicate Lasting(s: System, id: TaskId) {
    Effective(s.pump, id) && !Doomed(s, id)
  }

  ghost predicate HasLasting(s: System) {
    exists id :: Lasting(s, id)
  }

  // ---- What lasting means ----

  /** The callbacks in flight return, and their rows are deleted. */
  predicate OnlyReturns(run: seq<Event>) {
    forall i :: 0 <= i < |run| ==> run[i].ReturnCallback? || run[i].DeleteInvoked?
  }

  lemma ReturnKeepsLasting(s: System, e: Event, id: TaskId)
    requires Enabled(s, e) && (e.ReturnCallback? || e.DeleteInvoked?)
    ensures Lasting(Apply(s, e), id) <==> Lasting(s, id)
  {
    var t := Apply(s, e);
    if Doomed(s, id) {
      var op :| op in s.ops && Deletes(s.ops[op], id);
      if op in t.ops { assert Deletes(t.ops[op], id); }
    }
    if Doomed(t, id) {
      var op :| op in t.ops && Deletes(t.ops[op], id);
      assert Deletes(s.ops[op], id);
    }
    if e.DeleteInvoked? { assert Deletes(s.ops[e.op], s.ops[e.op].row); }
  }

  lemma {:induction false} ReturnsKeepLasting(s: System, run: seq<Event>, id: TaskId)
    requires Legal(s, run) && OnlyReturns(run)
    ensures Lasting(After(s, run), id) <==> Lasting(s, id)
    decreases |run|
  {
    if run != [] {
      assert run[0].ReturnCallback? || run[0].DeleteInvoked?;
      ReturnKeepsLasting(s, run[0], id);
      ReturnsKeepLasting(Apply(s, run[0]), run[1..], id);
    }
  }

  function Pending(ops: map<OpId, Op>): set<OpId> {
    set op | op in ops && (ops[op].Running? || ops[op].Returning?)
  }

  /** Every callback that is past its pre-arm can return and lose its row. */
  lemma {:induction false} Drain(s: System) returns (run: seq<Event>)
    ensures Legal(s, run) && OnlyReturns(run) && Pending(After(s, run).ops) == {}
    decreases |Pending(s.ops)|
  {
    if Pending(s.ops) == {} {
      run := [];
    } else {
      var op :| op in Pending(s.ops);
      var returned := if s.ops[op].Running? then Apply(s, ReturnCallback(op)) else s;
      var deleted := Apply(returned, DeleteInvoked(op));
      assert Pending(deleted.ops) == Pending(s.ops) - {op};
      var rest := Drain(deleted);
      run := [DeleteInvoked(op)] + rest;
      assert run[1..] == rest;
      if s.ops[op].Running? {
        assert ([ReturnCallback(op)] + run)[1..] == run;
        run := [ReturnCallback(op)] + run;
      }
    }
  }

  /** Main result: a wake lasts exactly if it survives every return of the callbacks now in flight. */
  lemma LastingIff(s: System)
    ensures HasLasting(s) <==> forall run :: Legal(s, run) && OnlyReturns(run) ==> HasEffective(After(s, run).pump)
  {
    if HasLasting(s) {
      var id :| Lasting(s, id);
      forall run | Legal(s, run) && OnlyReturns(run)
        ensures HasEffective(After(s, run).pump)
      {
        ReturnsKeepLasting(s, run, id);
        assert Effective(After(s, run).pump, id);
      }
    } else {
      var run := Drain(s);
      var t := After(s, run);
      forall id: TaskId
        ensures !Effective(t.pump, id)
      {
        ReturnsKeepLasting(s, run, id);
        assert !Lasting(s, id) && !Lasting(t, id);
        forall op | op in t.ops
          ensures !Deletes(t.ops[op], id)
        {
          assert op !in Pending(t.ops);
        }
      }
    }
  }

  // ---- The steps that keep it ----

  predicate PayloadFree(p: Pump, id: TaskId) {
    id in p.rows && p.rows[id].payload.None?
  }

  /** What a recomputation keeps when it writes no row of its own. */
  ghost predicate LastsBesidesPrearm(s: System, payloadFree: bool) {
    exists id: TaskId :: Lasting(s, id) && Some(id) != s.pump.prearm && (payloadFree ==> PayloadFree(s.pump, id))
  }

  /** What survives the publication of a pre-armed successor, its callback's own row aside. */
  ghost predicate LastsBesidesRow(s: System, row: TaskId) {
    exists id: TaskId :: Lasting(s, id) && PayloadFree(s.pump, id) && id != row
  }

  /** The candidate is still stored, but a stale callback on it will take it away. */
  ghost predicate PublishesDoomed(s: System, op: Op) {
    (op.Prearming? || op.Rearming?) && op.candidate in s.pump.rows && Doomed(s, op.candidate)
  }

  /**
   The steps that leave no lasting wake: parking with nothing retained; and, when no other row lasts, a
   recomputation that finds no wake time, one that reuses a doomed row, and publishing a doomed row.
   */
  ghost predicate LosesWake(s: System, e: Event) {
    match e
    case ParkEmpty => true
    case Recompute(_, None, _, _, _) => !LastsBesidesPrearm(s, true)
    case Recompute(_, Some(wake), now, _, _) => HasReusable(s.pump, Target(wake, now)) && !LastsBesidesPrearm(s, false)
    case FinishPrearm(op, _, _) =>
      op in s.ops && s.ops[op].Prearming? && PublishesDoomed(s, s.ops[op]) && !LastsBesidesRow(s, s.ops[op].row)
    case FinishRearm(op) => op in s.ops && PublishesDoomed(s, s.ops[op]) && !LastsBesidesPrearm(s, true)
    case _ => false
  }

  /** No row is written by the step. */
  predicate Carries(e: Event) {
    e.Admit? || e.BeginCallback? || e.StaleCallback? || e.ReturnCallback? || e.DeleteInvoked? || e.Reset?
  }

  lemma CarriedRowLasts(s: System, e: Event, id: TaskId)
    requires Sound(s) && Enabled(s, e) && Carries(e) && Lasting(s, id)
    ensures Lasting(Apply(s, e), id)
  {
    var t := Apply(s, e);
    if e.DeleteInvoked? { assert Deletes(s.ops[e.op], s.ops[e.op].row); }
    forall op | op in t.ops
      ensures !Deletes(t.ops[op], id)
    {
      if op in s.ops { assert !Deletes(s.ops[op], id); }
    }
  }

  predicate Replaces(e: Event) {
    e.BeginCallbackFallback? || e.FailPrearm? || e.Fallback? || e.Park?
  }

  function Replacement(e: Event): TaskId
    requires Replaces(e)
  {
    match e
    case BeginCallbackFallback(_, _, _, id, _) => id
    case FailPrearm(_, fallback, _) => fallback
    case Fallback(id, _) => id
    case Park(id, _) => id
  }

  /** A row written afresh is nobody's invoked row. */
  lemma FreshRowIsNotDoomed(s: System, e: Event, id: TaskId)
    requires Sound(s) && Enabled(s, e) && FreshId(s, id)
    requires Replaces(e) || e.FinishPrearm?
    ensures !Doomed(Apply(s, e), id)
  {
    var t := Apply(s, e);
    if e.FinishPrearm? || e.FailPrearm? { assert CandidateRecorded(s, s.ops[e.op]); }
    forall op | op in t.ops
      ensures !Deletes(t.ops[op], id)
    {
      assert t.ops[op].Running? || t.ops[op].Returning? ==> t.ops[op].row in s.history;
    }
  }

  lemma ReplacementLasts(s: System, e: Event)
    requires Sound(s) && Enabled(s, e) && Replaces(e)
    ensures HasLasting(Apply(s, e))
  {
    FreshRowIsNotDoomed(s, e, Replacement(e));
    assert Lasting(Apply(s, e), Replacement(e));
  }

  /** A stored candidate is not doomed, for no callback on it got past its pre-arm. */
  lemma CandidateIsNotDoomed(s: System, op: OpId)
    requires Inv(s) && op in s.ops && (s.ops[op].Prearming? || s.ops[op].Rearming?) && s.ops[op].candidate in s.pump.rows
    ensures !Doomed(s, s.ops[op].candidate)
  {
    var candidate := s.ops[op].candidate;
    assert CandidateRecorded(s, s.ops[op]) && Publishes(s.ops[op], candidate);
    assert !Expendable(s, candidate);
    forall other | other in s.ops
      ensures !Deletes(s.ops[other], candidate)
    {
      assert s.ops[other].Running? || s.ops[other].Returning? ==> Expendable(s, s.ops[other].row);
    }
  }

  /** A suspended pre-arm was told its own row's identifier or none. */
  ghost predicate ContextsOwn(s: System) {
    forall op :: op in s.ops && s.ops[op].Prearming? ==> s.ops[op].context == None || s.ops[op].context == Some(s.ops[op].row)
  }

  lemma StepKeepsContextsOwn(s: System, e: Event)
    requires ContextsOwn(s) && Enabled(s, e)
    ensures ContextsOwn(Apply(s, e))
  {
  }

  /** With its pre-arm over, a callback's own row is doomed and no other. */
  lemma PrearmDooms(s: System, e: Event, id: TaskId)
    requires Sound(s) && Enabled(s, e) && e.FinishPrearm?
    ensures Doomed(Apply(s, e), id) <==> Doomed(s, id) || id == s.ops[e.op].row
  {
    var t := Apply(s, e);
    if Doomed(s, id) {
      var op :| op in s.ops && Deletes(s.ops[op], id);
      assert op != e.op && Deletes(t.ops[op], id);
    }
    if id == s.ops[e.op].row { assert Deletes(t.ops[e.op], id); }
    if Doomed(t, id) && id != s.ops[e.op].row {
      var op :| op in t.ops && Deletes(t.ops[op], id);
      assert op != e.op && Deletes(s.ops[op], id);
    }
  }

  lemma EffectiveOncePrearmed(s: System, e: Event, id: TaskId)
    requires Sound(s) && Enabled(s, e) && e.FinishPrearm? && s.ops[e.op].candidate in s.pump.rows
    ensures Effective(Apply(s, e).pump, id) <==>
      id == s.ops[e.op].candidate || (PayloadFree(s.pump, id) && Some(id) != s.ops[e.op].context)
  {
    assert CandidateRecorded(s, s.ops[e.op]);
  }

  lemma PrearmKeepsLastingIff(s: System, e: Event)
    requires Sound(s) && ContextsOwn(s) && Enabled(s, e) && e.FinishPrearm?
    ensures HasLasting(Apply(s, e)) <==> !LosesWake(s, e)
  {
    var t, o := Apply(s, e), s.ops[e.op];
    assert CandidateRecorded(s, o);
    if o.candidate in s.pump.rows {
      forall id: TaskId { PrearmDooms(s, e, id); }
      forall id: TaskId { EffectiveOncePrearmed(s, e, id); }
      assert Lasting(t, o.candidate) <==> !Doomed(s, o.candidate);
      assert forall id: TaskId :: id != o.candidate ==> (Lasting(t, id) <==> Lasting(s, id) && PayloadFree(s.pump, id) && id != o.row);
    } else {
      FreshRowIsNotDoomed(s, e, e.fallback);
      assert Lasting(t, e.fallback);
    }
  }

  lemma RearmDooms(s: System, e: Event, id: TaskId)
    requires Enabled(s, e) && e.FinishRearm?
    ensures Doomed(Apply(s, e), id) <==> Doomed(s, id)
  {
    var t := Apply(s, e);
    if Doomed(s, id) {
      var op :| op in s.ops && Deletes(s.ops[op], id);
      assert op in t.ops && Deletes(t.ops[op], id);
    }
    if Doomed(t, id) {
      var op :| op in t.ops && Deletes(t.ops[op], id);
      assert op in s.ops && Deletes(s.ops[op], id);
    }
  }

  lemma EffectiveOnceRearmed(s: System, e: Event, id: TaskId)
    requires Sound(s) && Enabled(s, e) && e.FinishRearm? && s.ops[e.op].candidate in s.pump.rows
    ensures Effective(Apply(s, e).pump, id) <==>
      id == s.ops[e.op].candidate || (PayloadFree(s.pump, id) && Some(id) != s.pump.prearm)
  {
    assert CandidateRecorded(s, s.ops[e.op]);
  }

  lemma RearmKeepsLastingIff(s: System, e: Event)
    requires Sound(s) && Enabled(s, e) && e.FinishRearm? && HasLasting(s)
    ensures HasLasting(Apply(s, e)) <==> !LosesWake(s, e)
  {
    var t, o := Apply(s, e), s.ops[e.op];
    forall id: TaskId { RearmDooms(s, e, id); }
    assert CandidateRecorded(s, o);
    if o.candidate in s.pump.rows {
      forall id: TaskId { EffectiveOnceRearmed(s, e, id); }
      assert Lasting(t, o.candidate) <==> !Doomed(s, o.candidate);
      assert forall id: TaskId :: id != o.candidate ==>
        (Lasting(t, id) <==> Lasting(s, id) && PayloadFree(s.pump, id) && Some(id) != s.pump.prearm);
    } else {
      var id :| Lasting(s, id);
      assert t.pump == s.pump && Lasting(t, id);
    }
  }

  /** A recomputation leaves the operations past their pre-arm alone. */
  lemma RecomputeDooms(s: System, e: Event, id: TaskId)
    requires Enabled(s, e) && e.Recompute?
    ensures Doomed(Apply(s, e), id) <==> Doomed(s, id)
  {
    var t := Apply(s, e);
    if Doomed(s, id) {
      var op :| op in s.ops && Deletes(s.ops[op], id);
      assert op in t.ops && Deletes(t.ops[op], id);
    }
    if Doomed(t, id) {
      var op :| op in t.ops && Deletes(t.ops[op], id);
      assert op in s.ops && Deletes(s.ops[op], id);
    }
  }

  lemma DiscardKeepsEffectiveIff(p: Pump, id: TaskId)
    requires EpochsOnce(p)
    ensures Effective(DiscardPrearm(p), id) <==> Effective(p, id) && Some(id) != p.prearm
  {
  }

  /** No other stored row carries the driver's epoch. */
  ghost predicate EpochsOnce(p: Pump) {
    p.driver.Some? ==> forall id :: id in p.rows && p.rows[id].payload == Some(p.driver.value.epoch) ==> id == p.driver.value.task
  }

  lemma RecomputeKeepsLastingIff(s: System, e: Event)
    requires Sound(s) && Enabled(s, e) && e.Recompute? && HasLasting(s)
    ensures HasLasting(Apply(s, e)) <==> !LosesWake(s, e)
  {
    var t := Apply(s, e);
    forall id: TaskId { RecomputeDooms(s, e, id); }
    if e.wake.None? {
      assert forall id: TaskId :: Lasting(t, id) <==> Lasting(s, id) && Some(id) != s.pump.prearm && PayloadFree(s.pump, id);
    } else if HasReusable(s.pump, Target(e.wake.value, e.now)) {
      forall id: TaskId { DiscardKeepsEffectiveIff(s.pump, id); }
      assert forall id: TaskId :: Lasting(t, id) <==> Lasting(s, id) && Some(id) != s.pump.prearm;
    } else {
      var id :| Lasting(s, id);
      assert Lasting(t, id);
    }
  }

  /** Main result: in every sound state a lasting wake is kept by every step, with exactly the exceptions of `LosesWake`. */
  lemma StepKeepsLastingIff(s: System, e: Event)
    requires Sound(s) && ContextsOwn(s) && Enabled(s, e) && HasLasting(s)
    ensures HasLasting(Apply(s, e)) <==> !LosesWake(s, e)
  {
    var id :| Lasting(s, id);
    if e.Recompute? {
      RecomputeKeepsLastingIff(s, e);
    } else if Carries(e) {
      CarriedRowLasts(s, e, id);
    } else if Replaces(e) {
      ReplacementLasts(s, e);
    } else if e.FinishPrearm? {
      PrearmKeepsLastingIff(s, e);
    } else if e.FinishRearm? {
      RearmKeepsLastingIff(s, e);
    } else {
      assert e.ParkEmpty?;
    }
  }

  ghost predicate LastsThroughout(s: System, run: seq<Event>)
    requires Legal(s, run)
    decreases |run|
  {
    HasLasting(s) && (run != [] ==> LastsThroughout(Apply(s, run[0]), run[1..]))
  }

  ghost predicate NeverLosesWake(s: System, run: seq<Event>)
    requires Legal(s, run)
    decreases |run|
  {
    run != [] ==> !LosesWake(s, run[0]) && NeverLosesWake(Apply(s, run[0]), run[1..])
  }

  /**
   Main result: over all runs, racing or not, of callbacks told their identifiers or not, a wake lasts all
   along exactly when no step loses it.
   */
  lemma {:induction false} RunKeepsLastingIff(s: System, run: seq<Event>)
    requires Sound(s) && ContextsOwn(s) && HasLasting(s) && Legal(s, run)
    ensures LastsThroughout(s, run) <==> NeverLosesWake(s, run)
    decreases |run|
  {
    if run != [] {
      StepKeepsSound(s, run[0]);
      StepKeepsContextsOwn(s, run[0]);
      StepKeepsLastingIff(s, run[0]);
      if !LosesWake(s, run[0]) { RunKeepsLastingIff(Apply(s, run[0]), run[1..]); }
    }
  }

  /** `Start` is sound, and what is reached from it is. */
  lemma {:induction false} ReachableIsSound(run: seq<Event>)
    requires Legal(Start, run)
    ensures Sound(After(Start, run)) && ContextsOwn(After(Start, run))
  {
    RunKeepsSound(Start, run);
    RunKeepsContextsOwn(Start, run);
  }

  lemma {:induction false} RunKeepsContextsOwn(s: System, run: seq<Event>)
    requires ContextsOwn(s) && Legal(s, run)
    ensures ContextsOwn(After(s, run))
    decreases |run|
  {
    if run != [] {
      StepKeepsContextsOwn(s, run[0]);
      RunKeepsContextsOwn(Apply(s, run[0]), run[1..]);
    }
  }

  // ---- Callbacks that are told their own identifier ----

  predicate FindsNoWake(e: Event) {
    e.ParkEmpty? || (e.Recompute? && e.wake.None?)
  }

  /** The base class handed the callback its own row's identifier. */
  predicate NamesItself(e: Event) {
    e.BeginCallback? ==> e.context == Some(e.row)
  }

  ghost predicate Spent(s: System, row: TaskId) {
    Expendable(s, row) && (row in s.pump.rows ==> s.pump.rows[row].payload.Some?)
  }

  ghost predicate InvokedRowsSpent(s: System) {
    && (forall op :: op in s.ops && (s.ops[op].Running? || s.ops[op].Returning?) ==> Spent(s, s.ops[op].row))
    && (forall op :: op in s.ops && s.ops[op].Prearming? ==> s.ops[op].context == Some(s.ops[op].row))
  }

  lemma SpentStable(s: System, e: Event, row: TaskId)
    requires Inv(s) && Enabled(s, e) && row in s.history && Spent(s, row)
    ensures Spent(Apply(s, e), row)
  {
    ExpendableStable(s, e, row);
  }

  /** The publication removes the row that the callback was told is its own. */
  lemma PrearmSpends(s: System, e: Event)
    requires Inv(s) && Enabled(s, e) && e.FinishPrearm? && s.ops[e.op].context == Some(s.ops[e.op].row)
    ensures Spent(Apply(s, e), s.ops[e.op].row)
  {
    assert CandidateRecorded(s, s.ops[e.op]);
    InvokedRowExpendable(s, e);
  }

  lemma OtherRowSpent(s: System, e: Event)
    requires Inv(s) && Enabled(s, e) && !RacesPublication(s, e)
    requires e.BeginCallbackFallback? || e.FailPrearm? || e.StaleCallback?
    ensures Spent(Apply(s, e), Apply(s, e).ops[e.op].row)
  {
    if e.FailPrearm? { assert CandidateRecorded(s, s.ops[e.op]); }
    InvokedRowExpendable(s, e);
  }

  lemma OpRowStaysSpent(s: System, e: Event, op: OpId)
    requires Inv(s) && Enabled(s, e) && !RacesPublication(s, e) && InvokedRowsSpent(s) && NamesItself(e)
    requires op in Apply(s, e).ops && (Apply(s, e).ops[op].Running? || Apply(s, e).ops[op].Returning?)
    ensures Spent(Apply(s, e), Apply(s, e).ops[op].row)
  {
    if op in s.ops && (s.ops[op].Running? || s.ops[op].Returning?) {
      SpentStable(s, e, s.ops[op].row);
    } else if e.FinishPrearm? {
      PrearmSpends(s, e);
    } else {
      OtherRowSpent(s, e);
    }
  }

  lemma StepKeepsSpent(s: System, e: Event)
    requires Inv(s) && Enabled(s, e) && !RacesPublication(s, e) && InvokedRowsSpent(s) && NamesItself(e)
    ensures InvokedRowsSpent(Apply(s, e))
  {
    var t := Apply(s, e);
    forall op | op in t.ops && (t.ops[op].Running? || t.ops[op].Returning?)
      ensures Spent(t, t.ops[op].row)
    {
      OpRowStaysSpent(s, e, op);
    }
  }

  /** A spent row never carries the driver's epoch, so whatever is effective lasts. */
  lemma EffectiveLasts(s: System, id: TaskId)
    requires Inv(s) && InvokedRowsSpent(s) && Effective(s.pump, id)
    ensures Lasting(s, id)
  {
    assert !Spent(s, id);
    forall op | op in s.ops
      ensures !Deletes(s.ops[op], id)
    {
      assert s.ops[op].Running? || s.ops[op].Returning? ==> Spent(s, s.ops[op].row);
    }
  }

  /** Then a reused row is itself a wake that lasts. */
  lemma NamedLosesOnlyWithoutWake(s: System, e: Event)
    requires Inv(s) && InvokedRowsSpent(s) && !FindsNoWake(e)
    ensures !LosesWake(s, e)
  {
    if (e.FinishPrearm? || e.FinishRearm?) && e.op in s.ops {
      var o := s.ops[e.op];
      if (o.Prearming? || o.Rearming?) && o.candidate in s.pump.rows { CandidateIsNotDoomed(s, e.op); }
    }
    if e.Recompute? && HasReusable(s.pump, Target(e.wake.value, e.now)) {
      var id :| Reusable(s.pump, Target(e.wake.value, e.now), id);
      EffectiveLasts(s, id);
      assert LastsBesidesPrearm(s, false);
    }
  }

  lemma StepKeepsWake(s: System, e: Event)
    requires Inv(s) && Enabled(s, e) && !RacesPublication(s, e) && InvokedRowsSpent(s) && NamesItself(e)
    requires HasEffective(s.pump) && !FindsNoWake(e)
    ensures HasEffective(Apply(s, e).pump)
  {
    var id: TaskId :| Effective(s.pump, id);
    EffectiveLasts(s, id);
    NamedLosesOnlyWithoutWake(s, e);
    InvIsSound(s);
    StepKeepsLastingIff(s, e);
    var kept :| Lasting(Apply(s, e), kept);
    assert Effective(Apply(s, e).pump, kept);
  }

  ghost predicate ContextsNamed(run: seq<Event>) {
    forall i :: 0 <= i < |run| ==> NamesItself(run[i])
  }

  predicate NeverFindsNoWake(run: seq<Event>) {
    forall i :: 0 <= i < |run| ==> !FindsNoWake(run[i])
  }

  lemma {:induction false} RunKeepsSpent(s: System, run: seq<Event>)
    requires Inv(s) && InvokedRowsSpent(s) && Legal(s, run) && RaceFree(s, run) && ContextsNamed(run)
    ensures InvokedRowsSpent(After(s, run))
    decreases |run|
  {
    if run != [] {
      assert NamesItself(run[0]);
      StepKeepsInv(s, run[0]);
      StepKeepsSpent(s, run[0]);
      RunKeepsSpent(Apply(s, run[0]), run[1..]);
    }
  }

  lemma {:induction false} RunKeepsWake(s: System, run: seq<Event>)
    requires Inv(s) && InvokedRowsSpent(s) && HasEffective(s.pump)
    requires Legal(s, run) && RaceFree(s, run) && ContextsNamed(run) && NeverFindsNoWake(run)
    ensures HasEffective(After(s, run).pump)
    decreases |run|
  {
    if run != [] {
      assert NamesItself(run[0]) && !FindsNoWake(run[0]);
      StepKeepsInv(s, run[0]);
      StepKeepsSpent(s, run[0]);
      StepKeepsWake(s, run[0]);
      RunKeepsWake(Apply(s, run[0]), run[1..]);
    }
  }

  /**
   Main result: when callbacks are told their identifiers, once a reachable state holds an effective
   row - as it does whenever a row's callback is entered - every later state does, at every await and
   across every reset, until a recomputation finds no wake time at all.
   */
  lemma WakeIsNeverLost(before: seq<Event>, later: seq<Event>)
    requires Legal(Start, before) && RaceFree(Start, before) && ContextsNamed(before)
    requires HasEffective(After(Start, before).pump)
    requires Legal(After(Start, before), later) && RaceFree(After(Start, before), later)
    requires ContextsNamed(later) && NeverFindsNoWake(later)
    ensures HasEffective(After(After(Start, before), later).pump)
    ensures DriverLive(After(After(Start, before), later).pump)
  {
    RunKeepsInv(Start, before);
    RunKeepsSpent(Start, before);
    RunKeepsInv(After(Start, before), later);
    RunKeepsWake(After(Start, before), later);
  }
}
