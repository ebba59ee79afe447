/**
 One mutable UI operation at a time. Everything between two awaits is synchronous, but aborting a
 controller dispatches listeners that may call back in, so an abort that dispatches is two steps
 with anything in between, and handlers likewise. `stack` holds the calls that are still running.
 */
module LatestOperation {
  import opened Wrappers

  /** A controller is named by the number of the run it was made for. */
  type ControllerId = nat

  /** The two fields of the operation. */
  datatype Core = Core(epoch: nat, controller: Option<ControllerId>)

  datatype Ticket = Ticket(epoch: nat, controller: ControllerId)

  datatype Frame = Aborting(starts: bool) | Starting(ticket: Ticket) | Handling(ticket: Ticket) | Settling(ticket: Ticket)

  /** A handler of `ticket` being called: `onSuccess` or `onError`, and then perhaps `onSettled`. */
  datatype Call = Handler(ticket: Ticket) | Settled(ticket: Ticket)

  /** `issued` is every ticket so far; `nested` those begun while an abort was being dispatched. */
  datatype State = State(core: Core, aborted: set<ControllerId>, stack: seq<Frame>, waiting: set<Ticket>, log: seq<Call>,
                         issued: seq<Ticket>, nested: set<ControllerId>)

  /** `CallRun` and `CallCancel` may come at any moment; a task settles only when nothing else is running. */
  datatype Event = CallRun | CallCancel | Return | TaskSettles(ticket: Ticket)

  const START := State(Core(0, None), {}, [], {}, [], [], {})

  // ---- The synchronous pieces ----

  function Bumped(c: Core): Core { c.(epoch := c.epoch + 1) }

  function Cleared(c: Core): Core { c.(controller := None) }

  function Owning(c: Core, id: ControllerId): Core { c.(controller := Some(id)) }

  predicate CoreOwns(c: Core, t: Ticket, aborted: set<ControllerId>) {
    c.epoch == t.epoch && c.controller == Some(t.controller) && t.controller !in aborted
  }

  class LatestClientOperation {
    var epoch: nat
    var controller: Option<ControllerId>

    constructor ()
      ensures Fields() == Core(0, None)
    {
      epoch, controller := 0, None;
    }

    function Fields(): Core
      reads this
    {
      Core(epoch, controller)
    }

    /** `cancel` up to the dispatch; the result is what is to be aborted. */
    method CancelStart() returns (abort: Option<ControllerId>)
      modifies this
      ensures abort == old(controller) && Fields() == Bumped(old(Fields()))
    {
      epoch := epoch + 1;
      abort := controller;
    }

    method CancelEnd()
      modifies this
      ensures Fields() == Cleared(old(Fields()))
    {
      controller := None;
    }

    /** `#begin` once its `cancel` is over, with a controller just made. */
    method BeginEnd(made: ControllerId) returns (ticket: Ticket)
      modifies this
      ensures ticket == Ticket(old(epoch), made) && Fields() == Owning(old(Fields()), made)
    {
      ticket := Ticket(epoch, made);
      controller := Some(made);
    }

    predicate OwnsTicket(ticket: Ticket, aborted: set<ControllerId>)
      reads this
    {
      epoch == ticket.epoch && controller == Some(ticket.controller) && ticket.controller !in aborted
    }

    /** `#settle`; the result is whether `onSettled` is called. */
    method Settle(ticket: Ticket, aborted: set<ControllerId>) returns (calls: bool)
      modifies this
      ensures calls == CoreOwns(old(Fields()), ticket, aborted)
      ensures Fields() == if calls then Cleared(old(Fields())) else old(Fields())
    {
      if !OwnsTicket(ticket, aborted) {
        return false;
      }
      controller := None;
      calls := true;
    }
  }

  // ---- Interleavings ----

  predicate Owns(s: State, t: Ticket) {
    CoreOwns(s.core, t, s.aborted)
  }

  predicate InsideAbort(stack: seq<Frame>) {
    exists i :: 0 <= i < |stack| && stack[i].Aborting?
  }

  /** Listeners run only for a controller that was not aborted before. */
  predicate Dispatches(s: State) {
    s.core.controller.Some? && s.core.controller.value !in s.aborted
  }

  function Pushed(s: State, f: Frame): State { s.(stack := s.stack + [f]) }

  function Popped(s: State): State
    requires s.stack != []
  {
    s.(stack := s.stack[..|s.stack| - 1])
  }

  /** What `cancel` and, for a run, `#begin` do after the listeners, with `s.stack` as it is then. */
  function AfterAbort(s: State, starts: bool): State {
    var cleared := s.(core := Cleared(s.core));
    if !starts then cleared
    else
      var id := |s.issued|;
      var t := Ticket(s.core.epoch, id);
      Pushed(cleared.(core := Owning(cleared.core, id), issued := s.issued + [t],
                      nested := if InsideAbort(s.stack) then s.nested + {id} else s.nested), Starting(t))
  }

  function AfterCall(s: State, starts: bool): State {
    var bumped := s.(core := Bumped(s.core));
    if Dispatches(s) then Pushed(bumped.(aborted := s.aborted + {s.core.controller.value}), Aborting(starts))
    else AfterAbort(bumped, starts)
  }

  function AfterReturn(s: State): State {
    if s.stack == [] then s
    else
      match s.stack[|s.stack| - 1]
      case Aborting(starts) => AfterAbort(Popped(s), starts)
      case Starting(t) => Popped(s).(waiting := s.waiting + {t})
      case Handling(t) =>
        if Owns(s, t) then Pushed(Popped(s), Settling(t)).(core := Cleared(s.core), log := s.log + [Settled(t)])
        else Popped(s)
      case Settling(_) => Popped(s)
  }

  function AfterTask(s: State, t: Ticket): State {
    if s.stack != [] || t !in s.waiting then s
    else
      var woken := s.(waiting := s.waiting - {t});
      if Owns(s, t) then Pushed(woken, Handling(t)).(log := s.log + [Handler(t)]) else woken
  }

  function Step(s: State, e: Event): State {
    match e
    case CallRun => AfterCall(s, true)
    case CallCancel => AfterCall(s, false)
    case Return => AfterReturn(s)
    case TaskSettles(t) => AfterTask(s, t)
  }

  function Run(s: State, events: seq<Event>): State
    decreases |events|
  {
    if events == [] then s else Step(Run(s, events[..|events| - 1]), events[|events| - 1])
  }

  // ---- What every step keeps ----

  predicate Issued(s: State, t: Ticket) {
    t.controller < |s.issued| && s.issued[t.controller] == t
  }

  ghost predicate TicketsKnown(s: State) {
    && (forall i :: 0 <= i < |s.issued| ==> s.issued[i].controller == i && s.issued[i].epoch <= s.core.epoch)
    && (forall id :: id in s.aborted || id in s.nested ==> id < |s.issued|)
    && (forall t :: t in s.waiting ==> Issued(s, t))
    && (forall i :: 0 <= i < |s.stack| && !s.stack[i].Aborting? ==> Issued(s, s.stack[i].ticket))
    && (forall i :: 0 <= i < |s.log| ==> Issued(s, s.log[i].ticket))
  }

  ghost predicate ControllerKnown(s: State) {
    s.core.controller.Some? ==>
      && s.core.controller.value < |s.issued|
      && (s.core.controller.value !in s.aborted ==> s.issued[s.core.controller.value].epoch == s.core.epoch)
      && (InsideAbort(s.stack) ==> s.core.controller.value in s.aborted || s.core.controller.value in s.nested)
      && (s.core.controller.value in s.nested && s.core.controller.value !in s.aborted ==> InsideAbort(s.stack))
      && Settled(s.issued[s.core.controller.value]) !in s.log
  }

  /** A ticket that no longer owns was aborted, or settled, or begun inside an abort. */
  ghost predicate LostForAReason(s: State) {
    forall i :: 0 <= i < |s.issued| ==>
      Owns(s, s.issued[i]) || i in s.aborted || i in s.nested || Settled(s.issued[i]) in s.log
  }

  /** Each ticket is in one place of its life, and its handlers are called in order, each once. */
  ghost predicate CallsInOrder(s: State) {
    && (forall i, j :: 0 <= i < j < |s.log| ==> s.log[i] != s.log[j])
    && (forall t :: Settled(t) in s.log ==> Handler(t) in s.log)
    && (forall t :: t in s.waiting ==> Handler(t) !in s.log)
    && (forall i :: 0 <= i < |s.stack| && s.stack[i].Starting? ==>
         Handler(s.stack[i].ticket) !in s.log && s.stack[i].ticket !in s.waiting)
    && (forall i :: 0 <= i < |s.stack| && s.stack[i].Handling? ==> Handler(s.stack[i].ticket) in s.log)
    && (forall i, j :: 0 <= i < j < |s.stack| && s.stack[i].Starting? && s.stack[j].Starting? ==>
         s.stack[i].ticket != s.stack[j].ticket)
  }

  ghost predicate Inv(s: State) {
    TicketsKnown(s) && ControllerKnown(s) && LostForAReason(s) && CallsInOrder(s)
  }

  lemma InsidePushed(stack: seq<Frame>, f: Frame)
    ensures InsideAbort(stack + [f]) <==> InsideAbort(stack) || f.Aborting?
  {
    if InsideAbort(stack) {
      var i :| 0 <= i < |stack| && stack[i].Aborting?;
      assert (stack + [f])[i].Aborting?;
    }
    assert (stack + [f])[|stack|] == f;
    if InsideAbort(stack + [f]) && !f.Aborting? {
      var i :| 0 <= i < |stack + [f]| && (stack + [f])[i].Aborting?;
      assert stack[i].Aborting?;
    }
  }

  lemma InsidePopped(stack: seq<Frame>)
    requires stack != []
    ensures InsideAbort(stack) <==> InsideAbort(stack[..|stack| - 1]) || stack[|stack| - 1].Aborting?
  {
    InsidePushed(stack[..|stack| - 1], stack[|stack| - 1]);
    assert stack == stack[..|stack| - 1] + [stack[|stack| - 1]];
  }

  /** The common second half: whoever is the controller, it is not left unaccounted for. */
  lemma AfterAbortKeepsInv(s: State, starts: bool)
    requires TicketsKnown(s) && CallsInOrder(s) && LostForAReason(s)
    requires s.core.controller.Some? ==> s.core.controller.value in s.aborted || s.core.controller.value in s.nested
    ensures Inv(AfterAbort(s, starts))
  {
    if starts {
      InsidePushed(s.stack, Starting(Ticket(s.core.epoch, |s.issued|)));
    }
  }

  lemma AfterCallKeepsInv(s: State, starts: bool)
    requires Inv(s)
    ensures Inv(AfterCall(s, starts))
  {
    if Dispatches(s) {
      InsidePushed(s.stack, Aborting(starts));
    } else {
      AfterAbortKeepsInv(s.(core := Bumped(s.core)), starts);
    }
  }

  lemma PoppedKeepsInv(s: State)
    requires Inv(s) && s.stack != [] && !s.stack[|s.stack| - 1].Aborting?
    ensures Inv(Popped(s))
  {
    InsidePopped(s.stack);
  }

  lemma SettleKeepsInv(s: State, t: Ticket)
    requires Inv(s) && Owns(s, t) && Issued(s, t) && Handler(t) in s.log
    ensures Inv(Pushed(s, Settling(t)).(core := Cleared(s.core), log := s.log + [Settled(t)]))
  {
    InsidePushed(s.stack, Settling(t));
  }

  lemma StartedKeepsInv(s: State, t: Ticket)
    requires Inv(s) && s.stack != [] && s.stack[|s.stack| - 1] == Starting(t)
    ensures Inv(Popped(s).(waiting := s.waiting + {t}))
  {
    InsidePopped(s.stack);
  }

  lemma AbortReturnKeepsInv(s: State)
    requires Inv(s) && s.stack != [] && s.stack[|s.stack| - 1].Aborting?
    ensures Inv(AfterReturn(s))
  {
    InsidePopped(s.stack);
    AfterAbortKeepsInv(Popped(s), s.stack[|s.stack| - 1].starts);
  }

  lemma AfterReturnKeepsInv(s: State)
    requires Inv(s)
    ensures Inv(AfterReturn(s))
  {
    if s.stack != [] {
      var top := s.stack[|s.stack| - 1];
      match top
      case Aborting(starts) => AbortReturnKeepsInv(s);
      case Starting(t) => StartedKeepsInv(s, t);
      case Handling(t) =>
        PoppedKeepsInv(s);
        if Owns(s, t) {
          SettleKeepsInv(Popped(s), t);
        }
      case Settling(_) => PoppedKeepsInv(s);
    }
  }

  lemma AfterTaskKeepsInv(s: State, t: Ticket)
    requires Inv(s)
    ensures Inv(AfterTask(s, t))
  {
  }

  lemma StepKeepsInv(s: State, e: Event)
    requires Inv(s)
    ensures Inv(Step(s, e))
  {
    match e
    case CallRun => AfterCallKeepsInv(s, true);
    case CallCancel => AfterCallKeepsInv(s, false);
    case Return => AfterReturnKeepsInv(s);
    case TaskSettles(t) => AfterTaskKeepsInv(s, t);
  }

  lemma {:induction false} RunKeepsInv(s: State, events: seq<Event>)
    requires Inv(s)
    ensures Inv(Run(s, events))
    decreases |events|
  {
    if events != [] {
      RunKeepsInv(s, events[..|events| - 1]);
      StepKeepsInv(Run(s, events[..|events| - 1]), events[|events| - 1]);
    }
  }

  // ---- Ownership ----

  lemma AtMostOneOwner(s: State, a: Ticket, b: Ticket)
    requires Inv(s) && Issued(s, a) && Issued(s, b) && Owns(s, a) && Owns(s, b)
    ensures a == b
  {
  }

  /** Calls are made only for the ticket that owns the operation as they are made. */
  lemma CallsAreForTheOwner(s: State, e: Event)
    requires Inv(s)
    ensures s.log <= Step(s, e).log && |Step(s, e).log| <= |s.log| + 1
    ensures forall i :: |s.log| <= i < |Step(s, e).log| ==> Owns(s, Step(s, e).log[i].ticket)
  {
  }

  lemma StepKeepsLoss(s: State, e: Event, t: Ticket)
    requires Inv(s) && Issued(s, t) && !Owns(s, t)
    ensures Issued(Step(s, e), t) && !Owns(Step(s, e), t)
  {
  }

  /** Main result: once superseded, a ticket never owns again and none of its handlers is called again. */
  lemma {:induction false} LossIsForever(s: State, events: seq<Event>, t: Ticket)
    requires Inv(s) && Issued(s, t) && !Owns(s, t)
    ensures Issued(Run(s, events), t) && !Owns(Run(s, events), t)
    ensures s.log <= Run(s, events).log
    ensures forall i :: |s.log| <= i < |Run(s, events).log| ==> Run(s, events).log[i].ticket != t
    decreases |events|
  {
    if events != [] {
      var before := Run(s, events[..|events| - 1]);
      LossIsForever(s, events[..|events| - 1], t);
      RunKeepsInv(s, events[..|events| - 1]);
      StepKeepsLoss(before, events[|events| - 1], t);
      CallsAreForTheOwner(before, events[|events| - 1]);
    }
  }

  /** Main result: no handler is called twice, and `onSettled` only after the handler of the same ticket. */
  lemma HandlersAtMostOnce(events: seq<Event>)
    ensures var log := Run(START, events).log;
      && (forall i, j :: 0 <= i < j < |log| ==> log[i] != log[j])
      && (forall t :: Settled(t) in log ==> Handler(t) in log)
  {
    RunKeepsInv(START, events);
  }

  /** A ticket that is still owned keeps being owned until another run, a cancel, its settling, or the end of an abort. */
  lemma OwnerStays(s: State, e: Event, t: Ticket)
    requires Inv(s) && Owns(s, t)
    requires e.TaskSettles? || (e == Return && (s.stack == [] || s.stack[|s.stack| - 1].Starting? || s.stack[|s.stack| - 1].Settling?))
    ensures Owns(Step(s, e), t)
  {
  }

  // ---- The one way to lose an operation without an abort ----

  /**
   Main result: outside any abort, a ticket that was neither aborted nor settled is lost exactly when
   it was begun while an abort was being dispatched. Its task goes on with a live signal and no owner.
   */
  lemma OrphanedIff(events: seq<Event>, id: ControllerId)
    requires var s := Run(START, events);
      id < |s.issued| && !InsideAbort(s.stack) && id !in s.aborted && Settled(s.issued[id]) !in s.log
    ensures var s := Run(START, events);
      !Owns(s, s.issued[id]) <==> id in s.nested
  {
    RunKeepsInv(START, events);
  }

  lemma RunAppends(s: State, events: seq<Event>, e: Event)
    ensures Run(s, events + [e]) == Step(Run(s, events), e)
  {
    assert (events + [e])[..|events|] == events;
  }

  /** A run that waits, then another whose abort listener starts a third: up to the end of the listener. */
  lemma NestedRun(a: Ticket, b: Ticket) returns (events: seq<Event>)
    requires a == Ticket(1, 0) && b == Ticket(3, 1)
    ensures Run(START, events) == State(Core(3, Some(1)), {0}, [Aborting(true)], {a, b}, [], [a, b], {1})
  {
    events := FirstRun(a);
    events := NestedCalls(events, a, b);
  }

  lemma FirstRun(a: Ticket) returns (events: seq<Event>)
    requires a == Ticket(1, 0)
    ensures Run(START, events) == State(Core(1, Some(0)), {}, [], {a}, [], [a], {})
  {
    RunAppends(START, [], CallRun);
    assert Run(START, []) == START;
    var begun := State(Core(1, Some(0)), {}, [Starting(a)], {}, [], [a], {});
    assert Step(START, CallRun) == begun;
    RunAppends(START, [] + [CallRun], Return);
    assert Step(begun, Return) == State(Core(1, Some(0)), {}, [], {a}, [], [a], {});
    events := [] + [CallRun] + [Return];
  }

  lemma NestedCalls(before: seq<Event>, a: Ticket, b: Ticket) returns (events: seq<Event>)
    requires b == Ticket(3, 1) && Run(START, before) == State(Core(1, Some(0)), {}, [], {a}, [], [a], {})
    ensures Run(START, events) == State(Core(3, Some(1)), {0}, [Aborting(true)], {a, b}, [], [a, b], {1})
  {
    RunAppends(START, before, CallRun);
    events := before + [CallRun];
    var s := Run(START, events);
    assert s == State(Core(2, Some(0)), {0}, [Aborting(true)], {a}, [], [a], {});
    assert s.stack[0].Aborting?;
    RunAppends(START, events, CallRun);
    events := events + [CallRun];
    assert Run(START, events) == State(Core(3, Some(1)), {0}, [Aborting(true), Starting(b)], {a}, [], [a, b], {1});
    RunAppends(START, events, Return);
    events := events + [Return];
    assert {a} + {b} == {a, b};
  }

  /** It happens: the third run waits on, never aborted, and owns nothing once the listener is over. */
  lemma OrphanExists() returns (events: seq<Event>)
    ensures var s := Run(START, events);
      |s.issued| == 3 && !InsideAbort(s.stack) && 1 !in s.aborted && !Owns(s, s.issued[1]) && s.issued[1] in s.waiting
  {
    var before := NestedRun(Ticket(1, 0), Ticket(3, 1));
    events := before + [Return];
    RunAppends(START, before, Return);
    InsidePopped(Run(START, before).stack);
  }
}
