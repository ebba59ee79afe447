/**
 Ownership of one browser-side operation by leases. Aborting a lease's controller dispatches
 listeners that may call back in, so `supersede` and `cancel` are two steps with anything in between.
 */
module OperationOwner {
  import opened Wrappers

  /** A lease is known by its token; its controller is its own. */
  datatype Lease = Lease(token: nat, kind: string)

  datatype Core = Core(nextToken: nat, current: Option<Lease>)

  datatype Frame = Superseding(lease: Lease) | Cancelling(lease: Lease)

  /** `issued` and `released` are history. */
  datatype State = State(core: Core, aborted: set<nat>, stack: seq<Frame>, issued: seq<Lease>, released: set<nat>)

  datatype Event = Claim(kind: string) | Supersede(kind: string) | Release(lease: Lease) | Cancel(lease: Lease) | Return

  const START := State(Core(0, None), {}, [], [], {})

  // ---- The synchronous pieces ----

  function Created(c: Core, kind: string): Lease { Lease(c.nextToken + 1, kind) }

  function Installed(c: Core, kind: string): Core { Core(c.nextToken + 1, Some(Created(c, kind))) }

  function Cleared(c: Core): Core { c.(current := None) }

  class ClientOperationOwner {
    var nextToken: nat
    var currentLease: Option<Lease>

    constructor ()
      ensures Fields() == Core(0, None)
    {
      nextToken, currentLease := 0, None;
    }

    function Fields(): Core
      reads this
    {
      Core(nextToken, currentLease)
    }

    predicate Owns(lease: Lease)
      reads this
    {
      currentLease == Some(lease)
    }

    method CreateLease(kind: string) returns (lease: Lease)
      modifies this`nextToken
      ensures lease == Created(old(Fields()), kind) && nextToken == old(nextToken) + 1
    {
      nextToken := nextToken + 1;
      lease := Lease(nextToken, kind);
    }

    method Claim(kind: string) returns (lease: Option<Lease>)
      modifies this
      ensures old(currentLease).Some? ==> lease == None && Fields() == old(Fields())
      ensures old(currentLease).None? ==> lease == Some(Created(old(Fields()), kind)) && Fields() == Installed(old(Fields()), kind)
    {
      if currentLease.Some? {
        return None;
      }
      var created := CreateLease(kind);
      currentLease := Some(created);
      lease := Some(created);
    }

    /** Up to the dispatch: the new owner is in place before the previous one, returned here, is aborted. */
    method SupersedeStart(kind: string) returns (lease: Lease, previous: Option<Lease>)
      modifies this
      ensures previous == old(currentLease) && lease == Created(old(Fields()), kind) && Fields() == Installed(old(Fields()), kind)
    {
      previous := currentLease;
      lease := CreateLease(kind);
      currentLease := Some(lease);
    }

    method Release(lease: Lease) returns (released: bool)
      modifies this
      ensures released == old(Owns(lease)) && Fields() == if released then Cleared(old(Fields())) else old(Fields())
    {
      if !Owns(lease) {
        return false;
      }
      currentLease := None;
      released := true;
    }

    /** After the listeners of `cancel`: only the lease being cancelled is cleared. */
    method CancelEnd(lease: Lease)
      modifies this
      ensures Fields() == if old(Owns(lease)) then Cleared(old(Fields())) else old(Fields())
    {
      if currentLease == Some(lease) {
        currentLease := None;
      }
    }
  }

  // ---- Interleavings ----

  predicate Owns(s: State, lease: Lease) {
    s.core.current == Some(lease)
  }

  function WithLease(s: State, kind: string): State {
    s.(core := Installed(s.core, kind), issued := s.issued + [Created(s.core, kind)])
  }

  /** Aborting again does nothing, so nothing runs in between. */
  function Step(s: State, e: Event): State {
    match e
    case Claim(kind) => if s.core.current.Some? then s else WithLease(s, kind)
    case Supersede(kind) =>
      if s.core.current.Some? && s.core.current.value.token !in s.aborted then
        WithLease(s, kind).(aborted := s.aborted + {s.core.current.value.token}, stack := s.stack + [Superseding(Created(s.core, kind))])
      else WithLease(s, kind)
    case Release(lease) =>
      if Owns(s, lease) then s.(core := Cleared(s.core), released := s.released + {lease.token}) else s
    case Cancel(lease) =>
      if !Owns(s, lease) then s
      else if lease.token in s.aborted then s.(core := Cleared(s.core))
      else s.(aborted := s.aborted + {lease.token}, stack := s.stack + [Cancelling(lease)])
    case Return =>
      if s.stack == [] then s
      else
        var rest := s.(stack := s.stack[..|s.stack| - 1]);
        match s.stack[|s.stack| - 1]
        case Superseding(_) => rest
        case Cancelling(lease) => if Owns(s, lease) then rest.(core := Cleared(s.core)) else rest
  }

  function Run(s: State, events: seq<Event>): State
    decreases |events|
  {
    if events == [] then s else Step(Run(s, events[..|events| - 1]), events[|events| - 1])
  }

  predicate Issued(s: State, lease: Lease) {
    1 <= lease.token <= |s.issued| && s.issued[lease.token - 1] == lease
  }

  ghost predicate Inv(s: State) {
    && s.core.nextToken == |s.issued|
    && (forall i :: 0 <= i < |s.issued| ==> s.issued[i].token == i + 1)
    && (s.core.current.Some? ==> Issued(s, s.core.current.value) && s.core.current.value.token !in s.released)
    && (forall i :: 0 <= i < |s.stack| ==> Issued(s, s.stack[i].lease))
    && (forall token :: token in s.aborted || token in s.released ==> token <= |s.issued|)
    && (forall i :: 0 <= i < |s.stack| && s.stack[i].Cancelling? ==> s.stack[i].lease.token in s.aborted)
    && (forall i :: 0 <= i < |s.issued| ==>
         Owns(s, s.issued[i]) || s.issued[i].token in s.aborted || s.issued[i].token in s.released)
  }

  lemma IssuingKeepsInv(s: State, e: Event)
    requires Inv(s) && (e.Claim? || e.Supersede?)
    ensures Inv(Step(s, e))
  {
  }

  lemma CancelKeepsInv(s: State, lease: Lease)
    requires Inv(s)
    ensures Inv(Step(s, Cancel(lease)))
  {
  }

  lemma ReturnKeepsInv(s: State)
    requires Inv(s)
    ensures Inv(Step(s, Return))
  {
  }

  lemma StepKeepsInv(s: State, e: Event)
    requires Inv(s)
    ensures Inv(Step(s, e))
  {
    match e
    case Claim(_) => IssuingKeepsInv(s, e);
    case Supersede(_) => IssuingKeepsInv(s, e);
    case Release(_) =>
    case Cancel(lease) => CancelKeepsInv(s, lease);
    case Return => ReturnKeepsInv(s);
  }

  lemma {:induction false} RunKeepsInv(s: State, events: seq<Event>)
    requires Inv(s)
    ensures Inv(Run(s, events))
    decreases |events|
  {
    if events != [] {
      RunKeepsInv(s, events[..|events| - 1]);
      StepKeepsInv(Run(s, events[..|events| - 1]), events[|events| - 1]);
    }
  }

  /** Main result: tokens grow with every lease; whoever is not the owner was aborted or released, never just forgotten. */
  lemma LeasesAreAccountedFor(events: seq<Event>)
    ensures var s := Run(START, events);
      && (forall i, j :: 0 <= i < j < |s.issued| ==> s.issued[i].token < s.issued[j].token)
      && (forall i :: 0 <= i < |s.issued| && !Owns(s, s.issued[i]) ==>
           s.issued[i].token in s.aborted || s.issued[i].token in s.released)
      && (forall i, j :: 0 <= i < |s.issued| && 0 <= j < |s.issued| && Owns(s, s.issued[i]) && Owns(s, s.issued[j]) ==> i == j)
  {
    RunKeepsInv(START, events);
  }

  /** Main result: a lost lease stays lost, and neither releasing nor cancelling it touches the operation. */
  lemma {:induction false} LossIsForever(s: State, events: seq<Event>, lease: Lease)
    requires Inv(s) && Issued(s, lease) && !Owns(s, lease)
    ensures var after := Run(s, events);
      Issued(after, lease) && !Owns(after, lease) && Step(after, Release(lease)) == after && Step(after, Cancel(lease)) == after
    decreases |events|
  {
    if events != [] {
      LossIsForever(s, events[..|events| - 1], lease);
      RunKeepsInv(s, events[..|events| - 1]);
    }
  }

  /** While a cancel's listeners run, a claim succeeds only if a listener gave the lease up; what it claims is kept. */
  lemma {:induction false} ListenersCannotOccupyTheGap(s: State, events: seq<Event>, kind: string)
    requires Inv(s) && s.core.current.Some? && forall i :: 0 <= i < |events| ==> events[i].Claim?
    ensures Run(s, events) == s && Step(Run(s, events), Claim(kind)) == s
    decreases |events|
  {
    if events != [] {
      ListenersCannotOccupyTheGap(s, events[..|events| - 1], kind);
    }
  }

  /** The end of a cancel clears its own lease and no other. */
  lemma CancelEndIsExact(s: State)
    requires Inv(s) && s.stack != [] && s.stack[|s.stack| - 1].Cancelling?
    ensures var lease := s.stack[|s.stack| - 1].lease;
      Step(s, Return).core.current == if Owns(s, lease) then None else s.core.current
    ensures !Owns(Step(s, Return), s.stack[|s.stack| - 1].lease)
  {
  }
}
