/**
 The bounds of an inspection against the same recording without bounds: no count but `notListed`
 ever grows because of a bound.
 */
module InspectionBounds {
  import opened Wrappers
  import opened Utf16
  import opened CallStackPublisher
  import opened StackTally
  import opened StackRanking
  import opened ConnectionInspection
  import opened InspectionFollows
  import opened InspectionTables
  import opened InspectionRuns
  import E = InspectionEvidence

  lemma PageRequestFollows(b: Recorder, u: Recorder, url: JsString, x: Inspection)
    requires Follows(b, u, x)
    ensures Follows(AfterPageRequest(b, url, x), AfterPageRequest(u, url, Unbounded(x)), x)
  {
    if x.red.url(url) == x.address {
      var key := HeldKey(url, x.red);
      if WithEntry(b.tracked, key, x.limits).None? {
        UntrackedRequestFollows(b, u, key, x);
      } else {
        TrackedRequestFollows(b, u, key, x);
      }
    }
  }

  lemma UntrackedRequestFollows(b: Recorder, u: Recorder, key: JsString, x: Inspection)
    requires Follows(b, u, x) && WithEntry(b.tracked, key, x.limits).None?
    ensures Follows(Requested(b, key, x.limits), Requested(u, key, UNLIMITED), x)
  {
    EnteredFollows(b.tracked, u.tracked, key, x);
    var ru := Requested(u, key, UNLIMITED);
    CountedFollows(b, u, b.untracked + 1, x);
    UntrackedFollows(b.tracked, WithEntry(u.tracked, key, UNLIMITED).value, IndexOf(u.tracked, key), ru.tracked[IndexOf(u.tracked, key)]);
    FollowsWith(b.(matched := b.matched + 1, untracked := b.untracked + 1), u.(matched := u.matched + 1), b.tracked, ru.tracked, x);
  }

  lemma TrackedRequestFollows(b: Recorder, u: Recorder, key: JsString, x: Inspection)
    requires Follows(b, u, x) && WithEntry(b.tracked, key, x.limits).Some?
    ensures Follows(Requested(b, key, x.limits), Requested(u, key, UNLIMITED), x)
  {
    RequestFollows(b, u, key, x);
    RequestedIs(b, key, x.limits);
    RequestedIs(u, key, UNLIMITED);
  }

  lemma UntrackedObservationFollows(b: Recorder, u: Recorder, o: Observed, x: Inspection)
    requires Follows(b, u, x) && WithEntry(b.tracked, HeldKey(o.rawUrl, x.red), x.limits).None?
    ensures Follows(AfterMatching(b, o, x), AfterMatching(u, o, Unbounded(x)), x)
  {
    var key := HeldKey(o.rawUrl, x.red);
    var eu, i := WithEntry(u.tracked, key, UNLIMITED).value, IndexOf(u.tracked, key);
    EnteredFollows(b.tracked, u.tracked, key, x);
    var ku := AfterMatching(u, o, Unbounded(x));
    UntrackedFollows(b.tracked, eu, i, ku.tracked[i]);
    FollowsWith(b, u.(kept := ku.kept, stacks := ku.stacks), b.tracked, ku.tracked, x);
  }

  lemma KeptObservationFollows(b: Recorder, u: Recorder, o: Observed, x: Inspection)
    requires Follows(b, u, x) && WithEntry(b.tracked, HeldKey(o.rawUrl, x.red), x.limits).Some?
    requires HasRoom(x.limits.observations, b.kept)
    ensures Follows(AfterMatching(b, o, x), AfterMatching(u, o, Unbounded(x)), x)
  {
    var key := HeldKey(o.rawUrl, x.red);
    var eb, eu := WithEntry(b.tracked, key, x.limits).value, WithEntry(u.tracked, key, UNLIMITED).value;
    EnteredFollows(b.tracked, u.tracked, key, x);
    CategoriesFollow(b, u, o, x);
    var kb, ku := AfterMatching(b, o, x), AfterMatching(u, o, Unbounded(x));
    PushedFollows(eb, eu, IndexOf(u.tracked, key), Categorize(o, b.codes, b.overflowed, x.red).category,
                  Categorize(o, u.codes, u.overflowed, x.red).category);
    assert NothingDropped(kb.tracked);
    FollowsWith(b.(kept := kb.kept, stacks := kb.stacks), u.(kept := ku.kept, stacks := ku.stacks), kb.tracked, ku.tracked, x);
  }

  lemma DroppedObservationFollows(b: Recorder, u: Recorder, o: Observed, x: Inspection)
    requires Follows(b, u, x) && WithEntry(b.tracked, HeldKey(o.rawUrl, x.red), x.limits).Some?
    requires !HasRoom(x.limits.observations, b.kept)
    ensures Follows(AfterMatching(b, o, x), AfterMatching(u, o, Unbounded(x)), x)
  {
    var key := HeldKey(o.rawUrl, x.red);
    var eb, eu := WithEntry(b.tracked, key, x.limits).value, WithEntry(u.tracked, key, UNLIMITED).value;
    EnteredFollows(b.tracked, u.tracked, key, x);
    var ku := AfterMatching(u, o, Unbounded(x));
    DroppedFollows(eb, eu, IndexOf(u.tracked, key), Categorize(o, u.codes, u.overflowed, x.red).category);
    FollowsWith(b, u.(kept := ku.kept, stacks := ku.stacks), AfterMatching(b, o, x).tracked, ku.tracked, x);
  }

  lemma MatchingFollows(b: Recorder, u: Recorder, o: Observed, x: Inspection)
    requires Follows(b, u, x)
    ensures Follows(AfterMatching(b, o, x), AfterMatching(u, o, Unbounded(x)), x)
  {
    if WithEntry(b.tracked, HeldKey(o.rawUrl, x.red), x.limits).None? {
      UntrackedObservationFollows(b, u, o, x);
    } else if HasRoom(x.limits.observations, b.kept) {
      KeptObservationFollows(b, u, o, x);
    } else {
      DroppedObservationFollows(b, u, o, x);
    }
  }

  lemma StepFollows(b: Recorder, u: Recorder, e: Event, x: Inspection)
    requires Follows(b, u, x)
    ensures Follows(Step(b, e, x), Step(u, e, Unbounded(x)), x)
  {
    match e
    case PageRequest(url) => PageRequestFollows(b, u, url, x);
    case Session(Some(o)) =>
      if o.code {
        CodeFollows(b, u, HeldKey(o.rawUrl, x.red), x);
        MatchingFollows(AfterCode(b, HeldKey(o.rawUrl, x.red), x), AfterCode(u, HeldKey(o.rawUrl, x.red), Unbounded(x)), o, x);
      } else {
        MatchingFollows(b, u, o, x);
      }
    case Session(None) =>
    case Failure =>
    case Freeze =>
  }

  lemma {:induction false} RunsFollow(events: seq<Event>, x: Inspection)
    ensures Follows(Run(events, x), Run(events, Unbounded(x)), x)
    decreases |events|
  {
    if events != [] {
      RunsFollow(events[..|events| - 1], x);
      StepFollows(Run(events[..|events| - 1], x), Run(events[..|events| - 1], Unbounded(x)), events[|events| - 1], x);
    }
  }

  // ---- Their counts ----

  /** Every request of a tracked URL goes where it would without bounds, or is not listed. */
  lemma PlacesFollow(b: TrackedUrl, u: TrackedUrl, index: nat)
    requires EntryFollows(b, u) && index < b.pageRequests
    ensures var pb := PlaceOf(index, b.pageRequests, b.observations, b.dropped, Everything);
      var pu := PlaceOf(index, u.pageRequests, u.observations, u.dropped, Everything);
      pb == pu || pb == At(NotListed)
  {
    AllCounted(b.pageRequests, b.pageRequests, Everything);
  }

  lemma {:induction false} NumbersFollow(b: TrackedUrl, u: TrackedUrl, n: nat, place: Place)
    requires EntryFollows(b, u) && n <= b.pageRequests && place != At(NotListed)
    ensures NumberAt(place, n, b.pageRequests, b.observations, b.dropped, Everything) <=
      NumberAt(place, n, u.pageRequests, u.observations, u.dropped, Everything)
  {
    if n > 0 {
      NumbersFollow(b, u, n - 1, place);
      PlacesFollow(b, u, n - 1);
    }
  }

  lemma {:induction false} TalliesFollow(b: seq<TrackedUrl>, u: seq<TrackedUrl>, n: nat, untracked: nat, place: Place)
    requires TableFollows(b, u) && n <= |b| && place != At(NotListed)
    ensures CountAt(TallyOf(b, n, untracked), place) <= CountAt(TallyOf(u, n, 0), place)
  {
    if n > 0 {
      TalliesFollow(b, u, n - 1, untracked, place);
      NumbersFollow(b[n - 1], u[n - 1], b[n - 1].pageRequests, place);
      TallyStep(b, n, untracked, place);
      TallyStep(u, n, 0, place);
    }
  }

  lemma TallyStep(tracked: seq<TrackedUrl>, n: nat, untracked: nat, place: Place)
    requires 0 < n <= |tracked|
    ensures var e := tracked[n - 1];
      CountAt(TallyOf(tracked, n, untracked), place) == CountAt(TallyOf(tracked, n - 1, untracked), place) +
        NumberAt(place, e.pageRequests, e.pageRequests, e.observations, e.dropped, Everything)
  {
    var e := tracked[n - 1];
    JoinCounts(TallyOf(tracked, n - 1, untracked), e.pageRequests, e.pageRequests, e.observations, e.dropped, Everything, place);
  }

  lemma {:induction false} TallyGrows(tracked: seq<TrackedUrl>, k: nat, n: nat, untracked: nat, place: Place)
    requires k <= n <= |tracked|
    ensures CountAt(TallyOf(tracked, k, untracked), place) <= CountAt(TallyOf(tracked, n, untracked), place)
  {
    if k < n {
      TallyGrows(tracked, k, n - 1, untracked, place);
      TallyStep(tracked, n, untracked, place);
    }
  }

  /** Main result on counts: a bound only ever takes a request out of a count to leave it not listed. */
  lemma BoundsOnlyUnlist(events: seq<Event>, x: Inspection, place: Place)
    requires place != At(NotListed)
    ensures Run(events, x).matched == Run(events, Unbounded(x)).matched
    ensures CountAt(FinalTally(Run(events, x)), place) <= CountAt(FinalTally(Run(events, Unbounded(x))), place)
  {
    var b, u := Run(events, x), Run(events, Unbounded(x));
    RunsFollow(events, x);
    TalliesFollow(b.tracked, u.tracked, |b.tracked|, b.untracked, place);
    TallyGrows(u.tracked, |b.tracked|, |u.tracked|, 0, place);
  }

  // ---- Their evidence ----

  /** The row of `u` that publishes what `row` publishes counts at least as much. */
  ghost predicate Covers(u: seq<E.Row>, row: E.Row) {
    exists j :: 0 <= j < |u| && u[j].stack == row.stack && row.count <= u[j].count
  }

  function BuiltRows(r: Recorder, x: Inspection): seq<E.Row> {
    match BuildEvidence(r, x)
    case None => []
    case Some(e) => e.groups
  }

  /** No count but `notListed` is larger, and every listed group is listed with at least as much. */
  ghost predicate NoMoreThan(b: E.Evidence, u: E.Evidence) {
    && b.matched == u.matched && b.redirected <= u.redirected && b.withoutStack <= u.withoutStack
    && b.withoutNamedScript <= u.withoutNamedScript && b.unobserved <= u.unobserved
    && forall i :: 0 <= i < |b.groups| ==> Covers(u.groups, b.groups[i])
  }

  lemma CountsWithin(events: seq<Event>, x: Inspection)
    ensures Run(events, x).matched == Run(events, Unbounded(x)).matched
    ensures var b, u := FinalTally(Run(events, x)), FinalTally(Run(events, Unbounded(x)));
      b.redirected <= u.redirected && b.withoutStack <= u.withoutStack && b.withoutNamedScript <= u.withoutNamedScript &&
      b.unobserved <= u.unobserved
  {
    BoundsOnlyUnlist(events, x, At(Redirected));
    BoundsOnlyUnlist(events, x, At(WithoutStack));
    BoundsOnlyUnlist(events, x, At(WithoutNamedScript));
    BoundsOnlyUnlist(events, x, Unobserved);
  }

  /** Main result on evidence: each listed group and each other count is at most what it would be without bounds. */
  lemma EvidenceWithinUnbounded(events: seq<Event>, x: Inspection)
    ensures BuildEvidence(Run(events, x), x).Some? && BuildEvidence(Run(events, Unbounded(x)), Unbounded(x)).Some?
    ensures NoMoreThan(BuildEvidence(Run(events, x), x).value, BuildEvidence(Run(events, Unbounded(x)), Unbounded(x)).value)
  {
    var r, w := Run(events, x), Run(events, Unbounded(x));
    RankingNeverThrows(events, x);
    RankingNeverThrows(events, Unbounded(x));
    CountsWithin(events, x);
    GroupsCovered(events, x);
    EvidenceNoMore(r, x, w, Unbounded(x));
  }

  lemma EvidenceNoMore(r: Recorder, x: Inspection, w: Recorder, y: Inspection)
    requires BuildEvidence(r, x).Some? && BuildEvidence(w, y).Some? && r.matched == w.matched
    requires var b, u := FinalTally(r), FinalTally(w);
      b.redirected <= u.redirected && b.withoutStack <= u.withoutStack && b.withoutNamedScript <= u.withoutNamedScript &&
      b.unobserved <= u.unobserved
    requires forall i :: 0 <= i < |BuiltRows(r, x)| ==> Covers(BuiltRows(w, y), BuiltRows(r, x)[i])
    ensures NoMoreThan(BuildEvidence(r, x).value, BuildEvidence(w, y).value)
  {
    assert BuiltRows(r, x) == BuildEvidence(r, x).value.groups && BuiltRows(w, y) == BuildEvidence(w, y).value.groups;
  }

  lemma GroupsCovered(events: seq<Event>, x: Inspection)
    ensures forall i :: 0 <= i < |BuiltRows(Run(events, x), x)| ==>
      Covers(BuiltRows(Run(events, Unbounded(x)), Unbounded(x)), BuiltRows(Run(events, x), x)[i])
  {
    forall i: nat | i < |BuiltRows(Run(events, x), x)|
      ensures Covers(BuiltRows(Run(events, Unbounded(x)), Unbounded(x)), BuiltRows(Run(events, x), x)[i])
    {
      var g := RowIsCounted(events, x, i);
      BoundsOnlyUnlist(events, x, At(Group(g.key)));
      var j := CountedHasRow(events, x, g.key);
      StacksAgree(events, x, g.key);
    }
  }

  /** A row is a group of the tally with the stack kept for it. */
  lemma RowIsCounted(events: seq<Event>, x: Inspection, i: nat) returns (g: Counted)
    requires i < |BuiltRows(Run(events, x), x)|
    ensures GroupCount(FinalTally(Run(events, x)).groups, g.key) == g.count > 0
    ensures g.key in Run(events, x).stacks
    ensures BuiltRows(Run(events, x), x)[i] == E.Row(g.count, Run(events, x).stacks[g.key])
  {
    var r := Run(events, x);
    var groups := FinalTally(r).groups;
    g := Ranked(groups)[i];
    TallyCounts(r.tracked, |r.tracked|, r.untracked);
    RankedKeepsGroups(groups, g);
    var a :| 0 <= a < |groups| && groups[a] == g;
    CountOfMember(groups, a);
  }

  /** Without a bound on groups, every counted group has its row. */
  lemma CountedHasRow(events: seq<Event>, x: Inspection, key: JsString) returns (j: nat)
    requires GroupCount(FinalTally(Run(events, Unbounded(x))).groups, key) > 0
    ensures j < |BuiltRows(Run(events, Unbounded(x)), Unbounded(x))| && key in Run(events, Unbounded(x)).stacks
    ensures BuiltRows(Run(events, Unbounded(x)), Unbounded(x))[j] ==
      E.Row(GroupCount(FinalTally(Run(events, Unbounded(x))).groups, key), Run(events, Unbounded(x)).stacks[key])
  {
    var u := Run(events, Unbounded(x));
    var groups := FinalTally(u).groups;
    RankingNeverThrows(events, Unbounded(x));
    var c := MemberOfCount(groups, key);
    RankedKeepsGroups(groups, groups[c]);
    j :| 0 <= j < |Ranked(groups)| && Ranked(groups)[j] == groups[c];
  }

  lemma StacksAgree(events: seq<Event>, x: Inspection, key: JsString)
    requires key in Run(events, x).stacks && key in Run(events, Unbounded(x)).stacks
    ensures Run(events, x).stacks[key] == Run(events, Unbounded(x)).stacks[key]
  {
    StackHasKey(events, x, key);
    StackHasKey(events, Unbounded(x), key);
    GroupKeyIsInjective(Run(events, x).stacks[key], Run(events, Unbounded(x)).stacks[key]);
  }

  lemma StackHasKey(events: seq<Event>, x: Inspection, key: JsString)
    requires key in Run(events, x).stacks
    ensures GroupKey(Run(events, x).stacks[key]) == key
  {
    RunKeepsInv(events, x);
    assert IsKeptStack(key, Run(events, x).stacks[key], x.red);
  }

  lemma {:induction false} MemberOfCount(groups: seq<Counted>, key: JsString) returns (i: nat)
    requires GroupCount(groups, key) > 0
    ensures i < |groups| && groups[i].key == key && groups[i].count == GroupCount(groups, key)
  {
    if groups[0].key == key {
      i := 0;
    } else {
      i := MemberOfCount(groups[1..], key);
      i := i + 1;
    }
  }

  /** Without bounds nothing is left unlisted, so what bounded evidence does not list is exactly what the bounds took. */
  lemma UnboundedListsAll(events: seq<Event>, x: Inspection)
    ensures BuildEvidence(Run(events, Unbounded(x)), Unbounded(x)).Some?
    ensures BuildEvidence(Run(events, Unbounded(x)), Unbounded(x)).value.notListed == 0
  {
    var u := Run(events, Unbounded(x));
    RankingNeverThrows(events, Unbounded(x));
    RunsFollow(events, Unbounded(x));
    RunsListed(events, x);
    NothingUnlisted(u.tracked, |u.tracked|);
    assert Ranked(FinalTally(u).groups)[|Ranked(FinalTally(u).groups)|..] == [];
  }

  ghost predicate AllListed(tracked: seq<TrackedUrl>) {
    forall i, j :: 0 <= i < |tracked| && 0 <= j < |tracked[i].observations| ==> tracked[i].observations[j] != NotListed
  }

  lemma {:induction false} RunsListed(events: seq<Event>, x: Inspection)
    ensures AllListed(Run(events, Unbounded(x)).tracked) && !Run(events, Unbounded(x)).overflowed
    decreases |events|
  {
    if events != [] {
      var r, e := Run(events[..|events| - 1], Unbounded(x)), events[|events| - 1];
      RunsListed(events[..|events| - 1], x);
      match e
      case Session(Some(o)) =>
        MatchingListed(if o.code then AfterCode(r, HeldKey(o.rawUrl, x.red), Unbounded(x)) else r, o, x);
      case Session(None) =>
      case PageRequest(_) =>
      case Failure =>
      case Freeze =>
    }
  }

  lemma MatchingListed(r: Recorder, o: Observed, x: Inspection)
    requires AllListed(r.tracked) && !r.overflowed
    ensures AllListed(AfterMatching(r, o, Unbounded(x)).tracked)
  {
  }

  lemma {:induction false} NothingUnlisted(tracked: seq<TrackedUrl>, n: nat)
    requires n <= |tracked| && AllListed(tracked) && forall i :: 0 <= i < |tracked| ==> tracked[i].dropped == 0
    ensures TallyOf(tracked, n, 0).notListed == 0
  {
    if n > 0 {
      var e := tracked[n - 1];
      NothingUnlisted(tracked, n - 1);
      NoneNotListed(e, e.pageRequests);
      TallyStep(tracked, n, 0, At(NotListed));
    }
  }

  lemma {:induction false} NoneNotListed(e: TrackedUrl, n: nat)
    requires n <= e.pageRequests && e.dropped == 0
    requires forall j :: 0 <= j < |e.observations| ==> e.observations[j] != NotListed
    ensures NumberAt(At(NotListed), n, e.pageRequests, e.observations, e.dropped, Everything) == 0
  {
    if n > 0 {
      NoneNotListed(e, n - 1);
    }
  }
}
