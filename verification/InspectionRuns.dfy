/**
 What holds of every recording: its counts add up, its evidence passes the validator, and its
 bounds do nothing but move requests into `notListed`.
 */
module InspectionRuns {
  import opened Wrappers
  import opened Utf16
  import opened CallStackPublisher
  import opened StackTally
  import opened StackRanking
  import opened ConnectionInspection
  import opened InspectionTables
  import CanonicalJson
  import E = InspectionEvidence

  // ---- What every event keeps ----

  lemma PageRequestKeepsInv(r: Recorder, url: JsString, x: Inspection)
    requires Inv(r, x)
    ensures Inv(AfterPageRequest(r, url, x), x)
  {
    var key := HeldKey(url, x.red);
    var entries := WithEntry(r.tracked, key, x.limits);
    if entries.Some? {
      WithEntryKeeps(r, key, x);
      OneMorePageRequest(r.(tracked := entries.value), IndexOf(r.tracked, key), x);
    } else {
      OneMoreUntracked(r, x);
    }
  }

  lemma MatchingKeepsInv(r: Recorder, o: Observed, x: Inspection)
    requires Inv(r, x)
    ensures Inv(AfterMatching(r, o, x), x)
  {
    var key := HeldKey(o.rawUrl, x.red);
    var entries := WithEntry(r.tracked, key, x.limits);
    if entries.Some? {
      var i, entered := IndexOf(r.tracked, key), r.(tracked := entries.value);
      WithEntryKeeps(r, key, x);
      if HasRoom(x.limits.observations, r.kept) {
        ObservationKeepsInv(entered, i, o, x);
      } else {
        OneMoreDropped(entered, i, x);
      }
    }
  }

  lemma StepKeepsInv(r: Recorder, e: Event, x: Inspection)
    requires Inv(r, x)
    ensures Inv(Step(r, e, x), x)
  {
    match e
    case PageRequest(url) => PageRequestKeepsInv(r, url, x);
    case Session(Some(o)) =>
      var noted := if o.code then AfterCode(r, HeldKey(o.rawUrl, x.red), x) else r;
      CodeKeepsInv(r, HeldKey(o.rawUrl, x.red), x);
      MatchingKeepsInv(noted, o, x);
    case Session(None) =>
    case Failure => FlagsKeepInv(r, r.frozen, true, x);
    case Freeze => FlagsKeepInv(r, true, r.broken, x);
  }

  lemma {:induction false} RunKeepsInv(events: seq<Event>, x: Inspection)
    ensures Inv(Run(events, x), x)
    decreases |events|
  {
    if events != [] {
      RunKeepsInv(events[..|events| - 1], x);
      StepKeepsInv(Run(events[..|events| - 1], x), events[|events| - 1], x);
    }
  }

  /** `matched` is the number of the page's requests to the address before the boundary. */
  function MatchingRequests(events: seq<Event>, x: Inspection): nat
    decreases |events|
  {
    if events == [] then 0
    else
      var before := events[..|events| - 1];
      var e := events[|events| - 1];
      MatchingRequests(before, x) +
      if Freeze !in before && Failure !in before && e.PageRequest? && x.red.url(e.url) == x.address then 1 else 0
  }

  lemma MatchingCountsNothing(r: Recorder, o: Observed, x: Inspection)
    ensures var after := AfterMatching(r, o, x);
      after.frozen == r.frozen && after.broken == r.broken && after.matched == r.matched
  {
    var key := HeldKey(o.rawUrl, x.red);
    var c := Categorize(o, r.codes, r.overflowed, x.red);
    assert WithEntry(r.tracked, key, x.limits).None? ==> AfterMatching(r, o, x) == r;
  }

  lemma SessionCountsNothing(r: Recorder, o: Observed, x: Inspection)
    ensures var after := AfterSession(r, o, x);
      after.frozen == r.frozen && after.broken == r.broken && after.matched == r.matched
  {
    var noted := if o.code then AfterCode(r, HeldKey(o.rawUrl, x.red), x) else r;
    assert noted.frozen == r.frozen && noted.broken == r.broken && noted.matched == r.matched;
    MatchingCountsNothing(noted, o, x);
    assert AfterSession(r, o, x) == noted || AfterSession(r, o, x) == AfterMatching(noted, o, x);
  }

  lemma RequestCounts(r: Recorder, url: JsString, x: Inspection)
    ensures var after := AfterPageRequest(r, url, x);
      after.frozen == r.frozen && after.broken == r.broken &&
      after.matched == r.matched + if x.red.url(url) == x.address then 1 else 0
  {
  }

  lemma StepCounts(r: Recorder, e: Event, x: Inspection)
    ensures Step(r, e, x).frozen == (r.frozen || e == Freeze)
    ensures Step(r, e, x).broken == (r.broken || (!r.frozen && e == Failure))
    ensures Step(r, e, x).matched == r.matched +
      if !r.frozen && !r.broken && e.PageRequest? && x.red.url(e.url) == x.address then 1 else 0
  {
    match e
    case PageRequest(url) => RequestCounts(r, url, x);
    case Session(Some(o)) => SessionCountsNothing(r, o, x);
    case Session(None) =>
    case Failure =>
    case Freeze =>
  }

  lemma {:induction false} MatchedCountsRequests(events: seq<Event>, x: Inspection)
    ensures Run(events, x).matched == MatchingRequests(events, x)
    ensures Run(events, x).frozen <==> Freeze in events
    ensures Failure !in events ==> !Run(events, x).broken
    ensures !Run(events, x).frozen && !Run(events, x).broken <==> Freeze !in events && Failure !in events
    decreases |events|
  {
    if events != [] {
      var before, e := events[..|events| - 1], events[|events| - 1];
      MatchedCountsRequests(before, x);
      StepCounts(Run(before, x), e, x);
      assert events == before + [e];
    }
  }

  // ---- Conservation ----

  lemma {:induction false} TallyCounts(tracked: seq<TrackedUrl>, n: nat, untracked: nat)
    requires n <= |tracked|
    ensures Units(TallyOf(tracked, n, untracked)) == untracked + PageRequests(tracked, n)
    ensures WellCounted(TallyOf(tracked, n, untracked).groups)
  {
    if n > 0 {
      TallyCounts(tracked, n - 1, untracked);
      var u := tracked[n - 1];
      JoinCounts(TallyOf(tracked, n - 1, untracked), u.pageRequests, u.pageRequests, u.observations, u.dropped, Everything,
                 Unobserved);
      AllCounted(u.pageRequests, u.pageRequests, Everything);
    }
  }

  lemma {:induction false} JoinKeysAreObserved(t: Counts, n: nat, pageRequests: nat, observations: seq<Category>, dropped: nat,
                                               stacks: map<JsString, Stack>)
    requires n <= pageRequests
    requires forall k :: HasGroup(t.groups, k) ==> k in stacks
    requires forall j :: 0 <= j < |observations| && observations[j].Group? ==> observations[j].key in stacks
    ensures forall k :: HasGroup(JoinedUpTo(t, n, pageRequests, observations, dropped, Everything).groups, k) ==> k in stacks
  {
    if n > 0 {
      JoinKeysAreObserved(t, n - 1, pageRequests, observations, dropped, stacks);
      var before := JoinedUpTo(t, n - 1, pageRequests, observations, dropped, Everything);
      var place := PlaceOf(n - 1, pageRequests, observations, dropped, Everything);
      if place.At? && place.category.Group? {
        BumpKeys(before.groups, place.category.key);
      }
    }
  }

  lemma {:induction false} TallyKeysHaveStacks(tracked: seq<TrackedUrl>, n: nat, untracked: nat, stacks: map<JsString, Stack>)
    requires n <= |tracked| && StacksKept(tracked, stacks)
    ensures forall k :: HasGroup(TallyOf(tracked, n, untracked).groups, k) ==> k in stacks
  {
    if n > 0 {
      TallyKeysHaveStacks(tracked, n - 1, untracked, stacks);
      var u := tracked[n - 1];
      JoinKeysAreObserved(TallyOf(tracked, n - 1, untracked), u.pageRequests, u.pageRequests, u.observations, u.dropped, stacks);
    }
  }

  /** No group ever loses its stack, so ranking never throws. */
  lemma RankingNeverThrows(events: seq<Event>, x: Inspection)
    ensures BuildEvidence(Run(events, x), x).Some?
  {
    var r := Run(events, x);
    var groups := FinalTally(r).groups;
    RunKeepsInv(events, x);
    TallyKeysHaveStacks(r.tracked, |r.tracked|, r.untracked, r.stacks);
    forall i | 0 <= i < |Ranked(groups)|
      ensures Ranked(groups)[i].key in r.stacks
    {
      RankedKeepsGroups(groups, Ranked(groups)[i]);
      assert HasGroup(groups, Ranked(groups)[i].key);
    }
  }

  lemma {:induction false} RowSumIsSum(groups: seq<Counted>, rows: seq<E.Row>, n: nat)
    requires n <= |groups| == |rows| && forall i :: 0 <= i < |groups| ==> rows[i].count == groups[i].count
    ensures E.RowSum(rows, n) == Sum(groups[..n])
  {
    if n > 0 {
      RowSumIsSum(groups, rows, n - 1);
      SumSplits(groups[..n], n - 1);
      assert groups[..n][..n - 1] == groups[..n - 1];
    }
  }

  lemma {:induction false} RowSumOfPrefix(rows: seq<E.Row>, k: nat, n: nat)
    requires n <= k <= |rows|
    ensures E.RowSum(rows[..k], n) == E.RowSum(rows, n)
  {
    if n > 0 {
      RowSumOfPrefix(rows, k, n - 1);
    }
  }

  function CountSum(e: E.Evidence): nat {
    E.RowSum(e.groups, |e.groups|) + e.redirected + e.withoutStack + e.withoutNamedScript + e.notListed + e.unobserved
  }

  /** Listing some groups and counting the others as not listed loses nothing. */
  lemma ListingConserves(groups: seq<Counted>, k: nat, stacks: map<JsString, Stack>)
    requires k <= |Ranked(groups)| && RowsOf(Ranked(groups), stacks).Some?
    ensures E.RowSum(RowsOf(Ranked(groups), stacks).value[..k], k) + Sum(Ranked(groups)[k..]) == Sum(groups)
  {
    SumOfRanked(groups);
    SumSplits(Ranked(groups), k);
    RowSumIsSum(Ranked(groups), RowsOf(Ranked(groups), stacks).value, k);
    RowSumOfPrefix(RowsOf(Ranked(groups), stacks).value, k, k);
  }

  lemma BuiltSum(r: Recorder, x: Inspection)
    requires BuildEvidence(r, x).Some?
    ensures CountSum(BuildEvidence(r, x).value) == Units(FinalTally(r)) && BuildEvidence(r, x).value.matched == r.matched
  {
    var t := FinalTally(r);
    ListingConserves(t.groups, Listed(x.limits, |Ranked(t.groups)|), r.stacks);
  }

  /** Main result: whatever the events and the bounds, every matched request is in exactly one count. */
  lemma CountsAddUp(events: seq<Event>, x: Inspection)
    ensures BuildEvidence(Run(events, x), x).Some?
    ensures var e := BuildEvidence(Run(events, x), x).value;
      e.matched == MatchingRequests(events, x) == CountSum(e)
  {
    var r := Run(events, x);
    RankingNeverThrows(events, x);
    MatchedCountsRequests(events, x);
    RunKeepsInv(events, x);
    TallyCounts(r.tracked, |r.tracked|, r.untracked);
    BuiltSum(r, x);
  }

  // ---- The evidence always passes ----

  /** What the redaction pass emits. */
  ghost predicate PublishesShapes(x: Inspection) {
    x.red.isAddress(x.address) && forall url :: E.IsPublishedHost(x.red.host(url))
  }

  lemma KeptStackIsValid(key: JsString, stack: Stack, x: Inspection)
    requires PublishesShapes(x) && IsKeptStack(key, stack, x.red)
    ensures E.ValidStack(stack, x.red.isAddress)
  {
    forall i | 0 <= i < |stack.hosts|
      ensures E.IsPublishedHost(stack.hosts[i])
    {
      assert stack.hosts[i] in stack.hosts;
    }
  }

  lemma {:induction false} CountWithinSum(rows: seq<E.Row>, n: nat, i: nat)
    requires i < n <= |rows|
    ensures rows[i].count <= E.RowSum(rows, n)
  {
    if i < n - 1 {
      CountWithinSum(rows, n - 1, i);
    }
  }

  lemma RankedRowsAreValid(groups: seq<Counted>, k: nat, stacks: map<JsString, Stack>, x: Inspection)
    requires WellCounted(groups) && PublishesShapes(x) && RowsOf(Ranked(groups), stacks).Some?
    requires forall key :: key in stacks ==> IsKeptStack(key, stacks[key], x.red)
    requires k <= |Ranked(groups)| && k <= E.MAX_GROUPS
    requires E.RowSum(RowsOf(Ranked(groups), stacks).value[..k], k) <= E.MAX_SAFE_INTEGER
    ensures E.ValidRows(RowsOf(Ranked(groups), stacks).value[..k], x.red.isAddress)
  {
    var rows := RowsOf(Ranked(groups), stacks).value[..k];
    forall i | 0 <= i < k
      ensures 0 < rows[i].count <= E.MAX_SAFE_INTEGER && E.ValidStack(rows[i].stack, x.red.isAddress)
    {
      CountWithinSum(rows, k, i);
      RankedRowIsValid(groups, i, stacks, x);
    }
    forall i, j | 0 <= i < j < k
      ensures rows[i].stack != rows[j].stack
    {
      RankedKeysDiffer(groups, i, j);
    }
    forall i | 0 < i < k
      ensures rows[i].count <= rows[i - 1].count
    {
      RankedCountsDescend(groups, i);
    }
  }

  lemma RankedRowIsValid(groups: seq<Counted>, i: nat, stacks: map<JsString, Stack>, x: Inspection)
    requires WellCounted(groups) && PublishesShapes(x) && i < |Ranked(groups)| && Ranked(groups)[i].key in stacks
    requires IsKeptStack(Ranked(groups)[i].key, stacks[Ranked(groups)[i].key], x.red)
    ensures 0 < Ranked(groups)[i].count && E.ValidStack(stacks[Ranked(groups)[i].key], x.red.isAddress)
  {
    RankedKeepsGroups(groups, Ranked(groups)[i]);
    KeptStackIsValid(Ranked(groups)[i].key, stacks[Ranked(groups)[i].key], x);
  }

  lemma RankedCountsDescend(groups: seq<Counted>, i: nat)
    requires WellCounted(groups) && 0 < i < |Ranked(groups)|
    ensures Ranked(groups)[i].count <= Ranked(groups)[i - 1].count
  {
    RankedIsRanked(groups);
    assert Before(Ranked(groups)[i - 1], Ranked(groups)[i]);
  }

  lemma RankedKeysDiffer(groups: seq<Counted>, i: nat, j: nat)
    requires WellCounted(groups) && i < j < |Ranked(groups)|
    ensures Ranked(groups)[i].key != Ranked(groups)[j].key
  {
    var ranked := Ranked(groups);
    RankedIsRanked(groups);
    RankedKeepsGroups(groups, ranked[i]);
    RankedKeepsGroups(groups, ranked[j]);
    assert Before(ranked[i], ranked[j]);
    CanonicalJson.LessIsIrreflexive(ranked[i].key);
  }

  lemma BuiltIsValid(r: Recorder, x: Inspection)
    requires x.limits == INSPECTION_LIMITS && PublishesShapes(x) && BuildEvidence(r, x).Some?
    requires WellCounted(FinalTally(r).groups) && forall key :: key in r.stacks ==> IsKeptStack(key, r.stacks[key], x.red)
    requires var e := BuildEvidence(r, x).value;
      e.matched == CountSum(e) <= E.MAX_SAFE_INTEGER
    ensures E.Valid(BuildEvidence(r, x).value, x.red.isAddress)
  {
    var groups := FinalTally(r).groups;
    var k := Listed(x.limits, |Ranked(groups)|);
    assert BuildEvidence(r, x).value.groups == RowsOf(Ranked(groups), r.stacks).value[..k];
    RankedRowsAreValid(groups, k, r.stacks, x);
  }

  /** Main result: evidence is refused only because recording failed. */
  lemma EvidenceIsNullIff(events: seq<Event>, x: Inspection)
    requires x.limits == INSPECTION_LIMITS && PublishesShapes(x) && MatchingRequests(events, x) <= E.MAX_SAFE_INTEGER
    ensures EvidenceOf(Run(events, x), x).None? <==> Run(events, x).broken
    ensures BuildEvidence(Run(events, x), x).Some? && E.Valid(BuildEvidence(Run(events, x), x).value, x.red.isAddress)
  {
    var r := Run(events, x);
    CountsAddUp(events, x);
    StacksAreKept(events, x);
    TallyCounts(r.tracked, |r.tracked|, r.untracked);
    BuiltIsValid(r, x);
    E.EncodedPassesIff(BuildEvidence(r, x).value, x.red.isAddress);
  }

  lemma StacksAreKept(events: seq<Event>, x: Inspection)
    ensures forall key :: key in Run(events, x).stacks ==> IsKeptStack(key, Run(events, x).stacks[key], x.red)
  {
    RunKeepsInv(events, x);
  }
}
