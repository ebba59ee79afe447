/** The bounded search for a consent control to click. */
module ConsentSearch {
  import opened Wrappers
  import opened ConsentPage
  import opened ConsentTrials
  import opened ConsentSweep

  // ---- Roots ----

  /** The shadow root found when `host` was asked for at tick `at`. */
  function OpenedRoot(page: Page, host: string, at: nat): Option<Root> {
    var hosts := page.query(0, host, 1, at);
    if hosts == [] then None else page.openRoot(hosts[0], at + 1)
  }

  ghost predicate Lists(roots: seq<RootEntry>, root: Root) {
    exists j :: 0 <= j < |roots| && roots[j].root == root
  }

  /** The document first, then without repetition exactly the roots that opened for the first `n` hosts. */
  ghost predicate RootsUpTo(page: Page, hosts: seq<string>, n: nat, roots: seq<RootEntry>, asked: seq<nat>) {
    && n <= |hosts| && |asked| == n
    && roots != [] && roots[0] == RootEntry(0, false) && (forall i :: 0 < i < |roots| ==> roots[i].knownConsentHost)
    && Distinct(roots) && HostsListed(page, hosts, n, roots, asked)
    && (forall j :: 0 < j < |roots| ==> OpenedFor(page, hosts, n, roots[j].root, asked))
  }

  /** The roots opened for the first `n` hosts are listed, and every other listed root is one of them. */
  ghost predicate HostsListed(page: Page, hosts: seq<string>, n: nat, roots: seq<RootEntry>, asked: seq<nat>)
    requires n <= |hosts| && n <= |asked|
  {
    forall i :: 0 <= i < n && OpenedRoot(page, hosts[i], asked[i]).Some? ==>
      Lists(roots, OpenedRoot(page, hosts[i], asked[i]).value)
  }

  ghost predicate OpenedFor(page: Page, hosts: seq<string>, n: nat, root: Root, asked: seq<nat>)
    requires n <= |hosts| && n <= |asked|
  {
    exists i :: 0 <= i < n && OpenedRoot(page, hosts[i], asked[i]) == Some(root)
  }

  ghost predicate Distinct(roots: seq<RootEntry>) {
    forall i, j :: 0 <= i < j < |roots| ==> roots[i].root != roots[j].root
  }

  lemma ListsStays(roots: seq<RootEntry>, more: seq<RootEntry>, root: Root)
    requires roots <= more && Lists(roots, root)
    ensures Lists(more, root)
  {
    var j :| 0 <= j < |roots| && roots[j].root == root;
    assert more[j] == roots[j];
  }

  lemma StillOpenedFor(page: Page, hosts: seq<string>, n: nat, root: Root, asked: seq<nat>, at: nat)
    requires n < |hosts| && |asked| == n
    ensures OpenedFor(page, hosts, n + 1, root, asked + [at]) <==>
      OpenedFor(page, hosts, n, root, asked) || OpenedRoot(page, hosts[n], at) == Some(root)
  {
    var later := asked + [at];
    assert later[n] == at;
    if i :| 0 <= i < n && OpenedRoot(page, hosts[i], asked[i]) == Some(root) {
      assert later[i] == asked[i];
    }
  }

  lemma OneMoreHost(page: Page, hosts: seq<string>, n: nat, before: seq<RootEntry>, asked: seq<nat>, at: nat, after: seq<RootEntry>)
    requires n < |hosts| && RootsUpTo(page, hosts, n, before, asked)
    requires var root := OpenedRoot(page, hosts[n], at);
      after == if root.Some? && !Lists(before, root.value) then before + [RootEntry(root.value, true)] else before
    ensures RootsUpTo(page, hosts, n + 1, after, asked + [at])
  {
    var later := asked + [at];
    forall i | 0 <= i < n + 1 && OpenedRoot(page, hosts[i], later[i]).Some?
      ensures Lists(after, OpenedRoot(page, hosts[i], later[i]).value)
    {
      if i < n {
        assert later[i] == asked[i];
        ListsStays(before, after, OpenedRoot(page, hosts[i], asked[i]).value);
      } else if |after| > |before| {
        assert after[|before|].root == OpenedRoot(page, hosts[n], at).value;
      }
    }
    forall j | 0 < j < |after|
      ensures OpenedFor(page, hosts, n + 1, after[j].root, later)
    {
      StillOpenedFor(page, hosts, n, after[j].root, asked, at);
    }
  }

  method IsListed(roots: seq<RootEntry>, root: Root) returns (duplicate: bool)
    ensures duplicate <==> Lists(roots, root)
  {
    duplicate := false;
    for rootIndex := 0 to |roots|
      invariant duplicate <==> exists i :: 0 <= i < rootIndex && roots[i].root == root
    {
      if roots[rootIndex].root == root {
        duplicate := true;
      }
    }
  }

  /** The document and each distinct shadow root of a known host that opens. */
  method FindRoots(page: Page, shadowHosts: seq<string>, start: nat)
      returns (roots: seq<RootEntry>, time: nat, ghost asked: seq<nat>)
    ensures time >= start && RootsUpTo(page, shadowHosts, |shadowHosts|, roots, asked)
  {
    roots, time, asked := [RootEntry(0, false)], start, [];
    for hostIndex := 0 to |shadowHosts|
      invariant time >= start && RootsUpTo(page, shadowHosts, hostIndex, roots, asked)
    {
      ghost var before, at := roots, time;
      var hosts := page.query(0, shadowHosts[hostIndex], 1, time);
      time := time + 1;
      if hosts != [] {
        var shadowRoot := page.openRoot(hosts[0], time);
        time := time + 1;
        if shadowRoot.Some? {
          var duplicate := IsListed(roots, shadowRoot.value);
          if !duplicate {
            roots := roots + [RootEntry(shadowRoot.value, true)];
          }
        }
      }
      OneMoreHost(page, shadowHosts, hostIndex, before, asked, at, roots);
      asked := asked + [at];
    }
  }

  // ---- The search ----

  class ClickSearch {
    const page: Page
    var time: nat
    var activationAttempts: nat
    var dispatchedControls: nat
    var knownCandidatesInspected: nat
    var dispatchedCmpControls: seq<(Element, KnownControl)>
    ghost var trials: seq<Trial>

    constructor (page: Page, time: nat)
      ensures this.page == page && this.time == time && Searching() && trials == [] && knownCandidatesInspected == 0
    {
      this.page, this.time := page, time;
      activationAttempts, dispatchedControls, knownCandidatesInspected := 0, 0, 0;
      dispatchedCmpControls, trials := [], [];
    }

    ghost predicate Consistent()
      reads this
    {
      TrialsAgree(page, trials, activationAttempts, dispatchedControls)
    }

    ghost predicate Searching()
      reads this
    {
      Consistent() && NothingYet(trials, dispatchedCmpControls)
    }

    method CmpAttributionFor(element: Element) returns (r: Option<KnownControl>)
      ensures r == AttributionIn(dispatchedCmpControls, element)
    {
      for index := 0 to |dispatchedCmpControls|
        invariant AttributionIn(dispatchedCmpControls, element) == AttributionIn(dispatchedCmpControls[index..], element)
      {
        if dispatchedCmpControls[index].0 == element {
          return Some(dispatchedCmpControls[index].1);
        }
        assert dispatchedCmpControls[index..][1..] == dispatchedCmpControls[index + 1..];
      }
      r := None;
    }

    /** Looks at once and then every 25 ms for 350 ms. */
    method Poll(element: Element, clickedAt: nat) returns (reacted: bool, ghost looks: seq<nat>)
      requires clickedAt < time
      modifies this`time
      ensures Watched(page, element, clickedAt, looks, reacted) && time > old(time)
    {
      looks := [time];
      reacted := !Clickable(page.inspect(element, time));
      time := time + 1;
      if reacted {
        return;
      }
      var elapsedMs := 0;
      while elapsedMs < MAX_WAIT_MS
        invariant 0 <= elapsedMs <= MAX_WAIT_MS && elapsedMs == POLL_MS * (|looks| - 1)
        invariant |looks| >= 1 && time > looks[|looks| - 1] && time > old(time)
        invariant forall i :: 0 <= i < |looks| ==> looks[i] > clickedAt && Clickable(page.inspect(element, looks[i]))
        invariant forall i, j :: 0 <= i < j < |looks| ==> looks[i] < looks[j]
      {
        time := time + 1;
        looks := looks + [time];
        reacted := !Clickable(page.inspect(element, time));
        time := time + 1;
        elapsedMs := elapsedMs + POLL_MS;
        if reacted {
          return;
        }
      }
      reacted := false;
    }

    method ActivateControl(element: Element, ghost tier: Tier, ghost seenAt: nat) returns (a: Activation)
      requires Consistent() && NoneReacted(trials) && seenAt < time && Clickable(page.inspect(element, seenAt))
      modifies this`time, this`activationAttempts, this`dispatchedControls, this`trials
      ensures Consistent() && time >= old(time) && old(trials) <= trials
      ensures old(activationAttempts) == MAX_ATTEMPTS ==> a == NotDispatched && trials == old(trials)
      ensures old(activationAttempts) < MAX_ATTEMPTS ==> |trials| == |old(trials)| + 1
      ensures old(activationAttempts) < MAX_ATTEMPTS ==> Records(trials[|old(trials)|], element, tier, a)
      ensures a != Reacted ==> NoneReacted(trials)
    {
      if activationAttempts >= MAX_ATTEMPTS {
        return NotDispatched;
      }
      activationAttempts := activationAttempts + 1;
      var clickedAt := time;
      var landed := page.lands(element, clickedAt);
      time := time + 1;
      if !landed {
        ghost var missed := Trial(element, tier, seenAt, clickedAt, false, [], false);
        OneMoreTrial(trials, missed);
        StillValid(page, trials, missed);
        trials := trials + [missed];
        return NotDispatched;
      }
      dispatchedControls := dispatchedControls + 1;
      var reacted: bool;
      ghost var looks: seq<nat>;
      reacted, looks := Poll(element, clickedAt);
      ghost var trial := Trial(element, tier, seenAt, clickedAt, true, looks, reacted);
      OneMoreTrial(trials, trial);
      StillValid(page, trials, trial);
      trials := trials + [trial];
      a := if reacted then Reacted else NoReaction;
    }

    /** A known control that was clicked and did not react keeps the first name it was clicked under. */
    method NoteDispatched(element: Element, control: KnownControl, ghost before: seq<Trial>)
      requires Consistent() && NoneReacted(trials)
      requires forall e :: AttributionIn(dispatchedCmpControls, e) == FirstKnown(before, e)
      requires |trials| == |before| + 1 && trials[..|before|] == before
      requires trials[|before|].element == element && trials[|before|].tier == Known(control) && trials[|before|].landed
      modifies this`dispatchedCmpControls
      ensures Searching()
    {
      KnownTrialAttributed(before, trials, dispatchedCmpControls, element, control);
      var attribution := CmpAttributionFor(element);
      if attribution.None? {
        dispatchedCmpControls := dispatchedCmpControls + [(element, control)];
      }
    }

    method IsClickable(element: Element) returns (clickable: bool, ghost seenAt: nat)
      modifies this`time
      ensures clickable ==> seenAt < time && Clickable(page.inspect(element, seenAt))
      ensures !clickable ==> exists t :: old(time) <= t && NotAControl(page, element, t)
      ensures time >= old(time)
    {
      seenAt := time;
      var state := page.inspect(element, time);
      time := time + 1;
      ghost var at := time;
      var isHtml := page.isHtml(element, time);
      time := time + 1;
      clickable := isHtml && Clickable(state);
      assert !isHtml ==> NotAControl(page, element, at);
      assert !Clickable(state) ==> NotAControl(page, element, seenAt);
    }

    /** One candidate of a known selector. */
    method TryKnownControl(element: Element, control: KnownControl) returns (r: Option<Outcome>)
      requires Searching()
      modifies this`time, this`activationAttempts, this`dispatchedControls, this`trials, this`dispatchedCmpControls
      ensures r.None? ==> Searching() && PassedOver(page, element, AsKnown(control), old(time), trials)
      ensures r.Some? ==> Consistent() && EndsIn(trials, r.value, false)
      ensures time >= old(time) && old(trials) <= trials
    {
      var clickable: bool;
      ghost var seenAt: nat;
      clickable, seenAt := IsClickable(element);
      if !clickable {
        ghost var t :| old(time) <= t && NotAControl(page, element, t);
        assert RuledOut(page, element, AsKnown(control), t);
        return None;
      }
      ghost var before := trials;
      var activation := ActivateControl(element, Known(control), seenAt);
      if activation == Reacted {
        return Some(ByCmp(control.cmp, control.selector));
      }
      r := None;
      if activation == NoReaction {
        NoteDispatched(element, control, before);
      } else if trials != before {
        UnlandedChangesNothing(before, trials);
      }
    }

    /** One known selector in one root, within what is left of the budget of candidates. */
    method SweepKnown(control: KnownControl, root: Root, budget: nat, ghost w: Sweep)
        returns (r: Option<Outcome>, ghost next: Sweep)
      requires Searching() && WithinBudget(page, budget, w, trials, knownCandidatesInspected)
      modifies this
      ensures time >= old(time) && old(trials) <= trials && knownCandidatesInspected <= budget + 1
      ensures next.queries == w.queries + [Query(root, control.selector, AsKnown(control))]
      ensures r.Some? ==> Consistent() && EndsIn(trials, r.value, false)
      ensures r.None? ==> Searching()
      ensures r.None? && knownCandidatesInspected <= budget ==>
        WithinBudget(page, budget, next, trials, knownCandidatesInspected)
      ensures r.None? && knownCandidatesInspected > budget ==> CutShort(page, budget, next, trials)
    {
      ghost var q, at := Query(root, control.selector, AsKnown(control)), time;
      var elements := page.query(root, control.selector, budget, time);
      time := time + 1;
      SweepBegins(page, budget, w, q, at, elements, trials);
      for elementIndex := 0 to |elements|
        invariant Searching() && time > at && old(trials) <= trials
        invariant PartlySwept(page, w, q, at, elements, elementIndex, trials)
        invariant |w.done| + elementIndex == knownCandidatesInspected <= budget
      {
        next := Partial(w, q, at, elements, elementIndex);
        knownCandidatesInspected := knownCandidatesInspected + 1;
        if knownCandidatesInspected > budget {
          SweepIsCut(page, budget, w, q, at, elements, elementIndex, trials);
          return None, next;
        }
        ghost var before, now := trials, time;
        r := TryKnownControl(elements[elementIndex], control);
        if r.Some? {
          return;
        }
        PassedSinceEarlier(page, elements[elementIndex], q.candidacy, at, now, trials);
        OneMorePassed(page, w, q, at, elements, elementIndex, before, trials);
      }
      SweepEnds(page, budget, w, q, at, elements, trials);
      r, next := None, Partial(w, q, at, elements, |elements|);
    }

    /** One known selector over every root. */
    method SweepControl(roots: seq<RootEntry>, args: Args, selectorIndex: nat, ghost w: Sweep)
        returns (r: Option<Outcome>, ghost next: Sweep)
      requires Searching() && selectorIndex < |args.selectors|
      requires AtControl(page, args, roots, w, trials, knownCandidatesInspected, selectorIndex)
      modifies this
      ensures time >= old(time) && old(trials) <= trials && knownCandidatesInspected <= args.candidateBudget + 1
      ensures r.Some? ==> Consistent() && EndsIn(trials, r.value, false)
      ensures r.None? ==> Searching()
      ensures r.None? && knownCandidatesInspected <= args.candidateBudget ==>
        AtControl(page, args, roots, next, trials, knownCandidatesInspected, selectorIndex + 1)
      ensures r.None? && knownCandidatesInspected > args.candidateBudget ==> BudgetSpent(page, args, roots, next, trials)
    {
      var control := args.selectors[selectorIndex];
      r, next := None, w;
      RowBegins(page, args, roots, w, trials, knownCandidatesInspected, selectorIndex);
      for rootIndex := 0 to |roots|
        invariant r.None? && Searching() && time >= old(time) && old(trials) <= trials
        invariant InRow(page, args, roots, next, trials, knownCandidatesInspected, selectorIndex, rootIndex)
      {
        ghost var last, before, inspected := next, trials, knownCandidatesInspected;
        r, next := SweepKnown(control, roots[rootIndex].root, args.candidateBudget, next);
        if r.Some? {
          return;
        }
        RowGoesOn(page, args, roots, last, before, inspected, selectorIndex, rootIndex, next, trials, knownCandidatesInspected);
        if knownCandidatesInspected > args.candidateBudget {
          return;
        }
      }
      RowEnds(page, args, roots, next, trials, knownCandidatesInspected, selectorIndex);
    }

    /** The known selectors, over every root, within the budget of candidates. */
    method TryKnown(roots: seq<RootEntry>, args: Args) returns (r: Option<Outcome>, ghost w: Sweep)
      requires Searching() && knownCandidatesInspected == 0
      modifies this
      ensures r.None? ==> Searching() && KnownSearched(page, args, roots, w, trials)
      ensures r.Some? ==> Consistent() && EndsIn(trials, r.value, false)
      ensures knownCandidatesInspected <= args.candidateBudget + 1 && time >= old(time)
    {
      r, w := None, NOTHING_SWEPT;
      SearchBegins(page, args, roots, trials);
      for selectorIndex := 0 to |args.selectors|
        invariant r.None? && Searching() && time >= old(time)
        invariant AtControl(page, args, roots, w, trials, knownCandidatesInspected, selectorIndex)
      {
        r, w := SweepControl(roots, args, selectorIndex, w);
        if r.Some? || knownCandidatesInspected > args.candidateBudget {
          return;
        }
      }
    }

    /** The label of a clickable button-like element, if it is short, matches as a whole, and stands in a consent context. */
    method RecognizedLabel(candidate: Element, knownConsentHost: bool) returns (text: Option<string>, ghost seenAt: nat)
      modifies this`time
      ensures text.Some? ==> seenAt < time && Clickable(page.inspect(candidate, seenAt)) && FitLabel(page, text.value)
      ensures text.None? ==> exists t :: old(time) <= t && RuledOut(page, candidate, AsGeneric(knownConsentHost), t)
      ensures time >= old(time)
    {
      text, seenAt := None, time;
      ghost var at := time;
      var isHtml := page.isHtml(candidate, time);
      time := time + 1;
      if !isHtml {
        assert RuledOut(page, candidate, AsGeneric(knownConsentHost), at);
        return;
      }
      seenAt := time;
      var state := page.inspect(candidate, time);
      time := time + 1;
      if !Clickable(state) {
        assert RuledOut(page, candidate, AsGeneric(knownConsentHost), seenAt);
        return;
      }
      at := time;
      var normalized := page.labelOf(candidate, time);
      time := time + 1;
      if normalized == "" || |normalized| > MAX_LABEL || !page.matches(normalized) {
        assert RuledOut(page, candidate, AsGeneric(knownConsentHost), at);
        return;
      }
      at := time;
      var inContext := page.inContext(candidate, knownConsentHost, time);
      time := time + 1;
      if inContext {
        text := Some(normalized);
      } else {
        assert RuledOut(page, candidate, AsGeneric(knownConsentHost), at);
      }
    }

    method TryGenericControl(candidate: Element, knownConsentHost: bool) returns (r: Option<Outcome>)
      requires Searching()
      modifies this
      ensures r.None? ==> Searching() && PassedOver(page, candidate, AsGeneric(knownConsentHost), old(time), trials)
      ensures r.Some? ==> Consistent() && EndsIn(trials, r.value, true)
      ensures r.Some? && r.value.ByText? ==> FitLabel(page, r.value.matchedText)
      ensures time >= old(time) && old(trials) <= trials
    {
      var normalized: Option<string>;
      ghost var seenAt: nat;
      normalized, seenAt := RecognizedLabel(candidate, knownConsentHost);
      if normalized.None? {
        return None;
      }
      ghost var before := trials;
      var activation := ActivateControl(candidate, Generic(normalized.value), seenAt);
      if activation != Reacted {
        if trials != before {
          GenericChangesNothing(before, trials);
        }
        return None;
      }
      var attribution := CmpAttributionFor(candidate);
      assert trials[..|trials| - 1] == before;
      r := Some(if attribution.Some? then ByCmp(attribution.value.cmp, attribution.value.selector) else ByText(normalized.value));
    }

    /** The button-like elements of one root. */
    method SweepGeneric(entry: RootEntry, budget: nat, ghost w: Sweep) returns (r: Option<Outcome>, ghost next: Sweep)
      requires Searching() && Swept(page, budget, w, trials)
      modifies this
      ensures time >= old(time) && old(trials) <= trials
      ensures next.queries == w.queries + [Query(entry.root, CONTROL_SELECTOR, AsGeneric(entry.knownConsentHost))]
      ensures r.None? ==> Searching() && Swept(page, budget, next, trials)
      ensures r.Some? ==> Consistent() && EndsIn(trials, r.value, true)
      ensures r.Some? && r.value.ByText? ==> FitLabel(page, r.value.matchedText)
    {
      ghost var q, at := Query(entry.root, CONTROL_SELECTOR, AsGeneric(entry.knownConsentHost)), time;
      var candidates := page.query(entry.root, CONTROL_SELECTOR, budget, time);
      time := time + 1;
      SweepBegins(page, budget, w, q, at, candidates, trials);
      for candidateIndex := 0 to |candidates|
        invariant Searching() && time > at && old(trials) <= trials
        invariant PartlySwept(page, w, q, at, candidates, candidateIndex, trials)
      {
        ghost var before, now := trials, time;
        r := TryGenericControl(candidates[candidateIndex], entry.knownConsentHost);
        if r.Some? {
          next := Partial(w, q, at, candidates, candidateIndex);
          return;
        }
        PassedSinceEarlier(page, candidates[candidateIndex], q.candidacy, at, now, trials);
        OneMorePassed(page, w, q, at, candidates, candidateIndex, before, trials);
      }
      SweepEnds(page, budget, w, q, at, candidates, trials);
      r, next := None, Partial(w, q, at, candidates, |candidates|);
    }

    method TryGeneric(roots: seq<RootEntry>, args: Args) returns (r: Option<Outcome>, ghost w: Sweep)
      requires Searching()
      modifies this
      ensures r.None? ==> Searching() && GenericSearched(page, args, roots, w, trials)
      ensures r.Some? ==> Consistent() && EndsIn(trials, r.value, true)
      ensures r.Some? && r.value.ByText? ==> FitLabel(page, r.value.matchedText)
      ensures old(trials) <= trials
    {
      r, w := None, NOTHING_SWEPT;
      for rootIndex := 0 to |roots|
        invariant r.None? && Searching() && old(trials) <= trials
        invariant Swept(page, args.candidateBudget, w, trials) && w.queries == GenericRow(roots, rootIndex)
      {
        r, w := SweepGeneric(roots[rootIndex], args.candidateBudget, w);
        if r.Some? {
          return;
        }
      }
    }
  }

  /** All that happened in a search: the roots and when their hosts were asked for, both sweeps, and the clicks. */
  datatype Search = Search(hostsAsked: seq<nat>, roots: seq<RootEntry>, known: Sweep, generic: Sweep, trials: seq<Trial>)

  const NO_SEARCH := Search([], [], NOTHING_SWEPT, NOTHING_SWEPT, [])

  /** The outcome was found in the known tier, or that tier was searched in vain; and so for the generic tier. */
  ghost predicate Thorough(page: Page, args: Args, s: Search, r: Outcome) {
    && RootsUpTo(page, args.shadowHosts, |args.shadowHosts|, s.roots, s.hostsAsked)
    && (r.NotClicked? || (s.trials != [] && s.trials[|s.trials| - 1].tier.Generic?) ==>
         KnownSearched(page, args, s.roots, s.known, s.trials))
    && (r.NotClicked? ==> GenericSearched(page, args, s.roots, s.generic, s.trials))
  }

  /**
   Main result, for every page: at most twelve clicks; each on a control seen clickable just before; each
   watched until it reacts or for the whole poll; a click is reported only for the control that reacted,
   under the known control it was first clicked as; and nothing is reported only if nothing reacted and
   every candidate of every query was ruled out, clicked, or beyond the budgets.
   */
  method FindAndClick(page: Page, args: Args, runtimePresent: bool, start: nat) returns (r: Outcome, ghost s: Search)
    ensures |s.trials| <= MAX_ATTEMPTS && AllValid(page, s.trials)
    ensures Explains(s.trials, r)
    ensures r.ByText? ==> FitLabel(page, r.matchedText)
    ensures if runtimePresent then Thorough(page, args, s, r) else s.trials == []
  {
    if !runtimePresent {
      return NotClicked(0), NO_SEARCH;
    }
    var roots, time;
    ghost var hostsAsked;
    roots, time, hostsAsked := FindRoots(page, args.shadowHosts, start);
    var search := new ClickSearch(page, time);
    var found: Option<Outcome>;
    ghost var known: Sweep;
    found, known := search.TryKnown(roots, args);
    ghost var generic := NOTHING_SWEPT;
    if found.None? {
      ghost var before := search.trials;
      found, generic := search.TryGeneric(roots, args);
      KnownSearchedStays(page, args, roots, known, before, search.trials);
    }
    s := Search(hostsAsked, roots, known, generic, search.trials);
    r := if found.Some? then found.value else NotClicked(search.dispatchedControls);
  }

  lemma KnownSearchedStays(page: Page, args: Args, roots: seq<RootEntry>, w: Sweep, before: seq<Trial>, after: seq<Trial>)
    requires KnownSearched(page, args, roots, w, before) && before <= after && |after| <= MAX_ATTEMPTS
    ensures KnownSearched(page, args, roots, w, after)
  {
    AllPassedStay(page, w.done, before, after);
  }

  ghost predicate Records(t: Trial, element: Element, tier: Tier, a: Activation) {
    && t.element == element && t.tier == tier
    && (a == Reacted <==> t.reacted) && (a == NotDispatched <==> !t.landed) && (t.reacted ==> t.landed)
  }
}
