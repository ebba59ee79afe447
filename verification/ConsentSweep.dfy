/** What it means that a search left out no candidate: which queries it made, and why each result was passed over. */
module ConsentSweep {
  import opened ConsentPage

  predicate FitLabel(page: Page, text: string) {
    text != "" && |text| <= MAX_LABEL && page.matches(text)
  }

  /** At tick `t` or later the page said something that rules `e` out, or `e` was clicked, or no attempts are left. */
  ghost predicate PassedOver(page: Page, e: Element, tier: Candidacy, from: nat, trials: seq<Trial>) {
    || (exists t :: from <= t && RuledOut(page, e, tier, t))
    || (exists k :: 0 <= k < |trials| && trials[k].element == e && IsTier(trials[k].tier, tier))
    || |trials| == MAX_ATTEMPTS
  }

  datatype Candidacy = AsKnown(control: KnownControl) | AsGeneric(knownConsentHost: bool)

  predicate IsTier(t: Tier, c: Candidacy) {
    match c
    case AsKnown(control) => t == Known(control)
    case AsGeneric(_) => t.Generic?
  }

  predicate NotAControl(page: Page, e: Element, t: nat) {
    !page.isHtml(e, t) || !Clickable(page.inspect(e, t))
  }

  predicate RuledOut(page: Page, e: Element, c: Candidacy, t: nat) {
    || NotAControl(page, e, t)
    || (c.AsGeneric? && (!FitLabel(page, page.labelOf(e, t)) || !page.inContext(e, c.knownConsentHost, t)))
  }

  lemma PassedStays(page: Page, e: Element, c: Candidacy, from: nat, before: seq<Trial>, after: seq<Trial>)
    requires PassedOver(page, e, c, from, before) && before <= after && |after| <= MAX_ATTEMPTS
    ensures PassedOver(page, e, c, from, after)
  {
    if k :| 0 <= k < |before| && before[k].element == e && IsTier(before[k].tier, c) {
      assert after[k] == before[k];
    }
  }

  lemma PassedSinceEarlier(page: Page, e: Element, c: Candidacy, from: nat, later: nat, trials: seq<Trial>)
    requires PassedOver(page, e, c, later, trials) && from <= later
    ensures PassedOver(page, e, c, from, trials)
  {
  }

  /** A candidate returned by a query at tick `from`. */
  datatype Candidate = Candidate(element: Element, candidacy: Candidacy, from: nat)

  ghost predicate AllPassed(page: Page, done: seq<Candidate>, trials: seq<Trial>) {
    forall i :: 0 <= i < |done| ==> PassedOver(page, done[i].element, done[i].candidacy, done[i].from, trials)
  }

  lemma AllPassedStay(page: Page, done: seq<Candidate>, before: seq<Trial>, after: seq<Trial>)
    requires AllPassed(page, done, before) && before <= after && |after| <= MAX_ATTEMPTS
    ensures AllPassed(page, done, after)
  {
    forall i | 0 <= i < |done|
      ensures PassedOver(page, done[i].element, done[i].candidacy, done[i].from, after)
    {
      PassedStays(page, done[i].element, done[i].candidacy, done[i].from, before, after);
    }
  }

  /** One query: a selector in a root, and what its results are candidates for. */
  datatype Query = Query(root: Root, selector: string, candidacy: Candidacy)

  function CandidatesOf(q: Query, elements: seq<Element>, at: nat): (r: seq<Candidate>)
    ensures |r| == |elements|
  {
    seq(|elements|, i requires 0 <= i < |elements| => Candidate(elements[i], q.candidacy, at))
  }

  /** Everything the first queries returned, in order. */
  function Returned(page: Page, budget: nat, queries: seq<Query>, at: seq<nat>): seq<Candidate>
    requires |queries| == |at|
  {
    if queries == [] then []
    else
      var n := |queries| - 1;
      Returned(page, budget, queries[..n], at[..n]) +
      CandidatesOf(queries[n], page.query(queries[n].root, queries[n].selector, budget, at[n]), at[n])
  }

  lemma ReturnedOneMore(page: Page, budget: nat, queries: seq<Query>, at: seq<nat>, q: Query, now: nat)
    requires |queries| == |at|
    ensures Returned(page, budget, queries + [q], at + [now]) ==
      Returned(page, budget, queries, at) + CandidatesOf(q, page.query(q.root, q.selector, budget, now), now)
  {
    assert (queries + [q])[..|queries|] == queries && (at + [now])[..|at|] == at;
  }

  /** The first `n` roots, searched for one known control. */
  function KnownRow(control: KnownControl, roots: seq<RootEntry>, n: nat): seq<Query>
    requires n <= |roots|
  {
    if n == 0 then [] else KnownRow(control, roots, n - 1) + [Query(roots[n - 1].root, control.selector, AsKnown(control))]
  }

  function KnownRows(controls: seq<KnownControl>, roots: seq<RootEntry>, n: nat): seq<Query>
    requires n <= |controls|
  {
    if n == 0 then [] else KnownRows(controls, roots, n - 1) + KnownRow(controls[n - 1], roots, |roots|)
  }

  function GenericRow(roots: seq<RootEntry>, n: nat): seq<Query>
    requires n <= |roots|
  {
    if n == 0 then []
    else GenericRow(roots, n - 1) + [Query(roots[n - 1].root, CONTROL_SELECTOR, AsGeneric(roots[n - 1].knownConsentHost))]
  }

  /** The queries made, when they were made, and the candidates looked at. */
  datatype Sweep = Sweep(queries: seq<Query>, at: seq<nat>, done: seq<Candidate>)

  const NOTHING_SWEPT := Sweep([], [], [])

  /** Everything returned so far has been looked at and passed over. */
  ghost predicate Swept(page: Page, budget: nat, w: Sweep, trials: seq<Trial>) {
    |w.queries| == |w.at| && w.done == Returned(page, budget, w.queries, w.at) && AllPassed(page, w.done, trials)
  }

  /** `w` and one more query, of whose results the first `n` have been looked at. */
  function Partial(w: Sweep, q: Query, at: nat, elements: seq<Element>, n: nat): Sweep
    requires n <= |elements|
  {
    Sweep(w.queries + [q], w.at + [at], w.done + CandidatesOf(q, elements, at)[..n])
  }

  ghost predicate PartlySwept(page: Page, w: Sweep, q: Query, at: nat, elements: seq<Element>, n: nat, trials: seq<Trial>) {
    n <= |elements| && AllPassed(page, Partial(w, q, at, elements, n).done, trials)
  }

  lemma SweepBegins(page: Page, budget: nat, w: Sweep, q: Query, at: nat, elements: seq<Element>, trials: seq<Trial>)
    requires Swept(page, budget, w, trials)
    ensures PartlySwept(page, w, q, at, elements, 0, trials)
  {
    assert Partial(w, q, at, elements, 0).done == w.done;
  }

  lemma OneMorePassed(page: Page, w: Sweep, q: Query, at: nat, elements: seq<Element>, n: nat, before: seq<Trial>, after: seq<Trial>)
    requires PartlySwept(page, w, q, at, elements, n, before) && n < |elements|
    requires before <= after && |after| <= MAX_ATTEMPTS && PassedOver(page, elements[n], q.candidacy, at, after)
    ensures PartlySwept(page, w, q, at, elements, n + 1, after)
  {
    var done, next := Partial(w, q, at, elements, n).done, Partial(w, q, at, elements, n + 1).done;
    AllPassedStay(page, done, before, after);
    assert next == done + [Candidate(elements[n], q.candidacy, at)];
  }

  lemma SweepEnds(page: Page, budget: nat, w: Sweep, q: Query, at: nat, elements: seq<Element>, trials: seq<Trial>)
    requires |w.queries| == |w.at| && w.done == Returned(page, budget, w.queries, w.at)
    requires elements == page.query(q.root, q.selector, budget, at)
    requires PartlySwept(page, w, q, at, elements, |elements|, trials)
    ensures Swept(page, budget, Partial(w, q, at, elements, |elements|), trials)
  {
    ReturnedOneMore(page, budget, w.queries, w.at, q, at);
    assert CandidatesOf(q, elements, at)[..|elements|] == CandidatesOf(q, elements, at);
  }

  lemma SweepIsCut(page: Page, budget: nat, w: Sweep, q: Query, at: nat, elements: seq<Element>, n: nat, trials: seq<Trial>)
    requires |w.queries| == |w.at| && w.done == Returned(page, budget, w.queries, w.at)
    requires elements == page.query(q.root, q.selector, budget, at)
    requires PartlySwept(page, w, q, at, elements, n, trials) && n < |elements| && |w.done| + n == budget
    ensures CutShort(page, budget, Partial(w, q, at, elements, n), trials)
  {
    ReturnedOneMore(page, budget, w.queries, w.at, q, at);
    var all := CandidatesOf(q, elements, at);
    assert w.done + all == w.done + all[..n] + all[n..];
  }

  /** Every control in every root, or the candidates that came first up to the budget. */
  ghost predicate KnownSearched(page: Page, args: Args, roots: seq<RootEntry>, w: Sweep, trials: seq<Trial>) {
    || (Swept(page, args.candidateBudget, w, trials) && w.queries == KnownRows(args.selectors, roots, |args.selectors|))
    || BudgetSpent(page, args, roots, w, trials)
  }

  /** As many candidates as the budget allows have been looked at, and there were more. */
  ghost predicate CutShort(page: Page, budget: nat, w: Sweep, trials: seq<Trial>) {
    && |w.queries| == |w.at| && |w.done| == budget && AllPassed(page, w.done, trials)
    && w.done < Returned(page, budget, w.queries, w.at)
  }

  ghost predicate BudgetSpent(page: Page, args: Args, roots: seq<RootEntry>, w: Sweep, trials: seq<Trial>) {
    && CutShort(page, args.candidateBudget, w, trials)
    && exists n, m :: 0 <= n < |args.selectors| && 0 <= m <= |roots| &&
         w.queries == KnownRows(args.selectors, roots, n) + KnownRow(args.selectors[n], roots, m)
  }

  /** `inspected` candidates have been looked at, all that were returned, and no more than the budget allows. */
  ghost predicate WithinBudget(page: Page, budget: nat, w: Sweep, trials: seq<Trial>, inspected: nat) {
    Swept(page, budget, w, trials) && |w.done| == inspected <= budget
  }

  /** The controls before `n` are done in every root. */
  ghost predicate AtControl(page: Page, args: Args, roots: seq<RootEntry>, w: Sweep, trials: seq<Trial>, inspected: nat, n: nat) {
    WithinBudget(page, args.candidateBudget, w, trials, inspected) && n <= |args.selectors| &&
    w.queries == KnownRows(args.selectors, roots, n)
  }

  /** So are the roots before `m` for control `n`. */
  ghost predicate InRow(page: Page, args: Args, roots: seq<RootEntry>, w: Sweep, trials: seq<Trial>, inspected: nat, n: nat, m: nat) {
    WithinBudget(page, args.candidateBudget, w, trials, inspected) && n < |args.selectors| && m <= |roots| &&
    w.queries == KnownRows(args.selectors, roots, n) + KnownRow(args.selectors[n], roots, m)
  }

  lemma SearchBegins(page: Page, args: Args, roots: seq<RootEntry>, trials: seq<Trial>)
    ensures AtControl(page, args, roots, NOTHING_SWEPT, trials, 0, 0)
  {
  }

  lemma RowBegins(page: Page, args: Args, roots: seq<RootEntry>, w: Sweep, trials: seq<Trial>, inspected: nat, n: nat)
    requires AtControl(page, args, roots, w, trials, inspected, n) && n < |args.selectors|
    ensures InRow(page, args, roots, w, trials, inspected, n, 0)
  {
  }

  lemma RowGoesOn(page: Page, args: Args, roots: seq<RootEntry>, w: Sweep, before: seq<Trial>, inspected: nat, n: nat, m: nat,
                  next: Sweep, after: seq<Trial>, inspectedNow: nat)
    requires InRow(page, args, roots, w, before, inspected, n, m) && m < |roots|
    requires next.queries == w.queries + [Query(roots[m].root, args.selectors[n].selector, AsKnown(args.selectors[n]))]
    ensures WithinBudget(page, args.candidateBudget, next, after, inspectedNow) ==>
      InRow(page, args, roots, next, after, inspectedNow, n, m + 1)
    ensures CutShort(page, args.candidateBudget, next, after) ==> BudgetSpent(page, args, roots, next, after)
  {
    var earlier, control := KnownRows(args.selectors, roots, n), args.selectors[n];
    assert next.queries == earlier + KnownRow(control, roots, m + 1);
  }

  lemma RowEnds(page: Page, args: Args, roots: seq<RootEntry>, w: Sweep, trials: seq<Trial>, inspected: nat, n: nat)
    requires InRow(page, args, roots, w, trials, inspected, n, |roots|)
    ensures AtControl(page, args, roots, w, trials, inspected, n + 1)
  {
  }

  ghost predicate GenericSearched(page: Page, args: Args, roots: seq<RootEntry>, w: Sweep, trials: seq<Trial>) {
    Swept(page, args.candidateBudget, w, trials) && w.queries == GenericRow(roots, |roots|)
  }
}
