/**
 The page a consent search runs in, which may change arbitrarily, and the clicks made in it. Every call
 into the page is one tick, and what the page answers is a function of the tick.
 */
module ConsentPage {
  import opened Wrappers

  type Element = nat

  /** 0 is the document; the others are shadow roots. */
  type Root = nat

  datatype Seen = Seen(visible: bool, actionable: bool)

  datatype Page = Page(
    inspect: (Element, nat) -> Seen,
    lands: (Element, nat) -> bool,
    query: (Root, string, nat, nat) -> seq<Element>,
    openRoot: (Element, nat) -> Option<Root>,
    isHtml: (Element, nat) -> bool,
    labelOf: (Element, nat) -> string,
    matches: string -> bool,
    inContext: (Element, bool, nat) -> bool)

  datatype KnownControl = KnownControl(cmp: string, selector: string)

  datatype Args = Args(selectors: seq<KnownControl>, shadowHosts: seq<string>, candidateBudget: nat)

  datatype RootEntry = RootEntry(root: Root, knownConsentHost: bool)

  datatype Outcome = ByCmp(cmp: string, selector: string) | ByText(matchedText: string) | NotClicked(dispatched: nat)

  datatype Tier = Known(control: KnownControl) | Generic(text: string)

  datatype Activation = Reacted | NoReaction | NotDispatched

  const MAX_ATTEMPTS := 12
  const POLL_MS := 25
  const MAX_WAIT_MS := 350
  const MAX_LOOKS := 15
  const MAX_LABEL := 48
  const CONTROL_SELECTOR := "button, a, [role=button], input[type=button], input[type=submit]"

  // ---- One attempt ----

  /** `seenAt` is when the control was last found visible and actionable; `looks` are the inspections after the click. */
  datatype Trial = Trial(element: Element, tier: Tier, seenAt: nat, clickedAt: nat, landed: bool, looks: seq<nat>, reacted: bool)

  predicate Clickable(s: Seen) {
    s.visible && s.actionable
  }

  ghost predicate ValidTrial(page: Page, t: Trial) {
    && Clickable(page.inspect(t.element, t.seenAt)) && t.seenAt < t.clickedAt
    && t.landed == page.lands(t.element, t.clickedAt)
    && (if t.landed then Watched(page, t.element, t.clickedAt, t.looks, t.reacted) else t.looks == [] && !t.reacted)
  }

  /** After the click the control was clickable at every look but perhaps the last; it reacted if not at the last. */
  ghost predicate Watched(page: Page, element: Element, clickedAt: nat, looks: seq<nat>, reacted: bool) {
    && 1 <= |looks| <= MAX_LOOKS
    && (forall i :: 0 <= i < |looks| ==> looks[i] > clickedAt)
    && (forall i, j :: 0 <= i < j < |looks| ==> looks[i] < looks[j])
    && (forall i :: 0 <= i < |looks| - 1 ==> Clickable(page.inspect(element, looks[i])))
    && (reacted <==> !Clickable(page.inspect(element, looks[|looks| - 1])))
    && (!reacted ==> |looks| == MAX_LOOKS)
  }

  function Landed(trials: seq<Trial>): nat
    decreases |trials|
  {
    if trials == [] then 0 else Landed(trials[..|trials| - 1]) + if trials[|trials| - 1].landed then 1 else 0
  }

  /** The known control under which `element` was first clicked without a reaction. */
  function FirstKnown(trials: seq<Trial>, element: Element): Option<KnownControl> {
    if trials == [] then None
    else if trials[0].element == element && trials[0].tier.Known? && trials[0].landed then Some(trials[0].tier.control)
    else FirstKnown(trials[1..], element)
  }

  lemma {:induction false} FirstKnownAppends(trials: seq<Trial>, t: Trial, element: Element)
    ensures FirstKnown(trials + [t], element) ==
      if FirstKnown(trials, element).Some? then FirstKnown(trials, element)
      else if t.element == element && t.tier.Known? && t.landed then Some(t.tier.control) else None
  {
    if trials != [] {
      assert (trials + [t])[1..] == trials[1..] + [t];
      FirstKnownAppends(trials[1..], t, element);
    }
  }

  lemma LandedAppends(trials: seq<Trial>, t: Trial)
    ensures Landed(trials + [t]) == Landed(trials) + if t.landed then 1 else 0
  {
    assert (trials + [t])[..|trials|] == trials;
  }

  // ---- The outcome against the trials ----

  ghost predicate AllValid(page: Page, trials: seq<Trial>) {
    forall i :: 0 <= i < |trials| ==> ValidTrial(page, trials[i])
  }

  /** None of the controls clicked so far reacted. */
  ghost predicate NoneReacted(trials: seq<Trial>) {
    forall i :: 0 <= i < |trials| ==> !trials[i].reacted
  }

  /** The outcome reports the last trial, which alone reacted, under its earliest known control; or nothing reacted at all. */
  ghost predicate Explains(trials: seq<Trial>, r: Outcome) {
    match r
    case NotClicked(dispatched) => NoneReacted(trials) && dispatched == Landed(trials)
    case _ =>
      && trials != [] && NoneReacted(trials[..|trials| - 1]) && trials[|trials| - 1].reacted
      && r == Attributed(trials[|trials| - 1], FirstKnown(trials[..|trials| - 1], trials[|trials| - 1].element))
  }

  function Attributed(t: Trial, earlier: Option<KnownControl>): Outcome {
    match t.tier
    case Known(control) => ByCmp(control.cmp, control.selector)
    case Generic(text) => if earlier.Some? then ByCmp(earlier.value.cmp, earlier.value.selector) else ByText(text)
  }
}
