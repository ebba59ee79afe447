/** How the counters and lists of a search agree with the clicks it has made. */
module ConsentTrials {
  import opened Wrappers
  import opened ConsentPage

  lemma StillValid(page: Page, trials: seq<Trial>, t: Trial)
    requires AllValid(page, trials) && ValidTrial(page, t)
    ensures AllValid(page, trials + [t])
  {
    var more := trials + [t];
    forall i | 0 <= i < |more|
      ensures ValidTrial(page, more[i])
    {
      if i < |trials| {
        assert more[i] == trials[i];
      }
    }
  }

  lemma OneMoreTrial(trials: seq<Trial>, t: Trial)
    ensures Landed(trials + [t]) == Landed(trials) + if t.landed then 1 else 0
    ensures trials <= trials + [t] && (trials + [t])[|trials|] == t
    ensures NoneReacted(trials) && !t.reacted ==> NoneReacted(trials + [t])
  {
    LandedAppends(trials, t);
  }

  // ---- Attributions ----

  function AttributionIn(controls: seq<(Element, KnownControl)>, element: Element): Option<KnownControl> {
    if controls == [] then None
    else if controls[0].0 == element then Some(controls[0].1)
    else AttributionIn(controls[1..], element)
  }

  lemma {:induction false} AttributionAppends(controls: seq<(Element, KnownControl)>, c: (Element, KnownControl), element: Element)
    ensures AttributionIn(controls + [c], element) ==
      if AttributionIn(controls, element).Some? then AttributionIn(controls, element)
      else if c.0 == element then Some(c.1) else None
  {
    if controls != [] {
      assert (controls + [c])[1..] == controls[1..] + [c];
      AttributionAppends(controls[1..], c, element);
    }
  }

  function Noted(controls: seq<(Element, KnownControl)>, element: Element, control: KnownControl): seq<(Element, KnownControl)> {
    if AttributionIn(controls, element).None? then controls + [(element, control)] else controls
  }

  lemma {:induction false} KnownTrialAttributed(before: seq<Trial>, after: seq<Trial>, controls: seq<(Element, KnownControl)>,
                                                element: Element, control: KnownControl)
    requires |after| == |before| + 1 && after[..|before|] == before
    requires after[|before|].element == element && after[|before|].tier == Known(control) && after[|before|].landed
    requires forall e :: AttributionIn(controls, e) == FirstKnown(before, e)
    ensures forall e :: FirstKnown(after, e) == AttributionIn(Noted(controls, element, control), e)
  {
    assert after == before + [after[|before|]];
    forall e
      ensures FirstKnown(after, e) == AttributionIn(Noted(controls, element, control), e)
    {
      FirstKnownAppends(before, after[|before|], e);
      AttributionAppends(controls, (element, control), e);
    }
  }

  lemma UnlandedChangesNothing(before: seq<Trial>, after: seq<Trial>)
    requires |after| == |before| + 1 && after[..|before|] == before && !after[|before|].landed
    ensures forall e :: FirstKnown(after, e) == FirstKnown(before, e)
  {
    assert after == before + [after[|before|]];
    forall e
      ensures FirstKnown(after, e) == FirstKnown(before, e)
    {
      FirstKnownAppends(before, after[|before|], e);
    }
  }

  lemma GenericChangesNothing(before: seq<Trial>, after: seq<Trial>)
    requires |after| == |before| + 1 && after[..|before|] == before && after[|before|].tier.Generic?
    ensures forall e :: FirstKnown(after, e) == FirstKnown(before, e)
  {
    assert after == before + [after[|before|]];
    forall e
      ensures FirstKnown(after, e) == FirstKnown(before, e)
    {
      FirstKnownAppends(before, after[|before|], e);
    }
  }

  // ---- The state of a search ----

  /** Counters agree with the trials made. */
  ghost predicate TrialsAgree(page: Page, trials: seq<Trial>, attempts: nat, dispatched: nat) {
    |trials| == attempts <= MAX_ATTEMPTS && dispatched == Landed(trials) && AllValid(page, trials)
  }

  /** Nothing has reacted yet, and each control is remembered under its first known name. */
  ghost predicate NothingYet(trials: seq<Trial>, controls: seq<(Element, KnownControl)>) {
    NoneReacted(trials) && forall element :: AttributionIn(controls, element) == FirstKnown(trials, element)
  }

  /** The search ends here, with the last trial, in the generic tier or not. */
  ghost predicate EndsIn(trials: seq<Trial>, r: Outcome, generic: bool) {
    Explains(trials, r) && !r.NotClicked? && (trials[|trials| - 1].tier.Generic? <==> generic)
  }
}
