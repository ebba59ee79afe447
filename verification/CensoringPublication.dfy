/** The publication gate, read from the policy-C envelope only. */
module CensoringPublication {
  import opened Wrappers
  import opened CensoringModel
  import opened CensoringRates
  import opened CensoringAnalysis
  import opened CensoringResults

  datatype Profile = Profile(
    claimedClasses: seq<ClassId>, minimumPerClaimedClass: Option<int>,
    maxWorstCaseHalfWidth: real, claimedRates: seq<RateId>)

  datatype Problem =
    | ClassTooSmall(class': ClassId, guaranteed: nat)
    | DenominatorCanBeEmpty(rate: RateId)
    | NoInterval(rate: RateId)
    | TooWide(rate: RateId, halfWidth: real)

  predicate ReportsEveryRate(a: Analysis) {
    forall id :: id in RATE_IDS ==> id in a.rates
  }

  /** What is wrong with one claimed rate: the first of the three tests it fails. */
  function RateProblem(a: Analysis, profile: Profile, id: RateId): Option<Problem>
    requires id in a.rates
  {
    var rate := a.rates[id];
    if rate.envelope.denominatorCanBeEmpty then Some(DenominatorCanBeEmpty(id))
    else if rate.halfWidth.None? then Some(NoInterval(id))
    else if rate.halfWidth.value > profile.maxWorstCaseHalfWidth then Some(TooWide(id, rate.halfWidth.value))
    else None
  }

  predicate ClassListed(a: Analysis, profile: Profile, n: nat, p: Problem)
    requires n <= |profile.claimedClasses|
  {
    p.ClassTooSmall? && p.class' in profile.claimedClasses[..n] && p.guaranteed == MarginOf(p.class', a.margins) &&
    profile.minimumPerClaimedClass.Some? && p.guaranteed < profile.minimumPerClaimedClass.value
  }

  predicate RateListed(a: Analysis, profile: Profile, n: nat, p: Problem)
    requires n <= |profile.claimedRates|
  {
    exists i :: 0 <= i < n && profile.claimedRates[i] in a.rates && RateProblem(a, profile, profile.claimedRates[i]) == Some(p)
  }

  /** Exactly the problems of the claims are listed, so the list is empty exactly when every claim passes. */
  method EvaluatePublication(a: Analysis, profile: Profile) returns (publishable: bool, problems: seq<Problem>)
    requires ReportsEveryRate(a)
    ensures publishable <==> problems == []
    ensures publishable <==> Passes(a, profile)
    ensures forall p :: p in problems <==>
      ClassListed(a, profile, |profile.claimedClasses|, p) || RateListed(a, profile, |profile.claimedRates|, p)
  {
    problems := [];
    if profile.minimumPerClaimedClass.Some? {
      var minimum := profile.minimumPerClaimedClass.value;
      for i := 0 to |profile.claimedClasses|
        invariant forall p :: p in problems <==> ClassListed(a, profile, i, p)
      {
        var class' := profile.claimedClasses[i];
        if MarginOf(class', a.margins) < minimum {
          problems := problems + [ClassTooSmall(class', MarginOf(class', a.margins))];
        }
      }
    }
    assert profile.claimedClasses[..|profile.claimedClasses|] == profile.claimedClasses;
    for i := 0 to |profile.claimedRates|
      invariant forall p :: p in problems <==>
        ClassListed(a, profile, |profile.claimedClasses|, p) || RateListed(a, profile, i, p)
    {
      var id := profile.claimedRates[i];
      EveryRateListed(id);
      var rate := a.rates[id];
      ghost var before := problems;
      if rate.envelope.denominatorCanBeEmpty {
        problems := problems + [DenominatorCanBeEmpty(id)];
      } else if rate.halfWidth.None? {
        problems := problems + [NoInterval(id)];
      } else if rate.halfWidth.value > profile.maxWorstCaseHalfWidth {
        problems := problems + [TooWide(id, rate.halfWidth.value)];
      }
      OneMoreRate(a, profile, i, before, problems);
    }
    publishable := problems == [];
    NoProblemsIffPasses(a, profile, problems);
  }

  lemma OneMoreRate(a: Analysis, profile: Profile, i: nat, before: seq<Problem>, after: seq<Problem>)
    requires i < |profile.claimedRates| && profile.claimedRates[i] in a.rates
    requires forall p :: p in before <==>
      ClassListed(a, profile, |profile.claimedClasses|, p) || RateListed(a, profile, i, p)
    requires var problem := RateProblem(a, profile, profile.claimedRates[i]);
      after == if problem.Some? then before + [problem.value] else before
    ensures forall p :: p in after <==>
      ClassListed(a, profile, |profile.claimedClasses|, p) || RateListed(a, profile, i + 1, p)
  {
    forall p
      ensures RateListed(a, profile, i + 1, p) <==>
        RateListed(a, profile, i, p) || RateProblem(a, profile, profile.claimedRates[i]) == Some(p)
    {
    }
  }

  lemma NoProblemsIffPasses(a: Analysis, profile: Profile, problems: seq<Problem>)
    requires ReportsEveryRate(a)
    requires forall p :: p in problems <==>
      ClassListed(a, profile, |profile.claimedClasses|, p) || RateListed(a, profile, |profile.claimedRates|, p)
    ensures problems == [] <==> Passes(a, profile)
  {
    if problems != [] {
      assert problems[0] in problems;
      if RateListed(a, profile, |profile.claimedRates|, problems[0]) {
        var i :| 0 <= i < |profile.claimedRates| && profile.claimedRates[i] in a.rates &&
                 RateProblem(a, profile, profile.claimedRates[i]) == Some(problems[0]);
        assert !RatePasses(a, profile, profile.claimedRates[i]);
      }
    } else {
      forall i | 0 <= i < |profile.claimedRates|
        ensures RatePasses(a, profile, profile.claimedRates[i])
      {
        EveryRateListed(profile.claimedRates[i]);
        var problem := RateProblem(a, profile, profile.claimedRates[i]);
        if problem.Some? { assert RateListed(a, profile, |profile.claimedRates|, problem.value); }
      }
      forall i | 0 <= i < |profile.claimedClasses| && profile.minimumPerClaimedClass.Some?
        ensures profile.minimumPerClaimedClass.value <= MarginOf(profile.claimedClasses[i], a.margins)
      {
        var claimed := profile.claimedClasses[i];
        assert ClassTooSmall(claimed, MarginOf(claimed, a.margins)) !in problems;
      }
    }
  }

  predicate RatePasses(a: Analysis, profile: Profile, id: RateId) {
    id in a.rates && !a.rates[id].envelope.denominatorCanBeEmpty && a.rates[id].halfWidth.Some? &&
    a.rates[id].halfWidth.value <= profile.maxWorstCaseHalfWidth
  }

  predicate Passes(a: Analysis, profile: Profile) {
    && (profile.minimumPerClaimedClass.Some? ==>
        forall i :: 0 <= i < |profile.claimedClasses| ==>
          profile.minimumPerClaimedClass.value <= MarginOf(profile.claimedClasses[i], a.margins))
    && (forall i :: 0 <= i < |profile.claimedRates| ==> RatePasses(a, profile, profile.claimedRates[i]))
  }

  // ---- What a pass promises ----

  /** However the unknown cases fall: every claimed class is big enough. */
  ghost predicate ClassesLargeEnough(cases: seq<Case>, profile: Profile) {
    forall t, id :: Realizable(cases, t) && id in profile.claimedClasses && profile.minimumPerClaimedClass.Some? ==>
      profile.minimumPerClaimedClass.value <= ClassSize(id, t)
  }

  /** However they fall: the rate is defined, and no two completions' interval ends are further apart than twice the limit. */
  ghost predicate WidthBounded(cases: seq<Case>, id: RateId, limit: real, lower: Fraction -> real, upper: Fraction -> real) {
    && (forall t :: Realizable(cases, t) ==> Defined(id, t))
    && (forall s, t :: Realizable(cases, s) && Realizable(cases, t) ==>
          upper(RateCells(id, t)) - lower(RateCells(id, s)) <= 2.0 * limit)
  }

  /** The width of an exact envelope bounds every pair of completions, and one pair meets it. */
  lemma WidthIff(e: Envelope, cases: seq<Case>, id: RateId, limit: real, lower: Fraction -> real, upper: Fraction -> real)
    requires e.intervalLower.Some? && LeastOverCompletions(e.intervalLower, cases, id, lower)
    requires e.intervalUpper.Some? && GreatestOverCompletions(e.intervalUpper, cases, id, upper)
    requires forall t :: Realizable(cases, t) ==> Defined(id, t)
    ensures e.intervalUpper.value - e.intervalLower.value <= 2.0 * limit <==> WidthBounded(cases, id, limit, lower, upper)
  {
    var low :| Realizable(cases, low) && Defined(id, low) && lower(RateCells(id, low)) == e.intervalLower.value;
    var high :| Realizable(cases, high) && Defined(id, high) && upper(RateCells(id, high)) == e.intervalUpper.value;
    forall s, t | Realizable(cases, s) && Realizable(cases, t)
      ensures upper(RateCells(id, t)) - lower(RateCells(id, s)) <= e.intervalUpper.value - e.intervalLower.value
    {
      assert Defined(id, s) && Defined(id, t);
    }
  }

  lemma RateReported(plannedCases: int, cases: seq<Case>, wilson: Wilson, id: RateId)
    requires Analyze(plannedCases, cases, wilson).Ok?
    ensures id in Analyze(plannedCases, cases, wilson).value.rates
    ensures var rate := Analyze(plannedCases, cases, wilson).value.rates[id];
      rate == WithHalfWidth(rate.envelope)
  {
    EveryRateListed(id);
  }

  lemma RatePassesIff(plannedCases: int, cases: seq<Case>, wilson: Wilson, profile: Profile, id: RateId)
    requires Analyze(plannedCases, cases, wilson).Ok?
    ensures RatePasses(Analyze(plannedCases, cases, wilson).value, profile, id) <==>
      WidthBounded(cases, id, profile.maxWorstCaseHalfWidth, Lower(wilson), Upper(wilson))
  {
    EnvelopesAreExact(plannedCases, cases, wilson, id);
    AnalyzedCases(plannedCases, cases, wilson);
    MarginIsAttainedMinimum(ReferencePresent, cases);
    var some :| Realizable(cases, some);
    var rate := Analyze(plannedCases, cases, wilson).value.rates[id];
    RateReported(plannedCases, cases, wilson, id);
    var e := rate.envelope;
    if !e.denominatorCanBeEmpty {
      assert Defined(id, some);
      WidthIff(e, cases, id, profile.maxWorstCaseHalfWidth, Lower(wilson), Upper(wilson));
    }
  }

  lemma ClassesPassIff(cases: seq<Case>, profile: Profile)
    requires forall c :: c in cases ==> !c.Fatal?
    ensures ClassesLargeEnough(cases, profile) <==>
      (profile.minimumPerClaimedClass.Some? ==>
        forall i :: 0 <= i < |profile.claimedClasses| ==>
          profile.minimumPerClaimedClass.value <=
            MarginOf(profile.claimedClasses[i], MarginsOf(KnownOf(cases), UnknownsOf(cases))))
  {
    forall id: ClassId
      ensures var margin := MarginOf(id, MarginsOf(KnownOf(cases), UnknownsOf(cases)));
        (exists t :: Realizable(cases, t) && ClassSize(id, t) == margin) &&
        (forall t :: Realizable(cases, t) ==> margin <= ClassSize(id, t))
    {
      MarginIsAttainedMinimum(id, cases);
    }
  }

  /**
   Main result: the gate opens exactly when, over every completion of the unknown cases, every claimed
   class keeps its minimum and every claimed rate stays defined with its interval ends within the limit.
   */
  lemma PublishableIff(plannedCases: int, cases: seq<Case>, wilson: Wilson, profile: Profile)
    requires Analyze(plannedCases, cases, wilson).Ok?
    ensures Passes(Analyze(plannedCases, cases, wilson).value, profile) <==>
      && ClassesLargeEnough(cases, profile)
      && (forall id :: id in profile.claimedRates ==> WidthBounded(cases, id, profile.maxWorstCaseHalfWidth, Lower(wilson), Upper(wilson)))
  {
    var a := Analyze(plannedCases, cases, wilson).value;
    AnalyzedCases(plannedCases, cases, wilson);
    ClassesPassIff(cases, profile);
    forall id: RateId
      ensures RatePasses(a, profile, id) <==> WidthBounded(cases, id, profile.maxWorstCaseHalfWidth, Lower(wilson), Upper(wilson))
    {
      RatePassesIff(plannedCases, cases, wilson, profile, id);
    }
    assert a.margins == MarginsOf(KnownOf(cases), UnknownsOf(cases));
  }
}
