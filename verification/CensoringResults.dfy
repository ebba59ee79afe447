/** The whole analysis, what each of its numbers means over all completions, and the publication gate. */
module CensoringResults {
  import opened Wrappers
  import opened CensoringModel
  import opened CensoringEnumeration
  import opened CensoringRates
  import opened CensoringAnalysis

  function WithHalfWidth(e: Envelope): RateEnvelope {
    RateEnvelope(e,
      if e.intervalLower.Some? && e.intervalUpper.Some? && !e.denominatorCanBeEmpty
      then Some((e.intervalUpper.value - e.intervalLower.value) / 2.0)
      else None)
  }

  function CompleteCase(id: RateId, known: Cells, wilson: Wilson): CompleteCaseRate {
    var f := RateCells(id, known);
    CompleteCaseRate(f,
      if f.denominator == 0 then None else Some(Estimate(f)),
      if f.denominator == 0 then None else Some(wilson(f.numerator, f.denominator)))
  }

  function MarginsOf(known: Cells, u: Unknowns): Margins {
    Margins(known.tp + known.fn + u.predPresent, known.fp + known.tn + u.predAbsent,
            known.tp + known.fp + u.refDetected, known.fn + known.tn + u.refNotDetected)
  }

  function Analyze(plannedCases: int, cases: seq<Case>, wilson: Wilson): Result<Analysis, Refusal> {
    if plannedCases <= 0 || MAX_SAFE_INTEGER < plannedCases then Err(PlannedCountInvalid)
    else if |cases| != plannedCases then Err(NotConserved)
    else if Defect(cases, 0).Some? then Err(Defect(cases, 0).value)
    else
      var known, u := KnownOf(cases), UnknownsOf(cases);
      if AssignmentCount(u) > MAX_ENVELOPE_ASSIGNMENTS then Err(TooManyAssignments(AssignmentCount(u)))
      else
        var losses := LossesUpTo(cases, |cases|);
        if !Conserved(losses, TotalUnknown(u)) then Err(LossReasonsNotConserved)
        else
          var envelopes := EnvelopesOf(Visited(known, u), wilson);
          Ok(Reported(plannedCases, known, u, envelopes, losses, wilson))
  }

  function Reported(plannedCases: nat, known: Cells, u: Unknowns, envelopes: map<RateId, Envelope>, losses: LossRecord,
                    wilson: Wilson): Analysis
    requires forall id :: id in RATE_IDS ==> id in envelopes
  {
    Analysis(plannedCases, Total(known), known, u, AssignmentCount(u),
             map id | id in RATE_IDS :: WithHalfWidth(envelopes[id]),
             MarginsOf(known, u), losses.counts,
             map id | id in RATE_IDS :: CompleteCase(id, known, wilson))
  }

  method AnalyzeCensoring(plannedCases: int, cases: seq<Case>, wilson: Wilson) returns (r: Result<Analysis, Refusal>)
    ensures r == Analyze(plannedCases, cases, wilson)
  {
    if plannedCases <= 0 || MAX_SAFE_INTEGER < plannedCases { return Err(PlannedCountInvalid); }
    if |cases| != plannedCases { return Err(NotConserved); }
    var defect := FindDefect(cases);
    if defect.Some? { return Err(defect.value); }
    var known, u, losses := Tally(cases);
    var assignmentCount := AssignmentCount(u);
    if assignmentCount > MAX_ENVELOPE_ASSIGNMENTS { return Err(TooManyAssignments(assignmentCount)); }
    var accumulators := Enumerate(known, u, wilson);
    if losses.textual || SumOfCounts(losses.counts) != TotalUnknown(u) { return Err(LossReasonsNotConserved); }
    r := Ok(Reported(plannedCases, known, u, accumulators, losses, wilson));
  }

  // ---- What is accepted ----

  lemma {:induction false} DefectMeans(cases: seq<Case>, i: nat)
    requires i <= |cases|
    ensures Defect(cases, i).None? <==>
      forall j :: i <= j < |cases| ==> cases[j].id != "" && !cases[j].Fatal? && cases[j].id !in IdsOf(cases, j)
    decreases |cases| - i
  {
    if i < |cases| { DefectMeans(cases, i + 1); }
  }

  lemma NewIdsAreDistinct(cases: seq<Case>)
    ensures (forall j :: 0 <= j < |cases| ==> cases[j].id !in IdsOf(cases, j)) <==>
      (forall i, j :: 0 <= i < j < |cases| ==> cases[i].id != cases[j].id)
  {
    forall i, j | 0 <= i < j < |cases| && cases[j].id !in IdsOf(cases, j)
      ensures cases[i].id != cases[j].id
    {
      assert cases[i].id in IdsOf(cases, j);
    }
  }

  /** Main result: exactly the studies that account once for every planned case, and stay under the ceiling, are analysed. */
  lemma AnalyzedIff(plannedCases: int, cases: seq<Case>, wilson: Wilson)
    ensures Analyze(plannedCases, cases, wilson).Ok? <==>
      && 0 < plannedCases <= MAX_SAFE_INTEGER && |cases| == plannedCases
      && (forall i :: 0 <= i < |cases| ==> cases[i].id != "" && !cases[i].Fatal?)
      && (forall i, j :: 0 <= i < j < |cases| ==> cases[i].id != cases[j].id)
      && |Visited(KnownOf(cases), UnknownsOf(cases))| <= MAX_ENVELOPE_ASSIGNMENTS
      && !NamesInherited(cases, |cases|)
  {
    DefectMeans(cases, 0);
    VisitedCount(KnownOf(cases), UnknownsOf(cases));
    LossesConservedIff(cases, |cases|);
    NewIdsAreDistinct(cases);
  }

  lemma AnalyzedCases(plannedCases: int, cases: seq<Case>, wilson: Wilson)
    requires Analyze(plannedCases, cases, wilson).Ok?
    ensures |cases| == plannedCases > 0 && forall c :: c in cases ==> !c.Fatal?
  {
    AnalyzedIff(plannedCases, cases, wilson);
  }

  // ---- Envelopes over completions ----

  /** `m` is the least value of `f` over all completions on which the rate is defined. */
  ghost predicate LeastOverCompletions(m: Option<real>, cases: seq<Case>, id: RateId, f: Fraction -> real) {
    && (m.None? <==> forall t :: Realizable(cases, t) ==> !Defined(id, t))
    && (m.Some? ==>
        && (exists t :: Realizable(cases, t) && Defined(id, t) && f(RateCells(id, t)) == m.value)
        && (forall t :: Realizable(cases, t) && Defined(id, t) ==> m.value <= f(RateCells(id, t))))
  }

  ghost predicate GreatestOverCompletions(m: Option<real>, cases: seq<Case>, id: RateId, f: Fraction -> real) {
    && (m.None? <==> forall t :: Realizable(cases, t) ==> !Defined(id, t))
    && (m.Some? ==>
        && (exists t :: Realizable(cases, t) && Defined(id, t) && f(RateCells(id, t)) == m.value)
        && (forall t :: Realizable(cases, t) && Defined(id, t) ==> f(RateCells(id, t)) <= m.value))
  }

  /** The visited tables and the realizable ones are the same set. */
  ghost predicate SameTables(cases: seq<Case>, tables: seq<Cells>) {
    && (forall t :: Realizable(cases, t) ==> exists i :: 0 <= i < |tables| && tables[i] == t)
    && (forall i :: 0 <= i < |tables| ==> Realizable(cases, tables[i]))
  }

  lemma VisitedTables(cases: seq<Case>)
    requires forall c :: c in cases ==> !c.Fatal?
    ensures SameTables(cases, Visited(KnownOf(cases), UnknownsOf(cases)))
  {
    var tables := Visited(KnownOf(cases), UnknownsOf(cases));
    forall t | Realizable(cases, t)
      ensures exists i :: 0 <= i < |tables| && tables[i] == t
    {
      VisitedIffRealizable(cases, t);
    }
    forall i | 0 <= i < |tables|
      ensures Realizable(cases, tables[i])
    {
      VisitedIffRealizable(cases, tables[i]);
    }
  }

  lemma LeastTransfers(m: Option<real>, cases: seq<Case>, tables: seq<Cells>, id: RateId, f: Fraction -> real)
    requires SameTables(cases, tables) && IsLeast(m, id, tables, |tables|, f)
    ensures LeastOverCompletions(m, cases, id, f)
  {
  }

  lemma GreatestTransfers(m: Option<real>, cases: seq<Case>, tables: seq<Cells>, id: RateId, f: Fraction -> real)
    requires SameTables(cases, tables) && IsGreatest(m, id, tables, |tables|, f)
    ensures GreatestOverCompletions(m, cases, id, f)
  {
  }

  /** Main result: every number of every policy-C envelope is exact over all completions of the cases. */
  lemma EnvelopesAreExact(plannedCases: int, cases: seq<Case>, wilson: Wilson, id: RateId)
    requires Analyze(plannedCases, cases, wilson).Ok?
    ensures id in Analyze(plannedCases, cases, wilson).value.rates
    ensures var e := Analyze(plannedCases, cases, wilson).value.rates[id].envelope;
      && LeastOverCompletions(e.estimateMin, cases, id, EstimateOrZero)
      && GreatestOverCompletions(e.estimateMax, cases, id, EstimateOrZero)
      && LeastOverCompletions(e.intervalLower, cases, id, Lower(wilson))
      && GreatestOverCompletions(e.intervalUpper, cases, id, Upper(wilson))
      && (e.denominatorCanBeEmpty <==> exists t :: Realizable(cases, t) && !Defined(id, t))
  {
    AnalyzedCases(plannedCases, cases, wilson);
    assert id in RATE_IDS by { EveryRateListed(id); }
    VisitedTables(cases);
    var tables := Visited(KnownOf(cases), UnknownsOf(cases));
    var e := EnvelopeOf(id, tables, |tables|, wilson);
    EnvelopeIsExact(id, tables, wilson);
    LeastTransfers(e.estimateMin, cases, tables, id, EstimateOrZero);
    GreatestTransfers(e.estimateMax, cases, tables, id, EstimateOrZero);
    LeastTransfers(e.intervalLower, cases, tables, id, Lower(wilson));
    GreatestTransfers(e.intervalUpper, cases, tables, id, Upper(wilson));
  }

  lemma EveryRateListed(id: RateId)
    ensures id in RATE_IDS
  {
    assert RATE_IDS[0] == Sensitivity && RATE_IDS[1] == Specificity && RATE_IDS[2] == Precision &&
           RATE_IDS[3] == NegativePredictiveValue && RATE_IDS[4] == Accuracy && RATE_IDS[5] == FalsePositiveRate &&
           RATE_IDS[6] == FalseNegativeRate;
  }

  // ---- Guaranteed margins ----

  datatype ClassId = ReferencePresent | ReferenceAbsent | PredictedDetected | PredictedNotDetected

  function ClassSize(id: ClassId, t: Cells): nat {
    match id
    case ReferencePresent => t.tp + t.fn
    case ReferenceAbsent => t.fp + t.tn
    case PredictedDetected => t.tp + t.fp
    case PredictedNotDetected => t.fn + t.tn
  }

  function MarginOf(id: ClassId, m: Margins): nat {
    match id
    case ReferencePresent => m.referencePresent
    case ReferenceAbsent => m.referenceAbsent
    case PredictedDetected => m.predictedDetected
    case PredictedNotDetected => m.predictedNotDetected
  }

  /** The assignment that puts nobody undecided into the class. */
  function Emptiest(id: ClassId, u: Unknowns): Assignment {
    match id
    case ReferencePresent => Assignment(0, 0, 0, 0, 0, u.both, 0)
    case ReferenceAbsent => Assignment(u.refDetected, u.refNotDetected, 0, 0, u.both, 0, 0)
    case PredictedDetected => Assignment(0, 0, 0, 0, 0, 0, u.both)
    case PredictedNotDetected => Assignment(0, 0, u.predPresent, u.predAbsent, u.both, 0, 0)
  }

  lemma EmptiestMeetsMargin(id: ClassId, known: Cells, u: Unknowns)
    ensures InBounds(u, Emptiest(id, u))
    ensures ClassSize(id, CellAt(known, u, Emptiest(id, u))) == MarginOf(id, MarginsOf(known, u))
  {
  }

  lemma MarginIsFloor(id: ClassId, known: Cells, u: Unknowns, a: Assignment)
    requires InBounds(u, a)
    ensures MarginOf(id, MarginsOf(known, u)) <= ClassSize(id, CellAt(known, u, a))
  {
  }

  /** Main result: each guaranteed margin is the attained minimum of its class over all completions. */
  lemma MarginIsAttainedMinimum(id: ClassId, cases: seq<Case>)
    requires forall c :: c in cases ==> !c.Fatal?
    ensures var margin := MarginOf(id, MarginsOf(KnownOf(cases), UnknownsOf(cases)));
      && (exists t :: Realizable(cases, t) && ClassSize(id, t) == margin)
      && (forall t :: Realizable(cases, t) ==> margin <= ClassSize(id, t))
  {
    var known, u := KnownOf(cases), UnknownsOf(cases);
    EmptiestMeetsMargin(id, known, u);
    var least := CellAt(known, u, Emptiest(id, u));
    assert Gives(cases, |cases|, Emptiest(id, u), least);
    AssignableIffRealizable(cases, least);
    forall t | Realizable(cases, t)
      ensures MarginOf(id, MarginsOf(known, u)) <= ClassSize(id, t)
    {
      AssignableIffRealizable(cases, t);
      var a :| Gives(cases, |cases|, a, t);
      MarginIsFloor(id, known, u, a);
    }
  }

  /** The class whose size is a rate's denominator; accuracy counts every case. */
  function DenominatorClass(id: RateId): Option<ClassId> {
    match id
    case Sensitivity => Some(ReferencePresent)
    case FalseNegativeRate => Some(ReferencePresent)
    case Specificity => Some(ReferenceAbsent)
    case FalsePositiveRate => Some(ReferenceAbsent)
    case Precision => Some(PredictedDetected)
    case NegativePredictiveValue => Some(PredictedNotDetected)
    case Accuracy => None
  }

  /** Main result: a denominator can be empty exactly when its class's margin is zero, and accuracy's never. */
  lemma EmptyDenominatorIffNoMargin(plannedCases: int, cases: seq<Case>, wilson: Wilson, id: RateId)
    requires Analyze(plannedCases, cases, wilson).Ok?
    ensures id in Analyze(plannedCases, cases, wilson).value.rates
    ensures var a := Analyze(plannedCases, cases, wilson).value;
      a.rates[id].envelope.denominatorCanBeEmpty <==>
        DenominatorClass(id).Some? && MarginOf(DenominatorClass(id).value, a.margins) == 0
  {
    AnalyzedCases(plannedCases, cases, wilson);
    EnvelopesAreExact(plannedCases, cases, wilson, id);
    if DenominatorClass(id).Some? {
      UndefinedIffEmptyClass(cases, id, DenominatorClass(id).value);
    } else {
      AccuracyIsDefined(cases, id);
    }
  }

  /** A rate over a class is undefined on some completion exactly when nobody is guaranteed to be in the class. */
  lemma UndefinedIffEmptyClass(cases: seq<Case>, id: RateId, of: ClassId)
    requires (forall c :: c in cases ==> !c.Fatal?) && DenominatorClass(id) == Some(of)
    ensures (exists t :: Realizable(cases, t) && !Defined(id, t)) <==>
      MarginOf(of, MarginsOf(KnownOf(cases), UnknownsOf(cases))) == 0
  {
    MarginIsAttainedMinimum(of, cases);
    assert forall t :: Defined(id, t) <==> ClassSize(of, t) > 0;
  }

  lemma AccuracyIsDefined(cases: seq<Case>, id: RateId)
    requires |cases| > 0 && DenominatorClass(id).None?
    ensures forall t :: Realizable(cases, t) ==> Defined(id, t)
  {
    forall t | Realizable(cases, t)
      ensures Defined(id, t)
    {
      CompletionsCountEveryCase(cases, t);
    }
  }

  lemma CompletionsCountEveryCase(cases: seq<Case>, t: Cells)
    requires Realizable(cases, t)
    ensures Total(t) == |cases|
  {
    var verdicts :| IsCompletion(cases, verdicts) && TableOf(verdicts) == t;
    TableCounts(verdicts, |verdicts|);
  }

  lemma {:induction false} TableCounts(verdicts: seq<Verdict>, n: nat)
    requires n <= |verdicts|
    ensures Total(TableUpTo(verdicts, n)) == n
  {
    if n > 0 { TableCounts(verdicts, n - 1); }
  }

  // ---- Policy B lies inside policy C ----

  /** Undecided cases all fall against the rate, or outside it. */
  function Pessimist(id: RateId, u: Unknowns): Assignment {
    match id
    case Sensitivity => Assignment(0, 0, 0, 0, 0, u.both, 0)
    case Specificity => Assignment(u.refDetected, u.refNotDetected, 0, u.predAbsent, u.both, 0, 0)
    case Precision => Assignment(0, 0, 0, u.predAbsent, 0, u.both, 0)
    case NegativePredictiveValue => Assignment(0, u.refNotDetected, 0, u.predAbsent, 0, 0, u.both)
    case Accuracy => Assignment(0, u.refNotDetected, 0, u.predAbsent, 0, u.both, 0)
    case FalsePositiveRate => Assignment(u.refDetected, u.refNotDetected, 0, 0, u.both, 0, 0)
    case FalseNegativeRate => Assignment(0, 0, u.predPresent, 0, 0, u.both, 0)
  }

  /** Undecided cases all fall for the rate, or outside it. */
  function Optimist(id: RateId, u: Unknowns): Assignment {
    match id
    case Sensitivity => Pessimist(FalseNegativeRate, u)
    case Specificity => Pessimist(FalsePositiveRate, u)
    case Precision => Assignment(u.refDetected, 0, u.predPresent, 0, u.both, 0, 0)
    case NegativePredictiveValue => Assignment(0, 0, u.predPresent, 0, u.both, 0, 0)
    case Accuracy => Assignment(u.refDetected, 0, u.predPresent, 0, u.both, 0, 0)
    case FalsePositiveRate => Pessimist(Specificity, u)
    case FalseNegativeRate => Pessimist(Sensitivity, u)
  }

  lemma Bracketed(id: RateId, known: Cells, u: Unknowns)
    requires Defined(id, known)
    ensures InBounds(u, Pessimist(id, u)) && InBounds(u, Optimist(id, u))
    ensures Worse(RateCells(id, CellAt(known, u, Pessimist(id, u))), RateCells(id, known))
    ensures Worse(RateCells(id, known), RateCells(id, CellAt(known, u, Optimist(id, u))))
  {
    match id
    case Sensitivity =>
    case Specificity =>
    case Precision =>
    case NegativePredictiveValue =>
    case Accuracy =>
    case FalsePositiveRate =>
    case FalseNegativeRate =>
  }

  /** Fewer hits over as many misses, or as many hits over more misses. */
  predicate Worse(f: Fraction, g: Fraction) {
    f.numerator <= f.denominator && g.numerator <= g.denominator &&
    f.numerator <= g.numerator && g.denominator - g.numerator <= f.denominator - f.numerator &&
    f.denominator > 0 && g.denominator > 0
  }

  lemma TimesPositive(x: real, y: real, z: real)
    requires y < x && 0.0 < z
    ensures y * z < x * z
  {
  }

  lemma QuotientOrder(a: real, b: real, c: real, d: real)
    requires 0.0 < b && 0.0 < d && a * d <= c * b
    ensures a / b <= c / d
  {
    var x, y := a / b, c / d;
    assert x * (b * d) == a * d;
    assert y * (b * d) == c * b;
    if y < x { TimesPositive(x, y, b * d); }
  }

  lemma RatioOrder(a: real, b: real, c: real, d: real)
    requires 0.0 <= a <= c && 0.0 <= d <= b && 0.0 < a + b && 0.0 < c + d
    ensures a / (a + b) <= c / (c + d)
  {
    assert a * d <= c * d;
    assert c * d <= c * b;
    assert a * (c + d) == a * c + a * d;
    assert c * (a + b) == a * c + c * b;
    QuotientOrder(a, a + b, c, c + d);
  }

  lemma WorseIsLower(f: Fraction, g: Fraction)
    requires Worse(f, g)
    ensures Estimate(f) <= Estimate(g)
  {
    RatioOrder(f.numerator as real, (f.denominator - f.numerator) as real,
               g.numerator as real, (g.denominator - g.numerator) as real);
  }

  /** Some completion does no better than the scored cases alone, and some does no worse. */
  lemma CompleteCaseBracketed(cases: seq<Case>, id: RateId) returns (low: Cells, high: Cells)
    requires (forall c :: c in cases ==> !c.Fatal?) && Defined(id, KnownOf(cases))
    ensures Realizable(cases, low) && Defined(id, low) && Realizable(cases, high) && Defined(id, high)
    ensures Estimate(RateCells(id, low)) <= Estimate(RateCells(id, KnownOf(cases))) <= Estimate(RateCells(id, high))
  {
    var known, u := KnownOf(cases), UnknownsOf(cases);
    Bracketed(id, known, u);
    low, high := CellAt(known, u, Pessimist(id, u)), CellAt(known, u, Optimist(id, u));
    assert Gives(cases, |cases|, Pessimist(id, u), low) && Gives(cases, |cases|, Optimist(id, u), high);
    AssignableIffRealizable(cases, low);
    AssignableIffRealizable(cases, high);
    WorseIsLower(RateCells(id, low), RateCells(id, known));
    WorseIsLower(RateCells(id, known), RateCells(id, high));
  }

  lemma CompleteCaseReported(plannedCases: int, cases: seq<Case>, wilson: Wilson, id: RateId)
    requires Analyze(plannedCases, cases, wilson).Ok?
    ensures id in Analyze(plannedCases, cases, wilson).value.completeCase
    ensures Analyze(plannedCases, cases, wilson).value.completeCase[id].estimate ==
      if Defined(id, KnownOf(cases)) then Some(Estimate(RateCells(id, KnownOf(cases)))) else None
  {
    EveryRateListed(id);
  }

  /** Main result: whenever the complete-case estimate exists, policy C's envelope contains it. */
  lemma CompleteCaseInsideEnvelope(plannedCases: int, cases: seq<Case>, wilson: Wilson, id: RateId)
    requires Analyze(plannedCases, cases, wilson).Ok?
    ensures var a := Analyze(plannedCases, cases, wilson).value;
      && id in a.rates && id in a.completeCase
      && (a.completeCase[id].estimate.Some? ==>
          && a.rates[id].envelope.estimateMin.Some? && a.rates[id].envelope.estimateMax.Some?
          && a.rates[id].envelope.estimateMin.value <= a.completeCase[id].estimate.value
          && a.completeCase[id].estimate.value <= a.rates[id].envelope.estimateMax.value)
  {
    EnvelopesAreExact(plannedCases, cases, wilson, id);
    CompleteCaseReported(plannedCases, cases, wilson, id);
    AnalyzedCases(plannedCases, cases, wilson);
    if Defined(id, KnownOf(cases)) {
      var low, high := CompleteCaseBracketed(cases, id);
    }
  }
}
