/** The seven rates, and the running envelope one rate keeps over the tables it has considered. */
module CensoringRates {
  import opened Wrappers
  import opened CensoringModel

  datatype RateId =
    | Sensitivity | Specificity | Precision | NegativePredictiveValue
    | Accuracy | FalsePositiveRate | FalseNegativeRate

  const RATE_IDS := [Sensitivity, Specificity, Precision, NegativePredictiveValue,
                     Accuracy, FalsePositiveRate, FalseNegativeRate]

  datatype Fraction = Fraction(numerator: nat, denominator: nat)

  /** `censoringRateCells`. */
  function RateCells(id: RateId, c: Cells): Fraction {
    match id
    case Sensitivity => Fraction(c.tp, c.tp + c.fn)
    case Specificity => Fraction(c.tn, c.tn + c.fp)
    case Precision => Fraction(c.tp, c.tp + c.fp)
    case NegativePredictiveValue => Fraction(c.tn, c.tn + c.fn)
    case Accuracy => Fraction(c.tp + c.tn, c.tp + c.fp + c.tn + c.fn)
    case FalsePositiveRate => Fraction(c.fp, c.fp + c.tn)
    case FalseNegativeRate => Fraction(c.fn, c.fn + c.tp)
  }

  datatype Interval = Interval(lower: real, upper: real)

  /** `wilson95`, of which nothing is assumed. */
  type Wilson = (nat, nat) -> Interval

  function Estimate(f: Fraction): real
    requires f.denominator > 0
  {
    f.numerator as real / f.denominator as real
  }

  datatype Envelope = Envelope(
    estimateMin: Option<real>, estimateMax: Option<real>,
    intervalLower: Option<real>, intervalUpper: Option<real>,
    denominatorCanBeEmpty: bool)

  const NOTHING_SEEN := Envelope(None, None, None, None, false)

  function Lesser(seen: Option<real>, x: real): Option<real> {
    if seen.None? || x < seen.value then Some(x) else seen
  }

  function Greater(seen: Option<real>, x: real): Option<real> {
    if seen.None? || seen.value < x then Some(x) else seen
  }

  /** `consider`, for one rate. */
  function Considered(e: Envelope, id: RateId, c: Cells, wilson: Wilson): Envelope {
    var f := RateCells(id, c);
    if f.denominator == 0 then e.(denominatorCanBeEmpty := true)
    else
      var interval := wilson(f.numerator, f.denominator);
      e.(estimateMin := Lesser(e.estimateMin, Estimate(f)),
         estimateMax := Greater(e.estimateMax, Estimate(f)),
         intervalLower := Lesser(e.intervalLower, interval.lower),
         intervalUpper := Greater(e.intervalUpper, interval.upper))
  }

  function EnvelopeOf(id: RateId, tables: seq<Cells>, n: nat, wilson: Wilson): Envelope
    requires n <= |tables|
  {
    if n == 0 then NOTHING_SEEN else Considered(EnvelopeOf(id, tables, n - 1, wilson), id, tables[n - 1], wilson)
  }

  lemma {:induction false} EnvelopePrefix(id: RateId, shorter: seq<Cells>, longer: seq<Cells>, n: nat, wilson: Wilson)
    requires n <= |shorter| && shorter <= longer
    ensures EnvelopeOf(id, shorter, n, wilson) == EnvelopeOf(id, longer, n, wilson)
  {
    if n > 0 { EnvelopePrefix(id, shorter, longer, n - 1, wilson); }
  }

  // ---- An envelope is exact ----

  predicate Defined(id: RateId, c: Cells) {
    RateCells(id, c).denominator > 0
  }

  ghost predicate IsLeast(m: Option<real>, id: RateId, tables: seq<Cells>, n: nat, f: Fraction -> real)
    requires n <= |tables|
  {
    && (m.None? <==> forall i :: 0 <= i < n ==> !Defined(id, tables[i]))
    && (m.Some? ==>
        && (exists i :: 0 <= i < n && Defined(id, tables[i]) && f(RateCells(id, tables[i])) == m.value)
        && (forall i :: 0 <= i < n && Defined(id, tables[i]) ==> m.value <= f(RateCells(id, tables[i]))))
  }

  ghost predicate IsGreatest(m: Option<real>, id: RateId, tables: seq<Cells>, n: nat, f: Fraction -> real)
    requires n <= |tables|
  {
    && (m.None? <==> forall i :: 0 <= i < n ==> !Defined(id, tables[i]))
    && (m.Some? ==>
        && (exists i :: 0 <= i < n && Defined(id, tables[i]) && f(RateCells(id, tables[i])) == m.value)
        && (forall i :: 0 <= i < n && Defined(id, tables[i]) ==> f(RateCells(id, tables[i])) <= m.value))
  }

  function EstimateOrZero(f: Fraction): real { if f.denominator > 0 then Estimate(f) else 0.0 }

  function Lower(wilson: Wilson): Fraction -> real { (f: Fraction) => wilson(f.numerator, f.denominator).lower }

  function Upper(wilson: Wilson): Fraction -> real { (f: Fraction) => wilson(f.numerator, f.denominator).upper }

  lemma LeastStep(m: Option<real>, id: RateId, tables: seq<Cells>, n: nat, f: Fraction -> real)
    requires 0 < n <= |tables| && IsLeast(m, id, tables, n - 1, f)
    ensures IsLeast(if Defined(id, tables[n - 1]) then Lesser(m, f(RateCells(id, tables[n - 1]))) else m, id, tables, n, f)
  {
    if m.Some? {
      var i :| 0 <= i < n - 1 && Defined(id, tables[i]) && f(RateCells(id, tables[i])) == m.value;
      assert 0 <= i < n && Defined(id, tables[i]);
    }
  }

  lemma GreatestStep(m: Option<real>, id: RateId, tables: seq<Cells>, n: nat, f: Fraction -> real)
    requires 0 < n <= |tables| && IsGreatest(m, id, tables, n - 1, f)
    ensures IsGreatest(if Defined(id, tables[n - 1]) then Greater(m, f(RateCells(id, tables[n - 1]))) else m, id, tables, n, f)
  {
    if m.Some? {
      var i :| 0 <= i < n - 1 && Defined(id, tables[i]) && f(RateCells(id, tables[i])) == m.value;
      assert 0 <= i < n && Defined(id, tables[i]);
    }
  }

  lemma {:induction false} EstimateMinExact(id: RateId, tables: seq<Cells>, n: nat, wilson: Wilson)
    requires n <= |tables|
    ensures IsLeast(EnvelopeOf(id, tables, n, wilson).estimateMin, id, tables, n, EstimateOrZero)
  {
    if n > 0 {
      EstimateMinExact(id, tables, n - 1, wilson);
      LeastStep(EnvelopeOf(id, tables, n - 1, wilson).estimateMin, id, tables, n, EstimateOrZero);
    }
  }

  lemma {:induction false} EstimateMaxExact(id: RateId, tables: seq<Cells>, n: nat, wilson: Wilson)
    requires n <= |tables|
    ensures IsGreatest(EnvelopeOf(id, tables, n, wilson).estimateMax, id, tables, n, EstimateOrZero)
  {
    if n > 0 {
      EstimateMaxExact(id, tables, n - 1, wilson);
      GreatestStep(EnvelopeOf(id, tables, n - 1, wilson).estimateMax, id, tables, n, EstimateOrZero);
    }
  }

  lemma {:induction false} LowerExact(id: RateId, tables: seq<Cells>, n: nat, wilson: Wilson)
    requires n <= |tables|
    ensures IsLeast(EnvelopeOf(id, tables, n, wilson).intervalLower, id, tables, n, Lower(wilson))
  {
    if n > 0 {
      LowerExact(id, tables, n - 1, wilson);
      LeastStep(EnvelopeOf(id, tables, n - 1, wilson).intervalLower, id, tables, n, Lower(wilson));
    }
  }

  lemma {:induction false} UpperExact(id: RateId, tables: seq<Cells>, n: nat, wilson: Wilson)
    requires n <= |tables|
    ensures IsGreatest(EnvelopeOf(id, tables, n, wilson).intervalUpper, id, tables, n, Upper(wilson))
  {
    if n > 0 {
      UpperExact(id, tables, n - 1, wilson);
      GreatestStep(EnvelopeOf(id, tables, n - 1, wilson).intervalUpper, id, tables, n, Upper(wilson));
    }
  }

  lemma {:induction false} EmptinessExact(id: RateId, tables: seq<Cells>, n: nat, wilson: Wilson)
    requires n <= |tables|
    ensures EnvelopeOf(id, tables, n, wilson).denominatorCanBeEmpty <==> exists i :: 0 <= i < n && !Defined(id, tables[i])
  {
    if n > 0 { EmptinessExact(id, tables, n - 1, wilson); }
  }

  /** Main result: every recorded extremum is attained by some table and exceeded by none. */
  lemma EnvelopeIsExact(id: RateId, tables: seq<Cells>, wilson: Wilson)
    ensures var e := EnvelopeOf(id, tables, |tables|, wilson);
      && (e.denominatorCanBeEmpty <==> exists i :: 0 <= i < |tables| && !Defined(id, tables[i]))
      && IsLeast(e.estimateMin, id, tables, |tables|, EstimateOrZero)
      && IsGreatest(e.estimateMax, id, tables, |tables|, EstimateOrZero)
      && IsLeast(e.intervalLower, id, tables, |tables|, Lower(wilson))
      && IsGreatest(e.intervalUpper, id, tables, |tables|, Upper(wilson))
  {
    EmptinessExact(id, tables, |tables|, wilson);
    EstimateMinExact(id, tables, |tables|, wilson);
    EstimateMaxExact(id, tables, |tables|, wilson);
    LowerExact(id, tables, |tables|, wilson);
    UpperExact(id, tables, |tables|, wilson);
  }
}
