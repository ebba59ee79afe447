/**
 The policy-C and policy-B analysis of a calibration study, and the publication gate that reads it.
 */
module CensoringAnalysis {
  import opened Wrappers
  import opened CensoringModel
  import opened CensoringEnumeration
  import opened CensoringRates

  const MAX_ENVELOPE_ASSIGNMENTS := 2_000_000

  const MAX_SAFE_INTEGER := 9_007_199_254_740_991

  /** What every plain JavaScript object inherits, and so already "has" before any loss is recorded. */
  const INHERITED_NAMES: set<string> := {
    "constructor", "toString", "toLocaleString", "valueOf", "hasOwnProperty", "isPrototypeOf",
    "propertyIsEnumerable", "__proto__", "__defineGetter__", "__defineSetter__", "__lookupGetter__", "__lookupSetter__"
  }

  datatype Refusal =
    | PlannedCountInvalid
    | NotConserved
    | MissingId(at: nat)
    | DuplicateCase(id: string)
    | FatalCase(id: string)
    | TooManyAssignments(count: nat)
    | LossReasonsNotConserved

  datatype RateEnvelope = RateEnvelope(envelope: Envelope, halfWidth: Option<real>)

  datatype Margins = Margins(referencePresent: nat, referenceAbsent: nat, predictedDetected: nat, predictedNotDetected: nat)

  datatype CompleteCaseRate = CompleteCaseRate(cells: Fraction, estimate: Option<real>, interval: Option<Interval>)

  datatype Analysis = Analysis(
    plannedCases: nat, scored: nat, known: Cells, unknowns: Unknowns, assignmentsEnumerated: nat,
    rates: map<RateId, RateEnvelope>, margins: Margins,
    lossReasons: seq<(string, nat)>, completeCase: map<RateId, CompleteCaseRate>)

  // ---- Accounting for the cases ----

  function IdsOf(cases: seq<Case>, n: nat): set<string>
    requires n <= |cases|
  {
    set i | 0 <= i < n :: cases[i].id
  }

  /** The first case that refuses the analysis, in the order the loop checks. */
  function Defect(cases: seq<Case>, i: nat): Option<Refusal>
    requires i <= |cases|
    decreases |cases| - i
  {
    if i == |cases| then None
    else if cases[i].id == "" then Some(MissingId(i))
    else if cases[i].id in IdsOf(cases, i) then Some(DuplicateCase(cases[i].id))
    else if cases[i].Fatal? then Some(FatalCase(cases[i].id))
    else Defect(cases, i + 1)
  }

  method FindDefect(cases: seq<Case>) returns (defect: Option<Refusal>)
    ensures defect == Defect(cases, 0)
  {
    var seen: set<string> := {};
    var i := 0;
    while i < |cases|
      invariant 0 <= i <= |cases|
      invariant seen == IdsOf(cases, i)
      invariant Defect(cases, 0) == Defect(cases, i)
    {
      if cases[i].id == "" { return Some(MissingId(i)); }
      if cases[i].id in seen { return Some(DuplicateCase(cases[i].id)); }
      seen := seen + {cases[i].id};
      if cases[i].Fatal? { return Some(FatalCase(cases[i].id)); }
      i := i + 1;
    }
    defect := None;
  }

  // ---- Loss reasons ----

  /** `counts` are the record's numeric own properties; `textual` says some property became text. */
  datatype LossRecord = LossRecord(counts: seq<(string, nat)>, textual: bool)

  const NO_LOSSES := LossRecord([], false)

  function ReasonOf(c: Case): Option<string> {
    if c.ReferenceUnknown? || c.PredictionUnknown? || c.BothUnknown? then
      Some(if c.reason.None? || c.reason.value == "" then "unrecorded" else c.reason.value)
    else None
  }

  function Bumped(counts: seq<(string, nat)>, key: string): seq<(string, nat)> {
    if counts == [] then [(key, 1)]
    else if counts[0].0 == key then [(key, counts[0].1 + 1)] + counts[1..]
    else [counts[0]] + Bumped(counts[1..], key)
  }

  /** `record[key] = (record[key] ?? 0) + 1` on a plain object. */
  function LossRecorded(r: LossRecord, key: string): LossRecord {
    if key == "__proto__" then r
    else if key in INHERITED_NAMES then r.(textual := true)
    else r.(counts := Bumped(r.counts, key))
  }

  function AfterCase(r: LossRecord, reason: Option<string>): LossRecord {
    match reason
    case None => r
    case Some(key) => LossRecorded(r, key)
  }

  function LossesUpTo(cases: seq<Case>, n: nat): LossRecord
    requires n <= |cases|
  {
    if n == 0 then NO_LOSSES else AfterCase(LossesUpTo(cases, n - 1), ReasonOf(cases[n - 1]))
  }

  function SumOfCounts(counts: seq<(string, nat)>): nat {
    if counts == [] then 0 else counts[0].1 + SumOfCounts(counts[1..])
  }

  predicate Conserved(r: LossRecord, total: nat) {
    !r.textual && SumOfCounts(r.counts) == total
  }

  predicate NamesInherited(cases: seq<Case>, n: nat)
    requires n <= |cases|
  {
    exists i :: 0 <= i < n && ReasonOf(cases[i]).Some? && ReasonOf(cases[i]).value in INHERITED_NAMES
  }

  lemma {:induction false} BumpedSum(counts: seq<(string, nat)>, key: string)
    ensures SumOfCounts(Bumped(counts, key)) == SumOfCounts(counts) + 1
  {
    if counts == [] {
    } else if counts[0].0 == key {
      assert ([(key, counts[0].1 + 1)] + counts[1..])[1..] == counts[1..];
    } else {
      BumpedSum(counts[1..], key);
      assert ([counts[0]] + Bumped(counts[1..], key))[1..] == Bumped(counts[1..], key);
    }
  }

  lemma OneMoreNamed(cases: seq<Case>, n: nat)
    requires 0 < n <= |cases|
    ensures var key := ReasonOf(cases[n - 1]);
      NamesInherited(cases, n) <==> NamesInherited(cases, n - 1) || (key.Some? && key.value in INHERITED_NAMES)
  {
  }

  /** Main result: the conservation check on loss reasons fires exactly for a reason named like an inherited property. */
  lemma {:induction false} LossesConservedIff(cases: seq<Case>, n: nat)
    requires n <= |cases|
    ensures SumOfCounts(LossesUpTo(cases, n).counts) <= TotalUnknown(UnknownsUpTo(cases, n))
    ensures Conserved(LossesUpTo(cases, n), TotalUnknown(UnknownsUpTo(cases, n))) <==> !NamesInherited(cases, n)
  {
    if n > 0 {
      LossesConservedIff(cases, n - 1);
      var before, key := LossesUpTo(cases, n - 1), ReasonOf(cases[n - 1]);
      OneMoreLoss(UnknownsUpTo(cases, n - 1), cases[n - 1]);
      OneMoreNamed(cases, n);
      if key.Some? { LossStep(before, key.value, TotalUnknown(UnknownsUpTo(cases, n - 1))); }
    }
  }

  lemma LossStep(before: LossRecord, key: string, total: nat)
    requires SumOfCounts(before.counts) <= total
    ensures SumOfCounts(LossRecorded(before, key).counts) <= total + 1
    ensures Conserved(LossRecorded(before, key), total + 1) <==> Conserved(before, total) && key !in INHERITED_NAMES
  {
    BumpedSum(before.counts, key);
  }

  lemma OneMoreLoss(u: Unknowns, c: Case)
    ensures TotalUnknown(UnknownsWith(u, c)) == TotalUnknown(u) + if ReasonOf(c).Some? then 1 else 0
  {
  }

  function CountFor(counts: seq<(string, nat)>, key: string): nat {
    if counts == [] then 0 else (if counts[0].0 == key then counts[0].1 else 0) + CountFor(counts[1..], key)
  }

  function CasesWithReason(cases: seq<Case>, n: nat, key: string): nat
    requires n <= |cases|
  {
    if n == 0 then 0
    else CasesWithReason(cases, n - 1, key) + if ReasonOf(cases[n - 1]) == Some(key) then 1 else 0
  }

  ghost predicate DistinctReasons(counts: seq<(string, nat)>) {
    forall i, j :: 0 <= i < j < |counts| ==> counts[i].0 != counts[j].0
  }

  lemma {:induction false} BumpedCount(counts: seq<(string, nat)>, key: string, other: string)
    requires DistinctReasons(counts)
    ensures CountFor(Bumped(counts, key), other) == CountFor(counts, other) + if key == other then 1 else 0
    ensures DistinctReasons(Bumped(counts, key))
    ensures forall p :: p in Bumped(counts, key) ==> p.0 == key || exists q :: q in counts && q.0 == p.0
  {
    if counts == [] {
      assert [(key, 1)][1..] == [];
    } else if counts[0].0 == key {
      assert ([(key, counts[0].1 + 1)] + counts[1..])[1..] == counts[1..];
      forall p | p in Bumped(counts, key)
        ensures p.0 == key || exists q :: q in counts && q.0 == p.0
      {
        if p in counts[1..] { assert p in counts; }
      }
    } else {
      BumpedCount(counts[1..], key, other);
      var rest := Bumped(counts[1..], key);
      assert ([counts[0]] + rest)[1..] == rest;
      forall p | p in rest
        ensures p.0 != counts[0].0 && (p.0 == key || exists q :: q in counts && q.0 == p.0)
      {
        if p.0 != key {
          var q :| q in counts[1..] && q.0 == p.0;
          assert q in counts;
        }
      }
      assert forall j :: 0 < j < |[counts[0]] + rest| ==> ([counts[0]] + rest)[j] in rest;
    }
  }

  /** The recorded count of every ordinary reason is the number of unknown cases that gave it. */
  lemma CountedLoss(r: LossRecord, reason: Option<string>, key: string)
    requires key !in INHERITED_NAMES && DistinctReasons(r.counts)
    ensures CountFor(AfterCase(r, reason).counts, key) == CountFor(r.counts, key) + if reason == Some(key) then 1 else 0
    ensures DistinctReasons(AfterCase(r, reason).counts)
  {
    if reason.Some? {
      BumpedCount(r.counts, reason.value, key);
    }
  }

  lemma {:induction false} LossCounts(cases: seq<Case>, n: nat, key: string)
    requires n <= |cases| && key !in INHERITED_NAMES
    ensures CountFor(LossesUpTo(cases, n).counts, key) == CasesWithReason(cases, n, key)
    ensures DistinctReasons(LossesUpTo(cases, n).counts)
  {
    if n > 0 {
      LossCounts(cases, n - 1, key);
      CountedLoss(LossesUpTo(cases, n - 1), ReasonOf(cases[n - 1]), key);
    }
  }

  method RecordLoss(r: LossRecord, key: string) returns (s: LossRecord)
    ensures s == LossRecorded(r, key)
  {
    if key == "__proto__" { return r; }
    if key in INHERITED_NAMES { return r.(textual := true); }
    s := r.(counts := Bumped(r.counts, key));
  }

  method Tally(cases: seq<Case>) returns (known: Cells, u: Unknowns, losses: LossRecord)
    ensures known == KnownOf(cases) && u == UnknownsOf(cases) && losses == LossesUpTo(cases, |cases|)
  {
    var tp, fp, tn, fn := 0, 0, 0, 0;
    var refUnknownDetected, refUnknownNotDetected, predUnknownPresent, predUnknownAbsent, bothUnknown := 0, 0, 0, 0, 0;
    losses := NO_LOSSES;
    var i := 0;
    while i < |cases|
      invariant 0 <= i <= |cases|
      invariant tp >= 0 && fp >= 0 && tn >= 0 && fn >= 0
      invariant Cells(tp, fp, tn, fn) == KnownUpTo(cases, i)
      invariant Unknowns(refUnknownDetected, refUnknownNotDetected, predUnknownPresent, predUnknownAbsent, bothUnknown) ==
        UnknownsUpTo(cases, i)
      invariant losses == LossesUpTo(cases, i)
    {
      match cases[i] {
      case Scored(_, Present, Detected) => tp := tp + 1;
      case Scored(_, Present, NotDetected) => fn := fn + 1;
      case Scored(_, Absent, Detected) => fp := fp + 1;
      case Scored(_, Absent, NotDetected) => tn := tn + 1;
      case ReferenceUnknown(_, Detected, _) => refUnknownDetected := refUnknownDetected + 1;
      case ReferenceUnknown(_, NotDetected, _) => refUnknownNotDetected := refUnknownNotDetected + 1;
      case PredictionUnknown(_, Present, _) => predUnknownPresent := predUnknownPresent + 1;
      case PredictionUnknown(_, Absent, _) => predUnknownAbsent := predUnknownAbsent + 1;
      case BothUnknown(_, _) => bothUnknown := bothUnknown + 1;
      case Fatal(_, _) =>
      }
      var reason := ReasonOf(cases[i]);
      if reason.Some? {
        losses := RecordLoss(losses, reason.value);
      }
      i := i + 1;
    }
    known := Cells(tp, fp, tn, fn);
    u := Unknowns(refUnknownDetected, refUnknownNotDetected, predUnknownPresent, predUnknownAbsent, bothUnknown);
  }

  // ---- The enumeration ----

  function EnvelopesOf(tables: seq<Cells>, wilson: Wilson): map<RateId, Envelope> {
    map id | id in RATE_IDS :: EnvelopeOf(id, tables, |tables|, wilson)
  }

  lemma EnvelopesSnoc(tables: seq<Cells>, c: Cells, wilson: Wilson)
    ensures EnvelopesOf(tables + [c], wilson) ==
      map id | id in RATE_IDS :: Considered(EnvelopesOf(tables, wilson)[id], id, c, wilson)
  {
    forall id | id in RATE_IDS
      ensures EnvelopesOf(tables + [c], wilson)[id] == Considered(EnvelopesOf(tables, wilson)[id], id, c, wilson)
    {
      EnvelopePrefix(id, tables, tables + [c], |tables|, wilson);
    }
  }

  method ConsiderRate(e: Envelope, id: RateId, c: Cells, wilson: Wilson) returns (next: Envelope)
    ensures next == Considered(e, id, c, wilson)
  {
    var f := RateCells(id, c);
    if f.denominator == 0 {
      return e.(denominatorCanBeEmpty := true);
    }
    var estimate := Estimate(f);
    var interval := wilson(f.numerator, f.denominator);
    next := e.(
      estimateMin := Lesser(e.estimateMin, estimate),
      estimateMax := Greater(e.estimateMax, estimate),
      intervalLower := Lesser(e.intervalLower, interval.lower),
      intervalUpper := Greater(e.intervalUpper, interval.upper));
  }

  /** `consider`: every rate's accumulator sees the table. */
  method Consider(accumulators: map<RateId, Envelope>, c: Cells, wilson: Wilson, ghost tables: seq<Cells>)
    returns (next: map<RateId, Envelope>)
    requires accumulators == EnvelopesOf(tables, wilson)
    ensures next == EnvelopesOf(tables + [c], wilson)
  {
    next := accumulators;
    for i := 0 to |RATE_IDS|
      invariant ConsideredUpTo(accumulators, next, i, c, wilson)
    {
      var considered := ConsiderRate(next[RATE_IDS[i]], RATE_IDS[i], c, wilson);
      next := next[RATE_IDS[i] := considered];
    }
    AllConsidered(tables, accumulators, next, c, wilson);
  }

  ghost predicate ConsideredUpTo(before: map<RateId, Envelope>, next: map<RateId, Envelope>, n: nat, c: Cells, wilson: Wilson)
    requires n <= |RATE_IDS|
  {
    && before.Keys == next.Keys == (set id | id in RATE_IDS)
    && (forall j :: 0 <= j < n ==> next[RATE_IDS[j]] == Considered(before[RATE_IDS[j]], RATE_IDS[j], c, wilson))
    && (forall j :: n <= j < |RATE_IDS| ==> next[RATE_IDS[j]] == before[RATE_IDS[j]])
  }

  lemma AllConsidered(tables: seq<Cells>, before: map<RateId, Envelope>, next: map<RateId, Envelope>, c: Cells, wilson: Wilson)
    requires before == EnvelopesOf(tables, wilson) && ConsideredUpTo(before, next, |RATE_IDS|, c, wilson)
    ensures next == EnvelopesOf(tables + [c], wilson)
  {
    EnvelopesSnoc(tables, c, wilson);
    assert next == map id | id in RATE_IDS :: Considered(EnvelopesOf(tables, wilson)[id], id, c, wilson);
  }

  // The seven nested loops, two to a method and the innermost on its own.

  /** One more iteration of the loop after `p`. */
  lemma Iterated(known: Cells, u: Unknowns, p: seq<nat>, n: nat, before: seq<Cells>)
    requires Prefix(u, p) && |p| < 7 && n < Width(u, p)
    ensures Prefix(u, p + [n])
    ensures before + Level(known, u, p, n) + Body(known, u, p + [n]) == before + Level(known, u, p, n + 1)
  {
    Extends(u, p, n);
  }

  /** `for b3` and the table of its body. */
  method LoopB3(known: Cells, u: Unknowns, p: seq<nat>, start: map<RateId, Envelope>, wilson: Wilson, ghost before: seq<Cells>)
    returns (accumulators: map<RateId, Envelope>)
    requires |p| == 6 && Prefix(u, p) && start == EnvelopesOf(before, wilson)
    ensures accumulators == EnvelopesOf(before + Body(known, u, p), wilson)
  {
    var x1, x2, x3, x4, b1, b2 := p[0], p[1], p[2], p[3], p[4], p[5];
    accumulators := start;
    ghost var visited := before;
    var b3 := 0;
    while b3 <= u.both - b1 - b2
      invariant 0 <= b3 <= Width(u, p)
      invariant visited == before + Level(known, u, p, b3)
      invariant accumulators == EnvelopesOf(visited, wilson)
    {
      Iterated(known, u, p, b3, before);
      PrefixIffInBounds(u, p + [b3]);
      var b4 := u.both - b1 - b2 - b3;
      var table := Cells(
        known.tp + x1 + x3 + b1,
        known.fp + (u.refDetected - x1) + x4 + b2,
        known.tn + (u.refNotDetected - x2) + (u.predAbsent - x4) + b4,
        known.fn + x2 + (u.predPresent - x3) + b3);
      assert table == TableAt(known, u, p + [b3]);
      accumulators := Consider(accumulators, table, wilson, visited);
      visited := visited + [table];
      b3 := b3 + 1;
    }
  }

  /** `for b1`, `for b2`. */
  method LoopsB1B2(known: Cells, u: Unknowns, p: seq<nat>, start: map<RateId, Envelope>, wilson: Wilson, ghost before: seq<Cells>)
    returns (accumulators: map<RateId, Envelope>)
    requires |p| == 4 && Prefix(u, p) && start == EnvelopesOf(before, wilson)
    ensures accumulators == EnvelopesOf(before + Body(known, u, p), wilson)
  {
    accumulators := start;
    ghost var visited := before;
    var b1 := 0;
    while b1 <= u.both
      invariant 0 <= b1 <= Width(u, p)
      invariant visited == before + Level(known, u, p, b1)
      invariant accumulators == EnvelopesOf(visited, wilson)
    {
      Iterated(known, u, p, b1, before);
      var p1 := p + [b1];
      ghost var before1 := visited;
      var b2 := 0;
      while b2 <= u.both - b1
        invariant 0 <= b2 <= Width(u, p1)
        invariant visited == before1 + Level(known, u, p1, b2)
        invariant accumulators == EnvelopesOf(visited, wilson)
      {
        Iterated(known, u, p1, b2, before1);
        accumulators := LoopB3(known, u, p1 + [b2], accumulators, wilson, visited);
        visited := visited + Body(known, u, p1 + [b2]);
        b2 := b2 + 1;
      }
      b1 := b1 + 1;
    }
  }

  /** `for x3`, `for x4`. */
  method LoopsX3X4(known: Cells, u: Unknowns, p: seq<nat>, start: map<RateId, Envelope>, wilson: Wilson, ghost before: seq<Cells>)
    returns (accumulators: map<RateId, Envelope>)
    requires |p| == 2 && Prefix(u, p) && start == EnvelopesOf(before, wilson)
    ensures accumulators == EnvelopesOf(before + Body(known, u, p), wilson)
  {
    accumulators := start;
    ghost var visited := before;
    var x3 := 0;
    while x3 <= u.predPresent
      invariant 0 <= x3 <= Width(u, p)
      invariant visited == before + Level(known, u, p, x3)
      invariant accumulators == EnvelopesOf(visited, wilson)
    {
      Iterated(known, u, p, x3, before);
      var p1 := p + [x3];
      ghost var before1 := visited;
      var x4 := 0;
      while x4 <= u.predAbsent
        invariant 0 <= x4 <= Width(u, p1)
        invariant visited == before1 + Level(known, u, p1, x4)
        invariant accumulators == EnvelopesOf(visited, wilson)
      {
        Iterated(known, u, p1, x4, before1);
        accumulators := LoopsB1B2(known, u, p1 + [x4], accumulators, wilson, visited);
        visited := visited + Body(known, u, p1 + [x4]);
        x4 := x4 + 1;
      }
      x3 := x3 + 1;
    }
  }

  /** `for x1`, `for x2`: the envelopes of every rate over every realizable assignment. */
  method Enumerate(known: Cells, u: Unknowns, wilson: Wilson) returns (accumulators: map<RateId, Envelope>)
    ensures accumulators == EnvelopesOf(Visited(known, u), wilson)
  {
    accumulators := map id | id in RATE_IDS :: NOTHING_SEEN;
    ghost var visited: seq<Cells> := [];
    assert accumulators == EnvelopesOf(visited, wilson);
    var x1 := 0;
    while x1 <= u.refDetected
      invariant 0 <= x1 <= Width(u, [])
      invariant visited == [] + Level(known, u, [], x1)
      invariant accumulators == EnvelopesOf(visited, wilson)
    {
      Iterated(known, u, [], x1, []);
      var p1: seq<nat> := [] + [x1];
      ghost var before1 := visited;
      var x2 := 0;
      while x2 <= u.refNotDetected
        invariant 0 <= x2 <= Width(u, p1)
        invariant visited == before1 + Level(known, u, p1, x2)
        invariant accumulators == EnvelopesOf(visited, wilson)
      {
        Iterated(known, u, p1, x2, before1);
        accumulators := LoopsX3X4(known, u, p1 + [x2], accumulators, wilson, visited);
        visited := visited + Body(known, u, p1 + [x2]);
        x2 := x2 + 1;
      }
      x1 := x1 + 1;
    }
    assert [] + Level(known, u, [], x1) == Visited(known, u);
  }
}
