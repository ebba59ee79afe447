/**
 Calibration cases, their completions, and the confusion tables completions produce: the
 semantics the censoring analysis is measured against.
 */
module CensoringModel {
  import opened Wrappers

  datatype Reference = Present | Absent

  datatype Prediction = Detected | NotDetected

  datatype Case =
    | Scored(id: string, reference: Reference, prediction: Prediction)
    | ReferenceUnknown(id: string, prediction: Prediction, reason: Option<string>)
    | PredictionUnknown(id: string, reference: Reference, reason: Option<string>)
    | BothUnknown(id: string, reason: Option<string>)
    | Fatal(id: string, violation: string)

  datatype Cells = Cells(tp: nat, fp: nat, tn: nat, fn: nat)

  datatype Unknowns = Unknowns(refDetected: nat, refNotDetected: nat, predPresent: nat, predAbsent: nat, both: nat)

  /** A case with nothing left unknown. */
  datatype Verdict = Verdict(reference: Reference, prediction: Prediction)

  // ---- The semantics ----

  predicate Completes(c: Case, v: Verdict) {
    match c
    case Scored(_, reference, prediction) => v == Verdict(reference, prediction)
    case ReferenceUnknown(_, prediction, _) => v.prediction == prediction
    case PredictionUnknown(_, reference, _) => v.reference == reference
    case BothUnknown(_, _) => true
    case Fatal(_, _) => false
  }

  /** One way every case could really have fallen. */
  predicate IsCompletion(cases: seq<Case>, verdicts: seq<Verdict>) {
    |cases| == |verdicts| && forall i :: 0 <= i < |cases| ==> Completes(cases[i], verdicts[i])
  }

  function Counted(cells: Cells, v: Verdict): Cells {
    match (v.reference, v.prediction)
    case (Present, Detected) => cells.(tp := cells.tp + 1)
    case (Present, NotDetected) => cells.(fn := cells.fn + 1)
    case (Absent, Detected) => cells.(fp := cells.fp + 1)
    case (Absent, NotDetected) => cells.(tn := cells.tn + 1)
  }

  const NO_CELLS := Cells(0, 0, 0, 0)

  function TableUpTo(verdicts: seq<Verdict>, n: nat): Cells
    requires n <= |verdicts|
  {
    if n == 0 then NO_CELLS else Counted(TableUpTo(verdicts, n - 1), verdicts[n - 1])
  }

  function TableOf(verdicts: seq<Verdict>): Cells {
    TableUpTo(verdicts, |verdicts|)
  }

  ghost predicate Realizable(cases: seq<Case>, table: Cells) {
    exists verdicts :: IsCompletion(cases, verdicts) && TableOf(verdicts) == table
  }

  // ---- What the analysis counts ----

  function KnownWith(known: Cells, c: Case): Cells {
    if c.Scored? then Counted(known, Verdict(c.reference, c.prediction)) else known
  }

  function UnknownsWith(u: Unknowns, c: Case): Unknowns {
    match c
    case ReferenceUnknown(_, Detected, _) => u.(refDetected := u.refDetected + 1)
    case ReferenceUnknown(_, NotDetected, _) => u.(refNotDetected := u.refNotDetected + 1)
    case PredictionUnknown(_, Present, _) => u.(predPresent := u.predPresent + 1)
    case PredictionUnknown(_, Absent, _) => u.(predAbsent := u.predAbsent + 1)
    case BothUnknown(_, _) => u.(both := u.both + 1)
    case _ => u
  }

  function KnownUpTo(cases: seq<Case>, n: nat): Cells
    requires n <= |cases|
  {
    if n == 0 then NO_CELLS else KnownWith(KnownUpTo(cases, n - 1), cases[n - 1])
  }

  function UnknownsUpTo(cases: seq<Case>, n: nat): Unknowns
    requires n <= |cases|
  {
    if n == 0 then Unknowns(0, 0, 0, 0, 0) else UnknownsWith(UnknownsUpTo(cases, n - 1), cases[n - 1])
  }

  function KnownOf(cases: seq<Case>): Cells {
    KnownUpTo(cases, |cases|)
  }

  function UnknownsOf(cases: seq<Case>): Unknowns {
    UnknownsUpTo(cases, |cases|)
  }

  function Total(cells: Cells): nat { cells.tp + cells.fp + cells.tn + cells.fn }

  function TotalUnknown(u: Unknowns): nat {
    u.refDetected + u.refNotDetected + u.predPresent + u.predAbsent + u.both
  }

  lemma OneMoreCounted(known: Cells, u: Unknowns, c: Case)
    requires !c.Fatal?
    ensures Total(KnownWith(known, c)) + TotalUnknown(UnknownsWith(u, c)) == Total(known) + TotalUnknown(u) + 1
  {
  }

  lemma {:induction false} CountsPartition(cases: seq<Case>, n: nat)
    requires n <= |cases| && forall c :: c in cases ==> !c.Fatal?
    ensures Total(KnownUpTo(cases, n)) + TotalUnknown(UnknownsUpTo(cases, n)) == n
  {
    if n > 0 {
      CountsPartition(cases, n - 1);
      OneMoreCounted(KnownUpTo(cases, n - 1), UnknownsUpTo(cases, n - 1), cases[n - 1]);
    }
  }

  // ---- Assignments: how many unknowns of each kind fall into each cell ----

  datatype Assignment = Assignment(x1: nat, x2: nat, x3: nat, x4: nat, b1: nat, b2: nat, b3: nat)

  predicate InBounds(u: Unknowns, a: Assignment) {
    a.x1 <= u.refDetected && a.x2 <= u.refNotDetected && a.x3 <= u.predPresent && a.x4 <= u.predAbsent &&
    a.b1 + a.b2 + a.b3 <= u.both
  }

  /** The table `consider` is given for one assignment. */
  function CellAt(known: Cells, u: Unknowns, a: Assignment): Cells
    requires InBounds(u, a)
  {
    Cells(known.tp + a.x1 + a.x3 + a.b1,
          known.fp + (u.refDetected - a.x1) + a.x4 + a.b2,
          known.tn + (u.refNotDetected - a.x2) + (u.predAbsent - a.x4) + (u.both - a.b1 - a.b2 - a.b3),
          known.fn + a.x2 + (u.predPresent - a.x3) + a.b3)
  }

  ghost predicate Assignable(cases: seq<Case>, table: Cells) {
    exists a :: Gives(cases, |cases|, a, table)
  }

  function AssignedWith(a: Assignment, c: Case, v: Verdict): Assignment {
    match (c, v)
    case (ReferenceUnknown(_, Detected, _), Verdict(Present, _)) => a.(x1 := a.x1 + 1)
    case (ReferenceUnknown(_, NotDetected, _), Verdict(Present, _)) => a.(x2 := a.x2 + 1)
    case (PredictionUnknown(_, Present, _), Verdict(_, Detected)) => a.(x3 := a.x3 + 1)
    case (PredictionUnknown(_, Absent, _), Verdict(_, Detected)) => a.(x4 := a.x4 + 1)
    case (BothUnknown(_, _), Verdict(Present, Detected)) => a.(b1 := a.b1 + 1)
    case (BothUnknown(_, _), Verdict(Absent, Detected)) => a.(b2 := a.b2 + 1)
    case (BothUnknown(_, _), Verdict(Present, NotDetected)) => a.(b3 := a.b3 + 1)
    case _ => a
  }

  /** Completing one more case moves the table and the assignment together. */
  lemma OneMoreAssigned(known: Cells, u: Unknowns, a: Assignment, c: Case, v: Verdict)
    requires InBounds(u, a) && Completes(c, v)
    ensures InBounds(UnknownsWith(u, c), AssignedWith(a, c, v))
    ensures CellAt(KnownWith(known, c), UnknownsWith(u, c), AssignedWith(a, c, v)) == Counted(CellAt(known, u, a), v)
  {
    match c
    case Scored(_, _, _) =>
    case ReferenceUnknown(_, _, _) => OneMoreReference(known, u, a, c, v);
    case PredictionUnknown(_, _, _) => OneMorePrediction(known, u, a, c, v);
    case BothUnknown(_, _) => OneMoreBoth(known, u, a, c, v);
  }

  lemma OneMoreReference(known: Cells, u: Unknowns, a: Assignment, c: Case, v: Verdict)
    requires InBounds(u, a) && Completes(c, v) && c.ReferenceUnknown?
    ensures InBounds(UnknownsWith(u, c), AssignedWith(a, c, v))
    ensures CellAt(KnownWith(known, c), UnknownsWith(u, c), AssignedWith(a, c, v)) == Counted(CellAt(known, u, a), v)
  {
  }

  lemma OneMorePrediction(known: Cells, u: Unknowns, a: Assignment, c: Case, v: Verdict)
    requires InBounds(u, a) && Completes(c, v) && c.PredictionUnknown?
    ensures InBounds(UnknownsWith(u, c), AssignedWith(a, c, v))
    ensures CellAt(KnownWith(known, c), UnknownsWith(u, c), AssignedWith(a, c, v)) == Counted(CellAt(known, u, a), v)
  {
    match (c.reference, v.prediction)
    case (Present, Detected) =>
    case (Present, NotDetected) =>
    case (Absent, Detected) =>
    case (Absent, NotDetected) =>
  }

  lemma OneMoreBoth(known: Cells, u: Unknowns, a: Assignment, c: Case, v: Verdict)
    requires InBounds(u, a) && Completes(c, v) && c.BothUnknown?
    ensures InBounds(UnknownsWith(u, c), AssignedWith(a, c, v))
    ensures CellAt(KnownWith(known, c), UnknownsWith(u, c), AssignedWith(a, c, v)) == Counted(CellAt(known, u, a), v)
  {
    match (v.reference, v.prediction)
    case (Present, Detected) =>
    case (Present, NotDetected) =>
    case (Absent, Detected) =>
    case (Absent, NotDetected) =>
  }

  predicate Gives(cases: seq<Case>, n: nat, a: Assignment, table: Cells)
    requires n <= |cases|
  {
    InBounds(UnknownsUpTo(cases, n), a) && CellAt(KnownUpTo(cases, n), UnknownsUpTo(cases, n), a) == table
  }

  lemma SomeAssignment(u: Unknowns) returns (a: Assignment)
    ensures InBounds(u, a)
  {
    a := Assignment(0, 0, 0, 0, 0, 0, 0);
  }

  lemma {:induction false} CompletionGivesAssignment(cases: seq<Case>, verdicts: seq<Verdict>, n: nat) returns (a: Assignment)
    requires IsCompletion(cases, verdicts) && n <= |cases|
    ensures Gives(cases, n, a, TableUpTo(verdicts, n))
  {
    if n == 0 {
      a := SomeAssignment(UnknownsUpTo(cases, 0));
    } else {
      var before := CompletionGivesAssignment(cases, verdicts, n - 1);
      a := AssignedWith(before, cases[n - 1], verdicts[n - 1]);
      OneMoreAssigned(KnownUpTo(cases, n - 1), UnknownsUpTo(cases, n - 1), before, cases[n - 1], verdicts[n - 1]);
    }
  }

  /** How the last case must fall for the assignment to come out. */
  function VerdictFor(c: Case, a: Assignment): Verdict {
    match c
    case Scored(_, reference, prediction) => Verdict(reference, prediction)
    case ReferenceUnknown(_, prediction, _) =>
      Verdict(if (if prediction.Detected? then a.x1 else a.x2) > 0 then Present else Absent, prediction)
    case PredictionUnknown(_, reference, _) =>
      Verdict(reference, if (if reference.Present? then a.x3 else a.x4) > 0 then Detected else NotDetected)
    case _ =>
      if a.b1 > 0 then Verdict(Present, Detected)
      else if a.b2 > 0 then Verdict(Absent, Detected)
      else if a.b3 > 0 then Verdict(Present, NotDetected)
      else Verdict(Absent, NotDetected)
  }

  function AssignmentBefore(c: Case, a: Assignment): Assignment {
    match c
    case ReferenceUnknown(_, Detected, _) => if a.x1 > 0 then a.(x1 := a.x1 - 1) else a
    case ReferenceUnknown(_, NotDetected, _) => if a.x2 > 0 then a.(x2 := a.x2 - 1) else a
    case PredictionUnknown(_, Present, _) => if a.x3 > 0 then a.(x3 := a.x3 - 1) else a
    case PredictionUnknown(_, Absent, _) => if a.x4 > 0 then a.(x4 := a.x4 - 1) else a
    case BothUnknown(_, _) =>
      if a.b1 > 0 then a.(b1 := a.b1 - 1)
      else if a.b2 > 0 then a.(b2 := a.b2 - 1)
      else if a.b3 > 0 then a.(b3 := a.b3 - 1)
      else a
    case _ => a
  }

  lemma OneFewerAssigned(known: Cells, u: Unknowns, a: Assignment, c: Case)
    requires !c.Fatal? && InBounds(UnknownsWith(u, c), a)
    ensures Completes(c, VerdictFor(c, a)) && InBounds(u, AssignmentBefore(c, a))
    ensures CellAt(KnownWith(known, c), UnknownsWith(u, c), a) ==
      Counted(CellAt(known, u, AssignmentBefore(c, a)), VerdictFor(c, a))
  {
    match c
    case Scored(_, _, _) =>
    case ReferenceUnknown(_, Detected, _) =>
    case ReferenceUnknown(_, NotDetected, _) =>
    case PredictionUnknown(_, Present, _) =>
    case PredictionUnknown(_, Absent, _) =>
    case BothUnknown(_, _) =>
  }

  lemma {:induction false} AssignmentGivesCompletion(cases: seq<Case>, n: nat, a: Assignment) returns (verdicts: seq<Verdict>)
    requires n <= |cases| && forall c :: c in cases ==> !c.Fatal?
    requires InBounds(UnknownsUpTo(cases, n), a)
    ensures |verdicts| == n && forall i :: 0 <= i < n ==> Completes(cases[i], verdicts[i])
    ensures Gives(cases, n, a, TableOf(verdicts))
  {
    if n == 0 {
      verdicts := [];
    } else {
      var last := cases[n - 1];
      OneFewerAssigned(KnownUpTo(cases, n - 1), UnknownsUpTo(cases, n - 1), a, last);
      var before := AssignmentGivesCompletion(cases, n - 1, AssignmentBefore(last, a));
      verdicts := before + [VerdictFor(last, a)];
      TablePrefix(before, verdicts, n - 1);
    }
  }

  lemma {:induction false} TablePrefix(shorter: seq<Verdict>, longer: seq<Verdict>, n: nat)
    requires n <= |shorter| && shorter <= longer
    ensures TableUpTo(shorter, n) == TableUpTo(longer, n)
  {
    if n > 0 { TablePrefix(shorter, longer, n - 1); }
  }

  /** Main result: the assignable tables are exactly the tables of the completions. */
  lemma AssignableIffRealizable(cases: seq<Case>, table: Cells)
    requires forall c :: c in cases ==> !c.Fatal?
    ensures Assignable(cases, table) <==> Realizable(cases, table)
  {
    if Assignable(cases, table) {
      var a :| Gives(cases, |cases|, a, table);
      var verdicts := AssignmentGivesCompletion(cases, |cases|, a);
    }
    if Realizable(cases, table) {
      var verdicts :| IsCompletion(cases, verdicts) && TableOf(verdicts) == table;
      var a := CompletionGivesAssignment(cases, verdicts, |cases|);
    }
  }
}
