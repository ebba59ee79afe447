/**
 What one record, and a list of them, may have come to between two contents of the bucket.
 */
module R2Cuts {
  import opened Wrappers
  import opened R2Bucket
  import opened R2Remediation

  ghost predicate Untouched(id: ReportId, before: map<Key, Body>, after: map<Key, Body>) {
    && Lookup(after, Report(id)) == Lookup(before, Report(id))
    && Lookup(after, Sidecar(id)) == Lookup(before, Sidecar(id))
  }

  ghost predicate ReportDone(record: Record, plan: Plan, before: map<Key, Body>, after: map<Key, Body>)
    requires plan.Planned?
  {
    Lookup(after, Report(record.id)) ==
    if record.reportWriteRequired then Some(NewReport(record, plan)) else Lookup(before, Report(record.id))
  }

  /** New report, old sidecar. */
  ghost predicate HalfWay(record: Record, plan: Plan, before: map<Key, Body>, after: map<Key, Body>)
    requires plan.Planned?
  {
    && ReportDone(record, plan, before, after)
    && Lookup(after, Sidecar(record.id)) == Lookup(before, Sidecar(record.id))
  }

  /** New report, new sidecar. */
  ghost predicate Finished(record: Record, plan: Plan, before: map<Key, Body>, after: map<Key, Body>)
    requires plan.Planned?
  {
    && ReportDone(record, plan, before, after)
    && Lookup(after, Sidecar(record.id)) == Some(NewSidecar(record, plan))
  }

  ghost predicate Completed(record: Record, seen: map<Key, Stored>, planner: Planner, before: map<Key, Body>, after: map<Key, Body>)
    requires PlannedFrom(record, seen, planner)
  {
    if record.action == Rewrite then Finished(record, RecordPlan(record, seen, planner), before, after)
    else Untouched(record.id, before, after)
  }

  ghost predicate OneOfThree(record: Record, seen: map<Key, Stored>, planner: Planner, before: map<Key, Body>, after: map<Key, Body>)
    requires PlannedFrom(record, seen, planner)
  {
    || Untouched(record.id, before, after)
    || (record.action == Rewrite && HalfWay(record, RecordPlan(record, seen, planner), before, after))
    || (record.action == Rewrite && Finished(record, RecordPlan(record, seen, planner), before, after))
  }

  ghost predicate AllCompleted(records: seq<Record>, n: nat, seen: map<Key, Stored>, planner: Planner,
                               before: map<Key, Body>, after: map<Key, Body>)
    requires n <= |records| && AllPlannedFrom(records, seen, planner)
  {
    forall i :: 0 <= i < n ==> Completed(records[i], seen, planner, before, after)
  }

  ghost predicate AllUntouched(records: seq<Record>, n: nat, before: map<Key, Body>, after: map<Key, Body>) {
    forall i :: n <= i < |records| ==> Untouched(records[i].id, before, after)
  }

  lemma CompletedStays(record: Record, seen: map<Key, Stored>, planner: Planner,
                       a: map<Key, Body>, b: map<Key, Body>, c: map<Key, Body>)
    requires PlannedFrom(record, seen, planner) && Untouched(record.id, b, c) && Completed(record, seen, planner, a, b)
    ensures Completed(record, seen, planner, a, c)
  {
  }

  /** From `a` to `b` record `n` is completed, and nothing is done to the records before it. */
  ghost predicate StepDone(records: seq<Record>, n: nat, seen: map<Key, Stored>, planner: Planner,
                           before: map<Key, Body>, a: map<Key, Body>, b: map<Key, Body>)
    requires n < |records| && AllPlannedFrom(records, seen, planner)
  {
    Completed(records[n], seen, planner, before, b) && forall i :: 0 <= i < n ==> Untouched(records[i].id, a, b)
  }

  ghost predicate StepByStep(records: seq<Record>, n: nat, seen: map<Key, Stored>, planner: Planner,
                             before: map<Key, Body>, states: seq<map<Key, Body>>)
    requires n <= |records| && AllPlannedFrom(records, seen, planner) && |states| > n
  {
    forall m :: 0 <= m < n ==> StepDone(records, m, seen, planner, before, states[m], states[m + 1])
  }

  lemma {:induction false} CompletedChain(records: seq<Record>, n: nat, seen: map<Key, Stored>, planner: Planner,
                                          before: map<Key, Body>, states: seq<map<Key, Body>>)
    requires n <= |records| && AllPlannedFrom(records, seen, planner) && |states| > n
    requires StepByStep(records, n, seen, planner, before, states)
    ensures AllCompleted(records, n, seen, planner, before, states[n])
  {
    if n > 0 {
      CompletedChain(records, n - 1, seen, planner, before, states);
      assert StepDone(records, n - 1, seen, planner, before, states[n - 1], states[n]);
      forall i | 0 <= i < n - 1
        ensures Completed(records[i], seen, planner, before, states[n])
      {
        CompletedStays(records[i], seen, planner, before, states[n - 1], states[n]);
      }
    }
  }

  /** One record at most is between its two writes: those before it are finished, those after it untouched. */
  ghost predicate CutAt(records: seq<Record>, cut: nat, seen: map<Key, Stored>, planner: Planner,
                        before: map<Key, Body>, after: map<Key, Body>)
    requires AllPlannedFrom(records, seen, planner)
  {
    && cut <= |records|
    && AllCompleted(records, cut, seen, planner, before, after)
    && (cut < |records| ==> OneOfThree(records[cut], seen, planner, before, after))
    && AllUntouched(records, cut + 1, before, after)
  }

  predicate EndsInside(writes: seq<Write>, earlier: seq<Write>, own: seq<Write>, part: seq<Write>) {
    part <= own && writes == earlier + part
  }

  /** `part` is what record `cut` had written when the run stopped. */
  ghost predicate StopsIn(records: seq<Record>, cut: nat, seen: map<Key, Stored>, planner: Planner, writes: seq<Write>, part: seq<Write>)
    requires AllPlannedFrom(records, seen, planner)
  {
    cut < |records| && EndsInside(writes, AllWrites(records, cut, seen, planner), Writes(records[cut], seen, planner), part)
  }

  ghost predicate Stops(records: seq<Record>, seen: map<Key, Stored>, planner: Planner, writes: seq<Write>)
    requires AllPlannedFrom(records, seen, planner)
  {
    exists cut, part :: StopsIn(records, cut, seen, planner, writes, part)
  }
}
