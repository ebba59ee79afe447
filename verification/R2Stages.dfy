/**
 How far a remediation run has come: the stages its records go through, how it may stop, and what the
 steps between stages need.
 */
module R2Stages {
  import opened R2Bucket
  import opened R2Remediation
  import opened R2Apply
  import opened R2Rewrite
  import opened R2Crash

  // What a quiet run has done with the records before `n` and left alone from there on.
  ghost predicate QuietStage(records: seq<Record>, n: nat, seen: map<Key, Stored>, planner: Planner,
                             before: map<Key, Stored>, after: map<Key, Stored>)
    requires n <= |records| && AllPlannedFrom(records, seen, planner)
  {
    && (forall i :: 0 <= i < n && records[i].action == Rewrite ==>
         Attestable(records[i], seen, planner) && Rewritten(records[i], RecordPlan(records[i], seen, planner), seen, after))
    && (forall i :: 0 <= i < |records| && (n <= i || records[i].action != Rewrite) ==> Stands(records[i], seen, after))
    && (forall k :: (forall i :: 0 <= i < |records| && records[i].action == Rewrite ==>
         k != Report(records[i].id) && k != Sidecar(records[i].id)) ==> Lookup(after, k) == Lookup(before, k))
  }

  lemma QuietStageStep(records: seq<Record>, n: nat, seen: map<Key, Stored>, planner: Planner,
                       before: map<Key, Stored>, middle: map<Key, Stored>, after: map<Key, Stored>)
    requires n < |records| && AllPlannedFrom(records, seen, planner) && Ordered(records)
    requires QuietStage(records, n, seen, planner, before, middle)
    requires records[n].action == Rewrite && Attestable(records[n], seen, planner)
    requires PairOnly(records[n].id, middle, after)
    requires Rewritten(records[n], RecordPlan(records[n], seen, planner), seen, after)
    ensures QuietStage(records, n + 1, seen, planner, before, after)
  {
    forall i | 0 <= i < n && records[i].action == Rewrite
      ensures Rewritten(records[i], RecordPlan(records[i], seen, planner), seen, after)
    {
      SameLookups(records[n].id, records[i].id, middle, after);
    }
    forall i | 0 <= i < |records| && (n + 1 <= i || records[i].action != Rewrite)
      ensures Stands(records[i], seen, after)
    {
      SameLookups(records[n].id, records[i].id, middle, after);
    }
  }

  lemma QuietStageSkip(records: seq<Record>, n: nat, seen: map<Key, Stored>, planner: Planner,
                       before: map<Key, Stored>, after: map<Key, Stored>)
    requires n < |records| && AllPlannedFrom(records, seen, planner) && records[n].action != Rewrite
    requires QuietStage(records, n, seen, planner, before, after)
    ensures QuietStage(records, n + 1, seen, planner, before, after)
  {
  }

  lemma SameLookups(id: ReportId, other: ReportId, before: map<Key, Stored>, after: map<Key, Stored>)
    requires PairOnly(id, before, after) && other != id
    ensures Lookup(after, Report(other)) == Lookup(before, Report(other))
    ensures Lookup(after, Sidecar(other)) == Lookup(before, Sidecar(other))
  {
  }

  ghost predicate AllAttestable(records: seq<Record>, seen: map<Key, Stored>, planner: Planner)
    requires AllPlannedFrom(records, seen, planner)
  {
    forall i :: 0 <= i < |records| && records[i].action == Rewrite ==> Attestable(records[i], seen, planner)
  }

  ghost predicate AllStandIn(records: seq<Record>, seen: map<Key, Stored>, objects: map<Key, Stored>) {
    forall i :: 0 <= i < |records| ==> Stands(records[i], seen, objects)
  }

  ghost predicate Undisturbed(start: Moment, records: seq<Record>, seen: map<Key, Stored>) {
    Quiet(start.left) && AllStandIn(records, seen, start.world.objects)
  }

  /** The log has grown by exactly what is planned for the first `n` records. */
  ghost predicate Written(start: Moment, now: Moment, records: seq<Record>, n: nat, seen: map<Key, Stored>, planner: Planner)
    requires n <= |records| && AllPlannedFrom(records, seen, planner)
  {
    now.log == start.log + AllWrites(records, n, seen, planner)
  }

  /** Everything known of a run that has dealt with the first `n` records. */
  ghost predicate Reached(start: Moment, now: Moment, records: seq<Record>, n: nat, seen: map<Key, Stored>, planner: Planner)
    requires n <= |records| && AllPlannedFrom(records, seen, planner)
  {
    && Progress(start, now)
    && Written(start, now, records, n, seen, planner)
    && (Undisturbed(start, records, seen) ==>
         QuietStage(records, n, seen, planner, start.world.objects, now.world.objects))
    && |now.left| >= |start.left| - 6 * n
  }

  /** How many of the first `n` records are to be rewritten. */
  function Rewrites(records: seq<Record>, n: nat): nat
    requires n <= |records|
  {
    if n == 0 then 0 else Rewrites(records, n - 1) + if records[n - 1].action == Rewrite then 1 else 0
  }

  /** `applied` counts the rewrites before record `i`; `written` is all of theirs, and a beginning of `i`'s own. */
  ghost predicate AppliedBefore(applied: nat, i: nat, written: seq<Write>, records: seq<Record>, seen: map<Key, Stored>,
                                planner: Planner)
    requires i <= |records| && AllPlannedFrom(records, seen, planner)
  {
    var whole := AllWrites(records, i, seen, planner);
    && applied == Rewrites(records, i) && whole <= written
    && written[|whole|..] <= if i < |records| then Writes(records[i], seen, planner) else []
  }

  ghost predicate AppliedIsTrue(applied: nat, written: seq<Write>, records: seq<Record>, seen: map<Key, Stored>, planner: Planner)
    requires AllPlannedFrom(records, seen, planner)
  {
    exists i :: 0 <= i <= |records| && AppliedBefore(applied, i, written, records, seen, planner)
  }

  /** The first `n` records are dealt with, `applied` of them by rewriting. */
  ghost predicate Applying(start: Moment, now: Moment, records: seq<Record>, n: nat, applied: nat, seen: map<Key, Stored>,
                           planner: Planner)
  {
    && AllPlannedFrom(records, seen, planner) && n <= |records|
    && Reached(start, now, records, n, seen, planner) && applied == Rewrites(records, n)
  }

  /** How a run that was not to reach the end has stopped. */
  ghost predicate StoppedShort(start: Moment, now: Moment, r: Reply<()>, records: seq<Record>, seen: map<Key, Stored>, planner: Planner)
    requires AllPlannedFrom(records, seen, planner)
  {
    && !r.Got? && Progress(start, now)
    && |now.log| >= |start.log| && now.log[|start.log|..] <= AllWrites(records, |records|, seen, planner)
    && (Undisturbed(start, records, seen) && !r.Crashed? ==> !AllAttestable(records, seen, planner))
    && (|start.left| >= 6 * |records| ==> !r.Crashed?)
  }

  /** How applying every rewrite ends. */
  ghost predicate Ended(start: Moment, now: Moment, r: Reply<()>, applied: nat, records: seq<Record>,
                        seen: map<Key, Stored>, planner: Planner)
  {
    && AllPlannedFrom(records, seen, planner) && |start.log| <= |now.log|
    && (r.Got? ==> Reached(start, now, records, |records|, seen, planner) && applied == Rewrites(records, |records|))
    && (!r.Got? ==> StoppedShort(start, now, r, records, seen, planner))
    && AppliedIsTrue(applied, now.log[|start.log|..], records, seen, planner)
  }

  /** What applying one record does between two moments. */
  ghost predicate OneApplied(before: Moment, after: Moment, r: Reply<()>, record: Record, seen: map<Key, Stored>,
                             planner: Planner)
    requires PlannedFrom(record, seen, planner) && record.action == Rewrite
  {
    && Progress(before, after) && |before.log| <= |after.log|
    && after.log[|before.log|..] <= Writes(record, seen, planner)
    && (r.Got? ==> after.log == before.log + Writes(record, seen, planner))
    && (Quiet(before.left) ==> PairOnly(record.id, before.world.objects, after.world.objects))
    && (Quiet(before.left) && Stands(record, seen, before.world.objects) && !r.Crashed? ==>
         (r.Got? <==> Attestable(record, seen, planner)))
    && (Quiet(before.left) && Stands(record, seen, before.world.objects) && r.Got? ==>
         Rewritten(record, RecordPlan(record, seen, planner), seen, after.world.objects))
    && |after.left| >= |before.left| - 6 && (|before.left| >= 6 ==> !r.Crashed?)
  }

  lemma RewriteReaches(start: Moment, middle: Moment, now: Moment, r: Reply<()>, records: seq<Record>, i: nat, applied: nat,
                       seen: map<Key, Stored>, planner: Planner)
    requires i < |records| && records[i].action == Rewrite && Applying(start, middle, records, i, applied, seen, planner)
    requires Ordered(records) && r.Got? && OneApplied(middle, now, r, records[i], seen, planner)
    ensures Applying(start, now, records, i + 1, applied + 1, seen, planner)
  {
    AllWritesStep(start.log, records, i, seen, planner);
    ProgressIsTransitive(start, middle, now);
    QuietReaches(start, middle, now, r, records, i, seen, planner);
  }

  lemma QuietReaches(start: Moment, middle: Moment, now: Moment, r: Reply<()>, records: seq<Record>, i: nat,
                     seen: map<Key, Stored>, planner: Planner)
    requires i < |records| && records[i].action == Rewrite && AllPlannedFrom(records, seen, planner) && Ordered(records)
    requires Progress(start, middle) && r.Got? && OneApplied(middle, now, r, records[i], seen, planner)
    requires Undisturbed(start, records, seen) ==>
      QuietStage(records, i, seen, planner, start.world.objects, middle.world.objects)
    ensures Undisturbed(start, records, seen) ==>
      QuietStage(records, i + 1, seen, planner, start.world.objects, now.world.objects)
  {
    if Undisturbed(start, records, seen) {
      assert Stands(records[i], seen, middle.world.objects);
      QuietStageStep(records, i, seen, planner, start.world.objects, middle.world.objects, now.world.objects);
    }
  }

  lemma RewriteStops(start: Moment, middle: Moment, now: Moment, r: Reply<()>, records: seq<Record>, i: nat, applied: nat,
                     seen: map<Key, Stored>, planner: Planner)
    requires i < |records| && records[i].action == Rewrite && Applying(start, middle, records, i, applied, seen, planner)
    requires !r.Got? && OneApplied(middle, now, r, records[i], seen, planner)
    ensures Ended(start, now, r, applied, records, seen, planner)
  {
    ProgressIsTransitive(start, middle, now);
    PartialLog(start.log, middle.log, now.log, records, i, seen, planner);
  }

  lemma SkipReaches(start: Moment, now: Moment, records: seq<Record>, i: nat, applied: nat, seen: map<Key, Stored>,
                    planner: Planner)
    requires i < |records| && records[i].action != Rewrite && Applying(start, now, records, i, applied, seen, planner)
    ensures Applying(start, now, records, i + 1, applied, seen, planner)
  {
    AllWritesStep(start.log, records, i, seen, planner);
    if Undisturbed(start, records, seen) {
      QuietStageSkip(records, i, seen, planner, start.world.objects, now.world.objects);
    }
  }

  lemma NothingApplied(records: seq<Record>, seen: map<Key, Stored>, planner: Planner)
    requires AllPlannedFrom(records, seen, planner)
    ensures AppliedIsTrue(0, [], records, seen, planner)
  {
    assert AppliedBefore(0, 0, [], records, seen, planner);
  }

  lemma NothingDoneYet(start: Moment, records: seq<Record>, seen: map<Key, Stored>, planner: Planner)
    requires Valid(start.world) && AllPlannedFrom(records, seen, planner)
    ensures Applying(start, start, records, 0, 0, seen, planner)
  {
    assert start.log[|start.log|..] == [];
  }

  /** At the end, everything that was to be rewritten has read back. */
  lemma EndReached(start: Moment, now: Moment, records: seq<Record>, seen: map<Key, Stored>, planner: Planner)
    requires AllPlannedFrom(records, seen, planner) && Reached(start, now, records, |records|, seen, planner)
    ensures now.log == start.log + AllWrites(records, |records|, seen, planner)
    ensures now.log[|start.log|..] == AllWrites(records, |records|, seen, planner)
    ensures Undisturbed(start, records, seen) ==> AllAttestable(records, seen, planner)
  {
  }

  lemma AllApplied(start: Moment, now: Moment, applied: nat, records: seq<Record>, seen: map<Key, Stored>, planner: Planner)
    requires Applying(start, now, records, |records|, applied, seen, planner)
    ensures Ended(start, now, Got(()), applied, records, seen, planner)
  {
    EndReached(start, now, records, seen, planner);
    assert AppliedBefore(Rewrites(records, |records|), |records|, now.log[|start.log|..], records, seen, planner);
  }

  lemma AllWritesStep(log: seq<Write>, records: seq<Record>, i: nat, view: map<Key, Stored>, planner: Planner)
    requires i < |records| && AllPlannedFrom(records, view, planner)
    ensures log + AllWrites(records, i + 1, view, planner) ==
      log + AllWrites(records, i, view, planner) + Writes(records[i], view, planner)
    ensures records[i].action != Rewrite ==> AllWrites(records, i + 1, view, planner) == AllWrites(records, i, view, planner)
  {
  }

  lemma {:induction false} WritesArePrefixes(records: seq<Record>, i: nat, n: nat, view: map<Key, Stored>, planner: Planner)
      returns (rest: seq<Write>)
    requires i <= n <= |records| && AllPlannedFrom(records, view, planner)
    ensures AllWrites(records, n, view, planner) == AllWrites(records, i, view, planner) + rest
  {
    if i == n {
      rest := [];
    } else {
      var middle := WritesArePrefixes(records, i, n - 1, view, planner);
      rest := middle + Writes(records[n - 1], view, planner);
      Regroup(AllWrites(records, i, view, planner), middle, Writes(records[n - 1], view, planner));
    }
  }

  lemma Regroup(a: seq<Write>, b: seq<Write>, c: seq<Write>)
    ensures a + b + c == a + (b + c)
  {
  }

  lemma SuffixOfSum(a: seq<Write>, b: seq<Write>, c: seq<Write>, whole: seq<Write>)
    requires a + b <= whole && c == whole[|a + b|..]
    ensures a <= whole && whole[|a|..] == b + c
  {
    assert whole == a + b + c;
  }

  lemma PrefixOfSum(a: seq<Write>, b: seq<Write>, c: seq<Write>)
    requires b <= c
    ensures a + b <= a + c
  {
  }

  lemma PartialLog(start: seq<Write>, middle: seq<Write>, end: seq<Write>, records: seq<Record>, i: nat,
                   seen: map<Key, Stored>, planner: Planner)
    requires i < |records| && AllPlannedFrom(records, seen, planner)
    requires middle == start + AllWrites(records, i, seen, planner)
    requires middle <= end && end[|middle|..] <= Writes(records[i], seen, planner)
    ensures start <= end && end[|start|..] <= AllWrites(records, |records|, seen, planner)
    ensures AppliedBefore(Rewrites(records, i), i, end[|start|..], records, seen, planner)
  {
    var part := end[|middle|..];
    var earlier := AllWrites(records, i, seen, planner);
    SuffixOfSum(start, earlier, part, end);
    PrefixOfSum(earlier, part, Writes(records[i], seen, planner));
    var rest := WritesArePrefixes(records, i + 1, |records|, seen, planner);
  }
}
