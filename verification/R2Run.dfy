/**
 A whole remediation run: dry run and apply, with other writers between any two operations and a
 possible death before any operation.
 */
module R2Run {
  import opened Wrappers
  import opened R2Bucket
  import opened R2Remediation
  import opened R2Apply
  import opened R2Rewrite
  import opened R2Crash
  import opened R2Cuts
  import opened R2Stages

  datatype Response =
    | Died
    | PreflightError
    | Blocked(before: Preflight)
    | Stopped(conflict: bool, applied: nat)
    | Done(applied: nat, before: Preflight, after: Preflight)

  datatype Receipt = NeverSent | NoReceipt | NotReady(p: Preflight) | Unstable(conflict: bool) | ReadyReceipt(p: Preflight)

  function ReceiptFor(survey: Option<Preflight>): Receipt {
    match survey
    case None => NoReceipt
    case Some(p) => if Clean(p) then ReadyReceipt(p) else NotReady(p)
  }

  /** One survey and the barrier. */
  function ReceiptTurns(objects: map<Key, Stored>): nat {
    SurveyTurns(objects) + 1 + 2 * |Ascending(Ids(objects.Keys))|
  }

  /** Main result: a ready dry run reports what a survey of one single moment would have found. */
  method DryRun(bucket: Bucket, planner: Planner) returns (r: Receipt, ghost moment: World)
    requires bucket.Ready()
    modifies bucket`world, bucket`schedule
    ensures bucket.log == old(bucket.log)
    ensures r.ReadyReceipt? ==> Since(old(bucket.world), moment) && Since(moment, bucket.world)
    ensures r.ReadyReceipt? ==> Clean(r.p) && Survey(moment.objects.Keys, moment.objects, planner) == Some(r.p)
    ensures r.NotReady? ==> !Clean(r.p)
    ensures Quiet(old(bucket.schedule)) ==> bucket.world == old(bucket.world)
    ensures Quiet(old(bucket.schedule)) && !r.NeverSent? ==>
      r == ReceiptFor(Survey(bucket.world.objects.Keys, bucket.world.objects, planner))
    ensures Quiet(old(bucket.schedule)) && |old(bucket.schedule)| >= ReceiptTurns(old(bucket.world.objects)) ==> !r.NeverSent?
  {
    ghost var start := bucket.Now();
    moment := start.world;
    var preflight: Reply<Preflight>;
    ghost var seen: map<Key, Stored>;
    preflight, seen := PreflightAll(bucket, planner);
    if !preflight.Got? {
      return if preflight.Crashed? then NeverSent else NoReceipt, moment;
    }
    if !Clean(preflight.value) {
      return NotReady(preflight.value), moment;
    }
    ghost var surveyed := bucket.Now();
    SurveyIsFounded(preflight.value, seen, planner);
    if Quiet(start.left) {
      QuietViewsStand(preflight.value, seen, start.world, planner);
      CleanSurveyCount(preflight.value, seen, planner);
    }
    var confirmed: Reply<()>;
    confirmed, moment := ConfirmUnchanged(bucket, preflight.value, seen, planner);
    SinceIsTransitive(start.world, surveyed.world, moment);
    match confirmed {
      case Crashed => r := NeverSent;
      case Conflict => r := Unstable(true);
      case Failed => r := Unstable(false);
      case Got(_) =>
        BarrierIsASnapshot(preflight.value, seen, moment.objects, planner);
        r := ReadyReceipt(preflight.value);
    }
  }

  // ---- Applying every rewrite ----

  /** One record of the worklist that is to be rewritten. */
  method ApplyNext(bucket: Bucket, records: seq<Record>, i: nat, planner: Planner, ghost seen: map<Key, Stored>,
                   ghost start: Moment, ghost applied: nat) returns (r: Reply<()>)
    requires AllPlannedFrom(records, seen, planner) && Ordered(records) && i < |records|
    requires records[i].action == Rewrite && InHistory(seen, start.world.history)
    requires Applying(start, bucket.Now(), records, i, applied, seen, planner)
    modifies bucket
    ensures if r.Got? then Applying(start, bucket.Now(), records, i + 1, applied + 1, seen, planner)
            else Ended(start, bucket.Now(), r, applied, records, seen, planner)
  {
    ghost var middle := bucket.Now();
    VersionsStay(seen, start.world, middle.world);
    r := ApplyOne(bucket, records[i], planner, seen);
    if r.Got? {
      RewriteReaches(start, middle, bucket.Now(), r, records, i, applied, seen, planner);
    } else {
      RewriteStops(start, middle, bucket.Now(), r, records, i, applied, seen, planner);
    }
  }

  /** Rewrites in record order. What has been written is always a beginning of what preflight planned. */
  method ApplyAll(bucket: Bucket, records: seq<Record>, planner: Planner, ghost seen: map<Key, Stored>)
      returns (r: Reply<()>, applied: nat)
    requires bucket.Ready() && InHistory(seen, bucket.world.history) && AllPlannedFrom(records, seen, planner)
    requires Ordered(records)
    modifies bucket
    ensures Ended(old(bucket.Now()), bucket.Now(), r, applied, records, seen, planner)
  {
    ghost var start := bucket.Now();
    applied := 0;
    NothingDoneYet(start, records, seen, planner);
    for i := 0 to |records|
      invariant Applying(start, bucket.Now(), records, i, applied, seen, planner)
    {
      if records[i].action == Rewrite {
        r := ApplyNext(bucket, records, i, planner, seen, start, applied);
        if !r.Got? {
          return;
        }
        applied := applied + 1;
      } else {
        SkipReaches(start, bucket.Now(), records, i, applied, seen, planner);
      }
    }
    r := Got(());
    AllApplied(start, bucket.Now(), applied, records, seen, planner);
  }

  predicate SameReports(a: Preflight, b: Preflight) {
    ReportIds(a) == ReportIds(b)
  }

  /** Without other writers, the log alone tells what the bucket holds, at whatever point the run ended. */
  lemma QuietRunLeavesACut(a: Moment, b: Moment, records: seq<Record>, seen: map<Key, Stored>, planner: Planner)
      returns (cut: nat)
    requires Progress(a, b) && Quiet(a.left) && Ordered(records) && AllPlannedFrom(records, seen, planner)
    requires b.log[|a.log|..] <= AllWrites(records, |records|, seen, planner)
    ensures CutAt(records, cut, seen, planner, Bodies(a.world.objects), Bodies(b.world.objects))
  {
    cut := CrashPointsAreCuts(records, |records|, seen, planner, Bodies(a.world.objects), b.log[|a.log|..]);
  }

  // ---- A quiet run to its end ----

  /** What was read twice of an undisturbed bucket was read from it. */
  lemma QuietViewsStand(p: Preflight, seen: map<Key, Stored>, w: World, planner: Planner)
    requires Valid(w) && InHistory(seen, w.history)
    requires Survey(p.keys, seen, planner) == Some(p) && p.keys == w.objects.Keys
    requires Survey(p.keys, w.objects, planner) == Some(p)
    ensures AllStand(p, seen, w.objects)
  {
    SurveyIsFounded(p, seen, planner);
    SurveyIsFounded(p, w.objects, planner);
    forall i | 0 <= i < |p.records|
      ensures Stands(p.records[i], seen, w.objects)
    {
      TagsAreKnown(p.records[i], seen, w.history, planner);
      TagsAreKnown(p.records[i], w.objects, w.history, planner);
    }
  }

  lemma RewrittenIsCurrent(record: Record, seen: map<Key, Stored>, planner: Planner, keys: set<Key>, after: map<Key, Stored>)
    requires PlannedFrom(record, seen, planner) && record.action == Rewrite && keys == after.Keys
    requires Attestable(record, seen, planner) && Rewritten(record, RecordPlan(record, seen, planner), seen, after)
    ensures var entry := EntryOf(record.id, keys, after, planner);
      entry.Readable? && entry.record.id == record.id && entry.record.action == Current
  {
    var plan := RecordPlan(record, seen, planner);
    var report := after[Report(record.id)];
    ClockNeedsNoUpload(report.body.custom, report.uploaded, "", planner, record.clock);
    assert PlanOf(record.id, report, Some(after[Sidecar(record.id)]), planner) ==
      planner.plan(record.id, plan.reportWire, Some(plan.sidecarWire), FromMetadata(record.clock));
  }

  lemma KeptIsSame(record: Record, seen: map<Key, Stored>, planner: Planner, p: Preflight, after: map<Key, Stored>)
    requires Founded(p, seen, planner) && record in p.records && PlannedFrom(record, seen, planner)
    requires Stands(record, seen, after)
    ensures EntryOf(record.id, after.Keys, after, planner) == Readable(record)
  {
  }

  /** Where the bucket ends up: the same reports, each a record with nothing left to rewrite. */
  lemma EndIsClean(p: Preflight, seen: map<Key, Stored>, planner: Planner, before: map<Key, Stored>, after: map<Key, Stored>)
      returns (q: Preflight)
    requires Survey(p.keys, seen, planner) == Some(p) && Clean(p) && p.keys == before.Keys
    requires AllPlannedFrom(p.records, seen, planner) && AllAttestable(p.records, seen, planner)
    requires QuietStage(p.records, |p.records|, seen, planner, before, after)
    ensures Survey(after.Keys, after, planner) == Some(q) && Clean(q) && NothingToRewrite(q) && SameReports(p, q)
  {
    SameKeysPlaced(p, seen, planner, before, after);
    var ids := Ascending(Ids(p.keys));
    var entries := Entries(after.Keys, after, planner);
    forall i | 0 <= i < |ids|
      ensures entries[i].Readable? && entries[i].record.id == ids[i] && entries[i].record.action != Rewrite
    {
      assert ids[i] in ids;
      var j := CleanSurveyIsComplete(p.keys, seen, planner, p, ids[i]);
      SurveyIsFounded(p, seen, planner);
      if p.records[j].action == Rewrite {
        RewrittenIsCurrent(p.records[j], seen, planner, after.Keys, after);
      } else {
        KeptIsSame(p.records[j], seen, planner, p, after);
      }
    }
    AllReadable(entries);
    q := Preflight(after.Keys, Unplaced(after.Keys), Records(entries), []);
    CleanSurveyIds(p.keys, seen, planner, p);
    assert ReportIds(p) == ids == ReportIds(q);
  }

  lemma {:induction false} AllReadable(entries: seq<Entry>)
    requires forall i :: 0 <= i < |entries| ==> entries[i].Readable?
    ensures Issues(entries) == [] && |Records(entries)| == |entries|
    ensures forall i :: 0 <= i < |entries| ==> Records(entries)[i] == entries[i].record
    decreases |entries|
  {
    if entries != [] {
      AllReadable(entries[..|entries| - 1]);
    }
  }

  lemma CleanSurveyIds(keys: set<Key>, view: map<Key, Stored>, planner: Planner, p: Preflight)
    requires Survey(keys, view, planner) == Some(p) && p.issues == []
    ensures ReportIds(p) == Ascending(Ids(keys))
  {
    var entries := Entries(keys, view, planner);
    NoIssuesMeansAllReadable(entries);
    forall i | 0 <= i < |entries|
      ensures p.records[i].id == Ascending(Ids(keys))[i]
    {
      assert entries[i] == EntryOf(Ascending(Ids(keys))[i], keys, view, planner);
    }
  }

  lemma SameKeysPlaced(p: Preflight, seen: map<Key, Stored>, planner: Planner, before: map<Key, Stored>, after: map<Key, Stored>)
    requires Survey(p.keys, seen, planner) == Some(p) && Clean(p) && p.keys == before.Keys
    requires AllPlannedFrom(p.records, seen, planner)
    requires QuietStage(p.records, |p.records|, seen, planner, before, after)
    ensures Ids(after.Keys) == Ids(p.keys) && Unplaced(after.Keys) == {}
  {
    SurveyDescribes(p.keys, seen, planner, p);
    forall i | 0 <= i < |p.records|
      ensures Report(p.records[i].id) in after && Report(p.records[i].id) in before
    {
      assert p.records[i].id in Ids(p.keys);
    }
    forall k
      ensures k in after && k.Report? ==> k in before
      ensures k in before && k.Report? ==> k in after
      ensures k in after && k.Sidecar? ==> k in before || Report(k.id) in after
      ensures k in after && k.Other? ==> k in before
    {
      if forall i :: 0 <= i < |p.records| && p.records[i].action == Rewrite ==>
        k != Report(p.records[i].id) && k != Sidecar(p.records[i].id) {
        assert Lookup(after, k) == Lookup(before, k);
      } else {
        var i :| 0 <= i < |p.records| && p.records[i].action == Rewrite &&
          (k == Report(p.records[i].id) || k == Sidecar(p.records[i].id));
        assert Report(p.records[i].id) in after && Report(p.records[i].id) in before;
      }
    }
    forall k
      ensures k !in Unplaced(after.Keys)
    {
      assert k !in Unplaced(p.keys);
    }
    forall id
      ensures id in Ids(after.Keys) <==> id in Ids(p.keys)
    {
      assert Report(id) in after <==> Report(id) in before;
    }
  }

  lemma CleanSurveyCount(p: Preflight, view: map<Key, Stored>, planner: Planner)
    requires Survey(p.keys, view, planner) == Some(p) && p.issues == []
    ensures |p.records| == |Ascending(Ids(p.keys))|
  {
    CleanSurveyIds(p.keys, view, planner, p);
  }

  /** The barrier, every rewrite, and the postflight of a clean preflight. */
  method ApplyPlanned(bucket: Bucket, p: Preflight, planner: Planner, ghost seen: map<Key, Stored>)
      returns (r: Response, ghost seenAfter: map<Key, Stored>, ghost barrier: World)
    requires bucket.Ready() && InHistory(seen, bucket.world.history)
    requires Survey(p.keys, seen, planner) == Some(p) && Clean(p)
    requires AllPlannedFrom(p.records, seen, planner) && Ordered(p.records)
    modifies bucket
    ensures Progress(old(bucket.Now()), bucket.Now())
    ensures bucket.log[|old(bucket.log)|..] <= AllWrites(p.records, |p.records|, seen, planner)
    ensures Since(old(bucket.world), barrier)
    ensures bucket.log != old(bucket.log) ==> BarrierHeld(p, seen, old(bucket.world), barrier, bucket.world)
    ensures r.Died? || r.Stopped? || r.Done?
    ensures r.Done? ==> r.applied == Rewrites(p.records, |p.records|)
    ensures r.Stopped? ==> AppliedIsTrue(r.applied, bucket.log[|old(bucket.log)|..], p.records, seen, planner)
    ensures r.Done? ==> r.before == p && bucket.log == old(bucket.log) + AllWrites(p.records, |p.records|, seen, planner)
    ensures r.Done? ==> InHistory(seenAfter, bucket.world.history) && Survey(r.after.keys, seenAfter, planner) == Some(r.after)
    ensures r.Done? ==> Clean(r.after) && NothingToRewrite(r.after) && SameReports(p, r.after)
    ensures Quiet(old(bucket.schedule)) && r.Done? ==>
      Survey(bucket.world.objects.Keys, bucket.world.objects, planner) == Some(r.after)
    ensures Quiet(old(bucket.schedule)) && AllStand(p, seen, old(bucket.world.objects)) && !r.Died? ==>
      (r.Done? <==> AllAttestable(p.records, seen, planner))
    ensures Quiet(old(bucket.schedule)) && AllStand(p, seen, old(bucket.world.objects)) ==>
      (|old(bucket.schedule)| >= 2 + 10 * |p.records| ==> !r.Died?)
  {
    ghost var start := bucket.Now();
    SurveyIsFounded(p, seen, planner);
    seenAfter := map[];
    var confirmed: Reply<()>;
    confirmed, barrier := ConfirmUnchanged(bucket, p, seen, planner);
    ghost var confirming := bucket.Now();
    VersionsStay(seen, start.world, confirming.world);
    if !confirmed.Got? {
      assert bucket.log[|start.log|..] == [];
      NothingApplied(p.records, seen, planner);
      return if confirmed.Crashed? then Died else Stopped(confirmed.Conflict?, 0), seenAfter, barrier;
    }
    var all, applied := ApplyAll(bucket, p.records, planner, seen);
    ghost var written := bucket.Now();
    ProgressIsTransitive(start, confirming, written);
    SinceIsTransitive(barrier, confirming.world, written.world);
    if all.Got? {
      EndReached(confirming, written, p.records, seen, planner);
    } else {
      return if all.Crashed? then Died else Stopped(all.Conflict?, applied), seenAfter, barrier;
    }
    r, seenAfter := Postflight(bucket, p, applied, planner);
    ProgressIsTransitive(start, written, bucket.Now());
    SinceIsTransitive(barrier, written.world, bucket.world);
    if Quiet(start.left) && AllStand(p, seen, start.world.objects) {
      ghost var q := EndIsClean(p, seen, planner, start.world.objects, written.world.objects);
      SameKeysPlaced(p, seen, planner, start.world.objects, written.world.objects);
      CleanSurveyCount(p, seen, planner);
    }
  }

  /** Between two moments the bucket stood, at one instant, exactly as preflight had read it. */
  ghost predicate BarrierHeld(p: Preflight, seen: map<Key, Stored>, start: World, barrier: World, end: World) {
    Since(start, barrier) && Since(barrier, end) && AllStand(p, seen, barrier.objects)
  }

  predicate Accepted(p: Preflight, after: Preflight) {
    Clean(after) && NothingToRewrite(after) && SameReports(p, after)
  }

  method Postflight(bucket: Bucket, p: Preflight, applied: nat, planner: Planner)
      returns (r: Response, ghost seenAfter: map<Key, Stored>)
    requires bucket.Ready()
    modifies bucket`world, bucket`schedule
    ensures Progress(old(bucket.Now()), bucket.Now())
    ensures r.Died? || r.Stopped? || r.Done?
    ensures bucket.log == old(bucket.log) && (r.Stopped? || r.Done? ==> r.applied == applied)
    ensures r.Done? ==> r.before == p && Accepted(p, r.after)
    ensures r.Done? ==> InHistory(seenAfter, bucket.world.history) && Survey(r.after.keys, seenAfter, planner) == Some(r.after)
    ensures Quiet(old(bucket.schedule)) ==> bucket.world == old(bucket.world)
    ensures Quiet(old(bucket.schedule)) && !r.Died? ==>
      match Survey(bucket.world.objects.Keys, bucket.world.objects, planner)
      case Some(q) => r == if Accepted(p, q) then Done(applied, p, q) else Stopped(true, applied)
      case None => r.Stopped?
    ensures Quiet(old(bucket.schedule)) && |old(bucket.schedule)| >= SurveyTurns(bucket.world.objects) ==> !r.Died?
  {
    var postflight: Reply<Preflight>;
    postflight, seenAfter := PreflightAll(bucket, planner);
    if !postflight.Got? {
      return if postflight.Crashed? then Died else Stopped(false, applied), seenAfter;
    }
    if !Clean(postflight.value) || !NothingToRewrite(postflight.value) || !SameReports(p, postflight.value) {
      return Stopped(true, applied), seenAfter;
    }
    r := Done(applied, p, postflight.value);
  }

  /** Two surveys, the barrier, and six operations for each rewrite. */
  function RunTurns(objects: map<Key, Stored>): nat {
    3 + 12 * |Ascending(Ids(objects.Keys))|
  }

  /**
   Main result. Under any interleaving and wherever it stops, the run has written a beginning of what
   a clean preflight planned, each write over exactly the version preflight read, and nothing before the
   whole bucket stood as preflight read it; what it reports as applied is true. It is done only after a
   postflight with the same reports and nothing to rewrite; undisturbed, it is done exactly when the
   preflight is clean and every planned output reads back.
   */
  method Apply(bucket: Bucket, planner: Planner)
      returns (r: Response, ghost before: Option<Preflight>, ghost seen: map<Key, Stored>, ghost seenAfter: map<Key, Stored>,
               ghost barrier: World)
    requires bucket.Ready()
    modifies bucket
    ensures Progress(old(bucket.Now()), bucket.Now())
    ensures before.None? ==> bucket.log == old(bucket.log) && !r.Done?
    ensures before.Some? ==> Survey(before.value.keys, seen, planner) == before
    ensures before.Some? ==> AllPlannedFrom(before.value.records, seen, planner) && Ordered(before.value.records)
    ensures before.Some? ==> bucket.log[|old(bucket.log)|..] <= AllWrites(before.value.records, |before.value.records|, seen, planner)
    ensures before.Some? && !Clean(before.value) ==> r == Blocked(before.value) && bucket.log == old(bucket.log)
    ensures bucket.log != old(bucket.log) ==> BarrierHeld(before.value, seen, old(bucket.world), barrier, bucket.world)
    ensures before.Some? && r.Stopped? ==>
      AppliedIsTrue(r.applied, bucket.log[|old(bucket.log)|..], before.value.records, seen, planner)
    ensures r.Done? ==> r.applied == Rewrites(r.before.records, |r.before.records|)
    ensures r.Done? ==> before == Some(r.before) && Clean(r.before)
    ensures r.Done? ==> bucket.log == old(bucket.log) + AllWrites(r.before.records, |r.before.records|, seen, planner)
    ensures r.Done? ==> InHistory(seenAfter, bucket.world.history) && Survey(r.after.keys, seenAfter, planner) == Some(r.after)
    ensures r.Done? ==> Clean(r.after) && NothingToRewrite(r.after) && SameReports(r.before, r.after)
    ensures Quiet(old(bucket.schedule)) && r.Done? ==>
      Survey(bucket.world.objects.Keys, bucket.world.objects, planner) == Some(r.after)
    ensures Quiet(old(bucket.schedule)) && !r.Died? ==>
      before == Survey(old(bucket.world.objects.Keys), old(bucket.world.objects), planner)
    ensures Quiet(old(bucket.schedule)) && before.Some? && !r.Died? ==>
      (r.Done? <==> Clean(before.value) && AllAttestable(before.value.records, seen, planner))
    ensures Quiet(old(bucket.schedule)) && |old(bucket.schedule)| >= RunTurns(old(bucket.world.objects)) ==> !r.Died?
  {
    ghost var start := bucket.Now();
    before, seenAfter, barrier := None, map[], start.world;
    var preflight: Reply<Preflight>;
    preflight, seen := PreflightAll(bucket, planner);
    if !preflight.Got? {
      return if preflight.Crashed? then Died else PreflightError, None, seen, seenAfter, barrier;
    }
    var p := preflight.value;
    before := Some(p);
    ghost var surveyed := bucket.Now();
    SurveyDescribes(p.keys, seen, planner, p);
    if !Clean(p) {
      return Blocked(p), before, seen, seenAfter, barrier;
    }
    if Quiet(start.left) {
      QuietViewsStand(p, seen, surveyed.world, planner);
      CleanSurveyCount(p, seen, planner);
    }
    r, seenAfter, barrier := ApplyPlanned(bucket, p, planner, seen);
    ProgressIsTransitive(start, surveyed, bucket.Now());
    SinceIsTransitive(start.world, surveyed.world, barrier);
  }
}
