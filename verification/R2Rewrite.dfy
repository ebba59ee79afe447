/**
 Rewriting one report: read it again, plan it again, write report and then sidecar over exactly the
 versions preflight saw, and read both back.
 */
module R2Rewrite {
  import opened Wrappers
  import opened R2Bucket
  import opened R2Remediation
  import opened R2Apply

  // ---- Planning again ----

  predicate SameAsPlanned(plan: Plan, record: Record) {
    && plan.Planned? && !plan.current
    && record.action == Rewrite
    && plan.reportChanged == record.reportChanged
    && plan.reportWriteRequired == record.reportWriteRequired
    && plan.origin == record.origin
    && plan.clock == record.clock
    && plan.audit == record.audit
  }

  /** Once both versions match, planning again cannot come out differently. */
  lemma ReplanAgreesIff(record: Record, seen: map<Key, Stored>, planner: Planner)
    requires PlannedFrom(record, seen, planner)
    ensures SameAsPlanned(RecordPlan(record, seen, planner), record) <==> record.action == Rewrite
  {
  }

  /** The rest of `Replan`, once the report is known to be the one that was planned. */
  method ReplanFrom(bucket: Bucket, record: Record, found: Stored, planner: Planner, ghost seen: map<Key, Stored>)
      returns (r: Reply<Plan>)
    requires bucket.Ready() && PlannedFrom(record, seen, planner) && InHistory(seen, bucket.world.history)
    requires found == seen[Report(record.id)]
    modifies bucket`world, bucket`schedule
    ensures Progress(old(bucket.Now()), bucket.Now())
    ensures r.Got? ==> record.action == Rewrite && r.value == RecordPlan(record, seen, planner)
    ensures Quiet(old(bucket.schedule)) ==> bucket.world == old(bucket.world)
    ensures Quiet(old(bucket.schedule)) && record.action == Rewrite ==>
      Lookup(old(bucket.world.objects), Sidecar(record.id)) == Version(record, seen) ==> r.Crashed? || r.Got?
    ensures |bucket.schedule| >= |old(bucket.schedule)| - 1
    ensures |old(bucket.schedule)| >= 1 ==> !r.Crashed?
  {
    TagsAreKnown(record, seen, bucket.world.history, planner);
    var sidecar := bucket.Get(Sidecar(record.id));
    if sidecar.Crashed? {
      return Crashed;
    }
    if !SidecarMatches(sidecar.value, record.sidecar) {
      return Conflict;
    }
    if record.sidecar.Some? {
      VersionWasThere(bucket.world, bucket.world, Sidecar(record.id), record.sidecar.value.tag);
    }
    assert sidecar.value == Version(record, seen);
    if !ReadableSidecar(sidecar.value) {
      return Failed;
    }
    ReplanAgreesIff(record, seen, planner);
    var plan := PlanOf(record.id, found, sidecar.value, planner);
    if !SameAsPlanned(plan, record) {
      return Conflict;
    }
    r := Got(plan);
  }

  method Replan(bucket: Bucket, record: Record, planner: Planner, ghost seen: map<Key, Stored>)
      returns (r: Reply<Plan>)
    requires bucket.Ready() && PlannedFrom(record, seen, planner) && InHistory(seen, bucket.world.history)
    modifies bucket`world, bucket`schedule
    ensures Progress(old(bucket.Now()), bucket.Now())
    ensures r.Got? ==> record.action == Rewrite && r.value == RecordPlan(record, seen, planner)
    ensures Quiet(old(bucket.schedule)) ==> bucket.world == old(bucket.world)
    ensures Quiet(old(bucket.schedule)) && record.action == Rewrite && Stands(record, seen, old(bucket.world.objects)) ==>
      r.Crashed? || r.Got?
    ensures |bucket.schedule| >= |old(bucket.schedule)| - 2
    ensures |old(bucket.schedule)| >= 2 ==> !r.Crashed?
  {
    ghost var start := bucket.Now();
    TagsAreKnown(record, seen, start.world.history, planner);
    var report := bucket.Get(Report(record.id));
    ghost var middle := bucket.Now();
    if report.Crashed? {
      return Crashed;
    }
    if report.value.None? || SnapshotOf(report.value.value) != record.report {
      return Conflict;
    }
    var found := report.value.value;
    VersionWasThere(middle.world, middle.world, Report(record.id), record.report.tag);
    assert found == seen[Report(record.id)];
    if found.body.text.None? {
      return Failed;
    }
    r := ReplanFrom(bucket, record, found, planner, seen);
    ProgressIsTransitive(start, middle, bucket.Now());
  }

  // ---- The two writes ----

  ghost predicate PairOnly(id: ReportId, before: map<Key, Stored>, after: map<Key, Stored>) {
    forall k :: k != Report(id) && k != Sidecar(id) ==> Lookup(after, k) == Lookup(before, k)
  }

  method WriteReport(bucket: Bucket, record: Record, plan: Plan, planner: Planner, ghost seen: map<Key, Stored>)
      returns (r: Reply<()>)
    requires bucket.Ready() && PlannedFrom(record, seen, planner) && InHistory(seen, bucket.world.history)
    requires record.action == Rewrite && plan == RecordPlan(record, seen, planner) && record.reportWriteRequired
    modifies bucket
    ensures Progress(old(bucket.Now()), bucket.Now())
    ensures !r.Got? ==> bucket.log == old(bucket.log)
    ensures r.Got? ==> bucket.log == old(bucket.log) + [ReportWrite(record, plan, seen)]
    ensures Quiet(old(bucket.schedule)) && !r.Got? ==> bucket.world == old(bucket.world)
    ensures Quiet(old(bucket.schedule)) && r.Got? ==>
      exists at :: bucket.world == WithObject(old(bucket.world), Report(record.id), NewReport(record, plan), at)
    ensures Quiet(old(bucket.schedule)) && Stands(record, seen, old(bucket.world.objects)) ==> r.Crashed? || r.Got?
    ensures |bucket.schedule| >= |old(bucket.schedule)| - 1
    ensures |old(bucket.schedule)| >= 1 ==> !r.Crashed?
  {
    ghost var start := bucket.Now();
    TagsAreKnown(record, seen, start.world.history, planner);
    var written := bucket.Put(Report(record.id), NewReport(record, plan), Matches(record.report.tag));
    if written.Crashed? {
      return Crashed;
    }
    if !written.value {
      return Conflict;
    }
    assert bucket.world.history[record.report.tag] == start.world.history[record.report.tag];
    assert bucket.log == start.log + [bucket.log[|start.log|]];
    r := Got(());
  }

  method WriteSidecar(bucket: Bucket, record: Record, plan: Plan, planner: Planner, ghost seen: map<Key, Stored>)
      returns (r: Reply<()>)
    requires bucket.Ready() && PlannedFrom(record, seen, planner) && InHistory(seen, bucket.world.history)
    requires record.action == Rewrite && plan == RecordPlan(record, seen, planner)
    modifies bucket
    ensures Progress(old(bucket.Now()), bucket.Now())
    ensures !r.Got? ==> bucket.log == old(bucket.log)
    ensures r.Got? ==> bucket.log == old(bucket.log) + [SidecarWrite(record, plan, seen)]
    ensures Quiet(old(bucket.schedule)) && !r.Got? ==> bucket.world == old(bucket.world)
    ensures Quiet(old(bucket.schedule)) && r.Got? ==> SidecarStage(record, plan, old(bucket.world), bucket.world)
    ensures Quiet(old(bucket.schedule)) && Lookup(old(bucket.world.objects), Sidecar(record.id)) == Version(record, seen) ==>
      r.Crashed? || r.Got?
    ensures |bucket.schedule| >= |old(bucket.schedule)| - 1
    ensures |old(bucket.schedule)| >= 1 ==> !r.Crashed?
  {
    ghost var start := bucket.Now();
    TagsAreKnown(record, seen, start.world.history, planner);
    var condition := if record.sidecar.Some? then Matches(record.sidecar.value.tag) else Absent;
    var written := bucket.Put(Sidecar(record.id), NewSidecar(record, plan), condition);
    if written.Crashed? {
      return Crashed;
    }
    if !written.value {
      return Conflict;
    }
    if record.sidecar.Some? {
      assert bucket.world.history[condition.tag] == start.world.history[condition.tag];
    }
    assert bucket.log == start.log + [bucket.log[|start.log|]];
    r := Got(());
  }

  /** The report's body once its part of the rewrite is done. */
  ghost function ReportAfter(record: Record, plan: Plan, seen: map<Key, Stored>): Body
    requires plan.Planned? && Report(record.id) in seen
  {
    if record.reportWriteRequired then NewReport(record, plan) else seen[Report(record.id)].body
  }

  ghost predicate Rewritten(record: Record, plan: Plan, seen: map<Key, Stored>, objects: map<Key, Stored>)
    requires plan.Planned? && Report(record.id) in seen
  {
    && Report(record.id) in objects && objects[Report(record.id)].body == ReportAfter(record, plan, seen)
    && Sidecar(record.id) in objects && objects[Sidecar(record.id)].body == NewSidecar(record, plan)
  }

  ghost predicate ReportStage(record: Record, plan: Plan, before: World, after: World)
    requires plan.Planned?
  {
    if plan.reportWriteRequired
    then exists at :: after == WithObject(before, Report(record.id), NewReport(record, plan), at)
    else after == before
  }

  ghost predicate SidecarStage(record: Record, plan: Plan, before: World, after: World)
    requires plan.Planned?
  {
    exists at :: after == WithObject(before, Sidecar(record.id), NewSidecar(record, plan), at)
  }

  lemma ReportStageEffect(record: Record, plan: Plan, before: World, after: World)
    requires plan.Planned? && ReportStage(record, plan, before, after)
    ensures PairOnly(record.id, before.objects, after.objects)
    ensures Lookup(after.objects, Sidecar(record.id)) == Lookup(before.objects, Sidecar(record.id))
  {
  }

  lemma BothStagesEffect(record: Record, plan: Plan, seen: map<Key, Stored>, before: World, between: World, after: World)
    requires plan.Planned? && ReportStage(record, plan, before, between) && SidecarStage(record, plan, between, after)
    requires plan.reportWriteRequired == record.reportWriteRequired
    ensures PairOnly(record.id, before.objects, after.objects)
    ensures Stands(record, seen, before.objects) ==> Rewritten(record, plan, seen, after.objects)
  {
    ReportStageEffect(record, plan, before, between);
    if Stands(record, seen, before.objects) {
      assert Report(record.id) in between.objects;
      assert between.objects[Report(record.id)].body == ReportAfter(record, plan, seen);
      assert after.objects[Report(record.id)] == between.objects[Report(record.id)];
    }
  }

  /** What two undisturbed writes leave, the second of them made or not. */
  lemma WriteEffect(record: Record, plan: Plan, seen: map<Key, Stored>, before: World, between: World, after: World, both: bool)
    requires plan.Planned? && Report(record.id) in seen && ReportStage(record, plan, before, between)
    requires plan.reportWriteRequired == record.reportWriteRequired
    requires if both then SidecarStage(record, plan, between, after) else after == between
    ensures PairOnly(record.id, before.objects, after.objects)
    ensures both && Stands(record, seen, before.objects) ==> Rewritten(record, plan, seen, after.objects)
  {
    if both {
      BothStagesEffect(record, plan, seen, before, between, after);
    } else {
      ReportStageEffect(record, plan, before, between);
    }
  }

  ghost function ReportWrites(record: Record, plan: Plan, seen: map<Key, Stored>): seq<Write>
    requires plan.Planned? && Report(record.id) in seen
  {
    if record.reportWriteRequired then [ReportWrite(record, plan, seen)] else []
  }

  lemma LogIsPrefix(record: Record, plan: Plan, seen: map<Key, Stored>, planner: Planner, before: seq<Write>, after: seq<Write>)
    requires PlannedFrom(record, seen, planner) && record.action == Rewrite && plan == RecordPlan(record, seen, planner)
    ensures Writes(record, seen, planner) == ReportWrites(record, plan, seen) + [SidecarWrite(record, plan, seen)]
    ensures after == before ==> after[|before|..] == []
    ensures after == before + ReportWrites(record, plan, seen) ==> after[|before|..] <= Writes(record, seen, planner)
    ensures after == before + ReportWrites(record, plan, seen) + [SidecarWrite(record, plan, seen)] ==>
      after == before + Writes(record, seen, planner) && after[|before|..] == Writes(record, seen, planner)
  {
  }

  /** Report first, sidecar second. */
  method WriteBoth(bucket: Bucket, record: Record, plan: Plan, planner: Planner, ghost seen: map<Key, Stored>)
      returns (r: Reply<()>)
    requires bucket.Ready() && PlannedFrom(record, seen, planner) && InHistory(seen, bucket.world.history)
    requires record.action == Rewrite && plan == RecordPlan(record, seen, planner)
    modifies bucket
    ensures Progress(old(bucket.Now()), bucket.Now())
    ensures bucket.log[|old(bucket.log)|..] <= Writes(record, seen, planner)
    ensures r.Got? ==> bucket.log == old(bucket.log) + Writes(record, seen, planner)
    ensures Quiet(old(bucket.schedule)) ==> PairOnly(record.id, old(bucket.world.objects), bucket.world.objects)
    ensures Quiet(old(bucket.schedule)) && Stands(record, seen, old(bucket.world.objects)) ==> r.Crashed? || r.Got?
    ensures Quiet(old(bucket.schedule)) && Stands(record, seen, old(bucket.world.objects)) && r.Got? ==>
      Rewritten(record, plan, seen, bucket.world.objects)
    ensures |bucket.schedule| >= |old(bucket.schedule)| - 2
    ensures |old(bucket.schedule)| >= 2 ==> !r.Crashed?
  {
    ghost var start := bucket.Now();
    r := MaybeWriteReport(bucket, record, plan, planner, seen);
    LogIsPrefix(record, plan, seen, planner, start.log, bucket.log);
    if !r.Got? {
      return;
    }
    ghost var middle := bucket.Now();
    VersionsStay(seen, start.world, middle.world);
    if Quiet(start.left) { ReportStageEffect(record, plan, start.world, middle.world); }
    r := WriteSidecar(bucket, record, plan, planner, seen);
    LogIsPrefix(record, plan, seen, planner, start.log, bucket.log);
    ProgressIsTransitive(start, middle, bucket.Now());
    if Quiet(start.left) { WriteEffect(record, plan, seen, start.world, middle.world, bucket.world, r.Got?); }
  }

  method MaybeWriteReport(bucket: Bucket, record: Record, plan: Plan, planner: Planner, ghost seen: map<Key, Stored>)
      returns (r: Reply<()>)
    requires bucket.Ready() && PlannedFrom(record, seen, planner) && InHistory(seen, bucket.world.history)
    requires record.action == Rewrite && plan == RecordPlan(record, seen, planner)
    modifies bucket
    ensures Progress(old(bucket.Now()), bucket.Now())
    ensures !r.Got? ==> bucket.log == old(bucket.log)
    ensures r.Got? ==> bucket.log == old(bucket.log) + ReportWrites(record, plan, seen)
    ensures Quiet(old(bucket.schedule)) && !r.Got? ==> bucket.world == old(bucket.world)
    ensures Quiet(old(bucket.schedule)) && r.Got? ==> ReportStage(record, plan, old(bucket.world), bucket.world)
    ensures Quiet(old(bucket.schedule)) && Stands(record, seen, old(bucket.world.objects)) ==> r.Crashed? || r.Got?
    ensures |bucket.schedule| >= |old(bucket.schedule)| - 1
    ensures |old(bucket.schedule)| >= 1 ==> !r.Crashed?
  {
    if plan.reportWriteRequired {
      r := WriteReport(bucket, record, plan, planner, seen);
    } else {
      r := Got(());
      assert bucket.log[|bucket.log|..] == [];
    }
  }

  // ---- Readback ----

  function ExpectedMetadata(record: Record): Meta {
    if record.origin == Legacy then WithRetention(record.report.custom, record.clock) else record.report.custom
  }

  function ExpectedSidecarHttp(record: Record): Meta {
    if record.sidecar.Some? then record.sidecar.value.http else JSON_TYPE
  }

  function ExpectedSidecarCustom(record: Record): Meta {
    if record.sidecar.Some? then record.sidecar.value.custom else map[]
  }

  /** The managed reader accepts the pair and the planner has nothing left to do with it. */
  predicate FixedPoint(record: Record, reportWire: string, sidecarWire: string, planner: Planner) {
    && planner.managed(record.id, reportWire, sidecarWire, record.clock)
    && var plan := planner.plan(record.id, reportWire, Some(sidecarWire), FromMetadata(record.clock));
       plan.Planned? && plan.current
  }

  predicate ReadsBack(record: Record, plan: Plan, report: Body, sidecar: Body, planner: Planner)
    requires plan.Planned?
  {
    && report.text == Some(plan.reportWire) && sidecar.text == Some(plan.sidecarWire)
    && report.http == record.report.http && report.custom == ExpectedMetadata(record)
    && sidecar.http == ExpectedSidecarHttp(record) && sidecar.custom == ExpectedSidecarCustom(record)
    && RetentionSource(report.custom, "", planner) == FromMetadata(record.clock)
    && FixedPoint(record, plan.reportWire, plan.sidecarWire, planner)
  }

  /** Metadata with a clock of its own does not depend on the upload time. */
  lemma ClockNeedsNoUpload(custom: Meta, a: string, b: string, planner: Planner, clock: Clock)
    ensures RetentionSource(custom, a, planner) == FromMetadata(clock) <==>
      RetentionSource(custom, b, planner) == FromMetadata(clock)
  {
  }

  ghost predicate PairReadsBack(record: Record, plan: Plan, objects: map<Key, Stored>, planner: Planner)
    requires plan.Planned?
  {
    && Report(record.id) in objects && Sidecar(record.id) in objects
    && ReadsBack(record, plan, objects[Report(record.id)].body, objects[Sidecar(record.id)].body, planner)
  }

  method VerifyReadback(bucket: Bucket, record: Record, plan: Plan, planner: Planner) returns (r: Reply<()>)
    requires bucket.Ready() && plan.Planned?
    modifies bucket`world, bucket`schedule
    ensures Progress(old(bucket.Now()), bucket.Now())
    ensures r.Got? ==> FixedPoint(record, plan.reportWire, plan.sidecarWire, planner)
    ensures Quiet(old(bucket.schedule)) ==> bucket.world == old(bucket.world)
    ensures Quiet(old(bucket.schedule)) && !r.Crashed? ==> (r.Got? <==> PairReadsBack(record, plan, bucket.world.objects, planner))
    ensures |bucket.schedule| >= |old(bucket.schedule)| - 2
    ensures |old(bucket.schedule)| >= 2 ==> !r.Crashed?
  {
    ghost var start := bucket.Now();
    var gotReport := bucket.Get(Report(record.id));
    ghost var middle := bucket.Now();
    if gotReport.Crashed? {
      return Crashed;
    }
    var gotSidecar := bucket.Get(Sidecar(record.id));
    ProgressIsTransitive(start, middle, bucket.Now());
    if gotSidecar.Crashed? {
      return Crashed;
    }
    if gotReport.value.None? || gotSidecar.value.None? {
      return Failed;
    }
    r := CheckReadback(gotReport.value.value, gotSidecar.value.value, record, plan, planner);
  }

  method CheckReadback(report: Stored, sidecar: Stored, record: Record, plan: Plan, planner: Planner) returns (r: Reply<()>)
    requires plan.Planned?
    ensures r == if ReadsBack(record, plan, report.body, sidecar.body, planner) then Got(()) else Failed
  {
    ClockNeedsNoUpload(report.body.custom, report.uploaded, "", planner, record.clock);
    if report.body.http != record.report.http || report.body.custom != ExpectedMetadata(record) {
      return Failed;
    }
    if sidecar.body.http != ExpectedSidecarHttp(record) || sidecar.body.custom != ExpectedSidecarCustom(record) {
      return Failed;
    }
    var source := RetentionSource(report.body.custom, report.uploaded, planner);
    if !source.FromMetadata? || source.clock != record.clock {
      return Failed;
    }
    if report.body.text.None? || sidecar.body.text.None? {
      return Failed;
    }
    var reportContents, sidecarContents := report.body.text.value, sidecar.body.text.value;
    if reportContents != plan.reportWire || sidecarContents != plan.sidecarWire {
      return Failed;
    }
    if !planner.managed(record.id, reportContents, sidecarContents, record.clock) {
      return Failed;
    }
    var fixedPoint := planner.plan(record.id, reportContents, Some(sidecarContents), source);
    if !(fixedPoint.Planned? && fixedPoint.current) {
      return Failed;
    }
    r := Got(());
  }

  // ---- The whole rewrite of one report ----

  /** What a quiet rewrite of `record` will find when it reads back. */
  ghost predicate Attestable(record: Record, seen: map<Key, Stored>, planner: Planner)
    requires PlannedFrom(record, seen, planner) && record.action == Rewrite
  {
    var plan := RecordPlan(record, seen, planner);
    ReadsBack(record, plan, ReportAfter(record, plan, seen), NewSidecar(record, plan), planner)
  }

  method ApplyOne(bucket: Bucket, record: Record, planner: Planner, ghost seen: map<Key, Stored>)
      returns (r: Reply<()>)
    requires bucket.Ready() && PlannedFrom(record, seen, planner) && InHistory(seen, bucket.world.history)
    requires record.action == Rewrite
    modifies bucket
    ensures Progress(old(bucket.Now()), bucket.Now())
    ensures bucket.log[|old(bucket.log)|..] <= Writes(record, seen, planner)
    ensures r.Got? ==> bucket.log == old(bucket.log) + Writes(record, seen, planner)
    ensures Quiet(old(bucket.schedule)) ==> PairOnly(record.id, old(bucket.world.objects), bucket.world.objects)
    ensures Quiet(old(bucket.schedule)) && Stands(record, seen, old(bucket.world.objects)) && !r.Crashed? ==>
      (r.Got? <==> Attestable(record, seen, planner))
    ensures Quiet(old(bucket.schedule)) && Stands(record, seen, old(bucket.world.objects)) && r.Got? ==>
      Rewritten(record, RecordPlan(record, seen, planner), seen, bucket.world.objects)
    ensures |bucket.schedule| >= |old(bucket.schedule)| - 6
    ensures |old(bucket.schedule)| >= 6 ==> !r.Crashed?
  {
    ghost var start := bucket.Now();
    var replanned := Replan(bucket, record, planner, seen);
    ghost var planned := bucket.Now();
    match replanned {
      case Crashed => return Crashed;
      case Conflict => return Conflict;
      case Failed => return Failed;
      case Got(plan) =>
        VersionsStay(seen, start.world, planned.world);
        r := WriteBoth(bucket, record, plan, planner, seen);
        ghost var written := bucket.Now();
        ProgressIsTransitive(start, planned, written);
        if !r.Got? {
          return;
        }
        r := VerifyReadback(bucket, record, plan, planner);
        ProgressIsTransitive(start, written, bucket.Now());
    }
  }
}
