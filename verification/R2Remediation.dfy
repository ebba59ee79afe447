/**
 Rewriting stored reports under optimistic concurrency: preflight, barrier, conditional writes in a
 fixed order, readback, postflight.

 The planner and the managed reader are parameters; nothing is assumed of them.
 */
module R2Remediation {
  import opened Wrappers
  import opened R2Bucket

  datatype Clock = Clock(createdAt: string, expiresAt: string)

  datatype Source = FromMetadata(clock: Clock) | LegacyUploaded(uploadedAt: string) | Malformed

  datatype Origin = Metadata | Legacy

  datatype Plan =
    | Refused(issue: string)
    | Expired(origin: Origin, clock: Clock)
    | Planned(current: bool, origin: Origin, clock: Clock, reportWire: string, sidecarWire: string,
              reportChanged: bool, reportWriteRequired: bool, audit: seq<nat>)

  /** `plan` runs with one clock and one maximum age for the whole run. */
  datatype Planner = Planner(
    isRetention: Clock -> bool,
    plan: (ReportId, string, Option<string>, Source) -> Plan,
    managed: (ReportId, string, string, Clock) -> bool)

  datatype Snapshot = Snapshot(tag: nat, uploaded: string, http: Meta, custom: Meta, storage: StorageClass)

  datatype Action = Current | Rewrite | AlreadyExpired

  datatype Record = Record(id: ReportId, action: Action, reportChanged: bool, reportWriteRequired: bool,
                           origin: Origin, clock: Clock, report: Snapshot, sidecar: Option<Snapshot>, audit: seq<nat>)

  datatype Issue = Issue(id: ReportId, issue: string)

  datatype Entry = Readable(record: Record) | Flawed(issue: Issue) | Unreadable

  datatype Preflight = Preflight(keys: set<Key>, unplaced: set<Key>, records: seq<Record>, issues: seq<Issue>)

  // ---- Retention ----

  function Unique(left: Option<string>, right: Option<string>): Option<string> {
    if left.Some? && right.Some? && left != right then None else if left.Some? then left else right
  }

  function RetentionSource(custom: Meta, uploaded: string, planner: Planner): Source {
    var createdKebab, createdCamel := Lookup(custom, "created-at"), Lookup(custom, "createdAt");
    var expiresKebab, expiresCamel := Lookup(custom, "expires-at"), Lookup(custom, "expiresAt");
    if createdKebab.None? && createdCamel.None? && expiresKebab.None? && expiresCamel.None? then
      LegacyUploaded(uploaded)
    else
      var created, expires := Unique(createdKebab, createdCamel), Unique(expiresKebab, expiresCamel);
      if created.Some? && expires.Some? && planner.isRetention(Clock(created.value, expires.value))
      then FromMetadata(Clock(created.value, expires.value))
      else Malformed
  }

  function WithRetention(custom: Meta, clock: Clock): Meta {
    custom["created-at" := clock.createdAt]["expires-at" := clock.expiresAt]
  }

  // ---- One report ----

  function SnapshotOf(stored: Stored): Snapshot {
    Snapshot(stored.tag, stored.uploaded, stored.body.http, stored.body.custom, stored.body.storage)
  }

  predicate SidecarMatches(sidecar: Option<Stored>, expected: Option<Snapshot>) {
    sidecar.None? == expected.None? && (sidecar.Some? ==> SnapshotOf(sidecar.value) == expected.value)
  }

  predicate ReadableSidecar(sidecar: Option<Stored>) {
    sidecar.Some? ==> sidecar.value.body.text.Some?
  }

  function SidecarText(sidecar: Option<Stored>): Option<string>
    requires ReadableSidecar(sidecar)
  {
    if sidecar.Some? then sidecar.value.body.text else None
  }

  function PlanOf(id: ReportId, report: Stored, sidecar: Option<Stored>, planner: Planner): Plan
    requires report.body.text.Some? && ReadableSidecar(sidecar)
  {
    planner.plan(id, report.body.text.value, SidecarText(sidecar),
                 RetentionSource(report.body.custom, report.uploaded, planner))
  }

  function Planning(id: ReportId, report: Stored, sidecar: Option<Stored>, planner: Planner): Entry
    requires report.body.text.Some? && ReadableSidecar(sidecar)
  {
    var shot := if sidecar.Some? then Some(SnapshotOf(sidecar.value)) else None;
    match PlanOf(id, report, sidecar, planner)
    case Refused(issue) => Flawed(Issue(id, issue))
    case Expired(origin, clock) =>
      Readable(Record(id, AlreadyExpired, false, false, origin, clock, SnapshotOf(report), shot, []))
    case Planned(current, origin, clock, _, _, changed, required, audit) =>
      Readable(Record(id, if current then Current else Rewrite, !current && changed, !current && required,
                      origin, clock, SnapshotOf(report), shot, audit))
  }

  /** What preflight concludes of one report when the versions it reads are those of `view`. */
  function EntryOf(id: ReportId, keys: set<Key>, view: map<Key, Stored>, planner: Planner): Entry {
    if Report(id) !in view then Flawed(Issue(id, "report-disappeared-during-preflight"))
    else if view[Report(id)].body.text.None? then Unreadable
    else if Sidecar(id) !in keys then Planning(id, view[Report(id)], None, planner)
    else if Sidecar(id) !in view then Flawed(Issue(id, "sidecar-disappeared-during-preflight"))
    else if view[Sidecar(id)].body.text.None? then Unreadable
    else Planning(id, view[Report(id)], Some(view[Sidecar(id)]), planner)
  }

  // ---- The whole prefix ----

  function Ids(keys: set<Key>): set<ReportId> {
    set k | k in keys && k.Report? :: k.id
  }

  /** Sidecars without a report, and objects of no known kind. */
  function Unplaced(keys: set<Key>): set<Key> {
    set k | k in keys && (k.Other? || (k.Sidecar? && Report(k.id) !in keys))
  }

  lemma {:induction false} LeastOf(ids: set<ReportId>) returns (least: ReportId)
    requires ids != {}
    ensures least in ids && forall x :: x in ids ==> least <= x
    decreases |ids|
  {
    var a :| a in ids;
    least := a;
    if ids != {a} {
      var m := LeastOf(ids - {a});
      if m < a { least := m; }
      assert forall x :: x in ids ==> x == a || x in ids - {a};
    }
  }

  lemma {:induction false} LeastExists(ids: set<ReportId>)
    requires ids != {}
    ensures exists m :: m in ids && forall x :: x in ids ==> m <= x
  {
    var least := LeastOf(ids);
  }

  function Least(ids: set<ReportId>): (m: ReportId)
    requires ids != {}
    ensures m in ids && forall x :: x in ids ==> m <= x
  {
    LeastExists(ids);
    var m :| m in ids && forall x :: x in ids ==> m <= x;
    m
  }

  function Ascending(ids: set<ReportId>): (r: seq<ReportId>)
    ensures forall x :: x in r <==> x in ids
    decreases |ids|
  {
    if ids == {} then [] else [Least(ids)] + Ascending(ids - {Least(ids)})
  }

  lemma {:induction false} AscendingAscends(ids: set<ReportId>)
    ensures forall i, j :: 0 <= i < j < |Ascending(ids)| ==> Ascending(ids)[i] < Ascending(ids)[j]
    decreases |ids|
  {
    if ids != {} {
      var rest := Ascending(ids - {Least(ids)});
      AscendingAscends(ids - {Least(ids)});
      forall j | 0 <= j < |rest|
        ensures Least(ids) < rest[j]
      {
        assert rest[j] in ids - {Least(ids)};
      }
    }
  }

  function Entries(keys: set<Key>, view: map<Key, Stored>, planner: Planner): seq<Entry> {
    var ids := Ascending(Ids(keys));
    seq(|ids|, i requires 0 <= i < |ids| => EntryOf(ids[i], keys, view, planner))
  }

  function Records(entries: seq<Entry>): seq<Record>
    decreases |entries|
  {
    if entries == [] then []
    else
      var last := entries[|entries| - 1];
      Records(entries[..|entries| - 1]) + if last.Readable? then [last.record] else []
  }

  function Issues(entries: seq<Entry>): seq<Issue>
    decreases |entries|
  {
    if entries == [] then []
    else
      var last := entries[|entries| - 1];
      Issues(entries[..|entries| - 1]) + if last.Flawed? then [last.issue] else []
  }

  /** Planning the prefix in one instant: what an unhurried reader of `view` would report. */
  function Survey(keys: set<Key>, view: map<Key, Stored>, planner: Planner): Option<Preflight> {
    var entries := Entries(keys, view, planner);
    if Unreadable in entries then None
    else Some(Preflight(keys, Unplaced(keys), Records(entries), Issues(entries)))
  }

  predicate Clean(p: Preflight) {
    p.unplaced == {} && p.issues == []
  }

  predicate NothingToRewrite(p: Preflight) {
    forall i :: 0 <= i < |p.records| ==> p.records[i].action != Rewrite
  }

  function ReportIds(p: Preflight): seq<ReportId> {
    seq(|p.records|, i requires 0 <= i < |p.records| => p.records[i].id)
  }

  // ---- What is to be written ----

  /** The versions that `record` was planned from. */
  ghost predicate PlannedFrom(record: Record, view: map<Key, Stored>, planner: Planner) {
    var sidecar := Version(record, view);
    && Report(record.id) in view && view[Report(record.id)].body.text.Some?
    && (record.sidecar.Some? ==> sidecar.Some?)
    && ReadableSidecar(sidecar)
    && Planning(record.id, view[Report(record.id)], sidecar, planner) == Readable(record)
  }

  /** The sidecar `record` was planned from. */
  ghost function Version(record: Record, view: map<Key, Stored>): Option<Stored> {
    if record.sidecar.Some? then Lookup(view, Sidecar(record.id)) else None
  }

  function NewReport(record: Record, plan: Plan): Body
    requires plan.Planned?
  {
    Body(Some(plan.reportWire), record.report.http,
         if plan.origin == Legacy then WithRetention(record.report.custom, plan.clock) else record.report.custom,
         record.report.storage)
  }

  const JSON_TYPE: Meta := map["contentType" := "application/json; charset=utf-8"]

  function NewSidecar(record: Record, plan: Plan): Body
    requires plan.Planned?
  {
    match record.sidecar
    case Some(prior) => Body(Some(plan.sidecarWire), prior.http, prior.custom, prior.storage)
    case None => Body(Some(plan.sidecarWire), JSON_TYPE, map[], Standard)
  }

  ghost function RecordPlan(record: Record, view: map<Key, Stored>, planner: Planner): Plan
    requires PlannedFrom(record, view, planner)
  {
    PlanOf(record.id, view[Report(record.id)], Version(record, view), planner)
  }

  ghost function ReportWrite(record: Record, plan: Plan, view: map<Key, Stored>): Write
    requires plan.Planned? && Report(record.id) in view
  {
    Write(Report(record.id), Some(view[Report(record.id)]), NewReport(record, plan))
  }

  ghost function SidecarWrite(record: Record, plan: Plan, view: map<Key, Stored>): Write
    requires plan.Planned?
  {
    Write(Sidecar(record.id), Version(record, view), NewSidecar(record, plan))
  }

  /** The report over the version it was planned from, then the sidecar over its own or over nothing. */
  ghost function Writes(record: Record, view: map<Key, Stored>, planner: Planner): seq<Write>
    requires PlannedFrom(record, view, planner)
  {
    if record.action != Rewrite then []
    else
      var plan := RecordPlan(record, view, planner);
      (if record.reportWriteRequired then [ReportWrite(record, plan, view)] else []) + [SidecarWrite(record, plan, view)]
  }

  ghost predicate AllPlannedFrom(records: seq<Record>, view: map<Key, Stored>, planner: Planner) {
    forall i :: 0 <= i < |records| ==> PlannedFrom(records[i], view, planner)
  }

  ghost function AllWrites(records: seq<Record>, n: nat, view: map<Key, Stored>, planner: Planner): seq<Write>
    requires n <= |records| && AllPlannedFrom(records, view, planner)
  {
    if n == 0 then [] else AllWrites(records, n - 1, view, planner) + Writes(records[n - 1], view, planner)
  }

  // ---- Preflight ----

  /** The listed sidecar of a report that was read as `found`. */
  method ReadListedSidecar(bucket: Bucket, id: ReportId, found: Stored, keys: set<Key>, planner: Planner)
      returns (r: Reply<Entry>, ghost seen: map<Key, Stored>)
    requires bucket.Ready() && Sidecar(id) in keys && found.body.text.Some?
    requires InHistory(map[Report(id) := found], bucket.world.history)
    modifies bucket`world, bucket`schedule
    ensures Progress(old(bucket.Now()), bucket.Now())
    ensures seen.Keys <= {Report(id), Sidecar(id)} && InHistory(seen, bucket.world.history)
    ensures r.Got? ==> r.value == EntryOf(id, keys, seen, planner) && r.value != Unreadable
    ensures r.Failed? ==> EntryOf(id, keys, seen, planner) == Unreadable
    ensures !r.Conflict?
    ensures Quiet(old(bucket.schedule)) ==> bucket.world == old(bucket.world)
    ensures !r.Crashed? ==> Lookup(seen, Report(id)) == Some(found)
    ensures !r.Crashed? ==> Lookup(seen, Sidecar(id)) == Lookup(bucket.world.objects, Sidecar(id))
    ensures |bucket.schedule| >= |old(bucket.schedule)| - 1
    ensures |old(bucket.schedule)| >= 1 ==> !r.Crashed?
  {
    ghost var start := bucket.Now();
    seen := map[Report(id) := found];
    var sidecar := bucket.Get(Sidecar(id));
    VersionsStay(seen, start.world, bucket.world);
    if sidecar.Crashed? {
      return Crashed, seen;
    }
    if sidecar.value.None? {
      return Got(Flawed(Issue(id, "sidecar-disappeared-during-preflight"))), seen;
    }
    seen := seen[Sidecar(id) := sidecar.value.value];
    if sidecar.value.value.body.text.None? {
      return Failed, seen;
    }
    r := Got(Planning(id, found, Some(sidecar.value.value), planner));
  }

  /** Reads one report and, if it was listed, its sidecar. */
  method ReadEntry(bucket: Bucket, id: ReportId, keys: set<Key>, planner: Planner)
      returns (r: Reply<Entry>, ghost seen: map<Key, Stored>)
    requires bucket.Ready()
    modifies bucket`world, bucket`schedule
    ensures Progress(old(bucket.Now()), bucket.Now())
    ensures seen.Keys <= {Report(id), Sidecar(id)} && InHistory(seen, bucket.world.history)
    ensures r.Got? ==> r.value == EntryOf(id, keys, seen, planner) && r.value != Unreadable
    ensures r.Failed? ==> EntryOf(id, keys, seen, planner) == Unreadable
    ensures !r.Conflict?
    ensures Quiet(old(bucket.schedule)) ==> bucket.world == old(bucket.world)
    ensures Quiet(old(bucket.schedule)) && !r.Crashed? ==>
      EntryOf(id, keys, seen, planner) == EntryOf(id, keys, bucket.world.objects, planner)
    ensures |bucket.schedule| >= |old(bucket.schedule)| - 2
    ensures |old(bucket.schedule)| >= 2 ==> !r.Crashed?
  {
    ghost var start := bucket.Now();
    seen := map[];
    var report := bucket.Get(Report(id));
    ghost var middle := bucket.Now();
    if report.Crashed? {
      return Crashed, seen;
    }
    if report.value.None? {
      return Got(Flawed(Issue(id, "report-disappeared-during-preflight"))), seen;
    }
    seen := map[Report(id) := report.value.value];
    if report.value.value.body.text.None? {
      return Failed, seen;
    }
    if Sidecar(id) !in keys {
      return Got(Planning(id, report.value.value, None, planner)), seen;
    }
    r, seen := ReadListedSidecar(bucket, id, report.value.value, keys, planner);
    ProgressIsTransitive(start, middle, bucket.Now());
    if Quiet(start.left) && !r.Crashed? { EntryOfSameViews(id, keys, seen, bucket.world.objects, planner); }
  }

  lemma EntryOfSameViews(id: ReportId, keys: set<Key>, a: map<Key, Stored>, b: map<Key, Stored>, planner: Planner)
    requires Lookup(a, Report(id)) == Lookup(b, Report(id)) && Lookup(a, Sidecar(id)) == Lookup(b, Sidecar(id))
    ensures EntryOf(id, keys, a, planner) == EntryOf(id, keys, b, planner)
  {
  }

  /** The first `n` reports have been planned from `seen`, and nothing of the others has been read. */
  ghost predicate PlannedSoFar(done: seq<Entry>, ids: seq<ReportId>, n: nat, keys: set<Key>, seen: map<Key, Stored>,
                               planner: Planner)
    requires n <= |ids|
  {
    && |done| == n
    && (forall j :: 0 <= j < n ==> done[j] == EntryOf(ids[j], keys, seen, planner))
    && (forall j :: n <= j < |ids| ==> Report(ids[j]) !in seen && Sidecar(ids[j]) !in seen)
  }

  lemma PlanOneMore(done: seq<Entry>, ids: seq<ReportId>, n: nat, keys: set<Key>, seen: map<Key, Stored>,
                    more: map<Key, Stored>, entry: Entry, planner: Planner)
    requires n < |ids| && (forall i, j :: 0 <= i < j < |ids| ==> ids[i] < ids[j])
    requires PlannedSoFar(done, ids, n, keys, seen, planner)
    requires more.Keys <= {Report(ids[n]), Sidecar(ids[n])} && entry == EntryOf(ids[n], keys, more, planner)
    ensures PlannedSoFar(done + [entry], ids, n + 1, keys, seen + more, planner)
  {
    forall j | 0 <= j < n
      ensures EntryOf(ids[j], keys, seen + more, planner) == done[j]
    {
      EntryOfSameViews(ids[j], keys, seen + more, seen, planner);
    }
    EntryOfSameViews(ids[n], keys, seen + more, more, planner);
  }

  ghost predicate SameSoFar(ids: seq<ReportId>, n: nat, keys: set<Key>, a: map<Key, Stored>, b: map<Key, Stored>,
                            planner: Planner)
    requires n <= |ids|
  {
    forall j :: 0 <= j < n ==> EntryOf(ids[j], keys, a, planner) == EntryOf(ids[j], keys, b, planner)
  }

  lemma RecordsAppend(done: seq<Entry>, entry: Entry)
    ensures Records(done + [entry]) == Records(done) + if entry.Readable? then [entry.record] else []
    ensures Issues(done + [entry]) == Issues(done) + if entry.Flawed? then [entry.issue] else []
  {
    assert (done + [entry])[..|done|] == done;
  }

  /** What preflight knows after `n` reports; undisturbed, what it read is what is there. */
  ghost predicate Surveying(start: Moment, now: Moment, keys: set<Key>, n: nat, seen: map<Key, Stored>, done: seq<Entry>,
                            planner: Planner)
    requires n <= |Ascending(Ids(keys))|
  {
    && Progress(start, now) && InHistory(seen, now.world.history)
    && PlannedSoFar(done, Ascending(Ids(keys)), n, keys, seen, planner) && Unreadable !in done
    && (Quiet(start.left) ==> now.world == start.world)
    && (Quiet(start.left) ==> SameSoFar(Ascending(Ids(keys)), n, keys, seen, start.world.objects, planner))
    && |now.left| >= |start.left| - 2 * n
  }

  lemma SurveyingOneMore(start: Moment, middle: Moment, now: Moment, keys: set<Key>, n: nat, seen: map<Key, Stored>,
                         more: map<Key, Stored>, done: seq<Entry>, entry: Entry, planner: Planner)
    requires n < |Ascending(Ids(keys))| && Surveying(start, middle, keys, n, seen, done, planner)
    requires Progress(middle, now) && InHistory(more, now.world.history)
    requires more.Keys <= {Report(Ascending(Ids(keys))[n]), Sidecar(Ascending(Ids(keys))[n])}
    requires entry == EntryOf(Ascending(Ids(keys))[n], keys, more, planner) != Unreadable
    requires Quiet(middle.left) ==> now.world == middle.world
    requires Quiet(middle.left) ==> entry == EntryOf(Ascending(Ids(keys))[n], keys, now.world.objects, planner)
    requires |now.left| >= |middle.left| - 2
    ensures Surveying(start, now, keys, n + 1, seen + more, done + [entry], planner)
  {
    var ids := Ascending(Ids(keys));
    ProgressIsTransitive(start, middle, now);
    VersionsStay(seen, middle.world, now.world);
    VersionsJoin(seen, more, now.world.history);
    AscendingAscends(Ids(keys));
    PlanOneMore(done, ids, n, keys, seen, more, entry, planner);
    if Quiet(start.left) {
      SameOneMore(done, ids, n, keys, seen, more, entry, start.world.objects, planner);
    }
  }

  lemma SurveyingEnds(start: Moment, now: Moment, keys: set<Key>, seen: map<Key, Stored>, done: seq<Entry>, planner: Planner)
    requires Surveying(start, now, keys, |Ascending(Ids(keys))|, seen, done, planner)
    ensures Survey(keys, seen, planner) == Some(Preflight(keys, Unplaced(keys), Records(done), Issues(done)))
    ensures Quiet(start.left) ==> Survey(keys, start.world.objects, planner) == Survey(keys, seen, planner)
  {
    assert done == Entries(keys, seen, planner);
    if Quiet(start.left) {
      assert done == Entries(keys, start.world.objects, planner);
    }
  }

  /** Every listed report in turn. */
  method ReadAll(bucket: Bucket, keys: set<Key>, planner: Planner) returns (r: Reply<Preflight>, ghost seen: map<Key, Stored>)
    requires bucket.Ready()
    modifies bucket`world, bucket`schedule
    ensures Progress(old(bucket.Now()), bucket.Now()) && InHistory(seen, bucket.world.history)
    ensures r.Got? ==> r.value.keys == keys && Survey(keys, seen, planner) == Some(r.value)
    ensures !r.Conflict?
    ensures Quiet(old(bucket.schedule)) ==> bucket.world == old(bucket.world)
    ensures Quiet(old(bucket.schedule)) && r.Got? ==> Survey(keys, bucket.world.objects, planner) == Some(r.value)
    ensures Quiet(old(bucket.schedule)) && r.Failed? ==> Survey(keys, bucket.world.objects, planner) == None
    ensures |bucket.schedule| >= |old(bucket.schedule)| - 2 * |Ascending(Ids(keys))|
    ensures |old(bucket.schedule)| >= 2 * |Ascending(Ids(keys))| ==> !r.Crashed?
  {
    ghost var start := bucket.Now();
    seen := map[];
    var ids := Ascending(Ids(keys));
    ghost var done: seq<Entry> := [];
    var records: seq<Record> := [];
    var issues: seq<Issue> := [];
    for i := 0 to |ids|
      invariant Surveying(start, bucket.Now(), keys, i, seen, done, planner)
      invariant records == Records(done) && issues == Issues(done)
    {
      ghost var middle := bucket.Now();
      var entry: Reply<Entry>;
      ghost var more: map<Key, Stored>;
      entry, more := ReadEntry(bucket, ids[i], keys, planner);
      if !entry.Got? {
        ProgressIsTransitive(start, middle, bucket.Now());
        VersionsStay(seen, middle.world, bucket.world);
        if entry.Crashed? {
          return Crashed, seen;
        }
        if Quiet(start.left) {
          FlawIsSurveyed(i, keys, bucket.world.objects, planner);
        }
        return Failed, seen;
      }
      SurveyingOneMore(start, middle, bucket.Now(), keys, i, seen, more, done, entry.value, planner);
      RecordsAppend(done, entry.value);
      seen := seen + more;
      done := done + [entry.value];
      if entry.value.Readable? {
        records := records + [entry.value.record];
      } else {
        issues := issues + [entry.value.issue];
      }
    }
    SurveyingEnds(start, bucket.Now(), keys, seen, done, planner);
    r := Got(Preflight(keys, Unplaced(keys), records, issues));
  }

  /** Operations that one survey of `objects` may take. */
  function SurveyTurns(objects: map<Key, Stored>): nat {
    1 + 2 * |Ascending(Ids(objects.Keys))|
  }

  /** `seen` is what preflight read, each object at its own moment. */
  method PreflightAll(bucket: Bucket, planner: Planner) returns (r: Reply<Preflight>, ghost seen: map<Key, Stored>)
    requires bucket.Ready()
    modifies bucket`world, bucket`schedule
    ensures Progress(old(bucket.Now()), bucket.Now())
    ensures InHistory(seen, bucket.world.history)
    ensures r.Got? ==> Survey(r.value.keys, seen, planner) == Some(r.value)
    ensures !r.Conflict?
    ensures Quiet(old(bucket.schedule)) ==> bucket.world == old(bucket.world)
    ensures Quiet(old(bucket.schedule)) && !r.Crashed? ==>
      r == match Survey(bucket.world.objects.Keys, bucket.world.objects, planner) case Some(p) => Got(p) case None => Failed
    ensures Quiet(old(bucket.schedule)) ==> |bucket.schedule| >= |old(bucket.schedule)| - SurveyTurns(bucket.world.objects)
    ensures Quiet(old(bucket.schedule)) && |old(bucket.schedule)| >= SurveyTurns(bucket.world.objects) ==> !r.Crashed?
  {
    ghost var start := bucket.Now();
    var listing := bucket.List();
    if listing.Crashed? {
      return Crashed, map[];
    }
    ghost var listed := bucket.Now();
    r, seen := ReadAll(bucket, listing.value, planner);
    ProgressIsTransitive(start, listed, bucket.Now());
  }

  lemma FlawIsSurveyed(i: nat, keys: set<Key>, view: map<Key, Stored>, planner: Planner)
    requires i < |Ascending(Ids(keys))| && EntryOf(Ascending(Ids(keys))[i], keys, view, planner) == Unreadable
    ensures Survey(keys, view, planner).None?
  {
    assert Entries(keys, view, planner)[i] == Unreadable;
  }

  lemma SameOneMore(done: seq<Entry>, ids: seq<ReportId>, n: nat, keys: set<Key>, seen: map<Key, Stored>,
                    more: map<Key, Stored>, entry: Entry, objects: map<Key, Stored>, planner: Planner)
    requires n < |ids| && PlannedSoFar(done, ids, n, keys, seen, planner)
    requires PlannedSoFar(done + [entry], ids, n + 1, keys, seen + more, planner)
    requires entry == EntryOf(ids[n], keys, objects, planner)
    requires SameSoFar(ids, n, keys, seen, objects, planner)
    ensures SameSoFar(ids, n + 1, keys, seen + more, objects, planner)
  {
    assert forall j :: 0 <= j < n ==> (done + [entry])[j] == done[j];
  }
}
