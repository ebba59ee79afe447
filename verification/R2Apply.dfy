/**
 The barrier before the first write, the conditional writes of one report, and their readback.
 */
module R2Apply {
  import opened Wrappers
  import opened R2Bucket
  import opened R2Remediation

  // ---- What a survey says of its records ----

  ghost predicate DescribesEntry(record: Record, keys: set<Key>, view: map<Key, Stored>, planner: Planner) {
    && record.id in Ids(keys)
    && EntryOf(record.id, keys, view, planner) == Readable(record)
  }

  lemma EntryIsPlanned(record: Record, keys: set<Key>, view: map<Key, Stored>, planner: Planner)
    requires DescribesEntry(record, keys, view, planner)
    ensures PlannedFrom(record, view, planner) && (record.sidecar.Some? <==> Sidecar(record.id) in keys)
  {
  }

  /** Records stand in the order of their reports, none after `last`, and each describes one. */
  ghost predicate Described(records: seq<Record>, keys: set<Key>, view: map<Key, Stored>, planner: Planner, last: ReportId) {
    && (forall i :: 0 <= i < |records| ==> DescribesEntry(records[i], keys, view, planner) && records[i].id <= last)
    && (forall i, j :: 0 <= i < j < |records| ==> records[i].id < records[j].id)
  }

  lemma DescribedAppends(records: seq<Record>, record: Record, keys: set<Key>, view: map<Key, Stored>, planner: Planner,
                         last: ReportId)
    requires Described(records, keys, view, planner, last) && last < record.id && DescribesEntry(record, keys, view, planner)
    ensures Described(records + [record], keys, view, planner, record.id)
  {
  }

  lemma DescribedLater(records: seq<Record>, keys: set<Key>, view: map<Key, Stored>, planner: Planner, last: ReportId, later: ReportId)
    requires Described(records, keys, view, planner, last) && last < later
    ensures Described(records, keys, view, planner, later)
  {
  }

  lemma EntryNamesItsReport(id: ReportId, keys: set<Key>, view: map<Key, Stored>, planner: Planner)
    ensures EntryOf(id, keys, view, planner).Readable? ==> EntryOf(id, keys, view, planner).record.id == id
  {
  }

  lemma EntryDescribes(keys: set<Key>, view: map<Key, Stored>, planner: Planner, n: nat)
    requires n < |Entries(keys, view, planner)| && Entries(keys, view, planner)[n].Readable?
    ensures var record := Entries(keys, view, planner)[n].record;
      DescribesEntry(record, keys, view, planner) && record.id == Ascending(Ids(keys))[n]
  {
    var id := Ascending(Ids(keys))[n];
    assert id in Ascending(Ids(keys));
    EntryNamesItsReport(id, keys, view, planner);
  }

  lemma {:induction false} RecordsDescribe(keys: set<Key>, view: map<Key, Stored>, planner: Planner, n: nat)
    requires 0 < n <= |Entries(keys, view, planner)|
    ensures Described(Records(Entries(keys, view, planner)[..n]), keys, view, planner, Ascending(Ids(keys))[n - 1])
  {
    var entries, ids := Entries(keys, view, planner), Ascending(Ids(keys));
    var before, entry := entries[..n - 1], entries[n - 1];
    AscendingAscends(Ids(keys));
    assert entries[..n] == before + [entry];
    RecordsAppend(before, entry);
    if entry.Readable? { EntryDescribes(keys, view, planner, n - 1); }
    if n > 1 {
      RecordsDescribe(keys, view, planner, n - 1);
      if entry.Readable? {
        DescribedAppends(Records(before), entry.record, keys, view, planner, ids[n - 2]);
      } else {
        DescribedLater(Records(before), keys, view, planner, ids[n - 2], ids[n - 1]);
      }
    }
  }

  lemma SurveyDescribes(keys: set<Key>, view: map<Key, Stored>, planner: Planner, p: Preflight)
    requires Survey(keys, view, planner) == Some(p)
    ensures forall i :: 0 <= i < |p.records| ==> DescribesEntry(p.records[i], keys, view, planner)
    ensures forall i, j :: 0 <= i < j < |p.records| ==> p.records[i].id < p.records[j].id
    ensures AllPlannedFrom(p.records, view, planner)
  {
    var entries := Entries(keys, view, planner);
    if entries != [] { RecordsDescribe(keys, view, planner, |entries|); }
    assert entries[..|entries|] == entries;
    forall i | 0 <= i < |p.records|
      ensures PlannedFrom(p.records[i], view, planner)
    {
      EntryIsPlanned(p.records[i], keys, view, planner);
    }
  }

  lemma {:induction false} NoIssuesMeansAllReadable(entries: seq<Entry>)
    requires Unreadable !in entries && Issues(entries) == []
    ensures |Records(entries)| == |entries| && forall i :: 0 <= i < |entries| ==> entries[i] == Readable(Records(entries)[i])
    decreases |entries|
  {
    if entries != [] {
      NoIssuesMeansAllReadable(entries[..|entries| - 1]);
    }
  }

  /** With no issue, every listed report has its record. */
  lemma CleanSurveyIsComplete(keys: set<Key>, view: map<Key, Stored>, planner: Planner, p: Preflight, id: ReportId)
      returns (i: nat)
    requires Survey(keys, view, planner) == Some(p) && p.issues == [] && id in Ids(keys)
    ensures i < |p.records| && p.records[i].id == id && EntryOf(id, keys, view, planner) == Readable(p.records[i])
  {
    var entries := Entries(keys, view, planner);
    NoIssuesMeansAllReadable(entries);
    assert id in Ascending(Ids(keys));
    i :| 0 <= i < |entries| && Ascending(Ids(keys))[i] == id;
    assert entries[i] == EntryOf(id, keys, view, planner) == Readable(Records(entries)[i]);
    EntryNamesItsReport(id, keys, view, planner);
  }

  // ---- The barrier ----

  /** In `objects`, the report and sidecar of `record` are the very versions it was planned from. */
  ghost predicate Stands(record: Record, seen: map<Key, Stored>, objects: map<Key, Stored>) {
    && Report(record.id) in seen && Lookup(objects, Report(record.id)) == Some(seen[Report(record.id)])
    && Lookup(objects, Sidecar(record.id)) == Version(record, seen)
  }

  /** A version with a known tag, still there later, was there in between. */
  lemma VersionWasThere(snapshot: World, later: World, key: Key, tag: nat)
    requires Valid(later) && Since(snapshot, later) && tag < |snapshot.history|
    requires key in later.objects && later.objects[key].tag == tag
    ensures later.objects[key] == snapshot.history[tag] && Lookup(snapshot.objects, key) == Some(snapshot.history[tag])
  {
  }

  lemma TagsAreKnown(record: Record, seen: map<Key, Stored>, history: seq<Stored>, planner: Planner)
    requires PlannedFrom(record, seen, planner) && InHistory(seen, history)
    ensures record.report == SnapshotOf(seen[Report(record.id)])
    ensures record.report.tag < |history| && history[record.report.tag] == seen[Report(record.id)]
    ensures record.sidecar.Some? ==> record.sidecar.value.tag < |history|
    ensures record.sidecar.Some? ==> Version(record, seen) == Some(history[record.sidecar.value.tag])
    ensures record.sidecar.Some? ==> record.sidecar.value == SnapshotOf(history[record.sidecar.value.tag])
  {
  }

  /** Two reads, `first` taking effect before `second`; `atFirst` and `atSecond` are those moments. */
  method GetInTurn(bucket: Bucket, first: Key, second: Key)
      returns (a: Reply<Option<Stored>>, b: Reply<Option<Stored>>, ghost atFirst: World, ghost atSecond: World)
    requires bucket.Ready()
    modifies bucket`world, bucket`schedule
    ensures Progress(old(bucket.Now()), bucket.Now())
    ensures Quiet(old(bucket.schedule)) ==> old(bucket.world) == atFirst == atSecond == bucket.world
    ensures Valid(atFirst) && Since(old(bucket.world), atFirst)
    ensures Valid(atSecond) && Since(old(bucket.world), atSecond)
    ensures a.Crashed? || b.Crashed? <==> |old(bucket.schedule)| < 2
    ensures !a.Crashed? && !b.Crashed? ==>
      a == Got(Lookup(atFirst.objects, first)) && b == Got(Lookup(atSecond.objects, second))
    ensures |bucket.schedule| >= |old(bucket.schedule)| - 2
  {
    ghost var start := bucket.Now();
    a := bucket.Get(first);
    atFirst := bucket.world;
    ghost var middle := bucket.Now();
    b := bucket.Get(second);
    atSecond := bucket.world;
    ProgressIsTransitive(start, middle, bucket.Now());
  }

  /** Two reads under way at once take effect in either order. */
  method GetBoth(bucket: Bucket, first: Key, second: Key)
      returns (a: Reply<Option<Stored>>, b: Reply<Option<Stored>>, ghost atFirst: World, ghost atSecond: World)
    requires bucket.Ready()
    modifies bucket`world, bucket`schedule
    ensures Progress(old(bucket.Now()), bucket.Now())
    ensures Quiet(old(bucket.schedule)) ==> old(bucket.world) == atFirst == atSecond == bucket.world
    ensures Valid(atFirst) && Since(old(bucket.world), atFirst)
    ensures Valid(atSecond) && Since(old(bucket.world), atSecond)
    ensures a.Crashed? || b.Crashed? <==> |old(bucket.schedule)| < 2
    ensures !a.Crashed? && !b.Crashed? ==>
      a == Got(Lookup(atFirst.objects, first)) && b == Got(Lookup(atSecond.objects, second))
    ensures |bucket.schedule| >= |old(bucket.schedule)| - 2
  {
    var inOrder: bool := *;
    if inOrder {
      a, b, atFirst, atSecond := GetInTurn(bucket, first, second);
    } else {
      b, a, atSecond, atFirst := GetInTurn(bucket, second, first);
    }
  }

  /** One record checked again; `snapshot` is any moment after it was planned and before the check. */
  method Recheck(bucket: Bucket, record: Record, ghost seen: map<Key, Stored>, ghost planner: Planner,
                 ghost snapshot: World) returns (r: Reply<()>)
    requires bucket.Ready() && PlannedFrom(record, seen, planner)
    requires Valid(snapshot) && Since(snapshot, bucket.world) && InHistory(seen, snapshot.history)
    modifies bucket`world, bucket`schedule
    ensures Progress(old(bucket.Now()), bucket.Now())
    ensures r.Got? ==> Lookup(snapshot.objects, Report(record.id)) == Some(seen[Report(record.id)])
    ensures r.Got? && record.sidecar.Some? ==> Lookup(snapshot.objects, Sidecar(record.id)) == Version(record, seen)
    ensures Quiet(old(bucket.schedule)) ==> bucket.world == old(bucket.world)
    ensures Quiet(old(bucket.schedule)) && Stands(record, seen, old(bucket.world.objects)) ==> r.Crashed? || r == Got(())
    ensures |bucket.schedule| >= |old(bucket.schedule)| - 2
    ensures |old(bucket.schedule)| >= 2 ==> !r.Crashed?
  {
    ghost var start := bucket.world;
    TagsAreKnown(record, seen, snapshot.history, planner);
    var report, sidecar;
    ghost var atReport, atSidecar;
    report, sidecar, atReport, atSidecar := GetBoth(bucket, Report(record.id), Sidecar(record.id));
    if report.Crashed? || sidecar.Crashed? {
      return Crashed;
    }
    SinceIsTransitive(snapshot, start, atReport);
    SinceIsTransitive(snapshot, start, atSidecar);
    if report.value.None? || SnapshotOf(report.value.value) != record.report {
      return Conflict;
    }
    VersionWasThere(snapshot, atReport, Report(record.id), record.report.tag);
    if !SidecarMatches(sidecar.value, record.sidecar) {
      return Conflict;
    }
    if record.sidecar.Some? {
      VersionWasThere(snapshot, atSidecar, Sidecar(record.id), record.sidecar.value.tag);
    }
    r := Got(());
  }

  ghost predicate Founded(p: Preflight, seen: map<Key, Stored>, planner: Planner) {
    && AllPlannedFrom(p.records, seen, planner)
    && forall i :: 0 <= i < |p.records| ==> (p.records[i].sidecar.Some? <==> Sidecar(p.records[i].id) in p.keys)
  }

  lemma SurveyIsFounded(p: Preflight, seen: map<Key, Stored>, planner: Planner)
    requires Survey(p.keys, seen, planner) == Some(p)
    ensures Founded(p, seen, planner)
  {
    SurveyDescribes(p.keys, seen, planner, p);
    forall i | 0 <= i < |p.records|
      ensures p.records[i].sidecar.Some? <==> Sidecar(p.records[i].id) in p.keys
    {
      EntryIsPlanned(p.records[i], p.keys, seen, planner);
    }
  }

  ghost predicate AllStand(p: Preflight, seen: map<Key, Stored>, objects: map<Key, Stored>) {
    objects.Keys == p.keys && forall i :: 0 <= i < |p.records| ==> Stands(p.records[i], seen, objects)
  }

  /** The second look at the prefix. `snapshot` is the bucket at the moment of the second listing. */
  method ConfirmUnchanged(bucket: Bucket, p: Preflight, ghost seen: map<Key, Stored>, ghost planner: Planner)
      returns (r: Reply<()>, ghost snapshot: World)
    requires bucket.Ready() && InHistory(seen, bucket.world.history) && Founded(p, seen, planner)
    modifies bucket`world, bucket`schedule
    ensures Progress(old(bucket.Now()), bucket.Now())
    ensures Valid(snapshot) && Since(old(bucket.world), snapshot) && Since(snapshot, bucket.world)
    ensures r.Got? ==> AllStand(p, seen, snapshot.objects)
    ensures Quiet(old(bucket.schedule)) ==> bucket.world == old(bucket.world)
    ensures Quiet(old(bucket.schedule)) && AllStand(p, seen, old(bucket.world.objects)) ==> r.Crashed? || r == Got(())
    ensures |old(bucket.schedule)| >= 1 + 2 * |p.records| ==> !r.Crashed?
    ensures |bucket.schedule| >= |old(bucket.schedule)| - 1 - 2 * |p.records|
  {
    ghost var start := bucket.Now();
    var listing := bucket.List();
    snapshot := bucket.world;
    if listing.Crashed? {
      return Crashed, snapshot;
    }
    if listing.value != p.keys {
      return Conflict, snapshot;
    }
    ghost var middle := bucket.Now();
    VersionsStay(seen, start.world, snapshot);
    r := RecheckAll(bucket, p, seen, planner);
    ProgressIsTransitive(start, middle, bucket.Now());
  }

  method RecheckAll(bucket: Bucket, p: Preflight, ghost seen: map<Key, Stored>, ghost planner: Planner)
      returns (r: Reply<()>)
    requires bucket.Ready() && InHistory(seen, bucket.world.history)
    requires Founded(p, seen, planner) && bucket.world.objects.Keys == p.keys
    modifies bucket`world, bucket`schedule
    ensures Progress(old(bucket.Now()), bucket.Now())
    ensures r.Got? ==> AllStand(p, seen, old(bucket.world.objects))
    ensures Quiet(old(bucket.schedule)) ==> bucket.world == old(bucket.world)
    ensures Quiet(old(bucket.schedule)) && AllStand(p, seen, old(bucket.world.objects)) ==> r.Crashed? || r == Got(())
    ensures |old(bucket.schedule)| >= 2 * |p.records| ==> !r.Crashed?
    ensures |bucket.schedule| >= |old(bucket.schedule)| - 2 * |p.records|
  {
    ghost var start := bucket.Now();
    for i := 0 to |p.records|
      invariant Progress(start, bucket.Now())
      invariant forall j :: 0 <= j < i ==> Stands(p.records[j], seen, start.world.objects)
      invariant Quiet(start.left) ==> bucket.world == start.world
      invariant |bucket.schedule| >= |start.left| - 2 * i
    {
      ghost var middle := bucket.Now();
      var checked := Recheck(bucket, p.records[i], seen, planner, start.world);
      ProgressIsTransitive(start, middle, bucket.Now());
      if !checked.Got? {
        return checked;
      }
    }
    r := Got(());
  }

  /** Two equal collections around one moment are what a survey of that moment would find. */
  lemma BarrierIsASnapshot(p: Preflight, seen: map<Key, Stored>, objects: map<Key, Stored>, planner: Planner)
    requires Survey(p.keys, seen, planner) == Some(p) && Clean(p) && AllStand(p, seen, objects)
    ensures Survey(objects.Keys, objects, planner) == Some(p)
  {
    var ids := Ascending(Ids(p.keys));
    SurveyDescribes(p.keys, seen, planner, p);
    forall i | 0 <= i < |ids|
      ensures EntryOf(ids[i], p.keys, objects, planner) == EntryOf(ids[i], p.keys, seen, planner)
    {
      assert ids[i] in ids;
      var j := CleanSurveyIsComplete(p.keys, seen, planner, p, ids[i]);
      assert Stands(p.records[j], seen, objects);
      EntryIsPlanned(p.records[j], p.keys, seen, planner);
    }
    assert Entries(p.keys, objects, planner) == Entries(p.keys, seen, planner);
  }
}
