/**
 What a run that stopped anywhere has left behind, from the one fact that its writes are a beginning
 of the planned ones.
 */
module R2Crash {
  import opened Wrappers
  import opened R2Bucket
  import opened R2Remediation
  import opened R2Cuts

  // ---- Which versions are replaced ----

  /** `write` belongs to `record` and replaces exactly the version recorded for that key, or nothing. */
  ghost predicate OverPreflightVersion(write: Write, record: Record, seen: map<Key, Stored>) {
    || (write.key == Report(record.id) && write.previous.Some? && write.previous.value.tag == record.report.tag &&
        write.previous == Lookup(seen, write.key))
    || (write.key == Sidecar(record.id) && record.sidecar.Some? && write.previous.Some? &&
        write.previous.value.tag == record.sidecar.value.tag && write.previous == Lookup(seen, write.key))
    || (write.key == Sidecar(record.id) && record.sidecar.None? && write.previous.None?)
  }

  lemma {:induction false} NothingNewerIsOverwritten(records: seq<Record>, n: nat, seen: map<Key, Stored>, planner: Planner,
                                                     k: nat)
    requires n <= |records| && AllPlannedFrom(records, seen, planner) && k < |AllWrites(records, n, seen, planner)|
    ensures exists i :: 0 <= i < n && OverPreflightVersion(AllWrites(records, n, seen, planner)[k], records[i], seen)
  {
    var earlier := AllWrites(records, n - 1, seen, planner);
    if k < |earlier| {
      NothingNewerIsOverwritten(records, n - 1, seen, planner, k);
    } else {
      OwnWritesAreOverPreflight(records[n - 1], seen, planner, k - |earlier|);
    }
  }

  lemma OwnWritesAreOverPreflight(record: Record, seen: map<Key, Stored>, planner: Planner, k: nat)
    requires PlannedFrom(record, seen, planner) && k < |Writes(record, seen, planner)|
    ensures OverPreflightVersion(Writes(record, seen, planner)[k], record, seen)
  {
  }

  lemma OwnWritesDiffer(record: Record, seen: map<Key, Stored>, planner: Planner)
    requires PlannedFrom(record, seen, planner)
    ensures forall w :: w in Writes(record, seen, planner) ==> w.key in {Report(record.id), Sidecar(record.id)}
    ensures var own := Writes(record, seen, planner); forall a, b :: 0 <= a < b < |own| ==> own[a].key != own[b].key
  {
  }

  /** Keys of the planned writes belong to the records they were planned for. */
  lemma {:induction false} WritesHaveOwners(records: seq<Record>, n: nat, seen: map<Key, Stored>, planner: Planner, key: Key)
    requires n <= |records| && AllPlannedFrom(records, seen, planner)
    requires forall i :: 0 <= i < n && records[i].action == Rewrite ==> key !in {Report(records[i].id), Sidecar(records[i].id)}
    ensures forall w :: w in AllWrites(records, n, seen, planner) ==> w.key != key
  {
    if n > 0 {
      WritesHaveOwners(records, n - 1, seen, planner, key);
      OwnWritesDiffer(records[n - 1], seen, planner);
    }
  }

  // ---- Which contents are left ----

  lemma {:induction false} OverlayLeavesOthers(bodies: map<Key, Body>, writes: seq<Write>, key: Key)
    requires forall w :: w in writes ==> w.key != key
    ensures Lookup(Overlay(bodies, writes), key) == Lookup(bodies, key)
    decreases |writes|
  {
    if writes != [] {
      OverlayLeavesOthers(bodies, writes[..|writes| - 1], key);
      assert writes[|writes| - 1] in writes;
    }
  }

  ghost predicate Ordered(records: seq<Record>) {
    forall i, j :: 0 <= i < j < |records| ==> records[i].id < records[j].id
  }

  lemma LaterRecordUntouched(records: seq<Record>, n: nat, i: nat, seen: map<Key, Stored>, planner: Planner,
                             before: map<Key, Body>, writes: seq<Write>)
    requires n <= i < |records| && Ordered(records) && AllPlannedFrom(records, seen, planner)
    requires writes <= AllWrites(records, n, seen, planner)
    ensures Untouched(records[i].id, before, Overlay(before, writes))
  {
    WritesHaveOwners(records, n, seen, planner, Report(records[i].id));
    WritesHaveOwners(records, n, seen, planner, Sidecar(records[i].id));
    assert forall w :: w in writes ==> w in AllWrites(records, n, seen, planner);
    OverlayLeavesOthers(before, writes, Report(records[i].id));
    OverlayLeavesOthers(before, writes, Sidecar(records[i].id));
  }

  lemma OtherRecordUntouched(record: Record, other: ReportId, seen: map<Key, Stored>, planner: Planner,
                             before: map<Key, Body>, writes: seq<Write>)
    requires PlannedFrom(record, seen, planner) && writes <= Writes(record, seen, planner) && other != record.id
    ensures Untouched(other, before, Overlay(before, writes))
  {
    OwnWritesDiffer(record, seen, planner);
    assert forall w :: w in writes ==> w in Writes(record, seen, planner);
    OverlayLeavesOthers(before, writes, Report(other));
    OverlayLeavesOthers(before, writes, Sidecar(other));
  }

  lemma OwnWritesComplete(record: Record, seen: map<Key, Stored>, planner: Planner, before: map<Key, Body>)
    requires PlannedFrom(record, seen, planner)
    ensures Completed(record, seen, planner, before, Overlay(before, Writes(record, seen, planner)))
  {
    var own := Writes(record, seen, planner);
    if record.action == Rewrite {
      var plan := RecordPlan(record, seen, planner);
      var last := own[|own| - 1];
      assert last == SidecarWrite(record, plan, seen);
      if record.reportWriteRequired {
        assert own[..1] == [ReportWrite(record, plan, seen)];
        OverlayOne(before, ReportWrite(record, plan, seen));
      } else {
        assert own[..0] == [];
      }
    }
  }

  lemma OwnWritesInterrupted(record: Record, seen: map<Key, Stored>, planner: Planner, before: map<Key, Body>, writes: seq<Write>)
    requires PlannedFrom(record, seen, planner) && writes <= Writes(record, seen, planner)
    ensures OneOfThree(record, seen, planner, before, Overlay(before, writes))
  {
    var own := Writes(record, seen, planner);
    if |writes| == |own| {
      assert writes == own;
      OwnWritesComplete(record, seen, planner, before);
    } else if writes != [] {
      var plan := RecordPlan(record, seen, planner);
      assert writes == [ReportWrite(record, plan, seen)];
      OverlayOne(before, ReportWrite(record, plan, seen));
    }
  }

  lemma AllWritesAppend(records: seq<Record>, n: nat, seen: map<Key, Stored>, planner: Planner, before: map<Key, Body>)
    requires n < |records| && AllPlannedFrom(records, seen, planner)
    ensures Overlay(before, AllWrites(records, n + 1, seen, planner)) ==
      Overlay(Overlay(before, AllWrites(records, n, seen, planner)), Writes(records[n], seen, planner))
  {
    OverlayAppends(before, AllWrites(records, n, seen, planner), Writes(records[n], seen, planner));
  }

  lemma OneMoreCompletes(records: seq<Record>, n: nat, seen: map<Key, Stored>, planner: Planner, before: map<Key, Body>,
                         a: map<Key, Body>, b: map<Key, Body>)
    requires n < |records| && Ordered(records) && AllPlannedFrom(records, seen, planner)
    requires a == Overlay(before, AllWrites(records, n, seen, planner)) && b == Overlay(a, Writes(records[n], seen, planner))
    ensures StepDone(records, n, seen, planner, before, a, b)
  {
    LaterRecordUntouched(records, n, n, seen, planner, before, AllWrites(records, n, seen, planner));
    OwnWritesComplete(records[n], seen, planner, a);
    CompletedFromUntouched(records[n], seen, planner, before, a, b);
    forall i | 0 <= i < n
      ensures Untouched(records[i].id, a, b)
    {
      OtherRecordUntouched(records[n], records[i].id, seen, planner, a, Writes(records[n], seen, planner));
    }
  }

  /** The contents of the bucket after each record's writes. */
  ghost function States(records: seq<Record>, n: nat, seen: map<Key, Stored>, planner: Planner, before: map<Key, Body>)
      : (states: seq<map<Key, Body>>)
    requires n <= |records| && AllPlannedFrom(records, seen, planner)
    ensures |states| == n + 1 && forall m :: 0 <= m <= n ==> states[m] == Overlay(before, AllWrites(records, m, seen, planner))
  {
    seq(n + 1, m requires 0 <= m <= n => Overlay(before, AllWrites(records, m, seen, planner)))
  }

  lemma WritesStepByStep(records: seq<Record>, n: nat, seen: map<Key, Stored>, planner: Planner, before: map<Key, Body>)
    requires n <= |records| && Ordered(records) && AllPlannedFrom(records, seen, planner)
    ensures StepByStep(records, n, seen, planner, before, States(records, n, seen, planner, before))
  {
    var states := States(records, n, seen, planner, before);
    forall m | 0 <= m < n
      ensures StepDone(records, m, seen, planner, before, states[m], states[m + 1])
    {
      AllWritesAppend(records, m, seen, planner, before);
      OneMoreCompletes(records, m, seen, planner, before, states[m], states[m + 1]);
    }
  }

  lemma AllWritesComplete(records: seq<Record>, n: nat, seen: map<Key, Stored>, planner: Planner, before: map<Key, Body>)
    requires n <= |records| && Ordered(records) && AllPlannedFrom(records, seen, planner)
    ensures AllCompleted(records, n, seen, planner, before, Overlay(before, AllWrites(records, n, seen, planner)))
  {
    WritesStepByStep(records, n, seen, planner, before);
    CompletedChain(records, n, seen, planner, before, States(records, n, seen, planner, before));
  }

  /** What the writes of record `n` do not touch: everything completed before it. */
  lemma EarlierStayCompleted(records: seq<Record>, n: nat, seen: map<Key, Stored>, planner: Planner,
                             before: map<Key, Body>, middle: map<Key, Body>, part: seq<Write>)
    requires n < |records| && Ordered(records) && AllPlannedFrom(records, seen, planner)
    requires AllCompleted(records, n, seen, planner, before, middle) && part <= Writes(records[n], seen, planner)
    ensures AllCompleted(records, n, seen, planner, before, Overlay(middle, part))
  {
    forall i | 0 <= i < n
      ensures Completed(records[i], seen, planner, before, Overlay(middle, part))
    {
      OtherRecordUntouched(records[n], records[i].id, seen, planner, middle, part);
      CompletedStays(records[i], seen, planner, before, middle, Overlay(middle, part));
    }
  }

  lemma LaterStayUntouched(records: seq<Record>, n: nat, seen: map<Key, Stored>, planner: Planner, before: map<Key, Body>,
                           part: seq<Write>)
    requires n < |records| && Ordered(records) && AllPlannedFrom(records, seen, planner)
    requires part <= Writes(records[n], seen, planner)
    ensures AllUntouched(records, n + 1, before, Overlay(Overlay(before, AllWrites(records, n, seen, planner)), part))
  {
    var earlier := AllWrites(records, n, seen, planner);
    forall i | n < i < |records|
      ensures Untouched(records[i].id, before, Overlay(Overlay(before, earlier), part))
    {
      LaterRecordUntouched(records, n, i, seen, planner, before, earlier);
      OtherRecordUntouched(records[n], records[i].id, seen, planner, Overlay(before, earlier), part);
    }
  }

  lemma CompletedFromUntouched(record: Record, seen: map<Key, Stored>, planner: Planner,
                               a: map<Key, Body>, b: map<Key, Body>, c: map<Key, Body>)
    requires PlannedFrom(record, seen, planner) && Untouched(record.id, a, b)
    ensures Completed(record, seen, planner, b, c) ==> Completed(record, seen, planner, a, c)
    ensures OneOfThree(record, seen, planner, b, c) ==> OneOfThree(record, seen, planner, a, c)
  {
  }

  lemma PrefixOfSum(p: seq<Write>, a: seq<Write>, b: seq<Write>)
    requires p <= a + b
    ensures |p| <= |a| ==> p <= a
    ensures |p| > |a| ==> p == a + p[|a|..] && p[|a|..] <= b
  {
    assert (a + b)[..|p|] == p;
  }

  lemma NothingWrittenIsACut(records: seq<Record>, seen: map<Key, Stored>, planner: Planner, before: map<Key, Body>, writes: seq<Write>)
    requires AllPlannedFrom(records, seen, planner) && writes == []
    ensures CutAt(records, 0, seen, planner, before, Overlay(before, writes))
  {
  }

  lemma CutInside(records: seq<Record>, n: nat, seen: map<Key, Stored>, planner: Planner, before: map<Key, Body>,
                  writes: seq<Write>, part: seq<Write>)
    requires n < |records| && Ordered(records) && AllPlannedFrom(records, seen, planner)
    requires part <= Writes(records[n], seen, planner) && writes == AllWrites(records, n, seen, planner) + part
    ensures CutAt(records, n, seen, planner, before, Overlay(before, writes))
  {
    var earlier := AllWrites(records, n, seen, planner);
    var middle := Overlay(before, earlier);
    OverlayAppends(before, earlier, part);
    AllWritesComplete(records, n, seen, planner, before);
    EarlierStayCompleted(records, n, seen, planner, before, middle, part);
    LaterRecordUntouched(records, n, n, seen, planner, before, earlier);
    OwnWritesInterrupted(records[n], seen, planner, middle, part);
    CompletedFromUntouched(records[n], seen, planner, before, middle, Overlay(middle, part));
    LaterStayUntouched(records, n, seen, planner, before, part);
  }

  lemma PrefixOfAllWrites(records: seq<Record>, n: nat, seen: map<Key, Stored>, planner: Planner, writes: seq<Write>)
    requires n < |records| && AllPlannedFrom(records, seen, planner)
    requires writes <= AllWrites(records, n + 1, seen, planner)
    ensures writes <= AllWrites(records, n, seen, planner) || Stops(records, seen, planner, writes)
  {
    var earlier := AllWrites(records, n, seen, planner);
    PrefixOfSum(writes, earlier, Writes(records[n], seen, planner));
    if |writes| > |earlier| { assert StopsIn(records, n, seen, planner, writes, writes[|earlier|..]); }
  }

  /** A beginning of the planned writes ends inside the writes of one record. */
  lemma {:induction false} LastRecordReached(records: seq<Record>, n: nat, seen: map<Key, Stored>, planner: Planner, writes: seq<Write>)
    requires n <= |records| && AllPlannedFrom(records, seen, planner)
    requires writes != [] && writes <= AllWrites(records, n, seen, planner)
    ensures Stops(records, seen, planner, writes)
    decreases n
  {
    PrefixOfAllWrites(records, n - 1, seen, planner, writes);
    if writes <= AllWrites(records, n - 1, seen, planner) { LastRecordReached(records, n - 1, seen, planner, writes); }
  }

  /** Main result on crashes. */
  lemma {:induction false} CrashPointsAreCuts(records: seq<Record>, n: nat, seen: map<Key, Stored>, planner: Planner,
                                              before: map<Key, Body>, writes: seq<Write>) returns (cut: nat)
    requires n <= |records| && Ordered(records) && AllPlannedFrom(records, seen, planner)
    requires writes <= AllWrites(records, n, seen, planner)
    ensures CutAt(records, cut, seen, planner, before, Overlay(before, writes))
  {
    if writes == [] {
      cut := 0;
      NothingWrittenIsACut(records, seen, planner, before, writes);
    } else {
      LastRecordReached(records, n, seen, planner, writes);
      var part;
      cut, part :| StopsIn(records, cut, seen, planner, writes, part);
      CutInside(records, cut, seen, planner, before, writes, part);
    }
  }
}
