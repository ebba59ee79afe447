/**
 Publication reconciliation: when a publishing job is due, what an attempt stores, and which wake is
 computed. Times are milliseconds.
 */
module Reconciliation {
  import opened Wrappers

  type JobId = nat

  const SETTLEMENT_MS := 30_000

  /** A job in state `publishing`: its lease expiry is known and its generation is fixed. */
  datatype Job = Job(id: JobId, generation: nat, leaseExpiresAt: int, deadlineAt: int)

  datatype Backoff = Backoff(generation: nat, attempt: nat, nextAt: int)

  type Table = map<JobId, Backoff>

  function Min(a: int, b: int): int { if a <= b then a else b }

  function SettlementAt(job: Job): int {
    Min(job.leaseExpiresAt + SETTLEMENT_MS, job.deadlineAt)
  }

  function Row(table: Table, job: Job): Option<Backoff> {
    if job.id in table then Some(table[job.id]) else None
  }

  /** `reconciliationIsDue`. */
  predicate IsDue(job: Job, row: Option<Backoff>, now: int) {
    SettlementAt(job) <= now &&
    (row.None? || row.value.generation != job.generation || row.value.nextAt <= now || job.deadlineAt <= now)
  }

  /** One job's term of the `MIN` in `scheduleNextDurablePump`. */
  function WakeOf(job: Job, row: Option<Backoff>, now: int): int {
    if row.Some? && row.value.generation == job.generation && now < row.value.nextAt
    then Min(row.value.nextAt, job.deadlineAt)
    else Min(job.leaseExpiresAt + SETTLEMENT_MS, job.deadlineAt)
  }

  /** The same job's term in `parkDisabledDurablePump`, which takes the deadline last. */
  function ParkedWakeOf(job: Job, row: Option<Backoff>, now: int): int {
    Min(if row.Some? && row.value.generation == job.generation && now < row.value.nextAt
        then row.value.nextAt
        else Min(job.leaseExpiresAt + SETTLEMENT_MS, job.deadlineAt),
        job.deadlineAt)
  }

  function PublishingWake(jobs: seq<Job>, table: Table, now: int): Option<int> {
    if jobs == [] then None
    else
      var first := WakeOf(jobs[0], Row(table, jobs[0]), now);
      match PublishingWake(jobs[1..], table, now)
      case None => Some(first)
      case Some(rest) => Some(Min(first, rest))
  }

  function Delay(attempt: nat): int {
    if attempt == 1 then 5_000 else if attempt == 2 then 15_000 else 60_000
  }

  function NextAttempt(job: Job, row: Option<Backoff>): nat {
    if row.Some? && row.value.generation == job.generation then row.value.attempt + 1 else 1
  }

  /** `recordDurableReconciliationBackoff`. */
  function Recorded(job: Job, row: Option<Backoff>, now: int): Backoff {
    var attempt := NextAttempt(job, row);
    Backoff(job.generation, attempt, Min(now + Delay(attempt), job.deadlineAt))
  }

  /** A matching row was recorded by an attempt that was itself due. */
  predicate RowAfterSettlement(job: Job, row: Option<Backoff>) {
    row.Some? && row.value.generation == job.generation ==> SettlementAt(job) <= row.value.nextAt
  }

  class BackoffStore {
    var rows: Table

    constructor ()
      ensures rows == map[]
    {
      rows := map[];
    }

    method ReconciliationIsDue(job: Job, now: int) returns (due: bool)
      ensures due == IsDue(job, Row(rows, job), now)
    {
      if now < SettlementAt(job) { return false; }
      if job.id !in rows { return true; }
      var row := rows[job.id];
      due := row.generation != job.generation || row.nextAt <= now || job.deadlineAt <= now;
    }

    method Record(job: Job, now: int)
      modifies this
      ensures rows == old(rows)[job.id := Recorded(job, Row(old(rows), job), now)]
    {
      var attempt := 1;
      if job.id in rows && rows[job.id].generation == job.generation {
        attempt := rows[job.id].attempt + 1;
      }
      var delay := if attempt == 1 then 5_000 else if attempt == 2 then 15_000 else 60_000;
      rows := rows[job.id := Backoff(job.generation, attempt, Min(now + delay, job.deadlineAt))];
    }

    method Clear(id: JobId)
      modifies this
      ensures rows == old(rows) - {id}
    {
      rows := rows - {id};
    }

    /** Rows that no publishing job of their own generation owns are orphans. */
    method Prune(publishing: map<JobId, nat>)
      modifies this
      ensures forall id :: id in rows <==> id in old(rows) && id in publishing && publishing[id] == old(rows)[id].generation
      ensures forall id :: id in rows ==> rows[id] == old(rows)[id]
    {
      rows := map id | id in rows && id in publishing && publishing[id] == rows[id].generation :: rows[id];
    }

    /** The aggregate of the publishing query, row by row. */
    method WakeForPublishing(jobs: seq<Job>, now: int) returns (wake: Option<int>)
      ensures wake == PublishingWake(jobs, rows, now)
    {
      wake := None;
      var i := |jobs|;
      while 0 < i
        invariant 0 <= i <= |jobs|
        invariant wake == PublishingWake(jobs[i..], rows, now)
      {
        i := i - 1;
        assert jobs[i..][1..] == jobs[i + 1..];
        var one := WakeOf(jobs[i], Row(rows, jobs[i]), now);
        wake := if wake.None? then Some(one) else Some(Min(one, wake.value));
      }
      assert jobs[0..] == jobs;
    }
  }

  // ---- The wake agrees with the due test ----

  /** Main result: the wake is never after the deadline, and from now on due means exactly: the wake has come. */
  lemma WakeIsFirstDue(job: Job, row: Option<Backoff>, now: int)
    requires RowAfterSettlement(job, row)
    ensures WakeOf(job, row, now) <= job.deadlineAt
    ensures forall t :: now <= t ==> (IsDue(job, row, t) <==> WakeOf(job, row, now) <= t)
  {
  }

  /** Even with an arbitrary stored row, no due time is slept through. */
  lemma WakeIsNeverLate(job: Job, row: Option<Backoff>, now: int, t: int)
    requires now <= t && IsDue(job, row, t)
    ensures WakeOf(job, row, now) <= t && WakeOf(job, row, now) <= job.deadlineAt
  {
  }

  lemma ParkedWakeAgrees(job: Job, row: Option<Backoff>, now: int)
    ensures ParkedWakeOf(job, row, now) == WakeOf(job, row, now)
  {
  }

  predicate AnyDue(jobs: seq<Job>, table: Table, t: int) {
    exists i :: 0 <= i < |jobs| && IsDue(jobs[i], Row(table, jobs[i]), t)
  }

  /** Main result: at any later time some publishing job is due exactly when the aggregate wake has come. */
  lemma {:induction false} PublishingWakeIsFirstDue(jobs: seq<Job>, table: Table, now: int, t: int)
    requires forall i :: 0 <= i < |jobs| ==> RowAfterSettlement(jobs[i], Row(table, jobs[i]))
    requires now <= t
    ensures PublishingWake(jobs, table, now).None? <==> jobs == []
    ensures AnyDue(jobs, table, t) <==>
      PublishingWake(jobs, table, now).Some? && PublishingWake(jobs, table, now).value <= t
  {
    if jobs != [] {
      var rest := jobs[1..];
      PublishingWakeIsFirstDue(rest, table, now, t);
      WakeIsFirstDue(jobs[0], Row(table, jobs[0]), now);
      assert AnyDue(jobs, table, t) <==> IsDue(jobs[0], Row(table, jobs[0]), t) || AnyDue(rest, table, t) by {
        if i :| 0 <= i < |jobs| && IsDue(jobs[i], Row(table, jobs[i]), t) {
          if i > 0 { assert IsDue(rest[i - 1], Row(table, rest[i - 1]), t); }
        }
        if i :| 0 <= i < |rest| && IsDue(rest[i], Row(table, rest[i]), t) {
          assert IsDue(jobs[i + 1], Row(table, jobs[i + 1]), t);
        }
      }
    }
  }
}
