/**
 The life of a publishing job under the pump: attempts are made in turns, a turn gives maintenance a
 window of 30 s, and an attempt ends by itself, by that window's timer, or with the isolate.

 A turn lists expired jobs as it starts and tries each once, before its deadline; unless a timer cut it
 short, it then lists the jobs past their deadline. Turns do not overlap.
 */
module ReconciliationTurns {
  import opened Wrappers
  import opened Reconciliation

  /** What a turn's wall time leaves to maintenance. */
  const WINDOW_MS := 30_000

  function Max(a: int, b: int): int { if a < b then b else a }

  /**
   An attempt that its turn's timer cut short, or the end of the isolate, stores nothing. `Lost` is one cut
   short by the timer in a turn that the isolate did not live to end.
   */
  datatype Outcome = Retryable | Transitioned | TimedOut | Lost | Reset

  /** `entry` is when the callback wrote its successor row, `turn` when its turn started. */
  datatype Attempt =
    | Unforced(entry: int, turn: int, start: int, end: int, outcome: Outcome)
    | Forced(entry: int, turn: int, start: int, end: int, outcome: Outcome)

  /** A turn whose deadline phase is still to come, and how far it has got. */
  datatype OpenTurn = OpenTurn(entry: int, turn: int, since: int)

  /** No callback enters before `ready`. */
  datatype Life = Life(row: Option<Backoff>, ready: int, open: Option<OpenTurn>, terminal: bool)

  /** A successor row is due in the whole second after the one it was written in. */
  function NextSecond(t: int): int {
    (t / 1000 + 1) * 1000
  }

  /** When the row that a callback wrote at its entry may run; a turn that yields replaces it as it ends. */
  function Successor(a: Attempt): int {
    Max(a.end, NextSecond(a.entry))
  }

  predicate InNewTurn(life: Life, a: Attempt) {
    life.ready <= a.entry <= a.turn
  }

  predicate InOpenTurn(life: Life, a: Attempt) {
    life.open.Some? && life.open.value.entry == a.entry && life.open.value.turn == a.turn && life.open.value.since <= a.start
  }

  /** The timer of every item fires when the turn's window is over. */
  predicate WithinTurn(a: Attempt) {
    a.turn <= a.start <= a.end && a.start < a.turn + WINDOW_MS && (a.outcome.TimedOut? || a.outcome.Lost? ==> a.turn + WINDOW_MS <= a.end)
  }

  predicate MayAttempt(job: Job, life: Life, a: Attempt) {
    !life.terminal && WithinTurn(a) &&
    match a
    case Unforced(_, turn, start, _, _) => InNewTurn(life, a) && IsDue(job, life.row, turn) && start < job.deadlineAt
    case Forced(_, _, start, _, _) => (InNewTurn(life, a) || InOpenTurn(life, a)) && job.deadlineAt <= start
  }

  function AfterAttempt(job: Job, life: Life, a: Attempt): Life {
    match a.outcome
    case Transitioned => Life(None, a.end, None, true)
    case TimedOut => life.(ready := NextSecond(a.end), open := None)
    case Lost => life.(ready := Successor(a), open := None)
    case Reset => life.(ready := Successor(a), open := None)
    case Retryable =>
      if a.Forced? || job.deadlineAt <= a.end then Life(None, a.end, None, true)
      else Life(Some(Recorded(job, life.row, a.end)), Successor(a), Some(OpenTurn(a.entry, a.turn, a.end)), false)
  }

  predicate LegalLife(job: Job, life: Life, attempts: seq<Attempt>)
    decreases |attempts|
  {
    attempts != [] ==>
      MayAttempt(job, life, attempts[0]) && LegalLife(job, AfterAttempt(job, life, attempts[0]), attempts[1..])
  }

  function EndOfLife(job: Job, life: Life, attempts: seq<Attempt>): Life
    decreases |attempts|
  {
    if attempts == [] then life else EndOfLife(job, AfterAttempt(job, life, attempts[0]), attempts[1..])
  }

  lemma NothingAfterTerminal(job: Job, life: Life, attempts: seq<Attempt>)
    requires life.terminal && LegalLife(job, life, attempts)
    ensures attempts == []
  {
  }

  predicate Matches(job: Job, life: Life) {
    life.row.Some? && life.row.value.generation == job.generation
  }

  // ---- The deadline ends the job ----

  /** An attempt that ran to its own end and found the job published or missing, or past its deadline. */
  predicate Concludes(job: Job, a: Attempt) {
    a.outcome.Transitioned? || (a.outcome.Retryable? && job.deadlineAt <= a.end)
  }

  /** A life ends exactly with an attempt that concludes it, unforced or forced, and no attempt follows. */
  lemma {:induction false} EndsIff(job: Job, life: Life, attempts: seq<Attempt>)
    requires !life.terminal && LegalLife(job, life, attempts)
    ensures forall i :: 0 <= i < |attempts| - 1 ==> !Concludes(job, attempts[i])
    ensures EndOfLife(job, life, attempts).terminal <==> attempts != [] && Concludes(job, attempts[|attempts| - 1])
    decreases |attempts|
  {
    if attempts != [] {
      var a, next := attempts[0], AfterAttempt(job, life, attempts[0]);
      assert next.terminal <==> Concludes(job, a);
      if next.terminal {
        NothingAfterTerminal(job, next, attempts[1..]);
      } else {
        EndsIff(job, next, attempts[1..]);
      }
    }
  }

  /** Every stored row lies at or after settlement, so `WakeIsFirstDue` applies throughout a life. */
  lemma {:induction false} RowsStayAfterSettlement(job: Job, life: Life, attempts: seq<Attempt>)
    requires RowAfterSettlement(job, life.row) && LegalLife(job, life, attempts)
    ensures RowAfterSettlement(job, EndOfLife(job, life, attempts).row)
    decreases |attempts|
  {
    if attempts != [] {
      RowsStayAfterSettlement(job, AfterAttempt(job, life, attempts[0]), attempts[1..]);
    }
  }

  /** A turn that starts at `t` can attempt the job at once. */
  ghost predicate ServedAt(job: Job, life: Life, t: int, forced: bool) {
    exists a :: MayAttempt(job, life, a) && a.entry == a.turn == a.start == t && a.Forced? == forced
  }

  /**
   At every point of every life, a later turn serves the job exactly when the computed wake
   has come - by the expired phase before the deadline, by the deadline phase from then on, never by both.
   */
  lemma ServedIffWakeHasCome(job: Job, life: Life, attempts: seq<Attempt>, t: int)
    requires RowAfterSettlement(job, life.row) && LegalLife(job, life, attempts)
    requires !EndOfLife(job, life, attempts).terminal && EndOfLife(job, life, attempts).ready <= t
    ensures var now := EndOfLife(job, life, attempts);
      && (ServedAt(job, now, t, false) <==> WakeOf(job, now.row, now.ready) <= t < job.deadlineAt)
      && (ServedAt(job, now, t, true) <==> job.deadlineAt <= t)
      && WakeOf(job, now.row, now.ready) <= job.deadlineAt
  {
    var now := EndOfLife(job, life, attempts);
    RowsStayAfterSettlement(job, life, attempts);
    WakeIsFirstDue(job, now.row, now.ready);
    if WakeOf(job, now.row, now.ready) <= t < job.deadlineAt {
      assert MayAttempt(job, now, Unforced(t, t, t, t, Retryable));
    }
    if job.deadlineAt <= t {
      assert MayAttempt(job, now, Forced(t, t, t, t, Retryable));
    }
  }

  // ---- How late the deadline can be kept ----

  /** A turn starts at most `lag` after the job's wake, and what it cut short is over with its window. */
  predicate Punctual(job: Job, life: Life, a: Attempt, lag: nat) {
    (InNewTurn(life, a) ==> a.turn <= Max(life.ready, WakeOf(job, life.row, life.ready)) + lag) && a.end <= a.turn + WINDOW_MS
  }

  predicate PunctualLife(job: Job, life: Life, attempts: seq<Attempt>, lag: nat)
    decreases |attempts|
  {
    attempts != [] ==>
      Punctual(job, life, attempts[0], lag) && PunctualLife(job, AfterAttempt(job, life, attempts[0]), attempts[1..], lag)
  }

  function ForcedAttempts(attempts: seq<Attempt>): nat
    decreases |attempts|
  {
    if attempts == [] then 0 else (if attempts[0].Forced? then 1 else 0) + ForcedAttempts(attempts[1..])
  }

  /** When a job that `k` cut-off forced attempts have left publishing is ready for the next, at the latest. */
  function LateLimit(job: Job, k: nat, lag: nat): int {
    if k == 0 then NextSecond(job.deadlineAt - 1 + WINDOW_MS) else NextSecond(LateLimit(job, k - 1, lag) + lag + WINDOW_MS)
  }

  lemma NextSecondShifts(seconds: int, t: int)
    ensures NextSecond(1000 * seconds + t) == 1000 * seconds + NextSecond(t)
  {
  }

  lemma LateLimitIsWhole(job: Job, k: nat, lag: nat) returns (seconds: int)
    ensures LateLimit(job, k, lag) == 1000 * seconds
  {
    seconds := LateLimit(job, k, lag) / 1000;
  }

  lemma LateLimitStep(job: Job, k: nat, lag: nat)
    ensures LateLimit(job, k + 1, lag) == LateLimit(job, k, lag) + NextSecond(lag) + WINDOW_MS
  {
    var seconds := LateLimitIsWhole(job, k, lag);
    NextSecondShifts(seconds + 30, lag);
  }

  /** Whole seconds all the way: each of the `k` costs its window and a lag rounded up. */
  lemma {:induction false} LateLimitClosedForm(job: Job, k: nat, lag: nat)
    ensures LateLimit(job, k, lag) == NextSecond(job.deadlineAt - 1) + WINDOW_MS + k * (NextSecond(lag) + WINDOW_MS)
  {
    if k == 0 {
      NextSecondShifts(30, job.deadlineAt - 1);
    } else {
      LateLimitClosedForm(job, k - 1, lag);
      LateLimitStep(job, k - 1, lag);
      Distribute(k, NextSecond(lag) + WINDOW_MS);
    }
  }

  lemma Distribute(k: nat, cost: int)
    requires k > 0
    ensures k * cost == (k - 1) * cost + cost
  {
  }

  lemma {:induction false} LimitGrows(job: Job, k: nat, lag: nat)
    ensures NextSecond(job.deadlineAt - 1 + WINDOW_MS) <= LateLimit(job, k, lag) < LateLimit(job, k + 1, lag)
  {
    LateLimitStep(job, k, lag);
    if k > 0 { LimitGrows(job, k - 1, lag); }
  }

  predicate OnTime(job: Job, life: Life, k: nat, lag: nat) {
    life.ready <= LateLimit(job, k, lag) && (life.open.Some? ==> life.open.value.entry <= life.open.value.turn < job.deadlineAt)
  }

  lemma NextSecondGrows(a: int, b: int)
    requires a <= b
    ensures NextSecond(a) <= NextSecond(b)
  {
  }

  /** However it ends, an attempt that leaves the job publishing is over a window and a second after its turn. */
  lemma ReadyWithinWindow(job: Job, life: Life, a: Attempt)
    requires MayAttempt(job, life, a) && a.entry <= a.turn && a.end <= a.turn + WINDOW_MS
    ensures AfterAttempt(job, life, a).ready <= NextSecond(a.turn + WINDOW_MS)
  {
    NextSecondGrows(a.end, a.turn + WINDOW_MS);
    NextSecondGrows(a.entry, a.turn + WINDOW_MS);
  }

  lemma StepStaysOnTime(job: Job, life: Life, a: Attempt, k: nat, lag: nat)
    requires MayAttempt(job, life, a) && Punctual(job, life, a, lag) && OnTime(job, life, k, lag)
    requires !AfterAttempt(job, life, a).terminal
    ensures OnTime(job, AfterAttempt(job, life, a), if a.Forced? then k + 1 else k, lag)
  {
    ReadyWithinWindow(job, life, a);
    LimitGrows(job, k, lag);
    if a.turn < job.deadlineAt {
      NextSecondGrows(a.turn + WINDOW_MS, job.deadlineAt - 1 + WINDOW_MS);
    } else {
      assert WakeOf(job, life.row, life.ready) <= job.deadlineAt;
      NextSecondGrows(a.turn + WINDOW_MS, LateLimit(job, k, lag) + lag + WINDOW_MS);
    }
  }

  /**
   Main result: with turns at most `lag` late, a job that `k` forced attempts have left publishing is
   ready for the next one by `LateLimit`.
   */
  lemma {:induction false} LatenessIsBounded(job: Job, life: Life, attempts: seq<Attempt>, k: nat, lag: nat)
    requires LegalLife(job, life, attempts) && PunctualLife(job, life, attempts, lag) && OnTime(job, life, k, lag)
    requires !EndOfLife(job, life, attempts).terminal
    ensures OnTime(job, EndOfLife(job, life, attempts), k + ForcedAttempts(attempts), lag)
    decreases |attempts|
  {
    if attempts != [] {
      var next := AfterAttempt(job, life, attempts[0]);
      if next.terminal { NothingAfterTerminal(job, next, attempts[1..]); }
      StepStaysOnTime(job, life, attempts[0], k, lag);
      LatenessIsBounded(job, next, attempts[1..], if attempts[0].Forced? then k + 1 else k, lag);
    }
  }

  lemma {:induction false} LateTimeouts(job: Job, life: Life, n: nat, k: nat, lag: nat) returns (attempts: seq<Attempt>)
    requires !life.terminal && life.open.None? && life.ready == LateLimit(job, n, lag)
    ensures LegalLife(job, life, attempts) && PunctualLife(job, life, attempts, lag) && ForcedAttempts(attempts) == k
    ensures EndOfLife(job, life, attempts) == life.(ready := LateLimit(job, n + k, lag))
    decreases k
  {
    if k == 0 {
      attempts := [];
    } else {
      LimitGrows(job, n, lag);
      var turn := life.ready + lag;
      var a := Forced(turn, turn, turn, turn + WINDOW_MS, TimedOut);
      var next := AfterAttempt(job, life, a);
      var rest := LateTimeouts(job, next, n + 1, k - 1, lag);
      attempts := [a] + rest;
      assert attempts[1..] == rest;
    }
  }

  /** The bound is attained, by an expired phase that starts just before the deadline and then `k` late turns. */
  lemma LatenessIsAttained(job: Job, life: Life, k: nat, lag: nat) returns (attempts: seq<Attempt>)
    requires SettlementAt(job) < job.deadlineAt && !life.terminal && !Matches(job, life) && life.ready == job.deadlineAt - 1
    ensures LegalLife(job, life, attempts) && PunctualLife(job, life, attempts, lag) && ForcedAttempts(attempts) == k
    ensures !EndOfLife(job, life, attempts).terminal && EndOfLife(job, life, attempts).ready == LateLimit(job, k, lag)
  {
    var at := life.ready;
    var a := Unforced(at, at, at, at + WINDOW_MS, TimedOut);
    var rest := LateTimeouts(job, AfterAttempt(job, life, a), 0, k, lag);
    attempts := [a] + rest;
    assert attempts[1..] == rest;
  }
}
