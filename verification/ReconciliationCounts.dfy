/**
 How many unforced attempts fit between settlement and deadline. An attempt that runs to its own end
 costs its backoff, one that the timer cuts short costs its turn's window and the rest of a second,
 one that is lost with its turn costs the window, and one that is reset costs a whole second.
 */
module ReconciliationCounts {
  import opened Wrappers
  import opened Reconciliation
  import opened ReconciliationTurns

  /** Unforced attempts by how they ended; resets are counted apart. */
  datatype Tally = Tally(completed: nat, timedOut: nat, lost: nat)

  const NONE := Tally(0, 0, 0)

  function Plus(n: Tally, outcome: Outcome): Tally {
    match outcome
    case Retryable => n.(completed := n.completed + 1)
    case Transitioned => n.(completed := n.completed + 1)
    case TimedOut => n.(timedOut := n.timedOut + 1)
    case Lost => n.(lost := n.lost + 1)
    case Reset => n
  }

  function PlusAttempt(n: Tally, a: Attempt): Tally {
    if a.Unforced? then Plus(n, a.outcome) else n
  }

  /** `n` and the attempts. */
  function Tallied(n: Tally, attempts: seq<Attempt>): Tally
    decreases |attempts|
  {
    if attempts == [] then n else Tallied(PlusAttempt(n, attempts[0]), attempts[1..])
  }

  function TallyOf(attempts: seq<Attempt>): Tally {
    Tallied(NONE, attempts)
  }

  function Total(n: Tally): nat {
    n.completed + n.timedOut + n.lost
  }

  // ---- When an attempt can be listed ----

  /** The backoff of the first `n` completed attempts. */
  function TotalDelay(n: nat): int {
    if n == 0 then 0 else TotalDelay(n - 1) + Delay(n)
  }

  lemma {:induction false} TotalDelayClosedForm(n: nat)
    requires 2 <= n
    ensures TotalDelay(n) == 20_000 + 60_000 * (n - 2)
  {
    if n == 2 {
      assert TotalDelay(1) == 5_000;
    } else {
      TotalDelayClosedForm(n - 1);
    }
  }

  lemma {:induction false} TotalDelayGrows(a: nat, b: nat)
    requires a <= b
    ensures TotalDelay(a) <= TotalDelay(b)
    decreases b - a
  {
    if a < b { TotalDelayGrows(a, b - 1); }
  }

  lemma {:induction false} TotalDelayIsWhole(n: nat)
    ensures TotalDelay(n) % 1000 == 0
  {
    if n > 0 { TotalDelayIsWhole(n - 1); }
  }

  /** The whole second of `t`. */
  function SecondOf(t: int): int {
    t / 1000 * 1000
  }

  /** When the job can be listed again at the earliest. The first time-out moves everything to whole seconds. */
  function Earliest(job: Job, n: Tally): int {
    (if n.timedOut == 0 then SettlementAt(job) else SecondOf(SettlementAt(job)))
    + TotalDelay(n.completed) + 31_000 * n.timedOut + WINDOW_MS * n.lost
  }

  lemma SecondOfShifts(t: int, whole: int)
    requires whole % 1000 == 0
    ensures SecondOf(t + whole) == SecondOf(t) + whole && NextSecond(t + whole) == SecondOf(t) + whole + 1000
    ensures SecondOf(SecondOf(t)) == SecondOf(t) <= t < SecondOf(t) + 1000
  {
  }

  /** One more time-out: its window, and then the next whole second. */
  lemma TimeOutCosts(job: Job, n: Tally)
    ensures NextSecond(Earliest(job, n) + WINDOW_MS) == Earliest(job, Plus(n, TimedOut))
  {
    TotalDelayIsWhole(n.completed);
    var base := if n.timedOut == 0 then SettlementAt(job) else SecondOf(SettlementAt(job));
    var whole := TotalDelay(n.completed) + 31_000 * n.timedOut + WINDOW_MS * n.lost + WINDOW_MS;
    SecondOfShifts(base, whole);
    SecondOfShifts(SettlementAt(job), whole);
  }

  function NextListing(job: Job, life: Life): int {
    Max(life.ready, if Matches(job, life) then life.row.value.nextAt else SettlementAt(job))
  }

  /** The row counts the completed attempts, and the job is not listed again before it can be. */
  predicate Counts(job: Job, life: Life, n: Tally) {
    && (if n.completed == 0 then !Matches(job, life)
        else Matches(job, life) && life.row.value.attempt == n.completed && SettlementAt(job) <= life.row.value.nextAt)
    && Min(Earliest(job, n), job.deadlineAt) <= NextListing(job, life)
  }

  lemma ListedLater(job: Job, life: Life, n: Tally, a: Attempt)
    requires Counts(job, life, n) && MayAttempt(job, life, a) && a.Unforced?
    ensures Earliest(job, n) <= a.turn < job.deadlineAt && SettlementAt(job) <= a.turn
  {
  }

  lemma AttemptCounts(job: Job, life: Life, n: Tally, a: Attempt)
    requires Counts(job, life, n) && MayAttempt(job, life, a) && !AfterAttempt(job, life, a).terminal
    ensures Counts(job, AfterAttempt(job, life, a), PlusAttempt(n, a))
  {
    if a.Unforced? {
      ListedLater(job, life, n, a);
      if a.outcome.TimedOut? {
        TimeOutCosts(job, n);
        NextSecondGrows(Earliest(job, n) + WINDOW_MS, a.end);
      }
    }
  }

  // ---- Which numbers fit ----

  /** One of the attempts beyond `n` comes last, and is listed before the deadline. */
  predicate FitsBeyond(job: Job, n: Tally, m: Tally) {
    || m == n
    || (m.completed > n.completed && Earliest(job, m.(completed := m.completed - 1)) < job.deadlineAt)
    || (m.timedOut > n.timedOut && Earliest(job, m.(timedOut := m.timedOut - 1)) < job.deadlineAt)
    || (m.lost > n.lost && Earliest(job, m.(lost := m.lost - 1)) < job.deadlineAt)
  }

  predicate Fits(job: Job, m: Tally) {
    FitsBeyond(job, NONE, m)
  }

  predicate Within(n: Tally, m: Tally) {
    n.completed <= m.completed && n.timedOut <= m.timedOut && n.lost <= m.lost
  }

  lemma {:induction false} TalliedGrows(n: Tally, attempts: seq<Attempt>)
    ensures Within(n, Tallied(n, attempts))
    decreases |attempts|
  {
    if attempts != [] { TalliedGrows(PlusAttempt(n, attempts[0]), attempts[1..]); }
  }

  /** If nothing further fits, the attempt itself comes last. */
  lemma FirstOrLater(job: Job, n: Tally, a: Attempt, m: Tally)
    requires a.Unforced? ==> Earliest(job, n) < job.deadlineAt
    requires Within(PlusAttempt(n, a), m) && FitsBeyond(job, PlusAttempt(n, a), m)
    ensures FitsBeyond(job, n, m)
  {
  }

  lemma {:induction false} AttemptsFit(job: Job, life: Life, n: Tally, attempts: seq<Attempt>)
    requires !life.terminal && Counts(job, life, n) && LegalLife(job, life, attempts)
    ensures FitsBeyond(job, n, Tallied(n, attempts))
    decreases |attempts|
  {
    if attempts != [] {
      var a := attempts[0];
      var next, more := AfterAttempt(job, life, a), PlusAttempt(n, a);
      if a.Unforced? { ListedLater(job, life, n, a); }
      TalliedGrows(more, attempts[1..]);
      if next.terminal {
        NothingAfterTerminal(job, next, attempts[1..]);
      } else {
        AttemptCounts(job, life, n, a);
        AttemptsFit(job, next, more, attempts[1..]);
      }
      FirstOrLater(job, n, a, Tallied(more, attempts[1..]));
    }
  }

  /** A job that was never tried in this generation, before its settlement. */
  predicate Untried(job: Job, life: Life) {
    !life.terminal && !Matches(job, life) && life.ready <= SettlementAt(job)
  }

  lemma UntriedFits(job: Job, life: Life, attempts: seq<Attempt>)
    requires Untried(job, life) && LegalLife(job, life, attempts)
    ensures Fits(job, TallyOf(attempts))
  {
    AttemptsFit(job, life, NONE, attempts);
  }

  /** An outcome that is still missing from `m`, and not `last` while there is another. */
  function NextOutcome(n: Tally, m: Tally, last: Outcome): Outcome {
    if n.completed < m.completed && !last.Retryable? then Retryable
    else if n.timedOut < m.timedOut && !last.TimedOut? then TimedOut
    else if n.lost < m.lost && !last.Lost? then Lost
    else last
  }

  /** `m` without one attempt that ended as `last`, if it has any beyond `n`. */
  predicate EndsWith(n: Tally, m: Tally, last: Outcome, before: Tally) {
    (last.Retryable? || last.TimedOut? || last.Lost?) && Within(n, before) && m == Plus(before, last)
  }

  lemma {:induction false} EarliestWithin(job: Job, n: Tally, m: Tally)
    requires Within(n, m)
    ensures Earliest(job, n) <= Earliest(job, m)
  {
    TotalDelayGrows(n.completed, m.completed);
    SecondOfShifts(SettlementAt(job), 0);
  }

  /** The attempt listed at the earliest, and cut short or over as early as can be. */
  function Prompt(at: int, outcome: Outcome): Attempt {
    Unforced(at, at, at, if outcome.TimedOut? || outcome.Lost? then at + WINDOW_MS else at, outcome)
  }

  lemma PromptAttempt(job: Job, life: Life, n: Tally, outcome: Outcome)
    requires !life.terminal && Counts(job, life, n) && NextListing(job, life) == Earliest(job, n) < job.deadlineAt
    requires outcome.Retryable? || outcome.TimedOut? || outcome.Lost?
    ensures var a := Prompt(Earliest(job, n), outcome);
      var next := AfterAttempt(job, life, a);
      MayAttempt(job, life, a) && !next.terminal && Counts(job, next, Plus(n, outcome)) &&
      (Earliest(job, Plus(n, outcome)) < job.deadlineAt ==> NextListing(job, next) == Earliest(job, Plus(n, outcome)))
  {
    var a := Prompt(Earliest(job, n), outcome);
    assert MayAttempt(job, life, a);
    AttemptCounts(job, life, n, a);
    TimeOutCosts(job, n);
  }

  /** Attempts made back to back, each listed as early as can be. */
  lemma {:induction false} Tightest(job: Job, life: Life, n: Tally, m: Tally, last: Outcome, before: Tally) returns (attempts: seq<Attempt>)
    requires !life.terminal && Counts(job, life, n) && NextListing(job, life) == Earliest(job, n)
    requires EndsWith(n, m, last, before) && Earliest(job, before) < job.deadlineAt
    ensures LegalLife(job, life, attempts) && Tallied(n, attempts) == m
    decreases Total(m) - Total(n)
  {
    EarliestWithin(job, n, before);
    var outcome := NextOutcome(n, m, last);
    var a := Prompt(Earliest(job, n), outcome);
    var next := AfterAttempt(job, life, a);
    PromptAttempt(job, life, n, outcome);
    var rest := [];
    if n != before {
      EarliestWithin(job, Plus(n, outcome), before);
      rest := Tightest(job, next, Plus(n, outcome), m, last, before);
    }
    attempts := [a] + rest;
    assert attempts[1..] == rest;
  }

  lemma FittingExists(job: Job, life: Life, m: Tally) returns (attempts: seq<Attempt>)
    requires Untried(job, life) && Fits(job, m)
    ensures LegalLife(job, life, attempts) && TallyOf(attempts) == m
  {
    if m == NONE {
      attempts := [];
    } else if m.completed > 0 && Earliest(job, m.(completed := m.completed - 1)) < job.deadlineAt {
      attempts := Tightest(job, life, NONE, m, Retryable, m.(completed := m.completed - 1));
    } else if m.timedOut > 0 && Earliest(job, m.(timedOut := m.timedOut - 1)) < job.deadlineAt {
      attempts := Tightest(job, life, NONE, m, TimedOut, m.(timedOut := m.timedOut - 1));
    } else {
      attempts := Tightest(job, life, NONE, m, Lost, m.(lost := m.lost - 1));
    }
  }

  /**
   Main result: exactly the numbers of completed, timed-out and lost attempts that leave the last one to
   be listed before the deadline can be reached, whatever else happens in between.
   */
  lemma AttemptsIff(job: Job, life: Life, m: Tally)
    requires Untried(job, life)
    ensures (exists attempts :: LegalLife(job, life, attempts) && TallyOf(attempts) == m) <==> Fits(job, m)
  {
    forall attempts | LegalLife(job, life, attempts) && TallyOf(attempts) == m
      ensures Fits(job, m)
    {
      UntriedFits(job, life, attempts);
    }
    if Fits(job, m) {
      var attempts := FittingExists(job, life, m);
    }
  }

  // ---- How many in all ----

  /** From settlement to deadline. */
  function Available(job: Job): int {
    job.deadlineAt - SettlementAt(job)
  }

  /** The least time that `n` attempts cost: two backoffs are shorter than the window, the others are not. */
  function LeastCost(n: nat): int {
    if n <= 2 then TotalDelay(n) else 20_000 + WINDOW_MS * (n - 2)
  }

  lemma ShortDelays()
    ensures TotalDelay(0) == 0 && TotalDelay(1) == 5_000 && TotalDelay(2) == 20_000
  {
    assert TotalDelay(1) == 5_000;
  }

  /** From the third on, a backoff costs more than a window. */
  lemma {:induction false} DelaysCost(c: nat)
    ensures 20_000 + 30_000 * (c - 2) <= TotalDelay(c) && 20_000 + 31_000 * (c - 2) <= TotalDelay(c)
  {
    ShortDelays();
    if c > 2 { TotalDelayClosedForm(c); }
  }

  lemma LeastCostIsLeast(job: Job, m: Tally)
    ensures SettlementAt(job) + LeastCost(Total(m)) <= Earliest(job, m)
  {
    ShortDelays();
    DelaysCost(m.completed);
    SecondOfShifts(SettlementAt(job), 0);
  }

  lemma LeastCostGrows(a: nat, b: nat)
    requires a <= b
    ensures LeastCost(a) <= LeastCost(b)
  {
    ShortDelays();
  }

  lemma FitsInTime(job: Job, m: Tally) returns (before: Tally)
    requires Fits(job, m) && m != NONE
    ensures Total(before) == Total(m) - 1 && before.lost <= m.lost && before.completed >= m.completed - 1
    ensures Earliest(job, before) < job.deadlineAt
  {
    if m.completed > 0 && Earliest(job, m.(completed := m.completed - 1)) < job.deadlineAt {
      before := m.(completed := m.completed - 1);
    } else if m.timedOut > 0 && Earliest(job, m.(timedOut := m.timedOut - 1)) < job.deadlineAt {
      before := m.(timedOut := m.timedOut - 1);
    } else {
      before := m.(lost := m.lost - 1);
    }
  }

  predicate Makes(job: Job, life: Life, attempts: seq<Attempt>, n: nat) {
    LegalLife(job, life, attempts) && Total(TallyOf(attempts)) == n
  }

  lemma FittingCosts(job: Job, m: Tally)
    requires Fits(job, m) && m != NONE
    ensures LeastCost(Total(m) - 1) < Available(job)
  {
    var before := FitsInTime(job, m);
    LeastCostIsLeast(job, before);
  }

  /** The cheapest attempts: two completed, and the others cut short, each `lost` with its turn or not. */
  function Cheapest(n: nat, lost: bool): Tally {
    var others := if n <= 2 then 0 else n - 2;
    Tally(n - others, if lost then 0 else others, if lost then others else 0)
  }

  lemma CheapestCost(job: Job, n: nat)
    ensures Earliest(job, Cheapest(n, true)) == SettlementAt(job) + LeastCost(n)
    ensures Earliest(job, Cheapest(n, false)) == SoonestKept(job, n)
  {
    ShortDelays();
  }

  lemma CheapestFit(job: Job, life: Life, n: nat, lost: bool) returns (attempts: seq<Attempt>)
    requires Untried(job, life) && n > 0 && Earliest(job, Cheapest(n - 1, lost)) < job.deadlineAt
    ensures LegalLife(job, life, attempts) && Total(TallyOf(attempts)) == n
    ensures !lost ==> TallyOf(attempts).lost == 0
  {
    var before := Cheapest(n - 1, lost);
    attempts := FittingExists(job, life, Plus(before, Retryable));
  }

  /** Main result: `n` unforced attempts that no reset cuts short fit exactly when the cheapest way to make them does. */
  lemma UnforcedIff(job: Job, life: Life, n: nat)
    requires Untried(job, life)
    ensures (exists attempts :: Makes(job, life, attempts, n))
      <==> (n == 0 || LeastCost(n - 1) < Available(job))
  {
    var time := Available(job);
    forall attempts | Makes(job, life, attempts, n)
      ensures n == 0 || LeastCost(n - 1) < time
    {
      UntriedFits(job, life, attempts);
      if n > 0 { FittingCosts(job, TallyOf(attempts)); }
    }
    if n == 0 {
      assert Makes(job, life, [], n);
    } else if LeastCost(n - 1) < time {
      CheapestCost(job, n - 1);
      var attempts := CheapestFit(job, life, n, true);
      assert Makes(job, life, attempts, n);
    }
  }

  lemma HalfMinuteEach(n: nat, time: int)
    requires n > 0 ==> LeastCost(n - 1) < time
    requires 0 <= time
    ensures n <= 3 + time / WINDOW_MS
  {
    ShortDelays();
    if n > 3 { assert WINDOW_MS * (n - 3) < time; }
  }

  lemma FittingTotal(job: Job, m: Tally, n: nat, time: int)
    requires Fits(job, m) && n == Total(m) && time == Available(job)
    ensures n <= 3 + time / WINDOW_MS
  {
    if n > 0 { FittingCosts(job, m); }
    HalfMinuteEach(n, time);
  }

  /** Hence at most three, and one more for every half minute from settlement to deadline. */
  lemma AtMostThreePlusOnePerHalfMinute(job: Job, life: Life, attempts: seq<Attempt>)
    requires Untried(job, life) && LegalLife(job, life, attempts)
    ensures Total(TallyOf(attempts)) <= 3 + Available(job) / WINDOW_MS
  {
    UntriedFits(job, life, attempts);
    FittingTotal(job, TallyOf(attempts), Total(TallyOf(attempts)), Available(job));
  }

  lemma FittingCompleted(job: Job, m: Tally)
    requires Fits(job, m)
    ensures m.completed <= 3 + Available(job) / 60_000
  {
    if m.completed > 3 {
      var before := FitsInTime(job, m);
      CompletedBefore(job, m, before);
    }
  }

  /** Attempts that ran to their own end keep the bound of the backoff: one more for every minute. */
  lemma AtMostThreePlusOnePerMinute(job: Job, life: Life, attempts: seq<Attempt>)
    requires Untried(job, life) && LegalLife(job, life, attempts)
    ensures TallyOf(attempts).completed <= 3 + Available(job) / 60_000
  {
    UntriedFits(job, life, attempts);
    FittingCompleted(job, TallyOf(attempts));
  }

  lemma CompletedBefore(job: Job, m: Tally, before: Tally)
    requires m.completed > 3 && Total(before) == Total(m) - 1 && before.completed >= m.completed - 1
    ensures Earliest(job, before) >= SettlementAt(job) + 20_000 + 60_000 * (m.completed - 3)
  {
    TotalDelayClosedForm(m.completed - 1);
    TotalDelayGrows(m.completed - 1, before.completed);
    SecondOfShifts(SettlementAt(job), 0);
  }

  /**
   Main result: attempts that the timer cuts short break the bound of the backoff exactly when the deadline
   is more than 50 s and less than a minute after settlement, or more than 80 s after it.
   */
  lemma MinuteBoundFailsIff(job: Job, life: Life)
    requires Untried(job, life)
    ensures var time := Available(job);
      (exists attempts :: LegalLife(job, life, attempts) && Total(TallyOf(attempts)) > 3 + time / 60_000)
      <==> 50_000 < time < 60_000 || 80_000 < time
  {
    var time := Available(job);
    var n := 4 + time / 60_000;
    UnforcedIff(job, life, n);
    assert LeastCost(n - 1) < time <==> 50_000 < time < 60_000 || 80_000 < time;
    forall attempts | LegalLife(job, life, attempts) && Total(TallyOf(attempts)) >= n
      ensures LeastCost(n - 1) < time
    {
      var m := Total(TallyOf(attempts));
      UntriedFits(job, life, attempts);
      FittingCosts(job, TallyOf(attempts));
      LeastCostGrows(n - 1, m - 1);
    }
  }

  // ---- The same when every turn lives to leave its successor ----

  predicate Kept(attempts: seq<Attempt>) {
    TallyOf(attempts).lost == 0
  }

  /** When attempt `n + 1` can be listed if no turn is lost: then the successor waits for the next whole second. */
  function SoonestKept(job: Job, n: nat): int {
    if n <= 2 then SettlementAt(job) + TotalDelay(n) else SecondOf(SettlementAt(job)) + 20_000 + 31_000 * (n - 2)
  }

  lemma SoonestKeptIsSoonest(job: Job, m: Tally)
    requires m.lost == 0
    ensures SoonestKept(job, Total(m)) <= Earliest(job, m)
  {
    ShortDelays();
    DelaysCost(m.completed);
    SecondOfShifts(SettlementAt(job), 0);
  }

  lemma SoonestKeptGrows(job: Job, a: nat, b: nat)
    requires a <= b
    ensures SoonestKept(job, a) <= SoonestKept(job, b)
  {
    ShortDelays();
    SecondOfShifts(SettlementAt(job), 0);
  }

  lemma FittingKeptCosts(job: Job, m: Tally)
    requires Fits(job, m) && m != NONE && m.lost == 0
    ensures SoonestKept(job, Total(m) - 1) < job.deadlineAt
  {
    var before := FitsInTime(job, m);
    SoonestKeptIsSoonest(job, before);
  }

  /** Main result: how many unforced attempts fit when no isolate ends between a time-out and the end of its turn. */
  lemma KeptIff(job: Job, life: Life, n: nat)
    requires Untried(job, life)
    ensures (exists attempts :: Makes(job, life, attempts, n) && Kept(attempts))
      <==> (n == 0 || SoonestKept(job, n - 1) < job.deadlineAt)
  {
    forall attempts | Makes(job, life, attempts, n) && Kept(attempts)
      ensures n == 0 || SoonestKept(job, n - 1) < job.deadlineAt
    {
      UntriedFits(job, life, attempts);
      if n > 0 { FittingKeptCosts(job, TallyOf(attempts)); }
    }
    if n == 0 {
      assert Makes(job, life, [], n) && Kept([]);
    } else if SoonestKept(job, n - 1) < job.deadlineAt {
      CheapestCost(job, n - 1);
      var attempts := CheapestFit(job, life, n, false);
      assert Makes(job, life, attempts, n) && Kept(attempts);
    }
  }

  /** Main result: then the thresholds are 51 s and 82 s, from the whole second of the settlement on. */
  lemma KeptMinuteBoundFailsIff(job: Job, life: Life)
    requires Untried(job, life)
    ensures var time, since := Available(job), job.deadlineAt - SecondOf(SettlementAt(job));
      (exists attempts :: LegalLife(job, life, attempts) && Kept(attempts) && Total(TallyOf(attempts)) > 3 + time / 60_000)
      <==> (time < 60_000 && 51_000 < since) || 82_000 < since
  {
    var time, since := Available(job), job.deadlineAt - SecondOf(SettlementAt(job));
    var n := 4 + time / 60_000;
    KeptIff(job, life, n);
    SecondOfShifts(SettlementAt(job), 0);
    assert SoonestKept(job, n - 1) < job.deadlineAt <==> (time < 60_000 && 51_000 < since) || 82_000 < since;
    forall attempts | LegalLife(job, life, attempts) && Kept(attempts) && Total(TallyOf(attempts)) >= n
      ensures SoonestKept(job, n - 1) < job.deadlineAt
    {
      var m := Total(TallyOf(attempts));
      UntriedFits(job, life, attempts);
      FittingKeptCosts(job, TallyOf(attempts));
      SoonestKeptGrows(job, n - 1, m - 1);
    }
  }

  // ---- Attempts cut short by a reset ----

  function Resets(attempts: seq<Attempt>): nat
    decreases |attempts|
  {
    if attempts == [] then 0 else (if attempts[0].Unforced? && attempts[0].outcome.Reset? then 1 else 0) + Resets(attempts[1..])
  }

  /** How many whole seconds begin before the deadline, the one of `t` included. */
  function SecondsFrom(job: Job, t: int): int {
    (job.deadlineAt - 1) / 1000 - t / 1000 + 1
  }

  /** How often a job can be reset in the middle of an attempt from `ready` on. */
  function ResetRoom(job: Job, ready: int): int {
    if job.deadlineAt <= Max(ready, SettlementAt(job)) then 0
    else if SettlementAt(job) <= ready then SecondsFrom(job, ready)
    else SecondsFrom(job, SettlementAt(job)) + if ready / 1000 < SettlementAt(job) / 1000 then 1 else 0
  }

  lemma RoomShrinks(job: Job, ready: int, later: int)
    requires ready <= later
    ensures 0 <= ResetRoom(job, later) <= ResetRoom(job, ready)
  {
  }

  lemma ResetTakesRoom(job: Job, ready: int, entry: int, end: int)
    requires ready <= entry && entry <= end && SettlementAt(job) <= end && Max(entry, SettlementAt(job)) < job.deadlineAt
    ensures ResetRoom(job, Max(end, NextSecond(entry))) + 1 <= ResetRoom(job, ready)
  {
    RoomShrinks(job, ready, entry);
  }

  lemma {:induction false} ResetsFit(job: Job, life: Life, attempts: seq<Attempt>)
    requires LegalLife(job, life, attempts)
    ensures Resets(attempts) <= ResetRoom(job, life.ready)
    decreases |attempts|
  {
    if attempts == [] {
      RoomShrinks(job, life.ready, life.ready);
    } else {
      var a := attempts[0];
      var next := AfterAttempt(job, life, a);
      if next.terminal {
        NothingAfterTerminal(job, next, attempts[1..]);
        RoomShrinks(job, life.ready, life.ready);
      } else {
        ResetsFit(job, next, attempts[1..]);
        if a.Unforced? && a.outcome.Reset? {
          ResetTakesRoom(job, life.ready, a.entry, a.end);
        } else if InNewTurn(life, a) {
          RoomShrinks(job, life.ready, next.ready);
        } else {
          assert job.deadlineAt <= next.ready;
          RoomShrinks(job, life.ready, life.ready);
        }
      }
    }
  }

  lemma {:induction false} ResetsEverySecond(job: Job, life: Life, n: nat) returns (attempts: seq<Attempt>)
    requires !life.terminal && !Matches(job, life) && n <= ResetRoom(job, life.ready)
    ensures LegalLife(job, life, attempts) && |attempts| == n == Resets(attempts)
    decreases n
  {
    if n == 0 {
      attempts := [];
    } else {
      var at := Max(life.ready, SettlementAt(job));
      var a := Unforced(life.ready, at, at, at, Reset);
      assert MayAttempt(job, life, a);
      var rest := ResetsEverySecond(job, AfterAttempt(job, life, a), n - 1);
      attempts := [a] + rest;
      assert attempts[1..] == rest;
    }
  }

  /** Main result: resets are paced by the successor rows: one for every whole second before the deadline, and no more. */
  lemma ResetsIff(job: Job, life: Life, n: nat)
    requires !life.terminal && !Matches(job, life)
    ensures (exists attempts :: LegalLife(job, life, attempts) && Resets(attempts) == n) <==> n <= ResetRoom(job, life.ready)
  {
    forall attempts | LegalLife(job, life, attempts) && Resets(attempts) == n
      ensures n <= ResetRoom(job, life.ready)
    {
      ResetsFit(job, life, attempts);
    }
    if n <= ResetRoom(job, life.ready) {
      var attempts := ResetsEverySecond(job, life, n);
    }
  }

  function AllUnforced(attempts: seq<Attempt>): nat
    decreases |attempts|
  {
    if attempts == [] then 0 else (if attempts[0].Unforced? then 1 else 0) + AllUnforced(attempts[1..])
  }

  lemma {:induction false} UnforcedPartition(n: Tally, attempts: seq<Attempt>)
    ensures Total(n) + AllUnforced(attempts) == Total(Tallied(n, attempts)) + Resets(attempts)
    decreases |attempts|
  {
    if attempts != [] { UnforcedPartition(PlusAttempt(n, attempts[0]), attempts[1..]); }
  }

  /** So the unforced attempts of every life are bounded, however they end. */
  lemma UnforcedAreBounded(job: Job, life: Life, attempts: seq<Attempt>)
    requires Untried(job, life) && LegalLife(job, life, attempts)
    ensures AllUnforced(attempts) <= 3 + Available(job) / WINDOW_MS + ResetRoom(job, life.ready)
  {
    UnforcedPartition(NONE, attempts);
    AtMostThreePlusOnePerHalfMinute(job, life, attempts);
    ResetsFit(job, life, attempts);
  }
}
