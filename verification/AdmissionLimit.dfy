/**
 The two-level sliding window in front of admission. The table is listed in the order of its index:
 by charge time, and among equal times by row id.
 */
module AdmissionLimit {
  const WINDOW_MS := 10_000
  const CLIENT_LIMIT := 10
  const GLOBAL_LIMIT := 100
  const MAX_SAFE_INTEGER := 9_007_199_254_740_991

  datatype Row = Row(client: string, at: nat)

  datatype Decision = Allowed | Refused(retryAfterSeconds: int) | Invalid

  predicate IsHexDigit(c: char) {
    '0' <= c <= '9' || 'a' <= c <= 'f'
  }

  predicate IsClientHash(s: string) {
    |s| == 64 && forall i :: 0 <= i < |s| ==> IsHexDigit(s[i])
  }

  predicate ValidCharge(client: string, now: int) {
    IsClientHash(client) && 0 <= now <= MAX_SAFE_INTEGER
  }

  // ---- The statements on the table ----

  predicate Sorted(rows: seq<Row>) {
    forall i, j :: 0 <= i < j < |rows| ==> rows[i].at <= rows[j].at
  }

  /** How many rows from the front were charged no later than `cutoff`. */
  function Expired(rows: seq<Row>, cutoff: int): (n: nat)
    ensures n <= |rows| && (forall i :: 0 <= i < n ==> rows[i].at <= cutoff) && (n < |rows| ==> rows[n].at > cutoff)
  {
    if rows == [] || rows[0].at > cutoff then 0 else 1 + Expired(rows[1..], cutoff)
  }

  function Least(a: nat, b: nat): nat { if a < b then a else b }

  /** The DELETE removes at most a bounded number of expired rows. */
  function Pruned(rows: seq<Row>, cutoff: int): seq<Row> {
    rows[Least(Expired(rows, cutoff), GLOBAL_LIMIT)..]
  }

  /** The SELECT reads unexpired rows, one more than the ceiling at most. */
  function Selected(rows: seq<Row>, cutoff: int): seq<Row> {
    var live := rows[Expired(rows, cutoff)..];
    live[..Least(|live|, GLOBAL_LIMIT + 1)]
  }

  function OfClient(rows: seq<Row>, client: string): (r: seq<Row>)
    ensures |r| <= |rows|
    decreases |rows|
  {
    if rows == [] then []
    else
      var last := rows[|rows| - 1];
      OfClient(rows[..|rows| - 1], client) + if last.client == client then [last] else []
  }

  /** A new row has the largest id, so it comes after every row of the same time. */
  function Inserted(rows: seq<Row>, row: Row): seq<Row> {
    var n := Expired(rows, row.at);
    rows[..n] + [row] + rows[n..]
  }

  function WaitsFor(events: seq<Row>, limit: nat, now: int): seq<int>
    requires limit > 0
  {
    if |events| >= limit then [events[|events| - limit].at + WINDOW_MS - now] else []
  }

  function Waits(rows: seq<Row>, client: string, now: int): seq<int> {
    WaitsFor(rows, GLOBAL_LIMIT, now) + WaitsFor(OfClient(rows, client), CLIENT_LIMIT, now)
  }

  function Largest(waits: seq<int>): (m: int)
    requires waits != []
    ensures m in waits && forall i :: 0 <= i < |waits| ==> waits[i] <= m
    decreases |waits|
  {
    if |waits| == 1 then waits[0]
    else
      var m := Largest(waits[..|waits| - 1]);
      if m < waits[|waits| - 1] then waits[|waits| - 1] else m
  }

  function CeilSeconds(ms: int): int {
    -((-ms) / 1_000)
  }

  function Charged(rows: seq<Row>, client: string, now: int): (r: (seq<Row>, Decision)) {
    if !ValidCharge(client, now) then (rows, Invalid)
    else
      var pruned := Pruned(rows, now - WINDOW_MS);
      var waits := Waits(Selected(pruned, now - WINDOW_MS), client, now);
      if waits == [] then (Inserted(pruned, Row(client, now)), Allowed) else (pruned, RefusedFor(waits))
  }

  function RefusedFor(waits: seq<int>): Decision
    requires waits != []
  {
    var seconds := CeilSeconds(Largest(waits));
    Refused(if seconds < 1 then 1 else seconds)
  }

  class AdmissionAttempts {
    var rows: seq<Row>

    constructor ()
      ensures rows == []
    {
      rows := [];
    }

    method Charge(client: string, now: int) returns (decision: Decision)
      modifies this
      ensures (rows, decision) == Charged(old(rows), client, now)
    {
      if !ValidCharge(client, now) {
        return Invalid;
      }
      var cutoff := now - WINDOW_MS;
      rows := Pruned(rows, cutoff);
      var waits := CollectWaits(Selected(rows, cutoff), client, now);
      if waits != [] {
        return RefusedFor(waits);
      }
      rows := Inserted(rows, Row(client, now));
      decision := Allowed;
    }
  }

  method CollectWaits(rows: seq<Row>, client: string, now: int) returns (waits: seq<int>)
    ensures waits == Waits(rows, client, now)
  {
    var clientRows := OfClient(rows, client);
    waits := [];
    for k := 0 to 2
      invariant waits == (if k >= 1 then WaitsFor(rows, GLOBAL_LIMIT, now) else []) +
        (if k == 2 then WaitsFor(clientRows, CLIENT_LIMIT, now) else [])
    {
      var (events, limit) := if k == 0 then (rows, GLOBAL_LIMIT) else (clientRows, CLIENT_LIMIT);
      if |events| >= limit {
        waits := waits + [events[|events| - limit].at + WINDOW_MS - now];
      }
    }
  }

  // ---- One charge ----

  lemma {:induction false} ExpiredIsWhole(rows: seq<Row>, cutoff: int)
    requires Sorted(rows)
    ensures forall i :: Expired(rows, cutoff) <= i < |rows| ==> rows[i].at > cutoff
  {
    var n := Expired(rows, cutoff);
    assert n < |rows| ==> forall i :: n < i < |rows| ==> rows[n].at <= rows[i].at;
  }

  lemma InsertedStaysSorted(rows: seq<Row>, row: Row)
    requires Sorted(rows)
    ensures Sorted(Inserted(rows, row)) && |Inserted(rows, row)| == |rows| + 1
  {
    ExpiredIsWhole(rows, row.at);
  }

  ghost predicate Within(rows: seq<Row>) {
    Sorted(rows) && |rows| <= GLOBAL_LIMIT
  }

  /** Whatever the clock does, the table never exceeds the ceiling, and only an admission adds a row. */
  lemma ChargeKeepsTableSmall(rows: seq<Row>, client: string, now: int)
    requires Within(rows)
    ensures Within(Charged(rows, client, now).0)
    ensures Charged(rows, client, now).1 != Allowed ==> |Charged(rows, client, now).0| <= |rows|
    ensures Charged(rows, client, now).1.Refused? ==> Charged(rows, client, now).0 == rows[Expired(rows, now - WINDOW_MS)..]
  {
    if ValidCharge(client, now) {
      PrunedIsLive(rows, now - WINDOW_MS);
      if Charged(rows, client, now).1 == Allowed {
        InsertedStaysSorted(Pruned(rows, now - WINDOW_MS), Row(client, now));
      }
    }
  }

  lemma LiveRowsStay(rows: seq<Row>, cutoff: int)
    requires Sorted(rows)
    ensures var live := rows[Expired(rows, cutoff)..];
      Expired(live, cutoff) == 0 && Sorted(live) && forall i :: 0 <= i < |live| ==> live[i].at > cutoff
  {
    ExpiredIsWhole(rows, cutoff);
  }

  lemma SelectedIsWhole(live: seq<Row>, cutoff: int)
    requires Expired(live, cutoff) == 0 && |live| <= GLOBAL_LIMIT
    ensures Selected(live, cutoff) == live
  {
    assert live[0..] == live;
    assert live[..|live|] == live;
  }

  /** With at most the ceiling of rows, pruning leaves exactly the live ones and the read sees them all. */
  lemma PrunedIsLive(rows: seq<Row>, cutoff: int)
    requires Within(rows)
    ensures Pruned(rows, cutoff) == rows[Expired(rows, cutoff)..] && Selected(Pruned(rows, cutoff), cutoff) == Pruned(rows, cutoff)
    ensures Within(Pruned(rows, cutoff)) && forall i :: 0 <= i < |Pruned(rows, cutoff)| ==> Pruned(rows, cutoff)[i].at > cutoff
  {
    assert Least(Expired(rows, cutoff), GLOBAL_LIMIT) == Expired(rows, cutoff);
    LiveRowsStay(rows, cutoff);
    SelectedIsWhole(Pruned(rows, cutoff), cutoff);
  }

  // ---- Filtering and slicing ----

  lemma {:induction false} OfClientJoins(a: seq<Row>, b: seq<Row>, client: string)
    ensures OfClient(a + b, client) == OfClient(a, client) + OfClient(b, client)
    decreases |b|
  {
    if b == [] {
      assert a + b == a;
    } else {
      assert (a + b)[..|a + b| - 1] == a + b[..|b| - 1];
      OfClientJoins(a, b[..|b| - 1], client);
    }
  }

  lemma {:induction false} OfClientMembers(rows: seq<Row>, client: string)
    ensures forall r :: r in OfClient(rows, client) <==> r in rows && r.client == client
    decreases |rows|
  {
    if rows != [] {
      OfClientMembers(rows[..|rows| - 1], client);
      assert rows == rows[..|rows| - 1] + [rows[|rows| - 1]];
    }
  }

  lemma {:induction false} OfClientSorted(rows: seq<Row>, client: string)
    requires Sorted(rows)
    ensures Sorted(OfClient(rows, client))
    decreases |rows|
  {
    if rows != [] {
      OfClientSorted(rows[..|rows| - 1], client);
      OfClientMembers(rows[..|rows| - 1], client);
      var before := OfClient(rows[..|rows| - 1], client);
      forall i | 0 <= i < |before|
        ensures before[i].at <= rows[|rows| - 1].at
      {
        assert before[i] in rows[..|rows| - 1];
      }
    }
  }

  /** The limit-th event from the end, if there is one, has left the window. */
  predicate HasRoom(events: seq<Row>, limit: nat, now: int)
    requires limit > 0
  {
    |events| < limit || events[|events| - limit].at <= now - WINDOW_MS
  }

  /** Live events of a sorted list are fewer than `limit` exactly when the limit-th from its end has expired. */
  lemma LiveIsFewIff(events: seq<Row>, limit: nat, now: int)
    requires Sorted(events) && limit > 0
    ensures |events| - Expired(events, now - WINDOW_MS) < limit <==> HasRoom(events, limit, now)
  {
    ExpiredIsWhole(events, now - WINDOW_MS);
  }

  /** The two halves of a sorted list around `cutoff`, for one client. */
  lemma HalvesOfClient(rows: seq<Row>, client: string, cutoff: int)
    requires Sorted(rows)
    ensures forall r :: r in OfClient(rows[..Expired(rows, cutoff)], client) ==> r.at <= cutoff
    ensures forall r :: r in OfClient(rows[Expired(rows, cutoff)..], client) ==> r.at > cutoff
  {
    var n := Expired(rows, cutoff);
    ExpiredIsWhole(rows, cutoff);
    OfClientMembers(rows[..n], client);
    OfClientMembers(rows[n..], client);
  }

  /** Dropping the expired rows drops the expired rows of each client. */
  lemma LiveOfClient(rows: seq<Row>, client: string, cutoff: int)
    requires Sorted(rows)
    ensures OfClient(rows[Expired(rows, cutoff)..], client) ==
      OfClient(rows, client)[Expired(OfClient(rows, client), cutoff)..]
  {
    var n := Expired(rows, cutoff);
    assert rows == rows[..n] + rows[n..];
    OfClientJoins(rows[..n], rows[n..], client);
    HalvesOfClient(rows, client, cutoff);
    SplitAtExpired(OfClient(rows[..n], client), OfClient(rows[n..], client), cutoff);
  }

  lemma {:induction false} SplitAtExpired(gone: seq<Row>, live: seq<Row>, cutoff: int)
    requires forall r :: r in gone ==> r.at <= cutoff
    requires forall r :: r in live ==> r.at > cutoff
    ensures Expired(gone + live, cutoff) == |gone| && (gone + live)[|gone|..] == live
  {
    if gone == [] {
      assert gone + live == live;
    } else {
      assert (gone + live)[1..] == gone[1..] + live;
      SplitAtExpired(gone[1..], live, cutoff);
    }
  }

  // ---- When a retry succeeds ----

  /** The wait, before rounding up to seconds. */
  function ExactWait(rows: seq<Row>, client: string, now: int): int
    requires ValidCharge(client, now) && Charged(rows, client, now).1.Refused?
  {
    Largest(Waits(Selected(Pruned(rows, now - WINDOW_MS), now - WINDOW_MS), client, now))
  }

  function Live(rows: seq<Row>, now: int): seq<Row> {
    rows[Expired(rows, now - WINDOW_MS)..]
  }

  predicate Few(rows: seq<Row>, client: string) {
    |rows| < GLOBAL_LIMIT && |OfClient(rows, client)| < CLIENT_LIMIT
  }

  lemma ChargedOnLive(rows: seq<Row>, client: string, now: int)
    requires Within(rows) && ValidCharge(client, now)
    ensures var live := Live(rows, now);
      var waits := Waits(live, client, now);
      && (waits == [] <==> Few(live, client))
      && (if waits == [] then Charged(rows, client, now) == (Inserted(live, Row(client, now)), Allowed)
          else Charged(rows, client, now).0 == live && Charged(rows, client, now).1.Refused? &&
               ExactWait(rows, client, now) == Largest(waits))
  {
    PrunedIsLive(rows, now - WINDOW_MS);
  }

  lemma AllowedIff(rows: seq<Row>, client: string, now: int)
    requires Within(rows) && ValidCharge(client, now)
    ensures Charged(rows, client, now).1 == Allowed <==>
      HasRoom(rows, GLOBAL_LIMIT, now) && HasRoom(OfClient(rows, client), CLIENT_LIMIT, now)
  {
    ChargedOnLive(rows, client, now);
    LiveIsFewIff(rows, GLOBAL_LIMIT, now);
    LiveOfClient(rows, client, now - WINDOW_MS);
    OfClientSorted(rows, client);
    LiveIsFewIff(OfClient(rows, client), CLIENT_LIMIT, now);
    assert |Live(rows, now)| == |rows| - Expired(rows, now - WINDOW_MS);
  }

  /** The longer of the two waits is over exactly when both levels have room. */
  lemma WaitIsOverIff(live: seq<Row>, client: string, now: int, later: int)
    requires Waits(live, client, now) != []
    ensures HasRoom(live, GLOBAL_LIMIT, later) && HasRoom(OfClient(live, client), CLIENT_LIMIT, later) <==>
      later >= now + Largest(Waits(live, client, now)) || Few(live, client)
  {
    var global, mine := WaitsFor(live, GLOBAL_LIMIT, now), WaitsFor(OfClient(live, client), CLIENT_LIMIT, now);
    var waits := global + mine;
    assert global != [] ==> waits[0] == global[0];
    assert mine != [] ==> waits[|global|] == mine[0];
  }

  lemma WaitIsPositive(live: seq<Row>, client: string, now: int)
    requires forall i :: 0 <= i < |live| ==> live[i].at > now - WINDOW_MS
    requires Waits(live, client, now) != []
    ensures Largest(Waits(live, client, now)) > 0
  {
    var mine := OfClient(live, client);
    OfClientMembers(live, client);
    assert forall i :: 0 <= i < |mine| ==> mine[i] in live;
    assert forall i :: 0 <= i < |Waits(live, client, now)| ==> Waits(live, client, now)[i] > 0;
  }

  /** Main result on retries: with no admission in between, a retry succeeds exactly once the wait is over. */
  lemma {:induction false} RetrySucceedsIff(rows: seq<Row>, client: string, now: int, later: int)
    requires Within(rows) && ValidCharge(client, now) && Charged(rows, client, now).1.Refused?
    requires now <= later <= MAX_SAFE_INTEGER
    ensures var (after, refusal) := Charged(rows, client, now);
      && (Charged(after, client, later).1 == Allowed <==> later >= now + ExactWait(rows, client, now))
      && ExactWait(rows, client, now) <= 1_000 * refusal.retryAfterSeconds < ExactWait(rows, client, now) + 1_000
  {
    var live := Live(rows, now);
    PrunedIsLive(rows, now - WINDOW_MS);
    ChargedOnLive(rows, client, now);
    AllowedIff(live, client, later);
    WaitIsOverIff(live, client, now, later);
    WaitIsPositive(live, client, now);
  }

  // ---- Every window of a run ----

  datatype Attempt = Attempt(client: string, now: int)

  /** `log` is every admission so far. */
  datatype State = State(rows: seq<Row>, log: seq<Row>)

  function Next(s: State, a: Attempt): State {
    var (rows, decision) := Charged(s.rows, a.client, a.now);
    State(rows, if decision == Allowed && a.now >= 0 then s.log + [Row(a.client, a.now)] else s.log)
  }

  function After(attempts: seq<Attempt>): State
    decreases |attempts|
  {
    if attempts == [] then State([], [])
    else
      Next(After(attempts[..|attempts| - 1]), attempts[|attempts| - 1])
  }

  predicate NonDecreasing(attempts: seq<Attempt>) {
    forall i, j :: 0 <= i < j < |attempts| ==> attempts[i].now <= attempts[j].now
  }

  /** Any `limit` + 1 consecutive admissions take a whole window. */
  ghost predicate Spaced(log: seq<Row>, limit: nat) {
    forall i :: limit <= i < |log| ==> log[i - limit].at <= log[i].at - WINDOW_MS
  }

  /** The table is the end of the log; what is no longer there had expired by `now`. */
  ghost predicate TableEndsLog(s: State, now: int) {
    && |s.rows| <= |s.log| && s.rows == s.log[|s.log| - |s.rows|..]
    && (forall i :: 0 <= i < |s.log| - |s.rows| ==> s.log[i].at <= now - WINDOW_MS)
    && (forall i :: 0 <= i < |s.log| ==> s.log[i].at <= now)
  }

  ghost predicate AllSpaced(log: seq<Row>) {
    Spaced(log, GLOBAL_LIMIT) && forall client :: Spaced(OfClient(log, client), CLIENT_LIMIT)
  }

  ghost predicate Inv(s: State, now: int) {
    Within(s.rows) && Sorted(s.log) && TableEndsLog(s, now) && AllSpaced(s.log)
  }

  lemma SpacedAppends(log: seq<Row>, row: Row, limit: nat)
    requires Spaced(log, limit) && limit > 0
    requires HasRoom(log, limit, row.at)
    ensures Spaced(log + [row], limit)
  {
  }

  /** Room in the end of the log that was kept is room in the whole log. */
  lemma EnoughRoom(log: seq<Row>, kept: seq<Row>, limit: nat, now: int)
    requires limit > 0 && |kept| <= |log| && kept == log[|log| - |kept|..]
    requires forall i :: 0 <= i < |log| - |kept| ==> log[i].at <= now - WINDOW_MS
    requires HasRoom(kept, limit, now)
    ensures HasRoom(log, limit, now)
  {
  }

  lemma ClientRoom(s: State, client: string, now: int)
    requires TableEndsLog(s, now) && HasRoom(OfClient(s.rows, client), CLIENT_LIMIT, now)
    ensures HasRoom(OfClient(s.log, client), CLIENT_LIMIT, now)
  {
    var gone := s.log[..|s.log| - |s.rows|];
    assert s.log == gone + s.rows;
    OfClientJoins(gone, s.rows, client);
    OfClientMembers(gone, client);
    forall i | 0 <= i < |OfClient(gone, client)|
      ensures OfClient(gone, client)[i].at <= now - WINDOW_MS
    {
      assert OfClient(gone, client)[i] in gone;
    }
    EnoughRoom(OfClient(s.log, client), OfClient(s.rows, client), CLIENT_LIMIT, now);
  }

  lemma AllowedKeepsInv(s: State, a: Attempt)
    requires Inv(s, a.now) && ValidCharge(a.client, a.now) && Charged(s.rows, a.client, a.now).1 == Allowed
    ensures Inv(State(Inserted(Live(s.rows, a.now), Row(a.client, a.now)), s.log + [Row(a.client, a.now)]), a.now)
  {
    ChargedOnLive(s.rows, a.client, a.now);
    PrunedIsLive(s.rows, a.now - WINDOW_MS);
    AllowedIff(s.rows, a.client, a.now);
    AdmissionKeepsSpacing(s, a);
    LiveEndsLog(s, a.now);
    AdmissionKeepsInv(State(Live(s.rows, a.now), s.log), a);
  }

  lemma RefusedKeepsInv(s: State, a: Attempt)
    requires Inv(s, a.now)
    ensures Inv(State(Live(s.rows, a.now), s.log), a.now)
  {
    PrunedIsLive(s.rows, a.now - WINDOW_MS);
    LiveEndsLog(s, a.now);
  }

  lemma StepKeepsInv(s: State, a: Attempt, before: int)
    requires Inv(s, before) && before <= a.now
    ensures Inv(Next(s, a), a.now)
  {
    TimePasses(s, before, a.now);
    if ValidCharge(a.client, a.now) {
      ChargedOnLive(s.rows, a.client, a.now);
      if Charged(s.rows, a.client, a.now).1 == Allowed {
        AllowedKeepsInv(s, a);
      } else {
        RefusedKeepsInv(s, a);
      }
    }
  }

  lemma TimePasses(s: State, before: int, now: int)
    requires TableEndsLog(s, before) && before <= now
    ensures TableEndsLog(s, now)
  {
  }

  lemma LiveEndsLog(s: State, now: int)
    requires TableEndsLog(s, now)
    ensures TableEndsLog(State(Live(s.rows, now), s.log), now)
  {
    var live := Live(s.rows, now);
    assert live == s.log[|s.log| - |live|..];
    forall i | 0 <= i < |s.log| - |live|
      ensures s.log[i].at <= now - WINDOW_MS
    {
      if i >= |s.log| - |s.rows| {
        assert s.log[i] == s.rows[i - (|s.log| - |s.rows|)];
      }
    }
  }

  lemma NewestStaysSorted(rows: seq<Row>, row: Row)
    requires Sorted(rows) && forall i :: 0 <= i < |rows| ==> rows[i].at <= row.at
    ensures Sorted(rows + [row])
  {
  }

  lemma AdmissionEndsLog(s: State, row: Row)
    requires TableEndsLog(s, row.at)
    ensures TableEndsLog(State(s.rows + [row], s.log + [row]), row.at)
  {
    var log, rows := s.log + [row], s.rows + [row];
    assert log == s.log[..|s.log| - |s.rows|] + rows;
    assert log[|log| - |rows|..] == rows;
  }

  lemma TableIsNoNewer(s: State, now: int)
    requires TableEndsLog(s, now)
    ensures forall i :: 0 <= i < |s.rows| ==> s.rows[i].at <= now
  {
    forall i | 0 <= i < |s.rows|
      ensures s.rows[i].at <= now
    {
      assert s.rows[i] == s.log[|s.log| - |s.rows| + i];
    }
  }

  lemma AdmissionKeepsInv(s: State, a: Attempt)
    requires Within(s.rows) && Sorted(s.log) && TableEndsLog(s, a.now) && a.now >= 0 && |s.rows| < GLOBAL_LIMIT
    requires AllSpaced(s.log + [Row(a.client, a.now)])
    ensures Inv(State(Inserted(s.rows, Row(a.client, a.now)), s.log + [Row(a.client, a.now)]), a.now)
  {
    var row := Row(a.client, a.now);
    TableIsNoNewer(s, a.now);
    LastIsNewest(s.rows, row);
    NewestStaysSorted(s.rows, row);
    NewestStaysSorted(s.log, row);
    AdmissionEndsLog(s, row);
  }

  lemma AdmissionKeepsSpacing(s: State, a: Attempt)
    requires TableEndsLog(s, a.now) && AllSpaced(s.log) && a.now >= 0
    requires HasRoom(s.rows, GLOBAL_LIMIT, a.now) && HasRoom(OfClient(s.rows, a.client), CLIENT_LIMIT, a.now)
    ensures AllSpaced(s.log + [Row(a.client, a.now)])
  {
    var row := Row(a.client, a.now);
    EnoughRoom(s.log, s.rows, GLOBAL_LIMIT, a.now);
    ClientRoom(s, a.client, a.now);
    SpacedAppends(s.log, row, GLOBAL_LIMIT);
    forall client
      ensures Spaced(OfClient(s.log + [row], client), CLIENT_LIMIT)
    {
      assert (s.log + [row])[..|s.log|] == s.log;
      assert OfClient(s.log + [row], client) == OfClient(s.log, client) + if row.client == client then [row] else [];
      if client == row.client {
        SpacedAppends(OfClient(s.log, client), row, CLIENT_LIMIT);
      }
    }
  }

  lemma LastIsNewest(rows: seq<Row>, row: Row)
    requires forall i :: 0 <= i < |rows| ==> rows[i].at <= row.at
    ensures Inserted(rows, row) == rows + [row]
  {
    var n := Expired(rows, row.at);
    assert n == |rows|;
  }

  lemma {:induction false} RunsKeepInv(attempts: seq<Attempt>)
    requires attempts != [] && NonDecreasing(attempts)
    ensures Inv(After(attempts), attempts[|attempts| - 1].now)
    decreases |attempts|
  {
    var before := attempts[..|attempts| - 1];
    if before == [] {
      StepKeepsInv(State([], []), attempts[0], attempts[0].now);
    } else {
      RunsKeepInv(before);
      StepKeepsInv(After(before), attempts[|attempts| - 1], before[|before| - 1].now);
    }
  }

  /** Admissions with `from` < at <= `from` + window. */
  function InWindow(log: seq<Row>, from: int): seq<Row>
    decreases |log|
  {
    if log == [] then []
    else
      var last := log[|log| - 1];
      InWindow(log[..|log| - 1], from) + if from < last.at <= from + WINDOW_MS then [last] else []
  }

  lemma {:induction false} WindowJoins(a: seq<Row>, b: seq<Row>, from: int)
    ensures InWindow(a + b, from) == InWindow(a, from) + InWindow(b, from)
    decreases |b|
  {
    if b == [] {
      assert a + b == a;
    } else {
      assert (a + b)[..|a + b| - 1] == a + b[..|b| - 1];
      WindowJoins(a, b[..|b| - 1], from);
    }
  }

  lemma {:induction false} WindowOfOutside(log: seq<Row>, from: int)
    requires forall i :: 0 <= i < |log| ==> !(from < log[i].at <= from + WINDOW_MS)
    ensures InWindow(log, from) == []
    decreases |log|
  {
    if log != [] {
      WindowOfOutside(log[..|log| - 1], from);
    }
  }

  lemma WindowOfParts(x: seq<Row>, y: seq<Row>, z: seq<Row>, from: int)
    requires forall i :: 0 <= i < |x| ==> x[i].at <= from
    requires forall i :: 0 <= i < |z| ==> z[i].at > from + WINDOW_MS
    ensures |InWindow(x + (y + z), from)| <= |y|
  {
    WindowJoins(x, y + z, from);
    WindowJoins(y, z, from);
    WindowOfOutside(x, from);
    WindowOfOutside(z, from);
    WindowNoLonger(y, from);
  }

  lemma LaterHalf(log: seq<Row>, cutoff: int)
    requires Sorted(log)
    ensures forall i :: 0 <= i < |log[Expired(log, cutoff)..]| ==> log[Expired(log, cutoff)..][i].at > cutoff
  {
    ExpiredIsWhole(log, cutoff);
  }

  /** At most `limit` entries of a spaced log lie between two bounds a window apart. */
  lemma FewBetween(log: seq<Row>, a: nat, b: nat, from: int, limit: nat)
    requires Spaced(log, limit) && limit > 0 && a <= b <= |log|
    requires forall i :: a <= i < b ==> from < log[i].at <= from + WINDOW_MS
    ensures b - a <= limit
  {
    assert limit <= b - 1 < |log| ==> log[b - 1 - limit].at <= log[b - 1].at - WINDOW_MS;
  }

  lemma ThreeParts(log: seq<Row>, a: nat, b: nat)
    requires a <= b <= |log|
    ensures log[..a] + (log[a..b] + log[b..]) == log
  {
  }

  /** Where a window begins and ends in a sorted log. */
  lemma WindowBounds(log: seq<Row>, from: int) returns (a: nat, b: nat)
    requires Sorted(log)
    ensures a <= b <= |log| && forall i :: a <= i < b ==> from < log[i].at <= from + WINDOW_MS
    ensures forall i :: 0 <= i < a ==> log[i].at <= from
    ensures forall i :: 0 <= i < |log[b..]| ==> log[b..][i].at > from + WINDOW_MS
  {
    a, b := Expired(log, from), Expired(log, from + WINDOW_MS);
    ExpiredIsWhole(log, from);
    LaterHalf(log, from + WINDOW_MS);
  }

  /** A window of a sorted, spaced log holds at most `limit` admissions. */
  lemma {:induction false} WindowIsSmall(log: seq<Row>, from: int, limit: nat)
    requires Sorted(log) && Spaced(log, limit) && limit > 0
    ensures |InWindow(log, from)| <= limit
  {
    var a, b := WindowBounds(log, from);
    FewBetween(log, a, b, from, limit);
    WindowOfParts(log[..a], log[a..b], log[b..], from);
    ThreeParts(log, a, b);
  }

  lemma {:induction false} WindowNoLonger(log: seq<Row>, from: int)
    ensures |InWindow(log, from)| <= |log|
    decreases |log|
  {
    if log != [] {
      WindowNoLonger(log[..|log| - 1], from);
    }
  }

  /** Main result: with a clock that never goes back, every window admits few, in all and for each client. */
  lemma EveryWindowIsBounded(attempts: seq<Attempt>, from: int, client: string)
    requires NonDecreasing(attempts)
    ensures |InWindow(After(attempts).log, from)| <= GLOBAL_LIMIT
    ensures |InWindow(OfClient(After(attempts).log, client), from)| <= CLIENT_LIMIT
    ensures |After(attempts).rows| <= GLOBAL_LIMIT
  {
    if attempts != [] {
      RunsKeepInv(attempts);
      OfClientSorted(After(attempts).log, client);
      WindowIsSmall(After(attempts).log, from, GLOBAL_LIMIT);
      WindowIsSmall(OfClient(After(attempts).log, client), from, CLIENT_LIMIT);
    }
  }

  /** The ceiling on rows needs no clock at all. */
  lemma {:induction false} TableIsAlwaysSmall(attempts: seq<Attempt>)
    ensures Within(After(attempts).rows)
    decreases |attempts|
  {
    if attempts != [] {
      var a := attempts[|attempts| - 1];
      TableIsAlwaysSmall(attempts[..|attempts| - 1]);
      ChargeKeepsTableSmall(After(attempts[..|attempts| - 1]).rows, a.client, a.now);
    }
  }
}
