/**
 The schedule rows, the driver record and the in-memory pre-arm field of the durable scan-job
 pump. Every method is one uninterrupted stretch of the worker between two awaits, and is proved
 against the function of the same name on `Pump` values.

 Only rows of the pump's own callback are kept: every query of the source filters on it.
 */
module DurablePump {
  import opened Wrappers

  type TaskId = nat
  type Epoch = nat

  /** One `container_schedules` row: `payload` is the epoch it carries, `time` is in seconds. */
  datatype Row = Row(payload: Option<Epoch>, time: int)

  datatype Driver = Driver(epoch: Epoch, task: TaskId)

  datatype Pump = Pump(rows: map<TaskId, Row>, driver: Option<Driver>, prearm: Option<TaskId>)

  datatype RearmStart = NoWake | Reused | Scheduled

  function Max(a: int, b: int): int { if a < b then b else a }

  // ---- What the tables mean ----

  /** The callback's currency test: a payload-free row always runs, an epoch row only while it is the driver's. */
  predicate Current(p: Pump, payload: Option<Epoch>) {
    payload.None? || (p.driver.Some? && p.driver.value.epoch == payload.value)
  }

  /** A row whose callback would do work. */
  predicate Effective(p: Pump, id: TaskId) {
    id in p.rows && Current(p, p.rows[id].payload)
  }

  ghost predicate HasEffective(p: Pump) {
    exists id :: Effective(p, id)
  }

  /** Some row that would do work comes due by `at` (milliseconds). */
  ghost predicate WakesBy(p: Pump, at: int) {
    exists id :: Effective(p, id) && p.rows[id].time * 1000 <= at
  }

  /** A present driver names an existing row that carries the driver's epoch. */
  predicate DriverLive(p: Pump) {
    p.driver.Some? ==>
      p.driver.value.task in p.rows && p.rows[p.driver.value.task].payload == Some(p.driver.value.epoch)
  }

  // ---- The transactions, on values ----

  function WithoutRow(p: Pump, id: TaskId): Pump {
    p.(rows := p.rows - {id})
  }

  /** `schedule()` of the base class: the row is written before the alarm is awaited. */
  function Insert(p: Pump, id: TaskId, payload: Option<Epoch>, time: int): Pump {
    p.(rows := p.rows[id := Row(payload, time)])
  }

  /** Payload-free rows survive a swap, and of the epoch rows only `keep`. */
  function Compacted(p: Pump, keep: TaskId): Pump {
    p.(rows := map id | id in p.rows && (p.rows[id].payload.None? || id == keep) :: p.rows[id])
  }

  function WithoutRowUnless(p: Pump, id: Option<TaskId>, keep: TaskId): Pump {
    if id.Some? && id.value != keep then WithoutRow(p, id.value) else p
  }

  function PublishPrearm(p: Pump, task: TaskId, epoch: Epoch, current: Option<TaskId>): Option<Pump> {
    if task in p.rows && p.rows[task].payload == Some(epoch) then
      var swapped := Compacted(p.(driver := Some(Driver(epoch, task))), task);
      Some(WithoutRowUnless(swapped, current, task).(prearm := Some(task)))
    else None
  }

  function PublishRearm(p: Pump, task: TaskId, epoch: Epoch): (Pump, bool) {
    if task in p.rows && p.rows[task].payload.Some? then
      var swapped := Compacted(p.(driver := Some(Driver(epoch, task))), task);
      var cleaned := WithoutRowUnless(swapped, p.prearm, task);
      (if p.prearm == Some(task) then cleaned else cleaned.(prearm := None), true)
    else (p, false)
  }

  function PersistFallback(p: Pump, task: TaskId, time: int): Pump {
    Pump(map[task := Row(None, time)], None, Some(task))
  }

  function PersistParked(p: Pump, task: TaskId, time: int): Pump {
    Pump(map[task := Row(None, time)], None, None)
  }

  function ParkNothing(p: Pump): Pump {
    Pump(map[], None, None)
  }

  function DiscardPrearm(p: Pump): Pump {
    match p.prearm
    case None => p
    case Some(task) =>
      Pump(p.rows - {task},
           if p.driver.Some? && p.driver.value.task == task then None else p.driver,
           None)
  }

  function ClearedForNoWake(p: Pump): Pump {
    Pump(map id | id in p.rows && p.rows[id].payload.None? && Some(id) != p.prearm :: p.rows[id], None, None)
  }

  /** The rows a recomputation may reuse: early enough, not the temporary pre-arm row, and effective. */
  predicate Reusable(p: Pump, target: int, id: TaskId) {
    id in p.rows && p.rows[id].time * 1000 <= target && Some(id) != p.prearm &&
    (p.rows[id].payload.None? || (p.driver.Some? && p.driver.value.task == id))
  }

  ghost predicate HasReusable(p: Pump, target: int) {
    exists id :: Reusable(p, target, id)
  }

  function Target(wake: int, now: int): int {
    Max(wake, now + 1000)
  }

  /** `scheduleNextDurablePump` up to its await: clear, reuse, or write a candidate row. */
  ghost function BeginRearm(p: Pump, wake: Option<int>, now: int, task: TaskId, epoch: Epoch): (Pump, RearmStart) {
    match wake
    case None => (ClearedForNoWake(p), NoWake)
    case Some(at) =>
      if HasReusable(p, Target(at, now)) then (DiscardPrearm(p), Reused)
      else (Insert(p, task, Some(epoch), Target(at, now) / 1000), Scheduled)
  }

  /** The admission wake: nothing when an effective row is due within the second, else a payload-free row. */
  ghost function EnsureImmediateWake(p: Pump, latestSecond: int, task: TaskId, time: int): Pump {
    if exists id :: DueBy(p, latestSecond, id) then p else Insert(p, task, None, time)
  }

  predicate DueBy(p: Pump, latestSecond: int, id: TaskId) {
    id in p.rows && p.rows[id].time <= latestSecond &&
    (p.rows[id].payload.None? || (p.driver.Some? && p.driver.value.task == id))
  }

  // ---- The same transactions, as the object performs them ----

  class PumpStore {
    var schedules: map<TaskId, Row>
    var driver: Option<Driver>
    var prearmTaskId: Option<TaskId>

    ghost function State(): Pump
      reads this
    {
      Pump(schedules, driver, prearmTaskId)
    }

    constructor ()
      ensures State() == Pump(map[], None, None)
    {
      schedules, driver, prearmTaskId := map[], None, None;
    }

    method IsCurrent(payload: Option<Epoch>) returns (current: bool)
      ensures current == Current(State(), payload)
    {
      if payload.None? { return true; }
      current := driver.Some? && driver.value.epoch == payload.value;
    }

    method Schedule(task: TaskId, payload: Option<Epoch>, time: int)
      modifies this`schedules
      ensures State() == Insert(old(State()), task, payload, time)
    {
      schedules := schedules[task := Row(payload, time)];
    }

    method DeleteSchedule(task: TaskId)
      modifies this`schedules
      ensures State() == WithoutRow(old(State()), task)
    {
      schedules := schedules - {task};
    }

    /** `DELETE … payload IS NOT NULL AND id <> keep`. */
    method DeleteEpochRowsExcept(keep: TaskId)
      modifies this`schedules
      ensures State() == Compacted(old(State()), keep)
    {
      schedules := map id | id in schedules && (schedules[id].payload.None? || id == keep) :: schedules[id];
    }

    /** The swap of `prearmDurablePumpSuccessor`; `false` stands for its thrown error, which rolls back. */
    method PublishPrearmedSuccessor(task: TaskId, epoch: Epoch, currentTaskId: Option<TaskId>) returns (ok: bool)
      modifies this
      ensures ok == PublishPrearm(old(State()), task, epoch, currentTaskId).Some?
      ensures State() == if ok then PublishPrearm(old(State()), task, epoch, currentTaskId).value else old(State())
    {
      if task !in schedules || schedules[task].payload != Some(epoch) { return false; }
      driver := Some(Driver(epoch, task));
      DeleteEpochRowsExcept(task);
      if currentTaskId.Some? && currentTaskId.value != task {
        DeleteSchedule(currentTaskId.value);
      }
      prearmTaskId := Some(task);
      ok := true;
    }

    /** The closing transaction of `scheduleNextDurablePump`. */
    method PublishRearmedSuccessor(task: TaskId, epoch: Epoch) returns (published: bool)
      modifies this
      ensures (State(), published) == PublishRearm(old(State()), task, epoch)
    {
      var prearm := prearmTaskId;
      if task !in schedules || schedules[task].payload.None? { return false; }
      driver := Some(Driver(epoch, task));
      DeleteEpochRowsExcept(task);
      if prearm.Some? && prearm.value != task {
        DeleteSchedule(prearm.value);
      }
      published := true;
      if prearmTaskId != Some(task) {
        prearmTaskId := None;
      }
    }

    method ReplaceAllRows(task: TaskId, time: int)
      requires task !in schedules
      modifies this`schedules, this`driver
      ensures schedules == map[task := Row(None, time)] && driver == None
    {
      schedules := schedules[task := Row(None, time)];
      driver := None;
      schedules := map id | id in schedules && id == task :: schedules[id];
    }

    method PersistImmediateFallback(task: TaskId, time: int)
      requires task !in schedules
      modifies this
      ensures State() == PersistFallback(old(State()), task, time)
    {
      ReplaceAllRows(task, time);
      prearmTaskId := Some(task);
    }

    method PersistParkedSchedule(task: TaskId, time: int)
      requires task !in schedules
      modifies this
      ensures State() == PersistParked(old(State()), task, time)
    {
      ReplaceAllRows(task, time);
      prearmTaskId := None;
    }

    method ParkWithNothingRetained()
      modifies this
      ensures State() == ParkNothing(old(State()))
    {
      schedules := map[];
      driver := None;
      prearmTaskId := None;
    }

    method DiscardPrearmSchedule()
      modifies this
      ensures State() == DiscardPrearm(old(State()))
    {
      if prearmTaskId.None? { return; }
      var task := prearmTaskId.value;
      if driver.Some? && driver.value.task == task {
        driver := None;
      }
      DeleteSchedule(task);
      prearmTaskId := None;
    }

    /** `ORDER BY time ASC LIMIT 1` over the reusable rows. */
    method EarliestReusable(target: int) returns (found: Option<TaskId>)
      ensures found.None? <==> !HasReusable(State(), target)
      ensures found.Some? ==> Reusable(State(), target, found.value)
      ensures found.Some? ==> forall id :: Reusable(State(), target, id) ==> schedules[found.value].time <= schedules[id].time
    {
      found := None;
      var todo := schedules.Keys;
      while todo != {}
        invariant todo <= schedules.Keys
        invariant found.Some? ==> Reusable(State(), target, found.value)
        invariant forall id :: Reusable(State(), target, id) && id !in todo ==>
          found.Some? && schedules[found.value].time <= schedules[id].time
        decreases todo
      {
        var id :| id in todo;
        todo := todo - {id};
        var row := schedules[id];
        if row.time * 1000 <= target && Some(id) != prearmTaskId &&
           (row.payload.None? || (driver.Some? && driver.value.task == id)) &&
           (found.None? || row.time < schedules[found.value].time)
        {
          found := Some(id);
        }
      }
    }

    /** `scheduleNextDurablePump` up to its await, with the candidate's fresh identifiers as arguments. */
    method BeginRearmSchedule(wake: Option<int>, now: int, task: TaskId, epoch: Epoch) returns (outcome: RearmStart)
      modifies this
      ensures (State(), outcome) == BeginRearm(old(State()), wake, now, task, epoch)
    {
      if wake.None? {
        var prearm := prearmTaskId;
        driver := None;
        schedules := map id | id in schedules && schedules[id].payload.None? :: schedules[id];
        if prearm.Some? {
          DeleteSchedule(prearm.value);
        }
        prearmTaskId := None;
        assert schedules == ClearedForNoWake(old(State())).rows;
        return NoWake;
      }
      var target := Max(wake.value, now + 1000);
      var reusable := EarliestReusable(target);
      if reusable.Some? {
        DiscardPrearmSchedule();
        return Reused;
      }
      Schedule(task, Some(epoch), target / 1000);
      outcome := Scheduled;
    }

    method EnsureImmediatePumpWake(latestSecond: int, task: TaskId, time: int)
      modifies this`schedules
      ensures State() == EnsureImmediateWake(old(State()), latestSecond, task, time)
    {
      if exists id :: id in schedules && DueBy(Pump(schedules, driver, prearmTaskId), latestSecond, id) {
        ghost var id :| id in schedules && DueBy(State(), latestSecond, id);
        return;
      }
      Schedule(task, None, time);
    }
  }
}
