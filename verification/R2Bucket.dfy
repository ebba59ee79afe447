/**
 The object store seen by one remediation run. Other writers may put and delete anything between
 two operations of the run, and the run may die before any operation: it is given a schedule with
 one turn for each operation it lives to see.

 Version tags are unique: the list of all versions ever stored stands behind them.
 */
module R2Bucket {
  import opened Wrappers

  type ReportId = nat

  /** Everything under the prefix: a report, the sidecar of a report, or something unrecognized. */
  datatype Key = Report(id: ReportId) | Sidecar(id: ReportId) | Other(name: string)

  type Meta = map<string, string>

  datatype StorageClass = Standard | InfrequentAccess

  /** `text` is None when the bytes are too many or are not UTF-8. */
  datatype Body = Body(text: Option<string>, http: Meta, custom: Meta, storage: StorageClass)

  datatype Stored = Stored(tag: nat, body: Body, uploaded: string)

  datatype World = World(objects: map<Key, Stored>, history: seq<Stored>)

  datatype Move = PutMove(key: Key, body: Body, at: string) | DeleteMove(key: Key)

  /** What the others do first, and the time the store then stamps on a write. */
  datatype Turn = Turn(moves: seq<Move>, now: string)

  datatype Condition = Matches(tag: nat) | Absent

  /** A write of the run: where, over which version, what. */
  datatype Write = Write(key: Key, previous: Option<Stored>, body: Body)

  /** What an awaited operation of the run comes to. */
  datatype Reply<+T> = Crashed | Conflict | Failed | Got(value: T)

  function Lookup<K, V>(m: map<K, V>, key: K): Option<V> {
    if key in m then Some(m[key]) else None
  }

  function WithObject(w: World, key: Key, body: Body, at: string): World {
    var stored := Stored(|w.history|, body, at);
    World(w.objects[key := stored], w.history + [stored])
  }

  function Moved(w: World, move: Move): World {
    match move
    case PutMove(key, body, at) => WithObject(w, key, body, at)
    case DeleteMove(key) => w.(objects := w.objects - {key})
  }

  function AfterMoves(w: World, moves: seq<Move>): World
    decreases |moves|
  {
    if moves == [] then w else Moved(AfterMoves(w, moves[..|moves| - 1]), moves[|moves| - 1])
  }

  ghost predicate InHistory(objects: map<Key, Stored>, history: seq<Stored>) {
    forall k :: k in objects ==> objects[k].tag < |history| && history[objects[k].tag] == objects[k]
  }

  ghost predicate Valid(w: World) {
    InHistory(w.objects, w.history)
  }

  /** `later` can follow `w`: whatever is still there with an old tag has been there all along. */
  ghost predicate Since(w: World, later: World) {
    && w.history <= later.history
    && forall k :: k in later.objects ==>
         later.objects[k].tag >= |w.history| || (k in w.objects && w.objects[k] == later.objects[k])
  }

  lemma SinceIsTransitive(a: World, b: World, c: World)
    requires Since(a, b) && Since(b, c)
    ensures Since(a, c)
  {
    forall k | k in c.objects && c.objects[k].tag < |a.history|
      ensures k in a.objects && a.objects[k] == c.objects[k]
    {
      assert c.objects[k].tag < |b.history|;
    }
  }

  lemma MoveIsSafe(w: World, move: Move)
    requires Valid(w)
    ensures Valid(Moved(w, move)) && Since(w, Moved(w, move))
  {
  }

  lemma {:induction false} MovesAreSafe(w: World, moves: seq<Move>)
    requires Valid(w)
    ensures Valid(AfterMoves(w, moves)) && Since(w, AfterMoves(w, moves))
    decreases |moves|
  {
    if moves != [] {
      var before := AfterMoves(w, moves[..|moves| - 1]);
      MovesAreSafe(w, moves[..|moves| - 1]);
      MoveIsSafe(before, moves[|moves| - 1]);
      SinceIsTransitive(w, before, AfterMoves(w, moves));
    }
  }

  lemma VersionsStay(seen: map<Key, Stored>, w: World, later: World)
    requires InHistory(seen, w.history) && Since(w, later)
    ensures InHistory(seen, later.history)
  {
  }

  lemma VersionsJoin(a: map<Key, Stored>, b: map<Key, Stored>, history: seq<Stored>)
    requires InHistory(a, history) && InHistory(b, history)
    ensures InHistory(a + b, history)
  {
  }

  ghost predicate Quiet(schedule: seq<Turn>) {
    forall i :: 0 <= i < |schedule| ==> schedule[i].moves == []
  }

  /** Contents without the tags and times the store makes up. */
  ghost function Bodies(objects: map<Key, Stored>): map<Key, Body> {
    map k | k in objects :: objects[k].body
  }

  ghost function Overlay(bodies: map<Key, Body>, writes: seq<Write>): map<Key, Body>
    decreases |writes|
  {
    if writes == [] then bodies
    else Overlay(bodies, writes[..|writes| - 1])[writes[|writes| - 1].key := writes[|writes| - 1].body]
  }

  lemma {:induction false} OverlayAppends(bodies: map<Key, Body>, a: seq<Write>, b: seq<Write>)
    ensures Overlay(bodies, a + b) == Overlay(Overlay(bodies, a), b)
    decreases |b|
  {
    if b == [] {
      assert a + b == a;
    } else {
      assert (a + b)[..|a + b| - 1] == a + b[..|b| - 1];
      OverlayAppends(bodies, a, b[..|b| - 1]);
    }
  }

  /** The bucket, what is left of the schedule, and what the run has written. */
  datatype Moment = Moment(world: World, left: seq<Turn>, log: seq<Write>)

  /** `b` may be a later moment of the run at `a`. */
  ghost predicate Progress(a: Moment, b: Moment) {
    Follows(a, b)
  }

  ghost predicate Follows(a: Moment, b: Moment) {
    && Valid(b.world) && Since(a.world, b.world)
    && a.log <= b.log
    && (Quiet(a.left) ==> Quiet(b.left))
    && (Quiet(a.left) ==> Bodies(b.world.objects) == Overlay(Bodies(a.world.objects), b.log[|a.log|..]))
  }

  lemma ProgressIsTransitive(a: Moment, b: Moment, c: Moment)
    requires Progress(a, b) && Progress(b, c)
    ensures Progress(a, c)
  {
    SinceIsTransitive(a.world, b.world, c.world);
    assert c.log[|a.log|..] == b.log[|a.log|..] + c.log[|b.log|..];
    OverlayAppends(Bodies(a.world.objects), b.log[|a.log|..], c.log[|b.log|..]);
  }

  lemma {:induction false} QuietMoves(w: World, left: seq<Turn>)
    requires left != [] && Quiet(left)
    ensures AfterMoves(w, left[0].moves) == w
  {
  }

  lemma AwaitProgresses(a: Moment, b: Moment)
    requires Valid(a.world) && a.left != [] && b.left == a.left[1..] && b.log == a.log
    requires b.world == AfterMoves(a.world, a.left[0].moves)
    ensures Progress(a, b)
  {
    MovesAreSafe(a.world, a.left[0].moves);
    if Quiet(a.left) {
      QuietMoves(a.world, a.left);
    }
  }

  lemma WriteProgresses(a: Moment, b: Moment, write: Write, at: string)
    requires Valid(a.world) && b.left == a.left && b.log == a.log + [write]
    requires b.world == WithObject(a.world, write.key, write.body, at)
    ensures Progress(a, b)
  {
    MoveIsSafe(a.world, PutMove(write.key, write.body, at));
    assert b.log[|a.log|..] == [write];
    OverlayOne(Bodies(a.world.objects), write);
    assert Bodies(b.world.objects) == Bodies(a.world.objects)[write.key := write.body];
  }

  lemma OverlayOne(bodies: map<Key, Body>, write: Write)
    ensures Overlay(bodies, [write]) == bodies[write.key := write.body]
  {
    assert [write][..0] == [];
  }

  class Bucket {
    var world: World
    var schedule: seq<Turn>
    /** The writes of this run, in order. */
    ghost var log: seq<Write>

    constructor (world: World, schedule: seq<Turn>)
      ensures this.world == world && this.schedule == schedule && log == []
    {
      this.world := world;
      this.schedule := schedule;
      log := [];
    }

    ghost predicate Ready()
      reads this
    {
      Valid(world)
    }

    ghost function Now(): Moment
      reads this
    {
      Moment(world, schedule, log)
    }

    /** Others move, then the operation happens. */
    method Await() returns (now: Option<string>)
      requires Ready()
      modifies this`world, this`schedule
      ensures now.None? <==> old(schedule) == []
      ensures |schedule| == if now.None? then 0 else |old(schedule)| - 1
      ensures Progress(old(Now()), Now())
      ensures Quiet(old(schedule)) ==> world == old(world)
    {
      ghost var start := Now();
      if schedule == [] {
        return None;
      }
      if Quiet(start.left) {
        QuietMoves(world, schedule);
      }
      world := AfterMoves(world, schedule[0].moves);
      now := Some(schedule[0].now);
      schedule := schedule[1..];
      AwaitProgresses(start, Now());
    }

    method Get(key: Key) returns (r: Reply<Option<Stored>>)
      requires Ready()
      modifies this`world, this`schedule
      ensures Progress(old(Now()), Now())
      ensures Quiet(old(schedule)) ==> world == old(world)
      ensures r.Crashed? || r == Got(Lookup(world.objects, key))
      ensures r.Crashed? <==> old(schedule) == []
      ensures |schedule| == if r.Crashed? then 0 else |old(schedule)| - 1
    {
      var now := Await();
      if now.None? {
        return Crashed;
      }
      r := Got(Lookup(world.objects, key));
    }

    method List() returns (r: Reply<set<Key>>)
      requires Ready()
      modifies this`world, this`schedule
      ensures Progress(old(Now()), Now())
      ensures Quiet(old(schedule)) ==> world == old(world)
      ensures r.Crashed? || r == Got(world.objects.Keys)
      ensures r.Crashed? <==> old(schedule) == []
      ensures |schedule| == if r.Crashed? then 0 else |old(schedule)| - 1
    {
      var now := Await();
      if now.None? {
        return Crashed;
      }
      r := Got(world.objects.Keys);
    }

    /** A conditional write: it happens only if the condition holds of what is there. */
    method Put(key: Key, body: Body, condition: Condition) returns (r: Reply<bool>)
      requires Ready()
      modifies this
      ensures Progress(old(Now()), Now())
      ensures r.Crashed? || r.Got?
      ensures r.Crashed? <==> old(schedule) == []
      ensures |schedule| == if r.Crashed? then 0 else |old(schedule)| - 1
      ensures r != Got(true) ==> log == old(log)
      ensures r == Got(true) ==> |log| == |old(log)| + 1 && log[|old(log)|].key == key && log[|old(log)|].body == body
      ensures r == Got(true) ==> Met(condition, log[|old(log)|].previous)
      ensures r == Got(true) && condition.Matches? ==>
        condition.tag < |world.history| && log[|old(log)|].previous == Some(world.history[condition.tag])
      ensures Quiet(old(schedule)) && r == Got(false) ==> !Met(condition, Lookup(old(world.objects), key))
      ensures Quiet(old(schedule)) && r != Got(true) ==> world == old(world)
      ensures Quiet(old(schedule)) && r == Got(true) ==> exists at :: world == WithObject(old(world), key, body, at)
    {
      ghost var start := Now();
      var now := Await();
      if now.None? {
        return Crashed;
      }
      ghost var middle := Now();
      var write := Write(key, Lookup(world.objects, key), body);
      if !Met(condition, write.previous) {
        return Got(false);
      }
      world := WithObject(world, key, body, now.value);
      log := log + [write];
      WriteProgresses(middle, Now(), write, now.value);
      ProgressIsTransitive(start, middle, Now());
      r := Got(true);
    }
  }

  predicate Met(condition: Condition, previous: Option<Stored>) {
    match condition
    case Matches(tag) => previous.Some? && previous.value.tag == tag
    case Absent => previous.None?
  }
}
