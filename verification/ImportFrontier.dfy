/** What a breadth-first search knows at every turn: distances, the order of its queue, and what it has covered. */
module ImportFrontier {
  type File = string

  /** Resolved imports, each of them a source file again. */
  type Graph = map<File, seq<File>>

  ghost predicate Closed(g: Graph) {
    forall f, i :: f in g && 0 <= i < |g[f]| ==> g[f][i] in g
  }

  /** A chain of imports from `a` to `b`. */
  ghost predicate IsTrail(g: Graph, p: seq<File>, a: File, b: File) {
    && p != [] && p[0] == a && p[|p| - 1] == b
    && forall i :: 0 <= i < |p| - 1 ==> p[i] in g && p[i + 1] in g[p[i]]
  }

  ghost predicate Reaches(g: Graph, a: File, b: File) {
    exists p :: IsTrail(g, p, a, b)
  }

  ghost predicate IsShortest(g: Graph, p: seq<File>, a: File, b: File) {
    IsTrail(g, p, a, b) && forall q :: IsTrail(g, q, a, b) ==> |p| <= |q|
  }

  // ---- One search ----

  /** What is known when the head of the queue has `level` files: `depth` of a seen file is its distance. */
  ghost predicate Found(g: Graph, start: File, seen: set<File>, depth: map<File, nat>) {
    && start in seen && depth.Keys == seen && seen <= g.Keys
    && forall f, p :: f in seen && IsTrail(g, p, start, f) ==> depth[f] <= |p|
  }

  predicate EndsAt(trail: seq<File>, f: File) {
    trail != [] && trail[|trail| - 1] == f
  }

  /** A trail to a seen file, as long as the file is far, at this level or the next. */
  ghost predicate Queued(g: Graph, start: File, trail: seq<File>, depth: map<File, nat>, level: nat) {
    && trail != [] && trail[|trail| - 1] in depth && IsTrail(g, trail, start, trail[|trail| - 1])
    && |trail| == depth[trail[|trail| - 1]] && level <= |trail| <= level + 1
  }

  /** The queue holds trails of two consecutive lengths, in order. */
  ghost predicate QueueOf(g: Graph, start: File, queue: seq<seq<File>>, depth: map<File, nat>, level: nat) {
    && (forall i :: 0 <= i < |queue| ==> Queued(g, start, queue[i], depth, level))
    && (forall i, j :: 0 <= i < j < |queue| ==> |queue[i]| <= |queue[j]|)
  }

  /** `f` is still waiting in the queue. */
  ghost predicate Waiting(queue: seq<seq<File>>, f: File) {
    exists i :: 0 <= i < |queue| && EndsAt(queue[i], f)
  }

  ghost predicate Expanded(g: Graph, seen: set<File>, f: File)
    requires f in g
  {
    forall i :: 0 <= i < |g[f]| ==> g[f][i] in seen
  }

  /** Every file within `level` of the start has been seen, and every seen file is waiting or expanded. */
  ghost predicate Covered(g: Graph, start: File, seen: set<File>, queue: seq<seq<File>>, depth: map<File, nat>, level: nat) {
    && (forall p, f :: IsTrail(g, p, start, f) && |p| <= level ==> f in seen)
    && (forall f :: f in seen && f in g && !Waiting(queue, f) ==> Expanded(g, seen, f))
    && (forall f :: f in seen && f in depth && depth[f] > level ==> Waiting(queue, f))
  }

  lemma TrailExtends(g: Graph, p: seq<File>, a: File, b: File, c: File)
    requires IsTrail(g, p, a, b) && b in g && c in g[b]
    ensures IsTrail(g, p + [c], a, c)
  {
  }

  lemma TrailShortens(g: Graph, p: seq<File>, a: File, c: File)
    requires IsTrail(g, p, a, c) && |p| > 1
    ensures IsTrail(g, p[..|p| - 1], a, p[|p| - 2]) && p[|p| - 2] in g && c in g[p[|p| - 2]]
  {
  }

  /** When the head of the queue is one file longer, everything at the old length has been expanded. */
  lemma LevelRises(g: Graph, start: File, seen: set<File>, queue: seq<seq<File>>, depth: map<File, nat>, level: nat)
    requires Closed(g) && Found(g, start, seen, depth) && Covered(g, start, seen, queue, depth, level)
    requires QueueOf(g, start, queue, depth, level) && level >= 1
    requires queue != [] ==> |queue[0]| == level + 1
    ensures forall p, f :: IsTrail(g, p, start, f) && |p| <= level + 1 ==> f in seen
  {
    forall p, f | IsTrail(g, p, start, f) && |p| <= level + 1
      ensures f in seen
    {
      if |p| == level + 1 {
        TrailShortens(g, p, start, f);
        var x := p[|p| - 2];
        assert IsTrail(g, p[..|p| - 1], start, x);
        assert x in seen && depth[x] <= level;
        assert forall i :: 0 <= i < |queue| ==> |queue[i]| >= level + 1;
        assert Expanded(g, seen, x);
      }
    }
  }

  /** What holds while the imports of `from`, the head's file, are being looked at. */
  ghost predicate Turning(g: Graph, start: File, from: File, seen: set<File>, queue: seq<seq<File>>, depth: map<File, nat>,
                          level: nat)
  {
    && Found(g, start, seen, depth) && QueueOf(g, start, queue, depth, level) && from in seen
    && (forall p, f :: IsTrail(g, p, start, f) && |p| <= level ==> f in seen)
    && (forall f :: f in seen && f != from && !Waiting(queue, f) ==> Expanded(g, seen, f))
    && (forall f :: f in seen && depth[f] > level ==> Waiting(queue, f))
  }

  ghost predicate SeenUpTo(imports: seq<File>, n: nat, seen: set<File>)
    requires n <= |imports|
  {
    forall j :: 0 <= j < n ==> imports[j] in seen
  }

  /** What is known between two turns of the walk. */
  ghost predicate Walking(g: Graph, start: File, target: File, seen: set<File>, queue: seq<seq<File>>, trail: bool,
                          depth: map<File, nat>, level: nat)
  {
    && Found(g, start, seen, depth) && level >= 1
    && QueueOf(g, start, queue, depth, level) && (queue != [] ==> |queue[0]| == level)
    && Covered(g, start, seen, queue, depth, level) && (trail <==> target in seen)
  }

  lemma StartIsFound(g: Graph, start: File)
    requires start in g
    ensures Found(g, start, {start}, map[start := 1]) && QueueOf(g, start, [[start]], map[start := 1], 1)
    ensures Covered(g, start, {start}, [[start]], map[start := 1], 1)
  {
    assert EndsAt([[start]][0], start);
    assert Waiting([[start]], start);
    forall p, f | IsTrail(g, p, start, f) && |p| <= 1
      ensures f in {start}
    {
      assert p[0] == start;
    }
  }

  lemma ShrinksIffGrown(all: set<File>, before: set<File>, after: set<File>)
    requires before <= after <= all
    ensures |all - after| <= |all - before| && (before != after ==> |all - after| < |all - before|)
  {
    var x, y := all - after, all - before;
    assert x <= y;
    SubsetIsSmaller(x, y);
    if before != after {
      var f :| f in after && f !in before;
      assert f in y && f !in x;
    }
  }

  lemma {:induction false} SubsetIsSmaller(a: set<File>, b: set<File>)
    requires a <= b
    ensures |a| <= |b| && (a != b ==> |a| < |b|)
    decreases |a|
  {
    if a != {} {
      var x :| x in a;
      SubsetIsSmaller(a - {x}, b - {x});
      if a != b {
        var y :| y in b && y !in a;
        assert y in b - {x} && y !in a - {x};
      }
    }
  }

  lemma {:induction false} EmptyQueueSawAll(g: Graph, start: File, seen: set<File>, depth: map<File, nat>, level: nat, target: File)
    requires Closed(g) && Found(g, start, seen, depth) && Covered(g, start, seen, [], depth, level) && target !in seen
    ensures !Reaches(g, start, target)
  {
    forall p | IsTrail(g, p, start, target)
      ensures false
    {
      TrailStaysSeen(g, start, seen, p, target);
    }
  }

  lemma {:induction false} TrailStaysSeen(g: Graph, start: File, seen: set<File>, p: seq<File>, f: File)
    requires start in seen && seen <= g.Keys && forall x :: x in seen && x in g ==> Expanded(g, seen, x)
    requires IsTrail(g, p, start, f)
    ensures f in seen
    decreases |p|
  {
    if |p| > 1 {
      TrailShortens(g, p, start, f);
      TrailStaysSeen(g, start, seen, p[..|p| - 1], p[|p| - 2]);
      assert Expanded(g, seen, p[|p| - 2]);
    }
  }

  lemma HeadLeaves(g: Graph, start: File, seen: set<File>, queue: seq<seq<File>>, depth: map<File, nat>, level: nat)
    requires Found(g, start, seen, depth) && QueueOf(g, start, queue, depth, level) && Covered(g, start, seen, queue, depth, level)
    requires queue != [] && |queue[0]| == level
    ensures Turning(g, start, queue[0][|queue[0]| - 1], seen, queue[1..], depth, level)
  {
    var from := queue[0][|queue[0]| - 1];
    assert Queued(g, start, queue[0], depth, level);
    forall f | f in seen && f != from
      ensures Waiting(queue[1..], f) <==> Waiting(queue, f)
    {
      WaitsBehindHead(queue, f);
    }
    QueueLosesHead(g, start, queue, depth, level);
  }

  lemma WaitsBehindHead(queue: seq<seq<File>>, f: File)
    requires queue != [] && !EndsAt(queue[0], f)
    ensures Waiting(queue[1..], f) <==> Waiting(queue, f)
  {
    if Waiting(queue, f) {
      var i :| 0 <= i < |queue| && EndsAt(queue[i], f);
      assert queue[1..][i - 1] == queue[i];
    }
    if Waiting(queue[1..], f) {
      var i :| 0 <= i < |queue[1..]| && EndsAt(queue[1..][i], f);
      assert queue[1..][i] == queue[i + 1];
    }
  }

  lemma QueueLosesHead(g: Graph, start: File, queue: seq<seq<File>>, depth: map<File, nat>, level: nat)
    requires queue != [] && QueueOf(g, start, queue, depth, level)
    ensures QueueOf(g, start, queue[1..], depth, level)
  {
  }

  lemma WaitingStays(queue: seq<seq<File>>, more: seq<File>, f: File)
    ensures Waiting(queue + [more], f) <==> Waiting(queue, f) || EndsAt(more, f)
  {
    if Waiting(queue, f) {
      var i :| 0 <= i < |queue| && EndsAt(queue[i], f);
      assert (queue + [more])[i] == queue[i];
    }
    assert (queue + [more])[|queue|] == more;
    if Waiting(queue + [more], f) && !EndsAt(more, f) {
      var i :| 0 <= i < |queue + [more]| && EndsAt((queue + [more])[i], f);
      assert EndsAt(queue[i], f);
    }
  }

  lemma QueueGrows(g: Graph, start: File, queue: seq<seq<File>>, depth: map<File, nat>, level: nat, longer: seq<File>, next: File)
    requires QueueOf(g, start, queue, depth, level) && next !in depth && EndsAt(longer, next) && |longer| == level + 1
    requires IsTrail(g, longer, start, next)
    ensures QueueOf(g, start, queue + [longer], depth[next := level + 1], level)
  {
    var after, further := queue + [longer], depth[next := level + 1];
    forall i | 0 <= i < |after|
      ensures Queued(g, start, after[i], further, level)
    {
      if i < |queue| {
        assert Queued(g, start, queue[i], depth, level);
      }
    }
    forall i, j | 0 <= i < j < |after|
      ensures |after[i]| <= |after[j]|
    {
      assert Queued(g, start, after[i], further, level);
    }
  }

  /** A file first seen from the head is one further than the head, and no nearer. */
  lemma NewFileIsFurther(g: Graph, start: File, seen: set<File>, level: nat, next: File)
    requires forall p, f :: IsTrail(g, p, start, f) && |p| <= level ==> f in seen
    requires next !in seen
    ensures forall p :: IsTrail(g, p, start, next) ==> level + 1 <= |p|
  {
  }

  /** An import not seen before joins the queue at its true distance. */
  lemma ImportJoins(g: Graph, start: File, from: File, seen: set<File>, queue: seq<seq<File>>, depth: map<File, nat>, level: nat,
                    head: seq<File>, next: File)
    requires Closed(g) && Turning(g, start, from, seen, queue, depth, level) && next in g && next !in seen && from in g
    requires IsTrail(g, head, start, from) && |head| == level && next in g[from]
    ensures Turning(g, start, from, seen + {next}, queue + [head + [next]], depth[next := level + 1], level)
    ensures IsShortest(g, head + [next], start, next)
  {
    TrailExtends(g, head, start, from, next);
    NewFileIsFurther(g, start, seen, level, next);
    QueueGrows(g, start, queue, depth, level, head + [next], next);
    forall f | f in seen + {next}
      ensures Waiting(queue + [head + [next]], f) <==> Waiting(queue, f) || f == next
    {
      WaitingStays(queue, head + [next], f);
    }
    StillExpanded(g, from, seen, queue, queue + [head + [next]], next);
  }

  lemma StillExpanded(g: Graph, from: File, seen: set<File>, queue: seq<seq<File>>, after: seq<seq<File>>, next: File)
    requires seen <= g.Keys && next in g
    requires forall f :: f in seen && f != from && !Waiting(queue, f) ==> Expanded(g, seen, f)
    requires forall f :: f in seen + {next} ==> (Waiting(after, f) <==> Waiting(queue, f) || f == next)
    ensures forall f :: f in seen + {next} && f != from && !Waiting(after, f) ==> Expanded(g, seen + {next}, f)
  {
    forall f | f in seen + {next} && f != from && !Waiting(after, f)
      ensures Expanded(g, seen + {next}, f)
    {
      assert Expanded(g, seen, f);
    }
  }

  /** The head's file is expanded once all its imports have been looked at. */
  lemma TurnEnds(g: Graph, start: File, from: File, seen: set<File>, queue: seq<seq<File>>, depth: map<File, nat>, level: nat)
    requires from in g && Turning(g, start, from, seen, queue, depth, level)
    requires SeenUpTo(g[from], |g[from]|, seen)
    ensures Covered(g, start, seen, queue, depth, level)
  {
    assert Expanded(g, seen, from);
  }

  lemma OneMoreSeen(imports: seq<File>, i: nat, seen: set<File>, next: File)
    requires i < |imports| && imports[i] == next && SeenUpTo(imports, i, seen)
    ensures SeenUpTo(imports, i + 1, seen + {next})
    ensures next in seen ==> seen + {next} == seen
  {
  }
}
