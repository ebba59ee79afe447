/**
 The trails by which client roots reach a module: a breadth-first walk over resolved imports from
 each root, over a graph that may have cycles.
 */
module ImportTrails {
  import opened Wrappers
  import opened ImportFrontier

  datatype Failure = NotASourceFile | NoClientRoots

  /** The walk from one root. It ends on every graph, for each turn takes a file out of the queue or sees a new one. */
  method Walk(g: Graph, start: File, target: File) returns (trail: Option<seq<File>>)
    requires Closed(g) && start in g && start != target
    ensures trail.Some? ==> IsShortest(g, trail.value, start, target)
    ensures trail.None? ==> !Reaches(g, start, target)
  {
    var seen := {start};
    var queue := [[start]];
    ghost var depth: map<File, nat> := map[start := 1];
    ghost var level: nat := 1;
    trail := None;
    StartIsFound(g, start);
    while |queue| > 0
      invariant Walking(g, start, target, seen, queue, trail.Some?, depth, level)
      invariant trail.Some? ==> IsShortest(g, trail.value, start, target)
      decreases |g.Keys - seen|, |queue|
    {
      seen, queue, trail, depth, level := Turn(g, start, target, seen, queue, trail, depth, level);
    }
    if trail.None? {
      EmptyQueueSawAll(g, start, seen, depth, level, target);
    }
  }

  /** One turn of the walk, and the level of the next. */
  method Turn(g: Graph, start: File, target: File, seen0: set<File>, queue0: seq<seq<File>>, trail0: Option<seq<File>>,
              ghost depth0: map<File, nat>, ghost level0: nat)
      returns (seen: set<File>, queue: seq<seq<File>>, trail: Option<seq<File>>, ghost depth: map<File, nat>, ghost level: nat)
    requires Closed(g) && queue0 != [] && Walking(g, start, target, seen0, queue0, trail0.Some?, depth0, level0)
    requires trail0.Some? ==> IsShortest(g, trail0.value, start, target)
    ensures Walking(g, start, target, seen, queue, trail.Some?, depth, level)
    ensures trail.Some? ==> IsShortest(g, trail.value, start, target)
    ensures |g.Keys - seen| < |g.Keys - seen0| || (|g.Keys - seen| == |g.Keys - seen0| && |queue| < |queue0|)
  {
    level := level0;
    seen, queue, trail, depth := Expand(g, start, target, seen0, queue0, trail0, depth0, level);
    if queue == [] || |queue[0]| == level + 1 {
      LevelRises(g, start, seen, queue, depth, level);
      level := level + 1;
    }
    ShrinksIffGrown(g.Keys, seen0, seen);
  }

  /** The head leaves the queue and every import not seen before joins it. */
  method Expand(g: Graph, start: File, target: File, seen0: set<File>, queue0: seq<seq<File>>, trail0: Option<seq<File>>,
                ghost depth0: map<File, nat>, ghost level: nat)
      returns (seen: set<File>, queue: seq<seq<File>>, trail: Option<seq<File>>, ghost depth: map<File, nat>)
    requires Closed(g) && queue0 != [] && |queue0[0]| == level >= 1
    requires Found(g, start, seen0, depth0) && QueueOf(g, start, queue0, depth0, level)
    requires Covered(g, start, seen0, queue0, depth0, level)
    requires trail0.Some? <==> target in seen0
    requires trail0.Some? ==> IsShortest(g, trail0.value, start, target)
    ensures seen0 <= seen && Found(g, start, seen, depth) && QueueOf(g, start, queue, depth, level)
    ensures Covered(g, start, seen, queue, depth, level)
    ensures trail.Some? <==> target in seen
    ensures trail.Some? ==> IsShortest(g, trail.value, start, target)
    ensures seen == seen0 ==> |queue| == |queue0| - 1
  {
    var head := queue0[0];
    var from := head[|head| - 1];
    HeadLeaves(g, start, seen0, queue0, depth0, level);
    seen, queue, trail, depth := seen0, queue0[1..], trail0, depth0;
    for i := 0 to |g[from]|
      invariant seen0 <= seen && Turning(g, start, from, seen, queue, depth, level)
      invariant SeenUpTo(g[from], i, seen)
      invariant trail.Some? <==> target in seen
      invariant trail.Some? ==> IsShortest(g, trail.value, start, target)
      invariant seen == seen0 ==> |queue| == |queue0| - 1
    {
      var next := g[from][i];
      OneMoreSeen(g[from], i, seen, next);
      if next in seen {
        continue;
      }
      ImportJoins(g, start, from, seen, queue, depth, level, head, next);
      seen := seen + {next};
      depth := depth[next := level + 1];
      if next == target {
        trail := Some(head + [next]);
      }
      queue := queue + [head + [next]];
    }
    TurnEnds(g, start, from, seen, queue, depth, level);
  }

  // ---- All roots ----

  /** `from` lists, in order, the roots that reach the target; each has one shortest trail. */
  ghost predicate TrailsFor(g: Graph, roots: seq<File>, n: nat, target: File, trails: seq<seq<File>>, from: seq<nat>)
    requires n <= |roots|
  {
    && |trails| == |from|
    && (forall k :: 0 <= k < |from| ==> from[k] < n && IsShortest(g, trails[k], roots[from[k]], target))
    && (forall j, k :: 0 <= j < k < |from| ==> from[j] < from[k])
    && (forall i: nat :: i < n && Reaches(g, roots[i], target) ==> i in from)
  }

  lemma SelfTrail(g: Graph, f: File)
    ensures IsShortest(g, [f], f, f) && Reaches(g, f, f)
  {
    assert IsTrail(g, [f], f, f);
  }

  /** Main result: one shortest trail for each root that reaches the target, in root order, and none for any other. */
  method ClientImportTrails(g: Graph, roots: seq<File>, target: File)
      returns (r: Result<seq<seq<File>>, Failure>, ghost from: seq<nat>)
    requires Closed(g) && forall i :: 0 <= i < |roots| ==> roots[i] in g
    ensures r == Err(NotASourceFile) <==> target !in g
    ensures r == Err(NoClientRoots) <==> target in g && roots == []
    ensures r.Ok? ==> TrailsFor(g, roots, |roots|, target, r.value, from)
  {
    from := [];
    if target !in g {
      return Err(NotASourceFile), from;
    }
    if |roots| == 0 {
      return Err(NoClientRoots), from;
    }
    var trails: seq<seq<File>> := [];
    for i := 0 to |roots|
      invariant TrailsFor(g, roots, i, target, trails, from)
    {
      var start := roots[i];
      if start == target {
        SelfTrail(g, start);
        TrailJoins(g, roots, i, target, trails, from, [start]);
        trails, from := trails + [[start]], from + [i];
        continue;
      }
      var trail := Walk(g, start, target);
      if trail.Some? {
        assert Reaches(g, start, target);
        TrailJoins(g, roots, i, target, trails, from, trail.value);
        trails, from := trails + [trail.value], from + [i];
      }
    }
    r := Ok(trails);
  }

  lemma TrailJoins(g: Graph, roots: seq<File>, i: nat, target: File, trails: seq<seq<File>>, from: seq<nat>, trail: seq<File>)
    requires i < |roots| && TrailsFor(g, roots, i, target, trails, from) && IsShortest(g, trail, roots[i], target)
    ensures TrailsFor(g, roots, i + 1, target, trails + [trail], from + [i])
  {
    var joined, indices := trails + [trail], from + [i];
    forall k | 0 <= k < |indices|
      ensures indices[k] < i + 1 && IsShortest(g, joined[k], roots[indices[k]], target)
    {
      assert k < |from| ==> indices[k] == from[k] && joined[k] == trails[k];
    }
    forall j: nat | j < i + 1 && Reaches(g, roots[j], target)
      ensures j in indices
    {
      assert j == i || j in from;
    }
  }
}
