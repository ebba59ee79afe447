/**
 The order in which the seven nested loops visit assignments. A prefix holds the values of the
 loops entered so far; `Level(prefix, n)` is what the next loop has visited after `n` iterations.
 */
module CensoringEnumeration {
  import opened CensoringModel

  /** How many iterations the loop after `p` makes. */
  function Width(u: Unknowns, p: seq<nat>): int
    requires |p| < 7
  {
    match |p|
    case 0 => u.refDetected + 1
    case 1 => u.refNotDetected + 1
    case 2 => u.predPresent + 1
    case 3 => u.predAbsent + 1
    case 4 => u.both + 1
    case 5 => u.both - p[4] + 1
    case _ => u.both - p[4] - p[5] + 1
  }

  predicate Prefix(u: Unknowns, p: seq<nat>) {
    |p| <= 7 && forall i :: 0 <= i < |p| ==> p[i] < Width(u, p[..i])
  }

  function AssignmentOf(p: seq<nat>): Assignment
    requires |p| == 7
  {
    Assignment(p[0], p[1], p[2], p[3], p[4], p[5], p[6])
  }

  function PrefixOf(a: Assignment): seq<nat> {
    [a.x1, a.x2, a.x3, a.x4, a.b1, a.b2, a.b3]
  }

  lemma PrefixIffInBounds(u: Unknowns, p: seq<nat>)
    requires |p| == 7
    ensures Prefix(u, p) <==> InBounds(u, AssignmentOf(p))
  {
    assert p[..4][..0] == p[..0];
    if Prefix(u, p) {
      assert p[0] < Width(u, p[..0]) && p[1] < Width(u, p[..1]) && p[2] < Width(u, p[..2]) && p[3] < Width(u, p[..3]);
      assert p[4] < Width(u, p[..4]) && p[5] < Width(u, p[..5]) && p[6] < Width(u, p[..6]);
    }
    if InBounds(u, AssignmentOf(p)) {
      forall i | 0 <= i < 7
        ensures p[i] < Width(u, p[..i])
      {
        assert i == 0 || i == 1 || i == 2 || i == 3 || i == 4 || i == 5 || i == 6;
      }
    }
  }

  /** The table `consider` is given in the innermost body. */
  function TableAt(k: Cells, u: Unknowns, p: seq<nat>): Cells
    requires |p| == 7 && Prefix(u, p)
  {
    PrefixIffInBounds(u, p);
    CellAt(k, u, AssignmentOf(p))
  }

  lemma Extends(u: Unknowns, p: seq<nat>, v: nat)
    requires Prefix(u, p) && |p| < 7 && v < Width(u, p)
    ensures Prefix(u, p + [v])
  {
    forall i | 0 <= i < |p + [v]|
      ensures (p + [v])[i] < Width(u, (p + [v])[..i])
    {
      assert (p + [v])[..i] == p[..i];
      if i == |p| { assert p[..i] == p; }
    }
  }

  function Level(k: Cells, u: Unknowns, p: seq<nat>, n: nat): seq<Cells>
    requires Prefix(u, p) && |p| < 7 && n <= Width(u, p)
    decreases 7 - |p|, n
  {
    if n == 0 then []
    else
      Extends(u, p, n - 1);
      Level(k, u, p, n - 1) + Body(k, u, p + [n - 1])
  }

  /** What one iteration of the loop before `p`'s last value visits. */
  function Body(k: Cells, u: Unknowns, p: seq<nat>): seq<Cells>
    requires Prefix(u, p) && 0 < |p|
    decreases 7 - |p|, if |p| < 7 then Width(u, p) + 1 else 0
  {
    if |p| == 7 then [TableAt(k, u, p)] else Level(k, u, p, Width(u, p))
  }

  /** Every table the loops hand to `consider`, in order. */
  function Visited(k: Cells, u: Unknowns): seq<Cells> {
    Level(k, u, [], u.refDetected + 1)
  }

  // ---- The loops visit exactly the assignments ----

  lemma {:induction false} LevelSound(k: Cells, u: Unknowns, p: seq<nat>, n: nat, c: Cells) returns (w: seq<nat>)
    requires Prefix(u, p) && |p| < 7 && n <= Width(u, p) && c in Level(k, u, p, n)
    ensures |w| == 7 && Prefix(u, w) && TableAt(k, u, w) == c
    decreases 7 - |p|, n
  {
    Extends(u, p, n - 1);
    if c in Level(k, u, p, n - 1) {
      w := LevelSound(k, u, p, n - 1, c);
    } else if |p| == 6 {
      w := p + [n - 1];
    } else {
      w := LevelSound(k, u, p + [n - 1], Width(u, p + [n - 1]), c);
    }
  }

  lemma Shorter(u: Unknowns, w: seq<nat>, d: nat)
    requires Prefix(u, w) && d <= |w|
    ensures Prefix(u, w[..d])
  {
    forall i | 0 <= i < d
      ensures w[..d][i] < Width(u, w[..d][..i])
    {
      assert w[..d][..i] == w[..i];
    }
  }

  lemma {:induction false} LevelComplete(k: Cells, u: Unknowns, w: seq<nat>, d: nat, n: nat)
    requires |w| == 7 && Prefix(u, w) && d < 7 && Prefix(u, w[..d]) && w[d] < n <= Width(u, w[..d])
    ensures TableAt(k, u, w) in Level(k, u, w[..d], n)
    decreases 7 - d, n
  {
    var p := w[..d];
    Extends(u, p, n - 1);
    if w[d] < n - 1 {
      LevelComplete(k, u, w, d, n - 1);
    } else {
      assert p + [n - 1] == w[..d + 1];
      if d == 6 {
        assert w[..7] == w;
      } else {
        Shorter(u, w, d + 1);
        LevelComplete(k, u, w, d + 1, Width(u, w[..d + 1]));
      }
    }
  }

  /** Main result: the loops visit exactly the tables that some completion of the cases produces. */
  lemma VisitedIffRealizable(cases: seq<Case>, table: Cells)
    requires forall c :: c in cases ==> !c.Fatal?
    ensures table in Visited(KnownOf(cases), UnknownsOf(cases)) <==> Realizable(cases, table)
  {
    var k, u := KnownOf(cases), UnknownsOf(cases);
    AssignableIffRealizable(cases, table);
    if table in Visited(k, u) {
      var w := LevelSound(k, u, [], u.refDetected + 1, table);
      PrefixIffInBounds(u, w);
      assert Gives(cases, |cases|, AssignmentOf(w), table);
    }
    if Assignable(cases, table) {
      var a :| Gives(cases, |cases|, a, table);
      var w := PrefixOf(a);
      assert AssignmentOf(w) == a;
      PrefixIffInBounds(u, w);
      assert w[..0] == [];
      LevelComplete(k, u, w, 0, u.refDetected + 1);
    }
  }

  // ---- How many assignments there are ----

  /** Weak compositions of `total` into four cells. */
  function CompositionsOfBoth(total: nat): nat {
    (total + 1) * (total + 2) * (total + 3) / 6
  }

  function AssignmentCount(u: Unknowns): nat {
    (u.refDetected + 1) * (u.refNotDetected + 1) * (u.predPresent + 1) * (u.predAbsent + 1) * CompositionsOfBoth(u.both)
  }

  lemma {:induction false} InnermostSize(k: Cells, u: Unknowns, p: seq<nat>, n: nat)
    requires Prefix(u, p) && |p| == 6 && n <= Width(u, p)
    ensures |Level(k, u, p, n)| == n
  {
    if n > 0 {
      Extends(u, p, n - 1);
      InnermostSize(k, u, p, n - 1);
    }
  }

  lemma {:induction false} TriangleSize(k: Cells, u: Unknowns, p: seq<nat>, n: nat)
    requires Prefix(u, p) && |p| == 5 && n <= Width(u, p)
    ensures 2 * |Level(k, u, p, n)| == n * (2 * Width(u, p) + 1 - n)
  {
    if n > 0 {
      Extends(u, p, n - 1);
      TriangleSize(k, u, p, n - 1);
      InnermostSize(k, u, p + [n - 1], Width(u, p + [n - 1]));
      TriangleStep(n, Width(u, p));
    }
  }

  lemma TriangleStep(n: int, w: int)
    ensures n * (2 * w + 1 - n) == (n - 1) * (2 * w + 1 - (n - 1)) + 2 * (w - n + 1)
  {
  }

  lemma {:induction false} TetrahedronSize(k: Cells, u: Unknowns, p: seq<nat>, n: nat)
    requires Prefix(u, p) && |p| == 4 && n <= Width(u, p)
    ensures 6 * |Level(k, u, p, n)| == Rising(u.both + 1) - Rising(u.both + 1 - n)
  {
    if n > 0 {
      Extends(u, p, n - 1);
      TetrahedronSize(k, u, p, n - 1);
      var q := p + [n - 1];
      var w := Width(u, q);
      TriangleSize(k, u, q, w);
      assert w * (2 * w + 1 - w) == w * (w + 1);
      TetrahedronStep(w);
    }
  }

  function Rising(m: int): int {
    m * (m + 1) * (m + 2)
  }

  lemma TetrahedronStep(m: int)
    ensures Rising(m) - Rising(m - 1) == 3 * (m * (m + 1))
  {
  }

  /** The size of one whole iteration of the loop before depth `d`. */
  function SizeFrom(u: Unknowns, d: nat): nat
    requires d <= 4
    decreases 4 - d
  {
    match d
    case 4 => CompositionsOfBoth(u.both)
    case 3 => (u.predAbsent + 1) * SizeFrom(u, 4)
    case 2 => (u.predPresent + 1) * SizeFrom(u, 3)
    case 1 => (u.refNotDetected + 1) * SizeFrom(u, 2)
    case _ => (u.refDetected + 1) * SizeFrom(u, 1)
  }

  lemma {:induction false} ProductSize(k: Cells, u: Unknowns, p: seq<nat>, n: nat)
    requires Prefix(u, p) && |p| < 4 && n <= Width(u, p)
    ensures |Level(k, u, p, n)| == n * SizeFrom(u, |p| + 1)
    decreases 4 - |p|, n
  {
    if n > 0 {
      Extends(u, p, n - 1);
      ProductSize(k, u, p, n - 1);
      var q := p + [n - 1];
      if |q| == 4 {
        TetrahedronSize(k, u, q, u.both + 1);
      } else {
        ProductSize(k, u, q, Width(u, q));
      }
      OneMore(n, SizeFrom(u, |q|));
    }
  }

  lemma OneMore(n: int, each: int)
    ensures n * each == (n - 1) * each + each
  {
  }

  /** Main result: the number of iterations is the closed form the ceiling is checked against. */
  lemma VisitedCount(k: Cells, u: Unknowns)
    ensures |Visited(k, u)| == AssignmentCount(u)
  {
    ProductSize(k, u, [], u.refDetected + 1);
    Reassociate(u.refDetected + 1, u.refNotDetected + 1, u.predPresent + 1, u.predAbsent + 1, CompositionsOfBoth(u.both));
  }

  lemma Reassociate(a: int, b: int, c: int, d: int, e: int)
    ensures a * (b * (c * (d * e))) == a * b * c * d * e
  {
    assert c * (d * e) == c * d * e;
    assert b * (c * d * e) == b * (c * d) * e;
    assert a * (b * (c * d) * e) == a * (b * (c * d)) * e;
    assert a * (b * (c * d)) == a * b * (c * d) == a * b * c * d;
  }
}
