/**
 The bounded text walk of the page collector: an iterative first-child / next-sibling / parent
 walk, measured against the recursive text of the tree. A node reference is its path of child
 indices from the root of the walk.
 */
module BoundedText {
  import opened Wrappers
  import opened Utf16

  datatype Node =
    | Text(value: JsString)
    | Element(tag: string, panel: bool, renders: bool, children: seq<Node>)
    | Other(children: seq<Node>)

  datatype Options = Options(skipNonContent: bool, skipClosedPanels: bool)

  type Path = seq<nat>

  const NON_CONTENT_TAGS: set<string> := {"SCRIPT", "STYLE", "NOSCRIPT", "TEMPLATE"}

  function Children(n: Node): seq<Node> {
    match n
    case Text(_) => []
    case Element(_, _, _, children) => children
    case Other(children) => children
  }

  predicate SkipsChildren(n: Node, o: Options) {
    o.skipNonContent && n.Element? &&
    (n.tag in NON_CONTENT_TAGS || (o.skipClosedPanels && n.panel && !n.renders))
  }

  // ---- The recursive text of a tree ----

  const SPACE: CodeUnit := 32

  predicate IsBoundaryWhitespace(code: int) {
    9 <= code <= 13 || code == 32 || code == 160
  }

  /** Text appended after text, with one space where two words would otherwise run together. */
  function Joined(value: JsString, next: JsString): JsString {
    if value != [] && next != [] && !IsBoundaryWhitespace(value[|value| - 1]) && !IsBoundaryWhitespace(next[0])
    then value + [SPACE] + next
    else value + next
  }

  function TextAfter(value: JsString, n: Node, o: Options): JsString
    decreases n, 1
  {
    match n
    case Text(t) => Joined(value, t)
    case Element(_, _, _, children) => if SkipsChildren(n, o) then value else TextAfterAll(value, children, o)
    case Other(children) => TextAfterAll(value, children, o)
  }

  function TextAfterAll(value: JsString, ns: seq<Node>, o: Options): JsString
    decreases ns, 0
  {
    if ns == [] then value else TextAfterAll(TextAfter(value, ns[0], o), ns[1..], o)
  }

  /** The whole text under `root`, in document order. */
  function FullText(root: Node, o: Options): JsString {
    TextAfterAll([], Children(root), o)
  }

  // ---- Document order ----

  function PreOrder(n: Node, o: Options): seq<Node>
    decreases n, 1
  {
    match n
    case Text(_) => [n]
    case Element(_, _, _, children) => if SkipsChildren(n, o) then [n] else [n] + PreOrderAll(children, o)
    case Other(children) => [n] + PreOrderAll(children, o)
  }

  function PreOrderAll(ns: seq<Node>, o: Options): seq<Node>
    decreases ns, 0
  {
    if ns == [] then [] else PreOrder(ns[0], o) + PreOrderAll(ns[1..], o)
  }

  /** The text of the first `k` nodes in document order. */
  function Gathered(nodes: seq<Node>, k: nat): JsString
    requires k <= |nodes|
  {
    if k == 0 then []
    else
      var before := Gathered(nodes, k - 1);
      if nodes[k - 1].Text? then Joined(before, nodes[k - 1].value) else before
  }

  /** The text of some nodes, appended to what came before them. */
  function GatheredOnto(value: JsString, nodes: seq<Node>): JsString
    decreases |nodes|
  {
    if nodes == [] then value
    else GatheredOnto(if nodes[0].Text? then Joined(value, nodes[0].value) else value, nodes[1..])
  }

  lemma {:induction false} GatheredOntoConcat(value: JsString, a: seq<Node>, b: seq<Node>)
    ensures GatheredOnto(value, a + b) == GatheredOnto(GatheredOnto(value, a), b)
    decreases |a|
  {
    if a == [] {
      assert a + b == b;
    } else {
      assert (a + b)[1..] == a[1..] + b;
      GatheredOntoConcat(if a[0].Text? then Joined(value, a[0].value) else value, a[1..], b);
    }
  }

  lemma {:induction false} PreOrderGathers(value: JsString, n: Node, o: Options)
    ensures GatheredOnto(value, PreOrder(n, o)) == TextAfter(value, n, o)
    decreases n, 1
  {
    match n
    case Text(_) =>
    case Element(_, _, _, children) =>
      if !SkipsChildren(n, o) {
        PreOrderAllGathers(value, children, o);
        assert ([n] + PreOrderAll(children, o))[1..] == PreOrderAll(children, o);
      }
    case Other(children) =>
      PreOrderAllGathers(value, children, o);
      assert ([n] + PreOrderAll(children, o))[1..] == PreOrderAll(children, o);
  }

  lemma {:induction false} PreOrderAllGathers(value: JsString, ns: seq<Node>, o: Options)
    ensures GatheredOnto(value, PreOrderAll(ns, o)) == TextAfterAll(value, ns, o)
    decreases ns, 0
  {
    if ns != [] {
      GatheredOntoConcat(value, PreOrder(ns[0], o), PreOrderAll(ns[1..], o));
      PreOrderGathers(value, ns[0], o);
      PreOrderAllGathers(TextAfter(value, ns[0], o), ns[1..], o);
    }
  }

  lemma {:induction false} GatheredIsOnto(nodes: seq<Node>, k: nat)
    requires k <= |nodes|
    ensures GatheredOnto([], nodes[..k]) == Gathered(nodes, k)
  {
    if k > 0 {
      GatheredIsOnto(nodes, k - 1);
      assert nodes[..k] == nodes[..k - 1] + [nodes[k - 1]];
      GatheredOntoConcat([], nodes[..k - 1], [nodes[k - 1]]);
    }
  }

  /** The recursive text is the text of the nodes in document order. */
  lemma FullTextIsGathered(root: Node, o: Options)
    ensures var nodes := PreOrderAll(Children(root), o);
      FullText(root, o) == Gathered(nodes, |nodes|)
  {
    var nodes := PreOrderAll(Children(root), o);
    PreOrderAllGathers([], Children(root), o);
    GatheredIsOnto(nodes, |nodes|);
    assert nodes[..|nodes|] == nodes;
  }

  lemma {:induction false} GatheredGrows(nodes: seq<Node>, j: nat, k: nat)
    requires j <= k <= |nodes|
    ensures Gathered(nodes, j) <= Gathered(nodes, k)
  {
    if j < k {
      GatheredGrows(nodes, j, k - 1);
    }
  }

  // ---- References ----

  predicate Has(root: Node, p: Path) {
    p == [] || (p[0] < |Children(root)| && Has(Children(root)[p[0]], p[1..]))
  }

  function At(root: Node, p: Path): Node
    requires Has(root, p)
  {
    if p == [] then root else At(Children(root)[p[0]], p[1..])
  }

  lemma {:induction false} Descend(root: Node, p: Path, i: nat)
    requires Has(root, p)
    ensures Has(root, p + [i]) <==> i < |Children(At(root, p))|
    ensures Has(root, p + [i]) ==> At(root, p + [i]) == Children(At(root, p))[i]
  {
    if p == [] {
      assert [i][1..] == [];
      assert p + [i] == [i];
    } else {
      assert (p + [i])[1..] == p[1..] + [i];
      Descend(Children(root)[p[0]], p[1..], i);
    }
  }

  lemma {:induction false} ParentExists(root: Node, p: Path)
    requires p != [] && Has(root, p)
    ensures Has(root, p[..|p| - 1]) && p[|p| - 1] < |Children(At(root, p[..|p| - 1]))|
  {
    if |p| > 1 {
      assert p[..|p| - 1][1..] == p[1..][..|p[1..]| - 1];
      ParentExists(Children(root)[p[0]], p[1..]);
    }
  }

  // ---- What is still ahead of the walk ----

  /** Document order after the whole subtree at `p`. */
  function AfterSubtree(root: Node, p: Path, o: Options): seq<Node>
    requires Has(root, p)
  {
    if p == [] then []
    else AfterSubtree(Children(root)[p[0]], p[1..], o) + PreOrderAll(Children(root)[p[0] + 1..], o)
  }

  function Ahead(root: Node, p: Path, o: Options): seq<Node>
    requires Has(root, p)
  {
    PreOrder(At(root, p), o) + AfterSubtree(root, p, o)
  }

  lemma {:induction false} AfterChild(root: Node, p: Path, i: nat, o: Options)
    requires Has(root, p) && i < |Children(At(root, p))| && Has(root, p + [i])
    ensures AfterSubtree(root, p + [i], o) == PreOrderAll(Children(At(root, p))[i + 1..], o) + AfterSubtree(root, p, o)
  {
    if p == [] {
      assert p + [i] == [i] && [i][1..] == [];
      assert AfterSubtree(Children(root)[i], [], o) == [];
    } else {
      assert (p + [i])[1..] == p[1..] + [i] && (p + [i])[0] == p[0];
      AfterChild(Children(root)[p[0]], p[1..], i, o);
    }
  }

  lemma PreOrderOf(n: Node, o: Options)
    ensures PreOrder(n, o) == if SkipsChildren(n, o) then [n] else [n] + PreOrderAll(Children(n), o)
  {
  }

  lemma StepToChild(root: Node, p: Path, o: Options)
    requires Has(root, p) && !SkipsChildren(At(root, p), o) && Children(At(root, p)) != []
    ensures Has(root, p + [0]) && Ahead(root, p, o) == [At(root, p)] + Ahead(root, p + [0], o)
  {
    var node, i := At(root, p), 0;
    Descend(root, p, i);
    AfterChild(root, p, i, o);
    FirstChildFirst(node, o, AfterSubtree(root, p, o));
  }

  lemma FirstChildFirst(n: Node, o: Options, after: seq<Node>)
    requires !SkipsChildren(n, o) && Children(n) != []
    ensures PreOrder(n, o) + after ==
      [n] + (PreOrder(Children(n)[0], o) + (PreOrderAll(Children(n)[1..], o) + after))
  {
    PreOrderOf(n, o);
    var first, others := PreOrder(Children(n)[0], o), PreOrderAll(Children(n)[1..], o);
    assert PreOrderAll(Children(n), o) == first + others;
    assert [n] + (first + others) + after == [n] + (first + (others + after));
  }

  lemma StepPastSubtree(root: Node, p: Path, o: Options)
    requires Has(root, p) && (SkipsChildren(At(root, p), o) || Children(At(root, p)) == [])
    ensures Ahead(root, p, o) == [At(root, p)] + AfterSubtree(root, p, o)
  {
    PreOrderOf(At(root, p), o);
    if !SkipsChildren(At(root, p), o) { assert PreOrderAll(Children(At(root, p)), o) == []; }
  }

  lemma StepToSibling(root: Node, parent: Path, i: nat, o: Options)
    requires Has(root, parent) && i + 1 < |Children(At(root, parent))| && Has(root, parent + [i])
    ensures Has(root, parent + [i + 1]) && AfterSubtree(root, parent + [i], o) == Ahead(root, parent + [i + 1], o)
  {
    var siblings, after := Children(At(root, parent)), AfterSubtree(root, parent, o);
    Descend(root, parent, i + 1);
    AfterChild(root, parent, i, o);
    AfterChild(root, parent, i + 1, o);
    NextSiblingFirst(siblings, i, o, after);
  }

  lemma NextSiblingFirst(siblings: seq<Node>, i: nat, o: Options, after: seq<Node>)
    requires i + 1 < |siblings|
    ensures PreOrderAll(siblings[i + 1..], o) + after ==
      PreOrder(siblings[i + 1], o) + (PreOrderAll(siblings[i + 2..], o) + after)
  {
    var rest := siblings[i + 1..];
    assert rest[0] == siblings[i + 1] && rest[1..] == siblings[i + 2..];
    var first, others := PreOrder(siblings[i + 1], o), PreOrderAll(siblings[i + 2..], o);
    assert PreOrderAll(rest, o) == first + others;
    assert first + others + after == first + (others + after);
  }

  lemma StepToParent(root: Node, parent: Path, i: nat, o: Options)
    requires Has(root, parent) && i + 1 == |Children(At(root, parent))| && Has(root, parent + [i])
    ensures AfterSubtree(root, parent + [i], o) == AfterSubtree(root, parent, o)
  {
    AfterChild(root, parent, i, o);
    assert Children(At(root, parent))[i + 1..] == [];
  }

  lemma StepToFirst(root: Node, o: Options)
    requires Children(root) != []
    ensures Has(root, [0]) && Ahead(root, [0], o) == PreOrderAll(Children(root), o)
  {
    assert [0][1..] == [];
    Descend(root, [], 0);
    AfterChild(root, [], 0, o);
    assert [] + [0] == [0];
    assert AfterSubtree(root, [], o) == [];
  }

  /** The move after a node has been read: its first child, else the next sibling up the tree. */
  method Advance(root: Node, p: Path, o: Options) returns (next: Option<Path>)
    requires Has(root, p) && p != []
    ensures next.None? ==> Ahead(root, p, o) == [At(root, p)]
    ensures next.Some? ==> next.value != [] && Has(root, next.value)
    ensures next.Some? ==> Ahead(root, p, o) == [At(root, p)] + Ahead(root, next.value, o)
  {
    var node := At(root, p);
    if !SkipsChildren(node, o) && Children(node) != [] {
      StepToChild(root, p, o);
      return Some(p + [0]);
    }
    StepPastSubtree(root, p, o);
    var current: Path := p;
    while current != []
      invariant Has(root, current)
      invariant AfterSubtree(root, current, o) == AfterSubtree(root, p, o)
      decreases |current|
    {
      ParentExists(root, current);
      var parent, i := current[..|current| - 1], current[|current| - 1];
      assert current == parent + [i];
      if i + 1 < |Children(At(root, parent))| {
        StepToSibling(root, parent, i, o);
        return Some(parent + [i + 1]);
      }
      StepToParent(root, parent, i, o);
      current := parent;
    }
    next := None;
  }

  // ---- The walk ----

  /** `k` is the number of nodes, in document order, before the end or the first moment at which a budget is spent. */
  predicate StopsAfter(nodes: seq<Node>, k: nat, maxChars: nat, maxNodes: nat) {
    && k <= |nodes| && k <= maxNodes
    && (k > 0 ==> |Gathered(nodes, k - 1)| < maxChars)
    && (k == |nodes| || k == maxNodes || maxChars <= |Gathered(nodes, k)|)
  }

  lemma StopIsUnique(nodes: seq<Node>, j: nat, k: nat, maxChars: nat, maxNodes: nat)
    requires StopsAfter(nodes, j, maxChars, maxNodes) && StopsAfter(nodes, k, maxChars, maxNodes)
    ensures j == k
  {
    if j < k { GatheredGrows(nodes, j, k - 1); }
    if k < j { GatheredGrows(nodes, k, j - 1); }
  }

  /** One text node's value, with its word boundary, as far as the budget reaches. */
  method Append(value: JsString, nodeValue: JsString, maxChars: nat) returns (longer: JsString, truncated: bool)
    requires |value| < maxChars
    ensures longer == Take(Joined(value, nodeValue), maxChars)
    ensures truncated <==> |Joined(value, nodeValue)| > maxChars
  {
    longer, truncated := value, false;
    var remaining := maxChars - |value|;
    if |value| > 0 && |nodeValue| > 0 {
      var previousCode, nextCode := value[|value| - 1], nodeValue[0];
      if !IsBoundaryWhitespace(previousCode) && !IsBoundaryWhitespace(nextCode) {
        longer := longer + [SPACE];
        remaining := remaining - 1;
      }
    }
    longer := longer + Take(nodeValue, remaining);
    if |nodeValue| > remaining {
      truncated := true;
    }
  }

  method BoundedNodeText(root: Node, maxChars: nat, maxNodes: nat, o: Options) returns (value: JsString, truncated: bool)
    ensures value <= FullText(root, o) && |value| <= maxChars
    ensures !truncated ==> value == FullText(root, o)
    ensures !truncated <==> Fits(root, maxChars, maxNodes, o)
    ensures exists k: nat :: StopsAfter(PreOrderAll(Children(root), o), k, maxChars, maxNodes) &&
                             value == Take(Gathered(PreOrderAll(Children(root), o), k), maxChars)
  {
    value, truncated := [], false;
    var visited := 0;
    var current: Option<Path> := None;
    if Children(root) != [] {
      current := Some([0]);
      StepToFirst(root, o);
    }
    while current.Some? && visited < maxNodes && |value| < maxChars
      invariant 0 <= visited <= maxNodes && Walking(root, visited, current, value, truncated, maxChars, o)
      decreases maxNodes - visited
    {
      var p := current.value;
      var node := At(root, p);
      ghost var before := value;
      if node.Text? {
        value, truncated := Append(value, node.value, maxChars);
      }
      current := Advance(root, p, o);
      WalkSteps(root, visited, p, before, maxChars, o, value, truncated, current);
      visited := visited + 1;
    }
    StoppedWalk(root, maxChars, maxNodes, o, visited, current, value, truncated);
    if current.Some? {
      truncated := true;
    }
  }

  /** `visited` nodes have been read and `current` is the next one. */
  ghost predicate Walking(root: Node, visited: nat, current: Option<Path>, value: JsString, truncated: bool, maxChars: nat,
                          o: Options)
  {
    var nodes := PreOrderAll(Children(root), o);
    && visited <= |nodes|
    && value == Take(Gathered(nodes, visited), maxChars)
    && (truncated <==> |Gathered(nodes, visited)| > maxChars)
    && (visited > 0 ==> |Gathered(nodes, visited - 1)| < maxChars)
    && (current.None? <==> visited == |nodes|)
    && (current.Some? ==>
         current.value != [] && Has(root, current.value) && Ahead(root, current.value, o) == nodes[visited..])
  }

  lemma WalkSteps(root: Node, visited: nat, p: Path, before: JsString, maxChars: nat, o: Options,
                  value: JsString, truncated: bool, next: Option<Path>)
    requires Walking(root, visited, Some(p), before, false, maxChars, o) && |before| < maxChars
    requires value == if At(root, p).Text? then Take(Joined(before, At(root, p).value), maxChars) else before
    requires truncated <==> At(root, p).Text? && |Joined(before, At(root, p).value)| > maxChars
    requires next.None? ==> Ahead(root, p, o) == [At(root, p)]
    requires next.Some? ==> next.value != [] && Has(root, next.value)
    requires next.Some? ==> Ahead(root, p, o) == [At(root, p)] + Ahead(root, next.value, o)
    ensures Walking(root, visited + 1, next, value, truncated, maxChars, o)
  {
    var nodes := PreOrderAll(Children(root), o);
    assert nodes[visited..][0] == nodes[visited] == At(root, p);
    assert nodes[visited..][1..] == nodes[visited + 1..];
    assert Gathered(nodes, visited) == before;
    if next.Some? {
      assert ([At(root, p)] + Ahead(root, next.value, o))[1..] == Ahead(root, next.value, o);
    }
  }

  /** What the three ways of leaving the loop say about the whole tree. */
  lemma StoppedWalk(root: Node, maxChars: nat, maxNodes: nat, o: Options, visited: nat, current: Option<Path>,
                    value: JsString, truncated: bool)
    requires visited <= maxNodes && Walking(root, visited, current, value, truncated, maxChars, o)
    requires current.None? || visited == maxNodes || maxChars <= |value|
    ensures StopsAfter(PreOrderAll(Children(root), o), visited, maxChars, maxNodes)
    ensures value == Take(Gathered(PreOrderAll(Children(root), o), visited), maxChars)
    ensures value <= FullText(root, o) && |value| <= maxChars
    ensures !truncated && current.None? <==> Fits(root, maxChars, maxNodes, o)
    ensures !truncated && current.None? ==> value == FullText(root, o)
  {
    FullTextIsGathered(root, o);
    StopMeans(PreOrderAll(Children(root), o), visited, maxChars, maxNodes);
  }

  lemma StopMeans(nodes: seq<Node>, k: nat, maxChars: nat, maxNodes: nat)
    requires StopsAfter(nodes, k, maxChars, maxNodes)
    ensures Gathered(nodes, k) <= Gathered(nodes, |nodes|)
    ensures k == |nodes| && |Gathered(nodes, k)| <= maxChars <==> AllFit(nodes, maxChars, maxNodes)
  {
    GatheredGrows(nodes, k, |nodes|);
    if k < |nodes| { GatheredGrows(nodes, k, |nodes| - 1); }
  }

  /** Every node is reached with room left for at least one more character, and all the text fits. */
  predicate Fits(root: Node, maxChars: nat, maxNodes: nat, o: Options) {
    AllFit(PreOrderAll(Children(root), o), maxChars, maxNodes)
  }

  predicate AllFit(nodes: seq<Node>, maxChars: nat, maxNodes: nat) {
    |nodes| <= maxNodes && |Gathered(nodes, |nodes|)| <= maxChars &&
    (nodes != [] ==> |Gathered(nodes, |nodes| - 1)| < maxChars)
  }
}
