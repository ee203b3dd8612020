/** Graphs in compressed-sparse-row form, walks in them, and the builders of the generated graphs. */
module BfsGraph {

  /** Node u's neighbours are edges[starting[u]..starting[u] + degree[u]]. */
  datatype Graph = Graph(starting: seq<nat>, degree: seq<nat>, edges: seq<nat>)

  ghost predicate WellFormed(g: Graph) {
    && |g.starting| == |g.degree|
    && (forall u :: 0 <= u < |g.starting| ==> g.starting[u] + g.degree[u] <= |g.edges|)
    && (forall e :: 0 <= e < |g.edges| ==> g.edges[e] < |g.starting|)
  }

  function Nodes(g: Graph): nat {
    |g.starting|
  }

  ghost predicate EdgeAt(g: Graph, u: nat, e: nat, v: nat)
    requires WellFormed(g) && u < Nodes(g)
  {
    g.starting[u] <= e < g.starting[u] + g.degree[u] && g.edges[e] == v
  }

  ghost predicate Edge(g: Graph, u: nat, v: nat)
    requires WellFormed(g)
  {
    u < Nodes(g) && exists e: nat :: EdgeAt(g, u, e, v)
  }

  /** Some walk of k edges leads from node 0 to v. */
  ghost predicate Walk(g: Graph, v: nat, k: nat)
    requires WellFormed(g)
    decreases k
  {
    v < Nodes(g) && if k == 0 then v == 0 else exists u :: Edge(g, u, v) && Walk(g, u, k - 1)
  }

  /** v is within k edges of node 0. */
  ghost predicate Within(g: Graph, v: nat, k: nat)
    requires WellFormed(g)
  {
    exists j :: 0 <= j <= k && Walk(g, v, j)
  }

  /** The shortest walk from node 0 to v has k edges. */
  ghost predicate Distance(g: Graph, v: nat, k: nat)
    requires WellFormed(g)
  {
    Walk(g, v, k) && (k > 0 ==> !Within(g, v, k - 1))
  }

  ghost predicate Reachable(g: Graph, v: nat)
    requires WellFormed(g)
  {
    exists k :: Walk(g, v, k)
  }

  lemma WithinStep(g: Graph, v: nat, k: nat)
    requires WellFormed(g)
    ensures Within(g, v, k + 1) <==> Within(g, v, k) || Distance(g, v, k + 1)
  {
    if Within(g, v, k + 1) && !Within(g, v, k) {
      var j :| 0 <= j <= k + 1 && Walk(g, v, j);
      assert j == k + 1;
    }
    if Within(g, v, k) {
      var j :| 0 <= j <= k && Walk(g, v, j);
      WalkWithin(g, v, j, k + 1);
    }
  }

  lemma WalkWithin(g: Graph, v: nat, j: nat, k: nat)
    requires WellFormed(g)
    ensures Walk(g, v, j) && j <= k ==> Within(g, v, k)
  {
  }

  lemma WalkBelow(g: Graph, v: nat, j: nat, k: nat)
    requires WellFormed(g)
    ensures Walk(g, v, j) && j < k ==> Within(g, v, k - 1)
  {
  }

  ghost predicate NoneAt(g: Graph, k: nat)
    requires WellFormed(g)
  {
    forall v: nat :: !Distance(g, v, k)
  }

  lemma DistanceIsUnique(g: Graph, v: nat, j: nat, k: nat)
    requires WellFormed(g) && Distance(g, v, j) && Distance(g, v, k)
    ensures j == k
  {
    WalkBelow(g, v, j, k);
    WalkBelow(g, v, k, j);
  }

  lemma {:induction false} WithinHasDistance(g: Graph, v: nat, k: nat) returns (d: nat)
    requires WellFormed(g) && Within(g, v, k)
    ensures d <= k && Distance(g, v, d)
  {
    if k == 0 {
      d := 0;
    } else if Within(g, v, k - 1) {
      d := WithinHasDistance(g, v, k - 1);
    } else {
      WithinStep(g, v, k - 1);
      d := k;
    }
  }

  /** A node is k + 1 away exactly when it is no nearer and a neighbour of one k away. */
  lemma DistanceStep(g: Graph, v: nat, k: nat)
    requires WellFormed(g)
    ensures Distance(g, v, k + 1)
            <==> v < Nodes(g) && !Within(g, v, k) && exists u :: Edge(g, u, v) && Distance(g, u, k)
  {
    if Distance(g, v, k + 1) {
      var u :| Edge(g, u, v) && Walk(g, u, k);
      if k > 0 && Within(g, u, k - 1) {
        var j :| 0 <= j <= k - 1 && Walk(g, u, j);
        assert Walk(g, v, j + 1);
        assert Within(g, v, k);
      }
      assert Distance(g, u, k);
    }
    if v < Nodes(g) && !Within(g, v, k) && exists u :: Edge(g, u, v) && Distance(g, u, k) {
      var u :| Edge(g, u, v) && Distance(g, u, k);
      assert Walk(g, v, k + 1);
    }
  }

  /** When no node is k + 1 away, every reachable node is within k. */
  lemma {:induction false} NothingFurther(g: Graph, k: nat, v: nat, j: nat)
    requires WellFormed(g) && NoneAt(g, k + 1) && Walk(g, v, j)
    ensures Within(g, v, k)
    decreases j
  {
    if j > k {
      var u :| Edge(g, u, v) && Walk(g, u, j - 1);
      NothingFurther(g, k, u, j - 1);
      var i :| 0 <= i <= k && Walk(g, u, i);
      assert Walk(g, v, i + 1);
      assert Within(g, v, k + 1);
      WithinStep(g, v, k);
    }
  }

  ghost function Ball(g: Graph, k: nat): (b: set<nat>)
    requires WellFormed(g)
  {
    set v | 0 <= v < Nodes(g) && Within(g, v, k)
  }

  /** A node k away leaves at least k + 1 nodes within k. */
  lemma {:induction false} BallGrows(g: Graph, v: nat, k: nat)
    requires WellFormed(g) && Distance(g, v, k)
    ensures |Ball(g, k)| >= k + 1
    decreases k
  {
    assert Within(g, v, k);
    if k == 0 {
      assert {v} <= Ball(g, 0);
      SubsetSize({v}, Ball(g, 0));
    } else {
      DistanceStep(g, v, k - 1);
      var u :| Edge(g, u, v) && Distance(g, u, k - 1);
      BallGrows(g, u, k - 1);
      forall w | w in Ball(g, k - 1) ensures w in Ball(g, k) { WithinStep(g, w, k - 1); }
      SubsetSize(Ball(g, k - 1) + {v}, Ball(g, k));
    }
  }

  lemma {:induction false} SubsetSize(a: set<nat>, b: set<nat>)
    requires a <= b
    ensures |a| <= |b|
  {
    if a != {} {
      var x :| x in a;
      SubsetSize(a - {x}, b - {x});
    }
  }

  lemma {:induction false} RangeSize(a: set<nat>, n: nat)
    requires forall x :: x in a ==> x < n
    ensures |a| <= n
  {
    if n > 0 {
      RangeSize(a - {n - 1}, n - 1);
      SubsetSize(a, (a - {n - 1}) + {n - 1});
    } else {
      assert a == {};
    }
  }

  lemma DistanceBound(g: Graph, v: nat, k: nat)
    requires WellFormed(g) && Distance(g, v, k)
    ensures k < Nodes(g)
  {
    BallGrows(g, v, k);
    RangeSize(Ball(g, k), Nodes(g));
  }

  // ---- the builders ------------------------------------------------------------------------------

  ghost predicate Adjacency(a: seq<seq<nat>>) {
    forall u, i :: 0 <= u < |a| && 0 <= i < |a[u]| ==> a[u][i] < |a|
  }

  /** Where the slices of the first u nodes end. */
  function EndOf(g: Graph, u: nat): nat
    requires u <= |g.starting| == |g.degree|
  {
    if u == 0 then 0 else g.starting[u - 1] + g.degree[u - 1]
  }

  /** The slices of the first n nodes are their adjacency lists, end to end. */
  ghost predicate Lists(g: Graph, adjacency: seq<seq<nat>>, n: nat) {
    && |g.starting| == |g.degree| == n <= |adjacency|
    && |g.edges| == EndOf(g, n)
    && forall u :: 0 <= u < n ==> ListAt(g, u, adjacency[u])
  }

  ghost predicate ListAt(g: Graph, u: nat, neighbours: seq<nat>)
    requires u < |g.starting| == |g.degree|
  {
    && g.starting[u] == EndOf(g, u) && g.starting[u] + g.degree[u] <= |g.edges|
    && g.edges[g.starting[u]..g.starting[u] + g.degree[u]] == neighbours
  }

  lemma ListsStep(g: Graph, adjacency: seq<seq<nat>>, n: nat)
    requires Lists(g, adjacency, n) && n < |adjacency|
    ensures Lists(Graph(g.starting + [|g.edges|], g.degree + [|adjacency[n]|], g.edges + adjacency[n]), adjacency,
                  n + 1)
  {
    var g' := Graph(g.starting + [|g.edges|], g.degree + [|adjacency[n]|], g.edges + adjacency[n]);
    forall u | 0 <= u < n + 1 ensures ListAt(g', u, adjacency[u]) {
      if u < n {
        assert ListAt(g, u, adjacency[u]);
        assert EndOf(g', u) == EndOf(g, u);
        var from, to := g.starting[u], g.starting[u] + g.degree[u];
        assert g'.edges[from..to] == g.edges[from..to];
      }
    }
  }

  /** Flattening adjacency lists keeps every neighbour, in order, and nothing else. */
  method BuildGraph(adjacency: seq<seq<nat>>) returns (g: Graph)
    requires Adjacency(adjacency)
    ensures WellFormed(g) && Lists(g, adjacency, |adjacency|)
    ensures forall u: nat, v: nat :: u < |adjacency| ==> (Edge(g, u, v) <==> v in adjacency[u])
  {
    var starting: seq<nat>, degree: seq<nat>, edges: seq<nat> := [], [], [];
    var cursor := 0;
    for i := 0 to |adjacency|
      invariant cursor == |edges| && Lists(Graph(starting, degree, edges), adjacency, i)
      invariant forall e :: 0 <= e < |edges| ==> edges[e] < |adjacency|
    {
      ListsStep(Graph(starting, degree, edges), adjacency, i);
      starting := starting + [cursor];
      degree := degree + [|adjacency[i]|];
      edges := edges + adjacency[i];
      cursor := cursor + |adjacency[i]|;
    }
    g := Graph(starting, degree, edges);
    forall u | 0 <= u < |adjacency| ensures g.starting[u] + g.degree[u] <= |g.edges| {
      assert ListAt(g, u, adjacency[u]);
    }
    forall u: nat, v: nat | u < |adjacency| ensures Edge(g, u, v) <==> v in adjacency[u] {
      assert ListAt(g, u, adjacency[u]);
      SliceEdges(g, u, v, adjacency[u]);
    }
  }

  lemma SliceEdges(g: Graph, u: nat, v: nat, neighbours: seq<nat>)
    requires WellFormed(g) && u < Nodes(g) && g.edges[g.starting[u]..g.starting[u] + g.degree[u]] == neighbours
    ensures Edge(g, u, v) <==> v in neighbours
  {
    if Edge(g, u, v) {
      var e: nat :| EdgeAt(g, u, e, v);
      assert neighbours[e - g.starting[u]] == v;
    }
    if v in neighbours {
      var i :| 0 <= i < |neighbours| && neighbours[i] == v;
      assert EdgeAt(g, u, g.starting[u] + i, v);
    }
  }

  // ---- the generated trees -----------------------------------------------------------------------

  datatype Tree = Tree(adjacency: seq<seq<nat>>) | ValueError(message: string)

  /** First node of level i, which is also the number of nodes above it. */
  function LevelStart(branching: nat, i: nat): nat {
    if i == 0 then 0 else branching * LevelStart(branching, i - 1) + 1
  }

  function Range(start: nat, n: nat): (r: seq<nat>)
    ensures |r| == n && forall i :: 0 <= i < n ==> r[i] == start + i
  {
    seq(n, i requires 0 <= i < n => start + i)
  }

  function Children(branching: nat, u: nat): seq<nat> {
    Range(branching * u + 1, branching)
  }

  /** The first `inner` nodes have their children, the others none. */
  ghost predicate Built(branching: nat, adjacency: seq<seq<nat>>, inner: nat) {
    forall u: nat :: u < |adjacency| ==> adjacency[u] == if u < inner then Children(branching, u) else []
  }

  lemma {:induction false} LevelsGrow(branching: nat, i: nat, j: nat)
    requires branching > 0 && i < j
    ensures LevelStart(branching, i) < LevelStart(branching, j)
    decreases j
  {
    assert branching * LevelStart(branching, j - 1) >= LevelStart(branching, j - 1);
    if i < j - 1 { LevelsGrow(branching, i, j - 1); }
  }

  lemma LevelWidth(branching: nat, d: nat, n: nat)
    ensures branching * (LevelStart(branching, d) + n) + 1 == LevelStart(branching, d + 1) + branching * n
    ensures branching * (n + 1) == branching * n + branching
  {
  }

  /** New nodes without neighbours at the end. */
  method AddChildren(before: seq<seq<nat>>, branching: nat, ghost inner: nat)
    returns (adjacency: seq<seq<nat>>, children: seq<nat>)
    requires Built(branching, before, inner) && inner <= |before|
    ensures children == Range(|before|, branching) && |adjacency| == |before| + branching
            && Built(branching, adjacency, inner)
  {
    adjacency, children := before, [];
    for c := 0 to branching
      invariant children == Range(|before|, c)
      invariant |adjacency| == |before| + c && Built(branching, adjacency, inner)
    {
      children := children + [|adjacency|];
      adjacency := adjacency + [[]];
    }
  }

  /** Every node above the last level gets `branching` children, numbered level by level. */
  method BuildTreeAdjacency(branching: int, depth: int) returns (t: Tree)
    ensures branching <= 0 ==> t == ValueError("BFS_BRANCHING must be positive")
    ensures branching > 0 && depth < 0 ==> t == ValueError("BFS_DEPTH must be non-negative")
    ensures branching > 0 && depth >= 0 ==>
              t.Tree? && |t.adjacency| == LevelStart(branching, depth + 1)
              && Built(branching, t.adjacency, LevelStart(branching, depth))
  {
    if branching <= 0 { return ValueError("BFS_BRANCHING must be positive"); }
    if depth < 0 { return ValueError("BFS_DEPTH must be non-negative"); }
    var adjacency: seq<seq<nat>>, level: seq<nat> := [[]], [0];
    for d := 0 to depth
      invariant |adjacency| == LevelStart(branching, d + 1) >= LevelStart(branching, d)
      invariant level == Range(LevelStart(branching, d), LevelStart(branching, d + 1) - LevelStart(branching, d))
      invariant Built(branching, adjacency, LevelStart(branching, d))
    {
      var nextLevel: seq<nat> := [];
      ghost var first, last := LevelStart(branching, d), LevelStart(branching, d + 1);
      for n := 0 to |level|
        invariant |adjacency| == last + branching * n
        invariant nextLevel == Range(last, branching * n)
        invariant Built(branching, adjacency, first + n)
      {
        LevelWidth(branching, d, n);
        var children;
        adjacency, children := AddChildren(adjacency, branching, first + n);
        adjacency := adjacency[level[n] := children];
        nextLevel := nextLevel + children;
      }
      LevelWidth(branching, d, |level|);
      LevelsGrow(branching, d + 1, d + 2);
      level := nextLevel;
    }
    t := Tree(adjacency);
  }

  ghost predicate InLevel(branching: nat, v: nat, k: nat) {
    LevelStart(branching, k) <= v < LevelStart(branching, k + 1)
  }

  ghost predicate IsTree(g: Graph, branching: nat, depth: nat) {
    && WellFormed(g) && branching > 0 && Nodes(g) == LevelStart(branching, depth + 1)
    && forall u: nat, v: nat :: u < Nodes(g) ==>
         (Edge(g, u, v) <==> u < LevelStart(branching, depth) && branching * u + 1 <= v <= branching * u + branching)
  }

  lemma ChildLevel(branching: nat, u: nat, v: nat, k: nat)
    requires branching > 0 && branching * u + 1 <= v <= branching * u + branching
    ensures InLevel(branching, u, k) <==> InLevel(branching, v, k + 1)
  {
    var lo, hi := LevelStart(branching, k), LevelStart(branching, k + 1);
    assert LevelStart(branching, k + 1) == branching * lo + 1 && LevelStart(branching, k + 2) == branching * hi + 1;
    Scaled(branching, u, lo);
    Scaled(branching, u, hi);
  }

  lemma Scaled(b: nat, u: nat, x: nat)
    ensures u >= x ==> b * u >= b * x
    ensures u < x ==> b * u + b <= b * x
  {
    if u < x { assert b * (u + 1) <= b * x; }
  }

  lemma Parent(branching: nat, v: nat) returns (u: nat)
    requires branching > 0 && v > 0
    ensures branching * u + 1 <= v <= branching * u + branching
  {
    u := (v - 1) / branching;
    Quotient(v - 1, branching);
  }

  lemma {:induction false} WalkLevel(g: Graph, branching: nat, depth: nat, v: nat, k: nat)
    requires IsTree(g, branching, depth) && Walk(g, v, k)
    ensures InLevel(branching, v, k)
    decreases k
  {
    if k > 0 {
      var u: nat :| Edge(g, u, v) && Walk(g, u, k - 1);
      WalkLevel(g, branching, depth, u, k - 1);
      ChildLevel(branching, u, v, k - 1);
    }
  }

  lemma {:induction false} LevelWalk(g: Graph, branching: nat, depth: nat, v: nat, k: nat)
    requires IsTree(g, branching, depth) && v < Nodes(g) && InLevel(branching, v, k)
    ensures Walk(g, v, k)
    decreases k
  {
    if k > 0 {
      var u := Parent(branching, v);
      ChildLevel(branching, u, v, k - 1);
      ParentIsInner(branching, depth, u, v);
      LevelWalk(g, branching, depth, u, k - 1);
      assert Edge(g, u, v);
    }
  }

  lemma Quotient(x: nat, d: nat)
    requires d > 0
    ensures d * (x / d) <= x < d * (x / d) + d
  {
  }

  lemma ParentIsInner(branching: nat, depth: nat, u: nat, v: nat)
    requires branching > 0 && branching * u + 1 <= v < LevelStart(branching, depth + 1)
    ensures u < LevelStart(branching, depth) <= LevelStart(branching, depth + 1)
  {
    Scaled(branching, u, LevelStart(branching, depth));
    LevelsGrow(branching, depth, depth + 1);
  }

  /** Children are nodes: a built tree's lists are adjacency lists. */
  lemma BuiltIsAdjacency(branching: nat, depth: nat, adjacency: seq<seq<nat>>)
    requires branching > 0 && |adjacency| == LevelStart(branching, depth + 1)
    requires Built(branching, adjacency, LevelStart(branching, depth))
    ensures Adjacency(adjacency)
  {
    forall u: nat, i: nat | u < |adjacency| && i < |adjacency[u]| ensures adjacency[u][i] < |adjacency| {
      Scaled(branching, u, LevelStart(branching, depth));
    }
  }

  /** The graph of a built tree is the tree. */
  lemma BuiltIsTree(g: Graph, branching: nat, depth: nat, adjacency: seq<seq<nat>>)
    requires branching > 0 && |adjacency| == LevelStart(branching, depth + 1)
    requires Built(branching, adjacency, LevelStart(branching, depth))
    requires WellFormed(g) && Nodes(g) == |adjacency|
    requires forall u: nat, v: nat :: u < |adjacency| ==> (Edge(g, u, v) <==> v in adjacency[u])
    ensures IsTree(g, branching, depth)
  {
    forall u: nat, v: nat | u < Nodes(g)
      ensures Edge(g, u, v) <==> u < LevelStart(branching, depth) && branching * u + 1 <= v <= branching * u + branching
    {
      InChildren(branching, u, v);
      assert Edge(g, u, v) <==> v in adjacency[u];
    }
  }

  lemma InChildren(branching: nat, u: nat, v: nat)
    ensures v in Children(branching, u) <==> branching * u + 1 <= v <= branching * u + branching
  {
    if branching * u + 1 <= v <= branching * u + branching {
      assert Children(branching, u)[v - branching * u - 1] == v;
    }
  }

  /** The distance of a node of a generated tree from the root is its level. */
  lemma TreeDistances(g: Graph, branching: nat, depth: nat, v: nat, k: nat)
    requires IsTree(g, branching, depth) && v < Nodes(g)
    ensures Distance(g, v, k) <==> InLevel(branching, v, k)
  {
    if Distance(g, v, k) { WalkLevel(g, branching, depth, v, k); }
    if InLevel(branching, v, k) {
      LevelWalk(g, branching, depth, v, k);
      if k > 0 && Within(g, v, k - 1) {
        var j :| 0 <= j <= k - 1 && Walk(g, v, j);
        WalkLevel(g, branching, depth, v, j);
        if j + 1 < k { LevelsGrow(branching, j + 1, k); }
      }
    }
  }

  /** The generator: a tree's adjacency lists, flattened. */
  method GenerateTree(branching: int, depth: int) returns (t: Tree, g: Graph)
    ensures branching <= 0 || depth < 0 ==> t.ValueError?
    ensures branching > 0 && depth >= 0 ==> t.Tree? && IsTree(g, branching, depth)
    ensures branching > 0 && depth >= 0 ==>
              forall v: nat, k: nat :: v < Nodes(g) ==> (Distance(g, v, k) <==> InLevel(branching, v, k))
  {
    t := BuildTreeAdjacency(branching, depth);
    if t.ValueError? { return t, Graph([], [], []); }
    BuiltIsAdjacency(branching, depth, t.adjacency);
    g := BuildGraph(t.adjacency);
    BuiltIsTree(g, branching, depth, t.adjacency);
    forall v: nat, k: nat | v < Nodes(g) ensures Distance(g, v, k) <==> InLevel(branching, v, k) {
      TreeDistances(g, branching, depth, v, k);
    }
  }
}
