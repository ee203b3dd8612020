/** Level-synchronous breadth-first search: what the two steps of a level do to the node arrays, the
    sequential steps in place, and the level loop, which ends with the shortest distances. */
module BfsSteps {
  import opened BfsGraph

  const UNREACHED: nat := 0xFFFF_FFFF

  function U32(x: nat): nat {
    x % 0x1_0000_0000
  }

  /** The node arrays and the flag that says whether another level follows. */
  datatype State = State(mask: seq<nat>, updating: seq<nat>, visited: seq<nat>, cost: seq<nat>, over: nat)

  ghost predicate Shaped(g: Graph, s: State) {
    WellFormed(g) && |s.mask| == |s.updating| == |s.visited| == |s.cost| == Nodes(g)
  }

  /** Node u is masked and v is a neighbour not yet visited. */
  ghost predicate Discovers(g: Graph, s: State, u: nat, v: nat)
    requires Shaped(g, s)
  {
    Edge(g, u, v) && s.mask[u] != 0 && s.visited[v] == 0
  }

  ghost predicate Discovered(g: Graph, s: State, v: nat)
    requires Shaped(g, s)
  {
    exists u: nat :: Discovers(g, s, u, v)
  }

  /** Masked nodes are visited and share one cost. */
  ghost predicate Uniform(g: Graph, s: State, c: nat)
    requires Shaped(g, s)
  {
    forall u :: 0 <= u < Nodes(g) && s.mask[u] != 0 ==> s.visited[u] != 0 && s.cost[u] == c
  }

  /** The first step of a level: the mask is spent, and its unvisited neighbours are marked one further. */
  ghost function AfterBfs1(g: Graph, s: State, c: nat): (r: State)
    requires Shaped(g, s)
    ensures Shaped(g, r)
  {
    s.(mask := seq(Nodes(g), _ => 0),
       updating := seq(Nodes(g), v requires 0 <= v < Nodes(g) => if Discovered(g, s, v) then 1 else s.updating[v]),
       cost := seq(Nodes(g), v requires 0 <= v < Nodes(g) => if Discovered(g, s, v) then U32(c + 1) else s.cost[v]))
  }

  predicate AnyUpdating(s: State) {
    exists v :: 0 <= v < |s.updating| && s.updating[v] != 0
  }

  /** The second step: marked nodes become the mask and count as visited. */
  ghost function AfterBfs2(g: Graph, s: State): (r: State)
    requires Shaped(g, s)
    ensures Shaped(g, r)
  {
    State(seq(Nodes(g), v requires 0 <= v < Nodes(g) => if s.updating[v] != 0 then 1 else s.mask[v]),
          seq(Nodes(g), _ => 0),
          seq(Nodes(g), v requires 0 <= v < Nodes(g) => if s.updating[v] != 0 then 1 else s.visited[v]),
          s.cost, if AnyUpdating(s) then 1 else 0)
  }

  // ---- a level ----------------------------------------------------------------------------------

  ghost predicate NodeAtLevel(g: Graph, s: State, k: nat, v: nat)
    requires Shaped(g, s) && v < Nodes(g)
  {
    && s.mask[v] == (if Distance(g, v, k) then 1 else 0)
    && s.visited[v] == (if Within(g, v, k) then 1 else 0)
    && s.updating[v] == 0
    && (if Within(g, v, k) then Distance(g, v, s.cost[v]) else s.cost[v] == UNREACHED)
  }

  /** The mask is the nodes k away, the visited nodes are those within k and have their distance as cost. */
  ghost predicate Level(g: Graph, s: State, k: nat) {
    Shaped(g, s) && forall v: nat :: v < Nodes(g) ==> NodeAtLevel(g, s, k, v)
  }

  lemma LevelIsUniform(g: Graph, s: State, k: nat)
    requires Level(g, s, k)
    ensures Uniform(g, s, k)
  {
    forall u | 0 <= u < Nodes(g) && s.mask[u] != 0 ensures s.visited[u] != 0 && s.cost[u] == k {
      assert NodeAtLevel(g, s, k, u);
      WalkWithin(g, u, k, k);
      DistanceIsUnique(g, u, k, s.cost[u]);
    }
  }

  lemma LevelDiscovers(g: Graph, s: State, k: nat, v: nat)
    requires Level(g, s, k) && v < Nodes(g)
    ensures Discovered(g, s, v) <==> Distance(g, v, k + 1)
  {
    DistanceStep(g, v, k);
    assert NodeAtLevel(g, s, k, v);
    if Discovered(g, s, v) {
      var u: nat :| Discovers(g, s, u, v);
      assert NodeAtLevel(g, s, k, u);
    }
    if Distance(g, v, k + 1) {
      var u: nat :| Edge(g, u, v) && Distance(g, u, k);
      assert NodeAtLevel(g, s, k, u);
      assert Discovers(g, s, u, v);
    }
  }

  lemma LevelStepAt(g: Graph, s: State, k: nat, v: nat)
    requires Level(g, s, k) && v < Nodes(g) < UNREACHED
    ensures NodeAtLevel(g, AfterBfs2(g, AfterBfs1(g, s, k)), k + 1, v)
  {
    LevelDiscovers(g, s, k, v);
    WithinStep(g, v, k);
    assert NodeAtLevel(g, s, k, v);
    if Distance(g, v, k + 1) {
      DistanceBound(g, v, k + 1);
    }
  }

  /** The two steps take one level to the next, and the flag says whether the next is empty. */
  lemma LevelStep(g: Graph, s: State, k: nat)
    requires Level(g, s, k) && Nodes(g) < UNREACHED
    ensures Level(g, AfterBfs2(g, AfterBfs1(g, s, k)), k + 1)
    ensures AfterBfs2(g, AfterBfs1(g, s, k)).over == if NoneAt(g, k + 1) then 0 else 1
  {
    var s1 := AfterBfs1(g, s, k);
    var s2, k' := AfterBfs2(g, s1), k + 1;
    forall v: nat | v < Nodes(g) ensures NodeAtLevel(g, s2, k', v) {
      LevelStepAt(g, s, k, v);
    }
    forall v: nat | v < Nodes(g) ensures s1.updating[v] != 0 <==> Distance(g, v, k + 1) {
      LevelDiscovers(g, s, k, v);
      assert NodeAtLevel(g, s, k, v);
    }
    if AnyUpdating(s1) {
      var v :| 0 <= v < |s1.updating| && s1.updating[v] != 0;
      assert Distance(g, v, k + 1);
    }
    if !NoneAt(g, k + 1) {
      var v: nat :| Distance(g, v, k + 1);
      assert s1.updating[v] != 0;
    }
  }

  // ---- the sequential steps, in place ------------------------------------------------------------

  /** v was found by the nodes before tid, or by tid's edges before e. */
  ghost predicate Found(g: Graph, s: State, v: nat, tid: nat, e: nat)
    requires Shaped(g, s) && tid <= Nodes(g)
  {
    || (exists u: nat :: u < tid && Discovers(g, s, u, v))
    || (tid < Nodes(g) && s.mask[tid] != 0 && FoundByEdge(g, s, v, tid, e))
  }

  ghost predicate FoundByEdge(g: Graph, s: State, v: nat, tid: nat, e: nat)
    requires Shaped(g, s) && tid < Nodes(g)
  {
    v < Nodes(g) && s.visited[v] == 0 && exists e': nat :: e' < e && EdgeAt(g, tid, e', v)
  }

  lemma FoundStart(g: Graph, s: State, v: nat, tid: nat)
    requires Shaped(g, s) && tid < Nodes(g)
    ensures Found(g, s, v, tid, 0) <==> Found(g, s, v, tid, g.starting[tid])
  {
  }

  lemma FoundNode(g: Graph, s: State, v: nat, tid: nat, e: nat)
    requires Shaped(g, s) && tid < Nodes(g) && v < Nodes(g)
    requires s.mask[tid] == 0 || e == g.starting[tid] + g.degree[tid]
    ensures Found(g, s, v, tid, e) <==> Found(g, s, v, tid + 1, 0)
  {
    if Found(g, s, v, tid, e) {
      if u: nat :| u < tid && Discovers(g, s, u, v) {
        assert u < tid + 1;
      } else {
        assert Discovers(g, s, tid, v);
      }
    }
    if Found(g, s, v, tid + 1, 0) {
      var u: nat :| u < tid + 1 && Discovers(g, s, u, v);
      if u == tid {
        var e': nat :| EdgeAt(g, tid, e', v);
        assert FoundByEdge(g, s, v, tid, e);
      }
    }
  }

  lemma FoundEdge(g: Graph, s: State, v: nat, tid: nat, e: nat)
    requires Shaped(g, s) && tid < Nodes(g) && s.mask[tid] != 0 && v < Nodes(g)
    requires g.starting[tid] <= e < g.starting[tid] + g.degree[tid]
    ensures Found(g, s, v, tid, e + 1) <==> Found(g, s, v, tid, e) || (g.edges[e] == v && s.visited[v] == 0)
  {
    if g.edges[e] == v && s.visited[v] == 0 {
      assert EdgeAt(g, tid, e, v);
    }
  }

  lemma FoundAll(g: Graph, s: State, v: nat, e: nat)
    requires Shaped(g, s)
    ensures Found(g, s, v, Nodes(g), e) <==> Discovered(g, s, v)
  {
    if Discovered(g, s, v) {
      var u: nat :| Discovers(g, s, u, v);
      assert u < Nodes(g);
    }
  }

  /** What the loops of the first step have made of node v of s: the mask is spent below `spent`, and v is
      marked if found. */
  ghost predicate Step1At(s: State, now: State, c: nat, spent: nat, v: nat, found: bool, uniform: bool)
    requires v < |s.mask| == |s.updating| == |s.visited| == |s.cost|
    requires |s.mask| == |now.mask| == |now.updating| == |now.cost|
  {
    && now.mask[v] == (if v < spent then 0 else s.mask[v])
    && now.updating[v] == (if found then 1 else s.updating[v])
    && (uniform ==> now.cost[v] == if found then U32(c + 1) else s.cost[v])
  }

  /** Nodes before tid and tid's edges before e are done. */
  ghost predicate Step1(g: Graph, s: State, now: State, c: nat, spent: nat, tid: nat, e: nat)
    requires Shaped(g, s) && Shaped(g, now) && tid <= Nodes(g)
  {
    && now.visited == s.visited && now.over == s.over
    && forall v: nat :: v < Nodes(g) ==> Step1At(s, now, c, spent, v, Found(g, s, v, tid, e), Uniform(g, s, c))
  }

  lemma Step1Mask(g: Graph, s: State, now: State, c: nat, tid: nat)
    requires Shaped(g, s) && Shaped(g, now) && tid < Nodes(g) && Step1(g, s, now, c, tid, tid, 0)
    ensures Step1(g, s, now.(mask := now.mask[tid := 0]), c, tid + 1, tid, g.starting[tid])
    ensures now.mask[tid] == s.mask[tid] && (Uniform(g, s, c) && s.mask[tid] != 0 ==> now.cost[tid] == c)
  {
    var now' := now.(mask := now.mask[tid := 0]);
    forall v: nat | v < Nodes(g)
      ensures Step1At(s, now', c, tid + 1, v, Found(g, s, v, tid, g.starting[tid]), Uniform(g, s, c))
    {
      assert Step1At(s, now, c, tid, v, Found(g, s, v, tid, 0), Uniform(g, s, c));
      FoundStart(g, s, v, tid);
    }
    assert Step1At(s, now, c, tid, tid, Found(g, s, tid, tid, 0), Uniform(g, s, c));
  }

  lemma Step1Edge(g: Graph, s: State, now: State, c: nat, tid: nat, e: nat)
    requires Shaped(g, s) && Shaped(g, now) && tid < Nodes(g) && s.mask[tid] != 0
    requires g.starting[tid] <= e < g.starting[tid] + g.degree[tid] && Step1(g, s, now, c, tid + 1, tid, e)
    ensures var u := g.edges[e];
            var now' := if now.visited[u] != 0 then now
                        else now.(updating := now.updating[u := 1], cost := now.cost[u := U32(c + 1)]);
            Step1(g, s, now', c, tid + 1, tid, e + 1)
  {
    var u := g.edges[e];
    var now' := if now.visited[u] != 0 then now
                else now.(updating := now.updating[u := 1], cost := now.cost[u := U32(c + 1)]);
    var spent, e' := tid + 1, e + 1;
    forall v: nat | v < Nodes(g)
      ensures Step1At(s, now', c, spent, v, Found(g, s, v, tid, e'), Uniform(g, s, c))
    {
      assert Step1At(s, now, c, spent, v, Found(g, s, v, tid, e), Uniform(g, s, c));
      FoundEdge(g, s, v, tid, e);
    }
  }

  lemma Step1Done(g: Graph, s: State, now: State, c: nat, tid: nat, e: nat)
    requires Shaped(g, s) && Shaped(g, now) && tid < Nodes(g)
    requires if s.mask[tid] == 0 then Step1(g, s, now, c, tid, tid, e)
             else e == g.starting[tid] + g.degree[tid] && Step1(g, s, now, c, tid + 1, tid, e)
    ensures Step1(g, s, now, c, tid + 1, tid + 1, 0)
  {
    var spent := tid + 1;
    forall v: nat | v < Nodes(g)
      ensures Step1At(s, now, c, spent, v, Found(g, s, v, spent, 0), Uniform(g, s, c))
    {
      FoundNode(g, s, v, tid, e);
      assert Step1At(s, now, c, if s.mask[tid] == 0 then tid else tid + 1, v, Found(g, s, v, tid, e), Uniform(g, s, c));
    }
  }

  lemma Step1End(g: Graph, s: State, now: State, c: nat)
    requires Shaped(g, s) && Shaped(g, now) && Step1(g, s, now, c, Nodes(g), Nodes(g), 0)
    ensures now.mask == AfterBfs1(g, s, c).mask && now.updating == AfterBfs1(g, s, c).updating
    ensures Uniform(g, s, c) ==> now == AfterBfs1(g, s, c)
  {
    var end := AfterBfs1(g, s, c);
    forall v | 0 <= v < Nodes(g)
      ensures now.mask[v] == end.mask[v] && now.updating[v] == end.updating[v]
      ensures Uniform(g, s, c) ==> now.cost[v] == end.cost[v]
    {
      assert Step1At(s, now, c, Nodes(g), v, Found(g, s, v, Nodes(g), 0), Uniform(g, s, c));
      FoundAll(g, s, v, 0);
    }
  }

  class Search {
    const g: Graph
    const mask: array<nat>
    const updating: array<nat>
    const visited: array<nat>
    const cost: array<nat>
    const over: array<nat>

    ghost predicate Valid()
    {
      && WellFormed(g) && mask.Length == updating.Length == visited.Length == cost.Length == Nodes(g)
      && over.Length == 1
      && mask != updating && mask != visited && mask != cost && mask != over
      && updating != visited && updating != cost && updating != over
      && visited != cost && visited != over && cost != over
    }

    ghost function Contents(): (s: State)
      requires Valid()
      reads mask, updating, visited, cost, over
      ensures Shaped(g, s)
    {
      State(mask[..], updating[..], visited[..], cost[..], over[0])
    }

    /** Node 0 is masked, visited and free; every other node is unreached. */
    constructor (graph: Graph)
      requires WellFormed(graph) && Nodes(graph) > 0
      ensures Valid() && g == graph && fresh(mask) && fresh(updating) && fresh(visited) && fresh(cost) && fresh(over)
      ensures Level(g, Contents(), 0)
    {
      g := graph;
      mask := new nat[Nodes(graph)](i => if i == 0 then 1 else 0);
      updating := new nat[Nodes(graph)](_ => 0);
      visited := new nat[Nodes(graph)](i => if i == 0 then 1 else 0);
      cost := new nat[Nodes(graph)](i => if i == 0 then 0 else UNREACHED);
      over := new nat[1](_ => 0);
      new;
      forall v: nat | v < Nodes(g) ensures NodeAtLevel(g, Contents(), 0, v) {
        WalkWithin(g, v, 0, 0);
      }
    }

    method Bfs1Step(ghost c: nat)
      requires Valid()
      modifies mask, updating, cost
      ensures Uniform(g, old(Contents()), c) ==> Contents() == AfterBfs1(g, old(Contents()), c)
      ensures mask[..] == AfterBfs1(g, old(Contents()), c).mask
      ensures updating[..] == AfterBfs1(g, old(Contents()), c).updating
    {
      ghost var s := Contents();
      for tid := 0 to Nodes(g)
        invariant Step1(g, s, Contents(), c, tid, tid, 0)
      {
        ghost var before := Contents();
        assert Step1At(s, before, c, tid, tid, Found(g, s, tid, tid, 0), Uniform(g, s, c));
        if mask[tid] != 0 {
          mask[tid] := 0;
          var start, end := g.starting[tid], g.starting[tid] + g.degree[tid];
          var nextCost := U32(cost[tid] + 1);
          Step1Mask(g, s, before, c, tid);
          assert Contents().mask == before.mask[tid := 0];
          for edge := start to end
            invariant Step1(g, s, Contents(), c, tid + 1, tid, edge)
          {
            ghost var here := Contents();
            Step1Edge(g, s, here, c, tid, edge);
            var nodeId := g.edges[edge];
            if visited[nodeId] == 0 {
              cost[nodeId] := nextCost;
              updating[nodeId] := 1;
              assert Contents() == here.(updating := here.updating[nodeId := 1], cost := here.cost[nodeId := nextCost]);
            }
          }
        }
        Step1Done(g, s, Contents(), c, tid, if s.mask[tid] != 0 then g.starting[tid] + g.degree[tid] else 0);
      }
      Step1End(g, s, Contents(), c);
    }

    /** Nodes below tid have moved from the updating mask to the mask. */
    ghost predicate Step2(s: State, tid: nat)
      requires Valid() && Shaped(g, s) && tid <= Nodes(g)
      reads mask, updating, visited, over
    {
      && (forall v: nat :: v < Nodes(g) ==>
           && updating[v] == (if v < tid then 0 else s.updating[v])
           && mask[v] == (if v < tid && s.updating[v] != 0 then 1 else s.mask[v])
           && visited[v] == (if v < tid && s.updating[v] != 0 then 1 else s.visited[v]))
      && over[0] == if exists v :: 0 <= v < tid && s.updating[v] != 0 then 1 else 0
    }

    method Bfs2Step()
      requires Valid()
      modifies mask, updating, visited, over
      ensures Contents() == AfterBfs2(g, old(Contents()))
    {
      ghost var s := Contents();
      over[0] := 0;
      for tid := 0 to Nodes(g)
        invariant Step2(s, tid)
      {
        if updating[tid] != 0 {
          mask[tid] := 1;
          visited[tid] := 1;
          over[0] := 1;
          updating[tid] := 0;
        }
      }
    }

    /** The level loop ends, and leaves every node its shortest distance from node 0. */
    method Run()
      requires Valid() && 0 < Nodes(g) < UNREACHED && Level(g, Contents(), 0)
      modifies mask, updating, visited, cost, over
      ensures forall v: nat :: v < Nodes(g) ==>
                if Reachable(g, v) then Distance(g, v, cost[v]) && cost[v] < Nodes(g) else cost[v] == UNREACHED
      ensures forall v: nat :: v < Nodes(g) ==> visited[v] == if Reachable(g, v) then 1 else 0
    {
      var level := 0;
      RootDistance(g);
      while true
        invariant Level(g, Contents(), level) && !NoneAt(g, level)
        decreases Nodes(g) - level
      {
        ghost var s := Contents();
        LevelIsUniform(g, s, level);
        LevelStep(g, s, level);
        FarthestLevel(g, level);
        Bfs1Step(level);
        Bfs2Step();
        level := level + 1;
        if over[0] == 0 { break; }
      }
      LastLevel(g, Contents(), level);
    }
  }

  lemma RootDistance(g: Graph)
    requires WellFormed(g) && Nodes(g) > 0
    ensures !NoneAt(g, 0)
  {
    assert Distance(g, 0, 0);
  }

  lemma FarthestLevel(g: Graph, k: nat)
    requires WellFormed(g) && !NoneAt(g, k)
    ensures k < Nodes(g)
  {
    var v: nat :| Distance(g, v, k);
    DistanceBound(g, v, k);
  }

  /** Once a level is empty every reachable node has been visited. */
  lemma LastLevel(g: Graph, s: State, k: nat)
    requires Level(g, s, k) && NoneAt(g, k) && k > 0
    ensures forall v: nat :: v < Nodes(g) ==>
              if Reachable(g, v) then Distance(g, v, s.cost[v]) && s.cost[v] < Nodes(g) else s.cost[v] == UNREACHED
    ensures forall v: nat :: v < Nodes(g) ==> s.visited[v] == if Reachable(g, v) then 1 else 0
  {
    forall v: nat | v < Nodes(g) ensures Within(g, v, k) <==> Reachable(g, v) {
      if j: nat :| Walk(g, v, j) {
        NothingFurther(g, k - 1, v, j);
        WithinStep(g, v, k - 1);
      }
    }
    forall v: nat | v < Nodes(g)
      ensures if Reachable(g, v) then Distance(g, v, s.cost[v]) && s.cost[v] < Nodes(g) else s.cost[v] == UNREACHED
      ensures s.visited[v] == if Reachable(g, v) then 1 else 0
    {
      assert NodeAtLevel(g, s, k, v);
      if Reachable(g, v) { DistanceBound(g, v, s.cost[v]); }
    }
  }
}
