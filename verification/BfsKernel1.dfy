/** The first kernel of a level on any number of threads.  Threads stride over the nodes and interleave at
    every load and store; several may store to one neighbour. */
module BfsKernel1 {
  import opened BfsGraph
  import opened BfsSteps
  import opened GridStride

  datatype Pc = Test | Clear | LoadCost | Scan | StoreCost | StoreUpdating

  /** The registers of one thread. */
  datatype Thread = Thread(pc: Pc, tid: nat, e: nat, end: nat, next: nat)

  datatype Machine = Machine(s: State, threads: seq<Thread>)

  /** Node and edge numbers fit 32 bits, also one stride past the last node. */
  ghost predicate Representable(g: Graph, threads: nat) {
    WellFormed(g) && threads > 0 && Nodes(g) + threads <= 0x1_0000_0000 && |g.edges| < 0x1_0000_0000
  }

  predicate Finished(g: Graph, th: Thread) {
    th.pc == Test && th.tid >= Nodes(g)
  }

  /** Registers inside their ranges, so that the loads and stores of the next step are. */
  ghost predicate InRange(g: Graph, th: Thread) {
    && WellFormed(g)
    && (th.pc != Test ==> th.tid < Nodes(g))
    && (th.pc == Scan || th.pc == StoreCost || th.pc == StoreUpdating ==>
          g.starting[th.tid] <= th.e <= th.end == g.starting[th.tid] + g.degree[th.tid])
    && (th.pc == StoreCost || th.pc == StoreUpdating ==> th.e < th.end)
  }

  function NextNode(th: Thread, stride: nat): Thread {
    th.(pc := Test, tid := U32(th.tid + stride))
  }

  /** One load or store of a thread with the registers it changes. */
  ghost function ThreadStep(g: Graph, s: State, th: Thread, stride: nat): (r: (State, Thread))
    requires Shaped(g, s) && InRange(g, th)
    ensures Shaped(g, r.0)
  {
    match th.pc
    case Test =>
      if th.tid >= Nodes(g) then (s, th)
      else if s.mask[th.tid] == 0 then (s, NextNode(th, stride))
      else (s, th.(pc := Clear))
    case Clear => (s.(mask := s.mask[th.tid := 0]), th.(pc := LoadCost))
    case LoadCost =>
      (s, th.(pc := Scan, e := g.starting[th.tid], end := U32(g.starting[th.tid] + g.degree[th.tid]),
              next := U32(s.cost[th.tid] + 1)))
    case Scan =>
      if th.e >= th.end then (s, NextNode(th, stride))
      else if s.visited[g.edges[th.e]] == 0 then (s, th.(pc := StoreCost))
      else (s, th.(e := U32(th.e + 1)))
    case StoreCost => (s.(cost := s.cost[g.edges[th.e] := th.next]), th.(pc := StoreUpdating))
    case StoreUpdating => (s.(updating := s.updating[g.edges[th.e] := 1]), th.(pc := Scan, e := U32(th.e + 1)))
  }

  ghost predicate WellTyped(g: Graph, m: Machine) {
    Shaped(g, m.s) && forall t :: 0 <= t < |m.threads| ==> InRange(g, m.threads[t])
  }

  ghost function Step(g: Graph, m: Machine, t: nat): Machine
    requires WellTyped(g, m) && t < |m.threads|
  {
    var r := ThreadStep(g, m.s, m.threads[t], |m.threads|);
    Machine(r.0, m.threads[t := r.1])
  }

  function Start(s: State, threads: nat): Machine {
    Machine(s, seq(threads, t requires 0 <= t < threads => Thread(Test, t, 0, 0, 0)))
  }

  ghost predicate AllFinished(g: Graph, m: Machine) {
    forall t :: 0 <= t < |m.threads| ==> Finished(g, m.threads[t])
  }

  // ---- the invariant ----------------------------------------------------------------------------

  predicate Scanning(pc: Pc) {
    pc == Scan || pc == StoreCost || pc == StoreUpdating
  }

  /** The thread has cleared (or passed) the mask of node v. */
  predicate Spent(th: Thread, v: nat) {
    v < th.tid || (v == th.tid && th.pc != Test && th.pc != Clear)
  }

  /** The thread has passed edge e of node u. */
  predicate Passed(th: Thread, u: nat, e: nat) {
    u < th.tid || (u == th.tid && Scanning(th.pc) && e < th.e)
  }

  ghost predicate ThreadOk(g: Graph, s0: State, c: nat, s: State, t: nat, stride: nat, th: Thread)
    requires Shaped(g, s0) && Shaped(g, s) && stride > 0
  {
    && InRange(g, th) && Lane(th.tid, stride) == t
    && (th.pc != Test ==> s0.mask[th.tid] != 0)
    && (Scanning(th.pc) ==> th.next == U32(c + 1))
    && (th.pc == StoreCost || th.pc == StoreUpdating ==> s0.visited[g.edges[th.e]] == 0)
    && (th.pc == StoreUpdating ==> s.cost[g.edges[th.e]] == U32(c + 1))
  }

  /** A neighbour is untouched, or touched by threads that discovered it. */
  ghost predicate NodeOk(g: Graph, s0: State, c: nat, s: State, v: nat, owner: Thread)
    requires Shaped(g, s0) && Shaped(g, s) && v < Nodes(g)
  {
    && s.mask[v] == (if Spent(owner, v) then 0 else s0.mask[v])
    && (s.cost[v] == s0.cost[v] || (Discovered(g, s0, v) && s.cost[v] == U32(c + 1)))
    && (s.updating[v] == s0.updating[v] || (Discovered(g, s0, v) && s.updating[v] == 1))
  }

  ghost predicate Marked(s: State, c: nat, v: nat)
    requires v < |s.cost| == |s.updating|
  {
    s.cost[v] == U32(c + 1) && s.updating[v] == 1
  }

  /** Every passed edge to an unvisited node has left its mark. */
  ghost predicate EdgeOk(g: Graph, s0: State, c: nat, s: State, u: nat, e: nat, owner: Thread)
    requires Shaped(g, s0) && Shaped(g, s) && IsEdge(g, u, e)
  {
    s0.mask[u] != 0 && Passed(owner, u, e) && s0.visited[g.edges[e]] == 0 ==> Marked(s, c, g.edges[e])
  }

  ghost predicate IsEdge(g: Graph, u: nat, e: nat)
    requires WellFormed(g)
  {
    u < Nodes(g) && g.starting[u] <= e < g.starting[u] + g.degree[u]
  }

  function Owner(m: Machine, v: nat): Thread
    requires |m.threads| > 0
  {
    m.threads[Lane(v, |m.threads|)]
  }

  ghost predicate Invariant(g: Graph, s0: State, c: nat, m: Machine) {
    && Shaped(g, s0) && Shaped(g, m.s) && Uniform(g, s0, c) && Representable(g, |m.threads|)
    && m.s.visited == s0.visited && m.s.over == s0.over
    && (forall t: nat :: t < |m.threads| ==> ThreadOk(g, s0, c, m.s, t, |m.threads|, m.threads[t]))
    && (forall v: nat :: v < Nodes(g) ==> NodeOk(g, s0, c, m.s, v, Owner(m, v)))
    && (forall u: nat, e: nat :: IsEdge(g, u, e) ==> EdgeOk(g, s0, c, m.s, u, e, Owner(m, u)))
  }

  lemma StartInvariant(g: Graph, s0: State, c: nat, threads: nat)
    requires Shaped(g, s0) && Uniform(g, s0, c) && Representable(g, threads)
    ensures Invariant(g, s0, c, Start(s0, threads))
  {
    var m := Start(s0, threads);
    forall v: nat | v < Nodes(g) ensures !Spent(Owner(m, v), v) && Owner(m, v).pc == Test && Owner(m, v).tid <= v {
    }
    forall t: nat | t < threads ensures ThreadOk(g, s0, c, m.s, t, threads, m.threads[t]) {
    }
  }

  lemma InvariantTyped(g: Graph, s0: State, c: nat, m: Machine)
    requires Invariant(g, s0, c, m)
    ensures WellTyped(g, m)
  {
  }

  lemma StrideOn(g: Graph, th: Thread, stride: nat)
    requires Representable(g, stride) && th.tid < Nodes(g)
    ensures NextNode(th, stride).tid == th.tid + stride && Lane(th.tid + stride, stride) == Lane(th.tid, stride)
    ensures forall v: nat :: Lane(v, stride) == Lane(th.tid, stride) && v < th.tid + stride ==> v <= th.tid
  {
    forall v: nat | Lane(v, stride) == Lane(th.tid, stride) && v < th.tid + stride ensures v <= th.tid {
      LaneGap(v, th.tid, stride);
    }
  }

  lemma StoresAreDiscoveries(g: Graph, s0: State, c: nat, s: State, t: nat, stride: nat, th: Thread)
    requires Shaped(g, s0) && Shaped(g, s) && stride > 0 && ThreadOk(g, s0, c, s, t, stride, th)
    requires th.pc == StoreCost || th.pc == StoreUpdating
    ensures Discovered(g, s0, g.edges[th.e])
  {
    assert EdgeAt(g, th.tid, th.e, g.edges[th.e]);
    assert Discovers(g, s0, th.tid, g.edges[th.e]);
  }

  lemma StepNode(g: Graph, s0: State, c: nat, m: Machine, t: nat, v: nat)
    requires Invariant(g, s0, c, m) && WellTyped(g, m) && t < |m.threads| && v < Nodes(g)
    ensures var m' := Step(g, m, t); NodeOk(g, s0, c, m'.s, v, Owner(m', v))
  {
    var th := m.threads[t];
    assert ThreadOk(g, s0, c, m.s, t, |m.threads|, th);
    assert NodeOk(g, s0, c, m.s, v, Owner(m, v));
    if th.pc == StoreCost || th.pc == StoreUpdating { StoresAreDiscoveries(g, s0, c, m.s, t, |m.threads|, th); }
    if th.tid < Nodes(g) {
      StrideOn(g, th, |m.threads|);
      assert NodeOk(g, s0, c, m.s, th.tid, Owner(m, th.tid));
    }
  }

  lemma StepThread(g: Graph, s0: State, c: nat, m: Machine, t: nat, i: nat)
    requires Invariant(g, s0, c, m) && WellTyped(g, m) && t < |m.threads| && i < |m.threads|
    ensures var m' := Step(g, m, t); ThreadOk(g, s0, c, m'.s, i, |m.threads|, m'.threads[i])
  {
    if i == t { StepSameThread(g, s0, c, m, t); } else { StepOtherThread(g, s0, c, m, t, i); }
  }

  lemma StepSameThread(g: Graph, s0: State, c: nat, m: Machine, t: nat)
    requires Invariant(g, s0, c, m) && WellTyped(g, m) && t < |m.threads|
    ensures var m' := Step(g, m, t); ThreadOk(g, s0, c, m'.s, t, |m.threads|, m'.threads[t])
  {
    var th := m.threads[t];
    assert ThreadOk(g, s0, c, m.s, t, |m.threads|, th);
    if th.tid < Nodes(g) {
      StrideOn(g, th, |m.threads|);
      assert NodeOk(g, s0, c, m.s, th.tid, Owner(m, th.tid));
    }
  }

  lemma StepOtherThread(g: Graph, s0: State, c: nat, m: Machine, t: nat, i: nat)
    requires Invariant(g, s0, c, m) && WellTyped(g, m) && t < |m.threads| && i < |m.threads| && i != t
    ensures var m' := Step(g, m, t); ThreadOk(g, s0, c, m'.s, i, |m.threads|, m'.threads[i])
  {
    assert ThreadOk(g, s0, c, m.s, t, |m.threads|, m.threads[t]);
    assert ThreadOk(g, s0, c, m.s, i, |m.threads|, m.threads[i]);
  }

  lemma StepEdge(g: Graph, s0: State, c: nat, m: Machine, t: nat, u: nat, e: nat)
    requires Invariant(g, s0, c, m) && WellTyped(g, m) && t < |m.threads| && IsEdge(g, u, e)
    ensures var m' := Step(g, m, t); EdgeOk(g, s0, c, m'.s, u, e, Owner(m', u))
  {
    var th := m.threads[t];
    assert ThreadOk(g, s0, c, m.s, t, |m.threads|, th);
    assert EdgeOk(g, s0, c, m.s, u, e, Owner(m, u));
    if th.tid < Nodes(g) {
      StrideOn(g, th, |m.threads|);
      assert NodeOk(g, s0, c, m.s, th.tid, Owner(m, th.tid));
    }
  }

  lemma StepInvariant(g: Graph, s0: State, c: nat, m: Machine, t: nat)
    requires Invariant(g, s0, c, m) && t < |m.threads|
    ensures WellTyped(g, m) && Invariant(g, s0, c, Step(g, m, t))
  {
    InvariantTyped(g, s0, c, m);
    var m' := Step(g, m, t);
    forall i: nat | i < |m'.threads| ensures ThreadOk(g, s0, c, m'.s, i, |m'.threads|, m'.threads[i]) {
      StepThread(g, s0, c, m, t, i);
    }
    forall v: nat | v < Nodes(g) ensures NodeOk(g, s0, c, m'.s, v, Owner(m', v)) { StepNode(g, s0, c, m, t, v); }
    forall u: nat, e: nat | IsEdge(g, u, e) ensures EdgeOk(g, s0, c, m'.s, u, e, Owner(m', u)) {
      StepEdge(g, s0, c, m, t, u, e);
    }
  }

  // ---- whole runs -------------------------------------------------------------------------------

  /** The machine reached by letting the named threads step one after another. */
  ghost predicate Run(g: Graph, m: Machine, schedule: seq<nat>, end: Machine)
    decreases |schedule|
  {
    if schedule == [] then end == m
    else WellTyped(g, m) && schedule[0] < |m.threads| && Run(g, Step(g, m, schedule[0]), schedule[1..], end)
  }

  lemma {:induction false} RunInvariant(g: Graph, s0: State, c: nat, m: Machine, schedule: seq<nat>, end: Machine)
    requires Invariant(g, s0, c, m) && Run(g, m, schedule, end)
    ensures Invariant(g, s0, c, end)
    decreases |schedule|
  {
    if schedule != [] {
      StepInvariant(g, s0, c, m, schedule[0]);
      RunInvariant(g, s0, c, Step(g, m, schedule[0]), schedule[1..], end);
    }
  }

  lemma FinishedNode(g: Graph, s0: State, c: nat, m: Machine, v: nat)
    requires Invariant(g, s0, c, m) && AllFinished(g, m) && v < Nodes(g)
    ensures m.s.mask[v] == 0
    ensures if Discovered(g, s0, v) then Marked(m.s, c, v)
            else m.s.cost[v] == s0.cost[v] && m.s.updating[v] == s0.updating[v]
  {
    assert NodeOk(g, s0, c, m.s, v, Owner(m, v));
    assert Finished(g, Owner(m, v));
    if Discovered(g, s0, v) {
      var u: nat :| Discovers(g, s0, u, v);
      var e: nat :| EdgeAt(g, u, e, v);
      assert IsEdge(g, u, e) && Finished(g, Owner(m, u));
      assert EdgeOk(g, s0, c, m.s, u, e, Owner(m, u));
    }
  }

  /** MAIN RESULT.  From any state whose masked nodes are visited and share one cost, every interleaving of
      any number of threads that finishes leaves exactly what the sequential first step leaves. */
  lemma KernelIsSequential(g: Graph, s0: State, c: nat, threads: nat, schedule: seq<nat>, end: Machine)
    requires Shaped(g, s0) && Uniform(g, s0, c) && Representable(g, threads)
    requires Run(g, Start(s0, threads), schedule, end) && AllFinished(g, end)
    ensures end.s == AfterBfs1(g, s0, c)
  {
    StartInvariant(g, s0, c, threads);
    RunInvariant(g, s0, c, Start(s0, threads), schedule, end);
    var spec := AfterBfs1(g, s0, c);
    forall v: nat | v < Nodes(g)
      ensures end.s.mask[v] == spec.mask[v] && end.s.updating[v] == spec.updating[v] && end.s.cost[v] == spec.cost[v]
    {
      FinishedNode(g, s0, c, end, v);
    }
  }

  // ---- every schedule finishes -------------------------------------------------------------------

  /** Steps a thread can spend on k nodes, at most w on each. */
  function NodesWork(k: nat, w: nat): nat {
    if k == 0 then 0 else w + NodesWork(k - 1, w)
  }

  lemma {:induction false} FewerNodes(j: nat, k: nat, w: nat)
    requires j < k
    ensures NodesWork(j, w) + w <= NodesWork(k, w)
  {
    if j < k - 1 { FewerNodes(j, k - 1, w); }
  }

  /** Steps left on the present node. */
  ghost function Here(g: Graph, th: Thread): (r: nat)
    requires InRange(g, th) && th.tid < Nodes(g)
    ensures r <= 3 * |g.edges| + 5
  {
    match th.pc
    case Test => 3 * |g.edges| + 5
    case Clear => 3 * |g.edges| + 4
    case LoadCost => 3 * |g.edges| + 3
    case Scan => 3 * (th.end - th.e) + 2
    case StoreCost => 3 * (th.end - th.e) + 1
    case StoreUpdating => 3 * (th.end - th.e)
  }

  /** An upper bound on the steps a thread still takes. */
  ghost function Remaining(g: Graph, th: Thread): nat
    requires InRange(g, th)
  {
    if th.tid >= Nodes(g) then 0 else NodesWork(Nodes(g) - th.tid - 1, 3 * |g.edges| + 5) + Here(g, th)
  }

  ghost function TotalRemaining(g: Graph, threads: seq<Thread>): nat
    requires WellFormed(g) && forall t :: 0 <= t < |threads| ==> InRange(g, threads[t])
  {
    if threads == [] then 0 else Remaining(g, threads[0]) + TotalRemaining(g, threads[1..])
  }

  /** A thread that is not finished can always step, and has less to do afterwards. */
  lemma ThreadProgress(g: Graph, s0: State, c: nat, m: Machine, t: nat)
    requires Invariant(g, s0, c, m) && t < |m.threads| && !Finished(g, m.threads[t])
    ensures WellTyped(g, m) && InRange(g, Step(g, m, t).threads[t])
    ensures Remaining(g, Step(g, m, t).threads[t]) < Remaining(g, m.threads[t])
  {
    InvariantTyped(g, s0, c, m);
    StepThread(g, s0, c, m, t, t);
    assert ThreadOk(g, s0, c, m.s, t, |m.threads|, m.threads[t]);
    StepRemains(g, m.s, m.threads[t], |m.threads|);
  }

  lemma StepRemains(g: Graph, s: State, th: Thread, stride: nat)
    requires Shaped(g, s) && Representable(g, stride) && InRange(g, th) && !Finished(g, th)
             && InRange(g, ThreadStep(g, s, th, stride).1)
    ensures Remaining(g, ThreadStep(g, s, th, stride).1) < Remaining(g, th)
  {
    StrideOn(g, th, stride);
    if ThreadStep(g, s, th, stride).1 == NextNode(th, stride) { NextRemains(g, th, stride); }
  }

  /** Going on to the next node leaves less to do. */
  lemma NextRemains(g: Graph, th: Thread, stride: nat)
    requires Representable(g, stride) && InRange(g, th) && th.tid < Nodes(g) && stride > 0
    requires InRange(g, NextNode(th, stride)) && NextNode(th, stride).tid == th.tid + stride
             && NextNode(th, stride).pc == Test
    ensures Remaining(g, NextNode(th, stride)) <= NodesWork(Nodes(g) - th.tid - 1, 3 * |g.edges| + 5)
  {
    var later := th.tid + stride;
    if later < Nodes(g) { FewerNodes(Nodes(g) - later - 1, Nodes(g) - th.tid - 1, 3 * |g.edges| + 5); }
  }

  lemma {:induction false} SumUpdate(g: Graph, threads: seq<Thread>, t: nat, th: Thread)
    requires WellFormed(g) && t < |threads| && InRange(g, th)
             && forall i :: 0 <= i < |threads| ==> InRange(g, threads[i])
    ensures TotalRemaining(g, threads[t := th])
            == TotalRemaining(g, threads) - Remaining(g, threads[t]) + Remaining(g, th)
  {
    if t == 0 {
      assert threads[t := th][1..] == threads[1..];
    } else {
      SumUpdate(g, threads[1..], t - 1, th);
      assert threads[t := th][1..] == threads[1..][t - 1 := th];
    }
  }

  /** Number of steps of a schedule taken by threads that were not finished. */
  ghost function UsefulSteps(g: Graph, m: Machine, schedule: seq<nat>): nat
    decreases |schedule|
  {
    if schedule == [] || !WellTyped(g, m) || schedule[0] >= |m.threads| then 0
    else (if Finished(g, m.threads[schedule[0]]) then 0 else 1) + UsefulSteps(g, Step(g, m, schedule[0]), schedule[1..])
  }

  lemma FinishedStep(g: Graph, m: Machine, t: nat)
    requires WellTyped(g, m) && t < |m.threads| && Finished(g, m.threads[t])
    ensures Step(g, m, t) == m
  {
    assert m.threads[t := m.threads[t]] == m.threads;
  }

  /** Whatever the schedule, the threads together take a bounded number of steps before all are finished. */
  lemma {:induction false} KernelTerminates(g: Graph, s0: State, c: nat, m: Machine, schedule: seq<nat>, end: Machine)
    requires Invariant(g, s0, c, m) && Run(g, m, schedule, end)
    ensures WellTyped(g, m) && WellTyped(g, end)
    ensures UsefulSteps(g, m, schedule) + TotalRemaining(g, end.threads) <= TotalRemaining(g, m.threads)
    decreases |schedule|
  {
    InvariantTyped(g, s0, c, m);
    if schedule != [] {
      var t := schedule[0];
      StepInvariant(g, s0, c, m, t);
      KernelTerminates(g, s0, c, Step(g, m, t), schedule[1..], end);
      if Finished(g, m.threads[t]) {
        FinishedStep(g, m, t);
      } else {
        ThreadProgress(g, s0, c, m, t);
        SumUpdate(g, m.threads, t, Step(g, m, t).threads[t]);
      }
    }
  }
}
