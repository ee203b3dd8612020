/** The second kernel of a level on any number of threads, and a whole level on the device. */
module BfsKernel2 {
  import opened BfsGraph
  import opened BfsSteps
  import opened GridStride
  import K1 = BfsKernel1

  datatype Pc = Test | SetMask | SetVisited | SetOver | ClearUpdating

  datatype Thread = Thread(pc: Pc, tid: nat)

  datatype Machine = Machine(s: State, threads: seq<Thread>)

  predicate Finished(n: nat, th: Thread) {
    th.pc == Test && th.tid >= n
  }

  predicate InRange(n: nat, th: Thread) {
    th.pc != Test ==> th.tid < n
  }

  /** One load or store of a thread with the registers it changes. */
  ghost function ThreadStep(g: Graph, s: State, th: Thread, stride: nat): (r: (State, Thread))
    requires Shaped(g, s) && InRange(Nodes(g), th)
    ensures Shaped(g, r.0)
  {
    match th.pc
    case Test =>
      if th.tid >= Nodes(g) then (s, th)
      else if s.updating[th.tid] == 0 then (s, Thread(Test, U32(th.tid + stride)))
      else (s, th.(pc := SetMask))
    case SetMask => (s.(mask := s.mask[th.tid := 1]), th.(pc := SetVisited))
    case SetVisited => (s.(visited := s.visited[th.tid := 1]), th.(pc := SetOver))
    case SetOver => (s.(over := 1), th.(pc := ClearUpdating))
    case ClearUpdating => (s.(updating := s.updating[th.tid := 0]), Thread(Test, U32(th.tid + stride)))
  }

  ghost predicate WellTyped(g: Graph, m: Machine) {
    Shaped(g, m.s) && forall t :: 0 <= t < |m.threads| ==> InRange(Nodes(g), m.threads[t])
  }

  ghost function Step(g: Graph, m: Machine, t: nat): Machine
    requires WellTyped(g, m) && t < |m.threads|
  {
    var r := ThreadStep(g, m.s, m.threads[t], |m.threads|);
    Machine(r.0, m.threads[t := r.1])
  }

  function Start(s: State, threads: nat): Machine {
    Machine(s, seq(threads, t requires 0 <= t < threads => Thread(Test, t)))
  }

  ghost predicate AllFinished(g: Graph, m: Machine) {
    forall t :: 0 <= t < |m.threads| ==> Finished(Nodes(g), m.threads[t])
  }

  ghost predicate Run(g: Graph, m: Machine, schedule: seq<nat>, end: Machine)
    decreases |schedule|
  {
    if schedule == [] then end == m
    else WellTyped(g, m) && schedule[0] < |m.threads| && Run(g, Step(g, m, schedule[0]), schedule[1..], end)
  }

  // ---- the invariant ----------------------------------------------------------------------------

  function Rank(pc: Pc): nat {
    match pc case Test => 0 case SetMask => 1 case SetVisited => 2 case SetOver => 3 case ClearUpdating => 4
  }

  /** The thread has finished stage r of node v. */
  predicate Passed(th: Thread, v: nat, r: nat) {
    v < th.tid || (v == th.tid && Rank(th.pc) > r)
  }

  ghost predicate NodeOk(s0: State, s: State, v: nat, owner: Thread)
    requires v < |s0.mask| == |s0.updating| == |s0.visited| == |s.mask| == |s.updating| == |s.visited|
  {
    && s.updating[v] == (if v < owner.tid then 0 else s0.updating[v])
    && s.mask[v] == (if s0.updating[v] != 0 && Passed(owner, v, 1) then 1 else s0.mask[v])
    && s.visited[v] == (if s0.updating[v] != 0 && Passed(owner, v, 2) then 1 else s0.visited[v])
    && (s0.updating[v] != 0 && Passed(owner, v, 3) ==> s.over == 1)
  }

  function Owner(m: Machine, v: nat): Thread
    requires |m.threads| > 0
  {
    m.threads[Lane(v, |m.threads|)]
  }

  ghost predicate ThreadOk(s0: State, t: nat, stride: nat, th: Thread)
    requires stride > 0
  {
    && InRange(|s0.updating|, th) && Lane(th.tid, stride) == t
    && (th.pc != Test ==> s0.updating[th.tid] != 0)
  }

  ghost predicate Invariant(g: Graph, s0: State, m: Machine) {
    && Shaped(g, s0) && Shaped(g, m.s) && K1.Representable(g, |m.threads|)
    && m.s.cost == s0.cost && (m.s.over == s0.over || (m.s.over == 1 && AnyUpdating(s0)))
    && (forall t: nat :: t < |m.threads| ==> ThreadOk(s0, t, |m.threads|, m.threads[t]))
    && (forall v: nat :: v < Nodes(g) ==> NodeOk(s0, m.s, v, Owner(m, v)))
  }

  lemma StartInvariant(g: Graph, s0: State, threads: nat)
    requires Shaped(g, s0) && K1.Representable(g, threads)
    ensures Invariant(g, s0, Start(s0, threads))
  {
    var m := Start(s0, threads);
    forall t: nat | t < threads ensures ThreadOk(s0, t, threads, m.threads[t]) {
    }
  }

  lemma StrideOn(g: Graph, tid: nat, stride: nat)
    requires K1.Representable(g, stride) && tid < Nodes(g)
    ensures U32(tid + stride) == tid + stride && Lane(tid + stride, stride) == Lane(tid, stride)
    ensures forall v: nat :: Lane(v, stride) == Lane(tid, stride) && v < tid + stride ==> v <= tid
  {
    forall v: nat | Lane(v, stride) == Lane(tid, stride) && v < tid + stride ensures v <= tid {
      LaneGap(v, tid, stride);
    }
  }

  lemma StepNode(g: Graph, s0: State, m: Machine, t: nat, v: nat)
    requires Invariant(g, s0, m) && WellTyped(g, m) && t < |m.threads| && v < Nodes(g)
    ensures var m' := Step(g, m, t); NodeOk(s0, m'.s, v, Owner(m', v))
  {
    var th := m.threads[t];
    assert ThreadOk(s0, t, |m.threads|, th);
    assert NodeOk(s0, m.s, v, Owner(m, v));
    if th.tid < Nodes(g) {
      StrideOn(g, th.tid, |m.threads|);
      assert NodeOk(s0, m.s, th.tid, Owner(m, th.tid));
    }
  }

  lemma StepInvariant(g: Graph, s0: State, m: Machine, t: nat)
    requires Invariant(g, s0, m) && t < |m.threads|
    ensures WellTyped(g, m) && Invariant(g, s0, Step(g, m, t))
  {
    assert forall i: nat :: i < |m.threads| ==> ThreadOk(s0, i, |m.threads|, m.threads[i]);
    var m', th := Step(g, m, t), m.threads[t];
    if th.tid < Nodes(g) {
      StrideOn(g, th.tid, |m.threads|);
      assert NodeOk(s0, m.s, th.tid, Owner(m, th.tid));
    }
    forall v: nat | v < Nodes(g) ensures NodeOk(s0, m'.s, v, Owner(m', v)) { StepNode(g, s0, m, t, v); }
  }

  lemma {:induction false} RunInvariant(g: Graph, s0: State, m: Machine, schedule: seq<nat>, end: Machine)
    requires Invariant(g, s0, m) && Run(g, m, schedule, end)
    ensures Invariant(g, s0, end)
    decreases |schedule|
  {
    if schedule != [] {
      StepInvariant(g, s0, m, schedule[0]);
      RunInvariant(g, s0, Step(g, m, schedule[0]), schedule[1..], end);
    }
  }

  /** MAIN RESULT 1.  Every interleaving that finishes leaves what the sequential second step leaves, whose
      flag starts at 0; the kernel does not clear the flag, so it agrees on the flag exactly when the flag
      was 0 or some node was marked. */
  lemma KernelIsSequential(g: Graph, s0: State, threads: nat, schedule: seq<nat>, end: Machine)
    requires Shaped(g, s0) && K1.Representable(g, threads)
    requires Run(g, Start(s0, threads), schedule, end) && AllFinished(g, end)
    ensures end.s.(over := 0) == AfterBfs2(g, s0).(over := 0)
    ensures end.s.over == AfterBfs2(g, s0).over <==> s0.over == 0 || AnyUpdating(s0)
  {
    StartInvariant(g, s0, threads);
    RunInvariant(g, s0, Start(s0, threads), schedule, end);
    var spec := AfterBfs2(g, s0);
    forall v: nat | v < Nodes(g)
      ensures end.s.mask[v] == spec.mask[v] && end.s.updating[v] == 0 && end.s.visited[v] == spec.visited[v]
      ensures s0.updating[v] != 0 ==> end.s.over == 1
    {
      assert NodeOk(s0, end.s, v, Owner(end, v));
      assert Finished(Nodes(g), Owner(end, v));
    }
  }

  // ---- every schedule finishes -------------------------------------------------------------------

  /** An upper bound on the steps a thread still takes. */
  ghost function Remaining(n: nat, th: Thread): nat {
    if th.tid >= n then 0 else K1.NodesWork(n - th.tid - 1, 5) + 5 - Rank(th.pc)
  }

  ghost function TotalRemaining(n: nat, threads: seq<Thread>): nat {
    if threads == [] then 0 else Remaining(n, threads[0]) + TotalRemaining(n, threads[1..])
  }

  lemma {:induction false} SumUpdate(n: nat, threads: seq<Thread>, t: nat, th: Thread)
    requires t < |threads|
    ensures TotalRemaining(n, threads[t := th])
            == TotalRemaining(n, threads) - Remaining(n, threads[t]) + Remaining(n, th)
  {
    if t == 0 {
      assert threads[t := th][1..] == threads[1..];
    } else {
      SumUpdate(n, threads[1..], t - 1, th);
      assert threads[t := th][1..] == threads[1..][t - 1 := th];
    }
  }

  lemma ThreadProgress(g: Graph, s0: State, m: Machine, t: nat)
    requires Invariant(g, s0, m) && t < |m.threads| && !Finished(Nodes(g), m.threads[t])
    ensures WellTyped(g, m) && Remaining(Nodes(g), Step(g, m, t).threads[t]) < Remaining(Nodes(g), m.threads[t])
  {
    assert forall i: nat :: i < |m.threads| ==> ThreadOk(s0, i, |m.threads|, m.threads[i]);
    var th := m.threads[t];
    StrideOn(g, th.tid, |m.threads|);
    var later := th.tid + |m.threads|;
    if later < Nodes(g) { K1.FewerNodes(Nodes(g) - later - 1, Nodes(g) - th.tid - 1, 5); }
  }

  /** Number of steps of a schedule taken by threads that were not finished. */
  ghost function UsefulSteps(g: Graph, m: Machine, schedule: seq<nat>): nat
    decreases |schedule|
  {
    if schedule == [] || !WellTyped(g, m) || schedule[0] >= |m.threads| then 0
    else (if Finished(Nodes(g), m.threads[schedule[0]]) then 0 else 1)
         + UsefulSteps(g, Step(g, m, schedule[0]), schedule[1..])
  }

  /** Whatever the schedule, the threads together take a bounded number of steps before all are finished. */
  lemma {:induction false} KernelTerminates(g: Graph, s0: State, m: Machine, schedule: seq<nat>, end: Machine)
    requires Invariant(g, s0, m) && Run(g, m, schedule, end)
    ensures UsefulSteps(g, m, schedule) + TotalRemaining(Nodes(g), end.threads) <= TotalRemaining(Nodes(g), m.threads)
    decreases |schedule|
  {
    if schedule != [] {
      var t := schedule[0];
      StepInvariant(g, s0, m, t);
      KernelTerminates(g, s0, Step(g, m, t), schedule[1..], end);
      if Finished(Nodes(g), m.threads[t]) {
        assert m.threads[t := m.threads[t]] == m.threads;
      } else {
        ThreadProgress(g, s0, m, t);
        SumUpdate(Nodes(g), m.threads, t, Step(g, m, t).threads[t]);
      }
    }
  }

  // ---- a whole level on the device ----------------------------------------------------------------

  /** MAIN RESULT 2.  At any level, the two kernels on any numbers of threads and under any schedules leave
      the arrays of the next level, and the flag that says whether it is empty. */
  lemma DeviceLevel(g: Graph, s: State, k: nat, threads1: nat, schedule1: seq<nat>, end1: K1.Machine,
                    threads2: nat, schedule2: seq<nat>, end2: Machine)
    requires Level(g, s, k) && Nodes(g) < UNREACHED && K1.Representable(g, threads1) && K1.Representable(g, threads2)
    requires K1.Run(g, K1.Start(s, threads1), schedule1, end1) && K1.AllFinished(g, end1)
    requires Shaped(g, end1.s) && Run(g, Start(end1.s.(over := 0), threads2), schedule2, end2) && AllFinished(g, end2)
    ensures Level(g, end2.s, k + 1) && end2.s.over == if NoneAt(g, k + 1) then 0 else 1
  {
    LevelIsUniform(g, s, k);
    K1.KernelIsSequential(g, s, k, threads1, schedule1, end1);
    KernelIsSequential(g, end1.s.(over := 0), threads2, schedule2, end2);
    LevelStep(g, s, k);
    assert AfterBfs2(g, end1.s.(over := 0)) == AfterBfs2(g, end1.s);
    assert end2.s == AfterBfs2(g, AfterBfs1(g, s, k));
  }
}
