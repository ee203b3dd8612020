/** Counters, burst exclusion and progress of the scale hand-off. */
module HandshakeProgress {
  import opened Fairness
  import opened Handshake
  import opened HandshakeHistory
  import opened HandshakeInvariant
  import opened HandshakeSafety

  // ---- how far apart the parties can be ------------------------------------------------------

  function Min(a: nat, b: nat): nat { if a < b then a else b }

  /** MAIN RESULT 4.  The mailbox counters stay ordered, the host is at most one tile ahead of the
      slower cluster, and so the clusters are at most one tile apart. */
  lemma CountersStayClose(cfg: Config, trace: seq<State>, n: nat, c: nat)
    requires Sizes(cfg) && Run(cfg, trace) && n < |trace| && c < 2
    ensures var s := trace[n];
            && s.GpuOf(c).pvDone <= s.GpuOf(c).qkDone <= s.GpuOf(c).qkReady <= Min(s.g0.pvDone, s.g1.pvDone) + 1
            && s.g0.pvDone <= s.g1.pvDone + 1 && s.g1.pvDone <= s.g0.pvDone + 1
            && s.GpuOf(c).pvDone <= cfg.tiles
  {
    RunIsBehaviour(cfg, trace);
    BehaviourControl(cfg, trace, n);
  }

  lemma BurstsApart(cfg: Config, h: Host, c: nat, g: Gpu)
    requires c < 2 && HostShape(cfg, h) && ClusterControl(cfg, h, c, g) && Packing(cfg, h, c, g)
    requires cfg.hostCfg && h.tile >= 1 && HostBursting(h, c)
    ensures !GpuBursting(g)
  {
  }

  /** MAIN RESULT 5.  When the host replays the recorded commands, then for every tile after the first
      no scale or command burst of the host overlaps one of the GPU on the same cluster. */
  lemma BurstsNeverOverlap(cfg: Config, trace: seq<State>, n: nat, c: nat)
    requires Sizes(cfg) && Run(cfg, trace) && n < |trace| && c < 2 && cfg.hostCfg
    requires cfg.hostPack ==> PackWordsClear(trace[0])
    ensures trace[n].host.tile >= 1 ==> !(HostBursting(trace[n].host, c) && GpuBursting(trace[n].GpuOf(c)))
  {
    InvariantRun(cfg, trace, n);
    if trace[n].host.tile >= 1 && HostBursting(trace[n].host, c) {
      BurstsApart(cfg, trace[n].host, c, trace[n].GpuOf(c));
    }
  }

  // ---- a measure that every productive step lowers ---------------------------------------------

  function HostWork(cfg: Config, h: Host): int {
    (cfg.tiles - h.tile) * 100000 + (14 - h.phase.Rank()) * 1000 + (2 - h.cl) * 300 + Beats(cfg, h.phase) - h.i
  }

  function GpuWork(cfg: Config, g: Gpu): int {
    (cfg.tiles - g.tile) * 100000 + (18 - g.phase.Rank()) * 1000 + cfg.p - g.i + (if g.mesh.Idle? then 0 else 1)
  }

  function Work(cfg: Config, s: State): int {
    HostWork(cfg, s.host) + GpuWork(cfg, s.g0) + GpuWork(cfg, s.g1)
  }

  /** A poll that goes round again is the one step that does no work. */
  predicate Productive(s: State, a: Agent) {
    Enabled(s, a) && (a == HostAgent && IsWait(s.host.phase) ==> PollExits(s.host, Word(s.host.phase, s.g1)))
  }

  lemma HostWorkDrops(cfg: Config, h: Host, w0: nat, w1: nat)
    requires Sizes(cfg) && HostShape(cfg, h) && h.phase != HostDone
    ensures var after := HostWork(cfg, HostMove(cfg, h, w0, w1));
            if IsWait(h.phase) && !PollExits(h, w1) then after == HostWork(cfg, h) else after < HostWork(cfg, h)
  {
  }

  lemma GpuWorkDrops(cfg: Config, g: Gpu)
    requires Sizes(cfg) && GpuShape(cfg, g) && GpuReady(g)
    ensures GpuWork(cfg, GpuStep(cfg, g)) < GpuWork(cfg, g)
  {
  }

  lemma WorkIsPositive(cfg: Config, s: State)
    requires Sizes(cfg) && Control(cfg, s)
    ensures Work(cfg, s) >= 0
  {
  }

  lemma WorkDrops(cfg: Config, s: State, a: Agent)
    requires Sizes(cfg) && Control(cfg, s) && Enabled(s, a)
    ensures if Productive(s, a) then Work(cfg, Apply(cfg, s, a)) < Work(cfg, s)
            else Work(cfg, Apply(cfg, s, a)) == Work(cfg, s)
  {
    match a
    case HostAgent => HostStepWork(cfg, s);
    case GpuAgent(c) => GpuStepWork(cfg, s, c, GpuStep(cfg, s.GpuOf(c)), GpuWrite(s.GpuOf(c), s.MemoryOf(c)));
    case MeshAgent(c) => MeshStepWork(cfg, s, c);
  }

  lemma HostStepWork(cfg: Config, s: State)
    requires Sizes(cfg) && Control(cfg, s) && s.host.phase != HostDone
    ensures if Productive(s, HostAgent) then Work(cfg, HostStep(cfg, s)) < Work(cfg, s)
            else Work(cfg, HostStep(cfg, s)) == Work(cfg, s)
  {
    HostWorkDrops(cfg, s.host, Word(s.host.phase, s.g0), Word(s.host.phase, s.g1));
    PublishKeepsWork(cfg, s.host, 0, s.g0);
    PublishKeepsWork(cfg, s.host, 1, s.g1);
  }

  lemma PublishKeepsWork(cfg: Config, h: Host, c: nat, g: Gpu)
    ensures GpuWork(cfg, HostPublish(h, c, g)) == GpuWork(cfg, g)
  {
  }

  lemma GpuStepWork(cfg: Config, s: State, c: nat, n: Gpu, m: Memory)
    requires Sizes(cfg) && Control(cfg, s) && c < 2 && GpuReady(s.GpuOf(c)) && n == GpuStep(cfg, s.GpuOf(c))
    ensures Work(cfg, s.With(c, n, m)) < Work(cfg, s)
  {
    GpuWorkDrops(cfg, s.GpuOf(c));
  }

  lemma MeshStepWork(cfg: Config, s: State, c: nat)
    requires c < 2 && !s.GpuOf(c).mesh.Idle?
    ensures Work(cfg, s.With(c, s.GpuOf(c).(mesh := Idle), s.MemoryOf(c))) < Work(cfg, s)
  {
  }

  // ---- no reachable unfinished state is stuck ----------------------------------------------

  /** The host waits and both clusters have what it waits for. */
  predicate HostSatisfied(s: State) {
    IsWait(s.host.phase) && Word(s.host.phase, s.g0) >= Need(s.host) && Word(s.host.phase, s.g1) >= Need(s.host)
  }

  /** Nothing but the host can move. */
  predicate GpusBlocked(s: State) {
    s.g0.mesh.Idle? && s.g1.mesh.Idle? && !GpuReady(s.g0) && !GpuReady(s.g1)
  }

  /** A cluster that cannot move has already given the host everything its current wait needs. */
  lemma BlockedClusterSatisfies(cfg: Config, h: Host, c: nat, g: Gpu)
    requires Sizes(cfg) && c < 2 && HostShape(cfg, h) && ClusterControl(cfg, h, c, g) && Packing(cfg, h, c, g)
    requires g.mesh.Idle? && !GpuReady(g)
    ensures IsWait(h.phase) ==> Word(h.phase, g) >= Need(h)
    ensures h.phase == HostDone ==> g.phase == GpuDone
  {
  }

  lemma HostMovesWhenGpusBlock(cfg: Config, s: State)
    requires Sizes(cfg) && Invariant(cfg, s) && GpusBlocked(s)
    ensures if IsWait(s.host.phase) then HostSatisfied(s) else s.host.phase == HostDone ==> Finished(s)
  {
    BlockedClusterSatisfies(cfg, s.host, 0, s.g0);
    BlockedClusterSatisfies(cfg, s.host, 1, s.g1);
  }

  /** The state after the host alone has taken k steps. */
  function Polls(cfg: Config, s: State, k: nat): State
    decreases k
  {
    if k == 0 then s else Polls(cfg, HostStep(cfg, s), k - 1)
  }

  lemma PollStep(cfg: Config, s: State)
    requires IsWait(s.host.phase) && !PollExits(s.host, Word(s.host.phase, s.g1))
    ensures HostStep(cfg, s) ==
            s.(host := s.host.(seen := if s.host.seen.None? then Some(Word(s.host.phase, s.g0)) else None))
  {
  }

  /** A satisfied host leaves its wait after at most two more polls. */
  lemma SatisfiedHostLeaves(cfg: Config, s: State) returns (polls: nat)
    requires HostSatisfied(s)
    ensures polls <= 2 && Productive(Polls(cfg, s, polls), HostAgent)
    ensures polls > 0 ==> !PollExits(s.host, Word(s.host.phase, s.g1))
  {
    var h := s.host;
    if PollExits(h, Word(h.phase, s.g1)) {
      return 0;
    }
    PollStep(cfg, s);
    var s1 := HostStep(cfg, s);
    if h.seen.None? {
      assert Polls(cfg, s, 1) == Polls(cfg, s1, 0) == s1;
      return 1;
    }
    PollStep(cfg, s1);
    assert Polls(cfg, s, 2) == Polls(cfg, s1, 1) == Polls(cfg, HostStep(cfg, s1), 0);
    return 2;
  }

  /** MAIN RESULT 6 (deadlock freedom).  In every reachable unfinished state some party can do a
      productive step, at once or after at most two polls of the host. */
  lemma NeverStuck(cfg: Config, trace: seq<State>, n: nat) returns (polls: nat, a: Agent)
    requires Sizes(cfg) && Run(cfg, trace) && n < |trace| && !Finished(trace[n])
    requires cfg.hostPack ==> PackWordsClear(trace[0])
    ensures polls <= 2 && Productive(Polls(cfg, trace[n], polls), a)
  {
    InvariantRun(cfg, trace, n);
    polls, a := NextWork(cfg, trace[n]);
  }

  lemma NextWork(cfg: Config, s: State) returns (polls: nat, a: Agent)
    requires Sizes(cfg) && Invariant(cfg, s) && !Finished(s)
    ensures polls <= 2 && Productive(Polls(cfg, s, polls), a)
            && (polls > 0 ==> HostSatisfied(s) && !PollExits(s.host, Word(s.host.phase, s.g1)))
  {
    polls := 0;
    if !s.g0.mesh.Idle? { a := MeshAgent(0); }
    else if !s.g1.mesh.Idle? { a := MeshAgent(1); }
    else if GpuReady(s.g0) { a := GpuAgent(0); }
    else if GpuReady(s.g1) { a := GpuAgent(1); }
    else {
      HostMovesWhenGpusBlock(cfg, s);
      a := HostAgent;
      if IsWait(s.host.phase) {
        polls := SatisfiedHostLeaves(cfg, s);
      }
    }
  }

  // ---- every run is finite but for polling, and can always be completed ------------------------

  /** Every agent of the schedule is enabled when its turn comes. */
  predicate Legal(cfg: Config, s: State, schedule: seq<Agent>)
    decreases |schedule|
  {
    schedule != [] ==> Enabled(s, schedule[0]) && Legal(cfg, Apply(cfg, s, schedule[0]), schedule[1..])
  }

  function After(cfg: Config, s: State, schedule: seq<Agent>): State
    decreases |schedule|
  {
    if schedule == [] then s else After(cfg, Apply(cfg, s, schedule[0]), schedule[1..])
  }

  function ProductiveSteps(cfg: Config, s: State, schedule: seq<Agent>): nat
    decreases |schedule|
  {
    if schedule == [] then 0
    else (if Productive(s, schedule[0]) then 1 else 0)
         + ProductiveSteps(cfg, Apply(cfg, s, schedule[0]), schedule[1..])
  }

  /** MAIN RESULT 7.  However the parties are scheduled, they do no more than Work(s) productive steps. */
  lemma {:induction false} WorkBoundsEverySchedule(cfg: Config, s: State, schedule: seq<Agent>)
    requires Sizes(cfg) && Control(cfg, s) && Legal(cfg, s, schedule)
    ensures ProductiveSteps(cfg, s, schedule) <= Work(cfg, s)
    decreases |schedule|
  {
    if schedule == [] {
      WorkIsPositive(cfg, s);
    } else {
      WorkDrops(cfg, s, schedule[0]);
      ControlStep(cfg, s, schedule[0]);
      WorkBoundsEverySchedule(cfg, Apply(cfg, s, schedule[0]), schedule[1..]);
    }
  }

  function PollsLeft(s: State): nat {
    if PollExits(s.host, Word(s.host.phase, s.g1)) then 0 else if s.host.seen.None? then 1 else 2
  }

  /** A step that leaves less work, or as much and fewer polls before the next. */
  ghost predicate Nearer(cfg: Config, s: State, n: State) {
    0 <= Work(cfg, s) && (Work(cfg, n) < Work(cfg, s) || (Work(cfg, n) == Work(cfg, s) && PollsLeft(n) < PollsLeft(s)))
  }

  /** A poll of a satisfied wait brings the next productive step nearer. */
  lemma PollIsNearer(cfg: Config, s: State)
    requires Sizes(cfg) && Control(cfg, s) && HostSatisfied(s) && !PollExits(s.host, Word(s.host.phase, s.g1))
    ensures Nearer(cfg, s, HostStep(cfg, s))
  {
    PollStep(cfg, s);
    WorkIsPositive(cfg, s);
    WorkDrops(cfg, s, HostAgent);
  }

  lemma WorkIsNearer(cfg: Config, s: State, a: Agent)
    requires Sizes(cfg) && Control(cfg, s) && Productive(s, a)
    ensures Nearer(cfg, s, Apply(cfg, s, a))
  {
    WorkIsPositive(cfg, s);
    WorkDrops(cfg, s, a);
  }

  lemma NextAgent(cfg: Config, s: State) returns (a: Agent)
    requires Sizes(cfg) && Invariant(cfg, s) && !Finished(s)
    ensures Enabled(s, a) && Nearer(cfg, s, Apply(cfg, s, a))
  {
    var polls;
    polls, a := NextWork(cfg, s);
    if polls > 0 {
      a := HostAgent;
      PollIsNearer(cfg, s);
    } else {
      WorkIsNearer(cfg, s, a);
    }
  }

  /** The states the schedule goes through. */
  function Follow(cfg: Config, s: State, schedule: seq<Agent>): (r: seq<State>)
    ensures |r| == |schedule|
    decreases |schedule|
  {
    if schedule == [] then [] else [Apply(cfg, s, schedule[0])] + Follow(cfg, Apply(cfg, s, schedule[0]), schedule[1..])
  }

  lemma {:induction false} FollowIsRun(cfg: Config, trace: seq<State>, schedule: seq<Agent>)
    requires Run(cfg, trace) && Legal(cfg, trace[|trace| - 1], schedule)
    ensures var whole := trace + Follow(cfg, trace[|trace| - 1], schedule);
            Run(cfg, whole) && whole[|whole| - 1] == After(cfg, trace[|trace| - 1], schedule)
    decreases |schedule|
  {
    var s := trace[|trace| - 1];
    if schedule == [] {
      assert trace + Follow(cfg, s, schedule) == trace;
    } else {
      var n := Apply(cfg, s, schedule[0]);
      assert Step(cfg, s, n);
      FollowIsRun(cfg, trace + [n], schedule[1..]);
      assert trace + Follow(cfg, s, schedule) == trace + [n] + Follow(cfg, n, schedule[1..]);
    }
  }

  lemma PrefixIsRun(cfg: Config, trace: seq<State>, n: nat)
    requires Run(cfg, trace) && n < |trace|
    ensures Run(cfg, trace[..n + 1]) && trace[..n + 1][n] == trace[n]
  {
    var prefix := trace[..n + 1];
    forall i | 0 <= i < |prefix| - 1 ensures Step(cfg, prefix[i], prefix[i + 1]) {
      assert Step(cfg, trace[i], trace[i + 1]);
    }
  }

  /** MAIN RESULT 8.  From every reachable state all tiles of both clusters can be completed, and then both matmuls
      of every tile have run on both clusters. */
  lemma {:induction false} AllTilesComplete(cfg: Config, trace: seq<State>, n: nat) returns (schedule: seq<Agent>)
    requires Sizes(cfg) && Run(cfg, trace) && n < |trace|
    requires cfg.hostPack ==> PackWordsClear(trace[0])
    ensures Legal(cfg, trace[n], schedule)
    ensures var last := After(cfg, trace[n], schedule);
            Finished(last) && last.g0.pvDone == last.g1.pvDone == cfg.tiles
    ensures AllRan(cfg, trace[..n + 1] + Follow(cfg, trace[n], schedule))
  {
    InvariantRun(cfg, trace, n);
    schedule := Completion(cfg, trace[n]);
    PrefixIsRun(cfg, trace, n);
    FollowIsRun(cfg, trace[..n + 1], schedule);
    var whole := trace[..n + 1] + Follow(cfg, trace[n], schedule);
    RunIsBehaviour(cfg, whole);
    DoneMeansAllRan(cfg, whole, |whole| - 1);
  }

  lemma {:induction false} Completion(cfg: Config, s: State) returns (schedule: seq<Agent>)
    requires Sizes(cfg) && Invariant(cfg, s)
    ensures Legal(cfg, s, schedule)
    ensures var last := After(cfg, s, schedule);
            Finished(last) && last.g0.pvDone == last.g1.pvDone == cfg.tiles
    decreases Work(cfg, s), PollsLeft(s)
  {
    if Finished(s) {
      return [];
    }
    var a := NextAgent(cfg, s);
    InvariantStep(cfg, s, a);
    var rest := Completion(cfg, Apply(cfg, s, a));
    schedule := [a] + rest;
    assert schedule[1..] == rest;
  }

  // ---- every fair schedule finishes ------------------------------------------------------------

  predicate Party(a: Agent) {
    a == HostAgent || a.c < 2
  }

  /** An agent that gets its turn moves if it can. */
  function TakeTurn(cfg: Config, s: State, a: Agent): State {
    if Enabled(s, a) then Apply(cfg, s, a) else s
  }

  /** A device that can move, or else the host. */
  function Helper(s: State): (a: Agent)
    ensures Party(a)
  {
    if !s.g0.mesh.Idle? then MeshAgent(0) else if !s.g1.mesh.Idle? then MeshAgent(1)
    else if GpuReady(s.g0) then GpuAgent(0) else if GpuReady(s.g1) then GpuAgent(1)
    else HostAgent
  }

  /** The work left, and the polls before the next of it once only the host can move. */
  function Rank(cfg: Config, s: State): int {
    3 * Work(cfg, s) + if Helper(s) == HostAgent then PollsLeft(s) else 0
  }

  /** A turn that does work brings the end nearer. */
  lemma WorkLowersRank(cfg: Config, s: State, n: State)
    requires Work(cfg, n) < Work(cfg, s)
    ensures Rank(cfg, n) < Rank(cfg, s)
  {
  }

  /** While a device can move, a poll leaves the rank and the device. */
  lemma IdlePoll(cfg: Config, s: State, n: State)
    requires Work(cfg, n) == Work(cfg, s) && Helper(s) != HostAgent && n.g0 == s.g0 && n.g1 == s.g1
    ensures Rank(cfg, n) == Rank(cfg, s) && Helper(n) == Helper(s)
  {
  }

  lemma HelperIsEnabled(cfg: Config, s: State)
    requires Sizes(cfg) && Invariant(cfg, s) && !Finished(s)
    ensures Enabled(s, Helper(s)) && (Helper(s) != HostAgent ==> Productive(s, Helper(s)))
    ensures Helper(s) == HostAgent && !Productive(s, HostAgent) ==> HostSatisfied(s)
  {
    if Helper(s) == HostAgent { HostMovesWhenGpusBlock(cfg, s); }
  }

  /** Once only the host can move, its poll leaves less to poll. */
  lemma HelpfulPoll(cfg: Config, s: State, n: State)
    requires Sizes(cfg) && Control(cfg, s) && HostSatisfied(s) && !PollExits(s.host, Word(s.host.phase, s.g1))
    requires Helper(s) == HostAgent && n == HostStep(cfg, s)
    ensures Rank(cfg, n) < Rank(cfg, s)
  {
    PollIsNearer(cfg, s);
    PollStep(cfg, s);
  }

  /** A turn brings the end nearer, or it was not the helper's and leaves the helper. */
  lemma TurnHelps(cfg: Config, s: State, a: Agent)
    requires Sizes(cfg) && Invariant(cfg, s) && !Finished(s)
    ensures var n := TakeTurn(cfg, s, a);
            Rank(cfg, n) < Rank(cfg, s) || (Rank(cfg, n) == Rank(cfg, s) && Helper(n) == Helper(s) && a != Helper(s))
  {
    HelperIsEnabled(cfg, s);
    if Enabled(s, a) {
      WorkDrops(cfg, s, a);
      if Productive(s, a) {
        WorkLowersRank(cfg, s, Apply(cfg, s, a));
      } else if Helper(s) == HostAgent {
        HelpfulPoll(cfg, s, HostStep(cfg, s));
      } else {
        PollStep(cfg, s);
        IdlePoll(cfg, s, HostStep(cfg, s));
      }
    }
  }

  lemma TurnKeeps(cfg: Config, s: State, a: Agent)
    requires Sizes(cfg) && Invariant(cfg, s)
    ensures Invariant(cfg, TakeTurn(cfg, s, a)) && (Finished(s) ==> Finished(TakeTurn(cfg, s, a)))
  {
    if Enabled(s, a) { InvariantStep(cfg, s, a); }
  }

  lemma RankIsPositive(cfg: Config, s: State)
    requires Sizes(cfg) && Invariant(cfg, s)
    ensures Rank(cfg, s) >= 0
  {
    WorkIsPositive(cfg, s);
  }

  lemma CompleteWhenFinished(cfg: Config, s: State)
    requires Invariant(cfg, s) && Finished(s)
    ensures s.g0.pvDone == s.g1.pvDone == cfg.tiles
  {
  }

  ghost function HandOff(cfg: Config): System<State, Agent> {
    System((s: State, a: Agent) => TakeTurn(cfg, s, a), (s: State) => Invariant(cfg, s), (s: State) => Finished(s),
           (s: State) => Rank(cfg, s), (s: State) => Helper(s))
  }

  lemma HandOffHelps(cfg: Config, s: State, a: Agent)
    requires Sizes(cfg)
    ensures Helps(HandOff(cfg), s, a)
  {
    if Invariant(cfg, s) {
      TurnKeeps(cfg, s, a);
      RankIsPositive(cfg, s);
      if !Finished(s) { TurnHelps(cfg, s, a); }
    }
  }

  function AfterTurns(cfg: Config, s: State, turn: nat -> Agent, n: nat): State {
    At((s: State, a: Agent) => TakeTurn(cfg, s, a), s, turn, n)
  }

  /** The run so far and the first k turns after it. */
  ghost function WithTurns(cfg: Config, trace: seq<State>, turn: nat -> Agent, k: nat): (r: seq<State>)
    requires trace != []
    ensures |r| == |trace| + k && forall i :: 0 <= i < |trace| ==> r[i] == trace[i]
    ensures r[|r| - 1] == AfterTurns(cfg, trace[|trace| - 1], turn, k)
  {
    if k == 0 then trace
    else WithTurns(cfg, trace, turn, k - 1) + [AfterTurns(cfg, trace[|trace| - 1], turn, k)]
  }

  lemma {:induction false} TurnsAreBehaviour(cfg: Config, trace: seq<State>, turn: nat -> Agent, k: nat)
    requires Run(cfg, trace)
    ensures Behaviour(cfg, WithTurns(cfg, trace, turn, k))
  {
    if k > 0 {
      TurnsAreBehaviour(cfg, trace, turn, k - 1);
      var whole, from := WithTurns(cfg, trace, turn, k), trace[|trace| - 1];
      var s, s' := AfterTurns(cfg, from, turn, k - 1), AfterTurns(cfg, from, turn, k);
      assert s' == TakeTurn(cfg, s, turn(k - 1));
      assert StepOrStay(cfg, s, s') by { if s' != s { assert Enabled(s, turn(k - 1)); } }
    }
  }

  lemma CompletedTurnsRan(cfg: Config, trace: seq<State>, turn: nat -> Agent, k: nat)
    requires Sizes(cfg) && Run(cfg, trace)
    requires var last := AfterTurns(cfg, trace[|trace| - 1], turn, k); last.g0.pvDone == last.g1.pvDone == cfg.tiles
    ensures AllRan(cfg, WithTurns(cfg, trace, turn, k))
  {
    TurnsAreBehaviour(cfg, trace, turn, k);
    DoneMeansAllRan(cfg, WithTurns(cfg, trace, turn, k), |trace| + k - 1);
  }

  /** MAIN RESULT 9.  From every reachable state every schedule that keeps giving host, GPUs and meshes their
      turns completes all tiles of both clusters, and they stay completed; both matmuls of every tile have then run
      on both clusters. */
  lemma FairSchedulesComplete(cfg: Config, trace: seq<State>, n: nat, turn: nat -> Agent) returns (end: nat)
    requires Sizes(cfg) && Run(cfg, trace) && n < |trace| && Fair(Party, turn)
    requires cfg.hostPack ==> PackWordsClear(trace[0])
    ensures forall k: nat :: k >= end ==>
              var last := AfterTurns(cfg, trace[n], turn, k);
              Finished(last) && last.g0.pvDone == last.g1.pvDone == cfg.tiles
    ensures AllRan(cfg, WithTurns(cfg, trace[..n + 1], turn, end))
  {
    InvariantRun(cfg, trace, n);
    end := TurnsFinish(cfg, trace[n], turn);
    PrefixIsRun(cfg, trace, n);
    assert Finished(AfterTurns(cfg, trace[n], turn, end));
    CompletedTurnsRan(cfg, trace[..n + 1], turn, end);
  }

  lemma TurnsFinish(cfg: Config, s: State, turn: nat -> Agent) returns (end: nat)
    requires Sizes(cfg) && Invariant(cfg, s) && Fair(Party, turn)
    ensures forall k: nat :: k >= end ==>
              var last := AfterTurns(cfg, s, turn, k);
              Finished(last) && last.g0.pvDone == last.g1.pvDone == cfg.tiles
  {
    forall x: State, a: Agent ensures Helps(HandOff(cfg), x, a) { HandOffHelps(cfg, x, a); }
    end := FairSchedulesFinish(HandOff(cfg), Party, s, turn);
    forall k: nat | k >= end
      ensures var last := AfterTurns(cfg, s, turn, k);
              Finished(last) && last.g0.pvDone == last.g1.pvDone == cfg.tiles
    {
      CompleteWhenFinished(cfg, AfterTurns(cfg, s, turn, k));
    }
  }

  function RoundRobin(n: nat): Agent {
    if n % 5 == 0 then HostAgent else if n % 5 < 3 then GpuAgent(n % 5 - 1) else MeshAgent(n % 5 - 3)
  }

  lemma Fifth(n: nat, place: nat)
    requires place < 5
    ensures (5 * n + place) % 5 == place
  {
  }

  /** Fair schedules exist: taking turns round and round is one. */
  lemma RoundRobinIsFair()
    ensures Fair(Party, RoundRobin)
  {
    forall n: nat, a: Agent | Party(a) ensures Served(RoundRobin, n, a) {
      var place := if a == HostAgent then 0 else if a.GpuAgent? then a.c + 1 else a.c + 3;
      Fifth(n, place);
      assert TurnFrom(RoundRobin, n, a, 5 * n + place);
    }
  }
}
