/** Host-side packing is safe exactly when the two words that the host's start-up code does not clear
    happen to be clear: PACKED on both clusters and PACKREQ on cluster 0. */
module HandshakeUncleared {
  import opened Handshake
  import opened HandshakeInvariant
  import opened HandshakeSafety
  import opened HandshakeProgress

  /** No row of act half 0 holds a probability scale. */
  ghost predicate NoScales(port: Port) {
    forall r: nat :: r < HALF_ROWS ==> RowAt(port, r) == Blank || RowAt(port, r).hi.data == Junk
  }

  lemma StoreNoScales(port: Port, beat: Beat)
    requires NoScales(port) && (beat.addr < HALF_BEATS ==> beat.data == Junk)
    ensures NoScales(Store(port, beat))
  {
    forall r: nat | r < HALF_ROWS
      ensures RowAt(Store(port, beat), r) == Blank || RowAt(Store(port, beat), r).hi.data == Junk
    {
      assert RowAt(port, r) == Blank || RowAt(port, r).hi.data == Junk;
    }
  }

  lemma LegalCons(cfg: Config, s: State, a: Agent, rest: seq<Agent>)
    requires Enabled(s, a) && Legal(cfg, Apply(cfg, s, a), rest)
    ensures Legal(cfg, s, [a] + rest) && After(cfg, s, [a] + rest) == After(cfg, Apply(cfg, s, a), rest)
  {
    assert ([a] + rest)[1..] == rest;
  }

  ghost predicate HeadedForPv(cfg: Config, s: State, c: nat) {
    && Sizes(cfg) && cfg.hostPack && Control(cfg, s) && c < 2 && s.host.tile == 0
    && NoScales(s.MemoryOf(c).act) && GpuHeadedForPv(s.GpuOf(c))
  }

  predicate GpuHeadedForPv(g: Gpu) {
    && g.tile == 0 && g.packed >= 1 && g.phase.Rank() <= DrainPv.Rank()
    && (g.phase == DrainPv ==> g.mesh == RunningPv(0))
  }

  lemma GpuTowardsPv(cfg: Config, g: Gpu, m: Memory)
    requires Sizes(cfg) && cfg.hostPack && GpuShape(cfg, g) && GpuHeadedForPv(g) && g.phase != DrainPv && GpuReady(g)
    requires NoScales(m.act)
    ensures GpuHeadedForPv(GpuStep(cfg, g)) && NoScales(GpuWrite(g, m).act)
  {
  }

  /** A cluster blocked before its first PV matmul waits for a burst the host is still doing. */
  lemma HostStillPublishes(cfg: Config, h: Host, c: nat, g: Gpu)
    requires c < 2 && HostShape(cfg, h) && ClusterControl(cfg, h, c, g) && h.tile == 0
    requires GpuHeadedForPv(g) && g.phase != DrainPv && !GpuReady(g) && g.mesh.Idle?
    ensures h.phase == WriteQ || h.phase == WriteK || h.phase == PublishQk || h.phase == WriteV || h.phase == PublishV
  {
  }

  lemma HostTowardsPv(cfg: Config, h: Host, w0: nat, w1: nat)
    requires cfg.hostPack && HostShape(cfg, h) && h.tile == 0
    requires h.phase == WriteQ || h.phase == WriteK || h.phase == PublishQk || h.phase == WriteV || h.phase == PublishV
    ensures HostMove(cfg, h, w0, w1).tile == 0
  {
  }

  lemma HostWritesNoScales(h: Host, buf: map<nat, Scale>, c: nat, m: Memory)
    requires NoScales(m.act) && h.phase != WriteP
    ensures NoScales(HostWrite(h, buf, c, m).act)
  {
    if h.phase == WriteQ { StoreNoScales(m.act, Beat(FromHost, HALF_BEATS + h.i, Scale(Q, h.tile, h.i))); }
  }

  /** The agent that brings cluster c nearer its first PV matmul without packing anything. */
  lemma TowardsPv(cfg: Config, s: State, c: nat) returns (a: Agent)
    requires HeadedForPv(cfg, s, c) && s.GpuOf(c).phase != DrainPv
    ensures Productive(s, a) && HeadedForPv(cfg, Apply(cfg, s, a), c)
  {
    var g := s.GpuOf(c);
    if !g.mesh.Idle? {
      a := MeshAgent(c);
      ControlStep(cfg, s, a);
    } else if GpuReady(g) {
      a := GpuAgent(c);
      PvByGpu(cfg, s, c);
    } else {
      a := HostAgent;
      PvByHost(cfg, s, c);
    }
  }

  lemma PvByGpu(cfg: Config, s: State, c: nat)
    requires HeadedForPv(cfg, s, c) && s.GpuOf(c).phase != DrainPv && GpuReady(s.GpuOf(c))
    ensures HeadedForPv(cfg, Apply(cfg, s, GpuAgent(c)), c)
  {
    GpuTowardsPv(cfg, s.GpuOf(c), s.MemoryOf(c));
    ControlStep(cfg, s, GpuAgent(c));
  }

  lemma PvByHost(cfg: Config, s: State, c: nat)
    requires HeadedForPv(cfg, s, c) && s.GpuOf(c).phase != DrainPv && !GpuReady(s.GpuOf(c)) && s.GpuOf(c).mesh.Idle?
    ensures Productive(s, HostAgent) && HeadedForPv(cfg, HostStep(cfg, s), c)
  {
    HostStillPublishes(cfg, s.host, c, s.GpuOf(c));
    HostTowardsPv(cfg, s.host, Word(s.host.phase, s.g0), Word(s.host.phase, s.g1));
    HostWritesNoScales(s.host, s.buf, c, s.MemoryOf(c));
    ControlHostStep(cfg, s);
  }

  /** With PACKED already set, the GPU starts its PV matmul on scales nobody has written. */
  lemma {:induction false} RunsToStalePv(cfg: Config, s: State, c: nat) returns (schedule: seq<Agent>)
    requires HeadedForPv(cfg, s, c)
    ensures Legal(cfg, s, schedule)
    ensures var last := After(cfg, s, schedule); !MeshReadsOwnTile(cfg, last.GpuOf(c), last.MemoryOf(c))
    decreases Work(cfg, s)
  {
    if s.GpuOf(c).phase == DrainPv {
      assert RowAt(s.MemoryOf(c).act, 0) != ScaleRow(FromHost, 0, P, 0, 0);
      return [];
    }
    var a := TowardsPv(cfg, s, c);
    WorkIsPositive(cfg, s);
    WorkDrops(cfg, s, a);
    var rest := RunsToStalePv(cfg, Apply(cfg, s, a), c);
    LegalCons(cfg, s, a, rest);
    schedule := [a] + rest;
  }

  ghost predicate HeadedForReply(cfg: Config, s: State) {
    && Sizes(cfg) && cfg.hostPack && Control(cfg, s) && HostHeadedForReply(s.host, s.g0) && AllJunk(s.buf)
    && NoScales(s.m0.act) && s.m0.scratch == map[]
    && s.g0.tile == 0 && s.g0.phase.Rank() <= AwaitScalesV.Rank() && s.g0.packReq >= 1
  }

  ghost predicate AllJunk(buf: map<nat, Scale>) {
    forall j: nat :: Lookup(buf, j) == Junk
  }

  ghost predicate HostHeadedForReply(h: Host, g: Gpu) {
    h.tile == 0 && h.phase != HostDone && (PackedPublished(h, 0) >= 1 ==> g.packed >= 1)
  }

  lemma HostMoveTowardsReply(cfg: Config, h: Host, w0: nat, w1: nat, g: Gpu)
    requires Sizes(cfg) && HostShape(cfg, h) && cfg.hostPack && HostHeadedForReply(h, g) && g.packed == 0
    ensures HostHeadedForReply(HostMove(cfg, h, w0, w1), HostPublish(h, 0, g))
  {
  }

  lemma HostTowardsReply(cfg: Config, h: Host, buf: map<nat, Scale>, m: Memory)
    requires NoScales(m.act) && m.scratch == map[] && AllJunk(buf)
    ensures AllJunk(HostRead(h, buf, m.scratch)) && NoScales(HostWrite(h, buf, 0, m).act)
  {
    forall j: nat ensures Lookup(HostRead(h, buf, m.scratch), j) == Junk {
      assert Lookup(buf, j) == Junk;
    }
    if h.cl == 0 && h.phase == WriteQ {
      StoreNoScales(m.act, Beat(FromHost, HALF_BEATS + h.i, Scale(Q, h.tile, h.i)));
    } else if h.cl == 0 && h.phase == WriteP {
      StoreNoScales(m.act, Beat(FromHost, h.i, Lookup(buf, h.i)));
    }
  }

  /** With cluster 0 held at its V wait and cluster 1 blocked, the host's wait is satisfied. */
  lemma ReplyHostReady(cfg: Config, s: State)
    requires HeadedForReply(cfg, s) && s.g0.packed == 0 && s.g0.mesh.Idle? && s.g1.mesh.Idle?
    requires !GpuReady(s.g1) && (GpuReady(s.g0) ==> s.g0.phase == AwaitScalesV)
    ensures IsWait(s.host.phase) ==> HostSatisfied(s)
  {
  }

  lemma Gpu0TowardsReply(cfg: Config, g: Gpu, m: Memory)
    requires Sizes(cfg) && g.tile == 0 && g.phase.Rank() < AwaitScalesV.Rank() && GpuReady(g)
    ensures var n := GpuStep(cfg, g); n.tile == 0 && n.phase.Rank() <= AwaitScalesV.Rank()
    ensures GpuStep(cfg, g).packReq == g.packReq && GpuStep(cfg, g).packed == g.packed && GpuWrite(g, m) == m
  {
  }

  lemma ReplyByHost(cfg: Config, s: State)
    requires HeadedForReply(cfg, s) && s.g0.packed == 0
    ensures HeadedForReply(cfg, HostStep(cfg, s))
  {
    HostMoveTowardsReply(cfg, s.host, Word(s.host.phase, s.g0), Word(s.host.phase, s.g1), s.g0);
    HostTowardsReply(cfg, s.host, s.buf, s.m0);
    ControlHostStep(cfg, s);
  }

  lemma ReplyByGpu(cfg: Config, s: State, c: nat)
    requires HeadedForReply(cfg, s) && c < 2 && GpuReady(s.GpuOf(c)) && (c == 0 ==> s.g0.phase != AwaitScalesV)
    ensures HeadedForReply(cfg, Apply(cfg, s, GpuAgent(c)))
  {
    ControlGpuStep(cfg, s, c);
    if c == 0 { Gpu0TowardsReply(cfg, s.g0, s.m0); }
  }

  lemma ReplyByMesh(cfg: Config, s: State, c: nat)
    requires HeadedForReply(cfg, s) && c < 2
    ensures HeadedForReply(cfg, Apply(cfg, s, MeshAgent(c)))
  {
    ControlMeshStep(cfg, s.host, c, s.GpuOf(c));
  }

  /** The agent that brings the host nearer its first PACKED reply while cluster 0 is held back
      before its requantization. */
  lemma TowardsReply(cfg: Config, s: State) returns (a: Agent)
    requires HeadedForReply(cfg, s) && s.g0.packed == 0
    ensures Enabled(s, a) && (!Productive(s, a) ==> a == HostAgent && HostSatisfied(s))
    ensures HeadedForReply(cfg, Apply(cfg, s, a))
  {
    if !s.g0.mesh.Idle? { a := MeshAgent(0); ReplyByMesh(cfg, s, 0); }
    else if !s.g1.mesh.Idle? { a := MeshAgent(1); ReplyByMesh(cfg, s, 1); }
    else if GpuReady(s.g1) { a := GpuAgent(1); ReplyByGpu(cfg, s, 1); }
    else if GpuReady(s.g0) && s.g0.phase != AwaitScalesV { a := GpuAgent(0); ReplyByGpu(cfg, s, 0); }
    else { a := HostAgent; ReplyHostReady(cfg, s); ReplyByHost(cfg, s); }
  }

  /** With PACKREQ already set on cluster 0, the host packs a scratch buffer nobody has written. */
  lemma {:induction false} RunsToEarlyReply(cfg: Config, s: State) returns (schedule: seq<Agent>)
    requires HeadedForReply(cfg, s)
    ensures Legal(cfg, s, schedule)
    ensures var last := After(cfg, s, schedule); !MeshReadsOwnTile(cfg, last.g0, last.m0)
    decreases Work(cfg, s), PollsLeft(s)
  {
    if s.g0.packed >= 1 {
      schedule := RunsToStalePv(cfg, s, 0);
      return;
    }
    var a := TowardsReply(cfg, s);
    if Productive(s, a) { WorkIsNearer(cfg, s, a); } else { PollIsNearer(cfg, s); }
    var rest := RunsToEarlyReply(cfg, Apply(cfg, s, a));
    LegalCons(cfg, s, a, rest);
    schedule := [a] + rest;
  }

  /** Every schedule keeps both clusters' matmuls on current scales. */
  ghost predicate SafeFrom(cfg: Config, s: State) {
    forall schedule: seq<Agent>, c: nat :: Legal(cfg, s, schedule) && c < 2 ==>
      MeshReadsOwnTile(cfg, After(cfg, s, schedule).GpuOf(c), After(cfg, s, schedule).MemoryOf(c))
  }

  lemma {:induction false} InvariantAfter(cfg: Config, s: State, schedule: seq<Agent>)
    requires Sizes(cfg) && Invariant(cfg, s) && Legal(cfg, s, schedule)
    ensures Invariant(cfg, After(cfg, s, schedule))
    decreases |schedule|
  {
    if schedule != [] {
      InvariantStep(cfg, s, schedule[0]);
      InvariantAfter(cfg, Apply(cfg, s, schedule[0]), schedule[1..]);
    }
  }

  lemma SafeAfter(cfg: Config, s: State, schedule: seq<Agent>, c: nat)
    requires Sizes(cfg) && Invariant(cfg, s) && Legal(cfg, s, schedule) && c < 2
    ensures MeshReadsOwnTile(cfg, After(cfg, s, schedule).GpuOf(c), After(cfg, s, schedule).MemoryOf(c))
  {
    InvariantAfter(cfg, s, schedule);
    SafeNow(cfg, After(cfg, s, schedule), c);
  }

  lemma ClearIsSafe(cfg: Config, s: State)
    requires Sizes(cfg) && Init(s) && PackWordsClear(s)
    ensures SafeFrom(cfg, s)
  {
    InvariantInit(cfg, s);
    forall schedule: seq<Agent>, c: nat | Legal(cfg, s, schedule) && c < 2
      ensures MeshReadsOwnTile(cfg, After(cfg, s, schedule).GpuOf(c), After(cfg, s, schedule).MemoryOf(c))
    {
      SafeAfter(cfg, s, schedule, c);
    }
  }

  /** A schedule that starts a PV matmul on the wrong scales. */
  lemma UnclearIsUnsafe(cfg: Config, s: State) returns (schedule: seq<Agent>, c: nat)
    requires Sizes(cfg) && cfg.hostPack && Init(s) && !PackWordsClear(s)
    ensures Legal(cfg, s, schedule) && c < 2
    ensures !MeshReadsOwnTile(cfg, After(cfg, s, schedule).GpuOf(c), After(cfg, s, schedule).MemoryOf(c))
  {
    InitControl(cfg, s);
    if s.g0.packed == 0 && s.g1.packed == 0 {
      c := 0;
      schedule := RunsToEarlyReply(cfg, s);
    } else {
      c := if s.g0.packed >= 1 then 0 else 1;
      schedule := RunsToStalePv(cfg, s, c);
    }
  }

  /** MAIN RESULT 9.  Host-side packing keeps every matmul on current scales, under every schedule,
      if and only if PACKED is clear on both clusters and PACKREQ is clear on cluster 0 when the GPU
      starts; the start-up code clears neither word. */
  lemma PackingSafeIffWordsClear(cfg: Config, s: State)
    requires Sizes(cfg) && cfg.hostPack && Init(s)
    ensures SafeFrom(cfg, s) <==> PackWordsClear(s)
  {
    if PackWordsClear(s) {
      ClearIsSafe(cfg, s);
    } else {
      var schedule, c := UnclearIsUnsafe(cfg, s);
    }
  }

  lemma InitControl(cfg: Config, s: State)
    requires Sizes(cfg) && Init(s)
    ensures Control(cfg, s)
  {
  }
}
