/** Safety of the scale hand-off over every run. */
module HandshakeSafety {
  import opened Handshake
  import opened HandshakeInvariant
  import opened HandshakeData

  // ---- the pack request/reply words --------------------------------------------------------

  ghost predicate Packing(cfg: Config, h: Host, c: nat, g: Gpu) {
    cfg.hostPack ==>
      && g.packed == PackedPublished(h, c) && PackedPublished(h, c) >= g.tile
      && (g.phase.Rank() > AwaitPacked.Rank() && g.phase != GpuDone ==> PackedPublished(h, c) >= g.tile + 1)
      && (c == 0 ==> g.packReq == PackRequested(g))
      && (c == 0 && h.phase.Rank() > AwaitPack.Rank() ==> PackRequested(g) >= h.tile + 1)
      && (c == 0 && h.phase == AwaitPack && h.seen.Some? ==> h.seen.value <= g.packReq)
  }

  lemma PackingLeaveWait(cfg: Config, h: Host, c: nat, g: Gpu)
    requires HostShape(cfg, h) && c < 2 && IsWait(h.phase) && Packing(cfg, h, c, g)
    requires cfg.hostPack && c == 0 && h.phase == AwaitPack ==> g.packReq >= h.tile + 1
    ensures Packing(cfg, Leave(cfg, h), c, g)
  {
  }

  lemma PackingHostWait(cfg: Config, h: Host, w0: nat, w1: nat, c: nat, g: Gpu)
    requires HostShape(cfg, h) && c < 2 && IsWait(h.phase) && Packing(cfg, h, c, g)
    requires c == 0 ==> w0 == Word(h.phase, g)
    ensures Packing(cfg, HostMove(cfg, h, w0, w1), c, HostPublish(h, c, g))
  {
    if h.seen.Some? && PollExits(h, w1) { PackingLeaveWait(cfg, h, c, g); }
  }

  lemma PackingLeaveWork(cfg: Config, h: Host, c: nat, g: Gpu)
    requires HostShape(cfg, h) && c < 2 && !IsWait(h.phase) && h.phase != HostDone
             && (h.cl == 1 || h.phase == ReadScratch)
    requires Packing(cfg, h, c, g)
    ensures Packing(cfg, Leave(cfg, h), c, HostPublish(h, c, g))
  {
  }

  lemma PackingStayWork(cfg: Config, h: Host, n: Host, c: nat, g: Gpu)
    requires c < 2 && !IsWait(h.phase) && n.phase == h.phase && n.tile == h.tile && n.cl >= h.cl && n.seen == h.seen
    requires h.cl < 2 && (n.cl > h.cl ==> h.cl == 0 && n.cl == 1) && (h.phase.PublishPacked? ==> n.cl > h.cl)
    requires Packing(cfg, h, c, g)
    ensures Packing(cfg, n, c, HostPublish(h, c, g))
  {
  }

  lemma PackingHost(cfg: Config, h: Host, w0: nat, w1: nat, c: nat, g: Gpu)
    requires Sizes(cfg) && HostShape(cfg, h) && c < 2 && h.phase != HostDone && Packing(cfg, h, c, g)
    requires c == 0 ==> w0 == Word(h.phase, g)
    ensures Packing(cfg, HostMove(cfg, h, w0, w1), c, HostPublish(h, c, g))
  {
    if IsWait(h.phase) {
      PackingHostWait(cfg, h, w0, w1, c, g);
    } else if h.i + 1 >= Beats(cfg, h.phase) && (h.cl == 1 || h.phase == ReadScratch) {
      PackingLeaveWork(cfg, h, c, g);
    } else {
      PackingStayWork(cfg, h, HostMove(cfg, h, w0, w1), c, g);
    }
  }

  lemma PackingGpu(cfg: Config, h: Host, c: nat, g: Gpu)
    requires GpuShape(cfg, g) && GpuReady(g) && Packing(cfg, h, c, g)
    ensures Packing(cfg, h, c, GpuStep(cfg, g))
  {
  }

  /** While the host copies the scratch of cluster 0, it holds the host's own tile. */
  lemma ScratchReady(cfg: Config, h: Host, g: Gpu, scratch: map<nat, Scale>)
    requires HostShape(cfg, h) && Packing(cfg, h, 0, g) && ScratchOk(cfg, g, scratch)
    requires h.phase == ReadScratch
    ensures Lookup(scratch, h.i) == Scale(P, h.tile, h.i)
  {
  }

  lemma BufHost(cfg: Config, h: Host, w0: nat, w1: nat, buf: map<nat, Scale>, scratch: map<nat, Scale>)
    requires HostShape(cfg, h) && h.phase != HostDone && BufOk(cfg, h, buf)
    requires h.phase == ReadScratch ==> Lookup(scratch, h.i) == Scale(P, h.tile, h.i)
    ensures BufOk(cfg, HostMove(cfg, h, w0, w1), HostRead(h, buf, scratch))
  {
  }

  // ---- the invariant ---------------------------------------------------------------------------

  ghost predicate Memories(cfg: Config, h: Host, c: nat, g: Gpu, m: Memory) {
    WeightOk(cfg, h, c, m.weight) && ActOk(cfg, h, c, g, m.act) && ScratchOk(cfg, g, m.scratch)
  }

  ghost predicate ClusterOk(cfg: Config, h: Host, c: nat, g: Gpu, m: Memory) {
    && ClusterControl(cfg, h, c, g) && Packing(cfg, h, c, g)
    && Memories(cfg, h, c, g, m)
  }

  ghost predicate Invariant(cfg: Config, s: State) {
    && HostShape(cfg, s.host) && BufOk(cfg, s.host, s.buf)
    && ClusterOk(cfg, s.host, 0, s.g0, s.m0) && ClusterOk(cfg, s.host, 1, s.g1, s.m1)
  }

  lemma MemoriesHost(cfg: Config, h: Host, w0: nat, w1: nat, buf: map<nat, Scale>, c: nat, g: Gpu, m: Memory)
    requires Sizes(cfg) && HostShape(cfg, h) && GpuShape(cfg, g) && c < 2 && h.phase != HostDone && BufOk(cfg, h, buf)
    requires Memories(cfg, h, c, g, m)
    requires HostActBurst(h, c) || HostActBurst(HostMove(cfg, h, w0, w1), c) ==> g.phase != Pack
    ensures Memories(cfg, HostMove(cfg, h, w0, w1), c, HostPublish(h, c, g), HostWrite(h, buf, c, m))
  {
    WeightHost(cfg, h, w0, w1, buf, c, m);
    ActHost(cfg, h, w0, w1, buf, c, g, m);
    ActPublish(cfg, h, HostMove(cfg, h, w0, w1), c, g, HostWrite(h, buf, c, m).act);
  }

  lemma ClusterHost(cfg: Config, h: Host, w0: nat, w1: nat, buf: map<nat, Scale>, c: nat, g: Gpu, m: Memory)
    requires Sizes(cfg) && HostShape(cfg, h) && c < 2 && h.phase != HostDone && BufOk(cfg, h, buf)
    requires ClusterOk(cfg, h, c, g, m)
    requires if c == 0 then w0 == Word(h.phase, g) else w1 == Word(h.phase, g)
    ensures ClusterOk(cfg, HostMove(cfg, h, w0, w1), c, HostPublish(h, c, g), HostWrite(h, buf, c, m))
  {
    var n := HostMove(cfg, h, w0, w1);
    HostShapeKept(cfg, h, w0, w1);
    ControlHost(cfg, h, w0, w1, c, g);
    PackingHost(cfg, h, w0, w1, c, g);
    if HostActBurst(h, c) { HostActBurstExcludesPack(cfg, h, c, g); }
    if HostActBurst(n, c) { HostActBurstExcludesPack(cfg, n, c, HostPublish(h, c, g)); }
    MemoriesHost(cfg, h, w0, w1, buf, c, g, m);
  }

  lemma MemoriesGpu(cfg: Config, h: Host, c: nat, g: Gpu, m: Memory)
    requires Sizes(cfg) && HostShape(cfg, h) && GpuShape(cfg, g) && c < 2 && GpuReady(g)
    requires Memories(cfg, h, c, g, m)
    requires HostActBurst(h, c) ==> g.phase != Pack
    ensures Memories(cfg, h, c, GpuStep(cfg, g), GpuWrite(g, m))
  {
    ScratchGpu(cfg, g, m);
    if g.phase == Pack {
      MemoriesPack(cfg, h, c, g, m);
    } else {
      ActGpu(cfg, h, c, g, m.act);
    }
  }

  lemma MemoriesPack(cfg: Config, h: Host, c: nat, g: Gpu, m: Memory)
    requires Sizes(cfg) && HostShape(cfg, h) && GpuShape(cfg, g) && c < 2 && g.phase == Pack && !HostActBurst(h, c)
    requires Memories(cfg, h, c, g, m)
    ensures ActOk(cfg, h, c, GpuStep(cfg, g), GpuWrite(g, m).act) && GpuWrite(g, m).weight == m.weight
  {
    ActPack(cfg, h, c, g, m.act, GpuWrite(g, m).act);
  }

  lemma ClusterGpu(cfg: Config, h: Host, c: nat, g: Gpu, m: Memory)
    requires Sizes(cfg) && HostShape(cfg, h) && c < 2 && ClusterOk(cfg, h, c, g, m) && GpuReady(g)
    ensures ClusterOk(cfg, h, c, GpuStep(cfg, g), GpuWrite(g, m))
  {
    ControlGpu(cfg, h, c, g);
    PackingGpu(cfg, h, c, g);
    if HostActBurst(h, c) { HostActBurstExcludesPack(cfg, h, c, g); }
    MemoriesGpu(cfg, h, c, g, m);
  }

  lemma ClusterMesh(cfg: Config, h: Host, c: nat, g: Gpu, m: Memory)
    requires ClusterOk(cfg, h, c, g, m)
    ensures ClusterOk(cfg, h, c, g.(mesh := Idle), m)
  {
  }

  lemma InvariantHost(cfg: Config, s: State)
    requires Sizes(cfg) && Invariant(cfg, s) && s.host.phase != HostDone
    ensures Invariant(cfg, HostStep(cfg, s))
  {
    var w0, w1 := Word(s.host.phase, s.g0), Word(s.host.phase, s.g1);
    ClusterHost(cfg, s.host, w0, w1, s.buf, 0, s.g0, s.m0);
    ClusterHost(cfg, s.host, w0, w1, s.buf, 1, s.g1, s.m1);
    HostShapeKept(cfg, s.host, w0, w1);
    if s.host.phase == ReadScratch { ScratchReady(cfg, s.host, s.g0, s.m0.scratch); }
    BufHost(cfg, s.host, w0, w1, s.buf, s.m0.scratch);
  }

  lemma InvariantGpu(cfg: Config, s: State, c: nat)
    requires Sizes(cfg) && Invariant(cfg, s) && c < 2 && GpuReady(s.GpuOf(c))
    ensures Invariant(cfg, Apply(cfg, s, GpuAgent(c)))
  {
    var n := Apply(cfg, s, GpuAgent(c));
    if c == 0 {
      ClusterGpu(cfg, s.host, 0, s.g0, s.m0);
      assert ClusterOk(cfg, s.host, 1, n.g1, n.m1);
    } else {
      ClusterGpu(cfg, s.host, 1, s.g1, s.m1);
      assert ClusterOk(cfg, s.host, 0, n.g0, n.m0);
    }
  }

  lemma InvariantStep(cfg: Config, s: State, a: Agent)
    requires Sizes(cfg) && Invariant(cfg, s) && Enabled(s, a)
    ensures Invariant(cfg, Apply(cfg, s, a))
  {
    match a
    case HostAgent => InvariantHost(cfg, s);
    case GpuAgent(c) => InvariantGpu(cfg, s, c);
    case MeshAgent(c) => ClusterMesh(cfg, s.host, c, s.GpuOf(c), s.MemoryOf(c));
  }

  lemma InvariantInit(cfg: Config, s: State)
    requires Sizes(cfg) && Init(s) && (cfg.hostPack ==> PackWordsClear(s))
    ensures Invariant(cfg, s)
  {
    ClusterInit(cfg, s.host, 0, s.g0, s.m0);
    ClusterInit(cfg, s.host, 1, s.g1, s.m1);
  }

  lemma ClusterInit(cfg: Config, h: Host, c: nat, g: Gpu, m: Memory)
    requires Sizes(cfg) && c < 2 && h == Host(WriteQ, 0, 0, 0, None) && FreshGpu(g) && m == BLANK
    requires cfg.hostPack ==> g.packed == 0 && (c == 0 ==> g.packReq == 0)
    ensures ClusterOk(cfg, h, c, g, m)
  {
    MemoriesInit(cfg, h, c, g, m);
    ControlInit(cfg, h, c, g);
    assert Packing(cfg, h, c, g);
  }

  lemma ControlInit(cfg: Config, h: Host, c: nat, g: Gpu)
    requires Sizes(cfg) && c < 2 && h == Host(WriteQ, 0, 0, 0, None) && FreshGpu(g)
    ensures ClusterControl(cfg, h, c, g)
  {
  }

  lemma MemoriesInit(cfg: Config, h: Host, c: nat, g: Gpu, m: Memory)
    requires Sizes(cfg) && c < 2 && h == Host(WriteQ, 0, 0, 0, None) && FreshGpu(g) && m == BLANK
    ensures Memories(cfg, h, c, g, m)
  {
  }

  lemma {:induction false} InvariantRun(cfg: Config, trace: seq<State>, n: nat)
    requires Sizes(cfg) && Run(cfg, trace) && n < |trace|
    requires cfg.hostPack ==> PackWordsClear(trace[0])
    ensures Invariant(cfg, trace[n])
  {
    if n == 0 {
      InvariantInit(cfg, trace[0]);
    } else {
      InvariantRun(cfg, trace, n - 1);
      assert Step(cfg, trace[n - 1], trace[n - 1 + 1]);
      var a: Agent :| Enabled(trace[n - 1], a) && trace[n] == Apply(cfg, trace[n - 1], a);
      InvariantStep(cfg, trace[n - 1], a);
    }
  }

  // ---- consequences ------------------------------------------------------------------------

  /** A tile the host has published, and whose successor it has not begun, is in place. */
  lemma PublishedHolds(h: Host, c: nat, phase: HostPhase, publish: HostPhase, port: Port,
                       base: nat, operand: Operand, n: nat, tile: nat)
    requires c < 2 && 1 <= phase.Rank() < publish.Rank() && Filled(h, c, phase.Rank(), port, base, operand, n)
    requires Published(h, c, publish.Rank()) >= tile + 1
    requires h.tile <= tile || (h.tile == tile + 1 && h.phase == AwaitPv)
    ensures Holds(port, FromHost, base, operand, tile, n)
  {
  }

  lemma QkSafe(cfg: Config, h: Host, c: nat, g: Gpu, m: Memory, t: nat)
    requires c < 2 && ClusterControl(cfg, h, c, g) && Memories(cfg, h, c, g, m) && g.mesh == RunningQk(t)
    ensures Holds(m.act, FromHost, HALF_ROWS, Q, t, cfg.q) && Holds(m.weight, FromHost, 0, K, t, cfg.k)
  {
    PublishedHolds(h, c, WriteQ, PublishQk, m.act, HALF_ROWS, Q, cfg.q, t);
    PublishedHolds(h, c, WriteK, PublishQk, m.weight, 0, K, cfg.k, t);
  }

  lemma PvSafe(cfg: Config, h: Host, c: nat, g: Gpu, m: Memory, t: nat)
    requires c < 2 && ClusterControl(cfg, h, c, g) && Packing(cfg, h, c, g) && Memories(cfg, h, c, g, m)
    requires g.mesh == RunningPv(t)
    ensures Holds(m.act, Packer(cfg), 0, P, t, cfg.p) && Holds(m.weight, FromHost, HALF_ROWS, V, t, cfg.v)
  {
    PublishedHolds(h, c, WriteV, PublishV, m.weight, HALF_ROWS, V, cfg.v, t);
    if cfg.hostPack { PvPacked(cfg, h, c, g, m, t); }
  }

  lemma PvPacked(cfg: Config, h: Host, c: nat, g: Gpu, m: Memory, t: nat)
    requires c < 2 && ClusterControl(cfg, h, c, g) && Packing(cfg, h, c, g) && ActOk(cfg, h, c, g, m.act)
    requires g.mesh == RunningPv(t) && cfg.hostPack
    ensures Holds(m.act, FromHost, 0, P, t, cfg.p)
  {
    PublishedHolds(h, c, WriteP, PublishPacked, m.act, 0, P, cfg.p, t);
  }

  lemma MeshSafe(cfg: Config, h: Host, c: nat, g: Gpu, m: Memory)
    requires c < 2 && ClusterOk(cfg, h, c, g, m)
    ensures MeshReadsOwnTile(cfg, g, m)
  {
    match g.mesh
    case Idle =>
    case RunningQk(t) => QkSafe(cfg, h, c, g, m, t);
    case RunningPv(t) => PvSafe(cfg, h, c, g, m, t);
  }

  lemma SafeNow(cfg: Config, s: State, c: nat)
    requires Invariant(cfg, s) && c < 2
    ensures MeshReadsOwnTile(cfg, s.GpuOf(c), s.MemoryOf(c))
  {
    MeshSafe(cfg, s.host, c, s.GpuOf(c), s.MemoryOf(c));
  }

  /** MAIN RESULT 1.  In every run over any number of tiles, every matmul in flight on either cluster
      reads the complete scales of its own tile, and no other. */
  lemma ScalesAreCurrent(cfg: Config, trace: seq<State>, n: nat, c: nat)
    requires Sizes(cfg) && Run(cfg, trace) && n < |trace| && c < 2
    requires cfg.hostPack ==> PackWordsClear(trace[0])
    ensures MeshReadsOwnTile(cfg, trace[n].GpuOf(c), trace[n].MemoryOf(c))
  {
    InvariantRun(cfg, trace, n);
    SafeNow(cfg, trace[n], c);
  }

  // ---- nothing is written under a running matmul -------------------------------------------

  ghost predicate SameHalf(port: Port, after: Port, base: nat) {
    forall r: nat :: base <= r < base + HALF_ROWS ==> RowAt(after, r) == RowAt(port, r)
  }

  /** The two halves a running matmul reads are the same in both memories. */
  ghost predicate ReadHalvesKept(mesh: Mesh, m: Memory, after: Memory) {
    match mesh
    case Idle => true
    case RunningQk(_) => SameHalf(m.act, after.act, HALF_ROWS) && SameHalf(m.weight, after.weight, 0)
    case RunningPv(_) => SameHalf(m.act, after.act, 0) && SameHalf(m.weight, after.weight, HALF_ROWS)
  }

  /** The host is storing to the half of `phase` on a cluster whose matmul needs it: impossible. */
  lemma HostOffReadHalves(cfg: Config, h: Host, c: nat, g: Gpu)
    requires c < 2 && HostShape(cfg, h) && ClusterControl(cfg, h, c, g) && Packing(cfg, h, c, g) && h.cl == c
    ensures g.mesh.RunningQk? ==> h.phase != WriteQ && h.phase != WriteK
    ensures g.mesh.RunningPv? ==> h.phase != WriteP && h.phase != WriteV
  {
  }

  /** A store in one half's burst leaves the rows of the other half alone. */
  lemma StoreOtherHalf(port: Port, beat: Beat, base: nat)
    requires beat.addr / 2 < base || beat.addr / 2 >= base + HALF_ROWS
    ensures SameHalf(port, Store(port, beat), base)
  {
  }

  lemma HostKeepsReadHalves(cfg: Config, s: State, c: nat)
    requires Sizes(cfg) && Invariant(cfg, s) && c < 2
    ensures ReadHalvesKept(s.GpuOf(c).mesh, s.MemoryOf(c), HostWrite(s.host, s.buf, c, s.MemoryOf(c)))
  {
    var h, g := s.host, s.GpuOf(c);
    if h.cl == c && Fills(h.phase) {
      HostOffReadHalves(cfg, h, c, g);
      HostStoresOtherHalf(cfg, h, s.buf, c, g.mesh, s.MemoryOf(c));
    }
  }

  lemma HostStoresOtherHalf(cfg: Config, h: Host, buf: map<nat, Scale>, c: nat, mesh: Mesh, m: Memory)
    requires Sizes(cfg) && HostShape(cfg, h) && h.cl == c && Fills(h.phase)
    requires mesh.RunningQk? ==> h.phase != WriteQ && h.phase != WriteK
    requires mesh.RunningPv? ==> h.phase != WriteP && h.phase != WriteV
    ensures ReadHalvesKept(mesh, m, HostWrite(h, buf, c, m))
  {
    match h.phase
    case WriteQ => StoreOtherHalf(m.act, BeatOf(FromHost, HALF_ROWS, Q, h.tile, h.i), 0);
    case WriteK => StoreOtherHalf(m.weight, BeatOf(FromHost, 0, K, h.tile, h.i), HALF_ROWS);
    case WriteV => StoreOtherHalf(m.weight, BeatOf(FromHost, HALF_ROWS, V, h.tile, h.i), 0);
    case WriteP => StoreOtherHalf(m.act, Beat(FromHost, h.i, Lookup(buf, h.i)), HALF_ROWS);
  }

  lemma GpuKeepsReadHalves(cfg: Config, s: State, c: nat, d: nat)
    requires Sizes(cfg) && Invariant(cfg, s) && c < 2 && Enabled(s, GpuAgent(d))
    ensures ReadHalvesKept(s.GpuOf(c).mesh, s.MemoryOf(c), Apply(cfg, s, GpuAgent(d)).MemoryOf(c))
  {
    if d == c { assert s.GpuOf(c).mesh.Idle? || GpuWrite(s.GpuOf(c), s.MemoryOf(c)) == s.MemoryOf(c); }
  }

  lemma StepKeepsReadHalves(cfg: Config, s: State, a: Agent, c: nat)
    requires Sizes(cfg) && Invariant(cfg, s) && c < 2 && Enabled(s, a)
    ensures ReadHalvesKept(s.GpuOf(c).mesh, s.MemoryOf(c), Apply(cfg, s, a).MemoryOf(c))
  {
    match a
    case HostAgent => HostKeepsReadHalves(cfg, s, c);
    case GpuAgent(d) => GpuKeepsReadHalves(cfg, s, c, d);
    case MeshAgent(d) =>
  }

  /** MAIN RESULT 2.  From the issue of a matmul to its drain, no step of the host or of any GPU
      changes a row of the two halves it selected. */
  lemma ReadHalvesAreQuiet(cfg: Config, trace: seq<State>, n: nat, c: nat)
    requires Sizes(cfg) && Run(cfg, trace) && n + 1 < |trace| && c < 2
    requires cfg.hostPack ==> PackWordsClear(trace[0])
    ensures ReadHalvesKept(trace[n].GpuOf(c).mesh, trace[n].MemoryOf(c), trace[n + 1].MemoryOf(c))
  {
    InvariantRun(cfg, trace, n);
    assert Step(cfg, trace[n], trace[n + 1]);
    var a: Agent :| Enabled(trace[n], a) && trace[n + 1] == Apply(cfg, trace[n], a);
    StepKeepsReadHalves(cfg, trace[n], a, c);
  }

  /** MAIN RESULT 3.  No 16-byte row of the shared activation port is ever formed from one host beat
      and one GPU beat. */
  lemma NoRowMixesWriters(cfg: Config, trace: seq<State>, n: nat, c: nat)
    requires Sizes(cfg) && Run(cfg, trace) && n < |trace| && c < 2
    requires cfg.hostPack ==> PackWordsClear(trace[0])
    ensures NoMixedRow(trace[n].MemoryOf(c).act)
  {
    InvariantRun(cfg, trace, n);
  }
}
