/** Invariants of the scale hand-off, and what follows for every run. */
module HandshakeInvariant {
  import opened Handshake

  // ---- mailbox words as functions of the program counters ----------------------------------

  function Published(h: Host, c: nat, rank: nat): nat {
    if h.phase.Rank() > rank || (h.phase.Rank() == rank && c < h.cl) then h.tile + 1 else h.tile
  }

  function QkPublished(h: Host, c: nat): nat { Published(h, c, PublishQk.Rank()) }
  function VPublished(h: Host, c: nat): nat { Published(h, c, PublishV.Rank()) }
  function PackedPublished(h: Host, c: nat): nat { Published(h, c, PublishPacked.Rank()) }

  function QkDrained(g: Gpu): nat {
    if g.phase.Rank() > PublishQkDone.Rank() && g.phase != GpuDone then g.tile + 1 else g.tile
  }

  function PackRequested(g: Gpu): nat {
    if g.phase.Rank() > RequestPack.Rank() && g.phase != GpuDone then g.tile + 1 else g.tile
  }

  function Recorded(g: Gpu): nat {
    if g.tile >= 1 || g.phase.Rank() > RecordPv.Rank() then 2
    else if g.phase.Rank() > RecordQk.Rank() then 1 else 0
  }

  // ---- control ---------------------------------------------------------------------------------

  ghost predicate HostShape(cfg: Config, h: Host) {
    && h.tile < cfg.tiles && h.cl < 2 && h.i < Beats(cfg, h.phase)
    && (IsWait(h.phase) || h.phase == ReadScratch || h.phase == HostDone ==> h.cl == 0)
    && ((h.phase.AwaitPv? || h.phase.AwaitQk? || h.phase.ReplayQk? || h.phase.ReplayPv?) ==> h.tile >= 1)
    && ((h.phase.ReplayQk? || h.phase.ReplayPv?) ==> cfg.hostCfg)
    && (h.phase == AwaitRec ==> cfg.hostCfg && h.tile == 0)
    && ((h.phase.AwaitPack? || h.phase.ReadScratch? || h.phase.WriteP? || h.phase.PublishPacked?) ==> cfg.hostPack)
    && (h.phase == HostDone ==> h.tile == cfg.tiles - 1)
  }

  ghost predicate GpuShape(cfg: Config, g: Gpu) {
    && g.i < cfg.p
    && (g.phase == GpuDone ==> g.tile == cfg.tiles)
    && (g.phase != GpuDone && g.phase != Finalize ==> g.tile < cfg.tiles)
    && g.tile <= cfg.tiles
    && ((g.phase.QkCommands? || g.phase.PvCommands?) && cfg.hostCfg ==> g.tile == 0)
    && ((g.phase.RecordQk? || g.phase.RecordPv?) ==> cfg.hostCfg && g.tile == 0)
    && (g.phase == Pack ==> !cfg.hostPack)
    && ((g.phase.RequestPack? || g.phase.AwaitPacked?) ==> cfg.hostPack)
    && (g.phase == Finalize ==> g.tile >= 1)
    && (g.mesh.RunningQk? ==> g.phase == DrainQk && g.mesh.tile == g.tile)
    && (g.mesh.RunningPv? ==> g.phase == DrainPv && g.mesh.tile == g.tile)
  }

  /** The words the host publishes. */
  ghost predicate HostWords(h: Host, c: nat, g: Gpu) {
    g.qkReady == QkPublished(h, c) && g.vReady == VPublished(h, c)
  }

  /** The words the GPU publishes. */
  ghost predicate GpuWords(cfg: Config, g: Gpu) {
    && g.qkDone == QkDrained(g) && g.pvDone == g.tile
    && (cfg.hostCfg ==> g.cfgRec == Recorded(g))
    && (cfg.hostPack ==> g.packReq >= PackRequested(g))
  }

  /** What a poll has read of cluster 0 is still a lower bound. */
  ghost predicate SeenWord(h: Host, c: nat, g: Gpu) {
    c == 0 && h.seen.Some? && !h.phase.AwaitPack? ==> h.seen.value <= Word(h.phase, g)
  }

  ghost predicate Mailbox(cfg: Config, h: Host, c: nat, g: Gpu) {
    HostWords(h, c, g) && GpuWords(cfg, g) && SeenWord(h, c, g)
  }

  /** How far the cluster is when the host works on its tile. */
  ghost predicate CaughtUp(h: Host, g: Gpu) {
    && (h.tile >= 1 ==> g.tile >= h.tile - 1)
    && (h.tile >= 1 && h.phase != AwaitPv ==> g.tile >= h.tile)
    && (h.tile >= 1 && h.phase.Rank() > AwaitQk.Rank() ==> QkDrained(g) >= h.tile + 1)
  }

  /** How far the host is when the cluster works on its tile. */
  ghost predicate Supplied(h: Host, c: nat, g: Gpu) {
    && QkPublished(h, c) >= g.tile && VPublished(h, c) >= g.tile
    && (g.phase.Rank() > AwaitScalesQk.Rank() && g.phase != GpuDone ==> QkPublished(h, c) >= g.tile + 1)
    && (g.phase.Rank() > AwaitScalesV.Rank() && g.phase != GpuDone ==> VPublished(h, c) >= g.tile + 1)
  }

  /** How far host and cluster may be apart. */
  ghost predicate Gating(h: Host, c: nat, g: Gpu) {
    CaughtUp(h, g) && Supplied(h, c, g)
  }

  ghost predicate ClusterControl(cfg: Config, h: Host, c: nat, g: Gpu) {
    GpuShape(cfg, g) && Mailbox(cfg, h, c, g) && Gating(h, c, g)
  }

  ghost predicate Control(cfg: Config, s: State) {
    HostShape(cfg, s.host) && ClusterControl(cfg, s.host, 0, s.g0) && ClusterControl(cfg, s.host, 1, s.g1)
  }

  lemma HostShapeKept(cfg: Config, h: Host, w0: nat, w1: nat)
    requires Sizes(cfg) && HostShape(cfg, h) && h.phase != HostDone
    ensures HostShape(cfg, HostMove(cfg, h, w0, w1))
  {
  }

  lemma HostWordsKept(cfg: Config, h: Host, w0: nat, w1: nat, c: nat, g: Gpu)
    requires Sizes(cfg) && HostShape(cfg, h) && c < 2 && h.phase != HostDone && HostWords(h, c, g)
    ensures HostWords(HostMove(cfg, h, w0, w1), c, HostPublish(h, c, g))
  {
  }

  lemma SeenWordKept(cfg: Config, h: Host, w0: nat, w1: nat, c: nat, g: Gpu)
    requires HostShape(cfg, h) && h.phase != HostDone && SeenWord(h, c, g)
    requires c == 0 ==> w0 == Word(h.phase, g)
    ensures SeenWord(HostMove(cfg, h, w0, w1), c, HostPublish(h, c, g))
  {
  }

  /** The mailbox words stay what the program counters say when the host moves. */
  lemma MailboxHost(cfg: Config, h: Host, w0: nat, w1: nat, c: nat, g: Gpu)
    requires Sizes(cfg) && HostShape(cfg, h) && c < 2 && h.phase != HostDone && Mailbox(cfg, h, c, g)
    requires c == 0 ==> w0 == Word(h.phase, g)
    ensures Mailbox(cfg, HostMove(cfg, h, w0, w1), c, HostPublish(h, c, g))
  {
    HostWordsKept(cfg, h, w0, w1, c, g);
    SeenWordKept(cfg, h, w0, w1, c, g);
    assert GpuWords(cfg, HostPublish(h, c, g));
  }

  lemma GatingLeaveWait(cfg: Config, h: Host, c: nat, g: Gpu)
    requires HostShape(cfg, h) && c < 2 && IsWait(h.phase) && Gating(h, c, g)
    requires h.phase == AwaitPv ==> g.tile >= h.tile
    requires h.phase == AwaitQk ==> QkDrained(g) >= h.tile + 1
    ensures Gating(Leave(cfg, h), c, g)
  {
  }

  /** Leaving a wait: both clusters have reached what the next burst needs. */
  lemma GatingHostWait(cfg: Config, h: Host, w0: nat, w1: nat, c: nat, g: Gpu)
    requires HostShape(cfg, h) && c < 2 && IsWait(h.phase)
    requires Mailbox(cfg, h, c, g) && Gating(h, c, g)
    requires c == 1 ==> w1 == Word(h.phase, g)
    ensures Gating(HostMove(cfg, h, w0, w1), c, HostPublish(h, c, g))
  {
    if h.seen.Some? && PollExits(h, w1) {
      GatingLeaveWait(cfg, h, c, g);
    }
  }

  lemma GatingLeaveWork(cfg: Config, h: Host, c: nat, g: Gpu)
    requires HostShape(cfg, h) && c < 2 && !IsWait(h.phase) && h.phase != HostDone
             && (h.cl == 1 || h.phase == ReadScratch)
    requires Gating(h, c, g)
    ensures Gating(Leave(cfg, h), c, HostPublish(h, c, g))
  {
  }

  lemma GatingStayWork(cfg: Config, h: Host, n: Host, c: nat, g: Gpu)
    requires c < 2 && !IsWait(h.phase) && n.phase == h.phase && n.tile == h.tile && n.cl >= h.cl && Gating(h, c, g)
    ensures Gating(n, c, HostPublish(h, c, g))
  {
  }

  lemma GatingHostWork(cfg: Config, h: Host, w0: nat, w1: nat, c: nat, g: Gpu)
    requires Sizes(cfg) && HostShape(cfg, h) && c < 2 && !IsWait(h.phase) && h.phase != HostDone
    requires Gating(h, c, g)
    ensures Gating(HostMove(cfg, h, w0, w1), c, HostPublish(h, c, g))
  {
    if h.i + 1 >= Beats(cfg, h.phase) && (h.cl == 1 || h.phase == ReadScratch) {
      GatingLeaveWork(cfg, h, c, g);
    } else {
      GatingStayWork(cfg, h, HostMove(cfg, h, w0, w1), c, g);
    }
  }

  lemma ControlHost(cfg: Config, h: Host, w0: nat, w1: nat, c: nat, g: Gpu)
    requires Sizes(cfg) && HostShape(cfg, h) && c < 2 && h.phase != HostDone && ClusterControl(cfg, h, c, g)
    requires if c == 0 then w0 == Word(h.phase, g) else w1 == Word(h.phase, g)
    ensures ClusterControl(cfg, HostMove(cfg, h, w0, w1), c, HostPublish(h, c, g))
  {
    MailboxHost(cfg, h, w0, w1, c, g);
    if IsWait(h.phase) { GatingHostWait(cfg, h, w0, w1, c, g); } else { GatingHostWork(cfg, h, w0, w1, c, g); }
    assert GpuShape(cfg, HostPublish(h, c, g));
  }

  lemma GpuShapeKept(cfg: Config, g: Gpu)
    requires Sizes(cfg) && GpuShape(cfg, g) && GpuReady(g)
    ensures GpuShape(cfg, GpuStep(cfg, g))
  {
  }

  lemma GpuWordsKept(cfg: Config, g: Gpu)
    requires Sizes(cfg) && GpuShape(cfg, g) && GpuWords(cfg, g) && GpuReady(g)
    ensures GpuWords(cfg, GpuStep(cfg, g))
  {
  }

  /** No word the host polls ever falls. */
  lemma WordsGrow(cfg: Config, g: Gpu, phase: HostPhase)
    requires Sizes(cfg) && GpuShape(cfg, g) && GpuWords(cfg, g) && GpuReady(g) && !phase.AwaitPack?
             && (phase.AwaitRec? ==> cfg.hostCfg)
    ensures Word(phase, g) <= Word(phase, GpuStep(cfg, g))
  {
  }

  lemma MailboxGpu(cfg: Config, h: Host, c: nat, g: Gpu)
    requires Sizes(cfg) && HostShape(cfg, h) && GpuShape(cfg, g) && Mailbox(cfg, h, c, g) && c < 2 && GpuReady(g)
    ensures Mailbox(cfg, h, c, GpuStep(cfg, g))
  {
    GpuWordsKept(cfg, g);
    if !h.phase.AwaitPack? { WordsGrow(cfg, g, h.phase); }
  }

  lemma CaughtUpGpu(cfg: Config, h: Host, g: Gpu)
    requires GpuShape(cfg, g) && GpuReady(g) && CaughtUp(h, g)
    ensures CaughtUp(h, GpuStep(cfg, g))
  {
  }

  lemma SuppliedGpu(cfg: Config, h: Host, c: nat, g: Gpu)
    requires GpuShape(cfg, g) && GpuReady(g) && HostWords(h, c, g) && Supplied(h, c, g)
    ensures Supplied(h, c, GpuStep(cfg, g))
  {
  }

  lemma GatingGpu(cfg: Config, h: Host, c: nat, g: Gpu)
    requires Sizes(cfg) && HostShape(cfg, h) && GpuShape(cfg, g) && Mailbox(cfg, h, c, g) && Gating(h, c, g)
    requires c < 2 && GpuReady(g)
    ensures Gating(h, c, GpuStep(cfg, g))
  {
    CaughtUpGpu(cfg, h, g);
    SuppliedGpu(cfg, h, c, g);
  }

  lemma ControlHostStep(cfg: Config, s: State)
    requires Sizes(cfg) && Control(cfg, s) && s.host.phase != HostDone
    ensures Control(cfg, HostStep(cfg, s))
  {
    var w0, w1 := Word(s.host.phase, s.g0), Word(s.host.phase, s.g1);
    HostShapeKept(cfg, s.host, w0, w1);
    ControlHost(cfg, s.host, w0, w1, 0, s.g0);
    ControlHost(cfg, s.host, w0, w1, 1, s.g1);
  }

  lemma ControlGpu(cfg: Config, h: Host, c: nat, g: Gpu)
    requires Sizes(cfg) && HostShape(cfg, h) && ClusterControl(cfg, h, c, g) && c < 2 && GpuReady(g)
    ensures ClusterControl(cfg, h, c, GpuStep(cfg, g))
  {
    GpuShapeKept(cfg, g);
    MailboxGpu(cfg, h, c, g);
    GatingGpu(cfg, h, c, g);
  }

  lemma ControlGpuStep(cfg: Config, s: State, c: nat)
    requires Sizes(cfg) && Control(cfg, s) && c < 2 && GpuReady(s.GpuOf(c))
    ensures Control(cfg, s.With(c, GpuStep(cfg, s.GpuOf(c)), GpuWrite(s.GpuOf(c), s.MemoryOf(c))))
  {
    ControlGpu(cfg, s.host, c, s.GpuOf(c));
  }

  lemma ControlMeshStep(cfg: Config, h: Host, c: nat, g: Gpu)
    requires ClusterControl(cfg, h, c, g)
    ensures ClusterControl(cfg, h, c, g.(mesh := Idle))
  {
  }

  lemma ControlStep(cfg: Config, s: State, a: Agent)
    requires Sizes(cfg) && Control(cfg, s) && Enabled(s, a)
    ensures Control(cfg, Apply(cfg, s, a))
  {
    match a
    case HostAgent => ControlHostStep(cfg, s);
    case GpuAgent(c) => ControlGpuStep(cfg, s, c);
    case MeshAgent(c) => ControlMeshStep(cfg, s.host, c, s.GpuOf(c));
  }
}
