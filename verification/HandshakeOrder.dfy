/** The program order of the host and of the GPUs over a whole run: which phases a party goes through for a tile, in
    which order, and what another party has done before it goes on. */
module HandshakeOrder {
  import opened Handshake
  import opened HandshakeHistory
  import opened HandshakeInvariant

  // ---- the GPU ---------------------------------------------------------------------------------

  /** The phases a cluster goes through for tile t.  With host-issued commands the GPU issues, and records, those of
      tile 0 only; either it packs the probability scales or it asks the host to. */
  predicate GpuDoes(cfg: Config, t: nat, phase: GpuPhase) {
    match phase
    case GpuDone => t == cfg.tiles
    case Finalize => 1 <= t <= cfg.tiles
    case QkCommands => t < cfg.tiles && (cfg.hostCfg ==> t == 0)
    case PvCommands => t < cfg.tiles && (cfg.hostCfg ==> t == 0)
    case RecordQk => cfg.hostCfg && t == 0
    case RecordPv => cfg.hostCfg && t == 0
    case Pack => t < cfg.tiles && !cfg.hostPack
    case RequestPack => t < cfg.tiles && cfg.hostPack
    case AwaitPacked => t < cfg.tiles && cfg.hostPack
    case _ => t < cfg.tiles
  }

  predicate GpuAt(g: Gpu, t: nat, phase: GpuPhase) {
    g.tile == t && g.phase == phase
  }

  /** The phase of tile t is where the cluster is, or before it in tile and then phase order. */
  predicate GpuReached(g: Gpu, t: nat, phase: GpuPhase) {
    t < g.tile || (t == g.tile && phase.Rank() <= g.phase.Rank())
  }

  /** Cluster c has been in the phase of tile t by the n-th state. */
  ghost predicate GpuDid(trace: seq<State>, n: nat, c: nat, t: nat, phase: GpuPhase) {
    exists k: nat :: k <= n && k < |trace| && GpuAt(trace[k].GpuOf(c), t, phase)
  }

  predicate GpuPassed(cfg: Config, g: Gpu, t: nat, phase: GpuPhase) {
    GpuDoes(cfg, t, phase) && GpuReached(g, t, phase)
  }

  /** Where the program counter is is where the program goes. */
  lemma GpuHere(cfg: Config, g: Gpu, t: nat, phase: GpuPhase)
    requires GpuShape(cfg, g)
    ensures GpuAt(g, t, phase) ==> GpuPassed(cfg, g, t, phase)
  {
  }

  /** A step of the GPU goes on ... */
  lemma GpuAdvances(cfg: Config, g: Gpu, g': Gpu, t: nat, phase: GpuPhase)
    requires GpuShape(cfg, g) && g' == GpuStep(cfg, g) && GpuReached(g, t, phase)
    ensures GpuReached(g', t, phase)
  {
  }

  /** ... and passes over nothing that the program has. */
  lemma GpuSkipsNothing(cfg: Config, g: Gpu, g': Gpu, t: nat, phase: GpuPhase)
    requires Sizes(cfg) && GpuShape(cfg, g) && GpuReady(g) && g' == GpuStep(cfg, g)
    requires GpuPassed(cfg, g', t, phase) && !GpuReached(g, t, phase)
    ensures GpuAt(g', t, phase)
  {
  }

  lemma GpuNext(cfg: Config, g: Gpu, g': Gpu, t: nat, phase: GpuPhase)
    requires Sizes(cfg) && GpuShape(cfg, g) && GpuReady(g) && g' == GpuStep(cfg, g)
    ensures GpuReached(g, t, phase) ==> GpuReached(g', t, phase)
    ensures GpuPassed(cfg, g', t, phase) && !GpuReached(g, t, phase) ==> GpuAt(g', t, phase)
  {
    if GpuReached(g, t, phase) {
      GpuAdvances(cfg, g, g', t, phase);
    } else if GpuPassed(cfg, g', t, phase) {
      GpuSkipsNothing(cfg, g, g', t, phase);
    }
  }

  lemma GpuKeeps(g: Gpu, g': Gpu, t: nat, phase: GpuPhase)
    requires g'.phase == g.phase && g'.tile == g.tile
    ensures GpuReached(g', t, phase) == GpuReached(g, t, phase)
  {
  }

  lemma HostLeavesGpu(h: Host, c: nat, g: Gpu)
    ensures HostPublish(h, c, g).phase == g.phase && HostPublish(h, c, g).tile == g.tile
  {
  }

  lemma StepPlace(cfg: Config, s: State, s': State, c: nat, g: Gpu, g': Gpu, t: nat, phase: GpuPhase)
    requires Sizes(cfg) && StepOrStay(cfg, s, s') && c < 2
    requires g == s.GpuOf(c) && g' == s'.GpuOf(c) && GpuShape(cfg, g)
    ensures GpuReached(g, t, phase) ==> GpuReached(g', t, phase)
    ensures GpuPassed(cfg, g', t, phase) && !GpuReached(g, t, phase) ==> GpuAt(g', t, phase)
  {
    if s' != s {
      var a: Agent :| Enabled(s, a) && s' == Apply(cfg, s, a);
      match a
      case HostAgent =>
        HostLeavesGpu(s.host, c, g);
        GpuKeeps(g, g', t, phase);
      case GpuAgent(d) =>
        if d == c { GpuNext(cfg, g, g', t, phase); } else { GpuKeeps(g, g', t, phase); }
      case MeshAgent(_) => GpuKeeps(g, g', t, phase);
    }
  }

  lemma GpuMoves(cfg: Config, trace: seq<State>, k: nat, c: nat, g: Gpu, g': Gpu, t: nat, phase: GpuPhase)
    requires Sizes(cfg) && Behaviour(cfg, trace) && k + 1 < |trace| && c < 2
    requires g == trace[k].GpuOf(c) && g' == trace[k + 1].GpuOf(c)
    ensures GpuPassed(cfg, g', t, phase) <==> GpuPassed(cfg, g, t, phase) || GpuAt(g', t, phase)
  {
    GpuShapeAt(cfg, trace, k, c);
    GpuShapeAt(cfg, trace, k + 1, c);
    GpuHere(cfg, g', t, phase);
    assert StepOrStay(cfg, trace[k], trace[k + 1]);
    StepPlace(cfg, trace[k], trace[k + 1], c, g, g', t, phase);
  }

  lemma GpuDidNext(trace: seq<State>, k: nat, c: nat, t: nat, phase: GpuPhase)
    requires k + 1 < |trace|
    ensures GpuDid(trace, k + 1, c, t, phase)
            <==> GpuDid(trace, k, c, t, phase) || GpuAt(trace[k + 1].GpuOf(c), t, phase)
  {
  }

  /** MAIN RESULT 1.  By any state of a run a cluster has been in exactly the phases its program has for the tiles so
      far, up to where it is: it skips none, adds none, and goes through them in order. */
  lemma {:induction false} GpuProgramOrder(cfg: Config, trace: seq<State>, n: nat, c: nat, t: nat, phase: GpuPhase)
    requires Sizes(cfg) && Behaviour(cfg, trace) && n < |trace| && c < 2
    ensures GpuDid(trace, n, c, t, phase) <==> GpuPassed(cfg, trace[n].GpuOf(c), t, phase)
  {
    if n == 0 {
      GpuShapeAt(cfg, trace, n, c);
      GpuHere(cfg, trace[n].GpuOf(c), t, phase);
      assert GpuDid(trace, n, c, t, phase) <==> GpuAt(trace[0].GpuOf(c), t, phase);
    } else {
      GpuProgramOrder(cfg, trace, n - 1, c, t, phase);
      GpuMoves(cfg, trace, n - 1, c, trace[n - 1].GpuOf(c), trace[n].GpuOf(c), t, phase);
      GpuDidNext(trace, n - 1, c, t, phase);
    }
  }

  // ---- the host -----------------------------------------------------------------------------------

  /** The phases the host goes through for tile t: replays when it issues the commands, a wait for the recordings
      before it first does, and the packing when that is its work. */
  predicate HostDoes(cfg: Config, t: nat, phase: HostPhase) {
    t < cfg.tiles &&
    match phase
    case HostDone => t == cfg.tiles - 1
    case AwaitPv => t >= 1
    case AwaitQk => t >= 1
    case ReplayQk => cfg.hostCfg && t >= 1
    case ReplayPv => cfg.hostCfg && t >= 1
    case AwaitRec => cfg.hostCfg && t == 0
    case AwaitPack => cfg.hostPack
    case ReadScratch => cfg.hostPack
    case WriteP => cfg.hostPack
    case PublishPacked => cfg.hostPack
    case _ => true
  }

  /** Waiting, and reading the scratch of cluster 0, are done once; all else on cluster 0 and then on cluster 1. */
  predicate HostTurns(phase: HostPhase, c: nat) {
    c == 0 || (c == 1 && !IsWait(phase) && phase != ReadScratch && phase != HostDone)
  }

  predicate HostAt(h: Host, t: nat, phase: HostPhase, c: nat) {
    h.tile == t && h.phase == phase && h.cl == c
  }

  predicate HostReached(h: Host, t: nat, phase: HostPhase, c: nat) {
    t < h.tile || (t == h.tile && (phase.Rank() < h.phase.Rank() || (phase == h.phase && c <= h.cl)))
  }

  ghost predicate HostDid(trace: seq<State>, n: nat, t: nat, phase: HostPhase, c: nat) {
    exists k: nat :: k <= n && k < |trace| && HostAt(trace[k].host, t, phase, c)
  }

  predicate HostPassed(cfg: Config, h: Host, t: nat, phase: HostPhase, c: nat) {
    HostDoes(cfg, t, phase) && HostTurns(phase, c) && HostReached(h, t, phase, c)
  }

  lemma HostHere(cfg: Config, h: Host, t: nat, phase: HostPhase, c: nat)
    requires HostShape(cfg, h)
    ensures HostAt(h, t, phase, c) ==> HostPassed(cfg, h, t, phase, c)
  {
  }

  /** A step of the host goes on ... */
  lemma HostAdvances(cfg: Config, h: Host, h': Host, w0: nat, w1: nat, t: nat, phase: HostPhase, c: nat)
    requires HostShape(cfg, h) && h.phase != HostDone && h' == HostMove(cfg, h, w0, w1) && HostReached(h, t, phase, c)
    ensures HostReached(h', t, phase, c)
  {
  }

  lemma LeaveSkipsNothing(cfg: Config, h: Host, h': Host, t: nat, phase: HostPhase, c: nat)
    requires Sizes(cfg) && HostShape(cfg, h) && h.phase != HostDone && h' == Leave(cfg, h)
    requires h.cl == 1 || IsWait(h.phase) || h.phase == ReadScratch
    requires HostPassed(cfg, h', t, phase, c) && !HostReached(h, t, phase, c)
    ensures HostAt(h', t, phase, c)
  {
  }

  /** ... and passes over nothing that the program has. */
  lemma HostSkipsNothing(cfg: Config, h: Host, h': Host, w0: nat, w1: nat, t: nat, phase: HostPhase, c: nat)
    requires Sizes(cfg) && HostShape(cfg, h) && h.phase != HostDone && h' == HostMove(cfg, h, w0, w1)
    requires HostPassed(cfg, h', t, phase, c) && !HostReached(h, t, phase, c)
    ensures HostAt(h', t, phase, c)
  {
    if h' == Leave(cfg, h) && (h.cl == 1 || IsWait(h.phase) || h.phase == ReadScratch) {
      LeaveSkipsNothing(cfg, h, h', t, phase, c);
    }
  }

  lemma HostNext(cfg: Config, h: Host, h': Host, w0: nat, w1: nat, t: nat, phase: HostPhase, c: nat)
    requires Sizes(cfg) && HostShape(cfg, h) && h.phase != HostDone && h' == HostMove(cfg, h, w0, w1)
    ensures HostReached(h, t, phase, c) ==> HostReached(h', t, phase, c)
    ensures HostPassed(cfg, h', t, phase, c) && !HostReached(h, t, phase, c) ==> HostAt(h', t, phase, c)
  {
    if HostReached(h, t, phase, c) {
      HostAdvances(cfg, h, h', w0, w1, t, phase, c);
    } else if HostPassed(cfg, h', t, phase, c) {
      HostSkipsNothing(cfg, h, h', w0, w1, t, phase, c);
    }
  }

  lemma StepTurn(cfg: Config, s: State, s': State, h: Host, h': Host, t: nat, phase: HostPhase, c: nat)
    requires Sizes(cfg) && StepOrStay(cfg, s, s') && h == s.host && h' == s'.host && HostShape(cfg, h)
    ensures HostReached(h, t, phase, c) ==> HostReached(h', t, phase, c)
    ensures HostPassed(cfg, h', t, phase, c) && !HostReached(h, t, phase, c) ==> HostAt(h', t, phase, c)
  {
    if s' != s {
      var a: Agent :| Enabled(s, a) && s' == Apply(cfg, s, a);
      if a == HostAgent {
        HostNext(cfg, h, h', Word(h.phase, s.g0), Word(h.phase, s.g1), t, phase, c);
      } else {
        assert h' == h;
      }
    }
  }

  lemma HostShapeAt(cfg: Config, trace: seq<State>, n: nat)
    requires Sizes(cfg) && Behaviour(cfg, trace) && n < |trace|
    ensures HostShape(cfg, trace[n].host)
  {
    BehaviourControl(cfg, trace, n);
  }

  lemma HostMoves(cfg: Config, trace: seq<State>, k: nat, h: Host, h': Host, t: nat, phase: HostPhase, c: nat)
    requires Sizes(cfg) && Behaviour(cfg, trace) && k + 1 < |trace| && h == trace[k].host && h' == trace[k + 1].host
    ensures HostPassed(cfg, h', t, phase, c) <==> HostPassed(cfg, h, t, phase, c) || HostAt(h', t, phase, c)
  {
    HostShapeAt(cfg, trace, k);
    HostShapeAt(cfg, trace, k + 1);
    HostHere(cfg, h', t, phase, c);
    assert StepOrStay(cfg, trace[k], trace[k + 1]);
    StepTurn(cfg, trace[k], trace[k + 1], h, h', t, phase, c);
  }

  lemma HostDidNext(trace: seq<State>, k: nat, t: nat, phase: HostPhase, c: nat)
    requires k + 1 < |trace|
    ensures HostDid(trace, k + 1, t, phase, c)
            <==> HostDid(trace, k, t, phase, c) || HostAt(trace[k + 1].host, t, phase, c)
  {
  }

  /** MAIN RESULT 2.  The same of the host, cluster 0 before cluster 1 in each phase. */
  lemma {:induction false} HostProgramOrder(cfg: Config, trace: seq<State>, n: nat, t: nat, phase: HostPhase, c: nat)
    requires Sizes(cfg) && Behaviour(cfg, trace) && n < |trace|
    ensures HostDid(trace, n, t, phase, c) <==> HostPassed(cfg, trace[n].host, t, phase, c)
  {
    if n == 0 {
      HostShapeAt(cfg, trace, n);
      HostHere(cfg, trace[n].host, t, phase, c);
      assert HostDid(trace, n, t, phase, c) <==> HostAt(trace[0].host, t, phase, c);
    } else {
      HostProgramOrder(cfg, trace, n - 1, t, phase, c);
      HostMoves(cfg, trace, n - 1, trace[n - 1].host, trace[n].host, t, phase, c);
      HostDidNext(trace, n - 1, t, phase, c);
    }
  }

  // ---- what one party has done when another goes on ------------------------------------------------------

  /** The tile's QK commands have been issued on the cluster: by the host's replay to it, from the second tile on
      when the host issues them, or else by the GPU itself. */
  ghost predicate QkCommanded(cfg: Config, trace: seq<State>, n: nat, c: nat, t: nat) {
    if cfg.hostCfg && t >= 1 then HostDid(trace, n, t, ReplayQk, c) else GpuDid(trace, n, c, t, QkCommands)
  }

  ghost predicate PvCommanded(cfg: Config, trace: seq<State>, n: nat, c: nat, t: nat) {
    if cfg.hostCfg && t >= 1 then HostDid(trace, n, t, ReplayPv, c) else GpuDid(trace, n, c, t, PvCommands)
  }

  lemma RunningIsSupplied(cfg: Config, s: State, c: nat, t: nat)
    requires Control(cfg, s) && c < 2
    ensures s.GpuOf(c).mesh == RunningQk(t) ==>
              GpuAt(s.GpuOf(c), t, DrainQk) && t < cfg.tiles && HostReached(s.host, t, ReplayQk, c)
    ensures s.GpuOf(c).mesh == RunningPv(t) ==>
              GpuAt(s.GpuOf(c), t, DrainPv) && t < cfg.tiles && HostReached(s.host, t, ReplayPv, c)
  {
  }

  lemma RunningAt(cfg: Config, trace: seq<State>, n: nat, c: nat, t: nat, h: Host, g: Gpu)
    requires Sizes(cfg) && Behaviour(cfg, trace) && n < |trace| && c < 2 && h == trace[n].host && g == trace[n].GpuOf(c)
    ensures g.mesh == RunningQk(t) ==> GpuAt(g, t, DrainQk) && t < cfg.tiles && HostReached(h, t, ReplayQk, c)
    ensures g.mesh == RunningPv(t) ==> GpuAt(g, t, DrainPv) && t < cfg.tiles && HostReached(h, t, ReplayPv, c)
  {
    BehaviourControl(cfg, trace, n);
    RunningIsSupplied(cfg, trace[n], c, t);
  }

  /** MAIN RESULT 3.  Every matmul has had its commands: whenever one is in flight on a cluster, those that move its
      operands in and configure the mesh for its tile have been issued on that very cluster ... */
  lemma QkHasCommands(cfg: Config, trace: seq<State>, n: nat, c: nat, t: nat)
    requires Sizes(cfg) && Behaviour(cfg, trace) && n < |trace| && c < 2 && trace[n].GpuOf(c).mesh == RunningQk(t)
    ensures QkCommanded(cfg, trace, n, c, t)
  {
    RunningAt(cfg, trace, n, c, t, trace[n].host, trace[n].GpuOf(c));
    GpuProgramOrder(cfg, trace, n, c, t, QkCommands);
    HostProgramOrder(cfg, trace, n, t, ReplayQk, c);
  }

  /** ... and a PV matmul comes after the tile's softmax. */
  lemma PvHasCommands(cfg: Config, trace: seq<State>, n: nat, c: nat, t: nat)
    requires Sizes(cfg) && Behaviour(cfg, trace) && n < |trace| && c < 2 && trace[n].GpuOf(c).mesh == RunningPv(t)
    ensures PvCommanded(cfg, trace, n, c, t) && GpuDid(trace, n, c, t, Softmax)
  {
    RunningAt(cfg, trace, n, c, t, trace[n].host, trace[n].GpuOf(c));
    GpuProgramOrder(cfg, trace, n, c, t, PvCommands);
    GpuProgramOrder(cfg, trace, n, c, t, Softmax);
    HostProgramOrder(cfg, trace, n, t, ReplayPv, c);
  }

  /** A host that leaves its wait for the recordings finds CFGREC at 2 on both clusters. */
  lemma BothRecorded(cfg: Config, s: State, s': State, c: nat)
    requires Sizes(cfg) && Control(cfg, s) && StepOrStay(cfg, s, s') && c < 2
    requires s.host.phase == AwaitRec && s'.host.phase != AwaitRec
    ensures s.GpuOf(c).cfgRec == 2 && GpuReached(s.GpuOf(c), 0, RecordPv)
  {
    var a: Agent :| Enabled(s, a) && s' == Apply(cfg, s, a);
    assert a == HostAgent;
  }

  /** MAIN RESULT 4.  When the host stops waiting for the recordings and captures, CFGREC is 2 on both clusters, and
      each has recorded both of its command streams. */
  lemma CaptureFindsRecordings(cfg: Config, trace: seq<State>, n: nat, c: nat)
    requires Sizes(cfg) && Behaviour(cfg, trace) && n + 1 < |trace| && c < 2
    requires trace[n].host.phase == AwaitRec && trace[n + 1].host.phase != AwaitRec
    ensures trace[n].GpuOf(c).cfgRec == 2
    ensures GpuDid(trace, n, c, 0, RecordQk) && GpuDid(trace, n, c, 0, RecordPv)
  {
    BehaviourControl(cfg, trace, n);
    assert StepOrStay(cfg, trace[n], trace[n + 1]);
    BothRecorded(cfg, trace[n], trace[n + 1], c);
    GpuProgramOrder(cfg, trace, n, c, 0, RecordQk);
    GpuProgramOrder(cfg, trace, n, c, 0, RecordPv);
  }
}
