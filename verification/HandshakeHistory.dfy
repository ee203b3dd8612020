/** What has happened on the way to a state: which matmuls have run to their end. */
module HandshakeHistory {
  import opened Handshake
  import opened HandshakeInvariant

  /** A run in which nothing may happen now and then. */
  ghost predicate Behaviour(cfg: Config, trace: seq<State>) {
    && trace != []
    && Init(trace[0])
    && forall n :: 0 <= n < |trace| - 1 ==> StepOrStay(cfg, trace[n], trace[n + 1])
  }

  ghost predicate StepOrStay(cfg: Config, s: State, s': State) {
    s' == s || Step(cfg, s, s')
  }

  lemma RunIsBehaviour(cfg: Config, trace: seq<State>)
    requires Run(cfg, trace)
    ensures Behaviour(cfg, trace)
  {
  }

  lemma {:induction false} BehaviourControl(cfg: Config, trace: seq<State>, n: nat)
    requires Sizes(cfg) && Behaviour(cfg, trace) && n < |trace|
    ensures Control(cfg, trace[n])
  {
    if n > 0 {
      BehaviourControl(cfg, trace, n - 1);
      assert StepOrStay(cfg, trace[n - 1], trace[n - 1 + 1]);
      if trace[n] != trace[n - 1] {
        var a: Agent :| Enabled(trace[n - 1], a) && trace[n] == Apply(cfg, trace[n - 1], a);
        ControlStep(cfg, trace[n - 1], a);
      }
    }
  }

  // ---- matmuls that have run -----------------------------------------------------------------

  /** Between the two states cluster c's mesh ends the given matmul. */
  predicate Ends(s: State, s': State, c: nat, matmul: Mesh) {
    !matmul.Idle? && s.GpuOf(c).mesh == matmul && s'.GpuOf(c).mesh.Idle?
  }

  predicate EndsAt(trace: seq<State>, k: nat, c: nat, matmul: Mesh) {
    k + 1 < |trace| && Ends(trace[k], trace[k + 1], c, matmul)
  }

  /** The matmul has run, and the mesh has drained, before the n-th state. */
  ghost predicate Ran(trace: seq<State>, n: nat, c: nat, matmul: Mesh) {
    exists k: nat :: k < n && EndsAt(trace, k, c, matmul)
  }

  /** The program counter has passed the matmul, or it has just drained. */
  predicate Past(g: Gpu, matmul: Mesh) {
    match matmul
    case Idle => true
    case RunningQk(t) => t < g.tile || (t == g.tile && Drained(g, DrainQk))
    case RunningPv(t) => t < g.tile || (t == g.tile && Drained(g, DrainPv))
  }

  predicate Drained(g: Gpu, drain: GpuPhase) {
    g.phase != GpuDone && (g.phase.Rank() > drain.Rank() || (g.phase == drain && g.mesh.Idle?))
  }

  lemma GpuStepPast(cfg: Config, g: Gpu, matmul: Mesh)
    requires GpuShape(cfg, g) && GpuReady(g)
    ensures g.mesh.Idle? && (Past(GpuStep(cfg, g), matmul) <==> Past(g, matmul))
  {
  }

  lemma MeshStepPast(cfg: Config, g: Gpu, matmul: Mesh)
    requires GpuShape(cfg, g) && !g.mesh.Idle?
    ensures Past(g.(mesh := Idle), matmul) <==> Past(g, matmul) || g.mesh == matmul
  {
  }

  lemma HostStepPast(h: Host, c: nat, g: Gpu, matmul: Mesh)
    ensures HostPublish(h, c, g).mesh == g.mesh && (Past(HostPublish(h, c, g), matmul) <==> Past(g, matmul))
  {
  }

  lemma StepPast(cfg: Config, s: State, s': State, c: nat, g: Gpu, g': Gpu, matmul: Mesh)
    requires g == s.GpuOf(c) && g' == s'.GpuOf(c) && GpuShape(cfg, g)
    requires StepOrStay(cfg, s, s') && c < 2 && !matmul.Idle?
    ensures Past(g', matmul) <==> Past(g, matmul) || Ends(s, s', c, matmul)
  {
    if s' != s {
      var a: Agent :| Enabled(s, a) && s' == Apply(cfg, s, a);
      match a
      case HostAgent => HostStepPast(s.host, c, g, matmul);
      case GpuAgent(d) => if d == c { GpuStepPast(cfg, g, matmul); } else { assert g' == g; }
      case MeshAgent(d) => if d == c { MeshStepPast(cfg, g, matmul); } else { assert g' == g; }
    }
  }

  lemma GpuShapeAt(cfg: Config, trace: seq<State>, n: nat, c: nat)
    requires Sizes(cfg) && Behaviour(cfg, trace) && n < |trace| && c < 2
    ensures GpuShape(cfg, trace[n].GpuOf(c))
  {
    BehaviourControl(cfg, trace, n);
  }

  lemma {:induction false} RanIsPast(cfg: Config, trace: seq<State>, n: nat, c: nat, matmul: Mesh)
    requires Sizes(cfg) && Behaviour(cfg, trace) && n < |trace| && c < 2 && !matmul.Idle?
    ensures Ran(trace, n, c, matmul) <==> Past(trace[n].GpuOf(c), matmul)
  {
    if n > 0 {
      var k: nat := n - 1;
      RanIsPast(cfg, trace, k, c, matmul);
      GpuShapeAt(cfg, trace, k, c);
      assert StepOrStay(cfg, trace[k], trace[k + 1]);
      StepPast(cfg, trace[k], trace[k + 1], c, trace[k].GpuOf(c), trace[n].GpuOf(c), matmul);
      assert EndsAt(trace, k, c, matmul) <==> Ends(trace[k], trace[k + 1], c, matmul);
    }
  }

  /** MAIN RESULT 1.  QKDONE and PVDONE tell the truth: a cluster that says it has done the QK, or the PV, matmul of
      a tile has run it, and drained its mesh. */
  lemma DoneMeansRan(cfg: Config, trace: seq<State>, n: nat, c: nat, t: nat)
    requires Sizes(cfg) && Behaviour(cfg, trace) && n < |trace| && c < 2
    ensures trace[n].GpuOf(c).qkDone >= t + 1 ==> Ran(trace, n, c, RunningQk(t))
    ensures trace[n].GpuOf(c).pvDone >= t + 1 ==> Ran(trace, n, c, RunningPv(t))
  {
    RanIsPast(cfg, trace, n, c, RunningQk(t));
    RanIsPast(cfg, trace, n, c, RunningPv(t));
    BehaviourControl(cfg, trace, n);
  }

  /** MAIN RESULT 2.  No matmul runs twice, none runs for a tile that does not exist, and a tile's PV matmul runs
      after its QK matmul. */
  lemma EachMatmulOnce(cfg: Config, trace: seq<State>, k: nat, k': nat, c: nat, matmul: Mesh)
    requires Sizes(cfg) && Behaviour(cfg, trace) && c < 2 && EndsAt(trace, k, c, matmul)
    ensures EndsAt(trace, k', c, matmul) ==> k == k'
    ensures matmul.tile < cfg.tiles
    ensures matmul.RunningPv? ==> Ran(trace, k, c, RunningQk(matmul.tile))
  {
    NotRunBefore(cfg, trace, k, c, matmul);
    GpuShapeAt(cfg, trace, k, c);
    if matmul.RunningPv? { RanIsPast(cfg, trace, k, c, RunningQk(matmul.tile)); }
    if EndsAt(trace, k', c, matmul) { NotRunBefore(cfg, trace, k', c, matmul); }
  }

  lemma NotRunBefore(cfg: Config, trace: seq<State>, k: nat, c: nat, matmul: Mesh)
    requires Sizes(cfg) && Behaviour(cfg, trace) && c < 2 && EndsAt(trace, k, c, matmul)
    ensures !Ran(trace, k, c, matmul)
  {
    GpuShapeAt(cfg, trace, k, c);
    RanIsPast(cfg, trace, k, c, matmul);
    RunningIsNotPast(cfg, trace[k].GpuOf(c));
  }

  lemma RunningIsNotPast(cfg: Config, g: Gpu)
    requires GpuShape(cfg, g) && !g.mesh.Idle?
    ensures !Past(g, g.mesh)
  {
  }

  /** Both matmuls of the tile have run on the cluster, QK first. */
  ghost predicate TileRan(trace: seq<State>, c: nat, t: nat) {
    exists k: nat, k': nat :: k < k' && EndsAt(trace, k, c, RunningQk(t)) && EndsAt(trace, k', c, RunningPv(t))
  }

  ghost predicate AllRan(cfg: Config, trace: seq<State>) {
    forall c: nat, t: nat :: c < 2 && t < cfg.tiles ==> TileRan(trace, c, t)
  }

  lemma DoneTileRan(cfg: Config, trace: seq<State>, n: nat, c: nat, t: nat)
    requires Sizes(cfg) && Behaviour(cfg, trace) && n < |trace| && c < 2 && trace[n].GpuOf(c).pvDone >= t + 1
    ensures TileRan(trace, c, t)
  {
    DoneMeansRan(cfg, trace, n, c, t);
    var k': nat :| k' < n && EndsAt(trace, k', c, RunningPv(t));
    EachMatmulOnce(cfg, trace, k', k', c, RunningPv(t));
    var k: nat :| k < k' && EndsAt(trace, k, c, RunningQk(t));
  }

  /** When every tile is done, every tile's QK and PV matmul has run on both clusters. */
  lemma DoneMeansAllRan(cfg: Config, trace: seq<State>, n: nat)
    requires Sizes(cfg) && Behaviour(cfg, trace) && n < |trace|
    requires trace[n].g0.pvDone == trace[n].g1.pvDone == cfg.tiles
    ensures AllRan(cfg, trace)
  {
    forall c: nat, t: nat | c < 2 && t < cfg.tiles ensures TileRan(trace, c, t) { DoneTileRan(cfg, trace, n, c, t); }
  }
}
