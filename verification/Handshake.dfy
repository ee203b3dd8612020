/** The per-tile scale hand-off between one rv64 host and two GPU clusters.

    The three parties share, per cluster, two scale memories (activation and weight), each split into
    two halves, and a mailbox of monotone counters.  Every store, mailbox write and mailbox read below
    is a step of its own, so a publication that has reached only one cluster is a visible state.
    A scale carries the tile it belongs to, so a stale scale is a visible value. */
module Handshake {
  datatype Option<+T> = None | Some(value: T)

  /** Beats (8-byte stores) and 16-byte rows in one half of a scale memory (half size 0x800 bytes). */
  const HALF_BEATS: nat := 256
  const HALF_ROWS: nat := 128

  /** Tiles to run; scale bytes per tile and cluster of each operand, in beats; build options. */
  datatype Config = Config(tiles: nat, q: nat, k: nat, v: nat, p: nat, hostCfg: bool, hostPack: bool)

  predicate BurstSize(n: nat) {
    n % 2 == 0 && 2 <= n <= HALF_BEATS
  }

  predicate Sizes(cfg: Config) {
    cfg.tiles >= 1 && BurstSize(cfg.q) && BurstSize(cfg.k) && BurstSize(cfg.v) && BurstSize(cfg.p)
  }

  // ---- scale memory with its two-beat pairing register --------------------------------------

  datatype Operand = Q | K | V | P
  datatype Scale = Junk | Scale(operand: Operand, tile: nat, beat: nat)
  datatype Source = FromHost | FromGpu
  datatype Beat = Beat(source: Source, addr: nat, data: Scale)
  datatype Row = Blank | Row(lo: Beat, hi: Beat)

  /** A write port: two consecutive beats form one row, addressed by the second beat. */
  datatype Port = Port(pending: Option<Beat>, rows: map<nat, Row>)

  function Store(port: Port, beat: Beat): Port {
    match port.pending
    case None => port.(pending := Some(beat))
    case Some(first) => Port(None, port.rows[beat.addr / 2 := Row(first, beat)])
  }

  function RowAt(port: Port, r: nat): Row {
    if r in port.rows then port.rows[r] else Blank
  }

  // ---- program counters ----------------------------------------------------------------------

  datatype HostPhase =
    | AwaitPv                  // tile t >= 1: PVDONE >= t on both clusters
    | WriteQ | WriteK          // act half 1, weight half 0
    | ReplayQk                 // command burst
    | PublishQk                // QK_READY := t + 1
    | AwaitQk                  // tile t >= 1: QKDONE >= t + 1 on both clusters
    | WriteV                   // weight half 1
    | ReplayPv                 // command burst
    | PublishV                 // V_READY := t + 1
    | AwaitRec                 // tile 0: both command streams recorded
    | AwaitPack                // PACKREQ >= t + 1 on both clusters
    | ReadScratch | WriteP     // cluster 0's scratch to act half 0 of both clusters
    | PublishPacked            // PACKED := t + 1
    | HostDone
  {
    function Rank(): nat {
      match this
      case AwaitPv => 0 case WriteQ => 1 case WriteK => 2 case ReplayQk => 3 case PublishQk => 4
      case AwaitQk => 5 case WriteV => 6 case ReplayPv => 7 case PublishV => 8 case AwaitRec => 9
      case AwaitPack => 10 case ReadScratch => 11 case WriteP => 12 case PublishPacked => 13
      case HostDone => 14
    }
  }

  datatype GpuPhase =
    | Finalize                 // tail of the previous tile, no port traffic
    | QkCommands               // prefetch: configuration and move-in commands
    | RecordQk                 // CFGREC := 1
    | AwaitScalesQk            // QK_READY >= t + 1
    | IssueQk                  // compute: scale select and matmul commands
    | DrainQk                  // matmul in flight
    | PublishQkDone            // QKDONE := t + 1
    | Softmax
    | PvCommands
    | RecordPv                 // CFGREC := 2
    | AwaitScalesV             // V_READY >= t + 1
    | Requant                  // probability scales to the scratch buffer
    | Pack                     // GPU packs the scratch into act half 0
    | RequestPack              // PACKREQ := t + 1
    | AwaitPacked              // PACKED >= t + 1
    | IssuePv
    | DrainPv
    | PublishPvDone            // PVDONE := t + 1, next tile
    | GpuDone
  {
    function Rank(): nat {
      match this
      case Finalize => 0 case QkCommands => 1 case RecordQk => 2 case AwaitScalesQk => 3
      case IssueQk => 4 case DrainQk => 5 case PublishQkDone => 6 case Softmax => 7
      case PvCommands => 8 case RecordPv => 9 case AwaitScalesV => 10 case Requant => 11
      case Pack => 12 case RequestPack => 13 case AwaitPacked => 14 case IssuePv => 15
      case DrainPv => 16 case PublishPvDone => 17 case GpuDone => 18
    }
  }

  datatype Mesh = Idle | RunningQk(tile: nat) | RunningPv(tile: nat)

  /** One cluster's GPU agent thread, matmul mesh and mailbox words. */
  datatype Gpu = Gpu(
    phase: GpuPhase, tile: nat, i: nat, mesh: Mesh,
    qkReady: nat, vReady: nat, qkDone: nat, pvDone: nat, cfgRec: nat, packReq: nat, packed: nat)

  /** One cluster's scale memories and the scratch buffer of probability scales. */
  datatype Memory = Memory(act: Port, weight: Port, scratch: map<nat, Scale>)

  /** The host thread; `seen` is the last value a poll read from cluster 0. */
  datatype Host = Host(phase: HostPhase, tile: nat, cl: nat, i: nat, seen: Option<nat>)

  /** The whole system; `buf` is the host's pack buffer. */
  datatype State = State(host: Host, buf: map<nat, Scale>, g0: Gpu, g1: Gpu, m0: Memory, m1: Memory) {
    function GpuOf(c: nat): Gpu { if c == 0 then g0 else g1 }
    function MemoryOf(c: nat): Memory { if c == 0 then m0 else m1 }
    function With(c: nat, g: Gpu, m: Memory): State {
      if c == 0 then this.(g0 := g, m0 := m) else this.(g1 := g, m1 := m)
    }
  }

  // ---- host steps ------------------------------------------------------------------------------

  /** Number of beats of a host burst. */
  function Beats(cfg: Config, phase: HostPhase): nat {
    match phase
    case WriteQ => cfg.q
    case WriteK => cfg.k
    case WriteV => cfg.v
    case WriteP => cfg.p
    case ReadScratch => cfg.p
    case _ => 1
  }

  predicate IsWait(phase: HostPhase) {
    phase == AwaitPv || phase == AwaitQk || phase == AwaitRec || phase == AwaitPack
  }

  function Enter(h: Host, phase: HostPhase, tile: nat): Host {
    h.(phase := phase, tile := tile, cl := 0, i := 0, seen := None)
  }

  function NextTile(cfg: Config, h: Host): Host {
    if h.tile + 1 < cfg.tiles then Enter(h, AwaitPv, h.tile + 1) else Enter(h, HostDone, h.tile)
  }

  function PackOrNext(cfg: Config, h: Host): Host {
    if cfg.hostPack then Enter(h, AwaitPack, h.tile) else NextTile(cfg, h)
  }

  /** The phase after the current one has completed. */
  function Leave(cfg: Config, h: Host): Host {
    match h.phase
    case AwaitPv => Enter(h, WriteQ, h.tile)
    case WriteQ => Enter(h, WriteK, h.tile)
    case WriteK => Enter(h, if cfg.hostCfg && h.tile >= 1 then ReplayQk else PublishQk, h.tile)
    case ReplayQk => Enter(h, PublishQk, h.tile)
    case PublishQk => Enter(h, if h.tile >= 1 then AwaitQk else WriteV, h.tile)
    case AwaitQk => Enter(h, WriteV, h.tile)
    case WriteV => Enter(h, if cfg.hostCfg && h.tile >= 1 then ReplayPv else PublishV, h.tile)
    case ReplayPv => Enter(h, PublishV, h.tile)
    case PublishV => if cfg.hostCfg && h.tile == 0 then Enter(h, AwaitRec, 0) else PackOrNext(cfg, h)
    case AwaitRec => PackOrNext(cfg, h)
    case AwaitPack => Enter(h, ReadScratch, h.tile)
    case ReadScratch => Enter(h, WriteP, h.tile)
    case WriteP => Enter(h, PublishPacked, h.tile)
    case PublishPacked => NextTile(cfg, h)
    case HostDone => h
  }

  /** The mailbox word a waiting host polls, and the value it needs. */
  function Word(phase: HostPhase, g: Gpu): nat {
    match phase
    case AwaitPv => g.pvDone
    case AwaitQk => g.qkDone
    case AwaitRec => g.cfgRec
    case AwaitPack => g.packReq
    case _ => 0
  }

  function Need(h: Host): nat {
    match h.phase
    case AwaitPv => h.tile
    case AwaitRec => 2
    case _ => h.tile + 1
  }

  /** A poll reads cluster 0, then cluster 1, then compares the smaller of the two. */
  predicate PollExits(h: Host, w1: nat) {
    h.seen.Some? && h.seen.value >= Need(h) && w1 >= Need(h)
  }

  function HostMove(cfg: Config, h: Host, w0: nat, w1: nat): Host {
    if h.phase == HostDone then h
    else if IsWait(h.phase) then
      if h.seen.None? then h.(seen := Some(w0))
      else if PollExits(h, w1) then Leave(cfg, h)
      else h.(seen := None)
    else if h.i + 1 < Beats(cfg, h.phase) then h.(i := h.i + 1)
    else if h.cl == 0 && h.phase != ReadScratch then h.(cl := 1, i := 0)
    else Leave(cfg, h)
  }

  function Lookup(m: map<nat, Scale>, i: nat): Scale {
    if i in m then m[i] else Junk
  }

  /** What the current host step does to cluster c's mailbox. */
  function HostPublish(h: Host, c: nat, g: Gpu): Gpu {
    if h.cl != c then g else
    match h.phase
    case PublishQk => g.(qkReady := h.tile + 1)
    case PublishV => g.(vReady := h.tile + 1)
    case PublishPacked => g.(packed := h.tile + 1)
    case _ => g
  }

  /** What the current host step does to cluster c's scale memories. */
  function HostWrite(h: Host, buf: map<nat, Scale>, c: nat, m: Memory): Memory {
    if h.cl != c then m else
    match h.phase
    case WriteQ => m.(act := Store(m.act, Beat(FromHost, HALF_BEATS + h.i, Scale(Q, h.tile, h.i))))
    case WriteK => m.(weight := Store(m.weight, Beat(FromHost, h.i, Scale(K, h.tile, h.i))))
    case WriteV => m.(weight := Store(m.weight, Beat(FromHost, HALF_BEATS + h.i, Scale(V, h.tile, h.i))))
    case WriteP => m.(act := Store(m.act, Beat(FromHost, h.i, Lookup(buf, h.i))))
    case _ => m
  }

  function HostRead(h: Host, buf: map<nat, Scale>, scratch: map<nat, Scale>): map<nat, Scale> {
    if h.phase == ReadScratch then buf[h.i := Lookup(scratch, h.i)] else buf
  }

  function HostStep(cfg: Config, s: State): State {
    State(HostMove(cfg, s.host, Word(s.host.phase, s.g0), Word(s.host.phase, s.g1)),
          HostRead(s.host, s.buf, s.m0.scratch),
          HostPublish(s.host, 0, s.g0), HostPublish(s.host, 1, s.g1),
          HostWrite(s.host, s.buf, 0, s.m0), HostWrite(s.host, s.buf, 1, s.m1))
  }

  // ---- GPU and mesh steps ------------------------------------------------------------------

  function EntryQk(cfg: Config, tile: nat): GpuPhase {
    if cfg.hostCfg && tile >= 1 then AwaitScalesQk else QkCommands
  }

  function EntryPv(cfg: Config, tile: nat): GpuPhase {
    if cfg.hostCfg && tile >= 1 then AwaitScalesV else PvCommands
  }

  /** False while the agent thread spins on a mailbox word or on the busy bit. */
  predicate GpuReady(g: Gpu) {
    match g.phase
    case AwaitScalesQk => g.qkReady >= g.tile + 1
    case AwaitScalesV => g.vReady >= g.tile + 1
    case AwaitPacked => g.packed >= g.tile + 1
    case DrainQk => g.mesh.Idle?
    case DrainPv => g.mesh.Idle?
    case GpuDone => false
    case _ => true
  }

  function GpuStep(cfg: Config, g: Gpu): Gpu {
    match g.phase
    case Finalize => g.(phase := if g.tile < cfg.tiles then EntryQk(cfg, g.tile) else GpuDone)
    case QkCommands => g.(phase := if cfg.hostCfg then RecordQk else AwaitScalesQk)
    case RecordQk => g.(phase := AwaitScalesQk, cfgRec := 1)
    case AwaitScalesQk => g.(phase := IssueQk)
    case IssueQk => g.(phase := DrainQk, mesh := RunningQk(g.tile))
    case DrainQk => g.(phase := PublishQkDone)
    case PublishQkDone => g.(phase := Softmax, qkDone := g.tile + 1)
    case Softmax => g.(phase := EntryPv(cfg, g.tile))
    case PvCommands => g.(phase := if cfg.hostCfg then RecordPv else AwaitScalesV)
    case RecordPv => g.(phase := AwaitScalesV, cfgRec := 2)
    case AwaitScalesV => g.(phase := Requant, i := 0)
    case Requant =>
      if g.i + 1 < cfg.p then g.(i := g.i + 1)
      else g.(phase := if cfg.hostPack then RequestPack else Pack, i := 0)
    case Pack => if g.i + 1 < cfg.p then g.(i := g.i + 1) else g.(phase := IssuePv, i := 0)
    case RequestPack => g.(phase := AwaitPacked, packReq := g.tile + 1)
    case AwaitPacked => g.(phase := IssuePv)
    case IssuePv => g.(phase := DrainPv, mesh := RunningPv(g.tile))
    case DrainPv => g.(phase := PublishPvDone)
    case PublishPvDone => g.(phase := Finalize, pvDone := g.tile + 1, tile := g.tile + 1)
    case GpuDone => g
  }

  function GpuWrite(g: Gpu, m: Memory): Memory {
    match g.phase
    case Requant => m.(scratch := m.scratch[g.i := Scale(P, g.tile, g.i)])
    case Pack => m.(act := Store(m.act, Beat(FromGpu, g.i, Lookup(m.scratch, g.i))))
    case _ => m
  }

  datatype Agent = HostAgent | GpuAgent(c: nat) | MeshAgent(c: nat)

  predicate Enabled(s: State, a: Agent) {
    match a
    case HostAgent => s.host.phase != HostDone
    case GpuAgent(c) => c < 2 && GpuReady(s.GpuOf(c))
    case MeshAgent(c) => c < 2 && !s.GpuOf(c).mesh.Idle?
  }

  function Apply(cfg: Config, s: State, a: Agent): State {
    match a
    case HostAgent => HostStep(cfg, s)
    case GpuAgent(c) => s.With(c, GpuStep(cfg, s.GpuOf(c)), GpuWrite(s.GpuOf(c), s.MemoryOf(c)))
    case MeshAgent(c) => s.With(c, s.GpuOf(c).(mesh := Idle), s.MemoryOf(c))
  }

  // ---- runs ----------------------------------------------------------------------------------

  /** Fresh mailbox words: the host clears the words it owns, but not PACKREQ and PACKED. */
  predicate FreshGpu(g: Gpu) {
    && g.phase == QkCommands && g.tile == 0 && g.i == 0 && g.mesh == Idle
    && g.qkReady == g.vReady == g.qkDone == g.pvDone == g.cfgRec == 0
  }

  const BLANK := Memory(Port(None, map[]), Port(None, map[]), map[])

  predicate Init(s: State) {
    s.host == Host(WriteQ, 0, 0, 0, None) && s.buf == map[] && FreshGpu(s.g0) && FreshGpu(s.g1) && s.m0 == s.m1 == BLANK
  }

  /** The words the host's start-up code leaves as it found them. */
  predicate PackWordsClear(s: State) {
    s.g0.packed == 0 && s.g1.packed == 0 && s.g0.packReq == 0
  }

  ghost predicate Run(cfg: Config, trace: seq<State>) {
    && trace != []
    && Init(trace[0])
    && forall n :: 0 <= n < |trace| - 1 ==> Step(cfg, trace[n], trace[n + 1])
  }

  ghost predicate Step(cfg: Config, s: State, s': State) {
    exists a: Agent :: Enabled(s, a) && s' == Apply(cfg, s, a)
  }

  // ---- what the hand-off has to guarantee --------------------------------------------------

  /** Row r of the half starting at row `base`, holding one tile's scales of one operand. */
  function ScaleRow(source: Source, base: nat, operand: Operand, tile: nat, r: nat): Row {
    Row(Beat(source, 2 * (base + r), Scale(operand, tile, 2 * r)),
        Beat(source, 2 * (base + r) + 1, Scale(operand, tile, 2 * r + 1)))
  }

  /** The first n beats of an operand's scales of one tile are in place. */
  ghost predicate Holds(port: Port, source: Source, base: nat, operand: Operand, tile: nat, n: nat) {
    forall r: nat :: r < n / 2 ==> RowAt(port, base + r) == ScaleRow(source, base, operand, tile, r)
  }

  function Packer(cfg: Config): Source {
    if cfg.hostPack then FromHost else FromGpu
  }

  /** A matmul in flight reads exactly its own tile's complete scales: QK from act half 1 and weight
      half 0, PV from act half 0 and weight half 1. */
  ghost predicate MeshReadsOwnTile(cfg: Config, g: Gpu, m: Memory) {
    match g.mesh
    case Idle => true
    case RunningQk(t) =>
      Holds(m.act, FromHost, HALF_ROWS, Q, t, cfg.q) && Holds(m.weight, FromHost, 0, K, t, cfg.k)
    case RunningPv(t) =>
      Holds(m.act, Packer(cfg), 0, P, t, cfg.p) && Holds(m.weight, FromHost, HALF_ROWS, V, t, cfg.v)
  }

  /** Every row of the shared activation port was formed from two beats of one writer. */
  ghost predicate NoMixedRow(port: Port) {
    forall r: nat :: RowAt(port, r).Row? ==> RowAt(port, r).lo.source == RowAt(port, r).hi.source
  }

  /** The host is inside a scale or command burst on cluster c. */
  predicate HostBursting(h: Host, c: nat) {
    h.cl == c && (h.phase.WriteQ? || h.phase.WriteK? || h.phase.WriteV? || h.phase.WriteP? || h.phase.ReplayQk?
                  || h.phase.ReplayPv?)
  }

  /** The GPU is inside a command or scale burst. */
  predicate GpuBursting(g: Gpu) {
    (g.phase.QkCommands? || g.phase.IssueQk? || g.phase.PvCommands? || g.phase.IssuePv? || g.phase.Pack?)
  }

  predicate Finished(s: State) {
    s.host.phase == HostDone && s.g0.phase == GpuDone && s.g1.phase == GpuDone
  }
}
