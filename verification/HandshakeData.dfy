/** What the scale memories hold in every reachable state. */
module HandshakeData {
  import opened Handshake
  import opened HandshakeInvariant

  // ---- one store ---------------------------------------------------------------------------

  function BeatOf(source: Source, base: nat, operand: Operand, tile: nat, i: nat): Beat {
    Beat(source, 2 * base + i, Scale(operand, tile, i))
  }

  /** The pairing register after i beats of a burst. */
  function PendingAfter(source: Source, base: nat, operand: Operand, tile: nat, i: nat): Option<Beat> {
    if i % 2 == 1 then Some(BeatOf(source, base, operand, tile, i - 1)) else None
  }

  /** One beat of a burst extends what is in place and touches no other row. */
  lemma StoreExtends(port: Port, source: Source, base: nat, operand: Operand, tile: nat, i: nat)
    requires port.pending == PendingAfter(source, base, operand, tile, i)
    requires Holds(port, source, base, operand, tile, i)
    ensures var after := Store(port, BeatOf(source, base, operand, tile, i));
            && after.pending == PendingAfter(source, base, operand, tile, i + 1)
            && Holds(after, source, base, operand, tile, i + 1)
            && (forall r: nat :: r != base + i / 2 ==> RowAt(after, r) == RowAt(port, r))
            && (NoMixedRow(port) ==> NoMixedRow(after))
  {
    var after := Store(port, BeatOf(source, base, operand, tile, i));
    if i % 2 == 1 {
      assert (2 * base + i) / 2 == base + i / 2;
      assert RowAt(after, base + i / 2) == ScaleRow(source, base, operand, tile, i / 2);
    }
  }

  // ---- invariants ----------------------------------------------------------------------------

  /** A half the host fills once per tile in the phase of the given rank. */
  ghost predicate Filled(h: Host, c: nat, rank: nat, port: Port, base: nat, operand: Operand, n: nat) {
    if h.phase.Rank() == rank && h.cl == c then Holds(port, FromHost, base, operand, h.tile, h.i)
    else if h.phase.Rank() > rank || (h.phase.Rank() == rank && c < h.cl)
      then Holds(port, FromHost, base, operand, h.tile, n)
    else h.tile >= 1 ==> Holds(port, FromHost, base, operand, h.tile - 1, n)
  }

  /** What the weight port's pairing register holds: only the host stores to this port. */
  function WeightPending(h: Host, c: nat): Option<Beat> {
    if h.cl == c && h.phase == WriteK then PendingAfter(FromHost, 0, K, h.tile, h.i)
    else if h.cl == c && h.phase == WriteV then PendingAfter(FromHost, HALF_ROWS, V, h.tile, h.i)
    else None
  }

  ghost predicate WeightOk(cfg: Config, h: Host, c: nat, port: Port) {
    && Filled(h, c, WriteK.Rank(), port, 0, K, cfg.k)
    && Filled(h, c, WriteV.Rank(), port, HALF_ROWS, V, cfg.v)
    && port.pending == WeightPending(h, c)
  }

  /** Stores to the other half leave this one as it is. */
  lemma FilledFrame(h: Host, c: nat, rank: nat, port: Port, after: Port, base: nat, operand: Operand, n: nat)
    requires Filled(h, c, rank, port, base, operand, n) && n <= HALF_BEATS
    requires h.phase.Rank() == rank ==> h.i <= n
    requires forall r: nat :: base <= r < base + HALF_ROWS ==> RowAt(after, r) == RowAt(port, r)
    ensures Filled(h, c, rank, after, base, operand, n)
  {
  }

  predicate Fills(phase: HostPhase) {
    phase == WriteQ || phase == WriteK || phase == WriteV || phase == WriteP
  }

  lemma FilledLeave(cfg: Config, h: Host, c: nat, phase: HostPhase, port: Port, base: nat, operand: Operand)
    requires HostShape(cfg, h) && c < 2 && h.phase != HostDone
    requires h.cl == 1 || IsWait(h.phase) || h.phase == ReadScratch
    requires Fills(phase) && (phase == WriteP ==> cfg.hostPack)
    requires Filled(h, c, phase.Rank(), port, base, operand, Beats(cfg, phase)) && !(h.cl == c && h.phase == phase)
    ensures Filled(Leave(cfg, h), c, phase.Rank(), port, base, operand, Beats(cfg, phase))
  {
    var n := Leave(cfg, h);
    assert n.phase == phase ==> n.cl == n.i == 0;
    assert n.tile == h.tile ==> n.phase.Rank() > h.phase.Rank();
    assert n.tile != h.tile ==> n.phase == AwaitPv && n.tile == h.tile + 1 && h.phase.Rank() >= PublishV.Rank();
  }

  /** A host step that stores nothing to this half. */
  lemma FilledStays(cfg: Config, h: Host, w0: nat, w1: nat, c: nat, phase: HostPhase, port: Port, base: nat,
                    operand: Operand)
    requires HostShape(cfg, h) && c < 2 && h.phase != HostDone
    requires Fills(phase) && (phase == WriteP ==> cfg.hostPack)
    requires Filled(h, c, phase.Rank(), port, base, operand, Beats(cfg, phase)) && !(h.cl == c && h.phase == phase)
    ensures Filled(HostMove(cfg, h, w0, w1), c, phase.Rank(), port, base, operand, Beats(cfg, phase))
  {
    if h.cl == 1 || IsWait(h.phase) || h.phase == ReadScratch {
      FilledLeave(cfg, h, c, phase, port, base, operand);
    }
  }

  /** A host step that stores one beat to this half. */
  lemma FilledGrows(cfg: Config, h: Host, w0: nat, w1: nat, c: nat, after: Port, base: nat, operand: Operand)
    requires Sizes(cfg) && HostShape(cfg, h) && c < 2 && h.cl == c
    requires h.phase == WriteQ || h.phase == WriteK || h.phase == WriteV || h.phase == WriteP
    requires Holds(after, FromHost, base, operand, h.tile, h.i + 1)
    ensures Filled(HostMove(cfg, h, w0, w1), c, h.phase.Rank(), after, base, operand, Beats(cfg, h.phase))
  {
  }

  /** The host's next state inside a burst: the same burst one beat on, or index 0 elsewhere. */
  predicate BurstMoved(cfg: Config, h: Host, n: Host) {
    if Fills(h.phase) && h.i + 1 < Beats(cfg, h.phase)
    then n == h.(i := h.i + 1)
    else (Fills(n.phase) ==> n.i == 0) && (Fills(h.phase) ==> h.i % 2 == 1)
  }

  lemma BurstMoves(cfg: Config, h: Host, w0: nat, w1: nat)
    requires Sizes(cfg) && HostShape(cfg, h) && h.phase != HostDone
    ensures BurstMoved(cfg, h, HostMove(cfg, h, w0, w1))
  {
  }

  lemma WeightPendingHost(cfg: Config, h: Host, n: Host, buf: map<nat, Scale>, c: nat, m: Memory)
    requires HostShape(cfg, h) && c < 2 && BurstMoved(cfg, h, n)
    requires m.weight.pending == WeightPending(h, c)
    ensures HostWrite(h, buf, c, m).weight.pending == WeightPending(n, c)
  {
  }

  lemma WeightStoreK(cfg: Config, h: Host, w0: nat, w1: nat, c: nat, port: Port, after: Port)
    requires Sizes(cfg) && HostShape(cfg, h) && c < 2 && h.cl == c && h.phase == WriteK && WeightOk(cfg, h, c, port)
    requires after == Store(port, BeatOf(FromHost, 0, K, h.tile, h.i))
    ensures Filled(HostMove(cfg, h, w0, w1), c, WriteK.Rank(), after, 0, K, cfg.k)
    ensures Filled(HostMove(cfg, h, w0, w1), c, WriteV.Rank(), after, HALF_ROWS, V, cfg.v)
  {
    StoreExtends(port, FromHost, 0, K, h.tile, h.i);
    FilledGrows(cfg, h, w0, w1, c, after, 0, K);
    FilledFrame(h, c, WriteV.Rank(), port, after, HALF_ROWS, V, cfg.v);
    FilledStays(cfg, h, w0, w1, c, WriteV, after, HALF_ROWS, V);
  }

  lemma WeightStoreV(cfg: Config, h: Host, w0: nat, w1: nat, c: nat, port: Port, after: Port)
    requires Sizes(cfg) && HostShape(cfg, h) && c < 2 && h.cl == c && h.phase == WriteV && WeightOk(cfg, h, c, port)
    requires after == Store(port, BeatOf(FromHost, HALF_ROWS, V, h.tile, h.i))
    ensures Filled(HostMove(cfg, h, w0, w1), c, WriteK.Rank(), after, 0, K, cfg.k)
    ensures Filled(HostMove(cfg, h, w0, w1), c, WriteV.Rank(), after, HALF_ROWS, V, cfg.v)
  {
    StoreExtends(port, FromHost, HALF_ROWS, V, h.tile, h.i);
    FilledGrows(cfg, h, w0, w1, c, after, HALF_ROWS, V);
    FilledFrame(h, c, WriteK.Rank(), port, after, 0, K, cfg.k);
    FilledStays(cfg, h, w0, w1, c, WriteK, after, 0, K);
  }

  lemma WeightNoStore(cfg: Config, h: Host, w0: nat, w1: nat, c: nat, port: Port)
    requires HostShape(cfg, h) && c < 2 && h.phase != HostDone && WeightOk(cfg, h, c, port)
    requires !(h.cl == c && (h.phase == WriteK || h.phase == WriteV))
    ensures Filled(HostMove(cfg, h, w0, w1), c, WriteK.Rank(), port, 0, K, cfg.k)
    ensures Filled(HostMove(cfg, h, w0, w1), c, WriteV.Rank(), port, HALF_ROWS, V, cfg.v)
  {
    FilledStays(cfg, h, w0, w1, c, WriteK, port, 0, K);
    FilledStays(cfg, h, w0, w1, c, WriteV, port, HALF_ROWS, V);
  }

  lemma WeightHalvesHost(cfg: Config, h: Host, w0: nat, w1: nat, c: nat, port: Port, after: Port)
    requires Sizes(cfg) && HostShape(cfg, h) && c < 2 && h.phase != HostDone && WeightOk(cfg, h, c, port)
    requires after == (
      if h.cl == c && h.phase == WriteK then Store(port, BeatOf(FromHost, 0, K, h.tile, h.i))
      else if h.cl == c && h.phase == WriteV then Store(port, BeatOf(FromHost, HALF_ROWS, V, h.tile, h.i))
      else port)
    ensures Filled(HostMove(cfg, h, w0, w1), c, WriteK.Rank(), after, 0, K, cfg.k)
    ensures Filled(HostMove(cfg, h, w0, w1), c, WriteV.Rank(), after, HALF_ROWS, V, cfg.v)
  {
    if h.cl == c && h.phase == WriteK {
      WeightStoreK(cfg, h, w0, w1, c, port, after);
    } else if h.cl == c && h.phase == WriteV {
      WeightStoreV(cfg, h, w0, w1, c, port, after);
    } else {
      WeightNoStore(cfg, h, w0, w1, c, after);
    }
  }

  lemma WeightHost(cfg: Config, h: Host, w0: nat, w1: nat, buf: map<nat, Scale>, c: nat, m: Memory)
    requires Sizes(cfg) && HostShape(cfg, h) && c < 2 && h.phase != HostDone && WeightOk(cfg, h, c, m.weight)
    ensures WeightOk(cfg, HostMove(cfg, h, w0, w1), c, HostWrite(h, buf, c, m).weight)
  {
    BurstMoves(cfg, h, w0, w1);
    WeightPendingHost(cfg, h, HostMove(cfg, h, w0, w1), buf, c, m);
    WeightWritten(cfg, h, buf, c, m);
    WeightHalvesHost(cfg, h, w0, w1, c, m.weight, HostWrite(h, buf, c, m).weight);
  }

  lemma WeightWritten(cfg: Config, h: Host, buf: map<nat, Scale>, c: nat, m: Memory)
    ensures HostWrite(h, buf, c, m).weight == (
      if h.cl == c && h.phase == WriteK then Store(m.weight, BeatOf(FromHost, 0, K, h.tile, h.i))
      else if h.cl == c && h.phase == WriteV then Store(m.weight, BeatOf(FromHost, HALF_ROWS, V, h.tile, h.i))
      else m.weight)
  {
  }

  // ---- the shared activation port ------------------------------------------------------------

  /** The pairing register: host bursts and the GPU's pack burst never meet in it. */
  function ActPending(h: Host, c: nat, g: Gpu): Option<Beat> {
    if h.cl == c && h.phase == WriteQ then PendingAfter(FromHost, HALF_ROWS, Q, h.tile, h.i)
    else if h.cl == c && h.phase == WriteP then PendingAfter(FromHost, 0, P, h.tile, h.i)
    else if g.phase == Pack then PendingAfter(FromGpu, 0, P, g.tile, g.i)
    else None
  }

  /** Act half 0, whoever packs it. */
  ghost predicate PackedOk(cfg: Config, h: Host, c: nat, g: Gpu, port: Port) {
    if cfg.hostPack then Filled(h, c, WriteP.Rank(), port, 0, P, cfg.p)
    else
      && (g.phase == Pack ==> Holds(port, FromGpu, 0, P, g.tile, g.i))
      && (g.phase.Rank() > Pack.Rank() && g.phase != GpuDone ==> Holds(port, FromGpu, 0, P, g.tile, cfg.p))
  }

  ghost predicate ActOk(cfg: Config, h: Host, c: nat, g: Gpu, port: Port) {
    && Filled(h, c, WriteQ.Rank(), port, HALF_ROWS, Q, cfg.q)
    && PackedOk(cfg, h, c, g, port)
    && port.pending == ActPending(h, c, g)
    && NoMixedRow(port)
  }

  ghost predicate ScratchOk(cfg: Config, g: Gpu, scratch: map<nat, Scale>) {
    && (g.phase == Requant ==> forall j: nat :: j < g.i ==> Lookup(scratch, j) == Scale(P, g.tile, j))
    && (g.phase.Rank() > Requant.Rank() && g.phase != GpuDone ==>
          forall j: nat :: j < cfg.p ==> Lookup(scratch, j) == Scale(P, g.tile, j))
  }

  ghost predicate BufOk(cfg: Config, h: Host, buf: map<nat, Scale>) {
    && (h.phase == ReadScratch ==> forall j: nat :: j < h.i ==> Lookup(buf, j) == Scale(P, h.tile, j))
    && (h.phase == WriteP ==> forall j: nat :: j < cfg.p ==> Lookup(buf, j) == Scale(P, h.tile, j))
  }

  /** The host is inside a burst on cluster c's activation port. */
  predicate HostActBurst(h: Host, c: nat) {
    h.cl == c && (h.phase == WriteQ || h.phase == WriteP)
  }

  /** While the host is in an activation burst on a cluster, that cluster's GPU is not packing. */
  lemma HostActBurstExcludesPack(cfg: Config, h: Host, c: nat, g: Gpu)
    requires HostShape(cfg, h) && ClusterControl(cfg, h, c, g) && HostActBurst(h, c)
    ensures g.phase != Pack
  {
  }

  /** The host's store to the activation port, when the pack buffer holds its tile's scales. */
  lemma ActWritten(cfg: Config, h: Host, buf: map<nat, Scale>, c: nat, m: Memory)
    requires HostShape(cfg, h) && BufOk(cfg, h, buf)
    ensures HostWrite(h, buf, c, m).act == (
      if h.cl == c && h.phase == WriteQ then Store(m.act, BeatOf(FromHost, HALF_ROWS, Q, h.tile, h.i))
      else if h.cl == c && h.phase == WriteP then Store(m.act, BeatOf(FromHost, 0, P, h.tile, h.i))
      else m.act)
  {
  }

  /** A beat of a burst leaves what the next beat expects to find pending. */
  lemma StorePends(port: Port, source: Source, base: nat, operand: Operand, tile: nat, i: nat)
    requires port.pending == PendingAfter(source, base, operand, tile, i)
    ensures Store(port, BeatOf(source, base, operand, tile, i)).pending
            == PendingAfter(source, base, operand, tile, i + 1)
  {
  }

  lemma ActPendingHost(cfg: Config, h: Host, n: Host, buf: map<nat, Scale>, c: nat, g: Gpu, m: Memory)
    requires HostShape(cfg, h) && c < 2 && BurstMoved(cfg, h, n) && BufOk(cfg, h, buf)
    requires HostActBurst(h, c) || HostActBurst(n, c) ==> g.phase != Pack
    requires m.act.pending == ActPending(h, c, g)
    ensures HostWrite(h, buf, c, m).act.pending == ActPending(n, c, g)
  {
    ActWritten(cfg, h, buf, c, m);
    if h.cl == c && h.phase == WriteQ {
      StorePends(m.act, FromHost, HALF_ROWS, Q, h.tile, h.i);
    } else if h.cl == c && h.phase == WriteP {
      StorePends(m.act, FromHost, 0, P, h.tile, h.i);
    }
  }

  lemma PackedFrame(cfg: Config, h: Host, c: nat, g: Gpu, port: Port, after: Port)
    requires Sizes(cfg) && HostShape(cfg, h) && GpuShape(cfg, g) && PackedOk(cfg, h, c, g, port)
    requires forall r: nat :: r < HALF_ROWS ==> RowAt(after, r) == RowAt(port, r)
    ensures PackedOk(cfg, h, c, g, after)
  {
  }

  /** Publishing changes no part of a GPU's state that the memories depend on. */
  lemma ActPublish(cfg: Config, h: Host, h': Host, c: nat, g: Gpu, port: Port)
    requires ActOk(cfg, h', c, g, port)
    ensures ActOk(cfg, h', c, HostPublish(h, c, g), port)
  {
  }

  lemma ActStoreQ(cfg: Config, h: Host, w0: nat, w1: nat, c: nat, g: Gpu, port: Port, after: Port)
    requires Sizes(cfg) && HostShape(cfg, h) && GpuShape(cfg, g) && c < 2 && h.cl == c && h.phase == WriteQ
    requires ActOk(cfg, h, c, g, port) && after == Store(port, BeatOf(FromHost, HALF_ROWS, Q, h.tile, h.i))
    ensures Filled(HostMove(cfg, h, w0, w1), c, WriteQ.Rank(), after, HALF_ROWS, Q, cfg.q)
    ensures PackedOk(cfg, HostMove(cfg, h, w0, w1), c, g, after) && NoMixedRow(after)
  {
    StoreExtends(port, FromHost, HALF_ROWS, Q, h.tile, h.i);
    FilledGrows(cfg, h, w0, w1, c, after, HALF_ROWS, Q);
    PackedFrame(cfg, h, c, g, port, after);
    if cfg.hostPack {
      FilledStays(cfg, h, w0, w1, c, WriteP, after, 0, P);
    }
  }

  lemma ActStoreP(cfg: Config, h: Host, w0: nat, w1: nat, c: nat, g: Gpu, port: Port, after: Port)
    requires Sizes(cfg) && HostShape(cfg, h) && c < 2 && h.cl == c && h.phase == WriteP
    requires ActOk(cfg, h, c, g, port) && after == Store(port, BeatOf(FromHost, 0, P, h.tile, h.i))
    ensures Filled(HostMove(cfg, h, w0, w1), c, WriteQ.Rank(), after, HALF_ROWS, Q, cfg.q)
    ensures PackedOk(cfg, HostMove(cfg, h, w0, w1), c, g, after) && NoMixedRow(after)
  {
    StoreExtends(port, FromHost, 0, P, h.tile, h.i);
    FilledGrows(cfg, h, w0, w1, c, after, 0, P);
    FilledFrame(h, c, WriteQ.Rank(), port, after, HALF_ROWS, Q, cfg.q);
    FilledStays(cfg, h, w0, w1, c, WriteQ, after, HALF_ROWS, Q);
  }

  lemma ActNoStore(cfg: Config, h: Host, w0: nat, w1: nat, c: nat, g: Gpu, port: Port)
    requires HostShape(cfg, h) && c < 2 && h.phase != HostDone && !HostActBurst(h, c)
    requires ActOk(cfg, h, c, g, port)
    ensures Filled(HostMove(cfg, h, w0, w1), c, WriteQ.Rank(), port, HALF_ROWS, Q, cfg.q)
    ensures PackedOk(cfg, HostMove(cfg, h, w0, w1), c, g, port)
  {
    FilledStays(cfg, h, w0, w1, c, WriteQ, port, HALF_ROWS, Q);
    if cfg.hostPack { FilledStays(cfg, h, w0, w1, c, WriteP, port, 0, P); }
  }

  lemma ActHost(cfg: Config, h: Host, w0: nat, w1: nat, buf: map<nat, Scale>, c: nat, g: Gpu, m: Memory)
    requires Sizes(cfg) && HostShape(cfg, h) && GpuShape(cfg, g) && c < 2 && h.phase != HostDone
    requires HostActBurst(h, c) || HostActBurst(HostMove(cfg, h, w0, w1), c) ==> g.phase != Pack
    requires ActOk(cfg, h, c, g, m.act) && BufOk(cfg, h, buf)
    ensures ActOk(cfg, HostMove(cfg, h, w0, w1), c, g, HostWrite(h, buf, c, m).act)
  {
    var after := HostWrite(h, buf, c, m).act;
    BurstMoves(cfg, h, w0, w1);
    ActPendingHost(cfg, h, HostMove(cfg, h, w0, w1), buf, c, g, m);
    if h.cl == c && h.phase == WriteQ {
      ActStoreQ(cfg, h, w0, w1, c, g, m.act, after);
    } else if h.cl == c && h.phase == WriteP {
      ActStoreP(cfg, h, w0, w1, c, g, m.act, after);
    } else {
      ActNoStore(cfg, h, w0, w1, c, g, m.act);
    }
  }

  lemma PackedByGpu(cfg: Config, h: Host, c: nat, g: Gpu, port: Port, after: Port)
    requires Sizes(cfg) && GpuShape(cfg, g) && g.phase == Pack
    requires Holds(after, FromGpu, 0, P, g.tile, g.i + 1)
    ensures PackedOk(cfg, h, c, GpuStep(cfg, g), after)
  {
  }

  lemma ActPack(cfg: Config, h: Host, c: nat, g: Gpu, port: Port, after: Port)
    requires Sizes(cfg) && HostShape(cfg, h) && GpuShape(cfg, g) && c < 2 && g.phase == Pack && !HostActBurst(h, c)
    requires ActOk(cfg, h, c, g, port) && after == Store(port, BeatOf(FromGpu, 0, P, g.tile, g.i))
    ensures ActOk(cfg, h, c, GpuStep(cfg, g), after)
  {
    assert Holds(port, FromGpu, 0, P, g.tile, g.i) && port.pending == PendingAfter(FromGpu, 0, P, g.tile, g.i);
    StoreExtends(port, FromGpu, 0, P, g.tile, g.i);
    FilledFrame(h, c, WriteQ.Rank(), port, after, HALF_ROWS, Q, cfg.q);
    PackedByGpu(cfg, h, c, g, port, after);
    PackPending(cfg, h, c, g);
  }

  /** The pairing register after one more packed beat. */
  lemma PackPending(cfg: Config, h: Host, c: nat, g: Gpu)
    requires Sizes(cfg) && GpuShape(cfg, g) && g.phase == Pack && !HostActBurst(h, c)
    ensures ActPending(h, c, GpuStep(cfg, g)) == PendingAfter(FromGpu, 0, P, g.tile, g.i + 1)
  {
    assert GpuStep(cfg, g).phase == Pack ==> GpuStep(cfg, g).i == g.i + 1;
    assert GpuStep(cfg, g).phase != Pack ==> (g.i + 1) % 2 == 0;
  }

  lemma ActGpu(cfg: Config, h: Host, c: nat, g: Gpu, port: Port)
    requires Sizes(cfg) && GpuShape(cfg, g) && c < 2 && GpuReady(g)
    requires ActOk(cfg, h, c, g, port) && g.phase != Pack
    ensures ActOk(cfg, h, c, GpuStep(cfg, g), port)
  {
    var n := GpuStep(cfg, g);
    assert n.phase == Pack ==> n.i == 0;
    assert n.phase.Rank() > Pack.Rank() && n.phase != GpuDone && !cfg.hostPack ==>
        g.phase.Rank() > Pack.Rank() && g.phase != GpuDone && n.tile == g.tile;
  }

  lemma ScratchGpu(cfg: Config, g: Gpu, m: Memory)
    requires Sizes(cfg) && GpuShape(cfg, g) && GpuReady(g) && ScratchOk(cfg, g, m.scratch)
    ensures ScratchOk(cfg, GpuStep(cfg, g), GpuWrite(g, m).scratch)
  {
  }
}
