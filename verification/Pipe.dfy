/** The software-pipelined attention schedule: warp 0 drives the mesh and the move-in DMA, warps 1..5 run
    the row work, and both meet at barriers.  Each store to shared memory is one access; an access may
    happen at any time between the barrier (or fence) that admits it and the one that waits for it. */
module Pipe {
  import opened Traces
  import opened Dataflow

  /** Words of each buffer a tile uses, and the number of tiles. */
  datatype Shape = Shape(
    tiles: nat, rows: nat,
    sWords: nat,     // words of one row of S and of P
    oWords: nat,     // words of one row of O
    aWords: nat, pWords: nat,            // A scratchpad words of Q, of requantized P
    kWords: nat, vWords: nat,            // B scratchpad words of K, of V
    qScales: nat, kScales: nat, vScales: nat, pScales: nat)  // scale words; P's scratch has 4 * pScales

  datatype Kind =
    | MvinQ | MvinK                      // DMA into the A and B scratchpads
    | ScaleQ | ScaleK                    // agent stores, act and weight half 0
    | MatQk                              // mesh: S to the C region
    | RowMax | RowSum | RowCorr | RowProb
    | MvinV | ScaleV                     // DMA into the B scratchpad; weight half 1
    | Requant | RequantScale             // P to the A scratchpad; block scales to the scratch
    | Prepack | CopyScales               // four scales per word; act half 1
    | MatPv                              // mesh: O to the C region
    | Final                              // O / l to global memory

  /** The i-th store of one kind in tile t. */
  datatype Op = Op(kind: Kind, t: nat, i: nat)

  datatype Region = Input(kind: Kind) | A | B | C | Prob | MaxRow | SumRow | CorrRow | Scratch | Packed
                  | ReduceBuf(warp: nat) | ActScale(half: nat) | WeightScale(half: nat) | Output

  datatype Loc = Loc(region: Region, t: nat, i: nat)

  /** Number of stores of each kind per tile. */
  function Count(s: Shape, kind: Kind): nat {
    match kind
    case MvinQ => s.aWords
    case MvinK => s.kWords
    case ScaleQ => s.qScales
    case ScaleK => s.kScales
    case MatQk => s.rows * s.sWords
    case RowMax => s.rows
    case RowSum => s.rows
    case RowCorr => s.rows
    case RowProb => s.rows * s.sWords
    case MvinV => s.vWords
    case ScaleV => s.vScales
    case Requant => s.pWords
    case RequantScale => 4 * s.pScales
    case Prepack => s.pScales
    case CopyScales => s.pScales
    case MatPv => s.rows * s.oWords
    case Final => s.rows * s.oWords
  }

  predicate Valid(s: Shape, a: Op) {
    a.t < s.tiles && a.i < Count(s, a.kind)
  }

  function Target(kind: Kind): Region {
    match kind
    case MvinQ => A case Requant => A
    case MvinK => B case MvinV => B
    case ScaleQ => ActScale(0) case CopyScales => ActScale(1)
    case ScaleK => WeightScale(0) case ScaleV => WeightScale(1)
    case MatQk => C case MatPv => C
    case RowMax => MaxRow case RowSum => SumRow case RowCorr => CorrRow case RowProb => Prob
    case RequantScale => Scratch case Prepack => Packed case Final => Output
  }

  /** Shared buffers are reused by every tile; inputs and outputs are kept apart by tile. */
  function Dst(a: Op): Loc {
    Loc(Target(a.kind), if a.kind == Final then a.t else 0, a.i)
  }

  /** The stores whose results an access reads; an input access reads its own input word instead. */
  function All(s: Shape, kind: Kind, t: nat): (r: seq<Op>)
    ensures |r| == Count(s, kind) && forall i :: 0 <= i < |r| ==> r[i] == Op(kind, t, i)
  {
    seq(Count(s, kind), i requires 0 <= i < Count(s, kind) => Op(kind, t, i))
  }

  function RowOf(s: Shape, a: Op): nat {
    match a.kind
    case RowProb => if s.sWords == 0 then 0 else a.i / s.sWords
    case Final => if s.oWords == 0 then 0 else a.i / s.oWords
    case _ => a.i
  }

  function SRow(s: Shape, t: nat, r: nat): (q: seq<Op>)
    ensures |q| == s.sWords && forall j :: 0 <= j < |q| ==> q[j] == Op(MatQk, t, r * s.sWords + j)
  {
    seq(s.sWords, j requires 0 <= j < s.sWords => Op(MatQk, t, r * s.sWords + j))
  }

  function Sources(s: Shape, a: Op): seq<Op> {
    match a.kind
    case MatQk => All(s, MvinQ, a.t) + All(s, MvinK, a.t) + All(s, ScaleQ, a.t) + All(s, ScaleK, a.t)
    case RowMax => SRow(s, a.t, RowOf(s, a))
    case RowSum => SRow(s, a.t, RowOf(s, a))
    case RowCorr => SRow(s, a.t, RowOf(s, a))
    case RowProb => SRow(s, a.t, RowOf(s, a))
    case Requant => All(s, RowProb, a.t)
    case RequantScale => All(s, RowProb, a.t)
    case Prepack => [Op(RequantScale, a.t, 4 * a.i), Op(RequantScale, a.t, 4 * a.i + 1),
                     Op(RequantScale, a.t, 4 * a.i + 2), Op(RequantScale, a.t, 4 * a.i + 3)]
    case CopyScales => [Op(Prepack, a.t, a.i)]
    case MatPv => All(s, Requant, a.t) + All(s, MvinV, a.t) + All(s, CopyScales, a.t) + All(s, ScaleV, a.t)
    case Final => [Op(MatPv, a.t, a.i), Op(RowSum, a.t, RowOf(s, a))]
    case _ => []
  }

  predicate IsInput(kind: Kind) {
    kind == MvinQ || kind == MvinK || kind == ScaleQ || kind == ScaleK || kind == MvinV || kind == ScaleV
  }

  function Inputs(a: Op): seq<Loc> {
    if IsInput(a.kind) then [Loc(Input(a.kind), a.t, a.i)] else []
  }

  /** The tile loop as a flow of stores, for any functions computed by the mesh and the row work. */
  function Tiles(s: Shape): Flow<Op, Loc> {
    Flow(Dst, Inputs, (a: Op) => Sources(s, a), SequentialStage)
  }

  // ---- when an access may happen ---------------------------------------------------------------

  /** Stages of one tile, in units of the barriers and drains that separate them:
      0 move-in issue and previous finalize, 1 move-in drain, 2 QK matmul, 3 softmax, 4 requant,
      5 prepack, 6 scale copy and V drain, 7 PV matmul. */
  function Start(a: Op): int {
    8 * a.t + (
      match a.kind
      case MvinQ => 0 case MvinK => 0
      case ScaleQ => -5 case ScaleK => -5        // under the softmax of the previous tile
      case MatQk => 2 case ScaleV => 2
      case RowMax => 3 case RowSum => 3 case RowCorr => 3 case RowProb => 3 case MvinV => 3
      case Requant => 4 case RequantScale => 4
      case Prepack => 5 case CopyScales => 6 case MatPv => 7
      case Final => 8)                           // in the first stage of the next tile
  }

  /** The move-in DMAs stay in flight across barriers until the agent drains them. */
  function End(a: Op): int {
    Start(a) + (match a.kind case MvinQ => 1 case MvinK => 1 case MvinV => 3 case _ => 0)
  }

  /** The tile-by-tile program: QK, softmax, V move-in, requant, pack, PV, finalize. */
  function SequentialStage(a: Op): nat {
    10 * a.t + (
      match a.kind
      case MvinQ => 0 case MvinK => 0 case ScaleQ => 1 case ScaleK => 1 case MatQk => 2
      case RowMax => 3 case RowSum => 3 case RowCorr => 3 case RowProb => 3
      case MvinV => 4 case ScaleV => 4
      case Requant => 5 case RequantScale => 5 case Prepack => 6 case CopyScales => 7
      case MatPv => 8 case Final => 9)
  }

  /** An order of all the accesses of all tiles. */
  ghost predicate Complete(s: Shape, order: seq<Op>) {
    Distinct(order) && forall a: Op :: a in order <==> Valid(s, a)
  }

  /** Any interleaving the barriers and drains of the pipelined schedule allow. */
  ghost predicate Pipelined(s: Shape, order: seq<Op>) {
    Complete(s, order) && forall a, b :: Valid(s, a) && Valid(s, b) && End(a) < Start(b) ==> Before(order, a, b)
  }

  ghost predicate TileByTile(s: Shape, order: seq<Op>) {
    && Complete(s, order)
    && forall a, b :: Valid(s, a) && Valid(s, b) && SequentialStage(a) < SequentialStage(b) ==> Before(order, a, b)
  }

  // ---- concurrent regions are disjoint ---------------------------------------------------------

  predicate ReadsRegion(kind: Kind, r: Region) {
    match kind
    case MatQk => r == A || r == B || r == ActScale(0) || r == WeightScale(0)
    case RowMax => r == C
    case RowSum => r == C
    case RowCorr => r == C
    case RowProb => r == C
    case Requant => r == Prob
    case RequantScale => r == Prob
    case Prepack => r == Scratch
    case CopyScales => r == Packed
    case MatPv => r == A || r == B || r == ActScale(1) || r == WeightScale(1)
    case Final => r == C || r == SumRow
    case _ => r == Input(kind)
  }

  /** Two accesses to a common region, one of them a store. */
  predicate RegionsMeet(a: Kind, b: Kind) {
    Target(a) == Target(b) || ReadsRegion(b, Target(a)) || ReadsRegion(a, Target(b))
  }

  lemma SourcesTargets(s: Shape, a: Op, j: nat)
    requires j < |Sources(s, a)|
    ensures ReadsRegion(a.kind, Target(Sources(s, a)[j].kind)) && Sources(s, a)[j].t == a.t
    ensures SequentialStage(Sources(s, a)[j]) < SequentialStage(a) && Sources(s, a)[j].kind != Final
  {
    SourceFeeds(s, a, j);
    FeedsForward(Sources(s, a)[j], a);
  }

  lemma FeedsForward(q: Op, a: Op)
    requires Feeds(q.kind, a.kind) && q.t == a.t
    ensures ReadsRegion(a.kind, Target(q.kind)) && SequentialStage(q) < SequentialStage(a) && q.kind != Final
  {
  }

  lemma TilesAreStaged(s: Shape)
    ensures WellStaged(Tiles(s))
  {
    forall a: Op, j: nat | j < |Tiles(s).sources(a)|
      ensures Tiles(s).stage(Tiles(s).sources(a)[j]) < Tiles(s).stage(a)
    {
      SourcesTargets(s, a, j);
    }
  }

  lemma ReadsRegions<V(!new)>(s: Shape, sem: Op -> (seq<V> -> V), a: Op, l: Loc)
    requires l in Program(Tiles(s), sem)(a).srcs
    ensures ReadsRegion(a.kind, l.region)
  {
    if l !in Inputs(a) {
      var q := Map(Dst, Sources(s, a));
      var j :| 0 <= j < |q| && q[j] == l;
      SourcesTargets(s, a, j);
    }
  }

  /** Accesses to a common region, one of them a store, are apart by a barrier or a drain. */
  lemma RegionsAreFenced(a: Op, b: Op)
    requires RegionsMeet(a.kind, b.kind)
    requires SequentialStage(a) < SequentialStage(b)
    ensures End(a) < Start(b)
  {
    if a.t == b.t { FencedInTile(a, b); } else { FencedAcrossTiles(a, b); }
  }

  lemma FencedInTile(a: Op, b: Op)
    requires RegionsMeet(a.kind, b.kind) && a.t == b.t && SequentialStage(a) < SequentialStage(b)
    ensures End(a) < Start(b)
  {
  }

  lemma FencedAcrossTiles(a: Op, b: Op)
    requires RegionsMeet(a.kind, b.kind) && a.t < b.t
    ensures End(a) < Start(b)
  {
  }

  lemma ConflictsAreFenced<V(!new)>(s: Shape, sem: Op -> (seq<V> -> V), a: Op, b: Op)
    requires Conflict(Program(Tiles(s), sem)(a), Program(Tiles(s), sem)(b)) && SequentialStage(a) < SequentialStage(b)
    ensures End(a) < Start(b)
  {
    if Dst(a) in Program(Tiles(s), sem)(b).srcs { ReadsRegions(s, sem, b, Dst(a)); }
    if Dst(b) in Program(Tiles(s), sem)(a).srcs { ReadsRegions(s, sem, a, Dst(b)); }
    RegionsAreFenced(a, b);
  }

  lemma SameStageRegions(a: Op, b: Op)
    requires SequentialStage(a) == SequentialStage(b)
    ensures a.t == b.t && !ReadsRegion(b.kind, Target(a.kind))
            && (Target(a.kind) == Target(b.kind) ==> a.kind == b.kind)
  {
  }

  /** The stores of one stage of the sequential program are independent of each other. */
  lemma SameStageIsIndependent<V(!new)>(s: Shape, sem: Op -> (seq<V> -> V), a: Op, b: Op)
    requires SequentialStage(a) == SequentialStage(b) && a != b
    ensures !Conflict(Program(Tiles(s), sem)(a), Program(Tiles(s), sem)(b))
  {
    SameStageRegions(a, b);
    SameStageRegions(b, a);
    if Dst(a) in Program(Tiles(s), sem)(b).srcs { ReadsRegions(s, sem, b, Dst(a)); }
    if Dst(b) in Program(Tiles(s), sem)(a).srcs { ReadsRegions(s, sem, a, Dst(b)); }
  }

  /** MAIN RESULT 1.  For any number of tiles and any interleaving that the barriers and drains of the
      pipelined schedule allow, the final memory is that of the tile-by-tile program. */
  lemma PipelineRefinesTileByTile<V(!new)>(s: Shape, sem: Op -> (seq<V> -> V), piped: seq<Op>, sequential: seq<Op>,
                                           m: imap<Loc, V>)
    requires Total(m) && Pipelined(s, piped) && TileByTile(s, sequential)
    ensures Execute(Program(Tiles(s), sem), piped, m) == Execute(Program(Tiles(s), sem), sequential, m)
  {
    var prog := Program(Tiles(s), sem);
    forall a: Op, b: Op | Before(piped, a, b) && Conflict(prog(a), prog(b)) ensures Before(sequential, a, b) {
      assert a in piped && b in piped && a != b;
      if SequentialStage(b) < SequentialStage(a) {
        ConflictsAreFenced(s, sem, b, a);
        BeforeIsAsymmetric(piped, a, b);
      } else if SequentialStage(a) == SequentialStage(b) {
        SameStageIsIndependent(s, sem, a, b);
      }
    }
    EquivalentOrdersAgree(prog, piped, sequential, m);
  }

  ghost function AllOps(s: Shape): (r: set<Op>)
    ensures forall a: Op :: a in r <==> Valid(s, a)
  {
    set kind: Kind, t: nat, i: nat | t < s.tiles && i < Count(s, kind) :: Op(kind, t, i)
  }

  /** Both kinds of order exist for every shape. */
  lemma SchedulesExist(s: Shape) returns (piped: seq<Op>, sequential: seq<Op>)
    ensures Pipelined(s, piped) && TileByTile(s, sequential)
  {
    piped := Sorted(AllOps(s), Start);
    forall a, b | Valid(s, a) && Valid(s, b) && End(a) < Start(b) ensures Before(piped, a, b) {
      SortedIsBefore(piped, Start, a, b);
    }
    var stage := (a: Op) => SequentialStage(a) as int;
    sequential := Sorted(AllOps(s), stage);
    forall a, b | Valid(s, a) && Valid(s, b) && SequentialStage(a) < SequentialStage(b)
      ensures Before(sequential, a, b)
    {
      SortedIsBefore(sequential, stage, a, b);
    }
  }

  // ---- what the output is -----------------------------------------------------------------------

  lemma SourcesValid(s: Shape, a: Op, j: nat)
    requires Valid(s, a) && j < |Sources(s, a)|
    ensures Valid(s, Sources(s, a)[j])
  {
    var q := Sources(s, a)[j];
    if a.kind == RowProb {
      RowBound(a.i, s.rows, s.sWords);
      InRow(RowOf(s, a), s.rows, s.sWords, j);
    } else if a.kind == RowMax || a.kind == RowSum || a.kind == RowCorr {
      InRow(a.i, s.rows, s.sWords, j);
    } else if a.kind == Final {
      RowBound(a.i, s.rows, s.oWords);
    }
  }

  lemma RowBound(i: nat, rows: nat, width: nat)
    requires i < rows * width
    ensures width > 0 && i / width < rows
  {
    ProductPositive(rows, width);
    ProductGrows(i / width, rows, width);
  }

  lemma ProductPositive(a: nat, b: nat)
    ensures a * b > 0 ==> b > 0
  {
  }

  lemma ProductGrows(a: nat, b: nat, c: nat)
    ensures a >= b ==> a * c >= b * c
  {
  }

  lemma InRow(r: nat, rows: nat, width: nat, j: nat)
    requires r < rows && j < width
    ensures r * width + j < rows * width
  {
    assert (r + 1) * width <= rows * width;
  }

  /** Between a store and its reader no other access stores to the same location. */
  lemma NoInterveningStore(s: Shape, a: Op, j: nat, c: Op)
    requires j < |Sources(s, a)| && Dst(c) == Dst(Sources(s, a)[j]) && c != Sources(s, a)[j]
    ensures SequentialStage(c) < SequentialStage(Sources(s, a)[j]) || SequentialStage(a) <= SequentialStage(c)
  {
    SourceFeeds(s, a, j);
    FeedIsUndisturbed(Sources(s, a)[j], a, c);
  }

  /** Which kinds of stores each kind of access reads. */
  predicate Feeds(q: Kind, a: Kind) {
    match a
    case MatQk => q == MvinQ || q == MvinK || q == ScaleQ || q == ScaleK
    case RowMax => q == MatQk
    case RowSum => q == MatQk
    case RowCorr => q == MatQk
    case RowProb => q == MatQk
    case Requant => q == RowProb
    case RequantScale => q == RowProb
    case Prepack => q == RequantScale
    case CopyScales => q == Prepack
    case MatPv => q == Requant || q == MvinV || q == CopyScales || q == ScaleV
    case Final => q == MatPv || q == RowSum
    case _ => false
  }

  lemma SourceFeeds(s: Shape, a: Op, j: nat)
    requires j < |Sources(s, a)|
    ensures Feeds(Sources(s, a)[j].kind, a.kind) && Sources(s, a)[j].t == a.t
  {
  }

  lemma FeedIsUndisturbed(q: Op, a: Op, c: Op)
    requires Feeds(q.kind, a.kind) && q.t == a.t && Dst(c) == Dst(q) && c != q
    ensures SequentialStage(c) < SequentialStage(q) || SequentialStage(a) <= SequentialStage(c)
  {
  }

  /** All accesses, with those that meet in a region in the order of the tile-by-tile program. */
  ghost predicate Ordered(s: Shape, order: seq<Op>) {
    && Complete(s, order)
    && forall a, b ::
         Valid(s, a) && Valid(s, b) && RegionsMeet(a.kind, b.kind) && SequentialStage(a) < SequentialStage(b) ==>
           Before(order, a, b)
  }

  lemma PipelinedIsOrdered(s: Shape, order: seq<Op>)
    requires Pipelined(s, order)
    ensures Ordered(s, order)
  {
    forall a, b | Valid(s, a) && Valid(s, b) && RegionsMeet(a.kind, b.kind) && SequentialStage(a) < SequentialStage(b)
      ensures Before(order, a, b)
    {
      RegionsAreFenced(a, b);
    }
  }

  /** Every source of an access is the last store to its location before that access. */
  lemma SourceIsLastStore(s: Shape, order: seq<Op>, n: nat, j: nat) returns (i: nat)
    requires Ordered(s, order) && n < |order| && j < |Sources(s, order[n])|
    ensures i < n && order[i] == Sources(s, order[n])[j]
    ensures forall k :: i < k < n ==> Dst(order[k]) != Dst(order[i])
  {
    var a, q := order[n], Sources(s, order[n])[j];
    assert a in order;
    SourcesValid(s, a, j);
    SourcesTargets(s, a, j);
    assert Before(order, q, a);
    var i', n' :| 0 <= i' < n' < |order| && order[i'] == q && order[n'] == a;
    assert n' == n;
    i := i';
    forall k | i < k < n ensures Dst(order[k]) != Dst(q) {
      var c := order[k];
      assert c in order && c != q;
      if Dst(c) == Dst(q) {
        NoInterveningStore(s, a, j, c);
        if SequentialStage(c) < SequentialStage(q) {
          BeforeIsAsymmetric(order, c, q);
        } else if SequentialStage(a) < SequentialStage(c) {
          BeforeIsAsymmetric(order, a, c);
        } else {
          StageReadsAreNotStores(s, a, c, j);
        }
      }
    }
  }

  lemma StageReadsAreNotStores(s: Shape, a: Op, c: Op, j: nat)
    requires SequentialStage(a) == SequentialStage(c) && j < |Sources(s, a)|
    ensures Dst(c) != Dst(Sources(s, a)[j])
  {
    SourcesTargets(s, a, j);
  }

  lemma PipelineReadsItsSources(s: Shape, order: seq<Op>)
    requires Ordered(s, order)
    ensures ReadsItsSources(Tiles(s), order)
  {
    var flow := Tiles(s);
    forall n: nat, j: nat | n < |order| && j < |flow.sources(order[n])| ensures FindsSource(flow, order, n, j) {
      var i := SourceIsLastStore(s, order, n, j);
      assert LastStore(flow, order, i, n);
    }
  }

  /** Under every interleaving the schedule allows, each finalized output word is what its own tile's accesses
      mean. */
  lemma FinalIsMeant<V(!new)>(s: Shape, sem: Op -> (seq<V> -> V), piped: seq<Op>, m: imap<Loc, V>, t: nat, i: nat)
    requires Total(m) && Pipelined(s, piped) && Valid(s, Op(Final, t, i))
    ensures WellStaged(Tiles(s))
    ensures Execute(Program(Tiles(s), sem), piped, m)[Loc(Output, t, i)] == Meaning(Tiles(s), sem, m, Op(Final, t, i))
  {
    TilesAreStaged(s);
    PipelinedIsOrdered(s, piped);
    PipelineReadsItsSources(s, piped);
    assert Op(Final, t, i) in piped;
    var n :| 0 <= n < |piped| && piped[n] == Op(Final, t, i);
    forall k | n < k < |piped| ensures Dst(piped[k]) != Dst(piped[n]) {
      assert piped[k] != piped[n];
    }
    FinalValue(Tiles(s), sem, piped, m, n);
  }

  predicate IsRowState(kind: Kind) {
    kind == RowMax || kind == RowSum || kind == RowCorr
  }

  /** A store of row state of the last tile is the last to its place. */
  lemma StateIsLast(s: Shape, order: seq<Op>, a: Op, n: nat, k: nat)
    requires Ordered(s, order) && n < k < |order| && order[n] == a && IsRowState(a.kind) && a.t + 1 == s.tiles
    ensures Dst(order[k]) != Dst(a)
  {
    var c := order[k];
    assert a in order && c in order;
    if Dst(c) == Dst(a) {
      assert c.kind == a.kind && c.i == a.i && c.t < a.t;
      BeforeIsAsymmetric(order, c, a);
    }
  }

  /** And the row state left at the end is what the last tile's accesses mean. */
  lemma StateIsMeant<V(!new)>(s: Shape, sem: Op -> (seq<V> -> V), piped: seq<Op>, m: imap<Loc, V>, a: Op)
    requires Total(m) && Pipelined(s, piped) && Valid(s, a) && IsRowState(a.kind) && a.t + 1 == s.tiles
    ensures WellStaged(Tiles(s))
    ensures Execute(Program(Tiles(s), sem), piped, m)[Dst(a)] == Meaning(Tiles(s), sem, m, a)
  {
    TilesAreStaged(s);
    PipelinedIsOrdered(s, piped);
    PipelineReadsItsSources(s, piped);
    assert a in piped;
    var n :| 0 <= n < |piped| && piped[n] == a;
    forall k | n < k < |piped| ensures Dst(piped[k]) != Dst(piped[n]) { StateIsLast(s, piped, a, n, k); }
    FinalValue(Tiles(s), sem, piped, m, n);
  }

  // ---- the shared-memory map -------------------------------------------------------------------

  /** Bytes each buffer occupies: e4m3 P and Q, bf16 S, O and P, one scale per word, bf16 row state; and the
      warps, each of which reduces a row in sixteen halfwords of its own. */
  datatype Footprint = Footprint(q: nat, p: nat, s: nat, o: nat, prob: nat, scratch: nat, row: nat, packed: nat,
                                 warps: nat, b: nat)

  /** The buffers of a tile fit the kernel's shared-memory map. */
  predicate Fits(f: Footprint) {
    && f.q <= 0x4000 && f.p <= 0x4000 && f.s <= 0x8000 && f.o <= 0x8000 && f.prob <= 0x8000
    && f.scratch <= 0x800 && f.row <= 0x200 && f.packed <= 0x200 && 32 * f.warps <= 0x3000 && f.b <= 0x8000
  }

  predicate InSmem(f: Footprint, r: Region) {
    || r == A || r == B || r == C || r == Prob || r == MaxRow || r == SumRow || r == CorrRow || r == Scratch
    || r == Packed || (r.ReduceBuf? && r.warp < f.warps)
  }

  function Max(a: nat, b: nat): nat { if a < b then b else a }

  /** First byte and one past the last byte; the B operand is counted down from the top. */
  function Bytes(f: Footprint, r: Region): (nat, nat)
    requires Fits(f)
  {
    match r
    case A => (0, Max(f.q, f.p))
    case C => (0x4000, 0x4000 + Max(f.s, f.o))
    case Prob => (0xC000, 0xC000 + f.prob)
    case Scratch => (0x14000, 0x14000 + f.scratch)
    case MaxRow => (0x14800, 0x14800 + f.row)
    case SumRow => (0x14A00, 0x14A00 + f.row)
    case CorrRow => (0x14C00, 0x14C00 + f.row)
    case Packed => (0x14E00, 0x14E00 + f.packed)
    case ReduceBuf(warp) => (0x15000 + 32 * warp, 0x15000 + 32 * warp + 32)
    case B => (0x20000 - f.b, 0x20000)
    case _ => (0, 0)
  }

  /** Different buffers of the map share no byte, the warps' reduce buffers included, so two accesses meet only
      in a common region. */
  lemma SmemMapIsDisjoint(f: Footprint, r: Region, r': Region)
    requires Fits(f) && InSmem(f, r) && InSmem(f, r') && r != r'
    ensures Bytes(f, r).1 <= Bytes(f, r').0 || Bytes(f, r').1 <= Bytes(f, r).0
  {
  }
}
