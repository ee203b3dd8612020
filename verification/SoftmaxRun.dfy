/** The softmax kernels as running threads.  A row, or a lane's share of one, is an item of its thread's stride; its
    stores are done one at a time, in the order of the code, and the stores of different threads interleave freely.
    What a store is computed from is the row's scores and the state the row started with. */
module SoftmaxRun {
  import opened Arith
  import opened E4m3
  import opened Fused
  import opened RowStore
  import opened SoftmaxTile
  import opened Swar
  import opened Traces
  import Bits
  import Dataflow
  import Reduce
  import Requant
  import RequantRun
  import RowSums
  import StrideRun
  import Tiles
  import TwoPass

  type Loc = Requant.Loc

  /** What a row's lanes store: a softmax word of a block, a word of codes, a block scale, and the row's state. */
  datatype Spot = PairSpot(row: nat, b: nat, lane: nat) | WordSpot(row: nat, v: nat) | ScaleSpot(row: nat, b: nat)
                | SumSpot(row: nat) | MaxSpot(row: nat) | CorrSpot(row: nat)

  predicate IsSpot(t: Tiles.Shape, p: Spot) {
    && p.row < Tiles.Rows(t) && (p.WordSpot? ==> p.v < 8 * t.n) && (p.ScaleSpot? ==> p.b < t.n)
    && (p.PairSpot? ==> p.b < t.n && p.lane < 16)
  }

  /** The separate form's softmax stores its weights; the others store codes and scales. */
  predicate StoresSpot(form: Form, p: Spot) {
    if form.Separate? then !p.WordSpot? && !p.ScaleSpot? else !p.PairSpot?
  }

  function LocOf(t: Tiles.Shape, p: Spot): Loc
    requires IsSpot(t, p)
  {
    match p
    case PairSpot(row, b, lane) => Requant.Softmax(Tiles.WriterWord(t, row, b, lane))
    case WordSpot(row, v) => Requant.Spad(Place(t, row, v))
    case ScaleSpot(row, b) => Requant.Slot(Tiles.ScaleSlot(t, row, b))
    case SumSpot(row) => Requant.SumState(row)
    case MaxSpot(row) => Requant.MaxState(row)
    case CorrSpot(row) => Requant.CorrState(row)
  }

  lemma SpotsDiffer(t: Tiles.Shape, p: Spot, p': Spot)
    requires IsSpot(t, p) && IsSpot(t, p') && LocOf(t, p) == LocOf(t, p')
    ensures p == p'
  {
    match p
    case PairSpot(row, b, lane) => Tiles.WriterInjective(t, row, b, lane, p'.row, p'.b, p'.lane);
    case WordSpot(row, v) => PlacesDiffer(t, row, v, p'.row, p'.v);
    case ScaleSpot(row, b) => Tiles.ScaleSlotInjective(t, row, b, p'.row, p'.b);
    case _ =>
  }

  // ---- the loops ------------------------------------------------------------------------------------------

  /** Lane 0 stores the row's state. */
  function States(lane: nat): nat { if lane == 0 then 3 else 0 }

  function StateSpot(row: nat, index: nat): Spot {
    if index == 0 then SumSpot(row) else if index == 1 then MaxSpot(row) else CorrSpot(row)
  }

  /** Of 2^q lanes to a block the first stores the scale. */
  predicate Leads(q: nat, lane: nat) {
    Mod(lane, Bits.Pow2(q)) == 0
  }

  /** A lane's stores before its words. */
  function Before(q: nat, lane: nat): nat { States(lane) + if Leads(q, lane) then 1 else 0 }

  function LoopOf(t: Tiles.Shape, form: Form): StrideRun.Loop {
    match form
    case Chained => StrideRun.Loop(Tiles.Rows(t), (row: nat) => 9 * t.n + 3)
    case Lanes(q, c) => StrideRun.Loop(16 * Tiles.Rows(t), (item: nat) => Before(q, item % 16) + c / 4)
    case Separate => StrideRun.Loop(16 * Tiles.Rows(t), (item: nat) => t.n + States(item % 16))
  }

  /** Block after block its scale and eight words, then the state. */
  function ChainedSpot(n: nat, row: nat, index: nat): Spot {
    if index >= 9 * n then StateSpot(row, index - 9 * n)
    else if index % 9 == 0 then ScaleSpot(row, index / 9)
    else WordSpot(row, 8 * (index / 9) + index % 9 - 1)
  }

  /** The state, the scale, and words words. */
  function LaneSpot(q: nat, words: nat, row: nat, lane: nat, index: nat): Spot {
    if index < States(lane) then StateSpot(row, index)
    else if index < Before(q, lane) then ScaleSpot(row, Div(lane, Bits.Pow2(q)))
    else WordSpot(row, lane * words + (index - Before(q, lane)))
  }

  /** A word of each block, then the state. */
  function PairOrState(n: nat, row: nat, lane: nat, index: nat): Spot {
    if index < n then PairSpot(row, index, lane) else StateSpot(row, index - n)
  }

  function SpotOf(t: Tiles.Shape, form: Form, a: StrideRun.Store): Spot {
    match form
    case Chained => ChainedSpot(t.n, a.item, a.index)
    case Lanes(q, c) => LaneSpot(q, c / 4, a.item / 16, a.item % 16, a.index)
    case Separate => PairOrState(t.n, a.item / 16, a.item % 16, a.index)
  }

  lemma LaneSpotIsSpot(t: Tiles.Shape, q: nat, c: nat, row: nat, lane: nat, index: nat)
    requires FormFits(Lanes(q, c), t) && row < Tiles.Rows(t) && lane < 16 && index < Before(q, lane) + c / 4
    ensures IsSpot(t, LaneSpot(q, c / 4, row, lane, index))
            && StoresSpot(Lanes(q, c), LaneSpot(q, c / 4, row, lane, index))
  {
    LaneGroups(q, 0);
    LaneBounds(lane, c / 4, t.n);
    QuotientBelow(lane, t.n, Bits.Pow2(q));
  }

  lemma StoreIsSpot(t: Tiles.Shape, form: Form, a: StrideRun.Store)
    requires FormFits(form, t) && StrideRun.IsStore(LoopOf(t, form), a)
    ensures IsSpot(t, SpotOf(t, form, a)) && StoresSpot(form, SpotOf(t, form, a))
  {
    match form
    case Lanes(q, c) => LaneSpotIsSpot(t, q, c, a.item / 16, a.item % 16, a.index);
    case _ =>
  }

  // ---- every spot has a store -----------------------------------------------------------------------------

  function StateIndex(p: Spot): nat { if p.SumSpot? then 0 else if p.MaxSpot? then 1 else 2 }

  lemma Ninth(b: nat, u: nat)
    requires u < 8
    ensures (9 * b + (u + 1)) / 9 == b && (9 * b + (u + 1)) % 9 == u + 1
  {
  }

  lemma ChainedStore(t: Tiles.Shape, p: Spot) returns (a: StrideRun.Store)
    requires IsSpot(t, p) && StoresSpot(Chained, p)
    ensures StrideRun.IsStore(LoopOf(t, Chained), a) && SpotOf(t, Chained, a) == p
  {
    if p.WordSpot? {
      var b, u := p.v / 8, p.v % 8;
      a := StrideRun.Store(p.row, 9 * b + (u + 1));
      Ninth(b, u);
    } else if p.ScaleSpot? {
      a := StrideRun.Store(p.row, 9 * p.b);
    } else {
      a := StrideRun.Store(p.row, 9 * t.n + StateIndex(p));
    }
  }

  lemma LaneItem(row: nat, lane: nat, rows: nat)
    requires row < rows && lane < 16
    ensures (16 * row + lane) / 16 == row && (16 * row + lane) % 16 == lane && 16 * row + lane < 16 * rows
  {
  }

  lemma LaneStore(t: Tiles.Shape, q: nat, c: nat, p: Spot) returns (a: StrideRun.Store)
    requires FormFits(Lanes(q, c), t) && IsSpot(t, p) && StoresSpot(Lanes(q, c), p)
    ensures StrideRun.IsStore(LoopOf(t, Lanes(q, c)), a) && SpotOf(t, Lanes(q, c), a) == p
  {
    var lane, index: nat := 0, 0;
    match p {
      case WordSpot(row, v) =>
        LaneOfWord(v, c / 4);
        lane := Div(v, c / 4);
        index := Before(q, lane) + (v - lane * (c / 4));
      case ScaleSpot(row, b) =>
        LaneGroups(q, b);
        Remainder(b * Bits.Pow2(q), Bits.Pow2(q), b, 0);
        lane := b * Bits.Pow2(q);
        index := States(lane);
      case _ => index := StateIndex(p);
    }
    LaneItem(p.row, lane, Tiles.Rows(t));
    a := StrideRun.Store(16 * p.row + lane, index);
  }

  lemma SeparateStore(t: Tiles.Shape, p: Spot) returns (a: StrideRun.Store)
    requires IsSpot(t, p) && StoresSpot(Separate, p)
    ensures StrideRun.IsStore(LoopOf(t, Separate), a) && SpotOf(t, Separate, a) == p
  {
    var lane, index := if p.PairSpot? then p.lane else 0, if p.PairSpot? then p.b else t.n + StateIndex(p);
    LaneItem(p.row, lane, Tiles.Rows(t));
    a := StrideRun.Store(16 * p.row + lane, index);
  }

  lemma SpotHasStore(t: Tiles.Shape, form: Form, p: Spot) returns (a: StrideRun.Store)
    requires FormFits(form, t) && IsSpot(t, p) && StoresSpot(form, p)
    ensures StrideRun.IsStore(LoopOf(t, form), a) && SpotOf(t, form, a) == p
  {
    match form
    case Chained => a := ChainedStore(t, p);
    case Lanes(q, c) => a := LaneStore(t, q, c, p);
    case Separate => a := SeparateStore(t, p);
  }

  // ---- what a run leaves ----------------------------------------------------------------------------------

  /** What a spot is to hold. */
  ghost function ValueOf<V(!new)>(k: Task<V>, form: Form, p: Spot): nat
    requires IsTask(k) && FormFits(form, k.t) && IsSpot(k.t, p)
  {
    match p
    case PairSpot(row, b, lane) => CodeWords(k.code, Block(WeightsOf(k, row), b))[lane]
    case WordSpot(row, v) => RowWord(Result(k, row).codes, v)
    case ScaleSpot(row, b) => Result(k, row).scales[b]
    case SumSpot(row) => k.code(NewSum(k, form, row))
    case MaxSpot(row) => k.code(Result(k, row).m)
    case CorrSpot(row) => k.code(Result(k, row).corr)
  }

  ghost function AccessOf<V(!new)>(k: Task<V>, form: Form, a: StrideRun.Store): Access<Loc, nat>
    requires IsTask(k) && FormFits(form, k.t)
  {
    if StrideRun.IsStore(LoopOf(k.t, form), a) then
      StoreIsSpot(k.t, form, a);
      var p := SpotOf(k.t, form, a);
      var v := ValueOf(k, form, p);
      Access(LocOf(k.t, p), [], (vs: seq<nat>) => v)
    else
      Access(Requant.Softmax(0), [], (vs: seq<nat>) => 0)
  }

  /** The memory after a run's stores. */
  ghost function After<V(!new)>(k: Task<V>, form: Form, threads: nat, schedule: seq<nat>,
                                m: imap<Loc, nat>): (r: imap<Loc, nat>)
    requires IsTask(k) && FormFits(form, k.t) && StrideRun.Finishing(LoopOf(k.t, form), threads, schedule) && Total(m)
    ensures Total(r)
  {
    Execute((a: StrideRun.Store) => AccessOf(k, form, a), StrideRun.Order(LoopOf(k.t, form), threads, schedule), m)
  }

  lemma LoopIsBusy<V(!new)>(k: Task<V>, form: Form)
    requires IsTask(k) && FormFits(form, k.t)
    ensures StrideRun.Busy(LoopOf(k.t, form))
  {
    if Tiles.Rows(k.t) > 0 { assert RowGiven(k, 0); }
  }

  lemma AccessSettles<V(!new)>(k: Task<V>, form: Form, p: Spot, a: StrideRun.Store)
    requires IsTask(k) && FormFits(form, k.t) && IsSpot(k.t, p) && StrideRun.IsStore(LoopOf(k.t, form), a)
    ensures StoresOnly(AccessOf(k, form, a), LocOf(k.t, p), ValueOf(k, form, p))
  {
    StoreIsSpot(k.t, form, a);
    if LocOf(k.t, SpotOf(k.t, form, a)) == LocOf(k.t, p) { SpotsDiffer(k.t, SpotOf(k.t, form, a), p); }
  }

  /** MAIN RESULT 1.  Whatever the number of threads and however their stores interleave, when all of them are done
      every spot of the tile holds its value. */
  lemma RunLeaves<V(!new)>(k: Task<V>, form: Form, threads: nat, schedule: seq<nat>, m: imap<Loc, nat>, p: Spot)
    requires IsTask(k) && FormFits(form, k.t) && StrideRun.Finishing(LoopOf(k.t, form), threads, schedule) && Total(m)
    requires IsSpot(k.t, p) && StoresSpot(form, p)
    ensures After(k, form, threads, schedule, m)[LocOf(k.t, p)] == ValueOf(k, form, p)
  {
    LoopIsBusy(k, form);
    StrideRun.FinishedStoresOnce(LoopOf(k.t, form), threads, schedule);
    var order, prog := StrideRun.Order(LoopOf(k.t, form), threads, schedule),
                       (a: StrideRun.Store) => AccessOf(k, form, a);
    var a := SpotHasStore(k.t, form, p);
    forall b | b in order ensures StoresOnly(prog(b), LocOf(k.t, p), ValueOf(k, form, p)) {
      AccessSettles(k, form, p, b);
    }
    Settled(prog, order, m, LocOf(k.t, p), ValueOf(k, form, p), a);
  }

  // ---- requantization after the separate softmax ------------------------------------------------------------

  lemma WeightsAreFinite<V(!new)>(k: Task<V>, row: nat)
    requires IsTask(k) && row < Tiles.Rows(k.t)
    ensures AllFinite(k.code, WeightsOf(k, row)) && FromZero(k.ops, WeightsOf(k, row))
  {
    assert RowGiven(k, row);
    var x := ScaledRow(k.ops, k.scores[row]);
    var m := NewMax(k.ops, Reduce.Fold(k.ops.max, x), k.first, k.m[row]);
    NewMaxIsAbove(k.ops, x, k.first, k.m[row], m);
    ExpsArePositive(k.ops, k.code, x, m);
  }

  /** A block's softmax words. */
  ghost function WordsOf<V(!new)>(k: Task<V>, row: nat, b: nat): (r: seq<word>)
    requires IsTask(k) && row < Tiles.Rows(k.t) && b < k.t.n
    ensures |r| == 16 && Requant.Probabilities(r)
  {
    WeightsAreFinite(k, row);
    var block := Block(WeightsOf(k, row), b);
    BlockFacts(k.ops, k.code, WeightsOf(k, row), b);
    CodesAreProbabilities(k.code, block);
    CodeWords(k.code, block)
  }

  lemma CodeInBlock<V>(code: V -> bf16, e: seq<V>, scales: seq<int>, n: nat, b: nat, i: nat)
    requires |e| == 32 * n && |scales| == n && b < n && i < 32
    ensures Codes(code, e, scales, n)[32 * b + i] == ToE4m3Scaled(code(Block(e, b)[i]), scales[b] - 127)
  {
    CodesAt(code, e, scales, n, 32 * b + i);
    assert (32 * b + i) / 32 == b && Block(e, b)[i] == e[32 * b + i];
  }

  /** The branching path's scale and codes of a block's softmax words are the row's. */
  lemma LegacyBlock<V(!new)>(ops: TwoPass.Ops<V>, code: V -> bf16, e: seq<V>, scales: seq<int>, n: nat, b: nat, i: nat,
                             block: seq<V>, words: seq<word>)
    requires MonotoneExp(ops, code) && |e| == 32 * n && scales == Scales(ops, code, e, n) && b < n && i < 32
    requires block == Block(e, b) && AllFinite(code, block) && words == CodeWords(code, block)
    ensures Requant.BlockExponent(words) == scales[b]
    ensures Requant.LegacyCode(words, i) == Codes(code, e, scales, n)[32 * b + i]
  {
    BlockMaximum(ops, code, block);
    ElementIsCode(code, block, i);
    CodeInBlock(code, e, scales, n, b, i);
  }

  lemma LegacyIsResult<V(!new)>(k: Task<V>, row: nat, b: nat, i: nat)
    requires IsTask(k) && row < Tiles.Rows(k.t) && b < k.t.n && i < 32
    ensures Requant.BlockExponent(WordsOf(k, row, b)) == Result(k, row).scales[b]
    ensures Requant.LegacyCode(WordsOf(k, row, b), i) == Result(k, row).codes[32 * b + i]
  {
    assert RowGiven(k, row);
    WeightsAreFinite(k, row);
    BlockFacts(k.ops, k.code, WeightsOf(k, row), b);
    LegacyBlock(k.ops, k.code, WeightsOf(k, row), Result(k, row).scales, k.t.n, b, i,
                Block(WeightsOf(k, row), b), WordsOf(k, row, b));
  }

  /** The straight-line path's are too, from a scale of 7 up. */
  lemma PathOfBlock(legacy: bool, words: seq<word>, i: nat, scale: int, c: int)
    requires Requant.Probabilities(words) && i < 32 && (legacy || scale >= 7)
    requires Requant.BlockExponent(words) == scale && Requant.LegacyCode(words, i) == c
    ensures Requant.PathCode(legacy, words, i) == c
    ensures scale == if legacy then LegacyScale(Requant.BlockExponent(words))
            else FastScale(Requant.BlockExponent(words))
  {
    if !legacy { Requant.PathsAgree(words, i); }
    Requant.LegacyScaleIsExponent(words);
  }

  lemma PathIsResult<V(!new)>(k: Task<V>, legacy: bool, row: nat, b: nat, i: nat, words: seq<word>, scale: int, c: int)
    requires IsTask(k) && row < Tiles.Rows(k.t) && b < k.t.n && i < 32 && (legacy || scale >= 7)
    requires words == WordsOf(k, row, b) && scale == Result(k, row).scales[b] && c == Result(k, row).codes[32 * b + i]
    ensures Requant.PathCode(legacy, words, i) == c
    ensures scale == if legacy then LegacyScale(Requant.BlockExponent(words))
            else FastScale(Requant.BlockExponent(words))
  {
    LegacyIsResult(k, row, b, i);
    PathOfBlock(legacy, words, i, scale, c);
  }

  /** A softmax run and, for the separate form, a requantizing run after it. */
  datatype Runs = Runs(threads: nat, schedule: seq<nat>, legacy: bool, requantThreads: nat, requantSchedule: seq<nat>)

  ghost predicate RunsFinish(t: Tiles.Shape, form: Form, r: Runs) {
    && StrideRun.Finishing(LoopOf(t, form), r.threads, r.schedule)
    && (form.Separate? ==> StrideRun.Finishing(RequantRun.Blocks(t), r.requantThreads, r.requantSchedule))
  }

  /** The memory when the tile is done. */
  ghost function Done<V(!new)>(k: Task<V>, form: Form, r: Runs, m: imap<Loc, nat>): (after: imap<Loc, nat>)
    requires IsTask(k) && FormFits(form, k.t) && RunsFinish(k.t, form, r) && Total(m)
    ensures Total(after)
  {
    var softmax := After(k, form, r.threads, r.schedule, m);
    if form.Separate? then
      Requant.After(k.t, r.legacy, RequantRun.Performed(k.t, r.requantThreads, r.requantSchedule), softmax)
    else softmax
  }

  lemma SoftmaxBlock<V(!new)>(k: Task<V>, r: Runs, m: imap<Loc, nat>, row: nat, b: nat)
    requires IsTask(k) && RunsFinish(k.t, Separate, r) && Total(m) && row < Tiles.Rows(k.t) && b < k.t.n
    ensures Requant.BlockAt(k.t, After(k, Separate, r.threads, r.schedule, m), row, b, WordsOf(k, row, b))
  {
    var after := After(k, Separate, r.threads, r.schedule, m);
    forall lane: nat | lane < 16
      ensures after[Requant.Softmax(Tiles.WriterWord(k.t, row, b, lane))] == WordsOf(k, row, b)[lane]
    {
      RunLeaves(k, Separate, r.threads, r.schedule, m, PairSpot(row, b, lane));
    }
  }

  /** The codes of a block on either path are exact when the branching path runs, or from a scale of 7 up. */
  ghost predicate Agrees<V(!new)>(k: Task<V>, form: Form, legacy: bool, p: Spot)
    requires IsTask(k) && IsSpot(k.t, p)
  {
    form.Separate? && !legacy ==>
      && (p.WordSpot? ==> Result(k, p.row).scales[p.v / 8] >= 7)
      && (p.ScaleSpot? ==> Result(k, p.row).scales[p.b] >= 7)
  }

  /** The codes of a block on the given path are the 32 codes from `at` on. */
  ghost predicate PathCodes(legacy: bool, words: seq<word>, codes: seq<int>, at: nat) {
    |words| == 16 && at + 32 <= |codes| && forall i: nat :: i < 32 ==> PathCodeIs(legacy, words, codes, at, i)
  }

  predicate PathCodeIs(legacy: bool, words: seq<word>, codes: seq<int>, at: nat, i: nat)
    requires |words| == 16 && at + 32 <= |codes| && i < 32
  {
    Requant.PathCode(legacy, words, i) == codes[at + i]
  }

  lemma PathIsRow<V(!new)>(k: Task<V>, legacy: bool, row: nat, b: nat, words: seq<word>, scale: int, codes: seq<int>)
    requires IsTask(k) && row < Tiles.Rows(k.t) && b < k.t.n && (legacy || scale >= 7)
    requires words == WordsOf(k, row, b) && scale == Result(k, row).scales[b] && codes == Result(k, row).codes
    ensures PathCodes(legacy, words, codes, 32 * b)
  {
    var at := 32 * b;
    forall i: nat | i < 32 ensures PathCodeIs(legacy, words, codes, at, i) {
      PathIsResult(k, legacy, row, b, i, words, scale, codes[32 * b + i]);
    }
  }

  lemma PathWord(legacy: bool, row: nat, b: nat, u: nat, words: seq<word>, c0: int, c1: int, c2: int, c3: int)
    requires Requant.Probabilities(words) && u < 8
    requires Requant.PathCode(legacy, words, 4 * u) == c0 && Requant.PathCode(legacy, words, 4 * u + 1) == c1
    requires Requant.PathCode(legacy, words, 4 * u + 2) == c2 && Requant.PathCode(legacy, words, 4 * u + 3) == c3
    ensures IsByte(c0) && IsByte(c1) && IsByte(c2) && IsByte(c3)
    ensures Requant.StoredFrom(legacy, Requant.WordStore(row, b, u), words) == Bytes(c0, c1, c2, c3)
  {
    if legacy { Requant.LegacyHolds(words, u); } else { Requant.FastHolds(words, u); }
  }

  lemma FourCodes(legacy: bool, words: seq<word>, codes: seq<int>, at: nat, u: nat, o: nat)
    requires PathCodes(legacy, words, codes, at) && u < 8 && o == at + 4 * u
    ensures Requant.PathCode(legacy, words, 4 * u) == codes[o]
            && Requant.PathCode(legacy, words, 4 * u + 1) == codes[o + 1]
    ensures Requant.PathCode(legacy, words, 4 * u + 2) == codes[o + 2]
            && Requant.PathCode(legacy, words, 4 * u + 3) == codes[o + 3]
  {
    assert PathCodeIs(legacy, words, codes, at, 4 * u) && PathCodeIs(legacy, words, codes, at, 4 * u + 1);
    assert PathCodeIs(legacy, words, codes, at, 4 * u + 2) && PathCodeIs(legacy, words, codes, at, 4 * u + 3);
  }

  lemma StoredBytes(legacy: bool, row: nat, b: nat, u: nat, words: seq<word>, codes: seq<int>, at: nat, o: nat)
    requires Requant.Probabilities(words) && u < 8 && PathCodes(legacy, words, codes, at) && o == at + 4 * u
    ensures IsByte(codes[o]) && IsByte(codes[o + 1]) && IsByte(codes[o + 2]) && IsByte(codes[o + 3])
    ensures Requant.StoredFrom(legacy, Requant.WordStore(row, b, u), words)
            == Bytes(codes[o], codes[o + 1], codes[o + 2], codes[o + 3])
  {
    FourCodes(legacy, words, codes, at, u, o);
    PathWord(legacy, row, b, u, words, codes[o], codes[o + 1], codes[o + 2], codes[o + 3]);
  }

  /** The word a requantizing store leaves is the row's word. */
  lemma StoredIsRowWord(legacy: bool, row: nat, b: nat, u: nat, words: seq<word>, codes: seq<int>, at: nat, v: nat)
    requires Requant.Probabilities(words) && u < 8 && PathCodes(legacy, words, codes, at) && Bytewise(codes)
    requires at == 32 * b && v == 8 * b + u
    ensures Requant.StoredFrom(legacy, Requant.WordStore(row, b, u), words) == RowWord(codes, v)
  {
    StoredBytes(legacy, row, b, u, words, codes, at, 4 * v);
  }

  /** What a requantizing store of a block leaves. */
  lemma RequantStore<V(!new)>(k: Task<V>, r: Runs, m: imap<Loc, nat>, a: Requant.Store, words: seq<word>)
    requires IsTask(k) && RunsFinish(k.t, Separate, r) && Total(m) && Requant.IsStore(k.t, a)
    requires words == WordsOf(k, a.row, a.b)
    ensures Done(k, Separate, r, m)[Requant.Target(k.t, a)] == Requant.StoredFrom(r.legacy, a, words)
  {
    SoftmaxBlock(k, r, m, a.row, a.b);
    RequantRun.FinishedStoresOnce(k.t, r.requantThreads, r.requantSchedule);
    Requant.StoreContents(k.t, r.legacy, RequantRun.Performed(k.t, r.requantThreads, r.requantSchedule),
                          After(k, Separate, r.threads, r.schedule, m), a, words);
  }

  lemma RequantWord<V(!new)>(k: Task<V>, r: Runs, m: imap<Loc, nat>, row: nat, v: nat)
    requires IsTask(k) && RunsFinish(k.t, Separate, r) && Total(m) && IsSpot(k.t, WordSpot(row, v))
    requires Agrees(k, Separate, r.legacy, WordSpot(row, v))
    ensures Done(k, Separate, r, m)[Requant.Spad(Place(k.t, row, v))] == RowWord(Result(k, row).codes, v)
  {
    var b, u := v / 8, v % 8;
    var words, scale, codes := WordsOf(k, row, b), Result(k, row).scales[b], Result(k, row).codes;
    RequantStore(k, r, m, Requant.WordStore(row, b, u), words);
    PathIsRow(k, r.legacy, row, b, words, scale, codes);
    StoredIsRowWord(r.legacy, row, b, u, words, codes, 32 * b, v);
    PlaceIsFast(k.t, row, v);
  }

  lemma RequantScale<V(!new)>(k: Task<V>, r: Runs, m: imap<Loc, nat>, row: nat, b: nat)
    requires IsTask(k) && RunsFinish(k.t, Separate, r) && Total(m) && IsSpot(k.t, ScaleSpot(row, b))
    requires Agrees(k, Separate, r.legacy, ScaleSpot(row, b))
    ensures Done(k, Separate, r, m)[LocOf(k.t, ScaleSpot(row, b))] == Result(k, row).scales[b]
  {
    var words, scale, codes := WordsOf(k, row, b), Result(k, row).scales[b], Result(k, row).codes;
    RequantStore(k, r, m, Requant.ScaleStore(row, b), words);
    PathIsResult(k, r.legacy, row, b, 0, words, scale, codes[32 * b]);
  }

  /** Requantization leaves the rows' state. */
  lemma RequantKeeps<V(!new)>(k: Task<V>, r: Runs, m: imap<Loc, nat>, l: Loc)
    requires IsTask(k) && RunsFinish(k.t, Separate, r) && Total(m) && !l.Spad? && !l.Slot?
    ensures Done(k, Separate, r, m)[l] == After(k, Separate, r.threads, r.schedule, m)[l]
  {
    Untouched(Dataflow.Program(Requant.Stores(k.t), Requant.Computes(r.legacy)),
              RequantRun.Performed(k.t, r.requantThreads, r.requantSchedule),
              After(k, Separate, r.threads, r.schedule, m), l);
  }

  // ---- the three forms --------------------------------------------------------------------------------------

  /** In every form a finished tile holds at every spot its value. */
  lemma SpotLeft<V(!new)>(k: Task<V>, form: Form, r: Runs, m: imap<Loc, nat>, p: Spot)
    requires IsTask(k) && FormFits(form, k.t) && RunsFinish(k.t, form, r) && Total(m)
    requires IsSpot(k.t, p) && !p.PairSpot? && Agrees(k, form, r.legacy, p)
    ensures Done(k, form, r, m)[LocOf(k.t, p)] == ValueOf(k, form, p)
  {
    if !form.Separate? {
      RunLeaves(k, form, r.threads, r.schedule, m, p);
    } else if p.WordSpot? {
      RequantWord(k, r, m, p.row, p.v);
    } else if p.ScaleSpot? {
      RequantScale(k, r, m, p.row, p.b);
    } else {
      RequantKeeps(k, r, m, LocOf(k.t, p));
      RunLeaves(k, form, r.threads, r.schedule, m, p);
    }
  }

  lemma RowWordByte(codes: seq<int>, v: nat, k: nat, w: nat)
    requires Bytewise(codes) && 4 * v + 4 <= |codes| && k < 4 && w == RowWord(codes, v)
    ensures Requant.ByteOf(w, k) == codes[4 * v + k]
  {
    Requant.BytesOf(codes[4 * v], codes[4 * v + 1], codes[4 * v + 2], codes[4 * v + 3], k);
  }

  /** Where the code of element i of a block is. */
  lemma CodePlace(t: Tiles.Shape, row: nat, b: nat, i: nat, v: nat, place: nat)
    requires row < Tiles.Rows(t) && b < t.n && i < 32 && v == 8 * b + i / 4
             && place == Tiles.TiledByte(t, row, b * 32 + i)
    ensures v < 8 * t.n && v / 8 == b && place / 4 == Place(t, row, v)
    ensures place % 4 == i % 4 && 4 * v + i % 4 == 32 * b + i
  {
    Requant.TiledPlace(t, row, b, i / 4, i % 4);
    WordAtPlace(t, row, b, i / 4);
  }

  lemma WordLeft<V(!new)>(k: Task<V>, form: Form, r: Runs, m: imap<Loc, nat>, row: nat, v: nat, u: nat, w: nat,
                          codes: seq<int>, o: nat)
    requires IsTask(k) && FormFits(form, k.t) && RunsFinish(k.t, form, r) && Total(m)
    requires row < Tiles.Rows(k.t) && v < 8 * k.t.n && u < 4 && Agrees(k, form, r.legacy, WordSpot(row, v))
    requires codes == Result(k, row).codes && w == Place(k.t, row, v) && o == 4 * v + u
    ensures o < |codes| && Requant.ByteOf(Done(k, form, r, m)[Requant.Spad(w)], u) == codes[o]
  {
    SpotLeft(k, form, r, m, WordSpot(row, v));
    RowWordByte(codes, v, u, RowWord(codes, v));
  }

  lemma CodeLeft<V(!new)>(k: Task<V>, form: Form, r: Runs, m: imap<Loc, nat>, row: nat, b: nat, i: nat, place: nat,
                          codes: seq<int>, after: imap<Loc, nat>, v: nat, u: nat, w: nat, o: nat)
    requires IsTask(k) && FormFits(form, k.t) && RunsFinish(k.t, form, r) && Total(m) && after == Done(k, form, r, m)
    requires row < Tiles.Rows(k.t) && b < k.t.n && i < 32 && Agrees(k, form, r.legacy, ScaleSpot(row, b))
    requires place == Tiles.TiledByte(k.t, row, b * 32 + i) && codes == Result(k, row).codes
    requires v == 8 * b + i / 4 && u == place % 4 && w == place / 4 && o == 32 * b + i
    ensures o < |codes| && Total(after) && Requant.ByteOf(after[Requant.Spad(w)], u) == codes[o]
  {
    CodePlace(k.t, row, b, i, v, place);
    WordLeft(k, form, r, m, row, v, u, w, codes, o);
  }

  lemma StateLeft<V(!new)>(k: Task<V>, form: Form, r: Runs, m: imap<Loc, nat>, row: nat)
    requires IsTask(k) && FormFits(form, k.t) && RunsFinish(k.t, form, r) && Total(m) && row < Tiles.Rows(k.t)
    ensures var after, result := Done(k, form, r, m), Result(k, row);
            && after[Requant.MaxState(row)] == k.code(result.m) && after[Requant.CorrState(row)] == k.code(result.corr)
            && after[Requant.SumState(row)] == k.code(NewSum(k, form, row))
  {
    SpotLeft(k, form, r, m, MaxSpot(row));
    SpotLeft(k, form, r, m, CorrSpot(row));
    SpotLeft(k, form, r, m, SumSpot(row));
  }

  lemma ScaleLeft<V(!new)>(k: Task<V>, form: Form, r: Runs, m: imap<Loc, nat>, row: nat, b: nat, slot: nat)
    requires IsTask(k) && FormFits(form, k.t) && RunsFinish(k.t, form, r) && Total(m)
    requires row < Tiles.Rows(k.t) && b < k.t.n && Agrees(k, form, r.legacy, ScaleSpot(row, b))
    requires slot == Tiles.ScaleSlot(k.t, row, b)
    ensures Done(k, form, r, m)[Requant.Slot(slot)] == Result(k, row).scales[b]
  {
    SpotLeft(k, form, r, m, ScaleSpot(row, b));
  }

  /** MAIN RESULT 2.  In every form, for any number of threads and any interleaving of their stores: when a tile is
      finished the tiled byte of every element is its code, slot b * 16r + row holds the scale of block b of the row,
      and the row's state its maximum, correction and denominator.  With the straight-line requantizer that is so of
      blocks with a scale of 7 or more. */
  lemma TileLeft<V(!new)>(k: Task<V>, form: Form, r: Runs, m: imap<Loc, nat>, row: nat, b: nat, i: nat,
                          place: nat, slot: nat)
    requires IsTask(k) && FormFits(form, k.t) && RunsFinish(k.t, form, r) && Total(m)
    requires row < Tiles.Rows(k.t) && b < k.t.n && i < 32
    requires form.Separate? && !r.legacy ==> Result(k, row).scales[b] >= 7
    requires place == (row / 16 * (2 * k.t.n) + (2 * b + i / 16)) * 256 + row % 16 * 16 + i % 16
    requires slot == b * (16 * k.t.r) + row
    ensures var after, result := Done(k, form, r, m), Result(k, row);
            && Requant.ByteOf(after[Requant.Spad(place / 4)], place % 4) == result.codes[32 * b + i]
            && after[Requant.Slot(slot)] == result.scales[b]
            && after[Requant.MaxState(row)] == k.code(result.m) && after[Requant.CorrState(row)] == k.code(result.corr)
            && after[Requant.SumState(row)] == k.code(NewSum(k, form, row))
  {
    Tiles.ElementPlace(k.t, row, b, i);
    SlotInScratch(k.t, row, b);
    CodeLeft(k, form, r, m, row, b, i, place, Result(k, row).codes, Done(k, form, r, m), 8 * b + i / 4, place % 4,
             place / 4, 32 * b + i);
    ScaleLeft(k, form, r, m, row, b, slot);
    StateLeft(k, form, r, m, row);
  }

  lemma SameSpot<V(!new)>(k: Task<V>, form: Form, r: Runs, m: imap<Loc, nat>, form': Form, r': Runs, m': imap<Loc, nat>,
                          p: Spot)
    requires IsTask(k) && FormFits(form, k.t) && RunsFinish(k.t, form, r) && Total(m) && IsSpot(k.t, p) && !p.PairSpot?
    requires FormFits(form', k.t) && RunsFinish(k.t, form', r') && Total(m')
    requires Agrees(k, form, r.legacy, p) && Agrees(k, form', r'.legacy, p)
    requires p.SumSpot? ==> RowSums.ExactAddition(k.ops)
    ensures Done(k, form, r, m)[LocOf(k.t, p)] == Done(k, form', r', m')[LocOf(k.t, p)]
  {
    SpotLeft(k, form, r, m, p);
    SpotLeft(k, form', r', m', p);
    if p.SumSpot? {
      SumIsChain(k, form, p.row);
      SumIsChain(k, form', p.row);
    }
  }

  lemma SumIsChain<V(!new)>(k: Task<V>, form: Form, row: nat)
    requires IsTask(k) && FormFits(form, k.t) && row < Tiles.Rows(k.t) && RowSums.ExactAddition(k.ops)
    ensures SumOf(k, form, row) == RowSums.ChainSum(k.ops, WeightsOf(k, row))
  {
    match form
    case Chained =>
    case Lanes(q, c) => RowSums.LanesSumToChain(k.ops, WeightsOf(k, row), c);
    case Separate =>
      assert RowGiven(k, row);
      RowSums.StridedSumToChain(k.ops, WeightsOf(k, row), k.t.n);
  }

  ghost predicate TwoRuns<V(!new)>(k: Task<V>, form: Form, r: Runs, m: imap<Loc, nat>, form': Form, r': Runs,
                                   m': imap<Loc, nat>) {
    && IsTask(k) && FormFits(form, k.t) && RunsFinish(k.t, form, r) && Total(m) && (form.Separate? ==> r.legacy)
    && FormFits(form', k.t) && RunsFinish(k.t, form', r') && Total(m') && (form'.Separate? ==> r'.legacy)
  }

  lemma SameScratchpad<V(!new)>(k: Task<V>, form: Form, r: Runs, m: imap<Loc, nat>, form': Form, r': Runs,
                                m': imap<Loc, nat>, x: nat)
    requires TwoRuns(k, form, r, m, form', r', m') && x < Tiles.SpadWords(k.t)
    ensures Done(k, form, r, m)[Requant.Spad(x)] == Done(k, form', r', m')[Requant.Spad(x)]
  {
    var row, block, u := Tiles.FastWordOnto(k.t, x);
    WordAtPlace(k.t, row, block, u);
    SameSpot(k, form, r, m, form', r', m', WordSpot(row, 8 * block + u));
  }

  lemma SameScales<V(!new)>(k: Task<V>, form: Form, r: Runs, m: imap<Loc, nat>, form': Form, r': Runs,
                            m': imap<Loc, nat>, x: nat)
    requires TwoRuns(k, form, r, m, form', r', m') && x < Tiles.Items(k.t)
    ensures Done(k, form, r, m)[Requant.Slot(x)] == Done(k, form', r', m')[Requant.Slot(x)]
  {
    var row, block := Tiles.ScaleSlotOnto(k.t, x);
    SameSpot(k, form, r, m, form', r', m', ScaleSpot(row, block));
  }

  lemma SameState<V(!new)>(k: Task<V>, form: Form, r: Runs, m: imap<Loc, nat>, form': Form, r': Runs,
                           m': imap<Loc, nat>, row: nat)
    requires TwoRuns(k, form, r, m, form', r', m') && row < Tiles.Rows(k.t)
    ensures var a, b := Done(k, form, r, m), Done(k, form', r', m');
            && a[Requant.MaxState(row)] == b[Requant.MaxState(row)]
            && a[Requant.CorrState(row)] == b[Requant.CorrState(row)]
            && (RowSums.ExactAddition(k.ops) ==> a[Requant.SumState(row)] == b[Requant.SumState(row)])
  {
    SameSpot(k, form, r, m, form', r', m', MaxSpot(row));
    SameSpot(k, form, r, m, form', r', m', CorrSpot(row));
    if RowSums.ExactAddition(k.ops) { SameSpot(k, form, r, m, form', r', m', SumSpot(row)); }
  }

  /** The same scratchpad, scales, maxima and corrections, and when sums are exact the same denominators. */
  ghost predicate SameOutput(t: Tiles.Shape, exact: bool, a: imap<Loc, nat>, b: imap<Loc, nat>)
    requires Total(a) && Total(b)
  {
    && (forall x: nat :: x < Tiles.SpadWords(t) ==> a[Requant.Spad(x)] == b[Requant.Spad(x)])
    && (forall x: nat :: x < Tiles.Items(t) ==> a[Requant.Slot(x)] == b[Requant.Slot(x)])
    && (forall row: nat :: row < Tiles.Rows(t) ==> a[Requant.MaxState(row)] == b[Requant.MaxState(row)])
    && (forall row: nat :: row < Tiles.Rows(t) ==> a[Requant.CorrState(row)] == b[Requant.CorrState(row)])
    && (exact ==> forall row: nat :: row < Tiles.Rows(t) ==> a[Requant.SumState(row)] == b[Requant.SumState(row)])
  }

  /** MAIN RESULT 3.  Whichever two forms do a tile, on whatever threads and schedules, and whatever was in memory
      before: they leave the same scratchpad, scales, maxima and corrections, and with exact addition the same
      denominators.  The separate form goes through the branching requantizer. */
  lemma SameTile<V(!new)>(k: Task<V>, form: Form, r: Runs, m: imap<Loc, nat>, form': Form, r': Runs, m': imap<Loc, nat>)
    requires IsTask(k) && FormFits(form, k.t) && RunsFinish(k.t, form, r) && Total(m) && (form.Separate? ==> r.legacy)
    requires FormFits(form', k.t) && RunsFinish(k.t, form', r') && Total(m') && (form'.Separate? ==> r'.legacy)
    ensures SameOutput(k.t, RowSums.ExactAddition(k.ops), Done(k, form, r, m), Done(k, form', r', m'))
  {
    var a, b := Done(k, form, r, m), Done(k, form', r', m');
    forall x: nat | x < Tiles.SpadWords(k.t) ensures a[Requant.Spad(x)] == b[Requant.Spad(x)] {
      SameScratchpad(k, form, r, m, form', r', m', x);
    }
    forall x: nat | x < Tiles.Items(k.t) ensures a[Requant.Slot(x)] == b[Requant.Slot(x)] {
      SameScales(k, form, r, m, form', r', m', x);
    }
    forall row: nat | row < Tiles.Rows(k.t)
      ensures a[Requant.MaxState(row)] == b[Requant.MaxState(row)]
      ensures a[Requant.CorrState(row)] == b[Requant.CorrState(row)]
      ensures RowSums.ExactAddition(k.ops) ==> a[Requant.SumState(row)] == b[Requant.SumState(row)]
    {
      SameState(k, form, r, m, form', r', m', row);
    }
  }
}
