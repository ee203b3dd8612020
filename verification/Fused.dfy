/** Softmax and requantization of one row, three ways: fused over sixteen lanes, one thread for the whole row,
    and as separate softmax and requantization.  They give the same maximum, block scales and codes. */
module Fused {
  import opened Bits
  import opened E4m3
  import opened Reduce
  import opened TwoPass
  import opened RowSums
  import opened Swar
  import opened Tiles
  import opened RowStore
  import Requant

  ghost predicate ExpOfMax<V>(ops: Ops<V>, x: V, y: V, m: V) {
    ops.finite(x) && ops.finite(y) && ops.finite(m) ==>
      ops.exp(ops.sub(ops.max(x, y), m)) == ops.max(ops.exp(ops.sub(x, m)), ops.exp(ops.sub(y, m)))
  }

  ghost predicate Positive<V>(ops: Ops<V>, code: V -> bf16, x: V, m: V) {
    ops.finite(x) && ops.finite(m) && Le(ops, x, m) ==>
      var e := ops.exp(ops.sub(x, m)); ops.max(ops.zero, e) == e && code(e) < 0x7F80
  }

  /** Of two values that are neither negative nor infinite the larger has the larger code. */
  ghost predicate MaxOfCodes<V>(ops: Ops<V>, code: V -> bf16, x: V, y: V) {
    code(x) < 0x7F80 && code(y) < 0x7F80 ==> code(ops.max(x, y)) == Requant.FMax(code(x), code(y))
  }

  /** Max is exact; on the values that occur the exponential is monotone, and of a score less its maximum it is not
      negative and finite. */
  ghost predicate MonotoneExp<V(!new)>(ops: Ops<V>, code: V -> bf16) {
    && Laws(ops)
    && (forall x, y, m :: ExpOfMax(ops, x, y, m))
    && (forall x, m :: Positive(ops, code, x, m))
    && (forall x, y :: MaxOfCodes(ops, code, x, y))
  }

  // ---- the row, column by column ---------------------------------------------------------------------

  ghost predicate FiniteAll<V>(ops: Ops<V>, x: seq<V>) {
    forall c :: 0 <= c < |x| ==> ops.finite(x[c])
  }

  /** A row of n blocks of 32 scores, finite when scaled. */
  ghost predicate IsScores<V>(ops: Ops<V>, s: seq<V>, n: nat) {
    |s| == 32 * n && n > 0 && FiniteAll(ops, ScaledRow(ops, s))
  }

  function ScaledRow<V>(ops: Ops<V>, s: seq<V>): (r: seq<V>)
    ensures |r| == |s| && forall c :: 0 <= c < |r| ==> r[c] == ops.mul(s[c], ops.scale)
  {
    seq(|s|, c requires 0 <= c < |s| => ops.mul(s[c], ops.scale))
  }

  function Exps<V>(ops: Ops<V>, x: seq<V>, m: V): (r: seq<V>)
    ensures |r| == |x| && forall c :: 0 <= c < |r| ==> r[c] == ops.exp(ops.sub(x[c], m))
  {
    seq(|x|, c requires 0 <= c < |x| => ops.exp(ops.sub(x[c], m)))
  }

  function Block<V>(x: seq<V>, b: nat): (r: seq<V>)
    requires 32 * b + 32 <= |x|
    ensures |r| == 32
  {
    x[32 * b..32 * b + 32]
  }

  /** The running maximum after the block, given the one before. */
  function NewMax<V>(ops: Ops<V>, rmax: V, first: bool, mState: V): V {
    ops.max(if first then rmax else mState, rmax)
  }

  /** The factor by which earlier sums are rescaled, and the denominator after the block, given its own sum. */
  function Correction<V>(ops: Ops<V>, rmax: V, first: bool, mState: V): V {
    ops.exp(ops.sub(if first then rmax else mState, NewMax(ops, rmax, first, mState)))
  }

  function Denominator<V>(ops: Ops<V>, corr: V, first: bool, lState: V, sum: V): V {
    ops.add(ops.mul(if first then ops.zero else lState, corr), sum)
  }

  datatype Row<V> = Row(m: V, corr: V, scales: seq<int>, codes: seq<int>)

  function Scales<V>(ops: Ops<V>, code: V -> bf16, e: seq<V>, n: nat): (r: seq<int>)
    requires |e| == 32 * n
    ensures |r| == n && forall b: nat :: b < n ==> r[b] == Exponent(code(Fold(ops.max, Block(e, b))))
  {
    seq(n, b requires 0 <= b < n => Exponent(code(Fold(ops.max, Block(e, b)))))
  }

  /** The codes of values that share the block exponent em. */
  function CodesOf<V>(code: V -> bf16, e: seq<V>, em: int): (r: seq<int>)
    ensures |r| == |e|
  {
    seq(|e|, c requires 0 <= c < |e| => ToE4m3Scaled(code(e[c]), em - 127))
  }

  /** The codes of the first n blocks. */
  function Codes<V>(code: V -> bf16, e: seq<V>, scales: seq<int>, n: nat): (r: seq<int>)
    requires |e| == 32 * |scales| && n <= |scales|
    ensures |r| == 32 * n
  {
    if n == 0 then [] else Codes(code, e, scales, n - 1) + CodesOf(code, Block(e, n - 1), scales[n - 1])
  }

  /** A row's weights: the exponentials of its scaled scores less the new maximum. */
  function Weights<V>(ops: Ops<V>, s: seq<V>, first: bool, mState: V): (e: seq<V>)
    requires |s| > 0
    ensures |e| == |s|
  {
    var x := ScaledRow(ops, s);
    Exps(ops, x, NewMax(ops, Fold(ops.max, x), first, mState))
  }

  /** What a row becomes: its maximum, the correction, the exponent field of each block's largest weight, and the
      codes. */
  function RowOf<V>(ops: Ops<V>, code: V -> bf16, s: seq<V>, n: nat, first: bool, mState: V): Row<V>
    requires |s| == 32 * n && n > 0
  {
    var rmax, e := Fold(ops.max, ScaledRow(ops, s)), Weights(ops, s, first, mState);
    Row(NewMax(ops, rmax, first, mState), Correction(ops, rmax, first, mState),
        Scales(ops, code, e, n), Codes(code, e, Scales(ops, code, e, n), n))
  }

  /** Exponentials turn the largest score into the largest weight. */
  lemma {:induction false} ExpOfFold<V(!new)>(ops: Ops<V>, code: V -> bf16, x: seq<V>, m: V)
    requires MonotoneExp(ops, code) && |x| > 0 && FiniteAll(ops, x) && ops.finite(m)
    ensures ops.exp(ops.sub(Fold(ops.max, x), m)) == Fold(ops.max, Exps(ops, x, m))
  {
    if |x| > 1 {
      var y := x[..|x| - 1];
      ExpOfFold(ops, code, y, m);
      FoldIsFinite(ops, y);
      assert ExpOfMax(ops, Fold(ops.max, y), x[|x| - 1], m);
      assert Exps(ops, x, m)[..|x| - 1] == Exps(ops, y, m);
    }
  }

  /** A chain of maxima from a start that changes nothing. */
  method Chain<V(!new)>(ops: Ops<V>, start: V, x: seq<V>) returns (m: V)
    requires Laws(ops) && |x| > 0 && ops.max(start, x[0]) == x[0]
    ensures m == Fold(ops.max, x)
  {
    m := ops.max(start, x[0]);
    assert x[..1] == [x[0]];
    for c := 1 to |x|
      invariant m == Fold(ops.max, x[..c])
    {
      assert x[..c + 1][..c] == x[..c];
      m := ops.max(m, x[c]);
    }
    assert x[..|x|] == x;
  }

  lemma FromBottom<V(!new)>(ops: Ops<V>, x: V)
    requires Laws(ops)
    ensures ops.max(ops.bottom, x) == x
  {
    assert Commute(ops.max, ops.bottom, x) && Identity(ops.max, ops.bottom, x);
  }

  // ---- one thread for the whole row --------------------------------------------------------------------

  /** Neither negative nor infinite. */
  ghost predicate AllFinite<V>(code: V -> bf16, e: seq<V>) {
    forall c :: 0 <= c < |e| ==> code(e[c]) < 0x7F80
  }

  /** The scores are at most the new maximum, which is finite. */
  lemma NewMaxIsAbove<V(!new)>(ops: Ops<V>, x: seq<V>, first: bool, mState: V, m: V)
    requires Laws(ops) && |x| > 0 && FiniteAll(ops, x) && (first || ops.finite(mState))
    requires m == NewMax(ops, Fold(ops.max, x), first, mState)
    ensures ops.finite(m) && forall c :: 0 <= c < |x| ==> Le(ops, x[c], m)
  {
    var rmax := Fold(ops.max, x);
    FoldIsFinite(ops, x);
    assert FiniteMax(ops, if first then rmax else mState, rmax);
    forall c: nat | c < |x| ensures Le(ops, x[c], m) {
      FoldIsUpper(ops, x, c);
      LeMax(ops, if first then rmax else mState, rmax, m);
      LeMax(ops, x[c], rmax, m);
    }
  }

  lemma ExpsArePositive<V(!new)>(ops: Ops<V>, code: V -> bf16, x: seq<V>, m: V)
    requires MonotoneExp(ops, code) && FiniteAll(ops, x) && ops.finite(m)
             && forall c :: 0 <= c < |x| ==> Le(ops, x[c], m)
    ensures AllFinite(code, Exps(ops, x, m)) && FromZero(ops, Exps(ops, x, m))
  {
    forall c | 0 <= c < |x|
      ensures code(Exps(ops, x, m)[c]) < 0x7F80 && ops.max(ops.zero, Exps(ops, x, m)[c]) == Exps(ops, x, m)[c]
    {
      assert Positive(ops, code, x[c], m);
    }
  }

  /** Scaling and then the branching encoder, value by value. */
  method ScaleAndEncode<V>(code: V -> bf16, e: seq<V>, em: int) returns (codes: seq<int>)
    requires AllFinite(code, e)
    ensures codes == CodesOf(code, e, em)
  {
    codes := [];
    ghost var target := CodesOf(code, e, em);
    for k := 0 to |e|
      invariant codes == target[..k]
    {
      ScaledIsScaleThenEncode(code(e[k]), em - 127);
      codes := codes + [ToE4m3(false, ScalePow2(code(e[k]), -(em - 127)))];
    }
  }

  ghost predicate FromZero<V>(ops: Ops<V>, e: seq<V>) {
    forall c :: 0 <= c < |e| ==> ops.max(ops.zero, e[c]) == e[c]
  }

  /** One block: its largest weight, its scale and its codes. */
  method BlockPass<V(!new)>(ops: Ops<V>, code: V -> bf16, block: seq<V>) returns (em: int, codes: seq<int>)
    requires Laws(ops) && |block| == 32 && AllFinite(code, block) && ops.max(ops.zero, block[0]) == block[0]
    ensures em == Exponent(code(Fold(ops.max, block))) && codes == CodesOf(code, block, em)
  {
    var bmax := Chain(ops, ops.zero, block);
    em := Exponent(code(bmax));
    codes := ScaleAndEncode(code, block, em);
  }

  lemma BlockFacts<V>(ops: Ops<V>, code: V -> bf16, e: seq<V>, b: nat)
    requires 32 * b + 32 <= |e| && AllFinite(code, e) && FromZero(ops, e)
    ensures AllFinite(code, Block(e, b)) && ops.max(ops.zero, Block(e, b)[0]) == Block(e, b)[0]
  {
    assert forall k :: 0 <= k < 32 ==> Block(e, b)[k] == e[32 * b + k];
  }

  /** Scales and codes after one more block. */
  lemma NextBlock<V>(ops: Ops<V>, code: V -> bf16, e: seq<V>, n: nat, b: nat, em: int)
    requires |e| == 32 * n && b < n && em == Exponent(code(Fold(ops.max, Block(e, b))))
    ensures Scales(ops, code, e, n)[..b + 1] == Scales(ops, code, e, n)[..b] + [em]
    ensures Codes(code, e, Scales(ops, code, e, n), b + 1)
            == Codes(code, e, Scales(ops, code, e, n), b) + CodesOf(code, Block(e, b), em)
  {
    assert Scales(ops, code, e, n)[b] == em;
  }

  lemma BlockExtends<V>(e: seq<V>, b: nat)
    requires 32 * b + 32 <= |e|
    ensures e[..32 * b] + Block(e, b) == e[..32 * (b + 1)]
  {
  }

  /** Pass B of a thread, block by block, with the running sum of the row. */
  method BlocksPass<V(!new)>(ops: Ops<V>, code: V -> bf16, e: seq<V>, n: nat)
    returns (scales: seq<int>, codes: seq<int>, rowsum: V)
    requires Laws(ops) && |e| == 32 * n && AllFinite(code, e) && FromZero(ops, e)
    ensures scales == Scales(ops, code, e, n) && codes == Codes(code, e, scales, n) && rowsum == ChainSum(ops, e)
  {
    ghost var target := Scales(ops, code, e, n);
    scales, codes, rowsum := [], [], ops.zero;
    for b := 0 to n
      invariant scales == target[..b] && codes == Codes(code, e, target, b) && rowsum == ChainSum(ops, e[..32 * b])
    {
      BlockFacts(ops, code, e, b);
      var em, blockCodes := BlockPass(ops, code, Block(e, b));
      NextBlock(ops, code, e, n, b, em);
      rowsum := SumOn(ops, e[..32 * b], rowsum, Block(e, b));
      BlockExtends(e, b);
      scales, codes := scales + [em], codes + blockCodes;
    }
    assert e[..32 * n] == e;
  }

  // ---- what a form leaves behind ------------------------------------------------------------------------

  /** No code needs more than a byte, whatever the value and the scale. */
  lemma CodeIsByte(b: bf16, se: int)
    ensures IsByte(ToE4m3Scaled(b, se))
  {
    FieldBounds(b);
  }

  lemma {:induction false} CodesAreBytes<V>(code: V -> bf16, e: seq<V>, scales: seq<int>, n: nat)
    requires |e| == 32 * |scales| && n <= |scales|
    ensures Bytewise(Codes(code, e, scales, n))
  {
    if n > 0 {
      CodesAreBytes(code, e, scales, n - 1);
      var block, em := Block(e, n - 1), scales[n - 1];
      var codes := CodesOf(code, block, em);
      forall c: nat | c < 32 ensures IsByte(codes[c]) { CodeIsByte(code(block[c]), em - 127); }
    }
  }

  /** The row's words at their tiled places and its scales in their slots, everything else as before. */
  ghost predicate Left(t: Shape, row: nat, codes: seq<int>, scales: seq<int>,
                       spad0: seq<word>, spad: seq<word>, scratch0: seq<int>, scratch: seq<int>) {
    && RowFits(t, codes, row) && |spad0| == |spad| == SpadWords(t) && |scales| == t.n
       && |scratch0| == |scratch| == Items(t)
    && RowStored(t, spad0, spad, codes, row) && ScalesStored(t, scratch0, scratch, scales, row, t.n)
  }

  /** Row `row` of a tile of shape t, its buffers, and the state the row starts from. */
  ghost predicate Ready<V>(ops: Ops<V>, s: seq<V>, t: Shape, row: nat, first: bool, mState: V, spad: array<word>,
                           scratch: array<int>) {
    && IsScores(ops, s, t.n) && row < Tiles.Rows(t) && (first || ops.finite(mState))
    && spad.Length == SpadWords(t) && scratch.Length == Items(t)
  }

  /** Row maximum, then block by block, all in registers; eight words a block. */
  method ThreadPerRow<V(!new)>(ops: Ops<V>, code: V -> bf16, s: seq<V>, t: Shape, row: nat, first: bool, mState: V,
                               lState: V, spad: array<word>, scratch: array<int>) returns (r: Row<V>, l: V)
    requires MonotoneExp(ops, code) && Ready(ops, s, t, row, first, mState, spad, scratch)
    modifies spad, scratch
    ensures r == RowOf(ops, code, s, t.n, first, mState)
    ensures l == Denominator(ops, r.corr, first, lState, ChainSum(ops, Weights(ops, s, first, mState)))
    ensures Left(t, row, r.codes, r.scales, old(spad[..]), spad[..], old(scratch[..]), scratch[..])
  {
    r, l := ThreadPerRowValues(ops, code, s, t.n, first, mState, lState);
    CodesAreBytes(code, Weights(ops, s, first, mState), r.scales, t.n);
    StoreChained(t, r.codes, row, spad);
    StoreScales(t, r.scales, row, scratch);
  }

  method ThreadPerRowValues<V(!new)>(ops: Ops<V>, code: V -> bf16, s: seq<V>, n: nat, first: bool, mState: V, lState: V)
    returns (r: Row<V>, l: V)
    requires MonotoneExp(ops, code) && IsScores(ops, s, n) && (first || ops.finite(mState))
    ensures r == RowOf(ops, code, s, n, first, mState)
    ensures l == Denominator(ops, r.corr, first, lState, ChainSum(ops, Weights(ops, s, first, mState)))
  {
    var x := ScaledRow(ops, s);
    FromBottom(ops, x[0]);
    var rmax := Chain(ops, ops.bottom, x);
    var m := NewMax(ops, rmax, first, mState);
    NewMaxIsAbove(ops, x, first, mState, m);
    ExpsArePositive(ops, code, x, m);
    var scales, codes, rowsum := BlocksPass(ops, code, Exps(ops, x, m), n);
    r := Row(m, Correction(ops, rmax, first, mState), scales, codes);
    l := Denominator(ops, r.corr, first, lState, rowsum);
  }

  // ---- sixteen lanes of contiguous columns --------------------------------------------------------------

  lemma {:induction false} TreeInPart<V>(op: (V, V) -> V, j: nat, s: seq<V>, part: seq<V>, from: nat, off: nat)
    requires from + |part| <= |s| && part == s[from..from + |part|] && off + Pow2(j) <= |part|
    ensures TreeAt(op, j, part, off) == TreeAt(op, j, s, from + off)
    decreases j
  {
    if j > 0 {
      TreeInPart(op, j - 1, s, part, from, off);
      TreeInPart(op, j - 1, s, part, from, off + Pow2(j - 1));
    }
  }

  /** After j levels every aligned group of 2^j lanes has its tree in its first lane. */
  lemma {:induction false} LevelsLeaveTrees<V>(op: (V, V) -> V, k: nat, j: nat, s: seq<V>, off: nat)
    requires |s| == Pow2(k) && j <= k && off < Pow2(k) && Clear(k, j, off)
    ensures off + Pow2(j) <= |s| && Levels(op, k, j, s)[off] == TreeAt(op, j, s, off)
    decreases k
  {
    if j == k {
      LevelsTree(op, k, s);
      TreeOfSlice(op, k, s, 0, s);
    } else {
      var h := Pow2(k - 1);
      LevelsSplit(op, k, j, s);
      if off < h {
        LevelsLeaveTrees(op, k - 1, j, s[..h], off);
        TreeInPart(op, j, s, s[..h], 0, off);
      } else {
        LevelsLeaveTrees(op, k - 1, j, s[h..], off - h);
        TreeInPart(op, j, s, s[h..], h, off - h);
      }
    }
  }

  const SIXTEEN: nat := 4

  lemma LaneGroups(q: nat, b: nat)
    requires q <= SIXTEEN && b < Pow2(SIXTEEN - q)
    ensures Pow2(SIXTEEN) == 16 && Pow2(q) * Pow2(SIXTEEN - q) == 16
    ensures b * Pow2(q) + Pow2(q) <= 16 && Clear(SIXTEEN, q, b * Pow2(q))
  {
    Lanes16();
    Pow2Sum(q, SIXTEEN - q);
    Arith.MulMono(Pow2(SIXTEEN - q), b, Pow2(q));
    Arith.Remainder(b * Pow2(q), Pow2(q), b, 0);
    ClearIsAligned(SIXTEEN, q, b * Pow2(q));
  }

  /** Lane maxima of contiguous columns, the tree within each block's lanes, and the block leaders. */
  function Leaders<V>(ops: Ops<V>, lanes: seq<V>, q: nat): (r: seq<V>)
    requires q <= SIXTEEN && |lanes| == Pow2(SIXTEEN)
    ensures |r| == Pow2(SIXTEEN - q)
  {
    seq(Pow2(SIXTEEN - q), b requires 0 <= b < Pow2(SIXTEEN - q) =>
      LaneGroups(q, b); Levels(ops.max, SIXTEEN, q, lanes)[b * Pow2(q)])
  }

  /** A lane of a block holds its chunk's maximum: the lane starts at column `from`, column o of the block. */
  lemma LaneOfGroup<V(!new)>(ops: Ops<V>, x: seq<V>, c: nat, g: nat, b: nat, lane: nat, i: nat, from: nat, o: nat)
    requires c > 0 && |x| == 16 * c && g * c == 32 && 32 * b + 32 <= |x| && i < g && lane < 16
    requires o == i * c && from == lane * c && from == 32 * b + o && o + c <= 32
    ensures ChunkFolds(ops.max, x, c, 16)[lane] == ChunkFolds(ops.max, Block(x, b), c, g)[i]
  {
    ChunkFoldsFrom(ops.max, x, c, 16, lane, from);
    ChunkFoldsFrom(ops.max, Block(x, b), c, g, i, o);
    PartOfBlock(x, b, o, c, from);
  }

  lemma PartOfBlock<V>(x: seq<V>, b: nat, o: nat, c: nat, at: nat)
    requires 32 * b + 32 <= |x| && o + c <= 32 && at == 32 * b + o
    ensures x[at..at + c] == Block(x, b)[o..o + c]
  {
    var own, block := x[at..at + c], Block(x, b);
    var part := block[o..o + c];
    forall k | 0 <= k < c ensures own[k] == part[k] { assert block[o + k] == x[32 * b + (o + k)]; }
  }

  lemma PartIs<V>(s: seq<V>, part: seq<V>, at: nat)
    requires at + |part| <= |s| && forall i: nat :: i < |part| ==> s[at + i] == part[i]
    ensures s[at..at + |part|] == part
  {
  }

  /** The lanes of a block hold the maxima of its chunks. */
  lemma LanesOfBlock<V(!new)>(ops: Ops<V>, x: seq<V>, c: nat, g: nat, b: nat, at: nat)
    requires c > 0 && c * g == 32 && |x| == 16 * c && at == b * g && at + g <= 16
    ensures 32 * b + 32 <= |x| && g * c == 32
    ensures ChunkFolds(ops.max, x, c, 16)[at..at + g] == ChunkFolds(ops.max, Block(x, b), c, g)
  {
    GroupColumns(c, g, b);
    var lanes, chunks := ChunkFolds(ops.max, x, c, 16), ChunkFolds(ops.max, Block(x, b), c, g);
    forall i: nat | i < g ensures lanes[at + i] == chunks[i] {
      GroupColumn(c, g, b, i);
      LaneOfGroup(ops, x, c, g, b, at + i, i, (at + i) * c, i * c);
    }
    PartIs(lanes, chunks, at);
  }

  lemma BlockOfChunks<V(!new)>(ops: Ops<V>, block: seq<V>, c: nat, g: nat)
    requires Laws(ops) && c > 0 && g > 0 && g * c == 32 == |block|
    ensures Fold(ops.max, ChunkFolds(ops.max, block, c, g)) == Fold(ops.max, block)
  {
    ChunksFold(ops.max, block, c, g);
  }

  /** A block leader holds the block's maximum. */
  lemma LeaderIsBlockMax<V(!new)>(ops: Ops<V>, x: seq<V>, c: nat, q: nat, b: nat)
    requires Laws(ops) && q <= SIXTEEN && c * Pow2(q) == 32 && c > 0 && b < Pow2(SIXTEEN - q) && |x| == 16 * c
    ensures Pow2(SIXTEEN) == 16 && 32 * b + 32 <= |x|
    ensures Leaders(ops, ChunkFolds(ops.max, x, c, 16), q)[b] == Fold(ops.max, Block(x, b))
  {
    LaneGroups(q, b);
    var g, off, lanes := Pow2(q), b * Pow2(q), ChunkFolds(ops.max, x, c, 16);
    LanesOfBlock(ops, x, c, g, b, off);
    LevelsLeaveTrees(ops.max, SIXTEEN, q, lanes, off);
    TreeOfSlice(ops.max, q, lanes, off, lanes[off..off + g]);
    TreeIsFold(ops.max, q, lanes[off..off + g]);
    BlockOfChunks(ops, Block(x, b), c, g);
  }

  /** A block's lanes hold its 32 columns. */
  lemma GroupColumns(c: nat, g: nat, b: nat)
    requires c * g == 32 && b * g + g <= 16
    ensures g * c == 32 && b * g * c == 32 * b && 32 * b + 32 <= 16 * c
  {
    assert (b * g + g) * c == 32 * b + 32;
    Arith.MulGe(16, b * g + g, c);
  }

  lemma GroupColumn(c: nat, g: nat, b: nat, i: nat)
    requires c * g == 32 && i < g && c > 0
    ensures (b * g + i) * c == 32 * b + i * c && 0 <= i * c && i * c + c <= 32
  {
    Arith.Distribute(b * g, i, c);
    assert b * g * c == b * (c * g);
    Arith.MulGe(g, i + 1, c);
  }

  /** The chain of a lane over its own columns. */
  method LaneChains<V(!new)>(ops: Ops<V>, x: seq<V>, c: nat) returns (lanes: seq<V>)
    requires Laws(ops) && c > 0 && |x| == 16 * c
    ensures lanes == ChunkFolds(ops.max, x, c, 16)
  {
    lanes := [];
    for lane := 0 to 16
      invariant (lane + 1) * c <= 16 * c || lane == 16
      invariant lane * c <= |x| && lanes == ChunkFolds(ops.max, x, c, lane)
    {
      ChunkStep(lane + 1, c);
      Arith.MulGe(16, lane + 1, c);
      if lane + 2 <= 16 { Arith.MulGe(16, lane + 2, c); }
      var own := x[lane * c..(lane + 1) * c];
      FromBottom(ops, own[0]);
      var lmax := Chain(ops, ops.bottom, own);
      lanes := lanes + [lmax];
    }
  }

  /** The largest of the blocks' maxima is the row's. */
  lemma BlockMaximaFold<V(!new)>(ops: Ops<V>, x: seq<V>, leaders: seq<V>, n: nat)
    requires Laws(ops) && n > 0 && |x| == 32 * n && |leaders| == n
             && forall b: nat :: b < n ==> leaders[b] == Fold(ops.max, Block(x, b))
    ensures Fold(ops.max, leaders) == Fold(ops.max, x)
  {
    var chunks := ChunkFolds(ops.max, x, 32, n);
    forall b: nat | b < n ensures leaders[b] == chunks[b] { ChunkFoldsAt(ops.max, x, 32, n, b); }
    assert leaders == chunks;
    ChunksFold(ops.max, x, 32, n);
  }

  lemma RowMaxOfLeaders<V(!new)>(ops: Ops<V>, x: seq<V>, c: nat, q: nat, n: nat)
    requires Laws(ops) && q <= SIXTEEN && n == Pow2(SIXTEEN - q) && c * Pow2(q) == 32 && c > 0
             && |x| == 16 * c == 32 * n
    ensures Pow2(SIXTEEN) == 16 && Fold(ops.max, Leaders(ops, ChunkFolds(ops.max, x, c, 16), q)) == Fold(ops.max, x)
  {
    LeadersAreBlockMaxima(ops, x, c, q, n);
    BlockMaximaFold(ops, x, Leaders(ops, ChunkFolds(ops.max, x, c, 16), q), n);
  }

  /** A block's scale from its largest score is the scale from its largest weight. */
  lemma ScaleFromScore<V(!new)>(ops: Ops<V>, code: V -> bf16, x: seq<V>, m: V, b: nat)
    requires MonotoneExp(ops, code) && 32 * b + 32 <= |x| && FiniteAll(ops, x) && ops.finite(m)
    ensures ops.exp(ops.sub(Fold(ops.max, Block(x, b)), m)) == Fold(ops.max, Block(Exps(ops, x, m), b))
  {
    ExpOfFold(ops, code, Block(x, b), m);
    assert Exps(ops, Block(x, b), m) == Block(Exps(ops, x, m), b);
  }

  lemma {:induction false} CodesAt<V>(code: V -> bf16, e: seq<V>, scales: seq<int>, n: nat, i: nat)
    requires |e| == 32 * |scales| && n <= |scales| && i < 32 * n
    ensures Codes(code, e, scales, n)[i] == ToE4m3Scaled(code(e[i]), scales[i / 32] - 127)
  {
    if i < 32 * (n - 1) {
      CodesAt(code, e, scales, n - 1, i);
    } else {
      assert i / 32 == n - 1 && Block(e, n - 1)[i - 32 * (n - 1)] == e[i];
    }
  }

  lemma Reassociate(b: int, g: int, c: int)
    ensures b * g * c == b * (c * g)
  {
  }

  lemma Factor(c: nat, g: nat)
    requires c * g == 32
    ensures g > 0 && g * c == 32
  {
  }

  /** A lane's columns lie in its own block. */
  lemma ColumnBlock(b: nat, rest: nat, column: nat)
    requires column == 32 * b + rest && rest < 32
    ensures column / 32 == b
  {
  }

  /** The codes of all lanes' columns, each with its block's scale. */
  method LaneCodes<V(!new)>(code: V -> bf16, e: seq<V>, scales: seq<int>, c: nat, g: nat) returns (codes: seq<int>)
    requires c * g == 32 && c > 0 && |e| == 16 * c == 32 * |scales|
    ensures codes == Codes(code, e, scales, |scales|)
  {
    ghost var target := Codes(code, e, scales, |scales|);
    codes := [];
    for lane := 0 to 16
      invariant lane * c <= 16 * c && codes == target[..lane * c]
    {
      ChunkStep(lane + 1, c);
      Arith.MulGe(16, lane + 1, c);
      LaneInBlock(c, g, lane);
      var own := LaneOwnCodes(code, e, scales, lane * c, c, Arith.Div(lane, g));
      codes := codes + own;
    }
    assert target[..16 * c] == target;
  }

  /** A lane's columns are all in its block. */
  lemma LaneInBlock(c: nat, g: nat, lane: nat)
    requires c * g == 32 && c > 0 && lane < 16
    ensures g > 0 && 32 * Arith.Div(lane, g) <= lane * c && lane * c + c <= 32 * Arith.Div(lane, g) + 32
  {
    Factor(c, g);
    Arith.DivMod(lane, g);
    var b, r := Arith.Div(lane, g), Arith.Mod(lane, g);
    Arith.Distribute(b * g, r, c);
    Reassociate(b, g, c);
    Arith.MulGe(r, 0, c);
    Arith.MulGe(g, r + 1, c);
    Arith.Distribute(r, 1, c);
  }

  /** The codes of one lane's columns, from column `at` on. */
  method LaneOwnCodes<V(!new)>(code: V -> bf16, e: seq<V>, scales: seq<int>, at: nat, count: nat, b: nat)
    returns (own: seq<int>)
    requires |e| == 32 * |scales| && at + count <= |e| && b < |scales| && 32 * b <= at && at + count <= 32 * b + 32
    ensures own == Codes(code, e, scales, |scales|)[at..at + count]
  {
    ghost var target := Codes(code, e, scales, |scales|);
    own := [];
    for i := 0 to count
      invariant own == target[at..at + i]
    {
      CodesAt(code, e, scales, |scales|, at + i);
      ColumnBlock(b, at + i - 32 * b, at + i);
      own := own + [ToE4m3Scaled(code(e[at + i]), scales[b] - 127)];
    }
  }

  /** Every block's scale from its leader's score. */
  method LeaderScales<V(!new)>(ops: Ops<V>, code: V -> bf16, x: seq<V>, leaders: seq<V>, n: nat, m: V)
    returns (scales: seq<int>)
    requires MonotoneExp(ops, code) && |x| == 32 * n && |leaders| == n && FiniteAll(ops, x) && ops.finite(m)
    requires forall b: nat :: b < n ==> leaders[b] == Fold(ops.max, Block(x, b))
    ensures scales == Scales(ops, code, Exps(ops, x, m), n)
  {
    ghost var target := Scales(ops, code, Exps(ops, x, m), n);
    scales := [];
    for b := 0 to n
      invariant scales == target[..b]
    {
      ScaleFromScore(ops, code, x, m, b);
      scales := scales + [Exponent(code(ops.exp(ops.sub(leaders[b], m))))];
    }
  }

  lemma LeadersAreBlockMaxima<V(!new)>(ops: Ops<V>, x: seq<V>, c: nat, q: nat, n: nat)
    requires Laws(ops) && q <= SIXTEEN && n == Pow2(SIXTEEN - q) && c * Pow2(q) == 32 && c > 0
             && |x| == 16 * c == 32 * n
    ensures Pow2(SIXTEEN) == 16
    ensures forall b: nat :: b < n ==> Leaders(ops, ChunkFolds(ops.max, x, c, 16), q)[b] == Fold(ops.max, Block(x, b))
  {
    Lanes16();
    forall b: nat | b < n ensures Leaders(ops, ChunkFolds(ops.max, x, c, 16), q)[b] == Fold(ops.max, Block(x, b)) {
      LeaderIsBlockMax(ops, x, c, q, b);
    }
  }

  /** Sixteen lanes, each with c contiguous columns, 2^q lanes to a block; c / 4 words a lane. */
  method FusedRow<V(!new)>(ops: Ops<V>, code: V -> bf16, s: seq<V>, q: nat, c: nat, t: Shape, row: nat, first: bool,
                           mState: V, lState: V, spad: array<word>, scratch: array<int>) returns (r: Row<V>, l: V)
    requires MonotoneExp(ops, code) && Ready(ops, s, t, row, first, mState, spad, scratch) && LanesShare(s, q, c, t.n)
             && c % 4 == 0
    modifies spad, scratch
    ensures r == RowOf(ops, code, s, t.n, first, mState)
    ensures l == Denominator(ops, r.corr, first, lState, LaneTreeSum(ops, Weights(ops, s, first, mState), c))
    ensures Left(t, row, r.codes, r.scales, old(spad[..]), spad[..], old(scratch[..]), scratch[..])
  {
    r, l := FusedRowValues(ops, code, s, q, c, t.n, first, mState, lState);
    CodesAreBytes(code, Weights(ops, s, first, mState), r.scales, t.n);
    StoreLanes(t, r.codes, row, c, spad);
    StoreScales(t, r.scales, row, scratch);
  }

  /** Sixteen lanes of c columns share n blocks, 2^q lanes to a block. */
  predicate LanesShare<V>(s: seq<V>, q: nat, c: nat, n: nat) {
    q <= SIXTEEN && n == Pow2(SIXTEEN - q) && c * Pow2(q) == 32 && c > 0 && |s| == 16 * c
  }

  method FusedRowValues<V(!new)>(ops: Ops<V>, code: V -> bf16, s: seq<V>, q: nat, c: nat, n: nat, first: bool,
                                 mState: V, lState: V) returns (r: Row<V>, l: V)
    requires MonotoneExp(ops, code) && IsScores(ops, s, n) && (first || ops.finite(mState)) && LanesShare(s, q, c, n)
    ensures r == RowOf(ops, code, s, n, first, mState)
    ensures l == Denominator(ops, r.corr, first, lState, LaneTreeSum(ops, Weights(ops, s, first, mState), c))
  {
    Lanes16();
    var x := ScaledRow(ops, s);
    var lanes := LaneChains(ops, x, c);
    var leaders := Leaders(ops, lanes, q);
    FromBottom(ops, leaders[0]);
    var rmax := Chain(ops, ops.bottom, leaders);
    RowMaxOfLeaders(ops, x, c, q, n);
    var m := NewMax(ops, rmax, first, mState);
    NewMaxIsAbove(ops, x, first, mState, m);
    LeadersAreBlockMaxima(ops, x, c, q, n);
    var scales := LeaderScales(ops, code, x, leaders, n, m);
    var e := Exps(ops, x, m);
    var codes := LaneCodes(code, e, scales, c, Pow2(q));
    var sums := SumColumns(ops, e, c);
    r := Row(m, Correction(ops, rmax, first, mState), scales, codes);
    l := Denominator(ops, r.corr, first, lState, Tree(ops.add, 4, sums));
  }

  // ---- softmax and requantization as separate passes ----------------------------------------------------

  /** x is at most y. */
  ghost predicate Le<V>(ops: Ops<V>, x: V, y: V) {
    ops.max(x, y) == y
  }

  lemma LeMax<V(!new)>(ops: Ops<V>, x: V, y: V, u: V)
    requires Laws(ops)
    ensures Le(ops, x, ops.max(x, y)) && Le(ops, y, ops.max(x, y))
    ensures Le(ops, x, u) && Le(ops, y, u) ==> Le(ops, ops.max(x, y), u)
    ensures Le(ops, x, y) && Le(ops, y, u) ==> Le(ops, x, u)
    ensures Le(ops, x, y) && Le(ops, y, x) ==> x == y
  {
    assert Identity(ops.max, ops.bottom, x) && Identity(ops.max, ops.bottom, y);
    assert Associate(ops.max, x, x, y) && Associate(ops.max, y, y, x) && Commute(ops.max, x, y);
    assert Associate(ops.max, x, y, u);
  }

  lemma {:induction false} FoldIsUpper<V(!new)>(ops: Ops<V>, x: seq<V>, i: nat)
    requires Laws(ops) && i < |x|
    ensures Le(ops, x[i], Fold(ops.max, x))
  {
    if |x| == 1 {
      assert Identity(ops.max, ops.bottom, x[0]);
    } else {
      var y, last := x[..|x| - 1], x[|x| - 1];
      LeMax(ops, Fold(ops.max, y), last, Fold(ops.max, x));
      if i < |y| {
        FoldIsUpper(ops, y, i);
        LeMax(ops, x[i], Fold(ops.max, y), Fold(ops.max, x));
      }
    }
  }

  lemma {:induction false} FoldIsLeast<V(!new)>(ops: Ops<V>, x: seq<V>, u: V)
    requires Laws(ops) && |x| > 0 && forall i :: 0 <= i < |x| ==> Le(ops, x[i], u)
    ensures Le(ops, Fold(ops.max, x), u)
  {
    if |x| > 1 {
      var y := x[..|x| - 1];
      assert forall i :: 0 <= i < |y| ==> y[i] == x[i];
      FoldIsLeast(ops, y, u);
      LeMax(ops, Fold(ops.max, y), x[|x| - 1], u);
    }
  }

  /** Two scores to a word. */
  function Words<V>(s: seq<V>, n: nat): (r: seq<(V, V)>)
    requires |s| == 32 * n
    ensures |r| == n * NT && forall i :: 0 <= i < |r| ==> r[i] == (s[2 * i], s[2 * i + 1])
  {
    seq(n * NT, i requires 0 <= i < n * NT => (s[2 * i], s[2 * i + 1]))
  }

  /** A lane's words below u leave its maximum below u. */
  lemma {:induction false} LaneBelow<V(!new)>(ops: Ops<V>, row: seq<(V, V)>, n: nat, lane: nat, j: nat, u: V)
    requires Laws(ops) && IsRow(row, n) && j <= n && lane < NT
    requires forall k: nat :: k < j ==> Le(ops, WordMax(ops, false, row, n, lane, k), u)
    ensures Le(ops, LaneMax(ops, false, row, n, lane, j), u)
  {
    if j == 0 {
      FromBottom(ops, u);
    } else {
      LaneBelow(ops, row, n, lane, j - 1, u);
      LeMax(ops, WordMax(ops, false, row, n, lane, j - 1), LaneMax(ops, false, row, n, lane, j - 1), u);
    }
  }

  lemma WordIsBelow<V(!new)>(ops: Ops<V>, s: seq<V>, n: nat, lane: nat, j: nat, u: V)
    requires Laws(ops) && |s| == 32 * n && j < n && lane < NT
    requires forall i :: 0 <= i < |s| ==> Le(ops, ScaledRow(ops, s)[i], u)
    ensures Le(ops, WordMax(ops, false, Words(s, n), n, lane, j), u)
  {
    WordColumns(s, n, j, lane);
    var c, x := 32 * j + 2 * lane, ScaledRow(ops, s);
    assert Le(ops, x[c], u) && Le(ops, x[c + 1], u);
    LeMax(ops, x[c], x[c + 1], u);
  }

  /** A word's larger score is at most its lane's maximum. */
  lemma {:induction false} WordBelow<V(!new)>(ops: Ops<V>, row: seq<(V, V)>, n: nat, lane: nat, j: nat, k: nat)
    requires Laws(ops) && IsRow(row, n) && k < j <= n && lane < NT
    ensures Le(ops, WordMax(ops, false, row, n, lane, k), LaneMax(ops, false, row, n, lane, j))
  {
    var w, before := WordMax(ops, false, row, n, lane, j - 1), LaneMax(ops, false, row, n, lane, j - 1);
    LeMax(ops, w, before, w);
    if k < j - 1 {
      WordBelow(ops, row, n, lane, j - 1, k);
      LeMax(ops, WordMax(ops, false, row, n, lane, k), before, ops.max(w, before));
    }
  }

  lemma ScoreBelow<V(!new)>(ops: Ops<V>, s: seq<V>, n: nat, c: nat, t: V)
    requires Laws(ops) && |s| == 32 * n && c < |s| && t == Fold(ops.max, LaneMaxima(ops, false, Words(s, n), n))
    ensures Le(ops, ScaledRow(ops, s)[c], t)
  {
    var i := c / 2;
    var j, lane := i / NT, i % NT;
    assert j * NT + lane == i && j < n;
    var x, m := ScaledRow(ops, s), LaneMax(ops, false, Words(s, n), n, lane, n);
    InWord(ops, s, n, j, lane, c);
    WordBelow(ops, Words(s, n), n, lane, n, j);
    FoldIsUpper(ops, LaneMaxima(ops, false, Words(s, n), n), lane);
    LeMax(ops, x[c], WordMax(ops, false, Words(s, n), n, lane, j), m);
    LeMax(ops, x[c], m, t);
  }

  lemma InWord<V(!new)>(ops: Ops<V>, s: seq<V>, n: nat, j: nat, lane: nat, c: nat)
    requires Laws(ops) && |s| == 32 * n && j < n && lane < NT && c < |s| && c / 2 == j * NT + lane
    ensures Le(ops, ScaledRow(ops, s)[c], WordMax(ops, false, Words(s, n), n, lane, j))
  {
    var i, x := c / 2, ScaledRow(ops, s);
    assert c == 2 * i || c == 2 * i + 1;
    WordColumns(s, n, j, lane);
    LeMax(ops, x[2 * i], x[2 * i + 1], x[c]);
  }

  /** Strided lanes and a tree find the same maximum as one chain over the row. */
  lemma StridedMaximum<V(!new)>(ops: Ops<V>, s: seq<V>, n: nat)
    requires Laws(ops) && IsScores(ops, s, n)
    ensures NT == Pow2(4) && Tree(ops.max, 4, LaneMaxima(ops, false, Words(s, n), n))
            == Fold(ops.max, ScaledRow(ops, s))
  {
    Lanes16();
    var lanes, x := LaneMaxima(ops, false, Words(s, n), n), ScaledRow(ops, s);
    TreeIsFold(ops.max, 4, lanes);
    var t, u := Fold(ops.max, lanes), Fold(ops.max, x);
    forall c: nat | c < |x| ensures Le(ops, x[c], t) { ScoreBelow(ops, s, n, c, t); }
    FoldIsLeast(ops, x, t);
    forall c: nat | c < |x| ensures Le(ops, x[c], u) { FoldIsUpper(ops, x, c); }
    forall lane: nat | lane < NT ensures Le(ops, lanes[lane], u) {
      forall k: nat | k < n ensures Le(ops, WordMax(ops, false, Words(s, n), n, lane, k), u) {
        WordIsBelow(ops, s, n, lane, k, u);
      }
      LaneBelow(ops, Words(s, n), n, lane, n, u);
    }
    FoldIsLeast(ops, lanes, u);
    LeMax(ops, t, u, u);
  }

  /** The probabilities read back from the softmax buffer, column by column. */
  function Columns<V>(p: seq<(V, V)>): (r: seq<V>)
    ensures |r| == 2 * |p| && forall c :: 0 <= c < |r| ==> r[c] == if c % 2 == 0 then p[c / 2].0 else p[c / 2].1
  {
    seq(2 * |p|, c requires 0 <= c < 2 * |p| => if c % 2 == 0 then p[c / 2].0 else p[c / 2].1)
  }

  lemma ColumnsAreExps<V>(ops: Ops<V>, s: seq<V>, n: nat, m: V)
    requires |s| == 32 * n
    ensures Columns(Probs(ops, Words(s, n), m)) == Exps(ops, ScaledRow(ops, s), m)
  {
    var p, e := Columns(Probs(ops, Words(s, n), m)), Exps(ops, ScaledRow(ops, s), m);
    forall c | 0 <= c < |p| ensures p[c] == e[c] {
      assert c == 2 * (c / 2) + c % 2;
    }
  }

  /** A block as the softmax stores it: two codes to a word, low half first. */
  function CodeWords<V>(code: V -> bf16, block: seq<V>): (r: seq<word>)
    requires |block| == 32
    ensures |r| == 16 && forall j :: 0 <= j < 16 ==> r[j] == CodeWord(code(block[2 * j]), code(block[2 * j + 1]))
  {
    seq(16, j requires 0 <= j < 16 => CodeWord(code(block[2 * j]), code(block[2 * j + 1])))
  }

  function CodeWord(low: bf16, high: bf16): (w: word)
    ensures LowHalf(w) == low && HighHalf(w) == high
  {
    low + 0x1_0000 * high
  }

  lemma ElementIsCode<V>(code: V -> bf16, block: seq<V>, i: nat)
    requires |block| == 32 && i < 32
    ensures Requant.Element(CodeWords(code, block), i) == code(block[i])
  {
  }

  lemma CodesAreProbabilities<V>(code: V -> bf16, block: seq<V>)
    requires |block| == 32 && AllFinite(code, block)
    ensures Requant.Probabilities(CodeWords(code, block))
  {
    forall i: nat | i < 32 ensures Requant.Element(CodeWords(code, block), i) < 0x7F80 {
      ElementIsCode(code, block, i);
    }
  }

  /** The largest code is the code of the largest value. */
  lemma {:induction false} MaxElementIsFold<V(!new)>(ops: Ops<V>, code: V -> bf16, block: seq<V>, words: seq<word>,
                                                     k: nat)
    requires MonotoneExp(ops, code) && |block| == 32 && AllFinite(code, block) && words == CodeWords(code, block)
             && 0 < k <= 32
    ensures Requant.MaxElement(words, k) == code(Fold(ops.max, block[..k])) < 0x7F80
  {
    CodesAreProbabilities(code, block);
    Requant.MaxElementBounds(words, k);
    ElementIsCode(code, block, k - 1);
    if k > 1 {
      MaxElementIsFold(ops, code, block, words, k - 1);
      assert block[..k][..k - 1] == block[..k - 1];
      assert MaxOfCodes(ops, code, Fold(ops.max, block[..k - 1]), block[k - 1]);
    } else {
      assert block[..1] == [block[0]];
    }
  }

  lemma BlockMaximum<V(!new)>(ops: Ops<V>, code: V -> bf16, block: seq<V>)
    requires MonotoneExp(ops, code) && |block| == 32 && AllFinite(code, block)
    ensures Requant.MaxElement(CodeWords(code, block), 32) == code(Fold(ops.max, block))
  {
    MaxElementIsFold(ops, code, block, CodeWords(code, block), 32);
    assert block[..32] == block;
  }

  /** The branching path's codes of a block of words. */
  method EncodeWords<V>(code: V -> bf16, block: seq<V>, words: seq<word>, em: int) returns (codes: seq<int>)
    requires |block| == 32 && words == CodeWords(code, block)
    ensures codes == CodesOf(code, block, em)
  {
    codes := [];
    ghost var target := CodesOf(code, block, em);
    for k := 0 to 32
      invariant codes == target[..k]
    {
      ElementIsCode(code, block, k);
      codes := codes + [ToE4m3Scaled(Requant.Element(words, k), em - 127)];
    }
  }

  /** The branching path on one block: two chains of magnitudes, and the codes of the halves of each word. */
  method RequantBlock<V(!new)>(ops: Ops<V>, code: V -> bf16, block: seq<V>) returns (em: int, codes: seq<int>)
    requires MonotoneExp(ops, code) && |block| == 32 && AllFinite(code, block)
    ensures em == Exponent(code(Fold(ops.max, block))) && codes == CodesOf(code, block, em)
  {
    var words := CodeWords(code, block);
    CodesAreProbabilities(code, block);
    BlockMaximum(ops, code, block);
    var bmax := Requant.LegacyBlockMax(words);
    em := Exponent(bmax);
    codes := EncodeWords(code, block, words, em);
  }

  /** Requantization of a stored row: per block the largest value, its scale, and the codes. */
  method RequantRow<V(!new)>(ops: Ops<V>, code: V -> bf16, e: seq<V>, n: nat)
    returns (scales: seq<int>, codes: seq<int>)
    requires MonotoneExp(ops, code) && |e| == 32 * n && AllFinite(code, e) && FromZero(ops, e)
    ensures scales == Scales(ops, code, e, n) && codes == Codes(code, e, scales, n)
  {
    ghost var target := Scales(ops, code, e, n);
    scales, codes := [], [];
    for b := 0 to n
      invariant scales == target[..b] && codes == Codes(code, e, target, b)
    {
      BlockFacts(ops, code, e, b);
      var em, blockCodes := RequantBlock(ops, code, Block(e, b));
      NextBlock(ops, code, e, n, b, em);
      scales, codes := scales + [em], codes + blockCodes;
    }
  }

  /** The cooperative lanes' chains of maxima, over words dealt out in turn. */
  method CooperativeMaxima<V>(ops: Ops<V>, words: seq<(V, V)>, n: nat) returns (lanes: seq<V>)
    requires IsRow(words, n)
    ensures lanes == LaneMaxima(ops, false, words, n)
  {
    lanes := [];
    for lane := 0 to NT
      invariant lanes == LaneMaxima(ops, false, words, n)[..lane]
    {
      var mloc := ops.bottom;
      for j := 0 to n
        invariant mloc == LaneMax(ops, false, words, n, lane, j)
      {
        mloc := ops.max(WordMax(ops, false, words, n, lane, j), mloc);
      }
      lanes := lanes + [mloc];
    }
  }

  lemma WordColumns<V>(s: seq<V>, n: nat, j: nat, lane: nat)
    requires |s| == 32 * n && j < n && lane < NT
    ensures 32 * j + 2 * lane + 1 < |s|
    ensures WordAt(Words(s, n), n, j, lane) == (s[32 * j + 2 * lane], s[32 * j + 2 * lane + 1])
  {
    WordInRow(n, j, lane);
  }

  /** The lane's word of round j is two columns of e. */
  ghost predicate PairIs<V>(ops: Ops<V>, row: seq<(V, V)>, n: nat, m: V, e: seq<V>, lane: nat, j: nat)
    requires IsRow(row, n) && |e| == 32 * n && j < n && lane < NT
  {
    var w := WordAt(row, n, j, lane);
    Prob(ops, w.0, m) == e[32 * j + 2 * lane] && Prob(ops, w.1, m) == e[32 * j + 2 * lane + 1]
  }

  /** A cooperative lane sums the weights of every sixteenth pair of columns. */
  lemma {:induction false} LaneSumIsStrided<V>(ops: Ops<V>, row: seq<(V, V)>, e: seq<V>, n: nat, m: V, lane: nat,
                                               j: nat)
    requires IsRow(row, n) && |e| == 32 * n && j <= n && lane < NT
    requires forall k: nat :: k < n ==> PairIs(ops, row, n, m, e, lane, k)
    ensures LaneSum(ops, row, n, m, lane, j) == StridedSum(ops, e, lane, j)
  {
    if j > 0 {
      LaneSumIsStrided(ops, row, e, n, m, lane, j - 1);
      assert PairIs(ops, row, n, m, e, lane, j - 1);
    }
  }

  lemma LaneSumsAreStrided<V>(ops: Ops<V>, s: seq<V>, n: nat, m: V)
    requires |s| == 32 * n
    ensures LaneSums(ops, Words(s, n), n, m) == StridedSums(ops, Exps(ops, ScaledRow(ops, s), m), n)
  {
    var e := Exps(ops, ScaledRow(ops, s), m);
    forall lane: nat | lane < NT ensures LaneSums(ops, Words(s, n), n, m)[lane] == StridedSums(ops, e, n)[lane] {
      forall j: nat | j < n ensures PairIs(ops, Words(s, n), n, m, e, lane, j) { WordColumns(s, n, j, lane); }
      LaneSumIsStrided(ops, Words(s, n), e, n, m, lane, n);
    }
  }

  /** The cooperative softmax, then requantization of what it stored; eight words an item, items in any order. */
  method SeparateRow<V(!new)>(ops: Ops<V>, code: V -> bf16, s: seq<V>, t: Shape, row: nat, first: bool, mState: V,
                              lState: V, spad: array<word>, scratch: array<int>) returns (r: Row<V>, l: V)
    requires MonotoneExp(ops, code) && Ready(ops, s, t, row, first, mState, spad, scratch)
    modifies spad, scratch
    ensures r == RowOf(ops, code, s, t.n, first, mState)
    ensures l == Denominator(ops, r.corr, first, lState, StridedTreeSum(ops, Weights(ops, s, first, mState), t.n))
    ensures Left(t, row, r.codes, r.scales, old(spad[..]), spad[..], old(scratch[..]), scratch[..])
  {
    r, l := SeparateRowValues(ops, code, s, t.n, first, mState, lState);
    CodesAreBytes(code, Weights(ops, s, first, mState), r.scales, t.n);
    StoreItems(t, r.codes, row, spad);
    StoreScales(t, r.scales, row, scratch);
  }

  method SeparateRowValues<V(!new)>(ops: Ops<V>, code: V -> bf16, s: seq<V>, n: nat, first: bool, mState: V, lState: V)
    returns (r: Row<V>, l: V)
    requires MonotoneExp(ops, code) && IsScores(ops, s, n) && (first || ops.finite(mState))
    ensures r == RowOf(ops, code, s, n, first, mState)
    ensures l == Denominator(ops, r.corr, first, lState, StridedTreeSum(ops, Weights(ops, s, first, mState), n))
  {
    StridedMaximum(ops, s, n);
    var words := Words(s, n);
    var lanes := CooperativeMaxima(ops, words, n);
    var bmax := Tree(ops.max, 4, lanes);
    var m := NewMax(ops, bmax, first, mState);
    var p, sums := PassB(ops, words, n, m);
    LaneSumsAreStrided(ops, s, n, m);
    ColumnsAreExps(ops, s, n, m);
    NewMaxIsAbove(ops, ScaledRow(ops, s), first, mState, m);
    ExpsArePositive(ops, code, ScaledRow(ops, s), m);
    var scales, codes := RequantRow(ops, code, Columns(p), n);
    r := Row(m, Correction(ops, bmax, first, mState), scales, codes);
    l := Denominator(ops, r.corr, first, lState, Tree(ops.add, 4, sums));
  }

  lemma WordIsFixed(t: Shape, row: nat, codes: seq<int>, spad0: seq<word>, spad: seq<word>, spad': seq<word>, x: nat)
    requires RowFits(t, codes, row) && |spad0| == |spad| == |spad'| == SpadWords(t) && x < SpadWords(t)
    requires RowStored(t, spad0, spad, codes, row) && RowStored(t, spad0, spad', codes, row)
    ensures spad[x] == spad'[x]
  {
    var r, b, u := FastWordOnto(t, x);
    WordAtPlace(t, r, b, u);
    assert PlaceStored(t, spad0, spad, codes, row, r, 8 * b + u)
           && PlaceStored(t, spad0, spad', codes, row, r, 8 * b + u);
  }

  lemma SlotIsFixed(t: Shape, row: nat, scales: seq<int>, scratch0: seq<int>, scratch: seq<int>, scratch': seq<int>,
                    x: nat)
    requires |scales| == t.n && row < Tiles.Rows(t) && |scratch0| == |scratch| == |scratch'| == Items(t) && x < Items(t)
    requires ScalesStored(t, scratch0, scratch, scales, row, t.n)
             && ScalesStored(t, scratch0, scratch', scales, row, t.n)
    ensures scratch[x] == scratch'[x]
  {
    var r, b := ScaleSlotOnto(t, x);
    assert SlotStored(t, scratch0, scratch, scales, row, t.n, r, b)
           && SlotStored(t, scratch0, scratch', scales, row, t.n, r, b);
  }

  /** The three forms leave the same words and scales: what they leave is fixed by the row. */
  lemma SameWords(t: Shape, row: nat, codes: seq<int>, scales: seq<int>, spad0: seq<word>, scratch0: seq<int>,
                  spad: seq<word>, scratch: seq<int>, spad': seq<word>, scratch': seq<int>)
    requires Left(t, row, codes, scales, spad0, spad, scratch0, scratch)
             && Left(t, row, codes, scales, spad0, spad', scratch0, scratch')
    ensures spad == spad' && scratch == scratch'
  {
    forall x: nat | x < |spad| ensures spad[x] == spad'[x] { WordIsFixed(t, row, codes, spad0, spad, spad', x); }
    forall x: nat | x < |scratch| ensures scratch[x] == scratch'[x] {
      SlotIsFixed(t, row, scales, scratch0, scratch, scratch', x);
    }
  }

  /** Column c's code: its score, scaled, less the maximum, exponentiated, scaled by its block's power of two, and
      encoded by the branching encoder. */
  ghost predicate ColumnIs<V>(ops: Ops<V>, code: V -> bf16, s: seq<V>, r: Row<V>, c: nat)
    requires c < |s| == |r.codes| == 32 * |r.scales|
  {
    var e := code(ops.exp(ops.sub(ops.mul(s[c], ops.scale), r.m)));
    r.codes[c] == ToE4m3(false, ScalePow2(e, 127 - r.scales[c / 32]))
  }

  /** Block b's scale: the exponent field of the largest weight, which is that of its largest score. */
  ghost predicate ScaleIs<V>(ops: Ops<V>, code: V -> bf16, s: seq<V>, r: Row<V>, b: nat)
    requires b < |r.scales| && |s| == 32 * |r.scales|
  {
    var scores := seq(32, c requires 0 <= c < 32 => ops.mul(s[32 * b + c], ops.scale));
    r.scales[b] == Exponent(code(ops.exp(ops.sub(Fold(ops.max, scores), r.m))))
  }

  /** MAIN RESULT.  What a row becomes, whatever is rounded: the larger of the state's maximum and the row's, the
      exponential of the old maximum less the new one, and every block's scale and every column's code. */
  lemma RowIs<V(!new)>(ops: Ops<V>, code: V -> bf16, s: seq<V>, n: nat, first: bool, mState: V, x: seq<V>, r: Row<V>)
    requires MonotoneExp(ops, code) && IsScores(ops, s, n) && (first || ops.finite(mState))
    requires |x| == |s| && forall c :: 0 <= c < |s| ==> x[c] == ops.mul(s[c], ops.scale)
    requires r == RowOf(ops, code, s, n, first, mState)
    ensures r.m == if first then Fold(ops.max, x) else ops.max(mState, Fold(ops.max, x))
    ensures r.corr == ops.exp(ops.sub(if first then Fold(ops.max, x) else mState, r.m))
    ensures |r.scales| == n && |r.codes| == 32 * n
    ensures forall b: nat :: b < n ==> ScaleIs(ops, code, s, r, b)
    ensures forall c: nat :: c < 32 * n ==> ColumnIs(ops, code, s, r, c)
  {
    assert x == ScaledRow(ops, s);
    var rmax := Fold(ops.max, x);
    if first { assert Identity(ops.max, ops.bottom, rmax); }
    NewMaxIsAbove(ops, x, first, mState, r.m);
    forall b: nat | b < n ensures ScaleIs(ops, code, s, r, b) { ScaleHolds(ops, code, s, n, x, r, b); }
    forall c: nat | c < 32 * n ensures ColumnIs(ops, code, s, r, c) { ColumnHolds(ops, code, s, n, x, r, c); }
  }

  lemma ScaleHolds<V(!new)>(ops: Ops<V>, code: V -> bf16, s: seq<V>, n: nat, x: seq<V>, r: Row<V>, b: nat)
    requires MonotoneExp(ops, code) && IsScores(ops, s, n) && ops.finite(r.m) && x == ScaledRow(ops, s) && b < n
    requires r.scales == Scales(ops, code, Exps(ops, x, r.m), n)
    ensures ScaleIs(ops, code, s, r, b)
  {
    BlockScale(ops, code, s, n, x, r.m, b);
  }

  lemma ColumnHolds<V(!new)>(ops: Ops<V>, code: V -> bf16, s: seq<V>, n: nat, x: seq<V>, r: Row<V>, c: nat)
    requires MonotoneExp(ops, code) && IsScores(ops, s, n) && ops.finite(r.m) && x == ScaledRow(ops, s) && c < 32 * n
    requires |r.scales| == n && r.codes == Codes(code, Exps(ops, x, r.m), r.scales, n) && Le(ops, x[c], r.m)
    ensures ColumnIs(ops, code, s, r, c)
  {
    ColumnCode(ops, code, s, n, x, r.m, r.scales, c);
  }

  lemma BlockScale<V(!new)>(ops: Ops<V>, code: V -> bf16, s: seq<V>, n: nat, x: seq<V>, m: V, b: nat)
    requires MonotoneExp(ops, code) && IsScores(ops, s, n) && ops.finite(m) && x == ScaledRow(ops, s) && b < n
    ensures var scores := seq(32, c requires 0 <= c < 32 => ops.mul(s[32 * b + c], ops.scale));
            Scales(ops, code, Exps(ops, x, m), n)[b] == Exponent(code(ops.exp(ops.sub(Fold(ops.max, scores), m))))
  {
    var scores := seq(32, c requires 0 <= c < 32 => ops.mul(s[32 * b + c], ops.scale));
    ScaleFromScore(ops, code, x, m, b);
    assert scores == Block(x, b);
  }

  lemma ColumnCode<V(!new)>(ops: Ops<V>, code: V -> bf16, s: seq<V>, n: nat, x: seq<V>, m: V, scales: seq<int>, c: nat)
    requires MonotoneExp(ops, code) && IsScores(ops, s, n) && ops.finite(m) && x == ScaledRow(ops, s) && c < 32 * n
    requires |scales| == n && Le(ops, x[c], m)
    ensures Codes(code, Exps(ops, x, m), scales, n)[c]
            == ToE4m3(false, ScalePow2(code(ops.exp(ops.sub(ops.mul(s[c], ops.scale), m))), 127 - scales[c / 32]))
  {
    CodesAt(code, Exps(ops, x, m), scales, n, c);
    assert Positive(ops, code, x[c], m);
    ScaledIsScaleThenEncode(code(Exps(ops, x, m)[c]), scales[c / 32] - 127);
  }

  /** With exact addition the three forms leave the same denominator. */
  lemma DenominatorsAgree<V(!new)>(ops: Ops<V>, s: seq<V>, c: nat, n: nat, first: bool, mState: V, corr: V, lState: V)
    requires ExactAddition(ops) && IsScores(ops, s, n) && 16 * c == 32 * n
    ensures var e := Weights(ops, s, first, mState);
            Denominator(ops, corr, first, lState, LaneTreeSum(ops, e, c))
            == Denominator(ops, corr, first, lState, ChainSum(ops, e))
            == Denominator(ops, corr, first, lState, StridedTreeSum(ops, e, n))
  {
    var e := Weights(ops, s, first, mState);
    LanesSumToChain(ops, e, c);
    StridedSumToChain(ops, e, n);
  }

  // ---- the laws and rounding ----------------------------------------------------------------------------

  /** Scores and weights with a bottom of their own. */
  datatype Amount = Bottom | Amount(n: int)

  function Part(x: Amount): int { if x.Bottom? then 0 else x.n }

  /** A sum that loses an addend eight times smaller. */
  function Sum(x: Amount, y: Amount): Amount {
    if 0 < Part(y) && Part(x) >= 8 * Part(y) then x else Amount(Part(x) + Part(y))
  }

  function Product(x: Amount, y: Amount): Amount { if x.Bottom? || y.Bottom? then Bottom else Amount(x.n * y.n) }

  /** Subtracting bottom has no answer. */
  function Less(x: Amount, y: Amount): Amount { if x.Bottom? || y.Bottom? then Bottom else Amount(x.n - y.n) }

  function Larger(x: Amount, y: Amount): Amount { if x.Bottom? then y else if y.Bottom? || x.n >= y.n then x else y }

  /** Four steps: nothing, 1, 2 and 4. */
  function Grown(x: Amount): Amount {
    if x.Bottom? then Bottom else Amount(if x.n < -8 then 0 else if x.n < -4 then 1 else if x.n < 0 then 2 else 4)
  }

  function CodeOf(x: Amount): bf16 {
    if Part(x) <= 0 then 0 else if x.n == 1 then 0x3E80 else if x.n == 2 then 0x3F00 else 0x3F80
  }

  predicate IsScore(x: Amount) { x.Amount? }

  predicate IsWeight(x: Amount) { x.Amount? && x.n >= 0 }

  function Amounts(): Ops<Amount> {
    Ops(Product, Less, Sum, Larger, Grown, Bottom, Amount(0), Amount(3), IsScore, IsWeight)
  }

  lemma AmountLaws(ops: Ops<Amount>)
    requires ops == Amounts()
    ensures Laws(ops) && ScalingIsMonotone(ops)
  {
    assert forall x, y, z :: Associate(ops.max, x, y, z);
  }

  lemma AmountsAreMonotone(ops: Ops<Amount>, x: Amount, y: Amount, m: Amount)
    requires ops == Amounts()
    ensures ExpOfMax(ops, x, y, m) && Positive(ops, CodeOf, x, m) && MaxOfCodes(ops, CodeOf, x, y)
  {
  }

  lemma AmountsRound(ops: Ops<Amount>)
    requires ops == Amounts()
    ensures !Associative(ops.add)
  {
    assert !Associate(ops.add, Amount(8), Amount(1), Amount(1));
  }

  /** Operations that round, with a bottom that is not a score, can obey every law asked here while addition is not
      associative and a law fails at the bottom. */
  lemma LawsAllowRounding() returns (ops: Ops<Amount>, code: Amount -> bf16)
    ensures MonotoneExp(ops, code) && ScalingIsMonotone(ops)
    ensures !Associative(ops.add) && !ops.finite(ops.bottom)
    ensures exists y :: ops.add(ops.mul(ops.zero, ops.exp(ops.sub(ops.bottom, ops.bottom))), y) != y
  {
    ops, code := Amounts(), CodeOf;
    AmountLaws(ops);
    AmountsRound(ops);
    forall x, y, m ensures ExpOfMax(ops, x, y, m) { AmountsAreMonotone(ops, x, y, m); }
    forall x, m ensures Positive(ops, code, x, m) { AmountsAreMonotone(ops, x, x, m); }
    forall x, y ensures MaxOfCodes(ops, code, x, y) { AmountsAreMonotone(ops, x, y, x); }
    assert ops.add(ops.mul(ops.zero, ops.exp(ops.sub(ops.bottom, ops.bottom))), Bottom) != Bottom;
  }
}
