/** A row's online softmax over block after block, in any of the forms, for operations that do not round: what the
    maximum, the denominator and the correction of each block are in terms of all scores seen so far. */
module SoftmaxBlocks {
  import opened E4m3
  import opened Fused
  import opened Reduce
  import opened RowSums
  import opened SoftmaxTile
  import opened TwoPass
  import Tiles

  /** On scores below a maximum below a later one, the exponential turns sums into products. */
  ghost predicate SumToProduct<V>(ops: Ops<V>, x: V, m: V, m': V) {
    ops.finite(x) && ops.finite(m) && ops.finite(m') && Le(ops, x, m) && Le(ops, m, m') ==>
      ops.mul(ops.exp(ops.sub(x, m)), ops.exp(ops.sub(m, m'))) == ops.exp(ops.sub(x, m'))
  }

  ghost predicate Distributes<V>(ops: Ops<V>, x: V, y: V, c: V) {
    ops.mul(ops.add(x, y), c) == ops.add(ops.mul(x, c), ops.mul(y, c))
  }

  /** A factor goes in or out of a product. */
  ghost predicate Exchanges<V>(ops: Ops<V>, x: V, v: V, c: V) {
    ops.mul(ops.mul(x, v), c) == ops.mul(ops.mul(x, c), v)
  }

  /** Nothing rounds. */
  ghost predicate Exact<V(!new)>(ops: Ops<V>) {
    && ExactAddition(ops)
    && (forall x, m, m' :: SumToProduct(ops, x, m, m'))
    && (forall x, y, c :: Distributes(ops, x, y, c))
    && (forall x, v, c :: Exchanges(ops, x, v, c))
    && forall c :: ops.mul(ops.zero, c) == ops.zero
  }

  /** The sum of exp(score - m) over the scores. */
  ghost function SumAt<V>(ops: Ops<V>, seen: seq<V>, m: V): V {
    if seen == [] then ops.zero
    else ops.add(SumAt(ops, seen[..|seen| - 1], m), ops.exp(ops.sub(seen[|seen| - 1], m)))
  }

  /** The sum of exp(score - m) * v over the scores and their values. */
  ghost function WeightedAt<V>(ops: Ops<V>, seen: seq<V>, v: seq<V>, m: V): V
    requires |v| == |seen|
  {
    if seen == [] then ops.zero
    else ops.add(WeightedAt(ops, seen[..|seen| - 1], v[..|seen| - 1], m),
                 ops.mul(ops.exp(ops.sub(seen[|seen| - 1], m)), v[|seen| - 1]))
  }

  /** m is the largest of the scores seen, and l the sum of exp(score - m) over all of them. */
  ghost predicate Summarizes<V>(ops: Ops<V>, seen: seq<V>, m: V, l: V) {
    |seen| > 0 && FiniteAll(ops, seen) && m == Fold(ops.max, seen) && l == SumAt(ops, seen, m)
  }

  /** Every score seen is at most m. */
  ghost predicate Below<V>(ops: Ops<V>, seen: seq<V>, m: V) {
    FiniteAll(ops, seen) && forall c :: 0 <= c < |seen| ==> Le(ops, seen[c], m)
  }

  /** Any sum taken at the old maximum becomes, times the correction, the same sum at the new one; and so does any
      sum weighted by values. */
  ghost predicate Rescales<V(!new)>(ops: Ops<V>, m: V, m': V, corr: V) {
    && (forall seen: seq<V> :: Below(ops, seen, m) ==> ops.mul(SumAt(ops, seen, m), corr) == SumAt(ops, seen, m'))
    && forall seen: seq<V>, v: seq<V> :: Below(ops, seen, m) && |v| == |seen| ==>
         ops.mul(WeightedAt(ops, seen, v, m), corr) == WeightedAt(ops, seen, v, m')
  }

  lemma {:induction false} RescaleSum<V(!new)>(ops: Ops<V>, seen: seq<V>, m: V, m': V, corr: V)
    requires Laws(ops) && Exact(ops) && Below(ops, seen, m) && ops.finite(m) && ops.finite(m') && Le(ops, m, m')
    requires corr == ops.exp(ops.sub(m, m'))
    ensures ops.mul(SumAt(ops, seen, m), corr) == SumAt(ops, seen, m')
  {
    if seen != [] {
      var rest, x := seen[..|seen| - 1], seen[|seen| - 1];
      assert forall c :: 0 <= c < |rest| ==> rest[c] == seen[c];
      RescaleSum(ops, rest, m, m', corr);
      assert Distributes(ops, SumAt(ops, rest, m), ops.exp(ops.sub(x, m)), corr) && SumToProduct(ops, x, m, m');
    }
  }

  lemma {:induction false} RescaleWeighted<V(!new)>(ops: Ops<V>, seen: seq<V>, v: seq<V>, m: V, m': V, corr: V)
    requires Laws(ops) && Exact(ops) && Below(ops, seen, m) && ops.finite(m) && ops.finite(m') && Le(ops, m, m')
    requires corr == ops.exp(ops.sub(m, m')) && |v| == |seen|
    ensures ops.mul(WeightedAt(ops, seen, v, m), corr) == WeightedAt(ops, seen, v, m')
  {
    if seen != [] {
      var rest, x, w := seen[..|seen| - 1], seen[|seen| - 1], v[|seen| - 1];
      assert forall c :: 0 <= c < |rest| ==> rest[c] == seen[c];
      RescaleWeighted(ops, rest, v[..|seen| - 1], m, m', corr);
      var e := ops.exp(ops.sub(x, m));
      assert Distributes(ops, WeightedAt(ops, rest, v[..|seen| - 1], m), ops.mul(e, w), corr);
      assert Exchanges(ops, e, w, corr) && SumToProduct(ops, x, m, m');
    }
  }

  lemma CorrectionRescales<V(!new)>(ops: Ops<V>, m: V, m': V, corr: V)
    requires Laws(ops) && Exact(ops) && ops.finite(m) && ops.finite(m') && Le(ops, m, m')
    requires corr == ops.exp(ops.sub(m, m'))
    ensures Rescales(ops, m, m', corr)
  {
    forall seen: seq<V> | Below(ops, seen, m) ensures ops.mul(SumAt(ops, seen, m), corr) == SumAt(ops, seen, m') {
      RescaleSum(ops, seen, m, m', corr);
    }
    forall seen: seq<V>, v: seq<V> | Below(ops, seen, m) && |v| == |seen|
      ensures ops.mul(WeightedAt(ops, seen, v, m), corr) == WeightedAt(ops, seen, v, m')
    {
      RescaleWeighted(ops, seen, v, m, m', corr);
    }
  }

  /** The sum over two sequences of scores is the sum of their sums. */
  lemma {:induction false} SumOfBoth<V(!new)>(ops: Ops<V>, a: seq<V>, b: seq<V>, m: V)
    requires ExactAddition(ops)
    ensures SumAt(ops, a + b, m) == ops.add(SumAt(ops, a, m), SumAt(ops, b, m))
    decreases |b|
  {
    if b == [] {
      assert a + b == a && ZeroAdds(ops, SumAt(ops, a, m));
    } else {
      var c, x := b[..|b| - 1], b[|b| - 1];
      SumOfBoth(ops, a, c, m);
      assert (a + b)[..|a + b| - 1] == a + c;
      assert Associate(ops.add, SumAt(ops, a, m), SumAt(ops, c, m), ops.exp(ops.sub(x, m)));
    }
  }

  /** One chain over the weights is the sum over the scores. */
  lemma {:induction false} ChainIsSum<V(!new)>(ops: Ops<V>, x: seq<V>, e: seq<V>, m: V)
    requires |e| == |x| && forall c :: 0 <= c < |x| ==> e[c] == ops.exp(ops.sub(x[c], m))
    ensures ChainSum(ops, e) == SumAt(ops, x, m)
  {
    var s := [ops.zero] + e;
    if x == [] {
      assert s == [ops.zero];
    } else {
      ChainIsSum(ops, x[..|x| - 1], e[..|x| - 1], m);
      assert s[..|s| - 1] == [ops.zero] + e[..|x| - 1];
    }
  }

  /** However the form groups them, the weights of a row sum to the sum over its scores. */
  lemma FormSum<V(!new)>(k: Task<V>, form: Form, row: nat, x: seq<V>, m: V)
    requires IsTask(k) && FormFits(form, k.t) && row < Tiles.Rows(k.t) && ExactAddition(k.ops)
    requires x == ScaledRow(k.ops, k.scores[row]) && m == Result(k, row).m
    ensures SumOf(k, form, row) == SumAt(k.ops, x, m)
  {
    assert RowGiven(k, row);
    var e := WeightsOf(k, row);
    match form {
      case Chained =>
      case Lanes(q, c) => LanesSumToChain(k.ops, e, c);
      case Separate => StridedSumToChain(k.ops, e, k.t.n);
    }
    ChainIsSum(k.ops, x, e, m);
  }

  /** The scores of a row, scaled. */
  ghost function Scores<V(!new)>(k: Task<V>, row: nat): (x: seq<V>)
    requires IsTask(k) && row < Tiles.Rows(k.t)
    ensures |x| == |k.scores[row]| && forall c :: 0 <= c < |x| ==> x[c] == k.ops.mul(k.scores[row][c], k.ops.scale)
  {
    ScaledRow(k.ops, k.scores[row])
  }

  /** MAIN RESULT 1.  After a row's first block its maximum and denominator are those of the block's scores. */
  lemma FirstBlock<V(!new)>(k: Task<V>, form: Form, row: nat)
    requires IsTask(k) && FormFits(form, k.t) && row < Tiles.Rows(k.t) && Exact(k.ops) && k.first
    ensures Summarizes(k.ops, Scores(k, row), Result(k, row).m, NewSum(k, form, row))
  {
    assert RowGiven(k, row);
    var x, r := Scores(k, row), Result(k, row);
    var rmax := Fold(k.ops.max, x);
    assert Identity(k.ops.max, k.ops.bottom, rmax);
    FormSum(k, form, row, x, r.m);
    assert ZeroAdds(k.ops, SumOf(k, form, row));
  }

  /** The maximum over what was seen and the block's scores. */
  lemma LaterMaximum<V(!new)>(k: Task<V>, row: nat, seen: seq<V>)
    requires IsTask(k) && row < Tiles.Rows(k.t) && !k.first && |seen| > 0 && FiniteAll(k.ops, seen)
    requires k.m[row] == Fold(k.ops.max, seen)
    ensures FiniteAll(k.ops, seen + Scores(k, row)) && Result(k, row).m == Fold(k.ops.max, seen + Scores(k, row))
    ensures k.ops.finite(k.m[row]) && k.ops.finite(Result(k, row).m) && Le(k.ops, k.m[row], Result(k, row).m)
    ensures Below(k.ops, seen, k.m[row]) && Result(k, row).corr == k.ops.exp(k.ops.sub(k.m[row], Result(k, row).m))
  {
    assert RowGiven(k, row);
    var x := Scores(k, row);
    FoldConcat(k.ops.max, seen, x);
    NewMaxIsAbove(k.ops, x, false, k.m[row], Result(k, row).m);
    LeMax(k.ops, k.m[row], Fold(k.ops.max, x), k.m[row]);
    forall c: nat | c < |seen| ensures Le(k.ops, seen[c], k.m[row]) { FoldIsUpper(k.ops, seen, c); }
  }

  lemma LaterSum<V(!new)>(k: Task<V>, form: Form, row: nat, seen: seq<V>, x: seq<V>, m: V, m': V)
    requires IsTask(k) && FormFits(form, k.t) && row < Tiles.Rows(k.t) && Exact(k.ops) && !k.first
    requires x == Scores(k, row) && m == k.m[row] && m' == Result(k, row).m && k.l[row] == SumAt(k.ops, seen, m)
    requires Rescales(k.ops, m, m', Result(k, row).corr) && Below(k.ops, seen, m)
    ensures NewSum(k, form, row) == SumAt(k.ops, seen + x, m')
  {
    FormSum(k, form, row, x, m');
    SumOfBoth(k.ops, seen, x, m');
  }

  /** MAIN RESULT 2.  A later block, in any form, after any blocks: the maximum and the denominator are those of all
      scores seen, and the correction carries any sum over earlier scores from the old maximum to the new one. */
  lemma LaterBlock<V(!new)>(k: Task<V>, form: Form, row: nat, seen: seq<V>)
    requires IsTask(k) && FormFits(form, k.t) && row < Tiles.Rows(k.t) && Exact(k.ops) && !k.first
    requires Summarizes(k.ops, seen, k.m[row], k.l[row])
    ensures Summarizes(k.ops, seen + Scores(k, row), Result(k, row).m, NewSum(k, form, row))
    ensures Rescales(k.ops, k.m[row], Result(k, row).m, Result(k, row).corr)
  {
    LaterMaximum(k, row, seen);
    CorrectionRescales(k.ops, k.m[row], Result(k, row).m, Result(k, row).corr);
    LaterSum(k, form, row, seen, Scores(k, row), k.m[row], Result(k, row).m);
  }

  // ---- any number of blocks ---------------------------------------------------------------------------

  /** A block and the form it is done in. */
  datatype Step<!V> = Step(task: Task<V>, form: Form)

  /** Blocks of one row: the first starts the row, every other starts from the state the one before left. */
  ghost predicate Follows<V(!new)>(ops: Ops<V>, steps: seq<Step<V>>, row: nat, i: nat)
    requires i < |steps|
  {
    var k, form := steps[i].task, steps[i].form;
    && IsTask(k) && FormFits(form, k.t) && row < Tiles.Rows(k.t) && k.ops == ops && k.first == (i == 0)
    && (i > 0 ==>
          var before := steps[i - 1];
          && IsTask(before.task) && FormFits(before.form, before.task.t) && row < Tiles.Rows(before.task.t)
          && k.m[row] == Result(before.task, row).m && k.l[row] == NewSum(before.task, before.form, row))
  }

  ghost predicate IsRow<V(!new)>(ops: Ops<V>, steps: seq<Step<V>>, row: nat) {
    forall i: nat :: i < |steps| ==> Follows(ops, steps, row, i)
  }

  /** All scores of the first n blocks. */
  ghost function AllScores<V(!new)>(ops: Ops<V>, steps: seq<Step<V>>, row: nat, n: nat): seq<V>
    requires IsRow(ops, steps, row) && n <= |steps|
  {
    if n == 0 then []
    else
      assert Follows(ops, steps, row, n - 1);
      AllScores(ops, steps, row, n - 1) + Scores(steps[n - 1].task, row)
  }

  /** MAIN RESULT 3.  However many blocks a row comes in, each in whatever form: after the last the maximum is the
      largest of all scores and the denominator the sum of exp(score - maximum) over all of them. */
  lemma {:induction false} OnlineSoftmax<V(!new)>(ops: Ops<V>, steps: seq<Step<V>>, row: nat, n: nat)
    requires Exact(ops) && IsRow(ops, steps, row) && 0 < n <= |steps|
    ensures Follows(ops, steps, row, n - 1)
    ensures Summarizes(ops, AllScores(ops, steps, row, n), Result(steps[n - 1].task, row).m,
                       NewSum(steps[n - 1].task, steps[n - 1].form, row))
  {
    assert Follows(ops, steps, row, n - 1);
    var k, form := steps[n - 1].task, steps[n - 1].form;
    if n == 1 {
      assert AllScores(ops, steps, row, 0) + Scores(k, row) == Scores(k, row);
      FirstBlock(k, form, row);
    } else {
      OnlineSoftmax(ops, steps, row, n - 1);
      LaterBlock(k, form, row, AllScores(ops, steps, row, n - 1));
    }
  }

  // ---- the two-pass form ---------------------------------------------------------------------------------

  /** The words of a row of scores: a pair of columns in each. */
  ghost predicate PairsUp<V>(s: seq<V>, words: seq<(V, V)>) {
    |s| == 2 * |words| && forall i :: 0 <= i < |words| ==> words[i] == (s[2 * i], s[2 * i + 1])
  }

  /** MAIN RESULT 4.  What the two-pass form leaves on a row that a lane folds: the largest of the row's scores, the
      exponential of every score less that, and, when addition is exact, their sum. */
  lemma TwoPassRow<V(!new)>(ops: Ops<V>, s: seq<V>, x: seq<V>, n: nat, words: seq<(V, V)>, m: V, i: nat)
    requires Laws(ops) && |s| == 32 * n && n > 0 && PairsUp(s, words) && FiniteRow(ops, words)
    requires |x| == |s| && forall c :: 0 <= c < |s| ==> x[c] == ops.mul(s[c], ops.scale)
    requires m == RefMax(ops, words, n)
    ensures m == Fold(ops.max, x)
    ensures i < |words| ==>
              Probs(ops, words, m)[i] == (ops.exp(ops.sub(x[2 * i], m)), ops.exp(ops.sub(x[2 * i + 1], m)))
    ensures ExactAddition(ops) ==> RefSum(ops, words, n) == SumAt(ops, x, m)
  {
    assert words == Words(s, n) && x == ScaledRow(ops, s);
    PairsAreFinite(ops, s, x, words);
    StridedMaximum(ops, s, n);
    assert Identity(ops.max, ops.bottom, Fold(ops.max, x));
    if ExactAddition(ops) {
      RefSumIsTree(ops, words, n);
      LaneSumsAreStrided(ops, s, n, m);
      StridedSumToChain(ops, Exps(ops, x, m), n);
      ChainIsSum(ops, x, Exps(ops, x, m), m);
    }
  }

  lemma PairsAreFinite<V>(ops: Ops<V>, s: seq<V>, x: seq<V>, words: seq<(V, V)>)
    requires PairsUp(s, words) && FiniteRow(ops, words)
    requires |x| == |s| && forall c :: 0 <= c < |s| ==> x[c] == ops.mul(s[c], ops.scale)
    ensures FiniteAll(ops, x)
  {
    forall c | 0 <= c < |x| ensures ops.finite(x[c]) { assert FiniteWord(ops, words[c / 2]); }
  }

  // ---- operations that do not round --------------------------------------------------------------------

  /** Scores are natural numbers, differences are taken downward, and the exponential halves. */
  type Weight = x: real | x >= 0.0

  function Half(n: nat): (r: Weight)
    ensures 0.0 < r <= 1.0
  {
    if n == 0 then 1.0 else Half(n - 1) / 2.0
  }

  function Plus(x: Weight, y: Weight): Weight { x + y }

  function Times(x: Weight, y: Weight): Weight { x * y }

  function Larger(x: Weight, y: Weight): Weight { if x >= y then x else y }

  function Down(x: Weight, m: Weight): Weight { if m >= x then m - x else 0.0 }

  function Halved(d: Weight): Weight { Half(d.Floor) }

  predicate IsNatural(x: Weight) { x == x.Floor as real }

  predicate IsWeight(x: Weight) { true }

  function CodeOf(x: Weight): bf16 { if x >= 1.0 then 0x3F80 else if x >= 0.5 then 0x3F00 else 0 }

  function Weights(): Ops<Weight> {
    Ops(Times, Down, Plus, Larger, Halved, 0.0, 0.0, 1.0, IsNatural, IsWeight)
  }

  lemma {:induction false} HalvesMultiply(j: nat, k: nat)
    ensures Half(j) * Half(k) == Half(j + k)
    decreases k
  {
    if k > 0 { HalvesMultiply(j, k - 1); }
  }

  lemma {:induction false} HalvesDrop(j: nat, k: nat)
    requires j <= k
    ensures Half(k) <= Half(j)
    decreases k
  {
    if j < k { HalvesDrop(j, k - 1); }
  }

  lemma WeightsSumToProduct(ops: Ops<Weight>, x: Weight, m: Weight, m': Weight)
    requires ops == Weights()
    ensures SumToProduct(ops, x, m, m')
  {
    if IsNatural(x) && IsNatural(m) && IsNatural(m') && x <= m <= m' {
      var i, j, k: nat := x.Floor, m.Floor, m'.Floor;
      Difference(x, m, i, j);
      Difference(m, m', j, k);
      Difference(x, m', i, k);
      HalvesMultiply(j - i, k - j);
    }
  }

  lemma Difference(x: Weight, m: Weight, i: nat, j: nat)
    requires x == i as real && m == j as real && x <= m
    ensures i <= j && Halved(Down(x, m)) == Half(j - i)
  {
    assert m - x == (j - i) as real;
  }

  lemma WeightsAreMonotone(ops: Ops<Weight>, x: Weight, y: Weight, m: Weight)
    requires ops == Weights()
    ensures ExpOfMax(ops, x, y, m) && Positive(ops, CodeOf, x, m) && MaxOfCodes(ops, CodeOf, x, y)
  {
    if x >= y {
      HalvesDrop(Down(x, m).Floor, Down(y, m).Floor);
    } else {
      HalvesDrop(Down(y, m).Floor, Down(x, m).Floor);
    }
  }

  lemma WeightsMultiply(x: Weight, y: Weight, c: Weight)
    ensures Distributes(Weights(), x, y, c) && Exchanges(Weights(), x, y, c)
  {
  }

  lemma WeightLaws(ops: Ops<Weight>)
    requires ops == Weights()
    ensures Laws(ops) && ExactAddition(ops)
  {
    assert forall x, y, z :: Associate(ops.max, x, y, z);
    assert forall x, y, z :: Associate(ops.add, x, y, z);
  }

  /** All that is asked of operations that do not round can be met. */
  lemma ExactOperationsExist() returns (ops: Ops<Weight>, code: Weight -> bf16)
    ensures MonotoneExp(ops, code) && Exact(ops)
  {
    ops, code := Weights(), CodeOf;
    WeightLaws(ops);
    forall x, m, m' ensures SumToProduct(ops, x, m, m') { WeightsSumToProduct(ops, x, m, m'); }
    forall x, y, c ensures Distributes(ops, x, y, c) && Exchanges(ops, x, y, c) { WeightsMultiply(x, y, c); }
    forall x, y, m ensures ExpOfMax(ops, x, y, m) { WeightsAreMonotone(ops, x, y, m); }
    forall x, m ensures Positive(ops, code, x, m) { WeightsAreMonotone(ops, x, x, m); }
    forall x, y ensures MaxOfCodes(ops, code, x, y) { WeightsAreMonotone(ops, x, y, x); }
  }
}
