/** The two-pass softmax of a first block, with its reductions batched over a warp's rows, against the
    cooperative one that reduces row by row.  Arithmetic is rounded and abstract: only the laws named here
    are used, and addition is not associative. */
module TwoPass {
  import opened Bits
  import opened GridStride
  import opened Reduce

  /** The rounded operations, the identity of max, zero and the softmax scale.  `finite` holds of scores and their
      maxima, not of the bottom, minus infinity; `weight` of zero, exponentials and their sums. */
  datatype Ops<!V> = Ops(mul: (V, V) -> V, sub: (V, V) -> V, add: (V, V) -> V, max: (V, V) -> V, exp: V -> V,
                         bottom: V, zero: V, scale: V, finite: V -> bool, weight: V -> bool)

  ghost predicate Commute<V>(f: (V, V) -> V, x: V, y: V) { f(x, y) == f(y, x) }

  ghost predicate Identity<V>(f: (V, V) -> V, e: V, x: V) { f(x, e) == x && f(x, x) == x }

  ghost predicate FirstBlock<V>(ops: Ops<V>, x: V, y: V) {
    ops.finite(x) && ops.weight(y) ==> ops.add(ops.mul(ops.zero, ops.exp(ops.sub(x, x))), y) == y
  }

  ghost predicate FiniteMax<V>(ops: Ops<V>, x: V, y: V) { ops.finite(x) && ops.finite(y) ==> ops.finite(ops.max(x, y)) }

  ghost predicate WeightExp<V>(ops: Ops<V>, x: V, m: V) {
    ops.finite(x) && ops.finite(m) ==> ops.weight(ops.exp(ops.sub(x, m)))
  }

  ghost predicate WeightSum<V>(ops: Ops<V>, x: V, y: V) { ops.weight(x) && ops.weight(y) ==> ops.weight(ops.add(x, y)) }

  ghost predicate ScalesMax<V>(ops: Ops<V>, x: V, y: V) {
    ops.finite(x) && ops.finite(y) ==>
      ops.mul(ops.max(x, y), ops.scale) == ops.max(ops.mul(x, ops.scale), ops.mul(y, ops.scale))
  }

  /** Max is exact and order-free, and on the values that occur a first block's rescaled sum 0 * exp(0) + x is x. */
  ghost predicate Laws<V(!new)>(ops: Ops<V>) {
    && (forall x, y :: Commute(ops.max, x, y))
    && Associative(ops.max)
    && (forall x :: Identity(ops.max, ops.bottom, x))
    && (forall x, y :: FiniteMax(ops, x, y))
    && ops.weight(ops.zero)
    && (forall x, m :: WeightExp(ops, x, m))
    && (forall x, y :: WeightSum(ops, x, y))
    && (forall x, y :: FirstBlock(ops, x, y))
  }

  /** Scaling is monotone: it commutes with max. */
  ghost predicate ScalingIsMonotone<V(!new)>(ops: Ops<V>) {
    forall x, y :: ScalesMax(ops, x, y)
  }

  const NT: nat := 16

  lemma Lanes16()
    ensures NT == Pow2(4)
  {
    assert Pow2(2) == 4;
  }

  /** A row: wpl words of two values for each lane; lane's j-th word is word j * 16 + lane. */
  ghost predicate IsRow<V>(row: seq<(V, V)>, wpl: nat) {
    |row| == wpl * NT
  }

  /** Scores are finite, and stay so when scaled. */
  ghost predicate FiniteRow<V>(ops: Ops<V>, row: seq<(V, V)>) {
    forall i :: 0 <= i < |row| ==> FiniteWord(ops, row[i])
  }

  ghost predicate FiniteWord<V>(ops: Ops<V>, w: (V, V)) {
    ops.finite(w.0) && ops.finite(w.1) && ops.finite(ops.mul(w.0, ops.scale)) && ops.finite(ops.mul(w.1, ops.scale))
  }

  function WordAt<V>(row: seq<(V, V)>, wpl: nat, j: nat, lane: nat): (V, V)
    requires IsRow(row, wpl) && j < wpl && lane < NT
  {
    WordInRow(wpl, j, lane);
    row[j * NT + lane]
  }

  lemma WordInRow(wpl: nat, j: nat, lane: nat)
    requires j < wpl && lane < NT
    ensures j * NT + lane < wpl * NT
  {
  }

  // ---- the cooperative softmax ---------------------------------------------------------------------

  function Scaled<V>(ops: Ops<V>, raw: bool, x: V): V {
    if raw then x else ops.mul(x, ops.scale)
  }

  /** Largest of a lane's first j words; raw leaves the scale out. */
  function LaneMax<V>(ops: Ops<V>, raw: bool, row: seq<(V, V)>, wpl: nat, lane: nat, j: nat): V
    requires IsRow(row, wpl) && j <= wpl && lane < NT
  {
    if j == 0 then ops.bottom
    else ops.max(WordMax(ops, raw, row, wpl, lane, j - 1), LaneMax(ops, raw, row, wpl, lane, j - 1))
  }

  function WordMax<V>(ops: Ops<V>, raw: bool, row: seq<(V, V)>, wpl: nat, lane: nat, j: nat): V
    requires IsRow(row, wpl) && j < wpl && lane < NT
  {
    var w := WordAt(row, wpl, j, lane);
    ops.max(Scaled(ops, raw, w.0), Scaled(ops, raw, w.1))
  }

  function LaneMaxima<V>(ops: Ops<V>, raw: bool, row: seq<(V, V)>, wpl: nat): (r: seq<V>)
    requires IsRow(row, wpl)
    ensures |r| == NT
  {
    seq(NT, lane requires 0 <= lane < NT => LaneMax(ops, raw, row, wpl, lane, wpl))
  }

  /** The block maximum by the tree over the lanes, and the new maximum of a first block. */
  function RefMax<V>(ops: Ops<V>, row: seq<(V, V)>, wpl: nat): V
    requires IsRow(row, wpl)
  {
    Lanes16();
    var bmax := Tree(ops.max, 4, LaneMaxima(ops, false, row, wpl));
    ops.max(bmax, bmax)
  }

  function Prob<V>(ops: Ops<V>, x: V, m: V): V {
    ops.exp(ops.sub(ops.mul(x, ops.scale), m))
  }

  /** The row's unnormalized probabilities for a given maximum. */
  function Probs<V>(ops: Ops<V>, row: seq<(V, V)>, m: V): (r: seq<(V, V)>)
    ensures |r| == |row|
  {
    seq(|row|, i requires 0 <= i < |row| => (Prob(ops, row[i].0, m), Prob(ops, row[i].1, m)))
  }

  function LaneSum<V>(ops: Ops<V>, row: seq<(V, V)>, wpl: nat, m: V, lane: nat, j: nat): V
    requires IsRow(row, wpl) && j <= wpl && lane < NT
  {
    if j == 0 then ops.zero
    else
      var w := WordAt(row, wpl, j - 1, lane);
      ops.add(ops.add(LaneSum(ops, row, wpl, m, lane, j - 1), Prob(ops, w.0, m)), Prob(ops, w.1, m))
  }

  function LaneSums<V>(ops: Ops<V>, row: seq<(V, V)>, wpl: nat, m: V): (r: seq<V>)
    requires IsRow(row, wpl)
    ensures |r| == NT
  {
    seq(NT, lane requires 0 <= lane < NT => LaneSum(ops, row, wpl, m, lane, wpl))
  }

  /** The new denominator of a first block: nothing carried over, plus the tree of the lanes' sums. */
  function RefSum<V>(ops: Ops<V>, row: seq<(V, V)>, wpl: nat): V
    requires IsRow(row, wpl)
  {
    Lanes16();
    var m := RefMax(ops, row, wpl);
    var bmax := Tree(ops.max, 4, LaneMaxima(ops, false, row, wpl));
    ops.add(ops.mul(ops.zero, ops.exp(ops.sub(bmax, m))), Tree(ops.add, 4, LaneSums(ops, row, wpl, m)))
  }

  // ---- maxima in any grouping -----------------------------------------------------------------------

  lemma Exchange4<V(!new)>(ops: Ops<V>, a: V, b: V, c: V, d: V)
    requires Laws(ops)
    ensures ops.max(ops.max(a, b), ops.max(c, d)) == ops.max(ops.max(a, c), ops.max(b, d))
  {
    assert Associate(ops.max, a, b, ops.max(c, d)) && Associate(ops.max, b, c, d) && Commute(ops.max, b, c);
    assert Associate(ops.max, c, b, d) && Associate(ops.max, a, c, ops.max(b, d));
  }

  /** Four more words, taken one by one or one by each of four chains. */
  lemma FourChains<V(!new)>(ops: Ops<V>, p0: V, p1: V, p2: V, p3: V, x0: V, x1: V, x2: V, x3: V)
    requires Laws(ops)
    ensures var all := ops.max(ops.max(x0, x1), ops.max(x2, x3));
            ops.max(ops.max(ops.max(p0, x0), ops.max(p1, x1)), ops.max(ops.max(p2, x2), ops.max(p3, x3)))
            == ops.max(p3, ops.max(p2, ops.max(p1, ops.max(p0, all))))
  {
    var m := ops.max;
    var all := m(m(x0, x1), m(x2, x3));
    Exchange4(ops, p0, x0, p1, x1);
    Exchange4(ops, p2, x2, p3, x3);
    Exchange4(ops, m(p0, p1), m(x0, x1), m(p2, p3), m(x2, x3));
    assert Associate(m, m(p0, p1), m(p2, p3), all) && Associate(m, p0, p1, m(m(p2, p3), all));
    MoveIn(ops, p1, m(p2, p3), all);
    MoveIn(ops, p0, m(p2, p3), m(p1, all));
    assert Associate(m, p2, p3, m(p0, m(p1, all)));
    MoveIn(ops, p0, p1, all);
    MoveIn(ops, p2, p3, m(p1, m(p0, all)));
  }

  lemma MoveIn<V(!new)>(ops: Ops<V>, a: V, b: V, c: V)
    requires Laws(ops)
    ensures ops.max(a, ops.max(b, c)) == ops.max(b, ops.max(a, c))
  {
    assert Associate(ops.max, a, b, c) && Commute(ops.max, a, b) && Associate(ops.max, b, a, c);
  }

  // ---- the passes of one row -----------------------------------------------------------------------

  /** The four chains of maxima joined. */
  function Joined<V>(ops: Ops<V>, x: (V, V, V, V)): V {
    ops.max(ops.max(x.0, x.1), ops.max(x.2, x.3))
  }

  /** One word taken into each chain. */
  method TakeFour<V(!new)>(ops: Ops<V>, raw: bool, row: seq<(V, V)>, wpl: nat, lane: nat, j: nat, x: (V, V, V, V))
    returns (y: (V, V, V, V))
    requires Laws(ops) && IsRow(row, wpl) && j + 4 <= wpl && lane < NT
             && Joined(ops, x) == LaneMax(ops, raw, row, wpl, lane, j)
    ensures Joined(ops, y) == LaneMax(ops, raw, row, wpl, lane, j + 4)
  {
    var p0, p1 := WordMax(ops, raw, row, wpl, lane, j), WordMax(ops, raw, row, wpl, lane, j + 1);
    var p2, p3 := WordMax(ops, raw, row, wpl, lane, j + 2), WordMax(ops, raw, row, wpl, lane, j + 3);
    FourChains(ops, p0, p1, p2, p3, x.0, x.1, x.2, x.3);
    assert LaneMax(ops, raw, row, wpl, lane, j + 2) == ops.max(p1, ops.max(p0, LaneMax(ops, raw, row, wpl, lane, j)));
    y := (ops.max(p0, x.0), ops.max(p1, x.1), ops.max(p2, x.2), ops.max(p3, x.3));
  }

  /** Pass A of one lane: four chains of maxima. */
  method PassA<V(!new)>(ops: Ops<V>, raw: bool, row: seq<(V, V)>, wpl: nat, lane: nat) returns (x: V)
    requires Laws(ops) && IsRow(row, wpl) && wpl % 4 == 0 && lane < NT
    ensures x == LaneMax(ops, raw, row, wpl, lane, wpl)
  {
    var chains := (ops.bottom, ops.bottom, ops.bottom, ops.bottom);
    assert Identity(ops.max, ops.bottom, ops.bottom);
    for q := 0 to wpl / 4
      invariant Joined(ops, chains) == LaneMax(ops, raw, row, wpl, lane, 4 * q)
    {
      chains := TakeFour(ops, raw, row, wpl, lane, 4 * q, chains);
    }
    x := Joined(ops, chains);
  }

  /** Two chains over the sixteen partial maxima. */
  method FoldChains<V(!new)>(ops: Ops<V>, pb: seq<V>) returns (m: V)
    requires Laws(ops) && |pb| == NT
    ensures m == Fold(ops.max, pb)
  {
    var q0, q1 := pb[0], pb[1];
    var k := 2;
    TwoMore(ops, pb, 0, pb[0], pb[1]);
    while k < NT
      invariant 2 <= k <= NT && k % 2 == 0 && ops.max(q0, q1) == Fold(ops.max, pb[..k])
    {
      TwoMore(ops, pb, k, q0, q1);
      q0, q1 := ops.max(q0, pb[k]), ops.max(q1, pb[k + 1]);
      k := k + 2;
    }
    m := ops.max(q0, q1);
    assert pb[..NT] == pb;
  }

  lemma TwoMore<V(!new)>(ops: Ops<V>, pb: seq<V>, k: nat, q0: V, q1: V)
    requires Laws(ops) && k + 2 <= |pb| && (if k == 0 then q0 == pb[0] && q1 == pb[1]
                                            else ops.max(q0, q1) == Fold(ops.max, pb[..k]))
    ensures Fold(ops.max, pb[..k + 2]) == if k == 0 then ops.max(q0, q1)
            else ops.max(ops.max(q0, pb[k]), ops.max(q1, pb[k + 1]))
  {
    assert pb[..k + 2][..k + 1] == pb[..k + 1] && pb[..k + 1][..k] == pb[..k];
    if k > 0 {
      Exchange4(ops, q0, q1, pb[k], pb[k + 1]);
      assert Associate(ops.max, Fold(ops.max, pb[..k]), pb[k], pb[k + 1]);
    }
  }

  /** The largest of finite values is finite. */
  lemma {:induction false} LaneMaxIsFinite<V(!new)>(ops: Ops<V>, raw: bool, row: seq<(V, V)>, wpl: nat, lane: nat,
                                                    j: nat)
    requires Laws(ops) && IsRow(row, wpl) && FiniteRow(ops, row) && 0 < j <= wpl && lane < NT
    ensures ops.finite(WordMax(ops, raw, row, wpl, lane, j - 1)) && ops.finite(LaneMax(ops, raw, row, wpl, lane, j))
  {
    var w := WordAt(row, wpl, j - 1, lane);
    WordInRow(wpl, j - 1, lane);
    assert FiniteWord(ops, w) && FiniteMax(ops, Scaled(ops, raw, w.0), Scaled(ops, raw, w.1));
    if j == 1 {
      assert Identity(ops.max, ops.bottom, WordMax(ops, raw, row, wpl, lane, 0));
    } else {
      LaneMaxIsFinite(ops, raw, row, wpl, lane, j - 1);
      assert FiniteMax(ops, WordMax(ops, raw, row, wpl, lane, j - 1), LaneMax(ops, raw, row, wpl, lane, j - 1));
    }
  }

  lemma {:induction false} FoldIsFinite<V(!new)>(ops: Ops<V>, s: seq<V>)
    requires Laws(ops) && |s| > 0 && forall i :: 0 <= i < |s| ==> ops.finite(s[i])
    ensures ops.finite(Fold(ops.max, s))
  {
    if |s| > 1 {
      FoldIsFinite(ops, s[..|s| - 1]);
      assert FiniteMax(ops, Fold(ops.max, s[..|s| - 1]), s[|s| - 1]);
    }
  }

  lemma RawWord<V(!new)>(ops: Ops<V>, row: seq<(V, V)>, wpl: nat, lane: nat, j: nat)
    requires ScalingIsMonotone(ops) && IsRow(row, wpl) && FiniteRow(ops, row) && j < wpl && lane < NT
    ensures ops.mul(WordMax(ops, true, row, wpl, lane, j), ops.scale) == WordMax(ops, false, row, wpl, lane, j)
  {
    WordInRow(wpl, j, lane);
    var w := WordAt(row, wpl, j, lane);
    assert FiniteWord(ops, w) && ScalesMax(ops, w.0, w.1);
  }

  /** Scaling the largest raw value is the largest scaled value. */
  lemma {:induction false} RawLane<V(!new)>(ops: Ops<V>, row: seq<(V, V)>, wpl: nat, lane: nat, j: nat)
    requires Laws(ops) && ScalingIsMonotone(ops) && IsRow(row, wpl) && FiniteRow(ops, row) && 0 < j <= wpl && lane < NT
    ensures ops.mul(LaneMax(ops, true, row, wpl, lane, j), ops.scale) == LaneMax(ops, false, row, wpl, lane, j)
  {
    var raw, scaled := WordMax(ops, true, row, wpl, lane, j - 1), WordMax(ops, false, row, wpl, lane, j - 1);
    RawWord(ops, row, wpl, lane, j - 1);
    if j == 1 {
      assert Identity(ops.max, ops.bottom, raw) && Identity(ops.max, ops.bottom, scaled);
    } else {
      RawLane(ops, row, wpl, lane, j - 1);
      LaneMaxIsFinite(ops, true, row, wpl, lane, j);
      LaneMaxIsFinite(ops, true, row, wpl, lane, j - 1);
      assert ScalesMax(ops, raw, LaneMax(ops, true, row, wpl, lane, j - 1));
    }
  }

  lemma {:induction false} RawFold<V(!new)>(ops: Ops<V>, raw: seq<V>, scaled: seq<V>)
    requires Laws(ops) && ScalingIsMonotone(ops) && |raw| == |scaled| > 0
    requires forall i :: 0 <= i < |raw| ==> ops.finite(raw[i]) && ops.mul(raw[i], ops.scale) == scaled[i]
    ensures ops.mul(Fold(ops.max, raw), ops.scale) == Fold(ops.max, scaled)
  {
    if |raw| > 1 {
      RawFold(ops, raw[..|raw| - 1], scaled[..|raw| - 1]);
      FoldIsFinite(ops, raw[..|raw| - 1]);
      assert ScalesMax(ops, Fold(ops.max, raw[..|raw| - 1]), raw[|raw| - 1]);
    }
  }

  /** Fold A of one row gives the reference maximum, whether the scale is applied before or after. */
  method FoldA<V(!new)>(ops: Ops<V>, raw: bool, row: seq<(V, V)>, wpl: nat, pb: seq<V>) returns (m: V)
    requires Laws(ops) && (raw ==> ScalingIsMonotone(ops)) && IsRow(row, wpl) && FiniteRow(ops, row) && wpl > 0
    requires pb == LaneMaxima(ops, raw, row, wpl)
    ensures m == RefMax(ops, row, wpl)
  {
    m := FoldChains(ops, pb);
    FoldIsRefMax(ops, raw, row, wpl);
    if raw { m := ops.mul(m, ops.scale); }
  }

  lemma FoldIsRefMax<V(!new)>(ops: Ops<V>, raw: bool, row: seq<(V, V)>, wpl: nat)
    requires Laws(ops) && (raw ==> ScalingIsMonotone(ops)) && IsRow(row, wpl) && FiniteRow(ops, row) && wpl > 0
    ensures var m := Fold(ops.max, LaneMaxima(ops, raw, row, wpl));
            RefMax(ops, row, wpl) == if raw then ops.mul(m, ops.scale) else m
  {
    Lanes16();
    var scaled, pb := LaneMaxima(ops, false, row, wpl), LaneMaxima(ops, raw, row, wpl);
    TreeIsFold(ops.max, 4, scaled);
    assert Identity(ops.max, ops.bottom, Fold(ops.max, scaled));
    if raw {
      forall lane | 0 <= lane < NT ensures ops.finite(pb[lane]) && ops.mul(pb[lane], ops.scale) == scaled[lane] {
        LaneMaxIsFinite(ops, true, row, wpl, lane, wpl);
        RawLane(ops, row, wpl, lane, wpl);
      }
      RawFold(ops, pb, scaled);
    }
  }

  /** Where lane's first j words, and all words of the lanes before it, have been replaced. */
  ghost predicate Replaced<V>(row: seq<(V, V)>, done: seq<(V, V)>, p: seq<(V, V)>, lane: nat, j: nat)
    requires |row| == |done| == |p|
  {
    forall i: nat :: i < |row| ==> p[i] == if i % NT < lane || (i % NT == lane && i / NT < j) then done[i] else row[i]
  }

  lemma ReplacedStep<V>(row: seq<(V, V)>, done: seq<(V, V)>, p: seq<(V, V)>, lane: nat, j: nat)
    requires |row| == |done| == |p| && Replaced(row, done, p, lane, j) && lane < NT && j * NT + lane < |row|
    ensures p[j * NT + lane] == row[j * NT + lane]
    ensures Replaced(row, done, p[j * NT + lane := done[j * NT + lane]], lane, j + 1)
  {
    assert (j * NT + lane) % NT == lane && (j * NT + lane) / NT == j;
  }

  lemma ReplacedLane<V>(row: seq<(V, V)>, done: seq<(V, V)>, p: seq<(V, V)>, wpl: nat, lane: nat)
    requires |row| == |done| == |p| == wpl * NT && Replaced(row, done, p, lane, wpl)
    ensures Replaced(row, done, p, lane + 1, 0)
  {
  }

  /** Pass B of one lane: each of its words is read, replaced by its probabilities, and summed. */
  method PassBLane<V>(ops: Ops<V>, row: seq<(V, V)>, wpl: nat, m: V, lane: nat, p0: seq<(V, V)>)
    returns (p: seq<(V, V)>, lloc: V)
    requires IsRow(row, wpl) && |p0| == |row| && lane < NT && Replaced(row, Probs(ops, row, m), p0, lane, 0)
    ensures |p| == |row| && Replaced(row, Probs(ops, row, m), p, lane + 1, 0)
            && lloc == LaneSum(ops, row, wpl, m, lane, wpl)
  {
    ghost var done := Probs(ops, row, m);
    p, lloc := p0, ops.zero;
    for j := 0 to wpl
      invariant |p| == |row| && lloc == LaneSum(ops, row, wpl, m, lane, j) && Replaced(row, done, p, lane, j)
    {
      WordInRow(wpl, j, lane);
      ReplacedStep(row, done, p, lane, j);
      var w := p[j * NT + lane];
      var a, b := Prob(ops, w.0, m), Prob(ops, w.1, m);
      p := p[j * NT + lane := (a, b)];
      lloc := ops.add(ops.add(lloc, a), b);
    }
    ReplacedLane(row, done, p, wpl, lane);
  }

  /** Pass B of one row, in place. */
  method PassB<V>(ops: Ops<V>, row: seq<(V, V)>, wpl: nat, m: V) returns (p: seq<(V, V)>, pb: seq<V>)
    requires IsRow(row, wpl)
    ensures p == Probs(ops, row, m) && pb == LaneSums(ops, row, wpl, m)
  {
    p, pb := row, [];
    for lane := 0 to NT
      invariant |p| == |row| && Replaced(row, Probs(ops, row, m), p, lane, 0)
      invariant pb == LaneSums(ops, row, wpl, m)[..lane]
    {
      var lloc;
      p, lloc := PassBLane(ops, row, wpl, m, lane, p);
      pb := pb + [lloc];
    }
  }

  /** Fold B pairs the sixteen sums exactly as the tree does. */
  method FoldB<V>(ops: Ops<V>, pb: seq<V>) returns (l: V)
    requires |pb| == NT
    ensures NT == Pow2(4) && l == Tree(ops.add, 4, pb)
  {
    Lanes16();
    var t0 := ops.add(ops.add(pb[0], pb[1]), ops.add(pb[2], pb[3]));
    var t1 := ops.add(ops.add(pb[4], pb[5]), ops.add(pb[6], pb[7]));
    var hA := ops.add(t0, t1);
    t0 := ops.add(ops.add(pb[8], pb[9]), ops.add(pb[10], pb[11]));
    t1 := ops.add(ops.add(pb[12], pb[13]), ops.add(pb[14], pb[15]));
    l := ops.add(hA, ops.add(t0, t1));
    TreeOf16(ops.add, pb);
  }

  lemma TreeOf4<V>(f: (V, V) -> V, s: seq<V>)
    requires |s| == 4
    ensures Pow2(2) == 4 && Tree(f, 2, s) == f(f(s[0], s[1]), f(s[2], s[3]))
  {
    var lo, hi := s[..2], s[2..];
    assert Tree(f, 1, lo) == f(s[0], s[1]) by { assert lo[..1][0] == s[0] && lo[1..][0] == s[1]; }
    assert Tree(f, 1, hi) == f(s[2], s[3]) by { assert hi[..1][0] == s[2] && hi[1..][0] == s[3]; }
  }

  lemma TreeOf8<V>(f: (V, V) -> V, s: seq<V>)
    requires |s| == 8
    ensures Pow2(3) == 8 && Tree(f, 3, s) == f(f(f(s[0], s[1]), f(s[2], s[3])), f(f(s[4], s[5]), f(s[6], s[7])))
  {
    TreeOf4(f, s[..4]);
    TreeOf4(f, s[4..]);
  }

  lemma TreeOf16<V>(f: (V, V) -> V, s: seq<V>)
    requires |s| == 16
    ensures Pow2(4) == 16
    ensures Tree(f, 4, s) == f(f(f(f(s[0], s[1]), f(s[2], s[3])), f(f(s[4], s[5]), f(s[6], s[7]))),
                              f(f(f(s[8], s[9]), f(s[10], s[11])), f(f(s[12], s[13]), f(s[14], s[15]))))
  {
    TreeOf8(f, s[..8]);
    TreeOf8(f, s[8..]);
  }

  lemma {:induction false} LaneSumIsWeight<V(!new)>(ops: Ops<V>, row: seq<(V, V)>, wpl: nat, m: V, lane: nat, j: nat)
    requires Laws(ops) && IsRow(row, wpl) && FiniteRow(ops, row) && ops.finite(m) && j <= wpl && lane < NT
    ensures ops.weight(LaneSum(ops, row, wpl, m, lane, j))
  {
    if j > 0 {
      LaneSumIsWeight(ops, row, wpl, m, lane, j - 1);
      var w, sum := WordAt(row, wpl, j - 1, lane), LaneSum(ops, row, wpl, m, lane, j - 1);
      WordInRow(wpl, j - 1, lane);
      assert FiniteWord(ops, w) && WeightExp(ops, ops.mul(w.0, ops.scale), m)
             && WeightExp(ops, ops.mul(w.1, ops.scale), m);
      assert WeightSum(ops, sum, Prob(ops, w.0, m))
             && WeightSum(ops, ops.add(sum, Prob(ops, w.0, m)), Prob(ops, w.1, m));
    }
  }

  lemma {:induction false} TreeIsWeight<V(!new)>(ops: Ops<V>, k: nat, s: seq<V>)
    requires Laws(ops) && |s| == Pow2(k) && forall i :: 0 <= i < |s| ==> ops.weight(s[i])
    ensures ops.weight(Tree(ops.add, k, s))
  {
    if k > 0 {
      var lo, hi := s[..Pow2(k - 1)], s[Pow2(k - 1)..];
      TreeIsWeight(ops, k - 1, lo);
      TreeIsWeight(ops, k - 1, hi);
      assert WeightSum(ops, Tree(ops.add, k - 1, lo), Tree(ops.add, k - 1, hi));
    }
  }

  /** The block maximum and the sum of its weights are values that occur. */
  lemma RefIsFinite<V(!new)>(ops: Ops<V>, row: seq<(V, V)>, wpl: nat)
    requires Laws(ops) && IsRow(row, wpl) && FiniteRow(ops, row) && wpl > 0
    ensures NT == Pow2(4) && RefMax(ops, row, wpl) == Tree(ops.max, 4, LaneMaxima(ops, false, row, wpl))
    ensures ops.finite(RefMax(ops, row, wpl))
            && ops.weight(Tree(ops.add, 4, LaneSums(ops, row, wpl, RefMax(ops, row, wpl))))
  {
    Lanes16();
    var lanes := LaneMaxima(ops, false, row, wpl);
    forall lane: nat | lane < NT ensures ops.finite(lanes[lane]) { LaneMaxIsFinite(ops, false, row, wpl, lane, wpl); }
    TreeIsFold(ops.max, 4, lanes);
    FoldIsFinite(ops, lanes);
    assert Identity(ops.max, ops.bottom, Fold(ops.max, lanes));
    var m := RefMax(ops, row, wpl);
    var sums := LaneSums(ops, row, wpl, m);
    forall lane: nat | lane < NT ensures ops.weight(sums[lane]) { LaneSumIsWeight(ops, row, wpl, m, lane, wpl); }
    TreeIsWeight(ops, 4, sums);
  }

  /** A first block's denominator is just its tree. */
  lemma RefSumIsTree<V(!new)>(ops: Ops<V>, row: seq<(V, V)>, wpl: nat)
    requires Laws(ops) && IsRow(row, wpl) && FiniteRow(ops, row) && wpl > 0
    ensures NT == Pow2(4) && RefSum(ops, row, wpl) == Tree(ops.add, 4, LaneSums(ops, row, wpl, RefMax(ops, row, wpl)))
  {
    Lanes16();
    var bmax := Tree(ops.max, 4, LaneMaxima(ops, false, row, wpl));
    RefIsFinite(ops, row, wpl);
    assert FirstBlock(ops, bmax, Tree(ops.add, 4, LaneSums(ops, row, wpl, RefMax(ops, row, wpl))));
  }

  // ---- a warp --------------------------------------------------------------------------------------

  ghost predicate Rows<V>(s: seq<seq<(V, V)>>, wpl: nat) {
    forall row :: 0 <= row < |s| ==> IsRow(s[row], wpl)
  }

  ghost predicate FiniteRows<V>(ops: Ops<V>, s: seq<seq<(V, V)>>) {
    forall row :: 0 <= row < |s| ==> FiniteRow(ops, s[row])
  }

  method AllLanes<V(!new)>(ops: Ops<V>, raw: bool, row: seq<(V, V)>, wpl: nat) returns (pb: seq<V>)
    requires Laws(ops) && IsRow(row, wpl) && wpl % 4 == 0
    ensures pb == LaneMaxima(ops, raw, row, wpl)
  {
    pb := [];
    for lane := 0 to NT
      invariant pb == LaneMaxima(ops, raw, row, wpl)[..lane]
    {
      var x := PassA(ops, raw, row, wpl, lane);
      pb := pb + [x];
    }
  }

  /** Pass A over the warp's rows: their partial maxima. */
  method PassARows<V(!new)>(ops: Ops<V>, raw: bool, s: seq<seq<(V, V)>>, wpl: nat, warp: nat, nwarps: nat)
    returns (pb: seq<seq<V>>)
    requires Laws(ops) && Rows(s, wpl) && wpl % 4 == 0 && warp < nwarps
    ensures |pb| == |s| && forall row: nat :: row < |s| && Lane(row, nwarps) == warp ==>
              pb[row] == LaneMaxima(ops, raw, s[row], wpl)
  {
    pb := seq(|s|, _ => []);
    var row := warp;
    while row < |s|
      invariant |pb| == |s| && Lane(row, nwarps) == warp
      invariant forall r: nat :: r < |s| && Mine(r, warp, nwarps, row) ==> pb[r] == LaneMaxima(ops, raw, s[r], wpl)
      decreases |s| - row
    {
      var x := AllLanes(ops, raw, s[row], wpl);
      forall r: nat ensures Mine(r, warp, nwarps, row + nwarps) <==> Mine(r, warp, nwarps, row) || r == row {
        MineStep(r, warp, nwarps, row);
      }
      pb := pb[row := x];
      row := row + nwarps;
    }
  }

  /** Fold A: lane L folds row warp + nwarps * L. */
  method FoldARows<V(!new)>(ops: Ops<V>, raw: bool, s: seq<seq<(V, V)>>, wpl: nat, pb: seq<seq<V>>, warp: nat,
                            nwarps: nat, m0: seq<V>) returns (m: seq<V>)
    requires Laws(ops) && (raw ==> ScalingIsMonotone(ops)) && Rows(s, wpl) && FiniteRows(ops, s) && wpl > 0
             && warp < nwarps
    requires |pb| == |m0| == |s|
    requires forall row: nat :: row < |s| && Lane(row, nwarps) == warp ==> pb[row] == LaneMaxima(ops, raw, s[row], wpl)
    ensures |m| == |s| && forall row: nat :: row < |s| ==>
              m[row] == if Mine(row, warp, nwarps, warp + nwarps * NT) then RefMax(ops, s[row], wpl) else m0[row]
  {
    m := m0;
    for lane := 0 to NT
      invariant |m| == |s| && Lane(warp + nwarps * lane, nwarps) == warp
      invariant forall row: nat :: row < |s| ==>
                  m[row] == if Mine(row, warp, nwarps, warp + nwarps * lane) then RefMax(ops, s[row], wpl) else m0[row]
    {
      var fr := warp + nwarps * lane;
      forall r: nat ensures Mine(r, warp, nwarps, fr + nwarps) <==> Mine(r, warp, nwarps, fr) || r == fr {
        MineStep(r, warp, nwarps, fr);
      }
      NextRow(warp, nwarps, lane);
      if fr < |s| {
        var x := FoldA(ops, raw, s[fr], wpl, pb[fr]);
        m := m[fr := x];
      }
    }
  }

  lemma NextRow(warp: nat, nwarps: nat, lane: nat)
    ensures warp + nwarps * (lane + 1) == warp + nwarps * lane + nwarps
  {
  }

  /** Pass B over the warp's rows, in place, with whatever maximum the row has. */
  method PassBRows<V(!new)>(ops: Ops<V>, s: seq<seq<(V, V)>>, wpl: nat, m: seq<V>, warp: nat, nwarps: nat)
    returns (p: seq<seq<(V, V)>>, pb: seq<seq<V>>)
    requires Rows(s, wpl) && warp < nwarps && |m| == |s|
    ensures |p| == |pb| == |s|
    ensures forall row: nat :: row < |s| ==>
              p[row] == if Lane(row, nwarps) == warp then Probs(ops, s[row], m[row]) else s[row]
    ensures forall row: nat :: row < |s| && Lane(row, nwarps) == warp ==> pb[row] == LaneSums(ops, s[row], wpl, m[row])
  {
    p, pb := s, seq(|s|, _ => []);
    var row := warp;
    while row < |s|
      invariant |p| == |pb| == |s| && Lane(row, nwarps) == warp
      invariant forall r: nat :: r < |s| ==> p[r] == if Mine(r, warp, nwarps, row) then Probs(ops, s[r], m[r]) else s[r]
      invariant forall r: nat :: r < |s| && Mine(r, warp, nwarps, row) ==> pb[r] == LaneSums(ops, s[r], wpl, m[r])
      decreases |s| - row
    {
      forall r: nat ensures Mine(r, warp, nwarps, row + nwarps) <==> Mine(r, warp, nwarps, row) || r == row {
        MineStep(r, warp, nwarps, row);
      }
      var q, sums := PassB(ops, p[row], wpl, m[row]);
      p, pb := p[row := q], pb[row := sums];
      row := row + nwarps;
    }
  }

  /** Fold B: lane L folds row warp + nwarps * L. */
  method FoldBRows<V(!new)>(ops: Ops<V>, pb: seq<seq<V>>, warp: nat, nwarps: nat, l0: seq<V>) returns (l: seq<V>)
    requires warp < nwarps && |pb| == |l0|
    requires forall row: nat :: row < |pb| && Lane(row, nwarps) == warp ==> |pb[row]| == NT
    ensures NT == Pow2(4) && |l| == |pb|
    ensures forall row: nat :: row < |pb| ==>
              l[row] == if Mine(row, warp, nwarps, warp + nwarps * NT) then Tree(ops.add, 4, pb[row]) else l0[row]
  {
    Lanes16();
    l := l0;
    for lane := 0 to NT
      invariant |l| == |pb| && Lane(warp + nwarps * lane, nwarps) == warp
      invariant forall row: nat :: row < |pb| ==>
                  l[row] == if Mine(row, warp, nwarps, warp + nwarps * lane) then Tree(ops.add, 4, pb[row]) else l0[row]
    {
      var fr := warp + nwarps * lane;
      forall r: nat ensures Mine(r, warp, nwarps, fr + nwarps) <==> Mine(r, warp, nwarps, fr) || r == fr {
        MineStep(r, warp, nwarps, fr);
      }
      NextRow(warp, nwarps, lane);
      if fr < |pb| {
        var x := FoldB(ops, pb[fr]);
        l := l[fr := x];
      }
    }
  }

  /** MAIN RESULT 1.  A warp leaves on each of its rows that a lane folds exactly the cooperative maximum,
      denominator and probabilities, with either way of scaling; the other rows keep a stale maximum and
      denominator. */
  method TwoPassWarp<V(!new)>(ops: Ops<V>, raw: bool, s: seq<seq<(V, V)>>, wpl: nat, warp: nat, nwarps: nat, m0: seq<V>,
                              l0: seq<V>)
    returns (p: seq<seq<(V, V)>>, m: seq<V>, l: seq<V>)
    requires Laws(ops) && (raw ==> ScalingIsMonotone(ops)) && Rows(s, wpl) && FiniteRows(ops, s) && wpl > 0
             && wpl % 4 == 0 && warp < nwarps
    requires |m0| == |l0| == |s|
    ensures |p| == |m| == |l| == |s|
    ensures forall row: nat :: row < |s| && Lane(row, nwarps) == warp && row < warp + nwarps * NT ==>
              m[row] == RefMax(ops, s[row], wpl) && l[row] == RefSum(ops, s[row], wpl)
                && p[row] == Probs(ops, s[row], m[row])
    ensures forall row: nat :: row < |s| && Lane(row, nwarps) == warp && row >= warp + nwarps * NT ==>
              m[row] == m0[row] && l[row] == l0[row] && p[row] == Probs(ops, s[row], m0[row])
    ensures forall row: nat :: row < |s| && Lane(row, nwarps) != warp ==>
              m[row] == m0[row] && l[row] == l0[row] && p[row] == s[row]
  {
    var pb := PassARows(ops, raw, s, wpl, warp, nwarps);
    m := FoldARows(ops, raw, s, wpl, pb, warp, nwarps, m0);
    p, pb := PassBRows(ops, s, wpl, m, warp, nwarps);
    l := FoldBRows(ops, pb, warp, nwarps, l0);
    forall row: nat | row < |s| && Lane(row, nwarps) == warp && row < warp + nwarps * NT
      ensures l[row] == RefSum(ops, s[row], wpl)
    {
      RefSumIsTree(ops, s[row], wpl);
    }
  }

  lemma {:induction false} LaneOfMultiple(nwarps: nat, k: nat)
    requires nwarps > 0
    ensures Lane(nwarps * k, nwarps) == 0
  {
    if k > 0 {
      LaneOfMultiple(nwarps, k - 1);
      assert nwarps * k == nwarps * (k - 1) + nwarps;
    }
  }

  /** MAIN RESULT 2.  The lanes fold every row of the tile exactly when there are at most sixteen rows a warp. */
  lemma FoldsCoverRows(rows: nat, nwarps: nat)
    requires nwarps > 0
    ensures (forall row: nat :: row < rows ==> row < Lane(row, nwarps) + nwarps * NT) <==> rows <= nwarps * NT
  {
    if rows > nwarps * NT {
      LaneOfMultiple(nwarps, NT);
      assert nwarps * NT < rows;
    }
  }
}
