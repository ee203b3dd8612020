/** Streaming attention over key blocks, over the reals with any exponential, against dense attention. */
module Streaming {

  ghost predicate Homomorphic(E: real -> real, x: real, y: real) {
    E(x + y) == E(x) * E(y)
  }

  /** All that is used of the exponential. */
  ghost predicate Exponential(E: real -> real) {
    (forall x :: E(x) > 0.0) && (forall x, y :: Homomorphic(E, x, y))
  }

  lemma Shift(E: real -> real, x: real, m: real, m': real)
    requires Exponential(E)
    ensures E(x - m') == E(x - m) * E(m - m')
  {
    assert Homomorphic(E, x - m, m - m');
    assert (x - m) + (m - m') == x - m';
  }

  function Max(a: real, b: real): real {
    if a < b then b else a
  }

  function MaxOf(s: seq<real>): real
    requires |s| > 0
  {
    if |s| == 1 then s[0] else Max(MaxOf(s[..|s| - 1]), s[|s| - 1])
  }

  /** Sum of E(s[i] - m). */
  function Weight(E: real -> real, s: seq<real>, m: real): real {
    if s == [] then 0.0 else Weight(E, s[..|s| - 1], m) + E(s[|s| - 1] - m)
  }

  /** Sum of E(s[i] - m) * v[i]. */
  function Weighted(E: real -> real, s: seq<real>, v: seq<real>, m: real): real
    requires |s| == |v|
  {
    if s == [] then 0.0 else Weighted(E, s[..|s| - 1], v[..|v| - 1], m) + E(s[|s| - 1] - m) * v[|v| - 1]
  }

  /** Dense attention: the softmax of the scores, applied to the values. */
  function Attention(E: real -> real, s: seq<real>, v: seq<real>): real
    requires |s| == |v| && Weight(E, s, 0.0) != 0.0
  {
    Weighted(E, s, v, 0.0) / Weight(E, s, 0.0)
  }

  lemma {:induction false} MaxOfIsMax(s: seq<real>)
    requires |s| > 0
    ensures MaxOf(s) in s && forall i :: 0 <= i < |s| ==> s[i] <= MaxOf(s)
  {
    if |s| > 1 {
      var t := s[..|s| - 1];
      MaxOfIsMax(t);
      assert forall i :: 0 <= i < |t| ==> s[i] == t[i];
    }
  }

  lemma {:induction false} MaxOfConcat(s: seq<real>, t: seq<real>)
    requires |s| > 0 && |t| > 0
    ensures MaxOf(s + t) == Max(MaxOf(s), MaxOf(t))
  {
    if |t| == 1 {
      assert (s + t)[..|s + t| - 1] == s;
    } else {
      assert (s + t)[..|s + t| - 1] == s + t[..|t| - 1];
      MaxOfConcat(s, t[..|t| - 1]);
    }
  }

  lemma {:induction false} WeightConcat(E: real -> real, s: seq<real>, t: seq<real>, m: real)
    ensures Weight(E, s + t, m) == Weight(E, s, m) + Weight(E, t, m)
  {
    if t == [] {
      assert s + t == s;
    } else {
      assert (s + t)[..|s + t| - 1] == s + t[..|t| - 1];
      WeightConcat(E, s, t[..|t| - 1], m);
    }
  }

  lemma {:induction false} WeightedConcat(E: real -> real, s: seq<real>, t: seq<real>, v: seq<real>, w: seq<real>,
                                          m: real)
    requires |s| == |v| && |t| == |w|
    ensures Weighted(E, s + t, v + w, m) == Weighted(E, s, v, m) + Weighted(E, t, w, m)
  {
    if t == [] {
      assert s + t == s && v + w == v;
    } else {
      assert (s + t)[..|s + t| - 1] == s + t[..|t| - 1] && (v + w)[..|v + w| - 1] == v + w[..|w| - 1];
      WeightedConcat(E, s, t[..|t| - 1], v, w[..|w| - 1], m);
    }
  }

  lemma RescaleStep(w: real, w': real, e: real, e': real, y: real, c: real)
    requires w' == w * c && e' == e * c
    ensures w' + e' == (w + e) * c
    ensures w' + e' * y == (w + e * y) * c
  {
    assert e' * y == (e * y) * c;
  }

  /** Changing the subtracted maximum rescales both sums by one factor. */
  lemma {:induction false} RescaleWeight(E: real -> real, s: seq<real>, m: real, m': real, c: real)
    requires Exponential(E) && c == E(m - m')
    ensures Weight(E, s, m') == Weight(E, s, m) * c
  {
    if s != [] {
      var t, x := s[..|s| - 1], s[|s| - 1];
      RescaleWeight(E, t, m, m', c);
      Shift(E, x, m, m');
      RescaleStep(Weight(E, t, m), Weight(E, t, m'), E(x - m), E(x - m'), 1.0, c);
    }
  }

  lemma {:induction false} Rescale(E: real -> real, s: seq<real>, v: seq<real>, m: real, m': real, c: real)
    requires Exponential(E) && |s| == |v| && c == E(m - m')
    ensures Weighted(E, s, v, m') == Weighted(E, s, v, m) * c
  {
    if s != [] {
      var t, w, x, y := s[..|s| - 1], v[..|v| - 1], s[|s| - 1], v[|v| - 1];
      Rescale(E, t, w, m, m', c);
      Shift(E, x, m, m');
      RescaleStep(Weighted(E, t, w, m), Weighted(E, t, w, m'), E(x - m), E(x - m'), y, c);
    }
  }

  lemma {:induction false} WeightPositive(E: real -> real, s: seq<real>, m: real)
    requires Exponential(E)
    ensures if s == [] then Weight(E, s, m) == 0.0 else Weight(E, s, m) > 0.0
  {
    if s != [] { WeightPositive(E, s[..|s| - 1], m); }
  }

  /** Dividing the sums taken from any common maximum gives dense attention. */
  lemma Normalize(E: real -> real, s: seq<real>, v: seq<real>, m: real)
    requires Exponential(E) && |s| == |v| > 0
    ensures Weight(E, s, m) > 0.0 && Weight(E, s, 0.0) > 0.0
    ensures Weighted(E, s, v, m) * (1.0 / Weight(E, s, m)) == Attention(E, s, v)
  {
    WeightPositive(E, s, m);
    WeightPositive(E, s, 0.0);
    RescaleWeight(E, s, 0.0, m, E(0.0 - m));
    Rescale(E, s, v, 0.0, m, E(0.0 - m));
    Cancel(Weighted(E, s, v, 0.0), Weight(E, s, 0.0), E(0.0 - m));
  }

  lemma Cancel(a: real, b: real, c: real)
    requires b > 0.0 && c > 0.0
    ensures b * c > 0.0 && (a * c) * (1.0 / (b * c)) == a / b
  {
    var q := a / b;
    assert a == q * b;
    assert a * c == q * (b * c);
  }

  // ---- the streaming kernel, one query row at a time ---------------------------------------------

  /** One key block: the row's raw scores, and the value rows. */
  datatype Block = Block(scores: seq<real>, values: seq<seq<real>>)

  predicate BlockOk(b: Block, width: nat) {
    |b.scores| == |b.values| > 0 && forall i :: 0 <= i < |b.values| ==> |b.values[i]| == width
  }

  function Scaled(s: seq<real>, scale: real): (r: seq<real>)
    ensures |r| == |s| && forall i :: 0 <= i < |r| ==> r[i] == s[i] * scale
  {
    seq(|s|, i requires 0 <= i < |s| => s[i] * scale)
  }

  function Column(v: seq<seq<real>>, c: nat): (r: seq<real>)
    requires forall i :: 0 <= i < |v| ==> c < |v[i]|
    ensures |r| == |v| && forall i :: 0 <= i < |r| ==> r[i] == v[i][c]
  {
    seq(|v|, i requires 0 <= i < |v| => v[i][c])
  }

  /** The scaled scores, and the values, of all blocks side by side. */
  function AllScores(blocks: seq<Block>, scale: real): seq<real> {
    if blocks == [] then [] else AllScores(blocks[..|blocks| - 1], scale) + Scaled(blocks[|blocks| - 1].scores, scale)
  }

  function AllValues(blocks: seq<Block>): seq<seq<real>> {
    if blocks == [] then [] else AllValues(blocks[..|blocks| - 1]) + blocks[|blocks| - 1].values
  }

  lemma {:induction false} AllMatch(blocks: seq<Block>, scale: real, width: nat)
    requires forall j :: 0 <= j < |blocks| ==> BlockOk(blocks[j], width)
    ensures |AllScores(blocks, scale)| == |AllValues(blocks)| && (blocks != [] ==> |AllScores(blocks, scale)| > 0)
    ensures forall i :: 0 <= i < |AllValues(blocks)| ==> |AllValues(blocks)[i]| == width
  {
    if blocks != [] { AllMatch(blocks[..|blocks| - 1], scale, width); }
  }

  lemma MaxPrefix(s: seq<real>, i: nat)
    requires 0 < i < |s|
    ensures MaxOf(s[..i + 1]) == Max(MaxOf(s[..i]), s[i])
  {
    assert s[..i + 1][..i] == s[..i];
  }

  lemma WeightPrefix(E: real -> real, s: seq<real>, m: real, i: nat)
    requires i < |s|
    ensures Weight(E, s[..i + 1], m) == Weight(E, s[..i], m) + E(s[i] - m)
  {
    assert s[..i + 1][..i] == s[..i];
  }

  lemma WeightedPrefix(E: real -> real, s: seq<real>, v: seq<real>, m: real, i: nat, weight: real, value: real)
    requires i < |s| == |v| && weight == E(s[i] - m) && value == v[i]
    ensures Weighted(E, s[..i + 1], v[..i + 1], m) == Weighted(E, s[..i], v[..i], m) + weight * value
  {
    assert s[..i + 1][..i] == s[..i] && v[..i + 1][..i] == v[..i];
  }

  /** One block's weights times its values, column by column. */
  function Products(E: real -> real, s: seq<real>, v: seq<seq<real>>, m: real, width: nat): (r: seq<real>)
    requires |s| == |v| && forall i :: 0 <= i < |v| ==> |v[i]| == width
    ensures |r| == width && forall c :: 0 <= c < width ==> r[c] == Weighted(E, s, Column(v, c), m)
  {
    seq(width, c requires 0 <= c < width => Weighted(E, s, Column(v, c), m))
  }

  function Rescaled(acc: seq<real>, corr: real, pv: seq<real>, first: bool): (r: seq<real>)
    requires |acc| == |pv|
    ensures |r| == |acc| && forall c :: 0 <= c < |r| ==> r[c] == (if first then 0.0 else acc[c]) * corr + pv[c]
  {
    seq(|acc|, c requires 0 <= c < |acc| => (if first then 0.0 else acc[c]) * corr + pv[c])
  }

  /** The maximum, the denominator and the unnormalized output of one row. */
  datatype State = State(m: real, l: real, acc: seq<real>)

  /** Maximum and sums over the columns seen so far. */
  ghost predicate Summarizes(E: real -> real, st: State, s: seq<real>, v: seq<seq<real>>)
    requires |s| == |v| > 0 && forall i :: 0 <= i < |v| ==> |v[i]| == |st.acc|
  {
    && st.m == MaxOf(s) && st.l == Weight(E, s, st.m)
    && st.acc == Products(E, s, v, st.m, |st.acc|)
  }

  function Finalized(acc: seq<real>, invL: real): (r: seq<real>)
    ensures |r| == |acc| && forall c :: 0 <= c < |r| ==> r[c] == acc[c] * invL
  {
    seq(|acc|, c requires 0 <= c < |acc| => acc[c] * invL)
  }

  function Carried(l: real, corr: real, sum: real): real {
    l * corr + sum
  }

  /** New maximum, correction and denominator of a block. */
  ghost predicate Moves(E: real -> real, s: seq<real>, first: bool, m: real, l: real, mNew: real, lNew: real,
                        corr: real)
    requires |s| > 0
  {
    var mOld := if first then MaxOf(s) else m;
    && mNew == Max(mOld, MaxOf(s)) && corr == E(mOld - mNew)
    && lNew == Carried(if first then 0.0 else l, corr, Weight(E, s, mNew))
  }

  /** p starts with the weights of s. */
  ghost predicate Weighs(E: real -> real, s: seq<real>, m: real, p: seq<real>) {
    |s| <= |p| && forall i :: 0 <= i < |s| ==> p[i] == E(s[i] - m)
  }

  /** One block: new maximum, both sums rescaled and extended. */
  ghost predicate BlockStep(E: real -> real, st: State, st': State, first: bool, s: seq<real>, v: seq<seq<real>>)
    requires |s| == |v| > 0 && |st.acc| == |st'.acc| && forall i :: 0 <= i < |v| ==> |v[i]| == |st.acc|
  {
    var bmax := MaxOf(s);
    var mOld := if first then bmax else st.m;
    var corr := E(mOld - Max(mOld, bmax));
    && st'.m == Max(mOld, bmax)
    && st'.l == Carried(if first then 0.0 else st.l, corr, Weight(E, s, st'.m))
    && st'.acc == Rescaled(st.acc, corr, Products(E, s, v, st'.m, |st.acc|), first)
  }

  lemma FirstStep(E: real -> real, st: State, st': State, s: seq<real>, v: seq<seq<real>>)
    requires |s| == |v| > 0 && |st.acc| == |st'.acc| && forall i :: 0 <= i < |v| ==> |v[i]| == |st.acc|
    requires BlockStep(E, st, st', true, s, v)
    ensures Summarizes(E, st', s, v)
  {
  }

  lemma StepWeight(E: real -> real, s: seq<real>, t: seq<real>, m: real, m': real)
    requires Exponential(E)
    ensures Weight(E, s, m) * E(m - m') + Weight(E, t, m') == Weight(E, s + t, m')
  {
    RescaleWeight(E, s, m, m', E(m - m'));
    WeightConcat(E, s, t, m');
  }

  lemma StepWeighted(E: real -> real, s: seq<real>, t: seq<real>, v: seq<real>, w: seq<real>, m: real, m': real)
    requires Exponential(E) && |s| == |v| && |t| == |w|
    ensures RescalesTo(Weighted(E, s, v, m), E(m - m'), Weighted(E, t, w, m'), Weighted(E, s + t, v + w, m'))
  {
    Rescale(E, s, v, m, m', E(m - m'));
    WeightedConcat(E, s, t, v, w, m');
  }

  lemma StepColumn(E: real -> real, s: seq<real>, v: seq<seq<real>>, t: seq<real>, w: seq<seq<real>>, m: real, m': real,
                   c: nat)
    requires Exponential(E) && |s| == |v| && |t| == |w|
    requires forall i :: 0 <= i < |v| ==> c < |v[i]|
    requires forall i :: 0 <= i < |w| ==> c < |w[i]|
    ensures RescalesTo(Weighted(E, s, Column(v, c), m), E(m - m'), Weighted(E, t, Column(w, c), m'),
                       Weighted(E, s + t, Column(v + w, c), m'))
  {
    ColumnConcat(v, w, c);
    StepWeighted(E, s, t, Column(v, c), Column(w, c), m, m');
  }

  lemma ColumnConcat(v: seq<seq<real>>, w: seq<seq<real>>, c: nat)
    requires forall i :: 0 <= i < |v| ==> c < |v[i]|
    requires forall i :: 0 <= i < |w| ==> c < |w[i]|
    ensures forall i :: 0 <= i < |v + w| ==> c < |(v + w)[i]|
    ensures Column(v + w, c) == Column(v, c) + Column(w, c)
  {
  }

  predicate RescalesTo(before: real, corr: real, now: real, after: real) {
    before * corr + now == after
  }

  lemma RescaledIs(before: seq<real>, corr: real, now: seq<real>, after: seq<real>)
    requires |before| == |now| == |after|
    requires forall c :: 0 <= c < |before| ==> RescalesTo(before[c], corr, now[c], after[c])
    ensures Rescaled(before, corr, now, false) == after
  {
  }

  lemma StepProducts(E: real -> real, s: seq<real>, v: seq<seq<real>>, t: seq<real>, w: seq<seq<real>>, m: real,
                     m': real, width: nat)
    requires Exponential(E) && |s| == |v| && |t| == |w|
    requires forall i :: 0 <= i < |v| ==> |v[i]| == width
    requires forall i :: 0 <= i < |w| ==> |w[i]| == width
    ensures Rescaled(Products(E, s, v, m, width), E(m - m'), Products(E, t, w, m', width), false)
            == Products(E, s + t, v + w, m', width)
  {
    var before, now, after := Products(E, s, v, m, width), Products(E, t, w, m', width),
                              Products(E, s + t, v + w, m', width);
    forall c | 0 <= c < width ensures RescalesTo(before[c], E(m - m'), now[c], after[c]) {
      StepColumn(E, s, v, t, w, m, m', c);
    }
    RescaledIs(before, E(m - m'), now, after);
  }

  lemma LaterStep(E: real -> real, st: State, st': State, s: seq<real>, v: seq<seq<real>>, t: seq<real>,
                  w: seq<seq<real>>)
    requires Exponential(E) && |s| == |v| > 0 && |t| == |w| > 0 && |st.acc| == |st'.acc|
    requires forall i :: 0 <= i < |v| ==> |v[i]| == |st.acc|
    requires forall i :: 0 <= i < |w| ==> |w[i]| == |st.acc|
    requires Summarizes(E, st, s, v) && BlockStep(E, st, st', false, t, w)
    ensures Summarizes(E, st', s + t, v + w)
  {
    MaxOfConcat(s, t);
    StepWeight(E, s, t, st.m, st'.m);
    StepProducts(E, s, v, t, w, st.m, st'.m, |st.acc|);
  }

  /** The running state of one row in shared memory. */
  class Row {
    var m: real
    var l: real
    var corr: real
    const p: array<real>
    const pv: array<real>
    const acc: array<real>

    constructor (width: nat, block: nat)
      ensures fresh(p) && fresh(pv) && fresh(acc) && Valid()
      ensures p.Length == block && acc.Length == width
    {
      m, l, corr := 0.0, 0.0, 0.0;
      p := new real[block](_ => 0.0);
      pv := new real[width](_ => 0.0);
      acc := new real[width](_ => 0.0);
    }

    ghost predicate Valid() {
      p != pv && p != acc && pv != acc && pv.Length == acc.Length
    }

    ghost function Contents(): State
      reads this, acc
    {
      State(m, l, acc[..])
    }

    method BlockMax(s: seq<real>) returns (bmax: real)
      requires |s| > 0
      ensures bmax == MaxOf(s)
    {
      bmax := s[0];
      for i := 1 to |s|
        invariant bmax == MaxOf(s[..i])
      {
        MaxPrefix(s, i);
        bmax := Max(bmax, s[i]);
      }
      assert s[..|s|] == s;
    }

    /** P is the block's unnormalized weights; returns their sum. */
    method ExpBlock(E: real -> real, s: seq<real>, mNew: real) returns (lsum: real)
      requires Valid() && |s| <= p.Length
      modifies p
      ensures lsum == Weight(E, s, mNew) && forall i :: 0 <= i < |s| ==> p[i] == E(s[i] - mNew)
    {
      lsum := 0.0;
      for i := 0 to |s|
        invariant lsum == Weight(E, s[..i], mNew)
        invariant forall k :: 0 <= k < i ==> p[k] == E(s[k] - mNew)
      {
        p[i] := E(s[i] - mNew);
        WeightPrefix(E, s, mNew, i);
        lsum := lsum + p[i];
      }
      assert s[..|s|] == s;
    }

    /** The weights, and the new maximum, denominator and correction. */
    method BlockState(E: real -> real, s: seq<real>, first: bool) returns (mNew: real, lNew: real, factor: real)
      requires Valid() && 0 < |s| <= p.Length
      modifies p
      ensures Moves(E, s, first, m, l, mNew, lNew, factor) && Weighs(E, s, mNew, p[..])
    {
      var bmax := BlockMax(s);
      var mOld := if first then bmax else m;
      mNew := Max(mOld, bmax);
      factor := E(mOld - mNew);
      var lsum := ExpBlock(E, s, mNew);
      lNew := Carried(if first then 0.0 else l, factor, lsum);
    }

    /** Maximum and denominator move to the new maximum. */
    method OnlineSoftmaxBlock(E: real -> real, s: seq<real>, first: bool)
      requires Valid() && 0 < |s| <= p.Length
      modifies this`m, this`l, this`corr, p
      ensures Moves(E, s, first, old(m), old(l), m, l, corr) && Weighs(E, s, m, p[..])
    {
      m, l, corr := BlockState(E, s, first);
    }

    method DotProduct(E: real -> real, s: seq<real>, v: seq<seq<real>>, c: nat) returns (sum: real)
      requires |s| == |v| <= p.Length && forall i :: 0 <= i < |v| ==> c < |v[i]|
      requires Weighs(E, s, m, p[..])
      ensures sum == Weighted(E, s, Column(v, c), m)
    {
      ghost var col := Column(v, c);
      sum := 0.0;
      for i := 0 to |s|
        invariant sum == Weighted(E, s[..i], col[..i], m)
      {
        var weight, value := p[i], v[i][c];
        WeightedPrefix(E, s, col, m, i, weight, value);
        sum := sum + weight * value;
      }
      assert s[..|s|] == s && col[..|s|] == col;
    }

    /** The mesh, over exact values: the block's weights times its value rows. */
    method ValueProduct(E: real -> real, s: seq<real>, v: seq<seq<real>>)
      requires Valid() && |s| == |v| <= p.Length && forall i :: 0 <= i < |v| ==> |v[i]| == acc.Length
      requires Weighs(E, s, m, p[..])
      modifies pv
      ensures pv[..] == Products(E, s, v, m, pv.Length)
    {
      ghost var target := Products(E, s, v, m, pv.Length);
      for c := 0 to pv.Length
        invariant pv[..c] == target[..c]
      {
        var x := DotProduct(E, s, v, c);
        pv[c] := x;
      }
    }

    method RescaleAccumulate(first: bool)
      requires Valid()
      modifies acc
      ensures acc[..] == Rescaled(old(acc[..]), corr, pv[..], first)
    {
      ghost var after := Rescaled(acc[..], corr, pv[..], first);
      for c := 0 to acc.Length
        invariant acc[..c] == after[..c]
        invariant acc[c..] == old(acc[c..])
      {
        assert acc[c] == old(acc[c..])[0];
        var o := if first then 0.0 else acc[c];
        acc[c] := o * corr + pv[c];
        assert acc[c] == after[c];
      }
    }

    /** QK scores in, one more block folded into the running state. */
    method FoldBlock(E: real -> real, s: seq<real>, v: seq<seq<real>>, first: bool)
      requires Valid() && 0 < |s| == |v| <= p.Length && forall i :: 0 <= i < |v| ==> |v[i]| == acc.Length
      modifies this`m, this`l, this`corr, p, pv, acc
      ensures BlockStep(E, old(Contents()), Contents(), first, s, v)
    {
      OnlineSoftmaxBlock(E, s, first);
      ValueProduct(E, s, v);
      RescaleAccumulate(first);
    }

    method FinalizeO() returns (o: array<real>)
      requires Valid() && l != 0.0
      ensures fresh(o) && o[..] == Finalized(acc[..], 1.0 / l)
    {
      var invL := 1.0 / l;
      o := new real[acc.Length];
      for c := 0 to acc.Length
        invariant o[..c] == Finalized(acc[..], invL)[..c]
      {
        o[c] := acc[c] * invL;
        assert o[c] == Finalized(acc[..], invL)[c];
      }
    }
  }

  ghost predicate Folded(E: real -> real, st: State, blocks: seq<Block>, scale: real)
    requires forall j :: 0 <= j < |blocks| ==> BlockOk(blocks[j], |st.acc|)
  {
    AllMatch(blocks, scale, |st.acc|);
    blocks != [] ==> Summarizes(E, st, AllScores(blocks, scale), AllValues(blocks))
  }

  lemma AllAppend(blocks: seq<Block>, b: Block, scale: real)
    ensures AllScores(blocks + [b], scale) == AllScores(blocks, scale) + Scaled(b.scores, scale)
    ensures AllValues(blocks + [b]) == AllValues(blocks) + b.values
  {
    assert (blocks + [b])[..|blocks|] == blocks;
  }

  lemma FoldedStep(E: real -> real, st: State, st': State, blocks: seq<Block>, b: Block, scale: real)
    requires Exponential(E) && |st.acc| == |st'.acc| && BlockOk(b, |st.acc|)
    requires forall j :: 0 <= j < |blocks| ==> BlockOk(blocks[j], |st.acc|)
    requires Folded(E, st, blocks, scale) && BlockStep(E, st, st', blocks == [], Scaled(b.scores, scale), b.values)
    ensures Folded(E, st', blocks + [b], scale)
  {
    AllMatch(blocks, scale, |st.acc|);
    AllAppend(blocks, b, scale);
    if blocks == [] {
      FirstStep(E, st, st', Scaled(b.scores, scale), b.values);
      assert [] + Scaled(b.scores, scale) == Scaled(b.scores, scale) && [] + b.values == b.values;
    } else {
      LaterStep(E, st, st', AllScores(blocks, scale), AllValues(blocks), Scaled(b.scores, scale), b.values);
    }
  }

  /** Blocks of any sizes, each with as many value rows as scores. */
  ghost predicate BlocksOk(blocks: seq<Block>, width: nat) {
    forall j :: 0 <= j < |blocks| ==> BlockOk(blocks[j], width)
  }

  method LargestBlock(blocks: seq<Block>) returns (size: nat)
    ensures forall j :: 0 <= j < |blocks| ==> |blocks[j].scores| <= size
  {
    size := 0;
    for j := 0 to |blocks|
      invariant forall k :: 0 <= k < j ==> |blocks[k].scores| <= size
    {
      if |blocks[j].scores| > size { size := |blocks[j].scores|; }
    }
  }

  method StreamBlocks(E: real -> real, blocks: seq<Block>, scale: real, width: nat) returns (row: Row)
    requires Exponential(E) && BlocksOk(blocks, width)
    ensures row.Valid() && row.acc.Length == width && Folded(E, row.Contents(), blocks, scale)
  {
    var size := LargestBlock(blocks);
    row := new Row(width, size);
    for j := 0 to |blocks|
      invariant row.Valid() && row.acc.Length == width && row.p.Length == size
      invariant fresh(row) && fresh(row.p) && fresh(row.pv) && fresh(row.acc)
      invariant Folded(E, row.Contents(), blocks[..j], scale)
    {
      FoldNext(E, row, blocks, j, scale);
    }
    WholePrefix(blocks);
  }

  lemma WholePrefix(blocks: seq<Block>)
    ensures blocks[..|blocks|] == blocks
  {
  }

  lemma PrefixGrows(blocks: seq<Block>, j: nat)
    requires j < |blocks|
    ensures blocks[..j + 1] == blocks[..j] + [blocks[j]]
  {
  }

  method FoldNext(E: real -> real, row: Row, blocks: seq<Block>, j: nat, scale: real)
    requires Exponential(E) && row.Valid() && BlocksOk(blocks, row.acc.Length) && j < |blocks|
             && |blocks[j].scores| <= row.p.Length
    requires Folded(E, row.Contents(), blocks[..j], scale)
    modifies row, row.p, row.pv, row.acc
    ensures row.Valid() && Folded(E, row.Contents(), blocks[..j + 1], scale)
  {
    ghost var st := row.Contents();
    PrefixGrows(blocks, j);
    row.FoldBlock(E, Scaled(blocks[j].scores, scale), blocks[j].values, j == 0);
    FoldedStep(E, st, row.Contents(), blocks[..j], blocks[j], scale);
  }

  /** MAIN RESULT.  However many blocks the keys come in, and whatever their sizes, the streamed output is dense
      attention over all of them. */
  method StreamingAttention(E: real -> real, blocks: seq<Block>, scale: real, width: nat) returns (o: array<real>)
    requires Exponential(E) && |blocks| > 0 && BlocksOk(blocks, width)
    ensures o.Length == width && IsDenseAttention(E, o[..], blocks, scale)
  {
    var row := StreamBlocks(E, blocks, scale, width);
    AllMatch(blocks, scale, width);
    SummaryIsDense(E, row.Contents(), AllScores(blocks, scale), AllValues(blocks));
    o := row.FinalizeO();
  }

  ghost predicate IsDenseAttention(E: real -> real, o: seq<real>, blocks: seq<Block>, scale: real)
    requires Exponential(E) && |blocks| > 0 && forall j :: 0 <= j < |blocks| ==> BlockOk(blocks[j], |o|)
  {
    var s, v := AllScores(blocks, scale), AllValues(blocks);
    AllMatch(blocks, scale, |o|);
    WeightPositive(E, s, 0.0);
    forall c :: 0 <= c < |o| ==> o[c] == Attention(E, s, Column(v, c))
  }

  /** Dividing the sums taken from the running maximum is dense attention. */
  lemma SummaryIsDense(E: real -> real, st: State, s: seq<real>, v: seq<seq<real>>)
    requires Exponential(E) && |s| == |v| > 0 && forall i :: 0 <= i < |v| ==> |v[i]| == |st.acc|
    requires Summarizes(E, st, s, v)
    ensures st.l > 0.0 && Weight(E, s, 0.0) > 0.0
    ensures forall c :: 0 <= c < |st.acc| ==> Finalized(st.acc, 1.0 / st.l)[c] == Attention(E, s, Column(v, c))
  {
    WeightPositive(E, s, 0.0);
    WeightPositive(E, s, st.m);
    var o := Finalized(st.acc, 1.0 / st.l);
    forall c | 0 <= c < |o| ensures o[c] == Attention(E, s, Column(v, c)) {
      Normalize(E, s, Column(v, c), st.m);
    }
  }
}
