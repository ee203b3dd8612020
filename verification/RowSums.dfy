/** Sums of a row of weights: in one chain, over lanes of contiguous columns, and over strided lanes.  On every
    row they agree exactly when addition is associative and commutes. */
module RowSums {
  import Arith
  import opened Bits
  import opened Reduce
  import opened TwoPass

  // ---- folds of chunks ------------------------------------------------------------------------------

  /** The folds of the first n chunks of c values. */
  function ChunkFolds<V>(f: (V, V) -> V, x: seq<V>, c: nat, n: nat): (r: seq<V>)
    requires c > 0 && n * c <= |x|
    ensures |r| == n
  {
    if n == 0 then []
    else
      ChunkStep(n, c);
      ChunkFolds(f, x, c, n - 1) + [Fold(f, x[(n - 1) * c..n * c])]
  }

  lemma ChunkStep(n: nat, c: nat)
    requires n > 0 && c > 0
    ensures 0 <= (n - 1) * c < n * c == (n - 1) * c + c
  {
  }

  lemma {:induction false} ChunkFoldsAt<V>(f: (V, V) -> V, x: seq<V>, c: nat, n: nat, i: nat)
    requires c > 0 && n * c <= |x| && i < n
    ensures 0 <= i * c <= i * c + c <= |x| && ChunkFolds(f, x, c, n)[i] == Fold(f, x[i * c..i * c + c])
  {
    ChunkStep(n, c);
    if i < n - 1 { ChunkFoldsAt(f, x, c, n - 1, i); }
  }

  /** The same, given where the chunk starts. */
  lemma ChunkFoldsFrom<V>(f: (V, V) -> V, x: seq<V>, c: nat, n: nat, i: nat, o: nat)
    requires c > 0 && n * c <= |x| && i < n && o == i * c
    ensures o + c <= |x| && ChunkFolds(f, x, c, n)[i] == Fold(f, x[o..o + c])
  {
    ChunkFoldsAt(f, x, c, n, i);
  }

  /** v is the fold of the i-th chunk of c values. */
  ghost predicate FoldsChunk<V>(f: (V, V) -> V, x: seq<V>, c: nat, i: nat, v: V) {
    0 < c && 0 <= i * c && i * c + c <= |x| && v == Fold(f, x[i * c..i * c + c])
  }

  /** Folding the chunks' folds is folding them all. */
  lemma {:induction false} FoldOfChunks<V(!new)>(f: (V, V) -> V, x: seq<V>, c: nat, n: nat, folds: seq<V>)
    requires Associative(f) && c > 0 && |folds| == n > 0 && |x| == n * c
    requires forall i: nat :: i < n ==> FoldsChunk(f, x, c, i, folds[i])
    ensures |x| > 0 && Fold(f, folds) == Fold(f, x)
    decreases n
  {
    ChunkStep(n, c);
    var front, last, rest := x[..|x| - c], x[|x| - c..], folds[..n - 1];
    assert x == front + last;
    assert FoldsChunk(f, x, c, n - 1, folds[n - 1]) && last == x[(n - 1) * c..(n - 1) * c + c];
    if n > 1 {
      forall i: nat | i < n - 1 ensures FoldsChunk(f, front, c, i, rest[i]) { InFront(f, x, c, n, i, folds[i]); }
      FoldOfChunks(f, front, c, n - 1, rest);
      FoldConcat(f, front, last);
    } else {
      assert front == [];
    }
  }

  lemma InFront<V>(f: (V, V) -> V, x: seq<V>, c: nat, n: nat, i: nat, v: V)
    requires c > 0 && |x| == n * c && i < n - 1 && FoldsChunk(f, x, c, i, v)
    ensures FoldsChunk(f, x[..|x| - c], c, i, v)
  {
    Arith.MulGe(n - 1, i + 1, c);
    ChunkStep(n, c);
    ChunkStep(i + 1, c);
    assert x[..|x| - c][i * c..i * c + c] == x[i * c..i * c + c];
  }

  lemma ChunksFold<V(!new)>(f: (V, V) -> V, x: seq<V>, c: nat, n: nat)
    requires Associative(f) && c > 0 && n > 0 && |x| == n * c
    ensures Fold(f, ChunkFolds(f, x, c, n)) == Fold(f, x)
  {
    var folds := ChunkFolds(f, x, c, n);
    forall i: nat | i < n ensures FoldsChunk(f, x, c, i, folds[i]) { ChunkFoldsAt(f, x, c, n, i); }
    FoldOfChunks(f, x, c, n, folds);
  }

  // ---- three ways to sum a row ---------------------------------------------------------------------------

  /** In one chain from zero. */
  function ChainSum<V>(ops: Ops<V>, e: seq<V>): V {
    Fold(ops.add, [ops.zero] + e)
  }

  /** By sixteen lanes of c contiguous columns each, from zero, and then the tree. */
  function LaneTreeSum<V>(ops: Ops<V>, e: seq<V>, c: nat): V
    requires c > 0 && |e| == 16 * c
  {
    Lanes16();
    Tree(ops.add, 4, ColumnSums(ops, e, c, 16))
  }

  /** The first n lanes' sums of their own columns. */
  function ColumnSums<V>(ops: Ops<V>, e: seq<V>, c: nat, n: nat): (r: seq<V>)
    requires c > 0 && n * c <= |e|
    ensures |r| == n
  {
    if n == 0 then []
    else
      ChunkStep(n, c);
      ColumnSums(ops, e, c, n - 1) + [ChainSum(ops, e[(n - 1) * c..n * c])]
  }

  /** By sixteen lanes that take pairs of columns in turn, and then the tree. */
  function StridedTreeSum<V>(ops: Ops<V>, e: seq<V>, n: nat): V
    requires |e| == 32 * n
  {
    Lanes16();
    Tree(ops.add, 4, StridedSums(ops, e, n))
  }

  function StridedSums<V>(ops: Ops<V>, e: seq<V>, j: nat): (r: seq<V>)
    requires 32 * j <= |e|
    ensures |r| == NT
  {
    seq(NT, lane requires 0 <= lane < NT => StridedSum(ops, e, lane, j))
  }

  /** A lane's sum of its first j pairs. */
  function StridedSum<V>(ops: Ops<V>, e: seq<V>, lane: nat, j: nat): V
    requires 32 * j <= |e| && lane < NT
  {
    if j == 0 then ops.zero
    else
      var at := 32 * (j - 1) + 2 * lane;
      ops.add(ops.add(StridedSum(ops, e, lane, j - 1), e[at]), e[at + 1])
  }

  /** Zero is neutral on both sides. */
  ghost predicate ZeroAdds<V>(ops: Ops<V>, x: V) {
    ops.add(ops.zero, x) == x && ops.add(x, ops.zero) == x
  }

  ghost predicate ZeroIsNeutral<V(!new)>(ops: Ops<V>) {
    forall x :: ZeroAdds(ops, x)
  }

  ghost predicate Commutative<V(!new)>(f: (V, V) -> V) {
    forall x, y :: Commute(f, x, y)
  }

  /** Addition without rounding. */
  ghost predicate ExactAddition<V(!new)>(ops: Ops<V>) {
    ZeroIsNeutral(ops) && Associative(ops.add) && Commutative(ops.add)
  }

  // ---- loops -----------------------------------------------------------------------------------------------

  /** A running sum taken on over the next values. */
  method SumOn<V>(ops: Ops<V>, before: seq<V>, sum: V, x: seq<V>) returns (t: V)
    requires sum == ChainSum(ops, before)
    ensures t == ChainSum(ops, before + x)
  {
    t := sum;
    assert before + x[..0] == before;
    for k := 0 to |x|
      invariant t == ChainSum(ops, before + x[..k])
    {
      var s := [ops.zero] + (before + x[..k + 1]);
      assert s[..|s| - 1] == [ops.zero] + (before + x[..k]);
      t := ops.add(t, x[k]);
    }
    assert before + x[..|x|] == before + x;
  }

  /** Every lane's chain over its own columns. */
  method SumColumns<V>(ops: Ops<V>, e: seq<V>, c: nat) returns (sums: seq<V>)
    requires c > 0 && |e| == 16 * c
    ensures sums == ColumnSums(ops, e, c, 16)
  {
    sums := [];
    for lane := 0 to 16
      invariant lane * c <= |e| && sums == ColumnSums(ops, e, c, lane)
    {
      ChunkStep(lane + 1, c);
      Arith.MulGe(16, lane + 1, c);
      var own := e[lane * c..(lane + 1) * c];
      var lsum := SumOn(ops, [], ops.zero, own);
      assert [] + own == own;
      sums := sums + [lsum];
    }
  }

  // ---- exact addition --------------------------------------------------------------------------------------

  lemma ChainFromZero<V(!new)>(ops: Ops<V>, e: seq<V>)
    requires ZeroIsNeutral(ops) && Associative(ops.add) && |e| > 0
    ensures ChainSum(ops, e) == Fold(ops.add, e)
  {
    FoldConcat(ops.add, [ops.zero], e);
    assert ZeroAdds(ops, Fold(ops.add, e));
  }

  lemma {:induction false} ExactColumnSums<V(!new)>(ops: Ops<V>, e: seq<V>, c: nat, n: nat)
    requires ZeroIsNeutral(ops) && Associative(ops.add) && c > 0 && n * c <= |e|
    ensures ColumnSums(ops, e, c, n) == ChunkFolds(ops.add, e, c, n)
  {
    if n > 0 {
      ChunkStep(n, c);
      ExactColumnSums(ops, e, c, n - 1);
      ChainFromZero(ops, e[(n - 1) * c..n * c]);
    }
  }

  /** Contiguous lanes sum to the chain when addition associates. */
  lemma LanesSumToChain<V(!new)>(ops: Ops<V>, e: seq<V>, c: nat)
    requires ZeroIsNeutral(ops) && Associative(ops.add) && c > 0 && |e| == 16 * c
    ensures LaneTreeSum(ops, e, c) == ChainSum(ops, e)
  {
    Lanes16();
    ExactColumnSums(ops, e, c, 16);
    TreeIsFold(ops.add, 4, ChunkFolds(ops.add, e, c, 16));
    ChunksFold(ops.add, e, c, 16);
    ChainFromZero(ops, e);
  }

  /** Adding two rows of sums position by position adds their folds. */
  lemma {:induction false} FoldOfSums<V(!new)>(ops: Ops<V>, a: seq<V>, b: seq<V>, s: seq<V>)
    requires Associative(ops.add) && Commutative(ops.add) && |a| == |b| == |s| > 0
    requires forall i :: 0 <= i < |s| ==> s[i] == ops.add(a[i], b[i])
    ensures Fold(ops.add, s) == ops.add(Fold(ops.add, a), Fold(ops.add, b))
  {
    var k := |s| - 1;
    if k > 0 {
      FoldOfSums(ops, a[..k], b[..k], s[..k]);
      Exchange(ops, Fold(ops.add, a[..k]), Fold(ops.add, b[..k]), a[k], b[k]);
    }
  }

  lemma Exchange<V(!new)>(ops: Ops<V>, a: V, b: V, c: V, d: V)
    requires Associative(ops.add) && Commutative(ops.add)
    ensures ops.add(ops.add(a, b), ops.add(c, d)) == ops.add(ops.add(a, c), ops.add(b, d))
  {
    assert Associate(ops.add, a, b, ops.add(c, d)) && Associate(ops.add, b, c, d) && Commute(ops.add, b, c);
    assert Associate(ops.add, c, b, d) && Associate(ops.add, a, c, ops.add(b, d));
  }

  /** Folding the sums of pairs is folding them all. */
  lemma {:induction false} FoldOfPairs<V(!new)>(ops: Ops<V>, x: seq<V>, p: seq<V>)
    requires Associative(ops.add) && |p| > 0 && |x| == 2 * |p|
    requires forall i :: 0 <= i < |p| ==> p[i] == ops.add(x[2 * i], x[2 * i + 1])
    ensures Fold(ops.add, p) == Fold(ops.add, x)
  {
    var k := |p| - 1;
    assert x[..2 * k + 1][..2 * k] == x[..2 * k];
    if k > 0 {
      FoldOfPairs(ops, x[..2 * k], p[..k]);
      assert Associate(ops.add, Fold(ops.add, x[..2 * k]), x[2 * k], x[2 * k + 1]);
    } else {
      assert x[..1] == [x[0]];
    }
  }

  function PairSums<V>(ops: Ops<V>, x: seq<V>): (r: seq<V>)
    requires |x| == 2 * NT
    ensures |r| == NT && forall i :: 0 <= i < NT ==> r[i] == ops.add(x[2 * i], x[2 * i + 1])
  {
    seq(NT, i requires 0 <= i < NT => ops.add(x[2 * i], x[2 * i + 1]))
  }

  lemma StridedStep<V(!new)>(ops: Ops<V>, e: seq<V>, lane: nat, j: nat)
    requires Associative(ops.add) && 0 < 32 * j <= |e| && lane < NT
    ensures StridedSum(ops, e, lane, j)
            == ops.add(StridedSum(ops, e, lane, j - 1), PairSums(ops, e[32 * (j - 1)..32 * (j - 1) + 32])[lane])
  {
    var at := 32 * (j - 1) + 2 * lane;
    assert Associate(ops.add, StridedSum(ops, e, lane, j - 1), e[at], e[at + 1]);
  }

  /** After j rounds the strided lanes together hold the sum of the first 32 * j columns. */
  lemma {:induction false} StridedSumsFold<V(!new)>(ops: Ops<V>, e: seq<V>, j: nat)
    requires ExactAddition(ops) && 0 < 32 * j <= |e|
    ensures Fold(ops.add, StridedSums(ops, e, j)) == Fold(ops.add, e[..32 * j])
  {
    var at := 32 * (j - 1);
    var x := e[at..at + 32];
    var before, after, pairs := StridedSums(ops, e, j - 1), StridedSums(ops, e, j), PairSums(ops, x);
    FoldOfPairs(ops, x, pairs);
    RoundAdds(ops, e, j);
    assert e[..32 * j] == e[..at] + x;
    if j == 1 {
      FirstRound(ops, before, pairs, after);
      assert e[..at] == [] && [] + x == x;
    } else {
      StridedSumsFold(ops, e, j - 1);
      FoldOfSums(ops, before, pairs, after);
      FoldConcat(ops.add, e[..at], x);
    }
  }

  /** A round adds each lane's pair to the lane's sum. */
  lemma RoundAdds<V(!new)>(ops: Ops<V>, e: seq<V>, j: nat)
    requires Associative(ops.add) && 0 < 32 * j <= |e|
    ensures forall lane :: 0 <= lane < NT ==>
              StridedSums(ops, e, j)[lane] == ops.add(StridedSums(ops, e, j - 1)[lane],
                                                      PairSums(ops, e[32 * (j - 1)..32 * (j - 1) + 32])[lane])
  {
    forall lane: nat | lane < NT
      ensures StridedSums(ops, e, j)[lane] == ops.add(StridedSums(ops, e, j - 1)[lane],
                                                      PairSums(ops, e[32 * (j - 1)..32 * (j - 1) + 32])[lane])
    {
      StridedStep(ops, e, lane, j);
    }
  }

  lemma FirstRound<V(!new)>(ops: Ops<V>, before: seq<V>, pairs: seq<V>, after: seq<V>)
    requires ZeroIsNeutral(ops) && |before| == |pairs| == |after|
    requires forall i :: 0 <= i < |after| ==> before[i] == ops.zero && after[i] == ops.add(before[i], pairs[i])
    ensures after == pairs
  {
    forall i | 0 <= i < |after| ensures after[i] == pairs[i] { assert ZeroAdds(ops, pairs[i]); }
  }

  lemma StridedSumToChain<V(!new)>(ops: Ops<V>, e: seq<V>, n: nat)
    requires ExactAddition(ops) && n > 0 && |e| == 32 * n
    ensures StridedTreeSum(ops, e, n) == ChainSum(ops, e)
  {
    Lanes16();
    TreeIsFold(ops.add, 4, StridedSums(ops, e, n));
    StridedSumsFold(ops, e, n);
    assert e[..32 * n] == e;
    ChainFromZero(ops, e);
  }

  // ---- addition that is not exact --------------------------------------------------------------------------

  function Zeros<V>(ops: Ops<V>, k: nat): (r: seq<V>)
    ensures |r| == k && forall i :: 0 <= i < k ==> r[i] == ops.zero
  {
    seq(k, _ => ops.zero)
  }

  lemma {:induction false} ChainOverZeros<V(!new)>(ops: Ops<V>, s: seq<V>, k: nat)
    requires ZeroIsNeutral(ops)
    ensures ChainSum(ops, s + Zeros(ops, k)) == ChainSum(ops, s)
  {
    if k == 0 {
      assert s + Zeros(ops, 0) == s;
    } else {
      ChainOverZeros(ops, s, k - 1);
      ChainTo(ops, s + Zeros(ops, k - 1), ops.zero);
      assert s + Zeros(ops, k) == s + Zeros(ops, k - 1) + [ops.zero];
      assert ZeroAdds(ops, ChainSum(ops, s));
    }
  }

  lemma ChainTo<V>(ops: Ops<V>, s: seq<V>, x: V)
    ensures ChainSum(ops, s + [x]) == ops.add(ChainSum(ops, s), x)
  {
    var t := [ops.zero] + (s + [x]);
    assert t[..|t| - 1] == [ops.zero] + s;
  }

  /** A value with zeros behind it. */
  function Padded<V>(ops: Ops<V>, x: V, c: nat): (r: seq<V>)
    requires c > 0
    ensures |r| == c && r[0] == x && forall i :: 0 < i < c ==> r[i] == ops.zero
  {
    [x] + Zeros(ops, c - 1)
  }

  lemma ChainWithPadded<V(!new)>(ops: Ops<V>, s: seq<V>, x: V, c: nat)
    requires ZeroIsNeutral(ops) && c > 0
    ensures ChainSum(ops, s + Padded(ops, x, c)) == ops.add(ChainSum(ops, s), x)
  {
    ChainTo(ops, s, x);
    ChainOverZeros(ops, s + [x], c - 1);
    assert s + Padded(ops, x, c) == s + [x] + Zeros(ops, c - 1);
  }

  /** The row whose every lane holds one value and otherwise zeros. */
  function Spread<V>(ops: Ops<V>, lanes: seq<V>, c: nat): (r: seq<V>)
    requires c > 0
    ensures |r| == |lanes| * c
  {
    if lanes == [] then []
    else
      Arith.Distribute(|lanes| - 1, 1, c);
      Spread(ops, lanes[..|lanes| - 1], c) + Padded(ops, lanes[|lanes| - 1], c)
  }

  lemma {:induction false} SpreadChain<V(!new)>(ops: Ops<V>, lanes: seq<V>, c: nat)
    requires ZeroIsNeutral(ops) && c > 0
    ensures ChainSum(ops, Spread(ops, lanes, c)) == ChainSum(ops, lanes)
  {
    if lanes != [] {
      var k := |lanes| - 1;
      SpreadChain(ops, lanes[..k], c);
      ChainWithPadded(ops, Spread(ops, lanes[..k], c), lanes[k], c);
      ChainTo(ops, lanes[..k], lanes[k]);
      assert lanes[..k] + [lanes[k]] == lanes;
    }
  }

  lemma Regroup<V>(front: seq<V>, last: seq<V>, rest: seq<V>, at: nat, end: nat)
    requires |front| == at && at + |last| == end
    ensures front + last + rest == front + (last + rest)
    ensures (front + last + rest)[at..end] == last
  {
  }

  lemma ColumnStep<V>(ops: Ops<V>, e: seq<V>, c: nat, k: nat, last: seq<V>)
    requires c > 0 && (k + 1) * c <= |e| && k * c <= (k + 1) * c && last == e[k * c..(k + 1) * c]
    ensures ColumnSums(ops, e, c, k + 1) == ColumnSums(ops, e, c, k) + [ChainSum(ops, last)]
  {
  }

  lemma {:induction false} SpreadColumns<V(!new)>(ops: Ops<V>, lanes: seq<V>, rest: seq<V>, c: nat)
    requires ZeroIsNeutral(ops) && c > 0
    ensures ColumnSums(ops, Spread(ops, lanes, c) + rest, c, |lanes|) == lanes
  {
    if lanes != [] {
      var k := |lanes| - 1;
      var front, last := Spread(ops, lanes[..k], c), Padded(ops, lanes[k], c);
      SpreadColumns(ops, lanes[..k], last + rest, c);
      ChunkStep(|lanes|, c);
      Regroup(front, last, rest, k * c, |lanes| * c);
      ColumnStep(ops, front + last + rest, c, k, last);
      ChainWithPadded(ops, [], lanes[k], c);
      assert [] + last == last && ZeroAdds(ops, lanes[k]);
    }
  }

  ghost predicate LanesAgree<V>(ops: Ops<V>, e: seq<V>, c: nat)
    requires c > 0 && |e| == 16 * c
  {
    LaneTreeSum(ops, e, c) == ChainSum(ops, e)
  }

  /** Contiguous lanes agree with the chain on every row exactly when addition is associative. */
  lemma LanesAgreeIffAssociative<V(!new)>(ops: Ops<V>, c: nat)
    requires ZeroIsNeutral(ops) && c > 0
    ensures (forall e: seq<V> | |e| == 16 * c :: LanesAgree(ops, e, c)) <==> Associative(ops.add)
  {
    if Associative(ops.add) {
      forall e: seq<V> | |e| == 16 * c ensures LanesAgree(ops, e, c) { LanesSumToChain(ops, e, c); }
    }
    if forall e: seq<V> | |e| == 16 * c :: LanesAgree(ops, e, c) {
      forall x, y, z ensures Associate(ops.add, x, y, z) { AssociateFromRow(ops, x, y, z, c); }
    }
  }

  lemma AssociateFromRow<V(!new)>(ops: Ops<V>, x: V, y: V, z: V, c: nat)
    requires ZeroIsNeutral(ops) && c > 0 && forall e: seq<V> | |e| == 16 * c :: LanesAgree(ops, e, c)
    ensures Associate(ops.add, x, y, z)
  {
    Lanes16();
    var lanes := [x, ops.zero, y, z] + Zeros(ops, 12);
    var e := Spread(ops, lanes, c);
    assert LanesAgree(ops, e, c);
    SpreadColumns(ops, lanes, [], c);
    assert e + [] == e;
    SpreadChain(ops, lanes, c);
    TreeOf16(ops.add, lanes);
    ChainOverZeros(ops, [x, ops.zero, y, z], 12);
    ChainOfFour(ops, x, ops.zero, y, z);
    assert ZeroAdds(ops, x) && ZeroAdds(ops, ops.zero) && ZeroAdds(ops, ops.add(x, ops.add(y, z)));
  }

  lemma ChainOfFour<V>(ops: Ops<V>, a: V, b: V, c: V, d: V)
    ensures ChainSum(ops, [a, b, c, d]) == ops.add(ops.add(ops.add(ops.add(ops.zero, a), b), c), d)
  {
    ChainTo(ops, [a, b, c], d);
    ChainTo(ops, [a, b], c);
    ChainTo(ops, [a], b);
    ChainTo(ops, [], a);
    assert [] + [a] == [a] && [a] + [b] == [a, b] && [a, b] + [c] == [a, b, c] && [a, b, c] + [d] == [a, b, c, d];
  }

  ghost predicate AllAgree<V>(ops: Ops<V>, e: seq<V>, c: nat, n: nat)
    requires c > 0 && |e| == 16 * c == 32 * n
  {
    LaneTreeSum(ops, e, c) == ChainSum(ops, e) == StridedTreeSum(ops, e, n)
  }

  /** All three sums agree on every row of two blocks or more exactly when addition is exact. */
  lemma DenominatorsAgreeIffExact<V(!new)>(ops: Ops<V>, c: nat, n: nat)
    requires ZeroIsNeutral(ops) && 16 * c == 32 * n && n > 1
    ensures (forall e: seq<V> | |e| == 16 * c :: AllAgree(ops, e, c, n)) <==> ExactAddition(ops)
  {
    if ExactAddition(ops) {
      forall e: seq<V> | |e| == 16 * c ensures AllAgree(ops, e, c, n) {
        LanesSumToChain(ops, e, c);
        StridedSumToChain(ops, e, n);
      }
    }
    if forall e: seq<V> | |e| == 16 * c :: AllAgree(ops, e, c, n) {
      forall e: seq<V> | |e| == 16 * c ensures LanesAgree(ops, e, c) { assert AllAgree(ops, e, c, n); }
      LanesAgreeIffAssociative(ops, c);
      forall x, y ensures Commute(ops.add, x, y) {
        var e := Crossed(ops, x, y, n);
        assert AllAgree(ops, e, c, n);
        CrossedSums(ops, x, y, n);
      }
    }
  }

  /** A row with x in lane 1's first pair and y in lane 0's second. */
  function Crossed<V>(ops: Ops<V>, x: V, y: V, n: nat): (e: seq<V>)
    requires n > 1
    ensures |e| == 32 * n && e[2] == x && e[32] == y
    ensures forall i :: 0 <= i < |e| && i != 2 && i != 32 ==> e[i] == ops.zero
  {
    Padded(ops, ops.zero, 2) + Padded(ops, x, 30) + Padded(ops, y, 32 * n - 32)
  }

  /** The lanes add y, of lane 0, before x; the chain meets x first. */
  lemma CrossedSums<V(!new)>(ops: Ops<V>, x: V, y: V, n: nat)
    requires ZeroIsNeutral(ops) && n > 1
    ensures ChainSum(ops, Crossed(ops, x, y, n)) == ops.add(x, y)
    ensures StridedTreeSum(ops, Crossed(ops, x, y, n), n) == ops.add(y, x)
  {
    Lanes16();
    var e := Crossed(ops, x, y, n);
    var front := Padded(ops, ops.zero, 2);
    ChainWithPadded(ops, [], ops.zero, 2);
    assert [] + front == front;
    ChainWithPadded(ops, front, x, 30);
    ChainWithPadded(ops, front + Padded(ops, x, 30), y, 32 * n - 32);
    assert ZeroAdds(ops, ops.zero) && ZeroAdds(ops, x);
    var lanes := StridedSums(ops, e, n);
    forall lane: nat | lane < NT ensures lanes[lane] == if lane == 0 then y else if lane == 1 then x else ops.zero {
      CrossedLane(ops, x, y, n, lane, n);
    }
    TreeOf16(ops.add, lanes);
    assert ZeroAdds(ops, ops.add(y, x));
  }

  lemma {:induction false} CrossedLane<V(!new)>(ops: Ops<V>, x: V, y: V, n: nat, lane: nat, j: nat)
    requires ZeroIsNeutral(ops) && n > 1 && lane < NT && j <= n
    ensures StridedSum(ops, Crossed(ops, x, y, n), lane, j)
            == if lane == 0 && j > 1 then y else if lane == 1 && j > 0 then x else ops.zero
  {
    if j > 0 {
      CrossedLane(ops, x, y, n, lane, j - 1);
      assert ZeroAdds(ops, x) && ZeroAdds(ops, y) && ZeroAdds(ops, ops.zero);
    }
  }

  // ---- an example of rounding ------------------------------------------------------------------------------

  /** A rounded sum that loses an addend eight times smaller than the sum so far. */
  function Absorbing(x: int, y: int): int {
    if 0 < y && x >= 8 * y then x else x + y
  }

  function Ones(k: nat): (r: seq<int>)
    ensures |r| == k && forall i :: 0 <= i < k ==> r[i] == 1
  {
    seq(k, _ => 1)
  }

  lemma {:induction false} ChainOfOnes(k: nat)
    ensures Fold(Absorbing, [0] + Ones(k)) == if k < 8 then k else 8
  {
    var s := [0] + Ones(k);
    if k > 0 {
      assert s[..|s| - 1] == [0] + Ones(k - 1);
      ChainOfOnes(k - 1);
    }
  }

  lemma {:induction false} TreeOfOnes(j: nat)
    ensures Tree(Absorbing, j, Ones(Pow2(j))) == Pow2(j)
  {
    if j > 0 {
      assert Ones(Pow2(j))[..Pow2(j - 1)] == Ones(Pow2(j - 1)) == Ones(Pow2(j))[Pow2(j - 1)..];
      TreeOfOnes(j - 1);
    }
  }

  lemma {:induction false} SumsOfOnes(ops: Ops<int>, e: seq<int>, n: nat)
    requires ops.add == Absorbing && ops.zero == 0 && n <= |e| && e == Ones(|e|)
    ensures ColumnSums(ops, e, 1, n) == Ones(n)
  {
    if n > 0 {
      SumsOfOnes(ops, e, n - 1);
      assert e[n - 1..n] == Ones(1);
      ChainOfOnes(1);
    }
  }

  /** Under rounding the denominators differ: sixteen equal weights sum to 16 over lanes and to 8 in a chain. */
  lemma DenominatorsDiffer(ops: Ops<int>)
    requires ops.add == Absorbing && ops.zero == 0
    ensures LaneTreeSum(ops, Ones(16), 1) == 16 && ChainSum(ops, Ones(16)) == 8
  {
    Lanes16();
    ChainOfOnes(16);
    TreeOfOnes(4);
    SumsOfOnes(ops, Ones(16), 16);
  }
}
