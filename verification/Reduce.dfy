/** Cross-lane reductions of 2^k values by an operation that need not be associative. */
module Reduce {
  import opened Arith
  import opened Bits

  /** The balanced binary tree over the lanes. */
  function Tree<V>(op: (V, V) -> V, k: nat, s: seq<V>): V
    requires |s| == Pow2(k)
  {
    if k == 0 then s[0]
    else op(Tree(op, k - 1, s[..Pow2(k - 1)]), Tree(op, k - 1, s[Pow2(k - 1)..]))
  }

  function Lanes(n: nat): (r: set<nat>)
    ensures forall lane: nat :: lane in r <==> lane < n
  {
    if n == 0 then {} else Lanes(n - 1) + {n - 1}
  }

  lemma Pow2Inverse(i: nat, k: nat)
    ensures Pow2(i) <= Pow2(k) ==> i <= k
    ensures Pow2(i) < 2 * Pow2(k) ==> i <= k
  {
    if i > k { Pow2Grows(k + 1, i); }
  }

  // ---- the tree of an associative operation -------------------------------------------------------

  ghost predicate Associate<V>(f: (V, V) -> V, x: V, y: V, z: V) {
    f(f(x, y), z) == f(x, f(y, z))
  }

  ghost predicate Associative<V(!new)>(f: (V, V) -> V) {
    forall x, y, z :: Associate(f, x, y, z)
  }

  /** Left to right. */
  function Fold<V>(f: (V, V) -> V, s: seq<V>): V
    requires |s| > 0
  {
    if |s| == 1 then s[0] else f(Fold(f, s[..|s| - 1]), s[|s| - 1])
  }

  lemma {:induction false} FoldConcat<V(!new)>(f: (V, V) -> V, s: seq<V>, t: seq<V>)
    requires Associative(f) && |s| > 0 && |t| > 0
    ensures Fold(f, s + t) == f(Fold(f, s), Fold(f, t))
    decreases |t|
  {
    if |t| == 1 {
      assert (s + t)[..|s + t| - 1] == s;
    } else {
      var u := t[..|t| - 1];
      assert (s + t)[..|s + t| - 1] == s + u;
      FoldConcat(f, s, u);
      assert Associate(f, Fold(f, s), Fold(f, u), t[|t| - 1]);
    }
  }

  lemma {:induction false} TreeIsFold<V(!new)>(f: (V, V) -> V, k: nat, s: seq<V>)
    requires Associative(f) && |s| == Pow2(k)
    ensures Tree(f, k, s) == Fold(f, s)
    decreases k
  {
    if k > 0 {
      var lo, hi := s[..Pow2(k - 1)], s[Pow2(k - 1)..];
      TreeIsFold(f, k - 1, lo);
      TreeIsFold(f, k - 1, hi);
      FoldConcat(f, lo, hi);
      assert s == lo + hi;
    }
  }

  // ---- one level of the in-place tree -------------------------------------------------------------

  /** Lanes that are multiples of 2^(j + 1) take in the lane 2^j above. */
  function Level<V>(op: (V, V) -> V, k: nat, j: nat, s: seq<V>): (r: seq<V>)
    requires |s| == Pow2(k) && j < k
    ensures |r| == |s|
  {
    if j == k - 1 then s[0 := op(s[0], s[Pow2(j)])]
    else Level(op, k - 1, j, s[..Pow2(k - 1)]) + Level(op, k - 1, j, s[Pow2(k - 1)..])
  }

  /** The lanes after the first j levels. */
  function Levels<V>(op: (V, V) -> V, k: nat, j: nat, s: seq<V>): (r: seq<V>)
    requires |s| == Pow2(k) && j <= k
    ensures |r| == |s|
  {
    if j == 0 then s else Level(op, k, j - 1, Levels(op, k, j - 1, s))
  }

  lemma {:induction false} LevelsSplit<V>(op: (V, V) -> V, k: nat, j: nat, s: seq<V>)
    requires |s| == Pow2(k) && j < k
    ensures Levels(op, k, j, s) == Levels(op, k - 1, j, s[..Pow2(k - 1)]) + Levels(op, k - 1, j, s[Pow2(k - 1)..])
  {
    var h := Pow2(k - 1);
    if j == 0 {
      assert s == s[..h] + s[h..];
    } else {
      LevelsSplit(op, k, j - 1, s);
      var lo, hi := Levels(op, k - 1, j - 1, s[..h]), Levels(op, k - 1, j - 1, s[h..]);
      assert (lo + hi)[..h] == lo && (lo + hi)[h..] == hi;
    }
  }

  /** All levels leave the tree in lane 0. */
  lemma {:induction false} LevelsTree<V>(op: (V, V) -> V, k: nat, s: seq<V>)
    requires |s| == Pow2(k)
    ensures Levels(op, k, k, s)[0] == Tree(op, k, s)
  {
    if k > 0 {
      LevelsSplit(op, k, k - 1, s);
      LevelsTree(op, k - 1, s[..Pow2(k - 1)]);
      LevelsTree(op, k - 1, s[Pow2(k - 1)..]);
    }
  }

  lemma {:induction false} LevelAt<V>(op: (V, V) -> V, k: nat, j: nat, s: seq<V>, lane: nat)
    requires |s| == Pow2(k) && j < k && lane < Pow2(k)
    ensures Clear(k, j + 1, lane) ==> lane + Pow2(j) < Pow2(k) && !Clear(k, j + 1, lane + Pow2(j))
    ensures Level(op, k, j, s)[lane] == if Clear(k, j + 1, lane) then op(s[lane], s[lane + Pow2(j)]) else s[lane]
  {
    if j < k - 1 {
      var h := Pow2(k - 1);
      if lane < h { LevelAt(op, k - 1, j, s[..h], lane); } else { LevelAt(op, k - 1, j, s[h..], lane - h); }
    }
  }

  lemma LaneActs(k: nat, j: nat, lane: nat)
    requires j < k && lane < Pow2(k)
    ensures lane % Pow2(j + 1) == 0 <==> Clear(k, j + 1, lane)
    ensures Clear(k, j + 1, lane) ==> lane + Pow2(j) < Pow2(k) && !Clear(k, j + 1, lane + Pow2(j))
  {
    ClearIsAligned(k, j + 1, lane);
    LevelAt((x: int, y: int) => x, k, j, seq(Pow2(k), _ => 0), lane);
  }

  /** The lanes of one level in any order: those in todo have not stored yet. */
  ghost predicate MidLevel<V>(s: seq<V>, target: seq<V>, now: seq<V>, todo: set<nat>)
    requires |s| == |target| == |now|
  {
    forall lane: nat :: lane < |s| ==> now[lane] == if lane in todo then s[lane] else target[lane]
  }

  /** What the store of a lane has to produce. */
  lemma LaneGoal<V>(op: (V, V) -> V, k: nat, j: nat, s: seq<V>, target: seq<V>, now: seq<V>, todo: set<nat>, lane: nat)
    requires |s| == |now| == Pow2(k) && j < k && target == Level(op, k, j, s)
    requires MidLevel(s, target, now, todo) && lane in todo && lane < |s|
    ensures Clear(k, j + 1, lane) ==> lane + Pow2(j) < |s|
    ensures target[lane] == if Clear(k, j + 1, lane) then op(now[lane], now[lane + Pow2(j)]) else now[lane]
  {
    LevelAt(op, k, j, s, lane);
    if Clear(k, j + 1, lane) { LevelAt(op, k, j, s, lane + Pow2(j)); }
  }

  /** Whether a lane stores at the level of this stride. */
  method Stores(lane: nat, stride: nat, ghost k: nat, ghost j: nat) returns (b: bool)
    requires j < k && lane < Pow2(k) && stride == Pow2(j + 1)
    ensures b <==> Clear(k, j + 1, lane)
  {
    ClearIsAligned(k, j + 1, lane);
    b := lane % stride == 0;
  }

  /** One lane at one level. */
  method LaneStep<V>(op: (V, V) -> V, ghost k: nat, ghost j: nat, stride: nat, buf: array<V>, lane: nat,
                     ghost s: seq<V>, ghost target: seq<V>, ghost todo: set<nat>)
    requires buf.Length == |s| == Pow2(k) && j < k && stride == Pow2(j + 1) && lane < buf.Length
    requires target == Level(op, k, j, s) && MidLevel(s, target, buf[..], todo) && lane in todo
    modifies buf
    ensures buf[..] == old(buf[..])[lane := target[lane]]
  {
    LaneGoal(op, k, j, s, target, buf[..], todo, lane);
    var stores := Stores(lane, stride, k, j);
    if stores {
      var a, b := buf[lane], buf[lane + stride / 2];
      buf[lane] := op(a, b);
    }
  }

  /** One level: the lanes that are multiples of the stride each store once, in any order. */
  method TreeLevel<V>(op: (V, V) -> V, ghost k: nat, ghost j: nat, stride: nat, buf: array<V>)
    requires buf.Length == Pow2(k) && j < k && stride == Pow2(j + 1)
    modifies buf
    ensures buf[..] == Level(op, k, j, old(buf[..]))
  {
    ghost var before, target := buf[..], Level(op, k, j, buf[..]);
    var todo := Lanes(buf.Length);
    while todo != {}
      invariant forall lane :: lane in todo ==> 0 <= lane < buf.Length
      invariant MidLevel(before, target, buf[..], todo)
      decreases todo
    {
      var lane :| lane in todo;
      LaneStep(op, k, j, stride, buf, lane, before, target, todo);
      todo := todo - {lane};
    }
  }

  /** MAIN RESULT 1.  Whatever the operation and whatever the order of the lanes within a level, slot 0 ends
      up with the balanced tree of all lanes. */
  method WarpTreeReduce<V>(op: (V, V) -> V, k: nat, buf: array<V>)
    requires buf.Length == Pow2(k)
    modifies buf
    ensures buf[0] == Tree(op, k, old(buf[..]))
  {
    ghost var s := buf[..];
    var stride := 2;
    ghost var j := 0;
    while stride <= buf.Length
      invariant j <= k && stride == Pow2(j + 1) && buf[..] == Levels(op, k, j, s)
      decreases k - j
    {
      Pow2Inverse(j + 1, k);
      TreeLevel(op, k, j, stride, buf);
      stride := stride * 2;
      j := j + 1;
    }
    if j < k { Pow2Grows(j + 1, k); }
    LevelsTree(op, k, s);
  }

  // ---- the fold in registers ----------------------------------------------------------------------

  /** The n pairs of neighbours. */
  function Pairs<V>(op: (V, V) -> V, n: nat, s: seq<V>): (r: seq<V>)
    requires |s| == 2 * n
    ensures |r| == n && forall i :: 0 <= i < n ==> r[i] == op(s[2 * i], s[2 * i + 1])
  {
    seq(n, i requires 0 <= i < n => op(s[2 * i], s[2 * i + 1]))
  }

  /** The tree over the 2^k lanes from `off`. */
  function TreeAt<V>(op: (V, V) -> V, k: nat, s: seq<V>, off: nat): V
    requires off + Pow2(k) <= |s|
  {
    if k == 0 then s[off] else op(TreeAt(op, k - 1, s, off), TreeAt(op, k - 1, s, off + Pow2(k - 1)))
  }

  lemma {:induction false} TreeOfSlice<V>(op: (V, V) -> V, k: nat, s: seq<V>, off: nat, t: seq<V>)
    requires off + Pow2(k) <= |s| && t == s[off..off + Pow2(k)]
    ensures Tree(op, k, t) == TreeAt(op, k, s, off)
    decreases k
  {
    if k > 0 {
      var h := Pow2(k - 1);
      TreeOfSlice(op, k - 1, s, off, t[..h]);
      TreeOfSlice(op, k - 1, s, off + h, t[h..]);
    }
  }

  lemma {:induction false} PairsAt<V>(op: (V, V) -> V, k: nat, n: nat, s: seq<V>, off: nat)
    requires |s| == 2 * n && off + Pow2(k) <= n
    ensures TreeAt(op, k, Pairs(op, n, s), off) == TreeAt(op, k + 1, s, 2 * off)
    decreases k
  {
    if k > 0 {
      PairsAt(op, k - 1, n, s, off);
      PairsAt(op, k - 1, n, s, off + Pow2(k - 1));
    } else {
      PairIsTree(op, n, s, off);
    }
  }

  lemma PairIsTree<V>(op: (V, V) -> V, n: nat, s: seq<V>, off: nat)
    requires |s| == 2 * n && off < n
    ensures Pow2(1) == 2 && TreeAt(op, 1, s, 2 * off) == Pairs(op, n, s)[off]
  {
    assert TreeAt(op, 1, s, 2 * off) == op(TreeAt(op, 0, s, 2 * off), TreeAt(op, 0, s, 2 * off + Pow2(0)));
  }

  /** The first level of the tree can be taken by itself. */
  lemma TreeOfPairs<V>(op: (V, V) -> V, k: nat, s: seq<V>)
    requires |s| == Pow2(k + 1)
    ensures Tree(op, k, Pairs(op, Pow2(k), s)) == Tree(op, k + 1, s)
  {
    PairsAt(op, k, Pow2(k), s, 0);
    TreeOfSlice(op, k + 1, s, 0, s);
    TreeOfSlice(op, k, Pairs(op, Pow2(k), s), 0, Pairs(op, Pow2(k), s));
  }

  lemma BetweenMultiples(x: nat, p: nat, i: nat)
    requires p > 0 && x % p == 0 && x < i < x + p
    ensures i % p != 0
  {
    DivMod(x, p);
    Remainder(i, p, x / p, i - x);
  }

  lemma NextMultiple(x: nat, p: nat)
    requires p > 0 && x % p == 0
    ensures (x + p) % p == 0
  {
    DivMod(x, p);
    Distribute(x / p, 1, p);
    Remainder(x + p, p, x / p + 1, 0);
  }

  /** The inner loop of the fold has reached x, a multiple of its step. */
  ghost predicate MidFold<V>(op: (V, V) -> V, k: nat, j: nat, s: seq<V>, now: seq<V>, x: nat)
    requires |s| == Pow2(k) == |now| && j < k
  {
    forall i: nat :: i < |s| ==> now[i] == if i < x then Level(op, k, j, s)[i] else s[i]
  }

  lemma MidFoldStep<V>(op: (V, V) -> V, k: nat, j: nat, s: seq<V>, now: seq<V>, x: nat)
    requires |s| == Pow2(k) == |now| && j < k && MidFold(op, k, j, s, now, x)
    requires x % Pow2(j + 1) == 0 && x + Pow2(j) < |s|
    ensures MidFold(op, k, j, s, now[x := op(now[x], now[x + Pow2(j)])], x + Pow2(j + 1))
    ensures (x + Pow2(j + 1)) % Pow2(j + 1) == 0
  {
    NextMultiple(x, Pow2(j + 1));
    var now' := now[x := op(now[x], now[x + Pow2(j)])];
    forall i: nat | x <= i < x + Pow2(j + 1) && i < |s| ensures now'[i] == Level(op, k, j, s)[i] {
      FoldedAt(op, k, j, s, x, i);
    }
  }

  /** At this level the multiple x takes in its partner and the lanes up to the next multiple keep what they hold. */
  lemma FoldedAt<V>(op: (V, V) -> V, k: nat, j: nat, s: seq<V>, x: nat, i: nat)
    requires |s| == Pow2(k) && j < k && x % Pow2(j + 1) == 0 && x + Pow2(j) < |s| && x <= i < x + Pow2(j + 1) && i < |s|
    ensures Level(op, k, j, s)[i] == if i == x then op(s[x], s[x + Pow2(j)]) else s[i]
  {
    LevelAt(op, k, j, s, i);
    ClearIsAligned(k, j + 1, i);
    if i > x { BetweenMultiples(x, Pow2(j + 1), i); }
  }

  lemma FoldPassesEnd(k: nat, j: nat, x: nat)
    requires j < k && x % Pow2(j + 1) == 0
    ensures x + Pow2(j) >= Pow2(k) ==> x >= Pow2(k)
  {
    if x < Pow2(k) { LaneActs(k, j, x); }
  }

  /** Fold the registers, halving the active ones each time. */
  method FoldRegisters<V>(op: (V, V) -> V, k: nat, registers: seq<V>) returns (v: V)
    requires |registers| == Pow2(k)
    ensures v == Tree(op, k, registers)
  {
    var u, s := registers, 1;
    ghost var j := 0;
    while s < |u|
      invariant |u| == |registers| && j <= k && s == Pow2(j) && u == Levels(op, k, j, registers)
      decreases k - j
    {
      Pow2Inverse(j + 1, k);
      ghost var before := u;
      var x := 0;
      while x + s < |u|
        invariant |u| == |registers| && x % Pow2(j + 1) == 0 && MidFold(op, k, j, before, u, x)
        decreases |u| - x
      {
        MidFoldStep(op, k, j, before, u, x);
        u := u[x := op(u[x], u[x + s])];
        x := x + 2 * s;
      }
      FoldPassesEnd(k, j, x);
      assert u == Level(op, k, j, before);
      s := s * 2;
      j := j + 1;
    }
    if j < k { Pow2Grows(j + 1, k); }
    LevelsTree(op, k, registers);
    v := u[0];
  }

  method ReadPairs<V>(op: (V, V) -> V, n: nat, buf: array<V>) returns (u: seq<V>)
    requires buf.Length == 2 * n
    ensures u == Pairs(op, n, buf[..])
  {
    u := [];
    for i := 0 to n
      invariant |u| == i && forall x :: 0 <= x < i ==> u[x] == op(buf[2 * x], buf[2 * x + 1])
    {
      u := u + [op(buf[2 * i], buf[2 * i + 1])];
    }
  }

  /** MAIN RESULT 2.  The fold of the pairs read as words computes the same tree, for any operation. */
  method WarpFold<V>(op: (V, V) -> V, k: nat, buf: array<V>) returns (v: V)
    requires buf.Length == Pow2(k + 1)
    ensures v == Tree(op, k + 1, buf[..])
  {
    var u := ReadPairs(op, Pow2(k), buf);
    TreeOfPairs(op, k, buf[..]);
    v := FoldRegisters(op, k, u);
  }

  // ---- the butterfly ------------------------------------------------------------------------------

  ghost predicate Commutes<V(!new)>(op: (V, V) -> V) {
    forall x, y :: op(x, y) == op(y, x)
  }

  /** Every lane combines its value with that of the lane whose number differs in bit j. */
  function Exchange<V>(op: (V, V) -> V, k: nat, j: nat, s: seq<V>): (r: seq<V>)
    requires |s| == Pow2(k) && j < k
    ensures |r| == |s|
  {
    Pow2Grows(j + 1, k);
    seq(|s|, lane requires 0 <= lane < |s| => op(s[lane], s[Xor(k, lane, Pow2(j))]))
  }

  function Exchanges<V>(op: (V, V) -> V, k: nat, j: nat, s: seq<V>): (r: seq<V>)
    requires |s| == Pow2(k) && j <= k
    ensures |r| == |s|
  {
    if j == 0 then s else Exchange(op, k, j - 1, Exchanges(op, k, j - 1, s))
  }

  /** Below the top bit the two halves do not meet. */
  lemma ExchangeSplit<V>(op: (V, V) -> V, k: nat, j: nat, lo: seq<V>, hi: seq<V>)
    requires j + 1 < k && |lo| == |hi| == Pow2(k - 1)
    ensures Exchange(op, k, j, lo + hi) == Exchange(op, k - 1, j, lo) + Exchange(op, k - 1, j, hi)
  {
    Pow2Grows(j + 1, k - 1);
    var s, h := lo + hi, Pow2(k - 1);
    forall lane | 0 <= lane < |s|
      ensures Exchange(op, k, j, s)[lane] == (Exchange(op, k - 1, j, lo) + Exchange(op, k - 1, j, hi))[lane]
    {
      assert Xor(k, lane, Pow2(j)) == Xor(k - 1, Low(k, lane), Pow2(j)) + if lane < h then 0 else h;
    }
  }

  lemma {:induction false} ExchangesSplit<V>(op: (V, V) -> V, k: nat, j: nat, s: seq<V>)
    requires j < k && |s| == Pow2(k)
    ensures Exchanges(op, k, j, s)
            == Exchanges(op, k - 1, j, s[..Pow2(k - 1)]) + Exchanges(op, k - 1, j, s[Pow2(k - 1)..])
  {
    var h := Pow2(k - 1);
    if j == 0 {
      assert s == s[..h] + s[h..];
    } else {
      ExchangesSplit(op, k, j - 1, s);
      ExchangeSplit(op, k, j - 1, Exchanges(op, k - 1, j - 1, s[..h]), Exchanges(op, k - 1, j - 1, s[h..]));
    }
  }

  lemma ExchangeTop<V>(op: (V, V) -> V, k: nat, lo: seq<V>, hi: seq<V>, lane: nat)
    requires k > 0 && |lo| == |hi| == Pow2(k - 1) && lane < Pow2(k)
    ensures Exchange(op, k, k - 1, lo + hi)[lane]
            == if lane < Pow2(k - 1) then op(lo[lane], hi[lane]) else op(hi[lane - Pow2(k - 1)], lo[lane - Pow2(k - 1)])
  {
    var h, s := Pow2(k - 1), lo + hi;
    XorZero(k - 1, Low(k, lane));
    assert Low(k, h) == 0 && Xor(k, lane, h) == Low(k, lane) + if lane < h then h else 0;
    assert Exchange(op, k, k - 1, s)[lane] == op(s[lane], s[Xor(k, lane, h)]);
  }

  /** After all exchanges lane 0 holds the tree, and so does every lane when the operation commutes. */
  lemma {:induction false} ExchangesTree<V(!new)>(op: (V, V) -> V, k: nat, s: seq<V>, lane: nat)
    requires |s| == Pow2(k) && lane < |s| && (lane == 0 || Commutes(op))
    ensures Exchanges(op, k, k, s)[lane] == Tree(op, k, s)
  {
    if k > 0 {
      var h := Pow2(k - 1);
      ExchangesSplit(op, k, k - 1, s);
      ExchangeTop(op, k, Exchanges(op, k - 1, k - 1, s[..h]), Exchanges(op, k - 1, k - 1, s[h..]), lane);
      ExchangesTree(op, k - 1, s[..h], Low(k, lane));
      ExchangesTree(op, k - 1, s[h..], Low(k, lane));
    }
  }

  /** All lanes load their partner's value, then combine. */
  method ExchangeStep<V>(op: (V, V) -> V, k: nat, ghost j: nat, st: nat, v: seq<V>, buf: array<V>) returns (w: seq<V>)
    requires |v| == buf.Length == Pow2(k) && j < k && st == Pow2(j) && buf[..] == v
    ensures w == Exchange(op, k, j, v)
  {
    Pow2Grows(j + 1, k);
    ghost var target := Exchange(op, k, j, v);
    w := [];
    for lane := 0 to |v|
      invariant w == target[..lane]
    {
      var o := buf[Xor(k, lane, st)];
      assert o == v[Xor(k, lane, st)];
      w := w + [op(v[lane], o)];
    }
  }

  /** MAIN RESULT 3.  The lanes' registers go in and out.  Lane 0 ends with the balanced tree for any operation,
      and every lane does when the operation commutes. */
  method WarpButterflyReduce<V(!new)>(op: (V, V) -> V, k: nat, registers: seq<V>, buf: array<V>) returns (v: seq<V>)
    requires |registers| == buf.Length == Pow2(k)
    modifies buf
    ensures |v| == |registers| && v[0] == Tree(op, k, registers)
    ensures Commutes(op) ==> forall lane :: 0 <= lane < |v| ==> v[lane] == Tree(op, k, registers)
  {
    v := registers;
    Store(v, buf);
    var st := 1;
    ghost var j := 0;
    while st < |v|
      invariant j <= k && st == Pow2(j) && v == Exchanges(op, k, j, registers)
      invariant st < |v| ==> buf[..] == v
      decreases k - j
    {
      Pow2Inverse(j + 1, k);
      v := ExchangeStep(op, k, j, st, v, buf);
      if st * 2 < |v| { Store(v, buf); }
      st := st * 2;
      j := j + 1;
    }
    if j < k { Pow2Grows(j + 1, k); }
    EveryLane(op, k, registers);
  }

  lemma EveryLane<V(!new)>(op: (V, V) -> V, k: nat, s: seq<V>)
    requires |s| == Pow2(k)
    ensures Exchanges(op, k, k, s)[0] == Tree(op, k, s)
    ensures Commutes(op) ==> forall lane :: 0 <= lane < |s| ==> Exchanges(op, k, k, s)[lane] == Tree(op, k, s)
  {
    ExchangesTree(op, k, s, 0);
    if Commutes(op) {
      forall lane | 0 <= lane < |s| ensures Exchanges(op, k, k, s)[lane] == Tree(op, k, s) {
        ExchangesTree(op, k, s, lane);
      }
    }
  }

  method Store<V>(v: seq<V>, buf: array<V>)
    requires |v| == buf.Length
    modifies buf
    ensures buf[..] == v
  {
    for lane := 0 to |v|
      invariant buf[..lane] == v[..lane]
    {
      buf[lane] := v[lane];
    }
  }

  // ---- the fold with rotated addresses --------------------------------------------------------------

  function Rotated<V>(k: nat, r: nat, s: seq<V>): (t: seq<V>)
    requires |s| == Pow2(k) && r < Pow2(k)
    ensures |t| == |s|
  {
    seq(|s|, i requires 0 <= i < |s| => s[Xor(k, i, r)])
  }

  lemma RotatedSplit<V>(k: nat, r: nat, s: seq<V>)
    requires k > 0 && |s| == Pow2(k) && r < Pow2(k)
    ensures var lo, hi := Rotated(k - 1, Low(k, r), s[..Pow2(k - 1)]), Rotated(k - 1, Low(k, r), s[Pow2(k - 1)..]);
            Rotated(k, r, s) == (if Top(k, r) then hi + lo else lo + hi)
  {
    var h := Pow2(k - 1);
    var lo, hi := Rotated(k - 1, Low(k, r), s[..Pow2(k - 1)]), Rotated(k - 1, Low(k, r), s[Pow2(k - 1)..]);
    var t := if Top(k, r) then hi + lo else lo + hi;
    forall i | 0 <= i < |s| ensures Rotated(k, r, s)[i] == t[i] {
      var x := Xor(k - 1, Low(k, i), Low(k, r));
      assert Xor(k, i, r) == x + if Top(k, i) != Top(k, r) then h else 0;
      assert lo[Low(k, i)] == s[..h][x] == s[x] && hi[Low(k, i)] == s[h..][x] == s[x + h];
    }
    assert Rotated(k, r, s) == t;
  }

  /** Exchanging lanes by an exclusive or swaps subtrees, so a commuting operation does not see it. */
  lemma {:induction false} RotatedTree<V(!new)>(op: (V, V) -> V, k: nat, r: nat, s: seq<V>)
    requires |s| == Pow2(k) && r < Pow2(k) && Commutes(op)
    ensures Tree(op, k, Rotated(k, r, s)) == Tree(op, k, s)
  {
    if k > 0 {
      var h := Pow2(k - 1);
      RotatedSplit(k, r, s);
      RotatedTree(op, k - 1, Low(k, r), s[..h]);
      RotatedTree(op, k - 1, Low(k, r), s[h..]);
      var lo, hi := Rotated(k - 1, Low(k, r), s[..h]), Rotated(k - 1, Low(k, r), s[h..]);
      assert (hi + lo)[..h] == hi && (hi + lo)[h..] == lo && (lo + hi)[..h] == lo && (lo + hi)[h..] == hi;
    }
  }

  /** Byte address of word i of the buffer at `base`, as seen by a lane whose rotation is r; addresses have w bits. */
  function FoldxAddress(w: nat, base: nat, r: nat, i: nat): nat
    requires base < Pow2(w) && 4 * r < Pow2(w) && 4 * i < Pow2(w)
  {
    Xor(w, Xor(w, base, 4 * r), 4 * i)
  }

  lemma XorScaled(w: nat, k: nat, i: nat, r: nat)
    requires k + 2 <= w && i < Pow2(k) && r < Pow2(k)
    ensures 4 * Pow2(k) == Pow2(k + 2) <= Pow2(w)
    ensures Xor(w, 4 * r, 4 * i) == 4 * Xor(k, i, r)
  {
    assert Pow2(k + 2) == 2 * Pow2(k + 1);
    Pow2Grows(k + 2, w);
    XorCommutes(k, i, r);
    XorShift(k, r, i);
    XorShift(k + 1, 2 * r, 2 * i);
    XorWiden(k + 2, w, 4 * r, 4 * i);
  }

  /** On an aligned buffer of 2^k words the address is that of word i xor r. */
  lemma FoldxAligned(w: nat, k: nat, base: nat, r: nat, i: nat)
    requires k + 2 <= w && base < Pow2(w) && Clear(w, k + 2, base) && i < Pow2(k) && r < Pow2(k)
    ensures 4 * Pow2(k) == Pow2(k + 2) <= Pow2(w)
    ensures FoldxAddress(w, base, r, i) == base + 4 * Xor(k, i, r)
  {
    XorScaled(w, k, i, r);
    XorAssociates(w, base, 4 * r, 4 * i);
    XorIsSum(w, k + 2, base, 4 * Xor(k, i, r));
  }

  /** Every lane reads every word of its own buffer. */
  ghost predicate FoldxReadsBuffer(w: nat, k: nat, base: nat)
    requires k + 2 <= w && base < Pow2(w)
  {
    Pow2Grows(k + 2, w);
    assert Pow2(k + 2) == 2 * Pow2(k + 1);
    forall r: nat, i: nat :: r < Pow2(k) && i < Pow2(k) ==> FoldxAddress(w, base, r, i) == base + 4 * Xor(k, i, r)
  }

  /** MAIN RESULT 4.  A word-aligned buffer works for the rotated fold exactly when it is aligned to its own size. */
  lemma FoldxNeedsAlignment(w: nat, k: nat, base: nat)
    requires k + 2 <= w && base < Pow2(w) && Clear(w, 2, base)
    ensures FoldxReadsBuffer(w, k, base) <==> Clear(w, k + 2, base)
  {
    Pow2Grows(k + 2, w);
    assert Pow2(k + 2) == 2 * Pow2(k + 1);
    if Clear(w, k + 2, base) {
      forall r: nat, i: nat | r < Pow2(k) && i < Pow2(k)
        ensures FoldxAddress(w, base, r, i) == base + 4 * Xor(k, i, r)
      {
        FoldxAligned(w, k, base, r, i);
      }
    } else {
      var b := XorIsNotSum(w, k + 2, base);
      OneWordMisses(w, k, base, b);
    }
  }

  lemma OneWordMisses(w: nat, k: nat, base: nat, b: nat)
    requires k + 2 <= w && base < Pow2(w) && Clear(w, 2, base) && b < k + 2
    requires Pow2(b) < Pow2(w) && Xor(w, base, Pow2(b)) != base + Pow2(b)
    ensures !FoldxReadsBuffer(w, k, base)
  {
    if b < 2 {
      Pow2Grows(b + 1, 2);
      XorIsSum(w, 2, base, Pow2(b));
    } else {
      var i := Pow2(b - 2);
      assert Pow2(b) == 2 * Pow2(b - 1) == 4 * i;
      Pow2Grows(b - 1, k);
      XorZero(w, base);
      XorZero(k, i);
      assert FoldxAddress(w, base, 0, i) != base + 4 * Xor(k, i, 0);
    }
  }

  /** The buffer of 2^(k + 1) halfwords at byte address `base`. */
  ghost predicate BufferAt<V>(smem: seq<V>, base: nat, k: nat, buf: seq<V>) {
    && base % 2 == 0 && |buf| == Pow2(k + 1) && base / 2 + |buf| <= |smem|
    && forall x :: 0 <= x < |buf| ==> buf[x] == smem[base / 2 + x]
  }

  /** One rotated read: the pair of halfwords at the computed address. */
  lemma FoldxPair<V>(op: (V, V) -> V, smem: seq<V>, base: nat, k: nat, buf: seq<V>, x: nat, address: nat)
    requires BufferAt(smem, base, k, buf) && x < Pow2(k) && address == base + 4 * x
    ensures address / 2 + 1 < |smem| && op(smem[address / 2], smem[address / 2 + 1]) == Pairs(op, Pow2(k), buf)[x]
  {
    assert address / 2 == base / 2 + 2 * x;
    assert buf[2 * x] == smem[address / 2] && buf[2 * x + 1] == smem[address / 2 + 1];
  }

  lemma FoldxRead<V>(op: (V, V) -> V, w: nat, k: nat, smem: seq<V>, base: nat, r: nat, i: nat, buf: seq<V>)
    requires k + 2 <= w && base < Pow2(w) && Clear(w, k + 2, base) && BufferAt(smem, base, k, buf)
    requires i < Pow2(k) && r < Pow2(k)
    ensures 4 * Pow2(k) == Pow2(k + 2) <= Pow2(w) && FoldxAddress(w, base, r, i) / 2 + 1 < |smem|
    ensures var address := FoldxAddress(w, base, r, i);
            op(smem[address / 2], smem[address / 2 + 1]) == Rotated(k, r, Pairs(op, Pow2(k), buf))[i]
  {
    FoldxAligned(w, k, base, r, i);
    FoldxPair(op, smem, base, k, buf, Xor(k, i, r), FoldxAddress(w, base, r, i));
  }

  lemma RotatedPairsTree<V(!new)>(op: (V, V) -> V, k: nat, r: nat, buf: seq<V>)
    requires |buf| == Pow2(k + 1) && r < Pow2(k) && Commutes(op)
    ensures Tree(op, k, Rotated(k, r, Pairs(op, Pow2(k), buf))) == Tree(op, k + 1, buf)
  {
    RotatedTree(op, k, r, Pairs(op, Pow2(k), buf));
    TreeOfPairs(op, k, buf);
  }

  method RotatedPairs<V>(op: (V, V) -> V, w: nat, k: nat, smem: seq<V>, base: nat, r: nat, ghost buf: seq<V>)
    returns (u: seq<V>)
    requires k + 2 <= w && base < Pow2(w) && Clear(w, k + 2, base) && BufferAt(smem, base, k, buf) && r < Pow2(k)
    ensures u == Rotated(k, r, Pairs(op, Pow2(k), buf))
  {
    FoldxRead(op, w, k, smem, base, r, 0, buf);
    ghost var target := Rotated(k, r, Pairs(op, Pow2(k), buf));
    var wx := Xor(w, base, 4 * r);
    u := [];
    for i := 0 to Pow2(k)
      invariant u == target[..i]
    {
      FoldxRead(op, w, k, smem, base, r, i, buf);
      var address := Xor(w, wx, 4 * i);
      u := u + [op(smem[address / 2], smem[address / 2 + 1])];
    }
  }

  /** MAIN RESULT 5.  Each lane folds the words of a shared memory of halfwords through rotated addresses; on
      an aligned buffer it gets the balanced tree of the buffer, when the operation commutes. */
  method WarpFoldX<V(!new)>(op: (V, V) -> V, w: nat, k: nat, smem: seq<V>, base: nat, laneRot: nat, ghost buf: seq<V>)
    returns (v: V)
    requires k + 2 <= w && base < Pow2(w) && Clear(w, k + 2, base) && BufferAt(smem, base, k, buf)
    requires Commutes(op)
    ensures v == Tree(op, k + 1, buf)
  {
    var r := laneRot % Pow2(k);
    var u := RotatedPairs(op, w, k, smem, base, r, buf);
    RotatedPairsTree(op, k, r, buf);
    v := FoldRegisters(op, k, u);
  }

  /** Sixteen lanes: a buffer of 8 words must be aligned to 32 bytes. */
  lemma SixteenLanes(w: nat, k: nat, base: nat)
    requires k == 3 && w >= 5 && base < Pow2(w) && base % 4 == 0
    ensures FoldxReadsBuffer(w, k, base) <==> base % 32 == 0
  {
    assert Pow2(2) == 4 && Pow2(k + 2) == 32;
    ClearIsAligned(w, 2, base);
    ClearIsAligned(w, k + 2, base);
    FoldxNeedsAlignment(w, k, base);
  }

  lemma RowAlignment(warp: nat)
    ensures (0x15000 + 32 * warp) % 32 == 0 && (0x15000 + 36 * warp) % 4 == 0
    ensures (0x15000 + 36 * warp) % 32 == 0 <==> warp % 8 == 0
  {
  }

  /** The reduce buffers start at 0x15000, one row of halfwords a warp.  Rows of 16 always work; rows padded
      to 18 halfwords break the rotated fold for every warp but each eighth. */
  lemma ReduceBuffers(w: nat, k: nat, warp: nat)
    requires k == 3 && w >= 5 && 0x15000 + 36 * warp < Pow2(w)
    ensures FoldxReadsBuffer(w, k, 0x15000 + 32 * warp)
    ensures FoldxReadsBuffer(w, k, 0x15000 + 36 * warp) <==> warp % 8 == 0
  {
    RowAlignment(warp);
    SixteenLanes(w, k, 0x15000 + 32 * warp);
    SixteenLanes(w, k, 0x15000 + 36 * warp);
  }
}
