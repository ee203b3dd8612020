/** Storing a row's codes in the tiled scratchpad, four to a word, in the three orders the softmax kernels use. */
module RowStore {
  import opened Arith
  import opened Swar
  import opened Tiles

  predicate Bytewise(codes: seq<int>) {
    forall c :: 0 <= c < |codes| ==> IsByte(codes[c])
  }

  /** Where the word of columns 4v..4v+3 goes: its first column's tiled byte, over four. */
  function Place(s: Shape, row: nat, v: nat): nat {
    TiledByte(s, row, 4 * v) / 4
  }

  function RowWord(codes: seq<int>, v: nat): nat
    requires Bytewise(codes) && 4 * v + 4 <= |codes|
  {
    Bytes(codes[4 * v], codes[4 * v + 1], codes[4 * v + 2], codes[4 * v + 3])
  }

  lemma PlaceIsFast(s: Shape, row: nat, v: nat)
    requires row < Rows(s) && v < 8 * s.n
    ensures Place(s, row, v) == FastWord(s, row, v / 8, v % 8) < SpadWords(s)
  {
    assert 4 * v == v / 8 * 32 + v % 8 * 4;
    FastWordIsTiled(s, row, v / 8, v % 8, 0);
    FastWordParts(s, row, v / 8, v % 8);
  }

  lemma WordAtPlace(s: Shape, row: nat, b: nat, u: nat)
    requires row < Rows(s) && b < s.n && u < 8
    ensures 8 * b + u < 8 * s.n && TiledByte(s, row, 4 * (8 * b + u)) / 4 == FastWord(s, row, b, u)
  {
    assert (8 * b + u) / 8 == b && (8 * b + u) % 8 == u;
    PlaceIsFast(s, row, 8 * b + u);
  }

  lemma PlacesDiffer(s: Shape, row: nat, v: nat, row': nat, v': nat)
    requires row < Rows(s) && v < 8 * s.n && row' < Rows(s) && v' < 8 * s.n && Place(s, row, v) == Place(s, row', v')
    ensures row == row' && v == v'
  {
    PlaceIsFast(s, row, v);
    PlaceIsFast(s, row', v');
    FastWordInjective(s, row, v / 8, v % 8, row', v' / 8, v' % 8);
  }

  /** Shapes of a row: n blocks of 32 codes, each a byte, and the whole tile. */
  ghost predicate RowFits(s: Shape, codes: seq<int>, row: nat) {
    Bytewise(codes) && |codes| == 32 * s.n && row < Rows(s)
  }

  /** At word v of row r: the row's own words are its codes once done, and all others are as before. */
  ghost predicate WordStored(s: Shape, before: seq<word>, after: seq<word>, codes: seq<int>, row: nat, done: set<nat>,
                             r: nat, v: nat)
    requires RowFits(s, codes, row) && |before| == |after| == SpadWords(s) && r < Rows(s) && v < 8 * s.n
  {
    PlaceIsFast(s, r, v);
    after[Place(s, r, v)] == if r == row && v in done then RowWord(codes, v) else before[Place(s, r, v)]
  }

  ghost predicate WordsStored(s: Shape, before: seq<word>, after: seq<word>, codes: seq<int>, row: nat, done: set<nat>)
    requires RowFits(s, codes, row) && |before| == |after| == SpadWords(s)
  {
    forall r: nat, v: nat :: r < Rows(s) && v < 8 * s.n ==> WordStored(s, before, after, codes, row, done, r, v)
  }

  /** Every word of the row is its four codes, at its tiled place; every word of other rows is as before. */
  ghost predicate RowStored(s: Shape, before: seq<word>, after: seq<word>, codes: seq<int>, row: nat)
    requires RowFits(s, codes, row) && |before| == |after| == SpadWords(s)
  {
    forall r: nat, v: nat :: r < Rows(s) && v < 8 * s.n ==> PlaceStored(s, before, after, codes, row, r, v)
  }

  ghost predicate PlaceStored(s: Shape, before: seq<word>, after: seq<word>, codes: seq<int>, row: nat, r: nat, v: nat)
    requires RowFits(s, codes, row) && |before| == |after| == SpadWords(s) && r < Rows(s) && v < 8 * s.n
  {
    PlaceIsFast(s, r, v);
    after[TiledByte(s, r, 4 * v) / 4]
    == if r == row then Bytes(codes[4 * v], codes[4 * v + 1], codes[4 * v + 2], codes[4 * v + 3])
      else before[TiledByte(s, r, 4 * v) / 4]
  }

  lemma AllStored(s: Shape, before: seq<word>, after: seq<word>, codes: seq<int>, row: nat, done: set<nat>)
    requires RowFits(s, codes, row) && |before| == |after| == SpadWords(s)
    requires WordsStored(s, before, after, codes, row, done) && forall v: nat :: v < 8 * s.n ==> v in done
    ensures RowStored(s, before, after, codes, row)
  {
    forall r: nat, v: nat | r < Rows(s) && v < 8 * s.n ensures PlaceStored(s, before, after, codes, row, r, v) {
      assert WordStored(s, before, after, codes, row, done, r, v);
    }
  }

  lemma StoreStep(s: Shape, before: seq<word>, after: seq<word>, codes: seq<int>, row: nat, done: set<nat>, v: nat,
                  w: word)
    requires RowFits(s, codes, row) && |before| == |after| == SpadWords(s)
             && WordsStored(s, before, after, codes, row, done)
    requires v < 8 * s.n && w == RowWord(codes, v)
    ensures Place(s, row, v) < |after| && WordsStored(s, before, after[Place(s, row, v) := w], codes, row, done + {v})
  {
    PlaceIsFast(s, row, v);
    var after', done' := after[Place(s, row, v) := w], done + {v};
    forall r: nat, u: nat | r < Rows(s) && u < 8 * s.n ensures WordStored(s, before, after', codes, row, done', r, u) {
      assert WordStored(s, before, after, codes, row, done, r, u);
      PlaceIsFast(s, r, u);
      if Place(s, r, u) == Place(s, row, v) { PlacesDiffer(s, r, u, row, v); }
    }
  }

  lemma StoreNone(s: Shape, before: seq<word>, codes: seq<int>, row: nat)
    requires RowFits(s, codes, row) && |before| == SpadWords(s)
    ensures WordsStored(s, before, before, codes, row, {})
  {
  }

  /** Four codes or-ed into one word at their byte offsets. */
  method Pack(c0: int, c1: int, c2: int, c3: int) returns (packed: word)
    requires IsByte(c0) && IsByte(c1) && IsByte(c2) && IsByte(c3)
    ensures packed == Bytes(c0, c1, c2, c3)
  {
    packed := OrFour(c0, c1, c2, c3);
    OrBytes(c0, c1, c2, c3);
  }

  /** One word of the row, from its first column. */
  method StoreColumns(s: Shape, codes: seq<int>, row: nat, col0: nat, spad: array<word>, ghost before: seq<word>,
                      ghost done: set<nat>)
    requires RowFits(s, codes, row) && spad.Length == |before| == SpadWords(s)
             && WordsStored(s, before, spad[..], codes, row, done)
    requires col0 % 4 == 0 && col0 < 32 * s.n
    modifies spad
    ensures WordsStored(s, before, spad[..], codes, row, done + {col0 / 4})
  {
    var packed := Pack(codes[col0], codes[col0 + 1], codes[col0 + 2], codes[col0 + 3]);
    StoreStep(s, before, spad[..], codes, row, done, col0 / 4, packed);
    spad[TiledByte(s, row, col0) / 4] := packed;
  }

  // ---- the three orders ------------------------------------------------------------------------------

  /** One thread: block after block, eight words each. */
  method StoreChained(s: Shape, codes: seq<int>, row: nat, spad: array<word>)
    requires RowFits(s, codes, row) && spad.Length == SpadWords(s)
    modifies spad
    ensures RowStored(s, old(spad[..]), spad[..], codes, row)
  {
    ghost var before, done: set<nat> := spad[..], {};
    StoreNone(s, before, codes, row);
    for b := 0 to s.n
      invariant WordsStored(s, before, spad[..], codes, row, done) && forall v: nat :: v < 8 * b ==> v in done
    {
      for w := 0 to 8
        invariant WordsStored(s, before, spad[..], codes, row, done) && forall v: nat :: v < 8 * b + w ==> v in done
      {
        StoreColumns(s, codes, row, b * 32 + w * 4, spad, before, done);
        done := done + {8 * b + w};
      }
    }
    AllStored(s, before, spad[..], codes, row, done);
  }

  function Numbers(n: nat): (r: set<nat>)
    ensures forall k: nat :: k in r <==> k < n
  {
    if n == 0 then {} else Numbers(n - 1) + {n - 1}
  }

  /** The words a set of blocks has not stored yet are those of the blocks still to do. */
  ghost predicate BlocksDone(n: nat, todo: set<nat>, done: set<nat>) {
    forall v: nat :: v < 8 * n ==> (v in done || v / 8 in todo)
  }

  /** Items of eight words, in whatever order the blocks of the row come up. */
  method StoreItems(s: Shape, codes: seq<int>, row: nat, spad: array<word>)
    requires RowFits(s, codes, row) && spad.Length == SpadWords(s)
    modifies spad
    ensures RowStored(s, old(spad[..]), spad[..], codes, row)
  {
    ghost var before, done: set<nat> := spad[..], {};
    StoreNone(s, before, codes, row);
    var todo := Numbers(s.n);
    while todo != {}
      invariant forall b :: b in todo ==> 0 <= b < s.n
      invariant WordsStored(s, before, spad[..], codes, row, done) && BlocksDone(s.n, todo, done)
      decreases todo
    {
      var b :| b in todo;
      done := StoreItem(s, codes, row, b, spad, before, done);
      todo := todo - {b};
    }
    AllStored(s, before, spad[..], codes, row, done);
  }

  method StoreItem(s: Shape, codes: seq<int>, row: nat, b: nat, spad: array<word>, ghost before: seq<word>,
                   ghost done: set<nat>)
    returns (ghost done': set<nat>)
    requires RowFits(s, codes, row) && spad.Length == |before| == SpadWords(s)
             && WordsStored(s, before, spad[..], codes, row, done)
    requires b < s.n
    modifies spad
    ensures WordsStored(s, before, spad[..], codes, row, done') && done <= done'
            && forall v: nat :: v / 8 == b ==> v in done'
  {
    done' := done;
    for w := 0 to 8
      invariant WordsStored(s, before, spad[..], codes, row, done') && done <= done'
      invariant forall v: nat :: v / 8 == b && v < 8 * b + w ==> v in done'
    {
      StoreColumns(s, codes, row, b * 32 + w * 4, spad, before, done');
      done' := done' + {8 * b + w};
    }
  }

  // ---- sixteen lanes of c contiguous columns --------------------------------------------------------------

  /** A lane of k words has words lane * k, ..., lane * k + k - 1. */
  lemma LaneOfWord(v: nat, k: nat)
    requires k > 0 && v < 16 * k
    ensures Div(v, k) < 16 && Div(v, k) * k <= v < Div(v, k) * k + k
  {
    QuotientBelow(v, 16, k);
  }

  lemma LaneBounds(lane: nat, k: nat, n: nat)
    requires lane < 16 && 16 * k == 8 * n
    ensures 0 <= lane * k && lane * k + k <= 8 * n
  {
    MulGe(16, lane + 1, k);
    Distribute(lane, 1, k);
  }

  lemma LaneColumn(lane: nat, k: nat, w: nat)
    ensures lane * (4 * k) + w * 4 == 4 * (lane * k + w)
  {
  }

  /** The lanes' words cover the row, each word once. */
  lemma LaneWordsCover(c: nat, n: nat, v: nat) returns (lane: nat, w: nat)
    requires c % 4 == 0 && 16 * c == 32 * n && v < 8 * n
    ensures lane < 16 && w < c / 4 && lane * c + w * 4 == 4 * v
    ensures forall lane': nat, w': nat :: IsLaneWord(c, lane', w', v) ==> lane' == lane && w' == w
  {
    var k := c / 4;
    LaneOfWord(v, k);
    lane := Div(v, k);
    w := v - lane * k;
    LaneColumn(lane, k, w);
    forall lane': nat, w': nat | IsLaneWord(c, lane', w', v) ensures lane' == lane && w' == w {
      LaneColumn(lane', k, w');
      Unique(v, k, lane, w, lane', w');
    }
  }

  predicate IsLaneWord(c: nat, lane: nat, w: nat, v: nat) {
    lane < 16 && w < c / 4 && lane * c + w * 4 == 4 * v
  }

  ghost predicate LanesDone(k: nat, n: nat, todo: set<nat>, done: set<nat>)
    requires k > 0
  {
    forall v: nat :: v < 8 * n ==> v in done || Div(v, k) in todo
  }

  /** Sixteen lanes, c / 4 words each, in whatever order the lanes come up. */
  method StoreLanes(s: Shape, codes: seq<int>, row: nat, c: nat, spad: array<word>)
    requires RowFits(s, codes, row) && spad.Length == SpadWords(s) && c > 0 && c % 4 == 0 && 16 * c == 32 * s.n
    modifies spad
    ensures RowStored(s, old(spad[..]), spad[..], codes, row)
  {
    ghost var before, done: set<nat> := spad[..], {};
    StoreNone(s, before, codes, row);
    var todo := Numbers(16);
    forall v: nat | v < 8 * s.n ensures Div(v, c / 4) in todo { LaneOfWord(v, c / 4); }
    while todo != {}
      invariant forall lane :: lane in todo ==> 0 <= lane < 16
      invariant WordsStored(s, before, spad[..], codes, row, done) && LanesDone(c / 4, s.n, todo, done)
      decreases todo
    {
      var lane :| lane in todo;
      done := StoreLane(s, codes, row, c, lane, spad, before, done);
      todo := todo - {lane};
    }
    AllStored(s, before, spad[..], codes, row, done);
  }

  /** The words of one lane. */
  method StoreLane(s: Shape, codes: seq<int>, row: nat, c: nat, lane: nat, spad: array<word>, ghost before: seq<word>,
                   ghost done: set<nat>)
    returns (ghost done': set<nat>)
    requires RowFits(s, codes, row) && spad.Length == |before| == SpadWords(s)
             && WordsStored(s, before, spad[..], codes, row, done)
    requires c > 0 && c % 4 == 0 && 16 * c == 32 * s.n && lane < 16
    modifies spad
    ensures WordsStored(s, before, spad[..], codes, row, done') && done <= done'
    ensures forall v: nat :: v < 8 * s.n && Div(v, c / 4) == lane ==> v in done'
  {
    ghost var k := c / 4;
    LaneBounds(lane, k, s.n);
    LaneColumn(lane, k, 0);
    done' := StoreFrom(s, codes, row, lane * c, c / 4, spad, before, done);
    forall v: nat | v < 8 * s.n && Div(v, k) == lane ensures v in done' { LaneOfWord(v, k); }
  }

  /** Some words of the row, from a column on. */
  method StoreFrom(s: Shape, codes: seq<int>, row: nat, col: nat, count: nat, spad: array<word>,
                   ghost before: seq<word>, ghost done: set<nat>)
    returns (ghost done': set<nat>)
    requires RowFits(s, codes, row) && spad.Length == |before| == SpadWords(s)
             && WordsStored(s, before, spad[..], codes, row, done)
    requires col % 4 == 0 && col + 4 * count <= 32 * s.n
    modifies spad
    ensures WordsStored(s, before, spad[..], codes, row, done') && done <= done'
    ensures forall v: nat :: col / 4 <= v < col / 4 + count ==> v in done'
  {
    done' := done;
    for w := 0 to count
      invariant WordsStored(s, before, spad[..], codes, row, done') && done <= done'
      invariant forall v: nat :: col / 4 <= v < col / 4 + w ==> v in done'
    {
      StoreColumns(s, codes, row, col + w * 4, spad, before, done');
      done' := done' + {col / 4 + w};
    }
  }

  // ---- the scales --------------------------------------------------------------------------------------

  ghost predicate ScalesStored(s: Shape, before: seq<int>, after: seq<int>, scales: seq<int>, row: nat, count: nat)
    requires |scales| == s.n && row < Rows(s) && |before| == |after| == Items(s)
  {
    forall r: nat, b: nat :: r < Rows(s) && b < s.n ==> SlotStored(s, before, after, scales, row, count, r, b)
  }

  /** At block b of row r: the row's first count scales are stored, all other slots are as before. */
  ghost predicate SlotStored(s: Shape, before: seq<int>, after: seq<int>, scales: seq<int>, row: nat, count: nat,
                             r: nat, b: nat)
    requires |scales| == s.n && row < Rows(s) && |before| == |after| == Items(s) && r < Rows(s) && b < s.n
  {
    SlotInScratch(s, r, b);
    var slot := b * (16 * s.r) + r;
    after[slot] == if r == row && b < count then scales[b] else before[slot]
  }

  lemma SlotInScratch(s: Shape, row: nat, b: nat)
    requires row < Rows(s) && b < s.n
    ensures b * (16 * s.r) + row == ScaleSlot(s, row, b) < Items(s)
  {
    PairBelow(b, s.n, row, Rows(s));
    assert s.n * Rows(s) == Items(s);
  }

  /** A row's block scales to the scratch, one word each. */
  method StoreScales(s: Shape, scales: seq<int>, row: nat, scratch: array<int>)
    requires |scales| == s.n && row < Rows(s) && scratch.Length == Items(s)
    modifies scratch
    ensures ScalesStored(s, old(scratch[..]), scratch[..], scales, row, s.n)
  {
    ghost var before := scratch[..];
    for b := 0 to s.n
      invariant ScalesStored(s, before, scratch[..], scales, row, b)
    {
      SlotInScratch(s, row, b);
      ScaleStep(s, before, scratch[..], scales, row, b);
      scratch[b * Rows(s) + row] := scales[b];
    }
  }

  lemma ScaleStep(s: Shape, before: seq<int>, after: seq<int>, scales: seq<int>, row: nat, b: nat)
    requires |scales| == s.n && row < Rows(s) && |before| == |after| == Items(s) && b < s.n
    requires ScalesStored(s, before, after, scales, row, b)
    ensures ScaleSlot(s, row, b) < |after|
            && ScalesStored(s, before, after[ScaleSlot(s, row, b) := scales[b]], scales, row, b + 1)
  {
    SlotInScratch(s, row, b);
    var after', count := after[ScaleSlot(s, row, b) := scales[b]], b + 1;
    forall r: nat, k: nat | r < Rows(s) && k < s.n ensures SlotStored(s, before, after', scales, row, count, r, k) {
      assert SlotStored(s, before, after, scales, row, b, r, k);
      SlotInScratch(s, r, k);
      if ScaleSlot(s, r, k) == ScaleSlot(s, row, b) { ScaleSlotInjective(s, r, k, row, b); }
    }
  }
}
