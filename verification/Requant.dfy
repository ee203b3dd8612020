/** Requantizing a whole softmax tile: the block maximum, the grid-stride loop, and what the scratchpad and
    the scale slots hold after any interleaving of any number of threads. */
module Requant {
  import opened Traces
  import opened Dataflow
  import opened GridStride
  import opened E4m3
  import opened Swar
  import opened Tiles

  // ---- one block ---------------------------------------------------------------------------------

  /** The 32 values of a block, two to a word, low half first. */
  function Element(words: seq<word>, i: nat): bf16
    requires |words| == 16 && i < 32
  {
    if i % 2 == 0 then LowHalf(words[i / 2]) else HighHalf(words[i / 2])
  }

  /** Order of the values of two finite codes. */
  function Key(b: bf16): int { if b < 0x8000 then b else 0x8000 - b }
  function FMax(a: bf16, b: bf16): bf16 { if Key(a) < Key(b) then b else a }

  /** The value of a finite code is in the order of its magnitude, turned round when the sign is set. */
  lemma FMaxIsLargest(a: bf16, b: bf16, m: bf16)
    requires m == FMax(a, b)
    ensures m == a || m == b
    ensures forall x: bf16 :: x == a || x == b ==>
              && (Sign(m) == 0 && Sign(x) == 0 ==> x % 0x8000 <= m % 0x8000)
              && (Sign(m) == 1 && Sign(x) == 1 ==> m % 0x8000 <= x % 0x8000)
              && (Sign(m) == 1 && Sign(x) == 0 ==> m % 0x8000 == x % 0x8000 == 0)
  {
  }

  /** Softmax output: nothing negative, nothing infinite. */
  ghost predicate Probabilities(words: seq<word>) {
    |words| == 16 && forall i: nat :: i < 32 ==> Element(words, i) < 0x7F80
  }

  lemma ProbabilityFields(b: bf16, m: bf16)
    requires b <= m < 0x7F80
    ensures Sign(b) == 0 && Exponent(b) <= Exponent(m) < 0xFF
  {
  }

  /** The largest of the first i values, or zero. */
  function MaxElement(words: seq<word>, i: nat): bf16
    requires |words| == 16 && i <= 32
  {
    if i == 0 then 0 else FMax(MaxElement(words, i - 1), Element(words, i - 1))
  }

  lemma {:induction false} MaxElementBounds(words: seq<word>, n: nat)
    requires Probabilities(words) && n <= 32
    ensures MaxElement(words, n) < 0x7F80 && forall i: nat :: i < n ==> Element(words, i) <= MaxElement(words, n)
  {
    if n > 0 { MaxElementBounds(words, n - 1); }
  }

  function Max(a: nat, b: nat): nat { if a < b then b else a }

  /** The larger half of word j. */
  function WordMax(words: seq<word>, j: nat): bf16
    requires |words| == 16 && j < 16
  {
    FMax(LowHalf(words[j]), HighHalf(words[j]))
  }

  lemma TwoMore(words: seq<word>, j: nat)
    requires Probabilities(words) && j < 16
    ensures WordMax(words, j) < 0x7F80 && MaxElement(words, 2 * j) < 0x7F80
    ensures MaxElement(words, 2 * j + 2) == Max(MaxElement(words, 2 * j), WordMax(words, j))
  {
    assert Element(words, 2 * j) == LowHalf(words[j]) && Element(words, 2 * j + 1) == HighHalf(words[j]);
    MaxElementBounds(words, 2 * j);
    assert MaxElement(words, 2 * j + 2) == FMax(MaxElement(words, 2 * j + 1), Element(words, 2 * j + 1));
  }

  lemma EightMore(words: seq<word>, i: nat)
    requires Probabilities(words) && i + 4 <= 16
    ensures WordMax(words, i) < 0x7F80 && WordMax(words, i + 1) < 0x7F80 && WordMax(words, i + 2) < 0x7F80
            && WordMax(words, i + 3) < 0x7F80
    ensures MaxElement(words, 2 * i + 8)
            == Max(Max(Max(Max(MaxElement(words, 2 * i), WordMax(words, i)), WordMax(words, i + 1)),
                       WordMax(words, i + 2)), WordMax(words, i + 3))
  {
    TwoMore(words, i);
    TwoMore(words, i + 1);
    TwoMore(words, i + 2);
    TwoMore(words, i + 3);
  }

  lemma FMaxIsMax(a: bf16, b: bf16)
    requires a < 0x7F80 && b < 0x7F80
    ensures FMax(a, b) == Max(a, b) < 0x7F80
  {
  }

  /** Eight values taken by four chains, or one after another. */
  lemma ChainsOfMaxima(x0: nat, x1: nat, x2: nat, x3: nat, h0: nat, h1: nat, h2: nat, h3: nat, m: nat)
    requires m == Max(Max(x0, x1), Max(x2, x3))
    ensures Max(Max(Max(x0, h0), Max(x1, h1)), Max(Max(x2, h2), Max(x3, h3))) == Max(Max(Max(Max(m, h0), h1), h2), h3)
  {
  }

  /** One more word taken by each chain. */
  method TakeFour(words: seq<word>, i: nat, x0: bf16, x1: bf16, x2: bf16, x3: bf16)
    returns (y0: bf16, y1: bf16, y2: bf16, y3: bf16)
    requires Probabilities(words) && i + 4 <= 16 && x0 < 0x7F80 && x1 < 0x7F80 && x2 < 0x7F80 && x3 < 0x7F80
    requires Max(Max(x0, x1), Max(x2, x3)) == MaxElement(words, 2 * i)
    ensures y0 < 0x7F80 && y1 < 0x7F80 && y2 < 0x7F80 && y3 < 0x7F80
    ensures Max(Max(y0, y1), Max(y2, y3)) == MaxElement(words, 2 * i + 8)
  {
    EightMore(words, i);
    var h0, h1, h2, h3 := WordMax(words, i), WordMax(words, i + 1), WordMax(words, i + 2), WordMax(words, i + 3);
    ChainsOfMaxima(x0, x1, x2, x3, h0, h1, h2, h3, MaxElement(words, 2 * i));
    y0 := MaxOf(x0, h0);
    y1 := MaxOf(x1, h1);
    y2 := MaxOf(x2, h2);
    y3 := MaxOf(x3, h3);
  }

  method MaxOf(a: bf16, b: bf16) returns (m: bf16)
    requires a < 0x7F80 && b < 0x7F80
    ensures m == FMax(a, b) == Max(a, b) < 0x7F80
  {
    FMaxIsMax(a, b);
    m := FMax(a, b);
  }

  /** Four chains of maxima, joined at the end. */
  method BlockMax(words: seq<word>) returns (m: bf16)
    requires Probabilities(words)
    ensures m == MaxElement(words, 32)
  {
    var x0, x1, x2, x3: bf16 := 0, 0, 0, 0;
    var i := 0;
    while i < 16
      invariant 0 <= i <= 16 && i % 4 == 0
      invariant x0 < 0x7F80 && x1 < 0x7F80 && x2 < 0x7F80 && x3 < 0x7F80
      invariant Max(Max(x0, x1), Max(x2, x3)) == MaxElement(words, 2 * i)
    {
      x0, x1, x2, x3 := TakeFour(words, i, x0, x1, x2, x3);
      i := i + 4;
    }
    var low := MaxOf(x0, x1);
    var high := MaxOf(x2, x3);
    m := MaxOf(low, high);
  }

  function Abs(b: bf16): bf16 { if b > 0x8000 then b - 0x8000 else b }

  function LegacyWordMax(words: seq<word>, j: nat): bf16
    requires |words| == 16 && j < 16
  {
    FMax(Abs(LowHalf(words[j])), Abs(HighHalf(words[j])))
  }

  lemma Magnitudes(words: seq<word>, j: nat)
    requires Probabilities(words) && j < 16
    ensures LegacyWordMax(words, j) == WordMax(words, j)
  {
    assert Element(words, 2 * j) == LowHalf(words[j]) && Element(words, 2 * j + 1) == HighHalf(words[j]);
  }

  lemma FourMore(words: seq<word>, i: nat)
    requires Probabilities(words) && i + 2 <= 16
    ensures LegacyWordMax(words, i) < 0x7F80 && LegacyWordMax(words, i + 1) < 0x7F80
    ensures MaxElement(words, 2 * i + 4) == Max(Max(MaxElement(words, 2 * i), LegacyWordMax(words, i)),
                                                LegacyWordMax(words, i + 1))
  {
    TwoMore(words, i);
    TwoMore(words, i + 1);
    Magnitudes(words, i);
    Magnitudes(words, i + 1);
  }

  method TakeTwo(words: seq<word>, i: nat, m0: bf16, m1: bf16) returns (y0: bf16, y1: bf16)
    requires Probabilities(words) && i + 2 <= 16 && m0 < 0x7F80 && m1 < 0x7F80
             && Max(m0, m1) == MaxElement(words, 2 * i)
    ensures y0 < 0x7F80 && y1 < 0x7F80 && Max(y0, y1) == MaxElement(words, 2 * i + 4)
  {
    FourMore(words, i);
    y0 := MaxOf(m0, LegacyWordMax(words, i));
    y1 := MaxOf(m1, LegacyWordMax(words, i + 1));
  }

  /** The branching path: magnitudes, and two chains. */
  method LegacyBlockMax(words: seq<word>) returns (m: bf16)
    requires Probabilities(words)
    ensures m == MaxElement(words, 32)
  {
    var m0, m1: bf16 := 0, 0;
    var i := 0;
    while i < 16
      invariant 0 <= i <= 16 && i % 2 == 0
      invariant m0 < 0x7F80 && m1 < 0x7F80 && Max(m0, m1) == MaxElement(words, 2 * i)
    {
      m0, m1 := TakeTwo(words, i, m0, m1);
      i := i + 2;
    }
    m := MaxOf(m0, m1);
  }

  // ---- what a block becomes ------------------------------------------------------------------------

  /** The exponent field of the block maximum, which is the legacy E8M0 scale. */
  function BlockExponent(words: seq<word>): nat
    requires |words| == 16
  {
    Exponent(MaxElement(words, 32))
  }

  lemma BlockHolds(words: seq<word>, i: nat)
    requires Probabilities(words) && i < 32
    ensures InBlock(Element(words, i), BlockExponent(words))
  {
    MaxElementBounds(words, 32);
    ProbabilityFields(Element(words, i), MaxElement(words, 32));
  }

  function K8(words: seq<word>): (k: word)
    requires |words| == 16
    ensures 8 <= k <= 1992 && FastScale(BlockExponent(words)) == (k - 8) / 8 + 7
  {
    FieldBounds(MaxElement(words, 32));
    BlockK8(BlockExponent(words))
  }

  /** Word u of the four-code words of a block, from its softmax words. */
  function PackedWord(words: seq<word>, u: nat): word
    requires |words| == 16 && u < 8
  {
    Pack4(words[2 * u], words[2 * u + 1], K8(words))
  }

  /** The code of one value. */
  function CodeOf(words: seq<word>, i: nat): int
    requires |words| == 16 && i < 32
  {
    FastCode(Element(words, i), K8(words))
  }

  lemma K8Bound(words: seq<word>)
    requires Probabilities(words)
    ensures K8(words) == BlockK8(BlockExponent(words)) <= 1984
  {
    MaxElementBounds(words, 32);
    ProbabilityFields(0, MaxElement(words, 32));
  }

  lemma CodeBounds(words: seq<word>, i: nat)
    requires Probabilities(words) && i < 32
    ensures 0 <= CodeOf(words, i) <= 63
  {
    BlockHolds(words, i);
    K8Bound(words);
    CodesAreSmall(Element(words, i), BlockExponent(words));
  }

  lemma ElementsOfPair(words: seq<word>, u: nat)
    requires |words| == 16 && u < 8
    ensures Element(words, 4 * u) == LowHalf(words[2 * u]) && Element(words, 4 * u + 1) == HighHalf(words[2 * u])
    ensures Element(words, 4 * u + 2) == LowHalf(words[2 * u + 1])
            && Element(words, 4 * u + 3) == HighHalf(words[2 * u + 1])
  {
  }

  /** The four bytes of a stored word are the codes of its four columns. */
  lemma PackedWordIsCodes(words: seq<word>, u: nat)
    requires Probabilities(words) && u < 8
    ensures 0 <= CodeOf(words, 4 * u) <= 63 && 0 <= CodeOf(words, 4 * u + 1) <= 63
    ensures 0 <= CodeOf(words, 4 * u + 2) <= 63 && 0 <= CodeOf(words, 4 * u + 3) <= 63
    ensures PackedWord(words, u) == Bytes(CodeOf(words, 4 * u), CodeOf(words, 4 * u + 1), CodeOf(words, 4 * u + 2),
                                          CodeOf(words, 4 * u + 3))
  {
    ElementsOfPair(words, u);
    CodeBounds(words, 4 * u);
    CodeBounds(words, 4 * u + 1);
    CodeBounds(words, 4 * u + 2);
    CodeBounds(words, 4 * u + 3);
    K8Bound(words);
    Pack4IsCodes(words[2 * u], words[2 * u + 1], K8(words));
  }

  /** On probabilities, which do not exceed 1, the two-at-a-time form stores the same word. */
  lemma SwarStoresTheSame(words: seq<word>, u: nat)
    requires Probabilities(words) && u < 8 && BlockExponent(words) <= 127
    ensures K8(words) <= 968 && Pack4Swar(words[2 * u], words[2 * u + 1], SwarBias(K8(words))) == PackedWord(words, u)
  {
    ElementsOfPair(words, u);
    CodeBounds(words, 4 * u);
    CodeBounds(words, 4 * u + 1);
    CodeBounds(words, 4 * u + 2);
    CodeBounds(words, 4 * u + 3);
    K8Bound(words);
    SwarIsPack4(words[2 * u], words[2 * u + 1], K8(words));
  }

  /** MAIN RESULT 1.  For every value of a block: the stored codes and scale are the legacy ones when the
      block exponent is at least 7; what they stand for is what the legacy ones stand for in any case; and
      the value lost is less than an eighth, or the value was below 2^-6 of the block scale. */
  lemma BlockQuantization(words: seq<word>, i: nat)
    requires Probabilities(words) && i < 32
    ensures var b, em := Element(words, i), BlockExponent(words);
            && 0 <= CodeOf(words, i) <= 63 && FastScale(em) >= 7 && ToE4m3Scaled(b, em - 127) >= 0
               && LegacyScale(em) >= 0
            && (em >= 7 ==> CodeOf(words, i) == ToE4m3Scaled(b, em - 127) && FastScale(em) == LegacyScale(em))
            && Dequantized(CodeOf(words, i), FastScale(em)) == Dequantized(ToE4m3Scaled(b, em - 127), LegacyScale(em))
            && Exponent(b) < 0xFF
            && (var v, q := Value(b), Dequantized(CodeOf(words, i), FastScale(em));
                if Kept(b, FastScale(em)) then q <= v && 8 * (v - q) < v
                else q == 0 && v < Bits.Pow2(FastScale(em) + 4))
  {
    var b, em := Element(words, i), BlockExponent(words);
    BlockHolds(words, i);
    K8Bound(words);
    CodesAreSmall(b, em);
    SameValues(b, em);
    QuantizationError(b, em);
    FastValue(b, em);
    if em >= 7 { FastIsLegacy(b, em); }
  }

  // ---- the loop of one thread ----------------------------------------------------------------------

  /** The softmax words of a block, wherever the layout puts them. */
  function BlockWords(s: Shape, p: seq<word>, row: nat, b: nat): (r: seq<word>)
    requires row < Rows(s) && b < s.n && SoftmaxFits(s, p)
    ensures |r| == 16
  {
    seq(16, k requires 0 <= k < 16 => WordBound(s, row, b, k); p[WriterWord(s, row, b, k)])
  }

  predicate SoftmaxFits(s: Shape, p: seq<word>) {
    |p| >= 16 * Items(s)
  }

  lemma WordBound(s: Shape, row: nat, b: nat, k: nat)
    requires row < Rows(s) && b < s.n && k < 16
    ensures WriterWord(s, row, b, k) < 16 * Items(s)
  {
    NibbleBits();
    if s.layout.RowMajor? {
      Arith.PairBelow(row, Rows(s), b, s.n);
      assert row * (16 * s.n) == 16 * (row * s.n);
    } else {
      BlockItem(s, row, b);
      Arith.PairBelow(b, s.n, row / 16, s.r);
      assert s.n * s.r * 256 == 16 * Items(s);
    }
  }

  /** The eight words of a block. */
  function Packed(words: seq<word>): (r: seq<word>)
    requires |words| == 16
    ensures |r| == 8
  {
    seq(8, u requires 0 <= u < 8 => PackedWord(words, u))
  }

  /** The scratchpad after the first n of a block's words have been stored. */
  function StoreWords(s: Shape, spad: seq<word>, packed: seq<word>, row: nat, b: nat, n: nat): (r: seq<word>)
    requires n <= |packed| == 8 && row < Rows(s) && b < s.n && |spad| == SpadWords(s)
    ensures |r| == |spad|
  {
    if n == 0 then spad
    else
      FastWordParts(s, row, b, n - 1);
      StoreWords(s, spad, packed, row, b, n - 1)[FastWord(s, row, b, n - 1) := packed[n - 1]]
  }

  lemma {:induction false} StoreWordsAt(s: Shape, spad: seq<word>, packed: seq<word>, row: nat, b: nat, n: nat,
                                        row': nat, b': nat, u': nat)
    requires n <= |packed| == 8 && row < Rows(s) && b < s.n && |spad| == SpadWords(s)
    requires row' < Rows(s) && b' < s.n && u' < 8
    ensures FastWord(s, row', b', u') < |spad|
    ensures StoreWords(s, spad, packed, row, b, n)[FastWord(s, row', b', u')]
            == if row' == row && b' == b && u' < n then packed[u'] else spad[FastWord(s, row', b', u')]
    decreases n
  {
    WordInSpad(s, row', b', u');
    if n > 0 {
      StoreWordsAt(s, spad, packed, row, b, n - 1, row', b', u');
      WordInSpad(s, row, b, n - 1);
      SameWord(s, row', b', u', row, b, n - 1);
    }
  }

  lemma WordInSpad(s: Shape, row: nat, b: nat, u: nat)
    requires row < Rows(s) && b < s.n && u < 8
    ensures FastWord(s, row, b, u) < SpadWords(s)
  {
    FastWordParts(s, row, b, u);
  }

  lemma SameWord(s: Shape, row: nat, b: nat, u: nat, row': nat, b': nat, u': nat)
    requires row < Rows(s) && b < s.n && u < 8 && row' < Rows(s) && b' < s.n && u' < 8
    ensures FastWord(s, row, b, u) == FastWord(s, row', b', u') <==> row == row' && b == b' && u == u'
  {
    if FastWord(s, row, b, u) == FastWord(s, row', b', u') { FastWordInjective(s, row, b, u, row', b', u'); }
  }

  method PackWord(words: seq<word>, u: nat, k8: word) returns (w: word)
    requires |words| == 16 && u < 8 && k8 == K8(words)
    ensures w == Packed(words)[u]
  {
    w := Pack4(words[2 * u], words[2 * u + 1], k8);
  }

  method StoreBlock(s: Shape, words: seq<word>, k8: word, spad: array<word>, row: nat, b: nat)
    requires |words| == 16 && k8 == K8(words) && row < Rows(s) && b < s.n && spad.Length == SpadWords(s)
    modifies spad
    ensures spad[..] == StoreWords(s, old(spad[..]), Packed(words), row, b, 8)
  {
    ghost var before, packed := spad[..], Packed(words);
    for u := 0 to 8
      invariant spad[..] == StoreWords(s, before, packed, row, b, u)
    {
      WordInSpad(s, row, b, u);
      var w := PackWord(words, u, k8);
      spad[FastWord(s, row, b, u)] := w;
    }
  }

  /** One item of the loop: the block scale, then eight words of four codes. */
  method RequantItem(s: Shape, p: seq<word>, spad: array<word>, scales: array<nat>, row: nat, b: nat)
    requires row < Rows(s) && b < s.n && SoftmaxFits(s, p) && spad.Length == SpadWords(s) && scales.Length == Items(s)
    requires Probabilities(BlockWords(s, p, row, b)) && ScaleSlot(s, row, b) < Items(s)
    modifies spad, scales
    ensures spad[..] == StoreWords(s, old(spad[..]), Packed(BlockWords(s, p, row, b)), row, b, 8)
    ensures scales[..] == old(scales[..])[ScaleSlot(s, row, b) := FastScale(BlockExponent(BlockWords(s, p, row, b)))]
  {
    var words := BlockWords(s, p, row, b);
    var bmax := BlockMax(words);
    var k8: word := K8(words);
    assert k8 == BlockK8(Exponent(bmax));
    scales[ScaleSlot(s, row, b)] := (k8 - 8) / 8 + 7;
    StoreBlock(s, words, k8, spad, row, b);
  }

  /** The tile when exactly this thread's items below the limit have been requantized. */
  ghost predicate TileAt(s: Shape, p: seq<word>, spad0: seq<word>, spad: seq<word>, tid: nat, threads: nat, limit: nat,
                         row: nat, b: nat, u: nat)
    requires row < Rows(s) && b < s.n && u < 8 && SoftmaxFits(s, p) && |spad0| == |spad| == SpadWords(s) && threads > 0
  {
    FastWordParts(s, row, b, u);
    spad[FastWord(s, row, b, u)]
    == if Mine(ItemOf(s, row, b), tid, threads, limit) then Packed(BlockWords(s, p, row, b))[u]
      else spad0[FastWord(s, row, b, u)]
  }

  ghost predicate ScaleAt(s: Shape, p: seq<word>, scales0: seq<nat>, scales: seq<nat>, tid: nat, threads: nat,
                          limit: nat, row: nat, b: nat)
    requires row < Rows(s) && b < s.n && SoftmaxFits(s, p) && |scales0| == |scales| == Items(s) && threads > 0
  {
    SlotBound(s, row, b);
    var slot := b * (16 * s.r) + row;
    scales[slot]
    == if Mine(ItemOf(s, row, b), tid, threads, limit) then FastScale(BlockExponent(BlockWords(s, p, row, b)))
       else scales0[slot]
  }

  lemma SlotBound(s: Shape, row: nat, b: nat)
    requires row < Rows(s) && b < s.n
    ensures b * (16 * s.r) + row == ScaleSlot(s, row, b) < Items(s)
  {
    Arith.PairBelow(b, s.n, row, Rows(s));
    assert s.n * Rows(s) == Items(s);
  }

  ghost predicate Tile(s: Shape, p: seq<word>, spad0: seq<word>, spad: seq<word>, scales0: seq<nat>, scales: seq<nat>,
                       tid: nat, threads: nat, limit: nat)
    requires SoftmaxFits(s, p) && |spad0| == |spad| == SpadWords(s) && |scales0| == |scales| == Items(s) && threads > 0
  {
    && (forall row: nat, b: nat, u: nat :: row < Rows(s) && b < s.n && u < 8 ==>
          TileAt(s, p, spad0, spad, tid, threads, limit, row, b, u))
    && (forall row: nat, b: nat :: row < Rows(s) && b < s.n ==>
          ScaleAt(s, p, scales0, scales, tid, threads, limit, row, b))
  }

  lemma TileStep(s: Shape, p: seq<word>, spad0: seq<word>, spad: seq<word>, scales0: seq<nat>, scales: seq<nat>,
                 tid: nat, threads: nat, item: nat, row: nat, b: nat)
    requires SoftmaxFits(s, p) && |spad0| == |spad| == SpadWords(s) && |scales0| == |scales| == Items(s) && threads > 0
    requires Tile(s, p, spad0, spad, scales0, scales, tid, threads, item) && Lane(item, threads) == tid
    requires row < Rows(s) && b < s.n && ItemOf(s, row, b) == item
    ensures ScaleSlot(s, row, b) < Items(s)
    ensures Tile(s, p, spad0, StoreWords(s, spad, Packed(BlockWords(s, p, row, b)), row, b, 8), scales0,
                 scales[ScaleSlot(s, row, b) := FastScale(BlockExponent(BlockWords(s, p, row, b)))],
                 tid, threads, item + threads)
  {
    SlotBound(s, row, b);
    var words := BlockWords(s, p, row, b);
    var spad' := StoreWords(s, spad, Packed(words), row, b, 8);
    var scales' := scales[ScaleSlot(s, row, b) := FastScale(BlockExponent(words))];
    var limit := item + threads;
    forall row': nat, b': nat, u': nat | row' < Rows(s) && b' < s.n && u' < 8
      ensures TileAt(s, p, spad0, spad', tid, threads, limit, row', b', u')
    {
      assert TileAt(s, p, spad0, spad, tid, threads, item, row', b', u');
      StoreWordsAt(s, spad, Packed(words), row, b, 8, row', b', u');
      SameItem(s, row, b, row', b');
      MineStep(ItemOf(s, row', b'), tid, threads, item);
    }
    forall row': nat, b': nat | row' < Rows(s) && b' < s.n
      ensures ScaleAt(s, p, scales0, scales', tid, threads, limit, row', b')
    {
      assert ScaleAt(s, p, scales0, scales, tid, threads, item, row', b');
      ScaleStep(s, p, scales0, scales, scales', tid, threads, item, row, b, row', b', limit);
    }
  }

  lemma ScaleStep(s: Shape, p: seq<word>, scales0: seq<nat>, scales: seq<nat>, scales': seq<nat>, tid: nat,
                  threads: nat, item: nat, row: nat, b: nat, row': nat, b': nat, limit: nat)
    requires SoftmaxFits(s, p) && |scales0| == |scales| == Items(s) && threads > 0 && Lane(item, threads) == tid
    requires row < Rows(s) && b < s.n && ItemOf(s, row, b) == item && ScaleSlot(s, row, b) < |scales|
    requires scales' == scales[ScaleSlot(s, row, b) := FastScale(BlockExponent(BlockWords(s, p, row, b)))]
    requires row' < Rows(s) && b' < s.n && ScaleAt(s, p, scales0, scales, tid, threads, item, row', b')
    requires limit == item + threads
    ensures ScaleAt(s, p, scales0, scales', tid, threads, limit, row', b')
  {
    SlotBound(s, row', b');
    if ScaleSlot(s, row', b') == ScaleSlot(s, row, b) { ScaleSlotInjective(s, row', b', row, b); }
    SameItem(s, row, b, row', b');
    MineStep(ItemOf(s, row', b'), tid, threads, item);
  }

  lemma SameItem(s: Shape, row: nat, b: nat, row': nat, b': nat)
    requires row < Rows(s) && b < s.n && row' < Rows(s) && b' < s.n
    ensures ItemOf(s, row, b) == ItemOf(s, row', b') <==> row == row' && b == b'
  {
    ItemsArePairs(s, row, b);
    ItemsArePairs(s, row', b');
  }

  ghost predicate AllProbabilities(s: Shape, p: seq<word>)
    requires SoftmaxFits(s, p)
  {
    forall row: nat, b: nat :: row < Rows(s) && b < s.n ==> Probabilities(BlockWords(s, p, row, b))
  }

  /** MAIN RESULT 2.  One thread of any number requantizes the blocks of its stride, all of them, and touches
      nothing else. */
  method RequantThread(s: Shape, p: seq<word>, spad: array<word>, scales: array<nat>, tid: nat, threads: nat)
    requires SoftmaxFits(s, p) && AllProbabilities(s, p) && spad.Length == SpadWords(s) && scales.Length == Items(s)
             && tid < threads
    modifies spad, scales
    ensures Tile(s, p, old(spad[..]), spad[..], old(scales[..]), scales[..], tid, threads, Items(s))
  {
    ghost var spad0, scales0 := spad[..], scales[..];
    var item := tid;
    TileStart(s, p, spad0, scales0, tid, threads);
    while item < Items(s)
      invariant Lane(item, threads) == tid && Tile(s, p, spad0, spad[..], scales0, scales[..], tid, threads, item)
      decreases Items(s) - item
    {
      item := RequantNext(s, p, spad, scales, spad0, scales0, tid, threads, item);
    }
    TileEnd(s, p, spad0, spad[..], scales0, scales[..], tid, threads, item);
  }

  /** One pass of the loop. */
  method RequantNext(s: Shape, p: seq<word>, spad: array<word>, scales: array<nat>, ghost spad0: seq<word>,
                     ghost scales0: seq<nat>, tid: nat, threads: nat, item: nat) returns (item': nat)
    requires SoftmaxFits(s, p) && AllProbabilities(s, p) && |spad0| == spad.Length == SpadWords(s)
             && |scales0| == scales.Length == Items(s)
    requires tid < threads && item < Items(s) && Lane(item, threads) == tid
    requires Tile(s, p, spad0, spad[..], scales0, scales[..], tid, threads, item)
    modifies spad, scales
    ensures item' == item + threads && Lane(item', threads) == tid
    ensures Tile(s, p, spad0, spad[..], scales0, scales[..], tid, threads, item')
  {
    PairsAreItems(s, item);
    var row, b := RowOf(s, item), BlockOf(s, item);
    TileStep(s, p, spad0, spad[..], scales0, scales[..], tid, threads, item, row, b);
    RequantItem(s, p, spad, scales, row, b);
    item' := item + threads;
  }

  lemma TileStart(s: Shape, p: seq<word>, spad0: seq<word>, scales0: seq<nat>, tid: nat, threads: nat)
    requires SoftmaxFits(s, p) && |spad0| == SpadWords(s) && |scales0| == Items(s) && tid < threads
    ensures Tile(s, p, spad0, spad0, scales0, scales0, tid, threads, tid)
  {
  }

  lemma TileEnd(s: Shape, p: seq<word>, spad0: seq<word>, spad: seq<word>, scales0: seq<nat>, scales: seq<nat>,
                tid: nat, threads: nat, item: nat)
    requires SoftmaxFits(s, p) && |spad0| == |spad| == SpadWords(s) && |scales0| == |scales| == Items(s) && threads > 0
    requires Tile(s, p, spad0, spad, scales0, scales, tid, threads, item) && item >= Items(s)
    ensures Tile(s, p, spad0, spad, scales0, scales, tid, threads, Items(s))
  {
    forall row: nat, b: nat, u: nat | row < Rows(s) && b < s.n && u < 8
      ensures TileAt(s, p, spad0, spad, tid, threads, Items(s), row, b, u)
    {
      assert TileAt(s, p, spad0, spad, tid, threads, item, row, b, u);
      ItemsArePairs(s, row, b);
    }
    forall row: nat, b: nat | row < Rows(s) && b < s.n
      ensures ScaleAt(s, p, scales0, scales, tid, threads, Items(s), row, b)
    {
      assert ScaleAt(s, p, scales0, scales, tid, threads, item, row, b);
      ItemsArePairs(s, row, b);
    }
  }

  // ---- any interleaving of any number of threads ---------------------------------------------------

  /** The stores of one item: its block scale, and its words. */
  datatype Store = ScaleStore(row: nat, b: nat) | WordStore(row: nat, b: nat, u: nat)

  /** Softmax words, scratchpad words, scale slots, and each row's maximum, denominator and correction. */
  datatype Loc = Softmax(i: nat) | Spad(i: nat) | Slot(i: nat)
               | MaxState(row: nat) | SumState(row: nat) | CorrState(row: nat)

  predicate IsStore(s: Shape, a: Store) {
    a.row < Rows(s) && a.b < s.n && (a.WordStore? ==> a.u < 8)
  }

  function Target(s: Shape, a: Store): Loc {
    if a.ScaleStore? then Slot(ScaleSlot(s, a.row, a.b)) else Spad(FastWord(s, a.row, a.b, a.u))
  }

  function Reads(s: Shape, a: Store): (r: seq<Loc>)
    ensures |r| == 16
  {
    seq(16, k requires 0 <= k < 16 => Softmax(WriterWord(s, a.row, a.b, k)))
  }

  /** What a store writes, by the straight-line path or by the branching one, from its block's words. */
  function StoredFrom(legacy: bool, a: Store, words: seq<word>): nat
    requires |words| == 16 && (a.WordStore? ==> a.u < 8)
  {
    if a.ScaleStore? then (if legacy then LegacyScale(BlockExponent(words)) else (K8(words) - 8) / 8 + 7)
    else if legacy then LegacyPacked(words)[a.u]
    else Packed(words)[a.u]
  }

  function LegacyCode(words: seq<word>, i: nat): int
    requires |words| == 16 && i < 32
  {
    ToE4m3Scaled(Element(words, i), BlockExponent(words) - 127)
  }

  /** The eight words of a block on the branching path, whose or-ed bytes are their sum (Swar.OrBytes). */
  function LegacyPacked(words: seq<word>): (r: seq<nat>)
    requires |words| == 16
    ensures |r| == 8
  {
    seq(8, u requires 0 <= u < 8 => LegacyPackedWord(words, u))
  }

  function LegacyPackedWord(words: seq<word>, u: nat): nat
    requires |words| == 16 && u < 8
  {
    Bytes(LegacyCode(words, 4 * u) % 0x100, LegacyCode(words, 4 * u + 1) % 0x100,
          LegacyCode(words, 4 * u + 2) % 0x100, LegacyCode(words, 4 * u + 3) % 0x100)
  }

  function Computes(legacy: bool): Store -> (seq<nat> -> nat) {
    (a: Store) => (vs: seq<nat>) =>
      if |vs| != 16 || (exists k :: 0 <= k < 16 && vs[k] >= 0x1_0000_0000) || (a.WordStore? && a.u >= 8) then 0
      else StoredFrom(legacy, a, AsWords(vs))
  }

  function AsWords(vs: seq<nat>): (r: seq<word>)
    requires forall k :: 0 <= k < |vs| ==> vs[k] < 0x1_0000_0000
    ensures |r| == |vs| && forall k :: 0 <= k < |r| ==> r[k] == vs[k]
  {
    seq(|vs|, k requires 0 <= k < |vs| => vs[k])
  }

  /** The stores as accesses to memory; none reads what another stores. */
  function Stores(s: Shape): Flow<Store, Loc> {
    Flow((a: Store) => Target(s, a), (a: Store) => Reads(s, a), _ => [], _ => 0)
  }

  ghost predicate EveryStoreOnce(s: Shape, order: seq<Store>) {
    Distinct(order) && forall a: Store :: a in order <==> IsStore(s, a)
  }

  lemma TargetsDiffer(s: Shape, a: Store, c: Store)
    requires IsStore(s, a) && IsStore(s, c) && Target(s, a) == Target(s, c)
    ensures a == c
  {
    if a.ScaleStore? {
      ScaleSlotInjective(s, a.row, a.b, c.row, c.b);
    } else {
      FastWordInjective(s, a.row, a.b, a.u, c.row, c.b, c.u);
    }
  }

  lemma StoresAreStaged(s: Shape)
    ensures WellStaged(Stores(s))
  {
    forall a: Store ensures StagedAt(Stores(s), a) {
    }
  }

  /** The memory after the stores have been performed in the given order. */
  ghost function After(s: Shape, legacy: bool, order: seq<Store>, m: imap<Loc, nat>): (r: imap<Loc, nat>)
    requires Total(m)
    ensures Total(r)
  {
    Execute(Program(Stores(s), Computes(legacy)), order, m)
  }

  lemma StoredValue(s: Shape, legacy: bool, order: seq<Store>, m: imap<Loc, nat>, a: Store)
    requires Total(m) && EveryStoreOnce(s, order) && IsStore(s, a)
    ensures After(s, legacy, order, m)[Target(s, a)] == Computes(legacy)(a)(Values(m, Reads(s, a)))
  {
    StoresAreStaged(s);
    assert a in order;
    var i :| 0 <= i < |order| && order[i] == a;
    forall k | i < k < |order| ensures Target(s, order[k]) != Target(s, a) {
      assert order[k] in order;
      if Target(s, order[k]) == Target(s, a) { TargetsDiffer(s, order[k], a); }
    }
    assert LastStore(Stores(s), order, i, |order|);
    FinalValueAt(Stores(s), Computes(legacy), order, m, i, a, Target(s, a));
    assert Values(m, Reads(s, a)) + Meanings(Stores(s), Computes(legacy), m, a) == Values(m, Reads(s, a));
  }

  /** The softmax words of a block in memory. */
  ghost predicate BlockAt(s: Shape, m: imap<Loc, nat>, row: nat, b: nat, words: seq<word>)
    requires Total(m)
  {
    |words| == 16 && forall k: nat :: k < 16 ==> m[Softmax(WriterWord(s, row, b, k))] == words[k]
  }

  lemma BlockRead(s: Shape, legacy: bool, m: imap<Loc, nat>, a: Store, words: seq<word>)
    requires Total(m) && IsStore(s, a) && BlockAt(s, m, a.row, a.b, words)
    ensures Computes(legacy)(a)(Values(m, Reads(s, a))) == StoredFrom(legacy, a, words)
  {
    var vs := Values(m, Reads(s, a));
    forall k: nat | k < 16 ensures vs[k] == words[k] {
    }
    assert AsWords(vs) == words;
  }

  /** What memory holds where a store went. */
  lemma StoreContents(s: Shape, legacy: bool, order: seq<Store>, m: imap<Loc, nat>, a: Store, words: seq<word>)
    requires Total(m) && EveryStoreOnce(s, order) && IsStore(s, a) && BlockAt(s, m, a.row, a.b, words)
    ensures After(s, legacy, order, m)[Target(s, a)] == StoredFrom(legacy, a, words)
  {
    StoredValue(s, legacy, order, m, a);
    BlockRead(s, legacy, m, a, words);
  }

  /** The code of one value on either path. */
  function PathCode(legacy: bool, words: seq<word>, i: nat): int
    requires |words| == 16 && i < 32
  {
    if legacy then LegacyCode(words, i) else CodeOf(words, i)
  }

  lemma LegacyScaleIsExponent(words: seq<word>)
    requires |words| == 16
    ensures LegacyScale(BlockExponent(words)) == BlockExponent(words)
  {
    FieldBounds(MaxElement(words, 32));
  }

  lemma ScalesAreBytes(words: seq<word>)
    requires Probabilities(words)
    ensures 0 <= LegacyScale(BlockExponent(words)) < 0x100 && 0 <= FastScale(BlockExponent(words)) < 0x100
  {
    K8Bound(words);
  }

  /** From a block exponent of 7 up the paths give the same codes and scale. */
  lemma PathsAgree(words: seq<word>, i: nat)
    requires Probabilities(words) && i < 32 && BlockExponent(words) >= 7
    ensures CodeOf(words, i) == LegacyCode(words, i)
    ensures FastScale(BlockExponent(words)) == LegacyScale(BlockExponent(words))
  {
    BlockHolds(words, i);
    K8Bound(words);
    FastIsLegacy(Element(words, i), BlockExponent(words));
  }

  lemma LegacyBounds(words: seq<word>, i: nat)
    requires Probabilities(words) && i < 32
    ensures 0 <= LegacyCode(words, i) <= 63
  {
    BlockHolds(words, i);
    CodesAreSmall(Element(words, i), BlockExponent(words));
  }

  /** A word of four codes, low byte first. */
  predicate HoldsCodes(w: nat, c0: int, c1: int, c2: int, c3: int) {
    IsByte(c0) && IsByte(c1) && IsByte(c2) && IsByte(c3) && w == Bytes(c0, c1, c2, c3)
  }

  lemma BytesHold(c0: int, c1: int, c2: int, c3: int)
    requires 0 <= c0 <= 63 && 0 <= c1 <= 63 && 0 <= c2 <= 63 && 0 <= c3 <= 63
    ensures HoldsCodes(Bytes(c0 % 0x100, c1 % 0x100, c2 % 0x100, c3 % 0x100), c0, c1, c2, c3)
  {
  }

  lemma LegacyHolds(words: seq<word>, u: nat)
    requires Probabilities(words) && u < 8
    ensures HoldsCodes(LegacyPacked(words)[u], LegacyCode(words, 4 * u), LegacyCode(words, 4 * u + 1),
                       LegacyCode(words, 4 * u + 2), LegacyCode(words, 4 * u + 3))
  {
    LegacyBounds(words, 4 * u);
    LegacyBounds(words, 4 * u + 1);
    LegacyBounds(words, 4 * u + 2);
    LegacyBounds(words, 4 * u + 3);
    BytesHold(LegacyCode(words, 4 * u), LegacyCode(words, 4 * u + 1), LegacyCode(words, 4 * u + 2),
              LegacyCode(words, 4 * u + 3));
  }

  lemma FastHolds(words: seq<word>, u: nat)
    requires Probabilities(words) && u < 8
    ensures HoldsCodes(Packed(words)[u], CodeOf(words, 4 * u), CodeOf(words, 4 * u + 1), CodeOf(words, 4 * u + 2),
                       CodeOf(words, 4 * u + 3))
  {
    PackedWordIsCodes(words, u);
  }

  /** Word u holds the codes of its four columns. */
  ghost predicate HoldsFrom(w: nat, codes: seq<int>, u: nat)
    requires |codes| == 32 && u < 8
  {
    HoldsCodes(w, codes[4 * u], codes[4 * u + 1], codes[4 * u + 2], codes[4 * u + 3])
  }

  lemma ByteHeld(w: nat, codes: seq<int>, u: nat, k: nat)
    requires |codes| == 32 && u < 8 && HoldsFrom(w, codes, u) && k < 4
    ensures ByteOf(w, k) == codes[4 * u + k]
  {
    BytesOf(codes[4 * u], codes[4 * u + 1], codes[4 * u + 2], codes[4 * u + 3], k);
  }

  /** A block's codes on either path. */
  ghost function BlockCodes(legacy: bool, words: seq<word>): (r: seq<int>)
    requires |words| == 16
    ensures |r| == 32
  {
    seq(32, i requires 0 <= i < 32 => PathCode(legacy, words, i))
  }

  lemma BlockCode(legacy: bool, words: seq<word>, i: nat)
    requires |words| == 16 && i < 32
    ensures BlockCodes(legacy, words)[i] == PathCode(legacy, words, i)
  {
  }

  /** A stored word holds the codes of its four columns on either path. */
  lemma WordHolds(legacy: bool, a: Store, words: seq<word>, u: nat)
    requires Probabilities(words) && u < 8 && a.WordStore? && a.u == u
    ensures HoldsCodes(StoredFrom(legacy, a, words), PathCode(legacy, words, 4 * u), PathCode(legacy, words, 4 * u + 1),
                       PathCode(legacy, words, 4 * u + 2), PathCode(legacy, words, 4 * u + 3))
  {
    if legacy { LegacyHolds(words, u); } else { FastHolds(words, u); }
  }

  lemma CodesStored(legacy: bool, a: Store, words: seq<word>, u: nat, codes: seq<int>)
    requires Probabilities(words) && u < 8 && a.WordStore? && a.u == u && codes == BlockCodes(legacy, words)
    ensures HoldsFrom(StoredFrom(legacy, a, words), codes, u)
  {
    WordHolds(legacy, a, words, u);
    BlockCode(legacy, words, 4 * u);
    BlockCode(legacy, words, 4 * u + 1);
    BlockCode(legacy, words, 4 * u + 2);
    BlockCode(legacy, words, 4 * u + 3);
  }

  /** A byte of a stored word is the code of its column. */
  lemma StoredByte(legacy: bool, row: nat, b: nat, u: nat, k: nat, words: seq<word>)
    requires Probabilities(words) && u < 8 && k < 4
    ensures ByteOf(StoredFrom(legacy, WordStore(row, b, u), words), k) == PathCode(legacy, words, 4 * u + k)
  {
    CodesStored(legacy, WordStore(row, b, u), words, u, BlockCodes(legacy, words));
    ByteHeld(StoredFrom(legacy, WordStore(row, b, u), words), BlockCodes(legacy, words), u, k);
    BlockCode(legacy, words, 4 * u + k);
  }

  lemma TiledPlace(s: Shape, row: nat, b: nat, u: nat, k: nat)
    requires u < 8 && k < 4
    ensures var place := TiledByte(s, row, b * 32 + (4 * u + k)); place / 4 == FastWord(s, row, b, u) && place % 4 == k
  {
    FastWordIsTiled(s, row, b, u, k);
  }

  lemma OrderByte(s: Shape, legacy: bool, order: seq<Store>, m: imap<Loc, nat>, row: nat, b: nat, u: nat, k: nat,
                  words: seq<word>, w: nat)
    requires Total(m) && EveryStoreOnce(s, order) && row < Rows(s) && b < s.n && u < 8 && k < 4
    requires BlockAt(s, m, row, b, words) && Probabilities(words) && w == FastWord(s, row, b, u)
    ensures ByteOf(After(s, legacy, order, m)[Spad(w)], k) == PathCode(legacy, words, 4 * u + k)
  {
    StoreContents(s, legacy, order, m, WordStore(row, b, u), words);
    StoredByte(legacy, row, b, u, k, words);
  }

  lemma OrderScale(s: Shape, legacy: bool, order: seq<Store>, m: imap<Loc, nat>, row: nat, b: nat, words: seq<word>)
    requires Total(m) && EveryStoreOnce(s, order) && row < Rows(s) && b < s.n && BlockAt(s, m, row, b, words)
    ensures After(s, legacy, order, m)[Slot(ScaleSlot(s, row, b))]
            == if legacy then LegacyScale(BlockExponent(words)) else FastScale(BlockExponent(words))
  {
    StoreContents(s, legacy, order, m, ScaleStore(row, b), words);
  }

  /** Any order that has each store of each item once leaves the byte of every element at its tiled place as its
      code, and every scale slot as its block's scale. */
  lemma OrderContents(s: Shape, legacy: bool, order: seq<Store>, m: imap<Loc, nat>, row: nat, b: nat, i: nat,
                      words: seq<word>)
    requires Total(m) && EveryStoreOnce(s, order) && row < Rows(s) && b < s.n && i < 32
    requires BlockAt(s, m, row, b, words) && Probabilities(words)
    ensures var place := TiledByte(s, row, b * 32 + i);
            ByteOf(After(s, legacy, order, m)[Spad(place / 4)], place % 4) == PathCode(legacy, words, i)
    ensures After(s, legacy, order, m)[Slot(ScaleSlot(s, row, b))]
            == if legacy then LegacyScale(BlockExponent(words)) else FastScale(BlockExponent(words))
  {
    ElementByte(s, legacy, order, m, row, b, i, TiledByte(s, row, b * 32 + i), i / 4, i % 4, words);
    OrderScale(s, legacy, order, m, row, b, words);
  }

  lemma ElementByte(s: Shape, legacy: bool, order: seq<Store>, m: imap<Loc, nat>, row: nat, b: nat, i: nat,
                    place: nat, u: nat, k: nat, words: seq<word>)
    requires Total(m) && EveryStoreOnce(s, order) && row < Rows(s) && b < s.n && i < 32 && i == 4 * u + k && k < 4
    requires BlockAt(s, m, row, b, words) && Probabilities(words) && place == TiledByte(s, row, b * 32 + i)
    ensures ByteOf(After(s, legacy, order, m)[Spad(place / 4)], place % 4) == PathCode(legacy, words, i)
  {
    TiledPlace(s, row, b, u, k);
    OrderByte(s, legacy, order, m, row, b, u, place % 4, words, place / 4);
  }

  /** Byte k of a word, low byte first. */
  function ByteOf(w: nat, k: nat): nat {
    if k == 0 then w % 0x100 else ByteOf(w / 0x100, k - 1)
  }

  lemma BytesOf(c0: nat, c1: nat, c2: nat, c3: nat, k: nat)
    requires c0 < 0x100 && c1 < 0x100 && c2 < 0x100 && c3 < 0x100 && k < 4
    ensures ByteOf(Bytes(c0, c1, c2, c3), k) == if k == 0 then c0 else if k == 1 then c1 else if k == 2 then c2 else c3
  {
    var w, w1, w2 := Bytes(c0, c1, c2, c3), c1 + c2 * 0x100 + c3 * 0x1_0000, c2 + c3 * 0x100;
    NextByte(c0, w1);
    NextByte(c1, w2);
    NextByte(c2, c3);
    NextByte(c3, 0);
    assert w == c0 + w1 * 0x100 && w1 == c1 + w2 * 0x100;
    if k == 1 {
      assert ByteOf(w, 1) == ByteOf(w1, 0);
    } else if k == 2 {
      assert ByteOf(w, 2) == ByteOf(w1, 1) == ByteOf(w2, 0);
    } else if k == 3 {
      assert ByteOf(w, 3) == ByteOf(w1, 2) == ByteOf(w2, 1) == ByteOf(c3, 0);
    }
  }

  lemma NextByte(c: nat, rest: nat)
    requires c < 0x100
    ensures (c + rest * 0x100) % 0x100 == c && (c + rest * 0x100) / 0x100 == rest
  {
  }

  /** Every word of the tile and every scale slot is the target of one store. */
  lemma EveryPlaceIsStored(s: Shape, x: nat)
    ensures x < SpadWords(s) ==> exists a: Store :: IsStore(s, a) && Target(s, a) == Spad(x)
    ensures x < Items(s) ==> exists a: Store :: IsStore(s, a) && Target(s, a) == Slot(x)
  {
    if x < SpadWords(s) {
      var row, b, u := FastWordOnto(s, x);
      assert Target(s, WordStore(row, b, u)) == Spad(x);
    }
    if x < Items(s) {
      var row, b := ScaleSlotOnto(s, x);
      assert Target(s, ScaleStore(row, b)) == Slot(x);
    }
  }
}
