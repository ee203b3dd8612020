/** Packing four codes per word: the straight-line form, one element at a time, and the form that converts
    the two halves of a word together. */
module Swar {
  import opened Arith
  import opened Bits
  import opened E4m3

  type word = x: nat | x < 0x1_0000_0000

  const WORD: nat := 32
  const HALF: nat := 16

  lemma WordBits()
    ensures WORD == HALF + HALF && Pow2(HALF) == 0x1_0000 && Pow2(WORD) == 0x1_0000_0000
  {
    assert Pow2(8) == 0x100;
    assert Pow2(16) == 0x1_0000;
    assert Pow2(24) == 0x100_0000;
    assert Pow2(32) == 0x1_0000_0000;
  }

  function Pair(high: bf16, low: bf16): word { high * 0x1_0000 + low }
  function LowHalf(w: word): bf16 { w % 0x1_0000 }
  function HighHalf(w: word): bf16 { w / 0x1_0000 }

  // ---- register operations -----------------------------------------------------------------------

  /** Shifts by n, given as the factor 2^n. */
  function ShiftLeft(x: word, factor: nat): word { x * factor % 0x1_0000_0000 }
  function ShiftRight(x: word, factor: nat): word
    requires factor > 0
  {
    x / factor
  }
  /** Sums and differences wrap around. */
  function Add(x: word, y: word): word { if x + y < 0x1_0000_0000 then x + y else x + y - 0x1_0000_0000 }
  function Sub(x: word, y: word): word { if x >= y then x - y else x - y + 0x1_0000_0000 }
  function Not(x: word): word { 0xFFFF_FFFF - x }

  /** The sign of x spread over the word. */
  function SignSpread(x: word): word { if x >= 0x8000_0000 then 0xFFFF_FFFF else 0 }

  function AndWord(x: word, y: word): word { WordBits(); And(WORD, x, y) }
  function OrWord(x: word, y: word): word { WordBits(); Or(WORD, x, y) }

  lemma AndMask(x: word)
    ensures AndWord(x, 0xFFFF_FFFF) == x && AndWord(x, 0) == 0
  {
    WordBits();
    AndOnes(WORD, x);
  }

  lemma PairIsCompose(high: bf16, low: bf16)
    ensures Pair(high, low) == Compose(HALF, high, low) && Pow2(HALF) == 0x1_0000
  {
    WordBits();
    ShiftIsProduct(HALF, high);
  }

  /** And and or work on the halves separately. */
  lemma AndPairs(a: bf16, b: bf16, c: bf16, d: bf16)
    ensures Pow2(HALF) == 0x1_0000 && AndWord(Pair(a, b), Pair(c, d)) == Pair(And(HALF, a, c), And(HALF, b, d))
  {
    WordBits();
    PairIsCompose(a, b);
    PairIsCompose(c, d);
    AndSplit(HALF, HALF, a, b, c, d);
    PairIsCompose(And(HALF, a, c), And(HALF, b, d));
  }

  lemma OrPairs(a: bf16, b: bf16, c: bf16, d: bf16)
    ensures Pow2(HALF) == 0x1_0000 && OrWord(Pair(a, b), Pair(c, d)) == Pair(Or(HALF, a, c), Or(HALF, b, d))
  {
    WordBits();
    PairIsCompose(a, b);
    PairIsCompose(c, d);
    OrSplit(HALF, HALF, a, b, c, d);
    PairIsCompose(Or(HALF, a, c), Or(HALF, b, d));
  }

  // ---- one element at a time ---------------------------------------------------------------------

  /** The seven instructions of one element, after its 11 bits have been shifted down to t. */
  function ElementCode(u: word, k8: word): word {
    var t := Sub(u, k8);
    AndWord(Add(t, 8), Not(SignSpread(t)))
  }

  /** Four bytes or-ed together after shifting, low byte first. */
  function OrFour(c0: word, c1: word, c2: word, c3: word): word {
    OrWord(OrWord(OrWord(c0, ShiftLeft(c1, 0x100)), ShiftLeft(c2, 0x1_0000)), ShiftLeft(c3, 0x100_0000))
  }

  function Pack4(wlo: word, whi: word, k8: word): word {
    var c0 := ElementCode(ShiftRight(ShiftLeft(wlo, 0x2_0000), 0x20_0000), k8);
    var c1 := ElementCode(ShiftRight(ShiftLeft(wlo, 2), 0x20_0000), k8);
    var c2 := ElementCode(ShiftRight(ShiftLeft(whi, 0x2_0000), 0x20_0000), k8);
    var c3 := ElementCode(ShiftRight(ShiftLeft(whi, 2), 0x20_0000), k8);
    OrFour(c0, c1, c2, c3)
  }

  /** A half of a word: sign bit, the 11 bits that matter, four bits that are dropped. */
  lemma HalfFields(b: bf16) returns (s: nat, r: nat)
    ensures s < 2 && r < 16 && U11(b) < 0x800 && b == s * 0x8000 + U11(b) * 16 + r
  {
    s, r := b / 0x8000, b % 16;
  }

  /** Shifting left drops the bits above the field, shifting right those below. */
  lemma ExtractsLow(w: word)
    ensures ShiftRight(ShiftLeft(w, 0x2_0000), 0x20_0000) == U11(LowHalf(w))
  {
    var s, r := HalfFields(LowHalf(w));
    var u := U11(LowHalf(w));
    Remainder(w * 0x2_0000, 0x1_0000_0000, HighHalf(w) * 2 + s, u * 0x20_0000 + r * 0x2_0000);
    Remainder(u * 0x20_0000 + r * 0x2_0000, 0x20_0000, u, r * 0x2_0000);
  }

  lemma ExtractsHigh(w: word)
    ensures ShiftRight(ShiftLeft(w, 2), 0x20_0000) == U11(HighHalf(w))
  {
    var s, r := HalfFields(HighHalf(w));
    var u := U11(HighHalf(w));
    Remainder(w * 2, 0x1_0000_0000, s, u * 0x20_0000 + r * 0x2_0000 + LowHalf(w) * 2);
    Remainder(u * 0x20_0000 + r * 0x2_0000 + LowHalf(w) * 2, 0x20_0000, u, r * 0x2_0000 + LowHalf(w) * 2);
  }

  lemma ElementIsFastCode(b: bf16, k8: word)
    requires 8 <= k8 < 0x1000
    ensures ElementCode(U11(b), k8) == FastCode(b, k8)
  {
    var t := Sub(U11(b), k8);
    AndMask(Add(t, 8));
  }

  /** Bytes c0..c3, low byte first. */
  function Bytes(c0: nat, c1: nat, c2: nat, c3: nat): nat {
    c0 + c1 * 0x100 + c2 * 0x1_0000 + c3 * 0x100_0000
  }

  /** Or-ing shifted bits into the bits below them is adding them. */
  lemma OrAbove(j: nat, k: nat, below: word, c: nat, shifted: word)
    requires j + k == WORD && shifted == Shift(j, c) && below < Pow2(j) && c < Pow2(k)
    ensures OrWord(below, shifted) == below + shifted
  {
    WordBits();
    OrSplit(k, j, 0, below, c, 0);
    ShiftZero(j);
    OrZero(j, below);
    OrZero(k, c);
  }

  lemma Shifted(c: nat)
    requires c < 0x100
    ensures Shift(BYTE, c) == c * 0x100 && Shift(2 * BYTE, c) == c * 0x1_0000 && Shift(3 * BYTE, c) == c * 0x100_0000
  {
    ByteBits();
    ShiftIsProduct(BYTE, c);
    ShiftIsProduct(2 * BYTE, c);
    ShiftIsProduct(3 * BYTE, c);
  }

  /** A byte shifted left by j bits, in the word and as a product. */
  lemma ShiftedByte(j: nat, c: nat, factor: nat)
    requires c < 0x100 && factor == Pow2(j) && factor <= 0x100_0000
    ensures ShiftLeft(c, factor) == Shift(j, c) == c * factor
  {
    ShiftIsProduct(j, c);
    MulGe(0xFF, c, factor);
  }

  lemma OrSecond(below: nat, c: nat)
    requires below < 0x100 && c < 0x100
    ensures OrWord(below, ShiftLeft(c, 0x100)) == below + c * 0x100
  {
    ByteBits();
    ShiftedByte(BYTE, c, 0x100);
    OrAbove(BYTE, 3 * BYTE, below, c, ShiftLeft(c, 0x100));
  }

  lemma OrThird(below: nat, c: nat)
    requires below < 0x1_0000 && c < 0x100
    ensures OrWord(below, ShiftLeft(c, 0x1_0000)) == below + c * 0x1_0000
  {
    ByteBits();
    ShiftedByte(2 * BYTE, c, 0x1_0000);
    OrAbove(2 * BYTE, 2 * BYTE, below, c, ShiftLeft(c, 0x1_0000));
  }

  lemma OrFourth(below: nat, c: nat)
    requires below < 0x100_0000 && c < 0x100
    ensures OrWord(below, ShiftLeft(c, 0x100_0000)) == below + c * 0x100_0000
  {
    ByteBits();
    ShiftedByte(3 * BYTE, c, 0x100_0000);
    OrAbove(3 * BYTE, BYTE, below, c, ShiftLeft(c, 0x100_0000));
  }

  lemma OrBytes(c0: nat, c1: nat, c2: nat, c3: nat)
    requires c0 < 0x100 && c1 < 0x100 && c2 < 0x100 && c3 < 0x100
    ensures OrFour(c0, c1, c2, c3) == Bytes(c0, c1, c2, c3)
  {
    OrSecond(c0, c1);
    OrThird(c0 + c1 * 0x100, c2);
    OrFourth(c0 + c1 * 0x100 + c2 * 0x1_0000, c3);
  }

  predicate IsByte(c: int) { 0 <= c < 0x100 }

  const BYTE: nat := 8

  lemma ByteBits()
    ensures Pow2(BYTE) == 0x100 && Pow2(2 * BYTE) == 0x1_0000 && Pow2(3 * BYTE) == 0x100_0000 && 4 * BYTE == WORD
  {
    assert Pow2(8) == 0x100;
    assert Pow2(16) == 0x1_0000;
    assert Pow2(24) == 0x100_0000;
  }

  /** MAIN RESULT 1.  For every bias a block can have, and any words whose four codes fit a byte, the
      instructions pack the four codes of the halves, low half first. */
  lemma Pack4IsCodes(wlo: word, whi: word, k8: word)
    requires 8 <= k8 < 0x1000 && CodesFit(wlo, whi, k8)
    ensures Pack4(wlo, whi, k8) == Bytes(FastCode(LowHalf(wlo), k8), FastCode(HighHalf(wlo), k8),
                                         FastCode(LowHalf(whi), k8), FastCode(HighHalf(whi), k8))
  {
    ExtractsLow(wlo);
    ExtractsHigh(wlo);
    ExtractsLow(whi);
    ExtractsHigh(whi);
    ElementIsFastCode(LowHalf(wlo), k8);
    ElementIsFastCode(HighHalf(wlo), k8);
    ElementIsFastCode(LowHalf(whi), k8);
    ElementIsFastCode(HighHalf(whi), k8);
    OrBytes(FastCode(LowHalf(wlo), k8), FastCode(HighHalf(wlo), k8), FastCode(LowHalf(whi), k8),
            FastCode(HighHalf(whi), k8));
  }

  predicate CodesFit(wlo: word, whi: word, k8: word) {
    && 0 <= FastCode(LowHalf(wlo), k8) < 0x100 && 0 <= FastCode(HighHalf(wlo), k8) < 0x100
    && 0 <= FastCode(LowHalf(whi), k8) < 0x100 && 0 <= FastCode(HighHalf(whi), k8) < 0x100
  }

  // ---- two elements at a time ---------------------------------------------------------------------

  /** The register y after the masked codes of both halves of w have been computed. */
  function PairCodes(w: word, d2: word): word {
    var y := Add(AndWord(ShiftRight(w, 0x10), 0x07FF_07FF), d2);
    var g := AndWord(y, 0x8000_8000);
    var t := Sub(g, ShiftRight(g, 0x8000));
    Add(AndWord(y, t), ShiftRight(g, 0x1000))
  }

  function Pack4Swar(wlo: word, whi: word, d2: word): word {
    var y0, y1 := PairCodes(wlo, d2), PairCodes(whi, d2);
    var lo := AndWord(OrWord(y0, ShiftRight(y0, 0x100)), 0xFFFF);
    OrWord(lo, ShiftLeft(OrWord(y1, ShiftRight(y1, 0x100)), 0x1_0000))
  }

  /** The bias of both halves. */
  function SwarBias(k8: word): word
    requires 8 <= k8 <= 968
  {
    Pair(0x7FF8 - (k8 - 8), 0x7FF8 - (k8 - 8))
  }

  lemma HalfBits()
    ensures Pow2(15) == 0x8000 && Pow2(HALF - 1) == 0x8000 && Pow2(HALF) == 0x1_0000
  {
    assert Pow2(8) == 0x100;
  }

  /** Masking a half with the top bit, with all bits below it, and with the low 11. */
  lemma HalfMasks(x: bf16)
    ensures Pow2(HALF) == 0x1_0000
    ensures And(HALF, x, 0x8000) == (if x >= 0x8000 then 0x8000 else 0)
    ensures And(HALF, x, 0x7FFF) == x % 0x8000 && And(HALF, x, 0) == 0 && And(HALF, x, 0xFFFF) == x
  {
    HalfBits();
    var k := HALF;
    AndOnes(k - 1, Low(k, x));
    AndOnes(k, x);
    assert Low(k, 0x8000) == 0 && Low(k, 0x7FFF) == 0x7FFF;
    assert And(k, x, 0x8000) == And(k - 1, Low(k, x), 0) + if Top(k, x) then 0x8000 else 0;
    assert And(k, x, 0x7FFF) == And(k - 1, Low(k, x), 0x7FFF);
  }

  /** Masking with ones below bit j keeps the low j bits. */
  lemma AndLow(k: nat, j: nat, q: nat, r: nat)
    requires q < Pow2(k) && r < Pow2(j)
    ensures Compose(j, q, r) < Pow2(k + j) && Pow2(j) - 1 < Pow2(k + j)
    ensures And(k + j, Compose(j, q, r), Pow2(j) - 1) == r
  {
    ShiftZero(j);
    AndSplit(k, j, q, r, 0, Pow2(j) - 1);
    AndOnes(k, q);
    AndOnes(j, r);
  }

  lemma LowEleven(x: bf16)
    ensures Pow2(HALF) == 0x1_0000 && And(HALF, x, 0x7FF) == x % 0x800
  {
    HalfBits();
    var j, k := HALF - 5, 5;
    assert Pow2(k) == 32 && Pow2(j) == 0x800 by { assert Pow2(8) == 0x100; }
    var q, r := x / 0x800, x % 0x800;
    ShiftIsProduct(j, q);
    AndLow(k, j, q, r);
  }

  lemma AddPairs(a: nat, b: nat, c: nat, d: nat)
    requires a + c < 0x1_0000 && b + d < 0x1_0000
    ensures Add(Pair(a, b), Pair(c, d)) == Pair(a + c, b + d)
  {
  }

  /** The validity bit of a half, the mask made of it, and the amount added back. */
  function Flag(valid: bool): bf16 { if valid then 0x8000 else 0 }
  function FieldMask(valid: bool): bf16 { if valid then 0x7FFF else 0 }
  function Addend(valid: bool): bf16 { if valid then 8 else 0 }

  /** The validity bits of both halves move together. */
  lemma ShiftFlags(h: bool, l: bool)
    ensures var g := Pair(Flag(h), Flag(l));
            && Sub(g, ShiftRight(g, 0x8000)) == Pair(FieldMask(h), FieldMask(l))
            && ShiftRight(g, 0x1000) == Pair(Addend(h), Addend(l))
  {
  }

  /** One half of the register from the biased value on. */
  function HalfCode(y: bf16): nat {
    if y >= 0x8000 then y % 0x8000 + 8 else 0
  }

  /** The bias makes bit 15 say that the code is at least 8, and masking and adding back give the code. */
  lemma HalfCodeIsFastCode(b: bf16, k8: word)
    requires 8 <= k8 <= 968
    ensures var y := U11(b) + 0x7FF8 - (k8 - 8);
            y < 0x1_0000 && HalfCode(y) == FastCode(b, k8) && (y >= 0x8000 <==> FastCode(b, k8) >= 8)
  {
    var s, r := HalfFields(b);
  }

  lemma FlagPair(yh: bf16, yl: bf16)
    ensures AndWord(Pair(yh, yl), 0x8000_8000) == Pair(Flag(yh >= 0x8000), Flag(yl >= 0x8000))
  {
    AndPairs(yh, yl, 0x8000, 0x8000);
    HalfMasks(yh);
    HalfMasks(yl);
  }

  lemma MaskPair(yh: bf16, yl: bf16)
    ensures var h, l := yh >= 0x8000, yl >= 0x8000;
            Add(AndWord(Pair(yh, yl), Pair(FieldMask(h), FieldMask(l))), Pair(Addend(h), Addend(l)))
              == Pair(HalfCode(yh), HalfCode(yl))
  {
    var h, l := yh >= 0x8000, yl >= 0x8000;
    AndPairs(yh, yl, FieldMask(h), FieldMask(l));
    HalfMasks(yh);
    HalfMasks(yl);
  }

  lemma BothHalves(yh: bf16, yl: bf16, y: word, g: word)
    requires y == Pair(yh, yl) && g == AndWord(y, 0x8000_8000)
    ensures Add(AndWord(y, Sub(g, ShiftRight(g, 0x8000))), ShiftRight(g, 0x1000)) == Pair(HalfCode(yh), HalfCode(yl))
  {
    FlagPair(yh, yl);
    ShiftFlags(yh >= 0x8000, yl >= 0x8000);
    MaskPair(yh, yl);
  }

  lemma ShiftFour(h: bf16, l: bf16)
    ensures h % 16 * 0x1000 + l / 16 < 0x1_0000
    ensures ShiftRight(Pair(h, l), 0x10) == Pair(h / 16, h % 16 * 0x1000 + l / 16)
    ensures (h % 16 * 0x1000 + l / 16) % 0x800 == l / 16 % 0x800
  {
  }

  lemma ExtractsBoth(w: word)
    ensures AndWord(ShiftRight(w, 0x10), 0x07FF_07FF) == Pair(U11(HighHalf(w)), U11(LowHalf(w)))
  {
    var h, l := HighHalf(w), LowHalf(w);
    var x, y := h / 16, h % 16 * 0x1000 + l / 16;
    ShiftFour(h, l);
    AndPairs(x, y, 0x7FF, 0x7FF);
    LowEleven(x);
    LowEleven(y);
  }

  /** Both halves are converted without a carry or a borrow between them. */
  lemma PairCodesAreCodes(w: word, k8: word)
    requires 8 <= k8 <= 968
    ensures 0 <= FastCode(LowHalf(w), k8) < 0x1_0000 && 0 <= FastCode(HighHalf(w), k8) < 0x1_0000
    ensures PairCodes(w, SwarBias(k8)) == Pair(FastCode(HighHalf(w), k8), FastCode(LowHalf(w), k8))
  {
    var h, l, d := HighHalf(w), LowHalf(w), 0x7FF8 - (k8 - 8);
    HalfCodeIsFastCode(h, k8);
    HalfCodeIsFastCode(l, k8);
    PairCodesFrom(w, SwarBias(k8), d, U11(h) + d, U11(l) + d, FastCode(h, k8), FastCode(l, k8));
  }

  lemma PairCodesFrom(w: word, d2: word, d: bf16, yh: bf16, yl: bf16, ch: bf16, cl: bf16)
    requires d2 == Pair(d, d) && yh == U11(HighHalf(w)) + d && yl == U11(LowHalf(w)) + d && ch == HalfCode(yh)
             && cl == HalfCode(yl)
    ensures PairCodes(w, d2) == Pair(ch, cl)
  {
    ExtractsBoth(w);
    AddPairs(U11(HighHalf(w)), U11(LowHalf(w)), d, d);
    BothHalves(yh, yl, Pair(yh, yl), AndWord(Pair(yh, yl), 0x8000_8000));
  }

  /** Folding the upper half's code next to the lower half's. */
  lemma FoldsBytes(h: nat, l: nat)
    requires h < 0x100 && l < 0x100
    ensures var y := Pair(h, l); OrWord(y, ShiftRight(y, 0x100)) == Pair(h, l + h * 0x100)
  {
    var y := Pair(h, l);
    assert ShiftRight(y, 0x100) == Pair(0, h * 0x100);
    OrPairs(h, l, 0, h * 0x100);
    HalfBits();
    OrZero(HALF, h);
    OrInHalf(h, l);
  }

  lemma OrInHalf(h: nat, l: nat)
    requires h < 0x100 && l < 0x100
    ensures Pow2(HALF) == 0x1_0000 && Or(HALF, l, h * 0x100) == l + h * 0x100
  {
    ByteBits();
    HalfBits();
    assert HALF == BYTE + BYTE;
    Shifted(h);
    ShiftZero(BYTE);
    OrSplit(BYTE, BYTE, 0, l, h, 0);
    OrZero(BYTE, l);
    OrZero(BYTE, h);
  }

  lemma KeepsLow(h: bf16, l: bf16)
    ensures AndWord(Pair(h, l), 0xFFFF) == l
  {
    AndPairs(h, l, 0, 0xFFFF);
    HalfMasks(h);
    HalfMasks(l);
  }

  /** MAIN RESULT 2.  The two-at-a-time form is the one-at-a-time form, for every bias from 0 to 960 and all
      words whose codes fit a byte. */
  lemma SwarIsPack4(wlo: word, whi: word, k8: word)
    requires 8 <= k8 <= 968 && CodesFit(wlo, whi, k8)
    ensures Pack4Swar(wlo, whi, SwarBias(k8)) == Pack4(wlo, whi, k8)
  {
    Pack4IsCodes(wlo, whi, k8);
    PairCodesAreCodes(wlo, k8);
    PairCodesAreCodes(whi, k8);
    PacksHalves(FastCode(LowHalf(wlo), k8), FastCode(HighHalf(wlo), k8), FastCode(LowHalf(whi), k8),
                FastCode(HighHalf(whi), k8));
  }

  /** The last instructions: four bytes out of two converted words. */
  lemma PacksHalves(c0: nat, c1: nat, c2: nat, c3: nat)
    requires c0 < 0x100 && c1 < 0x100 && c2 < 0x100 && c3 < 0x100
    ensures var y0, y1 := Pair(c1, c0), Pair(c3, c2);
            OrWord(AndWord(OrWord(y0, ShiftRight(y0, 0x100)), 0xFFFF),
                   ShiftLeft(OrWord(y1, ShiftRight(y1, 0x100)), 0x1_0000))
            == Bytes(c0, c1, c2, c3)
  {
    LowBytes(Pair(c1, c0), c0, c1);
    HighBytes(Pair(c3, c2), c0 + c1 * 0x100, c2, c3);
  }

  lemma LowBytes(y: word, c0: nat, c1: nat)
    requires c0 < 0x100 && c1 < 0x100 && y == Pair(c1, c0)
    ensures AndWord(OrWord(y, ShiftRight(y, 0x100)), 0xFFFF) == c0 + c1 * 0x100
  {
    FoldsBytes(c1, c0);
    KeepsLow(c1, c0 + c1 * 0x100);
  }

  lemma HighBytes(y: word, low: bf16, c2: nat, c3: nat)
    requires c2 < 0x100 && c3 < 0x100 && y == Pair(c3, c2)
    ensures OrWord(low, ShiftLeft(OrWord(y, ShiftRight(y, 0x100)), 0x1_0000)) == Pair(c2 + c3 * 0x100, low)
  {
    FoldsBytes(c3, c2);
    JoinsHalves(low, c3, c2 + c3 * 0x100);
  }

  lemma JoinsHalves(l: bf16, x: bf16, h: bf16)
    ensures OrWord(l, ShiftLeft(Pair(x, h), 0x1_0000)) == Pair(h, l)
  {
    assert ShiftLeft(Pair(x, h), 0x1_0000) == Pair(h, 0) by {
      Remainder(Pair(x, h) * 0x1_0000, 0x1_0000_0000, x, h * 0x1_0000);
    }
    OrPairs(0, l, h, 0);
    WordBits();
    OrZero(HALF, h);
    OrZero(HALF, l);
  }
}
