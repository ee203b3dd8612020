/** Where requantized blocks go: the tiled scratchpad layout, the scale slots, and the swizzled layouts of
    the softmax output they are read from.  SQ = 16r rows of SK = 32n columns; a row has n blocks of 32. */
module Tiles {
  import opened Arith
  import opened Bits

  datatype Layout = RowMajor | Swizzled(exclusive: bool)

  datatype Shape = Shape(r: nat, n: nat, layout: Layout)

  function Rows(s: Shape): nat { 16 * s.r }
  function Items(s: Shape): nat { Rows(s) * s.n }

  /** Blocks are numbered row by row, or block by block when the softmax output is swizzled. */
  function ItemOf(s: Shape, row: nat, b: nat): nat {
    if s.layout.RowMajor? then row * s.n + b else b * Rows(s) + row
  }

  function RowOf(s: Shape, item: nat): nat
    requires item < Items(s)
  {
    ItemsPositive(s, item);
    if s.layout.RowMajor? then Div(item, s.n) else Mod(item, Rows(s))
  }

  function BlockOf(s: Shape, item: nat): nat
    requires item < Items(s)
  {
    ItemsPositive(s, item);
    if s.layout.RowMajor? then Mod(item, s.n) else Div(item, Rows(s))
  }

  lemma ItemsPositive(s: Shape, item: nat)
    requires item < Items(s)
    ensures s.n > 0 && Rows(s) > 0
  {
    PositiveFactor(Rows(s), s.n);
    PositiveFactor(s.n, Rows(s));
  }

  lemma PositiveFactor(a: nat, b: nat)
    ensures a * b > 0 ==> b > 0
  {
  }

  /** Items and (row, block) pairs correspond one to one. */
  lemma ItemsArePairs(s: Shape, row: nat, b: nat)
    requires row < Rows(s) && b < s.n
    ensures ItemOf(s, row, b) < Items(s) && RowOf(s, ItemOf(s, row, b)) == row && BlockOf(s, ItemOf(s, row, b)) == b
  {
    if s.layout.RowMajor? {
      PairBelow(row, Rows(s), b, s.n);
      Remainder(row * s.n + b, s.n, row, b);
    } else {
      PairBelow(b, s.n, row, Rows(s));
      Remainder(b * Rows(s) + row, Rows(s), b, row);
    }
  }

  lemma PairsAreItems(s: Shape, item: nat)
    requires item < Items(s)
    ensures RowOf(s, item) < Rows(s) && BlockOf(s, item) < s.n && ItemOf(s, RowOf(s, item), BlockOf(s, item)) == item
  {
    if s.layout.RowMajor? {
      QuotientBelow(item, Rows(s), s.n);
    } else {
      assert s.n * Rows(s) == Items(s);
      QuotientBelow(item, s.n, Rows(s));
    }
  }

  // ---- the tiled scratchpad ------------------------------------------------------------------------

  /** Tiles of 16 by 16 are numbered row by row. */
  function TileNumber(s: Shape, ti: nat, tk: nat): nat { ti * (2 * s.n) + tk }

  /** Byte of element (m, c) in 16 by 16 tiles. */
  function TiledByte(s: Shape, m: nat, c: nat): nat {
    TileNumber(s, m / 16, c / 16) * 256 + m % 16 * 16 + c % 16
  }

  /** Element cc of row rr of the tile in tile row ti and tile column tk: tiles follow each other row by row, 256 bytes
      each, and within a tile rows of 16 bytes. */
  lemma TiledElement(s: Shape, ti: nat, tk: nat, rr: nat, cc: nat)
    requires rr < 16 && cc < 16
    ensures TiledByte(s, 16 * ti + rr, 16 * tk + cc) == (ti * (2 * s.n) + tk) * 256 + rr * 16 + cc
  {
  }

  /** The same for element i of block b of a row. */
  lemma ElementPlace(s: Shape, row: nat, b: nat, i: nat)
    requires i < 32
    ensures TiledByte(s, row, b * 32 + i)
            == (row / 16 * (2 * s.n) + (2 * b + i / 16)) * 256 + row % 16 * 16 + i % 16
  {
    assert (b * 32 + i) / 16 == 2 * b + i / 16 && (b * 32 + i) % 16 == i % 16;
  }

  /** The word the fast path stores for word u of a block. */
  function FastWord(s: Shape, row: nat, b: nat, u: nat): nat {
    row / 16 * (2 * s.n * 64) + b * 128 + row % 16 * 4 + u / 4 * 64 + u % 4
  }

  lemma Reassociate(a: int, b: int)
    ensures a * (b * 64) == a * b * 64
  {
  }

  /** MAIN RESULT 1.  The fast word index is the tiled byte offset over four, and its four bytes are the four
      columns' tiled bytes. */
  lemma FastWordIsTiled(s: Shape, row: nat, b: nat, u: nat, k: nat)
    requires u < 8 && k < 4
    ensures TiledByte(s, row, b * 32 + u * 4 + k) == 4 * FastWord(s, row, b, u) + k
    ensures FastWord(s, row, b, u) == TiledByte(s, row, b * 32 + u * 4) / 4
  {
    Reassociate(row / 16, 2 * s.n);
    assert (b * 32 + u * 4 + k) / 16 == 2 * b + u / 4 && (b * 32 + u * 4 + k) % 16 == u % 4 * 4 + k;
    assert (b * 32 + u * 4) / 16 == 2 * b + u / 4 && (b * 32 + u * 4) % 16 == u % 4 * 4;
  }

  function SpadWords(s: Shape): nat { Items(s) * 8 }

  /** Tile number, row in the tile and word of a tile row. */
  lemma FastWordParts(s: Shape, row: nat, b: nat, u: nat)
    requires row < Rows(s) && b < s.n && u < 8
    ensures FastWord(s, row, b, u) / 64 == row / 16 * (2 * s.n) + (2 * b + u / 4)
    ensures FastWord(s, row, b, u) % 64 == row % 16 * 4 + u % 4
    ensures FastWord(s, row, b, u) / 64 / (2 * s.n) == row / 16
            && FastWord(s, row, b, u) / 64 % (2 * s.n) == 2 * b + u / 4
    ensures FastWord(s, row, b, u) < SpadWords(s)
  {
    var tile, rest := row / 16 * (2 * s.n) + (2 * b + u / 4), row % 16 * 4 + u % 4;
    FastWordIs(s, row, b, u, tile, rest);
    Remainder(FastWord(s, row, b, u), 64, tile, rest);
    Remainder(tile, 2 * s.n, row / 16, 2 * b + u / 4);
    PairBelow(row / 16, s.r, 2 * b + u / 4, 2 * s.n);
    WordCount(s);
  }

  lemma WordCount(s: Shape)
    ensures s.r * (2 * s.n) * 64 == SpadWords(s)
  {
    assert Items(s) == 16 * (s.r * s.n) && s.r * (2 * s.n) == 2 * (s.r * s.n);
  }

  lemma FastWordIs(s: Shape, row: nat, b: nat, u: nat, tile: nat, rest: nat)
    requires u < 8 && tile == row / 16 * (2 * s.n) + (2 * b + u / 4) && rest == row % 16 * 4 + u % 4
    ensures FastWord(s, row, b, u) == tile * 64 + rest && rest < 64
  {
    Reassociate(row / 16, 2 * s.n);
  }

  lemma WordOfParts(s: Shape, ti: nat, tk: nat, rest: nat)
    requires rest < 64
    ensures FastWord(s, 16 * ti + rest / 4, tk / 2, tk % 2 * 4 + rest % 4) == (ti * (2 * s.n) + tk) * 64 + rest
  {
    var row, b, u := 16 * ti + rest / 4, tk / 2, tk % 2 * 4 + rest % 4;
    assert row / 16 == ti && row % 16 == rest / 4 && u / 4 == tk % 2 && u % 4 == rest % 4;
    FastWordIs(s, row, b, u, ti * (2 * s.n) + tk, rest);
  }

  /** Every word is stored by one word of one block only. */
  lemma FastWordInjective(s: Shape, row: nat, b: nat, u: nat, row': nat, b': nat, u': nat)
    requires row < Rows(s) && b < s.n && u < 8 && row' < Rows(s) && b' < s.n && u' < 8
    requires FastWord(s, row, b, u) == FastWord(s, row', b', u')
    ensures row == row' && b == b' && u == u'
  {
    FastWordParts(s, row, b, u);
    FastWordParts(s, row', b', u');
  }

  /** And every word of the tile is stored. */
  lemma FastWordOnto(s: Shape, x: nat) returns (row: nat, b: nat, u: nat)
    requires x < SpadWords(s)
    ensures row < Rows(s) && b < s.n && u < 8 && FastWord(s, row, b, u) == x
  {
    var tile, rest := x / 64, x % 64;
    WordCount(s);
    QuotientBelow(tile, s.r, 2 * s.n);
    var ti, tk := Div(tile, 2 * s.n), Mod(tile, 2 * s.n);
    row, b, u := 16 * ti + rest / 4, tk / 2, tk % 2 * 4 + rest % 4;
    WordOfParts(s, ti, tk, rest);
  }

  /** Scales are kept block by block, whatever the order of the items. */
  function ScaleSlot(s: Shape, row: nat, b: nat): nat { b * Rows(s) + row }

  lemma ScaleSlotInjective(s: Shape, row: nat, b: nat, row': nat, b': nat)
    requires row < Rows(s) && row' < Rows(s) && ScaleSlot(s, row, b) == ScaleSlot(s, row', b')
    ensures row == row' && b == b'
  {
    Unique(ScaleSlot(s, row, b), Rows(s), b, row, b', row');
  }

  lemma ScaleSlotOnto(s: Shape, x: nat) returns (row: nat, b: nat)
    requires x < Items(s)
    ensures row < Rows(s) && b < s.n && ScaleSlot(s, row, b) == x
  {
    assert s.n * Rows(s) == Items(s);
    QuotientBelow(x, s.n, Rows(s));
    row, b := Mod(x, Rows(s)), Div(x, Rows(s));
  }

  // ---- where the softmax output is ----------------------------------------------------------------

  const NIBBLE: nat := 4

  lemma NibbleBits()
    ensures Pow2(NIBBLE) == 16 && Pow2(NIBBLE + 1) == 32 && Pow2(NIBBLE + 2) == 64
  {
    var k := NIBBLE;
    assert Pow2(k) == 16 by { assert Pow2(2) == 4; }
    assert Pow2(k + 2) == 2 * Pow2(k + 1);
  }

  /** Where in a row of sixteen words a swizzled word is. */
  function Mix(exclusive: bool, il: nat, k: nat): nat
    requires il < 16 && k < 16
  {
    NibbleBits();
    if exclusive then Xor(NIBBLE, il, k) else il
  }

  /** Word k of a block as the softmax stores it. */
  function WriterWord(s: Shape, row: nat, b: nat, k: nat): nat
    requires k < 16
  {
    match s.layout
    case RowMajor => row * (16 * s.n) + b * 16 + k
    case Swizzled(exclusive) => row / 16 * 256 + k * 16 + Mix(exclusive, row % 16, k) + b * (16 * Rows(s))
  }

  /** The byte address from which item `item` reads word k; addresses have w bits and the buffer is at `base`. */
  function ReaderByte(s: Shape, w: nat, base: nat, item: nat, k: nat): nat
    requires item < Items(s) && k < 16
    requires base + item / 16 * 1024 + item % 16 * 4 < Pow2(w) && k * 68 < Pow2(w)
  {
    match s.layout
    case RowMajor => base + 4 * (RowOf(s, item) * (16 * s.n) + BlockOf(s, item) * 16 + k)
    case Swizzled(exclusive) =>
      if exclusive then Xor(w, base + item / 16 * 1024 + item % 16 * 4, k * 68)
      else base + 4 * (item / 16 * 256 + item % 16 + k * 16)
  }

  /** Above the six address bits of a row of words, k lands on clear bits. */
  lemma SwizzleHigh(v: nat, x: nat, k: nat)
    requires v >= 4 && x % 16 == 0 && x < Pow2(v) && k < 16
    ensures k < Pow2(v) && Xor(v, x, k) == x + k
  {
    NibbleBits();
    Pow2Grows(NIBBLE, v);
    ClearIsAligned(v, NIBBLE, x);
    XorIsSum(v, NIBBLE, x, k);
  }

  lemma XorQuadruple(m: nat, a: nat, b: nat)
    requires a < Pow2(m) && b < Pow2(m)
    ensures 4 * a < Pow2(m + 2) && 4 * b < Pow2(m + 2) && Xor(m + 2, 4 * a, 4 * b) == 4 * Xor(m, a, b)
  {
    XorShift(m, a, b);
    XorShift(m + 1, 2 * a, 2 * b);
  }

  lemma Shift64(x: nat)
    ensures Shift(NIBBLE + 2, x) == 64 * x
  {
    NibbleBits();
    ShiftIsProduct(NIBBLE + 2, x);
  }

  lemma HighBound(v: nat, x: nat, il: nat)
    requires 64 * x + 4 * il < Pow2(v + (NIBBLE + 2))
    ensures x < Pow2(v)
  {
    NibbleBits();
    Pow2Sum(v, NIBBLE + 2);
    if x >= Pow2(v) { MulGe(x, Pow2(v), 64); }
  }

  lemma XorOfParts(w: nat, v: nat, m: nat, x: nat, a: nat, y: nat, b: nat)
    requires m == NIBBLE && w == v + (m + 2) && x < Pow2(v) && y < Pow2(v) && a < Pow2(m) && b < Pow2(m)
    ensures 64 * x + 4 * a < Pow2(w) && 64 * y + 4 * b < Pow2(w)
    ensures Xor(w, 64 * x + 4 * a, 64 * y + 4 * b) == 64 * Xor(v, x, y) + 4 * Xor(m, a, b)
  {
    XorQuadruple(m, a, b);
    Composes(m, x, 4 * a);
    Composes(m, y, 4 * b);
    Composes(m, Xor(v, x, y), 4 * Xor(m, a, b));
    XorSplit(v, m + 2, x, 4 * a, y, 4 * b);
  }

  lemma Composes(m: nat, high: nat, low: nat)
    requires m == NIBBLE
    ensures Compose(m + 2, high, low) == 64 * high + low
  {
    Shift64(high);
  }

  /** A word above bit 6 and one that fits the clear nibble above them are added by exclusive or. */
  lemma XorOfRow(w: nat, v: nat, m: nat, x: nat, a: nat, y: nat, b: nat, mixed: nat)
    requires m == NIBBLE && w == v + (m + 2) && v >= 4 && x < Pow2(v) && y < 16 && a < Pow2(m) && b < Pow2(m)
    requires x % 16 == 0 && mixed == Xor(m, a, b)
    ensures 64 * x + 4 * a < Pow2(w) && 64 * y + 4 * b < Pow2(w)
    ensures Xor(w, 64 * x + 4 * a, 64 * y + 4 * b) == 64 * (x + y) + 4 * mixed
  {
    SwizzleHigh(v, x, y);
    XorOfParts(w, v, m, x, a, y, b);
  }

  /** The exclusive or with 68k puts k above the nibble, where it meets clear bits, and mixes it into the nibble. */
  lemma AddressXor(w: nat, base: nat, group: nat, il: nat, k: nat)
    requires w >= 10 && base % 1024 == 0 && il < 16 && k < 16 && base + group * 1024 + il * 4 < Pow2(w)
    ensures Pow2(NIBBLE) == 16 && k * 68 < Pow2(w)
    ensures Xor(w, base + group * 1024 + il * 4, k * 68) == base + 4 * (group * 256 + k * 16 + Xor(NIBBLE, il, k))
  {
    NibbleBits();
    var v: nat, x, from := w - (NIBBLE + 2), base / 64 + group * 16, base + group * 1024 + il * 4;
    AddressParts(base, group, x);
    HighBound(v, x, il);
    XorOfRow(w, v, NIBBLE, x, il, k, k, Xor(NIBBLE, il, k));
    assert from == 64 * x + 4 * il && k * 68 == 64 * k + 4 * k;
  }

  lemma AddressParts(base: nat, group: nat, x: nat)
    requires base % 1024 == 0 && x == base / 64 + group * 16
    ensures 64 * x == base + group * 1024 && x % 16 == 0
  {
  }

  lemma BlockItem(s: Shape, row: nat, b: nat)
    requires row < Rows(s) && b < s.n && s.layout.Swizzled?
    ensures ItemOf(s, row, b) / 16 == b * s.r + row / 16 && ItemOf(s, row, b) % 16 == row % 16
    ensures b * (16 * Rows(s)) == 256 * (b * s.r)
  {
    assert b * Rows(s) == 16 * (b * s.r);
    assert b * (16 * Rows(s)) == 16 * (b * Rows(s));
  }

  lemma WriterInItem(s: Shape, row: nat, b: nat, k: nat, group: nat, il: nat)
    requires row < Rows(s) && b < s.n && k < 16 && s.layout.Swizzled?
    requires group == ItemOf(s, row, b) / 16 && il == ItemOf(s, row, b) % 16
    ensures Pow2(NIBBLE) == 16
    ensures WriterWord(s, row, b, k) == group * 256 + k * 16 + if s.layout.exclusive then Xor(NIBBLE, il, k) else il
  {
    NibbleBits();
    BlockItem(s, row, b);
  }

  /** MAIN RESULT 2.  Under every layout an item reads each of its words where the softmax put it. */
  lemma ReaderIsWriter(s: Shape, w: nat, base: nat, row: nat, b: nat, k: nat)
    requires row < Rows(s) && b < s.n && k < 16 && w >= 10 && base % 1024 == 0
    requires ItemOf(s, row, b) < Items(s)
    requires base + ItemOf(s, row, b) / 16 * 1024 + ItemOf(s, row, b) % 16 * 4 < Pow2(w)
    ensures k * 68 < Pow2(w) && ReaderByte(s, w, base, ItemOf(s, row, b), k) == base + 4 * WriterWord(s, row, b, k)
  {
    ItemsArePairs(s, row, b);
    var item := ItemOf(s, row, b);
    Below68(w, k);
    match s.layout
    case RowMajor =>
    case Swizzled(exclusive) => ReaderSwizzled(s, w, base, row, b, k, item);
  }

  lemma Below68(w: nat, k: nat)
    requires w >= 10 && k < 16
    ensures k * 68 < Pow2(w)
  {
    Pow2Grows(10, w);
    NibbleBits();
    var n := NIBBLE + 2;
    assert Pow2(n + 4) == 16 * Pow2(n) by { assert Pow2(n + 2) == 4 * Pow2(n); }
  }

  lemma ReaderSwizzled(s: Shape, w: nat, base: nat, row: nat, b: nat, k: nat, item: nat)
    requires row < Rows(s) && b < s.n && k < 16 && w >= 10 && base % 1024 == 0 && s.layout.Swizzled? && k * 68 < Pow2(w)
    requires item == ItemOf(s, row, b) < Items(s) && base + item / 16 * 1024 + item % 16 * 4 < Pow2(w)
    ensures ReaderByte(s, w, base, item, k) == base + 4 * WriterWord(s, row, b, k)
  {
    AddressXor(w, base, item / 16, item % 16, k);
    WriterInItem(s, row, b, k, item / 16, item % 16);
  }

  /** Different words are at different places. */
  lemma WriterInjective(s: Shape, row: nat, b: nat, k: nat, row': nat, b': nat, k': nat)
    requires row < Rows(s) && b < s.n && k < 16 && row' < Rows(s) && b' < s.n && k' < 16
    requires WriterWord(s, row, b, k) == WriterWord(s, row', b', k')
    ensures row == row' && b == b' && k == k'
  {
    NibbleBits();
    if s.layout.RowMajor? {
      RowMajorParts(s, row, b, k);
      RowMajorParts(s, row', b', k');
    } else {
      SwizzledParts(s, row, b, k);
      SwizzledParts(s, row', b', k');
      if s.layout.exclusive {
        XorUndoes(NIBBLE, row % 16, k);
        XorUndoes(NIBBLE, row' % 16, k);
      }
    }
  }

  lemma RowMajorParts(s: Shape, row: nat, b: nat, k: nat)
    requires s.layout.RowMajor? && row < Rows(s) && b < s.n && k < 16
    ensures WriterWord(s, row, b, k) % 16 == k
    ensures Div(WriterWord(s, row, b, k) / 16, s.n) == row && Mod(WriterWord(s, row, b, k) / 16, s.n) == b
  {
    assert row * (16 * s.n) == 16 * (row * s.n);
    Remainder(row * s.n + b, s.n, row, b);
  }

  lemma SwizzledParts(s: Shape, row: nat, b: nat, k: nat)
    requires s.layout.Swizzled? && row < Rows(s) && b < s.n && k < 16
    ensures Pow2(NIBBLE) == 16
    ensures var x := WriterWord(s, row, b, k);
            && x % 16 == (if s.layout.exclusive then Xor(NIBBLE, row % 16, k) else row % 16) && x / 16 % 16 == k
            && Div(x / 256, s.r) == b && Mod(x / 256, s.r) == row / 16
  {
    NibbleBits();
    BlockItem(s, row, b);
    Digits(b * s.r + row / 16, k, if s.layout.exclusive then Xor(NIBBLE, row % 16, k) else row % 16);
    Remainder(b * s.r + row / 16, s.r, b, row / 16);
  }

  lemma Digits(high: nat, k: nat, z: nat)
    requires k < 16 && z < 16
    ensures var x := high * 256 + k * 16 + z; x % 16 == z && x / 16 % 16 == k && x / 256 == high
  {
  }
}
