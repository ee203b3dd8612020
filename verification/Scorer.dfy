/** The integer-only scorer: bf16 to fixed point, bit-by-bit square root, and the Frobenius error in parts
    per million. */
module Scorer {
  import opened Arith
  import opened Bits

  newtype u16 = x: int | 0 <= x < 0x1_0000
  newtype u32 = x: int | 0 <= x < 0x1_0000_0000
  newtype u64 = x: int | 0 <= x < 0x1_0000_0000_0000_0000
  newtype i64 = x: int | -0x8000_0000_0000_0000 <= x < 0x8000_0000_0000_0000

  // ---- the square root ---------------------------------------------------------------------------

  /** The root found so far is p, a multiple of 2b; x is what is left of n, and r is 2pb. */
  ghost predicate Rooting(n: int, p: int, b: int, r: int, x: int) {
    && p >= 0 && b > 0 && p + 2 * b <= 0x1_0000_0000
    && r == 2 * (p * b) && x == n - p * p && 0 <= x < 2 * r + 4 * (b * b)
  }

  lemma SquareSum(p: int, b: int)
    ensures (p + b) * (p + b) == p * p + 2 * (p * b) + b * b
    ensures (p + b) * b == p * b + b * b
  {
  }

  lemma SquareBound(q: int, c: int)
    requires 0 <= q < c
    ensures 0 <= q * q < c * c
  {
    MulGe(q, 0, q);
    MulGe(c, q, q);
    MulMono(c, q, c);
  }

  lemma Double(p: int, h: int)
    ensures p * (2 * h) == 2 * (p * h) && (2 * h) * (2 * h) == 4 * (h * h)
  {
  }

  /** The tested bit is the square of b, a power of two, until it is shifted out. */
  ghost predicate TestBit(bit: int, b: int, k: nat) {
    b == Pow2(k) && bit == b * b
  }

  lemma NextBit(bit: int, b: int, k: nat)
    requires TestBit(bit, b, k)
    ensures bit > 0 && b > 0
    ensures if k == 0 then b == 1 && bit / 4 == 0 else TestBit(bit / 4, b / 2, k - 1) && 2 * (b / 2) == b
  {
    if k > 0 { assert (2 * Pow2(k - 1)) * (2 * Pow2(k - 1)) == 4 * (Pow2(k - 1) * Pow2(k - 1)); }
  }

  /** What holds after the last bit. */
  ghost predicate IsRoot(n: int, r: int) {
    r >= 0 && r * r <= n < (r + 1) * (r + 1)
  }

  /** One test, and the shift to the next bit. */
  lemma RootAdvance(n: int, p: int, b: int, r: int, x: int)
    requires Rooting(n, p, b, r, x)
    ensures r + b * b < 0x1_0000_0000_0000_0000
    ensures var (p', r', x') := if x >= r + b * b then (p + b, r / 2 + b * b, x - (r + b * b)) else (p, r / 2, x);
            && p' + b <= 0x1_0000_0000 && 0 <= r' < 0x1_0000_0000_0000_0000
            && r' == p' * b && x' == n - p' * p' && 0 <= x' < 2 * r' + b * b
  {
    SquareSum(p, b);
    SquareBound(p + b, 0x1_0000_0000);
    SquareBound(p, 0x1_0000_0000);
    SquareBound(b, 0x1_0000_0000);
  }

  lemma NextRooting(n: int, p: int, b: int, h: int, r: int, x: int)
    requires b == 2 * h && h > 0 && p >= 0 && p + b <= 0x1_0000_0000
    requires r == p * b && x == n - p * p && 0 <= x < 2 * r + b * b
    ensures Rooting(n, p, h, r, x)
  {
    Double(p, h);
  }

  lemma LastRooting(n: int, p: int, r: int, x: int)
    requires p >= 0 && r == p && x == n - p * p && 0 <= x < 2 * r + 1
    ensures IsRoot(n, r)
  {
    SquareSum(p, 1);
  }

  lemma FirstBit()
    ensures TestBit(0x4000_0000_0000_0000, 0x8000_0000, 31)
  {
    Powers();
  }

  lemma Powers()
    ensures Pow2(8) == 0x100 && Pow2(16) == 0x1_0000 && Pow2(24) == 0x100_0000
    ensures Pow2(30) == 0x4000_0000 && Pow2(31) == 0x8000_0000 && Pow2(33) == 0x2_0000_0000 && Pow2(34) == 0x4_0000_0000
  {
    assert Pow2(8) == 0x100;
    assert Pow2(16) == 0x1_0000;
    assert Pow2(24) == 0x100_0000;
  }

  /** One test bit: take it into the root when it fits. */
  method RootBit(x: u64, r: u64, bit: u64, ghost n: int, ghost p: int, ghost b: int)
    returns (x': u64, r': u64, ghost p': int)
    requires Rooting(n, p, b, r as int, x as int) && bit as int == b * b
    ensures p' >= 0 && p' + b <= 0x1_0000_0000
    ensures r' as int == p' * b && x' as int == n - p' * p' && x' as int < 2 * r' as int + bit as int
  {
    RootAdvance(n, p, b, r as int, x as int);
    if x >= r + bit {
      x' := x - (r + bit);
      r' := r / 2 + bit;
      p' := p + b;
    } else {
      x' := x;
      r' := r / 2;
      p' := p;
    }
  }

  lemma AfterBit(n: int, p: int, b: int, k: nat, r: int, x: int, bit: int)
    requires TestBit(bit, b, k) && p >= 0 && p + b <= 0x1_0000_0000
    requires r == p * b && x == n - p * p && 0 <= x < 2 * r + bit
    ensures if k == 0 then IsRoot(n, r) && bit / 4 == 0
            else Rooting(n, p, b / 2, r, x) && TestBit(bit / 4, b / 2, k - 1)
  {
    NextBit(bit, b, k);
    if k == 0 { LastRooting(n, p, r, x); } else { NextRooting(n, p, b, b / 2, r, x); }
  }

  lemma NextFit(bit: int, b: int, k: nat, x: int)
    requires TestBit(bit, b, k) && b <= 0x8000_0000 && 0 <= x < bit
    ensures if k == 0 then bit / 4 == 0 && x == 0
            else bit / 4 > 0 && TestBit(bit / 4, b / 2, k - 1) && b / 2 <= 0x8000_0000 && x < 4 * (bit / 4)
  {
    NextBit(bit, b, k);
    if k > 0 {
      NextBit(bit / 4, b / 2, k - 1);
      Double(0, b / 2);
    }
  }

  /** The highest power of four that fits, or zero. */
  method FirstFit(x: u64) returns (bit: u64, ghost b: int, ghost k: nat)
    ensures bit == 0 ==> x == 0
    ensures bit > 0 ==> TestBit(bit as int, b, k) && Rooting(x as int, 0, b, 0, x as int)
  {
    bit := 0x4000_0000_0000_0000;
    b, k := 0x8000_0000, 31;
    FirstBit();
    while bit > x
      invariant bit == 0 ==> x == 0
      invariant bit > 0 ==> TestBit(bit as int, b, k) && b <= 0x8000_0000 && x as int < 4 * bit as int
      decreases bit
    {
      NextFit(bit as int, b, k, x as int);
      bit := bit / 4;
      b, k := b / 2, if k == 0 then 0 else k - 1;
    }
    if bit > 0 { FirstRooting(x as int, b, bit as int, k); }
  }

  lemma FirstRooting(x: int, b: int, bit: int, k: nat)
    requires TestBit(bit, b, k) && b <= 0x8000_0000 && 0 <= x < 4 * bit
    ensures Rooting(x, 0, b, 0, x)
  {
    NextBit(bit, b, k);
  }

  /** The root of any 64-bit number, without overflow. */
  method Isqrt(x0: u64) returns (root: u64)
    ensures IsRoot(x0 as int, root as int)
  {
    ghost var b, k;
    var x, r, bit: u64 := x0, 0, 0;
    bit, b, k := FirstFit(x0);
    ghost var n, p := x0 as int, 0;
    while bit != 0
      invariant bit == 0 ==> IsRoot(n, r as int)
      invariant bit > 0 ==> TestBit(bit as int, b, k) && Rooting(n, p, b, r as int, x as int)
      decreases bit
    {
      x, r, p := RootBit(x, r, bit, n, p, b);
      AfterBit(n, p, b, k, r as int, x as int, bit as int);
      bit := bit / 4;
      b, k := b / 2, if k == 0 then 0 else k - 1;
    }
    root := r;
  }

  lemma RootIsUnique(n: int, a: int, b: int)
    requires IsRoot(n, a) && IsRoot(n, b)
    ensures a == b
  {
    if a < b { SquareBound(a + 1, b + 1); SquaresGrow(a + 1, b); }
    if b < a { SquaresGrow(b + 1, a); }
  }

  lemma OnlyRoot(n: int, r: int)
    requires IsRoot(n, r)
    ensures forall a :: IsRoot(n, a) ==> a == r
  {
    forall a | IsRoot(n, a) ensures a == r { RootIsUnique(n, a, r); }
  }

  lemma SquaresGrow(a: int, b: int)
    requires 0 <= a <= b
    ensures a * a <= b * b
  {
    if a < b { SquareBound(a, b); }
  }

  // ---- bf16 to fixed point ------------------------------------------------------------------------

  function Exponent(h: u16): int { (h as int / 128) % 256 }
  function Mantissa(h: u16): int { h as int % 128 }
  predicate Negative(h: u16) { h as int >= 0x8000 }

  /** The fixed-point magnitude at 2^-16. */
  function FxMagnitude(h: u16): (v: int)
    ensures 0 <= v <= 0x100_0000_0000
  {
    var e, m := Exponent(h), 128 + Mantissa(h);
    if e == 0 then 0
    else
      var sh := e - 118;
      if sh >= 0 then (if sh > 30 then 0x100_0000_0000 else ShiftBound(m, sh); m * Pow2(sh))
      else if sh < -8 then 0
      else QuotientBound(m, Pow2(-sh)); m / Pow2(-sh)
  }

  function Fx(h: u16): (v: i64)
  {
    if Negative(h) then -(FxMagnitude(h) as i64) else FxMagnitude(h) as i64
  }

  lemma ShiftBound(m: int, sh: nat)
    requires 0 <= m < 256 && sh <= 30
    ensures 0 <= m * Pow2(sh) <= 0x100_0000_0000
  {
    Pow2Grows(sh, 30);
    Powers();
    MulLe(m, 256, Pow2(sh));
  }

  lemma MulLe(m: int, c: int, p: int)
    requires 0 <= m <= c && p >= 0
    ensures 0 <= m * p <= c * p
  {
    MulGe(m, 0, p);
    MulGe(c, m, p);
  }

  lemma QuotientBound(m: int, d: int)
    requires 0 <= m < 256 && d > 0
    ensures 0 <= m / d <= m
  {
  }

  /** t is m * 2^s rounded toward zero. */
  ghost predicate Truncates(m: nat, s: int, t: int) {
    if s >= 0 then t == m * Pow2(s) else 0 <= t && t * Pow2(-s) <= m < (t + 1) * Pow2(-s)
  }

  /** The value times 2^16 is Significand * 2^Scale. */
  function Significand(h: u16): nat { if Exponent(h) == 0 then Mantissa(h) else 128 + Mantissa(h) }
  function Scale(h: u16): int { (if Exponent(h) == 0 then 1 else Exponent(h)) - 118 }

  lemma SmallTruncates(m: nat, s: int)
    requires m < 256 && s < -8
    ensures Truncates(m, s, 0)
  {
    Powers();
    Pow2Grows(8, -s);
  }

  lemma QuotientTruncates(m: nat, s: int)
    requires s < 0
    ensures Truncates(m, s, m / Pow2(-s))
  {
    Bracket(m, Pow2(-s), m / Pow2(-s));
  }

  /** Beyond a shift of 30 the code answers 2^40, which is right for one value only. */
  lemma LargeShift(m: nat, s: nat)
    requires 128 <= m < 256 && s > 30
    ensures m * Pow2(s) == 0x100_0000_0000 <==> s == 33 && m == 128
  {
    Powers();
    if s < 33 {
      Pow2Grows(s, 32);
      assert Pow2(33) == 2 * Pow2(32);
      MulLe(m, 255, Pow2(s));
    } else if s > 33 {
      Pow2Grows(34, s);
      MulLe(128, m, Pow2(s));
    }
  }

  /** MAIN RESULT 2.  For finite inputs fx is the value times 2^16 rounded toward zero, exactly when the
      value's magnitude is below 2^22 or is 2^24. */
  lemma FxTruncates(h: u16)
    requires Exponent(h) != 255
    ensures Truncates(Significand(h), Scale(h), FxMagnitude(h))
            <==> Exponent(h) <= 148 || (Exponent(h) == 151 && Mantissa(h) == 0)
    ensures Fx(h) as int == if Negative(h) then -FxMagnitude(h) else FxMagnitude(h)
  {
    var e, m := Exponent(h), Significand(h);
    if e <= 109 {
      SmallTruncates(m, Scale(h));
    } else if e < 118 {
      QuotientTruncates(m, Scale(h));
    } else if e > 148 {
      LargeShift(m, Scale(h));
    }
  }

  // ---- the Frobenius error ------------------------------------------------------------------------

  /** Finite and below 256 in magnitude. */
  predicate Small(h: u16) {
    Exponent(h) <= 134
  }

  predicate Finite(h: u16) {
    Exponent(h) != 255
  }

  /** A code is its sign, exponent and mantissa fields; all exponent bits are set in the infinities and NaNs. */
  lemma CodeFields(h: u16)
    ensures h as int == (if Negative(h) then 0x8000 else 0) + 0x80 * Exponent(h) + Mantissa(h)
    ensures 0 <= Exponent(h) < 0x100 && 0 <= Mantissa(h) < 0x80
    ensures !Finite(h) <==> h as int % 0x8000 >= 0x7F80
  {
  }

  lemma SmallFx(h: u16)
    requires Small(h)
    ensures FxMagnitude(h) < 0x100_0000
  {
    var e, m := Exponent(h), 128 + Mantissa(h);
    Powers();
    if e >= 118 {
      Pow2Grows(e - 118, 16);
      MulLe(m, 255, Pow2(e - 118));
    } else if e > 109 {
      QuotientBound(m, Pow2(118 - e));
    }
  }

  function Half(words: seq<u32>, i: nat): u16
    requires i < 2 * |words|
  {
    if i % 2 == 0 then (words[i / 2] % 0x1_0000) as u16 else (words[i / 2] / 0x1_0000) as u16
  }

  /** The even element is the low half of its word, the odd one the high half. */
  lemma HalvesOfWord(words: seq<u32>, w: nat)
    requires w < |words|
    ensures Half(words, 2 * w) as int == words[w] as int % 0x1_0000
    ensures Half(words, 2 * w + 1) as int == words[w] as int / 0x1_0000
  {
  }

  function Square(x: int): (r: int)
    ensures r >= 0
  {
    x * x
  }

  /** Sum over the first n elements whose output is finite of the squared difference to the golden value. */
  function Error(words: seq<u32>, golden: seq<u16>, n: nat): int
    requires n <= 2 * |words| == |golden|
  {
    if n == 0 then 0
    else Error(words, golden, n - 1)
         + if Finite(Half(words, n - 1)) then Square(Fx(Half(words, n - 1)) as int - Fx(golden[n - 1]) as int) else 0
  }

  /** The same for the golden value itself. */
  function Norm(words: seq<u32>, golden: seq<u16>, n: nat): int
    requires n <= 2 * |words| == |golden|
  {
    if n == 0 then 0
    else Norm(words, golden, n - 1) + if Finite(Half(words, n - 1)) then Square(Fx(golden[n - 1]) as int) else 0
  }

  function NonFinite(words: seq<u32>, n: nat): int
    requires n <= 2 * |words|
  {
    if n == 0 then 0 else NonFinite(words, n - 1) + if Finite(Half(words, n - 1)) then 0 else 1
  }

  /** Every output is below 256 in magnitude or not finite, and every golden value is below 256. */
  ghost predicate InRange(words: seq<u32>, golden: seq<u16>) {
    && |golden| == 2 * |words| <= 8192
    && (forall i :: 0 <= i < |golden| ==> Small(golden[i]))
    && (forall i :: 0 <= i < |golden| ==> Finite(Half(words, i)) ==> Small(Half(words, i)))
  }

  lemma TermBound(o: int, g: int)
    requires -0x100_0000 < o < 0x100_0000 && -0x100_0000 < g < 0x100_0000
    ensures Square(o - g) < 0x4_0000_0000_0000 && Square(g) < 0x4_0000_0000_0000
  {
    if o >= g { SquareBound(o - g, 0x200_0000); } else { SquareBound(g - o, 0x200_0000); Negated(o - g); }
    if g >= 0 { SquareBound(g, 0x200_0000); } else { SquareBound(-g, 0x200_0000); Negated(g); }
  }

  lemma SquareBelow(q: int, c: int)
    requires c > 0
    ensures Square(q) < c * c <==> -c < q < c
  {
    var a := if q < 0 then -q else q;
    Negated(q);
    if a < c { SquareBound(a, c); } else { SquaresGrow(c, a); }
  }

  /** A squared golden value is below 2^48; a squared difference of an output and a golden value is exactly when
      their signs agree or their magnitudes sum to less than 256. */
  lemma TermFits48Bits(o: u16, g: u16)
    requires Small(o) && Small(g)
    ensures Square(Fx(g) as int) < 0x1_0000_0000_0000
    ensures Square(Fx(o) as int - Fx(g) as int) < 0x1_0000_0000_0000
            <==> Negative(o) == Negative(g) || FxMagnitude(o) + FxMagnitude(g) < 0x100_0000
  {
    SmallFx(o);
    SmallFx(g);
    SquareBelow(Fx(g) as int, 0x100_0000);
    SquareBelow(Fx(o) as int - Fx(g) as int, 0x100_0000);
  }

  /** A squared difference can pass 2^48, at output 255 and golden value -255; the bound that holds is 2^50. */
  lemma TermPasses48Bits()
    ensures Small(0x437F) && Small(0xC37F) && Square(Fx(0x437F) as int - Fx(0xC37F) as int) >= 0x1_0000_0000_0000
  {
    assert Exponent(0x437F) == 134 && Mantissa(0x437F) == 127 && Exponent(0xC37F) == 134 && Mantissa(0xC37F) == 127;
    Powers();
    assert FxMagnitude(0x437F) == 255 * 0x1_0000 && FxMagnitude(0xC37F) == 255 * 0x1_0000;
  }

  lemma Negated(x: int)
    ensures Square(x) == Square(-x)
  {
  }

  lemma {:induction false} SumsFit(words: seq<u32>, golden: seq<u16>, n: nat)
    requires InRange(words, golden) && n <= |golden|
    ensures 0 <= Error(words, golden, n) <= n * 0x4_0000_0000_0000
    ensures 0 <= Norm(words, golden, n) <= n * 0x4_0000_0000_0000
  {
    if n > 0 {
      SumsFit(words, golden, n - 1);
      var o, g := Half(words, n - 1), golden[n - 1];
      SmallFx(g);
      if Finite(o) {
        SmallFx(o);
        TermBound(Fx(o) as int, Fx(g) as int);
      }
    }
  }

  /** The squared difference and the squared golden value, in 64 bits. */
  method SquaredTerms(got: u16, golden: u16) returns (d: u64, g: u64)
    requires Small(got) && Small(golden)
    ensures d as int == Square(Fx(got) as int - Fx(golden) as int) < 0x4_0000_0000_0000
    ensures g as int == Square(Fx(golden) as int) < 0x4_0000_0000_0000
  {
    SmallFx(got);
    SmallFx(golden);
    var o, v := Fx(got), Fx(golden);
    TermBound(o as int, v as int);
    var e := o - v;
    d := SquareOf(e);
    g := SquareOf(v);
  }

  /** One element: a non-finite output is only counted. */
  method ScoreElement(got: u16, golden: u16, d2: u64, g2: u64, nonFinite: u32)
    returns (d2': u64, g2': u64, nonFinite': u32)
    requires (Finite(got) ==> Small(got)) && Small(golden)
    requires d2 as int < 0x8000_0000_0000_0000 && g2 as int < 0x8000_0000_0000_0000 && nonFinite < 0x8000_0000
    ensures d2' as int == d2 as int + if Finite(got) then Square(Fx(got) as int - Fx(golden) as int) else 0
    ensures g2' as int == g2 as int + if Finite(got) then Square(Fx(golden) as int) else 0
    ensures nonFinite' as int == nonFinite as int + if Finite(got) then 0 else 1
  {
    d2', g2', nonFinite' := d2, g2, nonFinite;
    if !Finite(got) {
      nonFinite' := nonFinite + 1;
    } else {
      var d, g := SquaredTerms(got, golden);
      d2' := d2 + d;
      g2' := g2 + g;
    }
  }

  method SquareOf(e: i64) returns (q: u64)
    requires Square(e as int) < 0x4_0000_0000_0000
    ensures q as int == Square(e as int)
  {
    SquareIsPositive(e as int);
    q := (e * e) as u64;
  }

  lemma SquareIsPositive(x: int)
    ensures x * x >= 0
  {
    Negated(x);
    if x >= 0 { MulGe(x, 0, x); } else { MulGe(-x, 0, -x); }
  }

  /** The sums of squares in 64 bits, which do not overflow on 8192 elements below 256. */
  method Accumulate(words: seq<u32>, golden: seq<u16>) returns (d2: u64, g2: u64, nonFinite: u32)
    requires InRange(words, golden)
    ensures d2 as int == Error(words, golden, |golden|) <= 0x8000_0000_0000_0000
    ensures g2 as int == Norm(words, golden, |golden|) <= 0x8000_0000_0000_0000
    ensures nonFinite as int == NonFinite(words, |golden|)
  {
    d2, g2, nonFinite := 0, 0, 0;
    SumsFit(words, golden, |golden|);
    for w := 0 to |words|
      invariant d2 as int == Error(words, golden, 2 * w) && g2 as int == Norm(words, golden, 2 * w)
      invariant nonFinite as int == NonFinite(words, 2 * w) <= 2 * w
    {
      var v := words[w];
      HalvesOfWord(words, w);
      d2, g2, nonFinite := ScoreNext(words, golden, 2 * w, (v % 0x1_0000) as u16, d2, g2, nonFinite);
      d2, g2, nonFinite := ScoreNext(words, golden, 2 * w + 1, (v / 0x1_0000) as u16, d2, g2, nonFinite);
    }
  }

  /** One element of the running sums. */
  method ScoreNext(ghost words: seq<u32>, golden: seq<u16>, i: nat, got: u16, d2: u64, g2: u64, nonFinite: u32)
    returns (d2': u64, g2': u64, nonFinite': u32)
    requires InRange(words, golden) && i < |golden| && got == Half(words, i)
    requires d2 as int == Error(words, golden, i) && g2 as int == Norm(words, golden, i)
    requires nonFinite as int == NonFinite(words, i) <= i
    ensures d2' as int == Error(words, golden, i + 1) && g2' as int == Norm(words, golden, i + 1)
    ensures nonFinite' as int == NonFinite(words, i + 1) <= i + 1
  {
    SumsFit(words, golden, i);
    assert Finite(Half(words, i)) ==> Small(Half(words, i));
    d2', g2', nonFinite' := ScoreElement(got, golden[i], d2, g2, nonFinite);
  }

  /** MAIN RESULT 3.  The reported number is a million times the root of the error over the root of the norm,
      each rounded down, in 32 bits; no 64-bit operation on the way overflows. */
  method FrobeniusPpm(words: seq<u32>, golden: seq<u16>) returns (ppm: u32)
    requires InRange(words, golden)
    ensures forall d, g :: IsRoot(Error(words, golden, |golden|), d) && IsRoot(Norm(words, golden, |golden|), g)
              ==> ppm as int == if g == 0 then 0 else (d * 1000000 / g) % 0x1_0000_0000
  {
    var d2, g2, nonFinite := Accumulate(words, golden);
    var sg := Isqrt(g2);
    var sd := Isqrt(d2);
    ghost var error, norm := Error(words, golden, |golden|), Norm(words, golden, |golden|);
    OnlyRoot(error, sd as int);
    OnlyRoot(norm, sg as int);
    RootFits(d2 as int, sd as int);
    ppm := Quotient(sd, sg);
  }

  method Quotient(sd: u64, sg: u64) returns (ppm: u32)
    requires sd < 0x1_0000_0000
    ensures ppm as int == if sg == 0 then 0 else (sd as int * 1000000 / sg as int) % 0x1_0000_0000
  {
    ppm := if sg == 0 then 0 else ((sd * 1000000 / sg) % 0x1_0000_0000) as u32;
  }

  lemma RootFits(n: int, r: int)
    requires IsRoot(n, r) && n < 0x1_0000_0000_0000_0000
    ensures r < 0x1_0000_0000
  {
    if r >= 0x1_0000_0000 { SquaresGrow(0x1_0000_0000, r); }
  }
}
