/** Requantization of one value: bf16 to e4m3 with a shared power-of-two scale, in the branching, the
    branchless and the straight-line form. */
module E4m3 {
  import opened Arith
  import opened Bits

  /** A bf16 code: sign, eight exponent bits, seven mantissa bits. */
  type bf16 = x: nat | x < 0x1_0000

  function Sign(b: bf16): nat { b / 0x8000 }
  function Exponent(b: bf16): nat { b / 0x80 % 0x100 }
  function Mantissa(b: bf16): nat { b % 0x80 }

  function Bf16(sign: nat, exponent: nat, mantissa: nat): (b: bf16)
    requires sign < 2 && exponent < 0x100 && mantissa < 0x80
  {
    sign * 0x8000 + exponent * 0x80 + mantissa
  }

  lemma Fields(sign: nat, exponent: nat, mantissa: nat)
    requires sign < 2 && exponent < 0x100 && mantissa < 0x80
    ensures Sign(Bf16(sign, exponent, mantissa)) == sign
    ensures Exponent(Bf16(sign, exponent, mantissa)) == exponent
    ensures Mantissa(Bf16(sign, exponent, mantissa)) == mantissa
  {
  }

  lemma FieldBounds(b: bf16)
    ensures Sign(b) < 2 && Exponent(b) < 0x100 && Mantissa(b) < 0x80 && Bf16(Sign(b), Exponent(b), Mantissa(b)) == b
  {
  }

  /** Multiply by 2^e in the exponent field. */
  function ScalePow2(b: bf16, e: int): bf16 {
    FieldBounds(b);
    var exp := Exponent(b);
    if exp == 0 || exp == 0xFF then b
    else
      var ne := exp + e;
      if ne <= 0 then Bf16(Sign(b), 0, 0)
      else if ne >= 0xFF then Bf16(Sign(b), 0xFF, 0)
      else Bf16(Sign(b), ne, Mantissa(b))
  }

  const EMIN: int := -6
  const EMAX: int := 8

  /** The branching encoder, rounding to nearest even or truncating. */
  function ToE4m3(rne: bool, b: bf16): nat {
    var exp := Exponent(b);
    if exp == 0 then 0
    else if exp == 0xFF then Sign(b) * 0x80 + 0x7E
    else
      var e := exp - 127;
      if e < EMIN then 0
      else
        var m := Mantissa(b) / 16;
        var up := rne && Mantissa(b) / 8 % 2 == 1 && (Mantissa(b) % 8 != 0 || m % 2 == 1);
        var m1 := if up then m + 1 else m;
        var (eu, m2) := if rne && m1 >= 8 then ((if e <= EMAX then e else EMAX) + 1, 0)
                        else (if e <= EMAX then e else EMAX, m1);
        var (eu3, m3) := if eu > EMAX || e > EMAX then (EMAX, 6) else (eu, m2);
        var m4 := if eu3 == EMAX && m3 > 6 then 6 else m3;
        Sign(b) * 0x80 + (eu3 + 7) * 8 + m4
  }

  /** All ones when the condition holds, else zero; and the selection such a mask makes. */
  function Mask(c: bool): int { if c then -1 else 0 }
  function Select(mask: int, x: int, y: int): int { if mask == 0 then x else y }

  /** The branchless encoder of b * 2^-se.  The fields of the code do not overlap when it is kept, so or-ing
      them is adding them; a code that is not kept is masked to 0. */
  function ToE4m3Scaled(b: bf16, se: int): int {
    var exp := Exponent(b);
    var m0 := Mantissa(b) / 16;
    var e0 := exp - 127 - se;
    var over := Mask(e0 > EMAX);
    var e := Select(over, e0, EMAX);
    var m1 := Select(over, m0, 6);
    var m := Select(Mask(e == EMAX && m1 > 6), m1, 6);
    var code := Sign(b) * 0x80 + (e + 7) * 8 + m;
    Select(Mask(!(exp == 0 || e < EMIN)), 0, code)
  }

  /** MAIN RESULT 1.  The branchless form is scaling followed by the truncating encoder, for every scale, on
      every finite value; on an infinity or NaN it agrees exactly when the scale is below 120, or is 120 and
      the mantissa at least 96. */
  lemma ScaledIsScaleThenEncode(b: bf16, se: int)
    ensures ToE4m3Scaled(b, se) == ToE4m3(false, ScalePow2(b, -se))
            <==> Exponent(b) != 0xFF || se < 120 || (se == 120 && Mantissa(b) >= 96)
  {
    FieldBounds(b);
    var exp := Exponent(b);
    if exp != 0 && exp != 0xFF {
      var ne := exp - se;
      Fields(Sign(b), if ne <= 0 then 0 else if ne >= 0xFF then 0xFF else ne, if 0 < ne < 0xFF then Mantissa(b) else 0);
    }
  }

  // ---- the straight-line form ---------------------------------------------------------------------

  /** Bits 14..4: exponent and the top three mantissa bits. */
  function U11(b: bf16): nat { b / 16 % 0x800 }

  lemma U11Fields(b: bf16)
    ensures U11(b) == 8 * Exponent(b) + Mantissa(b) / 16
  {
  }

  /** max(k, 0) + 8 through the sign mask. */
  function ClampK8(k: int): int {
    Select(Mask(k < 0), k, 0) + 8
  }

  /** One element: subtract the bias, and keep only codes of 8 and more. */
  function FastCode(b: bf16, k8: int): int {
    var t := U11(b) - k8;
    Select(Mask(t < 0), t + 8, 0)
  }

  /** The bias and the E8M0 scale of a block whose largest exponent field is em. */
  function BlockK8(em: nat): int { ClampK8((em - 7) * 8) }
  function FastScale(em: nat): int { (BlockK8(em) - 8) / 8 + 7 }

  function LegacyScale(em: nat): int { (em - 127 + 127) % 0x100 }

  /** A value the block may hold: not negative, finite, no larger than the block maximum. */
  predicate InBlock(b: bf16, em: nat) {
    Sign(b) == 0 && Exponent(b) <= em < 0xFF
  }

  /** MAIN RESULT 2.  From a block exponent of 7 up the fast form gives the legacy codes and scale. */
  lemma FastIsLegacy(b: bf16, em: nat)
    requires InBlock(b, em) && em >= 7
    ensures FastCode(b, BlockK8(em)) == ToE4m3Scaled(b, em - 127) && FastScale(em) == LegacyScale(em) == em
  {
    U11Fields(b);
  }

  /** No code of either form exceeds 63, so no code sets a sign or saturates. */
  lemma CodesAreSmall(b: bf16, em: nat)
    requires InBlock(b, em)
    ensures 0 <= FastCode(b, BlockK8(em)) <= 63 && 0 <= ToE4m3Scaled(b, em - 127) <= 63
  {
    U11Fields(b);
  }

  // ---- values ------------------------------------------------------------------------------------

  /** The magnitude of a finite bf16 in units of 2^-137. */
  function Value(b: bf16): nat
    requires Exponent(b) < 0xFF
  {
    if Exponent(b) == 0 then Mantissa(b) * 16 else (128 + Mantissa(b)) * Pow2(Exponent(b) + 3)
  }

  /** An e4m3 code below 128 under an E8M0 scale, in the same units. */
  function Dequantized(code: nat, scale: nat): nat {
    if code / 8 == 0 then code % 8 * Pow2(scale + 1) else (8 + code % 8) * Pow2(code / 8 + scale)
  }

  /** What every kept code stands for: the value with its mantissa cut to three bits. */
  function Truncated(b: bf16): nat
  {
    (8 + Mantissa(b) / 16) * Pow2(Exponent(b) + 7)
  }

  /** Kept values: in the normal range of e4m3 under the scale. */
  predicate Kept(b: bf16, scale: nat) {
    Exponent(b) > 0 && Exponent(b) + 6 >= scale
  }

  lemma FastValue(b: bf16, em: nat)
    requires InBlock(b, em)
    ensures FastCode(b, BlockK8(em)) >= 0 && FastScale(em) == if em < 7 then 7 else em
    ensures Dequantized(FastCode(b, BlockK8(em)), FastScale(em)) == if Kept(b, FastScale(em)) then Truncated(b) else 0
  {
    FastFields(b, em);
    var scale := FastScale(em);
    if Kept(b, scale) { CodeValue(Exponent(b) + 7 - scale, Mantissa(b) / 16, scale); }
  }

  lemma FastFields(b: bf16, em: nat)
    requires InBlock(b, em)
    ensures FastScale(em) == if em < 7 then 7 else em
    ensures FastCode(b, BlockK8(em)) == if Kept(b, FastScale(em))
            then 8 * (Exponent(b) + 7 - FastScale(em)) + Mantissa(b) / 16 else 0
  {
    U11Fields(b);
  }

  /** A normal code: exponent x above zero, mantissa y. */
  lemma CodeValue(x: nat, y: nat, scale: nat)
    requires x > 0 && y < 8
    ensures Dequantized(8 * x + y, scale) == (8 + y) * Pow2(x + scale)
  {
    assert (8 * x + y) / 8 == x && (8 * x + y) % 8 == y;
  }

  lemma LegacyValue(b: bf16, em: nat)
    requires InBlock(b, em)
    ensures ToE4m3Scaled(b, em - 127) >= 0 && LegacyScale(em) == em
    ensures Dequantized(ToE4m3Scaled(b, em - 127), LegacyScale(em)) == if Kept(b, em) then Truncated(b) else 0
  {
    if Kept(b, em) { CodeValue(Exponent(b) + 7 - em, Mantissa(b) / 16, em); }
  }

  /** MAIN RESULT 3.  Below a block exponent of 7 codes and scales may differ, but never the values. */
  lemma SameValues(b: bf16, em: nat)
    requires InBlock(b, em)
    ensures FastCode(b, BlockK8(em)) >= 0 && FastScale(em) >= 0 && ToE4m3Scaled(b, em - 127) >= 0
            && LegacyScale(em) >= 0
    ensures Dequantized(FastCode(b, BlockK8(em)), FastScale(em))
            == Dequantized(ToE4m3Scaled(b, em - 127), LegacyScale(em))
  {
    FastValue(b, em);
    LegacyValue(b, em);
  }

  /** MAIN RESULT 4.  A kept value loses less than an eighth of itself; a flushed one was below 2^-6 of the
      block scale. */
  lemma QuantizationError(b: bf16, em: nat)
    requires InBlock(b, em)
    ensures FastCode(b, BlockK8(em)) >= 0 && FastScale(em) >= 0
    ensures var v, q := Value(b), Dequantized(FastCode(b, BlockK8(em)), FastScale(em));
            if Kept(b, FastScale(em)) then q <= v && 8 * (v - q) < v else q == 0 && v < Pow2(FastScale(em) + 4)
  {
    FastValue(b, em);
    LossOf(b, FastScale(em), Dequantized(FastCode(b, BlockK8(em)), FastScale(em)));
  }

  lemma LossOf(b: bf16, scale: nat, q: nat)
    requires Exponent(b) < 0xFF && scale >= 7 && q == if Kept(b, scale) then Truncated(b) else 0
    ensures if Kept(b, scale) then q <= Value(b) && 8 * (Value(b) - q) < Value(b)
            else q == 0 && Value(b) < Pow2(scale + 4)
  {
    if Kept(b, scale) { KeptLoss(Exponent(b), Mantissa(b)); } else { FlushedSize(Exponent(b), Mantissa(b), scale); }
  }

  lemma KeptLoss(e: nat, m: nat)
    requires m < 128
    ensures var v, q := (128 + m) * Pow2(e + 3), (8 + m / 16) * Pow2(e + 7); q <= v && 8 * (v - q) < v
  {
    var p := Pow2(e + 3);
    assert Pow2(e + 7) == 16 * p by { assert Pow2(e + 5) == 4 * p; }
    assert (8 + m / 16) * (16 * p) == (128 + m / 16 * 16) * p;
    assert (128 + m) * p - (128 + m / 16 * 16) * p == (m % 16) * p;
    assert (128 + m) * p == 8 * (16 * p) + m * p;
    MulMono(16, m % 16, p);
  }

  lemma FlushedSize(e: nat, m: nat, scale: nat)
    requires m < 128 && scale >= 7 && (e == 0 || e + 6 < scale)
    ensures (if e == 0 then m * 16 else (128 + m) * Pow2(e + 3)) < Pow2(scale + 4)
  {
    if e == 0 {
      Pow2Grows(11, scale + 4);
      assert Pow2(11) == 2048 by { assert Pow2(6) == 64; }
    } else {
      var p := Pow2(e + 3);
      assert Pow2(e + 11) == 256 * p by {
        assert Pow2(e + 7) == 16 * p by { assert Pow2(e + 5) == 4 * p; }
        assert Pow2(e + 9) == 64 * p;
      }
      Pow2Grows(e + 11, scale + 4);
      MulMono(256, 128 + m, p);
    }
  }

  // ---- the rounding encoder -----------------------------------------------------------------------------

  /** The code's exponent and mantissa, and the significand they stand for when the value's exponent is e, in units
      of the value's last bit. */
  predicate Stands(code: nat, e: int, exponent: int, mantissa: nat, significand: nat) {
    && code % 0x80 == (exponent + 7) * 8 + mantissa && mantissa < 8 && e <= exponent <= e + 1
    && significand == if exponent == e then (8 + mantissa) * 16 else (8 + mantissa) * 32
  }

  lemma MantissaBits(man: nat, high: nat, low: nat)
    requires man < 0x80 && high == man / 16 && low == man % 16
    ensures man == 16 * high + low && high < 8 && man / 8 % 2 == low / 8 && man % 8 == low % 8
  {
    Remainder(man, 8, 2 * high + low / 8, low % 8);
    Remainder(man / 8, 2, high, low / 8);
  }

  lemma CodeFields(sign: nat, upper: nat, mantissa: nat)
    requires sign < 2 && upper < 16 && mantissa < 8
    ensures (sign * 0x80 + upper * 8 + mantissa) / 0x80 == sign
    ensures (sign * 0x80 + upper * 8 + mantissa) % 0x80 == upper * 8 + mantissa
  {
  }

  /** The encoder's code of a value in range, when it does not saturate, by the two halves of the mantissa. */
  lemma RoundedCode(b: bf16, high: nat, low: nat, m: nat)
    requires 121 <= Exponent(b) < 135 || (Exponent(b) == 135 && Mantissa(b) <= 104)
    requires high == Mantissa(b) / 16 && low == Mantissa(b) % 16
    requires m == if low > 8 || (low == 8 && high % 2 == 1) then high + 1 else high
    ensures ToE4m3(true, b)
            == Sign(b) * 0x80 + (if m == 8 then (Exponent(b) - 119) * 8 else (Exponent(b) - 120) * 8 + m)
  {
    FieldBounds(b);
    MantissaBits(Mantissa(b), high, low);
  }

  lemma Nearest(code: nat, sign: nat, exp: nat, high: nat, low: nat, m: nat)
    returns (exponent: int, mantissa: nat, significand: nat)
    requires sign < 2 && 121 <= exp <= 135 && high < 8 && low < 16 && (exp == 135 ==> m < 8)
    requires m == if low > 8 || (low == 8 && high % 2 == 1) then high + 1 else high
    requires code == sign * 0x80 + (if m == 8 then (exp - 119) * 8 else (exp - 120) * 8 + m)
    ensures code / 0x80 == sign && Stands(code, exp - 127, exponent, mantissa, significand)
    ensures var off := significand - (128 + 16 * high + low);
            -8 <= off <= 8 && (off == 8 || off == -8 ==> mantissa % 2 == 0)
  {
    if m == 8 {
      CodeFields(sign, exp - 119, 0);
      return exp - 126, 0, 256;
    }
    CodeFields(sign, exp - 120, m);
    return exp - 127, m, (8 + m) * 16;
  }

  /** MAIN RESULT 5.  The rounding form of the encoder gives a value in range the nearest code, of two as near the
      even one ... */
  lemma RoundsToNearest(b: bf16) returns (exponent: int, mantissa: nat, significand: nat)
    requires 121 <= Exponent(b) < 135 || (Exponent(b) == 135 && Mantissa(b) <= 104)
    ensures ToE4m3(true, b) / 0x80 == Sign(b)
    ensures Stands(ToE4m3(true, b), Exponent(b) - 127, exponent, mantissa, significand)
    ensures var off := significand - (128 + Mantissa(b));
            -8 <= off <= 8 && (off == 8 || off == -8 ==> mantissa % 2 == 0)
  {
    FieldBounds(b);
    var high, low := Mantissa(b) / 16, Mantissa(b) % 16;
    var m := if low > 8 || (low == 8 && high % 2 == 1) then high + 1 else high;
    MantissaBits(Mantissa(b), high, low);
    RoundedCode(b, high, low, m);
    exponent, mantissa, significand := Nearest(ToE4m3(true, b), Sign(b), Exponent(b), high, low, m);
  }

  /** ... flushes what is below the smallest normal code, and saturates what is above the largest. */
  lemma OutOfRange(b: bf16)
    ensures Exponent(b) < 121 ==> ToE4m3(true, b) == 0
    ensures Exponent(b) > 135 || (Exponent(b) == 135 && Mantissa(b) > 104) ==>
              ToE4m3(true, b) == Sign(b) * 0x80 + 0x7E
  {
    FieldBounds(b);
    MantissaBits(Mantissa(b), Mantissa(b) / 16, Mantissa(b) % 16);
  }
}
