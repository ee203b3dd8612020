/** Powers of two and exclusive or of words, from the top bit down. */
module Bits {
  import opened Arith

  function Pow2(k: nat): (r: nat)
    ensures r > 0
  {
    if k == 0 then 1 else 2 * Pow2(k - 1)
  }

  /** a without its bit k - 1. */
  function Low(k: nat, a: nat): (r: nat)
    requires k > 0 && a < Pow2(k)
    ensures r < Pow2(k - 1)
  {
    if a < Pow2(k - 1) then a else a - Pow2(k - 1)
  }

  predicate Top(k: nat, a: nat)
    requires k > 0
  {
    a >= Pow2(k - 1)
  }

  /** Exclusive or of two k-bit words. */
  function Xor(k: nat, a: nat, b: nat): (r: nat)
    requires a < Pow2(k) && b < Pow2(k)
    ensures r < Pow2(k)
  {
    if k == 0 then 0
    else Xor(k - 1, Low(k, a), Low(k, b)) + if Top(k, a) != Top(k, b) then Pow2(k - 1) else 0
  }

  lemma {:induction false} XorZero(k: nat, a: nat)
    requires a < Pow2(k)
    ensures Xor(k, a, 0) == a && Xor(k, 0, a) == a && Xor(k, a, a) == 0
  {
    if k > 0 { XorZero(k - 1, Low(k, a)); }
  }

  lemma {:induction false} XorUndoes(k: nat, a: nat, b: nat)
    requires a < Pow2(k) && b < Pow2(k)
    ensures Xor(k, Xor(k, a, b), b) == a
  {
    if k > 0 {
      XorUndoes(k - 1, Low(k, a), Low(k, b));
    }
  }

  lemma {:induction false} XorAssociates(k: nat, a: nat, b: nat, c: nat)
    requires a < Pow2(k) && b < Pow2(k) && c < Pow2(k)
    ensures Xor(k, Xor(k, a, b), c) == Xor(k, a, Xor(k, b, c))
  {
    if k > 0 {
      XorAssociates(k - 1, Low(k, a), Low(k, b), Low(k, c));
    }
  }

  lemma {:induction false} XorCommutes(k: nat, a: nat, b: nat)
    requires a < Pow2(k) && b < Pow2(k)
    ensures Xor(k, a, b) == Xor(k, b, a)
  {
    if k > 0 { XorCommutes(k - 1, Low(k, a), Low(k, b)); }
  }

  /** The low j bits of the k-bit word a are clear. */
  predicate Clear(k: nat, j: nat, a: nat)
    requires a < Pow2(k)
  {
    if k <= j then a == 0 else Clear(k - 1, j, Low(k, a))
  }

  lemma {:induction false} Pow2Grows(j: nat, k: nat)
    requires j <= k
    ensures Pow2(j) <= Pow2(k)
  {
    if j < k { Pow2Grows(j, k - 1); }
  }

  /** A word whose low j bits are clear takes a j-bit word as a sum. */
  lemma {:induction false} XorIsSum(k: nat, j: nat, a: nat, b: nat)
    requires j <= k && a < Pow2(k) && b < Pow2(j) && Clear(k, j, a)
    ensures b < Pow2(k) && Xor(k, a, b) == a + b
  {
    Pow2Grows(j, k);
    if j < k {
      Pow2Grows(j, k - 1);
      XorIsSum(k - 1, j, Low(k, a), b);
    } else {
      XorZero(k, b);
    }
  }

  /** Some one-bit word below 2^j is not added by exclusive or when those bits are not all clear. */
  lemma {:induction false} XorIsNotSum(k: nat, j: nat, a: nat) returns (i: nat)
    requires j <= k && a < Pow2(k) && !Clear(k, j, a)
    ensures i < j && Pow2(i) < Pow2(k) && Xor(k, a, Pow2(i)) != a + Pow2(i)
  {
    if j < k {
      i := XorIsNotSum(k - 1, j, Low(k, a));
      Pow2Grows(i, k - 1);
    } else if Top(k, a) {
      i := k - 1;
      XorZero(k - 1, Low(k, a));
    } else {
      i := XorIsNotSum(k - 1, k - 1, Low(k, a));
      Pow2Grows(i, k - 1);
    }
  }

  lemma {:induction false} Pow2Sum(j: nat, k: nat)
    ensures Pow2(j + k) == Pow2(j) * Pow2(k)
  {
    if j > 0 { Pow2Sum(j - 1, k); }
  }

  lemma {:induction false} LowBits(k: nat, j: nat, a: nat) returns (q: nat, r: nat)
    requires j <= k && a < Pow2(k)
    ensures a == q * Pow2(j) + r && r < Pow2(j) && (r == 0 <==> Clear(k, j, a))
  {
    if k == j {
      q, r := 0, a;
    } else {
      q, r := LowBits(k - 1, j, Low(k, a));
      if Top(k, a) {
        Pow2Sum(k - 1 - j, j);
        Distribute(q, Pow2(k - 1 - j), Pow2(j));
        q := q + Pow2(k - 1 - j);
      }
    }
  }

  /** Clear low bits are alignment. */
  lemma ClearIsAligned(k: nat, j: nat, a: nat)
    requires j <= k && a < Pow2(k)
    ensures Clear(k, j, a) <==> a % Pow2(j) == 0
  {
    var q, r := LowBits(k, j, a);
    Remainder(a, Pow2(j), q, r);
  }

  /** Shifting both words left shifts the result. */
  lemma {:induction false} XorShift(k: nat, a: nat, b: nat)
    requires a < Pow2(k) && b < Pow2(k)
    ensures Xor(k + 1, 2 * a, 2 * b) == 2 * Xor(k, a, b)
  {
    if k > 0 { XorShift(k - 1, Low(k, a), Low(k, b)); }
  }

  /** A wider word has zeros on top. */
  lemma {:induction false} XorWiden(k: nat, j: nat, a: nat, b: nat)
    requires k <= j && a < Pow2(k) && b < Pow2(k)
    ensures a < Pow2(j) && b < Pow2(j) && Xor(j, a, b) == Xor(k, a, b)
  {
    if k < j {
      Pow2Grows(k, j - 1);
      XorWiden(k, j - 1, a, b);
    }
  }

  // ---- and, or, and words in two parts ------------------------------------------------------------

  function And(k: nat, a: nat, b: nat): (r: nat)
    requires a < Pow2(k) && b < Pow2(k)
    ensures r < Pow2(k)
  {
    if k == 0 then 0
    else And(k - 1, Low(k, a), Low(k, b)) + if Top(k, a) && Top(k, b) then Pow2(k - 1) else 0
  }

  function Or(k: nat, a: nat, b: nat): (r: nat)
    requires a < Pow2(k) && b < Pow2(k)
    ensures r < Pow2(k)
  {
    if k == 0 then 0
    else Or(k - 1, Low(k, a), Low(k, b)) + if Top(k, a) || Top(k, b) then Pow2(k - 1) else 0
  }

  lemma {:induction false} AndOnes(k: nat, a: nat)
    requires a < Pow2(k)
    ensures And(k, a, Pow2(k) - 1) == a && And(k, a, 0) == 0
  {
    if k > 0 { AndOnes(k - 1, Low(k, a)); }
  }

  lemma {:induction false} OrZero(k: nat, a: nat)
    requires a < Pow2(k)
    ensures Or(k, a, 0) == a && Or(k, 0, a) == a
  {
    if k > 0 { OrZero(k - 1, Low(k, a)); }
  }

  /** x shifted left by j. */
  function Shift(j: nat, x: nat): nat {
    if j == 0 then x else 2 * Shift(j - 1, x)
  }

  lemma {:induction false} ShiftIsProduct(j: nat, x: nat)
    ensures Shift(j, x) == x * Pow2(j)
  {
    if j > 0 { ShiftIsProduct(j - 1, x); }
  }

  lemma {:induction false} ShiftSum(j: nat, x: nat, y: nat)
    ensures Shift(j, x + y) == Shift(j, x) + Shift(j, y)
  {
    if j > 0 { ShiftSum(j - 1, x, y); }
  }

  lemma {:induction false} ShiftZero(j: nat)
    ensures Shift(j, 0) == 0
  {
    if j > 0 { ShiftZero(j - 1); }
  }

  lemma {:induction false} ShiftPow2(j: nat, k: nat)
    ensures Shift(j, Pow2(k)) == Pow2(k + j)
  {
    if j > 0 { ShiftPow2(j - 1, k); }
  }

  lemma {:induction false} ShiftBound(j: nat, k: nat, x: nat)
    requires x < Pow2(k)
    ensures Shift(j, x) + Pow2(j) <= Pow2(k + j)
  {
    if j > 0 { ShiftBound(j - 1, k, x); }
  }

  /** A word made of k high bits and j low ones. */
  function Compose(j: nat, high: nat, low: nat): nat {
    Shift(j, high) + low
  }

  lemma ComposeBound(k: nat, j: nat, high: nat, low: nat)
    requires high < Pow2(k) && low < Pow2(j)
    ensures Compose(j, high, low) < Pow2(k + j)
  {
    ShiftBound(j, k, high);
  }

  lemma ComposeRaise(k: nat, j: nat, high: nat, low: nat)
    ensures Compose(j, high + Pow2(k), low) == Compose(j, high, low) + Pow2(k + j)
  {
    ShiftSum(j, high, Pow2(k));
    ShiftPow2(j, k);
  }

  /** The top bit of the word is the top bit of its high part. */
  lemma ComposeTop(k: nat, j: nat, high: nat, low: nat)
    requires k > 0 && high < Pow2(k) && low < Pow2(j)
    ensures Compose(j, high, low) < Pow2(k + j)
    ensures Top(k + j, Compose(j, high, low)) <==> Top(k, high)
    ensures Low(k + j, Compose(j, high, low)) == Compose(j, Low(k, high), low)
  {
    ComposeBound(k, j, high, low);
    ComposeBound(k - 1, j, Low(k, high), low);
    if Top(k, high) { ComposeRaise(k - 1, j, Low(k, high), low); }
  }

  lemma AndSplitStep(k: nat, j: nat, x: nat, a: nat, y: nat, b: nat, low: nat)
    requires k > 0 && x < Pow2(k) && y < Pow2(k) && Compose(j, x, a) < Pow2(k + j) && Compose(j, y, b) < Pow2(k + j)
    requires a < Pow2(j) && b < Pow2(j)
    requires And(k + j - 1, Low(k + j, Compose(j, x, a)), Low(k + j, Compose(j, y, b)))
             == Compose(j, And(k - 1, Low(k, x), Low(k, y)), low)
    ensures And(k + j, Compose(j, x, a), Compose(j, y, b)) == Compose(j, And(k, x, y), low)
  {
    ComposeTop(k, j, x, a);
    ComposeTop(k, j, y, b);
    ComposeRaise(k - 1, j, And(k - 1, Low(k, x), Low(k, y)), low);
  }

  lemma {:induction false} AndSplit(k: nat, j: nat, x: nat, a: nat, y: nat, b: nat)
    requires x < Pow2(k) && y < Pow2(k) && a < Pow2(j) && b < Pow2(j)
    ensures Compose(j, x, a) < Pow2(k + j) && Compose(j, y, b) < Pow2(k + j)
    ensures And(k + j, Compose(j, x, a), Compose(j, y, b)) == Compose(j, And(k, x, y), And(j, a, b))
  {
    ComposeBound(k, j, x, a);
    ComposeBound(k, j, y, b);
    if k == 0 {
      ShiftZero(j);
    } else {
      ComposeTop(k, j, x, a);
      ComposeTop(k, j, y, b);
      AndSplit(k - 1, j, Low(k, x), a, Low(k, y), b);
      AndSplitStep(k, j, x, a, y, b, And(j, a, b));
    }
  }

  lemma OrSplitStep(k: nat, j: nat, x: nat, a: nat, y: nat, b: nat, low: nat)
    requires k > 0 && x < Pow2(k) && y < Pow2(k) && Compose(j, x, a) < Pow2(k + j) && Compose(j, y, b) < Pow2(k + j)
    requires a < Pow2(j) && b < Pow2(j)
    requires Or(k + j - 1, Low(k + j, Compose(j, x, a)), Low(k + j, Compose(j, y, b)))
             == Compose(j, Or(k - 1, Low(k, x), Low(k, y)), low)
    ensures Or(k + j, Compose(j, x, a), Compose(j, y, b)) == Compose(j, Or(k, x, y), low)
  {
    ComposeTop(k, j, x, a);
    ComposeTop(k, j, y, b);
    ComposeRaise(k - 1, j, Or(k - 1, Low(k, x), Low(k, y)), low);
  }

  lemma {:induction false} OrSplit(k: nat, j: nat, x: nat, a: nat, y: nat, b: nat)
    requires x < Pow2(k) && y < Pow2(k) && a < Pow2(j) && b < Pow2(j)
    ensures Compose(j, x, a) < Pow2(k + j) && Compose(j, y, b) < Pow2(k + j)
    ensures Or(k + j, Compose(j, x, a), Compose(j, y, b)) == Compose(j, Or(k, x, y), Or(j, a, b))
  {
    ComposeBound(k, j, x, a);
    ComposeBound(k, j, y, b);
    if k == 0 {
      ShiftZero(j);
    } else {
      ComposeTop(k, j, x, a);
      ComposeTop(k, j, y, b);
      OrSplit(k - 1, j, Low(k, x), a, Low(k, y), b);
      OrSplitStep(k, j, x, a, y, b, Or(j, a, b));
    }
  }

  lemma XorSplitStep(k: nat, j: nat, x: nat, a: nat, y: nat, b: nat, low: nat)
    requires k > 0 && x < Pow2(k) && y < Pow2(k) && Compose(j, x, a) < Pow2(k + j) && Compose(j, y, b) < Pow2(k + j)
    requires a < Pow2(j) && b < Pow2(j)
    requires Xor(k + j - 1, Low(k + j, Compose(j, x, a)), Low(k + j, Compose(j, y, b)))
             == Compose(j, Xor(k - 1, Low(k, x), Low(k, y)), low)
    ensures Xor(k + j, Compose(j, x, a), Compose(j, y, b)) == Compose(j, Xor(k, x, y), low)
  {
    ComposeTop(k, j, x, a);
    ComposeTop(k, j, y, b);
    ComposeRaise(k - 1, j, Xor(k - 1, Low(k, x), Low(k, y)), low);
  }

  lemma {:induction false} XorSplit(k: nat, j: nat, x: nat, a: nat, y: nat, b: nat)
    requires x < Pow2(k) && y < Pow2(k) && a < Pow2(j) && b < Pow2(j)
    ensures Compose(j, x, a) < Pow2(k + j) && Compose(j, y, b) < Pow2(k + j)
    ensures Xor(k + j, Compose(j, x, a), Compose(j, y, b)) == Compose(j, Xor(k, x, y), Xor(j, a, b))
  {
    ComposeBound(k, j, x, a);
    ComposeBound(k, j, y, b);
    if k == 0 {
      ShiftZero(j);
    } else {
      ComposeTop(k, j, x, a);
      ComposeTop(k, j, y, b);
      XorSplit(k - 1, j, Low(k, x), a, Low(k, y), b);
      XorSplitStep(k, j, x, a, y, b, Xor(j, a, b));
    }
  }
}
