/** Quotients and remainders by a variable divisor. */
module Arith {

  function Div(x: nat, d: nat): nat
    requires d > 0
  {
    x / d
  }

  function Mod(x: nat, d: nat): nat
    requires d > 0
  {
    x % d
  }

  lemma {:induction false} MulMono(a: int, b: int, p: int)
    requires p > 0 && a > b
    ensures a * p >= b * p + p
    decreases a - b
  {
    Distribute(a - 1, 1, p);
    if a > b + 1 { MulMono(a - 1, b, p); }
  }

  lemma DivMod(x: nat, p: nat)
    requires p > 0
    ensures x == (x / p) * p + x % p && 0 <= x % p < p
  {
  }

  lemma Unique(x: nat, p: nat, q: nat, r: nat, q': nat, r': nat)
    requires p > 0 && r < p && r' < p && x == q * p + r == q' * p + r'
    ensures q == q' && r == r'
  {
    if q > q' { MulMono(q, q', p); }
    if q' > q { MulMono(q', q, p); }
  }

  /** A quotient and a remainder below the divisor are the quotient and the remainder. */
  lemma Remainder(x: nat, p: nat, q: nat, r: nat)
    requires p > 0 && r < p && x == q * p + r
    ensures x % p == r && x / p == q
  {
    DivMod(x, p);
    Unique(x, p, q, r, x / p, x % p);
  }

  lemma Distribute(a: int, b: int, p: int)
    ensures (a + b) * p == a * p + b * p
  {
  }

  lemma Bracket(x: nat, p: nat, q: int)
    requires p > 0 && q == x / p
    ensures 0 <= q && q * p <= x < (q + 1) * p
  {
    DivMod(x, p);
    Distribute(q, 1, p);
  }

  /** Two-digit numbers in a mixed radix. */
  lemma PairBelow(a: nat, m: nat, b: nat, n: nat)
    requires a < m && b < n
    ensures a * n + b < m * n
  {
    MulMono(m, a, n);
  }

  lemma {:induction false} MulGe(a: int, b: int, p: int)
    requires a >= b && p >= 0
    ensures a * p >= b * p
    decreases a - b
  {
    if a > b {
      Distribute(a - 1, 1, p);
      MulGe(a - 1, b, p);
    }
  }

  lemma QuotientBelow(x: nat, m: nat, n: nat)
    requires x < m * n
    ensures n > 0 && Div(x, n) < m && Mod(x, n) < n && x == Div(x, n) * n + Mod(x, n)
  {
    DivMod(x, n);
    if x / n >= m { MulGe(x / n, m, n); }
  }
}
