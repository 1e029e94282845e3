/** Facts about products, quotients and powers of two that the solver needs spelled out. */
module Arithmetic {
  function Pow2(n: nat): (p: nat)
    ensures p >= 1
  {
    if n == 0 then 1 else 2 * Pow2(n - 1)
  }

  lemma {:induction false} Pow2Add(m: nat, n: nat)
    ensures Pow2(m + n) == Pow2(m) * Pow2(n)
  {
    if m > 0 { Pow2Add(m - 1, n); }
  }

  lemma {:induction false} Pow2Le(m: nat, n: nat)
    ensures m <= n ==> Pow2(m) <= Pow2(n)
  {
    if m < n { Pow2Le(m, n - 1); }
  }

  lemma {:induction false} Square(n: nat, p: nat)
    requires Pow2(n) == p
    ensures Pow2(n + n) == p * p
  {
    Pow2Add(n, n);
  }

  lemma Pow2Zero()
    ensures Pow2(0) == 1
  {}

  lemma Pow2One()
    ensures Pow2(1) == 2
  {}

  lemma {:induction false} Quotient(a: nat, p: nat)
    requires p > 0
    ensures 0 <= a / p <= a && a == a / p * p + a % p
  {
    MulLe(1, p, a / p);
  }

  lemma MulLe(a: int, b: int, m: nat)
    ensures a <= b ==> a * m <= b * m
  {}

  /** The one number below `m` that `x` is congruent to. */
  lemma {:induction false} ModIs(x: int, m: nat, k: int, r: nat)
    requires r < m && x == k * m + r
    ensures x % m == r
  {
    MulLe(x / m + 1, k, m);
    MulLe(k + 1, x / m, m);
  }

  lemma {:induction false} QuotientIs(x: nat, p: nat, k: nat, r: nat)
    requires r < p && x == k * p + r
    ensures x / p == k
  {
    Quotient(x, p);
    ModIs(x, p, k, r);
    MulLe(x / p + 1, k, p);
    MulLe(k + 1, x / p, p);
  }

  lemma Factor(x: nat, y: nat, e: nat, b: nat)
    ensures (x * e + y) * b == (x * b) * e + y * b
  {}
}
