/** The few facts about products, quotients and remainders that the solver needs spelled out. */
module Arithmetic {
  lemma MulGrows(p: int, d: int)
    requires p > 0
    ensures d >= 1 ==> p * d >= p
    ensures d <= -1 ==> p * d <= -p
  {
    assert p * d == p + p * (d - 1);
    assert p * d == p * (d + 1) - p;
  }

  lemma SmallMultiple(p: int, d: int)
    requires -p < p * d < p
    ensures d == 0
  {
    MulGrows(p, d);
  }

  /** Quotient and remainder are unique. */
  lemma Divides(x: nat, p: nat, q: nat, m: nat)
    requires m < p && x == p * q + m
    ensures x / p == q && x % p == m
  {
    var d := q - x / p;
    assert x == p * (x / p) + x % p;
    assert p * d == p * q - p * (x / p);
    SmallMultiple(p, d);
  }

  lemma DivideShift(k: nat, n: nat, p: nat)
    requires p > 0
    ensures (k * p + n) / p == k + n / p
    ensures (k * p + n) % p == n % p
  {
    var q, m := n / p, n % p;
    assert n == p * q + m;
    assert p * (k + q) == k * p + p * q;
    Divides(k * p + n, p, k + q, m);
  }

  lemma Distribute(p: nat, q: nat, m: nat, b: nat)
    ensures (p * q + m) * b == (q * b) * p + m * b
  {
  }

  /** A factor may be reduced before the product is. */
  lemma ModMul(a: nat, b: nat, p: nat)
    requires p > 0
    ensures (a % p) * b % p == a * b % p
  {
    var q, m := a / p, a % p;
    Distribute(p, q, m, b);
    assert a == p * q + m;
    DivideShift(q * b, m * b, p);
  }
}
