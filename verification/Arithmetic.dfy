/** The few facts about division that the models need. */
module Arithmetic {

  lemma MulAssoc(a: nat, b: nat, c: nat)
    ensures a * (b * c) == (a * b) * c
  {
  }

  lemma MulDistrib(a: nat, b: nat, c: nat)
    ensures a * (b + c) == a * b + a * c
  {
  }

  lemma DivDiv(n: nat, d: nat, p: nat)
    requires d > 0 && p > 0
    ensures d * p > 0 && n / d / p == n / (d * p)
  {
    var a, m := n / d, n % d;
    var q, r := a / p, a % p;
    DivModOf(n, d);
    DivModOf(a, p);
    MulDistrib(d, p * q, r);
    MulAssoc(d, p, q);
    MulMonotone(d, r + 1, p);
    MulDistrib(d, r, 1);
    QuotientUnique(n, d * p, q, d * r + m);
  }

  lemma DivModOf(n: nat, d: nat)
    requires d > 0
    ensures n == d * (n / d) + n % d && n % d < d
  {
  }

  lemma QuotientUnique(n: nat, d: nat, q: nat, r: nat)
    requires n == d * q + r && r < d
    ensures n / d == q
  {
    var q', r' := n / d, n % d;
    assert n == d * q' + r' && r' < d;
    if q' < q {
      MulMonotone(d, q' + 1, q);
      assert false;
    } else if q < q' {
      MulMonotone(d, q + 1, q');
      assert false;
    }
  }

  lemma MulMonotone(d: nat, a: nat, b: nat)
    requires a <= b
    ensures d * a <= d * b
  {
    assert d * b - d * a == d * (b - a);
  }

  function Min(a: nat, b: nat): nat { if a <= b then a else b }

  /** Quotient rounded up. */
  function CeilDiv(a: nat, d: nat): nat
    requires d > 0
  {
    (a + d - 1) / d
  }

  lemma CeilDivUnique(a: nat, d: nat, q: nat)
    requires d > 0 && q > 0
    requires (q - 1) * d < a <= q * d
    ensures CeilDiv(a, d) == q
  {
    assert (q - 1) * d == q * d - d;
    assert a + d - 1 == d * q + (a + d - 1 - q * d);
    QuotientUnique(a + d - 1, d, q, a + d - 1 - q * d);
  }

  function Pow2(n: nat): (p: nat)
    ensures p > 0
  {
    if n == 0 then 1 else 2 * Pow2(n - 1)
  }
}
