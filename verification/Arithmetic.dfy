/** Small arithmetic facts the solver is handed one at a time. */
module Arithmetic {

  function Min(a: nat, b: nat): nat {
    if a < b then a else b
  }

  function Max(a: nat, b: nat): nat {
    if a < b then b else a
  }

  function Abs(x: int): nat {
    if x < 0 then -x else x
  }

  lemma AbsOfSum(a: int, b: int)
    ensures Abs(a + b) <= Abs(a) + Abs(b)
  {
  }

  // --- Products ----------------------------------------------------------------------------------

  lemma Times(a: nat, b: nat, d: nat)
    requires a <= b
    ensures a * d <= b * d
  {
  }

  lemma NextProduct(a: nat, d: nat)
    ensures (a + 1) * d == a * d + d
  {
  }

  lemma Distribute(a: nat, b: nat, d: nat)
    ensures (a + b) * d == a * d + b * d
  {
  }

  lemma DistributeLeft(a: nat, b: nat, c: nat)
    ensures a * (b + c) == a * b + a * c
  {
  }

  // --- Integer division --------------------------------------------------------------------------

  function Quotient(a: nat, d: nat): (q: nat)
    requires d > 0
    ensures q * d <= a < q * d + d
  {
    a / d
  }

  lemma QuotientAtMost(a: nat, d: nat, q: nat)
    requires d > 0 && a < q * d + d
    ensures Quotient(a, d) <= q
  {
    NextProduct(q, d);
    if q + 1 <= Quotient(a, d) {
      Times(q + 1, Quotient(a, d), d);
    }
  }

  lemma QuotientAtLeast(a: nat, d: nat, q: nat)
    requires d > 0 && q * d <= a
    ensures Quotient(a, d) >= q
  {
    NextProduct(Quotient(a, d), d);
    if Quotient(a, d) + 1 <= q {
      Times(Quotient(a, d) + 1, q, d);
    }
  }

  lemma QuotientIs(a: nat, d: nat, q: nat)
    requires d > 0 && q * d <= a < q * d + d
    ensures Quotient(a, d) == q
  {
    QuotientAtMost(a, d, q);
    QuotientAtLeast(a, d, q);
  }

  lemma QuotientMonotone(a: nat, b: nat, d: nat)
    requires a <= b && d > 0
    ensures Quotient(a, d) <= Quotient(b, d)
  {
    QuotientAtLeast(b, d, Quotient(a, d));
  }

  // --- Reals -------------------------------------------------------------------------------------

  lemma Product(a: real, b: real, w: real)
    requires a <= b && w >= 0.0
    ensures a * w <= b * w
  {
  }

  lemma StrictProduct(a: real, b: real, w: real)
    requires a < b && w > 0.0
    ensures a * w < b * w
  {
  }

  lemma DistributeReal(a: real, b: real, w: real)
    ensures (a + b) * w == a * w + b * w
  {
  }

  lemma RealProduct(a: nat, b: nat)
    ensures a as real * b as real == (a * b) as real
  {
  }

  lemma Share(t: real, d: real)
    requires 0.0 <= t <= 1.0 && d >= 0.0
    ensures 0.0 <= t * d <= d
  {
    Product(t, 1.0, d);
  }

  lemma ProperShare(t: real, d: real)
    requires 0.0 < t < 1.0 && d > 0.0
    ensures 0.0 < t * d < d
  {
    StrictProduct(t, 1.0, d);
    StrictProduct(0.0, t, d);
  }

  lemma Fraction(n: real, d: real)
    requires 0.0 <= n <= d && d > 0.0
    ensures 0.0 <= n / d <= 1.0
    ensures n < d ==> n / d < 1.0
  {
  }

  lemma FractionGrows(n: real, m: real, d: real)
    requires n <= m && d > 0.0
    ensures n / d <= m / d
  {
  }
}
