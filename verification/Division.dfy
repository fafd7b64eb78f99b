/** What the proofs need to know about quotients and remainders. */
module Division {

  lemma DivStep(n: nat, d: nat)
    requires d > 0 && n >= d
    ensures n / d == (n - d) / d + 1 && n % d == (n - d) % d
  {
    var q, r := (n - d) / d, (n - d) % d;
    assert n == (q + 1) * d + r;
    DivUnique(n, d, q + 1, r);
  }

  lemma DivUnique(n: nat, d: nat, q: nat, r: nat)
    requires d > 0 && r < d && n == q * d + r
    ensures n / d == q && n % d == r
  {
    var q', r' := n / d, n % d;
    assert q' * d + r' == q * d + r;
    if q' > q {
      GrowsBy(q, q', d);
    } else if q' < q {
      GrowsBy(q', q, d);
    }
  }

  lemma GrowsBy(x: nat, y: nat, d: nat)
    requires x < y
    ensures x * d + d <= y * d
  {
    assert (y - x - 1) * d >= 0;
    assert y * d == x * d + d + (y - x - 1) * d;
  }

  lemma DivTwice(v: nat, a: nat, b: nat)
    requires a > 0 && b > 0
    ensures v / a / b == v / (a * b)
  {
    Regroup(v, v / a, v / a / b, v / a % b, v % a, a, b);
  }

  lemma Regroup(v: nat, x: nat, q: nat, r: nat, s: nat, a: nat, b: nat)
    requires s < a && r < b && v == x * a + s && x == q * b + r
    ensures v / (a * b) == q
  {
    GrowsBy(r, b, a);
    Products(q, r, a, b);
    DivUnique(v, a * b, q, r * a + s);
  }

  lemma Products(q: nat, r: nat, a: nat, b: nat)
    ensures (q * b + r) * a == q * (a * b) + r * a
  {
    assert q * b * a == q * (a * b);
  }

  /** A quotient rounded up is above q exactly when the number is above q times the divisor. */
  lemma RoundedUp(n: nat, d: nat, q: nat)
    requires d > 0
    ensures n / d + (if n % d != 0 then 1 else 0) > q <==> n > q * d
  {
    if n / d > q {
      GrowsBy(q, n / d, d);
    } else if n / d < q {
      GrowsBy(n / d, q, d);
    }
  }

  lemma QuotientBound(n: nat, d: nat, q: nat)
    requires d > 0 && n <= q * d
    ensures n / d <= q
  {
    if n / d > q {
      GrowsBy(q, n / d, d);
    }
  }
}
