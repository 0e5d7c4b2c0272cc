/** Division of naturals by a divisor the verifier does not know. */
module Arithmetic {

  lemma Times(k: nat, d: int)
    ensures d >= 1 ==> d * k >= k
  {
  }

  /** The quotient and remainder of a number written as a multiple and a rest. */
  lemma Quotient(n: nat, k: nat, q: int, r: nat)
    requires n == k * q + r && r < k
    ensures n / k == q && n % k == r
  {
    var d: int := n / k - q;
    assert d * k == r - n % k;
    assert d < 1 by { Times(k, d); }
    assert d > -1 by { Times(k, -d); }
  }

  /** Dividing twice is dividing by the product. */
  lemma Nested(n: nat, a: nat, b: nat)
    requires a > 0 && b > 0
    ensures a * b > 0 && n / (a * b) == n / a / b
  {
    var q, r, m := n / a / b, n % a, n / a % b;
    Times(a, b);
    assert n == a * (b * q + m) + r;
    assert n == (a * b) * q + (a * m + r);
    assert a * m + r < a * b by { Times(a, b - m); }
    Quotient(n, a * b, q, a * m + r);
  }

  /** Which numbers have a given quotient. */
  lemma QuotientIff(n: nat, k: nat, q: nat)
    requires k > 0
    ensures n / k == q <==> q * k <= n < (q + 1) * k
  {
    assert n == (n / k) * k + n % k;
    assert (q + 1) * k == q * k + k;
    if q * k <= n < (q + 1) * k { Quotient(n, k, q, n - q * k); }
  }
}
