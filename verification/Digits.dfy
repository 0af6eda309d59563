/**
 Mixed-radix digits: what a shift and a mask read out of a sum of disjoint
 fields. Every fact is stated over plain variables, so that a proof about one
 instruction format is linear.
 */
module Digits {

  lemma ProductNonNegative(a: int, b: int)
    requires a >= 0 && b >= 0
    ensures a * b >= 0
  {
  }

  /** The quotient is the only q with 0 <= u - q * m < m. */
  lemma QuotientIs(u: int, m: int, q: int, r: int)
    requires u == q * m + r && 0 <= r < m
    ensures u / m == q && u % m == r
  {
    var d := u / m - q;
    assert d * m == r - u % m;
    if d > 0 {
      ProductNonNegative(d - 1, m);
      assert false;
    } else if d < 0 {
      ProductNonNegative(-d - 1, m);
      assert false;
    }
  }

  /** The digit of weight a and base b. */
  lemma DigitIs(w: int, a: int, b: int, high: int, digit: int, low: int)
    requires a > 0 && b > 0 && 0 <= low < a && 0 <= digit < b
    requires w == (high * b + digit) * a + low
    ensures w / a == high * b + digit && w / a % b == digit
  {
    QuotientIs(w, a, high * b + digit, low);
    QuotientIs(high * b + digit, b, high, digit);
  }

  lemma TwoDigits(r: int, s: int, a: int, b: int)
    requires 0 <= s < a && 0 <= r < b
    ensures 0 <= r * a + s < b * a
  {
    ProductNonNegative(r, a);
    ProductNonNegative(b - 1 - r, a);
  }

  lemma Regroup(h: int, r: int, s: int, a: int, b: int)
    ensures (h * b + r) * a + s == h * (b * a) + (r * a + s)
  {
  }

  lemma NestedDigits(u: int, q: int, s: int, h: int, r: int, a: int, b: int)
    requires u == q * a + s && 0 <= s < a
    requires q == h * b + r && 0 <= r < b
    ensures b * a > 0 && u / (b * a) == h
  {
    TwoDigits(r, s, a, b);
    Regroup(h, r, s, a, b);
    QuotientIs(u, b * a, h, r * a + s);
  }

  /** Shifting twice is shifting once. */
  lemma QuotientOfQuotient(u: int, a: int, b: int)
    requires a > 0 && b > 0
    ensures b * a > 0 && u / a / b == u / (b * a)
  {
    var q := u / a;
    NestedDigits(u, q, u % a, q / b, q % b, a, b);
  }
}
