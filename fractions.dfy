/**
 * Facts about real products and about `Ratio`, the unguarded division every score is
 * made of. Each is stated over plain reals and kept small, so that the score lemmas only
 * instantiate them.
 */
module Fractions {
  import opened Scores

  /** A product vanishes only when a factor does. */
  lemma ProductNonZero(p: real, q: real)
    requires p != 0.0 && q != 0.0
    ensures p * q != 0.0
  {
  }

  /** A non-zero product has non-zero factors. */
  lemma FactorsNonZero(p: real, q: real)
    requires p * q != 0.0
    ensures p != 0.0 && q != 0.0
  {
  }

  /** Multiplying by a non-zero factor is injective. */
  lemma CancelFactor(v: real, w: real, q: real)
    requires q != 0.0 && v * q == w * q
    ensures v == w
  {
    assert (v - w) * q == 0.0;
  }

  /** A product of non-negative factors is non-negative. */
  lemma ProductNonNegative(x: real, y: real)
    requires 0.0 <= x && 0.0 <= y
    ensures 0.0 <= x * y
  {
  }

  /** A product of positive factors is positive. */
  lemma ProductPositive(x: real, y: real)
    requires 0.0 < x && 0.0 < y
    ensures 0.0 < x * y
  {
  }

  /** A square is non-negative. */
  lemma SquareNonNegative(x: real)
    ensures 0.0 <= x * x
  {
    if x < 0.0 {
      assert x * x == (-x) * (-x);
      ProductNonNegative(-x, -x);
    }
  }

  /** Multiplying by a positive factor reflects order. */
  lemma CancelPositiveFactor(lo: real, v: real, hi: real, e: real)
    requires 0.0 < e && lo * e <= v * e <= hi * e
    ensures lo <= v <= hi
  {
  }

  /** Three non-negative terms: a non-negative sum, zero only when every term is. */
  lemma SumOfThree(p: real, q: real, r: real)
    requires 0.0 <= p && 0.0 <= q && 0.0 <= r
    ensures 0.0 <= p + q + r
    ensures p + q + r == 0.0 <==> p == 0.0 && q == 0.0 && r == 0.0
  {
  }

  /** Six non-negative terms have a non-negative sum. */
  lemma SumOfSix(p: real, q: real, r: real, s: real, u: real, v: real)
    requires 0.0 <= p && 0.0 <= q && 0.0 <= r && 0.0 <= s && 0.0 <= u && 0.0 <= v
    ensures 0.0 <= p + q + r + s + u + v
  {
  }

  /** A fraction with a positive divisor lies between the bounds its numerator does, scaled. */
  lemma RatioBetween(x: real, e: real, lo: real, hi: real)
    requires 0.0 < e && lo * e <= x <= hi * e
    ensures Ratio(x, e).Defined?
    ensures lo <= Ratio(x, e).value <= hi
  {
    var v := Ratio(x, e).value;
    assert v * e == x;
    CancelPositiveFactor(lo, v, hi, e);
  }

  /** Two fractions with non-zero divisors are equal when cross-multiplication says so. */
  lemma SameRatio(p: real, q: real, r: real, s: real)
    requires q != 0.0 && s != 0.0 && p * s == r * q
    ensures Ratio(p, q) == Ratio(r, s)
  {
    var v, w := Ratio(p, q).value, Ratio(r, s).value;
    ProductNonZero(q, s);
    assert v * (q * s) == p * s;
    assert w * (q * s) == r * q;
    CancelFactor(v, w, q * s);
  }

  /** A fraction is one exactly when numerator and divisor agree. */
  lemma RatioIsOne(x: real, q: real)
    requires q != 0.0
    ensures Ratio(x, q) == Defined(1.0) <==> x == q
  {
    if x == q {
      SameRatio(x, q, 1.0, 1.0);
    }
  }

  /** Two ratios over the same divisor whose numerators make up the divisor sum to one. */
  lemma ComplementaryRatios(x: real, y: real)
    ensures Ratio(x, x + y).Defined? <==> Ratio(y, x + y).Defined?
    ensures Ratio(x, x + y).Defined? ==> Ratio(x, x + y).value + Ratio(y, x + y).value == 1.0
  {
    if x + y != 0.0 {
      var u, w := Ratio(x, x + y).value, Ratio(y, x + y).value;
      assert (u + w) * (x + y) == 1.0 * (x + y);
      CancelFactor(u + w, 1.0, x + y);
    }
  }

  /** Ratios over one divisor add up their numerators. */
  lemma RatioSum(x: real, y: real, q: real)
    requires q != 0.0
    ensures Ratio(x + y, q) == Defined(Ratio(x, q).value + Ratio(y, q).value)
  {
    var u, w, z := Ratio(x, q).value, Ratio(y, q).value, Ratio(x + y, q).value;
    assert (u + w) * q == u * q + w * q;
    assert (u + w) * q == z * q;
    CancelFactor(u + w, z, q);
  }

  /** Ratios over one divisor subtract their numerators. */
  lemma RatioSubtract(x: real, y: real, q: real)
    requires q != 0.0
    ensures Ratio(x - y, q) == Defined(Ratio(x, q).value - Ratio(y, q).value)
  {
    var u, w, z := Ratio(x, q).value, Ratio(y, q).value, Ratio(x - y, q).value;
    assert (u - w) * q == u * q - w * q;
    assert (u - w) * q == z * q;
    CancelFactor(u - w, z, q);
  }

  /** The difference of two ratios, over the product of their divisors. */
  lemma RatioDifference(x: real, p: real, y: real, q: real)
    requires p != 0.0 && q != 0.0
    ensures Ratio(x * q - y * p, p * q) == Defined(Ratio(x, p).value - Ratio(y, q).value)
  {
    ProductNonZero(p, q);
    assert (x * q) * p == x * (p * q);
    SameRatio(x * q, p * q, x, p);
    assert (y * p) * q == y * (p * q);
    SameRatio(y * p, p * q, y, q);
    RatioSubtract(x * q, y * p, p * q);
  }

  /** The reciprocal of a fraction with non-zero parts is the fraction turned over. */
  lemma RatioReciprocal(x: real, q: real)
    requires x != 0.0 && q != 0.0
    ensures Ratio(x, q).value != 0.0
    ensures 1.0 / Ratio(x, q).value == Ratio(q, x).value
  {
    var u, w := Ratio(x, q).value, Ratio(q, x).value;
    assert u != 0.0;
    assert (1.0 / u) * u == 1.0;
    assert (w * u) * (x * q) == (w * x) * (u * q);
    ProductNonZero(x, q);
    CancelFactor(w * u, 1.0, x * q);
    CancelFactor(1.0 / u, w, u);
  }

  /** Two fractions with the same non-zero numerator: (x/p) / (x/q) = q/p. */
  lemma RatioQuotient(x: real, p: real, q: real)
    requires x != 0.0 && p != 0.0 && q != 0.0
    ensures Ratio(x, q).value != 0.0
    ensures Ratio(q, p) == Defined(Ratio(x, p).value / Ratio(x, q).value)
  {
    var u, w, z := Ratio(x, p).value, Ratio(x, q).value, Ratio(q, p).value;
    assert w != 0.0;
    assert (z * w) * (p * q) == (z * p) * (w * q);
    assert u * (p * q) == (u * p) * q;
    ProductNonZero(p, q);
    CancelFactor(z * w, u, p * q);
    assert (u / w) * w == u;
    CancelFactor(z, u / w, w);
  }
}
