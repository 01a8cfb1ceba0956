/**
 * What the scores of a contingency table promise about each other: complementary
 * ratios, ranges, the equitable threat score in closed form, the skill scores as
 * differences of simpler ratios, and their symmetries.
 *
 * Each property about tables rests on a lemma about plain reals (the cells a, b, c, d)
 * that carries the algebra; the table lemma only instantiates it.
 */
module ScoreProperties {
  import opened Scores
  import opened Fractions

  // ---------------------------------------------------------------------------
  // Complementary proportions
  // ---------------------------------------------------------------------------

  /** The detection probability and the frequency of misses share a divisor and add to one. */
  lemma PodFomComplement(t: Table)
    ensures t.Pod().Defined? <==> t.Fom().Defined?
    ensures t.Pod().Defined? ==> t.Pod().value + t.Fom().value == 1.0
  {
    ComplementaryRatios(t.a, t.c);
  }

  /** The success ratio and the false alarm ratio share a divisor and add to one. */
  lemma FohFarComplement(t: Table)
    ensures t.Foh().Defined? <==> t.Far().Defined?
    ensures t.Foh().Defined? ==> t.Foh().value + t.Far().value == 1.0
  {
    ComplementaryRatios(t.a, t.b);
  }

  /** The false detection probability and the probability of null add to one. */
  lemma PofdPonComplement(t: Table)
    ensures t.Pofd().Defined? <==> t.Pon().Defined?
    ensures t.Pofd().Defined? ==> t.Pofd().value + t.Pon().value == 1.0
  {
    ComplementaryRatios(t.b, t.d);
  }

  /** The detection failure ratio and the frequency of correct nulls add to one. */
  lemma DfrFocnComplement(t: Table)
    ensures t.Dfr().Defined? <==> t.Focn().Defined?
    ensures t.Dfr().Defined? ==> t.Dfr().value + t.Focn().value == 1.0
  {
    ComplementaryRatios(t.c, t.d);
  }

  // ---------------------------------------------------------------------------
  // Bias, accuracy and the threat score
  // ---------------------------------------------------------------------------

  /** An unbiased forecast says yes as often as the event happens: bias is 1 iff b = c. */
  lemma BiasOneIff(t: Table)
    requires t.a + t.c != 0.0
    ensures t.Bias() == Defined(1.0) <==> t.b == t.c
  {
    RatioIsOne(t.a + t.b, t.a + t.c);
  }

  /** With at least one hit, the bias is the detection probability over the success ratio. */
  lemma BiasIsPodOverFoh(t: Table)
    requires t.a != 0.0 && t.a + t.b != 0.0 && t.a + t.c != 0.0
    ensures t.Pod().Defined? && t.Foh().Defined? && t.Foh().value != 0.0
    ensures t.Bias() == Defined(t.Pod().value / t.Foh().value)
  {
    RatioQuotient(t.a, t.a + t.c, t.a + t.b);
  }

  /** With at least one hit, 1/csi = 1/pod + 1/foh - 1. */
  lemma CsiFromPodAndFoh(t: Table)
    requires t.a != 0.0 && t.a + t.b != 0.0 && t.a + t.c != 0.0 && t.a + t.b + t.c != 0.0
    ensures t.Csi().Defined? && t.Pod().Defined? && t.Foh().Defined?
    ensures t.Csi().value != 0.0 && t.Pod().value != 0.0 && t.Foh().value != 0.0
    ensures 1.0 / t.Csi().value == 1.0 / t.Pod().value + 1.0 / t.Foh().value - 1.0
  {
    var a, b, c := t.a, t.b, t.c;
    RatioReciprocal(a, a + b + c);
    RatioReciprocal(a, a + c);
    RatioReciprocal(a, a + b);
    RatioSum(a + c, b, a);
    RatioSum(a, c, a);
    RatioSum(a, b, a);
    SameRatio(a, a, 1.0, 1.0);
  }

  /** The fraction correct lies in [0, 1] for non-negative cells and a positive consistent total. */
  lemma AccuracyInUnitInterval(t: Table)
    requires t.NonNegative() && t.Consistent() && t.n > 0.0
    ensures t.Accuracy().Defined?
    ensures 0.0 <= t.Accuracy().value <= 1.0
  {
  }

  /** The threat score lies in [0, 1] for non-negative cells, at least one of a, b, c positive. */
  lemma CsiInUnitInterval(t: Table)
    requires t.NonNegative() && t.a + t.b + t.c > 0.0
    ensures t.Csi().Defined?
    ensures 0.0 <= t.Csi().value <= 1.0
  {
  }

  // ---------------------------------------------------------------------------
  // The equitable threat score
  // ---------------------------------------------------------------------------

  /** The divisor of the equitable threat score once the total is multiplied through:
      b(a+b+c+d) + c(a+c+d) + ad, a sum of products of non-negative counts. */
  function EtsDivisor(a: real, b: real, c: real, d: real): real {
    b * (a + b + c + d) + c * (a + c + d) + a * d
  }

  /** The polynomial identities behind the closed form of the equitable threat score. */
  lemma EtsIdentities(a: real, b: real, c: real, d: real)
    ensures a * (a + b + c + d) - (a + b) * (a + c) == a * d - b * c
    ensures (a + b + c) * (a + b + c + d) - (a + b) * (a + c) == EtsDivisor(a, b, c, d)
  {
  }

  /** With h the chance hits over the total n = a+b+c+d, (a-h)/(a+b+c-h) = (ad-bc)/EtsDivisor. */
  lemma EtsRatio(a: real, b: real, c: real, d: real, h: real)
    requires a + b + c + d != 0.0 && h * (a + b + c + d) == (a + b) * (a + c)
    ensures Ratio(a - h, a + b + c - h) == Ratio(a * d - b * c, EtsDivisor(a, b, c, d))
  {
    var n := a + b + c + d;
    EtsIdentities(a, b, c, d);
    var x, e := a * d - b * c, EtsDivisor(a, b, c, d);
    var p, q := a - h, a + b + c - h;
    assert p * n == x by {
      assert p * n == a * n - h * n;
    }
    assert q * n == e by {
      assert q * n == (a + b + c) * n - h * n;
    }
    if q != 0.0 {
      ProductNonZero(q, n);
      assert p * e == x * q by {
        assert p * e == p * (q * n);
        assert x * q == (p * n) * q;
      }
      SameRatio(p, q, x, e);
    } else {
      assert e == 0.0;
    }
  }

  /** On a consistent table, ets = (ad-bc) / EtsDivisor: the cached total cancels. */
  lemma EtsClosedForm(t: Table)
    requires t.Consistent() && t.n != 0.0
    ensures t.Ets() == Ratio(t.a * t.d - t.b * t.c, EtsDivisor(t.a, t.b, t.c, t.d))
  {
    EtsRatio(t.a, t.b, t.c, t.d, t.ChanceHits().value);
  }

  /** The first two terms of the ets divisor vanish exactly when b, resp. c, does. */
  lemma EtsDivisorTerms(a: real, b: real, c: real, d: real)
    requires 0.0 <= a && 0.0 <= b && 0.0 <= c && 0.0 <= d
    ensures 0.0 <= b * (a + b + c + d) && (b * (a + b + c + d) == 0.0 <==> b == 0.0)
    ensures 0.0 <= c * (a + c + d) && (c * (a + c + d) == 0.0 <==> c == 0.0)
    ensures 0.0 <= a * d
  {
    ProductNonNegative(a, d);
    if b == 0.0 {
      assert b * (a + b + c + d) == 0.0;
    } else {
      ProductPositive(b, a + b + c + d);
    }
    if c == 0.0 {
      assert c * (a + c + d) == 0.0;
    } else {
      ProductPositive(c, a + c + d);
    }
  }

  /** For non-negative cells the ets divisor vanishes only when there are neither false
      alarms nor misses and hits or correct negatives are missing. */
  lemma EtsDivisorZeroIff(a: real, b: real, c: real, d: real)
    requires 0.0 <= a && 0.0 <= b && 0.0 <= c && 0.0 <= d
    ensures 0.0 <= EtsDivisor(a, b, c, d)
    ensures EtsDivisor(a, b, c, d) == 0.0 <==> b == 0.0 && c == 0.0 && a * d == 0.0
  {
    EtsDivisorTerms(a, b, c, d);
    SumOfThree(b * (a + b + c + d), c * (a + c + d), a * d);
  }

  /** EtsDivisor - (ad-bc) and EtsDivisor + 3(ad-bc) as sums of non-negative terms. */
  lemma EtsDivisorExpansions(a: real, b: real, c: real, d: real)
    ensures EtsDivisor(a, b, c, d) - (a * d - b * c)
         == b * (a + b + c + d) + c * (a + c + d) + b * c
    ensures EtsDivisor(a, b, c, d) + 3.0 * (a * d - b * c)
         == (b - c) * (b - c) + a * b + a * c + b * d + c * d + 4.0 * (a * d)
  {
  }

  /** For non-negative counts, -EtsDivisor <= 3(ad-bc) and ad-bc <= EtsDivisor. */
  lemma EtsDivisorBounds(a: real, b: real, c: real, d: real)
    requires 0.0 <= a && 0.0 <= b && 0.0 <= c && 0.0 <= d
    ensures a * d - b * c <= EtsDivisor(a, b, c, d)
    ensures -EtsDivisor(a, b, c, d) <= 3.0 * (a * d - b * c)
  {
    EtsDivisorExpansions(a, b, c, d);
    EtsDivisorTerms(a, b, c, d);
    ProductNonNegative(b, c);
    SumOfThree(b * (a + b + c + d), c * (a + c + d), b * c);
    SquareNonNegative(b - c);
    ProductNonNegative(a, b);
    ProductNonNegative(a, c);
    ProductNonNegative(b, d);
    ProductNonNegative(c, d);
    SumOfSix((b - c) * (b - c), a * b, a * c, b * d, c * d, 4.0 * (a * d));
  }

  /** For non-negative consistent counts, ets has a value exactly when some count is positive
      and the table is not made of hits alone or of correct negatives alone. */
  lemma EtsDefinedIff(t: Table)
    requires t.NonNegative() && t.Consistent()
    ensures t.Ets().Defined? <==> t.n != 0.0 && !(t.b == 0.0 && t.c == 0.0 && t.a * t.d == 0.0)
  {
    if t.n != 0.0 {
      EtsClosedForm(t);
      EtsDivisorZeroIff(t.a, t.b, t.c, t.d);
    }
  }

  /** The bounds that make a fraction x/e lie in [-1/3, 1]. */
  lemma EtsBoundsScaled(x: real, e: real)
    requires 0.0 <= e && e != 0.0 && -e <= 3.0 * x && x <= e
    ensures 0.0 < e && (-1.0 / 3.0) * e <= x <= 1.0 * e
  {
  }

  /** For non-negative cells, (ad-bc)/EtsDivisor lies in [-1/3, 1] wherever it is defined. */
  lemma EtsRatioRange(t: Table)
    requires t.NonNegative() && EtsDivisor(t.a, t.b, t.c, t.d) != 0.0
    ensures 0.0 < EtsDivisor(t.a, t.b, t.c, t.d)
    ensures -1.0 / 3.0 <= Ratio(t.a * t.d - t.b * t.c, EtsDivisor(t.a, t.b, t.c, t.d)).value <= 1.0
  {
    var x, e := t.a * t.d - t.b * t.c, EtsDivisor(t.a, t.b, t.c, t.d);
    EtsDivisorZeroIff(t.a, t.b, t.c, t.d);
    EtsDivisorBounds(t.a, t.b, t.c, t.d);
    assert e != 0.0 && 0.0 <= e;
    assert -e <= 3.0 * x && x <= e;
    EtsBoundsScaled(x, e);
    RatioBetween(x, e, -1.0 / 3.0, 1.0);
  }

  /** The equitable threat score lies in [-1/3, 1] for non-negative consistent counts. */
  lemma EtsRange(t: Table)
    requires t.NonNegative() && t.Consistent() && t.Ets().Defined?
    ensures -1.0 / 3.0 <= t.Ets().value <= 1.0
  {
    EtsClosedForm(t);
    EtsRatioRange(t);
  }

  // ---------------------------------------------------------------------------
  // Heidke, Peirce and Clayton
  // ---------------------------------------------------------------------------

  /** The divisor of the Heidke skill score is the ets divisor plus (ad-bc). */
  lemma HssDivisor(a: real, b: real, c: real, d: real)
    ensures (a + b) * (b + d) + (a + c) * (c + d) == EtsDivisor(a, b, c, d) + (a * d - b * c)
  {
  }

  /** The bounds that make a fraction 2x/(e+x) lie in [-1, 1]. */
  lemma HssBoundsScaled(x: real, e: real, h: real)
    requires h == e + x && h != 0.0 && 0.0 <= e && -e <= 3.0 * x && x <= e
    ensures 0.0 < h && -1.0 * h <= 2.0 * x <= 1.0 * h
  {
  }

  /** For non-negative cells, 2(ad-bc)/((a+b)(b+d)+(a+c)(c+d)) lies in [-1, 1]. */
  lemma HssRatioRange(t: Table)
    requires t.NonNegative()
    requires (t.a + t.b) * (t.b + t.d) + (t.a + t.c) * (t.c + t.d) != 0.0
    ensures -1.0 <= Ratio(2.0 * (t.a * t.d - t.b * t.c),
                          (t.a + t.b) * (t.b + t.d) + (t.a + t.c) * (t.c + t.d)).value <= 1.0
  {
    var x, e := t.a * t.d - t.b * t.c, EtsDivisor(t.a, t.b, t.c, t.d);
    var h := (t.a + t.b) * (t.b + t.d) + (t.a + t.c) * (t.c + t.d);
    HssDivisor(t.a, t.b, t.c, t.d);
    EtsDivisorZeroIff(t.a, t.b, t.c, t.d);
    EtsDivisorBounds(t.a, t.b, t.c, t.d);
    assert h == e + x;
    assert h != 0.0;
    assert 0.0 <= e;
    assert -e <= 3.0 * x && x <= e;
    HssBoundsScaled(x, e, h);
    RatioBetween(2.0 * x, h, -1.0, 1.0);
  }

  /** The Heidke skill score lies in [-1, 1] for non-negative counts. */
  lemma HssRange(t: Table)
    requires t.NonNegative() && t.Hss().Defined?
    ensures -1.0 <= t.Hss().value <= 1.0
  {
    assert t.Hss() == Ratio(2.0 * (t.a * t.d - t.b * t.c),
                            (t.a + t.b) * (t.b + t.d) + (t.a + t.c) * (t.c + t.d));
    HssRatioRange(t);
  }

  /** With v = x/e for a positive e, x > -e and h = e + x: 2x/h = 2v/(1+v). */
  lemma HalvedHarmonic(x: real, e: real, h: real)
    requires 0.0 < e && -e < x && h == e + x
    ensures Ratio(x, e).Defined? && 1.0 + Ratio(x, e).value != 0.0
    ensures Ratio(2.0 * x, h)
         == Defined(2.0 * Ratio(x, e).value / (1.0 + Ratio(x, e).value))
  {
    var v := Ratio(x, e).value;
    assert v * e == x;
    assert e + x == e * (1.0 + v);
    FactorsNonZero(e, 1.0 + v);
    assert 2.0 * x * (1.0 + v) == 2.0 * x + 2.0 * (x * v);
    assert 2.0 * v * (e + x) == 2.0 * (v * e) + 2.0 * (v * x);
    SameRatio(2.0 * x, e + x, 2.0 * v, 1.0 + v);
  }

  /** For non-negative counts, where the ets fraction (ad-bc)/EtsDivisor has the value v,
      the Heidke fraction is 2v/(1+v). */
  lemma HssRatioFromEts(t: Table, v: real)
    requires t.NonNegative()
    requires Ratio(t.a * t.d - t.b * t.c, EtsDivisor(t.a, t.b, t.c, t.d)) == Defined(v)
    ensures 1.0 + v != 0.0
    ensures Ratio(2.0 * (t.a * t.d - t.b * t.c), (t.a + t.b) * (t.b + t.d) + (t.a + t.c) * (t.c + t.d))
         == Defined(2.0 * v / (1.0 + v))
  {
    var x, e := t.a * t.d - t.b * t.c, EtsDivisor(t.a, t.b, t.c, t.d);
    var h := (t.a + t.b) * (t.b + t.d) + (t.a + t.c) * (t.c + t.d);
    assert 0.0 < e && -e < x by {
      EtsDivisorZeroIff(t.a, t.b, t.c, t.d);
      EtsDivisorBounds(t.a, t.b, t.c, t.d);
    }
    HssDivisor(t.a, t.b, t.c, t.d);
    HalvedHarmonic(x, e, h);
  }

  /** Where the ets fraction of a table with non-negative cells has the value v,
      its Heidke skill score is 2v/(1+v). */
  lemma HssFromEtsValue(t: Table, v: real)
    requires t.NonNegative()
    requires Ratio(t.a * t.d - t.b * t.c, EtsDivisor(t.a, t.b, t.c, t.d)) == Defined(v)
    ensures 1.0 + v != 0.0
    ensures t.Hss() == Defined(2.0 * v / (1.0 + v))
  {
    HssRatioFromEts(t, v);
  }

  /** Heidke's score from the equitable threat score: hss = 2 ets / (1 + ets). */
  lemma HssFromEts(t: Table)
    requires t.NonNegative() && t.Consistent() && t.Ets().Defined?
    ensures 1.0 + t.Ets().value != 0.0
    ensures t.Hss() == Defined(2.0 * t.Ets().value / (1.0 + t.Ets().value))
  {
    EtsClosedForm(t);
    HssFromEtsValue(t, t.Ets().value);
  }

  /** The numerator of Peirce's score as a cross-multiplied difference of pod and pofd. */
  lemma PeirceNumerator(a: real, b: real, c: real, d: real)
    ensures a * (b + d) - b * (a + c) == a * d - b * c
    ensures a * (c + d) - c * (a + b) == a * d - b * c
  {
  }

  /** Peirce's score is the detection probability less the false detection probability. */
  lemma PssIsPodMinusPofd(t: Table)
    requires t.a + t.c != 0.0 && t.b + t.d != 0.0
    ensures t.Pod().Defined? && t.Pofd().Defined?
    ensures t.Pss() == Defined(t.Pod().value - t.Pofd().value)
  {
    RatioDifference(t.a, t.a + t.c, t.b, t.b + t.d);
    PeirceNumerator(t.a, t.b, t.c, t.d);
  }

  /** Clayton's score is the success ratio less the detection failure ratio. */
  lemma CssIsFohMinusDfr(t: Table)
    requires t.a + t.b != 0.0 && t.c + t.d != 0.0
    ensures t.Foh().Defined? && t.Dfr().Defined?
    ensures t.Css() == Defined(t.Foh().value - t.Dfr().value)
  {
    RatioDifference(t.a, t.a + t.b, t.c, t.c + t.d);
    PeirceNumerator(t.a, t.b, t.c, t.d);
  }

  /** Peirce's and Clayton's scores lie in [-1, 1] for non-negative counts. */
  lemma PssCssRange(t: Table)
    requires t.NonNegative()
    ensures t.Pss().Defined? ==> -1.0 <= t.Pss().value <= 1.0
    ensures t.Css().Defined? ==> -1.0 <= t.Css().value <= 1.0
  {
    if t.Pss().Defined? {
      PssIsPodMinusPofd(t);
    }
    if t.Css().Defined? {
      CssIsFohMinusDfr(t);
    }
  }

  // ---------------------------------------------------------------------------
  // Symmetries
  // ---------------------------------------------------------------------------

  /** Forecast and event roles swapped: the table transposed. */
  function Transposed(t: Table): Table {
    Table(t.a, t.c, t.b, t.d, t.n)
  }

  /** Yes and no swapped for both forecast and event. */
  function Relabelled(t: Table): Table {
    Table(t.d, t.c, t.b, t.a, t.n)
  }

  /** The Heidke fraction over the cells d, c, b, a equals the one over a, b, c, d. */
  lemma HssRelabelRatio(a: real, b: real, c: real, d: real)
    ensures Ratio(2.0 * (d * a - c * b), (d + c) * (c + a) + (d + b) * (b + a))
         == Ratio(2.0 * (a * d - b * c), (a + b) * (b + d) + (a + c) * (c + d))
  {
    assert 2.0 * (d * a - c * b) == 2.0 * (a * d - b * c);
    assert (d + c) * (c + a) + (d + b) * (b + a) == (a + b) * (b + d) + (a + c) * (c + d);
  }

  /** The Heidke fraction over the cells a, c, b, d equals the one over a, b, c, d. */
  lemma HssTransposeRatio(a: real, b: real, c: real, d: real)
    ensures Ratio(2.0 * (a * d - c * b), (a + c) * (c + d) + (a + b) * (b + d))
         == Ratio(2.0 * (a * d - b * c), (a + b) * (b + d) + (a + c) * (c + d))
  {
    assert 2.0 * (a * d - c * b) == 2.0 * (a * d - b * c);
    assert (a + c) * (c + d) + (a + b) * (b + d) == (a + b) * (b + d) + (a + c) * (c + d);
  }

  /** The Peirce fraction over the cells d, c, b, a equals the one over a, b, c, d. */
  lemma PssRelabelRatio(a: real, b: real, c: real, d: real)
    ensures Ratio(d * a - c * b, (d + b) * (c + a)) == Ratio(a * d - b * c, (a + c) * (b + d))
  {
    assert d * a - c * b == a * d - b * c;
    assert (d + b) * (c + a) == (a + c) * (b + d);
  }

  /** The Peirce fraction over the cells a, c, b, d is the Clayton fraction over a, b, c, d. */
  lemma PssTransposeRatio(a: real, b: real, c: real, d: real)
    ensures Ratio(a * d - c * b, (a + b) * (c + d)) == Ratio(a * d - b * c, (a + b) * (c + d))
  {
    assert a * d - c * b == a * d - b * c;
  }

  /** Heidke's score ignores which outcome is called yes. */
  lemma HssRelabelInvariant(t: Table)
    ensures Relabelled(t).Hss() == t.Hss()
  {
    HssRelabelRatio(t.a, t.b, t.c, t.d);
  }

  /** Heidke's score ignores which of forecast and event is which. */
  lemma HssTransposeInvariant(t: Table)
    ensures Transposed(t).Hss() == t.Hss()
  {
    HssTransposeRatio(t.a, t.b, t.c, t.d);
  }

  /** Peirce's score ignores which outcome is called yes. */
  lemma PssRelabelInvariant(t: Table)
    ensures Relabelled(t).Pss() == t.Pss()
  {
    PssRelabelRatio(t.a, t.b, t.c, t.d);
  }

  /** Peirce's score of the transposed table is Clayton's score of the table. */
  lemma PssTransposeIsCss(t: Table)
    ensures Transposed(t).Pss() == t.Css()
  {
    PssTransposeRatio(t.a, t.b, t.c, t.d);
  }

  // ---------------------------------------------------------------------------
  // A worked table and the score names
  // ---------------------------------------------------------------------------

  /** The scores of the table with cells 1, 2, 3, 4 and total 10. */
  lemma ExampleTableScores()
    ensures var t := Table(1.0, 2.0, 3.0, 4.0, 10.0);
      && t.Pod() == Defined(1.0 / 4.0) && t.Foh() == Defined(1.0 / 3.0)
      && t.Far() == Defined(2.0 / 3.0) && t.Pofd() == Defined(2.0 / 6.0)
      && t.Fom() == Defined(3.0 / 4.0) && t.Dfr() == Defined(3.0 / 7.0)
      && t.Pon() == Defined(4.0 / 6.0) && t.Focn() == Defined(4.0 / 7.0)
      && t.Bias() == Defined(3.0 / 4.0) && t.Accuracy() == Defined(5.0 / 10.0)
      && t.Csi() == Defined(1.0 / 6.0) && t.Ets() == Defined(-0.2 / 4.8)
      && t.Hss() == Defined(-4.0 / 46.0) && t.Pss() == Defined(-1.0 / 12.0)
      && t.Css() == Defined(-2.0 / 21.0)
  {
  }

  /** A name and its query go both ways. */
  lemma NameRoundTrip(k: ScoreName)
    ensures ParseName(k.Name()) == Some(k)
  {
  }
}
