/**
 * The skill scores of a 2x2 forecast-verification contingency table, over exact reals.
 *
 *                 Event
 *                 Yes  No
 *   Forecast Yes   a    b
 *            No    c    d
 *
 * a = hits, b = false alarms, c = misses, d = correct negatives, n = the cached total.
 * Every score is made of unguarded divisions (the equitable threat score has two): where
 * a divisor is zero, NumPy float64 division yields nan or inf with a warning and carries
 * on, which is `Undefined` here.
 */
module Scores {

  datatype Option<+T> = None | Some(value: T)

  /** The value of one score: a real number, or no number where a divisor was zero. */
  datatype Score = Undefined | Defined(value: real)

  /** Division without a guard: a zero divisor gives no number, never an error. */
  function Ratio(num: real, den: real): (r: Score)
    ensures r.Undefined? <==> den == 0.0
    ensures r.Defined? ==> r.value * den == num
    ensures r.Defined? && 0.0 <= num && 0.0 < den ==> 0.0 <= r.value
    ensures r.Defined? && 0.0 <= num <= den ==> r.value <= 1.0
  {
    if den == 0.0 then Undefined else Defined(num / den)
  }

  /** The fifteen score queries, by the names under which the table answers them. */
  datatype ScoreName =
    | POD | FOH | FAR | POFD | FOM | DFR | PON | FOCN
    | BIAS | ACCURACY | CSI | ETS | HSS | PSS | CSS
  {
    function Name(): string {
      match this
      case POD => "pod"
      case FOH => "foh"
      case FAR => "far"
      case POFD => "pofd"
      case FOM => "fom"
      case DFR => "dfr"
      case PON => "pon"
      case FOCN => "focn"
      case BIAS => "bias"
      case ACCURACY => "accuracy"
      case CSI => "csi"
      case ETS => "ets"
      case HSS => "hss"
      case PSS => "pss"
      case CSS => "css"
    }
  }

  /** Looks a score up by its name; a name that is not a score has no query. */
  function ParseName(s: string): (r: Option<ScoreName>)
    ensures r.Some? ==> r.value.Name() == s
    ensures r.None? ==> forall k: ScoreName :: k.Name() != s
    ensures forall k: ScoreName :: k.Name() == s ==> r == Some(k)
  {
    match s
    case "pod" => Some(POD)
    case "foh" => Some(FOH)
    case "far" => Some(FAR)
    case "pofd" => Some(POFD)
    case "fom" => Some(FOM)
    case "dfr" => Some(DFR)
    case "pon" => Some(PON)
    case "focn" => Some(FOCN)
    case "bias" => Some(BIAS)
    case "accuracy" => Some(ACCURACY)
    case "csi" => Some(CSI)
    case "ets" => Some(ETS)
    case "hss" => Some(HSS)
    case "pss" => Some(PSS)
    case "css" => Some(CSS)
    case _ => None
  }

  /** A snapshot of the table: the four cells in row-major order and the cached total n. */
  datatype Table = Table(a: real, b: real, c: real, d: real, n: real) {

    /** The cached total equals the sum of the cells. */
    predicate Consistent() {
      n == a + b + c + d
    }

    /** The cells are counts (or weights), none negative. */
    predicate NonNegative() {
      0.0 <= a && 0.0 <= b && 0.0 <= c && 0.0 <= d
    }

    /** Probability of detection, a/(a+c). */
    function Pod(): (r: Score)
      ensures r.Defined? <==> a + c != 0.0
      ensures r.Defined? && NonNegative() ==> 0.0 <= r.value <= 1.0
    {
      Ratio(a, a + c)
    }

    /** Frequency of hits (success ratio), a/(a+b). */
    function Foh(): (r: Score)
      ensures r.Defined? <==> a + b != 0.0
      ensures r.Defined? && NonNegative() ==> 0.0 <= r.value <= 1.0
    {
      Ratio(a, a + b)
    }

    /** False alarm ratio, b/(a+b). */
    function Far(): (r: Score)
      ensures r.Defined? <==> a + b != 0.0
      ensures r.Defined? && NonNegative() ==> 0.0 <= r.value <= 1.0
    {
      Ratio(b, a + b)
    }

    /** Probability of false detection, b/(b+d). */
    function Pofd(): (r: Score)
      ensures r.Defined? <==> b + d != 0.0
      ensures r.Defined? && NonNegative() ==> 0.0 <= r.value <= 1.0
    {
      Ratio(b, b + d)
    }

    /** Frequency of misses, c/(a+c). */
    function Fom(): (r: Score)
      ensures r.Defined? <==> a + c != 0.0
      ensures r.Defined? && NonNegative() ==> 0.0 <= r.value <= 1.0
    {
      Ratio(c, a + c)
    }

    /** Detection failure ratio, c/(c+d). */
    function Dfr(): (r: Score)
      ensures r.Defined? <==> c + d != 0.0
      ensures r.Defined? && NonNegative() ==> 0.0 <= r.value <= 1.0
    {
      Ratio(c, c + d)
    }

    /** Probability of null, d/(b+d). */
    function Pon(): (r: Score)
      ensures r.Defined? <==> b + d != 0.0
      ensures r.Defined? && NonNegative() ==> 0.0 <= r.value <= 1.0
    {
      Ratio(d, b + d)
    }

    /** Frequency of correct nulls, d/(c+d). */
    function Focn(): (r: Score)
      ensures r.Defined? <==> c + d != 0.0
      ensures r.Defined? && NonNegative() ==> 0.0 <= r.value <= 1.0
    {
      Ratio(d, c + d)
    }

    /** Frequency bias, (a+b)/(a+c): forecast-yes total over event-yes total. */
    function Bias(): (r: Score)
      ensures r.Defined? <==> a + c != 0.0
      ensures r.Defined? && NonNegative() ==> 0.0 <= r.value
    {
      Ratio(a + b, a + c)
    }

    /** Fraction correct, (a+d)/n, divided by the cached total. */
    function Accuracy(): (r: Score)
      ensures r.Defined? <==> n != 0.0
      ensures r.Defined? && NonNegative() && Consistent() ==> 0.0 <= r.value <= 1.0
    {
      Ratio(a + d, n)
    }

    /** Critical success index (threat score), a/(a+b+c). */
    function Csi(): (r: Score)
      ensures r.Defined? <==> a + b + c != 0.0
      ensures r.Defined? && NonNegative() ==> 0.0 <= r.value <= 1.0
    {
      Ratio(a, a + b + c)
    }

    /** The hits expected by chance, (a+b)(a+c)/n, as the equitable threat score computes it. */
    function ChanceHits(): (r: Score)
      ensures r.Defined? <==> n != 0.0
    {
      Ratio((a + b) * (a + c), n)
    }

    /** Equitable threat score, (a-r)/(a+b+c-r) with r the hits expected by chance.
        When it has a value in terms of the cells alone is `ScoreProperties.EtsDefinedIff`;
        its value on a consistent table is `ScoreProperties.EtsClosedForm`. */
    function Ets(): (r: Score)
      ensures n == 0.0 ==> r.Undefined?
      ensures r.Defined? <==> n != 0.0 && a + b + c - ChanceHits().value != 0.0
    {
      match ChanceHits()
      case Undefined => Undefined
      case Defined(hits) => Ratio(a - hits, a + b + c - hits)
    }

    /** Heidke skill score, 2(ad-bc)/((a+b)(b+d)+(a+c)(c+d)). */
    function Hss(): (r: Score)
      ensures r.Defined? <==> (a + b) * (b + d) + (a + c) * (c + d) != 0.0
    {
      Ratio(2.0 * (a * d - b * c), (a + b) * (b + d) + (a + c) * (c + d))
    }

    /** Peirce skill score, (ad-bc)/((a+c)(b+d)). */
    function Pss(): (r: Score)
      ensures r.Defined? <==> a + c != 0.0 && b + d != 0.0
    {
      Ratio(a * d - b * c, (a + c) * (b + d))
    }

    /** Clayton skill score, (ad-bc)/((a+b)(c+d)). */
    function Css(): (r: Score)
      ensures r.Defined? <==> a + b != 0.0 && c + d != 0.0
    {
      Ratio(a * d - b * c, (a + b) * (c + d))
    }

    /** The score a name stands for. */
    function Eval(name: ScoreName): Score {
      match name
      case POD => Pod()
      case FOH => Foh()
      case FAR => Far()
      case POFD => Pofd()
      case FOM => Fom()
      case DFR => Dfr()
      case PON => Pon()
      case FOCN => Focn()
      case BIAS => Bias()
      case ACCURACY => Accuracy()
      case CSI => Csi()
      case ETS => Ets()
      case HSS => Hss()
      case PSS => Pss()
      case CSS => Css()
    }
  }
}
