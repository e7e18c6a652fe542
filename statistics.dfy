/** The hand-written moment statistics of 00.py:23-29 and 0pred.py:49-55, and
    the library values 00.py:35-38 compares them with. Square roots are not
    modelled: the standard deviation enters only through its square (the
    variance), so the coefficient of variation is modelled by its square and
    the kurtosis by m4 / variance^2, which is what std ** 4 equals over exact
    reals. */
module Statistics {
  import opened Numeric

  /** segmento = signal[:int(fs * 5)]: a prefix slice whose stop is cut to
      the signal length, and which counts from the end when it is negative. */
  function Segment(signal: seq<real>, fs: real): (r: seq<real>)
    ensures |r| <= |signal| && r == signal[..|r|]
    ensures fs >= 0.0 ==>
      |r| == (if Truncate(fs * 5.0) < |signal| then Truncate(fs * 5.0) else |signal|)
    ensures Truncate(fs * 5.0) < 0 ==>
      |r| == (if |signal| + Truncate(fs * 5.0) > 0 then |signal| + Truncate(fs * 5.0) else 0)
  {
    var stop := Truncate(fs * 5.0);
    if stop >= 0 then
      (if stop < |signal| then signal[..stop] else signal)
    else if |signal| + stop > 0 then
      signal[..|signal| + stop]
    else
      []
  }

  /** x - media for every sample x. */
  function Deviations(s: seq<real>, m: real): (d: seq<real>)
    ensures |d| == |s|
    ensures forall i :: 0 <= i < |s| ==> d[i] == s[i] - m
  {
    seq(|s|, i requires 0 <= i < |s| => s[i] - m)
  }

  /** The deviations from any m add up to the sum minus N times m. */
  lemma {:induction false} DeviationsSum(s: seq<real>, m: real)
    ensures Sum(Deviations(s, m)) == Sum(s) - |s| as real * m
  {
    if |s| > 0 {
      var last := |s| - 1;
      assert Deviations(s, m)[..last] == Deviations(s[..last], m);
      DeviationsSum(s[..last], m);
      assert last as real * m + m == |s| as real * m;
    }
  }

  /** The deviations from the mean balance out: they add up to zero. */
  lemma DeviationsBalance(s: seq<real>)
    requires |s| > 0
    ensures Sum(Deviations(s, Mean(s))) == 0.0
  {
    DeviationsSum(s, Mean(s));
  }

  /** sum((x - media) ** 2 for x in s): zero exactly when every sample
      equals the mean. */
  function SquaredDeviations(s: seq<real>): (r: real)
    requires |s| > 0
    ensures r >= 0.0
    ensures r == 0.0 <==> forall i :: 0 <= i < |s| ==> s[i] == Mean(s)
  {
    var d := Deviations(s, Mean(s));
    SumNonNegative(Squares(d));
    Sum(Squares(d))
  }

  /** sum((x - media) ** 4 for x in s), as the square of the square. */
  function FourthDeviations(s: seq<real>): (r: real)
    requires |s| > 0
    ensures r >= 0.0
    ensures r == 0.0 <==> forall i :: 0 <= i < |s| ==> s[i] == Mean(s)
  {
    var d := Deviations(s, Mean(s));
    SumNonNegative(Squares(Squares(d)));
    Sum(Squares(Squares(d)))
  }

  /** The formulas of the scripts over the sample count n and the two
      deviation sums s2 = sum((x - media) ** 2) and s4 = sum((x - media) ** 4).
      For a real signal s2 and s4 are both non-negative and vanish together. */
  predicate DeviationSums(n: int, s2: real, s4: real)
  {
    n > 0 && s2 >= 0.0 && s4 >= 0.0 && (s2 == 0.0 <==> s4 == 0.0)
  }

  /** s2 / (N - 1): the square of desviacion_estandar_manual. A single
      sample makes it 0 / 0, which numpy turns into NaN. */
  function SampleVarianceOf(n: int, s2: real): (v: Extended)
    requires n > 0 && s2 >= 0.0 && (n == 1 ==> s2 == 0.0)
    ensures v.NaN? <==> n == 1
    ensures v.Finite? <==> n >= 2
    ensures v.Finite? ==> v.value >= 0.0 && (v.value == 0.0 <==> s2 == 0.0)
    ensures v.Finite? ==> v.value * (n - 1) as real == s2
  {
    QuotientSign(s2, (n - 1) as real);
    Divide(s2, (n - 1) as real)
  }

  /** sum / N over N per-sample terms: with s2 the square of
      np.std(ddof=0), with s4 the fourth moment m4. */
  function MomentOf(n: int, sum: real): (m: real)
    requires n > 0 && sum >= 0.0
    ensures m >= 0.0 && (m == 0.0 <==> sum == 0.0)
    ensures m * n as real == sum
  {
    QuotientSign(sum, n as real);
    sum / n as real
  }

  /** curtosis_manual = m4 / std ** 4, where std ** 4 is the square of the
      N - 1 variance: NaN for a single sample (NaN std) and for zero spread
      (0 / 0), otherwise a finite non-negative value. */
  function ManualKurtosisOf(n: int, s2: real, s4: real): (k: Extended)
    requires DeviationSums(n, s2, s4) && (n == 1 ==> s2 == 0.0)
    ensures k.NaN? <==> s2 == 0.0
    ensures !k.NaN? ==> k.Finite? && k.value >= 0.0
    ensures k.Finite? ==> k.value * Square(SampleVarianceOf(n, s2).value) == MomentOf(n, s4)
  {
    match SampleVarianceOf(n, s2)
    case Finite(v) =>
      QuotientSign(MomentOf(n, s4), Square(v));
      Divide(MomentOf(n, s4), Square(v))
    case _ => NaN
  }

  /** kurtosis(fisher=False): m4 over the square of the population variance;
      zero spread gives 0 / 0, which is NaN. */
  function PearsonKurtosisOf(n: int, s2: real, s4: real): (k: Extended)
    requires DeviationSums(n, s2, s4)
    ensures k.NaN? <==> s2 == 0.0
    ensures !k.NaN? ==> k.Finite? && k.value >= 0.0
    ensures k.Finite? ==> k.value * Square(MomentOf(n, s2)) == MomentOf(n, s4)
  {
    QuotientSign(MomentOf(n, s4), Square(MomentOf(n, s2)));
    Divide(MomentOf(n, s4), Square(MomentOf(n, s2)))
  }

  /** The square of coef_variacion_manual: NaN when the mean is 0 (the
      guard) and when the standard deviation is NaN, otherwise
      variance / mean^2. */
  function ManualCvSquaredOf(n: int, s2: real, m: real): (r: Extended)
    requires n > 0 && s2 >= 0.0 && (n == 1 ==> s2 == 0.0)
    ensures r.NaN? <==> m == 0.0 || n == 1
    ensures !r.NaN? ==> r.Finite? && r.value >= 0.0
    ensures r.Finite? ==> r.value * Square(m) == SampleVarianceOf(n, s2).value
  {
    if m == 0.0 then NaN
    else match SampleVarianceOf(n, s2)
      case Finite(v) =>
        QuotientSign(v, Square(m));
        Finite(v / Square(m))
      case _ => NaN
  }

  /** The square of coef_variacion_func: NaN when np.mean is 0, otherwise
      the population variance over mean^2. */
  function LibraryCvSquaredOf(n: int, s2: real, m: real): (r: Extended)
    requires n > 0 && s2 >= 0.0
    ensures r.NaN? <==> m == 0.0
    ensures !r.NaN? ==> r.Finite? && r.value >= 0.0
    ensures r.Finite? ==> r.value * Square(m) == MomentOf(n, s2)
  {
    if m == 0.0 then NaN
    else
      QuotientSign(MomentOf(n, s2), Square(m));
      Finite(MomentOf(n, s2) / Square(m))
  }

  /** The statistics of a signal: its sums fed to the formulas above. */
  function SampleVariance(s: seq<real>): (v: Extended)
    requires |s| > 0
  {
    SingleSampleSums(s);
    SampleVarianceOf(|s|, SquaredDeviations(s))
  }

  function PopulationVariance(s: seq<real>): (v: real)
    requires |s| > 0
  {
    MomentOf(|s|, SquaredDeviations(s))
  }

  function ManualKurtosis(s: seq<real>): (k: Extended)
    requires |s| > 0
  {
    SingleSampleSums(s);
    ManualKurtosisOf(|s|, SquaredDeviations(s), FourthDeviations(s))
  }

  function PearsonKurtosis(s: seq<real>): (k: Extended)
    requires |s| > 0
  {
    PearsonKurtosisOf(|s|, SquaredDeviations(s), FourthDeviations(s))
  }

  function ManualCvSquared(s: seq<real>): (r: Extended)
    requires |s| > 0
  {
    SingleSampleSums(s);
    ManualCvSquaredOf(|s|, SquaredDeviations(s), Mean(s))
  }

  function LibraryCvSquared(s: seq<real>): (r: Extended)
    requires |s| > 0
  {
    LibraryCvSquaredOf(|s|, SquaredDeviations(s), Mean(s))
  }

  lemma QuotientSign(a: real, b: real)
    requires a >= 0.0 && b >= 0.0
    ensures b > 0.0 ==> a / b >= 0.0 && (a / b == 0.0 <==> a == 0.0)
  {
  }

  /** One sample is its own mean. */
  lemma SingleSampleMean(s: seq<real>)
    ensures |s| == 1 ==> Mean(s) == s[0]
  {
    if |s| == 1 {
      assert s[..0] == [];
      assert Sum(s) == s[0];
      assert Mean(s) * 1.0 == Sum(s);
    }
  }

  /** The two deviation sums of a signal meet what the formulas require. */
  lemma SingleSampleSums(s: seq<real>)
    requires |s| > 0
    ensures DeviationSums(|s|, SquaredDeviations(s), FourthDeviations(s))
    ensures |s| == 1 ==> SquaredDeviations(s) == 0.0
  {
    SingleSampleMean(s);
  }

  /** Every sample equals the mean. */
  predicate Flat(s: seq<real>)
    requires |s| > 0
  {
    forall i :: 0 <= i < |s| ==> s[i] == Mean(s)
  }

  /** When each statistic of a signal is NaN: the manual variance for a
      single sample only, both kurtoses exactly for a flat signal, the
      manual coefficient for a zero mean or a single sample, the library one
      for a zero mean only. Otherwise the variance is 0 exactly for a flat
      signal. */
  lemma NaNCases(s: seq<real>)
    requires |s| > 0
    ensures SampleVariance(s).NaN? <==> |s| == 1
    ensures SampleVariance(s).Finite? ==> (SampleVariance(s).value == 0.0 <==> Flat(s))
    ensures PopulationVariance(s) == 0.0 <==> Flat(s)
    ensures ManualKurtosis(s).NaN? <==> Flat(s)
    ensures PearsonKurtosis(s).NaN? <==> Flat(s)
    ensures ManualCvSquared(s).NaN? <==> Mean(s) == 0.0 || |s| == 1
    ensures LibraryCvSquared(s).NaN? <==> Mean(s) == 0.0
  {
    SingleSampleSums(s);
  }

  /** The manual mean of a constant signal is the constant. */
  lemma ConstantMean(n: nat, c: real)
    requires n > 0
    ensures Mean(Constant(n, c)) == c
  {
    SumConstant(n, c);
  }

  /** A constant signal of two or more samples has variance 0, a zero squared
      coefficient of variation when the constant is not 0 and NaN when it
      is, and NaN kurtosis both ways. */
  lemma ConstantStatistics(n: nat, c: real)
    requires n >= 2
    ensures SampleVariance(Constant(n, c)) == Finite(0.0)
    ensures PopulationVariance(Constant(n, c)) == 0.0
    ensures c != 0.0 ==> ManualCvSquared(Constant(n, c)) == Finite(0.0)
    ensures c == 0.0 ==> ManualCvSquared(Constant(n, c)) == NaN
    ensures ManualKurtosis(Constant(n, c)) == NaN
    ensures PearsonKurtosis(Constant(n, c)) == NaN
  {
    var s := Constant(n, c);
    ConstantMean(n, c);
    NaNCases(s);
    assert Flat(s);
    if c != 0.0 {
      var r := ManualCvSquared(s);
      assert r.value * Square(c) == 0.0;
      ZeroProduct(r.value, Square(c));
    }
  }

  lemma ZeroProduct(a: real, b: real)
    requires b != 0.0 && a * b == 0.0
    ensures a == 0.0
  {
  }

  /** Over the sums: the N - 1 variance is the N variance times N / (N - 1). */
  lemma VarianceScaledOf(n: int, s2: real)
    requires n >= 2 && s2 >= 0.0
    ensures SampleVarianceOf(n, s2).value == MomentOf(n, s2) * (n as real / (n - 1) as real)
  {
    RescaleQuotient(s2, n as real, (n - 1) as real);
  }

  lemma RescaleQuotient(a: real, n: real, d: real)
    requires n > 0.0 && d > 0.0
    ensures a / d == (a / n) * (n / d)
  {
  }

  /** Over the sums: the manual kurtosis is the Pearson one times
      ((N - 1) / N)^2, and the two are NaN together. */
  lemma KurtosisScaledOf(n: int, s2: real, s4: real)
    requires n >= 2 && DeviationSums(n, s2, s4)
    ensures ManualKurtosisOf(n, s2, s4).NaN? <==> PearsonKurtosisOf(n, s2, s4).NaN?
    ensures ManualKurtosisOf(n, s2, s4).Finite? <==> PearsonKurtosisOf(n, s2, s4).Finite?
    ensures ManualKurtosisOf(n, s2, s4).Finite? ==>
      ManualKurtosisOf(n, s2, s4).value
        == PearsonKurtosisOf(n, s2, s4).value * Square((n - 1) as real / n as real)
  {
    var mk, pk := ManualKurtosisOf(n, s2, s4), PearsonKurtosisOf(n, s2, s4);
    if mk.Finite? {
      var sv, pv := SampleVarianceOf(n, s2).value, MomentOf(n, s2);
      KurtosisAlgebra(MomentOf(n, s4), pv, sv, n as real, (n - 1) as real, mk.value, pk.value);
    }
  }

  lemma KurtosisAlgebra(m4: real, pv: real, sv: real, n: real, d: real, km: real, kp: real)
    requires pv != 0.0 && n > 0.0 && d > 0.0
    requires sv * d == pv * n
    requires km * Square(sv) == m4
    requires kp * Square(pv) == m4
    ensures km == kp * Square(d / n)
  {
    assert sv == pv * (n / d);
    NonZeroProduct(pv, n / d);
    QuotientOf(km, m4, Square(pv * (n / d)));
    QuotientOf(kp, m4, Square(pv));
    DivideByScaledSquare(m4, pv, n, d);
  }

  lemma NonZeroProduct(a: real, b: real)
    requires a != 0.0 && b != 0.0
    ensures a * b != 0.0
  {
  }

  lemma DivideByScaledSquare(m: real, p: real, n: real, d: real)
    requires p != 0.0 && n > 0.0 && d > 0.0
    ensures m / Square(p * (n / d)) == (m / Square(p)) * Square(d / n)
  {
    assert Square(n / d) * Square(d / n) == 1.0 by {
      assert (n / d) * (d / n) == 1.0;
      ScaledSquare(n / d, d / n);
      assert Square(1.0) == 1.0;
    }
    ScaledSquare(p, n / d);
    QuotientByProduct(m, Square(p), Square(n / d), Square(d / n));
  }

  lemma QuotientByProduct(m: real, a: real, b: real, c: real)
    requires a != 0.0 && b * c == 1.0
    ensures m / (a * b) == (m / a) * c
  {
    assert b != 0.0;
    assert c == 1.0 / b;
  }

  /** Over the sums: for two or more samples the two coefficients are NaN
      together (exactly when the mean is 0), and otherwise the manual
      square is the library one times N / (N - 1). */
  lemma CoefficientsAgreeOf(n: int, s2: real, m: real)
    requires n >= 2 && s2 >= 0.0
    ensures ManualCvSquaredOf(n, s2, m).NaN? <==> LibraryCvSquaredOf(n, s2, m).NaN?
    ensures ManualCvSquaredOf(n, s2, m).Finite? ==>
      ManualCvSquaredOf(n, s2, m).value
        == LibraryCvSquaredOf(n, s2, m).value * (n as real / (n - 1) as real)
  {
    var mc, lc := ManualCvSquaredOf(n, s2, m), LibraryCvSquaredOf(n, s2, m);
    if mc.Finite? {
      VarianceScaledOf(n, s2);
      QuotientOf(mc.value, SampleVarianceOf(n, s2).value, Square(m));
      QuotientOf(lc.value, MomentOf(n, s2), Square(m));
      RescaleQuotient2(MomentOf(n, s2), n as real / (n - 1) as real, Square(m));
    }
  }

  lemma RescaleQuotient2(a: real, k: real, b: real)
    requires b != 0.0
    ensures (a * k) / b == (a / b) * k
  {
  }

  /** The manual variance of a signal is its library variance times
      N / (N - 1). */
  lemma SampleVarianceScaled(s: seq<real>)
    requires |s| >= 2
    ensures SampleVariance(s).value == PopulationVariance(s) * (|s| as real / (|s| - 1) as real)
  {
    VarianceScaledOf(|s|, SquaredDeviations(s));
  }

  /** The manual kurtosis of a signal is its Pearson kurtosis times
      ((N - 1) / N)^2, and the two are NaN for the same signals. */
  lemma KurtosisScaled(s: seq<real>)
    requires |s| >= 2
    ensures ManualKurtosis(s).NaN? <==> PearsonKurtosis(s).NaN?
    ensures ManualKurtosis(s).Finite? <==> PearsonKurtosis(s).Finite?
    ensures ManualKurtosis(s).Finite? ==>
      ManualKurtosis(s).value
        == PearsonKurtosis(s).value * Square((|s| - 1) as real / |s| as real)
  {
    SingleSampleSums(s);
    KurtosisScaledOf(|s|, SquaredDeviations(s), FourthDeviations(s));
  }

  /** The manual and library coefficients of variation of a signal of two or
      more samples are NaN together, and otherwise the manual square is the
      library one times N / (N - 1). */
  lemma CoefficientsAgree(s: seq<real>)
    requires |s| >= 2
    ensures ManualCvSquared(s).NaN? <==> LibraryCvSquared(s).NaN?
    ensures ManualCvSquared(s).Finite? ==>
      ManualCvSquared(s).value == LibraryCvSquared(s).value * (|s| as real / (|s| - 1) as real)
  {
    CoefficientsAgreeOf(|s|, SquaredDeviations(s), Mean(s));
  }
}
