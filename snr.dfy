/** calcular_snr (0Gaus.py:49-52): the power of the first argument over the
    power of the difference. The 10*log10 on top is not modelled; the ratio
    it is taken of is. */
module Snr {
  import opened Numeric
  import opened Noise

  /** np.mean(x**2). */
  function Power(s: seq<real>): (p: real)
    requires |s| > 0
    ensures p >= 0.0
    ensures p == 0.0 <==> forall i :: 0 <= i < |s| ==> s[i] == 0.0
  {
    var sq := Squares(s);
    SumNonNegative(sq);
    Mean(sq)
  }

  /** potencia_ruido: the power of senal_con_ruido - senal. */
  function NoisePower(clean: seq<real>, noisy: seq<real>): (p: real)
    requires |clean| == |noisy| > 0
    ensures p >= 0.0
    ensures p == 0.0 <==> noisy == clean
  {
    var d := Difference(noisy, clean);
    assert (forall i :: 0 <= i < |d| ==> d[i] == 0.0) ==> noisy == clean by {
      if forall i :: 0 <= i < |d| ==> d[i] == 0.0 {
        forall i | 0 <= i < |d| ensures noisy[i] == clean[i] {
          assert d[i] == noisy[i] - clean[i];
        }
      }
    }
    Power(d)
  }

  /** potencia_senal / potencia_ruido, the argument of the logarithm. The
      numerator is the power of the clean signal. */
  function SnrRatio(clean: seq<real>, noisy: seq<real>): (r: Extended)
    requires |clean| == |noisy| > 0
    ensures r.Finite? <==> noisy != clean
    ensures r.Finite? ==> r.value >= 0.0 && r.value * NoisePower(clean, noisy) == Power(clean)
    ensures r.PosInf? <==> noisy == clean && Power(clean) > 0.0
    ensures r.NaN? <==> noisy == clean && Power(clean) == 0.0
    ensures !r.NegInf?
  {
    var ps := Power(clean);
    var pn := NoisePower(clean, noisy);
    var r := Divide(ps, pn);
    assert r.Finite? ==> r.value == ps / pn;
    r
  }

  lemma ProductPositive(a: real, b: real)
    requires a > 0.0 && b > 0.0
    ensures a * b > 0.0
  {
  }

  lemma QuotientPositive(a: real, b: real)
    requires a > 0.0 && b > 0.0
    ensures a / b > 0.0
  {
  }

  lemma MeanScaled(a: seq<real>, b: seq<real>, c: real)
    requires |a| == |b| > 0 && Sum(a) == Sum(b) * c
    ensures Mean(a) == c * Mean(b)
  {
    QuotientScaled(Sum(a), Sum(b), c, |a| as real);
  }

  lemma QuotientScaled(x: real, y: real, c: real, n: real)
    requires n > 0.0 && x == y * c
    ensures x / n == c * (y / n)
  {
  }

  /** Power(k * e) = k^2 * Power(e). */
  lemma ScaledPower(k: real, e: seq<real>)
    requires |e| > 0
    ensures Power(Scale(k, e)) == Square(k) * Power(e)
  {
    SquaresScaled(k, e);
    MeanScaled(Squares(Scale(k, e)), Squares(e), Square(k));
  }

  lemma SquaresScaled(k: real, e: seq<real>)
    ensures Sum(Squares(Scale(k, e))) == Sum(Squares(e)) * Square(k)
  {
    EntriesScaled(k, e);
    SumScaled(Squares(Scale(k, e)), Squares(e), Square(k));
  }

  lemma EntriesScaled(k: real, e: seq<real>)
    ensures forall i :: 0 <= i < |e| ==> Squares(Scale(k, e))[i] == Squares(e)[i] * Square(k)
  {
    var scaled := Scale(k, e);
    forall i | 0 <= i < |e| ensures Squares(scaled)[i] == Squares(e)[i] * Square(k) {
      ScaledEntry(Squares(scaled)[i], Squares(e)[i], k, e[i], scaled[i]);
    }
  }

  lemma ScaledEntry(a: real, b: real, k: real, x: real, y: real)
    requires y == k * x && a == Square(y) && b == Square(x)
    ensures a == b * Square(k)
  {
    ScaledSquare(k, x);
    Commute(Square(k), b);
  }

  lemma Commute(x: real, y: real)
    ensures x * y == y * x
  {
  }

  /** For an additive variant the noise power is the power of the added term. */
  lemma AddedNoisePower(clean: seq<real>, noise: seq<real>)
    requires |clean| == |noise| > 0
    ensures NoisePower(clean, AddNoise(clean, noise)) == Power(noise)
  {
  }

  lemma RatioDecreasing(ps: real, p1: real, p2: real)
    requires 0.0 < p1 < p2 && ps >= 0.0
    ensures ps / p2 <= ps / p1
    ensures ps > 0.0 ==> ps / p2 < ps / p1
  {
    assert ps / p1 - ps / p2 == ps * (p2 - p1) / (p1 * p2);
    ProductPositive(p1, p2);
    if ps > 0.0 {
      ProductPositive(ps, p2 - p1);
      QuotientPositive(ps * (p2 - p1), p1 * p2);
    }
  }

  /** Of two additive variants of one clean signal, the one whose added term
      has more power never has the larger ratio, and has the smaller one when
      the clean signal has power. With ScaledPower this orders the Gaussian
      variants by their scale. */
  lemma NoisierVariantLowerRatio(clean: seq<real>, e1: seq<real>, e2: seq<real>)
    requires |clean| == |e1| == |e2| > 0
    requires 0.0 < Power(e1) < Power(e2)
    ensures SnrRatio(clean, AddNoise(clean, e1)).Finite?
    ensures SnrRatio(clean, AddNoise(clean, e2)).Finite?
    ensures SnrRatio(clean, AddNoise(clean, e2)).value <= SnrRatio(clean, AddNoise(clean, e1)).value
    ensures Power(clean) > 0.0 ==>
      SnrRatio(clean, AddNoise(clean, e2)).value < SnrRatio(clean, AddNoise(clean, e1)).value
  {
    AddedNoisePower(clean, e1);
    AddedNoisePower(clean, e2);
    var ps, p1, p2 := Power(clean), Power(e1), Power(e2);
    var r1, r2 := SnrRatio(clean, AddNoise(clean, e1)), SnrRatio(clean, AddNoise(clean, e2));
    QuotientOf(r1.value, ps, p1);
    QuotientOf(r2.value, ps, p2);
    RatioDecreasing(ps, p1, p2);
  }

  /** A sum whose terms are each 0 or c is c times the number of non-zero terms. */
  lemma SumOfIndicators(s: seq<real>, c: real)
    requires c != 0.0
    requires forall i :: 0 <= i < |s| ==> s[i] == 0.0 || s[i] == c
    ensures Sum(s) == c * |set i | 0 <= i < |s| && s[i] != 0.0| as real
  {
    var ones := Indicator(s);
    var count := |set i | 0 <= i < |s| && s[i] != 0.0|;
    assert Sum(s) == SumInt(ones) as real * c by {
      IndicatorScaled(s, c);
      SumScaledCounts(s, ones, c);
    }
    assert SumInt(ones) == count by {
      IndicatorCount(s);
    }
    CountTimes(Sum(s), SumInt(ones), count, c);
  }

  /** 1 where the term is non-zero, 0 elsewhere. */
  function Indicator(s: seq<real>): (r: seq<int>)
    ensures |r| == |s|
    ensures forall i :: 0 <= i < |s| ==> (r[i] == 1 <==> s[i] != 0.0) && (r[i] == 0 <==> s[i] == 0.0)
  {
    seq(|s|, i requires 0 <= i < |s| => if s[i] != 0.0 then 1 else 0)
  }

  lemma IndicatorScaled(s: seq<real>, c: real)
    requires forall i :: 0 <= i < |s| ==> s[i] == 0.0 || s[i] == c
    ensures forall i :: 0 <= i < |s| ==> s[i] == Indicator(s)[i] as real * c
  {
    var ones := Indicator(s);
    forall i | 0 <= i < |s| ensures s[i] == ones[i] as real * c {
      if s[i] != 0.0 {
        assert ones[i] == 1;
      } else {
        assert ones[i] == 0;
      }
    }
  }

  lemma IndicatorCount(s: seq<real>)
    ensures SumInt(Indicator(s)) == |set i | 0 <= i < |s| && s[i] != 0.0|
  {
    var ones := Indicator(s);
    CountOnes(ones);
    assert (set i | 0 <= i < |ones| && ones[i] == 1) == set i | 0 <= i < |s| && s[i] != 0.0;
  }

  lemma CountTimes(total: real, n: int, m: int, c: real)
    requires total == n as real * c && n == m
    ensures total == c * m as real
  {
  }

  /** A sum of zeros and ones counts the ones. */
  lemma {:induction false} CountOnes(ones: seq<int>)
    requires forall i :: 0 <= i < |ones| ==> ones[i] == 0 || ones[i] == 1
    ensures SumInt(ones) == |set i | 0 <= i < |ones| && ones[i] == 1|
  {
    if |ones| > 0 {
      var last := |ones| - 1;
      var p := ones[..last];
      CountOnes(p);
      var S := set i | 0 <= i < |ones| && ones[i] == 1;
      var P := set i | 0 <= i < |p| && p[i] == 1;
      if ones[last] == 1 {
        assert S == P + {last};
        assert last !in P;
      } else {
        assert S == P;
      }
    }
  }

  /** The squared differences of the impulsive variant add up to 1.5^2 per
      distinct drawn position. */
  lemma ImpulsiveSquares(clean: seq<real>, positions: seq<int>, signs: seq<int>)
    requires |positions| == |signs| && InRange(positions, |clean|) && Signs(signs)
    ensures Sum(Squares(Difference(Impulsive(clean, positions, signs), clean)))
         == ImpulseAmplitude * ImpulseAmplitude * |PositionSet(positions)| as real
  {
    var r := Impulsive(clean, positions, signs);
    var d := Difference(r, clean);
    var sq := Squares(d);
    var c := ImpulseAmplitude * ImpulseAmplitude;
    ImpulseDeltas(clean, positions, signs);
    forall i | 0 <= i < |sq| ensures (sq[i] == 0.0 || sq[i] == c) && (sq[i] != 0.0 <==> r[i] != clean[i]) {
      assert d[i] == r[i] - clean[i];
      assert d[i] in {0.0, ImpulseAmplitude, -ImpulseAmplitude};
    }
    SumOfIndicators(sq, c);
    assert (set i | 0 <= i < |sq| && sq[i] != 0.0) == ChangedIndices(r, clean);
  }

  /** The impulsive noise power is 1.5^2 per distinct drawn position, spread
      over the N samples, so at most 1.5^2 * num_impulsos / N. */
  lemma ImpulsiveNoisePower(clean: seq<real>, positions: seq<int>, signs: seq<int>)
    requires |clean| > 0
    requires |positions| == |signs| && InRange(positions, |clean|) && Signs(signs)
    ensures NoisePower(clean, Impulsive(clean, positions, signs))
         == ImpulseAmplitude * ImpulseAmplitude * |PositionSet(positions)| as real / |clean| as real
    ensures NoisePower(clean, Impulsive(clean, positions, signs))
         <= ImpulseAmplitude * ImpulseAmplitude * |positions| as real / |clean| as real
  {
    var noisy := Impulsive(clean, positions, signs);
    var sq := Squares(Difference(noisy, clean));
    var c := ImpulseAmplitude * ImpulseAmplitude;
    var n := |clean| as real;
    var u := |PositionSet(positions)| as real;
    assert Sum(sq) == c * u by {
      ImpulsiveSquares(clean, positions, signs);
    }
    assert NoisePower(clean, noisy) == Sum(sq) / n;
    assert u <= |positions| as real by {
      PositionSetSize(positions);
    }
    FractionMonotone(c, u, |positions| as real, n);
  }

  lemma FractionMonotone(c: real, u: real, k: real, n: real)
    requires c >= 0.0 && n > 0.0 && u <= k
    ensures c * u / n <= c * k / n
  {
    assert c * k / n - c * u / n == c * (k - u) / n;
  }
}
