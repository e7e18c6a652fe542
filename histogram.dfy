/** The hand-written equal-width histogram of 0pred.py:57-72: twenty bins
    between the smallest and the largest sample, each sample truncated to a
    bin index with the index equal to the bin count put in the last bin,
    counts turned into densities, and the centre of every bin. */
module Histogram {
  import opened Numeric

  /** numero_bins. */
  const NumBins: int := 20

  /** min(ecg). */
  function SeqMin(s: seq<real>): (m: real)
    requires |s| > 0
    ensures m in s && forall i :: 0 <= i < |s| ==> m <= s[i]
  {
    if |s| == 1 then s[0]
    else
      var rest := SeqMin(s[..|s| - 1]);
      if s[|s| - 1] < rest then s[|s| - 1] else rest
  }

  /** max(ecg). */
  function SeqMax(s: seq<real>): (m: real)
    requires |s| > 0
    ensures m in s && forall i :: 0 <= i < |s| ==> s[i] <= m
  {
    if |s| == 1 then s[0]
    else
      var rest := SeqMax(s[..|s| - 1]);
      if s[|s| - 1] > rest then s[|s| - 1] else rest
  }

  /** bins_manual: lo + i * w for i in 0 .. bins. */
  function Edges(lo: real, w: real, bins: nat): (e: seq<real>)
    ensures |e| == bins + 1
    ensures forall i :: 0 <= i <= bins ==> e[i] == lo + i as real * w
    ensures e[0] == lo && e[bins] == lo + bins as real * w
    ensures forall i :: 0 <= i < bins ==> e[i + 1] - e[i] == w
  {
    seq(bins + 1, i requires 0 <= i <= bins => lo + i as real * w)
  }

  /** A sample lies in [lo, lo + bins * w]. */
  predicate InSpan(v: real, lo: real, w: real, bins: int)
  {
    lo <= v <= lo + bins as real * w
  }

  /** indice = int((valor - valor_min) / ancho_bin), moved from bins to
      bins - 1. Every sample of the span gets a bin; it lies between that
      bin's edges, below the upper edge except for the top of the span,
      which goes to the last bin. */
  function BinIndex(v: real, lo: real, w: real, bins: int): (k: int)
    requires bins > 0 && w > 0.0 && InSpan(v, lo, w, bins)
    ensures 0 <= k < bins
    ensures lo + k as real * w <= v
    ensures v < lo + k as real * w + w || (k == bins - 1 && v == lo + bins as real * w)
    ensures v == lo + bins as real * w ==> k == bins - 1
  {
    var x := (v - lo) / w;
    var t := Truncate(x);
    TruncatedPosition(v, lo, w, bins, x, t);
    Clamped(v, lo, w, bins, t)
  }

  /** The move of the index bins to bins - 1. */
  function Clamped(v: real, lo: real, w: real, bins: int, t: int): (k: int)
    requires bins > 0 && w > 0.0 && 0 <= t <= bins
    requires lo + t as real * w <= v
    requires t < bins ==> v < lo + t as real * w + w
    requires t == bins ==> v == lo + bins as real * w
    requires v == lo + bins as real * w ==> t == bins
    ensures 0 <= k < bins
    ensures lo + k as real * w <= v
    ensures v < lo + k as real * w + w || (k == bins - 1 && v == lo + bins as real * w)
    ensures v == lo + bins as real * w ==> k == bins - 1
  {
    if t == bins then
      assert (t - 1) as real * w + w == t as real * w by {
        StepDown(t as real, w);
      }
      t - 1
    else t
  }

  lemma StepDown(a: real, w: real)
    ensures (a - 1.0) * w + w == a * w
  {
  }

  /** Where int((v - lo) / w) puts v between the edges. */
  lemma TruncatedPosition(v: real, lo: real, w: real, bins: int, x: real, t: int)
    requires bins > 0 && w > 0.0 && InSpan(v, lo, w, bins)
    requires x == (v - lo) / w
    requires t as real <= x < t as real + 1.0 && 0 <= t
    ensures t <= bins
    ensures lo + t as real * w <= v
    ensures t < bins ==> v < lo + t as real * w + w
    ensures t == bins ==> v == lo + bins as real * w
    ensures v == lo + bins as real * w ==> t == bins
  {
    assert x * w == v - lo by {
      QuotientTimes(v - lo, w);
    }
    PositionBounds(v - lo, w, bins as real, x, t as real);
  }

  lemma QuotientTimes(d: real, w: real)
    requires w > 0.0
    ensures d / w * w == d
  {
  }

  /** The same over reals: d = v - lo, b = bins, tr = the truncation of x. */
  lemma PositionBounds(d: real, w: real, b: real, x: real, tr: real)
    requires w > 0.0 && 0.0 <= d <= b * w && x * w == d
    requires tr <= x < tr + 1.0
    ensures tr <= b
    ensures tr * w <= d
    ensures tr < b ==> d < tr * w + w
    ensures tr == b ==> d == b * w
    ensures d == b * w ==> b < tr + 1.0
  {
    assert x <= b by {
      if x > b {
        ScaleStrict(b, x, w);
      }
    }
    ScaleLess(tr, x, w);
    assert d < tr * w + w by {
      ScaleStrict(x, tr + 1.0, w);
      StepDown(tr + 1.0, w);
    }
    if d == b * w {
      CancelFactor(x, b, w);
    }
  }

  lemma ScaleLess(a: real, b: real, w: real)
    requires w > 0.0 && a <= b
    ensures a * w <= b * w
  {
  }

  lemma ScaleStrict(a: real, b: real, w: real)
    requires w > 0.0 && a < b
    ensures a * w < b * w
  {
  }

  lemma CancelFactor(a: real, b: real, w: real)
    requires w != 0.0 && a * w == b * w
    ensures a == b
  {
  }

  /** The bin of every sample. */
  function BinIndices(vals: seq<real>, lo: real, w: real, bins: int): (ks: seq<int>)
    requires bins > 0 && w > 0.0
    requires forall i :: 0 <= i < |vals| ==> InSpan(vals[i], lo, w, bins)
    ensures |ks| == |vals|
    ensures forall i :: 0 <= i < |vals| ==> 0 <= ks[i] < bins && ks[i] == BinIndex(vals[i], lo, w, bins)
  {
    seq(|vals|, i requires 0 <= i < |vals| => BinIndex(vals[i], lo, w, bins))
  }

  predicate Bounded(ks: seq<int>, bins: int)
  {
    forall i :: 0 <= i < |ks| ==> 0 <= ks[i] < bins
  }

  /** hist_manual = [0] * bins, then hist_manual[k] += 1 for each index k. */
  function Tally(ks: seq<int>, bins: nat): (c: seq<int>)
    requires Bounded(ks, bins)
    ensures |c| == bins
  {
    if |ks| == 0 then seq(bins, _ => 0)
    else
      var prev := Tally(ks[..|ks| - 1], bins);
      var k := ks[|ks| - 1];
      prev[k := prev[k] + 1]
  }

  /** The positions holding index k. */
  function Holding(ks: seq<int>, k: int): set<int>
  {
    set i | 0 <= i < |ks| && ks[i] == k
  }

  /** Every count is the number of indices naming its bin. */
  lemma {:induction false} TallyCountsOccurrences(ks: seq<int>, bins: nat)
    requires Bounded(ks, bins)
    ensures forall k :: 0 <= k < bins ==> Tally(ks, bins)[k] == |Holding(ks, k)|
  {
    if |ks| > 0 {
      var n := |ks| - 1;
      var p := ks[..n];
      TallyCountsOccurrences(p, bins);
      forall k | 0 <= k < bins
        ensures Tally(ks, bins)[k] == |Holding(ks, k)|
      {
        var now, before := Holding(ks, k), Holding(p, k);
        if k == ks[n] {
          assert now == before + {n};
          assert n !in before;
        } else {
          assert now == before;
        }
      }
    }
  }

  /** The counts add up to the number of indices. */
  lemma {:induction false} TallyTotal(ks: seq<int>, bins: nat)
    requires Bounded(ks, bins)
    ensures SumInt(Tally(ks, bins)) == |ks|
  {
    if |ks| == 0 {
      ZeroCounts(bins);
    } else {
      var n := |ks| - 1;
      TallyTotal(ks[..n], bins);
      SumIntIncrement(Tally(ks[..n], bins), ks[n]);
    }
  }

  lemma {:induction false} ZeroCounts(bins: nat)
    ensures SumInt(seq(bins, _ => 0)) == 0
  {
    if bins > 0 {
      assert seq(bins, _ => 0)[..bins - 1] == seq(bins - 1, _ => 0);
      ZeroCounts(bins - 1);
    }
  }

  /** Adding one to an entry adds one to the total. */
  lemma {:induction false} SumIntIncrement(c: seq<int>, k: int)
    requires 0 <= k < |c|
    ensures SumInt(c[k := c[k] + 1]) == SumInt(c) + 1
  {
    var d := c[k := c[k] + 1];
    var n := |c| - 1;
    if k < n {
      assert d[..n] == c[..n][k := c[k] + 1];
      SumIntIncrement(c[..n], k);
    } else {
      assert d[..n] == c[..n];
    }
  }

  /** The counts of the samples. */
  function Counts(vals: seq<real>, lo: real, w: real, bins: nat): (c: seq<int>)
    requires bins > 0 && w > 0.0
    requires forall i :: 0 <= i < |vals| ==> InSpan(vals[i], lo, w, bins)
  {
    Tally(BinIndices(vals, lo, w, bins), bins)
  }

  /** Count k is the number of samples lying in bin k, and the counts add
      up to the number of samples. */
  lemma CountsBySample(vals: seq<real>, lo: real, w: real, bins: nat)
    requires bins > 0 && w > 0.0
    requires forall i :: 0 <= i < |vals| ==> InSpan(vals[i], lo, w, bins)
    ensures |Counts(vals, lo, w, bins)| == bins
    ensures forall k :: 0 <= k < bins ==>
      Counts(vals, lo, w, bins)[k] == |set i | 0 <= i < |vals| && BinIndex(vals[i], lo, w, bins) == k|
    ensures SumInt(Counts(vals, lo, w, bins)) == |vals|
  {
    var ks := BinIndices(vals, lo, w, bins);
    TallyCountsOccurrences(ks, bins);
    TallyTotal(ks, bins);
    forall k | 0 <= k < bins
      ensures Holding(ks, k) == set i | 0 <= i < |vals| && BinIndex(vals[i], lo, w, bins) == k
    {
    }
  }

  /** The counting loop of 0pred.py:63-68 on the list hist_manual. */
  method CountBins(vals: seq<real>, lo: real, w: real, bins: nat) returns (hist: seq<int>)
    requires bins > 0 && w > 0.0
    requires forall i :: 0 <= i < |vals| ==> InSpan(vals[i], lo, w, bins)
    ensures hist == Counts(vals, lo, w, bins)
  {
    ghost var ks := BinIndices(vals, lo, w, bins);
    var counts := new int[bins](_ => 0);
    assert ks[..0] == [];
    for j := 0 to |vals|
      invariant counts.Length == bins
      invariant counts[..] == Tally(ks[..j], bins)
    {
      var k := BinIndex(vals[j], lo, w, bins);
      assert ks[..j + 1][..j] == ks[..j] && ks[j] == k;
      counts[k] := counts[k] + 1;
    }
    assert ks[..|vals|] == ks;
    hist := counts[..];
  }

  /** hist_manual = [h / (N * ancho_bin) for h in hist_manual]. */
  function Densities(hist: seq<int>, n: int, w: real): (d: seq<real>)
    requires n > 0 && w > 0.0
    ensures |d| == |hist|
    ensures forall i :: 0 <= i < |hist| ==> d[i] * (n as real * w) == hist[i] as real
  {
    seq(|hist|, i requires 0 <= i < |hist| => hist[i] as real / (n as real * w))
  }

  /** The densities times the bin width add up to 1: the histogram is a
      probability density. */
  lemma DensityMass(vals: seq<real>, lo: real, w: real, bins: nat)
    requires |vals| > 0 && bins > 0 && w > 0.0
    requires forall i :: 0 <= i < |vals| ==> InSpan(vals[i], lo, w, bins)
    ensures Sum(Scale(w, Densities(Counts(vals, lo, w, bins), |vals|, w))) == 1.0
  {
    CountsBySample(vals, lo, w, bins);
    DensitiesMass(Counts(vals, lo, w, bins), |vals|, w);
  }

  /** The same for any counts that add up to n. */
  lemma DensitiesMass(c: seq<int>, n: int, w: real)
    requires n > 0 && w > 0.0 && SumInt(c) == n
    ensures Sum(Scale(w, Densities(c, n, w))) == 1.0
  {
    var k := 1.0 / n as real;
    WidthTimesDensities(c, n, w);
    SumScaledCounts(Scale(w, Densities(c, n, w)), c, k);
    Reciprocal(n as real);
  }

  lemma Reciprocal(n: real)
    requires n > 0.0
    ensures n * (1.0 / n) == 1.0
  {
  }

  /** Width times density is the count over n. */
  lemma WidthTimesDensities(c: seq<int>, n: int, w: real)
    requires n > 0 && w > 0.0
    ensures forall i :: 0 <= i < |c| ==> Scale(w, Densities(c, n, w))[i] == c[i] as real * (1.0 / n as real)
  {
    var d := Densities(c, n, w);
    forall i | 0 <= i < |c| ensures Scale(w, d)[i] == c[i] as real * (1.0 / n as real) {
      DensityTimesWidth(d[i], c[i] as real, n as real, w);
    }
  }

  lemma DensityTimesWidth(d: real, h: real, n: real, w: real)
    requires n > 0.0 && w > 0.0 && d * (n * w) == h
    ensures w * d == h * (1.0 / n)
  {
    assert w * d * n == h;
  }

  /** centros_manual: the midpoints of consecutive edges. */
  function Centres(e: seq<real>): (c: seq<real>)
    requires |e| > 0
    ensures |c| == |e| - 1
  {
    seq(|e| - 1, i requires 0 <= i < |e| - 1 => (e[i] + e[i + 1]) / 2.0)
  }

  /** Each centre lies halfway into its bin, strictly between its edges. */
  lemma CentresInside(lo: real, w: real, bins: nat)
    requires w > 0.0
    ensures forall i :: 0 <= i < bins ==>
      Centres(Edges(lo, w, bins))[i] == lo + (i as real + 0.5) * w
    ensures forall i :: 0 <= i < bins ==>
      Edges(lo, w, bins)[i] < Centres(Edges(lo, w, bins))[i] < Edges(lo, w, bins)[i + 1]
  {
    var e := Edges(lo, w, bins);
    forall i | 0 <= i < bins
      ensures Centres(e)[i] == lo + (i as real + 0.5) * w
      ensures e[i] < Centres(e)[i] < e[i + 1]
    {
      assert e[i] == lo + i as real * w;
      assert e[i + 1] == lo + (i + 1) as real * w;
      assert (i + 1) as real * w == i as real * w + w;
      assert (i as real + 0.5) * w == i as real * w + 0.5 * w;
    }
  }

  /** What the histogram block of the script produces, or why it stops: min
      of an empty signal raises, and a flat signal has width 0, which makes
      the first index int(nan) and raises. */
  datatype Outcome =
    | Bins(edges: seq<real>, width: real, counts: seq<int>, density: seq<real>, centres: seq<real>)
    | EmptySignal
    | ZeroWidth

  /** 0pred.py:57-72 on the samples ecg. */
  method ManualHistogram(ecg: seq<real>) returns (r: Outcome)
    ensures r.EmptySignal? <==> |ecg| == 0
    ensures r.ZeroWidth? <==> |ecg| > 0 && SeqMin(ecg) == SeqMax(ecg)
    ensures r.Bins? ==>
      var lo, hi := SeqMin(ecg), SeqMax(ecg);
      && r.width == (hi - lo) / NumBins as real && r.width > 0.0
      && r.edges == Edges(lo, r.width, NumBins)
      && r.edges[0] == lo && r.edges[NumBins] == hi
      && (forall i :: 0 <= i < |ecg| ==> InSpan(ecg[i], lo, r.width, NumBins))
      && r.counts == Counts(ecg, lo, r.width, NumBins)
      && r.density == Densities(r.counts, |ecg|, r.width)
      && r.centres == Centres(r.edges)
  {
    if |ecg| == 0 {
      return EmptySignal;
    }
    var lo, hi := SeqMin(ecg), SeqMax(ecg);
    var w := (hi - lo) / NumBins as real;
    if w == 0.0 {
      return ZeroWidth;
    }
    assert lo + NumBins as real * w == hi && w > 0.0 by {
      assert lo <= hi by { assert lo <= ecg[0] <= hi; }
      WidthOfSpan(lo, hi, NumBins as real);
    }
    assert forall i :: 0 <= i < |ecg| ==> InSpan(ecg[i], lo, w, NumBins) by {
      forall i | 0 <= i < |ecg| ensures InSpan(ecg[i], lo, w, NumBins) {
        assert lo <= ecg[i] <= hi;
      }
    }
    var edges := Edges(lo, w, NumBins);
    assert edges[0] == lo && edges[NumBins] == hi by {
      assert edges[0] == lo + 0 as real * w;
      assert edges[NumBins] == lo + NumBins as real * w;
    }
    var counts := CountBins(ecg, lo, w, NumBins);
    r := Bins(edges, w, counts, Densities(counts, |ecg|, w), Centres(edges));
  }

  lemma WidthOfSpan(lo: real, hi: real, b: real)
    requires b > 0.0 && lo <= hi && (hi - lo) / b != 0.0
    ensures lo + b * ((hi - lo) / b) == hi && (hi - lo) / b > 0.0
  {
  }
}
