/** Synthetic ECG assembly (0Gaus.py and 0pred.py, lines 10-44 of each):
    a zeroed buffer of n samples gets a QRS template added at every R-R step,
    then P and T windows at fixed offsets from each step, then a baseline
    sinusoid and a random term. Window shapes, sine values and random draws
    are inputs; the loops and their bounds checks are the model. */
module Synthesis {
  import opened Numeric

  /** The integer parameters the scripts derive with int() from the sampling
      rate, the duration and the heart rate. */
  datatype Params = Params(n: nat, rr: int, qrsLen: int, pOffset: int, pLen: int, tOffset: int, tLen: int)

  /** The given shapes of one beat: the peak-normalised QRS template, the
      unscaled Hann windows of the P and T waves, and where they go relative
      to the start of the beat. */
  datatype Beat = Beat(rr: int, qrs: seq<real>, pOffset: int, pWindow: seq<real>, tOffset: int, tWindow: seq<real>)

  const PAmplitude: real := 0.2
  const TAmplitude: real := 0.3
  const BaselineAmplitude: real := 0.05
  const JitterAmplitude: real := 0.02

  /** Ordering of a quotient of reals against an integer bound. */
  lemma QuotientBounds(q: real, a: real, b: real)
    requires b > 0.0 && q * b <= a < q * b + b
    ensures q <= a / b < q + 1.0
  {
    assert a / b - q == (a - q * b) / b;
  }

  /** int(a / b) for naturals, computed in exact reals, is integer division. */
  lemma TruncateQuotient(a: nat, b: nat)
    requires b > 0
    ensures Truncate(a as real / b as real) == a / b
  {
    var q := a / b;
    assert q * b <= a < q * b + b;
    assert (q * b) as real == q as real * b as real;
    QuotientBounds(q as real, a as real, b as real);
  }

  lemma RateProduct(f: real, h: real)
    requires h > 0.0
    ensures f * (60.0 / h) == (60.0 * f) / h
  {
  }

  /** int(c * fs) for a constant c = num / den is (num * fs) / den. */
  lemma TruncateFraction(fs: nat, c: real, num: nat, den: nat)
    requires den > 0 && c * den as real == num as real
    ensures Truncate(c * fs as real) == num * fs / den
  {
    assert c * fs as real == (num * fs) as real / den as real by {
      FractionProduct(c, fs as real, num as real, den as real);
    }
    TruncateQuotient(num * fs, den);
  }

  lemma FractionProduct(c: real, f: real, num: real, den: real)
    requires den > 0.0 && c * den == num
    ensures c * f == (num * f) / den
  {
  }

  /** int(fs * (60 / hr)) is (60 * fs) / hr. */
  lemma TruncateRate(fs: nat, heartRate: nat)
    requires heartRate > 0
    ensures Truncate(fs as real * (60.0 / heartRate as real)) == 60 * fs / heartRate
  {
    RateProduct(fs as real, heartRate as real);
    TruncateQuotient(60 * fs, heartRate);
  }

  /** An integer quotient of naturals is positive exactly when the dividend
      reaches the divisor; otherwise int() gives 0. */
  lemma QuotientPositive(a: nat, b: nat)
    requires b > 0
    ensures a / b > 0 <==> a >= b
  {
    var q, r := a / b, a % b;
    assert a == q * b + r && 0 <= r < b;
    ProductSign(q, b);
  }

  lemma ProductSign(q: int, b: int)
    requires b > 0
    ensures q >= 1 ==> q * b >= b
    ensures q <= 0 ==> q * b <= 0
  {
    if q >= 1 {
      assert q * b == (q - 1) * b + b;
    }
  }

  /** intervalo_rr = int(fs * (60 / hr)) (line 20): 0 when 60 * fs < hr,
      and range() then refuses the step. */
  function RrInterval(fs: nat, heartRate: nat): (rr: int)
    requires heartRate > 0
    ensures rr == 60 * fs / heartRate
    ensures rr > 0 <==> 60 * fs >= heartRate
  {
    TruncateRate(fs, heartRate);
    QuotientPositive(60 * fs, heartRate);
    Truncate(fs as real * (60.0 / heartRate as real))
  }

  /** The parameters of lines 12, 20-22 and 35-40, with exact reals in place
      of float64 products. */
  function Derive(fs: nat, duration: nat, heartRate: nat): (p: Params)
    requires heartRate > 0
    ensures p.n == fs * duration
    ensures p.rr == 60 * fs / heartRate
    ensures p.rr > 0 <==> 60 * fs >= heartRate
    ensures p.qrsLen == 24 * fs / 100
    ensures p.pOffset == 16 * fs / 100 && p.pLen == 5 * fs / 100
    ensures p.tOffset == 24 * fs / 100 && p.tLen == fs / 10
  {
    var f := fs as real;
    var rr := RrInterval(fs, heartRate);
    var qrsLen := Truncate(0.03 * f * 8.0);
    assert qrsLen == 24 * fs / 100 by {
      assert 0.03 * f * 8.0 == 0.24 * f;
      TruncateFraction(fs, 0.24, 24, 100);
    }
    var pOffset := Truncate(0.16 * f);
    assert pOffset == 16 * fs / 100 by {
      TruncateFraction(fs, 0.16, 16, 100);
    }
    var pLen := Truncate(0.05 * f);
    assert pLen == 5 * fs / 100 by {
      TruncateFraction(fs, 0.05, 5, 100);
    }
    var tOffset := Truncate(0.24 * f);
    assert tOffset == 24 * fs / 100 by {
      TruncateFraction(fs, 0.24, 24, 100);
    }
    var tLen := Truncate(0.1 * f);
    assert tLen == fs / 10 by {
      TruncateFraction(fs, 0.1, 1, 10);
    }
    Params(fs * duration, rr, qrsLen, pOffset, pLen, tOffset, tLen)
  }

  /** ecg[pos:pos+len(w)] += w, for a window that lies inside the buffer. */
  function Overlay(buf: seq<real>, pos: int, w: seq<real>): (r: seq<real>)
    requires 0 <= pos && pos + |w| <= |buf|
    ensures |r| == |buf|
  {
    seq(|buf|, i requires 0 <= i < |buf| => if pos <= i < pos + |w| then buf[i] + w[i - pos] else buf[i])
  }

  /** The guard of the P and T windows (lines 37 and 39): the strict bound
      refuses a window that would end exactly at n. */
  predicate WaveFits(n: int, pos: int, len: int)
  {
    0 <= pos < n - len
  }

  /** Beat k (starting at k * rr) gets its QRS complex: it lies in
      range(0, n, rr) and its window ends by n (lines 28-30). */
  predicate QrsPlaced(n: int, rr: int, len: int, k: int)
  {
    0 <= k && k * rr < n && k * rr + len <= n
  }

  /** Beat k gets its P wave (lines 35, 37). */
  predicate PPlaced(n: int, rr: int, pOffset: int, pLen: int, k: int)
  {
    0 <= k && k * rr < n && WaveFits(n, k * rr - pOffset, pLen)
  }

  /** Beat k gets its T wave (lines 36, 39). */
  predicate TPlaced(n: int, rr: int, tOffset: int, tLen: int, k: int)
  {
    0 <= k && k * rr < n && WaveFits(n, k * rr + tOffset, tLen)
  }

  /** Sample i lies in the QRS window of placed beat k. */
  predicate QrsCovers(n: int, rr: int, len: int, k: int, i: int)
  {
    QrsPlaced(n, rr, len, k) && k * rr <= i < k * rr + len
  }

  /** Sample i lies in the admitted P window of beat k. */
  predicate PCovers(n: int, beat: Beat, k: int, i: int)
  {
    PPlaced(n, beat.rr, beat.pOffset, |beat.pWindow|, k)
    && k * beat.rr - beat.pOffset <= i < k * beat.rr - beat.pOffset + |beat.pWindow|
  }

  /** Sample i lies in the admitted T window of beat k. */
  predicate TCovers(n: int, beat: Beat, k: int, i: int)
  {
    TPlaced(n, beat.rr, beat.tOffset, |beat.tWindow|, k)
    && k * beat.rr + beat.tOffset <= i < k * beat.rr + beat.tOffset + |beat.tWindow|
  }

  /** The QRS loop (lines 28-31) run from beat start `start` onward. */
  function QrsFrom(buf: seq<real>, rr: int, qrs: seq<real>, start: nat): (r: seq<real>)
    requires rr > 0
    ensures |r| == |buf|
    decreases |buf| - start
  {
    if start >= |buf| then buf
    else
      var next := if start + |qrs| <= |buf| then Overlay(buf, start, qrs) else buf;
      QrsFrom(next, rr, qrs, start + rr)
  }

  /** One guarded P or T update: amplitude * w is added at pos when the
      guard admits it, and the buffer is left alone otherwise. */
  function WaveStep(buf: seq<real>, pos: int, amplitude: real, w: seq<real>): (r: seq<real>)
    ensures |r| == |buf|
  {
    if WaveFits(|buf|, pos, |w|) then Overlay(buf, pos, Scale(amplitude, w)) else buf
  }

  /** The P/T loop (lines 34-40) run from beat start `start` onward. */
  function PtFrom(buf: seq<real>, beat: Beat, start: nat): (r: seq<real>)
    requires beat.rr > 0
    ensures |r| == |buf|
    decreases |buf| - start
  {
    if start >= |buf| then buf
    else
      var afterP := WaveStep(buf, start - beat.pOffset, PAmplitude, beat.pWindow);
      var afterT := WaveStep(afterP, start + beat.tOffset, TAmplitude, beat.tWindow);
      PtFrom(afterT, beat, start + beat.rr)
  }

  /** One turn of the P/T loop. */
  lemma PtFromStep(buf: seq<real>, beat: Beat, start: nat)
    requires beat.rr > 0 && start < |buf|
    ensures PtFrom(buf, beat, start)
         == PtFrom(WaveStep(WaveStep(buf, start - beat.pOffset, PAmplitude, beat.pWindow),
                            start + beat.tOffset, TAmplitude, beat.tWindow), beat, start + beat.rr)
  {
  }

  /** The deterministic part of the signal: QRS, then P and T, on zeros. */
  function Waves(n: nat, beat: Beat): (r: seq<real>)
    requires beat.rr > 0
    ensures |r| == n
  {
    PtFrom(QrsFrom(Constant(n, 0.0), beat.rr, beat.qrs, 0), beat, 0)
  }

  /** ecg + baseline + random (0Gaus.py:44): the synthetic signal, given the
      values of sin(2*pi*0.5*t) and of the standard normal draws. */
  function Ecg(n: nat, beat: Beat, sines: seq<real>, draws: seq<real>): (r: seq<real>)
    requires beat.rr > 0 && |sines| == n && |draws| == n
    ensures |r| == n
  {
    Add(Add(Waves(n, beat), Scale(BaselineAmplitude, sines)), Scale(JitterAmplitude, draws))
  }

  /** What the QRS windows of beats from `start` on add at index i. */
  function QrsCover(n: int, rr: int, qrs: seq<real>, start: nat, i: int): real
    requires rr > 0
    decreases n - start
  {
    if start >= n then 0.0
    else QrsTerm(n, qrs, start, i) + QrsCover(n, rr, qrs, start + rr, i)
  }

  /** What the QRS window at start adds at index i, if it is placed. */
  function QrsTerm(n: int, qrs: seq<real>, start: int, i: int): real
  {
    if start + |qrs| <= n && 0 <= start <= i < start + |qrs| then qrs[i - start] else 0.0
  }

  /** What window w at pos adds at index i, if its guard admits it. */
  function WaveAt(n: int, pos: int, amplitude: real, w: seq<real>, i: int): real
  {
    if WaveFits(n, pos, |w|) && pos <= i < pos + |w| then amplitude * w[i - pos] else 0.0
  }

  /** What the P and T windows of beats from `start` on add at index i. */
  function PtCover(n: int, beat: Beat, start: nat, i: int): real
    requires beat.rr > 0
    decreases n - start
  {
    if start >= n then 0.0
    else
      WaveAt(n, start - beat.pOffset, PAmplitude, beat.pWindow, i)
      + WaveAt(n, start + beat.tOffset, TAmplitude, beat.tWindow, i)
      + PtCover(n, beat, start + beat.rr, i)
  }

  /** After the QRS loop, each sample is its old value plus the template
      entries of the placed windows that cover it. */
  lemma {:induction false} QrsFromAt(buf: seq<real>, rr: int, qrs: seq<real>, start: nat, i: int)
    requires rr > 0 && 0 <= i < |buf|
    ensures QrsFrom(buf, rr, qrs, start)[i] == buf[i] + QrsCover(|buf|, rr, qrs, start, i)
    decreases |buf| - start
  {
    if start < |buf| {
      var next := if start + |qrs| <= |buf| then Overlay(buf, start, qrs) else buf;
      assert next[i] == buf[i] + QrsTerm(|buf|, qrs, start, i) by {
        if start + |qrs| <= |buf| {
          OverlayAt(buf, start, qrs, i);
        }
      }
      QrsFromAt(next, rr, qrs, start + rr, i);
    }
  }

  lemma OverlayAt(buf: seq<real>, pos: int, w: seq<real>, i: int)
    requires 0 <= pos && pos + |w| <= |buf| && 0 <= i < |buf|
    ensures Overlay(buf, pos, w)[i] == buf[i] + (if pos <= i < pos + |w| then w[i - pos] else 0.0)
  {
  }

  lemma WaveStepAt(buf: seq<real>, pos: int, amplitude: real, w: seq<real>, i: int)
    requires 0 <= i < |buf|
    ensures WaveStep(buf, pos, amplitude, w)[i] == buf[i] + WaveAt(|buf|, pos, amplitude, w, i)
  {
    if WaveFits(|buf|, pos, |w|) {
      var scaled := Scale(amplitude, w);
      assert WaveStep(buf, pos, amplitude, w) == Overlay(buf, pos, scaled);
      if pos <= i < pos + |w| {
        assert scaled[i - pos] == amplitude * w[i - pos];
        assert Overlay(buf, pos, scaled)[i] == buf[i] + scaled[i - pos];
      } else {
        assert Overlay(buf, pos, scaled)[i] == buf[i];
      }
    }
  }

  /** After the P/T loop, each sample is its old value plus the scaled window
      entries of the admitted P and T windows that cover it. */
  lemma {:induction false} PtFromAt(buf: seq<real>, beat: Beat, start: nat, i: int)
    requires beat.rr > 0 && 0 <= i < |buf|
    ensures PtFrom(buf, beat, start)[i] == buf[i] + PtCover(|buf|, beat, start, i)
    decreases |buf| - start
  {
    if start < |buf| {
      var afterP := WaveStep(buf, start - beat.pOffset, PAmplitude, beat.pWindow);
      var afterT := WaveStep(afterP, start + beat.tOffset, TAmplitude, beat.tWindow);
      var p := WaveAt(|buf|, start - beat.pOffset, PAmplitude, beat.pWindow, i);
      var t := WaveAt(|buf|, start + beat.tOffset, TAmplitude, beat.tWindow, i);
      assert afterP[i] == buf[i] + p by {
        WaveStepAt(buf, start - beat.pOffset, PAmplitude, beat.pWindow, i);
      }
      assert afterT[i] == afterP[i] + t by {
        WaveStepAt(afterP, start + beat.tOffset, TAmplitude, beat.tWindow, i);
      }
      PtFromAt(afterT, beat, start + beat.rr, i);
    }
  }

  /** Every sample of the deterministic signal is the sum of the QRS, P and T
      window entries that cover it; nothing else is written. */
  lemma WavesAt(n: nat, beat: Beat, i: int)
    requires beat.rr > 0 && 0 <= i < n
    ensures Waves(n, beat)[i] == QrsCover(n, beat.rr, beat.qrs, 0, i) + PtCover(n, beat, 0, i)
  {
    var zeros := Constant(n, 0.0);
    var qrs := QrsFrom(zeros, beat.rr, beat.qrs, 0);
    QrsFromAt(zeros, beat.rr, beat.qrs, 0, i);
    PtFromAt(qrs, beat, 0, i);
  }

  lemma {:induction false} StepMultiple(j: int, k: int, rr: int)
    requires j < k && rr > 0
    ensures j * rr + rr <= k * rr
    decreases k - j
  {
    assert (j + 1) * rr == j * rr + rr;
    if j + 1 < k {
      StepMultiple(j + 1, k, rr);
    }
  }

  lemma {:induction false} QrsCoverOutside(n: int, rr: int, qrs: seq<real>, j: nat, i: int)
    requires rr > 0
    requires forall k :: !QrsCovers(n, rr, |qrs|, k, i)
    ensures QrsCover(n, rr, qrs, j * rr, i) == 0.0
    decreases n - j * rr
  {
    if j * rr < n {
      assert (j + 1) * rr == j * rr + rr;
      QrsCoverOutside(n, rr, qrs, j + 1, i);
      assert !QrsCovers(n, rr, |qrs|, j, i);
    }
  }

  /** After the QRS loop on the zeroed buffer, a sample outside every placed
      window is still 0. */
  lemma QrsOutsideWindows(n: nat, rr: int, qrs: seq<real>, i: int)
    requires rr > 0 && 0 <= i < n
    requires forall k :: !QrsCovers(n, rr, |qrs|, k, i)
    ensures QrsFrom(Constant(n, 0.0), rr, qrs, 0)[i] == 0.0
  {
    QrsFromAt(Constant(n, 0.0), rr, qrs, 0, i);
    QrsCoverOutside(n, rr, qrs, 0, i);
  }

  lemma {:induction false} QrsCoverSingle(n: int, rr: int, qrs: seq<real>, j: nat, k: int, i: int)
    requires rr > 0 && |qrs| <= rr
    requires QrsPlaced(n, rr, |qrs|, k) && k * rr <= i < k * rr + |qrs|
    ensures QrsCover(n, rr, qrs, j * rr, i) == if j <= k then qrs[i - k * rr] else 0.0
    decreases n - j * rr
  {
    if j < k {
      StepMultiple(j, k, rr);
    } else if j > k {
      StepMultiple(k, j, rr);
    }
    if j * rr < n {
      assert (j + 1) * rr == j * rr + rr;
      QrsCoverSingle(n, rr, qrs, j + 1, k, i);
    }
  }

  /** When the template is no longer than the R-R interval the windows do not
      overlap, and inside the window of placed beat k the sample is exactly
      the template entry at its offset. */
  lemma QrsInsideWindow(n: nat, rr: int, qrs: seq<real>, k: int, i: int)
    requires rr > 0 && |qrs| <= rr
    requires QrsPlaced(n, rr, |qrs|, k) && k * rr <= i < k * rr + |qrs|
    ensures QrsFrom(Constant(n, 0.0), rr, qrs, 0)[i] == qrs[i - k * rr]
  {
    QrsFromAt(Constant(n, 0.0), rr, qrs, 0, i);
    QrsCoverSingle(n, rr, qrs, 0, k, i);
  }

  lemma {:induction false} PtCoverOutside(n: int, beat: Beat, j: nat, i: int)
    requires beat.rr > 0
    requires forall k :: !PCovers(n, beat, k, i) && !TCovers(n, beat, k, i)
    ensures PtCover(n, beat, j * beat.rr, i) == 0.0
    decreases n - j * beat.rr
  {
    if j * beat.rr < n {
      assert (j + 1) * beat.rr == j * beat.rr + beat.rr;
      PtCoverOutside(n, beat, j + 1, i);
      assert !PCovers(n, beat, j, i) && !TCovers(n, beat, j, i);
    }
  }

  lemma {:induction false} PtCoverOnlyP(n: int, beat: Beat, j: nat, k: int, i: int)
    requires beat.rr > 0 && PCovers(n, beat, k, i)
    requires forall k' :: !TCovers(n, beat, k', i) && (k' != k ==> !PCovers(n, beat, k', i))
    ensures PtCover(n, beat, j * beat.rr, i)
         == if j <= k then PAmplitude * beat.pWindow[i - (k * beat.rr - beat.pOffset)] else 0.0
    decreases n - j * beat.rr
  {
    if j < k {
      StepMultiple(j, k, beat.rr);
    }
    if j * beat.rr < n {
      assert (j + 1) * beat.rr == j * beat.rr + beat.rr;
      PtCoverOnlyP(n, beat, j + 1, k, i);
      assert !TCovers(n, beat, j, i);
      assert j != k ==> !PCovers(n, beat, j, i);
    }
  }

  lemma {:induction false} PtCoverOnlyT(n: int, beat: Beat, j: nat, k: int, i: int)
    requires beat.rr > 0 && TCovers(n, beat, k, i)
    requires forall k' :: !PCovers(n, beat, k', i) && (k' != k ==> !TCovers(n, beat, k', i))
    ensures PtCover(n, beat, j * beat.rr, i)
         == if j <= k then TAmplitude * beat.tWindow[i - (k * beat.rr + beat.tOffset)] else 0.0
    decreases n - j * beat.rr
  {
    if j < k {
      StepMultiple(j, k, beat.rr);
    }
    if j * beat.rr < n {
      assert (j + 1) * beat.rr == j * beat.rr + beat.rr;
      PtCoverOnlyT(n, beat, j + 1, k, i);
      assert !PCovers(n, beat, j, i);
      assert j != k ==> !TCovers(n, beat, j, i);
    }
  }

  /** A sample that no placed QRS window and no admitted P or T window
      covers is still 0 in the deterministic signal. */
  lemma WavesOutsideWindows(n: nat, beat: Beat, i: int)
    requires beat.rr > 0 && 0 <= i < n
    requires forall k :: !QrsCovers(n, beat.rr, |beat.qrs|, k, i)
    requires forall k :: !PCovers(n, beat, k, i) && !TCovers(n, beat, k, i)
    ensures Waves(n, beat)[i] == 0.0
  {
    WavesAt(n, beat, i);
    QrsCoverOutside(n, beat.rr, beat.qrs, 0, i);
    PtCoverOutside(n, beat, 0, i);
  }

  /** Inside the admitted P window of beat k, where no other window reaches,
      the deterministic signal is 0.2 times the window entry at its offset. */
  lemma WavesInsidePWindow(n: nat, beat: Beat, k: int, i: int)
    requires beat.rr > 0 && PCovers(n, beat, k, i)
    requires forall k' :: !QrsCovers(n, beat.rr, |beat.qrs|, k', i)
    requires forall k' :: !TCovers(n, beat, k', i) && (k' != k ==> !PCovers(n, beat, k', i))
    ensures Waves(n, beat)[i] == PAmplitude * beat.pWindow[i - (k * beat.rr - beat.pOffset)]
  {
    WavesAt(n, beat, i);
    QrsCoverOutside(n, beat.rr, beat.qrs, 0, i);
    PtCoverOnlyP(n, beat, 0, k, i);
  }

  /** The same for the admitted T window of beat k, with 0.3. */
  lemma WavesInsideTWindow(n: nat, beat: Beat, k: int, i: int)
    requires beat.rr > 0 && TCovers(n, beat, k, i)
    requires forall k' :: !QrsCovers(n, beat.rr, |beat.qrs|, k', i)
    requires forall k' :: !PCovers(n, beat, k', i) && (k' != k ==> !TCovers(n, beat, k', i))
    ensures Waves(n, beat)[i] == TAmplitude * beat.tWindow[i - (k * beat.rr + beat.tOffset)]
  {
    WavesAt(n, beat, i);
    QrsCoverOutside(n, beat.rr, beat.qrs, 0, i);
    PtCoverOnlyT(n, beat, 0, k, i);
  }

  /** Window lengths and offsets as Derive(360, 5, 72) gives them. */
  predicate StandardShapes(beat: Beat)
  {
    beat.rr == 300 && |beat.qrs| == 86 && beat.pOffset == 57 && |beat.pWindow| == 18
    && beat.tOffset == 86 && |beat.tWindow| == 36
  }

  /** In the script's setting beats 1 to 5 carry their P wave in the signal:
      each sample of the window is 0.2 times the window entry. */
  lemma StandardPWave(beat: Beat, k: int, i: int)
    requires StandardShapes(beat) && 1 <= k < 6 && 300 * k - 57 <= i < 300 * k - 39
    ensures Waves(1800, beat)[i] == PAmplitude * beat.pWindow[i - (300 * k - 57)]
  {
    WavesInsidePWindow(1800, beat, k, i);
  }

  /** Beats 0 to 5 carry their T wave in the signal, scaled by 0.3. */
  lemma StandardTWave(beat: Beat, k: int, i: int)
    requires StandardShapes(beat) && 0 <= k < 6 && 300 * k + 86 <= i < 300 * k + 122
    ensures Waves(1800, beat)[i] == TAmplitude * beat.tWindow[i - (300 * k + 86)]
  {
    WavesInsideTWindow(1800, beat, k, i);
  }

  /** The script's own setting: 360 Hz, 5 s, 72 bpm. */
  lemma StandardRecording()
    ensures Derive(360, 5, 72) == Params(1800, 300, 86, 57, 18, 86, 36)
    ensures forall k :: QrsPlaced(1800, 300, 86, k) <==> 0 <= k < 6
    ensures forall k :: PPlaced(1800, 300, 57, 18, k) <==> 1 <= k < 6
    ensures forall k :: TPlaced(1800, 300, 86, 36, k) <==> 0 <= k < 6
  {
    var p := Derive(360, 5, 72);
    assert p.rr == 300 && p.qrsLen == 86 && p.pOffset == 57 && p.pLen == 18;
    assert p.tOffset == 86 && p.tLen == 36;
  }

  /** Every sample of the synthetic signal is the QRS, P and T entries that
      cover it plus 0.05 times the sine value and 0.02 times the draw. */
  lemma EcgAt(n: nat, beat: Beat, sines: seq<real>, draws: seq<real>, i: int)
    requires beat.rr > 0 && |sines| == n && |draws| == n && 0 <= i < n
    ensures Ecg(n, beat, sines, draws)[i]
         == QrsCover(n, beat.rr, beat.qrs, 0, i) + PtCover(n, beat, 0, i)
            + BaselineAmplitude * sines[i] + JitterAmplitude * draws[i]
  {
    WavesAt(n, beat, i);
  }

  /** ecg[pos:pos+len(w)] += w on the buffer itself. */
  method AddWindow(ecg: array<real>, pos: int, w: seq<real>)
    requires 0 <= pos && pos + |w| <= ecg.Length
    modifies ecg
    ensures ecg[..] == Overlay(old(ecg[..]), pos, w)
  {
    forall i | pos <= i < pos + |w| {
      ecg[i] := ecg[i] + w[i - pos];
    }
  }

  /** The QRS loop, lines 28-31. */
  method PlaceQrs(ecg: array<real>, rr: int, qrs: seq<real>)
    requires rr > 0
    modifies ecg
    ensures ecg[..] == QrsFrom(old(ecg[..]), rr, qrs, 0)
  {
    var start := 0;
    while start < ecg.Length
      invariant 0 <= start
      invariant QrsFrom(ecg[..], rr, qrs, start) == QrsFrom(old(ecg[..]), rr, qrs, 0)
      decreases ecg.Length - start
    {
      var end := start + |qrs|;
      if end <= ecg.Length {
        AddWindow(ecg, start, qrs);
      }
      start := start + rr;
    }
  }

  /** One guarded P or T update on the buffer (lines 37-40). */
  method AddWave(ecg: array<real>, pos: int, amplitude: real, w: seq<real>)
    modifies ecg
    ensures ecg[..] == WaveStep(old(ecg[..]), pos, amplitude, w)
  {
    if 0 <= pos < ecg.Length - |w| {
      AddWindow(ecg, pos, Scale(amplitude, w));
    }
  }

  /** The P and T loop, lines 34-40. */
  method PlacePt(ecg: array<real>, beat: Beat)
    requires beat.rr > 0
    modifies ecg
    ensures ecg[..] == PtFrom(old(ecg[..]), beat, 0)
  {
    var n := ecg.Length;
    var start := 0;
    while start < n
      invariant 0 <= start
      invariant PtFrom(ecg[..], beat, start) == PtFrom(old(ecg[..]), beat, 0)
      decreases n - start
    {
      ghost var before := ecg[..];
      AddWave(ecg, start - beat.pOffset, PAmplitude, beat.pWindow);
      AddWave(ecg, start + beat.tOffset, TAmplitude, beat.tWindow);
      PtFromStep(before, beat, start);
      assert PtFrom(before, beat, start) == PtFrom(ecg[..], beat, start + beat.rr);
      start := start + beat.rr;
    }
  }

  /** np.zeros followed by both loops (lines 27-40). */
  method BuildWaves(n: nat, beat: Beat) returns (ecg: array<real>)
    requires beat.rr > 0
    ensures fresh(ecg)
    ensures ecg[..] == Waves(n, beat)
  {
    ecg := new real[n](_ => 0.0);
    assert ecg[..] == Constant(n, 0.0);
    PlaceQrs(ecg, beat.rr, beat.qrs);
    PlacePt(ecg, beat);
  }

  /** ecg += terms, elementwise and in place. */
  method AddInPlace(ecg: array<real>, terms: seq<real>)
    requires |terms| == ecg.Length
    modifies ecg
    ensures ecg[..] == Add(old(ecg[..]), terms)
  {
    forall i | 0 <= i < ecg.Length {
      ecg[i] := ecg[i] + terms[i];
    }
  }

  /** 0Gaus.py:27-44: the waves are built in a buffer and the clean signal is
      a new array, ecg + baseline + random. */
  method SynthesizeCopy(n: nat, beat: Beat, sines: seq<real>, draws: seq<real>) returns (ecgOriginal: seq<real>)
    requires beat.rr > 0 && |sines| == n && |draws| == n
    ensures ecgOriginal == Ecg(n, beat, sines, draws)
    ensures forall i :: 0 <= i < n ==>
      ecgOriginal[i] == QrsCover(n, beat.rr, beat.qrs, 0, i) + PtCover(n, beat, 0, i)
                        + BaselineAmplitude * sines[i] + JitterAmplitude * draws[i]
  {
    var ecg := BuildWaves(n, beat);
    ecgOriginal := Add(Add(ecg[..], Scale(BaselineAmplitude, sines)), Scale(JitterAmplitude, draws));
    forall i | 0 <= i < n
      ensures ecgOriginal[i] == QrsCover(n, beat.rr, beat.qrs, 0, i) + PtCover(n, beat, 0, i)
                                + BaselineAmplitude * sines[i] + JitterAmplitude * draws[i]
    {
      EcgAt(n, beat, sines, draws, i);
    }
  }

  /** 0pred.py:27-44: the same loops, and then ecg += baseline + random on
      the buffer itself; the result is the same signal as 0Gaus.py's. */
  method SynthesizeInPlace(n: nat, beat: Beat, sines: seq<real>, draws: seq<real>) returns (ecg: array<real>)
    requires beat.rr > 0 && |sines| == n && |draws| == n
    ensures fresh(ecg)
    ensures ecg[..] == Ecg(n, beat, sines, draws)
  {
    ecg := BuildWaves(n, beat);
    AddInPlace(ecg, Add(Scale(BaselineAmplitude, sines), Scale(JitterAmplitude, draws)));
  }
}
