# ECG-SNR in Dafny

A model of the computational core of three ECG teaching scripts:

- `0Gaus.py` builds a synthetic ECG. It makes a zeroed buffer of N = fs · duration
  samples. It adds a QRS template at every R-R step. It adds P and T Hann windows
  at fixed offsets from each step. Then it adds a baseline sinusoid and a random
  term. From the clean signal it derives three noisy variants: Gaussian,
  impulsive and a 50 Hz artefact. It rates each with `calcular_snr`.
- `0pred.py` builds the same signal. Its last additions are made in place. It
  then computes the mean, the sample standard deviation, the coefficient of
  variation and the kurtosis by hand, and a 20-bin density histogram by hand.
- `00.py` cuts the first five seconds from a recording. It computes the same
  hand-written statistics and compares them with numpy/scipy: `np.mean`,
  `np.std(ddof=0)` and `kurtosis(fisher=False)`.

Samples are exact reals. Python's `int()` is truncation toward zero
(`Numeric.Truncate`). A float64 division by zero, which numpy turns into NaN or
±inf with a warning, is the `Numeric.Extended` outcome of `Numeric.Divide`.

The modules are:

- `Numeric`: sums, means, elementwise arithmetic, squares, division.
- `Synthesis`: the buffer loops, with array methods proved against sequence
  functions.
- `Noise`: the three variants. This includes numpy's buffered fancy-index `+=`:
  each sum is formed from the original array and then assigned back. numpy
  documents no order for repeated indices in such an assignment. The model takes
  the last write in draw order, which is what numpy does for a 1-D array.
  `Noise.ImpulseDeltas` and `Noise.ImpulsesChangeAtMost` hold whichever write
  wins: every drawn position moves by ±1.5 either way.
- `Snr`: signal power, noise power and their ratio.
- `Statistics`: the manual and library moments, stated over the sample count
  and the two deviation sums, then lifted to signals.
- `Histogram`: the manual histogram, with its counting loop on an array.

Another script of the repository, `Practica 1.py` (lines 7-16), has its own
`calcular_snr`. It puts the power of the noisy signal in the numerator and
returns +inf when the noise power is zero. The modelled scripts use the power of
their first argument, the clean signal (0Gaus.py:50), and divide without a
guard. The model follows them. `Practica 1.py` is not part of this model.

## Model

| member | source | states |
|---|---|---|
| Numeric.Divide | 0Gaus.py:52 | finite exactly when the divisor is non-zero, and then times the divisor gives the dividend; NaN for 0/0, +inf / -inf for a positive / negative numerator over 0 |
| Numeric.Truncate | 0Gaus.py:20-22 | int() of a float: for x ≥ 0 the largest integer not above x, for x < 0 the smallest not below it |
| Numeric.Mean | 00.py:25 | the mean times the sample count is the sum |
| Numeric.SumNonNegative | 0Gaus.py:50-51 | a sum of non-negative terms is non-negative, and zero exactly when every term is |
| Synthesis.RrInterval | 0Gaus.py:20 | int(fs·(60/hr)) is ⌊60·fs/hr⌋, and it is positive exactly when 60·fs ≥ hr |
| Synthesis.Derive | 0Gaus.py:12-22 | N = fs·duration, rr = ⌊60·fs/hr⌋ (positive exactly when 60·fs ≥ hr), QRS length ⌊24·fs/100⌋, and the P/T offsets and lengths as integer quotients of fs |
| Synthesis.StandardRecording | 0Gaus.py:10-40 | at 360 Hz, 5 s, 72 bpm: N = 1800, rr = 300, QRS length 86; the loop guards admit exactly beats 0..5 for the QRS and T windows, and beats 1..5 for the P window (beat 0's P window would start before 0) |
| Synthesis.StandardPWave | 0Gaus.py:34-38 | in that setting, for beats 1..5 every sample of the P window in the signal is 0.2 times the Hann entry at its offset |
| Synthesis.StandardTWave | 0Gaus.py:34-40 | in that setting, for beats 0..5 every sample of the T window in the signal is 0.3 times the Hann entry at its offset |
| Synthesis.AddWindow | 0Gaus.py:31 | the buffer becomes the old buffer with the window added on its slice and nothing else changed |
| Synthesis.PlaceQrs | 0Gaus.py:28-31 | the loop leaves the buffer equal to the QRS fold over range(0, N, rr), where a beat whose window would pass N is skipped whole |
| Synthesis.AddWave | 0Gaus.py:37-40 | one guarded update: the window scaled by its amplitude is added when 0 ≤ pos < N - len, and the buffer is unchanged otherwise |
| Synthesis.PlacePt | 0Gaus.py:34-40 | the loop leaves the buffer equal to the P/T fold, where each window goes in only when its start passes the strict guard |
| Synthesis.QrsFromAt | 0Gaus.py:28-31 | after the QRS loop each sample is its old value plus the template entries of the placed windows covering it |
| Synthesis.PtFromAt | 0Gaus.py:34-40 | after the P/T loop each sample is its old value plus 0.2 / 0.3 times the covering entries of the admitted windows |
| Synthesis.WavesAt | 0Gaus.py:27-40 | every sample of the deterministic signal is the sum of the QRS, P and T entries covering it |
| Synthesis.QrsOutsideWindows | 0Gaus.py:27-31 | a sample outside every placed QRS window is still 0 after the QRS loop |
| Synthesis.QrsInsideWindow | 0Gaus.py:28-31 | with a template no longer than rr, inside placed window k the sample is exactly the template entry at its offset |
| Synthesis.PtCoverOutside | 0Gaus.py:34-40 | the P/T loop adds nothing at a sample that no admitted P or T window covers |
| Synthesis.PtCoverOnlyP | 0Gaus.py:34-38 | at a sample covered only by the admitted P window of beat k, the P/T loop adds 0.2 times the window entry at its offset |
| Synthesis.PtCoverOnlyT | 0Gaus.py:34-40 | at a sample covered only by the admitted T window of beat k, the P/T loop adds 0.3 times the window entry at its offset |
| Synthesis.WavesOutsideWindows | 0Gaus.py:27-40 | a sample outside every placed QRS window and every admitted P and T window is 0 in the deterministic signal |
| Synthesis.WavesInsidePWindow | 0Gaus.py:27-38 | inside the admitted P window of beat k, where no other window reaches, the signal is 0.2 times the window entry at its offset |
| Synthesis.WavesInsideTWindow | 0Gaus.py:27-40 | inside the admitted T window of beat k, where no other window reaches, the signal is 0.3 times the window entry at its offset |
| Synthesis.BuildWaves | 0Gaus.py:27-40 | a fresh array of N samples holding the deterministic signal |
| Synthesis.EcgAt | 0Gaus.py:27-44 | each sample of ecg + baseline + random is the QRS/P/T cover plus 0.05·sine plus 0.02·draw at that index |
| Synthesis.SynthesizeCopy | 0Gaus.py:27-44 | ecg_original is the signal ecg + baseline + random, so each sample is the QRS/P/T cover plus 0.05·sine plus 0.02·draw at that index |
| Synthesis.AddInPlace | 0pred.py:44 | the buffer becomes its old value plus the terms, elementwise |
| Synthesis.SynthesizeInPlace | 0pred.py:27-44 | the in-place build gives the same signal as the copying one |
| Noise.AddNoise | 0Gaus.py:58 | the variant has the clean length and its difference from the clean signal is exactly the added term |
| Noise.GaussianVariant | 0Gaus.py:57-58 | the difference from the clean signal is 0.05 times the normal draws |
| Noise.ArtefactVariant | 0Gaus.py:74-75 | the difference from the clean signal is 0.1 times the 50 Hz sine values |
| Noise.NumImpulses | 0Gaus.py:65 | int(0.01·N) equals ⌊N/100⌋ |
| Noise.LastHit | 0Gaus.py:66-67 | the index of the last draw at a position, absent exactly when the position was never drawn |
| Noise.ScatterAt | 0Gaus.py:67 | after assignment in draw order each index holds the value of its last draw, or its old value |
| Noise.BufferedAddAt | 0Gaus.py:67 | buffered `+=`: a position drawn twice gets its last increment, not the sum |
| Noise.ImpulsiveAt | 0Gaus.py:64-67 | each impulsive sample is the clean one plus 1.5 times the sign of its last draw, or the clean one |
| Noise.ImpulseDeltas | 0Gaus.py:64-67 | every sample moves by 0, +1.5 or -1.5, and the changed indices are exactly the drawn positions |
| Noise.ImpulsesChangeAtMost | 0Gaus.py:65-67 | at most num_impulsos samples change |
| Noise.InjectImpulses | 0Gaus.py:64-67 | on arrays: a fresh copy receives the impulses and the clean array is unchanged |
| Snr.Power | 0Gaus.py:50 | mean of squares: non-negative, zero exactly for an all-zero signal |
| Snr.NoisePower | 0Gaus.py:51 | non-negative, zero exactly when the noisy signal equals the clean one |
| Snr.SnrRatio | 0Gaus.py:49-52 | finite exactly when the signals differ, and then non-negative with ratio × noise power = clean power; +inf for identical signals with power, NaN for identical silent ones, never -inf |
| Snr.ScaledPower | 0Gaus.py:57 | scaling a signal by k scales its power by k² |
| Snr.AddedNoisePower | 0Gaus.py:51-58 | the noise power of an additive variant is the power of the added term |
| Snr.NoisierVariantLowerRatio | 0Gaus.py:57-76 | of two additive variants, the one with the larger noise power has the lower or equal ratio, strictly lower when the clean signal has power |
| Snr.ImpulsiveSquares | 0Gaus.py:64-68 | the squared differences of the impulsive variant sum to 1.5² per distinct drawn position |
| Snr.ImpulsiveNoisePower | 0Gaus.py:64-68 | the impulsive noise power is 1.5²·(distinct positions)/N, so at most 1.5²·num_impulsos/N |
| Statistics.Segment | 00.py:16-17 | the segment is a prefix of the signal whose length is min(len, int(fs·5)), counted from the end when the stop is negative |
| Statistics.DeviationsSum | 00.py:26-28 | the deviations x - m of a segment add up to its sum minus N·m |
| Statistics.DeviationsBalance | 00.py:25-28 | the deviations from the manual mean add up to 0 |
| Statistics.SquaredDeviations | 00.py:26 | non-negative, zero exactly when every sample equals the mean |
| Statistics.FourthDeviations | 00.py:28 | non-negative, zero exactly when every sample equals the mean |
| Statistics.SampleVarianceOf | 00.py:26 | the squared manual std: NaN exactly for one sample, else finite, non-negative, zero exactly for zero spread, and times N-1 it gives the deviation sum |
| Statistics.MomentOf | 00.py:28-36 | a per-sample mean of deviation powers (m4, and the squared np.std(ddof=0)): non-negative, zero exactly when the deviation sum is, and times N it gives that sum |
| Statistics.ManualKurtosisOf | 00.py:28-29 | NaN exactly for zero spread, else finite and non-negative, and times the square of the N-1 variance it gives m4 |
| Statistics.PearsonKurtosisOf | 00.py:38 | NaN exactly for zero spread, else finite and non-negative, and times the square of the N variance it gives m4 |
| Statistics.ManualCvSquaredOf | 00.py:27 | NaN exactly when the mean is 0 or there is one sample, else non-negative, and times mean² it gives the N-1 variance |
| Statistics.LibraryCvSquaredOf | 00.py:37 | NaN exactly when the mean is 0, else non-negative, and times mean² it gives the N variance |
| Statistics.NaNCases | 00.py:25-38 | for a signal: which statistics are NaN, and that the variances are 0 exactly for a flat signal |
| Statistics.ConstantMean | 00.py:25 | the manual mean of a constant segment is the constant |
| Statistics.ConstantStatistics | 00.py:25-29 | a constant segment of two or more samples has variance 0, CV² 0 (NaN when the constant is 0), and NaN kurtosis |
| Statistics.VarianceScaledOf | 00.py:26-36 | the N-1 variance equals the N variance times N/(N-1) |
| Statistics.SampleVarianceScaled | 00.py:26-36 | the same, for the variances of a signal |
| Statistics.KurtosisScaledOf | 00.py:28-38 | manual and Pearson kurtosis are NaN together, and manual = Pearson·((N-1)/N)² |
| Statistics.KurtosisScaled | 00.py:28-38 | the same, for the kurtoses of a signal |
| Statistics.CoefficientsAgreeOf | 00.py:27-37 | for N ≥ 2 the manual and library CV² are NaN together, and manual = library·N/(N-1) |
| Statistics.CoefficientsAgree | 00.py:27-37 | the same, for the coefficients of a signal |
| Histogram.SeqMin | 0pred.py:59 | a sample not above any sample |
| Histogram.SeqMax | 0pred.py:60 | a sample not below any sample |
| Histogram.Edges | 0pred.py:62 | numero_bins + 1 edges: the first is the lower end, the last is lower end + bins·width, and consecutive edges are one width apart |
| Histogram.BinIndex | 0pred.py:65-67 | for a sample between min and max the clamped index lies in [0, bins); the sample lies in [edge k, edge k+1), except the maximum, which goes to the last bin |
| Histogram.TruncatedPosition | 0pred.py:65 | the truncated index is at most bins, equals bins exactly at the maximum, and brackets the sample between its edges |
| Histogram.PositionBounds | 0pred.py:65 | for a sample in the span the truncated quotient times the width is at most the distance from the minimum, one more bin width exceeds it below the top bin, and only the maximum reaches the top |
| Histogram.Clamped | 0pred.py:66-67 | moving index bins to bins-1 keeps the sample between the new bin's edges |
| Histogram.BinIndices | 0pred.py:64-65 | the bin of every sample, each in [0, bins) |
| Histogram.TallyCountsOccurrences | 0pred.py:63-68 | each count is the number of indices naming that bin |
| Histogram.TallyTotal | 0pred.py:63-68 | the counts add up to the number of indices |
| Histogram.CountsBySample | 0pred.py:63-68 | count k is the number of samples whose bin is k, and the counts add up to N |
| Histogram.CountBins | 0pred.py:63-68 | the loop over a zeroed array of bins gives the counts of the samples |
| Histogram.Densities | 0pred.py:71 | each density times N·width is the count |
| Histogram.DensitiesMass | 0pred.py:71 | for counts summing to N, density·width summed over the bins is 1 |
| Histogram.DensityMass | 0pred.py:63-71 | the densities of the samples, times the bin width, sum to 1 |
| Histogram.Centres | 0pred.py:72 | one centre per consecutive pair of edges |
| Histogram.CentresInside | 0pred.py:62-72 | centre i is min + (i + ½)·width, strictly between edges i and i+1 |
| Histogram.ManualHistogram | 0pred.py:57-72 | an empty signal fails at min(); a flat one fails with zero width; otherwise width = (max-min)/20 > 0, the first edge is the minimum and the last the maximum, every sample lies in the span, and the counts, densities and centres are the ones above |

## Left out

- Reading the recording with wfdb (00.py:11-13) and writing the text file (0pred.py:115-116): file I/O. The recording's samples and fs are inputs.
- Plotting and printing: console and UI output.
- The random draws (`randn`, `randint`, `choice`), the Gaussian QRS template, the Hann windows and the sine values: these are inputs. Their values come from library routines that are not modelled.
- `np.histogram` and the internals of `scipy.stats.kurtosis` (00.py:30, 38-39): the library Pearson kurtosis is modelled by its definition, m4 over the squared population variance.
- Statistics.ManualCvSquaredOf: states the square of the coefficient of variation, because the model has no square root. The sign of the CV and the std itself are not captured.
- Statistics.LibraryCvSquaredOf: the same, for the library coefficient.
- Snr.SnrRatio: states the ratio that `10*log10` is applied to, not the value in dB, because the model has no logarithm. A zero ratio, whose log is -inf, is not told apart.
- Float64 rounding: samples are exact reals. Integer parameters come from exact products, as with `int(0.16*fs)`. So the float overshoot that makes the histogram clamp needed in practice shows up only at the exact maximum. Summation order is not modelled either (numpy's pairwise sum vs Python's left-to-right `sum`).
- Numeric.Mean requires a non-empty signal. It stands for two things. The manual mean of an empty segment is `0 / 0` on Python ints, which raises ZeroDivisionError. `np.mean` of an empty array (in `Snr.Power` and in the library coefficient of variation) returns NaN with a warning instead of raising. Neither empty case is modelled. The synthetic signals always have N = fs·duration > 0 samples.
- Histogram.ManualHistogram: for a flat signal the script raises ValueError at `int(nan)`. The model returns `ZeroWidth` instead. An empty signal raises ValueError at `min()`, and the model returns `EmptySignal`.
- Synthesis.Derive, Synthesis.PlaceQrs, Synthesis.PlacePt: neither raise of the parameter step is modelled. A heart rate of 0 makes `60 / frecuencia_cardiaca` raise ZeroDivisionError (0Gaus.py:20, 0pred.py:20), and Derive requires hr > 0. When 60·fs < hr, `intervalo_rr` is 0 and `range(0, numero_muestras, 0)` raises ValueError (0Gaus.py:28, 34). Derive states that boundary (rr > 0 exactly when 60·fs ≥ hr), and the loops require rr > 0. The scripts' own constants give rr = 300.
- The time axis `np.arange(N)/fs` (0Gaus.py:13, 00.py:18): it only feeds the plots and the sine values, which are inputs.
