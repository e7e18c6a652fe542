/** The three noise variants of 0Gaus.py (lines 57-58, 64-67, 74-75): each is
    a new signal of the clean signal's length; the random draws and the sine
    values are inputs. */
module Noise {
  import opened Numeric

  const GaussianScale: real := 0.05
  const ArtefactAmplitude: real := 0.1
  const ImpulseAmplitude: real := 1.5

  /** clean + noise as a new array: the noise term of the result is exactly
      the added sequence. */
  function AddNoise(clean: seq<real>, noise: seq<real>): (r: seq<real>)
    requires |clean| == |noise|
    ensures |r| == |clean|
    ensures Difference(r, clean) == noise
  {
    Add(clean, noise)
  }

  /** ecg_original + 0.05 * randn(N), given the standard normal draws. */
  function GaussianVariant(clean: seq<real>, draws: seq<real>): (r: seq<real>)
    requires |clean| == |draws|
    ensures |r| == |clean|
    ensures Difference(r, clean) == Scale(GaussianScale, draws)
  {
    AddNoise(clean, Scale(GaussianScale, draws))
  }

  /** ecg_original + 0.1 * sin(2*pi*50*t), given the sine values. */
  function ArtefactVariant(clean: seq<real>, sines: seq<real>): (r: seq<real>)
    requires |clean| == |sines|
    ensures |r| == |clean|
    ensures Difference(r, clean) == Scale(ArtefactAmplitude, sines)
  {
    AddNoise(clean, Scale(ArtefactAmplitude, sines))
  }

  /** int(0.01 * numero_muestras): one impulse per hundred samples. */
  function NumImpulses(n: nat): (k: nat)
    ensures k == n / 100
  {
    var x := 0.01 * n as real;
    var r := Truncate(x);
    assert r * 100 <= n < r * 100 + 100 by {
      assert r as real <= x < r as real + 1.0;
    }
    r
  }

  /** Every drawn position indexes the signal (randint(0, N, k)). */
  predicate InRange(positions: seq<int>, n: int)
  {
    forall j :: 0 <= j < |positions| ==> 0 <= positions[j] < n
  }

  /** Every drawn sign is -1 or 1 (choice([-1, 1], k)). */
  predicate Signs(signs: seq<int>)
  {
    forall j :: 0 <= j < |signs| ==> signs[j] == -1 || signs[j] == 1
  }

  /** The distinct drawn positions. */
  function PositionSet(positions: seq<int>): set<int>
  {
    set j | 0 <= j < |positions| :: positions[j]
  }

  /** The indices at which two signals of one length differ. */
  function ChangedIndices(a: seq<real>, b: seq<real>): set<int>
    requires |a| == |b|
  {
    set i | 0 <= i < |a| && a[i] != b[i]
  }

  /** The last draw that hit index i, if any. */
  function LastHit(positions: seq<int>, i: int): (h: Option<nat>)
    ensures h.Some? ==> h.value < |positions| && positions[h.value] == i
    ensures h.Some? ==> forall j :: h.value < j < |positions| ==> positions[j] != i
    ensures h.None? <==> i !in PositionSet(positions)
  {
    if |positions| == 0 then None
    else if positions[|positions| - 1] == i then Some(|positions| - 1)
    else
      var p := positions[..|positions| - 1];
      assert PositionSet(positions) == PositionSet(p) + {positions[|positions| - 1]};
      LastHit(p, i)
  }

  /** a[positions] = values: element assignments in draw order. */
  function Scatter(base: seq<real>, positions: seq<int>, values: seq<real>): (r: seq<real>)
    requires |positions| == |values| && InRange(positions, |base|)
    ensures |r| == |base|
  {
    if |positions| == 0 then base
    else
      var last := |positions| - 1;
      Scatter(base, positions[..last], values[..last])[positions[last] := values[last]]
  }

  /** a[positions] += inc as numpy runs it: every sum a[positions[j]] + inc[j]
      is formed from the original array, then they are assigned back. */
  function BufferedAdd(base: seq<real>, positions: seq<int>, inc: seq<real>): (r: seq<real>)
    requires |positions| == |inc| && InRange(positions, |base|)
    ensures |r| == |base|
  {
    Scatter(base, positions, seq(|positions|, j requires 0 <= j < |positions| => base[positions[j]] + inc[j]))
  }

  /** The impulsive variant (lines 64-67), given the drawn positions and signs. */
  function Impulsive(clean: seq<real>, positions: seq<int>, signs: seq<int>): (r: seq<real>)
    requires |positions| == |signs| && InRange(positions, |clean|)
    ensures |r| == |clean|
  {
    BufferedAdd(clean, positions, seq(|signs|, j requires 0 <= j < |signs| => signs[j] as real * ImpulseAmplitude))
  }

  /** After the assignments, index i holds the value of the last draw that hit
      it, or its original value if no draw did. */
  lemma {:induction false} ScatterAt(base: seq<real>, positions: seq<int>, values: seq<real>, i: int)
    requires |positions| == |values| && InRange(positions, |base|) && 0 <= i < |base|
    ensures Scatter(base, positions, values)[i] ==
      match LastHit(positions, i)
      case Some(j) => values[j]
      case None => base[i]
  {
    if |positions| > 0 {
      var last := |positions| - 1;
      var p, v := positions[..last], values[..last];
      ScatterAt(base, p, v, i);
      if positions[last] != i {
        assert LastHit(positions, i) == LastHit(p, i);
      }
    }
  }

  /** numpy's buffered a[positions] += inc: a position drawn twice gets the
      increment of its last draw, not the sum of both. */
  lemma BufferedAddAt(base: seq<real>, positions: seq<int>, inc: seq<real>, i: int)
    requires |positions| == |inc| && InRange(positions, |base|) && 0 <= i < |base|
    ensures BufferedAdd(base, positions, inc)[i] ==
      match LastHit(positions, i)
      case Some(j) => base[i] + inc[j]
      case None => base[i]
  {
    ScatterAt(base, positions, seq(|positions|, j requires 0 <= j < |positions| => base[positions[j]] + inc[j]), i);
  }

  /** Each sample of the impulsive variant is the clean sample plus 1.5 times
      the sign of the last draw at its index, or the clean sample. */
  lemma ImpulsiveAt(clean: seq<real>, positions: seq<int>, signs: seq<int>, i: int)
    requires |positions| == |signs| && InRange(positions, |clean|) && 0 <= i < |clean|
    ensures Impulsive(clean, positions, signs)[i] ==
      match LastHit(positions, i)
      case Some(j) => clean[i] + signs[j] as real * ImpulseAmplitude
      case None => clean[i]
  {
    BufferedAddAt(clean, positions, seq(|signs|, j requires 0 <= j < |signs| => signs[j] as real * ImpulseAmplitude), i);
  }

  /** Every sample differs from the clean one by 0 or by exactly +-1.5, and it
      differs exactly at the drawn positions. */
  lemma ImpulseDeltas(clean: seq<real>, positions: seq<int>, signs: seq<int>)
    requires |positions| == |signs| && InRange(positions, |clean|) && Signs(signs)
    ensures forall i :: 0 <= i < |clean| ==>
      Impulsive(clean, positions, signs)[i] - clean[i] in {0.0, ImpulseAmplitude, -ImpulseAmplitude}
    ensures ChangedIndices(Impulsive(clean, positions, signs), clean) == PositionSet(positions)
  {
    var r := Impulsive(clean, positions, signs);
    forall i | 0 <= i < |clean|
      ensures r[i] - clean[i] in {0.0, ImpulseAmplitude, -ImpulseAmplitude}
      ensures r[i] != clean[i] <==> i in PositionSet(positions)
    {
      ImpulsiveAt(clean, positions, signs, i);
    }
    forall i | i in PositionSet(positions) ensures i in ChangedIndices(r, clean) {
      var j :| 0 <= j < |positions| && positions[j] == i;
    }
  }

  lemma {:induction false} PositionSetSize(positions: seq<int>)
    ensures |PositionSet(positions)| <= |positions|
  {
    if |positions| > 0 {
      var p := positions[..|positions| - 1];
      assert PositionSet(positions) == PositionSet(p) + {positions[|positions| - 1]};
      PositionSetSize(p);
    }
  }

  /** At most num_impulsos samples change, however the positions repeat. */
  lemma ImpulsesChangeAtMost(clean: seq<real>, positions: seq<int>, signs: seq<int>)
    requires |positions| == |signs| && InRange(positions, |clean|) && Signs(signs)
    ensures |ChangedIndices(Impulsive(clean, positions, signs), clean)| <= |positions|
  {
    ImpulseDeltas(clean, positions, signs);
    PositionSetSize(positions);
  }

  /** Lines 64-67 on arrays: copy the clean signal, gather the sums at the
      drawn positions, and assign them back in draw order. The clean array is
      not written. */
  method InjectImpulses(clean: array<real>, positions: seq<int>, signs: seq<int>) returns (noisy: array<real>)
    requires |positions| == |signs| && InRange(positions, clean.Length)
    ensures fresh(noisy)
    ensures unchanged(clean)
    ensures noisy[..] == Impulsive(clean[..], positions, signs)
  {
    noisy := new real[clean.Length](i requires 0 <= i < clean.Length reads clean => clean[i]);
    var current := noisy[..];
    assert current == clean[..];
    var sums := seq(|positions|, j requires 0 <= j < |positions| => current[positions[j]] + signs[j] as real * ImpulseAmplitude);
    var j := 0;
    while j < |positions|
      invariant 0 <= j <= |positions|
      invariant noisy[..] == Scatter(current, positions[..j], sums[..j])
    {
      assert positions[..j + 1][..j] == positions[..j];
      assert sums[..j + 1][..j] == sums[..j];
      noisy[positions[j]] := sums[j];
      j := j + 1;
    }
    assert positions[..j] == positions && sums[..j] == sums;
    ghost var inc := seq(|signs|, k requires 0 <= k < |signs| => signs[k] as real * ImpulseAmplitude);
    assert sums == seq(|positions|, k requires 0 <= k < |positions| => current[positions[k]] + inc[k]);
  }
}
