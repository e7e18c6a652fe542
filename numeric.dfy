/** Numeric building blocks shared by the three scripts: Python's int() on a
    float, sums and means over exact reals, elementwise arithmetic on signals,
    and the IEEE-style outcome of a float division by zero. */
module Numeric {

  datatype Option<T> = None | Some(value: T)

  /** The outcome of a float64 division as numpy scalars produce it: a finite
      value, or +inf / -inf / NaN when the divisor is zero (numpy warns and
      carries on; it does not raise). */
  datatype Extended = Finite(value: real) | PosInf | NegInf | NaN

  /** a / b on float64 scalars, over exact reals. */
  function Divide(a: real, b: real): (r: Extended)
    ensures r.Finite? <==> b != 0.0
    ensures r.Finite? ==> r.value * b == a
    ensures r.NaN? <==> a == 0.0 && b == 0.0
    ensures r.PosInf? <==> a > 0.0 && b == 0.0
    ensures r.NegInf? <==> a < 0.0 && b == 0.0
  {
    if b != 0.0 then Finite(a / b)
    else if a > 0.0 then PosInf
    else if a < 0.0 then NegInf
    else NaN
  }

  /** Python's int() applied to a float: truncation toward zero. */
  function Truncate(x: real): (r: int)
    ensures 0.0 <= x ==> 0 <= r && r as real <= x < r as real + 1.0
    ensures x < 0.0 ==> r <= 0 && r as real - 1.0 < x <= r as real
  {
    if x >= 0.0 then x.Floor else -((-x).Floor)
  }

  /** Python's sum() over a sequence of floats, added left to right. */
  function Sum(s: seq<real>): real
  {
    if |s| == 0 then 0.0 else Sum(s[..|s| - 1]) + s[|s| - 1]
  }

  /** sum() over a list of Python ints. */
  function SumInt(s: seq<int>): int
  {
    if |s| == 0 then 0 else SumInt(s[..|s| - 1]) + s[|s| - 1]
  }

  /** np.mean, and the manual sum(x) / N of the scripts. */
  function Mean(s: seq<real>): (m: real)
    requires |s| > 0
    ensures m * |s| as real == Sum(s)
  {
    Sum(s) / |s| as real
  }

  /** The signal holding the constant c at each of its n samples. */
  function Constant(n: nat, c: real): (s: seq<real>)
    ensures |s| == n && forall i :: 0 <= i < n ==> s[i] == c
  {
    seq(n, _ => c)
  }

  /** Elementwise a + b of two numpy arrays of one length. */
  function Add(a: seq<real>, b: seq<real>): (r: seq<real>)
    requires |a| == |b|
    ensures |r| == |a|
  {
    seq(|a|, i requires 0 <= i < |a| => a[i] + b[i])
  }

  /** Elementwise a - b of two numpy arrays of one length. */
  function Difference(a: seq<real>, b: seq<real>): (r: seq<real>)
    requires |a| == |b|
    ensures |r| == |a|
  {
    seq(|a|, i requires 0 <= i < |a| => a[i] - b[i])
  }

  /** k * a for a scalar k and a numpy array a. */
  function Scale(k: real, a: seq<real>): (r: seq<real>)
    ensures |r| == |a|
  {
    seq(|a|, i requires 0 <= i < |a| => k * a[i])
  }

  function Identity(x: real): real { x }

  /** A value times b giving a is the quotient a / b. */
  lemma QuotientOf(r: real, a: real, b: real)
    requires b != 0.0 && r * b == a
    ensures r == a / b
  {
  }

  /** x ** 2. The second factor goes through Identity so that the solver
      treats the square as a product of two factors, which it reasons about
      far better than about a power of one term. */
  function Square(x: real): (r: real)
    ensures r >= 0.0
    ensures r == 0.0 <==> x == 0.0
  {
    x * Identity(x)
  }

  /** (k * x) ** 2 == k ** 2 * x ** 2. */
  lemma ScaledSquare(k: real, x: real)
    ensures Square(k * x) == Square(k) * Square(x)
  {
  }

  /** a ** 2, elementwise. */
  function Squares(a: seq<real>): (r: seq<real>)
    ensures |r| == |a|
    ensures forall i :: 0 <= i < |a| ==> r[i] >= 0.0 && (r[i] == 0.0 <==> a[i] == 0.0)
  {
    seq(|a|, i requires 0 <= i < |a| => Square(a[i]))
  }

  /** Summing n copies of c gives n * c. */
  lemma {:induction false} SumConstant(n: nat, c: real)
    ensures Sum(Constant(n, c)) == n as real * c
  {
    if n > 0 {
      assert Constant(n, c)[..n - 1] == Constant(n - 1, c);
      SumConstant(n - 1, c);
    }
  }

  /** A sum of non-negative terms is non-negative, and it is zero exactly
      when every term is. */
  lemma {:induction false} SumNonNegative(s: seq<real>)
    requires forall i :: 0 <= i < |s| ==> s[i] >= 0.0
    ensures Sum(s) >= 0.0
    ensures Sum(s) == 0.0 <==> forall i :: 0 <= i < |s| ==> s[i] == 0.0
  {
    if |s| > 0 {
      var p := s[..|s| - 1];
      assert forall i :: 0 <= i < |p| ==> p[i] == s[i];
      SumNonNegative(p);
    }
  }

  /** Scaling every term by k scales the sum by k. */
  lemma {:induction false} SumScaled(a: seq<real>, b: seq<real>, k: real)
    requires |a| == |b|
    requires forall i :: 0 <= i < |a| ==> a[i] == b[i] * k
    ensures Sum(a) == Sum(b) * k
  {
    if |a| > 0 {
      SumScaled(a[..|a| - 1], b[..|b| - 1], k);
    }
  }

  /** The same, for terms that are counts. */
  lemma {:induction false} SumScaledCounts(a: seq<real>, c: seq<int>, k: real)
    requires |a| == |c|
    requires forall i :: 0 <= i < |a| ==> a[i] == c[i] as real * k
    ensures Sum(a) == SumInt(c) as real * k
  {
    if |a| > 0 {
      SumScaledCounts(a[..|a| - 1], c[..|c| - 1], k);
    }
  }
}
