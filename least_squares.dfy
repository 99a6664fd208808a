/**
 * The growth-slope feature: the slope of the degree-one least-squares fit of
 * values y[0], ..., y[n-1] against their positions 0, ..., n-1, in closed
 * form over the reals:
 *
 *   slope = (n * sum(i * y[i]) - sum(i) * sum(y[i])) / (n * sum(i * i) - sum(i)^2)
 */
module LeastSquares {
  import opened Numeric

  /** Sum of the positions 0 .. n-1. */
  function IndexSum(n: nat): real
  {
    if n == 0 then 0.0 else IndexSum(n - 1) + (n - 1) as real
  }

  /** Sum of the squared positions 0 .. n-1. */
  function IndexSquareSum(n: nat): real
  {
    if n == 0 then 0.0 else IndexSquareSum(n - 1) + (n - 1) as real * (n - 1) as real
  }

  /** Sum of position times value. */
  function WeightedSum(ys: seq<real>): real
  {
    if |ys| == 0 then 0.0
    else WeightedSum(ys[..|ys| - 1]) + (|ys| - 1) as real * ys[|ys| - 1]
  }

  /** Numerator of the closed-form slope (n^2 times the covariance of positions and values). */
  function Covariance(ys: seq<real>): real
  {
    |ys| as real * WeightedSum(ys) - IndexSum(|ys|) * Sum(ys)
  }

  /** Denominator of the closed-form slope (n^2 times the variance of the positions). */
  function Spread(n: nat): real
  {
    n as real * IndexSquareSum(n) - IndexSum(n) * IndexSum(n)
  }

  lemma {:induction false} IndexSumClosed(n: nat)
    ensures 2.0 * IndexSum(n) == n as real * (n as real - 1.0)
  {
    if n > 0 {
      IndexSumClosed(n - 1);
    }
  }

  lemma {:induction false} IndexSquareSumClosed(n: nat)
    ensures 6.0 * IndexSquareSum(n) == (n as real - 1.0) * n as real * (2.0 * n as real - 1.0)
  {
    if n > 0 {
      IndexSquareSumClosed(n - 1);
      var m := (n - 1) as real;
      assert 6.0 * IndexSquareSum(n) == (m - 1.0) * m * (2.0 * m - 1.0) + 6.0 * m * m;
      assert (m - 1.0) * m * (2.0 * m - 1.0) + 6.0 * m * m == m * (m + 1.0) * (2.0 * m + 1.0);
    }
  }

  /** The denominator in closed form: n^2 (n^2 - 1) / 12. */
  lemma {:induction false} SpreadClosed(n: nat)
    ensures 12.0 * Spread(n) == n as real * n as real * (n as real * n as real - 1.0)
  {
    IndexSumClosed(n);
    IndexSquareSumClosed(n);
    var sx, sxx, x := IndexSum(n), IndexSquareSum(n), n as real;
    assert 12.0 * Spread(n) == 2.0 * x * (6.0 * sxx) - 3.0 * (2.0 * sx) * (2.0 * sx);
    assert 2.0 * x * ((x - 1.0) * x * (2.0 * x - 1.0)) - 3.0 * (x * (x - 1.0)) * (x * (x - 1.0))
        == x * x * (x * x - 1.0);
  }

  /** The positions have non-zero spread exactly when there are two or more of them. */
  lemma {:induction false} SpreadPositive(n: nat)
    ensures Spread(n) > 0.0 <==> n >= 2
  {
    SpreadClosed(n);
    var x := n as real;
    if n >= 2 {
      assert x * x >= 4.0;
      assert x * x * (x * x - 1.0) > 0.0;
    } else {
      assert x * x * (x * x - 1.0) == 0.0;
    }
  }

  /**
   * The slope b of the line a + b * i that minimises the squared error
   * against ys[i], i.e. the first coefficient of a degree-one polynomial fit
   * over the positions 0 .. |ys|-1.  The fit is determined for two or more
   * points (SpreadPositive); with fewer the slope is taken to be 0.
   */
  function Slope(ys: seq<real>): (b: real)
    ensures |ys| < 2 ==> b == 0.0
    ensures |ys| >= 2 ==> b * Spread(|ys|) == Covariance(ys)
  {
    SpreadPositive(|ys|);
    assert IndexSum(1) == 0.0 && IndexSquareSum(1) == 0.0;
    Ratio(Covariance(ys), Spread(|ys|))
  }

  /** c / d, taken to be 0 when d is 0. */
  function Ratio(c: real, d: real): real
  {
    if d == 0.0 then 0.0 else c / d
  }

  /** A ratio with a non-zero denominator is the factor that recovers the numerator. */
  lemma {:induction false} RatioOf(c: real, d: real, b: real)
    ensures d != 0.0 && c == b * d ==> Ratio(c, d) == b
  {
  }

  /** The points a + b*i for i in 0 .. n-1. */
  function Line(a: real, b: real, n: nat): (ys: seq<real>)
    ensures |ys| == n
  {
    seq(n, i => a + b * i as real)
  }

  /** Every value moved by the same constant c. */
  function Shifted(ys: seq<real>, c: real): (zs: seq<real>)
    ensures |zs| == |ys|
  {
    seq(|ys|, i requires 0 <= i < |ys| => ys[i] + c)
  }

  /** The points b*i for i in 0 .. n-1: a line through the origin. */
  function Ramp(b: real, n: nat): (ys: seq<real>)
    ensures |ys| == n
  {
    seq(n, i => b * i as real)
  }

  lemma {:induction false} RampSum(b: real, n: nat)
    ensures Sum(Ramp(b, n)) == b * IndexSum(n)
  {
    if n > 0 {
      var ys := Ramp(b, n);
      assert ys[..n - 1] == Ramp(b, n - 1);
      assert Sum(ys[..n - 1]) == b * IndexSum(n - 1) by { RampSum(b, n - 1); }
    }
  }

  lemma {:induction false} RampWeightedSum(b: real, n: nat)
    ensures WeightedSum(Ramp(b, n)) == b * IndexSquareSum(n)
  {
    if n > 0 {
      var ys := Ramp(b, n);
      assert ys[..n - 1] == Ramp(b, n - 1);
      assert WeightedSum(ys[..n - 1]) == b * IndexSquareSum(n - 1) by { RampWeightedSum(b, n - 1); }
      var m := (n - 1) as real;
      assert ys[n - 1] == b * m;
      assert m * (b * m) == b * (m * m);
    }
  }

  lemma {:induction false} RampCovarianceAlgebra(nn: real, sx: real, sxx: real, b: real, w: real, s: real)
    ensures w == b * sxx && s == b * sx ==> nn * w - sx * s == b * (nn * sxx - sx * sx)
  {
  }

  lemma {:induction false} RampCovariance(b: real, n: nat)
    ensures Covariance(Ramp(b, n)) == b * Spread(n)
  {
    var ys := Ramp(b, n);
    var w, s := WeightedSum(ys), Sum(ys);
    assert w == b * IndexSquareSum(n) && s == b * IndexSum(n) by {
      RampSum(b, n);
      RampWeightedSum(b, n);
    }
    assert Covariance(ys) == n as real * w - IndexSum(n) * s;
    RampCovarianceAlgebra(n as real, IndexSum(n), IndexSquareSum(n), b, w, s);
  }

  lemma {:induction false} SlopeOfRamp(b: real, n: nat)
    requires n >= 2
    ensures Slope(Ramp(b, n)) == b
  {
    SpreadPositive(n);
    RampCovariance(b, n);
    RatioOf(Covariance(Ramp(b, n)), Spread(n), b);
  }

  /** The fit is exact on points that already lie on a line: it recovers that line's slope. */
  lemma {:induction false} SlopeOfLine(a: real, b: real, n: nat)
    requires n >= 2
    ensures Slope(Line(a, b, n)) == b
  {
    assert Line(a, b, n) == Shifted(Ramp(b, n), a);
    SlopeShiftInvariant(Ramp(b, n), a);
    SlopeOfRamp(b, n);
  }

  lemma {:induction false} ShiftStepAlgebra(w: real, c: real, sx: real, m: real, y: real)
    ensures (w + c * sx) + m * (y + c) == (w + m * y) + c * (sx + m)
  {
  }

  lemma {:induction false} ShiftedSums(ys: seq<real>, c: real)
    ensures Sum(Shifted(ys, c)) == Sum(ys) + c * |ys| as real
    ensures WeightedSum(Shifted(ys, c)) == WeightedSum(ys) + c * IndexSum(|ys|)
  {
    if |ys| > 0 {
      var init := ys[..|ys| - 1];
      ShiftedSums(init, c);
      var zs := Shifted(ys, c);
      assert zs[..|ys| - 1] == Shifted(init, c);
      var m := (|ys| - 1) as real;
      ShiftStepAlgebra(WeightedSum(init), c, IndexSum(|ys| - 1), m, ys[|ys| - 1]);
    }
  }

  lemma {:induction false} ShiftCovarianceAlgebra(nn: real, w: real, s: real, c: real, sx: real)
    ensures nn * (w + c * sx) - sx * (s + c * nn) == nn * w - sx * s
  {
  }

  /** Adding the same constant to every value leaves the slope unchanged. */
  lemma {:induction false} SlopeShiftInvariant(ys: seq<real>, c: real)
    ensures Slope(Shifted(ys, c)) == Slope(ys)
  {
    ShiftedSums(ys, c);
    ShiftCovarianceAlgebra(|ys| as real, WeightedSum(ys), Sum(ys), c, IndexSum(|ys|));
    assert Covariance(Shifted(ys, c)) == Covariance(ys);
  }
}
