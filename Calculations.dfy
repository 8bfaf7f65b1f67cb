/**
 * The general-purpose statistics utility of project/src/utils/calculations.ts:
 * mean, population standard deviation, coefficient of variation, kV
 * deviation and verdict, and the least-squares line through the origin.
 */
module Calculations {
  import opened Records
  import opened QcMath

  /** calculateMean: 0 for no values, otherwise Σ values / n. */
  function CalculateMean(values: seq<real>): (m: real)
    ensures |values| == 0 ==> m == 0.0
    ensures |values| > 0 ==> m * (|values| as real) == Sum(values)
  {
    if |values| == 0 then 0.0 else Sum(values) / (|values| as real)
  }

  /** The mean of values that all lie in [lo, hi] lies in [lo, hi]. */
  lemma MeanWithinBounds(values: seq<real>, lo: real, hi: real)
    requires |values| > 0
    requires forall i :: 0 <= i < |values| ==> lo <= values[i] <= hi
    ensures lo <= CalculateMean(values) <= hi
  {
    var n := |values| as real;
    SumBounds(values, lo, hi);
    ScaleLe(lo, CalculateMean(values), n);
    ScaleLe(CalculateMean(values), hi, n);
  }

  /**
   * calculateSD: 0 for no values, otherwise the square root of the
   * population variance Σ (x − mean)² / n.
   */
  function CalculateSD(values: seq<real>, mean: real, sqrt: real -> real): (sd: real)
    requires IsSqrt(sqrt)
    ensures |values| == 0 ==> sd == 0.0
    ensures sd >= 0.0
    ensures Square(sd) * (|values| as real) == SumSquaredDiffs(values, mean)
  {
    if |values| == 0 then 0.0
    else
      var variance := SumSquaredDiffs(values, mean) / (|values| as real);
      sqrt(variance)
  }

  /** The population SD is 0 exactly when every value equals the mean it is taken about. */
  lemma ZeroSDIffConstant(values: seq<real>, mean: real, sqrt: real -> real)
    requires IsSqrt(sqrt)
    requires |values| > 0
    ensures CalculateSD(values, mean, sqrt) == 0.0
        <==> forall i :: 0 <= i < |values| ==> values[i] == mean
  {
    var sd := CalculateSD(values, mean, sqrt);
    SumSquaredDiffsZero(values, mean);
    if sd != 0.0 {
      SquareOfNonzero(sd);
      assert Square(sd) * (|values| as real) > 0.0;
    }
  }

  /** Identical readings c have mean c and population SD 0. */
  lemma ConstantReadings(values: seq<real>, c: real, sqrt: real -> real)
    requires IsSqrt(sqrt)
    requires |values| > 0
    requires forall i :: 0 <= i < |values| ==> values[i] == c
    ensures CalculateMean(values) == c
    ensures CalculateSD(values, CalculateMean(values), sqrt) == 0.0
  {
    ConstantSums(values, c);
    ScaleLe(CalculateMean(values), c, |values| as real);
    ScaleLe(c, CalculateMean(values), |values| as real);
    ZeroSDIffConstant(values, c, sqrt);
  }

  /** calculateCV: 0 when the mean is 0, otherwise sd / mean. */
  function CalculateCV(sd: real, mean: real): (cv: real)
    ensures mean == 0.0 ==> cv == 0.0
    ensures mean != 0.0 ==> cv * mean == sd
  {
    if mean == 0.0 then 0.0 else sd / mean
  }

  /** For a positive mean, cv ≤ limit exactly when sd ≤ limit · mean. */
  lemma CvWithinLimit(sd: real, mean: real, limit: real)
    requires mean > 0.0
    ensures CalculateCV(sd, mean) <= limit <==> sd <= limit * mean
  {
    ScaleLe(CalculateCV(sd, mean), limit, mean);
  }

  /** calculateKvDeviation: 0 for nominal 0, otherwise the signed percentage ((mean − nominal) / nominal) · 100. */
  function CalculateKvDeviation(mean: real, nominal: real): (dev: real)
    ensures nominal == 0.0 ==> dev == 0.0
    ensures nominal != 0.0 ==> dev * nominal == (mean - nominal) * 100.0
    ensures nominal > 0.0 ==> (dev > 0.0 <==> mean > nominal) && (dev < 0.0 <==> mean < nominal)
  {
    if nominal == 0.0 then 0.0
    else
      var d := ((mean - nominal) / nominal) * 100.0;
      DeviationSign(d, mean, nominal);
      d
  }

  /** A d with d · nominal = (mean − nominal) · 100 and nominal > 0 has the sign of mean − nominal. */
  lemma DeviationSign(d: real, mean: real, nominal: real)
    requires nominal != 0.0 && d == ((mean - nominal) / nominal) * 100.0
    ensures d * nominal == (mean - nominal) * 100.0
    ensures nominal > 0.0 ==> (d > 0.0 <==> mean > nominal) && (d < 0.0 <==> mean < nominal)
  {
    if nominal > 0.0 {
      ScaleLe(d, 0.0, nominal);
      ScaleLe(0.0, d, nominal);
    }
  }

  /** |deviation| ≤ limit, written without the division: |mean − nominal| · 100 ≤ limit · |nominal|. */
  lemma KvPercentWithinLimit(mean: real, nominal: real, percentLimit: real)
    ensures nominal != 0.0 ==>
      (Abs(CalculateKvDeviation(mean, nominal)) <= percentLimit <==>
       Abs(mean - nominal) * 100.0 <= percentLimit * Abs(nominal))
  {
    if nominal != 0.0 {
      var dev := CalculateKvDeviation(mean, nominal);
      AbsProduct(dev, nominal);
      AbsProduct(mean - nominal, 100.0);
      ScaleLe(Abs(dev), percentLimit, Abs(nominal));
    }
  }

  /** checkKvPassed: the percentage deviation and the absolute deviation are both within their limits. */
  function CheckKvPassed(mean: real, nominal: real, percentLimit: real, absoluteLimit: real): (passed: bool)
    ensures nominal != 0.0 ==>
      (passed <==> Abs(mean - nominal) * 100.0 <= percentLimit * Abs(nominal)
                   && Abs(mean - nominal) <= absoluteLimit)
    ensures nominal == 0.0 ==> (passed <==> 0.0 <= percentLimit && Abs(mean) <= absoluteLimit)
  {
    KvPercentWithinLimit(mean, nominal, percentLimit);
    var percentDeviation := Abs(CalculateKvDeviation(mean, nominal));
    var absoluteDeviation := Abs(mean - nominal);
    percentDeviation <= percentLimit && absoluteDeviation <= absoluteLimit
  }

  /** Raising either limit never turns a pass into a fail. */
  lemma KvVerdictMonotone(mean: real, nominal: real, pct: real, abs: real, pct2: real, abs2: real)
    requires pct <= pct2 && abs <= abs2
    requires CheckKvPassed(mean, nominal, pct, abs)
    ensures CheckKvPassed(mean, nominal, pct2, abs2)
  {
  }

  /**
   * calculateLinearRegression: (0, 0) for fewer than two points; otherwise
   * slope = Σ mas·dose / Σ mas² and R² = 1 − ssResidual / ssTotal, or 0 when
   * ssTotal = 0. The caller must not pass two or more points whose mas are
   * all 0: there the source divides 0 by 0.
   */
  function CalculateLinearRegression(data: seq<Point>): (r: Regression)
    requires |data| >= 2 ==> SumMasSq(data) != 0.0
    ensures |data| < 2 ==> r == Regression(0.0, 0.0)
    ensures |data| >= 2 ==> SolvesNormalEquation(data, r.slope)
    ensures |data| >= 2 && SsTotal(data, MeanDose(data)) == 0.0 ==> r.rSquared == 0.0
    ensures |data| >= 2 && SsTotal(data, MeanDose(data)) != 0.0 ==>
      IsExplainedFraction(r.rSquared, SsTotal(data, MeanDose(data)), SsResidual(data, r.slope))
  {
    if |data| < 2 then Regression(0.0, 0.0)
    else
      var slope := OriginSlope(data);
      var yMean := MeanDose(data);
      var ssTotal := SsTotal(data, yMean);
      var ssResidual := SsResidual(data, slope);
      var rSquared := if ssTotal == 0.0 then 0.0 else ExplainedFraction(ssTotal, ssResidual);
      Regression(slope, rSquared)
  }

  /** The fitted slope has the least residual sum of squares of every line through the origin. */
  lemma RegressionIsLeastSquares(data: seq<Point>, b: real)
    requires |data| >= 2 && SumMasSq(data) != 0.0
    ensures SsResidual(data, CalculateLinearRegression(data).slope) <= SsResidual(data, b)
  {
    OriginFitMinimisesResidual(data, CalculateLinearRegression(data).slope, b);
  }

  /** For doses exactly k·mas, the slope is k and the residual is 0 (so R² is 1 unless ssTotal is 0). */
  lemma ProportionalRegression(data: seq<Point>, k: real)
    requires |data| >= 2 && SumMasSq(data) != 0.0
    requires forall i :: 0 <= i < |data| ==> data[i].dose == k * data[i].mas
    ensures CalculateLinearRegression(data).slope == k
    ensures SsResidual(data, k) == 0.0
    ensures SsTotal(data, MeanDose(data)) != 0.0 ==> CalculateLinearRegression(data).rSquared == 1.0
  {
    var slope := CalculateLinearRegression(data).slope;
    ProportionalSums(data, k);
    assert (slope - k) * SumMasSq(data) == 0.0;
    ProductZero(slope - k, SumMasSq(data));
  }
}
