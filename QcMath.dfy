/**
 * The arithmetic both calculators share: absolute value and square root as
 * the host's Math library provides them, and the sums that the source
 * writes as `reduce` over readings or over (mas, dose) points.
 *
 * Sums are exact over `real`, so the order in which `reduce` adds the terms
 * does not change the value; they are written here from the front.
 */
module QcMath {
  import opened Records

  /** Math.abs */
  function Abs(x: real): (r: real)
    ensures r >= 0.0
    ensures r == x || r == -x
  {
    if x < 0.0 then -x else x
  }

  /** Math.pow(x, 2) and x ** 2 */
  function Square(x: real): (r: real)
    ensures r >= 0.0
  {
    x * x
  }

  /**
   * Math.sqrt is a host function; the model is given it as a parameter and
   * assumes only that it returns the exact non-negative root.
   */
  ghost predicate IsSqrt(sqrt: real -> real) {
    forall v: real :: v >= 0.0 ==> sqrt(v) >= 0.0 && Square(sqrt(v)) == v
  }

  /** Only zero squares to zero. */
  lemma SquareOfNonzero(x: real)
    requires x != 0.0
    ensures Square(x) > 0.0
  {
    if Square(x) == 0.0 {
      ProductZero(x, x);
    }
  }

  /** The square root of zero is zero. */
  lemma SqrtOfZero(sqrt: real -> real)
    requires IsSqrt(sqrt)
    ensures sqrt(0.0) == 0.0
  {
    if sqrt(0.0) != 0.0 {
      SquareOfNonzero(sqrt(0.0));
    }
  }

  lemma ProductZero(a: real, b: real)
    requires a * b == 0.0
    ensures a == 0.0 || b == 0.0
  {
  }

  /** |a·b| = |a|·|b| */
  lemma AbsProduct(a: real, b: real)
    ensures Abs(a * b) == Abs(a) * Abs(b)
  {
    if a < 0.0 && b < 0.0 {
      assert a * b == (-a) * (-b);
    } else if a < 0.0 {
      assert -(a * b) == (-a) * b;
    } else if b < 0.0 {
      assert -(a * b) == a * (-b);
    }
  }

  /** Multiplying both sides by a positive factor keeps the order, in both directions. */
  lemma ScaleLe(x: real, y: real, c: real)
    requires c > 0.0
    ensures x <= y <==> x * c <= y * c
  {
    if x <= y {
      assert (y - x) * c >= 0.0;
    } else {
      assert (x - y) * c > 0.0;
    }
  }

  /** Σ values */
  function Sum(values: seq<real>): real {
    if |values| == 0 then 0.0 else values[0] + Sum(values[1..])
  }

  /** Σ (x − mean)² */
  function SumSquaredDiffs(values: seq<real>, mean: real): (r: real)
    ensures r >= 0.0
  {
    if |values| == 0 then 0.0
    else Square(values[0] - mean) + SumSquaredDiffs(values[1..], mean)
  }

  /** When every value lies in [lo, hi], n·lo ≤ Σ values ≤ n·hi. */
  lemma {:induction false} SumBounds(values: seq<real>, lo: real, hi: real)
    requires forall i :: 0 <= i < |values| ==> lo <= values[i] <= hi
    ensures (|values| as real) * lo <= Sum(values) <= (|values| as real) * hi
  {
    if |values| > 0 {
      SumBounds(values[1..], lo, hi);
    }
  }

  /** A constant sequence sums to n·c and has no spread around c. */
  lemma {:induction false} ConstantSums(values: seq<real>, c: real)
    requires forall i :: 0 <= i < |values| ==> values[i] == c
    ensures Sum(values) == (|values| as real) * c
    ensures SumSquaredDiffs(values, c) == 0.0
  {
    if |values| > 0 {
      ConstantSums(values[1..], c);
    }
  }

  /** Σ (x − mean)² = 0 exactly when every value equals mean. */
  lemma {:induction false} SumSquaredDiffsZero(values: seq<real>, mean: real)
    ensures SumSquaredDiffs(values, mean) == 0.0 <==> forall i :: 0 <= i < |values| ==> values[i] == mean
  {
    if |values| > 0 {
      SumSquaredDiffsZero(values[1..], mean);
      if values[0] != mean {
        SquareOfNonzero(values[0] - mean);
      }
      assert forall i :: 1 <= i < |values| ==> values[i] == values[1..][i - 1];
    }
  }

  /** Σ dose */
  function SumDose(data: seq<Point>): real {
    if |data| == 0 then 0.0 else data[0].dose + SumDose(data[1..])
  }

  /** Σ mas·dose */
  function SumMasDose(data: seq<Point>): real {
    if |data| == 0 then 0.0 else data[0].mas * data[0].dose + SumMasDose(data[1..])
  }

  /** Σ mas² */
  function SumMasSq(data: seq<Point>): (r: real)
    ensures r >= 0.0
  {
    if |data| == 0 then 0.0 else Square(data[0].mas) + SumMasSq(data[1..])
  }

  /** Σ dose² */
  function SumDoseSq(data: seq<Point>): (r: real)
    ensures r >= 0.0
  {
    if |data| == 0 then 0.0 else Square(data[0].dose) + SumDoseSq(data[1..])
  }

  /** Σ (dose − yMean)², the total sum of squares */
  function SsTotal(data: seq<Point>, yMean: real): (r: real)
    ensures r >= 0.0
  {
    if |data| == 0 then 0.0 else Square(data[0].dose - yMean) + SsTotal(data[1..], yMean)
  }

  /** Σ (dose − slope·mas)², the residual sum of squares of the line through the origin */
  function SsResidual(data: seq<Point>, slope: real): (r: real)
    ensures r >= 0.0
  {
    if |data| == 0 then 0.0
    else Square(data[0].dose - slope * data[0].mas) + SsResidual(data[1..], slope)
  }

  /** Mean dose, yMean = Σ dose / n, of a non-empty series. */
  function MeanDose(data: seq<Point>): (m: real)
    requires |data| > 0
    ensures m * (|data| as real) == SumDose(data)
  {
    SumDose(data) / (|data| as real)
  }

  /** The normal equation of a least-squares line through the origin: slope · Σ mas² = Σ mas·dose. */
  predicate SolvesNormalEquation(data: seq<Point>, slope: real) {
    slope * SumMasSq(data) == SumMasDose(data)
  }

  /** R² = 1 − ssResidual / ssTotal in multiplied-out form, with the bound R² ≤ 1. */
  predicate IsExplainedFraction(rSquared: real, ssTotal: real, ssResidual: real) {
    rSquared <= 1.0 && rSquared * ssTotal == ssTotal - ssResidual
  }

  /** Σ mas·dose / Σ mas², the slope that solves the normal equation of a fit through the origin. */
  function OriginSlope(data: seq<Point>): (slope: real)
    requires SumMasSq(data) != 0.0
    ensures SolvesNormalEquation(data, slope)
  {
    SumMasDose(data) / SumMasSq(data)
  }

  /** 1 − ssResidual / ssTotal: at most 1, and R² · ssTotal = ssTotal − ssResidual. */
  function ExplainedFraction(ssTotal: real, ssResidual: real): (rSquared: real)
    requires ssTotal > 0.0 && ssResidual >= 0.0
    ensures IsExplainedFraction(rSquared, ssTotal, ssResidual)
  {
    var q := ssResidual / ssTotal;
    ScaleLe(q, 0.0, ssTotal);
    1.0 - q
  }

  /** A non-empty series whose every mas is positive has Σ mas² > 0. */
  lemma {:induction false} SumMasSqPositive(data: seq<Point>)
    requires |data| > 0
    requires forall i :: 0 <= i < |data| ==> data[i].mas > 0.0
    ensures SumMasSq(data) > 0.0
  {
    SquareOfNonzero(data[0].mas);
  }

  /** Σ mas² = 0 exactly when every mas is 0. */
  lemma {:induction false} SumMasSqZero(data: seq<Point>)
    ensures SumMasSq(data) == 0.0 <==> forall i :: 0 <= i < |data| ==> data[i].mas == 0.0
  {
    if |data| > 0 {
      SumMasSqZero(data[1..]);
      if data[0].mas != 0.0 {
        SquareOfNonzero(data[0].mas);
      }
      assert forall i :: 1 <= i < |data| ==> data[i].mas == data[1..][i - 1].mas;
    }
  }

  /** Σ dose² − 2b·Σ mas·dose + b²·Σ mas², the residual written through the three sums. */
  function ExpandedResidual(syy: real, sxy: real, sxx: real, b: real): real {
    syy - 2.0 * b * sxy + Square(b) * sxx
  }

  /** Σ (dose − b·mas)² = Σ dose² − 2b·Σ mas·dose + b²·Σ mas², for every b. */
  lemma {:induction false} ResidualExpansion(data: seq<Point>, b: real)
    ensures SsResidual(data, b) == ExpandedResidual(SumDoseSq(data), SumMasDose(data), SumMasSq(data), b)
  {
    if |data| > 0 {
      ResidualExpansion(data[1..], b);
      ResidualExcessStep(data, b);
    }
  }

  /** How far the residual is from its expanded form; ResidualExpansion shows it is 0. */
  function ResidualExcess(data: seq<Point>, b: real): real {
    SsResidual(data, b) - ExpandedResidual(SumDoseSq(data), SumMasDose(data), SumMasSq(data), b)
  }

  lemma ResidualExcessStep(data: seq<Point>, b: real)
    requires |data| > 0
    ensures ResidualExcess(data, b) == ResidualExcess(data[1..], b)
  {
    var rest := data[1..];
    var x, y := data[0].mas, data[0].dose;
    ExpandSquare(x, y, b, Square(y - b * x), Square(b), Square(x), Square(y));
    ExcessStep(SsResidual(data, b), SsResidual(rest, b), Square(y - b * x),
               SumDoseSq(data), SumDoseSq(rest), Square(y),
               SumMasDose(data), SumMasDose(rest), x * y,
               SumMasSq(data), SumMasSq(rest), Square(x), b, Square(b));
  }

  /** Peeling one point off all four sums leaves the excess unchanged, on plain numbers. */
  lemma ExcessStep(r: real, rr: real, sq: real, syy: real, syyr: real, ysq: real,
                   sxy: real, sxyr: real, xy: real, sxx: real, sxxr: real, xsq: real,
                   b: real, bsq: real)
    requires r == sq + rr && syy == ysq + syyr && sxy == xy + sxyr && sxx == xsq + sxxr
    requires sq == ysq - 2.0 * b * xy + bsq * xsq
    ensures r - (syy - 2.0 * b * sxy + bsq * sxx) == rr - (syyr - 2.0 * b * sxyr + bsq * sxxr)
  {
    assert 2.0 * b * sxy == 2.0 * b * xy + 2.0 * b * sxyr;
    assert bsq * sxx == bsq * xsq + bsq * sxxr;
  }

  /** (y − b·x)² = y² − 2b·x·y + b²·x², on plain numbers. */
  lemma ExpandSquare(x: real, y: real, b: real, sq: real, bsq: real, xsq: real, ysq: real)
    requires sq == (y - b * x) * (y - b * x)
    requires bsq == b * b && xsq == x * x && ysq == y * y
    ensures sq == ysq - 2.0 * b * (x * y) + bsq * xsq
  {
  }

  /**
   * A slope satisfying the normal equation slope·Σ mas² = Σ mas·dose has the
   * least residual sum of squares of all lines through the origin.
   */
  lemma OriginFitMinimisesResidual(data: seq<Point>, slope: real, b: real)
    requires slope * SumMasSq(data) == SumMasDose(data)
    ensures SsResidual(data, slope) <= SsResidual(data, b)
  {
    ResidualExpansion(data, slope);
    ResidualExpansion(data, b);
    ExpandedGap(SumDoseSq(data), SumMasDose(data), SumMasSq(data), slope, b);
  }

  /** The expanded residual is least at the s solving s·sxx = sxy. */
  lemma ExpandedGap(syy: real, sxy: real, sxx: real, s: real, b: real)
    requires sxx >= 0.0 && s * sxx == sxy
    ensures ExpandedResidual(syy, sxy, sxx, s) <= ExpandedResidual(syy, sxy, sxx, b)
  {
    QuadraticGap(sxx, sxy, syy, s, b, Square(s), Square(b));
  }

  /** The expanded residual at b exceeds the one at s by sxx·(b − s)² ≥ 0. */
  lemma QuadraticGap(sxx: real, sxy: real, syy: real, s: real, b: real, ssq: real, bsq: real)
    requires sxx >= 0.0 && s * sxx == sxy && ssq == s * s && bsq == b * b
    ensures syy - 2.0 * s * sxy + ssq * sxx <= syy - 2.0 * b * sxy + bsq * sxx
  {
    var d := b - s;
    assert bsq * sxx == ssq * sxx + 2.0 * s * d * sxx + d * d * sxx;
    assert 2.0 * b * sxy == 2.0 * s * sxy + 2.0 * d * (s * sxx);
    assert d * d * sxx >= 0.0;
  }

  /** For doses exactly proportional to mas, Σ mas·dose = k·Σ mas² and the residual at k is 0. */
  lemma {:induction false} ProportionalSums(data: seq<Point>, k: real)
    requires forall i :: 0 <= i < |data| ==> data[i].dose == k * data[i].mas
    ensures SumMasDose(data) == k * SumMasSq(data)
    ensures SsResidual(data, k) == 0.0
  {
    if |data| > 0 {
      ProportionalSums(data[1..], k);
      var x := data[0].mas;
      assert x * (k * x) == k * Square(x);
    }
  }

  /** For identical doses c, Σ dose = n·c and the total sum of squares about c is 0. */
  lemma {:induction false} FlatDoseSums(data: seq<Point>, c: real)
    requires forall i :: 0 <= i < |data| ==> data[i].dose == c
    ensures SumDose(data) == (|data| as real) * c
    ensures SsTotal(data, c) == 0.0
  {
    if |data| > 0 {
      FlatDoseSums(data[1..], c);
    }
  }
}
