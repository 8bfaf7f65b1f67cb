/**
 * Where the two copies of the QC statistics agree and where they part:
 * project/src/utils/calculations.ts against the calculators embedded in
 * project/src/pages/NewSession.tsx, whose results are the ones saved.
 */
module Comparison {
  import opened Records
  import opened QcMath
  import Calculations
  import NewSession

  /** Mean, CV and kV deviation are the same formulas in both copies. */
  lemma SharedStatisticsAgree(v: seq<real>, sd: real, m: real, nom: real)
    ensures NewSession.CalcMean(v) == Calculations.CalculateMean(v)
    ensures NewSession.CalcCV(sd, m) == Calculations.CalculateCV(sd, m)
    ensures NewSession.CalcKvDev(m, nom) == Calculations.CalculateKvDeviation(m, nom)
  {
  }

  /**
   * For two or more readings the sample SD (divisor n − 1) and the population
   * SD (divisor n) about the same mean satisfy s² · (n − 1) = p² · n, so the
   * sample SD is never the smaller.
   */
  lemma SampleSDAtLeastPopulationSD(v: seq<real>, m: real, sqrt: real -> real)
    requires IsSqrt(sqrt) && |v| >= 2
    ensures var s := NewSession.CalcSD(v, m, sqrt);
      var p := Calculations.CalculateSD(v, m, sqrt);
      Square(s) * ((|v| - 1) as real) == Square(p) * (|v| as real) && s >= p
  {
    var s := NewSession.CalcSD(v, m, sqrt);
    var p := Calculations.CalculateSD(v, m, sqrt);
    SquaresOrdered(Square(s), Square(p), |v| as real);
    if s < p {
      SquareLess(s, p, Square(s), Square(p));
    }
  }

  /** ssq · (n − 1) = psq · n with psq ≥ 0 and n > 1 gives ssq ≥ psq. */
  lemma SquaresOrdered(ssq: real, psq: real, n: real)
    requires n > 1.0 && psq >= 0.0 && ssq * (n - 1.0) == psq * n
    ensures ssq >= psq
  {
    assert psq * n == psq * (n - 1.0) + psq;
    ScaleLe(psq, ssq, n - 1.0);
  }

  /** 0 ≤ a < b gives a² < b², on plain numbers. */
  lemma SquareLess(a: real, b: real, asq: real, bsq: real)
    requires 0.0 <= a < b && asq == a * a && bsq == b * b
    ensures asq < bsq
  {
    ScaleLe(0.0, b - a, b + a);
    assert bsq - asq == (b - a) * (b + a);
  }

  /**
   * On a flat dose series (every dose the same, every mas positive) the total
   * sum of squares is 0: the utility reports R² = 0 and the page R² = 1,
   * which is what gets saved and judged against the linearity limit.
   */
  lemma FlatSeriesRSquared(data: seq<Point>, c: real)
    requires |data| >= 2
    requires forall i :: 0 <= i < |data| ==> data[i].mas > 0.0 && data[i].dose == c
    ensures SumMasSq(data) > 0.0
    ensures Calculations.CalculateLinearRegression(data).rSquared == 0.0
    ensures NewSession.CalcLinReg(data).rSquared == 1.0
  {
    SumMasSqPositive(data);
    NewSession.KeepPositiveMasOfPositive(data);
    FlatDoseMean(data, c);
  }

  /** A flat dose series has mean dose c and total sum of squares 0. */
  lemma FlatDoseMean(data: seq<Point>, c: real)
    requires |data| > 0
    requires forall i :: 0 <= i < |data| ==> data[i].dose == c
    ensures MeanDose(data) == c
    ensures SsTotal(data, MeanDose(data)) == 0.0
  {
    FlatDoseSums(data, c);
    var n := |data| as real;
    assert (MeanDose(data) - c) * n == 0.0;
    ProductZero(MeanDose(data) - c, n);
  }

  /** On points with positive mas and a non-zero total sum of squares the two fits coincide. */
  lemma FitsAgreeOnPositiveMas(data: seq<Point>)
    requires |data| >= 2
    requires forall i :: 0 <= i < |data| ==> data[i].mas > 0.0
    requires SsTotal(data, MeanDose(data)) != 0.0
    ensures SumMasSq(data) > 0.0
    ensures NewSession.CalcLinReg(data) == Calculations.CalculateLinearRegression(data)
  {
    SumMasSqPositive(data);
    NewSession.KeepPositiveMasOfPositive(data);
  }

  /** For a positive nominal kV the two verdicts agree. */
  lemma KvVerdictsAgree(m: real, nom: real, pct: real, abs: real)
    requires nom > 0.0
    ensures NewSession.CheckKvPass(m, nom, pct, abs) == Calculations.CheckKvPassed(m, nom, pct, abs)
  {
  }

  /**
   * At nominal 0 (what the page stores for an empty field) the page always
   * fails, while the utility passes whenever |mean| is within the absolute limit.
   */
  lemma KvVerdictsAtZeroNominal(m: real, pct: real, abs: real)
    ensures !NewSession.CheckKvPass(m, 0.0, pct, abs)
    ensures Calculations.CheckKvPassed(m, 0.0, pct, abs) <==> 0.0 <= pct && Abs(m) <= abs
  {
  }

  /**
   * At a negative nominal kV the page's percentage check, which divides by
   * nom without taking its absolute value, accepts any deviation: only the
   * absolute limit decides.
   */
  lemma NegativeNominalSkipsPercentCheck(m: real, nom: real, pct: real, abs: real)
    requires nom < 0.0 && pct >= 0.0
    ensures NewSession.CheckKvPass(m, nom, pct, abs) <==> Abs(m - nom) <= abs
  {
    ScaleLe(0.0, pct, -nom);
    assert pct * nom == -(pct * (-nom));
  }
}
