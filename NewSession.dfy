/**
 * The data-entry page of project/src/pages/NewSession.tsx: its own copy of
 * the statistics (which differs from the utility module in the SD divisor,
 * the R² of a flat series and the kV verdict), the three per-test gates that
 * turn the form fields into results, and the save guard.
 *
 * Every text field reaches the model after parseFloat: a reading is an
 * Option<real> whose None stands for NaN.
 */
module NewSession {
  import opened Common
  import opened Records
  import opened QcMath

  /* ======  Embedded calculators  ====== */

  /** calcMean: 0 for no values, otherwise Σ v / n. */
  function CalcMean(v: seq<real>): (m: real)
    ensures |v| == 0 ==> m == 0.0
    ensures |v| > 0 ==> m * (|v| as real) == Sum(v)
  {
    if |v| > 0 then Sum(v) / (|v| as real) else 0.0
  }

  /** calcSD: 0 for fewer than two values, otherwise the sample SD, √(Σ (x − m)² / (n − 1)). */
  function CalcSD(v: seq<real>, m: real, sqrt: real -> real): (sd: real)
    requires IsSqrt(sqrt)
    ensures |v| < 2 ==> sd == 0.0
    ensures sd >= 0.0
    ensures |v| >= 2 ==> Square(sd) * ((|v| - 1) as real) == SumSquaredDiffs(v, m)
  {
    if |v| < 2 then 0.0
    else
      var sq := SumSquaredDiffs(v, m);
      sqrt(sq / ((|v| - 1) as real))
  }

  /** For two or more values the sample SD is 0 exactly when every value equals m. */
  lemma SampleSDZeroIffConstant(v: seq<real>, m: real, sqrt: real -> real)
    requires IsSqrt(sqrt)
    requires |v| >= 2
    ensures CalcSD(v, m, sqrt) == 0.0 <==> forall i :: 0 <= i < |v| ==> v[i] == m
  {
    var sd := CalcSD(v, m, sqrt);
    SumSquaredDiffsZero(v, m);
    if sd != 0.0 {
      SquareOfNonzero(sd);
      assert Square(sd) * ((|v| - 1) as real) > 0.0;
    }
  }

  /** calcCV: 0 when the mean is 0, otherwise sd / m. */
  function CalcCV(sd: real, m: real): (cv: real)
    ensures m == 0.0 ==> cv == 0.0
    ensures m != 0.0 ==> cv * m == sd
  {
    if m == 0.0 then 0.0 else sd / m
  }

  /** calcKvDev: 0 for nominal 0, otherwise the signed percentage ((m − nom) / nom) · 100. */
  function CalcKvDev(m: real, nom: real): (dev: real)
    ensures nom == 0.0 ==> dev == 0.0
    ensures nom != 0.0 ==> dev * nom == (m - nom) * 100.0
  {
    if nom == 0.0 then 0.0 else ((m - nom) / nom) * 100.0
  }

  /**
   * checkKvPass: (|m − nom| / nom) · 100 ≤ pctLim and |m − nom| ≤ absLim.
   * The source divides by nom without a guard; for nom = 0 the quotient is
   * +Infinity (m ≠ 0) or NaN (m = 0), and neither compares ≤ a finite limit,
   * so the verdict is a fail.
   */
  function CheckKvPass(m: real, nom: real, pctLim: real, absLim: real): (passed: bool)
    ensures nom == 0.0 ==> !passed
    ensures nom > 0.0 ==>
      (passed <==> Abs(m - nom) * 100.0 <= pctLim * nom && Abs(m - nom) <= absLim)
    ensures nom < 0.0 ==>
      (passed <==> pctLim * nom <= Abs(m - nom) * 100.0 && Abs(m - nom) <= absLim)
  {
    var dev := Abs(m - nom);
    if nom == 0.0 then false
    else
      var pctDev := (dev / nom) * 100.0;
      PercentAgainstLimit(dev, nom, pctDev, pctLim);
      pctDev <= pctLim && dev <= absLim
  }

  /** (dev / nom) · 100 ≤ pctLim, multiplied out by nom (which flips the order when nom < 0). */
  lemma PercentAgainstLimit(dev: real, nom: real, pctDev: real, pctLim: real)
    requires nom != 0.0 && pctDev == (dev / nom) * 100.0
    ensures nom > 0.0 ==> (pctDev <= pctLim <==> dev * 100.0 <= pctLim * nom)
    ensures nom < 0.0 ==> (pctDev <= pctLim <==> pctLim * nom <= dev * 100.0)
  {
    assert pctDev * nom == dev * 100.0;
    if nom > 0.0 {
      ScaleLe(pctDev, pctLim, nom);
    } else {
      ScaleLe(pctDev, pctLim, -nom);
      assert pctDev * (-nom) == -(dev * 100.0);
    }
  }

  /** Raising either limit never turns a pass into a fail. */
  lemma KvPassMonotone(m: real, nom: real, pct: real, abs: real, pct2: real, abs2: real)
    requires pct <= pct2 && abs <= abs2
    requires CheckKvPass(m, nom, pct, abs)
    ensures CheckKvPass(m, nom, pct2, abs2)
  {
    if nom < 0.0 {
      assert pct2 * nom <= pct * nom by {
        ScaleLe(pct, pct2, -nom);
      }
    } else if nom > 0.0 {
      assert pct * nom <= pct2 * nom by {
        ScaleLe(pct, pct2, nom);
      }
    }
  }

  /**
   * The filter of calcLinReg: points with finite mas and dose (every real
   * is finite) and mas > 0, in their original order.
   */
  function KeepPositiveMas(pts: seq<Point>): (valid: seq<Point>)
    ensures IsSubsequence(valid, pts)
    ensures forall i :: 0 <= i < |valid| ==> valid[i].mas > 0.0
    ensures forall i :: 0 <= i < |pts| && pts[i].mas > 0.0 ==> pts[i] in valid
    decreases |pts|
  {
    if |pts| == 0 then []
    else
      var rest := KeepPositiveMas(pts[1..]);
      assert forall i :: 1 <= i < |pts| ==> pts[i] == pts[1..][i - 1];
      if pts[0].mas > 0.0 then
        assert ([pts[0]] + rest)[1..] == rest;
        [pts[0]] + rest
      else rest
  }

  /**
   * The filter distributes over concatenation. With the contract above,
   * which fixes the result on zero and one points, this pins the filter down:
   * every point with mas > 0 is kept, once per occurrence, in order.
   */
  lemma {:induction false} KeepPositiveMasAppend(a: seq<Point>, b: seq<Point>)
    ensures KeepPositiveMas(a + b) == KeepPositiveMas(a) + KeepPositiveMas(b)
    decreases |a|
  {
    if |a| == 0 {
      assert a + b == b;
    } else {
      assert (a + b)[0] == a[0] && (a + b)[1..] == a[1..] + b;
      KeepPositiveMasAppend(a[1..], b);
    }
  }

  /** A series whose every mas is positive passes the filter unchanged. */
  lemma {:induction false} KeepPositiveMasOfPositive(pts: seq<Point>)
    requires forall i :: 0 <= i < |pts| ==> pts[i].mas > 0.0
    ensures KeepPositiveMas(pts) == pts
    decreases |pts|
  {
    if |pts| > 0 {
      KeepPositiveMasOfPositive(pts[1..]);
      assert [pts[0]] + pts[1..] == pts;
    }
  }

  /** Filtering twice is filtering once. */
  lemma KeepPositiveMasIdempotent(pts: seq<Point>)
    ensures KeepPositiveMas(KeepPositiveMas(pts)) == KeepPositiveMas(pts)
  {
    KeepPositiveMasOfPositive(KeepPositiveMas(pts));
  }

  /**
   * calcLinReg: over the kept points, (0, 0) for fewer than two; otherwise the
   * slope Σ mas·dose / Σ mas² (defined, since every kept mas is positive) and
   * R² = 1 − ssRes / ssTot, or 1 when ssTot = 0.
   */
  function CalcLinReg(pts: seq<Point>): (r: Regression)
    ensures var valid := KeepPositiveMas(pts);
      && (|valid| < 2 ==> r == Regression(0.0, 0.0))
      && (|valid| >= 2 ==>
            SumMasSq(valid) > 0.0
            && SolvesNormalEquation(valid, r.slope)
            && (SsTotal(valid, MeanDose(valid)) == 0.0 ==> r.rSquared == 1.0)
            && (SsTotal(valid, MeanDose(valid)) != 0.0 ==>
                  IsExplainedFraction(r.rSquared, SsTotal(valid, MeanDose(valid)), SsResidual(valid, r.slope))))
  {
    var valid := KeepPositiveMas(pts);
    if |valid| < 2 then Regression(0.0, 0.0)
    else
      SumMasSqPositive(valid);
      var slope := OriginSlope(valid);
      var ssTot := SsTotal(valid, MeanDose(valid));
      var ssRes := SsResidual(valid, slope);
      var rSquared := if ssTot == 0.0 then 1.0 else ExplainedFraction(ssTot, ssRes);
      Regression(slope, rSquared)
  }

  /* ======  Parsing the form fields  ====== */

  /** `readings.map(parseFloat).filter(v => !isNaN(v))`: the readings that parse, in order. */
  function ParseReadings(raw: seq<Option<real>>): (r: seq<real>)
    ensures |r| <= |raw|
    ensures |r| == |raw| <==> forall i :: 0 <= i < |raw| ==> raw[i].Some?
    ensures forall i :: 0 <= i < |r| ==> Some(r[i]) in raw
    ensures forall i :: 0 <= i < |raw| && raw[i].Some? ==> raw[i].value in r
    ensures |r| == |raw| ==> forall i :: 0 <= i < |r| ==> Some(r[i]) == raw[i]
    decreases |raw|
  {
    if |raw| == 0 then []
    else
      var rest := ParseReadings(raw[1..]);
      assert forall i :: 1 <= i < |raw| ==> raw[i] == raw[1..][i - 1];
      if raw[0].Some? then [raw[0].value] + rest else rest
  }

  /** The reading filter distributes over concatenation: each field is kept or dropped on its own, in order. */
  lemma {:induction false} ParseReadingsAppend(a: seq<Option<real>>, b: seq<Option<real>>)
    ensures ParseReadings(a + b) == ParseReadings(a) + ParseReadings(b)
    decreases |a|
  {
    if |a| == 0 {
      assert a + b == b;
    } else {
      assert (a + b)[0] == a[0] && (a + b)[1..] == a[1..] + b;
      ParseReadingsAppend(a[1..], b);
    }
  }

  /** `Number.isFinite(mas) && Number.isFinite(dose)`: the rows whose two fields both parse, in order. */
  function FinitePoints(rows: seq<RawPoint>): (pts: seq<Point>)
    ensures |pts| <= |rows|
    ensures forall i :: 0 <= i < |rows| && rows[i].mas.Some? && rows[i].dose.Some? ==>
      Point(rows[i].mas.value, rows[i].dose.value) in pts
    ensures forall j :: 0 <= j < |pts| ==> RawPoint(Some(pts[j].mas), Some(pts[j].dose)) in rows
    decreases |rows|
  {
    if |rows| == 0 then []
    else
      var rest := FinitePoints(rows[1..]);
      assert forall i :: 1 <= i < |rows| ==> rows[i] == rows[1..][i - 1];
      if rows[0].mas.Some? && rows[0].dose.Some? then
        [Point(rows[0].mas.value, rows[0].dose.value)] + rest
      else rest
  }

  /** The row filter distributes over concatenation: each row is kept or dropped on its own, in order. */
  lemma {:induction false} FinitePointsAppend(a: seq<RawPoint>, b: seq<RawPoint>)
    ensures FinitePoints(a + b) == FinitePoints(a) + FinitePoints(b)
    decreases |a|
  {
    if |a| == 0 {
      assert a + b == b;
    } else {
      assert (a + b)[0] == a[0] && (a + b)[1..] == a[1..] + b;
      FinitePointsAppend(a[1..], b);
    }
  }

  /**
   * The points linRes keeps: both fields parse and mas > 0. A filter on a
   * conjunction is the two filters one after the other.
   */
  function ParsePoints(rows: seq<RawPoint>): (pts: seq<Point>)
    ensures IsSubsequence(pts, FinitePoints(rows))
    ensures forall j :: 0 <= j < |pts| ==>
      pts[j].mas > 0.0 && RawPoint(Some(pts[j].mas), Some(pts[j].dose)) in rows
    ensures forall i :: 0 <= i < |rows| && rows[i].mas.Some? && rows[i].dose.Some? && rows[i].mas.value > 0.0 ==>
      Point(rows[i].mas.value, rows[i].dose.value) in pts
  {
    var finite := FinitePoints(rows);
    var pts := KeepPositiveMas(finite);
    assert forall j :: 0 <= j < |pts| ==> pts[j] in finite by {
      forall j | 0 <= j < |pts| ensures pts[j] in finite {
        SubsequenceMember(pts, finite, j);
      }
    }
    pts
  }

  /** linRes's filter distributes over concatenation of the rows. */
  lemma ParsePointsAppend(a: seq<RawPoint>, b: seq<RawPoint>)
    ensures ParsePoints(a + b) == ParsePoints(a) + ParsePoints(b)
  {
    FinitePointsAppend(a, b);
    KeepPositiveMasAppend(FinitePoints(a), FinitePoints(b));
  }

  /** One row is kept exactly when both fields parse and mas > 0. */
  lemma ParsePointsOfRow(row: RawPoint)
    ensures row.mas.Some? && row.dose.Some? && row.mas.value > 0.0 ==>
      ParsePoints([row]) == [Point(row.mas.value, row.dose.value)]
    ensures !(row.mas.Some? && row.dose.Some? && row.mas.value > 0.0) ==> ParsePoints([row]) == []
  {
    assert [row][1..] == [];
  }

  /**
   * Two identical rows of 1 mAs and 10 µGy are two points, not one: linRes
   * gives a result, fitted to both.
   */
  lemma IdenticalRowsAreKeptTwice(settings: Option<Settings>)
    ensures var row := RawPoint(Some(1.0), Some(10.0));
      LinRes([row, row], settings).Some?
      && LinRes([row, row], settings).value.data == [Point(1.0, 10.0), Point(1.0, 10.0)]
  {
    var row := RawPoint(Some(1.0), Some(10.0));
    ParsePointsOfRow(row);
    ParsePointsAppend([row], [row]);
    assert [row] + [row] == [row, row];
  }

  /** Each element of a subsequence is an element of the sequence. */
  lemma {:induction false} SubsequenceMember<T>(r: seq<T>, s: seq<T>, j: int)
    requires IsSubsequence(r, s) && 0 <= j < |r|
    ensures r[j] in s
    decreases |s|
  {
    assert s != [];
    if IsSubsequence(r, s[1..]) {
      SubsequenceMember(r, s[1..], j);
    } else if j > 0 {
      SubsequenceMember(r[1..], s[1..], j - 1);
    }
  }

  /** The filter inside calcLinReg keeps every point linRes passes to it. */
  lemma ParsedPointsRefilter(rows: seq<RawPoint>)
    ensures KeepPositiveMas(ParsePoints(rows)) == ParsePoints(rows)
  {
    KeepPositiveMasOfPositive(ParsePoints(rows));
  }

  /* ======  The per-test gates  ====== */

  /** `settings?.limit ?? default`: a field of the loaded record, or the default before it loads. */
  function Limits(settings: Option<Settings>): (s: Settings)
    ensures settings.None? ==> s == DefaultSettings()
    ensures settings.Some? ==> s == settings.value
  {
    if settings.Some? then settings.value else DefaultSettings()
  }

  /**
   * kvRes: a result only when exactly three readings parse; its nominal kV
   * is the one handleSave adds to it.
   */
  function KvRes(nominalKv: real, readings: seq<Option<real>>, settings: Option<Settings>,
                 sqrt: real -> real): (res: Option<KvTest>)
    requires IsSqrt(sqrt)
    ensures res.Some? <==> |ParseReadings(readings)| == 3
    ensures res.Some? ==>
      var r := ParseReadings(readings);
      var t := res.value;
      && t.nominalKv == nominalKv && t.readings == r
      && t.mean * 3.0 == Sum(r)
      && t.sd >= 0.0 && Square(t.sd) * 2.0 == SumSquaredDiffs(r, t.mean)
      && (t.mean != 0.0 ==> t.cv * t.mean == t.sd)
      && (t.mean == 0.0 ==> t.cv == 0.0)
      && t.deviation == CalcKvDev(t.mean, nominalKv)
      && t.passed == CheckKvPass(t.mean, nominalKv, Limits(settings).kvDeviationLimit,
                                 Limits(settings).kvAbsoluteLimit)
  {
    var r := ParseReadings(readings);
    if |r| != 3 then None
    else
      var m := CalcMean(r);
      var sd := CalcSD(r, m, sqrt);
      var cv := CalcCV(sd, m);
      var dev := CalcKvDev(m, nominalKv);
      var passed := CheckKvPass(m, nominalKv, Limits(settings).kvDeviationLimit,
                                Limits(settings).kvAbsoluteLimit);
      Some(KvTest(nominalKv, r, m, sd, cv, dev, passed))
  }

  /** With the page's three fields, kvRes produces a result exactly when all three parse. */
  lemma KvResNeedsAllThree(nominalKv: real, readings: seq<Option<real>>, settings: Option<Settings>,
                           sqrt: real -> real)
    requires IsSqrt(sqrt) && |readings| == 3
    ensures KvRes(nominalKv, readings, settings, sqrt).Some?
        <==> readings[0].Some? && readings[1].Some? && readings[2].Some?
  {
    var r := ParseReadings(readings);
    if |r| == 3 {
      assert forall i :: 0 <= i < 3 ==> readings[i].Some?;
    }
  }

  /**
   * Before the settings record loads, a kV result at a positive nominal passes
   * exactly when the mean is within 10 % and within 5 kV of the nominal.
   */
  lemma KvResDefaults(nominalKv: real, readings: seq<Option<real>>, sqrt: real -> real)
    requires IsSqrt(sqrt) && nominalKv > 0.0
    requires KvRes(nominalKv, readings, None, sqrt).Some?
    ensures var t := KvRes(nominalKv, readings, None, sqrt).value;
      t.passed <==> Abs(t.mean - nominalKv) * 100.0 <= 10.0 * nominalKv && Abs(t.mean - nominalKv) <= 5.0
  {
  }

  /** A zero nominal kV (what the form stores for an empty field) always fails. */
  lemma KvResZeroNominalFails(readings: seq<Option<real>>, settings: Option<Settings>, sqrt: real -> real)
    requires IsSqrt(sqrt)
    requires KvRes(0.0, readings, settings, sqrt).Some?
    ensures !KvRes(0.0, readings, settings, sqrt).value.passed
  {
  }

  /** repRes: a result only when exactly three readings parse; it passes when cv ≤ the limit. */
  function RepRes(nominalMas: real, readings: seq<Option<real>>, settings: Option<Settings>,
                  sqrt: real -> real): (res: Option<RepeatabilityTest>)
    requires IsSqrt(sqrt)
    ensures res.Some? <==> |ParseReadings(readings)| == 3
    ensures res.Some? ==>
      var r := ParseReadings(readings);
      var t := res.value;
      && t.nominalMas == nominalMas && t.readings == r
      && t.mean * 3.0 == Sum(r)
      && t.sd >= 0.0 && Square(t.sd) * 2.0 == SumSquaredDiffs(r, t.mean)
      && (t.mean != 0.0 ==> t.cv * t.mean == t.sd)
      && (t.mean == 0.0 ==> t.cv == 0.0)
      && (t.passed <==> t.cv <= Limits(settings).repeatabilityCvLimit)
  {
    var r := ParseReadings(readings);
    if |r| != 3 then None
    else
      var m := CalcMean(r);
      var sd := CalcSD(r, m, sqrt);
      var cv := CalcCV(sd, m);
      var passed := cv <= Limits(settings).repeatabilityCvLimit;
      Some(RepeatabilityTest(nominalMas, r, m, sd, cv, passed))
  }

  /** The nominal mAs is carried along but takes no part in the repeatability result. */
  lemma RepResIgnoresNominal(mas1: real, mas2: real, readings: seq<Option<real>>,
                             settings: Option<Settings>, sqrt: real -> real)
    requires IsSqrt(sqrt)
    ensures RepRes(mas1, readings, settings, sqrt).Some? == RepRes(mas2, readings, settings, sqrt).Some?
    ensures RepRes(mas1, readings, settings, sqrt).Some? ==>
      RepRes(mas1, readings, settings, sqrt).value.(nominalMas := mas2)
      == RepRes(mas2, readings, settings, sqrt).value
  {
  }

  /** For a positive mean the repeatability verdict is sd ≤ limit · mean; before settings load the limit is 0.05. */
  lemma RepVerdictWithoutDivision(nominalMas: real, readings: seq<Option<real>>,
                                  settings: Option<Settings>, sqrt: real -> real)
    requires IsSqrt(sqrt)
    requires RepRes(nominalMas, readings, settings, sqrt).Some?
    requires RepRes(nominalMas, readings, settings, sqrt).value.mean > 0.0
    ensures var t := RepRes(nominalMas, readings, settings, sqrt).value;
      t.passed <==> t.sd <= Limits(settings).repeatabilityCvLimit * t.mean
    ensures settings.None? ==> Limits(settings).repeatabilityCvLimit == 0.05
  {
    var t := RepRes(nominalMas, readings, settings, sqrt).value;
    ScaleLe(t.cv, Limits(settings).repeatabilityCvLimit, t.mean);
  }

  /** linRes: a result only when at least two points survive the filter; it passes when R² ≥ the limit. */
  function LinRes(rows: seq<RawPoint>, settings: Option<Settings>): (res: Option<LinearityTest>)
    ensures res.Some? <==> |ParsePoints(rows)| >= 2
    ensures res.Some? ==>
      var t := res.value;
      && t.data == ParsePoints(rows)
      && t.slope == CalcLinReg(t.data).slope && t.rSquared == CalcLinReg(t.data).rSquared
      && (t.passed <==> t.rSquared >= Limits(settings).linearityRSquaredLimit)
  {
    var pts := ParsePoints(rows);
    if |pts| < 2 then None
    else
      var reg := CalcLinReg(pts);
      var passed := reg.rSquared >= Limits(settings).linearityRSquaredLimit;
      Some(LinearityTest(pts, reg.slope, reg.rSquared, passed))
  }

  /** The linearity result fits exactly the points linRes kept: the slope solves their normal equation. */
  lemma LinResFitsKeptPoints(rows: seq<RawPoint>, settings: Option<Settings>)
    requires LinRes(rows, settings).Some?
    ensures var t := LinRes(rows, settings).value;
      SumMasSq(t.data) > 0.0 && SolvesNormalEquation(t.data, t.slope)
  {
    ParsedPointsRefilter(rows);
  }

  /* ======  Saving  ====== */

  /**
   * The record handleSave adds: present only when all three results exist.
   * The store assigns the id, so it is absent here.
   */
  function SessionToSave(machine: MachineInfo, nominalKv: real, kvReadings: seq<Option<real>>,
                         nominalMas: real, repReadings: seq<Option<real>>, rows: seq<RawPoint>,
                         settings: Option<Settings>, createdAt: int, sqrt: real -> real): (s: Option<QcSession>)
    requires IsSqrt(sqrt)
    ensures s.Some? <==>
      KvRes(nominalKv, kvReadings, settings, sqrt).Some?
      && RepRes(nominalMas, repReadings, settings, sqrt).Some?
      && LinRes(rows, settings).Some?
    ensures s.Some? ==>
      && s.value.id.None? && s.value.machine == machine && s.value.createdAt == createdAt
      && s.value.kvTest == KvRes(nominalKv, kvReadings, settings, sqrt).value
      && s.value.repeatabilityTest == RepRes(nominalMas, repReadings, settings, sqrt).value
      && s.value.linearityTest == LinRes(rows, settings).value
  {
    var k := KvRes(nominalKv, kvReadings, settings, sqrt);
    var p := RepRes(nominalMas, repReadings, settings, sqrt);
    var l := LinRes(rows, settings);
    if k.None? || p.None? || l.None? then None
    else Some(QcSession(None, machine, k.value, p.value, l.value, createdAt))
  }

  /** A saved session's overall verdict is the conjunction of the three gates' verdicts. */
  lemma SavedVerdict(machine: MachineInfo, nominalKv: real, kvReadings: seq<Option<real>>,
                     nominalMas: real, repReadings: seq<Option<real>>, rows: seq<RawPoint>,
                     settings: Option<Settings>, createdAt: int, sqrt: real -> real)
    requires IsSqrt(sqrt)
    requires SessionToSave(machine, nominalKv, kvReadings, nominalMas, repReadings, rows,
                           settings, createdAt, sqrt).Some?
    ensures var s := SessionToSave(machine, nominalKv, kvReadings, nominalMas, repReadings, rows,
                                   settings, createdAt, sqrt).value;
      AllPassed(s) <==>
        KvRes(nominalKv, kvReadings, settings, sqrt).value.passed
        && RepRes(nominalMas, repReadings, settings, sqrt).value.cv <= Limits(settings).repeatabilityCvLimit
        && LinRes(rows, settings).value.rSquared >= Limits(settings).linearityRSquaredLimit
  {
  }

  /** The form state of the page, and the session table it saves into. */
  class NewSessionForm {
    var machine: MachineInfo
    var nominalKv: real
    var kvReadings: seq<Option<real>>
    var nominalMas: real
    var repReadings: seq<Option<real>>
    var linearityRows: seq<RawPoint>
    var settings: Option<Settings>
    var store: seq<QcSession>

    /** The page's initial state: empty fields, 80 kV, 2 mAs, mAs rows 1–4 without doses. */
    constructor (today: string, store: seq<QcSession>)
      ensures machine == MachineInfo("", "", "", "", "", "", "", today)
      ensures nominalKv == 80.0 && kvReadings == [None, None, None]
      ensures nominalMas == 2.0 && repReadings == [None, None, None]
      ensures linearityRows == [RawPoint(Some(1.0), None), RawPoint(Some(2.0), None),
                                RawPoint(Some(3.0), None), RawPoint(Some(4.0), None)]
      ensures settings.None? && this.store == store
    {
      machine := MachineInfo("", "", "", "", "", "", "", today);
      nominalKv := 80.0;
      kvReadings := [None, None, None];
      nominalMas := 2.0;
      repReadings := [None, None, None];
      linearityRows := [RawPoint(Some(1.0), None), RawPoint(Some(2.0), None),
                        RawPoint(Some(3.0), None), RawPoint(Some(4.0), None)];
      settings := None;
      this.store := store;
    }

    /** `getSettings().then(setSettings)` */
    method SettingsLoaded(s: Settings)
      modifies this`settings
      ensures settings == Some(s)
    {
      settings := Some(s);
    }

    /** A kV reading field edited; the new text after parseFloat. */
    method SetKvReading(i: nat, v: Option<real>)
      requires i < |kvReadings|
      modifies this`kvReadings
      ensures kvReadings == old(kvReadings)[i := v]
    {
      kvReadings := kvReadings[i := v];
    }

    /** A repeatability reading field edited. */
    method SetRepReading(i: nat, v: Option<real>)
      requires i < |repReadings|
      modifies this`repReadings
      ensures repReadings == old(repReadings)[i := v]
    {
      repReadings := repReadings[i := v];
    }

    /** handleSave: adds the session when all three tests are complete, and nothing otherwise. */
    method HandleSave(now: int, sqrt: real -> real) returns (saved: bool)
      requires IsSqrt(sqrt)
      modifies this`store
      ensures var s := SessionToSave(machine, nominalKv, kvReadings, nominalMas, repReadings,
                                     linearityRows, settings, now, sqrt);
        && (saved <==> s.Some?)
        && (saved ==> store == old(store) + [s.value])
        && (!saved ==> store == old(store))
    {
      var s := SessionToSave(machine, nominalKv, kvReadings, nominalMas, repReadings,
                             linearityRows, settings, now, sqrt);
      if s.None? {
        saved := false;
        return;
      }
      store := store + [s.value];
      saved := true;
    }
  }
}
