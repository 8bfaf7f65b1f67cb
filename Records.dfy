/**
 * The records of project/src/db/database.ts: the tolerance settings and a
 * stored QC session with its three test results, plus the raw form inputs
 * of the data-entry page once each text field has gone through parseFloat.
 */
module Records {
  import opened Common

  /** The four tolerance limits of the settings record (the logo is left out). */
  datatype Settings = Settings(
    kvDeviationLimit: real,
    kvAbsoluteLimit: real,
    repeatabilityCvLimit: real,
    linearityRSquaredLimit: real)

  /** Limits used when no settings record has been loaded yet. */
  const DefaultKvDeviationLimit: real := 10.0
  const DefaultKvAbsoluteLimit: real := 5.0
  const DefaultRepeatabilityCvLimit: real := 0.05
  const DefaultLinearityRSquaredLimit: real := 0.98

  /** The record `getSettings` creates when none is stored. */
  function DefaultSettings(): (s: Settings)
    ensures s.kvDeviationLimit == 10.0 && s.kvAbsoluteLimit == 5.0
    ensures s.repeatabilityCvLimit == 0.05 && s.linearityRSquaredLimit == 0.98
  {
    Settings(DefaultKvDeviationLimit, DefaultKvAbsoluteLimit,
             DefaultRepeatabilityCvLimit, DefaultLinearityRSquaredLimit)
  }

  /** One linearity measurement: tube current-time product and measured dose. */
  datatype Point = Point(mas: real, dose: real)

  /** A linearity row after parseFloat of both text fields; None stands for NaN. */
  datatype RawPoint = RawPoint(mas: Option<real>, dose: Option<real>)

  datatype MachineInfo = MachineInfo(
    hospital: string, room: string, model: string, serial: string,
    tubeSerial: string, detectorSerial: string, techName: string, date: string)

  datatype KvTest = KvTest(
    nominalKv: real, readings: seq<real>,
    mean: real, sd: real, cv: real, deviation: real, passed: bool)

  datatype RepeatabilityTest = RepeatabilityTest(
    nominalMas: real, readings: seq<real>,
    mean: real, sd: real, cv: real, passed: bool)

  datatype LinearityTest = LinearityTest(
    data: seq<Point>, slope: real, rSquared: real, passed: bool)

  /** A stored session; `id` is assigned by the store when the record is added. */
  datatype QcSession = QcSession(
    id: Option<int>, machine: MachineInfo,
    kvTest: KvTest, repeatabilityTest: RepeatabilityTest, linearityTest: LinearityTest,
    createdAt: int)

  /** The overall verdict shown in the history list, the export list and the report. */
  function AllPassed(s: QcSession): (b: bool)
    ensures b ==> s.kvTest.passed && s.repeatabilityTest.passed && s.linearityTest.passed
    ensures !b ==> !s.kvTest.passed || !s.repeatabilityTest.passed || !s.linearityTest.passed
  {
    s.kvTest.passed && s.repeatabilityTest.passed && s.linearityTest.passed
  }

  /** The slope and coefficient of determination of a fit through the origin. */
  datatype Regression = Regression(slope: real, rSquared: real)
}
