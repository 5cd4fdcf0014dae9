/**
 The threshold classifier of the monitoring service: every metric has a fixed
 critical band enclosing a fixed warning band, and a reading is Critical when
 it lies strictly outside the critical band, Warning when it lies inside the
 critical band but strictly outside the warning band, and Optimal otherwise.
 */
module Thresholds {

  /** The three independently monitored quantities. */
  datatype Metric = Temperature | Humidity | WaterTemp

  /**
   Severity of a metric. `Unknown` is the status a device records before it
   has ever been notified about a metric; the classifier never produces it.
   */
  datatype Status = Unknown | Optimal | Warning | Critical

  /** A closed band of readings; the bounds themselves are inside it. */
  datatype Band = Band(min: real, max: real) {
    predicate Contains(v: real) {
      min <= v <= max
    }
  }

  datatype Threshold = Threshold(critical: Band, warning: Band)

  /** The fixed bands of each metric (air temperature and water temperature in °C, humidity in %). */
  function ThresholdOf(m: Metric): (t: Threshold)
    ensures m == Temperature ==> t.critical == Band(15.0, 35.0) && t.warning == Band(18.0, 30.0)
    ensures m == Humidity ==> t.critical == Band(35.0, 85.0) && t.warning == Band(40.0, 80.0)
    ensures m == WaterTemp ==> t.critical == Band(18.0, 30.0) && t.warning == Band(20.0, 28.0)
    // a Warning margin of positive width lies on each side of the warning band
    ensures t.critical.min < t.warning.min <= t.warning.max < t.critical.max
  {
    match m
    case Temperature => Threshold(Band(15.0, 35.0), Band(18.0, 30.0))
    case Humidity => Threshold(Band(35.0, 85.0), Band(40.0, 80.0))
    case WaterTemp => Threshold(Band(18.0, 30.0), Band(20.0, 28.0))
  }

  /** Every reading inside a metric's warning band is inside its critical band. */
  lemma CriticalEnclosesWarning(m: Metric, v: real)
    ensures ThresholdOf(m).warning.Contains(v) ==> ThresholdOf(m).critical.Contains(v)
  {
  }

  /** Classifies one reading of metric `m`; all comparisons are strict. */
  function GetStatus(m: Metric, v: real): (s: Status)
    ensures s != Unknown
    ensures s == Critical <==> !ThresholdOf(m).critical.Contains(v)
    ensures s == Warning <==> ThresholdOf(m).critical.Contains(v) && !ThresholdOf(m).warning.Contains(v)
    ensures s == Optimal <==> ThresholdOf(m).warning.Contains(v)
  {
    var t := ThresholdOf(m);
    if v > t.critical.max || v < t.critical.min then Critical
    else if v > t.warning.max || v < t.warning.min then Warning
    else Optimal
  }

  /** Orders the classifier's results from mildest to most severe. */
  function Severity(s: Status): nat
  {
    match s
    case Unknown => 0
    case Optimal => 0
    case Warning => 1
    case Critical => 2
  }

  /** Moving a reading further below the warning band never makes it milder. */
  lemma SeverityGrowsBelow(m: Metric, v: real, w: real)
    requires w <= v <= ThresholdOf(m).warning.max
    ensures Severity(GetStatus(m, w)) >= Severity(GetStatus(m, v))
  {
  }

  /** Moving a reading further above the warning band never makes it milder. */
  lemma SeverityGrowsAbove(m: Metric, v: real, w: real)
    requires ThresholdOf(m).warning.min <= v <= w
    ensures Severity(GetStatus(m, w)) >= Severity(GetStatus(m, v))
  {
  }

  /** The band edges themselves belong to the milder side. */
  lemma BoundariesAreMild()
    ensures GetStatus(Temperature, 15.0) == Warning && GetStatus(Temperature, 35.0) == Warning
    ensures GetStatus(Temperature, 18.0) == Optimal && GetStatus(Temperature, 30.0) == Optimal
    ensures GetStatus(Humidity, 35.0) == Warning && GetStatus(Humidity, 85.0) == Warning
    ensures GetStatus(Humidity, 40.0) == Optimal && GetStatus(Humidity, 80.0) == Optimal
    ensures GetStatus(WaterTemp, 18.0) == Warning && GetStatus(WaterTemp, 30.0) == Warning
    ensures GetStatus(WaterTemp, 20.0) == Optimal && GetStatus(WaterTemp, 28.0) == Optimal
    ensures GetStatus(Temperature, 14.9) == Critical && GetStatus(Temperature, 35.1) == Critical
    ensures GetStatus(Humidity, 34.9) == Critical && GetStatus(Humidity, 85.1) == Critical
    ensures GetStatus(WaterTemp, 17.9) == Critical && GetStatus(WaterTemp, 30.1) == Critical
  {
  }
}
