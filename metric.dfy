/** The Metric entity: the metric types, the closed set of units, the stored
    measurement record with its construction-time validation, and the chart point. */
module Metrics {
  import opened Errors

  datatype MetricType = Distance | Temperature

  /** The union of the distance units and the temperature units. */
  datatype MetricUnit =
    | Meter | Centimeter | Inch | Feet | Yard
    | Kelvin | Celsius | Fahrenheit

  function TypeText(t: MetricType): string {
    match t
    case Distance => "distance"
    case Temperature => "temperature"
  }

  function UnitText(u: MetricUnit): string {
    match u
    case Meter => "meter"
    case Centimeter => "centimeter"
    case Inch => "inch"
    case Feet => "feet"
    case Yard => "yard"
    case Kelvin => "kelvin"
    case Celsius => "celsius"
    case Fahrenheit => "fahrenheit"
  }

  /** The metric type whose enumeration a unit belongs to. */
  function KindOf(u: MetricUnit): MetricType {
    if u.Meter? || u.Centimeter? || u.Inch? || u.Feet? || u.Yard? then Distance else Temperature
  }

  /** The enumeration member whose string value is `s`, if there is one. */
  function ParseUnitText(s: string): (r: Option<MetricUnit>)
    ensures r.Some? ==> UnitText(r.value) == s
    ensures r.None? ==> forall u :: UnitText(u) != s
  {
    if s == "meter" then Some(Meter)
    else if s == "centimeter" then Some(Centimeter)
    else if s == "inch" then Some(Inch)
    else if s == "feet" then Some(Feet)
    else if s == "yard" then Some(Yard)
    else if s == "kelvin" then Some(Kelvin)
    else if s == "celsius" then Some(Celsius)
    else if s == "fahrenheit" then Some(Fahrenheit)
    else None
  }

  /** A stored measurement. `value` is in the base unit of `metricType`,
      `timestamp` in epoch seconds, `createdAt` in epoch milliseconds. */
  datatype Metric = Metric(
    id: string,
    userId: string,
    metricType: MetricType,
    value: real,
    originalUnit: MetricUnit,
    timestamp: int,
    createdAt: int)
  {
    /** What the constructor's validation guarantees of every Metric. */
    predicate Valid() {
      userId != "" && value >= 0.0 && timestamp >= 0
    }

    predicate IsDistance() { metricType == Distance }

    predicate IsTemperature() { metricType == Temperature }

    predicate BelongsTo(user: string) { userId == user }

    /** Inclusive at both ends. */
    predicate IsWithinRange(startTimestamp: int, endTimestamp: int) {
      timestamp >= startTimestamp && timestamp <= endTimestamp
    }
  }

  /** The constructor: it stores its arguments unchanged and then validates
      them, user id first, then value, then timestamp. */
  function NewMetric(id: string, userId: string, metricType: MetricType, value: real,
                     originalUnit: MetricUnit, timestamp: int, createdAt: int): (r: Result<Metric>)
    ensures r.Ok? <==> userId != "" && value >= 0.0 && timestamp >= 0
    ensures r.Ok? ==> r.value.Valid()
    ensures r.Ok? ==> r.value == Metric(id, userId, metricType, value, originalUnit, timestamp, createdAt)
    ensures userId == "" ==> r == Err(UserIdRequired)
    ensures userId != "" && value < 0.0 ==> r == Err(ValueNegative)
    ensures userId != "" && value >= 0.0 && timestamp < 0 ==> r == Err(TimestampInvalid)
  {
    if userId == "" then Err(UserIdRequired)
    else if value < 0.0 then Err(ValueNegative)
    else if timestamp < 0 then Err(TimestampInvalid)
    else Ok(Metric(id, userId, metricType, value, originalUnit, timestamp, createdAt))
  }

  /** One point of a daily chart: a zone-local calendar date, a value in the
      display unit, the display unit, and the instant the value belongs to. */
  datatype ChartDataPoint = ChartDataPoint(date: string, value: real, unit: MetricUnit, timestamp: int)

  /** A sample has one owner. */
  lemma OneOwner(m: Metric, user: string, other: string)
    requires m.BelongsTo(user) && m.BelongsTo(other)
    ensures user == other
  {
  }

  /** The window is closed: a sample lies in a window ending or starting at
      its own instant, and in no window that ends before it starts. */
  lemma WindowClosed(m: Metric, startTimestamp: int, endTimestamp: int)
    ensures m.IsWithinRange(startTimestamp, m.timestamp) <==> startTimestamp <= m.timestamp
    ensures m.IsWithinRange(m.timestamp, endTimestamp) <==> m.timestamp <= endTimestamp
    ensures startTimestamp > endTimestamp ==> !m.IsWithinRange(startTimestamp, endTimestamp)
  {
  }

  lemma ExactlyOneKind(m: Metric)
    ensures m.IsDistance() != m.IsTemperature()
  {
  }

  lemma UnitTextInjective(u: MetricUnit, v: MetricUnit)
    ensures UnitText(u) == UnitText(v) <==> u == v
  {
  }

  lemma ParseUnitTextInverse(u: MetricUnit)
    ensures ParseUnitText(UnitText(u)) == Some(u)
  {
  }
}
