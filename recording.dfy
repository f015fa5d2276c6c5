/** Recording one measurement: validate the zone and the unit, convert the
    value to the base unit, read the zone-local date as a UTC instant, build
    the sample, store it once, and report it back in the caller's unit. */
module Recording {
  import opened Errors
  import opened Metrics
  import opened Units
  import opened Calendar
  import opened DateText
  import opened Timezones
  import opened IsoTime
  import opened Store
  import opened Listing

  /** The recording request: the value is in `unit`, the date is wall-clock text in `timezone`. */
  datatype AddRequest = AddRequest(
    userId: string,
    metricType: MetricType,
    value: real,
    unit: string,
    date: string,
    timezone: string)

  /** The sample a request yields, before it is stored. `id` and
      `createdAt` (epoch milliseconds) are the fresh identifier and the clock
      reading the service draws for it. */
  function NewSample(rt: Runtime, req: AddRequest, id: string, createdAt: int): (r: Result<Metric>)
    ensures !IsValidIANA(req.timezone) ==> r == Err(InvalidTimezoneFormat(req.timezone))
    ensures IsValidIANA(req.timezone) && NewUnit(req.unit, req.metricType).Err? ==>
              r == Err(InvalidUnit(req.unit, TypeText(req.metricType)))
    ensures IsValidIANA(req.timezone) && NewUnit(req.unit, req.metricType).Ok?
            && ParseToUTC(rt, TimezoneValue(req.timezone), req.date).Err? ==>
              r == Err(ParseToUTC(rt, TimezoneValue(req.timezone), req.date).error)
    ensures IsValidIANA(req.timezone) && NewUnit(req.unit, req.metricType).Ok?
            && ParseToUTC(rt, TimezoneValue(req.timezone), req.date).Ok? ==>
              var unit := NewUnit(req.unit, req.metricType).value;
              r == NewMetric(id, req.userId, req.metricType, ToBaseUnit(unit, req.value), unit.value,
                             ParseToUTC(rt, TimezoneValue(req.timezone), req.date).value, createdAt)
  {
    var tz :- NewTimezone(req.timezone);
    var unit :- NewUnit(req.unit, req.metricType);
    var baseValue := ToBaseUnit(unit, req.value);
    var timestamp :- ParseToUTC(rt, tz, req.date);
    NewMetric(id, req.userId, req.metricType, baseValue, unit.value, timestamp, createdAt)
  }

  /** The response for the stored sample, in the caller's unit and zone. */
  function AddResponse(rt: Runtime, tz: Timezone, unit: Unit, saved: Metric): (r: Result<MetricResponse>)
    ensures r.Ok? <==> Resolves(rt, tz) && DateHolds(saved.timestamp * 1000) && DateHolds(saved.createdAt)
    ensures r.Err? ==> r.error == InvalidTimeValue
    ensures r.Ok? ==>
              && r.value.id == saved.id && r.value.userId == saved.userId
              && r.value.metricType == saved.metricType && r.value.originalUnit == saved.originalUnit
              && r.value.timestamp == saved.timestamp
              && r.value.value == Round6(FromBaseUnit(unit, saved.value))
              && r.value.unit == unit.value
              && FormatFromUTC(rt, tz, saved.timestamp) == Ok(r.value.date)
              && ToIsoString(saved.createdAt) == Ok(r.value.createdAt)
  {
    var date :- FormatFromUTC(rt, tz, saved.timestamp);
    var createdAt :- ToIsoString(saved.createdAt);
    Ok(MetricResponse(saved.id, saved.userId, saved.metricType, Round6(FromBaseUnit(unit, saved.value)),
                      unit.value, saved.originalUnit, saved.timestamp, date, createdAt))
  }

  /** `execute`: the store gains exactly the new sample on success and nothing on failure. */
  method AddMetric(store: MetricStore, rt: Runtime, req: AddRequest, id: string, createdAt: int)
    returns (r: Result<MetricResponse>)
    modifies store
    ensures NewSample(rt, req, id, createdAt).Err? ==>
              r == Err(NewSample(rt, req, id, createdAt).error) && store.metrics == old(store.metrics)
    ensures NewSample(rt, req, id, createdAt).Ok? ==>
              && store.metrics == old(store.metrics) + [NewSample(rt, req, id, createdAt).value]
              && r == AddResponse(rt, TimezoneValue(req.timezone), NewUnit(req.unit, req.metricType).value,
                                  NewSample(rt, req, id, createdAt).value)
  {
    var timezone := NewTimezone(req.timezone);
    if timezone.Err? {
      return Err(timezone.error);
    }
    var unit := NewUnit(req.unit, req.metricType);
    if unit.Err? {
      return Err(unit.error);
    }
    var baseValue := ToBaseUnit(unit.value, req.value);
    var timestamp := ParseToUTC(rt, timezone.value, req.date);
    if timestamp.Err? {
      return Err(timestamp.error);
    }
    var metric := NewMetric(id, req.userId, req.metricType, baseValue, unit.value.value, timestamp.value, createdAt);
    if metric.Err? {
      return Err(metric.error);
    }
    var saved := store.Save(metric.value);
    r := AddResponse(rt, timezone.value, unit.value, saved);
  }

  // ---------------------------------------------------------------------
  // Properties

  /** A sample is made exactly when every check passes: a known zone shape, a
      unit of the type, a readable date in a resolvable zone, a user, a
      non-negative base value and a non-negative instant. */
  lemma NewSampleSucceeds(rt: Runtime, req: AddRequest, id: string, createdAt: int)
    ensures NewSample(rt, req, id, createdAt).Ok? <==>
      && IsValidIANA(req.timezone)
      && NewUnit(req.unit, req.metricType).Ok?
      && ParseToUTC(rt, TimezoneValue(req.timezone), req.date).Ok?
      && req.userId != ""
      && ToBaseUnit(NewUnit(req.unit, req.metricType).value, req.value) >= 0.0
      && ParseToUTC(rt, TimezoneValue(req.timezone), req.date).value >= 0
  {
  }

  /** What is stored: the value in the base unit, the unit as given, the parsed instant. */
  lemma StoredSample(rt: Runtime, req: AddRequest, id: string, createdAt: int)
    requires NewSample(rt, req, id, createdAt).Ok?
    ensures var m := NewSample(rt, req, id, createdAt).value;
      var unit := NewUnit(req.unit, req.metricType).value;
      && m.Valid()
      && m.id == id && m.userId == req.userId && m.metricType == req.metricType && m.createdAt == createdAt
      && m.value == ToBaseUnit(unit, req.value)
      && FromBaseUnit(unit, m.value) == req.value
      && UnitText(m.originalUnit) == req.unit
      && ParseToUTC(rt, TimezoneValue(req.timezone), req.date) == Ok(m.timestamp)
  {
  }

  /** The reported value is the requested one, up to the six-decimal rounding. */
  lemma ResponseEchoesValue(rt: Runtime, req: AddRequest, id: string, createdAt: int)
    requires NewSample(rt, req, id, createdAt).Ok?
    ensures var r := AddResponse(rt, TimezoneValue(req.timezone), NewUnit(req.unit, req.metricType).value,
                                 NewSample(rt, req, id, createdAt).value);
      r.Ok? <==> DateHolds(NewSample(rt, req, id, createdAt).value.timestamp * 1000) && DateHolds(createdAt)
    ensures var r := AddResponse(rt, TimezoneValue(req.timezone), NewUnit(req.unit, req.metricType).value,
                                 NewSample(rt, req, id, createdAt).value);
      r.Ok? ==>
      && r.value.value == Round6(req.value)
      && UnitText(r.value.unit) == req.unit
      && ParseToUTC(rt, TimezoneValue(req.timezone), req.date) == Ok(r.value.timestamp)
  {
    var tz := TimezoneValue(req.timezone);
    var m := NewSample(rt, req, id, createdAt).value;
    assert Resolves(rt, tz);
    StoredSample(rt, req, id, createdAt);
  }

  /** Under an agreeing native parser the reported date text reads back as the stored instant. */
  lemma ResponseDateReadsBack(rt: Runtime, req: AddRequest, id: string, createdAt: int)
    requires NewSample(rt, req, id, createdAt).Ok? && NativeAgrees(rt)
    requires var tz := TimezoneValue(req.timezone);
      Resolves(rt, tz) && 100 <= LocalDate(rt, tz, NewSample(rt, req, id, createdAt).value.timestamp).year <= 9999
    ensures var tz := TimezoneValue(req.timezone);
      var r := AddResponse(rt, tz, NewUnit(req.unit, req.metricType).value, NewSample(rt, req, id, createdAt).value);
      r.Ok? ==> ParseToUTC(rt, tz, r.value.date) == Ok(r.value.timestamp)
  {
    var tz := TimezoneValue(req.timezone);
    var m := NewSample(rt, req, id, createdAt).value;
    if DateHolds(m.timestamp * 1000) {
      ParseFormatRoundTrip(rt, tz, m.timestamp);
    }
  }

  /** A value whose base value is negative is refused by the sample's own
      validation, e.g. a temperature below absolute zero. */
  lemma NegativeBaseRejected(rt: Runtime, req: AddRequest, id: string, createdAt: int)
    requires IsValidIANA(req.timezone) && NewUnit(req.unit, req.metricType).Ok?
    requires ParseToUTC(rt, TimezoneValue(req.timezone), req.date).Ok? && req.userId != ""
    requires ToBaseUnit(NewUnit(req.unit, req.metricType).value, req.value) < 0.0
    ensures NewSample(rt, req, id, createdAt) == Err(ValueNegative)
  {
  }

  lemma BelowAbsoluteZero()
    ensures ToBaseUnit(UnitValue(Celsius, Temperature), -300.0) < 0.0
    ensures ToBaseUnit(UnitValue(Fahrenheit, Temperature), -500.0) < 0.0
    ensures ToBaseUnit(UnitValue(Celsius, Temperature), -273.15) == 0.0
    ensures forall v :: v < 0.0 ==> ToBaseUnit(UnitValue(Meter, Distance), v) < 0.0
  {
  }

  /** An identifier without a valid shape is refused before anything else is
      looked at: the outcome is the format error, whatever the unit, value,
      date, user, runtime, id or clock reading. */
  lemma InvalidZoneFirst(rt: Runtime, req: AddRequest, id: string, createdAt: int,
                         rt': Runtime, other: AddRequest, id': string, createdAt': int)
    requires !IsValidIANA(req.timezone) && other.timezone == req.timezone
    ensures NewSample(rt, req, id, createdAt) == Err(InvalidTimezoneFormat(req.timezone))
    ensures NewSample(rt', other, id', createdAt') == NewSample(rt, req, id, createdAt)
  {
  }

  /** "invalid-timezone" is such an identifier. */
  lemma InvalidZoneExample(rt: Runtime, req: AddRequest, id: string, createdAt: int)
    requires req.timezone == "invalid-timezone"
    ensures NewSample(rt, req, id, createdAt) == Err(InvalidTimezoneFormat("invalid-timezone"))
  {
    RejectedIdentifiers();
  }
}
