/** Listing a user's samples of one metric type in a requested display unit. */
module Listing {
  import opened Errors
  import opened Metrics
  import opened Units
  import opened IsoTime
  import opened Store

  /** The listing query; `unit` is "" when the caller asked for none. */
  datatype ListRequest = ListRequest(userId: string, metricType: MetricType, unit: string)

  /** One sample as the service reports it. */
  datatype MetricResponse = MetricResponse(
    id: string,
    userId: string,
    metricType: MetricType,
    value: real,
    unit: MetricUnit,
    originalUnit: MetricUnit,
    timestamp: int,
    date: string,
    createdAt: string)

  /** `resp` reports stored sample `m` in `unit`. */
  predicate ReportsSample(unit: Unit, m: Metric, resp: MetricResponse) {
    && resp.id == m.id && resp.userId == m.userId && resp.metricType == m.metricType
    && resp.originalUnit == m.originalUnit && resp.timestamp == m.timestamp
    && resp.value == Round6(FromBaseUnit(unit, m.value))
    && resp.unit == unit.value
    && ToIsoString(m.timestamp * 1000) == Ok(resp.date)
    && ToIsoString(m.createdAt) == Ok(resp.createdAt)
  }

  /** A sample whose instants a Date can hold. */
  predicate Renderable(m: Metric) {
    ToIsoString(m.timestamp * 1000).Ok? && ToIsoString(m.createdAt).Ok?
  }

  /** The response for one stored sample. */
  function ReportOne(unit: Unit, m: Metric): (r: Result<MetricResponse>)
    ensures r.Ok? <==> Renderable(m)
    ensures r.Err? ==> r.error == InvalidTimeValue
    ensures r.Ok? ==> ReportsSample(unit, m, r.value)
  {
    match (ToIsoString(m.timestamp * 1000), ToIsoString(m.createdAt))
    case (Ok(date), Ok(createdAt)) =>
      Ok(MetricResponse(m.id, m.userId, m.metricType, Round6(FromBaseUnit(unit, m.value)),
                        unit.value, m.originalUnit, m.timestamp, date, createdAt))
    case _ => Err(InvalidTimeValue)
  }

  /** The `map` over the store's result. */
  function Report(unit: Unit, ms: seq<Metric>): (r: Result<seq<MetricResponse>>)
    ensures r.Ok? <==> forall i :: 0 <= i < |ms| ==> Renderable(ms[i])
    ensures r.Err? ==> r.error == InvalidTimeValue
    ensures r.Ok? ==> |r.value| == |ms| && forall i :: 0 <= i < |ms| ==> ReportsSample(unit, ms[i], r.value[i])
  {
    var r := Collect(ReportEach(unit, ms));
    ReportAll(unit, ms, r);
    r
  }

  lemma ReportAll(unit: Unit, ms: seq<Metric>, r: Result<seq<MetricResponse>>)
    requires r == Collect(ReportEach(unit, ms))
    ensures r.Ok? <==> forall i :: 0 <= i < |ms| ==> Renderable(ms[i])
    ensures r.Err? ==> r.error == InvalidTimeValue
    ensures r.Ok? ==> |r.value| == |ms| && forall i :: 0 <= i < |ms| ==> ReportsSample(unit, ms[i], r.value[i])
  {
    var rs := ReportEach(unit, ms);
    if r.Ok? {
      forall i | 0 <= i < |ms|
        ensures ReportsSample(unit, ms[i], r.value[i])
      {
        assert rs[i] == ReportOne(unit, ms[i]) == Ok(r.value[i]);
      }
    }
  }

  function ReportEach(unit: Unit, ms: seq<Metric>): (rs: seq<Result<MetricResponse>>)
    ensures |rs| == |ms| && forall i :: 0 <= i < |ms| ==> rs[i] == ReportOne(unit, ms[i])
  {
    seq(|ms|, i requires 0 <= i < |ms| => ReportOne(unit, ms[i]))
  }

  /** `execute`: the display unit is settled before the store is asked. */
  function GetMetrics(store: MetricStore, req: ListRequest): (r: Result<seq<MetricResponse>>)
    reads store
    ensures DisplayUnit(req.unit, req.metricType).Err? ==>
              r == Err(InvalidUnit(DisplayUnitText(req.unit, req.metricType), TypeText(req.metricType)))
    ensures DisplayUnit(req.unit, req.metricType).Ok? ==>
              r == Report(DisplayUnit(req.unit, req.metricType).value, store.FindByUserAndType(req.userId, req.metricType))
  {
    var unit :- DisplayUnit(req.unit, req.metricType);
    Report(unit, store.FindByUserAndType(req.userId, req.metricType))
  }

  /** Before rounding, the reported value converts back to exactly the stored base value,
      and the rounding moves it by at most half a millionth. */
  lemma ReportedValueFaithful(unit: Unit, m: Metric, resp: MetricResponse)
    requires ReportsSample(unit, m, resp)
    ensures ToBaseUnit(unit, FromBaseUnit(unit, m.value)) == m.value
    ensures -0.0000005 <= resp.value - FromBaseUnit(unit, m.value) <= 0.0000005
  {
    ToBaseInverse(unit, m.value);
  }

  /** A store with no sample of that user and type lists nothing. */
  lemma EmptyListing(store: MetricStore, req: ListRequest)
    requires DisplayUnit(req.unit, req.metricType).Ok?
    requires forall m :: m in store.metrics ==> !(m.BelongsTo(req.userId) && m.metricType == req.metricType)
    ensures GetMetrics(store, req) == Ok([])
  {
  }

  /** One meter listed in centimeters is 100. */
  lemma CentimeterExample()
    ensures Round6(FromBaseUnit(UnitValue(Centimeter, Distance), 1.0)) == 100.0
  {
    Round6Exact(100000000);
    assert FromBaseUnit(UnitValue(Centimeter, Distance), 1.0) == 100000000 as real / 1000000.0;
  }
}
