/** The daily chart: the zone-local day window of a request, the samples of
    that window bucketed by local date with the latest sample of each day
    kept, every calendar date of the request enumerated, and one point per
    date, zero-filled where a day has no sample. */
module ChartData {
  import opened Errors
  import opened Metrics
  import opened Units
  import opened Calendar
  import opened DateText
  import opened Timezones
  import opened Store

  /** The chart query; `unit` is "" when the caller asked for none. */
  datatype ChartRequest = ChartRequest(
    userId: string,
    metricType: MetricType,
    unit: string,
    startDate: string,
    endDate: string,
    timezone: string)

  datatype ChartResponse = ChartResponse(
    data: seq<ChartDataPoint>,
    timezone: string,
    startDate: string,
    endDate: string)

  /** What the validation prefix of the use case produces. */
  datatype ChartSetup = ChartSetup(tz: Timezone, unit: Unit, startTimestamp: int, endTimestamp: int)

  /** `getStartOfDayTimestamp`. */
  function StartOfDayTimestamp(rt: Runtime, tz: Timezone, dateText: string): (r: Result<int>)
    ensures r.Ok? <==> ParseLocal(rt, dateText + " 00:00:00").Some? && Resolves(rt, tz)
    ensures ParseLocal(rt, dateText + " 00:00:00").None? ==> r == Err(InvalidDateFormat(dateText + " 00:00:00"))
    ensures ParseLocal(rt, dateText + " 00:00:00").Some? && !Resolves(rt, tz) ==> r == Err(InvalidTimezone(tz.value))
  {
    ParseToUTC(rt, tz, dateText + " 00:00:00")
  }

  /** `getEndOfDayTimestamp`. */
  function EndOfDayTimestamp(rt: Runtime, tz: Timezone, dateText: string): (r: Result<int>)
    ensures r.Ok? <==> ParseLocal(rt, dateText + " 23:59:59").Some? && Resolves(rt, tz)
    ensures ParseLocal(rt, dateText + " 23:59:59").None? ==> r == Err(InvalidDateFormat(dateText + " 23:59:59"))
    ensures ParseLocal(rt, dateText + " 23:59:59").Some? && !Resolves(rt, tz) ==> r == Err(InvalidTimezone(tz.value))
  {
    ParseToUTC(rt, tz, dateText + " 23:59:59")
  }

  /** Timezone, then display unit, then the two ends of the window; the first
      failure is the outcome. All of it happens before the store is queried. */
  function Setup(rt: Runtime, req: ChartRequest): (r: Result<ChartSetup>)
    ensures !IsValidIANA(req.timezone) ==> r == Err(InvalidTimezoneFormat(req.timezone))
    ensures IsValidIANA(req.timezone) && DisplayUnit(req.unit, req.metricType).Err? ==>
              r == Err(InvalidUnit(DisplayUnitText(req.unit, req.metricType), TypeText(req.metricType)))
    ensures IsValidIANA(req.timezone) && DisplayUnit(req.unit, req.metricType).Ok?
            && StartOfDayTimestamp(rt, TimezoneValue(req.timezone), req.startDate).Err? ==>
              r == Err(StartOfDayTimestamp(rt, TimezoneValue(req.timezone), req.startDate).error)
    ensures IsValidIANA(req.timezone) && DisplayUnit(req.unit, req.metricType).Ok?
            && StartOfDayTimestamp(rt, TimezoneValue(req.timezone), req.startDate).Ok?
            && EndOfDayTimestamp(rt, TimezoneValue(req.timezone), req.endDate).Err? ==>
              r == Err(EndOfDayTimestamp(rt, TimezoneValue(req.timezone), req.endDate).error)
    ensures r.Ok? <==> IsValidIANA(req.timezone) && DisplayUnit(req.unit, req.metricType).Ok?
                       && StartOfDayTimestamp(rt, TimezoneValue(req.timezone), req.startDate).Ok?
                       && EndOfDayTimestamp(rt, TimezoneValue(req.timezone), req.endDate).Ok?
    ensures r.Ok? ==>
              && r.value.tz.value == req.timezone
              && Resolves(rt, r.value.tz)
              && r.value.unit.metricType == req.metricType
              && UnitText(r.value.unit.value) == DisplayUnitText(req.unit, req.metricType)
              && r.value.startTimestamp == StartOfDayTimestamp(rt, r.value.tz, req.startDate).value
              && r.value.endTimestamp == EndOfDayTimestamp(rt, r.value.tz, req.endDate).value
  {
    var tz :- NewTimezone(req.timezone);
    var unit :- DisplayUnit(req.unit, req.metricType);
    var startTimestamp :- StartOfDayTimestamp(rt, tz, req.startDate);
    var endTimestamp :- EndOfDayTimestamp(rt, tz, req.endDate);
    Ok(ChartSetup(tz, unit, startTimestamp, endTimestamp))
  }

  // ---------------------------------------------------------------------
  // Bucketing by local date

  /** The zone-local date text of a sample, the bucket it falls in; the
      empty text for a sample that has none (the use case stops before such
      a key is used). */
  function DayKey(rt: Runtime, tz: Timezone, m: Metric): (key: string)
    ensures GetDateString(rt, tz, m.timestamp).Ok? ==> key == GetDateString(rt, tz, m.timestamp).value
  {
    match GetDateString(rt, tz, m.timestamp)
    case Ok(text) => text
    case Err(_) => ""
  }

  /** Every sample has a local date text: the zone is known and a Date holds each instant. */
  predicate Datable(rt: Runtime, tz: Timezone, ms: seq<Metric>) {
    forall i :: 0 <= i < |ms| ==> GetDateString(rt, tz, ms[i].timestamp).Ok?
  }

  /** The local date text of every sample, in order. */
  function DayKeys(rt: Runtime, tz: Timezone, ms: seq<Metric>): (keys: seq<string>)
    ensures |keys| == |ms| && forall i :: 0 <= i < |ms| ==> keys[i] == DayKey(rt, tz, ms[i])
  {
    seq(|ms|, i requires 0 <= i < |ms| => DayKey(rt, tz, ms[i]))
  }

  /** Among the first `n` samples, `ms[j]` is the one kept for `key`: it has
      that key, no sample with that key is later, and every earlier one with
      that key is strictly earlier (so of equal timestamps the first stays). */
  predicate IsLatest(keys: seq<string>, ms: seq<Metric>, n: int, key: string, j: int)
    requires |keys| == |ms| && 0 <= n <= |ms|
  {
    && 0 <= j < n
    && keys[j] == key
    && (forall i :: 0 <= i < n && keys[i] == key ==> ms[i].timestamp <= ms[j].timestamp)
    && (forall i :: 0 <= i < j && keys[i] == key ==> ms[i].timestamp < ms[j].timestamp)
  }

  /** `ms[j]` is the sample kept for the local date `key`. */
  predicate IsDayWinner(rt: Runtime, tz: Timezone, ms: seq<Metric>, key: string, j: int)
    requires Datable(rt, tz, ms)
  {
    IsLatest(DayKeys(rt, tz, ms), ms, |ms|, key, j)
  }

  /** `byDay` has a key for exactly the keys of the samples, holding the latest of each. */
  ghost predicate BucketsOf(keys: seq<string>, ms: seq<Metric>, byDay: map<string, Metric>)
    requires |keys| == |ms|
  {
    && (forall j :: 0 <= j < |ms| ==> keys[j] in byDay)
    && (forall k :: k in byDay ==> exists j :: IsLatest(keys, ms, |ms|, k, j) && byDay[k] == ms[j])
  }

  ghost predicate Buckets(rt: Runtime, tz: Timezone, ms: seq<Metric>, byDay: map<string, Metric>)
    requires Datable(rt, tz, ms)
  {
    BucketsOf(DayKeys(rt, tz, ms), ms, byDay)
  }

  /** The loop's state after `n` samples, with the index of each kept sample. */
  ghost predicate BucketsSoFar(keys: seq<string>, ms: seq<Metric>, n: int,
                               byDay: map<string, Metric>, winner: map<string, int>)
    requires |keys| == |ms| && 0 <= n <= |ms|
  {
    && winner.Keys == byDay.Keys
    && (forall j :: 0 <= j < n ==> keys[j] in byDay)
    && (forall k :: k in byDay ==> IsLatest(keys, ms, n, k, winner[k]) && byDay[k] == ms[winner[k]])
  }

  /** `aggregateByDay`: it raises on the first sample without a local date text. */
  method AggregateByDay(rt: Runtime, tz: Timezone, ms: seq<Metric>) returns (r: Result<map<string, Metric>>)
    ensures r.Ok? <==> Datable(rt, tz, ms)
    ensures r.Err? ==> r.error == InvalidTimeValue
    ensures r.Ok? ==> Buckets(rt, tz, ms, r.value)
  {
    ghost var keys := DayKeys(rt, tz, ms);
    var byDay := map[];
    ghost var winner: map<string, int> := map[];
    for n := 0 to |ms|
      invariant n > 0 ==> Resolves(rt, tz)
      invariant forall i :: 0 <= i < n ==> DateHolds(ms[i].timestamp * 1000)
      invariant BucketsSoFar(keys, ms, n, byDay, winner)
    {
      var text := GetDateString(rt, tz, ms[n].timestamp);
      if text.Err? {
        return Err(text.error);
      }
      assert text.value == DayKey(rt, tz, ms[n]) == keys[n];
      byDay, winner := Absorb(keys, ms, n, byDay, winner, text.value);
    }
    AllSamplesSeen(keys, ms, byDay, winner);
    r := Ok(byDay);
  }

  /** One step of `aggregateByDay`: the sample replaces the day's kept one
      when it is the first of its day or strictly later. */
  method Absorb(ghost keys: seq<string>, ms: seq<Metric>, n: int, byDay: map<string, Metric>,
                ghost winner: map<string, int>, dateString: string)
    returns (byDay': map<string, Metric>, ghost winner': map<string, int>)
    requires |keys| == |ms| && 0 <= n < |ms| && BucketsSoFar(keys, ms, n, byDay, winner)
    requires dateString == keys[n]
    ensures BucketsSoFar(keys, ms, n + 1, byDay', winner')
    ensures byDay' == if dateString !in byDay || ms[n].timestamp > byDay[dateString].timestamp
                      then byDay[dateString := ms[n]] else byDay
  {
    if dateString !in byDay || ms[n].timestamp > byDay[dateString].timestamp {
      TakeSample(keys, ms, n, byDay, winner);
      byDay' := byDay[dateString := ms[n]];
      winner' := winner[dateString := n];
    } else {
      KeepSample(keys, ms, n, byDay, winner);
      byDay', winner' := byDay, winner;
    }
  }

  /** The sample is later than the day's kept one, or the first of its day: it is kept instead. */
  lemma TakeSample(keys: seq<string>, ms: seq<Metric>, n: int, byDay: map<string, Metric>, winner: map<string, int>)
    requires |keys| == |ms| && 0 <= n < |ms| && BucketsSoFar(keys, ms, n, byDay, winner)
    requires keys[n] !in byDay || ms[n].timestamp > byDay[keys[n]].timestamp
    ensures BucketsSoFar(keys, ms, n + 1, byDay[keys[n] := ms[n]], winner[keys[n] := n])
  {
    BucketStep(keys, ms, n, byDay[keys[n] := ms[n]], winner[keys[n] := n]);
  }

  /** The sample is not later than the day's kept one: nothing changes. */
  lemma KeepSample(keys: seq<string>, ms: seq<Metric>, n: int, byDay: map<string, Metric>, winner: map<string, int>)
    requires |keys| == |ms| && 0 <= n < |ms| && BucketsSoFar(keys, ms, n, byDay, winner)
    requires keys[n] in byDay && ms[n].timestamp <= byDay[keys[n]].timestamp
    ensures BucketsSoFar(keys, ms, n + 1, byDay, winner)
  {
    BucketStep(keys, ms, n, byDay, winner);
  }

  lemma AllSamplesSeen(keys: seq<string>, ms: seq<Metric>, byDay: map<string, Metric>, winner: map<string, int>)
    requires |keys| == |ms| && BucketsSoFar(keys, ms, |ms|, byDay, winner)
    ensures BucketsOf(keys, ms, byDay)
  {
    forall k | k in byDay
      ensures exists j :: IsLatest(keys, ms, |ms|, k, j) && byDay[k] == ms[j]
    {
      assert IsLatest(keys, ms, |ms|, k, winner[k]);
    }
  }

  /** One loop step keeps the bucketing state. */
  lemma BucketStep(keys: seq<string>, ms: seq<Metric>, n: int, byDay: map<string, Metric>, winner: map<string, int>)
    requires |keys| == |ms| && 0 <= n < |ms|
    requires keys[n] in byDay && winner.Keys == byDay.Keys
    requires forall j :: 0 <= j < n ==> keys[j] in byDay
    requires forall k :: k in byDay && k != keys[n] ==>
               IsLatest(keys, ms, n, k, winner[k]) && byDay[k] == ms[winner[k]]
    requires 0 <= winner[keys[n]] <= n && byDay[keys[n]] == ms[winner[keys[n]]]
    requires winner[keys[n]] == n || IsLatest(keys, ms, n, keys[n], winner[keys[n]])
    requires winner[keys[n]] == n ==>
               forall i :: 0 <= i < n && keys[i] == keys[n] ==> ms[i].timestamp < ms[n].timestamp
    requires winner[keys[n]] != n ==> ms[n].timestamp <= ms[winner[keys[n]]].timestamp
    ensures BucketsSoFar(keys, ms, n + 1, byDay, winner)
  {
  }

  /** Only one sample can be the winner of a day. */
  lemma WinnerUnique(rt: Runtime, tz: Timezone, ms: seq<Metric>, key: string, j1: int, j2: int)
    requires Datable(rt, tz, ms)
    requires IsDayWinner(rt, tz, ms, key, j1) && IsDayWinner(rt, tz, ms, key, j2)
    ensures j1 == j2
  {
  }

  /** Of two samples on the same day with the same timestamp, the later one is never kept. */
  lemma TieKeepsFirst(rt: Runtime, tz: Timezone, ms: seq<Metric>, i: int, j: int)
    requires Datable(rt, tz, ms) && 0 <= i < j < |ms|
    requires DayKey(rt, tz, ms[i]) == DayKey(rt, tz, ms[j]) && ms[i].timestamp == ms[j].timestamp
    ensures !IsDayWinner(rt, tz, ms, DayKey(rt, tz, ms[j]), j)
  {
  }

  /** Bucket keys are exactly the local dates of the samples. */
  lemma BucketKeys(rt: Runtime, tz: Timezone, ms: seq<Metric>, byDay: map<string, Metric>, key: string)
    requires Datable(rt, tz, ms) && Buckets(rt, tz, ms, byDay)
    ensures key in byDay <==> exists j :: 0 <= j < |ms| && DayKey(rt, tz, ms[j]) == key
  {
    if key in byDay {
      var j :| IsLatest(DayKeys(rt, tz, ms), ms, |ms|, key, j) && byDay[key] == ms[j];
    }
  }

  // ---------------------------------------------------------------------
  // The calendar dates of the request

  /** The dates from the first to the last inclusive, or none when either
      text is not a `yyyy-MM-dd` date. */
  function DaysBetween(startDate: string, endDate: string): seq<Date> {
    match (ParseDateText(startDate), ParseDateText(endDate))
    case (Some(a), Some(b)) => DaysFromTo(a, b)
    case _ => []
  }

  /** The dates from `a` to `b` inclusive. */
  function DaysFromTo(a: Date, b: Date): seq<Date> {
    DaysFrom(DayNumber(a), if DayNumber(a) <= DayNumber(b) then DayNumber(b) - DayNumber(a) + 1 else 0)
  }

  function Texts(ds: seq<Date>): (ts: seq<string>)
    ensures |ts| == |ds| && forall i :: 0 <= i < |ds| ==> ts[i] == FormatDate(ds[i])
  {
    seq(|ds|, i requires 0 <= i < |ds| => FormatDate(ds[i]))
  }

  /** `getDateRange`: walk day by day from the start while on or before the end. */
  method DateRange(startDate: string, endDate: string) returns (dates: seq<string>)
    ensures dates == Texts(DaysBetween(startDate, endDate))
  {
    var start := ParseDateText(startDate);
    var end := ParseDateText(endDate);
    dates := [];
    if start.Some? && end.Some? {
      var a, b := start.value, end.value;
      var current := a;
      ghost var walked: seq<Date> := [];
      while OnOrBefore(current, b)
        invariant ValidDate(current) && DayNumber(current) == DayNumber(a) + |walked|
        invariant |walked| == 0 || DayNumber(current) <= DayNumber(b) + 1
        invariant walked == DaysFrom(DayNumber(a), |walked|)
        invariant dates == Texts(walked)
        decreases DayNumber(b) - DayNumber(current)
      {
        OnOrBeforeIffDayNumber(current, b);
        WalkStep(DayNumber(a), walked, current);
        dates := dates + [FormatDate(current)];
        walked := walked + [current];
        current := NextDay(current);
      }
      OnOrBeforeIffDayNumber(current, b);
    }
  }

  /** `count` consecutive dates from day number `first`. */
  function DaysFrom(first: int, count: nat): (ds: seq<Date>)
    ensures |ds| == count
    ensures forall i :: 0 <= i < count ==> ValidDate(ds[i]) && DayNumber(ds[i]) == first + i
  {
    var ds := seq(count, i => CivilFromDays(first + i));
    assert forall i :: 0 <= i < count ==> ds[i] == CivilFromDays(first + i);
    ds
  }

  lemma DaysFromStep(first: int, count: nat)
    ensures DaysFrom(first, count + 1) == DaysFrom(first, count) + [CivilFromDays(first + count)]
  {
  }

  /** One more day of the walk extends both the dates and their texts by that day. */
  lemma WalkStep(first: int, walked: seq<Date>, current: Date)
    requires ValidDate(current) && DayNumber(current) == first + |walked|
    requires walked == DaysFrom(first, |walked|)
    ensures walked + [current] == DaysFrom(first, |walked| + 1)
    ensures Texts(walked + [current]) == Texts(walked) + [FormatDate(current)]
  {
    CivilFromDayNumber(current);
    DaysFromStep(first, |walked|);
    TextsAppend(walked, current);
  }

  lemma TextsAppend(ds: seq<Date>, d: Date)
    ensures Texts(ds + [d]) == Texts(ds) + [FormatDate(d)]
  {
  }

  // ---------------------------------------------------------------------
  // Points

  /** The point for `date` built from the buckets. */
  ghost predicate PointFromBucket(rt: Runtime, tz: Timezone, unit: Unit, byDay: map<string, Metric>,
                                  date: string, p: ChartDataPoint)
  {
    && p.date == date && p.unit == unit.value
    && (date in byDay ==>
          p.value == Round6(FromBaseUnit(unit, byDay[date].value)) && p.timestamp == byDay[date].timestamp)
    && (date !in byDay ==>
          p.value == 0.0 && StartOfDayTimestamp(rt, tz, date) == Ok(p.timestamp))
  }

  /** The point of one date: the day's kept sample in the display unit, or
      zero at the start of the day when the day has none. */
  function PointFor(rt: Runtime, tz: Timezone, unit: Unit, byDay: map<string, Metric>, date: string)
    : (r: Result<ChartDataPoint>)
    ensures r.Err? <==> date !in byDay && StartOfDayTimestamp(rt, tz, date).Err?
    ensures r.Err? ==> r == Err(StartOfDayTimestamp(rt, tz, date).error)
    ensures r.Ok? ==> PointFromBucket(rt, tz, unit, byDay, date, r.value)
  {
    if date in byDay then
      Ok(ChartDataPoint(date, Round6(FromBaseUnit(unit, byDay[date].value)), unit.value, byDay[date].timestamp))
    else
      match StartOfDayTimestamp(rt, tz, date)
      case Err(e) => Err(e)
      case Ok(ts) => Ok(ChartDataPoint(date, 0.0, unit.value, ts))
  }

  function PointsEach(rt: Runtime, tz: Timezone, unit: Unit, byDay: map<string, Metric>, dates: seq<string>)
    : (rs: seq<Result<ChartDataPoint>>)
    ensures |rs| == |dates| && forall i :: 0 <= i < |dates| ==> rs[i] == PointFor(rt, tz, unit, byDay, dates[i])
  {
    seq(|dates|, i requires 0 <= i < |dates| => PointFor(rt, tz, unit, byDay, dates[i]))
  }

  /** `dates[i]` is the first date whose point cannot be built: it has no
      bucket and its start of day fails, while every earlier date has a point. */
  predicate FirstFailure(rt: Runtime, tz: Timezone, byDay: map<string, Metric>, dates: seq<string>, i: int)
    requires 0 <= i < |dates|
  {
    && dates[i] !in byDay && StartOfDayTimestamp(rt, tz, dates[i]).Err?
    && forall j :: 0 <= j < i ==> dates[j] in byDay || StartOfDayTimestamp(rt, tz, dates[j]).Ok?
  }

  /** The chart's `map` over the dates; the first date that fails decides the error. */
  function ChartPoints(rt: Runtime, tz: Timezone, unit: Unit, byDay: map<string, Metric>,
                       dates: seq<string>): (r: Result<seq<ChartDataPoint>>)
    ensures r.Err? <==> exists i :: 0 <= i < |dates| && dates[i] !in byDay && StartOfDayTimestamp(rt, tz, dates[i]).Err?
    ensures r.Err? ==> exists i :: 0 <= i < |dates| && FirstFailure(rt, tz, byDay, dates, i)
                                   && r.error == StartOfDayTimestamp(rt, tz, dates[i]).error
    ensures r.Ok? ==> |r.value| == |dates|
    ensures r.Ok? ==> forall i :: 0 <= i < |dates| ==> PointFromBucket(rt, tz, unit, byDay, dates[i], r.value[i])
  {
    var rs := PointsEach(rt, tz, unit, byDay, dates);
    var r := Collect(rs);
    assert r.Ok? ==> forall i :: 0 <= i < |dates| ==> PointFor(rt, tz, unit, byDay, dates[i]) == Ok(r.value[i]);
    FirstFailureOf(rt, tz, unit, byDay, dates, r);
    r
  }

  lemma FirstFailureOf(rt: Runtime, tz: Timezone, unit: Unit, byDay: map<string, Metric>,
                       dates: seq<string>, r: Result<seq<ChartDataPoint>>)
    requires r == Collect(PointsEach(rt, tz, unit, byDay, dates))
    ensures r.Err? ==> exists i :: 0 <= i < |dates| && FirstFailure(rt, tz, byDay, dates, i)
                                   && r.error == StartOfDayTimestamp(rt, tz, dates[i]).error
  {
    var rs := PointsEach(rt, tz, unit, byDay, dates);
    if r.Err? {
      var i :| 0 <= i < |rs| && rs[i].Err? && r.error == rs[i].error && forall j :: 0 <= j < i ==> rs[j].Ok?;
      assert FirstFailure(rt, tz, byDay, dates, i);
    }
  }

  /** The point for `date` as the service promises it, from the fetched samples. */
  ghost predicate PointMatches(rt: Runtime, tz: Timezone, unit: Unit, ms: seq<Metric>,
                               date: string, p: ChartDataPoint)
    requires Datable(rt, tz, ms)
  {
    && p.date == date && p.unit == unit.value
    && ((exists j :: IsDayWinner(rt, tz, ms, date, j)
                     && p.value == Round6(FromBaseUnit(unit, ms[j].value)) && p.timestamp == ms[j].timestamp)
        || (NoSampleOn(rt, tz, ms, date) && p.value == 0.0 && StartOfDayTimestamp(rt, tz, date) == Ok(p.timestamp)))
  }

  predicate NoSampleOn(rt: Runtime, tz: Timezone, ms: seq<Metric>, date: string)
    requires Datable(rt, tz, ms)
  {
    forall j :: 0 <= j < |ms| ==> DayKey(rt, tz, ms[j]) != date
  }

  /** `dates[i]` is the first date no sample falls on whose start of day
      fails, while every earlier date has a point. */
  predicate FirstUnfilled(rt: Runtime, tz: Timezone, ms: seq<Metric>, dates: seq<string>, i: int)
    requires Datable(rt, tz, ms) && 0 <= i < |dates|
  {
    && NoSampleOn(rt, tz, ms, dates[i]) && StartOfDayTimestamp(rt, tz, dates[i]).Err?
    && forall j :: 0 <= j < i ==> !NoSampleOn(rt, tz, ms, dates[j]) || StartOfDayTimestamp(rt, tz, dates[j]).Ok?
  }

  lemma BucketPoint(rt: Runtime, tz: Timezone, unit: Unit, ms: seq<Metric>, byDay: map<string, Metric>,
                    date: string, p: ChartDataPoint)
    requires Datable(rt, tz, ms) && Buckets(rt, tz, ms, byDay)
    requires PointFromBucket(rt, tz, unit, byDay, date, p)
    ensures PointMatches(rt, tz, unit, ms, date, p)
    ensures date !in byDay <==> NoSampleOn(rt, tz, ms, date)
  {
    BucketKeys(rt, tz, ms, byDay, date);
  }

  /** The points built from the buckets of `ms` are the points the service
      promises for `ms`, and they fail exactly on a day without samples whose
      start cannot be computed, with the first such day's error. */
  lemma ChartedPoints(rt: Runtime, tz: Timezone, unit: Unit, ms: seq<Metric>, byDay: map<string, Metric>,
                      dates: seq<string>)
    requires Datable(rt, tz, ms) && Buckets(rt, tz, ms, byDay)
    ensures var r := ChartPoints(rt, tz, unit, byDay, dates);
      && (r.Err? <==> exists i :: 0 <= i < |dates| && NoSampleOn(rt, tz, ms, dates[i])
                                  && StartOfDayTimestamp(rt, tz, dates[i]).Err?)
      && (r.Err? ==> exists i :: 0 <= i < |dates| && FirstUnfilled(rt, tz, ms, dates, i)
                                 && r.error == StartOfDayTimestamp(rt, tz, dates[i]).error)
      && (r.Ok? ==> |r.value| == |dates|
                    && forall i :: 0 <= i < |dates| ==> PointMatches(rt, tz, unit, ms, dates[i], r.value[i]))
  {
    var r := ChartPoints(rt, tz, unit, byDay, dates);
    forall i | 0 <= i < |dates|
      ensures dates[i] !in byDay <==> NoSampleOn(rt, tz, ms, dates[i])
    {
      BucketKeys(rt, tz, ms, byDay, dates[i]);
    }
    if r.Err? {
      var i :| 0 <= i < |dates| && FirstFailure(rt, tz, byDay, dates, i)
               && r.error == StartOfDayTimestamp(rt, tz, dates[i]).error;
      assert FirstUnfilled(rt, tz, ms, dates, i);
    }
    if r.Ok? {
      forall i | 0 <= i < |dates|
        ensures PointMatches(rt, tz, unit, ms, dates[i], r.value[i])
      {
        BucketPoint(rt, tz, unit, ms, byDay, dates[i], r.value[i]);
      }
    }
  }

  /** `execute`. */
  method Execute(store: MetricStore, rt: Runtime, req: ChartRequest) returns (r: Result<ChartResponse>)
    ensures Setup(rt, req).Err? ==> r == Err(Setup(rt, req).error)
    ensures Setup(rt, req).Ok? ==>
      var s := Setup(rt, req).value;
      var fetched := store.FindByUserTypeAndTimeRange(req.userId, req.metricType, s.startTimestamp, s.endTimestamp);
      !Datable(rt, s.tz, fetched) ==> r == Err(InvalidTimeValue)
    ensures Setup(rt, req).Ok? ==>
      var s := Setup(rt, req).value;
      var fetched := store.FindByUserTypeAndTimeRange(req.userId, req.metricType, s.startTimestamp, s.endTimestamp);
      var dates := Texts(DaysBetween(req.startDate, req.endDate));
      Datable(rt, s.tz, fetched) ==>
      && (r.Err? <==> exists i :: 0 <= i < |dates| && NoSampleOn(rt, s.tz, fetched, dates[i])
                                  && StartOfDayTimestamp(rt, s.tz, dates[i]).Err?)
      && (r.Err? ==> exists i :: 0 <= i < |dates| && FirstUnfilled(rt, s.tz, fetched, dates, i)
                                 && r.error == StartOfDayTimestamp(rt, s.tz, dates[i]).error)
      && (r.Ok? ==>
            && r.value.timezone == req.timezone
            && r.value.startDate == req.startDate
            && r.value.endDate == req.endDate
            && |r.value.data| == |dates|
            && forall i :: 0 <= i < |dates| ==> PointMatches(rt, s.tz, s.unit, fetched, dates[i], r.value.data[i]))
  {
    var setup := Setup(rt, req);
    if setup.Err? {
      return Err(setup.error);
    }
    var s := setup.value;
    var fetched := store.FindByUserTypeAndTimeRange(req.userId, req.metricType, s.startTimestamp, s.endTimestamp);
    var byDay := AggregateByDay(rt, s.tz, fetched);
    if byDay.Err? {
      return Err(byDay.error);
    }
    var dates := DateRange(req.startDate, req.endDate);
    var points := ChartPoints(rt, s.tz, s.unit, byDay.value, dates);
    ChartedPoints(rt, s.tz, s.unit, fetched, byDay.value, dates);
    if points.Err? {
      return Err(points.error);
    }
    r := Ok(ChartResponse(points.value, req.timezone, req.startDate, req.endDate));
  }
}
