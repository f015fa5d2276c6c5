/** What the daily chart promises: the window is exactly the local days of
    the request, the dates are every calendar day from start to end once and
    in order, zero-filled days always get their start-of-day instant, and
    every fetched sample lands on one of the charted days. */
module ChartProperties {
  import opened Errors
  import opened Metrics
  import opened Units
  import opened Calendar
  import opened DateText
  import opened Timezones
  import opened ChartData

  /** The start of a canonical date text exists under any engine; under an
      agreeing one, from year 100 on, it is midnight local time as epoch seconds. */
  lemma StartOfDayOf(rt: Runtime, tz: Timezone, d: Date)
    requires Resolves(rt, tz)
    requires ValidDate(d) && 1 <= d.year <= 9999
    ensures StartOfDayTimestamp(rt, tz, FormatDate(d)).Ok?
    ensures NativeAgrees(rt) && 100 <= d.year ==>
              StartOfDayTimestamp(rt, tz, FormatDate(d)).value == DayNumber(d) * 86400 - rt.offsets[tz.value]
  {
    ParseStartOfDay(d);
    StartOfParsedDay(rt, tz, FormatDate(d), d);
  }

  lemma StartOfParsedDay(rt: Runtime, tz: Timezone, t: string, d: Date)
    requires Resolves(rt, tz)
    requires ParseDateTimeText(t + " 00:00:00") == Some(WallClock(d, 0, 0, 0, 0))
    ensures StartOfDayTimestamp(rt, tz, t).Ok?
    ensures NativeAgrees(rt) && 100 <= d.year ==>
              StartOfDayTimestamp(rt, tz, t).value == DayNumber(d) * 86400 - rt.offsets[tz.value]
  {
    if NativeAgrees(rt) && 100 <= d.year {
      var w := WallClock(d, 0, 0, 0, 0);
      assert LocalMillis(w) == DayNumber(d) * 86400 * 1000;
      ParseAtWallClock(rt, tz, t + " 00:00:00", w, DayNumber(d) * 86400 - rt.offsets[tz.value]);
    }
  }

  /** The end of a canonical date text exists under any engine; under an
      agreeing one, from year 100 on, it is 23:59:59 local time as epoch seconds. */
  lemma EndOfDayOf(rt: Runtime, tz: Timezone, d: Date)
    requires Resolves(rt, tz)
    requires ValidDate(d) && 1 <= d.year <= 9999
    ensures EndOfDayTimestamp(rt, tz, FormatDate(d)).Ok?
    ensures NativeAgrees(rt) && 100 <= d.year ==>
              EndOfDayTimestamp(rt, tz, FormatDate(d)).value == DayNumber(d) * 86400 + 86399 - rt.offsets[tz.value]
  {
    ParseEndOfDay(d);
    EndOfParsedDay(rt, tz, FormatDate(d), d);
  }

  lemma EndOfParsedDay(rt: Runtime, tz: Timezone, t: string, d: Date)
    requires Resolves(rt, tz)
    requires ParseDateTimeText(t + " 23:59:59") == Some(WallClock(d, 23, 59, 59, 0))
    ensures EndOfDayTimestamp(rt, tz, t).Ok?
    ensures NativeAgrees(rt) && 100 <= d.year ==>
              EndOfDayTimestamp(rt, tz, t).value == DayNumber(d) * 86400 + 86399 - rt.offsets[tz.value]
  {
    if NativeAgrees(rt) && 100 <= d.year {
      var w := WallClock(d, 23, 59, 59, 0);
      assert LocalMillis(w) == (DayNumber(d) * 86400 + 86399) * 1000;
      ParseAtWallClock(rt, tz, t + " 23:59:59", w, DayNumber(d) * 86400 + 86399 - rt.offsets[tz.value]);
    }
  }

  /** An instant lies in the window from the start of day `a` to the end of
      day `b` exactly when its local date is one of the days `a` .. `b`. */
  lemma WindowIsLocalDays(rt: Runtime, tz: Timezone, a: Date, b: Date, ts: int)
    requires Resolves(rt, tz) && ValidDate(a) && ValidDate(b)
    ensures var off := rt.offsets[tz.value];
      DayNumber(a) * 86400 - off <= ts <= DayNumber(b) * 86400 + 86399 - off
      <==> OnOrBefore(a, LocalDate(rt, tz, ts)) && OnOrBefore(LocalDate(rt, tz, ts), b)
  {
    var off := rt.offsets[tz.value];
    var local := LocalDate(rt, tz, ts);
    OnOrBeforeIffDayNumber(a, local);
    OnOrBeforeIffDayNumber(local, b);
    var x := ts + off;
    assert x == (x / 86400) * 86400 + x % 86400 && 0 <= x % 86400 < 86400;
  }

  /** The request's date texts determine the charted dates through the dates they parse to. */
  lemma DaysBetweenOfDates(startDate: string, endDate: string)
    ensures ParseDateText(startDate).Some? && ParseDateText(endDate).Some? ==>
              DaysBetween(startDate, endDate) == DaysFromTo(ParseDateText(startDate).value, ParseDateText(endDate).value)
    ensures ParseDateText(startDate).None? || ParseDateText(endDate).None? ==> DaysBetween(startDate, endDate) == []
  {
  }

  /** The number of charted dates: one per day from start to end, none when the end is earlier. */
  lemma DaysFromToLength(a: Date, b: Date)
    requires ValidDate(a) && ValidDate(b)
    ensures |DaysFromTo(a, b)| == if DayNumber(a) <= DayNumber(b) then DayNumber(b) - DayNumber(a) + 1 else 0
    ensures Before(b, a) <==> DaysFromTo(a, b) == []
  {
    BeforeIffSmallerDayNumber(b, a);
  }

  /** The charted dates run from the start date to the end date, each the day after the one before. */
  lemma DaysFromToConsecutive(a: Date, b: Date)
    requires ValidDate(a) && ValidDate(b)
    ensures var ds := DaysFromTo(a, b);
      && (|ds| > 0 ==> ds[0] == a && ds[|ds| - 1] == b)
      && forall i :: 0 <= i < |ds| - 1 ==> ds[i + 1] == NextDay(ds[i])
  {
    var ds := DaysFromTo(a, b);
    if |ds| > 0 {
      DaysFromToEnds(a, b);
    }
    forall i | 0 <= i < |ds| - 1
      ensures ds[i + 1] == NextDay(ds[i])
    {
      DaysFromToNext(a, b, i);
    }
  }

  lemma DaysFromToEnds(a: Date, b: Date)
    requires ValidDate(a) && ValidDate(b) && |DaysFromTo(a, b)| > 0
    ensures DaysFromTo(a, b)[0] == a && DaysFromTo(a, b)[|DaysFromTo(a, b)| - 1] == b
  {
    var ds := DaysFromTo(a, b);
    DayNumberInjective(ds[0], a);
    DayNumberInjective(ds[|ds| - 1], b);
  }

  lemma DaysFromToNext(a: Date, b: Date, i: int)
    requires ValidDate(a) && ValidDate(b) && 0 <= i < |DaysFromTo(a, b)| - 1
    ensures DaysFromTo(a, b)[i + 1] == NextDay(DaysFromTo(a, b)[i])
  {
    var ds := DaysFromTo(a, b);
    DayNumberInjective(ds[i + 1], NextDay(ds[i]));
  }

  /** Every valid date from the start to the end is charted, and nothing else. */
  lemma DaysFromToComplete(a: Date, b: Date, d: Date)
    requires ValidDate(a) && ValidDate(b) && ValidDate(d)
    ensures d in DaysFromTo(a, b) <==> OnOrBefore(a, d) && OnOrBefore(d, b)
  {
    var ds := DaysFromTo(a, b);
    OnOrBeforeIffDayNumber(a, d);
    OnOrBeforeIffDayNumber(d, b);
    if OnOrBefore(a, d) && OnOrBefore(d, b) {
      CivilFromDayNumber(d);
      assert ds[DayNumber(d) - DayNumber(a)] == d;
    }
  }

  /** The charted days lie between the ends, so their years are those of the ends. */
  lemma DaysFromToYears(a: Date, b: Date, i: int)
    requires ValidDate(a) && 1 <= a.year && ValidDate(b) && b.year <= 9999
    requires 0 <= i < |DaysFromTo(a, b)|
    ensures ValidDate(DaysFromTo(a, b)[i]) && a.year <= DaysFromTo(a, b)[i].year <= b.year
  {
    YearBetween(a, DaysFromTo(a, b)[i], b);
  }

  /** No date text is charted twice. */
  lemma ChartDatesDistinct(a: Date, b: Date, i: int, j: int)
    requires ValidDate(a) && 1 <= a.year && ValidDate(b) && b.year <= 9999
    requires 0 <= i < j < |DaysFromTo(a, b)|
    ensures Texts(DaysFromTo(a, b))[i] != Texts(DaysFromTo(a, b))[j]
  {
    var ds := DaysFromTo(a, b);
    DaysFromToYears(a, b, i);
    DaysFromToYears(a, b, j);
    if FormatDate(ds[i]) == FormatDate(ds[j]) {
      FormatDateInjective(ds[i], ds[j]);
    }
  }

  /** A day without samples gets the start of that day: that instant exists
      under any engine, and under an agreeing one, from year 100 on, it is the
      day's local midnight. */
  lemma ZeroFillSucceeds(rt: Runtime, tz: Timezone, a: Date, b: Date, i: int)
    requires Resolves(rt, tz)
    requires ValidDate(a) && 1 <= a.year && ValidDate(b) && b.year <= 9999
    requires 0 <= i < |DaysFromTo(a, b)|
    ensures StartOfDayTimestamp(rt, tz, Texts(DaysFromTo(a, b))[i]).Ok?
    ensures NativeAgrees(rt) && 100 <= a.year ==>
              StartOfDayTimestamp(rt, tz, Texts(DaysFromTo(a, b))[i]).value
              == DayNumber(DaysFromTo(a, b)[i]) * 86400 - rt.offsets[tz.value]
  {
    DaysFromToYears(a, b, i);
    StartOfDayOf(rt, tz, DaysFromTo(a, b)[i]);
  }

  /** Once the request is set up, building the points cannot fail, whatever the buckets hold. */
  lemma ChartPointsSucceed(rt: Runtime, tz: Timezone, unit: Unit, byDay: map<string, Metric>,
                           startDate: string, endDate: string)
    requires Resolves(rt, tz)
    ensures ChartPoints(rt, tz, unit, byDay, Texts(DaysBetween(startDate, endDate))).Ok?
  {
    DaysBetweenOfDates(startDate, endDate);
    if ParseDateText(startDate).Some? && ParseDateText(endDate).Some? {
      ChartPointsSucceedOn(rt, tz, unit, byDay, ParseDateText(startDate).value, ParseDateText(endDate).value);
    }
  }

  lemma ChartPointsSucceedOn(rt: Runtime, tz: Timezone, unit: Unit, byDay: map<string, Metric>, a: Date, b: Date)
    requires Resolves(rt, tz)
    requires ValidDate(a) && 1 <= a.year && ValidDate(b) && b.year <= 9999
    ensures ChartPoints(rt, tz, unit, byDay, Texts(DaysFromTo(a, b))).Ok?
  {
    var dates := Texts(DaysFromTo(a, b));
    forall i | 0 <= i < |dates|
      ensures StartOfDayTimestamp(rt, tz, dates[i]).Ok?
    {
      ZeroFillSucceeds(rt, tz, a, b, i);
    }
  }

  /** For canonical request dates, every instant inside the fetch window that
      a Date holds has a local date that is one of the charted dates, so no
      fetched sample is dropped. */
  lemma FetchedSamplesAreCharted(rt: Runtime, tz: Timezone, a: Date, b: Date, ts: int)
    requires Resolves(rt, tz)
    requires ValidDate(a) && ValidDate(b)
    requires DayNumber(a) * 86400 - rt.offsets[tz.value] <= ts <= DayNumber(b) * 86400 + 86399 - rt.offsets[tz.value]
    ensures GetDateString(rt, tz, ts).Ok? <==> DateHolds(ts * 1000)
    ensures GetDateString(rt, tz, ts).Ok? ==> GetDateString(rt, tz, ts).value in Texts(DaysFromTo(a, b))
  {
    WindowIsLocalDays(rt, tz, a, b, ts);
    var local := LocalDate(rt, tz, ts);
    DaysFromToComplete(a, b, local);
    var ds := DaysFromTo(a, b);
    var k :| 0 <= k < |ds| && ds[k] == local;
    assert Texts(ds)[k] == FormatDate(local);
  }

  /** A four-day request charts four days; a request ending before it starts charts none. */
  lemma RangeExamples()
    ensures |DaysFromTo(Date(2023, 12, 13), Date(2023, 12, 16))| == 4
    ensures DaysFromTo(Date(2023, 12, 16), Date(2023, 12, 13)) == []
    ensures |DaysFromTo(Date(2023, 12, 31), Date(2024, 1, 1))| == 2
  {
    YearStep(2023);
  }
}
