/** Proleptic Gregorian calendar dates, their numbering as days since
    1970-01-01, and wall-clock times. This is the date arithmetic that the
    service takes from date-fns (`addDays`, comparison of dates) and from the
    JavaScript Date object. */
module Calendar {

  datatype Date = Date(year: int, month: int, day: int)

  /** The largest distance from the epoch, in milliseconds, that a JavaScript Date can hold. */
  const MaxEpochMillis: int := 8640000000000000

  /** `new Date(ms)` is a valid Date, not an Invalid Date. */
  predicate DateHolds(ms: int) {
    -MaxEpochMillis <= ms <= MaxEpochMillis
  }

  /** A zone-local wall-clock reading. */
  datatype WallClock = WallClock(date: Date, hour: int, minute: int, second: int, millis: int)

  predicate IsLeapYear(y: int) {
    (y % 4 == 0 && y % 100 != 0) || y % 400 == 0
  }

  function DaysInYear(y: int): int {
    if IsLeapYear(y) then 366 else 365
  }

  function DaysInMonth(y: int, m: int): int {
    if m == 2 then (if IsLeapYear(y) then 29 else 28)
    else if m == 4 || m == 6 || m == 9 || m == 11 then 30
    else 31
  }

  predicate ValidDate(d: Date) {
    1 <= d.month <= 12 && 1 <= d.day <= DaysInMonth(d.year, d.month)
  }

  predicate ValidWallClock(w: WallClock) {
    ValidDate(w.date) && 0 <= w.hour < 24 && 0 <= w.minute < 60 && 0 <= w.second < 60
    && 0 <= w.millis < 1000
  }

  /** Days of year `y` before the first day of month `m`; month 13 stands
      for the end of the year. */
  function DaysBeforeMonth(y: int, m: int): int {
    (if m > 2 && IsLeapYear(y) then 1 else 0) +
    (if m <= 1 then 0 else if m == 2 then 31 else if m == 3 then 59
     else if m == 4 then 90 else if m == 5 then 120 else if m == 6 then 151
     else if m == 7 then 181 else if m == 8 then 212 else if m == 9 then 243
     else if m == 10 then 273 else if m == 11 then 304 else if m == 12 then 334
     else 365)
  }

  /** Leap years among 1 .. y-1 (continued proleptically below year 1). */
  function LeapYearsBefore(y: int): int {
    (y - 1) / 4 - (y - 1) / 100 + (y - 1) / 400
  }

  /** Day number of January 1st of year `y`. */
  function DaysBeforeYear(y: int): int {
    365 * (y - 1970) + LeapYearsBefore(y) - LeapYearsBefore(1970)
  }

  /** Days since 1970-01-01 (negative before it). */
  function DayNumber(d: Date): int {
    DaysBeforeYear(d.year) + DaysBeforeMonth(d.year, d.month) + d.day - 1
  }

  /** Strictly earlier in the calendar. */
  predicate Before(a: Date, b: Date) {
    a.year < b.year || (a.year == b.year && (a.month < b.month || (a.month == b.month && a.day < b.day)))
  }

  predicate OnOrBefore(a: Date, b: Date) {
    a == b || Before(a, b)
  }

  /** The following calendar day (date-fns `addDays(d, 1)`). */
  function NextDay(d: Date): (n: Date)
    requires ValidDate(d)
    ensures ValidDate(n) && DayNumber(n) == DayNumber(d) + 1
  {
    MonthStep(d.year, d.month);
    if d.day < DaysInMonth(d.year, d.month) then Date(d.year, d.month, d.day + 1)
    else if d.month < 12 then Date(d.year, d.month + 1, 1)
    else YearStep(d.year); Date(d.year + 1, 1, 1)
  }

  /** The date with a given day number. */
  function CivilFromDays(n: int): (d: Date)
    ensures ValidDate(d) && DayNumber(d) == n
  {
    DateInYear(1970, n)
  }

  /** The date `r` days after January 1st of year `y`. */
  function DateInYear(y: int, r: int): (d: Date)
    ensures ValidDate(d) && DayNumber(d) == DaysBeforeYear(y) + r
    decreases if r < 0 then 1 else 0, if r < 0 then -r else r
  {
    if r < 0 then
      YearStep(y - 1);
      DateInYear(y - 1, r + DaysInYear(y - 1))
    else if r >= DaysInYear(y) then
      YearStep(y);
      DateInYear(y + 1, r - DaysInYear(y))
    else
      DateInMonth(y, 1, r)
  }

  /** The date `r` days after the first of month `m` of year `y`, within that year. */
  function DateInMonth(y: int, m: int, r: int): (d: Date)
    requires 1 <= m <= 12 && 0 <= r < DaysBeforeMonth(y, 13) - DaysBeforeMonth(y, m)
    ensures ValidDate(d) && d.year == y && DayNumber(d) == DaysBeforeYear(y) + DaysBeforeMonth(y, m) + r
    decreases 12 - m
  {
    MonthStep(y, m);
    if r < DaysInMonth(y, m) then Date(y, m, r + 1)
    else DateInMonth(y, m + 1, r - DaysInMonth(y, m))
  }

  // ---------------------------------------------------------------------
  // Arithmetic of the day numbering

  lemma MonthStep(y: int, m: int)
    requires 1 <= m <= 12
    ensures DaysBeforeMonth(y, m + 1) == DaysBeforeMonth(y, m) + DaysInMonth(y, m)
    ensures DaysBeforeMonth(y, 1) == 0 && DaysBeforeMonth(y, 13) == DaysInYear(y)
  {
  }

  lemma YearStep(y: int)
    ensures DaysBeforeYear(y + 1) == DaysBeforeYear(y) + DaysInYear(y)
  {
    LeapCountStep(y);
  }

  /** Going from `y - 1` to `y` adds one multiple of 4, 100 or 400 exactly when it divides `y`. */
  lemma LeapCountStep(y: int)
    ensures y / 4 - (y - 1) / 4 == (if y % 4 == 0 then 1 else 0)
    ensures y / 100 - (y - 1) / 100 == (if y % 100 == 0 then 1 else 0)
    ensures y / 400 - (y - 1) / 400 == (if y % 400 == 0 then 1 else 0)
  {
    var a, b, c := y % 4, y % 100, y % 400;
    assert y == 4 * (y / 4) + a;
    assert y == 100 * (y / 100) + b;
    assert y == 400 * (y / 400) + c;
  }

  lemma {:induction false} YearsMonotone(a: int, b: int)
    requires a < b
    ensures DaysBeforeYear(a) + DaysInYear(a) <= DaysBeforeYear(b)
    decreases b - a
  {
    YearStep(a);
    if a + 1 < b {
      YearsMonotone(a + 1, b);
    }
  }

  lemma MonthsMonotone(y: int, m: int, k: int)
    requires 1 <= m < k <= 13
    ensures DaysBeforeMonth(y, m) + DaysInMonth(y, m) <= DaysBeforeMonth(y, k)
  {
  }

  lemma DayNumberWithinYear(d: Date)
    requires ValidDate(d)
    ensures DaysBeforeYear(d.year) <= DayNumber(d) < DaysBeforeYear(d.year) + DaysInYear(d.year)
  {
    MonthsMonotone(d.year, d.month, 13);
    MonthStep(d.year, 1);
  }

  /** Calendar order is day-number order. */
  lemma BeforeIffSmallerDayNumber(a: Date, b: Date)
    requires ValidDate(a) && ValidDate(b)
    ensures Before(a, b) <==> DayNumber(a) < DayNumber(b)
  {
    if Before(a, b) {
      BeforeMeansSmaller(a, b);
    } else if a != b {
      assert Before(b, a);
      BeforeMeansSmaller(b, a);
    }
  }

  lemma BeforeMeansSmaller(a: Date, b: Date)
    requires ValidDate(a) && ValidDate(b) && Before(a, b)
    ensures DayNumber(a) < DayNumber(b)
  {
    if a.year < b.year {
      DayNumberWithinYear(a);
      DayNumberWithinYear(b);
      YearsMonotone(a.year, b.year);
    } else if a.month < b.month {
      MonthsMonotone(a.year, a.month, b.month);
    }
  }

  lemma DayNumberInjective(a: Date, b: Date)
    requires ValidDate(a) && ValidDate(b) && DayNumber(a) == DayNumber(b)
    ensures a == b
  {
    BeforeIffSmallerDayNumber(a, b);
    BeforeIffSmallerDayNumber(b, a);
  }

  /** `CivilFromDays` and `DayNumber` are inverse bijections between valid dates and integers. */
  lemma CivilFromDayNumber(d: Date)
    requires ValidDate(d)
    ensures CivilFromDays(DayNumber(d)) == d
  {
    DayNumberInjective(CivilFromDays(DayNumber(d)), d);
  }

  lemma OnOrBeforeIffDayNumber(a: Date, b: Date)
    requires ValidDate(a) && ValidDate(b)
    ensures OnOrBefore(a, b) <==> DayNumber(a) <= DayNumber(b)
  {
    BeforeIffSmallerDayNumber(a, b);
    if DayNumber(a) == DayNumber(b) {
      DayNumberInjective(a, b);
    }
  }

  /** Dates between two dates have years between theirs. */
  lemma YearBetween(a: Date, d: Date, b: Date)
    requires ValidDate(a) && ValidDate(d) && ValidDate(b)
    requires DayNumber(a) <= DayNumber(d) <= DayNumber(b)
    ensures a.year <= d.year <= b.year
  {
    OnOrBeforeIffDayNumber(a, d);
    OnOrBeforeIffDayNumber(d, b);
  }
}
