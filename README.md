# Metric service core, modelled in Dafny

A web service records physical measurements (distances and temperatures) per
user and reports them back. It can list them in a display unit or chart them
day by day in a time zone. This project models the logic under the HTTP and
database plumbing:

- the **Unit** value object: a closed table of units per metric type, validated
  construction, and the conversions to and from the base unit (meter for
  distance, kelvin for temperature);
- the **Metric** entity: enumerations, the stored record and its
  construction-time validation, and its small predicates;
- the **Timezone** value object:
  - the identifier check (`UTC`, or `Area/Location`);
  - the conversions between zone-local wall-clock text and UTC epoch seconds;
- the three use cases:
  - **add a metric**: validate, convert to the base unit, read the local time
    as a UTC instant, store once, answer in the caller's unit;
  - **list metrics**: fetch and convert every sample to the display unit;
  - **daily chart**:
    - compute the local-day window;
    - fetch the samples in it;
    - bucket them by local date, the latest sample of a day winning and ties
      keeping the first;
    - enumerate every date of the request;
    - emit one point per date, zero-filled at the start of a day that has no
      sample.

Modules, one concept each:

| module | what it holds |
|---|---|
| `Errors` (errors.dfy) | `Option`, `Result`, the service's error kinds, and `Collect`, which models an `Array.map` whose callback may throw |
| `Metrics` (metric.dfy) | the enumerations, `Metric` and `ChartDataPoint` |
| `Units` (units.dfy) | the `Unit` value object, its conversions, and the `toFixed(6)` rounding |
| `Calendar` (calendar.dfy) | proleptic Gregorian dates as day numbers since 1970-01-01, and the bijection back |
| `DateText` (datetext.dfy) | the two fixed date layouts (`yyyy-MM-dd` and `yyyy-MM-dd HH:mm:ss`) that date-fns parses and formats for the service |
| `Timezones` (timezone.dfy) | the `Timezone` value object, plus `Runtime`, which stands for the time-zone database and the JavaScript engine's `new Date(text)` |
| `IsoTime` (isotime.dfy) | `Date.prototype.toISOString` |
| `Store` (store.dfy) | the repository as the use cases' tests define it: an in-memory sequence in a class whose `Save` appends |
| `ChartData` and `ChartProperties` (chart.dfy, chartprops.dfy) | the chart use case, and what it promises |
| `Listing` (listing.dfy) | the listing use case |
| `Recording` (recording.dfy) | the recording use case |

Thrown exceptions become `Err` results. The order in which the source checks
things is the order in which the model's contracts say which error wins.

## Model

| member | source | states |
|---|---|---|
| `Metrics.ParseUnitText` | src/domain/entities/Metric.ts:6-17 | finds the enumeration member whose string value is the text, and says when no member has it |
| `Metrics.ParseUnitTextInverse` | src/domain/entities/Metric.ts:6-17 | reading the string value of any unit gives that unit back |
| `Metrics.UnitTextInjective` | src/domain/entities/Metric.ts:6-17 | two units have the same string value only if they are the same unit |
| `Metrics.NewMetric` | src/domain/entities/Metric.ts:22-45 | the constructor succeeds iff the user id is non-empty, the value is non-negative and the timestamp is non-negative; it then holds exactly its arguments; otherwise the error is the first failed check, in the order user id, value, timestamp |
| `Metrics.ExactlyOneKind` | src/domain/entities/Metric.ts:47-53 | every metric is either a distance or a temperature, never both |
| `Metrics.OneOwner` | src/domain/entities/Metric.ts:55-57 | a sample belongs to one user only |
| `Metrics.WindowClosed` | src/domain/entities/Metric.ts:59-61 | the time window is closed at both ends, and a window that ends before it starts holds nothing |
| `Units.NewUnit` | src/domain/value-objects/Unit.ts:7-22 | construction succeeds iff some unit of the metric type's enumeration has that name; on failure the error names the unit and the type |
| `Units.UnknownUnitExample` | src/domain/value-objects/Unit.ts:7-13 | "invalid" is refused for distance, with the error that names "invalid" and "distance" |
| `Units.UnitKindExamples` | src/domain/value-objects/Unit.ts:15-22 | "kelvin" is refused as a distance unit; "feet" is accepted |
| `Units.DistanceFactor` | src/domain/value-objects/Unit.ts:50-59 | every distance unit has a positive meters-per-unit factor |
| `Units.ToBaseUnit` | src/domain/value-objects/Unit.ts:32-39 | `fromBaseUnit` exactly undoes the conversion to the base unit |
| `Units.FromBaseUnit` | src/domain/value-objects/Unit.ts:41-94 | the result is the value that the unit's own factor or affine map carries to the given base value: times the factor for a distance, plus 273.15 for Celsius, (r − 32)·5/9 + 273.15 for Fahrenheit, unchanged for kelvin |
| `Units.ToBaseInverse` | src/domain/value-objects/Unit.ts:41-48 | the conversion to the base unit exactly undoes `fromBaseUnit`, for every unit and value |
| `Units.BaseUnit` | src/domain/value-objects/Unit.ts:96-103 | the base unit of a type belongs to that type's enumeration |
| `Units.BaseUnitIsIdentity` | src/domain/value-objects/Unit.ts:50-94 | meter and kelvin convert every value to itself, in both directions |
| `Units.ToBaseStrictlyIncreasing` | src/domain/value-objects/Unit.ts:50-82 | the conversion to the base unit strictly preserves order, for every unit |
| `Units.FromBaseStrictlyIncreasing` | src/domain/value-objects/Unit.ts:61-94 | the conversion from the base unit strictly preserves order, for every unit |
| `Units.ConversionExamples` | src/domain/value-objects/Unit.ts:50-94 | table values: 100 cm is 1 m, 100 in is 2.54 m, 0 °C is 273.15 K, 77 °F is 298.15 K, and the reverse directions |
| `Units.EqualsIffSameUnit` | src/domain/value-objects/Unit.ts:105-107 | two units are equal iff they are the same value, iff their names agree (for a valid unit, the name fixes the type) |
| `Units.Equals` | src/domain/value-objects/Unit.ts:105-107 | `equals` holds iff the two units are the same value |
| `Units.DisplayUnit` | src/application/use-cases/GetChartDataUseCase.ts:13-14 | with no unit requested, the base unit of the type; otherwise the validated requested unit |
| `Units.Round6` | src/application/use-cases/GetMetricsUseCase.ts:21 | `parseFloat(x.toFixed(6))` has at most six decimals, moves the value by at most half a millionth, and keeps its sign |
| `Units.RoundHalfAway` | src/application/use-cases/GetMetricsUseCase.ts:21 | the integer nearest the value, a half going away from zero |
| `Units.Round6Nearest` | src/application/use-cases/GetMetricsUseCase.ts:21 | no multiple of one millionth is nearer the value than the rounding; of two equally near, the one farther from zero is taken |
| `Units.Round6Exact` | src/application/use-cases/GetChartDataUseCase.ts:36 | a multiple of one millionth is displayed unchanged |
| `Timezones.IsValidIANA` | src/domain/value-objects/Timezone.ts:14-16 | the check accepts exactly "UTC" and texts with one '/' that is neither first nor last, whose other characters are all letters or underscores |
| `Timezones.AreaLocationScan` | src/domain/value-objects/Timezone.ts:15 | the left-to-right scan of the regular expression accepts exactly the `Area/Location` shape |
| `Timezones.OneSlash` | src/domain/value-objects/Timezone.ts:15 | an accepted `Area/Location` identifier has exactly one '/' |
| `Timezones.AcceptedIdentifiers` | src/domain/value-objects/Timezone.ts:14-16 | "UTC" and "Asia/Tokyo" are accepted |
| `Timezones.AcceptedLongIdentifier` | src/domain/value-objects/Timezone.ts:14-16 | "America/New_York" is accepted |
| `Timezones.UnknownZoneHasValidShape` | src/domain/value-objects/Timezone.ts:14-16 | "Invalid/Timezone" passes the shape check |
| `Timezones.RejectedIdentifiers` | src/domain/value-objects/Timezone.ts:7-12 | "invalid-timezone" and "" are refused, with the error that names them |
| `Timezones.NewTimezone` | src/domain/value-objects/Timezone.ts:7-20 | construction succeeds iff the identifier passes the check; `getValue` then returns the identifier; otherwise the error names it |
| `Timezones.GetValue` | src/domain/value-objects/Timezone.ts:18-20 | the held identifier passes the shape check |
| `Timezones.Equals` | src/domain/value-objects/Timezone.ts:51-53 | `equals` holds iff the two zones hold the same identifier |
| `Timezones.ParseLocal` | src/domain/value-objects/Timezone.ts:23-27 | the engine's reading wins; the fixed layout is tried only when the engine gives an invalid date; it fails only when both fail |
| `Timezones.ParseToUTC` | src/domain/value-objects/Timezone.ts:22-39 | succeeds iff the text is readable and the zone is known; an unreadable text gives the date-format error before the zone is looked at; the result is the UTC instant of the local reading, rounded down to whole seconds |
| `Timezones.LocalWallClock` | src/domain/value-objects/Timezone.ts:42-43 | the zone-local reading of an instant is a valid wall clock exactly offset seconds ahead of UTC |
| `Timezones.FormatFromUTC` | src/domain/value-objects/Timezone.ts:41-45 | formatting succeeds iff the zone is known and `new Date(ts * 1000)` is a valid Date, that is its milliseconds lie within ±8.64e15; the text is then the zero-padded `yyyy-MM-dd HH:mm:ss` of the zone-local wall clock; otherwise `format` raises an invalid time value |
| `Timezones.LocalDate` | src/domain/value-objects/Timezone.ts:47-49 | the zone-local date of an instant is a valid date whose day number is the floor of (instant + offset) / 86400 |
| `Timezones.GetDateString` | src/domain/value-objects/Timezone.ts:47-49 | succeeds exactly when `formatFromUTC` does, and the date text is then the `yyyy-MM-dd` rendering of the zone-local date; otherwise an invalid time value |
| `Timezones.DateStringIsPrefix` | src/domain/value-objects/Timezone.ts:41-49 | for an instant a Date holds, the date text is a proper prefix of the default date-time text, so the two layouts agree on the date |
| `Timezones.AgreeingParse` | src/domain/value-objects/Timezone.ts:23-27 | when the engine agrees with the fixed layout, the reading of a fixed-layout text of year 100 or later is the layout's reading |
| `Timezones.ParseAtWallClock` | src/domain/value-objects/Timezone.ts:22-39 | under an agreeing engine, the text of a whole-second local reading of year 100 or later parses to that reading's UTC instant |
| `Timezones.ParseFormatRoundTrip` | src/domain/value-objects/Timezone.ts:22-45 | under an agreeing engine, `parseToUTC(formatFromUTC(ts)) == ts` for every instant a Date holds whose local year is 100 to 9999 |
| `Timezones.DateStringParses` | src/domain/value-objects/Timezone.ts:47-49 | the date text of an instant a Date holds parses back, in the `yyyy-MM-dd` layout, to the instant's local date |
| `IsoTime.UtcClock` | src/application/use-cases/GetMetricsUseCase.ts:25-26 | the UTC reading of an epoch-millisecond instant is a valid wall clock on exactly that instant |
| `IsoTime.ToIsoString` | src/application/use-cases/GetMetricsUseCase.ts:25-26 | `toISOString` succeeds iff the instant is within ±8.64e15 ms; otherwise it raises an invalid time value |
| `IsoTime.IsoText` | src/application/use-cases/GetMetricsUseCase.ts:25-26 | for years 0 to 9999 the text has 24 characters with its separators in place and 'Z' last; other years take a sign and six digits, 27 characters |
| `IsoTime.IsoDateIsUtcDate` | src/application/use-cases/GetMetricsUseCase.ts:25 | for years 1 to 9999 the ISO text has 24 characters, and its first ten are the UTC date in `yyyy-MM-dd` |
| `IsoTime.UtcClockOfSeconds` | src/application/use-cases/GetMetricsUseCase.ts:25 | in a zero-offset zone, the ISO date of an instant is the zone's local date |
| `DateText.ParseDateText` | src/application/use-cases/GetChartDataUseCase.ts:74-75 | whatever `yyyy-MM-dd` reads is a valid date of years 1 to 9999 |
| `DateText.ParseDateTimeText` | src/domain/value-objects/Timezone.ts:26 | whatever `yyyy-MM-dd HH:mm:ss` reads is a valid whole-second wall clock of years 1 to 9999 |
| `DateText.ParseFormatDate` | src/application/use-cases/GetChartDataUseCase.ts:74-81 | a formatted date parses back to itself |
| `DateText.FormatDateInjective` | src/application/use-cases/GetChartDataUseCase.ts:81 | distinct dates of years 1 to 9999 have distinct texts |
| `DateText.ParseFormatDateTime` | src/domain/value-objects/Timezone.ts:22-45 | a formatted whole-second wall clock parses back to itself |
| `DateText.FormatDateShape` | src/domain/value-objects/Timezone.ts:47-49 | for years 1 to 9999 `yyyy-MM-dd` is ten characters: digits with dashes at positions 4 and 7 |
| `DateText.FormatDateTimeShape` | src/domain/value-objects/Timezone.ts:41-45 | for years 1 to 9999 `yyyy-MM-dd HH:mm:ss` is nineteen characters: the date text, a space, and two-digit hours, minutes and seconds separated by colons |
| `DateText.ParseStartOfDay` | src/application/use-cases/GetChartDataUseCase.ts:88-90 | a date text followed by " 00:00:00" reads as midnight of that date |
| `DateText.ParseEndOfDay` | src/application/use-cases/GetChartDataUseCase.ts:92-94 | a date text followed by " 23:59:59" reads as the last second of that date |
| `DateText.ParseExample` | src/application/use-cases/GetChartDataUseCase.ts:74 | "2023-12-13" reads as 13 December 2023 |
| `Calendar.NextDay` | src/application/use-cases/GetChartDataUseCase.ts:82 | `addDays(d, 1)` is the valid date whose day number is one more |
| `Calendar.CivilFromDays` | src/application/use-cases/GetChartDataUseCase.ts:82 | every day number has a valid date with that day number |
| `Calendar.DayNumberInjective` | src/application/use-cases/GetChartDataUseCase.ts:80-82 | two valid dates with the same day number are the same date |
| `Calendar.OnOrBeforeIffDayNumber` | src/application/use-cases/GetChartDataUseCase.ts:80 | the loop's `currentDate <= end` holds iff the day number is not larger |
| `Store.Filter` | tests/unit/application/use-cases/GetChartDataUseCase.test.ts:22-35 | keeps exactly the accepted samples, each as often as it occurs |
| `Store.FilterAppend` | tests/unit/application/use-cases/GetChartDataUseCase.test.ts:22-35 | the filter keeps the order: filtering a concatenation is filtering its parts one after the other |
| `Store.FilterSingle` | tests/unit/application/use-cases/GetChartDataUseCase.test.ts:22-35 | one sample is kept exactly when it is accepted |
| `Store.MetricStore.constructor` | tests/unit/application/use-cases/GetChartDataUseCase.test.ts:7-11 | the store starts with the given samples |
| `Store.MetricStore.Save` | tests/unit/application/use-cases/GetChartDataUseCase.test.ts:13-16 | `save` appends exactly the sample and hands it back |
| `Store.MetricStore.FindByUserAndType` | tests/unit/application/use-cases/GetChartDataUseCase.test.ts:22-24 | the result is exactly the stored samples of that user and type, with their multiplicities |
| `Store.MetricStore.FindByUserTypeAndTimeRange` | tests/unit/application/use-cases/GetChartDataUseCase.test.ts:26-35 | the result is exactly the stored samples of that user and type whose timestamps lie in the closed window, with their multiplicities |
| `ChartData.StartOfDayTimestamp` | src/application/use-cases/GetChartDataUseCase.ts:88-90 | succeeds iff the midnight text reads and the zone is known; an unreadable text gives the date-format error naming the whole text, an unknown zone the timezone error |
| `ChartData.EndOfDayTimestamp` | src/application/use-cases/GetChartDataUseCase.ts:92-94 | the same for the text with 23:59:59 |
| `ChartData.Setup` | src/application/use-cases/GetChartDataUseCase.ts:12-17 | the timezone is checked first, then the display unit, then the start and end of the window; the first failure is the error; on success the zone is known and the window ends are the start of the first day and the end of the last |
| `ChartData.AggregateByDay` | src/application/use-cases/GetChartDataUseCase.ts:58-71 | raises an invalid time value iff some sample has no local date text; otherwise the map has a key for exactly the local dates of the samples, and each key holds a sample of that day with no later timestamp on that day and no earlier sample on that day with the same timestamp |
| `ChartData.WinnerUnique` | src/application/use-cases/GetChartDataUseCase.ts:65 | a day has only one kept sample |
| `ChartData.TieKeepsFirst` | src/application/use-cases/GetChartDataUseCase.ts:65 | of two samples of one day with equal timestamps, the later one is never kept |
| `ChartData.BucketKeys` | src/application/use-cases/GetChartDataUseCase.ts:61-67 | a date is a key of the buckets iff some sample falls on it |
| `ChartData.DateRange` | src/application/use-cases/GetChartDataUseCase.ts:73-86 | the walk yields the texts of the dates from the parsed start to the parsed end inclusive, or nothing when either text does not parse |
| `ChartData.DaysFrom` | src/application/use-cases/GetChartDataUseCase.ts:80-83 | `count` valid dates with consecutive day numbers from the first |
| `ChartData.PointFor` | src/application/use-cases/GetChartDataUseCase.ts:30-47 | a bucketed date gives its sample in the display unit at the sample's timestamp; another date gives zero at the start of that day; it fails only when that start cannot be computed |
| `ChartData.ChartPoints` | src/application/use-cases/GetChartDataUseCase.ts:29-48 | one point per date, in order, each as `PointFor` gives it; fails iff some unbucketed date's start of day fails, and then with the error of the first such date |
| `ChartData.ChartedPoints` | src/application/use-cases/GetChartDataUseCase.ts:26-48 | the points from the buckets are the points promised from the samples themselves: each date has its day's latest sample, or zero when no sample falls on it; a failure is that of the first date without a sample whose start fails |
| `ChartData.Execute` | src/application/use-cases/GetChartDataUseCase.ts:11-56 | setup errors propagate; a fetched sample without a local date text raises an invalid time value; then the first date without a sample whose start fails gives its error; otherwise the response echoes the zone and both dates and has one point per requested date, each the day's kept fetched sample or a zero fill |
| `ChartProperties.StartOfDayOf` | src/application/use-cases/GetChartDataUseCase.ts:88-90 | the start of a dated day exists under any engine; under an agreeing engine, from year 100 on, it is the day's local midnight as an epoch second: day number × 86400 − offset |
| `ChartProperties.StartOfParsedDay` | src/application/use-cases/GetChartDataUseCase.ts:16-17 | any request text whose midnight reading is a date has a start under any engine; under an agreeing engine, from year 100 on, it is that date's local midnight |
| `ChartProperties.EndOfDayOf` | src/application/use-cases/GetChartDataUseCase.ts:92-94 | the end of a dated day exists under any engine; under an agreeing engine, from year 100 on, it is the day's local 23:59:59 as an epoch second |
| `ChartProperties.EndOfParsedDay` | src/application/use-cases/GetChartDataUseCase.ts:92-94 | any request text whose 23:59:59 reading is a date has an end under any engine; under an agreeing engine, from year 100 on, it is that date's local last second |
| `ChartProperties.WindowIsLocalDays` | src/application/use-cases/GetChartDataUseCase.ts:16-24 | an instant lies in the fetch window iff its local date lies between the two dates |
| `ChartProperties.DaysBetweenOfDates` | src/application/use-cases/GetChartDataUseCase.ts:73-80 | the charted dates depend on the texts only through the dates they parse to; an unreadable end charts nothing |
| `ChartProperties.DaysFromToLength` | src/application/use-cases/GetChartDataUseCase.ts:80-83 | one date per day from start to end; none exactly when the end is before the start |
| `ChartProperties.DaysFromToConsecutive` | src/application/use-cases/GetChartDataUseCase.ts:78-83 | the dates start at the start date, end at the end date, and each is the day after the one before |
| `ChartProperties.DaysFromToEnds` | src/application/use-cases/GetChartDataUseCase.ts:78-80 | a non-empty list of dates begins with the start date and ends with the end date |
| `ChartProperties.DaysFromToNext` | src/application/use-cases/GetChartDataUseCase.ts:82 | each date is the day after the one before |
| `ChartProperties.DaysFromToComplete` | src/application/use-cases/GetChartDataUseCase.ts:80-83 | a valid date is charted iff it lies between the start and the end inclusive |
| `ChartProperties.DaysFromToYears` | src/application/use-cases/GetChartDataUseCase.ts:81 | every charted date is valid and its year lies between the years of the two ends |
| `ChartProperties.ChartDatesDistinct` | src/application/use-cases/GetChartDataUseCase.ts:81 | no date text is charted twice |
| `ChartProperties.ZeroFillSucceeds` | src/application/use-cases/GetChartDataUseCase.ts:42-47 | the zero-fill timestamp of every charted date exists under any engine; under an agreeing engine, from year 100 on, it is that date's local midnight |
| `ChartProperties.ChartPointsSucceedOn` | src/application/use-cases/GetChartDataUseCase.ts:29-48 | building the points for the dates between two dates never fails, whatever the engine |
| `ChartProperties.ChartPointsSucceed` | src/application/use-cases/GetChartDataUseCase.ts:27-48 | building the points for the request's dates never fails, whatever the buckets hold and whatever the engine |
| `ChartProperties.FetchedSamplesAreCharted` | src/application/use-cases/GetChartDataUseCase.ts:19-30 | every fetched sample has a local date text iff a Date holds its instant, and then falls on one of the charted dates |
| `ChartProperties.RangeExamples` | src/application/use-cases/GetChartDataUseCase.ts:73-86 | 13 to 16 December charts four days, a reversed range none, and 31 December to 1 January two |
| `Errors.Collect` | src/application/use-cases/GetMetricsUseCase.ts:14-28 | an `Array.map` whose callback may throw: all the values in order when every call succeeds, else the error of the first call that fails |
| `Listing.ReportOne` | src/application/use-cases/GetMetricsUseCase.ts:14-28 | a sample is reported iff both its instants are renderable; the report carries its fields, its value in the display unit rounded to six decimals, and the ISO texts of timestamp and creation time |
| `Listing.Report` | src/application/use-cases/GetMetricsUseCase.ts:14-28 | one report per sample, in order; fails with an invalid time value iff some sample is not renderable |
| `Listing.GetMetrics` | src/application/use-cases/GetMetricsUseCase.ts:8-29 | an invalid display unit fails before the store is read; otherwise the reports of exactly the user's samples of that type |
| `Listing.ReportedValueFaithful` | src/application/use-cases/GetMetricsUseCase.ts:21 | the reported value is within half a millionth of the exact conversion, and that conversion converts back to the stored value |
| `Listing.EmptyListing` | src/application/use-cases/GetMetricsUseCase.ts:12-14 | a user without samples of the type gets an empty list |
| `Listing.CentimeterExample` | src/application/use-cases/GetMetricsUseCase.ts:19-21 | one stored meter is listed as 100 centimeters |
| `Recording.NewSample` | src/application/use-cases/AddMetricUseCase.ts:12-26 | the zone is checked first, then the unit, then the date text, then the sample's own validation; the sample holds the value converted to the base unit and the parsed UTC instant |
| `Recording.NewSampleSucceeds` | src/application/use-cases/AddMetricUseCase.ts:12-26 | a sample is made iff the zone passes the shape check, the unit belongs to the type, the date parses in a known zone, the user is given, and both the base value and the instant are non-negative |
| `Recording.StoredSample` | src/application/use-cases/AddMetricUseCase.ts:15-26 | the stored sample is valid, keeps the given id, user, type and creation time, holds the base value that converts back to the request's value, and holds the parsed instant |
| `Recording.AddResponse` | src/application/use-cases/AddMetricUseCase.ts:30-43 | the response succeeds iff the zone is known and a Date holds both the sample's instant and its creation time, and otherwise raises an invalid time value; it echoes the saved sample with its value in the request's unit and the local date-time text |
| `Recording.AddMetric` | src/application/use-cases/AddMetricUseCase.ts:11-44 | a failing request leaves the store unchanged; a valid one appends exactly the new sample once and answers with its response |
| `Recording.ResponseEchoesValue` | src/application/use-cases/AddMetricUseCase.ts:37-38 | the answer succeeds iff a Date holds the stored instant and the creation time; the answered value is then the requested value rounded to six decimals, in the requested unit |
| `Recording.ResponseDateReadsBack` | src/application/use-cases/AddMetricUseCase.ts:16-41 | under an agreeing engine, when the answer succeeds and the local year is 100 to 9999, its date text parses back to the stored instant |
| `Recording.NegativeBaseRejected` | src/application/use-cases/AddMetricUseCase.ts:15-26 | a value whose base value is negative is refused by the sample's validation |
| `Recording.BelowAbsoluteZero` | src/application/use-cases/AddMetricUseCase.ts:15 | −300 °C and −500 °F lie below absolute zero, −273.15 °C is exactly zero kelvin, and a negative distance stays negative |
| `Recording.InvalidZoneFirst` | src/application/use-cases/AddMetricUseCase.ts:12 | an identifier without a valid shape gives the format error naming it, whatever the rest of the request, the runtime, the id and the clock |
| `Recording.InvalidZoneExample` | src/application/use-cases/AddMetricUseCase.ts:12 | "invalid-timezone" is refused with that error |

## Left out

- HTTP, DTO validation, dependency injection, the database connection and `async`/`await`: the use cases are modelled as sequential functions and methods over the repository.
- The TypeORM repository, including its result ordering: the store is the in-memory repository that the use cases' tests define. `findById` and `delete` are left out because none of the six core files calls them.
- The IANA time-zone database and daylight saving time. `Runtime.offsets` gives each known zone one fixed offset from UTC.
- `zonedTimeToUtc` on a zone the database does not know: the model follows the catch clause of `parseToUTC` and assumes the library throws, giving `InvalidTimezone` before anything is saved. A library version that instead returns an Invalid Date is not modelled; there `parseToUTC` would return NaN, the recording use case would save a sample with a NaN timestamp (`NaN < 0` is false), and only the later formatting would raise.
- The JavaScript engine's `new Date(text)`: it is the abstract `Runtime.nativeParse`. The round-trip and day-bound value lemmas assume `NativeAgrees`, under which the engine reads a fixed-layout text of year 100 or later as date-fns does or not at all. Below year 100 nothing is assumed, because an engine's legacy parser may read a two-digit year as 19xx or 20xx; those lemmas say nothing there. Stored instants are not negative, so their local years are 1969 and later.
- date-fns `parse` is modelled for the two layouts the service uses, and only with ASCII whitespace. Its handling of other tokens, locales and reference dates is left out.
- `formatFromUTC`'s `formatString` parameter is modelled only for the two layouts the service passes.
- IEEE-754 doubles: values are exact reals, and `toFixed(6)` is exact rounding, halves away from zero.
- `uuidv4()` and `new Date()` in the recording use case are parameters (`id`, and `createdAt` in epoch milliseconds).
- Error message texts: `Errors.Message` gives them by definition, and no contract is stated about them.
- The "Unsupported metric type" throws in `toBaseUnit` and `fromBaseUnit`: no value of the closed `MetricType` reaches them.
- The date-range lemmas of `ChartProperties` are stated for request texts that parse, and the day-bound lemmas for canonical `yyyy-MM-dd` texts or texts whose midnight reading is a date.
- `Timezones.FormatFromUTC`: the Date range is checked on the UTC instant. date-fns-tz shifts the Date by the zone offset before formatting, and a shifted Date that leaves the range within one offset of its edge is not modelled.

## Notes on the code

- The identifier check accepts any `Area/Location` shape, so "Invalid/Timezone" becomes a `Timezone` (`Timezones.UnknownZoneHasValidShape`). It fails only later, when a conversion asks the database for the zone; under the assumption on `zonedTimeToUtc` stated under "## Left out", that is the `InvalidTimezone` error of the catch clause.
- `getDateRange` gives no dates when either text is not a date, because an Invalid Date never compares as on or before another date.
