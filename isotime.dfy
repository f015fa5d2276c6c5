/** The JavaScript Date's ISO rendering of an instant (`toISOString`), which
    the listing and recording responses use for `date` and `createdAt`. */
module IsoTime {
  import opened Errors
  import opened Calendar
  import opened DateText
  import opened Timezones

  /** The UTC wall-clock reading of an instant given in epoch milliseconds. */
  function UtcClock(ms: int): (w: WallClock)
    ensures ValidWallClock(w) && LocalMillis(w) == ms
  {
    var days, rem := ms / 86400000, ms % 86400000;
    var hour, inHour := rem / 3600000, rem % 3600000;
    var minute, inMinute := inHour / 60000, inHour % 60000;
    var second, millis := inMinute / 1000, inMinute % 1000;
    assert rem == hour * 3600000 + minute * 60000 + second * 1000 + millis;
    WallClock(CivilFromDays(days), hour, minute, second, millis)
  }

  /** Four digits for years 0 .. 9999, otherwise a sign and six digits. */
  function IsoYear(y: int): string {
    if 0 <= y <= 9999 then Padded(y, 4)
    else if y < 0 then "-" + Padded(-y, 6)
    else "+" + Padded(y, 6)
  }

  /** `new Date(ms).toISOString()`: `yyyy-MM-ddTHH:mm:ss.sssZ`, or the
      RangeError an invalid Date raises. */
  function ToIsoString(ms: int): (r: Result<string>)
    ensures r.Ok? <==> DateHolds(ms)
    ensures r.Err? ==> r.error == InvalidTimeValue
  {
    if ms < -MaxEpochMillis || ms > MaxEpochMillis then Err(InvalidTimeValue)
    else Ok(IsoText(UtcClock(ms)))
  }

  /** `yyyy-MM-ddTHH:mm:ss.sssZ` for a UTC wall-clock reading. */
  function IsoText(w: WallClock): (t: string)
    requires ValidWallClock(w)
    ensures 0 <= w.date.year <= 9999 ==>
              && |t| == 24 && t[4] == '-' && t[7] == '-' && t[10] == 'T'
              && t[13] == ':' && t[16] == ':' && t[19] == '.' && t[23] == 'Z'
    ensures !(0 <= w.date.year <= 9999) ==>
              && |t| == 27 && (t[0] == '-' <==> w.date.year < 0) && (t[0] == '+' <==> w.date.year > 9999)
              && t[26] == 'Z'
  {
    IsoYear(w.date.year) + "-" + Two(w.date.month) + "-" + Two(w.date.day)
    + "T" + Two(w.hour) + ":" + Two(w.minute) + ":" + Two(w.second)
    + "." + Padded(w.millis, 3) + "Z"
  }

  /** For years 1 .. 9999 the ISO text is 24 characters whose first ten are
      the UTC calendar date in the `yyyy-MM-dd` layout. */
  lemma IsoDateIsUtcDate(ms: int)
    requires -MaxEpochMillis <= ms <= MaxEpochMillis
    requires 1 <= UtcClock(ms).date.year <= 9999
    ensures |ToIsoString(ms).value| == 24
    ensures ToIsoString(ms).value[..10] == FormatDate(UtcClock(ms).date)
  {
    var w := UtcClock(ms);
    var y := w.date.year;
    NumDigitsBound(y, 4);
    assert DecimalText(YearOfEra(y), 4) == Padded(y, 4);
    var date := Padded(y, 4) + "-" + Two(w.date.month) + "-" + Two(w.date.day);
    var clock := "T" + Two(w.hour) + ":" + Two(w.minute) + ":" + Two(w.second) + "." + Padded(w.millis, 3) + "Z";
    assert ToIsoString(ms).value == date + clock;
  }

  /** The UTC date of an instant in whole seconds is what `getDateString` gives in a zero-offset zone. */
  lemma UtcClockOfSeconds(ts: int, rt: Runtime, tz: Timezone)
    requires Resolves(rt, tz) && rt.offsets[tz.value] == 0
    ensures UtcClock(ts * 1000).date == LocalDate(rt, tz, ts)
  {
    DayNumberInjective(UtcClock(ts * 1000).date, LocalDate(rt, tz, ts));
  }
}
