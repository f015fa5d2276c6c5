/** The Timezone value object: a validated zone identifier and the
    conversions between UTC instants (epoch seconds) and zone-local wall-clock
    text. The timezone database and the JavaScript engine's own date parser are
    capabilities the service receives from its platform; `Runtime` stands for
    them: each zone the database knows has one fixed offset from UTC, and
    `nativeParse` is whatever `new Date(text)` yields, read as wall-clock fields. */
module Timezones {
  import opened Errors
  import opened Calendar
  import opened DateText

  predicate IsZoneChar(c: char) {
    ('A' <= c <= 'Z') || ('a' <= c <= 'z') || c == '_'
  }

  predicate AllZoneChars(t: string) {
    forall i :: 0 <= i < |t| ==> IsZoneChar(t[i])
  }

  /** `s[k]` is a '/' and every other character of `s` is a letter or an underscore. */
  ghost predicate SlashAt(s: string, k: int) {
    0 <= k < |s| && s[k] == '/' && forall i :: 0 <= i < |s| && i != k ==> IsZoneChar(s[i])
  }

  /** The `Area/Location` shape: one '/', neither first nor last, with only
      letters and underscores around it. */
  ghost predicate AreaLocation(s: string) {
    exists k :: 0 < k < |s| - 1 && SlashAt(s, k)
  }

  /** The pattern ^[A-Za-z_]+\/[A-Za-z_]+$, scanned from the left. */
  function MatchesAreaLocation(s: string): bool {
    |s| > 0 && IsZoneChar(s[0]) && MatchesAreaRest(s[1..])
  }

  /** The pattern [A-Za-z_]*\/[A-Za-z_]+ over the whole of `s`. */
  function MatchesAreaRest(s: string): bool {
    if |s| == 0 then false
    else if IsZoneChar(s[0]) then MatchesAreaRest(s[1..])
    else s[0] == '/' && |s| > 1 && AllZoneChars(s[1..])
  }

  /** The identifier check of the Timezone constructor. */
  function IsValidIANA(s: string): (ok: bool)
    ensures ok <==> s == "UTC" || AreaLocation(s)
  {
    AreaLocationScan(s);
    MatchesAreaLocation(s) || s == "UTC"
  }

  datatype TimezoneValue = TimezoneValue(value: string)

  /** Every Timezone that exists carries an identifier that passed the check. */
  type Timezone = t: TimezoneValue | IsValidIANA(t.value) witness TimezoneValue("UTC")

  /** The constructor. */
  function NewTimezone(identifier: string): (r: Result<Timezone>)
    ensures r.Ok? <==> IsValidIANA(identifier)
    ensures r.Ok? ==> GetValue(r.value) == identifier
    ensures r.Err? ==> r.error == InvalidTimezoneFormat(identifier)
  {
    if IsValidIANA(identifier) then Ok(TimezoneValue(identifier))
    else Err(InvalidTimezoneFormat(identifier))
  }

  /** The identifier, which always passed the check. */
  function GetValue(tz: Timezone): (v: string)
    ensures IsValidIANA(v)
  {
    tz.value
  }

  /** Equality on the identifier is equality of time zones. */
  function Equals(a: Timezone, b: Timezone): (r: bool)
    ensures r <==> a == b
  {
    a.value == b.value
  }

  // ---------------------------------------------------------------------
  // The platform's capabilities

  datatype Runtime = Runtime(offsets: map<string, int>, nativeParse: string -> Option<WallClock>)

  /** The database knows the zone. */
  predicate Resolves(rt: Runtime, tz: Timezone) {
    tz.value in rt.offsets
  }

  /** Wherever the fixed-layout parser reads a year from 100 on, the native
      parser yields nothing or the same wall-clock reading. Below 100 no
      agreement is assumed: an engine may read a two-digit year as 19xx or 20xx. */
  ghost predicate NativeAgrees(rt: Runtime) {
    forall s :: ParseDateTimeText(s).Some? && ParseDateTimeText(s).value.date.year >= 100 ==>
      rt.nativeParse(s).None? || rt.nativeParse(s) == ParseDateTimeText(s)
  }

  /** Milliseconds from 1970-01-01 00:00:00.000 to the wall-clock reading, on the same clock. */
  function LocalMillis(w: WallClock): int {
    ((DayNumber(w.date) * 86400 + w.hour * 3600 + w.minute * 60 + w.second) * 1000) + w.millis
  }

  /** The wall-clock reading at UTC instant `ts` in a zone `offset` seconds ahead of UTC. */
  function LocalWallClock(offset: int, ts: int): (w: WallClock)
    ensures ValidWallClock(w) && LocalMillis(w) == (ts + offset) * 1000
  {
    var days, secs := (ts + offset) / 86400, (ts + offset) % 86400;
    var hour, inHour := secs / 3600, secs % 3600;
    var minute, second := inHour / 60, inHour % 60;
    assert secs == hour * 3600 + minute * 60 + second;
    WallClock(CivilFromDays(days), hour, minute, second, 0)
  }

  /** `new Date(text)` and, when that is invalid, date-fns `parse(text, 'yyyy-MM-dd HH:mm:ss')`. */
  function ParseLocal(rt: Runtime, text: string): (r: Option<WallClock>)
    ensures r.None? <==> rt.nativeParse(text).None? && ParseDateTimeText(text).None?
    ensures rt.nativeParse(text).Some? ==> r == rt.nativeParse(text)
    ensures rt.nativeParse(text).None? ==> r == ParseDateTimeText(text)
  {
    if rt.nativeParse(text).Some? then rt.nativeParse(text) else ParseDateTimeText(text)
  }

  /** `parseToUTC`: wall-clock text in the zone to whole epoch seconds, rounded down. */
  function ParseToUTC(rt: Runtime, tz: Timezone, text: string): (r: Result<int>)
    ensures r.Ok? <==> ParseLocal(rt, text).Some? && Resolves(rt, tz)
    ensures ParseLocal(rt, text).None? ==> r == Err(InvalidDateFormat(text))
    ensures ParseLocal(rt, text).Some? && !Resolves(rt, tz) ==> r == Err(InvalidTimezone(tz.value))
    ensures r.Ok? ==>
      var utcMillis := LocalMillis(ParseLocal(rt, text).value) - rt.offsets[tz.value] * 1000;
      r.value * 1000 <= utcMillis < r.value * 1000 + 1000
  {
    match ParseLocal(rt, text)
    case None => Err(InvalidDateFormat(text))
    case Some(w) =>
      if tz.value !in rt.offsets then Err(InvalidTimezone(tz.value))
      else Ok((LocalMillis(w) - rt.offsets[tz.value] * 1000) / 1000)
  }

  /** `formatFromUTC` with its default layout 'yyyy-MM-dd HH:mm:ss'. An
      instant a Date cannot hold, or a zone the database does not know, makes
      `format` raise an invalid time value. */
  function FormatFromUTC(rt: Runtime, tz: Timezone, ts: int): (r: Result<string>)
    ensures r.Ok? <==> Resolves(rt, tz) && DateHolds(ts * 1000)
    ensures r.Ok? ==> r.value == FormatDateTime(LocalWallClock(rt.offsets[tz.value], ts))
    ensures r.Err? ==> r.error == InvalidTimeValue
  {
    if tz.value in rt.offsets && DateHolds(ts * 1000) then
      Ok(FormatDateTime(LocalWallClock(rt.offsets[tz.value], ts)))
    else Err(InvalidTimeValue)
  }

  /** The zone-local calendar date of an instant. */
  function LocalDate(rt: Runtime, tz: Timezone, ts: int): (d: Date)
    requires Resolves(rt, tz)
    ensures ValidDate(d) && DayNumber(d) == (ts + rt.offsets[tz.value]) / 86400
  {
    LocalWallClock(rt.offsets[tz.value], ts).date
  }

  /** `getDateString`: `formatFromUTC` with the layout 'yyyy-MM-dd'. */
  function GetDateString(rt: Runtime, tz: Timezone, ts: int): (r: Result<string>)
    ensures r.Ok? <==> Resolves(rt, tz) && DateHolds(ts * 1000)
    ensures r.Ok? ==> r.value == FormatDate(LocalDate(rt, tz, ts))
    ensures r.Err? ==> r.error == InvalidTimeValue
  {
    if tz.value in rt.offsets && DateHolds(ts * 1000) then
      Ok(FormatDate(LocalWallClock(rt.offsets[tz.value], ts).date))
    else Err(InvalidTimeValue)
  }

  // ---------------------------------------------------------------------
  // Properties

  lemma {:induction false} AreaRestScan(s: string)
    ensures MatchesAreaRest(s) <==> exists k :: 0 <= k < |s| - 1 && SlashAt(s, k)
  {
    if |s| > 0 {
      if IsZoneChar(s[0]) {
        AreaRestScan(s[1..]);
        if MatchesAreaRest(s) {
          var k' :| 0 <= k' < |s| - 2 && SlashAt(s[1..], k');
          SlashShift(s, k');
        }
        if k :| 0 <= k < |s| - 1 && SlashAt(s, k) {
          assert k != 0;
          SlashShift(s, k - 1);
        }
      } else if MatchesAreaRest(s) {
        assert SlashAt(s, 0);
      } else {
        forall k | 0 <= k < |s| - 1
          ensures !SlashAt(s, k)
        {
          if SlashAt(s, k) && k == 0 {
            assert AllZoneChars(s[1..]);
          }
        }
      }
    }
  }

  /** Past a leading letter or underscore, the '/' sits one place further left. */
  lemma SlashShift(s: string, k: int)
    requires |s| > 0 && IsZoneChar(s[0]) && 0 <= k
    ensures SlashAt(s[1..], k) <==> SlashAt(s, k + 1)
  {
    if SlashAt(s, k + 1) {
      forall i | 0 <= i < |s| - 1 && i != k
        ensures IsZoneChar(s[1..][i])
      {
        assert s[1..][i] == s[i + 1];
      }
    }
  }

  lemma AreaLocationScan(s: string)
    ensures MatchesAreaLocation(s) <==> AreaLocation(s)
  {
    if |s| > 0 {
      AreaRestScan(s[1..]);
      if MatchesAreaLocation(s) {
        var k' :| 0 <= k' < |s| - 2 && SlashAt(s[1..], k');
        SlashShift(s, k');
      }
      if AreaLocation(s) {
        var k :| 0 < k < |s| - 1 && SlashAt(s, k);
        SlashShift(s, k - 1);
      }
    }
  }

  /** A valid `Area/Location` identifier has exactly one '/'. */
  lemma OneSlash(s: string, k: int, j: int)
    requires AreaLocation(s) && SlashAt(s, k)
    requires 0 <= j < |s| && s[j] == '/'
    ensures j == k
  {
  }

  /** Identifiers the service accepts. */
  lemma AcceptedIdentifiers()
    ensures IsValidIANA("UTC")
    ensures IsValidIANA("Asia/Tokyo")
  {
    assert MatchesAreaRest("sia/Tokyo");
  }

  lemma AcceptedLongIdentifier()
    ensures IsValidIANA("America/New_York")
  {
    NewYorkTail();
    assert MatchesAreaRest("merica/New_York");
  }

  lemma NewYorkTail()
    ensures MatchesAreaRest("/New_York")
  {
  }

  /** The shape check alone lets an unknown zone through; the database rejects it later. */
  lemma UnknownZoneHasValidShape()
    ensures IsValidIANA("Invalid/Timezone")
  {
    TimezoneTail();
    assert MatchesAreaRest("nvalid/Timezone");
  }

  lemma TimezoneTail()
    ensures MatchesAreaRest("/Timezone")
  {
  }

  /** Identifiers the service refuses before anything else. */
  lemma RejectedIdentifiers()
    ensures NewTimezone("invalid-timezone") == Err(InvalidTimezoneFormat("invalid-timezone"))
    ensures NewTimezone("") == Err(InvalidTimezoneFormat(""))
  {
    DashTail();
    assert !MatchesAreaRest("nvalid-timezone");
    assert !MatchesAreaLocation("");
  }

  lemma DashTail()
    ensures !MatchesAreaRest("-timezone")
  {
  }

  /** `getDateString` and `formatFromUTC` agree: the date text is the head of the date-time text. */
  lemma DateStringIsPrefix(rt: Runtime, tz: Timezone, ts: int)
    requires Resolves(rt, tz) && DateHolds(ts * 1000)
    ensures var date := GetDateString(rt, tz, ts).value;
      var full := FormatFromUTC(rt, tz, ts).value;
      |date| < |full| && full[..|date|] == date
  {
    var w := LocalWallClock(rt.offsets[tz.value], ts);
  }

  /** Under an agreeing native parser, formatted wall-clock text reads back as itself. */
  lemma ParseLocalOfFormatted(rt: Runtime, w: WallClock)
    requires NativeAgrees(rt)
    requires ValidWallClock(w) && 100 <= w.date.year <= 9999 && w.millis == 0
    ensures ParseLocal(rt, FormatDateTime(w)) == Some(w)
  {
    ParseFormatDateTime(w);
  }

  /** Whole seconds survive the conversion to milliseconds and the floor back. */
  lemma SecondsOfMillis(ts: int, r: int)
    requires r * 1000 <= ts * 1000 < r * 1000 + 1000
    ensures r == ts
  {
  }

  /** A text read as wall-clock `w` converts to `x` when `w` is exactly `x` seconds in UTC. */
  lemma ParseToWholeSeconds(rt: Runtime, tz: Timezone, text: string, w: WallClock, x: int)
    requires Resolves(rt, tz) && ParseLocal(rt, text) == Some(w)
    requires LocalMillis(w) - rt.offsets[tz.value] * 1000 == x * 1000
    ensures ParseToUTC(rt, tz, text) == Ok(x)
  {
    SecondsOfMillis(x, ParseToUTC(rt, tz, text).value);
  }

  /** Text the fixed-layout parser reads, the agreeing native parser reads the same. */
  lemma AgreeingParse(rt: Runtime, text: string, w: WallClock)
    requires NativeAgrees(rt) && ParseDateTimeText(text) == Some(w) && w.date.year >= 100
    ensures ParseLocal(rt, text) == Some(w)
  {
  }

  /** Text the fixed-layout parser reads as `w` converts to `x` when `w` is exactly `x` seconds in UTC. */
  lemma ParseAtWallClock(rt: Runtime, tz: Timezone, text: string, w: WallClock, x: int)
    requires Resolves(rt, tz) && NativeAgrees(rt) && ParseDateTimeText(text) == Some(w) && w.date.year >= 100
    requires LocalMillis(w) - rt.offsets[tz.value] * 1000 == x * 1000
    ensures ParseToUTC(rt, tz, text) == Ok(x)
  {
    AgreeingParse(rt, text, w);
    ParseToWholeSeconds(rt, tz, text, w, x);
  }

  /** Under an agreeing native parser, `parseToUTC` undoes `formatFromUTC`. */
  lemma ParseFormatRoundTrip(rt: Runtime, tz: Timezone, ts: int)
    requires Resolves(rt, tz) && NativeAgrees(rt) && DateHolds(ts * 1000)
    requires 100 <= LocalDate(rt, tz, ts).year <= 9999
    ensures ParseToUTC(rt, tz, FormatFromUTC(rt, tz, ts).value) == Ok(ts)
  {
    var off := rt.offsets[tz.value];
    var w := LocalWallClock(off, ts);
    ParseLocalOfFormatted(rt, w);
    var r := ParseToUTC(rt, tz, FormatDateTime(w));
    assert LocalMillis(w) - off * 1000 == ts * 1000;
    SecondsOfMillis(ts, r.value);
  }

  /** The date text of an instant, parsed back, is its local date. */
  lemma DateStringParses(rt: Runtime, tz: Timezone, ts: int)
    requires Resolves(rt, tz) && DateHolds(ts * 1000)
    requires 1 <= LocalDate(rt, tz, ts).year <= 9999
    ensures ParseDateText(GetDateString(rt, tz, ts).value) == Some(LocalDate(rt, tz, ts))
  {
    ParseFormatDate(LocalDate(rt, tz, ts));
  }
}
