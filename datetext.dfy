/** Date and date-time text in the two fixed layouts the service uses,
    'yyyy-MM-dd' and 'yyyy-MM-dd HH:mm:ss', as date-fns formats and parses them.

    Parsing (date-fns `parse`): every numeric token reads a greedy run of one
    up to N digits (N = 4 for 'yyyy', 2 for the others); literal characters must
    match exactly; what is left over may only be whitespace; the year must be
    positive and the other fields in range for the calendar.
    Formatting (date-fns `format`): 'yyyy' is the year of era, at least four
    digits; the other fields are exactly two digits. */
module DateText {
  import opened Errors
  import opened Calendar

  predicate IsDigit(c: char) { '0' <= c <= '9' }

  predicate AllDigits(t: string) { forall i :: 0 <= i < |t| ==> IsDigit(t[i]) }

  predicate IsWhitespace(c: char) {
    c == ' ' || c == '\t' || c == '\n' || c == '\r' || c == '\U{000B}' || c == '\U{000C}'
  }

  predicate AllWhitespace(t: string) { forall i :: 0 <= i < |t| ==> IsWhitespace(t[i]) }

  function DigitChar(k: nat): (c: char)
    requires k < 10
    ensures IsDigit(c)
  {
    (48 + k) as char
  }

  function DigitValue(c: char): int {
    (c as int) - 48
  }

  function Pow10(w: nat): (p: nat)
    ensures p >= 1
  {
    if w == 0 then 1 else 10 * Pow10(w - 1)
  }

  /** The last `w` decimal digits of `n`, most significant first. */
  function Padded(n: nat, w: nat): (t: string)
    ensures |t| == w && AllDigits(t)
  {
    if w == 0 then [] else Padded(n / 10, w - 1) + [DigitChar(n % 10)]
  }

  function NumDigits(n: nat): (k: nat)
    ensures k >= 1
  {
    if n < 10 then 1 else 1 + NumDigits(n / 10)
  }

  /** All digits of `n`, zero-padded to at least `minWidth`. */
  function DecimalText(n: nat, minWidth: nat): string {
    Padded(n, if NumDigits(n) < minWidth then minWidth else NumDigits(n))
  }

  /** The value of a run of decimal digits. */
  function DigitsValue(t: string): int {
    if |t| == 0 then 0 else DigitsValue(t[..|t| - 1]) * 10 + DigitValue(t[|t| - 1])
  }

  /** Length of the run of digits that starts `s`, at most `width`. */
  function DigitRun(s: string, width: nat): (k: nat)
    ensures k <= width && k <= |s| && AllDigits(s[..k])
  {
    if width == 0 || |s| == 0 || !IsDigit(s[0]) then 0
    else
      var k := 1 + DigitRun(s[1..], width - 1);
      assert s[..k] == [s[0]] + s[1..][..k - 1];
      k
  }

  /** A numeric token of at most `width` digits at the head of `s`, and what follows. */
  function ReadNumber(s: string, width: nat): (r: Option<(int, string)>)
    ensures r.Some? ==> 0 <= r.value.0 < Pow10(width)
  {
    var k := DigitRun(s, width);
    if k == 0 then None
    else
      DigitsValueBound(s[..k]);
      Pow10Monotone(k, width);
      Some((DigitsValue(s[..k]), s[k..]))
  }

  /** A literal character at the head of `s`, and what follows. */
  function ReadLiteral(s: string, c: char): (r: Option<string>)
    ensures r.Some? <==> |s| > 0 && s[0] == c
    ensures r.Some? ==> r.value == s[1..]
  {
    if |s| > 0 && s[0] == c then Some(s[1..]) else None
  }

  /** 'yyyy-MM-dd' at the head of `s` with the field checks, and what follows. */
  function ReadDate(s: string): (r: Option<(Date, string)>)
    ensures r.Some? ==> ValidDate(r.value.0) && 1 <= r.value.0.year <= 9999
  {
    match ReadNumber(s, 4)
    case None => None
    case Some((y, s1)) =>
      match ReadLiteral(s1, '-')
      case None => None
      case Some(s2) =>
        match ReadNumber(s2, 2)
        case None => None
        case Some((m, s3)) =>
          match ReadLiteral(s3, '-')
          case None => None
          case Some(s4) =>
            match ReadNumber(s4, 2)
            case None => None
            case Some((d, s5)) =>
              if y >= 1 && ValidDate(Date(y, m, d)) then Some((Date(y, m, d), s5)) else None
  }

  /** 'HH:mm:ss' at the head of `s` with the field checks, and what follows. */
  function ReadClock(s: string): (r: Option<(int, int, int, string)>)
    ensures r.Some? ==> 0 <= r.value.0 < 24 && 0 <= r.value.1 < 60 && 0 <= r.value.2 < 60
  {
    match ReadNumber(s, 2)
    case None => None
    case Some((h, s1)) =>
      match ReadLiteral(s1, ':')
      case None => None
      case Some(s2) =>
        match ReadNumber(s2, 2)
        case None => None
        case Some((mi, s3)) =>
          match ReadLiteral(s3, ':')
          case None => None
          case Some(s4) =>
            match ReadNumber(s4, 2)
            case None => None
            case Some((se, s5)) =>
              if 0 <= h < 24 && 0 <= mi < 60 && 0 <= se < 60 then Some((h, mi, se, s5)) else None
  }

  /** date-fns `parse(s, 'yyyy-MM-dd')`; None stands for an Invalid Date. */
  function ParseDateText(s: string): (r: Option<Date>)
    ensures r.Some? ==> ValidDate(r.value) && 1 <= r.value.year <= 9999
  {
    match ReadDate(s)
    case None => None
    case Some((d, rest)) => if AllWhitespace(rest) then Some(d) else None
  }

  /** date-fns `parse(s, 'yyyy-MM-dd HH:mm:ss')`; None stands for an Invalid Date. */
  function ParseDateTimeText(s: string): (r: Option<WallClock>)
    ensures r.Some? ==> ValidWallClock(r.value) && 1 <= r.value.date.year <= 9999
  {
    match ReadDate(s)
    case None => None
    case Some((d, s1)) =>
      match ReadLiteral(s1, ' ')
      case None => None
      case Some(s2) =>
        match ReadClock(s2)
        case None => None
        case Some((h, mi, se, rest)) =>
          if AllWhitespace(rest) then Some(WallClock(d, h, mi, se, 0)) else None
  }

  function YearOfEra(y: int): nat {
    if y > 0 then y else 1 - y
  }

  function Two(n: int): string {
    Padded(if n < 0 then 0 else n, 2)
  }

  /** date-fns `format(d, 'yyyy-MM-dd')`. */
  function FormatDate(d: Date): string {
    DecimalText(YearOfEra(d.year), 4) + "-" + Two(d.month) + "-" + Two(d.day)
  }

  /** date-fns `format(w, 'yyyy-MM-dd HH:mm:ss')`. */
  function FormatDateTime(w: WallClock): string {
    FormatDate(w.date) + (" " + ClockText(w.hour, w.minute, w.second))
  }

  /** `HH:mm:ss`. */
  function ClockText(h: int, mi: int, se: int): string {
    Two(h) + ":" + Two(mi) + ":" + Two(se)
  }

  // ---------------------------------------------------------------------
  // Round trips

  lemma {:induction false} DigitsValueBound(t: string)
    requires AllDigits(t)
    ensures 0 <= DigitsValue(t) < Pow10(|t|)
  {
    if |t| > 0 {
      DigitsValueBound(t[..|t| - 1]);
    }
  }

  lemma {:induction false} Pow10Monotone(a: nat, b: nat)
    requires a <= b
    ensures Pow10(a) <= Pow10(b)
    decreases b - a
  {
    if a < b {
      Pow10Monotone(a, b - 1);
    }
  }

  lemma {:induction false} PaddedValue(n: nat, w: nat)
    requires n < Pow10(w)
    ensures DigitsValue(Padded(n, w)) == n
  {
    if w > 0 {
      var t := Padded(n, w);
      assert t[..w - 1] == Padded(n / 10, w - 1);
      assert DigitValue(t[w - 1]) == n % 10;
      assert n / 10 < Pow10(w - 1);
      PaddedValue(n / 10, w - 1);
    }
  }

  lemma {:induction false} DigitRunOfDigits(t: string, rest: string)
    requires AllDigits(t)
    ensures DigitRun(t + rest, |t|) == |t|
  {
    if |t| > 0 {
      assert (t + rest)[1..] == t[1..] + rest;
      DigitRunOfDigits(t[1..], rest);
    }
  }

  lemma ReadPadded(n: nat, w: nat, rest: string)
    requires 1 <= w && n < Pow10(w)
    ensures ReadNumber(Padded(n, w) + rest, w) == Some((n, rest))
  {
    var t := Padded(n, w);
    DigitRunOfDigits(t, rest);
    assert (t + rest)[..w] == t;
    assert (t + rest)[w..] == rest;
    PaddedValue(n, w);
  }

  lemma {:induction false} NumDigitsBound(n: nat, w: nat)
    requires 1 <= w && n < Pow10(w)
    ensures NumDigits(n) <= w
  {
    if n >= 10 {
      NumDigitsBound(n / 10, w - 1);
    }
  }

  lemma ReadFormattedDate(d: Date, rest: string)
    requires ValidDate(d) && 1 <= d.year <= 9999
    ensures ReadDate(FormatDate(d) + rest) == Some((d, rest))
  {
    NumDigitsBound(d.year, 4);
    var y, m, dd := Padded(d.year, 4), Two(d.month), Two(d.day);
    assert FormatDate(d) + rest == y + ("-" + (m + ("-" + (dd + rest))));
    ReadPadded(d.year, 4, "-" + (m + ("-" + (dd + rest))));
    ReadPadded(d.month, 2, "-" + (dd + rest));
    ReadPadded(d.day, 2, rest);
  }

  /** For years 1 .. 9999 `yyyy-MM-dd` is ten characters: digits with dashes at 4 and 7. */
  lemma FormatDateShape(d: Date)
    requires 1 <= d.year <= 9999
    ensures var t := FormatDate(d);
      && |t| == 10 && t[4] == '-' && t[7] == '-'
      && AllDigits(t[..4]) && AllDigits(t[5..7]) && AllDigits(t[8..])
  {
    NumDigitsBound(d.year, 4);
    var t := FormatDate(d);
    assert t[..4] == Padded(d.year, 4);
    assert t[5..7] == Two(d.month);
    assert t[8..] == Two(d.day);
  }

  /** For years 1 .. 9999 `yyyy-MM-dd HH:mm:ss` is nineteen characters: the
      date text, a space, and the clock with colons at 13 and 16. */
  lemma FormatDateTimeShape(w: WallClock)
    requires 1 <= w.date.year <= 9999
    ensures var t := FormatDateTime(w);
      && |t| == 19 && t[..10] == FormatDate(w.date) && t[10] == ' ' && t[13] == ':' && t[16] == ':'
      && AllDigits(t[11..13]) && AllDigits(t[14..16]) && AllDigits(t[17..])
  {
    FormatDateShape(w.date);
    var t := FormatDateTime(w);
    assert t[11..13] == Two(w.hour);
    assert t[14..16] == Two(w.minute);
    assert t[17..] == Two(w.second);
  }

  lemma ReadFormattedClock(h: int, mi: int, se: int, clock: string)
    requires 0 <= h < 24 && 0 <= mi < 60 && 0 <= se < 60
    requires clock == ClockText(h, mi, se)
    ensures ReadClock(clock) == Some((h, mi, se, []))
  {
    var a, b, c := Two(h), Two(mi), Two(se);
    assert clock == a + (":" + (b + (":" + (c + []))));
    ReadPadded(h, 2, ":" + (b + (":" + (c + []))));
    ReadPadded(mi, 2, ":" + (c + []));
    ReadPadded(se, 2, []);
  }

  /** A formatted date parses back to itself. */
  lemma ParseFormatDate(d: Date)
    requires ValidDate(d) && 1 <= d.year <= 9999
    ensures ParseDateText(FormatDate(d)) == Some(d)
  {
    ReadFormattedDate(d, []);
    assert FormatDate(d) + [] == FormatDate(d);
  }

  /** So `FormatDate` tells apart the dates of years 1 to 9999. */
  lemma FormatDateInjective(a: Date, b: Date)
    requires ValidDate(a) && 1 <= a.year <= 9999
    requires ValidDate(b) && 1 <= b.year <= 9999
    requires FormatDate(a) == FormatDate(b)
    ensures a == b
  {
    ParseFormatDate(a);
    ParseFormatDate(b);
  }

  /** A formatted whole-second wall-clock time parses back to itself. */
  lemma ParseFormatDateTime(w: WallClock)
    requires ValidWallClock(w) && 1 <= w.date.year <= 9999 && w.millis == 0
    ensures ParseDateTimeText(FormatDateTime(w)) == Some(w)
  {
    var clock := ClockText(w.hour, w.minute, w.second);
    ReadFormattedDate(w.date, " " + clock);
    ClockAfterDate(w, FormatDateTime(w), clock);
  }

  lemma ClockAfterDate(w: WallClock, text: string, clock: string)
    requires ValidWallClock(w) && w.millis == 0
    requires clock == ClockText(w.hour, w.minute, w.second)
    requires ReadDate(text) == Some((w.date, " " + clock))
    ensures ParseDateTimeText(text) == Some(w)
  {
    ReadFormattedClock(w.hour, w.minute, w.second, clock);
    assert ReadLiteral(" " + clock, ' ') == Some(clock);
  }

  lemma TwoDigitTexts()
    ensures Two(0) == "00" && Two(23) == "23" && Two(59) == "59"
  {
    assert Padded(0, 1) == ['0'] && Padded(2, 1) == ['2'] && Padded(5, 1) == ['5'];
  }

  lemma MidnightText()
    ensures " " + ClockText(0, 0, 0) == " 00:00:00"
  {
    TwoDigitTexts();
  }

  lemma LastSecondText()
    ensures " " + ClockText(23, 59, 59) == " 23:59:59"
  {
    TwoDigitTexts();
  }

  /** The text the service builds for the first second of a day. */
  lemma ParseStartOfDay(d: Date)
    requires ValidDate(d) && 1 <= d.year <= 9999
    ensures ParseDateTimeText(FormatDate(d) + " 00:00:00") == Some(WallClock(d, 0, 0, 0, 0))
  {
    MidnightText();
    ParseFormatDateTime(WallClock(d, 0, 0, 0, 0));
  }

  /** The text the service builds for the last second of a day. */
  lemma ParseEndOfDay(d: Date)
    requires ValidDate(d) && 1 <= d.year <= 9999
    ensures ParseDateTimeText(FormatDate(d) + " 23:59:59") == Some(WallClock(d, 23, 59, 59, 0))
  {
    LastSecondText();
    ParseFormatDateTime(WallClock(d, 23, 59, 59, 0));
  }

  lemma ParseExample()
    ensures ParseDateText("2023-12-13") == Some(Date(2023, 12, 13))
  {
    FormatExample();
    ParseFormatDate(Date(2023, 12, 13));
  }

  /** A date the service's tests use, in the `yyyy-MM-dd` layout. */
  lemma FormatExample()
    ensures FormatDate(Date(2023, 12, 13)) == "2023-12-13"
  {
    YearTextExample();
    assert Padded(1, 1) == "1" && Padded(12, 2) == "12" && Padded(13, 2) == "13";
  }

  lemma YearTextExample()
    ensures DecimalText(YearOfEra(2023), 4) == "2023"
  {
    assert Padded(2, 1) == "2" && Padded(20, 2) == "20" && Padded(202, 3) == "202";
    assert Padded(2023, 4) == "2023";
    assert NumDigits(2023) == 4;
  }
}
