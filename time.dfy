/** The date-string helpers of the time utilities: every value travels as a
    '%Y-%m-%d %H:%M:%S' string, is parsed, shifted or compared as a
    proleptic Gregorian date-time, and formatted back. The current date-time
    is an input (`now`) instead of a clock read. */
module Time {
  import opened Wrappers
  import opened Strings
  import opened Calendar

  /** Unit names accepted by GetTimeDifference. */
  const Days := "day"
  const Hours := "hour"
  const Minutes := "minute"
  const Seconds := "second"

  /** What `strptime` (malformed text or an impossible date) and date
      arithmetic (a result outside years 1..9999) raise. */
  datatype TimeError = ValueError | OverflowError

  /** The two zero-padded digits of a field below 100, tens first; reading
      them back gives the field. */
  function Digits2(n: int): (p: (char, char))
    requires 0 <= n < 100
    ensures IsDigit(p.0) && IsDigit(p.1)
    ensures DigitValue(p.0) * 10 + DigitValue(p.1) == n
  {
    (DigitChar(n / 10), DigitChar(n % 10))
  }

  /** `strftime('%Y-%m-%d')`: the year as two two-digit halves. */
  function FormatDate(d: Date): (s: string)
    requires ValidDate(d)
    ensures |s| == 10
  {
    var c, y, m, dd := Digits2(d.year / 100), Digits2(d.year % 100), Digits2(d.month), Digits2(d.day);
    [c.0, c.1, y.0, y.1, '-', m.0, m.1, '-', dd.0, dd.1]
  }

  /** `strftime('%H:%M:%S')`. */
  function FormatClock(t: DateTime): (s: string)
    requires ValidDateTime(t)
    ensures |s| == 8
  {
    var h, m, sc := Digits2(t.hour), Digits2(t.minute), Digits2(t.second);
    [h.0, h.1, ':', m.0, m.1, ':', sc.0, sc.1]
  }

  /** `strftime('%Y-%m-%d %H:%M:%S')`. */
  function FormatDateTime(t: DateTime): (s: string)
    requires ValidDateTime(t)
    ensures |s| == 19
  {
    var c, y, m, dd := Digits2(t.date.year / 100), Digits2(t.date.year % 100), Digits2(t.date.month), Digits2(t.date.day);
    var h, mi, sc := Digits2(t.hour), Digits2(t.minute), Digits2(t.second);
    [c.0, c.1, y.0, y.1, '-', m.0, m.1, '-', dd.0, dd.1, ' ', h.0, h.1, ':', mi.0, mi.1, ':', sc.0, sc.1]
  }

  /** The date and the clock written side by side are the full date-time text. */
  lemma FormatDateTimeParts(t: DateTime)
    requires ValidDateTime(t)
    ensures FormatDate(t.date) + " " + FormatClock(t) == FormatDateTime(t)
  {
  }

  /** The character layout of '%Y-%m-%d %H:%M:%S' with every field zero-padded. */
  predicate HasDateTimeShape(s: string)
  {
    && |s| == 19
    && IsDigit(s[0]) && IsDigit(s[1]) && IsDigit(s[2]) && IsDigit(s[3]) && s[4] == '-'
    && IsDigit(s[5]) && IsDigit(s[6]) && s[7] == '-'
    && IsDigit(s[8]) && IsDigit(s[9]) && s[10] == ' '
    && IsDigit(s[11]) && IsDigit(s[12]) && s[13] == ':'
    && IsDigit(s[14]) && IsDigit(s[15]) && s[16] == ':'
    && IsDigit(s[17]) && IsDigit(s[18])
  }

  /** The value of the two digits at `i` and `i + 1`. */
  function Field2(s: string, i: int): int
    requires 0 <= i && i + 1 < |s| && IsDigit(s[i]) && IsDigit(s[i + 1])
  {
    DigitValue(s[i]) * 10 + DigitValue(s[i + 1])
  }

  /** `datetime.strptime(s, '%Y-%m-%d %H:%M:%S')`; `None` where it raises ValueError. */
  function ParseDateTime(s: string): (r: Option<DateTime>)
    ensures r.Some? ==> ValidDateTime(r.value)
  {
    if !HasDateTimeShape(s) then None
    else
      var t := DateTime(Date(Field2(s, 0) * 100 + Field2(s, 2), Field2(s, 5), Field2(s, 8)),
                        Field2(s, 11), Field2(s, 14), Field2(s, 17));
      if ValidDateTime(t) then Some(t) else None
  }

  /** Formatting then parsing gives back the same date-time. */
  lemma ParseFormat(t: DateTime)
    requires ValidDateTime(t)
    ensures ParseDateTime(FormatDateTime(t)) == Some(t)
  {
    FormatFields(t);
  }

  /** The formatted text has the layout the parser expects, and its fields
      read back as the fields of `t`. */
  lemma FormatFields(t: DateTime)
    requires ValidDateTime(t)
    ensures HasDateTimeShape(FormatDateTime(t))
    ensures var f := FormatDateTime(t);
      && Field2(f, 0) * 100 + Field2(f, 2) == t.date.year
      && Field2(f, 5) == t.date.month && Field2(f, 8) == t.date.day
      && Field2(f, 11) == t.hour && Field2(f, 14) == t.minute && Field2(f, 17) == t.second
  {
  }

  /** A two-digit field is written back as the same two characters. */
  lemma TwoDigits(s: string, i: int)
    requires 0 <= i && i + 1 < |s| && IsDigit(s[i]) && IsDigit(s[i + 1])
    ensures 0 <= Field2(s, i) < 100 && Digits2(Field2(s, i)) == (s[i], s[i + 1])
  {
    var a, b := s[i], s[i + 1];
    var x, y := DigitValue(a), DigitValue(b);
    assert (x * 10 + y) / 10 == x;
    assert (x * 10 + y) % 10 == y;
    DigitRoundTrip(a);
    DigitRoundTrip(b);
  }

  /** Parsing only accepts the formatted text of the value it returns. */
  lemma FormatParse(s: string)
    requires ParseDateTime(s).Some?
    ensures FormatDateTime(ParseDateTime(s).value) == s
  {
    var t := ParseDateTime(s).value;
    TwoDigits(s, 0);
    TwoDigits(s, 2);
    TwoDigits(s, 5);
    TwoDigits(s, 8);
    TwoDigits(s, 11);
    TwoDigits(s, 14);
    TwoDigits(s, 17);
    assert t.date.year / 100 == Field2(s, 0) && t.date.year % 100 == Field2(s, 2);
    var chars := [s[0], s[1], s[2], s[3], s[4], s[5], s[6], s[7], s[8], s[9],
                  s[10], s[11], s[12], s[13], s[14], s[15], s[16], s[17], s[18]];
    assert FormatDateTime(t) == chars;
    assert s == chars;
  }

  /** `get_current_date_time()` with the current instant as input. */
  function GetCurrentDateTime(now: DateTime): (r: string)
    requires ValidDateTime(now)
    ensures ParseDateTime(r) == Some(now)
  {
    ParseFormat(now);
    FormatDateTimeParts(now);
    FormatDate(now.date) + " " + FormatClock(now)
  }

  /** `get_current_date()` with the current instant as input. */
  function GetCurrentDate(now: DateTime): (r: string)
    requires ValidDateTime(now)
    ensures ParseDateTime(r + " 00:00:00") == Some(DateTime(now.date, 0, 0, 0))
  {
    MidnightRoundTrip(now.date);
    FormatDate(now.date)
  }

  /** `datetime_to_str(t)`. */
  function DatetimeToStr(t: DateTime): (r: string)
    requires ValidDateTime(t)
    ensures ParseDateTime(r) == Some(t)
  {
    ParseFormat(t);
    FormatDateTime(t)
  }

  /** The parsed date-time `days` days earlier, written back; OverflowError
      outside years 1..9999. */
  function ShiftDays(t: DateTime, days: int): (r: Result<string, TimeError>)
    requires ValidDateTime(t)
    ensures var n := ToOrdinal(t.date) - days;
      (r.Ok? <==> 1 <= n <= MaxOrdinal) && (r.Err? ==> r.error == OverflowError)
    ensures r.Ok? ==>
      && ParseDateTime(r.value).Some?
      && var u := ParseDateTime(r.value).value;
      && ToOrdinal(u.date) == ToOrdinal(t.date) - days
      && u.hour == t.hour && u.minute == t.minute && u.second == t.second
  {
    var n := ToOrdinal(t.date) - days;
    if 1 <= n <= MaxOrdinal then
      var u := DateTime(FromOrdinal(n), t.hour, t.minute, t.second);
      ParseFormat(u);
      Ok(FormatDateTime(u))
    else Err(OverflowError)
  }

  /** `subtract_days_to_datetime(s, days)`: the same clock time `days` days
      earlier (later for a negative count). */
  function SubtractDaysToDatetime(s: string, days: int): (r: Result<string, TimeError>)
    ensures ParseDateTime(s).None? ==> r == Err(ValueError)
    ensures ParseDateTime(s).Some? ==>
      var n := ToOrdinal(ParseDateTime(s).value.date) - days;
      (r.Ok? <==> 1 <= n <= MaxOrdinal) && (r.Err? ==> r.error == OverflowError)
    ensures r.Ok? ==>
      var t := ParseDateTime(s).value;
      && ParseDateTime(r.value).Some?
      && var u := ParseDateTime(r.value).value;
      && ToOrdinal(u.date) == ToOrdinal(t.date) - days
      && u.hour == t.hour && u.minute == t.minute && u.second == t.second
  {
    match ParseDateTime(s)
    case None => Err(ValueError)
    case Some(t) => ShiftDays(t, days)
  }

  /** `get_week_day(s)`. */
  function GetWeekDay(s: string): (r: Result<int, TimeError>)
    ensures ParseDateTime(s).None? <==> r == Err(ValueError)
    ensures r.Ok? ==> 0 <= r.value <= 6 && r.value == Weekday(ParseDateTime(s).value.date)
  {
    match ParseDateTime(s)
    case None => Err(ValueError)
    case Some(t) => Ok(Weekday(t.date))
  }

  /** Going back a whole week lands on the same week day. */
  lemma WeekDayPeriodic(s: string)
    requires SubtractDaysToDatetime(s, 7).Ok?
    ensures GetWeekDay(SubtractDaysToDatetime(s, 7).value) == GetWeekDay(s)
  {
    var r := SubtractDaysToDatetime(s, 7).value;
    WeekdayWeekEarlier(ParseDateTime(s).value.date, ParseDateTime(r).value.date);
  }

  lemma WeekdayWeekEarlier(d: Date, e: Date)
    requires ValidDate(d) && ValidDate(e) && ToOrdinal(e) == ToOrdinal(d) - 7
    ensures Weekday(e) == Weekday(d)
  {
    ModWeek(ToOrdinal(e) + 6);
  }

  lemma ModWeek(x: int)
    ensures (x + 7) % 7 == x % 7
  {
  }

  /** Midnight of a date, written out, parses back to that midnight. */
  lemma MidnightRoundTrip(d: Date)
    requires ValidDate(d)
    ensures FormatDate(d) + " 00:00:00" == FormatDateTime(DateTime(d, 0, 0, 0))
    ensures ParseDateTime(FormatDate(d) + " 00:00:00") == Some(DateTime(d, 0, 0, 0))
  {
    var m := DateTime(d, 0, 0, 0);
    ParseFormat(m);
    FormatDateTimeParts(m);
    assert FormatClock(m) == "00:00:00";
  }

  /** `get_first_week_day()`, with today as input: the Monday that opens
      the current week, at midnight. */
  function GetFirstWeekDay(now: DateTime): (r: string)
    requires ValidDateTime(now)
    ensures ParseDateTime(r).Some?
    ensures var m := ParseDateTime(r).value;
      && m.hour == 0 && m.minute == 0 && m.second == 0
      && Weekday(m.date) == 0
      && ToOrdinal(now.date) - 6 <= ToOrdinal(m.date) <= ToOrdinal(now.date)
  {
    var dateTime := GetCurrentDate(now) + " 00:00:00";
    var weekDay := GetWeekDay(dateTime).value;
    OrdinalBounds(now.date);
    MondayArith(ToOrdinal(now.date));
    var weekInitDate := ParseDateTime(SubtractDaysToDatetime(dateTime, weekDay).value).value.date;
    MondayOfWeek(now.date, weekInitDate);
    MidnightRoundTrip(weekInitDate);
    FormatDate(weekInitDate) + " 00:00:00"
  }

  /** The date `weekday` days before a date is the Monday of its week. */
  lemma MondayOfWeek(d: Date, e: Date)
    requires ValidDate(d) && ValidDate(e) && ToOrdinal(e) == ToOrdinal(d) - Weekday(d)
    ensures Weekday(e) == 0 && ToOrdinal(d) - 6 <= ToOrdinal(e) <= ToOrdinal(d)
  {
    OrdinalBounds(d);
    MondayArith(ToOrdinal(d));
  }

  lemma MondayArith(ord: int)
    requires ord >= 1
    ensures var w := (ord + 6) % 7; 1 <= ord - w <= ord && (ord - w + 6) % 7 == 0
  {
  }

  /** `get_first_month_day()`, with today as input: the first of the
      current month, at midnight. */
  function GetFirstMonthDay(now: DateTime): (r: string)
    requires ValidDateTime(now)
    ensures ParseDateTime(r) == Some(DateTime(Date(now.date.year, now.date.month, 1), 0, 0, 0))
  {
    var t := ParseDateTime(GetCurrentDate(now) + " 00:00:00").value;
    var first := DateTime(Date(t.date.year, t.date.month, 1), 0, 0, 0);
    ParseFormat(first);
    FormatDateTime(first)
  }

  /** Python's `int(a / b)` for a positive divisor: the quotient truncated toward zero. */
  function TruncDiv(a: int, b: int): (q: int)
    requires b > 0
    ensures a >= 0 ==> 0 <= q * b <= a < q * b + b
    ensures a < 0 ==> q * b - b < a <= q * b <= 0
  {
    if a >= 0 then
      DivBounds(a, b);
      a / b
    else
      DivBounds(-a, b);
      -((-a) / b)
  }

  lemma DivBounds(a: nat, b: int)
    requires b > 0
    ensures 0 <= (a / b) * b <= a < (a / b) * b + b
  {
    assert a == (a / b) * b + a % b;
  }

  /** Seconds since the start of the ordinal calendar. */
  function TotalSeconds(t: DateTime): int
    requires ValidDateTime(t)
  {
    ToOrdinal(t.date) * 86400 + t.hour * 3600 + t.minute * 60 + t.second
  }

  /** Seconds per unit: days, hours and minutes; every other unit name counts seconds. */
  function UnitSeconds(unit: string): (k: int)
    ensures k > 0
  {
    if unit == Days then 60 * 60 * 24
    else if unit == Hours then 60 * 60
    else if unit == Minutes then 60
    else 1
  }

  /** `get_time_difference(from, to, unit)`: `to - from` in whole units,
      truncated toward zero. */
  function GetTimeDifference(from: string, to: string, unit: string): (r: Result<int, TimeError>)
    ensures (ParseDateTime(from).None? || ParseDateTime(to).None?) <==> r == Err(ValueError)
    ensures r.Ok? ==>
      r.value == TruncDiv(TotalSeconds(ParseDateTime(to).value) - TotalSeconds(ParseDateTime(from).value), UnitSeconds(unit))
  {
    match ParseDateTime(from)
    case None => Err(ValueError)
    case Some(f) =>
      match ParseDateTime(to)
      case None => Err(ValueError)
      case Some(t) =>
        var diff := TotalSeconds(t) - TotalSeconds(f);
        if unit == Days then Ok(TruncDiv(diff, 60 * 60 * 24))
        else if unit == Hours then Ok(TruncDiv(diff, 60 * 60))
        else if unit == Minutes then Ok(TruncDiv(diff, 60))
        else Ok(TruncDiv(diff, 1))
  }

  /** A date-time is no distance from itself, in any unit. */
  lemma TimeDifferenceSelf(a: string, unit: string)
    requires ParseDateTime(a).Some?
    ensures GetTimeDifference(a, a, unit) == Ok(0)
  {
  }

  /** Swapping the two date-times negates the difference, in any unit. */
  lemma TimeDifferenceAntisymmetric(a: string, b: string, unit: string)
    requires ParseDateTime(a).Some? && ParseDateTime(b).Some?
    ensures GetTimeDifference(a, b, unit).Ok? && GetTimeDifference(b, a, unit).Ok?
    ensures GetTimeDifference(a, b, unit).value == -GetTimeDifference(b, a, unit).value
  {
    var d := TotalSeconds(ParseDateTime(b).value) - TotalSeconds(ParseDateTime(a).value);
    var k := UnitSeconds(unit);
    if d > 0 {
      assert TruncDiv(-d, k) == -(d / k);
    } else if d < 0 {
      assert TruncDiv(d, k) == -((-d) / k);
    }
  }

  /** Subtracting `days` days yields a date-time exactly `days` days before,
      measured by GetTimeDifference in days. */
  lemma SubtractDaysDifference(s: string, days: int)
    requires SubtractDaysToDatetime(s, days).Ok?
    ensures GetTimeDifference(SubtractDaysToDatetime(s, days).value, s, Days) == Ok(days)
  {
    var r := SubtractDaysToDatetime(s, days).value;
    var t := ParseDateTime(s).value;
    var u := ParseDateTime(r).value;
    assert TotalSeconds(t) - TotalSeconds(u) == days * 86400;
    TruncDivWholeDays(days);
  }

  lemma TruncDivWholeDays(q: int)
    ensures TruncDiv(q * 86400, 86400) == q
  {
    if q < 0 {
      assert (-(q * 86400)) / 86400 == -q;
    } else {
      assert (q * 86400) / 86400 == q;
    }
  }

  /** `get_time_hh_mm_from_seconds(n)`: whole hours and the whole minutes
      left over, seconds dropped; Python's floor `divmod`. */
  function GetTimeHhMmFromSeconds(n: int): string
  {
    var mm := n / 60;
    var hh := mm / 60;
    IntToString(hh) + "h " + IntToString(mm % 60) + "m"
  }

  /** For a non-negative count the text names `h` hours and `m < 60` minutes
      that cover `n` up to less than one minute. */
  lemma HhMmOfSeconds(n: nat)
    ensures var h, m := n / 3600, n % 3600 / 60;
      && 0 <= m < 60
      && h * 3600 + m * 60 <= n < h * 3600 + m * 60 + 60
      && GetTimeHhMmFromSeconds(n) == NatToString(h) + "h " + NatToString(m) + "m"
  {
    var q := n / 60;
    assert q / 60 == n / 3600;
    assert q % 60 == n % 3600 / 60;
  }
}
