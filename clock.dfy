/** `datetime.strptime(s, '%Y-%m-%d')` and `datetime.strptime(s, '%H:%M')`
    (app.py:31-40, 108, 113), as CPython's `_strptime` does them: the format is
    turned into a regular expression with one alternation per directive, the
    whole string must be matched, and the fields are then handed to the
    `datetime` constructor, which rejects a date that is not on the calendar.

    Every field is followed by a fixed separator or by the end of the string, and
    no field alternative contains that separator, so the split is unique and the
    parse below reads the fields off at the separators. */
module Clock {
  import opened Wrappers
  import opened Chars

  datatype Date = Date(year: nat, month: nat, day: nat)
  datatype Time = Time(hour: nat, minute: nat)

  /** The Gregorian leap-year rule. */
  predicate IsLeapYear(year: nat) {
    year % 4 == 0 && (year % 100 != 0 || year % 400 == 0)
  }

  function DaysInMonth(year: nat, month: nat): (n: nat)
    requires 1 <= month <= 12
    ensures 28 <= n <= 31
    ensures n == 29 <==> month == 2 && IsLeapYear(year)
    ensures n == 28 <==> month == 2 && !IsLeapYear(year)
  {
    if month == 2 then (if IsLeapYear(year) then 29 else 28)
    else if month == 4 || month == 6 || month == 9 || month == 11 then 30
    else 31
  }

  /** A day on the calendar `datetime.date` covers (years 1 to 9999). */
  predicate ValidDate(d: Date) {
    1 <= d.year <= 9999 && 1 <= d.month <= 12 && 1 <= d.day <= DaysInMonth(d.year, d.month)
  }

  predicate ValidTime(t: Time) {
    t.hour < 24 && t.minute < 60
  }

  // ---------------------------------------------------------------------------
  // The directive patterns of `_strptime`
  // ---------------------------------------------------------------------------

  /** `%Y`: `\d\d\d\d` */
  predicate YearPattern(t: string) {
    |t| == 4 && AllDigits(t)
  }

  /** `%m`: `1[0-2]|0[1-9]|[1-9]` */
  predicate MonthPattern(t: string) {
    || (|t| == 2 && t[0] == '1' && '0' <= t[1] <= '2')
    || (|t| == 2 && t[0] == '0' && '1' <= t[1] <= '9')
    || (|t| == 1 && '1' <= t[0] <= '9')
  }

  /** `%d`: `3[01]|[12]\d|0[1-9]|[1-9]| [1-9]` */
  predicate DayPattern(t: string) {
    || (|t| == 2 && t[0] == '3' && '0' <= t[1] <= '1')
    || (|t| == 2 && '1' <= t[0] <= '2' && IsAsciiDigit(t[1]))
    || (|t| == 2 && t[0] == '0' && '1' <= t[1] <= '9')
    || (|t| == 1 && '1' <= t[0] <= '9')
    || (|t| == 2 && t[0] == ' ' && '1' <= t[1] <= '9')
  }

  /** `%H`: `2[0-3]|[0-1]\d|\d` */
  predicate HourPattern(t: string) {
    || (|t| == 2 && t[0] == '2' && '0' <= t[1] <= '3')
    || (|t| == 2 && '0' <= t[0] <= '1' && IsAsciiDigit(t[1]))
    || (|t| == 1 && IsAsciiDigit(t[0]))
  }

  /** `%M`: `[0-5]\d|\d` */
  predicate MinutePattern(t: string) {
    || (|t| == 2 && '0' <= t[0] <= '5' && IsAsciiDigit(t[1]))
    || (|t| == 1 && IsAsciiDigit(t[0]))
  }

  /** Each alternation accepts exactly the one- and two-digit spellings of the
      numbers in its range; the day field also takes a space and one digit. */
  lemma MonthPatternRange(t: string)
    ensures MonthPattern(t) <==> 1 <= |t| <= 2 && AllDigits(t) && 1 <= DigitsValue(t) <= 12
  {
    if |t| == 2 && AllDigits(t) { TwoDigitsValue(t); }
    if |t| == 1 { assert t[..0] == []; }
  }

  lemma DayPatternRange(t: string)
    ensures DayPattern(t) <==>
      || (1 <= |t| <= 2 && AllDigits(t) && 1 <= DigitsValue(t) <= 31)
      || (|t| == 2 && t[0] == ' ' && '1' <= t[1] <= '9')
  {
    if |t| == 2 && AllDigits(t) { TwoDigitsValue(t); }
    if |t| == 1 { assert t[..0] == []; }
  }

  lemma HourPatternRange(t: string)
    ensures HourPattern(t) <==> 1 <= |t| <= 2 && AllDigits(t) && DigitsValue(t) <= 23
  {
    if |t| == 2 && AllDigits(t) { TwoDigitsValue(t); }
    if |t| == 1 { assert t[..0] == []; }
  }

  lemma MinutePatternRange(t: string)
    ensures MinutePattern(t) <==> 1 <= |t| <= 2 && AllDigits(t) && DigitsValue(t) <= 59
  {
    if |t| == 2 && AllDigits(t) { TwoDigitsValue(t); }
    if |t| == 1 { assert t[..0] == []; }
  }

  /** The value of a `%d` field, whose " d" form starts with a space (read as 0). */
  lemma DayValue(t: string)
    requires DayPattern(t)
    ensures 1 <= DigitsValue(t) <= 31
  {
    DayPatternRange(t);
    if |t| == 2 && t[0] == ' ' {
      assert t[..1][..0] == [];
    }
  }

  // ---------------------------------------------------------------------------
  // The two parses
  // ---------------------------------------------------------------------------

  /** `strptime(s, '%Y-%m-%d')`: `None` where Python raises `ValueError`.
      The patterns already bound the month to 1..12 and the day to 1..31; the
      `datetime` constructor adds the year's lower bound and the month's length. */
  function ParseDate(s: string): (r: Option<Date>)
    ensures r.Some? ==> ValidDate(r.value)
  {
    if |s| < 5 || !YearPattern(s[..4]) || s[4] != '-' then None
    else
      var rest := s[5..];
      var k := IndexOf(rest, '-');
      var mt := rest[..k];
      var dt := if k < |rest| then rest[k + 1..] else [];
      if k == |rest| || !MonthPattern(mt) || !DayPattern(dt) then None
      else
        MonthPatternRange(mt);
        DayValue(dt);
        var d := Date(DigitsValue(s[..4]), DigitsValue(mt), DigitsValue(dt));
        if 1 <= d.year && d.day <= DaysInMonth(d.year, d.month) then Some(d) else None
  }

  /** `strptime(s, '%H:%M')`: the patterns alone bound hour and minute. */
  function ParseTime(s: string): (r: Option<Time>)
    ensures r.Some? ==> ValidTime(r.value)
  {
    var k := IndexOf(s, ':');
    var ht := s[..k];
    var mt := if k < |s| then s[k + 1..] else [];
    if k < |s| && HourPattern(ht) && MinutePattern(mt) then
      HourPatternRange(ht);
      MinutePatternRange(mt);
      Some(Time(DigitsValue(ht), DigitsValue(mt)))
    else None
  }

  // ---------------------------------------------------------------------------
  // Completeness: every spelling the format admits is parsed, and read right
  // ---------------------------------------------------------------------------

  /** Any year, month and day fields the directives accept, joined by dashes,
      parse to the date they spell exactly when that date is on the calendar. */
  lemma DateFromFields(y: string, m: string, d: string)
    requires YearPattern(y) && MonthPattern(m) && DayPattern(d)
    ensures var date := Date(DigitsValue(y), DigitsValue(m), DigitsValue(d));
      ParseDate(y + "-" + m + "-" + d) == if ValidDate(date) then Some(date) else None
  {
    DateFieldsSplit(y, m, d);
    MonthPatternRange(m);
    DayValue(d);
  }

  /** Where `ParseDate` finds the three fields of a dash-joined date. */
  lemma DateFieldsSplit(y: string, m: string, d: string)
    requires |y| == 4 && AllDigits(m)
    ensures var s := y + "-" + m + "-" + d;
      && |s| >= 5 && s[..4] == y && s[4] == '-'
      && IndexOf(s[5..], '-') == |m| < |s[5..]|
      && s[5..][..|m|] == m && s[5..][|m| + 1..] == d
  {
    var s := y + "-" + m + "-" + d;
    var rest := m + "-" + d;
    assert s == y + ("-" + rest);
    assert s[5..] == rest;
    IndexAfterDigits(m, '-', d);
  }

  /** Any hour and minute fields the directives accept, joined by a colon, parse
      to the time they spell. */
  lemma TimeFromFields(h: string, m: string)
    requires HourPattern(h) && MinutePattern(m)
    ensures ParseTime(h + ":" + m) == Some(Time(DigitsValue(h), DigitsValue(m)))
  {
    var s := h + ":" + m;
    HourPatternRange(h);
    IndexAfterDigits(h, ':', m);
    assert s[..|h|] == h;
    assert s[|h| + 1..] == m;
  }

  /** Soundness of the date parse: an accepted string is exactly year, month
      and day fields of the `%Y`, `%m` and `%d` shapes joined by dashes, and the
      date returned is the one those fields spell. */
  lemma DateShape(s: string)
    requires ParseDate(s).Some?
    ensures exists y, m, d ::
      && YearPattern(y) && MonthPattern(m) && DayPattern(d)
      && s == y + "-" + m + "-" + d
      && ParseDate(s).value == Date(DigitsValue(y), DigitsValue(m), DigitsValue(d))
  {
    var rest := s[5..];
    var k := IndexOf(rest, '-');
    assert s == s[..4] + "-" + rest[..k] + "-" + rest[k + 1..];
  }

  /** Soundness of the time parse: an accepted string is exactly hour and
      minute fields of the `%H` and `%M` shapes joined by a colon, and the time
      returned is the one they spell. */
  lemma TimeShape(s: string)
    requires ParseTime(s).Some?
    ensures exists h, m ::
      && HourPattern(h) && MinutePattern(m)
      && s == h + ":" + m
      && ParseTime(s).value == Time(DigitsValue(h), DigitsValue(m))
  {
    var k := IndexOf(s, ':');
    assert s == s[..k] + ":" + s[k + 1..];
  }

  /** `YYYY-MM-DD` with zero padding. */
  function FormatDate(d: Date): string
    requires ValidDate(d)
  {
    PadDigits(d.year, 4) + "-" + PadDigits(d.month, 2) + "-" + PadDigits(d.day, 2)
  }

  /** `HH:MM` with zero padding. */
  function FormatTime(t: Time): string
    requires ValidTime(t)
  {
    PadDigits(t.hour, 2) + ":" + PadDigits(t.minute, 2)
  }

  /** Every calendar date is accepted in its padded spelling and read back as
      itself; with `ParseDate`'s own contract, the accepted dates are exactly
      the calendar dates. */
  lemma DateRoundTrip(d: Date)
    requires ValidDate(d)
    ensures ParseDate(FormatDate(d)) == Some(d)
  {
    assert Pow10(4) == 10000 && Pow10(2) == 100;
    var y, m, dd := PadDigits(d.year, 4), PadDigits(d.month, 2), PadDigits(d.day, 2);
    MonthPatternRange(m);
    DayPatternRange(dd);
    DateFromFields(y, m, dd);
  }

  /** Every time of day is accepted in its padded spelling and read back as itself. */
  lemma TimeRoundTrip(t: Time)
    requires ValidTime(t)
    ensures ParseTime(FormatTime(t)) == Some(t)
  {
    assert Pow10(2) == 100;
    var h, m := PadDigits(t.hour, 2), PadDigits(t.minute, 2);
    HourPatternRange(h);
    MinutePatternRange(m);
    TimeFromFields(h, m);
  }

  /** `DateFromFields` on a literal, with the date it spells given by the caller. */
  lemma DateLiteral(s: string, y: string, m: string, d: string, date: Date)
    requires s == y + "-" + m + "-" + d
    requires YearPattern(y) && MonthPattern(m) && DayPattern(d)
    requires date == Date(DigitsValue(y), DigitsValue(m), DigitsValue(d))
    ensures ParseDate(s) == if ValidDate(date) then Some(date) else None
  {
    DateFromFields(y, m, d);
  }

  /** The date of the test receipts is read as written. */
  lemma DateExample()
    ensures ParseDate("2022-03-20") == Some(Date(2022, 3, 20))
  {
    assert DigitsValue("2022") == 2022 by { FourDigitsValue("2022"); }
    assert DigitsValue("03") == 3 by { TwoDigitsValue("03"); }
    assert DigitsValue("20") == 20 by { TwoDigitsValue("20"); }
    DateLiteral("2022-03-20", "2022", "03", "20", Date(2022, 3, 20));
  }

  /** A day past the end of its month is refused. */
  lemma ImpossibleDayRefused()
    ensures ParseDate("2022-02-30") == None
  {
    assert DigitsValue("2022") == 2022 by { FourDigitsValue("2022"); }
    assert DigitsValue("02") == 2 by { TwoDigitsValue("02"); }
    assert DigitsValue("30") == 30 by { TwoDigitsValue("30"); }
    DateLiteral("2022-02-30", "2022", "02", "30", Date(2022, 2, 30));
  }

  /** A thirteenth month does not even match `%m`. */
  lemma ImpossibleMonthRefused()
    ensures ParseDate("2022-13-01") == None
  {
    var rest := "2022-13-01"[5..];
    assert rest == "13-01";
    assert IndexOf(rest, '-') == 2;
    assert rest[..2] == "13";
  }

  /** Year 0 matches `%Y` but is outside the calendar. */
  lemma YearZeroRefused()
    ensures ParseDate("0000-01-01") == None
  {
    assert DigitsValue("0000") == 0 by { FourDigitsValue("0000"); }
    assert DigitsValue("01") == 1 by { TwoDigitsValue("01"); }
    DateLiteral("0000-01-01", "0000", "01", "01", Date(0, 1, 1));
  }

  /** The leap-year rule is Gregorian: 2024 has a 29 February ... */
  lemma LeapDayAccepted()
    ensures ParseDate("2024-02-29") == Some(Date(2024, 2, 29))
  {
    assert DigitsValue("02") == 2 by { TwoDigitsValue("02"); }
    assert DigitsValue("29") == 29 by { TwoDigitsValue("29"); }
    assert DigitsValue("2024") == 2024 by { FourDigitsValue("2024"); }
    assert IsLeapYear(2024);
    DateLiteral("2024-02-29", "2024", "02", "29", Date(2024, 2, 29));
  }

  /** ... and 1900, divisible by 100 but not by 400, does not. */
  lemma CenturyLeapDayRefused()
    ensures ParseDate("1900-02-29") == None
  {
    assert DigitsValue("02") == 2 by { TwoDigitsValue("02"); }
    assert DigitsValue("29") == 29 by { TwoDigitsValue("29"); }
    assert DigitsValue("1900") == 1900 by { FourDigitsValue("1900"); }
    assert !IsLeapYear(1900);
    DateLiteral("1900-02-29", "1900", "02", "29", Date(1900, 2, 29));
  }

  /** One-digit fields are accepted, as `strptime` accepts them ... */
  lemma ShortFieldExample()
    ensures ParseDate("2022-3-5") == Some(Date(2022, 3, 5))
  {
    assert DigitsValue("2022") == 2022 by { FourDigitsValue("2022"); }
    assert DigitsValue("3") == 3 by { assert "3"[..0] == []; }
    assert DigitsValue("5") == 5 by { assert "5"[..0] == []; }
    DateLiteral("2022-3-5", "2022", "3", "5", Date(2022, 3, 5));
  }

  /** ... and so is a day padded with a space instead of a zero. */
  lemma SpacePaddedDayExample()
    ensures ParseDate("2022-03- 5") == Some(Date(2022, 3, 5))
  {
    assert DigitsValue("2022") == 2022 by { FourDigitsValue("2022"); }
    assert DigitsValue("03") == 3 by { TwoDigitsValue("03"); }
    assert DigitsValue(" 5") == 5 by { assert " 5"[..1][..0] == []; }
    DateLiteral("2022-03- 5", "2022", "03", " 5", Date(2022, 3, 5));
  }

  /** Hours past 23 and minutes past 59 are refused, as is a time without its colon. */
  lemma TimeRangeExamples()
    ensures ParseTime("24:00") == None
    ensures ParseTime("12:60") == None
    ensures ParseTime("1200") == None
  {
    assert IndexOf("24:00", ':') == 2;
    assert "24:00"[..2] == "24";
    assert IndexOf("12:60", ':') == 2;
    assert "12:60"[3..] == "60";
  }

  /** The time of the test receipt is read as written. */
  lemma TimeExample()
    ensures ParseTime("14:33") == Some(Time(14, 33))
  {
    assert DigitsValue("14") == 14 by { TwoDigitsValue("14"); }
    assert DigitsValue("33") == 33 by { TwoDigitsValue("33"); }
    TimeFromFields("14", "33");
    assert "14:33" == "14" + ":" + "33";
  }

  /** A one-digit hour, which `%H` accepts. */
  lemma ShortHourExample()
    ensures ParseTime("9:05") == Some(Time(9, 5))
  {
    assert DigitsValue("9") == 9 by { assert "9"[..0] == []; }
    assert DigitsValue("05") == 5 by { TwoDigitsValue("05"); }
    TimeFromFields("9", "05");
    assert "9:05" == "9" + ":" + "05";
  }

}
