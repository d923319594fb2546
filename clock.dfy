/**
 * The parts of PHP's `DateTime` that `deliverBy` uses: the whole-day
 * difference between two instants (`diff(...)->days`) and rendering with
 * the plugin's time format `D, d M Y H:i:s O` (`MailgunPlugin::TIMEFORMAT`).
 *
 * A `DateTime` is an instant in Unix seconds together with the UTC offset of
 * its time zone, taken as fixed: daylight-saving changes and leap seconds are
 * not part of this model. Dates use the proleptic Gregorian calendar.
 */
module Clock {
  import opened Php

  const SecondsPerDay: int := 86400

  datatype DateTime = DateTime(stamp: int, offset: int)

  function Abs(x: int): nat
  {
    if x < 0 then -x else x
  }

  /**
   * `$a->diff($b)->days`: the number of whole days between the two instants,
   * whichever of them comes first.
   */
  function DiffDays(a: DateTime, b: DateTime): (days: nat)
    ensures days * SecondsPerDay <= Abs(a.stamp - b.stamp) < (days + 1) * SecondsPerDay
  {
    Abs(a.stamp - b.stamp) / SecondsPerDay
  }

  // ----- calendar -----

  predicate IsLeapYear(y: int)
  {
    y % 4 == 0 && (y % 100 != 0 || y % 400 == 0)
  }

  function YearLength(y: int): nat
  {
    if IsLeapYear(y) then 366 else 365
  }

  function MonthLength(y: int, m: int): nat
    requires 1 <= m <= 12
  {
    if m == 2 then (if IsLeapYear(y) then 29 else 28)
    else if m == 4 || m == 6 || m == 9 || m == 11 then 30
    else 31
  }

  /** The days of the months before month `m` of year `y`. */
  function DaysBeforeMonth(y: int, m: int): nat
    requires 1 <= m <= 13
    decreases m
  {
    if m == 1 then 0 else DaysBeforeMonth(y, m - 1) + MonthLength(y, m - 1)
  }

  /** The days of all years from 1970 up to, not including, `y`; negative before 1970. */
  function DaysBeforeYear(y: int): int
    decreases Abs(y - 1970)
  {
    if y == 1970 then 0
    else if y > 1970 then DaysBeforeYear(y - 1) + YearLength(y - 1)
    else DaysBeforeYear(y + 1) - YearLength(y)
  }

  /** Day `d` (counting from 0) after the start of year `y`, as a year and a day within it. */
  function YearForward(y: int, d: nat): (r: (int, nat))
    ensures r.1 < YearLength(r.0)
    decreases d
  {
    if d < YearLength(y) then (y, d) else YearForward(y + 1, d - YearLength(y))
  }

  /** Day `d` (negative) before the start of year `y`, as a year and a day within it. */
  function YearBackward(y: int, d: int): (r: (int, nat))
    requires d < 0
    ensures r.1 < YearLength(r.0)
    decreases -d
  {
    var d' := d + YearLength(y - 1);
    if d' >= 0 then (y - 1, d') else YearBackward(y - 1, d')
  }

  /** Day `d` (counting from 0) of year `y`, from month `m` on, as a month and a day of that month. */
  function MonthOf(y: int, m: int, d: nat): (r: (int, int))
    requires 1 <= m <= 12
    requires d < DaysBeforeMonth(y, 13) - DaysBeforeMonth(y, m)
    ensures m <= r.0 <= 12 && 1 <= r.1 <= MonthLength(y, r.0)
    decreases 12 - m
  {
    if d < MonthLength(y, m) then (m, d + 1) else MonthOf(y, m + 1, d - MonthLength(y, m))
  }

  lemma YearOfMonths(y: int)
    ensures DaysBeforeMonth(y, 13) == YearLength(y)
  {
  }

  /** A calendar date and wall-clock time in some UTC offset; weekday 0 is Sunday. */
  datatype Civil = Civil(year: int, month: int, day: int, hour: int, minute: int, second: int, weekday: int)

  predicate ValidCivil(c: Civil)
  {
    1 <= c.month <= 12 && 1 <= c.day <= MonthLength(c.year, c.month)
    && 0 <= c.hour < 24 && 0 <= c.minute < 60 && 0 <= c.second < 60 && 0 <= c.weekday < 7
  }

  /** The days since 1970-01-01 of the civil date. */
  function EpochDay(c: Civil): int
    requires ValidCivil(c)
  {
    DaysBeforeYear(c.year) + DaysBeforeMonth(c.year, c.month) + c.day - 1
  }

  /** The instant that the civil date and time denote at the given UTC offset. */
  function Instant(c: Civil, offset: int): int
    requires ValidCivil(c)
  {
    EpochDay(c) * SecondsPerDay + c.hour * 3600 + c.minute * 60 + c.second - offset
  }

  /** The local date and time of a `DateTime` in its own offset. */
  function CivilOf(t: DateTime): (c: Civil)
    ensures ValidCivil(c)
  {
    var local := t.stamp + t.offset;
    var day := local / SecondsPerDay;
    var secs := local % SecondsPerDay;
    var (y, doy) := if day >= 0 then YearForward(1970, day) else YearBackward(1970, day);
    YearOfMonths(y);
    var (m, dom) := MonthOf(y, 1, doy);
    Civil(y, m, dom, secs / 3600, secs % 3600 / 60, secs % 60, (day + 4) % 7)
  }

  // ----- rendering -----

  /** `n` in decimal, padded with zeros on the left to at least `width` digits. */
  function ZeroPad(n: nat, width: nat): (s: string)
    ensures |s| == if |Digits(n)| >= width then |Digits(n)| else width
  {
    var ds := Digits(n);
    if |ds| >= width then ds else seq(width - |ds|, _ => '0') + ds
  }

  function WeekdayName(w: int): string
    requires 0 <= w < 7
  {
    ["Sun", "Mon", "Tue", "Wed", "Thu", "Fri", "Sat"][w]
  }

  function MonthName(m: int): string
    requires 1 <= m <= 12
  {
    ["Jan", "Feb", "Mar", "Apr", "May", "Jun", "Jul", "Aug", "Sep", "Oct", "Nov", "Dec"][m - 1]
  }

  /** Format letter `Y`: at least four digits, with a minus sign before year 0. */
  function YearText(y: int): string
  {
    if y < 0 then ['-'] + ZeroPad(-y, 4) else ZeroPad(y, 4)
  }

  /** Format letter `O`: the sign, then the hours and minutes of the offset, two digits each. */
  function OffsetText(offset: int): string
  {
    var a := Abs(offset);
    [if offset < 0 then '-' else '+'] + ZeroPad(a / 3600, 2) + ZeroPad(a % 3600 / 60, 2)
  }

  /** The fields of the format `D, d M Y H:i:s O`, laid out for a civil date and time. */
  function Render(c: Civil, offset: int): string
    requires ValidCivil(c)
  {
    WeekdayName(c.weekday) + ", " + ZeroPad(c.day, 2) + " " + MonthName(c.month) + " " + YearText(c.year)
      + " " + ZeroPad(c.hour, 2) + ":" + ZeroPad(c.minute, 2) + ":" + ZeroPad(c.second, 2)
      + " " + OffsetText(offset)
  }

  /** `$t->format('D, d M Y H:i:s O')`: the fields of `t`'s own local date and time. */
  function Format(t: DateTime): string
  {
    Render(CivilOf(t), t.offset)
  }

  // ----- the rendered fields denote the instant -----

  lemma DaysBeforeYearStep(y: int)
    ensures DaysBeforeYear(y + 1) == DaysBeforeYear(y) + YearLength(y)
  {
  }

  lemma {:induction false} YearForwardSound(y: int, d: nat)
    ensures DaysBeforeYear(YearForward(y, d).0) + YearForward(y, d).1 == DaysBeforeYear(y) + d
    decreases d
  {
    if d >= YearLength(y) {
      YearForwardSound(y + 1, d - YearLength(y));
      DaysBeforeYearStep(y);
    }
  }

  lemma {:induction false} YearBackwardSound(y: int, d: int)
    requires d < 0
    ensures DaysBeforeYear(YearBackward(y, d).0) + YearBackward(y, d).1 == DaysBeforeYear(y) + d
    decreases -d
  {
    DaysBeforeYearStep(y - 1);
    var d' := d + YearLength(y - 1);
    if d' < 0 {
      YearBackwardSound(y - 1, d');
    }
  }

  lemma {:induction false} MonthOfSound(y: int, m: int, d: nat)
    requires 1 <= m <= 12
    requires d < DaysBeforeMonth(y, 13) - DaysBeforeMonth(y, m)
    ensures DaysBeforeMonth(y, MonthOf(y, m, d).0) + MonthOf(y, m, d).1 - 1 == DaysBeforeMonth(y, m) + d
    decreases 12 - m
  {
    if d >= MonthLength(y, m) {
      MonthOfSound(y, m + 1, d - MonthLength(y, m));
    }
  }

  lemma TimeOfDaySound(secs: int)
    requires 0 <= secs < SecondsPerDay
    ensures secs / 3600 * 3600 + secs % 3600 / 60 * 60 + secs % 60 == secs
  {
  }

  /** The civil date of `CivilOf(t)` is the day that holds `t` in its offset. */
  lemma EpochDayOf(t: DateTime)
    ensures EpochDay(CivilOf(t)) == (t.stamp + t.offset) / SecondsPerDay
  {
    var day := (t.stamp + t.offset) / SecondsPerDay;
    var (y, doy) := if day >= 0 then YearForward(1970, day) else YearBackward(1970, day);
    if day >= 0 {
      YearForwardSound(1970, day);
    } else {
      YearBackwardSound(1970, day);
    }
    YearOfMonths(y);
    MonthOfSound(y, 1, doy);
  }

  /**
   * The date and time `Format` prints, read at the printed offset, are the
   * instant of the `DateTime` itself, and the printed weekday is that day's.
   */
  lemma CivilOfSound(t: DateTime)
    ensures Instant(CivilOf(t), t.offset) == t.stamp
    ensures CivilOf(t).weekday == (EpochDay(CivilOf(t)) + 4) % 7
  {
    var local := t.stamp + t.offset;
    var day, secs := local / SecondsPerDay, local % SecondsPerDay;
    EpochDayOf(t);
    TimeOfDaySound(secs);
    var c := CivilOf(t);
    assert c.hour * 3600 + c.minute * 60 + c.second == secs;
    assert day * SecondsPerDay + secs == local;
  }

  // ----- the shape of the rendered text -----

  lemma {:induction false} DigitsLength(n: nat, bound: nat, width: nat)
    requires 1 <= width && n < bound
    requires bound == if width == 1 then 10 else if width == 2 then 100 else if width == 3 then 1000 else 10000
    requires width <= 4
    ensures |Digits(n)| <= width
    decreases width
  {
    if n >= 10 {
      var w := width - 1;
      DigitsLength(n / 10, if w == 1 then 10 else if w == 2 then 100 else 1000, w);
    }
  }

  /**
   * For the years 0 to 9999 and offsets under 100 hours the rendered text has
   * the fixed width of the format, 31 characters, e.g.
   * `Thu, 01 Jan 1970 00:00:00 +0000`.
   */
  lemma FormatWidth(t: DateTime)
    requires 0 <= CivilOf(t).year <= 9999
    requires Abs(t.offset) < 100 * 3600
    ensures |Format(t)| == 31
  {
    RenderWidth(CivilOf(t), t.offset);
  }

  lemma RenderWidth(c: Civil, offset: int)
    requires ValidCivil(c)
    requires 0 <= c.year <= 9999
    requires Abs(offset) < 100 * 3600
    ensures |Render(c, offset)| == 31
  {
    var a := Abs(offset);
    DigitsLength(c.day, 100, 2);
    DigitsLength(c.hour, 100, 2);
    DigitsLength(c.minute, 100, 2);
    DigitsLength(c.second, 100, 2);
    DigitsLength(c.year, 10000, 4);
    DigitsLength(a / 3600, 100, 2);
    DigitsLength(a % 3600 / 60, 100, 2);
    assert |ZeroPad(c.day, 2)| == |ZeroPad(c.hour, 2)| == |ZeroPad(c.minute, 2)| == |ZeroPad(c.second, 2)| == 2;
    assert |YearText(c.year)| == 4;
    assert |OffsetText(offset)| == 5;
    assert |WeekdayName(c.weekday)| == 3 && |MonthName(c.month)| == 3;
  }

  /** The Unix epoch in UTC is Thursday, 1 January 1970, midnight. */
  lemma EpochCivil()
    ensures CivilOf(DateTime(0, 0)) == Civil(1970, 1, 1, 0, 0, 0, 4)
  {
    assert YearForward(1970, 0) == (1970, 0);
    assert MonthOf(1970, 1, 0) == (1, 1);
  }

  lemma YearText1970()
    ensures YearText(1970) == "1970"
  {
    assert Digits(1) == "1" && Digits(19) == "19" && Digits(197) == "197";
    assert Digits(1970) == "1970";
  }

  lemma EpochDateText()
    ensures WeekdayName(4) + ", " + ZeroPad(1, 2) + " " + MonthName(1) + " " + YearText(1970) == "Thu, 01 Jan 1970"
  {
    YearText1970();
    assert ZeroPad(1, 2) == "01";
  }

  lemma EpochTimeText(date: string)
    ensures date + " " + ZeroPad(0, 2) + ":" + ZeroPad(0, 2) + ":" + ZeroPad(0, 2) + " " + OffsetText(0)
      == date + " 00:00:00 +0000"
  {
    var zero := ZeroPad(0, 2);
    assert zero == "00";
    assert OffsetText(0) == "+0000";
  }

  lemma RenderEpoch()
    ensures Render(Civil(1970, 1, 1, 0, 0, 0, 4), 0) == "Thu, 01 Jan 1970 00:00:00 +0000"
  {
    EpochDateText();
    EpochTimeText("Thu, 01 Jan 1970");
  }

  /** The Unix epoch in UTC renders as `Thu, 01 Jan 1970 00:00:00 +0000`. */
  lemma FormatEpoch()
    ensures Format(DateTime(0, 0)) == "Thu, 01 Jan 1970 00:00:00 +0000"
  {
    EpochCivil();
    RenderEpoch();
  }
}
