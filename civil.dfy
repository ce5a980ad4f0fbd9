/** The proleptic Gregorian calendar as JavaScript's Date uses it in UTC: an instant is a
    whole number of milliseconds since 1970-01-01T00:00:00Z, and getUTCFullYear, getUTCMonth,
    getUTCDate, getUTCHours, getUTCMinutes and getUTCSeconds read off its civil parts. */
module CivilTime {

  const MsPerSecond: int := 1000
  const MsPerMinute: int := 60_000
  const MsPerHour: int := 3_600_000
  const MsPerDay: int := 86_400_000

  predicate IsLeapYear(y: int) {
    y % 4 == 0 && (y % 100 != 0 || y % 400 == 0)
  }

  function DaysInYear(y: int): int {
    if IsLeapYear(y) then 366 else 365
  }

  function DaysInMonth(y: int, m: int): int
    requires 1 <= m <= 12
  {
    if m == 2 then (if IsLeapYear(y) then 29 else 28)
    else if m == 4 || m == 6 || m == 9 || m == 11 then 30
    else 31
  }

  /** Days of year y that lie before the first of month m (m == 13 stands for the next year). */
  function DaysBeforeMonth(y: int, m: int): (r: int)
    requires 1 <= m <= 13
    ensures m == 1 ==> r == 0
    ensures m == 13 ==> r == DaysInYear(y)
  {
    var leap := if m > 2 && IsLeapYear(y) then 1 else 0;
    leap + (
      if m == 1 then 0 else if m == 2 then 31 else if m == 3 then 59 else if m == 4 then 90
      else if m == 5 then 120 else if m == 6 then 151 else if m == 7 then 181 else if m == 8 then 212
      else if m == 9 then 243 else if m == 10 then 273 else if m == 11 then 304 else if m == 12 then 334
      else 365)
  }

  lemma DaysBeforeMonthStep(y: int, m: int)
    requires 1 <= m <= 12
    ensures DaysBeforeMonth(y, m) + DaysInMonth(y, m) == DaysBeforeMonth(y, m + 1)
  {
  }

  /** Days from 1970-01-01 to the first of January of year y (negative before 1970). */
  function DaysBeforeYear(y: int): int
    decreases if y < 1970 then 1970 - y else y - 1970
  {
    if y == 1970 then 0
    else if y > 1970 then DaysBeforeYear(y - 1) + DaysInYear(y - 1)
    else DaysBeforeYear(y + 1) - DaysInYear(y)
  }

  lemma DaysBeforeYearStep(y: int)
    ensures DaysBeforeYear(y + 1) == DaysBeforeYear(y) + DaysInYear(y)
  {
  }

  /** Years are ordered by their first days. */
  lemma {:induction false} DaysBeforeYearMonotone(a: int, b: int)
    requires a < b
    ensures DaysBeforeYear(a) + DaysInYear(a) <= DaysBeforeYear(b)
    decreases b - a
  {
    DaysBeforeYearStep(a);
    if a + 1 < b {
      DaysBeforeYearMonotone(a + 1, b);
    }
  }

  /** The year whose days contain `days`, searching upwards from y. */
  function YearUp(days: int, y: int): (r: int)
    requires DaysBeforeYear(y) <= days
    ensures DaysBeforeYear(r) <= days < DaysBeforeYear(r) + DaysInYear(r)
    decreases days - DaysBeforeYear(y)
  {
    DaysBeforeYearStep(y);
    if days < DaysBeforeYear(y) + DaysInYear(y) then y else YearUp(days, y + 1)
  }

  /** The year whose days contain `days`, searching downwards from y. */
  function YearDown(days: int, y: int): (r: int)
    requires days < DaysBeforeYear(y) + DaysInYear(y)
    ensures DaysBeforeYear(r) <= days < DaysBeforeYear(r) + DaysInYear(r)
    decreases DaysBeforeYear(y) + DaysInYear(y) - days
  {
    DaysBeforeYearStep(y - 1);
    if DaysBeforeYear(y) <= days then y else YearDown(days, y - 1)
  }

  /** The year that day number `days` (counted from 1970-01-01) falls in. */
  function YearOfDay(days: int): (y: int)
    ensures DaysBeforeYear(y) <= days < DaysBeforeYear(y) + DaysInYear(y)
  {
    if days >= 0 then YearUp(days, 1970) else YearDown(days, 1969)
  }

  /** The month that day `doy` (0-based) of year y falls in, searching upwards from m. */
  function MonthFrom(y: int, doy: int, m: int): (r: int)
    requires 1 <= m <= 12 && DaysBeforeMonth(y, m) <= doy < DaysInYear(y)
    ensures m <= r <= 12 && DaysBeforeMonth(y, r) <= doy < DaysBeforeMonth(y, r + 1)
    decreases 12 - m
  {
    DaysBeforeMonthStep(y, m);
    if doy < DaysBeforeMonth(y, m + 1) then m else MonthFrom(y, doy, m + 1)
  }

  datatype Date = Date(year: int, month: int, day: int)

  predicate ValidDate(d: Date) {
    1 <= d.month <= 12 && 1 <= d.day <= DaysInMonth(d.year, d.month)
  }

  /** Day number (days since 1970-01-01) of a calendar date. */
  function DaysFromCivil(d: Date): int
    requires 1 <= d.month <= 12
  {
    DaysBeforeYear(d.year) + DaysBeforeMonth(d.year, d.month) + d.day - 1
  }

  /** The calendar date of a day number; it is a valid date and names that same day. */
  function CivilFromDays(days: int): (d: Date)
    ensures ValidDate(d)
    ensures DaysFromCivil(d) == days
  {
    var y := YearOfDay(days);
    var doy := days - DaysBeforeYear(y);
    assert 0 <= doy < DaysInYear(y);
    var m := MonthFrom(y, doy, 1);
    DaysBeforeMonthStep(y, m);
    Date(y, m, doy - DaysBeforeMonth(y, m) + 1)
  }

  /** Only one year contains a given day. */
  lemma YearUnique(days: int, a: int, b: int)
    requires DaysBeforeYear(a) <= days < DaysBeforeYear(a) + DaysInYear(a)
    requires DaysBeforeYear(b) <= days < DaysBeforeYear(b) + DaysInYear(b)
    ensures a == b
  {
    if a < b {
      DaysBeforeYearMonotone(a, b);
    } else if b < a {
      DaysBeforeYearMonotone(b, a);
    }
  }

  /** Only one month contains a given day of the year. */
  lemma MonthUnique(y: int, doy: int, a: int, b: int)
    requires 1 <= a <= 12 && DaysBeforeMonth(y, a) <= doy < DaysBeforeMonth(y, a + 1)
    requires 1 <= b <= 12 && DaysBeforeMonth(y, b) <= doy < DaysBeforeMonth(y, b + 1)
    ensures a == b
  {
  }

  /** The day number of a valid date falls within its year and within its month. */
  lemma DateBounds(d: Date)
    requires ValidDate(d)
    ensures var doy := DaysFromCivil(d) - DaysBeforeYear(d.year);
      && DaysBeforeMonth(d.year, d.month) <= doy < DaysBeforeMonth(d.year, d.month + 1)
      && 0 <= doy < DaysInYear(d.year)
  {
    DaysBeforeMonthStep(d.year, d.month);
    assert DaysBeforeMonth(d.year, d.month + 1) <= DaysInYear(d.year);
  }

  /** Two valid dates with the same day number are the same date. */
  lemma DaysFromCivilInjective(d: Date, e: Date)
    requires ValidDate(d) && ValidDate(e) && DaysFromCivil(d) == DaysFromCivil(e)
    ensures d == e
  {
    var days := DaysFromCivil(d);
    DateBounds(d);
    DateBounds(e);
    YearUnique(days, e.year, d.year);
    MonthUnique(d.year, days - DaysBeforeYear(d.year), e.month, d.month);
  }

  /** The two conversions are inverse: every valid date is the date of its own day number. */
  lemma CivilRoundTrip(d: Date)
    requires ValidDate(d)
    ensures CivilFromDays(DaysFromCivil(d)) == d
  {
    DaysFromCivilInjective(d, CivilFromDays(DaysFromCivil(d)));
  }

  /** The UTC civil parts of an instant, as the getUTC* accessors of Date report them
      (month 1-based here; the source adds 1 to getUTCMonth). */
  datatype DateTime = DateTime(date: Date, hour: int, minute: int, second: int)

  /** Floor division throughout, so instants before 1970 fall in the right second and day. */
  function UtcParts(ms: int): (t: DateTime)
    ensures ValidDate(t.date)
    ensures 0 <= t.hour < 24 && 0 <= t.minute < 60 && 0 <= t.second < 60
  {
    var secs := ms / 1000;
    var mins := secs / 60;
    var hours := mins / 60;
    DateTime(CivilFromDays(hours / 24), hours % 24, mins % 60, secs % 60)
  }

  /** The instant, in milliseconds, at which the given civil second begins. */
  function EpochMs(t: DateTime): int
    requires 1 <= t.date.month <= 12
  {
    DayTimeMs(DaysFromCivil(t.date), t.hour, t.minute, t.second)
  }

  /** The instant at which a second, given by its day number and time of day, begins. */
  function DayTimeMs(days: int, hour: int, minute: int, second: int): int {
    (((days * 24 + hour) * 60 + minute) * 60 + second) * 1000
  }

  /** The civil parts of an instant name the second that contains it. */
  lemma UtcPartsSecond(ms: int)
    ensures EpochMs(UtcParts(ms)) == ms - ms % 1000
  {
    var secs := ms / 1000;
    var mins := secs / 60;
    var hours := mins / 60;
    var t := UtcParts(ms);
    assert DaysFromCivil(t.date) == hours / 24;
    assert (hours / 24) * 24 + hours % 24 == hours;
    assert hours * 60 + mins % 60 == mins;
    assert mins * 60 + secs % 60 == secs;
    assert secs * 1000 == ms - ms % 1000;
  }

  /** Dividing q * b + r by b, with r in range, gives back q and r. */
  lemma DivModOf(q: int, r: int, b: int)
    requires b == 1000 || b == 60 || b == 24
    requires 0 <= r < b
    ensures (q * b + r) / b == q && (q * b + r) % b == r
  {
  }

  /** The UTC parts of the start of a second given by its day number and time of day. */
  lemma UtcPartsOfDay(days: int, hour: int, minute: int, second: int)
    requires 0 <= hour < 24 && 0 <= minute < 60 && 0 <= second < 60
    ensures UtcParts(DayTimeMs(days, hour, minute, second)) == DateTime(CivilFromDays(days), hour, minute, second)
  {
    var hours := days * 24 + hour;
    var mins := hours * 60 + minute;
    var secs := mins * 60 + second;
    DivModOf(secs, 0, 1000);
    DivModOf(mins, second, 60);
    DivModOf(hours, minute, 60);
    DivModOf(days, hour, 24);
  }

  /** The civil parts of the start of a civil second are that second. */
  lemma UtcPartsOfCivil(t: DateTime)
    requires ValidDate(t.date)
    requires 0 <= t.hour < 24 && 0 <= t.minute < 60 && 0 <= t.second < 60
    ensures UtcParts(EpochMs(t)) == t
  {
    UtcPartsOfDay(DaysFromCivil(t.date), t.hour, t.minute, t.second);
    CivilRoundTrip(t.date);
  }
}
