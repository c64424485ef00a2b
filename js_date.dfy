/** The part of ECMAScript's Date object the dashboard relies on.

    A time value is counted in whole days since 1 January 1970: every Date the
    modelled code builds is a local midnight, so the time of day is dropped and
    the local time zone is treated as UTC. Calendar arithmetic follows the
    ECMAScript definitions of DayFromYear, MakeDay and TimeClip. */
module JsDate {

  /** 8.64e15 milliseconds, the largest time value a Date can hold, in days. */
  const MaxTimeDay: int := 100_000_000

  predicate IsLeapYear(y: int) {
    (y % 4 == 0 && y % 100 != 0) || y % 400 == 0
  }

  function DaysInYear(y: int): (r: int)
    ensures r == 365 || r == 366
    ensures r == 366 <==> IsLeapYear(y)
  {
    if IsLeapYear(y) then 366 else 365
  }

  /** Length of month `m` (0 = January, as returned by getMonth). */
  function DaysInMonth(y: int, m: int): (r: int)
    requires 0 <= m < 12
    ensures 28 <= r <= 31
  {
    if m == 1 then (if IsLeapYear(y) then 29 else 28)
    else if m == 3 || m == 5 || m == 8 || m == 10 then 30
    else 31
  }

  /** Day number of 1 January of year `y` (the closed formula of ECMA-262). */
  function DayFromYear(y: int): int {
    365 * (y - 1970) + (y - 1969) / 4 - (y - 1901) / 100 + (y - 1601) / 400
  }

  /** How the three floor terms of DayFromYear move from year `y` to `y + 1`. */
  lemma FloorTermsStep(y: int)
    ensures (y - 1968) / 4 == (y - 1969) / 4 + (if y % 4 == 0 then 1 else 0)
    ensures (y - 1900) / 100 == (y - 1901) / 100 + (if y % 100 == 0 then 1 else 0)
    ensures (y - 1600) / 400 == (y - 1601) / 400 + (if y % 400 == 0 then 1 else 0)
  {
    assert (y - 1968) % 4 == y % 4;
    assert (y - 1900) % 100 == y % 100;
    assert (y - 1600) % 400 == y % 400;
  }

  /** Consecutive years are exactly one year length apart. */
  lemma DayFromYearStep(y: int)
    ensures DayFromYear(y + 1) == DayFromYear(y) + DaysInYear(y)
  {
    FloorTermsStep(y);
  }

  lemma {:induction false} DayFromYearMonotone(a: int, b: int)
    requires a < b
    ensures DayFromYear(a + 1) <= DayFromYear(b)
    decreases b - a
  {
    DayFromYearStep(b - 1);
    if a + 1 < b {
      DayFromYearMonotone(a, b - 1);
    }
  }

  function YearUpFrom(n: int, y: int): (r: int)
    requires DayFromYear(y) <= n
    ensures DayFromYear(r) <= n < DayFromYear(r + 1)
    decreases n - DayFromYear(y)
  {
    DayFromYearStep(y);
    if n < DayFromYear(y + 1) then y else YearUpFrom(n, y + 1)
  }

  function YearDownFrom(n: int, y: int): (r: int)
    requires n < DayFromYear(y + 1)
    ensures DayFromYear(r) <= n < DayFromYear(r + 1)
    decreases DayFromYear(y + 1) - n
  {
    DayFromYearStep(y);
    if DayFromYear(y) <= n then y else YearDownFrom(n, y - 1)
  }

  /** The year that contains day `n` (YearFromTime). */
  function YearFromDay(n: int): (y: int)
    ensures DayFromYear(y) <= n < DayFromYear(y + 1)
  {
    if 0 <= n then YearUpFrom(n, 1970) else YearDownFrom(n, 1969)
  }

  lemma YearFromDayUnique(n: int, y: int)
    requires DayFromYear(y) <= n < DayFromYear(y + 1)
    ensures YearFromDay(n) == y
  {
    var z := YearFromDay(n);
    if z < y {
      DayFromYearMonotone(z, y);
    } else if y < z {
      DayFromYearMonotone(y, z);
    }
  }

  /** Days of year `y` before the first day of month `m`; MonthStart(y, 12) is the year length. */
  function MonthStart(y: int, m: int): int
    requires 0 <= m <= 12
  {
    [0, 31, 59, 90, 120, 151, 181, 212, 243, 273, 304, 334, 365][m]
      + (if 2 <= m && IsLeapYear(y) then 1 else 0)
  }

  lemma MonthStartStep(y: int, m: int)
    requires 0 <= m < 12
    ensures MonthStart(y, m + 1) == MonthStart(y, m) + DaysInMonth(y, m)
    ensures MonthStart(y, 0) == 0 && MonthStart(y, 12) == DaysInYear(y)
  {
  }

  lemma {:induction false} MonthStartMonotone(y: int, a: int, b: int)
    requires 0 <= a < b <= 12
    ensures MonthStart(y, a + 1) <= MonthStart(y, b)
    decreases b - a
  {
    MonthStartStep(y, b - 1);
    if a + 1 < b {
      MonthStartMonotone(y, a, b - 1);
    }
  }

  /** The month of year `y` holding day `w` of that year, searching down from month `m`. */
  function MonthFrom(y: int, w: int, m: int): (r: int)
    requires 0 <= m < 12 && 0 <= w < MonthStart(y, m + 1)
    ensures 0 <= r <= m && MonthStart(y, r) <= w < MonthStart(y, r + 1)
  {
    if MonthStart(y, m) <= w then m else MonthFrom(y, w, m - 1)
  }

  lemma MonthUnique(y: int, w: int, a: int, b: int)
    requires 0 <= a < 12 && 0 <= b < 12
    requires MonthStart(y, a) <= w < MonthStart(y, a + 1)
    requires MonthStart(y, b) <= w < MonthStart(y, b + 1)
    ensures a == b
  {
    if a < b {
      MonthStartMonotone(y, a, b);
    } else if b < a {
      MonthStartMonotone(y, b, a);
    }
  }

  /** A calendar date as the Date getters report it: month 0..11, day of month from 1. */
  datatype Civil = Civil(year: int, month: int, day: int)

  predicate ValidCivil(c: Civil) {
    0 <= c.month < 12 && 1 <= c.day <= DaysInMonth(c.year, c.month)
  }

  /** ECMAScript MakeDay: any month and day count, with rollover in both directions. */
  function MakeDay(year: int, month: int, date: int): int {
    var ym := year + month / 12;
    var mn := month % 12;
    DayFromYear(ym) + MonthStart(ym, mn) + date - 1
  }

  /** The day of a calendar date whose month index is 0..11, without rollover. */
  function DayOf(c: Civil): int
    requires 0 <= c.month < 12
  {
    DayFromYear(c.year) + MonthStart(c.year, c.month) + c.day - 1
  }

  /** getFullYear, getMonth and getDate of day `n`. */
  function CivilOfDay(n: int): (c: Civil)
    ensures ValidCivil(c)
    ensures DayOf(c) == n
  {
    var y := YearFromDay(n);
    var w := n - DayFromYear(y);
    DayFromYearStep(y);
    MonthStartStep(y, 11);
    assert 0 <= w < MonthStart(y, 12);
    var m := MonthFrom(y, w, 11);
    MonthStartStep(y, m);
    var day := w - MonthStart(y, m) + 1;
    Civil(y, m, day)
  }

  /** For a month index 0..11, MakeDay needs no rollover. */
  lemma MakeDayInYear(year: int, month: int, date: int)
    requires 0 <= month < 12
    ensures MakeDay(year, month, date) == DayFromYear(year) + MonthStart(year, month) + date - 1
  {
    assert month / 12 == 0 && month % 12 == month;
  }

  /** The day a valid calendar date stands for lies in its year and in its month. */
  lemma WithinYear(c: Civil)
    requires ValidCivil(c)
    ensures DayFromYear(c.year) <= DayOf(c) < DayFromYear(c.year + 1)
    ensures MonthStart(c.year, c.month) <= DayOf(c) - DayFromYear(c.year) < MonthStart(c.year, c.month + 1)
  {
    var y, m := c.year, c.month;
    MonthStartStep(y, m);
    MonthStartStep(y, 11);
    if m < 11 {
      MonthStartMonotone(y, m, 12);
    }
    DayFromYearStep(y);
  }

  /** Two valid calendar dates that stand for the same day are the same date. */
  lemma CivilUnique(a: Civil, b: Civil)
    requires ValidCivil(a) && ValidCivil(b)
    requires DayOf(a) == DayOf(b)
    ensures a == b
  {
    CivilSameYear(a, b);
    var y := a.year;
    var w := DayOf(a) - DayFromYear(y);
    WithinYear(a);
    WithinYear(b);
    MonthUnique(y, w, a.month, b.month);
  }

  lemma CivilSameYear(a: Civil, b: Civil)
    requires ValidCivil(a) && ValidCivil(b)
    requires DayOf(a) == DayOf(b)
    ensures a.year == b.year
  {
    YearOfCivil(a);
    YearOfCivil(b);
  }

  /** getFullYear of the day a valid calendar date stands for is its year. */
  lemma YearOfCivil(c: Civil)
    requires ValidCivil(c)
    ensures YearFromDay(DayOf(c)) == c.year
  {
    WithinYear(c);
    YearFromDayUnique(DayOf(c), c.year);
  }

  /** Building a valid calendar date and reading it back gives the same date. */
  lemma CivilOfMakeDay(c: Civil)
    requires ValidCivil(c)
    ensures CivilOfDay(MakeDay(c.year, c.month, c.day)) == c
  {
    var n := MakeDay(c.year, c.month, c.day);
    var d := CivilOfDay(n);
    MakeDayInYear(c.year, c.month, c.day);
    CivilUnique(d, c);
  }

  /** The day a valid calendar date stands for reads back as that date. */
  lemma CivilOfDayOf(c: Civil, n: int)
    requires ValidCivil(c) && n == DayOf(c)
    ensures CivilOfDay(n) == c
  {
    CivilUnique(CivilOfDay(n), c);
  }

  /** Reading a day's calendar date and building it again gives the same day. */
  lemma MakeDayOfCivil(n: int)
    ensures var c := CivilOfDay(n);
      MakeDay(c.year, c.month, c.day) == n
  {
    var c := CivilOfDay(n);
    MakeDayInYear(c.year, c.month, c.day);
  }

  /** Day 0 of a month is the last day of the month before it. */
  lemma MakeDayZero(year: int, month: int)
    requires 0 <= month < 12
    ensures var p := PreviousMonth(year, month);
      MakeDay(year, month, 0) == MakeDay(p.0, p.1, DaysInMonth(p.0, p.1))
      && MakeDay(year, month - 1, 1) == MakeDay(p.0, p.1, 1)
  {
    if month == 0 {
      JanuaryZero(year);
    } else {
      MakeDayInYear(year, month, 0);
      MakeDayInYear(year, month - 1, DaysInMonth(year, month - 1));
      MonthStartStep(year, month - 1);
    }
  }

  /** Day 0 of January is 31 December of the year before, and month -1 is that December. */
  lemma JanuaryZero(year: int)
    ensures MakeDay(year, 0, 0) == MakeDay(year - 1, 11, 31)
    ensures MakeDay(year, -1, 1) == MakeDay(year - 1, 11, 1)
  {
    var y := year - 1;
    MakeDayInYear(year, 0, 0);
    MakeDayInYear(y, 11, 31);
    MakeDayInYear(y, 11, 1);
    assert MakeDay(year, -1, 1) == DayFromYear(y) + MonthStart(y, 11) by {
      assert -1 / 12 == -1 && -1 % 12 == 11;
    }
    DayFromYearStep(y);
    MonthStartStep(y, 11);
  }

  /** The (year, month) before the given month. */
  function PreviousMonth(year: int, month: int): (r: (int, int))
    requires 0 <= month < 12
    ensures 0 <= r.1 < 12
  {
    if month == 0 then (year - 1, 11) else (year, month - 1)
  }

  predicate InTimeRange(n: int) {
    -MaxTimeDay <= n <= MaxTimeDay
  }

  /** A day a Date object can hold. */
  type TimeDay = n: int | InTimeRange(n)

  /** A Date object: an invalid date (time value NaN) or a local midnight. */
  datatype Date = Invalid | At(day: TimeDay)

  /** ECMAScript TimeClip: values beyond the representable range become NaN. */
  function TimeClip(n: int): (d: Date)
    ensures d.At? <==> InTimeRange(n)
    ensures d.At? ==> d.day == n
  {
    if InTimeRange(n) then At(n) else Invalid
  }

  /** `new Date(year, month, date)`; a year argument 0..99 means 1900..1999. */
  function NewDate(year: int, month: int, date: int): Date {
    var yr := if 0 <= year <= 99 then 1900 + year else year;
    TimeClip(MakeDay(yr, month, date))
  }

  /** `d.setDate(date)` on a copy of `d`: same year and month, day of month replaced. */
  function SetDate(d: Date, date: int): Date {
    match d
    case Invalid => Invalid
    case At(n) =>
      var c := CivilOfDay(n);
      TimeClip(MakeDay(c.year, c.month, date))
  }

  /** `d.setDate(d.getDate() + k)` moves a date by `k` calendar days. */
  function AddDays(d: Date, k: int): Date {
    match d
    case Invalid => Invalid
    case At(n) => SetDate(d, CivilOfDay(n).day + k)
  }

  /** From year 100 on, the constructor rebuilds a day from its calendar date. */
  lemma NewDateOfCivil(n: TimeDay)
    requires CivilOfDay(n).year >= 100
    ensures var c := CivilOfDay(n);
      NewDate(c.year, c.month, c.day) == At(n)
  {
    MakeDayOfCivil(n);
  }

  lemma AddDaysShifts(n: TimeDay, k: int)
    ensures AddDays(At(n), k) == TimeClip(n + k)
  {
    var c := CivilOfDay(n);
    MakeDayInYear(c.year, c.month, c.day + k);
  }
}
