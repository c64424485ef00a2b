/** Date-range presets and range arithmetic (app/utils/dateUtils.js).
    "Today" is the clock's current local calendar day, passed in as a day number. */
module DateUtils {
  import opened Wrappers
  import opened JsDate

  /** `{ start, end, _variation }`; a missing property is None. */
  datatype DateRange = DateRange(start: Option<Date>, end: Option<Date>, variation: Option<real>)

  function Range(start: Date, end: Date): DateRange {
    DateRange(Some(start), Some(end), None)
  }

  const TodayId := "today"
  const YesterdayId := "yesterday"
  const LastWeekId := "last_week"
  const ThisMonthId := "this_month"
  const Last7DaysId := "last_7_days"
  const LastMonthId := "last_month"

  predicate IsPresetId(id: string) {
    id in {TodayId, YesterdayId, LastWeekId, ThisMonthId, Last7DaysId, LastMonthId}
  }

  /** A clock reading the Date functions can work from: on or after 1 January of
      year 100 (so the constructor's 0..99 year mapping never applies to it) and
      within the representable range. */
  predicate ClockDay(now: int) {
    DayFromYear(100) <= now <= MaxTimeDay
  }

  /** getPresetDateRange: the range a named preset stands for, relative to day `now`. */
  function PresetDateRange(presetId: string, now: int): DateRange {
    var c := CivilOfDay(now);
    var startOfToday := NewDate(c.year, c.month, c.day);
    if presetId == TodayId then
      Range(startOfToday, startOfToday)
    else if presetId == YesterdayId then
      var yesterday := AddDays(startOfToday, -1);
      Range(yesterday, yesterday)
    else if presetId == LastWeekId then
      Range(AddDays(startOfToday, -6), startOfToday)
    else if presetId == ThisMonthId then
      Range(NewDate(c.year, c.month, 1), startOfToday)
    else if presetId == Last7DaysId then
      Range(AddDays(startOfToday, -6), startOfToday)
    else if presetId == LastMonthId then
      Range(NewDate(c.year, c.month - 1, 1), NewDate(c.year, c.month, 0))
    else
      Range(NewDate(c.year, c.month, 1), startOfToday)
  }

  /** The clock's calendar date has a year of at least 100 and its midnight is representable. */
  lemma ClockFacts(now: int)
    requires ClockDay(now)
    ensures CivilOfDay(now).year >= 100
    ensures InTimeRange(now - 62)
    ensures NewDate(CivilOfDay(now).year, CivilOfDay(now).month, CivilOfDay(now).day) == At(now)
  {
    var c := CivilOfDay(now);
    MakeDayOfCivil(now);
    if c.year < 100 {
      DayFromYearMonotone(c.year, 100);
    }
  }

  lemma PresetToday(now: int)
    requires ClockDay(now)
    ensures PresetDateRange(TodayId, now) == Range(At(now), At(now))
  {
    ClockFacts(now);
  }

  lemma PresetYesterday(now: int)
    requires ClockDay(now)
    ensures PresetDateRange(YesterdayId, now) == Range(At(now - 1), At(now - 1))
  {
    ClockFacts(now);
    AddDaysShifts(now, -1);
  }

  /** "last_week" and "last_7_days" are the same seven days ending today. */
  lemma PresetLastSevenDays(now: int)
    requires ClockDay(now)
    ensures PresetDateRange(LastWeekId, now) == Range(At(now - 6), At(now))
    ensures PresetDateRange(Last7DaysId, now) == Range(At(now - 6), At(now))
  {
    ClockFacts(now);
    AddDaysShifts(now, -6);
  }

  /** "this_month" and every unknown id run from the 1st of the current month to today. */
  lemma PresetThisMonth(presetId: string, now: int)
    requires ClockDay(now)
    requires presetId == ThisMonthId || !IsPresetId(presetId)
    ensures var c := CivilOfDay(now);
      PresetDateRange(presetId, now) == Range(At(now - c.day + 1), At(now))
      && CivilOfDay(now - c.day + 1) == Civil(c.year, c.month, 1)
  {
    ClockFacts(now);
    FirstOfMonth(now);
  }

  /** The 1st of the clock's month lies `day - 1` days before it. */
  lemma FirstOfMonth(now: int)
    requires ClockDay(now)
    ensures var c := CivilOfDay(now);
      NewDate(c.year, c.month, 1) == At(now - c.day + 1)
      && CivilOfDay(now - c.day + 1) == Civil(c.year, c.month, 1)
  {
    ClockFacts(now);
    var c := CivilOfDay(now);
    MakeDayInYear(c.year, c.month, 1);
    MakeDayInYear(c.year, c.month, c.day);
    var first := now - c.day + 1;
    assert MakeDay(c.year, c.month, 1) == first;
    assert InTimeRange(first);
    CivilOfMakeDay(Civil(c.year, c.month, 1));
  }

  /** "last_month" runs from the 1st to the last day of the previous calendar month. */
  lemma PresetLastMonth(now: int)
    requires ClockDay(now)
    ensures var c := CivilOfDay(now);
      var p := PreviousMonth(c.year, c.month);
      var last := now - c.day;
      var first := last - DaysInMonth(p.0, p.1) + 1;
      PresetDateRange(LastMonthId, now) == Range(At(first), At(last))
      && first == DayOf(Civil(p.0, p.1, 1))
      && last == DayOf(Civil(p.0, p.1, DaysInMonth(p.0, p.1)))
      && first <= last < now
  {
    LastMonthRange(now);
    PreviousMonthOfClock(now);
  }

  lemma LastMonthRange(now: int)
    ensures var c := CivilOfDay(now);
      PresetDateRange(LastMonthId, now) == Range(NewDate(c.year, c.month - 1, 1), NewDate(c.year, c.month, 0))
  {
  }

  /** The previous calendar month ends the day before the 1st of the clock's month. */
  lemma PreviousMonthOfClock(now: int)
    requires ClockDay(now)
    ensures var c := CivilOfDay(now);
      var p := PreviousMonth(c.year, c.month);
      var last := now - c.day;
      var first := last - DaysInMonth(p.0, p.1) + 1;
      NewDate(c.year, c.month - 1, 1) == At(first) && NewDate(c.year, c.month, 0) == At(last)
      && first == DayOf(Civil(p.0, p.1, 1))
      && last == DayOf(Civil(p.0, p.1, DaysInMonth(p.0, p.1)))
  {
    ClockFacts(now);
    PreviousMonthDates(CivilOfDay(now), now);
  }

  /** The constructor calls for the previous month, for a date `n` from year 100 on,
      and the day numbers of that month's first and last day. */
  lemma PreviousMonthDates(c: Civil, n: int)
    requires ValidCivil(c) && c.year >= 100 && n == DayOf(c)
    requires InTimeRange(n) && InTimeRange(n - 62)
    ensures var p := PreviousMonth(c.year, c.month);
      NewDate(c.year, c.month - 1, 1) == At(n - c.day - DaysInMonth(p.0, p.1) + 1)
      && NewDate(c.year, c.month, 0) == At(n - c.day)
      && n - c.day - DaysInMonth(p.0, p.1) + 1 == DayOf(Civil(p.0, p.1, 1))
      && n - c.day == DayOf(Civil(p.0, p.1, DaysInMonth(p.0, p.1)))
  {
    var p := PreviousMonth(c.year, c.month);
    PreviousMonthDays(c);
    MakeDayInYear(c.year, c.month, c.day);
    MakeDayInYear(p.0, p.1, 1);
    MakeDayInYear(p.0, p.1, DaysInMonth(p.0, p.1));
  }

  /** Day 0 of a date's month, and day 1 of month - 1, in terms of the date's own day. */
  lemma PreviousMonthDays(c: Civil)
    requires ValidCivil(c)
    ensures var p := PreviousMonth(c.year, c.month);
      var n := MakeDay(c.year, c.month, c.day);
      MakeDay(c.year, c.month, 0) == n - c.day
      && MakeDay(p.0, p.1, DaysInMonth(p.0, p.1)) == n - c.day
      && MakeDay(c.year, c.month - 1, 1) == n - c.day - DaysInMonth(p.0, p.1) + 1
      && MakeDay(p.0, p.1, 1) == n - c.day - DaysInMonth(p.0, p.1) + 1
  {
    var p := PreviousMonth(c.year, c.month);
    MakeDayZero(c.year, c.month);
    MakeDayInYear(c.year, c.month, 0);
    MakeDayInYear(c.year, c.month, c.day);
    MakeDayInYear(p.0, p.1, 1);
    MakeDayInYear(p.0, p.1, DaysInMonth(p.0, p.1));
  }

  /** Every preset, and the fallback, yields two valid dates with start <= end <= today,
      starting at most 61 days back (the 1st of last month). */
  lemma PresetOrdered(presetId: string, now: int)
    requires ClockDay(now)
    ensures var r := PresetDateRange(presetId, now);
      r.start.Some? && r.end.Some? && r.start.value.At? && r.end.value.At?
      && now - 61 <= r.start.value.day <= r.end.value.day <= now
  {
    if presetId == TodayId {
      PresetToday(now);
    } else if presetId == YesterdayId {
      PresetYesterday(now);
    } else if presetId == LastWeekId || presetId == Last7DaysId {
      PresetLastSevenDays(now);
    } else if presetId == LastMonthId {
      PresetLastMonth(now);
    } else {
      PresetThisMonth(presetId, now);
    }
  }

  /** isValidDate for Date values: false for a missing value or an invalid date. */
  function IsValidDate(d: Option<Date>): (b: bool)
    ensures b <==> d.Some? && d.value.At?
  {
    match d
    case None => false
    case Some(Invalid) => false
    case Some(At(_)) => true
  }

  function Abs(x: int): nat {
    if x < 0 then -x else x
  }

  /** getDateRangeDuration: inclusive length in days, 0 when an endpoint is missing or invalid. */
  function DateRangeDuration(r: DateRange): (n: nat)
    ensures !IsValidDate(r.start) || !IsValidDate(r.end) ==> n == 0
    ensures IsValidDate(r.start) && IsValidDate(r.end) ==>
      n >= 1 && n == Abs(r.end.value.day - r.start.value.day) + 1
  {
    if r.start.None? || r.end.None? then 0
    else if !IsValidDate(r.start) || !IsValidDate(r.end) then 0
    else Abs(r.end.value.day - r.start.value.day) + 1
  }

  lemma DurationSymmetric(a: Option<Date>, b: Option<Date>, v: Option<real>, w: Option<real>)
    ensures DateRangeDuration(DateRange(a, b, v)) == DateRangeDuration(DateRange(b, a, w))
  {
  }

  /** getPreviousPeriodRange: the equally long period ending the day before `r` starts. */
  function PreviousPeriodRange(r: DateRange): (p: Option<DateRange>)
    ensures p.None? <==> r.start.None? || r.end.None?
    ensures p.Some? ==> p.value.start.Some? && p.value.end.Some? && p.value.variation.None?
  {
    if r.start.None? || r.end.None? then None
    else
      var duration := DateRangeDuration(r);
      var previousEnd := AddDays(r.start.value, -1);
      var previousStart := AddDays(previousEnd, 1 - duration);
      Some(Range(previousStart, previousEnd))
  }

  /** dateRangesOverlap: both ranges fully present and valid, and each starts no later than the other ends. */
  function DateRangesOverlap(r1: DateRange, r2: DateRange): bool {
    if r1.start.None? || r1.end.None? || r2.start.None? || r2.end.None? then false
    else if !(r1.start.value.At? && r1.end.value.At? && r2.start.value.At? && r2.end.value.At?) then false
    else r1.start.value.day <= r2.end.value.day && r2.start.value.day <= r1.end.value.day
  }

  lemma OverlapSymmetric(r1: DateRange, r2: DateRange)
    ensures DateRangesOverlap(r1, r2) == DateRangesOverlap(r2, r1)
  {
  }

  lemma OverlapMissing(r1: DateRange, r2: DateRange)
    requires r1.start.None? || r1.end.None? || r2.start.None? || r2.end.None?
    ensures !DateRangesOverlap(r1, r2)
  {
  }

  lemma OverlapSelf(r: DateRange)
    requires IsValidDate(r.start) && IsValidDate(r.end)
    ensures DateRangesOverlap(r, r) <==> r.start.value.day <= r.end.value.day
  {
  }

  /** For a valid range whose previous period is representable: the previous period
      ends the day before the range starts, lasts as many days, and does not overlap it. */
  lemma PreviousPeriodProperties(r: DateRange)
    requires IsValidDate(r.start) && IsValidDate(r.end)
    requires InTimeRange(r.start.value.day - 1 - Abs(r.end.value.day - r.start.value.day))
    ensures var p := PreviousPeriodRange(r).value;
      p.end == Some(At(r.start.value.day - 1))
      && p.start == Some(At(r.start.value.day - DateRangeDuration(r)))
      && DateRangeDuration(p) == DateRangeDuration(r)
      && !DateRangesOverlap(p, r)
  {
    PreviousPeriodBounds(r);
  }

  lemma PreviousPeriodBounds(r: DateRange)
    requires IsValidDate(r.start) && IsValidDate(r.end)
    requires InTimeRange(r.start.value.day - 1 - Abs(r.end.value.day - r.start.value.day))
    ensures var s := r.start.value.day;
      DateRangeDuration(r) == Abs(r.end.value.day - s) + 1
      && PreviousPeriodRange(r) == Some(Range(At(s - DateRangeDuration(r)), At(s - 1)))
  {
    var s := r.start.value.day;
    var duration: int := DateRangeDuration(r);
    assert duration == Abs(r.end.value.day - s) + 1;
    AddDaysShifts(s, -1);
    assert AddDays(r.start.value, -1) == At(s - 1);
    AddDaysShifts(s - 1, 1 - duration);
    assert AddDays(At(s - 1), 1 - duration) == At(s - duration);
  }

  /** A start or end that is an invalid date gives an invalid or inverted previous period. */
  lemma PreviousPeriodInvalidStart(r: DateRange)
    requires r.start == Some(Invalid) && r.end.Some?
    ensures PreviousPeriodRange(r) == Some(Range(Invalid, Invalid))
  {
  }

  /** addDateRangeVariation: the same range with a fresh `_variation` token. */
  function AddDateRangeVariation(r: DateRange, random: real): (v: DateRange)
    ensures v.start == r.start && v.end == r.end
    ensures v.variation == Some(random)
  {
    r.(variation := Some(random))
  }
}
