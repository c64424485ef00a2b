/** The date-range picker component: its own preset table, the `dd/mm/yyyy`
    text it shows for a date, and the editing state it keeps while the picker
    is open (`tempRange`), which the two text fields overwrite one end at a time. */
module DateRangeControls {
  import opened Wrappers
  import opened JsText
  import opened JsDate
  import opened DateUtils
  import Formatters

  /** getPresetRange: the component's switch over the preset ids, relative to day `now`. */
  function GetPresetRange(presetId: string, now: int): (r: DateRange)
    ensures r.variation.None? && r.start.Some? && r.end.Some?
  {
    var c := CivilOfDay(now);
    var startOfToday := NewDate(c.year, c.month, c.day);
    match presetId
    case "today" => Range(startOfToday, startOfToday)
    case "yesterday" =>
      var y := SetDate(startOfToday, CivilOfDay(now).day - 1);
      Range(y, y)
    case "last_week" =>
      var end := startOfToday;
      Range(AddDays(end, -6), end)
    case "this_month" => Range(NewDate(c.year, c.month, 1), startOfToday)
    case "last_7_days" =>
      var end := startOfToday;
      Range(AddDays(end, -6), end)
    case "last_month" => Range(NewDate(c.year, c.month - 1, 1), NewDate(c.year, c.month, 0))
    case _ => Range(NewDate(c.year, c.month, 1), startOfToday)
  }

  /** The component's presets are the shared utility's presets, id for id, for any clock
      reading the Date functions can hold. */
  lemma GetPresetRangeAgrees(presetId: string, now: int)
    requires ClockDay(now)
    ensures GetPresetRange(presetId, now) == PresetDateRange(presetId, now)
  {
    if IsPresetId(presetId) {
      AgreesOnPreset(presetId, now);
    } else {
      AgreesOnFallback(presetId, now);
    }
  }

  lemma AgreesOnPreset(presetId: string, now: int)
    requires ClockDay(now) && IsPresetId(presetId)
    ensures GetPresetRange(presetId, now) == PresetDateRange(presetId, now)
  {
    ClockFacts(now);
  }

  lemma AgreesOnFallback(presetId: string, now: int)
    requires !IsPresetId(presetId)
    ensures GetPresetRange(presetId, now) == PresetDateRange(presetId, now)
  {
  }

  /** Every preset is a valid range that ends no later than today. */
  lemma PresetRangeOrdered(presetId: string, now: int)
    requires ClockDay(now)
    ensures var r := GetPresetRange(presetId, now);
      r.start.value.At? && r.end.value.At? && r.start.value.day <= r.end.value.day <= now
  {
    GetPresetRangeAgrees(presetId, now);
    PresetOrdered(presetId, now);
  }

  /** Every getter of an invalid date gives NaN, which padding leaves as "NaN". */
  const NaNField := "NaN"

  /** toInputValue: `dd/mm/yyyy`; an invalid date reads "NaN" in every field. */
  function ToInputValue(d: Date): (r: string)
    ensures d.Invalid? ==> r == "NaN/NaN/NaN"
  {
    match d
    case Invalid => NaNField + "/" + NaNField + "/" + NaNField
    case At(n) => Formatters.CivilText(CivilOfDay(n))
  }

  /** The date setStart and setEnd build from the typed text: the text is split on
      '/', a missing part is `undefined` (NaN), and `new Date(yyyy, mm - 1, dd)` is
      built with no range check, so any NaN part gives an invalid date. */
  function ParseLoose(value: string): (d: Date)
    ensures |Split(value, '/')| < 3 ==> d.Invalid?
  {
    LooseFields(Split(value, '/'))
  }

  /** `new Date(Number(yyyy), Number(mm) - 1, Number(dd))` over the split parts. */
  function LooseFields(parts: seq<string>): (d: Date)
    requires |parts| >= 1
    ensures |parts| < 3 ==> d.Invalid?
  {
    var dd := JsNumber(parts[0]);
    var mm := if |parts| > 1 then JsNumber(parts[1]) else None;
    var yyyy := if |parts| > 2 then JsNumber(parts[2]) else None;
    if dd.None? || mm.None? || yyyy.None? then Invalid
    else NewDate(yyyy.value, mm.value - 1, dd.value)
  }

  /** Whatever the strict parser accepts, the text fields read as the same date. */
  lemma ParseLooseExtendsStrict(value: string)
    requires Formatters.ParseInputDate(value).Some?
    ensures ParseLoose(value) == Formatters.ParseInputDate(value).value
  {
  }

  /** The text the component shows for a valid date is the formatter's text. */
  lemma ToInputValueAgrees(n: TimeDay)
    ensures ToInputValue(At(n)) == Formatters.FormatDateForInput(Some(At(n)))
  {
  }

  /** The text the component shows for a date from year 100 on reads back as that date. */
  lemma InputValueRoundTrip(n: TimeDay)
    requires CivilOfDay(n).year >= 100
    ensures ParseLoose(ToInputValue(At(n))) == At(n)
  {
    ReadBackFields(n);
    NewDateOfCivil(n);
  }

  /** The shown text splits back into the date's day, month and year numbers. */
  lemma ReadBackFields(n: TimeDay)
    requires CivilOfDay(n).year >= 100
    ensures var c := CivilOfDay(n);
      ParseLoose(ToInputValue(At(n))) == NewDate(c.year, c.month, c.day)
  {
    var c := CivilOfDay(n);
    var year: nat := c.year;
    var dd, mm, yy := Pad2(c.day), Pad2(c.month + 1), NatToString(year);
    Formatters.SplitDayMonthYear(c.day, c.month + 1, year);
    assert ToInputValue(At(n)) == Formatters.DayMonthYear(c.day, c.month + 1, year);
    DigitsValueOfPad2(c.day);
    DigitsValueOfPad2(c.month + 1);
    DigitsValueOfNatToString(year);
    LooseFieldsOfNumbers([dd, mm, yy], c.day, c.month + 1, year);
  }

  lemma LooseFieldsOfNumbers(parts: seq<string>, day: int, month: int, year: int)
    requires |parts| == 3
    requires JsNumber(parts[0]) == Some(day) && JsNumber(parts[1]) == Some(month)
    requires JsNumber(parts[2]) == Some(year)
    ensures LooseFields(parts) == NewDate(year, month - 1, day)
  {
  }

  /** The text shown for an invalid date reads back as an invalid date. */
  lemma InvalidInputRoundTrip()
    ensures ParseLoose(ToInputValue(Invalid)) == Invalid
  {
    NaNIsNotNumber();
    assert '/' !in NaNField;
    SplitRepeated(NaNField);
  }

  /** A text without '/' written three times between slashes splits back into the three copies. */
  lemma SplitRepeated(s: string)
    requires '/' !in s
    ensures Split(s + "/" + s + "/" + s, '/') == [s, s, s]
  {
    Formatters.JoinThree(s, s, s, '/');
    SplitJoin([s, s, s], '/');
  }

  /** `Number("NaN")` is NaN. */
  lemma NaNIsNotNumber()
    ensures JsNumber("NaN") == None
  {
    assert !IsDigit("NaN"[0]);
    assert !IsDigit("aN"[0]);
  }

  /** Unlike the strict parser, the text fields let an impossible day and month
      roll over: `32/13/2024` is the 1st of February 2025. */
  lemma LooseParseRollsOver()
    ensures Formatters.ParseInputDate("32/13/2024").None?
    ensures ParseLoose("32/13/2024").At?
    ensures CivilOfDay(ParseLoose("32/13/2024").day) == Civil(2025, 1, 1)
  {
    Formatters.ParseRejectsOutOfRange();
    ThirtySecondOfThirteenth();
    FirstOfFebruary();
  }

  lemma ThirtySecondOfThirteenth()
    ensures ParseLoose("32/13/2024") == NewDate(2024, 12, 32)
  {
    var v := "32/13/2024";
    assert v == "32" + "/" + "13" + "/" + "2024";
    Formatters.SplitSlashed("32", "13", "2024");
    assert Split(v, '/') == ["32", "13", "2024"];
    Formatters.DigitsOfThirtyTwo();
    ThirteenAndYear();
    LooseFieldsOfNumbers(["32", "13", "2024"], 32, 13, 2024);
  }

  lemma ThirteenAndYear()
    ensures JsNumber("13") == Some(13) && JsNumber("2024") == Some(2024)
  {
    assert DigitsValue("13") == 13 by { assert "13"[..1] == "1"; }
    assert DigitsValue("2024") == 2024 by {
      assert "2024"[..3] == "202" && "202"[..2] == "20" && "20"[..1] == "2";
    }
  }

  lemma FirstOfFebruary()
    ensures NewDate(2024, 12, 32).At?
    ensures CivilOfDay(NewDate(2024, 12, 32).day) == Civil(2025, 1, 1)
  {
    assert MakeDay(2024, 12, 32) == 20120 by {
      assert 12 / 12 == 1 && 12 % 12 == 0;
      assert DayFromYear(2025) == 20089;
      assert MonthStart(2025, 0) == 0;
    }
    assert MakeDay(2025, 1, 1) == 20120 by {
      assert DayFromYear(2025) == 20089;
      assert MonthStart(2025, 1) == 31;
    }
    assert NewDate(2024, 12, 32) == At(20120);
    FebruaryCivil();
  }

  lemma FebruaryCivil()
    ensures CivilOfDay(20120) == Civil(2025, 1, 1)
  {
    var c := Civil(2025, 1, 1);
    assert ValidCivil(c);
    assert MakeDay(2025, 1, 1) == 20120 by {
      assert DayFromYear(2025) == 20089;
      assert MonthStart(2025, 1) == 31;
    }
    CivilOfMakeDay(c);
  }

  /** The picker's editing state: the range being edited before it is applied. */
  class RangeEditor {
    var tempRange: DateRange

    /** The editing state starts as the range the page has selected. */
    constructor(selectedDates: DateRange)
      ensures tempRange == selectedDates
    {
      tempRange := selectedDates;
    }

    /** applyPreset: the editing state becomes the preset's range. */
    method ApplyPreset(presetId: string, now: int)
      modifies this
      ensures tempRange == GetPresetRange(presetId, now)
    {
      tempRange := GetPresetRange(presetId, now);
    }

    /** commit: the range handed to onChange and onApply is the editing state. */
    method Commit() returns (r: DateRange)
      ensures r == tempRange
    {
      r := tempRange;
    }

    /** cancel: the editing state goes back to the selected range. */
    method Cancel(selectedDates: DateRange)
      modifies this
      ensures tempRange == selectedDates
    {
      tempRange := selectedDates;
    }

    /** setStart: only the start is replaced, by the date the text reads as. */
    method SetStart(value: string)
      modifies this
      ensures tempRange == old(tempRange).(start := Some(ParseLoose(value)))
      ensures tempRange.end == old(tempRange.end) && tempRange.variation == old(tempRange.variation)
    {
      var d := ParseLoose(value);
      tempRange := tempRange.(start := Some(d));
    }

    /** setEnd: only the end is replaced, by the date the text reads as. */
    method SetEnd(value: string)
      modifies this
      ensures tempRange == old(tempRange).(end := Some(ParseLoose(value)))
      ensures tempRange.start == old(tempRange.start) && tempRange.variation == old(tempRange.variation)
    {
      var d := ParseLoose(value);
      tempRange := tempRange.(end := Some(d));
    }
  }

  /** Typing back the text shown for both ends of a preset leaves the preset's range
      in the editing state unchanged. */
  method EditPresetText(presetId: string, now: int) returns (r: DateRange)
    requires ClockDay(now)
    requires CivilOfDay(now).year >= 101
    ensures r == GetPresetRange(presetId, now)
  {
    var editor := new RangeEditor(GetPresetRange(presetId, now));
    var p := editor.tempRange;
    PresetStartYear(presetId, now);
    InputValueRoundTrip(p.start.value.day);
    InputValueRoundTrip(p.end.value.day);
    editor.SetStart(ToInputValue(p.start.value));
    editor.SetEnd(ToInputValue(p.end.value));
    r := editor.Commit();
  }

  /** From year 101 on, every preset starts and ends in a year of at least 100. */
  lemma PresetStartYear(presetId: string, now: int)
    requires ClockDay(now)
    requires CivilOfDay(now).year >= 101
    ensures var r := GetPresetRange(presetId, now);
      r.start.value.At? && r.end.value.At?
      && CivilOfDay(r.start.value.day).year >= 100 && CivilOfDay(r.end.value.day).year >= 100
  {
    GetPresetRangeAgrees(presetId, now);
    PresetOrdered(presetId, now);
    var r := GetPresetRange(presetId, now);
    LateClock(now);
    YearAtLeast(r.start.value.day, 100);
    YearAtLeast(r.end.value.day, 100);
  }

  /** A clock in year 101 or later is more than 61 days past 1 January 100. */
  lemma LateClock(now: int)
    requires CivilOfDay(now).year >= 101
    ensures DayFromYear(100) <= now - 61
  {
    var c := CivilOfDay(now);
    WithinYear(c);
    DayFromYearStep(100);
    DayFromYearMonotone(100, c.year);
  }

  lemma YearAtLeast(n: int, y: int)
    requires DayFromYear(y) <= n
    ensures CivilOfDay(n).year >= y
  {
    var z := CivilOfDay(n).year;
    assert z == YearFromDay(n);
    if z < y {
      DayFromYearMonotone(z, y);
    }
  }
}
