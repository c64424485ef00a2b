/** Display and input formatting helpers (app/utils/formatters.js). */
module Formatters {
  import opened Wrappers
  import opened JsText
  import opened JsDate

  /** The magnitude rule shared by every formatNumber in the code base:
      millions with `M`, thousands with `k`, one decimal; smaller values as `String(x)`. */
  function FormatMagnitude(x: real): (r: string)
    ensures |r| >= 1
    ensures r[|r| - 1] == 'M' <==> x >= 1000000.0
    ensures r[|r| - 1] == 'k' <==> 1000.0 <= x < 1000000.0
    ensures x >= 1000000.0 ==> r == ToFixed(x / 1000000.0, 1) + "M"
    ensures 1000.0 <= x < 1000000.0 ==> r == ToFixed(x / 1000.0, 1) + "k"
    ensures x < 1000.0 ==> r == NumberToString(x)
  {
    if x >= 1000000.0 then ToFixed(x / 1000000.0, 1) + "M"
    else if x >= 1000.0 then ToFixed(x / 1000.0, 1) + "k"
    else NumberToString(x)
  }

  /** formatNumber; None stands for a non-number or NaN. */
  function FormatNumber(num: Option<real>): (r: string)
    ensures num.None? ==> r == "0"
    ensures num.Some? ==> r == FormatMagnitude(num.value)
  {
    match num
    case None => "0"
    case Some(x) => FormatMagnitude(x)
  }

  /** formatPercentage; None stands for a non-number or NaN. */
  function FormatPercentage(percentage: Option<real>, decimals: nat): (r: string)
    requires decimals <= 100
    ensures percentage.None? ==> r == "0.00%"
    ensures |r| >= 2 && r[|r| - 1] == '%'
    ensures percentage.Some? ==> r[..|r| - 1] == ToFixed(percentage.value, decimals)
  {
    match percentage
    case None => "0.00%"
    case Some(p) => ToFixed(p, decimals) + "%"
  }

  /** formatDateForAPI for string input (None is null or undefined). */
  function FormatDateForApi(date: Option<string>): (r: string)
    ensures date.None? ==> r == ""
    ensures date.Some? ==> r == date.value
  {
    match date
    case None => ""
    case Some(s) => if s == "" then "" else s
  }

  /** parseInputDate: `DD/MM/YYYY` to a local date, or None (null). */
  function ParseInputDate(value: string): (r: Option<Date>)
    ensures value == "" || '/' !in value ==> r.None?
  {
    if value == "" || '/' !in value then None
    else ParseFields(Split(value, '/'))
  }

  /** The checks parseInputDate applies to the parts of the split input; a
      missing part reads as NaN. */
  function ParseFields(parts: seq<string>): (r: Option<Date>)
    requires |parts| >= 1
  {
    var day := JsNumber(parts[0]);
    var month := if |parts| > 1 then JsNumber(parts[1]) else None;
    var year := if |parts| > 2 then JsNumber(parts[2]) else None;
    if day.None? || month.None? || year.None? then None
    else
      var d, m, y := day.value, month.value - 1, year.value;
      if d < 1 || d > 31 || m < 0 || m > 11 || y < 1900 then None
      else Some(NewDate(y, m, d))
  }

  /** The text `dd/mm/yyyy` for the given day, month (1-based) and year. */
  function DayMonthYear(day: nat, month: nat, year: int): string {
    Pad2(day) + "/" + Pad2(month) + "/" + IntToString(year)
  }

  /** The text `dd/mm/yyyy` of a calendar date: getDate, getMonth() + 1 and
      getFullYear, the first two padded to two digits. */
  function CivilText(c: Civil): string
    requires 0 <= c.day && 0 <= c.month
  {
    DayMonthYear(c.day, c.month + 1, c.year)
  }

  /** Where the separators and the three fields sit in `dd/mm/<rest>`. */
  lemma SlashedFields(dd: string, mm: string, yy: string)
    requires |dd| == 2 && |mm| == 2
    ensures |dd + "/" + mm + "/" + yy| >= 6
    ensures (dd + "/" + mm + "/" + yy)[2] == '/' && (dd + "/" + mm + "/" + yy)[5] == '/'
    ensures (dd + "/" + mm + "/" + yy)[..2] == dd
    ensures (dd + "/" + mm + "/" + yy)[3..5] == mm
    ensures (dd + "/" + mm + "/" + yy)[6..] == yy
  {
  }

  /** formatDateForInput: `dd/mm/yyyy` with a two-digit day and month, or "" for a
      missing or invalid date. */
  function FormatDateForInput(date: Option<Date>): (r: string)
    ensures date.None? || date.value.Invalid? ==> r == ""
    ensures date.Some? && date.value.At? ==>
      |r| >= 7 && r[2] == '/' && r[5] == '/'
      && IsDigits(r[..2]) && IsDigits(r[3..5])
  {
    match date
    case None => ""
    case Some(Invalid) => ""
    case Some(At(n)) =>
      CivilTextShape(CivilOfDay(n));
      CivilText(CivilOfDay(n))
  }

  /** The text of a calendar date has its slashes at positions 2 and 5 and two digits before each. */
  lemma CivilTextShape(c: Civil)
    requires 0 <= c.day < 100 && 0 <= c.month < 99
    ensures var r := CivilText(c);
      |r| >= 7 && r[2] == '/' && r[5] == '/' && IsDigits(r[..2]) && IsDigits(r[3..5])
  {
    SlashedFields(Pad2(c.day), Pad2(c.month + 1), IntToString(c.year));
  }

  /** Three numeric parts in range make a date, whatever the month's length: the
      month part is 1-based and `month` is the index it stands for. */
  lemma ParseFieldsInRange(parts: seq<string>, day: int, month: int, year: int)
    requires |parts| >= 3
    requires JsNumber(parts[0]) == Some(day) && JsNumber(parts[1]) == Some(month + 1)
    requires JsNumber(parts[2]) == Some(year)
    requires 1 <= day <= 31 && 0 <= month <= 11 && 1900 <= year
    ensures ParseFields(parts) == Some(TimeClip(MakeDay(year, month, day)))
  {
  }

  lemma SplitDayMonthYear(day: nat, month: nat, year: nat)
    requires day < 100 && month < 100
    ensures DayMonthYear(day, month, year) != "" && '/' in DayMonthYear(day, month, year)
    ensures Split(DayMonthYear(day, month, year), '/') == [Pad2(day), Pad2(month), NatToString(year)]
  {
    SplitSlashed(Pad2(day), Pad2(month), NatToString(year));
  }

  /** Splitting `dd/mm/yyyy` on '/' recovers the three digit fields. */
  lemma SplitSlashed(dd: string, mm: string, yy: string)
    requires |dd| == 2 && |mm| == 2
    requires IsDigits(dd) && IsDigits(mm) && IsDigits(yy)
    ensures (dd + "/" + mm + "/" + yy)[2] == '/'
    ensures Split(dd + "/" + mm + "/" + yy, '/') == [dd, mm, yy]
  {
    SlashedFields(dd, mm, yy);
    JoinThree(dd, mm, yy, '/');
    assert '/' !in dd && '/' !in mm && '/' !in yy by {
      assert !IsDigit('/');
    }
    SplitJoin([dd, mm, yy], '/');
  }

  lemma JoinThree(a: string, b: string, c: string, sep: char)
    ensures Join([a, b, c], sep) == a + [sep] + b + [sep] + c
  {
    assert [a, b, c][1..] == [b, c];
    assert [b, c][1..] == [c];
    assert Join([c], sep) == c;
    assert Join([b, c], sep) == b + [sep] + c;
    assert Join([a, b, c], sep) == a + [sep] + (b + [sep] + c);
  }

  /** Round trip: formatting a date from 1900 on and parsing the text back gives the same date. */
  lemma FormatThenParse(n: TimeDay)
    requires CivilOfDay(n).year >= 1900
    ensures ParseInputDate(FormatDateForInput(Some(At(n)))) == Some(At(n))
  {
    MakeDayOfCivil(n);
    ParseCivilText(CivilOfDay(n));
  }

  /** The text of a calendar date from 1900 on parses back to that date; the
      parser builds it with no check that the day exists in that month. */
  lemma ParseCivilText(c: Civil)
    requires 1 <= c.day <= 31 && 0 <= c.month <= 11 && c.year >= 1900
    ensures ParseInputDate(CivilText(c)) == Some(TimeClip(MakeDay(c.year, c.month, c.day)))
  {
    SplitCivilText(c);
    CivilTextFields(c);
    ParseFieldsInRange(Split(CivilText(c), '/'), c.day, c.month, c.year);
  }

  /** The text of a calendar date splits into its three digit fields. */
  lemma SplitCivilText(c: Civil)
    requires 0 <= c.day < 100 && 0 <= c.month < 99 && c.year >= 0
    ensures CivilText(c) != "" && '/' in CivilText(c)
    ensures Split(CivilText(c), '/') == [Pad2(c.day), Pad2(c.month + 1), NatToString(c.year)]
  {
    var month := c.month + 1;
    assert CivilText(c) == DayMonthYear(c.day, month, c.year);
    SplitDayMonthYear(c.day, month, c.year);
  }

  /** Each field of the text of a calendar date reads back as its number. */
  lemma CivilTextFields(c: Civil)
    requires 0 <= c.day && 0 <= c.month && c.year >= 0
    ensures JsNumber(Pad2(c.day)) == Some(c.day)
    ensures JsNumber(Pad2(c.month + 1)) == Some(c.month + 1)
    ensures JsNumber(NatToString(c.year)) == Some(c.year)
  {
    DigitsValueOfPad2(c.day);
    DigitsValueOfPad2(c.month + 1);
    DigitsValueOfNatToString(c.year);
  }

  /** An impossible day and month are refused. */
  lemma ParseRejectsOutOfRange()
    ensures ParseInputDate("32/13/2024") == None
  {
    var v := "32/13/2024";
    assert v == "32" + "/" + "13" + "/" + "2024";
    SplitSlashed("32", "13", "2024");
    assert v != "" && '/' in v by { assert v[2] == '/'; }
    assert ParseInputDate(v) == ParseFields(["32", "13", "2024"]);
    DigitsOfThirtyTwo();
  }

  lemma DigitsOfThirtyTwo()
    ensures JsNumber("32") == Some(32)
  {
    assert "32"[..1] == "3";
    assert DigitsValue("32") == 32;
  }

  /** The first three parts read as numbers, a day in 1..31, a 1-based month in
      1..12 and a year from 1900 on; parts after the third are ignored. */
  predicate AcceptedFields(parts: seq<string>) {
    |parts| >= 3
    && JsNumber(parts[0]).Some? && JsNumber(parts[1]).Some? && JsNumber(parts[2]).Some?
    && 1 <= JsNumber(parts[0]).value <= 31
    && 1 <= JsNumber(parts[1]).value <= 12
    && JsNumber(parts[2]).value >= 1900
  }

  /** parseInputDate gives a date exactly for a slashed text whose fields are
      accepted, and that date is `new Date(year, month - 1, day)`. */
  lemma ParseInputDateAccepts(value: string)
    ensures ParseInputDate(value).Some? <==>
      value != "" && '/' in value && AcceptedFields(Split(value, '/'))
    ensures ParseInputDate(value).Some? ==>
      var parts := Split(value, '/');
      ParseInputDate(value) == Some(NewDate(JsNumber(parts[2]).value, JsNumber(parts[1]).value - 1,
                                            JsNumber(parts[0]).value))
  {
    if value != "" && '/' in value {
      var parts := Split(value, '/');
      if AcceptedFields(parts) {
        ParseFieldsInRange(parts, JsNumber(parts[0]).value, JsNumber(parts[1]).value - 1,
                           JsNumber(parts[2]).value);
      }
    }
  }

  /** A text whose day, month or year part is missing or not a number is refused. */
  lemma ParseRejectsNonNumber(value: string, k: nat)
    requires k < 3
    requires k >= |Split(value, '/')| || JsNumber(Split(value, '/')[k]).None?
    ensures ParseInputDate(value) == None
  {
    ParseInputDateAccepts(value);
  }

  /** `05/03/2024` is the fifth of March 2024 (month index 2). */
  lemma ParseFifthOfMarch()
    ensures ParseInputDate("05/03/2024").Some?
    ensures ParseInputDate("05/03/2024").value.At?
    ensures CivilOfDay(ParseInputDate("05/03/2024").value.day) == Civil(2024, 2, 5)
  {
    FifthOfMarchText();
    ParseCivilText(Civil(2024, 2, 5));
    FifthOfMarchDay();
    CivilOfMakeDay(Civil(2024, 2, 5));
  }

  lemma FifthOfMarchDay()
    ensures MakeDay(2024, 2, 5) == 19787
    ensures ValidCivil(Civil(2024, 2, 5))
  {
    MakeDayInYear(2024, 2, 5);
    assert DayFromYear(2024) == 19723;
    assert IsLeapYear(2024);
    assert MonthStart(2024, 2) == 60;
  }

  lemma FifthOfMarchText()
    ensures CivilText(Civil(2024, 2, 5)) == "05/03/2024"
  {
    PadSingleDigit(5);
    PadSingleDigit(3);
    YearText();
    assert "05" + "/" + "03" + "/" + "2024" == "05/03/2024";
  }

  lemma PadSingleDigit(n: nat)
    requires n < 10
    ensures Pad2(n) == ['0', DigitChar(n)]
  {
    assert NatToString(n) == [DigitChar(n)];
  }

  lemma YearText()
    ensures IntToString(2024) == "2024"
  {
    var s2 := NatToString(2);
    var s20 := NatToString(20);
    var s202 := NatToString(202);
    assert s2 == "2";
    assert s20 == s2 + "0";
    assert s202 == s20 + "2";
    assert NatToString(2024) == s202 + "4";
  }

  /** calculatePercentageChange with its zero guard on the previous value. */
  function CalculatePercentageChange(current: real, previous: real): (r: real)
    ensures previous == 0.0 ==> r == (if current > 0.0 then 100.0 else 0.0)
  {
    if previous == 0.0 then (if current > 0.0 then 100.0 else 0.0)
    else (current - previous) / previous * 100.0
  }

  /** Applying the computed change to a non-zero previous value gives the current value back. */
  lemma PercentageChangeInverse(current: real, previous: real)
    requires previous != 0.0
    ensures previous + previous * CalculatePercentageChange(current, previous) / 100.0 == current
  {
    var q := (current - previous) / previous;
    assert q * previous == current - previous;
  }

  /** truncateText; None stands for a non-string. */
  function TruncateText(text: Option<string>, maxLength: int): (r: string)
    ensures text.None? || text.value == "" ==> r == ""
    ensures text.Some? && |text.value| <= maxLength ==> r == text.value
    ensures text.Some? && text.value != "" && |text.value| > maxLength ==>
      r == Ellipsized(text.value, maxLength)
    ensures maxLength >= 3 ==> |r| <= maxLength
  {
    match text
    case None => ""
    case Some(t) =>
      if t == "" then ""
      else if |t| <= maxLength then t
      else Ellipsized(t, maxLength)
  }

  /** A text too long for `maxLength`: a prefix of it followed by `...`, the whole
      no longer than `maxLength` when there is room for the dots. */
  function Ellipsized(t: string, maxLength: int): (r: string)
    requires |t| > maxLength
    ensures |r| >= 3 && r[|r| - 3..] == "..." && r[..|r| - 3] <= t
    ensures |r| - 3 == (if maxLength < 3 then 0 else maxLength - 3)
    ensures maxLength >= 3 ==> |r| == maxLength
  {
    var cut := if maxLength - 3 < 0 then 0 else maxLength - 3;
    var r := t[..cut] + "...";
    assert r[..cut] == t[..cut];
    assert r[cut..] == "...";
    r
  }

}
