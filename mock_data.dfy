/** The mock data source (app/data/mockData.server.js): the two base tables,
    the date-range variation factor with its 32-bit string hash, and the
    style-preserving scaling of the tables. `seededRandom` (a sine-based
    generator) is a parameter mapping a seed to a number. */
module MockData {
  import opened Wrappers
  import opened JsText
  import opened JsDate
  import opened Metrics
  import opened DateUtils

  datatype AccountInfo = AccountInfo(accountName: string, accountId: string, currency: string, timeZone: string)

  /** One platform's mock data: `keyMetrics`, `campaigns` and `accountInfo`. */
  datatype PlatformData = PlatformData(keyMetrics: seq<KeyMetric>, campaigns: seq<CampaignRow>, accountInfo: AccountInfo)

  /** Every campaign row has the six positional columns. */
  predicate WellFormed(data: PlatformData) {
    forall i | 0 <= i < |data.campaigns| :: |data.campaigns[i]| == 6
  }

  const GoogleBase := PlatformData(
    [
      KeyMetric("clicks", "25.4k", 15.2),
      KeyMetric("impressions", "892.1k", 8.7),
      KeyMetric("cost", "$1,247.89", -3.2),
      KeyMetric("conversions", "189", 12.8),
      KeyMetric("revenue", "$7,234.56", 18.9),
      KeyMetric("roas", "5.80", 22.4),
      KeyMetric("ctr", "2.85%", 5.1),
      KeyMetric("cpc", "$6.60", -8.4) ],
    [
      ["Black Friday Electronics Sale | Search", "$420.50", "$3.20", "$1,842.00", "4.38", "Active"],
      ["Smart Home Devices | Display Network", "$318.75", "$2.85", "$1,156.00", "3.63", "Active"],
      ["iPhone 15 Pro Max | YouTube Video", "$287.60", "$4.12", "$978.00", "3.40", "Paused"],
      ["Holiday Gift Guide | Shopping Ads", "$502.90", "$2.95", "$2,156.00", "4.29", "Active"],
      ["Brand Awareness | Google Search", "$156.30", "$1.85", "$687.00", "4.40", "Active"],
      ["Winter Collection 2024 | Performance Max", "$678.20", "$2.10", "$3,245.00", "4.78", "Active"],
      ["Retargeting - Cart Abandoners | Display", "$234.80", "$4.56", "$892.00", "3.80", "Active"] ],
    AccountInfo("Test Google Ads Account", "123-456-7890", "USD", "America/New_York"))

  const MetaBase := PlatformData(
    [
      KeyMetric("reach", "156.8k", 18.9),
      KeyMetric("impressions", "743.2k", 12.4),
      KeyMetric("cost", "$986.45", -5.8),
      KeyMetric("clicks", "12.7k", 9.6),
      KeyMetric("conversions", "234", 22.3),
      KeyMetric("revenue", "$4,567.89", 28.7),
      KeyMetric("roas", "4.63", 15.4),
      KeyMetric("ctr", "1.71%", 8.3),
      KeyMetric("cpm", "$1.33", -12.1),
      KeyMetric("cpc", "$0.78", -15.2) ],
    [
      ["Holiday Sale 2024 | Facebook Feed", "$245.80", "$0.85", "$1,456.00", "3.12", "Active"],
      ["New Product Launch | Instagram Stories", "$198.30", "$1.12", "$987.00", "2.89", "Active"],
      ["Tutorial Series | Facebook Video", "$312.75", "$0.95", "$1,678.00", "3.58", "Active"],
      ["Lifestyle Content | Instagram Reels", "$167.90", "$0.72", "$823.00", "2.95", "Paused"],
      ["Product Catalog | Facebook Carousel", "$423.15", "$1.05", "$2,134.00", "4.02", "Active"],
      ["Black Friday Countdown | Meta Advantage+", "$589.40", "$0.67", "$2,845.00", "4.83", "Active"],
      ["Customer Testimonials | Instagram Feed", "$134.20", "$1.23", "$654.00", "4.87", "Active"] ],
    AccountInfo("Test Meta Business Account", "987654321", "USD", "America/New_York"))

  /** `mockData[platform]` */
  function BaseData(platform: string): (r: Option<PlatformData>)
    ensures r.Some? <==> platform == "google" || platform == "meta"
    ensures r.Some? ==> WellFormed(r.value)
  {
    if platform == "google" then Some(GoogleBase)
    else if platform == "meta" then Some(MetaBase)
    else None
  }

  // ---- the 32-bit hash ----

  const TwoTo31: int := 0x8000_0000
  const TwoTo32: int := 0x1_0000_0000

  /** ECMAScript ToInt32: the integer congruent to `x` modulo 2^32 in [-2^31, 2^31). */
  function ToInt32(x: int): (r: int)
    ensures -TwoTo31 <= r < TwoTo31
    ensures (r - x) % TwoTo32 == 0
  {
    var m := x % TwoTo32;
    if m >= TwoTo31 then m - TwoTo32 else m
  }

  /** Numbers congruent modulo 2^32 have the same ToInt32. */
  lemma ToInt32Congruent(x: int, y: int)
    requires (x - y) % TwoTo32 == 0
    ensures ToInt32(x) == ToInt32(y)
  {
    var k := (x - y) / TwoTo32;
    assert x == y + k * TwoTo32;
    assert x % TwoTo32 == y % TwoTo32;
  }

  /** One step of simpleHash: `((hash << 5) - hash) + char`, then `hash & hash`. */
  function HashStep(hash: int, c: char): int {
    ToInt32(ToInt32(hash * 32) - hash + c as int)
  }

  /** The value of `hash` after the loop has consumed all of `s`. */
  function Hash32(s: string): (h: int)
    ensures -TwoTo31 <= h < TwoTo31
  {
    if s == [] then 0 else HashStep(Hash32(s[..|s| - 1]), s[|s| - 1])
  }

  /** The polynomial `sum of s[i] * 31^(|s|-1-i)`, computed without any wrap-around. */
  function PolyHash(s: string): int {
    if s == [] then 0 else 31 * PolyHash(s[..|s| - 1]) + s[|s| - 1] as int
  }

  /** The wrapped loop computes the base-31 polynomial hash, reduced to 32 bits
      once at the end: wrapping at every step loses nothing. */
  lemma {:induction false} Hash32IsPolyHash(s: string)
    ensures Hash32(s) == ToInt32(PolyHash(s))
    decreases |s|
  {
    if s != [] {
      var prefix, c := s[..|s| - 1], s[|s| - 1] as int;
      Hash32IsPolyHash(prefix);
      var h, p := Hash32(prefix), PolyHash(prefix);
      assert (h - p) % TwoTo32 == 0;
      StepKeepsCongruence(h, p, c);
    }
  }

  /** One wrapped step from a hash congruent to `p` lands where the unwrapped
      step from `p` does, after the final wrap. */
  lemma StepKeepsCongruence(h: int, p: int, c: int)
    requires (h - p) % TwoTo32 == 0
    ensures ToInt32(ToInt32(h * 32) - h + c) == ToInt32(31 * p + c)
  {
    var k1 := (h - p) / TwoTo32;
    assert h - p == k1 * TwoTo32;
    var w := ToInt32(h * 32);
    var k2 := (w - h * 32) / TwoTo32;
    assert w - h * 32 == k2 * TwoTo32;
    assert (w - h + c) - (31 * p + c) == (k2 + 31 * k1) * TwoTo32;
    ToInt32Congruent(w - h + c, 31 * p + c);
  }

  /** `Math.abs(hash)` of the final hash. */
  function AbsHash(s: string): (r: nat)
    ensures r <= TwoTo31
  {
    var h := Hash32(s);
    if h < 0 then -h else h
  }

  /** simpleHash, as the loop the source runs. */
  method SimpleHash(str: string) returns (h: int)
    ensures h == AbsHash(str)
    ensures 0 <= h <= TwoTo31
  {
    var hash := 0;
    var i := 0;
    while i < |str|
      invariant 0 <= i <= |str|
      invariant hash == Hash32(str[..i])
    {
      var c := str[i];
      hash := ToInt32(hash * 32) - hash + c as int;
      hash := ToInt32(hash);
      assert str[..i + 1][..i] == str[..i];
      i := i + 1;
    }
    assert str[..|str|] == str;
    h := if hash < 0 then -hash else hash;
  }

  // ---- the variation factor ----

  /** The year as `toISOString` writes it: four digits for 0..9999, otherwise a
      sign and six digits. */
  function IsoYear(y: int): string {
    if 0 <= y <= 9999 then PadStart(NatToString(y), 4, '0')
    else (if y < 0 then "-" else "+") + PadStart(NatToString(if y < 0 then -y else y), 6, '0')
  }

  /** `d.toISOString().split('T')[0]` for a valid date. */
  function IsoDay(n: int): string {
    var c := CivilOfDay(n);
    IsoYear(c.year) + "-" + Pad2(c.month + 1) + "-" + Pad2(c.day)
  }

  /** The factor for a span of `daysDiff` days (None: NaN) and a draw `x`. */
  function Band(daysDiff: Option<int>, x: real): (f: real)
    ensures daysDiff.Some? && daysDiff.value <= 7 && 0.0 <= x < 1.0 ==> 0.7 <= f < 1.3
    ensures daysDiff.Some? && 7 < daysDiff.value <= 30 && 0.0 <= x < 1.0 ==> 0.8 <= f < 1.2
    ensures (daysDiff.None? || daysDiff.value > 30) && 0.0 <= x < 1.0 ==> 0.9 <= f < 1.1
  {
    if daysDiff.Some? && daysDiff.value <= 7 then 0.7 + x * 0.6
    else if daysDiff.Some? && daysDiff.value <= 30 then 0.8 + x * 0.4
    else 0.9 + x * 0.2
  }

  /** `Math.abs(end - start)` in days; None when either date is invalid (NaN). */
  function Span(start: Date, end: Date): (d: Option<int>)
    ensures d.Some? <==> start.At? && end.At?
    ensures d.Some? ==> d.value >= 0 && (d.value == end.day - start.day || d.value == start.day - end.day)
  {
    if start.At? && end.At? then Some(Abs(end.day - start.day) as int) else None
  }

  /** A truthy `_variation`: present and not 0. */
  predicate Truthy(v: Option<real>) {
    v.Some? && v.value != 0.0
  }

  /** The seed string `<start>-<end>` of two valid dates. */
  function SeedString(start: int, end: int): string {
    IsoDay(start) + "-" + IsoDay(end)
  }

  /** `seededRandom(simpleHash(dateString))` for two valid dates. */
  function SeedDraw(start: int, end: int, seededRandom: int -> real): real {
    seededRandom(AbsHash(SeedString(start, end)))
  }

  /** getDateVariation. Failure is the RangeError that `toISOString` throws for an
      invalid date when the hash seed is needed. */
  function GetDateVariation(range: DateRange, seededRandom: int -> real): (r: Result<real>)
    ensures range.start.None? || range.end.None? ==> r == Success(1.0)
    ensures r.Failure? <==>
      range.start.Some? && range.end.Some? && !Truthy(range.variation)
      && (range.start.value.Invalid? || range.end.value.Invalid?)
  {
    if range.start.None? || range.end.None? then Success(1.0)
    else
      var s, e := range.start.value, range.end.value;
      var daysDiff := Span(s, e);
      if Truthy(range.variation) then Success(Band(daysDiff, range.variation.value))
      else if s.Invalid? || e.Invalid? then Failure("RangeError: Invalid time value")
      else Success(Band(daysDiff, SeedDraw(s.day, e.day, seededRandom)))
  }

  /** The draw that selects the factor lies in [0, 1). */
  predicate DrawInUnit(range: DateRange, seededRandom: int -> real) {
    if Truthy(range.variation) then 0.0 <= range.variation.value < 1.0
    else range.start.Some? && range.end.Some? && range.start.value.At? && range.end.value.At? ==>
      0.0 <= SeedDraw(range.start.value.day, range.end.value.day, seededRandom) < 1.0
  }

  /** With a draw in [0, 1) the factor lies in the band of the span: up to a week,
      up to thirty days, or longer (or unknown). */
  lemma VariationBands(range: DateRange, seededRandom: int -> real)
    requires range.start.Some? && range.end.Some?
    requires DrawInUnit(range, seededRandom)
    requires GetDateVariation(range, seededRandom).Success?
    ensures var f := GetDateVariation(range, seededRandom).value;
      var d := Span(range.start.value, range.end.value);
      (d.Some? && d.value <= 7 ==> 0.7 <= f < 1.3)
      && (d.Some? && 7 < d.value <= 30 ==> 0.8 <= f < 1.2)
      && (d.None? || d.value > 30 ==> 0.9 <= f < 1.1)
  {
    var s, e := range.start.value, range.end.value;
    var x := if Truthy(range.variation) then range.variation.value else SeedDraw(s.day, e.day, seededRandom);
    assert 0.0 <= x < 1.0;
    assert GetDateVariation(range, seededRandom) == Success(Band(Span(s, e), x));
  }

  /** Without a truthy `_variation` the factor depends only on the two dates:
      a `_variation` of 0 falls back to the same hash seed as none at all. */
  lemma FalsyVariationUsesSeed(start: Option<Date>, end: Option<Date>, seededRandom: int -> real)
    ensures GetDateVariation(DateRange(start, end, Some(0.0)), seededRandom)
         == GetDateVariation(DateRange(start, end, None), seededRandom)
  {
    assert !Truthy(Some(0.0)) && !Truthy(None);
  }

  /** A truthy `_variation` is used as the draw, and no date is formatted. */
  lemma TruthyVariationIsDraw(start: Date, end: Date, v: real, seededRandom: int -> real)
    requires v != 0.0
    ensures GetDateVariation(DateRange(Some(start), Some(end), Some(v)), seededRandom) == Success(Band(Span(start, end), v))
  {
  }

  // ---- scaling the tables ----

  /** `value.replace(/[$,k%]/g, '')` */
  function StripFormatting(s: string): (r: string)
    ensures |r| <= |s|
  {
    if s == [] then []
    else
      var c := s[0];
      (if IsMarker(c) then [] else [c]) + StripFormatting(s[1..])
  }

  predicate IsMarker(c: char) {
    c == '$' || c == ',' || c == 'k' || c == '%'
  }

  /** Stripping removes every marker character and keeps the others, in order. */
  lemma {:induction false} StripFormattingRemovesMarkers(s: string)
    ensures forall i | 0 <= i < |StripFormatting(s)| :: !IsMarker(StripFormatting(s)[i])
    ensures (forall i | 0 <= i < |s| :: !IsMarker(s[i])) ==> StripFormatting(s) == s
    decreases |s|
  {
    if s != [] {
      StripFormattingRemovesMarkers(s[1..]);
      if forall i | 0 <= i < |s| :: !IsMarker(s[i]) {
        assert forall i | 0 <= i < |s[1..]| :: !IsMarker(s[1..][i]) by {
          forall i | 0 <= i < |s[1..]| ensures !IsMarker(s[1..][i]) {
            assert s[1..][i] == s[i + 1];
          }
        }
        assert s == [s[0]] + s[1..];
      }
    }
  }

  /** adjustMetricValue for a string value: scale the number it shows and render
      it in the original style; a value without a number is returned unchanged. */
  function AdjustMetricValue(value: string, variation: real): (r: string)
    ensures ParsedNumber(value).None? ==> r == value
    ensures ParsedNumber(value).Some? ==> r == Restyle(value, Scaled(value, variation).value)
  {
    var x := Scaled(value, variation);
    if x.Some? then Restyle(value, x.value) else value
  }

  /** The number shown by `value` times the variation, or None when it shows none. */
  function Scaled(value: string, variation: real): (x: Option<real>)
    ensures x.Some? <==> ParsedNumber(value).Some?
  {
    var p := ParsedNumber(value);
    if p.Some? then Some(p.value * variation) else None
  }

  /** `parseFloat(value.replace(/[$,k%]/g, ''))`, None for NaN. */
  function ParsedNumber(value: string): Option<real> {
    ParseFloat(StripFormatting(value))
  }

  /** Render `x` in the style of `value`, with precedence `k`, then `$`, then `%`,
      then a plain two-decimal number. */
  function Restyle(value: string, x: real): (r: string)
    ensures |r| >= 1
    ensures 'k' in value ==> r == ToFixed(x, 1) + "k"
    ensures 'k' !in value && '$' in value ==> r == Money(x)
    ensures 'k' !in value && '$' !in value && '%' in value ==> r == Percent(x)
    ensures 'k' !in value && '$' !in value && '%' !in value ==> r == ToFixed(x, 2)
  {
    if 'k' in value then ToFixed(x, 1) + "k"
    else if '$' in value then Money(x)
    else if '%' in value then Percent(x)
    else ToFixed(x, 2)
  }

  /** The style markers survive scaling: a `k` value ends in `k`, a currency value
      starts with `$`, a percentage ends in `%`, and a plain value has two decimals
      and no marker. */
  lemma RestyleKeepsMarkers(value: string, x: real)
    ensures var r := Restyle(value, x);
      ('k' in value ==> r[|r| - 1] == 'k')
      && ('k' !in value && '$' in value ==> r[0] == '$')
      && ('k' !in value && '$' !in value && '%' in value ==> r[|r| - 1] == '%')
      && ('k' !in value && '$' !in value && '%' !in value ==>
            r[|r| - 3] == '.' && 'k' !in r && '$' !in r && '%' !in r)
  {
    if 'k' !in value && '$' !in value && '%' !in value {
      var r := ToFixed(x, 2);
      forall i | 0 <= i < |r| ensures r[i] != 'k' && r[i] != '$' && r[i] != '%' {
        assert IsDigit(r[i]) || r[i] == '.' || r[i] == '-';
      }
    }
  }

  /** adjustDeltaPercent: the scaled delta plus a five-point-per-unit factor, clamped. */
  function AdjustDeltaPercent(deltaPct: real, variation: real): (r: real)
    ensures -99.0 <= r <= 99.0
    ensures -99.0 <= deltaPct * variation + (variation - 1.0) * 5.0 <= 99.0 ==>
      r == deltaPct * variation + (variation - 1.0) * 5.0
  {
    var baseDelta := deltaPct * variation;
    var factor := (variation - 1.0) * 5.0;
    var inner := if 99.0 < baseDelta + factor then 99.0 else baseDelta + factor;
    if -99.0 > inner then -99.0 else inner
  }

  function AdjustMetric(m: KeyMetric, variation: real): KeyMetric {
    m.(value := AdjustMetricValue(m.value, variation), deltaPct := AdjustDeltaPercent(m.deltaPct, variation))
  }

  function AdjustCampaign(row: CampaignRow, variation: real): (r: CampaignRow)
    requires |row| == 6
    ensures |r| == 6 && r[0] == row[0] && r[5] == row[5]
    ensures forall j | 1 <= j < 5 :: r[j] == AdjustMetricValue(row[j], variation)
  {
    seq(6, j requires 0 <= j < 6 =>
      if j == 0 || j == 5 then row[j] else AdjustMetricValue(row[j], variation))
  }

  /** applyDateVariation. The source scales a deep clone, so the input is never
      changed; here that is the value semantics of the result. */
  function ApplyDateVariation(data: PlatformData, variation: real): (r: PlatformData)
    requires WellFormed(data)
    ensures WellFormed(r)
    ensures |r.keyMetrics| == |data.keyMetrics| && |r.campaigns| == |data.campaigns|
    ensures forall i | 0 <= i < |r.keyMetrics| ::
      r.keyMetrics[i].metric == data.keyMetrics[i].metric
      && r.keyMetrics[i].value == AdjustMetricValue(data.keyMetrics[i].value, variation)
      && -99.0 <= r.keyMetrics[i].deltaPct <= 99.0
    ensures forall i | 0 <= i < |r.campaigns| ::
      r.campaigns[i][0] == data.campaigns[i][0] && r.campaigns[i][5] == data.campaigns[i][5]
      && forall j | 1 <= j < 5 :: r.campaigns[i][j] == AdjustMetricValue(data.campaigns[i][j], variation)
    ensures r.accountInfo == data.accountInfo
  {
    PlatformData(
      seq(|data.keyMetrics|, i requires 0 <= i < |data.keyMetrics| => AdjustMetric(data.keyMetrics[i], variation)),
      seq(|data.campaigns|, i requires 0 <= i < |data.campaigns| => AdjustCampaign(data.campaigns[i], variation)),
      data.accountInfo)
  }

  // ---- getMockData ----

  /** What getMockData hands back: the whole platform object or one section of it. */
  datatype MockPayload =
    | Whole(data: PlatformData)
    | KeyMetricsSection(keyMetrics: seq<KeyMetric>)
    | CampaignsSection(campaigns: seq<CampaignRow>)
    | AccountInfoSection(accountInfo: AccountInfo)

  /** `data[dataType] || null` for a section name. */
  function Section(data: PlatformData, dataType: string): (r: Option<MockPayload>)
    ensures r.Some? <==> dataType in {"keyMetrics", "campaigns", "accountInfo"}
  {
    if dataType == "keyMetrics" then Some(KeyMetricsSection(data.keyMetrics))
    else if dataType == "campaigns" then Some(CampaignsSection(data.campaigns))
    else if dataType == "accountInfo" then Some(AccountInfoSection(data.accountInfo))
    else None
  }

  function Select(data: PlatformData, dataType: string): Option<MockPayload> {
    if dataType == "all" then Some(Whole(data)) else Section(data, dataType)
  }

  /** getMockData; `dateRange` None is a missing range. Failure is an exception
      raised while computing the variation. */
  function GetMockData(platform: string, dataType: string, dateRange: Option<DateRange>,
                       seededRandom: int -> real): (r: Result<Option<MockPayload>>)
    ensures BaseData(platform).None? ==> r == Success(None)
    ensures BaseData(platform).Some? && dateRange.None? ==>
      r == Success(Select(BaseData(platform).value, dataType))
    ensures BaseData(platform).Some? && dateRange.Some? ==>
      (r.Failure? <==> GetDateVariation(dateRange.value, seededRandom).Failure?)
    ensures BaseData(platform).Some? && dateRange.Some? && GetDateVariation(dateRange.value, seededRandom).Success? ==>
      r == Success(Select(ApplyDateVariation(BaseData(platform).value, GetDateVariation(dateRange.value, seededRandom).value), dataType))
    ensures r.Success? && r.value.Some? ==>
      dataType in {"all", "keyMetrics", "campaigns", "accountInfo"}
  {
    match BaseData(platform)
    case None => Success(None)
    case Some(base) =>
      match dateRange
      case None => Success(Select(base, dataType))
      case Some(range) =>
        match GetDateVariation(range, seededRandom)
        case Failure(msg) => Failure(msg)
        case Success(variation) => Success(Select(ApplyDateVariation(base, variation), dataType))
  }

  /** With a range, the result keeps the base data's shape (the same metric names
      in the same order, the same campaign names and statuses, the same account)
      and every figure is the base figure scaled by the range's factor. */
  lemma MockDataKeepsShape(platform: string, range: DateRange, seededRandom: int -> real)
    requires BaseData(platform).Some?
    requires GetDateVariation(range, seededRandom).Success?
    ensures var base := BaseData(platform).value;
      var r := GetMockData(platform, "all", Some(range), seededRandom);
      r.Success? && r.value.Some? && r.value.value.Whole?
      && var data := r.value.value.data;
      |data.keyMetrics| == |base.keyMetrics| && |data.campaigns| == |base.campaigns|
      && (forall i | 0 <= i < |base.keyMetrics| :: data.keyMetrics[i].metric == base.keyMetrics[i].metric)
      && (forall i | 0 <= i < |base.campaigns| ::
            |data.campaigns[i]| == 6
            && data.campaigns[i][0] == base.campaigns[i][0] && data.campaigns[i][5] == base.campaigns[i][5])
      && data.accountInfo == base.accountInfo
      && var v := GetDateVariation(range, seededRandom).value;
      (forall i | 0 <= i < |base.keyMetrics| ::
         data.keyMetrics[i].value == AdjustMetricValue(base.keyMetrics[i].value, v))
      && (forall i, j | 0 <= i < |base.campaigns| && 1 <= j < 5 ::
            data.campaigns[i][j] == AdjustMetricValue(base.campaigns[i][j], v))
  {
  }
}
