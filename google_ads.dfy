/** The Google Ads response normalisers (app/services/google-ads.server.js):
    the metrics fold over result rows, the campaign rows, the status table and
    the number formatting. Payload fields arrive already parsed: `None` is a
    missing field or one that `parseInt`/`parseFloat` reads as NaN. */
module GoogleAds {
  import opened Wrappers
  import opened JsText
  import opened Metrics
  import Formatters

  /** The `metrics` object of one search result row. */
  datatype RowMetrics = RowMetrics(
    clicks: Option<int>,
    impressions: Option<int>,
    costMicros: Option<int>,
    conversions: Option<real>,
    conversionsValue: Option<real>,
    ctr: Option<real>,
    averageCpc: Option<real>,
    valuePerConversion: Option<real>)

  /** The `campaign` object of one search result row. */
  datatype Campaign = Campaign(name: Option<string>, status: Option<string>)

  datatype ResultRow = ResultRow(campaign: Option<Campaign>, metrics: Option<RowMetrics>)

  /** A search response; `results` may be absent. */
  datatype SearchResponse = SearchResponse(results: Option<seq<ResultRow>>)

  /** `{}`: a missing metrics object has every field missing. */
  const NoMetrics := RowMetrics(None, None, None, None, None, None, None, None)

  function MetricsOf(row: ResultRow): RowMetrics {
    row.metrics.GetOr(NoMetrics)
  }

  function Results(response: SearchResponse): seq<ResultRow> {
    response.results.GetOr([])
  }

  /** The accumulator of the metrics fold. */
  datatype Totals = Totals(
    clicks: int,
    impressions: int,
    costMicros: int,
    conversions: real,
    conversionValue: real,
    ctr: real,
    avgCpc: real)

  const ZeroTotals := Totals(0, 0, 0, 0.0, 0.0, 0.0, 0.0)

  /** One step of the fold: every field is added, an unparsable one as 0. */
  function AddRow(acc: Totals, m: RowMetrics): Totals {
    Totals(
      acc.clicks + m.clicks.GetOr(0),
      acc.impressions + m.impressions.GetOr(0),
      acc.costMicros + m.costMicros.GetOr(0),
      acc.conversions + m.conversions.GetOr(0.0),
      acc.conversionValue + m.conversionsValue.GetOr(0.0),
      acc.ctr + m.ctr.GetOr(0.0),
      acc.avgCpc + m.averageCpc.GetOr(0.0))
  }

  /** `results.reduce(…, {})`, folding from the first row to the last. */
  function Aggregate(rows: seq<ResultRow>): Totals {
    if rows == [] then ZeroTotals
    else AddRow(Aggregate(rows[..|rows| - 1]), MetricsOf(rows[|rows| - 1]))
  }

  /** Field-wise sum of two accumulators. */
  function Combine(a: Totals, b: Totals): Totals {
    Totals(a.clicks + b.clicks, a.impressions + b.impressions, a.costMicros + b.costMicros,
      a.conversions + b.conversions, a.conversionValue + b.conversionValue,
      a.ctr + b.ctr, a.avgCpc + b.avgCpc)
  }

  /** The sum of one integer counter over the rows, first row first. */
  function SumOf(rows: seq<ResultRow>, field: RowMetrics -> Option<int>): int {
    if rows == [] then 0 else field(MetricsOf(rows[0])).GetOr(0) + SumOf(rows[1..], field)
  }

  /** The fold is a sum: aggregating two batches of rows one after the other is
      the field-wise sum of aggregating each. */
  lemma {:induction false} AggregateAppend(a: seq<ResultRow>, b: seq<ResultRow>)
    ensures Aggregate(a + b) == Combine(Aggregate(a), Aggregate(b))
    decreases |b|
  {
    if b == [] {
      assert a + b == a;
    } else {
      assert (a + b)[..|a + b| - 1] == a + b[..|b| - 1];
      assert (a + b)[|a + b| - 1] == b[|b| - 1];
      AggregateAppend(a, b[..|b| - 1]);
    }
  }

  /** The clicks, impressions and micros totals are the sums of the rows' parsed
      counters, each unparsable or missing field counting 0. */
  lemma {:induction false} AggregateCounters(rows: seq<ResultRow>)
    ensures Aggregate(rows).clicks == SumOf(rows, (m: RowMetrics) => m.clicks)
    ensures Aggregate(rows).impressions == SumOf(rows, (m: RowMetrics) => m.impressions)
    ensures Aggregate(rows).costMicros == SumOf(rows, (m: RowMetrics) => m.costMicros)
    decreases |rows|
  {
    if rows != [] {
      AggregateAppend([rows[0]], rows[1..]);
      assert [rows[0]] + rows[1..] == rows;
      assert Aggregate([rows[0]]) == AddRow(ZeroTotals, MetricsOf(rows[0])) by {
        assert [rows[0]][..0] == [];
      }
      AggregateCounters(rows[1..]);
    }
  }

  /** A row without a metrics object leaves the totals as they were. */
  lemma AggregateSkipsEmptyRow(rows: seq<ResultRow>, campaign: Option<Campaign>)
    ensures Aggregate(rows + [ResultRow(campaign, None)]) == Aggregate(rows)
  {
    assert (rows + [ResultRow(campaign, None)])[..|rows|] == rows;
  }

  /** `aggregated.costMicros / 1000000`. */
  function Cost(t: Totals): real {
    t.costMicros as real / 1000000.0
  }

  function Roas(t: Totals): real {
    GuardedRatio(t.conversionValue, Cost(t))
  }

  function Cpc(t: Totals): real {
    GuardedRatio(Cost(t), t.clicks as real)
  }

  function Ctr(t: Totals): real {
    GuardedRatio(t.clicks as real, t.impressions as real) * 100.0
  }

  /** Each derived ratio is guarded: 0 when its denominator is not positive,
      otherwise the quotient. */
  lemma DerivedRatios(t: Totals)
    ensures Cost(t) * 1000000.0 == t.costMicros as real
    ensures Cost(t) <= 0.0 ==> Roas(t) == 0.0
    ensures Cost(t) > 0.0 ==> Roas(t) * Cost(t) == t.conversionValue
    ensures t.clicks <= 0 ==> Cpc(t) == 0.0
    ensures t.clicks > 0 ==> Cpc(t) * t.clicks as real == Cost(t)
    ensures t.impressions <= 0 ==> Ctr(t) == 0.0
    ensures t.impressions > 0 ==> Ctr(t) * t.impressions as real == t.clicks as real * 100.0
  {
    if t.impressions > 0 {
      var q := GuardedRatio(t.clicks as real, t.impressions as real);
      assert q * t.impressions as real == t.clicks as real;
      assert Ctr(t) * t.impressions as real == (q * t.impressions as real) * 100.0;
    }
  }

  /** The metric names, in display order. */
  const MetricOrder: seq<string> :=
    ["clicks", "impressions", "cost", "conversions", "revenue", "roas", "ctr", "cpc"]

  /** getEmptyMetrics */
  function EmptyMetrics(): (r: seq<KeyMetric>)
    ensures InOrder(r, MetricOrder)
    ensures forall i | 0 <= i < 8 :: r[i].deltaPct == 0.0
  {
    [ KeyMetric("clicks", "0", 0.0),
      KeyMetric("impressions", "0", 0.0),
      KeyMetric("cost", "$0.00", 0.0),
      KeyMetric("conversions", "0", 0.0),
      KeyMetric("revenue", "$0.00", 0.0),
      KeyMetric("roas", "0.00", 0.0),
      KeyMetric("ctr", "0.00%", 0.0),
      KeyMetric("cpc", "$0.00", 0.0) ]
  }

  /** The empty metrics are what the live rendering gives for totals whose
      counters and sums are all zero, ZeroTotals among them. */
  lemma EmptyMetricsAreZeroTotals(t: Totals)
    requires t.clicks == 0 && t.impressions == 0 && t.costMicros == 0
    requires t.conversions == 0.0 && t.conversionValue == 0.0
    ensures forall i | 0 <= i < 8 :: EmptyMetrics()[i].value == LiveValues(t)[i]
  {
    LiveValuesOfZeroTotals(t);
    EmptyMetricValues();
  }

  /** The displayed values of the empty metrics. */
  const ZeroValues: seq<string> := ["0", "0", "$0.00", "0", "$0.00", "0.00", "0.00%", "$0.00"]

  lemma EmptyMetricValues()
    ensures forall i | 0 <= i < 8 :: EmptyMetrics()[i].value == ZeroValues[i]
  {
  }

  lemma LiveValuesOfZeroTotals(t: Totals)
    requires t.clicks == 0 && t.impressions == 0 && t.costMicros == 0
    requires t.conversions == 0.0 && t.conversionValue == 0.0
    ensures LiveValues(t) == ZeroValues
  {
    assert FormatNumber(0) == "0" by {
      assert NatToString(0) == "0";
    }
    assert Cost(t) == 0.0;
    assert Roas(t) == 0.0 && Ctr(t) == 0.0 && Cpc(t) == 0.0;
    ZeroRenderings();
    ToFixedZero();
  }

  /** The displayed values of the eight live entries, in display order. */
  function LiveValues(t: Totals): (r: seq<string>)
    ensures |r| == 8
  {
    [ FormatNumber(t.clicks),
      FormatNumber(t.impressions),
      Money(Cost(t)),
      ToFixed(t.conversions, 0),
      Money(t.conversionValue),
      ToFixed(Roas(t), 2),
      Percent(Ctr(t)),
      Money(Cpc(t)) ]
  }

  /** The eight live entries for non-empty results; `randoms` are the eight draws. */
  function LiveMetrics(t: Totals, randoms: seq<real>): (r: seq<KeyMetric>)
    requires |randoms| == 8
    ensures InOrder(r, MetricOrder)
    ensures forall i | 0 <= i < 8 :: r[i].value == LiveValues(t)[i] && r[i].deltaPct == DeltaPct(randoms[i])
  {
    var values := LiveValues(t);
    seq(8, i requires 0 <= i < 8 => KeyMetric(MetricOrder[i], values[i], DeltaPct(randoms[i])))
  }

  /** processMetricsResponse; `randoms` are the Math.random draws for the deltas. */
  function ProcessMetricsResponse(response: SearchResponse, randoms: seq<real>): (r: seq<KeyMetric>)
    requires |randoms| == 8
    ensures InOrder(r, MetricOrder)
    ensures Results(response) == [] ==> r == EmptyMetrics()
    ensures Results(response) != [] ==> r == LiveMetrics(Aggregate(Results(response)), randoms)
  {
    var results := Results(response);
    if |results| == 0 then EmptyMetrics()
    else LiveMetrics(Aggregate(results), randoms)
  }

  /** With every draw of Math.random in [0, 1), every delta lies in [-20, 20). */
  lemma DeltasBounded(response: SearchResponse, randoms: seq<real>)
    requires |randoms| == 8
    requires forall i | 0 <= i < 8 :: 0.0 <= randoms[i] < 1.0
    ensures forall i | 0 <= i < 8 ::
      -20.0 <= ProcessMetricsResponse(response, randoms)[i].deltaPct < 20.0
  {
  }

  /** The worked example of the normaliser: 1000 clicks, 50000 impressions,
      2000000 micros and 500 in conversion value give ROAS 250.00 and CTR 2.00%. */
  lemma WorkedExample(randoms: seq<real>)
    requires |randoms| == 8
    ensures var m := RowMetrics(Some(1000), Some(50000), Some(2000000), Some(10.0), Some(500.0), None, None, None);
      var r := ProcessMetricsResponse(SearchResponse(Some([ResultRow(None, Some(m))])), randoms);
      r[5].value == "250.00" && r[6].value == "2.00%"
  {
    var m := RowMetrics(Some(1000), Some(50000), Some(2000000), Some(10.0), Some(500.0), None, None, None);
    var response := SearchResponse(Some([ResultRow(None, Some(m))]));
    var t := Totals(1000, 50000, 2000000, 10.0, 500.0, 0.0, 0.0);
    AggregateSingle(ResultRow(None, Some(m)));
    assert Aggregate(Results(response)) == t;
    WorkedRatios(t);
  }

  lemma WorkedRatios(t: Totals)
    requires t.clicks == 1000 && t.impressions == 50000 && t.costMicros == 2000000
    requires t.conversionValue == 500.0
    ensures LiveValues(t)[5] == "250.00" && LiveValues(t)[6] == "2.00%"
  {
    WorkedRoas(t);
    WorkedCtr(t);
  }

  lemma WorkedRoas(t: Totals)
    requires t.costMicros == 2000000 && t.conversionValue == 500.0
    ensures LiveValues(t)[5] == "250.00"
  {
    assert Cost(t) == 2.0;
    assert Roas(t) == 250.0;
    RoasText();
  }

  lemma WorkedCtr(t: Totals)
    requires t.clicks == 1000 && t.impressions == 50000
    ensures LiveValues(t)[6] == "2.00%"
  {
    WorkedCtrRatio(t);
    CtrText();
  }

  lemma WorkedCtrRatio(t: Totals)
    requires t.clicks == 1000 && t.impressions == 50000
    ensures Ctr(t) == 2.0
  {
    assert 1000.0 / 50000.0 == 0.02;
  }

  lemma AggregateSingle(row: ResultRow)
    ensures Aggregate([row]) == AddRow(ZeroTotals, MetricsOf(row))
  {
    assert [row][..0] == [];
  }

  lemma RoasText()
    ensures ToFixed(250.0, 2) == "250.00"
  {
    assert Scale(250.0, 2) == 25000.0 by {
      assert Scale(250.0, 1) == 2500.0;
    }
    FixedOfWhole(250.0, 2, 25000);
    RoasDigits();
  }

  lemma RoasDigits()
    ensures PointDigits(25000, 2) == "250.00"
  {
    var s25 := NatToString(25);
    assert s25 == "25" by {
      assert NatToString(2) == "2";
    }
    var s2500 := NatToString(2500);
    assert s2500 == s25 + "00" by {
      assert NatToString(250) == s25 + "0";
    }
    var m := NatToString(25000);
    assert m == s2500 + "0";
    assert PadDigits(m, 3) == m;
    assert m[..3] == "250" && m[3..] == "00";
  }

  lemma CtrText()
    ensures ToFixed(2.0, 2) == "2.00"
  {
    assert Scale(2.0, 2) == 200.0 by {
      assert Scale(2.0, 1) == 20.0;
    }
    FixedOfWhole(2.0, 2, 200);
    CtrDigits();
  }

  lemma CtrDigits()
    ensures PointDigits(200, 2) == "2.00"
  {
    var m := NatToString(200);
    assert m == "200" by {
      assert NatToString(2) == "2";
      assert NatToString(20) == "20";
    }
    assert PadDigits(m, 3) == m;
  }

  /** The campaign's spend, `(parseInt(cost_micros) || 0) / 1000000`. */
  function Spend(m: RowMetrics): real {
    m.costMicros.GetOr(0) as real / 1000000.0
  }

  /** The campaign's CPC, `(parseFloat(average_cpc) || 0) / 1000000`. */
  function CampaignCpc(m: RowMetrics): real {
    m.averageCpc.GetOr(0.0) / 1000000.0
  }

  /** One campaign table row: name, spend, CPC, revenue, ROAS, status. */
  function CampaignRowOf(row: ResultRow): (r: CampaignRow)
    ensures |r| == 6
  {
    var campaign := row.campaign.GetOr(Campaign(None, None));
    var m := MetricsOf(row);
    [ DisplayName(campaign.name),
      Money(Spend(m)),
      Money(CampaignCpc(m)),
      Money(m.conversionsValue.GetOr(0.0)),
      ToFixed(m.valuePerConversion.GetOr(0.0), 2),
      MapCampaignStatus(campaign.status) ]
  }

  /** processCampaignsResponse: one row per result, in order. */
  function ProcessCampaignsResponse(response: SearchResponse): (r: seq<CampaignRow>)
    ensures |r| == |Results(response)|
    ensures forall i | 0 <= i < |r| :: r[i] == CampaignRowOf(Results(response)[i])
  {
    var rows := Results(response);
    seq(|rows|, i requires 0 <= i < |rows| => CampaignRowOf(rows[i]))
  }

  /** With a single result, the campaign table and the key metrics agree on money:
      the campaign's spend is the metrics' spend and its revenue is the metrics'
      conversion value, both read from the same micros and values. */
  lemma SoleCampaignMatchesTotals(row: ResultRow, randoms: seq<real>)
    requires |randoms| == 8
    ensures var response := SearchResponse(Some([row]));
      var campaigns := ProcessCampaignsResponse(response);
      var metrics := ProcessMetricsResponse(response, randoms);
      |campaigns| == 1
      && campaigns[0][1] == metrics[2].value && campaigns[0][3] == metrics[4].value
  {
    SoleResultMoney(row, randoms);
    SoleCampaignMoney(row);
  }

  lemma SoleCampaignMoney(row: ResultRow)
    ensures var campaigns := ProcessCampaignsResponse(SearchResponse(Some([row])));
      |campaigns| == 1
      && campaigns[0][1] == Money(Spend(MetricsOf(row)))
      && campaigns[0][3] == Money(MetricsOf(row).conversionsValue.GetOr(0.0))
  {
    var response := SearchResponse(Some([row]));
    assert Results(response) == [row];
    assert ProcessCampaignsResponse(response)[0] == CampaignRowOf(row);
    CampaignSpend(row);
    CampaignRevenue(row);
  }

  lemma CampaignSpend(row: ResultRow)
    ensures CampaignRowOf(row)[1] == Money(Spend(MetricsOf(row)))
  {
    var spend := Spend(MetricsOf(row));
    assert CampaignRowOf(row)[1] == Money(spend);
  }

  lemma CampaignCpcColumn(row: ResultRow)
    ensures CampaignRowOf(row)[2] == Money(CampaignCpc(MetricsOf(row)))
  {
  }

  lemma CampaignRevenue(row: ResultRow)
    ensures CampaignRowOf(row)[3] == Money(MetricsOf(row).conversionsValue.GetOr(0.0))
  {
  }

  lemma SoleResultMoney(row: ResultRow, randoms: seq<real>)
    requires |randoms| == 8
    ensures var metrics := ProcessMetricsResponse(SearchResponse(Some([row])), randoms);
      metrics[2].value == Money(Spend(MetricsOf(row)))
      && metrics[4].value == Money(MetricsOf(row).conversionsValue.GetOr(0.0))
  {
    var response := SearchResponse(Some([row]));
    assert Results(response) == [row];
    SoleResultTotals(row);
    MoneyValues(response, randoms);
  }

  lemma SoleResultTotals(row: ResultRow)
    ensures Cost(Aggregate([row])) == Spend(MetricsOf(row))
    ensures Aggregate([row]).conversionValue == MetricsOf(row).conversionsValue.GetOr(0.0)
  {
    AggregateSingle(row);
  }

  lemma MoneyValues(response: SearchResponse, randoms: seq<real>)
    requires |randoms| == 8 && Results(response) != []
    ensures var t := Aggregate(Results(response));
      var metrics := ProcessMetricsResponse(response, randoms);
      metrics[2].value == Money(Cost(t)) && metrics[4].value == Money(t.conversionValue)
  {
  }

  /** The campaign ROAS column is the reported value per conversion, not revenue
      over spend: on the worked example's row, which reports none, the campaign
      shows "0.00" while the key metrics show a ROAS of "250.00". */
  lemma CampaignRoasIsNotAccountRoas(randoms: seq<real>)
    requires |randoms| == 8
    ensures var m := RowMetrics(Some(1000), Some(50000), Some(2000000), Some(10.0), Some(500.0), None, None, None);
      var response := SearchResponse(Some([ResultRow(None, Some(m))]));
      ProcessCampaignsResponse(response)[0][4] == "0.00"
      && ProcessMetricsResponse(response, randoms)[5].value == "250.00"
  {
    WorkedExample(randoms);
    WorkedCampaignRoas();
  }

  lemma WorkedCampaignRoas()
    ensures var m := RowMetrics(Some(1000), Some(50000), Some(2000000), Some(10.0), Some(500.0), None, None, None);
      ProcessCampaignsResponse(SearchResponse(Some([ResultRow(None, Some(m))])))[0][4] == "0.00"
  {
    var m := RowMetrics(Some(1000), Some(50000), Some(2000000), Some(10.0), Some(500.0), None, None, None);
    var row := ResultRow(None, Some(m));
    assert ProcessCampaignsResponse(SearchResponse(Some([row])))[0] == CampaignRowOf(row);
    CampaignRoasColumn(row);
    ZeroRenderings();
  }

  lemma CampaignRoasColumn(row: ResultRow)
    ensures CampaignRowOf(row)[4] == ToFixed(MetricsOf(row).valuePerConversion.GetOr(0.0), 2)
  {
  }

  /** A row without metrics shows zero money columns and a zero ROAS. */
  lemma CampaignRowWithoutMetrics(row: ResultRow)
    requires row.metrics.None?
    ensures CampaignRowOf(row)[1] == "$0.00" && CampaignRowOf(row)[2] == "$0.00"
    ensures CampaignRowOf(row)[3] == "$0.00" && CampaignRowOf(row)[4] == "0.00"
  {
    ZeroCostColumns(row);
    ZeroValueColumns(row);
  }

  lemma ZeroCostColumns(row: ResultRow)
    requires row.metrics.None?
    ensures CampaignRowOf(row)[1] == "$0.00" && CampaignRowOf(row)[2] == "$0.00"
  {
    ZeroSpendColumn(row);
    ZeroCpcColumn(row);
  }

  lemma ZeroSpendColumn(row: ResultRow)
    requires row.metrics.None?
    ensures CampaignRowOf(row)[1] == "$0.00"
  {
    CampaignSpend(row);
    NoMetricsCost(row);
    ZeroRenderings();
  }

  lemma ZeroCpcColumn(row: ResultRow)
    requires row.metrics.None?
    ensures CampaignRowOf(row)[2] == "$0.00"
  {
    CampaignCpcColumn(row);
    NoMetricsCost(row);
    ZeroRenderings();
  }

  lemma NoMetricsCost(row: ResultRow)
    requires row.metrics.None?
    ensures Spend(MetricsOf(row)) == 0.0 && CampaignCpc(MetricsOf(row)) == 0.0
  {
    assert MetricsOf(row) == NoMetrics;
  }

  lemma ZeroValueColumns(row: ResultRow)
    requires row.metrics.None?
    ensures CampaignRowOf(row)[3] == "$0.00" && CampaignRowOf(row)[4] == "0.00"
  {
    ZeroRenderings();
  }

  const StatusTable: map<string, string> :=
    map["ENABLED" := "Active", "PAUSED" := "Paused", "REMOVED" := "Removed"]

  /** mapCampaignStatus */
  function MapCampaignStatus(status: Option<string>): (r: string)
    ensures status.Some? && status.value in StatusTable ==> r == StatusTable[status.value]
    ensures r == "Unknown" <==> status.None? || status.value !in StatusTable
  {
    if status.Some? && status.value in StatusTable then StatusTable[status.value] else "Unknown"
  }

  lemma StatusExamples()
    ensures MapCampaignStatus(Some("ENABLED")) == "Active"
    ensures MapCampaignStatus(Some("PAUSED")) == "Paused"
    ensures MapCampaignStatus(Some("REMOVED")) == "Removed"
    ensures MapCampaignStatus(Some("ACTIVE")) == "Unknown"
    ensures MapCampaignStatus(None) == "Unknown"
  {
  }

  /** The client's own formatNumber: the shared magnitude rule, without the
      non-number guard. */
  function FormatNumber(num: int): (r: string)
    ensures r == Formatters.FormatNumber(Some(num as real))
    ensures num < 1000 ==> r == IntToString(num)
  {
    if num >= 1000000 then ToFixed(num as real / 1000000.0, 1) + "M"
    else if num >= 1000 then ToFixed(num as real / 1000.0, 1) + "k"
    else
      NumberToStringOfInt(num);
      NumberToString(num as real)
  }
}
