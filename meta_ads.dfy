/** The Meta Ads response normalisers (app/services/meta-ads.server.js): the
    account insights row, the action sums, the campaign rows, the status table,
    and the per-campaign fallback of fetchCampaigns. Payload fields arrive
    already parsed: `None` is a missing field or one that `parseInt`/`parseFloat`
    reads as NaN. */
module MetaAds {
  import opened Wrappers
  import opened JsText
  import opened Metrics
  import Formatters

  /** One entry of `actions` (T = int, read with parseInt) or of
      `action_values` (T = real, read with parseFloat). */
  datatype Action<T> = Action(actionType: Option<string>, value: Option<T>)

  /** One insights object. `keys` are the keys the object has; `actions` and
      `actionValues` are None when the field is not an array. */
  datatype Insights = Insights(
    keys: set<string>,
    clicks: Option<int>,
    impressions: Option<int>,
    spend: Option<real>,
    reach: Option<int>,
    ctr: Option<real>,
    cpm: Option<real>,
    cpc: Option<real>,
    actions: Option<seq<Action<int>>>,
    actionValues: Option<seq<Action<real>>>)

  /** `{}` */
  const EmptyInsights := Insights({}, None, None, None, None, None, None, None, None, None)

  /** An insights response; `data` may be absent. */
  datatype InsightsResponse = InsightsResponse(data: Option<seq<Insights>>)

  /** `response.data?.[0] || {}` */
  function FirstRow(response: InsightsResponse): Insights {
    if response.data.Some? && |response.data.value| > 0 then response.data.value[0] else EmptyInsights
  }

  const ConversionTypes: set<string> := {"purchase", "lead", "complete_registration"}
  const RevenueTypes: set<string> := {"purchase"}

  function HasType<T>(a: Action<T>, types: set<string>): bool {
    a.actionType.Some? && a.actionType.value in types
  }

  /** extractConversions: the reduce over `actions`, first entry first. */
  function ExtractConversions(actions: Option<seq<Action<int>>>): (r: int)
    ensures actions.None? ==> r == 0
  {
    match actions
    case None => 0
    case Some(xs) => ConversionsFold(xs)
  }

  function ConversionsFold(xs: seq<Action<int>>): int {
    if xs == [] then 0
    else
      var total := ConversionsFold(xs[..|xs| - 1]);
      var a := xs[|xs| - 1];
      if HasType(a, ConversionTypes) then total + a.value.GetOr(0) else total
  }

  /** extractRevenue: the reduce over `action_values`, first entry first. */
  function ExtractRevenue(actionValues: Option<seq<Action<real>>>): (r: real)
    ensures actionValues.None? ==> r == 0.0
  {
    match actionValues
    case None => 0.0
    case Some(xs) => RevenueFold(xs)
  }

  function RevenueFold(xs: seq<Action<real>>): real {
    if xs == [] then 0.0
    else
      var total := RevenueFold(xs[..|xs| - 1]);
      var a := xs[|xs| - 1];
      if HasType(a, RevenueTypes) then total + a.value.GetOr(0.0) else total
  }

  /** The entries whose type is one of `types`, in order. */
  function Filter<T>(xs: seq<Action<T>>, types: set<string>): (r: seq<Action<T>>)
    ensures forall i | 0 <= i < |r| :: HasType(r[i], types)
    ensures |r| <= |xs|
  {
    if xs == [] then []
    else (if HasType(xs[0], types) then [xs[0]] else []) + Filter(xs[1..], types)
  }

  /** Sum of the parsed values, an unparsable one counting 0. */
  function IntTotal(xs: seq<Action<int>>): int {
    if xs == [] then 0 else xs[0].value.GetOr(0) + IntTotal(xs[1..])
  }

  function RealTotal(xs: seq<Action<real>>): real {
    if xs == [] then 0.0 else xs[0].value.GetOr(0.0) + RealTotal(xs[1..])
  }

  lemma {:induction false} FilterAppend<T>(xs: seq<Action<T>>, a: Action<T>, types: set<string>)
    ensures Filter(xs + [a], types) == Filter(xs, types) + (if HasType(a, types) then [a] else [])
    decreases |xs|
  {
    if xs == [] {
      assert [a][1..] == [];
    } else {
      assert (xs + [a])[1..] == xs[1..] + [a];
      FilterAppend(xs[1..], a, types);
    }
  }

  lemma {:induction false} IntTotalAppend(xs: seq<Action<int>>, ys: seq<Action<int>>)
    ensures IntTotal(xs + ys) == IntTotal(xs) + IntTotal(ys)
    decreases |xs|
  {
    if xs == [] {
      assert xs + ys == ys;
    } else {
      assert (xs + ys)[1..] == xs[1..] + ys;
      IntTotalAppend(xs[1..], ys);
    }
  }

  lemma {:induction false} RealTotalAppend(xs: seq<Action<real>>, ys: seq<Action<real>>)
    ensures RealTotal(xs + ys) == RealTotal(xs) + RealTotal(ys)
    decreases |xs|
  {
    if xs == [] {
      assert xs + ys == ys;
    } else {
      assert (xs + ys)[1..] == xs[1..] + ys;
      RealTotalAppend(xs[1..], ys);
    }
  }

  /** Conversions are the total of the purchase, lead and complete_registration
      entries; every other entry is ignored. */
  lemma {:induction false} ConversionsAreFilteredTotal(xs: seq<Action<int>>)
    ensures ExtractConversions(Some(xs)) == IntTotal(Filter(xs, ConversionTypes))
    decreases |xs|
  {
    if xs != [] {
      var init, a := xs[..|xs| - 1], xs[|xs| - 1];
      assert xs == init + [a];
      ConversionsAreFilteredTotal(init);
      FilterAppend(init, a, ConversionTypes);
      IntTotalAppend(Filter(init, ConversionTypes), if HasType(a, ConversionTypes) then [a] else []);
    }
  }

  /** Revenue is the total of the purchase entries only. */
  lemma {:induction false} RevenueIsPurchaseTotal(xs: seq<Action<real>>)
    ensures ExtractRevenue(Some(xs)) == RealTotal(Filter(xs, RevenueTypes))
    decreases |xs|
  {
    if xs != [] {
      var init, a := xs[..|xs| - 1], xs[|xs| - 1];
      assert xs == init + [a];
      RevenueIsPurchaseTotal(init);
      FilterAppend(init, a, RevenueTypes);
      RealTotalAppend(Filter(init, RevenueTypes), if HasType(a, RevenueTypes) then [a] else []);
    }
  }

  /** When no entry has a counted type the sums are 0. */
  lemma NothingCounted(xs: seq<Action<int>>, ys: seq<Action<real>>)
    requires forall i | 0 <= i < |xs| :: !HasType(xs[i], ConversionTypes)
    requires forall i | 0 <= i < |ys| :: !HasType(ys[i], RevenueTypes)
    ensures ExtractConversions(Some(xs)) == 0 && ExtractRevenue(Some(ys)) == 0.0
  {
    ConversionsAreFilteredTotal(xs);
    RevenueIsPurchaseTotal(ys);
    FilterNone(xs, ConversionTypes);
    FilterNone(ys, RevenueTypes);
  }

  lemma {:induction false} FilterNone<T>(xs: seq<Action<T>>, types: set<string>)
    requires forall i | 0 <= i < |xs| :: !HasType(xs[i], types)
    ensures Filter(xs, types) == []
    decreases |xs|
  {
    if xs != [] {
      FilterNone(xs[1..], types);
    }
  }

  /** The metric names, in display order. */
  const MetricOrder: seq<string> :=
    ["reach", "impressions", "cost", "clicks", "conversions", "revenue", "roas", "ctr", "cpm", "cpc"]

  /** getEmptyMetrics */
  function EmptyMetrics(): (r: seq<KeyMetric>)
    ensures InOrder(r, MetricOrder)
    ensures forall i | 0 <= i < 10 :: r[i].deltaPct == 0.0
  {
    [ KeyMetric("reach", "0", 0.0),
      KeyMetric("impressions", "0", 0.0),
      KeyMetric("cost", "$0.00", 0.0),
      KeyMetric("clicks", "0", 0.0),
      KeyMetric("conversions", "0", 0.0),
      KeyMetric("revenue", "$0.00", 0.0),
      KeyMetric("roas", "0.00", 0.0),
      KeyMetric("ctr", "0.00%", 0.0),
      KeyMetric("cpm", "$0.00", 0.0),
      KeyMetric("cpc", "$0.00", 0.0) ]
  }

  /** `spend > 0 ? revenue / spend : 0` over one insights object. */
  function Roas(row: Insights): real {
    GuardedRatio(ExtractRevenue(row.actionValues), row.spend.GetOr(0.0))
  }

  /** ROAS is guarded against a spend that is missing, zero or negative. */
  lemma RoasGuard(row: Insights)
    ensures row.spend.GetOr(0.0) <= 0.0 ==> Roas(row) == 0.0
    ensures row.spend.GetOr(0.0) > 0.0 ==>
      Roas(row) * row.spend.GetOr(0.0) == ExtractRevenue(row.actionValues)
  {
  }

  /** The displayed values of the ten live entries, in display order. */
  function LiveValues(row: Insights): (r: seq<string>)
    ensures |r| == 10
  {
    [ FormatNumber(row.reach.GetOr(0)),
      FormatNumber(row.impressions.GetOr(0)),
      Money(row.spend.GetOr(0.0)),
      FormatNumber(row.clicks.GetOr(0)),
      IntToString(ExtractConversions(row.actions)),
      Money(ExtractRevenue(row.actionValues)),
      ToFixed(Roas(row), 2),
      Percent(row.ctr.GetOr(0.0)),
      Money(row.cpm.GetOr(0.0)),
      Money(row.cpc.GetOr(0.0)) ]
  }

  /** CTR, CPM and CPC are shown as the payload reports them, not derived from
      the counters: two rows that report the same rates show the same last three
      columns, whatever their clicks, impressions, spend and actions. */
  lemma RatesIgnoreCounters(a: Insights, b: Insights)
    requires a.ctr == b.ctr && a.cpm == b.cpm && a.cpc == b.cpc
    ensures LiveValues(a)[7..] == LiveValues(b)[7..]
  {
    RateColumns(a);
    RateColumns(b);
  }

  lemma RateColumns(row: Insights)
    ensures LiveValues(row)[7..] == [Percent(row.ctr.GetOr(0.0)), Money(row.cpm.GetOr(0.0)), Money(row.cpc.GetOr(0.0))]
  {
    var v := LiveValues(row);
    assert v[7..] == [v[7], v[8], v[9]];
  }

  /** A row with 10 clicks on 1000 impressions that reports no CTR shows "0.00%",
      not the 1% the counters would give. */
  lemma CtrNotDerived()
    ensures LiveValues(EmptyInsights.(clicks := Some(10), impressions := Some(1000)))[7] == "0.00%"
  {
    ZeroRenderings();
  }

  function LiveMetrics(row: Insights, randoms: seq<real>): (r: seq<KeyMetric>)
    requires |randoms| == 10
    ensures InOrder(r, MetricOrder)
    ensures forall i | 0 <= i < 10 :: r[i].value == LiveValues(row)[i] && r[i].deltaPct == DeltaPct(randoms[i])
  {
    var values := LiveValues(row);
    seq(10, i requires 0 <= i < 10 => KeyMetric(MetricOrder[i], values[i], DeltaPct(randoms[i])))
  }

  /** processMetricsResponse; `randoms` are the Math.random draws for the deltas. */
  function ProcessMetricsResponse(response: InsightsResponse, randoms: seq<real>): (r: seq<KeyMetric>)
    requires |randoms| == 10
    ensures InOrder(r, MetricOrder)
    ensures FirstRow(response).keys == {} ==> r == EmptyMetrics()
    ensures FirstRow(response).keys != {} ==> r == LiveMetrics(FirstRow(response), randoms)
  {
    var data := FirstRow(response);
    if data.keys == {} then EmptyMetrics() else LiveMetrics(data, randoms)
  }

  /** A missing or empty `data` array gives the zero metrics. */
  lemma NoDataGivesEmptyMetrics(randoms: seq<real>)
    requires |randoms| == 10
    ensures ProcessMetricsResponse(InsightsResponse(None), randoms) == EmptyMetrics()
    ensures ProcessMetricsResponse(InsightsResponse(Some([])), randoms) == EmptyMetrics()
  {
  }

  /** A row whose counters, sums and rates are all missing or zero renders as
      the empty metrics; `{}` is one. */
  predicate AllZero(row: Insights) {
    row.reach.GetOr(0) == 0 && row.impressions.GetOr(0) == 0 && row.clicks.GetOr(0) == 0
    && row.spend.GetOr(0.0) == 0.0 && row.ctr.GetOr(0.0) == 0.0
    && row.cpm.GetOr(0.0) == 0.0 && row.cpc.GetOr(0.0) == 0.0
    && ExtractConversions(row.actions) == 0 && ExtractRevenue(row.actionValues) == 0.0
  }

  /** The empty metrics are what the live rendering gives for an all-zero
      insights row, such as one whose every field is missing. */
  lemma EmptyMetricsAreZeroInsights(row: Insights)
    requires AllZero(row)
    ensures forall i | 0 <= i < 10 :: EmptyMetrics()[i].value == LiveValues(row)[i]
  {
    LiveValuesOfZeroInsights(row);
    EmptyMetricValues();
  }

  /** The displayed values of the empty metrics. */
  const ZeroValues: seq<string> :=
    ["0", "0", "$0.00", "0", "0", "$0.00", "0.00", "0.00%", "$0.00", "$0.00"]

  lemma EmptyMetricValues()
    ensures forall i | 0 <= i < 10 :: EmptyMetrics()[i].value == ZeroValues[i]
  {
  }

  lemma LiveValuesOfZeroInsights(row: Insights)
    requires AllZero(row)
    ensures LiveValues(row) == ZeroValues
  {
    var zero := IntToString(0);
    assert zero == "0" by {
      assert NatToString(0) == "0";
    }
    assert FormatNumber(0) == zero;
    assert Roas(row) == 0.0;
    ZeroRenderings();
  }

  lemma EmptyInsightsAreZero()
    ensures AllZero(EmptyInsights)
  {
  }

  /** One element of the list fetchCampaigns builds: a campaign and its insights. */
  datatype MetaCampaign = MetaCampaign(id: string, name: Option<string>, status: Option<string>)

  datatype CampaignInsights = CampaignInsights(campaign: MetaCampaign, insights: Insights)

  /** One campaign table row: name, spend, CPC, revenue, ROAS, status. */
  function CampaignRowOf(item: CampaignInsights): (r: CampaignRow)
    ensures |r| == 6
    ensures r[0] == DisplayName(item.campaign.name)
    ensures r[5] == MapCampaignStatus(item.campaign.status)
  {
    var i := item.insights;
    [ DisplayName(item.campaign.name),
      Money(i.spend.GetOr(0.0)),
      Money(i.cpc.GetOr(0.0)),
      Money(ExtractRevenue(i.actionValues)),
      ToFixed(Roas(i), 2),
      MapCampaignStatus(item.campaign.status) ]
  }

  /** A campaign without insights shows zero money columns and a zero ROAS. */
  lemma CampaignRowWithoutInsights(c: MetaCampaign)
    ensures CampaignRowOf(CampaignInsights(c, EmptyInsights))[1..5] == ["$0.00", "$0.00", "$0.00", "0.00"]
  {
    var r := CampaignRowOf(CampaignInsights(c, EmptyInsights));
    EmptyInsightsMoney(c);
    EmptyInsightsRoas(c);
    assert r[1..5] == [r[1], r[2], r[3], r[4]];
  }

  lemma EmptyInsightsMoney(c: MetaCampaign)
    ensures var r := CampaignRowOf(CampaignInsights(c, EmptyInsights));
      r[1] == "$0.00" && r[2] == "$0.00" && r[3] == "$0.00"
  {
    ZeroRenderings();
  }

  lemma EmptyInsightsRoas(c: MetaCampaign)
    ensures CampaignRowOf(CampaignInsights(c, EmptyInsights))[4] == "0.00"
  {
    assert Roas(EmptyInsights) == 0.0;
    ZeroRenderings();
  }

  /** processCampaignsResponse: one row per element, in order. */
  function ProcessCampaignsResponse(items: seq<CampaignInsights>): (r: seq<CampaignRow>)
    ensures |r| == |items|
    ensures forall i | 0 <= i < |r| :: r[i] == CampaignRowOf(items[i])
  {
    seq(|items|, i requires 0 <= i < |items| => CampaignRowOf(items[i]))
  }

  /** The insights used for one campaign: the first data row, or `{}` when the
      fetch failed or returned no rows. */
  function InsightsOrEmpty(outcome: Result<InsightsResponse>): Insights {
    match outcome
    case Failure(_) => EmptyInsights
    case Success(response) => FirstRow(response)
  }

  /** The selection and fallback of fetchCampaigns, the per-campaign fetches run
      one after the other: `campaigns` is the outcome of getCampaigns and
      `fetchInsights` the outcome of each campaign's insights request. */
  function FetchCampaigns(campaigns: Result<seq<MetaCampaign>>,
                          fetchInsights: MetaCampaign -> Result<InsightsResponse>): (r: Result<seq<CampaignRow>>)
    ensures campaigns.Failure? ==> r == Failure("Failed to fetch Meta Ads campaigns: " + campaigns.error)
    ensures campaigns.Success? ==>
      (r.Success? && |r.value| == (if |campaigns.value| < 20 then |campaigns.value| else 20)
       && forall i | 0 <= i < |r.value| ::
            r.value[i] == CampaignRowOf(CampaignInsights(campaigns.value[i], InsightsOrEmpty(fetchInsights(campaigns.value[i])))))
  {
    match campaigns
    case Failure(msg) => Failure("Failed to fetch Meta Ads campaigns: " + msg)
    case Success(cs) =>
      var selected := if |cs| < 20 then cs else cs[..20];
      var items := seq(|selected|, i requires 0 <= i < |selected| =>
        CampaignInsights(selected[i], InsightsOrEmpty(fetchInsights(selected[i]))));
      Success(ProcessCampaignsResponse(items))
  }

  /** A campaign whose insights request fails still gets its row, with zero figures. */
  lemma FailedInsightsKeepRow(cs: seq<MetaCampaign>, fetchInsights: MetaCampaign -> Result<InsightsResponse>, i: nat)
    requires i < |cs| && i < 20
    requires fetchInsights(cs[i]).Failure?
    ensures var r := FetchCampaigns(Success(cs), fetchInsights);
      r.Success? && i < |r.value| && r.value[i][0] == DisplayName(cs[i].name)
      && r.value[i][1..5] == ["$0.00", "$0.00", "$0.00", "0.00"]
  {
    CampaignRowWithoutInsights(cs[i]);
  }

  const StatusTable: map<string, string> :=
    map["ACTIVE" := "Active", "PAUSED" := "Paused", "DELETED" := "Deleted", "ARCHIVED" := "Archived"]

  /** mapCampaignStatus */
  function MapCampaignStatus(status: Option<string>): (r: string)
    ensures status.Some? && status.value in StatusTable ==> r == StatusTable[status.value]
    ensures r == "Unknown" <==> status.None? || status.value !in StatusTable
  {
    if status.Some? && status.value in StatusTable then StatusTable[status.value] else "Unknown"
  }

  lemma StatusExamples()
    ensures MapCampaignStatus(Some("ARCHIVED")) == "Archived"
    ensures MapCampaignStatus(Some("DELETED")) == "Deleted"
    ensures MapCampaignStatus(Some("ENABLED")) == "Unknown"
  {
  }

  /** The client's own formatNumber, applied to integer counters. */
  function FormatNumber(num: int): (r: string)
    ensures r == Formatters.FormatNumber(Some(num as real))
    ensures num < 1000 ==> r == IntToString(num)
  {
    NumberToStringOfInt(num);
    Formatters.FormatMagnitude(num as real)
  }
}
