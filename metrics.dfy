/** The canonical output shapes shared by both ad platforms, the mock data and
    the placeholder service: a key-metric entry, a positional campaign row, and
    the currency, percentage and guarded-ratio renderings. */
module Metrics {
  import opened Wrappers
  import opened JsText

  /** `{ metric, value, deltaPct }`: a display-ready value and its period-over-period change. */
  datatype KeyMetric = KeyMetric(metric: string, value: string, deltaPct: real)

  /** A campaign table row: name, spend, CPC, revenue, ROAS, status (by position). */
  type CampaignRow = seq<string>

  /** The entries carry exactly the given metric names, in that order. */
  predicate InOrder(ms: seq<KeyMetric>, names: seq<string>) {
    |ms| == |names| && forall i | 0 <= i < |ms| :: ms[i].metric == names[i]
  }

  /** `` `$${x.toFixed(2)}` `` */
  function Money(x: real): (r: string)
    ensures |r| >= 5 && r[0] == '$' && r[|r| - 3] == '.'
  {
    "$" + ToFixed(x, 2)
  }

  /** `` `${x.toFixed(2)}%` `` */
  function Percent(x: real): (r: string)
    ensures |r| >= 5 && r[|r| - 1] == '%' && r[|r| - 4] == '.'
  {
    ToFixed(x, 2) + "%"
  }

  /** `den > 0 ? num / den : 0`, the zero-division guard of every derived ratio. */
  function GuardedRatio(num: real, den: real): (r: real)
    ensures den <= 0.0 ==> r == 0.0
    ensures den > 0.0 ==> r * den == num
  {
    if den > 0.0 then num / den else 0.0
  }

  lemma ZeroRenderings()
    ensures Money(0.0) == "$0.00"
    ensures Percent(0.0) == "0.00%"
    ensures ToFixed(0.0, 2) == "0.00"
  {
    ToFixedZero();
  }

  /** generateDeltaPct of both ad clients for one draw `random` of Math.random. */
  function DeltaPct(random: real): (d: real)
    ensures 0.0 <= random < 1.0 ==> -20.0 <= d < 20.0
  {
    (random - 0.5) * 40.0
  }

  /** `name || 'Unnamed Campaign'`: a missing or empty name falls back to the placeholder. */
  function DisplayName(name: Option<string>): (r: string)
    ensures r != ""
    ensures name.Some? && name.value != "" ==> r == name.value
    ensures name.None? || name.value == "" ==> r == "Unnamed Campaign"
  {
    if name.None? || name.value == "" then "Unnamed Campaign" else name.value
  }
}
