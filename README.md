# Shopify ads dashboard: a verified model of its data helpers

This project models, in Dafny, the logic behind a Shopify embedded app that shows
Google Ads and Meta Ads figures side by side. It covers:

- the date-range helpers: presets (today, yesterday, last week, this month, last
  7 days, last month), durations, previous periods, overlap and the variation token;
- the display formatters: numbers, percentages, the `dd/mm/yyyy` text of dates and
  its parser, percentage change, text truncation;
- the two ad-platform clients' normalisers, which turn provider payloads into
  key-metric lists and positional campaign rows;
- the mock-data generator, which scales fixed sample data by a factor derived from
  the selected range;
- the date-range control's preset switch, its text fields and its editing state;
- the connection store, which records which shop is connected to which platform and
  keeps each platform's encrypted credentials.

JavaScript `Date` values are days since 1 January 1970, with local time taken as UTC.
`JsDate` models the ECMAScript calendar arithmetic the code relies on:

- `new Date(y, m, d)`, with rollover of months and days in both directions and
  years 0..99 read as 1900..1999;
- `getFullYear`, `getMonth` and `getDate`;
- `setDate`;
- the representable range of dates (TimeClip).

`JsText` models the string and number built-ins the code uses: `split`, `join`,
`padStart`, `Number`, `parseFloat`, `String(x)` and `toFixed`. JavaScript numbers are
exact reals. Each `Math.random()` draw, the clock and the `encrypt` function are
parameters. The database is a class whose fields are maps.

Modules, one file each:

- `JsDate`, `JsText`: the built-ins;
- `Wrappers`: Option and Result;
- `Metrics`: the pieces shared by both clients;
- `DateUtils`, `Formatters`, `GoogleAds`, `MetaAds`, `MockData`,
  `DateRangeControls`, `Connections`: one module per source file.

## Model

| member | source | states |
|---|---|---|
| DateUtils.PresetToday | app/utils/dateUtils.js:13-19 | "today" is the one-day range of today's midnight |
| DateUtils.PresetYesterday | app/utils/dateUtils.js:21-25 | "yesterday" is the one-day range of the day before today |
| DateUtils.PresetLastSevenDays | app/utils/dateUtils.js:27-44 | "last_week" and "last_7_days" both run from six days before today to today |
| DateUtils.PresetThisMonth | app/utils/dateUtils.js:34-37 | "this_month", and every unknown id (the default case), runs from the 1st of the current month, which reads back as day 1 of that month, to today |
| DateUtils.FirstOfMonth | app/utils/dateUtils.js:35 | `new Date(year, month, 1)` is `day - 1` days before today and is the 1st of today's month |
| DateUtils.PresetLastMonth | app/utils/dateUtils.js:46-50 | "last_month" runs from the 1st to the last day of the previous calendar month, across a year boundary in January, and ends before today |
| DateUtils.PreviousMonthOfClock | app/utils/dateUtils.js:47-48 | `new Date(y, m - 1, 1)` and `new Date(y, m, 0)` are the first and last days of the month before today's |
| DateUtils.PresetOrdered | app/utils/dateUtils.js:12-58 | every preset yields two valid dates with start <= end <= today, starting at most 61 days back |
| DateUtils.IsValidDate | app/utils/dateUtils.js:86-91 | true exactly for a present and valid date |
| DateUtils.DateRangeDuration | app/utils/dateUtils.js:98-112 | 0 when an endpoint is missing or invalid, otherwise the absolute day difference plus one (at least 1) |
| DateUtils.DurationSymmetric | app/utils/dateUtils.js:110-111 | the duration does not depend on the order of the endpoints |
| DateUtils.PreviousPeriodRange | app/utils/dateUtils.js:119-137 | null exactly when an endpoint is missing; otherwise both endpoints are present and there is no variation token |
| DateUtils.PreviousPeriodProperties | app/utils/dateUtils.js:119-137 | the previous period ends the day before the range starts, lasts as many days and does not overlap it |
| DateUtils.PreviousPeriodBounds | app/utils/dateUtils.js:124-131 | the previous period is exactly [start - duration, start - 1] |
| DateUtils.PreviousPeriodInvalidStart | app/utils/dateUtils.js:125-131 | an invalid start date gives a previous period of two invalid dates |
| DateUtils.OverlapSymmetric | app/utils/dateUtils.js:145-156 | overlap is symmetric |
| DateUtils.OverlapMissing | app/utils/dateUtils.js:146-148 | a range with a missing endpoint overlaps nothing |
| DateUtils.OverlapSelf | app/utils/dateUtils.js:155 | a valid range overlaps itself exactly when it is not inverted |
| DateUtils.AddDateRangeVariation | app/utils/dateUtils.js:163-168 | keeps start and end and sets the variation token to the draw |
| Formatters.FormatMagnitude | app/utils/formatters.js:15-23 | millions end in `M` and thousands in `k` (one decimal each), and smaller values print as `String(x)`, each suffix exactly in its range |
| Formatters.FormatNumber | app/utils/formatters.js:10-24 | a non-number gives "0"; otherwise the magnitude rule |
| Formatters.FormatPercentage | app/utils/formatters.js:51-57 | a non-number gives "0.00%"; otherwise `toFixed(decimals)` followed by `%` |
| Formatters.FormatDateForApi | app/utils/formatters.js:64-75 | a missing value gives ""; a string is returned as it is |
| Formatters.ParseInputDate | app/utils/formatters.js:106-109 | an empty text or one without `/` gives null |
| Formatters.ParseInputDateAccepts | app/utils/formatters.js:106-125 | a date comes back exactly when the text is non-empty, holds `/`, and its first three parts are numbers with day 1..31, month 1..12 and year >= 1900 (later parts ignored); the date is then `new Date(year, month - 1, day)` |
| Formatters.ParseFieldsInRange | app/utils/formatters.js:111-124 | at least three parts, the first three numeric with day 1..31, month 1..12 and year >= 1900, give `new Date(year, month - 1, day)` with no check of the month's length |
| Formatters.ParseRejectsNonNumber | app/utils/formatters.js:111-118 | a text whose day, month or year part is missing or is not a number gives null |
| Formatters.ParseRejectsOutOfRange | app/utils/formatters.js:120-122 | `32/13/2024` is refused |
| Formatters.ParseFifthOfMarch | app/utils/formatters.js:106-125 | `05/03/2024` is the fifth of March 2024 (month index 2) |
| Formatters.FormatDateForInput | app/utils/formatters.js:132-148 | missing or invalid gives ""; otherwise slashes at positions 2 and 5 with two digits before each |
| Formatters.ParseCivilText | app/utils/formatters.js:106-125 | the `dd/mm/yyyy` text of a calendar date from 1900 on parses to that day, month and year |
| Formatters.FormatThenParse | app/utils/formatters.js:106-148 | formatting a date from 1900 on and parsing the text gives the same date back |
| Formatters.CalculatePercentageChange | app/utils/formatters.js:167-173 | a zero previous value gives 100 for a positive current value and 0 otherwise |
| Formatters.PercentageChangeInverse | app/utils/formatters.js:172 | applying the change to a non-zero previous value gives the current value back |
| Formatters.TruncateText | app/utils/formatters.js:181-191 | a non-string or empty text gives ""; a text that fits is unchanged; a longer one is cut and ends in `...`, never longer than the limit when the limit is at least 3 |
| Formatters.Ellipsized | app/utils/formatters.js:190 | a prefix of the text followed by `...`, of length exactly `maxLength` when that is at least 3 |
| GoogleAds.AggregateAppend | app/services/google-ads.server.js:132-143 | folding two batches of rows one after the other is the field-wise sum of folding each |
| GoogleAds.AggregateCounters | app/services/google-ads.server.js:135-137 | the clicks, impressions and micros totals are the sums of the rows' counters, a missing or unparsable one counting 0 |
| GoogleAds.AggregateSkipsEmptyRow | app/services/google-ads.server.js:133 | a row without metrics leaves the totals unchanged |
| GoogleAds.DerivedRatios | app/services/google-ads.server.js:145-149 | cost is the micros over a million; ROAS, CPC and CTR are 0 when the denominator is not positive and the quotient otherwise |
| GoogleAds.EmptyMetrics | app/services/google-ads.server.js:248-261 | the eight metric names in display order, each with delta 0 |
| GoogleAds.EmptyMetricsAreZeroTotals | app/services/google-ads.server.js:248-261 | the empty metrics show what the live rendering shows for all-zero totals |
| GoogleAds.LiveMetrics | app/services/google-ads.server.js:151-162 | the eight entries in display order, each with its rendered value and the delta of its own draw |
| GoogleAds.ProcessMetricsResponse | app/services/google-ads.server.js:124-163 | no results gives the empty metrics; otherwise the live entries of the folded totals |
| GoogleAds.DeltasBounded | app/services/google-ads.server.js:240-242 | with every draw in [0, 1) every delta lies in [-20, 20) |
| GoogleAds.WorkedExample | app/services/google-ads.server.js:145-159 | 1000 clicks, 50000 impressions, 2000000 micros and 500 in value show ROAS "250.00" and CTR "2.00%" |
| GoogleAds.ProcessCampaignsResponse | app/services/google-ads.server.js:170-192 | one row per result, in order |
| GoogleAds.SoleCampaignMatchesTotals | app/services/google-ads.server.js:124-192 | for a response with one result, the campaign row's spend and revenue columns are the key metrics' cost and revenue values |
| GoogleAds.CampaignRoasIsNotAccountRoas | app/services/google-ads.server.js:145-188 | the campaign ROAS column is the reported value per conversion, not revenue over spend: on the worked example's row it shows "0.00" while the key metrics show "250.00" |
| GoogleAds.CampaignRowWithoutMetrics | app/services/google-ads.server.js:175-188 | a row without metrics shows "$0.00" in the money columns and "0.00" as ROAS |
| GoogleAds.MapCampaignStatus | app/services/google-ads.server.js:199-206 | a listed status maps through the table; "Unknown" exactly when the status is missing or unlisted |
| GoogleAds.StatusExamples | app/services/google-ads.server.js:200-205 | ENABLED, PAUSED and REMOVED map to Active, Paused and Removed; Meta's ACTIVE is unknown here |
| GoogleAds.FormatNumber | app/services/google-ads.server.js:225-233 | the shared magnitude rule; below 1000 the integer's decimal text |
| MetaAds.ExtractConversions | app/services/meta-ads.server.js:215-216 | a missing array gives 0 |
| MetaAds.ConversionsAreFilteredTotal | app/services/meta-ads.server.js:218-225 | conversions are the total of the purchase, lead and complete_registration entries only |
| MetaAds.ExtractRevenue | app/services/meta-ads.server.js:233-234 | a missing array gives 0 |
| MetaAds.RevenueIsPurchaseTotal | app/services/meta-ads.server.js:236-241 | revenue is the total of the purchase entries only |
| MetaAds.NothingCounted | app/services/meta-ads.server.js:215-242 | with no entry of a counted type both sums are 0 |
| MetaAds.EmptyMetrics | app/services/meta-ads.server.js:299-314 | the ten metric names in display order, each with delta 0 |
| MetaAds.RoasGuard | app/services/meta-ads.server.js:168 | ROAS is 0 for a spend that is not positive and revenue over spend otherwise |
| MetaAds.RatesIgnoreCounters | app/services/meta-ads.server.js:161-163 | CTR, CPM and CPC are shown as the payload reports them: two rows reporting the same rates show the same last three values, whatever their counters |
| MetaAds.CtrNotDerived | app/services/meta-ads.server.js:161 | a row with 10 clicks on 1000 impressions that reports no CTR shows "0.00%", not 1% |
| MetaAds.LiveMetrics | app/services/meta-ads.server.js:170-183 | the ten entries in display order, each with its rendered value and the delta of its own draw |
| MetaAds.ProcessMetricsResponse | app/services/meta-ads.server.js:150-184 | an empty first row gives the empty metrics; otherwise the live entries of that row |
| MetaAds.NoDataGivesEmptyMetrics | app/services/meta-ads.server.js:151-155 | a missing or empty `data` array gives the empty metrics |
| MetaAds.EmptyMetricsAreZeroInsights | app/services/meta-ads.server.js:299-314 | the empty metrics show what the live rendering shows for an all-zero row |
| MetaAds.CampaignRowOf | app/services/meta-ads.server.js:192-207 | six columns; the name falls back to "Unnamed Campaign"; the status is the mapped status |
| MetaAds.CampaignRowWithoutInsights | app/services/meta-ads.server.js:193-204 | a campaign without insights shows zero money columns and ROAS "0.00" |
| MetaAds.ProcessCampaignsResponse | app/services/meta-ads.server.js:191-208 | one row per element, in order |
| MetaAds.FetchCampaigns | app/services/meta-ads.server.js:62-96 | a failed campaign listing gives the wrapped error; otherwise one row for each of the first 20 campaigns, in order, from its first insights row or `{}` |
| MetaAds.FailedInsightsKeepRow | app/services/meta-ads.server.js:84-87 | a campaign whose insights request fails keeps its row, with zero figures |
| MetaAds.MapCampaignStatus | app/services/meta-ads.server.js:249-257 | a listed status maps through the table; "Unknown" exactly when the status is missing or unlisted |
| MetaAds.StatusExamples | app/services/meta-ads.server.js:250-255 | ARCHIVED and DELETED map to Archived and Deleted; Google's ENABLED is unknown here |
| MetaAds.FormatNumber | app/services/meta-ads.server.js:276-284 | the shared magnitude rule; below 1000 the integer's decimal text |
| Metrics.DeltaPct | app/services/google-ads.server.js:240-242 | a draw in [0, 1) gives a delta in [-20, 20) |
| Metrics.GuardedRatio | app/services/google-ads.server.js:147-149 | 0 for a denominator that is not positive, otherwise the quotient |
| Metrics.DisplayName | app/services/google-ads.server.js:184 | a missing or empty name becomes "Unnamed Campaign"; any other name is kept |
| MockData.BaseData | app/data/mockData.server.js:63-68 | sample data exists exactly for "google" and "meta", and every campaign row has six columns |
| MockData.ToInt32 | app/data/mockData.server.js:120 | the result is in [-2^31, 2^31) and congruent to the input modulo 2^32 |
| MockData.Hash32IsPolyHash | app/data/mockData.server.js:116-121 | wrapping to 32 bits after every step gives the 32-bit reduction of the base-31 polynomial hash |
| MockData.SimpleHash | app/data/mockData.server.js:115-123 | the loop returns the absolute value of the wrapped hash, in [0, 2^31] |
| MockData.GetDateVariation | app/data/mockData.server.js:89-112 | a missing endpoint gives 1; the computation fails exactly when the hash seed is needed and an endpoint is an invalid date |
| MockData.VariationBands | app/data/mockData.server.js:108-111 | with a draw in [0, 1) the factor lies in [0.7, 1.3) up to a week, [0.8, 1.2) up to 30 days, and [0.9, 1.1) otherwise |
| MockData.FalsyVariationUsesSeed | app/data/mockData.server.js:100-106 | a variation token of 0 gives the same factor as no token |
| MockData.TruthyVariationIsDraw | app/data/mockData.server.js:100-101 | a non-zero token is the draw itself |
| MockData.StripFormattingRemovesMarkers | app/data/mockData.server.js:159 | stripping leaves no `$`, `,`, `k` or `%` and keeps a text without them as it is |
| MockData.AdjustMetricValue | app/data/mockData.server.js:156-176 | a value that shows no number is returned unchanged; otherwise the scaled number in the value's own style |
| MockData.Restyle | app/data/mockData.server.js:165-175 | `k` takes precedence over `$`, which takes precedence over `%`; otherwise two decimals |
| MockData.RestyleKeepsMarkers | app/data/mockData.server.js:165-175 | the style marker survives scaling |
| MockData.AdjustDeltaPercent | app/data/mockData.server.js:179-184 | the result lies in [-99, 99] and is the scaled delta plus the factor term when that is in range |
| MockData.AdjustCampaign | app/data/mockData.server.js:143-150 | name and status are kept and the four figures are scaled |
| MockData.ApplyDateVariation | app/data/mockData.server.js:132-153 | same shape, metric names, campaign names, statuses and account info; every value scaled and every delta clamped to [-99, 99] |
| MockData.Section | app/data/mockData.server.js:78 | a section exists exactly for keyMetrics, campaigns and accountInfo |
| MockData.GetMockData | app/data/mockData.server.js:63-86 | an unknown platform gives null; no range gives the base data; with a range it fails exactly when the factor does, and otherwise gives the requested section of the base data scaled by that factor |
| MockData.MockDataKeepsShape | app/data/mockData.server.js:71-77 | with a range, the scaled data keeps the metric names, campaign names, statuses and account of the base data |
| DateRangeControls.GetPresetRange | app/components/DateRangeControls.jsx:4-43 | every case yields both endpoints and no variation token |
| DateRangeControls.GetPresetRangeAgrees | app/components/DateRangeControls.jsx:4-43 | the component's presets are the shared utility's presets, id for id |
| DateRangeControls.PresetRangeOrdered | app/components/DateRangeControls.jsx:4-43 | every preset is valid with start <= end <= today |
| DateRangeControls.ToInputValue | app/components/DateRangeControls.jsx:45-51 | an invalid date shows "NaN/NaN/NaN" |
| DateRangeControls.ToInputValueAgrees | app/components/DateRangeControls.jsx:45-51 | for a valid date the text is the formatter's `dd/mm/yyyy` |
| DateRangeControls.ParseLoose | app/components/DateRangeControls.jsx:86-87 | a text with fewer than three parts gives an invalid date |
| DateRangeControls.ParseLooseExtendsStrict | app/components/DateRangeControls.jsx:86-87 | every text the strict parser accepts reads as the same date |
| DateRangeControls.InputValueRoundTrip | app/components/DateRangeControls.jsx:45-51 | the text shown for a date from year 100 on reads back as that date |
| DateRangeControls.InvalidInputRoundTrip | app/components/DateRangeControls.jsx:45-51 | the text shown for an invalid date reads back as an invalid date |
| DateRangeControls.LooseParseRollsOver | app/components/DateRangeControls.jsx:86-87 | `32/13/2024` is refused by the strict parser but is the 1st of February 2025 in the text fields |
| DateRangeControls.RangeEditor.constructor | app/components/DateRangeControls.jsx:63 | the editing state starts as the selected range |
| DateRangeControls.RangeEditor.ApplyPreset | app/components/DateRangeControls.jsx:70-73 | the editing state becomes the preset's range |
| DateRangeControls.RangeEditor.Commit | app/components/DateRangeControls.jsx:75-78 | the range handed on is the editing state |
| DateRangeControls.RangeEditor.Cancel | app/components/DateRangeControls.jsx:80-83 | the editing state goes back to the selected range |
| DateRangeControls.RangeEditor.SetStart | app/components/DateRangeControls.jsx:85-89 | only the start changes, to the date the text reads as |
| DateRangeControls.RangeEditor.SetEnd | app/components/DateRangeControls.jsx:91-95 | only the end changes, to the date the text reads as |
| DateRangeControls.EditPresetText | app/components/DateRangeControls.jsx:45-95 | typing back the text shown for both ends of a preset leaves the preset's range unchanged |
| Connections.Column | app/services/connections.server.js:39-43 | a created column holds the value given, and `undefined` or `null` leaves it null |
| Connections.Merge | app/services/connections.server.js:44-47 | an update keeps the stored value for `undefined`, clears it for `null` and stores a given string |
| Connections.GoogleRecord | app/services/connections.server.js:37-48 | the token is always re-encrypted; in each of the six nullable columns a string is stored, `null` clears it and `undefined` keeps what the row held (null for a new row) |
| Connections.MetaRecord | app/services/connections.server.js:61-72 | the same for the Meta credential row and its three nullable columns |
| Connections.OtherRowUnchanged | app/services/connections.server.js:14-25 | after a shop lookup-or-create and a write to one (shop, platform) row, every other row is as before |
| Connections.ConnectionStore.IsConnected | app/services/connections.server.js:4-10 | true exactly when the domain is non-empty, the shop exists and its row's status is "connected" |
| Connections.ConnectionStore.FindOrCreateShop | app/services/connections.server.js:14-15 | an existing shop keeps its id; a new one gets a fresh id; nothing else changes |
| Connections.ConnectionStore.UpsertConnection | app/services/connections.server.js:21-25 | an existing row keeps its id and takes the new status; a missing one is created with a fresh id |
| Connections.ConnectionStore.SetConnected | app/services/connections.server.js:12-26 | an empty domain changes nothing; otherwise the shop exists and its row has the requested status; every other row and all credentials are unchanged |
| Connections.ConnectionStore.SaveGoogleAuth | app/services/connections.server.js:28-50 | an empty domain changes nothing; otherwise the shop is connected and its credential row is the merged record; other shops' credentials are unchanged |
| Connections.ConnectionStore.SaveMetaAuth | app/services/connections.server.js:52-74 | the same for Meta |
| Connections.PositionalGoogleArgs | app/routes/app.connections.google.callback.jsx:46 | destructuring a string finds no `shopDomain` |
| Connections.GoogleCallbackAsWritten | app/routes/app.connections.google.callback.jsx:46-56 | the shop ends up connected, yet a shop without saved credentials still has none |
| Connections.GoogleCallback | app/routes/app.connections.google.callback.jsx:46-56 | with the shop passed by name the shop is connected and its encrypted refresh token is stored |
| Connections.FetchMetrics | app/services/connections.server.js:76-90 | four fixed metrics in order and two five-column rows, whatever the arguments |
| JsDate.CivilOfMakeDay | app/utils/dateUtils.js:14 | building a valid calendar date and reading its getters back gives the same date |
| JsDate.MakeDayOfCivil | app/utils/dateUtils.js:14 | rebuilding a day from its own getters gives the same day |
| JsDate.MakeDayZero | app/utils/dateUtils.js:47-48 | day 0 of a month is the last day of the month before it, and month - 1 is that month |
| JsDate.AddDaysShifts | app/utils/dateUtils.js:22-23 | `setDate(getDate() + k)` moves a date by k days |
| JsDate.TimeClip | app/utils/formatters.js:124 | a day is representable exactly within 10^8 days of 1970, and is then kept |
| JsText.SplitJoin | app/utils/formatters.js:111 | split undoes join when no part holds the separator |
| JsText.JoinSplit | app/utils/formatters.js:111 | join undoes split |
| JsText.DigitsValueOfNatToString | app/utils/formatters.js:112-114 | `Number(String(n))` is n |
| JsText.ParseFloatOfNatToString | app/data/mockData.server.js:159 | parseFloat reads back the decimal text of a natural number |
| JsText.ToFixed | app/services/google-ads.server.js:155-160 | with f > 0 decimals there is a point f places from the end followed by digits only |
| JsText.ToFixedValue | app/services/google-ads.server.js:155-160 | `x.toFixed(f)` reads back through parseFloat as n / 10^f, where n is the integer nearest to x * 10^f, ties rounded away from zero |
| JsText.ScaleShift | app/services/google-ads.server.js:155-160 | multiplying n / 10^f by 10^f gives n back, so the digits of `toFixed` fix the rounded integer |
| JsText.PadStart | app/components/DateRangeControls.jsx:47-48 | the result has the target length (or the text's own) and ends with the text, padded in front |

## Left out

- Time zones and daylight saving time: every `Date` is a whole day count with local time taken as UTC, and the time of day is dropped.
- `toISOString` is modelled only for the seed string in `getDateVariation`, as four-digit or six-digit years. `getLastMonthStart` and `getLastMonthEnd` in `app/utils/dateUtils.js` are not modelled, because they mix local dates with UTC formatting.
- The `Date` branches of `formatDateForAPI` and of both clients' `formatDate`: they call `toISOString`, whose result depends on the time zone.
- `formatCurrency` and `formatDateForDisplay`: they use `Intl`, which is locale data outside the program.
- Numbers are exact reals, not IEEE doubles. `toFixed` rounds ties away from zero on the exact value, so results can differ from the engine's binary rounding in the last digit.
- Formatters.FormatPercentage: requires `decimals <= 100`, because `toFixed` throws a RangeError above 100 and the model does not carry that exception.
- `String(x)` never uses exponent notation in the model, and writes at most 20 decimal places.
- JsText.JsNumber: reads only the empty text and signed digit runs. JavaScript's `Number` also trims white space and reads a fraction, an exponent, hex and `Infinity`, so `" 5"`, `"2024 "`, `"5.0"` and `"1e1"` are numbers there and NaN (None) here. The control's text fields take whatever the user types, so these texts do reach it.
- DateRangeControls.ParseLoose: for the same reason `"05/03/2024 "` gives an invalid date, where the source gives 5 March 2024.
- Formatters.ParseInputDate: for the same reason `" 5/03/2024"` gives null, where the source gives a date.
- JsText.ParseFloat: reads an optional sign, digits and an optional fraction; leading white space, exponents and `Infinity` are not modelled.
- Date-range endpoints are `Date` values only. `app/utils/dateUtils.js` (lines 103-104, 125 and 150-153) also accepts a string endpoint through `x instanceof Date ? x : new Date(x)`, and `getDateVariation` (`app/data/mockData.server.js:94-95`) calls `new Date(dateRange.start)`. The dashboard sends its range as JSON text (`app/routes/app.analytics.jsx:146`, parsed at `app/routes/app.api.metrics.jsx:35`), so string endpoints do reach these helpers. Parsing date strings is not modelled.
- Provider payload fields arrive already parsed (`parseInt(x) || 0` is a missing value read as 0). The HTTP requests, GAQL queries, token refresh and validation calls are not modelled, because they are network I/O.
- MetaAds.FetchCampaigns: the per-campaign requests run concurrently under `Promise.all`. The model evaluates each outcome as a function of its campaign, so their order does not matter.
- `encrypt` is a parameter, because it uses a random IV. Prisma is modelled as maps with counters for ids. The schema's default status for a new row is not modelled; the model leaves the status absent.
- The status tables are plain maps. A status such as `toString`, which would find a property on the object's prototype, is not modelled.
- `adjustMetricValue` returns non-string values as they are; the model covers only strings.
- MockData.ApplyDateVariation: requires every campaign row to have six columns, as all the sample rows do; rows of another length are not modelled.
- Strings are sequences of `char`, not UTF-16 code units, so `simpleHash` matches only for texts without surrogate pairs. The hashed seed strings are ASCII.
- `response.data[0]` being `null` is not modelled; a missing or empty array is.
- `seededRandom` is a parameter, because it computes `Math.sin`, which is floating point. `generateRandomDelta` and `generateVariation` are not modelled, because they only draw `Math.random`.
- The control's month and year picker state and all JSX rendering are not modelled, because they are UI.
- `toInputValue` of a missing date is not modelled; the control always holds a date.

## Findings

| source | as written | input that shows it | evidently intended | confidence | as-written member | corrected member |
|---|---|---|---|---|---|---|
| app/routes/app.connections.google.callback.jsx:46-54 | `saveGoogleAuth(session.shop, {...})` passes the shop as the first argument. `saveGoogleAuth` destructures `shopDomain` from it, finds `undefined`, and returns without saving. The following `setConnected` still marks Google connected. | any shop connecting for the first time with a refresh token | `saveGoogleAuth({ shopDomain: session.shop, refreshToken, ... })` | high, from reading the code; not executed | Connections.GoogleCallbackAsWritten | Connections.GoogleCallback |
