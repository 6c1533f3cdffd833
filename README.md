# On-chain fund-flow heatmap, modelled in Dafny

This project models the logic of a browser dashboard that shows estimated
net fund flows between crypto assets and wallet cohorts (exchanges, whales,
miners, smart contracts, retail) as a colour-coded asset × cohort grid.

Each of the four source files has its own module.

- **`Heatmap`** (`heatmap.dfy`) models the synthetic matrix the heatmap draws.
  - The window's day count is the ceiling of the millisecond difference over
    one day. It is 7 when a date is missing. The scale factor is that count
    over 7.
  - For each of the 19 fixed assets and 5 cohorts, in asset-major order, a
    value is drawn from the pair's 7-day range, scaled, rounded and given one
    of six colour classes.
  - The module also covers the per-asset external ("net") and total flows,
    the `$…M` formatting, and the cell and net-column captions.
  - `GenerateMockData` and `ComputeCell` keep the source's nested loops and
    step-by-step colour assignment. Each is proved equal to a specification
    function (`MockCells`, `MakeCell`), and the properties are proved about
    those functions.
- **`Page`** (`page.dfy`) models the home page's state as the class
  `HomePage`.
  - The class holds the cohort selection, the two dates, the records built
    for the heatmap, and the loading and error flags.
  - The cohort-change handler appends on check and filters out every copy on
    uncheck.
  - The date handler replaces both dates.
  - `fetchData` builds one record per (asset, selected cohort) pair and moves
    the flags.
- **`CohortToggle`** (`cohort_toggle.dfy`) models the cohort panel.
  - It covers the checked predicate, the "k of 5 selected" count, and the
    Select/Deselect All button.
  - The button decides by the selection's *length*. It then issues one
    page-handler call per cohort.
  - `ToggleAll` runs those calls against a `Page.HomePage`. The lemmas show
    that Deselect All empties a selection of cohort ids. They also show that
    Select All from a partial selection appends all five ids, so ids that
    were already selected appear twice and the caption stays "Select All".
- **`Api`** (`api.dfy`) models the data-access layer.
  - It holds the cohort table and the asset list taken from an optional
    environment value.
  - The three-attempt fetch loop is the method `Fetcher`. It runs over a
    script of per-attempt outcomes and is proved equal to the recursive
    specification `Retry`.
  - It also covers the `{t, v}` → `{date, value}` renaming, the
    cohort-to-metric dispatch, and the SWR cache key.

Three helper modules support these:
- `Text` renders integers in decimal and models `split`/`join` on one
  character.
- `Grid` is the asset-major Cartesian product that both nested loops walk.
- `Wrappers` is `Option`.

Inputs that the program reads from the outside world are parameters:
- `Math.random()` is a sequence `draws` of reals in [0, 1). The k-th call
  returns `draws[k]`.
- Dates are integer millisecond timestamps, or `None` for a missing date
  prop. Each read of the clock is its own parameter. The first render reads
  it twice (`startNow`, `endNow`). `new Date().toISOString()` is evaluated
  once per record, so record k carries `dates[k]`.
- `process.env` values are `Option<string>` parameters.
- `Math.round(x)` is `floor(x + 0.5)` over the reals.

Facts about the program that shape the model:
- The program does not check that the start date precedes the end date. A
  reversed window gives a negative scale factor, and
  `ScaledValueBoundsReversed` states what values that gives.
- The program computes no summary inflow/outflow totals and tags no value
  as real or estimated.
- The program has no rate-limit throttle and does not cancel a running
  `fetchData` when a newer one starts.
- After three failed attempts the fetch loop throws; nothing falls back to
  synthetic values. When all three attempts were HTTP 429, it throws
  `undefined`.
- The heatmap ignores its `data` and `selectedCohorts` props, and the page
  passes it no dates. On the shipped page the heatmap therefore always uses
  the 7-day factor 1, and the page's records never reach the grid.

## Model

| member | source | states |
|---|---|---|
| `Api.CohortTable` | src/lib/api.ts:110-116 | The cohort table has five entries whose ids are exchanges, whales, miners, smart-contracts, retail in that order, with no id repeated. |
| `Api.GetAssets` | src/lib/api.ts:105-107 | An unset variable gives the six-symbol default. A set variable gives pieces that contain no comma and join back with commas into exactly the variable's value. |
| `Api.GetAssetsEmptyVariable` | src/lib/api.ts:106 | A set but empty variable gives `[""]`, not the default list. |
| `Api.GetAssetsPieces` | src/lib/api.ts:106 | Any comma-free symbol list joined with commas is returned as is, with order and empty symbols kept. |
| `Api.Fetcher` | src/lib/api.ts:22-49 | The loop's attempt count, sequence of waits and settled result equal the recursive retry specification `Retry` from iteration 0 with no recorded error. |
| `Api.RetryBounds` | src/lib/api.ts:26-46 | From iteration i the loop makes between 1 and 3 − i calls and waits at most the sum of the remaining backoffs. |
| `Api.FetcherBounds` | src/lib/api.ts:23-44 | The fetcher makes one to three calls and waits at most 7000 ms in all. |
| `Api.FetcherStopsAtFirstOk` | src/lib/api.ts:28-39 | The first ok response, at call k, settles the fetcher after exactly k + 1 calls. It resolves with that body, or rejects with the JSON error, because `response.json()` is returned without being awaited inside the `try`. |
| `Api.FetcherThrowsLastError` | src/lib/api.ts:24-48 | With no ok response, all three calls are made and the fetcher throws the error of the last non-429 call. It throws undefined when every call was a 429. |
| `Api.FetcherAllRateLimited` | src/lib/api.ts:31-34 | Three 429 replies give waits of 1000, 2000 and 4000 ms, including a wait after the last call, and then `throw undefined`. |
| `Api.FetcherRetriesHttpError` | src/lib/api.ts:36-44 | A non-429 HTTP error at any call, whatever its body, is caught by its own `catch` and becomes the last error. The loop goes on with the next call after a wait of 2^i seconds when i < 2, and at the third call it throws that error with no wait. |
| `Api.RetryWaitCount` | src/lib/api.ts:26-44 | In every run, every call but the last is followed by a wait. The last call is followed by one exactly when it was a 429 or came before the third call, and never after an ok response. |
| `Api.RetryWaitDurations` | src/lib/api.ts:33-43 | In every run the j-th wait follows call i + j and lasts 2^(i + j) · 1000 ms. |
| `Api.ToFlowData` | src/lib/api.ts:55 | The mapping keeps the response's length and order, with date = t and value = v for every element. |
| `Api.ToFlowDataRoundTrip` | src/lib/api.ts:55 | Renaming back recovers the response exactly, so the mapping loses nothing. |
| `Api.ToPointsRoundTrip` | src/lib/api.ts:55 | Every flow list is the mapping of some response, so the mapping invents nothing. |
| `Api.FlowUrl` | src/lib/api.ts:53 | The URL is the Glassnode transactions base path, then the metric's own endpoint name, `?asset=`, the asset, `&api_key=` and the key (`undefined` when unset). It ends with `&s=<start>&u=<end>&i=1d`, and these pieces fill the whole URL. |
| `Api.FlowUrlNamesMetric` | src/lib/api.ts:53-77 | Two requests for different metrics never share a URL. |
| `Api.GetFlows` | src/lib/api.ts:52-80 | Each `get*Flows` builds its metric's URL. On success it returns the renamed points of the fetcher's result, and otherwise the fetcher's rejection. |
| `Api.FlowFunction` | src/lib/api.ts:84-90 | A fetcher is found exactly for the five cohort ids. |
| `Api.FlowFunctionTable` | src/lib/api.ts:84-90 | The k-th cohort maps to the k-th metric, and no two cohorts share a fetcher. |
| `Api.SwrKey` | src/lib/api.ts:92-94 | The key is null, so no request is made, exactly when the cohort is not one of the five ids. Otherwise it is the asset, a dash, the cohort, a dash, then `<start>-<end>`. |
| `Api.SwrKeyInjective` | src/lib/api.ts:92-94 | For assets without a dash, two requests with known cohorts share a cache key only when asset, cohort, start and end are all equal. |
| `Api.SwrKeyDistinguishesRanges` | src/lib/api.ts:93 | For a known cohort, two cache keys are equal iff their start and end timestamps are equal. |
| `Text.NatToStringRoundTrip` | src/components/Heatmap.tsx:102 | The decimal text of a whole number reads back as that number. |
| `Text.JoinSplit` | src/lib/api.ts:106 | Joining the pieces of a comma split restores the string. |
| `Text.SplitJoin` | src/lib/api.ts:106 | Splitting the join of comma-free pieces restores the pieces. |
| `Grid.ProductAt` | src/components/Heatmap.tsx:61-62 | In the nested loops' product, the pair (outer i, inner j) sits at position i·(inner length) + j. |
| `Grid.ProductMembership` | src/components/Heatmap.tsx:61-62 | The product holds exactly the pairs of an outer and an inner element. |
| `Grid.ProductNoDuplicates` | src/components/Heatmap.tsx:61-62 | Lists without repeats give a product without repeated pairs. |
| `Heatmap.FixedLists` | src/components/Heatmap.tsx:25-29 | There are 19 distinct assets and 5 distinct cohorts, and the cohorts are the cohort table's ids. |
| `Heatmap.FixedPairsConfigured` | src/components/Heatmap.tsx:39-63 | Every fixed (asset, cohort) pair has a configured range with low below high, so the [-100, 100] fallback is never used. |
| `Heatmap.CeilDays` | src/components/Heatmap.tsx:32-33 | The day count is the least d with ms ≤ d days, i.e. the ceiling of ms / 86 400 000. |
| `Heatmap.WholeDayWindow` | src/components/Heatmap.tsx:32-34 | A d-day window has d days and factor d/7: 7 days give 1, 14 days give 2, equal dates give 0, and a reversed window gives a negative factor. |
| `Heatmap.PartialDaysRoundUp` | src/components/Heatmap.tsx:32-34 | Any part of a day counts as one day. A missing date gives 7 days and factor 1. |
| `Heatmap.Round` | src/components/Heatmap.tsx:65 | The result is the nearest integer, with halves rounded up. |
| `Heatmap.ScaledValueBounds` | src/components/Heatmap.tsx:63-65 | For a draw in [0, 1) and a factor s ≥ 0, the value lies between round(lo·s) and round(hi·s). |
| `Heatmap.ScaledValueBoundsReversed` | src/components/Heatmap.tsx:63-65 | For a negative factor the bounds swap: round(hi·s) ≤ value ≤ round(lo·s). |
| `Heatmap.ScaledValueZero` | src/components/Heatmap.tsx:63-65 | With a zero factor every value is 0, whatever the draw. |
| `Heatmap.ColorBuckets` | src/components/Heatmap.tsx:67-77 | Each of the six colour classes is chosen exactly on its value band (> 200, (100, 200], (0, 100], [-100, 0], [-200, -100), < -200). Zero is mild outflow, and the initial gray never survives. |
| `Heatmap.ComputeCell` | src/components/Heatmap.tsx:63-77 | The inner loop body (range lookup, draw, scaling, rounding, stepwise colour) yields the specification cell for its pair. |
| `Heatmap.RangeOrdered` | src/components/Heatmap.tsx:39-63 | Every range the lookup can give, configured or the fallback, has low ≤ high. |
| `Heatmap.LookedUpValueBounds` | src/components/Heatmap.tsx:63-65 | For any asset and cohort, a draw in [0, 1) and a factor s ≥ 0 give a value between round(lo·s) and round(hi·s) of the looked-up range. A zero factor gives 0. |
| `Heatmap.MakeCell` | src/components/Heatmap.tsx:61-84 | A cell carries its pair's key. For a draw in [0, 1) and a factor s ≥ 0 its value lies between round(lo·s) and round(hi·s) of the pair's range, and it is 0 for a zero factor. Its colour is the bucket of its value by the six bands. |
| `Heatmap.GenerateMockData` | src/components/Heatmap.tsx:24-89 | The nested loops push exactly the specification matrix `MockCells`: the k-th pair takes the k-th draw. |
| `Heatmap.MockCellsLayout` | src/components/Heatmap.tsx:61-86 | The matrix has 95 cells, and cell k is asset k / 5 with cohort k % 5. |
| `Heatmap.MockKeysAreProduct` | src/components/Heatmap.tsx:61-86 | The matrix's keys are the asset × cohort product: each pair occurs once, and no other pair occurs. |
| `Heatmap.Find` | src/components/Heatmap.tsx:159 | `find` returns a cell of the list with the asked asset and cohort, and it fails exactly when no cell has that key. |
| `Heatmap.FindFirst` | src/components/Heatmap.tsx:159 | `find` returns the first matching cell. |
| `Heatmap.MockFind` | src/components/Heatmap.tsx:158-167 | Every grid cell finds its own matrix entry at position i·5 + j, so the N/A branch is unreachable. |
| `Heatmap.ForAsset` | src/components/Heatmap.tsx:107 | The asset filter keeps exactly the cells of that asset. |
| `Heatmap.ExternalFlows` | src/components/Heatmap.tsx:111 | The external filter keeps exactly the exchanges and retail cells, each as often as it occurs in the input, and drops every other cell. |
| `Heatmap.ExternalFlowsAppend` | src/components/Heatmap.tsx:111 | The filter works piece by piece, so the kept cells stay in their input order. |
| `Heatmap.TotalIsNetPlusInternal` | src/components/Heatmap.tsx:106-119 | For any cell list and asset, total flow = net flow + the sum of the asset's whales, miners and smart-contracts cells. |
| `Heatmap.MockFlows` | src/components/Heatmap.tsx:106-119 | On the generated matrix, asset i's net flow is its exchanges plus retail values, its total is all five values, and total − net is whales + miners + smart contracts. |
| `Heatmap.FormatValue` | src/components/Heatmap.tsx:100-103 | The text is `$`, then decimal digits whose value is the magnitude of v, then `M`. The digits have no leading zero, and 0 is written as the single digit `0` (`$0M`). |
| `Heatmap.FormatValueMagnitude` | src/components/Heatmap.tsx:100-103 | formatValue(v) = formatValue(−v), and two values format alike iff their magnitudes are equal. |
| `Heatmap.CellLabels` | src/components/Heatmap.tsx:175-180 | A cell's signed text determines its value. Its direction reads "In" exactly when its colour is one of the blue (inflow) classes. |
| `Heatmap.ZeroCell` | src/components/Heatmap.tsx:176-179 | A zero cell reads "-$0M" and "Out" and is mild orange. |
| `Heatmap.NetFlowTextInjective` | src/components/Heatmap.tsx:190-192 | The net amount, with '+' only for a positive net flow, determines the net flow. |
| `Heatmap.NetFlowCaption` | src/components/Heatmap.tsx:185-195 | The net column's caption and colour are Net Inflow, Net Outflow or Balanced exactly by the sign of the net flow. |
| `Page.WithoutCohort` | src/app/page.tsx:62 | The filter keeps exactly the entries that differ from the cohort and never grows the list. |
| `Page.CheckAppends` | src/app/page.tsx:59-60 | Checking appends the cohort at the end without deduplicating: the length grows by one, the old list is a prefix, and the multiset gains one copy. |
| `Page.UncheckRemovesAll` | src/app/page.tsx:61-62 | Unchecking removes every copy of the cohort and leaves every other count unchanged. |
| `Page.UncheckDistributes` | src/app/page.tsx:62 | Removal works piece by piece over a concatenation, so the survivors keep their relative order. |
| `Page.UncheckAbsent` | src/app/page.tsx:62 | Unchecking a cohort that is not selected leaves the list unchanged. |
| `Page.CheckThenUncheck` | src/app/page.tsx:58-64 | Checking and then unchecking a cohort that was absent restores the original list. |
| `Page.Timestamp` | src/app/page.tsx:19-20 | The timestamp is the whole number of seconds, rounded down. |
| `Page.TimestampSeconds` | src/app/page.tsx:19-20 | Two instants share a timestamp iff they fall in the same second. |
| `Page.MockValueRange` | src/app/page.tsx:36 | A draw in [0, 1) gives a record value in [-500, 500). |
| `Page.Records` | src/app/page.tsx:33-44 | There is one record per asset per selected cohort: (number of assets) × (number of selected cohorts) records. |
| `Page.RecordAt` | src/app/page.tsx:33-44 | Record i·(number of selected cohorts) + j belongs to asset i and cohort j, carries that draw's value and the date read when it was pushed. |
| `Page.RecordValues` | src/app/page.tsx:33-44 | With draws in [0, 1), every record's value lies in [-500, 500). |
| `Page.BuildRecords` | src/app/page.tsx:29-44 | The nested `forEach` loops push exactly the specification records `Records`. |
| `Page.HomePage.constructor` | src/app/page.tsx:11-16 | The first state selects the five cohort ids in table order. It starts seven days before the first clock read and ends at the second read. It has no records and is loading without error. |
| `Page.HomePage.HandleCohortChange` | src/app/page.tsx:58-64 | The selection becomes the check or uncheck update of the old selection, and nothing else changes. |
| `Page.HomePage.HandleDateChange` | src/app/page.tsx:66-69 | Both dates are replaced, and nothing else changes. |
| `Page.HomePage.FetchData` | src/app/page.tsx:24-53 | Loading always ends false. The error flag is raised iff the `try` throws. On success the records are those of the current assets and selection, and on the catch path the old records stay. |
| `CohortToggle.CheckedAfterChange` | src/components/CohortToggle.tsx:24-27 | After a change to a cohort, its box shows the new state and every other box keeps its state. |
| `CohortToggle.InitialPanel` | src/components/CohortToggle.tsx:19-59 | On the first selection every box is ticked, the count reads "5 of 5 selected", and the button says "Deselect All". |
| `CohortToggle.CountTextLength` | src/components/CohortToggle.tsx:44-46 | Two selections give the same count text iff they have the same length, repeats included. |
| `CohortToggle.CountsRepeats` | src/components/CohortToggle.tsx:45 | A selection listing "whales" twice reads "2 of 5 selected". |
| `CohortToggle.ButtonLabelMatchesClick` | src/components/CohortToggle.tsx:48-59 | The caption is "Deselect All" exactly at length 5, which is exactly when the click sends unchecks. |
| `CohortToggle.ToggleAllCalls` | src/components/CohortToggle.tsx:48-56 | A click issues one call per cohort in table order, all with the flag "length ≠ 5". |
| `CohortToggle.ToggleAll` | src/components/CohortToggle.tsx:48-56 | Running the click against the page applies the page handler for each call in turn, and nothing but the selection changes. |
| `CohortToggle.ApplyDeselections` | src/components/CohortToggle.tsx:51 | Unchecking a list of ids one after another leaves exactly the entries not in that list. |
| `CohortToggle.ApplySelections` | src/components/CohortToggle.tsx:54 | Checking a list of ids one after another appends them all, in order. |
| `CohortToggle.DeselectAll` | src/components/CohortToggle.tsx:49-51 | At length 5 a click removes every cohort id, so a selection made only of cohort ids becomes empty. |
| `CohortToggle.SelectAll` | src/components/CohortToggle.tsx:52-55 | Otherwise the result is the old list followed by all five ids, so every already-selected id gains a second copy. |
| `CohortToggle.LabelAfterSelectAll` | src/components/CohortToggle.tsx:59 | After Select All from k entries the length is k + 5. The caption becomes "Deselect All" only when k = 0, so from 0 < k < 5 it stays "Select All". |

## Left out

- JSX rendering, Tailwind layout and the header text transform (`cohort.replace(...)`) are presentation. Only the colour-class strings and the texts the properties mention are modelled.
- `fetch`, `response.json()` parsing, `setTimeout` timing, SWR caching, `revalidateOnFocus` and the refresh interval are left out. Each attempt's outcome is a scripted `Attempt`, and the waits are returned as a list.
- A JSON body that parses but is not an array (where `data.map` would throw) is not modelled: a parsed body is a list of `{t, v}` points.
- Api.FlowFunction: only the five own keys of the dispatch object are modelled. A JavaScript object lookup also finds inherited names such as "constructor" or "toString", for which the program finds a (non-fetcher) value.
- Api.SwrKeyInjective: proved only for asset symbols without a dash, as all default symbols are. Symbols read from the environment may contain one, and for those the model does not say whether keys can collide.
- Api.SwrKey: only the five own keys of the dispatch object are modelled. A JavaScript object lookup also finds inherited names such as "constructor" or "toString", which would give a non-null key.
- `process.env` reads are `Option<string>` parameters: `NEXT_PUBLIC_ASSETS` for the asset list and `GLASSNODE_API_KEY` for the URL, where an unset key is rendered as "undefined".
- `Math.random()` is an injected draw in [0, 1), not a distribution.
- Floating-point error is not modelled: values are reals and rounding is exact.
- Heatmap.FormatValue: `toFixed(0)` is modelled for integers only, which every cell value and per-asset sum is. Its exponent notation for magnitudes of 10^21 and above is not modelled.
- Page.HomePage.FetchData: nothing in its `try` throws in practice, so the catch path is chosen by a `thrown` parameter.
- Page.HomePage.HandleDateChange: dates are integer milliseconds, so an Invalid Date cannot be represented. Examples are `new Date("")` from an emptied date input, whose `getTime()` is NaN, and the NaN timestamps, day count and scale factor it would give. Heatmap.DaysDiff and Page.Timestamp share this gap.
- Page.HomePage.constructor: `subDays(new Date(), 7)` (the `startNow` read) is taken as exactly seven days of milliseconds, ignoring daylight-saving shifts.
- React effect scheduling, state batching, the effect's dependency list, `console.log`/`console.error` and the cell-click handler (which only logs) are left out.
- src/components/DateRangePicker.tsx is not part of this model. Its presets rest on date-fns and the system clock, and its day count is the same ceiling as `Heatmap.CeilDays`.
- src/app/layout.tsx (static metadata and SWR configuration) is not part of this model.
