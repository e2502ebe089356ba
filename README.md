# AlignED charts and navigation — a Dafny model

This project models the client-side logic of the AlignED benchmark site: the
data shaping its chart module does before handing arrays to the charting
library, the page controller that picks which data to fetch and which charts
to draw from the canvases a page has, and the navigation script that marks
the current page's nav links and opens and closes the mobile menu.

Modules, one per component:

- `ProviderColors` (`colors.dfy`): the provider-to-colour table and its grey fallback.
- `Ranking` (`ranking.dfy`): the stable descending sort behind
  `sort((a, b) => b[metric] - a[metric])` and JavaScript's `slice(0, count)`.
- `Decimal` (`decimal.dfy`): the decimal numeral `${i + 1}` of a bar's rank.
- `Charts` (`charts.dfy`): score records, the null filter, the top-N,
  all-models and ACARA pipelines, and the parallel arrays they produce.
- `PageDispatch` and `DispatchProperties` (`dispatch.dfy`): the
  `DOMContentLoaded` handler as a method producing an ordered list of
  actions (fetch, draw, report a failure), the reference plan it is proved
  equal to, and the properties of that plan.
- `JsString` (`jsstring.dfy`): `endsWith`, `indexOf`, `includes`, and
  `replace` with a string pattern and a replacement without `$` (first
  occurrence only).
- `Navigation` (`navigation.dfy`): the active-link test, the link loop as a
  method over an array of `active` flags, and the menu as a class with an
  `open` field.
- `Wrappers` (`wrappers.dfy`): `Option`, for null values and failed fetches.

Metric values are `real`s: exact numbers, not IEEE doubles. A `null` or
missing metric is a key absent from a record's `fields` map, which is what
`m[metric] != null` tests. Records are immutable values, so the builders'
"sort a copy, never the caller's array" holds by construction. Fetching is
not modelled. The data a fetch returns is an input, and `None` stands for a
fetch or parse that threw, which the handler's `catch` reports.

All three builders pass the fixed value axis 50–100 (the all-models lower
bound is fixed at 50). The ACARA second series is the provider colour with
the alpha suffix `80`. The two fetches of a results page run one after the
other.

## Model

| member | source | states |
|---|---|---|
| `ProviderColors.ColorOf` | js/charts.js:10-28 | total lookup: a known provider gets its table colour, any other name the grey `#6B7280`; the result is always a `#RRGGBB` colour, never empty |
| `ProviderColors.KnownProviderColors` | js/charts.js:10-17 | the six providers map to their six brand colours |
| `ProviderColors.ColorsDistinguishProviders` | js/charts.js:10-28 | known providers get pairwise distinct colours, none of them grey; grey means exactly "unknown provider" |
| `Ranking.SortDesc` | js/charts.js:69 | definition: stable insertion sort, larger keys first, keeping length and multiset; its properties are stated in `Ranking.SortDescCorrect` |
| `Ranking.SortDescCorrect` | js/charts.js:69 | the sort's output is in non-increasing key order, is a permutation of its input, and keeps equal-key elements in input order (stability) |
| `Ranking.InsertSorted` | js/charts.js:69 | inserting into a sorted sequence keeps it sorted |
| `Ranking.InsertWithKey` | js/charts.js:69 | insertion puts the new element ahead of all elements with its key and leaves other keys' order alone |
| `Ranking.SliceEnd` | js/charts.js:70 | `slice(0, count)` keeps `min(count, n)` elements for `count >= 0` and counts back from the end for a negative `count` |
| `Ranking.Take` | js/charts.js:70 | truncation returns a prefix of the sorted list of the length `SliceEnd` gives |
| `Ranking.TakeKeepsLargest` | js/charts.js:67-70 | truncating a sorted list keeps it sorted and keeps a sub-multiset whose every key is at least every key left behind |
| `Ranking.WithKeyOfPrefix` | js/charts.js:70 | truncation drops equal-key elements only from the end of their run |
| `Decimal.DecimalString` | js/charts.js:73 | the rank numeral is non-empty, all digits, without a leading zero |
| `Decimal.DecimalRoundTrip` | js/charts.js:73 | reading the rank numeral back gives the rank |
| `Decimal.DecimalStringInjective` | js/charts.js:73 | different ranks have different numerals |
| `Decimal.LeadingDigits` | js/charts.js:73 | the longest digit prefix of a label, stopping at the first non-digit |
| `Decimal.LeadingDigitsOfNumeral` | js/charts.js:73 | in `"<rank>. <model>"` the digit prefix is exactly the rank numeral |
| `Charts.Candidates` | js/charts.js:68 | the null filter keeps only records that have the metric |
| `Charts.CandidatesMultiset` | js/charts.js:68 | the filter keeps every record that has the metric, as often as it occurs, and nothing else |
| `Charts.CandidatesKeepOrder` | js/charts.js:67-68 | filtering keeps input order among records of equal metric value |
| `Charts.Ranked` | js/charts.js:133-135 | definition: the candidates sorted by the metric; its properties are stated in `Charts.RankedIsStableSortOfCandidates` |
| `Charts.RankedIsStableSortOfCandidates` | js/charts.js:133-135 | the all-models records: exactly the records with the metric (a permutation of them), non-increasing, equal metrics in input order |
| `Charts.TopRecords` | js/charts.js:67-70 | definition: the first `count` ranked records; its properties are stated in `Charts.TopRecordsAreTheBest` |
| `Charts.TopRecordsAreTheBest` | js/charts.js:67-70 | the top-N records: `SliceEnd(candidates, count)` of them, a sub-multiset of the candidates, non-increasing, none smaller than an omitted candidate, equal metrics in input order |
| `Charts.Bars` | js/charts.js:73-75 | the label, value and colour arrays have equal length, one entry per selected record |
| `Charts.RankLabel` | js/charts.js:73 | definition: the label `${rank}. ${model}`; its properties are stated in `Charts.TopChartRanks` and `Decimal.LeadingDigitsOfNumeral` |
| `Charts.BarsFromInput` | js/charts.js:73-75 | bar `i` shows `recs[i]`, the record at the same index: its label, metric and provider colour; so every bar shows a selected input record that has the metric |
| `Charts.TopChart` | js/charts.js:62-75 | definition: the arrays of the top-N chart; its properties are stated in `Charts.TopChartSeries` and `Charts.TopChartRanks` |
| `Charts.TopChartSeries` | js/charts.js:62-75 | the top-N arrays are aligned, `min(count, records with the metric)` long, values non-increasing; bar `i` shows the `i`-th top record (label `(i+1). model`, its metric, its colour), so the bars carry the sub-multiset, order and stable ties of `TopRecordsAreTheBest` |
| `Charts.TopChartRanks` | js/charts.js:73 | the label of bar `i` starts with the numeral `i + 1`, which reads back as `i + 1` |
| `Charts.TopChartExample` | js/charts.js:67-75 | with B at 95, A at 92 and C null, the top-2 chart is `["1. B", "2. A"]`, `[95, 92]`, Anthropic and OpenAI colours |
| `Charts.AllModelsChart` | js/charts.js:128-139 | definition: the arrays of the all-models chart; its properties are stated in `Charts.AllModelsChartSeries` and `Charts.AllModelsChartCoversInput` |
| `Charts.AllModelsChartSeries` | js/charts.js:133-139 | the all-models arrays are aligned, one bar per record with the metric, values non-increasing; bar `i` shows the `i`-th ranked record (bare model label, its metric, its colour), so the bars carry the permutation and stable order of `RankedIsStableSortOfCandidates` |
| `Charts.AllModelsChartCoversInput` | js/charts.js:133-137 | every input record that has the metric gets a bar |
| `Charts.AcaraOrder` | js/charts.js:198 | definition: the ACARA records sorted by accuracy; its properties are stated in `Charts.AcaraOrderIsStableSort` |
| `Charts.AcaraChart` | js/charts.js:198-203 | the five ACARA arrays are aligned, one column per record (no filter) |
| `Charts.AcaraOrderIsStableSort` | js/charts.js:198 | the ACARA order is a permutation of the input, non-increasing in accuracy, equal accuracies in input order |
| `Charts.AcaraChartSeries` | js/charts.js:198-220 | column `i` shows the `i`-th record of the ACARA order (label, accuracy, consistency, colour), so both series follow one accuracy-descending stable order of all records; consistency colour = accuracy colour + `80` (line 220), a `#RRGGBBAA` colour |
| `Charts.AcaraChartCoversInput` | js/charts.js:198-200 | every ACARA record gets a column |
| `PageDispatch.RenderTop` | js/charts.js:62-64 | definition: a top-N draw into the canvas if the page has it, else nothing; its properties are stated in `DispatchProperties.TopChartsDraws` |
| `PageDispatch.RenderAllModels` | js/charts.js:128-130 | definition: an all-models draw into the canvas if the page has it, else nothing; its properties are stated in `DispatchProperties.AllModelsChartsDraws` |
| `PageDispatch.RenderAcara` | js/charts.js:193-195 | definition: the ACARA draw into the canvas if the page has it, else nothing; its properties are stated in `DispatchProperties.PlanDrawsEveryPresentCanvas` and `DispatchProperties.PlanDrawsOnlyPresentCanvases` |
| `PageDispatch.Renders` | js/charts.js:272-284 | definition: one guarded render per (canvas, metric) entry, in order, for the index and the results page; its properties are stated in `DispatchProperties.RendersDraws` |
| `PageDispatch.TopCharts` | js/charts.js:272-274 | definition: the index page's three guarded top-10 renders; its properties are stated in `DispatchProperties.TopChartsDraws` |
| `PageDispatch.AllModelsCharts` | js/charts.js:280-284 | definition: the results page's five guarded all-models renders; its properties are stated in `DispatchProperties.AllModelsChartsDraws` |
| `PageDispatch.PageOf` | js/charts.js:270-278 | index page iff `eaiChart` without `scenariosChart`; results page iff `scenariosChart` |
| `PageDispatch.IndexSteps` | js/charts.js:270-275 | definition: the index page's actions; its properties are stated in `PageDispatch.IndexBranch` and the `DispatchProperties.Plan*` lemmas |
| `PageDispatch.ResultsSteps` | js/charts.js:278-291 | definition: the results page's actions; its properties are stated in `PageDispatch.ResultsBranch` and the `DispatchProperties.Plan*` lemmas |
| `PageDispatch.AcaraStep` | js/charts.js:286-290 | definition: the ACARA fetch and render, only with `acaraChart`; its properties are stated in `DispatchProperties.PlanFetches` and `DispatchProperties.PlanFailureReported` |
| `PageDispatch.Plan` | js/charts.js:267-295 | definition: the handler's actions by page identity; its properties are stated in `PageDispatch.OnContentLoaded` and the `DispatchProperties.Plan*` lemmas |
| `PageDispatch.IndexBranch` | js/charts.js:270-275 | the index branch fetches the composite data, then renders the three top-10 charts in order, or reports a failed fetch and stops |
| `PageDispatch.ResultsBranch` | js/charts.js:278-290 | the results branch fetches, renders the five all-models charts in order, then fetches and renders ACARA only with `acaraChart`; a failed fetch is reported and stops it |
| `PageDispatch.OnContentLoaded` | js/charts.js:267-295 | the handler's actions are exactly the plan of the page's identity |
| `DispatchProperties.RendersDraws` | js/charts.js:63-64 | a sequence of guarded renders, one per (canvas, metric) entry, draws exactly the entries whose canvas the page has, each with its own chart |
| `DispatchProperties.TopChartsDraws` | js/charts.js:63-64 | the index renders draw exactly the listed canvases the page has, as top-10 charts |
| `DispatchProperties.AllModelsChartsDraws` | js/charts.js:129-130 | the results renders draw exactly the listed canvases the page has, as all-models charts |
| `DispatchProperties.PlanFetches` | js/charts.js:270-288 | the composite data is fetched first, at most once, iff the page is index or results; ACARA data is fetched iff results page with `acaraChart` and a successful composite fetch |
| `DispatchProperties.PlanDrawsOnlyPresentCanvases` | js/charts.js:63-64 | every draw in the plan targets a canvas of the page (that nothing else is drawn is `DispatchProperties.PlanDrawsExactly`) |
| `DispatchProperties.PlanDrawKinds` | js/charts.js:269-291 | the branches never both run: index pages draw only top-N charts, results pages only all-models and ACARA charts |
| `DispatchProperties.PlanDrawsEveryPresentCanvas` | js/charts.js:270-290 | after a successful fetch every listed canvas the page has is drawn with its metric's chart, and the ACARA chart when present and fetched |
| `DispatchProperties.PlanDrawsExactly` | js/charts.js:267-295 | after a successful composite fetch a draw is in the plan iff it is a listed top-10 chart of a canvas the index page has, a listed all-models chart of a canvas the results page has, or the ACARA chart on a results page with `acaraChart` and ACARA data: a render whose canvas is missing draws nothing, and nothing unlisted is drawn |
| `DispatchProperties.PlanFailureStops` | js/charts.js:268-294 | a failure report in the plan is its last action, comes right after a fetch, and occurs only once |
| `DispatchProperties.PlanFailureReported` | js/charts.js:268-294 | a failed composite fetch on the index or results page gives exactly fetch then report; a failed ACARA fetch gives the composite fetch, the all-models renders, the ACARA fetch and the report, with no ACARA chart drawn; a report happens iff one of the two fetches failed |
| `JsString.EndsWith` | js/main.js:27 | definition: `endsWith`; used by `Navigation.ActiveLinkIff` and the path examples |
| `JsString.IndexOfFrom` | js/main.js:28 | the search returns the first occurrence at or after its start, or none when there is none |
| `JsString.IndexOf` | js/main.js:28 | definition: `indexOf` from 0, `None` for -1; its properties come from `JsString.IndexOfFrom` |
| `JsString.Includes` | js/main.js:28 | definition: `includes`; its properties are stated in `JsString.IncludesIff` |
| `JsString.ReplaceFirst` | js/main.js:28 | definition: `replace` with a string pattern and a replacement without `$`; its properties are stated in `JsString.ReplaceFirstCutsFirstOccurrence` and `JsString.ReplaceFirstWithoutMatch` |
| `JsString.IncludesIff` | js/main.js:28 | `includes` holds iff the pattern occurs somewhere |
| `JsString.ReplaceFirstCutsFirstOccurrence` | js/main.js:28 | `replace` with a string pattern and a `$`-free replacement replaces exactly the first occurrence; putting the pattern back gives the input |
| `JsString.ReplaceFirstWithoutMatch` | js/main.js:28 | `replace` without an occurrence returns the input |
| `JsString.ReplaceFirstExample` | js/main.js:28 | `"a.html.html".replace(".html", "")` is `"a.html"`: only the first occurrence goes |
| `Navigation.PageName` | js/main.js:28 | definition: `href.replace('.html', '').replace('/', '')`; its properties are stated in `Navigation.PageLinkActiveIff` |
| `Navigation.IsActiveLink` | js/main.js:27-28 | definition: the link test; its properties are stated in `Navigation.ActiveLinkIff` and `Navigation.PageLinkActiveIff` |
| `Navigation.ActiveLinkIff` | js/main.js:27-28 | a link is active when the path ends with its `href`; the home link only then; any other link iff ends-with or the path contains the `href` with first `.html` and first `/` cut |
| `Navigation.PageLinkActiveIff` | js/main.js:27-28 | for a link `name.html` the cut name is `name`, and the link is active iff the path ends with `name.html` or contains `name` |
| `Navigation.ExactPathExample` | js/main.js:27 | `/results.html` marks `results.html` |
| `Navigation.PrettyPathMarksLink` | js/main.js:28 | `/name` (without `.html`) marks the link `name.html` |
| `Navigation.RootPathExample` | js/main.js:27-28 | the site root `/` does not mark the home link `index.html` |
| `Navigation.MarkedLinks` | js/main.js:25-31 | definition: one flag per link, the old flag or the test; its properties are stated in `Navigation.MarkedLinksOnlyAdd` |
| `Navigation.MarkedLinksOnlyAdd` | js/main.js:25-31 | every link passing the test ends up active, an active link stays active, a link failing the test keeps its flag, and a second run changes nothing; together these fix the result |
| `Navigation.MarkedLinksIndependent` | js/main.js:25-31 | a link's result depends only on its own `href` and flag |
| `Navigation.MarkActiveLinks` | js/main.js:25-31 | the in-place loop leaves the flags equal to `MarkedLinks` of the old flags |
| `Navigation.AfterToggleClick` | js/main.js:7-9 | definition: the toggle listener's transition; its properties are stated in `Navigation.ClickTransitions` |
| `Navigation.AfterDocumentClick` | js/main.js:13-18 | definition: the document listener's transition; its properties are stated in `Navigation.ClickTransitions` |
| `Navigation.AfterClick` | js/main.js:7-18 | definition: a whole click, toggle listener then document listener; its properties are stated in `Navigation.ClickTransitions` |
| `Navigation.ClickTransitions` | js/main.js:7-18 | a toggle click flips the menu, two restore it, a click inside the menu keeps it, a click elsewhere closes it, and only the toggle opens it |
| `Navigation.NavMenu.OnToggleClick` | js/main.js:7-9 | the toggle listener flips `open` |
| `Navigation.NavMenu.OnDocumentClick` | js/main.js:13-18 | the document listener closes an open menu on a click outside both menu and toggle, and otherwise leaves it |
| `Navigation.NavMenu.Click` | js/main.js:7-18 | a click runs the toggle's listener (if it was hit) and then the document's |

## Left out

- Fetching and parsing the two JSON files (js/charts.js:35-50) is network I/O. The records a fetch yields are an input, and `None` stands for any throw or rejection. A `results` key that is not an array is not modelled.
- The charting library call and its options (js/charts.js:77-116, 141-183, 205-263) are a foreign call. A draw records only the series and the fixed 50–100 value axis.
- The tooltip and tick callbacks (`toFixed(1)`, `v + '%'`) are floating-point formatting.
- `console.error` is modelled only as a `ReportFailure` action after the failed fetch.
- Charts.AcaraOrder: a null or missing `accuracy` is not modelled, because the record type makes `accuracy` a number. In the source's `b.accuracy - a.accuracy` a `null` counts as 0, so such a record sorts as accuracy 0 and its `null` is passed on in the accuracy array; a missing (`undefined`) accuracy makes the comparator NaN.
- ProviderColors.ColorOf: the model treats every non-table name as unknown. In JavaScript, an inherited property name such as `toString` looks up a truthy function, and that function is what gets returned.
- Ranking.SortDesc: keys are exact reals. Overflow, infinities and NaN in the subtraction comparator are not modelled.
- Ranking.SliceEnd: `count` is an integer. A fractional, NaN or `undefined` count is not modelled. The page controller always uses the default count of 10.
- The unused `label` parameter of the render functions is left out.
- A render that throws after its canvas lookup (for instance inside the charting library) is not modelled: renders always succeed.
- JsString.ReplaceFirst: the replacement is inserted literally. JavaScript's `replace` expands `$$`, `$&`, `` $` `` and `$'` in a string replacement, which is not modelled; the navigation script only ever replaces with the empty string.
- Navigation: the DOM is reduced to the path string, the `href` strings, the `active` flags and the click target. Links without an `href` attribute (`getAttribute` returning null) are not modelled.
- Navigation.NavMenu: pages without a `nav` element are not modelled; on such pages the script changes nothing.
- The chart module contains no metadata join, timeline, multi-band or token-usage code; none is modelled.
