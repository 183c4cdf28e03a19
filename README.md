# GeoJSON overlap dashboard: result list engine, statistics and upload state

This project models the client side of a dashboard. A user uploads a GeoJSON
file. A remote service analyses it and returns one `OverlapResult` row per
input feature. The browser then works on those rows:

- **Result list engine** (`ResultsTable`, in `results_table.dfy`). It filters
  rows by error type and by a substring of the feature id. It shows a window of
  the filtered rows that grows ten rows per `loadMore`. It keeps a selection map
  from feature id to a flag. It builds the GeoJSON the map shows for all,
  filtered or selected rows, and for a single row's "view on map" button.
- **Statistics cards** (`StatisticsCards`, in `statistics_cards.dfy`). Counts of
  rows and of each overlap kind, the mean overlap percentage, and the two area
  sums in square metres and hectares, always over the full result list.
- **Upload page** (`CheckOverlapPage`, in `check_overlap_page.dfy`). The
  `loading` / `error` / `results` state that `handleUpload` sets. The request
  is replaced by the outcome it produced.

Shared pieces:
- `Seqs` (`seqs.dfy`): `Keep`, which is `Array.prototype.filter`, and the
  order-preserving subsequence relation.
- `Text` (`text.dfy`): the decimal string of an integer (`toString`) and
  substring search (`includes`).
- `Overlap` (`overlap.dfy`): the row record and the parsed GeoJSON values.
- `Wrappers` (`wrappers.dfy`): `Option` and `Result`.

Modelling choices:
- JSON text is not modelled. A row's `geometry` string becomes the value
  `JSON.parse` would return for it: a `Feature`, a `FeatureCollection`, any
  other value (taken as a bare geometry), or a `ParseError`. `ParseError` also
  stands for text such as `null` that parses to a value with no `type` to read:
  reading `.type` then throws, just as a syntax error does. A row's field has
  the type `Overlap.ParsedText`, which admits only outcomes satisfying
  `Overlap.WellFormedParse`: a bare geometry never has the type `Feature` or
  `FeatureCollection`, because the code tests those two types first.
- The row fields are renamed to camelCase: `feature_id` becomes `featureId`,
  `error_type` becomes `errorType`, and so on.
- Numbers are exact: ids and status codes are `int`, and measurements are `real`.
- Each React handler or effect is one atomic state change of a class.
- The `ResultsTable` constructor is mounting with a result list, followed by
  the first run of the filter effect.
- `selectedGeometry` holds the feature collection before `JSON.stringify`.
- The mean of an empty list is `None`. The source divides 0 by 0 there and
  gets NaN.

Where a reader might expect otherwise, the model follows the code:
- "Select all" REPLACES the whole selection map with the ids of the visible
  window (components/ResultsTable.tsx:186-190). It does not merge them into
  the old map. Selected ids outside the window are no longer selected
  afterwards (`SelectAll`).
- The single-row "view on map" path REPLACES the properties of a parsed
  `Feature` with the three row fields. It does not merge them. A parsed
  `FeatureCollection` is stored unchanged, without the row fields.
- In the multi-row path, `features[0].geometry` on an EMPTY collection reads a
  member of `undefined`, which throws. So does unparsable geometry in any
  shown row, because that path has no `try`. `ProjectRows` gives the error of
  the first such row instead of a collection. The throw happens during render
  (`getMapGeoJSON()` is called inside the JSX at components/ResultsTable.tsx:503)
  and nothing catches it, so the page fails rather than quietly skipping the map.

## Model

| member | source | states |
|---|---|---|
| `Seqs.Keep` | components/ResultsTable.tsx:120-130 | every kept element is in the input and passes the predicate; every input element that passes is kept; never longer than the input |
| `Seqs.KeepMultiplicity` | components/StatisticsCards.tsx:13-18 | a passing element is kept exactly as often as it occurs and a failing one not at all, so `filter(...).length` counts occurrences exactly |
| `Seqs.KeepIsSubsequence` | components/ResultsTable.tsx:118-131 | a filtered list is an order-preserving subsequence of the list it came from |
| `Seqs.KeepKeep` | components/ResultsTable.tsx:120-130 | filtering by one predicate and then by another equals one filter by their conjunction |
| `Text.DecimalString` | components/ResultsTable.tsx:128 | `toString` of an integer is non-empty, starts with a digit iff the number is non-negative, and starts with `-` iff it is negative |
| `Text.DecimalRoundTrip` | components/ResultsTable.tsx:128 | reading back the decimal string of any integer gives that integer |
| `Text.DecimalStringInjective` | components/ResultsTable.tsx:128 | two ids with the same decimal string are equal |
| `Text.IncludesIff` | components/ResultsTable.tsx:128 | `includes` holds iff the pattern occurs at some position of the string (both directions) |
| `ResultsTable.ApplyFilters` | components/ResultsTable.tsx:117-131 | the filtered list is never longer than the results, and each of its rows is a result row meeting both filters (each switched off by an empty string); further characterised by `ApplyFiltersIsSinglePass`, `FilterMembership` and `FilterKeepsOrder` |
| `ResultsTable.ApplyFiltersIsSinglePass` | components/ResultsTable.tsx:117-131 | the effect's two successive filter passes equal one pass with the AND of both predicates, each disabled by an empty filter string |
| `ResultsTable.FilterMembership` | components/ResultsTable.tsx:117-131 | a row is in the filtered list iff it is in the results, its error type equals the error-type filter (when set), and the id filter (when set) occurs in the decimal id |
| `ResultsTable.FilterKeepsOrder` | components/ResultsTable.tsx:117-132 | the filtered list is an order-preserving subsequence of the results |
| `ResultsTable.NoFiltersKeepAll` | components/ResultsTable.tsx:67-70 | with the initial empty filters the filtered list is the whole result list |
| `ResultsTable.Window` | components/ResultsTable.tsx:86-96 | the visible window is a prefix of the filtered list and never longer than it |
| `ResultsTable.WindowGrowth` | components/ResultsTable.tsx:87-94 | while rows remain, one more page appends exactly `filtered[page*10 .. min(page*10+10, n)]` |
| `ResultsTable.WindowMonotone` | components/ResultsTable.tsx:86-96 | windows after more pages extend windows after fewer pages |
| `ResultsTable.WindowHasMore` | components/ResultsTable.tsx:487 | the window is shorter than the filtered list iff `page*10 < n` |
| `ResultsTable.ScrollNearBottom` | components/ResultsTable.tsx:105-107 | definition: the distance from the bottom of the list is below the 50-pixel threshold; characterised by `ResultsTable.ResultsTable.OnScroll` |
| `ResultsTable.Toggle` | components/ResultsTable.tsx:194-199 | the clicked id's flag becomes the negation of its old truthiness (absent counts as false); every other entry is unchanged; the only key added is the clicked id |
| `ResultsTable.ToggleTwice` | components/ResultsTable.tsx:194-199 | clicking the same checkbox twice restores every row's selected state |
| `ResultsTable.BuildSelection` | components/ResultsTable.tsx:186-189 | the `forEach` loop builds a map whose keys are exactly the window's ids, each mapped to `checked` |
| `ResultsTable.AnySelected` | components/ResultsTable.tsx:233-236 | "View Selected on Map" is enabled iff some id in the selection map is true |
| `ResultsTable.RowsToShow` | components/ResultsTable.tsx:139-153 | "all" mode shows the results, "filtered" mode the filtered list, and "selected" mode only result rows whose id is selected, never more rows than there are results; characterised further by `SelectedRowsShown` |
| `ResultsTable.SelectedRowsShown` | components/ResultsTable.tsx:141-146 | "selected" mode shows, in result order, exactly the rows whose id is selected, including rows the filters hide |
| `ResultsTable.ProjectGeometry` | components/ResultsTable.tsx:159-169 | the geometry fails as malformed iff the text does not parse, fails as empty iff it is a collection without features; a collection gives its first feature's geometry and a bare geometry gives itself |
| `ResultsTable.ProjectRow` | components/ResultsTable.tsx:158-179 | a row's map feature has exactly the three row fields as properties and no other members; its geometry is the feature's geometry, the first feature's geometry of a collection, or the parsed value; it fails iff the text does not parse or the collection is empty |
| `ResultsTable.ProjectRows` | components/ResultsTable.tsx:156-181 | on success, one feature per row, in row order, each that row's projection; it fails iff some row fails, and then with the error of the first failing row |
| `ResultsTable.SingleRowCollection` | components/ResultsTable.tsx:400-458 | a collection is kept unchanged; a feature keeps its geometry and members but gets the row's properties; a bare geometry becomes a one-feature collection with the row's properties; unparsable text gives nothing |
| `ResultsTable.SingleRowAgreesWithProjection` | components/ResultsTable.tsx:400-452 | whenever the multi-row projection of a row succeeds, the single-row path gives the same first-feature geometry; it also gives the same properties unless the row holds a collection |
| `ResultsTable.ResultsTable.constructor` | components/ResultsTable.tsx:63-83 | after mounting and the first filter run: no filters, filtered list equals the results, page 1, window is the first 10 rows, empty selection, no map open |
| `ResultsTable.ResultsTable.Statistics` | components/ResultsTable.tsx:204 | definition: the cards are computed from the full `results` and read only that field; so the filter setters leave them unchanged (`SetErrorTypeFilter`, `SetFeatureIdFilter`) |
| `ResultsTable.ResultsTable.Refilter` | components/ResultsTable.tsx:117-135 | the filtered list is recomputed, page is 1, and the window is `filtered[..min(10, n)]`; the selection, the results and the map state are untouched |
| `ResultsTable.ResultsTable.SetErrorTypeFilter` | components/ResultsTable.tsx:254-259 | only the error-type filter changes, the window is reset to the first page, and neither the selection nor the statistics change |
| `ResultsTable.ResultsTable.SetFeatureIdFilter` | components/ResultsTable.tsx:276-281 | only the id filter changes, the window is reset to the first page, and neither the selection nor the statistics change |
| `ResultsTable.ResultsTable.SetResults` | components/ResultsTable.tsx:58-62 | a `results` prop change while the table stays mounted re-runs the filter effect; the window is reset and the statistics become those of the new results |
| `ResultsTable.ResultsTable.LoadMore` | components/ResultsTable.tsx:86-96 | while `page*10 < n`, appends the next slice and increments `page`; otherwise changes nothing, so repeated calls at the end are no-ops; the window stays the filtered list's first `page` pages |
| `ResultsTable.ResultsTable.OnScroll` | components/ResultsTable.tsx:103-110 | when the distance to the bottom is below 50 and rows remain, appends the next page and increments `page`; otherwise nothing changes; the window only grows |
| `ResultsTable.ResultsTable.HasMore` | components/ResultsTable.tsx:487-491 | the spinner shows iff another `loadMore` would add rows |
| `ResultsTable.ResultsTable.Select` | components/ResultsTable.tsx:194-199 | the selection becomes the old one with the clicked id toggled, and nothing else of the state changes |
| `ResultsTable.ResultsTable.SelectAll` | components/ResultsTable.tsx:184-191 | the selection's keys are exactly the visible ids, all mapped to `checked`; any id outside the window is no longer selected |
| `ResultsTable.ResultsTable.ShowMapView` | components/ResultsTable.tsx:209-239 | the chosen view mode is stored and the map is shown |
| `ResultsTable.ResultsTable.CloseMapView` | components/ResultsTable.tsx:504 | the map is hidden |
| `ResultsTable.ResultsTable.MapGeoJSON` | components/ResultsTable.tsx:138-182 | succeeds iff every row chosen by the view mode projects; then the collection has no extra members and its feature i is the projection of chosen row i |
| `ResultsTable.ResultsTable.ViewRowOnMap` | components/ResultsTable.tsx:389-465 | stores the single-row collection; on a parse error the stored geometry and every other field stay as they were |
| `ResultsTable.ResultsTable.CloseRowMap` | components/ResultsTable.tsx:496 | closing the row map clears the stored geometry |
| `StatisticsCards.MajorOverlaps` | components/StatisticsCards.tsx:13-15 | the major count is at most the row count, and is zero iff no row is `major_overlap`; exact count by `Seqs.KeepMultiplicity` |
| `StatisticsCards.MinorOverlaps` | components/StatisticsCards.tsx:16-18 | the minor count is at most the row count, and is zero iff no row is `minor_overlap`; exact count by `Seqs.KeepMultiplicity` |
| `StatisticsCards.FoldSum` | components/StatisticsCards.tsx:20-32 | definition of `reduce` as a left fold; characterised by `FoldSumIsSum` |
| `StatisticsCards.FoldSumIsSum` | components/StatisticsCards.tsx:24-32 | the `reduce` left fold from `acc` equals `acc` plus the sum of the field, so a sum from 0 over no rows is 0 |
| `StatisticsCards.TotalOverlapArea` | components/StatisticsCards.tsx:24-27 | the `reduce` from 0 equals the reference sum of the overlap areas |
| `StatisticsCards.TotalOriginalArea` | components/StatisticsCards.tsx:29-32 | the `reduce` from 0 equals the reference sum of the original areas |
| `StatisticsCards.Hectares` | components/StatisticsCards.tsx:61-67 | hectares times 10000 gives back the square metres, and a non-negative area in hectares lies between 0 and the area in square metres |
| `StatisticsCards.Compute` | components/StatisticsCards.tsx:10-32 | the cards show the row count, major plus minor counts not exceeding it, a mean iff there are rows, and both area totals equal to the reference sums |
| `StatisticsCards.AvgOverlapPercentage` | components/StatisticsCards.tsx:20-22 | the mean is defined iff there are rows, and then the mean times the row count is the sum of the percentages |
| `StatisticsCards.MajorMinorBounded` | components/StatisticsCards.tsx:13-18 | major count plus minor count never exceeds the total number of rows |
| `StatisticsCards.MajorMinorExhaustive` | components/StatisticsCards.tsx:12-18 | when every row is major or minor, the two counts add up to the total |
| `StatisticsCards.AreaSumsNonNegative` | components/StatisticsCards.tsx:24-32 | non-negative areas give non-negative totals, in square metres and in hectares |
| `StatisticsCards.OverlapAreaBounded` | components/StatisticsCards.tsx:24-32 | if no row overlaps more than its own area, total overlap area is at most total original area, also in hectares |
| `StatisticsCards.AverageIsPercentage` | components/StatisticsCards.tsx:20-22 | percentages between 0 and 100 have a mean between 0 and 100 |
| `StatisticsCards.EmptyStatistics` | components/StatisticsCards.tsx:12-32 | an empty result list gives zero counts, zero areas and no mean |
| `StatisticsCards.ThreeRowExample` | components/StatisticsCards.tsx:12-22 | rows major 10%, minor 30% and major 50% give 3 rows, 2 major, 1 minor and a mean of 30% |
| `CheckOverlapPage.HttpErrorMessage` | app/page.tsx:44-46 | the message starts with `HTTP error! status: ` and the status code reads back from the rest |
| `CheckOverlapPage.CaughtText` | app/page.tsx:54-55 | definition: an `Error`'s message, or `An error occurred` for any other thrown value; characterised by `CheckOverlapPage.CheckOverlap.FinishUpload` |
| `CheckOverlapPage.CheckOverlap.constructor` | app/page.tsx:23-25 | the page starts with no results, no error and not loading |
| `CheckOverlapPage.CheckOverlap.StartUpload` | app/page.tsx:28-30 | before the request, loading is on and both error and results are cleared |
| `CheckOverlapPage.CheckOverlap.FinishUpload` | app/page.tsx:35-58 | per outcome: a non-ok status sets the HTTP error text; a thrown `Error` sets its message and any other thrown value sets `An error occurred`; `status` true stores the data and `status` false sets the message; loading always ends false |
| `CheckOverlapPage.CheckOverlap.HandleUpload` | app/page.tsx:27-59 | after any outcome loading is off and exactly one of error and results is set; results are set iff the envelope has `status` true, and then equal its data even when empty |

## Left out

- JSON text: `JSON.parse` and `JSON.stringify` are not modelled. A row carries its parse outcome.
  Parsed text that is `null` (where reading `.type` throws) is represented by `ParseError`, which both paths treat alike.
- `String(n)` for ids of at least 10^21 uses exponent notation in JavaScript. `DecimalString` always writes plain digits.
- The network call, `FormData` and `response.json()` are replaced by the `FetchOutcome` value.
  An envelope without a `data` member is not modelled.
- Overlapping uploads, and responses that arrive after the page is gone, are not modelled: each upload runs to completion.
- React scheduling and setter batching are not modelled: each handler and effect is one atomic step.
  The invariant that the window is the filtered list's first `page` pages rests on this.
  In the source, several scroll events can reach the same stale `loadMore` before the listener is registered again
  (components/ResultsTable.tsx:93, 96, 114). Each would append the same slice again through the functional update.
  This is an observation from reading the code; it was not executed.
- A new upload unmounts the table: the page clears `results` before the request and renders the table only while
  `results` is set (app/page.tsx:30, 99). So the next result list meets a fresh table: filters, selection and map state
  start from the constructor. `SetResults` covers only a `results` prop change while the table stays mounted,
  which the page never produces.
  The first render, before the mount-time filter effect, is not a separate state.
- Scroll listener registration and removal are not modelled. Only the threshold test that triggers `loadMore` is kept.
- Floating-point arithmetic, NaN, `toFixed` and `toLocaleString` are not modelled. Sums, the mean and hectares are exact reals.
- JSX rendering, CSS, icons, tooltips and the table headers are not modelled.
- components/MapView.tsx (the map library binding, basemaps and legend) and next.config.ts are not part of this model.
- The `console.error` logging of a geometry that does not parse is not modelled. Only the fact that the state does not change is kept.
