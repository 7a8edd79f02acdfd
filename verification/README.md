# Transit dashboard charts and filters, modelled in Dafny

This project models the core logic of a transit-operator dashboard, a React
front end that does the following:

- It lets a user pick filters: operator (Agency), cluster, sub-cluster, city, line, line group and a date range.
- It loads the option lists for those filters lazily from a back end.
- It turns the back end's answer rows into six charts. The charts are plan versus performance, performance percentage, planned changes, planned trips, hourly delays and a delay summary.
- It shows the charts in an order and with a visibility that the user chooses in an ordering dialog. That choice is kept in browser storage.

The model is purely functional. JavaScript values are a `JsValue` datatype
(`js_values.dfy`). It gives truthiness, `String(..)`, `Number(..)`,
`parseInt`, `+`, `===` and `==`, all over integers. `Array.prototype.sort` is
a stable insertion sort. Its comparator results are abstracted as
`SortKey = Finite | Infinity | Unordered` (`stable_sort.dfy`).

Each React component or context becomes a module, and each of its event
handlers becomes a state-to-state function:

- `ChartData` holds the label formatting, the hourly sort and the transformation of answer rows into charts.
- `ChartsPage` holds the request gating, loading, ordering, hiding, rendering and stored preferences.
- `ChartOrderModal` holds the ordering dialog: its initial order, hide toggling, drag and drop, and save.
- `Filters` holds the filter context: value coercion, the Agency cascade, reset, and option loading with its error classification.
- `FilterSelections` holds the filter menu: option display values, highlighted options, select clicks and the "no line groups" message.
- `SelectBox` holds the drop-down: open and close, highlight toggling and search.
- `DateInput` holds the date-range picker: date formatting and the hourly or daily grouping rule.

Network calls, the clock and the browser are parameters. A request is
returned as a value. Its outcome comes back in as a datatype (`Outcome`) or as
the rows of an answer (`ChartSources`). Browser storage is the
`SavedPreferences` value.

## Model

| member | source | states |
|---|---|---|
| ChartData.FormatDay | src/components/charts/charts.jsx:210-230 | a missing or falsy date shows as "N/A"; a value that is not a string is shown unchanged, because the failure is caught; a string without "-" (and, in the hourly view, without AM or PM) is shown unchanged; a string always gives a string label |
| ChartData.FormatDayOfIsoDate | src/components/charts/charts.jsx:218-224 | a date "Y-M-D" of digits is labelled "D.M", in the hourly view and in the daily view alike |
| ChartData.TimestampLabels | src/components/charts/charts.jsx:243-254 | a timestamp "date h:mmAM" or "date h:mmPM" is labelled by its clock time, both by the hour display and by the day label in the hourly view |
| ChartData.HourOfClockTime | src/components/charts/charts.jsx:492-505 | the hour used to order "date h:mmAM" or "date h:mmPM" is the 24-hour hour: 12AM is 0, 12PM is 12, and h PM is h+12 otherwise |
| ChartData.SortHourly | src/components/charts/charts.jsx:492-505 | the hourly rows come back as a permutation of the input; they ascend by hour when every hour parses; rows with equal hours keep their input order |
| ChartData.PeriodLabel | src/components/charts/charts.jsx:275-277 | the month label is never empty: it falls back to the fixed word for "month" |
| ChartData.PlanVsPerformanceChart | src/components/charts/charts.jsx:268-309 | the chart has a header and then one row per answer row, in order; each count cell is the row's value, or 0 when that value is falsy |
| ChartData.PerformancePercentageChart | src/components/charts/charts.jsx:312-352 | the chart has a header and then one row per answer row, in order, with the month label and the percentage, which is 0 when falsy |
| ChartData.PlannedTripsChart | src/components/charts/charts.jsx:430-479 | the chart has a header and then one row per answer row, labelled by the formatted day, with counts defaulting to 0 |
| ChartData.FirstSeenDistinct | src/components/charts/charts.jsx:359-374 | the periods of the planned-changes groups never repeat |
| ChartData.GroupChangesGrouped | src/components/charts/charts.jsx:359-374 | each period found in the rows gets exactly one group, in first-seen order; a group's amount for a category is the last one the rows give for that period and category |
| ChartData.GroupRows | src/components/charts/charts.jsx:379-392 | each chart row is a period followed by, for each category seen anywhere, that period's latest amount, or 0 when the period has none |
| ChartData.PlannedChangesChart | src/components/charts/charts.jsx:355-427 | the header lists every category in first-seen order; there is one row per distinct period |
| ChartData.HourlyDelaysChart | src/components/charts/charts.jsx:485-548 | the rows follow the hourly sort, and each row carries the hour label and the row's delay counts |
| ChartData.SumFieldOfCounts | src/components/charts/charts.jsx:551-570 | when every row carries an integer count, the running `+=` total equals the arithmetic sum |
| ChartData.SumFieldWithMissing | src/components/charts/charts.jsx:551-570 | the total is always a number, and one row without the field makes it NaN |
| ChartData.DelaySummaryChart | src/components/charts/charts.jsx:551-587 | the summary has one row per delay category, holding the category's name and, when every row carries an integer count, the sum of those counts |
| ChartData.TransformDataToCharts | src/components/charts/charts.jsx:257-594 | the transformation fails exactly when the hourly sort throws; otherwise each chart is present exactly when its answer is non-empty (the hourly chart also needs the hourly view), charts come in the fixed order, each has a header plus at least one row, and each chart present is the one its chart function builds from its own answer |
| ChartsPage.ChartsToDisplay | src/components/charts/charts.jsx:635 | the page never shows an empty list: with no data it shows the placeholder charts |
| ChartsPage.ChartRequest | src/components/charts/charts.jsx:86-112 | charts are requested exactly when both dates are set; the request carries every API field, copied from the selected filter it maps to |
| ChartsPage.BeginChartLoad | src/components/charts/charts.jsx:86-100 | the page is loading exactly when a request goes out; data, error and preferences are untouched |
| ChartsPage.FinishChartLoad | src/components/charts/charts.jsx:115-173 | loading always ends; a successful transformation replaces the charts; a failing one keeps the old charts and sets an error; an error once set stays set |
| ChartsPage.VisibleCharts | src/components/charts/charts.jsx:638-646 | the charts shown are those not hidden, each shown once, sorted by saved position, with charts of equal position in page order |
| ChartsPage.PlacedBeforeUnplaced | src/components/charts/charts.jsx:638-646 | a chart with a saved position is shown before every chart without one |
| ChartsPage.Render | src/components/charts/charts.jsx:648-670 | the screen shows loading while a load runs, then the error if one is set, and otherwise the visible charts |
| ChartsPage.LoadPreferences | src/components/charts/charts.jsx:613-632 | stored order and hidden list replace the defaults only when they parse; charts, loading and error are untouched |
| ChartsPage.ChangeOrder | src/components/charts/charts.jsx:598-603 | a new order is used by the page and stored; nothing else on the page or in storage changes |
| ChartsPage.ChangeVisibility | src/components/charts/charts.jsx:605-610 | a new hidden list is used by the page and stored; nothing else on the page or in storage changes |
| ChartsPage.PreferencesSurviveReload | src/components/charts/charts.jsx:599-632 | an order or visibility change that was stored comes back unchanged after a reload |
| ChartOrderModal.InitialOrder | src/components/charts/chart-order-modal/chart-order-modal.jsx:84-95 | when the dialog opens, the charts are ordered by saved position, and by page position when none is saved |
| ChartOrderModal.ToggleHidden | src/components/charts/chart-order-modal/chart-order-modal.jsx:101-109 | toggling hides a shown chart and shows a hidden one; no other title changes |
| ChartOrderModal.ToggleTwice | src/components/charts/chart-order-modal/chart-order-modal.jsx:101-109 | toggling a visible title twice gives back the hidden list |
| ChartOrderModal.ArrayMove | src/components/charts/chart-order-modal/chart-order-modal.jsx:111-123 | a move keeps length and contents, puts the moved element at its target index, shifts the elements in between by one, and leaves the other elements in their relative order (taking the moved element out of both lists gives the same list) |
| ChartOrderModal.MoveIndex | src/components/charts/chart-order-modal/chart-order-modal.jsx:111-123 | after a move, the moved element sits at the target index |
| ChartOrderModal.ArrayMoveInverse | src/components/charts/chart-order-modal/chart-order-modal.jsx:111-123 | moving back from the target to the source restores the list |
| ChartOrderModal.DragEnd | src/components/charts/chart-order-modal/chart-order-modal.jsx:111-123 | a drop on another chart is the array move from the dragged chart's index to that chart's index: the dragged chart takes that place and the other charts keep their relative order; a drop on itself or outside the list changes nothing |
| ChartOrderModal.SaveOrder | src/components/charts/chart-order-modal/chart-order-modal.jsx:126-130 | each title saved is given its last position in the dialog's list |
| ChartOrderModal.SaveOrderPositions | src/components/charts/chart-order-modal/chart-order-modal.jsx:126-130 | with distinct titles, every chart is saved at its own index |
| ChartOrderModal.Close | src/components/charts/chart-order-modal/chart-order-modal.jsx:97-98 | closing hides the dialog and hands nothing to the page; the working order and hidden list stay as they were until the next opening rebuilds them |
| ChartOrderModal.Save | src/components/charts/chart-order-modal/chart-order-modal.jsx:126-134 | saving hands over the order and the hidden list and closes the dialog |
| ChartOrderModal.ReopenShowsSaved | src/components/charts/chart-order-modal/chart-order-modal.jsx:84-134 | reopening the dialog after a save shows the order that was saved |
| ChartOrderModal.PageShowsSaved | src/components/charts/chart-order-modal/chart-order-modal.jsx:126-134 | after saving with nothing hidden, the page shows the charts exactly in the saved order |
| Filters.InitialFilters | src/contexts/filters-context.jsx:51-61 | every selection starts as the empty string, the dates are the given ones, and there is no cache, flag, loading state or error |
| Filters.Coerce | src/contexts/filters-context.jsx:233-237 | Agency, Cluster and linegroup values become numbers unless they are empty; every other value is kept |
| Filters.CoerceDecimal | src/contexts/filters-context.jsx:233-237 | the decimal text of n becomes the number n for the numeric fields, and stays text for the others |
| Filters.ChangeTarget | src/contexts/filters-context.jsx:219-230 | a direct call is ignored exactly when its value is undefined; an event call uses the event's target |
| Filters.ChangeFilter | src/contexts/filters-context.jsx:215-285 | the field takes the coerced value; choosing an Agency also clears its dependent selections and forgets their cached option lists; nothing else changes |
| Filters.EvictedLists | src/contexts/filters-context.jsx:273-282 | an Agency change forgets exactly the cluster, sub-cluster, city, line and line-group option lists |
| Filters.ChangeTwice | src/contexts/filters-context.jsx:215-285 | repeating the same change does nothing more |
| Filters.ResetFilters | src/contexts/filters-context.jsx:294-309 | reset empties every selection, keeps the two dates, and drops the option cache and the empty flags |
| Filters.ResetForgetsChange | src/contexts/filters-context.jsx:294-309 | resetting after any change that does not touch the dates gives the same state as resetting before it |
| Filters.ApiFieldsInverse | src/contexts/filters-context.jsx:115-123 | the filter-to-API field mapping is one-to-one |
| Filters.OptionsRequest | src/contexts/filters-context.jsx:134-149 | the request carries an API field exactly when its filter is set, with that filter's value, and each date exactly when it is set |
| Filters.BeginLoad | src/contexts/filters-context.jsx:126-149 | a list already loading sends nothing; otherwise the list is marked loading and the request goes out; other lists are unaffected |
| Filters.Thrown | src/contexts/filters-context.jsx:151-176 | a rejected call keeps its message and response; an answer that is not a success throws with a non-empty message and no response |
| Filters.RendersAsSuccess | src/contexts/filters-context.jsx:166-176 | only the success text itself converts to the success text |
| Filters.Classify | src/contexts/filters-context.jsx:151-201 | rows received are cached as received; an answer saying "success" without rows caches an empty list; a failure on the line-group list that says there are no groups becomes the no-groups case; any other rejection fails with its own message, or with the default message when it has none, unless the message is the success text, which caches an empty list; an unusable answer fails with its `Msg` or the default load error |
| Filters.FinishLoad | src/contexts/filters-context.jsx:163-204 | loading ends for this list only; a failure sets the error and caches nothing; otherwise this list is cached, the other lists stay, and the no-groups case caches an empty list and raises this list's empty flag |
| Filters.Focus | src/contexts/filters-context.jsx:208-212 | focusing a cached list does nothing; focusing another list starts its load |
| Filters.NoDuplicateRequest | src/contexts/filters-context.jsx:126-131 | focusing the same list twice sends one request at most |
| Filters.RetryOnlyAfterFailure | src/contexts/filters-context.jsx:202-212 | after a load ends, focusing the list again requests it again exactly when the load failed |
| FilterSelections.OptionsOf | src/components/filters-menu/filters-menu-selections/filters-menu-selections.jsx:103-108 | a list that was never loaded offers no options |
| FilterSelections.Text | src/components/filters-menu/filters-menu-selections/filters-menu-selections.jsx:47-73 | a truthy plain value displays as its string; a falsy one as the empty string |
| FilterSelections.Pick | src/components/filters-menu/filters-menu-selections/filters-menu-selections.jsx:47-100 | an option with a sub-cluster description shows that description; otherwise the option shows its named field, falling back to `value`, always as a string |
| FilterSelections.NumericOptionValue | src/components/filters-menu/filters-menu-selections/filters-menu-selections.jsx:76-100 | an option whose id is a non-zero number n has the value "n", and choosing it stores the number n for the numeric fields |
| FilterSelections.SelectItems | src/components/filters-menu/filters-menu-selections/filters-menu-selections.jsx:103-108 | the drop-down lists one display value per cached option, in order |
| FilterSelections.ActiveBy | src/components/filters-menu/filters-menu-selections/filters-menu-selections.jsx:111-122 | nothing is highlighted without a selection or when no option matches it; otherwise exactly the display value of the first option whose value matches the selection is highlighted |
| FilterSelections.AsWrittenNeverHighlightsNumbers | src/components/filters-menu/filters-menu-selections/filters-menu-selections.jsx:111-122 | with strict equality, a numeric selection never highlights any option |
| FilterSelections.SelectClick | src/components/filters-menu/filters-menu-selections/filters-menu-selections.jsx:132-147 | a click on a list not yet loaded starts its load; a click on a loaded list selects the value of the first option whose text is `===` the clicked text, or does nothing when no option's text is |
| FilterSelections.SelectOpen | src/components/filters-menu/filters-menu-selections/filters-menu-selections.jsx:125-129 | opening a loaded list does nothing; opening a list not yet loaded starts its load, exactly as focusing it does |
| FilterSelections.OwnListKept | src/contexts/filters-context.jsx:255-283 | choosing an option keeps that filter's own loaded list, Agency included |
| FilterSelections.ClickChoosesOption | src/components/filters-menu/filters-menu-selections/filters-menu-selections.jsx:132-147 | clicking the text of the first option that shows it selects that option's value; only a text that is not `===` to itself (a sub-cluster description that is NaN) leaves the selection unchanged |
| FilterSelections.ChosenNumericOption | src/components/filters-menu/filters-menu-selections/filters-menu-selections.jsx:111-147 | clicking a numeric option stores its number; with loose equality some option is then highlighted, and exactly that option when no earlier option has a value equal to the number; with strict equality none is |
| FilterSelections.RefreshMessages | src/components/filters-menu/filters-menu-selections/filters-menu-selections.jsx:23-31 | a message shows exactly when its list is flagged empty and the user has not dismissed it |
| FilterSelections.DismissMessage | src/components/filters-menu/filters-menu-selections/filters-menu-selections.jsx:35-44 | dismissing hides that message and remembers the dismissal; other messages stay as they are |
| FilterSelections.DismissedStaysHidden | src/components/filters-menu/filters-menu-selections/filters-menu-selections.jsx:23-44 | a dismissed message stays hidden through any later refreshes |
| FilterSelections.View | src/components/filters-menu/filters-menu-selections/filters-menu-selections.jsx:162-194 | a loading list shows the loading indicator; the no-groups message shows only for line groups, and then exactly when it is flagged and not dismissed |
| FilterSelections.NoGroupsShown | src/components/filters-menu/filters-menu-selections/filters-menu-selections.jsx:23-31 | a line-group load that ends in the no-groups case shows the message when the user has not dismissed it |
| SelectBox.ToggleOpen | src/components/select/select.jsx:32-37 | the button flips the list open or closed, and `onOpen` is called only when opening |
| SelectBox.OpenThenClose | src/components/select/select.jsx:32-37 | opening then closing restores the drop-down and calls `onOpen` once at most |
| SelectBox.MouseDown | src/components/select/select.jsx:60-74 | a press outside an open list closes it; nothing else changes |
| SelectBox.CheckboxClick | src/components/select/select.jsx:40-57 | a radio list highlights only the clicked item; other lists toggle the clicked item alone; the item is passed on when there is a handler |
| SelectBox.ClickTwice | src/components/select/select.jsx:40-57 | two clicks on a checkbox item restore the highlighted set; a second click on a radio item changes nothing |
| SelectBox.Receive | src/components/select/select.jsx:26-30 | the highlighted set follows the parent's active filters when they are given; the list follows the parent's items |
| SelectBox.Search | src/components/select/select.jsx:137-139 | the list is the items containing the query, ignoring letter case, in their order and with their repetitions, as a front-to-back filter gives them; the search fails when some item is not a string |
| SelectBox.EmptyQueryKeepsAll | src/components/select/select.jsx:137-139 | an empty query matches every item |
| SelectBox.LongerQueryNarrows | src/components/select/select.jsx:137-139 | an item that a longer query matches also matches every prefix of that query |
| DateInput.FormatDatePieces | src/components/date-input/date-input.jsx:42-47 | a formatted date of a year 0 or later splits at "-" into three digit strings: the year, the month from 1 to 12 in two digits, and the day in two digits |
| DateInput.FormatDateSameDay | src/components/date-input/date-input.jsx:30-47 | two dates give the same text exactly when they fall on the same day, for every year, negative years included |
| DateInput.ChartLabelOfDate | src/components/date-input/date-input.jsx:42-47 | a picked date of year 0 or later appears in the charts as its two-digit day and month |
| DateInput.SetField | src/contexts/filters-context.jsx:215-249 | setting a field outside the cascade changes that one selection only |
| DateInput.DateChange | src/components/date-input/date-input.jsx:37-89 | a start alone selects that one day with hourly grouping; a start and an end select the range, hourly when it is one day and daily otherwise; without a start nothing changes |
| DateInput.HourlyIffOneDay | src/components/date-input/date-input.jsx:50-85 | for every year, the grouping is hourly exactly when the start date and end date sent are equal |
| DateInput.PickedRangeLoadsCharts | src/components/date-input/date-input.jsx:50-85 | once a start is picked, the charts have both dates and are requested |
| JsValues.NumberOfString | src/contexts/filters-context.jsx:236-237 | `Number` of an integer's decimal text is that integer |
| JsValues.ParseIntOfNatToString | src/components/charts/charts.jsx:496-500 | `parseInt` of a natural number's decimal text is that number |

## Left out

- Network, authentication and storage access. Requests are returned as values and their outcomes are parameters. The logging POST in charts.jsx (lines 184-207) has no effect on the page's state and is not modelled.
- The mounted flag in charts.jsx: a load is modelled as always completing while the page is shown.
- React batching and the stale `isLoading` closure in `loadFilterOptions`: each handler is modelled as one step that sees the latest state.
- The hourly view is a parameter of `ChartData.TransformDataToCharts`. The context never sets it to true, because `setHourlyViewForToday` and `setDailyView` (filters-context.jsx:73-106) are not exposed. The page sends the `GroupBy` value the date picker sets as the request's `groupBy` field (charts.jsx:104, `ChartsPage.ChartRequest`), but never derives the hourly view from it.
- Chart drawing options, colours, layout and the card component.
- Logging calls and the unused `getMonthNumber` helper.
- The line-performance answer is requested but never drawn, so it is left out.
- JsValues.StringToNumber: models integers only. Fractions, exponents and Infinity are read as NaN, because no filter id or count in this dashboard is fractional. The one value that may be fractional, `PerformancePercentage` (charts.jsx:321), only passes through `|| 0`, where nothing but its truthiness matters.
- ChartData.GroupChangesGrouped: groups come out in first-seen order. JavaScript's `Object.entries` puts integer-like keys first, which is not modelled, because the periods are date labels. Prototype keys such as `__proto__` are not modelled either.
- ChartData.DelaySummaryChart: a missing count makes its total NaN, because the code adds `undefined` with `+=`. The other charts turn a falsy count into 0 with `|| 0`, but this sum does not, and the model follows the code.
- Filters.ChangeFilter: the code evicts a cached list by setting it to `undefined`. The model removes the key instead, which every reader treats the same way.
- An answer's `ResData` is either a list of rows or absent. Other shapes are not modelled.
- DateInput.ChartLabelOfDate: stated only for years 0 and later. For a negative year the sign adds a '-' to the split: "-1-02-03" splits into "", "1", "02" and "03", and the label becomes "02.1".
- ChartData.SortHourly: a row whose hour does not parse makes the comparator `a - b` return NaN, which the engine reads as 0. The comparator is then inconsistent, and JavaScript leaves the resulting order to the implementation. The model's insertion sort fixes one such order, and other engines may give another. This only concerns the hourly view.
- DateInput.DateChange: the picker's own `dateRange` state and the parsing of stored dates with `new Date(..)` are not modelled, because they depend on time zones. Dates arrive already split into local fields.
- SelectBox.Search: stated only for queries without regular-expression special characters, because `new RegExp(query, "i")` gives those characters a meaning of their own. Case folding covers the Latin letters only.
- ChartOrderModal.IndexOf: compares charts by structure, while JavaScript's `indexOf` compares objects by identity. The two differ only when two charts are structurally identical. That cannot happen here: the page builds at most one chart per title, as `ChartData.TransformDataToCharts` states through its fixed order.
- ChartOrderModal.DragEnd: a drop whose chart is not in the list is a no-op. The code would call `arrayMove` with index -1 there, but the dialog never produces such a drop.
- The error shown on the page is never cleared by a later successful load. This follows the code, and `ChartsPage.FinishChartLoad` states it.
- The chart-ordering context (`src/contexts/chart-ordering-context.jsx`) only holds the dialog's open flag. It is not part of this model beyond `ChartOrderModal.Close` and `ChartOrderModal.Save`.

## Findings

| source | as written | input that shows it | evidently intended | confidence | as-written member | corrected member |
|---|---|---|---|---|---|---|
| src/components/filters-menu/filters-menu-selections/filters-menu-selections.jsx:116 | the highlighted option is found with `getOptionValue(option) === selectedFilters[id]`. The option value is a string, but `handleFilterChange` stores a number for Agency, Cluster and linegroup | choose an operator whose id is 5: the stored value is the number 5 and the option value is "5", so nothing is highlighted | compare loosely (`==`), or compare with `String(selectedFilters[id])`, so that the chosen option is highlighted | not executed | FilterSelections.AsWrittenNeverHighlightsNumbers | FilterSelections.ChosenNumericOption |
