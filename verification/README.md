# Logistics dashboard: the filter engine, the aggregations and the two tables

This project models the data logic of a logistics dashboard for orders
(`pedidos`) and their line items (`itens`):

- the shared filter state (`Filters`) and its three transitions: `updateFilter`,
  `toggleArrayFilter` and `clearFilters`;
- the multi-facet predicate that selects the orders every card, chart and
  table shows, plus the join that selects their line items;
- the aggregations behind the cards and charts: `getMetrics` and the region,
  modality, service-type and state distributions;
- the two tables, each with search, column sort, pagination, previous/next
  buttons and a row click that feeds back into the filters.

The model is split into modules:

- `Seqs`, `Text`, `Sorting` and `TableControls` model the JavaScript
  operations the code relies on:
  - `Array.prototype.filter` and the engine's stable `sort`;
  - `toLowerCase`, `includes` and `localeCompare`;
  - `slice` with negative bounds and `Math.ceil`.
- `MockData` holds the record types, the enumerations and the aggregations.
- `FilterContext` holds the filter state and the `FilterProvider` class whose
  one field the three transitions replace.
- `Dashboard` models the page's predicate, join and status count.
- `ItemsTable` and `PedidosTable` model the table components. Each is a class
  with the component's state cells as fields and a method per handler.

The record store (`pedidos`, `itensPedidos`) is an input sequence.

Where the code is imperative, the model is too:

- The distributions keep their counting loops over a JavaScript object.
  `MockData.Record` models that object: its keys in insertion order, plus a
  value map.
- The sorted distributions and both tables copy their rows into an array and
  sort it in place.
- The component state lives in classes.

Every method is proved against a specification function, and the
properties are proved about those functions.

Two behaviours of the code differ from what its names suggest:

- Toggling the same value twice is not the identity when the value was
  already selected. The value ends up moved to the end of its list, as
  `FilterContext.ToggleTwicePresent` states. Only membership is restored.
  The model follows the code here.
- The month facet in the code reads the month in local time, which files
  the first of a month under the previous month west of UTC. The page's
  filter in this model, `Dashboard.Passes`, uses the month written in the
  date (`Dashboard.MonthName`, `Dashboard.MonthIndex`). The code's
  local-time reading is modelled separately by `Dashboard.LocalMonthIndex`.
  See "## Findings".

## Model

| member | source | states |
|---|---|---|
| `FilterContext.DefaultFilters` | src/contexts/FilterContext.tsx:22-31 | the initial state: year 2024, no facet list restricted, no selected order, delivery status 'all' |
| `FilterContext.WithList` | src/contexts/FilterContext.tsx:52 | replacing one list field sets that list and leaves every other field as it was |
| `FilterContext.WithUpdate` | src/contexts/FilterContext.tsx:38-40 | `updateFilter(key, value)`: the named field holds the value afterwards, every other field keeps its previous value |
| `FilterContext.UpdateOverwrites` | src/contexts/FilterContext.tsx:38-40 | two updates of the same field leave only the second one's value |
| `FilterContext.UpdatesCommute` | src/contexts/FilterContext.tsx:38-40 | updates of two different fields can be applied in either order |
| `FilterContext.Toggle` | src/contexts/FilterContext.tsx:49-51 | after a toggle the value is in the list iff it was not before, every other value keeps its membership, an absent value is appended at the end, and a present one is removed to leave a strictly shorter subsequence |
| `FilterContext.RemoveAll` | src/contexts/FilterContext.tsx:50 | `filter(v => v !== value)` keeps exactly the other values, each as often as before, in their order; `RemoveAllMultiset` adds that the value itself is gone |
| `FilterContext.RemoveAllMultiset` | src/contexts/FilterContext.tsx:50 | the removal filter deletes every occurrence of the value and keeps every other value as often as before |
| `FilterContext.RemoveAllFacts` | src/contexts/FilterContext.tsx:50 | removing a present value leaves it absent, keeps all other members, shortens the list and keeps the order |
| `FilterContext.ToggleRemovesAll` | src/contexts/FilterContext.tsx:49-51 | toggling a present value is exactly the deletion of all its occurrences, the rest in order |
| `FilterContext.ToggleTwiceAbsent` | src/contexts/FilterContext.tsx:49-51 | toggling an absent value twice restores the list exactly |
| `FilterContext.ToggleTwicePresent` | src/contexts/FilterContext.tsx:49-51 | toggling a present value twice leaves it once, at the end, after the other values |
| `FilterContext.ToggleKeepsDistinct` | src/contexts/FilterContext.tsx:49-51 | a list without repeated values has none after a toggle |
| `FilterContext.WithToggle` | src/contexts/FilterContext.tsx:46-54 | `toggleArrayFilter(key, v)` flips v's membership in list `key` and changes no other field and no other value's membership |
| `FilterContext.ToggleIsUpdate` | src/contexts/FilterContext.tsx:46-54 | a toggle is the `updateFilter` of the toggled list |
| `FilterContext.FilterProvider.constructor` | src/contexts/FilterContext.tsx:36 | the provider starts from the default filters |
| `FilterContext.FilterProvider.UpdateFilter` | src/contexts/FilterContext.tsx:38-40 | the new state is the old state with the update applied |
| `FilterContext.FilterProvider.ClearFilters` | src/contexts/FilterContext.tsx:42-44 | whatever the state before, the state after is the default one (so clearing twice is clearing once) |
| `FilterContext.FilterProvider.ToggleArrayFilter` | src/contexts/FilterContext.tsx:46-54 | the new state is the old one with the value toggled in the named list |
| `Dashboard.MonthIndex` | src/pages/Index.tsx:31 | a delivery date has a month exactly when it is a `YYYY-MM-DD` date, and the month index is below 12 |
| `Dashboard.MonthOfDate` | src/pages/Index.tsx:31 | reading the month back from any `2024-MM-DD` date, days 01 to 31, gives the month written in it |
| `Dashboard.MonthOfGeneratedDate` | src/data/mockData.ts:71 | reading the month back from a generated date (days 01 to 28) gives the month it was generated with |
| `Dashboard.Pad2` | src/data/mockData.ts:71 | zero-padding a number below 100 gives two digits whose decimal value is the number |
| `Dashboard.LocalMonthIndex` | src/pages/Index.tsx:31 | the local-time month of a date-only string is defined exactly for dates and is below 12 |
| `Dashboard.LocalMonthAgrees` | src/pages/Index.tsx:31 | east of UTC, or away from the first of a month, the local-time month equals the calendar month |
| `Dashboard.LocalMonthShiftsFirstOfMonth` | src/pages/Index.tsx:31 | at UTC-3 the date 2024-03-01 is read as month 1 although its calendar month is 2 |
| `Dashboard.MonthName` | src/pages/Index.tsx:31-33 | the month name is defined exactly for dates, and it is the entry of `meses` for the month written in the date |
| `Dashboard.MonthNameOfGenerated` | src/pages/Index.tsx:31-33 | a generated order is filed under the name of the month its date was generated with |
| `Dashboard.MonthNameSelects` | src/pages/Index.tsx:30-32 | a date carries the k-th month name iff its month index is k, so selecting a name selects exactly that month |
| `Dashboard.Passes` | src/pages/Index.tsx:28-63 | an order passes iff every non-empty facet list contains its month name, region, state, modality and service type, and the delivery-status selector accepts its on-time flag |
| `Dashboard.FilteredPedidos` | src/pages/Index.tsx:27-65 | the filtered orders are never more than the orders |
| `Dashboard.FilteredPedidosSpec` | src/pages/Index.tsx:27-65 | an order is shown iff it is in the store and passes, every passing order as often as in the store and every other one never, and the shown orders keep the store's order |
| `Dashboard.NoRestrictionPassesAll` | src/pages/Index.tsx:28-64 | with all five facet lists empty and status 'all', every order is shown |
| `Dashboard.ClearedFiltersShowAll` | src/pages/Index.tsx:28-64 | after clearing the filters every order is shown |
| `Dashboard.YearAndSelectionIgnored` | src/pages/Index.tsx:27-65 | the year and the selected order never change which orders pass |
| `Dashboard.ToggleWidens` | src/pages/Index.tsx:30-54 | adding a value to a facet list that already restricts keeps every order shown before |
| `Dashboard.OnTimeSelectionMatchesMetric` | src/pages/Index.tsx:57-61 | the 'noPrazo' selector shows exactly the on-time orders among those shown with 'all', and so as many as the on-time card counts |
| `Dashboard.FilteredItems` | src/pages/Index.tsx:67-70 | the filtered items are never more than the items |
| `Dashboard.FilteredItemsSpec` | src/pages/Index.tsx:67-70 | an item is shown iff some shown order has its order number, as often as it occurs in the items, and the items keep their order |
| `Dashboard.FilteredItemsMonotone` | src/pages/Index.tsx:67-70 | fewer orders never show more items |
| `Dashboard.StatusCount` | src/pages/Index.tsx:78-80 | the completed count never exceeds the shown orders and equals them iff every shown order is completed |
| `Dashboard.StatusCountFacts` | src/pages/Index.tsx:79 | the count of completed orders equals the total exactly when all are completed |
| `MockData.RegioesDistinct` | src/data/mockData.ts:26 | the five regions are distinct |
| `MockData.MesesDistinct` | src/data/mockData.ts:36-39 | there are twelve month names and no two are equal |
| `MockData.EstadosKeys` | src/data/mockData.ts:28-34 | the state table is keyed by exactly the five regions |
| `MockData.EstadosDistinct` | src/data/mockData.ts:28-34 | no state code repeats within a region, and there are 27 codes |
| `MockData.EstadosDisjoint` | src/data/mockData.ts:28-34 | no state code is listed under two regions |
| `MockData.CountOfSnoc` | src/data/mockData.ts:131-133 | one more record adds one to the count of its own value and nothing to the others |
| `MockData.CountSplit` | src/data/mockData.ts:131-133 | counting a set of values is counting one of them plus the rest |
| `MockData.SumCountsIsCountIn` | src/data/mockData.ts:131-133 | over distinct names, the per-name counts add up to the count of records carrying any of them |
| `MockData.SumCountsCoversAll` | src/data/mockData.ts:147-149 | when every record's value is one of the names, the per-name counts add up to the number of records |
| `MockData.SumOfCounts` | src/data/mockData.ts:136 | a list holding the count of each name sums to the total of those counts |
| `MockData.GetMetrics` | src/data/mockData.ts:111-125 | total is the number of orders, on-time is the number of on-time orders, on-time plus late is the total; both percentages are 0 without orders, otherwise on-time percentage times total is 100 times on-time and the two percentages add to 100 |
| `MockData.PercentagesComplement` | src/data/mockData.ts:115-116 | the two shares of a total add up to 100 and each lies between 0 and 100 |
| `MockData.Record.Set` | src/data/mockData.ts:173 | assigning a key keeps the object well formed, appends a new key to the key order, keeps an existing key's place and updates its value |
| `MockData.Zeros` | src/data/mockData.ts:129 | the first loop gives every name the value 0, keys in enumeration order |
| `MockData.Increment` | src/data/mockData.ts:132 | one increment turns the counts of a prefix into the counts of the prefix extended by one record |
| `MockData.Tabulate` | src/data/mockData.ts:128-133 | after the two loops the keys are the enumeration in order and each value is that name's count |
| `MockData.RegionPercentage` | src/data/mockData.ts:139 | the label is the plain "0" exactly when there are no orders, otherwise its exact value times the total is 100 times the count |
| `MockData.GetRegionDistribution` | src/data/mockData.ts:127-141 | five slices in region order, each with its region's count and percentage, the counts adding up to the number of orders |
| `MockData.Tally` | src/data/mockData.ts:151-152 | one entry per enumeration value |
| `MockData.TallySum` | src/data/mockData.ts:147-149 | the tally's counts add up to the number of orders |
| `MockData.SortedByCount` | src/data/mockData.ts:153 | sorting entries descending by count yields a permutation with non-increasing counts, ties in input order, same total |
| `MockData.SortedDistribution` | src/data/mockData.ts:144-153 | one entry per name, a permutation of the tally, counts non-increasing, equal counts in enumeration order, counts adding up to the number of orders |
| `MockData.GetModalityDistribution` | src/data/mockData.ts:143-154 | three entries, one per modality, largest count first, ties in enumeration order, adding up to the number of orders |
| `MockData.GetServiceTypeDistribution` | src/data/mockData.ts:156-167 | four entries, one per service type, largest count first, ties in enumeration order, adding up to the number of orders |
| `MockData.CountPositive` | src/data/mockData.ts:169-177 | a value is counted at least once iff some record carries it |
| `MockData.StateStep` | src/data/mockData.ts:173 | adding one to the state's count, 0 when absent, turns the state tally of a prefix into the tally of the prefix extended by one record |
| `MockData.GetStateDistribution` | src/data/mockData.ts:169-177 | for orders whose states are codes of the state table: a key exists iff some order has that state, every key is a state code, each value is that state's count and at least 1, and the values add up to the number of orders |
| `Seqs.Filter` | src/pages/Index.tsx:28 | a filter never lengthens its input |
| `Seqs.FilterMultiset` | src/pages/Index.tsx:28 | `filter` keeps every copy of each element that passes and no copy of one that fails |
| `Seqs.FilterMembership` | src/pages/Index.tsx:28 | an element survives `filter` iff it was in the input and satisfies the predicate |
| `Seqs.FilterIsSubsequence` | src/pages/Index.tsx:28 | `filter` keeps the input's order |
| `Seqs.FilterCompose` | src/pages/Index.tsx:57-61 | filtering twice is filtering once by the conjunction |
| `Text.LowerChar` | src/components/dashboard/ItemsTable.tsx:26 | each capital A-Z and each Latin-1 capital À-Þ (bar ×) becomes its own small letter, 32 code points on; every other character is unchanged |
| `Text.Lower` | src/components/dashboard/ItemsTable.tsx:26 | lower-casing keeps the length and maps each character |
| `Text.LowerIdempotent` | src/components/dashboard/ItemsTable.tsx:26 | lower-casing twice is lower-casing once |
| `Text.Contains` | src/components/dashboard/ItemsTable.tsx:28-30 | `includes` holds iff the needle occurs at some position |
| `Text.ContainsEmpty` | src/components/dashboard/ItemsTable.tsx:25-32 | the empty needle occurs in every string |
| `Text.StrCompare` | src/components/dashboard/ItemsTable.tsx:42 | the text comparison returns -1, 0 or 1 |
| `Text.StrCompareAntisymmetric` | src/components/dashboard/ItemsTable.tsx:42 | swapping the arguments negates the comparison |
| `Text.StrCompareZero` | src/components/dashboard/ItemsTable.tsx:42 | two strings compare equal iff they are equal |
| `Text.StrCompareTransitive` | src/components/dashboard/ItemsTable.tsx:42 | the comparison is transitive |
| `Sorting.Sign` | src/components/dashboard/ItemsTable.tsx:39 | the sign of a difference is 0, negative or positive with the difference |
| `Sorting.Compare` | src/components/dashboard/ItemsTable.tsx:38-42 | the comparator returns -1, 0 or 1 |
| `Sorting.CompareAntisymmetric` | src/components/dashboard/ItemsTable.tsx:38-42 | swapping the operands negates the comparator |
| `Sorting.CompareZero` | src/components/dashboard/ItemsTable.tsx:38-42 | the comparator is 0 iff the sort values are equal |
| `Sorting.CompareTransitive` | src/components/dashboard/ItemsTable.tsx:38-42 | the comparator is transitive |
| `Sorting.CmpAntisymmetric` | src/components/dashboard/ItemsTable.tsx:39-43 | the directed comparator is antisymmetric in both directions |
| `Sorting.CmpTransitive` | src/components/dashboard/ItemsTable.tsx:39-43 | the directed comparator is transitive in both directions |
| `Sorting.SortSeq` | src/components/dashboard/ItemsTable.tsx:34-44 | sorting keeps every row, each as often as before; `SortSorted`, `SortStable` and `SortSpec` state the order |
| `Sorting.SortSorted` | src/components/dashboard/ItemsTable.tsx:34-44 | no row is followed by one the comparator puts strictly before it |
| `Sorting.SortStable` | src/components/dashboard/ItemsTable.tsx:34-44 | rows with equal sort values keep their relative order |
| `Sorting.SortSpec` | src/components/dashboard/ItemsTable.tsx:34-44 | the sort result is ordered, a permutation and stable |
| `Sorting.SortInPlace` | src/components/dashboard/ItemsTable.tsx:34 | sorting the array in place leaves the stable sort of its old contents |
| `Sorting.InsertAt` | src/components/dashboard/ItemsTable.tsx:34 | one pass moves an element into the sorted prefix and leaves the suffix alone |
| `Sorting.ShiftLeft` | src/components/dashboard/ItemsTable.tsx:34 | the swaps of one pass stop right after the last predecessor that does not compare greater |
| `Sorting.SortedCopy` | src/components/dashboard/ItemsTable.tsx:23 | sorting a copy gives the stable sort of the input |
| `TableControls.TotalPages` | src/components/dashboard/ItemsTable.tsx:49 | the page count is the least number of full pages that hold all rows, 0 iff there are no rows |
| `TableControls.Clamp` | src/components/dashboard/ItemsTable.tsx:50-53 | a `slice` bound always lands inside the sequence |
| `TableControls.ClampGap` | src/components/dashboard/ItemsTable.tsx:50-53 | clamping two bounds never widens the range between them |
| `TableControls.JsSlice` | src/components/dashboard/ItemsTable.tsx:50-53 | `slice` gives a run of consecutive elements starting at the clamped start, as long as the clamped end is past the clamped start (empty when the clamped bounds cross), and exactly `s[start..end]` for in-range bounds |
| `TableControls.Page` | src/components/dashboard/ItemsTable.tsx:50-53 | any page, whatever its number, has at most as many rows as a page holds, consecutive rows that from page 1 on start at row (page - 1) times the page size |
| `TableControls.PageInRange` | src/components/dashboard/ItemsTable.tsx:50-53 | a page from 1 to the page count is the non-empty block of rows it covers |
| `TableControls.PageBeyondLast` | src/components/dashboard/ItemsTable.tsx:50-53 | a page after the last one is empty |
| `TableControls.PagesPrefix` | src/components/dashboard/ItemsTable.tsx:49-53 | the first k pages together are the first k page-sizes of rows |
| `TableControls.PagesPartition` | src/components/dashboard/ItemsTable.tsx:49-53 | pages 1 to the page count together are all rows, once each, in order |
| `TableControls.PrevPage` | src/components/dashboard/ItemsTable.tsx:184-185 | "previous" stays on page 1, goes back one page from any later page, goes to 1 from below it, and never gives a page below 1 |
| `TableControls.SortToggle` | src/components/dashboard/ItemsTable.tsx:55-62 | a header click sorts by the clicked column: the same column flips the direction, another one starts ascending |
| `TableControls.SortToggleTwice` | src/components/dashboard/ItemsTable.tsx:55-62 | clicking the current sort column twice restores the sort; another column ends descending |
| `ItemsTable.SearchItems` | src/components/dashboard/ItemsTable.tsx:25-32 | a row is kept iff the lower-cased search occurs in its lower-cased order number, item code or description (every row, for an empty search), each kept row as often as in the input |
| `ItemsTable.SearchItemsSpec` | src/components/dashboard/ItemsTable.tsx:25-32 | the search keeps the rows in their input order |
| `ItemsTable.View` | src/components/dashboard/ItemsTable.tsx:22-47 | the listed rows are the matching rows, each as often as in the input; `ViewSpec` states their order |
| `ItemsTable.ViewSpec` | src/components/dashboard/ItemsTable.tsx:34-44 | the listed rows are a permutation of the searched rows, ordered by the sort column in the chosen direction, equal values in input order |
| `ItemsTable.NumericColumnsByValue` | src/components/dashboard/ItemsTable.tsx:38-40 | quantity and volume order rows by numeric value |
| `ItemsTable.DirectionReverses` | src/components/dashboard/ItemsTable.tsx:39-43 | descending negates the ascending comparison |
| `ItemsTable.Find` | src/components/dashboard/ItemsTable.tsx:73 | the lookup finds nothing iff no order has the number, and otherwise the first order that has it |
| `ItemsTable.RowClickFilters` | src/components/dashboard/ItemsTable.tsx:77-108 | a row click changes only the state, modality, service-type and region lists; month list, year, selected order and delivery status stay as they were |
| `ItemsTable.ToggleIf` | src/components/dashboard/ItemsTable.tsx:81-107 | a conditional toggle changes at most the one list |
| `ItemsTable.RowClickFrame` | src/components/dashboard/ItemsTable.tsx:77-108 | each of the four lists after a click is its own toggle or unchanged, tested on the filters before the click; the other fields do not change |
| `ItemsTable.RowSelectAdds` | src/components/dashboard/ItemsTable.tsx:93-108 | selecting a row puts its order's state, modality, service type and region in their lists, removes nothing, and changes no other field |
| `ItemsTable.RowDeselectRemoves` | src/components/dashboard/ItemsTable.tsx:78-92 | re-clicking the selected row takes the four values out of their lists, keeps every other value of each of the four lists, and changes no other field |
| `ItemsTable.RowClickTwiceRestores` | src/components/dashboard/ItemsTable.tsx:77-108 | selecting and then deselecting a row restores the filters when none of the four values was selected before |
| `ItemsTable.NextPage` | src/components/dashboard/ItemsTable.tsx:194-195 | "next" stays put on the last page and without pages, otherwise moves one page on or back to the last page, and never leaves page 1 or later |
| `ItemsTable.ItemsTableView.constructor` | src/components/dashboard/ItemsTable.tsx:15-20 | initial state: empty search, sorted by order number descending, page 1, nothing selected |
| `ItemsTable.ItemsTableView.FilteredAndSorted` | src/components/dashboard/ItemsTable.tsx:22-47 | the computed rows are the search result sorted by the current column and direction |
| `ItemsTable.ItemsTableView.PaginatedData` | src/components/dashboard/ItemsTable.tsx:50-53 | the rows shown are the current page of that list, at most 8 |
| `ItemsTable.ItemsTableView.HandleSort` | src/components/dashboard/ItemsTable.tsx:55-62 | the sort column and direction after a header click follow the toggle |
| `ItemsTable.ItemsTableView.SetSearch` | src/components/dashboard/ItemsTable.tsx:120-123 | typing sets the search text and returns to page 1 |
| `ItemsTable.ItemsTableView.ClickPrevious` | src/components/dashboard/ItemsTable.tsx:184-185 | the page after "previous" follows `PrevPage` and stays 1 or later |
| `ItemsTable.ItemsTableView.ClickNext` | src/components/dashboard/ItemsTable.tsx:194-195 | the page after "next" follows `NextPage` for the current page count and stays 1 or later |
| `ItemsTable.ItemsTableView.ReceiveItems` | src/components/dashboard/ItemsTable.tsx:13 | new rows from the page replace the old ones, the rest of the state kept |
| `ItemsTable.ItemsTableView.HandleRowClick` | src/components/dashboard/ItemsTable.tsx:71-109 | without a matching order nothing changes; otherwise the selection toggles and the filters change as `RowClickFilters` says |
| `PedidosTable.SearchPedidos` | src/components/dashboard/PedidosTable.tsx:32-41 | an order is kept iff the lower-cased search occurs in its lower-cased movement number, order number, service type, modality or origin city (every order, for an empty search), each kept order as often as in the input |
| `PedidosTable.SearchPedidosSpec` | src/components/dashboard/PedidosTable.tsx:32-41 | the search keeps the orders in their input order |
| `PedidosTable.View` | src/components/dashboard/PedidosTable.tsx:29-51 | the listed orders are the matching orders, each as often as in the input; `ViewSpec` states their order |
| `PedidosTable.ViewSpec` | src/components/dashboard/PedidosTable.tsx:43-48 | the listed rows are a permutation of the searched rows in text order of the sort column, reversed for descending, equal texts in input order |
| `PedidosTable.NextPage` | src/components/dashboard/PedidosTable.tsx:166-167 | "next" stays put only on the last page, otherwise moves one page on or to the page count, and never goes below 0 |
| `PedidosTable.NextWithoutRowsReachesPageZero` | src/components/dashboard/PedidosTable.tsx:166-167 | with no rows, "next" on page 1 goes to page 0, and page 0 shows no row |
| `PedidosTable.RowClickKeepsView` | src/components/dashboard/PedidosTable.tsx:75-77 | a row click sets only the selected order and changes none of the orders shown |
| `PedidosTable.PedidosTableView.constructor` | src/components/dashboard/PedidosTable.tsx:22-27 | initial state: empty search, sorted by movement number descending, page 1 |
| `PedidosTable.PedidosTableView.FilteredAndSorted` | src/components/dashboard/PedidosTable.tsx:29-51 | the computed rows are the search result sorted by the current column and direction |
| `PedidosTable.PedidosTableView.PaginatedData` | src/components/dashboard/PedidosTable.tsx:54-57 | the rows shown are the current page of that list, at most 10 |
| `PedidosTable.PedidosTableView.HandleSort` | src/components/dashboard/PedidosTable.tsx:59-66 | the sort column and direction after a header click follow the toggle |
| `PedidosTable.PedidosTableView.SetSearch` | src/components/dashboard/PedidosTable.tsx:88-92 | typing sets the search text and returns to page 1 |
| `PedidosTable.PedidosTableView.ClickPrevious` | src/components/dashboard/PedidosTable.tsx:156-157 | the page after "previous" follows `PrevPage` and is never negative |
| `PedidosTable.PedidosTableView.ClickNext` | src/components/dashboard/PedidosTable.tsx:166-167 | the page after "next" follows `NextPage` for the current page count and is never negative |
| `PedidosTable.PedidosTableView.ReceivePedidos` | src/components/dashboard/PedidosTable.tsx:20 | new rows from the page replace the old ones, the rest of the state kept |
| `PedidosTable.PedidosTableView.HandleRowClick` | src/components/dashboard/PedidosTable.tsx:75-77 | the filters afterwards are the old ones with the selected order set to the row's identifier |

## Left out

- Generating the sample data (`generatePedidos`, `generateItensPedidos`) uses `Math.random`. The order and item sequences are inputs here instead.
- Rendering is not modelled:
  - JSX, colours, chart geometry, `MetricCard`, `StatusCard`, `PerformanceGauge`, `BrazilMap`, `RegionPieChart`, `HorizontalBarChart`;
  - the `{currentPage} / {totalPages}` label;
  - the full-screen dialog of the order table.
- `Header.tsx` (a clock and tabs) and `FilterBar.tsx` are not part of this model. The latter's `hasActiveFilters` is display wiring.
- React plumbing is left out: context creation, the `useFilters` guard, `useMemo` and render scheduling.
  - A state setter is an assignment to a class field.
  - A component's props are a field that `ReceiveItems` or `ReceivePedidos` replaces.
- Floating point is left out: percentages are exact reals.
  - `MockData.RegionPercentage` keeps the exact share where the source renders it with `toFixed(2)`. The rounding and the decimal text are not modelled.
  - Item volumes and quantities are compared as exact numbers.
- `localeCompare` is modelled as ordinal, character-by-character order. It is a total order, but not the locale's collation.
- `toLowerCase` covers ASCII and the Latin-1 capitals only.
- Calendar arithmetic is only partly modelled:
  - `Dashboard.IsIsoDate` accepts days 01-31 in every month. The engine's handling of impossible dates such as 2024-02-30 is not modelled.
  - The time-zone offset of `Dashboard.LocalMonthIndex` is a parameter, assumed smaller than a day.
- The engine's sort algorithm is replaced by a stable insertion sort. Any stable sort with the same consistent comparator yields the same sequence.
- The distributions assume every record's region, modality and service type is in its enumeration. This is the `requires` of `MockData.GetRegionDistribution`, `MockData.GetModalityDistribution` and `MockData.GetServiceTypeDistribution`. For any other value the source's `distribution[v]++` adds a NaN-valued key, which is not modelled.
- MockData.GetStateDistribution: requires every record's state to be one of the 27 codes of the state table, as the generator draws them. On a free-form state such as `constructor` the source's lookup on a plain `{}` reads an inherited property, and the count it stores is not a number. For `__proto__` the assignment of a non-object value is ignored, so no key is stored at all. Neither is modelled.
- `Object.entries` lists keys in insertion order in this model. JavaScript lists integer-like keys first, but none of the enumeration names and none of the 27 state codes is integer-like.
- Seqs.Filter: its own contract only bounds the length. Membership, multiplicity and order are stated by `Seqs.FilterMembership`, `Seqs.FilterMultiset` and `Seqs.FilterIsSubsequence`.
- Dashboard.FilteredPedidos: its own contract only bounds the length. Membership, multiplicity and order are stated by `Dashboard.FilteredPedidosSpec`.
- Dashboard.FilteredItems: its own contract only bounds the length. Membership, multiplicity and order are stated by `Dashboard.FilteredItemsSpec`.
- Dashboard.IsIsoDate: only `YYYY-MM-DD` strings count as dates. Other formats that `new Date` also parses (a full timestamp, `MM/DD/YYYY`) are treated as no date; the sample data only ever holds the date-only form.
- ItemsTable.DirectionReverses and FilterContext.ToggleIsUpdate only unfold a definition. They are kept as statements of how the direction flag and `toggleArrayFilter` relate to the ascending comparator and to `updateFilter`.

## Findings

| source | as written | input that shows it | evidently intended | confidence | as-written member | corrected member |
|---|---|---|---|---|---|---|
| src/pages/Index.tsx:31 | `new Date(dataEntrega).getMonth()` reads the local calendar, but a date-only string denotes UTC midnight | `dataEntrega = "2024-03-01"` on a clock at UTC-3 gives month index 1 ("fevereiro") | month index 2 ("março"), the month written in the date | high; not executed | `Dashboard.LocalMonthIndex`, shown by `Dashboard.LocalMonthShiftsFirstOfMonth` | `Dashboard.MonthIndex`, with `Dashboard.MonthOfGeneratedDate`; `Dashboard.Passes` uses it |
