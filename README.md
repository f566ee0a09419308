# Crypto dashboard: a Dafny model of its state engine

This project models the logic behind a cryptocurrency market dashboard, in
five modules:

- `CoinTypes` (`coin_types.dfy`): the coin record, its ids, `findIndex` by id,
  and subsequences.
- `CoinData` (`coin_data.dfy`): the data layer.
  - It turns the market-data provider's parsed listing into coin records
    (`mapCoinData` and the map-then-drop-nulls step).
  - It generates the seven-point price history.
  - It pins the VANRY record to the front of the list (`findIndex`, `splice`,
    `unshift`).
  - It decides the outcome of the whole fetch. Every failure becomes an empty
    list.
- `SnapshotMerge` (`snapshot_merge.dfy`): the refresh merge.
  - The fetched list is folded into the list on screen through a JavaScript
    `Map` keyed by id.
  - Entries are deleted as they are consumed. The leftovers are appended in key
    order.
  - The merge is modelled twice:
    - as the methods the page runs (`IndexById`, `ReplaceInPlace`,
      `AppendLeftover`, `MergeRefresh`);
    - as a specification function `Merge`, about which the properties are
      proved.
- `ViewFilter` (`view_filter.dfy`): what the table shows.
  - A case-insensitive search on name or symbol.
  - The AND of the named threshold filters.
  - The stable sort on the 24h change.
  - The `slice` into pages of ten, and the page count.
- `Pagination` (`pagination.dfy`): the page-number strip with its ellipses, and
  the Previous/Next buttons.
- `Dashboard` (`dashboard.dfy`): the page state as a class.
  - Its fields are `data`, `search`, `activeFilters` and `currentPage`.
  - Its methods are the handlers that change the state: toggling a filter,
    typing a search, choosing a page, Previous/Next, and one refresh tick.
  - Its functions read the filtered and paginated views.

## Behaviour of the code worth knowing

- **Fetched chart history.** The merge keeps the old chart history only when the
  fetched record has none (`undefined`/`null`, `Option.None` here). A fetched
  empty history is truthy in JavaScript and replaces the old one.
  `MergeKeepsChartHistory` states this.
- **Merge and duplicate ids.** The merge only keeps ids unique when the list on
  screen already has unique ids (`MergeKeepsIdsUnique`).
  - Duplicate fetched ids collapse into one: the last record wins, at the
    position of the first.
  - A duplicate id in the old list is left as it was after its first occurrence
    has consumed the fetched record.
- **Page strip examples.** The strip puts `3 + 2s` consecutive pages next to one
  ellipsis.
  - (20 pages, page 1) gives 1 2 3 4 5 … 20.
  - (20, 20) gives 1 … 16 17 18 19 20.
  - (7, 4) gives 1 … 3 4 5 6 7, because 7 > s + 5.
  - `RangeExamples` proves these.
  - With two siblings, the final `return []` is reachable (`WiderSiblingsCanYieldEmpty`).
- **Toggling a filter twice.** This restores the exact filter list only when the
  filter started out inactive. An active filter is removed everywhere and then
  re-appended at the end, so only the set of names comes back
  (`ToggleTwice`, `ToggleTwiceSameMembers`).
- **Malformed records.** A listing element that is `null`/`undefined` is not
  dropped. `coin.quote` is read before the `!coin` test, so the element throws
  and the whole fetch yields the empty list. The same happens to an empty VANRY
  array (`MapListing`, `VanryElement`, `FetchFailures`).
- **Stranded on an empty page.** A refresh can shrink the filtered list while a
  later page is shown (for instance page 2 under 'Top Gainer' when ten or fewer
  gainers remain). The table is then empty and, with one page or none, no strip
  is rendered, so no button leads back; only a filter click or a search resets
  the page (`StuckPastLastPage`).

## Model

| member | source | states |
|---|---|---|
| CoinTypes.FindIndex | src/lib/data.ts:102 | `findIndex` by id: -1 when no record has the id, otherwise a position holding the id with no earlier position holding it |
| CoinData.GenerateChartData | src/lib/data.ts:4-18 | the counting-down loop builds exactly the series `ChartSeries`: one point per day from six days ago to today, priced with that day's random draw |
| CoinData.ChartSeriesShape | src/lib/data.ts:5-17 | the history has 7 points on consecutive days, oldest first and today last; today's point is the base price unchanged; with draws in [0, 1) and a non-negative base, every price is within 25% of the base |
| CoinData.FluctuationBounded | src/lib/data.ts:11 | one simulated price lies between 0.75 and 1.25 times the base price |
| CoinData.MapCoinData | src/lib/data.ts:20-41 | a null element throws (the `!coin` guard is never reached); a record without a USD quote gives no coin; otherwise id, name, symbol, rank, date added and supply are copied, the logo is the fixed prefix + id + ".png", price, 24h change, market cap and volume come from the quote, and the history is the generated series for the quoted price |
| CoinData.MapListing | src/lib/data.ts:95 | mapping the listing aborts (no list) exactly when some element is null or undefined |
| CoinData.MappedCoinsKeeps | src/lib/data.ts:95 | dropping the nulls keeps the mapped coins as a subsequence of the mapped array, and a coin is kept exactly when it was a mapping result |
| CoinData.ListingIsMappedSubsequence | src/lib/data.ts:95 | the listing is the in-order subsequence of mapped elements with no null in it; a coin is in it exactly when some element maps to it; every element with a USD quote contributes its coin |
| CoinData.PinnedFirst | src/lib/data.ts:101-107 | VANRY put in front of the list with the first record of its id removed; what it promises is stated by `PinnedFirstSpec`, and `PinVanry` is proved equal to it |
| CoinData.PinVanry | src/lib/data.ts:101-107 | `findIndex`, `splice` of that one record and `unshift` produce exactly `PinnedFirst`: VANRY, then the list without its first record of VANRY's id |
| CoinData.PinnedFirstSpec | src/lib/data.ts:101-107 | VANRY is first; the rest is the old list in its order with at most the first same-id record removed; the length is unchanged when the id was listed (the removed record is exactly the one taken out) and one more otherwise, in which case the list is VANRY followed by the old list; unique ids stay unique |
| CoinData.DropOneFacts | src/lib/data.ts:104 | `splice(k, 1)` keeps the other records in their order, removes exactly the record at k, and on a list with unique ids leaves no record of its id |
| CoinData.FetchCryptoData | src/lib/data.ts:44-118 | the whole fetch, with every request, status, parse and mapping outcome as a parameter; its outcomes are stated by `FetchFailures`, `FetchOutcomes`, `FetchNonEmptyMeansSuccess` and `FetchResultProvenance` |
| CoinData.FetchFailures | src/lib/data.ts:44-118 | the empty list for a missing key, a request that does not complete, a listing status outside 2xx (429 included), a quotes status outside 2xx other than 429, an unparseable body, listing `data` missing or not an array, a null listing element, and a VANRY array that is empty or starts with null |
| CoinData.FetchOutcomes | src/lib/data.ts:68-114 | with a usable listing: a rate-limited quotes request, no VANRY record, or a VANRY record without a USD quote leaves the mapped listing as the result; a VANRY record that maps is pinned first |
| CoinData.FetchNonEmptyMeansSuccess | src/lib/data.ts:44-118 | conversely, a non-empty result means the key was present, both requests completed with usable bodies, the listing had no null element, the VANRY element (if read) did not throw, and the result is the listing or the listing with VANRY pinned first |
| CoinData.FetchResultProvenance | src/lib/data.ts:95-114 | every coin the fetch returns is the mapping of a listing element or of the VANRY element |
| SnapshotMerge.LatestFound | src/app/crypto-client-page.tsx:81 | the `Map` built from the fetched list holds a record exactly for the fetched ids |
| SnapshotMerge.FirstSeenIds | src/app/crypto-client-page.tsx:81 | the `Map`'s key order lists every fetched id and only those, each once |
| SnapshotMerge.FirstSeenIdsInFetchOrder | src/app/crypto-client-page.tsx:81 | keys are in order of each id's first appearance in the fetch |
| SnapshotMerge.IndexById | src/app/crypto-client-page.tsx:81 | building the map: its keys are the fetched ids, each holding the last fetched record with that id, and its key order is first appearance |
| SnapshotMerge.ReplaceInPlace | src/app/crypto-client-page.tsx:82-88 | walking the old list gives `Kept` (each old position's merged record); afterwards the map holds exactly the fetched ids that the old list lacks, still with their latest records |
| SnapshotMerge.AppendLeftover | src/app/crypto-client-page.tsx:89 | appending the map's values in key order adds the records of the ids not shown, in that order |
| SnapshotMerge.Refreshed | src/app/crypto-client-page.tsx:86 | the fetched record, keeping the old history only when the fetched one is absent; its effect on the history is stated by `MergeKeepsChartHistory`, and on the id by `MergedAtKeepsId` |
| SnapshotMerge.MergeRefresh | src/app/crypto-client-page.tsx:80-89 | the merge as the page runs it equals the specification `Merge` |
| SnapshotMerge.MergeUpdatesInPlace | src/app/crypto-client-page.tsx:82-88 | on a list with unique ids, every old coin stays at its index: the fetched record (with the history fallback) when its id was fetched, the old record unchanged otherwise |
| SnapshotMerge.MergeKeepsChartHistory | src/app/crypto-client-page.tsx:86 | a coin that had a history still has one; a fetched history, even an empty one, wins over the old one, which is kept only when the fetched record has none |
| SnapshotMerge.MergedAtKeepsId | src/app/crypto-client-page.tsx:82-88 | old positions keep their ids |
| SnapshotMerge.MergeAppendsUnseen | src/app/crypto-client-page.tsx:85-89 | after the old positions come exactly the fetched ids the old list lacked, each once, each as the latest fetched record, in order of first appearance; the length is the old length plus their number |
| SnapshotMerge.MergeIdsUnion | src/app/crypto-client-page.tsx:80-89 | the merged ids are the old ids together with the fetched ids |
| SnapshotMerge.MergeKeepsIdsUnique | src/app/crypto-client-page.tsx:80-89 | an old list with unique ids gives a merged list with unique ids, whatever the fetch holds |
| SnapshotMerge.MergeWithNothingFetched | src/app/crypto-client-page.tsx:80-89 | merging an empty fetch changes nothing |
| ViewFilter.MatchesSearch | src/app/crypto-client-page.tsx:122-127 | the lowercased name or symbol contains the lowercased search; stated by `SearchProperties` and, for the occurrence test, `ContainsOccurrence` |
| ViewFilter.LowerIdempotent | src/app/crypto-client-page.tsx:125-126 | lowercasing leaves no upper-case letter, so lowercasing twice is lowercasing once |
| ViewFilter.ContainsOccurrence | src/app/crypto-client-page.tsx:125-126 | `includes` holds exactly when the pattern occurs at some position of the text |
| ViewFilter.SearchProperties | src/app/crypto-client-page.tsx:122-127 | an empty search matches every coin, and the search ignores letter case |
| ViewFilter.PassesFilter | src/app/crypto-client-page.tsx:132-143 | the four named thresholds (24h change above or below 0, market cap above $10B, volume above $1B), any other name passing; used by `SelectionKeepsSelected` and `GainerAndLoserExclusive` |
| ViewFilter.PassesAll | src/app/crypto-client-page.tsx:130-145 | `activeFilters.every(...)`: every active filter passes; `SelectionKeepsSelected` states the stage that applies it |
| ViewFilter.GainerAndLoserExclusive | src/app/crypto-client-page.tsx:131-136 | no coin passes both 'Top Gainer' (24h change > 0) and 'Top Loser' (< 0) |
| ViewFilter.Filter | src/app/crypto-client-page.tsx:123-145 | `filter` keeps exactly the elements that pass the test, never more than it was given |
| ViewFilter.FilterIsSubsequence | src/app/crypto-client-page.tsx:123-145 | filtering keeps the original relative order |
| ViewFilter.FilterMultiset | src/app/crypto-client-page.tsx:123-145 | each passing record keeps its number of occurrences; a failing one has none |
| ViewFilter.FilterTwice | src/app/crypto-client-page.tsx:121-146 | filtering by one test and then another is filtering by both |
| ViewFilter.SelectionKeepsSelected | src/app/crypto-client-page.tsx:121-146 | the search stage (skipped on an empty search) followed by the threshold stage (skipped with no filter) keeps exactly the coins matching the search and passing every active filter, in their original order |
| ViewFilter.SelectionIdempotent | src/app/crypto-client-page.tsx:121-146 | applying the filter stages to their own result changes nothing |
| ViewFilter.StableSort | src/app/crypto-client-page.tsx:147-151 | the sort returns a permutation of its input |
| ViewFilter.StableSortSorted | src/app/crypto-client-page.tsx:147-151 | the sorted list is ordered by the comparator's key |
| ViewFilter.StableSortStable | src/app/crypto-client-page.tsx:147-151 | records with equal keys keep their relative order |
| ViewFilter.StableSortUnchanged | src/app/crypto-client-page.tsx:150 | the constant-0 comparator leaves the list exactly as it was |
| ViewFilter.FilteredData | src/app/crypto-client-page.tsx:120-152 | the search stage, the filter stage and the sort; its contents are stated by `FilteredDataContents` and its order by `FilteredDataOrder` |
| ViewFilter.FilteredDataContents | src/app/crypto-client-page.tsx:120-152 | `filteredData` holds each selected coin as often as the data does and nothing else |
| ViewFilter.FilteredDataOrder | src/app/crypto-client-page.tsx:147-151 | with 'Top Gainer' active the 24h change never increases down the list; otherwise with 'Top Loser' active it never decreases; otherwise the list is the selected coins in data order |
| ViewFilter.GainerAndLoserShowNothing | src/app/crypto-client-page.tsx:129-146 | with both 'Top Gainer' and 'Top Loser' active the table is empty |
| ViewFilter.TotalPages | src/app/crypto-client-page.tsx:160 | the page count is the ceiling of length / 10: enough pages for every row, and no page beyond what is needed |
| ViewFilter.PageOf | src/app/crypto-client-page.tsx:154-158 | `filteredData.slice((page - 1) * 10, page * 10)`: at most ten rows; the exact slice is stated by `PageBounds`, and the cover of the list by `PagesCoverList` |
| ViewFilter.PageBounds | src/app/crypto-client-page.tsx:154-158 | a page has at most 10 rows; a page in 1..totalPages is the non-empty slice from (page - 1) * 10 to page * 10 or the end; a page after the last is empty |
| ViewFilter.FirstPagesPrefix | src/app/crypto-client-page.tsx:154-160 | the first k pages read one after the other are the first min(10k, n) rows |
| ViewFilter.PagesCoverList | src/app/crypto-client-page.tsx:154-160 | pages 1..totalPages read one after the other give back the whole filtered list, with no row missing or repeated |
| Pagination.PaginationRange | src/components/pagination.tsx:15-49 | `getPaginationRange`; its shape is stated by `RangeByPosition`, its validity by `RangeCompresses`, and concrete strips by `RangeExamples` and `WiderSiblingsCanYieldEmpty` |
| Pagination.CompressesAll | src/components/pagination.tsx:18-20 | with few pages, every page is shown in order, from page 1 to the last |
| Pagination.CompressesLeading | src/components/pagination.tsx:31-35 | the first five pages, an ellipsis and the last page form a valid strip |
| Pagination.CompressesTrailing | src/components/pagination.tsx:37-41 | page 1, an ellipsis and the last five pages form a valid strip |
| Pagination.CompressesMiddle | src/components/pagination.tsx:43-46 | page 1, an ellipsis, the current page with its two neighbours, an ellipsis and the last page form a valid strip |
| Pagination.RangeByPosition | src/components/pagination.tsx:15-48 | with one sibling, the strip is: all pages when there are at most six; pages 1-5, an ellipsis and the last when the current page is among the first three; page 1, an ellipsis and the last five when it is among the last four; otherwise page 1, an ellipsis, current - 1..current + 1, an ellipsis and the last page |
| Pagination.RangeCompresses | src/components/pagination.tsx:15-48 | with one sibling and a current page in range, the strip starts at 1 and ends at the last page, its numbers lie in range and strictly increase, adjacent numbers are consecutive, every ellipsis hides at least one page, it shows the current page, and it has at most seven items |
| Pagination.RangeNeverEmpty | src/components/pagination.tsx:48 | with one sibling and at least one page, the fall-through empty strip is never returned |
| Pagination.WiderSiblingsCanYieldEmpty | src/components/pagination.tsx:16-48 | with two siblings, 8 pages with page 4 selected fall through every branch to the empty strip |
| Pagination.RangeExamples | src/components/pagination.tsx:15-48 | (20, 1), (20, 20), (7, 4), (20, 10) and (6, 4) give the strips worked out from the code |
| Pagination.RenderedStrip | src/components/pagination.tsx:52-57 | nothing is rendered exactly when there is at most one page; otherwise, for a current page in range, the strip compresses the pages and shows the current one |
| Pagination.PreviousPage | src/components/pagination.tsx:59-63 | the page `handlePrevious` hands on, if any; stated by `StepsStayInRange` and `StepsAreInverse` |
| Pagination.NextPage | src/components/pagination.tsx:65-69 | the page `handleNext` hands on, if any; stated by `StepsStayInRange` and `StepsAreInverse` |
| Pagination.StepsStayInRange | src/components/pagination.tsx:59-69 | Previous is disabled exactly on page 1 and Next exactly on the last page; an enabled step stays within 1..totalPages |
| Pagination.StepsAreInverse | src/components/pagination.tsx:59-69 | Next undoes Previous and Previous undoes Next |
| Dashboard.RemoveAll | src/app/crypto-client-page.tsx:109 | `prev.filter(f => f !== filter)` keeps every other name and no copy of the filter |
| Dashboard.Toggled | src/app/crypto-client-page.tsx:106-111 | the clicked filter's membership flips and every other name's is unchanged; an absent filter is appended after the old list |
| Dashboard.ToggleTwice | src/app/crypto-client-page.tsx:106-111 | clicking an inactive filter twice restores exactly the original list |
| Dashboard.ToggleTwiceSameMembers | src/app/crypto-client-page.tsx:106-111 | clicking any filter twice restores the original set of names |
| Dashboard.CryptoDashboard.constructor | src/app/crypto-client-page.tsx:34-40 | the page starts on the server's list, with no search, no filter, on page 1 |
| Dashboard.CryptoDashboard.FilteredData | src/app/crypto-client-page.tsx:120-152 | the view lists exactly the coins of `data` that match the search and pass every active filter |
| Dashboard.CryptoDashboard.PaginatedData | src/app/crypto-client-page.tsx:154-158 | the current page has at most ten rows, all of them selected coins of `data` |
| Dashboard.CryptoDashboard.ToggleFilter | src/app/crypto-client-page.tsx:106-113 | the filter list becomes `Toggled`, the page goes back to 1, and nothing else changes |
| Dashboard.CryptoDashboard.SetSearch | src/app/crypto-client-page.tsx:115-118 | the search text is replaced, the page goes back to 1, and nothing else changes |
| Dashboard.CryptoDashboard.SetCurrentPage | src/app/crypto-client-page.tsx:247-251 | the strip's page choice becomes the current page, and nothing else changes |
| Dashboard.CryptoDashboard.ClickPrevious | src/components/pagination.tsx:53-63 | available only with more than one page (the strip is not rendered otherwise); one page back unless on page 1; a page in 1..totalPages stays in range |
| Dashboard.CryptoDashboard.ClickNext | src/components/pagination.tsx:53-69 | available only with more than one page; one page on unless on the last page; a page in 1..totalPages stays in range |
| Dashboard.CryptoDashboard.Refresh | src/app/crypto-client-page.tsx:78-100 | a non-empty fetch replaces `data` by the merge; an empty fetch or an error leaves it unchanged; unique ids stay unique; search, filters and page are untouched |
| Dashboard.BackToFirstPage | src/app/crypto-client-page.tsx:112-117 | after a filter click or a search, the table shows the first ten filtered rows, and a rendered strip shows page 1 |
| Dashboard.StuckPastLastPage | src/components/pagination.tsx:53-55 | on a page past the last with at most one page, the table is empty and no strip (hence no Previous/Next) is rendered |

## Left out

- Rendering is not modelled: the table, the chart, the detail dialog, the stat cards, the header and the suggestion list.
- The AI suggestion flow is not modelled: `getAiSuggestions`, `fetchAiSuggestions` and the suggestion list state. It calls a language model whose answers cannot be specified.
- `fetchDataAction` is not modelled. It wraps the fetch result as data or as an error, and `Dashboard.RefreshResult` stands for what it returns.
- The refresh timer and hooks are not modelled: `setInterval`, `clearInterval`, `useEffect`, `useMemo`, `useCallback`. A refresh is one synchronous call to `Refresh`. Two slow fetches that overlap are a concurrency question outside the model.
- The error toast and its "rate limit" text check are not modelled. They only decide whether a notification is shown.
- HTTP, headers, the API key lookup and JSON parsing become parameters of `FetchCryptoData`:
  - whether a key is present;
  - each response as a network error or a status with an already-parsed body.
- `Date` and `Math.random` are parameters too:
  - today's day number;
  - one function from the day index to the random draw.
- CoinData.MapCoinData: the `toFixed`/`parseFloat` and `Math.round` rounding is not modelled, because the quote's numbers are taken as already rounded. In the source a quote missing `price`, one of the three percent changes or `volume_change_24h` throws (they go through `toFixed`), while a missing `market_cap`, `volume_24h` or `fully_diluted_valuation`, or a missing `circulating_supply` on the record, becomes NaN through `Math.round` without a throw; here every quote has all its fields.
- CoinData.MapCoinData: every mapped coin draws its history from the same draw function, whereas the source makes fresh random draws for each coin.
- CoinData.GenerateChartData: dates are day numbers rather than ISO date strings, and prices are not rounded to four decimals.
- ViewFilter.Lower: `toLowerCase` is modelled on the ASCII letters only. Unicode case mapping is not modelled.
- ViewFilter.StableSort: `sort` works in place on the filtered array. That array is `data` itself when there is no search and no filter, but then the comparator is constant 0, so the order is not changed. The sort is modelled as a function on values.
- Dashboard.CryptoDashboard.SetCurrentPage: any number is accepted, as with the React setter. Only `ClickPrevious`/`ClickNext` are tied to the strip's range.
- Numbers are unbounded reals and integers. Floating-point rounding and NaN are not modelled.
- `src/lib/types.ts` is used only for the shape of `Coin`. The configuration files are not part of this model.
