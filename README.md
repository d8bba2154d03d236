# finqtool core, modelled in Dafny

This project models the logic of the finqtool trading dashboard, a React
browser extension with a small Express mail back end:

- the futures market tables: the symbol search, click-to-sort, the Binance
  and Bybit fetches with their `USDT` filter, volume ranking and
  funding-rate merge, favourites and their storage rule, the cell texts
  (compact volumes, signed percentages, base assets) and the flash
  colours;
- the notification store behind the bell menu;
- the basic calculator;
- the four trading calculators: profit and loss, breakeven, position size
  and drawdown;
- the two notes pages, with their export text, and the note-template card;
- the trading-rules checklist;
- the economic calendar's grouping and impact badges;
- the password-reset code service.

Where the code has a defect, the model follows the code as written, and
"## Findings" names the defect together with the evidently intended
version proved beside it.

Components that update state become Dafny classes. Each handler is a method
whose `ensures` gives the new state in terms of a specification function.
The lemmas beside those functions state what the component promises.
Numbers follow JavaScript's `Number` on exact reals, with an explicit `NaN`
(module `JsNumbers`). `parseFloat`, `toFixed`, `toLocaleString` and
`String(n)` are function parameters that stay uninterpreted. Replies from
the exchanges, random draws, the clock and generated ids are inputs.

Shared modules:

| module | what it holds |
|---|---|
| `Wrappers` | `Option` |
| `Text` | ASCII lower-casing, substring search, trimming, split and join |
| `JsNumbers` | the arithmetic |
| `JsObjects` | what a plain object literal inherits from `Object.prototype`, shared by the template card's colour lookup and the code store |
| `StableSort` | a stable insertion sort, proved against a functional insertion sort, since `Array.prototype.sort` is stable |
| `MarketView` | `applySortAndSearch`, which both table files define identically |

## Model

| member | source | states |
|---|---|---|
| MarketView.KeyOf | src/components/MarketsTable.tsx:406-411 | a value that does not parse becomes -Infinity, any other keeps its value |
| MarketView.Compare | src/components/MarketsTable.tsx:403-416 | the comparator: -1 when the first row comes before the second in the clicked column ascending, 1 when after, 0 on a tie, and the signs swap for descending |
| MarketView.DescReversesAsc | src/components/MarketsTable.tsx:403-416 | the descending answer is the negated ascending one; a negative answer means strictly less |
| MarketView.ComparatorConsistent | src/components/MarketsTable.tsx:403-416 | every column and direction gives an antisymmetric, transitive comparator |
| MarketView.RowLessStrictTotal | src/components/MarketsTable.tsx:403-416 | the order behind the comparator is a strict weak order on rows |
| MarketView.FilterBySearch | src/components/MarketsTable.tsx:399-401 | the search never adds rows |
| MarketView.FilterBySearchSpec | src/components/MarketsTable.tsx:399-401 | kept rows are exactly those whose lower-cased symbol contains the lower-cased text; an empty search keeps all |
| MarketView.FilterIdempotent | src/components/MarketsTable.tsx:399-401 | searching the result again changes nothing |
| MarketView.SortAndSearch | src/components/MarketsTable.tsx:397-417 | the rows whose symbol contains the search, stably sorted with the clicked column's comparator |
| MarketView.ApplySortAndSearch | src/components/MarketsTable.tsx:397-417 | the in-place sort of the copy yields the filtered rows stably sorted by the comparator |
| MarketView.SortAndSearchPermutation | src/components/MarketsTable.tsx:397-417 | the result is a permutation of the matching rows, and holds exactly them |
| MarketView.SortAndSearchOrdered | src/components/MarketsTable.tsx:402-416 | the result is ordered by the clicked column in the chosen direction |
| MarketView.UnparsableAtTheEnds | src/components/MarketsTable.tsx:406-413 | in a numeric column, unparsable values come first ascending and last descending |
| MarketView.SortAndSearchIdempotent | src/components/MarketsTable.tsx:397-417 | sorting and searching the result again gives it back |
| MarketView.FilterKeepsAllMatching | src/components/MarketsTable.tsx:399-401 | rows that all match are kept as they are |
| StableSort.Sort | src/components/MarketsTable.tsx:402-403 | the result is a permutation of the input |
| StableSort.InsertPerm | src/components/MarketsTable.tsx:402-403 | inserting keeps the multiset plus the new item |
| StableSort.InsertSorted | src/components/MarketsTable.tsx:402-403 | inserting into a sorted sequence keeps it sorted, for a consistent comparator |
| StableSort.InsertAt | src/components/MarketsTable.tsx:402-403 | the in-place insertion leaves the prefix as the functional insertion and the rest untouched |
| StableSort.SortSorted | src/components/MarketsTable.tsx:402-403 | for a consistent comparator the result is sorted |
| StableSort.SortOfSorted | src/components/MarketsTable.tsx:402-403 | a sorted input comes back unchanged |
| StableSort.InsertAlike | src/components/MarketsTable.tsx:402-403 | insertion puts the new element after every element that ranks alike with it, wherever it lands |
| StableSort.SortStable | src/components/MarketsTable.tsx:402-403 | stability: for a consistent comparator, the elements that rank alike with any given one keep their relative order |
| StableSort.SortIdempotent | src/components/MarketsTable.tsx:402-403 | sorting twice equals sorting once |
| StableSort.InsertionSort | src/components/MarketsTable.tsx:402-403 | the array ends as the functional sort of its old contents |
| Text.Lower | src/components/MarketsTable.tsx:400 | lower-casing keeps the length, and each character becomes its lower-case form |
| Text.LowerIdempotent | src/components/MarketsTable.tsx:400 | lower-casing twice equals lower-casing once |
| Text.IndexOf | src/components/MarketsTable.tsx:52 | the first occurrence of a pattern, or -1 only when it does not occur |
| Text.ContainsIffOccurs | src/components/MarketsTable.tsx:400 | `includes` holds exactly when an occurrence exists |
| Text.RemoveFirst | src/components/MarketsTable.tsx:52 | `replace` with a string drops only the first occurrence |
| Text.LexLessTransitive | src/components/MarketsTable.tsx:412-413 | string `<` is transitive |
| Text.LexLessTotal | src/components/MarketsTable.tsx:412-413 | distinct strings are ordered one way or the other |
| Text.Trim | src/pages/Rules.tsx:72 | the text with its leading and trailing whitespace cut off |
| Text.TrimSpec | src/pages/Rules.tsx:72-80 | `trim` removes leading and trailing whitespace only; what remains neither starts nor ends with whitespace |
| Text.TrimEmptyIffBlank | src/pages/Rules.tsx:72 | the trimmed text is empty exactly for an all-whitespace input |
| Text.JoinSplit | src/components/TemplateCard.tsx:27-31 | joining after splitting gives the text back |
| Text.SplitJoin | src/components/TemplateCard.tsx:57 | splitting joined lines that hold no separator gives them back |
| MarketFetch.TickerErrorMessage | src/components/MarketsTable.tsx:255-256 | the message starts `Failed to fetch `, names the exchange's key right after it, and differs from the processing-error message |
| MarketFetch.TickerErrorMessagesDiffer | src/components/MarketsTable.tsx:255-256 | the two exchanges get different messages |
| MarketFetch.StrictUsdtFilter | src/components/MarketsTable.tsx:262-266 | throws exactly when some symbol is not a string; otherwise equals the lenient filter |
| MarketFetch.LenientUsdtFilter | src/components/MarketFavouritesTable.tsx:84 | keeps exactly the items whose string symbol ends in `USDT` |
| MarketFetch.RankingConsistent | src/components/MarketsTable.tsx:266-273 | both difference comparators are consistent on items whose key parses |
| MarketFetch.Take | src/components/MarketsTable.tsx:266-273 | `slice(0, n)` is the prefix of length min(n, length) |
| MarketFetch.TakeOfSorted | src/components/MarketsTable.tsx:266-273 | after sorting, every kept item ranks no later than every dropped one |
| MarketFetch.TopByKey | src/components/MarketsTable.tsx:266-273 | at most n items, all taken from the input |
| MarketFetch.TopByKeyKeepsLargest | src/components/MarketsTable.tsx:266-273 | no kept item has a smaller key than a dropped one |
| MarketFetch.TakeSorted | src/components/MarketsTable.tsx:273 | a prefix of a sorted sequence is sorted |
| MarketFetch.LargestFirstOrdered | src/components/MarketsTable.tsx:268-272 | sorted by `key(b) - key(a)` with every key a number, the keys do not increase |
| MarketFetch.SmallestFirstOrdered | src/components/MarketFavouritesTable.tsx:85-86 | sorted by `key(a) - key(b)` with every key a number, the keys do not decrease |
| MarketFetch.TopByKeyOrdered | src/components/MarketsTable.tsx:266-273 | with every key a number, the kept items come in order of non-increasing key |
| MarketFetch.FundingMapOf | src/components/MarketsTable.tsx:276-287 | the map's keys are exactly the listed symbols |
| MarketFetch.FundingMapLaterWins | src/components/MarketsTable.tsx:276-287 | a symbol maps to the rate of its last entry |
| MarketFetch.FundingOf | src/components/MarketsTable.tsx:319-352 | a missing symbol or a missing rate shows `-` |
| MarketFetch.UntilNull | src/components/MarketsTable.tsx:276-287 | counts the entries before the first null one |
| MarketFetch.BuildFundingMap | src/components/MarketsTable.tsx:276-287 | the loop throws exactly on a null entry and keeps what it stored before |
| MarketFetch.BybitRate | src/components/MarketsTable.tsx:288-316 | a reply counts only with retCode 0 and a non-empty list, and gives its first rate |
| MarketFetch.BybitFundingMapOf | src/components/MarketsTable.tsx:288-316 | keys are exactly the symbols whose reply counts, each with its rate |
| MarketFetch.BuildBybitFundingMap | src/components/MarketsTable.tsx:305-310 | the loop builds the Bybit funding map |
| MarketFetch.BinanceRow | src/components/MarketsTable.tsx:319-333 | a row copies the ticker's fields and adds its funding cell |
| MarketFetch.MergeBinance | src/components/MarketsTable.tsx:319-333 | one row per pair, in order |
| MarketFetch.BybitRow | src/components/MarketsTable.tsx:334-352 | volume and turnover formatted, the change times 100 with two decimals, the funding cell |
| MarketFetch.MergeBybit | src/components/MarketsTable.tsx:334-352 | one row per pair, in order |
| MarketFetch.Symbols | src/components/MarketsTable.tsx:290-293 | the pairs' symbols, in order |
| MarketFetch.BybitPairs | src/components/MarketsTable.tsx:264-273 | none when some symbol is not a string; otherwise at most 100 `USDT` pairs of the list |
| MarketFetch.Fetch | src/components/MarketsTable.tsx:244-365 | ticker error exactly on a failed ticker request, naming the exchange; Bybit rows at most 100; every row's symbol ends in `USDT` |
| MarketFetch.BinanceRowsMatchPairs | src/components/MarketsTable.tsx:263-333 | every Binance `USDT` ticker is one row, in order; failed funding gives `-` everywhere |
| MarketFetch.BinanceFundingCell | src/components/MarketsTable.tsx:276-287 | a funding cell shows its symbol's last listed rate |
| MarketFetch.BybitPairsRanked | src/components/MarketsTable.tsx:265-273 | with every turnover a number, the kept Bybit pairs come in order of non-increasing `volume24h * lastPrice` |
| MarketFetch.BybitRowsFollowPairs | src/components/MarketsTable.tsx:319-352 | the Bybit rows are the kept pairs, one per pair and in the same order, each showing the pair's turnover |
| Favourites.Toggle | src/components/MarketsTable.tsx:239 | a favourite symbol is filtered out of the list; any other symbol is appended last |
| Favourites.Without | src/components/MarketsTable.tsx:234-240 | removes every copy of the symbol and nothing else |
| Favourites.ToggleSpec | src/components/MarketsTable.tsx:234-240 | the symbol becomes a favourite exactly when it was not one; every other symbol keeps its membership |
| Favourites.WithoutKeepsNoDuplicates | src/components/MarketsTable.tsx:234-240 | removal keeps a duplicate-free list duplicate-free |
| Favourites.ToggleKeepsNoDuplicates | src/components/MarketsTable.tsx:234-240 | toggling keeps a duplicate-free list duplicate-free |
| Favourites.WithoutAppended | src/components/MarketsTable.tsx:234-240 | removing a just-appended new symbol gives the list back |
| Favourites.ToggleTwiceRestoresAbsent | src/components/MarketsTable.tsx:234-240 | toggling an absent symbol twice restores the list |
| Favourites.ToggleTwiceMovesToEnd | src/components/MarketsTable.tsx:234-240 | toggling a favourite twice restores membership but moves it last |
| Favourites.FavouritesOnly | src/components/MarketsTable.tsx:512 | exactly the rows whose symbol is a favourite |
| Favourites.Visible | src/components/MarketsTable.tsx:512 | all rows, or exactly the favourite rows |
| Favourites.FavouritesOnlyAppend | src/components/MarketsTable.tsx:512 | the filter keeps table order: filtering two stretches one after the other gives the filtered stretches in that order |
| Favourites.FavouritesOnlyAll | src/components/MarketsTable.tsx:512 | rows that are all favourites are shown unchanged |
| Favourites.Persist | src/components/MarketsTable.tsx:218-232 | the storage after the effect: the key removed for an empty list, else the list stored under it |
| Favourites.PersistSpec | src/components/MarketsTable.tsx:218-232 | an empty list removes the key, any other is stored, other keys stay |
| Favourites.PersistAfterWrite | src/components/MarketsTable.tsx:426-434 | writing the list under the key before the persistence rule runs leaves the same storage |
| Favourites.PersistLoadRoundTrip | src/components/MarketsTable.tsx:207-232 | loading what was persisted gives the list back |
| MarketsTableState.Flip | src/components/MarketsTable.tsx:437-440 | the direction always changes |
| MarketsTableState.ProcessReplies | src/components/MarketsTable.tsx:244-365 | the imperative fetch body computes `Fetch` |
| MarketsTableState.MarketsTable.constructor | src/components/MarketsTable.tsx:187-232 | first render: loading, volume descending, Binance, favourites loaded and persisted |
| MarketsTableState.MarketsTable.StartFetch | src/components/MarketsTable.tsx:244-250 | loading on, error cleared |
| MarketsTableState.MarketsTable.FinishFetch | src/components/MarketsTable.tsx:251-368 | errors keep the old rows; success replaces and stamps them, and a manual refresh adds one notification; loading ends |
| MarketsTableState.MarketsTable.ShowRows | src/components/MarketsTable.tsx:354-356 | the new rows are shown searched and sorted |
| MarketsTableState.MarketsTable.ToggleFavourite | src/components/MarketsTable.tsx:234-240 | without Pro only the upgrade dialog opens; with Pro the list toggles and is persisted |
| MarketsTableState.MarketsTable.HandleToggleFavorite | src/components/MarketsTable.tsx:426-434 | toggles with no Pro check and persists |
| MarketsTableState.MarketsTable.HandleSort | src/components/MarketsTable.tsx:437-440 | the clicked column, the direction flipped, rows re-sorted |
| MarketsTableState.MarketsTable.SetSearch | src/components/MarketsTable.tsx:458 | the text as typed, rows re-filtered |
| MarketsTableState.MarketsTable.ToggleFavouritesOnly | src/components/MarketsTable.tsx:487 | the switch flips |
| MarketsTableState.MarketsTable.SelectExchange | src/components/MarketsTable.tsx:465 | the chosen exchange is stored |
| MarketsTableState.MarketsTable.VisibleRows | src/components/MarketsTable.tsx:512 | the shown rows, restricted to favourites when switched on |
| Notifications.MarkRead | src/components/NotificationDropdown.tsx:58-63 | items with that id become read, all else unchanged |
| Notifications.MarkAllRead | src/components/NotificationDropdown.tsx:65-68 | every item becomes read, nothing else changes |
| Notifications.CountUnread | src/components/NotificationDropdown.tsx:115 | zero exactly when every item is read |
| Notifications.MarkReadCount | src/components/NotificationDropdown.tsx:58-63 | marking one id read lowers the count by one exactly when that item was unread |
| Notifications.NotificationStore.constructor | src/components/NotificationDropdown.tsx:26-32 | counter 1, empty list, flag read from storage |
| Notifications.NotificationStore.Init | src/components/NotificationDropdown.tsx:87-89 | the flag is set exactly when storage holds "true" |
| Notifications.NotificationStore.Add | src/components/NotificationDropdown.tsx:34-56 | a second login notice is dropped; otherwise the item is put first with a fresh, larger id, and a login notice sets the flag |
| Notifications.NotificationStore.MarkAsRead | src/components/NotificationDropdown.tsx:58-63 | the list becomes `MarkRead` of the old one |
| Notifications.NotificationStore.MarkAllAsRead | src/components/NotificationDropdown.tsx:65-68 | everything read, count zero |
| Notifications.NotificationStore.Clear | src/components/NotificationDropdown.tsx:70-73 | the list empties; counter and flag stay |
| Notifications.NotificationStore.UnreadCount | src/components/NotificationDropdown.tsx:115 | the badge is zero exactly when all are read |
| CellDisplay.CompactOf | src/components/MarketsTable.tsx:552-559 | dash for NaN; a scaled mantissa of at least one times its unit gives the value; a plain value below 1000 |
| CellDisplay.FormatCompact | src/components/MarketsTable.tsx:552-559 | a value that does not parse shows `-` |
| CellDisplay.CompactThresholds | src/components/MarketsTable.tsx:555-558 | each unit is used exactly between its threshold and the next |
| CellDisplay.PercentText | src/components/MarketsTable.tsx:635 | the value to the given decimals followed by `%`, led by `+` for a positive value |
| CellDisplay.FundingText | src/components/MarketsTable.tsx:108-111 | the rate to four decimals followed by `%`, led by `+` for a non-negative finite rate |
| CellDisplay.SignedTexts | src/components/MarketsTable.tsx:108-111 | the text starts with `+` exactly for a positive percentage or a non-negative funding rate, and ends in `%` |
| CellDisplay.DisplayCurrent | src/components/MarketsTable.tsx:629-638 | the current table's text: the funding formatter when passed, else compact, else percent for a number, else the locale string for a number, else the string as it is |
| CellDisplay.IsTiny | src/components/MarketFavouritesTable.tsx:421 | a finite value strictly between 0 and 0.001 |
| CellDisplay.DisplayOlder | src/components/MarketFavouritesTable.tsx:416-426 | the older table's text: compact, else percent for a number, else six decimals for a tiny number and the locale string for any other, else the string as it is |
| CellDisplay.DisplayPrecedence | src/components/MarketsTable.tsx:629-638 | every case of both tables: only the current one has a formatter, and it wins over everything; both put compact before percent and percent before a plain number; a plain number is always the locale string in the current table, but six decimals when tiny in the older one |
| CellDisplay.DisplayTablesAgree | src/components/MarketFavouritesTable.tsx:416-426 | without the formatter both tables show the same text, except a tiny positive plain number, where they agree exactly when its locale string equals its six-decimal text |
| CellDisplay.LeftmostQuote | src/components/MarketFavouritesTable.tsx:292 | the leftmost position where a quote currency ends the symbol |
| CellDisplay.StripQuote | src/components/MarketFavouritesTable.tsx:292 | a quote suffix is removed when present; otherwise the symbol stays |
| CellDisplay.QuoteSuffixUnique | src/components/MarketFavouritesTable.tsx:292 | a symbol ends in at most one quote currency |
| CellDisplay.StripQuoteOfPair | src/components/MarketFavouritesTable.tsx:292 | base plus quote shows the base |
| CellDisplay.BaseAsset | src/components/MarketsTable.tsx:52 | the symbol with its first `USDT` removed |
| CellDisplay.BaseAssetOfPair | src/components/MarketsTable.tsx:52 | base plus `USDT`, with no other `USDT`, shows the base |
| CellDisplay.CellKey | src/components/MarketsTable.tsx:617 | the key is symbol, colon, field |
| CellDisplay.FlashFor | src/components/MarketsTable.tsx:620-622 | a flash exactly for a number differing from a remembered one; up exactly when greater |
| CellDisplay.FlashStepAsWritten | src/components/MarketsTable.tsx:617-627 | on the flash path the new value is not remembered |
| CellDisplay.AsWrittenComparesWithStaleValue | src/components/MarketsTable.tsx:617-627 | 100, 105, 103 flashes up twice and still remembers 100 |
| CellDisplay.FlashStepCorrected | src/components/MarketsTable.tsx:617-627 | every render remembers its value |
| CellDisplay.CorrectedComparesWithLastValue | src/components/MarketsTable.tsx:617-627 | up, down or none exactly as the new value is above, below or equal to the last |
| CellDisplay.CorrectedFallAfterRise | src/components/MarketsTable.tsx:617-627 | 100, 105, 103 flashes up, then down |
| CellDisplay.RenderStep | src/components/MarketFavouritesTable.tsx:403-415 | the effect runs only on a cell's first render or when `[value, prev, key]` changed, and then takes the as-written step; the dependencies are recorded |
| CellDisplay.RenderKeepsStaleValue | src/components/MarketFavouritesTable.tsx:403-415 | rendering 100, 105, 105, 103 flashes only on the rise and on 103, which flashes up, with 100 still remembered |
| CellDisplay.RenderStepOtherCells | src/components/MarketFavouritesTable.tsx:403-415 | a render leaves every other cell's memory alone |
| CellDisplay.FlashTracker.constructor | src/components/MarketFavouritesTable.tsx:403 | nothing remembered |
| CellDisplay.FlashTracker.Render | src/components/MarketFavouritesTable.tsx:403-415 | one render of a cell performs `RenderStep` on the shared memory |
| FavouritesTableState.HeaderClick | src/components/MarketFavouritesTable.tsx:218-221 | the clicked column becomes the sort column, descending only when it already was the column and ascending |
| FavouritesTableState.HeaderClickCycle | src/components/MarketFavouritesTable.tsx:218-221 | a new column starts ascending; a second click on it gives back its state |
| FavouritesTableState.TopPairsAsWritten | src/components/MarketFavouritesTable.tsx:85-87 | all the pairs when there are at most 100, otherwise 100 of them, each taken from the input |
| FavouritesTableState.AsWrittenFromUsdt | src/components/MarketFavouritesTable.tsx:84-87 | every ranked pair is one of the `USDT` pairs |
| FavouritesTableState.AsWrittenAscending | src/components/MarketFavouritesTable.tsx:85-87 | with every volume a number, the kept pairs come smallest volume first |
| FavouritesTableState.AsWrittenKeepsSmallest | src/components/MarketFavouritesTable.tsx:85-87 | no kept pair out-volumes a dropped one |
| FavouritesTableState.AsWrittenDropsLargest | src/components/MarketFavouritesTable.tsx:85-87 | with over 100 pairs, the unique largest-volume pair is not shown |
| FavouritesTableState.TopPairs | src/components/MarketFavouritesTable.tsx:85-87 | the corrected ranking of the Findings: at most 100 pairs from the input |
| FavouritesTableState.TopPairsKeepLargest | src/components/MarketFavouritesTable.tsx:85-87 | corrected ranking: no kept pair has a smaller volume than a dropped one |
| FavouritesTableState.TopPairsShowLargest | src/components/MarketFavouritesTable.tsx:85-87 | corrected ranking: the unique largest-volume pair is always shown |
| FavouritesTableState.TopPairsDescending | src/components/MarketFavouritesTable.tsx:85-87 | corrected ranking: with every volume a number, the pairs come largest volume first |
| FavouritesTableState.FavRows | src/components/MarketFavouritesTable.tsx:84-101 | at most 100 rows, each ending in `USDT` |
| FavouritesTableState.FavRowsFollowPairs | src/components/MarketFavouritesTable.tsx:84-101 | one row per ranked pair, in the ranked order: all `USDT` pairs up to 100, smallest volume first |
| FavouritesTableState.FavFetch | src/components/MarketFavouritesTable.tsx:78-108 | none when a step throws, else the rows built from the ranked ticker list and the funding entries |
| FavouritesTableState.FavFetchSpec | src/components/MarketFavouritesTable.tsx:78-108 | none exactly when a step throws; otherwise at most 100 `USDT` rows |
| FavouritesTableState.FavRowsFromReply | src/components/MarketFavouritesTable.tsx:94-101 | every row comes from one `USDT` ticker of the reply |
| FavouritesTableState.RankPairs | src/components/MarketFavouritesTable.tsx:85-87 | the in-place sort of a copy, smallest volume first, cut to 100, computes `TopPairsAsWritten` |
| FavouritesTableState.ProcessFavReplies | src/components/MarketFavouritesTable.tsx:80-107 | the imperative body computes `FavFetch` |
| FavouritesTableState.FavouritesTable.constructor | src/components/MarketFavouritesTable.tsx:31-69 | first render: loading, volume descending, list loaded, key removed and reload asked |
| FavouritesTableState.FavouritesTable.StartFetch | src/components/MarketFavouritesTable.tsx:79 | spinner only while no rows, error cleared |
| FavouritesTableState.FavouritesTable.FinishFetch | src/components/MarketFavouritesTable.tsx:80-108 | a throw keeps the rows with the error; success replaces and stamps them; loading ends |
| FavouritesTableState.FavouritesTable.ShowRows | src/components/MarketFavouritesTable.tsx:102-104 | the new rows are shown searched and sorted |
| FavouritesTableState.FavouritesTable.ToggleFavourite | src/components/MarketFavouritesTable.tsx:54-73 | toggles for everyone, persists, asks for a reload when the list empties |
| FavouritesTableState.FavouritesTable.ClickHeader | src/components/MarketFavouritesTable.tsx:218-221 | the sort state advances by one header click |
| FavouritesTableState.FavouritesTable.SetSearch | src/components/MarketFavouritesTable.tsx:132-152 | the text as typed, rows re-filtered |
| FavouritesTableState.FavouritesTable.ToggleFavouritesOnly | src/components/MarketFavouritesTable.tsx:271 | the switch flips |
| FavouritesTableState.FavouritesTable.VisibleRows | src/components/MarketFavouritesTable.tsx:271 | the shown rows, restricted to favourites when switched on |
| BasicCalculator.Calculate | src/components/BasicCalculator.tsx:104-117 | division by zero is NaN, an unknown operator gives the second operand, NaN propagates |
| BasicCalculator.CalculateInverses | src/components/BasicCalculator.tsx:104-117 | on exact reals, subtraction undoes addition and division undoes multiplication |
| BasicCalculator.CalculateFinite | src/components/BasicCalculator.tsx:104-117 | a finite result exactly for finite operands and a non-zero divisor |
| BasicCalculator.AfterDigit | src/components/BasicCalculator.tsx:61-68 | the digit replaces a lone `0`, else is appended; the decimal points stay |
| BasicCalculator.AfterDecimal | src/components/BasicCalculator.tsx:70-77 | a point is added only when none is there |
| BasicCalculator.ToggledSign | src/components/BasicCalculator.tsx:79-81 | a leading minus is removed, else one is added |
| BasicCalculator.ToggleSignTwice | src/components/BasicCalculator.tsx:79-81 | two toggles restore the display exactly unless it starts with two minus signs |
| BasicCalculator.Calculator.constructor | src/components/BasicCalculator.tsx:41-45 | display `0`, no history, no pending operator |
| BasicCalculator.Calculator.ClearAll | src/components/BasicCalculator.tsx:48-54 | back to the start, history kept |
| BasicCalculator.Calculator.ClearHistory | src/components/BasicCalculator.tsx:56-59 | only the history empties |
| BasicCalculator.Calculator.InputDigit | src/components/BasicCalculator.tsx:61-68 | a new number after an operator, else `AfterDigit` |
| BasicCalculator.Calculator.InputDecimal | src/components/BasicCalculator.tsx:70-77 | `0.` after an operator, else `AfterDecimal`; the display keeps at most one point |
| BasicCalculator.Calculator.ToggleSign | src/components/BasicCalculator.tsx:79-81 | the display's sign toggles |
| BasicCalculator.Calculator.InputPercent | src/components/BasicCalculator.tsx:83-86 | the display divided by 100 |
| BasicCalculator.Calculator.PerformOperation | src/components/BasicCalculator.tsx:88-102 | the first operator stores the operand; a later one computes, shows and records one history line |
| BasicCalculator.Calculator.HandleEquals | src/components/BasicCalculator.tsx:119-132 | nothing without an operator; otherwise one history line, the result shown, the state reset |
| Notes.DefaultNote | src/components/Notes.tsx:35-43 | a blank untitled note, version 1 |
| Notes.NewNote | src/components/Notes.tsx:261-278 | blank, or title, content and category from the template |
| Notes.Added | src/components/Notes.tsx:261-283 | nothing at ten notes, else the new note goes last |
| Notes.AddNoteBounded | src/components/Notes.tsx:201 | never more than ten, at most one more, old notes untouched |
| Notes.ChangeContent | src/components/Notes.tsx:285-297 | the note with that id gets the content, time and one more version; others as they were |
| Notes.Edited | src/components/Notes.tsx:487-492 | an edit over 500 characters is refused |
| Notes.EditContentKeepsLimits | src/components/Notes.tsx:285-297 | edits keep every note within 500 characters, keep ids and titles, and only raise versions |
| Notes.AddNoteKeepsLimits | src/components/Notes.tsx:261-283 | a blank note, or a template that fits, keeps the limits |
| Notes.RenamedTitle | src/components/Notes.tsx:308-321 | the trimmed text, or `Untitled Note` when blank; never empty |
| Notes.Rename | src/components/Notes.tsx:308-321 | only that note's title and time change |
| Notes.SetCategory | src/components/Notes.tsx:323-334 | only that note's category and time change |
| Notes.Delete | src/components/Notes.tsx:355-363 | exactly the notes with another id remain |
| Notes.DeleteKeepsOrder | src/components/Notes.tsx:355-363 | the rest keep their order; an unknown id removes nothing |
| Notes.OtherEditsKeepLimits | src/components/Notes.tsx:308-363 | rename, category and delete keep the limits |
| Notes.LineEnd | src/components/Notes.tsx:336-337 | the first line break, or the end |
| Notes.LineEndOfLine | src/components/Notes.tsx:336-337 | a single line followed by a break ends at its length |
| Notes.ParseLineOf | src/components/Notes.tsx:336-337 | a prefixed single line reads back |
| Notes.ExportText | src/components/Notes.tsx:337 | `Title: ` and the title, a line break, `Category: ` and the category, a blank line, then the content |
| Notes.ExportRoundTrip | src/components/Notes.tsx:336-337 | title, category and content read back from the export text |
| Notes.NotesPanel.constructor | src/components/Notes.tsx:237-253 | the stored notes, no rename or delete pending |
| Notes.NotesPanel.AddNote | src/components/Notes.tsx:261-283 | `Added`; the template list closes exactly for a template note that was added |
| Notes.NotesPanel.EditContent | src/components/Notes.tsx:487-492 | `Edited`, limits kept |
| Notes.NotesPanel.StartRename | src/components/Notes.tsx:299-302 | the rename box opens with the current title |
| Notes.NotesPanel.RenameChange | src/components/Notes.tsx:304-306 | the box's text is stored |
| Notes.NotesPanel.FinishRename | src/components/Notes.tsx:308-321 | `Rename` with the box's text, then the box closes |
| Notes.NotesPanel.UpdateCategory | src/components/Notes.tsx:323-334 | `SetCategory`, limits kept |
| Notes.NotesPanel.ConfirmDelete | src/components/Notes.tsx:351-353 | the confirmation opens for that id |
| Notes.NotesPanel.DeleteNote | src/components/Notes.tsx:355-363 | `Delete`, the confirmation closes |
| UserNotes.UserNotesPanel.constructor | src/components/UserNotes.tsx:67-84 | the stored notes, no rename or delete pending |
| UserNotes.UserNotesPanel.AddNote | src/components/UserNotes.tsx:92-109 | `Added`, limits kept when the template fits |
| UserNotes.UserNotesPanel.EditContent | src/components/UserNotes.tsx:286-292 | `Edited`, limits kept |
| UserNotes.UserNotesPanel.StartRename | src/components/UserNotes.tsx:125-128 | the rename box opens with the current title |
| UserNotes.UserNotesPanel.RenameChange | src/components/UserNotes.tsx:130-132 | the box's text is stored |
| UserNotes.UserNotesPanel.FinishRename | src/components/UserNotes.tsx:134-147 | `Rename` with the box's text, then the box closes |
| UserNotes.UserNotesPanel.ConfirmDelete | src/components/UserNotes.tsx:164-166 | the confirmation opens for that id |
| UserNotes.UserNotesPanel.DeleteNote | src/components/UserNotes.tsx:168-176 | `Delete`, the confirmation closes |
| Rules.InitialRules | src/pages/Rules.tsx:18-25 | four rules, ids 1 to 4, none done |
| Rules.Toggled | src/pages/Rules.tsx:87-89 | rules with that id flip, the rest stay |
| Rules.ToggleTwice | src/pages/Rules.tsx:87-89 | toggling twice gives the list back |
| Rules.Deleted | src/pages/Rules.tsx:91-93 | deletion never grows the list |
| Rules.DeletedMembers | src/pages/Rules.tsx:91-93 | exactly the rules with another id remain |
| Rules.DeletedAppend | src/pages/Rules.tsx:91-93 | deletion is piecewise, so order is kept |
| Rules.DeletedNone | src/pages/Rules.tsx:91-93 | an unknown id removes nothing |
| Rules.CompletedCount | src/pages/Rules.tsx:171 | the count is at most the number of rules |
| Rules.AllDone | src/pages/Rules.tsx:95 | the list is non-empty and every rule is done |
| Rules.AllDoneIff | src/pages/Rules.tsx:95 | all done exactly for a non-empty list whose every rule is done, equivalently counted |
| Rules.EveryIff | src/pages/Rules.tsx:95 | `every` holds exactly when each rule is done, equivalently when all are counted |
| Rules.RulesPage.constructor | src/pages/Rules.tsx:30-31 | the initial rules and an empty box |
| Rules.RulesPage.Load | src/pages/Rules.tsx:34-53 | stored rules replace the initial ones |
| Rules.RulesPage.SetInput | src/pages/Rules.tsx:30 | the box's text is stored |
| Rules.RulesPage.HandleAdd | src/pages/Rules.tsx:71-85 | blank input changes nothing; otherwise the trimmed rule is appended, not done, and the box empties |
| Rules.RulesPage.HandleToggle | src/pages/Rules.tsx:87-89 | `Toggled` |
| Rules.RulesPage.HandleDelete | src/pages/Rules.tsx:91-93 | `Deleted` |
| TemplateCard.NonBlankLines | src/components/TemplateCard.tsx:27-31 | the filter never adds lines |
| TemplateCard.NonBlankLinesMembers | src/components/TemplateCard.tsx:27-31 | exactly the lines not all whitespace are kept |
| TemplateCard.KeptIffTrimmed | src/components/TemplateCard.tsx:27-31 | the filter condition holds exactly when the trimmed line is non-empty |
| TemplateCard.NonBlankLinesAppend | src/components/TemplateCard.tsx:27-31 | the filter is piecewise, so order is kept |
| TemplateCard.PreviewLines | src/components/TemplateCard.tsx:27-31 | at most three lines |
| TemplateCard.PreviewLinesFacts | src/components/TemplateCard.tsx:27-31 | non-blank single lines from the front of the content; fewer than three only when there are no more |
| TemplateCard.PreviewRoundTrip | src/components/TemplateCard.tsx:57 | splitting the preview gives its lines back; an empty preview renders one empty line |
| JsObjects.InheritedText | src/components/TemplateCard.tsx:50 | what a template string makes of an inherited member: `[object Object]` for `__proto__`, a native-function text starting `function ` for a method |
| TemplateCard.ColorsProperty | src/components/TemplateCard.tsx:15-23 | defined exactly for a listed category or an inherited `Object.prototype` name; a listed one gives its colours; never an empty text |
| TemplateCard.CategoryClass | src/components/TemplateCard.tsx:50 | a listed category's colours; for an unlisted `Object.prototype` name, the inherited value's text (`[object Object]` for `__proto__`); otherwise the muted fallback |
| TemplateCard.CategoryClassFallback | src/components/TemplateCard.tsx:50 | the fallback appears exactly for a name that is neither listed nor inherited |
| TemplateCard.InheritedCategoryClass | src/components/TemplateCard.tsx:50 | `toString` and `constructor` get a function's text as classes, and `__proto__` gets `[object Object]` |
| FinancialCalculator.TogglePosition | src/components/FinancialCalculator.tsx:160-162 | the position always changes |
| FinancialCalculator.TogglePositionTwice | src/components/FinancialCalculator.tsx:160-162 | toggling twice restores it |
| FinancialCalculator.Abs | src/components/FinancialCalculator.tsx:600 | `Math.abs`: finite exactly for finite input, non-negative, plus or minus the input |
| FinancialCalculator.PnlOf | src/components/FinancialCalculator.tsx:125-145 | on exact reals: the fees are the entry and exit notionals times the fee fraction; the cost is the entry notional over the leverage; the profit is the price move (exit minus entry for a long, entry minus exit for a short) times size and leverage, minus the fees; the ROI is profit over cost times 100; the breakeven is `BreakEven` |
| FinancialCalculator.BreakEven | src/components/FinancialCalculator.tsx:140-145 | on exact reals: the entry times one plus twice the fee fraction for a long, one minus it for a short |
| FinancialCalculator.PnlMirror | src/components/FinancialCalculator.tsx:113-158 | without fees a short gains what a long loses, and both break even at the entry |
| FinancialCalculator.BreakEvenSide | src/components/FinancialCalculator.tsx:113-158 | for a positive entry and fee the long breakeven lies above the entry and the short one below |
| FinancialCalculator.PnlBreakEvenSide | src/components/FinancialCalculator.tsx:113-158 | with fees a long breaks even above the entry and a short below it |
| FinancialCalculator.ProfitLossCalculator.constructor | src/components/FinancialCalculator.tsx:97-111 | the initial inputs: long, leverage 1, fee 0.1, fees on |
| FinancialCalculator.ProfitLossCalculator.CalculateResults | src/components/FinancialCalculator.tsx:113-158 | nothing while a required box is empty; otherwise the figures, and profit exactly when positive |
| FinancialCalculator.ProfitLossCalculator.TogglePositionButton | src/components/FinancialCalculator.tsx:160-162 | the position toggles |
| FinancialCalculator.WithField | src/components/FinancialCalculator.tsx:334-342 | only the chosen field of the entry changes |
| FinancialCalculator.Spliced | src/components/FinancialCalculator.tsx:326-332 | `splice(index, 1)` with negative and out-of-range indices |
| FinancialCalculator.BreakevenPrice | src/components/FinancialCalculator.tsx:368-392 | on exact reals: total cost over total quantity, times one plus the `fees` percentage over 100 for a long and one minus it for a short |
| FinancialCalculator.TotalCostWithoutFees | src/components/FinancialCalculator.tsx:355-399 | fee-free entries cost the same long or short |
| FinancialCalculator.SingleEntryBreakeven | src/components/FinancialCalculator.tsx:355-399 | on exact reals, a single fee-free entry breaks even at its own price |
| FinancialCalculator.BreakevenWithoutFees | src/components/FinancialCalculator.tsx:355-399 | on exact reals, without fees long and short break even at the same price, and one entry at its own price |
| FinancialCalculator.BreakevenCalculator.constructor | src/components/FinancialCalculator.tsx:311-320 | one empty entry with fee 0.1 |
| FinancialCalculator.BreakevenCalculator.AddEntry | src/components/FinancialCalculator.tsx:322-324 | one empty entry with the default fee is appended |
| FinancialCalculator.BreakevenCalculator.RemoveEntry | src/components/FinancialCalculator.tsx:326-332 | the last entry is never removed; otherwise `Spliced` |
| FinancialCalculator.BreakevenCalculator.UpdateEntry | src/components/FinancialCalculator.tsx:334-342 | one field of one entry; a fee also becomes the default |
| FinancialCalculator.BreakevenCalculator.CalculateBreakeven | src/components/FinancialCalculator.tsx:344-400 | nothing while an entry is incomplete; otherwise the totals over all entries and the breakeven price |
| FinancialCalculator.PositionSizeOf | src/components/FinancialCalculator.tsx:599-610 | on exact reals: the risk is the account times the risk fraction; the size is the risk over the entry-to-stop distance times the leverage; liquidation is the entry times one minus 1/leverage when the entry is above the stop, else one plus it |
| FinancialCalculator.LiquidationSide | src/components/FinancialCalculator.tsx:587-615 | liquidation lies below the entry for a long and above it for a short |
| FinancialCalculator.PositionSizeRisk | src/components/FinancialCalculator.tsx:587-615 | the risk is the risked share of the account; the size is risk per price distance times leverage |
| FinancialCalculator.PositionSizeCalculator.constructor | src/components/FinancialCalculator.tsx:576-585 | the initial inputs: risk 1, leverage 1 |
| FinancialCalculator.PositionSizeCalculator.CalculatePositionSize | src/components/FinancialCalculator.tsx:587-615 | nothing while a required box is empty; otherwise the figures |
| FinancialCalculator.DrawdownOf | src/components/FinancialCalculator.tsx:776-786 | on exact reals: the amount is peak minus current, the percentage is that amount over the peak times 100, the return is current minus initial over initial times 100, or `N/A` without an initial investment, each written to two decimals |
| FinancialCalculator.TotalReturnNotAvailable | src/components/FinancialCalculator.tsx:779-786 | the return reads `N/A` exactly without an initial investment |
| FinancialCalculator.DrawdownCalculator.constructor | src/components/FinancialCalculator.tsx:757-764 | empty boxes, no result |
| FinancialCalculator.DrawdownCalculator.CalculateDrawdown | src/components/FinancialCalculator.tsx:766-787 | nothing while the peak or current value is empty; otherwise the figures |
| EconomicCalendar.Grouped | src/components/EconomicCalendar.tsx:168-174 | the `reduce`: each event in turn appended to its date's group, a new group for a new date |
| EconomicCalendar.OnDate | src/components/EconomicCalendar.tsx:168-174 | exactly the events on that date |
| EconomicCalendar.OnDateEmpty | src/components/EconomicCalendar.tsx:168-174 | a date with no events has no group content |
| EconomicCalendar.GroupedByDate | src/components/EconomicCalendar.tsx:168-174 | keys are exactly the occurring dates; each group is that date's events in order, never empty |
| EconomicCalendar.EventInItsGroup | src/components/EconomicCalendar.tsx:168-174 | every event is in its date's group |
| EconomicCalendar.SizeSumStep | src/components/EconomicCalendar.tsx:168-174 | one more event adds one to its date's group only |
| EconomicCalendar.GroupSizesSum | src/components/EconomicCalendar.tsx:168-174 | the group sizes add up to the number of events |
| EconomicCalendar.GroupByDate | src/components/EconomicCalendar.tsx:168-174 | the `reduce` loop builds `Grouped` |
| EconomicCalendar.TodaysEvents | src/components/EconomicCalendar.tsx:237 | the selected date's group, or no events |
| EconomicCalendar.TodaysEventsOnDate | src/components/EconomicCalendar.tsx:237 | the selected day shows exactly its events, in order |
| EconomicCalendar.ImpactBadge | src/components/EconomicCalendar.tsx:185-208 | a badge exactly for high, medium and low, labelled with the capitalised level |
| EconomicCalendar.ImpactBadgesDiffer | src/components/EconomicCalendar.tsx:185-208 | the three levels get three different badges |
| PasswordCodes.CodeNumber | api/send-password-code.cjs:27 | a draw in [0, 1) gives a code between 100000 and 999999 |
| PasswordCodes.DecimalText | api/send-password-code.cjs:27 | `toString` writes only digits |
| PasswordCodes.DecimalTextLength | api/send-password-code.cjs:27 | a number with k+1 digits is written with k+1 characters |
| PasswordCodes.CodeIsSixDigits | api/send-password-code.cjs:27 | every code is six digits long |
| PasswordCodes.Lookup | api/send-password-code.cjs:44 | `codeStore[email]` finds an entry exactly for `__proto__` after an assignment to it, or for an own property; nothing only for names the object does not inherit |
| PasswordCodes.Assign | api/send-password-code.cjs:28 | the entry is found under the address afterwards; only `__proto__` changes lookups of other names |
| PasswordCodes.Delete | api/send-password-code.cjs:47 | an own property goes and nothing else is looked up differently; `__proto__` and inherited names stay |
| PasswordCodes.SendStep | api/send-password-code.cjs:24-40 | 400 without an address; otherwise the code is assigned under it, kept even when the mail fails, answering 200 or 500 |
| PasswordCodes.VerifyStep | api/send-password-code.cjs:42-49 | 200 exactly when the value found is truthy with a `.code` equal to the submitted code, whose property is then deleted; otherwise 400 and no change |
| PasswordCodes.Accepts | api/send-password-code.cjs:44-45 | the value found under the address is truthy and its `.code` is the submitted code |
| PasswordCodes.OwnCodeAccepted | api/send-password-code.cjs:44-45 | an address with a code of its own accepts exactly that code |
| PasswordCodes.UnknownAddressRefused | api/send-password-code.cjs:44-45 | an address with no code and no inherited name is refused |
| PasswordCodes.InheritedNameAccepted | api/send-password-code.cjs:44-47 | an inherited `Object.prototype` name is accepted exactly when no code is submitted, and nothing is deleted |
| PasswordCodes.ToStringAccepted | api/send-password-code.cjs:44-47 | `toString` without a code gets 200 on a fresh store, leaving it unchanged |
| PasswordCodes.ProtoCodeReusable | api/send-password-code.cjs:28-47 | a code sent to `__proto__` verifies twice in a row |
| PasswordCodes.SendThenVerify | api/send-password-code.cjs:24-49 | the code just sent verifies; except for `__proto__`, every other name is looked up as before |
| PasswordCodes.OneTimeUse | api/send-password-code.cjs:44-47 | after a success the same request fails exactly when a code was submitted and the address is not `__proto__` |
| PasswordCodes.SendReplacesOldCode | api/send-password-code.cjs:28 | a new code makes a different earlier one fail |
| PasswordCodes.NoExpiry | api/send-password-code.cjs:42-49 | the answer depends on the stored codes only, never on when they were stored (apart from the truthiness of a timestamp reached as `timestamp`) |
| PasswordCodes.MapSendStep | api/send-password-code.cjs:24-40 | the corrected store: the code is stored under the address, whatever it is |
| PasswordCodes.MapVerifyStep | api/send-password-code.cjs:42-49 | the corrected store: 200 exactly for the stored code of that address, which is removed |
| PasswordCodes.MapOneTimeUse | api/send-password-code.cjs:44-47 | the corrected store: repeating any success fails |
| PasswordCodes.MapSendThenVerify | api/send-password-code.cjs:24-49 | the corrected store: the code just sent verifies for every address, and other addresses keep their codes |
| PasswordCodes.MapAgreesOnOrdinaryAddresses | api/send-password-code.cjs:42-49 | without a `__proto__` assignment, the two stores verify a non-inherited address alike |
| PasswordCodes.CodeService.constructor | api/send-password-code.cjs:22 | the store starts empty |
| PasswordCodes.CodeService.SendCode | api/send-password-code.cjs:24-40 | the handler performs `SendStep` on the store |
| PasswordCodes.CodeService.VerifyCode | api/send-password-code.cjs:42-49 | the handler performs `VerifyStep` on the store |

## Left out

- Network requests, `async`/`await`, `Promise.all` ordering, `setInterval` refreshes and `setTimeout` flash resets: replies arrive as inputs, and each fetch is one step.
- Floating point: arithmetic is exact on reals with an explicit NaN. Rounding and infinities are not modelled. `toFixed`, `toLocaleString`, `String(n)` and `parseFloat` are uninterpreted parameters.
- String lengths count characters, not UTF-16 code units. Lower-casing covers ASCII only.
- The Bybit turnover sort and the earlier table's volume sort can return NaN for unparsable values. The order ECMAScript then gives is implementation-defined. The model's sort fixes one order, and ranking lemmas require all keys to parse.
- `window.location.reload()` in the earlier table is a flag (`reloadRequested`), not a reload.
- Browser storage is a map for the favourites and a field for the login flag. Persistence of notes and rules to `localStorage` or `chrome.storage` is not modelled. Neither is `deleteNote` removing the storage key when the last note goes. Loading is the constructor's or `Load`'s argument.
- The current table's Binance path keeps every `USDT` pair unsorted and uncapped. Only the Bybit path ranks and keeps 100, and the model follows the code.
- There is no response cache, request batching or search debounce in the code, so none is modelled.
- Ticker-list entries that are `null` are not modelled. Funding entries that are `null` are.
- `togglePosition` is defined in the profit-and-loss calculator but no control calls it. It is modelled as `TogglePositionButton` all the same.
- Notes.NotesPanel.AddNote: `hideTemplates` assumes the page passes an `onHideTemplates` callback. Without one nothing is closed.
- FinancialCalculator.BreakevenCalculator.UpdateEntry: requires an index within the list. The page only passes indices of rendered entries, and a larger index would throw.
- Random draws, the clock and generated ids (`Math.random`, `Date.now`, `new Date().toISOString()`) are parameters.
- Not modelled: mail sending, the Express routing, themes and font sizes, rendering, the calendar's day navigation through `Date`, and the calendar's built-in sample events.
- In the password service, sending without an `email` is refused. Verifying without one looks up the name `"undefined"`, which finds a code only when an earlier request sent one to the literal address `"undefined"` (`Key`).
- In the password service, `email` and `code` are strings or absent. Other JSON values are not modelled: a non-string `code` never equals a stored code, and a non-string `email` would be looked up by its `String` form.
- CellDisplay.RenderStep: treats each cell key as one component instance. Two instances rendering the same key would keep separate dependencies.
- JsObjects.InheritedText: a built-in function's text is written in V8's form, `function name() { [native code] }`. Other engines may format it differently.
- EconomicCalendar.TodaysEvents: `eventsByDate` is a plain object too, but it is indexed only by the sample events' dates and the selected date string, never by an `Object.prototype` name, so the grouping is modelled on a map.
- In the basic calculator, `inputPercent` uses the uninterpreted `String(n)` of an exact quotient.

## Findings

| source | as written | input that shows it | evidently intended | confidence | as-written member | corrected member |
|---|---|---|---|---|---|---|
| src/components/MarketsTable.tsx:617-627 | the flash effect returns before remembering the new value, so later renders compare with a stale value (same code at src/components/MarketFavouritesTable.tsx:405-415) | a price rendering 100, then 105, then 103 flashes up both times | each render compares with the value shown just before it | not executed | CellDisplay.AsWrittenComparesWithStaleValue | CellDisplay.CorrectedComparesWithLastValue |
| api/send-password-code.cjs:44-47 | the store is a plain object, so `codeStore[email]` also finds inherited members, and `delete` cannot remove them or a code assigned to `__proto__` | `{ "email": "toString" }` with no code is answered 200 on a fresh store, any number of times | only a code sent to the address verifies, once | not executed | PasswordCodes.ToStringAccepted | PasswordCodes.MapOneTimeUse |
| src/components/MarketFavouritesTable.tsx:85-87 | pairs are sorted by `a.quoteVolume - b.quoteVolume` (smallest first) before the first 100 are kept | 101 `USDT` pairs with distinct volumes: the largest one is dropped | keep the 100 pairs with the largest volume | not executed | FavouritesTableState.AsWrittenDropsLargest | FavouritesTableState.TopPairsShowLargest |
