# Per-ticker price cache synchroniser

This project models the core of a small market-data tool. The tool keeps one CSV file of daily price bars per ticker symbol. When asked for a list of tickers, it brings each file up to date from the market-data provider and returns the combined table. Two layouts of the code exist, and both are modelled.

- **Earlier layout**: `archive/src-20241001/data_sources/YahooFinanceSource.py` and `archive/src-20241001/DataTerminal.py`.
  - The driver fixes TODAY and YESTERDAY once per run. It syncs every ticker in sorted order through one shared source object.
  - For a ticker with no file, the source fetches the full history and writes it if it is non-empty.
  - For a ticker with a file, the source takes the latest stored date. If that date is before yesterday, it asks for the window from the next day up to today. It appends the answer only if the answer is non-empty and starts after that date.
  - Every other case keeps the old series, and so does a failing request.
  - The driver logs and skips a ticker whose sync raises. It projects the result to Date, Ticker and Adj Close.
- **Newer layout**: `src/YahooFinanceSource.py` and `src/DataTerminal.py`.
  - A source object is made per ticker. The entry point always re-downloads the full history and replaces the file.
  - The incremental update is present but disabled. It concatenates old and new rows and drops duplicate dates, keeping the last.
  - The driver concatenates the results in sorted ticker order and truncates every timestamp to its UTC calendar day.
  - Nothing catches a failure, so the first failing ticker aborts the batch.

The model is split into modules:

- `Common` (`common.dfy`):
  - provider rows (`Bar`);
  - the request window (`Request`);
  - the provider, injected as a function `Remote` from a ticker and a window to `FetchFailed` or `Rows(bars)`;
  - calendar arithmetic;
  - facts about date sequences.
- `Tickers` (`tickers.dfy`): Python's ordering of `str`, and `sorted` as an insertion sort.
- `ArchiveYahooFinance` and `ArchiveDataTerminal` (`archive_yahoo.dfy`, `archive_terminal.dfy`): the earlier layout.
  - Dates are day numbers.
  - The data directory is a `map` field of the source class.
  - `Sync`, `Update`, `FullHistory` and `RunBatch` are the specification functions the methods are proved against.
- `YahooFinance` and `DataTerminal` (`yahoo.dfy`, `terminal.dfy`): the newer layout.
  - Dates are instants in seconds since the epoch, UTC.
  - A file is a `CsvFile` that records whether it has a Date column.
  - The shared data directory is a `Store` object that every per-ticker source object writes.

The provider's request is recorded in an out-parameter `sent` so that "the provider is called exactly when …" can be stated. Clock readings are parameters: `clock` for the earlier driver and `now` for the newer one.

## Model

| member | source | states |
|---|---|---|
| Common.DayOf | archive/src-20241001/DataTerminal.py:17 | the calendar day of an instant is the one whose 86400 seconds contain it |
| Common.Midnight | src/DataTerminal.py:19-20 | the instant with its time of day dropped: at most the instant, less than a day before it, and a whole number of days |
| Common.MidnightIdempotent | src/DataTerminal.py:19-20 | truncating an instant already at midnight changes nothing |
| Common.Max | archive/src-20241001/data_sources/YahooFinanceSource.py:57 | the latest date is one of the dates and no date exceeds it |
| Common.IncreasingAppend | archive/src-20241001/data_sources/YahooFinanceSource.py:67-68 | appending increasing rows that start after the latest date keeps the dates strictly increasing |
| Common.MaxAppend | archive/src-20241001/data_sources/YahooFinanceSource.py:68 | appending rows never lowers the latest date |
| Tickers.LexLeTotal | archive/src-20241001/DataTerminal.py:52 | any two symbols are ordered one way or the other |
| Tickers.LexLeTransitive | archive/src-20241001/DataTerminal.py:52 | symbol order is transitive |
| Tickers.LexLeAntisymmetric | archive/src-20241001/DataTerminal.py:52 | two symbols each at most the other are equal |
| Tickers.Insert | src/DataTerminal.py:13 | inserting into a sorted list gives a sorted list with exactly one more occurrence of the symbol |
| Tickers.Sort | src/DataTerminal.py:13 | `sorted(tickers)` is in order and a permutation of its input |
| Tickers.SortKeepsDistinct | archive/src-20241001/DataTerminal.py:47-53 | sorting distinct symbols keeps them distinct, so each is dispatched once |
| Tickers.SortIsUnique | archive/src-20241001/DataTerminal.py:52 | every sorted permutation of the tickers is the dispatch order |
| ArchiveYahooFinance.Stamp | archive/src-20241001/data_sources/YahooFinanceSource.py:43 | every returned row carries the ticker, with the date and prices of its bar |
| ArchiveYahooFinance.SyncBehaviour | archive/src-20241001/data_sources/YahooFinanceSource.py:24-99 | provider called iff the ticker is new or its latest date is before yesterday; window (none or latest+1, today); file written iff the answer is non-empty and starts after the latest date, and then it is old ++ new; error only for an empty file; the result is the file afterwards, stamped |
| ArchiveYahooFinance.ResultIsStamped | archive/src-20241001/data_sources/YahooFinanceSource.py:43 | every row of a successful sync has Ticker = the synced ticker |
| ArchiveYahooFinance.OtherTickersUntouched | archive/src-20241001/data_sources/YahooFinanceSource.py:67-99 | a sync writes no file but its own ticker's |
| ArchiveYahooFinance.SyncIsLocal | archive/src-20241001/data_sources/YahooFinanceSource.py:34-41 | a sync depends only on its own ticker's file |
| ArchiveYahooFinance.SyncKeepsStoreWellFormed | archive/src-20241001/data_sources/YahooFinanceSource.py:67-69 | when the accepted answer increases, a sync keeps every file non-empty with strictly increasing dates, leaves the ticker's file with unique dates, and succeeds |
| Common.IncreasingIsDistinct | archive/src-20241001/data_sources/YahooFinanceSource.py:67-69 | strictly increasing dates have no duplicates |
| ArchiveYahooFinance.CoverageNeverRegresses | archive/src-20241001/data_sources/YahooFinanceSource.py:60-79 | the ticker's latest stored date never decreases |
| ArchiveYahooFinance.UpdateReachesLastNewDate | archive/src-20241001/data_sources/YahooFinanceSource.py:67-70 | after an accepted append of increasing rows, the latest stored date is the last new row's, whatever order the stored rows were in |
| ArchiveYahooFinance.MaxAfterAppend | archive/src-20241001/data_sources/YahooFinanceSource.py:67-68 | new dates that increase and start after the old latest date end at the new latest date |
| ArchiveYahooFinance.ResyncIsNoOp | archive/src-20241001/data_sources/YahooFinanceSource.py:60-79 | a second sync against a provider with nothing new (it raises, answers no rows, or answers rows the guard rejects as already up to date) writes nothing and returns the same series |
| ArchiveYahooFinance.YahooFinanceSource.FetchTickerData | archive/src-20241001/data_sources/YahooFinanceSource.py:24-44 | returns `Sync`'s result, sends `Sync`'s request, and the files become those `Sync` writes |
| ArchiveYahooFinance.YahooFinanceSource.UpdateExistingData | archive/src-20241001/data_sources/YahooFinanceSource.py:46-79 | returns, sends and writes what `Update` says of the ticker's stored series |
| ArchiveYahooFinance.YahooFinanceSource.FetchFullHistory | archive/src-20241001/data_sources/YahooFinanceSource.py:81-99 | returns, sends and writes what `FullHistory` says: request with no start up to today, write only non-empty answers, empty series on failure |
| ArchiveDataTerminal.Project | archive/src-20241001/DataTerminal.py:62-64 | one output row per row, in order, with exactly Date, Ticker and Adj Close |
| ArchiveDataTerminal.Dispatch | archive/src-20241001/DataTerminal.py:54-60 | one loop step: the files become what the sync writes; the ticker is either included or logged, and a logged ticker adds no rows |
| ArchiveDataTerminal.EveryTickerAccountedFor | archive/src-20241001/DataTerminal.py:47-60 | included and logged tickers together are the dispatched tickers, counted with multiplicity |
| ArchiveDataTerminal.RowsComeFromIncludedTickers | archive/src-20241001/DataTerminal.py:56-57 | each output row's ticker is an included ticker |
| ArchiveDataTerminal.NoRowFromFailedTicker | archive/src-20241001/DataTerminal.py:58-60 | for distinct tickers no output row belongs to a logged ticker |
| ArchiveDataTerminal.TickersAreIndependent | archive/src-20241001/DataTerminal.py:47-60 | for distinct tickers the rows are what each ticker's sync gives alone against the initial files, so a failure removes only its own rows; tickers outside the batch keep their files |
| ArchiveDataTerminal.EmptyBatchRaisesAsWritten | archive/src-20241001/DataTerminal.py:62-64 | as written, projecting the result of an empty ticker list raises |
| ArchiveDataTerminal.FailedDownloadSpoilsBatchAsWritten | archive/src-20241001/DataTerminal.py:56-64 | a new ticker whose full download raises, batched with an up-to-date ticker: the intended table holds the other ticker's row, while the as-written projection raises for the whole batch |
| ArchiveDataTerminal.AllFailedGivesEmptyTable | archive/src-20241001/DataTerminal.py:47-64 | when every sync raises, the intended result is the empty table, every ticker is logged and no file changes |
| ArchiveDataTerminal.DataTerminal.constructor | archive/src-20241001/DataTerminal.py:11-31 | TODAY is the day of the clock reading, YESTERDAY the day before, both shared with the source object |
| ArchiveDataTerminal.DataTerminal.FetchYFinance | archive/src-20241001/DataTerminal.py:33-64 | the table is the projection of `RunBatch` over the sorted tickers; the logged tickers and the files are that batch's |
| YahooFinance.Stamp | src/YahooFinanceSource.py:36-37 | every downloaded row gets Ticker = the ticker, keeping its date and prices |
| YahooFinance.PersistReadsBack | src/YahooFinanceSource.py:39-46 | a file written with its Date column reads back as the rows written |
| YahooFinance.DroppedIndexIsUnreadable | src/YahooFinanceSource.py:46-66 | a file written as at line 66 has no Date column and cannot be read back |
| YahooFinance.LastWithDateAppend | src/YahooFinanceSource.py:64 | the last row with a date in old ++ new is new's if new has that date, else old's |
| YahooFinance.LastWithDateFound | src/YahooFinanceSource.py:64 | a last row with a date exists iff the date occurs, and it has that date |
| YahooFinance.DedupKeepsDates | src/YahooFinanceSource.py:64 | the filter keeps exactly the dates of its input |
| YahooFinance.DedupIsDistinct | src/YahooFinanceSource.py:64 | after the filter each date appears once |
| YahooFinance.DedupKeepsLastOccurrence | src/YahooFinanceSource.py:64 | the row kept for a date is its last occurrence (`keep="last"`) |
| YahooFinance.DedupIsSubsequence | src/YahooFinanceSource.py:64 | the kept rows are a subsequence of the input, as values; nothing is sorted |
| YahooFinance.DedupPositions | src/YahooFinanceSource.py:64 | by position: the k-th kept row is the input row at an increasing index, each the last with its date, so kept rows stay in input order even when a row recurs verbatim |
| YahooFinance.DedupIdempotent | src/YahooFinanceSource.py:64 | a series with unique dates passes the filter unchanged |
| YahooFinance.LastRowKept | src/YahooFinanceSource.py:64 | the last row always survives the filter |
| YahooFinance.MergeDates | src/YahooFinanceSource.py:62-64 | after the merge each date appears once and the dates are the union of old and new dates |
| YahooFinance.MergeNewRowsWin | src/YahooFinanceSource.py:62-64 | on a date in both, the downloaded row is kept; a date only in the old series keeps its old row |
| YahooFinance.MergeIsStamped | src/YahooFinanceSource.py:62-64 | with the new rows stamped, every merged row carries the ticker |
| YahooFinance.MergeAsWrittenLosesTicker | src/YahooFinanceSource.py:62-64 | as written, the last downloaded row is kept with an empty Ticker cell |
| YahooFinance.Update | src/YahooFinanceSource.py:42-67 | provider called iff the file reads back with rows; window (latest + 1 day, midnight of now); written iff the answer has rows; empty answer returns the old series; failure raises; the written file reads back as the merge returned; with no request it raises (no Date column, or no latest date) |
| YahooFinance.Download | src/YahooFinanceSource.py:28-40 | raises iff the full-history request raises; otherwise the rows have the answer's dates, all carry the ticker and keep their prices |
| YahooFinance.RedownloadCanShrinkCoverage | src/YahooFinanceSource.py:18-39 | re-downloading replaces the file outright, so an empty answer empties a file that held rows |
| YahooFinance.YahooFinanceSource.FetchTicker | src/YahooFinanceSource.py:15-26 | with or without a local file, sends the full-history request and returns and writes what `Download` gives |
| YahooFinance.YahooFinanceSource.DownloadNewData | src/YahooFinanceSource.py:28-40 | sends the full-history request up to now, returns `Download`'s result, and replaces the ticker's file on success |
| YahooFinance.YahooFinanceSource.UpdateExistingData | src/YahooFinanceSource.py:42-67 | returns, sends and writes what `Update` says of the ticker's file |
| DataTerminal.NormalizeDates | src/DataTerminal.py:19-20 | same rows in the same order, ticker and prices unchanged, each date truncated to midnight of its UTC day |
| DataTerminal.NormalizeIdempotent | src/DataTerminal.py:19-20 | normalising twice equals normalising once |
| DataTerminal.ConcatenationAppend | src/DataTerminal.py:16 | concatenating one more ticker appends its rows at the end |
| DataTerminal.CollectIsConcatenation | src/DataTerminal.py:13-16 | the loop aborts iff some ticker's download raises; otherwise it returns the tickers' rows concatenated in order |
| DataTerminal.ConcatenationLength | src/DataTerminal.py:16 | the concatenation has the sum of the per-ticker row counts |
| DataTerminal.RowCountIsSum | src/DataTerminal.py:13-16 | a completed batch has as many rows as the tickers contributed together |
| DataTerminal.RowsAreStamped | src/DataTerminal.py:13-16 | every row carries one of the batch's tickers |
| DataTerminal.CollectFiles | src/DataTerminal.py:13-16 | tickers outside the batch keep their files; after a completed batch each ticker's file holds its download |
| DataTerminal.AbortIsFinal | src/DataTerminal.py:13-14 | once a ticker has failed, the remaining tickers change nothing |
| DataTerminal.AbortKeepsEarlierWrites | src/DataTerminal.py:13-14 | at the first failure the batch raises and keeps the files written by the tickers before it |
| DataTerminal.FetchDataIsSortedConcatenation | src/DataTerminal.py:10-22 | raises iff some requested ticker fails; otherwise the rows of all tickers in sorted order, dates normalised |
| DataTerminal.EmptyTickersRaiseAsWritten | src/DataTerminal.py:19 | for no tickers the code as written raises, the intended fetch returns an empty table and writes nothing |
| DataTerminal.AsWrittenAgreesOnTickers | src/DataTerminal.py:10-22 | for a non-empty ticker list the code as written and the intended fetch agree |
| DataTerminal.DataTerminal.FetchData | src/DataTerminal.py:10-22 | the table and the files are those of `FetchDataSpec`: the sorted batch, aborted at the first failure, dates normalised |

## Left out

- File I/O, CSV parsing and formatting, `parse_dates`, `os.path.exists` and `os.makedirs`. The data directory is a map from ticker to the file's rows. A corrupt file, a failed write and a non-atomic write are not modelled.
- Logging (`logging_utils.py`, `self.logger`, `print`). It has no effect on the data.
- `yf.download` and the wrapping in `fetch_data` (archive lines 101-116). These are the injected `Remote`. A raising call is `FetchFailed`, whatever its cause.
- ArchiveDataTerminal.DataTerminal.FetchYFinance: rows are concatenated in sorted submission order. `ThreadPoolExecutor` and `as_completed` concatenate in completion order, which is nondeterministic; concurrency is not modelled. The loop submits a repeated ticker twice, and those two syncs would run concurrently on one file; the model runs them one after the other, and `NoRowFromFailedTicker` and `TickersAreIndependent` assume each ticker is submitted once (`DistinctTickers`).
- The clock. The earlier driver reads `datetime.today()` once, in local time; the model's `clock` is that local reading, and `DayOf` takes its day. The newer layout reads `pd.Timestamp.today()` once per ticker, also in local time; the model passes one instant `now` to every ticker.
- Prices are opaque integers and never computed with. Floating point does not matter to the cache.
- The Date index versus Date column distinction in the frames returned to callers. Only the written file records whether it has a Date column.
- ArchiveDataTerminal.ProjectAsWritten: models the two ways the index loses its name Date: no sync returned, or a new ticker's full download raised and its bare stamped frame was concatenated (`BareFrame`). An empty answer to a full-history request (`Rows([])`) is taken to keep the Date index; what `yf.download` returns then, and how `pd.concat` names the index of such frames, is not modelled.
- The empty-local-series case (a file with a header and no rows). It is modelled as an error (`NoLatestDate`): in the earlier layout formatting the missing latest date raises (archive line 58), and in the newer layout the update has no date to start from.
- `src/streamlit_app.py`, `archive/streamlit_app-20241110_1930.py` and `DataSource.py`. These are the user interface and an interface without logic.
- YahooFinance.Merge: the merged rows are not sorted by date. The code (src/YahooFinanceSource.py:62-64) has no sort, and `YahooFinance.DedupPositions` states that kept rows stay in concatenation order, by position.

## Findings

| source | as written | input that shows it | evidently intended | confidence | as-written member | corrected member |
|---|---|---|---|---|---|---|
| src/YahooFinanceSource.py:66 | `to_csv(index=False)` on a frame indexed by Date writes no Date column | any update whose download returns rows | write the Date column, so the file reads back with `index_col="Date"` | high, not executed | YahooFinance.PersistDroppingIndex, exhibited by YahooFinance.DroppedIndexIsUnreadable | YahooFinance.Persist, used by YahooFinance.Update, with YahooFinance.PersistReadsBack |
| src/YahooFinanceSource.py:62 | the downloaded rows are concatenated without a Ticker column | any update whose download returns at least one row | stamp the new rows with the ticker as `_download_new_data` does | high, not executed | YahooFinance.MergeAsWritten, exhibited by YahooFinance.MergeAsWrittenLosesTicker | YahooFinance.Merge, with YahooFinance.MergeIsStamped |
| archive/src-20241001/DataTerminal.py:62-64 | selecting Date, Ticker and Adj Close raises KeyError when the index of `df_return` is not named Date: nothing was concatenated to it, or the bare frame of a failed full download was | `tickers = []`; every sync raises; or a batch containing a new ticker whose full download raises, alongside any ticker with rows | return the rows of the tickers that synced, an empty table when none did | medium, not executed | ArchiveDataTerminal.ProjectAsWritten, exhibited by ArchiveDataTerminal.EmptyBatchRaisesAsWritten and ArchiveDataTerminal.FailedDownloadSpoilsBatchAsWritten | ArchiveDataTerminal.Project, used by ArchiveDataTerminal.DataTerminal.FetchYFinance, with ArchiveDataTerminal.AllFailedGivesEmptyTable |
| src/DataTerminal.py:19 | `df_return['Date']` on the initial empty frame raises KeyError | `tickers = []` | return an empty table | medium, not executed | DataTerminal.FetchDataAsWritten, exhibited by DataTerminal.EmptyTickersRaiseAsWritten | DataTerminal.FetchDataSpec, used by DataTerminal.DataTerminal.FetchData, with DataTerminal.FetchDataIsSortedConcatenation |
