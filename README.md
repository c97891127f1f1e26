# Tiingo bundle ingestion and the PSQL fundamentals loader, in Dafny

This project models two parts of zipline-trader.

- **Tiingo daily-bar bundle** (`zipline/data/bundles/tiingo_api.py`):
  - how symbols get sids (`asset_to_sid_map`);
  - how equity metadata is derived and duplicate tickers are handled (`tiingo_metadata`);
  - how vendor bars are reconciled with the trading calendar (`fill_daily_gaps`, `drop_extra_sessions`);
  - the per-symbol loop of `_pricing_iter`, which appends each symbol's splits and dividends to the shared adjustment tables and records `sids_written`.
- **Point-in-time fundamentals loader** (`zipline/pipeline/loaders/psql_fundamentals.py`):
  - the column cache;
  - the forward-filled date-by-id matrix built from the `fundamentals` table;
  - the as-of reindex and sid projection of `_load_column`;
  - `load_adjusted_array`, which shifts query dates back one session and returns one adjustment-free array per column.

## Conventions

- Dates are day numbers counted from 1970-01-01. 2000-01-01 is 10957 (`Calendar.PricingStart`) and 1800-01-01 is -62091 (`Calendar.UnknownDate`).
- The NYSE calendar is a parameter: a strictly increasing sequence of session days. `sessions_in_range` is `Calendar.SessionsInRange` and `get_loc` is `Calendar.IndexOf`.
- A pandas NaN/NaT cell is `None` of an `Option`. A comparison such as `split != 1.0` is therefore true for NaN, as in pandas.

## Files

| File | Contents |
|---|---|
| `wrappers.dfy` | `Option` |
| `calendar.dfy` | sessions, `sessions_in_range`, `get_loc` |
| `sid_assignment.dfy` | `asset_to_sid_map` as an imperative method |
| `ticker_metadata.dfy` | `tiingo_metadata`: filter, duplicates, sids, first_traded, auto_close_date |
| `session_reconciler.dfy` | `fill_daily_gaps` and `drop_extra_sessions` on an in-place `Frame` class, with their specification functions |
| `corporate_actions.dfy` | `_pricing_iter`: split and dividend tables and the loop; the classes `DivsSplits` and `SidList` hold the state it appends to |
| `fundamentals_loader.dfy` | `PSQLFundamentalsLoader` with its `colCache` map and the pure matrix functions |

## Behaviour of the code that the model keeps

The model keeps these behaviours of the code:

- **Row-count fast path.** `fill_daily_gaps` and `drop_extra_sessions` return a frame unchanged when its row count equals the number of sessions between its first and last date (`tiingo_api.py:266`, `tiingo_api.py:293`). A series with one missing session and one extra non-session row passes both steps unchanged, so it is not aligned to the sessions.
  - `SessionReconciler.FastPathKeepsMisalignedSeries` shows such a series.
  - `SessionReconciler.ReconciledMatchesSessions` proves alignment whenever the fast path is not misled.
- **Failed fetch.** A failed price fetch is caught, but the loop still appends the sid to `sids_written` and yields the frame of the previous symbol, which is stale.
  - If no frame was bound yet, `yield sid, df` raises `UnboundLocalError` and the generator ends.
  - An unmapped symbol (`assets_to_sids[symbol]`, outside the `try`) also ends it.
- **Pay-date lookup.** A pay-date lookup that falls outside the sessions drops every dividend row of that symbol, not just the bad row. The symbol's split rows are still appended.
- **Boundary gaps.** A gap with no earlier close stays NaN. No error is raised.
- **Unknown column.** The model answers an unknown column (a query with no rows) with missing values. What pandas does on an empty query result is not modelled (see `PsqlFundamentals.LoadFromSql` under "## Left out").
- **Ticker seen three or more times.** Every extra occurrence is re-fetched with the same ticker, so the metadata frame gets several rows for that ticker, all sharing one sid.

## Model

| member | source | states |
|---|---|---|
| Calendar.SessionsInRange | zipline/data/bundles/tiingo_api.py:177 | a session is in the result iff it is a calendar session within [lo, hi]; the result stays strictly increasing |
| Calendar.IndexOf | zipline/data/bundles/tiingo_api.py:229 | `get_loc` finds a position holding the day; it fails (KeyError) iff the day is not a session |
| Calendar.IndexOfIncreasing | zipline/data/bundles/tiingo_api.py:229 | in a strictly increasing session index, `get_loc` returns the one position of that session |
| TiingoSids.FreshSidsDistinct | zipline/data/bundles/tiingo_api.py:93-100 | the fresh sid handed out at an earlier miss is smaller than one handed out later, and every registered sid is below every fresh one |
| TiingoSids.LookupSids | zipline/data/bundles/tiingo_api.py:92-102 | with a finder, the keys are exactly the symbols; a known symbol keeps its registered sid and a miss takes get_max_sid()+1 plus the number of earlier misses, the last occurrence of a symbol winning; every fresh sid exceeds get_max_sid() and no two coincide |
| TiingoSids.EnumerateSids | zipline/data/bundles/tiingo_api.py:104-107 | without a finder, the keys are exactly the symbols, the last occurrence of a symbol at position i gives it sid i, and distinct symbols get distinct sids |
| TiingoSids.Misses | zipline/data/bundles/tiingo_api.py:93-100 | no contract; defines the number of symbols the finder does not know among the first i |
| TiingoSids.FreshSid | zipline/data/bundles/tiingo_api.py:93-100 | no contract; defines `next_free_sid` after the first i symbols: get_max_sid()+1 plus the misses so far |
| TiingoSids.Expected | zipline/data/bundles/tiingo_api.py:94-100 | no contract; defines the sid of the symbol at position i: its registered sid, else the fresh sid |
| TiingoSids.AssignedSids | zipline/data/bundles/tiingo_api.py:89-107 | no contract; defines what the returned dict promises, as listed for AssetToSidMap |
| TiingoSids.AssetToSidMap | zipline/data/bundles/tiingo_api.py:89-107 | the keys are exactly the input symbols; without a finder the last occurrence of a symbol at position i gets sid i and sids are distinct; with a finder a known symbol keeps its registered sid, a miss gets get_max_sid()+1 plus the number of earlier misses, and fresh sids exceed get_max_sid() and are pairwise distinct |
| TiingoMetadata.Eligible | zipline/data/bundles/tiingo_api.py:112-118 | no contract; defines the row filter: exchange NYSE or NASDAQ, assetType Stock, and the ticker among `tickers` unless it is 'ALL' |
| TiingoMetadata.ListingComplete | zipline/data/bundles/tiingo_api.py:122 | no contract; defines which listings the first `dropna()` keeps: price currency, start and end date all present |
| TiingoMetadata.RowComplete | zipline/data/bundles/tiingo_api.py:150 | no contract; defines which rows the second `dropna()` keeps: start and end date present |
| TiingoMetadata.Selected | zipline/data/bundles/tiingo_api.py:110-122 | the filtered rows all have both dates present, and there are never more rows than listings |
| TiingoMetadata.SelectedMembers | zipline/data/bundles/tiingo_api.py:110-122 | a row is selected iff some NYSE/NASDAQ stock listing (among the requested tickers unless 'ALL') with no missing cell projects to it |
| TiingoMetadata.Duplicates | zipline/data/bundles/tiingo_api.py:127 | no contract; defines `duplicated(subset=['ticker'])`: the rows whose ticker occurs earlier |
| TiingoMetadata.FirstOccurrences | zipline/data/bundles/tiingo_api.py:128 | no contract; defines `drop_duplicates(subset=['ticker'])`: the first row of each ticker |
| TiingoMetadata.WithoutTickers | zipline/data/bundles/tiingo_api.py:129 | no contract; defines the `~isin(...)` filter: the rows whose ticker is not in the set |
| TiingoMetadata.Primary | zipline/data/bundles/tiingo_api.py:127-129 | no contract; defines the first occurrences of the tickers that are not duplicated |
| TiingoMetadata.Refetch | zipline/data/bundles/tiingo_api.py:140-144 | no contract; defines the row built from `get_ticker_metadata(ticker)`: its ticker, exchangeCode as exchange, start and end date |
| TiingoMetadata.Refetched | zipline/data/bundles/tiingo_api.py:133-145 | no contract; defines `ex_duplicates`: one row from the vendor's metadata per duplicate row, in order |
| TiingoMetadata.MetadataRows | zipline/data/bundles/tiingo_api.py:110-152 | no contract; defines the frame before the sid column: primary rows then re-fetched rows, after the second `dropna` |
| TiingoMetadata.Symbols | zipline/data/bundles/tiingo_api.py:161 | no contract; defines `tickers_df['symbol'].values`: the ticker of each row, in row order |
| TiingoMetadata.ToEquity | zipline/data/bundles/tiingo_api.py:163-168 | no contract; defines a metadata row: the sid, first_traded = start_date, auto_close_date = end_date + 1 day |
| TiingoMetadata.DropIncomplete | zipline/data/bundles/tiingo_api.py:150 | the second `dropna` keeps exactly the rows that have both dates |
| TiingoMetadata.CountPositive | zipline/data/bundles/tiingo_api.py:127 | a ticker is counted at least once iff some row carries it |
| TiingoMetadata.DuplicatesPerTicker | zipline/data/bundles/tiingo_api.py:127 | `duplicated(subset=['ticker'])` holds one row per extra occurrence of a ticker: count minus one, or none |
| TiingoMetadata.PrimaryIsSingletons | zipline/data/bundles/tiingo_api.py:127-129 | after `drop_duplicates` and the `isin(duplicates)` filter, a row remains iff its ticker occurs exactly once |
| TiingoMetadata.RefetchDuplicates | zipline/data/bundles/tiingo_api.py:133-145 | the loop yields one row per duplicate row, in order, built from the vendor's metadata for that ticker |
| TiingoMetadata.TiingoMetadata | zipline/data/bundles/tiingo_api.py:109-170 | one equity per row of the primary rows followed by one re-fetched row per duplicate, without rows missing a date; each has its symbol's sid from `asset_to_sid_map`, first_traded = start_date and auto_close_date = end_date + 1 day; the sid map carries every guarantee of `asset_to_sid_map` over the frame's symbol column, and its keys are the returned tickers |
| SessionReconciler.RangeSessions | zipline/data/bundles/tiingo_api.py:264 | no contract; defines `cal.sessions_in_range(df.index[0], df.index[-1])`, the sessions between the frame's first and last date (also line 291) |
| SessionReconciler.Difference | zipline/data/bundles/tiingo_api.py:269 | `sessions.difference(index)` holds exactly the sessions absent from the index, in increasing order |
| SessionReconciler.Blank | zipline/data/bundles/tiingo_api.py:273 | no contract; defines a row of `DataFrame(index=to_fill)`: that date, every cell NaN |
| SessionReconciler.Blanks | zipline/data/bundles/tiingo_api.py:273 | no contract; defines `DataFrame(index=to_fill)`: one blank row per day to fill, in order |
| SessionReconciler.BlanksFacts | zipline/data/bundles/tiingo_api.py:273 | the appended frame `DataFrame(index=to_fill)` is all-NaN rows dated on the days to fill, in order |
| SessionReconciler.Merge | zipline/data/bundles/tiingo_api.py:273 | the merged frame has as many rows as the two frames together |
| SessionReconciler.MergeMembers | zipline/data/bundles/tiingo_api.py:273 | `append(...).sort_index()` keeps every row of both frames and no other |
| SessionReconciler.MergeFacts | zipline/data/bundles/tiingo_api.py:273 | merging two ascending frames with disjoint dates gives an ascending frame |
| SessionReconciler.MergedMembers | zipline/data/bundles/tiingo_api.py:269-273 | every row of the merged frame is an original row or an all-NaN row dated on a day to fill |
| SessionReconciler.FilledFrameIndex | zipline/data/bundles/tiingo_api.py:269-282 | after the fills, the slow-path frame is ascending, keeps the first and last date, and is dated on exactly the original dates and the sessions |
| SessionReconciler.FfillClose | zipline/data/bundles/tiingo_api.py:276 | no contract; defines the close after `close.fillna(method='ffill')`: its own close, else the filled close before it, else NaN |
| SessionReconciler.OrElse | zipline/data/bundles/tiingo_api.py:277-282 | no contract; defines `fillna(v)` on one cell: the cell if present, else v |
| SessionReconciler.FilledRow | zipline/data/bundles/tiingo_api.py:277-282 | no contract; defines a row after the remaining `fillna` calls: dividend 0, split 1, volume 0, open/high/low from the filled close |
| SessionReconciler.ForwardFilled | zipline/data/bundles/tiingo_api.py:276-282 | no contract; defines the frame after the seven `fillna` calls, row by row |
| SessionReconciler.FillFastPath | zipline/data/bundles/tiingo_api.py:264-271 | no contract; defines when `fill_daily_gaps` returns early: the row count equals the session count, or `to_fill` is empty |
| SessionReconciler.FillDailyGapsSpec | zipline/data/bundles/tiingo_api.py:250-287 | the result of `fill_daily_gaps` is never shorter than its input |
| SessionReconciler.FillDailyGapsIndex | zipline/data/bundles/tiingo_api.py:264-273 | the result is ascending with the same first and last date; it is the input itself on a row-count match and whenever no session is missing, and otherwise its dates are the original dates together with every session between them |
| SessionReconciler.NoMissingSessionUnchanged | zipline/data/bundles/tiingo_api.py:269-271 | when every session between the first and last date is already present, the frame is returned as it is |
| SessionReconciler.FillDailyGapsInserted | zipline/data/bundles/tiingo_api.py:273-282 | an inserted row has dividend 0, split 1, volume 0, the close of the row before it, and open/high/low equal to that close |
| SessionReconciler.FillDailyGapsKeeps | zipline/data/bundles/tiingo_api.py:273-282 | a value present in an original row is never changed |
| SessionReconciler.Frame.constructor | zipline/data/bundles/tiingo_api.py:188 | a new frame holds exactly the given rows (also the frame built at line 273) |
| SessionReconciler.Frame.FillNa | zipline/data/bundles/tiingo_api.py:276-282 | the in-place `fillna` calls leave every row forward-filled as specified |
| SessionReconciler.FillDailyGaps | zipline/data/bundles/tiingo_api.py:250-287 | holds the specified rows; returns the same frame exactly on the row-count fast path or when no session is missing, otherwise a newly allocated frame |
| SessionReconciler.DropExtraSessionsSpec | zipline/data/bundles/tiingo_api.py:289-305 | no contract; defines what `drop_extra_sessions` returns, both fast paths included |
| SessionReconciler.Reconciled | zipline/data/bundles/tiingo_api.py:204-205 | no contract; defines `fill_daily_gaps` followed by `drop_extra_sessions` |
| SessionReconciler.KeepSessions | zipline/data/bundles/tiingo_api.py:300 | `df.drop(to_drop)` keeps exactly the rows dated on a session, and an ascending frame stays ascending |
| SessionReconciler.DropExtraSessionsRows | zipline/data/bundles/tiingo_api.py:289-305 | the result is ascending; it is the input on a row-count match, and otherwise holds exactly the input rows dated on a session |
| SessionReconciler.DropExtraSessions | zipline/data/bundles/tiingo_api.py:289-305 | the frame is changed in place to the specified rows |
| SessionReconciler.ReconciledMatchesSessions | zipline/data/bundles/tiingo_api.py:204-205 | unless the row-count fast path is misled, fill then drop leaves exactly one row per session between the first and last date |
| SessionReconciler.ReconcileIdempotent | zipline/data/bundles/tiingo_api.py:264-300 | a series already dated on exactly its sessions is returned unchanged by fill then drop |
| SessionReconciler.FastPathKeepsMisalignedSeries | zipline/data/bundles/tiingo_api.py:264-300 | with sessions 10, 12, 14 and bars dated 10, 11, 14, both steps return the bars unchanged and the result is not dated on the sessions |
| TiingoPricing.PricingSessions | zipline/data/bundles/tiingo_api.py:173-177 | the sessions from 2000-01-01 to 20 days after today |
| TiingoPricing.Ratio | zipline/data/bundles/tiingo_api.py:208 | the ratio is the reciprocal of the split (ratio × split = 1, same sign), absent exactly for a NaN or zero split |
| TiingoPricing.SplitDays | zipline/data/bundles/tiingo_api.py:208 | the rows kept are exactly those whose split is not 1 (NaN included), in frame order |
| TiingoPricing.DividendDays | zipline/data/bundles/tiingo_api.py:222 | the rows kept are exactly those whose dividend is not 0 (NaN included), in frame order |
| TiingoPricing.SplitTable | zipline/data/bundles/tiingo_api.py:207-217 | one split row per split day |
| TiingoPricing.SplitTableSound | zipline/data/bundles/tiingo_api.py:207-217 | every split row is (base + i, the row's date, 1/split, sid) for a row with split not 1 |
| TiingoPricing.SplitTableComplete | zipline/data/bundles/tiingo_api.py:207-217 | every row with split not 1 has its split row (base + i, date, 1/split, sid) |
| TiingoPricing.PayDate | zipline/data/bundles/tiingo_api.py:229 | a pay date exists only for a session ex-date and is the session 10 positions later |
| TiingoPricing.PayDateOfSession | zipline/data/bundles/tiingo_api.py:229 | for the session at position k the pay date is the session at k + 10, and there is none within the last 10 sessions |
| TiingoPricing.DividendTable | zipline/data/bundles/tiingo_api.py:220-238 | the table exists iff every dividend day has a pay date, and then has one row per dividend day |
| TiingoPricing.DividendRowFacts | zipline/data/bundles/tiingo_api.py:222-236 | row i is (base + i, ex-date of the i-th dividend day, 1800-01-01, 1800-01-01, the session 10 later, its amount, sid) |
| TiingoPricing.DividendTableSound | zipline/data/bundles/tiingo_api.py:220-238 | every dividend row has a continued index, the sid, record and declared date 1800-01-01, a pay date 10 sessions after (so later than) its ex-date, and the date and amount of a row with dividend not 0 |
| TiingoPricing.DividendTableComplete | zipline/data/bundles/tiingo_api.py:220-238 | every row with dividend not 0 yields a dividend row with its date and amount |
| TiingoPricing.DividendTableFails | zipline/data/bundles/tiingo_api.py:229 | one dividend on a non-session day or within the last 10 sessions makes the whole symbol's dividend table fail |
| TiingoPricing.Start | zipline/data/bundles/tiingo_api.py:172-184 | no contract; defines the state when the loop starts: the caller's tables and `sids_written`, nothing yielded, `df` unbound, no exception |
| TiingoPricing.Step | zipline/data/bundles/tiingo_api.py:184-248 | no contract; defines one pass of the loop body: a crash on an unmapped symbol, the stale or missing frame on a failed fetch, `continue` on an empty frame, else Appended |
| TiingoPricing.Appended | zipline/data/bundles/tiingo_api.py:207-248 | no contract; defines the tail of the loop body: splits appended, dividends appended unless a pay-date lookup raises, sid written, pair yielded |
| TiingoPricing.Run | zipline/data/bundles/tiingo_api.py:184-248 | no contract; defines the loop over a prefix of the symbols |
| TiingoPricing.StepAppends | zipline/data/bundles/tiingo_api.py:214-238 | one symbol only appends to the tables, `sids_written` and the yielded pairs, and appended rows continue the index from the table size |
| TiingoPricing.RunAppends | zipline/data/bundles/tiingo_api.py:184-248 | the whole loop only appends, and keeps each table row's index equal to its position |
| TiingoPricing.CrashAbsorbs | zipline/data/bundles/tiingo_api.py:184-185 | after an exception escapes the generator, later symbols change nothing |
| TiingoPricing.RunSidsWritten | zipline/data/bundles/tiingo_api.py:247-248 | `sids_written` is the caller's list followed by the sid of each yielded pair, with at most one extra sid when the generator ended on an exception |
| TiingoPricing.PayDateFailureKeepsSplits | zipline/data/bundles/tiingo_api.py:207-245 | when a pay-date lookup raises, no dividend row is appended, but the splits, the sid and the yielded frame still are |
| TiingoPricing.FailedFetchYieldsStaleFrame | zipline/data/bundles/tiingo_api.py:187-248 | a symbol whose fetch fails after a successful one is written with the previous symbol's frame |
| TiingoPricing.FailureWithoutFrame | zipline/data/bundles/tiingo_api.py:195-248 | a first failing fetch appends its sid and then ends the generator; after an empty fetch, a failure yields the empty frame |
| TiingoPricing.SampleBarsReconciled | zipline/data/bundles/tiingo_api.py:204-205 | for the sample calendar 10, 11, 12 and three sample bars dated on those sessions, reconciliation returns the bars unchanged |
| TiingoPricing.SampleBarsTables | zipline/data/bundles/tiingo_api.py:207-238 | bars with split 1 and dividend 0 give no split rows and an empty dividend table |
| TiingoPricing.DivsSplits.constructor | zipline/data/bundles/tiingo_api.py:62-66 | both tables start empty |
| TiingoPricing.SidList.constructor | zipline/data/bundles/tiingo_api.py:69 | `sids_written` starts empty |
| TiingoPricing.PricingStep | zipline/data/bundles/tiingo_api.py:184-248 | one pass of the loop body changes the live tables, `sids_written`, the yielded pairs and `df` exactly as one step of the specification does |
| TiingoPricing.PricingIter | zipline/data/bundles/tiingo_api.py:172-248 | the loop leaves the tables, `sids_written`, the yielded pairs and the crash flag as the step-by-step specification says, using the in-place fill and drop methods |
| PsqlFundamentals.DistinctDates | zipline/pipeline/loaders/psql_fundamentals.py:26 | the unstacked index holds exactly the dates that occur in the rows, strictly increasing for ordered rows |
| PsqlFundamentals.RawAt | zipline/pipeline/loaders/psql_fundamentals.py:26 | an unstacked cell holds a value only if a row for that date and id carries it |
| PsqlFundamentals.Latest | zipline/pipeline/loaders/psql_fundamentals.py:26 | the latest known value as of a day is a value some row of that id, dated on or before the day, carries |
| PsqlFundamentals.Cell | zipline/pipeline/loaders/psql_fundamentals.py:37-39 | no contract; defines a cell of an unstacked row: the id's value, or NaN (None) when the row has none for it |
| PsqlFundamentals.RawRow | zipline/pipeline/loaders/psql_fundamentals.py:26 | no contract; defines one row of `unstack()`: the id-to-value map of that date |
| PsqlFundamentals.FfillRow | zipline/pipeline/loaders/psql_fundamentals.py:26 | no contract; defines row k of `unstack().ffill()`: the raw row over the filled row before it |
| PsqlFundamentals.LoadFromSql | zipline/pipeline/loaders/psql_fundamentals.py:17-26 | the cache entry has one row per distinct date |
| PsqlFundamentals.LastAtOrBefore | zipline/pipeline/loaders/psql_fundamentals.py:34 | `reindex(method='ffill')` uses the last date on or before the query day, and none when all dates are later |
| PsqlFundamentals.RowAsOf | zipline/pipeline/loaders/psql_fundamentals.py:34 | no contract; defines the reindexed row for a day: the row of the last date on or before it, empty before the first |
| PsqlFundamentals.LoadColumnSpec | zipline/pipeline/loaders/psql_fundamentals.py:34-39 | the answer has one row per query date and one column per requested sid |
| PsqlFundamentals.CellRawRow | zipline/pipeline/loaders/psql_fundamentals.py:26 | an unstacked row holds exactly the non-NaN values dated on its day |
| PsqlFundamentals.LatestStable | zipline/pipeline/loaders/psql_fundamentals.py:34 | with no row dated in (lo, hi], the latest values as of lo and hi agree |
| PsqlFundamentals.LatestAtNextDate | zipline/pipeline/loaders/psql_fundamentals.py:26 | between consecutive dates, the latest value is the value dated on the later date if any, else the earlier latest value |
| PsqlFundamentals.FfillIsLatestOn | zipline/pipeline/loaders/psql_fundamentals.py:26 | forward filling along an index covering every row's date puts the latest known value in each cell |
| PsqlFundamentals.FfillIsLatest | zipline/pipeline/loaders/psql_fundamentals.py:26 | every cell of `unstack().ffill()` is the latest non-NaN value of its id as of its date |
| PsqlFundamentals.AsOfIsLatest | zipline/pipeline/loaders/psql_fundamentals.py:34 | the reindexed row for any day holds the latest value as of that day, nothing before the first cached date |
| PsqlFundamentals.LoadColumnIsLatest | zipline/pipeline/loaders/psql_fundamentals.py:28-39 | cell (i, j) of `_load_column` is the latest value of sid j as of query date i |
| PsqlFundamentals.MissingWithoutEarlierValue | zipline/pipeline/loaders/psql_fundamentals.py:34-39 | a sid with no value on or before a query date (an unknown sid, or a date before the first row) is missing there |
| PsqlFundamentals.Upto | zipline/pipeline/loaders/psql_fundamentals.py:18-19 | the table as of day c: exactly the rows dated on or before c, still in order |
| PsqlFundamentals.LatestUpto | zipline/pipeline/loaders/psql_fundamentals.py:34 | rows dated after the query day do not affect the latest value |
| PsqlFundamentals.RowIgnoresLaterRows | zipline/pipeline/loaders/psql_fundamentals.py:34-39 | the answer row for a query day is the same if the table holds only the rows up to that day |
| PsqlFundamentals.ShiftDates | zipline/pipeline/loaders/psql_fundamentals.py:48 | the shift succeeds only for start and end sessions, the start not the first session |
| PsqlFundamentals.ShiftedSessionPrecedes | zipline/pipeline/loaders/psql_fundamentals.py:47-48 | for consecutive query sessions the shifted dates are as many, each the session just before its query date |
| PsqlFundamentals.NoLookahead | zipline/pipeline/loaders/psql_fundamentals.py:41-48 | the value shown for session N is what the table's rows dated before N alone give |
| PsqlFundamentals.PSQLFundamentalsLoader.constructor | zipline/pipeline/loaders/psql_fundamentals.py:13-15 | the cache starts empty |
| PsqlFundamentals.PSQLFundamentalsLoader.LoadColumn | zipline/pipeline/loaders/psql_fundamentals.py:28-39 | a miss loads and keeps the entry, a hit leaves the cache as it was, no entry changes, and the answer is the reindexed, projected entry |
| PsqlFundamentals.ArrayFor | zipline/pipeline/loaders/psql_fundamentals.py:53-58 | no contract; defines the array built for one column: its data as of the shifted dates, no adjustments, its missing value |
| PsqlFundamentals.PSQLFundamentalsLoader.LoadArrays | zipline/pipeline/loaders/psql_fundamentals.py:50-58 | one entry per requested column, each the column's data as of the shifted dates with no adjustments and its missing value; the cache gains the columns' names and keeps every other entry |
| PsqlFundamentals.PSQLFundamentalsLoader.LoadAdjustedArray | zipline/pipeline/loaders/psql_fundamentals.py:41-60 | fails exactly when `dates` is empty or the shift fails, loading nothing; otherwise one entry per requested column, each the column's data as of the shifted dates with no adjustments and the column's missing value, the cache gaining those columns and keeping all others |

## Left out

- Vendor and database I/O are left out: the Tiingo client, the global `CLIENT` and the psycopg2 connection. Fetched data and table rows are parameters (`fetch`, `listings`, `source`). "Raises an exception" is a `FetchFailed` value.
- Progress bars and prints are left out, including the `filled`/`dropped` counts.
- The `KeyboardInterrupt` exit is left out.
- `tiingo_bundle` itself is left out, along with the bundle writers and the `__main__` block. The model only states that `sids_written` lists the yielded sids.
- Column renaming and dropping in pandas (`drop(columns=...)`, `rename`, `droplevel`) and the dtype casts (`astype`) are left out. Bars and triples carry the kept fields.
- The NYSE calendar and `get_calendar` are left out. The calendar is a given strictly increasing sequence.
- `zipline/pipeline/loaders/utils.py` is not part of this model. `PsqlFundamentals.ShiftDates` states the behaviour of `shift_dates(..., shift=1)`: locate start and end, fail when start is the first session, slice one position earlier. Its distinct exception types are collapsed into None.
- SessionReconciler.FillDailyGapsSpec: `append(...).sort_index()` is modelled by `Merge`, which equals the sort only for a frame already in ascending date order. The lemmas about `fill_daily_gaps` require that order (`Ascending`), taking the vendor's bars to arrive sorted by date. `TiingoPricing.Step` reconciles whatever bars are fetched, so for unsorted bars (sessions 10, 12, 14, 16 and bars dated 12, 10, 11, 16) the modelled frame is not the sorted one.
- TiingoMetadata.Refetch: the vendor's `ticker` and `exchangeCode` are taken as always present. A re-fetched row with a missing ticker or exchange, which the second `dropna()` would also remove, is not modelled; only missing dates are.
- TiingoPricing.Ratio: a zero split gives None, where pandas computes an infinite ratio. Floating-point rounding is not modelled: prices and factors are `real`.
- TiingoPricing.PricingIter: the generator is run to its end. A consumer that stops early, and the laziness of `yield`, are not modelled.
- TiingoPricing.PricingIter: the still-untransformed frame that `df` holds if reconciliation itself raises is not modelled, because the model's reconciliation is total.
- TiingoSids.AssetToSidMap: `lookup_symbol(symbol, today)` is a registry map fixed for the run. Symbol history as of a date is not modelled.
- PsqlFundamentals.LoadFromSql: the `ORDER BY date, id` order and the uniqueness of (date, id) are stated as `Ordered`, which the lemmas require. When the query returns no rows, pandas' exact behaviour is not modelled: the model gives missing values.
- PsqlFundamentals.PSQLFundamentalsLoader.LoadAdjustedArray: the `domain` and `mask` arguments are left out. `domain.all_sessions()` is the `sessions` parameter.
- PsqlFundamentals.PSQLFundamentalsLoader.LoadAdjustedArray: duplicate query dates or sids, which make pandas' `reindex`/`unstack` raise, are not modelled.
- PsqlFundamentals.PSQLFundamentalsLoader.LoadAdjustedArray: the result is a map keyed by column. A map repeats no key, like the `out` dict.
- The `currency_aware` property is left out (a constant `False`).
