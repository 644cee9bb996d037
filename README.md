# raw_sync, the materials API and the ref_hid backfill in Dafny

This project models the data pipeline of a stock and bill-of-materials
reporting system and proves properties of the model. The pipeline has three
parts.

The first is `raw_sync`, the ETL engine. It copies the Firebird ERP's BOM
consumption, stock movements, stock master and open orders into the
Postgres `raw` schema. Its parts are:

- windowed full loads, with a backup and restore of `raw_bom_consumption`;
- id-watermark incremental loads;
- the three `core` aggregates kept up to date from the `core.sync_hid_state`
  watermarks;
- the SQL-file runner and its statement splitter;
- the Firebird connection cache and the Postgres connect retry;
- the scheduling loop with its timed jobs, the weekly forecast pipeline and
  its marker file, and the monthly seat refresh.

The second is the read API's query builder (`backend/main.py`): the
whitelisted ORDER BY, the parameterised WHERE of the materials list, the
forecast details and open-orders filters, and the paging arithmetic.

The third is the maintenance tool that back-fills
`raw_stock_movements.ref_hid` from Firebird in chunks, and only where it is
still NULL.

The model follows the modules of the program:

| file | module | what it models |
|---|---|---|
| `wrappers.dfy` | `Wrappers` | `Option` and `Result` |
| `seqs.dfy` | `Seqs` | one sequence fact |
| `text.dfy` | `Text` | the Python string built-ins the code relies on: `strip`, `lower`/`upper` on ASCII, `split`, `int()` and `str()` on naturals |
| `records.dfy` | `Records` | the rows that move between the databases |
| `tables.dfy` | `Tables` | a destination table with a `SERIAL` id, and the batch buffer that is flushed when it reaches `BATCH_SIZE` |
| `sql_script.dfy` | `SqlScript` | `split_sql_statements` and `execute_sql_file` |
| `dates.dfy` | `Dates` | the proleptic Gregorian calendar, `add_months` and `iter_windows` |
| `connections.dfy` | `Connections` | `connect_fb`, the Firebird connection cache, `connect_pg` and `fb_select_all` |
| `backups.dfy` | `Backups` | the BOM backup, its restore and the retention clean-up |
| `full_load.dfy` | `FullLoad` | `full_load_bom`, `full_load_stock` and `full_load_stock_master` |
| `incremental.dfy` | `Incremental` | `incremental_bom`, `incremental_stock`, `fetch_stock_changed_hids` and `refresh_open_orders` |
| `aggregates.dfy` | `Aggregates` | `core.sync_hid_state`, the three incremental aggregate maintainers and `rebuild_bom_unique_materials` |
| `scheduler.dfy` | `Scheduler` | `run_incremental`'s timed jobs, `run_weekly`, `run_monthly_seat` and the weekly and monthly triggers of `main` |
| `materials_api.dfy` | `MaterialsApi` | `build_materials_query`, the forecast-details and open-orders filters, and paging |
| `ref_hid.dfy` | `RefHid` | `update_raw_stock_ref_hid.py` |

The code's own state is kept in classes whose methods change it:

- the module globals `con_fb`, `con_fb_dsn` and `FB_ACTIVE_DSN` are
  `Connections.FirebirdLink`;
- the `LAST_*_RUN` globals and the weekly marker file are `Scheduler.Loop`;
- the destination tables are `Tables.Table`, `Aggregates.CoreDb` and
  `RefHid.MovementTable`;
- a psycopg2 connection's autocommit flag and the actions sent to it are
  `SqlScript.PgSession`.

Where the source loops, the model loops: `split_sql_statements`,
`iter_windows`, the batch loops of the loaders, the retry loops and the
chunk loop of the backfill. Each such method is proved equal to a
recursive specification function, and the properties are proved about that
function.

The Firebird side is an input. A query's outcome is a value of the model,
and `None` or an error stands for a query that raises. The clock,
environment settings, file listings and the forecast command's exit code
are parameters.

## Model

| member | source | states |
|---|---|---|
| `Text.Strip` | etl/raw_sync.py:549-559 | `str.strip()`: the result is empty or starts and ends with a non-blank character |
| `Text.StripSpec` | etl/raw_sync.py:549-559 | what `strip()` keeps is the slice of the input between its leading blanks and its trailing blanks, and it keeps nothing exactly when the input is all blank |
| `Text.StripTrimmed` | etl/raw_sync.py:549-559 | stripping a string with no blank at either end gives it back unchanged |
| `Text.TrimLeft` | etl/raw_sync.py:549 | the left half of `strip()`: the result does not start with a blank |
| `Text.TrimLeftSpec` | etl/raw_sync.py:549 | the left half of `strip()` keeps a suffix of the input and drops only blanks |
| `Text.TrimRight` | etl/raw_sync.py:549 | the right half of `strip()`: the result is a prefix of the input that does not end with a blank |
| `Text.TrimRightSpec` | etl/raw_sync.py:549 | the right half of `strip()` drops only blanks |
| `Text.Lower` | backend/main.py:65-70 | `str.lower()` keeps the length and lower-cases each character |
| `Text.Upper` | etl/raw_sync.py:575-576 | `str.upper()` keeps the length and upper-cases each character |
| `Text.Split` | etl/raw_sync.py:1725 | `str.split(sep)` gives at least one part, and no part contains the separator |
| `Text.SplitNoSep` | etl/raw_sync.py:1725 | a string without the separator splits into itself |
| `Text.SplitAt` | etl/raw_sync.py:1725 | splitting peels off the text before the first separator |
| `Text.JoinSplit` | etl/raw_sync.py:1725 | joining the parts of a split with the separator gives back the string |
| `Text.ParseDigits` | etl/raw_sync.py:421 | a non-empty string of decimal digits reads as its decimal value, and anything else does not read |
| `Text.ParseInt` | etl/raw_sync.py:421-423 | `int()` accepts exactly an optionally signed, non-empty run of decimal digits with blanks around it, and reads it as the digits' value, negated after a minus sign; anything else raises `ValueError` |
| `Text.ParseIntDigits` | etl/raw_sync.py:421 | a bare run of digits reads as its decimal value |
| `Text.ParseIntNegDigits` | etl/raw_sync.py:421 | a minus sign followed by digits reads as the negated value |
| `Text.ShowNat` | etl/raw_sync.py:1725 | `str(n)` of a natural is a non-empty string of digits |
| `Text.DigitsValueShowNat` | etl/raw_sync.py:1725 | the digits `str(n)` writes have the value `n` |
| `Text.ParseIntShowNat` | etl/raw_sync.py:1725 | `int(str(n)) == n` |
| `Text.ParseIntNegShowNat` | etl/raw_sync.py:1725 | `int("-" + str(n)) == -n` |
| `Records.PyStr` | etl/raw_sync.py:981-982 | `str(x)` of a present text value is the value itself |
| `Records.MovementOf` | etl/raw_sync.py:975-989 | a stock movement row takes its ids, material, unit and warehouse from the header and line, and `float(toplam_miktar or 0)` as its quantity (0 when missing) |
| `Records.MovementsOf` | etl/raw_sync.py:974-989 | one movement row per yielded line, in order |
| `Tables.DataOf` | etl/raw_sync.py:814-876 | the inserted columns of the stored rows, one per row and in order |
| `Tables.Numbered` | etl/raw_sync.py:814-876 | an inserted batch becomes rows with consecutive `SERIAL` ids from the sequence's next value |
| `Tables.Cap` | etl/raw_sync.py:931 | the flush threshold is at least 1, and it is `BATCH_SIZE` when that is positive |
| `Tables.Table.constructor` | etl/raw_sync.py:224-392 | a new table is empty and its id sequence starts at 1 |
| `Tables.Table.Truncate` | etl/raw_sync.py:395-398 | `TRUNCATE` empties the table and leaves the id sequence where it was |
| `Tables.Table.InsertBatch` | etl/raw_sync.py:814-876 | an insert helper appends the batch with fresh ids and returns its size, which is 0 for an empty batch |
| `Tables.Table.Push` | etl/raw_sync.py:930-935 | `batch.append(row)` with a flush at `BATCH_SIZE`: table plus buffer grows by the row, and the buffer empties exactly when it reaches the threshold |
| `Tables.Table.PushAll` | etl/raw_sync.py:929-935 | a run of appends and flush checks: table plus buffer grows by the rows, and the buffer stays below the threshold |
| `Tables.Table.Flush` | etl/raw_sync.py:940-944 | the final flush appends what is buffered and returns how many rows it wrote |
| `SqlScript.NextDollar` | etl/raw_sync.py:535-537 | the search for the closing `$` of a tag stops at the first `$` at or after the start, or at the end |
| `SqlScript.Emit` | etl/raw_sync.py:549-551 | a finished buffer yields at most one statement: the stripped buffer, which has no blank at either end |
| `SqlScript.EmitNothing` | etl/raw_sync.py:549-551 | a finished buffer yields no statement exactly when it is all blank |
| `SqlScript.AfterToken` | etl/raw_sync.py:538-544 | a `$tag$` opens a dollar block outside one, and inside one it closes only the identical tag |
| `SqlScript.NextDollarShift` | etl/raw_sync.py:535-537 | searching for `$` in a suffix is searching in the whole text, shifted |
| `SqlScript.ScanTokenFrom` | etl/raw_sync.py:532-547 | the scanner at a `$...$` token buffers the token and moves the dollar state |
| `SqlScript.ScanCharFrom` | etl/raw_sync.py:548-556 | the scanner at any other character either ends a statement at an outside `;` or buffers the character |
| `SqlScript.ScanAtIsScan` | etl/raw_sync.py:524-560 | scanning by index, as the source does, agrees with scanning the rest of the text |
| `SqlScript.FindDollar` | etl/raw_sync.py:535-537 | the `while` loop looking for the closing `$` returns its index, or the length when there is none |
| `SqlScript.ScanStep` | etl/raw_sync.py:531-556 | one pass of the loop body emits a prefix of what the whole scan from that index emits, and moves the index forward |
| `SqlScript.SplitSqlStatements` | etl/raw_sync.py:524-560 | the index scanner returns exactly the statements the recursive specification `Statements` gives |
| `SqlScript.StatementsAreTrimmed` | etl/raw_sync.py:548-560 | every returned statement is non-empty and stripped |
| `SqlScript.ScanPlain` | etl/raw_sync.py:548-556 | text without `$`, and without `;` outside a block, is only buffered |
| `SqlScript.ScanToken` | etl/raw_sync.py:532-547 | a whole `$tag$` token is buffered and moves the dollar state |
| `SqlScript.SemicolonSplits` | etl/raw_sync.py:548-554 | a `;` outside any dollar block ends the statement before it |
| `SqlScript.DollarBlockKeepsSemicolons` | etl/raw_sync.py:530-556 | semicolons inside `$tag$ ... $tag$` stay in one statement, which ends at the first `;` after the closing tag |
| `SqlScript.PgSession.constructor` | etl/raw_sync.py:197-217 | a new connection is in transaction mode and has been sent nothing |
| `SqlScript.PgSession.ExecuteStatement` | etl/raw_sync.py:575-586 | a `REFRESH MATERIALIZED VIEW CONCURRENTLY` is commit, autocommit on, execute, autocommit off; any other statement is executed in the open transaction |
| `SqlScript.PgSession.ExecuteSqlFile` | etl/raw_sync.py:571-587 | the session receives the actions of the split statements up to the first failure, and the final commit only when all succeed; autocommit is off again afterwards |
| `SqlScript.RunActionsFailAt` | etl/raw_sync.py:574-586 | a failing statement is the last thing executed, and the file does not succeed |
| `SqlScript.RunActionsPassAt` | etl/raw_sync.py:574-586 | after a statement that succeeds, the runner goes on with the next |
| `SqlScript.RunActionsModes` | etl/raw_sync.py:576-583 | autocommit is switched on only just before a concurrent refresh and always switched off right after it |
| `SqlScript.RunActionsEnd` | etl/raw_sync.py:575-587 | a file that succeeds ends with a commit; one that fails ends with the failing statement's execute |
| `Dates.DaysInMonth` | etl/raw_sync.py:890-891 | `calendar.monthrange(y, m)[1]` is between 28 and 31 |
| `Dates.Weekday` | etl/raw_sync.py:1729 | `date.weekday()` is between 0 and 6 |
| `Dates.DayNumberMonotone` | etl/raw_sync.py:1739-1743 | a later date has a larger day number, so `datetime` comparisons agree with the calendar |
| `Dates.NextDay` | etl/raw_sync.py:903 | `d + timedelta(days=1)` is a valid, later date |
| `Dates.PrevDay` | etl/raw_sync.py:900 | `d - timedelta(days=1)` is a valid, earlier date whose next day is `d` |
| `Dates.BeforePrevDay` | etl/raw_sync.py:900 | no date lies strictly between the day before `d` and `d` |
| `Dates.NextDayNumber` | etl/raw_sync.py:903 | the next day's number is one more |
| `Dates.AddMonths` | etl/raw_sync.py:887-892 | `add_months` moves exactly `months` calendar months and keeps the day, or clamps it to the last day of a shorter target month |
| `Dates.AddMonthsLater` | etl/raw_sync.py:887-892 | moving forward by at least one month gives a strictly later date |
| `Dates.WindowEnd` | etl/raw_sync.py:899-900 | a window's nominal end is a valid date no earlier than its start |
| `Dates.WindowLast` | etl/raw_sync.py:899-902 | `cur_end` is the nominal end clamped to `end`, and lies between `cur` and `end` |
| `Dates.Windows` | etl/raw_sync.py:895-904 | the windows are empty exactly when `start` is after `end` |
| `Dates.ContiguousCons` | etl/raw_sync.py:903 | a window followed by windows starting on its next day is contiguous |
| `Dates.WellSizedCons` | etl/raw_sync.py:899-902 | a full-size window followed by well-sized windows is well sized |
| `Dates.WindowsCoverFrom` | etl/raw_sync.py:895-904 | from a start no later than `end`, the windows are non-empty, start at the start, end at `end`, are contiguous, and all but the last span exactly `months` months |
| `Dates.WindowsCover` | etl/raw_sync.py:895-904 | `iter_windows` yields nothing when `start > end`, and otherwise contiguous windows from `start` to exactly `end` |
| `Dates.IterWindows` | etl/raw_sync.py:895-904 | the generator's loop yields exactly `Windows(start, end, months)` |
| `Connections.NormalizeFbPath` | etl/raw_sync.py:110-111 | every back slash becomes a forward slash and nothing else changes |
| `Connections.NormalizeFbPathIdempotent` | etl/raw_sync.py:110-111 | normalising twice is normalising once |
| `Connections.ConnStrings` | etl/raw_sync.py:131-136 | `connect_fb` has exactly four connection strings to try |
| `Connections.FirstAcceptedOk` | etl/raw_sync.py:138-154 | a successful connect used the first string the driver accepted, and every string before it failed |
| `Connections.FirstAcceptedAllFail` | etl/raw_sync.py:138-157 | when every string fails, the last error is raised |
| `Connections.ConnectFb` | etl/raw_sync.py:114-158 | `connect_fb` tries the four strings in order and returns the first accepted or the last error |
| `Connections.FirebirdLink.constructor` | etl/raw_sync.py:53-55 | at start-up there is no cached connection and the live DSN is active |
| `Connections.FirebirdLink.EnsureFb` | etl/raw_sync.py:161-166 | `ensure_fb` reconnects exactly when there is no cached connection or it was opened for another DSN; otherwise it returns the cached one |
| `Connections.FirebirdLink.CloseFb` | etl/raw_sync.py:169-177 | `close_fb` drops the cached connection and its DSN and keeps the active DSN |
| `Connections.FirebirdLink.SetFbDsn` | etl/raw_sync.py:180-184 | `set_fb_dsn` switches the active DSN and closes the cache only when the DSN changes |
| `Connections.FirebirdLink.UseFbDsn` | etl/raw_sync.py:187-194 | `use_fb_dsn` runs its body under the given DSN and restores the previous DSN afterwards |
| `Connections.FirebirdLink.FbSelectAll` | etl/raw_sync.py:597-612 | `fb_select_all` returns `SelectFrom` over its attempts, where attempt `k` reconnects through the driver as it answers at that attempt (the cached connection serves only the first attempt); it closes the connection after a failed attempt |
| `Connections.SelectFromOk` | etl/raw_sync.py:600-612 | a successful select returns the rows of one attempt within the retry budget |
| `Connections.SelectFromRetries` | etl/raw_sync.py:600-612 | the first attempt whose query succeeds decides the result |
| `Connections.SelectFromFails` | etl/raw_sync.py:600-612 | when no connection can be made, every attempt fails and the select raises |
| `Connections.SelectRecoversFromConnectFailure` | etl/raw_sync.py:600-612 | a connection failure on the first attempt is retried, and a second attempt that connects and queries returns its rows |
| `Connections.ConnectPg` | etl/raw_sync.py:197-217 | `connect_pg`'s retry loop returns the result of the recursive specification `PgConnectFrom` |
| `Connections.PgConnectOk` | etl/raw_sync.py:200-211 | a successful connect is the first attempt that does not raise `OperationalError`, within `retries` |
| `Connections.PgConnectAllFail` | etl/raw_sync.py:200-217 | when every attempt fails, the last attempt's error is re-raised; with no attempts the retries-exhausted error is raised |
| `Backups.BackupKeep` | etl/raw_sync.py:420-424 | `keep` is at least 1: an unparsable setting gives 1, and a parsed one is raised to 1 |
| `Backups.Eligible` | etl/raw_sync.py:466-475 | only files named `raw_bom_consumption_*.csv.gz` whose mtime can be read are candidates |
| `Backups.StrLessTotal` | etl/raw_sync.py:476 | Python's string order is total |
| `Backups.NewerSplit` | etl/raw_sync.py:476 | the (mtime, path) order of the sort is a strict weak order |
| `Backups.NewerAsym` | etl/raw_sync.py:476 | the (mtime, path) order of the sort is asymmetric |
| `Backups.Insert` | etl/raw_sync.py:476 | inserting into a newest-first list keeps it sorted and a permutation of the old entries plus the new one |
| `Backups.SortDesc` | etl/raw_sync.py:476 | `entries.sort(reverse=True)` is a newest-first permutation of the entries |
| `Backups.PySliceFrom` | etl/raw_sync.py:478 | `entries[keep:]` drops the first `keep` entries, or all of them |
| `Backups.RemovableNames` | etl/raw_sync.py:478-483 | only the doomed files whose `os.remove` succeeds are removed |
| `Backups.RetentionSplits` | etl/raw_sync.py:476-478 | the newest `keep` candidates (or all of them) are kept, and kept plus doomed is the sorted candidate list |
| `Backups.RetentionKeepsNewest` | etl/raw_sync.py:476-478 | no deleted backup is newer than a kept one |
| `Backups.RemovedAreCandidates` | etl/raw_sync.py:464-485 | every removed file is a listed backup whose mtime could be read |
| `Backups.CleanupBomBackups` | etl/raw_sync.py:464-485 | the clean-up removes exactly the retention's removable files, and nothing when the listing fails |
| `Backups.BackupRawBom` | etl/raw_sync.py:415-443 | no backup without `BOM_BACKUP_DIR`; a failed copy raises; otherwise the backup holds the table's copied columns and the clean-up runs with the parsed `keep` |
| `Backups.RestoreRawBom` | etl/raw_sync.py:446-461 | a restore empties the table and refills it with the copied columns of the backup, with new ids; a failed truncate changes nothing and a failed copy leaves it empty |
| `FullLoad.Loaded` | etl/raw_sync.py:814-828 | a loaded BOM row keeps its id and material, and its colour is not loaded |
| `FullLoad.LoadedAll` | etl/raw_sync.py:814-828 | every fetched BOM row is loaded, in order |
| `FullLoad.BomLoadFailure` | etl/raw_sync.py:918-922 | a failed window load names the first window whose id fetch failed, and every earlier window's fetch succeeded |
| `FullLoad.LoadBomHids` | etl/raw_sync.py:926-944 | the per-id loop appends the rows of every id whose detail fetch succeeds and skips the rest |
| `FullLoad.LoadBomWindows` | etl/raw_sync.py:918-945 | the window loop appends the rows of every window up to the first failed one and reports it |
| `FullLoad.FullLoadBom` | etl/raw_sync.py:911-955 | a failed backup changes nothing; a failed truncate or window restores the backup when there is one and re-raises; a completed load leaves exactly the reloaded rows |
| `FullLoad.HidsRowsColourless` | etl/raw_sync.py:814-828 | the per-id loop loads no material colour |
| `FullLoad.BomLoadColourless` | etl/raw_sync.py:814-828 | a full BOM load loads no material colour |
| `FullLoad.StockLinesRetryRepeats` | etl/raw_sync.py:719-735 | a failure after some lines were yielded makes the retry yield those lines again |
| `FullLoad.StockLinesAllFail` | etl/raw_sync.py:716-737 | when every attempt fails, the generator raises |
| `FullLoad.LoadStockLines` | etl/raw_sync.py:974-994 | one header's yielded lines become movement rows, pushed through the batch buffer |
| `FullLoad.LoadStockHeaders` | etl/raw_sync.py:972-1003 | each header of a window adds one movement row per yielded line, including the lines yielded before its line query finally raised |
| `FullLoad.FullLoadStock` | etl/raw_sync.py:959-1006 | truncate and reload with no restore: a failed truncate changes nothing, unparsable dates leave the table empty, and otherwise the table holds the windows' rows |
| `FullLoad.KeyedRows` | etl/raw_sync.py:847 | the stock-master insert keeps exactly the rows whose first column is not None |
| `FullLoad.KeyedRowsAppend` | etl/raw_sync.py:847 | filtering two batches is filtering their concatenation |
| `FullLoad.FlushKeyed` | etl/raw_sync.py:844-861 | a stock-master flush writes and counts only the rows with a key |
| `FullLoad.PushKeyed` | etl/raw_sync.py:1015-1019 | buffering a stock-master row keeps table plus filtered buffer equal to the filtered rows so far |
| `FullLoad.FullLoadStockMaster` | etl/raw_sync.py:1009-1022 | the stock master is truncated and reloaded with the keyed source rows; the model returns the total the source only logs, which is the number of keyed rows |
| `Incremental.SucceededMaxBounds` | etl/raw_sync.py:1101-1129 | `incremental_bom`'s result is never below `last_hid`, is at least every id whose detail fetch succeeded, and is `last_hid` or one of those ids |
| `Incremental.SucceededMaxAllLoaded` | etl/raw_sync.py:1101-1129 | when every fetch succeeds, the result is the largest id or `last_hid` |
| `Incremental.HidsPrefix` | etl/raw_sync.py:1111-1122 | one more id extends the rows and the watermark of the ids before it |
| `Incremental.IncrementalBom` | etl/raw_sync.py:1101-1129 | a failed id listing raises and changes nothing; otherwise the rows of the ids that succeed are appended and the maximum successfully processed id is returned |
| `Incremental.InsertUnique` | etl/raw_sync.py:1083 | inserting into an increasing list keeps it increasing and adds exactly the new value |
| `Incremental.SortedUnique` | etl/raw_sync.py:1083 | `sorted(set(xs))` is increasing and has the same members as `xs` |
| `Incremental.FetchStockChangedHids` | etl/raw_sync.py:1071-1084 | the changed ids are a sorted set of the ids the source reports |
| `Incremental.StockIncrementSkipsMissing` | etl/raw_sync.py:1142-1144 | headers that are not found add nothing and raise nothing |
| `Incremental.MovementHids` | etl/raw_sync.py:1094-1098 | the `h_id` column of the movements, in order |
| `Incremental.MaxHid` | etl/raw_sync.py:1094-1098 | `COALESCE(MAX(h_id), 0)`: 0 for no rows, otherwise the largest id |
| `Incremental.StockIncrementStep` | etl/raw_sync.py:1142-1168 | one header of the loop keeps table plus buffer plus the rest of the work equal to the whole increment |
| `Incremental.LoadChangedHeaders` | etl/raw_sync.py:1141-1172 | the header loop appends every changed header's rows, or raises with only some flushed batches written |
| `Incremental.IncrementalStock` | etl/raw_sync.py:1132-1175 | a failed id listing raises and changes nothing; no changed ids returns `last_hid`; a header lookup that raises aborts with only flushed batches written; otherwise every found header's rows are appended and the destination's `MAX(h_id)` is returned |
| `Incremental.RefreshOpenOrders` | etl/raw_sync.py:1183-1199 | a missing table gives 0; a failed truncate changes nothing; otherwise the table is exactly the fetched rows and their count is returned |
| `Aggregates.Above` | etl/raw_sync.py:1269 | the ids above a watermark |
| `Aggregates.MaxAboveMoves` | etl/raw_sync.py:1268-1276 | the maintainer does work exactly when some row's id is above the watermark |
| `Aggregates.MaxAboveSettles` | etl/raw_sync.py:1268-1276 | a second run from the new watermark finds nothing new |
| `Aggregates.CoreDb.constructor` | etl/raw_sync.py:224-392 | a new core schema has no watermarks and empty aggregates |
| `Aggregates.CoreDb.StateHid` | etl/raw_sync.py:487-494 | `get_core_state_hid` is the stored watermark, or None when there is none |
| `Aggregates.CoreDb.SetStateHid` | etl/raw_sync.py:497-509 | `set_core_state_hid` is an upsert of one stream's watermark, and nothing else changes |
| `Aggregates.Counted` | etl/raw_sync.py:1289-1294 | the delta reads exactly the new movements outside seat warehouses |
| `Aggregates.KeySumUntouched` | etl/raw_sync.py:1283-1294 | a key with no new rows has a zero delta |
| `Aggregates.Keys` | etl/raw_sync.py:1294 | the delta's groups: each key once, and exactly the keys of the counted rows |
| `Aggregates.Updated` | etl/raw_sync.py:1297-1311 | the `UPDATE ... FROM delta` touches each balance row on its own and keeps the row count |
| `Aggregates.CountSumAppend` | etl/raw_sync.py:1297-1327 | per-key row counts and balances add up over a table's parts |
| `Aggregates.CountZero` | etl/raw_sync.py:1317-1324 | a key has no row exactly when its row count is 0 |
| `Aggregates.UpdatedCountSum` | etl/raw_sync.py:1303-1308 | the update keeps each key's row count and adds the key's delta to every row it matches |
| `Aggregates.MissingCountSum` | etl/raw_sync.py:1317-1324 | the insert adds one row holding the delta for each group key with no matching row, and nothing for other keys |
| `Aggregates.UpdatedHasKey` | etl/raw_sync.py:1303-1308 | the update neither adds nor removes keys |
| `Aggregates.BalanceRefreshFullKey` | etl/raw_sync.py:1278-1327 | for a key with no NULL part and at most one row: afterwards it has one row exactly when it had one or has new rows, and its balance is the old one plus the signed sum of new quantities |
| `Aggregates.BalanceRefreshKeepsOthers` | etl/raw_sync.py:1297-1327 | every row whose key got no delta is unchanged and keeps its place |
| `Aggregates.BalanceRefreshNullKeyGrows` | etl/raw_sync.py:1306-1324 | a key with a NULL part never matches, so every run with new rows inserts another row for it |
| `Aggregates.IncrementalRawCurrentStock` | etl/raw_sync.py:1252-1330 | missing table: no change; no state but rows: seed the watermark and return False; nothing new: return False; else update and insert the deltas and move the watermark to the new max |
| `Aggregates.DigitsAndDots` | etl/raw_sync.py:1412 | `REGEXP_REPLACE(ek_2, '[^0-9\.]', '', 'g')` keeps exactly the digits and dots |
| `Aggregates.Decimal` | etl/raw_sync.py:1411-1414 | `whole.frac` lies in `[whole, whole + 1)` |
| `Aggregates.DigitsBelow` | etl/raw_sync.py:1411-1414 | `n` digits are worth less than `10^n` |
| `Aggregates.Numeric` | etl/raw_sync.py:1411-1414 | `::NUMERIC` of digits and dots succeeds exactly when there is at most one dot and at least one digit, and is non-negative |
| `Aggregates.SplitPartsIn` | etl/raw_sync.py:1411-1414 | every part of a split is made of the string's characters |
| `Aggregates.NoDigitsWhenEmptyParts` | etl/raw_sync.py:1411-1414 | a number whose parts around the dot are both empty has no digit |
| `Aggregates.DigitsInParts` | etl/raw_sync.py:1411-1414 | a number with a non-empty part around the dot has a digit |
| `Aggregates.VariantStock` | etl/raw_sync.py:1404-1419 | the raw balance when the conversion does not apply; NULL when `ek_2` has no digits or dots; a failed cast raises; otherwise balance × number / 100 |
| `Aggregates.ConvertsOnUnits` | etl/raw_sync.py:1405-1407 | with a `KUMA...` BOM type and `Mt2` BOM unit, a stock unit `MT` converts, and `mt2`, `MT2` or NULL does not |
| `Aggregates.VariantOf` | etl/raw_sync.py:1397-1419 | an inserted variant row takes the BOM material from the mapping, the stock name from the balance, and the computed stock |
| `Aggregates.VariantsFor` | etl/raw_sync.py:1420-1423 | one mapping row's inserts are its joined balances for the touched names, and the insert raises exactly when one of them raises |
| `Aggregates.VariantInserts` | etl/raw_sync.py:1394-1426 | the `INSERT ... SELECT` adds a row for each joined (mapping, balance) pair of the touched names, and raises exactly when one pair's conversion raises |
| `Aggregates.KeptVariants` | etl/raw_sync.py:1389-1392 | the `DELETE` keeps exactly the rows whose stock name is not touched |
| `Aggregates.TouchedNames` | etl/raw_sync.py:1368-1378 | the touched stock names are the non-empty names of the new non-seat movements |
| `Aggregates.VariantRefreshScope` | etl/raw_sync.py:1386-1426 | rows for untouched names survive unchanged; rows for touched names are exactly the reinserted ones |
| `Aggregates.NumericWhole` | etl/raw_sync.py:1414 | `'150'::NUMERIC` is 150 |
| `Aggregates.NumericFraction` | etl/raw_sync.py:1414 | `'2.5'::NUMERIC` is 2.5 |
| `Aggregates.NumericMalformed` | etl/raw_sync.py:1414 | `'1.2.3'` and `'.'` do not cast |
| `Aggregates.IncrementalCurrentStockByVariant` | etl/raw_sync.py:1333-1429 | the skip, seed and nothing-new rules; no touched names only moves the watermark; a failed insert commits nothing and leaves the Postgres transaction aborted; else delete and reinsert only the touched names and move the watermark |
| `Aggregates.BomHids` | etl/raw_sync.py:1219 | the `h_id` column of the BOM rows, in order |
| `Aggregates.BomAbove` | etl/raw_sync.py:1240 | the BOM rows above a watermark |
| `Aggregates.Material` | etl/raw_sync.py:1233-1242 | a raw row gives a unique-material row exactly when its name is neither NULL nor empty |
| `Aggregates.InsertMaterialsSpec` | etl/raw_sync.py:1231-1243 | insert-only: existing rows are kept, names stay unique, every new row comes from a raw row, and every named raw row's name is present afterwards |
| `Aggregates.IncrementalBomUniqueMaterials` | etl/raw_sync.py:1202-1249 | the skip, seed and nothing-new rules; otherwise new names are inserted with `ON CONFLICT DO NOTHING` and the watermark moves to the new max |
| `Aggregates.IndexOfName` | etl/raw_sync.py:1034-1043 | the position of the row already chosen for a name, or -1 when there is none |
| `Aggregates.LatestPerNameSpec` | etl/raw_sync.py:1034-1043 | `DISTINCT ON (material_name)`: one row per non-empty name, each a raw row, and none older than another raw row of its name |
| `Aggregates.LatestAppendCovers` | etl/raw_sync.py:1034-1043 | choosing a new name's first row keeps every earlier row covered |
| `Aggregates.LatestReplaceCovers` | etl/raw_sync.py:1034-1043 | replacing a name's row by a later one keeps every earlier row covered |
| `Aggregates.LaterTrans` | etl/raw_sync.py:1043 | the `transaction_date DESC, h_id DESC` order is transitive |
| `Aggregates.Projected` | etl/raw_sync.py:1032-1039 | the rebuilt rows are the chosen raw rows' material columns, in order |
| `Aggregates.RebuildBomUniqueMaterials` | etl/raw_sync.py:1025-1065 | the table is rebuilt from the latest row per name and the watermark is set to the raw table's max id |
| `Scheduler.InstantMonotone` | etl/raw_sync.py:1739-1743 | a later date is a later instant, whatever the time of day |
| `Scheduler.ParseTimeShow` | etl/raw_sync.py:1725 | `hour:minute` written as digits parses back to the same pair |
| `Scheduler.ParseTimeFallback` | etl/raw_sync.py:1724-1727 | a time without exactly one colon falls back to 02:00 |
| `Scheduler.TimeMicros` | etl/raw_sync.py:1730-1738 | a valid time of day lies within the day |
| `Scheduler.WeekdayBack` | etl/raw_sync.py:1729 | going back `(weekday - WEEKLY_DAY) % 7` days lands on the configured weekday |
| `Scheduler.WeeklyScheduled` | etl/raw_sync.py:1729-1741 | with a valid time, the weekly occurrence is on the configured weekday at that time, no later than now and less than a week before it |
| `Scheduler.PrevMonth` | etl/raw_sync.py:1762-1763 | the previous month is one month back, and January goes to December of the year before |
| `Scheduler.MonthlyScheduled` | etl/raw_sync.py:1748-1764 | this month's day and time when they are valid and past, otherwise the previous month's; no occurrence when the time, this month's day or the previous month's day is invalid |
| `Scheduler.DueOnce` | etl/raw_sync.py:1742-1745 | once the run started by a due check is recorded, that occurrence is never due again |
| `Scheduler.JobStep` | etl/raw_sync.py:1491-1509 | a timed job runs when enabled and never run or its interval elapsed; a success records now; a failure raises and keeps the last-run time |
| `Scheduler.JobNotDueAgain` | etl/raw_sync.py:1491-1509 | after a recorded run, the job is not due until its interval has passed |
| `Scheduler.WeeklyPipeline` | etl/raw_sync.py:1512-1545 | the pipeline fails exactly when a load fails, a configured SQL file fails, or the forecast command exits non-zero, and that exit raises |
| `Scheduler.IncrementalStep` | etl/raw_sync.py:1472-1509 | a failed ingest changes nothing; otherwise the open-order, core and dashboard jobs run in order, the first failure stops the rest, a timer moves only to its job's start time and only when that job succeeded (the core timer only after the open-order job went through), and the weekly and monthly state are untouched |
| `Scheduler.WeeklyStep` | etl/raw_sync.py:1722-1745 | the weekly check touches only the weekly timer and marker; the timer moves to the finish time only on a successful pipeline run, and a check that ran nothing changes nothing |
| `Scheduler.MonthlyStep` | etl/raw_sync.py:1746-1768 | the monthly check touches only the monthly timer, which moves to the finish time only when a seat SQL file ran successfully; a failed check changes nothing |
| `Scheduler.CycleStep` | etl/raw_sync.py:1719-1772 | one pass runs the incremental part, then the weekly and monthly checks on the state each one leaves; the first error ends the pass with the state as the failing part left it, so a failed incremental part records no weekly or monthly run and a failed weekly check no monthly run |
| `Scheduler.Loop.constructor` | etl/raw_sync.py:99-103 | at start-up no job has run, and the marker is whatever the last process left |
| `Scheduler.Loop.RunIncremental` | etl/raw_sync.py:1472-1509 | `run_incremental`'s result and new timers are those of `IncrementalStep` on the old state |
| `Scheduler.Loop.RunWeekly` | etl/raw_sync.py:1512-1545 | the marker is left exactly when the pipeline fails, and the last weekly run is recorded only on success |
| `Scheduler.Loop.RetryWeeklyAtStartup` | etl/raw_sync.py:1712-1717 | a marker left behind makes the weekly pipeline run at start-up when weekly runs are enabled |
| `Scheduler.Loop.RunMonthlySeat` | etl/raw_sync.py:1636-1644 | without a seat SQL file nothing happens; a failed run raises; a successful run records the time |
| `Scheduler.Loop.WeeklyCheck` | etl/raw_sync.py:1722-1745 | the weekly pipeline runs exactly when enabled, the occurrence is within the window, and it has not run since; the result and new state are those of `WeeklyStep` |
| `Scheduler.Loop.MonthlyCheck` | etl/raw_sync.py:1746-1768 | the monthly seat refresh runs exactly when enabled, the occurrence is within the window, and it has not run since; the result and new state are those of `MonthlyStep` |
| `Scheduler.Cycle` | etl/raw_sync.py:1719-1772 | the pass's result and the loop's new state are those of `CycleStep` on the old state; a failed pass closes the Firebird connection; the active DSN is kept |
| `MaterialsApi.LikePattern` | backend/main.py:86 | `f"%{q}%"` wraps the search text in one wildcard on each side |
| `MaterialsApi.SortDirection` | backend/main.py:65-70 | a direction is recognised exactly when it is `asc` or `desc` in any case |
| `MaterialsApi.OrderClause` | backend/main.py:54-74 | an absent or unknown `sort_by` gives the default order; otherwise the order is a whitelisted column ascending or descending |
| `MaterialsApi.OrderDirection` | backend/main.py:63-74 | a whitelisted column sorts descending exactly when the direction is `desc` in any case, and ascending otherwise |
| `MaterialsApi.OrderCaseInsensitive` | backend/main.py:65-70 | directions that differ only in case give the same order |
| `MaterialsApi.FoldedLike` | backend/main.py:84-86 | the folded name search has one placeholder |
| `MaterialsApi.EitherFoldedLike` | backend/main.py:531-537 | the open-orders search over name or label has two placeholders |
| `MaterialsApi.Bound` | backend/main.py:88-90 | an equality filter has one placeholder |
| `MaterialsApi.NotInThree` | backend/main.py:77-79 | the `OTHER` category filter has three placeholders |
| `MaterialsApi.Around` | backend/main.py:92-113 | the supplier sub-query has one placeholder |
| `MaterialsApi.ItemNoPieces` | backend/main.py:115-139 | the item-number filter has two placeholders |
| `MaterialsApi.PredPiecesHoles` | backend/main.py:77-139 | each filter's text has one placeholder per parameter it adds |
| `MaterialsApi.JoinAndHoles` | backend/main.py:141 | joining filters with `AND` keeps every placeholder, and gives empty text only for no filters |
| `MaterialsApi.JoinAndEmpty` | backend/main.py:540-541 | only no filters join to empty text |
| `MaterialsApi.CategoryParams` | backend/main.py:77-82 | the category adds three parameters for `OTHER` in any case, and one otherwise |
| `MaterialsApi.AppendIfArity` | backend/main.py:84-139 | a filter that is given adds its parameter count, and one that is absent adds none |
| `MaterialsApi.MaterialsArity` | backend/main.py:77-139 | category 3 or 1, `q` 1, `status` 1, `supplier` 1, `item_no` 2 |
| `MaterialsApi.MaterialsPlaceholders` | backend/main.py:43-142 | the WHERE text always has exactly as many `%s` as there are parameters |
| `MaterialsApi.BuildMaterialsQuery` | backend/main.py:43-142 | `build_materials_query`'s appends give the filters in order, their parameters, a placeholder for each parameter, and the whitelisted order |
| `MaterialsApi.ForecastDetailsWhere` | backend/main.py:446-460 | the forecast details filter has the category's parameters and one placeholder for each |
| `MaterialsApi.OpenOrdersArity` | backend/main.py:529-538 | `q` adds two parameters and `h_id` one |
| `MaterialsApi.OpenOrdersClauseShape` | backend/main.py:529-541 | the open-orders clause is empty exactly when neither `q` nor `h_id` is given, and has 2 and 1 placeholders for them |
| `MaterialsApi.OpenOrdersPlaceholders` | backend/main.py:529-541 | the open-orders clause has exactly one placeholder per parameter |
| `MaterialsApi.OpenOrdersWhere` | backend/main.py:529-541 | `list_open_orders`' appends give the open-orders clause and its parameters |
| `MaterialsApi.TotalPages` | backend/main.py:217 | `(total - 1) // page_size + 1`, or 0 for no rows, is the smallest page count that covers the rows |
| `MaterialsApi.PageHasRows` | backend/main.py:188 | a page's offset `(page - 1) * page_size` is before the last row exactly when the page is one of the `total_pages` |
| `RefHid.ChunkSize` | tools/maintenance/update_raw_stock_ref_hid.py:131 | `min(BATCH_SIZE, 1000)` |
| `RefHid.ChunkedSpec` | tools/maintenance/update_raw_stock_ref_hid.py:53-55 | the chunks laid end to end are the input, each is non-empty with at most `size` values, and all but the last have exactly `size` |
| `RefHid.FlattenSnoc` | tools/maintenance/update_raw_stock_ref_hid.py:131 | one more chunk adds its ids to those processed |
| `RefHid.FlattenPrefix` | tools/maintenance/update_raw_stock_ref_hid.py:131 | the chunks up to the current one are the ids processed so far |
| `RefHid.SelectIn` | tools/maintenance/update_raw_stock_ref_hid.py:62-67 | the `IN (...)` query returns exactly the rows whose id is listed |
| `RefHid.RefHidMap` | tools/maintenance/update_raw_stock_ref_hid.py:68-76 | every mapped value is positive, and an id is mapped exactly when some row has a non-null, positive `REF_HID` |
| `RefHid.RefHidMapLast` | tools/maintenance/update_raw_stock_ref_hid.py:69-75 | an id's value comes from its last kept row |
| `RefHid.SelectInAgrees` | tools/maintenance/update_raw_stock_ref_hid.py:58-76 | looking up a chunk's ids agrees with the mapping of the whole source table |
| `RefHid.FetchRefHidMap` | tools/maintenance/update_raw_stock_ref_hid.py:58-76 | no query is made for no ids; the filling loop gives the filtered mapping of the selected rows |
| `RefHid.Pairs` | tools/maintenance/update_raw_stock_ref_hid.py:133 | each pair is a mapped id with its value, and a batch id appears exactly when it is mapped |
| `RefHid.PairsAppend` | tools/maintenance/update_raw_stock_ref_hid.py:131-135 | the pairs of the chunks together are the pairs of all the ids |
| `RefHid.PairsAgree` | tools/maintenance/update_raw_stock_ref_hid.py:133 | mappings that agree on a batch give the same pairs |
| `RefHid.PendingHids` | tools/maintenance/update_raw_stock_ref_hid.py:88-99 | the distinct non-null ids of rows with NULL `ref_hid` and a `Depo Giri...` document type |
| `RefHid.Match` | tools/maintenance/update_raw_stock_ref_hid.py:109-113 | the `VALUES` row an id joins with, if any |
| `RefHid.MatchAppend` | tools/maintenance/update_raw_stock_ref_hid.py:131-135 | a match in an earlier batch takes precedence over a later one |
| `RefHid.UpdatedNullOnly` | tools/maintenance/update_raw_stock_ref_hid.py:109-113 | an existing `ref_hid` is never overwritten, no other column changes, and a NULL one is filled exactly when a pair names its id |
| `RefHid.UpdatedTwice` | tools/maintenance/update_raw_stock_ref_hid.py:131-135 | updating with one list and then another is updating with both |
| `RefHid.Applied` | tools/maintenance/update_raw_stock_ref_hid.py:109-113 | the update keeps every row |
| `RefHid.AppliedTwice` | tools/maintenance/update_raw_stock_ref_hid.py:131-135 | two updates in a row are one update with both lists |
| `RefHid.AppliedNothing` | tools/maintenance/update_raw_stock_ref_hid.py:103-104 | no pairs change no row |
| `RefHid.MovementTable.constructor` | tools/maintenance/update_raw_stock_ref_hid.py:109 | the table holds the given rows |
| `RefHid.MovementTable.ApplyUpdates` | tools/maintenance/update_raw_stock_ref_hid.py:102-118 | `apply_updates` sets `ref_hid` from the pairs on the rows where it is NULL, and does nothing for no pairs |
| `RefHid.BatchStep` | tools/maintenance/update_raw_stock_ref_hid.py:131-135 | one chunk's fetch, pairs and update extend the work done so far to that chunk |
| `RefHid.Backfill` | tools/maintenance/update_raw_stock_ref_hid.py:121-137 | no pending ids do nothing; otherwise every pending id with a positive `REF_HID` is filled where NULL, and `updated` is the number of pairs |

## Left out

- I/O is not modelled. This covers the psycopg2, pyodbc and firebirdsql drivers, the Firebird SQL text, logging, `time.sleep` between retries, and gzip/CSV file writing. Firebird query outcomes, file listings, the clock, environment settings and the forecast command's exit code are inputs to the model.
- The schema DDL is not modelled: `ensure_pg_schema` (etl/raw_sync.py:224-392) and `ensure_ref_hid_column` (tools/maintenance/update_raw_stock_ref_hid.py:79-85).
- `resolve_sql_path` is not modelled. `execute_sql_file` is modelled on the file's text.
- The forecast job is seen only through its exit code. It is a floating-point subprocess (`etl/run_forecast.py`, `etl/forecast_backtest.py`), and those files are not part of this model.
- The argparse modes of `main` are not modelled: `run_full`, `run_full_stock_only`, the bootstrap modes and `run_complete_with_live_incremental`. They are sequences of the modelled loaders.
- `run_weekly_forecast_pipeline` and `run_post_weekly_refreshes` are not modelled separately. They are the tail of `Scheduler.WeeklyPipeline` and unconditional runs of the timed jobs.
- `incremental_stock_master` always returns False and does nothing. `Scheduler.Loop.RunIncremental` sees it and the three loaders only as `ingestOk`.
- The mapping-refresh SQL that `run_incremental` runs after new BOM ids is part of `ingestOk` as well.
- `Text.Lower`, `Text.Upper`: only ASCII letters are case-folded. Python's and Postgres's Unicode case mapping is wider, for example for `İ` and `ı`.
- `Text.ParseInt`: `int()` also accepts `_` between digits and non-ASCII decimal digits. Settings with those are read as unparsable.
- `Backups.Eligible` and `Backups.SortDesc` sort on the file name. The source sorts on the full path, which gives the same order inside one directory.
- `Backups.BackupRawBom` returns the table snapshot rather than a file path, and does not model the timestamped file name.
- `Tables.Table.InsertBatch`: inserts always succeed. A failing insert inside a per-id `try` would be skipped by the source's handler, and that is not modelled.
- `Scheduler.Cycle`: during a successful pass the loaders and the weekly pipeline open, reuse and switch Firebird connections (`ensure_fb`, `use_fb_dsn`). Those calls are not tied to `Connections.FirebirdLink` here, so the contract states only what a failed pass does to the connection and that the active DSN is kept.
- `FullLoad.FullLoadBom`: the Firebird connection is reset per window (`close_fb`, `ensure_fb`), but that reset is not tied to `Connections.FirebirdLink` here.
- `Dates.AddMonths` and `Dates.PrevDay`: dates before 0001-01-01 are excluded, which Python's `date` also rejects. The `OverflowError` path is not modelled.
- `Dates.Valid` has no upper bound on the year, and Python's `date` stops at 9999 (`MAXYEAR`). `Dates.NextDay`, `Dates.AddMonths`, `Dates.Windows` and `Dates.IterWindows` return normally past 9999-12-31, where `add_months` raises `ValueError` and `cur_end + timedelta(days=1)` raises `OverflowError` (etl/raw_sync.py:892, 903). So a full load whose end date lies in year 9999 fails in the source and not in the model.
- `Dates.WindowEnd`, `Dates.WindowLast`, `Dates.Windows`, `Dates.IterWindows`, `FullLoad.FullLoadBom` and `FullLoad.FullLoadStock` require `months >= 1`. `FULL_WINDOW_MONTHS` is read without a check (etl/raw_sync.py:70). With 0, `iter_windows` yields `(cur, cur - 1 day)` forever without advancing, so both full loads never finish; with a negative value it walks backwards until `date` raises. The model does not describe these runs.
- Row order that Postgres leaves unspecified is fixed in the model:
  - `GROUP BY` in `Aggregates.Keys` uses first-seen order;
  - `SELECT DISTINCT` in `RefHid.PendingHids` uses first occurrence;
  - the join order in `Aggregates.VariantInserts` follows the mapping rows.
  The contracts state membership, not order.
- `Aggregates.InsertMaterialsSpec`: among new rows sharing a name, `SELECT DISTINCT` has no tie-break. The model inserts the first one, and the contract says only that each inserted row comes from a new raw row.
- `Aggregates.LatestPerName`: `DISTINCT ON` leaves ties among rows with the same `(transaction_date, h_id)` unordered. The model keeps the first one seen, and the contract says only that no row of that name is newer.
- `Aggregates.RebuildBomUniqueMaterials`: the rebuild reads the fixed schema `raw.raw_bom_consumption` (etl/raw_sync.py:1040), while the watermark it records reads `{RAW_SCHEMA}` (`PG_RAW_SCHEMA`, etl/raw_sync.py:65). The model has one raw table, so it matches the source only when `PG_RAW_SCHEMA` is `raw`, its default.
- `RefHid.Match`: when one id occurs twice in the `VALUES` list, Postgres picks either row. The model takes the first one. The chunks hold distinct ids, so this does not arise in `RefHid.Backfill`.
- `RefHid.Backfill`: `updated` counts pairs, as the source does, not updated rows. The Firebird connection failing is not modelled. The `execute_values` page size only splits the statement and is not modelled.
- `Scheduler.Cycle`, `Scheduler.CycleStep` and `Scheduler.Loop.RunIncremental`: the source never rolls back its Postgres connection. After any Postgres error inside a pass (a failed insert in a refresh, a failed truncate in a load), the loop's handler only closes the Firebird connection (etl/raw_sync.py:1769-1772), so the Postgres transaction stays aborted and every later pass fails at its first statement (`get_max_bom_hid_pg`, etl/raw_sync.py:1474). The model takes each pass's outcomes as independent inputs and does not show this lock-up.
- `Aggregates.NotSeat`: a NULL `seat_warehouses.warehouse` cannot be represented, as the seat warehouses are a set of strings. With a NULL there, SQL's `NOT IN` is never true, and the refreshes would count no row.
- `SqlScript.PgSession.ExecuteSqlFile`: after a failed statement the source's transaction is aborted and the error is re-raised. The model stops at the failing statement and does not model the aborted transaction's later behaviour.
- `Aggregates.RebuildBomUniqueMaterials`: the rebuild's intermediate table and its swap are modelled as one replacement of the rows.
- `MaterialsApi.TotalPages` and `MaterialsApi.PageHasRows`: FastAPI's validation of `page >= 1` and `1 <= page_size <= 500` is taken as a precondition, as the endpoints refuse other values.
- `export_materials`'s spreadsheet rendering and the `float()` coercions of the API's responses are not modelled. Quantities are exact `real` numbers, as Postgres `NUMERIC` is.
