# AppFolio report cache for Snowflake, modelled in Dafny

This project models the core of a service that copies AppFolio reports into Snowflake on a schedule.

For each configured report, the service:

1. pages through the AppFolio reporting API;
2. renames record keys that Snowflake cannot use as column names and stamps every record with `fetched_at`;
3. loads the pages into a staging table `<table>_staging`, either by multi-row INSERTs or by a CSV file uploaded to the table stage and loaded with COPY INTO;
4. swaps staging into place by dropping the destination table and renaming staging.

A later run of an incremental report (`BulkUpsert` after its first run) works differently. It starts staging as a copy of the destination, deletes the rows of the date window it is about to reload, and then appends as usual.

The driver runs every report with up to three attempts and skips a report that still fails. A pass then calls the stored procedure and refreshes the Tableau extract. The supporting parts modelled are:

- the per-report sync state kept in a JSON file;
- the general-ledger date windows and the aged-receivables parameter;
- the date helpers;
- the scheduling clock rules.

Modules, one per source file or concern:

| module | file | flavour |
|---|---|---|
| `Wrappers`, `Text`, `Records` | shared | values: `Option`/`Result`/`Outcome`, `join`, `split` and `String(n)`, JavaScript records as ordered key/value lists |
| `Sql` | SQL texts of the services | the warehouse as a map of tables and the meaning of each statement |
| `Snowflake` | `src/services/snowflakeService.ts` | the shared `Connection` as a class whose tables and statement log the operations update |
| `Csv` | `src/services/bulkInsertService.ts` | the CSV file `bulkInsert` writes, and the reader COPY INTO applies to it |
| `BulkInsertService`, `BatchInsertService`, `DataInserter` | the three insert services | methods on the connection, each proved against the list of statements it sends |
| `DataTransformer`, `LegacyTransform` | `src/services/dataTransformer.ts`, `src/transformData.ts` | pure functions, plus the `forEach` as a loop |
| `AppFolioService` | `src/services/appfolioService.ts` | `handleAppFolioData` as methods, proved against a `Plan` (the requests and statements a call makes) |
| `Sync` | `src/sync.ts` | the retry loop, the pass over the reports and `main` as methods |
| `SyncState` | `src/utils/state.ts`, `src/api/router.ts` | the state file as a value |
| `Dates`, `ParamGenerator`, `Schedule` | `src/utils/date.ts`, `src/utils/paramGenerator.ts`, `src/utils/time.ts` | JavaScript `Date` arithmetic on calendar dates, the window loop as a method, and the clock rules |

Behaviours of the source that the model keeps as they are:

- A failed API request ends the call with that error (src/clients/appfolioClient.ts:26-28, src/services/appfolioService.ts:55-59 and 197-202).
- A state file that does not parse is an error (src/utils/state.ts:14-15).
- An incremental load copies the destination into staging, deletes the window's rows from that copy, appends the new pages, and then swaps staging into place (src/services/appfolioService.ts:111-128 and 180-189).
- The finalize step drops the destination and renames staging with no check that staging exists (src/services/appfolioService.ts:180-189; see Findings).
- `bulkInsert` writes the CSV file and leaves it on disk after the load (src/services/bulkInsertService.ts:65).
- `formatDate` returns `toLocaleDateString("en-US")`, which renders `M/D/YYYY` without zero padding, although the comment at src/utils/date.ts:1 says `MM/DD/YYYY` (src/utils/date.ts:1-4).

## Model

| member | source | states |
|---|---|---|
| Text.IntToString | src/services/bulkInsertService.ts:54 | `String(n)` of an integer is a non-empty string of digits, with at most a leading minus sign |
| Text.ParseNatToString | src/utils/date.ts:3 | the decimal rendering of a natural number reads back as that number |
| Text.NatToStringInjective | src/utils/date.ts:3 | distinct numbers render differently |
| Text.SplitJoin | src/services/snowflakeService.ts:11-13 | splitting a `join` at a separator that no part contains gives back the parts |
| Records.Keys | src/services/batchInsertService.ts:20 | `Object.keys` lists one key per entry, in entry order |
| Records.Values | src/services/batchInsertService.ts:42 | `Object.values` lists one value per entry, in entry order |
| Records.WellFormedKeys | src/services/dataTransformer.ts:1-3 | an object has no key twice exactly when its key list has no repeats |
| Records.Get | src/services/bulkInsertService.ts:48 | `row[key]` is defined exactly when the key is present, and then it is that entry's value |
| Records.Put | src/services/dataTransformer.ts:19-23 | an assignment keeps the key list (or appends a new key), makes the key read the new value, and leaves every other key alone |
| Records.PutWellFormed | src/services/dataTransformer.ts:19-23 | an assignment never duplicates a key |
| Records.GetAt | src/services/bulkInsertService.ts:48 | in a well-formed object, reading a key gives the value stored with it |
| Records.PutPut | src/services/dataTransformer.ts:28 | a second assignment to the same key overrides the first |
| DataTransformer.ColumnName | src/services/dataTransformer.ts:17-24 | a key starting with a digit gets the `field_` prefix and other keys are kept; no result starts with a digit |
| DataTransformer.TransformItem | src/services/dataTransformer.ts:12-30 | the `forEach` loop builds exactly the renamed record, with `fetched_at` set last |
| DataTransformer.TransformData | src/services/dataTransformer.ts:10-32 | one output record per input record, in order, each transformed on its own |
| DataTransformer.RenamedGet | src/services/dataTransformer.ts:15-25 | each output column holds the value of the last entry renamed to it, and a column exists exactly when some entry maps to it |
| DataTransformer.RenamedKeys | src/services/dataTransformer.ts:15-25 | no output key starts with a digit |
| DataTransformer.RenamedWellFormed | src/services/dataTransformer.ts:15-25 | the output has no duplicate keys |
| DataTransformer.TransformRecordSpec | src/services/dataTransformer.ts:11-31 | a transformed record has distinct keys, none starting with a digit; `fetched_at` holds the stamp; every other column holds the last value renamed to it |
| DataTransformer.RenamedValue | src/services/dataTransformer.ts:17-20 | a key that collides with no other key is found, with its value, under its column name |
| DataTransformer.RenamedIdentity | src/services/dataTransformer.ts:15-25 | a record with distinct keys and no digit-led key passes through the renaming unchanged |
| DataTransformer.TransformIdempotent | src/services/dataTransformer.ts:10-32 | transforming a transformed record again changes only the stamp |
| LegacyTransform.SpreadRecord | src/transformData.ts:10-13 | the spread keeps every key and value except `fetched_at`, which holds the stamp and is appended when new |
| LegacyTransform.TransformData | src/transformData.ts:9-14 | one spread record per input record, in order |
| LegacyTransform.TransformTwice | src/transformData.ts:9-14 | applying the older transformer twice is applying it once with the later stamp |
| Csv.Escape | src/services/bulkInsertService.ts:52 | every double quote is doubled: the escaped text has twice as many quotes |
| Csv.Project | src/services/bulkInsertService.ts:46-48 | the values of a row are read under the header keys, in header order |
| Csv.EncodeFields | src/services/bulkInsertService.ts:47-55 | each field is encoded on its own: empty for null or missing, quoted for a string, digits for a number, `true` or `false` for a boolean |
| Csv.EncodeLines | src/services/bulkInsertService.ts:45-57 | one line per row, each row's values under the header keys |
| Csv.CellsOf | src/services/bulkInsertService.ts:79-83 | each field becomes the cell the file format gives it |
| Csv.RowCells | src/services/bulkInsertService.ts:45-57 | one row of header-width cells per record |
| Csv.RowCellsAt | src/services/bulkInsertService.ts:45-57 | row `i` of the cells is record `i` read under the keys |
| Csv.RowCellsCells | src/services/bulkInsertService.ts:45-57 | the cell at row `i`, column `j` is record `i`'s value under key `j` |
| Csv.QuotedRoundTrip | src/services/bulkInsertService.ts:52 | reading a quoted field un-doubles the quotes and stops at the closing quote, recovering the string |
| Csv.FieldRoundTrip | src/services/bulkInsertService.ts:49-54 | an encoded field reads back as the cell its value stands for |
| Csv.StringFieldRoundTrip | src/services/bulkInsertService.ts:50-53 | a string value is read back intact, quotes included |
| Csv.LineRoundTrip | src/services/bulkInsertService.ts:46-56 | an encoded line reads back as its cells, field by field |
| Csv.LinesRoundTrip | src/services/bulkInsertService.ts:45-58 | the encoded lines read back as every row, in order |
| Csv.SkipHeaderLine | src/services/bulkInsertService.ts:76-84 | `SKIP_HEADER = 1` drops exactly the header line |
| Csv.LoadedRows | src/services/bulkInsertService.ts:43-58 | the rows COPY INTO reads: one per input row, in order, cell `j` being that row's value under the first row's key `j` |
| Csv.CsvRoundTrip | src/services/bulkInsertService.ts:43-58 | the file content reads back as exactly the rows written |
| Sql.StringColumns | src/services/snowflakeService.ts:11-12 | each column becomes `<column> STRING`, in order |
| Sql.ColumnDefinitionsSplit | src/services/snowflakeService.ts:11-13 | cutting the column definitions at the commas gives one `<column> STRING` piece per column, in order |
| Sql.Repeat | src/services/batchInsertService.ts:40 | one placeholder group per row of the batch |
| Sql.PlaceholdersCount | src/services/batchInsertService.ts:21 | a placeholder group has one `?` per key |
| Sql.InsertHeadCount | src/services/batchInsertService.ts:41 | the text before the VALUES groups carries no placeholder |
| Sql.InsertPlaceholderCount | src/services/batchInsertService.ts:40-42 | an INSERT for `g` rows over `k` keys carries exactly `g * k` placeholders |
| Sql.ValidColumnsMeaning | src/services/snowflakeService.ts:11-15 | the unquoted column list is refused for a name with a space, a reserved word, or two names that differ only in case, and accepted columns are distinct |
| Sql.RowOf | src/services/batchInsertService.ts:41-42 | a bound group fills each named column with the bind at that name's position, and every other column with NULL |
| Sql.Groups | src/services/batchInsertService.ts:40-42 | the binds split into `groups` groups of `width` values |
| Sql.GroupsSplit | src/services/batchInsertService.ts:40-42 | the binds split exactly when there are `groups * width` of them, and the groups flatten back to the binds |
| Sql.GroupsFlatten | src/services/batchInsertService.ts:42 | flattened equal-width groups split back into the same groups |
| Sql.RowsOf | src/services/batchInsertService.ts:40-42 | one table-width row per group |
| Sql.RowsOfAt | src/services/batchInsertService.ts:40-42 | row `g` of an INSERT is group `g` of its binds placed in the table's columns |
| Sql.Filter | src/services/appfolioService.ts:122-128 | the window delete keeps a row exactly when its date cell is not within the window, and keeps no more rows than it had |
| Sql.FilterAppend | src/services/appfolioService.ts:122-128 | the delete works row by row: the kept rows of two runs of rows, in order, are the kept rows of each, one after the other |
| Sql.FilterOne | src/services/appfolioService.ts:122-128 | a single row is kept exactly when its date cell is not within the window |
| Sql.RunFrom | src/services/batchInsertService.ts:28-59 | statements are sent in order until one fails; all are sent when none fails |
| Sql.RunSucceeds | src/services/batchInsertService.ts:28-59 | a run with no failure ends where running the statements without faults ends |
| Sql.RunAppend | src/services/batchInsertService.ts:30-53 | running `a + b` runs `a` and then, unless something failed, `b` from where `a` ended |
| Sql.ExecAllAppend | src/services/batchInsertService.ts:30-53 | the same for fault-free runs |
| Sql.RunPreserves | src/services/appfolioService.ts:33-178 | statements that do not write a table leave it as it was, even when one fails |
| Sql.ExecPreserves | src/services/snowflakeService.ts:26-116 | a statement that does not write a table leaves it as it was |
| Sql.ExecAllPreserves | src/services/snowflakeService.ts:26-116 | accepted statements that do not write a table leave it as it was |
| Snowflake.RanThen | src/services/batchInsertService.ts:30-50 | two runs in a row, the first without failure, are one run of both statement lists |
| Snowflake.RanStop | src/services/batchInsertService.ts:56-59 | after a failed statement nothing else is sent |
| Snowflake.Connection.constructor | src/clients/snowflakeClient.ts:4-12 | a new connection holds the given tables and an empty statement log |
| Snowflake.Connection.Execute | src/services/snowflakeService.ts:33-38 | the statement is appended to the log; it succeeds exactly when it is not faulty and the warehouse accepts it, and then the tables change as the statement says; otherwise they are unchanged and the statement is the error |
| Snowflake.EnsureTableExists | src/services/snowflakeService.ts:26-41 | CREATE TABLE IF NOT EXISTS succeeds exactly when not faulty and the columns are valid unquoted identifiers (a letter or `_`, then letters, digits, `_` or `$`; not a reserved word; no two equal once upper-cased); it adds an empty table only when the name is free |
| Snowflake.DropTable | src/services/snowflakeService.ts:47-62 | DROP TABLE IF EXISTS fails only on a fault, removes the table, and changes nothing when it is absent |
| Snowflake.DuplicateTable | src/services/snowflakeService.ts:69-91 | the copy succeeds exactly when the original exists and the new name is free; the new table gets the original's columns and rows, and the original is unchanged |
| Snowflake.RenameTable | src/services/snowflakeService.ts:98-116 | the rename succeeds exactly when the old name exists and the new one is free; the new name then holds the old table and the old name is gone |
| BulkInsertService.BulkInsert | src/services/bulkInsertService.ts:22-140 | `bulkInsert` sends nothing for empty input; otherwise it sends create-if-missing, the upload and the COPY, in order, stopping at the first failure and re-throwing it: the error is the last statement logged |
| BulkInsertService.UploadAndLoad | src/services/bulkInsertService.ts:97-133 | the upload to the table stage and then, once it succeeded, the COPY INTO; a failure ends the call and is the error, the last statement logged |
| BulkInsertService.BulkLoads | src/services/bulkInsertService.ts:43-133 | when accepted, the table holds its earlier rows followed by every input row in order, each read under the first row's keys |
| BulkInsertService.BulkRejectsWidthMismatch | src/services/bulkInsertService.ts:76-84 | COPY INTO rejects a file whose field count differs from the existing table's column count |
| BatchInsertService.BatchesFromConcat | src/services/batchInsertService.ts:38-39 | the slices from `i` on, put back together, are the rows from `i` on |
| BatchInsertService.BatchesPartition | src/services/batchInsertService.ts:38-39 | the slices partition the input, in order |
| BatchInsertService.BatchSizes | src/services/batchInsertService.ts:38-39 | every slice is non-empty and at most `batchSize` rows; all but the last have exactly `batchSize`; there are `ceil(n / batchSize)` of them |
| BatchInsertService.BatchesFromRows | src/services/batchInsertService.ts:39 | every row of every slice is an input row |
| BatchInsertService.ValuesOf | src/services/batchInsertService.ts:42 | `Object.values` of each row of a batch, in order |
| BatchInsertService.Inserts | src/services/batchInsertService.ts:38-50 | one INSERT per slice |
| BatchInsertService.InsertsStep | src/services/batchInsertService.ts:38-41 | the inserts from row `i` begin with the INSERT of the slice at `i` |
| BatchInsertService.InsertBatch | src/services/batchInsertService.ts:39-52 | one turn of the loop sends the next INSERT; a failure ends the run, and the error is that INSERT, the last statement logged |
| BatchInsertService.InsertBatches | src/services/batchInsertService.ts:38-53 | the slicing loop sends one INSERT per slice of `batchSize` rows, in order, until one fails; the run is then over, and the error is the failed INSERT, the last statement logged |
| BatchInsertService.BatchInsert | src/services/batchInsertService.ts:10-60 | `batchInsert` sends nothing for empty input; otherwise create-if-missing with the first row's keys, then one INSERT per slice; the first failure ends it and is re-thrown (the error is the last statement logged), and earlier batches stay |
| BatchInsertService.RowOfUniform | src/services/batchInsertService.ts:42 | a row bound positionally under its own keys puts each value in its column |
| BatchInsertService.BindsUniform | src/services/batchInsertService.ts:40-42 | when every row has the same keys in the same order, the flat binds split back into the batch's rows |
| BatchInsertService.InsertLoads | src/services/batchInsertService.ts:40-50 | one batch's INSERT appends the batch's rows to the table |
| BatchInsertService.InsertsLoad | src/services/batchInsertService.ts:38-53 | the INSERTs append the rows of all batches, in order |
| BatchInsertService.BatchLoads | src/services/batchInsertService.ts:10-60 | when accepted, the table holds its earlier rows followed by every input row in order |
| BatchInsertService.BatchAgreesWithBulk | src/services/batchInsertService.ts:38-53 | on rows that share their keys and key order, the batched inserts and the CSV load leave the same tables |
| DataInserter.InsertDataToSnowflake | src/services/dataInserter.ts:10-82 | the older inserter sends exactly the statements of `batchInsert`, stopping at the first failure and re-throwing it: the error is the last statement logged |
| AppFolioService.StagingName | src/services/appfolioService.ts:25 | the staging table is never the destination table |
| AppFolioService.Chain | src/services/appfolioService.ts:47-109 | the pages requested for one parameter start at the endpoint |
| AppFolioService.LoadPage | src/services/appfolioService.ts:54-108 | one turn of the page loop makes one request and then stores the page; on success it returns that page's `next_page_url` |
| AppFolioService.StorePage | src/services/appfolioService.ts:75-102 | on a parameter's first page, the page ensures staging with the keys of its first record; every page then goes through `batchInsert` or `bulkInsert`; a failed statement, the last one logged, is the error |
| AppFolioService.PageStep | src/services/appfolioService.ts:47-109 | after a failure or a page without a next page the parameter's loop is over; otherwise it continues at the next page address |
| AppFolioService.LoadParam | src/services/appfolioService.ts:44-109 | the `do ... while (nextPageUrl)` loop of one parameter carries out that parameter's plan |
| AppFolioService.LoadParams | src/services/appfolioService.ts:42-110 | the parameters are loaded in order, each from the endpoint afresh |
| AppFolioService.RemoveExistingRecords | src/services/appfolioService.ts:122-128 | one DELETE of the window's rows from staging |
| AppFolioService.PrepareUpsert | src/services/appfolioService.ts:119-128 | the incremental path drops staging, copies the destination into it and deletes the window from it, stopping at the first failed statement, which is the error and the last one logged |
| AppFolioService.SwapIntoPlace | src/services/appfolioService.ts:181-189 | drop the destination, then rename staging to it, stopping at the first failed statement, which is the error and the last one logged |
| AppFolioService.LoadStaging | src/services/appfolioService.ts:34-178 | the branch taken by the insert method and the options fills staging as its plan says |
| AppFolioService.ReplaceStaging | src/services/appfolioService.ts:34-110 | the replace path drops staging and then loads every parameter into it, in order; a failed drop ends it with that statement as the error |
| AppFolioService.UpsertStaging | src/services/appfolioService.ts:111-178 | the incremental path rebuilds staging as the destination without the window's rows, then loads every parameter into it; a failed statement ends it and is the error |
| AppFolioService.HandleAppFolioData | src/services/appfolioService.ts:16-203 | a non-array `params` does nothing; otherwise the branch runs and then the swap, and the first error is passed on: a failed statement is the last one logged |
| AppFolioService.DidStop | src/services/appfolioService.ts:197-202 | after an error nothing later in the call happens |
| AppFolioService.PreludeShape | src/services/appfolioService.ts:34-128 | each branch first drops staging, then only builds it, and never writes the destination |
| AppFolioService.LoadStmts | src/services/appfolioService.ts:34-178 | a branch sends its prelude and then its parameters' statements; with no branch taken it does nothing |
| AppFolioService.SwapLast | src/services/appfolioService.ts:180-189 | a call that loaded without error ends with the swap; an early end skips it |
| AppFolioService.SwapRegardless | src/services/appfolioService.ts:180-189 | with no branch taken, or no parameters on the replace path, the call still sends the swap |
| AppFolioService.Chains | src/services/appfolioService.ts:42-110 | at least one request per parameter |
| AppFolioService.ParamFetches | src/services/appfolioService.ts:47-109 | a parameter's loop requests the chain of next-page addresses until a failed request; only an empty first page on the replace path cuts it short |
| AppFolioService.ParamsFetches | src/services/appfolioService.ts:42-110 | without an early end, the parameters request their chains one after another, each starting at the endpoint |
| AppFolioService.InsertsBuild | src/services/appfolioService.ts:93-101 | the insert services only load the table they are given |
| AppFolioService.PageBuilds | src/services/appfolioService.ts:75-102 | a page's statements all go to staging |
| AppFolioService.ParamBuilds | src/services/appfolioService.ts:44-109 | a parameter's statements all go to staging |
| AppFolioService.ParamsBuild | src/services/appfolioService.ts:42-110 | all parameters' statements go to staging |
| AppFolioService.LoadLeavesDestination | src/services/appfolioService.ts:33-178 | nothing before the swap writes the destination table |
| AppFolioService.DestinationIntactUntilSwap | src/services/appfolioService.ts:33-189 | a call that ends before the swap (including one ended by the API or an empty first page) leaves the destination exactly as it was |
| AppFolioService.UpsertPreludeMeaning | src/services/appfolioService.ts:119-128 | incremental staging starts as the destination minus the window's rows; it fails when the destination or its date column is missing |
| AppFolioService.SwapMeaning | src/services/appfolioService.ts:182-189 | the swap succeeds exactly when staging exists, and then staging takes the destination's place |
| AppFolioService.FirstPageSends | src/services/appfolioService.ts:76-86 | a parameter's first page on the replace path creates staging |
| AppFolioService.ReplaceParamsSend | src/services/appfolioService.ts:42-86 | a replace path with parameters that ran to their end created staging |
| AppFolioService.StagingAfterLoad | src/services/appfolioService.ts:34-178 | a branch that builds staging and runs without error leaves a staging table |
| AppFolioService.SwapWithoutStagingLosesDestination | src/services/appfolioService.ts:180-189 | as written: with nothing loaded, the destination is dropped and then the rename of the missing staging table fails |
| AppFolioService.GuardedSwapReplaces | src/services/appfolioService.ts:180-189 | corrected: with the swap sent only when staging was built, staging replaces the destination, and an existing destination is never lost |
| AppFolioService.ChainRowsFollowChain | src/services/appfolioService.ts:46-108 | a parameter's transformed records are those of the pages of its chain of next-page addresses, page after page, with none from a failed request |
| AppFolioService.PageInsertsLoad | src/services/appfolioService.ts:88-102 | `batchInsert` or `bulkInsert` of a page appends the page's records to staging in order, each read under the keys the records share, and creates staging when it is missing; an empty page changes nothing |
| AppFolioService.PageLoads | src/services/appfolioService.ts:66-102 | one page's statements append its transformed records to staging after the rows already there |
| AppFolioService.CreatingPageLoads | src/services/appfolioService.ts:76-102 | a parameter's first page on the replace path ensures staging with its first record's keys and then appends its records |
| AppFolioService.ParamLoads | src/services/appfolioService.ts:44-108 | a parameter's loop that nothing ends early appends to staging the records of every page of its chain, in the order the pages were requested |
| AppFolioService.ParamsLoads | src/services/appfolioService.ts:42-109 | the loop over the parameters appends each parameter's records in turn; on the replace path the first parameter creates staging |
| AppFolioService.PreludeStages | src/services/appfolioService.ts:34-128 | after the branch's prelude, staging is empty on the replace path and holds the destination's rows outside the window on the incremental path; no table but the destination and staging has changed |
| AppFolioService.HandleStmtsSplit | src/services/appfolioService.ts:33-189 | a call whose branch runs to its end sends the prelude, then the parameters' statements, then the swap |
| AppFolioService.BranchStages | src/services/appfolioService.ts:34-178 | a branch that runs to its end leaves staging holding the kept rows followed by every loaded record, and every other table but the destination as it was |
| AppFolioService.HandleLoadsDestination | src/services/appfolioService.ts:33-189 | a call that builds staging and runs without error leaves the destination holding the kept rows (none on the replace path; on the incremental path the old rows whose date lies outside the window) followed by the records of every page of every parameter in request order; staging is gone and every other table is unchanged |
| Sync.TableName | src/sync.ts:33 | the destination table name is the report name behind the 9-character `appfolio_` prefix |
| Sync.TriedOutcome | src/sync.ts:26-75 | at most `retries` attempts; success exactly when an attempt succeeded (the last one) or none was made; failure only after `retries` failed attempts, with the last error |
| Sync.ProcessReport | src/sync.ts:23-76 | each attempt is a full `handleAppFolioData` from where the previous one ended, and the result is the outcome of the retry loop |
| Sync.ProcessAllReports | src/sync.ts:81-105 | every report is tried in order, whatever the outcome of the ones before it |
| Sync.RunPipeline | src/sync.ts:110-140 | connect; then all reports; then the procedure, the Tableau refresh and the disconnect, each only after everything before it succeeded; the first error is re-thrown; the procedure fails on a fault or when the warehouse rejects it; otherwise the final tables are the procedure's effect on the tables the reports left |
| Sync.FinishPipeline | src/sync.ts:123-139 | the procedure, the refresh and the disconnect in order, stopping at the first error; a failed procedure leaves the tables unchanged, otherwise they are what the procedure made of them |
| SyncState.MissingFileIsFirstRun | src/utils/state.ts:10-13 | without a state file the states are empty and every report name reads as a first run (names inherited from `Object.prototype` aside) |
| SyncState.MalformedFails | src/utils/state.ts:14-15 | a file that does not parse makes loading, saving and reading fail |
| SyncState.SaveUpdates | src/utils/state.ts:19-23 | a save succeeds exactly when the file loads; it then sets that name and keeps every other state |
| SyncState.SaveThenGet | src/utils/state.ts:19-29 | reading back a saved name gives the saved state, or the first-run state when the saved one is falsy; other names read as before |
| SyncState.SaveIdempotent | src/utils/state.ts:19-23 | saving the same state twice is saving it once |
| SyncState.ResetIsFirstRun | src/api/router.ts:7-9 | after the reset route the general ledger reads as a first run, and other reports are unchanged |
| Dates.DaysInMonth | src/utils/date.ts:25 | a month has 28 to 31 days |
| Dates.DayNumberInjective | src/utils/date.ts:11 | distinct valid dates have distinct day numbers |
| Dates.MakeDateNumber | src/utils/date.ts:24-25 | the `Date` constructor gives a valid date, `day - 1` days after the first of the month reached by counting `monthIndex` months from January |
| Dates.NextDayNumber | src/utils/date.ts:13 | `setDate(getDate() + 1)` gives the valid date one day later |
| Dates.AddMonthsNumber | src/utils/paramGenerator.ts:16-17 | `setMonth(getMonth() + k)` keeps the day of the month, carried over when the target month is shorter, and moves forward at least 28 days per month |
| Dates.DaysAfterNumber | src/utils/date.ts:11-14 | `n` steps of the loop land `n` days later |
| Dates.FormatDateRoundTrip | src/utils/date.ts:2-4 | the en-US rendering of a common-era date reads back as that date, so distinct dates render differently |
| Dates.ListedDays | src/utils/date.ts:11-14 | day `i` is listed exactly when, at the start's time of day, it is not later than `to` |
| Dates.GenerateDates | src/utils/date.ts:7-17 | the loop lists the rendering of `from` and of each following day while it is not later than `to` |
| Dates.GeneratedDates | src/utils/date.ts:7-17 | the list is empty when `from` is after `to`; otherwise it starts with `from`, lists one day after another, and has one entry per day of the inclusive range |
| Dates.MonthBoundsMeaning | src/utils/date.ts:20-27 | for months 1 to 12: the start is the first day and the end the last day of that month, at midnight; February has 29 days exactly in leap years |
| Dates.MonthBoundsSpan | src/utils/date.ts:20-27 | for any month number: the end is the day before the next month's first day, and the span is the month's length |
| ParamGenerator.WindowStep | src/utils/paramGenerator.ts:16-34 | a window ends between its start and `end`, and the next start is one day after it ends |
| ParamGenerator.GenerateGeneralLedgerParams | src/utils/paramGenerator.ts:4-38 | the loop produces the parameters of the windows from `start`, with the `<` guard as written |
| ParamGenerator.WindowAt | src/utils/paramGenerator.ts:15-35 | window `i` passes the guard, lies within the range, ends `months` months after its start or at `end`, and the next window starts the day after; after the last window the guard fails |
| ParamGenerator.FirstWindow | src/utils/paramGenerator.ts:13-15 | there are windows exactly when the first start passes the guard, and the first window starts at `start` |
| ParamGenerator.WindowsKeepTime | src/utils/paramGenerator.ts:13-34 | all window bounds keep the time of day of `start` and `end` when those agree |
| ParamGenerator.InclusiveWindowsCover | src/utils/paramGenerator.ts:15-35 | corrected: with `<=`, the windows cover the range from `start` to `end` without gap or overlap |
| ParamGenerator.January2024 | src/utils/paramGenerator.ts:16-17 | one month after 1 January 2024 is 1 February, and the day after is 2 February |
| ParamGenerator.ExclusiveGuardDropsLastDay | src/utils/paramGenerator.ts:15 | as written: from 2024-01-01 to 2024-02-02 in one-month steps there is a single window ending 1 February, so 2 February is never requested |
| ParamGenerator.AgedReceivablesMeaning | src/utils/paramGenerator.ts:41-55 | one parameter, not paginated, all properties, no tenant statuses, dated at the last day of the current month |
| Schedule.AllowedWindow | src/utils/time.ts:21-26 | the gate is open exactly from 07:00:00.000 up to, not including, 22:00:00.000 |
| Schedule.NextSevenAM | src/utils/time.ts:6-16 | the wait is positive and at most a day, a whole day exactly at 7 AM; it ends at 7 AM, and no earlier moment of it is 7 AM |
| Schedule.NextHourMarkKeepsMinutes | src/utils/time.ts:33-38 | as written: the result is exactly one hour later and keeps its minutes, so it is on the hour only if `now` was |
| Schedule.NextHourMarkIsNext | src/utils/time.ts:28-32 | corrected: the mark is on the hour, later than `now` by at most an hour, and no instant in between is on the hour |

## Left out

- Logging (`logger`, `console`) is not modelled. The debug lines that index `transformedData[0]` are left out too; they only read.
- The `paginated` argument of `handleAppFolioData` is left out. The third argument of `fetchAppFolioData` does not affect the request.
- The AppFolio client (`src/clients/appfolioClient.ts`) is a foreign HTTP call. It is modelled as a function `api(url, param)` that returns a page (`results` and `next_page_url`) or an error. The client returns `response.data.results` while the service destructures `{results, next_page_url}`; that mismatch is not reconciled. The API is taken to answer the same request the same way on every attempt.
- The body of `removeExistingRecords` and `convertToMMDDYYYY` are not part of this model. The delete's date test is a parameter of the warehouse (`inWindow`).
- `transformData` reads the clock once per record. The model takes one `fetched_at` stamp as a parameter of the whole pass (Sync.ProcessAllReports and Sync.RunPipeline); every report, attempt, parameter, page and record of the pass gets that same stamp.
- `executeSnowflakeProcedure`, the Tableau refresh (`src/services/tableauService.ts`), `connectToSnowflake` and `disconnectFromSnowflake` are foreign calls. They are modelled as statements that may fail, and the refresh's outcome is a parameter. The stored procedure's SQL lives in the warehouse and is not part of this model: its effect on the tables is a parameter of the warehouse (`procedure`), which may also reject it.
- `GenerateAppFolioReports()` (src/const/appfolio.ts) is not part of this model. The pass takes the report list it regenerates as the parameter `reports`.
- Scheduling `main()` on a timer and the Express server are left out. The clock rules are modelled with the current time as a parameter.
- Sql.ValidIdentifier reduces the warehouse's rule for unquoted identifiers to ASCII letters, digits, `_` and `$`, a first character that is a letter or `_`, a set of reserved words given with the warehouse (`reserved`) rather than Snowflake's own list, and names distinct once upper-cased. The 255-character length limit and non-ASCII letters are not modelled.
- AppFolioService.OptionalParam holds `dateField` and `dateFormat` as strings. The source reads them through the index signature of its `OptionalParam` type (src/types/OptionalParam.ts:7) with `as string` casts (src/services/appfolioService.ts:124-125), so an options object without them passes `undefined` to `removeExistingRecords`, and one with a boolean there passes the boolean; neither case is modelled.
- AppFolioService.HandleLoadsDestination states what the destination holds only when every transformed record of the call has the same keys in the same order, those keys are valid column names without line breaks, and the warehouse reads a CSV file back as written. Pages whose records differ in their keys, which the source loads positionally, are covered by the plan and the statement lemmas but not by this content statement.
- AppFolioService.HandleAppFolioData requires each parameter's page chain to end within a ghost bound `fuel`. A chain that never ends keeps the source looping for ever.
- AppFolioService.HandleAppFolioData and BatchInsertService.BatchInsert take `batchSize` as a positive whole number. With 0 the slicing loop of `batchInsert` never advances; negative and fractional sizes are not modelled.
- Csv.RowCells and Sql.RowsOf state only the shape of their result in their own contract. Their contents are stated by Csv.RowCellsAt and Sql.RowsOfAt.
- Records keep their keys in insertion order. JavaScript enumerates keys that look like array indices ("1", "42") first, in numeric order; for an API record holding such keys the model's key order, and so the order of the renamed columns, may differ from the source's. Once renamed, no key starts with a digit, so transformed records are not affected.
- Records hold only JSON scalars (string, integer number, boolean, null). Fractional numbers, `NaN`, `undefined` values and non-object state files are not modelled. A number in the CSV file is rendered as `String(n)` of an integer, and a boolean as `true` or `false`; a bound boolean is taken to land in a STRING column as that same text.
- Text.IntToString and Records.Value: numbers are unbounded integers. They agree with the source's only for safe integers (absolute value at most 2^53 - 1): `JSON.parse` rounds larger integers to the nearest double, and `String(n)` switches to exponent notation (`1e+21`) from 10^21 on, neither of which the model reproduces.
- SyncState.GetReportCacheState and SyncState.SaveState model the loaded states as a map of own keys. Names inherited from `Object.prototype` are not modelled: for "constructor", "toString" and the like the source reads a truthy inherited function where the model reads the first-run state, and assigning "__proto__" sets the prototype instead of storing a state. No report name of the configuration is such a name.
- SyncState models the state file as a value. Reading and writing the file system are left out, and so is a write that fails.
- The CSV file is modelled as the content `bulkInsert` writes, uploaded to the stage. Its path, the directory creation and a failed write are left out.
- Dates: every day has 24 hours. Daylight-saving transitions and time zones are not modelled, including luxon's conversion to America/Denver; the time of day is a parameter.
- ParamGenerator.GenerateGeneralLedgerParams takes the parsed `start` and `end` as parameters; `new Date(startDate)` string parsing is left out. `intervalInMonths` is a natural number: with a negative interval the source loops for ever, and fractional intervals are not modelled.
- Dates.FormatDate renders years before 1 CE as their number; the era suffix that `toLocaleDateString` adds for them is not modelled.
- src/insertData.ts (the older concurrent inserter) and the compiled copies under dist/ are not part of this model.

## Findings

| source | as written | input that shows it | evidently intended | confidence | as-written member | corrected member |
|---|---|---|---|---|---|---|
| src/services/appfolioService.ts:180-189 | the finalize step drops the destination and renames staging on every call on an array of parameters, even when no branch built staging | `BulkUpsert` with no `optionalParams`, or a replace-path report with `params = []`, while the destination exists and staging does not: the drop succeeds, the rename fails, and the destination is gone | swap only when staging was built; otherwise leave the destination alone | not executed | AppFolioService.SwapWithoutStagingLosesDestination | AppFolioService.GuardedSwapReplaces |
| src/utils/paramGenerator.ts:15 | the loop guard `currentStart < end` stops when the next window would start on `end` itself | start 2024-01-01, end 2024-02-02, interval 1: one window, 1/1/2024 to 2/1/2024; 2/2/2024 is never requested | `currentStart <= end`, so that the windows cover the whole range | not executed | ParamGenerator.ExclusiveGuardDropsLastDay | ParamGenerator.InclusiveWindowsCover |
| src/utils/time.ts:33-38 | `setHours(getHours() + 1)` keeps the minutes, seconds and milliseconds, although the documentation promises 0 minutes, 0 seconds and 0 milliseconds | now 10:30:00.000 gives 11:30:00.000 | the next whole hour, 11:00:00.000 | not executed | Schedule.NextHourMarkKeepsMinutes | Schedule.NextHourMarkIsNext |
