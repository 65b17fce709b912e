# Last-purchase report, modelled in Dafny

The project models two revisions of a job that reads contacts, invoices and
remissions from the Alegra API and reports, per client, the last purchase,
its price-list category ("Distribuidores" or "Mayoristas") and the days since
that purchase.

- `last_purchase_report.py` is the current engine. It keeps three Supabase
  tables:
  - `sales_processed`: every sale seen so far, keyed by `(sale_id, sale_type)`;
  - `clients_last_purchase`: the report, keyed by `cliente_id`;
  - `sync_state`: the cursor `last_sync`.

  A run is either a rebuild (truncate, fetch everything, report every client)
  or incremental. An incremental run fetches sales from the cursor on, skips
  stored keys, stores the new sales, and re-reports only the clients that
  bought.
- `las_purchase_report.py` is the older revision. It keeps a JSON cursor and a
  CSV report. It takes the greatest date string per client, categorises each
  client by their contact price list alone, merges with the previous CSV
  (the new row wins), and sorts by days without a purchase.

Modules, in dependency order:

| module | what it holds |
|---|---|
| `Wrappers` | `Option` |
| `Dates` | Python date ordinals, `fromisoformat` for `YYYY-MM-DD`, Python `str` ordering (`StrLess`), and the proof that string order is date order on well-formed ISO dates |
| `Paging` | `paginate` of the current engine: the specification `Drain` over given pages with a failing page index and a test-mode budget, and the loop method `Paginate` |
| `Batching` | slicing records into batches of 100, and the prefix that is written before a batch fails |
| `Classify` | `category_from_price`, shared by both revisions, and `is_within_timeframe` |
| `Contacts` | `extract_location_info`, `str.strip`, `fetch_contacts` |
| `Sales` | normalised sale events, the first-wins deduplication of `fetch_new_sales`/`fetch_all_sales`, and the last-wins collapse of `save_new_sales` |
| `Aggregate` | `get_last_purchases_from_sales` (one scan) and the loop of `get_last_purchases_from_db` (first row per client) |
| `Report` | the row rule shared by `build_full_report` and `update_client_reports`, and the upsert into `clients_last_purchase` |
| `Store` | the class `Backend` holding the three tables, and the ordered query behind `get_last_purchases_from_db` |
| `Engine` | `main()` as the two methods `RunRebuild` and `RunIncremental` over a `Backend` |
| `Legacy` | the whole CSV revision, including the class `ReportFiles` holding the CSV and the JSON cursor |

The following are parameters of the model, not effects inside it:
- the Alegra answers: pages of items, plus the index of the page whose request raises;
- the failures of Supabase calls: a `Faults` record;
- today's date: one integer day number;
- `TEST_MODE`, `TEST_MAX_CONTACTS` and `TEST_MAX_ITEMS`;
- the distributor and wholesaler price-list sets.

## Model

| member | source | states |
|---|---|---|
| Dates.ParseIsoDate | las_purchase_report.py:111 | `fromisoformat(...).date()` succeeds exactly on a well-formed `YYYY-MM-DD` naming a real calendar date, and yields that date's ordinal |
| Dates.DefaultSinceValue | last_purchase_report.py:437 | the default cursor `date(2020, 1, 1)` is ordinal 737425 |
| Dates.OrdinalMonotone | last_purchase_report.py:261 | comparing ordinals compares dates: an earlier (year, month, day) has a smaller ordinal |
| Dates.StrLessTotal | las_purchase_report.py:101 | Python string `<` is a strict total order: exactly one of `a == b`, `a < b`, `b < a` holds |
| Dates.StrLessTransitive | las_purchase_report.py:101 | Python string `<` is transitive |
| Dates.IsoStringOrderIsDateOrder | las_purchase_report.py:101 | on two strings that both parse as ISO dates, string `<` holds exactly when the first date is earlier |
| Dates.UnpaddedMonthMisorders | las_purchase_report.py:101 | without zero padding the string order is wrong: `"2024-10-01" < "2024-9-30"` although 30 September comes first |
| Paging.TestBudget | last_purchase_report.py:33-53 | the test cap exists only in test mode, and lets at least one item and at least `max_items` items through, because the count is checked after each yield |
| Paging.Paginate | last_purchase_report.py:27-62 | the `while True` loop yields exactly the items, and ends with exactly the `start`, of the reference drain `Drain` |
| Paging.YieldPage | last_purchase_report.py:49-53 | yielding one page stops at the test cap, taking only the items that fit; otherwise the whole page is appended and the count stays under the cap |
| Paging.DrainIsPrefix | last_purchase_report.py:40-62 | what a drain yields is a prefix of the concatenated pages: a failure or the cap only truncates |
| Paging.DrainRespectsBudget | last_purchase_report.py:49-53 | in test mode no more than the cap is yielded |
| Paging.StartCountsFullPages | last_purchase_report.py:55-58 | the final `start` is a multiple of 30, and every page it skipped was full |
| Paging.DrainThrough | last_purchase_report.py:40-58 | a run of full pages is consumed whole, and the drain resumes after them |
| Paging.WhereDrainStops | last_purchase_report.py:40-62 | without a cap, after full pages the drain ends on the failing page (dropping it), on the end of the pages, or on the first short page (keeping it) |
| Batching.ChunksPartition | last_purchase_report.py:132-135 | the batches concatenate back to the records, in order, and each batch holds 1 to 100 records |
| Batching.BatchCount | last_purchase_report.py:132-133 | there are ⌈n/100⌉ batches |
| Batching.NoRecordsNoBatches | last_purchase_report.py:116-117 | no records means no upsert |
| Batching.WrittenBatchesArePrefix | last_purchase_report.py:133-138 | the batches written before a failing one are a prefix of the records, and all of them when none fails |
| Batching.SentIsPrefix | last_purchase_report.py:133-138 | what reaches the table is a prefix of the records: all of them when no batch fails, nothing when there are none |
| Classify.CategoryFromPrice | last_purchase_report.py:293-298 | "Distribuidores" iff the id is in the distributor set; "Mayoristas" iff it is not but is in the wholesaler set; `None` iff the id is `None` or in neither set |
| Classify.IsWithinTimeframe | last_purchase_report.py:300-303 | the window is measured in whole days counted back from today, with the cutoff day itself inside (the boundary at the default setting is `DefaultWindowIs180Days`) |
| Classify.DefaultWindowIs180Days | last_purchase_report.py:300-303 | with the default of 6 months, 180 days ago is inside and 181 days ago is outside |
| Classify.WindowMonotone | last_purchase_report.py:300-303 | widening the window keeps every purchase that was inside |
| Contacts.TrimStart | last_purchase_report.py:154 | the result is a suffix of the input, only whitespace was removed, and it does not start with whitespace |
| Contacts.TrimEnd | last_purchase_report.py:154 | the result is a prefix of the input, only whitespace was removed, and it does not end with whitespace |
| Contacts.StripIsTrimmedSlice | last_purchase_report.py:154 | `strip()` returns a contiguous slice whose removed ends are whitespace and whose own ends are not |
| Contacts.StripKeepsTrimmed | last_purchase_report.py:154 | `strip()` leaves a string without surrounding whitespace unchanged |
| Contacts.ExtractLocationInfo | last_purchase_report.py:140-154 | city and state are always strings, never `None`, and neither starts nor ends with white space |
| Contacts.LocationPrecedence | last_purchase_report.py:140-154 | a non-empty address value wins, stripped; otherwise the stripped flat field, or `""` when it is absent or not a string |
| Contacts.PrecedenceOfField | last_purchase_report.py:144-152 | the same precedence for one field, with or without an address object |
| Contacts.LocationFieldCases | last_purchase_report.py:149-154 | a truthy address value is stripped and returned; a falsy one falls back to the flat field |
| Contacts.BlankAddressCityHidesFlatCity | last_purchase_report.py:144-150 | an address city of `" "` is truthy, so it blocks the flat city and strips to `""` |
| Contacts.FetchContacts | last_purchase_report.py:156-173 | each id in what the drain yielded maps to the contact built from the last record with that id, and no other id is present |
| Contacts.IndexContacts | last_purchase_report.py:157-173 | the loop builds exactly that map from a sequence of contact records |
| Contacts.IndexStep | last_purchase_report.py:165-171 | one assignment `contacts[cid] = ...` keeps the map equal to the index of the records read so far |
| Sales.KeyStringInjective | last_purchase_report.py:221 | the key string `"{id}_{type}"` identifies the `(id, type)` pair |
| Sales.NormalizeAll | last_purchase_report.py:223-234 | each raw record yields exactly one normalised sale, in order |
| Sales.DedupKeys | last_purchase_report.py:220-238 | the kept keys are the arrived keys minus the stored ones |
| Sales.DedupDistinct | last_purchase_report.py:222 | no two kept sales share a key |
| Sales.DedupKeepsFirst | last_purchase_report.py:222 | each kept sale is the first arrival of its key |
| Sales.DedupKeepsInvoicesFirst | last_purchase_report.py:220-250 | every kept invoice precedes every kept remission |
| Sales.DedupIsFromInput | last_purchase_report.py:214-252 | every kept sale is one of the arrivals |
| Sales.CollectKind | last_purchase_report.py:220-234 | one endpoint's loop extends the dictionary to exactly the first-wins deduplication of all arrivals so far, and its key set |
| Sales.CollectSales | last_purchase_report.py:214-252 | both loops together give the first-wins deduplication of invoices followed by remissions |
| Sales.FetchNewSales | last_purchase_report.py:212-252 | the new sales are the first-wins deduplication, against the stored keys, of what the two drains yielded |
| Sales.FetchAllSales | last_purchase_report.py:175-210 | as `FetchNewSales` with no stored key |
| Sales.FetchedSalesProperties | last_purchase_report.py:212-252 | no key string of a result is in `existing_ids`; keys are distinct; first arrival kept; keys are arrivals minus stored; invoices before remissions |
| Sales.CollapseKeys | last_purchase_report.py:119-130 | collapsing keeps every key |
| Sales.CollapseDistinct | last_purchase_report.py:119-130 | after collapsing no key repeats |
| Sales.CollapseKeepsLast | last_purchase_report.py:119-130 | each collapsed record is the last arrival of its key |
| Sales.CollapseOfDistinct | last_purchase_report.py:119-130 | records with distinct keys are left as they are |
| Aggregate.LastPurchasesFromSales | last_purchase_report.py:254-267 | the loop computes exactly the scan `ScanLastPurchases` |
| Aggregate.ScanCoversClients | last_purchase_report.py:254-267 | the result's keys are exactly the clients of the sales |
| Aggregate.ScanKeepsFirstLatest | last_purchase_report.py:257-265 | each client maps to its first sale of maximal date: its date is the maximum, and an equal later date does not replace it (strict `>`) |
| Aggregate.LastPurchasesFromRows | last_purchase_report.py:276-287 | the loop over query rows computes exactly `FirstRows`, the first row per client |
| Aggregate.FirstRowsAreFirst | last_purchase_report.py:277-285 | the keys are the clients of the rows, and each client maps to its first row |
| Aggregate.FirstRowIsLatest | last_purchase_report.py:272-285 | with rows ordered by client, then date descending, the first row of a client carries its greatest date |
| Aggregate.ModesAgreeOnDates | last_purchase_report.py:269-291 | the query path and the scan path give the same clients and the same last dates for the same sales |
| Aggregate.SameLatestDate | last_purchase_report.py:269-291 | for one client both paths give the same last date |
| Report.RowFor | last_purchase_report.py:336-364 | a client gets a row iff it is a contact, the sale's price list (if non-empty) or else the contact's default has a category, and the last purchase is at most 180 days old; the row carries that price list and category, `today - last` days, and the contact's name, email (each `None` when the contact had a JSON `null`), city and state |
| Report.SalePriceListDecides | last_purchase_report.py:342-346 | a non-empty sale price list alone decides the category |
| Report.ExpectedRowsExactly | last_purchase_report.py:336-364 | the expected report holds a client iff it is among the clients considered, has a last purchase and passes the row rule, and its row is that rule's row |
| Report.RowsForClients | last_purchase_report.py:380-412 | the loop lists exactly the expected rows, each client once, in some order |
| Report.BuildFullReportRows | last_purchase_report.py:331-368 | the rebuild's rows are the expected rows of every client, from the scan of all sales |
| Report.UpdateClientReportRows | last_purchase_report.py:370-416 | the incremental rows are the expected rows of the clients in the new sales, from the stored last purchases |
| Report.UpdateTouchesOnlyNewClients | last_purchase_report.py:372-412 | every incremental row belongs to a client of the new sales, and is that client's row from the stored last purchase |
| Report.UpsertListedRows | last_purchase_report.py:322-325 | upserting rows that list a report overrides the table with exactly that report, whatever the order |
| Report.UpsertKeepsRows | last_purchase_report.py:322-325 | an upsert deletes no row: the table then holds the old clients and the upserted ones |
| Store.StoreSalesAppend | last_purchase_report.py:133-135 | upserting in two batches is the same as upserting their concatenation |
| Store.StoreSalesKeys | last_purchase_report.py:133-135 | after an upsert the table holds the old keys and the upserted ones |
| Store.StoreSalesDistinct | last_purchase_report.py:133-135 | with distinct keys every upserted record is stored as is, and untouched keys keep their rows |
| Store.SavedSalesAreLastRead | last_purchase_report.py:119-135 | after `save_new_sales` each key read holds its last arrival, and every other stored sale is unchanged |
| Store.InsertRowSorted | last_purchase_report.py:272-274 | inserting a row into a query-ordered sequence keeps it ordered and adds exactly that row |
| Store.SortRowsSpec | last_purchase_report.py:272-274 | the query order (client ascending, date descending) is a sorted permutation of the stored rows |
| Store.SortedRowsByClientDate | last_purchase_report.py:272-274 | in the query order, the rows of one client have non-increasing dates |
| Store.StoreQueryIsLatest | last_purchase_report.py:269-287 | over any rows in query order, the first row per client is a latest stored sale of that client, for every stored client |
| Store.StoredLatestOfClient | last_purchase_report.py:277-285 | the same, for one client |
| Store.UpsertRowsAppend | last_purchase_report.py:322-325 | upserting report batches one after another is one upsert of all of them |
| Store.CollapseSales | last_purchase_report.py:119-130 | the dictionary loop of `save_new_sales` yields exactly the last-wins collapse, in first-arrival order |
| Store.ReplaceInPlace | last_purchase_report.py:122-128 | overwriting a key that is present replaces its value in place and keeps the keys |
| Store.Backend.constructor | last_purchase_report.py:68-72 | the backend holds the three tables given |
| Store.Backend.TruncateTables | last_purchase_report.py:64-76 | the three tables are cleared in order; a failing delete raises and leaves that table and the ones after it as they were |
| Store.Backend.LoadState | last_purchase_report.py:89-98 | the stored cursor, or `None` when the read fails |
| Store.Backend.SaveState | last_purchase_report.py:78-87 | the cursor becomes the given date, or stays when the write fails, and the other tables are unchanged |
| Store.Backend.ExistingSaleKeys | last_purchase_report.py:100-110 | the stored sale keys, or the empty set when the read fails |
| Store.Backend.SaveNewSales | last_purchase_report.py:112-138 | the sales table is upserted with the batches of the collapsed records up to the failing one; the error is swallowed and the other tables are unchanged |
| Store.Backend.SaveReports | last_purchase_report.py:305-329 | the report table is upserted batch by batch up to the failing one; it reports failure iff a batch failed |
| Store.Backend.QueryLastPurchases | last_purchase_report.py:269-291 | the map covers exactly the clients with stored sales, each mapped to a latest stored sale, or is empty when the query fails |
| Store.Backend.StoreRows | last_purchase_report.py:272-274 | the query returns exactly the stored rows |
| Engine.RunRebuild | last_purchase_report.py:422-428 | a failing truncate aborts with the tables in the state the deletes left; otherwise the sales table holds what was written of the collapsed fetch, the rows are the expected rows of every fetched client, the report table holds what was upserted, the run aborts iff a report batch fails, and the cursor is today only when the run did not abort and the write succeeded |
| Engine.ReadIncremental | last_purchase_report.py:432-440 | the cursor is the stored `last_sync` or 2020-01-01; the contacts index the drain; the new sales are the deduplication of what was fetched from the cursor on against the stored keys |
| Engine.RunIncremental | last_purchase_report.py:430-447 | no new sale leaves the sales and report tables unchanged; otherwise the new sales are stored, the last purchases are the latest stored sales, and only clients of new sales are re-reported; the cursor becomes today unless a report batch aborts the run or the write fails |
| Engine.NothingToReport | last_purchase_report.py:442 | with no new sale there is no row to upsert and no batch that can fail |
| Engine.ReportNewSales | last_purchase_report.py:442-445 | storing the new sales, querying the last purchases and upserting the rows of the new sales' clients; the cursor is untouched |
| Engine.NewSalesAreStored | last_purchase_report.py:442-443 | after saving, every new sale is stored as fetched |
| Engine.QueryCoversNewClients | last_purchase_report.py:443-445 | after saving, the query covers every client of the new sales, at a date no earlier than any of its new sales |
| Engine.RebuildStoreAgreesWithScan | last_purchase_report.py:425-427 | after a rebuild, the clients and latest dates in the table are those of the scan the rebuild report used |
| Engine.StoredLatestIsScanned | last_purchase_report.py:425-427 | a latest stored sale of a client has that client's scanned date |
| Engine.RetrySkipsStoredSales | last_purchase_report.py:220-238 | the next run skips every sale this run stored: its new keys are the arrivals minus the stored keys and this run's keys |
| Legacy.Paginate | las_purchase_report.py:35-48 | the loop yields exactly the reference drain: pages up to the first short one, or `None` when a request raises |
| Legacy.DrainAgreesWithCurrent | las_purchase_report.py:35-48 | when no request raises, the old drain yields what the current engine's drain does without a test cap; it fails iff a request is reached that raises |
| Legacy.PriceIdOf | las_purchase_report.py:71 | `str(c.get("priceList", {}).get("id"))`: `"None"` without a price list or an id; the id otherwise; a failure (`None`) when `priceList` is null |
| Legacy.PriceIndexSpec | las_purchase_report.py:67-73 | the index fails iff some contact has a null `priceList`; otherwise its keys are the contact ids and each maps to the price id of that id's last contact |
| Legacy.FetchContacts | las_purchase_report.py:67-73 | the contacts loop yields exactly that index of what the drain yielded, or fails when the drain fails |
| Legacy.IndexStaysFailed | las_purchase_report.py:69-72 | once a contact raises, the whole fetch fails |
| Legacy.FetchSales | las_purchase_report.py:75-84 | succeeds iff both drains do; yields all invoice pairs, then all remission pairs, one per item, without deduplication |
| Legacy.Cursor | las_purchase_report.py:133-135 | no stored `last_sync` gives no filter; otherwise the filter is the day after it |
| Legacy.LastDates | las_purchase_report.py:99-102 | the loop computes exactly `ScanLastDates` and the order in which clients were first seen |
| Legacy.LastDatesAreGreatest | las_purchase_report.py:99-102 | every client of the pairs has an entry, and it is the greatest of that client's date strings under string order |
| Legacy.GreatestStringIsLatestDate | las_purchase_report.py:99-102 | when all of a client's dates parse, the greatest string parses to the latest date |
| Legacy.ClientOrderSpec | las_purchase_report.py:99-106 | the dict order lists each client exactly once |
| Legacy.RowForClient | las_purchase_report.py:106-118 | no row iff the contact's price id has no category; an error iff it has one and the date does not parse; otherwise a row with that price id and category, the parsed date and `today - last` days |
| Legacy.RowsForFails | las_purchase_report.py:106-118 | building the rows fails iff some client with a category has a date that does not parse |
| Legacy.RowsForRows | las_purchase_report.py:106-118 | on success the rows are exactly the qualifying clients, each once, each with its own row |
| Legacy.CollectRows | las_purchase_report.py:105-118 | the `rows.append` loop yields exactly `RowsFor` |
| Legacy.RowsStayFailed | las_purchase_report.py:106-111 | once `fromisoformat` raises, the whole report fails |
| Legacy.KeepLastSpec | las_purchase_report.py:122-123 | `drop_duplicates(keep="last")` keeps every client, each once, with its last row |
| Legacy.NewRowsKept | las_purchase_report.py:121-123 | after the merge every new row is present, and a client with a new row has no old row left |
| Legacy.SortByDaysSpec | las_purchase_report.py:126 | the sort is a permutation with non-increasing `dias_sin_compra` that keeps the clients and their distinctness |
| Legacy.EmptyFirstRunRaises | las_purchase_report.py:120-126 | with no previous rows and no new row, the code as written raises instead of returning a report |
| Legacy.MergeAsWrittenOtherwise | las_purchase_report.py:120-126 | in every other case the code as written returns the corrected merge, and where it raises the corrected merge is empty |
| Legacy.MergeSpec | las_purchase_report.py:120-126 | the merged report is sorted by days, each client is in it once, the clients are the previous ones plus the new ones, every new row is in it, and a client with a new row keeps only that row |
| Legacy.BuildReport | las_purchase_report.py:97-126 | the method computes exactly the reference `Report` |
| Legacy.ReportFails | las_purchase_report.py:106-111 | the report fails iff some client with a category has a greatest date string that does not parse |
| Legacy.ReportedIsQualifying | las_purchase_report.py:106-118 | the clients that get a row while walking `last.items()` are exactly the clients of the pairs whose row rule yields a row |
| Legacy.ReportAsWrittenFails | las_purchase_report.py:120-126 | `build_report` as written fails iff the corrected report fails, or there are no previous rows and no client qualifies; whenever it returns a report, it returns the corrected one |
| Legacy.ReportContents | las_purchase_report.py:97-126 | a report is sorted by days, lists each client once, lists exactly the previous clients and the qualifying ones, and holds each qualifying client's new row |
| Legacy.ReportFiles.constructor | las_purchase_report.py:52-63 | the files hold the report and the cursor given |
| Legacy.ReportFiles.Run | las_purchase_report.py:130-148 | a run succeeds iff every fetch succeeds and the report is built; the CSV and cursor are then the report and today, and otherwise both are unchanged |

## Left out

- HTTP, authentication, timeouts and `time.sleep` are not modelled. Each endpoint is a given sequence of pages plus the index of the page whose request raises.
- Supabase is not modelled as a service. Its three tables are maps in `Store.Backend`, and each call's failure is a field of `Engine.Faults`. Log output is not modelled.
- pandas, CSV and JSON files are not modelled. The CSV is a sequence of rows and the JSON state an optional date, both fields of `Legacy.ReportFiles`.
- Legacy.MergeSpec: assumes a `cliente_id` keeps its type through the CSV round trip. `read_csv` turns an all-digit column into integers; if the API sends client ids as JSON strings, a new row's id never equals an old row's, `drop_duplicates` keeps both, and "each client once / the new row wins" fails. The same assumption holds for `Legacy.NewRowsKept`, `Legacy.ReportContents` and `Legacy.ReportFiles.Run`.
- `datetime.now(LOCAL_TZ)` is one `today` parameter. The source calls it separately for the report rows, for the window check and for `save_state`; those calls could fall on different days around midnight.
- Environment variables (`REBUILD_MODE`, `TEST_MODE`, `TEST_MAX_*`) and the config JSON are parameters, not reads.
- Store.Backend.TruncateTables: clears each table completely. The source deletes rows with `id != 0`, so a row whose `id` is 0 would survive.
- Supabase's default cap on the rows a `select` returns is not modelled. `get_existing_sales_ids` and `get_last_purchases_from_db` see every stored row.
- `client_id` is stored as text, but the query is modelled as ordering clients as integers. Only the grouping by client matters to the first-row rule, and `FirstRowIsLatest` needs only that each client's rows have non-increasing dates.
- `sale_date` is held as a day number in both the current engine's scan and its table. ISO strings from the API are assumed to parse.
- Report.RowsForClients: the row order is left unspecified, because the source iterates a set or a dict. Its contract says which rows are emitted and that each client appears once, not their order.
- Engine.RunRebuild: on equal latest dates, the rebuild reports the first-seen sale's price list, while the database query may return another. The two modes agree on the date (`ModesAgreeOnDates`), not on the price list.
- Engine.RunIncremental: the cursor is saved "today" only when no report batch failed. The source re-raises from `save_to_supabase`, so `main` never reaches `save_state` then. `save_new_sales` swallows its own errors (last_purchase_report.py:136-138), while `save_to_supabase` re-raises (last_purchase_report.py:327-329).
- Stale report rows are never deleted, as in the source. No deletion rule is modelled.
- Legacy.RowForClient: there is no recency window, and previous rows keep the `dias_sin_compra` computed when they were written. Both are as in the source.
- Legacy.PriceIdOf: a contact whose `priceList` is null makes the source raise `AttributeError`. The model turns that into a failed run.
- Legacy.RowForClient: `fromisoformat` is modelled only for `YYYY-MM-DD`. Every other form, including forms that Python 3.11 would accept, counts as an error.
- Legacy.BuildReport: computes the corrected `build_report`. On a run without previous rows (no CSV, or a header-only one) in which no client qualifies, it returns an empty report, where the source's `sort_values` raises `KeyError`. `Legacy.ReportAsWritten` is the source as written, and `Legacy.ReportAsWrittenFails` states exactly when the two differ.
- Legacy.ReportFails: characterises the corrected report only. The source also fails on the empty first run above; `Legacy.ReportAsWrittenFails` adds that disjunct.
- Legacy.ReportFiles.Run: runs the corrected report. On the empty first run above it writes an empty CSV and sets the cursor to today, where the source's `main` raises before `to_csv` and `save_state` and leaves both files as they were.
- Legacy.SortByDaysSpec: pandas' `sort_values` is not stable. The model sorts by insertion, and its contract fixes no order among rows with equal `dias_sin_compra`.
- Dates.ParseIsoDate: only the proleptic Gregorian calendar over years 1 to 9999 is modelled; time zones and times of day are not.

## Findings

| source | as written | input that shows it | evidently intended | confidence | as-written member | corrected member |
|---|---|---|---|---|---|---|
| las_purchase_report.py:120-126 | with no new row and no non-empty previous CSV, `pd.DataFrame([])` has no `dias_sin_compra` column and `sort_values` raises `KeyError` | a first run (no CSV) in which no client's price list has a category | an empty report is written and the cursor advances | not executed | Legacy.EmptyFirstRunRaises | Legacy.MergeSpec |
