# tap_salesforce extraction core, in Dafny

A model of the incremental-extraction logic of the `tap_salesforce` Singer tap, with proofs of its properties. The tap pulls Salesforce tables as record streams and keeps a per-table bookmark so that the next run resumes where the last one stopped. The model covers:

- **Query planning.** `construct_query` renders the SOQL text for one table over a half-open window `[start, end)`. `field_chunker` splits an over-long field list into chunks by a character budget.
- **Request handling.** `_make_request` post-processes each response: error responses raise, the run's request counter is incremented and the quota is checked. `_check_rest_quota_usage` is the quota governor. `_paginate` follows `nextRecordsUrl` cursors.
- **Dispatch and shrinking in `get_records`.** A query within 10000 characters is sent whole. A longer one is split into one query per field chunk, or refused when the table has no primary key. On a `QUERY_TIMEOUT`/`OPERATION_TOO_LARGE` error the window is split into `factor` sub-windows, each extracted with `factor + 1`.
- **The two record mergers.** The client's lock-step `merge_records` (repeated as `merge_records_old` in the merge test script). The key-buffering `merge_records_new` of that script. The script's reordered-input scenario.
- **Bookmark state** (`State.set_stream_state` / `get_stream_state`). A map of maps with a `SystemModstamp` fallback and an "append `Z` / drop last character" round trip.
- **Salesforce error bodies** (`build_salesforce_exception`) and the exception kinds.
- **The driver** in `__init__.py`:
  - the per-record bookmark update of `sync`;
  - its bounded retry on `PrimaryKeyNotMatch`, resuming from the last delivered record;
  - the state write on every exit;
  - the table-skip rules, start time, weekly re-windowing and `HTTPError` handler of `main_impl`;
  - the exit codes of `main`.

The model has one module per concern:

| module | file | concern |
|---|---|---|
| `Base` | base.dfy | `Option`, `Flatten` |
| `Text` | text.dfy | digits and decimal text, `Join`, duplicate removal |
| `Json` | json.dfy | JSON values, Python truthiness, `dict.update` |
| `Clock` | clock.dfy | integer microsecond instants, windows, `timedelta` rounding |
| `Errors` | errors.dfy | exceptions and error bodies |
| `Tables` | tables.dfy | table descriptions |
| `Query` | query.dfy | query text and field chunks |
| `Quota` | quota.dfy | the quota governor |
| `Pagination` | pagination.dfy | response handling and the cursor loop |
| `Merge` | merge.dfy | both mergers |
| `MergeScenarios` | merge_scenarios.dfy | the test script's scenario |
| `Bookmarks` | bookmarks.dfy | state |
| `Schedule` | schedule.dfy | the weekly rule |
| `Extract` | extract.dfy | `get_records` |
| `Orchestrator` | orchestrator.dfy | `sync`, `main_impl`, `main` |

Modelling choices:

- **Generators.** A lazily consumed generator is a `Stream`: the records it yields, then either exhaustion or the exception it raises. Records yielded before an exception are kept, as a consumer of a Python generator sees them.
- **The server.** Requests are not performed. The service is a parameter `Server` (query text to `Stream`). The driver sees extraction through a `Fetch` function that also takes the attempt number, so a retried query can be answered differently. `Orchestrator.Extractor` builds that function from `Extract.GetRecords`, with one `Server` per attempt. Pagination is modelled over the list of responses the server gives.
- **Time.** An instant is an integer number of microseconds, the resolution of `datetime`. Timestamp text (`strftime`, `isoformat`, `strptime`, `fromisoformat`) is replaced by the decimal text of that integer (`Clock.Format`/`Clock.Parse`). The "append `Z`, drop the last character" round trip of the state is kept exactly. The query bounds are different: `strftime('%Y-%m-%dT%H:%M:%SZ')` drops the fraction of a second and always has 20 characters for years 1000 to 9999. `Clock.QueryTime` keeps both properties: it is the whole number of seconds since year 1, zero-padded to 19 digits, followed by `Z`.
- **Arithmetic.** Window arithmetic and quota percentages are exact `real`s. `timedelta(seconds=x)` rounds to whole microseconds, half to even (`Clock.RoundHalfEven`).
- **Python exceptions.** Built-in exceptions the code can raise (`KeyError`, `TypeError`, `IndexError`, `ValueError`, `AttributeError`, `ZeroDivisionError`, and `RecursionError` for recursion depth) are values of one `Exc` datatype.
- **Output.** What the tap writes to its output is a list of `Event`s: a record of a stream, or a checkpoint of the whole state.

## Model

| member | source | states |
|---|---|---|
| Errors.BuildSalesforceException | tap_salesforce/exceptions.py:49-73 | An unparseable body gives a Salesforce error "response code: <status>" with code "UNKNOWN". Otherwise there is an error exactly when the body is a non-empty list whose first element is an object with a non-null `message`. Its message is that `message` and its code is `errorCode`, or null when that is absent. |
| Errors.OnlyFirstErrorConsulted | tap_salesforce/exceptions.py:62-73 | For a parseable list body, elements after the first and the status code do not change the result. |
| Errors.QueryLengthIsNotTapOrSalesforce | tap_salesforce/exceptions.py:14-37 | `QueryLengthExceedLimit` is neither a `TapSalesforceException` nor a `SalesforceException`. |
| Bookmarks.Stored | tap_salesforce/state.py:13-16 | A datetime is stored as text ending in "Z", and dropping that "Z" gives the instant's text. Any other value is stored as it is. |
| Bookmarks.SetStreamState | tap_salesforce/state.py:10-17 | After setting, the stream holds the stored value under the key. |
| Bookmarks.SetStreamStateFrame | tap_salesforce/state.py:12-17 | Setting leaves every other key of the stream and every other stream as it was, including absent ones. |
| Bookmarks.SetStreamStateOverwrites | tap_salesforce/state.py:10-17 | Setting a key twice is the same as setting it once to the second value. |
| Bookmarks.SetStreamStateIdempotent | tap_salesforce/state.py:10-17 | Setting the same value twice gives the same state as setting it once. |
| Bookmarks.GetAfterSetDate | tap_salesforce/state.py:10-32 | After storing an instant under the replication key, reading it gives back exactly that instant. |
| Bookmarks.GetAfterSetElsewhere | tap_salesforce/state.py:19-26 | Setting another stream, or a key the reader does not look at, does not change what is read. |
| Bookmarks.GetReadsTwoKeys | tap_salesforce/state.py:22-26 | The reader's result depends only on the replication key's and the legacy key's values. |
| Bookmarks.GetFallsBackToLegacy | tap_salesforce/state.py:22-26 | When the replication key is missing or holds a falsy value, the result is what `SystemModstamp` alone gives. |
| Bookmarks.GetPrefersReplicationKey | tap_salesforce/state.py:22-26 | When the replication key holds a truthy value, the legacy key is not read. |
| Bookmarks.GetStreamState | tap_salesforce/state.py:19-32 | The reader returns no bookmark exactly when neither key holds a truthy value. Its only errors are `ValueError` and `TypeError`. |
| Query.PlanQuery | tap_salesforce/client.py:304-334 | The query's parts:<br>• SELECT lists each given field once.<br>• A range filter exists iff there is a replication key. It admits exactly the values from the start truncated to the second up to, but not including, the end truncated to the second.<br>• ORDER BY is the replication key followed by the primary key when there is one, and is empty without a replication key.<br>• A limit is kept iff it is truthy. |
| Query.ConstructQueryHasRange | tap_salesforce/client.py:313-317 | With a replication key, the text contains `WHERE rk >= start  AND rk < end`, with both bounds rendered as whole-second timestamps. |
| Clock.QueryTimeWidth | tap_salesforce/client.py:314-316 | A rendered query bound has 20 characters for every instant from year 1 to year 9999. |
| Query.RangeTextLength | tap_salesforce/client.py:313-317 | For such bounds the range clause has `60 + 2·|rk|` characters, whatever the window. So the length of a query, and whether it is split, does not depend on the window. |
| Query.SameSecondsSameQuery | tap_salesforce/client.py:313-317 | Windows whose bounds lie in the same seconds give the same query text. |
| Query.NoKeySameQuery | tap_salesforce/client.py:313-329 | Without a replication key every window gives the same query text. |
| Query.AdmitsWholeSeconds | tap_salesforce/client.py:313-317 | The filter cannot tell apart two instants in the same second. |
| Query.AdmitsRereadsSecond | tap_salesforce/client.py:313-317 | A window that starts in the middle of a second admits the earlier instants of that second. A run resumed from a bookmark therefore reads again the records of the bookmark's second. |
| Query.AdmitsAdjacent | tap_salesforce/client.py:313-317 | The filters of two adjacent windows never admit the same value. Together they admit exactly what the filter of the joined window admits. |
| Query.ConstructQueryHasOrder | tap_salesforce/client.py:324-326 | With a replication key, the text contains `ORDER BY rk ASC`, followed by `,pk ASC` exactly when a primary key exists. |
| Query.ConstructQueryLimit | tap_salesforce/client.py:331-335 | The text ends in `LIMIT n` when the limit is truthy, and has no limit clause otherwise, so `0` gives none. |
| Query.ConstructQueryUnfiltered | tap_salesforce/client.py:327-335 | Without a replication key, only blanks separate the FROM clause from the limit clause: no WHERE and no ORDER BY. |
| Query.QueryLengthIgnoresSelectOrder | tap_salesforce/client.py:307 | Every enumeration order of the field set gives a query of the same length, so whether a query is over the ceiling does not depend on set order. |
| Query.FieldChunker | tap_salesforce/client.py:338-349 | The chunks:<br>• They concatenate back to the field list exactly.<br>• There are none iff there are no fields, and none is empty.<br>• Every chunk but the last is over the budget.<br>• Every chunk of two or more fields is within the budget without its last field. |
| Query.FieldChunkerSplits | tap_salesforce/client.py:344-348 | A list over the budget before its last field is split into at least two chunks. |
| Query.ChunkFieldLists | tap_salesforce/client.py:389-391 | Chunk query `i` lists chunk `i`, then the primary key, then the replication key. |
| Query.ChunkPlansShareWindow | tap_salesforce/client.py:389-398 | Every chunk query selects both keys and has the full query's filter, ordering and limit. Every field is selected by some chunk query. |
| Quota.ParseUsageComplete | tap_salesforce/client.py:548-553 | Every header of the form `api-usage=N/M`, with decimal digits and at most one trailing newline, parses to the values of `N` and `M`. |
| Quota.ParseUsageSound | tap_salesforce/client.py:548-553 | A header parses only when it has that form, and the result is then the two numbers it spells. |
| Quota.ParseUsageHeader | tap_salesforce/client.py:548-553 | `api-usage=N/M` parses to `(N, M)`, also with one trailing newline, which Python's `$` admits. |
| Quota.CheckQuota | tap_salesforce/client.py:547-553 | A missing header raises `TypeError`. A header that does not match raises nothing. A matching one is judged on its two numbers. |
| Quota.CheckUsage | tap_salesforce/client.py:555-575 | A total of zero raises `ZeroDivisionError`, and nothing else does. The only other outcomes are the two quota errors. |
| Quota.CheckUsageCeilings | tap_salesforce/client.py:555-575 | The ceilings:<br>• The daily ceiling fires iff `used * 100 > percentTotal * total`.<br>• The per-run ceiling fires iff the daily one does not and `requests > percentPerRun * total`.<br>• A request passes iff neither fires.<br>• Equality never raises. |
| Quota.QuotaVetoAt85Percent | tap_salesforce/client.py:563-566 | 85% usage against the default 80% ceiling is vetoed, whatever the run's request count. |
| Quota.PerRunCeilingIsAFraction | tap_salesforce/client.py:571-575 | With the defaults, the per-run ceiling fires only once a run has made more than 25 times the daily total. |
| Pagination.CompleteRequest | tap_salesforce/client.py:484-491 | A non-2xx response with a Salesforce error body raises that error. Otherwise a 4xx/5xx response raises `HTTPError`. Otherwise, for a 2xx response and equally for a 1xx or 3xx response without an error body, the counter is incremented and the quota is checked against the new count. The response passes iff that check passes, and a failed check raises the quota error. |
| Pagination.DecodePage | tap_salesforce/client.py:449-451 | The outcomes:<br>• A body that is not JSON raises `ValueError`, and a non-object body raises `AttributeError`.<br>• A page has a cursor iff `nextRecordsUrl` is present and not null.<br>• A missing `records` gives an empty page.<br>• A present `records` gives a page iff it is a list of objects, and then the page holds exactly those objects in order. Otherwise the error is `TypeError`. |
| Pagination.PaginateConcatenates | tap_salesforce/client.py:445-453 | When the first pages are accepted and only the last lacks a cursor, the driver yields exactly their records in order and counts one request per page. |
| Pagination.PaginateStopsAtLastPage | tap_salesforce/client.py:451-453 | Responses after the first page without a cursor are never looked at. |
| Json.UnionAllFields | tap_salesforce/client.py:364 | In the left-to-right union of records, a field is present iff some record has it, and its value comes from the last record that has it. |
| Merge.MergeRowSpec | tap_salesforce/client.py:355-366 | One aligned row merges iff every record has the key and none departs from the first truthy key. The merged record is the left-to-right union. |
| Merge.Pull | tap_salesforce/client.py:354 | `zip` gives a row iff every stream reaches that position. Otherwise it stops as the first short stream ends, raising that stream's error if it has one. |
| Merge.LockStepRows | tap_salesforce/client.py:354-366 | The output:<br>• Never longer than the shortest stream.<br>• Each output record is the union of its aligned row, whose keys are present and consistent.<br>• A failing row ends the output with an error.<br>• When every row merges, the output ends as the first shortest stream ends. |
| Merge.LockStepMismatch | tap_salesforce/client.py:358-363 | For error-free streams whose records all carry the key, the merge raises iff some aligned row has inconsistent keys, and then raises `PrimaryKeyNotMatch`. |
| Merge.BufferStreams | tap_salesforce/tests/test_merge_records.py:39-49 | Buffering succeeds iff no stream raises and every record has a hashable key. Otherwise the error is a key or type error or a stream's own error. |
| Merge.BufferedSpec | tap_salesforce/tests/test_merge_records.py:39-51 | The output has one record per distinct key of the first stream, in first-occurrence order. Each is the union of every record with that key across all streams, later streams overriding. The output raises nothing. |
| Merge.BufferedErrors | tap_salesforce/tests/test_merge_records.py:42-51 | The buffered merge raises iff some stream raises or some record lacks a hashable key. It then yields nothing, and never raises `PrimaryKeyNotMatch`. |
| Merge.LockStepOnAligned | tap_salesforce/client.py:354-366 | On streams with the same distinct keys in the same order, the lock-step merge yields every row's union without error. |
| Merge.BufferedOnAligned | tap_salesforce/tests/test_merge_records.py:39-51 | On such aligned streams, the buffered merge yields the same unions. |
| Merge.LockStepAgreesWithBuffered | tap_salesforce/tests/test_merge_records.py:21-51 | On aligned streams the old and new merges give the same stream. |
| MergeScenarios.LockStepRejectsReorderedStream | tap_salesforce/tests/test_merge_records.py:60-92 | For streams AAA,BBB,CCC and BBB,AAA,CCC, the lock-step merge yields nothing and raises a mismatch of AAA against BBB. |
| MergeScenarios.BufferedJoinsReorderedStream | tap_salesforce/tests/test_merge_records.py:98-102 | On the same streams the buffered merge yields AAA, BBB, CCC, each with its `Name` and its `Industry`. |
| Extract.ChunkQueries | tap_salesforce/client.py:389-406 | There is one query per field chunk, each rendered from the chunk plus both keys over the same window and limit. |
| Extract.RouteQuerySpec | tap_salesforce/client.py:377-412 | Routing:<br>• A query within 10000 characters is sent as it is, and only such a query is.<br>• A longer one without a primary key is refused.<br>• With both keys, a longer one becomes one query per chunk, each with the full query's filter, ordering and limit, together selecting every field.<br>• With a primary key but no replication key, a longer query with fields fails with a `TypeError`. |
| Extract.SubWindowsTile | tap_salesforce/client.py:428-436 | The sub-windows start at the window's start and end at its end, and each ends where the next begins. |
| Extract.SubWindowsPartition | tap_salesforce/client.py:428-436 | For a forward window, each instant of it lies in some sub-window, and the sub-windows are in chronological order without overlap. |
| Extract.FloorFires | tap_salesforce/client.py:419-423 | The floor test `nth < timedelta(days=1).seconds` holds exactly for a window that ends before it starts. |
| Extract.GetRecords | tap_salesforce/client.py:414-436 | The records dispatched before any error are always delivered first. An error that is not a timeout or oversize error is passed on unchanged. A reversed window is not shrunk. For a forward window, no timeout or oversize error escapes. |
| Extract.ShrinkLoop | tap_salesforce/client.py:428-436 | For a forward window no timeout or oversize error escapes the sub-window loop, and past the last sub-window nothing is yielded. |
| Extract.ShrinkLoopChains | tap_salesforce/client.py:428-436 | The sub-window loop yields exactly what `get_records` with `factor + 1` yields on each sub-window in turn, and stops at the first that raises. |
| Extract.GetRecordsShrinks | tap_salesforce/client.py:414-436 | When the dispatched query fails with a timeout or oversize error on a forward window, `get_records` yields the records delivered before the error, then exactly what the sub-window loop yields, and ends as the loop ends. |
| Extract.NoKeySameDispatch | tap_salesforce/client.py:377-412 | Without a replication key, what `get_records` sends does not depend on the window. |
| Extract.NoKeyRecursionError | tap_salesforce/client.py:414-436 | For a table without a replication key, a server that keeps answering its query with a timeout or oversize error on a forward window drives the shrinking to the recursion limit. |
| Extract.GetRecordsAtBound | tap_salesforce/client.py:414-436 | At the recursion limit, a shrinkable error becomes `RecursionError` after the records delivered before it. |
| Clock.RoundHalfEven | tap_salesforce/client.py:432-433 | Rounds to within half a microsecond, and ties go to the even neighbour. |
| Clock.OneDaySecondsField | tap_salesforce/client.py:422 | `timedelta(days=1).seconds` is 0. |
| Schedule.Occurrences | tap_salesforce/__init__.py:84-86 | The occurrences are `start + k weeks`. The last one is at most `until` and less than a week before it. There are none iff `start > until`. |
| Schedule.WeeklyWindowsShape | tap_salesforce/__init__.py:81-97 | Window `k` is `[start + k weeks, start + (k+1) weeks)`. When `start <= end`, the last window ends after `end` and at most a week after it. Otherwise there are no windows. |
| Schedule.WeeklyWindowsContiguous | tap_salesforce/__init__.py:82-97 | The first window starts at `start`, each window is one week long, and each starts where the previous ended. |
| Tables.FieldNames | tap_salesforce/__init__.py:79 | One name per field description, in order. |
| Orchestrator.Extractor | tap_salesforce/client.py:368-376 | The driver's fetch is `get_records` with shrink factor 2, asked of that attempt's server. |
| Orchestrator.RecordStamp | tap_salesforce/__init__.py:138 | A record's timestamp is read iff the replication key is present and holds parseable text. Otherwise the error is a `KeyError`, `TypeError` or `ValueError`. |
| Orchestrator.Deliver | tap_salesforce/__init__.py:130-141 | Each delivered record is written, in order, to the table's stream. Delivery completes iff every record had a readable timestamp. |
| Orchestrator.DeliverStamps | tap_salesforce/__init__.py:130-141 | Each delivered record's timestamp is the one recorded for it. Delivery stops at the first record without a readable timestamp, raising that record's error. |
| Orchestrator.DeliverState | tap_salesforce/__init__.py:138-141 | After delivery, the bookmark holds the last delivered record's timestamp, or is untouched when none was delivered. |
| Orchestrator.RunAttempt | tap_salesforce/__init__.py:129-142 | An attempt only writes records of the table's stream, and leaves the bookmark at its last delivered timestamp. |
| Orchestrator.RunAttemptDelivers | tap_salesforce/__init__.py:129-142 | An attempt writes the fetched records in order, up to the first without a readable timestamp. Each recorded timestamp is the one read from its record. The attempt ends with that record's error, or otherwise with the error of the fetch itself. |
| Orchestrator.Retry | tap_salesforce/__init__.py:126-151 | Every attempt:<br>• At least one attempt and at most six, the first from the given start.<br>• The result is the last attempt's outcome.<br>• A mismatch escapes only after all six attempts.<br>• The state is written last. |
| Orchestrator.RetryChained | tap_salesforce/__init__.py:143-148 | Every attempt but the last ended in a mismatch. Each retry starts at the previous attempt's last delivered timestamp, or at that attempt's own start when it delivered nothing. |
| Orchestrator.RetryRecovers | tap_salesforce/__init__.py:143-148 | When the first attempt mismatches and the second, started from the resume point, ends cleanly, `sync` makes exactly two attempts and ends without error. |
| Orchestrator.SyncAttemptsBounded | tap_salesforce/__init__.py:126-149 | `get_records` is called at most six times, and a mismatch escapes iff the sixth attempt also mismatched. |
| Orchestrator.OneCheckpointPerAttempt | tap_salesforce/__init__.py:150-151 | The state is written exactly once per attempt, whatever its outcome. |
| Orchestrator.SyncCheckpoints | tap_salesforce/__init__.py:150-151 | One `sync` writes the state once per `get_records` call. |
| Orchestrator.RetryBookmark | tap_salesforce/__init__.py:127-148 | Across retries, the bookmark ends at the last timestamp any attempt delivered. |
| Orchestrator.SyncBookmark | tap_salesforce/__init__.py:117-151 | After `sync`, the table's bookmark holds the timestamp of the last delivered record, which is not necessarily the largest. It is untouched when nothing was delivered. |
| Orchestrator.ParseException | tap_salesforce/__init__.py:154-157 | `parse_exception` succeeds iff the body is a non-empty list whose first element is an object with both `message` and `errorCode`. |
| Orchestrator.HttpErrorHandlerMasks | tap_salesforce/__init__.py:100-112 | For an `HTTPError` (whose body is never a Salesforce error body), the handler re-raises it only when the first element has `message` present but null and has an `errorCode`. Otherwise the handler raises a Python error in its place. |
| Orchestrator.SyncWindows | tap_salesforce/__init__.py:84-97 | With no windows, nothing is written and the state is unchanged. |
| Orchestrator.SyncWindowsBookmark | tap_salesforce/__init__.py:84-97 | Across the weekly windows, the bookmark ends at the last timestamp delivered in any of them, and is untouched when none was. |
| Orchestrator.LastStampConcat | tap_salesforce/__init__.py:127-148 | The last timestamp of two runs of attempts is the second run's, or the first run's when the second delivered nothing. |
| Orchestrator.CatalogEvents | tap_salesforce/__init__.py:62-65 | One record per field description, in order, on the stream `<table>Fields`. |
| Orchestrator.ProcessTableSpec | tap_salesforce/__init__.py:55-114 | Per table:<br>• A table without fields produces nothing.<br>• The catalog is written first, and only when requested.<br>• `Case` stops after the catalog except on the parloagmbh instance.<br>• An error reading the bookmark ends the table after the catalog, with no extraction and no state write.<br>• Otherwise the table is extracted from its bookmark, or from the configured start when it has none, weekly or in one `sync` as its rule says.<br>• Its output is the catalog, then the extraction's events, then one state write.<br>• Its state is the extraction's, and an escaping error is what the `HTTPError` handler makes of it. |
| Orchestrator.ProcessTableResumes | tap_salesforce/__init__.py:75-97 | When a table with a replication key delivered a record, the next run of that table starts from the last delivered timestamp. |
| Orchestrator.RunTables | tap_salesforce/__init__.py:55-114 | The first table's output comes first, and an error in a table ends the run there. |
| Orchestrator.RunTablesAppend | tap_salesforce/__init__.py:55-114 | The loop over two lists of tables is the loop over the first. Unless that loop raised, it is followed by the loop over the second, starting from the state the first left, with the outputs concatenated. |
| Orchestrator.ExitStatusOf | tap_salesforce/__init__.py:160-173 | Exit codes:<br>• A run without error exits 0.<br>• A quota error exits 2, invalid credentials 5, an OAuth failure 1.<br>• Any exception that is not a `TapSalesforceException` escapes. |

## Behaviour as written

The model follows the code wherever it disagrees with the intent its own comments state. The comment at client.py:420 calls the floor a "minimum allowed window size". The comments at client.py:567-569 say a run should use at most 25% of the quota. The first two points below contradict those comments. The others are choices the code makes that a reader might not expect:

- **Window floor.** The floor compares `nth` in seconds against `timedelta(days=1).seconds`, which is 0, not 86400. It therefore fires only for a window that ends before it starts (`Extract.FloorFires`). A zero-length window keeps shrinking until the recursion limit.
- **Per-run quota.** The per-run ceiling compares `requests / total`, a fraction, against a value in percent. With the default 25 it fires only after 25 times the daily total (`Quota.PerRunCeilingIsAFraction`).
- **Query too long.** `QueryLengthExceedLimit` derives from `Exception`, so it is not caught by `main`. It ends the whole run, not one table.
- **Request counting.** `_make_request` increments the request counter and checks the quota for every response that does not raise, which includes 1xx and 3xx responses.
- **Bookmark value.** The bookmark after `sync` is the last delivered timestamp, not the largest.
- **Resumed windows.** The query bounds are truncated to the second. A run that resumes from a bookmark therefore reads again every record of the bookmark's second, including the last one it wrote (`Query.AdmitsRereadsSecond`).
- **HTTP error handler.** An `HTTPError` reaches the `main_impl` handler only when its body was not a Salesforce error body. There `parse_exception` almost always fails, so a `KeyError`, `IndexError` or `TypeError` replaces the `HTTPError` (`Orchestrator.HttpErrorHandlerMasks`).
- **Missing exception classes.** `client.py` imports four exception classes that `exceptions.py` does not define. They appear only in the `backoff` decorator's list, which is not part of this model.

## Left out

- **Transport and OAuth:**
  - `_login`, the HTTP session and `describe` involve network I/O. The service is the `Server` parameter, and a page script stands in for the responses of one query.
  - The `backoff` retries of `_make_request` (client.py:455-470) belong to an external library. A request is modelled as answered once.
  - OAuth failures enter the model only as the error kinds `OauthFailed` and `InvalidCredentials`.
- **Configuration and environment:**
  - `get_tables` and `LEGACY_CUSTOMER_OBJECTS` are tenant configuration, so the table list is an input of `Orchestrator.RunTables`.
  - `Table.should_resync_all_historical_data` depends on the wall-clock weekday, and the modelled code does not call it.
  - The run's `end_time` (`datetime.now`) and the configured start are parameters.
- **Output and packaging:**
  - `metrics.py`, the logger and the quota gauge only sample and log.
  - `stream.py` is JSON output. Its writes appear as `Emit` and `Checkpoint` events.
  - `setup.py` is packaging.
- **`construct_query` without an end date** (client.py:310-311) reads the clock. Every caller passes an end date, so the model requires one.
- **Timestamp text and time zones.** Calendar text formatting, `strptime`, `fromisoformat` and `astimezone` are replaced by the decimal text of a microsecond count. All instants are UTC.
- **Clock.QueryTime:** renders a count of seconds, not calendar digits. It does not model years before 1000, for which `strftime` gives a shorter text.
- **Quota.ParseUsage:** accepts only the ASCII digits `0`-`9`. Python's `\d` and `int()` also accept other Unicode decimal digits.
- **Pagination.DecodePage:** a `records` value that is not a list of objects raises `TypeError` here. Python would raise only later, or iterate over a string or a dict's keys.
- **Repeated queries within one attempt.** The server of an attempt answers a query text the same way each time. Within one `get_records` call a sub-window sends its parent's text in three cases:
  - a table without a replication key, whose query has no WHERE clause (`Query.NoKeySameQuery`);
  - windows whose bounds lie in the same seconds, since the bounds are rendered to the second (`Query.SameSecondsSameQuery`);
  - a zero-length window.

  The floor test never stops a forward window (`Extract.FloorFires`), so a timeout that persists shrinks down to such windows. Hence, in the model, a timeout or oversize error on a forward window of a table without a replication key always ends in `RecursionError`, whatever the depth bound (`Extract.NoKeyRecursionError`). A service that answers a repeated query differently the second time is not represented.
- **Schedule.WeeklyWindows:** assumes the rule's occurrences fall exactly on `start + k weeks`. `dateutil`'s `rrule` drops the microseconds of its start, and the model does not represent that.
- **Floating point.** `nth`, `i * nth` and the quota percentages are computed exactly, not in binary floating point. Only the final rounding of `timedelta` to microseconds is modelled.
- **Python dict keys.** In Python, `1`, `1.0` and `True` are the same key. In the model `1` and `1.0` are one number, but `True` is kept apart from it, and records are always dicts.
- **JSON numbers** are exact rationals (`real`). Python's distinction between `int` and `float` and binary floating-point rounding are not represented. Record values pass through the tap unchanged, so only key equality and truthiness could differ.
- **The request counter across `get_records`.** It is threaded through one query's pagination (`Pagination.Paginate`). It is not threaded through the `Server` used by `get_records`, because the lazy interleaving of chunk paginators under `zip` decides the order of requests.
- **Extract.GetRecords:** the shrink recursion is bounded by a `fuel` argument, and running out gives `RecursionError`, standing in for the interpreter's recursion limit. Its own contract states the prefix, pass-through and no-escape properties. The exact concatenation of sub-window results is stated by `Extract.GetRecordsShrinks` and `Extract.ShrinkLoopChains`.
- **Bookmarks.GetStreamState:** its own contract states when nothing is read and which errors it raises. What a truthy value reads as is stated by the `Get…` lemmas listed above.
- **Pagination.Paginate:** its own contract bounds the request count. Its records are stated by `Pagination.PaginateConcatenates` for accepted pages. Failing responses are stated per step by `Pagination.CompleteRequest` and `Pagination.DecodePage`.
- **Orchestrator.SyncWindows:** its own contract states only the empty case. A non-empty list is `sync` applied window by window, stopping at the first error. Its bookmark is stated by `Orchestrator.SyncWindowsBookmark`.
