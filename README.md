# TypeTrace capture-and-aggregate core, in Dafny

TypeTrace records how often each key is pressed. A backend process reads key
events from libinput. It buffers one record per key press and writes the buffer
to a SQLite table. That table keeps one row per (scan code, date) with a running
count. A frontend reads aggregates back from the same table: per-key totals, the
top keys, daily totals, the overall total and the highest per-key total.

This project models that pipeline and proves what each step promises:

- `errors.dfy` (module `Errors`): the four error categories, the `Error`
  value, its factories, and the `std::expected` shapes (`Result`, `Outcome`).
- `types.dfy` (modules `Optional`, `Constants`, `Types`, `Paths`): the
  buffering constants, the keystroke record, the 32-bit conversions a key
  code goes through on its way into and out of the table, and filesystem
  paths as sequences of components.
- `relational.dfy` (module `Relational`): what the SQL operators the
  queries are built from mean. WHERE, GROUP BY with SUM, ORDER BY and LIMIT
  are functions over a sequence of rows.
- `sql.dfy` (module `Sql`): the keystrokes table, with its UNIQUE(scan_code,
  date) constraint as part of the type, and the upsert, clear and three read
  statements of `typetrace/common/sql.hpp`.
- `database_manager.dfy` (module `DbManager`): the `DatabaseManager` class.
  `create` is modelled with its error mapping. `write_to_database` is one
  all-or-nothing transaction running the upsert once per record, in buffer
  order.
- `event_handler.dfy` (module `EventHandling`): the `EventHandler` class.
  This covers the three startup checks, the translation of libinput key
  events into records, and the buffer with its size-or-timeout flush rule.
  It also covers one `trace` cycle, which drains every ready event and then
  flushes to the database manager.
- `cli.dfy` (module `BackendCli`): the option scanner, the database
  directory under `$HOME`, and `Cli::create`. That is the startup chain that
  connects the handler's flushes to the manager's writes.
- `keystroke_store.dfy` (module `KeystrokeStoreModel`): the frontend's
  read-only `KeystrokeStore`. Its queries are modelled with their row-by-row
  read loops and their fallbacks when SQLite raises.

The operating system and SQLite are inputs, not models. Inputs include the poll
outcome, the events libinput hands out, libevdev's key-name table, the group
data, `$HOME`, the steady clock (an integer count of nanoseconds), and where
SQLite or the filesystem raises (the `WriteFault` and `CreateFault` values and
`raiseAt`). A table is the sequence of its rows in rowid order. String order
is SQLite's BINARY collation, which is lexicographic.

`get_database_dir` returns a SYSTEM error when `HOME` is unset. This is so
even though the ENVIRONMENT category is documented for environment-variable
errors (`typetrace/common/errors.hpp:16`). The model follows the code.

## Model

| member | source | states |
|---|---|---|
| `Errors.MakeError` | typetrace/common/errors.hpp:25-28 | The `Error` constructor keeps the code and the message as given. |
| `Errors.MakeSystemError` | typetrace/common/errors.hpp:35-38 | The error has code SYSTEM and exactly the given message. |
| `Errors.MakeDatabaseError` | typetrace/common/errors.hpp:42-45 | The error has code DATABASE and exactly the given message. |
| `Errors.MakePermissionError` | typetrace/common/errors.hpp:49-52 | The error has code PERMISSION and exactly the given message. |
| `Errors.MakeEnvironmentError` | typetrace/common/errors.hpp:56-59 | The error has code ENVIRONMENT and exactly the given message. |
| `Errors.FactoriesAreDistinct` | typetrace/common/errors.hpp:11-17 | Errors from different factories never compare equal. Two SYSTEM errors are equal only when their messages are. |
| `Types.ToInt32` | typetrace/backend/database_manager.hpp:74 | `static_cast<int>` of a key code is the identity below 2^31 and negative from 2^31 on. It is always congruent to the code modulo 2^32. |
| `Types.ToUint32` | typetrace/frontend/models/keystroke_store.hpp:43 | `static_cast<uint32_t>(getInt())` keeps every value in the unsigned 32-bit range. It sends a negative 32-bit value to 2^31 or above, and the result is always congruent to the stored integer modulo 2^32. |
| `Types.CodeRoundTrip` | typetrace/frontend/models/keystroke_store.hpp:43 | A key code the backend binds with `static_cast<int>` reads back as the same unsigned code. |
| `Types.ToInt32Injective` | typetrace/backend/database_manager.hpp:74 | Different key codes are stored as different integers, so the UNIQUE key separates exactly the codes the backend distinguishes. |
| `Paths.Join` | typetrace/backend/cli.hpp:126 | `path / name` adds the name as one last component and keeps the others. |
| `Relational.Where` | typetrace/common/sql.hpp:69 | WHERE keeps exactly the rows satisfying the condition, and never more rows than it was given. |
| `Relational.Keys` | typetrace/common/sql.hpp:54 | The group keys are duplicate-free. Every row's key is among them, and every key comes from some row. |
| `Relational.Totals` | typetrace/common/sql.hpp:52 | Each listed key gets one output row carrying the SUM over that key's rows. |
| `Relational.GroupByMeaning` | typetrace/common/sql.hpp:52-54 | GROUP BY with SUM yields each key once, each with the sum of its group. Every such row comes from a table row, and every table row's group is present. |
| `Relational.GroupBySumsToTotal` | typetrace/common/sql.hpp:52-54 | The group sums add up to the SUM over the whole table, so grouping loses and invents nothing. |
| `Relational.SortByPermutes` | typetrace/common/sql.hpp:55 | ORDER BY rearranges its rows: the output is a permutation of the input. |
| `Relational.SortBySorted` | typetrace/common/sql.hpp:55 | ORDER BY under a total preorder yields rows in that order. |
| `Relational.Limit` | typetrace/common/sql.hpp:88 | LIMIT n keeps the first min(n, size) rows, and all rows when n is negative. |
| `Relational.LimitKeepsFirst` | typetrace/common/sql.hpp:87-88 | After ORDER BY and LIMIT, a row is cut off only when the result already holds n rows. Every row cut off comes no earlier in the order than every row kept. |
| `Sql.LookupIff` | typetrace/common/sql.hpp:17 | Looking up (code, date) finds a row exactly when that row is in the table with that key, because the table holds at most one. |
| `Sql.LookupNone` | typetrace/common/sql.hpp:17 | A lookup misses exactly when no row carries the key. |
| `Sql.WhereKeepsUnique` | typetrace/common/sql.hpp:17 | Filtering rows keeps UNIQUE(scan_code, date). |
| `Sql.Upsert` | typetrace/common/sql.hpp:28-33 | The upsert keeps the table UNIQUE. It adds a row exactly when the key was absent. |
| `Sql.UpsertMeaning` | typetrace/common/sql.hpp:28-33 | After an upsert, the key's row is (code, new name, date, old count + 1), with count 1 for a new key. Every other key's row is unchanged. |
| `Sql.UpsertAddsOne` | typetrace/common/sql.hpp:28-32 | Every upsert adds exactly one to the table's total count. |
| `Sql.Clear` | typetrace/common/sql.hpp:36 | After DELETE, no key has a row and the total count is 0. |
| `Sql.StrLeTotal` | typetrace/common/sql.hpp:71 | Any two dates are comparable under BINARY collation. |
| `Sql.StrLeTransitive` | typetrace/common/sql.hpp:71 | BINARY collation order is transitive. |
| `Sql.StrLeAntisymmetric` | typetrace/common/sql.hpp:71 | Two dates that each come no later than the other are equal. |
| `Sql.CodeAscendingIsPreorder` | typetrace/common/sql.hpp:55 | `ORDER BY scan_code ASC` is a total preorder. |
| `Sql.DateDescendingIsPreorder` | typetrace/common/sql.hpp:71 | `ORDER BY date DESC` is a total preorder. |
| `Sql.TotalDescendingIsPreorder` | typetrace/common/sql.hpp:87 | `ORDER BY total_presses DESC` is a total preorder. |
| `Sql.TotalKeyCountsMeaning` | typetrace/common/sql.hpp:51-55 | Per-key totals have one row per scan_code present, in strictly ascending code order, each with the sum of that code's counts. Together they add up to the table's total count. |
| `Sql.DailyCountsGroups` | typetrace/common/sql.hpp:67-70 | Every daily row lies inside the window and carries its date's sum. Every in-window row's date is reported. Every reported date is the date of some in-window row. |
| `Sql.DailyCountsOrdered` | typetrace/common/sql.hpp:71 | Daily rows come in strictly descending date order. |
| `Sql.TopKeysSortedMeaning` | typetrace/common/sql.hpp:82-87 | Before LIMIT, the top-keys rows are sorted by descending total, with distinct codes. Each carries its code's sum over the window, and every code of the window is present. |
| `Sql.TopKeysMeaning` | typetrace/common/sql.hpp:82-88 | Top keys: at most `limit` rows, by descending total, with distinct codes from the window, each with its sum. A window code is cut off only when `limit` codes were kept, and then it totals no more than any code kept. |
| `DbManager.LastNameExists` | typetrace/backend/database_manager.hpp:73-80 | A buffer has a last record for a key exactly when it has any record for it. |
| `DbManager.UpsertAllMeaning` | typetrace/backend/database_manager.hpp:73-80 | After the per-record upserts, each key's count has grown by the number of buffered records with that key. A touched row carries the last such record's name. Every untouched key keeps its row, or its absence. |
| `DbManager.UpsertAllAddsLength` | typetrace/backend/database_manager.hpp:73-82 | A committed write adds exactly the buffer's length to the table's total count. |
| `DbManager.UpsertAllSplit` | typetrace/backend/database_manager.hpp:73-80 | Writing a buffer in two consecutive writes leaves the same table as writing it in one. |
| `DbManager.RepeatedKeyOneRow` | typetrace/backend/database_manager.hpp:73-80 | n records of one key and date, written into an empty table, leave exactly one row with count n. |
| `DbManager.Persisted` | typetrace/backend/database_manager.hpp:69-89 | An empty buffer or a raising transaction leaves the table unchanged. A commit adds the buffer's length to the total count. |
| `DbManager.DbFile` | typetrace/backend/database_manager.hpp:30 | The database file is `db_dir / DB_FILE_NAME`. |
| `DbManager.CreateError` | typetrace/backend/database_manager.hpp:50-56 | `create` fails exactly when something raises. Filesystem failures are SYSTEM errors and SQLite failures are DATABASE errors. A failure to open names the database file. |
| `DbManager.DatabaseManager.Open` | typetrace/backend/database_manager.hpp:29-30 | A new manager holds its file path and the table found in the file. |
| `DbManager.DatabaseManager.Create` | typetrace/backend/database_manager.hpp:27-59 | Returns exactly the error `CreateError` gives. Otherwise it returns a fresh manager on `db_dir / DB_FILE_NAME` holding the stored table. |
| `DbManager.DatabaseManager.WriteToDatabase` | typetrace/backend/database_manager.hpp:63-92 | An empty buffer succeeds and changes nothing. If any statement raises, the result is a DATABASE error and the table is unchanged. Otherwise every record's upsert is applied, in order. |
| `EventHandling.KeyName` | typetrace/backend/event_handler.hpp:215-216 | The key name is libevdev's name for the code, or exactly "UNKNOWN" when there is none. |
| `EventHandling.ProcessKeyboardEvent` | typetrace/backend/event_handler.hpp:199-232 | Only a keyboard key press gives a record. The record has the hardware code, its name, the date "FIX_ME" and count 1. |
| `EventHandling.PressesAppend` | typetrace/backend/event_handler.hpp:76-85 | Draining two batches appends the first batch's records, then the second's, so arrival order is kept. |
| `EventHandling.PressesMeaning` | typetrace/backend/event_handler.hpp:76-85 | A drain appends one record per key press and nothing else. Each record counts one press on "FIX_ME" and comes from a press of its code. |
| `EventHandling.NoPressesNoRecords` | typetrace/backend/event_handler.hpp:209-212 | Releases and non-keyboard events add nothing to the buffer. |
| `EventHandling.ShouldFlush` | typetrace/backend/event_handler.hpp:236-254 | An empty buffer never flushes. 50 or more records always flush. Otherwise the buffer flushes exactly when at least 100 s have passed since the last flush. |
| `EventHandling.TraceCycle` | typetrace/backend/event_handler.hpp:57-91 | A poll error changes nothing. Otherwise the cycle flushes exactly when `ShouldFlush` holds for the old buffer plus the drained presses. The flushed records followed by the new buffer are the old buffer followed by the drained presses. Afterwards fewer than 50 records are buffered. A flush empties the buffer and sets the last flush to now; no flush keeps the last flush time. |
| `EventHandling.CycleConservesKeystrokes` | typetrace/backend/event_handler.hpp:57-91 | With a committing write, the table's total plus the buffered records grows by exactly the presses drained. |
| `EventHandling.FirstPressFlushedAtOnce` | typetrace/backend/event_handler.hpp:277 | The last flush time starts at the clock's zero. So once the clock reads 100 s or more, the first press is written in the cycle that drains it. |
| `EventHandling.ThresholdFlushes` | typetrace/backend/event_handler.hpp:238-241 | A cycle that brings the buffer to 50 records flushes all of them, however recent the last flush. |
| `EventHandling.TimeoutFlushes` | typetrace/backend/event_handler.hpp:243-250 | Below 50 pending records, a cycle flushes everything pending exactly when 100 s have passed since the last flush. Otherwise it keeps everything buffered. |
| `EventHandling.CheckInputGroupMembership` | typetrace/backend/event_handler.hpp:99-121 | Passes exactly when the `input` group exists and the caller is in it. A missing group is the SYSTEM error "Input group does not exist. Please create it". A caller outside the group gets the PERMISSION error "User not in 'input' group. See instructions above". |
| `EventHandling.InitializeLibinput` | typetrace/backend/event_handler.hpp:167-195 | Passes only when udev, the libinput context and the seat all succeed. Each failure is a SYSTEM error whose message names the failing step. |
| `EventHandling.CheckDeviceAccessibility` | typetrace/backend/event_handler.hpp:140-163 | Passes exactly when libinput is initialised, dispatch does not fail, and the first event announces a device. Every failure is a SYSTEM error, and each of the three causes has its own message. |
| `EventHandling.StartupError` | typetrace/backend/event_handler.hpp:39-48 | Startup succeeds exactly when all three checks pass. Otherwise the error is the group check's if it failed, else libinput initialisation's, else the device check's; later checks are not consulted. |
| `EventHandling.StartupShortCircuits` | typetrace/backend/event_handler.hpp:39-48 | A caller outside the group gets the PERMISSION error whatever libinput would answer. A failed check hides the later ones. |
| `EventHandling.EventHandler.Init` | typetrace/backend/event_handler.hpp:276-279 | A new handler has an empty buffer, a last flush time at the clock's zero, and no callback. |
| `EventHandling.EventHandler.Create` | typetrace/backend/event_handler.hpp:39-48 | Returns the first failing check's error. Otherwise it returns a fresh handler in its initial state. |
| `EventHandling.EventHandler.SetBufferCallback` | typetrace/backend/event_handler.hpp:51-54 | Installs the sink and changes nothing else. |
| `EventHandling.EventHandler.FlushBuffer` | typetrace/backend/event_handler.hpp:257-274 | An empty buffer changes nothing. Otherwise the buffer goes to the sink in order, then the buffer is emptied and the last flush is set to now, whether or not the write committed. |
| `EventHandling.EventHandler.Trace` | typetrace/backend/event_handler.hpp:57-91 | The new buffer and last flush time are those of `TraceCycle`. The sink's table has exactly the flushed records persisted. |
| `BackendCli.ScanFromMeaning` | typetrace/backend/cli.hpp:66-87 | From position i, the scan fails exactly when an unknown argument comes before any help or version option, with debug flags skipped. It never returns anything but success or failure. |
| `BackendCli.ParseArgumentsMeaning` | typetrace/backend/cli.hpp:64-88 | `parse_arguments` returns EXIT_FAILURE exactly when, after the program name, the first argument that is not `-d`/`--debug` is unknown. Otherwise it returns EXIT_SUCCESS. |
| `BackendCli.ProgramNameIgnored` | typetrace/backend/cli.hpp:66-67 | The program name never affects the result. |
| `BackendCli.GetDatabaseDir` | typetrace/backend/cli.hpp:119-141 | An unset HOME is a SYSTEM error, and so is a failure to create the directory. Otherwise the result is HOME/.local/share/PROJECT_NAME. |
| `BackendCli.CliStartupError` | typetrace/backend/cli.hpp:27-50 | Startup succeeds exactly when HOME is set, the directory and the database open, and the handler's checks pass. Otherwise the error is the directory's if it failed, else the database manager's if it failed, else the handler's; later steps are not consulted. |
| `BackendCli.Cli.Init` | typetrace/backend/cli.hpp:61 | A new CLI has no handler and no manager. |
| `BackendCli.Cli.Create` | typetrace/backend/cli.hpp:27-50 | Returns the first startup failure whatever the arguments, since the scan's result is ignored. Otherwise it returns fresh objects: a manager on HOME/.local/share/PROJECT_NAME/TypeTrace.db and an empty handler whose flushes go to that manager. |
| `KeystrokeStoreModel.BackendDatabase` | typetrace/common/sql.hpp:10-18 | The table the backend creates has the columns id, scan_code, key_name, date and count. |
| `KeystrokeStoreModel.MaxTotal` | typetrace/frontend/models/keystroke_store.hpp:137 | MAX over the groups is at least every total and equal to one of them. NULL over no groups reads as 0. |
| `KeystrokeStoreModel.ToRecord` | typetrace/frontend/models/keystroke_store.hpp:43-46 | A result row becomes a record with its name, the given date and its total as count. Its key code is the stored code read back as unsigned, congruent to it modulo 2^32. |
| `KeystrokeStoreModel.Records` | typetrace/frontend/models/keystroke_store.hpp:42-48 | One record per result row, in order. |
| `KeystrokeStoreModel.Taken` | typetrace/frontend/models/keystroke_store.hpp:50-53 | When `executeStep` raises, the vector keeps the rows read before that step, which are a prefix of the result. |
| `KeystrokeStoreModel.KeyTotalsMeaning` | typetrace/frontend/models/keystroke_store.hpp:38-40 | Per-(code, name) totals list each pair once, by descending total, each with its sum. Every pair is present, and the totals add up to the table's total count. |
| `KeystrokeStoreModel.OnDateEntriesDistinct` | typetrace/common/sql.hpp:17 | The rows of one date carry pairwise different (code, name) keys. |
| `KeystrokeStoreModel.TopOnDateMeaning` | typetrace/frontend/models/keystroke_store.hpp:64-70 | For one date: at most `limit` rows, each a row of that date with its own count, each key at most once, by descending count. A row of that date is left out only when `limit` rows were kept, and then it counts no more than any row kept. |
| `KeystrokeStoreModel.DailyCountsQueryMeaning` | typetrace/frontend/models/keystroke_store.hpp:94-96 | At most 7 dates, each once, in strictly descending order, each with its sum. Every reported date is the date of some row. A date is left out only when 7 dates are shown, and then it comes no later than any of them. |
| `KeystrokeStoreModel.WhereDateSum` | typetrace/frontend/models/keystroke_store.hpp:113 | SUM(count) WHERE date = d is that date's group sum. |
| `KeystrokeStoreModel.TotalCountMeaning` | typetrace/frontend/models/keystroke_store.hpp:110-128 | The total without a date is the table's total count, which equals the sum of the per-key totals. With a date it is that date's daily sum. |
| `KeystrokeStoreModel.HighestCountMeaning` | typetrace/frontend/models/keystroke_store.hpp:132-146 | With the schema's column: 0 on an empty table, otherwise the total of some code present, and no code's total exceeds it. |
| `KeystrokeStoreModel.WrittenQueriesFallBack` | typetrace/frontend/models/keystroke_store.hpp:40 | On the backend's table, the queries naming `key_code` never prepare. The daily and total queries do prepare. |
| `KeystrokeStoreModel.SchemaQueriesResolve` | typetrace/common/sql.hpp:13 | Naming `scan_code`, the key queries prepare on the backend's table and mean the per-key totals. |
| `KeystrokeStoreModel.WrittenStoreShowsNoKeys` | typetrace/frontend/models/keystroke_store.hpp:34-53 | On a non-empty backend table there are key totals to show, yet the store as written returns no keys and no highest count. |
| `KeystrokeStoreModel.KeystrokeStore.Open` | typetrace/frontend/models/keystroke_store.hpp:20-29 | A store holds its open database and the code column name its queries use. |
| `KeystrokeStoreModel.KeystrokeStore.ReadRecords` | typetrace/frontend/models/keystroke_store.hpp:42-48 | The read loop returns the records of the rows read before any raising step, in order. |
| `KeystrokeStoreModel.KeystrokeStore.GetAllKeystrokes` | typetrace/frontend/models/keystroke_store.hpp:34-54 | Empty if the statement fails to prepare. Otherwise the records of the per-(code, name) totals read before any raising step, each with the date "". |
| `KeystrokeStoreModel.KeystrokeStore.GetTopKeystrokes` | typetrace/frontend/models/keystroke_store.hpp:57-87 | Empty if the statement fails to prepare. Otherwise the records of the top-keys query read before any raising step: at most `limit` of them, each with the requested date or "". |
| `KeystrokeStoreModel.KeystrokeStore.GetDailyCounts` | typetrace/frontend/models/keystroke_store.hpp:90-107 | Empty if the statement fails to prepare. Otherwise the daily rows read before any raising step: at most 7. |
| `KeystrokeStoreModel.KeystrokeStore.ReadDays` | typetrace/frontend/models/keystroke_store.hpp:98-101 | The read loop returns the daily rows read before any raising step, in order. |
| `KeystrokeStoreModel.KeystrokeStore.GetTotalCount` | typetrace/frontend/models/keystroke_store.hpp:110-129 | Returns 0 when the statement fails to prepare or raises, and the query's sum otherwise. |
| `KeystrokeStoreModel.KeystrokeStore.GetHighestCount` | typetrace/frontend/models/keystroke_store.hpp:132-147 | Returns 1 when the query raises or does not prepare, and the largest per-code total otherwise (0 for an empty table). |

## Left out

- libinput, udev, libevdev, `poll`, `getgrnam` and `getgroups` are foreign calls. Their answers are inputs: the poll outcome, the event sequence, the name table and the group data.
- `initialize_libinput` is one outcome per failing step. The `open`/`close` callbacks and resource ownership are not modelled.
- A `getgroups` failure (a negative group count turned into a huge vector size) is not modelled. The caller's groups are given as a sequence.
- The return value of `libinput_dispatch` inside `trace` is ignored by the code and is not modelled.
- `trace` reads the clock in `should_flush` and again in `flush_buffer`. The model uses one reading per cycle, so the last flush time is the time the flush was decided.
- The logger and all printing are output side effects and are left out. This covers help text, version text, permission instructions and the frontend's `std::cerr` messages.
- The 100 ms poll timeout (`POLL_TIMEOUT_MS`) only bounds how long `trace` waits. The poll's outcome is an input, so the constant is not part of the model. `PROJECT_DIR_NAME` is declared but never read by the modelled code, which uses `PROJECT_NAME`.
- `Cli::run` is an endless loop of `trace` calls, so the model states one `trace` cycle instead.
- `PROJECT_NAME` comes from the build configuration. It is a parameter of `GetDatabaseDir`.
- The callback `Cli::create` installs captures a reference to a local that is then moved out. The model does not reproduce that dangling reference: its handler's sink is the database manager itself. `EventHandling.EventHandler.FlushBuffer` also models only that one callback, not an arbitrary `std::function`.
- `Error` keeps a `std::string_view` of a temporary `std::format` result, and the frontend's records keep views of temporary strings. Lifetimes are not modelled, and messages are plain strings.
- Opening the database file, the WAL pragmas, and creating directories are I/O. Their failures are the `CreateFault` input.
- `DatabaseManager::create` skips directory creation for an empty `db_dir`. Only the resulting failure, if any, is modelled.
- The autoincrement `id` column is not modelled. Rows are kept in rowid order.
- Date stamping is commented out in the source. Records carry the literal "FIX_ME", as the code does.
- The windows of the daily and top-keys statements in `sql.hpp` are computed by SQLite from the current date. They are given as date strings.
- SQL leaves the order of rows that compare equal under ORDER BY open. The model fixes one such order, and the lemmas state only the requested order, permutation and LIMIT.
- `KeystrokeStoreModel.KeystrokeStore.GetTotalCount`: does not model `getInt`'s truncation of a 64-bit SUM to 32 bits. Counts are unbounded integers.
- `KeystrokeStoreModel.KeystrokeStore.GetHighestCount`: does not model `getInt`'s truncation of a 64-bit MAX to 32 bits.
- `KeystrokeStoreModel.ToRecord`: does not model `getInt`'s truncation of the 64-bit `total_count`/`count` column to 32 bits. The record's count is the unbounded sum. `KeystrokeStoreModel.KeystrokeStore.ReadRecords` inherits this.
- `KeystrokeStoreModel.KeystrokeStore.ReadDays`: does not model `getInt`'s truncation of the 64-bit daily SUM(count) to 32 bits.
- The `date` column is declared `DATE` (`typetrace/common/sql.hpp:15`), which has NUMERIC affinity in SQLite. A date that looks like a number would be stored and compared as a number. The model compares every date as text. The dates the source writes ("FIX_ME", and ISO `YYYY-MM-DD` strings in the windows) are never numeric, so they are unaffected.
- `KeystrokeStoreModel.KeystrokeStore.Open`: the store is given an open database. A failure to open, which the source rethrows, is not modelled.
- `KeystrokeStore::refresh` and `signal_changed` emit a GUI signal and are left out.
- `parse_arguments` with no arguments at all (`argc == 0`) calls `std::views::iota(1, 0)`, which is not a valid range. The model treats it as having no options.
- `std::filesystem::path::string()` is modelled as components joined by "/", with no normalisation.

## Findings

| source | as written | input that shows it | evidently intended | confidence | as-written member | corrected member |
|---|---|---|---|---|---|---|
| typetrace/frontend/models/keystroke_store.hpp:40 | `get_all_keystrokes` and `get_top_keystrokes` (lines 40, 64, 65) select and group by `key_code`. The table the backend creates has no such column; it is `scan_code` (`typetrace/common/sql.hpp:13`). | A backend table holding the single row (scan_code 30, "KEY_A", "FIX_ME", 5): the statements fail to prepare, so both methods return an empty vector. | The per-(code, name) totals and top keys over `scan_code`. | not executed | `KeystrokeStoreModel.WrittenStoreShowsNoKeys` | `KeystrokeStoreModel.KeyTotalsMeaning` |
| typetrace/frontend/models/keystroke_store.hpp:137 | `get_highest_count` groups by `key_code`, which is missing from the backend's table. | The same one-row table: the statement fails to prepare, so the method returns its fallback 1 instead of 5. | The largest per-`scan_code` total. | not executed | `KeystrokeStoreModel.WrittenQueriesFallBack` | `KeystrokeStoreModel.HighestCountMeaning` |

A store opened with `SCHEMA_CODE_COLUMN` is the corrected store. One opened with
`WRITTEN_CODE_COLUMN` behaves as the source does.
