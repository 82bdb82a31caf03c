# QlikSenseReloader core, modelled in Dafny

QlikSenseReloader has two sequential pieces of logic. This project models both and proves properties of the models.

1. **Reload log ingestion** (`database/LogDB.py`).
   - `__get_infos` turns one Qlik Sense reload log into the tuple `(event, status, status_code, date, appID, path)`.
   - `__get_status` scans the log's lines backwards and picks its status message.
   - The pack loop of `update_table` cuts the list of log files into packs of 50. It sends each pack's tuples to the database in one batched insert.
2. **Reload session** (`utils/QlikConnector.py`).
   - `open_apps` drives the Qlik Sense engine over a JSON-RPC websocket for every app in the apps folder.
   - The steps are: connect, OpenDoc, GetActiveDoc, DoReloadEx (with its status check), then DoSave.
   - The first step that raises or exits ends the whole run.

Modules:

- `Wrappers`: `Option` and `Result`.
- `Strings`: the Python `str` operations the extractor uses, on `seq<char>`: `split`, `join`, `in`, `find`, `rfind`, `strip` and one-character `replace`.
- `Dates`: `datetime.strptime(t, '%Y%m%d')` as CPython implements it, and `strftime('%Y-%m-%d')`.
   - Strptime compiles the format to a regular expression and takes the first match in alternative order, backtracking into the month only.
   - It raises when text is left over after the match, and raises when the fields do not form a calendar date.
- `LogRecords`: the status of a log, specified on its lines (`Status`), and the method `GetStatus`.
   - `GetStatus` reverses an `array<string>` in place and scans it as the source does.
   - The same module holds `__get_infos` as the function `GetInfos` over a `LogFile`, which is the path's components plus the file's lines.
- `LogIngest`: the partition into packs (`Packs`) and the batches each pack inserts (`Inserts`).
   - It also holds the class `LogTable`, whose method `UpdateTable` runs the pack loop and appends each batch to its `inserted` field.
- `ReloadSession`: the specification of the websocket protocol, as values.
   - Requests are the fixed JSON-RPC envelopes. Responses are what the engine can answer.
   - A `Run` is the sequence of websocket events (connected, request sent, close called) plus how it ended (continued, raised, library error, exited).
   - `RunApp` is one app's run, built step by step. `RunApps` chains the apps.
   - `SocketAfter` says what `self.ws` is after a sequence of events. `Requests` lists the requests sent on one connection.
- `QlikConnector`: the class `Connector` with `ws`, a connection counter and an event `log`.
   - It has one method per step of the source.
   - Every method's postcondition states its new log, its new socket and its outcome as the corresponding `ReloadSession` run.
   - The lemmas of `ReloadSession` then say what those runs do.

The engine and the file system enter the model as parameters:

- For each app, an `EngineScript` says whether the engine accepts the connection and gives the responses to the four requests.
- For each log file, a `LogFile` gives the path's components and the file's lines.

Behaviour of the code worth noting:

- A reload counts as completed whenever the `qSuccess` key is present, even when its value is `false` (`utils/QlikConnector.py:117`).
- A failed reload whose response names a `qScriptLogFile` raises without closing the connection (`utils/QlikConnector.py:121-127`).
- An engine `error` response has the connection closed twice: once in the `if` and again in the `except` handler.
- An exception while extracting any file of a pack cancels that whole pack's insert (`database/LogDB.py:38-58`).
- No filter against logs already in the table is applied before insertion.

## Model

| member | source | states |
|---|---|---|
| LogRecords.Status | database/LogDB.py:77-88 | the status message of a log in file order: the error text of the last `Error:` line, else the success marker, else "No message found."; `LastErrorLineWins`, `StatusWithoutErrorLine` and `GetStatus` connect it to the reverse scan |
| LogRecords.StatusCode | database/LogDB.py:71 | "Error" when the status contains `Error:`, "OK" otherwise; `StatusCodeIffErrorLine` ties it to the lines |
| LogRecords.LastErrorLine | database/LogDB.py:79-84 | the index of the last line containing `Error:`: that line contains it, no later line does, and -1 means no line does |
| LogRecords.ErrorText | database/LogDB.py:83-84 | the stripped text from the first `Error:` of a line starts with `Error:` |
| LogRecords.StatusCodeIffErrorLine | database/LogDB.py:71 | the status code is "Error" exactly when some line of the log contains `Error:` |
| LogRecords.LastErrorLineWins | database/LogDB.py:79-84 | the last line containing `Error:` decides the status, whatever success-marker lines follow it in the file |
| LogRecords.StatusWithoutErrorLine | database/LogDB.py:85-88 | with no `Error:` line the status is the success marker if some line has it and "No message found." otherwise, and the code is "OK" |
| LogRecords.MarkersHaveNoError | database/LogDB.py:85-88 | neither the success marker nor the default message contains `Error:` |
| LogRecords.Reverse | database/LogDB.py:79 | `content.reverse()` leaves the array holding the old contents in reverse order |
| LogRecords.GetStatus | database/LogDB.py:77-88 | reverses the lines in place and returns the status of the log, `Status` of the lines in file order |
| LogRecords.ScanReversed | database/LogDB.py:81-88 | the loop over the reversed lines, which stops at the first `Error:` line and only records the marker at a success line, returns the status of the log |
| LogRecords.ErrorScanResult | database/LogDB.py:81-84 | a backward scan stopping at its first `Error:` line has found the chronologically last error line |
| LogRecords.CleanScanResult | database/LogDB.py:81-88 | a backward scan that meets no `Error:` line yields the success marker exactly when some line holds it |
| LogRecords.Stem | database/LogDB.py:73 | `Path.stem`: a prefix of the name that ends just before its last dot, drops only a non-empty final suffix, and keeps a name whose only dot is leading or trailing |
| LogRecords.RecordDate | database/LogDB.py:72 | the date of a file name's dot-tokens is ten characters shaped `YYYY-MM-DD`: dashes at positions 4 and 7, digits everywhere else |
| LogRecords.RelativePath | database/LogDB.py:74 | the components from index 4 on joined by `/`, with every backslash turned into `/`; `RelativePathRoundTrip` proves it has no backslash and splits back into the components |
| LogRecords.GetInfos | database/LogDB.py:63-75 | `__get_infos` with the file's lines given: the one-tuple list or the exception, the checks in the source's order; `ShortPathRejected`, `GetInfosSucceedsIff`, `GetInfosFields` and `UnparseableDateRejected` characterise it |
| LogRecords.ShortPathRejected | database/LogDB.py:65-68 | a path with fewer than five components yields no tuple: IndexError when it is empty, ValueError otherwise |
| LogRecords.GetInfosSucceedsIff | database/LogDB.py:65-75 | extraction succeeds exactly when the path has five or more components, the file name has a dot, and the first eight characters of its second dot-token parse as a date |
| LogRecords.UnparseableDateRejected | database/LogDB.py:72 | once the path checks pass, a date token whose first eight characters are fewer than six, or hold a character that is neither a digit nor a space, makes extraction raise ValueError |
| LogRecords.GetInfosFields | database/LogDB.py:66-75 | a successful extraction gives exactly one tuple. Its event is the file name up to the first dot; its status is the log's status; its code is "Error" or "OK" as an `Error:` line exists or not; its date is the parsed second token; its appID is the stem; its path holds no backslash |
| LogRecords.RelativePathRoundTrip | database/LogDB.py:74 | the relative path holds no backslash, and when no component holds a separator it splits on `/` back into the components from index 4 on |
| LogRecords.EightDigitRecordDate | database/LogDB.py:72 | when the second token starts with eight digits, the date is accepted exactly when they form a calendar date. It is then those digits written `YYYY-MM-DD`; otherwise the error is ValueError |
| LogRecords.NoSecondToken | database/LogDB.py:72 | a file name without a dot raises IndexError at `app[1]` |
| LogRecords.GetInfosAsWritten | database/LogDB.py:63-93 | as written, extraction always raises; once the path checks pass the error is the TypeError of the `__open_file` call |
| Strings.Split | database/LogDB.py:66 | `split` gives at least one piece, no piece holds the separator, the pieces join back to the text, and there are two or more exactly when the separator occurs |
| Strings.SplitJoin | database/LogDB.py:66 | splitting a join of separator-free pieces gives the pieces back |
| Strings.FirstPieceIsPrefixBeforeSep | database/LogDB.py:69 | `app[0]` is the longest prefix of the name without a dot |
| Strings.FindFrom | database/LogDB.py:83 | `find` returns the first index where the pattern occurs, or -1 exactly when it occurs nowhere |
| Strings.FindIffContains | database/LogDB.py:82-83 | `find` succeeds exactly when `in` holds, and the text from its result starts with the pattern |
| Strings.ContainsPrefix | database/LogDB.py:71 | a text beginning with a pattern contains it |
| Strings.TrimmedEnd | database/LogDB.py:84 | the end of a text once trailing whitespace is dropped: everything after it is whitespace, the character before it is not |
| Strings.TrimmedStart | database/LogDB.py:84 | the number of leading whitespace characters: all whitespace, followed by a character that is not |
| Strings.StripKeepsHead | database/LogDB.py:84 | `strip` keeps a head of the text that neither starts nor ends with whitespace |
| Strings.RFind | database/LogDB.py:73 | `rfind` gives the last index holding the character, or -1 when none does |
| Strings.LastBefore | database/LogDB.py:73 | the last index below a bound holding the character, or -1 |
| Dates.MonthWidths | database/LogDB.py:72 | each month alternative that matches covers one or two digits inside the text |
| Dates.DayWidths | database/LogDB.py:72 | each day alternative that matches covers one or two characters of day text inside the text |
| Dates.FirstMatch | database/LogDB.py:72 | the regular expression's first match picks the first month alternative that a day alternative can follow, with that month's first day alternative |
| Dates.Strptime | database/LogDB.py:72 | `strptime` accepts only calendar dates |
| Dates.AcceptedChars | database/LogDB.py:72 | an accepted token has six to eight characters, each a digit or a space |
| Dates.FieldsDate | database/LogDB.py:72 | the date built from the matched year, month and day fields is returned only when it is a calendar date |
| Dates.Padded | database/LogDB.py:72 | a zero-padded field has the requested width, only digits and the value it renders |
| Dates.Strftime | database/LogDB.py:72 | `strftime('%Y-%m-%d')` is ten characters: digit fields holding the year, month and day, separated by dashes |
| Dates.TwoDigitMonth | database/LogDB.py:72 | a month 01-12 matches as two characters, ahead of the one-digit alternative |
| Dates.TwoDigitDay | database/LogDB.py:72 | a day 01-31 matches as two characters, ahead of the one-digit alternative |
| Dates.EightDigitAccepted | database/LogDB.py:72 | eight digits forming a calendar date are parsed as that date |
| Dates.EightDigitParsed | database/LogDB.py:72 | eight digits are only ever parsed as the date they spell |
| Dates.EightDigitToken | database/LogDB.py:72 | eight digits are accepted exactly when they spell a calendar date `YYYYMMDD`, and then as that date |
| Dates.StrftimeInverse | database/LogDB.py:72 | rendering the date read from eight digits gives back those digits punctuated `YYYY-MM-DD` |
| Dates.CompactRoundTrip | database/LogDB.py:72 | writing a date as `YYYYMMDD` and parsing it back gives the date |
| Dates.SevenCharacterToken | database/LogDB.py:72 | a seven-character token such as `2024115` is still accepted (as 2024-11-05), because the month and day fields may have one digit |
| LogIngest.Packs | database/LogDB.py:34-37 | the slices `files[i:i + 50]`: ceil(n/50) packs, none empty, none over 50, all but the last exactly 50, so an empty list gives no packs |
| LogIngest.PacksCover | database/LogDB.py:36-37 | the packs concatenate back to the file list |
| LogIngest.PackIsSlice | database/LogDB.py:36-37 | pack `k` is the slice of the list starting at `50 * k` |
| LogIngest.PackHead | database/LogDB.py:36-37 | the first pack is the first 50 files, or all of them when there are fewer |
| LogIngest.CollectPack | database/LogDB.py:39-43 | collecting a pack succeeds exactly when every file of it extracts |
| LogIngest.PackInsert | database/LogDB.py:39-49 | a pack's batch: none when an extraction raised or nothing was collected, else the collected tuples; `FailingPackSkipped`, `CleanPackInserted` and `PackBatchSize` state its cases |
| LogIngest.Inserts | database/LogDB.py:36-52 | at most one insert per pack, and never an empty batch |
| LogIngest.FailingPackSkipped | database/LogDB.py:38-58 | a pack with a file that raises inserts nothing, and the packs before and after insert as they would without it |
| LogIngest.InsertsAppend | database/LogDB.py:36-58 | the batches of a list of packs are those of its parts, in order |
| LogIngest.CleanPackInserted | database/LogDB.py:39-49 | a pack whose files all extract inserts one batch holding each file's tuple, in file order |
| LogIngest.CleanPackAnyOrder | database/LogDB.py:39-49 | whatever order the thread pool completes a clean pack's extractions in, the batch holds each file's tuple exactly once |
| LogIngest.CollectAnyOrder | database/LogDB.py:40-43 | collecting a reordering of a pack whose files all extract succeeds and yields the same tuples, as a multiset |
| LogIngest.OneRecord | database/LogDB.py:75 | an extraction that succeeds yields one tuple |
| LogIngest.CollectOneEach | database/LogDB.py:40-43 | collecting files that each give one tuple gives those tuples, one per file |
| LogIngest.BatchesAtMostPackSize | database/LogDB.py:36-49 | no batch has more than 50 rows |
| LogIngest.PackBatchSize | database/LogDB.py:40-49 | the batch of a pack, when it has one, holds one row per file |
| LogIngest.AsWrittenNothingInserted | database/LogDB.py:36-58 | with extraction as written no pack reaches its insert |
| LogIngest.AsWrittenUpdateTableInsertsNothing | database/LogDB.py:29-58 | `update_table` as written inserts nothing, whatever the file list |
| LogIngest.CollectAppend | database/LogDB.py:40-43 | collecting a concatenation is collecting its parts one after the other, up to the first failure |
| LogIngest.PacksUnfold | database/LogDB.py:36-37 | the packs from offset `i` are the slice `files[i:i + 50]` followed by the packs from `i + 50` |
| LogIngest.ExtractPack | database/LogDB.py:39-43 | the thread-pool block for one pack: it fails exactly when some file raises, and otherwise returns the pack's collected tuples |
| LogIngest.InsertsStep | database/LogDB.py:36-52 | one turn of the pack loop: the batch of the next pack, then those of the rest |
| LogIngest.LogTable.constructor | database/LogDB.py:10-13 | a table with nothing inserted |
| LogIngest.LogTable.UpdateTable | database/LogDB.py:29-58 | appends exactly the batches `Inserts(Packs(files), GetInfos)`: one per pack that extracted without error and gave tuples |
| ReloadSession.AppRuns | utils/QlikConnector.py:16-22 | one run per app, in list order |
| ReloadSession.Connect | utils/QlikConnector.py:24-33 | `__conect_engine`: the connection is established and the loop goes on, or the process exits; `AppEnds` and `AppSocket` state its two cases |
| ReloadSession.Call | utils/QlikConnector.py:45-57 | one step's try block: the request is sent; an `error` reply closes twice and raises the engine's message, an unreadable one closes once and re-raises, a reply continues; `CallEnds`, `CallRequests` and `CallSocket` state it |
| ReloadSession.ReloadStatus | utils/QlikConnector.py:115-127 | `__get_reload_status`: continues when `qSuccess` is present, otherwise raises "Reload failed", closing only when no `qScriptLogFile` is present; `ReloadStatusSocket` states its socket effect |
| ReloadSession.Reload | utils/QlikConnector.py:87-113 | `__reload`: the DoReloadEx round trip, then the reload status when it continued; `ReloadRun` and `ReloadSocket` state it |
| ReloadSession.Session | utils/QlikConnector.py:19-22 | the four steps of an app on its connection, each only after the previous continued; `SessionRequests`, `SessionEnds` and `SessionSocket` state it |
| ReloadSession.RunApp | utils/QlikConnector.py:18-22 | one pass of the loop body: connect, then the four steps; `AppEnds`, `AppRequests` and `AppSocket` state it |
| ReloadSession.RunApps | utils/QlikConnector.py:16-22 | `open_apps`: the apps in list order, app `j` on connection `conn + j`, until one raises or exits; `AppsOutcome`, `AppsRequests` and `AppsSocket` state it |
| ReloadSession.CallEnds | utils/QlikConnector.py:45-57 | a round trip continues exactly when the engine replied, and otherwise raises the engine's message or re-raises the library's error |
| ReloadSession.CallRequests | utils/QlikConnector.py:45 | a round trip sends its one request |
| ReloadSession.CallConnection | utils/QlikConnector.py:45-57 | a round trip acts only on its own connection |
| ReloadSession.CallSocket | utils/QlikConnector.py:48-57 | a round trip on an open connection leaves it closed exactly when it failed |
| ReloadSession.ReloadStatusSocket | utils/QlikConnector.py:115-127 | the reload status check closes the connection exactly when the reply has neither `qSuccess` nor `qScriptLogFile` |
| ReloadSession.NoRequestsElsewhere | utils/QlikConnector.py:18-22 | events on other connections send nothing on a connection |
| ReloadSession.ThenRequests | utils/QlikConnector.py:18-22 | the requests of a step followed by another are the first's, then the second's only if the first continued |
| ReloadSession.ThenConnections | utils/QlikConnector.py:18-22 | two steps on a set of connections act only on that set together |
| ReloadSession.ThenSocket | utils/QlikConnector.py:18-22 | the socket after a step followed by another is the second's effect only if the first continued |
| ReloadSession.ReloadRun | utils/QlikConnector.py:87-127 | `__reload` sends DoReloadEx alone. It continues exactly when the reply has a `qSuccess` key whatever its value, and otherwise raises the engine's message or "Reload failed" |
| ReloadSession.ReloadSocket | utils/QlikConnector.py:87-127 | `__reload` leaves its connection closed exactly when it failed without a `qScriptLogFile` in the reply; a failed reload that names a log file leaves it open |
| ReloadSession.SessionRequestList | utils/QlikConnector.py:19-22 | the requests after connecting, step by step: OpenDoc, then GetActiveDoc, DoReloadEx and DoSave while each earlier step succeeded |
| ReloadSession.SessionRequests | utils/QlikConnector.py:19-22 | the requests after connecting are a prefix of the fixed protocol OpenDoc, GetActiveDoc, DoReloadEx, DoSave, as long as the steps allow |
| ReloadSession.SessionConnection | utils/QlikConnector.py:19-22 | the steps after connecting act only on the app's connection |
| ReloadSession.SessionEnds | utils/QlikConnector.py:19-22 | the steps end as the first step that fails ends, or continue |
| ReloadSession.SessionSocket | utils/QlikConnector.py:19-22 | after the steps the connection is closed exactly when they aborted, except after a failed reload naming a log file |
| ReloadSession.AppRequests | utils/QlikConnector.py:16-22 | the requests on an app's connection are the fixed envelopes OpenDoc(id 0, handle -1, [path, ""]), GetActiveDoc(1, -1, []), DoReloadEx(2, 1, {}), DoSave(6, 1, []), in that order, cut after the first step that fails; none when the connection failed |
| ReloadSession.AppConnection | utils/QlikConnector.py:16-22 | one app acts only on its own new connection |
| ReloadSession.AppEnds | utils/QlikConnector.py:16-33 | an app exits when the engine is unreachable, otherwise ends as its first failing step, and the loop goes on exactly when every step succeeded |
| ReloadSession.AppSocket | utils/QlikConnector.py:18-152 | after an app `self.ws` is its new connection: open after a successful DoSave, closed after any abort except a failed reload naming a log file; unchanged when the engine was unreachable |
| ReloadSession.AppInSteps | utils/QlikConnector.py:18-22 | an app's run is the five steps performed one after the other, left to right |
| ReloadSession.ChainSnoc | utils/QlikConnector.py:17 | one more app at the end of the loop runs after all earlier ones |
| ReloadSession.ChainPrefixStep | utils/QlikConnector.py:17 | the loop over the first `i + 1` apps is the loop over the first `i` then app `i` |
| ReloadSession.ChainStops | utils/QlikConnector.py:16-22 | once an app raised or exited, later apps change nothing |
| ReloadSession.FirstFailed | utils/QlikConnector.py:16-22 | the position of the first run that does not continue: all before it continue |
| ReloadSession.ChainOutcome | utils/QlikConnector.py:16-22 | a loop of runs ends as its first run that does not continue, or continues |
| ReloadSession.ChainConnections | utils/QlikConnector.py:17-18 | a loop of runs acts only on its runs' connections |
| ReloadSession.ChainRequests | utils/QlikConnector.py:16-22 | the requests sent on run `j`'s connection are run `j`'s own when every run before it continued, and none otherwise |
| ReloadSession.ChainRequestsLater | utils/QlikConnector.py:17-19 | the first app sends nothing on a later app's connection: a later connection carries only what the rest of the loop sends, if it runs at all |
| ReloadSession.ChainRequestsHead | utils/QlikConnector.py:17-19 | the first run's connection carries the first run's requests alone |
| ReloadSession.ChainSocket | utils/QlikConnector.py:16-27 | the socket after a loop of runs is the one left by its first run that does not continue, started from the connection the run before left open |
| ReloadSession.FirstStuck | utils/QlikConnector.py:16-22 | the position of the first app that does not go through: all before it do |
| ReloadSession.FirstFailedStuck | utils/QlikConnector.py:16-22 | runs that continue exactly where the apps go through stop at the same position |
| ReloadSession.AppRunsEnds | utils/QlikConnector.py:16-22 | app `i`'s run ends as `AppOutcome` of its engine script, and continues exactly when it goes through |
| ReloadSession.AppRunsConnection | utils/QlikConnector.py:17-18 | app `i` acts only on connection `conn + i` |
| ReloadSession.AppRunsRequests | utils/QlikConnector.py:16-22 | app `i` sends the prefix of the protocol its engine responses allow |
| ReloadSession.AppRunsSocket | utils/QlikConnector.py:18-152 | the socket app `i` leaves, as in `AppSocket` |
| ReloadSession.FirstFailedApp | utils/QlikConnector.py:16-22 | the app at which the loop stops is the first app that does not go through |
| ReloadSession.AppsOutcome | utils/QlikConnector.py:16-22 | `open_apps` returns normally exactly when every app goes through; otherwise it ends as the first app that does not, and the remaining apps are skipped |
| ReloadSession.AppsNumbered | utils/QlikConnector.py:17-18 | app `i` runs on connection `conn + i` |
| ReloadSession.AppsConnections | utils/QlikConnector.py:17-18 | `open_apps` acts only on the connections it creates, one per app |
| ReloadSession.PrefixGoesThrough | utils/QlikConnector.py:16-22 | every app before position `j` goes through exactly when the first stuck app is not before `j` |
| ReloadSession.AppsRequests | utils/QlikConnector.py:16-22 | on app `j`'s connection, `open_apps` sends the prefix of the protocol that app's responses allow when every earlier app went through, and nothing otherwise |
| ReloadSession.AppsSocket | utils/QlikConnector.py:16-152 | `self.ws` after `open_apps`: the last app's connection still open when all go through. Otherwise it is the connection the first stuck app leaves, or the previous app's open connection when the engine could not be reached |
| ReloadSession.AppsLeaveOpen | utils/QlikConnector.py:129-152 | an app that goes through leaves its connection open |
| QlikConnector.Connector.constructor | utils/QlikConnector.py:10-14 | a connector with its host and apps, no connection and an empty log |
| QlikConnector.Connector.Close | utils/QlikConnector.py:51 | `ws.close()` records a close and marks the current connection closed |
| QlikConnector.Connector.ConnectEngine | utils/QlikConnector.py:24-33 | a new open connection, numbered next, when the engine is reachable; otherwise nothing is sent and the process exits |
| QlikConnector.Connector.Exchange | utils/QlikConnector.py:45-57 | one round trip: the request is sent; an engine error closes twice and raises its message, a library error closes once and re-raises, a reply continues |
| QlikConnector.Connector.OpenApp | utils/QlikConnector.py:35-60 | `__open_app` is the OpenDoc round trip (id 0, handle -1, params [path, ""]) |
| QlikConnector.Connector.CheckAppStatus | utils/QlikConnector.py:62-85 | `__check_app_status` is the GetActiveDoc round trip (id 1, handle -1, params []) |
| QlikConnector.Connector.Reload | utils/QlikConnector.py:87-113 | `__reload` is the DoReloadEx round trip (id 2, handle 1, params {}), then the status check only when it succeeded |
| QlikConnector.Connector.GetReloadStatus | utils/QlikConnector.py:115-127 | a present `qSuccess` continues; otherwise "Reload failed" is raised, after a close only when no `qScriptLogFile` is present |
| QlikConnector.Connector.SaveApp | utils/QlikConnector.py:129-152 | `__save_app` is the DoSave round trip (id 6, handle 1, params []), leaving the connection open when it succeeds |
| QlikConnector.Connector.OpenOne | utils/QlikConnector.py:18-22 | one pass of the loop body performs exactly the app's run `RunApp` |
| QlikConnector.Connector.OpenApps | utils/QlikConnector.py:16-22 | `open_apps` performs exactly `RunApps` on the apps in order, with a fresh connection per app, and returns normally only after creating one connection per app |
| QlikConnector.StepAppended | utils/QlikConnector.py:18-22 | a step performed after what is done appends its events to the log and applies them to the socket |
| QlikConnector.ChainStep | utils/QlikConnector.py:17-22 | the loop's log and socket after one more app |
| QlikConnector.ChainEnd | utils/QlikConnector.py:17 | the loop stops after the last app or the first app that does not continue, and then has done the whole of `RunApps` |

## Left out

- `database/BaseDB.py` is not part of this model: MySQL connections, `create_table`, `close` and `execute_query`. An insert is recorded as the batch handed to `execute_query`.
- `LogDB.get_existing_logs` (an SQL query) is not modelled, and no filter against logs already in the table is applied, because the code applies none.
- Reading files is left out. A log's contents are given as its list of lines, and reading `update_log.sql` and the query text is not modelled.
- `__find_apps` (the `*.qvf` glob) is left out: the apps are an input sequence.
- The thread pool and `as_completed` are concurrency. A pack's tuples are collected in file order, although the source extends them in completion order. `LogIngest.CleanPackAnyOrder` proves that the batch holds the same tuples whatever the completion order.
- `CollectPack`: it returns the first exception in file order. With a thread pool, the source raises the first to complete.
- Websocket creation, `json.dumps`/`json.loads`, `logging`, `print`, `input()` and timing are I/O. Requests and responses are datatypes, the engine's behaviour is a parameter, and `exit(1)` is the terminal outcome `Exited`.
- A failing `ws.send` is not distinguished from a failing `ws.recv`: both are the response `Unreadable`, and the request counts as sent.
- A response whose `result` or `qResult` is not a JSON object (a TypeError in `__get_reload_status`) is not modelled. Responses are either an `error`, unreadable, or a reply with or without the two keys.
- `QlikSenseReloader.py` (the entry point: configuration, logging setup and a catch-all log) is not part of this model.
- `Dates.Strptime`: `\d` is taken as the ASCII digits only, whereas Python's regular expression also accepts other Unicode decimal digits.
- `Dates.Strftime`: years below 1000 are written zero-padded to four digits; the C library behind Python's `strftime` may leave them unpadded on some platforms.
- `QlikConnector.Connector.OpenApp`, `CheckAppStatus`, `Reload` and `SaveApp` require an open connection. `open_apps` calls `__open_app` right after `__conect_engine` has opened one, and each later step only when every earlier step of that app returned normally (`utils/QlikConnector.py:18-22`). `ReloadSession.CallSocket` and `ReloadSession.ReloadSocket` prove that a step that continues leaves the connection open.
- `QlikConnector.Connector.Exchange`: it also requires an open connection, for the same reason.
- `QlikConnector.Connector.GetReloadStatus`: it requires a connection to exist, which `__reload` guarantees.

## Findings

| source | as written | input that shows it | evidently intended | confidence | as-written member | corrected member |
|---|---|---|---|---|---|---|
| database/LogDB.py:78-93 | `__open_file` is declared without `self`, so `self.__open_file(file)` passes two arguments to a one-parameter function and raises TypeError; every file with five or more path components fails extraction, every pack is cancelled and nothing is inserted | any file list, e.g. one file `C:/a/b/c/app.20240115.log`: its pack raises TypeError and `update_table` inserts nothing | `__open_file` reads the log's lines (a `@staticmethod` or a `self` parameter), so a well-formed log yields its tuple and its pack's batch is inserted | not executed | LogIngest.AsWrittenUpdateTableInsertsNothing | LogIngest.LogTable.UpdateTable |
