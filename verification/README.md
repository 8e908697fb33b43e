# Maestro: protocol, configuration, caches and price arithmetic

A Dafny model of the parts of Maestro where several functions have to agree: the cooperative server that
hands a socket from one task to the next, the text engine behind the editable facility configuration, the
caches that threads share, and the arithmetic on prices and loads.

`dafny verify dfyconfig.toml` checks everything.

| file | models |
|---|---|
| `Common.dfy` | optional values, capacities that double, distances of numbers |
| `ConfigText.dfy` | the configuration text: its lines, the update parser, the merge, the lookup, and how they agree |
| `ConfigEngine.dfy` | the same as cursor loops over a mutable table and a growing buffer |
| `RequestFraming.dfy` | one HTTP connection as a machine fed with arbitrary chunks, against a one-shot splitter |
| `RequestFate.dfy` | what the bytes of a connection come to: the request they hold, or the status it answers with |
| `HttpConnection.dfy` | the connection object with its buffer, refining that machine |
| `ServerPipeline.dfy` | TCP, HTTP and Opti server, connections and instances under every schedule |
| `ServerRounds.dfy` | how many turns a round and the life of a socket can take |
| `ServerAccepts.dfy` | that clients are asked for and get in |
| `ServerAnswers.dfy` | which bytes of a connection bring it an answer, with which status, and that it comes once |
| `ServerTasks.dfy` | the server object, its connection objects, tasks and callbacks, refining the pipeline |
| `SpotCache.dfy` | the spot price table over its history, and the handler that fetches once a day |
| `WeatherCache.dfy` | facilities and weather rows over all interleavings of the critical sections |
| `Resampling.dfy` | sums, means, and reading prices through an integer index |
| `PriceEstimate.dfy` | the estimate of tomorrow's prices |
| `Consumption.dfy` | the consumption profile |
| `LoadWindow.dfy` | costs, the recommended window, the dearest and cheapest stretch |
| `Intervals.dfy` | the price report and its classes |
| `MeterStore.dfy` | the columns of the meter readings |

Code that updates objects, tables, buffers or arrays step by step is written as classes and methods, each
proved against a function; what the functions promise is proved about them as lemmas. Those lemmas quantify
over every text, every chunking, every schedule, every interleaving and every list of numbers.

## Assumptions

- The scheduler steps every live task once a round, in any order that may change from round to round; a task
  that is created may or may not be stepped in the round that creates it.
- `accept` never returns a descriptor that is still open. What sockets deliver is arbitrary.
- The parsers of the first line and of the header block are arbitrary functions of the line and of the block.
- SQLite does what SQL says: statements are atomic, `AUTOINCREMENT` ids are never reused, a foreign key that
  does not hold fails the statement. Each block that holds the mutex is one step.
- Prices, energies and weights are exact real numbers; 0.65, 0.35, 1.35 and 0.0001 are exact.
- Allocation and task creation succeed.

## What is not so

Properties one might expect and that do not hold, each with its exact condition:

- An update of a file whose last line has no newline glues the first appended entry to that line. Exactly then
  the merge is not idempotent and some update cannot be read back (`ConfigText.MergeIdempotentIff`,
  `ConfigText.UpdatesReadBackIff`); `ConfigText.OtherKeyChangesIff` says which other key reads differently.
  An update on which it happens is `FacilityConfig.NameIsGlued`.
- Not every chunking of a stream that holds a request brings the request: a first line of 1023 bytes is refused
  when a read ends inside its line end (`RequestFraming.EdgeLineRefusedIff`), first line and headers share 21
  attempts and need two of them, and the body has 21 more (`RequestFraming.ReachedIff` has the exact condition).
- A weather insert is lost when, between its two critical sections, another insert succeeds and leaves no row of
  the facility (`WeatherCache.InsertIsLostIff`, `WeatherCache.LostIffOutdated`); `WeatherCache.SpotsDropNewFacility`
  is a run in which it is.
- The estimate does not always keep today's mean (`PriceEstimate.EstimateKeepsMeanIff`); two prices read through
  three slots move it (`PriceEstimate.UnevenBlocksMoveTheMean`).
- The first history day takes in the readings of the day before it, but for its first second (`Consumption.HistoryDays`).
- The daily price report is always refused, and the hourly one reads past its prices when there are fewer
  than 96 (`Intervals.ReportByInterval`).
- A price at the average is not always of the average class: exactly with a negative average and a positive
  threshold the limits change places, and no price is (`Intervals.UsualIsPossibleIff`, `Intervals.FlatDayIsUsualIff`).

## Model

| member | source | states |
|---|---|---|
| `TextLines.JoinLines` | server/src/opti/opti_instance.c:1431-1444 | cutting a text into its lines and joining them again loses no byte, and gives well-formed lines |
| `TextLines.LinesJoin` | server/src/opti/opti_instance.c:1431-1444 | well-formed lines are the lines of the text they make up |
| `ConfigText.MergeLines` | server/src/opti/opti_instance.c:1421-1529 | unless the first appended line lands behind a last line without newline, the merged text has exactly the existing lines, each replaced by its update or kept, and then one line for each update that matched nothing, in table order |
| `ConfigText.MergeKeepsLines` | server/src/opti/opti_instance.c:1446-1495 | a merge that glues nothing leaves every line in its place: one that begins with an updated key and an equals sign becomes that key and its value, every other one stays byte for byte |
| `ConfigText.MissingIff` | server/src/opti/opti_instance.c:1498-1525 | appended is an entry for each updated key that no line begins with, and nothing else, in the order of the table |
| `ConfigText.MergedLineIsEntry` | server/src/opti/opti_instance.c:1446-1482 | every line of the merged text that has an updated key is that key's entry, duplicates included |
| `ConfigText.UpdatedKeyOccurs` | server/src/opti/opti_instance.c:1457-1525 | every updated key has a line in the merged text |
| `ConfigText.MergeIdempotentIff` | server/src/opti/opti_instance.c:1421-1529 | merging the same updates again changes nothing, if and only if the first merge glued no entry to an unterminated last line |
| `ConfigText.GluedMergeGrows` | server/src/opti/opti_instance.c:1482-1525 | a merge that glued an entry makes the text longer when it is repeated |
| `ConfigText.LookUpAfterMerge` | server/src/opti/opti_instance.c:972-1016 | after a merge that glued nothing an updated key reads as its new value and every other key as before, for every buffer size |
| `ConfigText.LookUpIsFirst` | server/src/opti/opti_instance.c:972-1016 | a lookup gives what follows the key on the first line that begins with it and an equals sign and goes on, if that fits the buffer with its terminator; it fails if it does not fit or there is no such line |
| `ConfigText.OtherKeyChangesIff` | server/src/opti/opti_instance.c:1482-1525 | after a merge that glued, a key without an update reads differently if and only if it is the key of the glued line, which is that of the last line if it has one, no earlier line answers for it, the glued line has a value, and the value before was not too long for the buffer anyway |
| `ConfigText.UpdatedAfterGlued` | server/src/opti/opti_instance.c:1482-1525 | and of the updated keys all read as their new value but the glued one, which is not found |
| `ConfigText.UpdatesReadBackIff` | server/src/opti/opti_instance.c:972-1016 | all updates can be read back if and only if the merge glued nothing |
| `ConfigText.ParseOkIff` | server/src/opti/opti_instance.c:1364-1400 | an update body is accepted if and only if it is not empty and each of its lines has no equals sign at all or begins, once its CR is dropped, with one of the keys and an equals sign and has fewer than 128 bytes behind that |
| `ConfigText.OtherLinesAreSkipped` | server/src/opti/opti_instance.c:1380-1388 | a line without an equals sign, such as a blank one, changes neither the verdict nor the table, wherever it stands |
| `ConfigText.ParseLastWins` | server/src/opti/opti_instance.c:1384-1404 | the parsed table has exactly the keys that occur, each with the value of its last line |
| `ConfigText.ParseAfterMerge` | server/src/opti/opti_instance.c:1357-1529 | parsing a merged text gives what the text parsed to before, overridden by the table |
| `ConfigText.ParseUndoesMergeIff` | server/src/opti/opti_instance.c:1357-1529 | merging a table into an empty text and parsing it gives the table back, if and only if no value ends in CR |
| `ConfigText.ParsedTableIsValid` | server/src/opti/opti_instance.c:1398-1404 | what the parser stores can be written as lines: no value holds a newline or is too long for its slot |
| `ConfigText.UpdateThenLookUp` | server/src/opti/opti_instance.c:2085-2145 | after an accepted update every key the body sets reads as the value of its last line, every other key as before |
| `ConfigText.UpdateTwiceIff` | server/src/opti/opti_instance.c:2085-2145 | sending the same update twice equals sending it once, if and only if nothing was glued the first time |
| `FacilityConfig.EditableKeysAreIndependent` | server/src/opti/opti_instance.c:1296-1316 | no editable key occurs twice or is the end of another, which the two results above need |
| `FacilityConfig.TemplateOverridden` | server/src/opti/opti_instance.c:25-32 | merging updates into the blank template and parsing the result gives the template overridden by the updates |
| `FacilityConfig.NameIsGlued` | server/src/opti/opti_instance.c:1482-1525 | an input that glues: setting the name in a file that holds `x` without a newline gives `xname=a`, and the same update then changes the file again |
| `GrowingText.TextBuffer.Append` | server/src/opti/opti_instance.c:1329-1355 | the content is the concatenation of all appended texts with a terminator, the capacity is 512 times a power of two and 512 or below twice what is used, and all buffers ever requested are linear in the content |
| `ConfigEngine.CopyConfigValue` | server/src/opti/opti_instance.c:972-1016 | the cursor loop finds what the line-wise lookup finds |
| `ConfigEngine.UpdateTable.Parse` | server/src/opti/opti_instance.c:1357-1419 | the cursor loop over the body leaves the table and the verdict of the line-wise parser |
| `ConfigEngine.UpdateTable.RewriteLine` | server/src/opti/opti_instance.c:1446-1495 | one line is copied or replaced by its entry, and its slot is marked as written |
| `ConfigEngine.UpdateTable.AppendMissing` | server/src/opti/opti_instance.c:1498-1525 | every slot with a value that was not written is appended, in table order |
| `ConfigEngine.UpdateTable.Merge` | server/src/opti/opti_instance.c:1421-1529 | the cursor loop through the growing buffer produces the merged text, or no text at all for an empty text without updates |
| `ConfigEngine.UpdateTable.UpdateText` | server/src/opti/opti_instance.c:2085-2145 | an update request as a whole: parse the body, then merge |
| `RequestFraming.CutExtend` | server/src/http/http_connection.c:128-146 | once a whole request can be cut from the bytes, further bytes do not change it |
| `RequestFraming.StepInv` | server/src/http/http_connection.c:104-329 | every step, whatever is read, keeps what buffer, counters and outcome say about the bytes received |
| `RequestFraming.RunIsCut` | server/src/http/http_connection.c:104-329 | in every run the request that is reached is the one cut from all received bytes at once: first line, header block, and `content_length` body bytes |
| `RequestFraming.ChunkingsAgree` | server/src/http/http_connection.c:104-329 | two chunkings of one stream that both reach validation hold the same request |
| `RequestFraming.ReachedIff` | server/src/http/http_connection.c:104-305 | for every list of chunks: a request is reached if and only if one can be cut from all the bytes, its header block or empty line is complete by the 21st read, the first line in an earlier one, its body within 21 reads more, and no read leaves off between the CR and the LF of a first line of 1023 bytes |
| `RequestFraming.EdgeLineRefusedIff` | server/src/http/http_connection.c:128-146 | a first line of 1023 bytes is refused exactly when a read ends between its CR and its LF |
| `RequestFraming.EdgeLineDependsOnChunking` | server/src/http/http_connection.c:128-146 | every stream with such a line is refused under one chunking and goes on under another |
| `RequestFraming.NoHeadersKeepSize` | server/src/http/http_connection.c:216-232 | in every run that has a request without headers its body is empty, while the buffer keeps the size it had behind the first line |
| `RequestFraming.RequestBounds` | server/src/http/http_connection.c:280-305 | the body handed on is exactly as long as announced and lies inside the buffer, and a request of more than 42 times 1024 bytes never validates |
| `RequestFate.CutIff` | server/src/http/http_connection.c:128-305 | the request that is cut is the one the bytes begin with: a first line of 1 to 1023 bytes up to the first CRLF, then an empty line or the block up to the first blank line, then as many bytes as its Content-Length says |
| `RequestFate.StatusByBytes` | server/src/http/http_connection.c:104-329 | in every run a connection that answers by itself answers by the bytes it received: 400 for a first line that is empty, too long or not valid and for headers that are refused, 500 for a first line its parser fails on and after 21 attempts, 200 for an echo; it asks an endpoint exactly for a valid request in time that is no echo |
| `HttpConnection.Connection.Shift` | server/src/http/http_connection.c:169-175 | the in-place move puts what lies behind the first bytes to the front and leaves the end as it was |
| `HttpConnection.Connection.Receive` | server/src/http/http_connection.c:113-121 | a read counts an attempt and puts the chunk behind what is there, in a larger buffer |
| `HttpConnection.Connection.ScanHeaders` | server/src/http/http_connection.c:211-277 | the header state does what the specified step does |
| `HttpConnection.Connection.Taskwork` | server/src/http/http_connection.c:490-541 | a turn of the connection object is a step of the specified machine |
| `ServerPipeline.TcpTurnInv` | server/src/tcp/tcp_server.c:153-240 | a turn of the TCP server keeps the timing of the slots; it accepts only into an empty slot and hands over only to an HTTP server that is idle |
| `ServerPipeline.HttpTurnInv` | server/src/http/http_server.c:114-201 | a turn of the HTTP server keeps the timing, finds the Opti slot empty when it hands over, and otherwise leaves the server idle |
| `ServerPipeline.OptiTurnInv` | server/src/opti/opti_server.c:197-283 | a turn of the Opti server keeps the timing of the slots |
| `ServerPipeline.NextInv` | server/src/opti/opti_instance.c:2226-2297 | every turn of every task in every order, and every end of a round, keeps the invariant of the whole server |
| `ServerPipeline.NoSlotIsOverwritten` | server/src/http/http_server.c:146-157 | in every reachable state no server puts anything into a slot that is full, or takes anything from one that is empty |
| `ServerPipeline.ExactlyOneHolder` | server/src/opti/opti_server.c:185-217 | every open socket has exactly one holder among the TCP slot, the HTTP slot and the connections; a closed one has none |
| `ServerPipeline.ConnectionsArePaired` | server/src/opti/opti_server.c:197-232 | the live connections are the live instances and the one in the Opti slot, and every connection ever made is live or was disposed of with its instance, once |
| `ServerPipeline.CallbacksComeFirst` | server/src/http/http_connection.c:320-328 | no connection calls a callback that is not installed, and both callbacks find their instance |
| `ServerPipeline.AnsweredOnce` | server/src/opti/opti_instance.c:2336-2360 | an instance answers only a connection that is still waiting, so none is answered twice |
| `ServerPipeline.DisposingIsAnswered` | server/src/http/http_connection.c:490-541 | no connection with a request for an endpoint is disposed of before it is answered |
| `ServerPipeline.EverySocketIsClosed` | server/src/http/http_connection.c:490-541 | whatever a peer sends or withholds, its socket is closed before 53 rounds have gone by since it was accepted |
| `ServerPipeline.EndpointsGetTheRequest` | server/src/opti/opti_instance.c:2263-2273 | an instance is only started for a request that is the one cut from the bytes of its connection |
| `ServerRounds.RoundsAreFinite` | server/src/main.c:36-44 | from every reachable state, the turns before the round ends are bounded by a measure of the tasks still to be stepped and those that can still be made, whatever the schedule |
| `ServerRounds.RoundCanEnd` | server/src/main.c:36-44 | and some schedule of at most so many turns gets to where the round can end |
| `ServerRounds.SocketsAreClosedInTime` | server/src/http/http_connection.c:490-541 | with n connections at first, 4452 + 159 n turns and round ends under any schedule close every socket that was open |
| `ServerAccepts.TcpStopsIff` | server/src/tcp/tcp_server.c:186-223 | in every run the TCP server has stopped if and only if an accept has failed while it was listening; no client being there does not stop it |
| `ServerAccepts.ClientsAreAskedFor` | server/src/tcp/tcp_server.c:153-200 | from every reachable state in which it has not stopped, the TCP server asks for a client before four rounds have ended, whatever the schedule |
| `ServerAccepts.TcpIsOnTime` | server/src/tcp/tcp_server.c:153-240 | after an acceptance it hands over in the next round, listens again from its turn in the one after that, and asks in the third |
| `ServerAccepts.AcceptedGetsConnection` | server/src/http/http_server.c:114-201 | an accepted descriptor gets in: when three rounds have ended a new connection has been made for it, which keeps it until it is disposed of |
| `ServerAnswers.RunTells` | server/src/http/http_connection.c:490-541 | in every run each connection is what its own chunks make of it, whatever the others do, but for the answer of its instance, whose status it then has and sends |
| `ServerAnswers.AnswerStays` | server/src/opti/opti_instance.c:2346-2356 | from the turn in which the instance answers, its status is that of the connection in every later state of the run until it is disposed of, and then what it has sent |
| `ServerAnswers.ThirdTurnAnswers` | server/src/opti/opti_instance.c:2302-2360 | an instance answers in its third turn, and in no other |
| `ServerAnswers.AnsweredOnceIff` | server/src/opti/opti_instance.c:2336-2360 | a connection that is gone has sent one response: with the status its instance gave it, once, if the bytes it read hold a request for an endpoint in time, and otherwise with 400, 500 or 200 by those bytes, without having been given any |
| `ServerAnswers.RequestsAreAnswered` | server/src/opti/opti_instance.c:2362-2400 | and of the n connections at some point of a run all are gone, and have sent their one response as said, 4452 + 159 n turns and round ends later, under any schedule |
| `ServerTasks.Pool.Step` | server/src/http/http_connection.c:490-541 | the connection object under a handle does its own turn; its session makes the specified step and no other changes |
| `ServerTasks.Server.TcpTask` | server/src/tcp/tcp_server.c:153-180 | the TCP task of the server object is the specified turn |
| `ServerTasks.Server.HttpTask` | server/src/http/http_server.c:159-201 | the HTTP task of the server object is the specified turn |
| `ServerTasks.Server.OptiTask` | server/src/opti/opti_server.c:245-283 | the Opti task of the server object is the specified turn |
| `ServerTasks.Server.ConnTask` | server/src/http/http_connection.c:490-541 | the connection task, with its two callbacks, is the specified turn |
| `ServerTasks.Server.InstTask` | server/src/opti/opti_instance.c:2362-2400 | the instance task is the specified turn |
| `ServerTasks.Server.EndRound` | server/src/main.c:36-44 | the end of a round of the object is that of the pipeline |
| `ServerTasks.Server.Do` | server/src/opti/opti_instance.c:2226-2297 | in every reachable state each enabled task of the object may be stepped, and leads where the pipeline goes |
| `ServerTasks.Server.Execute` | server/src/main.c:36-44 | every run of the object, from any reachable state and under any schedule, is the run of the pipeline |
| `ServerTasks.Serve` | server/src/main.c:36-44 | a server object made anew runs through one part of a schedule and then through the rest, and ends where the pipeline does |
| `ServerTasks.TasksAreSafe` | server/src/opti/opti_instance.c:2275-2297 | in every reachable state the tasks may be stepped: what they rely on holds |
| `SpotTable.TableIsSurvivors` | optimizer/src/sqlite_helpers.c:464-515 | after any history of inserts a row is there if and only if some insert wrote it, no later one wrote its key, and neither that prune nor a later one reached it |
| `SpotTable.SurvivorIsLastWritten` | optimizer/src/sqlite_helpers.c:469-477 | such a row is the last one its insert wrote under the key |
| `SpotTable.WrittenIsLast` | optimizer/src/sqlite_helpers.c:469-505 | and has the end and the amount of the last price that the insert gives for that start |
| `SpotTable.SelectIff` | optimizer/src/sqlite_helpers.c:516-583 | a range read is the one list, strictly increasing in time, that holds exactly the rows of the half-open range |
| `SpotTable.RangeReadIsHistory` | optimizer/src/sqlite_helpers.c:516-583 | so a range read gives exactly the surviving last-written rows of the history |
| `SpotTable.RecentRowsStay` | optimizer/src/sqlite_helpers.c:782-815 | a row of the last 30 days stays as it is until its key is written again, whatever is inserted |
| `SpotTable.OldRowsAreGone` | optimizer/src/sqlite_helpers.c:782-815 | no row is left that is more than 30 days older than the last insert |
| `SpotTable.HistoryIsRead` | optimizer/src/consumption_analysis.c:640-645 | what the estimate reads of the days 7 and 14 days before tomorrow has survived every insert |
| `SpotTable.FetchesIff` | optimizer/src/electricity_cache_handler.c:72-156 | an update goes to the price service if and only if no earlier insert has written a row into its window, whatever was pruned in between |
| `SpotTable.FetchedRowsAreRead` | optimizer/src/electricity_cache_handler.c:140-152 | whatever other threads insert while an update runs, its final read holds every row of the window that it fetched, as the update or a later insert wrote it last |
| `SpotTable.TomorrowIsRead` | optimizer/src/electricity_cache_handler.c:82-101 | from 13 o'clock on a price that the update fetched for the 24 hours from an hour before tomorrow on is among those it ends with, unless its start is written anew |
| `ElectricityCache.Handler.ReadSpots` | optimizer/src/sqlite_helpers.c:541-578 | the row loop over the doubling array holds the rows of the range |
| `ElectricityCache.Handler.InsertSpots` | optimizer/src/sqlite_helpers.c:485-512 | the row loop and the prune give the table after the insert |
| `ElectricityCache.Handler.Update` | optimizer/src/electricity_cache_handler.c:72-156 | an update asks the service exactly for an empty window, stores what it gets among what the others insert, and ends with the rows of the window |
| `ElectricityCache.UpdateAll` | optimizer/src/electricity_cache_handler.c:72-156 | any number of updates of one handler for one window within the day: the service brings prices at most once, whatever other threads insert before, between and during the updates |
| `WeatherCache.NextInv` | optimizer/src/sqlite_helpers.c:168-333 | every critical section of every thread keeps the schema and what the others hold |
| `WeatherCache.HeldIdNeverAliases` | optimizer/src/sqlite_helpers.c:221-243 | over all interleavings an id held between the two sections denotes the facility that was found, within 0.0001 of the one asked for, or none |
| `WeatherCache.LookupLeavesFacility` | optimizer/src/sqlite_helpers.c:168-219 | a lookup leaves exactly one facility at the place asked for, with the interval and the units it was given, new or not, and every other facility as it was |
| `WeatherCache.LookupMayFindIff` | optimizer/src/sqlite_helpers.c:221-243 | a lookup may find any facility within 0.0001 degrees of the place asked for that agrees in tilt, azimuth and forecast, and no other |
| `WeatherCache.LatestIsLast` | optimizer/src/sqlite_helpers.c:284-315 | of several rows for one time the last one counts |
| `WeatherCache.ForeignKeysHold` | optimizer/src/sqlite_helpers.c:93-95 | every weather row refers to a facility |
| `WeatherCache.PrunedIdStaysGone` | optimizer/src/sqlite_helpers.c:63-77 | a facility that was pruned stays gone and its id is never given to another |
| `WeatherCache.InsertIsAllOrNothing` | optimizer/src/sqlite_helpers.c:284-333 | an insert finds its facility gone and changes nothing, or leaves exactly the recent rows with its own written over them and exactly the facilities that have one |
| `WeatherCache.SpotsAreHistory` | optimizer/src/sqlite_helpers.c:485-512 | over all interleavings the spots table is what the inserts of spots, and the weather inserts that succeed and so prune it, make of it one after the other |
| `WeatherCache.RowsAreSurvivors` | optimizer/src/sqlite_helpers.c:284-333 | after any history a weather row is there if and only if it was there at first or an insert that succeeded wrote it, and no insert that succeeded since then had a cutoff above it |
| `WeatherCache.FacilitiesAreFed` | optimizer/src/sqlite_helpers.c:782-815 | and a facility that was there or was found, if and only if every insert that succeeded since has left a row of it |
| `WeatherCache.SucceedsIffPresent` | optimizer/src/sqlite_helpers.c:259-315 | an insert of weather succeeds if and only if the inserts before it have left a row of its facility each time |
| `WeatherCache.InsertIsLostIff` | optimizer/src/sqlite_helpers.c:251-333 | an insert is lost if and only if, since its lookup, an insert of another thread succeeded and left no row of its facility |
| `WeatherCache.LostIffOutdated` | optimizer/src/sqlite_helpers.c:251-333 | when nobody else writes for the facility in between: if and only if one insert that succeeds has a cutoff above every row the facility had at the lookup |
| `WeatherCache.FirstInsertIsLostIff` | optimizer/src/sqlite_helpers.c:259-315 | the first insert for a new facility is lost if and only if any other insert, of spots or for another facility, succeeds in between |
| `WeatherCache.SpotsDropNewFacility` | optimizer/src/sqlite_helpers.c:485-512 | an input that loses it, from the empty database: a lookup by one thread, then spots inserted by another |
| `WeatherCache.Database.GetOrCreate` | optimizer/src/sqlite_helpers.c:168-249 | the first section upserts the facility and returns one that is near |
| `WeatherCache.Database.InsertWeather` | optimizer/src/sqlite_helpers.c:251-333 | the second section writes all rows or rolls back, and then prunes |
| `WeatherCache.Database.PruneLocked` | optimizer/src/sqlite_helpers.c:782-815 | old spots and old weather go, then the facilities without weather |
| `Resampling.IndexInRange` | optimizer/src/consumption_analysis.c:698-700 | as long as the product fits into 32 bits the index is the quotient, lies in range, and the cut-off is never needed |
| `Resampling.ResamplingKeepsMean` | optimizer/src/consumption_analysis.c:695-703 | reading prices through a multiple of their number of slots keeps their mean |
| `PriceEstimate.SimilarityIsWeight` | optimizer/src/consumption_analysis.c:766-779 | a weight lies in (0, 1], is symmetric, and is 1 exactly for equal weather or missing samples |
| `PriceEstimate.SimilarityFalls` | optimizer/src/consumption_analysis.c:766-779 | less alike weather never weighs more |
| `PriceEstimate.WeatherScales` | optimizer/src/consumption_analysis.c:766-779 | differences add up; 10 degrees, 8 of wind, 20 of rain, 500 of radiation or 21600 seconds of sunshine each halve the weight |
| `PriceEstimate.WeighsOneIff` | optimizer/src/consumption_analysis.c:648-653 | a day of the history weighs 1 if and only if its weather or tomorrow's is unknown or has no samples, or both agree |
| `PriceEstimate.NearerWeatherPulls` | optimizer/src/consumption_analysis.c:694-706 | when a day's weather comes strictly nearer to tomorrow's, every same-weekday price moves strictly towards the day's own, without reaching it |
| `PriceEstimate.NearerWeatherGains` | optimizer/src/consumption_analysis.c:673-706 | and the day's share of the weights grows, strictly if and only if another day has prices |
| `PriceEstimate.EquallyDistantEstimate` | optimizer/src/consumption_analysis.c:673-714 | days whose weather is equally far, or on none of which it is known, count equally: each slot is 0.65 of the plain mean of what it reads of them, brought from their mean level to today's if theirs is positive, and 0.35 of today's price |
| `PriceEstimate.EstimateKeepsMeanIff` | optimizer/src/consumption_analysis.c:673-714 | for any numbers of prices: with a positive history average the estimate has today's average if and only if the prices as they are read average out to it or today's average is 0; otherwise if and only if they average out to today's |
| `PriceEstimate.WholeBlocksKeepMeanIff` | optimizer/src/consumption_analysis.c:673-714 | when each used day has a number of prices that divides today's: if and only if the history average is positive or equals today's |
| `PriceEstimate.UnevenBlocksMoveTheMean` | optimizer/src/consumption_analysis.c:695-703 | a day on which it moves: three slots today, two prices in the history |
| `PriceEstimate.SlotsTile` | optimizer/src/consumption_analysis.c:710-712 | the slots follow each other without a gap, end within the day, and fill it exactly if their number divides its seconds |
| `PriceEstimate.SumHistory` | optimizer/src/consumption_analysis.c:678-690 | the loop over the days computes the weighted averages |
| `PriceEstimate.EstimateTomorrow` | optimizer/src/consumption_analysis.c:621-723 | the loops weigh the days by their weather and lay the estimate out slot by slot; they fail exactly without prices for today or for any earlier day |
| `Consumption.HistoryDays` | optimizer/src/consumption_analysis.c:383-388 | a reading goes into day d of the history exactly if it came in the 86400 seconds of that day before today; the first day, because C division goes towards zero, has the day before it as well, but for its first second |
| `Consumption.HistoryHolds` | optimizer/src/consumption_analysis.c:379-388 | every cell of the history table is the energy of the accepted intervals in its bucket whose end lies within its day |
| `Consumption.TodayHolds` | optimizer/src/consumption_analysis.c:370-378 | every bucket of today is the energy of the accepted intervals of today in it |
| `Consumption.DaysHold` | optimizer/src/consumption_analysis.c:348-388 | so a row of the table adds up to the accepted energy within the bounds of its day, and today's total to that of today |
| `Consumption.HistoryIsOneSpan` | optimizer/src/consumption_analysis.c:348-388 | and the whole table to the accepted energy of one unbroken span that ends with today |
| `Consumption.EnergyIsConserved` | optimizer/src/consumption_analysis.c:348-388 | today's buckets add up to today's total, and the history's table to the energy of its accepted intervals |
| `Consumption.TrendIsConserved` | optimizer/src/consumption_analysis.c:390-405 | the trend's total, once for each day seen, is the energy of all accepted history intervals |
| `Consumption.TrendBucketIsConserved` | optimizer/src/consumption_analysis.c:395-405 | a bucket of the trend, once for each day seen, is what the whole history holds in that quarter of the day |
| `Consumption.DaysSeenAre` | optimizer/src/consumption_analysis.c:390-393 | the days that count are those in which an accepted interval ends |
| `Consumption.PeaksAre` | optimizer/src/consumption_analysis.c:424-429 | the peaks are the quarters that hold at least 1.35 times the 96th part of a positive total |
| `Consumption.MeterBoundsEnergy` | optimizer/src/consumption_analysis.c:357-364 | when every reading has the meter and it never falls, all accepted energy is at most last minus first value |
| `Consumption.AcceptedIff` | optimizer/src/consumption_analysis.c:353-371 | an interval counts if and only if it lasts up to 7200 seconds and the meter rose by 0 to 50, or without two meter values a power is there |
| `Consumption.SpanIsMeterStep` | optimizer/src/consumption_analysis.c:357-364 | with a meter that never falls and steps of at most 50, a span of time holds the meter's last value in it less the last one before it |
| `Consumption.SpanIsWattSeconds` | optimizer/src/consumption_analysis.c:365-369 | without a meter, at a constant draw, a span holds its watts times its seconds divided by 3 600 000; the average power goes before the momentary one |
| `Consumption.ProfileHasFewPeaks` | optimizer/src/consumption_analysis.c:424-429 | unless a reading carries a negative power, a profile has at most 71 peaks |
| `Consumption.Profile.AddInterval` | optimizer/src/consumption_analysis.c:348-388 | one interval is added to the arrays as specified |
| `Consumption.Profile.MakeTrend` | optimizer/src/consumption_analysis.c:395-405 | the nested loops compute the trend and its total |
| `Consumption.Profile.FindExtremes` | optimizer/src/consumption_analysis.c:407-421 | peak and low of both curves are the leftmost extremes |
| `Consumption.Profile.Accumulate` | optimizer/src/consumption_analysis.c:337-432 | the whole profile: totals, days, trend, extremes, peaks, and when it fails |
| `LoadWindow.SpotAtIsQuotient` | optimizer/src/consumption_analysis.c:1022-1039 | the branch for hourly prices reads what the general rule would, and the cut-off is never needed |
| `LoadWindow.CurveKeepsAverage` | optimizer/src/consumption_analysis.c:1022-1039 | when the number of prices divides 96 the sampled day has their average |
| `LoadWindow.DayCostBounds` | optimizer/src/consumption_analysis.c:781-788 | with no negative energy the cost of a day lies between all its energy at the cheapest of its prices and all of it at the dearest |
| `LoadWindow.OneBucketCost` | optimizer/src/consumption_analysis.c:781-788 | energy used in one quarter only costs its price there |
| `LoadWindow.CostsAdd` | optimizer/src/consumption_analysis.c:781-788 | what two uses cost together is what they cost one by one |
| `LoadWindow.NoPricesNoCost` | optimizer/src/consumption_analysis.c:1022-1026 | without prices nothing costs anything |
| `LoadWindow.BestPriceWindow` | optimizer/src/consumption_analysis.c:1041-1058 | the recommended window is the leftmost one with the least score |
| `LoadWindow.NextWindow` | optimizer/src/consumption_analysis.c:1041-1058 | a window one quarter later has one quarter in place of another, six quarters on, each with its price and a hundredth of its expected use |
| `LoadWindow.BestWindowTimesSixteen` | optimizer/src/consumption_analysis.c:1041-1058 | sixteen times its score is at most the whole day's |
| `LoadWindow.SpotCosts` | optimizer/src/consumption_analysis.c:781-791 | the loop computes both costs and the recommended window |
| `LoadWindow.MinMaxPriceWindows` | optimizer/src/consumption_analysis.c:1060-1096 | the stretches are the longest ones of prices within 0.0001 around the leftmost dearest and the leftmost cheapest price |
| `LoadWindow.StretchIs` | optimizer/src/consumption_analysis.c:1084-1095 | all prices of a stretch are within 0.0001 of the one it is about, and its neighbours are not |
| `LoadWindow.Widen` | optimizer/src/consumption_analysis.c:1084-1095 | the two loops find the longest stretch around a price |
| `Intervals.ReportByInterval` | optimizer/src/calculations.c:127-137 | for any number of prices and any weather: a report is refused if the weather does not go with the prices, the daily one always; the hourly one asks for 24 prices and reads past the end with fewer than 96; the quarterly one is made exactly with 96 or more |
| `Intervals.RefusedIff` | optimizer/src/calculations.c:181-228 | with weather that goes with the prices or none, a report is refused exactly for no interval length, no intervals, more of them than prices, an interval length above their number, or a threshold outside 0 to 1, and reads past the end exactly if it is not refused and needs more prices than there are |
| `Intervals.IntervalsKeepMean` | optimizer/src/calculations.c:230-277 | the mean of the interval prices is the average of all prices read |
| `Intervals.SpotIsBlockMean` | optimizer/src/calculations.c:277-293 | each interval price is the mean of its own stretch of the prices |
| `Intervals.DeviationsCancel` | optimizer/src/calculations.c:294-296 | the deviations from a non-zero average add up to zero |
| `Intervals.DeviationIsPercent` | optimizer/src/calculations.c:294-296 | a price is the average times one plus its deviation in percent |
| `Intervals.ClassByDeviation` | optimizer/src/calculations.c:298-303 | the class by the deviation: above the threshold expensive and below its negative cheap, with a negative average expensive below the threshold and otherwise cheap, with none by the sign of the price |
| `Intervals.ClassIsMonotone` | optimizer/src/calculations.c:298-303 | the class never falls with the price, whatever the sign of the average |
| `Intervals.NotAllCheap` | optimizer/src/calculations.c:298-303 | with a non-negative average not every interval is cheap |
| `Intervals.NegativeAverageSplits` | optimizer/src/calculations.c:298-303 | with a negative average nothing is average and something is expensive |
| `Intervals.UsualIsPossibleIff` | optimizer/src/calculations.c:298-303 | the limits leave room for average prices, and the average itself is average, if and only if it is not negative or the threshold is 0 |
| `Intervals.FlatDayIsUsualIff` | optimizer/src/calculations.c:298-303 | a day at one price is average throughout if and only if the price is not negative or the threshold is 0; any other is expensive throughout |
| `Intervals.FewExpensive` | optimizer/src/calculations.c:298-303 | with no negative interval price, the number of expensive intervals times (1 + threshold) is below the number of intervals |
| `Intervals.ReportIsSound` | optimizer/src/calculations.c:181-307 | every report that is made: the intervals have its average as their mean and the deviations cancel, classes never fall with the price, a non-negative average leaves some interval not cheap, a negative one none average and some expensive, and prices that are not negative give the bound on expensive intervals |
| `Intervals.Report.Create` | optimizer/src/calculations.c:181-307 | the nested loops make the report; it is refused exactly for the arguments that are checked, and stops exactly where it would read past the prices |
| `MeterStore.RoundTripIff` | common/src/meter_reading_store.c:413-500 | a stored reading reads back unchanged if and only if its absent fields hold nothing |
| `MeterStore.ParsedReadingSurvives` | server/src/opti/opti_instance.c:686-855 | whatever the parser accepts is stored and read back unchanged |
| `MeterStore.GroupKeepsFirst` | server/src/opti/opti_instance.c:824-846 | of a group with a common flag only the first figure given is kept |
| `MeterStore.FigureIsRead` | server/src/opti/opti_instance.c:614-668 | a figure that is accepted, as the first of its group, is in its field when the reading is read back: the number itself, the whole part of one in range, the text up to the size of the field |
| `MeterStore.AcceptedIffPower` | server/src/opti/opti_instance.c:848-855 | a reading is accepted if and only if the momentary power is given as a number |
| `MeterStore.InsertedIsRead` | common/src/meter_reading_store.c:293-366 | a parsed reading that was stored is among the rows of every range around its time |
| `MeterStore.Store.ReadRange` | common/src/meter_reading_store.c:332-350 | the row loop over the doubling array holds the rows of the answer |

## Left out

- Sockets, files, directories, signals, the command line and the main loops: what they deliver is a parameter.
- The scheduler, the HTTP parsers, the JSON library, SQLite and the clock are not part of this model beyond the
  assumptions above.
- Failed allocation and failed task creation, and with them the error branches that only they can reach.
- The retry of a failed `tcp_server_init` and the disposal of the servers themselves: the model starts with all
  three servers running, as after a successful start.
- Endpoint bodies and the bytes of responses: an instance sets some status and some response. Bodies for 400 and
  500 are replaced by a generic one anyway.
- The `filename` side branch of the update parser, which does not change what the caller sees.
- Texts with NUL bytes, which no editable file has; `size_t` overflow of the growing buffer.
- Integer overflow of `bucket * price_count` in `spot_at_bucket`, which needs more than 22 million prices; the
  unsigned product of the estimate is modelled modulo 2^32.
- Failed spot inserts, whose error path has no rollback; inserts of spots are modelled as succeeding.
- Reading weather rows back, and the aggregation of weather into daily summaries.
- Solar gains and their deviations, which have no zero sum: the panel size scales the gain but not its average.
- Narrowing to `float`, infinities and NaN; a report with average zero has no deviations here.
- JSON and text reports, the outbound API clients, the routing table, stub endpoints, facility configuration
  loading and daemonising: they would add only easy members.
- Conversion of JSON numbers outside the range of the field, which C leaves undefined; here they wrap.
- What the C code reads behind the end of its prices, which is undefined: `Intervals.Report.Create` stops there.
- Ties in `ORDER BY received_at`: the answer of the database may be any order of rows with equal times.
- MeterStore.Store.ReadRange: takes the rows as the database answers them and does not sort them itself.
