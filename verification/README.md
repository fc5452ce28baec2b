# The scraping gateway and its workers, modelled in Dafny

A gateway accepts scraping requests and calls workers over RabbitMQ; a worker fetches the script through
a cache on disk, runs it in a child process and replies with what it printed. This project states what that
machinery guarantees and proves it, for every run.

`dafny verify dfyconfig.toml` checks everything.

## How it is laid out

**The RPC protocol.** `RpcModel` is one step system: the calls of the gateway and its `futures` map, the
durable task queue, any number of workers with channels, handlers and active processes, our reply queue and
the replies to others. An event is one piece of a program from one `await` to the next, one broker action, or
one failure (lost reply, lost channel with requeue, crashed worker, publish that raises with or without having
published, cancellation). Timers may fire at any moment while a call waits. Broker steps follow the basic class
of AMQP 0-9-1 (qos, deliver, ack, reject). `RpcInvariants`, `RpcConservation`, `RpcReplies`, `RpcRuns`,
`RpcCalls` and `RpcCapacity` each hold invariants with the lemma that every event keeps them; `RpcTheorems` draws the
conclusions about reachable states, and `RpcRefusals` says for every configuration whether a worker can be found
busy. `RpcGateway` and `RpcWorker` are the classes, updated in place, proved against the same steps; `RpcMessages`
is a request as the fields a worker finds in it, `RpcWire` the JSON texts that carry requests and responses. Assumed:
correlation ids are fresh (a call starts under an id no message has, and nobody else publishes under the id of one
of our calls), and only workers write to a gateway's reply queue.

**The script cache.** `ScriptCache` says what an entry is: a directory of files with a real JSON `.cache_info` as
commit marker. `ScriptCacheRuns` holds refinement and crash safety, `ScriptCacheLifetimes` how long entries live and
what cleanup may do, `CacheRules` each operation rule by rule. `CacheManagers` is the class that changes the disk,
only ever by one of the single changes of `CacheWalks` (a directory made or removed, a file opened, a character
written), and records each disk it leaves; its methods walk from the old disk to the new one by such changes, and
every disk on the walk of a download is a crash point of the theorem. The repository is a fixed map from name and
version to a directory, the hash an injective function, time a parameter of each operation. `CacheListings` says
what the listing shows.

**Processes and deadlines.** `Processes` is the kill ladder on a clock, `Deadline` the 30 seconds of slack, stated of
the moments at which the worker class sends its replies.

**Text and order.** `Json`, `JsonNesting`, `JsonLocality`, `JsonText` and `JsonValues` are a JSON reader and the
indenting writer, with the facts the rest needs: loading undoes dumping, an object cut short is never JSON, text
before a final object line is never JSON. `JsonForms` goes through the grammar form by form. `ScriptOutput` reads a
finished script. `Timestamps` is the ISO form of a time and the calendar, `Versions` and `VersionOrders` the version
lists, `Sorting` the stable descending sort, `Strings` strip, split and lexicographic order. `Connections`,
`Backoff` and `Filenames` are the WebSocket connection table, the retry loop and the file name cleaner.

## Where the code does less than one might expect

These are theorems here, not remarks:

- a publish that raises leaves its future registered, and so does a call cancelled from outside
  (`RpcTheorems.FailedPublishLeaks` and `RpcTheorems.CancelledCallLeaks` reach such states; `RpcCalls.EmptyWhenIdle`
  says exactly when the map is empty all the same);
- a worker can be found at capacity at a handler entry exactly if prefetch times the channels it has had exceeds its
  capacity (`RpcRefusals.BusyExactly`), so as configured from the first lost channel on; the call then returns the
  refusal although its script runs on (`RpcTheorems.RefusalReached`);
- a run that completed is answered as failed if publishing its completion event raises
  (`RpcWorker.RabbitMQWorker.HandleTask`);
- a cached entry whose script file was deleted is still a hit (`ScriptCacheLifetimes.DeletionGoesUnnoticed`), and so is
  one whose `metadata.json` was edited to name another script, which the hit then returns
  (`ScriptCacheLifetimes.RenamedHitIsWrong`); with the marker as written, a valid entry goes wrong in these two ways and
  by metadata that no longer parses, and in no other (`ScriptCacheLifetimes.HitAgreesExactly`);
- the S3 list is not in version order in general, although its comment says so
  (`VersionOrders.S3AgreesExactly`, `VersionOrders.S3LatestExact`, `VersionOrders.TenAfterNine`);
- a WebSocket connection that reconnects under its id during a broadcast can be dropped for the failure of its old
  socket (`Connections.ReconnectDropped`);
- a file name can be over the limit, or change when sanitized twice (`Filenames.LengthExact`,
  `Filenames.IdempotentExact`, and names for both in `Filenames.PromisesFail`).

## Where the steps come from

Paths are those of the repository.

- `RpcModel.GatewayNext`, `RpcModel.OnResponse`: src/queue/rabbitmq_rpc.py 90-152
- `RpcModel.Begin`, `RpcModel.OnException`, `RpcModel.SendRaised`, `RpcModel.ReplyWith`:
  src/queue/rabbitmq_rpc.py 208-240; `RpcModel.Answer`: src/worker/worker_main.py 171-187
- `RpcModel.IsBusy`: src/worker/script_executor.py 307-315; `RpcModel.LoseChannel`: src/queue/rabbitmq_rpc.py 275-285
- `RpcMessages.Encode`, `RpcMessages.Decode`, `RpcMessages.ReplyId`: src/queue/rabbitmq_rpc.py 116-123 and 213-236,
  src/models/base.py 16-47
- `RpcWire.RequestValue`, `RpcWire.ResponseValue`, `RpcWire.ReadResponse`: src/queue/rabbitmq_rpc.py 116-126, 247-259 and
  98-99; `RpcWire.TaskOf`: src/models/base.py 19-38
- `ScriptCache.ValidFiles`: src/scripts/cache_manager.py 122-159; `ScriptCache.GetScript`, `ScriptCache.Store`: 49-120;
  `ScriptCache.InfoValue`: 170-184; `ScriptCache.Survives`: 213-233; `ScriptCache.Invalidates`: 289-300
- `ScriptCache.ParseMetadata`: src/scripts/metadata.py 58-116; `ScriptCache.SampleMetadata`: src/scripts/metadata.py 167-208
- `ScriptOutput.ParseScriptOutput`, `ScriptOutput.ErrorMessage`, `ScriptOutput.BuildResponse`:
  src/worker/script_executor.py 83-157 and 199-280
- `Processes.Elapsed`, `Processes.Signals`: src/worker/process_manager.py 104-132 and 215-229

## Model

| member | source | states |
|---|---|---|
| RpcTheorems.ReturnedIsOwn | src/queue/rabbitmq_rpc.py:90-152 | in every reachable state, a call that returned got a response that a worker published as reply to the message of that very call, under the call's own request id; no continuation of the run changes that outcome |
| RpcTheorems.CompletedIsRun | src/worker/worker_main.py:171-179 | in every reachable state, a call that returned a completed response got what a run of the script printed (in the sense of `ScriptOutput.Reports`), which ended with exit code 0 and was started for a delivery of the message of that very call |
| RpcRuns.StepWorking | src/worker/script_executor.py:94-157 | every event keeps: each completed response, published or about to be, is the response to a recorded run with exit code 0 for the same message |
| RpcCalls.ReplyIsReturned | src/queue/rabbitmq_rpc.py:94-147 | a reply that arrives while its call waits is what the call returns, whatever its status: the call ends as returned with exactly it, its key leaves `futures`, and no other call changes |
| RpcCalls.SilenceTimesOut | src/queue/rabbitmq_rpc.py:142-149 | a waiting call whose timer fires ends as a timeout, with its key removed |
| RpcCalls.UnreadableReplyRaises | src/queue/rabbitmq_rpc.py:101-104 | one whose reply cannot be read ends with an error, with its key removed |
| RpcCalls.AbortedTakesNoReply | src/queue/rabbitmq_rpc.py:94-97 | one cancelled while it waits keeps its key; a reply that comes later removes the key and changes nothing else |
| RpcTheorems.RunIsReturned | src/queue/rabbitmq_rpc.py:111-264 | from the empty system on, for every way a run can end, a state is reachable in which the call has returned the response to that run of its own message |
| RpcCalls.FinishedOnce | src/queue/rabbitmq_rpc.py:140-152 | over any run a settled future and a finished call (result, timeout, error) stay what they are: each call ends at most once |
| RpcCalls.ReturnsOwnReply | src/queue/rabbitmq_rpc.py:94-100 | the invariants imply that a returned response answers the request with the call's own correlation id and request id |
| RpcCalls.LateReplyIgnored | src/queue/rabbitmq_rpc.py:94-96 | a late or duplicate reply leaves the whole gateway state of a returned, timed-out or failed call unchanged |
| RpcCalls.StepExact | src/queue/rabbitmq_rpc.py:111-152 | every event keeps: the keys of `futures` are exactly the calls no reply has reached and no `except` clause has removed |
| RpcCalls.FuturesAreUnfinished | src/queue/rabbitmq_rpc.py:113 | a registered future belongs to an unfinished call, or to one whose publish raised or that was cancelled from outside |
| RpcCalls.EmptyWhenIdle | src/queue/rabbitmq_rpc.py:133-152 | with no call outstanding, the map is empty if and only if every call whose publish raised, or that was cancelled, has been answered anyway (publishing sits outside the `try`) |
| RpcTheorems.FailedPublishLeaks | src/queue/rabbitmq_rpc.py:113-136 | a reachable state with nothing outstanding and a future still registered |
| RpcTheorems.CancelledCallLeaks | src/queue/rabbitmq_rpc.py:113-149 | the same after a cancellation from outside |
| RpcTheorems.FuturesDrain | src/queue/rabbitmq_rpc.py:111-152 | in runs where publishing succeeds and nothing is cancelled, only unfinished calls have futures, and the map is empty whenever no call is outstanding |
| RpcCalls.StepMessages | src/queue/rabbitmq_rpc.py:125-136 | a message under the id of one of our calls carries that call's encoded request, and no call has two of them, whatever others publish |
| RpcCalls.StepReplies | src/queue/rabbitmq_rpc.py:256-264 | every reply in our queue was published by a worker for the message it answers |
| RpcCalls.StepResults | src/queue/rabbitmq_rpc.py:98-100 | the result of a future is a reply that arrived under that call's correlation id |
| RpcTheorems.RequestsConserved | src/queue/rabbitmq_rpc.py:208-264 | in every reachable state each published request has exactly one place (queued, unacknowledged, acknowledged, rejected), and an acknowledged one that wanted a reply had got one before |
| RpcConservation.StepConserves | src/queue/rabbitmq_rpc.py:210-240 | every event, redelivery and crash included, keeps the count of places of each request at one |
| RpcConservation.OnePlace | src/queue/rabbitmq_rpc.py:186-206 | the count of one means: queued once, or under one delivery of one worker, or settled once with one verdict, and never two of these |
| RpcReplies.StepAnswering | src/queue/rabbitmq_rpc.py:210-240 | every event keeps the order of replies and settlements right, whatever sends raise and whenever channels close |
| RpcReplies.SettledMeans | src/queue/rabbitmq_rpc.py:224-240 | an addressed request is acknowledged only after a reply to it; it is rejected without one exactly when its body has no usable request id; an unaddressed one is always acknowledged |
| RpcReplies.NeverReplied | src/queue/rabbitmq_rpc.py:213-240 | a body that is not a JSON object, or whose request id is not a string, is never replied to (building the error reply raises) |
| RpcWire.RequestRoundTrip | src/queue/rabbitmq_rpc.py:116-129 | from text to text: a worker that loads what the gateway dumped, in ASCII with surrogate pairs, has exactly that request in hand, creation time included |
| RpcWire.NameAlone | src/models/base.py:19-38 | a body that names a script only asks for its latest version, without parameters, for 300 seconds |
| RpcMessages.AbsentFilled | src/queue/rabbitmq_rpc.py:213-217 | a request without id or time gets a fresh id and the present time; its error replies name "unknown" |
| RpcWire.DecimalDenotes | src/worker/script_executor.py:282 | the decimal text of an exit code denotes it |
| RpcWire.ResponseRoundTrip | src/queue/rabbitmq_rpc.py:247-264 | the gateway reads exactly the response that the worker dumped |
| RpcWire.ResponseShows | src/queue/rabbitmq_rpc.py:247-254 | the text has the request id, and the status as completed or failed, under their names |
| RpcWire.QuotedIsAscii | src/queue/rabbitmq_rpc.py:126 | quoted texts are printable ASCII, whatever they quote |
| RpcWire.ResultArrives | src/queue/rabbitmq_rpc.py:98-100 | every response a script run leads to can be sent, and arrives as it was built |
| RpcWire.UnquoteAscii | src/queue/rabbitmq_rpc.py:126 | reading an ASCII-escaped string gives the string back, whatever characters it has |
| RpcWorker.DroppedExactly | src/queue/rabbitmq_rpc.py:213-240 | a caller who gave an address gets no reply attempted at all, and its request is rejected, exactly if the body is no JSON object or its request id is no string, whatever the load and whatever sends raise |
| RpcMessages.AcceptedHasId | src/queue/rabbitmq_rpc.py:213-217 | a request that parses can always be answered, under the id it carries |
| RpcInvariants.StepInPlace | src/queue/rabbitmq_rpc.py:193-210 | every event keeps: the handlers on a worker's current channel are exactly its unacknowledged deliveries |
| RpcCapacity.StepBounded | src/queue/rabbitmq_rpc.py:186 | every event keeps: unacknowledged deliveries within prefetch, and every active process owned by a running handler |
| RpcCapacity.ActiveBound | src/worker/process_manager.py:96-141 | active processes never exceed running handlers, and these never exceed prefetch plus the handlers of lost channels |
| RpcCapacity.RoomAtEntry | src/worker/worker_main.py:159-160 | at the entry of a handler the active processes are fewer than prefetch plus the handlers of lost channels |
| RpcCapacity.NeverRefused | src/worker/worker_main.py:159-172 | as long as prefetch and the handlers of lost channels together fit into `max_concurrent_tasks`, `is_busy` is false at every handler entry and a request that parses is executed |
| RpcCapacity.BusyNeedsLosses | src/worker/worker_main.py:159-160 | a busy handler entry means that prefetch times the number of channels so far exceeds `max_concurrent_tasks` |
| RpcRefusals.BusyExactly | src/worker/worker_main.py:159-166 | for every prefetch P, capacity M and number L of lost channels: a busy handler entry is reachable if and only if P * (L + 1) > M |
| RpcRefusals.AsConfigured | src/queue/rabbitmq_rpc.py:186 | as configured, prefetch 1 and one task: reachable from the first lost channel on and never before |
| RpcTheorems.ProcessesBounded | src/worker/script_executor.py:307-315 | in every reachable state, a worker on its first channel has no more processes than handlers that run a script, and no more of those than its prefetch |
| RpcTheorems.CapacitySuffices | src/worker/worker_main.py:159-172 | such a worker has room for one more process whenever a handler starts, and executes every request that parses if its prefetch is within `max_concurrent_tasks` |
| RpcTheorems.RefusalReached | src/worker/worker_main.py:160-166 | the refusal is reachable after a channel loss even with prefetch 1 and one concurrent task: the redelivered request is refused and the call returns the refusal while its own script still runs |
| RpcTheorems.SilentUntilSubscribed | src/queue/rabbitmq_rpc.py:275-285 | `reconnect` does not subscribe: after it nothing is delivered to the worker until something consumes again |
| RpcTheorems.LostIsSilent | src/queue/rabbitmq_rpc.py:275-285 | losing the channel is what silences a worker: until it subscribes again nothing is delivered to it |
| RpcTheorems.RunSound | src/queue/rabbitmq_rpc.py:28-264 | all invariants together hold in every state of every run |
| RpcGateway.RabbitMQRPC.StartCall | src/queue/rabbitmq_rpc.py:106-136 | registers a fresh pending future; the object's view makes exactly the start step |
| RpcGateway.RabbitMQRPC.PublishReturns | src/queue/rabbitmq_rpc.py:133-142 | a publish that returns moves the call on to waiting for its future |
| RpcGateway.RabbitMQRPC.PublishRaises | src/queue/rabbitmq_rpc.py:133-136 | a publish that raises ends the call and leaves its future registered |
| RpcGateway.RabbitMQRPC.TimerFires | src/queue/rabbitmq_rpc.py:142 | the timer cancels a pending future and touches nothing else |
| RpcGateway.RabbitMQRPC.Resume | src/queue/rabbitmq_rpc.py:140-152 | a waiting call returns the result its future holds, or ends as a timeout if it was cancelled, as an error if it holds an exception; in the last two cases its future is removed |
| RpcGateway.RabbitMQRPC.Abort | src/queue/rabbitmq_rpc.py:140-149 | cancellation from outside passes both `except` clauses: the future stays registered |
| RpcGateway.RabbitMQRPC.OnResponse | src/queue/rabbitmq_rpc.py:90-104 | pops the future of the correlation id and, only if it is still pending, sets the reply as its result, or an exception if the body is unreadable |
| RpcWorker.RabbitMQWorker.ProcessMessage | src/queue/rabbitmq_rpc.py:208-240 | replies sent and verdict are those of the handler phases, for every combination of parse errors, refusals, outcomes and failing sends, and each reply is out at the time the clock says; afterwards nothing is registered under the key of this run that was not before |
| RpcWorker.RabbitMQWorker.HandleTask | src/worker/worker_main.py:154-192 | refuses when busy, else answers with the script's outcome, or with a failure if publishing the completion event raises, even after a run that completed; how long that takes; no process of this run stays registered |
| RpcWorker.RabbitMQWorker.Execute | src/worker/script_executor.py:41-157 | completed if and only if the process ran, its output came in time and decodes, and its return code is 0; the response reports the process, its own code, output and error text, or names the timeout, the decoding error or the failed preparation; how long it takes |
| RpcWorker.ExecutedMeans | src/worker/script_executor.py:41-157 | the same of the specification the step system uses |
| RpcWorker.TaskMeans | src/worker/worker_main.py:154-187 | the answer of `_handle_task` at each of its exits: the refusal text when busy, the text of a failed completion event, else what was executed |
| RpcWorker.RabbitMQWorker.SendResponse | src/queue/rabbitmq_rpc.py:242-264 | publishes the response if the broker gets it, and reports what the publish raised |
| RpcWorker.PassIsRun | src/queue/rabbitmq_rpc.py:208-264 | what `ProcessMessage` does in one go is a run of the step system: same process run, same replies, same verdict, same order |
| RpcWorker.AfterException | src/queue/rabbitmq_rpc.py:230-240 | what the `except` clause comes to: nothing without an address, rejection without a usable id, else one error reply and rejection only if that send raises too |
| ScriptOutput.LastObjectWins | src/worker/script_executor.py:212-243 | any log text, a line break, then one single-line JSON object, indented or not: the result is exactly that object |
| ScriptOutput.BuildReports | src/worker/script_executor.py:83-157 | what a response says, told from the texts: on exit code 0 the result of the standard output, whatever standard error holds; on any other code the last line of standard error, or the code if that is blank; else the message of what was raised |
| ScriptOutput.OutputIsResult | src/worker/script_executor.py:199-243 | the result is the whole output if it is JSON, else its last JSON line, an object as it is and anything else under "result"; without any, the stripped text under "output"; nothing for blank output |
| ScriptOutput.MessageIsError | src/worker/script_executor.py:245-282 | the message is the last line of what is not blank, or names the exit code |
| ScriptOutput.LastJsonLineFinds | src/worker/script_executor.py:228-241 | the bottom-up search returns the last line that is JSON and fails only when no line is |
| ScriptOutput.BlankIsNotJson | src/worker/script_executor.py:232 | blank lines are never JSON, so skipping them changes nothing |
| JsonNesting.TextBeforeObjectFails | src/worker/script_executor.py:217 | non-blank text before a last line that is a whole object: the whole output is not JSON |
| ScriptOutput.ExtractErrorMessage | src/worker/script_executor.py:256-280 | the traceback-scanning loop computes the simple form: last line of the stripped text, or the exit-code message |
| ScriptOutput.ErrorMessageIsLastLine | src/worker/script_executor.py:270-278 | on non-blank stderr the message is a non-empty stripped piece of the text, on one line, with only blanks after it and only blanks between it and the line break before it |
| ScriptOutput.ResponseShape | src/worker/script_executor.py:83-157 | every exit of `execute_scraping_request` carries the request id; completed exactly on exit code 0, then with an object and no error |
| ScriptCacheRuns.RunAgrees | src/scripts/cache_manager.py:49-159 | refinement: in every interleaving of gets (split at their download), forced gets, cut-off gets, invalidation, cleanup, clock ticks and edits of script files, every get returns the script a direct download gives, or fails because there is none |
| ScriptCacheRuns.FreshCacheAgrees | src/scripts/cache_manager.py:49-159 | the same from an empty cache on |
| ScriptCacheRuns.HitAgrees | src/scripts/cache_manager.py:144-155 | a hit returns the committed directory unaltered: an altered script fails the hash check |
| ScriptCacheRuns.MissAgrees | src/scripts/cache_manager.py:82-116 | a completed miss returns the direct download and leaves a good entry, whatever was there before |
| ScriptCacheRuns.CutNeverHits | src/scripts/cache_manager.py:82-106 | crash safety: a miss cut off after any step, in the middle of any file, leaves an entry that is not valid at any later time |
| ScriptCache.InfoTruncated | src/scripts/cache_manager.py:186-187 | a `.cache_info` cut off anywhere while being written is not JSON |
| ScriptCache.InfoReads | src/scripts/cache_manager.py:170-187 | a complete `.cache_info` reads back with the time, entry point and hash that were written |
| ScriptCache.SampleReads | src/scripts/cache_manager.py:189-195 | default metadata always parses, with the requested name and version, and names main.py |
| ScriptCacheRuns.CommittedReads | src/scripts/cache_manager.py:161-187 | the marker of a committed directory says when, which entry point and which hash |
| ScriptCacheLifetimes.HitAgreesExactly | src/scripts/cache_manager.py:75-80 | for an entry that keeps its marker while every other file is edited at will: a valid entry gives the downloaded script if and only if its metadata still parses and names the downloaded entry point, and the script file is there if the download had it |
| ScriptCacheLifetimes.StoredIsMarked | src/scripts/cache_manager.py:161-187 | what a successful miss stores is such an entry |
| ScriptCacheLifetimes.RenamedHitIsWrong | src/scripts/cache_manager.py:73-80 | editing `metadata.json` to name another script leaves a valid entry valid, and the hit returns that other script |
| ScriptCacheLifetimes.NamingReads | src/scripts/metadata.py:58-116 | for every name there is such a metadata text |
| ScriptCacheLifetimes.DeletionGoesUnnoticed | src/scripts/cache_manager.py:148 | deleting the script file of a valid entry leaves it valid |
| ScriptCacheLifetimes.MissThenHits | src/scripts/cache_manager.py:74-116 | after a get that downloaded, every later get of that key up to its storing time plus maximum age hits the same files, across all operations that spare the entry |
| ScriptCacheLifetimes.StoredThenHit | src/scripts/cache_manager.py:137-155 | once stored, every get of the key up to `cached_at` plus maximum age is a hit that downloads nothing, across all other operations that spare that entry |
| ScriptCacheLifetimes.MissStores | src/scripts/cache_manager.py:161-187 | a successful miss stores an entry that is valid from its time until it expires |
| ScriptCacheLifetimes.ExpiresOnCalendar | src/scripts/cache_manager.py:136-141 | an entry has expired if and only if the calendar is past the time `maxAge` hours after it was stored |
| ScriptCacheLifetimes.ValidForOneDay | src/scripts/cache_manager.py:136-141 | with a maximum age of 24 a stored entry is valid up to and including the same time on the next day and no longer, over ends of months and years |
| ScriptCacheLifetimes.KeptOnCalendar | src/scripts/cache_manager.py:204-227 | cleanup keeps a readable entry if and only if the calendar is not past the time that many hours after it was stored |
| ScriptCacheLifetimes.CleanupTransparent | src/scripts/cache_manager.py:197-236 | two chronological runs that differ only in cleanups keeping at least the maximum age have the same outcome for every operation |
| ScriptCacheLifetimes.CleanupEntry | src/scripts/cache_manager.py:204-233 | such a cleanup removes only entries that no get can hit any more |
| ScriptCacheLifetimes.CleanupSurvivors | src/scripts/cache_manager.py:204-233 | no marker: removed; unreadable marker: kept; otherwise kept exactly if the age is at most the limit; kept entries are untouched |
| ScriptCacheLifetimes.ForcedNeverHits | src/scripts/downloader.py:86-91 | a forced get never returns a cached entry, with or without a version |
| ScriptCacheLifetimes.HitsExactly | src/scripts/cache_manager.py:73-116 | a get hits exactly when the entry is valid and its metadata parses, and then changes nothing; other keys are never touched |
| CacheRules.DownloadsExactly | src/scripts/cache_manager.py:72-106 | a get downloads if and only if the directory, its metadata or a readable marker is missing, the entry is past its age on the calendar, or its script is there with another hash; otherwise it gives what is there |
| CacheRules.KeyRequested | src/scripts/cache_manager.py:64-68 | which version is meant: the one given unless it is empty, else the latest; without any the get fails and changes nothing |
| CacheRules.DownloadsLand | src/scripts/cache_manager.py:86-96 | a directory replaces what was there; a single file is added and leaves the other files as they were |
| CacheRules.InvalidationRemoves | src/scripts/cache_manager.py:281-300 | one version, or all versions of the name when none or an empty one is given, and nothing else |
| CacheRules.MetadataHas | src/scripts/metadata.py:74-108 | metadata that can be read has the four required members and gives them back; the defaults are main.py, 300 and no dependencies |
| CacheRules.MetadataSuffices | src/scripts/metadata.py:74-108 | an object with these four, readable dates and a string as entry point is read |
| CacheRules.DatesRead | src/scripts/metadata.py:84-89 | dates may leave out the time, its minutes or its seconds, and may have an offset |
| CacheRules.NoDate | src/scripts/metadata.py:84-89 | what does not begin like a date is none |
| CacheManagers.CacheManager.Do | src/scripts/cache_manager.py:82-106 | the one place where the disk changes: a single change, with the disk before it recorded |
| CacheManagers.CacheManager.WriteFile | src/scripts/cache_manager.py:186-187 | opens, then writes character by character; every disk on the way has the file in part |
| CacheManagers.CacheManager.CopyTree | src/scripts/cache_manager.py:96 | a new directory, then file after file; every disk on the way has part of the copy |
| CacheManagers.CacheManager.GetScript | src/scripts/cache_manager.py:49-120 | disk and result are those of the specification; the recorded disks are a walk of single changes from the old disk to the new one, and in a directory download each of them is a crash point |
| CacheManagers.CacheManager.Install | src/scripts/cache_manager.py:82-116 | the same for the part after the download, started on any disk; a failure ends on a crash point too |
| CacheWalks.InstalledIsCut | src/scripts/cache_manager.py:99-103 | the complete directory with default metadata, not yet committed, is one of the crash points |
| CacheManagers.CacheManager.IsCacheValid | src/scripts/cache_manager.py:122-159 | the early-return checks compute the validity predicate |
| CacheManagers.CacheManager.SaveCacheInfo | src/scripts/cache_manager.py:161-187 | writes the marker for what is on disk, character by character |
| CacheManagers.CacheManager.CopyIn | src/scripts/cache_manager.py:86-96 | directories replace what was there, single files are added to it |
| CacheManagers.CacheManager.CleanupOldCache | src/scripts/cache_manager.py:197-236 | the nested loops leave exactly the readable recent entries and the unreadable ones; the count is the number removed |
| CacheManagers.CacheManager.InvalidateCache | src/scripts/cache_manager.py:281-300 | removes the given version, or all versions of the name when none is given |
| CacheManagers.CacheManager.GetCachedScripts | src/scripts/cache_manager.py:238-279 | lists every readable entry once with the size of its files, in descending order of `cached_at`; the sort raises exactly if two of these cannot be compared |
| CacheManagers.CacheManager.DirectorySize | src/scripts/cache_manager.py:259-263 | the bytes of all files of an entry, in whatever order they are added up |
| CacheListings.ListingShowsEntries | src/scripts/cache_manager.py:238-279 | on every disk the cache can reach the listing does not raise and has exactly one line for each committed entry and no other: the key's own name and version, the stored time, the bytes of its files, the repository type and the metadata of its marker |
| CacheListings.StoredIsListed | src/scripts/cache_manager.py:265-272 | what a successful miss stores has such a line at once |
| CacheListings.GoodListed | src/scripts/cache_manager.py:253-275 | an entry has a line if and only if its marker is complete |
| CacheListings.SortsOrRaises | src/scripts/cache_manager.py:278 | integers are compared by value; a string beside anything else, or a null beside anything, makes the sort raise |
| CacheListings.Bytes | src/scripts/cache_manager.py:260 | one byte for an ASCII character, two up to U+07FF, three up to U+FFFF, else four |
| CacheListings.SizeAdds | src/scripts/cache_manager.py:259-263 | the size of an entry is the sum over its files, each counted once |
| CacheListings.ListingIsChronological | src/scripts/cache_manager.py:278 | on every disk the cache can reach, the listing never raises, loses nothing and is in descending order of time |
| CacheWalks.StoppedNeverHits | src/scripts/cache_manager.py:82-106 | stopped at any disk recorded on the way of a miss, the entry is not valid at any later time |
| CacheManagers.ScriptDownloader.GetScript | src/scripts/downloader.py:67-102 | a forced download first invalidates, then fetches |
| Timestamps.IsoOrder | src/scripts/cache_manager.py:278 | the string order of ISO times is the order of the times, microseconds printed or not |
| Timestamps.IsoOnly | src/scripts/cache_manager.py:139 | what can be parsed is what `isoformat` writes, with any separator or a zero fraction, and is the time it says |
| Timestamps.IsoExample | src/scripts/cache_manager.py:175 | the form itself, on two times |
| Timestamps.OlderThan | src/scripts/cache_manager.py:140 | more than n hours old means later on the calendar than n hours on |
| Timestamps.HoursElapsed | src/scripts/cache_manager.py:140 | each step of an hour on the calendar is 3600000000 microseconds |
| Timestamps.NextDayElapsed | src/scripts/cache_manager.py:140 | the same time on the next day is 24 hours later, over ends of months, years and leap days |
| Timestamps.SameDayElapsed | src/scripts/cache_manager.py:140 | within a day time passes as the clock says |
| Timestamps.Calendar | src/scripts/cache_manager.py:140 | lengths of months and years, leap years among them; 400 years have 146097 days |
| Timestamps.IsoRoundTrip | src/scripts/cache_manager.py:139 | printing a time and parsing it back is the identity |
| JsonText.LoadDump | src/scripts/cache_manager.py:187 | loading what `json.dump` with indent 2 wrote gives the value back |
| JsonText.LoadTruncated | src/scripts/cache_manager.py:187 | no proper prefix of a dumped object loads |
| JsonForms.NumberLoads | src/worker/script_executor.py:217 | every number of the JSON grammar, signs, fractions and exponents included, is read whole |
| JsonForms.LeadingZero | src/worker/script_executor.py:217 | digits after a leading zero are not JSON |
| JsonForms.EscapesRead | src/worker/script_executor.py:217 | what the eight short escapes stand for |
| JsonForms.EscapeAllowed | src/worker/script_executor.py:217 | these and no others may follow a backslash on their own; a bare control character may not stand in a string |
| JsonForms.WordsLoad | src/worker/script_executor.py:217 | null, true, false, and the words Python adds |
| JsonForms.QuoteKeeps | src/scripts/cache_manager.py:187 | what need not be escaped is written as it is, ASCII or not |
| JsonForms.WhiteSpace | src/scripts/cache_manager.py:187 | the white space of the two layouts that are written |
| Processes.ProcessManager.ExecuteScript | src/worker/process_manager.py:84-141 | the process's own return code and texts if they came in time and decode, else the error that says what went wrong; time taken and signals sent, and the process is no longer registered |
| Processes.ProcessManager.TerminateProcess | src/worker/process_manager.py:215-229 | SIGTERM, five seconds, and SIGKILL only if still running; nothing for a process that has exited |
| Processes.LadderMeans | src/worker/process_manager.py:104-132 | output in time that decodes: the run is the process's own return code, output and error text; in time but not decoding, or late: an error naming that. Late runs take the timeout, and if the process is not gone by then get a SIGTERM and five seconds more, and a SIGKILL after these if and only if it is still there |
| Deadline.DeadlineSlack | src/api/main.py:261-264 | the reply that `ProcessMessage` sends to a request it executes reaches the gateway before its timeout, for every behaviour of the script, if and only if waiting, preparing, the completion event, the count update, sending and the way back take less than 25 seconds together |
| Deadline.AllInTime | src/api/main.py:261-264 | the same bound suffices for every reply to an accepted request: refusals, failed preparations and second sends |
| Versions.GitListed | src/scripts/repository.py:152-176 | a permutation of the v-tagged names, descending by integer tuple; the latest is maximal, and there is none only without v-tags |
| Versions.GitAvailableVersions | src/scripts/repository.py:159-168 | the loop over the tags, then the sort |
| Versions.OddTagsStand | src/scripts/repository.py:178-184 | a tag that is not all integers stands after every version greater than 0.0.0 and before every smaller one |
| Versions.LatestIsNotOdd | src/scripts/repository.py:171-184 | so it is never the latest while there is a version above 0.0.0 |
| Versions.CandidateIsOdd | src/scripts/repository.py:181 | 2.0.0-rc1 is such a tag |
| Versions.IntForms | src/scripts/repository.py:181 | what a component may be besides digits: a sign, blanks around, single underscores between digits |
| Versions.Validated | src/scripts/metadata.py:125-146 | accepted are three integers, a name ending in .py and a positive timeout; other counts, endings and timeouts are refused |
| Versions.ValidatedOrder | src/scripts/metadata.py:127-133 | versions that `validate_metadata` accepts compare as three integers |
| VersionOrders.StringOrderExact | src/scripts/repository.py:408 | two dotted versions, leading zeros allowed, compare alike as strings and as tuples if and only if at the first different component the one a string sort puts first is the smaller number or, if only the padding differs, what follows it is |
| VersionOrders.ComponentOrder | src/scripts/repository.py:408 | which of two components a string sort puts first: with equal widths the smaller, else the shorter exactly if it is no greater than the digits of the longer above it |
| VersionOrders.PaddingOrder | src/scripts/repository.py:408 | of one number with two paddings the shorter goes first exactly if the number is zero |
| VersionOrders.S3AgreesExactly | src/scripts/repository.py:399-417 | S3 lists dotted versions in the order Git would if and only if each satisfies that condition with those listed after it |
| VersionOrders.S3LatestExact | src/scripts/repository.py:414-417 | the latest version S3 reports is the greatest as a string; it is the greatest as integers if and only if it satisfies that condition with every listed version |
| VersionOrders.S3Lists | src/scripts/repository.py:399-405 | the names taken from a listing of version directories are those versions |
| VersionOrders.SlashesDropped | src/scripts/repository.py:403-405 | any number of slashes at the end of a prefix is dropped, and a prefix with nothing else lists no version |
| VersionOrders.SameWidthsOrder | src/scripts/repository.py:408 | dotted versions with equal digit widths per component, such as 2024.01.05, compare as strings exactly as their integers do |
| VersionOrders.SameWidthsSort | src/scripts/repository.py:407-409 | a list of such versions is sorted alike as strings and as integers |
| VersionOrders.TenAfterNine | src/scripts/repository.py:407-408 | the plain sort takes 1.9.0 for newer than 1.10.0 |
| VersionOrders.S3AvailableVersions | src/scripts/repository.py:399-408 | the loop over the prefixes, then the plain sort |
| Sorting.SortsAlike | src/scripts/repository.py:408 | a stable descending sort gives the same list under two orders if and only if they agree on each element and those after it |
| Sorting.SortCorrect | src/scripts/repository.py:168 | the descending sort keeps every element, orders them, and leaves ties in place |
| Connections.AlwaysConsistent | src/api/endpoints/websocket.py:32-119 | after any operations no client set is empty and every active connection is listed under the client of its last connect |
| Connections.ClientMessageReaches | src/api/endpoints/websocket.py:89-97 | a message to a client then tries every live connection whose last connect was for it |
| Connections.ActiveIsHistory | src/api/endpoints/websocket.py:32-119 | an id is active, with the socket of its last connect, exactly if nothing dropped it since |
| Connections.ClientsAreHistory | src/api/endpoints/websocket.py:44-63 | an id is listed for a client exactly if it was connected for that client and not dropped under that client's name since |
| Connections.StaleIdRemains | src/api/endpoints/websocket.py:44-47 | an id reconnected for another client stays listed for the first |
| Connections.ReconnectDropped | src/api/endpoints/websocket.py:110-119 | a connection that comes back under its id while a broadcast waits for its old socket to fail is dropped with it, and stays listed for its client |
| Connections.BrokenDropped | src/api/endpoints/websocket.py:100-119 | of the connections tried, exactly those that failed are no longer active |
| Connections.ConnectionManager.Connect | src/api/endpoints/websocket.py:32-47 | both indexes after a connect |
| Connections.ConnectionManager.Disconnect | src/api/endpoints/websocket.py:49-63 | both indexes after a disconnect, with or without a client |
| Connections.ConnectionManager.SendPersonalMessage | src/api/endpoints/websocket.py:65-79 | tries the connection if it is active and drops it if the send fails |
| Connections.ConnectionManager.SendClientMessage | src/api/endpoints/websocket.py:81-101 | tries each listed active connection of the client once, then drops the failed ones |
| Connections.ConnectionManager.BroadcastMessage | src/api/endpoints/websocket.py:103-119 | tries each active connection once, then drops the failed ones |
| Backoff.RetryWithBackoff | src/utils/helpers.py:116-140 | at most n + 1 calls, one delay between two calls, the result of the last call; the last retryable failure is raised if and only if all calls fail retryably |
| Backoff.DelaysGrow | src/utils/helpers.py:132 | the first delay is the initial one, each next one the factor times the last, and none more than the maximum |
| Backoff.DelaysIncrease | src/utils/helpers.py:132 | delays never decrease and never exceed the maximum |
| Backoff.TotalAtMost | src/utils/helpers.py:132-134 | total sleep is at most n times the maximal delay |
| Backoff.TotalGeometric | src/utils/helpers.py:132-134 | total sleep is at most the geometric sum of the delays |
| Filenames.SanitizeFilename | src/utils/helpers.py:154-172 | the replacing loop, strip and truncation compute the specified name |
| Filenames.CleanKeeps | src/utils/helpers.py:154-161 | before truncation: outer white space is dropped and nothing else, and exactly dangerous characters and spaces become underscores |
| Filenames.TruncationKeeps | src/utils/helpers.py:164-170 | a name that is shortened keeps its extension and as much of its start as fits |
| Filenames.SanitizedSafe | src/utils/helpers.py:155-161 | no dangerous character and no space in the result |
| Filenames.CleanStripped | src/utils/helpers.py:160 | no outer white space before truncation |
| Filenames.LengthExact | src/utils/helpers.py:164-170 | the limit is kept if and only if the name is short enough anyway or its extension and dot fit |
| Filenames.IdempotentExact | src/utils/helpers.py:154-172 | for every name and limit: sanitizing twice is sanitizing once if and only if the cleaned name is short enough, or its extension fits or is all that truncation leaves, or the cut does not end on white space (and a negative limit leaves nothing, or nothing but an extension) |
| Filenames.PromisesFail | src/utils/helpers.py:164-170 | three names for which a promise fails: a tab laid bare, a name over the limit, a stem that shrinks every time |
| Filenames.IdempotentOnSpaces | src/utils/helpers.py:154-172 | so where the limit can be kept it is idempotent on names whose only white space is spaces |

## Left out

- Single-file downloads: the methods handle them, but agreement with downloading is stated for directory downloads, because a single file is added to whatever the entry held.
- Entries outside the map of names and versions: the git clone inside the cache directory, plain files, an entry point that is a directory or a path leaving the version directory, and two keys whose paths coincide.
- `rmtree` is one step, and errors while reading, copying or removing files are not modelled; nor is the removal of the temporary download.
- Repository changes: each name and version has one fixed directory; git checkout fallback, HTTP and S3 download bodies are foreign calls.
- A download that brings its own `.cache_info`, or names it as its entry point, is excluded from the run theorems.
- Metadata dates: which strings count as dates covers the ISO forms with dashes and colons and offsets like +09:00; compact forms, `Z`, whose acceptance depends on the Python version, and one-digit fields of the `strptime` fallback count as errors here.
- Timestamps.IsoRoundTrip: parsing covers the two widths `isoformat` writes for naive times; other ISO forms that `fromisoformat` accepts count as unreadable here.
- CacheManagers.CacheManager.GetCachedScripts: entries whose `cached_at` is a list or a number with a fraction or exponent are excluded; strings, integers, booleans, null and objects are not. No run of the cache makes anything but strings. File contents are UTF-8 text.
- An age limit that reaches back before year 1 makes Python's subtraction raise; here it keeps everything.
- JSON: nesting limits and limits on long integers of Python's reader are not modelled; a lone surrogate escape reads as the replacement character; numbers keep their text.
- `get_cache_stats`, heartbeats, statistics, logging, and what `task_manager` and `worker_monitor` publish: side outputs. That publishing a completion event takes time and can raise is part of the model, and so is the time of the count updates, whose errors the source swallows.
- Time in the step system: timers may fire at any moment, so no bound on waiting is stated there; `Deadline` takes the wait before the worker and the way back as given numbers.
- Liveness: that a request is eventually delivered, or a connection recovered, is library behaviour.
- A crash of the gateway itself: its calls and its exclusive reply queue go with it.
- Cancellation of a handler at worker shutdown, the `stop` wait loop and the main, heartbeat and cleanup loops of the worker; a stopping worker is a crash here.
- Replies with unreadable bodies reach the gateway only if someone else writes to its queue; `OnResponse` handles them, the step system does not produce them.
- RpcWire.RequestRoundTrip: the step system itself passes the decoded fields on, which this shows to be what the text gives. Coercions of field values of other types are not modelled; parameters and result data keep the number and string texts they were loaded with when dumped again.
- RpcWorker.RabbitMQWorker.ProcessMessage: one message at a time; handlers that run side by side are the step system's.
- Processes.ProcessManager.TerminateProcess: a signal that cannot be delivered, memory limits and the CPU warning are not modelled; the memory monitor is part of how a process behaves.
- Versions.ValidatedOrder: `int` accepts decimal digits of other scripts too; only ASCII digits, signs, blanks and underscores are modelled.
- Connections.ConnectionManager.SendClientMessage: the method is not interrupted at its awaits; Python stops such a loop with an error if the set it goes through changes size. The theorems over sequences of operations do cover interruptions: there a send is the moment at which it drops the ids that failed, whichever those are.
- Connections.ConnectionManager.BroadcastMessage: the same.
- VersionOrders.S3AgreesExactly: versions with a component that is not all ASCII digits (signs, blanks, underscores, letters) are not compared.
- Backoff.RetryWithBackoff: delays are real numbers, rounding of floats is not modelled.
- `calculate_file_hash`, `format_file_size` and the other helpers: easy loops with no state.
