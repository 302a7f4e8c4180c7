# InferLog: a verified model of the telemetry path

InferLog observes LLM calls in a host process and stores one log row per call. An
event is cut, redacted and capped by the SDK, queued and sent in batches by a
background dispatcher, published to a Redis stream by the ingestion API, and turned
into a row of `inference_logs` by workers that validate, insert, acknowledge, or park
messages in a dead-letter stream. Beside this path the repository holds a chat gateway
that streams tokens to a browser as server-sent events.

The project models the parts whose correctness rests on an argument and proves it.
`dafny verify dfyconfig.toml` checks all of it.

| files | contents |
|---|---|
| `Dispatching`, `Dispatcher` | the SDK's queue, batches, retries and shutdown: a transition system, and the `LogDispatcher` class as runs of it |
| `Bus`, `WorkerProtocol`, `Delivery`, `Progress`, `Confluence`, `Exclusion`, `Provenance` | stream, cursor, pending list, table and dead letters under any number of workers, with a fault before or after the effect of every await and a crash anywhere |
| `Ingestion` | `EventStream`, `IngestionDB`, the publish loop, `_handle` and `run` as imperative code over given outcomes of every await, proved to be runs of that protocol |
| `Regex`, `Redaction`, `RedactionOrder`, `Languages`, `Phones` | regular expressions with `\b`, a matcher whose choice of match end is free, the six default patterns, the order of their passes, and what they match |
| `Caps`, `Events` | size caps on both sides, payloads and how the server reads them, validation, the derived row |
| `Privacy` | redaction and delivery together: nothing at rest holds a match |
| `Framing`, `LineFeed`, `PyJson`, `StreamParsers`, `StreamMeaning` | splitting a growing buffer, the three stream parsers, and what they extract |
| `JsonText`, `Sse`, `Chat` | the gateway's frames, the browser's reader, and a whole chat turn between model, database and page (sections 9.2.5 and 9.2.6 of the WHATWG HTML Living Standard, section 7 of RFC 8259; only the subset the code uses) |
| `Capture`, `CallTree` | wrapped response streams, and the three capture modes together |

Three ideas carry most of the proofs. Await points become explicit steps, with the
outcomes *returned*, *raised before its effect* and *raised after its effect*, so one
invariant covers every interleaving, crash and retry. Redaction is argued from the shape all
patterns share: they begin and end at word boundaries, never match a bracket, and
must hold a character that no marker label holds; which of several possible matches
the engine takes never matters. Buffers are related to a fold over the complete lines of
everything received, so cuts disappear from the statements.

## Where code and documentation differ

The model follows the code.

- `docs/architecture.md:207` says the worker acknowledges only after a successful commit.
  It also acknowledges after parking, and an acknowledgement that raises after a committed
  insert parks the message too. `Exclusion.AckAfterCommitIff` says exactly when every
  acknowledged valid entry has its row (an insert may not raise without effect), and
  `Exclusion.ExclusiveIff` when a row and a dead letter exclude each other (neither the
  insert nor its acknowledgement may raise at all).
- `docs/architecture.md:106` says a call that is cancelled is logged like a successful one.
  On the automatic paths a request cancelled while it is sent, or while the capture reads
  its body, is not logged, because only `Exception` is caught. Neither is a stream that a
  patched client drains with `aiter_raw`, nor a `complete` call of an unregistered provider.
  `CallTree.LoggedOnceIff` says exactly which calls are logged.
- The SDK sends ids and counts as it finds them, the server demands UUIDs and integers. One
  event with a conversation id such as "conv-xyz", a request id that is no UUID, a name over
  128 characters, or a count that is no non-negative integer makes the API refuse its whole
  batch, which the dispatcher then drops. `Events.SdkBatchAdmissibleIff` gives the exact
  condition, `Delivery.RefusedBatch` the consequence and `Delivery.ConvXyzLosesBatch` a run.
- A parser whose handler raises on a line before the last complete one depends on how the
  network cut the bytes (`StreamParsers.ParserCutsMatterIff`).
- A failing `to_dlq`, or a failing acknowledgement after it, escapes `_handle`. Unless
  the acknowledgement took effect, the entry stays pending until it is reclaimed; nothing is
  lost (`Delivery.NothingLost`).
- With `max_retries` below one, collected batches vanish uncounted. Conservation holds of
  every run exactly when `max_retries >= 1` (`Dispatching.ConservedIffRetries`).
- A chat turn interrupted after its token loop has finished persists its text twice
  (`Chat.PersistsOnce` says exactly when).
- An Anthropic total goes stale when a `message_start` changes the input count after the
  last output count (`StreamParsers.AnthropicTotals`, `StreamParsers.LateInputBreaksTotal`).
- The SDK caps an error message after redacting it, which could cut a marker in two. This
  never happens with the default patterns: the message was cut to 500 characters before, and
  redaction at most multiplies a length by 16/6 (`Events.SdkTextsPass`).

## Model

| member | source | states |
|---|---|---|
| `Delivery.ExactlyOnce` | ingestion/app/worker.py:33-55 | over every run (batch retries, partial publish loops, any workers, crashes, reclaims): at most one row per request_id; once nothing is undelivered or pending, each event the dispatcher counted as delivered has exactly one row or its stamped payload is a dead letter |
| `Delivery.NothingLost` | ingestion/app/worker.py:34-55 | in every reachable state each entry is beyond the cursor, pending, or acknowledged with a row for its id or a dead letter with its payload; stream length = undelivered + pending + acknowledged |
| `Delivery.FirstWriteWins` | ingestion/app/db.py:60-75 | the table is exactly the first committed insert per request_id, and every row is `process_event` of a valid entry of the stream |
| `Provenance.RowsCarryPayloads` | ingestion/app/processing.py:39-72 | in every reachable state each row comes from another producer's entry or carries a payload a host submitted: canonical ids, counts as read, and service, provider, model, status, times, latency and the other columns as sent |
| `Provenance.DeliveredRow` | ingestion/app/worker.py:43-46 | once settled, each delivered payload whose event was not parked has a row of known origin under its canonical id, and the row carries this payload if nobody else used the id |
| `Delivery.RunGrows` | ingestion/app/db.py:60-75 | rows, dead letters, entries and acknowledgements are never changed or taken back in any run |
| `Delivery.RefusedBatch` | sdk/inferlog/dispatcher.py:251-285 | once a batch with one payload the API refuses is in flight, in every continuation none of its events, valid ones included, is published or delivered from it: it stays in flight, or is dropped or abandoned as a whole, and is never the batch of a request |
| `Delivery.ForeignIdLosesBatch` | ingestion/app/events.py:59 | for every payload the server takes and every text that is no UUID, a run puts it in one batch with a copy tagged with that conversation id; the first alone is admissible, the batch is not, and whatever follows neither is published or delivered from it |
| `Delivery.ConvXyzLosesBatch` | sdk/inferlog/auto.py:428-431 | the same for the id "conv-xyz" on payloads the SDK does send |
| `Exclusion.UntroubledExcludes` | ingestion/app/worker.py:43-55 | in every run in which no insert and no acknowledgement of an insert raises, whatever else fails or crashes: no entry has both a row and a dead letter, acknowledged valid entries have their row, acknowledged invalid ones their letter |
| `Exclusion.RowAndDeadLetter` | ingestion/app/worker.py:46-55 | for every valid payload and each of the four ways these two awaits can raise (before or after their effect), a run with exactly that one trouble ends settled with both a row and a dead letter |
| `Exclusion.ExclusiveIff` | ingestion/app/worker.py:43-55 | for every set of allowed troubles: row and dead letter exclude each other in all runs within it iff the set is empty |
| `Exclusion.AckAfterCommitIff` | ingestion/app/worker.py:44-55 | for every set of allowed troubles: acknowledged valid entries have their row in all runs iff an insert may not raise without effect |
| `Exclusion.SettledSchedule` | ingestion/app/db.py:60-75 | a schedule without trouble that settles everything ends with the derived columns of exactly the published events, one row per id |
| `Exclusion.ConfluentSchedules` | ingestion/app/db.py:60-75 | two such schedules over the same published events end with equal tables up to received_at |
| `Delivery.StepKeeps` | ingestion/app/worker.py:33-100 | every step of SDK, API, foreign producers or a worker, with any fault, keeps the invariant of the whole system |
| `Delivery.PublishKeeps` | ingestion/app/api.py:104-109 | one turn of a publish loop, failing or not, keeps each request's published part on the stream with its stamp |
| `Delivery.DeliveredKeeps` | sdk/inferlog/dispatcher.py:255-257 | when the dispatcher sees its 202, every event of the batch is on the stream and gets one receipt, in order |
| `WorkerProtocol.ActKeeps` | ingestion/app/worker.py:34-55 | every worker action keeps the shared invariant (pending and acked partition what was delivered, acked entries are accounted for, dead letters carry the right reason, the table is the first writes) and what that worker knows of its message |
| `WorkerProtocol.LocalStable` | ingestion/app/worker.py:34-55 | what one worker knows of its current message survives all steps of the others, also when both hold it |
| `Bus.DepthSplits` | ingestion/app/stream.py:98-114 | depth = undelivered + pending + acknowledged |
| `Bus.FirstWritesMeaning` | ingestion/app/db.py:63-74 | the first writes of any offers have unique ids, cover exactly the offered ids, and hold exactly the rows offered first for their id |
| `Bus.InsertKeepsFirst` | ingestion/app/db.py:70-74 | an insert that does nothing on conflict keeps the table equal to the first writes, and the id is present afterwards |
| `Bus.OwnersMeaning` | ingestion/app/stream.py:65-85 | a read hands exactly the next n entries to the consumer, a claim exactly the given ones; all others stay with whoever had them |
| `Progress.StepDecreases` | ingestion/app/worker.py:82-100 | every worker step decreases (failure budget, undelivered, entries held by no worker, work left in batches) lexicographically; only crashes, faults and claims from live workers cost budget |
| `Progress.CanGoOn` | ingestion/app/worker.py:90-100 | until everything is settled some worker can take a clean step, claiming only when there is nothing to read and nobody holds anything |
| `Progress.CanSettle` | ingestion/app/worker.py:82-100 | from every reachable state the workers alone can reach a state where every entry is settled |
| `Progress.EveryRunStops` | ingestion/app/worker.py:82-100 | no infinite schedule of the workers exists once publishing has stopped and failures are finitely many |
| `Progress.RestIffSettled` | ingestion/app/worker.py:82-100 | in every reachable state no worker can take a step without cost iff every entry is settled and no worker holds a message |
| `Progress.EndsSettled` | ingestion/app/worker.py:82-100 | whatever failures a worker schedule met, if it ends where no worker can take a step without cost, every entry is settled |
| `Confluence.SettledTable` | ingestion/app/db.py:60-75 | a settled run without processing failures, whose entries of equal id agree up to received_at, ends with the derived columns of exactly the published events, one row per id |
| `Confluence.Confluent` | ingestion/app/db.py:60-75 | two such runs over the same published events end with equal tables up to received_at |
| `Ingestion.EventStream.Publish` | ingestion/app/stream.py:48-51 | appends one entry, or raises before or after doing so |
| `Ingestion.EventStream.Read` | ingestion/app/stream.py:65-73 | moves exactly the next entries, count of them or all there are, to the pending list of this consumer and returns them decoded |
| `Ingestion.Stale` | ingestion/app/stream.py:75-85 | the stale pending entries, oldest first, at most count; one left out is younger than count chosen ones |
| `Ingestion.EventStream.ClaimStale` | ingestion/app/stream.py:75-85 | takes these over, whoever held them, and returns them decoded |
| `Ingestion.EventStream.Ack` | ingestion/app/stream.py:87-88 | removes a pending entry and records it as acknowledged; nothing otherwise |
| `Ingestion.EventStream.ToDlq` | ingestion/app/stream.py:90-96 | appends the payload with its reason to the dead letters |
| `Ingestion.DecodeAll` | ingestion/app/stream.py:54-63 | each id with its decoded entry, in order, unparseable text included |
| `Ingestion.IngestionDB.UpsertLog` | ingestion/app/db.py:60-75 | inserts iff the request_id is absent, and returns exactly that |
| `Ingestion.Ingest` | ingestion/app/api.py:101-109 | for every outcome of every publish: it accepts iff none raises; otherwise the stream holds the events before the first that raised, and that one iff it took effect; nothing else changes |
| `Ingestion.PublishedAt` | ingestion/app/api.py:104-108 | entry j of a request decodes to event j of its batch under the request's one stamp |
| `Ingestion.HandleOne` | ingestion/app/worker.py:34-55 | for every outcome of the four awaits: rows, dead letters and pending list afterwards, and whether an exception escapes; and the turn is a run of the protocol |
| `Ingestion.Store` | ingestion/app/worker.py:43-55 | for every outcome: the event's row is added iff the insert took effect and its id was new; the message is parked iff insert or acknowledgement raised; it stays pending iff no acknowledgement took effect; an exception escapes iff parking failed |
| `Ingestion.Handle` | ingestion/app/worker.py:33-55 | the loop stops at the first message at which an exception escapes, and rows, dead letters and pending list follow from the outcomes up to there; if no await raises, every valid message has a row, new rows are made from the messages, exactly the invalid ones are parked, in order, and none is pending |
| `Ingestion.CalmHandling` | ingestion/app/worker.py:33-55 | the same without the loop: what a list of messages does to the table and the dead letters if nothing raises |
| `Ingestion.RowIsThere` | ingestion/app/worker.py:44-45 | whatever else raises, a valid message whose insert took effect has a row afterwards |
| `Ingestion.Turn` | ingestion/app/worker.py:90-100 | one read-or-reclaim turn that no exception escapes lowers the number of unsettled entries, unless none is left |
| `Ingestion.RunWorker` | ingestion/app/worker.py:82-100 | startup reclaim and read/claim rounds are a run of the protocol: the shared invariant holds and nothing stored was taken back; if no exception escapes and pending entries are stale, as many rounds as entries are unsettled settle all; if no await raises, none escapes, every valid entry so settled has its row and only invalid messages are parked |
| `Events.PublishedIsValid` | ingestion/app/api.py:105-108 | what the API publishes always passes the worker's validation, and the row carries the API's clock |
| `Events.CutTextSettled` | sdk/inferlog/auto.py:421-426 | a text cut and redacted by one engine is at most 16/6 of the cut long and a fixpoint, with count 0, of any other engine |
| `Events.SdkTextsPass` | sdk/inferlog/events.py:102-111 | no preview, error message, tag or metadata dict of an SDK event can make the server refuse it, and the error cap never cuts a redacted message |
| `Events.SdkPayloadValidIff` | ingestion/app/events.py:46-89 | the server takes an SDK payload iff its request id and conversation id are UUIDs, its names, error type and version are short, its counts are null or non-negative integers, and its durations and redaction count are non-negative |
| `Events.SdkBatchAdmissibleIff` | ingestion/app/events.py:92-93 | the API takes a batch of SDK payloads iff its size is within bounds and that holds of every one of them |
| `Events.ReceiveMeaning` | ingestion/app/events.py:46-79 | a payload is read iff some event can carry it (canonical ids, counts null or the integers read, all other columns equal), and it is read as that event |
| `Events.DumpMeaning` | ingestion/app/api.py:106 | the dump of an event says the same as the event, column by column |
| `Events.DumpReadsBack` | ingestion/app/api.py:106-108 | what the API dumps of an event it took is read back by the worker as that event, if a canonical UUID and an integer are read as themselves |
| `Events.CapsAreEnforced` | ingestion/app/events.py:28-93 | any event with one field over its cap or a negative number is refused, and with it every batch that holds it |
| `Events.SecondPassChanges` | ingestion/app/processing.py:31-37 | for any event, the second pass changes the row iff one of its three texts holds a match |
| `Events.SecondPassOnSdkEvents` | ingestion/app/processing.py:31-37 | on every SDK event the second pass changes nothing and counts nothing |
| `Events.StoredTextsClean` | ingestion/app/processing.py:31-37 | with the second pass on, no stored text holds a match, whoever sent the event |
| `Privacy.TableClean` | ingestion/app/processing.py:25-72 | in every reachable state: if every valid entry of the stream is an SDK event, no text of any row holds a match, with or without the second pass |
| `Privacy.NothingAtRest` | sdk/inferlog/auto.py:419-460 | in every run of a system fed by SDKs only, no text of any row, stream entry or dead letter holds a match of a default pattern |
| `Events.RowCarriesEvent` | ingestion/app/processing.py:39-72 | the row carries every other column unchanged and the merged dicts; a reported total is kept, a missing one is the sum iff both counts are there; texts are the event's or, under the second pass, their redactions, and the count grows by exactly the replacements |
| `Events.MergeMeaning` | ingestion/app/processing.py:69-70 | the stored metadata holds every tag, and the metadata under exactly the other keys |
| `Redaction.RunRedact` | sdk/inferlog/redaction.py:59-70 | the loop over the patterns computes `Redact`, text and count |
| `RedactionOrder.RedactInOrder` | sdk/inferlog/redaction.py:66-70 | there are seven texts from input to output, each the previous one with the leftmost, non-overlapping matches of the next pattern in list order replaced by its marker, and the count is the sum of the numbers of cuts |
| `RedactionOrder.FirstWins` | sdk/inferlog/redaction.py:21-24 | for every list of such patterns: a text the first one matches as a whole becomes exactly its marker, whatever later ones match in it |
| `RedactionOrder.EmailFirst` | sdk/inferlog/redaction.py:21-24 | so a text that is one e-mail address becomes the e-mail marker, also if its local part is a phone number |
| `Redaction.SubnSplices` | sdk/inferlog/redaction.py:68 | a pass replaces exactly leftmost, non-overlapping matches, no match starts in the copied text between them, and the count is the number of cuts |
| `Redaction.DefaultsPlain` | sdk/inferlog/redaction.py:23-32 | the six default languages never match a bracket, match something non-empty and must leave a marker's label |
| `Redaction.PassNoMatch` | sdk/inferlog/redaction.py:67-69 | a pass leaves no match of its own pattern and none of any pattern that had none before |
| `Redaction.RedactLeavesNoMatch` | sdk/inferlog/redaction.py:66-70 | for every text and every choice of match ends the output has no match of any of the six patterns |
| `Redaction.IdentityIffClean` | ingestion/app/redaction.py:27-35 | redaction is the identity with count 0 iff the text has no match |
| `Redaction.SecondPassIdle` | ingestion/app/processing.py:31-37 | the server's pass over SDK output is the identity with count 0, even with a different engine |
| `Redaction.PassWeight` | sdk/inferlog/redaction.py:67-69 | a pass rewrites no earlier marker, so the size budget (16 per input character, 6 per marker character) never grows |
| `Redaction.RedactedSize` | sdk/inferlog/redaction.py:66-70 | six passes never make a text longer than 16/6 of its length (280 characters give at most 746, below the server's 4000) |
| `Redaction.ShortestWords` | sdk/inferlog/redaction.py:23-32 | the shortest words of the six languages have 6, 19, 11, 13, 10 and 7 characters |
| `Languages.EmailLanguage` | sdk/inferlog/redaction.py:24 | the matched texts are exactly local part, at sign, host, dot and at least two letters, with the characters spelled out |
| `Languages.ApiKeyLanguage` | sdk/inferlog/redaction.py:25 | exactly sk-, pk- or rk- and at least 16 token characters |
| `Languages.SsnLanguage` | sdk/inferlog/redaction.py:26 | exactly three, two and four digits with dashes |
| `Languages.CardLanguage` | sdk/inferlog/redaction.py:27 | exactly three groups of four digits and one of one to four, each optionally separated by a blank or dash |
| `Phones.PhoneLanguage` | sdk/inferlog/redaction.py:28-30 | exactly an optional country prefix and three, three and four digits with the optional parentheses and gaps |
| `Languages.IpLanguage` | sdk/inferlog/redaction.py:31 | exactly four groups of one to three digits with dots |
| `Regex.NeverSound` | sdk/inferlog/redaction.py:23-32 | a character outside all classes of an expression occurs in no word of its language |
| `Regex.LeavesLabel` | sdk/inferlog/redaction.py:23-32 | every word of such an expression holds a character that no marker label holds |
| `Caps.RunCapDict` | sdk/inferlog/events.py:55-65 | the two loops of `_cap_dict` compute `CapDict` and terminate |
| `Caps.BuildMeaning` | sdk/inferlog/events.py:60-61 | after key stringification the last item with a key gives its capped value, and keys are distinct |
| `Caps.BuildOrder` | sdk/inferlog/events.py:60-61 | the dict keeps its keys in the order in which they first came |
| `Caps.CapValue` | sdk/inferlog/events.py:43-52 | scalars and short texts unchanged, other objects as their text, long ones cut to 255 characters and an ellipsis |
| `Caps.CapDictMeaning` | sdk/inferlog/events.py:55-65 | of the first 32 items, the longest prefix of the capped dict whose JSON fits 4096 bytes, keys in order of first occurrence, each with the capped value of its last item, texts of at most 256 characters |
| `Caps.CapDictIdempotent` | sdk/inferlog/events.py:55-65 | capping twice is capping once |
| `Caps.CappedPassesServer` | ingestion/app/events.py:35-43 | what the SDK capped passes the server's bound unchanged |
| `Caps.SizeIsPrinted` | sdk/inferlog/events.py:63 | the size compared with the cap is the length of the text printed for the dict, scalars included |
| `Caps.PrintedIsJson` | sdk/inferlog/events.py:63 | for a dict without scalars, parsing that text gives the dict back |
| `Caps.CapStr` | sdk/inferlog/events.py:35-40 | unchanged exactly when it fits; otherwise the first limit - 1 characters and an ellipsis |
| `Dispatching.Conservation` | sdk/inferlog/dispatcher.py:182-285 | with max_retries >= 1: collected batches followed by the queue are the accepted payloads in order; accepted = queued + in flight + delivered + dropped after retries + abandoned; the counts passed to on_drop sum to dropped; at most one batch abandoned, only by the close timeout; the queue stays within max_queue |
| `Dispatching.ConservedIffRetries` | sdk/inferlog/dispatcher.py:251-253 | conservation holds of every run iff max_retries >= 1 |
| `Dispatching.InvStep` | sdk/inferlog/dispatcher.py:182-285 | every step keeps order, one fate per payload, the counters and the bounds |
| `Dispatching.SubmitAccepts` | sdk/inferlog/dispatcher.py:182-196 | while not closed, a payload is queued behind the others iff max_queue <= 0 or the queue is shorter; otherwise the queue stays and exactly one drop is counted, notified and attributed to the full queue |
| `Dispatching.OnlySubmitAccepts` | sdk/inferlog/dispatcher.py:190-196 | no other step accepts a payload or counts an overflow, and only collecting shortens the queue |
| `Dispatching.LoopExit` | sdk/inferlog/dispatcher.py:228-232 | in every run the flush task ends while closing: either with an empty queue and everything accepted so far delivered or dropped after retries, or cancelled with exactly its batch abandoned and the queue left behind |
| `Dispatching.ClosedIsFinal` | sdk/inferlog/dispatcher.py:206-218 | once closed, submitting, starting a close and finishing one are possible and change nothing; no other step changes anything either, but for counting a sampled-out event |
| `Dispatching.DrainBatches` | sdk/inferlog/dispatcher.py:228-249 | without submits a queue of length q takes at most the ceiling of q / batch_size batches |
| `Dispatching.BatchesIsCeiling` | sdk/inferlog/dispatcher.py:234-249 | that number is the ceiling |
| `Dispatching.DrainSends` | sdk/inferlog/dispatcher.py:251-285 | draining costs at most max_retries sends for each batch collected |
| `Dispatching.DrainProgress` | sdk/inferlog/dispatcher.py:228-232 | while closing the task is never stuck: it can exit exactly when idle with an empty queue, else it has a step |
| `Dispatcher.SendMeaning` | sdk/inferlog/dispatcher.py:80-109 | only a 2xx answer counts as delivered; a server-chosen pause is taken over exactly from a 429 or 503 with a non-empty Retry-After: its number, or 30 seconds |
| `Dispatcher.BackoffBound` | sdk/inferlog/dispatcher.py:251-285 | without Retry-After (section 10.2.3 of RFC 9110) n sends sleep between 0.125 and 0.375 times 2^(n-1) - 1 in total |
| `Dispatcher.ChosenPauses` | sdk/inferlog/dispatcher.py:267-273 | a server that always chooses is obeyed to the letter: n sends sleep exactly the n - 1 pauses it asked for |
| `Dispatcher.RetrySteps` | sdk/inferlog/dispatcher.py:251-285 | the retry loop is a run of the transition system that settles the whole batch as delivered or dropped |
| `Dispatcher.LogDispatcher.Submit` | sdk/inferlog/dispatcher.py:182-196 | starts lazily; appends while there is room, else counts one drop; ignores when closed: exactly the Submit step |
| `Dispatcher.LogDispatcher.CollectBatch` | sdk/inferlog/dispatcher.py:234-249 | takes the queue's first batch_size events in order, at least one if there is one |
| `Dispatcher.LogDispatcher.SendWithRetry` | sdk/inferlog/dispatcher.py:251-285 | between 1 and max_retries sends, stopping at the first acceptance; the sleep is the sum of the pauses, the delay doubling on every failure also when the server chose the pause |
| `Dispatcher.LogDispatcher.RunToExit` | sdk/inferlog/dispatcher.py:228-232 | after closing, the loop drains in exactly ceiling(q / batch_size) batches, settles every queued event and exits, as a run of the system |
| `Dispatcher.LogDispatcher.AClose` | sdk/inferlog/dispatcher.py:206-218 | the first close ends the task or abandons its batch; later ones change nothing |
| `Framing.FramesAppend` | sdk/inferlog/parsers.py:163-165 | splitting what arrives later, after the residual buffer, is splitting everything at once |
| `Framing.Rejoin` | sdk/inferlog/parsers.py:164-165 | consumed lines with their delimiters, followed by the buffer, are exactly the bytes fed |
| `LineFeed.FeedConsumesLines` | sdk/inferlog/auto.py:284-297 | for every cut and whatever raises: the handled lines are the first m lines of the bytes fed, the state is their fold, and lines plus buffer equal the bytes |
| `LineFeed.ChunkIndependentIff` | sdk/inferlog/parsers.py:162-185 | for every handler, delimiter and input: all cuts into non-empty reads end as one read does iff no line before the last complete one raises |
| `LineFeed.CutsDoNotMatter` | web/src/api.ts:83-95 | a reader that stops at the first failure reaches the same state however arbitrary input is cut |
| `StreamParsers.StreamParser.Feed` | sdk/inferlog/parsers.py:162-185 | the while loop handles the complete lines in order; a line is off the buffer before its handler runs |
| `StreamParsers.ParserChunkIndependent` | sdk/inferlog/parsers.py:162-185 | if no line before the last complete one raises, text, counts, completion and buffer of all three parsers depend only on the concatenated bytes and equal a left-to-right fold over the lines |
| `StreamParsers.ParserCutsMatterIff` | sdk/inferlog/parsers.py:235-263 | and only then: otherwise some cut into non-empty reads ends differently from the same bytes in one read |
| `StreamMeaning.OpenAIStream` | sdk/inferlog/parsers.py:162-185 | for every cut of a stream that raises nothing: output is the content texts in line and choice order, completed iff some line says [DONE], and the counts are those members of the last non-empty usage |
| `StreamMeaning.AnthropicStream` | sdk/inferlog/parsers.py:235-263 | output is the texts of the text deltas in order, completed iff some line is a message_stop |
| `StreamMeaning.OllamaStream` | sdk/inferlog/parsers.py:314-335 | output is the chat contents or generated texts in order, completed iff some line is done, and each count is the last one a done line carries |
| `StreamMeaning.LastOfMeaning` | sdk/inferlog/parsers.py:181-185 | the last reported value is that of the last line that reports one |
| `StreamMeaning.StripMeaning` | sdk/inferlog/parsers.py:166-169 | stripping takes off all white space at both ends and nothing else |
| `StreamParsers.OllamaStreamTotals` | sdk/inferlog/parsers.py:328-335 | for every cut of an Ollama stream that raises nothing, the total is set iff both counts are and is their sum |
| `StreamParsers.AnthropicCounts` | sdk/inferlog/parsers.py:247-261 | input and output are the last ones reported, the total is the output plus the input known when it arrived |
| `StreamParsers.AnthropicTotals` | sdk/inferlog/parsers.py:256-261 | a set total equals the sum iff no message_start changed the input count after the last reported output, whatever values the counts are |
| `StreamParsers.AnthropicStreamTotals` | sdk/inferlog/parsers.py:235-263 | the same for every cut of an Anthropic stream that raises nothing, with the counts it ends with |
| `StreamParsers.NoLateInput` | sdk/inferlog/parsers.py:247-261 | that is so whenever no input-bearing message_start follows an output-bearing message_delta |
| `StreamParsers.LateInputBreaksTotal` | sdk/inferlog/parsers.py:247-261 | any three lines with counts 5, 3, then 10 raise nothing and leave a total of 8 although the counts add up to 13 |
| `StreamParsers.LateInputStream` | sdk/inferlog/parsers.py:247-261 | three such lines, as bytes |
| `StreamParsers.EnrichKeepsTotal` | ingestion/app/enrich.py:20-28 | the worker leaves a total that agrees with its counts unchanged and invents none where a count is missing |
| `JsonText.PrintPrintable` | gateway/app/chat.py:35-36 | printed JSON holds no line feed or other control character |
| `JsonText.EscapeSize` | gateway/app/chat.py:35-36 | an escaped unit takes 2 characters for a quote, backslash or one of five controls, 1 for other printable ASCII, 6 for the rest |
| `JsonText.ParsePrint` | gateway/app/chat.py:35-36 | parsing a printed value gives it back, for all texts of UTF-16 units, integers, null and nested objects |
| `Sse.DispatchFrame` | web/src/api.ts:99-110 | for every JSON decoder the loop over a frame's lines makes exactly the calls of `Dispatch`, or throws |
| `Sse.SplitLinesMeaning` | web/src/api.ts:102 | the lines hold no LF and, joined by LF, are the frame |
| `Sse.TakeLinesMeaning` | web/src/api.ts:100-105 | event and data are the trimmed rests of the last lines with these prefixes, "message" and nothing without one |
| `Sse.TrimMeaning` | web/src/api.ts:103-104 | trimming takes off all white space at both ends and nothing else |
| `Sse.DispatchMeaning` | web/src/api.ts:106-110 | any frame makes at most one call, that of its event with the property of that name; it throws iff its data is there and is no JSON, or is null in a token or error frame |
| `Sse.StreamMessage` | web/src/api.ts:59-97 | for every JSON decoder the nested read loops compute `Streamed`, for every read sequence and ending |
| `Sse.BrowserCutIndependent` | web/src/api.ts:83-95 | on arbitrary input, and for every JSON decoder, the calls do not depend on how the network cut it |
| `Sse.FrameRoundTrip` | gateway/app/chat.py:35-36 | the browser reads one printed frame back as its event |
| `Sse.SseRoundTrip` | web/src/api.ts:79-110 | for every list of events and every cut of their print, inside blank lines too, the page sees exactly the token and error payloads in order, then onDone |
| `Chat.TokenLoop` | gateway/app/chat.py:128-133 | frames, collected text and usage of exactly the chunks seen before an interrupt |
| `Chat.Turn` | gateway/app/chat.py:111-159 | the generator yields `TurnFrames` and makes the persist calls `TurnPersists` for every model ending and interrupt |
| `Chat.PersistsOnce` | gateway/app/chat.py:134-152 | one persist call iff the turn got past its start frame and was not interrupted after its loop finished; two iff it was |
| `Chat.PersistedIsShown` | gateway/app/chat.py:128-152 | every persisted text is the concatenation of the token frames yielded |
| `Chat.FrameShape` | gateway/app/chat.py:119-152 | start, non-empty tokens, then done, error or nothing |
| `Chat.OutcomeIsLastFrame` | gateway/app/chat.py:134-152 | with one persist, its outcome is complete iff the last frame is done, error iff it is error, cancelled iff neither |
| `Chat.UsageAndReason` | gateway/app/chat.py:132-152 | every persist call is given the usage of the last chunk that reported one before the interrupt; the done frame shows the same under the turn's request id, the error frame the reason |
| `Chat.PageShowsPrefix` | web/src/api.ts:79-110 | wherever the connection breaks off and however it is cut, the page's text is a prefix of the token text, and all of it when nothing was lost |
| `Chat.PageAgreesWithStore` | gateway/app/chat.py:111-159 | in every run the page's text is a prefix of each persisted text, equal when everything arrived, and empty if nothing is stored or nothing is persisted at all |
| `Capture.StreamState.Feed` | sdk/inferlog/auto.py:284-297 | the parser gets exactly the non-empty chunks, what it raises is swallowed, and ttft is taken exactly when the first text appears without a raise |
| `Capture.StreamState.Emit` | sdk/inferlog/auto.py:299-320 | emits once with the parser's fields; later calls do nothing |
| `Capture.Iterate` | sdk/inferlog/auto.py:484-497 | for every chunk sequence, inner ending and interruption at a yield the consumer gets exactly the inner chunks, one emission is made, success iff exhausted or interrupted after completion, ttft no larger than latency |
| `Capture.ClientStream` | sdk/inferlog/client.py:143-202 | forwards exactly the chunks with text or usage, one event however it ends, with text and last usage of what was forwarded, the time of the first text and the latency |
| `Capture.FirstTokenMeaning` | sdk/inferlog/client.py:165-167 | that time is the clock at the first chunk with text, none if there is none |
| `CallTree.PatchedOnce` | sdk/inferlog/auto.py:67-95 | after any install/uninstall sequence `send` is the original or patched exactly once |
| `CallTree.Process.Observe` | sdk/inferlog/auto.py:173-221 | one observed request is logged once unless its task was cancelled before the response or nobody iterates its asynchronous stream through what the mode wrapped |
| `CallTree.Process.Transport` | sdk/inferlog/auto.py:529-612 | the transport captures only when neither the patch nor an explicit call does |
| `CallTree.Process.SendRequest` | sdk/inferlog/auto.py:150-221 | patched send over capturing transport logs what one capture does, never twice, and nothing inside an explicit call |
| `CallTree.Process.Run` | sdk/inferlog/client.py:104-141 | for every call tree the explicit mark is restored and the log grows by exactly `Emitted`, in order |
| `CallTree.LogsAreOwed` | sdk/inferlog/auto.py:150-221 | every id is logged exactly as often as the calls with that id are owed a log |
| `CallTree.LoggedOnceIff` | sdk/inferlog/auto.py:150-221 | in every call tree each call is logged at most once; an explicit call iff its provider is known; a request iff it is captured outside every explicit call, was not cancelled before its response and, if streamed asynchronously, was iterated through what its mode wrapped |
| `CallTree.OneLogPerCall` | sdk/inferlog/client.py:104-141 | a host never sees more logs than the documented one per call, and as many iff no promised call is one of these exceptions |
| `CallTree.CancelledIsUnlogged` | sdk/inferlog/auto.py:174-208 | a captured request, in either mode, that is cancelled while sending or reading the body, and is not logged |
| `CallTree.RawIsUnlogged` | sdk/inferlog/auto.py:230-261 | a stream drained with `aiter_raw` that the patch does not log and the transport alone does |
| `CallTree.UnknownIsUnlogged` | sdk/inferlog/client.py:85-104 | an explicit call of an unregistered provider is not logged |
| `CallTree.NeverTwice` | sdk/inferlog/auto.py:535-541 | a client with both the patch and the transport is logged as one with the patch alone |

## Left out

- Sockets, httpx, Redis and Postgres servers: only append, group read, claim, acknowledge and insert-if-absent, each with its failure outcomes; a group that already exists is assumed.
- Ingestion.EventStream.ClaimStale: idle times are an arbitrary predicate, so every pending entry may be claimed at any time; claims of trimmed entries do not occur because nothing trims the stream.
- Ingestion.RunWorker: the stop signal is a number of rounds, what it settles is stated for this worker alone with all pending entries stale, and the schema and connection setup are not modelled; interleaving with other workers is the subject of Delivery, where each await is a step of its own.
- Events.PublishedIsValid: how the server reads a text as a UUID and a JSON value as an integer is an arbitrary function; date syntax is not modelled. Other producers' payloads decode either to typed fields or to something malformed. Numeric ranges of database columns count as a failing insert.
- Events.SdkBatchAdmissibleIff: texts are made of Unicode scalar values and payloads can be printed as JSON; a lone surrogate and a non-finite number in a tag are not covered.
- Dispatcher.LogDispatcher.CollectBatch: the timed wait for a first event is one step, so a cancellation between taking an event and continuing counts as abandoning the batch.
- Dispatcher.LogDispatcher.SendWithRetry: pauses are real numbers, so a Retry-After of nan or inf is not covered; jitter is an arbitrary value in [0, 1).
- Closing the HTTP client in `aclose`, and an `on_drop` callback that raises (it is swallowed).
- Sampling rates: a sampled-out event is a step that counts one drop.
- Events.SdkTextsPass: the default preview length of 280 and the default patterns; customer redactors, extra patterns and longer previews are not covered. That names are short and counts non-negative is not claimed, only what follows if they are not.
- Caps.CapDictMeaning: scalars are carried by their JSON text, taken to be the same on both sides.
- Regex: flags, groups and greediness are not modelled; Unicode word and digit tables are arbitrary beyond ASCII.
- StreamParsers: JSON decoding and `str` of non-text values are arbitrary functions, and numbers are reals without rounding.
- Sse.StreamMessage: works on decoded text; the printer's output is ASCII, so decoding it cannot split a character. A missing response body counts as not ok, and a handler that throws is not modelled.
- Sse.SseRoundTrip: uses the decoder for the values the gateway prints; what the reader does with any decoder is in StreamMessage and BrowserCutIndependent.
- JsonText.ParsePrint: floats, arrays and booleans are absent because the gateway never prints them in these frames.
- Chat.Turn: the lookups before streaming, the database behind a persist call (it swallows its own failures) and the closing of the model stream in `finally`.
- Capture.Iterate: exceptions outside `Exception` other than cancellation and close are not modelled; the clock is non-decreasing and real-valued.
- CallTree.Process.Run: `complete` and single-hop requests only, and emission attempts rather than submitted events; whether httpx reads a body through a wrapped iterator is part of the request's description. `LoggedLLMClient.stream` under call trees depends on how the interpreter scopes context variables across yields, and redirects would run the transport once per hop.
- Float enrichment (cost, tokens per second), dashboard queries, authentication, CORS, React components and deployment files: shallow or not repository logic.
