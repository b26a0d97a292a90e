# llmshim: stream accounting, attempts and replay, verified

llmshim is a Rust library and proxy that speaks to many LLM providers through one interface. This project models the
parts of it whose correctness is hardest to see from the code, and proves what they promise: for every byte sequence,
every history, every course of callbacks and failures, and every interleaving. `dafny verify dfyconfig.toml` checks it all.

The model follows the source's form. Objects that are updated in place are classes with `modifies` clauses, loops are
loops with invariants, and code that runs concurrently is a step relation whose steps are the critical sections and the
returns of callbacks. JSON values become datatypes with the fields that are read, money is `real`, durations and instants
are `nat`, and whatever the network, the clock, the policy or a random source decides is a parameter or an action.

## What is modelled

* **Event streams** (`Utf8`, `Utf8Scalars`, `SseReference`, `SseDecoder`, `SseRefinement`, `SseStream`, `SseWriting`). The
  byte-at-a-time decoder with its five budgets, and a batch reader written from sections 9.2.5 and 9.2.6 of the WHATWG HTML
  Standard. UTF-8 is the grammar of section 4 of RFC 3629, which is shown to be the encodings of its section 3. The object
  yields exactly the batch reader's events and first error, and reads back whatever texts were written as an event stream
  in any of its spellings.
* **Retention** (`Retention`). The shared ledger, and the worklist that sizes a JSON value.
* **Usage and bills** (`ChatHistory`, `Chat`, `ChatMeaning`, `ChatWeights`, `Cost`, `NativeUsage`, `NativeMeaning`,
  `StreamUsages`, `TerminalMeaning`, `Normalizer`). What the terminal bill of a history of frames is, said without any machine; the two
  machines that find it; the normalizer that shares one ledger with the second of them; and the price and stamp that must
  not undercut known spend.
* **Attempts** (`Attempt`, `Retry`, `Breaker`, `BreakerWindow`, `Fallback`, `FallbackMeaning`). The tracker raced by its
  cancellation guards, the bounded retry loop, the circuit breaker for failure times in any order, what its queue has to do
  with the sliding window, and the fallback chain driven by that breaker among other callers.
* **Tool calls** (`ToolIds`, `ToolHistory`, `ToolReplay`, `ToolWire`, `ToolOrder`). The two-way identity map, the
  validation automaton against a declarative notion of a sound history, the rewriting that hands each answer its call's
  identity and when it is possible, the second validation under the new ids and what is sent, and Gemini's reordering.
* **Cache markers** (`Cache`, `CacheMeaning`), **connection generations** (`Generations`) and the **eager stream**
  (`EagerStream`), whose state has a clock that every step may advance.

The modules whose names end in `Meaning`, `SseWriting`, and the lemmas whose names end in `Exactly` say what the operations
do of the inputs themselves: of the octets written, a stream's own chunks and choices, a trace's own events, a request's own
places. They do so in predicates of their own, with the constants written out, so that they would not follow a change in the
functions that the operations are specified by.

What the ledger is asked for is said on values: every operation that retains state has a list of moves, and it succeeds
exactly when `Retention.Settle` can make them one after the other within the limits.

## Where the code and its promise part ways

* A drop may report `Unknown` although the policy has just accepted usage: the flag is written after the callback returns.
  `Attempt.LostUsage` gives the run and `Attempt.ClaimAccuracy` the exact condition.
* An attempt can be abandoned and finished at once. A guard that is dropped while a finish callback runs claims the
  attempt, and the finish still commits; the notification, sent after the lock is released, may even come last.
  `Attempt.LateNotice` gives the run and `Attempt.CommitAfterDrop` the exact condition. No abandonment is decided once a
  finish has committed.
* `full_jitter` has no value when the bound is 2^64 - 1 milliseconds. `Retry.NoDraw` gives the attempt, base and cap, and
  `Retry.PanicsOnlyAtTheEdge` says exactly when the backoff meets that: the exponential has saturated and the cap leaves
  it so.
* A key's record is charged only while nothing is charged for the key, so a field that is written twice is charged for its
  value alone from then on. `Retention.RecordLost` gives the input; `Retention.RecordsChargedExactly` says that every
  record is charged exactly when no key is written twice, `NativeUsage.IngestStream` and `StreamUsages.IngestStream` say
  so of whole streams of events, and `StreamUsages.DoneCharges` says the same of finished choices. The ledger stays exact
  all the same.
* The size of a value may exceed the byte limit by its last payload, which is added after the last check.
  `Retention.LongText` gives the value and `Retention.AcceptedBeyondLimit` the exact condition.
* The comment on the breaker speaks of failures within the window. The time of a failure is taken before the lock, so
  times can be out of order, and then the deque need not hold exactly those. `BreakerWindow.OpenedOutOfOrder` gives times
  that open a circuit with too few failures in the window, and `BreakerWindow.QueueIsWindow` the exact condition on the
  times.
* An admission looks at the circuit and asks for its probe under two locks. A success in between closes the circuit, and
  the dispatch is refused all the same. `Breaker.RefuseThoughClosed` gives the run and `Breaker.DecidesAsAsked` the exact
  condition: the circuit closed in between and the fleet agrees.
* A history that passes validation can stop being sound by being rewritten: a call's mapping may give it the id another
  pending call has. The adapters validate the native body again and refuse such a history, with a complaint about ids the
  caller never sent; Bedrock's adapter has no second look and sends it. `ToolWire.SendClash` gives the history for either
  case, and `ToolWire.Send` and `ToolWire.SoundAsSent` say exactly when it happens.

## Model

| member | source | states |
|---|---|---|
| `SseDecoder.DataField` | src/sse.rs:114-122 | cutting a line at its first colon finds the field `data` exactly on the lines that are `data` or start with `data:`, with the value the batch reader takes there; what that value is, one space less included, is in `SseWriting.ReadsBack` |
| `SseDecoder.FinishLineBounded` | src/sse.rs:91-125 | finishing a line keeps every budget, and its only UTF-8 failure is the line's own: the check on assembled data never fails |
| `SseDecoder.StepBounded` | src/sse.rs:161-190 | after every byte of every input data and line together fit the frame count, all counters are within budget and assembled data is well-formed UTF-8 |
| `SseRefinement.LineCloses` | src/sse.rs:91-125 | from related states a line is closed alike by decoder and batch reader: same frame left behind, same event, same error |
| `SseRefinement.FeedReads` | src/sse.rs:131-194 | from any reachable state the decoder yields what the batch reader makes of the line in progress and the remaining bytes |
| `SseRefinement.DecoderRefinesReference` | src/sse.rs:131-194 | for every script of chunks, waits and failures the decoder's events and first error are those of the batch reader |
| `SseRefinement.FragmentationInvariant` | src/sse.rs:131-194 | two ways of cutting the same bytes into chunks, empty ones included, give the same events and the same error |
| `SseRefinement.EventsOfPrefix` | src/sse.rs:131-194 | however both are cut, the events of a prefix of the bytes are a prefix of the events of all of them |
| `SseStream.DataStream.constructor` | src/sse.rs:60-76 | a new stream will yield exactly the batch meaning of its source |
| `SseStream.DataStream.Finish` | src/sse.rs:78-89 | source and buffers are emptied and nothing remains to be yielded |
| `SseStream.DataStream.CompleteLine` | src/sse.rs:91-125 | the in-place buffers after a line are those of the decoder's specification, with its event or its error |
| `SseStream.DataStream.TakeByte` | src/sse.rs:161-190 | one byte moves the in-place state by exactly one specified step |
| `SseStream.DataStream.PollNext` | src/sse.rs:131-194 | a poll takes the next result off what remains, waiting changes nothing to come, and any failure or end leaves the stream ended with empty buffers |
| `SseStream.DataStream.Drain` | src/sse.rs:128-195 | polling to the end terminates and collects exactly the events and the error that remained |
| `SseRefinement.ErrorHasCause` | src/sse.rs:131-194 | every error is so of the source: it failed, there are too many chunks, bytes or events, a line or a frame is longer than its budget, or what was heard is not UTF-8; and no error means that all of it was delivered and read within the budgets |
| `Utf8Scalars.WellFormedMeaning` | src/sse.rs:91-92 | octets are well formed exactly when they are the encodings of a sequence of Unicode scalar values, by the arithmetic of section 3 of RFC 3629 |
| `SseWriting.ReadsBack` | src/sse.rs:131-194 | any texts, written with any line ending, with or without the space and the byte order mark, with comments and other fields before each, cut into chunks anywhere and followed by an unfinished event and line, are read back as exactly those texts if and only if the budgets hold for what was written; an end inside a character is an error |
| `SseWriting.ReadsBackWhole` | src/sse.rs:131-194 | the same for a stream that ends with its last event |
| `SseWriting.ReadAll` | src/sse.rs:128-195 | polling the object over such a source to its end collects exactly the texts that were written |
| `Retention.RetainedBudget.Replace` | src/stream_retention.rs:102-125 | charges are swapped exactly when the old one is on the ledger and the new total is within both limits; otherwise nothing moves |
| `Retention.RetainedBudget.Reserve` | src/stream_retention.rs:127-129 | succeeds exactly when the sum fits, and changes nothing otherwise |
| `Retention.RetainedBudget.Release` | src/stream_retention.rs:131-136 | gives back exactly what is on the ledger, saturating only if it is not |
| `Retention.RetainedBudget.Reset` | src/stream_retention.rs:138-142 | leaves the ledger at zero |
| `Retention.EstimateValue` | src/stream_retention.rs:153-211 | the worklist finds the tree's weight, 96 bytes a node, 24 an array, 32 a slot, 64 a member and the characters of texts and keys, or refuses exactly when there are more than 65536 nodes or more than 64 MiB before what the first leaf holds |
| `Retention.EstimateExactly` | src/stream_retention.rs:153-211 | a value is accepted within those limits and for exactly what it is made of |
| `Retention.MergedExactly` | src/usage.rs:766-786 | merging fields leaves the last value written to a key, and what was there before where nothing was |
| `Retention.AcceptedBeyondLimit` | src/stream_retention.rs:153-211 | an accepted value is heavier than the byte limit exactly when its last payload alone carries it past |
| `Retention.LongText` | src/stream_retention.rs:153-211 | a text longer than the byte limit is accepted |
| `Retention.SumUpdate` | src/stream_retention.rs:102-125 | replacing one key's charge moves the sum over all keys by exactly the difference |
| `Retention.ChargeFor` | src/usage.rs:766-786 | a value's charge is its weight, plus a record for its key only while nothing is charged under that key, and is refused exactly when the weight is or the sum overflows |
| `Retention.KeyCharges` | src/usage.rs:766-786 | after any list of writes, the events of a whole stream one after the other included, a key is charged for its last value, and for its record exactly when it was written once |
| `Retention.RecordLost` | src/usage.rs:766-786 | a field written twice is charged for its value alone |
| `Retention.RecordsChargedExactly` | src/usage.rs:766-786 | every retained key is charged for its record exactly when no key is written twice |
| `Retention.ChargedAppend` | src/usage.rs:766-786 | writing the fields of one event and then of another charges and asks what writing them all at once does |
| `Retention.SettleAppend` | src/stream_retention.rs:102-125 | a ledger bears two lists of charges in turn exactly when it bears the first and from there the second |
| `ChatHistory.KnownAndFinishedMeaning` | src/usage.rs:638-676 | an index is known when it was ever sighted, and finished when its latest sighting is |
| `ChatHistory.EligibleMeaning` | src/usage.rs:652-694 | a frame is eligible to bill exactly when all choices known by then were finished and no later frame stirred a choice |
| `ChatHistory.TerminalBill` | src/usage.rs:680-693 | the step by step bill is the cost of the last priced eligible frame, and a candidate is held exactly when some usage frame is still eligible |
| `ChatHistory.HeldMeansFinished` | src/usage.rs:680-693 | a bill or a candidate is held only while there are known choices and all of them are finished |
| `ChatHistory.TerminalCostUnique` | src/usage.rs:680-693 | a history has one terminal bill |
| `ChatMeaning.NumberedAt` | src/usage.rs:638-650 | a choice is tracked under its own index, or its position in the chunk where it has none |
| `ChatMeaning.CompleteExactly` | src/streaming.rs:238-331 | the entries of a stream are complete exactly when, among the chunks' own choices, some finished and every one that said something without finishing has a finish of its index at a later place |
| `ChatMeaning.StandsExactly` | src/usage.rs:638-694 | a frame is eligible to bill exactly when by its chunk some choice was seen and the last of every index finished, and no later chunk has a choice that is new, unfinished or says something |
| `ChatMeaning.BillExactly` | src/usage.rs:638-694 | the bill found is exactly the one the last such chunk with a non-negative cost reported, or none if none did |
| `ChatMeaning.SpeakingVoidsTheBill` | src/usage.rs:652-676 | a non-empty delta on any choice of a chunk leaves no bill but that chunk's own |
| `NativeUsage.NativeStreamUsage.SetCandidate` | src/usage.rs:796-817 | the candidate and its charge change together, and fail exactly when the new value cannot be weighed or the ledger cannot bear it; then nothing stays retained |
| `NativeUsage.NativeStreamUsage.Note` | src/usage.rs:638-676 | one choice moves the known and finished sets and the candidate, each mark with one record on the ledger, and fails exactly when the ledger cannot bear that |
| `NativeUsage.NativeStreamUsage.Conclude` | src/usage.rs:677-693 | the frame's usage becomes, replaces or clears the candidate exactly as the terminal bill of the history requires, and fails exactly when the ledger cannot bear it |
| `NativeUsage.NativeStreamUsage.IngestFrame` | src/usage.rs:625-763 | the tracked sets, candidate and its cost are those of the whole history; the caller always gets the frame's own observation; a frame fails exactly when the ledger cannot bear its marks and its candidate one after the other, and leaves an empty machine and a ledger at zero |
| `NativeUsage.FrameConcludes` | src/usage.rs:677-693 | weighing the frame's usage against the held candidate finds the terminal bill of the longer history |
| `NativeUsage.NativeStreamUsage.FailRetention` | src/usage.rs:854-870 | nothing is retained, no candidate is held, the ledger is at zero and the error is latched |
| `NativeUsage.NativeStreamUsage.Release` | src/usage.rs:848-852 | both counts fall by exactly the footprint, without saturating |
| `NativeUsage.NativeStreamUsage.TakeTerminalCandidate` | src/usage.rs:537-545 | the candidate is handed out marked terminal and exactly its charge is returned |
| `NativeUsage.NativeStreamUsage.TakeRetentionError` | src/usage.rs:528-535 | a latched error is taken with an empty machine; without one nothing changes |
| `NativeUsage.NativeStreamUsage.IngestAnthropic` | src/usage.rs:580-612 | the merged fields have the last value of every key with one charge each, the stop frame's observation becomes the candidate, and it fails, emptying the machine, exactly when the ledger cannot bear the fields and then the candidate |
| `NativeUsage.IngestStream` | src/usage.rs:580-612 | a whole stream of usage events leaves the last value of every key, the charges of all fields written in turn and the last stop frame's candidate, exactly when the ledger bears all that; every key is charged for its record exactly when none was sent twice |
| `NativeUsage.LastTerminalExactly` | src/usage.rs:580-612 | the candidate of an Anthropic stream is the observation of its last stop frame, or the one held before if there is none |
| `NativeMeaning.ObserveCounts` | src/usage.rs:243-291 | an observation has the prompt and completion counters of its usage field, zero for cache counters that are missing, an uncached input that together with the cache read makes up the prompt, and the cost unless it is negative |
| `NativeMeaning.CandidateExactly` | src/usage.rs:625-693 | the machine's candidate is the usage of the last standing chunk with a bill, or of the last standing chunk with a usage when none has one, and there is none exactly when no standing chunk has a usage |
| `NativeUsage.NativeStreamUsage.RetainField` | src/usage.rs:766-786 | one field's charge replaces its predecessor and no other, exactly when the ledger can bear it |
| `NativeUsage.NativeStreamUsage.IngestResponses` | src/usage.rs:613-624 | only the completed event names the terminal usage, and it fails exactly when the ledger cannot bear that |
| `StreamUsages.SummaryAmounts` | src/usage.rs:931-1030 | for every history of chunks the kept state is its known and finished choices, its terminal bill, its highest bill, its last usage, its last finishes and its first envelope |
| `StreamUsages.TerminalNeverUndercuts` | src/usage.rs:1032-1053 | the stamped terminal chunk carries the exact terminal bill when one is held, and otherwise at least every bill any chunk reported |
| `StreamUsages.StreamUsage.DeferChatTerminal` | src/usage.rs:931-1030 | the chunk goes out with its finish reasons nulled and nothing else changed and the history grows by it, exactly when the ledger can bear what the chunk asks after that history; nobody else's charge moves, on failure too |
| `StreamUsages.StreamUsage.TakeTerminal` | src/usage.rs:1032-1053 | the terminal chunk is the one the whole history amounts to, and afterwards nothing is held |
| `TerminalMeaning.TerminalExactly` | src/usage.rs:931-1053 | there is a terminal chunk exactly when some choice finished, and it has the envelope of the first chunk that finished one, the last finish of every index with an empty delta, the counters of the last usage object, and the bill of the history as its cost, or else no cost and the highest bill as its floor |
| `TerminalMeaning.DonesExactly` | src/usage.rs:981-999 | what is kept of the choices is exactly the last finish of every index that finished, by its place among the chunks |
| `TerminalMeaning.EnvelopeExactly` | src/usage.rs:1023-1028 | the envelope kept is that of the first chunk that finished a choice |
| `TerminalMeaning.MuteExactly` | src/usage.rs:957-1000 | a chunk goes out with the same usage, the same other fields and the same choices, each without its finish reason |
| `StreamUsages.StreamUsage.Clear` | src/usage.rs:1093-1108 | gives back exactly what this machine held and leaves the others' charges as they were |
| `StreamUsages.StreamUsage.Replace` | src/usage.rs:1122-1139 | both counts move by the same charge exactly when the ledger can bear it, and not at all otherwise; the others' charges stay |
| `StreamUsages.StreamUsage.Release` | src/usage.rs:1141-1145 | both counts fall by exactly the footprint, without saturating |
| `StreamUsages.StreamUsage.IngestFields` | src/usage.rs:1055-1091 | the merged object has the last value of every key, each charge replaces its key's previous one, the count stays the sum of the charges, and it goes through exactly when the ledger can bear every field in turn |
| `StreamUsages.IngestStream` | src/usage.rs:1055-1091 | a whole stream of usage events leaves the last value of every key and the charges of all fields written in turn, exactly when the ledger bears them; every key is charged for its record exactly when none was sent twice |
| `StreamUsages.DoneCharges` | src/usage.rs:981-999 | a finished choice is charged for its last finish, and for its record exactly when it finished once |
| `StreamUsages.ChoiceCharges` | src/usage.rs:931-1030 | the choices' charges after any history are those of all its entries one after the other |
| `ChatWeights.UsageWeighs` | src/stream_retention.rs:153-211 | a kept usage weighs 96 bytes, for each number it has 160 and its name, 347 for a stamp, and the rest as it came |
| `ChatWeights.ChoiceWeighs` | src/stream_retention.rs:153-211 | a kept choice weighs 96 bytes, its index, its finish reason or null, its delta and the rest as it came |
| `ChatWeights.EnvelopeWeighs` | src/stream_retention.rs:153-211 | a kept envelope weighs 96 bytes, 191 for its empty choices, and the rest as it came |
| `Chat.DonesMeaning` | src/usage.rs:981-999 | the kept choice of an index is its last finished one with an empty delta, and there is one exactly when some finish came |
| `Chat.MuteAllMeaning` | src/usage.rs:957-1000 | muting keeps every choice's index and delta and leaves no finish reason |
| `Chat.HighestCostBounds` | src/usage.rs:946-952 | the floor is at least every provider cost seen on the stream |
| `Normalizer.ActiveMeaning` | src/streaming.rs:238-261 | a choice is active exactly when it has output that no later finish of its index covers, and some choice finished exactly when one is kept for the end; `Normalizer.TracksCompleteness` says it of the chunks |
| `Normalizer.TracksCompleteness` | src/streaming.rs:238-331 | what the normalizer tracks says exactly whether the chunks' own choices are complete |
| `Normalizer.StreamNormalizer.Push` | src/streaming.rs:100-311 | an emitted chunk is the pushed one muted and the history grows by it; a parsed chunk fails exactly when the ledger cannot bear the tools, the choices and the deferral in turn; any error ends the stream with an empty ledger; an ended stream only fails |
| `Normalizer.StreamNormalizer.Finish` | src/streaming.rs:313-331 | succeeds exactly when tools completed, some choice of the chunks finished, and every non-empty delta without a finish reason has a finish of its index at a later place; then there is a terminal chunk and it is the one `TerminalMeaning.IsTerminal` describes; the ledger ends at zero either way |
| `Normalizer.StreamNormalizer.Abort` | src/streaming.rs:95-98 | the stream is finished and the ledger at zero |
| `Normalizer.StreamNormalizer.ClearRetained` | src/streaming.rs:333-341 | tools, usage, choices and the ledger are emptied from any state that merely failed |
| `Normalizer.Normalize` | src/streaming.rs:100-331 | a whole stream: every chunk goes out as it came with its finish reasons gone, in order, all of them exactly when the ledger bears what they ask one after the other; it succeeds exactly when all did, tools completed and the chunks are complete, and then with the terminal chunk they determine |
| `Normalizer.PushAll` | src/streaming.rs:100-311 | the chunks that go out are a prefix of the muted stream, and all of it exactly when the ledger bears the whole stream |
| `Normalizer.Lockstep` | src/usage.rs:931-1022 | machines with the same frames behind them have equal known and finished sets, the candidate's reported cost equals the other's bill, and a candidate means every known choice is finished |
| `Normalizer.FeedOne` | src/usage.rs:625-693 | one chunk fed to both machines keeps them in lockstep, exactly when both ledgers bear it |
| `Normalizer.FeedAll` | src/usage.rs:625-1030 | the same whole stream leaves the two machines with the same choices, finishes and bill, that bill is the chunks' own and the first machine's candidate the one they determine, exactly when both ledgers bear all the chunks |
| `Cost.PriceUnknownExactly` | src/cost.rs:68-97 | a price is unknown exactly when every counter is zero or no rate is published |
| `Cost.PriceExactly` | src/cost.rs:52-97 | a million times the price is the uncached input, or the prompt where that is missing, the completion, the cache reads and the cache writes, each times its own rate or, without one, the highest published; it is unknown exactly when nothing was spent or nothing is published |
| `Cost.PriceMonotone` | src/cost.rs:68-97 | using more of anything never lowers the price, exactly when no published rate is negative |
| `Cost.PriceBoundsCompletions` | src/cost.rs:52-97 | the price is at least that of every completion of the missing rates up to the highest published one, negative ones included, and one such completion reaches it |
| `Cost.StampNeverUndercuts` | src/cost.rs:165-239 | a stamp is the provider's bill if there is one, and otherwise the larger of estimate and floor, with the source that says which |
| `Cost.StampExactly` | src/cost.rs:165-239 | stamping changes the stamp alone: the non-negative cost as the provider's, else a non-negative floor above the estimate or without one as the floor, else the estimate, which is the price in dollars |
| `Cost.Response.StampCost` | src/cost.rs:219-239 | the response's usage is replaced by its stamped form, said in dollars, and a response without usage is left alone |
| `Attempt.EveryRunIsSound` | src/policy.rs:568-669 | over every interleaving: one drop claims at most and none after a commit, one notification at most and only for a claim, one accepted and one committed finish at most, none sent once settled, and every report says what was recorded |
| `Attempt.TraceTellsTheRun` | src/policy.rs:568-669 | every success of a callback, commit and notification of a run is in its trace and no other is, every drop leaves the attempt committed or claimed, and only drops claim |
| `Attempt.StepKeeps` | src/policy.rs:568-669 | each critical section and callback return keeps flags, holder and pending notification tied to what has happened |
| `Attempt.GoneMeansSettled` | src/policy.rs:637-669 | once the tracker is gone and no notification is outstanding, a finish committed or the policy was told of the abandonment |
| `Attempt.CommitAfterDrop` | src/policy.rs:596-669 | after a guard's claim a finish can still commit, and its notification still come last, exactly when the finish call was under way |
| `Attempt.ClaimAccuracy` | src/policy.rs:649-669 | what a drop says of usage is right exactly when no first success is waiting to be recorded |
| `Attempt.LostUsage` | src/policy.rs:568-584 | a run in which accepted usage is abandoned as unknown |
| `Attempt.LateNotice` | src/policy.rs:596-669 | a run in which the notification follows the commit of the finish it crossed |
| `Attempt.FinishedLife` | src/policy.rs:568-669 | a run that reports, uses and finishes, and whose drop adds nothing |
| `Attempt.AbandonedLife` | src/policy.rs:596-669 | a run whose finish is rejected and whose drop abandons it |
| `Retry.JitterWithin` | src/client.rs:2298-2304 | a draw never exceeds its bound, and there is none exactly at 2^64 - 1 milliseconds |
| `Retry.BackoffIsExponential` | src/client.rs:2290-2294 | saturation and the shift's limit do not show, and the bound is the capped exponential, exactly when the exponential fits 64 bits or the cap does |
| `Retry.PanicsOnlyAtTheEdge` | src/client.rs:2290-2304 | the backoff has no draw exactly when the exponential has saturated and the cap does not cut it |
| `Retry.BackoffExactly` | src/client.rs:2290-2304 | for all sizes the backoff is a whole number of milliseconds, the random number modulo one more than the least of the base times two to the attempt, the cap and 2^64 - 1, and there is none exactly when that least is 2^64 - 1 |
| `Retry.Dispatch.DueExactly` | src/client.rs:625-632 | the wait due is none after a refresh, the provider's own capped and up to 250 milliseconds more where it gave one, and otherwise that backoff |
| `Retry.NoDraw` | src/client.rs:2290-2304 | an attempt, a base and a cap for which no draw exists |
| `Retry.Dispatch.Admit` | src/client.rs:519-562 | an admission is held exactly when the policy granted it and the logical deadline has not passed; a grant that came too late is abandoned |
| `Retry.Dispatch.Unsent` | src/client/unsent.rs:4-25 | a request that could not be signed adds exactly a usage report and then its finish, or its abandonment if either is rejected, and the failure is the policy's exactly then and local otherwise |
| `Retry.Dispatch.Account` | src/client.rs:640-668 | exactly the usage found in an error body, if any, is reported and then the outcome; any rejected callback leaves the attempt abandoned instead of finished |
| `Retry.Dispatch.Give` | src/client.rs:704-747 | one authorization refresh is taken at most, never on the last attempt, and the error blames the provider unless something here failed |
| `Retry.Dispatch.Answer` | src/client.rs:605-748 | a success is returned with its admission held; another attempt follows exactly the retryable answers whose callbacks were accepted |
| `Retry.Dispatch.Exchange` | src/client.rs:564-774 | a request is sent exactly when it can be, and retried, returned or failed exactly as its reply and the callbacks say, with 429, 500, 502, 503, 504 and 529 to be retried; the policy hears of headers, of usage and of an accepted finish exactly when there are some |
| `Retry.Dispatch.Iterate` | src/client.rs:464-775 | one iteration: another follows exactly when a retry is left and the failure was transient, after exactly the wait that is due; the error names its cause, each of five causes exactly; the admission is settled unless the answer holds it |
| `Retry.Dispatch.Run` | src/client.rs:463-777 | the whole loop: every iteration but the last was transient and the last was not unless no retry was left, each wait was exactly the one due, the requests and the headers, usages and finishes the policy heard of are exactly those of the iterations that had them, the one refresh is taken at the first answer that needs it and no other, no admission is left open except with the answer, and the error names its cause |
| `Retry.LawfulMeaning` | src/client.rs:519-775 | with a policy each request uses an admission of its own that is still open and unused, and no wait, refresh or admission finds one open |
| `Breaker.FailureFits` | src/breaker.rs:206-246 | an eligible failure, at whatever time, keeps the circuit what the failures since the last success say: open exactly if the queue was ever as long as the threshold, with its time, and otherwise the queue itself |
| `Breaker.PastMeaning` | src/breaker.rs:180-246 | the past a circuit is judged by is the times of the target's eligible failures since its last success, in order, and a probe is out exactly when one was sent and no outcome of the target followed |
| `Breaker.ClosedIsShort` | src/breaker.rs:229-240 | a closed circuit's queue is shorter than the threshold |
| `BreakerWindow.QueueIsWindow` | src/breaker.rs:229-236 | at every failure the queue holds exactly the failures within a window of it, if and only if none out of reach ever stands behind one within reach or comes back within reach |
| `BreakerWindow.OrderedIsSettled` | src/breaker.rs:206-246 | failure times in order meet that condition |
| `BreakerWindow.OpenedOutOfOrder` | src/breaker.rs:206-246 | three failures out of order open a circuit though only two are within the window |
| `BreakerWindow.OpenedIsTripped` | src/breaker.rs:206-246 | for settled times a circuit has opened exactly when `trip_threshold` consecutive failures fitted in one window |
| `BreakerWindow.ClosedQueueOrdered` | src/breaker.rs:229-236 | a closed circuit's queue of times that came in order is in order |
| `BreakerWindow.OpensExactly` | src/breaker.rs:229-240 | for settled times a closed circuit opens at a failure exactly when that makes at least `trip_threshold` failures within the window |
| `BreakerWindow.TrippedMeaning` | src/breaker.rs:206-246 | a circuit has tripped when some `trip_threshold` consecutive failures fitted in one window |
| `Breaker.ProviderBreaker.ShouldSkip` | src/breaker.rs:168-173 | for failure times in any order a target is skipped exactly when its history has opened the circuit |
| `Breaker.ProviderBreaker.TryAdmitProbe` | src/breaker.rs:180-195 | for failure times in any order the probe goes out exactly when the history has opened the circuit, no probe is out and the latest failure is a cooldown old |
| `Breaker.ProviderBreaker.RecordSuccess` | src/breaker.rs:198-200 | the target's history starts anew and every circuit still fits its history |
| `Breaker.ProviderBreaker.RecordFailure` | src/breaker.rs:206-246 | the failure joins the target's history and every circuit, this one and the others, still fits its history |
| `Breaker.ProviderBreaker.Classify` | src/breaker.rs:206-246 | the popping loop and the branches compute the specified next circuit |
| `Breaker.ProviderBreaker.Admit` | src/breaker.rs:253-269 | two locked sections with any other callers' operations in between, which the history shows exactly: admitted exactly when the first history has the circuit closed and the fleet agrees, or has it open and the second history is due its one probe |
| `Breaker.ProviderBreaker.Perform` | src/breaker.rs:180-246 | any operations of other callers leave exactly the history they amount to, probes only where one is due, and every circuit fits it |
| `Breaker.DecidesAsAsked` | src/breaker.rs:253-269 | the decision is that of the later history, except exactly when the circuit closed between the two sections and the fleet agrees |
| `Breaker.RefuseThoughClosed` | src/breaker.rs:253-269 | on every breaker whose circuit is open a success between the two sections closes it and the dispatch is refused, though the history it leaves allows one |
| `Breaker.ProviderBreaker.Observe` | src/breaker.rs:272-286 | exactly one outcome is recorded, a success or a failure that is eligible exactly for transport errors and the statuses 500, 502, 503, 504 and 529, and a shared view hears that the target is healthy exactly when it is not such a failure |
| `Breaker.ProbesAlternate` | src/breaker.rs:180-246 | between two admitted probes of a target an outcome of that target was recorded |
| `Breaker.Independent` | src/breaker.rs:206-246 | a target's circuit is decided by its own events |
| `Fallback.Chain.Dispatch` | src/fallback.rs:161-166 | the breaker hears of exactly the outcomes that concern health, and its history grows by exactly those, the probes and what other callers did |
| `Fallback.Chain.Once` | src/fallback.rs:149-275 | one attempt asks the breaker, whose answer is what its history decides, and dispatches only if it grants; its outcome, recorded in the trace, alone decides whether the chain returns, moves on or counts a refusal, by the cases `FallbackMeaning.OutcomeMeaning` spells out |
| `Fallback.Chain.Try` | src/fallback.rs:144-276 | one entry is tried again exactly while the breaker grants it, the failure is retryable and retries are left, after waits that double, and its last attempt decides what comes next |
| `Fallback.Chain.Run` | src/fallback.rs:99-285 | the whole chain over a shared breaker: each entry's attempts and their outcomes are exactly those the world gives up to the first that is not retried, every resolved entry tried unless its provider was refused, and unless an outcome ended it the limit error of the last refusal exactly when no later entry resolved to an unrefused provider |
| `Fallback.LawfulMeaning` | src/fallback.rs:144-276 | each dispatch directly follows a granted admission of that entry and provider, none goes to a provider refused for a limit, and nothing follows an outcome that ends the chain |
| `FallbackMeaning.OutcomeMeaning` | src/fallback.rs:51-275 | outcome by outcome: a completion returns its value, a logical timeout, another refusal, a failed observation and a local timeout that is not retryable end the chain with that failure, a provider's limit refuses it, all others move on; and only retryable upstream failures are tried again |
| `FallbackMeaning.WaitsDouble` | src/fallback.rs:142-190 | the first wait is the configured one and each later one twice the one before |
| `FallbackMeaning.NothingAfterTheEnd` | src/fallback.rs:168-275 | after a completion, a logical timeout, a refusal that is no provider limit, a failed observation or a local timeout that is not retryable, nobody is asked, nothing dispatched and nothing waited for |
| `FallbackMeaning.ToldMeaning` | src/fallback.rs:161-166 | the breaker hears of completions as healthy and of upstream failures with their error, of nothing else, and before anything else is asked or waited for |
| `FallbackMeaning.RunChain` | src/fallback.rs:99-285 | every dispatch goes to the provider its entry resolved to; the outcome that ends the chain is its answer; without one every resolved entry was asked unless its provider was refused, and the answer is the last refusal's limit error exactly when no later entry excuses it, or that all failed |
| `Fallback.OpenGrantsOnlyProbes` | src/fallback.rs:144-158 | once a provider's circuit is open, and until a success of it is recorded, an attempt is granted exactly as the one due probe, whatever other callers do |
| `Fallback.NotRetriedPastOpening` | src/fallback.rs:144-158 | after the failure that opened its circuit an entry's next attempt is granted exactly when a cooldown has passed |
| `ToolIds.InsertConsistent` | src/toolcall.rs:79-104 | adding bindings keeps the two maps an inverse pair |
| `ToolIds.ToolCallMap.Insert` | src/toolcall.rs:79-104 | all or nothing: accepted exactly when the id is an owned one, there is a binding, each has a provider, a part and a scope, and no other call has a binding that names the same thing on the wire; then every binding leads back to its call and nothing already mapped changes |
| `ToolIds.KeyExactly` | src/toolcall.rs:53-61 | two bindings have one key exactly when provider, wire and scope agree and so do their ids, or their parts where neither has one |
| `ToolIds.ToolCallMap.Register` | src/toolcall.rs:71-78 | the owner of a known wire identity, unchanged, or a newly minted call with that one binding |
| `ToolIds.ToolCallMap.ForTarget` | src/toolcall.rs:111-133 | the identity found stays the one found, is made up at most once, from the call's own id, and belongs to that call |
| `ToolIds.FirstStable` | src/toolcall.rs:116-121 | bindings added later never change what a target was given |
| `ToolIds.DistinctCalls` | src/toolcall.rs:111-133 | distinct calls never resolve to the same wire key for one target |
| `ToolHistory.AcceptedExactly` | src/toolcall.rs:380-435 | the automaton accepts exactly the sound histories |
| `ToolHistory.ValidateHistory` | src/toolcall.rs:380-435 | the loop accepts exactly the histories whose calls are answered before the next turn and the end, with no unmatched answer, no id pending twice and no reuse by owned or mapped calls |
| `ToolHistory.EqualCounts` | src/toolcall.rs:380-435 | sound histories have as many answers as calls |
| `ToolReplay.AwaitingIsLatest` | src/toolcall.rs:486-591 | even where ids repeat across turns the call that awaits an answer is the latest of its id |
| `ToolReplay.Identify` | src/toolcall.rs:490-536 | a call's identity carries its name, its order and a wire identity of the target; a persisted call keeps its id and the identity its mapping has; and it is had exactly when the target accepts the call and its mapping can be added, or it has none and one can be made up |
| `ToolReplay.Rewrite` | src/toolcall.rs:486-591 | each answer gets the identity, and so the wire id, name and order, of exactly the call it answers; with a new scope a call's identity is its mapping's first for the target, or made up from its id, or without a mapping a minted id with the id it came with; and a history is refused exactly when a call does not fit the target, two mapped calls claim one wire identity or an answer names another function |
| `ToolReplay.RewritableExactly` | src/toolcall.rs:490-517 | at each call the map built so far decides exactly what the history alone says: whether the call fits and no earlier mapped call claims its wire identities |
| `ToolReplay.KeyIsNew` | src/toolcall.rs:505-517 | the identity made up for a call that has none is not any earlier call's |
| `ToolWire.SoundAsSent` | src/toolcall.rs:486-591 | a history that is sound, as it stands or with its turns joined, is sound in the same way by the ids it goes out under, exactly when none of those is empty and no two calls go out under one id unless the first was answered in between and the id is not an owned one |
| `ToolWire.PlainIsClear` | src/toolcall.rs:505-517 | histories of calls that never saw an owned id meet that condition for every target |
| `ToolWire.Send` | src/toolcall.rs:475-668 | on every wire but Gemini: validated, rewritten and validated again; refused at the second look exactly when it was prepared and its ids clash, so that whatever is sent is sound except without a second look, and histories of plain calls are always sent and sound |
| `ToolWire.SendClash` | src/toolcall.rs:475-668 | for every target but those on the Gemini wire a sound history whose rewriting succeeds and which is refused at the second look, or sent and not sound where there is none |
| `ToolReplay.DistinctOrders` | src/toolcall.rs:577-589 | distinct answers have distinct call orders |
| `ToolReplay.JoinTurns` | src/toolcall.rs:438-471 | consecutive assistant items are joined into one turn, calls and answers untouched |
| `ToolReplay.JoinedSound` | src/toolcall.rs:438-471 | joining accepts every sound history, and nothing whose calls and answers do not pair up |
| `ToolOrder.SortRuns` | src/toolcall.rs:592-609 | only whole maximal runs of answers are permuted, each is left in the order `ToolOrder.RunInCallOrder` speaks of, and everything else stays in place |
| `ToolOrder.RunInCallOrder` | src/toolcall.rs:577-609 | of two answers in one run the earlier answers a call made at an earlier place of the history, and its order is strictly smaller |
| `ToolOrder.PrepareRequest` | src/toolcall.rs:475-611 | leaves the identified history, on the Gemini wire with the answers of each run in the order of the places where their calls were made, and fails exactly when the history is not sound, cannot be rewritten or has an answer that names another function |
| `Cache.TrimKeepsTheLast` | src/cache.rs:171-179 | trimming leaves exactly the last `limit` markers in document order |
| `Cache.Trim` | src/cache.rs:171-179 | the loop removes exactly the markers before those |
| `Cache.SpotInside` | src/cache.rs:247-290 | a place anchors one message only, the one it stands in; which place that is is in `CacheMeaning.AnchorExactly` |
| `Cache.PlaceBoundary` | src/cache.rs:222-243 | one boundary is placed as a full recount would decide, and the running count stays equal to the recount; what that leaves at each place is in `CacheMeaning.AnchorsMarked` and `CacheMeaning.OthersKept` |
| `Cache.PrepareRequest` | src/cache.rs:200-245 | the loop with its own counter leaves what the recounting placement leaves, place by place as `CacheMeaning.Prepare` says; out of range or unreadable policies fail and absent ones change nothing |
| `Cache.PrepareIsIdempotent` | src/cache.rs:200-245 | a prepared request holds at most `limit` markers and preparing it again changes nothing |
| `Cache.LatestFirst` | src/cache.rs:222-243 | a boundary goes without a new marker only if every earlier one does too |
| `CacheMeaning.AnchorExactly` | src/cache.rs:262-290 | the anchor of a message is the message itself for a tool result, the last call of an assistant that has one, and otherwise the last content, by the places of the request |
| `CacheMeaning.TrimMeaning` | src/cache.rs:171-179 | a marker stays exactly when no more than `limit` of them stand from it to the end, and nothing else changes |
| `CacheMeaning.BoundariesMeaning` | src/cache.rs:208-221 | the boundary of a message is the one the last segment for it names |
| `CacheMeaning.AnchorsMarked` | src/cache.rs:222-243 | the anchor of a message with a boundary has the boundary's lifetime, an hour for static and five minutes for session where lifetimes are supported, if it can take a marker, unless it had none and the budget is spent |
| `CacheMeaning.OthersKept` | src/cache.rs:222-243 | every other place is as trimming leaves it |
| `CacheMeaning.LaterFirst` | src/cache.rs:222-243 | a new marker on an earlier anchor means one on every later anchor that can take one |
| `CacheMeaning.Prepare` | src/cache.rs:200-245 | fails exactly when the policy is unreadable or a segment ends past the messages there are, changes nothing without segments, and otherwise leaves at most `limit` markers |
| `Cache.FinishRequest` | src/cache.rs:314-342 | the body is trimmed, and accepted exactly when no one-hour marker that is left follows a shorter one |
| `CacheMeaning.Finish` | src/cache.rs:314-342 | every place is kept or loses its marker exactly as counted from the end, and the body is accepted exactly when no marker of an hour that stays follows one that is not |
| `Generations.EveryRunIsValid` | src/redis_operation.rs:24-85 | over every interleaving the creation lock has one holder, addresses in use name one generation, and nothing retired is current |
| `Generations.PublishOverwritesNothing` | src/redis_operation.rs:28-37 | publishing never overwrites a live generation |
| `Generations.RetireHitsItsOwn` | src/redis_operation.rs:61-85 | retiring by address removes the caller's own generation and never a newer one |
| `Generations.CacheTurns` | src/redis_operation.rs:24-85 | only publishing caches a generation and only its own failing caller takes it away; an operation that succeeds leaves it, and a call that finds one shares it |
| `Generations.StaysCached` | src/redis_operation.rs:24-85 | over every run a cached generation stays cached until a caller that runs on it fails or is cancelled |
| `Generations.RetiredForGood` | src/redis_operation.rs:24-38 | a retired generation is never returned by a call that begins later, nor current again |
| `Generations.AddressesRepeat` | src/redis_operation.rs:61-69 | the address of a retired generation can be that of a later one |
| `EagerStream.ReceiverSees` | src/client.rs:1580-1602 | in every interleaving the receiver yields the sent chunks in order, then the terminal error once if there is one, then the end for ever, and nothing but chunks before the sender is gone |
| `EagerStream.ReceiverSeesTheRun` | src/client.rs:1580-1793 | every poll yields: first the chunks that were offered and delivered, as offered and in that order, then the one error the producer stopped with, then the end for ever |
| `EagerStream.IdleIsTheSources` | src/client.rs:1658-1695 | with a clock that every step may advance, a polling producer can idle out exactly when the clock time it spent waiting for the source since the last frame that was not blank reaches the allowance |
| `EagerStream.RunIsClocked` | src/client.rs:1658-1695 | over every run the start of the poll and what is left of the allowance, which are all the code keeps, stand for the source's own share of the clock |
| `EagerStream.TimeIsShared` | src/client.rs:1658-1793 | the clock's whole time is split among waiting for the source, waiting for the caller, handling frames and the time after the end |
| `EagerStream.BlockedForAges` | src/client.rs:1790-1793 | a run in which a send is blocked for any length of time and none of the allowance is used |

## Left out

- HTTP execution, TLS, sockets, timers and task scheduling: their outcomes are parameters or actions.
- Provider transforms, the tool-call assembler, reasoning accumulation, schema normalization and bounded JSON parsing: the normalizer takes their results as inputs.
- `src/reasoning.rs`: a branch table over fields, resting on code outside this model.
- The usage dialects of `src/usage.rs` but for the one in which the prompt includes the cache read, which `NativeUsage.Observe` follows: field by field translation; `Chat` and `NativeUsage` start from named counters.
- Catalog lookup and cost tiers: `Cost` prices at one rate list.
- Floating point rounding: money is `real`, so only negative bills, and not non-finite ones, can be refused.
- Parsing of `Retry-After`, reset hints and dates, and the clock-seeded random source: the parsed duration and the draw are inputs.
- Minting of ids and of the replay scope: `ToolReplay` takes a supply of owned ids that are distinct and new, and `FreshScope` says that no mapping in the history mentions the scope; the JSON text of a wire key is a datatype.
- BreakerWindow.OpensExactly: for settled times, since for others the queue is not the window; `Breaker.FailureFits` is for all times.
- The fleet's own health state: its answer to an admission is a parameter, and what it is told is the result of `Breaker.ProviderBreaker.Observe`.
- Fallback.Chain.Run: the doubling wait is unbounded, and the error texts and log entries are not modelled; a chain without models takes the request's own, which is one entry.
- Retry.Dispatch.Run: the texts and headers of errors are not modelled, nor is the choice of the HTTP client.
- Normalizer.StreamNormalizer.Push: the Chat wire only, with transforms, tools and projections as inputs; the `[DONE]` line is `Finish`, and on that wire no reasoning is held.
- NativeUsage.NativeStreamUsage.IngestAnthropic: the compact billing copy is not modelled; the observation made from it is an input.
- ToolReplay.Rewrite: contents, error prefixes and signature fields of messages are not modelled; a call refused by the target's signature rules is an input.
- ToolWire.Send: not for Gemini, whose second look matches answers without an id to calls by function name; the other checks on a native body (content order, argument objects) and native overrides of the body are not modelled.
- Cache.PrepareRequest: tool calls are objects, as everywhere else in a request; the text of a marker is its lifetime.
- EagerStream.ReceiverSees: while the receiver is kept; cancellation by dropping it is in `Attempt`.
- The policy's own coordinator, gateway, proxy, CLI, configuration, image, audio and embedding adapters: plumbing or single-branch validation.
