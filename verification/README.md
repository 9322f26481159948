# Models and proofs for mg-transport-core

A Dafny 4.11 model of the parts of mg-transport-core that hold state, interleave goroutines or do
arithmetic on buffers, with proofs of what they are for. `dafny verify dfyconfig.toml` checks all of it.

| file | models |
|---|---|
| `Utf8`, `Json`, `JsonFacts` | the reference for the log encoder: UTF-8 (section 4 of RFC 3629) and a JSON parser (sections 2 to 7 of RFC 8259) |
| `Escaping`, `EncoderCalls`, `EncoderTheorems`, `LogRecord`, `RecordFacts`, `LogEncoder` | the JSON log encoder: the escaper, the comma decision by last byte, namespaces, one line for each entry, and what of the entry stands where in it |
| `MemoryQueue`, `QueueWorkers` | the condition-variable queue as a machine with one step per lock section, and the workers on it |
| `StoreSections`, `StorePool`, `StoreRaces`, `StoreLimits` | the autoscaling store: its lock sections, each operation atomic, all sections interleaved, and which configurations keep which promise |
| `JobChain`, `JobTimer` | the chain of closures that runs jobs in sequence, and the timer's start and stop |
| `StreamId`, `Scopes`, `Markdown` | hex ids in a fixed buffer, deletion from a slice under a range loop, repeated text replacement |
| `ErrorList`, `HealthCounter`, `LoggerFields` | the error list and its message, the health counter with its processor, the logger's `For*` rule |
| `Wrappers`, `Sequences`, `Decimals` | an option type, a fact about concatenation, decimal digits |

Code that changes state in place is a class or works on an array: its methods are proved against
specification functions, and the lemmas are about those. Code that runs concurrently is a state machine
whose steps are the program's lock sections or atomic operations, and the lemmas are about every run.
Closures and contexts are data: a closure is what it captures, a context is an identifier that is
cancelled or not. Clocks, signal order and what user functions do are parameters of the steps.

Some properties fail for some inputs, configurations or schedules. Each of them has the exact condition, and a
run or an input that shows the failure:

- a `Dequeue` can sleep beside an item with nothing left to wake it, one worker stopped and another asleep for
  instance; that never happens iff no context that a call waits under can be cancelled, or all calls wait under
  one context (`NeverStrandsIff`, `StoppedWorkerStrandsAnother`);
- a list of workers can pass `maxNumWorkers`; it never does iff the store starts no workers, does not scale, or
  starts none in `Get` (`MaximumIsKeptIff`, `BoundIsReached`);
- it can pass `maxNumWorkers + numWorkers` as well, by one, iff the store starts workers and its maximum was left
  at zero (`SumIsKeptIff`);
- a worker can outlive `Remove`; none does iff the queue's stop function cancels the queue's context, the store
  starts no workers or does not scale (`RemoveIsFinalIff`, `LateWorkerSurvives`);
- `stopWorker` can leave a stored queue without a live worker; it never does iff the store starts no workers,
  does not scale, or has `numWorkers` 0 and `maxNumWorkers` 1 (`WorkersAreLeftIff`, `StopStarvesQueue`);
- the free slots can be negative; they never are iff the store starts no workers or begins with no more than
  `maxNumWorkers` (`FreeSlotsNeverNegativeIff`);
- `run` and `stop` of a job can leave two loops, or a stop that blocks for good; they do iff a check went
  stale before its act (`RunMatchedIff`);
- a `run` can start nothing; it starts a loop iff the job was regular and not active at its check
  (`RunStartsLoopIff`, `RunAfterStopIsLost`);
- `checkScopes` can be wrong for required lists with repeats; it is right whatever is granted iff there are no
  repeats, or the list is two or three copies of one scope (`CheckIsRightIff`, `RepeatsGoWrong`);
- a failure of a counter can stay untold; a run keeps the marks honest iff no notification in it comes after its
  failure has ended and no success ends a failure between notification and mark (`MarksAreHonestIff`,
  `UntoldFailureIsToldIff`, `SecondFailureGoesUnnoticed`, `EmptyNotification`);
- text that is quoted without escaping reads back as itself iff escaping would not have changed it
  (`VerbatimIsFaithfulIff`).

Where the code and its comments differ, the model follows the code:

- a job's ErrorHandler is called after the callback whether or not the callback returned an error
  (`core/job_manager.go:82-87`, against lines 18-19);
- `addWorker` can exceed `maxNumWorkers` (`core/queue/store.go:184-221`, against line 18), and `stopWorker` can stop
  the last live worker of a queue (`core/queue/store.go:225-251`, against lines 18 and 224);
- a worker does not retry a job (`core/queue/worker.go:42-65`, against line 21);
- `ForHandler` replaces the field only right after another `ForHandler` (`core/logger/default.go:82-94`);
  `With` is not the only call that comes between: `ForConnection` and `ForAccount` do so too;
- `ReplaceMarkdownSymbols` escapes and removes nothing (`core/util/utils.go:285-292`);
- the error list is not immutable (`core/util/errorutil/err_list.go:20-45`).

## Model

| member | source | states |
|---|---|---|
| Escaping.EscapeReads | core/logger/json_with_context_encoder.go:570-644 | a JSON parser reads the escaped text, exactly to the closing quotation mark, as the input with every byte that is invalid UTF-8 replaced by U+FFFD; so no raw quotation mark is inside |
| Escaping.EscapeIsLossless | core/logger/json_with_context_encoder.go:570-644 | for every sequence of Unicode scalar values, escaping its UTF-8 and reading that back is the identity |
| Escaping.EscapeIsBounded | core/logger/json_with_context_encoder.go:570-644 | at most six bytes come out for each byte, and none of them is a control byte |
| Escaping.EscapeUnitIsShort | core/logger/json_with_context_encoder.go:595-636 | valid text that need not be escaped stands for itself, the five bytes with a short escape get it, all other control bytes and invalid bytes take six |
| Escaping.HexDigitIsLower | core/logger/json_with_context_encoder.go:634-635 | hex digits in escapes, and in stream ids, have small letters |
| Escaping.EscapeIsInjective | core/logger/json_with_context_encoder.go:570-644 | inputs with one escaped text decode alike, and valid ones are equal |
| Escaping.VerbatimIsFaithfulIff | core/logger/json_with_context_encoder.go:272-288 | text that is only put between quotation marks (complex numbers, time layouts at lines 324-329) reads back as itself iff escaping would not change it |
| Utf8.DecodeRuneOfEncode | core/logger/json_with_context_encoder.go:595-611 | the decoder that the escaper steps by inverts the UTF-8 encoding of every scalar value, whatever follows |
| Utf8.EncodeOfDecodeRune | core/logger/json_with_context_encoder.go:595-611 | what it decodes from a well-formed sequence encodes to those very bytes |
| Utf8.InvalidIsReplaced | core/logger/json_with_context_encoder.go:595-611 | a byte that begins no valid sequence is replaced by U+FFFD alone, and decoding goes on right behind it |
| Utf8.ValidIsEncoded | core/logger/json_with_context_encoder.go:595-611 | valid text is the encoding of what it decodes to |
| EncoderTheorems.ValReads | core/logger/json_with_context_encoder.go:235-346 | the text of any value, nested arrays and objects with open namespaces included, reads as the value meant and leaves exactly what follows; an integer's text has that integer's value |
| EncoderTheorems.CallsRead | core/logger/json_with_context_encoder.go:214-255 | any list of calls reads as the members meant: what is added after OpenNamespace is inside that namespace, what comes after the owed braces is outside |
| EncoderTheorems.LastByteIsPosition | core/logger/json_with_context_encoder.go:505-530 | after any calls, spaced or not and whatever bytes keys and strings hold, the last byte is one after which no comma is written iff the next key is the first of its object |
| EncoderTheorems.CallTextEnds | core/logger/json_with_context_encoder.go:516-530 | after one call the next key is first iff the call opened a namespace; a failed reflection leaves the buffer as it was |
| Decimals.ReadIntOfText | core/logger/json_with_context_encoder.go:302-305 | read as a minus sign and base-10 digits, the text of every integer gives that integer back |
| Decimals.IntTextIsInjective | core/logger/json_with_context_encoder.go:302-305 | so two integers never share a text |
| EncoderTheorems.IntTextIsNumber | core/logger/json_with_context_encoder.go:302-305 | the digits written for an integer are a JSON number |
| LogRecord.LineParses | core/logger/json_with_context_encoder.go:388-458 | print, then parse: for every context, entry and field list the line reads as one object, the record meant, and the parser stops right before the line ending |
| LogRecord.LineIsDocument | core/logger/json_with_context_encoder.go:388-458 | without a line ending the line is a whole JSON text with that value |
| LogRecord.ContextMapHoldsLast | core/logger/json_with_context_encoder.go:460-492 | every field that is not a routing field is in the context under its key, the last one of a key giving the value |
| LogRecord.ContextMapHoldsOnly | core/logger/json_with_context_encoder.go:460-492 | every key of the context comes from such a field |
| RecordFacts.ScalarsRead | core/logger/json_with_context_encoder.go:257-346 | booleans, strings and integers read back as that boolean, the string decoded, and a number with that value |
| RecordFacts.FloatsRead | core/logger/json_with_context_encoder.go:532-547 | the floats without a JSON number read as "NaN", "+Inf" and "-Inf", the others as their spelling |
| RecordFacts.CustomReads | core/logger/json_with_context_encoder.go:290-300 | what a user encoder appended is read, and its fallback iff it appended nothing |
| RecordFacts.SpacedIsLonger | core/logger/json_with_context_encoder.go:505-530 | a spaced encoder writes exactly one byte more for each key and each comma |
| RecordFacts.MembersAre | core/logger/json_with_context_encoder.go:204-218 | each call comes to one member with its key and value, a failed reflection to none, a namespace to one that holds all that comes later |
| RecordFacts.RecordHolds | core/logger/json_with_context_encoder.go:388-458 | the record is level, time, name, caller, function and message, each under its configured key and only under the source's conditions, then context and fields, then the stack trace outside of all namespaces |
| RecordFacts.RoutingSplits | core/logger/json_with_context_encoder.go:463-466 | exactly the fields called "handler", "connection", "account" and "streamId" are added themselves, where they stand |
| RecordFacts.ContextHolds | core/logger/json_with_context_encoder.go:467-487 | what any other field puts into the context, by its interface, string and integer in this order |
| RecordFacts.FieldsAre | core/logger/json_with_context_encoder.go:460-492 | the other fields come to one member "context", or "contextError" if it cannot be encoded, and to none if there are none |
| LogEncoder.JsonEncoder.SafeAppend | core/logger/json_with_context_encoder.go:570-644 | the chunk-copying loop terminates and appends the unit-by-unit escape |
| LogEncoder.JsonEncoder.AddElementSeparator | core/logger/json_with_context_encoder.go:516-530 | appends the comma, and the space, that the position of the last byte calls for |
| LogEncoder.JsonEncoder.AddKey | core/logger/json_with_context_encoder.go:505-514 | appends separator, quoted key and colon |
| LogEncoder.JsonEncoder.AppendArray | core/logger/json_with_context_encoder.go:235-241 | appends the array's text as laid out by structure, at any position |
| LogEncoder.JsonEncoder.AppendObject | core/logger/json_with_context_encoder.go:243-255 | appends the object's text with exactly its own namespaces closed, and restores the braces owed outside |
| LogEncoder.JsonEncoder.AppendFloat | core/logger/json_with_context_encoder.go:532-547 | not-a-number and the infinities become strings, other floats their spelling |
| LogEncoder.JsonEncoder.AppendCustom | core/logger/json_with_context_encoder.go:290-300 | a user encoder that appends nothing is replaced by the fallback, one that appends a value is not (also lines 331-341 and 392-438) |
| LogEncoder.JsonEncoder.AddReflected | core/logger/json_with_context_encoder.go:204-212 | a failed reflection adds neither key nor value and returns its error |
| LogEncoder.JsonEncoder.AddContext | core/logger/json_with_context_encoder.go:489-491 | the context value under its key, or, if it cannot be encoded, zap's error under "contextError" |
| LogEncoder.JsonEncoder.Open | core/logger/json_with_context_encoder.go:214-218 | one more brace is owed, and the text is a key with an open object |
| LogEncoder.JsonEncoder.CloseOpenNamespaces | core/logger/json_with_context_encoder.go:498-503 | as many closing braces as were owed, none owed afterwards |
| LogEncoder.JsonEncoder.AskContext | core/logger/json_with_context_encoder.go:125-233 | every call keeps the context buffer the text of all calls so far and the counter their open namespaces |
| LogEncoder.JsonEncoder.Clone | core/logger/json_with_context_encoder.go:373-386 | a copy with the same buffer, namespaces and history, sharing nothing |
| LogEncoder.JsonEncoder.AddFields | core/logger/json_with_context_encoder.go:460-492 | routing fields are added in order, the others in one object under "context", only if there are any |
| LogEncoder.JsonEncoder.EncodeEntry | core/logger/json_with_context_encoder.go:388-458 | the line for any reachable context is one JSON object that parses to the record meant, and then the line ending |
| MemoryQueue.FirstInFirstOut | core/queue/memory.go:58-117 | over every interleaving, items handed out followed by items queued are the items accepted, in order, and size is the number queued |
| MemoryQueue.OfferedInOrder | core/queue/memory.go:58-117 | over every interleaving, items handed out followed by items queued are the items of the Enqueue calls before the first stop, in order, read off the run alone |
| MemoryQueue.RunConserves | core/queue/memory.go:58-117 | every run keeps that, and that each item taken is the result of one call and of no other |
| MemoryQueue.NothingAfterStop | core/queue/memory.go:144-149 | after stop nothing is accepted, and no caller sleeps or falls asleep |
| MemoryQueue.RunOutcome | core/queue/memory.go:97-117 | a caller with the lock gets the oldest item iff there is one and its context is not cancelled, stopped queue or not; Canceled iff the queue is stopped and empty; otherwise nothing is removed |
| MemoryQueue.NeverStrandsIff | core/queue/memory.go:79-117 | over all runs in which calls wait under some contexts and some contexts may be cancelled at any moment, no caller is ever left asleep beside an item with nothing to wake it iff no context is both or all calls wait under one |
| MemoryQueue.CanceledMeansDrained | core/queue/memory.go:97-101 | in every state of a run in which a call was told Canceled, everything accepted has been handed out |
| MemoryQueue.RunKeepsWakeups | core/queue/memory.go:79-117 | every run in which no context is cancelled before the watchers of the calls under it are in place keeps the no-lost-wakeup invariant |
| MemoryQueue.NoLostWakeupForPlainDequeue | core/queue/memory.go:74-104 | with callers of Dequeue only, in every reachable state in which somebody sleeps there are no more items than awakened callers that have not run |
| MemoryQueue.PromptRunsNeverStrand | core/queue/memory.go:79-117 | no such run reaches a state with a sleeper, an item and nobody left to wake it |
| MemoryQueue.CancelledCallerStrandsAnother | core/queue/memory.go:105-112 | for every context that can be cancelled and every other one, a run in which the early return of a signalled caller, cancelled under the first, leaves one under the second asleep beside an item, with nothing left to wake it |
| MemoryQueue.StoppedWorkerStrandsAnother | core/queue/worker.go:36-45 | that run for two workers of a queue, each under its own child of the queue's context |
| MemoryQueue.Memory.Enqueue | core/queue/memory.go:58-71 | the method is the machine's step, with the sleeper it signals, and keeps the time of the last item accepted |
| MemoryQueue.Memory.Dequeue | core/queue/memory.go:79-117 | from taking the lock to returning or waiting, the method is the machine's step |
| MemoryQueue.Memory.Stop | core/queue/memory.go:144-149 | the method is the machine's step: all sleepers are awakened |
| MemoryQueue.Memory.Len | core/queue/memory.go:139-141 | the counter is the number of items accepted and not handed out |
| QueueWorkers.ExactlyOnce | core/queue/worker.go:29-66 | in every run, each item a worker's call took reaches the processor once, with that worker; every panic is recovered with its job before the worker goes on; an ended worker has called each cancel callback once |
| QueueWorkers.EveryRunIsGood | core/queue/worker.go:29-66 | the invariant behind that, over every interleaving of workers, enqueuers, other callers and cancellations |
| QueueWorkers.WorkersEndOnlyWhenTold | core/queue/worker.go:42-56 | in every run, a worker has ended only if its context is cancelled or its queue is stopped |
| QueueWorkers.WorkerGoesOn | core/queue/worker.go:58-65 | after a job, and after the recover function if it panicked, a worker is back at the head of its loop with its context and callbacks |
| QueueWorkers.SpawnedForGood | core/queue/worker.go:23-33 | a worker keeps the context and the callbacks it was started with |
| QueueWorkers.CancelledWorkerTakesNothing | core/queue/memory.go:95-116 | a worker whose context is cancelled when it gets the lock takes no job, whatever is queued |
| StorePool.EveryRunKeepsPool | core/queue/store.go:166-308 | with atomic operations, in every run an id is stored iff it has a stop list, which holds 1 to maxNumWorkers distinct contexts, exactly those of the live workers of its queue |
| StorePool.RemoveKeepsPool | core/queue/store.go:270-290 | Remove keeps that and leaves no live worker of the removed queue |
| StorePool.EveryStoreIsPool | core/queue/store.go:46-308 | so does every run from the empty store |
| StorePool.SlotsAddUp | core/queue/store.go:254-266 | free and active slots add up to maxNumWorkers, none negative, and the active ones are the queue's live workers |
| StorePool.GetStarts | core/queue/store.go:91-109 | a Get of a stored id changes nothing; any other stores a new queue with exactly numWorkers live workers |
| StorePool.RemoveRemoves | core/queue/store.go:112-118 | after a Remove the id is not stored and its queue has no live worker |
| StorePool.AddWorkerAdds | core/queue/store.go:184-221 | where stores scale, addWorker gives a stored queue one more live worker, one not started before, iff it had fewer than maxNumWorkers, and else changes nothing |
| StorePool.StopWorkerStops | core/queue/store.go:225-251 | where stores scale, stopWorker takes one live worker from a stored queue iff it had at least two, and else changes nothing |
| StorePool.OutsideNothingChanges | core/queue/store.go:184-251 | where numWorkers is maxNumWorkers, and for ids that are not stored, both do nothing |
| StorePool.NoConstructorNoWorkers | core/queue/store.go:293-297 | without a worker constructor queues are stored and no operation starts a worker |
| StorePool.OthersAreLeftAlone | core/queue/store.go:91-308 | no operation touches the queue, the list or the live workers of another id |
| StorePool.FreeSlotsNeverNegativeIff | core/queue/store.go:254-266 | over all runs from the empty store the free slots are never negative iff no workers are started or numWorkers is at most maxNumWorkers; the defaults with a worker constructor, one and zero, are outside |
| StorePool.Store.Get | core/queue/store.go:91-109 | returns the stored queue, constructing it with numWorkers workers if it was missing, and keeps the pool |
| StorePool.Store.SpawnWorkers | core/queue/store.go:293-308 | the loop starts numWorkers workers and registers exactly those |
| StorePool.Store.AddStoppersTo | core/queue/store.go:166-181 | joins an existing list, or starts one |
| StorePool.Store.Remove | core/queue/store.go:112-118 | every worker of the removed queue has a cancelled context, and the pool is kept |
| StorePool.Store.AddWorker | core/queue/store.go:184-221 | one more live worker, unless that passes the maximum or scaling is off |
| StorePool.Store.StopWorker | core/queue/store.go:225-251 | takes the last worker off the list and cancels it, but never the only one; the pool is kept |
| StorePool.Store.SlotInfo | core/queue/store.go:254-266 | the slots as reported, which add up whenever the pool is kept |
| StoreRaces.RemovedWorkersAreCancelled | core/queue/store.go:91-118 | for every configuration and however the lock sections interleave: where the queue's stop function cancels its context, every worker ever started on a queue is cancelled once a Remove of it has returned; and no list exceeds numWorkers plus the larger of maxNumWorkers and one |
| StoreRaces.RunSafe | core/queue/store.go:166-308 | the invariant behind that, for any number of overlapping Get, Remove, addWorker and stopWorker calls |
| StoreRaces.GetAlone | core/queue/store.go:91-109 | the sections of a Get that nobody interrupts are the atomic Get, for every store and id |
| StoreRaces.RemoveAlone | core/queue/store.go:112-118 | the same for Remove, of ids that are not stored too |
| StoreRaces.AddAlone | core/queue/store.go:184-221 | the same for addWorker, its early returns included |
| StoreRaces.StopAlone | core/queue/store.go:225-251 | the same for stopWorker, its early returns included |
| StoreLimits.BoundIsReached | core/queue/store.go:166-221 | for every store that starts workers and scales some run reaches numWorkers plus the larger of maxNumWorkers and one |
| StoreLimits.MaximumIsKeptIff | core/queue/store.go:184-221 | for every configuration: over all interleavings no list exceeds maxNumWorkers iff no workers are started, numWorkers equals maxNumWorkers, or numWorkers is zero |
| StoreLimits.SumIsKeptIff | core/queue/store.go:166-221 | for every configuration: over all interleavings no list exceeds maxNumWorkers + numWorkers iff maxNumWorkers is not zero, numWorkers is, or no workers are started |
| StoreLimits.RemoveIsFinalIff | core/queue/store.go:270-290 | for every configuration: over all interleavings every worker of a removed queue is cancelled once the Remove has returned iff the stop function cancels the queue's context, no workers are started, or numWorkers equals maxNumWorkers |
| StoreLimits.RunFirm | core/queue/store.go:91-308 | the invariant behind the last case: every worker that is not cancelled is in the list of its stored queue or in the hands of the Get or Remove that has the lock |
| StoreLimits.LateWorkerSurvives | core/queue/store.go:184-206 | the run that shows the only-if: an addWorker held up between its lookup and its lock starts a worker that outlives the Remove |
| StoreLimits.WorkersAreLeftIff | core/queue/store.go:225-251 | for every configuration: over all interleavings a stored queue that ever had a worker has a live one whenever no call is under way iff no workers are started, numWorkers equals maxNumWorkers, or they are zero and one |
| StoreLimits.StopStarvesQueue | core/queue/store.go:225-251 | the run that shows the only-if: a late addWorker's worker of a removed queue heads the new queue's list, and stopWorker spares that one |
| JobChain.BuildChain | core/job_manager.go:278-305 | the countdown loop builds the chain of closures for positions 1 to n - 1 |
| JobChain.RunJobsOnceSequentially | core/job_manager.go:278-307 | launches the first job with that chain; an error, with that name, iff there are names and the first is not registered |
| JobChain.ChainRunsForward | core/job_manager.go:69-89 | under every interleaving of the goroutines the jobs that ran are a prefix of the forward interpreter's, and at the end exactly those, once and in order, with its calls of ErrorHandler and PanicHandler |
| JobChain.RunsLongestPrefix | core/job_manager.go:278-307 | the jobs that run are the longest prefix of the names that ends with the first panic, stopping error or failing handler, or before the first name that is not registered |
| JobChain.FirstRunsIff | core/job_manager.go:263-307 | the first job runs iff there is a name and it is registered |
| JobChain.NextRunsIff | core/job_manager.go:289-303 | after a job that runs the next one does iff there is a name, it is registered, and the job succeeded, or failed without stopOnError and without a panic of its ErrorHandler |
| JobChain.HandlerGetsOwnError | core/job_manager.go:77-88 | a failing job's ErrorHandler is called with its error first, and once more iff stopOnError ends a chain there |
| JobChain.HandlerGetsNotFoundIff | core/job_manager.go:82-87 | it is called with a lookup error iff the job hands over to a name that is not registered, and with that name |
| JobChain.PanicHandlerCalledIff | core/job_manager.go:71-75 | the PanicHandler, if set, is called iff the Command panics or the ErrorHandler does on one of its calls; that is the last call and the only one of its kind |
| JobChain.HandlerGetsNilIff | core/job_manager.go:82-87 | a job that has an ErrorHandler gets it called with nil iff the job is not the last that runs |
| JobChain.EveryRunEnds | core/job_manager.go:140-142 | no interleaving takes more than five steps for each name |
| JobChain.UnfinishedGoesOn | core/job_manager.go:69-89 | while a goroutine has not ended some goroutine can take a step |
| JobTimer.RunMatchedIff | core/job_manager.go:106-137 | over all interleavings, a run ends with one live loop when active and none otherwise, and stopChannel that loop's, iff no check in it went stale before its act |
| JobTimer.SerialisedCallersKeepOneLoop | core/job_manager.go:92-137 | callers that let each run and stop finish before the next always have that |
| JobTimer.OrphanRunsForever | core/job_manager.go:92-104 | a loop that is not the stop channel's keeps running whatever is called |
| JobTimer.StuckForever | core/job_manager.go:123-137 | a stop that sends to a loop that has returned keeps the write lock, and no later call of the job ends |
| JobTimer.RunAlone | core/job_manager.go:106-120 | an uninterrupted run starts one loop, with a channel of its own, iff the job is regular and not active, and else changes nothing |
| JobTimer.StopAlone | core/job_manager.go:123-137 | a stop of an active job, with the tick it waits for, leaves no loop and an inactive job |
| JobTimer.StopOfInactive | core/job_manager.go:123-137 | a stop of a job that is not active does nothing |
| JobTimer.TickRunsJob | core/job_manager.go:92-104 | a tick that no stop waits for runs the job once |
| JobTimer.StoppedJobRunsNoMore | core/job_manager.go:92-137 | without loops and runs under way the job does not run again until there is a new run |
| JobTimer.DoubleRunDoublesTheLoop | core/job_manager.go:106-120 | two runs that check before either acts leave two loops |
| JobTimer.DoubleStopBlocksForGood | core/job_manager.go:123-137 | two stops that check before either acts leave such a stop |
| JobTimer.RunStartsLoopIff | core/job_manager.go:106-120 | over all interleavings a run that is done has started a loop iff the job was regular and not active when the run made its check |
| JobTimer.RunAfterStopIsLost | core/job_manager.go:106-137 | a run called after stop returned, before the stop's goroutine acted, starts nothing |
| StreamId.HexEncode | core/logger/stream_id.go:12-28 | for every source and counter the buffer holds the source's digits and the counter's minimal digits, nothing behind them is touched, and the length is 16 to 32 |
| StreamId.WriteBackwards | core/logger/stream_id.go:18-23 | the counter's digits, last digit first, never reach past index 31 |
| StreamId.ReverseFrom16 | core/logger/stream_id.go:24-26 | the swapping loop turns exactly the counter's places around |
| StreamId.Generator.GenerateStreamId | core/logger/stream_id.go:34-44 | advances the counter by one modulo 2^64 and returns the id of the clock's time and that counter |
| StreamId.DecodeOfId | core/logger/stream_id.go:12-44 | a decoder recovers the timestamp and the counter from every id |
| StreamId.TimestampIsTime | core/logger/stream_id.go:34-44 | the decoded timestamp is the clock's time from 1970 on, and its two's complement before |
| StreamId.HexOfNatIsMinimal | core/logger/stream_id.go:18-23 | the counter's digits have no leading zero, and zero has none at all |
| StreamId.IdsEqualIff | core/logger/stream_id.go:12-44 | two ids are equal iff timestamps and counters are |
| StreamId.ConsecutiveIdsDiffer | core/logger/stream_id.go:34-44 | of 2^64 ids generated one after the other no two are equal, whatever the clock does |
| Scopes.Delete | core/util/utils.go:172-182 | the inner loop over the old header, with the shared array shifted under it, leaves what one pass is specified to leave, or panics when that says so |
| Scopes.CheckScopes | core/util/utils.go:168-185 | the whole check is one such pass for each granted scope |
| Scopes.SweepIsRightIff | core/util/utils.go:172-182 | a pass deletes a granted scope as it should iff the list holds it at most once, or never twice in a row and not at the end, or is two or three copies of it |
| Scopes.CheckFindsMissing | core/util/utils.go:168-185 | for every required list without repeats and every granted list the result is the required scopes that are not granted, in order, and nothing panics |
| Scopes.CheckIsRightIff | core/util/utils.go:168-185 | the whole check is right for every granted list iff the required list has no repeats or is two or three copies of one scope |
| Scopes.RepeatsGoWrong | core/util/utils.go:172-182 | required lists with repeats for which a granted scope is kept, a missing scope is lost, or the slicing panics |
| Markdown.ReplaceMarkdownSymbols | core/util/utils.go:286-292 | the loop over the symbols escapes each of them once, and dropping the backslashes before symbols gives the input back |
| Markdown.PassesAreOneIff | core/util/utils.go:286-292 | passes in sequence equal one simultaneous pass on all texts iff no symbol is listed twice and a backslash only as the first |
| Markdown.PassesInAnyOrder | core/util/utils.go:286-292 | the order of the passes does not matter |
| Markdown.UnescapeOfEscape | core/util/utils.go:286-292 | unescaping is a left inverse, on texts with backslashes too |
| Markdown.EscapeIsInjective | core/util/utils.go:286-292 | so different texts stay different |
| ErrorList.ErrList.Push | core/util/errorutil/err_list.go:28-45 | the list stays an acyclic chain from head to tail of length len, with the new error at the end |
| ErrorList.ErrList.Iterate | core/util/errorutil/err_list.go:49-63 | walking the pointers terminates and yields the errors in the order they were pushed |
| ErrorList.ErrList.Len | core/util/errorutil/err_list.go:66-68 | the counter is the number of errors in the chain |
| ErrorList.Collector.Do | core/util/errorutil/err_collector.go:74-84 | exactly the errors that are not nil are pushed, in order |
| ErrorList.Collector.AsError | core/util/errorutil/err_collector.go:99-104 | nil iff no error was collected, else the collector |
| ErrorList.Collector.Error | core/util/errorutil/err_collector.go:129-140 | the message holds a numbered line for each error, without newlines at its end |
| ErrorList.MessageLinesIff | core/util/errorutil/err_collector.go:129-140 | split at newlines the message is one line for each error, numbered from 1, iff no error text or file name has a newline |
| ErrorList.NumberedLine | core/util/errorutil/err_collector.go:134-137 | the digits behind "#" read as the error's position, those behind the file as its line, and the error follows |
| ErrorList.OnlyNewlinesAreCut | core/util/errorutil/err_collector.go:139 | only newlines are cut off the message, and all that end it |
| ErrorList.CollectedSplits | core/util/errorutil/err_collector.go:74-84 | each error comes to one entry with the caller's place, and nil to none |
| HealthCounter.NotificationsAreSeparated | core/healthcheck/processor.go:30-87 | in every run, between two failure notifications a success cleared the first failure, and between two ratio notifications a pass saw the ratio at or above the threshold |
| HealthCounter.NotificationsAreTruthful | core/healthcheck/processor.go:30-87 | in every run, a failure notification carries the message of the last failure, or none if a success has cleared it meanwhile, and totals are reset more than a period apart |
| HealthCounter.EmptyNotification | core/healthcheck/processor.go:31-42 | the run in which a success between check and notification empties the message |
| HealthCounter.TotalsAreHits | core/healthcheck/counter.go:48-66 | in every run the totals are the hits since the last flush, modulo 2^32 |
| HealthCounter.MarksAreHonestIff | core/healthcheck/processor.go:31-48 | in a run that does not end between a notification and its mark, the mark stands for a present failure that was told in every state iff no notification comes after its failure has ended and no success ends a failure between its notification and its mark |
| HealthCounter.UntoldFailureIsToldIff | core/healthcheck/processor.go:31-48 | over every run that leaves an untold failure and no pass under way: the next uninterrupted pass with connection data tells it with its message iff the mark is honest, and so it does if nothing in the run crossed |
| HealthCounter.MutedUntilSuccess | core/healthcheck/processor.go:31-35 | a failure whose mark is already set is never told until the next success |
| HealthCounter.SecondFailureGoesUnnoticed | core/healthcheck/processor.go:42-48 | the run that leads there |
| HealthCounter.PassAlone | core/healthcheck/processor.go:30-87 | a pass that nothing interrupts has the effect and the notification of the sequential processor |
| HealthCounter.GoodPassResets | core/healthcheck/processor.go:63-68 | an uninterrupted pass over enough requests whose successes reach the threshold's share clears the mark and resets both totals iff the period is over |
| HealthCounter.BadPassTells | core/healthcheck/processor.go:70-86 | one whose successes do not reach it tells the drop and sets the mark iff there is connection data and the mark is not set, and else changes nothing |
| HealthCounter.IdlePassChangesNothing | core/healthcheck/processor.go:31-61 | one over too few requests, or over a failure that is marked or has no connection data, changes nothing |
| HealthCounter.BothDropsAreTold | core/healthcheck/processor.go:63-86 | a run with a drop, a recovery and another drop, each seen by a pass, in which both drops are told |
| HealthCounter.JudgedTooFewIff | core/healthcheck/processor.go:54-68 | when the requests are too few, and when the ratio holds |
| HealthCounter.JudgedBadIff | core/healthcheck/processor.go:51-66 | a ratio notification is due iff the 32-bit total reaches the minimum and the successes are below the threshold's share of it, or the total is zero without any success |
| HealthCounter.AtomicCounter.HitSuccess | core/healthcheck/counter.go:48-54 | counts modulo 2^32; clears failure, mark and message iff the counter had failed |
| HealthCounter.AtomicCounter.HitFailure | core/healthcheck/counter.go:56-58 | counts modulo 2^32 and changes nothing else |
| HealthCounter.AtomicCounter.Failed | core/healthcheck/counter.go:68-71 | sets flag and message and leaves the mark as it is |
| HealthCounter.AtomicCounter.FlushCounters | core/healthcheck/counter.go:101-107 | resets both totals iff the period is over |
| HealthCounter.ProcessCounter | core/healthcheck/processor.go:30-87 | the sequential processor, branch by branch, changes the counter and notifies as specified |
| LoggerFields.Default.With | core/logger/default.go:70-72 | appends the fields, and keeps the collapsed form and the parent invariant for the new logger |
| LoggerFields.Default.ForHandler | core/logger/default.go:82-94 | the new logger's fields are the collapsed fields of all calls, its parent's and one more, the last being "handler" with the value |
| LoggerFields.Default.ForConnection | core/logger/default.go:97-109 | the same for connections |
| LoggerFields.Default.ForAccount | core/logger/default.go:112-122 | the same for accounts |
| LoggerFields.AddedFields | core/logger/default.go:70-132 | a call after one of another kind adds its fields behind all others |
| LoggerFields.ReplacedFields | core/logger/default.go:82-132 | a For* call right after one of its kind puts its field in place of that one's |
| LoggerFields.InterruptedForDuplicates | core/logger/default.go:79-94 | two For* calls of one kind leave one field iff nothing is between them, and else two around what is between |

## Left out

- LogEncoder.JsonEncoder.AddReflected: what the reflection-based encoder does with a value is a parameter, a JSON text or an error; that zap reports such an error under the key followed by "Error" is taken from zap.
- LogEncoder.JsonEncoder.AppendFloat: the digits of a finite float are a parameter (any JSON number), because strconv is not part of this model.
- LogEncoder.JsonEncoder.AppendCustom: a user encoder appends nothing or one well-formed value; one that appends anything else is not modelled, nor is a nil caller encoder, which panics.
- LogEncoder.JsonEncoder.EncodeEntry: buffers are byte sequences without pooling, and the error result, always nil, is dropped.
- JSON encoder: truncate, time formats, base64 of AddBinary, and the constructors that read the configuration.
- MemoryQueue.Memory.Enqueue: the clock is a parameter; which sleeper Signal wakes is any one of them.
- MemoryQueue.Memory.Dequeue: the atomic size counter changes inside the lock section, so a reader of Len between the two changes of one section is not modelled.
- QueueWorkers.ExactlyOnce: queues without DequeueContext, panics inside the recover function or a callback, and the two dummy functions.
- StoreRaces.RunSafe: goroutines of performAutoScale are any addWorker and stopWorker calls; their ticker, restart after a panic and end are not modelled, nor are changes of the configuration after the first Get, WithNumWorkers raising the maximum, or negative numbers.
- StorePool.Store.Get: the queue is an identifier; what a worker does is in QueueWorkers.
- JobChain.ChainRunsForward: a panic inside a PanicHandler, which ends the process, and the loggers passed along. The closures share the caller's slice, so the names of a run are what it holds at each lookup.
- JobManager: registering, unregistering (which always returns an error) and updating jobs are map operations; a lookup is an input of the run.
- JobTimer.RunMatchedIff: a tick either stops the loop or runs the job; intervals, tickers and jobs that start or stop themselves are left out, and so is the preference of the lock for writers, which only removes runs.
- StreamId.Generator.GenerateStreamId: the counter's increment and the reading of the clock are one step, and the returned string is a copy of the buffer rather than a view of it.
- ErrorList.ErrList.Iterate: the goroutine and its channel are replaced by the sequence they deliver; pushes during an iteration are not modelled.
- ErrorList.Collector.Do: the caller's position is a parameter, and Panic and String add nothing.
- HealthCounter.PassAlone: the ratio is an exact fraction, not a float; a failed notification is only logged, so its result does not matter; localisation of the text is left out.
- HealthCounter.NotificationsAreSeparated: one pass at a time for each counter, as the interface demands (core/healthcheck/iface.go:67); two that overlap can tell one failure twice.
- HealthCounter.AtomicCounter.HitSuccess: each method is atomic; interleavings between the atomic operations inside one method are not modelled.
- LoggerFields.Default.With: WithLazy adds the same fields later and is not modelled apart; field values are strings; AnyZapFields and the level methods are left out.
- Everything else: HTTP, S3, database, Beanstalk, Sentry, Zabbix, gin, localisation, templates, validation, phone numbers and configuration, which are I/O and calls into libraries.
