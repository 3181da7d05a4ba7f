# Verified models of windowframe's protocols

A Dafny project that models the parts of the toolkit that are protocols, state machines or
printer/parser pairs, and proves what they keep over every run and every input.

- **Processed log of the NATS queue driver** (`ProcessedLog`, `ProcessedLogProofs`,
  `ProcessedLogTheorems`, `ProcessedLogOrder`, `ClaimExpiry`, `NatsConsumer`). Deliveries of a message claim its id in a key-value
  store, mark it there when the handler succeeded, and release it on a nack. The model is one
  global step relation: any number of messages, deliveries and processes, one remote operation
  at a time, each of which may fail with or without being applied; processes crash and keys
  expire. `NatsConsumer` is the code itself, method by method: before each operation any legal
  steps of others may happen, and the method is proved to be a path of the step relation.
- **Consumer pool** (`WorkerPool`) and **delayed jobs** (`RunAt`).
- **Event dispatcher** (`EventDispatch`, `EventProofs`, `EventTheorems`, `EventFlush`, `EventHandlers`):
  dispatchers, workers, drain goroutine, channel closers, `Run`, `Flush` and `Reset`, one step
  of one goroutine at a time.
- **HTTP idempotency** (`Idempotency`, `IdempotencyProofs`, `LockExpiry`, `IdempotentMiddleware`) over its Redis
  store, and the **response recorder** with its replay (`Recorder`).
- **Durations with days as text** (`Text`, `DurationText`, `DurationTheorems`,
  `DurationRoundTrip`, `DurationReading`, `DurationGrammar`), **path parameters** (`PathParams`), **version 7 UUIDs** (`Uuid7`) and the
  **expiring cache** (`ExpiringCache`).

A run is a sequence of actions; `Legal` says that each is enabled when it is taken, `After` gives
the state it leads to. History fields (for example `successes` or `runs`) record what happened and
influence no step, except where an assumption on expiry names them.

Where the code does not do what its documentation says, the model follows the code:

- `AckAttempts` is documented as the number of ack attempts, but the retry is given the constant 3
  (`queue/consumer.go:175-177`).
- The replay of an idempotent request is documented to repeat the recorded status
  (`http/README.md:195-199`); it writes the body first, which commits status 200
  (`Recorder.ReplayFaithful`).
- The result channel is documented to carry one result per listener (`events/README.md:36-38`); a
  listener that panics sends none (`EventTheorems.ClosedChannelIsComplete`).

## Model

| member | source | states |
|---|---|---|
| `ProcessedLogTheorems.RemovalIsJustified` | queue/nats/consumer.go:179-234 | In every run, with any expiry and any crashes, a message is acked or termed only if its id is empty, a handler for its id returned nil, or one of its own deliveries got a skip, dead-letter or no-handler verdict; with the log on, an ack comes after the id was marked processed |
| `ProcessedLogTheorems.OneLiveHolder` | queue/nats/consumer.go:198-234 | While keys expire only when nobody holds them, each id has at most one live claim holder in every reachable state, and its key reads "processing", or "processed" once the holder's mark was applied |
| `ProcessedLogTheorems.NackReleasesOwnClaim` | queue/nats/message.go:55-64 | While keys expire only when nobody holds them, a nack's delete never removes a "processed" key or another delivery's claim |
| `ClaimExpiry.ErasureExactly` | queue/nats/message.go:55-64 | That assumption, exactly: for a non-empty id and from every state of a run that meets it, one arbitrary expiry of the key can lead to a nack's delete that removes "processed" if and only if some holder can still meddle: its handler may still be called or return, or it is about to delete or has a mark left to make |
| `ProcessedLogTheorems.ProcessedIsFinal` | queue/nats/consumer.go:205-219 | While keys expire only when nobody holds them: until it expires itself, "processed" stays, the id is never handed to a worker again and no handler for it returns nil again |
| `ClaimExpiry.FinalityExactly` | queue/nats/consumer.go:205-219 | That assumption, exactly: for a non-empty id, one arbitrary expiry of the key can lead to a "processed" entry that does not stand, before it expires itself, if and only if some holder can still meddle |
| `ProcessedLogTheorems.AtMostOneSuccess` | queue/nats/message.go:36-45 | A handler returns nil at most once per id, over every run with arbitrary failed acks and retries, as long as keys expire neither while a delivery holds them nor after their id succeeded |
| `ClaimExpiry.SecondSuccessExactly` | queue/nats/message.go:36-45 | That assumption, exactly: for a non-empty id and from every state of a run that meets it, one arbitrary expiry of the key can lead to two successes of the id if and only if the id has succeeded, or some holder's handler may still return nil, or some holder is about to delete the key |
| `ProcessedLogTheorems.ExpiryUnderHolderAllowsTwo` | queue/nats/consumer.go:128-133 | Without the first half of the assumption of AtMostOneSuccess: from every reachable state with a holder whose payload decodes and whose handler has not returned, expiry of its key leads to two successes, with no expiry after either |
| `ProcessedLogTheorems.ExpiryAfterSuccessAllowsAnother` | queue/nats/consumer.go:128-133 | Without the second half: from every reachable state without a holder, expiry leads to a run in which the id succeeds once more, though keys never expire under a holder |
| `ProcessedLogTheorems.ExpiryUnderHolderBreaksExclusion` | queue/nats/consumer.go:128-133 | The assumption of OneLiveHolder is needed: from every reachable state with a holder, expiry of its key leads to two live holders |
| `ClaimExpiry.TwoHoldersExactly` | queue/nats/consumer.go:198-234 | Exactly so: for a non-empty id and from every state of a run that meets the assumption of OneLiveHolder, one arbitrary expiry of the key can lead to two live holders if and only if there is one now |
| `ProcessedLogTheorems.StaleClaimBlocks` | queue/nats/consumer.go:205-225 | With any expiry of other keys and any crashes: a claim orphaned by a crash or a lost reply blocks its id until its own key expires; deliveries only nak, nothing is forwarded, no message of the id leaves the broker |
| `ProcessedLogTheorems.UndecodableOnlyNaks` | queue/nats/consumer.go:230-234 | In every run, with any expiry and any crashes: a payload that does not decode is never handed to a worker, given up on or acknowledged, and leaves the broker only for having no id or after its id succeeded elsewhere |
| `ProcessedLogTheorems.NackAllowsRetry` | queue/nats/message.go:55-64 | After a nack whose delete was applied, a redelivery of the very same message can take the claim again |
| `ProcessedLogTheorems.ClaimsOnlyWhenDue` | queue/nats/consumer.go:185-196 | In every run no delivery reads or holds a claim before its message is due, so a premature delivery leaves the log alone |
| `ProcessedLogProofs.StepKeepsJustified` | queue/nats/consumer.go:174-235 | Every step, expiry and crashes included, keeps the invariant behind RemovalIsJustified |
| `ProcessedLogProofs.StepKeepsExclusive` | queue/nats/consumer.go:174-235 | Every step keeps exclusive claims, if keys expire only when nobody holds them |
| `ProcessedLogProofs.StepKeepsSucceededOnce` | queue/consumer.go:161-180 | Every step keeps the invariant behind AtMostOneSuccess |
| `ProcessedLogOrder.EachStepFollows` | queue/nats/consumer.go:174-235 | In every run, each operation of a delivery is the one the code goes on to after its operation before, by what that one found: a table read off the code, independent of the step relation |
| `ProcessedLogOrder.NobodyStopsShort` | queue/consumer.go:139-181 | In every run a delivery fails to acknowledge at most three times; and until it has its verdict, has failed for the third time or has lost its process, a further operation of it is possible |
| `ProcessedLogOrder.ProcessedRedeliveryIsTermed` | queue/nats/consumer.go:205-219 | A redelivery of an id that is marked processed, once its read of the claim works, is termed and nothing else, and the term takes the message away |
| `ProcessedLogOrder.VerdictWorks` | queue/nats/message.go:36-53 | A term or an acknowledgement that reaches the broker makes a pending message termed or acknowledged |
| `ProcessedLogOrder.SettledForGood` | queue/nats/message.go:36-53 | In every run a message that was termed or acknowledged stays so and is never delivered again |
| `NatsConsumer.HandleMessage` | queue/nats/consumer.go:174-235 | Among arbitrary other deliveries: a message without an id is termed, one that is not due is nak'ed, and only otherwise it is claimed; it is forwarded only after a fresh claim and a decode, and otherwise ends in exactly one term or nak |
| `NatsConsumer.ClaimId` | queue/nats/consumer.go:198-228 | One atomic create: unless it fails, the id is claimed exactly if its key is absent at that moment; an id that is taken is read once and turned away, a failed create is nak'ed |
| `NatsConsumer.TurnAway` | queue/nats/consumer.go:214-220 | One read of the claim, then a term exactly if the read worked and the key read "processed" at that moment, and a nak otherwise |
| `NatsConsumer.Message.Ack` | queue/nats/message.go:36-45 | Sends the acknowledgement only after a mark that is known to have worked, and reports success only if both worked |
| `NatsConsumer.Message.Nack` | queue/nats/message.go:57-64 | Deletes the claim if there is a log, whether or not that works, then naks |
| `NatsConsumer.Message.Cancel` | queue/nats/message.go:47-49 | One term, nothing else |
| `NatsConsumer.Message.Deadletter` | queue/nats/message.go:51-53 | One term, nothing else |
| `NatsConsumer.Worker.Handle` | queue/consumer.go:139-181 | Each message is handled by the handler registered last for its task, if any, and gets one kind of verdict, fixed by handler presence and outcome; only an acknowledgement is repeated |
| `NatsConsumer.LastRegistrationWins` | queue/consumer.go:222-227 | Over every history of registrations: a task has a handler exactly if one was ever registered for it, and it is the one registered last |
| `NatsConsumer.Worker.AckWithRetry` | queue/consumer.go:175-178 | At most three acknowledgements, all but the last of them failed |
| `NatsConsumer.OthersLeaveAlone` | queue/consumer.go:110-121 | Whatever legal steps other deliveries and the environment take, a delivery's own position, its message's content and the log setting stay as they are |
| `WorkerPool.BoundedInFlight` | queue/consumer.go:104-133 | In every run at most 3C+1 messages are forwarded and unfinished while the context lives, and 3C+2 once the caller drains |
| `WorkerPool.BoundIsReached` | queue/consumer.go:104-121 | For every number of workers some run has 3C+1 messages in flight, so the bound is exact |
| `WorkerPool.EachSettledOnce` | queue/consumer.go:110-133 | In every run each message is waiting, queued, being handled or settled exactly as often as it was forwarded |
| `WorkerPool.DrainCanBlock` | queue/consumer.go:128-133 | For every number of workers there is a run in which a worker takes a message the drain has counted, and the drain waits with nobody left to send |
| `WorkerPool.StuckForever` | queue/consumer.go:128-133 | Such a drain never ends, whatever happens next |
| `WorkerPool.DrainGoesOn` | queue/consumer.go:128-133 | A drain whose count the channel still covers can always go on, as long as no worker takes a message |
| `WorkerPool.DrainReturnsExactly` | queue/consumer.go:128-133 | From every state of a drain, some run ends with Consume returning if and only if what is left to take is in the channel, waiting to be sent or can still be fetched; otherwise no run does |
| `WorkerPool.DrainBlocksExactly` | queue/consumer.go:110-133 | A drain whose count the channel covers, with something left to take, can come to wait for ever if and only if some worker has not left |
| `RunAt.StampDelay` | queue/nats/producer.go:57-68 | The last delaying option decides the run-at time; the header carries its whole seconds, or is absent for the zero time |
| `RunAt.DelayExactly` | queue/nats/consumer.go:189-196 | A message passes exactly from the whole second of its run-at time on, so never late and less than a second early at most; a run-at time after the year 9999 is not delayed at all |
| `RunAt.NoClaimBeforeRunAt` | queue/nats/consumer.go:185-198 | Producer, consumer and protocol together: in every run, on a clock from year 1 on, a delivery holds a claim less than a second before the requested run-at time, at the earliest, unless that is after the year 9999 |
| `EventTheorems.WaitGroupsAreExact` | events/events.go:138-165 | After every step of every run, wg is the number of closures being sent, queued (at most 100) or executing, so never negative, and running is the number of live workers |
| `EventTheorems.SendNeverBlocks` | events/events.go:101-164 | In every interleaving a listener with an error to report finds its channel open and with room |
| `EventTheorems.ClosedChannelIsComplete` | events/events.go:138-172 | A result channel is closed at most once, only after all listeners of the snapshot finished, and was sent, as a multiset, the errors of exactly those that did not panic |
| `EventTheorems.CloseIsDue` | events/events.go:167-172 | Once a dispatch is over and its listeners have finished, closing its channel is possible exactly until it has happened |
| `EventTheorems.CalledOnce` | events/events.go:138-165 | In every run each closure's listener is called at most once, and exactly once if it has an outcome |
| `EventTheorems.FirstInFirstOut` | events/events.go:138-165 | In every run closures are executed in the order in which they were sent |
| `EventTheorems.FlushIsComplete` | events/events.go:208-224 | If nobody dispatches from before Flush on, Flush returns only with the queue empty, all workers exited and every listener of every dispatch called exactly once, whether or not Run was called or its context cancelled |
| `EventFlush.FlushTerminates` | events/events.go:191-230 | With nobody dispatching, and Reset called only after a Flush has returned as documented: every schedule, further calls of Run included, takes a number of working steps bounded by the work there is and the workers started meanwhile, and until Flush has returned another one is possible |
| `EventFlush.FlushHangsExactly` | events/events.go:191-230 | However Reset was used: a waiting Flush can come to hang, with Run not called again, if and only if some live worker waits on an open channel, is on its way to one, or can get to one after one more event |
| `EventFlush.SafeFlushTerminates` | events/events.go:191-230 | However Reset was used: without such a worker every schedule of a waiting Flush in which Run is not called again comes to its end |
| `EventFlush.HungForever` | events/events.go:194-224 | A hung Flush never returns, whatever is called, unless somebody dispatches or cancels the context of that worker |
| `EventFlush.EarlyResetIsPerilous` | events/events.go:226-230 | A Reset before any Flush deserts every worker that waits at its select, so the next Flush can hang |
| `EventFlush.WorkingReducesWork` | events/events.go:194-222 | Every step of a worker, the drain goroutine or Flush reduces queued, executing and live work |
| `EventFlush.FlushCanStep` | events/events.go:210-224 | No deadlock: while Flush waits, nobody dispatches and no worker is or can be deserted, some working step is enabled |
| `EventProofs.StepKeepsAccounted` | events/events.go:138-165 | Every step of every goroutine keeps both WaitGroups exact |
| `EventProofs.StepKeepsPlaced` | events/events.go:138-222 | Every step keeps each added closure in exactly one place: being sent, queued, with one executor, or done |
| `EventProofs.StepKeepsChannelsOk` | events/events.go:133-172 | Every step keeps each results group equal to its unresolved listeners, and each channel's contents equal to the reported errors |
| `EventHandlers.EventHandler.Dispatch` | events/events.go:88-175 | Among arbitrary other goroutines: an unregistered event changes nothing; otherwise each listener of the snapshot is added and then sent, in turn, with a result channel exactly if one was asked for; the dispatcher waits only while 100 closures are queued |
| `EventHandlers.EventHandler.RunClosure` | events/events.go:143-164 | Listener, report if it returned and there is a channel, results.Done, wg.Done, in this order; a panic skips only the report; it can only wait in the report, for room, and does not on a handler that started empty |
| `EventHandlers.EventHandler.Flush` | events/events.go:210-224 | Close, start the drain goroutine, wait for tasks, then for workers, following the step relation; it stops short only while there are tasks or workers |
| `EventHandlers.RegistrationsInOrder` | events/events.go:61-75 | Over every history of registrations: an event is known exactly if it was ever registered, be it without listeners, and its listeners are all that were registered for it, in order |
| `EventHandlers.SnapshotIsPrefix` | events/events.go:61-75 | What a dispatch took before more listeners were registered is a prefix of what a later one takes |
| `EventHandlers.EventHandler.GetHandlers` | events/events.go:105-120 | All listeners registered for the event by now, in order; an error exactly if it was never registered |
| `EventHandlers.EventHandler.Reset` | events/events.go:226-230 | Puts a new open channel in place of the present one; workers keep the one they wait on, and which of the old ones are closed does not change |
| `IdempotencyProofs.OneInside` | http/middleware/idempotent.go:88-154 | If locks outlive their holders' stay: at most one request per key is between lock and unlock, and the lock key exists exactly when one is, or when a lost reply, failed unlock or crash left it behind |
| `IdempotencyProofs.NoRunAfterStored` | http/middleware/idempotent.go:103-154 | Under the same assumption, once a response is stored no handler for the key is started until the response expires |
| `LockExpiry.RunAfterStoredExactly` | http/middleware/idempotent.go:88-154 | That assumption, exactly: from every state of a run that meets it, one arbitrary expiry of the lock can lead to a handler start while a response is stored if and only if some request is inside on the key |
| `LockExpiry.ExpiryAllowsRunAfterStored` | http/middleware/idempotent.go:103-154 | From every state at all, and wherever the request inside stands: the expiry of its lock leads to such a start |
| `LockExpiry.TwoInsideExactly` | http/middleware/idempotent.go:88-101 | In the same way, that expiry can lead to two requests inside on the key if and only if one is inside |
| `IdempotencyProofs.ReplaysAgree` | http/middleware/idempotent_store.go:48-80 | With no assumption on locks: until it expires the stored response of a key does not change, and all replays in that window carry its bytes |
| `IdempotencyProofs.UnlockAfterLock` | http/middleware/idempotent.go:90-96 | Only a request whose lock worked gets to its get, its handler or its unlock |
| `IdempotencyProofs.TurnedAwayStaysOut` | http/middleware/idempotent.go:90-95 | A request answered with "locked" never does anything again, so it never unlocks another's lock |
| `IdempotencyProofs.StepKeepsExclusive` | http/middleware/idempotent_store.go:22-46 | Every step keeps one request inside per key and the lock's meaning |
| `IdempotentMiddleware.Handle` | http/middleware/idempotent.go:71-156 | Among arbitrary other requests: missing and malformed keys touch the store not at all; otherwise one lock attempt, answered by "locked" exactly if the lock was there, and only after it worked a visit that ends in exactly one unlock and gives the reply |
| `IdempotentMiddleware.Visit` | http/middleware/idempotent.go:103-154 | One get; the reply is a replay of the stored bytes exactly if the get works and finds a response that decodes, an error exactly if it fails or what it finds does not decode, and otherwise the handler's answer exactly if it has one and the store command reports success |
| `IdempotentMiddleware.RedisStore.Lock` | http/middleware/idempotent_store.go:22-38 | SET NX on the lock key: unless the command fails, the lock is acquired exactly if it is absent at that moment |
| `IdempotentMiddleware.RedisStore.Get` | http/middleware/idempotent_store.go:48-64 | Finds exactly the response stored at that moment; a missing one is no error |
| `IdempotentMiddleware.RedisStore.Store` | http/middleware/idempotent_store.go:66-80 | SET NX on the value key; an existing response is left alone without an error |
| `IdempotentMiddleware.RedisStore.Unlock` | http/middleware/idempotent_store.go:40-46 | One DEL of the lock key |
| `Recorder.RunHandler` | http/middleware/idempotent.go:134-184 | For every sequence of a handler's calls, reuse of its buffer included: the first client gets the outer headers with the recorded ones merged in at the commit, and all chunks; the recording holds the status, the final headers and what the last chunk's buffer holds at the end |
| `Recorder.ResponseRecorder.WriteHeader` | http/middleware/idempotent.go:171-179 | Records the status, merges the recorded headers into the client's, and commits them; a second commit is ignored by the client though its status is recorded |
| `Recorder.ResponseRecorder.Write` | http/middleware/idempotent.go:181-184 | Keeps the handler's own buffer in place of the one before, while the client gets its present bytes; commits status 200 without merging headers if nothing was committed |
| `Recorder.AddAll` | http/middleware/idempotent.go:173-177 | The nested loops add every value of every name, in per-name order, whatever the order of names |
| `Recorder.ReplayTo` | http/middleware/idempotent.go:113-127 | A replay sends the merged headers and the recorded body, with status 200 |
| `Recorder.ReplayFaithful` | http/middleware/idempotent.go:113-184 | For every handler, the replay is the first response if and only if the committed status was 200, no header changed after the commit, the last chunk is the whole body and its buffer was not changed after its Write (or nothing was committed and no header set) |
| `Recorder.OneWriteHandler` | http/middleware/idempotent.go:113-184 | For a handler that sets headers, then a status, then writes once, the replay has the same headers value by value and the same body; the status is the same exactly if it is 200 |
| `Recorder.PlainHandler` | http/middleware/idempotent.go:113-184 | A handler that only adds headers and writes its body once: status 200, for each name the outer values and then the added ones in order, the body, and a replay that is the same |
| `Recorder.SetAndDelete` | http/middleware/idempotent.go:167-184 | After a header is set or deleted, it has only what came from then on |
| `DurationText.ParseStringDuration` | duration/string.go:20-33 | The loop over day tokens computes ParseSpec, the value that the theorems below are about |
| `DurationText.String` | duration/string.go:39-54 | The loop over hour tokens, with its subtraction loop for days, computes StringSpec |
| `DurationRoundTrip.RoundTrip` | duration/string.go:20-54 | Printing and parsing gives the duration back, for every 64-bit value, the minimum included |
| `DurationRoundTrip.PrintedHoursBelow24` | duration/string.go:39-54 | The printed days and hours make up the original hours, and the hours field is below 24 |
| `DurationGrammar.PrintsCanonically` | duration/string.go:39-54 | For every 64-bit duration, in figures: the units printed for each range of magnitudes, fields below 24 hours, 60 minutes and 60 seconds, no leading zeros and no trailing zeros of a fraction |
| `DurationGrammar.UnitsInNanoseconds` | duration/string.go:20-33 | For every digit string, with or without a sign: what it is worth with each unit, in literal nanoseconds, or that it is an error because it does not fit |
| `DurationGrammar.FractionsInNanoseconds` | duration/string.go:20-33 | For every number with up to nine digits behind the point: what it is worth in hours, minutes and seconds |
| `DurationGrammar.AcceptedIsShaped` | duration/string.go:28-31 | Only durations are accepted: every text without a "d" that parses is a sign or none and a "0" or a list of numbers with units, and so is what the day loop leaves of every text that parses |
| `DurationGrammar.OtherTextsAreErrors` | duration/string.go:28-31 | An empty text, a lone sign, a number without a unit other than a bare zero, and a number with any other unit are errors |
| `DurationTheorems.ParsesToSum` | duration/string.go:20-33 | A signed list of terms whose day counts have their hours in 64 bits parses to the signed sum, 24 hours to the day, if that is a 64-bit duration, and is an error otherwise, provided no token is taken apart by an earlier one and no term of exactly 2^63 ns follows terms that make up exactly 2^63 |
| `DurationTheorems.DoubleFillForgets` | duration/string.go:20-33 | In that last case the parser forgets everything up to and including that term |
| `DurationReading.ParsesToRead` | duration/string.go:20-33 | The same without any condition on captured tokens, and for all day counts whose computed hours are not negative: the list parses to the signed sum of the terms as the loop leaves them |
| `DurationReading.ReadValue` | duration/string.go:22-27 | What the loop leaves of a captured day count: the digits before the first listed token it ends in, followed by the digits of that token's hours, as one number of hours |
| `DurationReading.ListRightExactly` | duration/string.go:20-33 | Under those conditions, captured tokens included, a list parses to its sum, or to an error if that does not fit, if and only if the loop leaves the sum as it was or neither sum fits |
| `DurationTheorems.DayLoopIsSimultaneous` | duration/string.go:22-27 | For every string whose day counts fit, the ReplaceAll loop rewrites all day tokens as if at once if and only if no token is taken apart by an earlier one |
| `Text.SequentialMeaning` | duration/string.go:22-27 | For every string without condition: the loop rewrites each token by the first listed token that is a suffix of it |
| `DurationReading.CapturedToken` | duration/string.go:22-27 | A day token that is the end of a later one takes it apart, so the result differs from replacing all tokens at once |
| `DurationReading.DayCountRightExactly` | duration/string.go:22-32 | For every day count, with or without a sign: it parses to 24 hours a day, or to an error if that does not fit, if and only if its hours are a 64-bit number or the hours computed instead do not fit a duration behind that sign |
| `DurationReading.DayCountParses` | duration/string.go:22-32 | For every day count, with or without a sign, what it parses to: the duration of the hours computed with a saturated count and a wrapped product, or an error |
| `DurationReading.HugeDayCountIsMinusOneDay` | duration/string.go:24-26 | Every day count from 2^63 - 1 up without a sign is accepted and parses as minus one day |
| `DurationReading.FractionOfDays` | duration/string.go:20-27 | Digits behind a decimal point are taken as a day count too: 24 times their number becomes a fraction of an hour |
| `Uuid7.Generator.GetV7Time` | uuid/uuid.go:127-140 | Computes the settled fields and the next hidden state, from any state and any 64-bit time |
| `Uuid7.Generator.MakeV7` | uuid/uuid.go:107-121 | Overwrites the first eight bytes in place and leaves the other eight |
| `Uuid7.Generator.OrderedAt` | uuid/uuid.go:97-104 | A version 7 prefix for the time over the random bytes |
| `Uuid7.EncodesItsTime` | uuid/uuid.go:107-140 | From the epoch on and from any hidden state, the bytes decode to floor(nano / 10^6), to the rest in units of 256 ns, plus one exactly if the last call settled on that tick, and to version 7; the other bytes are untouched |
| `Uuid7.SettledBounds` | uuid/uuid.go:127-140 | The extra one never carries out of the counter, so the milliseconds are those of the requested time |
| `Uuid7.PrefixOrder` | uuid/uuid.go:107-121 | Despite the version nibble, byte order of the prefix is the order of milli * 4096 + seq |
| `Uuid7.RunOrder` | uuid/uuid.go:123-140 | In any run, for any two calls: a later tick never sorts before an earlier one, and from two ticks on sorts strictly after it |
| `Uuid7.LaterSortsLater` | uuid/uuid.go:123-140 | In nanoseconds, from any hidden states: of two times 512 ns or more apart the later one sorts later |
| `Uuid7.NeighboursDiffer` | uuid/uuid.go:132-138 | Two calls in a row never return the same prefix, and the second sorts after the first exactly when its tick is not before the value the first settled on |
| `Uuid7.RunIncreasesExactly` | uuid/uuid.go:123-140 | Over every run: the prefixes sort strictly in the order of the calls if and only if no tick is before the value that the call before it settled on |
| `Uuid7.ThirdCallRepeats` | uuid/uuid.go:133-137 | Three calls for one tick: the third repeats the first |
| `Uuid7.FourthCallRepeats` | uuid/uuid.go:133-137 | Two calls for one tick and two for the next: the fourth repeats the second |
| `PathParams.ReplaceParams` | http/http.go:329-339 | The loop computes ReplaceParamsSpec |
| `PathParams.SequentialMeaning` | http/http.go:329-339 | For every path: each parameter is rewritten by the first listed parameter that is a prefix of it |
| `PathParams.OutputHasNoParam` | http/http.go:325-339 | For every path, the output has no colon before a parameter character |
| `PathParams.Idempotent` | http/http.go:329-339 | Rewriting twice is rewriting once |
| `PathParams.OnePassExactly` | http/http.go:329-339 | The output is the one-pass rewrite of each ":name" to "{name}", all else unchanged, if and only if no parameter is taken apart by an earlier one that is a prefix of it |
| `PathParams.NameCharacters` | http/http.go:325-327 | The characters of a name, one by one |
| `PathParams.OneParameter` | http/http.go:329-339 | A path with one parameter: the name, ended by any character that is not listed, comes out in braces without its colon; nothing else changes |
| `PathParams.NothingElseChanges` | http/http.go:329-339 | A path in which no colon stands before a listed character does not change |
| `ExpiringCache.Cache.Get` | cache/expiring.go:26-47 | Hits exactly if the key is there and not past its expiry, and removes an entry found expired |
| `ExpiringCache.Cache.Put` | cache/expiring.go:49-68 | Replaces the key's entry by one that expires at clock plus validity |
| `ExpiringCache.Cache.Delete` | cache/expiring.go:70-79 | Removes the key's entry and nothing else |
| `ExpiringCache.LenExactly` | cache/expiring.go:81-85 | Over every history: the length counts exactly the keys whose last write was a Put that no read has seen expired |
| `ExpiringCache.HitExactly` | cache/expiring.go:26-91 | For every history and any clock: a read hits with v if and only if the last write to the key put v, v is still good, and no read in between saw it expired |
| `ExpiringCache.HitUnderMonotoneClock` | cache/expiring.go:26-91 | While the clock does not go back, lazy removal cannot be observed |
| `ExpiringCache.ConcurrentHit` | cache/expiring.go:32-46 | In every interleaving of split reads, a hit is the last value put on the key at its read step and unexpired at its clock reading |
| `ExpiringCache.RemovalDropsFreshPut` | cache/expiring.go:87-91 | From every state in which a reader has found its entry expired, a fresh Put on that key can be lost |
| `ExpiringCache.PutLostExactly` | cache/expiring.go:26-91 | A fresh Put can be lost without a write or a new read of its key if and only if some reader then stands between its read of an entry of the key and its removal; otherwise the entry stays as it was put |

## Left out

- Tracing, logging, error reporting and metrics calls: they do not influence the protocols.
- The clients of NATS, JetStream, Redis and echo: only the effect of each operation is modelled, with failures. An operation takes effect, if at all, before its caller goes on, and a read sees the latest write.
- Redelivery limits: the broker may redeliver a pending message at any time or never again, which covers MaxDeliver, Backoff, AckWait and the heartbeat.
- `Consumer.Consume` of the NATS driver: stream and bucket set-up and the endless fetch loop; each fetched message is a Deliver step followed by HandleMessage.
- The job's identity beyond the message id header, and the JSON encoding of jobs: a payload either decodes or does not.
- Worker loops of the event handler and of the consumer: each turn of the endless select is a step of the machine; only the work of one turn is a method.
- A handler that panics inside the queue consumer: the process dies, which is the Crash step.
- Re-entrant and concurrent dispatch during Flush: the accounting and channel results hold with it, FlushIsComplete and FlushTerminates exclude it.
- Two overlapping calls of Flush: the second closes a closed channel and panics, unless a Reset came between them.
- Listener timeouts, type-based event names and the global handler.
- The backing arrays of listener slices: a snapshot is a value, as appends never overwrite what a snapshot can see.
- Informational statuses, responses that may not have a body, header names that are not canonical, and header names without any value.
- JSON encoding of recorded responses: an injective codec, which may fail on decode.
- DurationText.ParseDuration: a fraction finer than a nanosecond of its unit is rounded down, where Go's floating-point product may differ in the last nanosecond; every text the printer writes, and every term the theorems speak of, has exact fractions.
- DurationReading.FractionOfDays: states the value only where 24 times the digits is a number of at most nine digits, for the same reason.
- The JSON and text marshalling wrappers of durations: they call the printer and the parser, and a duration's text needs no escaping.
- Times before the epoch in the UUID theorems: the code is modelled for them, the guarantees start at the epoch.
- Random generation, parsing and printing of UUIDs: the uuid package is not part of this model.
- Optional cache tracing, the LRU and fixed caches, workers, storage, configuration, crypto and the rest of the HTTP server: wrappers or straight-line code that would add only easy members.
