# Verified models of a voice call centre's protocols

This project models, in Dafny, the parts of the system whose correctness depends on long runs, retries,
crashes and interleavings, and proves what those parts promise for every input and every run.

- **Conversation kernel** (`Kernel`, `KernelRuns`, `KernelLog`, `KernelHistory`, `KernelOrigin`, `KernelWorkers`,
  `KernelVerdict`, `KernelMachine`, `Projection`, `ProjectionHistory`, `Utf8Text`): the event-sourced state of a
  conversation, its hash-chained log, and the byte-bounded context shown to a model.
- **Conversation runtime and store** (`Runtime`, `RuntimeProgress`): optimistic transactions of many callers against
  the durable log, with lost replies and crashes.
- **Capability rotation** (`Rotation`, `RotationHistory`, `RotationProtocol`): the lease row, and the client and server
  together over a network that loses, delays and repeats messages.
- **Event journal** (`Journal`, `JournalProtocol`): the bounded queue with its terminal reserve, and its delivery to
  the ingest route.
- **Provider tool calls** (`ToolLedger`, `ToolRelease`, `ToolRuns`, `ToolTerminal`, `ToolHistory`, `ToolClean`,
  `ToolOutcome`, `ToolVerdict`, `ToolNaming`, `ToolDropped`, `ToolReplies`, `ToolMemory`, `ToolFaults`, `ToolAdapter`):
  which function calls an adapter releases and drops and which frames it refuses, over every sequence of provider
  frames, interruptions and submitted outputs.
- **Playback** (`Playback`, `PlaybackHistory`): how much of each spoken item the caller is proven to have heard.
- **Strict JSON** (`JsonText`, `Json`, `JsonGrammar`, `JsonExact`, `JsonRoundTrip`, `JsonInjective`, `JsonCanonical`,
  `JsonParser`): the capped parser against the grammar and the canonical printer.
- **Single-use tokens** (`ReplayCache`), **credential slots** (`CredentialSlot`, `SlotHistory`), **the authority
  client's ledger** (`AuthorityLedger`, `AuthorityHistory`) and **the catalog that states its own length** (`Catalog`).

Each module has the same shape. The state is a value and every operation a function on it. Where the source
updates an object or runs a loop, a class or method does the same and its contract equates the result with that
function. The promises are lemmas about the functions, by induction over whole runs; the main ones say, from the
inputs so far alone, exactly when each outcome occurs. `Common`, `Decimal`, `Ordering`, `Sets` and `Sorting` hold
shared definitions.

Assumptions that the source also makes: digests and derived token ids are injective, random tokens are never
repeated, a database transaction or single SQL statement is atomic, and clocks read non-negative values.
Identifiers are natural numbers; byte lengths of opaque texts and the conversion between numbers and numerals are
parameters. What is asked of that conversion can be met: `JsonInjective.DecimalValid` gives one that does.

Two promises turned out to hold only under a condition, which is proved exact:

- Truncating a text to a byte budget loses a character only at an unpaired surrogate; `BoundedUtf8Text` states
  exactly when, and `LoneHighIsLost` gives an input.
- A token identifier is single-use together with its expiry, not on its own: `SingleUse` says when it can be used
  again, `IdentifierReusable` gives such calls, and `FreshTokenAccepted` and `ReplayedExactly` state, from the calls
  alone, exactly when a call succeeds and when it is refused as a replay.

## Model

| member | source | states |
|---|---|---|
| Utf8Text.BoundedUtf8Text | web/lib/conversation-kernel.ts:37-47 | the result is the longest prefix within the byte budget that splits no surrogate pair, except exactly when the cut follows an unpaired high surrogate, which is then dropped |
| Utf8Text.GreatestFitIs | web/lib/conversation-kernel.ts:37-47 | the greatest prefix length that fits is unique and no longer prefix fits |
| Utf8Text.DroppingFinalHigh | web/lib/conversation-kernel.ts:46-46 | dropping a final high surrogate yields the longest whole prefix unless that surrogate was unpaired |
| Utf8Text.LoneHighIsLost | web/lib/conversation-kernel.ts:37-47 | an input on which a fitting unpaired unit is lost |
| Utf8Text.Utf8Snoc | web/lib/conversation-kernel.ts:33-35 | one more code unit adds one, two or three bytes, or one when it completes a pair |
| Kernel.MatchIsSetEquality | web/lib/conversation-kernel.ts:531-538 | comparing sorted dependency lists is comparing them as sets |
| KernelMachine.MutableState.ApplyFactEvent | web/lib/conversation-kernel.ts:543-561 | asserting and correcting facts in place equals the pure step, error cases included; which facts a log then holds, and which events it refuses, `KernelVerdict.FoldIsHistory` reads off the log |
| KernelMachine.MutableState.ApplyGoalEvent | web/lib/conversation-kernel.ts:562-600 | goal events in place equal the pure step, error cases included |
| KernelMachine.MutableState.ApplyCommitmentEvent | web/lib/conversation-kernel.ts:601-616 | commitment events in place equal the pure step, error cases included |
| KernelMachine.MutableState.ApplyPolicyEvent | web/lib/conversation-kernel.ts:617-621 | the policy advances by one epoch at a time, or the event is refused |
| KernelMachine.MutableState.ApplyCheckpointEvent | web/lib/conversation-kernel.ts:622-655 | flow checkpoints advance as the pure step says, error cases included |
| KernelMachine.MutableState.FindStale | web/lib/conversation-kernel.ts:665-669 | the loop finds the first dependency that is not current, or none |
| KernelMachine.MutableState.ApplySpawnEvent | web/lib/conversation-kernel.ts:656-676 | spawning a worker in place equals the pure step, error cases included |
| KernelMachine.MutableState.ApplyWorkerEndEvent | web/lib/conversation-kernel.ts:677-690 | only a running worker is cancelled or finished |
| KernelMachine.MutableState.Admit | web/lib/conversation-kernel.ts:704-728 | the admission decision on a delivery equals the pure one |
| KernelMachine.MutableState.ApplyDeliveryEvent | web/lib/conversation-kernel.ts:691-757 | a delivery is decided, recorded and published exactly as the pure step says |
| KernelMachine.MutableState.DecideDelivery | web/lib/conversation-kernel.ts:704-757 | the decision on a delivery, its record and the publication of an accepted result equal the pure ones |
| KernelMachine.MutableState.ApplyEvent | web/lib/conversation-kernel.ts:540-765 | every event applied in place equals the pure step, or fails with the same error |
| KernelRuns.StepFrame | web/lib/conversation-kernel.ts:540-765 | which parts of the state each kind of event leaves alone |
| KernelRuns.RunAdvances | web/lib/conversation-kernel.ts:551-620 | over every run epochs and revisions never go back and stopped workers never change |
| KernelRuns.ReachableShape | web/lib/conversation-kernel.ts:562-664 | in every reachable state at most one goal is active, and it is the current one, and no goal has more than eight running workers |
| KernelRuns.WorkersSpawned | web/lib/conversation-kernel.ts:656-676 | every worker was spawned by the event it names, with the goal, epoch and revisions of that moment |
| KernelRuns.FactsDelivered | web/lib/conversation-kernel.ts:739-750 | every accepted fact was delivered by the event it names, under its worker's contract |
| KernelRuns.EpochUnchanged | web/lib/conversation-kernel.ts:617-621 | the policy epoch at two moments is equal exactly when no policy event lies between |
| KernelRuns.RevisionUnchanged | web/lib/conversation-kernel.ts:551-561 | a fact's revision at two moments is equal exactly when no correction lies between |
| KernelRuns.NoStaleWorkerFact | web/lib/conversation-kernel.ts:952-959 | an accepted fact passes the currency filter exactly when its goal is current and, since its worker was spawned, no policy advance and no correction of a dependency was logged |
| KernelRuns.ExactlyOnceResults | web/lib/conversation-kernel.ts:691-757 | over every run each delivery id is accepted at most once, each worker completes by exactly one accepted delivery, and the accepted facts are those of the accepted deliveries in order |
| KernelRuns.RedeliveryNeverChanges | web/lib/conversation-kernel.ts:692-703 | two deliveries with one id in a log carry the same content |
| KernelRuns.StoppedWorkerStays | web/lib/conversation-kernel.ts:677-690 | a worker that left the running state is the same at every later moment |
| KernelVerdict.EventVerdict | web/lib/conversation-kernel.ts:540-765 | an event is accepted exactly when the log before it allows it: a fact is asserted once and corrected only to its next revision; a goal is activated once and ends, rests or resumes from the one state its last event left; a commitment opens once under a known goal and is resolved once; the policy moves one epoch; a checkpoint moves on from the last one of the active goal; a worker is spawned once, at the current epoch and revisions, below eight running, and stopped only while it runs; a delivery id never changes its content |
| KernelVerdict.FoldIsHistory | web/lib/conversation-kernel.ts:768-792 | a log folds exactly when each of its events is allowed by those before it, and then to a state each part of which, from facts to decisions, is read off the log alone |
| KernelLog.ValidationExact | web/lib/conversation-kernel.ts:467-483 | validation accepts exactly the logs with contiguous sequence numbers, unbroken hashes, well-formed payloads and distinct event ids |
| KernelLog.HeadDeterminesLog | web/lib/conversation-kernel.ts:457-483 | two valid logs with the same head hash are equal |
| KernelLog.AppendSound | web/lib/conversation-kernel.ts:494-529 | a successful append yields a valid log that folds, extends the old one and holds every draft |
| KernelLog.AppendConcat | web/lib/conversation-kernel.ts:494-529 | appending xs and ys together equals appending xs, then ys: same log or same failure |
| KernelLog.ReplayIsIdentity | web/lib/conversation-kernel.ts:494-529 | re-appending drafts a valid log holds returns that log |
| KernelLog.AppendIdempotent | web/lib/conversation-kernel.ts:489-529 | repeating a successful batch changes nothing |
| KernelLog.BoundDraft | web/lib/conversation-kernel.ts:494-529 | in a valid log an event id has one content |
| KernelVerdict.LoadedExactly | web/lib/conversation-kernel.ts:768-792 | a log loads exactly when it is valid and each of its events is allowed by those before it |
| KernelVerdict.AppendedExactly | web/lib/conversation-kernel.ts:494-529 | one draft is taken by a log that loads exactly when it is well formed and either held already, which changes nothing, or has a new id, is small enough and is allowed by the log, which then gains exactly its event |
| KernelMachine.ValidateConversationLog | web/lib/conversation-kernel.ts:467-483 | the validation loop reports the first fault or none |
| KernelMachine.FoldConversation | web/lib/conversation-kernel.ts:768-792 | validating and replaying a log yields the folded state or the first error |
| KernelMachine.AppendConversationEvents | web/lib/conversation-kernel.ts:494-529 | the append loop with its id index equals the functional append |
| Projection.MandatoryComplete | web/lib/conversation-kernel.ts:886-942 | the mandatory part holds every invariant, every fact by key, the open commitments as they were opened, the goal, its checkpoint, its running workers and then the eight stopped workers last spawned, and counts the stopped workers it omits |
| Projection.LatestWins | web/lib/conversation-kernel.ts:952-959 | a key has a candidate fact exactly when some fact for it is current, and the candidate is the last current one |
| Projection.CandidateOrder | web/lib/conversation-kernel.ts:960-981 | the candidates are the last current fact of each key, strictly from the last accepted on, then every advisory, from the last recorded on |
| Projection.EnvelopeSmallest | web/lib/conversation-kernel.ts:872-884 | the empty envelope is never larger than the mandatory part |
| Projection.PushBytes | web/lib/conversation-kernel.ts:948-951 | what one optional item adds to the serialized length |
| Projection.BoundedProjection | web/lib/conversation-kernel.ts:855-984 | projection fails exactly when the mandatory part exceeds the budget; otherwise it carries all of it, fits, and leaves out only candidates that would not fit the finished view |
| Projection.ShownFactsAreFresh | web/lib/conversation-kernel.ts:952-971 | every worker fact shown belongs to the current goal and none of its dependencies or the policy changed since its worker was spawned |
| ProjectionHistory.ShownAsTold | web/lib/conversation-kernel.ts:886-942 | each line of the mandatory part is what the log says: facts with their last value and revision, commitments still open, the goal last activated, its last checkpoint and its workers with their status |
| ProjectionHistory.ShownInOrder | web/lib/conversation-kernel.ts:886-981 | commitments stand from the first opened on, stopped workers from the last spawned on, and the optional facts and advisories from the last accepted or recorded on |
| Projection.CollectLatest | web/lib/conversation-kernel.ts:952-959 | the loop keeps the last current fact for each key |
| Projection.TryAll | web/lib/conversation-kernel.ts:960-981 | the push-and-undo loop keeps exactly the items that fit in turn |
| Projection.ProjectConversationContext | web/lib/conversation-kernel.ts:855-984 | the method computes the functional projection, within the byte budget |
| Runtime.NormalizePlan | web/lib/conversation-runtime.ts:65-89 | the loop splits a plan into events already in the log and new ones, or reports the first conflict |
| Runtime.PartitionMeaning | web/lib/conversation-runtime.ts:65-89 | a successful split puts every planned event in exactly one part, the held ones with identical content |
| Runtime.EventStore.Append | web/migrations/046_voice_conversation_batch_replay_integrity.sql:19-133 | one store transaction appends the chained batch on a matching head, recognises an exact replay, or refuses |
| Runtime.EventStore.BuildBatch | web/lib/conversation-store.ts:141-212 | the loop builds the hash-chained rows of a batch |
| Runtime.EventStore.CountExisting | web/migrations/033_voice_conversation_event_log.sql:159-347 | the loop counts stored rows of the batch or reports the first collision |
| Runtime.AppendIsChain | web/lib/conversation-runtime.ts:112-158 | the log the kernel validated ends in exactly the rows the store will write |
| Runtime.CandidateOnHead | web/lib/conversation-runtime.ts:112-158 | when the head hash matches, the stored log is the caller's snapshot and the appended rows give its candidate |
| Runtime.StoreNeverReturnsADifferentBatch | web/lib/conversation-runtime.ts:143-145 | the check that the store returned the expected batch never fails |
| Runtime.TransactionsSafe | web/lib/conversation-runtime.ts:112-158 | every interleaving of callers, lost replies and crashes keeps the store sound and only adds rows; what each commit stores and answers is `RuntimeProgress.CommittedExactly` |
| Runtime.DurableLog | web/lib/conversation-runtime.ts:112-158 | from an empty conversation, after any run, the durable log validates and folds, repeats no id or key, holds every event of every successful call with its planned content, and has no row whose key and content are not in a plan that a caller took while planning |
| Runtime.RowsPlanned | web/lib/conversation-runtime.ts:112-158 | in every run the rows stored and the batches under way come from the plans that callers took while planning |
| RuntimeProgress.CommittedExactly | web/lib/conversation-runtime.ts:133-158 | at any point of any run a commit stores the events exactly when none of their keys and ids is in use and nothing was stored since the snapshot; if something was, the caller loads again until its attempts are used up, events stored before count as stored, and any other collision ends the call |
| RuntimeProgress.PlannedExactly | web/lib/conversation-runtime.ts:119-132 | a plan is taken exactly when it contradicts nothing in the log and the log accepts what it adds; a plan that adds nothing succeeds at once |
| RuntimeProgress.LoadedAlways | web/lib/conversation-runtime.ts:117-119 | at any point of any run a caller that loads gets the whole durable log, which never fails to fold |
| RuntimeProgress.UndisturbedSucceeds | web/lib/conversation-runtime.ts:112-158 | progress: from any point of any run a caller that loads, plans and commits with no other step between succeeds with whatever plan the log accepts, and its new events are stored behind everything stored before |
| Rotation.LeaseRow.RotateCapabilityLease | web/lib/capability-rotation-store.ts:166-327 | the locked transaction on the lease row equals the functional decision, writing only on a rotation; that decision is pinned by `RotationHistory.AnsweredExactly` |
| Rotation.RotationAdvances | web/lib/capability-rotation-store.ts:166-327 | a rotation advances one generation and moves the expiry by at least 1500 and less than 1800 seconds |
| Rotation.ConsumedOnce | web/lib/capability-rotation-store.ts:154-327 | over every sequence of requests a refresh token id advances the lease at most once |
| Rotation.GenerationsDiffer | web/lib/capability-rotation-store.ts:125-164 | token ids of two generations of one lease differ |
| RotationHistory.AnsweredExactly | web/lib/capability-rotation-store.ts:166-327 | exactly when a request rotates, is answered as a repetition, finds nothing, is out of date or too early; a request of a call or stream that has ended finds nothing |
| RotationHistory.LeaseIsHistory | web/lib/capability-rotation-store.ts:166-327 | after any requests of a session the lease is what bootstrap or the first browser request gave, as many generations on as requests rotated, with the times and the key of the last of them |
| RotationHistory.GrantedByHistory | web/lib/capability-rotation-store.ts:166-327 | in any sequence of requests, exactly when the k-th rotates and when it is answered as a repetition, from its own fields and the requests granted before it |
| RotationProtocol.RotateWithRetry | bridge/lib/capability-rotation-client.js:321-408 | an invalid request is refused for its first fault and never sent; otherwise the first attempt not worth retrying decides the grant or the error, every attempt sent starts before the old expiry, and when all attempts may be retried they are exhausted |
| RotationProtocol.RetryTakesRunSteps | bridge/lib/capability-rotation-client.js:321-408 | each attempt of the retry loop is a request the client of a run may send, and a grant it returns is exactly one that client may adopt |
| RotationProtocol.GenerationGap | bridge/lib/session.js:600-716 | over every run with loss, delay and repetition the server's generation is the client's or one more |
| RotationProtocol.GrantInTimeIsValid | bridge/lib/capability-rotation-client.js:182-237 | a grant of the next generation passes the client's checks until the old capability expires |
| RotationProtocol.LostAnswerIsReplayed | web/lib/capability-rotation-store.ts:166-327 | after a lost answer the retry gets the same lease, changes nothing at the server and is accepted |
| RotationProtocol.DueRequestRotates | bridge/lib/session.js:600-716 | in sync, a request in the refresh window rotates and its answer is acceptable |
| RotationProtocol.ServedExactly | web/lib/capability-rotation-store.ts:166-327 | in every reachable state the server advances exactly for the client's own request between its refresh time and its expiry, and grants the same lease again whenever the client asks again before the answer reached it |
| RotationProtocol.EndedCallGetsNothing | web/lib/capability-rotation-store.ts:83-123 | a request of a call or stream that has ended changes neither the lease nor what was granted |
| RotationProtocol.AdoptedExactly | bridge/lib/session.js:600-716 | in every reachable state the client adopts exactly the grants of the next generation, until its own expires |
| RotationProtocol.TakenExactly | bridge/lib/capability-rotation-client.js:182-237 | the client takes a response exactly when it is for its own session, bridge, call, stream and generation, all six capabilities differ, and its times fit |
| RotationProtocol.BootstrapSound | web/app/api/telephony/session/route.ts:346-362 | bootstrap starts both sides at generation zero of one lease |
| Journal.EventJournal.AppendEvent | bridge/lib/event-journal.js:399-438 | an append queues the event under the next sequence number or fails for the first limit it breaks, changing nothing |
| Journal.EventJournal.CreateNextBatch | bridge/lib/event-journal.js:570-582 | the selection loop takes the functional batch: a completion marker exactly when nothing is queued |
| Journal.EventJournal.AcknowledgeBatch | bridge/lib/event-journal.js:750-775 | an acknowledgement removes exactly the batch or reports a state error |
| Journal.EventJournal.ChangeScope | bridge/lib/event-journal.js:374-381 | a new scope is refused once completion began or when it is the old one |
| Journal.BatchWithinLimits | bridge/lib/event-journal.js:570-582 | a batch is a non-empty prefix within both limits, and one more event would break one |
| Journal.TerminalReserve | bridge/lib/event-journal.js:420-432 | a terminal event no larger than a batch is accepted while queued terminal events stay within the reserve |
| JournalProtocol.ReliableDelivery | bridge/lib/event-journal.js:547-568 | on every run the receiver holds exactly the first m events in order, m the acknowledged count or that plus the batch in flight, and stores the completion marker only after every event |
| JournalProtocol.LateDeliveryIsHarmless | web/app/api/telephony/events/route.ts:184-330 | a late or repeated batch conflicts with nothing and changes no stored event |
| JournalProtocol.DeliveryProgress | bridge/lib/event-journal.js:617-701 | while the binding is live one exchange that is not lost stores and acknowledges exactly the batch in flight |
| JournalProtocol.AcknowledgeNeverFails | bridge/lib/event-journal.js:750-775 | the queue-mismatch and byte-underflow errors of acknowledgement are unreachable |
| JournalProtocol.TerminalAlwaysFits | bridge/lib/event-journal.js:309-311 | the terminal reserve holds in every reachable state |
| JournalProtocol.AppendedExactly | bridge/lib/event-journal.js:399-438 | at any point of any run an event is appended exactly when no completion was requested, it is no larger than a batch and it keeps the limits it is subject to, as a terminal event or another; it then takes the number behind every event appended before and goes to the end of the queue |
| JournalProtocol.ScopeIsLast | bridge/lib/event-journal.js:374-381 | on every run the journal carries the scope it was last given while open |
| JournalProtocol.BatchedExactly | bridge/lib/event-journal.js:570-582 | at any point of any run a batch is put in flight exactly when none is and events wait or a requested completion is not acknowledged |
| JournalProtocol.AcknowledgedExactly | web/app/api/telephony/events/route.ts:184-330 | a batch that was sent is stored and acknowledged while the binding is live, and afterwards acknowledged exactly if it was stored before |
| ToolRuns.ReleaseIsExact | bridge/lib/provider-adapter.js:693-912 | over every run, for a replay window of any size, calls are released only by the completed terminal of a response that an earlier frame started and nothing closed before, after no fatal error, and the release is all calls ever named for it, each once, with everything said of it, present in the output, declared and decodable |
| ToolOutcome.ReleasedUnlessError | bridge/lib/provider-adapter.js:693-912 | a completed terminal releases exactly when nothing closed the response before, it reports no protocol error, and the frames so far named at least one call for it and, of each, its name, arguments and end, and withdrew none |
| ToolVerdict.ReleasedWhen | bridge/lib/provider-adapter.js:693-912 | the same from the inputs before the terminal and its own items alone: started, not closed, nothing fatal reported, an event id new to the replay window, items that agree with everything said and with one another within the limits, and calls that are named, ended, present, decodable and not withdrawn |
| ToolVerdict.ErrorFree | bridge/lib/provider-adapter.js:693-912 | exactly which completed terminals of an open response report no protocol error, from the inputs before them and their items |
| ToolVerdict.UnsealedIff | bridge/lib/provider-adapter.js:1093-1096 | an adapter is sealed exactly when it reported a fatal error |
| ToolFaults.FaultlessExactly | bridge/lib/provider-adapter.js:244-691 | exactly which frames, other than the terminal of an open response, raise no fatal error, from the inputs before them alone: the session was acknowledged, the item named for no other response, the response started and, if closed, cancelled, and the frame is then stale or repeats what was first said or says what is declared, contradicts nothing and keeps the limits |
| ToolMemory.RunRecalls | bridge/lib/provider-adapter.js:244-403 | in every unsealed state the acknowledgement, starts, terminals, items, argument texts and truncations held are the first that the inputs gave |
| ToolReplies.AnnouncedExactly | bridge/lib/provider-adapter.js:244-691 | a frame that ends no response and raises no error puts out exactly its announcement: the first acknowledgement, start, completion of arguments or truncation, each withdrawn call, and nothing else |
| ToolReplies.RepeatedFrame | bridge/lib/provider-adapter.js:257-265 | a frame under the event id of one of the frames last taken does nothing when it is that frame again and is fatal when it is another |
| ToolReplies.WindowIsRecent | bridge/lib/provider-adapter.js:1102-1111 | the replay window is the last frames that came with a new event id, as many as it holds |
| ToolDropped.InterruptedExactly | bridge/lib/provider-adapter.js:411-452 | a local interruption is accepted exactly when its response is started, open and nothing fatal was reported, and then reports as dropped every call named for it so far, once, in order of first mention |
| ToolDropped.CancelledExactly | bridge/lib/provider-adapter.js:638-670 | the cancelling frame of an open response reports exactly as an interruption does, or is a fatal error |
| ToolDropped.EndedExactly | bridge/lib/provider-adapter.js:693-770 | the terminal of an open response that did not complete or has no permitted output reports exactly the calls named before it as dropped, once, in order of first mention, and the response as ended |
| ToolDropped.CompletedExactly | bridge/lib/provider-adapter.js:693-912 | the completed terminal of an open response reports its calls once, those named before it first and in that order, then those its items add, either all as released or all as dropped |
| ToolDropped.ClosedReportsNothing | bridge/lib/provider-adapter.js:638-706 | a terminal frame of a closed response reports nothing but an error |
| ToolDropped.ReleasedOrDropped | bridge/lib/provider-adapter.js:638-912 | over a whole run no call is both released and reported as dropped at the end of its response |
| ToolNaming.NamingIs | bridge/lib/provider-adapter.js:981-1041 | the calls reported for an open response are those that any frame named for it, each once |
| ToolTerminal.PassIsClean | bridge/lib/provider-adapter.js:771-839 | the pass over terminal items, which binds and admits as it goes, meets no fault exactly under a condition free of the items' order: each fits what was known, no two collide, all have room |
| ToolClean.FitsIff | bridge/lib/provider-adapter.js:771-839 | what the pass needs of the ledgers is that the items contradict nothing the frames said and keep the limits counted over what they said |
| ToolHistory.RunRemembers | bridge/lib/provider-adapter.js:244-403 | in every unsealed state the item bindings, identities, retired calls and started responses are exactly those the inputs told |
| ToolOutcome.JudgedUnfinished | bridge/lib/provider-adapter.js:841-850 | a call counts as unfinished exactly when the frames left its name, arguments or end open or withdrew it |
| ToolRuns.RunResponses | bridge/lib/provider-adapter.js:244-403 | only a response.created frame starts a response, and only terminal frames and interruptions close one |
| ToolRuns.ReleasedOnce | bridge/lib/provider-adapter.js:981-1065 | a call id is in at most one release of a run |
| ToolRuns.SubmittedAfterRelease | bridge/lib/provider-adapter.js:967-980 | an output is accepted only after its call was released |
| ToolRuns.SubmittedOnce | bridge/lib/provider-adapter.js:967-980 | an output is accepted at most once for a call |
| ToolReplies.SubmittedExactly | bridge/lib/provider-adapter.js:967-980 | a submission is accepted exactly when nothing fatal was reported, it names one to 64 calls, none twice, and each was released before and had no output accepted yet |
| ToolRuns.LedgerExact | bridge/lib/provider-adapter.js:981-1065 | in every unsealed state nothing was rejected or in conflict, the byte counter is the exact sum, and the call limits hold |
| ToolRuns.HandleSeals | bridge/lib/provider-adapter.js:1093-1096 | a fatal protocol error seals the adapter |
| ToolRuns.CompleteResponseReleases | bridge/lib/provider-adapter.js:693-912 | one terminal event releases calls only for a completed, open response, exactly as required |
| ToolRelease.UpsertKeeps | bridge/lib/provider-adapter.js:981-1041 | admitting or extending a call keeps every call with all that was said of it |
| ToolRelease.RetireKeeps | bridge/lib/provider-adapter.js:1043-1054 | retiring a response closes it, leaves every other call alone and keeps the byte counter exact without clamping |
| ToolRelease.ScanItemsKeeps | bridge/lib/provider-adapter.js:771-839 | a faultless pass over the terminal output records exactly the calls it names |
| ToolAdapter.ProviderAdapter.RetirePendingCalls | bridge/lib/provider-adapter.js:1043-1054 | the loop moves exactly the response's calls to the retired ledger and subtracts their bytes |
| ToolAdapter.ProviderAdapter.ScanTerminalOutput | bridge/lib/provider-adapter.js:771-839 | the loop over output items equals the functional scan |
| ToolAdapter.ProviderAdapter.JudgeCalls | bridge/lib/provider-adapter.js:841-886 | the loop finds whether every call may run, the release, the errors and whether a call was missing |
| ToolAdapter.ProviderAdapter.EndOfResponse | bridge/lib/provider-adapter.js:707-912 | the end of a response updates the ledgers and reports exactly what the functional model says, which `ToolDropped.EndedExactly` and `ToolDropped.CompletedExactly` state from the inputs |
| ToolAdapter.ProviderAdapter.SealCancelled | bridge/lib/provider-adapter.js:638-670 | a cancelled response is sealed, drops its calls and is reported as the functional model says, or is refused unchanged; `ToolDropped.CancelledExactly` states the report from the inputs |
| ToolAdapter.ProviderAdapter.NormalizeFrame | bridge/lib/provider-adapter.js:244-403 | one frame, with the lookup and slide of the replay window, takes the object where the functional adapter goes |
| ToolAdapter.ProviderAdapter.Step | bridge/lib/provider-adapter.js:244-452 | frames, interruptions and submitted outputs take the object along the run of the functional adapter, so what is proved of runs holds of it |
| ToolAdapter.ProviderAdapter.ConsumeOutputAuthorizations | bridge/lib/provider-adapter.js:967-980 | a batch of outputs is accepted as a whole or not at all |
| Playback.PlaybackLedger.HandleOutputAudio | bridge/lib/session.js:862-927 | an audio delta is cut, numbered and recorded as the functional step says, failures included |
| Playback.PlaybackLedger.Chunks | bridge/lib/session.js:873-876 | the loop cuts the audio at every mark size |
| Playback.ChunkEndsCover | bridge/lib/session.js:873-876 | the chunks follow one another without gap, none exceeds the mark size, and they end where the audio ends |
| Playback.PlaybackLedger.AcknowledgePlaybackThrough | bridge/lib/session.js:929-948 | the loop acknowledges in insertion order up to the target |
| Playback.PlaybackLedger.HandleMark | bridge/lib/session.js:430-445 | an echo acknowledges, is ignored, or fails the session exactly as the functional step says |
| Playback.PlaybackLedger.HandleBargeIn | bridge/lib/session.js:950-1023 | a clear drops the marks, starts a generation and asks for the incomplete items |
| Playback.AckThroughPrefix | bridge/lib/session.js:929-948 | acknowledging a mark acknowledges every pending mark up to it and no other |
| Playback.RunSound | bridge/lib/session.js:862-1023 | in every reachable state pending marks are strictly ordered, belong to the current generation and lie in generated, unheard audio of their item |
| Playback.HeardIsAcknowledged | bridge/lib/session.js:862-948 | in every reachable state what was heard of an item is the end of its last acknowledged mark, at most what was generated, and unheard audio of the current generation is exactly what pending marks cover |
| Playback.HeardNeverRecedes | bridge/lib/session.js:929-971 | what was heard never shrinks and is frozen once its generation is cleared |
| Playback.TruncatedOnce | bridge/lib/session.js:957-1020 | each item is truncated at most once in a session |
| Playback.TruncationStaysTrue | bridge/lib/session.js:957-1020 | a truncation names what was heard, and no later echo changes it |
| Playback.IssuedEchoAccepted | bridge/lib/session.js:430-445 | the echo of an issued mark never fails the session |
| Playback.EchoAfterClear | bridge/lib/session.js:436-440 | the echo of a mark from before a clear changes nothing |
| PlaybackHistory.TruncatedExactly | bridge/lib/session.js:957-1020 | speech that clears and interrupts asks for a truncation of exactly the items whose audio in the current generation was not heard to its end, each in its own response at the milliseconds heard |
| PlaybackHistory.AudioFailsExactly | bridge/lib/session.js:862-927 | audio fails the session exactly when its response is not active, it is empty, its marks exceed the limit, or its item had audio for another response or from before a clear |
| PlaybackHistory.EchoFailsExactly | bridge/lib/session.js:430-445 | an echoed name fails the session exactly when it is of a generation not yet begun, or of the current one, behind the last mark acknowledged and not the name of a pending mark |
| PlaybackHistory.TruncationAckExactly | bridge/lib/session.js:1067-1080 | an acknowledged truncation fails the session exactly when none is outstanding for its item or the one outstanding is of another response |
| PlaybackHistory.SpeechExactly | bridge/lib/session.js:950-1023 | speech fails the session exactly when the carrier was cleared and the response could not be interrupted, and otherwise starts a generation without marks |
| JsonText.ScanEscaped | bridge/lib/safe-json.js:236-272 | scanning a printed string gives the string back and stops behind it |
| JsonText.PairedIsWellFormed | bridge/lib/safe-json.js:110-121 | the surrogate check accepts exactly well-formed Unicode |
| JsonText.NumberStops | bridge/lib/safe-json.js:274-283 | a numeral in front of a delimiter is recognised whole and nothing more |
| JsonRoundTrip.PrintThenParse | bridge/lib/safe-json.js:123-301 | the strict parser reads back every printed value within the limits |
| JsonRoundTrip.ParsedWithinLimits | bridge/lib/safe-json.js:123-283 | every parsed value keeps the depth, node, key, array and string limits and repeats no key |
| JsonExact.ParseExactly | bridge/lib/safe-json.js:123-301 | the parser answers with a value exactly when the text, by a grammar independent of the parser, is a JSON text for that value, has at most the permitted bytes and numerals, and the value keeps every other limit |
| JsonExact.TrailingRefused | bridge/lib/safe-json.js:131-138 | behind an accepted text and whitespace anything but more whitespace is refused |
| JsonExact.PaddingAccepted | bridge/lib/safe-json.js:131-138 | whitespace around an accepted text changes nothing but its length |
| JsonCanonical.CanonicalRoundTrip | bridge/lib/event-journal.js:34-60 | parsing a canonical form returns the value with its members in canonical order |
| JsonCanonical.CanonicalDecidesEquality | bridge/lib/event-journal.js:34-60 | canonical forms are equal exactly when the values are, up to member order, for all values without repeated keys, unpaired surrogates and values beyond the parser's limits included |
| JsonInjective.PrintedInjective | bridge/lib/event-journal.js:34-60 | printed text determines the value and what follows it |
| JsonCanonical.NormalizeTwice | bridge/lib/event-journal.js:34-60 | a canonical arrangement is its own canonical arrangement |
| JsonCanonical.PrintLayout | bridge/lib/event-journal.js:47-56 | collections print as their parts joined by commas between brackets |
| JsonParser.StrictJsonParser.ScanCharacters | bridge/lib/safe-json.js:236-272 | the scanning loop finds the string's value and its end, or no string |
| JsonParser.StrictJsonParser.IsWellFormed | bridge/lib/safe-json.js:110-121 | the loop decides well-formed Unicode |
| JsonParser.StrictJsonParser.ParseStringHere | bridge/lib/safe-json.js:236-272 | a string or key is read, checked and capped as the functional parser does |
| JsonParser.StrictJsonParser.ParseNumberHere | bridge/lib/safe-json.js:274-283 | a number is read and capped as the functional parser does |
| JsonParser.StrictJsonParser.ParseValueHere | bridge/lib/safe-json.js:153-165 | the moving index and node counter end where the functional parser does, or the same error is reported |
| JsonParser.StrictJsonParser.ParseMembersHere | bridge/lib/safe-json.js:171-209 | the member loop equals the functional parser, duplicate and forbidden keys included |
| JsonParser.StrictJsonParser.ParseItemsHere | bridge/lib/safe-json.js:211-234 | the item loop equals the functional parser |
| JsonParser.StrictJsonParser.ParseText | bridge/lib/safe-json.js:131-138 | the whole text parses as the functional parser says, which is exactly the grammar of `JsonExact.ParseExactly` |
| ReplayCache.TokenReplayCache.PushExpiry | bridge/lib/auth.js:274-283 | sifting up keeps heap order and adds exactly the entry |
| ReplayCache.TokenReplayCache.PopExpiry | bridge/lib/auth.js:285-303 | the head is returned, the rest keeps heap order and every other entry |
| ReplayCache.HeadIsEarliest | bridge/lib/auth.js:269-303 | the head of the heap expires no later than any entry |
| ReplayCache.TokenReplayCache.Prune | bridge/lib/auth.js:332-342 | exactly the expired entries are removed, and every popped expiry was live |
| ReplayCache.TokenReplayCache.ConsumeToken | bridge/lib/auth.js:345-364 | the heap-backed store behaves as the plain map does |
| ReplayCache.TombstoneKept | bridge/lib/auth.js:345-364 | a consumed token stays in the store until the clock passed its expiry, so no unexpired entry is evicted |
| ReplayCache.SingleUse | bridge/lib/auth.js:345-364 | over every sequence of calls and clock readings a second success with one identifier comes only after the first expiry, with a later one |
| ReplayCache.IdentifierReusable | bridge/lib/auth.js:345-364 | calls that consume one identifier twice with different expiries |
| ReplayCache.FreshTokenAccepted | bridge/lib/auth.js:345-364 | a call succeeds exactly when no earlier call read a later clock, its lifetime is permitted, no earlier success with its identifier is unexpired, and fewer earlier successes than the capacity are unexpired |
| ReplayCache.ReplayedExactly | bridge/lib/auth.js:345-364 | inside its lifetime and with a clock that did not recede, a call is refused as a replay exactly when an earlier success with its identifier is unexpired |
| ReplayCache.RefusedExactly | bridge/lib/auth.js:345-364 | exactly when a call is refused for a receding clock, an expired token or a token that lives too long |
| ReplayCache.EntryWasConsumed | bridge/lib/auth.js:345-364 | every entry of the store is an earlier success, with its expiry |
| ReplayCache.LiveCount | bridge/lib/auth.js:345-364 | the store holds exactly as many live entries as there are unexpired earlier successes |
| ReplayCache.Bounded | bridge/lib/auth.js:311-364 | the store never exceeds its capacity nor holds an expiry in the past or beyond the horizon |
| CredentialSlot.WrittenOnce | web/lib/credential-vault.ts:427-748 | for every interleaving the destination is written at most once, at most five claims succeed, and the row is completed exactly when the write happened, with its receipt and submission |
| CredentialSlot.WriteCompletes | web/lib/credential-vault.ts:538-662 | the write and the completion are one step of the holder of the live claim |
| CredentialSlot.LaterSubmissions | web/lib/credential-vault.ts:447-536 | after the write no claim succeeds, the winning submission gets the stored receipt and any other is told the slot was used |
| CredentialSlot.AnswersAgree | web/lib/credential-vault.ts:669-748 | whatever finalizers were told agrees with the one write, and at most one was told it completed it |
| CredentialSlot.StaleClaimPowerless | web/lib/credential-vault.ts:427-445 | a finalizer whose claim was taken over can neither write nor undo the new claim |
| SlotHistory.ClaimedExactly | web/lib/credential-vault.ts:447-536 | at any point of any interleaving a finalizer that begins gets the claim exactly when the slot is neither pruned, expired nor written, was claimed fewer than five times, and no live claim holds it |
| SlotHistory.WrittenExactly | web/lib/credential-vault.ts:538-662 | at any point of any interleaving the holder of a token writes exactly when the slot is neither pruned, expired nor written, its claim is live and the destination takes the write |
| AuthorityLedger.DispatchedOnce | bridge/lib/authority-client.js:131-214 | over every run each provider call starts at most one operation, even after eviction |
| AuthorityLedger.AccountsExact | bridge/lib/authority-client.js:670-705 | the in-flight counter is the number of pending calls, the retained bytes the exact sum over retained outcomes, within the cap |
| AuthorityLedger.RepeatedCall | bridge/lib/authority-client.js:156-176 | a repeated call with a fingerprint other than that of the invocation that started it is a conflict; otherwise it joins the pending operation, gets the outcome exactly while the settlement order lists it, and afterwards what the outcome said about execution |
| AuthorityLedger.StartedByInvoke | bridge/lib/authority-client.js:131-214 | every operation begun was begun by an invocation that was told so |
| AuthorityLedger.EvictionNeverSkips | bridge/lib/authority-client.js:686-705 | whenever a pending call settles, in every state its eviction loop reaches on the way to the settled ledger the oldest entry is settled, so the guard that skips an entry never fires |
| AuthorityHistory.AnsweredExactly | bridge/lib/authority-client.js:131-214 | at any point of any run a call is answered exactly as the history of invocations, endings and the closing says |
| AuthorityHistory.RetainedExactly | bridge/lib/authority-client.js:670-705 | the outcomes retained are those of the longest run of latest endings that fits the cap, in that order |
| AuthorityLedger.AuthorityClient.CallCapabilityGateway | bridge/lib/authority-client.js:131-214 | a call is answered, coalesced, refused or started as the functional ledger says |
| AuthorityLedger.AuthorityClient.SettleCall | bridge/lib/authority-client.js:670-705 | settling records the outcome and evicts the oldest until the cap holds |
| Catalog.MeasureCatalog | web/lib/active-capability-catalog.ts:310-352 | for every catalog the loop converges within four passes, and the embedded length is the least that equals the real one |
| Catalog.ThirdMeasureIsExact | web/lib/active-capability-catalog.ts:321-351 | the measure after three passes is a fixed point |

## Left out

- HTTP, sockets, timers, abort signals, cryptography, schema and pattern checks of identifiers, and SQL privileges.
- The concrete retry delays and deadlines of the journal, the rotation client and the authority client; waiting is any
  number of steps of the other parties.
- The `transact` loop is a state machine of its database steps, so that other callers can run between them.
- Which SQL rows are locked for a stream's identity; a receiver is either bound and live or not.
- The transport outboxes: whether a batch of frames was queued is an input of the playback step.
- Transcript buffers and audio decoding of the provider adapter; an event they refuse is modelled as a malformed frame.
- Item fields of the wrong shape in provider frames are one malformed item.
- The provider adapter's ledgers are one record inside the object rather than a field each.
- The decoding of a JSON string by the host and of a numeral to a floating-point number: escapes are decoded as
  RFC 8259 section 7 says, and numbers are any set with a faithful printer, which excludes minus zero.
- Splitting of binary JSON input into chunks and its UTF-8 decoding.
- Building, sorting and hashing of catalog entries; only the self-measuring loop is modelled.
- Execution of tool batches in a session and the catalog epoch across batches.
- Flow definitions and their coordinator, the web pages, telephony set-up and analysis of finished calls.
- Creation and pruning policy of credential slots; a slot exists, and its row may disappear at any step.
