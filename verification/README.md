# Machine-checked models of the chat client protocol and the OpenAPI and configuration scripts

This project models, in Dafny, the parts of the repository whose correctness is hardest to see from one
function at a time, and proves properties of them over every input, every run and every interleaving.

## What is modelled

**The A2A chat client** (`packages/a2a-chat-client/src`). One run is read from an event stream that may break,
is resumed by replay under a time and attempt budget, and can be aborted, cancelled, superseded or
disconnected at every await.

- `Translate`, `RunState` and `RunEngine`: wire events become chat frames; a cursor removes duplicates.
  `RunState` is the value of a run, `RunEngine` the mutable objects, proved to have the effect of the value functions.
- `Recovery` and `RecoveredRun`: the attempt loop against a clock that the environment moves. Every call, sleep and
  wait is recorded in a trace, and the laws of budget and evidence are laws of that trace.
- `Stream`: the incremental reader, against a reader of the whole text.
- `SendBan`, `Cancel` and `BanRuns`: the registry that outlives all providers, the answers to CancelTask, and when
  a ban may go.
- `Provider`, `ProviderRuns`, `AbortRuns`, `CancelRuns`, `TerminalRuns` and `RequestRuns`: each synchronous block between two awaits
  is one atomic step. `Provider` has the blocks as methods of the mutable provider and as functions; `ProviderRuns` is
  the step system in which the environment chooses events, failures and interleavings; the others hold its laws.

**OpenAPI documents.** `Pointer` prints and reads JSON Pointers. `Resolve` expands references across files.
`Discriminator` rewrites mappings as a function on trees, `DiscriminatorInPlace` does it inside a heap of dicts and
lists. `Prune` narrows components to a least closure, `Additive` copies one operation with its closure.

**Configuration merging.** `Merge` and `Allowlist` treat trees as values; `SharedTrees` has the allowlist on the heap,
where subtrees are shared and written through.

**Three scanning algorithms.** `Routes`, `Diff` and `Redact`.

`Json` and `Rpc` hold the values that several of these share.

## Assumptions about the surroundings

- Wire events obey the published contract where a lemma says so: numbers grow from 1, only task and message events
  have none, the final marker closes the log and may share the last number (`RunState.WellFormedLog`).
- `TerminalRuns.Orderly` says what the host and the parser do: two manual rounds that can still feed a terminal do not
  share a run, the parser reports completion on terminal frames only, and a fetched result is applied in the same breath
  as the last supersession check of its round.
- A token that cannot be had for CancelTask leaves the cancel unknown: the token getter throws no typed RPC error.
- Text parsing of JSON and YAML, HTTP, tokens, card probing and the clock are parameters or choices of the environment.

## Model

| member | source | states |
|---|---|---|
| RunState.ReplayIsExactlyOnce | packages/a2a-chat-client/src/A2aRunEngine.ts:81-176 | After any consumed prefix and any number of replay attempts from the same never-advanced `sinceSeq`, each cut off anywhere and each free to repeat or invent task and message events, the whole run (rolling text, cursor, anchor, frames, outcome, marks) equals one uninterrupted reading of the furthest prefix reached. |
| RunState.ReplayAdvancesTo | packages/a2a-chat-client/src/A2aRunEngine.ts:94-119 | One replay moves the run from log position `at` to the further of `at` and its own reach: what is behind is dropped, what is ahead is applied once. |
| RunState.ConsumedPrefixIsCovered | packages/a2a-chat-client/src/A2aRunEngine.ts:94-119 | After a prefix of a well-formed log every numbered event of it is either at or below the cursor or a terminal that was applied, and the cursor is the number of some event of the prefix. |
| RunState.OnlyNumberedEventsMatter | packages/a2a-chat-client/src/A2aRunEngine.ts:101-111 | Once the run has its task id, leaving all unnumbered task and message events out of a stream changes nothing. |
| RunState.TextIsEverythingSinceTheLastRestart | packages/a2a-chat-client/src/translate.ts:142-163 | After a log the rolling text is the concatenation of all artifact texts since the last `append: false`, each exactly once. |
| RunState.ArtifactsShowTheWholeText | packages/a2a-chat-client/src/A2aRunEngine.ts:106-120 | An artifact update that is no duplicate shows exactly one frame with the whole rolling text of the run after it, or nothing while that text is empty. |
| RunState.TerminalsSayHowTheRunEnded | packages/a2a-chat-client/src/A2aRunEngine.ts:101-141 | The parser is told how a run ended: a first terminal event adds one chat frame that says final with the whole text, or aborted, or error, and the bag's outcome and failure say the same. |
| RunState.FetchedResultsAreShownOnce | packages/a2a-chat-client/src/A2aRunEngine.ts:237-262 | A fetched COMPLETED result is shown once as a final frame of the session and run, with the fetched text or what was read so far; any other changes nothing. |
| RunState.FailuresCarryTheirDetails | packages/a2a-chat-client/src/providerFacts.ts:109-121 | A recorded failure has the event's error code and message, and a stand-in for a missing message. |
| Translate.ChatFramesNameTheirSession | packages/a2a-chat-client/src/translate.ts:123-139 | Every synthesized frame names its session in both places that the parser checks, has a non-empty run id, and carries and consumes the number of its event. |
| Translate.EachEventHasItsFrame | packages/a2a-chat-client/src/translate.ts:265-312 | Which events get an error frame, a final one, a delta, an engine frame, and which get none. |
| Translate.FramesSayWhatHappened | packages/a2a-chat-client/src/translate.ts:142-213 | The state that the parser acts on: error for a failure, aborted for a cancellation, final for a completed run, delta for an update; the last two show the whole rolling text, never an increment, and the others show nothing. |
| Translate.ErrorFramesHoldTheDetails | packages/a2a-chat-client/src/translate.ts:191-213 | An error frame holds exactly the event's error message, error code and engine frame, each only when the event has it. |
| Translate.EngineFramesAreRouted | packages/a2a-chat-client/src/translate.ts:217-262 | The event name of an engine frame: its own, else chat for a resolved interaction, else an approval request while input is required, else agent. |
| Translate.WhereEventsCarryTheirState | packages/a2a-chat-client/src/translate.ts:265-275 | Read by path: the task state, the final marker and the error code of an event. |
| Translate.WhereArtifactsCarryTheirText | packages/a2a-chat-client/src/translate.ts:112-119 | Read by path: an artifact's text is what its parts add, and it has none without a list of parts. |
| Translate.PartsAddUp | packages/a2a-chat-client/src/translate.ts:112-119 | The text of parts is the text of the first ones followed by that of the others. |
| Translate.FramesNameTheirRun | packages/a2a-chat-client/src/translate.ts:96-100 | The run of a frame is the event's own task, else the task of the run, else a stand-in. |
| Translate.EngineFramesPassWithoutLoss | packages/a2a-chat-client/src/translate.ts:217-263 | An engine frame passes unchanged, except that an approval without a request object gets one. |
| Translate.ApprovalWithoutRequest | packages/a2a-chat-client/src/translate.ts:226-252 | An approval frame without a request object, on which the parser throws, goes out exactly when the engine frame has none and the event name came with the frame; the fallback covers only the unnamed case. |
| RecoveredRun.RunRecovery | packages/a2a-chat-client/src/A2aRunEngine.ts:162-176 | Runner and run together: started from the run's own cursor against an environment whose every replay is an honest cut of the log, the runner hands on rounds that leave the run where an uninterrupted reading of some longer part of the log leaves it, and at the very end of the log when the runner reports a terminal, as long as no subscription handed on events or each sets in where the run was interrupted or earlier. |
| RecoveredRun.LateSubscriptionLosesText | packages/a2a-chat-client/src/recovery.ts:240-258 | The condition is needed: a subscription that sets in behind a text update leaves a run that no part of the log leaves. |
| RecoveredRun.RecoveryEqualsUninterruptedRun | packages/a2a-chat-client/src/recovery.ts:165-258 | The law behind it, for any rounds of prefixes of replays and subscriptions. |
| RecoveredRun.OneRound | packages/a2a-chat-client/src/recovery.ts:269-309 | One replay cut anywhere by time, failure or cancellation moves the run to some later log position. |
| RunEngine.A2aRunEngine.ConsumeWireEvent | packages/a2a-chat-client/src/A2aRunEngine.ts:81-143 | The method on the mutable cursor, anchor, bag, text cell, parser and registry has exactly the effect of `RunState.Consume` on their combined value, and releases the ban exactly when that says so. |
| RunEngine.A2aRunEngine.FeedOutput | packages/a2a-chat-client/src/A2aRunEngine.ts:112-142 | The part after translation: a second terminal is dropped before it reaches the parser, a first one sets all marks together. |
| RunEngine.A2aRunEngine.TakeRecoveredIncomplete | packages/a2a-chat-client/src/A2aRunEngine.ts:237-262 | A fetched COMPLETED state ends the run once with a synthesized final frame of the fetched or the rolling text; every other state and an already ended run change nothing. |
| Recovery.RecoveryRunner.Run | packages/a2a-chat-client/src/recovery.ts:165-197 | At most `maxAttempts` rounds; calls in strictly growing order below the budget and always from the same `sinceSeq`; sleeps and guarded waits on time; nothing after an authentication or protocol failure; every outcome has its evidence as the last thing seen, a cancelled one a question answered with yes; every attempt but the last ended with something that lets the next one run, and after such an end the run stops only when it was cancelled or has no time or attempt left; it ends unless an already active replay stays silent. |
| Recovery.RecoveryRunner.ConsumeStream | packages/a2a-chat-client/src/recovery.ts:269-309 | Hands on a prefix of the stream in order; a final marker ends it as that terminal state, its clean end as resumed or as a failed attempt, and an error is the stream's own or a timeout that the clock or the wait explains; only an active replay waits without a timer. |
| Recovery.RecoveryRunner.RefuseTriage | packages/a2a-chat-client/src/recovery.ts:223-258 | After a refusal at most one GetTask and one subscription, inside the same attempt and deadline; unknown only when the engine said not found, incomplete only with a terminal state it reported. |
| Recovery.RecoveryRunner.Attempt | packages/a2a-chat-client/src/recovery.ts:202-220 | An attempt ends exactly as the last thing seen and the call it came from decide: a refused replay goes to triage, an authentication or protocol failure settles, every other failure and an empty stream let the next attempt run; only a yes to a question ends it as cancelled and only the clock as exhausted. |
| Recovery.RecoveryRunner.Watch | packages/a2a-chat-client/src/recovery.ts:238-250 | A subscription is watched event by event under the timer; its clean end is a failed attempt. |
| Recovery.RecoveryRunner.TakeNext | packages/a2a-chat-client/src/recovery.ts:281-309 | One turn of the stream loop: the next event handed on, or the end that the stream, the timer or a yes to a question makes. |
| Recovery.RecoveryRunner.TimedGetTask | packages/a2a-chat-client/src/recovery.ts:332-336 | The answer of the engine or a typed timeout, never a wait beyond the remaining budget. |
| Recovery.BackoffIsWithinCap | packages/a2a-chat-client/src/recovery.ts:180-188 | Every untruncated sleep lies between half its cap, rounded down, and its cap, for every jitter. |
| Recovery.EverySleepOccurs | packages/a2a-chat-client/src/recovery.ts:180-188 | And every whole number of milliseconds from half the cap, rounded down, and short of the cap occurs for some jitter. |
| Recovery.CapsComeInOrder | packages/a2a-chat-client/src/recovery.ts:181 | The caps are used in their order, and the last one from then on; without caps there is no sleep. |
| Recovery.EngineErrorsAreSorted | packages/a2a-chat-client/src/recovery.ts:311-318 | Which errors of the engine stop a recovery, exactly, and which send a replay to triage; all others are tried again. |
| Recovery.TimedWithinBudget | packages/a2a-chat-client/src/recovery.ts:172-192 | All sleeps and guarded waits of a run together take at most `totalBudgetMs` and what the clock was turned back between its readings; for a clock that does not run backwards, at most the budget. |
| Recovery.CallsWithinBudget | packages/a2a-chat-client/src/recovery.ts:193-258 | At most one replay for each attempt and at most three engine calls within one. |
| Stream.StreamRpc | packages/a2a-chat-client/src/stream.ts:141-215 | For any chunking the events and the ending equal those of reading the whole text as one piece, unless a pending piece outgrew the cap; with no such piece in the text, always. |
| Stream.DrainBuffer | packages/a2a-chat-client/src/stream.ts:173-208 | The inner loop, which leaves at the first stop, yields what reading all lines of all complete blocks yields, and otherwise keeps exactly the piece after the last separator. |
| Stream.ReadBlock | packages/a2a-chat-client/src/stream.ts:178-207 | The line loop, which leaves at the first rejected line or final marker, yields what reading all lines of the block after those before it yields. |
| Stream.DrainInPieces | packages/a2a-chat-client/src/stream.ts:173-177 | Draining what has arrived and then the remainder with more text gives the blocks and the remainder of draining everything at once, also when a separator is split across chunks. |
| Stream.EventsHaveOneMember | packages/a2a-chat-client/src/stream.ts:50-60 | A result is an event exactly when it has one known member alone, as an object, and then the event is that member. |
| Stream.EventsAreWhole | packages/a2a-chat-client/src/stream.ts:57-59 | Its metadata is the member's, if that is an object, else empty, and its number is the metadata's, if that is a number, else none. |
| Stream.EventsComeBack | packages/a2a-chat-client/src/stream.ts:50-60 | An event put into a result comes back as it was, and a result that yields it holds it. |
| Stream.LinesBringTheirOwnEvents | packages/a2a-chat-client/src/stream.ts:178-200 | A line brings an event exactly when it holds one for this request; an envelope of another request is refused whatever it holds, and so is an error or a result of another shape. |
| Stream.ReadPrinted | packages/a2a-chat-client/src/stream.ts:141-215 | The round trip of a whole stream: events printed as envelopes of the request and read in any chunks come back in order up to the first final marker, and the stream ends as seen to its end exactly when there is one. |
| Stream.PrintedPiecesAreShort | packages/a2a-chat-client/src/stream.ts:208-213 | No pending piece of a printed stream is longer than one line with its newline. |
| Stream.BareErrorsAreReported | packages/a2a-chat-client/src/stream.ts:158-168 | A body that is one bare error envelope before any event is reported as that error. |
| Stream.EarlyStopIsFinal | packages/a2a-chat-client/src/stream.ts:199-207 | Text after a stop, whether final marker or rejection, changes nothing. |
| Stream.PrintedPayloadsAreReadBack | packages/a2a-chat-client/src/stream.ts:173-180 | Payloads without newlines, printed as data lines, come back as the same lines in the same order with nothing left over. |
| SendBan.KeysAreInjective | packages/a2a-chat-client/src/sendBan.ts:36-46 | Two pairs share a string key only when they are equal or an endpoint contains NUL. |
| SendBan.NulBreaksInjectivity | packages/a2a-chat-client/src/sendBan.ts:36-46 | With NUL in an endpoint two different pairs do share a key. |
| SendBan.KeysTellApartExactly | packages/a2a-chat-client/src/sendBan.ts:36-46 | Over any set of endpoints the keys tell all pairs apart if and only if no endpoint followed by NUL begins another endpoint. |
| SendBan.ScopesAreDisjoint | packages/a2a-chat-client/src/policy.ts:81-86 | Scopes without a blank keep the contexts of different bots apart. |
| SendBan.SendBanRegistry.Begin | packages/a2a-chat-client/src/sendBan.ts:37-42 | Adds exactly one pair; placing a ban again changes nothing. |
| SendBan.SendBanRegistry.IsBanned | packages/a2a-chat-client/src/sendBan.ts:44-46 | True exactly for the pairs in the set that the map stands for, while endpoints are free of NUL. |
| SendBan.SendBanRegistry.IsContextBanned | packages/a2a-chat-client/src/sendBan.ts:55-60 | True exactly when some endpoint has a ban on the context. |
| SendBan.SendBanRegistry.ReleaseOnConfirmedAbort | packages/a2a-chat-client/src/sendBan.ts:67-69 | Removes exactly one pair and touches no other. |
| SendBan.SendBanRegistry.ReleaseOnTerminal | packages/a2a-chat-client/src/sendBan.ts:76-78 | Removes exactly one pair and touches no other. |
| Cancel.AnswersAreClassifiedExactly | packages/a2a-chat-client/src/cancelOutcomes.ts:114-150 | Which answer counts as what, each kind exactly: clean only for a cancelled task with a confirmed abort, unknown only without any answer of the engine. |
| Cancel.AnswersWithoutATaskLift | packages/a2a-chat-client/src/cancelOutcomes.ts:114-150 | Two answers that prove nothing are among those that release (`Cancel.LiftedExactlyOnEvidence` has the exact condition): a success envelope without a task and a refused authentication. |
| BanRuns.BansAreLiftedOnlyOnEvidence | packages/a2a-chat-client/src/A2AProvider.ts:524-636 | For any number of providers, live or torn down, and any interleaving of their steps with any events: for a ban that is gone there is the step that removed it, and that step carried evidence about its own session (a confirming cancel answer, a COMPLETED or FAILED event, or a fetched one) or an event that lifts blindly. |
| BanRuns.FreedExactly | packages/a2a-chat-client/src/A2AProvider.ts:587-636 | Exactly when a step of a provider takes a ban away, for every step: the fence, the first terminal of the bag and the duplicate test for events, the place in the program and the classified answer for the others. |
| BanRuns.UnprovenAnswersKeepTheBan | packages/a2a-chat-client/src/A2AProvider.ts:524-636 | Behind each cancel that is queued and behind each answer that proves nothing the ban is in place, and a probe without a result leaves it. |
| BanRuns.OnlyUnknownCancelsAreProbed | packages/a2a-chat-client/src/A2AProvider.ts:560-570 | Only a cancel without an answer of the engine is probed. |
| BanRuns.BlindEventsExactly | packages/a2a-chat-client/src/translate.ts:264-290 | The events that lift a ban without naming COMPLETED or FAILED are those with an error code and final markers that name no terminal state. |
| BanRuns.ContractIsExact | packages/a2a-chat-client/src/A2aRunEngine.ts:112-141 | A contract for wire events guarantees that no run of new providers ever loses a ban without evidence if and only if it rules out every event that lifts blindly; each such event loses a ban in a run of one request. |
| BanRuns.BothKindsOccur | packages/a2a-chat-client/src/translate.ts:264-290 | A CANCELED marker with an error code and a final marker without a state are such events. |
| BanRuns.EventLiftsExactly | packages/a2a-chat-client/src/A2aRunEngine.ts:101-141 | An event releases the ban exactly when it is an error frame or a final one that is no cancellation, is not a duplicate, and is the first terminal of its bag. |
| Provider.A2AProvider.TakeSlot | packages/a2a-chat-client/src/A2AProvider.ts:358-388 | A request takes the slot with a new ticket; cursor, anchor and parser start afresh. |
| Provider.A2AProvider.OnToken | packages/a2a-chat-client/src/A2AProvider.ts:397-416 | Only the current ticket may send or give the slot back; a superseded one changes nothing. |
| Provider.A2AProvider.OnEvent | packages/a2a-chat-client/src/A2AProvider.ts:418-426 | A late event of a superseded request changes nothing; a current one has the effect of `RunState.Consume`. |
| Provider.A2AProvider.OnStreamEnd | packages/a2a-chat-client/src/A2AProvider.ts:473-478 | The slot is given back and the run settled only by the current ticket. |
| Provider.A2AProvider.OnStreamBroken | packages/a2a-chat-client/src/A2AProvider.ts:427-470 | Recovery starts exactly for a typed break of the current request with a task id and no outcome; before a task id the slot is given back and nothing is sent again. |
| Provider.A2AProvider.OnRecoveryDone | packages/a2a-chat-client/src/A2AProvider.ts:455-461 | A superseded recovery changes nothing; a current one gives the slot back and applies a fetched result. |
| Provider.A2AProvider.Abort | packages/a2a-chat-client/src/A2AProvider.ts:481-512 | The report follows anchor, dispatch record and slot as they were before the fence moved; with an anchor the ban is placed together with the cancel. |
| Provider.A2AProvider.Disconnect | packages/a2a-chat-client/src/A2AProvider.ts:292-302 | Moves the fence and frees the slot; cursor, anchor, frames and bans stay. |
| Provider.A2AProvider.CancelUnterminatedTask | packages/a2a-chat-client/src/A2AProvider.ts:657-662 | Cancels exactly when there is an anchor, no terminal and no request, and then moves the fence and places the ban. |
| Provider.A2AProvider.ApplyCancelBanDisposition | packages/a2a-chat-client/src/A2AProvider.ts:587-602 | The registry changes as the classified answer says, whatever the generation. |
| Provider.A2AProvider.ProbeAnswered | packages/a2a-chat-client/src/A2AProvider.ts:611-630 | Only a COMPLETED or FAILED task releases the ban. |
| Provider.A2AProvider.ManualRecoverable | packages/a2a-chat-client/src/A2AProvider.ts:672-673 | The gate of a manual round: an anchor, no terminal and no request in flight; it is tested before the wait for the parser. |
| Provider.A2AProvider.OpenManualRound | packages/a2a-chat-client/src/A2AProvider.ts:674-683 | After the wait, without another test, the round takes the generation of that moment and goes on with the anchor's task and text. |
| Provider.A2AProvider.OnManualDone | packages/a2a-chat-client/src/A2AProvider.ts:694-710 | A manual round applies a fetched COMPLETED result and nothing else. |
| ProviderRuns.StaleResumptionIsInert | packages/a2a-chat-client/src/A2AProvider.ts:397-476 | A resumption of a request whose ticket is not the current generation changes nothing but its own place in the program: not the slot, cursor, anchor, any text, parser, bans or the wire. |
| ProviderRuns.FreeSlotsAreTaken | packages/a2a-chat-client/src/A2AProvider.ts:347-416 | A request that finds the slot free takes it, at once or behind the connection it waited for, and sends once it has its token; one that finds the slot taken or gets no connection returns and changes nothing. |
| ProviderRuns.ReadingStopsAtTheFirstEnd | packages/a2a-chat-client/src/A2AProvider.ts:418-426 | The read loop goes on exactly while the request is current and its event ends nothing. |
| ProviderRuns.BreaksAreRecovered | packages/a2a-chat-client/src/A2AProvider.ts:427-470 | A broken stream of the current request is recovered with the slot kept when it is typed, the task is known and the outcome is not; else the request returns and the slot is free. |
| ProviderRuns.HoldersGiveTheSlotBack | packages/a2a-chat-client/src/A2AProvider.ts:397-478 | Whatever ends the last wait of a current request, a missing token, the end of its stream or of its recovery, ends the request and frees the slot. |
| ProviderRuns.SlotIsAlwaysHeld | packages/a2a-chat-client/src/A2AProvider.ts:350-372 | In every interleaving of requests, aborts, disconnects, cancels, manual rounds and resumptions: while the slot is taken, the current generation is the ticket of a request that has not returned, and tickets are unique. |
| ProviderRuns.SupersededForever | packages/a2a-chat-client/src/A2AProvider.ts:365-478 | A superseded request stays superseded, with its bookkeeping untouched, for any continuation. |
| RequestRuns.RequestEqualsUninterruptedReading | packages/a2a-chat-client/src/A2AProvider.ts:418-462 | The fence and the replay law together: in any interleaving with other requests, aborts, disconnects, cancels, manual rounds and their late resumptions, a request that holds its ticket and was brought a prefix of the log and any honest replays of it has the run of one uninterrupted reading of the furthest prefix, as long as no manual round opens in the middle of it and none applies a fetched result after it was superseded. |
| RequestRuns.RunIsIsolated | packages/a2a-chat-client/src/A2AProvider.ts:365-426 | While a request holds its ticket its run is what its own events make of a fresh run, whatever all other calls do in between, earlier, stale and finished manual rounds included, as long as no manual round opens in the middle of it and none applies a fetched result after it was superseded. |
| RequestRuns.OldRoundRewritesANewRequest | packages/a2a-chat-client/src/A2AProvider.ts:671-693 | The exception is real: `request` and `manualRecover` called in one tick after an unterminated run let the old run's round take the new request's ticket; its next event moves the new request's cursor, and a final marker of the old run settles the new run and frees its slot, although the new request got no event. |
| RequestRuns.UnterminatedRunsAreReachable | packages/a2a-chat-client/src/A2AProvider.ts:445-462 | From the first state some run leads to the state from which that starts: an exhausted recovery, and the next call. |
| RequestRuns.RoundMayOpenExactlyOutsideTheTicket | packages/a2a-chat-client/src/A2AProvider.ts:671-693 | Opening a manual round leaves the run of a request what its own events make of it, in every undisturbed continuation, if and only if the request does not hold the ticket at that moment. |
| RequestRuns.RetestingTheSlotIsExact | packages/a2a-chat-client/src/A2AProvider.ts:671-675 | In terms of what the provider can see after the wait for the parser: opening a round leaves every request in the slot alone, in every undisturbed continuation, if and only if `isRequesting` is false then; the code tests it before the wait only. |
| AbortRuns.AbortTellsTheTruth | packages/a2a-chat-client/src/A2AProvider.ts:481-527 | Over every run: each request sends at most once; one reported as never sent has not been and never will be; an unknown outcome was sent and never saw a task id; each cancel has its ban on record first and goes out once. |
| AbortRuns.OtherStepsSendNothing | packages/a2a-chat-client/src/A2AProvider.ts:397-455 | No step but the token step of the current request sends a message; no recovery and no manual round ever does. |
| AbortRuns.AbortPlacesBanExactlyWithATask | packages/a2a-chat-client/src/A2AProvider.ts:491-508 | An abort of a running request places a ban and queues one CancelTask for its own task id exactly when a task id was seen. |
| AbortRuns.ConsumeAnchors | packages/a2a-chat-client/src/A2aRunEngine.ts:82-93 | The first task id a request sees becomes the anchor with the same session and text, and stays. |
| CancelRuns.NoMoreCancelsExactlyWhenSettled | packages/a2a-chat-client/src/A2AProvider.ts:481-527 | No continuation whatever queues another CancelTask for the run that the anchor names if and only if that run is settled and no request is in the slot. |
| CancelRuns.AbortedTaskCanBeCancelledAgain | packages/a2a-chat-client/src/A2AProvider.ts:514-527 | There is no automatic retry, but no bound either: after an abort each further `cancelUnterminatedTask` queues one more CancelTask for the same task, any number of times, until the run is settled. |
| CancelRuns.CancelsRunExactly | packages/a2a-chat-client/src/A2AProvider.ts:657-662 | A CancelTask is queued exactly by an abort of a request in the slot with a task id and by the cancel of an unterminated run, always for the anchor's task. |
| TerminalRuns.OneTerminalPerTask | packages/a2a-chat-client/src/A2aRunEngine.ts:81-155 | Over every orderly run (request, automatic recovery, fetched result, manual rounds): the parser gets at most one final or error frame for each run, a bag has an outcome exactly when it applied a terminal and a failure exactly when it failed, and a terminal implies the settled mark of the engine while the request holds its ticket. |
| TerminalRuns.ConsumeMarksTerminal | packages/a2a-chat-client/src/A2aRunEngine.ts:112-141 | An event that ends a run sets outcome, terminal mark and settled mark together; one that does not leaves all three. |
| TerminalRuns.CallerLearnsTheOutcome | packages/a2a-chat-client/src/A2aRunEngine.ts:146-155 | With the marks that every run keeps, the way a request ends for its caller determines the outcome: a failure is never swallowed or made up. |
| TerminalRuns.CallerLearnsOfTheRecovery | packages/a2a-chat-client/src/A2aRunEngine.ts:179-196 | A recovered request ends quietly or as its run says only after the run went on, ended or was cancelled; each outcome that leaves the result open has its own signal, with the failure for a fatal one. |
| TerminalRuns.OverlappingRoundsFeedTwoTerminals | packages/a2a-chat-client/src/A2AProvider.ts:671-693 | Any two manual rounds on one run that have fed no terminal and go by the current generation, or will, can feed one each. |
| RequestRuns.OverlapsAreReachable | packages/a2a-chat-client/src/A2AProvider.ts:671-675 | Such an overlap occurs: from the first state, after an exhausted recovery the host calls for a second round before the first has ended. |
| TerminalRuns.RoundMayBeCalledExactlyWithoutOverlap | packages/a2a-chat-client/src/A2AProvider.ts:671-693 | A call of `manualRecover` keeps the law of one terminal, in every orderly continuation, if and only if no other round can still feed a terminal for the run it recovers; the code does not test for one. |
| Pointer.EscapedPartsComeBack | apps/bcs/scripts/bundle_openapi_contract.py:25-26 | Unescaping inverts escaping for every string, and an escaped part contains no slash (RFC 6901 section 4). |
| Pointer.PrintedPointersAreReadBack | apps/bcs/scripts/validate_openapi_contract.py:32-44 | A printed pointer to any existing place is read back as the value of that place (RFC 6901 sections 3 and 4). |
| Pointer.ReadPointer | apps/bcs/scripts/validate_openapi_contract.py:32-44 | The reading loop yields what hop by hop reading yields, with the error where a hop fails. |
| Pointer.IndicesCountFromBothEnds | apps/bcs/scripts/validate_openapi_contract.py:41-43 | An index of a list counts from the front, a negative one from the end, and one beyond either end is an error. |
| Pointer.SplitUndoesJoin | apps/bcs/scripts/validate_openapi_contract.py:40-42 | Parts without the separator survive joining and splitting. |
| Resolve.FailsExactlyOnCycles | apps/bcs/scripts/validate_openapi_contract.py:55-104 | On documents whose references resolve, with siblings only next to references to objects, expansion fails if and only if a chain of references from the entry meets a reference twice; diamonds are accepted. |
| Resolve.LoadsExactlyWithoutCycles | apps/bcs/scripts/validate_openapi_contract.py:107-114 | On such documents a contract loads if and only if no chain of references from the entry comes back and the entry leads to an object, and what is loaded holds no reference. |
| Resolve.ExpandedHasNoRefs | apps/bcs/scripts/validate_openapi_contract.py:62-104 | No `$ref` key is left at any depth of a result. |
| Resolve.StackOnlyGuards | apps/bcs/scripts/validate_openapi_contract.py:73-84 | The reference stack decides only whether expansion fails, never what it yields. |
| Resolve.NoRefsExpandToThemselves | apps/bcs/scripts/validate_openapi_contract.py:93-104 | A value without references is its own expansion. |
| Resolve.ExpansionPreservesReading | apps/bcs/scripts/validate_openapi_contract.py:55-104 | Any path read in the expanded document leads to the expansion of what following references step by step, only as far as each step needs, leads to. |
| Resolve.ReferencesNameFileAndPlace | apps/bcs/scripts/validate_openapi_contract.py:64-72 | A reference names a file before its '#', its own when there is none, and a place in it behind; without a '#' it names the whole file. |
| Resolve.ReferencesLeadToPlaces | apps/bcs/scripts/validate_openapi_contract.py:73-79 | A reference with a printed pointer leads to the place that the pointer was printed for. |
| Discriminator.MappingsResolve | apps/bcs/scripts/bundle_openapi_contract.py:29-72 | After the rewrite every mapping entry of every discriminated object, read as a pointer into the whole rewritten document, yields the one oneOf variant whose `const` is that value. |
| Discriminator.MappingsPointAtVariants | apps/bcs/scripts/bundle_openapi_contract.py:40-69 | The same for the object at any path of any subtree, in terms of its own variants. |
| Discriminator.VariantIsKept | apps/bcs/scripts/bundle_openapi_contract.py:51-59 | Rewriting a variant does not change which discriminator values it stands for. |
| Discriminator.VariantsPinTheirProperty | apps/bcs/scripts/bundle_openapi_contract.py:51-59 | Read by path: a variant of a value pins the named property to it. |
| Discriminator.WhereMappingsStand | apps/bcs/scripts/bundle_openapi_contract.py:40-47 | Read by path: what makes an object discriminated, and where its mapping and its property name stand. |
| DiscriminatorInPlace.RewriteDocument | apps/bcs/scripts/bundle_openapi_contract.py:89 | The walk that replaces mappings inside a tree of mutable dicts and lists turns exactly the document into its rewriting, and raises exactly when there is none. |
| DiscriminatorInPlace.RewriteNode | apps/bcs/scripts/bundle_openapi_contract.py:29-72 | The same for one node, which changes no object outside its own part of the tree. |
| DiscriminatorInPlace.TakeMapping | apps/bcs/scripts/bundle_openapi_contract.py:40-69 | A discriminated object gets the whole new mapping, or the walk raises exactly when some value has not one variant; an object that is not discriminated stays as it is. |
| DiscriminatorInPlace.Remap | apps/bcs/scripts/bundle_openapi_contract.py:48-68 | The loop over mapping keys and variants yields the new mapping, or raises when some value has not exactly one variant. |
| Prune.PruneComponents | apps/backend/scripts/dump_openapi.py:49-75 | For every order in which the sets hand out references the two loops end with the components of the least closure. |
| Prune.CollectNeeded | apps/backend/scripts/dump_openapi.py:53-65 | The worklist ends with exactly the references that a chain of references from the kept paths reaches. |
| Prune.CollectRefs | apps/backend/scripts/dump_openapi.py:78-88 | The accumulator grows by exactly the component references among the strings at any depth. |
| Prune.RefsStandAtPaths | apps/backend/scripts/dump_openapi.py:78-88 | Those are exactly the strings that begin like a component reference and stand at some path of the value. |
| Prune.SlotsArePlaces | apps/backend/scripts/dump_openapi.py:91-103 | A reference leads to the place that its section and name say. |
| Prune.HoldsExactlyTheReachable | apps/backend/scripts/dump_openapi.py:67-75 | Read at any reference the result has the original value when the reference is reachable and nothing otherwise. |
| Prune.ReferencesKeepTheirTargets | apps/backend/scripts/dump_openapi.py:49-75 | Every reference in the kept paths or in the result leads where it led before, dangling ones included, as the script itself resolves references: section and name. |
| Prune.ReferencesAtAnyPathKeepTheirTargets | apps/backend/scripts/dump_openapi.py:49-88 | That holds for a reference at any path of the kept paths or of the result. |
| Prune.PointersSurviveExactly | apps/backend/scripts/dump_openapi.py:49-103 | Read as a JSON Pointer instead, a reference into a component leads in the result to its old value when the plain reference of that whole component is reachable, and to nothing otherwise; so it survives if and only if it led nowhere before or that plain reference is reachable. |
| Prune.SectionsSurviveExactly | apps/backend/scripts/dump_openapi.py:49-103 | A reference to a whole section survives if and only if the section was missing, or is an object that is not empty and all of whose components are reachable. |
| Prune.PlainReferencesSurvive | apps/backend/scripts/dump_openapi.py:49-75 | References in use with four parts and no tilde survive under both readings when their section is an object. |
| Prune.DeeperReferencesDangle | apps/backend/scripts/dump_openapi.py:91-103 | A reference to a place inside a component keeps nothing by itself: as the only one in the kept paths it leads somewhere before and nowhere after. |
| Prune.SmallestSelfContainedPart | apps/backend/scripts/dump_openapi.py:49-75 | The result is a part of the components in which all references keep their targets, and every other such part includes it. |
| Prune.PruningIsIdempotent | apps/backend/scripts/dump_openapi.py:49-75 | Pruning twice is pruning once. |
| Prune.RefPartsReadsRefOf | apps/backend/scripts/dump_openapi.py:91-95 | Reading and printing a reference are inverse, so different references name different components. |
| Prune.ResolveRef | apps/backend/scripts/dump_openapi.py:98-103 | A missing component and a null one both count as no target to follow. |
| Additive.AdditiveDocument | apps/gateway/scripts/publish_additive_openapi_operation.py:46-92 | The result of the worklist is the published document with the path and the reachable components put in, or an error whose cause is a failed check or a fault of some reachable reference. |
| Additive.PublishedExactly | apps/gateway/scripts/publish_additive_openapi_operation.py:46-92 | It is published if and only if the method is known and in the candidate, both documents have one version, a published path is the candidate's own with no other method, and every reachable reference can be copied. |
| Additive.PassesExactly | apps/gateway/scripts/publish_additive_openapi_operation.py:46-72 | Read by path: exactly which operations pass the checks in front of the worklist. |
| Additive.FaultlessExactly | apps/gateway/scripts/publish_additive_openapi_operation.py:24-43 | Read by path: exactly which references can be copied: plain, leading to something in the candidate, and meeting nothing else in the document. |
| Additive.PublishedStays | apps/gateway/scripts/publish_additive_openapi_operation.py:72-90 | On success every published member, non-null path and component is unchanged. |
| Additive.OnlyTheClosureIsAdded | apps/gateway/scripts/publish_additive_openapi_operation.py:76-90 | The only additions are the chosen path, with the candidate's item, and components that its references reach in the candidate. |
| Additive.ResultIsClosed | apps/gateway/scripts/publish_additive_openapi_operation.py:78-90 | Read from the item, the result has the same reachable references as the candidate, and each leads to the candidate's value, never to nothing or null. |
| Additive.PublishingAgain | apps/gateway/scripts/publish_additive_openapi_operation.py:58-76 | Applying it again changes nothing when the item has no other method; otherwise it is refused. |
| Additive.FaultsDoNotMove | apps/gateway/scripts/publish_additive_openapi_operation.py:85-89 | What was copied so far never decides whether another reference can be copied, so success does not depend on the order. |
| Merge.DeepMerge | docker/agent/merge-config.py:141-162 | The merge with its loops over keys, ids and lists computes the merge function, whatever the order of keys. |
| Merge.TargetEntriesStayInPlace | docker/agent/merge-config.py:148-156 | In a list merged by id each target entry keeps its place, merged with the one base entry of its id or unchanged without one. |
| Merge.NewEntriesFollowInOrder | docker/agent/merge-config.py:157-160 | Base entries with new ids follow in base order, and the merged list holds nothing else. |
| Merge.UnchangedExactlyWhenIncluded | docker/agent/merge-config.py:141-162 | A merge leaves the target as it is exactly when the target already includes the base, an independent structural relation. |
| Merge.IdempotentExactlyWhenSettled | docker/agent/merge-config.py:141-162 | Merging again changes nothing, for every target, if and only if the base includes itself. |
| Merge.DistinctIdsAreSettled | docker/agent/merge-config.py:148-160 | A tree whose id-lists have distinct ids includes itself, so merging it into itself changes nothing. |
| Merge.RepeatedIdsBreakIt | docker/agent/merge-config.py:150-160 | Two entries with one id give a base for which the second merge changes the result. |
| Merge.DropsExactlyTheMarkers | docker/agent/merge-config.py:61-71 | Dropping leaves no UNSET member and changes a value exactly when it had one. |
| Merge.MergeBringsNoMarker | docker/agent/merge-config.py:58-71 | Merging a dropped base brings no UNSET member into a target without one. |
| Allowlist.ListedPathsReadTheSame | docker/agent/merge-config.py:93-116 | Every listed path that the base has reads the same in the restricted tree, for lists in any order with duplicates and prefixes. |
| Allowlist.DottedPathsNameTheirKeys | docker/agent/merge-config.py:93-100 | A dotted path names one key for each piece between dots, and every list entry is of this form. |
| Allowlist.TrimmedReads | docker/agent/merge-config.py:93-116 | The reading of the restricted tree at every path: the base's on and under listed paths, an object above them, and an object that lacks the next key elsewhere. |
| Allowlist.UnlistedPathsAreUntouched | docker/agent/merge-config.py:262-265 | After restricting, dropping and merging, every path that neither extends nor leads to a found listed path reads exactly as in the target. |
| Allowlist.ListedPathsAreMerged | docker/agent/merge-config.py:262-265 | A found listed path gets the base's value merged in, or keeps the target's when that value is UNSET. |
| Allowlist.MergedReads | docker/agent/merge-config.py:141-147 | The reading of a merge at every path: the base wins where it has the path and is silent where it ends in an object without the next key. |
| Allowlist.RepeatedBootsChangeNothing | docker/agent/merge-config.py:39-43 | A second boot with the same image and allowlist does not change the file, when no list of the image repeats an id. |
| Allowlist.NothingFoundIsANoOpOnObjectsOnly | docker/agent/merge-config.py:100-102 | An allowlist that finds nothing is a no-op exactly for targets that are objects; the comment promises it for all. |
| SharedTrees.RestrictToPaths | docker/agent/merge-config.py:93-116 | On the heap, where the result shares subtrees with the base and later paths are written through them: the base is as before, and the result stands for the restricted tree. |
| SharedTrees.Put | docker/agent/merge-config.py:111-115 | One listed path: new dicts only where nothing was, and the last write changes a shared dict to what it was. |
| SharedTrees.GetPathOf | docker/agent/merge-config.py:79-90 | The walk through dicts finds exactly what the tree has at the path. |
| Routes.BuildTemplateMatchers | apps/bcs/scripts/adapters_endpoint_coverage.py:212-233 | For each method the templates of that method in stable order of falling literal masks. |
| Routes.MatchHit | apps/bcs/scripts/adapters_endpoint_coverage.py:236-260 | The scan with its flags returns the first template of the list that matches. |
| Routes.MostSpecificTemplateAnswers | apps/bcs/scripts/adapters_endpoint_coverage.py:236-260 | A template is returned exactly when some template of the method matches, and it is the one with the lexicographically greatest literal mask, the first registered among equals. |
| Routes.TemplatesAnswerThemselves | apps/bcs/scripts/adapters_endpoint_coverage.py:212-260 | A registered template used as a hit is answered by the first registered template that equals it up to parameter names; with no two such templates, by itself. |
| Routes.SortIsAPermutation | apps/bcs/scripts/adapters_endpoint_coverage.py:221-232 | The sort loses and invents nothing and its result falls in mask order. |
| Routes.SegmentsOfBoth | apps/bcs/scripts/adapters_endpoint_coverage.py:208-209 | Segments are what stands between slashes, empty ones left out: those of a path put together are those of its parts. |
| Routes.ParamsStandInBraces | apps/bcs/scripts/adapters_endpoint_coverage.py:222-227 | A parameter is a segment in braces. |
| Routes.OneTemplateForEachEndpoint | apps/bcs/scripts/adapters_endpoint_coverage.py:218-220 | Each endpoint registers one template for its own method, in their order. |
| Diff.DecodingInvertsQuoting | apps/bcs/scripts/changed_line_cov.py:36-53 | Decoding inverts C-quoting for every byte string. |
| Diff.PrintedPathsAreReadBack | apps/bcs/scripts/changed_line_cov.py:36-53 | A path printed as git prints it in a header, quoted when it must be and with a tab after every name with a blank, is read back if and only if it is not both quoted and with a blank. |
| Diff.QuotedNameBeforeATabIsNotDecoded | apps/bcs/scripts/changed_line_cov.py:36-40 | A lost path, printed with quotes and a tab behind them, is read as raw text with its quotes. |
| Diff.DecodeGitPath | apps/bcs/scripts/changed_line_cov.py:36-53 | The index loop decodes unit by unit and raises exactly where a unit has no byte. |
| Diff.TargetIsRead | apps/bcs/scripts/changed_line_cov.py:113-119 | The target line of a file puts its path below `apps/bcs/` in force, and none for a lost name. |
| Diff.ReadingCountsUnderThePathInForce | apps/bcs/scripts/changed_line_cov.py:108-129 | For any list of files and hunks printed as a `-U0` diff, with any names and any text on the added lines: reading raises exactly when an added line `++ t` has a target that does not decode, and else each hunk counts under the path that the last target line before it put in force, the file's own (none for a lost name) or such an added line. |
| Diff.ReadingUndoesPrinting | apps/bcs/scripts/changed_line_cov.py:108-129 | The reader returns exactly the added line numbers of each file under `apps/bcs/`, and an entry only for files that have some, whenever every hunk with added lines is read under its own file's path. |
| Diff.WithoutTargetsThePathIsKept | apps/bcs/scripts/changed_line_cov.py:113-119 | A file without added lines that start with `++ ` is read under its own path if and only if it does not lose lines: is outside `apps/bcs/`, has a name that is not lost, or adds no line. |
| Diff.PlainDiffsAreReadRightExactlyWithoutLostNames | apps/bcs/scripts/changed_line_cov.py:36-40 | A whole diff without added lines that start with `++ ` is read right if and only if no file below `apps/bcs/` that adds lines has a name with both a blank and a character that must be quoted; the lines of each such file are lost. |
| Diff.ReadRightExactlyWhenItKeepsItsPath | apps/bcs/scripts/changed_line_cov.py:108-129 | For one file whose hunks add different lines the condition is exact for every name and every content: the diff is read right if and only if nothing raises and no hunk with added lines is read under another path than the file's own. |
| Diff.ParseDiff | apps/bcs/scripts/changed_line_cov.py:108-129 | The loop over lines with its current file computes the reading line by line. |
| Diff.AddedPlusPlusLineHidesLaterHunks | apps/bcs/scripts/changed_line_cov.py:113-119 | In particular a hunk whose last added target line names no file under `apps/bcs/` hides every later hunk of its file; `++ x` is such a line (`Diff.PlusPlusNamesNoFile`). |
| Redact.MergeSpans | devops/hook/check_secrets.py:168-173 | The merged spans are sorted, separated by at least one position, cover exactly the union, and start and end where some span does. |
| Redact.SeparatedCoverIsUnique | devops/hook/check_secrets.py:168-173 | There is only one separated list of non-empty spans with a given union. |
| Redact.RedactSpans | devops/hook/check_secrets.py:147-178 | Merging, then replacing from right to left, gives the redaction of the text. |
| Redact.SecretsDoNotShow | devops/hook/check_secrets.py:120-126 | Non-interference: two texts of one length that agree outside the merged spans, and in spans longer than 8 in the first two and last three characters, are redacted alike. |
| Redact.MasksHide | devops/hook/check_secrets.py:123-126 | A mask shows nothing of a value up to 8 characters, and of a longer one its ends and not its length. |
| Redact.MergedIsTheUnion | devops/hook/check_secrets.py:168-173 | The merged spans are sorted, separated, cover exactly the union and hold every span, and their bounds are bounds of spans. |
| Redact.RedactedInTurn | devops/hook/check_secrets.py:175-178 | A redaction is the gaps of the text and the masks of the merged spans in turn, and the gaps together are exactly the characters that no matched span covers. |
| Redact.GapsAreTheUncoveredText | devops/hook/check_secrets.py:175-178 | The gaps are exactly the characters that no matched span covers. |

## Left out

- Network and platform: fetch, headers, tokens, HTTP status classification, non-stream bodies, UTF-8 decoding, JSON and YAML text parsing, git subprocesses and file writes.
- The chat SDK's parser beyond a growing log of frames that may also report completion and so free the slot; approval blocking and `resolveApproval`.
- Message strings, UI callbacks (`onComplete`, `onError`, `notifyHardFailure`), connection status, and host callbacks that call back into the provider synchronously.
- The gates in front of `request` for file references, attachments and injection, card probing, URL derivation, and the choice cache.
- Abort signals as such: the environment may end any stream at any point, which includes what a signal does.
- Numbers are integers, and Python's equality of `True`, `1` and `1.0` is not modelled.
- RunState.ReplayIsExactlyOnce: covers replay attempts; a subscription after a refusal may skip events (see `RecoveredRun.RunRecovery`).
- RecoveredRun.RunRecovery: concludes nothing about the run once a subscription that sets in behind the interruption handed on events; text is lost then (see `RecoveredRun.LateSubscriptionLosesText`).
- Recovery.TimedWithinBudget: the time spent riding an already active replay is outside the budget, as in the code.
- Recovery.RecoveryRunner.TimedGetTask: a reply that takes exactly the whole budget counts as a timeout; the original leaves this tie to the event loop.
- RequestRuns.RequestEqualsUninterruptedReading: fails when a manual round opens in the middle of the request, which the code allows (see `RequestRuns.OldRoundRewritesANewRequest`); the end of a round and the use of its result are taken as one step; that a round also overwrites the abort controller of the request is not modelled, since the environment may end any stream.
- TerminalRuns.OneTerminalPerTask: assumes that no manual round is called while another can still feed a terminal for the same run, a condition shown to be exact (`TerminalRuns.RoundMayBeCalledExactlyWithoutOverlap`), that the parser completes on terminal frames only, and that a round's end is atomic; the code guards none of them.
- BanRuns.BansAreLiftedOnlyOnEvidence: the code has no guard against events that lift blindly, and evidence includes every CancelTask answer that the code classifies as a rejection (see `Cancel.AnswersWithoutATaskLift`).
- Stream.StreamRpc: works on decoded characters; envelope parsing is a parameter that also does the trimming.
- Pointer.ReadPointer: Python's `int` also accepts blanks, underscores and other digits than ASCII ones; those spellings of an index are not modelled.
- Resolve.FailsExactlyOnCycles: the file cache is not modelled; all files are given at once.
- Discriminator.MappingsResolve: trees have string keys, and mapping values and `const` are compared as strings.
- DiscriminatorInPlace.RewriteDocument: after a raised error nothing is said about the half rewritten tree.
- Additive.AdditiveDocument: the method name arrives in lower case; which of several faults is reported depends on the order of a set and is left open, as in the code.
- Merge.DeepMerge: ids that cannot key a Python dict (objects and lists) raise in the original; here they are compared like other values.
- Allowlist.RepeatedBootsChangeNothing: does not model the backup file, the atomic write and the statistics that are printed.
- Diff.ReadingUndoesPrinting: holds for files that keep their path, which lost names break (see `Diff.PlainDiffsAreReadRightExactlyWithoutLostNames`); only newlines end lines, lines hold none, the lines before a target line are not taken for headers, and git prints bytes from 128 on as octal escapes; the UTF-8 decoding with surrogate escapes around it is not modelled.
- Diff.DecodeGitPath: Python's `int` also accepts blanks and underscores in an octal escape, which git never prints.
- Redact.RedactSpans: the patterns that find the spans, entropy, and the source recognisers are not modelled; spans lie within the text.
- `validate_contract`, the gates and reports around the scripts, `parse_router`, coverage joining, and `publish` with its compatibility gate.
- `apps/baas/scripts/dump_openapi.py` repeats the pruning code and is not modelled a second time.
