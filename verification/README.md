# A verified model of the Worker, the graph mergers and the process supervisor

Dafny models of the hard parts of the repository, each in the form its source has: classes for the objects
that change state, loops for the loops, datatypes and functions where the source is expressions.

- **The HTTP worker runtime** (`packages/worker`). `WorkerProtocol.dfy` is a transition system with one event
  for each uninterrupted JavaScript turn; completions, deferred drains, event deliveries, the clock and `stop()`
  interleave arbitrarily. `WorkerInvariants`, `WorkerShutdown`, `WorkerStop` and `WorkerIdempotency` prove its
  safety over all runs, `WorkerTurns`, `WorkerEvents`, `WorkerReplies`, `WorkerClocks` and `WorkerLives` tell every run,
  event, answer, record and lifecycle state from the turns, `WorkerProgress` and `WorkerRank` prove that a stop ends. `WorkerRuntime.dfy` is the runtime object
  itself, on top of the scheduler, the store and the shared record objects (`RunChains.dfy`); each of its turns takes
  exactly one step of the protocol, so the theorems about the protocol are about it. The parts have their own files:
  `RunScheduler`, `IdempotencyStore` (with `SchedulerHistories` and `IdempotencyHistories`), `CanonicalJson`,
  `JsonGate`, `AgentResults` (the contract of a result and what is sent of it), `ExecuteRun` (the tail of
  `executeAgent`), `CallbackDelivery`, `RetryAfter`, `EventEmitter`, with `EventBodies` for what an event says and
  `SentBody`, `SentReads` and `EventSizes` for what is sent rather than measured.
- **The graph mergers** (`skills/understand`). `TestedBy` says what pass 1 of the linker produces without
  reference to the order of work; `LinkTests` runs it in place and proves it equal; `LinkTheorems` proves
  conservation and idempotence; `LinkReadings` and `LinkSupplements` tell its result from the graph alone. `NodeIds`,
  `NodeSpellings`, `EdgeTable`, `MergeBatchGraphs`, `MergeBatchTheorems` and `MergeBatchOutcome` cover the batch merger,
  `MergeSubdomainGraphs`, `SubdomainRuns`, `SubdomainHistories` and `SubdomainEdges` the merger that retries across runs;
  `NodeLists` is the dict of nodes by id that both build.
- **The process supervisor** (`services/local-executor-host`). `Supervisor` is the event-driven object,
  `SupervisorHistories` and `SupervisorSignals` its promises over all event sequences, `ReadBounded` the bounded reader
  of the native twin.

`dafny verify dfyconfig.toml` checks everything.

Where the code does not do what one would expect, the model follows the code and a lemma says so:

- `get` of the idempotency store shows an expired record until something sweeps it; everything else cannot tell.
- A result can pass `parseAgentResult` and not `asJsonValue`: a date in the metadata does, and so does an optional
  property that is there but undefined, as in a usage of `{ inputTokens: undefined }`. Its delivery rejects: the record
  stays `callback_pending` and no terminal event is issued. A failure hook that throws, together
  with a logger that throws, suppresses the terminal event too. `StoppedMeansDrained` gives the exact conditions,
  `RefusedResultStaysPending` and `ThrowingHookSilencesTerminal` a run of the event loop for each.
- A request accepted while the worker is stopping may still be delivering its cancellation at "stopped".
- `asJsonValue` uses `map`, which skips the empty slots of an array, so it accepts sparse arrays although it refuses
  `undefined` everywhere else. Their canonical text is not JSON, and an event whose payload has them is sent with four
  more bytes for each than were measured: the emitter can pass an event that the orchestrator, which measures what
  it receives (`services/orchestrator/src/services/agent-event.service.ts:79-81`), refuses as too large.
- Any failure while reading a callback response is reported as `response-too-large` and not retried.
- `parseRetryAfterDeltaSeconds` compares text, which would be wrong for a negative maximum: "7" under -5 seconds is 7.
  No caller passes one, because `maxDelayMs` is validated as a positive integer
  (`packages/worker/src/config/worker-config.validation.ts:99-102`).
- An edge that waits in the merge report is read last, so an equally heavy newcomer replaces it, and a NaN weight can
  make a run forget the greatest weight.
- A process killed by someone else's SIGTERM or SIGKILL is reported as a wall-clock kill; with a deadline present every
  timed kill is labelled as the deadline's.

Inputs the model takes as given: the outcome of each HTTP attempt, the random numbers and the clock, the answers of
`is_test_path`, `production_candidates` and `str.lower`, the order in which a Python set is visited, the bytes a
process writes, and which turn comes next.

## Model

| member | source | states |
|---|---|---|
| `WorkerTurns.StoppedMeansDrained` | packages/worker/src/lifecycle/worker-lifecycle.ts:404-451 | after any sequence of turns that reaches "stopped", on the graceful or the forced path: the scheduler is idle and empty, and every run accepted before the scheduler stopped accepting has made exactly one result delivery, its chain is over and untracked, and its terminal event, if scheduled, has been delivered; the turns of the run are a whole chain with one of four ends: refused by `asJsonValue` (exactly when its agent came back with a stranded outcome, see `ExecuteRun.StrandedExactly`), delivered, not delivered, or not delivered with a hook and a logger that threw; the record is left pending, delivered or failed accordingly, and the terminal event was issued if and only if the result was not refused and no turn said that hook and logger threw |
| `WorkerTurns.EveryRunTold` | packages/worker/src/lifecycle/worker-lifecycle.ts:404-451 | in every reachable state the turns a run has taken so far are exactly those that lead to where its chain stands, in order, and its record, its result and its flags are what these turns leave |
| `WorkerTurns.TurnsDecide` | packages/worker/src/lifecycle/worker-lifecycle.ts:430-440 | the record is delivered, or failed, if and only if a turn answered the delivery so, and hook and logger have thrown if and only if a turn said so |
| `WorkerEvents.EventsTracked` | packages/worker/src/lifecycle/worker-lifecycle.ts:696-707 | events are numbered as they are scheduled, and the delivery of each, of whatever kind and run, is in `callbackWork` from then until it has been delivered |
| `WorkerEvents.TerminalEventNumber` | packages/worker/src/lifecycle/worker-lifecycle.ts:438-440 | a run's terminal event is the one that its own turn scheduled |
| `WorkerEvents.StoppedMeansDelivered` | packages/worker/src/lifecycle/worker-lifecycle.ts:737-742 | at "stopped" the drain that ended the stop had found nothing: every event scheduled by then had been delivered |
| `WorkerLives.LifeIsTold` | packages/worker/src/lifecycle/worker-lifecycle.ts:69-172 | in every reachable state the lifecycle state is told by which of start, stop, bind and completion have happened: in particular a stop during a start is over only when the start has failed or a whole stop has completed |
| `WorkerStop.RefusedOutputEndsTerminal` | packages/worker/src/execution/execute-run.ts:152-181 | in particular a run whose output the agent's parser or `asJsonValue` refused ends with a terminal record, and its result is the failure `AGENT_OUTPUT_INVALID` |
| `WorkerStop.ByHandlerExactlyWhenLate` | packages/worker/src/lifecycle/worker-lifecycle.ts:373-382 | a run is left to its request handler alone if and only if the scheduler had stopped accepting before the handler's turn, and it stays so for good |
| `WorkerStop.AcceptingUntilShutdown` | packages/worker/src/lifecycle/worker-lifecycle.ts:709-714 | in every reachable state the scheduler accepts if and only if no shutdown has begun |
| `WorkerStop.ResultWasReturned` | packages/worker/src/lifecycle/worker-lifecycle.ts:421-442 | whenever a run's agent comes back in a history, the run's result is, from then on, what `executeAgent` makes of that outcome; and a run that has a result has such a turn |
| `WorkerStop.RefusedResultStaysPending` | packages/worker/src/callback/callback-delivery.ts:82-85 | a counterexample run of the event loop: the agent returns `context.success` with a date in its metadata, `parseAgentResult` accepts the result and `asJsonValue` refuses it, and at "stopped" the record is still `callback_pending` with no terminal event |
| `WorkerStop.ThrowingHookSilencesTerminal` | packages/worker/src/lifecycle/worker-lifecycle.ts:663-694 | a counterexample run of the event loop: an ordinary result cannot be delivered, the failure hook and the logger throw, and at "stopped" no terminal event was issued |
| `ExecuteRun.ResultKeepsContract` | packages/worker/src/execution/execute-run.ts:106-182 | whatever wins the race of handler, timeout and shutdown, and whatever the agent returned or threw, there is a result and `parseAgentResult` accepts it: the promise never rejects |
| `ExecuteRun.RefusedOutputIsReported` | packages/worker/src/execution/execute-run.ts:152-181 | an output that the agent's parser or `asJsonValue` refuses becomes the failure `AGENT_OUTPUT_INVALID`, which can be sent |
| `ExecuteRun.StrandedExactly` | packages/worker/src/execution/execute-run.ts:131-182 | `asJsonValue` refuses what `executeAgent` hands over if and only if the contract accepts it and either the usage, artifacts or metadata of `context.success` reach an undefined or an instance of a class, or the failure object of an `AgentExecutionError` is itself an instance of a class or has a property that is undefined |
| `ExecuteRun.UncountedIsStranded` | packages/worker/src/execution/execute-run.ts:172-174 | one such outcome: `context.success` with the usage `{ inputTokens: undefined }` |
| `ExecuteRun.RepliesAreAnswered` | packages/worker/src/execution/execute-run.ts:152-181 | for every reply of an agent: the result succeeds, its output is the finite tree to which what the parser gives unfolds, absent exactly when the reply gives none, and usage, artifacts and metadata are the reply's own exactly when truthy; when there is no such result that the contract accepts, it is the failure `AGENT_OUTPUT_INVALID` |
| `ExecuteRun.OtherOutcomesSay` | packages/worker/src/execution/execute-run.ts:57-150 | every other outcome has its own status, code and `retryable`: refused input, timeout, shutdown, an error thrown by the agent, and the agent's own failure when the contract accepts it and its details are JSON |
| `AgentResults.JsonMeans` | contracts/schemas/agent-result.v1.schema.json:122-139 | what the schema takes for a JSON value: through instances of classes it unfolds to a finite tree without empty slots |
| `AgentResults.UsageMeans` | contracts/schemas/agent-result.v1.schema.json:38-50 | a usage is accepted if and only if it is an object whose properties are five whole counts and a cost, none below zero, each of which may be absent or undefined |
| `AgentResults.FailureMeans` | contracts/schemas/agent-result.v1.schema.json:24-37 | a failure is accepted if and only if it has a nonempty code and message and a boolean `retryable`, perhaps an object of JSON details, and nothing else |
| `AgentResults.MapMeans` | contracts/schemas/agent-result.v1.schema.json:99-102 | metadata are an object whose properties are JSON values |
| `AgentResults.ArtifactsMean` | contracts/schemas/agent-result.v1.schema.json:79-96 | artifacts are accepted if and only if they are an array without empty slots of objects with a nonempty id and name and known optional properties |
| `AgentResults.SentNames` | packages/worker/src/callback/callback-delivery.ts:82-85 | what is sent has no property twice and names version, status, invocation and times |
| `AgentResults.SentCarries` | packages/worker/src/callback/callback-delivery.ts:82-85 | it carries the output, the problem, usage, artifacts and metadata exactly when they are there, as the gate copies them |
| `AgentResults.PassesExactly` | packages/contracts/src/validation.ts:52-104 | a value the schema accepts passes `asJsonValue` if and only if no undefined and no instance of a class is reached from it |
| `AgentResults.SentExactly` | packages/worker/src/callback/callback-delivery.ts:82-85 | a result that `parseAgentResult` accepts can be sent if and only if none of its parts reaches an undefined or an instance of a class |
| `AgentResults.SentIsJson` | packages/worker/src/callback/callback-delivery.ts:82-85 | what is sent of such a result is a JSON tree: the schema refuses the empty slots that `asJsonValue` lets pass |
| `WorkerShutdown.CancelledRunsAreTerminal` | packages/worker/src/lifecycle/worker-lifecycle.ts:443-451 | a run cancelled by `stop()` always ends with a terminal record, whatever interleaves |
| `WorkerShutdown.ReachableProtocol` | packages/worker/src/lifecycle/worker-lifecycle.ts:696-742 | in every reachable state: queue and slots are exactly the waiting and slot-holding runs, follow-up work is tracked exactly while a run's chain is unfinished, a drain that has passed its idle wait sees an idle scheduler |
| `WorkerShutdown.EmptyWorkMeansOver` | packages/worker/src/lifecycle/worker-lifecycle.ts:737-742 | when `waitForDrain` wakes to an empty `callbackWork`, every run of the scheduler is over: a follow-up is always tracked before the work that spawned it is untracked |
| `WorkerShutdown.LateRunMayOutliveStop` | packages/worker/src/lifecycle/worker-lifecycle.ts:373-382 | a counterexample run of the event loop: a request accepted during the stop is refused by `enqueue`, cancelled by its handler alone, and still delivering when the state is "stopped" |
| `WorkerProgress.StopNeverStuck` | packages/worker/src/lifecycle/worker-lifecycle.ts:709-742 | in every reachable stopping state with a bound server, some turn that works towards the end of the stop is enabled |
| `WorkerRank.ProgressLowersRank` | packages/worker/src/lifecycle/worker-lifecycle.ts:709-742 | while stopping, every turn of progress (a run's chain, a freed slot, an event's delivery, the steps of `stop()` itself) lowers a rank on the state, whatever the drains have snapshotted |
| `WorkerRank.OthersKeepRank` | packages/worker/src/lifecycle/worker-lifecycle.ts:709-742 | while stopping, no other turn raises that rank, except a late request or a late event |
| `WorkerRank.ProgressIsBounded` | packages/worker/src/lifecycle/worker-lifecycle.ts:709-742 | over any continuation of a stop without late requests and late events, the turns of progress number at most the rank lost |
| `WorkerRank.StopReachesStopped` | packages/worker/src/lifecycle/worker-lifecycle.ts:709-742 | from every reachable stopping state with a bound server, at most as many turns of progress as the rank reach "stopped" |
| `WorkerIdempotency.AnswersAreIdempotent` | packages/worker/src/lifecycle/worker-lifecycle.ts:313-382 | over all reachable logs: a request that repeats the invocation and the fingerprint of an accepted one before its expiry gets the same run id and acceptance time, one with another fingerprint is refused as a conflict |
| `WorkerIdempotency.SecondRunWaitsForExpiry` | packages/worker/src/lifecycle/worker-lifecycle.ts:313-349 | a second run of one invocation starts only at least `ttlMs` after the first became terminal |
| `WorkerIdempotency.OneLiveRun` | packages/worker/src/lifecycle/worker-lifecycle.ts:313-382 | two runs of one invocation whose records are both not terminal never coexist |
| `WorkerIdempotency.ReachableStore` | packages/worker/src/invocation/idempotency-store.ts:26-72 | in every reachable state the store holds each accepted run's record until it has expired, and the log of answers agrees with the records |
| `WorkerReplies.RepliesExactly` | packages/worker/src/lifecycle/worker-lifecycle.ts:313-382 | every request is answered from the runs and records of the moment: repeated or conflicting while the record of its invocation still counts, then queue full when all slots and queue places are taken, then capacity full when `maxEntries` records still count, and otherwise it begins exactly one new run, queued or, once the scheduler has stopped, left to its handler; nothing else changes |
| `WorkerClocks.TerminalSince` | packages/worker/src/invocation/idempotency-store.ts:78-81 | a terminal record has the time and the outcome of the turn in which its run's result was answered |
| `WorkerClocks.SecondRunWaitsForTurn` | packages/worker/src/lifecycle/worker-lifecycle.ts:313-349 | a second run of one invocation is begun at least `ttlMs` after the turn that answered the result of the first |
| `WorkerRuntimes.WorkerRuntime.HandlerTurn` | packages/worker/src/lifecycle/worker-lifecycle.ts:313-382 | the accept tail of `handleRequest` on the real scheduler, store and record objects takes exactly the protocol's handler step and answers what `Decide` says |
| `WorkerRuntimes.WorkerRuntime.Answer` | packages/worker/src/lifecycle/worker-lifecycle.ts:313-402 | lookup, capacity check and record creation in that order: the reply, the store's records and the log afterwards; a record object is returned exactly when the run is accepted |
| `WorkerRuntimes.WorkerRuntime.AcceptRun` | packages/worker/src/lifecycle/worker-lifecycle.ts:355-382 | from the answer on: the record becomes queued, the accepted event is tracked, the scheduler takes the run or the handler cancels it itself |
| `WorkerRuntimes.WorkerRuntime.RunBegins` | packages/worker/src/lifecycle/worker-lifecycle.ts:404-410 | `executeRun` writes "running" to the shared record and is the protocol's step |
| `WorkerRuntimes.WorkerRuntime.AgentReturns` | packages/worker/src/lifecycle/worker-lifecycle.ts:421-461 | what `executeAgent` makes of the outcome becomes the run's result, its delivery starts and the chain is tracked in one turn, and this is the protocol's step |
| `WorkerRuntimes.WorkerRuntime.ResultAnswered` | packages/worker/src/lifecycle/worker-lifecycle.ts:484-488 | the outcome is written to the record, seen by run and store alike |
| `WorkerRuntimes.WorkerRuntime.ResultRefused` | packages/worker/src/callback/callback-delivery.ts:82-85 | exactly when `asJsonValue` refuses the result that `executeAgent` returned, the delivery rejects: the chain settles and the record is left as it was |
| `WorkerRuntimes.WorkerRuntime.TerminalEmitted` | packages/worker/src/lifecycle/worker-lifecycle.ts:438-440 | the terminal event follows the settled result; its delivery is tracked in the same turn |
| `WorkerRuntimes.WorkerRuntime.ChainObserved` | packages/worker/src/lifecycle/worker-lifecycle.ts:696-707 | a tracked chain leaves `callbackWork` only once it has settled |
| `WorkerRuntimes.WorkerRuntime.SlotReleased` | packages/worker/src/invocation/run-scheduler.ts:60-67 | a finished run frees its slot and the drain hands free slots to the queue; the runtime takes the protocol's step |
| `WorkerRuntimes.WorkerRuntime.ImmediateFires` | packages/worker/src/invocation/run-scheduler.ts:43-50 | the deferred drain moves queued runs into free slots; the runtime takes the protocol's step |
| `WorkerRuntimes.WorkerRuntime.StopCalled` | packages/worker/src/lifecycle/worker-lifecycle.ts:89-103 | `stop()` in each lifecycle state takes the protocol's step |
| `WorkerRuntimes.WorkerRuntime.Shutdown` | packages/worker/src/lifecycle/worker-lifecycle.ts:709-714 | the synchronous part of `shutdown`: the whole queue is cancelled, each record written once, and the first drain asks for idleness |
| `WorkerRuntimes.WorkerRuntime.GraceExpires` | packages/worker/src/lifecycle/worker-lifecycle.ts:721-731 | the forced path starts a second `waitForDrain` |
| `WorkerRuntimes.WorkerRuntime.GracefulWakes` | packages/worker/src/lifecycle/worker-lifecycle.ts:737-742 | one round of `waitForDrain`: it returns only when every run the scheduler took is over and its event delivered, and otherwise goes on waiting for a nonempty snapshot of what is tracked |
| `RunChains.Chains.UpdateState` | packages/worker/src/invocation/idempotency-store.ts:78-81 | a state written to a shared record object changes exactly one run, and exactly the store entry that still holds the object |
| `RunChains.Chains.CancelAll` | packages/worker/src/invocation/run-scheduler.ts:31-36 | cancelling the queue writes every queued run's record and no other |
| `SchedulerHistories.ReachableInvariant` | packages/worker/src/invocation/run-scheduler.ts:17-76 | in every reachable state: taken = started + cancelled + queued in admission order; active and queued counts within their bounds; between turns the scheduler is stopped, a drain is pending, the queue is empty or all slots are busy; every idle waiter is waiting or released, and on an idle scheduler waits only for an unfinished stop |
| `SchedulerHistories.ExactlyOneFate` | packages/worker/src/invocation/run-scheduler.ts:31-70 | each run taken by `enqueue` is queued, started or cancelled, exactly one of these and exactly once; a run never taken is in none |
| `SchedulerHistories.StartsAreFifo` | packages/worker/src/invocation/run-scheduler.ts:52-59 | the started runs are always the first admitted ones, in order |
| `SchedulerHistories.ReleasedOnlyWhenIdle` | packages/worker/src/invocation/run-scheduler.ts:72-76 | no `onIdle` waiter is released while a run is active or queued |
| `SchedulerHistories.WaitersAreServed` | packages/worker/src/invocation/run-scheduler.ts:43-76 | while an `onIdle` caller waits, a run can finish, the deferred drain can run, or the cancellations of a stop can settle |
| `SchedulerHistories.ServingLowersRank` | packages/worker/src/invocation/run-scheduler.ts:43-76 | each of these lowers a rank on the scheduler's state |
| `SchedulerHistories.EveryWaiterReleased` | packages/worker/src/invocation/run-scheduler.ts:31-76 | from any reachable state at most as many such turns follow as the rank, and when no more can follow, every caller of `onIdle` has been released (concurrency is positive, as the Worker's configuration demands) |
| `SchedulerHistories.RefusedExactly` | packages/worker/src/invocation/run-scheduler.ts:12-22 | a new run is refused if and only if the scheduler has been stopped or the runs it took that neither finished nor were cancelled number at least concurrency + maxQueuedRuns; a refusal changes nothing, and an admitted run waits at the end of the queue with a drain on its way |
| `SchedulerHistories.AcceptsUntilStopped` | packages/worker/src/invocation/run-scheduler.ts:31-33 | it accepts if and only if it has never been stopped |
| `SchedulerHistories.StoppedCancelsTheRest` | packages/worker/src/invocation/run-scheduler.ts:31-36 | from a stop on, every run ever taken was started or cancelled |
| `Scheduling.RunScheduler.Enqueue` | packages/worker/src/invocation/run-scheduler.ts:17-22 | admission if and only if accepting and within bounds; the run joins the end of the queue and a drain is scheduled |
| `Scheduling.RunScheduler.StopAccepting` | packages/worker/src/invocation/run-scheduler.ts:31-36 | the queue is cancelled in order and emptied, and nothing is admitted again |
| `Scheduling.RunScheduler.Drain` | packages/worker/src/invocation/run-scheduler.ts:52-70 | the loop starts as many queued runs as there are free slots, in order, none after a stop; waiters are released if that leaves it idle |
| `Scheduling.RunScheduler.Finish` | packages/worker/src/invocation/run-scheduler.ts:63-67 | a settled run frees one slot, drains again, and releases waiters of an idle scheduler |
| `IdempotencyHistories.StoreRefinesSimpleMap` | packages/worker/src/invocation/idempotency-store.ts:26-90 | over any history with a non-decreasing clock, in which a record is not written after it became terminal, the lazily expiring store answers exactly as a plain map of the live records |
| `IdempotencyHistories.CleanupsAreInvisible` | packages/worker/src/invocation/idempotency-store.ts:83-90 | removing all cleanups from such a history changes no answer |
| `IdempotencyHistories.ExhaustedExactlyWhenLiveFull` | packages/worker/src/invocation/idempotency-store.ts:33-42 | `create` reports exhausted capacity if and only if no live record has the key and the live records alone number at least `maxEntries` |
| `IdempotencyHistories.SizeBounded` | packages/worker/src/invocation/idempotency-store.ts:40-42 | the store never exceeds `maxEntries` |
| `IdempotencyHistories.LiveRunsStay` | packages/worker/src/invocation/idempotency-store.ts:26-90 | no operation removes a record that is not terminal or changes its run, fingerprint or acceptance time |
| `IdempotencyHistories.GetSeesSweeps` | packages/worker/src/invocation/idempotency-store.ts:74-76 | `get` is outside the refinement: a sweep changes its answer if and only if the record has expired |
| `IdempotencyHistories.BackwardClockShowsSweep` | packages/worker/src/invocation/idempotency-store.ts:83-101 | with a clock that steps back a sweep does change a later answer: a concrete history |
| `IdempotencyHistories.HidesSweepsExactly` | packages/worker/src/invocation/idempotency-store.ts:83-101 | a sequence of call times hides all sweeps, for every starting store and every disciplined history over it, if and only if it never steps back |
| `IdempotencyHistories.LookupTells` | packages/worker/src/invocation/idempotency-store.ts:56-72 | a lookup finds the record of the invocation unless it is delivered or failed and has been left alone for `ttlMs`; whether it is the same request is told by the fingerprint |
| `IdempotencyHistories.CreateTells` | packages/worker/src/invocation/idempotency-store.ts:26-54 | a record is made unless one of its invocation, or `maxEntries` of others, still count; it starts as accepted, and every record that counts stays as it is |
| `IdempotencyHistories.SweepTells` | packages/worker/src/invocation/idempotency-store.ts:83-90 | a sweep drops exactly the records that no longer count |
| `Idempotency.InMemoryIdempotencyStore.Create` | packages/worker/src/invocation/idempotency-store.ts:26-54 | existing, exhausted or created, and the records afterwards; a created record is a new object under its own key |
| `Idempotency.InMemoryIdempotencyStore.Lookup` | packages/worker/src/invocation/idempotency-store.ts:56-72 | miss, duplicate or conflict; an expired record under the key is dropped |
| `Idempotency.InMemoryIdempotencyStore.Cleanup` | packages/worker/src/invocation/idempotency-store.ts:83-90 | the loop deletes exactly the expired terminal records |
| `Idempotency.InMemoryIdempotencyStore.UpdateState` | packages/worker/src/invocation/idempotency-store.ts:78-81 | the record object is written in place; the map sees it if and only if it still holds the object |
| `CanonicalTheorems.CanonicalTextDecidesSameData` | packages/worker/src/invocation/canonical-json.ts:4-29 | two JSON trees have the same canonical text if and only if they are equal up to the order of object keys |
| `CanonicalTheorems.RoundTrip` | packages/worker/src/invocation/canonical-json.ts:4-29 | a parser written for RFC 8259 (sections 4, 5 and 7) reads the canonical text of a JSON tree back to the tree with its keys sorted, and to its very end |
| `CanonicalTheorems.RoundTripExactlyWhenDense` | packages/worker/src/invocation/canonical-json.ts:14-14 | for everything that has a canonical text, arrays with empty slots included, the text reads back so if and only if no array has an empty slot |
| `CanonicalTheorems.SparseArraysFail` | packages/worker/src/invocation/canonical-json.ts:14-14 | `[ ,1]` has the canonical text `[,1]`, which no parser accepts, and an array of one empty slot has the text of the empty array |
| `CanonicalTheorems.CanonicalTextDecidesSparseData` | packages/worker/src/invocation/canonical-json.ts:4-29 | for everything that has a canonical text, two values have the same text if and only if they are the same data once every array of one empty slot is taken for the empty array: nothing else is confused |
| `CanonicalTheorems.NormalizeDecidesSameData` | packages/worker/src/invocation/canonical-json.ts:20-22 | sorting the keys of every object decides equality up to key order |
| `CanonicalTheorems.CanonicalExactlyWhenEncodable` | packages/worker/src/invocation/canonical-json.ts:4-29 | a text is produced if and only if every leaf is JSON or an empty slot of an array, every number finite and every integer safe |
| `CanonicalTheorems.CanonicalNoControl` | packages/worker/src/invocation/canonical-json.ts:4-29 | no raw control character, in particular no newline, occurs in a canonical text |
| `CanonicalTheorems.PreimageDecidesRequest` | packages/worker/src/invocation/canonical-json.ts:31-40 | the hashed text (key, newline, canonical JSON) is the same for two requests with JSON bodies if and only if the keys are equal and the bodies are equal up to key order |
| `CanonicalSpelling.LessMeans` | packages/worker/src/invocation/canonical-json.ts:20-21 | keys are ordered by the first code unit that differs, a proper prefix first |
| `CanonicalSpelling.EscapedUnit` | packages/worker/src/invocation/canonical-json.ts:5-8 | how `JSON.stringify` spells each code unit: seven short escapes, the other control characters and lone surrogates as four lower-case hexadecimal digits, every other one as itself (QuoteJSONString of ECMA-262) |
| `CanonicalSpelling.EscapePieces` | packages/worker/src/invocation/canonical-json.ts:5-8 | a text is spelled piece by piece, as long as no surrogate pair is cut |
| `CanonicalSpelling.EscapedPair` | packages/worker/src/invocation/canonical-json.ts:5-8 | a surrogate pair stands for itself |
| `CanonicalSpelling.NumbersWithText` | packages/worker/src/invocation/canonical-json.ts:9-13 | an integer has a text if and only if it is within 2^53 - 1 of zero, any other number if and only if it is finite |
| `CanonicalSpelling.PreimageReadsBack` | packages/worker/src/invocation/canonical-json.ts:31-40 | behind the key and one line feed, the hashed text reads back to the request with its keys sorted |
| `JsonValue.SortMembersSorts` | packages/worker/src/invocation/canonical-json.ts:20-21 | sorting puts distinct keys in strictly increasing code-unit order |
| `JsonGate.AsJsonValue` | packages/worker/src/execution/json-value.ts:3-43 | the recursion over one shared, mutated `seen` set computes `Gate`, empty array slots included, and leaves the set as it found it, on acceptance and on refusal |
| `JsonGate.GateAcceptsFiniteTrees` | packages/worker/src/execution/json-value.ts:19-42 | a value is accepted if and only if it unfolds to a finite tree, and the result is that tree, with an empty slot wherever an array has one: sharing is allowed, cycles are not |
| `JsonGate.AcceptedIsJsonExactly` | packages/worker/src/execution/json-value.ts:31-34 | what is accepted is a JSON tree if and only if no array the value reaches has an empty slot |
| `JsonGateTheorems.AcceptedIsCanonicalizable` | packages/worker/src/execution/json-value.ts:3-43 | whatever passes the gate is encoded by `canonicalJson`, and the text reads back to the accepted tree if and only if no array the value reaches has an empty slot |
| `CallbackDelivery.DeliverSignedBody` | packages/worker/src/callback/callback-delivery.ts:110-280 | the loop stops at the first decisive attempt: outcome, number of requests and every delay passed to `sleep` |
| `CallbackDelivery.LastIsFirstDecisive` | packages/worker/src/callback/callback-delivery.ts:124-271 | the attempt the loop stops at is the only one whose verdict ends the delivery while every earlier one's does not |
| `CallbackDelivery.TryOnce` | packages/worker/src/callback/callback-delivery.ts:125-270 | one attempt: its verdict, whether a request was sent, and its waits |
| `CallbackDelivery.GoesOnExactly` | packages/worker/src/callback/callback-delivery.ts:124-271 | after attempt n another request follows if and only if n < maxAttempts, nothing was aborted before, and either a complete answer had status 408, 429 or 500 to 599 and the sleep went well, or else there was no answer, or that sleep failed, without an abort, and the second sleep went well |
| `CallbackDelivery.EndsExactly` | packages/worker/src/callback/callback-delivery.ts:124-280 | how every other attempt ends the delivery: outcome, reason, number of requests and status, told from the attempt |
| `CallbackDelivery.StopsWhenNothingCallsForMore` | packages/worker/src/callback/callback-delivery.ts:110-280 | a delivery makes attempt after attempt for exactly as long as each calls for the next |
| `CallbackDelivery.WaitsExactly` | packages/worker/src/callback/callback-delivery.ts:227-271 | an attempt sleeps after an answer that asks for another and after a failure, and at no other time |
| `CallbackDelivery.BaseDoubles` | packages/worker/src/callback/callback-delivery.ts:282-285 | the delay before jitter is `initialDelayMs` doubled for each earlier attempt and capped at `maxDelayMs` |
| `CallbackDelivery.JitterSpreads` | packages/worker/src/callback/callback-delivery.ts:291-291 | the jitter factor lies within the ratio on either side of one, and reaches both ends |
| `CallbackDelivery.BackoffIsJitteredBase` | packages/worker/src/callback/callback-delivery.ts:282-293 | the backoff is the whole number next to that delay spread by the jitter ratio, within 0 and `maxDelayMs` |
| `CallbackDelivery.RetryAfterTakesItsPlace` | packages/worker/src/callback/callback-delivery.ts:227-235 | a Retry-After of digits takes the place of the backoff: its seconds, or `maxDelayMs` where that is less |
| `CallbackDelivery.SomeAttemptDecides` | packages/worker/src/callback/callback-delivery.ts:273-279 | with at least one attempt allowed some attempt always decides, so the return after the loop is dead |
| `CallbackDelivery.OutcomeIsHonest` | packages/worker/src/callback/callback-delivery.ts:124-280 | `attempts` is the number of requests made and at most `maxAttempts`; delivery is reported if and only if the last request was answered by a complete 2xx; every earlier request met a transient failure, so nothing follows a non-retryable status; a reported status is the last response's |
| `CallbackDelivery.DeliveryWaitsAtMost` | packages/worker/src/callback/callback-delivery.ts:227-271 | if `sleep` rejects only on abort, a delivery sleeps at most (maxAttempts - 1) * maxDelayMs |
| `CallbackDelivery.TotalWaitBounded` | packages/worker/src/callback/callback-delivery.ts:227-271 | the same bound for every prefix of attempts, and twice the bound for a `sleep` that rejects otherwise |
| `CallbackDelivery.RetryDelayWithinBounds` | packages/worker/src/callback/callback-delivery.ts:227-235 | a Retry-After delay, or the backoff that replaces it, is between 0 and `maxDelayMs` |
| `CallbackDelivery.BackoffWithinBounds` | packages/worker/src/callback/callback-delivery.ts:282-293 | the jittered backoff is between 0 and `maxDelayMs` for every random number and jitter ratio |
| `CallbackDelivery.ReadLimitedResponse` | packages/worker/src/callback/callback-delivery.ts:295-320 | a body is accepted if and only if neither its declared length nor the sum of its chunks exceeds the limit and reading does not fail |
| `RetryAfter.StringOrderIsNumericOrder` | packages/worker/src/callback/retry-after.ts:12-16 | length first, then code units: the string comparison decides the numeric one for digit strings without leading zeros |
| `RetryAfter.RetryAfterIsBoundedValue` | packages/worker/src/callback/retry-after.ts:1-20 | for a digit string of value n and a non-negative maximum the result is n when n <= min(floor(maximum), 2^53 - 1), and the maximum otherwise (delay-seconds of section 10.2.3 of RFC 9110) |
| `RetryAfter.RetryAfterRecognizesDigits` | packages/worker/src/callback/retry-after.ts:5-7 | a result is given if and only if the header is a nonempty digit string |
| `RetryAfter.RetryAfterNegativeMaximum` | packages/worker/src/callback/retry-after.ts:8-19 | for a negative maximum, which no caller passes, the comparison is by text: the exact condition under which the maximum is returned |
| `RetryAfter.SevenEscapesNegativeMaximum` | packages/worker/src/callback/retry-after.ts:8-19 | one such input: "7" under -5 seconds is 7 |
| `EventEmitter.RunEventEmitter.Emit` | packages/worker/src/events/event-emitter.ts:71-124 | disabled: ignored, noted once; enabled: the answer, the next sequence number and the delivered event |
| `EventEmitter.EventsOfARun` | packages/worker/src/events/event-emitter.ts:71-124 | over any emissions: delivered sequences strictly increase although rejected emissions leave gaps, the next number counts the emissions whose payload is a JSON object, and every delivered event meets the id and sequence bounds and the bound on its canonical text |
| `EventEmitter.EventIdDecides` | packages/worker/src/events/event-emitter.ts:90-90 | `invocationId:sequence` is injective over all pairs: the last colon splits it |
| `EventEmitter.EventIdsUnique` | packages/worker/src/events/event-emitter.ts:87-123 | no two events delivered by one run share an id |
| `EventEmitter.DeliveredExactlyWhenSmall` | packages/worker/src/events/event-emitter.ts:87-123 | behind the payload gate the canonical form always exists; an event is delivered if and only if payload and identity are valid, the time stamp exists and the canonical text has at most 65536 bytes in UTF-8 |
| `EventBodies.DeliveredTells` | packages/worker/src/events/event-emitter.ts:87-123 | an emission with an object for its payload, a number of at most 2147483647, an id of at most 255 code units and a time is delivered if and only if the canonical text of its body has at most 65536 bytes; the body has exactly the eleven properties of an event, with the event's own id and number, the run's identifiers, the payload, the time and the trace; and what is sent reads back to that body |
| `EventBodies.RefusedFor` | packages/worker/src/events/event-emitter.ts:87-103 | every other emission is refused: for its payload, without taking a number, or for its id or its time, after it has taken one |
| `SentReads.SentReadsBack` | packages/worker/src/events/event-emitter.ts:122-122 | what `JSON.stringify` makes of a tree that has a canonical text is a JSON text that reads back to the tree, members in their own order, `null` for an empty slot |
| `CanonicalSpelling.UnitMeasured` | packages/worker/src/events/event-emitter.ts:116-116 | each code unit is measured with the length of its UTF-8 form (RFC 3629), a lone surrogate with that of the replacement character |
| `CanonicalSpelling.PairMeasured` | packages/worker/src/events/event-emitter.ts:116-116 | a surrogate pair is measured with the length of the UTF-8 form of its code point |
| `SentBody.SentExceedsMeasured` | packages/worker/src/events/event-emitter.ts:116-122 | what `JSON.stringify` sends is longer in UTF-8 than the canonical text measured by exactly four bytes for each empty array slot |
| `EventSizes.SentFitsExactly` | packages/worker/src/events/event-emitter.ts:112-122 | the body sent of a delivered event meets the limit if and only if the measured text leaves four bytes of room for each empty slot of the payload; without empty slots it always does |
| `EventSizes.SparsePayloadOverruns` | packages/worker/src/events/event-emitter.ts:112-122 | a payload holding one array of 60000 empty slots is delivered with a body of at least 240000 bytes |
| `LinkTests.Graph.Canonicalize` | skills/understand/merge-batch-graphs.py:680-739 | pass 1, compacting the list it is reading, leaves exactly `Linked` of the input; `dropped` is what the list lost, `covered` the pairs that occur, `swapped` the number of pairs whose survivor was inverted |
| `TestedBy.SurvivorUnique` | skills/understand/merge-batch-graphs.py:709-729 | "the earliest edge of maximal weight" (a NaN wins exactly when it comes first) determines the survivor of a pair |
| `TestedBy.SurvivorSurvives` | skills/understand/merge-batch-graphs.py:709-729 | each pair that occurs has such a survivor |
| `TestedBy.SlotHoldsSurvivor` | skills/understand/merge-batch-graphs.py:709-737 | the slot of a pair's first occurrence holds its survivor, upright |
| `LinkTheorems.PassOneTheorem` | skills/understand/merge-batch-graphs.py:680-739 | other edges keep content and order; each pair keeps one edge, its survivor, upright, in the slot of its first occurrence; the list shrinks by `tested_by` edges alone |
| `LinkTheorems.SlotsInOrder` | skills/understand/merge-batch-graphs.py:731-737 | slots keep the order in which pairs first appear |
| `LinkReadings.ReadsByPaths` | skills/understand/merge-batch-graphs.py:680-708 | how pass 1 reads an edge, told from the nodes: a pairing when one end is a production file and the other a test file, by their paths, upside down when the test comes first, and beyond repair otherwise |
| `LinkReadings.PassOneExactly` | skills/understand/merge-batch-graphs.py:680-739 | pass 1 told from the graph alone: edges that are no `tested_by` edges and the first of each pair keep their places in order, every other edge is dropped; in a pair's place stands its earliest edge of greatest weight, turned round with a note in its description when it arrived upside down; `dropped` and `swapped` count what they say |
| `LinkReadings.TagsExactly` | skills/understand/merge-batch-graphs.py:769-777 | a node gains the tag behind the tags it has if and only if it lacks it and is the source of a `tested_by` edge of the result; no other node changes, and `tagged` counts those that do |
| `LinkReadings.FilePaths` | skills/understand/merge-batch-graphs.py:565-577 | the path of a file node is its `filePath`, or else what follows the prefix of its id |
| `LinkReadings.OtherNodesAreNoFiles` | skills/understand/merge-batch-graphs.py:569-573 | a node whose id does not begin with `file:` is no file |
| `LinkSupplements.AddedByConvention` | skills/understand/merge-batch-graphs.py:741-767 | pass 2 told from the graph alone: the test files that no edge connects to a production file and that have a usable candidate get, in the order of the nodes, one edge each, from the last node at the first such candidate, forward and of weight 0.5; `added` is how many there are |
| `LinkSupplements.UnconnectedTest` | skills/understand/merge-batch-graphs.py:741-767 | a test file that no input edge connects is the target of exactly one `tested_by` edge of the result, its own by convention, when it has a candidate, and of none when it has not |
| `LinkTests.Graph.SupplementUnpaired` | skills/understand/merge-batch-graphs.py:741-767 | pass 2 appends, for each unpaired test file in order, the edge of its first usable candidate |
| `LinkTests.Graph.TagProductions` | skills/understand/merge-batch-graphs.py:769-777 | in whatever order the pairs are visited, exactly the production nodes of covered pairs are tagged, and the count is of those that were not |
| `LinkTests.Graph.LinkTests` | skills/understand/merge-batch-graphs.py:616-779 | the linker as it runs equals `Link`, a function of the nodes and edges it was given: nodes, edges and all four counters |
| `LinkTheorems.LinkConserves` | skills/understand/merge-batch-graphs.py:616-779 | the edge count changes by exactly added - dropped, no other edge is touched, every output `tested_by` edge is production to test with a unique pair, and no pairing is lost |
| `LinkTheorems.TaggedWhenTested` | skills/understand/merge-batch-graphs.py:769-777 | a node gains the tag if and only if it is the source of a `tested_by` edge of the result; nothing else about it changes |
| `LinkTheorems.LinkIdempotent` | skills/understand/merge-batch-graphs.py:616-779 | linking the result again changes no edge and no tag and returns (0, 0, 0, 0) |
| `NodeIds.NormalizedCarriesPrefix` | skills/understand/merge-batch-graphs.py:219-262 | every normalized id carries a known prefix, never the legacy `func` |
| `NodeIds.RenamedByIdAlone` | skills/understand/merge-batch-graphs.py:219-262 | whether a node is renamed depends on its id alone, although the new id depends on type, name and path |
| `NodeIds.PrefixDecides` | skills/understand/merge-batch-graphs.py:223-227 | the first segment decides every `startswith` over the prefix set |
| `NodeIds.StableExactly` | skills/understand/merge-batch-graphs.py:219-262 | a second pass leaves a normalized id as it is if and only if neither of these holds of the input: once a doubled prefix or the project's name is off, the id's prefix in its modern spelling stands before itself; or the id is bare, of a function or class, and its file path is that prefix or begins with it and a colon |
| `NodeIds.NextPassTakesOne` | skills/understand/merge-batch-graphs.py:222-227 | a further pass that changes a normalized id takes exactly one prefix off |
| `NodeIds.UnfinishedIds` | skills/understand/merge-batch-graphs.py:219-262 | an input of each kind: `file:file:file:a`, `func:function:a`, and a bare function in a file called `function` |
| `NodeSpellings.PrefixedId` | skills/understand/merge-batch-graphs.py:222-243 | an id with a known prefix: a second prefix just like it goes, and `func` becomes `function` |
| `NodeSpellings.ProjectId` | skills/understand/merge-batch-graphs.py:229-237 | `<project>:<prefix>:<rest>` loses the project and a final newline; what looks like a second prefix stays |
| `NodeSpellings.BareId` | skills/understand/merge-batch-graphs.py:243-262 | every other id: a function or a class gets its kind, the path of its file or a placeholder, and its name or id; any other node the prefix of its kind, where an unknown kind counts as a file |
| `MergeBatchGraphs.MergeAndNormalize` | skills/understand/merge-batch-graphs.py:794-896 | steps 1, 2, 4, 5, 5b and 6 as loops give exactly `MergedGraph` |
| `MergeBatchGraphs.Deduplicate` | skills/understand/merge-batch-graphs.py:871-896 | step 6: the dict in insertion order, keyed by source, target, type and direction |
| `MergeBatchOutcome.ReadInOrder` | skills/understand/merge-batch-graphs.py:794-801 | the batches are read one after the other |
| `MergeBatchOutcome.OneBatch` | skills/understand/merge-batch-graphs.py:794-801 | and each as it stands |
| `MergeBatchOutcome.OutputNodes` | skills/understand/merge-batch-graphs.py:810-869 | the nodes of the output, told from the batches: for every new id the last batch node that gets it, with its path, in the order in which the ids first appear; `tested` is added to its tags exactly when it lacks the tag and a `tested_by` edge of the output starts there |
| `MergeBatchOutcome.OutputEdges` | skills/understand/merge-batch-graphs.py:871-896 | the edges of the output, told from the linked ones: one for every key of an edge between nodes, in the order in which the keys first appear, and it is the earliest of greatest weight with its direction made canonical |
| `MergeBatchOutcome.EdgesRewritten` | skills/understand/merge-batch-graphs.py:844-854 | every edge keeps all but its ends; an end that names batch nodes becomes the new id of the last of them, any other end stays |
| `MergeBatchOutcome.DirectionsBecome` | skills/understand/merge-batch-graphs.py:127-138 | `both` and `mutual` become `bidirectional`, `backward` stays, and whatever is none of the three is `forward` |
| `MergeBatchTheorems.RedirectsToLast` | skills/understand/merge-batch-graphs.py:820-854 | an original id is redirected to the new id of the last node that had it, renamed or not |
| `MergeBatchTheorems.EndsResolve` | skills/understand/merge-batch-graphs.py:844-863 | after redirection an edge end that named an input node names an output node |
| `MergeBatchTheorems.NoKnownEdgeLost` | skills/understand/merge-batch-graphs.py:804-896 | every input edge that is not `tested_by` and whose ends name input nodes by original id has, after redirection, an output edge of the same key that it does not outweigh |
| `MergeBatchTheorems.NoWeightLost` | skills/understand/merge-batch-graphs.py:893-896 | where no weight of that key is NaN, the output edge weighs at least as much |
| `MergeBatchTheorems.NoPairingLost` | skills/understand/merge-batch-graphs.py:865-896 | every `tested_by` pairing that can be read after redirection has its production-to-test edge in the output |
| `MergeBatchTheorems.OutputIsGraph` | skills/understand/merge-batch-graphs.py:871-896 | output ids and keys are unique, both ends of every edge exist, every direction is canonical |
| `MergeBatchTheorems.OutputComesFromInput` | skills/understand/merge-batch-graphs.py:844-896 | an output edge that is not `tested_by` is an input edge, redirected |
| `EdgeTable.WinnerKept` | skills/understand/merge-batch-graphs.py:893-896 | `weight > existing.weight` keeps the earliest edge of maximal weight of each key; a NaN is kept exactly when it comes first |
| `EdgeTable.GreatestKeptExactly` | skills/understand/merge-batch-graphs.py:893-896 | the edge kept for a key weighs at least as much as every edge of the key if and only if the first of them has no NaN weight, or all have |
| `EdgeTable.ValuesAre` | skills/understand/merge-batch-graphs.py:871-896 | the entries told from the list: one for every key, in the order in which the keys first appear, each the earliest of greatest weight of its key |
| `EdgeTable.KeysInOrder` | skills/understand/merge-batch-graphs.py:871-896 | entries stay in the order in which their keys first appeared, whichever edge won |
| `MergeSubdomainGraphs.MergeGraphs` | skills/understand/merge-subdomain-graphs.py:83-133 | the loops over nodes, edges and deduplicated edges give exactly `MergeOf` |
| `MergeSubdomainGraphs.Workspace.Run` | skills/understand/merge-subdomain-graphs.py:346-396 | one run of the script on the files it keeps: saved graph first, subdomain graphs, pending edges last; and the number of pending edges it attached |
| `SubdomainRuns.RunExactly` | skills/understand/merge-subdomain-graphs.py:83-133 | one run told from what it reads, the saved edges, the subdomain graphs' and the pending ones in this order: for every id the last node handed in, in the order in which the ids first appear; for every kind of edge the earliest of greatest weight, in order, in the graph when both ends are there and otherwise in the report, which names the missing ends |
| `SubdomainRuns.SavedNodesAreLatest` | skills/understand/merge-subdomain-graphs.py:83-94 | after any sequence of runs: for every id the last node ever handed in with it, in the order in which the ids first appeared |
| `SubdomainRuns.PendingIsStructural` | skills/understand/merge-subdomain-graphs.py:270-288 | what a run reads back from the report: its edges of the three structural types, in order |
| `SubdomainRuns.RecoveredCounts` | skills/understand/merge-subdomain-graphs.py:382-388 | the number a run reports as recovered: the pending edges that have their like in the graph afterwards |
| `SubdomainHistories.NodesAtOnce` | skills/understand/merge-subdomain-graphs.py:83-94 | after any sequence of runs the saved nodes are those of one merge of everything, in the same order and with the latest data |
| `SubdomainHistories.NoStructuralEdgeLost` | skills/understand/merge-subdomain-graphs.py:96-133 | over any sequence of runs a structural edge ever handed in is in the saved graph if and only if both its ends have arrived, and in the report if and only if not; what is there for its key is one of the edges handed in |
| `SubdomainEdges.CarriedEdge` | skills/understand/merge-subdomain-graphs.py:96-133 | which edge that is, for all weights: none for a key never seen, for a blinded key the NaN that the run which blinded it read first, and otherwise the earliest edge of the greatest weight in the run that decides |
| `SubdomainEdges.GreatestCarriedExactly` | skills/understand/merge-subdomain-graphs.py:105-108 | the greatest weight ever handed in for a key is carried if and only if the key is not blinded by a NaN at the end and some run since it could last see brought that weight: a NaN read first by a waiting or new key forgets everything before, an attached one stays |
| `SubdomainEdges.KeptEdgeOfRuns` | skills/understand/merge-subdomain-graphs.py:270-288 | for a key without NaN: the earliest edge of greatest weight in the last run, up to the one with which both ends had arrived, that brought this weight, or else in the first later one |
| `SubdomainEdges.SameEdgeExactly` | skills/understand/merge-subdomain-graphs.py:270-288 | when the sequence of runs and one run over everything carry the same edge, for every key: if the first edge ever read is a NaN, if and only if this one still blinds the key; otherwise if and only if the key can see and the run that decides for the greatest weight has the earliest edge of that weight |
| `SubdomainHistories.RunsAgreeWithOneRun` | skills/understand/merge-subdomain-graphs.py:270-288 | for structural edges the sequence of runs and one run over everything agree on nodes, on what is attached, on what is reported, and on the weight where none was NaN |
| `SubdomainHistories.RunDecides` | skills/understand/merge-subdomain-graphs.py:96-133 | one run keeps for each key the winner of saved, new and pending edges, in the graph if attached and in the report if not, and nothing else |
| `SubdomainHistories.RoutineEdgesAreNotRetried` | skills/understand/merge-subdomain-graphs.py:284-288 | an edge of any other type is saved if and only if some run brought its key while both ends were there |
| `SubdomainHistories.TieKeepsTheLater` | skills/understand/merge-subdomain-graphs.py:369-378 | where they differ: of two waiting edges of equal weight the runs keep the later, one run the earlier |
| `SubdomainHistories.NaNLosesTheGreatest` | skills/understand/merge-subdomain-graphs.py:105-108 | where they differ: weights 7, NaN, 3 in three runs leave 3 |
| `SupervisorHistories.OneOutcome` | services/local-executor-host/src/supervisor.ts:141-147 | supervision settles exactly once, at the first failure or exit, with the outcome a function of the events alone calls for |
| `SupervisorHistories.CaptureTheorem` | services/local-executor-host/src/supervisor.ts:186-203 | for every event sequence: what is captured of a stream is what it delivered before the first overflow or settlement, within its limit, and the limit is noted exactly when an overflow came first |
| `SupervisorHistories.OutputLimitExactly` | services/local-executor-host/src/supervisor.ts:226-242 | the output limit is reported if and only if an exit settles and some stream had delivered more than its limit before it |
| `SupervisorSignals.TimersTheorem` | services/local-executor-host/src/supervisor.ts:141-183 | which timers are pending, told from the events: until it settles, the abort listener and the wall clock stand until they fire, and for each escalation a SIGKILL due exactly the grace after it is pending or has fired |
| `SupervisorSignals.SignalsTheorem` | services/local-executor-host/src/supervisor.ts:141-203 | which signals were sent, with their times and causes, told from the events: a SIGTERM at each escalation, a SIGKILL at each kill timer that fires and at the first overflow while the child can be signalled, and one when it is reaped |
| `SupervisorHistories.TimedKillFollowsTerm` | services/local-executor-host/src/supervisor.ts:172-179 | a SIGKILL on a timer always follows a SIGTERM to the group by at least the grace |
| `SupervisorHistories.QuietAfterSettlement` | services/local-executor-host/src/supervisor.ts:141-147 | once settled, no signal is sent and the outcome stands, whatever is delivered later |
| `SupervisorHistories.TriggerTracked` | services/local-executor-host/src/supervisor.ts:172-184 | the trigger of a kill is the latest escalation, or the wall clock when there was none |
| `SupervisorHistories.CaptureDependsOnChunking` | services/local-executor-host/src/supervisor.ts:191-195 | unlike the native reader's, this capture depends on how the stream is cut: the overflowing chunk is dropped whole |
| `SupervisorHistories.CaptureIsPrefixExactly` | services/local-executor-host/src/supervisor.ts:186-203 | of a stream that delivers alone the first min(limit, total) bytes are captured if and only if the total is within the limit or some chunk ends exactly at it |
| `Supervisor.Supervision.OnData` | services/local-executor-host/src/supervisor.ts:186-203 | the chunk handler is the specification's step on the captured bytes, the noted limit and the signals sent |
| `Supervisor.Supervision.OnExit` | services/local-executor-host/src/supervisor.ts:226-258 | the exit handler reaps the group and settles as specified, and does nothing once settled |
| `Supervisor.Supervision.OnTermTimer` | services/local-executor-host/src/supervisor.ts:270-276 | the wall-clock timer escalates as specified |
| `Supervisor.Supervision.constructor` | services/local-executor-host/src/supervisor.ts:132-183 | the state supervision starts in, with an abort signal set already or not, and its first timer at the earlier bound |
| `ReadBounded.ReadUpTo` | services/local-executor-host-rs/src/supervisor.rs:208-231 | exactly the first min(limit, total) bytes are returned and the flag holds if and only if more were delivered, also when the stream fails half way |
| `ReadBounded.ChunkingDoesNotMatter` | services/local-executor-host-rs/src/supervisor.rs:216-230 | two ways to cut one error-free stream deliver the same, so the reader answers alike |

## Left out

- HTTP parsing, sockets, bearer comparison, JSON Schema and contract parsers: requests and results arrive validated.
- SHA-256 and HMAC: the fingerprint is proved injective up to its hash, and equal fingerprints are equal strings.
- `executeAgent`: which of handler, timeout and shutdown comes first is an input; the return is one turn, and the agent's objects do not change between it and the delivery.
- ExecuteRun.ExecuteAgent: a NaN or the big integer 0 in the place of usage, artifacts or metadata counts as truthy; getters and enumerable properties of a prototype are not modelled; a value without cycles never overflows the stack. Failures that the constructor of `AgentExecutionError` refuses count as any other throw.
- Negative zero, and the text of a non-integral number, which is taken to determine the number (Number::toString of ECMA-262).
- Several reads of the clock in one turn are one value.
- Wake-ups of `Promise.allSettled` over a snapshot: the loop of `waitForDrain` wakes when none of the snapshot is tracked any more.
- Heartbeats, abort controllers and connection closing: an event may be emitted by any accepted run at any time, and an abort only decides which outcome an attempt has.
- Loggers, except where one that throws changes what happens next.
- Events after a terminal event: a late handler can still emit, so nothing is claimed.
- `production_candidates` and `is_test_path` by language: any functions will do.
- Report texts and counters of both mergers, complexity normalization, layers, tours and project metadata.
- Node ids, types, paths and descriptions that are not strings in the input files; weights are what `_num` makes of them, infinities being very large reals.
- Report entries keep a key "missing" that a source edge may itself have had; the model's edges have none.
- Malformed saved graphs and reports: `load_graph` and `load_pending_structural_edges` read what the last run wrote.
- UTF-8 decoding of captured output, chunk by chunk; the model captures bytes.
- Spawning, stdin, orphan cleanup, environment and argument composition of the supervisor, and the `kill_deadline` and `settle` functions of its native twin, which would add only easy members.
- Errors of `process.kill`: the model records that a signal was sent, not that a process received it.
- StoppedMeansDrained: claims nothing for a run accepted after the scheduler has stopped accepting, because nothing waits for it, as LateRunMayOutliveStop shows.
- ProgressIsBounded: counts turns, not time, and assumes no late requests and no late events, each of which brings work of its own.
- TimedKillFollowsTerm: speaks of signals passed to the process group, after a timer that fires no earlier than it is due.
