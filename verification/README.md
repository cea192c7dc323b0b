# Delegation and streaming models

A Dafny model of the assistant backend's delegation protocol and of the smaller stateful components
around it, with proofs about all of their runs. `dafny verify dfyconfig.toml` checks everything.

## What is modelled

**The leased task queue.** Tasks are submitted under an idempotency key, leased to workers for a limited
time, settled by their owner, retried within a budget and finally dead-lettered. There are two buses.

- *In memory* (`Delegation`, `TaskBus`, `BatchClaim`, `TaskBusRuns`, `RetryBudget`, `TaskJournal`, `LeaseSafety`):
  a class
  whose methods are atomic steps, since each runs under one lock. Runs are arbitrary sequences of calls by
  any workers at any times; the clock is an argument and need not move forward. `TryLease` is the part of
  the code that `claim` and `claim_task` both contain.
- *Unity Catalog* (`UcTable`, `UcInterleaving`, `UcLeases`, `UcKeys`, `UcAttempts`, `UcFailures`, `UcBus`,
  `UcSimulation`):
  a table of rows and any number of workers with program counters, one step per SQL statement. A write may silently do nothing
  and a read may come back empty, because the outcome of a statement is never looked at; a worker may stop
  between any two statements. `UcBus` holds the same methods undisturbed, shown to be the uninterrupted runs
  of the interleaving model, and `UcSimulation` relates them to the in-memory bus. `IsLookup` and
  `IsSelection` say which answers a query may give.

**Its users.** `Policy` and `Subagents` decide who may delegate what; `Worker` is the polling worker;
`Handoff` and `HandoffRuns` the synchronous call that shares a key between repetitions (`KeyParts`); `Approvals` the store in which the
first decision wins, followed by one follow-up task.

**Streaming.** `ChatStream` and `ChatClient` print events in the server-sent event format (a subset of
section 9.2 of the WHATWG HTML Living Standard) and read them back from arbitrary chunks. JSON is a pair of
functions, assumed invertible and free of line feeds where the server printed the text.

**Routing.** `RouteScores`, `RouteTerms`, `Routing` and `StickyRuns` hold the inverse-document-frequency scores
in exact reals, the confidence decision and the conversation's sticky route.

**The event bus.** `MessageBus` interleaves publishers, the worker thread and closing threads; each method
of the class is one indivisible step of one thread. The waiting time of the worker is not modelled: an
empty queue may time out at any moment.

**Two text components.** `InstructionCache` is the cache that must agree with the builder it speeds up.
`TextLines` and `EnvRewriter` are the line rewriter for `databricks.yml`.

## What does not hold

Where the code does not do what its name or documentation suggests, the model follows the code, and a lemma
shows a run or an input that breaks the expected property, and another says exactly when it holds.

- The attempt counter can pass max_attempts, because reclaiming a lapsed lease does not look at the budget
  (`RetryBudget.ReclaimsOverrun` shows such runs). One claim breaks the budget exactly when it reclaims a spent
  task (`RetryBudget.ClaimKeepsBudgetExactly`), and a run does exactly when its log has such a reclaim
  (`RetryBudget.BudgetOverrunExactly`).
- A settled task with an expiry time can still turn into `expired` (`LeaseSafety.SettledTaskExpires`): exactly
  when some claim looks at it at that time or later (`LeaseSafety.SettledExpiresExactly`).
- An expired task can keep its lease owner (`LeaseSafety.LeasedTaskExpires`): exactly when it was leased at that
  moment (`LeaseSafety.ExpiryKeepsOwnerExactly`, `LeaseSafety.ExpiredOwnerExactly`).
- The durable `claim_task` is documented as atomic but sends three statements; two workers of one name lose an
  increment (`UcAttempts.SharedNameLosesIncrement`), and none is lost on any run exactly when all names differ
  (`UcAttempts.CountsExactlyWhenNamesDiffer`).
- Durable submissions can store a key twice (`UcKeys.DuplicateSubmission`): only a risky look-up opens the way, and
  every risky look-up does (`UcKeys.NextSafeExactly`, `UcKeys.OneRowPerKey`, `UcKeys.RiskyLookupDuplicates`).
- The durable bus ignores `expires_at`, lets a worker claim again what it already holds in `claimed`, and
  answers a completion by a non-owner if the status happens to be the one asked for
  (`UcSimulation.ClaimTaskAgreesExactly`, `UcSimulation.ClaimAgreesExactly`,
  `UcSimulation.CompleteAgreesExactly`).
- The handoff key is ambiguous (`Handoff.KeyCollision`); a call shares its key with no other exactly when none of
  its parts contains a colon (`Handoff.KeyUniqueExactly`). A call can be given another call's delegation
  (`HandoffRuns.OtherIsServed`), exactly when its key has another valid reading (`HandoffRuns.ServedExactlyByKey`).
- The end marker leaves only the inner loop of the client (`ChatStream.MarkerHidesEvent`); what is decoded is
  independent of the chunking exactly when no event line follows a marker line
  (`ChatStream.ChunkIndependentExactly`). A text repeated at the end of the shown text is dropped
  (`ChatClient.RepeatedTextIsLost`, `ChatClient.TextCompleteExactly`).
- An event accepted before `close` can stay behind (`MessageBus.TimeoutRaceLosesEvent`): exactly when, as the flag
  is set, the worker is between an empty wait and its look at the flag while events are queued
  (`MessageBus.CloseKeepsEventsExactly`).
- The instruction signature omits the database of a lakebase agent
  (`InstructionCache.StaleExactlyWhenDatabasesDiffer`, `InstructionCache.RightExactlyWhenCoherent`).
- A Lakebase name with a line break can leave lines behind (`EnvRewriter.TwoLineName`): the rewriter's last-writer
  law holds for a configuration exactly when those lines vanish in a scan (`EnvRewriter.LastWriterWinsExactly`).

## Model

| member | source | states |
|---|---|---|
| `TaskBus.InMemoryAgentTaskBus.constructor` | src/aiserver/infrastructure/persistence/tasks.py:28-31 | the new bus is valid and empty |
| `TaskBus.InMemoryAgentTaskBus.Submit` | src/aiserver/infrastructure/persistence/tasks.py:33-42 | the bus and the returned record are those of the submission step: a known key returns the stored record and changes nothing, a new one is appended in submission order |
| `TaskBus.InMemoryAgentTaskBus.TryLease` | src/aiserver/infrastructure/persistence/tasks.py:57-81 | one visited record: expired if due, leased with one more attempt and a fresh lease if pending or lapsed, else untouched |
| `TaskBus.InMemoryAgentTaskBus.Claim` | src/aiserver/infrastructure/persistence/tasks.py:44-82 | the batch loop equals claiming the tasks by id in submission order until max(limit, 1) claims succeeded: same final bus, same returned list |
| `TaskBus.InMemoryAgentTaskBus.ClaimTask` | src/aiserver/infrastructure/persistence/tasks.py:84-119 | the named claim performs exactly the single-task claim step and keeps the bus well formed |
| `TaskBus.InMemoryAgentTaskBus.RequireOwned` | src/aiserver/infrastructure/persistence/tasks.py:168-172 | accepts exactly the owner of a claimed or running record; an unknown task and a foreign lease are refused differently |
| `TaskBus.InMemoryAgentTaskBus.MarkRunning` | src/aiserver/infrastructure/persistence/tasks.py:121-127 | the owner's record becomes running; anyone else's call is refused and changes nothing |
| `TaskBus.InMemoryAgentTaskBus.Complete` | src/aiserver/infrastructure/persistence/tasks.py:129-138 | the owner's record takes the result and its status and loses its lease; anyone else's call changes nothing |
| `TaskBus.InMemoryAgentTaskBus.Fail` | src/aiserver/infrastructure/persistence/tasks.py:140-161 | the owner's record returns to pending or is dead-lettered by its budget; anyone else's call changes nothing |
| `TaskBus.InMemoryAgentTaskBus.Get` | src/aiserver/infrastructure/persistence/tasks.py:163-166 | the stored record, or nothing for an unknown id |
| `TaskBus.ClaimTaskStep` | src/aiserver/infrastructure/persistence/tasks.py:93-119 | a claim keeps the bus well formed and changes neither the order, the index nor the set of tasks |
| `BatchClaim.ClaimLeasesEarliest` | src/aiserver/infrastructure/persistence/tasks.py:44-82 | a batch claim leases exactly the first max(limit, 1) eligible tasks in submission order, each once, expires the due tasks it walks past, and leaves every other record alone |
| `BatchClaim.ScanReturns` | src/aiserver/infrastructure/persistence/tasks.py:57-81 | the returned list is the leases of the first `limit` eligible ids, computed from the state before the scan |
| `BatchClaim.ScanLeaves` | src/aiserver/infrastructure/persistence/tasks.py:57-81 | each record after the scan: treated if fewer than `limit` tasks before it were eligible, untouched otherwise |
| `BatchClaim.EligibleWithin` | src/aiserver/infrastructure/persistence/tasks.py:65-74 | the eligible list holds exactly the listed ids that can be leased |
| `BatchClaim.EligibleDistinct` | src/aiserver/infrastructure/persistence/tasks.py:57-74 | no task is leased twice by one batch |
| `TaskBusRuns.VisitsRun` | src/aiserver/infrastructure/persistence/tasks.py:44-82 | running the single claims a batch performs gives the bus the batch gives |
| `TaskBusRuns.FlattenRun` | src/aiserver/infrastructure/persistence/tasks.py:44-119 | replacing every batch claim of a run by its single claims does not change the run |
| `TaskBusRuns.RunConcat` | src/aiserver/infrastructure/persistence/tasks.py:33-161 | a run of one series of operations after another is the run of both together |
| `TaskJournal.StepJournaled` | src/aiserver/infrastructure/persistence/tasks.py:33-161 | every operation keeps each record in agreement with the log |
| `TaskJournal.RecordTellsLog` | src/aiserver/infrastructure/persistence/tasks.py:33-161 | for every run, a record's status is that of its last log entry, its owner and lease end those of the last lease not settled or given up since, its result the last result, and its failure code that of the last give-up or expiry unless leased since |
| `LeaseSafety.TasksStay` | src/aiserver/infrastructure/persistence/tasks.py:33-161 | no run changes anything of a stored task but its attempt counter |
| `LeaseSafety.EmptyIdIsForgotten` | src/aiserver/infrastructure/persistence/tasks.py:36-38 | an empty stored id counts as no entry, so the key is filed again |
| `RetryBudget.StepInvariant` | src/aiserver/infrastructure/persistence/tasks.py:33-161 | every operation keeps the accounting of every task against the log of what succeeded |
| `RetryBudget.RunInvariant` | src/aiserver/infrastructure/persistence/tasks.py:33-161 | so does every run |
| `RetryBudget.TraceInvariant` | src/aiserver/infrastructure/persistence/tasks.py:33-161 | so does every run from the empty bus, batch claims included |
| `RetryBudget.FlattenFresh` | src/aiserver/infrastructure/persistence/tasks.py:33-82 | the assumption on new tasks carries over to the flattened run |
| `RetryBudget.BudgetKept` | src/aiserver/infrastructure/persistence/tasks.py:65-81 | for every run: attempt = successful leases = failures + reclaims + (1 if a lease is open); at most max_attempts failures; attempt <= max_attempts + reclaims; pending implies budget left, dead-letter implies none; at most one completion succeeds, and it leaves a terminal status; there is an owner exactly while the last lease is neither given up nor settled |
| `RetryBudget.ClaimKeepsBudgetExactly` | src/aiserver/infrastructure/persistence/tasks.py:65-73 | a claim keeps a task within its budget if and only if it does not reclaim a lapsed lease of a task that used all its attempts |
| `RetryBudget.StepOverrunLogged` | src/aiserver/infrastructure/persistence/tasks.py:65-81 | every operation keeps: the counter exceeds the budget exactly when the log has a reclaim of the spent task |
| `RetryBudget.BudgetOverrunExactly` | src/aiserver/infrastructure/persistence/tasks.py:65-73 | for every run: attempt > max_attempts if and only if somewhere a lapsed lease was reclaimed after at least max_attempts earlier leases |
| `RetryBudget.ReclaimsOverrun` | src/aiserver/infrastructure/persistence/tasks.py:65-73 | reclaims skip the budget check: for any new task and any n there is a run that takes it to n attempts |
| `LeaseSafety.LeasesDoNotOverlap` | src/aiserver/infrastructure/persistence/tasks.py:53-74 | for every run: two leases of one task with no give-up in between lie at least max(lease_seconds, 1) apart, whatever happens to the task meanwhile |
| `LeaseSafety.FormerOwnerLockedOut` | src/aiserver/infrastructure/persistence/tasks.py:168-172 | once a worker is not the lease owner and claims nothing, after any run every settlement it tries is refused and changes nothing |
| `LeaseSafety.ReclaimLocksOut` | src/aiserver/infrastructure/persistence/tasks.py:65-74 | in particular the old worker after a different one reclaimed its lapsed lease |
| `LeaseSafety.TerminalAbsorbs` | src/aiserver/infrastructure/persistence/tasks.py:60-74 | for every run: a settled task without an expiry never changes; with one the only change is to expired, its result kept (SettledExpiresExactly says when) |
| `LeaseSafety.ClaimLeavesSettledExactly` | src/aiserver/infrastructure/persistence/tasks.py:60-74 | a named claim leaves a settled task alone if and only if it is not due or already marked expired |
| `LeaseSafety.SettledExpiresExactly` | src/aiserver/infrastructure/persistence/tasks.py:60-74 | for every run: a settled task with an expiry ends up expired if and only if some claim, named or in a batch, looks at it at that time or later |
| `LeaseSafety.SettledTaskExpires` | src/aiserver/infrastructure/persistence/tasks.py:60-64 | for every new task with an expiry a run from the empty bus that completes it and then turns it into expired |
| `LeaseSafety.ExpiryKeepsOwnerExactly` | src/aiserver/infrastructure/persistence/tasks.py:60-64 | a task that turns into expired keeps an owner if and only if it was leased at that moment |
| `LeaseSafety.ExpiredOwnerExactly` | src/aiserver/infrastructure/persistence/tasks.py:60-64 | for every run: an expired task names an owner if and only if its last lease was neither given up nor settled, and no settlement of it is accepted |
| `LeaseSafety.LeasedTaskExpires` | src/aiserver/infrastructure/persistence/tasks.py:60-64 | for every new task with an expiry a run that leaves it expired with its owner |
| `LeaseSafety.StepIndexed` | src/aiserver/infrastructure/persistence/tasks.py:33-42 | every operation keeps each record filed under exactly its own key, and never re-files a known key |
| `LeaseSafety.OneTaskPerKey` | src/aiserver/infrastructure/persistence/tasks.py:33-42 | no two tasks of any run share an idempotency key |
| `LeaseSafety.ResubmissionFindsTheFirst` | src/aiserver/infrastructure/persistence/tasks.py:33-42 | submitting a key again after any run returns the first task and changes nothing |
| `UcInterleaving.NextConsistent` | src/aiserver/infrastructure/persistence/tasks.py:228-339 | one SQL statement of any worker, effective or not, keeps: lease owner and lease time present exactly while claimed or running, a result only in a terminal status |
| `UcInterleaving.NextKeepsTerminal` | src/aiserver/infrastructure/persistence/tasks.py:228-339 | one statement cannot change a row in a terminal status |
| `UcInterleaving.RunConsistent` | src/aiserver/infrastructure/persistence/tasks.py:228-339 | the lease invariant on every interleaving, with any worker names (equal ones too), stops and silently lost statements |
| `UcInterleaving.TerminalRowsFrozen` | src/aiserver/infrastructure/persistence/tasks.py:228-339 | on every interleaving a terminal row is frozen: status, payload, result and lease |
| `UcInterleaving.ResultWrittenOnce` | src/aiserver/infrastructure/persistence/tasks.py:311-324 | a stored result is never replaced or removed |
| `UcLeases.NextKept` | src/aiserver/infrastructure/persistence/tasks.py:228-339 | one statement other than an effective give-up keeps a task settled or leased until the given time, and an effective lease comes no earlier |
| `UcLeases.RowLeasesDoNotOverlap` | src/aiserver/infrastructure/persistence/tasks.py:251-257 | on every interleaving, with any worker names: two effective leases of one task with no effective give-up in between lie at least max(lease_seconds, 1) apart |
| `UcKeys.NextSafeExactly` | src/aiserver/infrastructure/persistence/tasks.py:210-226 | from a state where no two rows share a key and no insert on its way will make them, one statement leads out of it if and only if it is a risky look-up: past another worker's look-up of the key, or lost although the key is stored |
| `UcKeys.OneRowPerKey` | src/aiserver/infrastructure/persistence/tasks.py:210-226 | without risky look-ups no run stores two rows of one key |
| `UcKeys.RiskyLookupDuplicates` | src/aiserver/infrastructure/persistence/tasks.py:210-226 | after every risky look-up some continuation stores two rows of one key |
| `UcKeys.DuplicateSubmission` | src/aiserver/infrastructure/persistence/tasks.py:210-226 | two workers submitting one key from the empty table can store it twice |
| `UcFailures.NextCode` | src/aiserver/infrastructure/persistence/tasks.py:210-339 | one statement changes a row's failure code only if it is an effective give-up, and then to that worker's code |
| `UcFailures.FailureCodeIsLast` | src/aiserver/infrastructure/persistence/tasks.py:326-334 | from the empty table, on every interleaving: a row's failure code is the code of its last effective give-up, and it has none if there was none |
| `UcFailures.GiveUpUsesCallCode` | src/aiserver/infrastructure/persistence/tasks.py:326-334 | an effective give-up stores the code that its worker's current `fail` call was made with |
| `UcAttempts.NextSound` | src/aiserver/infrastructure/persistence/tasks.py:250-339 | one statement keeps: what a distinctly named worker remembers of a row it owns is still true, and status and budget agree |
| `UcAttempts.NextPayload` | src/aiserver/infrastructure/persistence/tasks.py:258-266 | one statement either leaves a payload alone or, if it is an effective payload write, raises its attempt by exactly one |
| `UcAttempts.AttemptsAddUp` | src/aiserver/infrastructure/persistence/tasks.py:258-266 | for distinctly named workers, on every interleaving, the counter grows by the number of effective payload writes: no increment is lost |
| `UcAttempts.PayloadKept` | src/aiserver/infrastructure/persistence/tasks.py:258-298 | on every such run all the rest of the payload stays as submitted |
| `UcAttempts.BudgetDecidesRetry` | src/aiserver/infrastructure/persistence/tasks.py:326-339 | every reachable pending row has attempt < max_attempts, every dead-letter row attempt >= max_attempts |
| `UcAttempts.StaleWrites` | src/aiserver/infrastructure/persistence/tasks.py:282-298 | two workers of one name that read before either writes: two effective payload writes raise the counter by one |
| `UcAttempts.SharedNameLosesIncrement` | src/aiserver/infrastructure/persistence/tasks.py:282-298 | such a run exists from an empty table for every submittable task |
| `UcAttempts.CountsExactlyWhenNamesDiffer` | src/aiserver/infrastructure/persistence/tasks.py:258-298 | the counter is right on every run if and only if no two workers share a name |
| `UcBus.UcAgentTaskBus.constructor` | src/aiserver/infrastructure/persistence/tasks.py:182-200 | the table starts empty |
| `UcBus.UcAgentTaskBus.Submit` | src/aiserver/infrastructure/persistence/tasks.py:210-226 | table and record after a look-up and, if it found nothing, an insert |
| `UcBus.UcAgentTaskBus.Claim` | src/aiserver/infrastructure/persistence/tasks.py:228-269 | the loop over the query's answer equals claiming those tasks one by one |
| `UcBus.UcAgentTaskBus.ClaimTask` | src/aiserver/infrastructure/persistence/tasks.py:271-298 | table and returned record of the three statements lease, read back, write payload |
| `UcBus.UcAgentTaskBus.OwnedRecord` | src/aiserver/infrastructure/persistence/tasks.py:356-364 | returns the record exactly for the owner of a claimed or running row |
| `UcBus.UcAgentTaskBus.MarkRunning` | src/aiserver/infrastructure/persistence/tasks.py:300-309 | table and reply of a guarded update verified by reading |
| `UcBus.UcAgentTaskBus.Complete` | src/aiserver/infrastructure/persistence/tasks.py:311-324 | table and reply of a guarded update; the reply only compares the status read back |
| `UcBus.UcAgentTaskBus.Fail` | src/aiserver/infrastructure/persistence/tasks.py:326-339 | table and reply of read, decide, and an update guarded by the owner alone |
| `UcBus.FinishLease` | src/aiserver/infrastructure/persistence/tasks.py:255-268 | running the statements of a claim loop to the end, all effective, leaves the table and returns the leases of the sequential claim |
| `UcBus.AloneIsUninterrupted` | src/aiserver/infrastructure/persistence/tasks.py:210-339 | every sequential method is the uninterrupted, effective run of its statements in the interleaving model: the same table and the same returned records |
| `UcSimulation.ClaimTaskAgreesExactly` | src/aiserver/infrastructure/persistence/tasks.py:84-119 | from equal tasks, a named claim leaves equal tasks and returns the same lease on both buses if and only if the task is not due and not already held in claimed by the same worker under a live lease |
| `UcSimulation.MarkRunningAgrees` | src/aiserver/infrastructure/persistence/tasks.py:300-309 | starting work agrees on both buses, tasks and reply |
| `UcSimulation.FailAgrees` | src/aiserver/infrastructure/persistence/tasks.py:326-339 | giving up agrees on both buses, tasks and reply |
| `UcSimulation.CompleteAgreesExactly` | src/aiserver/infrastructure/persistence/tasks.py:311-324 | completing always leaves equal tasks; the replies agree if and only if it is not a non-owner asking for the status the task already has |
| `UcSimulation.SelectionIsPrefix` | src/aiserver/infrastructure/persistence/tasks.py:243-248 | with strictly increasing creation times the candidate query has one answer: the first `limit` leasable rows in submission order |
| `UcSimulation.ClaimAgreesExactly` | src/aiserver/infrastructure/persistence/tasks.py:228-269 | a batch claim leaves equal tasks and returns the same leases on both buses, whatever the worker already holds, if and only if the in-memory scan meets no task whose expiry time is up |
| `UcSimulation.SubmitAgrees` | src/aiserver/infrastructure/persistence/tasks.py:210-226 | submitting agrees: the same key is known to both, and a new task goes last in both orders |
| `UcSimulation.TakesAgree` | src/aiserver/infrastructure/persistence/tasks.py:243-248 | within reach of the scan the leasable rows of the query are the eligible tasks of the in-memory bus |
| `UcSimulation.StepSimulates` | src/aiserver/infrastructure/persistence/tasks.py:210-339 | every call on which the buses are not known to diverge keeps the simulation |
| `UcSimulation.DurableBusSimulates` | src/aiserver/infrastructure/persistence/tasks.py:210-339 | so does every run of such calls, tasks with and without expiry: equal status, attempt, owner, lease and result throughout (failure codes excepted) |
| `UcSimulation.SameFromEmpty` | src/aiserver/infrastructure/persistence/tasks.py:210-339 | so from two empty buses every task has the same record on both, failure codes excepted |
| `Subagents.ByNameIsLast` | src/aiserver/application/delegation/policy.py:23-25 | the name table holds the last configuration of a name, and nothing for an unused one |
| `Policy.PolicyDecides` | src/aiserver/application/delegation/policy.py:18-49 | a task is allowed if and only if: the last agent named as target exists, accepts the source and lists the intent; authentication is app; a configured source may delegate to the target and has more depth than the task has ancestors; a source not configured only passes tasks without ancestors. Otherwise the reason is the first test, in the order of the code, that fails |
| `Policy.CodesDiffer` | src/aiserver/application/delegation/policy.py:26-49 | a stored code determines the reason |
| `Delegation.LoopCheckExactly` | src/aiserver/contracts/delegation.py:54-55 | the loop check is passed if and only if no agent occurs twice among ancestors, source and target |
| `Delegation.ChainsHaveNoLoops` | src/aiserver/contracts/delegation.py:47-57 | however often work is passed on, a chain of constructible tasks has no loop |
| `TaskBus.NewTaskIsLive` | src/aiserver/contracts/delegation.py:56-57 | a constructible task can be leased at its creation time, whatever its expiry |
| `Worker.AgentTaskWorker.constructor` | src/aiserver/application/delegation/worker.py:19-31 | the worker starts with nothing published and nothing executed |
| `Worker.AgentTaskWorker.Process` | src/aiserver/application/delegation/worker.py:43-86 | a held task is settled by policy and outcome; the trace grows by one claimed event and one outcome event that agrees with the stored status; the executor is called only if policy allows the task |
| `Worker.AgentTaskWorker.RunOnce` | src/aiserver/application/delegation/worker.py:33-87 | one poll processes the one task its claim returned, or publishes and executes nothing |
| `Worker.AgentTaskWorker.RunForever` | src/aiserver/application/delegation/worker.py:89-97 | draining: from a bus with nothing leased, whatever the executor and the clock do, at most the sum of (max_attempts - attempt) over pending tasks polls are productive, every other poll finds all tasks terminal, the trace is pairs of a claimed and an outcome event of one task, the last outcome of each task agrees with its stored record unless it expired since, and only tasks that the rules of Policy.Permitted allow are executed |
| `Worker.PollClaimHolds` | src/aiserver/application/delegation/worker.py:36-42 | a poll claims at most one task, and the worker then holds it |
| `Worker.ProcessedOutcome` | src/aiserver/application/delegation/worker.py:46-86 | a forbidden task is rejected with the code of the first failing test and no output; a permitted one is completed with exactly what the executor produced, or keeps the executor's error and is pending again or dead-lettered by its budget; result ids and time are the task's and the lease is gone |
| `Worker.ProcessedSettles` | src/aiserver/application/delegation/worker.py:55-86 | processing always ends in a terminal status or in pending with budget left, and never changes the task |
| `Worker.ProcessedReports` | src/aiserver/application/delegation/worker.py:55-86 | the outcome event published for each case agrees with the stored status, reason and error |
| `Worker.PollSpendsBudget` | src/aiserver/application/delegation/worker.py:33-87 | one poll keeps the bus quiescent, uses at least one unit of the remaining budget if productive, and otherwise finds everything terminal |
| `Worker.PollChanges` | src/aiserver/application/delegation/worker.py:33-87 | a poll changes the task it processes, and every other task at most expires |
| `Worker.ToldPoll` | src/aiserver/application/delegation/worker.py:43-86 | a poll keeps the trace in pairs that agree with the stored records |
| `Worker.ScanPolls` | src/aiserver/infrastructure/persistence/tasks.py:57-81 | what a poll's claim does to each task of a quiescent bus, and that claiming nothing means everything is terminal |
| `Worker.BudgetShrinks` | src/aiserver/application/delegation/worker.py:33-87 | the remaining budget never grows and falls by one when a task spends an attempt |
| `Handoff.KeyInjective` | src/aiserver/application/delegation/handoff.py:35 | two calls have the same key and equal colon counts in their first three parts if and only if all four parts are equal; so the key is injective on parts without colons |
| `Handoff.KeyUniqueExactly` | src/aiserver/application/delegation/handoff.py:35 | no other call has this call's key if and only if none of its four parts contains a colon, that is, the key has exactly three |
| `Handoff.KeyCollision` | src/aiserver/application/delegation/handoff.py:35 | with a colon in an early part two different calls share a key |
| `Handoff.ExecuteDelegation` | src/aiserver/application/delegation/handoff.py:17-61 | bus, reply, number of executions and published events of one call: no event, or a claimed event and an outcome event that agrees with the stored record; exactly the claimed task is executed, and only if the rules permit it |
| `Handoff.InvalidExactly` | src/aiserver/application/delegation/handoff.py:28-36 | a call is invalid, and changes nothing, if and only if it names no target, no intent, or the orchestrator itself as target |
| `Handoff.AnswerTells` | src/aiserver/application/delegation/handoff.py:53-61 | what a call that claims its task answers: the executor's `result` itself, or the whole output if it has none; the executor's error with the status by budget; or the first policy test that fails |
| `Handoff.ClaimedRecord` | src/aiserver/application/delegation/handoff.py:37-52 | a call claims the task stored under its key, with one more attempt, under the call's worker name, for 60 seconds |
| `Handoff.WorkersDiffer` | src/aiserver/application/delegation/handoff.py:46 | two calls use the same worker name if and only if they have the same correlation id |
| `HandoffRuns.ExecutedAsCalled` | src/aiserver/application/delegation/handoff.py:28-52 | for every run of calls among other traffic: an executed task is permitted, has source `orchestrator`, and has target, intent, correlation id and, as its whole payload under `sql_query`, the query of a valid call made so far with the same key; of this very call if its key has no other reading, as when no part contains a colon |
| `HandoffRuns.ServedExactlyByKey` | src/aiserver/application/delegation/handoff.py:28-52 | a valid call is given its own delegation on every run, with any configuration, if and only if its key has no other valid reading |
| `HandoffRuns.OtherIsServed` | src/aiserver/application/delegation/handoff.py:28-52 | otherwise a failed call with the other reading makes this call execute that one's delegation |
| `Handoff.StepAtRest` | src/aiserver/application/delegation/handoff.py:29-61 | one call keeps the keyed task at rest, pays for each execution from the remaining attempts, and answers only if the task is settled |
| `Handoff.OverStays` | src/aiserver/application/delegation/handoff.py:44-61 | once the task is settled a call changes nothing, executes nothing and repeats the stored reply |
| `Handoff.RepeatWithinAllowance` | src/aiserver/application/delegation/handoff.py:29-61 | any number of repeated calls execute at most max_attempts times altogether |
| `Handoff.RepeatAfterOver` | src/aiserver/application/delegation/handoff.py:44-61 | after settlement every later call gives the stored reply without executing |
| `Handoff.RepeatedHandoff` | src/aiserver/application/delegation/handoff.py:29-61 | after the first answered call every later call returns the same answer |
| `Approvals.TargetResolution` | src/aiserver/application/approvals/service.py:126-151 | whatever lower-casing does, the evaluated target is the exact name if configured, else the one agent of the same logical name, else none |
| `Approvals.FollowUpKeyInjective` | src/aiserver/application/approvals/service.py:87-90 | under fixed settings the follow-up key determines the request id, whatever characters it contains |
| `Approvals.InMemoryApprovalRepository.Save` | src/aiserver/infrastructure/persistence/approvals.py:21-23 | exactly the entry of the decision's request id is replaced |
| `Approvals.InMemoryApprovalRepository.Get` | src/aiserver/infrastructure/persistence/approvals.py:25-26 | the stored decision, or nothing |
| `Approvals.ApprovalService.Submit` | src/aiserver/application/approvals/service.py:40-58 | store, task bus, answer and published notices of one submission: the first decision is stored, an identical one is answered again, a different one is refused and changes nothing |
| `Approvals.ApprovalService.SubmitPostApprovalTask` | src/aiserver/application/approvals/service.py:67-124 | task bus, answer and published notice of the follow-up, in each of the cases not needed, invalid, refused, filed |
| `Approvals.DressedNames` | src/aiserver/application/approvals/service.py:144-151 | a bare name is the logical name of itself with either catalog prefix or none and with the role suffix or without |
| `Approvals.DashesExactly` | src/aiserver/application/approvals/service.py:146 | underscores become dashes, and nothing else changes |
| `Approvals.FollowUpKeyTells` | src/aiserver/application/approvals/service.py:87-90 | between different settings the key also determines target and intent as long as their colon counts agree |
| `Approvals.FollowUpTells` | src/aiserver/application/approvals/service.py:67-124 | exactly when a follow-up is not needed, invalid, refused for which first failing test, or filed |
| `Approvals.NoticesTell` | src/aiserver/application/approvals/service.py:103-123 | no notice for a follow-up not needed or invalid, else one that tells its outcome |
| `Approvals.FollowUpDescribes` | src/aiserver/application/approvals/service.py:72-94 | a follow-up asks to plan and not to dispatch, and carries request id, agent, store, approver, reason and notes of the decision, the configured source, target and intent, and the classification confidential |
| `Approvals.NextWarranted` | src/aiserver/application/approvals/service.py:40-124 | one step keeps: decisions unchanged, and a follow-up only for an approved request |
| `Approvals.RunWarranted` | src/aiserver/application/approvals/service.py:40-124 | so does every run |
| `Approvals.DecisionsGovernFollowUps` | src/aiserver/application/approvals/service.py:40-124 | for every run with retries, abandoned requests and other bus traffic: a stored decision never changes; a task under a request's key exists only if the decision is approved, was cleared by policy and describes exactly that decision; and there are never two for one request |
| `Approvals.ResubmissionRecovers` | src/aiserver/application/approvals/service.py:44-58 | after any run, repeating an approved decision leaves its one follow-up task stored, creating it if it was missing and changing nothing if it was not |
| `ChatStream.PrintedLines` | src/aiserver/api/public.py:15-16 | the lines of a printed event list carry exactly those events, and no end marker |
| `ChatStream.PiecesConcat` | src/aiweb/src/api.ts:215-217 | cutting a text in two steps with the carried-over rest gives the lines of the whole text |
| `ChatStream.BlanksDoNotMatter` | src/aiweb/src/api.ts:220-226 | blanks around a data line and behind its prefix do not change the event it carries |
| `ChatStream.CarriageReturnIsBlank` | src/aiweb/src/api.ts:220 | so CRLF line ends read the same |
| `ChatStream.AnyChunking` | src/aiweb/src/api.ts:209-265 | for every chunking, if no event follows an end marker, the events are those of the unchunked text |
| `ChatStream.SingleSkipsNothing` | src/aiweb/src/api.ts:220-229 | fed character by character the marker never cuts anything off |
| `ChatStream.CutOffExactly` | src/aiweb/src/api.ts:219-229 | the inner loop drops nothing of some lines if and only if no event line follows a marker line |
| `ChatStream.ChunkIndependentExactly` | src/aiweb/src/api.ts:220-229 | for any received text the decoded events are independent of the chunking if and only if no event line comes after a marker line |
| `ChatStream.MarkerHidesEvent` | src/aiweb/src/api.ts:226-229 | every printed event behind an end marker is a text for which the chunking matters |
| `ChatStream.RoundTrip` | src/aiserver/api/public.py:15-35 | every printed event list, cut into chunks in any way, is decoded to exactly that list |
| `ChatClient.ChatEvents` | src/aiserver/api/public.py:19-35 | the printed text is that of the events sent before the client left, with the error event if the runtime raised |
| `ChatClient.ReadLines` | src/aiweb/src/api.ts:219-264 | the line loop of one chunk shows exactly the events before an end marker |
| `ChatClient.SendChat` | src/aiweb/src/api.ts:209-265 | the read loop's view is that of the events decoded from its chunks |
| `ChatClient.TextCompleteExactly` | src/aiweb/src/api.ts:238-256 | the shown text equals the streamed text if and only if no visible text comes with a repeated event or repeats the end of what precedes it |
| `ChatClient.RepeatedTextIsLost` | src/aiweb/src/api.ts:248-251 | a text streamed twice in a row in two different events is shown once |
| `ChatClient.MetadataReported` | src/aiweb/src/api.ts:238-263 | metadata is reported at most once per event, only for streamed events, and for every event without visible text |
| `ChatClient.MetadataGoesWithText` | src/aiweb/src/api.ts:248-263 | the reported events with visible text are, in order, exactly those whose text was shown |
| `ChatClient.SentExactly` | src/aiserver/api/public.py:19-35 | what is sent is a prefix of the runtime's events and the error event: all events unless the client left before one, the error event if and only if the runtime raised and the client had not left |
| `ChatClient.ClientDecodesSent` | src/aiserver/api/public.py:19-35 | under any chunking the client decodes exactly what was sent |
| `ChatClient.EndsWithExactly` | src/aiweb/src/api.ts:250 | the test for a repeated text holds if and only if the shown text ends in it |
| `ChatClient.ShownText` | src/aiweb/src/api.ts:200-265 | end to end: server print, any chunking, client view |
| `ChatClient.ReducerShowsFullText` | src/aiweb/src/chatReducer.ts:28-33 | dispatching the text callbacks appends exactly the loop's full text to the messages of that id and to no others |
| `MessageBus.AsyncMessageBus.constructor` | src/aiserver/infrastructure/messaging/bus.py:60-74 | an open, empty channel of capacity max(queue_size, 1) |
| `MessageBus.AsyncMessageBus.PublishEvent` | src/aiserver/infrastructure/messaging/bus.py:100-112 | the event is queued unless the queue is full; then it is dropped (fail-open) or the call raises (otherwise), and nothing changes |
| `MessageBus.AsyncMessageBus.Get` | src/aiserver/infrastructure/messaging/bus.py:79-80 | takes the oldest item, or times out on an empty queue |
| `MessageBus.AsyncMessageBus.CheckStopped` | src/aiserver/infrastructure/messaging/bus.py:81-84 | after a timeout the worker exits exactly if the flag is set |
| `MessageBus.AsyncMessageBus.HandleItem` | src/aiserver/infrastructure/messaging/bus.py:86-98 | an event is handed over, the sentinel ends the worker |
| `MessageBus.AsyncMessageBus.CloseCheck` | src/aiserver/infrastructure/messaging/bus.py:116-117 | a closing thread goes on only if the flag was clear |
| `MessageBus.AsyncMessageBus.CloseSetFlag` | src/aiserver/infrastructure/messaging/bus.py:118 | the flag is set |
| `MessageBus.AsyncMessageBus.ClosePutSentinel` | src/aiserver/infrastructure/messaging/bus.py:119-123 | the sentinel is queued if there is room |
| `MessageBus.StepInvariant` | src/aiserver/infrastructure/messaging/bus.py:76-123 | every step of any thread keeps the accounting of accepted, taken and handed-over items |
| `MessageBus.RunInvariant` | src/aiserver/infrastructure/messaging/bus.py:76-123 | so does every interleaving |
| `MessageBus.DeliveryInOrder` | src/aiserver/infrastructure/messaging/bus.py:76-112 | for every interleaving: accepted events = handed over ++ in flight ++ queued, in order; the queue never exceeds its size; the worker exits only after close |
| `MessageBus.SentinelMeansDrained` | src/aiserver/infrastructure/messaging/bus.py:86-88 | a worker that exits on the sentinel has handed over everything accepted ahead of it, once and in order |
| `MessageBus.SentinelIsReached` | src/aiserver/infrastructure/messaging/bus.py:76-98 | a worker left alone reaches a queued sentinel in two steps an item |
| `MessageBus.PublishedIsDelivered` | src/aiserver/infrastructure/messaging/bus.py:76-112 | an event accepted by a waiting, open bus is handed over, after those before it, in two steps an item |
| `MessageBus.ClosedBusDrains` | src/aiserver/infrastructure/messaging/bus.py:76-123 | a bus closed while its worker waits hands over everything accepted and stops: on the sentinel if there was room for it, else on the flag |
| `MessageBus.SecondCloseDoesNothing` | src/aiserver/infrastructure/messaging/bus.py:116-117 | closing a closed bus changes nothing |
| `MessageBus.TimeoutRaceLosesEvent` | src/aiserver/infrastructure/messaging/bus.py:79-84 | from every state where the worker has timed out and the queue has room, an event accepted before close can be left behind for good |
| `MessageBus.StepDraining` | src/aiserver/infrastructure/messaging/bus.py:76-123 | after the flag every step keeps: a worker that timed out or left without the sentinel has taken everything put before the flag |
| `MessageBus.CloseKeepsEventsExactly` | src/aiserver/infrastructure/messaging/bus.py:76-127 | decided when close sets the flag: after the worker's exit, whatever happened in between, every event accepted before has been handed over if and only if the worker was not between an empty wait and its look at the flag while events were queued |
| `RouteScores.BuildCapability` | src/aiserver/application/orchestration/routing.py:92-103 | the two loops give exactly the name and description terms weight 1 and the terms found only in the prompt 1/4 |
| `RouteScores.Capabilities` | src/aiserver/application/orchestration/routing.py:90-103 | one capability per subagent, and every weight lies in [1/4, 1] |
| `RouteScores.BuildCapabilities` | src/aiserver/application/orchestration/routing.py:90-103 | the loop over the subagents gives their capabilities in order |
| `RouteScores.ScoreAll` | src/aiserver/application/orchestration/routing.py:109-117 | the loop over the subagents gives their scores in order |
| `RouteScores.ScoresAddUp` | src/aiserver/application/orchestration/routing.py:105-117 | the scores of all subagents add up to the sum over the terms of their average weight |
| `RouteScores.TotalBounds` | src/aiserver/application/orchestration/routing.py:105-117 | for m matched terms that sum lies between m/4 and m |
| `RouteScores.SomeScoreIffMatched` | src/aiserver/application/orchestration/routing.py:111-117 | somebody scores if and only if some term is matched |
| `RouteScores.BestScoreBound` | src/aiserver/application/orchestration/routing.py:134-137 | the best score times the number of subagents is at least m/4 |
| `RouteTerms.FrequencyCounts` | src/aiserver/application/orchestration/routing.py:105-107 | a term's document frequency is the number of subagents that use it in name, description or prompt |
| `RouteTerms.ScoreIs` | src/aiserver/application/orchestration/routing.py:97-115 | a score is the sum of 1/df over the question's terms in the subagent's name or description, and a quarter of that over terms found only in its prompt |
| `RouteTerms.PromotionHelps` | src/aiserver/application/orchestration/routing.py:97-115 | moving a term from the prompt to the name never lowers the subagent's score, raises it if the term is asked for and was not there, and leaves all other scores alone |
| `RouteTerms.OneTermPlan` | src/aiserver/application/orchestration/routing.py:90-166 | for up to 250 million subagents, a question that matches one term is answered with a confident match on exactly the subagents that have it in name or description, or, if none has, in the prompt |
| `Routing.ReasonExactly` | src/aiserver/application/orchestration/routing.py:119-166 | a capability match is answered if and only if the match is confident, with exactly the best-scoring subagents; the fallbacks return everybody, the ambiguous one when nobody scores |
| `Routing.KeepInOrder` | src/aiserver/application/orchestration/routing.py:32-44 | recalled names keep their order, and all are kept if all are allowed |
| `Routing.RecallForgets` | src/aiserver/application/orchestration/routing.py:32-44 | recalling leaves no expired entry of its conversation and touches no other |
| `Routing.RoutePlanner.RememberSticky` | src/aiserver/application/orchestration/routing.py:21-27 | the conversation's entry is replaced, expiring 600 seconds later; no conversation, no entry |
| `Routing.RoutePlanner.RecallSticky` | src/aiserver/application/orchestration/routing.py:32-44 | the remembered names that are still allowed; an expired entry is deleted |
| `Routing.RoutePlanner.BuildRoutePlan` | src/aiserver/application/orchestration/routing.py:90-166 | plan, agents and stored routes are those of the decision on the scores of the weighted vocabularies; the agents are a subsequence of the allowed ones and not empty when those are not |
| `Routing.RoutePlanner.Decide` | src/aiserver/application/orchestration/routing.py:119-166 | plan, agents and stored routes after the scores are known, in each of the branches |
| `Routing.RequestForIsValid` | src/aiserver/application/orchestration/routing.py:109-117 | the scores a plan is decided on are never negative |
| `Routing.ShareBounds` | src/aiserver/application/orchestration/routing.py:134-147 | for a best score above the guard: the share is in (1/2, 1], and confident exactly when 3*next <= 2*best |
| `Routing.ConfidenceMeaning` | src/aiserver/application/orchestration/routing.py:134-147 | for up to 250 million subagents, whenever anybody scores: the 1e-9 guard is inert, confidence is in (1/2, 1], and the confident branch is taken exactly when 3*next <= 2*best |
| `Routing.OnlyAllowed` | src/aiserver/application/orchestration/routing.py:119-166 | the returned agents are always a subsequence of the allowed ones, and not empty when those are not |
| `Routing.PlanDescribesAgents` | src/aiserver/application/orchestration/routing.py:119-166 | the plan names exactly the returned agents, and asks for evidence exactly when one of them requires it, except in the ambiguous fallback, which never asks |
| `StickyRuns.RunReflects` | src/aiserver/application/orchestration/routing.py:21-44 | for every history with a non-decreasing clock the stored entry is the conversation's last confident match, or that match is out of date |
| `StickyRuns.StickyExactly` | src/aiserver/application/orchestration/routing.py:119-166 | a request is answered sticky_route if and only if it is not confident, its conversation's most recent confident match is at most 600 seconds old and some of its names are allowed; the answer is that match restricted to allowed names |
| `InstructionCache.BuildInstructions` | src/aiserver/application/orchestration/agent.py:120-190 | the text built line by line is that of the tool lines inside the fixed wording |
| `InstructionCache.InstructionsCache.BaseInstructions` | src/aiserver/application/orchestration/agent.py:193-207 | a hit returns the stored text and changes nothing; a miss returns and stores the built text, clearing a full cache first |
| `InstructionCache.ToolLineReads` | src/aiserver/application/orchestration/agent.py:123-147 | a tool line is its head by kind, the attributes, for a lakebase tool its database, the description, and the system prompt unless empty |
| `InstructionCache.InstructionsMention` | src/aiserver/application/orchestration/agent.py:120-190 | the instructions carry every tool's line with its authentication mode, classification, evidence flag and, for lakebase, database |
| `InstructionCache.KeyDeterminesInstructions` | src/aiserver/application/orchestration/agent.py:104-117 | equal keys give equal instructions when equal signatures mean equal databases |
| `InstructionCache.CacheAgreesWithBuilder` | src/aiserver/application/orchestration/agent.py:193-207 | on every interleaving of looks and stores a hit is what the builder would produce now, and there are at most max(size, 1) entries |
| `InstructionCache.StaleExactlyWhenDatabasesDiffer` | src/aiserver/application/orchestration/agent.py:104-117 | of two lakebase agents with one signature the second is served the first one's text, right if and only if the databases are equal |
| `InstructionCache.RightExactlyWhenCoherent` | src/aiserver/application/orchestration/agent.py:193-207 | the cache is right on every run if and only if equal signatures mean equal databases among the configurations in use |
| `TextLines.SplitUnlines` | src/operations/quickstart.py:1212-1273 | break-free lines survive being written out and split again |
| `TextLines.SplitAround` | src/operations/quickstart.py:1212-1273 | between break-free lines any text that does not end in a break is read back as its own lines |
| `EnvRewriter.ReplaceLakebaseEnvVars` | src/operations/quickstart.py:1199-1273 | the loop with its skip flag computes the rewritten text |
| `TextLines.SplitAtBreak` | src/operations/quickstart.py:1212 | each of the line breaks of `splitlines` ends a line |
| `TextLines.SplitAtCrLf` | src/operations/quickstart.py:1212 | a carriage return with a line feed is one break |
| `EnvRewriter.ManagedExactly` | src/operations/quickstart.py:1238-1241 | a line is managed if and only if it names one of the four variables anywhere in its stripped text |
| `EnvRewriter.ContainsExactly` | src/operations/quickstart.py:1238-1241 | the search finds its text at any position |
| `EnvRewriter.SectionForms` | src/operations/quickstart.py:1224-1232 | the three section comments are recognised behind any indent, hash signs and blanks |
| `EnvRewriter.LowerIgnoresCase` | src/operations/quickstart.py:1227 | texts that differ in the case of ASCII letters have one lower case |
| `EnvRewriter.ValueForms` | src/operations/quickstart.py:1220 | values are recognised with either key, behind any indent, with blanks before the colon, and commented out |
| `EnvRewriter.IndentIsFirst` | src/operations/quickstart.py:1252-1258 | the block's indent is that of the first named entry that stays, or ten blanks |
| `EnvRewriter.ConfigurationStands` | src/operations/quickstart.py:1260-1273 | in a rewritten text one line sets the variable of the chosen configuration and the next its value, and no other line is a section comment or sets any of the four variables |
| `EnvRewriter.KeepUnmanaged` | src/operations/quickstart.py:1217-1247 | the lines the scan keeps are exactly those not managed, where the value line of a managed variable is managed by its position |
| `EnvRewriter.MarkIsFirst` | src/operations/quickstart.py:1232-1244 | the insertion point is where the first managed line was |
| `EnvRewriter.BlockRecognised` | src/operations/quickstart.py:1260-1270 | the inserted lines are recognised again as a managed variable and its value, in any indent |
| `EnvRewriter.BlockDropped` | src/operations/quickstart.py:1217-1247 | a second scan drops such a block and marks its place |
| `EnvRewriter.RewrittenLines` | src/operations/quickstart.py:1249-1273 | the lines of a rewritten text, and that scanning them again finds the same kept lines and the same place |
| `EnvRewriter.LastWriterWins` | src/operations/quickstart.py:1199-1273 | for any text and any two configurations, the first without a line break in its name, rewriting for both gives exactly the text of rewriting for the second alone |
| `EnvRewriter.LastWriterWinsExactly` | src/operations/quickstart.py:1199-1273 | that law holds for a first configuration, all texts and all second ones, if and only if the lines its name makes behind the value line vanish in a scan; a name without line breaks makes none |
| `EnvRewriter.Rescan` | src/operations/quickstart.py:1217-1273 | what a second scan keeps of a text rewritten with any name |
| `EnvRewriter.BrokenName` | src/operations/quickstart.py:1261-1265 | a name on two lines breaks the law unless its second line happens to be managed |
| `EnvRewriter.TwoLineName` | src/operations/quickstart.py:1261-1265 | such a name |
| `EnvRewriter.UnmanagedLinesStay` | src/operations/quickstart.py:1217-1273 | a text without managed lines is left alone; otherwise the lines before the first managed one stay, the block follows, then every unmanaged line in order |

## Left out

- SQL statements that outlive the wait timeout and take effect later; a statement takes effect when it is sent or never.
- SQL text, literal escaping and the mapping of rows to JSON; the rows of the two audit tables (`_event`).
- Two rows with one task id in the durable table; task ids are drawn fresh.
- The Unity Catalog approval repository, which stores missing fields as empty strings.
- A worker whose bus is used by others between the statements of one poll, and an event bus that raises during a poll.
- The inner bus's own `publish` errors beyond being logged, its `close`, and the timing of the final `join`.
- JSON, date, tokenisation and regular-expression libraries: JSON is a codec, times are integers, the terms of a question and of a subagent are given lists, line tests are predicates on one line.
- Lower-casing in alias names is a parameter; in section comments, compared with ASCII texts, only the characters with an ASCII lower case are mapped.
- The byte carry-over of the text decoder, the tool and category hints, the contents of metadata and status lines.
- Float rounding: scores and times of the route planner are exact reals.
- The wording of the instruction prompts, which is a parameter, and the rendering of a handoff answer as text.
- Masking, settings, adapter selection, vendor adapters and HTTP routing, which would add only easy members.
- `_replace_lakebase_resource` and `update_env_file`, whose block skipping and offset arithmetic obey no clean law.
- DurableBusSimulates: the calls on which the buses diverge are excluded one by one, exactly as the single-call lemmas find them, and failure codes are not compared.
