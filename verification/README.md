# Verification of the AICC message pipeline

This project models the customer-service agent (AICC) of the manager: how a visitor message is
accepted, queued, leased, answered and shown, what protects the upstream model, and the data
shaping around each turn. Beside it stand three smaller cores of the same repository: the
in-memory job queue, the skill list of an instance, and the revision stamp of assistant versions.

Run `dafny verify dfyconfig.toml` (Dafny 4.11) to check everything.

## How it is built

**The message protocol.** `MessageTables` has one function for each SQL statement that touches
messages, tasks, intents and sources; a conditional update returns the tables and the number of
rows it hit. `MessageProtocol` is the machine whose steps are those statements and transactions,
taken by any number of senders, workers, recovery scans and repeated analyses in any order; a
crash is a worker that takes no further step. `MessageInvariant` proves what every step keeps:
no two running tasks share a session or a token, every message has at most one task, replies
answer a visitor message of their session under its key and no message has two, a task is
completed exactly when its message has a reply, a message without a task has its refusal, client
keys are unique, unfinished tasks fit the capacity, and a session has one offer exactly when its
invitation left not_invited. `MessageGuarantees` and `InvitationGuarantees` say what follows over
all runs. `SessionOrder` is about one session: in which order its replies come, and that it is
never stuck; `OrderRuns` has two runs out of order. `QueueAdmission` counts as the code counts, from a snapshot older than the lock.
`MessageStore`, `Dispatcher` and `PublicService` are the imperative side: a dispatch or a send is
a method that issues the statements in the order of the code, with every answer of the outside as
an input and with the other agents acting between any two of its steps. The store keeps what the
agent itself did and was answered; each of those statements stands in the run, in order, and its
answer is the one of the state it was taken in (`Store.Valid`, `AnswerTo`). The contracts say
which statements these are, one by one, and which outcome their answers make.

**Admission to the model.** `LeaseMap` says what the hierarchical limiter is for;
`RedisLimiter` runs the Lua scripts on sorted sets with lazy purges and key expiry
(`SortedSets`) and is proved to refine it, method by method. `CircuitHistory` reads the shared
circuit off the history of reports, `CircuitCalls` asks it as the two calls that the code makes,
with any number of callers between theirs, and `RedisCircuit` runs the scripts and refines both.
`ProbeCircuit` is the circuit inside one process, tied to the log of its events.

**Around a turn.** `ConversationContext` builds the bounded window, `Rendering` and
`EvidenceRendering` put text into prompts and take it out again, `IntentProfile` reads, cleans
and merges analyses, `ResponseAudit` decides which replies may be shown, `ResolutionPrompt` when
a reply asks whether the matter is resolved.

**Smaller cores.** `MemoryQueue`, `SkillReconciliation`, and the assistant versions: `VersionEdits`
has one row and the edits of it, each a read and a later write, `VersionService` the methods that
make them, `VersionStamp` the instances that apply versions, and `StampRuns` two runs of theirs.
`Options`, `Text` and `TextOrder` are shared.

Identifiers, tokens and session keys of the protocol are numbers that are only compared. Times
are integers. The number of attempts, the lease time, the retry ladder, the thresholds and the
text limits are those of the code.

## What turned out not to hold

- *Queue capacity.* The bound rests on the count being taken under the governance lock.
  Transactions are opened with default options (`internal/store/store.go:97-99`), and the first
  plain read of a new send comes before that lock
  (`internal/service/aicc_public_service.go:653-679`), so its count can be older than the lock.
  `QueueCanHoldExactly`: with k sends at a time between count and write, the queue can come to
  hold exactly up to k tasks more than its capacity. `OutdatedCountKeepsBoundExactlyWhen` has the
  condition for one write, `LateRunIsARun` says why nothing else depends on the count.
- *Replies in message order.* A lease goes to the first unfinished task of its session, but a
  message of the same second with a smaller id, or an earlier one that is queued again, can come
  before it until the reply is written. `LaterMessageOvertakes` and `EarlierMessageReturns` are two
  runs that answer a message before an earlier one; `RepliesComeInOrderExactlyWhen` says that over
  all runs nothing else does.
- *The lead form on its own reply.* A comment in `internal/store/queries/aicc.sql:408` says that
  the form shows on the reply of the analyzed message only. When a repeated analysis of an
  earlier message runs between the analysis and the reply of a later one, the form shows on the
  earlier reply: `FormCanShowOnAnotherReply` is such a run,
  `OfferingReplyShowsFormExactlyWhen` the exact condition.
- *The cooldown of the shared circuit.* A success keeps the state key for two windows only, so
  the circuit can forget that it is open. `CooldownIsKeptExactlyWhen`: it is kept exactly when
  two windows cover the cooldown. The loader (`internal/config/loader.go:314-316`) accepts
  other settings.
- *Admission by two calls.* `Allow` is HGET followed by SETNX. Whatever happens in between, nobody
  whose HGET comes after an opening passes before the cooldown is over, unless a caller that was
  between its calls at the opening has passed first: `FirstToPassExactlyWhen` and
  `CooldownIsKeptByCallsExactlyWhen`. One such caller is enough: its success resets the circuit
  (`LateProbeUndoesTheOpening`). Two probes at once never happen (`OneProbeAmongCallers`).
- *A probe that nobody takes back.* With nobody else at the in-process circuit, the probe of a
  dispatch stays out exactly when a renewal of its turn did not reach the store or found the lease
  lost (`Dispatch`), and
  `AbandonedProbeBlocksEveryone` says what that means. `ProbeIsAbandoned` is such a dispatch: its
  reply was committed, and only a renewal after it did not reach the store.
- *A summary that fills the budget.* The comment in `internal/service/aicc_context.go:72` prefers
  recent messages to the summary; the code does the opposite (`FullSummaryDropsEveryMessage`).
- *Comparing routings.* `jsonEqual` is equality only for routings without empty values
  (`JsonEqualIsEqualityExactlyWhen`); stored routings have none.
- *Racing edits of a version.* An edit reads its row before the statement that writes it. Equal
  revisions mean equal configurations, whatever is written, exactly when no write of the row lands
  between another edit's read and its write (`ToldApartExactlyWhenSerial`). A change of name can
  put a revision back (`RenameRollsBack`), and an update can drop a skill under the revision that
  has it (`UpdateDropsSkill`).
- *A stamp before the pod.* A restart stamps the revision it read without waiting for the new pod
  (`internal/worker/handlers/app_runtime_ops.go:424-462`), so an instance can be called in step
  while it still runs the old configuration (`StampedBeforeThePodReads`). From its start on, a pod
  runs the current configuration exactly as long as no edit has moved the revision of its version
  (`PodIsCurrentExactlyWhen`). An instance that is called in step, and whose pod has read the
  version it is bound to, is stale exactly when the stamped revision is ahead of the one its pod
  read (`InStepIsStaleExactlyWhen`); that cannot be when the pod started after the job behind the
  stamp had read the version (`SyncedTellsTheTruth`).
- *A stamp after a switch.* The stamp of a restart is written by instance alone. When the instance
  was switched to another version meanwhile, it can later be called in step with the wrong
  configuration (`StampMisleadsExactlyWhen`); `SwitchedUnderwayMisleads` is a run that does so.

## Model

| member | source | states |
|---|---|---|
| MessageTables.FindByClient | internal/store/queries/aicc.sql:173-176 | the lookup by client key returns a visitor message of this session and key, and nothing only if there is none |
| MessageInvariant.TakeLeaseKeepsInv | internal/store/queries/aicc.sql:273-298 | a lease keeps the invariant: no two running tasks share a session or a token, attempts stay within the maximum |
| MessageInvariant.RecoverReleases | internal/store/queries/aicc.sql:331-340 | recovery changes exactly the running tasks whose lease ran out: each loses its token and is due again at once, or has failed after its last attempt; no task starts running and none becomes active |
| MessageInvariant.RequeueKeepsInv | internal/service/aicc_public_service.go:571-593 | queueing a failed task again keeps the invariant, the capacity bound included |
| MessageInvariant.SendKeepsInv | internal/service/aicc_public_service.go:639-710 | a reservation keeps the invariant: message with task, or message with refusal, or nothing |
| MessageInvariant.CommitShape | internal/service/aicc_dispatcher.go:195-225 | what a successful transaction leaves behind, as a relation between the tables before and after: one reply under the key of the message, its sources, the consumed invitation, the completed task, and no other change |
| MessageInvariant.CommitKeepsInv | internal/service/aicc_dispatcher.go:195-225 | the transaction that ends a turn keeps the invariant |
| MessageInvariant.StepKeepsInv | internal/service/aicc_dispatcher.go:117-327 | every step of every agent keeps the invariant |
| MessageInvariant.RunKeepsInv | internal/service/aicc_dispatcher.go:117-327 | every run keeps the invariant |
| MessageGuarantees.ExactlyOnceEffects | internal/service/aicc_dispatcher.go:195-225 | in every run a visitor message with a task has at most one reply, its task is completed exactly when that reply exists, a message without a task has its local refusal, and sources belong to replies |
| MessageGuarantees.LostLeaseWritesNothing | internal/service/aicc_dispatcher.go:286-327 | once a token is off every task, no later commit, renewal, give-back or give-up with it changes anything, whatever ran in between |
| MessageGuarantees.DeadTokenForever | internal/store/queries/aicc.sql:300-329 | a token that is off every task never comes back |
| MessageGuarantees.LosingTheTaskKillsTheToken | internal/store/queries/aicc.sql:331-340 | a worker whose task was taken away holds no task at all |
| MessageGuarantees.TokenLeavesForGood | internal/store/queries/aicc.sql:273-298 | from the lease on a token is on its own task or on none, and once gone it stays gone |
| MessageGuarantees.RunningTaskHasFreeKey | internal/store/queries/aicc.sql:166-171 | while a task runs, the client key of its message is free for the reply |
| MessageGuarantees.LiveLeaseIsNotTaken | internal/service/aicc_dispatcher.go:131-134 | over every run in which its worker is silent, a task stays held until its lease expires |
| MessageGuarantees.LeaseTakesTheOldest | internal/store/queries/aicc.sql:273-298 | a lease goes to a due task whose session has nothing running and nothing unfinished before it, uses one attempt, and lasts the lease time |
| MessageGuarantees.LeaseIsGivenExactlyWhen | internal/store/queries/aicc.sql:273-298 | in every reachable state a lease is given if and only if the task waits and is due, and its session has nothing running and nothing unfinished that is older or of the same second with a smaller id |
| MessageGuarantees.SessionNeverExceedsLimit | internal/service/aicc_public_service.go:954-964 | over every run a session never holds more visitor messages than the limit its senders read |
| MessageGuarantees.CommitSucceedsExactlyWhen | internal/service/aicc_dispatcher.go:195-225 | with fresh ids the transaction succeeds if and only if the lease is still held and an offered invitation is still open |
| MessageGuarantees.FactsAreNeverUndone | internal/store/queries/aicc.sql:166-206 | over every run messages never change, a completed task is final, and no stored message is given a task later |
| MessageGuarantees.ClientKeyNamesOneTurn | internal/service/aicc_public_service.go:482-509 | over every run one session and client key name at most one visitor message, one task and one assistant reply |
| MessageGuarantees.ResendIsAnsweredByTheFirst | internal/service/aicc_public_service.go:652-661 | after the first acceptance every resend writes nothing and is answered with the first message, whatever ran in between |
| MessageGuarantees.QueueNeverOverflows | internal/service/aicc_public_service.go:571-591 | in every run in which every count is taken under the lock, the tasks that are not terminal never exceed the queue capacity |
| MessageGuarantees.StaleCountOverflows | internal/store/store.go:97-99 | a concrete run in which an outdated count lets two tasks into a queue of one |
| QueueAdmission.LateRunIsARun | internal/service/aicc_public_service.go:639-710 | a run in which every send counts before the lock is a run of the protocol with as much more capacity as sends ever stood between count and write, so the invariant and all guarantees hold of it |
| QueueAdmission.LateQueueIsBounded | internal/service/aicc_public_service.go:675-684 | over every such run the queue exceeds its capacity by no more than the sends that ever stood between count and write |
| QueueAdmission.QueueCanHoldExactly | internal/service/aicc_public_service.go:675-684 | with k sends at a time between count and write, some run comes to n unfinished tasks if and only if n is at most the capacity and k |
| QueueAdmission.OutdatedCountKeepsBoundExactlyWhen | internal/service/aicc_public_service.go:653-684 | a write that lets a task in keeps the bound if and only if there is room at that moment, and so whenever no task entered since its count |
| SessionOrder.RepliesComeInOrderExactlyWhen | internal/store/queries/aicc.sql:273-298 | over every run, when the reply of a leased task is written all earlier messages of the session are answered or given up if and only if, since the lease, no message of the session was accepted in the same second with a smaller id and no earlier failed one was queued again |
| SessionOrder.CutsInExactlyWhen | internal/service/aicc_public_service.go:571-593 | a step puts an unfinished task before a running one if and only if it is an accepted message of the session in the same second with a smaller id, or the requeue of an earlier failed one |
| SessionOrder.RunKeepsThePast | internal/store/queries/aicc.sql:166-171 | over every run no message is dated later than the clock, if none was before |
| SessionOrder.NoSessionIsStuck | internal/store/queries/aicc.sql:273-340 | from every reachable state a wait and a recovery of leases lead to one in which the session has nothing unfinished or its first unfinished task can be leased |
| OrderRuns.LaterMessageOvertakes | internal/store/queries/aicc.sql:166-171 | a run that answers a message although one of the same second with a smaller id, accepted after its lease, waits |
| OrderRuns.EarlierMessageReturns | internal/service/aicc_public_service.go:571-593 | a run that answers a message although an earlier failed one was queued again after its lease |
| InvitationGuarantees.OneOfferPerSession | internal/service/aicc_intent.go:175-200 | in every run a session has at most one committed offer, and one exactly when its invitation left not_invited; the offered message has its reply |
| InvitationGuarantees.InvitationOpensWithItsReply | internal/service/aicc_dispatcher.go:205-222 | the only step that opens an invitation is a commit that offers, and it writes the reply and completes the task in the same step |
| InvitationGuarantees.InviteStepsForward | internal/store/queries/aicc.sql:413-423 | one step moves an invitation by at most one stage, forward, and only the visitor decides an open one |
| InvitationGuarantees.DecisionIsNeverLeft | internal/service/aicc_intent.go:350-357 | over every run declined and submitted are never left again |
| InvitationGuarantees.OneReplyShowsForm | internal/service/aicc_public_service.go:796-799 | in every reachable state at most one reply of a session shows the form |
| InvitationGuarantees.AnalyzedMessageIsPinned | internal/store/queries/aicc.sql:402-411 | once invited, the analyzed message never changes, over every run |
| InvitationGuarantees.OfferingReplyShowsFormExactlyWhen | internal/service/aicc_public_service.go:796-799 | the reply that consumes the invitation shows the form, at once and in every later state, if and only if it is no refusal and its message was the last one analyzed |
| InvitationGuarantees.FormCanShowOnAnotherReply | internal/service/aicc_intent.go:228-280 | a concrete run in which a repeated analysis makes the form show on an earlier reply |
| MessageStore.Store.TryLease | internal/store/queries/aicc.sql:273-298 | one row if and only if the token is fresh and the lease condition holds; then the task is held for the lease time and the token is on no other task |
| MessageStore.Store.TryRenew | internal/store/queries/aicc.sql:305-309 | one row if and only if the lease is held, and then it lasts the lease time from now; otherwise the token is on no task any more |
| MessageStore.Store.TryGiveBack | internal/store/queries/aicc.sql:311-320 | a failed attempt leaves the token on no task and hits a row if and only if the lease was held |
| MessageStore.Store.TryGiveUp | internal/store/queries/aicc.sql:322-329 | a fatal failure leaves the token on no task and hits a row if and only if the lease was held |
| MessageStore.Store.TryCommitTurn | internal/service/aicc_dispatcher.go:195-225 | an accepted transaction leaves reply and completed task, a refused one leaves everything as it was and says why |
| MessageStore.Store.Others | internal/service/aicc_dispatcher.go:277-284 | whatever the other agents do, the tables stay a state of one run of the protocol |
| MessageStore.AloneReplays | internal/service/aicc_dispatcher.go:117-246 | an agent with nobody else around is answered exactly as its own statements, taken one after the other from the first state, would be |
| ProbeCircuit.OpenExactlyAfterFive | internal/service/aicc_dispatcher.go:443-482 | the circuit is open if and only if five overloads came since the last success, and a probe is out only of an open circuit |
| ProbeCircuit.CountsSinceSuccess | internal/service/aicc_dispatcher.go:458-474 | the overloads that count are those since the last success |
| ProbeCircuit.HolderIsLastUntakenProbe | internal/service/aicc_dispatcher.go:443-482 | a probe is out if and only if nothing after it took it back and no later probe passed |
| ProbeCircuit.OneProbeBetweenResets | internal/service/aicc_dispatcher.go:443-456 | between two probes something took the first one back |
| ProbeCircuit.AbandonedProbeBlocksEveryone | internal/service/aicc_dispatcher.go:186-188 | while a probe is not taken back, nobody is admitted |
| ProbeCircuit.TakenBackForGood | internal/service/aicc_dispatcher.go:389-396 | a probe that was taken back is never out again, whatever follows |
| ProbeCircuit.ShutPeriodOnlyGrows | internal/service/aicc_dispatcher.go:389-396 | without a success, a shut circuit stays shut for the cooldown from the last shutting on |
| ProbeCircuit.UntilIsSetByTheLastShutting | internal/service/aicc_dispatcher.go:389-396 | the shut period ends thirty seconds after the last shutting, and no other event moves it |
| ProbeCircuit.NobodyPassesWhileShut | internal/service/aicc_dispatcher.go:443-456 | without a success in between, whoever is admitted after the circuit was shut is a probe and comes a cooldown later at the earliest |
| ProbeCircuit.Circuit.Allow | internal/service/aicc_dispatcher.go:443-456 | admission as a condition on the event log, and the log entry it leaves |
| ProbeCircuit.Circuit.RecordOverload | internal/service/aicc_dispatcher.go:458-465 | the fields stay those of the log with one overload more |
| ProbeCircuit.Circuit.RecordSuccess | internal/service/aicc_dispatcher.go:467-474 | the fields stay those of the log with one success more |
| ProbeCircuit.Circuit.ReopenHalfOpenProbe | internal/service/aicc_dispatcher.go:389-396 | the fields stay those of the log with one reopening more |
| ProbeCircuit.Circuit.ReleaseHalfOpenProbe | internal/service/aicc_dispatcher.go:476-482 | the fields stay those of the log with one release more |
| Dispatcher.RetryDelay | internal/service/aicc_dispatcher.go:398-410 | the delay of every attempt: 2, 5, 10, 20 seconds, and 40 from the fifth on |
| Dispatcher.Dispatcher.Dispatch | internal/service/aicc_dispatcher.go:117-246 | refused at the circuit if and only if it does not admit, and then nothing happens; otherwise the own statements are exactly the lease, the renewals, the read and the upsert of the analysis, and the commit or give-back that the answers call for, in that order; the outcome is fixed by the answers of the outside and of those statements; reports and circuit hear what the outcome says; a failed turn whose statement hits its row leaves the task waiting out the delay of its attempt, or failed after the last one, exactly for a limited concurrency, an unavailable runtime, a deadline, a network timeout and the statuses 429, 503 and 529, with an overload told for all of these but the first, and leaves it failed with the circuit reopened for anything else; after every outcome but an update, commit or renewal error the token is on no task; and the probe of this dispatch is out afterwards, alone at the circuit, if and only if its turn came to renew and some renewal did not reach the store or found the lease lost |
| Dispatcher.Dispatcher.Enter | internal/service/aicc_dispatcher.go:121-130 | who is admitted by the shared or the in-process circuit, and which log entry is the probe |
| Dispatcher.Dispatcher.Claim | internal/service/aicc_dispatcher.go:131-141 | the task is claimed if and only if the lease statement reached the store and hit one row; then its token is on no other task; an unclaimed one hands the probe back, and nothing else is done to the tables |
| Dispatcher.Dispatcher.Work | internal/service/aicc_dispatcher.go:142-246 | everything between lease and end, others acting before and between: the own statements one by one, the outcome that the answers make, what is left in the tables, and what the circuit in use hears |
| Dispatcher.Dispatcher.Analyze | internal/service/aicc_intent.go:140-202 | nothing, or one read of the invitation and then one upsert with what was read, unless that one does not reach the store, with the renewals around; the form is offered if and only if the profile was written, the level is high and the invitation read was not yet open |
| Dispatcher.Dispatcher.Beat | internal/service/aicc_dispatcher.go:343-387 | a stretch of renewals: as many as reach the store until one cannot or finds the lease lost, none after an earlier failure; its error is the one of that renewal; a lost lease means the token is on no task |
| Dispatcher.Dispatcher.Conclude | internal/service/aicc_dispatcher.go:195-246 | after the chat: a reply is committed whatever the renewals said and the last renewals follow; a failure is finished only if no renewal failed; a commit leaves reply and completed task even when the last renewal fails |
| Dispatcher.Dispatcher.FinishError | internal/service/aicc_dispatcher.go:286-327 | a failed turn, if its statement reaches the store and hits the row: waiting again while an attempt is left, for the four passing failures and the statuses 429, 503 and 529, and failed for good for any other; what either circuit hears of each; the probe is taken back |
| Dispatcher.Dispatcher.GiveTaskBack | internal/service/aicc_dispatcher.go:293-316 | given back if and only if the lease is held; the task waits the delay of the attempt that failed or has failed for good; what the worker calls the last attempt is what was stored if and only if the scanned row and the task agree on it |
| Dispatcher.Dispatcher.GiveTaskUp | internal/service/aicc_dispatcher.go:317-327 | a fatal failure fails the task if and only if the lease was held |
| Dispatcher.TicketIsAtTheEnd | internal/service/aicc_dispatcher.go:227-246 | after every event a dispatch adds, its probe is out if and only if its outcome was a renewal error |
| Dispatcher.DispatchIsHeard | internal/service/aicc_dispatcher.go:131-246 | what the circuits hear of a dispatch, by what the outside and the statements answered: a reopening or release without a lease, what its failure tells, nothing after a renewal error, a success for a committed reply, a reopening for one that was not |
| Dispatcher.CommitsExactlyWhen | internal/service/aicc_dispatcher.go:195-225 | a dispatch takes a commit if and only if it has the lease, nothing failed before and the store can be reached, and then of its own reply, with the form if and only if the level is high and the invitation read, with a profile written over it, was not yet open |
| Dispatcher.ProfileIsWrittenExactlyWhen | internal/service/aicc_intent.go:175-200 | a dispatch writes a profile if and only if it has the lease, its reads and its analysis succeeded and the store can be reached, and then with the level of that analysis, for this message of this session, over the invitation read there |
| AbandonedProbe.ProbeIsAbandoned | internal/service/aicc_dispatcher.go:226-230 | a concrete dispatch that commits its reply, ends with a renewal error and leaves its probe out |
| PublicService.StatusIsKnown | internal/service/aicc_public_service.go:712-757 | in every run a stored visitor message has a status: that of its task, or of its local refusal |
| PublicService.CompletedStaysAnswered | internal/service/aicc_public_service.go:712-757 | once a task reads as completed its reply is there and the status stays, in every later state |
| PublicService.RefusalStaysAnswered | internal/service/aicc_public_service.go:712-757 | a locally refused message keeps its reply and never gets a task, in every later state |
| PublicService.ReservationIsExact | internal/service/aicc_public_service.go:639-710 | the answer of a reservation, in the order of its checks: a known key gives the stored message, then the limit, the queue and identifiers in use refuse, each if and only if it applies; only an accepted one writes, and then message and task or refusal are there |
| PublicService.OneKeyOneAnswer | internal/service/aicc_public_service.go:482-509 | two answers under one key, at any two moments of a run, name the same message |
| PublicService.PublicService.SendMessage | internal/service/aicc_public_service.go:449-569 | at most one action: a requeue exactly when the key named a stored message whose task read as failed and the message passes, a reservation exactly when the key named none and the content passes; the outcome is what that action was answered, so the queue refuses no resend of a message that has not failed; a requeue that is not turned away leaves a failed task queued for now with no attempts used; every outcome but a refusal names a stored message of this session and key |
| PublicService.PublicService.Resend | internal/service/aicc_public_service.go:482-509 | a known key is answered with its message; the task is queued again exactly when its status is failed and the stored message passes, only then can the queue refuse, and it then starts over |
| PublicService.PublicService.RequeueFailedTask | internal/service/aicc_public_service.go:571-593 | refused as busy if and only if there is no room; otherwise the failed task of the message is queued for now with all its attempts, and no other task changes |
| PublicService.RequeueStartsOver | internal/store/queries/aicc.sql:208-218 | after a requeue a message that was failed is queued for now with no attempts used, and any other keeps its status |
| PublicService.PublicService.ReserveMessage | internal/service/aicc_public_service.go:639-710 | one reservation, refused exactly when no known key answers it and the limit, the queue or an identifier in use refuses it; otherwise the message is stored with its task or refusal, or the stored one is named |
| LeaseMap.LimitsNeverExceeded | internal/service/aicc_concurrency_limiter.go:29-41 | over every history of acquisitions, renewals, releases and expiries the upstream, each organisation, each agent and each session never has more live leases than the limit of its kind |
| LeaseMap.DeadTokensStayDead | internal/service/aicc_concurrency_limiter.go:34-41 | a granted token that was released or ran out is never live again |
| LeaseMap.LeaseLastsItsTtl | internal/service/aicc_concurrency_limiter.go:29-33 | without renewal and release a lease is live exactly for its time |
| LeaseMap.LastsFromTheLastRenewal | internal/service/aicc_concurrency_limiter.go:29-41 | a granted or renewed lease is live for exactly the time to live from that moment, if nothing else is done to it |
| SortedSets.PurgeFits | internal/service/aicc_concurrency_limiter.go:31 | purging up to now leaves exactly the entries that are still live and keeps the key's expiry behind them |
| SortedSets.TimePassesFits | internal/service/aicc_concurrency_limiter.go:32 | key expiry never drops an entry that still counts |
| RedisLimiter.Limiter.AcquireScript | internal/service/aicc_concurrency_limiter.go:29-33 | granted if and only if every scope has fewer live leases than its limit; the live leases afterwards are those of the abstract acquisition, so a refused one changes none |
| RedisLimiter.Limiter.RenewScript | internal/service/aicc_concurrency_limiter.go:37-41 | renewed if and only if the token is live, and exactly as in the lease map |
| RedisLimiter.Limiter.ReleaseScript | internal/service/aicc_concurrency_limiter.go:34-36 | releases the token in every scope, exactly as in the lease map |
| RedisLimiter.Limiter.Wait | internal/service/aicc_concurrency_limiter.go:29-41 | time passing drops from the keys only what the lease map has run out of |
| RedisLimiter.Permit.Tick | internal/service/aicc_concurrency_limiter.go:61-73 | the renewal loop renews only while the permit is not released |
| RedisLimiter.Permit.Release | internal/service/aicc_concurrency_limiter.go:74-79 | the token is no longer live, every other one is as before, and a second release does nothing |
| RedisLimiter.AcquirePermit | internal/service/aicc_concurrency_limiter.go:44-80 | a permit is handed out if and only if the upstream, the organisation, the agent and the session each have fewer live leases than the limit of their kind; its token then counts in exactly these four scopes, and a refusal changes nothing |
| CircuitHistory.StreakReachesExactlyWhen | internal/service/aicc_upstream_circuit.go:39-41 | the streak reaches n if and only if some end of the history without success and without a lapse of the state key holds n overloads |
| CircuitHistory.ShutWhileRunning | internal/service/aicc_upstream_circuit.go:36-49 | with two windows covering the cooldown, a circuit opened at any time stays shut for it over every sequence of reports, reopenings, admissions and waits |
| CircuitHistory.CooldownIsKeptExactlyWhen | internal/service/aicc_upstream_circuit.go:43-49 | for accepted settings no run admits anyone within a cooldown of an opening if and only if two windows and one millisecond cover the cooldown |
| CircuitHistory.LateSuccessForgets | internal/service/aicc_upstream_circuit.go:43-48 | the run in which a late success makes the circuit forget that it is open |
| CircuitHistory.OneProbeWithoutReports | internal/service/aicc_upstream_circuit.go:51-69 | without reports at most one request passes up to two cooldowns after an opening |
| CircuitHistory.UnreportedCircuitFallsOpen | internal/service/aicc_upstream_circuit.go:51-69 | after two cooldowns without reports everyone is admitted |
| CircuitHistory.WhatOpens | internal/service/aicc_upstream_circuit.go:41-49 | an overload that trips and every reopening open the circuit now, whatever it was before |
| CircuitHistory.MarksAreReports | internal/service/aicc_upstream_circuit.go:37-40 | the marks that are counted are exactly the outcomes and exactly the overloads of the history, at their times |
| CircuitHistory.TripsExactlyWhen | internal/service/aicc_upstream_circuit.go:36-42 | an overload trips if and only if the streak or the share of the overloads in the window is reached, both counted from the events |
| CircuitHistory.WorseHistoriesTripToo | internal/service/aicc_upstream_circuit.go:36-42 | had any success been an overload, a history that trips would trip all the same |
| CircuitHistory.OverloadsAloneTrip | internal/service/aicc_upstream_circuit.go:36-42 | ten overloads and no success in the window trip at every accepted percentage |
| CircuitHistory.SmallSharesNeverTrip | internal/service/aicc_upstream_circuit.go:36-42 | with a short streak, fewer than ten reports or a share below the percentage never trip |
| CircuitCalls.AdjacentCallsAreOne | internal/service/aicc_upstream_circuit.go:51-69 | with nothing in between, HGET and SETNX admit if and only if the one operation does, and leave the same circuit; a caller with an older reading of the clock is refused in addition, exactly while its reading is before the deadline |
| CircuitCalls.FirstToPassExactlyWhen | internal/service/aicc_upstream_circuit.go:51-69 | with two windows covering the cooldown: a step is the first to pass within a cooldown of an opening if and only if it is the SETNX of a caller whose HGET was before the opening |
| CircuitCalls.CooldownIsKeptByCallsExactlyWhen | internal/service/aicc_upstream_circuit.go:51-69 | over every sequence of calls and reports somebody can pass within a cooldown of an opening if and only if a caller was between its two calls then |
| CircuitCalls.LateProbeUndoesTheOpening | internal/service/aicc_upstream_circuit.go:43-69 | such a caller gets the probe, and its success lets every later caller pass within the cooldown |
| CircuitCalls.OneProbeAmongCallers | internal/service/aicc_upstream_circuit.go:67 | of any number of callers between their calls one at most gets the probe, until it is taken back or its key lapses |
| RedisCircuit.SharedCircuit.RecordOverload | internal/service/aicc_upstream_circuit.go:36-42 | the script trips exactly when an unbroken end of the history holds the threshold of overloads, or at least ten overloads and successes are in the window and the overloads are at least the percentage of them; the circuit is the one of the history |
| RedisCircuit.SharedCircuit.RecordSuccess | internal/service/aicc_upstream_circuit.go:43-48 | refines the history machine: a full reset while the probe is out, else one more success |
| RedisCircuit.SharedCircuit.Reopen | internal/service/aicc_upstream_circuit.go:49 | refines the history machine: opens also a closed circuit |
| RedisCircuit.SharedCircuit.Allow | internal/service/aicc_upstream_circuit.go:51-69 | the two calls, by a clock read some time before, with anything that others do in between: admitted at HGET if and only if no deadline is there, otherwise if the deadline is over and no probe is out at SETNX, on the state left by everything in between |
| RedisCircuit.SharedCircuit.Look | internal/service/aicc_upstream_circuit.go:57-66 | HGET refines the first call: passes, refuses, or goes on to SETNX as the history says |
| RedisCircuit.SharedCircuit.Claim | internal/service/aicc_upstream_circuit.go:67 | SETNX refines the second call: granted if and only if no probe is out |
| RedisCircuit.SharedCircuit.Mark | internal/service/aicc_upstream_circuit.go:37-40 | both counters equal the numbers of outcomes and of overloads in the window |
| RedisCircuit.SharedCircuit.Wait | internal/service/aicc_upstream_circuit.go:42 | key expiry loses no entry that is still in the window |
| ConversationContext.Build | internal/service/aicc_context.go:41-81 | the built context is the window of the stored rows: the shortened summary and the longest run of latest non-blank messages, at most twelve, that fits the budget |
| ConversationContext.WindowIsTheLongest | internal/service/aicc_context.go:69-79 | at most twelve messages and 12000 characters; a message is left out only if it would exceed one of the two; a longer summary keeps its last 12000 |
| ConversationContext.DropOldest | internal/service/aicc_context.go:69-79 | what is left fits, and no longer suffix would |
| ConversationContext.WindowIsUnique | internal/service/aicc_context.go:41-81 | the stored rows determine the context |
| ConversationContext.LatestIsKeptExactlyWhen | internal/service/aicc_context.go:73-79 | the latest message is kept if and only if it fits beside the summary on its own, and then it is the last one |
| ConversationContext.FullSummaryDropsEveryMessage | internal/service/aicc_context.go:73-79 | a summary of the full budget drops all messages |
| ConversationContext.SpokenAreSpoken | internal/service/aicc_context.go:57-68 | every message of the context is a stored row with its trimmed, non-empty text |
| ConversationContext.SpokenInOrder | internal/service/aicc_context.go:57-68 | the rows that say something, and no others, are kept in their order, each with its id, its writer and its trimmed text |
| Text.UnescapeUndoesEscape | internal/service/aicc_context.go:121-124 | escaping can be undone |
| Text.EscapedIsPlain | internal/service/aicc_context.go:121-124 | escaped text holds no angle bracket and no quote |
| Text.EscapeIsXml | internal/service/aicc_context.go:121-124 | the five entities, and every other character as it is |
| Text.TrimKeepsTrimmedParts | internal/service/aicc_intent.go:52-55 | trimming a message loses none of its trimmed parts |
| Text.SpacesAreUnicode | internal/service/aicc_context.go:59 | the 25 characters that trimming takes for white space |
| Rendering.RenderContext | internal/service/aicc_context.go:102-119 | the builder loop writes the rendering that the parser reads |
| Rendering.MessagesAreTagged | internal/service/aicc_context.go:110-116 | how a message of the visitor and one of the assistant are set, and that messages follow one another |
| Rendering.ContextIsTagged | internal/service/aicc_context.go:102-119 | the tags around the messages and around a summary that is there |
| Rendering.TurnIsTagged | internal/service/aicc_public_chat.go:194-196 | the five lines of a turn |
| Rendering.ParseUndoesRender | internal/service/aicc_context.go:102-119 | from any rendered context a parser recovers the summary and every role and text in order, whatever follows |
| Rendering.ParseUndoesTurn | internal/service/aicc_public_chat.go:194-196 | from any rendered turn the summary, the conversation and the trimmed visitor text are recovered |
| Rendering.PromptDeterminesConversation | internal/service/aicc_public_chat.go:194-196 | under one instruction equal prompts come from equal conversations |
| EvidenceRendering.RenderEvidence | internal/service/aicc_intent.go:205-212 | whatever order the map is walked in, the text is an evidence prompt of the map |
| EvidenceRendering.EvidenceIsOrderFree | internal/service/aicc_intent.go:205-212 | a map has one evidence prompt |
| EvidenceRendering.EvidenceIsRecovered | internal/service/aicc_intent.go:205-212 | the evidence prompt gives back exactly the ids and texts of the map |
| EvidenceRendering.EvidenceIsInjective | internal/service/aicc_intent.go:205-212 | maps with one prompt are equal |
| EvidenceRendering.RenderPrompt | internal/service/aicc_intent.go:205-212 | with the tags of the code the prompt gives back exactly the ids and texts it was made of |
| EvidenceRendering.MessagesAreTagged | internal/service/aicc_intent.go:205-212 | the element of one message, and the lines around all of them |
| EvidenceRendering.PromptDeterminesMessages | internal/service/aicc_intent.go:205-212 | with the tags of the code equal prompts come from equal messages |
| TextOrder.BeforeIsOrder | internal/service/aicc_intent.go:210 | the order that strings are sorted by is a strict total order |
| TextOrder.BeforeExactlyWhen | internal/service/aicc_intent.go:210 | one text comes before another if and only if at the first difference it has ended or has the smaller character |
| IntentProfile.CheckSensitive | internal/service/aicc_intent.go:72-80 | the counting loop finds the values that hold an at sign or a digit at eight places |
| IntentProfile.ParseAnalysis | internal/service/aicc_intent.go:39-70 | read if and only if the document decodes with one of the three levels, and then the loop over the fields, in any order, keeps exactly the accepted ones |
| IntentProfile.AcceptedExactlyWhen | internal/service/aicc_intent.go:39-70 | a field is accepted if and only if it is allowed and not the contact, value and cited text say something, the cited message was read and holds that text, and the value has no at sign and fewer than eight digits |
| IntentProfile.CleanedKeepsTheAccepted | internal/service/aicc_intent.go:39-70 | what is kept are the accepted fields, trimmed, each with its trimmed evidence, and the confidences from 0 to 1 of those |
| IntentProfile.Analyze | internal/service/aicc_intent.go:140-202 | the stored level is the one read, or without a readable analysis high exactly for a buying visitor and else low, with no field that was not there before |
| IntentProfile.Merge | internal/service/aicc_intent.go:313-329 | the loop over the old fields, in any order, adds exactly those that are still backed and not replaced |
| IntentProfile.CollectVisitorMessages | internal/service/aicc_intent.go:303-311 | the loop collects the visitor messages of the context over the current one |
| IntentProfile.VisitorMessagesAre | internal/service/aicc_intent.go:303-311 | under each id the last visitor message of the window, and the current message if the window has none of its id |
| IntentProfile.CleanedIsSupported | internal/service/aicc_intent.go:39-70 | what is accepted is allowed, not the contact field, non-blank, not sensitive-looking, and cites words of the visitor |
| IntentProfile.MergedIsSupported | internal/service/aicc_intent.go:313-329 | a merge of supported profiles is supported |
| IntentProfile.EveryProfileIsSupported | internal/service/aicc_intent.go:140-202 | over every sequence of messages and analyses of a session, valid or not and even with outdated reads of the profile, every stored profile is supported: each field allowed, harmless, and backed by a part of the message of that id; fields and evidence have the same keys |
| IntentProfile.StoredFieldsAreBusinessFields | internal/service/aicc_intent.go:33-70 | with the allowlist of the code no stored profile ever holds a contact, a field outside the seven business fields, or a sensitive-looking value |
| IntentProfile.FreshBeatsOld | internal/service/aicc_intent.go:322-329 | a fresh value wins with its evidence; any other field of the result is an old one, without its confidence |
| IntentProfile.OldFieldSurvivesExactlyWhen | internal/service/aicc_intent.go:322-329 | an old field without a fresh value survives if and only if its message is among those read, that is, still in the window |
| ResponseAudit.ExtractAudit | internal/service/aicc_public_chat.go:77-101 | the nested loops build the audit of the transcript: every citable declaration has its reference, and each reference its first declaration |
| ResponseAudit.AuditIsUnique | internal/service/aicc_public_chat.go:91-95 | a transcript has one audit |
| ResponseAudit.CheckSource | internal/service/aicc_response.go:142-170 | a source passes if and only if it repeats the audited one in all fields and meets the scope and URL rules |
| ResponseAudit.ValidateEnvelope | internal/service/aicc_response.go:100-130 | the reply with its text trimmed passes if and only if it complies with the policy, and nothing else is returned |
| ResponseAudit.ParseAndValidate | internal/service/aicc_response.go:56-97 | a raw answer gives a reply if and only if it decodes to a document with sources and with flags of the two known names, or an empty array of them, that the reply repeats - its text trimmed, its sources, its action, refusal and fallback exactly if so flagged - and the reply complies |
| ResponseAudit.ValidateOrFallback | internal/service/aicc_dispatcher.go:251-275 | a complying first answer is shown and nothing is asked again; otherwise at most one rewrite of a raw answer is asked for, and what is shown complies with the audit of its own transcript or is the fallback |
| ResponseAudit.ShownSourcesAreDeclared | internal/service/aicc_response.go:142-170 | every source of a shown reply was declared, field by field, by a trusted tool of the same turn |
| ResponseAudit.DeclaredExactlyByTools | internal/service/aicc_public_chat.go:77-101 | what may be cited is exactly what one of the three tools declared with a title, a reference and, from the web, an address and one of the two networks |
| ResponseAudit.FirstDeclarationIsShown | internal/service/aicc_public_chat.go:91-95 | under one reference only the first declaration can be shown |
| ResponseAudit.ShownRepliesAreSafe | internal/service/aicc_response.go:100-170 | no shown reply is empty or longer than 4000 characters, has more than eight sources, mixes enterprise network with knowledge, hides that it is unconfirmed, names a price without knowledge, or claims a completed operation |
| ResponseAudit.PlainRepliesPass | internal/service/aicc_response.go:100-130 | a reply without sources passes if it is of that length and claims nothing |
| ResponseAudit.CitingRepliesPass | internal/service/aicc_response.go:100-170 | a reply with up to eight sources of one kind, cited as declared, passes if it says what they are |
| ResponseAudit.OfferedExactlyWhenAllowed | internal/service/aicc_intent.go:333-348 | the form is offered if and only if that was decided; without that an offer becomes no action and any other action stays; nothing else of the reply changes, and it still complies |
| ResolutionPrompt.CountReplies | internal/service/aicc_public_service.go:804-822 | the loop's counters say where in the phase the target stands among the replies and whether the visitor wrote after it |
| ResolutionPrompt.NextActionOf | internal/service/aicc_public_service.go:792-828 | the form is offered exactly to an answered reply of an invited visitor whose message was the last analyzed; otherwise resolution is asked exactly for the second reply after the place where the phase begins with no visitor message after it |
| ResolutionPrompt.OneMessageAsks | internal/service/aicc_public_service.go:804-826 | at most one message of a phase asks |
| ResolutionPrompt.VisitorWithdrawsForGood | internal/service/aicc_public_service.go:809-811 | once the visitor writes, no earlier message asks, whatever follows |
| MemoryQueue.Queue.Add | internal/redis/queue.go:171-184 | a queued job changes nothing; a new one stands behind everything due no later and before everything due later |
| MemoryQueue.Queue.Sink | internal/redis/queue.go:182 | the new entry ends behind everything that is due no later |
| MemoryQueue.Queue.Reserve | internal/redis/queue.go:186-205 | handed out are the first entries that are due, in order and within the limit; the rest stays in order in the same array, and is due later unless the limit was reached |
| MemoryQueue.Queue.Compact | internal/redis/queue.go:192-203 | the compaction in place |
| MemoryQueue.AddedKeepsOrder | internal/redis/queue.go:171-184 | ids stay unique and the queue sorted |
| MemoryQueue.AddedExactlyWhen | internal/redis/queue.go:171-184 | a job is added if and only if its id is not queued, by due time and last among equals |
| MemoryQueue.TakesAllThatIsDue | internal/redis/queue.go:196-201 | an entry is handed out if and only if it is due and within the limit |
| MemoryQueue.RunKeepsSound | internal/redis/queue.go:171-205 | over every run the accepted jobs are, with multiplicity, the delivered and the queued ones, and none was delivered before its time |
| MemoryQueue.NobodyOvertakes | internal/redis/queue.go:171-205 | over every run two jobs keep their order, queued or delivered |
| SkillReconciliation.List | internal/service/app_skill_service.go:682-765 | refused, in this order, for an unknown instance, a caller without permission, rows that cannot be read, and a container without a skill interface; otherwise the list is the sorted join of rows and container skills, with nothing protected when the version's skills cannot be read |
| SkillReconciliation.ByNameIsTheLast | internal/service/app_skill_service.go:700-703 | under each name the last row of that name |
| SkillReconciliation.SortByName | internal/service/app_skill_service.go:800-806 | the insertion sort in place sorts by name and keeps the order within each name |
| SkillReconciliation.ListingIsUnique | internal/service/app_skill_service.go:744-763 | the list does not depend on the iteration order of the map |
| SkillReconciliation.ListedOnceWithItsStatus | internal/service/app_skill_service.go:720-757 | with distinct container names each name of either side is listed once: active on both sides, pending or unknown only installed, by whether the container answers, and else builtin, system or self-made by its marks; with the fields of its row, its description, and protected exactly if installed and required |
| SkillReconciliation.SortedGroupsAreEqual | internal/service/app_skill_service.go:800-806 | sorted lists with the same entries, in the same order, under each name are equal |
| VersionEdits.NormalizeRouting | internal/service/assistant_version_service.go:330-338 | the loop keeps exactly the slots that say something, each with its model trimmed, and leaves no empty value |
| VersionEdits.CompareRouting | internal/service/assistant_version_service.go:482-499 | the loop decides the comparison of routings |
| VersionEdits.JsonEqualIsEqualityExactlyWhen | internal/service/assistant_version_service.go:482-499 | the comparison is equality with every other routing if and only if no value is empty |
| VersionEdits.BumpedExactlyWhenChanged | internal/service/assistant_version_service.go:468-480 | worked out from the current row the revision moves, by one, if and only if the configuration changes |
| VersionEdits.UpdatedWrites | internal/service/assistant_version_service.go:371-390 | the row an update writes: every field of the input, trimmed but for the prompt, the skills it read, and one revision more exactly for another configuration |
| VersionEdits.AcceptableIsOffered | internal/service/assistant_version_service.go:293-325 | contents are accepted if and only if name, prompt and model say something, and image, model and every routed slot with its model are offered |
| VersionEdits.ToldApartExactlyWhenSerial | internal/service/assistant_version_service.go:342-408 | for every order of reads and writes of a row: equal revisions mean equal configurations, whatever acceptable contents are written, if and only if no write lands between another edit's read and its write |
| VersionEdits.RenameRollsBack | internal/service/assistant_version_service.go:376-390 | a change of name worked out before another edit puts the revision back, and the next edit uses it again with another configuration |
| VersionEdits.UpdateDropsSkill | internal/service/assistant_version_service.go:669-690 | an update that read the row before a skill was added drops it again under the same revision |
| VersionService.RowWorksAlone | internal/store/queries/assistant_versions.sql:22-44 | what happens to a row under all edits of all rows is the work of the reads and writes of that row, but for updates that the unique key on names refuses |
| VersionService.NamesStayUnique | internal/migrations/000001_baseline.up.sql:104-105 | over all edits of all rows no two versions come to share a name, although every update checks its name before others write |
| VersionService.VersionService.Update | internal/service/assistant_version_service.go:342-408 | each refusal exactly when it applies, in order: unacceptable contents, a missing row, a missing knowledge base, a name in use when it looked, and the transaction failing for a name taken meanwhile or its knowledge bases; otherwise one read and one write of the whole row, field by field, among whatever other edits do between, and no other row |
| VersionService.VersionService.AddSkill | internal/service/assistant_version_service.go:560-585 | refused exactly for a missing row, a skill that the library cannot give, or a skill of that name; otherwise one read, and one write of the skills read and the new one with the revision read and one |
| VersionService.VersionService.DeleteSkill | internal/service/assistant_version_service.go:641-667 | refused exactly for a missing row or skill; otherwise one read, and one write of the other skills with the revision read and one |
| VersionService.WithoutInParts | internal/service/assistant_version_service.go:650-660 | the other skills stay in their order |
| VersionService.VersionService.PersistSkills | internal/service/assistant_version_service.go:669-690 | skills and revision as worked out from the row that was read, every other field as it is in the row by now |
| VersionStamp.EqualRevisionsEqualConfigs | internal/service/assistant_version_service.go:376-396 | over every run whose edits are in time, of any two states of a version equal revisions mean equal prompt, image, model, routing and skills |
| VersionStamp.SyncedTellsTheTruth | internal/service/app_service.go:436-445 | over every run with edits in time in which no instance is switched during one of its jobs, an instance is called in step only when its stamp was made from the current configuration, and then, once its pod has started since, that is what it runs |
| VersionStamp.PodIsCurrentExactlyWhen | internal/worker/handlers/app_runtime_ops.go:417-423 | over every run with edits in time, from the start of a pod on, while it is not replaced and its instance not switched, it runs the current revision and configuration of the version if and only if no edit since then moved the revision |
| VersionStamp.InStepIsStaleExactlyWhen | internal/service/app_service.go:436-445 | over every run with edits in time, whatever is switched and stamped, an instance that is called in step runs the current configuration if and only if its pod read the bound version at the stamped revision, and, once its pod has read that version, is stale if and only if the stamped revision is ahead of the one its pod read |
| VersionStamp.StampMisleadsExactlyWhen | internal/worker/handlers/app_runtime_ops.go:455-465 | whatever follows that leaves the instance alone, a stamp can come to mislead if and only if the instance was bound to another version meanwhile and the stamped revision is ahead of that version, or equal with the same image and another configuration |
| StampRuns.SwitchedUnderwayMisleads | internal/store/queries/apps.sql:300-312 | a run with a switch under a restart, after which one edit of the new version makes the list call the instance in step with a configuration it never read |
| StampRuns.StampedBeforeThePodReads | internal/worker/handlers/app_runtime_ops.go:424-465 | a run in which the stamp is in step while the pod still runs the configuration before |

## Left out

Not modelled, because it is foreign code, input and output, or would only add easy members:

- HTTP handlers, configuration, wiring, Kubernetes, object storage, geolocation, captcha and permissions.
- The chat call itself: any answer or error at any time, as an input.
- The text patterns (price, completed operation, disclosure, prompt injection), JSON decoding, URL parsing and the keyword fallback: inputs or function parameters. Text is a sequence of characters, so invalid UTF-8 does not occur.
- Identifiers and tokens: every new one is assumed fresh where the code draws a UUID; the protocol leaves colliding ones in and refuses them as keys do.
- Deleting sessions, retention, consent, blocking, rate limits and the last-active touch: the checks before a reservation are inputs, and rows are never deleted.
- The rows of the intent retry table: a repeated analysis is an analysis that may run at any time.
- The resolution status of a session: the start of the phase is an input of `NextActionOf`.
- A transaction whose commit result is unknown: a commit either happens or reports an error.
- The isolation of the reads inside a dispatch: context, session and agent are read without effect on the protocol and are not part of its state.
- Concurrency inside one process: the fields under a mutex change one method at a time, and the renewal goroutine of a dispatch is a sequence of renewals before and between the statements of the turn.
- The clocks of different managers: the limiter and the shared circuit run on one clock that never goes back, and reports reach the circuit at the time they carry.
- Holders whose lease ran out: the limiter bounds live leases, not the goroutines that still run.
- Job recovery, the distributed lock and the Redis job queue.
- Which rule a refused reply broke first: all reasons lead to the same next step.
- Numbers have no width: attempts, revisions and scores are unbounded integers, and confidences are reals.

Stated weaker, or only under a condition:

- MessageGuarantees.QueueNeverOverflows: for counts taken under the lock; `LateQueueIsBounded` and `QueueCanHoldExactly` have what earlier counts do.
- VersionStamp.EqualRevisionsEqualConfigs: for edits in time, because it fails for others; `ToldApartExactlyWhenSerial` has the condition.
- VersionService.VersionService.Update: whether the knowledge bases exist, and whether their rows can be written, are inputs.
- VersionService.VersionService.AddSkill: a skill is its name, and what the library answers is an input.
- VersionService.NamesStayUnique: names are compared as texts; the database ignores case and accents in them.
- VersionStamp.PodIsCurrentExactlyWhen: a pod reads prompt, model, routing and skills of its version at its start; that skills reach it through the rows of installed skills is not modelled.
- QueueAdmission.QueueCanHoldExactly: the snapshot is taken as opened at the first plain read; which read that is depends on the database, and an earlier one only lengthens the stretch between count and write.
- SessionOrder.NoSessionIsStuck: that some worker then takes the lease is scheduling, which is not part of this model.
- Rendering.ParseUndoesTurn: the reader knows the instruction, which is manager text and not escaped.
- SkillReconciliation.ListedOnceWithItsStatus: for distinct names in the container; with repeated ones the list shows each of them, as `IsJoin` says.
- MemoryQueue.Queue.Sink: the stable sort is the insertion of the one new entry; the sorting routine of the library is not part of this model.
- EvidenceRendering.RenderEvidence: sorting is insertion into a sorted list, in place of the library's routine.
- IntentProfile.EveryProfileIsSupported: the fields of a stored row are read back as they were written.
