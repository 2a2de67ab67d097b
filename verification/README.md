# Return Atlas: recovery, consistency and evidence rules

This project models the part of Return Atlas that carries a refund case through two services
joined by at-least-once queues, and the rules that decide and pay a refund. It proves what the
recovery code keeps over every run of any number of processes, and what the evidence, policy and
money rules mean together.

State that the program updates in place is a class (`CaseDatabase.Database`,
`Journal.PostgresCommandJournal`, `MemoryReplay.ReplayStore`,
`Completion.MemoryCompletionStore`, `Outbox.OutboxTable`, `Reclaim.EventReader`,
`Activity.ActivityRepository`, `Sse.Rewriter`). Each of its methods is proved equal to a function
on the class's contents, one function for each database transaction or message, and those
functions are the steps of the runs that the lemmas speak about. A raised exception is an answer
of the function, and the transaction's contents are then unchanged. Loops that only compute are
methods proved against declarative statements.

## How the parts fit

- **Event projection** (`CaseMachine`, `Projection`, `ProjectionRuns`, `ProjectionSafety`,
  `RefundSafety`, `RefundLimits`, `InOrderProjection`, `CaseStory`, `CaseEffects`, `CaseDatabase`). One step is one transaction of one API
  process; executor calls, deliveries, rejections and the user entry points are further steps, in
  any order. Refund executions answer idempotently per handoff id.
- **Workers** (`Journal`, `AgentWorker`, `WorkerDelivery`, `MemoryReplay`, `MemoryWorker`,
  `MemoryDelivery`, `Completion`, `MemoryEnqueue`, `EnqueueRounds`). One step is one await; a call may fail with or without having had its effect,
  a worker may crash anywhere, a lease may expire, a message may be delivered again.
- **Both services** (`Services`). A run of the command worker followed by runs of the projector.
- **Outbox and reclaim** (`Outbox`, `Reclaim`). Lease tokens are fresh numbers; XAUTOCLAIM is a
  contract that also allows it to give up early and to name a next id that does not advance.
- **Rules** (`Registry`, `Policy`, `Evidence`, `PolicyEvaluation`, `Money`, `LearningTrace`).
  Money is an exact number of minor units; a content hash is the content.
- **Smaller cores** (`Migration`, `Activity`, `PublicProjection`, `Sse`).

## What is not as one might expect

- `RefundLimits.EarlyRejectionIsForgotten`: a message that was rejected before its case existed
  is remembered by its id alone. When it is delivered again after the case was created, the case
  stays open. `RefundSafety.RejectClosesExactly` gives the exact condition.
- `RefundLimits.IdReuseDuringRefund`: the second transaction of a refund compares event ids, not
  contents. If another event takes the id while the executor runs, the refund event is
  acknowledged although its case stays in EXECUTING.
  `RefundSafety.AcknowledgedMeansProcessed` gives the exact condition: an acknowledged event was
  processed with its own content if and only if it was not acknowledged by such a transaction.
- `RefundLimits.TwoRefundsAtOneIndex` and `RefundLimits.PaidRefundIsOvertaken`: a command's index
  is recorded with at most one event, but a refund takes its index only with its second
  transaction. Until then another event of that index is applied too: a second refund is executed
  beside the first, and a node event makes the paid refund inapplicable, so that its rejection
  escalates the case. `RefundLimits.SecondContentIsApplied` says exactly which events are let
  through, and `RefundLimits.CommitsExactly` exactly when the second transaction commits.
- `Services.RetryIsDuplicateExactly`: a worker's retry reuses the event ids with new times, which
  the projector takes for a duplicate if and only if the times agree, and refuses otherwise.
  Retries fail closed, they are not transparent: `Services.RetryAfterCrashEscalatesExactly` is a
  crash and a retry whose case is escalated if and only if the two times differ.
- `MemoryWorker.VersionChangeStrandsJob`: a job that was loaded under one prompt version, with
  nothing written before the crash, is abandoned by every delivery under another one.
  `MemoryWorker.FaultFreeAttemptSettles` gives the exact condition.
- `Evidence.SystemFactsCanStrand`: when the only unsupported claims are system facts, the evidence
  is insufficient and no evidence request is valid, so no assessment of those findings is accepted.
  `Evidence.RequestExistsExactly` gives the exact condition.
- `Journal.AnswersAgreeExactly`: the durable and the in-memory journal differ exactly when a claim
  meets an expired lease.
- The unfinished tail of an event stream is sent on as it was received, without projection
  (`Sse.ChunkingIsInvisible` states the whole output), and a frame that raises does not take back
  what was sent before it (`Sse.FailureSendsEarlierMessages`).

## Model

The results come first: statements over all runs, over several operations, or about what
validators mean together. From `CaseEffects.GateExactly` on come the exact effects of single
operations, said on the stored rows without the functions that compute them. The last rows, from
`CaseDatabase.CaseSession.Append` on, are the imperative twins: methods on the program's classes,
each proved to have the effect of the transaction function that the runs take as a step.

| member | source | states |
|---|---|---|
| CaseMachine.TerminalIsStuck | apps/api/src/return_agent/store.py:44-73 | a status is terminal exactly when the transition table has no successor for it, and every other status may be escalated |
| CaseMachine.ExecutesAtMostOnce | apps/api/src/return_agent/store.py:44-73 | on any log whose state changes follow the table, EXECUTING is entered at most once and RESOLVED at most once |
| CaseMachine.LatestInterrupt | apps/api/src/return_agent/store.py:161-179 | the backwards search returns the interrupt that a full reading of the log ends with, or none exactly when the log has none |
| ProjectionRuns.ApplyKeepsRow | apps/api/src/return_agent/agent_bridge.py:445-689 | applying any event keeps log, status, done entries and interrupt of a case consistent |
| ProjectionRuns.RefundKeepsRow | apps/api/src/return_agent/agent_bridge.py:283-345 | completing a refund keeps them consistent and closes the case by the executor's outcome |
| ProjectionSafety.ProjectKeepsDb | apps/api/src/return_agent/agent_bridge.py:156-254 | the first transaction keeps every database invariant and never takes back what was stored |
| ProjectionSafety.CompleteKeepsDb | apps/api/src/return_agent/agent_bridge.py:283-345 | so does the second transaction of a refund |
| ProjectionSafety.RejectKeepsDb | apps/api/src/return_agent/agent_bridge.py:347-443 | a rejection keeps the invariants, never meets an illegal transition and leaves the named case terminal |
| ProjectionSafety.ConfirmKeepsDb | apps/api/src/return_agent/policy_routes.py:27-57 | a confirmation keeps the invariants |
| RefundSafety.RefundsAreTwoPhase | apps/api/src/return_agent/agent_bridge.py:156-345 | in every run a case enters EXECUTING at most once and completes at most one refund; a refund event is processed exactly when its second transaction committed; a case a refund completed is RESOLVED if that refund's own executor record succeeded and ESCALATED if not; a case is RESOLVED if and only if a processed resolution of it needed no refund or was refunded successfully, and it has at most one processed resolution |
| RefundSafety.CaseLogAgrees | apps/api/src/return_agent/agent_bridge.py:445-738 | in every run replaying the log gives the stored status, there is one done entry if the case is terminal and none otherwise, an awaiting status is what the latest interrupt asks for, and the case has one command plus one per return to OBSERVING |
| RefundSafety.LaterRunsGrow | apps/api/src/return_agent/store.py:147-159 | whatever follows, terminal cases stay terminal, processed events stay and cursors never move back |
| RefundSafety.AppliedOncePerIndex | apps/api/src/return_agent/agent_bridge.py:163-200 | a command's index is recorded as processed with at most one event, and a terminated cursor belongs to a terminal case; RefundLimits says what may happen between the two transactions of a refund |
| RefundSafety.ConflictIsInapplicable | apps/api/src/return_agent/agent_bridge.py:163-200 | an event that reuses an id with other content, or a passed index, changes nothing and is refused |
| RefundSafety.ConflictClosesCase | apps/api/src/return_agent/agent_bridge.py:347-443 | the rejection of a conflicting event leaves the named case terminal for good, whatever happens in between and afterwards, unless its message was rejected before |
| RefundSafety.RejectClosesExactly | apps/api/src/return_agent/agent_bridge.py:347-443 | in every reachable state a rejection commits, and the named case is terminal afterwards if and only if it was terminal or the message had not been rejected before |
| CaseEffects.RejectionEndsCommand | apps/api/src/return_agent/agent_bridge.py:183-189 | after the first rejection of a message that names a known case and one of its commands, or a new one, no event of that command that is not processed is ever applied again, and only another case's refund can still move its cursor |
| CaseEffects.AgentClosesForGood | apps/api/src/return_agent/agent_bridge.py:460-513 | an ESCALATED or RUN_FAILED event that is projected on an open case leaves it ESCALATED in every later state |
| CaseEffects.ConsentIsFinal | apps/api/src/return_agent/policy_routes.py:42-46 | after an accepted consent, whatever happens, the same answer under the same key and version is accepted again without effect and any other is refused |
| RefundSafety.AcknowledgedMeansProcessed | apps/api/src/return_agent/agent_bridge.py:822-878 | an acknowledged event's id is processed, and with its own content if and only if the event was not acknowledged by the second transaction of a refund whose id another content had taken |
| RefundLimits.EarlyRejectionIsForgotten | apps/api/src/return_agent/agent_bridge.py:360-372 | a concrete run in which a message rejected before its case existed leaves the later case open |
| RefundLimits.IdReuseDuringRefund | apps/api/src/return_agent/agent_bridge.py:295-312 | a concrete run in which a reused id leaves a refund case in EXECUTING although its event is acknowledged |
| RefundLimits.CommitsExactly | apps/api/src/return_agent/agent_bridge.py:283-345 | in every reachable state an executed refund's second transaction commits if and only if its id is free, its command's cursor stands right before it and its case is in EXECUTING; otherwise it changes nothing |
| RefundLimits.SecondContentIsApplied | apps/api/src/return_agent/agent_bridge.py:163-254 | while a refund is between its transactions, another event of the same command and index is applied if and only if its id is free, thread and cursor are the case's, and it is neither an interrupt nor a resolution without a refund |
| RefundLimits.OvertakenNeverCommits | apps/api/src/return_agent/agent_bridge.py:283-345 | once another event is processed at an executed refund's index, the refund never commits, whatever follows, although its executor record stays |
| RefundLimits.TwoRefundsAtOneIndex | apps/api/src/return_agent/agent_bridge.py:629-660 | a concrete run in which two refunds of one command and index are both executed and one completes |
| RefundLimits.PaidRefundIsOvertaken | apps/api/src/return_agent/agent_bridge.py:295-345 | a concrete run in which a node event takes a paid refund's index and the refund's rejection escalates the case |
| InOrderProjection.DeliveryAnswer | apps/api/src/return_agent/agent_bridge.py:163-254 | for a command's own events the cursor alone decides: earlier ones are duplicates, later ones deferred, the next one applied |
| InOrderProjection.ProjectionRefinesInOrder | apps/api/src/return_agent/agent_bridge.py:156-281 | under every schedule of duplicates, reorderings, crashes and redeliveries the case is the in-order result of the first k events, k being the cursor, or the EXECUTING half-step towards event k + 1 |
| InOrderProjection.AllAcknowledgedMeansAllApplied | apps/api/src/return_agent/agent_bridge.py:822-878 | once all events of a command are acknowledged the case is the in-order result of all of them |
| InOrderProjection.OtherWorkIsInvisible | apps/api/src/return_agent/agent_bridge.py:156-443 | the command's deliveries in any order and number, together with deliveries for other cases and commands, rejections that name neither, new cases, and entry points for other cases or for this one while it does not await them, form such a schedule, so the case is still the in-order result |
| InOrderProjection.InapplicableExactlyWhenRefused | apps/api/src/return_agent/agent_bridge.py:848-870 | a delivery is rejected if and only if it is the next event and the in-order specification refuses it |
| InOrderProjection.NextDeliveryAdvances | apps/api/src/return_agent/agent_bridge.py:190-254 | unless it is refused, delivering the next event advances the cursor, so deferred events do not stay stuck |
| CaseStory.WholeCaseIsInOrder | apps/api/src/return_agent/agent_bridge.py:156-281 | over all commands of a case and the resumptions between them, with duplicates, reorderings, crashes, late redeliveries of earlier commands and other work, the case is the in-order result of the first k events of the current command, or its half-step, on top of the in-order result of every command and resumption before; earlier commands are recorded as a whole |
| CaseStory.ResumedAfterAll | apps/api/src/return_agent/app.py:428-499 | an entry point that resumes a case finds its command applied as a whole: every event recorded, and the case their in-order result |
| Journal.FinishedIsAbsorbing | apps/agent_service/src/return_agent_service/journal.py:110-186 | a COMPLETED or FAILED command keeps its row through every later sequence of operations |
| Journal.FinishesAtMostOnce | apps/agent_service/src/return_agent_service/journal.py:110-186 | over all owners a command finishes successfully at most once, exactly if it ends up finished |
| Journal.LeaseIsExclusive | apps/agent_service/src/return_agent_service/journal.py:156-186 | while one owner holds a command, the others' finishes fail and their abandons have no effect |
| Journal.ClaimSucceedsExactly | apps/agent_service/src/return_agent_service/journal.py:110-154 | a claim succeeds if and only if the command is new or runs on an expired lease, and the claimant then holds it |
| Journal.AnswersAgreeExactly | apps/agent_service/src/return_agent_service/journal.py:29-61 | one owner's operations are answered alike by both journals if and only if they meet no expired lease |
| Journal.RefinesInMemory | apps/agent_service/src/return_agent_service/journal.py:29-186 | for one owner the durable journal answers an operation sequence as the in-memory one if and only if no claim in it meets an expired lease |
| AgentWorker.AcknowledgesLast | apps/agent_service/src/return_agent_service/worker.py:96-218 | a command message is acknowledged only once it is dead-lettered as unreadable or its journal row is terminal, and a terminal row has its terminal event in the stream |
| AgentWorker.DigitsDiffer | apps/agent_service/src/return_agent_service/worker.py:254-255 | different numbers are written with different digits |
| AgentWorker.EventIdsDiffer | apps/agent_service/src/return_agent_service/worker.py:254-255 | one command's events have different ids at different indices |
| AgentWorker.AttemptFormsPlan | apps/agent_service/src/return_agent_service/worker.py:141-218 | a published terminal event with index n comes with exactly the events 1..n of its attempt, distinct ids, terminal one last and only observations before it: what the projector needs to resolve every deferral |
| WorkerDelivery.FaultFreeDeliveryFinishes | apps/agent_service/src/return_agent_service/worker.py:96-218 | from any state in which a worker can claim a command, a delivery without faults publishes exactly the observations and the outcome, numbered 1 to n + 1, finishes the row as FAILED or COMPLETED by the outcome, and acknowledges |
| Services.AttemptIsProjectedInOrder | apps/agent_service/src/return_agent_service/worker.py:141-218 | from end to end: the events that a finished attempt of any worker run left in the stream are a plan, and under every schedule of their deliveries the case is their in-order result |
| Services.RetryIsDuplicateExactly | apps/agent_service/src/return_agent_service/worker.py:254-255 | of two entries that any worker run published for one command and index, once the first is processed the second is a duplicate if and only if it is the same event, time included, and inapplicable otherwise |
| Services.RetryFailsClosed | apps/api/src/return_agent/agent_bridge.py:347-443 | the first rejection of such a retry with other content leaves its case terminal for good |
| Services.CrashedAttemptIsRetried | apps/agent_service/src/return_agent_service/worker.py:96-139 | a worker that crashes after an observation and claims the command again after its lease publishes the same id and index with its own time |
| Services.RetryAfterCrashEscalatesExactly | apps/api/src/return_agent/agent_bridge.py:822-878 | consuming the two entries of that run leaves the case ESCALATED if and only if the two times differ, and OBSERVING otherwise |
| MemoryReplay.SavedIsFinal | apps/agent_service/src/return_agent_service/memory_replay.py:151-176 | saved fields never change and every saver reads back the first one written |
| MemoryWorker.JobsRecoverConsistently | apps/agent_service/src/return_agent_service/memory_worker.py:132-233 | over all crashes, expired leases and redeliveries all events of a job are the same event, every submitted candidate is that of the durable row, and a completed event carries that result with a reference obtained by submitting it |
| MemoryWorker.SubmitsOnlySavedResults | apps/agent_service/src/return_agent_service/memory_worker.py:132-186 | when a candidate is submitted, the result row that holds it is already stored |
| MemoryWorker.AcknowledgesLast | apps/agent_service/src/return_agent_service/memory_worker.py:85-130 | a job message is acknowledged only once it is dead-lettered as unreadable or its job is finished with its event published |
| MemoryWorker.FaultFreeAttemptSettles | apps/agent_service/src/return_agent_service/memory_worker.py:132-233 | from any reachable state one undisturbed delivery finishes the job and acknowledges it if and only if the row that earlier attempts left has the same input, and the same prompt and model unless a result or an event is already written |
| MemoryWorker.VersionChangeStrandsJob | apps/agent_service/src/return_agent_service/memory_replay.py:122-149 | a concrete run in which a job loaded under one prompt version is not acknowledged by a delivery under another, and is by one under the same |
| MemoryDelivery.DeliveryIsExact | apps/agent_service/src/return_agent_service/memory_worker.py:132-233 | a delivery without faults publishes the stored event, or the event of the stored result, or of what the model gives, which it stores first; row, reference, submission, journal and acknowledgement are exactly those |
| Completion.MemoryCompletionStore.NextJob | apps/agent_service/src/return_agent_service/memory_completion.py:50-55 | returns the job of the first ready row in reference order, none exactly when no row is ready |
| Completion.RecordKeepsRows | apps/agent_service/src/return_agent_service/memory_completion.py:34-48 | an accepted half is stored up to its time of issue, a refused one changes nothing, no other row is touched and halves are write-once |
| Completion.JoinDependsOnDeliveries | apps/agent_service/src/return_agent_service/memory_completion.py:23-60 | for every interleaving and repetition of matching deliveries the row is a function of which halves were delivered and whether it was marked since |
| Completion.SchedulesConverge | apps/agent_service/src/return_agent_service/memory_completion.py:23-48 | two schedules of the same two halves end in the same row up to the time of issue |
| Completion.OfferedExactlyWhenJoined | apps/agent_service/src/return_agent_service/memory_completion.py:50-55 | a row is offered if and only if both halves were delivered and it was not marked since |
| MemoryEnqueue.NoJobBeforePayment | apps/agent_service/src/return_agent_service/memory_enqueue_worker.py:78-141 | no v2 full-refund job is published unless a payment message among those delivered holds an APPLIED fact of the same case, resolution and hash with a matching authorization |
| MemoryEnqueue.OneJobPerResolution | apps/agent_service/src/return_agent_service/memory_enqueue_worker.py:85-89 | however often and by whomever such a job is published, it is the identical job |
| MemoryEnqueue.JoinedRowIsSentOrOffered | apps/agent_service/src/return_agent_service/memory_enqueue_worker.py:85-89 | a joined row whose job is not in the stream is still offered, so no crash loses it |
| MemoryEnqueue.AcknowledgedMeansDurable | apps/agent_service/src/return_agent_service/memory_enqueue_worker.py:78-141 | payment facts are acknowledged only when stored, agent events only when they need no job or their job is stored or sent |
| EnqueueRounds.AcknowledgedHasJob | apps/agent_service/src/return_agent_service/memory_enqueue_worker.py:78-141 | an acknowledged resolution that was always handled with its own input has its job stored in its join or sent |
| EnqueueRounds.SkippedForCause | apps/agent_service/src/return_agent_service/memory_enqueue_worker.py:111-141 | an event is skipped only by a pass whose checkpoint had no input, or one of another case, resolution or thread |
| Outbox.OutboxTable.SelectNext | apps/api/src/return_agent/agent_bridge.py:942-956 | an oldest unlocked claimable row, none exactly when there is none |
| Outbox.PublishedWasAppended | apps/api/src/return_agent/agent_bridge.py:797-820 | in every run a published row's payload is in the stream, and the stream holds only payloads of rows |
| Outbox.PublishedOnce | apps/api/src/return_agent/agent_bridge.py:965-1001 | a published row never changes again |
| Outbox.StaleLeaseIsFenced | apps/api/src/return_agent/agent_bridge.py:965-1001 | while a dispatcher's lease is current no step of another one changes the row, except a claim after its expiry, even under the same owner name |
| Outbox.HolderPublishes | apps/api/src/return_agent/agent_bridge.py:965-980 | the current holder's success record does publish its row |
| Outbox.UnpublishedBecomesClaimable | apps/api/src/return_agent/agent_bridge.py:942-961 | an unpublished row is claimable if and only if it has no lease or its lease has ended, and a lease was set by some claim of this row |
| Outbox.EveryRowCanBePublished | apps/api/src/return_agent/agent_bridge.py:937-980 | from every reachable state whose leases have run out, the rounds of one dispatcher alone publish every remaining row at that time, each once and oldest first, and append exactly their payloads in that order |
| Reclaim.CursorAdvances | apps/api/src/return_agent/agent_bridge.py:1044-1053 | the cursor wraps exactly on an empty answer with 0-0, otherwise moves strictly forward, past the claimed entry and past no other eligible one |
| Reclaim.SweepGivesOnce | apps/api/src/return_agent/agent_bridge.py:1035-1054 | a sweep from 0-0 to the next wrap gives every entry that stays eligible exactly once |
| Reclaim.NoEntryStarves | apps/api/src/return_agent/agent_bridge.py:1035-1054 | from any cursor an eligible entry is given after at most as many other answers as there are pending entries |
| Reclaim.ReclaimsKeepPace | apps/api/src/return_agent/agent_bridge.py:1015-1033 | n reads attempt at least n divided by event_reclaim_every reclaims, whatever fails |
| Reclaim.ReclaimInEveryWindow | apps/api/src/return_agent/agent_bridge.py:1016-1021 | every window of event_reclaim_every consecutive reads attempts a reclaim |
| Reclaim.GivenWithinReads | apps/api/src/return_agent/agent_bridge.py:1015-1054 | an entry that stays eligible is given within (pending entries + 1) times event_reclaim_every reads |
| Registry.ValidateClaimRegistry | apps/contracts/src/return_agent_contracts/registry.py:152-174 | accepts exactly the complete tables whose entries name themselves, accept evidence if users may give it, and distinguish symmetrically |
| Registry.ShippedTablesAreValid | apps/contracts/src/return_agent_contracts/registry.py:45-149 | both versions of the shipped table pass that check |
| Policy.ValidateBundle | apps/contracts/src/return_agent_contracts/models.py:163-180 | accepts exactly the well-formed bundles: no v2 parts in v1, four paths bound to agreeing clauses in v2 |
| Policy.SelectedPathFixesClaims | apps/contracts/src/return_agent_contracts/models.py:163-180 | in an accepted v2 bundle the active clauses exist and require exactly the fixed claims and return policy of the selected path |
| Policy.FindItemIsTheItem | apps/contracts/src/return_agent_contracts/models.py:105-112 | with unique ids a lookup by id finds the one line item that has it |
| Evidence.ExpectedClaimPairs | apps/contracts/src/return_agent_contracts/validation.py:168-186 | the loops collect exactly the claims of the active clauses, once for the order or once for each item |
| Evidence.ExpectedEvidenceStatus | apps/contracts/src/return_agent_contracts/validation.py:215-257 | raises exactly if a required pair has no finding, otherwise gives the three-valued decision |
| Evidence.SupportedItemIds | apps/contracts/src/return_agent_contracts/validation.py:360-383 | raises in the same cases, otherwise gives exactly the items all of whose required claims are supported |
| Evidence.ValidateEvidenceRequest | apps/contracts/src/return_agent_contracts/validation.py:260-296 | accepts exactly the requests for all unresolved user pairs with the union of their evidence types; its branch for system-only claims is never taken |
| Evidence.FindingsAnswer | apps/contracts/src/return_agent_contracts/validation.py:195-212 | accepted findings contain exactly the finding that the evaluators look up for every required claim of every item |
| Evidence.ApprovalMeansSupportedItem | apps/contracts/src/return_agent_contracts/validation.py:215-257 | on accepted findings the evaluation does not raise, and approval is sufficient if and only if some item is supported |
| Evidence.ApprovalNeedsClaim | apps/contracts/src/return_agent_contracts/validation.py:215-257 | but for a cooling-off request, sufficient approval rests on a required claim that was found supported |
| Evidence.SelectedPathFixesReturn | apps/contracts/src/return_agent_contracts/validation.py:343-357 | in an accepted v2 bundle the clauses never disagree on the return, whose policy is the selected path's |
| Evidence.DraftNeedsItsStatus | apps/contracts/src/return_agent_contracts/validation.py:386-433 | an accepted refund draft comes with an approving assessment, an accepted decline draft with a declining one |
| Evidence.NoFindingsAdmitBothActions | apps/contracts/src/return_agent_contracts/validation.py:386-433 | no findings admit both a refund and a decline |
| Evidence.InsufficientMeansUnsupported | apps/contracts/src/return_agent_contracts/validation.py:215-257 | insufficient evidence has a required pair that is unsupported |
| Evidence.RequestExistsExactly | apps/contracts/src/return_agent_contracts/validation.py:260-296 | a valid evidence request exists if and only if some unsupported pair accepts user evidence |
| Evidence.AssessmentExistsExactly | apps/contracts/src/return_agent_contracts/validation.py:299-324 | accepted findings have an accepted assessment if and only if they decide or leave a claim to ask the user for |
| Evidence.DraftExistsExactly | apps/contracts/src/return_agent_contracts/validation.py:386-433 | with an accepted assessment some refund draft is accepted if and only if it approves, some decline draft if and only if it declines, given that the active clauses allow the action and agree on the return |
| Evidence.InsufficientIsActionable | apps/contracts/src/return_agent_contracts/validation.py:299-324 | if every required claim accepts user evidence, insufficient findings have a valid request and with it an accepted assessment |
| Evidence.SystemFactsCanStrand | apps/contracts/src/return_agent_contracts/validation.py:260-296 | concrete accepted findings for which no assessment is valid |
| PolicyEvaluation.CountClaims | apps/contracts/src/return_agent_contracts/policy_v2.py:290-301 | raises exactly on a finding that contradicts trusted facts or lacks cited evidence, otherwise collects the counted statuses |
| PolicyEvaluation.EvaluatePath | apps/contracts/src/return_agent_contracts/policy_v2.py:278-307 | the inner loop's outcome for one item and path, which OutcomesAreExact states on the facts and the claims |
| PolicyEvaluation.EvaluatePolicy | apps/contracts/src/return_agent_contracts/policy_v2.py:266-307 | the evaluation of all items and paths, or an error for refused inputs, untrusted findings and a record with no outcome or with two for one item and path |
| PolicyEvaluation.RecordedExactly | apps/contracts/src/return_agent_contracts/policy_v2.py:219-241 | an evaluation is returned if and only if the inputs are accepted, no finding is untrusted, and the bundle's paths are some and distinct, as a retrieved bundle's always are |
| PolicyEvaluation.ReturnedExactly | apps/contracts/src/return_agent_contracts/policy_v2.py:266-310 | on retrieved rules evaluate_policy returns if and only if case and rules are v2, the order is the case's, its items are claimed once each, no claim is answered twice and, wherever claims count, each finding agrees with the order on non-delivery and is otherwise unsupported or decided by evidence of the case |
| PolicyEvaluation.FactsDecideExactly | apps/contracts/src/return_agent_contracts/policy_v2.py:244-288 | claims are looked at if and only if the trusted facts qualify the item and the request is in time, and the deadline is the only failure if and only if they qualify it and it is late; stated on the order's facts, not on the predicate list |
| PolicyEvaluation.OutcomesAreExact | apps/contracts/src/return_agent_contracts/policy_v2.py:278-307 | every outcome of an evaluation, with its reasons: INELIGIBLE exactly for a late cooling-off of a qualifying item or a contradicted claim in time, NEEDS_INFORMATION exactly for an unsupported one, ELIGIBLE exactly when all count as supported, a specialist in all other cases, with every predicate that did not pass |
| PolicyEvaluation.EveryPathIsDecided | apps/contracts/src/return_agent_contracts/policy_v2.py:278-307 | every claimed item has its outcome on every path of the bundle |
| PolicyEvaluation.EvaluationComesFromPaths | apps/contracts/src/return_agent_contracts/policy_v2.py:278-307 | every outcome belongs to a claimed item and a path of the bundle |
| PolicyEvaluation.EligibleExactly | apps/contracts/src/return_agent_contracts/policy_v2.py:280-307 | ELIGIBLE if and only if every predicate passed, the path was effective and every claim counts as supported |
| PolicyEvaluation.SeveralItemsNeedSpecialist | apps/contracts/src/return_agent_contracts/policy_v2.py:254-288 | a claim of more than one item is never decided: every outcome asks for a specialist |
| PolicyEvaluation.EvaluatorsAgree | apps/contracts/src/return_agent_contracts/policy_v2.py:266-307 | on one item, an accepted v2 bundle and accepted findings, with predicates passed and the path effective, the selected path is ELIGIBLE, INELIGIBLE or NEEDS_INFORMATION exactly when the evidence rule says approval, decline or insufficient |
| Money.OneOriginalItem | apps/contracts/src/return_agent_contracts/validation.py:492-503 | an accepted v2 refund handoff has exactly one original item and refunds it |
| Money.RefundPaysOneItem | apps/contracts/src/return_agent_contracts/validation.py:485-588 | an accepted v2 refund whose evaluation was made on the same order pays one claimed item exactly its positive amount within the order's maximum |
| Money.EligibleRefundIsAccepted | apps/contracts/src/return_agent_contracts/validation.py:485-588 | from evaluation to refund: the handoff that refunds the one evaluated item on the selected path is accepted if and only if that path is ELIGIBLE, its clauses allow a refund and the evidence it needs is there, under different ids |
| Money.ContradictedDeclineIsAccepted | apps/contracts/src/return_agent_contracts/validation.py:485-588 | under the same premises the handoff that declines is accepted if and only if no path is eligible, the item qualifies for the selected path in time and a claim of it is contradicted, the clauses allow a decline and the evidence it needs is there, under different ids |
| Money.DeclineIsContradicted | apps/contracts/src/return_agent_contracts/validation.py:521-522 | an accepted v2 decline whose evaluation was made on the order has a contradicted claim of the selected path for an item that qualified in time, and no eligible path |
| Money.ConsentBinds | apps/contracts/src/return_agent_contracts/validation.py:504-518 | behind an accepted v2 handoff, a first selection has no confirmation, any other an accepted one of its own case, path, version and rules for exactly the item evaluated and refunded |
| Money.EvaluationFixesHandoff | apps/contracts/src/return_agent_contracts/validation.py:485-588 | two v2 handoffs with one evaluation that are accepted for one order and its rules are the same decision on the same item for the same amount with the same consent, evidence and findings; they differ at most in what they cite and, on a damaged item, in the judgment on the return |
| Money.ReturnFollowsPath | apps/contracts/src/return_agent_contracts/validation.py:538-563 | an accepted v2 refund is judged by the model for damage, waives the return of an undelivered item and requires it otherwise |
| Money.WaiverHasBasis | apps/contracts/src/return_agent_contracts/validation.py:546-553 | an accepted v2 refund that waives the return by judgment names facts or evidence about the refunded item |
| Money.WaiverIsAcceptedExactly | apps/contracts/src/return_agent_contracts/validation.py:541-553 | an accepted refund of a damaged item may be made one without return if and only if reasons are named and each is a fact of the order or a piece of evidence about the refunded item |
| Money.ApprovalPaysTheSame | apps/contracts/src/return_agent_contracts/validation.py:623-674 | a human approval of an accepted handoff within the claimed items always validates and pays the same amount |
| Money.RefundEditExactly | apps/contracts/src/return_agent_contracts/validation.py:623-657 | a human may decide a v2 refund if and only if nothing changed, the clauses allow it, the items are claimed and on the order, their sum is within its maximum, the return is as the selected path says and the evidence it needs is there; the sum is paid |
| Money.RejectionPaysNothing | apps/contracts/src/return_agent_contracts/validation.py:623-674 | a human rejection pays nothing and validates exactly if nothing changed and the active clauses admit a decline |
| Money.EditStaysInBounds | apps/contracts/src/return_agent_contracts/validation.py:623-657 | whatever a human decides, the amount covers only claimed items of the order and stays within its maximum |
| LearningTrace.ValidateDialogue | apps/contracts/src/return_agent_contracts/models.py:827-855 | the single pass accepts exactly the dialogues with unique turns, agent turns citing their own event, user turns after the request they cite, and fitting replies |
| LearningTrace.ReplyFollowsItsRequest | apps/contracts/src/return_agent_contracts/models.py:827-855 | in an accepted dialogue a completed input step's reply answers a request of that step which an agent turn asked before |
| Migration.ValidateLegacyRows | apps/api/alembic/versions/0007_refund_item_reservations.py:70-126 | accepts exactly sound executions without overlapping items whose succeeded items are the ledger |
| Migration.InsertHasDistinctKeys | apps/api/alembic/versions/0007_refund_item_reservations.py:42-63 | after an accepted preflight the inserted rows have pairwise distinct order and item |
| Migration.InsertIsExact | apps/api/alembic/versions/0007_refund_item_reservations.py:42-63 | a row is inserted if and only if it reserves an item of an execution in progress or succeeded for that execution |
| Activity.NumbersAreContiguous | apps/api/src/return_agent/activities.py:71-88 | under any interleaving of appends a case's numbers are 1..n in append order |
| Activity.AppendIsIdempotent | apps/api/src/return_agent/activities.py:39-44 | appending a stored emission again at any later time changes nothing and answers the same event, other content under its id is refused |
| Activity.OneNarrationPerSummary | apps/api/src/return_agent/activities.py:45-105 | two stored narrations of one summary are the same record |
| Activity.SecondNarrationAnswersFirst | apps/api/src/return_agent/activities.py:45-70 | a later narration of the same summary, whatever its id and text, is answered with the first one's event and stored nowhere |
| Activity.WalkDeliversLogOnce | apps/api/src/return_agent/activities.py:108-168 | page after page from cursor 0, with any limits and while others append, delivers the log once and in order, with has_more exactly while events remain |
| Activity.PagesMakeProgress | apps/api/src/return_agent/activities.py:108-123 | a positive limit moves the cursor as long as events remain |
| PublicProjection.ProjectionIsClean | apps/api/src/return_agent/auth.py:59-80 | what is shown holds no hidden field, risk reason, human note or risky narration at any depth |
| PublicProjection.FixedExactlyWhenClean | apps/api/src/return_agent/auth.py:59-80 | a value is left as it is if and only if it is clean |
| PublicProjection.ObjectIsShownAs | apps/api/src/return_agent/auth.py:59-80 | of an object every field that is not left out is shown, in order, blanked, without risk codes, neutralised or projected, and nothing else; it raises exactly when a narration's text or some field does |
| PublicProjection.ProjectionIsIdempotent | apps/api/src/return_agent/auth.py:59-80 | projecting twice is projecting once, on every JSON value |
| Sse.SplitInParts | apps/api/src/return_agent/auth.py:137-140 | splitting what has arrived and later its rest gives the same frames and tail as splitting all at once |
| Sse.TailHasNoBreak | apps/api/src/return_agent/auth.py:139-140 | what is held back never contains a complete frame |
| Sse.ChunkingIsInvisible | apps/api/src/return_agent/auth.py:129-163 | however a body is cut into chunks, the response raises or sends the same bytes: the rendered complete frames and the tail, the projected JSON, or the body itself |
| Sse.StreamIsClean | apps/api/src/return_agent/auth.py:136-161 | however it is chunked, an event stream is sent as its complete frames line by line, other lines as they are and each data line as the encoding of a clean value, the projection of what it carried, then the tail; it raises exactly when some data line of a complete frame cannot be parsed or projected |
| Sse.JsonIsClean | apps/api/src/return_agent/auth.py:154-158 | a JSON body is sent as the encoding of a clean value, the projection of what the whole body parses to, or raises exactly when there is none |
| Sse.FailureSendsEarlierMessages | apps/api/src/return_agent/auth.py:129-163 | an event stream that raises has sent exactly the rendering of the frames complete before the message with the bad frame, and nothing of that message |
| Sse.LastFailsAlike | apps/api/src/return_agent/auth.py:136-149 | whether the last message raises does not depend on its being the last |
| Sse.PlainFrameIsUnchanged | apps/api/src/return_agent/auth.py:142-148 | a frame without data lines is sent unchanged |
| Sse.JsonRewriteIsIdempotent | apps/api/src/return_agent/auth.py:154-158 | if the codec reads back the projected value it wrote for a JSON body, rewriting that body twice is rewriting it once |
| CaseEffects.GateExactly | apps/api/src/return_agent/agent_bridge.py:163-200 | which answer the projector gives: a duplicate is the recorded event itself, a gap defers, only the next event of a live command of the case is applied, and nothing else changes the database |
| CaseEffects.NodeIsLogged | apps/api/src/return_agent/agent_bridge.py:516-560 | an observation is never refused and leaves exactly its entry, with a memory retrieval a second one |
| CaseEffects.InterruptRefused | apps/api/src/return_agent/agent_bridge.py:562-627 | an interrupt is refused unless the case observes, the request renders and a consent request is the case's own, in a v2 case, and unchanged |
| CaseEffects.InterruptAwaits | apps/api/src/return_agent/agent_bridge.py:562-627 | otherwise the case awaits what the interrupt asks for, with its two entries, and a new consent request is stored open |
| CaseEffects.EscalationCloses | apps/api/src/return_agent/agent_bridge.py:460-479 | ESCALATED is refused exactly on a closed case and otherwise escalates it, with its state change and done entry |
| CaseEffects.FailureCloses | apps/api/src/return_agent/agent_bridge.py:480-513 | so does RUN_FAILED, with its error first |
| CaseEffects.DecisionResolves | apps/api/src/return_agent/agent_bridge.py:662-689 | a resolution without a refund to execute is refused unless the case can execute, and otherwise resolves it at once with its three entries |
| CaseEffects.RefundBegins | apps/api/src/return_agent/agent_bridge.py:642-660 | a v1 refund is refused unless the case observes or executes; it enters EXECUTING once and records nothing yet |
| CaseEffects.AuthorizationHandsOver | apps/api/src/return_agent/agent_bridge.py:637-641 | a v2 refund is handed to fulfilment exactly when its registration is accepted |
| CaseEffects.RefundEnds | apps/api/src/return_agent/agent_bridge.py:283-345 | the second transaction: the executor's record decides status, error entry and reference, and whether it is legal |
| CaseEffects.RejectionIsNoted | apps/api/src/return_agent/agent_bridge.py:360-383 | a message is rejected once, and without a known case only remembered |
| CaseEffects.RejectionCloses | apps/api/src/return_agent/agent_bridge.py:384-443 | the first rejection that names a known case escalates an open case with its error and ends the command's projection, unless that is another case's or ended before |
| CaseEffects.CreateOpens | apps/api/src/return_agent/app.py:376-415 | a case is opened with its first turn and its START command, or not at all |
| CaseEffects.MessageResumes | apps/api/src/return_agent/app.py:428-499 | a message is accepted exactly when the case awaits clarification, or evidence and something is attached; it leaves its turn, the return to OBSERVING and the RESUME command |
| CaseEffects.ReviewResumes | apps/api/src/return_agent/app.py:501-558 | a review is accepted exactly when it was stored and the case awaits it |
| CaseEffects.ConsentAnswers | apps/api/src/return_agent/policy_routes.py:27-57 | a consent is answered by what is stored, if anything is, and otherwise stored exactly when the case awaits this very request |
| WorkerDelivery.FinishedIsAcknowledged | apps/agent_service/src/return_agent_service/worker.py:108-111 | a delivery of a finished command is acknowledged and neither runs nor publishes anything |
| WorkerDelivery.GarbageIsDeadLettered | apps/agent_service/src/return_agent_service/worker.py:122-139 | an unreadable message is dead-lettered and acknowledged |
| WorkerDelivery.FailedAttemptIsAbandoned | apps/agent_service/src/return_agent_service/worker.py:115-120 | an attempt that could not publish is given up: its row is gone, its message stays |
| MemoryDelivery.FinishedIsAcknowledged | apps/agent_service/src/return_agent_service/memory_worker.py:96-99 | a finished job is acknowledged and nothing else happens |
| MemoryDelivery.GarbageIsDeadLettered | apps/agent_service/src/return_agent_service/memory_worker.py:114-130 | an unreadable message is dead-lettered and acknowledged |
| MemoryDelivery.TransportFailureIsRetried | apps/agent_service/src/return_agent_service/memory_worker.py:160-164 | a transport failure of the submission gives the job up with its result stored |
| MemoryDelivery.RefusalFailsJob | apps/agent_service/src/return_agent_service/memory_worker.py:165-167 | a refused submission makes the job fail, with its event |
| EnqueueRounds.UselessEventIsAcknowledged | apps/agent_service/src/return_agent_service/memory_enqueue_worker.py:98-141 | an event that is no resolution or has no input of its own is acknowledged and leaves no job |
| EnqueueRounds.PlainJobIsPublished | apps/agent_service/src/return_agent_service/memory_enqueue_worker.py:128-141 | the job of a resolution without a v2 refund is published at once, with the event's references |
| EnqueueRounds.RefundJobIsStored | apps/agent_service/src/return_agent_service/memory_enqueue_worker.py:120-127 | the job of a v2 refund is stored in its join before the event is acknowledged, and a refused half leaves the event alone |
| EnqueueRounds.RefundWaitsForStore | apps/agent_service/src/return_agent_service/memory_enqueue_worker.py:120-122 | without a completion store the event of a v2 refund stays as it is |
| EnqueueRounds.PaymentIsBooked | apps/agent_service/src/return_agent_service/memory_enqueue_worker.py:79-84 | a payment fact is booked before it is acknowledged, and a refused or unreadable one left alone |
| EnqueueRounds.JoinedJobIsPublished | apps/agent_service/src/return_agent_service/memory_enqueue_worker.py:85-89 | the job of an offered row is published and then marked |
| EnqueueRounds.EventIsReadLast | apps/agent_service/src/return_agent_service/memory_enqueue_worker.py:79-96 | an agent event is read at the start of a pass without a completion store, and otherwise only when no joined job was found |
| Completion.RecordAcceptsExactly | apps/agent_service/src/return_agent_service/memory_completion.py:23-48 | a half is accepted exactly when its authorization names the resolution, the row is of its case and hash, and the half is new or the same; it is then stored unless one was |
| Journal.FinishSucceedsExactly | apps/agent_service/src/return_agent_service/journal.py:174-186 | a finish succeeds exactly for the holder of a running command, whose row then has the state and no lease |
| Journal.AbandonFrees | apps/agent_service/src/return_agent_service/journal.py:162-172 | what its holder abandons anybody can claim at once; nobody else's abandon has an effect |
| Outbox.ClaimLeases | apps/api/src/return_agent/agent_bridge.py:937-963 | a claim leases the selected row alone until the end of its lease, with a token that no row and no other dispatcher has |
| Outbox.HolderReleases | apps/api/src/return_agent/agent_bridge.py:982-1001 | the holder's failure record makes the row claimable again at once, one attempt older |
| Outbox.AppendSends | apps/api/src/return_agent/agent_bridge.py:797-820 | what is sent is the row's payload, and a failed call leads to a failure record |
| Outbox.EnqueuedIsClaimable | apps/api/src/return_agent/agent_bridge.py:942-956 | a new command is unpublished and claimable at once |
| Reclaim.ReadGives | apps/api/src/return_agent/agent_bridge.py:1015-1033 | a read gives what a due reclaim claims, else a new entry, else what the fallback reclaim claims |
| Reclaim.CursorTakesAnswer | apps/api/src/return_agent/agent_bridge.py:1044-1053 | the cursor is the answer's next id, or the id right after the claimed entry if that is not beyond it |
| Activity.AppendStoresExactly | apps/api/src/return_agent/activities.py:30-106 | which emissions are stored, with the case's next number, and what becomes of the narration outbox |
| PolicyEvaluation.UnknownExactly | apps/contracts/src/return_agent_contracts/policy_v2.py:244-263 | a predicate is UNKNOWN exactly when the order does not tell what it asks, and names as its source what the order gives for it |
| Policy.BundleIsExact | apps/contracts/src/return_agent_contracts/models.py:126-180 | which bundles are accepted: every clause can be applied at some time, the first version knows no paths, retrieved rules of the second have each path once, backed by just the clauses it cites |
| Evidence.RequestIsExact | apps/contracts/src/return_agent_contracts/validation.py:260-296 | which evidence requests are accepted: each thing the user can prove is asked once, nothing else is, and just what proves any of them is accepted |
| Evidence.DraftIsExact | apps/contracts/src/return_agent_contracts/validation.py:386-433 | which drafts a v2 bundle accepts: supported items, each once, with the return of the selected path, or a declining assessment; the action allowed, only clauses of the bundle cited |
| Evidence.ReturnPolicyExactly | apps/contracts/src/return_agent_contracts/validation.py:343-357 | clauses that require and that waive the return exclude each other, and one that leaves it open yields to both |
| Money.BindingsAreExact | apps/contracts/src/return_agent_contracts/validation.py:485-588 | an accepted handoff changed in one part is accepted only with the snapshot, currency, version and generation of the order and the rules, without parts of the other generation, and with a rationale free of amounts |
| Money.EvaluationIsBound | apps/contracts/src/return_agent_contracts/models.py:430-433 | the evaluation behind an accepted v2 handoff can only be of its case, the order's snapshot, the version of the rules and the registry of the handoff |
| Money.CitationsAreExact | apps/contracts/src/return_agent_contracts/models.py:436-445 | a handoff may cite any clauses of the bundle that include those its decision names, and a decision some of them and only evidence that is there |
| Money.TotalAdds | apps/contracts/src/return_agent_contracts/validation.py:565-576 | the amount of a scope is the sum of its items' amounts |
| LearningTrace.RepliesAreExact | apps/contracts/src/return_agent_contracts/models.py:846-855 | the first step has one user turn, which answers nothing, an input step one that answers a request of the step and is a clarification's one response, unless the dialogue is missing |
| Migration.RequestIsExact | apps/api/alembic/versions/0007_refund_item_reservations.py:87-108 | which stored requests are sound: the hashed payload of this handoff and case, an unblocked full refund on a named order, of some items, each named once |
| PublicProjection.ListIsShownAs | apps/api/src/return_agent/auth.py:59-63 | a list is shown item by item, and anything but a list or object as it is |
| Sse.LinesAreLines | apps/api/src/return_agent/auth.py:143-148 | the lines of a frame have no line feed |
| Sse.FramesAreFrames | apps/api/src/return_agent/auth.py:137-139 | frames and tail are the body, cut at each empty line from the left |
| Sse.FrameIsShown | apps/api/src/return_agent/auth.py:141-149 | a rendered frame has the lines of the frame in number and order, and raises exactly when a data line cannot be shown |
| CaseDatabase.CaseSession.Append | apps/api/src/return_agent/store.py:131-145 | the case log gains exactly the entry |
| CaseDatabase.CaseSession.Transition | apps/api/src/return_agent/agent_bridge.py:691-718 | a legal transition moves the status and logs it, an illegal one leaves the case alone and raises |
| CaseDatabase.CaseSession.Close | apps/api/src/return_agent/agent_bridge.py:691-738 | the case ends in the status with its done entry, or the transition was illegal |
| CaseDatabase.CaseSession.ProjectInterrupt | apps/api/src/return_agent/agent_bridge.py:562-627 | the session ends in the state the transaction function gives for an interrupt |
| CaseDatabase.CaseSession.ProjectResolution | apps/api/src/return_agent/agent_bridge.py:629-689 | the session ends in the state the transaction function gives for a resolution: refused, complete, or waiting for the executor |
| CaseDatabase.CaseSession.Apply | apps/api/src/return_agent/agent_bridge.py:445-514 | every kind of event has the effect of the transaction function, which CaseEffects states kind by kind |
| CaseDatabase.Database.RecordProcessed | apps/api/src/return_agent/agent_bridge.py:256-281 | the event is recorded and its command's cursor advanced, nothing else changes |
| CaseDatabase.Database.Project | apps/api/src/return_agent/agent_bridge.py:156-254 | duplicates, collisions, gaps, refused events, pending refunds and applied events each leave exactly the database of the transaction function |
| CaseDatabase.Database.CompleteRefund | apps/api/src/return_agent/agent_bridge.py:283-345 | the second transaction of a refund |
| CaseDatabase.Database.Reject | apps/api/src/return_agent/agent_bridge.py:347-443 | the rejection record, the closing of the named case and the termination of its cursor, with the effects of RejectionIsNoted and RejectionCloses |
| CaseDatabase.Database.CreateCase | apps/api/src/return_agent/app.py:376-415 | case, first log entry and START command are stored together or not at all |
| CaseDatabase.Database.Resume | apps/api/src/return_agent/app.py:428-499 | return to OBSERVING, its log entry and the RESUME command are stored together |
| CaseDatabase.Database.SendMessage | apps/api/src/return_agent/app.py:428-499 | a message resumes a case that awaits clarification or evidence, and only such a case |
| CaseDatabase.Database.CompleteReview | apps/api/src/return_agent/app.py:501-558 | a stored human review resumes the case once |
| CaseDatabase.Database.ConfirmPolicy | apps/api/src/return_agent/policy_routes.py:27-57 | consent is stored once and resumes the case; a replay answers the stored consent or is refused |
| Journal.PostgresCommandJournal.Claim | apps/agent_service/src/return_agent_service/journal.py:110-154 | claims a new command or an expired lease, otherwise busy or already terminal |
| Journal.PostgresCommandJournal.Finish | apps/agent_service/src/return_agent_service/journal.py:174-186 | finishes exactly the owner's running command, otherwise raises |
| Journal.PostgresCommandJournal.Abandon | apps/agent_service/src/return_agent_service/journal.py:162-172 | deletes exactly the owner's running command |
| Journal.InMemoryCommandJournal.Claim | apps/agent_service/src/return_agent_service/journal.py:36-44 | the dictionary's claim |
| Journal.InMemoryCommandJournal.Finish | apps/agent_service/src/return_agent_service/journal.py:57-61 | the dictionary's finish |
| Journal.InMemoryCommandJournal.Abandon | apps/agent_service/src/return_agent_service/journal.py:52-55 | the dictionary's abandon |
| MemoryReplay.ReplayStore.Load | apps/agent_service/src/return_agent_service/memory_replay.py:122-149 | inserts the row if absent; other input, or another prompt or model before anything was written, raises |
| MemoryReplay.ReplayStore.Save | apps/agent_service/src/return_agent_service/memory_replay.py:151-176 | writes the field if it is empty and returns the winner |
| Completion.MemoryCompletionStore.Correction | apps/agent_service/src/return_agent_service/memory_completion.py:23-26 | records the correction half |
| Completion.MemoryCompletionStore.Applied | apps/agent_service/src/return_agent_service/memory_completion.py:28-32 | records the payment half, whose authorization must name the resolution |
| Completion.MemoryCompletionStore.Record | apps/agent_service/src/return_agent_service/memory_completion.py:34-48 | inserts the row if absent and sets the half once; another case, hash or content raises and changes nothing |
| Completion.MemoryCompletionStore.Published | apps/agent_service/src/return_agent_service/memory_completion.py:57-60 | marks exactly the job's row |
| Outbox.OutboxTable.ClaimNext | apps/api/src/return_agent/agent_bridge.py:937-963 | that row is leased to the owner with the token, nothing else changes |
| Outbox.OutboxTable.RecordPublishSuccess | apps/api/src/return_agent/agent_bridge.py:965-980 | publishes the row exactly when owner and token still hold it |
| Outbox.OutboxTable.RecordPublishFailure | apps/api/src/return_agent/agent_bridge.py:982-1001 | releases the row exactly when owner and token still hold it |
| Reclaim.EventReader.ReclaimEvent | apps/api/src/return_agent/agent_bridge.py:1035-1054 | the cursor moves as the answer says |
| Reclaim.EventReader.ReadEvent | apps/api/src/return_agent/agent_bridge.py:1015-1033 | a due reclaim, then new entries, then a fallback reclaim, with the counter reset only by the due one |
| Activity.ActivityRepository.Append | apps/api/src/return_agent/activities.py:30-106 | stores, repeats or refuses an emission as the transaction function says |
| Sse.Rewriter.Render | apps/api/src/return_agent/auth.py:141-149 | the frame loop renders all complete frames in order, or raises, with the result that FrameIsShown states |
| Sse.Rewriter.Receive | apps/api/src/return_agent/auth.py:136-161 | what one body message sends and holds back |

## Left out

- v2 fulfilment: a v2 refund's case leaves the model's invariants once fulfilment takes it over; its later states are arbitrary moves along the transition table and an append-only log.
- InOrderProjection.ProjectionRefinesInOrder: the answer of the fulfilment registration is fixed for each command, because its code is not part of this model.
- CaseStory.WholeCaseIsInOrder: follows a case until a rejection names it; RefundSafety.RejectClosesExactly says what it is from then on.
- AgentWorker and MemoryWorker, MemoryEnqueue: modelled as step machines on values, because every await is a point where other processes interleave; the stores they use are classes where the code updates rows.
- Completion.MemoryCompletionStore.NextJob: orders references by code points; the order of another database collation is one more choice that the runs of MemoryEnqueue allow.
- Reclaim: a sequence number at the limit of 64 bits, where the id after a message would not exist.
- Log texts, timestamps for display, activity spans and narration texts.
- SHA-256 and UUIDs: a hash is its content, a lease token is a new number; the normalisation of legacy dialogue before hashing a memory job is part of the job's content.
- The rationale's amount pattern, PII patterns and the risky-text pattern: answers of a field or a function parameter.
- Review gates, user risk and the HumanReviewDossier trace checks other than what binds a human decision's money.
- Dossier: only the claimed items, order, rules and last proposal, which are what validate_human_decision reads.
- Migration.ValidateLegacyRows: blank means ASCII white space; a payload on which a lookup raises is one constructor.
- Login, cookies, origin and role checks, HTTP status codes, settings, the web UI and the other migrations.
- The refund-completion outbox: publishes each row at least once; the join of Completion tolerates any repetition.
- Redis, PostgreSQL and asyncio: atomic transactions, at-least-once streams and row locks only.
