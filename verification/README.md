# Verified models of the workflow engine and the protocols around it

A Dafny model of the parts of the repository in which several processes meet over shared rows: the
persisted saga workflow engine with its in-memory and SQL stores, the transactional wake-ups that
bring workers back to a workflow, the outbox and inbox leases, the dead-letter administration, the
HTTP idempotency store, and the migration runner with its dependency sort and SQL script splitter.
`dafny verify dfyconfig.toml` checks everything.

Shared rows are modelled by one function or class method per store operation (or per SQL statement
where an operation is several statements). A run is an arbitrary sequence of such steps by any
number of processes, with arbitrary clock readings, handler results and crashes; the theorems
quantify over all runs. Loops and in-place updates of the source are methods with loops and classes
with fields, each proved against a function or predicate about which the properties are then proved.

## How the files fit together

- `WorkflowTypes`, `WorkflowValidation`, `WorkflowChecks`, `WorkflowManager`, `WorkflowStore`:
  snapshots, validators and the loops that decide them, the candidates the manager builds, the store.
- `WorkflowProgress`, `WorkflowEffects`, `WorkflowFields`: when a candidate passes the validators,
  exactly; what a candidate may change; the measure every commit lowers; what each field becomes.
- `WorkflowProtocol`, `WorkflowSafety`, `WorkflowHistory`, `WorkflowTheorems`, `WorkflowSaga`,
  `WorkflowRuns`, `WorkflowRetries`: interleaved runs, their invariant, what their history keeps, the
  run theorems, and that retry times are waited for.
- `WorkflowReceipts`, `WorkflowSql`, `WorkflowRaces`: receipt checks, refinement by the SQL store, and
  two races that end in a reported conflict.
- `WorkflowWedge`, `WorkflowLiveness`, `WorkflowTermination`: where the engine gets stuck, and that it
  can always end otherwise.
- `WorkflowWakeUps`, `WorkflowWakeGuards`, `WorkflowLostWake`: wake-ups and their reconciliation,
  exactly which steps lose one, and a run that does.
- `MessageStore`, `MessageLeases`, `OutboxProcessor`, `DeadLetter`, `DeadLetterEffects`,
  `DeadLetterRuns`, `Idempotency`: the message, dead-letter and idempotency protocols.
- `TopologicalSort`, `MigrationLoading`, `MigrationHistory`: the migration runner.
- `SqlTokens`, `SqlSplitter`, `SqlSplitterLaws`, `SqlResplit`, `SqlRegions`, `SqlCharacters`: the script
  splitter, its specification on tokens, and its specification on the characters of the script.

## What the proofs found

- A workflow can get stuck for ever. If a cancellation is requested while a step is marked running
  and its worker is gone, `advance` resets only waiting steps
  (packages/workflows/src/manager.ts:137-143) while the validator admits no running step outside a
  forward state (packages/workflows/src/validation.ts:381), so every later attempt is rejected. The
  same happens when a failure without attempts left and without anything to compensate is recorded
  under a cancellation that was merged into the start boundary
  (packages/workflows/src/manager.ts:181-182, packages/workflows/src/validation.ts:352).
  `WorkflowWedge` gives both runs and shows that nothing leads out; `WorkflowTermination` shows that
  these wedged workflows are exactly the ones that cannot end any more; `WorkflowProgress` gives the
  exact guards.
- A wake-up can be lost, by exactly three kinds of step: a worker with the wake in hand is turned away
  because its clock is before the due time; or a start boundary, which keeps the lease and appends
  nothing, or a cancellation, whose own wake comes before the due time, overtakes the worker that has
  already read the row (`WorkflowWakeGuards.StepExact`, `LostWakeUpExact`). None of them happens while
  no store call uses a clock reading from before the availability of a wake that was already delivered
  (`NoLostWakeUp`). `WorkflowLostWake` gives a run that loses one, and a reconciliation repairs it,
  unless an earlier one already used the deterministic wake id of this revision and generation.
- The in-memory store lets a holder that knows of a cancellation commit `completed` or `failed`; the
  SQL store does not. This is the only difference on valid candidates of the right identity, and the
  manager never sends such a candidate (`WorkflowSql`).
- An SQL lease renewal between whose two statements a cancellation arrives is refused with a
  revision conflict, although the in-memory store would have merged it
  (`WorkflowRaces.RenewalLosesToCancellation`).
- A cancellation receipt is rejected exactly when a renewal moved the lease between the canceller's
  read and its request (`WorkflowReceipts.CancellationReceiptExact`, with the run in
  `WorkflowRaces.RenewalSpoilsCancellationReceipt`).
- The commit receipt check does not notice a store that drops a cancellation it raced with; every
  other accepted receipt is the answer of a store that held the row, or what renewals and a
  cancellation made of it (`WorkflowReceipts.CommitReceiptExplained`, with the snapshots in
  `LostCancellationPasses`).
- A dead-letter operation that crashed after changing its message can still be answered exactly while
  its marker is on a message or a caller that read the marker is about to finalize; after that it is
  never answered again (`DeadLetter.RecoveryExact`, with the runs in `DeadLetterRuns`).
- Only `excludeIds` keeps one token of an outbox run from serving a message twice
  (`MessageLeases.WithoutExcludeIds`).
- In the idempotency store the clause for a lapsed lease is redundant: while a request is being
  processed, the row expires together with its lease, so after a lapse any fingerprint may acquire.

## Model

| member | source | states |
|---|---|---|
| WorkflowValidation.CheckForwardBoundary | packages/workflows/src/validation.ts:360-367 | the three loops over one cursor accept exactly: committed steps, then the marker step (or none if optional), then pending steps |
| WorkflowValidation.CollectActive | packages/workflows/src/validation.ts:371-371 | collects exactly the indices of the active compensations, in order |
| WorkflowValidation.CheckActive | packages/workflows/src/validation.ts:370-374 | at most one active compensation, in the state that fits the workflow state, both directions |
| WorkflowValidation.CheckSettledShape | packages/workflows/src/validation.ts:379-384 | the pendingSeen loop decides: no running or waiting step, pending steps only at the end |
| WorkflowValidation.CheckReverseOrderAt | packages/workflows/src/validation.ts:386-391 | the loop around the active step decides that nothing after it is left to compensate and nothing before it is compensated |
| WorkflowValidation.CheckCompensationBoundary | packages/workflows/src/validation.ts:369-403 | the sequence of checks decides the compensation boundary, both directions |
| WorkflowValidation.CheckAtMostOneFailed | packages/workflows/src/validation.ts:375-376 | counting the failed steps decides that there is at most one |
| WorkflowValidation.CheckCompensationFailure | packages/workflows/src/validation.ts:396-402 | collecting the failed compensations decides: exactly one, nothing after it left to compensate, nothing before it compensated |
| WorkflowChecks.CheckStep | packages/workflows/src/validation.ts:316-340 | the checks with their state sets accept a step exactly when output, attempts, retry time and error fit its state |
| WorkflowChecks.CheckSteps | packages/workflows/src/validation.ts:307-312 | the loop over the steps decides: every step valid and no name twice |
| WorkflowChecks.CheckStateBoundary | packages/workflows/src/validation.ts:342-358 | the cascade of returns decides the state boundary, both directions |
| WorkflowChecks.CheckSnapshot | packages/workflows/src/validation.ts:289-314 | decides which snapshots are valid: times, lease, steps, boundary |
| WorkflowChecks.CheckIdentity | packages/workflows/src/validation.ts:159-175 | decides that header and step identities are unchanged |
| WorkflowChecks.CheckMatchesDefinition | packages/workflows/src/validation.ts:262-287 | the loops over the definition decide that a snapshot fits it; what can be compensated is read from the definition there and from the keys in the predicate |
| WorkflowManager.LastOpen | packages/workflows/src/manager.ts:191-195 | the chosen compensation is open, and no later step is |
| WorkflowManager.FindCompensation | packages/workflows/src/manager.ts:191-195 | the downward cursor loop finds exactly that step, or -1 |
| WorkflowProgress.AdvanceExact | packages/workflows/src/manager.ts:135-154 | from every sound live snapshot the first candidate passes both validators if and only if no step is running under a requested cancellation and an asked-for retry time is representable |
| WorkflowProgress.CancelExact | packages/workflows/src/manager.ts:137-143 | the cancellation candidate passes if and only if no step is running |
| WorkflowProgress.FinishForwardExact | packages/workflows/src/manager.ts:157-183 | for every handler outcome the next candidate passes if and only if it is not an exhausted failure with nothing to compensate under a merged cancellation, and a retry time is representable |
| WorkflowProgress.RetryForwardExact | packages/workflows/src/manager.ts:179-180 | a waiting candidate passes if and only if its retry time is representable |
| WorkflowProgress.ExhaustForwardExact | packages/workflows/src/manager.ts:181-182 | a final failure passes if and only if there is something to compensate or no cancellation |
| WorkflowProgress.FinishCompensationExact | packages/workflows/src/manager.ts:202-223 | the same for every outcome of a compensation handler |
| WorkflowProgress.StartedShape | packages/workflows/src/manager.ts:152-155 | a start boundary leaves exactly the step whose handler runs next in progress |
| WorkflowEffects.AdvanceEffect | packages/workflows/src/manager.ts:135-213 | every candidate keeps identity and outputs, never lowers attempts, never returns to a forward state, and lowers the termination measure |
| WorkflowEffects.FinishForwardEffect | packages/workflows/src/manager.ts:157-183 | the same for what follows a forward handler; WorkflowFields says what each field becomes |
| WorkflowEffects.FinishCompensationEffect | packages/workflows/src/manager.ts:202-223 | the same for what follows a compensation handler |
| WorkflowFields.ReturnedIsStored | packages/workflows/src/manager.ts:163-166 | after a success the step is committed with exactly the returned output, and no other step, attempt count or header field changes |
| WorkflowFields.FailureIsStored | packages/workflows/src/manager.ts:175-183 | a failure with attempts left and a scheduled time leaves the step waiting with exactly that error and time; any other is final, and the workflow compensates if and only if a committed step has a handler for it |
| WorkflowFields.AbandonedIsStored | packages/workflows/src/manager.ts:158-162 | an attempt given up for a cancellation is pending again and nothing else of it changes |
| WorkflowFields.CompensationIsStored | packages/workflows/src/manager.ts:202-223 | the same for every outcome of a compensation handler |
| WorkflowFields.HandlerDecides | packages/workflows/src/manager.ts:156-172 | which handler result gives which state: committed exactly if it returned a storable value, pending again exactly if it threw under a cancellation the heartbeat saw; a compensation is done exactly if its handler did not throw |
| WorkflowFields.CancellationStops | packages/workflows/src/manager.ts:137-143 | a requested cancellation resets exactly the waiting steps, and the workflow compensates exactly if there is something to undo |
| WorkflowFields.ForwardTakesFirst | packages/workflows/src/manager.ts:148-155 | going forward works on the first uncommitted step only: an interrupted one is recorded as a failure, any other is started with one more attempt; completed exactly when all are committed |
| WorkflowFields.UnwindingTakesLast | packages/workflows/src/manager.ts:190-201 | unwinding works on the last step there is to undo only; when none is left the workflow ends cancelled or compensated |
| WorkflowFields.LostRaceIsStored | packages/workflows/src/manager.ts:245-250 | after a race lost to a cancellation a failure is kept step by step on the authoritative row, a completion is dropped |
| WorkflowStore.InMemoryWorkflowStore.Create | packages/workflows/src/store.ts:52-65 | a start key names at most one workflow: a second create is answered with the stored snapshot if its input is equal, refused otherwise, and changes nothing |
| WorkflowStore.InMemoryWorkflowStore.Get | packages/workflows/src/store.ts:67-67 | finds exactly the stored snapshot under its own id |
| WorkflowStore.InMemoryWorkflowStore.Claim | packages/workflows/src/store.ts:84-91 | answer and new map for every argument, including expired leases and conflicts; start keys untouched |
| WorkflowStore.InMemoryWorkflowStore.RenewLease | packages/workflows/src/store.ts:93-101 | the same for renewals, with the one tolerated cancellation race |
| WorkflowStore.InMemoryWorkflowStore.Commit | packages/workflows/src/store.ts:103-118 | the same for commits, with the merged cancellation and the order of the refusals |
| WorkflowStore.InMemoryWorkflowStore.RequestCancellation | packages/workflows/src/store.ts:120-128 | the same for cancellations |
| WorkflowSafety.NextKeeps | packages/workflows/src/manager.ts:86-305 | every action of every worker keeps the global invariant: sound row, every holder's view equal to the row up to one cancellation, distinct tokens |
| WorkflowSafety.CommitRowSound | packages/workflows/src/store.ts:112-118 | the row a commit writes is sound, also after the store merged a cancellation into it |
| WorkflowSafety.PersistedSnapshotsValid | packages/workflows/src/validation.ts:342-358 | over every interleaving the persisted snapshot passes both validators, and is never completed or failed once cancellation is requested |
| WorkflowSafety.ReconcileOk | packages/workflows/src/manager.ts:242-250 | the second candidate after a lost race is sound, never completed or failed, and lowers the measure |
| WorkflowHistory.EveryAction | packages/workflows/src/store.ts:84-128 | every action is one of: no change, a claim by a fresh token, a renewal or commit by the current holder, one cancellation, one handler invocation |
| WorkflowRuns.FencingTheorem | packages/workflows/src/store.ts:84-128 | if a token still commits or renews, nobody else claimed, committed or renewed since its claim, whatever the clocks say; at most one cancellation in the whole run; the revision counts exactly the accepted changes |
| WorkflowRuns.SupersededTokenRefused | packages/workflows/src/store.ts:96-111 | in every run, once a later claim was accepted, the row is never again leased to the earlier token, and whatever it sends is refused |
| WorkflowRuns.CancellationIsFinal | packages/workflows/src/store.ts:112-118 | from any reachable cancelled row the flag never clears and the workflow never completes or fails |
| WorkflowRuns.HandlerBound | packages/workflows/src/manager.ts:148-213 | over a run by all workers the invocations of a step's handler never exceed its persisted attempts, which never exceed maxAttempts |
| WorkflowRuns.AttemptsMonotone | packages/workflows/src/validation.ts:274-278 | persisted attempts never decrease |
| WorkflowRuns.CompensationFollowsOutput | packages/workflows/src/manager.ts:190-200 | every compensation start is for a step whose output was committed before |
| WorkflowRuns.SagaOrder | packages/workflows/src/manager.ts:190-200 | compensations start in non-increasing step order, and no forward start follows a compensation start |
| WorkflowRuns.SagaAccounting | packages/workflows/src/manager.ts:190-233 | compensated and cancelled workflows have every compensatable step whose output was ever committed compensated; a failed one never committed such an output; a completed one committed every output |
| WorkflowRuns.OutputFromHandler | packages/workflows/src/manager.ts:157-166 | an output enters the history only with a handler that returned exactly that value |
| WorkflowRuns.OutputsAreReturned | packages/workflows/src/manager.ts:157-166 | over every run, every later row whose step has an output holds the value its handler returned |
| WorkflowRuns.OutputsAreNamed | packages/workflows/src/manager.ts:163-166 | in every reachable row a step holds an output exactly when the history names it with that value |
| WorkflowRuns.UpdateTimesExact | packages/workflows/src/store.ts:84-128 | every accepted claim, commit and cancellation stamps the row with the later of its update time and the clock reading; a renewal does not |
| WorkflowRuns.HeartbeatExact | packages/workflows/src/manager.ts:257-289 | over runs, after an accepted heartbeat a forward handler knows of a cancellation exactly if the row has one, a compensation handler never, and nothing else tells it |
| WorkflowRetries.RetryTimeExact | packages/workflows/src/state.ts:13-16 | a valid snapshot in a waiting state has exactly one waiting step, and the next retry time is that step's own, unless a cancellation overrides it; in any other state there is none |
| WorkflowRetries.RetryRespected | packages/workflows/src/manager.ts:102-104 | over every run, an attempt of a waiting step starts only under a claim made at or after the retry time its failure stored |
| WorkflowRetries.ClaimWaitsExactly | packages/workflows/src/manager.ts:102-104 | a worker is told to wait exactly while a stored retry time that nothing overrides lies ahead |
| WorkflowRuns.CommitsBounded | packages/workflows/src/manager.ts:124-255 | every run makes at most 4 * (sum of maxAttempts) + 2 commits, and fewer while the workflow is live |
| WorkflowWedge.WedgedForever | packages/workflows/src/manager.ts:137-143 | from a stuck row that nobody can still finish, no run changes state or steps |
| WorkflowWedge.CrashThenCancelWedges | packages/workflows/src/validation.ts:381-381 | a concrete run into that state: crash inside a handler, then cancel |
| WorkflowWedge.ExhaustedUnderCancelWedges | packages/workflows/src/manager.ts:181-182 | a second one: cancellation merged into the start boundary, then the last attempt fails |
| WorkflowLiveness.AdvanceSucceeds | packages/workflows/src/manager.ts:135-154 | a claim holder's next commit is accepted if and only if the row is not stuck |
| WorkflowLiveness.RoundProgress | packages/workflows/src/manager.ts:95-122 | one undisturbed call lowers the measure and leaves the row free and not stuck |
| WorkflowLiveness.UnstuckCanFinish | packages/workflows/src/manager.ts:124-133 | from every reachable row that is not stuck, one worker alone reaches a terminal state |
| WorkflowTermination.StuckGoesOn | packages/workflows/src/manager.ts:148-255 | a stuck row whose lease holder has not given up, in whatever phase, is got going again by that holder |
| WorkflowTermination.TerminationExact | packages/workflows/src/manager.ts:86-305 | in every reachable state with an attainable free time a terminal state is reachable if and only if the workflow is not wedged |
| WorkflowReceipts.ClaimReceiptAccepted | packages/workflows/src/validation.ts:194-199 | every accepted claim passes the receipt check of the worker and of the transactional store |
| WorkflowReceipts.RenewReceiptAccepted | packages/workflows/src/validation.ts:202-216 | every accepted renewal passes, whichever heartbeat it is and across a cancellation |
| WorkflowReceipts.CommitReceiptAccepted | packages/workflows/src/validation.ts:227-259 | every accepted commit passes both checks, also when it absorbed a cancellation |
| WorkflowReceipts.CancellationReceiptExact | packages/workflows/src/validation.ts:219-224 | a cancellation receipt passes if and only if the lease did not move since the read |
| WorkflowReceipts.ReceiptsAccepted | packages/workflows/src/validation.ts:194-259 | along every run no answer to a claim, renewal or commit is rejected by the manager |
| WorkflowRaces.RenewalSpoilsCancellationReceipt | packages/workflows/src/validation.ts:219-224 | a run in which the store accepts a cancellation and the canceller rejects its receipt |
| WorkflowRaces.RenewalLosesToCancellation | packages/workflows-drizzle/src/base.ts:135-144 | a run of statements in which a renewal is refused with a revision conflict that the in-memory store would not report |
| WorkflowReceipts.ReceiptDifference | packages/workflows/src/validation.ts:227-259 | an accepted receipt differs from the candidate only in revision, lease, cancellation flag and update time |
| WorkflowReceipts.ClaimReceiptMeans | packages/workflows/src/validation.ts:194-199 | the claim check passes exactly the answer of a store that held the row without a live lease |
| WorkflowReceipts.RenewReceiptMeans | packages/workflows/src/validation.ts:202-216 | the renewal check passes exactly the answers of a store that held the row, or the row cancelled meanwhile |
| WorkflowReceipts.CancellationReceiptMeans | packages/workflows/src/validation.ts:219-224 | the cancellation check passes exactly the answer of a store that held the row |
| WorkflowReceipts.CommitReceiptExplained | packages/workflows/src/validation.ts:227-259 | an accepted commit receipt is the answer of a store that held what renewals and a cancellation made of the row if and only if it does not lose a known cancellation |
| WorkflowReceipts.LostCancellationPasses | packages/workflows/src/validation.ts:236-241 | snapshots for which the check passes a receipt that lost the cancellation |
| WorkflowSql.UpdateIsAtomicOperation | packages/workflows-drizzle/src/base.ts:124-171 | a guarded update, even after an outdated select, matches exactly when the in-memory operation accepts (two listed exceptions) and then leaves the same snapshot |
| WorkflowSql.CallRefinesInMemory | packages/workflows-drizzle/src/base.ts:124-171 | without interleaving the answers agree with the in-memory store if and only if the commit is not one of two listed kinds |
| WorkflowSql.KnownCancellationDiffers | packages/workflows-drizzle/src/base.ts:154-154 | in the first of them the in-memory store would persist an invalid snapshot and SQL reports a revision conflict |
| WorkflowSql.ManagerRequestsAgree | packages/workflows-drizzle/src/base.ts:124-171 | along every run of the manager each request gets from SQL the in-memory answer |
| WorkflowSql.SqlStoreLinearizable | packages/workflows-drizzle/src/base.ts:124-171 | under every interleaving of statements and vanishing clients the row is the in-memory result of the accepted requests, one after the other |
| WorkflowWakeUps.EveryTransactionAppends | packages/workflows-reliability/src/index.ts:104-137 | in every run from creation, with any clocks, after every transaction on a live workflow a wake has been appended for exactly the end of its lease, else the retry time stored in its one waiting step, else the time of the change |
| WorkflowWakeUps.ScanExact | packages/workflows-reliability/src/index.ts:184-188 | a reconciliation aims at the lease end, the retry time of the waiting step or its own generation, never before that generation |
| WorkflowWakeGuards.StepExact | packages/workflows-reliability/src/index.ts:89-143 | a step leaves a live workflow without an unconsumed, not overtaken wake at its lease expiry, retry time, last change or reconciled time if and only if it is one of three named steps |
| WorkflowWakeGuards.LostWakeUpExact | packages/workflows-reliability/src/index.ts:89-143 | all along a run the workflow has such a wake if and only if the run makes none of these steps |
| WorkflowWakeGuards.NoLostWakeUp | packages/workflows-reliability/src/index.ts:89-143 | it always has one while clocks do not lag behind delivered wakes |
| WorkflowWakeGuards.DeliveredWakeClaims | packages/workflows/src/manager.ts:100-122 | such a wake in the hand of a worker whose clock has reached it is neither told to wait nor refused |
| WorkflowWakeGuards.DeliveredWhenDue | packages/reliability/src/testing.ts:97-107 | a wake gets into a hand only when it is due, and only into the empty hand of an idle worker |
| WorkflowWakeGuards.GivenUpWakeExact | packages/workflows/src/manager.ts:104-121 | a wake given up as waiting or because of a live lease leaves another one, not yet available, if and only if it was not the only one; a worker whose own clock has reached its wake never gives up the only one |
| WorkflowWakeGuards.ScheduleExact | packages/workflows-reliability/src/index.ts:173-193 | scheduling a scan, however late, leaves a wake if and only if there was one or the scan's is new and not early |
| WorkflowWakeGuards.ReconciliationRepairs | packages/workflows-reliability/src/index.ts:173-197 | after any past, one reconciliation with an unused wake id leaves a wake, and every continuation with clocks that do not lag keeps one |
| WorkflowLostWake.LaggingClockForgets | packages/workflows-reliability/src/index.ts:120-128 | a run after which a live workflow has no wake left |
| WorkflowLostWake.ForgottenThenRepaired | packages/workflows-reliability/src/index.ts:173-197 | a reconciliation after that run brings the wake back for good |
| MessageStore.InMemoryReliabilityStore.Append | packages/reliability/src/testing.ts:33-46 | appending the same message again changes nothing, another one under its id is refused, and the capacity is kept |
| MessageStore.SelectedFacts | packages/reliability/src/testing.ts:97-107 | a batch is distinct, claimable, not excluded, within the limit, and complete when the limit is not reached |
| MessageStore.InMemoryReliabilityStore.Claim | packages/reliability/src/testing.ts:97-109 | takes exactly the first claimable messages in insertion order and leaves all others alone |
| MessageStore.InMemoryReliabilityStore.Select | packages/reliability/src/testing.ts:97-107 | the filter and cut of the batch claim |
| MessageStore.InMemoryReliabilityStore.ClaimInbox | packages/reliability/src/testing.ts:77-96 | duplicate, busy, capacity and claimed, each exactly when it applies |
| MessageStore.InMemoryReliabilityStore.Update | packages/reliability/src/testing.ts:120-178 | a transition happens if and only if the token holds an unexpired lease; a renewal never shortens it |
| MessageLeases.AttemptsAreClaims | packages/reliability/src/testing.ts:112-118 | in every run a message's attempts are its successful claims |
| MessageLeases.TokenServesOnce | packages/reliability/src/index.ts:257-271 | no lease token serves two claims of one message, although an outbox run keeps one token, because it excludes what it has claimed |
| MessageLeases.RunClaimKeeps | packages/reliability/src/index.ts:265-271 | one turn of a run, through the store's own filter, keeps: a run whose token served the message has excluded it |
| MessageLeases.WithoutExcludeIds | packages/reliability/src/testing.ts:97-109 | without excludeIds one token serves two claims; with them the second turn gets nothing |
| MessageLeases.OnlyLatestClaimActs | packages/reliability/src/testing.ts:173-178 | a transition is accepted only from the token of the latest claim, with only its own renewals since, and before the end of the lease they extended |
| MessageLeases.TerminalIsLast | packages/reliability-drizzle/src/base.ts:69-82 | delivered is absorbing: nothing follows, so a delivered inbox message is never handled again, also with the three-statement claim; dead is absorbing but for an administrator's retry |
| MessageLeases.LeaseNeverShortens | packages/reliability/src/testing.ts:128-132 | until the next claim a lease is never shortened and never changes hands |
| MessageLeases.RetryWaits | packages/reliability/src/testing.ts:97-107 | in every run, what follows an append, a retry or a revival is a claim with a clock reading at or after the time that event set |
| MessageLeases.TakeoverWaits | packages/reliability/src/testing.ts:97-107 | a claim takes over from another only at or after the end of its lease, renewals included |
| MessageLeases.ClaimsAndActsExact | packages/reliability/src/testing.ts:97-178 | from every reachable state a turn of a run gets the message exactly when it asks for its kind, has not claimed it, and the history leaves it free or its lease run out; a transition is accepted exactly before the end of the latest claim's lease |
| MessageLeases.InboxClaimExact | packages/reliability-drizzle/src/base.ts:69-82 | the three statements of an undisturbed inbox claim get the message exactly when it is new, free, or its lease has run out |
| OutboxProcessor.SettleRow | packages/reliability/src/index.ts:289-349 | each of the eight statuses is given exactly in its case: what the delivery returned or threw, the last attempt, the lease, the abort and whether the store took the transition; exactly the matching counter moves |
| OutboxProcessor.ProcessRow | packages/reliability/src/index.ts:272-353 | exactly one outcome per row, in the exact sense of SettleRow, and the counters keep matching the outcomes; the run rejects exactly when recording a thrown delivery was refused |
| OutboxProcessor.RunOnce | packages/reliability/src/index.ts:250-358 | takes the answers of the store in order, each but the last in full, and stops exactly at the limit, the abort, an empty or a short answer or a rejection; one exact outcome per claimed message, all distinct, at most limit, and counters equal to the numbers of matching outcomes |
| OutboxProcessor.ClaimKeepsContract | packages/reliability/src/testing.ts:97-109 | the in-memory store keeps the claim contract RunOnce relies on |
| DeadLetter.ChangesAtMostOnce | packages/reliability-drizzle/src/dead-letter.ts:54-74 | under any concurrency and any crash one operation id changes a message at most once |
| DeadLetter.AnswersAgree | packages/reliability-drizzle/src/dead-letter.ts:54-87 | every successful answer for an operation id, first call, replay or reconciliation, is the same and tells of a change really made |
| DeadLetter.RefusalIsFinal | packages/reliability-drizzle/src/dead-letter.ts:70-79 | an operation that was ever refused never changed anything and is always refused with the same code |
| DeadLetter.OneCommitPerRevision | packages/reliability-drizzle/src/dead-letter.ts:61-66 | of all operations naming one revision of one message at most one changes it |
| DeadLetter.DiscardIsFinal | packages/reliability-drizzle/src/dead-letter.ts:61-66 | a discarded message is never retried or discarded again |
| DeadLetter.UnfinishedOperationRecovers | packages/reliability-drizzle/src/dead-letter.ts:75-87 | an undisturbed later call of an unfinished operation is answered if and only if its marker was not replaced; pruning never removes it |
| DeadLetter.RecoveryExact | packages/reliability-drizzle/src/dead-letter.ts:54-87 | in every reachable state some continuation answers an unfinished operation if and only if its marker is on a message or a caller that read it is about to finalize |
| DeadLetter.ForgottenForever | packages/reliability-drizzle/src/dead-letter.ts:54-87 | otherwise no run ever answers or refuses it |
| DeadLetterRuns.ReplacedMarkerForgets | packages/reliability-drizzle/src/dead-letter.ts:61-69 | a run into that state: crash after the update, then another operation replaces the marker |
| DeadLetterRuns.FinalizerOutlivesMarker | packages/reliability-drizzle/src/dead-letter.ts:81-87 | a run in which a caller that read the marker in time answers after it was replaced |
| DeadLetter.NextKeeps | packages/reliability-drizzle/src/dead-letter.ts:54-87 | every statement of every caller, worker transition and pruning keeps the two tables consistent |
| DeadLetterEffects.ChangeExact | packages/reliability-drizzle/src/dead-letter.ts:61-67 | in every run a change is made only to a message that was dead, active and at the named revision; after it the message is pending and active, or dead and discarded, at the next revision, and no other message changed |
| DeadLetterEffects.ReadyIsAnswered | packages/reliability-drizzle/src/dead-letter.ts:54-67 | an undisturbed first call on such a message changes it and is answered |
| DeadLetterEffects.UnreadyIsRefused | packages/reliability-drizzle/src/dead-letter.ts:68-74 | on any other message it changes nothing and is refused: not found exactly if there is none, stale exactly if the revision differs, invalid state otherwise |
| DeadLetterEffects.DeathFences | packages/reliability-drizzle/src/base.ts:102-104 | once a message has died again, no operation that names the revision it had before, or an earlier one, changes it any more |
| Idempotency.DrizzleIdempotencyStore.Acquire | packages/idempotency-drizzle/src/base.ts:72-85 | the one upsert: answer and new row for every stored row |
| Idempotency.DrizzleIdempotencyStore.Renew | packages/idempotency-drizzle/src/base.ts:87-90 | succeeds if and only if the token holds the unexpired lease of a request in progress |
| Idempotency.DrizzleIdempotencyStore.Finish | packages/idempotency-drizzle/src/base.ts:92-100 | the same for completing and failing |
| Idempotency.ReplayWindow | packages/idempotency-drizzle/src/base.ts:72-100 | between a completion and its expiry the row never changes, every acquire with the same fingerprint replays exactly the stored response, every other one conflicts |
| Idempotency.CompletionReplays | packages/idempotency-drizzle/src/base.ts:92-100 | after an accepted completion, until now + retentionMs every acquire with the same fingerprint replays its response |
| Idempotency.CompletionExpires | packages/idempotency-drizzle/src/base.ts:72-85 | from now + retentionMs on an acquire takes the key over |
| Idempotency.ReplayIsFaithful | packages/idempotency-drizzle/src/base.ts:81-84 | a replayed response is the one of the latest completion of the same request, with no acquisition since |
| Idempotency.SecondAcquisitionNeeds | packages/idempotency-drizzle/src/base.ts:76-77 | in every run a further acquisition succeeds if and only if the row expired or it retries a recorded failure of the same request |
| Idempotency.HolderOrSuccessor | packages/idempotency-drizzle/src/base.ts:72-100 | in every run, while a request is processed, at every clock reading exactly one holds: its holder may renew or finish, or whoever comes takes the key over |
| Idempotency.CheckedEnd | packages/idempotency-drizzle/src/base.ts:25-31 | the checks one by one give an end exactly for nonnegative arguments with a safe sum |
| Idempotency.OnlyLatestHolderActs | packages/idempotency-drizzle/src/base.ts:87-100 | a renewal or completion is accepted only from the latest acquisition, which nobody finished before |
| Idempotency.FinishedAtMostAcquired | packages/idempotency-drizzle/src/base.ts:72-100 | completions and failures together never outnumber acquisitions |
| TopologicalSort.Sort | packages/migrations/src/index.ts:372-396 | fails if and only if a dependency is unknown or there is a cycle; otherwise every id once, always the least one whose dependencies were all returned |
| TopologicalSort.BuildTables | packages/migrations/src/index.ts:373-380 | the counting loops detect exactly the unknown dependencies and count with multiplicity |
| TopologicalSort.Release | packages/migrations/src/index.ts:386-392 | the inner loop keeps the ready list sorted and equal to what became ready |
| TopologicalSort.DependenciesFirst | packages/migrations/src/index.ts:382-396 | in such an order dependencies come first and no id comes twice |
| TopologicalSort.StuckMeansCycle | packages/migrations/src/index.ts:394-394 | when nothing is ready and something is left there is a cycle |
| TopologicalSort.CycleBlocks | packages/migrations/src/index.ts:394-394 | no order reaches an id on a cycle |
| TopologicalSort.SourceOrderIrrelevant | packages/migrations/src/index.ts:381-392 | neither the result nor the failure depends on the order in which sources list migrations |
| MigrationLoading.Load | packages/migrations/src/index.ts:341-357 | returns exactly the listed migrations, no id twice and dependencies first, or the failure of the sort |
| MigrationLoading.SortedIsOrdered | packages/migrations/src/index.ts:372-396 | the sorted order is what the history theorems require |
| MigrationHistory.Execute | packages/migrations/src/index.ts:286-305 | the loop applies or removes exactly the selected migrations, in order, or nothing when pretending |
| MigrationHistory.StatementsAre | packages/migrations/src/index.ts:286-305 | what is executed is, migration by migration in the selected order, the script of the chosen direction |
| MigrationHistory.LimitExact | packages/migrations/src/index.ts:237-239 | with a limit exactly the first min(limit, pending) of the pending migrations are run |
| MigrationHistory.NextBatchExact | packages/migrations/src/index.ts:240-240 | the new batch number is one above the greatest recorded one, or 1 |
| MigrationHistory.LastBatchesExact | packages/migrations/src/index.ts:249-250 | a rollback of count batches selects exactly the ids recorded in the count greatest batch numbers |
| MigrationHistory.CheckedRecords | packages/migrations/src/index.ts:319-339 | the two loops over the listed records fail exactly when an id is listed twice or a record is unknown, altered, out of range or applied before a dependency |
| MigrationHistory.InMemoryMigrationBackend.Transact | packages/migrations/src/testing.ts:12-48 | a failed run changes nothing |
| MigrationHistory.InMemoryMigrationBackend.RunUp | packages/migrations/src/index.ts:235-243 | runs what is pending, at most the limit, in one new batch; the history stays accepted; nothing changes on failure |
| MigrationHistory.InMemoryMigrationBackend.Rollback | packages/migrations/src/index.ts:245-255 | removes exactly the last batches, in reverse order; refused as a whole if one is irreversible |
| MigrationHistory.InMemoryMigrationBackend.Reset | packages/migrations/src/index.ts:257-264 | removes everything, in reverse order; succeeds if the history is accepted, everything is reversible and nothing throws |
| MigrationHistory.InMemoryMigrationBackend.Fresh | packages/migrations/src/index.ts:266-279 | drops what is owned and applies everything as batch 1, with what it executes; succeeds if the history is accepted, the manifest valid and nothing throws |
| MigrationHistory.UpKeepsChecked | packages/migrations/src/index.ts:319-339 | every up, with any limit, leaves a history that the next run accepts |
| MigrationHistory.RollbackKeepsChecked | packages/migrations/src/index.ts:319-339 | so does rolling back any number of batches |
| MigrationHistory.DownsDependentsFirst | packages/migrations/src/index.ts:249-252 | downs run dependents before their dependencies |
| MigrationHistory.RollbackUndoesUp | packages/migrations/src/index.ts:235-255 | a non-empty up followed by one batch of rollback restores the records |
| MigrationHistory.UpThenRollback | packages/migrations/src/index.ts:235-255 | the same for the two calls on the backend, with what each executed |
| SqlTokens.LexIsLossless | packages/migrations/src/index.ts:101-182 | the tokens make up the script |
| SqlTokens.FirstOfPrefix | packages/migrations/src/index.ts:105-150 | a token that fits into a prefix of the text is the token of that prefix |
| SqlSplitter.SplitSqlStatements | packages/migrations/src/index.ts:82-188 | the one pass over the characters computes the specification, errors included, which SqlCharacters.SplitExact pins on characters |
| SqlSplitter.ScanWord | packages/migrations/src/index.ts:128-131 | the inner loop finds exactly the extent of the word |
| SqlSplitterLaws.SplitIsPartition | packages/migrations/src/index.ts:169-187 | the statements are the trimmed, adjacent, in-order pieces of the script that hold code; the other pieces hold only white space, comments and semicolons; cuts are exactly at semicolons outside trigger bodies |
| SqlSplitterLaws.CodeFree | packages/migrations/src/index.ts:142-181 | a piece holds code if and only if it has a token that is neither blank, comment nor semicolon |
| SqlSplitterLaws.GroupMeaning | packages/migrations/src/index.ts:132-141 | the trigger flags mean: a semicolon is kept inside exactly while the words form a CREATE TRIGGER whose BEGIN has no END of its own yet, nested CASE and END matched |
| SqlResplit.StatementsTrimmed | packages/migrations/src/index.ts:174-186 | every returned statement is trimmed |
| SqlResplit.ResplitSame | packages/migrations/src/index.ts:82-188 | splitting the newline-joined result returns the same list |
| SqlRegions.ScannedUnique | packages/migrations/src/index.ts:105-127 | a script has one list of regions, quotes, brackets and comments defined on characters, and one place where it may break off |
| SqlRegions.QuoteLengthEnds | packages/migrations/src/index.ts:117-127 | a quote or bracket ends at its first undoubled closer, or never |
| SqlRegions.LexFindsRegions | packages/migrations/src/index.ts:101-168 | the quoted and comment tokens are exactly the regions, and lexing breaks off exactly where one never ends |
| SqlCharacters.SemicolonsExact | packages/migrations/src/index.ts:169-169 | semicolon tokens stand exactly at the semicolons outside all regions |
| SqlCharacters.DivisionUnique | packages/migrations/src/index.ts:82-188 | a script has one division by the semicolons outside regions and trigger bodies |
| SqlCharacters.SplitExact | packages/migrations/src/index.ts:82-188 | the answer on characters: the trimmed pieces with code between exactly those semicolons; a malformed trigger exactly when such a semicolon meets a trigger without body, else an unterminated region exactly when the script ends inside one, else an unterminated trigger exactly when the last piece is one |
| SqlCharacters.TrimExact | packages/migrations/src/index.ts:174-186 | trimming takes off white space only, and all of it at both ends |

## Left out

- Safe-integer bounds of revisions, attempts and batches: integers are unbounded; timestamps are bounded.
- JSON values, JavaScript object shape checks, text length bounds and error sanitising: values are opaque texts.
- Timers, abort signals and heartbeat scheduling: a renewal, an abort or a crash is a step that may happen at any point.
- Handler start order is stated on the persisted start boundaries; a paused worker may call its handler late, which only the counts cover.
- `discoverRecoverable` and the pages of `reconcileStore`: a reconciliation is the scan of one row.
- Wake messages that the outbox gives up on after its attempt limit: a thrown processing makes a wake deliverable again.
- Creation and lookup by start key in SQL: only claim, renewal, commit and cancellation.
- Update in place of shared database rows: the runs of `WorkflowProtocol`, `WorkflowSql`, `WorkflowWakeUps`, `DeadLetter`, `MessageLeases` and `Idempotency` step over row values, because several processes change them; the store classes keep the fields.
- SQL text and dialects: each statement is one atomic conditional update.
- `InboxConsumer.consume` after its claim: which answer it returns for which handler result.
- `prune` outside the dead-letter model: a pruned inbox message may be handled again. An administrator's retry is part of `MessageLeases`.
- The availability time that a dead-letter retry sets: it is part of `MessageLeases`, not of `DeadLetter`.
- Completion order of one outbox batch: outcomes are listed in claim order.
- List, get and cursors of the dead-letter adapter, and revisions that are not canonical numbers.
- Loading, namespaces and dialects of migrations: an id is one text, and the sort sees only its rank in the locale's order.
- Unicode classes and upper-casing in the splitter are parameters of the alphabet; the theorems on characters ask that no quote, bracket, semicolon, dash or slash continues a word, which holds of the source's class.
- WorkflowWakeGuards.NoLostWakeUp: a sufficient condition on clocks; the exact one is WorkflowWakeGuards.LostWakeUpExact.
- WorkflowTermination.TerminationExact: assumes that the lease and the retry time end before the last representable time.
- Nuxt modules, queues, broadcasting, storage clients, webhooks and other plumbing.
