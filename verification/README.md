# Verified model of the private agent

A Dafny model of the parts of the private agent that decide what may run, when, and how often:
the durable task queue with fenced leases and its worker, the execution boundary with its
approvals and policy versions, research-stage leases, the evidence gate with its public
projection, and five bounded algorithms. `dafny verify dfyconfig.toml` checks it.

## How it is organised

Code that changes tables or objects in place is a class whose methods are proved, on every path,
to be one step of a specification (`Queue`, `ResearchStages`, `Boundary`, `PolicyStore`,
`Approvals`, `FindingStates`). Whole-run results are lemmas about sequences of such steps, in any
interleaving: one transaction under `BEGIN IMMEDIATE`, or one section under a lock, is one step.

| files | subject |
|---|---|
| `Wrappers`, `Text`, `TextSets`, `Json`, `JsonSize` | options, text as Unicode scalar values, `sorted(set(..))`, JSON values, the bytes `json.dumps` writes |
| `TaskStates`, `Queue`, `QueueChanges`, `QueueInvariants`, `QueueRuns`, `QueueRecovery`, `QueueMeaning`, `QueueStore` | the queue: transactions, what each may change, the invariant, run-wide results, recovery, what each does to rows, states and checkpoints, the store object |
| `Worker` | `run_once`: reconciling, claiming and processing between arbitrary transactions of others, all recorded in one history |
| `Policy`, `PolicyMeaning`, `PolicyStore`, `PolicyReads`, `Approvals`, `Authority` | evaluation and what its verdicts mean, version counter, evaluation in separate reads, approvals, and these together over runs |
| `Boundary`, `BoundaryRuns`, `SecurityControl` | one-shot authorizations, receipts, the audit trail |
| `Snapshots`, `ActionSnapshots` | freezing and thawing, action snapshots |
| `ResearchStages`, `StageMeaning` | stage leases, the legacy path, cancellation, what a finished stage holds |
| `Evidence`, `SecondPass`, `Findings`, `FindingStates`, `FindingReads`, `FindingSteps`, `FindingRuns`, `DigestReach` | sanitizing, publicizing, when a second pass changes nothing, validation, the finding state machine, what it reads and shows, its steps and runs, what its digest notices |
| `PublicRoundTrip`, `PublicSizes`, `FindingExamples`, `ReportableFindings` | reloading the public projection, its sizes, findings that do and do not load |
| `Base64Url`, `Paging`, `TaskList` | the cursor codec, the query, following `next_cursor` |
| `LoginLimiter` | the sliding login window |
| `Fitting`, `ReportFitting`, `PassiveSources`, `PassiveFitting`, `FallbackSizes` | output fitting, the passive cache and its accounting, fallback sizes |

Clock readings, uuid4 values, reference hashes, `str.lower`, whitespace, secret-pattern substitution,
URL parsing, the JSON parser and the outcome of a fetch are parameters; the digest of a value stands
for the value itself, as if SHA-256 had no collisions. `Evidence.SoundHostExists` shows that what is
assumed of the parameters can be met, and `ReportableFindings` that confirmed findings exist under it.
Clock readings are arbitrary in every queue transaction, because the source reads the clock before it
takes the lock; where a result needs an order of readings, the lemma says so. A lease id is one never
handed out before.

## What the proofs found

Where code and documentation disagree, the model follows the code.

- `src/private_agent/core/task_state.py` gives VERIFYING no transition to EXECUTION_UNKNOWN, although the
  worker counts VERIFYING as started work. Recovering an expired lease over a VERIFYING state raises
  and rolls back; as the first expired lease it then makes every `claim_next_task` raise, for good
  (`ExpiredLeaseRecovery`, `FailureClosesExactlyWithAnEdge`, `VerifyingLeaseBlocksTheQueue`,
  `BlockageIsReachable`).
- When the orchestrator raises over a VERIFYING state, or over a waiting one with an action in flight, the failure
  handler asks for a transition to EXECUTION_UNKNOWN that does not exist, and raises itself; over every other state
  a worker left alone closes its claim (`ProcessClaim`).
- A task requeued after its last attempt stays QUEUED for ever (`ExhaustedTaskIsStranded`).
- One undecodable waiting state makes `run_once` raise before it claims anything (`ReconcileApproved`, `RunOnce`).
- `action_key` is a primary key across tasks, so action rows are the last writes of the log of all tasks
  together (`StateIsTheLog`).
- A policy update whose version does not pass the stored counter changes decisions without changing the
  version approvals bind to (`VersionMoves` says exactly when; `UpdateCanKeepTheVersion` is a run of three steps).
- `evaluate` reads rules and version one after the other. If the version it returns is the one that was current when
  it began, the decision is that of a single state; otherwise it may combine old rules with a new version and still
  allow (`UnmovedVersionMeansOneState`, `TornReadCanAllow`).
- Documentation says an expired approval goes from APPROVED to EXPIRED. The store refuses that write, so
  `valid_for` raises on it (`ValidForMeaning`).
- `save_approval_request` replaces a row under a reused id; decisions are final exactly as long as ids
  are fresh (`DecisionUndoneExactlyByReusedId`).
- A research stage started without a lease is ended as UNKNOWN by the next `claim_next` of any worker
  (`ClaimEndsLegacyStage`).
- The public projection of a finding does not always load back: references grow to 23-character digests,
  and a provenance that passed every size bound can exceed it publicized. It loads in its state exactly
  when it has at most 20 evidence items and each publicized provenance and its record still fit
  (`PublicRoundTripExactly`; `OneItemLoads`, `TwentyOneItemsDoNotLoad` and `DeepItemDoesNotLoad` are confirmed
  findings of each kind), which is always so for evidence nested at most four levels deep (`ShallowFindingsLoad`).
  Publishing again gives the same record except that `evidence_sha256` covers the private provenance the first
  time (`RepublishedRecord` says exactly when it changes).
- The evidence digest sanitizes its input once more, two levels further down. It does not see content below the
  fourth level of nesting (`DigestSeesMarkers`), a source beyond its first 1800 characters (`LongSourcesAreAlike`),
  or items past the hundredth (`LaterItemsAreUnseen`). For at most a hundred items within four levels, `FlatMutationIsNoticedExactly` says,
  part by part, which replaced evidence is still reported.
- Structural redaction is not idempotent: it cuts a text at 1800 characters before it substitutes, and substitution
  can lengthen the text, so a second pass cuts it again. 223 copies of `token=a ` have 1,784 characters, become 3,791
  and then 1,801 (`SecondPassCutsAgain`). One pass is enough exactly when it settles every text it keeps
  (`OnePassIsEnoughExactly`), which a caller can tell from the redacted length (`LengthSettlesText`).
- The login limit holds in every window as long as no login's stamp precedes its own cutoff reading; after an orderly
  run one login can exceed it exactly when its clock steps back between the two
  (`LimitBreaksExactlyWhenTheClockStepsBack`).
- The key list entry `set-cookie` never matches, because dashes are replaced before the lookup
  (`DashedKeyNeverMatches`).
- A LOGIN_RATE_LIMITED event is inserted in the transaction that its own exception rolls back
  (`RejectionsAreNotRecorded`).
- An action changed after construction does not come back equal from its snapshot unless its lists are still
  sorted and its fingerprint set (`RebuildRestoresExactlyNormalActions`).

## Model

| member | source | states |
|---|---|---|
| `QueueStore.Store.CreateQueuedTask` | src/private_agent/storage.py:1197-1318 | Creating a queued task is the Create transaction: a duplicate or a bad attempt limit changes nothing, otherwise row, QUEUED state and first checkpoint appear together. |
| `QueueStore.Store.PersistTaskState` | src/private_agent/storage.py:1100-1189 | Persisting appends the next-numbered checkpoint, replaces the state row and upserts every action record. |
| `QueueStore.Store.SaveTaskState` | src/private_agent/storage.py:278-317 | A save commits only if the task is not queue managed, or the caller's claim holds its leased, unexpired row. |
| `QueueStore.Store.SelectExpired` | src/private_agent/storage.py:1421-1429 | Finds the expired lease that comes first by expiry and task id, or that there is none. |
| `QueueStore.Store.SelectRunnable` | src/private_agent/storage.py:1435-1443 | Finds the runnable row that comes first by availability, creation and task id, or that there is none. |
| `QueueStore.Store.MarkExpiredLease` | src/private_agent/storage.py:1330-1407 | Recovery of an expired lease: the row leaves LEASED with the status its persisted state calls for, or everything rolls back. |
| `QueueStore.Store.ClaimNextTask` | src/private_agent/storage.py:1409-1527 | One call recovers one expired lease, else claims one runnable task, else does nothing, in the order the queries give. |
| `QueueStore.Store.TakeTask` | src/private_agent/storage.py:1448-1522 | The claim takes the lease and an attempt, and gives the row back as BLOCKED when its state does not decode or may not run. |
| `QueueStore.Store.RenewTaskLease` | src/private_agent/storage.py:1529-1561 | A renewal moves only the expiry, and only under the held, unexpired lease. |
| `QueueStore.Store.FinishTaskClaim` | src/private_agent/storage.py:1563-1656 | A finish is the Finish transaction, whose outcomes the next four rows state. |
| `QueueMeaning.FailedFinishPersistsTheFailure` | src/private_agent/storage.py:1612-1633 | Finishing as FAILED over a decodable state always commits: unfinished work is persisted as FAILED with the note added to its errors and nothing else changed, finished work as it is, in the state row and the closing checkpoint, and the row ends as FAILED. |
| `QueueMeaning.UnknownFinishPersistsTheDoubt` | src/private_agent/storage.py:1597-1633 | Finishing as EXECUTION_UNKNOWN commits exactly outside VERIFYING, WAITING_APPROVAL and finished states, and persists that status with its reason and nothing else changed. |
| `QueueMeaning.PlainFinish` | src/private_agent/storage.py:1563-1656 | A finish without a state to save commits under the lease and changes only the row. |
| `QueueMeaning.OnlyTheLeaseHolderWrites` | src/private_agent/storage.py:1529-1741 | A save, a renewal and a finish are refused with a lost lease exactly when the caller's task, lease or worker is not the row's or the lease has run out, fencing exactly when it is not the holder; a refused call changes nothing. |
| `QueueStore.Store.MarkTaskExecutionUnknownIfOwned` | src/private_agent/storage.py:1658-1741 | Fencing needs ownership, not an unexpired lease, and ends the lease as the persisted state demands. |
| `QueueStore.Store.RequeueWaitingApprovalTask` | src/private_agent/storage.py:1743-1796 | A waiting task goes back to the queue only when its approvals are non-empty, all APPROVED, and bound to it. |
| `QueueMeaning.RequeuedExactly` | src/private_agent/storage.py:1743-1796 | A requeue commits exactly when row and state wait, the state decodes and names approvals, and each of those is approved for this task and the action it is named for. |
| `QueueMeaning.ClaimsAreFirstComeFirstServed` | src/private_agent/storage.py:1421-1443 | A claimed task is due, no due task was available earlier, created earlier at the same time, or has a smaller id at both, and no lease is overdue. |
| `QueueMeaning.ClaimLeasesTheRow` | src/private_agent/storage.py:1444-1522 | A claim leases the row to the caller under the new lease until base + ttl, counts the attempt and changes nothing else. |
| `QueueMeaning.UnclaimableTaskIsClosed` | src/private_agent/storage.py:1460-1511 | A task whose state may not run is closed as its state if that is finished or unknown, and as BLOCKED otherwise. |
| `QueueMeaning.RecoveryTakesTheOldestLease` | src/private_agent/storage.py:1421-1433 | Recovery takes the lease that ran out first. |
| `QueueMeaning.ExpiredLeaseCloses` | src/private_agent/storage.py:1330-1407 | A recovered row ends as its finished or waiting state, as BLOCKED over an undecodable one, and as unknown otherwise; only unfinished work is rewritten, as unknown with the reason. |
| `QueueMeaning.FencedLeaseCloses` | src/private_agent/storage.py:1658-1741 | The same for fencing by the owner. |
| `QueueChanges.Classify` | src/private_agent/storage.py:1100-1796 | Every transaction, with any clock readings, changes at most one row in one of seven ways, appends at most one checkpoint, and hands out at most one lease. |
| `QueueInvariants.ValidKept` | src/private_agent/storage.py:1100-1796 | Every transaction keeps: LEASED exactly when the lease columns are filled, distinct leases, bounded attempts, lease-block order of checkpoints, state rows and action rows as functions of the log. |
| `QueueInvariants.RowsKept` | src/private_agent/storage.py:1409-1741 | LEASED holds exactly when all lease columns are filled, and attempts never pass the maximum. |
| `QueueInvariants.BlocksKept` | src/private_agent/storage.py:278-317 | A new checkpoint never belongs to an earlier lease than an old one of the same task. |
| `QueueRuns.CheckpointsFormLeaseBlocks` | src/private_agent/storage.py:278-317 | In every run a task's checkpoints form contiguous blocks, one per lease in acquisition order, and a closing or recovery checkpoint is the last of its block. |
| `QueueRuns.LostLeaseNeverPassesAgain` | src/private_agent/storage.py:278-317 | Once a claim stops holding its row, no claim with that lease id passes any lease check in any later state. |
| `QueueRuns.FinishedIsAbsorbing` | src/private_agent/storage.py:1409-1796 | COMPLETED, FAILED, BLOCKED and EXECUTION_UNKNOWN rows are frozen for ever, with the persisted state of their task. |
| `QueueRuns.ClaimTakesWaitingRow` | src/private_agent/storage.py:1435-1522 | A successful claim takes a queued row below its attempt limit, counts the attempt and finds a decodable state. |
| `QueueRuns.ClaimsAreSeparatedByApprovals` | src/private_agent/storage.py:1743-1796 | Between two successful claims of one task lies a requeue whose non-empty approvals were all APPROVED and bound to that task. |
| `QueueRuns.QueueActivityIsBounded` | src/private_agent/storage.py:1409-1527 | From its creation on, a task changes queue status at most 3 * max_attempts times and never exceeds max_attempts. |
| `QueueRuns.ExhaustedTaskIsStranded` | src/private_agent/storage.py:1435-1443 | A queued task without attempts left keeps its row unchanged in every later state. |
| `QueueRuns.StateIsTheLog` | src/private_agent/storage.py:1100-1195 | In every reachable state a task's checkpoints are numbered 1..n, its state row is checkpoint n, and action rows are the last writes of the whole log. |
| `QueueRecovery.ExpiredLeaseRecovery` | src/private_agent/storage.py:1330-1407 | Recovery of the first expired lease commits exactly when the state is not a decodable VERIFYING; then row and state agree and unfinished work is EXECUTION_UNKNOWN in both; otherwise the call raises and changes nothing. |
| `QueueRecovery.OwnedLeaseRecovery` | src/private_agent/storage.py:1658-1741 | The same for fencing by the owner: it commits exactly for a held lease over a decodable state that is not VERIFYING. |
| `QueueRecovery.FailureClosesExactlyWithAnEdge` | src/private_agent/storage.py:1563-1656 | Finishing as EXECUTION_UNKNOWN commits exactly when the persisted status has a transition to it. |
| `QueueRecovery.VerifyingLeaseBlocksTheQueue` | src/private_agent/storage.py:1409-1433 | From an expired VERIFYING lease at the head on, nothing moves that row and every claim attempt raises without effect. |
| `QueueRecovery.BlockageIsReachable` | src/private_agent/core/task_state.py:30-44 | Three ordinary steps from the empty store reach that blockage. |
| `Worker.BackgroundWorker.RunClaim` | src/private_agent/worker.py:567-580 | The body of a claim chooses a status only after a normal return and without a lost heartbeat, and then as the state read calls for: waiting stays waiting, a state with an outcome decides, otherwise the returned final status; it fails only if the orchestrator raised or a state did not decode. |
| `Worker.BackgroundWorker.ChooseStatus` | src/private_agent/worker.py:573-580 | A lost lease is reported exactly when the heartbeat has lost it, otherwise a status exactly when the state read decodes, case by case over that state and the returned final status. |
| `Worker.BackgroundWorker.FenceLostClaim` | src/private_agent/worker.py:667-677 | LEASE_LOST is reported exactly when the fencing committed or found the claim no longer held, and leaves the lease retired. |
| `Worker.BackgroundWorker.HandleFailure` | src/private_agent/worker.py:598-661 | Processed means its own finish committed: a finished state is not relabelled, work that may have started is closed and persisted as unknown, other work as failed with the message. Left alone it closes every state but a VERIFYING one and a waiting one with an action in flight. |
| `Worker.BackgroundWorker.ProcessClaim` | src/private_agent/worker.py:559-677 | Under any schedule a normal return leaves the lease retired, and processed=True means a finish of this call committed under the held unexpired lease, in the status that the state read earlier in the call and the orchestrator's return call for, or, only after a failure, in the status the failure handler owes that state. A worker left alone always reports processed after a normal return. |
| `Worker.BackgroundWorker.ReconcileApproved` | src/private_agent/worker.py:541-557 | With any transactions of others in between, each listed task is requeued exactly if it may go on when its turn comes, and the pass raises at the first listed state that does not decode then. |
| `Worker.BackgroundWorker.ReconcileOne` | src/private_agent/worker.py:541-557 | One turn is one committed requeue attempt in the history: refused waiting tasks are skipped, undecodable states raise. |
| `Worker.BackgroundWorker.RunOnce` | src/private_agent/worker.py:384-448 | A turn claims only after reconciling without an error; it reports what its claim transaction answered, and processed=True means a later commit of the finish of that claim, in the status called for. |
| `Policy.OrderIsIrrelevant` | src/private_agent/security.py:652-732 | Verdict, risk and version of evaluate do not depend on the order or repetition of rules. |
| `Policy.ChosenRuleIsUnique` | src/private_agent/security.py:652-672 | With distinct rule versions, even the rule named in the reason does not. |
| `Policy.DenyWins` | src/private_agent/security.py:652-732 | A matching DENY rule excludes ALLOW and REQUIRE_APPROVAL. |
| `Policy.AddingARule` | src/private_agent/security.py:652-732 | Adding a DENY or REQUIRE_APPROVAL rule never relaxes a verdict; an ALLOW rule can only lift a REQUIRE_APPROVAL it matches, or deny goal-less actions. |
| `Policy.OwnerDecisionWith` | src/private_agent/security.py:652-672 | The owner's effect with one more rule is the stronger of the two. |
| `Policy.DecisionCarriesCurrentVersion` | src/private_agent/security.py:674-732 | With no rule version above the current one, every decision carries the current version. |
| `PolicyMeaning.RiskIsTheHighestDemand` | src/private_agent/security.py:747-760 | The risk is CRITICAL, HIGH, MEDIUM or LOW exactly by the listed capabilities, sensitive data and the hint; no demand is ignored and a hint never lowers it. |
| `PolicyMeaning.RiskIsMonotone` | src/private_agent/security.py:747-760 | More capabilities, sensitive data or a higher hint never lower the risk. |
| `PolicyMeaning.EvaluateMeans` | src/private_agent/security.py:679-732 | Each of the four verdicts, and the risk it carries, exactly in terms of undeclared, denied or unlisted capabilities, forbidden kinds, quarantine, unmet requirements, the goal check, the applying rules and the approval conditions. |
| `PolicyMeaning.DecideMeans` | src/private_agent/security.py:614-732 | The same over the stored rules that are active and unexpired. |
| `PolicyMeaning.RuleChangesTakeEffect` | src/private_agent/storage.py:973-1058 | After a create exactly the given rule joins the rules in force, after a disable exactly that rule leaves them, and a policy update moves none. |
| `PolicyStore.PolicyAuthority.constructor` | src/private_agent/storage.py:2914-2928 | A new engine persists its policy over the rules and history it finds, and the counter becomes the larger of the stored one and its version. |
| `PolicyStore.PolicyAuthority.CreateOwnerPermissionRule` | src/private_agent/storage.py:973-1027 | Creating a rule allocates the next version for it and its history row, or changes nothing. |
| `PolicyStore.PolicyAuthority.DisableOwnerPermissionRule` | src/private_agent/storage.py:1029-1058 | Disabling an existing rule, active or not, allocates the next version; an unknown id changes nothing. |
| `PolicyStore.PolicyAuthority.UpdatePolicy` | src/private_agent/security.py:734-745 | A policy update needs a larger engine version and raises the stored counter to it. |
| `PolicyStore.PolicyValidKept` | src/private_agent/storage.py:939-1058 | Versions are never reused: rule versions stay distinct, history versions increase, the counter bounds them all. |
| `PolicyStore.VersionMoves` | src/private_agent/storage.py:939-956 | The current version never decreases, every committed rule change raises it by one, and a policy update or a restart raises it exactly when its version passes the stored counter. |
| `PolicyStore.UpdateCanKeepTheVersion` | src/private_agent/security.py:734-745 | A new store, a rule about another tool, then an update: it turns an ALLOW into a DENY under the same version. |
| `PolicyStore.DecisionIsCurrent` | src/private_agent/security.py:674-732 | In every reachable policy state decisions carry the current version. |
| `PolicyReads.UnmovedVersionMeansOneState` | src/private_agent/security.py:652-732 | With rule changes between its separate reads, a decision that carries the version current at the first read is the decision of one state, still current at the last. |
| `PolicyReads.TornReadCanAllow` | src/private_agent/security.py:652-732 | A rule that denies everything, created between the two reads, leaves an ALLOW that carries its version. |
| `Approvals.BindingsNeverChange` | src/private_agent/storage.py:2986-3026 | No transaction of the gate changes a binding field. |
| `Approvals.FirstDecisionStands` | src/private_agent/storage.py:2986-3026 | In any interleaving a row leaves PENDING at most once and is frozen from then on. |
| `Approvals.DecisionUndoneExactlyByReusedId` | src/private_agent/storage.py:2945-2957 | Among all calls the store accepts, exactly a submission under a decided id undoes a decision. |
| `Approvals.ValidForMeaning` | src/private_agent/security.py:943-991 | valid_for says yes exactly for an APPROVED, unexpired row, not a legacy one, equal to the question in task, action, tool, capabilities, goal, fingerprint, risk and version, while that version is current; it raises exactly on an expired APPROVED row. |
| `Approvals.ApprovedActionsExactly` | src/private_agent/security.py:871-991 | An approval requested for an action and granted validates, until it expires, exactly the actions equal in those fields at the same risk and version. |
| `Approvals.ApprovalStore.SaveApprovalRequest` | src/private_agent/storage.py:2945-2957 | Only PENDING requests are stored, replacing whatever has the id. |
| `Approvals.ApprovalStore.SaveApprovalTransition` | src/private_agent/storage.py:2986-3026 | Compare-and-set: only from PENDING, only with equal binding fields, only to a decision. |
| `Approvals.DecidingMeans` | src/private_agent/security.py:894-931 | approve, deny and cancel succeed exactly on a row that was PENDING and unexpired when read and is still PENDING under the same binding when written, whatever else committed; under fresh ids no decided row is touched. |
| `Approvals.ApprovalStore.Decide` | src/private_agent/security.py:894-931 | Read, expire and write, with arbitrary submissions and decisions of others in between, have exactly that outcome. |
| `Authority.VersionNeverDecreases` | src/private_agent/storage.py:939-956 | Over whole runs the current policy version never decreases. |
| `Authority.StaleApprovalNeverValidates` | src/private_agent/security.py:943-991 | An approval behind the current version is never valid again, for any action and clock. |
| `Authority.ApprovalsAreNeverAhead` | src/private_agent/security.py:871-892 | In runs whose submissions carry the version of the decision they answer, no stored approval is ever ahead of the current version. |
| `Authority.RuleChangeRetiresEveryApproval` | src/private_agent/storage.py:973-1058 | There every committed rule change makes every approval stored before it permanently invalid. |
| `Authority.ValidApprovalWasSubmitted` | src/private_agent/security.py:943-991 | In every run an approval that validates was submitted for an action equal in every bound field, at this risk and version, and granted after that. |
| `Authority.NoRuleChangeSinceSubmission` | src/private_agent/security.py:943-991 | No owner rule was created or disabled between that submission and the question, if the submission carried a decided version. |
| `SecurityControl.SecurityController.AuthorizeBoundary` | src/private_agent/security.py:2089-2204 | Boundary authorization stores one-shot evidence exactly when the decision allows, under a new identity. |
| `SecurityControl.SecurityController.BeginExecution` | src/private_agent/security.py:2267-2305 | Beginning needs stored, unmodified evidence for this action, not in flight, and a fresh evaluation of equal version and risk. |
| `SecurityControl.SecurityController.NewExecutionReceipt` | src/private_agent/security.py:2307-2341 | A receipt is issued once, for evidence in flight. |
| `SecurityControl.SecurityController.RecordExecution` | src/private_agent/security.py:2441-2506 | Recording consumes the receipt and the evidence, re-evaluates, and writes one event. |
| `SecurityControl.SecurityController.ExecuteAuthorized` | src/private_agent/security.py:2372-2439 | The operation runs only for an action equal to the granted one in every bound field, under the unmodified grant. If it ran, it ran in the one call this method opened, the only call of this authorization; otherwise nothing changed or the call was abandoned. Recorded is reported only for its own result with its event in the trail; a blocked or recorded authorization is gone. |
| `BoundaryRuns.GrantsExactly` | src/private_agent/security.py:2089-2204 | Evidence is granted exactly when the decision allows, or wants an approval and the one presented is for this action, risk and version. |
| `BoundaryRuns.BeginsExactly` | src/private_agent/security.py:2236-2305 | A call begins exactly with stored, unmodified, allowing evidence, not in flight, for an action equal in all nine bound fields, while a fresh decision gives the granted version and risk and still allows it. |
| `BoundaryRuns.OtherActionsAreRefused` | src/private_agent/security.py:2276-2278 | A begin that differs from the granted action in any bound field is refused and changes nothing. |
| `BoundaryRuns.BegunCallActsAsGranted` | src/private_agent/security.py:2236-2305 | In every run a begun call has the task, action, tool, requested and declared capabilities, fingerprint, goal, kind and skill status of its grant step, and presents that grant. |
| `BoundaryRuns.RecordedReceiptActsAsGranted` | src/private_agent/security.py:2307-2506 | Every recorded receipt, of success or failure, carries the action its call began with and was granted for. |
| `BoundaryRuns.ControllerValidKept` | src/private_agent/security.py:2089-2506 | Every step keeps identities, receipts and audit events unshared between authorizations, and the version does not fall. |
| `BoundaryRuns.OperationRunsAtMostOnce` | src/private_agent/security.py:2267-2305 | In any run the operation behind one authorization runs at most once. |
| `BoundaryRuns.AtMostOneEventPerAuthorization` | src/private_agent/security.py:2441-2506 | In any run at most one ACTION_EXECUTED or ACTION_FAILED is recorded per authorization. |
| `BoundaryRuns.ExecutedRecordIsJustified` | src/private_agent/security.py:2372-2506 | Every ACTION_EXECUTED goes back to a grant, then a begin for the granted action, then a successful return, recorded while version and risk were unchanged, the verdict was neither DENY nor QUARANTINE, and any needed approval was valid. |
| `BoundaryRuns.NoRuleChangeBetween` | src/private_agent/storage.py:939-1058 | Equal versions at two states mean no owner rule was created or disabled between them. |
| `Snapshots.FreezeEqualIffSame` | src/private_agent/security.py:167-177 | Two values freeze alike exactly when they are equal: freezing is injective and ignores map insertion order. |
| `Snapshots.ThawFreeze` | src/private_agent/security.py:167-188 | Thawing a frozen value gives the value back. |
| `ActionSnapshots.ConstructIsNormal` | src/private_agent/security.py:293-300 | The constructor yields the normal form, keeps the requested capabilities, and changes nothing already normal. |
| `ActionSnapshots.RebuildRestoresExactlyNormalActions` | src/private_agent/security.py:226-269 | Rebuilding an action from its snapshot gives an equal action exactly when the action is in normal form. |
| `ActionSnapshots.SnapshotsDetectEveryChange` | src/private_agent/security.py:226-246 | Snapshots of two constructed actions are equal exactly when the actions are. |
| `ResearchStages.RowsMoveUp` | src/private_agent/bugbounty/research.py:197-450 | A transaction moves a stage only upwards, never out of a terminal status, and writes payloads only in a committed finish. |
| `ResearchStages.StatusOnlyMovesUp` | src/private_agent/bugbounty/research.py:197-450 | Over runs the status goes QUEUED, RUNNING, terminal, or straight to terminal, and terminal rows are frozen. |
| `ResearchStages.StageIsClaimedAtMostOnce` | src/private_agent/bugbounty/research.py:197-274 | In any run a stage is claimed at most once. |
| `ResearchStages.ResultIsWrittenAtMostOnce` | src/private_agent/bugbounty/research.py:284-349 | In any run its result is written at most once. |
| `ResearchStages.CancelWins` | src/private_agent/bugbounty/research.py:436-450 | A committed cancel keeps the stage CANCELLED with its payloads and makes every later finish fail. |
| `ResearchStages.ClaimEndsLegacyStage` | src/private_agent/bugbounty/research.py:197-230 | Any claim_next ends a stage started without a lease as UNKNOWN, and its legacy finish is refused for good. |
| `StageMeaning.FinishClaimExactly` | src/private_agent/bugbounty/research.py:284-349 | A finish commits exactly for a final status, the owner's claim that runs the stage under an unexpired lease, and payloads in budget; it writes result, partial result, status and code and clears the lease, and is otherwise refused without effect. |
| `StageMeaning.ClaimExactly` | src/private_agent/bugbounty/research.py:197-274 | A claim ends exactly the stages that run without a lease or past it, and takes the queued one that comes first, under the new lease. |
| `StageMeaning.FinishedStageKeepsItsPayloads` | src/private_agent/bugbounty/research.py:197-450 | What a worker delivered under its lease is what every later state shows. |
| `StageMeaning.LostStageClaimNeverFinishes` | src/private_agent/bugbounty/research.py:284-349 | Once a stage has ended, every later finish of it is refused and changes nothing. |
| `ResearchStages.StagesValidKept` | src/private_agent/bugbounty/research.py:165-450 | Lease columns stay filled together and only while RUNNING, and an analysis keeps at most 32 stages per owner. |
| `ResearchStages.ResearchStageRepository.ClaimNextStage` | src/private_agent/bugbounty/research.py:197-274 | One claim ends stale running stages, then takes the first queued stage by creation time and id. |
| `ResearchStages.ResearchStageRepository.FinishStageClaim` | src/private_agent/bugbounty/research.py:284-349 | A finish needs the held, unexpired lease and writes payloads and terminal status together. |
| `ResearchStages.ResearchStageRepository.MarkUnknownIfOwned` | src/private_agent/bugbounty/research.py:351-380 | Only the lease owner can mark a running stage UNKNOWN. |
| `ResearchStages.ResearchStageRepository.CancelStage` | src/private_agent/bugbounty/research.py:436-450 | Cancelling works from QUEUED or RUNNING and clears the lease. |
| `ResearchStages.ResearchStageRepository.StartStage` | src/private_agent/bugbounty/research.py:399-412 | The legacy start takes a queued stage without a lease. |
| `ResearchStages.ResearchStageRepository.FinishStage` | src/private_agent/bugbounty/research.py:414-434 | The legacy finish needs a RUNNING stage. |
| `Evidence.SafeFixesExactlyCleanValues` | src/private_agent/bugbounty/models.py:64-82 | Sanitizing leaves a nested value alone exactly when depth, item and key bounds hold, secret keys are redacted and every text is a fixed point. |
| `SecondPass.OnePassIsEnoughExactly` | src/private_agent/bugbounty/models.py:64-82 | Redacting a nested value twice is redacting it once exactly when every text the first pass keeps comes out settled. |
| `SecondPass.LengthSettlesText` | src/private_agent/bugbounty/models.py:74-82 | A text settles when its redacted form has at most 1800 characters or is itself a cut text, for a redactor that leaves its own output alone. |
| `SecondPass.SecondPassCutsAgain` | src/private_agent/bugbounty/models.py:74-82 | 1,784 characters of short secrets grow to 3,791 in the first pass and are cut to 1,801 in the second. |
| `Evidence.DashedKeyNeverMatches` | src/private_agent/bugbounty/models.py:64-68 | No key normalizes to the dashed entry of the secret key list. |
| `FindingReads.HiddenKeysAre` | src/private_agent/bugbounty/models.py:22-68 | A value is hidden whole exactly under one of eleven names, in any case and with dashes for underscores. |
| `Evidence.DigestsEqual` | src/private_agent/bugbounty/models.py:93-95 | Digests of two values are equal exactly when the values are, whatever the order of keys. |
| `Evidence.PublicRefIsPublic` | src/private_agent/bugbounty/models.py:98-103 | A public reference has the opaque shape and is its own public reference. |
| `Evidence.PublicizeIsIdempotent` | src/private_agent/bugbounty/models.py:106-114 | Publicizing twice is publicizing once, over any nested JSON. |
| `Evidence.PublicizeSettles` | src/private_agent/bugbounty/models.py:64-114 | Sanitizing a publicized clean value settles, and publicizing it again gives the same value. |
| `Findings.ValidateConfirmedEvidence` | src/private_agent/bugbounty/models.py:614-700 | The validation loop collects the faults of the finding and of each item in order. |
| `Findings.ValidMeans` | src/private_agent/bugbounty/models.py:614-700 | Validation is silent exactly when the finding is complete and every item demonstrates a denied cross-identity request, bound to scope, host, endpoint and resource, that returned protected content. |
| `FindingReads.ProtectedContentWasReturned` | src/private_agent/bugbounty/models.py:674-690 | In a demonstration a status below 300 and an object with one of seven protected fields were observed, as in the owner's baseline. |
| `FindingReads.SegmentsMatchExactly` | src/private_agent/bugbounty/models.py:665-671 | A path matches its template exactly if they are equally long and differ only under placeholders in braces. |
| `FindingStates.TransitionAssures` | src/private_agent/bugbounty/models.py:464-492 | Every transition into a confirmed state has passed the gate, and transitions keep what it established. |
| `FindingSteps.TransitionExactly` | src/private_agent/bugbounty/models.py:420-492 | A transition succeeds exactly along an allowed edge, and into a confirmed state only if the finding is described and every item demonstrates it; it then records validation and digest. |
| `FindingSteps.ReviewedFindingsTookEveryStep` | src/private_agent/bugbounty/models.py:420-471 | In any run without loads a reviewed finding was ready for a report, before that confirmed, and before that pending validation. |
| `FindingSteps.RejectionIsFinal` | src/private_agent/bugbounty/models.py:420-428 | A rejected finding stays rejected, whatever is edited or reported. |
| `FindingStates.ReportingChecksAssurance` | src/private_agent/bugbounty/models.py:509-521 | Reporting passes exactly the assured findings and demotes the others unless their digest cannot be computed. |
| `FindingStates.LoadingAssures` | src/private_agent/bugbounty/models.py:562-611 | A record loads in a confirmed state only if its evidence validates and matches the stored digest. |
| `FindingStates.MutationIsNoticedExactly` | src/private_agent/bugbounty/models.py:494-521 | Evidence replaced after validation is reported exactly when it is valid, its digest can be computed, and its sanitized public projection equals the validated one. |
| `DigestReach.FlatMutationIsNoticedExactly` | src/private_agent/bugbounty/models.py:494-521 | For at most 100 items within four levels that is so exactly when, item by item, the redacted excerpts of kind and source, the compared and exchanged parts and the public form of the provenance are equal. |
| `DigestReach.LongSourcesAreAlike` | src/private_agent/bugbounty/models.py:74-82 | Two sources that agree in their first 1800 characters are the same to the digest. |
| `DigestReach.LaterItemsAreUnseen` | src/private_agent/bugbounty/models.py:69-73 | Two lists that agree in their first hundred items are the same to the digest. |
| `FindingRuns.ReportedEvidenceWasValidated` | src/private_agent/bugbounty/models.py:464-611 | In any run of transitions, edits, reports and loads, a confirmed finding that reporting accepts has evidence that validates and equals, as the digest sees it, the evidence with which it last passed the gate, and has stayed confirmed since. |
| `FindingStates.Finding.constructor` | src/private_agent/bugbounty/models.py:460-462 | No finding is created in a confirmed state. |
| `FindingStates.Finding.Transition` | src/private_agent/bugbounty/models.py:464-471 | The transition of the state machine, keeping assurance. |
| `FindingStates.Finding.RequireConfirmable` | src/private_agent/bugbounty/models.py:473-492 | The gate records validation and digest, or the faults, before it raises. |
| `FindingStates.Finding.InvalidateConfirmation` | src/private_agent/bugbounty/models.py:502-507 | Invalidation leaves no confirmed state, validation or digest. |
| `FindingStates.Finding.AssertValidatedForReporting` | src/private_agent/bugbounty/models.py:509-521 | Returning without an error means the finding is unchanged and assured. |
| `FindingStates.Finding.ToDict` | src/private_agent/bugbounty/models.py:523-555 | A record is produced only of an assured finding. |
| `FindingReads.RecordShows` | src/private_agent/bugbounty/models.py:523-555 | A record shows state, status and digest as they are and at most the first twenty of every list, with every item's own hash, and in public a reference for the scope and publicized provenances. |
| `PublicRoundTrip.PublicRoundTripExactly` | src/private_agent/bugbounty/models.py:523-611 | A published finding loads back in its state exactly when it has at most 20 items and all publicized provenances still fit; it is then assured, with the same digest. |
| `PublicRoundTrip.RepublishedRecord` | src/private_agent/bugbounty/models.py:375-399 | Publishing the loaded finding gives the same record except for evidence_sha256, and exactly when that stays the same the records are equal. |
| `PublicRoundTrip.RepublishingIsStable` | src/private_agent/bugbounty/models.py:523-611 | From the first reload on, publishing and loading change nothing. |
| `PublicRoundTrip.StillDemonstrates` | src/private_agent/bugbounty/models.py:614-700 | A demonstration survives publicizing and reloading. |
| `PublicSizes.ShallowFindingsLoad` | src/private_agent/bugbounty/models.py:85-95 | Findings whose evidence nests at most four levels deep always load back. |
| `ReportableFindings.OneItemLoads` | src/private_agent/bugbounty/models.py:375-611 | A confirmed, reportable finding with one item loads back. |
| `ReportableFindings.TwentyOneItemsDoNotLoad` | src/private_agent/bugbounty/models.py:523-555 | A confirmed, reportable finding with 21 items does not. |
| `ReportableFindings.DeepItemDoesNotLoad` | src/private_agent/bugbounty/models.py:85-114 | Nor does a confirmed, reportable finding whose only item carries 1,400 references five levels below its required provenance. |
| `PublicSizes.DeepReferencesDoNotLoad` | src/private_agent/bugbounty/models.py:85-114 | The sizes behind it, under any host: 5,663 bytes of references that every bound accepts are published as at least 36,463, which the constructor refuses. |
| `PublicSizes.DigestSeesMarkers` | src/private_agent/bugbounty/models.py:64-67 | In the finding's digest a value five levels deep is a truncation marker, whatever it was. |
| `Base64Url.DecodeEncode` | src/private_agent/auth.py:104-109 | Decoding inverts unpadded base64url encoding for all byte strings. |
| `Base64Url.EncodeDecode` | src/private_agent/auth.py:104-109 | Encoding inverts decoding exactly on text whose spare bits are zero; only lengths of 1 modulo 4 are refused. |
| `Base64Url.EncodeIsInjective` | src/private_agent/auth.py:104-105 | No two byte strings share an encoding. |
| `Paging.CursorRoundTrip` | src/private_agent/api.py:638-668 | A cursor decodes to its key exactly when created_at and task_id are within bounds and the encoding within 512 characters, and is refused otherwise. |
| `Paging.PlainKeysAreAddressable` | src/private_agent/api.py:648-668 | ISO timestamps and valid ids always fit a cursor. |
| `Paging.QueryIs` | src/private_agent/storage.py:1822-1867 | The query returns matching rows in descending order, and leaves out only later rows, only at the limit. |
| `TaskList.AgentAPIService.ListTasks` | src/private_agent/api.py:1180-1237 | The listing reads one more row than the page to know whether a next cursor is due, and refuses bad limits, cursors and states. |
| `TaskList.LimitsAreChecked` | src/private_agent/api.py:1180-1237 | Limits outside 1 to 100 are refused, and a page has at most limit rows, all trusted. |
| `TaskList.PagesCoverTheList` | src/private_agent/api.py:1180-1237 | Following next_cursor lists every task present throughout exactly once, strictly descending, whatever changes between pages. |
| `TaskList.PagingEnds` | src/private_agent/api.py:1180-1237 | As long as there is a next cursor, the pages so far are filled by distinct tasks not newer than the first one listed, whatever is inserted between pages. |
| `TaskList.NewerTasksCostNoPage` | src/private_agent/api.py:1180-1237 | When everything inserted later is newer than the first listed task, there are no more full pages than the first table fills. |
| `TaskList.FollowingFailsExactly` | src/private_agent/api.py:638-668 | A next cursor is refused exactly when its key does not fit a cursor. |
| `LoginLimiter.AuthManager.RecordLoginAttemptOrRaise` | src/private_agent/auth.py:277-290 | A login is recorded exactly when fewer than the limit are stored since the cutoff; a refused one leaves the log unchanged. |
| `LoginLimiter.WindowIsBounded` | src/private_agent/auth.py:277-290 | In every run any closed window of the configured length holds at most the limit of attempts per remote key. |
| `LoginLimiter.QuietRemoteIsAdmitted` | src/private_agent/auth.py:277-290 | Below the limit within the last window an attempt is recorded. |
| `LoginLimiter.RejectionsAreNotRecorded` | src/private_agent/auth.py:287-290 | No rejection event is ever stored. |
| `LoginLimiter.LimitBreaksExactlyWhenTheClockStepsBack` | src/private_agent/auth.py:277-290 | After some orderly run a login exceeds the limit in a window exactly when its stamp precedes its cutoff reading, for every positive limit. |
| `Fitting.Inventory.Fit` | src/private_agent/bugbounty/local_evidence.py:234-260 | The output fits or is the fallback; lists are trimmed evenly from their ends; the fallback is returned only when empty lists do not fit. |
| `Fitting.Inventory.LongestList` | src/private_agent/bugbounty/local_evidence.py:243-247 | Finds the first longest list. |
| `ReportFitting.Report.Fit` | src/private_agent/bugbounty/local_evidence.py:650-673 | The report fits or is the fallback; lists are cut from their ends in the source's order and no further than needed; the markdown renders what is left. |
| `ReportFitting.Report.Shrink` | src/private_agent/bugbounty/local_evidence.py:651-672 | Popping stops as soon as the report fits or nothing is left to pop. |
| `PassiveSources.PassiveResearchAdapter.Cached` | src/private_agent/bugbounty/passive_research.py:148-156 | A hit is an entry of this key at most 300 seconds old; an older one is dropped. |
| `PassiveSources.PassiveResearchAdapter.Store` | src/private_agent/bugbounty/passive_research.py:158-162 | Storing assigns the entry under its key, present or not; the cache never exceeds 16 entries and loses only an oldest one. |
| `PassiveSources.RecordedMeans` | src/private_agent/bugbounty/passive_research.py:205-240 | A retrieval has content exactly if something with a status from 100 to 599 was fetched, and an error otherwise. |
| `PassiveSources.PassiveResearchAdapter.Gather` | src/private_agent/bugbounty/passive_research.py:200-245 | Every source is answered in order, fetched or from an unexpired entry of the cache as it was; while the cache has room, from the cache exactly when it has such an entry; requests and hits add up. |
| `PassiveFitting.PassiveOutput.Fit` | src/private_agent/bugbounty/passive_research.py:165-187 | The output fits or is the fallback; excerpts are blanked, then only a suffix is cut, no more than needed. |
| `PassiveFitting.Collect` | src/private_agent/bugbounty/passive_research.py:189-260 | For every budget of at least 256 the output fits, and its counters account for every source asked. |
| `FallbackSizes.InventoryFallbackSize` | src/private_agent/bugbounty/local_evidence.py:249-259 | The inventory fallback takes 189 bytes, so the fitted inventory meets every budget of at least 256. |
| `FallbackSizes.ReportFallbackSize` | src/private_agent/bugbounty/local_evidence.py:664-670 | The report fallback takes 193 or 196 bytes. |
| `PassiveFitting.PassiveFallbackSize` | src/private_agent/bugbounty/passive_research.py:176-186 | The passive fallback takes 223 or 224 bytes. |

## Left out

- SQLite itself, schema migrations and thread primitives: a transaction or a locked section is one atomic step.
- Idempotency keys, task owners and the separate `tasks` table: they do not take part in claiming or fencing.
- Audit text, stamps that no decision reads, observability, knowledge, skill and learning records: insert-or-reject rows.
- The planner, orchestrator and executor: `Worker` lets the orchestrator be any sequence of lease-checked writes with any ending.
- TaskList.AgentAPIService.ListTasks: lists without status and owner filter; a filter by status can hide a task between pages, so the coverage result is about the unfiltered list.
- Cryptography, hashing, URL parsing, regular expressions and the JSON parser: parameters with stated laws.
- Floats, sets and other values a snapshot renders with `repr`, and Python's equality of `True` and `1`: JSON numbers are integers here.
- Evidence whose provenance or request is not an object, contrary to its type annotation: the source then raises AttributeError.
- Findings.ValidateConfirmedEvidence: errors of findings that did not pass are kept in the order they are found, not sorted and without removing duplicates; whether there are any does not depend on that.
- Descriptors, weak dictionaries and closures that guard private state in `security.py`: the state is private to the class.
- The hypothesis and fixture fitters and the observation list of `local_evidence.py`: the fixed text of the first exceeds the smallest budget, the others repeat the inventory's loop.
- FastAPI routes, cookies, CORS, the mobile app, trusted tools, scanners and container scripts: plumbing and foreign calls.
- Policy evaluation inside a boundary step reads one policy state; `PolicyReads` says what separate reads can differ by.
