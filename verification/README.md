# Make It So: a verified model

Make It So builds a dependency graph of work cards, leases the cards to workers, and retries and gates them
until a pull request can be merged. This project models the parts of it whose correctness is not visible in
one function body, and proves what they promise over all inputs and all runs. It is written in Dafny 4.11;
`dafny verify dfyconfig.toml` checks everything. Nothing of the original program is executed.

## What is modelled

**The card store and its leases** (`DirectOrchestrator.dfy`, `LeaseProtocol.dfy`, `LeaseAnswers.dfy`,
`AdminWrites.dfy`, `Blockers.dfy`). `DirectStore` holds the store as a class whose methods update rows in
place. `LeaseProtocol` holds the same transactions as a transition system. Claim, heartbeat, complete,
block, cancel and lease recovery are one immediate transaction each, so each is one step. Promotion and the
administrative operations read on one connection and write on another; the repository lease lets one process
at a time run them, but worker steps interleave with their reads and writes freely. Time is an integer that
only grows, and tokens are never drawn twice.

**Retries and reconciliation** (`Cards.dfy`, `RetryChain.dfy`, `Reconcile*.dfy`, `BoardFold.dfy`,
`RetryLabels.dfy`, `RetryBudget.dfy`, `RetryTree.dfy`, `ProofErrors.dfy`, `Inspections.dfy`, `Turns.dfy`,
`Pass*.dfy`, `GateRepairs.dfy`, `CardReaders.dfy`, `Orchestrator.dfy`). One `reconcile` is one atomic step
over the card list that it read. Its decisions are functions of that list; `Orchestration` holds the loops
that take them and issue adapter calls, proved equal to the specified pass, exceptions included.
`PassOutcomes`, `PassCreations`, `PassRows` and `GateRepairs` say what a pass makes of every card, and which
cards it adds, without reference to the branches that do it. The failure counter of the reconciler
(`failureCount`, `attempts`) and that of the store (`failures`) are different fields, and so are `parents`
and `links`, as in the code.

**Workflows** (`Workflow.dfy`, `WorkflowShape.dfy`, `Enqueue.dfy`, `WorkflowRuns.dfy`, `BuiltWorkflow.dfy`,
`QaCards.dfy`, `QaSelection.dfy`, `EnqueuedRetries.dfy`, `ReconciledWorkflow.dfy`, `MixedRuns.dfy`, `Qa.dfy`). The stage graph
for every action, policy and QA selection, its idempotent materialisation, and its runs under the split
protocol, alone and mixed with reconcile passes.

**Completion and merge** (`FinalReview.dfy`, `HeadAgreement.dfy`, `CompletionGate.dfy`,
`CompletionEvidence.dfy`). The three readers of a final-review record, the policy evaluators, and the two
gates built on them.

**Courses** (`Courses.dfy`, `CourseGraph.dfy`, `CourseSchedule.dfy`, `Readiness.dfy`, `CourseSteps.dfy`),
**evidence batches** (`Batching.dfy`), **schedules** (`Intervals.dfy`, `Schedules.dfy`) and **token
accounting** (`Usage.dfy`).

Conventions: `Option` and `Result` stand for optional values and exceptions. The id that a new card receives
is given by a function of its key (`name`); every theorem holds for every such function that does not reuse
ids. Where labels carry truncated ids, `PrefixFree` says that no id can be mistaken for another after
truncation. Text is ASCII where the code folds case or classifies characters. The cron service is modelled
as a table that stores the milliseconds of an interval as `_duration_ms` reads them.

## What the proofs found

- **A retry limit of zero opens the merge gate.** The reconciler counts one failure for a card without a
  failure record, and `max_retries` may be 0. Then every waiting card of a fresh workflow is over budget and
  the first pass hands it out as READY, the merge card included, whatever its dependencies
  (`ReconciledWorkflow.FirstPassReleasesIff`, `ReconciledWorkflow.ZeroRetriesOpenTheMergeGate`). With a
  limit of at least one the gate holds in every mixture of worker steps, promotions, further cards and
  passes, so over all of them it holds exactly then (`MixedRuns.MergeGateHoldsIff`).
- **Unguarded retries.** Three sites create retries without consulting the budget: a failed original merge
  card, a blocked merge card, and a stale final review (`RetryTree.PassRetriesExhaustedIff` gives the exact
  condition). All other stages are bounded over every run.
- **What a pass cancels the next pass hands out again.** The reason of a cancellation is stored where no
  reader of blockers looks, so a recovery, or a retry of a stage that is no gate, counts as technically
  blocked once it is cancelled, and is READY again after the next pass (`PassRows.CancellationIsUndone`).
- **The reconciler's failure budget does not bind the direct store.** The store counts failures in a field
  that the reconciler does not read, so every pass hands out stalled work of a workflow again, however often
  it has failed, and never asks for a recovery (`Blockers.StalledWorkIsAlwaysHandedOut`). A block without
  the TECHNICAL prefix is not even counted by the store (`Blockers.UncountedTechnical`).
- **A pass can leave exhausted work without an open recovery.** It creates none while one is open, and the
  same pass may complete or cancel that one (`PassRows.StalledHasOpenRecovery`,
  `PassRows.OpenStaysOpenIff`).
- **An owner's blocker does not hold a repair.** The last repair of a blocked gate is handed out again
  within its budget although its worker has asked for the owner (`GateRepairs.OwnerBlockedRepairIff`). On
  every other card the blocker holds over all runs (`Blockers.GivenUpStaysBlocked`).
- **Recording a review can raise.** A decision that asks for input is refused, though well formed, when it
  does not verify an optional requirement that was verified, or verifies one on a blank answer
  (`Readiness.NeedsInputIsRecordedIff`).
- **Administrative writes can lose a worker's step.** Promotion is safe although it reads and writes in two
  transactions. Completing, unblocking, reclaiming or reassigning a card by hand is atomic on every
  interleaving exactly when the card was neither READY nor RUNNING as it started
  (`AdminWrites.AdminWriteIsAtomicIff`); what is lost otherwise can be a finished result
  (`AdminWrites.AdminWriteCanLoseCompletion`).
- **QA profiles can share a card.** Keys that become equal after normalisation share one card, which runs
  the first profile only (`QaCards.EveryProfileIsServedIff`). Without such keys a finished merge has run
  every profile on a card of its own (`QaCards.MergeRanEveryQa`).
- **The engine starves dependents.** It asks for eligible packages with an empty set of completed ones, so a
  package with dependencies is never eligible to it (`CourseSchedule.EngineSeesAllIff`).
- **Intervals that are not in their largest unit drift for ever.** A schedule of `60m` is read back as `1h`,
  so every pass edits it again (`Schedules.SecondPassIsQuietIff`).
- **Batching stalls** exactly when a continued marker is as long as the limit and the content does not fit
  behind the first marker (`Batching.DivergesIff`).
- **The three readers can read different heads.** A looser marker earlier in the field, or in the note when
  the merge gate reads the label, decides for the other two readers. `HeadAgreement` gives the exact
  conditions: when the completion gate reads what the merge gate reads (`CompletionAgreesIff`), when the
  reconciler does (`ReconcilerAgreesIff`), and when the gates read what the reconciler reads
  (`MergeReadsIff`, `ReadHeadIsSharedIff`). Two markers in one field (`FinalReview.TwoMarkersDisagree`), one
  in each field (`FieldsDisagree`) or a blank before the head (`BlankHidesHead`) are enough. The merge gate
  lower-cases the head and the completion gate does not (`CompletionGate.GatesSplitOnCase`).
- **New usage groups can lift a budget refusal.** The first attempt group replaces all direct groups, and
  the first group of any kind replaces the aggregates. A refusal is kept under every configuration exactly
  when no count behind it shrinks (`Usage.RefusalIsKeptIff`), which for these two cases is a condition on
  the new group alone (`Usage.FirstAttemptKeepsRefusalIff`, `Usage.FirstGroupKeepsRefusalIff`).
- **The proof check can raise.** A final-review marker with nothing but blanks after it raises an
  `IndexError` (`ProofErrors.ProofRaisesIff`), which ends the pass where it is: a pass raises exactly when
  some card whose proof it consults does, and leaves the board as the turns before made it
  (`Orchestration.WorkflowOrchestrator.Reconcile`).

The documentation of the repository names four blocker prefixes that belong to the owner; the code has a
fifth, `CANCELLED:`, and the model follows the code.

## Model

| member | source | states |
|---|---|---|
| `RetryChain.RetryDepth` | src/make_it_so/orchestration.py:2009-2030 | the walk terminates on every card list, cyclic labels included, and its result is the depth of the specification |
| `RetryChain.DepthCountsRetries` | src/make_it_so/orchestration.py:2009-2030 | that depth is the number of cards, itself included, that are reachable by retry links and carry a retry label |
| `RetryChain.DepthIsLevel` | src/make_it_so/orchestration.py:2009-2030 | on boards whose labels were written by the reconciler, it is the level of the card in the retry tree |
| `RetryChain.IsRetryDescendant` | src/make_it_so/orchestration.py:2093-2109 | the walk terminates and decides descent |
| `RetryChain.DescendsIsReachability` | src/make_it_so/orchestration.py:2093-2109 | descent is exactly: some reachable card is labelled as a retry of the ancestor |
| `RetryChain.HasValidRetryAncestor` | src/make_it_so/orchestration.py:988-1013 | the walk terminates; it raises exactly when an ancestor whose proof it consults does, and otherwise decides whether a proper ancestor has valid proof |
| `RetryChain.AncestorIsReachability` | src/make_it_so/orchestration.py:988-1013 | that is exactly reachability, in at least one step, of a card with valid proof |
| `RetryLabels.RetryTokenOfRetry` | src/make_it_so/orchestration.py:1189-1191 | the retry label written for a card reads back as that card, for ids of any length and any other labels |
| `RetryLabels.StageSurvives` | src/make_it_so/orchestration.py:2039-2042 | bounding labels never loses the stage of a card |
| `ReconcileInvariant.FreshRetryIsRecognised` | src/make_it_so/orchestration.py:1167-1242 | a freshly created retry is recognised as a retry of its source and a descendant of every ancestor of the source |
| `ReconcileOps.PassIsJustified` | src/make_it_so/orchestration.py:439-762 | every operation of a pass has its reason: completions rest on evidence, moves hit cards that are neither settled nor the owner's, retries respect the budget or come from an unguarded site |
| `BoardFold.FoldIsPointwise` | src/make_it_so/orchestration.py:486-762 | applying a pass one call at a time changes each old row only by the operations that name it, and adds exactly one row for each new key |
| `ReconcileInvariant.PassKeepsSound` | src/make_it_so/orchestration.py:439-762 | a pass keeps the board invariant: unique rows and keys, retry labels that name earlier cards of the same stage, attempt numbers that never outrun the cards counted |
| `ReconcileSafety.PassLeavesAlone` | src/make_it_so/orchestration.py:483-762 | a pass never changes a card that is DONE with a valid completion, nor an owner-blocked card of a stage other than repair or without a repair label |
| `ReconcileSafety.PassCompletesWithProof` | src/make_it_so/orchestration.py:546-645 | whenever a pass makes a card DONE or replaces its proof, the card then passes the proof check of its stage, on its own evidence or that of one of its retries |
| `ReconcileSafety.PassIsLocal` | src/make_it_so/orchestration.py:524-762 | a card without a repair label is changed only by its own turn in the pass |
| `ReconcileSafety.TodoIsReleasedIff` | src/make_it_so/orchestration.py:539-544 | a pass makes a TODO card without a repair label READY exactly when it is over its failure budget, whatever its dependencies |
| `ReconcileSafety.PromotedProofIsValid` | src/make_it_so/orchestration.py:1941-1954 | proof copied from a valid retry of the same stage is valid on the original card |
| `RetryBudget.PassKeepsBudget` | src/make_it_so/orchestration.py:2033-2036 | a pass never gives a guarded card at depth d more than limit - d direct retries |
| `RetryBudget.RunStaysBounded` | src/make_it_so/orchestration.py:570-582 | so it stays over every run of passes, newly enqueued cards, and arbitrary worker and operator changes that do not relabel cards |
| `RetryBudget.EnqueueKeepsBounded` | src/make_it_so/orchestration.py:382-425 | enqueuing a card that is neither a retry nor a repair keeps the board invariant and every retry budget |
| `RetryTree.FallingIsFactorial` | src/make_it_so/orchestration.py:2033-2036 | the product of the budgets down to depth k, times (L-k)!, is L! |
| `RetryTree.FamilyBound` | src/make_it_so/orchestration.py:2009-2036 | all retries of a stage, at any depth, are bounded by the retry limit alone |
| `RetryTree.RetriesAreBoundedOverRuns` | src/make_it_so/orchestration.py:2009-2036 | over every run from a board without retries a guarded stage has at most L!/(L-k)! retries at depth k, none below depth L, and a finite total |
| `RetryTree.PassRetriesExhaustedIff` | src/make_it_so/orchestration.py:524-762 | with the budget of a card used up, a pass still creates a retry of it exactly at the three unguarded sites |
| `PassOutcomes.BlockedOutcome` | src/make_it_so/orchestration.py:621-762 | a pass completes a technically blocked card on the evidence of its first proven retry, hands it out again to the same worker exactly if no gate or merge is waited for and its failures are within the limit, and else leaves it as it is; all other blocked cards stay as they are |
| `PassOutcomes.FinishedOutcome` | src/make_it_so/orchestration.py:546-620 | a card left for review becomes DONE exactly on its own valid completion or that of its first proven retry, with that record as its proof; a DONE card without valid completion takes over the evidence of that retry |
| `PassOutcomes.WaitingOutcome` | src/make_it_so/orchestration.py:486-544 | a waiting card over its budget goes to the captain with a clean record; otherwise a pass blocks it exactly when it retries proven work, or recovers a card that is over, and else leaves it |
| `PassOutcomes.IdleOutcome` | src/make_it_so/orchestration.py:524-622 | running, triaged and scheduled cards without a repair label come out unchanged |
| `PassCreations.TurnCreatesIff` | src/make_it_so/orchestration.py:524-762 | the turn of a card creates a card under a key exactly if the snapshot makes that retry, repair or recovery due |
| `PassCreations.KeysAfterPassIff` | src/make_it_so/orchestration.py:486-762 | after a pass a key is taken exactly if it was taken before or is due in the turn of some card |
| `PassRows.AddedRowServes` | src/make_it_so/orchestration.py:1167-1302 | every row that a pass adds is READY and reads back as the next retry, the repair or the next recovery of the card that its key names, with its stage, workflow, worker and parents |
| `PassRows.RetryAppearsIff` | src/make_it_so/orchestration.py:551-701 | a pass adds a retry of a card exactly when none is open and the card is retried at once, or its budget decides and is not used up |
| `PassRows.RepairAppearsIff` | src/make_it_so/orchestration.py:711-757 | a pass adds a repair of a gate exactly when the gate is blocked for a technical reason, nothing settles it, and it has no repair |
| `PassRows.RecoveryAppearsIff` | src/make_it_so/orchestration.py:1244-1302 | a pass adds a recovery of a card exactly when none is open and the budget of the card is used up in its own turn, that of the card it retries, or that of the gate it repairs |
| `PassRows.StalledWorkIff` | src/make_it_so/orchestration.py:758-762 | work that is blocked for a technical reason is READY after a pass, for the same worker, with the same record and without a new recovery, exactly when its failures are within the limit; otherwise it stays BLOCKED with a recovery that was open or is new |
| `PassRows.OpenStaysOpenIff` | src/make_it_so/orchestration.py:486-620 | an open card without a repair label is open after a pass exactly unless the pass cancels it as pointless or completes it with evidence |
| `PassRows.StalledHasOpenRecovery` | src/make_it_so/orchestration.py:1244-1264 | beyond the limit a recovery is open after the pass, unless the same pass has closed every one that was open before |
| `PassRows.CancellationIsUndone` | src/make_it_so/direct_orchestrator.py:155-159 | work that one pass cancels as pointless the next pass hands out again |
| `GateRepairs.TurnOnOtherRow` | src/make_it_so/orchestration.py:650-710 | the turn of a card changes the row of another exactly if it is a blocked gate and the other its repair: the repairs of a review asked too early are cancelled, otherwise the last repair is handed out again within its budget |
| `GateRepairs.PassOnRow` | src/make_it_so/orchestration.py:486-762 | a pass changes any row, repairs included, by the cancelling loops and then by its own turn and those of its gates, in the order of the table |
| `GateRepairs.OwnerBlockedRepairIff` | src/make_it_so/orchestration.py:702-709 | a repair blocked for the owner is handed out again exactly when its gate needs a repair, it is the last one, and its failures are within the limit |
| `CardReaders.FailuresAre` | src/make_it_so/orchestration.py:1844-1859 | the failure count is the recorded number, or else the number of attempts that failed, one at the least |
| `CardReaders.ReasonIs` | src/make_it_so/orchestration.py:1799-1820 | the reason of a block is what the worker said last, else the newest message of the log, else the newest error of an attempt, else that nothing is known |
| `CardReaders.EarlyReasonIff` | src/make_it_so/orchestration.py:1822-1830 | a final review counts as asked too early exactly for one of four phrases, in any case |
| `CardReaders.CompletionIff` | src/make_it_so/orchestration.py:950-975 | a completion is valid exactly with valid proof and, for final reviews and QA of a profile, with the live gate's consent |
| `CardReaders.ProofIff` | src/make_it_so/orchestration.py:1882-1914 | proof is a passed record, for a final review one whose note, or else whose label, names a commit behind the marker of the policy |
| `CardReaders.MergePredecessorIff` | src/make_it_so/orchestration.py:1136-1165 | a merge has its final review exactly if a finished one of its own workflow has proof and vouches for one of its links |
| `CardReaders.PredecessorsIff` | src/make_it_so/orchestration.py:1112-1134 | the predecessors of a card are complete exactly if it has links and each is vouched for by a finished card with a valid completion |
| `CardReaders.ExhaustedIff` | src/make_it_so/orchestration.py:2033-2036 | a budget is used up exactly when retry depth and the number of retries together reach the limit |
| `CardReaders.OpenRecoveryIff` | src/make_it_so/orchestration.py:1250-1262 | a recovery is open exactly if some card labelled as one is neither archived nor DONE nor BLOCKED |
| `CardReaders.RetryTokenIs` | src/make_it_so/orchestration.py:1982-1988 | the retried card is the one that the last retry label names |
| `CardReaders.BoundedLabelFits` | src/make_it_so/orchestration.py:2039-2042 | a bounded label has at most forty characters; one that fits is kept, a longer one is cut and ends in dots |
| `CardReaders.PassedIff` | src/make_it_so/orchestration.py:1941-1954 | a record counts as passed in any spelling of the word |
| `CardReaders.CancelledIff` | src/make_it_so/orchestration.py:1833-1841 | a card is cancelled exactly if a comment starts with the word and a colon, in any spelling |
| `EnqueuedRetries.BuiltIsSound` | src/make_it_so/orchestration.py:1388-1475 | every enqueued workflow satisfies the board invariant and has no retries, repairs or recoveries |
| `EnqueuedRetries.BuiltRetriesAreBounded` | src/make_it_so/orchestration.py:2009-2036 | the retry bound holds for every stage, other than merge and final review, of every built workflow over every run, further workflows and discovered QA cards included |
| `EnqueuedRetries.PlansAreEnqueued` | src/make_it_so/orchestration.py:1388-1475 | the cards of every workflow are neither retries nor repairs, so they may be enqueued in such a run |
| `EnqueuedRetries.DiscoveredQaIsEnqueued` | src/make_it_so/orchestration.py:863-889 | and so may the QA cards for paths discovered on a pull request |
| `ReconciledWorkflow.FirstPassReleasesIff` | src/make_it_so/orchestration.py:1844-1868 | the first pass over a fresh workflow releases a waiting card of any stage, done dependencies or not, exactly when the retry limit is zero |
| `ReconciledWorkflow.ZeroRetriesOpenTheMergeGate` | src/make_it_so/orchestration.py:539-544 | with a retry limit of zero the first pass makes the merge card READY while its final review is not DONE |
| `MixedRuns.MergeGateSurvivesPasses` | src/make_it_so/orchestration.py:1497-1551 | with at least one retry, in every reachable state of worker steps, split promotions, further cards and passes a merge card that has left TODO has all its gates DONE, and whatever is DONE stays DONE |
| `MixedRuns.MergeGateHoldsIff` | src/make_it_so/orchestration.py:539-544 | the merge gate holds over all mixed runs of an auto-merge workflow exactly when its retry limit is at least one |
| `MixedRuns.OrdinaryAfterPass` | src/make_it_so/orchestration.py:524-762 | a pass leaves a waiting card of a built workflow waiting, a DONE one DONE, and makes none wait |
| `MixedRuns.PassKeepsInv` | src/make_it_so/direct_orchestrator.py:155-175 | a pass keeps the invariant of the lease protocol: it completes no claimed card, and every card it moves is unclaimed |
| `ProofErrors.ProofRaisesIff` | src/make_it_so/orchestration.py:1882-1914 | the proof check raises exactly for a final review whose newest passed record ends at its marker: in the note, or in the label when the note names no commit |
| `ProofErrors.BareMarkerRaises` | src/make_it_so/orchestration.py:1911 | a note that is the marker and blanks raises, whatever the label says |
| `ProofErrors.CheckProof` | src/make_it_so/orchestration.py:1882-1914 | the check over the two fields raises in exactly that case and otherwise decides validity |
| `Inspections.FindProven` | src/make_it_so/orchestration.py:977-986 | the search for a retry with proof raises exactly when a descendant that it consults before the first valid one does, and otherwise finds that one |
| `Inspections.CheckMergePredecessor` | src/make_it_so/orchestration.py:1136-1165 | all finished final reviews of the workflow are checked, so any of them can raise; otherwise the answer is whether one with proof stands for a parent |
| `Inspections.CheckPredecessors` | src/make_it_so/orchestration.py:1112-1134 | the two loops stop at the first evidence for a parent and at the first parent without any, and raise exactly when a card consulted until then does |
| `Turns.TurnStaysWithin` | src/make_it_so/orchestration.py:524-762 | the turn of a card adds at most one row: its next retry unless one is open or its budget is used up outside the unguarded sites, its first repair, or the next recovery unless one is open; and it changes no row but its own and those of its repairs |
| `Orchestration.WorkflowOrchestrator.Reconcile` | src/make_it_so/orchestration.py:439-762 | raises exactly when some card whose proof some turn consults does, leaving the board as the turns before the first such turn make it; otherwise the loops over the snapshot leave the board of the specified pass |
| `Orchestration.WorkflowOrchestrator.ReconcileCard` | src/make_it_so/orchestration.py:524-762 | a turn raises exactly when a card that it consults does, and then changes nothing; otherwise it stays within what the turn of the card may do |
| `Orchestration.WorkflowOrchestrator.CancelSuperseded` | src/make_it_so/orchestration.py:483-522 | each of the three cancelling loops reclaims exactly the superseded waiting cards, up to the first card whose test raises |
| `Orchestration.WorkflowOrchestrator.EnqueuePlans` | src/make_it_so/orchestration.py:382-425 | creating cards in order with parents looked up in the local table leaves the specified board |
| `Orchestration.WorkflowOrchestrator.Enqueue` | src/make_it_so/orchestration.py:382-437 | for every action, policy and selection |
| `LeaseProtocol.BehaviourKeepsInv` | src/make_it_so/direct_orchestrator.py:265-461 | in every reachable state a card is claimed exactly while it is RUNNING, by one token that was issued |
| `LeaseProtocol.DeadCredentialNeverWrites` | src/make_it_so/direct_orchestrator.py:543-566 | once a credential's claim is released, cancelled, taken over or expired, no step that presents it ever changes the card again, under any interleaving |
| `LeaseProtocol.TokenFinishesOnce` | src/make_it_so/direct_orchestrator.py:345-387 | of all completions and blocks that present one token at most one succeeds |
| `LeaseProtocol.LaterClaimFences` | src/make_it_so/direct_orchestrator.py:265-307 | after a second successful claim the first credential is powerless for good |
| `LeaseProtocol.OnlyHolderWrites` | src/make_it_so/direct_orchestrator.py:389-461 | a claimed card is changed only by its own credential, a cancellation, the expiry of its lease or an administrative write |
| `LeaseProtocol.LeaseProtects` | src/make_it_so/direct_orchestrator.py:328-343 | after a successful claim or heartbeat, a recovery that observes a time before the end of the new lease changes nothing |
| `LeaseProtocol.FailuresAreCounted` | src/make_it_so/direct_orchestrator.py:366-387 | over every run without administrative writes a card's failure counter grows by exactly the number of its technical blocks and lease recoveries, and its retry limit never moves |
| `LeaseProtocol.RecoveryReleasesIff` | src/make_it_so/direct_orchestrator.py:418-461 | lease recovery hands a card out again exactly while the failures of the run, this one included, stay within the card's retry limit, and blocks it after that |
| `LeaseAnswers.ClaimIff` | src/make_it_so/direct_orchestrator.py:265-307 | a claim is granted exactly to a named owner with a token for a known READY card that nobody holds; only that row changes, and it is held until the lease ends |
| `LeaseAnswers.HolderIsHeardIff` | src/make_it_so/direct_orchestrator.py:543-566 | heartbeat, completion and block are accepted exactly from credentials that match the claim before it runs out |
| `LeaseAnswers.HeartbeatIs` | src/make_it_so/direct_orchestrator.py:328-343 | a heartbeat moves the end of the lease and nothing else |
| `LeaseAnswers.CompletionIs` | src/make_it_so/direct_orchestrator.py:345-364 | a completion leaves the card DONE with the worker's proof and the past claim without its token, and changes no other row |
| `LeaseAnswers.BlockIs` | src/make_it_so/direct_orchestrator.py:366-387 | a block leaves the card BLOCKED under its reason, and counts as a failure exactly if the reason says that it is technical |
| `LeaseAnswers.CancelIff` | src/make_it_so/direct_orchestrator.py:389-416 | a cancellation is accepted exactly from a named requester with a reason, of a held card, and counts as no failure |
| `LeaseAnswers.RecoverIff` | src/make_it_so/direct_orchestrator.py:418-461 | a claim is taken back exactly when its lease has ended by the time observed, to READY within the limit and to BLOCKED beyond it |
| `Blockers.OwnerReasonIff` | src/make_it_so/orchestration.py:60-77 | a reason is taken for an owner's exactly if it starts, after blanks and in any case, with one of the five prefixes |
| `Blockers.BlockIsRead` | src/make_it_so/direct_orchestrator.py:366-387 | after an accepted block the card is BLOCKED and unclaimed, its past claim is on record without the token, the reconciler reads the worker's reason, and takes the card for an owner's exactly if the reason is one |
| `Blockers.CancelIsRead` | src/make_it_so/direct_orchestrator.py:389-416 | after an accepted cancellation the card reads as cancelled by its owner, under the reason given |
| `Blockers.ExpiryIsRead` | src/make_it_so/direct_orchestrator.py:418-461 | a card whose lease ran out carries a technical reason and no claim |
| `Blockers.CountedIsTechnical` | src/make_it_so/direct_orchestrator.py:374-379 | a block counts as a failure exactly if its reason starts with TECHNICAL, and such a reason is technical to the reconciler too |
| `Blockers.HeldStaysHeld` | src/make_it_so/orchestration.py:621-627 | over every stretch of worker steps, promotions, further cards and passes a card blocked for its owner stays exactly as it is |
| `Blockers.GivenUpStaysBlocked` | src/make_it_so/orchestration.py:1799-1820 | so what a worker gives up for the owner, or an operator cancels, stays BLOCKED and unclaimed under the reason given |
| `Blockers.StalledWorkIsAlwaysHandedOut` | src/make_it_so/orchestration.py:1844-1859 | in every reachable state of a workflow with at least one retry, every pass hands stalled work out again, however often it has failed, and asks for no recovery |
| `LeaseProtocol.StepRefinesAtomic` | src/make_it_so/direct_orchestrator.py:184-199 | when a split promotion writes, the card is still TODO as read and all its parents are still DONE: the write is an atomic promotion |
| `LeaseProtocol.BehaviourRefinesAtomic` | src/make_it_so/direct_orchestrator.py:604-613 | every interleaving with split promotions is a run of the system with atomic promotions |
| `AdminWrites.AdminWriteIsAtomicIff` | src/make_it_so/direct_orchestrator.py:132-175 | over all four administrative operations: the write has the effect of the whole operation on the card as it then is, under every interleaving of workers, exactly when the card was neither READY nor RUNNING at the first read |
| `AdminWrites.IdleCardIsSafe` | src/make_it_so/direct_orchestrator.py:604-613 | the card that is read twice and written is the same throughout, if no worker has or can have it |
| `AdminWrites.WorkIsLost` | src/make_it_so/direct_orchestrator.py:604-613 | for every READY or RUNNING card and every operation there is an interleaving whose worker step the write undoes |
| `AdminWrites.AdminWriteCanLoseCompletion` | src/make_it_so/direct_orchestrator.py:155-159 | that step can be a completion: whatever the operation, a READY card that is claimed and completed during it ends as if it never had been |
| `DirectStore.DirectOrchestrator.CreateCard` | src/make_it_so/direct_orchestrator.py:99-130 | a known key returns its row untouched, a new key appends exactly one row, and the indexes stay consistent |
| `DirectStore.DirectOrchestrator.Update` | src/make_it_so/direct_orchestrator.py:604-613 | one row gets the named changes, or an unknown id is refused without effect |
| `DirectStore.DirectOrchestrator.CompleteCard` | src/make_it_so/direct_orchestrator.py:132-146 | the row is DONE with the given proof and keeps its claim |
| `DirectStore.DirectOrchestrator.UnblockCard` | src/make_it_so/direct_orchestrator.py:148-153 | the row is TODO without claim and protocol state |
| `DirectStore.DirectOrchestrator.ReclaimCard` | src/make_it_so/direct_orchestrator.py:155-159 | the row has the given status and no claim |
| `DirectStore.DirectOrchestrator.ReassignCard` | src/make_it_so/direct_orchestrator.py:161-175 | the row has the new agent and status, no claim, and on request no failures |
| `DirectStore.DirectOrchestrator.ClaimCard` | src/make_it_so/direct_orchestrator.py:265-307 | the row becomes the claimed one of the protocol step, or the request is refused with the step's error and no effect |
| `DirectStore.DirectOrchestrator.ClaimedUpdate` | src/make_it_so/direct_orchestrator.py:543-566 | the update happens exactly under a live claim with matching owner and token |
| `DirectStore.DirectOrchestrator.HeartbeatCard` | src/make_it_so/direct_orchestrator.py:328-343 | equals the protocol's heartbeat step |
| `DirectStore.DirectOrchestrator.CompleteClaimedCard` | src/make_it_so/direct_orchestrator.py:345-364 | equals the protocol's completion step |
| `DirectStore.DirectOrchestrator.BlockClaimedCard` | src/make_it_so/direct_orchestrator.py:366-387 | equals the protocol's block step |
| `DirectStore.DirectOrchestrator.CancelClaimedCard` | src/make_it_so/direct_orchestrator.py:389-416 | equals the protocol's cancellation step |
| `DirectStore.DirectOrchestrator.ClaimNextCard` | src/make_it_so/direct_orchestrator.py:309-326 | claims the first READY, matching, unclaimed row in row order; reports none exactly when there is none |
| `DirectStore.DirectOrchestrator.RecoverExpiredClaims` | src/make_it_so/direct_orchestrator.py:418-461 | afterwards exactly the overdue rows are released or blocked, all others are unchanged, and the report lists them in row order |
| `DirectStore.DirectOrchestrator.Dispatch` | src/make_it_so/direct_orchestrator.py:184-209 | afterwards exactly the waiting rows whose parents were DONE after recovery are READY |
| `DirectStore.SnapshotTestIsLive` | src/make_it_so/direct_orchestrator.py:186-198 | testing the rows read before the promotion loop gives the same answer as testing the live table |
| `DirectStore.DispatchSettles` | src/make_it_so/direct_orchestrator.py:184-199 | after one dispatch no lease is overdue and nothing more can be promoted |
| `DirectStore.DispatchIsARun` | src/make_it_so/direct_orchestrator.py:184-199 | one dispatch is a run of protocol steps: recoveries, then promotions |
| `Workflow.StageSequence` | src/make_it_so/orchestration.py:1477-1551 | the appending loop builds the stage rows of the specification |
| `Workflow.RowsAreOrdered` | src/make_it_so/orchestration.py:1497-1551 | every dependency of a stage names the root or an earlier stage, for every action, policy and selection |
| `WorkflowShape.StagesAreCounted` | src/make_it_so/orchestration.py:1477-1551 | every stage occurs as often as action and policy ask: one implementation for an action that implements, one repair for a repair, neither for any other; one QA card for each selected profile |
| `WorkflowShape.RowsMean` | src/make_it_so/orchestration.py:1497-1551 | review and QA wait for the implementation or the repair alone, or for the root if there is none; the final review for the review and all QA; the merge for the final review; and every profile has its row |
| `WorkflowShape.QaKeyIsSafe` | src/make_it_so/orchestration.py:1634-1637 | a QA key is short and safe and keeps the safe characters of the profile key in place |
| `WorkflowShape.PlannedCardReads` | src/make_it_so/orchestration.py:1419-1463 | the card of a row reads back as its stage and its workflow, runs its profile, and goes to the worker of the stage |
| `WorkflowShape.WorkflowLabelsFit` | src/make_it_so/orchestration.py:2050-2056 | workflow labels fit the label limit, and short action ids never share one |
| `WorkflowShape.NothingStartsBeforeTheChange` | src/make_it_so/orchestration.py:1504-1512 | in every reachable state of a workflow that changes code, a card of any other stage that has left TODO has the implementation, or the repair, DONE |
| `WorkflowShape.NothingStartsBeforeTheChangeMixed` | src/make_it_so/orchestration.py:1504-1512 | the same with reconcile passes and further cards mixed in, for at least one retry |
| `Workflow.WorkflowIsCreatable` | src/make_it_so/orchestration.py:402-412 | so no parent lookup of enqueue can fail |
| `Enqueue.CreationsExtend` | src/make_it_so/orchestration.py:399-412 | creating plans builds a graph of keys that does not depend on the ids drawn |
| `Enqueue.EnqueueBuilds` | src/make_it_so/orchestration.py:382-425 | the graph that one uninterrupted enqueue leaves, whatever ids it draws |
| `Enqueue.ResumeEqualsOneRun` | src/make_it_so/orchestration.py:382-437 | interrupt enqueue after any prefix of its creations and run it again under other ids: the key-to-card graph is that of one uninterrupted run |
| `Enqueue.RerunOnlyCompletesRoot` | src/make_it_so/orchestration.py:382-425 | running enqueue again on a later board changes nothing but the root card |
| `WorkflowRuns.StepShape` | src/make_it_so/direct_orchestrator.py:184-461 | every worker or promotion step changes at most one card, along its status order, and lowers its weight unless it is a heartbeat |
| `WorkflowRuns.RunKeepsGated` | src/make_it_so/direct_orchestrator.py:184-199 | in every reachable state a card that has left TODO has all parents DONE, and what is DONE stays DONE |
| `WorkflowRuns.ProgressIsBounded` | src/make_it_so/direct_orchestrator.py:418-461 | a run makes at most as many progress steps as the measure of remaining failure budgets and status ranks |
| `WorkflowRuns.QuiescentIsFinishedOrBlocked` | src/make_it_so/direct_orchestrator.py:184-199 | when nothing can be promoted and nothing is READY or RUNNING, all is DONE or something is BLOCKED |
| `BuiltWorkflow.BuiltIsLaunched` | src/make_it_so/orchestration.py:382-425 | every workflow materialises with the root DONE, everything else TODO and untouched, and parents before children |
| `BuiltWorkflow.BuiltHolds` | src/make_it_so/orchestration.py:402-412 | every planned card exists and its parents are the cards of its parent keys |
| `BuiltWorkflow.MergeWaitsForItsGates` | src/make_it_so/orchestration.py:1497-1551 | in every reachable state of the split protocol a merge card that has left TODO has its final review, review, first coding stage and every QA card DONE, and they stay DONE |
| `BuiltWorkflow.MergeImpliesQa` | src/make_it_so/orchestration.py:1514-1533 | once the merge is DONE every declared or inferred surface and every check lies in a profile whose QA card is DONE |
| `BuiltWorkflow.WorkflowRunsAreFinite` | src/make_it_so/direct_orchestrator.py:418-461 | progress in any run is bounded by the number of plans and the retry limit alone |
| `BuiltWorkflow.WorkflowNeverSticks` | src/make_it_so/direct_orchestrator.py:184-199 | a built workflow never gets stuck on its own dependencies |
| `QaCards.CardRunsFirstProfile` | src/make_it_so/orchestration.py:1514-1523 | the card of a QA profile runs the first profile with the same normalised key |
| `QaCards.EveryProfileIsServedIff` | src/make_it_so/orchestration.py:1634-1636 | every profile is run by its card exactly when different keys stay different after normalisation |
| `QaCards.SecondProfileIsDropped` | src/make_it_so/orchestration.py:1634-1636 | a concrete pair of profiles of which the second is never run |
| `QaCards.MergeRanEveryProfile` | src/make_it_so/orchestration.py:1514-1533 | if different keys stay different, then once the merge is DONE every profile has been run by a DONE card that runs this profile |
| `QaCards.MergeRanEveryQa` | src/make_it_so/orchestration.py:1514-1533 | and so every declared or inferred surface and every check lies in a profile that a card of its own has run |
| `Qa.InferSurfaces` | src/make_it_so/qa.py:72-103 | the result is exactly the surfaces that some path touches, or CUSTOM |
| `Qa.InferredIsExact` | src/make_it_so/qa.py:72-103 | a surface is inferred exactly when some path touches it; CUSTOM exactly when no path touches any |
| `Qa.TriggersIff` | src/make_it_so/qa.py:72-103 | a path touches a surface exactly by that surface's own suffixes, names or directories; none touches CUSTOM |
| `Qa.MorePathsMoreSurfaces` | src/make_it_so/qa.py:72-103 | more changed paths never drop a surface other than CUSTOM |
| `Qa.SelectWithBuiltIns` | src/make_it_so/qa.py:118-138 | every needed surface has a selected profile; the result is the configured ones that apply, in order, and then one built-in for each surface that they leave uncovered |
| `Qa.SelectQa` | src/make_it_so/qa.py:106-166 | every declared or inferred surface and every repository or manifest check lies in some selected profile; surfaces, profiles and roles are exactly the specified ones |
| `QaSelection.NeededIff` | src/make_it_so/qa.py:112-117 | a surface is needed exactly if it is declared or touched; CUSTOM also where the paths touch nothing, or where nothing is known |
| `QaSelection.SourcesAre` | src/make_it_so/qa.py:113-118 | the repository's own surfaces and profiles come first, the manifest stands in where it has none and adds its checks |
| `QaSelection.AppliesIff` | src/make_it_so/qa.py:119-129 | a configured profile applies exactly if it is enabled and names no surface, one that is needed, or CUSTOM |
| `QaSelection.CoveredIff` | src/make_it_so/qa.py:130-135 | profiles cover the surfaces that they name, but CUSTOM keeps a gate of its own |
| `QaSelection.BuiltInIs` | src/make_it_so/qa.py:24-70 | a built-in profile gates one surface under its own key; only the one for web interfaces asks for a UX reviewer, where UX review is on |
| `QaSelection.RoleIff` | src/make_it_so/qa.py:155-163 | a UX reviewer is assigned exactly if the profile asks for one or touches a web interface |
| `QaSelection.RolesAre` | src/make_it_so/qa.py:155-163 | of profiles that share a key the last one decides who reviews |
| `QaSelection.RemainingChecksAre` | src/make_it_so/qa.py:142-154 | the checks that no profile runs are run by exactly one profile more, and without such checks there is none |
| `CourseGraph.Search.Visit` | src/make_it_so/models.py:829-839 | the recursive visit terminates; it either completes a dependency order of what it visited or exhibits a real cycle |
| `CourseGraph.ValidateGraph` | src/make_it_so/models.py:796-845 | accepts exactly the valid courses; acceptance yields an order with dependencies first, and every rejection is justified, a cycle by a real one |
| `CourseGraph.OrderExcludesCycles` | src/make_it_so/models.py:826-842 | a dependency order of all packages rules out every cycle |
| `CourseSchedule.EligibleWorkPackages` | src/make_it_so/courses.py:228-255 | the loop returns exactly the eligible packages, in course order |
| `CourseSchedule.LinkedKeysAreLinks` | src/make_it_so/courses.py:244-253 | the lookup by key finds every linked checkpoint, in either direction, and tests all of them |
| `CourseSteps.EligibleIff` | src/make_it_so/courses.py:228-255 | a package is eligible exactly on an engaged course, if it is startable, what it depends on is completed, and every checkpoint that either names is decided |
| `CourseSchedule.WorkNeverRunsDry` | src/make_it_so/courses.py:228-255 | with all checkpoints passed and unfinished packages startable, some package is eligible until all are completed |
| `CourseSchedule.RunIsInOrder` | src/make_it_so/courses.py:228-255 | completing eligible packages visits each at most once, dependencies first |
| `CourseSchedule.MaximalRunCompletesAll` | src/make_it_so/courses.py:228-255 | a run that cannot go on has completed every package |
| `CourseSchedule.HoldWithholdsExactlyLinked` | src/make_it_so/courses.py:185-211 | a checkpoint on hold withholds exactly the packages linked to it, in either direction |
| `CourseSchedule.EngineSeesAllIff` | src/make_it_so/engine.py:1029 | asking with an empty set shows everything eligible exactly when nothing eligible has dependencies |
| `CourseSchedule.EngineStarves` | src/make_it_so/engine.py:1029 | a course whose second package can start and is never offered |
| `Readiness.ReadinessReport` | src/make_it_so/courses.py:44-81 | ready exactly when nothing required is open and the review is current; the lists partition the required requirements |
| `Readiness.ResolutionKeepsReviewIff` | src/make_it_so/courses.py:116-156 | a change of a requirement keeps the review current exactly when it changes neither the answer nor the waiver |
| `Readiness.ExecutionKeepsReview` | src/make_it_so/readiness.py:101-160 | over any run of package, checkpoint, approval, pause and resume steps the review stays as current as it was |
| `Readiness.EngagedIsApproved` | src/make_it_so/courses.py:165-225 | over any such run an engaged or paused course carries its approval and was ready when approved |
| `Readiness.ApplyReview` | src/make_it_so/readiness.py:197-301 | a review is recorded exactly when it has the required categories and the keys of the course, a ready verdict has packages and leaves nothing required unsupported, and every updated requirement is valid; the fingerprint is that of the updated course, and it is current exactly for a ready verdict |
| `Readiness.NeedsInputIsRecordedIff` | src/make_it_so/readiness.py:219-301 | a well-formed decision that asks for input is recorded, and is never current, exactly when no optional requirement loses its verification or is verified without an answer |
| `CourseSteps.ReviewIsRecordedIff` | src/make_it_so/readiness.py:197-301 | any decision is recorded exactly if a named model gives it, it speaks of the required categories and of the requirements of the course, a ready verdict has work and leaves nothing blocked or unverified, and no requirement loses its proof |
| `CourseSteps.AssessmentIs` | src/make_it_so/readiness.py:232-263 | a waiver stays, a verification on an answer with evidence is signed, and every other requirement loses its signature and is blocked if required |
| `Readiness.RecordableIff` | src/make_it_so/models.py:664-682 | an assessed requirement is valid exactly if it is recordable |
| `Readiness.ReadyAfterReviewIff` | src/make_it_so/readiness.py:219-260 | after a ready verdict nothing required is open exactly when each has an answer and review evidence or is waived |
| `CourseSteps.ResolvableIff` | src/make_it_so/courses.py:116-156 | a resolution is accepted exactly with an answer where one is needed, independent provenance for a verification, and the owner's decision for a required waiver |
| `CourseSteps.ResolvedIs` | src/make_it_so/courses.py:139-156 | it changes that requirement alone, to what was given; a verification records when and by whom, any other resolution forgets it |
| `CourseSteps.ReportLists` | src/make_it_so/courses.py:44-81 | the report lists exactly the required requirements that are open, those of them that are the owner's, and the settled ones |
| `CourseSteps.CurrentIff` | src/make_it_so/courses.py:56-69 | a review is current exactly if it was ready, complete, without a blocked category, and of these very inputs |
| `CourseSteps.ApprovalIff` | src/make_it_so/courses.py:165-182 | a course is engaged exactly with an approver, work, nothing required open and a current review; nothing else of it changes |
| `CourseSteps.PauseAndResume` | src/make_it_so/courses.py:214-225 | on an approved course pausing and resuming undo each other, and each is accepted only where the other leaves off |
| `CourseSteps.PackageIsRestored` | src/make_it_so/courses.py:258-269 | setting a status and then the old one gives the old course |
| `CourseSteps.CheckpointIsResolved` | src/make_it_so/courses.py:185-211 | a checkpoint is decided exactly if somebody stands for a decision that is the owner's; it names who, and a hold keeps who decided before |
| `Batching.BaselineBatches` | src/make_it_so/baseline.py:446-500 | terminates unless a continued marker meets the limit exactly; every batch is within the limit and not empty; every piece follows a marker of its section and the pieces add up to its content in order |
| `Batching.PlaceSection` | src/make_it_so/baseline.py:478-497 | the loop over one section ends in the state that finitely many of its iterations lead to |
| `Batching.DivergesIff` | src/make_it_so/baseline.py:480-497 | the loop runs for ever exactly when the continued marker is as long as the limit and the content does not fit behind the first marker |
| `Batching.OrdinaryTitlesFit` | src/make_it_so/baseline.py:45 | at the program's limit titles shorter than it by more than the marker's ending neither stall nor raise |
| `FinalReview.ReadMergeHead` | src/make_it_so/merge_gate.py:13-33 | the reversed search reads the newest passed record of a finished final review and nothing else |
| `FinalReview.ReadCompletionHead` | src/make_it_so/completion_gate.py:217-248 | the reversed search reads the newest passed record and nothing else |
| `FinalReview.GroupIsRun` | src/make_it_so/completion_gate.py:226 | however greedy the match, the captured head is the whole run of digits |
| `FinalReview.HistoryNeverMatters` | src/make_it_so/orchestration.py:1882-1914 | records older than a passed one change none of the three readers |
| `FinalReview.NewerRecordRevokes` | src/make_it_so/merge_gate.py:29-33 | a newer passed record without the marker revokes the authorisation in all three readers |
| `FinalReview.ReadersAgree` | src/make_it_so/orchestration.py:1882-1914 | one marker in the newest passed record is enough: what the merge gate accepts the other two accept with the same head up to case |
| `FinalReview.TwoMarkersDisagree` | src/make_it_so/merge_gate.py:10 | two markers in one field, the first with a full stop behind its head: the two gates read different heads |
| `HeadAgreement.CompletionAgreesIff` | src/make_it_so/completion_gate.py:217-248 | whenever the merge gate reads a head, the completion gate reads one too, and the same one up to case exactly when the first looser match before it, in the field or in the note when the head is in the label, names no other |
| `HeadAgreement.ReconcilerAgreesIff` | src/make_it_so/orchestration.py:1882-1914 | and the reconciler reads the same head exactly when the first marker is followed by it, or by no commit while the other field names it |
| `HeadAgreement.MergeReadsIff` | src/make_it_so/merge_gate.py:10-33 | conversely the merge gate reads a given head exactly when it follows the first marker that stands alone, in the note or else in the label |
| `HeadAgreement.ReadHeadIsSharedIff` | src/make_it_so/merge_gate.py:10 | on a field with one marker whose head the reconciler reads, the merge gate reads it exactly when marker and head stand between blanks, the completion gate exactly when the head stands right behind the marker up to the end of a word |
| `HeadAgreement.FieldsDisagree` | src/make_it_so/completion_gate.py:226-248 | one marker in each field: the merge gate passes over a note with a full stop and reads the label, the other two read the note |
| `HeadAgreement.BlankHidesHead` | src/make_it_so/orchestration.py:1911 | a blank between marker and head: read by the reconciler, by neither gate |
| `CompletionGate.MergeIsAuthorisedIff` | src/make_it_so/policy.py:76-95 | a merge is authorised exactly for an autonomous auto-merge repository, a clean pull request, and a finished review whose newest passed record names the current head |
| `CompletionGate.RevokedMergeStaysRevoked` | src/make_it_so/merge_gate.py:36-49 | no history authorises a merge that the newest record does not |
| `CompletionGate.Validate` | src/make_it_so/completion_gate.py:40-115 | the branches decide exactly acceptance as specified |
| `CompletionGate.FindEvidence` | src/make_it_so/completion_gate.py:86-100 | the search finds evidence exactly when some card of the profile has it |
| `CompletionGate.AcceptedReviewIsLive` | src/make_it_so/completion_gate.py:40-115 | an accepted review names the live head of a clean pull request; with tracked QA every required surface has evidence for that head |
| `CompletionEvidence.CompletionHeadIff` | src/make_it_so/completion_gate.py:217-248 | the search of a field reads a head exactly if it is that of the first marker with a commit right behind it up to the end of a word |
| `CompletionEvidence.QaEvidenceIff` | src/make_it_so/completion_gate.py:166-214 | QA evidence counts exactly if the newest passed record names the live head up to case in its label, or else in its note, and holds model, provider and evidence, on all five points for a web interface |
| `CompletionEvidence.VerdictsDoNotCross` | src/make_it_so/policy.py:76-140 | each policy allows exactly its own verdict on a clean pull request at the reviewed head, and control-plane completion also the merge verdict |
| `CompletionEvidence.EvaluatorsIff` | src/make_it_so/policy.py:76-140 | each evaluator by itself allows exactly its policy's verdict on a clean pull request at the reviewed head, and asks the owner exactly where policy or verdict are not its own |
| `CompletionEvidence.AcceptedReviewIff` | src/make_it_so/completion_gate.py:62-115 | a final review is accepted exactly if it names a head that the policy allows on the only pull request, and with tracked QA every required profile is shown for the live head by some card |
| `CompletionEvidence.AcceptedQaIff` | src/make_it_so/completion_gate.py:47-61 | a QA card is accepted exactly if it shows its profile for the live head |
| `CompletionEvidence.StaleQaIsRefused` | src/make_it_so/completion_gate.py:74-100 | a required profile whose cards all name another head, or none, makes the gate refuse the final review |
| `CompletionEvidence.StaleCardIsRefused` | src/make_it_so/completion_gate.py:166-196 | a QA card of a required profile with a stale newest record is refused |
| `CompletionEvidence.NewerUnmarkedIsStale` | src/make_it_so/completion_gate.py:174-196 | a newer passed record without the marker makes the card stale for every head |
| `CompletionGate.GatesSplitOnCase` | src/make_it_so/merge_gate.py:28 | what the merge gate authorises the completion policy accepts exactly when the head is written in lower case |
| `Intervals.PrintThenParse` | src/make_it_so/scheduler.py:277-285 | the scheduler's parser undoes the plugin's printer on everything that can be printed |
| `Intervals.ParseThenPrintIff` | openclaw-plugin/src/schedules.ts:153-160 | the printer undoes the parser exactly on intervals written in their largest unit |
| `Intervals.PrintsIff` | openclaw-plugin/src/schedules.ts:153-160 | a number of milliseconds is read as a given interval exactly when the interval means that number and is written in its largest unit |
| `Schedules.InspectCronJob` | openclaw-plugin/src/schedules.ts:92-118 | primary and duplicates are all jobs of the name; a job with an interval shows no drift exactly when an edit would change nothing and the interval is written in its largest unit |
| `Schedules.NoDriftIff` | openclaw-plugin/src/schedules.ts:100-112 | the same, and for a job that only has an interval text: exactly when text and command are those of the definition |
| `Schedules.CommandOfHost` | openclaw-plugin/src/schedules.ts:53-63 | a command runs as declared, under the host's interpreter if it names one, with the host's configuration behind it |
| `Schedules.ReconcileOne` | openclaw-plugin/src/index.ts:390-403 | one definition is left with one job, configured or without drift; its primary keeps its id and stays paused or enabled; other jobs are untouched; no command is issued exactly when there was nothing to do |
| `Schedules.ReconcileSchedules` | openclaw-plugin/src/index.ts:383-406 | one pass does this for every definition and leaves unmanaged jobs alone |
| `Schedules.SecondPassIsQuietIff` | openclaw-plugin/src/index.ts:383-406 | after a pass the next one issues no command exactly when each interval is canonical or showed no drift to begin with |
| `Schedules.HealthAfterPass` | openclaw-plugin/src/index.ts:363-382 | after a pass nothing is missing or duplicated, and a canonical definition is healthy or still paused |
| `Schedules.HealthIff` | openclaw-plugin/src/index.ts:363-382 | missing, duplicate, drifted, healthy and paused mean exactly that of the table |
| `Schedules.MutateOne` | openclaw-plugin/src/index.ts:416-423 | pausing, resuming or removing hits all jobs of the name and no other |
| `Schedules.MutateSchedules` | openclaw-plugin/src/index.ts:408-425 | fails exactly without a selected definition; resuming reconciles first; all and only selected names are hit |
| `Schedules.ResumeEnables` | openclaw-plugin/src/index.ts:408-425 | after a resume every selected definition has exactly one job, enabled |
| `Schedules.SchedulerSeesNoDrift` | src/make_it_so/scheduler.py:307-309 | on a configured job the scheduler's interval test always matches, while the plugin sees a drift exactly for intervals that are not canonical |
| `Usage.ModelTotals` | src/make_it_so/usage.py:262-293 | one entry per model, and for every selection of models the entries add up to the accounted tokens of the groups |
| `Usage.ModelTotalsConserve` | src/make_it_so/usage.py:246-259 | the entries of all models add up to the overall total |
| `Usage.AccountedCases` | src/make_it_so/usage.py:233-243 | a total stands for its group whatever the parts say; without one the known parts add up |
| `Usage.QualifiedOnce` | src/make_it_so/usage.py:296-306 | a model that names its provider is kept, any other is put under its provider or the runtime's, and never twice |
| `Usage.ProvidersStayApart` | src/make_it_so/usage.py:296-306 | plain models of named providers share an entry exactly if provider and model are the same |
| `Usage.DispatchBudget` | src/make_it_so/usage.py:118-176 | allows new work exactly when telemetry is complete or tolerated and no limit is reached |
| `Usage.RefusalIsKept` | src/make_it_so/usage.py:118-176 | appending groups to the non-empty lists in use never lifts a refusal |
| `Usage.RefusalIsKeptIff` | src/make_it_so/usage.py:118-176 | for any two summaries: what is refused for the first is refused for the second under every configuration and model matching exactly when no count by model, no total and no gap in the telemetry has become smaller |
| `Usage.AbsorbsIff` | src/make_it_so/usage.py:262-293 | some groups count no more than one group, for every selection of models, exactly when it accounts for at least their sum and all that count are of its model |
| `Usage.FirstAttemptKeepsRefusalIff` | src/make_it_so/usage.py:35 | the first attempt group keeps every refusal exactly when it absorbs the direct groups that it replaces |
| `Usage.FirstGroupKeepsRefusalIff` | src/make_it_so/usage.py:246-259 | the first group of all, of any kind, keeps every refusal exactly when it accounts for at least the aggregates |
| `Usage.FirstAttemptLiftsRefusal` | src/make_it_so/usage.py:35 | a first attempt without tokens allows new work although the direct groups had reached the daily limit |
| `Usage.FirstGroupLiftsRefusal` | src/make_it_so/usage.py:246-259 | a first group without tokens allows new work although the aggregates had reached the daily limit |

## Left out

- ReconcileSafety.TodoIsReleasedIff: says nothing about cards with a repair label, which the gates they repair can also move; `GateRepairs.PassOnRow` covers them.
- RetryTree.RetriesAreBoundedOverRuns: excludes merge and final-review cards, whose unguarded sites ignore the budget; `RetryTree.PassRetriesExhaustedIff` states which.
- ReconcileSafety.PassLeavesAlone: does not cover owner-blocked repair cards; `GateRepairs.OwnerBlockedRepairIff` states when the last-repair rule reclaims them.
- PassOutcomes.WaitingOutcome: the outcomes by status are stated for cards without a repair label; `GateRepairs.PassOnRow` composes the turns that change a labelled one.
- Blockers.GivenUpStaysBlocked: no administrative writes, which may move any card.
- Readiness.ApplyReview: the parts of the course that a review does not change are taken to be valid already.
- BuiltWorkflow.MergeWaitsForItsGates: runs of the store alone; `MixedRuns.MergeGateSurvivesPasses` adds passes and further cards, and administrative writes are in neither.
- BuiltWorkflow.MergeImpliesQa: the DONE card may run another profile with the same normalised key; `QaCards.MergeRanEveryQa` states when it cannot.
- FinalReview.TwoMarkersDisagree: one family of texts; `HeadAgreement.CompletionAgreesIff` has the exact condition.
- Usage.RefusalIsKept: a sufficient condition; `Usage.RefusalIsKeptIff` has the exact one.
- AdminWrites.AdminWriteCanLoseCompletion: one kind of loss; `AdminWrites.AdminWriteIsAtomicIff` has the exact condition for any.
- LeaseProtocol.BehaviourKeepsInv: administrative completion of a claimed card is excluded, because it keeps the claim; comments are not modelled.
- CompletionGate.Validate: the numbers of the pull requests that a workflow names, whether its QA is tracked, and the live QA requirement are inputs; the URL pattern is not modelled.
- FinalReview.ReadersAgree: a sufficient condition, the exact ones are in `HeadAgreement`; ASCII text; Unicode case folding and word characters are not modelled.
- Intervals.ParseThenPrintIff: integers below the size at which JavaScript prints an exponent.
- Usage.DispatchBudget: token sums only; the reasons, call counts and averages of the report are not modelled.
- Reconcile as one atomic step: running at the same time as workers, its snapshot can be stale, and nothing is claimed about that.
- Keys are structured values, so that different actions, suffixes and kinds of card cannot give one key; in the code a key is a text, and an action id with colons could collide.
- The lists that `reconcile` and `enqueue` return, card titles, notes, priorities, source URLs, workspaces and runtimes.
- Deciding which QA cards the paths of a pull request call for; the cards themselves are enqueued cards of a run. Cleanup of finished workspaces.
- One board per store; SQLite, JSON and YAML encoding, process and network calls.
- The executor loop of `dispatch`, heartbeat threads and worker processes: a worker's outcome is any step at any time.
- The OpenClaw adapter, runtime installer, session import, plugin registries, command line, HTTP routes and dashboard.
- `engine.py` beyond its call of the package scheduler.
- SHA-256: the readiness fingerprint is an injective function of the payload, and the digest in long workflow labels is a parameter.
- Splitting changed paths into names, suffixes and directories, and reading project manifests.
- Fields of packages and checkpoints that no modelled code reads are one text each.
- The switch that turns schedule management off, and reading the cron list from JSON.
- Model matching in token limits is an arbitrary relation.
