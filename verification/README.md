# VeriNode backend: a verified model

Dafny models of eight parts of the VeriNode backend that carry state machines,
claim protocols or arithmetic, and proofs of what those parts promise.
`dafny verify dfyconfig.toml` checks everything.

## What is modelled

**Validator key rotation** (`key_registry.dfy`, `rotation_ceremony.dfy`,
`commitment_broadcaster.dfy`, `penalty_calculator.dfy`, `rotation_system.dfy`,
`rotation_outcomes.dfy`, `approval_runs.dfy`, `vote_runs.dfy`).
The registry, the ceremony and the broadcaster are classes with the maps of the
original; each asynchronous method is split at its await, and each method is
proved against a function on the maps. `RotationSystem` joins them: one invariant
over registry and ceremony, kept by every sequence of steps, from which it follows
that the penalty calculator excuses exactly the legitimate overlaps. `ApprovalRuns`
runs ceremony and broadcaster together, with other callers of the broadcaster: every
quorum an approval waits for is accepted, and an approval is refused exactly while
another proposal under its id is in progress or remembered. `RotationOutcomes` says
exactly when each step of the ceremony succeeds and where every record of a run comes
from, `VoteRuns` how the votes of a commitment accumulate and what decides it.

**Two-phase node status** (`two_phase.dfy`, `two_phase_runs.dfy`,
`two_phase_agreement.dfy`, `two_phase_limits.dfy`). Every SQL statement or transaction is one atomic step;
transitions, several sweepers, admin calls, lost replies, crashes and the clock
interleave freely. The accounting results need no assumption. Agreement with the
chain needs calls on a node not to overlap and to end within their TTL. What
happens otherwise is in `two_phase_limits.dfy`: overlapping calls, slow calls, late
sweeps and lost marks, each with a run that goes wrong and the exact condition.

**Bond pool store** (`bond_pool.dfy`, `pool_outcomes.dfy`, `pool_lock.dfy`). The
in-memory store, when its calls succeed and what they change, and its promise-chain
lock: mutual exclusion, and equality with the same calls run one by one.

**Change-point detection** (`energy.dfy`, `energy_laws.dfy`, `change_points.dfy`). The
energy statistic is rewritten as a sum of squares over the gaps of the merged samples,
which gives its sign and its zeros; its scale and its medians are fixed by laws that
hold on every branch; the recursive search is proved sound and complete.

**Notification delivery** (`delivery_store.dfy`, `slashing_notifier.dfy`,
`delivery_runs.dfy`) and **job leases** (`job_store.dfy`): claim protocols run by any
number of callers.

**Token bucket** (`rate_limiter.dfy`), in exact arithmetic: what it admits is bounded
from above, and a request is denied exactly when admitting it would break the bound of
a stretch that ends with it.

**Configuration trees** (`config_tree.dfy`, `config_objects.dfy`, `config_drift.dfy`,
`config_validator.dfy`, `config_manager.dfy`, `config_outcomes.dfy`): path operations on
values and in place, drift and rollback, defaults and validation, the manager, and
exactly when each of them succeeds.

**Capacity trend** (`capacity_trend.dfy`) and **rewards** (`rewards.dfy`): least
squares, decimal amounts, allocation and payout.

`common.dfy`, `sorting.dfy` and `string_order.dfy` hold shared definitions.

## Where the code falls short of what one would expect

- A rollback of an added configuration key leaves the key behind with the value
  undefined, and every later drift check reports it again (`RollbackIsExactIff`).
- Pool ids with colons share stake keys and break the cached balance
  (`StakeKeepsBalancesIff`, `UnstakeKeepsBalancesIff`); unstaking a negative amount can raise a stake past the
  limit (`UnstakeKeepsLimitIff`).
- The comments of the cleanup worker call `FOR UPDATE SKIP LOCKED` a mutex between
  replicas. The select runs outside a transaction, so its row locks are gone when
  the rollback starts. The model follows the code and takes the two as separate
  steps (`StaleSweepKillsFreshRecord`, `SweepHitsItsRecordIff`).
- The COMMIT_FAILED marker keeps sweepers away only from the moment it is written:
  one that selected the row before still takes it (`LateSweepLosesTheMark`,
  `MarkedRowIsSafe`). A call that outlives its TTL can find its row swept, and then
  has nothing to mark (`SlowCallBreaksAgreement`, `SlowCallSettlesIff`).
- Two calls that read the same status can leave the transition graph
  (`OverlapLeavesTheGraph`, `OverlapKeepsPathIff`, `HistoryIsPathIff`).
- A renewal with a shorter lease opens a job to a second worker while the first
  window is still open (`ShorteningLetsAnotherIn`); completing and failing a job ask
  nobody, and nothing else ends an open lease (`OnlyFinishingEndsTheLease`).
- A pending reward above one million is never paid (`AboveTheMaximumIsStuck`;
  `PaysAllOrNothing` says exactly when a payout pays).
- A clock that steps back breaks the window bound of the rate limiter
  (`BackwardClockBreaksTheBound`): the bound holds for every limit exactly when the
  forward moves of the clock fit into the window (`BoundedBySpanIff`, `WindowBoundIff`).
- `skipped` from the notifier does not mean that anything was delivered
  (`SkippedWithoutDelivery`, `SkipEndsDeliveredIff`).
- The energy statistic can be negative wherever a median replaces a sum: past 10 000
  pairs (`NegativeEnergy`, `ApproximateEnergySign`), and with more than 200 values in
  fewer pairs (`NegativeMixedEnergy`, `MixedEnergySign`).

## Model

| member | source | states |
|---|---|---|
| `KeyRegistry.KeyRegistry.RegisterActiveKey` | src/keys/key-registry.ts:85-112 | the three maps after a registration are those of the specification `Registry.RegisterActive`; a throwing call changes none of them and names the error |
| `KeyRegistry.KeyRegistry.ReservePendingKey` | src/keys/key-registry.ts:114-135 | the same for reserving a pending key |
| `KeyRegistry.KeyRegistry.ReleasePendingKey` | src/keys/key-registry.ts:137-150 | releases exactly a pending key reserved by that validator, and answers whether it did |
| `KeyRegistry.KeyRegistry.ActivateRotation` | src/keys/key-registry.ts:152-216 | switches both keys and the current index as specified, returns the two stored records, and leaves everything alone when it throws |
| `KeyRegistry.KeyRegistry.RetireKey` | src/keys/key-registry.ts:218-239 | retires as specified or changes nothing |
| `KeyRegistry.KeyRegistry.AssertConsistent` | src/keys/key-registry.ts:267-280 | the two loops accept exactly the registries whose index maps agree with the key table |
| `KeyRegistry.RegisterActiveKeepsValid` | src/keys/key-registry.ts:85-112 | registration keeps the three maps in agreement |
| `KeyRegistry.ReservePendingKeepsValid` | src/keys/key-registry.ts:114-135 | reservation keeps the three maps in agreement |
| `KeyRegistry.ActivateKeepsValid` | src/keys/key-registry.ts:152-216 | activation keeps the three maps in agreement |
| `KeyRegistry.RetireKeepsValid` | src/keys/key-registry.ts:218-239 | retirement keeps the three maps in agreement |
| `KeyRegistry.ReleaseUndoesReserve` | src/keys/key-registry.ts:114-150 | releasing a reservation restores the registry from before it was made |
| `KeyRegistry.ActivationIsIdempotent` | src/keys/key-registry.ts:152-216 | a second activation of the same pair succeeds without change for the same epoch and slot, and conflicts for any other |
| `KeyRegistry.AtMostOneSigningKey` | src/keys/key-registry.ts:80-239 | in a valid registry two signing-enabled keys of one validator are the same key |
| `KeyRegistry.RegisterActiveIff` | src/keys/key-registry.ts:85-112 | a key can be registered exactly when it is new, its fields are valid and no key of the validator signs; then it signs from its activation on, and nobody else's current key changes |
| `KeyRegistry.ReservePendingIff` | src/keys/key-registry.ts:114-135 | a key can be reserved exactly when it is new, its fields are valid and no other key of the validator is pending |
| `KeyRegistry.ReleaseIff` | src/keys/key-registry.ts:137-150 | exactly the pending keys can be released, by their own validator, and then nothing of the validator is pending |
| `KeyRegistry.ActivateIff` | src/keys/key-registry.ts:152-216 | in a valid registry a pair can be switched exactly when the old key signs and the new one is pending for the validator, or both already stand so with these coordinates; and what the two records are then |
| `KeyRegistry.RetireIff` | src/keys/key-registry.ts:218-239 | in a valid registry exactly the keys that were signed off, or retired before, can be retired, by their own validator |
| `CommitmentBroadcaster.ApprovalThreshold` | src/consensus/commitment-broadcaster.ts:82-90 | for a positive count n the threshold is the least integer t with 3t >= 2n, and lies between 1 and n; none for other counts |
| `CommitmentBroadcaster.QuorumsShareHonestValidator` | src/consensus/commitment-broadcaster.ts:82-90 | any two approval sets meeting the threshold over one validator set share more members than any faulty set with 3f < n, hence an honest one |
| `CommitmentBroadcaster.CommitmentBroadcaster.CommitRotation` | src/consensus/commitment-broadcaster.ts:137-166 | reply and new maps of a commit call up to its first await: replay, join, refusal or a new attempt |
| `CommitmentBroadcaster.CommitmentBroadcaster.OnSnapshot` | src/consensus/commitment-broadcaster.ts:200-243 | what startCommit does once its validator snapshot is there |
| `CommitmentBroadcaster.CommitmentBroadcaster.ApproveRotation` | src/consensus/commitment-broadcaster.ts:168-194 | reply and new maps of a vote: unknown rotation, ineligible, duplicate, counted, or counted and completing |
| `CommitmentBroadcaster.CommitmentBroadcaster.CompleteCommitment` | src/consensus/commitment-broadcaster.ts:245-257 | removes the pending commitment, remembers its result and settles its promise |
| `CommitmentBroadcaster.CommitmentBroadcaster.FailCommitment` | src/consensus/commitment-broadcaster.ts:259-264 | rejects the promise only while this very attempt is still the pending one |
| `CommitmentBroadcaster.CommitmentBroadcaster.RememberCompleted` | src/consensus/commitment-broadcaster.ts:284-292 | inserts into the bounded cache and evicts the oldest entries |
| `CommitmentBroadcaster.RememberKeepsCache` | src/consensus/commitment-broadcaster.ts:284-292 | remembering keeps the cache within its limit, loses only other entries, and holds the new one when the limit is positive |
| `CommitmentBroadcaster.RunKeepsInv` | src/consensus/commitment-broadcaster.ts:137-292 | in every run of commits, snapshots, votes, timeouts and listener failures: every resolved promise has exactly threshold-many distinct approvers from its own snapshot, and the cache never exceeds its limit |
| `CommitmentBroadcaster.SettlesAtMostOnce` | src/consensus/commitment-broadcaster.ts:245-264 | a settled promise keeps its outcome through every later run |
| `CommitmentBroadcaster.OneLiveAttemptPerRotation` | src/consensus/commitment-broadcaster.ts:137-166 | no two unsettled attempts are for the same rotation |
| `CommitmentBroadcaster.QuorumVoteResolvesAndReplays` | src/consensus/commitment-broadcaster.ts:168-194 | the vote that reaches the threshold resolves the promise with exactly the counted approvers; the promise keeps that outcome over every later run, and the proposal is answered with it as long as it stays remembered |
| `CommitmentBroadcaster.RememberedIsReplayed` | src/consensus/commitment-broadcaster.ts:137-166 | over every run in which a rotation stays remembered its own proposal is answered with the remembered result, and any other of its id is refused |
| `CommitmentBroadcaster.KnownIdRejectsOtherMetadata` | src/consensus/commitment-broadcaster.ts:137-166 | a valid proposal is refused for its id exactly when the id is remembered or starting with other metadata |
| `VoteRuns.CommitReplyIff` | src/consensus/commitment-broadcaster.ts:137-166 | in every consistent state: exactly when a commit is refused, for which reason, replayed, joined or started, and a commit that starts nothing changes nothing |
| `VoteRuns.SnapshotOpensTheVote` | src/consensus/commitment-broadcaster.ts:200-243 | a snapshot opens the vote with its distinct non-empty ids, the least two-thirds majority of them and no vote; without any id it rejects the attempt |
| `VoteRuns.VoteCountsIff` | src/consensus/commitment-broadcaster.ts:168-194 | a vote is counted exactly for an eligible validator of a pending rotation that has not voted yet, and changes nothing otherwise |
| `VoteRuns.VotesAccumulate` | src/consensus/commitment-broadcaster.ts:168-194 | after any run since its snapshot a pending commitment holds exactly the distinct eligible validators that have voted, and each further vote is answered with their number |
| `VoteRuns.ResolvedIffEnoughVote` | src/consensus/commitment-broadcaster.ts:168-194 | over every run in which neither its timer nor its listener fails it, a commitment is settled exactly when threshold-many distinct eligible validators have voted, and then resolved with that many of them: all of them when no more have voted |
| `VoteRuns.VerdictStands` | src/consensus/commitment-broadcaster.ts:168-264 | over every run the state of an attempt is what the first deciding event makes it: enough votes, its timer, or its throwing listener |
| `VoteRuns.FailureRejects` | src/consensus/commitment-broadcaster.ts:213-264 | a timer or a throwing listener rejects the attempt it belongs to and no other |
| `VoteRuns.RejectedCanBeRetried` | src/consensus/commitment-broadcaster.ts:137-166 | a rejected attempt, once cleaned up, leaves its rotation free for a fresh commit |
| `VoteRuns.OldestIsForgotten` | src/consensus/commitment-broadcaster.ts:284-292 | the cache forgets exactly the rotation remembered first, and only when it is full |
| `RotationSystem.RejectedStaysRejected` | src/keys/rotation-ceremony.ts:109-185 | what initiate rejects before it awaits the stake, its second half rejects in every later state, whatever the stake |
| `RotationCeremony.RotationCeremony.ResumeInitiate` | src/keys/rotation-ceremony.ts:121-185 | the rest of initiate after the stake arrived: re-checks, reservation and the new record, or an error without any change |
| `RotationCeremony.RotationCeremony.BeginApprove` | src/keys/rotation-ceremony.ts:187-201 | a call either joins the attempt in progress or starts one with the stored proposal |
| `RotationCeremony.RotationCeremony.PersistApproval` | src/keys/rotation-ceremony.ts:295-321 | accepts a commitment with a proved quorum and moves the record to APPROVE, or fails without change |
| `RotationCeremony.RotationCeremony.Activate` | src/keys/rotation-ceremony.ts:203-235 | moves an approved rotation and both its keys to ACTIVATE, or fails without change |
| `RotationCeremony.RotationCeremony.Retire` | src/keys/rotation-ceremony.ts:237-266 | retires the old key after the delay and frees the validator, or fails without change |
| `RotationSystem.RunKeepsInv` | src/keys/rotation-ceremony.ts:109-321 | the joint invariant of ceremony and registry holds after every sequence of their atomic steps, with any commitment arriving at any time |
| `RotationSystem.RunIsLater` | src/keys/rotation-ceremony.ts:203-266 | phases only move forward, records keep their identity, and a key that was signed off or retired stays so, over every run |
| `RotationSystem.ApprovedRotationActivates` | src/keys/rotation-ceremony.ts:203-235 | in every consistent state, with a valid clock, activating a rotation in APPROVE succeeds, and what the two keys and the index are afterwards |
| `RotationSystem.RetireFailsOnlyForDelay` | src/keys/rotation-ceremony.ts:237-266 | retiring a rotation in ACTIVATE fails if and only if fewer than 4096 slots have passed since activation |
| `RotationSystem.InitiateFailsOnlyForNewKey` | src/keys/rotation-ceremony.ts:121-185 | once the checks of initiate have passed, it succeeds exactly when the new key is not blank and not known |
| `RotationSystem.OneUnfinishedRotation` | src/keys/rotation-ceremony.ts:109-185 | two unfinished rotations of one validator are the same rotation, and the indexed one |
| `RotationOutcomes.InitiateIff` | src/keys/rotation-ceremony.ts:121-185 | in every consistent state the rest of initiate succeeds exactly with at least 10 000 staked, a valid clock, a fresh non-empty rotation id, a non-blank unknown new key, and a signing validator without an unfinished rotation |
| `RotationOutcomes.InitiateRecords` | src/keys/rotation-ceremony.ts:121-201 | what a successful initiate adds: the record with its key pair, epoch and slot, the reserved key, the index entry, and the proposal approve will commit for it |
| `RotationOutcomes.PersistIff` | src/keys/rotation-ceremony.ts:295-321 | a rotation in INITIATE is approved exactly by a commitment for it whose distinct approvals are a quorum of its distinct validators, under a valid epoch; any other leaves it alone |
| `RotationOutcomes.ActivateIff` | src/keys/rotation-ceremony.ts:203-235 | activation succeeds exactly from APPROVE under a valid clock, or changes nothing from ACTIVATE on |
| `RotationOutcomes.RetireIff` | src/keys/rotation-ceremony.ts:237-266 | retirement succeeds exactly from ACTIVATE, 4096 slots later and under a valid clock, or changes nothing from RETIRE on; it frees the validator |
| `RotationOutcomes.EveryRotationIsEarned` | src/keys/rotation-ceremony.ts:109-321 | over every run each recorded rotation comes from an initiate with at least 10 000 staked and its keys and coordinates, and each phase it has reached from a proved quorum, an activation with its coordinates, and a retirement at least 4096 slots after that |
| `ApprovalRuns.ResolvedApprovalPersists` | src/keys/rotation-ceremony.ts:281-321 | in every joint run of ceremony and broadcaster, whatever other callers commit, persisting what an approval attempt resolved with never fails its commitment check, and moves a rotation in INITIATE to APPROVE with exactly that quorum |
| `ApprovalRuns.ApprovalIsRefusedIff` | src/consensus/commitment-broadcaster.ts:137-166 | in every joint run the broadcaster refuses the ceremony's own commit exactly while it works on, or remembers, another proposal under the same id, and then for that conflict |
| `ApprovalRuns.RefusalComesFromOutside` | src/consensus/commitment-broadcaster.ts:137-166 | such a refusal happens only after another caller has committed a different proposal for that rotation |
| `ApprovalRuns.ForeignProposalIsInTheWay` | src/consensus/commitment-broadcaster.ts:137-166 | for a rotation the broadcaster does not know yet, another caller's valid proposal makes it refuse the ceremony's own exactly when it differs from it |
| `RotationSystem.ImpliedChecksNeverDecide` | src/slashing/penalty-calculator.ts:60-141 | in a consistent system calculate never answers with the commitment reason or the key-state reason |
| `RotationSystem.SuppressedExactly` | src/slashing/penalty-calculator.ts:60-141 | in a consistent system the penalty is suppressed exactly for a legitimate overlap, stated from the record, the evidence and the clock alone |
| `RotationSystem.SuppressedExactlyInEveryRun` | src/slashing/penalty-calculator.ts:60-141 | the same in every state reachable from the empty system |
| `RotationSystem.ExceptionClosesForGood` | src/slashing/penalty-calculator.ts:60-141 | after retirement or 256 epochs no later state excuses evidence naming that rotation |
| `RotationSystem.ExcusedOldKeyIsSignedOffForever` | src/slashing/penalty-calculator.ts:60-141 | the old key of excused evidence is disabled, now and in every later state |
| `RotationOutcomes.ReasonIsTheFirstUnmet` | src/slashing/penalty-calculator.ts:60-141 | in every reachable state the reason given is the first condition the evidence does not meet, in the order of the checks |
| `TwoPhase.StateDb.InsertTentative` | src/core/state/two_phase_controller.ts:149-180 | the Phase 1 upsert: rows as specified, and a row count of zero exactly when a PENDING row exists |
| `TwoPhase.StateDb.CommitTransaction` | src/core/state/two_phase_controller.ts:222-245 | the commit: status and tentative row are written whatever key or state the row has |
| `TwoPhase.StateDb.ForceCommitTransaction` | src/core/state/two_phase_controller.ts:365-390 | the admin commit |
| `TwoPhase.StateDb.MarkCommitFailed` | src/core/state/two_phase_controller.ts:283-295 | the marker is set on a PENDING row only |
| `TwoPhase.StateDb.ExecuteRollback` | src/core/state/rollback_handler.ts:38-80 | the compare-and-swap on PENDING, its log row, and whether it claimed |
| `TwoPhase.TwoPhaseController.Transition` | src/core/state/two_phase_controller.ts:117-319 | one whole call with its commit retries, when nobody interferes: tables and result |
| `TwoPhaseAgreement.TransitionIff` | src/core/state/two_phase_controller.ts:117-319 | one call alone: which error it answers exactly when, and otherwise rolled back exactly when the contract call failed, committed exactly when that and one of the two commits succeeded, else PENDING and marked when it can be; with the rows, the 30-second expiry and the log that each leaves |
| `TwoPhaseAgreement.AllowedExactly` | src/core/state/two_phase_controller.ts:18-24 | the five transitions that are allowed |
| `TwoPhaseAgreement.ReadIsTheChainIff` | src/core/state/two_phase_controller.ts:322-354 | what getNodeStatus answers after a disciplined run for a node without a call in flight: the status on chain, tentative exactly while the row is PENDING, except once a marked row has expired |
| `TwoPhase.Sweep` | src/core/state/tentative_cleanup_worker.ts:143-204 | the loop runs the rollback of each selected row in turn; processed and skipped add up to the selected rows, the log grows by the processed ones, no selected node keeps a PENDING row, and other nodes and node_status are untouched |
| `TwoPhase.SweepLogsWhatItFound` | src/core/state/tentative_cleanup_worker.ts:143-204 | a sweep over rows of different nodes logs exactly those it found PENDING, as they were selected, rolls exactly these back, and leaves every other row |
| `TwoPhaseRuns.EveryRunAccounts` | src/core/state/rollback_handler.ts:46-80 | under every interleaving of transitions, sweepers, admins and crashes each Phase 1 record is rolled back at most once, the log has one row per rollback, and every value node_status takes is the initial one, the target of a successful contract call, or forced by an admin |
| `TwoPhaseRuns.LogGrowsByRollbacks` | src/core/state/rollback_handler.ts:46-80 | each step appends exactly one log row per row it moves to ROLLED_BACK, and at most one |
| `TwoPhaseRuns.RolledBackRowsAreUnmarked` | src/core/state/rollback_handler.ts:46-80 | in every run a row that is rolled back carries no COMMIT_FAILED marker |
| `TwoPhaseRuns.CommitHasTheLastWord` | src/core/state/two_phase_controller.ts:222-245 | a commit makes its row COMMITTED and writes node_status whatever became of the row in between; the log stays, and only a forced commit clears the marker |
| `TwoPhaseAgreement.PathsAreShort` | src/core/state/two_phase_controller.ts:18-24 | a history along allowed transitions has at most four steps |
| `TwoPhaseAgreement.DisciplinedRunsAgree` | src/core/state/two_phase_controller.ts:117-319 | when calls on a node do not overlap, end within the TTL, replies are faithful, nothing crashes, markers get written and admins commit marked rows: between calls status and chain agree, or the row is marked and PENDING with the target on chain; histories are allowed paths |
| `TwoPhaseAgreement.TransitionIsARun` | src/core/state/two_phase_controller.ts:117-319 | the method running alone is a run of the interleaved machine in which the chain moves to the target exactly when the call passes its checks and its contract call succeeds; its result names the row it leaves |
| `TwoPhaseLimits.MarkedRowChangesIff` | src/core/state/tentative_cleanup_worker.ts:143-168 | exactly these steps change a marked row: the commit, rollback, admin write or sweep of a call in flight on its node |
| `TwoPhaseLimits.MarkedRowIsSafe` | src/core/state/tentative_cleanup_worker.ts:143-168 | a marked row survives every run without an admin call on its node exactly when no call in flight on it has such a step ahead; a sweep that selected the row earlier is one |
| `TwoPhaseLimits.LateSweepLosesTheMark` | src/core/state/tentative_cleanup_worker.ts:152-185 | a run: a sweep that selected a row before it was marked rolls it back afterwards, and node_status stays behind the chain |
| `TwoPhaseLimits.OverlapLeavesTheGraph` | src/core/state/two_phase_controller.ts:119-135 | a run: two overlapping calls take a node from ARCHIVED back to SLASHED |
| `TwoPhaseLimits.HistoryIsPathIff` | src/core/state/two_phase_controller.ts:222-245 | over any run the history of a node stays an allowed path exactly when every commit and every admin commit meets a status that allows its target |
| `TwoPhaseLimits.OverlapKeepsPathIff` | src/core/state/two_phase_controller.ts:117-245 | a commit keeps the history a path exactly when nothing has written the node's status since its call read it, or when it archives a node read as Active and only slashed since |
| `TwoPhaseLimits.StaleSweepKillsFreshRecord` | src/core/state/tentative_cleanup_worker.ts:143-185 | a run: a sweep that acts late rolls back a fresh record and logs the key of the old one |
| `TwoPhaseLimits.SweepHitsItsRecordIff` | src/core/state/tentative_cleanup_worker.ts:152-185 | a sweep that acts on a PENDING row rolls back the record it selected, and the log keeps naming what was rolled back, exactly when no Phase 1 has written the row since; on any other row it does nothing |
| `TwoPhaseLimits.SlowCallBreaksAgreement` | src/core/state/two_phase_controller.ts:117-319 | a run: a call slower than its TTL ends with the chain ahead of node_status and no PENDING row |
| `TwoPhaseLimits.SlowCallSettlesIff` | src/core/state/two_phase_controller.ts:219-319 | over every run in which calls may be slow but otherwise behave: a commit leaves its node settled, and the marker of an exhausted call does so exactly when no sweep acted on the node since the call's Phase 1 |
| `BondPool.InMemoryBondPoolStore.StakeBody` | src/staking/poolStore.ts:334-351 | store and reply of a stake: pool missing, limit passed, or stake, balance and version raised |
| `BondPool.InMemoryBondPoolStore.UnstakeBody` | src/staking/poolStore.ts:353-379 | store and reply of an unstake, with the record removed at zero |
| `BondPool.InMemoryBondPoolStore.SumValidatorStakes` | src/staking/poolStore.ts:381-389 | the loop returns the sum of the stakes of the pool |
| `BondPool.InMemoryBondPoolStore.ReconcileBody` | src/staking/poolStore.ts:391-398 | the balance becomes the sum |
| `BondPool.StakeKeyInjective` | src/staking/poolStore.ts:408-410 | for pool ids without a colon the key determines pool and validator |
| `BondPool.BodyKeepsAgreement` | src/staking/poolStore.ts:334-398 | every successful call on a colon-free pool keeps each balance equal to the sum of its stakes |
| `BondPool.StakeKeepsBalancesIff` | src/staking/poolStore.ts:334-351 | a successful stake keeps the balances equal to the sums exactly when the record it finds under its key is its own pool's or empty |
| `BondPool.UnstakeKeepsBalancesIff` | src/staking/poolStore.ts:353-379 | a successful unstake keeps the balances equal to the sums exactly when the record it finds under its key is its own pool's, or nothing is taken |
| `BondPool.ColonsBreakAgreement` | src/staking/poolStore.ts:408-410 | two stakes under pool ids with a colon that break the agreement |
| `BondPool.ColonsBreakUnstaking` | src/staking/poolStore.ts:353-379 | an unstake under such ids that breaks it |
| `BondPool.BodyKeepsLimit` | src/staking/poolStore.ts:334-379 | no stake passes the limit through a call that unstakes no negative amount |
| `BondPool.UnstakeKeepsLimitIff` | src/staking/poolStore.ts:353-379 | exactly which unstakes keep all stakes within the limit |
| `BondPool.NegativeUnstakePassesLimit` | src/staking/poolStore.ts:353-379 | an unstake of a negative amount that raises a stake past the limit |
| `BondPool.UnstakeUndoesStake` | src/staking/poolStore.ts:334-379 | unstaking what a new stake added restores stakes and balances, two versions later |
| `PoolOutcomes.StakeIff` | src/staking/poolStore.ts:334-351 | on a colon-free pool a stake succeeds exactly when the pool exists and the validator's total stays within the limit; holding, balance and version change by the amount, the amount and one, and nothing else changes |
| `PoolOutcomes.UnstakeIff` | src/staking/poolStore.ts:353-379 | in a store whose balances agree, an unstake on a colon-free pool succeeds exactly when the pool exists and the validator has a record of at least the amount, and is refused for the first of these that fails, never for the balance; holding and balance drop by the amount, and nothing else changes |
| `PoolOutcomes.BodyKeepsNonNegative` | src/staking/poolStore.ts:334-398 | no holding becomes negative while nobody stakes a negative amount |
| `PoolOutcomes.ReconcileIff` | src/staking/poolStore.ts:391-398 | a reconcile succeeds exactly for an existing pool and changes its balance to the sum, its version, and nothing else |
| `PoolOutcomes.StakeInTwo` | src/staking/poolStore.ts:334-351 | staking a and then b succeeds exactly when staking a + b does, and gives the same store up to the version |
| `PoolOutcomes.UnstakeInTwo` | src/staking/poolStore.ts:353-379 | the same for unstaking |
| `PoolOutcomes.UnstakeUndoesAddition` | src/staking/poolStore.ts:334-379 | unstaking what was added to an existing record restores stakes and balances |
| `PoolOutcomes.BalanceRefusesIff` | src/staking/poolStore.ts:353-379 | in any store: an unstake is refused for the balance exactly when the record holds the amount and the balance does not |
| `PoolOutcomes.RepliesWithThePool` | src/staking/poolStore.ts:334-398 | a call is answered with the pool it leaves, one version up, or with the error of its body |
| `PoolLock.MutualExclusion` | src/staking/poolStore.ts:412-431 | in every interleaving, also when bodies throw, at most one body per pool runs and the calls of a pool finish in arrival order |
| `PoolLock.RunsAreSequential` | src/staking/poolStore.ts:334-431 | in every interleaving the store and every result are those of the same calls run one by one in an order that keeps each pool's arrival order, and the balances agree with the stakes throughout |
| `PoolLock.RunKeepsLimit` | src/staking/poolStore.ts:334-431 | in every interleaving without negative unstakes no stake passes the limit |
| `PoolLock.SomeCallCanStep` | src/staking/poolStore.ts:412-431 | an unfinished call can always step, or an earlier one of its pool can: no deadlock |
| `PoolLock.AllCanFinish` | src/staking/poolStore.ts:412-431 | from every reachable state the calls made so far can all be finished, in at most three steps each, and then no lock entry is left |
| `PoolLock.LocksAreFreed` | src/staking/poolStore.ts:412-431 | in every interleaving the map of locks has an entry exactly for the pools with an unfinished call |
| `Energy.WithinDispersionLoop` | src/performance/edm.ts:73-89 | the nested loops compute the pairwise dispersion, or the median deviation past 200 values |
| `Energy.EnergyStatistic` | src/performance/edm.ts:41-68 | the loops compute the statistic of the specification, on the exact and the median branch |
| `Energy.PairwiseEnergyNonNegative` | src/performance/edm.ts:35-68 | for all non-empty samples the energy by all pairs is never negative, and zero exactly when both have the same empirical distribution |
| `Energy.EnergyNonNegative` | src/performance/edm.ts:41-89 | hence so is the statistic on its exact branch |
| `Energy.EnergySymmetric` | src/performance/edm.ts:41-68 | the statistic is symmetric in its samples, on every branch |
| `Energy.PotentialIsMinusGaps` | src/performance/edm.ts:41-89 | the pairwise distance sums of sorted weights that cancel are minus the sum over the gaps of squared weight below times length |
| `Energy.GapsVanishIff` | src/performance/edm.ts:41-89 | that sum of squares is zero exactly when the weight at or below every threshold is |
| `Energy.StatisticIsPotential` | src/performance/edm.ts:41-89 | the energy by all pairs, scaled, is minus twice that pairwise sum for the weighted samples, whatever their sizes |
| `Energy.EqualSamplesHaveNoEnergy` | src/performance/edm.ts:41-89 | samples of one and the same value have energy zero on every branch |
| `Energy.MixedEnergySign` | src/performance/edm.ts:51-89 | up to 10 000 pairs the statistic is negative exactly when the dispersions the code uses exceed those by all pairs by more than the energy by all pairs; samples of at most 200 values have no excess |
| `Energy.NegativeMixedEnergy` | src/performance/edm.ts:51-89 | 5 values against 201, in 1 005 pairs, with a negative statistic |
| `Energy.ApproximateEnergySign` | src/performance/edm.ts:51-60 | past 10 000 pairs the statistic is negative exactly when the medians lie closer together than the mean of the two dispersions, which are never negative; with equal medians it is never positive |
| `Energy.ApproximateEnergyNotPositive` | src/performance/edm.ts:51-60 | there, with equal medians and at most 200 values each, it is zero only for constant samples |
| `Energy.NegativeEnergy` | src/performance/edm.ts:41-68 | two samples of 101 values whose statistic is negative |
| `EnergyLaws.MedianByRank` | src/performance/edm.ts:23-33 | the median is the mean of the two values that (n - 1) / 2 and n / 2 of the values come before, counted without sorting |
| `EnergyLaws.StatisticOfImage` | src/performance/edm.ts:41-89 | on every branch: shifting both samples changes nothing, stretching or mirroring them multiplies the statistic by the size of the factor |
| `EnergyLaws.ConstantSamples` | src/performance/edm.ts:41-89 | on every branch: a sample of one value against a sample of another has twice the distance of the values |
| `ChangePoints.Search.Best` | src/performance/edm.ts:122-131 | the scan finds the leftmost position of the highest energy that leaves minSize points on both sides |
| `ChangePoints.ScanSegment` | src/performance/edm.ts:119-131 | the loop over the admissible positions returns that position and its energy |
| `ChangePoints.SearchSegment` | src/performance/edm.ts:109-144 | the recursive search appends the splits of the specification and terminates |
| `ChangePoints.FindChangePoints` | src/performance/edm.ts:100-104 | the result is the sorted list of those splits |
| `ChangePoints.PointsAreSpaced` | src/performance/edm.ts:100-144 | whatever the energies: positions are at least minSize apart from each other and both ends, and at most n / minSize - 1 when there are any |
| `ChangePoints.PointsAreExact` | src/performance/edm.ts:109-144 | no gap of the result can be split any further, and each position is the leftmost best split, reaching the threshold, of a segment between two reported positions or ends |
| `ChangePoints.SettledMeansBelow` | src/performance/edm.ts:133-137 | in a gap that is not split, every admissible position stays below the threshold |
| `ChangePoints.ConstantSeriesHasNoPoints` | src/performance/edm.ts:100-144 | a constant series has no change points when the threshold is positive |
| `DeliveryStore.InMemoryNotificationDeliveryStore.ClaimDelivery` | src/notifications/deliveryStore.ts:110-132 | granted exactly when the record is neither delivering nor delivered; attempts grow by one and the first notification id stays |
| `DeliveryStore.InMemoryNotificationDeliveryStore.MarkDelivered` | src/notifications/deliveryStore.ts:134-141 | an existing record becomes delivered without an error, nothing else changes |
| `DeliveryStore.InMemoryNotificationDeliveryStore.MarkFailed` | src/notifications/deliveryStore.ts:143-154 | an existing record becomes failed with the error |
| `DeliveryStore.InMemoryNotificationDeliveryStore.GetDelivery` | src/notifications/deliveryStore.ts:156-162 | the stored record, if there is one |
| `DeliveryStore.KeyInjective` | src/notifications/deliveryStore.ts:164-166 | the record key determines event and channel, whatever colons the event id has |
| `SlashingNotifier.DeliverChannel` | src/notifications/slashingNotifier.ts:106-142 | alone: skipped exactly when delivered or delivering; otherwise sends until the first success or maxRetries + 1 failures; the record then has the status, the last error, the attempts and the first notification id |
| `SlashingNotifier.CollectResults` | src/notifications/slashingNotifier.ts:84-103 | the call succeeds exactly when both channels are fulfilled, and then reports their statuses; otherwise exactly the failed channels are named |
| `SlashingNotifier.OneSendInFlight` | src/notifications/slashingNotifier.ts:106-142 | for any number of concurrent calls at most one per event and channel is between a granted claim and the mark that ends it |
| `SlashingNotifier.NoSendAfterSuccess` | src/notifications/slashingNotifier.ts:115-129 | once a send has succeeded no call can start another, and only its own call can report it delivered |
| `SlashingNotifier.AttemptsAreSends` | src/notifications/deliveryStore.ts:110-132 | the stored attempts are the sends the calls have started, but for a claim whose send is still to come |
| `SlashingNotifier.SendsWithinBudget` | src/notifications/slashingNotifier.ts:115-138 | a call sends at most maxRetries + 1 times, and exactly so often when it reports a failure |
| `SlashingNotifier.ExactlyOneReports` | src/notifications/slashingNotifier.ts:106-142 | when all calls have returned, the record is delivered if and only if some call reported it, and then exactly one did |
| `SlashingNotifier.OneNotificationId` | src/notifications/slashingNotifier.ts:116-124 | every send for an event and channel carries the same notification id, however late |
| `SlashingNotifier.RunIsLater` | src/notifications/slashingNotifier.ts:106-142 | results are final, successes are never undone, attempts never shrink and notification ids never change |
| `SlashingNotifier.SkippedWithoutDelivery` | src/notifications/slashingNotifier.ts:116-122 | a run: one call is skipped because the other is sending, and that other then fails |
| `SlashingNotifier.DeliveredForGood` | src/notifications/deliveryStore.ts:110-154 | a delivered record stays delivered in every later run |
| `SlashingNotifier.SkipEndsDeliveredIff` | src/notifications/slashingNotifier.ts:106-142 | a skip is decided on a record that is delivered, or that another call is at work on; once all calls have returned the record is delivered exactly when it was then, or when that call or a send started later reports success |
| `DeliveryRuns.ClaimIff` | src/notifications/deliveryStore.ts:110-132 | a claim is granted exactly when nothing is stored for event and channel, or a pending or failed delivery; and the record it leaves |
| `DeliveryRuns.DeliveredIffASendSucceeded` | src/notifications/slashingNotifier.ts:106-142 | over every run, once all calls have returned, an event is delivered on a channel exactly when one of its sends has succeeded |
| `DeliveryRuns.LoneCall` | src/notifications/slashingNotifier.ts:115-142 | in the interleaved machine a call nobody interferes with sends until the first success and reports it, or maxRetries + 1 times and reports the failure |
| `DeliveryRuns.DeliveredIsSkipped` | src/notifications/slashingNotifier.ts:106-113 | a call that finds its event delivered is skipped whatever its retries, and changes no record |
| `DeliveryRuns.SettledAsSent` | src/notifications/slashingNotifier.ts:124-137 | in every run the record of a settled send says how it went, with the error of a failed one, and is otherwise as it was |
| `RateLimiter.InMemoryBucketStore.Consume` | src/security/rate_limiter.ts:85-105 | new bucket, decision and Retry-After of one request |
| `RateLimiter.StretchIsBounded` | src/security/rate_limiter.ts:85-105 | whatever the clock does, consecutive requests admit at most the capacity plus what the forward moves of the clock refill |
| `RateLimiter.WindowIsBounded` | src/security/rate_limiter.ts:85-105 | with a clock that never goes back, any time window admits at most capacity + rate * length requests |
| `RateLimiter.BackwardClockBreaksTheBound` | src/security/rate_limiter.ts:92-95 | three requests under a clock that steps back and forth which break that bound |
| `RateLimiter.BoundedBySpanIff` | src/security/rate_limiter.ts:85-105 | for any clock readings: buckets of every rate and capacity admit at most their capacity plus the refill of a span if and only if the forward moves of the clock add up to at most the span |
| `RateLimiter.WindowBoundIff` | src/security/rate_limiter.ts:85-105 | in particular, for a window that holds all readings its bound is met for every limit exactly when the forward moves fit into the window |
| `RateLimiter.DeniedLeavesNoTrace` | src/security/rate_limiter.ts:85-105 | deleting a denied request from a trace changes no other decision |
| `RateLimiter.RetryAfterIsExact` | src/security/rate_limiter.ts:76-80 | a lone client that waits a whole number of seconds is admitted exactly when the capacity is at least one and it waited at least the returned Retry-After |
| `RateLimiter.KeysAreIndependent` | src/security/rate_limiter.ts:82-105 | each key of the store is decided as if its requests were the only ones |
| `RateLimiter.TierIsBounded` | src/security/rate_limiter.ts:192-197 | over any number of minutes one bucket of a tier admits at most its rate plus a sixth of a minute's worth |
| `RateLimiter.TokensAreTheTightest` | src/security/rate_limiter.ts:85-105 | for any clock readings: the tokens a request finds are the least that any stretch of requests up to it leaves of its capacity and refill |
| `RateLimiter.DeniedIff` | src/security/rate_limiter.ts:85-105 | hence a request is denied exactly when admitting it would break the bound of some stretch that ends with it |
| `RateLimiter.AllAdmittedIff` | src/security/rate_limiter.ts:85-105 | a whole trace is admitted exactly when every stretch of its requests fits into capacity and refill |
| `RateLimiter.BurstIsExact` | src/security/rate_limiter.ts:85-105 | of n requests at one instant a fresh bucket admits exactly the smaller of n and its whole capacity |
| `RateLimiter.TierBursts` | src/security/rate_limiter.ts:192-197 | for the tiers these are 1, 16 and 166 |
| `ConfigTree.SplitUndoesJoin` | src/config/utils.ts:68 | splitting a dotted path gives back its keys when they are dot-free |
| `ConfigTree.GetInLoop` | src/config/utils.ts:67-79 | the walk returns the value at the path, or the default when there is none |
| `ConfigTree.SetInReads` | src/config/utils.ts:84-98 | a write is read back at its path, and no diverging path changes |
| `ConfigTree.DeleteInReads` | src/config/utils.ts:103-126 | a deleted path reads as undefined, and no diverging path changes |
| `ConfigOutcomes.SetInIff` | src/config/utils.ts:84-98 | a write fails exactly when a parent along its path is something other than an object, null or missing |
| `ConfigOutcomes.DeleteInIff` | src/config/utils.ts:103-126 | a deletion answers false exactly for an empty last key or without a parent object; otherwise the parent loses exactly that key |
| `ConfigTree.DeepMerge` | src/config/utils.ts:5-31 | the loops compute the key-by-key merge of the sources |
| `ConfigTree.LaterSourceWins` | src/config/utils.ts:5-31 | what a later source sets to something other than an object is read, and top-level keys it does not mention are kept |
| `ConfigOutcomes.MergeAtDepth` | src/config/utils.ts:5-31 | at any depth at which both trees have an object, the merged tree has their merge |
| `ConfigOutcomes.MergeKeepsUnmentioned` | src/config/utils.ts:5-31 | at any depth, what the later source does not mention reads as before |
| `ConfigOutcomes.LastSourceWins` | src/config/utils.ts:5-31 | the last of any number of sources wins over all before it, leaves the top-level keys it lacks, and is skipped when it is no object |
| `ConfigObjects.Node.SetIn` | src/config/utils.ts:84-98 | in place, on objects that share no parts: the object afterwards stands for the tree with the path set, or is unchanged when a parent is no object |
| `ConfigObjects.Node.DeleteIn` | src/config/utils.ts:103-126 | in place: the object afterwards stands for the tree with the path deleted, or is unchanged |
| `ConfigObjects.DeepClone` | src/config/utils.ts:131-145 | the copy of a plain object stands for the same tree and consists of new objects only |
| `ConfigDrift.DeepDiff` | src/audit/drift_detector.ts:152-195 | the loop and its recursion report exactly the differences, each with its dotted path and both values |
| `ConfigDrift.NothingReportedIffEqual` | src/audit/drift_detector.ts:152-195 | nothing is reported exactly when the trees are equal |
| `ConfigDrift.PathsNeverNest` | src/audit/drift_detector.ts:152-195 | reported paths are never prefixes of one another, and each is reported once |
| `ConfigDrift.Rollback` | src/audit/config_audit_service.ts:177-224 | the loop applies the lines in order and lists what it restored and what it skipped |
| `ConfigDrift.RollbackRestoresBaseline` | src/audit/config_audit_service.ts:186-224 | for trees with non-empty dot-free keys, rolling back every reported line in any order skips nothing and gives a tree that serialises as the baseline and reads as it at every path |
| `ConfigDrift.RollbackIsExactIff` | src/audit/config_audit_service.ts:186-224 | the result is the baseline itself exactly when every line has a baseline value; a later check reports exactly the added keys again |
| `ConfigOutcomes.OneMoreLine` | src/audit/config_audit_service.ts:186-224 | for any lines: one more is restored exactly when its path can be set in the tree left so far, and then reads as its baseline value; otherwise it is skipped without a change |
| `ConfigOutcomes.EveryLineIsListed` | src/audit/config_audit_service.ts:186-224 | every line is listed exactly once, as restored or as skipped |
| `ConfigDrift.AddedKeyStaysReported` | src/audit/config_audit_service.ts:186-224 | a concrete added key that is still reported after its rollback |
| `ConfigValidator.ApplyDefaults` | src/config/validator.ts:47-61 | the loop and its recursion compute the filled-in tree |
| `ConfigValidator.FillTwice` | src/config/validator.ts:47-61 | filling in defaults a second time changes nothing |
| `ConfigValidator.FillKeepsSupplied` | src/config/validator.ts:47-61 | a supplied value that is no object is never changed, at any path |
| `ConfigOutcomes.FillSuppliesDefaults` | src/config/validator.ts:47-61 | at any depth, a declared property missing from a supplied object reads as its default afterwards |
| `ConfigValidator.ValidateType` | src/config/validator.ts:134-200 | only appends errors, appends some exactly when the type, text, range or item rules fail, and each names the rule that fails |
| `ConfigValidator.ValidateValue` | src/config/validator.ts:63-132 | with its early return and its loops: appends nothing for a value that conforms, and something for one that does not, unless an earlier error is already at its path or below; every error it appends names a place and a rule that fails there |
| `ConfigValidator.Validate` | src/config/validator.ts:26-45 | valid exactly when there are no errors, exactly when the filled-in tree conforms; each error names a place of that tree and the rule that fails there; the data returned is the filled-in tree |
| `ConfigValidator.AcceptedIsStable` | src/config/validator.ts:26-45 | accepted data validates to itself |
| `ConfigOutcomes.ConformsIffEveryPlaceMeets` | src/config/validator.ts:63-200 | a value conforms exactly when every place in it that a schema checks meets the type, range, text, enum and required-field conditions of that schema |
| `ConfigManager.ConfigManager.Reload` | src/config/manager.ts:277-301 | replaces the configuration by the accepted merge of the sources, or throws and changes nothing; callbacks run exactly on a replacement |
| `ConfigManager.ConfigManager.Update` | src/config/manager.ts:323-350 | the same for setting one path |
| `ConfigManager.ConfigManager.Delete` | src/config/manager.ts:355-386 | the same for deleting one path, which may also answer false |
| `ConfigManager.ApplyHolds` | src/config/manager.ts:277-386 | a rejected change leaves the configuration as it was |
| `ConfigManager.RunHolds` | src/config/manager.ts:277-386 | after any sequence of reloads, updates and deletes the held configuration validates to itself with no errors |
| `ConfigManager.UpdateReads` | src/config/manager.ts:323-350 | a successful update is read back, and no supplied value at a diverging path changes |
| `ConfigManager.DeleteRestoresDefault` | src/config/manager.ts:355-386 | a deleted top-level property reads as its default, and is gone exactly when it has none |
| `ConfigOutcomes.ReloadIff` | src/config/manager.ts:277-301 | a reload replaces the configuration exactly when the merged sources with their defaults meet the schema everywhere, by that tree, and throws otherwise |
| `ConfigOutcomes.UpdateIff` | src/config/manager.ts:323-350 | an update does so exactly when its path can be set and the changed tree meets the schema |
| `ConfigOutcomes.DeleteIff` | src/config/manager.ts:355-386 | a deletion answers false exactly without a parent object, replaces exactly when the rest meets the schema, and throws otherwise |
| `CapacityTrend.CapacityPlanner.Record` | src/capacity/planner.ts:57-65 | the history of the key becomes the retained samples and the new one, sorted; other keys are untouched |
| `CapacityTrend.RecordKeepsHistory` | src/capacity/planner.ts:57-65 | a recorded history is sorted by time and holds the new sample and exactly the old ones not yet expired, each as often as before |
| `CapacityTrend.ErrorOfAnyLine` | src/capacity/planner.ts:157-165 | the squared error of any line is the residual of the fitted one plus what its slope and its height at the mean miss by |
| `CapacityTrend.FittedLineIsBest` | src/capacity/planner.ts:157-165 | no line has a smaller squared error than the fitted one, and no other an equal one |
| `CapacityTrend.ResidualFormula` | src/capacity/planner.ts:162-165 | the residual is the total variation less covariance squared over variance |
| `CapacityTrend.ClampNeverActs` | src/capacity/planner.ts:160-166 | the residual lies between zero and the total, so the clamp of the confidence is the identity |
| `CapacityTrend.FullConfidenceIffLinear` | src/capacity/planner.ts:157-166 | the confidence is one exactly when the points lie on a line, and then the slope is that line's |
| `CapacityTrend.LinearHistoryIsRecovered` | src/capacity/planner.ts:149-167 | a history on a line with two different times gets its daily slope and confidence one |
| `CapacityTrend.ConfidenceInUnit` | src/capacity/planner.ts:149-167 | the confidence of every history lies in [0, 1], and equal times give no trend |
| `CapacityTrend.TrendIsTheFit` | src/capacity/planner.ts:149-167 | the trend of two or more samples is the slope of the least-squares line over the days since the first, and the share of the variation that the line explains |
| `JobStore.JobStore.SelectJob` | src/scheduler/job_store.ts:82-91 | finds a claimable, unlocked row with the earliest run time, or none when there is none |
| `JobStore.JobStore.ClaimJob` | src/scheduler/job_store.ts:70-97 | claims that row for the lease in whole seconds, or changes nothing |
| `JobStore.JobStore.RenewLease` | src/scheduler/job_store.ts:131-141 | renews exactly a running row locked by that worker, and says so |
| `JobStore.JobStore.CompleteJob` | src/scheduler/job_store.ts:101-111 | completes the row whoever holds it |
| `JobStore.JobStore.FailJob` | src/scheduler/job_store.ts:115-127 | fails the row whoever holds it |
| `JobStore.LeasesAreExclusive` | src/scheduler/job_store.ts:70-141 | windows granted to different workers for one job never overlap, in every run whose renewals do not shorten an open lease |
| `JobStore.FixedLeaseIsExclusive` | src/scheduler/job_store.ts:70-141 | in particular when every claim and renewal uses one lease length |
| `JobStore.ShorteningLetsAnotherIn` | src/scheduler/job_store.ts:131-141 | any renewal that shortens an open lease can be followed by a claim of an overlapping window |
| `JobStore.ShorterRenewalOverlaps` | src/scheduler/job_store.ts:131-141 | a concrete such run |
| `JobStore.SupersededCannotRenew` | src/scheduler/job_store.ts:131-141 | a worker that does not hold the lock cannot renew, as long as it does not claim the job again |
| `JobStore.AnotherClaimSupersedes` | src/scheduler/job_store.ts:70-141 | after another worker has claimed the job, renewals of the first return false |
| `JobStore.FinishedForGood` | src/scheduler/job_store.ts:101-127 | a completed or failed job stays finished and is granted no further window |
| `JobStore.OnlyFinishingEndsTheLease` | src/scheduler/job_store.ts:70-141 | in every run in which its lease stays open a holder keeps the right to renew exactly when nobody completes or fails the job |
| `JobStore.AnyoneEndsTheLease` | src/scheduler/job_store.ts:101-127 | completing or failing, by whomever, ends the holder's right to renew for good |
| `JobStore.ClaimPossibleIff` | src/scheduler/job_store.ts:70-97 | a claim is possible exactly when an unlocked job of the type is pending or running, its lease over and its run time reached; it gets one with the earliest run time |
| `JobStore.ClaimHolds` | src/scheduler/job_store.ts:70-97 | a claimed job can be renewed by its worker and is due for others exactly once the lease has run out |
| `JobStore.RetriesAreFailures` | src/scheduler/job_store.ts:115-127 | over every run the retry count of a job grows by exactly the number of its failures |
| `Rewards.ParseUndoesFormat` | src/rewards/distributor.ts:162-172 | parseUnits gives back every amount that formatUnits wrote |
| `Rewards.ParseIff` | src/rewards/distributor.ts:162-166 | an amount parses exactly when it is digits, and perhaps a point and at most seven more; its units are those the digits stand for |
| `Rewards.AllocationsIff` | src/rewards/distributor.ts:43-64 | allocation succeeds exactly when all amounts parse and the pool lies between one unit and a million |
| `Rewards.AllocationsFillThePool` | src/rewards/distributor.ts:43-64 | allocations total at most the pool, and fall short by less than the number of positive entries |
| `Rewards.EachIsPaidItsProportion` | src/rewards/distributor.ts:43-64 | a node listed once is paid its proportional part of the pool, rounded down |
| `Rewards.EveryEntryIsPaid` | src/rewards/distributor.ts:43-64 | however often it is listed, a node is paid the rounded-down proportion of each of its entries |
| `Rewards.OneNodeGetsEverything` | src/rewards/distributor.ts:43-81 | a single entry with its own amount as pool is allocated exactly that amount, or out of range above a million |
| `Rewards.RewardDistributor.ComputeAndDistributeNodeReward` | src/rewards/distributor.ts:66-113 | ledger and result of one payout, and the amount it returns is what the node was paid |
| `Rewards.NothingLostOrPaidTwice` | src/rewards/distributor.ts:66-113 | over any run, pending plus paid of a node grows by exactly what accrued to it |
| `Rewards.PaysAllOrNothing` | src/rewards/distributor.ts:66-113 | a payout pays all that is pending exactly when the lock is granted and the amount is positive and at most a million; otherwise no amount changes, and it says why |
| `Rewards.AboveTheMaximumIsStuck` | src/rewards/distributor.ts:51-53 | an amount above a million is never reduced by any payout |

## Left out

- Numbers: JavaScript numbers are integers or reals here. NaN, infinities and rounding are not modelled; a protocol number outside the safe range stands for every value the original rejects.
- Ids, hashes and idempotency keys are opaque values that do not repeat; SHA-256, signatures and encodings are not part of this model.
- Promise scheduling: an asynchronous method is cut at its awaits into atomic steps that may come in any order; the order of microtasks within one turn is not modelled.
- TwoPhase.TwoPhaseController.Transition: a commit that takes effect although it reports an error is a step of the runs (`CommitReplyLost`) and not of this lone call.
- TwoPhase.Sweep: takes the selected rows as given; that only expired, unmarked PENDING rows are selected is in `SweepSelects` and in the runs.
- TwoPhaseRuns.EveryRunAccounts: says nothing of the cascade deletes and the reputation revert of the rollback handler, whose tables are not part of this model.
- PostgreSQL stores of bonds and notifications, and the Redis bucket, whose retry value is in other units: only the in-memory stores are modelled.
- Creating pools and stakes: `createPool` and `createStake` are taken to happen before a run starts.
- Energy.EnergyNonNegative: is for samples within the exact branch (at most 200 values each and 10 000 pairs); elsewhere its sign is that of `MixedEnergySign` and `ApproximateEnergySign`.
- ChangePoints.FindChangePoints: takes the threshold as a function of the segment length, because alpha times a square root has no exact value here; minSize 0 recurses for ever in the original and is excluded.
- SlashingNotifier.OneSendInFlight: assumes, like its companions, a store whose calls do not fail and a process that does not stop between claim and mark; timestamps and back-off times are not modelled.
- RateLimiter.InMemoryBucketStore.Consume: the choice of a tier by path pattern and the building of bucket keys from the request are not modelled.
- ConfigTree.SetInReads: arrays are opaque leaves, so a path that leads into an array reads as undefined and cannot be set or deleted, where the original reads, sets or splices elements; keys inherited from `Object.prototype` are not modelled.
- ConfigDrift.DeepDiff: arrays are equal when their serialised forms are; key order is not modelled, and NaN is not a number of the model.
- ConfigDrift.RollbackRestoresBaseline: is about `deepDiff` with `setIn`; the validation that each update also runs can fill a removed key in again (`DeleteRestoresDefault`). The permission check, events and audit rows of `rollback` are left out.
- ConfigObjects.Node.SetIn: walks by recursion where the original loops, and expects objects without shared parts, which is what `deepClone` gives the manager; sharing between a tree and a value written into it is not modelled.
- ConfigValidator.ValidateValue: warnings, error messages, and the rules for patterns, URIs, host names and array items, which are functions of the schema here; `validate` also fills defaults into the nested objects of its argument, which is not visible on values.
- ConfigManager.ConfigManager.Reload: takes the sources as loaded; files, environment, remote sources, the cache, timers and the exceptions of callbacks are left out.
- CapacityTrend.CapacityPlanner.Record: for samples that pass their validation; the forecast levels and recommendations would only add easy members.
- JobStore.JobStore.ClaimJob: rows locked by concurrent statements are a parameter, for `SKIP LOCKED`; payloads, retry limits and queue statistics are left out, and so are the scheduler's concurrency counters.
- Rewards.RewardDistributor.ComputeAndDistributeNodeReward: one transaction is one step, because the advisory lock and the row lock serialise the payouts of a node; metrics are left out.
- RotationCeremony: copies of records returned to callers, listing methods and error messages.
- Routes, RPC and fetch clients, the gateway, TLS and certificates, telemetry, caching, chunking, histograms, burn rates, region choice, shedding levels and the consensus simulation: input and output, or only easy members.
