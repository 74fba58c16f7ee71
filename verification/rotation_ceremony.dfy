/**
 Model of src/keys/rotation-ceremony.ts: INITIATE, APPROVE, ACTIVATE, RETIRE.

 `initiate` is split at its stake await and `approve` at its commit await; what
 runs between two awaits is one atomic step.
 */
module RotationCeremony {
  import opened Common
  import KeyRegistry
  import B = CommitmentBroadcaster

  const ROTATION_GRACE_EPOCHS := 256
  const MIN_ROTATION_STAKE := 10_000
  const OLD_KEY_RETIREMENT_SLOTS := 4_096

  datatype Phase = Initiate | Approve | Activate | Retire

  datatype RotationRecord = RotationRecord(
    rotationId: string,
    validatorId: string,
    oldPublicKey: string,
    newPublicKey: string,
    phase: Phase,
    initiatedEpoch: int,
    initiatedSlot: int,
    approvedEpoch: Option<int>,
    activatedEpoch: Option<int>,
    activationSlot: Option<int>,
    retiredEpoch: Option<int>,
    approvals: seq<string>,
    approvalThreshold: Option<int>,
    approvalValidatorSet: seq<string>)

  datatype CeremonyError =
    | InvalidRotation
    | InsufficientStake
    | InvalidClock
    | RotationInProgress(rotationId: string)
    | NoActiveSigningKey
    | RotationIdConflict
    | UnknownRotation
    | IllegalTransition(phase: Phase)
    | RetirementDelay
    | InvalidCommitment
    | CommitFailed(commitError: B.CommitError)
    | RegistryRefused(registryError: KeyRegistry.RegistryError)

  // A reading of the epoch and slot clock.
  datatype Clock = Clock(epoch: int, slot: int) {
    predicate Valid() { IsProtocolNumber(epoch) && IsProtocolNumber(slot) }
  }

  datatype InitiateInput = InitiateInput(validatorId: string, newPublicKey: string, rotationId: string)

  /** The quorum check of persistApproval and of the penalty calculator, on lists without duplicates. */
  predicate QuorumProved(approvals: seq<string>, threshold: int, validatorSet: seq<string>) {
    && B.ApprovalThreshold(|validatorSet|) == Some(threshold)
    && |approvals| >= threshold
    && forall v :: v in approvals ==> v in validatorSet
  }

  /** The registry together with the maps of the ceremony. */
  datatype System = System(
    registry: KeyRegistry.Registry,
    rotations: map<string, RotationRecord>,
    activeByValidator: map<string, string>,
    attempts: set<string>)
  {
    // initiate up to the stake await.
    function BeginInitiate(input: InitiateInput): Result<(), CeremonyError> {
      if input.validatorId == "" || input.newPublicKey == "" then Err(InvalidRotation)
      else if input.newPublicKey in registry.keys then Err(RegistryRefused(KeyRegistry.DuplicateKey(input.newPublicKey)))
      else Ok(())
    }

    // The rest of initiate, once the stake is known.
    function ResumeInitiate(input: InitiateInput, stake: int, clock: Clock): Result<System, CeremonyError> {
      var v := input.validatorId;
      if stake < MIN_ROTATION_STAKE then
        Err(InsufficientStake)
      else if !clock.Valid() then
        Err(InvalidClock)
      else if v in activeByValidator && activeByValidator[v] != "" then
        Err(RotationInProgress(activeByValidator[v]))
      else
        var oldKey := registry.CurrentSigningKey(v);
        if oldKey.None? || oldKey.value.state != KeyRegistry.Active || !oldKey.value.signingEnabled then
          Err(NoActiveSigningKey)
        else if input.rotationId == "" || input.rotationId in rotations then
          Err(RotationIdConflict)
        else
          var reserved := registry.ReservePending(v, input.newPublicKey, clock.epoch);
          if reserved.Err? then
            Err(RegistryRefused(reserved.error))
          else
            var record := RotationRecord(input.rotationId, v, oldKey.value.publicKey, input.newPublicKey, Initiate,
                                         clock.epoch, clock.slot, None, None, None, None, [], None, []);
            Ok(this.(registry := reserved.value,
                     rotations := rotations[input.rotationId := record],
                     activeByValidator := activeByValidator[v := input.rotationId]))
    }

    // approve up to the commit await: the phase it found, and whether it starts a new attempt.
    function BeginApprove(id: string): Result<System, CeremonyError> {
      if id !in rotations then Err(UnknownRotation)
      else if rotations[id].phase != Initiate then Ok(this)
      else Ok(this.(attempts := attempts + {id}))
    }

    function PersistApproval(id: string, commitment: B.CommitResult, clock: Clock): Result<System, CeremonyError> {
      if id !in rotations then
        Err(UnknownRotation)
      else if rotations[id].phase != Initiate then
        Ok(this)
      else
        var validatorSet := Dedup(commitment.activeValidatorIds);
        var approvals := Dedup(commitment.approvals);
        var threshold := B.ApprovalThreshold(|validatorSet|);
        if threshold.None? then
          Err(CommitFailed(B.EmptyValidatorSet))
        else if commitment.rotationId != id || commitment.approvalThreshold != threshold.value
                || !QuorumProved(approvals, threshold.value, validatorSet) then
          Err(InvalidCommitment)
        else if !IsProtocolNumber(clock.epoch) then
          Err(InvalidClock)
        else
          Ok(this.(rotations := rotations[id := rotations[id].(phase := Approve,
                                                              approvedEpoch := Some(clock.epoch),
                                                              approvals := approvals,
                                                              approvalThreshold := threshold,
                                                              approvalValidatorSet := validatorSet)]))
    }

    // The settling of an approval attempt, with the cleanup of the attempts map.
    function SettleApproval(id: string, outcome: B.Outcome, clock: Clock): Result<System, CeremonyError> {
      match outcome
      case Rejected(e) => Err(CommitFailed(e))
      case Resolved(commitment) => PersistApproval(id, commitment, clock)
    }

    function ActivateRotation(id: string, clock: Clock): Result<System, CeremonyError> {
      if id !in rotations then
        Err(UnknownRotation)
      else
        var record := rotations[id];
        if record.phase == Activate || record.phase == Retire then
          Ok(this)
        else if record.phase != Approve then
          Err(IllegalTransition(record.phase))
        else if !clock.Valid() then
          Err(InvalidClock)
        else
          var next := registry.ActivateRotation(record.validatorId, record.oldPublicKey, record.newPublicKey, clock.epoch, clock.slot);
          if next.Err? then
            Err(RegistryRefused(next.error))
          else
            Ok(this.(registry := next.value,
                     rotations := rotations[id := record.(phase := Activate, activatedEpoch := Some(clock.epoch),
                                                          activationSlot := Some(clock.slot))]))
    }

    function RetireRotation(id: string, clock: Clock): Result<System, CeremonyError> {
      if id !in rotations then
        Err(UnknownRotation)
      else
        var record := rotations[id];
        if record.phase == Retire then
          Ok(this)
        else if record.phase != Activate || record.activationSlot.None? then
          Err(IllegalTransition(record.phase))
        else if !clock.Valid() then
          Err(InvalidClock)
        else if clock.slot - record.activationSlot.value < OLD_KEY_RETIREMENT_SLOTS then
          Err(RetirementDelay)
        else
          var next := registry.Retire(record.validatorId, record.oldPublicKey, clock.epoch);
          if next.Err? then
            Err(RegistryRefused(next.error))
          else
            var v := record.validatorId;
            Ok(this.(registry := next.value,
                     rotations := rotations[id := record.(phase := Retire, retiredEpoch := Some(clock.epoch))],
                     activeByValidator := if v in activeByValidator && activeByValidator[v] == id
                                          then activeByValidator - {v} else activeByValidator))
    }
  }

  const EMPTY_SYSTEM := System(KeyRegistry.EMPTY_REGISTRY, map[], map[], {})

  // ---------------------------------------------------------------- the class

  class RotationCeremony {
    const registry: KeyRegistry.KeyRegistry
    var rotations: map<string, RotationRecord>
    var activeRotationByValidator: map<string, string>
    var approvalAttempts: set<string>

    function View(): System
      reads this, registry
    {
      System(registry.View(), rotations, activeRotationByValidator, approvalAttempts)
    }

    constructor (registry: KeyRegistry.KeyRegistry)
      ensures this.registry == registry
      ensures View() == EMPTY_SYSTEM.(registry := registry.View())
    {
      this.registry := registry;
      rotations, activeRotationByValidator, approvalAttempts := map[], map[], {};
    }

    method BeginInitiate(input: InitiateInput) returns (r: Result<(), CeremonyError>)
      ensures r == View().BeginInitiate(input)
    {
      if input.validatorId == "" || input.newPublicKey == "" {
        return Err(InvalidRotation);
      }
      if input.newPublicKey in registry.keysByPublicKey {
        return Err(RegistryRefused(KeyRegistry.DuplicateKey(input.newPublicKey)));
      }
      return Ok(());
    }

    // Err leaves the system unchanged; Ok returns the stored record.
    method ResumeInitiate(input: InitiateInput, stake: int, clock: Clock) returns (r: Result<RotationRecord, CeremonyError>)
      modifies this, registry
      ensures Settles(old(View()), old(View()).ResumeInitiate(input, stake, clock), input.rotationId, View(), r)
    {
      if stake < MIN_ROTATION_STAKE {
        return Err(InsufficientStake);
      }
      if !clock.Valid() {
        return Err(InvalidClock);
      }
      if input.validatorId in activeRotationByValidator && activeRotationByValidator[input.validatorId] != "" {
        return Err(RotationInProgress(activeRotationByValidator[input.validatorId]));
      }
      var oldKey := registry.View().CurrentSigningKey(input.validatorId);
      if oldKey.None? || oldKey.value.state != KeyRegistry.Active || !oldKey.value.signingEnabled {
        return Err(NoActiveSigningKey);
      }
      if input.rotationId == "" || input.rotationId in rotations {
        return Err(RotationIdConflict);
      }
      var reserved := registry.ReservePendingKey(input.validatorId, input.newPublicKey, clock.epoch);
      if reserved.Err? {
        // The catch block of the original: nothing was reserved, recorded or indexed yet.
        rotations := rotations - {input.rotationId};
        return Err(RegistryRefused(reserved.error));
      }
      var record := RotationRecord(input.rotationId, input.validatorId, oldKey.value.publicKey, input.newPublicKey, Initiate,
                                   clock.epoch, clock.slot, None, None, None, None, [], None, []);
      rotations := rotations[input.rotationId := record];
      activeRotationByValidator := activeRotationByValidator[input.validatorId := input.rotationId];
      return Ok(record);
    }

    // Returns the proposal to commit when this call starts an attempt; concurrent calls join it.
    method BeginApprove(id: string) returns (r: Result<Option<B.Proposal>, CeremonyError>)
      modifies this
      ensures View() == (var next := old(View()).BeginApprove(id); if next.Ok? then next.value else old(View()))
      ensures r.Err? <==> id !in rotations
      ensures r.Ok? && r.value.Some? <==> id in rotations && rotations[id].phase == Initiate && id !in old(approvalAttempts)
      ensures r.Ok? && r.value.Some? ==> r.value.value == ProposalOf(rotations[id])
    {
      if id !in rotations {
        return Err(UnknownRotation);
      }
      var record := rotations[id];
      if record.phase != Initiate {
        return Ok(None);
      }
      if id in approvalAttempts {
        return Ok(None);
      }
      approvalAttempts := approvalAttempts + {id};
      return Ok(Some(ProposalOf(record)));
    }

    method PersistApproval(id: string, commitment: B.CommitResult, clock: Clock) returns (r: Result<RotationRecord, CeremonyError>)
      modifies this
      ensures Settles(old(View()), old(View()).PersistApproval(id, commitment, clock), id, View(), r)
    {
      if id !in rotations {
        return Err(UnknownRotation);
      }
      var current := rotations[id];
      if current.phase != Initiate {
        return Ok(current);
      }
      var activeValidatorIds := Dedup(commitment.activeValidatorIds);
      var approvals := Dedup(commitment.approvals);
      var expectedThreshold := B.ApprovalThreshold(|activeValidatorIds|);
      if expectedThreshold.None? {
        return Err(CommitFailed(B.EmptyValidatorSet));
      }
      if commitment.rotationId != id || commitment.approvalThreshold != expectedThreshold.value
         || !QuorumProved(approvals, expectedThreshold.value, activeValidatorIds) {
        return Err(InvalidCommitment);
      }
      if !IsProtocolNumber(clock.epoch) {
        return Err(InvalidClock);
      }
      var approved := current.(phase := Approve, approvedEpoch := Some(clock.epoch), approvals := approvals,
                               approvalThreshold := expectedThreshold, approvalValidatorSet := activeValidatorIds);
      rotations := rotations[id := approved];
      return Ok(approved);
    }

    method Activate(id: string, clock: Clock) returns (r: Result<RotationRecord, CeremonyError>)
      modifies this, registry
      ensures Settles(old(View()), old(View()).ActivateRotation(id, clock), id, View(), r)
    {
      if id !in rotations {
        return Err(UnknownRotation);
      }
      var record := rotations[id];
      if record.phase == Phase.Activate || record.phase == Phase.Retire {
        return Ok(record);
      }
      if record.phase != Approve {
        return Err(IllegalTransition(record.phase));
      }
      if !clock.Valid() {
        return Err(InvalidClock);
      }
      var done := registry.ActivateRotation(record.validatorId, record.oldPublicKey, record.newPublicKey, clock.epoch, clock.slot);
      if done.Err? {
        return Err(RegistryRefused(done.error));
      }
      var activated := record.(phase := Phase.Activate, activatedEpoch := Some(clock.epoch), activationSlot := Some(clock.slot));
      rotations := rotations[id := activated];
      return Ok(activated);
    }

    method Retire(id: string, clock: Clock) returns (r: Result<RotationRecord, CeremonyError>)
      modifies this, registry
      ensures Settles(old(View()), old(View()).RetireRotation(id, clock), id, View(), r)
    {
      if id !in rotations {
        return Err(UnknownRotation);
      }
      var record := rotations[id];
      if record.phase == Phase.Retire {
        return Ok(record);
      }
      if record.phase != Phase.Activate || record.activationSlot.None? {
        return Err(IllegalTransition(record.phase));
      }
      if !clock.Valid() {
        return Err(InvalidClock);
      }
      var inactiveSlots := clock.slot - record.activationSlot.value;
      if inactiveSlots < OLD_KEY_RETIREMENT_SLOTS {
        return Err(RetirementDelay);
      }
      var done := registry.RetireKey(record.validatorId, record.oldPublicKey, clock.epoch);
      if done.Err? {
        return Err(RegistryRefused(done.error));
      }
      var retired := record.(phase := Phase.Retire, retiredEpoch := Some(clock.epoch));
      rotations := rotations[id := retired];
      if record.validatorId in activeRotationByValidator && activeRotationByValidator[record.validatorId] == id {
        activeRotationByValidator := activeRotationByValidator - {record.validatorId};
      }
      return Ok(retired);
    }
  }

  function ProposalOf(record: RotationRecord): B.Proposal {
    B.Proposal(B.ROTATION_EVENT, record.rotationId, record.validatorId, record.oldPublicKey, record.newPublicKey,
               record.initiatedEpoch, record.initiatedSlot)
  }

  predicate Settles(before: System, next: Result<System, CeremonyError>, id: string,
                    after: System, r: Result<RotationRecord, CeremonyError>)
  {
    match next
    case Err(e) => r == Err(e) && after == before
    case Ok(s) => after == s && id in s.rotations && r == Ok(s.rotations[id])
  }
}
