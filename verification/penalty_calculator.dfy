/** Model of src/slashing/penalty-calculator.ts: the rotation exception to slashing. */
module PenaltyCalculator {
  import opened Common
  import opened RotationCeremony
  import KeyRegistry
  import B = CommitmentBroadcaster

  const DOUBLE_SIGNING := "DOUBLE_SIGNING"

  datatype Evidence = Evidence(
    validatorId: string,
    misbehaviorType: string,
    firstPublicKey: string,
    secondPublicKey: string,
    firstSigningSlot: int,
    secondSigningSlot: int,
    rotationId: Option<string>)

  datatype Reason =
    | LegitimateRotationOverlap
    | NotDoubleSigning
    | NoKnownRotation
    | RotationNotActivated
    | ValidatorMismatch
    | KeyPairMismatch
    | EvidenceOutsideTransition
    | InvalidRotationCommitment
    | InvalidKeyState
    | OutsideGracePeriod

  predicate CommitmentValid(r: RotationRecord) {
    var approvals := Dedup(r.approvals);
    var eligible := Dedup(r.approvalValidatorSet);
    |eligible| > 0 && r.approvalThreshold.Some? && QuorumProved(approvals, r.approvalThreshold.value, eligible)
  }

  predicate KeyStateValid(registry: KeyRegistry.Registry, r: RotationRecord) {
    var oldKey := registry.GetKey(r.oldPublicKey);
    var newKey := registry.GetKey(r.newPublicKey);
    && oldKey.Some? && oldKey.value.validatorId == r.validatorId
    && oldKey.value.state == KeyRegistry.Active && !oldKey.value.signingEnabled
    && oldKey.value.deactivationEpoch == r.activatedEpoch && oldKey.value.deactivationSlot == r.activationSlot
    && newKey.Some? && newKey.value.validatorId == r.validatorId
    && newKey.value.state == KeyRegistry.Active && newKey.value.signingEnabled
    && newKey.value.activationEpoch == r.activatedEpoch && newKey.value.activationSlot == r.activationSlot
  }

  predicate IsPair(e: Evidence, r: RotationRecord) {
    || (e.firstPublicKey == r.oldPublicKey && e.secondPublicKey == r.newPublicKey)
    || (e.firstPublicKey == r.newPublicKey && e.secondPublicKey == r.oldPublicKey)
  }

  function OldKeySlot(e: Evidence, r: RotationRecord): int {
    if e.firstPublicKey == r.oldPublicKey then e.firstSigningSlot else e.secondSigningSlot
  }

  function NewKeySlot(e: Evidence, r: RotationRecord): int {
    if e.firstPublicKey == r.newPublicKey then e.firstSigningSlot else e.secondSigningSlot
  }

  function Calculate(s: System, e: Evidence, clock: Clock): Reason {
    if e.misbehaviorType != DOUBLE_SIGNING then NotDoubleSigning
    else if e.rotationId.None? || e.rotationId.value == "" || e.rotationId.value !in s.rotations then NoKnownRotation
    else
      var r := s.rotations[e.rotationId.value];
      if r.phase != Activate || r.approvedEpoch.None? || r.activatedEpoch.None? || r.activationSlot.None? then RotationNotActivated
      else if r.validatorId != e.validatorId then ValidatorMismatch
      else if !IsPair(e, r) || e.firstPublicKey == e.secondPublicKey then KeyPairMismatch
      else
        var oldSlot := OldKeySlot(e, r);
        var newSlot := NewKeySlot(e, r);
        var inTransition :=
          && IsSafeInteger(oldSlot) && IsSafeInteger(newSlot) && IsSafeInteger(clock.slot)
          && oldSlot >= 0 && oldSlot < r.activationSlot.value
          && newSlot >= r.activationSlot.value && newSlot <= clock.slot;
        if !inTransition then EvidenceOutsideTransition
        else if !CommitmentValid(r) then InvalidRotationCommitment
        else if !KeyStateValid(s.registry, r) then InvalidKeyState
        else
          var elapsed := clock.epoch - r.activatedEpoch.value;
          if !IsSafeInteger(clock.epoch) || elapsed < 0 || elapsed >= ROTATION_GRACE_EPOCHS then OutsideGracePeriod
          else LegitimateRotationOverlap
  }

  predicate Suppressed(s: System, e: Evidence, clock: Clock) {
    Calculate(s, e, clock) == LegitimateRotationOverlap
  }
}
