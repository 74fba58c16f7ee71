/**
 When each step of a rotation succeeds, what it leaves, and where every record of a
 run comes from: stated from the rotations and the key table alone.
 */
module RotationOutcomes {
  import opened Common
  import opened RotationCeremony
  import opened RotationSystem
  import opened PenaltyCalculator
  import K = KeyRegistry
  import B = CommitmentBroadcaster

  // ---------------------------------------------------------------- initiate

  ghost predicate HasUnfinished(s: System, v: string) {
    exists id :: id in s.rotations && s.rotations[id].validatorId == v && s.rotations[id].phase != Retire
  }

  lemma IndexFindsUnfinished(s: System, v: string)
    requires Inv(s)
    ensures v in s.activeByValidator <==> HasUnfinished(s, v)
    ensures v in s.activeByValidator ==> s.activeByValidator[v] != ""
  {
    if v in s.activeByValidator {
      assert ActiveOk(s, v);
      assert RotationOk(s, s.activeByValidator[v]);
    }
    if HasUnfinished(s, v) {
      var id :| id in s.rotations && s.rotations[id].validatorId == v && s.rotations[id].phase != Retire;
      assert RotationOk(s, id);
    }
  }

  ghost predicate ValidClock(clock: Clock) {
    0 <= clock.epoch <= 9_007_199_254_740_991 && 0 <= clock.slot <= 9_007_199_254_740_991
  }

  /**
   initiate succeeds, in every consistent state, exactly with enough stake, a valid
   clock, a fresh rotation id and new key, and a signing validator that has no
   unfinished rotation.
   */
  lemma InitiateIff(s: System, input: InitiateInput, stake: int, clock: Clock)
    requires Inv(s)
    ensures s.ResumeInitiate(input, stake, clock).Ok?
       <==> && stake >= 10_000 && ValidClock(clock)
            && !HasUnfinished(s, input.validatorId) && K.HasSigningKey(s.registry, input.validatorId)
            && input.rotationId != "" && input.rotationId !in s.rotations
            && !K.IsBlank(input.validatorId) && !K.IsBlank(input.newPublicKey) && input.newPublicKey !in s.registry.keys
    ensures stake < 10_000 ==> s.ResumeInitiate(input, stake, clock) == Err(InsufficientStake)
    ensures stake >= 10_000 && !ValidClock(clock) ==> s.ResumeInitiate(input, stake, clock) == Err(InvalidClock)
    ensures stake >= 10_000 && ValidClock(clock) ==>
              (HasUnfinished(s, input.validatorId) <==> s.ResumeInitiate(input, stake, clock).Err?
                                                        && s.ResumeInitiate(input, stake, clock).error.RotationInProgress?)
  {
    IndexFindsUnfinished(s, input.validatorId);
    K.IndexesFindKeys(s.registry, input.validatorId);
    K.ReservePendingIff(s.registry, input.validatorId, input.newPublicKey, clock.epoch);
    if input.validatorId in s.registry.current { SigningKeyIsFound(s, input.validatorId); }
    if input.validatorId in s.registry.pending { assert PendingOk(s, input.validatorId); }
  }

  lemma SigningKeyIsFound(s: System, v: string)
    requires Inv(s) && v in s.registry.current
    ensures var k := s.registry.CurrentSigningKey(v);
            && k.Some? && k.value.publicKey in s.registry.keys && s.registry.keys[k.value.publicKey] == k.value
            && k.value.validatorId == v && k.value.state == K.Active && k.value.signingEnabled
  {
    assert s.registry.CurrentOk(v);
    assert s.registry.KeyOk(s.registry.current[v]);
  }

  /**
   What a successful initiate adds: one record in INITIATE with its key pair and
   coordinates, which approve will propose to the broadcaster, and the reserved key.
   */
  lemma InitiateRecords(s: System, input: InitiateInput, stake: int, clock: Clock)
    requires Inv(s) && s.ResumeInitiate(input, stake, clock).Ok?
    ensures var next := s.ResumeInitiate(input, stake, clock).value;
            var v, k, id := input.validatorId, input.newPublicKey, input.rotationId;
            && v in s.registry.current
            && HasKey(s.registry, s.registry.current[v], v, K.Active, true)
            && next.rotations == s.rotations[id := RotationRecord(id, v, s.registry.current[v], k, Initiate, clock.epoch, clock.slot,
                                                                  None, None, None, None, [], None, [])]
            && next.registry.keys == s.registry.keys[k := K.KeyRecord(v, k, K.Pending, clock.epoch, None, None, None, None, None, false)]
            && next.registry.current == s.registry.current
            && next.activeByValidator == s.activeByValidator[v := id] && next.attempts == s.attempts
            && ProposalOf(next.rotations[id]) == B.Proposal("ValidatorKeyRotation", id, v, s.registry.current[v], k, clock.epoch, clock.slot)
  {
    InitiateIff(s, input, stake, clock);
    K.IndexesFindKeys(s.registry, input.validatorId);
    SigningKeyIsFound(s, input.validatorId);
    assert s.registry.CurrentOk(input.validatorId);
    assert s.registry.KeyOk(s.registry.current[input.validatorId]);
    K.ReservePendingIff(s.registry, input.validatorId, input.newPublicKey, clock.epoch);
  }

  /** The first half of initiate rejects at once exactly what needs no stake to be known: missing names and a known key. */
  lemma BeginInitiateIff(s: System, input: InitiateInput)
    ensures s.BeginInitiate(input).Err? <==> input.validatorId == "" || input.newPublicKey == "" || input.newPublicKey in s.registry.keys
  {
  }

  // ---------------------------------------------------------------- approve

  /** The commitment proves a quorum for the rotation: counted on the distinct ids of its two lists. */
  ghost predicate Proves(c: B.CommitResult, id: string) {
    var n := |Elements(c.activeValidatorIds)|;
    && c.rotationId == id
    && 0 < n <= MAX_SAFE_INTEGER && 3 * (c.approvalThreshold - 1) < 2 * n <= 3 * c.approvalThreshold
    && |Elements(c.approvals)| >= c.approvalThreshold
    && Elements(c.approvals) <= Elements(c.activeValidatorIds)
  }

  lemma DedupCounts(c: B.CommitResult)
    ensures |Dedup(c.activeValidatorIds)| == |Elements(c.activeValidatorIds)|
    ensures |Dedup(c.approvals)| == |Elements(c.approvals)|
    ensures (forall v :: v in Dedup(c.approvals) ==> v in Dedup(c.activeValidatorIds))
       <==> Elements(c.approvals) <= Elements(c.activeValidatorIds)
  {
    NoDuplicatesCardinality(Dedup(c.activeValidatorIds));
    NoDuplicatesCardinality(Dedup(c.approvals));
    assert forall v :: v in Dedup(c.approvals) <==> v in Elements(Dedup(c.approvals));
    assert forall v :: v in Dedup(c.activeValidatorIds) <==> v in Elements(Dedup(c.activeValidatorIds));
  }

  /** A rotation in INITIATE is approved exactly by a commitment that proves a quorum for it, under a valid epoch. */
  lemma PersistIff(s: System, id: string, c: B.CommitResult, clock: Clock)
    requires id in s.rotations && s.rotations[id].phase == Initiate
    ensures var n := s.PersistApproval(id, c, clock);
            && (n.Ok? <==> Proves(c, id) && 0 <= clock.epoch <= 9_007_199_254_740_991)
            && (n.Ok? ==>
                  && id in n.value.rotations
                  && n.value == s.(rotations := s.rotations[id := n.value.rotations[id]])
                  && var q := n.value.rotations[id];
                     && q == s.rotations[id].(phase := Approve, approvedEpoch := Some(clock.epoch), approvals := q.approvals,
                                              approvalThreshold := Some(c.approvalThreshold), approvalValidatorSet := q.approvalValidatorSet)
                     && NoDuplicates(q.approvals) && Elements(q.approvals) == Elements(c.approvals)
                     && NoDuplicates(q.approvalValidatorSet) && Elements(q.approvalValidatorSet) == Elements(c.activeValidatorIds))
  {
    DedupCounts(c);
    hide Dedup;
  }

  // ---------------------------------------------------------------- activate

  /** Activation: nothing to do from ACTIVATE on, an error from INITIATE, and from APPROVE success exactly under a valid clock. */
  lemma ActivateIff(s: System, id: string, clock: Clock)
    requires Inv(s)
    ensures var n := s.ActivateRotation(id, clock);
            && (n.Ok? <==> id in s.rotations && s.rotations[id].phase != Initiate && (s.rotations[id].phase == Approve ==> ValidClock(clock)))
            && (n.Ok? && s.rotations[id].phase != Approve ==> n.value == s)
            && (n.Ok? && s.rotations[id].phase == Approve ==>
                  var r, g := s.rotations[id], s.registry;
                  && r.oldPublicKey in g.keys && r.newPublicKey in g.keys
                  && n.value.rotations == s.rotations[id := r.(phase := Activate, activatedEpoch := Some(clock.epoch),
                                                               activationSlot := Some(clock.slot))]
                  && n.value.registry.keys
                     == g.keys[r.oldPublicKey := g.keys[r.oldPublicKey].(signingEnabled := false, deactivationEpoch := Some(clock.epoch),
                                                                         deactivationSlot := Some(clock.slot))]
                              [r.newPublicKey := g.keys[r.newPublicKey].(state := K.Active, signingEnabled := true,
                                                                         activationEpoch := Some(clock.epoch),
                                                                         activationSlot := Some(clock.slot))]
                  && n.value.activeByValidator == s.activeByValidator && n.value.attempts == s.attempts)
  {
    if id in s.rotations && s.rotations[id].phase == Approve {
      var r := s.rotations[id];
      assert RotationOk(s, id);
      if ValidClock(clock) { K.ActivateIff(s.registry, r.validatorId, r.oldPublicKey, r.newPublicKey, clock.epoch, clock.slot); }
    }
  }

  // ---------------------------------------------------------------- retire

  /** Retirement: from ACTIVATE it succeeds exactly 4096 slots after activation, under a valid clock. */
  lemma RetireIff(s: System, id: string, clock: Clock)
    requires Inv(s)
    ensures id in s.rotations && s.rotations[id].phase == Activate ==> s.rotations[id].activationSlot.Some?
    ensures var n := s.RetireRotation(id, clock);
            && (n.Ok? <==> id in s.rotations
                           && (s.rotations[id].phase == Retire
                               || (s.rotations[id].phase == Activate && ValidClock(clock)
                                   && clock.slot - s.rotations[id].activationSlot.value >= 4_096)))
            && (n.Ok? && s.rotations[id].phase == Retire ==> n.value == s)
            && (n.Ok? && s.rotations[id].phase == Activate ==>
                  var r, g := s.rotations[id], s.registry;
                  && r.oldPublicKey in g.keys
                  && n.value.rotations == s.rotations[id := r.(phase := Retire, retiredEpoch := Some(clock.epoch))]
                  && n.value.registry
                     == g.(keys := g.keys[r.oldPublicKey := g.keys[r.oldPublicKey].(state := K.Retired,
                                                                                    retirementEpoch := Some(clock.epoch))])
                  && n.value.activeByValidator == s.activeByValidator - {r.validatorId} && n.value.attempts == s.attempts)
  {
    if id in s.rotations {
      var r := s.rotations[id];
      assert RotationOk(s, id);
      if r.phase == Activate { K.RetireIff(s.registry, r.validatorId, r.oldPublicKey, clock.epoch); }
    }
  }

  // ---------------------------------------------------------------- where the records of a run come from

  predicate InitiatedBy(r: RotationRecord, step: Step) {
    && step.InitiateStep? && step.stake >= 10_000
    && step.input == InitiateInput(r.validatorId, r.newPublicKey, r.rotationId)
    && step.clock == Clock(r.initiatedEpoch, r.initiatedSlot)
  }

  ghost predicate ApprovedBy(r: RotationRecord, step: Step) {
    && step.SettleApprovalStep? && step.id == r.rotationId && step.outcome.Resolved? && Proves(step.outcome.result, r.rotationId)
    && Elements(r.approvals) == Elements(step.outcome.result.approvals) && r.approvedEpoch == Some(step.clock.epoch)
  }

  predicate ActivatedBy(r: RotationRecord, step: Step) {
    && step.ActivateStep? && step.id == r.rotationId
    && r.activatedEpoch == Some(step.clock.epoch) && r.activationSlot == Some(step.clock.slot)
  }

  predicate RetiredBy(r: RotationRecord, step: Step) {
    && step.RetireStep? && step.id == r.rotationId && r.retiredEpoch == Some(step.clock.epoch)
    && r.activationSlot.Some? && step.clock.slot - r.activationSlot.value >= 4_096
  }

  /** The record was initiated with enough stake, and reached each of its phases by a step that allowed it. */
  ghost predicate Earned(r: RotationRecord, steps: seq<Step>) {
    && (exists step :: step in steps && InitiatedBy(r, step))
    && (Rank(r.phase) >= 1 ==> exists step :: step in steps && ApprovedBy(r, step))
    && (Rank(r.phase) >= 2 ==> exists step :: step in steps && ActivatedBy(r, step))
    && (Rank(r.phase) >= 3 ==> exists step :: step in steps && RetiredBy(r, step))
  }

  lemma StillEarned(r: RotationRecord, steps: seq<Step>, last: Step)
    requires Earned(r, steps)
    ensures Earned(r, steps + [last])
  {
    assert forall step :: step in steps ==> step in steps + [last];
    hide InitiatedBy;
    hide ApprovedBy;
    hide ActivatedBy;
    hide RetiredBy;
  }

  // The step that gives a record its next phase.
  lemma NextPhaseEarned(s: System, steps: seq<Step>, last: Step, id: string)
    requires Inv(s) && id in Apply(s, last).rotations
    requires id in s.rotations ==> Earned(s.rotations[id], steps)
    ensures Earned(Apply(s, last).rotations[id], steps + [last])
  {
    hide Earned;
    hide KeysOk;
    hide QuorumOk;
    var q := Apply(s, last).rotations[id];
    if id in s.rotations && q == s.rotations[id] {
      StillEarned(q, steps, last);
    } else {
      if id in s.rotations { StillEarned(s.rotations[id], steps, last); }
      match last
      case InitiateStep(input, stake, clock) => InitiatedIsEarned(s, steps, last, id);
      case SettleApprovalStep(k, outcome, clock) => ApprovedIsEarned(s, steps, last);
      case ActivateStep(k, clock) => ActivatedIsEarned(s, steps, last);
      case RetireStep(k, clock) => RetiredIsEarned(s, steps, last);
    }
  }

  lemma InitiatedIsEarned(s: System, steps: seq<Step>, last: Step, id: string)
    requires Inv(s) && last.InitiateStep? && id in Apply(s, last).rotations
    requires id !in s.rotations || Apply(s, last).rotations[id] != s.rotations[id]
    ensures Earned(Apply(s, last).rotations[id], steps + [last])
  {
    assert last in steps + [last];
    InitiateRecords(s, last.input, last.stake, last.clock);
    InitiateIff(s, last.input, last.stake, last.clock);
    assert InitiatedBy(Apply(s, last).rotations[id], last);
  }

  // A later phase keeps what the earlier ones were earned with.
  lemma EarnedSoFar(r: RotationRecord, q: RotationRecord, steps: seq<Step>)
    requires Earned(r, steps) && ProposalOf(q) == ProposalOf(r) && r.rotationId == q.rotationId
    requires Rank(r.phase) >= 1 ==> q.approvals == r.approvals && q.approvedEpoch == r.approvedEpoch
    requires Rank(r.phase) >= 2 ==> q.activatedEpoch == r.activatedEpoch && q.activationSlot == r.activationSlot
    ensures exists step :: step in steps && InitiatedBy(q, step)
    ensures Rank(r.phase) >= 1 ==> exists step :: step in steps && ApprovedBy(q, step)
    ensures Rank(r.phase) >= 2 ==> exists step :: step in steps && ActivatedBy(q, step)
  {
    var i :| i in steps && InitiatedBy(r, i);
    assert InitiatedBy(q, i);
    if Rank(r.phase) >= 1 {
      var a :| a in steps && ApprovedBy(r, a);
      assert ApprovedBy(q, a);
    }
    if Rank(r.phase) >= 2 {
      var a :| a in steps && ActivatedBy(r, a);
      assert ActivatedBy(q, a);
    }
  }

  lemma ApprovedIsEarned(s: System, steps: seq<Step>, last: Step)
    requires Inv(s) && last.SettleApprovalStep? && last.id in s.rotations && Earned(s.rotations[last.id], steps + [last])
    requires Apply(s, last).rotations[last.id] != s.rotations[last.id]
    ensures Earned(Apply(s, last).rotations[last.id], steps + [last])
  {
    var r, q := s.rotations[last.id], Apply(s, last).rotations[last.id];
    assert last in steps + [last] && RotationOk(s, last.id);
    PersistIff(s, last.id, last.outcome.result, last.clock);
    EarnedSoFar(r, q, steps + [last]);
    assert ApprovedBy(q, last);
  }

  lemma ActivatedIsEarned(s: System, steps: seq<Step>, last: Step)
    requires Inv(s) && last.ActivateStep? && last.id in s.rotations && Earned(s.rotations[last.id], steps + [last])
    requires Apply(s, last).rotations[last.id] != s.rotations[last.id]
    ensures Earned(Apply(s, last).rotations[last.id], steps + [last])
  {
    var r, q := s.rotations[last.id], Apply(s, last).rotations[last.id];
    assert last in steps + [last] && RotationOk(s, last.id);
    ActivateIff(s, last.id, last.clock);
    EarnedSoFar(r, q, steps + [last]);
    assert ActivatedBy(q, last);
  }

  lemma RetiredIsEarned(s: System, steps: seq<Step>, last: Step)
    requires Inv(s) && last.RetireStep? && last.id in s.rotations && Earned(s.rotations[last.id], steps + [last])
    requires Apply(s, last).rotations[last.id] != s.rotations[last.id]
    ensures Earned(Apply(s, last).rotations[last.id], steps + [last])
  {
    var r, q := s.rotations[last.id], Apply(s, last).rotations[last.id];
    assert last in steps + [last] && RotationOk(s, last.id);
    RetireIff(s, last.id, last.clock);
    EarnedSoFar(r, q, steps + [last]);
    assert RetiredBy(q, last);
  }

  /**
   In every run each recorded rotation comes from an initiate with at least 10 000
   staked and its keys and coordinates, and each phase it has reached from a proved
   quorum, an activation with its coordinates, and a retirement 4096 slots later.
   */
  lemma {:induction false} EveryRotationIsEarned(steps: seq<Step>, id: string)
    requires id in Run(EMPTY_SYSTEM, steps).rotations
    ensures Earned(Run(EMPTY_SYSTEM, steps).rotations[id], steps)
  {
    if steps != [] {
      var front, last := steps[..|steps| - 1], steps[|steps| - 1];
      var s := Run(EMPTY_SYSTEM, front);
      EmptySystemInv();
      RunKeepsInv(EMPTY_SYSTEM, front);
      if id in s.rotations { EveryRotationIsEarned(front, id); }
      NextPhaseEarned(s, front, last, id);
      assert front + [last] == steps;
    }
  }

  // ---------------------------------------------------------------- the reason of a decision

  // When the old key and the new one signed, for evidence that names just those two.
  function SlotOf(e: Evidence, key: string): int {
    if e.firstPublicKey == key then e.firstSigningSlot else e.secondSigningSlot
  }

  predicate AroundActivation(e: Evidence, r: RotationRecord, clock: Clock) {
    && r.activationSlot.Some?
    && 0 <= SlotOf(e, r.oldPublicKey) < r.activationSlot.value <= SlotOf(e, r.newPublicKey) <= clock.slot <= MAX_SAFE_INTEGER
  }

  predicate InGrace(r: RotationRecord, clock: Clock) {
    r.activatedEpoch.Some? && r.activatedEpoch.value <= clock.epoch < r.activatedEpoch.value + 256 && clock.epoch <= MAX_SAFE_INTEGER
  }

  // The first condition, in the order of the checks, that the evidence does not meet.
  ghost function FirstUnmet(s: System, e: Evidence, clock: Clock): Reason {
    if e.misbehaviorType != "DOUBLE_SIGNING" then NotDoubleSigning
    else if e.rotationId.None? || e.rotationId.value !in s.rotations then NoKnownRotation
    else
      var r := s.rotations[e.rotationId.value];
      if r.phase != Activate then RotationNotActivated
      else if r.validatorId != e.validatorId then ValidatorMismatch
      else if {e.firstPublicKey, e.secondPublicKey} != {r.oldPublicKey, r.newPublicKey} then KeyPairMismatch
      else if !AroundActivation(e, r, clock) then EvidenceOutsideTransition
      else if !InGrace(r, clock) then OutsideGracePeriod
      else LegitimateRotationOverlap
  }

  predicate CoordinatesOk(r: RotationRecord) {
    && (r.activationSlot.Some? ==> IsProtocolNumber(r.activationSlot.value))
    && (r.activatedEpoch.Some? ==> IsProtocolNumber(r.activatedEpoch.value))
  }

  // For an activated record whose redundant checks pass.
  lemma DecidedInOrder(s: System, e: Evidence, clock: Clock)
    requires "" !in s.rotations
    requires forall id :: id in s.rotations && s.rotations[id].phase == Activate ==>
               var r := s.rotations[id];
               && r.oldPublicKey != r.newPublicKey && r.approvedEpoch.Some? && r.activatedEpoch.Some? && r.activationSlot.Some?
               && CommitmentValid(r) && KeyStateValid(s.registry, r) && CoordinatesOk(r)
    ensures Calculate(s, e, clock) == FirstUnmet(s, e, clock)
  {
    hide CommitmentValid;
    hide KeyStateValid;
    if e.misbehaviorType == "DOUBLE_SIGNING" && e.rotationId.Some? && e.rotationId.value in s.rotations {
      var r := s.rotations[e.rotationId.value];
      if r.phase == Activate {
        SamePair(e, r);
      }
    }
  }

  lemma SamePair(e: Evidence, r: RotationRecord)
    requires r.oldPublicKey != r.newPublicKey
    ensures IsPair(e, r) <==> {e.firstPublicKey, e.secondPublicKey} == {r.oldPublicKey, r.newPublicKey}
    ensures IsPair(e, r) ==> e.firstPublicKey != e.secondPublicKey
    ensures IsPair(e, r) ==> SlotOf(e, r.oldPublicKey) == OldKeySlot(e, r) && SlotOf(e, r.newPublicKey) == NewKeySlot(e, r)
  {
    var named, own := {e.firstPublicKey, e.secondPublicKey}, {r.oldPublicKey, r.newPublicKey};
    if named == own {
      assert r.oldPublicKey in named && r.newPublicKey in named && e.firstPublicKey in own && e.secondPublicKey in own;
    }
  }

  /** In every run the decision names the first condition the evidence does not meet; the checks of quorum and keys add none. */
  lemma ReasonIsTheFirstUnmet(steps: seq<Step>, e: Evidence, clock: Clock)
    ensures var s := Run(EMPTY_SYSTEM, steps); Calculate(s, e, clock) == FirstUnmet(s, e, clock)
  {
    var s := Run(EMPTY_SYSTEM, steps);
    EmptySystemInv();
    RunKeepsInv(EMPTY_SYSTEM, steps);
    assert "" in s.rotations ==> RotationOk(s, "");
    forall id | id in s.rotations && s.rotations[id].phase == Activate
      ensures var r := s.rotations[id];
              && r.oldPublicKey != r.newPublicKey && r.approvedEpoch.Some? && r.activatedEpoch.Some? && r.activationSlot.Some?
              && CommitmentValid(r) && KeyStateValid(s.registry, r) && CoordinatesOk(r)
    {
      ActivatedKeysDiffer(s, id);
      ActivatedChecksPass(s, id);
      ActivatedAtValidClock(steps, id);
    }
    hide Calculate;
    hide FirstUnmet;
    DecidedInOrder(s, e, clock);
  }

  lemma {:induction false} ActivatedAtValidClock(steps: seq<Step>, id: string)
    requires id in Run(EMPTY_SYSTEM, steps).rotations
    ensures CoordinatesOk(Run(EMPTY_SYSTEM, steps).rotations[id])
  {
    if steps != [] {
      var front, last := steps[..|steps| - 1], steps[|steps| - 1];
      var s := Run(EMPTY_SYSTEM, front);
      EmptySystemInv();
      RunKeepsInv(EMPTY_SYSTEM, front);
      if id in s.rotations { ActivatedAtValidClock(front, id); }
      CoordinatesStep(s, last, id);
    }
  }

  lemma CoordinatesStep(s: System, last: Step, id: string)
    requires Inv(s) && id in Apply(s, last).rotations && (id in s.rotations ==> CoordinatesOk(s.rotations[id]))
    ensures CoordinatesOk(Apply(s, last).rotations[id])
  {
    match last
    case InitiateStep(input, stake, clock) => if s.ResumeInitiate(input, stake, clock).Ok? { InitiateRecords(s, input, stake, clock); }
    case SettleApprovalStep(k, outcome, clock) =>
      if k in s.rotations && s.rotations[k].phase == Initiate && outcome.Resolved? { PersistIff(s, k, outcome.result, clock); }
    case ActivateStep(k, clock) => ActivateIff(s, k, clock);
    case RetireStep(k, clock) => RetireIff(s, k, clock);
    case _ =>
  }
}
