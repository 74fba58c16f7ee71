/**
 The key registry, the rotation ceremony and the penalty calculator as one
 system: the joint invariant, and what it gives for every run.

 A run is any sequence of the atomic steps of the components.  ResumeInitiate
 and SettleApproval may come at any time and with any commitment, which covers
 every interleaving of the asynchronous calls and every committer.
 */
module RotationSystem {
  import opened Common
  import opened RotationCeremony
  import opened PenaltyCalculator
  import K = KeyRegistry
  import B = CommitmentBroadcaster

  datatype Step =
    | RegisterActiveKey(validatorId: string, publicKey: string, registeredEpoch: int,
                        activationEpoch: Option<int>, activationSlot: Option<int>)
    | InitiateStep(input: InitiateInput, stake: int, clock: Clock)
    | BeginApproveStep(id: string)
    | SettleApprovalStep(id: string, outcome: B.Outcome, clock: Clock)
    | ActivateStep(id: string, clock: Clock)
    | RetireStep(id: string, clock: Clock)

  function OrSame(s: System, r: Result<System, CeremonyError>): System {
    if r.Ok? then r.value else s
  }

  // A call that throws leaves the system as it was.
  function Apply(s: System, step: Step): System {
    match step
    case RegisterActiveKey(v, k, e, ae, slot) =>
      var next := s.registry.RegisterActive(v, k, e, ae, slot);
      if next.Ok? then s.(registry := next.value) else s
    case InitiateStep(input, stake, clock) => OrSame(s, s.ResumeInitiate(input, stake, clock))
    case BeginApproveStep(id) => OrSame(s, s.BeginApprove(id))
    case SettleApprovalStep(id, outcome, clock) =>
      OrSame(s, s.SettleApproval(id, outcome, clock)).(attempts := s.attempts - {id})
    case ActivateStep(id, clock) => OrSame(s, s.ActivateRotation(id, clock))
    case RetireStep(id, clock) => OrSame(s, s.RetireRotation(id, clock))
  }

  function Run(s: System, steps: seq<Step>): System {
    if steps == [] then s else Apply(Run(s, steps[..|steps| - 1]), steps[|steps| - 1])
  }

  // ---------------------------------------------------------------- invariant

  ghost predicate HasKey(g: K.Registry, k: string, v: string, state: K.KeyState, enabled: bool) {
    k in g.keys && g.keys[k].validatorId == v && g.keys[k].state == state && g.keys[k].signingEnabled == enabled
  }

  // What each phase of a rotation says about its two keys.
  ghost predicate KeysOk(g: K.Registry, r: RotationRecord) {
    match r.phase
    case Activate =>
      && HasKey(g, r.oldPublicKey, r.validatorId, K.Active, false) && HasKey(g, r.newPublicKey, r.validatorId, K.Active, true)
      && r.activatedEpoch.Some? && r.activationSlot.Some?
      && g.SameCoordinates(r.oldPublicKey, r.newPublicKey, r.activatedEpoch.value, r.activationSlot.value)
    case Retire =>
      r.oldPublicKey in g.keys && g.keys[r.oldPublicKey].state == K.Retired
    case _ =>
      HasKey(g, r.oldPublicKey, r.validatorId, K.Active, true) && HasKey(g, r.newPublicKey, r.validatorId, K.Pending, false)
  }

  ghost predicate RotationOk(s: System, id: string)
    requires id in s.rotations
  {
    var r := s.rotations[id];
    && id != "" && r.rotationId == id
    && KeysOk(s.registry, r)
    && (r.phase != Retire ==> r.validatorId in s.activeByValidator && s.activeByValidator[r.validatorId] == id)
  }

  ghost predicate ActiveOk(s: System, v: string)
    requires v in s.activeByValidator
  {
    var id := s.activeByValidator[v];
    id in s.rotations && s.rotations[id].validatorId == v && s.rotations[id].phase != Retire
  }

  // Every reservation belongs to the unfinished, not yet activated rotation of its validator.
  ghost predicate PendingOk(s: System, v: string)
    requires v in s.registry.pending
  {
    && v in s.activeByValidator && s.activeByValidator[v] in s.rotations
    && var r := s.rotations[s.activeByValidator[v]];
       (r.phase == Initiate || r.phase == Approve) && r.newPublicKey == s.registry.pending[v]
  }

  // From APPROVE on a record carries a proved quorum.
  ghost predicate QuorumOk(r: RotationRecord) {
    Rank(r.phase) >= Rank(Approve) ==>
      && r.approvedEpoch.Some? && r.approvalThreshold.Some?
      && NoDuplicates(r.approvals) && NoDuplicates(r.approvalValidatorSet)
      && QuorumProved(r.approvals, r.approvalThreshold.value, r.approvalValidatorSet)
  }

  // The maps of the ceremony agree with each other and with the registry.
  ghost predicate Linked(s: System) {
    && (forall id {:trigger RotationOk(s, id)} :: id in s.rotations ==> RotationOk(s, id))
    && (forall v {:trigger ActiveOk(s, v)} :: v in s.activeByValidator ==> ActiveOk(s, v))
    && (forall v {:trigger PendingOk(s, v)} :: v in s.registry.pending ==> PendingOk(s, v))
  }

  /** The joint invariant of the registry and the ceremony. */
  ghost predicate Inv(s: System) {
    && s.registry.Valid()
    && Linked(s)
    && (forall id {:trigger QuorumOk(s.rotations[id])} :: id in s.rotations ==> QuorumOk(s.rotations[id]))
  }

  function Rank(phase: Phase): nat {
    match phase case Initiate => 0 case Approve => 1 case Activate => 2 case Retire => 3
  }

  // ---------------------------------------------------------------- the registry side of a step

  ghost predicate KeysKept(g: K.Registry, h: K.Registry, except: set<string>) {
    forall k :: k in g.keys && k !in except ==> k in h.keys && h.keys[k] == g.keys[k]
  }

  // A key that may no longer sign.
  ghost predicate SignedOff(g: K.Registry, k: string) {
    k in g.keys && !g.keys[k].signingEnabled && g.keys[k].state != K.Pending
  }

  // Keys are never forgotten, keep their owner, and once signed off stay so; retired ones are final.
  ghost predicate RegistryLater(g: K.Registry, h: K.Registry) {
    forall k :: k in g.keys ==>
      && k in h.keys && h.keys[k].validatorId == g.keys[k].validatorId
      && (SignedOff(g, k) ==> SignedOff(h, k))
      && (g.keys[k].state == K.Retired ==> h.keys[k] == g.keys[k])
  }

  lemma KeptIsLater(g: K.Registry, h: K.Registry)
    requires KeysKept(g, h, {})
    ensures RegistryLater(g, h)
  {
  }

  lemma ReserveEffect(g: K.Registry, v: string, k: string, e: int)
    requires g.Valid() && g.ReservePending(v, k, e).Ok?
    ensures var h := g.ReservePending(v, k, e).value;
            && h.Valid() && KeysKept(g, h, {}) && h.pending == g.pending[v := k]
            && HasKey(h, k, v, K.Pending, false)
            && v !in g.pending && k !in g.keys
  {
    K.ReservePendingKeepsValid(g, v, k, e);
  }

  lemma ActivateEffect(g: K.Registry, v: string, o: string, n: string, e: int, slot: int)
    requires g.Valid() && g.ActivateRotation(v, o, n, e, slot).Ok?
    requires HasKey(g, o, v, K.Active, true) && HasKey(g, n, v, K.Pending, false)
    ensures var h := g.ActivateRotation(v, o, n, e, slot).value;
            && h.Valid() && KeysKept(g, h, {o, n}) && h.pending == g.pending - {v}
            && HasKey(h, o, v, K.Active, false) && HasKey(h, n, v, K.Active, true)
            && h.SameCoordinates(o, n, e, slot)
            && RegistryLater(g, h)
  {
    K.ActivateKeepsValid(g, v, o, n, e, slot);
  }

  lemma RetireEffect(g: K.Registry, v: string, o: string, e: int)
    requires g.Valid() && g.Retire(v, o, e).Ok? && HasKey(g, o, v, K.Active, false)
    ensures var h := g.Retire(v, o, e).value;
            && h.Valid() && KeysKept(g, h, {o}) && h.pending == g.pending
            && o in h.keys && h.keys[o].state == K.Retired
            && RegistryLater(g, h)
  {
    K.RetireKeepsValid(g, v, o, e);
  }

  // ---------------------------------------------------------------- the ceremony side of a step

  // A rotation none of whose keys changed keeps its key condition.
  lemma KeptKeysOk(g: K.Registry, h: K.Registry, r: RotationRecord, except: set<string>)
    requires KeysOk(g, r) && KeysKept(g, h, except)
    requires r.oldPublicKey !in except && (r.phase != Retire ==> r.newPublicKey !in except)
    ensures KeysOk(h, r)
  {
  }

  // The state after a step that concerns one rotation of one validator.
  ghost predicate OneRotationStep(s: System, next: System, id: string, except: set<string>) {
    && KeysKept(s.registry, next.registry, except)
    && id in next.rotations && next.rotations == s.rotations[id := next.rotations[id]]
    && RotationOk(next, id)
    && var v := next.rotations[id].validatorId;
    && (forall w :: w != v ==> (w in next.activeByValidator <==> w in s.activeByValidator))
    && (forall w :: w != v && w in s.activeByValidator ==> next.activeByValidator[w] == s.activeByValidator[w])
    && (forall w :: w != v ==> (w in next.registry.pending <==> w in s.registry.pending))
    && (forall w :: w != v && w in s.registry.pending ==> next.registry.pending[w] == s.registry.pending[w])
    && (v in next.activeByValidator ==> ActiveOk(next, v))
    && (v in next.registry.pending ==> PendingOk(next, v))
    && (id in s.rotations ==> s.rotations[id].validatorId == v)
  }

  // No other rotation uses the changed keys, or is unfinished for the same validator.
  ghost predicate Separate(s: System, id: string, v: string, except: set<string>) {
    forall k :: k in s.rotations && k != id ==>
      && s.rotations[k].oldPublicKey !in except
      && (s.rotations[k].phase != Retire ==> s.rotations[k].newPublicKey !in except && s.rotations[k].validatorId != v)
  }

  lemma OneRotationKeepsLinked(s: System, next: System, id: string, except: set<string>)
    requires Linked(s) && OneRotationStep(s, next, id, except)
    requires Separate(s, id, next.rotations[id].validatorId, except)
    ensures Linked(next)
  {
    forall k | k in next.rotations ensures RotationOk(next, k) {
      if k != id {
        assert RotationOk(s, k);
        KeptKeysOk(s.registry, next.registry, s.rotations[k], except);
      }
    }
    forall w | w in next.activeByValidator ensures ActiveOk(next, w) {
      if w != next.rotations[id].validatorId { assert ActiveOk(s, w); }
    }
    forall w | w in next.registry.pending ensures PendingOk(next, w) {
      if w != next.rotations[id].validatorId { assert PendingOk(s, w) && ActiveOk(s, w); }
    }
  }

  lemma UnfinishedAreSeparate(s: System, id: string)
    requires Linked(s) && id in s.rotations && s.rotations[id].phase != Retire
    ensures Separate(s, id, s.rotations[id].validatorId, {s.rotations[id].oldPublicKey, s.rotations[id].newPublicKey})
    ensures Separate(s, id, s.rotations[id].validatorId, {s.rotations[id].oldPublicKey})
  {
    assert RotationOk(s, id);
    assert forall k :: k in s.rotations ==> RotationOk(s, k);
  }

  lemma NoneUnfinished(s: System, v: string, id: string)
    requires Linked(s) && (v in s.activeByValidator ==> s.activeByValidator[v] == "")
    ensures Separate(s, id, v, {})
  {
    assert forall k :: k in s.rotations ==> RotationOk(s, k);
  }

  // How a later record of a rotation may differ from an earlier one.
  ghost predicate RecordLater(r: RotationRecord, q: RotationRecord) {
    && ProposalOf(q) == ProposalOf(r)
    && Rank(r.phase) <= Rank(q.phase)
    && (Rank(r.phase) >= Rank(Approve) ==> q.approvals == r.approvals && q.approvalValidatorSet == r.approvalValidatorSet)
    && (Rank(r.phase) >= Rank(Activate) ==> q.activatedEpoch == r.activatedEpoch && q.activationSlot == r.activationSlot)
  }

  ghost predicate Later(s: System, t: System) {
    && RegistryLater(s.registry, t.registry)
    && (forall id :: id in s.rotations ==> id in t.rotations && RecordLater(s.rotations[id], t.rotations[id]))
  }

  // ---------------------------------------------------------------- one step

  lemma RegisterStepOk(s: System, v: string, k: string, e: int, ae: Option<int>, slot: Option<int>)
    requires Inv(s)
    ensures var next := Apply(s, RegisterActiveKey(v, k, e, ae, slot)); Inv(next) && Later(s, next)
  {
    var next := Apply(s, RegisterActiveKey(v, k, e, ae, slot));
    K.RegisterActiveKeepsValid(s.registry, v, k, e, ae, slot);
    SameCeremony(s, next);
  }

  lemma SameCeremony(s: System, next: System)
    requires Linked(s) && KeysKept(s.registry, next.registry, {}) && next.registry.pending == s.registry.pending
    requires next.rotations == s.rotations && next.activeByValidator == s.activeByValidator
    ensures Linked(next) && Later(s, next)
  {
    KeptIsLater(s.registry, next.registry);
    forall id | id in next.rotations ensures RotationOk(next, id) {
      assert RotationOk(s, id);
      KeptKeysOk(s.registry, next.registry, s.rotations[id], {});
    }
    forall w | w in next.activeByValidator ensures ActiveOk(next, w) { assert ActiveOk(s, w); }
    forall w | w in next.registry.pending ensures PendingOk(next, w) { assert PendingOk(s, w); }
  }

  // A step that replaces the record of one unfinished rotation.
  lemma ReplaceRecordIsOneRotationStep(s: System, next: System, id: string, except: set<string>)
    requires Linked(s) && id in s.rotations && s.rotations[id].phase != Retire && id in next.rotations
    requires next.rotations == s.rotations[id := next.rotations[id]]
    requires var q := next.rotations[id];
             && q.validatorId == s.rotations[id].validatorId && q.rotationId == id && q.newPublicKey == s.rotations[id].newPublicKey
             && KeysOk(next.registry, q)
             && next.activeByValidator == (if q.phase == Retire then s.activeByValidator - {q.validatorId} else s.activeByValidator)
             && next.registry.pending == (if q.phase == Activate then s.registry.pending - {q.validatorId} else s.registry.pending)
             && (q.phase == Retire ==> s.rotations[id].phase == Activate)
             && (q.phase == Approve ==> s.rotations[id].phase == Initiate)
    requires KeysKept(s.registry, next.registry, except)
    ensures OneRotationStep(s, next, id, except)
  {
    var v := s.rotations[id].validatorId;
    assert RotationOk(s, id);
    assert v in s.registry.pending ==> PendingOk(s, v);
  }

  lemma ReplaceRecord(s: System, next: System, id: string, except: set<string>)
    requires Linked(s) && OneRotationStep(s, next, id, except)
    requires id in s.rotations && s.rotations[id].phase != Retire
    requires except <= {s.rotations[id].oldPublicKey, s.rotations[id].newPublicKey}
    ensures Linked(next)
  {
    UnfinishedAreSeparate(s, id);
    OneRotationKeepsLinked(s, next, id, except);
  }

  lemma AddRecord(s: System, next: System, id: string)
    requires Linked(s) && id !in s.rotations && id != "" && id in next.rotations
    requires next.rotations == s.rotations[id := next.rotations[id]]
    requires var q := next.rotations[id];
             && q.rotationId == id && q.phase == Initiate && KeysOk(next.registry, q)
             && (q.validatorId in s.activeByValidator ==> s.activeByValidator[q.validatorId] == "")
             && next.activeByValidator == s.activeByValidator[q.validatorId := id]
             && next.registry.pending == s.registry.pending[q.validatorId := q.newPublicKey]
    requires KeysKept(s.registry, next.registry, {})
    ensures Linked(next)
  {
    NoneUnfinished(s, next.rotations[id].validatorId, id);
    assert OneRotationStep(s, next, id, {});
    OneRotationKeepsLinked(s, next, id, {});
  }

  lemma Assemble(s: System, next: System, id: string)
    requires Inv(s) && Linked(next) && next.registry.Valid() && RegistryLater(s.registry, next.registry)
    requires id in next.rotations && next.rotations == s.rotations[id := next.rotations[id]]
    requires QuorumOk(next.rotations[id])
    requires id in s.rotations ==> RecordLater(s.rotations[id], next.rotations[id])
    ensures Inv(next) && Later(s, next)
  {
    forall k | k in next.rotations ensures QuorumOk(next.rotations[k]) {
      if k != id { assert k in s.rotations && QuorumOk(s.rotations[k]); }
    }
  }

  lemma InitiateStepOk(s: System, input: InitiateInput, stake: int, clock: Clock)
    requires Inv(s) && s.ResumeInitiate(input, stake, clock).Ok?
    ensures var next := s.ResumeInitiate(input, stake, clock).value; Inv(next) && Later(s, next)
  {
    var next := s.ResumeInitiate(input, stake, clock).value;
    var v, id, k := input.validatorId, input.rotationId, input.newPublicKey;
    var oldKey := s.registry.current[v];
    ReserveEffect(s.registry, v, k, clock.epoch);
    KeptIsLater(s.registry, next.registry);
    assert s.registry.keys[oldKey].publicKey == oldKey && HasKey(s.registry, oldKey, v, K.Active, true);
    AddRecord(s, next, id);
    Assemble(s, next, id);
  }

  lemma PersistStepOk(s: System, id: string, commitment: B.CommitResult, clock: Clock)
    requires Inv(s) && s.PersistApproval(id, commitment, clock).Ok?
    ensures var next := s.PersistApproval(id, commitment, clock).value; Inv(next) && Later(s, next)
  {
    var next := s.PersistApproval(id, commitment, clock).value;
    KeptIsLater(s.registry, s.registry);
    if s.rotations[id].phase == Initiate {
      assert RotationOk(s, id);
      ReplaceRecordIsOneRotationStep(s, next, id, {});
      ReplaceRecord(s, next, id, {});
      Assemble(s, next, id);
    }
  }

  lemma ActivateStepOk(s: System, id: string, clock: Clock)
    requires Inv(s) && s.ActivateRotation(id, clock).Ok?
    ensures var next := s.ActivateRotation(id, clock).value; Inv(next) && Later(s, next)
  {
    var next := s.ActivateRotation(id, clock).value;
    var r := s.rotations[id];
    KeptIsLater(s.registry, s.registry);
    if r.phase == Approve {
      assert RotationOk(s, id) && QuorumOk(r);
      ActivateEffect(s.registry, r.validatorId, r.oldPublicKey, r.newPublicKey, clock.epoch, clock.slot);
      ReplaceRecordIsOneRotationStep(s, next, id, {r.oldPublicKey, r.newPublicKey});
      ReplaceRecord(s, next, id, {r.oldPublicKey, r.newPublicKey});
      Assemble(s, next, id);
    }
  }

  lemma RetireStepOk(s: System, id: string, clock: Clock)
    requires Inv(s) && s.RetireRotation(id, clock).Ok?
    ensures var next := s.RetireRotation(id, clock).value; Inv(next) && Later(s, next)
  {
    var next := s.RetireRotation(id, clock).value;
    var r := s.rotations[id];
    KeptIsLater(s.registry, s.registry);
    if r.phase == Activate {
      assert RotationOk(s, id) && QuorumOk(r);
      RetireEffect(s.registry, r.validatorId, r.oldPublicKey, clock.epoch);
      ReplaceRecordIsOneRotationStep(s, next, id, {r.oldPublicKey});
      ReplaceRecord(s, next, id, {r.oldPublicKey});
      Assemble(s, next, id);
    }
  }

  lemma AttemptsDoNotMatter(s: System, t: System, attempts: set<string>)
    requires Inv(t) && Later(s, t)
    ensures Inv(t.(attempts := attempts)) && Later(s, t.(attempts := attempts))
  {
    var next := t.(attempts := attempts);
    forall k | k in next.rotations ensures RotationOk(next, k) { assert RotationOk(t, k); }
    forall w | w in next.activeByValidator ensures ActiveOk(next, w) { assert ActiveOk(t, w); }
    forall w | w in next.registry.pending ensures PendingOk(next, w) { assert PendingOk(t, w); }
  }

  lemma StepOk(s: System, step: Step)
    requires Inv(s)
    ensures Inv(Apply(s, step)) && Later(s, Apply(s, step))
  {
    KeptIsLater(s.registry, s.registry);
    match step
    case RegisterActiveKey(v, k, e, ae, slot) => RegisterStepOk(s, v, k, e, ae, slot);
    case InitiateStep(input, stake, clock) => if s.ResumeInitiate(input, stake, clock).Ok? { InitiateStepOk(s, input, stake, clock); }
    case BeginApproveStep(id) => AttemptsDoNotMatter(s, s, s.attempts + {id});
    case SettleApprovalStep(id, outcome, clock) => SettleStepOk(s, id, outcome, clock);
    case ActivateStep(id, clock) => if s.ActivateRotation(id, clock).Ok? { ActivateStepOk(s, id, clock); }
    case RetireStep(id, clock) => if s.RetireRotation(id, clock).Ok? { RetireStepOk(s, id, clock); }
  }

  lemma SettleStepOk(s: System, id: string, outcome: B.Outcome, clock: Clock)
    requires Inv(s)
    ensures var next := Apply(s, SettleApprovalStep(id, outcome, clock)); Inv(next) && Later(s, next)
  {
    KeptIsLater(s.registry, s.registry);
    if outcome.Resolved? && s.PersistApproval(id, outcome.result, clock).Ok? { PersistStepOk(s, id, outcome.result, clock); }
    AttemptsDoNotMatter(s, OrSame(s, s.SettleApproval(id, outcome, clock)), s.attempts - {id});
  }

  // ---------------------------------------------------------------- over whole runs

  lemma EmptySystemInv()
    ensures Inv(EMPTY_SYSTEM)
  {
  }

  /** The registry and the ceremony agree after every run, so assertConsistent never throws. */
  lemma {:induction false} RunKeepsInv(s: System, steps: seq<Step>)
    requires Inv(s)
    ensures Inv(Run(s, steps))
    ensures Run(s, steps).registry.IndexesConsistent()
  {
    if steps != [] {
      RunKeepsInv(s, steps[..|steps| - 1]);
      StepOk(Run(s, steps[..|steps| - 1]), steps[|steps| - 1]);
    }
  }

  /**
   Through every run a key that was disabled or retired never signs again, no key
   is forgotten, and every rotation only moves forward with its keys, quorum and
   activation coordinates fixed.
   */
  lemma {:induction false} RunIsLater(s: System, steps: seq<Step>)
    requires Inv(s)
    ensures Later(s, Run(s, steps))
  {
    if steps == [] {
      KeptIsLater(s.registry, s.registry);
    } else {
      var before := Run(s, steps[..|steps| - 1]);
      RunIsLater(s, steps[..|steps| - 1]);
      RunKeepsInv(s, steps[..|steps| - 1]);
      StepOk(before, steps[|steps| - 1]);
      LaterTransitive(s, before, Run(s, steps));
    }
  }

  lemma LaterTransitive(s: System, t: System, u: System)
    requires Later(s, t) && Later(t, u)
    ensures Later(s, u)
  {
  }

  // ---------------------------------------------------------------- what never fails

  /** Activation of an approved rotation never fails in the registry. */
  lemma ApprovedRotationActivates(s: System, id: string, clock: Clock)
    requires Inv(s) && id in s.rotations && s.rotations[id].phase == Approve && clock.Valid()
    ensures s.ActivateRotation(id, clock).Ok?
    ensures var next := s.ActivateRotation(id, clock).value;
            var r := s.rotations[id];
            && next.rotations[id].phase == Activate
            && HasKey(next.registry, r.oldPublicKey, r.validatorId, K.Active, false)
            && HasKey(next.registry, r.newPublicKey, r.validatorId, K.Active, true)
            && next.registry.IsCurrent(r.validatorId, r.newPublicKey)
            && r.validatorId !in next.registry.pending
  {
    assert RotationOk(s, id);
  }

  /** Retiring an activated rotation can fail only for the delay. */
  lemma RetireFailsOnlyForDelay(s: System, id: string, clock: Clock)
    requires Inv(s) && id in s.rotations && s.rotations[id].phase == Activate && clock.Valid()
    ensures s.rotations[id].activationSlot.Some?
    ensures s.RetireRotation(id, clock).Err? <==> clock.slot < s.rotations[id].activationSlot.value + 4_096
    ensures s.RetireRotation(id, clock).Err? ==> s.RetireRotation(id, clock).error == RetirementDelay
    ensures s.RetireRotation(id, clock).Ok? ==> s.rotations[id].validatorId !in s.RetireRotation(id, clock).value.activeByValidator
  {
    assert RotationOk(s, id);
  }

  /** Once the checks of initiate have passed, the registry refuses only an unusable or known new key. */
  lemma InitiateFailsOnlyForNewKey(s: System, input: InitiateInput, stake: int, clock: Clock)
    requires Inv(s)
    requires stake >= MIN_ROTATION_STAKE && clock.Valid()
    requires input.validatorId !in s.activeByValidator && input.validatorId in s.registry.current
    requires input.rotationId != "" && input.rotationId !in s.rotations
    requires !K.IsBlank(input.validatorId)
    ensures s.ResumeInitiate(input, stake, clock).Ok?
       <==> !K.IsBlank(input.newPublicKey) && input.newPublicKey !in s.registry.keys
  {
    assert input.validatorId in s.registry.pending ==> PendingOk(s, input.validatorId);
  }

  /** At most one rotation of a validator is unfinished, and it is the indexed one. */
  lemma OneUnfinishedRotation(s: System, id1: string, id2: string)
    requires Inv(s) && id1 in s.rotations && id2 in s.rotations
    requires s.rotations[id1].phase != Retire && s.rotations[id2].phase != Retire
    requires s.rotations[id1].validatorId == s.rotations[id2].validatorId
    ensures id1 == id2
    ensures var v := s.rotations[id1].validatorId; v in s.activeByValidator && s.activeByValidator[v] == id1
  {
    assert RotationOk(s, id1) && RotationOk(s, id2);
  }

  /** What initiate rejects before the stake is known, the rest of initiate rejects in every later state. */
  lemma RejectedStaysRejected(s: System, steps: seq<Step>, input: InitiateInput, stake: int, clock: Clock)
    requires Inv(s) && s.BeginInitiate(input).Err?
    ensures Run(s, steps).ResumeInitiate(input, stake, clock).Err?
  {
    RunIsLater(s, steps);
  }

  // ---------------------------------------------------------------- slashing

  /** The whole rotation exception, in terms of the rotation record, the evidence and the clock alone. */
  ghost predicate LegitimateOverlap(s: System, e: Evidence, clock: Clock) {
    && e.misbehaviorType == "DOUBLE_SIGNING"
    && e.rotationId.Some? && e.rotationId.value in s.rotations
    && var r := s.rotations[e.rotationId.value];
    && r.phase == Activate && r.validatorId == e.validatorId
    && r.activatedEpoch.Some? && r.activationSlot.Some?
    && IsSafeInteger(clock.slot) && IsSafeInteger(clock.epoch)
    && (|| (e.firstPublicKey == r.oldPublicKey && e.secondPublicKey == r.newPublicKey
            && 0 <= e.firstSigningSlot < r.activationSlot.value <= e.secondSigningSlot <= clock.slot)
        || (e.firstPublicKey == r.newPublicKey && e.secondPublicKey == r.oldPublicKey
            && 0 <= e.secondSigningSlot < r.activationSlot.value <= e.firstSigningSlot <= clock.slot))
    && r.activatedEpoch.value <= clock.epoch < r.activatedEpoch.value + 256
  }

  /** In a consistent system the commitment check and the key-state check never decide. */
  lemma ImpliedChecksNeverDecide(s: System, e: Evidence, clock: Clock)
    requires Inv(s)
    ensures Calculate(s, e, clock) != InvalidRotationCommitment
    ensures Calculate(s, e, clock) != InvalidKeyState
  {
    if e.rotationId.Some? && e.rotationId.value in s.rotations && s.rotations[e.rotationId.value].phase == Activate {
      ActivatedChecksPass(s, e.rotationId.value);
    }
  }

  lemma ActivatedChecksPass(s: System, id: string)
    requires Inv(s) && id in s.rotations && s.rotations[id].phase == Activate
    ensures CommitmentValid(s.rotations[id]) && KeyStateValid(s.registry, s.rotations[id])
  {
    var r := s.rotations[id];
    assert RotationOk(s, id) && QuorumOk(r);
    DedupFixpoint(r.approvals);
    DedupFixpoint(r.approvalValidatorSet);
  }

  lemma ActivatedKeysDiffer(s: System, id: string)
    requires Inv(s) && id in s.rotations && s.rotations[id].phase == Activate
    ensures id != "" && s.rotations[id].oldPublicKey != s.rotations[id].newPublicKey
    ensures s.rotations[id].activationSlot.Some? && s.rotations[id].activatedEpoch.Some? && s.rotations[id].approvedEpoch.Some?
  {
    assert RotationOk(s, id) && QuorumOk(s.rotations[id]);
  }

  lemma SuppressedExactly(s: System, e: Evidence, clock: Clock)
    requires Inv(s)
    ensures Suppressed(s, e, clock) <==> LegitimateOverlap(s, e, clock)
  {
    ImpliedChecksNeverDecide(s, e, clock);
    if e.rotationId.Some? && e.rotationId.value in s.rotations && s.rotations[e.rotationId.value].phase == Activate {
      ActivatedKeysDiffer(s, e.rotationId.value);
    }
  }

  /** In every reachable state the penalty is suppressed exactly for legitimate rotation overlaps. */
  lemma SuppressedExactlyInEveryRun(steps: seq<Step>, e: Evidence, clock: Clock)
    ensures var s := Run(EMPTY_SYSTEM, steps);
            && (Suppressed(s, e, clock) <==> LegitimateOverlap(s, e, clock))
            && Calculate(s, e, clock) !in {InvalidRotationCommitment, InvalidKeyState}
  {
    EmptySystemInv();
    RunKeepsInv(EMPTY_SYSTEM, steps);
    SuppressedExactly(Run(EMPTY_SYSTEM, steps), e, clock);
    ImpliedChecksNeverDecide(Run(EMPTY_SYSTEM, steps), e, clock);
  }

  /**
   The exception closes for good: once a rotation's grace period is over, or it is
   retired, no later state and no later epoch excuses evidence naming it.
   */
  lemma ExceptionClosesForGood(s: System, steps: seq<Step>, id: string, e: Evidence, clock: Clock)
    requires Inv(s) && id in s.rotations && e.rotationId == Some(id)
    requires s.rotations[id].phase == Retire
          || (s.rotations[id].phase == Activate && s.rotations[id].activatedEpoch.Some?
              && clock.epoch >= s.rotations[id].activatedEpoch.value + 256)
    ensures !Suppressed(Run(s, steps), e, clock)
  {
    RunKeepsInv(s, steps);
    RunIsLater(s, steps);
    SuppressedExactly(Run(s, steps), e, clock);
  }

  /** Evidence that is excused names a key that can never sign again. */
  lemma ExcusedOldKeyIsSignedOffForever(s: System, steps: seq<Step>, e: Evidence, clock: Clock)
    requires Inv(s) && Suppressed(s, e, clock)
    ensures SignedOff(Run(s, steps).registry, s.rotations[e.rotationId.value].oldPublicKey)
  {
    SuppressedExactly(s, e, clock);
    assert RotationOk(s, e.rotationId.value);
    RunIsLater(s, steps);
  }
}
