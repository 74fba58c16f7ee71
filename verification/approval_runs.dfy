/**
 The ceremony and its broadcaster together: approve hands its proposal to
 commitRotation, waits for the promise, and persists what it resolves with.

 The steps of both sides interleave freely, and any other caller may commit any
 proposal at the broadcaster at any time.
 */
module ApprovalRuns {
  import opened Common
  import opened RotationCeremony
  import S = RotationSystem
  import B = CommitmentBroadcaster
  import K = KeyRegistry

  // What an approval attempt waits for: a promise of the broadcaster, or an answer it already has.
  datatype Wait = ForAttempt(attempt: nat) | Answered(outcome: B.Outcome)

  datatype World = World(sys: System, bus: B.Bus, waits: map<string, Wait>)

  datatype Step =
    | SystemStep(system: S.Step)                 // registerActiveKey, initiate, activate, retire
    | BusStep(bus: B.Step)                       // everything but a commit
    | CommitAgain(proposal: B.Proposal)          // another caller of commitRotation
    | BeginApproval(id: string)
    | SettleApproval(id: string, clock: Clock)

  function WaitFor(reply: B.CommitReply): Wait {
    match reply
    case Refused(e) => Answered(B.Rejected(e))
    case Replayed(result) => Answered(B.Resolved(result))
    case Joined(a) => ForAttempt(a)
    case Started(a) => ForAttempt(a)
  }

  // The outcome an attempt waits for, once there is one.
  function OutcomeOf(w: World, id: string): Option<B.Outcome>
    requires id in w.waits
  {
    match w.waits[id]
    case Answered(outcome) => Some(outcome)
    case ForAttempt(a) => if a in w.bus.stages && w.bus.stages[a].Settled? then Some(w.bus.stages[a].outcome) else None
  }

  function Apply(w: World, step: Step): World {
    match step
    case SystemStep(e) =>
      if e.BeginApproveStep? || e.SettleApprovalStep? then w else w.(sys := S.Apply(w.sys, e))
    case BusStep(e) =>
      if e.CommitStep? then w else w.(bus := B.Apply(w.bus, e))
    case CommitAgain(p) => w.(bus := w.bus.Commit(p))
    case BeginApproval(id) =>
      if id in w.sys.rotations && w.sys.rotations[id].phase == Initiate && id !in w.waits then
        var p := ProposalOf(w.sys.rotations[id]);
        World(w.sys.(attempts := w.sys.attempts + {id}), w.bus.Commit(p), w.waits[id := WaitFor(w.bus.CommitReply(p))])
      else w
    case SettleApproval(id, clock) =>
      if id in w.waits && OutcomeOf(w, id).Some? then
        w.(sys := S.Apply(w.sys, S.SettleApprovalStep(id, OutcomeOf(w, id).value, clock)), waits := w.waits - {id})
      else w
  }

  function Run(w: World, steps: seq<Step>): World
    decreases |steps|
  {
    if steps == [] then w else Apply(Run(w, steps[..|steps| - 1]), steps[|steps| - 1])
  }

  function Start(maxCompleted: nat): World {
    World(EMPTY_SYSTEM, B.InitialBus(maxCompleted), map[])
  }

  // ---------------------------------------------------------------- the invariant

  // A result that proves a quorum for the rotation.
  ghost predicate ProvesFor(id: string, outcome: B.Outcome) {
    outcome.Resolved? ==> B.ProvesQuorum(outcome.result) && outcome.result.rotationId == id
  }

  ghost predicate WaitOk(w: World, id: string)
    requires id in w.waits
  {
    && id in w.sys.rotations
    && match w.waits[id]
       case ForAttempt(a) => a in w.bus.stages && w.bus.stages[a].Id() == id
       case Answered(outcome) => ProvesFor(id, outcome)
  }

  ghost predicate Inv(w: World) {
    && S.Inv(w.sys) && B.Inv(w.bus)
    && (forall id {:trigger WaitOk(w, id)} :: id in w.waits ==> WaitOk(w, id))
  }

  // What the broadcaster's own steps leave alone.
  ghost predicate BusLater(b: B.Bus, next: B.Bus) {
    forall a :: a in b.stages ==> a in next.stages && next.stages[a].Id() == b.stages[a].Id()
  }

  lemma SystemMoves(w: World, t: System)
    requires Inv(w) && S.Inv(t) && S.Later(w.sys, t)
    ensures Inv(w.(sys := t))
  {
    hide S.Inv;
    hide B.Inv;
    var next := w.(sys := t);
    forall id | id in next.waits ensures WaitOk(next, id) { assert WaitOk(w, id); }
  }

  lemma BusMoves(w: World, b: B.Bus)
    requires Inv(w) && B.Inv(b) && BusLater(w.bus, b)
    ensures Inv(w.(bus := b))
  {
    hide S.Inv;
    hide B.Inv;
    var next := w.(bus := b);
    forall id | id in next.waits ensures WaitOk(next, id) { assert WaitOk(w, id); }
  }

  lemma NewWaitOk(w: World, id: string, wait: Wait)
    requires Inv(w) && WaitOk(w.(waits := map[id := wait]), id)
    ensures Inv(w.(waits := w.waits[id := wait]))
  {
    hide S.Inv;
    hide B.Inv;
    var next := w.(waits := w.waits[id := wait]);
    forall k | k in next.waits ensures WaitOk(next, k) {
      if k != id { assert WaitOk(w, k); }
    }
  }

  // The attempt is entered, and its proposal committed.
  function Committed(w: World, id: string): World
    requires id in w.sys.rotations
  {
    w.(sys := w.sys.(attempts := w.sys.attempts + {id}), bus := w.bus.Commit(ProposalOf(w.sys.rotations[id])))
  }

  lemma CommittedKeepsInv(w: World, id: string)
    requires Inv(w) && id in w.sys.rotations && w.sys.rotations[id].phase == Initiate
    ensures Inv(Committed(w, id))
  {
    var p := ProposalOf(w.sys.rotations[id]);
    assert p.rotationId == id by { assert S.RotationOk(w.sys, id); }
    S.StepOk(w.sys, S.BeginApproveStep(id));
    SystemMoves(w, w.sys.(attempts := w.sys.attempts + {id}));
    var begun := w.(sys := w.sys.(attempts := w.sys.attempts + {id}));
    B.CommitKeepsInv(w.bus, p);
    BusMoves(begun, w.bus.Commit(p));
  }

  lemma BeginKeepsInv(w: World, id: string)
    requires Inv(w)
    ensures Inv(Apply(w, BeginApproval(id)))
  {
    if id in w.sys.rotations && w.sys.rotations[id].phase == Initiate && id !in w.waits {
      assert ProposalOf(w.sys.rotations[id]).rotationId == id by { assert S.RotationOk(w.sys, id); }
      ReplyIsForTheRotation(w, id);
      CommittedKeepsInv(w, id);
      hide Inv;
      NewWaitOk(Committed(w, id), id, WaitFor(w.bus.CommitReply(ProposalOf(w.sys.rotations[id]))));
    }
  }

  // The promise or result that answers a commit is that of the rotation.
  lemma ReplyIsForTheRotation(w: World, id: string)
    requires Inv(w) && id in w.sys.rotations && ProposalOf(w.sys.rotations[id]).rotationId == id
    ensures var p := ProposalOf(w.sys.rotations[id]);
            match w.bus.CommitReply(p)
            case Refused(_) => true
            case Replayed(result) => B.ProvesQuorum(result) && result.rotationId == id
            case Joined(a) => a in w.bus.Commit(p).stages && w.bus.Commit(p).stages[a].Id() == id
            case Started(a) => a in w.bus.Commit(p).stages && w.bus.Commit(p).stages[a].Id() == id
  {
    hide S.Inv;
    if id in w.bus.completed { assert B.RememberedOk(id, w.bus.completed[id]); }
    if id in w.bus.pending { assert B.PendingLinked(w.bus, id); }
    if id in w.bus.starting { assert B.StartingOk(w.bus, id); }
  }

  lemma SettleKeepsInv(w: World, id: string, clock: Clock)
    requires Inv(w)
    ensures Inv(Apply(w, SettleApproval(id, clock)))
  {
    if id in w.waits && OutcomeOf(w, id).Some? {
      var e := S.SettleApprovalStep(id, OutcomeOf(w, id).value, clock);
      S.StepOk(w.sys, e);
      SystemMoves(w, S.Apply(w.sys, e));
      var moved, next := w.(sys := S.Apply(w.sys, e)), Apply(w, SettleApproval(id, clock));
      hide S.Inv;
      hide B.Inv;
      hide S.Apply;
      forall k | k in next.waits ensures WaitOk(next, k) { assert WaitOk(moved, k); }
    }
  }

  lemma StepKeepsInv(w: World, step: Step)
    requires Inv(w)
    ensures Inv(Apply(w, step))
  {
    match step
    case SystemStep(e) =>
      S.StepOk(w.sys, e);
      SystemMoves(w, S.Apply(w.sys, e));
    case BusStep(e) =>
      if !e.CommitStep? {
        B.ApplyKeepsInv(w.bus, e);
        BusMoves(w, B.Apply(w.bus, e));
      }
    case CommitAgain(p) =>
      B.CommitKeepsInv(w.bus, p);
      BusMoves(w, w.bus.Commit(p));
    case BeginApproval(id) => BeginKeepsInv(w, id);
    case SettleApproval(id, clock) => SettleKeepsInv(w, id, clock);
  }

  lemma {:induction false} RunKeepsInv(maxCompleted: nat, steps: seq<Step>)
    ensures Inv(Run(Start(maxCompleted), steps))
    decreases |steps|
  {
    if steps == [] {
      S.EmptySystemInv();
      B.RunKeepsInv(maxCompleted, []);
    } else {
      RunKeepsInv(maxCompleted, steps[..|steps| - 1]);
      StepKeepsInv(Run(Start(maxCompleted), steps[..|steps| - 1]), steps[|steps| - 1]);
    }
  }

  // ---------------------------------------------------------------- the theorems

  // How the settling of an attempt answers its caller.
  function SettleReply(w: World, id: string, clock: Clock): Result<System, CeremonyError>
    requires id in w.waits && OutcomeOf(w, id).Some?
  {
    w.sys.SettleApproval(id, OutcomeOf(w, id).value, clock)
  }

  lemma OutcomeProves(w: World, id: string)
    requires Inv(w) && id in w.waits && OutcomeOf(w, id).Some?
    ensures id in w.sys.rotations && ProvesFor(id, OutcomeOf(w, id).value)
  {
    assert WaitOk(w, id);
    if w.waits[id].ForAttempt? { assert B.StageOk(w.bus, w.waits[id].attempt); }
  }

  /**
   In every joint run of ceremony and broadcaster, whoever else commits, what an
   approval attempt resolves with passes the ceremony's commitment check: with a valid
   clock a rotation in INITIATE moves to APPROVE with exactly that quorum.
   */
  lemma ResolvedApprovalPersists(maxCompleted: nat, steps: seq<Step>, id: string, clock: Clock)
    requires var w := Run(Start(maxCompleted), steps); id in w.waits && OutcomeOf(w, id).Some?
    ensures var w := Run(Start(maxCompleted), steps);
            && SettleReply(w, id, clock) != Err(InvalidCommitment) && id in w.sys.rotations
            && (OutcomeOf(w, id).value.Resolved? && w.sys.rotations[id].phase == Initiate && clock.Valid() ==>
                  && SettleReply(w, id, clock).Ok?
                  && id in SettleReply(w, id, clock).value.rotations
                  && var r := SettleReply(w, id, clock).value.rotations[id];
                     r.phase == Approve && r.approvals == OutcomeOf(w, id).value.result.approvals
                     && r.approvalValidatorSet == OutcomeOf(w, id).value.result.activeValidatorIds)
  {
    var w := Run(Start(maxCompleted), steps);
    RunKeepsInv(maxCompleted, steps);
    OutcomeProves(w, id);
    if OutcomeOf(w, id).value.Resolved? && w.sys.rotations[id].phase == Initiate {
      BroadcasterResultIsAccepted(w.sys, id, OutcomeOf(w, id).value.result, clock);
    }
  }

  lemma BroadcasterResultIsAccepted(s: System, id: string, commitment: B.CommitResult, clock: Clock)
    requires id in s.rotations && s.rotations[id].phase == Initiate
    requires B.ProvesQuorum(commitment) && commitment.rotationId == id
    ensures s.PersistApproval(id, commitment, clock) != Err(InvalidCommitment)
    ensures clock.Valid() ==>
              s.PersistApproval(id, commitment, clock).Ok?
              && var r := s.PersistApproval(id, commitment, clock).value.rotations[id];
                 r.phase == Approve && r.approvals == commitment.approvals
                 && r.approvalValidatorSet == commitment.activeValidatorIds
  {
    DedupFixpoint(commitment.activeValidatorIds);
    DedupFixpoint(commitment.approvals);
  }

  // ---------------------------------------------------------------- refused approvals

  /** The broadcaster is working on another proposal under this rotation id, or remembers one. */
  predicate ForeignIsKnown(w: World, id: string)
    requires id in w.sys.rotations
  {
    var own := ProposalOf(w.sys.rotations[id]);
    || (id in w.bus.completed && w.bus.completed[id].proposal != own)
    || (id !in w.bus.completed && id in w.bus.starting && w.bus.starting[id].proposal != own)
  }

  lemma OwnIsValid(w: World, id: string)
    requires Inv(w) && id in w.sys.rotations && w.sys.rotations[id].phase == Initiate
    ensures var p := ProposalOf(w.sys.rotations[id]); p.rotationId == id && w.bus.ValidProposal(p)
  {
    var r := w.sys.rotations[id];
    assert S.RotationOk(w.sys, id);
    assert S.HasKey(w.sys.registry, r.oldPublicKey, r.validatorId, K.Active, true);
    assert S.HasKey(w.sys.registry, r.newPublicKey, r.validatorId, K.Pending, false);
  }

  /**
   In every joint run the broadcaster refuses the ceremony's own commit exactly while
   it is working on another proposal under the same id or remembers one.
   */
  lemma ApprovalIsRefusedIff(maxCompleted: nat, steps: seq<Step>, id: string)
    requires var s := Run(Start(maxCompleted), steps).sys; id in s.rotations && s.rotations[id].phase == Initiate
    ensures var w := Run(Start(maxCompleted), steps);
            var reply := w.bus.CommitReply(ProposalOf(w.sys.rotations[id]));
            && (reply.Refused? <==> ForeignIsKnown(w, id))
            && (reply.Refused? ==> reply == B.Refused(B.IdConflict))
  {
    var w := Run(Start(maxCompleted), steps);
    RunKeepsInv(maxCompleted, steps);
    OwnIsValid(w, id);
    B.KnownIdRejectsOtherMetadata(w.bus, ProposalOf(w.sys.rotations[id]));
  }

  // The proposal is that of a rotation of the ceremony, or another caller has committed it.
  predicate Explained(steps: seq<Step>, s: System, p: B.Proposal) {
    || (p.rotationId in s.rotations && p == ProposalOf(s.rotations[p.rotationId]))
    || CommitAgain(p) in steps
  }

  ghost predicate BusIsExplained(steps: seq<Step>, s: System, b: B.Bus) {
    && (forall id :: id in b.starting ==> b.starting[id].proposal.rotationId == id && Explained(steps, s, b.starting[id].proposal))
    && (forall id :: id in b.completed ==> b.completed[id].proposal.rotationId == id && Explained(steps, s, b.completed[id].proposal))
  }

  lemma MoreExplained(steps: seq<Step>, step: Step, s: System, t: System, b: B.Bus)
    requires S.Later(s, t) && BusIsExplained(steps, s, b)
    ensures BusIsExplained(steps + [step], t, b)
  {
    assert forall p :: Explained(steps, s, p) ==> Explained(steps + [step], t, p);
    hide Explained;
  }

  lemma CommitIsExplained(steps: seq<Step>, s: System, b: B.Bus, p: B.Proposal)
    requires BusIsExplained(steps, s, b) && Explained(steps, s, p)
    ensures BusIsExplained(steps, s, b.Commit(p))
  {
    hide Explained;
  }

  lemma BusStepIsExplained(steps: seq<Step>, s: System, b: B.Bus, e: B.Step)
    requires B.Inv(b) && BusIsExplained(steps, s, b) && !e.CommitStep?
    ensures BusIsExplained(steps, s, B.Apply(b, e))
  {
    B.ApplyKeepsInv(b, e);
    hide B.Apply;
    hide B.Inv;
    hide Explained;
  }

  lemma StepIsExplained(steps: seq<Step>, w: World, step: Step)
    requires Inv(w) && BusIsExplained(steps, w.sys, w.bus)
    ensures BusIsExplained(steps + [step], Apply(w, step).sys, Apply(w, step).bus)
  {
    var next, all := Apply(w, step), steps + [step];
    StepIsLater(w, step);
    MoreExplained(steps, step, w.sys, next.sys, w.bus);
    match step
    case BusStep(e) => if !e.CommitStep? { BusStepIsExplained(all, next.sys, w.bus, e); }
    case CommitAgain(p) => CommitIsExplained(all, next.sys, w.bus, p);
    case BeginApproval(id) =>
      if id in w.sys.rotations && w.sys.rotations[id].phase == Initiate && id !in w.waits {
        OwnIsValid(w, id);
        CommitIsExplained(all, next.sys, w.bus, ProposalOf(w.sys.rotations[id]));
      }
    case _ =>
  }

  lemma StepIsLater(w: World, step: Step)
    requires Inv(w)
    ensures S.Later(w.sys, Apply(w, step).sys)
  {
    match step
    case SystemStep(e) => S.StepOk(w.sys, e);
    case BeginApproval(id) => S.StepOk(w.sys, S.BeginApproveStep(id));
    case SettleApproval(id, clock) =>
      if id in w.waits && OutcomeOf(w, id).Some? { S.StepOk(w.sys, S.SettleApprovalStep(id, OutcomeOf(w, id).value, clock)); }
    case _ =>
  }

  lemma {:induction false} RunIsExplained(maxCompleted: nat, steps: seq<Step>)
    ensures var w := Run(Start(maxCompleted), steps); BusIsExplained(steps, w.sys, w.bus)
    decreases |steps|
  {
    if steps != [] {
      var front := steps[..|steps| - 1];
      RunIsExplained(maxCompleted, front);
      RunKeepsInv(maxCompleted, front);
      StepIsExplained(front, Run(Start(maxCompleted), front), steps[|steps| - 1]);
      assert front + [steps[|steps| - 1]] == steps;
    }
  }

  /** An approval is refused only after another caller has committed a different proposal for the same rotation. */
  lemma RefusalComesFromOutside(maxCompleted: nat, steps: seq<Step>, id: string)
    requires var s := Run(Start(maxCompleted), steps).sys; id in s.rotations && s.rotations[id].phase == Initiate
    requires var w := Run(Start(maxCompleted), steps); w.bus.CommitReply(ProposalOf(w.sys.rotations[id])).Refused?
    ensures var w := Run(Start(maxCompleted), steps);
            exists p: B.Proposal :: CommitAgain(p) in steps && p.rotationId == id && p != ProposalOf(w.sys.rotations[id])
  {
    var w := Run(Start(maxCompleted), steps);
    ApprovalIsRefusedIff(maxCompleted, steps, id);
    RunIsExplained(maxCompleted, steps);
    var p := if id in w.bus.completed then w.bus.completed[id].proposal else w.bus.starting[id].proposal;
    assert Explained(steps, w.sys, p);
  }

  // And such a commit does get in the way of a rotation the broadcaster does not know yet.
  lemma ForeignProposalIsInTheWay(w: World, id: string, p: B.Proposal)
    requires Inv(w) && id in w.sys.rotations && w.sys.rotations[id].phase == Initiate
    requires id !in w.bus.starting && id !in w.bus.completed
    requires w.bus.ValidProposal(p) && p.rotationId == id
    ensures Apply(w, CommitAgain(p)).bus.CommitReply(ProposalOf(w.sys.rotations[id])) == B.Refused(B.IdConflict)
            <==> p != ProposalOf(w.sys.rotations[id])
  {
    OwnIsValid(w, id);
    assert id in w.bus.pending ==> B.PendingLinked(w.bus, id);
  }
}
