/**
 What becomes of one commitment: how it starts, how its votes accumulate over a run,
 and which event decides it.
 */
module VoteRuns {
  import opened Common
  import opened CommitmentBroadcaster

  // ---------------------------------------------------------------- how an attempt starts

  predicate WellFormed(p: Proposal) {
    && p.kind == "ValidatorKeyRotation" && p.rotationId != "" && p.validatorId != ""
    && p.oldPublicKey != "" && p.newPublicKey != "" && p.oldPublicKey != p.newPublicKey
  }

  /**
   What a commit call is answered, in every consistent state: an error for a malformed
   proposal or other metadata under its id, the remembered result, the promise of the
   attempt under way, or a fresh attempt exactly when its id is unknown.
   */
  lemma CommitReplyIff(b: Bus, p: Proposal)
    requires Inv(b)
    ensures var reply, next, id := b.CommitReply(p), b.Commit(p), p.rotationId;
            && (reply == Refused(InvalidProposal) <==> !WellFormed(p))
            && (WellFormed(p) ==>
                  && (reply.Replayed? <==> id in b.completed && b.completed[id].proposal == p)
                  && (reply.Replayed? ==> reply.result == b.completed[id].result)
                  && (reply.Joined? <==> id !in b.completed && id in b.starting && b.starting[id].proposal == p)
                  && (reply.Joined? ==> reply.attempt == b.starting[id].attempt)
                  && (reply.Started? <==> id !in b.completed && id !in b.starting))
            && (!reply.Started? ==> next == b)
            && (reply.Started? ==>
                  && reply.attempt !in b.stages && next.stages == b.stages[reply.attempt := AwaitingSnapshot(p)]
                  && next.starting == b.starting[id := StartingCommitment(p, reply.attempt)]
                  && next.pending == b.pending && next.completed == b.completed)
  {
    if p.rotationId in b.pending { assert PendingLinked(b, p.rotationId); }
    NextAttemptIsFresh(b);
  }

  function Named(ids: seq<string>): set<string> {
    set v | v in ids && v != ""
  }

  /** The snapshot opens the vote: its distinct named validators, the least two-thirds majority of them, and no vote yet. */
  lemma SnapshotOpensTheVote(b: Bus, a: nat, ids: seq<string>)
    requires Inv(b) && b.Awaits(a) && |Named(ids)| <= MAX_SAFE_INTEGER
    ensures var p, next, n := b.stages[a].proposal, b.SnapshotArrives(a, ids), |Named(ids)|;
            && (n == 0 ==> next == b.(stages := b.stages[a := Settled(p.rotationId, Rejected(EmptyValidatorSet))]))
            && (n > 0 ==>
                  && p.rotationId in next.pending
                  && next == b.(stages := b.stages[a := Collecting(p.rotationId)],
                                pending := b.pending[p.rotationId := next.pending[p.rotationId]])
                  && var c := next.pending[p.rotationId];
                     && c.proposal == p && c.attempt == a && c.approvals == []
                     && NoDuplicates(c.activeValidatorIds) && Elements(c.activeValidatorIds) == Named(ids)
                     && 3 * (c.threshold - 1) < 2 * n <= 3 * c.threshold)
  {
    assert Elements(NonEmpty(ids)) == Named(ids);
    NoDuplicatesCardinality(Dedup(NonEmpty(ids)));
  }

  // ---------------------------------------------------------------- votes over a run

  // The eligible validators that have voted.
  function Voters(steps: seq<Step>, id: string, eligible: seq<string>): set<string> {
    set v | v in eligible && ApproveStep(id, v) in steps
  }

  lemma OneMoreStep(steps: seq<Step>, id: string, eligible: seq<string>)
    requires steps != []
    ensures var front, last := steps[..|steps| - 1], steps[|steps| - 1];
            Voters(steps, id, eligible)
            == Voters(front, id, eligible) + (if last.ApproveStep? && last.rotationId == id && last.validatorId in eligible
                                              then {last.validatorId} else {})
  {
    var front, last := steps[..|steps| - 1], steps[|steps| - 1];
    assert steps == front + [last];
    forall v ensures ApproveStep(id, v) in steps <==> ApproveStep(id, v) in front || last == ApproveStep(id, v) {}
  }

  // What has decided a commitment, if anything.
  datatype Verdict = Open | ByQuorum(approvers: set<string>) | ByTimeout | ByListener

  /** The first of these decides: enough votes, the timer of the attempt, or a throwing listener. */
  function VerdictOf(c: PendingCommitment, id: string, steps: seq<Step>): Verdict {
    if steps == [] then Open
    else
      var before, last := VerdictOf(c, id, steps[..|steps| - 1]), steps[|steps| - 1];
      if !before.Open? then before
      else if last == TimerStep(c.attempt) then ByTimeout
      else if last == ListenerThrowStep(id, c.attempt) then ByListener
      else
        var voters := Voters(steps, id, c.activeValidatorIds);
        if |voters| >= c.threshold then ByQuorum(voters) else Open
  }

  // The commitment as it stands after its verdict.
  ghost predicate StandsAs(c: PendingCommitment, id: string, b: Bus, verdict: Verdict, voters: set<string>) {
    match verdict
    case Open =>
      && id in b.pending && b.pending[id] == c.(approvals := b.pending[id].approvals)
      && Elements(b.pending[id].approvals) == voters && |b.pending[id].approvals| == |voters| < c.threshold
    case ByQuorum(approvers) =>
      && c.attempt in b.stages && b.stages[c.attempt].Settled? && b.stages[c.attempt].outcome.Resolved?
      && |approvers| == c.threshold
      && var r := b.stages[c.attempt].outcome.result;
         r.rotationId == id && r.activeValidatorIds == c.activeValidatorIds && r.approvalThreshold == c.threshold
         && NoDuplicates(r.approvals) && Elements(r.approvals) == approvers
    case ByTimeout => c.attempt in b.stages && b.stages[c.attempt] == Settled(id, Rejected(CommitTimeout))
    case ByListener => c.attempt in b.stages && b.stages[c.attempt] == Settled(id, Rejected(ListenerFailed))
  }

  lemma OneMoreVoter(votes: seq<string>, v: string)
    requires NoDuplicates(votes) && v !in votes
    ensures NoDuplicates(votes + [v]) && Elements(votes + [v]) == Elements(votes) + {v}
    ensures |Elements(votes) + {v}| == |votes| + 1
  {
    NoDuplicatesCardinality(votes + [v]);
  }

  // The vote that completes the commitment.
  lemma LastVote(b: Bus, id: string, v: string)
    requires Inv(b) && id in b.pending && b.ApproveReply(id, v).status == Counted
    requires |b.pending[id].approvals| + 1 == b.pending[id].threshold
    ensures var q, next := b.pending[id].(approvals := b.pending[id].approvals + [v]), b.Approve(id, v);
            && q.attempt in next.stages && next.stages[q.attempt] == Settled(id, Resolved(ResultOf(q)))
            && ResultOf(q).rotationId == id && NoDuplicates(ResultOf(q).approvals)
            && Elements(ResultOf(q).approvals) == Elements(q.approvals)
  {
    var p := b.pending[id];
    var q := p.(approvals := p.approvals + [v]);
    assert PendingLinked(b, id);
    CountedVote(p, v);
    VoteKeepsLinked(b, id, v);
    CompleteKeepsInv(b.WithVote(id, v), id);
    FullVoteProvesQuorum(q);
    assert forall x :: x in Elements(ResultOf(q).approvals) <==> x in Elements(q.approvals);
  }

  lemma VoteStep(b: Bus, c: PendingCommitment, id: string, v: string, voters: set<string>)
    requires Inv(b) && StandsAs(c, id, b, Open, voters) && v in c.activeValidatorIds
    ensures var all := voters + {v};
            StandsAs(c, id, b.Approve(id, v), if |all| >= c.threshold then ByQuorum(all) else Open, all)
  {
    var p := b.pending[id];
    assert v in p.approvals <==> v in Elements(p.approvals);
    if v in p.approvals {
      assert voters + {v} == voters;
    } else {
      assert VotesOk(p, false);
      OneMoreVoter(p.approvals, v);
      if |p.approvals| + 1 == p.threshold {
        LastVote(b, id, v);
      }
    }
  }

  // No other step touches an open commitment.
  lemma OtherStep(b: Bus, c: PendingCommitment, id: string, step: Step, voters: set<string>)
    requires Inv(b) && StandsAs(c, id, b, Open, voters)
    requires step != TimerStep(c.attempt) && step != ListenerThrowStep(id, c.attempt)
    requires step.ApproveStep? ==> step.rotationId != id || step.validatorId !in c.activeValidatorIds
    ensures StandsAs(c, id, Apply(b, step), Open, voters)
  {
    assert PendingLinked(b, id);
    match step
    case SnapshotStep(a, _) => if b.Awaits(a) { assert StageOk(b, a); }
    case TimerStep(a) => if a in b.stages && b.stages[a].Collecting? { assert StageOk(b, a); }
    case ApproveStep(k, v) => if k != id { ForeignVote(b, id, k, v); }
    case _ =>
  }

  lemma ForeignVote(b: Bus, id: string, k: string, v: string)
    requires Inv(b) && id in b.pending && k != id
    ensures id in b.Approve(k, v).pending && b.Approve(k, v).pending[id] == b.pending[id]
  {
    if b.ApproveReply(k, v).status == Counted {
      var voted := b.WithVote(k, v);
      CountedVote(b.pending[k], v);
      VoteKeepsLinked(b, k, v);
      if |voted.pending[k].approvals| >= voted.pending[k].threshold { CompleteKeepsInv(voted, k); }
    }
  }

  lemma FailureStep(b: Bus, c: PendingCommitment, id: string, step: Step, voters: set<string>)
    requires Inv(b) && StandsAs(c, id, b, Open, voters)
    requires step == TimerStep(c.attempt) || step == ListenerThrowStep(id, c.attempt)
    ensures StandsAs(c, id, Apply(b, step), if step.TimerStep? then ByTimeout else ByListener, voters)
  {
    assert PendingLinked(b, id);
  }

  lemma DecidedStep(b: Bus, c: PendingCommitment, id: string, step: Step, verdict: Verdict, voters: set<string>, later: set<string>)
    requires Inv(b) && StandsAs(c, id, b, verdict, voters) && !verdict.Open?
    ensures StandsAs(c, id, Apply(b, step), verdict, later)
  {
    ApplyKeepsInv(b, step);
    hide Apply;
    hide Inv;
  }

  lemma {:induction false} VerdictStands(b: Bus, id: string, steps: seq<Step>)
    requires Inv(b) && id in b.pending && b.pending[id].approvals == []
    ensures var c := b.pending[id];
            && Inv(Run(b, steps))
            && StandsAs(c, id, Run(b, steps), VerdictOf(c, id, steps), Voters(steps, id, c.activeValidatorIds))
  {
    var c := b.pending[id];
    if steps == [] {
      assert Voters([], id, c.activeValidatorIds) == {};
      assert VotesOk(b.pending[id], false);
      assert Elements<string>([]) == {};
    } else {
      var front, last := steps[..|steps| - 1], steps[|steps| - 1];
      var u := Run(b, front);
      VerdictStands(b, id, front);
      ApplyKeepsInv(u, last);
      OneMoreStep(steps, id, c.activeValidatorIds);
      hide Apply;
      hide Inv;
      hide StandsAs;
      var before := Voters(front, id, c.activeValidatorIds);
      if !VerdictOf(c, id, front).Open? {
        DecidedStep(u, c, id, last, VerdictOf(c, id, front), before, Voters(steps, id, c.activeValidatorIds));
      } else if last == TimerStep(c.attempt) || last == ListenerThrowStep(id, c.attempt) {
        FailureStep(u, c, id, last, before);
      } else if last.ApproveStep? && last.rotationId == id && last.validatorId in c.activeValidatorIds {
        VoteStep(u, c, id, last.validatorId, before);
        VoteIsAStep(u, id, last.validatorId);
      } else {
        OtherStep(u, c, id, last, before);
        OpenIsBelow(u, c, id, before);
      }
    }
  }

  lemma VoteIsAStep(b: Bus, id: string, v: string)
    ensures Apply(b, ApproveStep(id, v)) == b.Approve(id, v)
  {
  }

  lemma OpenIsBelow(b: Bus, c: PendingCommitment, id: string, voters: set<string>)
    requires StandsAs(c, id, b, Open, voters)
    ensures |voters| < c.threshold
  {
  }

  /**
   Votes accumulate. After any run since its snapshot a commitment that is still
   pending holds exactly the distinct eligible validators that have voted, and a vote
   is answered with their number.
   */
  lemma VotesAccumulate(b: Bus, id: string, steps: seq<Step>, v: string)
    requires Inv(b) && id in b.pending && b.pending[id].approvals == []
    requires var late := Run(b, steps); id in late.pending && late.pending[id].attempt == b.pending[id].attempt
    ensures var c, late := b.pending[id], Run(b, steps);
            var voters := Voters(steps, id, c.activeValidatorIds);
            && late.pending[id].activeValidatorIds == c.activeValidatorIds && late.pending[id].threshold == c.threshold
            && Elements(late.pending[id].approvals) == voters && |voters| < c.threshold
            && late.ApproveReply(id, v)
               == (if v !in c.activeValidatorIds then ApprovalResult(Ineligible, |voters|, Some(c.threshold))
                   else if v in voters then ApprovalResult(Duplicate, |voters|, Some(c.threshold))
                   else ApprovalResult(Counted, |voters| + 1, Some(c.threshold)))
  {
    var c, late := b.pending[id], Run(b, steps);
    VerdictStands(b, id, steps);
    assert PendingLinked(late, id);
    assert v in late.pending[id].approvals <==> v in Elements(late.pending[id].approvals);
  }

  predicate NoFailure(steps: seq<Step>, id: string, a: nat) {
    TimerStep(a) !in steps && ListenerThrowStep(id, a) !in steps
  }

  lemma {:induction false} QuorumIsReachedIff(c: PendingCommitment, id: string, steps: seq<Step>)
    requires NoFailure(steps, id, c.attempt) && c.threshold >= 1
    ensures VerdictOf(c, id, steps).ByQuorum? <==> |Voters(steps, id, c.activeValidatorIds)| >= c.threshold
    ensures VerdictOf(c, id, steps).Open? || VerdictOf(c, id, steps).ByQuorum?
    ensures VerdictOf(c, id, steps).ByQuorum? ==>
              VerdictOf(c, id, steps).approvers <= Voters(steps, id, c.activeValidatorIds)
  {
    if steps == [] {
      assert Voters([], id, c.activeValidatorIds) == {};
    } else {
      var front, last := steps[..|steps| - 1], steps[|steps| - 1];
      assert last in steps && forall step :: step in front ==> step in steps;
      QuorumIsReachedIff(c, id, front);
      OneMoreStep(steps, id, c.activeValidatorIds);
      SubsetCardinality(Voters(front, id, c.activeValidatorIds), Voters(steps, id, c.activeValidatorIds));
    }
  }

  /**
   As long as neither its timer nor its listener fails it, a commitment is resolved
   exactly when as many distinct eligible validators as its threshold have voted, with
   that many of them as approvers: all of them when no more have voted.
   */
  lemma ResolvedIffEnoughVote(b: Bus, id: string, steps: seq<Step>)
    requires Inv(b) && id in b.pending && b.pending[id].approvals == [] && NoFailure(steps, id, b.pending[id].attempt)
    ensures var c, late := b.pending[id], Run(b, steps);
            var voters := Voters(steps, id, c.activeValidatorIds);
            && c.attempt in late.stages
            && (|voters| >= c.threshold <==> late.stages[c.attempt].Settled?)
            && (|voters| >= c.threshold ==>
                  && late.stages[c.attempt].outcome.Resolved?
                  && var r := late.stages[c.attempt].outcome.result;
                     && r.rotationId == id && r.approvalThreshold == c.threshold && r.activeValidatorIds == c.activeValidatorIds
                     && NoDuplicates(r.approvals) && |r.approvals| == c.threshold
                     && (forall v :: v in r.approvals ==> v in voters)
                     && (|voters| == c.threshold ==> Elements(r.approvals) == voters))
  {
    var c, late := b.pending[id], Run(b, steps);
    var voters := Voters(steps, id, c.activeValidatorIds);
    VerdictStands(b, id, steps);
    assert VotesOk(c, false);
    QuorumIsReachedIff(c, id, steps);
    if |voters| >= c.threshold {
      var r := late.stages[c.attempt].outcome.result;
      NoDuplicatesCardinality(r.approvals);
      assert forall v :: v in r.approvals ==> v in Elements(r.approvals);
      if |voters| == c.threshold { SameSizeSubset(Elements(r.approvals), voters); }
    } else {
      assert PendingLinked(late, id);
    }
  }

  lemma SameSizeSubset<T>(small: set<T>, large: set<T>)
    requires small <= large && |small| == |large|
    ensures small == large
  {
    assert large == small + (large - small);
  }

  // ---------------------------------------------------------------- failed attempts

  /** A timer or a throwing listener rejects the commitment it belongs to, and no other. */
  lemma FailureRejects(b: Bus, id: string)
    requires Inv(b) && id in b.pending
    ensures var a := b.pending[id].attempt;
            && Apply(b, TimerStep(a)) == b.(pending := b.pending - {id}, stages := b.stages[a := Settled(id, Rejected(CommitTimeout))])
            && Apply(b, ListenerThrowStep(id, a))
               == b.(pending := b.pending - {id}, stages := b.stages[a := Settled(id, Rejected(ListenerFailed))])
  {
    assert PendingLinked(b, id);
  }

  /** Once a rejected attempt is cleaned up, its rotation can be committed afresh. */
  lemma RejectedCanBeRetried(b: Bus, a: nat, p: Proposal)
    requires Inv(b) && a in b.stages && b.stages[a].Settled? && b.stages[a].outcome.Rejected?
    requires p.rotationId in b.starting && b.starting[p.rotationId].attempt == a && p.rotationId !in b.completed
    requires WellFormed(p)
    ensures Apply(b, CleanupStep(a, p.rotationId)) == b.(starting := b.starting - {p.rotationId})
    ensures Apply(b, CleanupStep(a, p.rotationId)).CommitReply(p) == Started(b.nextAttempt)
  {
    assert p.rotationId in b.pending ==> PendingLinked(b, p.rotationId);
  }

  /** The cache forgets the rotation that was remembered first. */
  lemma OldestIsForgotten(b: Bus, id: string, entry: Remembered)
    requires CacheOk(b) && RememberedOk(id, entry) && id !in b.completed && b.maxCompleted > 0
    ensures var next, order := b.Remember(id, entry), b.completedOrder + [id];
            && next.completedOrder == (if |order| > b.maxCompleted then order[1..] else order)
            && next.completed == (if |order| > b.maxCompleted then b.completed[id := entry] - {order[0]} else b.completed[id := entry])
  {
    var order := b.completedOrder + [id];
    var grown := b.(completed := b.completed[id := entry], completedOrder := order);
    assert b.Remember(id, entry) == grown.Evict();
    if |order| > b.maxCompleted {
      var evicted := grown.(completed := grown.completed - {order[0]}, completedOrder := order[1..]);
      assert grown.Evict() == evicted.Evict() == evicted;
    }
  }

  /** A vote changes nothing unless it is counted, and is counted exactly for an eligible validator of a pending rotation that has not voted. */
  lemma VoteCountsIff(b: Bus, id: string, v: string)
    ensures var reply := b.ApproveReply(id, v);
            && (reply.status.Counted? <==> id in b.pending && v in b.pending[id].activeValidatorIds && v !in b.pending[id].approvals)
            && (!reply.status.Counted? ==> b.Approve(id, v) == b)
            && (reply.status.UnknownRotation? <==> id !in b.pending)
            && (reply.status.UnknownRotation? ==> reply.approvalCount == 0 && reply.approvalThreshold == None)
  {
  }
}
