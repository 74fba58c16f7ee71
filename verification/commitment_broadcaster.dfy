/**
 Model of src/consensus/commitment-broadcaster.ts: the quorum collector for
 validator-key rotations.

 `startCommit` is split at its snapshot await, so a commitment goes through the
 steps Commit, SnapshotArrives, Approve / Timer / ListenerThrows and Cleanup, in
 any interleaving with other commitments.  Every call of `startCommit` has an
 attempt number; it plays the role of object identity of the promise it returns.
 */
module CommitmentBroadcaster {
  import opened Common
  import opened Sorting
  import StringOrder

  const ROTATION_EVENT := "ValidatorKeyRotation"

  datatype Proposal = Proposal(
    kind: string,
    rotationId: string,
    validatorId: string,
    oldPublicKey: string,
    newPublicKey: string,
    initiatedEpoch: int,
    initiatedSlot: int)

  datatype CommitResult = CommitResult(
    rotationId: string,
    approvals: seq<string>,
    approvalThreshold: int,
    activeValidatorIds: seq<string>)

  datatype CommitError = InvalidProposal | IdConflict | EmptyValidatorSet | CommitTimeout | ProviderFailed | ListenerFailed

  // What a promise of startCommit settles with.
  datatype Outcome = Resolved(result: CommitResult) | Rejected(error: CommitError)

  datatype PendingCommitment = PendingCommitment(
    proposal: Proposal,
    activeValidatorIds: seq<string>,
    threshold: int,
    approvals: seq<string>,
    attempt: nat)

  datatype StartingCommitment = StartingCommitment(proposal: Proposal, attempt: nat)

  datatype Remembered = Remembered(proposal: Proposal, result: CommitResult)

  datatype CommitReply =
    | Refused(error: CommitError)
    | Replayed(result: CommitResult)
    | Joined(attempt: nat)
    | Started(attempt: nat)

  datatype ApprovalStatus = Counted | Duplicate | Ineligible | UnknownRotation

  datatype ApprovalResult = ApprovalResult(status: ApprovalStatus, approvalCount: nat, approvalThreshold: Option<int>)

  // ------------------------------------------------------------ the threshold

  function Ceil2n3(n: nat): nat {
    (2 * n + 2) / 3
  }

  // Throws, here None, for an empty validator set.
  function ApprovalThreshold(activeValidatorCount: int): (r: Option<int>)
    ensures r.Some? <==> 0 < activeValidatorCount <= MAX_SAFE_INTEGER
    ensures r.Some? ==> 1 <= r.value <= activeValidatorCount
    // The least integer that is at least two thirds of the count.
    ensures r.Some? ==> 3 * (r.value - 1) < 2 * activeValidatorCount <= 3 * r.value
  {
    if activeValidatorCount <= 0 || activeValidatorCount > MAX_SAFE_INTEGER then None else Some(Ceil2n3(activeValidatorCount))
  }

  // Byzantine quorum intersection: any two approving sets share an honest member.
  lemma QuorumsShareHonestValidator(validators: set<string>, a: set<string>, b: set<string>, faulty: set<string>, threshold: int)
    requires ApprovalThreshold(|validators|) == Some(threshold)
    requires a <= validators && b <= validators && faulty <= validators
    requires |a| >= threshold && |b| >= threshold
    requires 3 * |faulty| < |validators|
    ensures |a * b| > |faulty|
    ensures exists v :: v in a && v in b && v !in faulty
  {
    assert |a + b| == |a| + |b| - |a * b|;
    SubsetCardinality(a + b, validators);
    assert |a * b| > |faulty|;
    if forall v :: v in a && v in b ==> v in faulty {
      SubsetCardinality(a * b, faulty);
    }
  }

  lemma {:induction false} SubsetCardinality<T>(small: set<T>, large: set<T>)
    requires small <= large
    ensures |small| <= |large|
  {
    assert large == small + (large - small);
  }

  // ------------------------------------------------------------ the state

  // How far one call of startCommit has come.  While it collects votes its
  // timeout is armed; settling it clears the timeout in the same turn.
  datatype Stage =
    | AwaitingSnapshot(proposal: Proposal)
    | Collecting(rotationId: string)
    | Settled(rotationId: string, outcome: Outcome)
  {
    // The rotation the promise was made for.
    function Id(): string {
      if AwaitingSnapshot? then proposal.rotationId else rotationId
    }
  }

  /**
   The maps of the broadcaster.  `completedOrder` is the insertion order of
   `completed`, and `stages` the state of every promise handed to callers.
   */
  datatype Bus = Bus(
    maxCompleted: nat,
    pending: map<string, PendingCommitment>,
    starting: map<string, StartingCommitment>,
    completed: map<string, Remembered>,
    completedOrder: seq<string>,
    stages: map<nat, Stage>,
    nextAttempt: nat)
  {
    predicate ValidProposal(p: Proposal) {
      && p.kind == ROTATION_EVENT && p.rotationId != "" && p.validatorId != ""
      && p.oldPublicKey != "" && p.newPublicKey != "" && p.oldPublicKey != p.newPublicKey
    }

    function CommitReply(p: Proposal): CommitReply {
      if !ValidProposal(p) then
        Refused(InvalidProposal)
      else if p.rotationId in completed then
        if completed[p.rotationId].proposal == p then Replayed(completed[p.rotationId].result) else Refused(IdConflict)
      else if p.rotationId in pending then
        if pending[p.rotationId].proposal == p then Joined(pending[p.rotationId].attempt) else Refused(IdConflict)
      else if p.rotationId in starting then
        if starting[p.rotationId].proposal == p then Joined(starting[p.rotationId].attempt) else Refused(IdConflict)
      else
        Started(nextAttempt)
    }

    function Commit(p: Proposal): Bus {
      if CommitReply(p).Started? then
        this.(starting := starting[p.rotationId := StartingCommitment(p, nextAttempt)],
              stages := stages[nextAttempt := AwaitingSnapshot(p)],
              nextAttempt := nextAttempt + 1)
      else
        this
    }

    predicate Awaits(attempt: nat) {
      attempt in stages && stages[attempt].AwaitingSnapshot?
    }

    function SnapshotArrives(attempt: nat, suppliedIds: seq<string>): Bus
      requires Awaits(attempt)
    {
      var p := stages[attempt].proposal;
      var ids := Dedup(NonEmpty(suppliedIds));
      match ApprovalThreshold(|ids|)
      case None =>
        SnapshotFails(attempt, EmptyValidatorSet)
      case Some(threshold) =>
        this.(stages := stages[attempt := Collecting(p.rotationId)],
              pending := pending[p.rotationId := PendingCommitment(p, ids, threshold, [], attempt)])
    }

    // The provider threw, did not answer within the timeout, or named no validator.
    function SnapshotFails(attempt: nat, error: CommitError): Bus
      requires Awaits(attempt)
    {
      this.(stages := stages[attempt := Settled(stages[attempt].proposal.rotationId, Rejected(error))])
    }

    // What completing and failing a commitment share.
    function Close(id: string, outcome: Outcome): Bus
      requires id in pending
    {
      this.(pending := pending - {id}, stages := stages[pending[id].attempt := Settled(id, outcome)])
    }

    // The emit of this attempt's proposal threw, after any number of reentrant steps.
    function ListenerThrows(rotationId: string, attempt: nat): Bus {
      if rotationId in pending && pending[rotationId].attempt == attempt then
        Close(rotationId, Rejected(ListenerFailed))
      else
        this
    }

    // The timer callback finds its commitment by rotation id, not by identity.
    function TimerFires(attempt: nat): Bus
      requires attempt in stages && stages[attempt].Collecting?
    {
      var id := stages[attempt].rotationId;
      if id in pending then Close(id, Rejected(CommitTimeout)) else this
    }

    function Remember(id: string, entry: Remembered): Bus {
      if maxCompleted == 0 then
        this
      else
        this.(completed := completed[id := entry],
              completedOrder := WithId(completedOrder, completed.Keys, id)).Evict()
    }

    function Evict(): Bus
      decreases |completedOrder|
    {
      if |completedOrder| > maxCompleted then
        this.(completed := completed - {completedOrder[0]}, completedOrder := completedOrder[1..]).Evict()
      else
        this
    }

    function Complete(id: string): Bus
      requires id in pending
    {
      var result := ResultOf(pending[id]);
      Close(id, Resolved(result)).Remember(id, Remembered(pending[id].proposal, result))
    }

    function ApproveReply(rotationId: string, validatorId: string): ApprovalResult {
      if rotationId !in pending then
        ApprovalResult(UnknownRotation, 0, None)
      else
        var p := pending[rotationId];
        if validatorId !in p.activeValidatorIds then
          ApprovalResult(Ineligible, |p.approvals|, Some(p.threshold))
        else if validatorId in p.approvals then
          ApprovalResult(Duplicate, |p.approvals|, Some(p.threshold))
        else
          ApprovalResult(Counted, |p.approvals| + 1, Some(p.threshold))
    }

    function WithVote(id: string, validatorId: string): Bus
      requires id in pending
    {
      this.(pending := pending[id := pending[id].(approvals := pending[id].approvals + [validatorId])])
    }

    function Approve(rotationId: string, validatorId: string): Bus {
      if ApproveReply(rotationId, validatorId).status == Counted then
        var voted := WithVote(rotationId, validatorId);
        if |voted.pending[rotationId].approvals| >= voted.pending[rotationId].threshold then
          voted.Complete(rotationId)
        else
          voted
      else
        this
    }

    // The microtask that forgets a starting entry once its promise settled.
    function Cleanup(attempt: nat, rotationId: string): Bus {
      if rotationId in starting && starting[rotationId].attempt == attempt then
        this.(starting := starting - {rotationId})
      else
        this
    }
  }

  function ResultOf(p: PendingCommitment): CommitResult {
    CommitResult(p.proposal.rotationId, Sort(p.approvals, StringOrder.Leq), p.threshold, p.activeValidatorIds)
  }

  function NonEmpty(ids: seq<string>): (r: seq<string>)
    ensures forall v :: v in r <==> v in ids && v != ""
  {
    if ids == [] then [] else NonEmpty(ids[..|ids| - 1]) + (if ids[|ids| - 1] != "" then [ids[|ids| - 1]] else [])
  }

  // ------------------------------------------------------------ steps

  datatype Step =
    | CommitStep(proposal: Proposal)
    | SnapshotStep(attempt: nat, ids: seq<string>)
    | SnapshotFailStep(attempt: nat, error: CommitError)
    | ListenerThrowStep(rotationId: string, attempt: nat)
    | TimerStep(attempt: nat)
    | ApproveStep(rotationId: string, validatorId: string)
    | CleanupStep(attempt: nat, rotationId: string)

  // A step that is not enabled leaves the state as it is.
  function Apply(b: Bus, step: Step): Bus {
    match step
    case CommitStep(p) => b.Commit(p)
    case SnapshotStep(a, ids) => if b.Awaits(a) then b.SnapshotArrives(a, ids) else b
    case SnapshotFailStep(a, e) => if b.Awaits(a) then b.SnapshotFails(a, e) else b
    case ListenerThrowStep(id, a) => b.ListenerThrows(id, a)
    case TimerStep(a) => if a in b.stages && b.stages[a].Collecting? then b.TimerFires(a) else b
    case ApproveStep(id, v) => b.Approve(id, v)
    case CleanupStep(a, id) => if a in b.stages && b.stages[a].Settled? then b.Cleanup(a, id) else b
  }

  function Run(b: Bus, steps: seq<Step>): Bus {
    if steps == [] then b else Apply(Run(b, steps[..|steps| - 1]), steps[|steps| - 1])
  }

  function InitialBus(maxCompleted: nat): Bus {
    Bus(maxCompleted, map[], map[], map[], [], map[], 0)
  }

  // ------------------------------------------------------------ invariant

  /** What a resolved commitment proves: exactly threshold-many distinct approvers of its own snapshot. */
  ghost predicate ProvesQuorum(r: CommitResult) {
    && NoDuplicates(r.activeValidatorIds) && "" !in r.activeValidatorIds
    && ApprovalThreshold(|r.activeValidatorIds|) == Some(r.approvalThreshold)
    && NoDuplicates(r.approvals)
    && |r.approvals| == r.approvalThreshold
    && (forall v :: v in r.approvals ==> v in r.activeValidatorIds)
    && SortedBy(r.approvals, StringOrder.Leq)
  }

  // The votes of a commitment: distinct, eligible, and still too few unless `full`.
  ghost predicate VotesOk(p: PendingCommitment, full: bool) {
    && NoDuplicates(p.activeValidatorIds) && "" !in p.activeValidatorIds
    && ApprovalThreshold(|p.activeValidatorIds|) == Some(p.threshold)
    && NoDuplicates(p.approvals)
    && (forall v :: v in p.approvals ==> v in p.activeValidatorIds)
    && (if full then |p.approvals| == p.threshold else |p.approvals| < p.threshold)
  }

  // A pending commitment is the one attempt its rotation id has started.
  ghost predicate PendingLinked(b: Bus, id: string)
    requires id in b.pending
  {
    var p := b.pending[id];
    && p.proposal.rotationId == id
    && p.attempt in b.stages && b.stages[p.attempt] == Collecting(id)
    && id in b.starting && b.starting[id] == StartingCommitment(p.proposal, p.attempt)
    && id !in b.completed
  }

  ghost predicate StageOk(b: Bus, a: nat)
    requires a in b.stages
  {
    && a < b.nextAttempt
    && match b.stages[a]
       case AwaitingSnapshot(p) =>
         && p.rotationId !in b.pending && p.rotationId !in b.completed
         && p.rotationId in b.starting && b.starting[p.rotationId] == StartingCommitment(p, a)
       case Collecting(id) => id in b.pending && b.pending[id].attempt == a
       case Settled(id, outcome) => outcome.Resolved? ==> ProvesQuorum(outcome.result) && outcome.result.rotationId == id
  }

  ghost predicate StartingOk(b: Bus, id: string)
    requires id in b.starting
  {
    var s := b.starting[id];
    && s.proposal.rotationId == id
    && s.attempt in b.stages && b.stages[s.attempt].Id() == id
    && (b.stages[s.attempt].AwaitingSnapshot? ==> b.stages[s.attempt].proposal == s.proposal)
  }

  ghost predicate Linked(b: Bus) {
    && (forall id {:trigger PendingLinked(b, id)} :: id in b.pending ==> PendingLinked(b, id))
    && (forall a {:trigger StageOk(b, a)} :: a in b.stages ==> StageOk(b, a))
    && (forall id {:trigger StartingOk(b, id)} :: id in b.starting ==> StartingOk(b, id))
  }

  ghost predicate CacheOk(b: Bus) {
    && NoDuplicates(b.completedOrder)
    && Elements(b.completedOrder) == b.completed.Keys
    && |b.completedOrder| <= b.maxCompleted
    && (forall id {:trigger RememberedOk(id, b.completed[id])} :: id in b.completed ==> RememberedOk(id, b.completed[id]))
  }

  ghost predicate RememberedOk(id: string, entry: Remembered) {
    entry.proposal.rotationId == id && entry.result.rotationId == id && ProvesQuorum(entry.result)
  }

  ghost predicate Inv(b: Bus) {
    && Linked(b)
    && CacheOk(b)
    && (forall id {:trigger VotesOk(b.pending[id], false)} :: id in b.pending ==> VotesOk(b.pending[id], false))
  }

  // ------------------------------------------------------------ one step

  lemma FullVoteProvesQuorum(p: PendingCommitment)
    requires VotesOk(p, true)
    ensures ProvesQuorum(ResultOf(p))
    ensures forall v :: v in ResultOf(p).approvals <==> v in p.approvals
  {
    SortKeepsElements(p.approvals, StringOrder.Leq);
    StringOrder.LeqIsTotalPreorder();
    SortIsSorted(p.approvals, StringOrder.Leq);
  }

  lemma CloseKeepsLinked(b: Bus, id: string, outcome: Outcome)
    requires Linked(b) && id in b.pending
    requires outcome.Resolved? ==> ProvesQuorum(outcome.result) && outcome.result.rotationId == id
    ensures Linked(b.Close(id, outcome))
    ensures id !in b.Close(id, outcome).pending
    ensures forall a :: a in b.stages && b.stages[a].AwaitingSnapshot? ==> b.stages[a].proposal.rotationId != id
  {
    assert PendingLinked(b, id);
    var next := b.Close(id, outcome);
    forall k | k in next.pending ensures PendingLinked(next, k) { assert PendingLinked(b, k); }
    forall a | a in next.stages ensures StageOk(next, a) { assert StageOk(b, a); }
    forall k | k in next.starting ensures StartingOk(next, k) { assert StartingOk(b, k); }
    forall a | a in b.stages && b.stages[a].AwaitingSnapshot? ensures b.stages[a].proposal.rotationId != id { assert StageOk(b, a); }
  }

  // The order of the cache after a Map.set of id.
  function WithId(order: seq<string>, keys: set<string>, id: string): seq<string> {
    if id in keys then order else order + [id]
  }

  lemma WithIdKeepsOrder(order: seq<string>, keys: set<string>, id: string)
    requires NoDuplicates(order) && Elements(order) == keys
    ensures NoDuplicates(WithId(order, keys, id)) && Elements(WithId(order, keys, id)) == keys + {id}
    ensures |order| > 0 && id !in keys ==> WithId(order, keys, id)[0] != id
  {
    assert id in keys <==> id in order by { assert id in Elements(order) <==> id in order; }
  }

  lemma DropFirst(order: seq<string>)
    requires NoDuplicates(order) && order != []
    ensures NoDuplicates(order[1..]) && Elements(order[1..]) == Elements(order) - {order[0]}
  {
    assert order == [order[0]] + order[1..];
    assert Elements(order) == {order[0]} + Elements(order[1..]);
  }

  // Remembering touches nothing but the cache, keeps its bound and evicts only others.
  lemma RememberKeepsCache(b: Bus, id: string, entry: Remembered)
    requires CacheOk(b) && RememberedOk(id, entry)
    ensures var next := b.Remember(id, entry);
            && CacheOk(next)
            && next == b.(completed := next.completed, completedOrder := next.completedOrder)
            && (forall k :: k in next.completed && k != id ==> k in b.completed && next.completed[k] == b.completed[k])
            && (b.maxCompleted > 0 ==> id in next.completed && next.completed[id] == entry)
  {
    if b.maxCompleted > 0 {
      var order := WithId(b.completedOrder, b.completed.Keys, id);
      WithIdKeepsOrder(b.completedOrder, b.completed.Keys, id);
      var grown := b.(completed := b.completed[id := entry], completedOrder := order);
      assert b.Remember(id, entry) == grown.Evict();
      if |order| > b.maxCompleted {
        DropFirst(order);
        var evicted := grown.(completed := grown.completed - {order[0]}, completedOrder := order[1..]);
        assert grown.Evict() == evicted.Evict() == evicted;
        assert order[0] != id;
        assert CacheOk(evicted);
      } else {
        assert grown.Evict() == grown;
      }
    }
  }

  lemma CompleteKeepsInv(b: Bus, id: string)
    requires Linked(b) && CacheOk(b) && id in b.pending && VotesOk(b.pending[id], true)
    requires forall k :: k in b.pending && k != id ==> VotesOk(b.pending[k], false)
    ensures Inv(b.Complete(id))
    ensures b.Complete(id).pending == b.pending - {id} && b.Complete(id).maxCompleted == b.maxCompleted
    ensures b.Complete(id).stages == b.stages[b.pending[id].attempt := Settled(id, Resolved(ResultOf(b.pending[id])))]
    ensures forall k :: k in b.Complete(id).completed && k != id ==> k in b.completed && b.Complete(id).completed[k] == b.completed[k]
    ensures b.maxCompleted > 0 ==> id in b.Complete(id).completed
    ensures id in b.Complete(id).completed ==>
              b.Complete(id).completed[id] == Remembered(b.pending[id].proposal, ResultOf(b.pending[id]))
    ensures id !in b.completed && b.Complete(id).starting == b.starting
  {
    var result := ResultOf(b.pending[id]);
    assert PendingLinked(b, id);
    FullVoteProvesQuorum(b.pending[id]);
    CloseKeepsLinked(b, id, Resolved(result));
    var closed := b.Close(id, Resolved(result));
    RememberKeepsCache(closed, id, Remembered(b.pending[id].proposal, result));
    var next := b.Complete(id);
    forall k | k in next.pending ensures PendingLinked(next, k) { assert PendingLinked(closed, k); }
    forall a | a in next.stages ensures StageOk(next, a) { assert StageOk(closed, a); }
    forall k | k in next.starting ensures StartingOk(next, k) { assert StartingOk(closed, k); }
  }

  lemma VoteKeepsLinked(b: Bus, id: string, v: string)
    requires Linked(b) && id in b.pending
    ensures Linked(b.WithVote(id, v))
  {
    var next := b.WithVote(id, v);
    forall k | k in next.pending ensures PendingLinked(next, k) { assert PendingLinked(b, k); }
    forall a | a in next.stages ensures StageOk(next, a) { assert StageOk(b, a); }
    forall k | k in next.starting ensures StartingOk(next, k) { assert StartingOk(b, k); }
  }

  lemma NextAttemptIsFresh(b: Bus)
    requires Linked(b)
    ensures forall a :: a in b.stages ==> a < b.nextAttempt
  {
    forall a | a in b.stages ensures a < b.nextAttempt {
      assert StageOk(b, a);
    }
  }

  lemma CommitKeepsLinked(b: Bus, p: Proposal)
    requires Linked(b)
    ensures Linked(b.Commit(p))
  {
    if b.CommitReply(p).Started? {
      var next := b.Commit(p);
      NextAttemptIsFresh(b);
      forall k | k in next.pending ensures PendingLinked(next, k) { assert PendingLinked(b, k); }
      forall a | a in next.stages ensures StageOk(next, a) { if a in b.stages { assert StageOk(b, a); } }
      forall k | k in next.starting ensures StartingOk(next, k) { if k in b.starting { assert StartingOk(b, k); } }
    }
  }

  lemma SnapshotFailKeepsLinked(b: Bus, attempt: nat, error: CommitError)
    requires Linked(b) && b.Awaits(attempt)
    ensures Linked(b.SnapshotFails(attempt, error))
  {
    var next := b.SnapshotFails(attempt, error);
    assert StageOk(b, attempt);
    forall k | k in next.pending ensures PendingLinked(next, k) { assert PendingLinked(b, k); }
    forall a | a in next.stages ensures StageOk(next, a) { assert StageOk(b, a); }
    forall k | k in next.starting ensures StartingOk(next, k) { assert StartingOk(b, k); }
  }

  lemma SnapshotKeepsInv(b: Bus, attempt: nat, ids: seq<string>)
    requires Inv(b) && b.Awaits(attempt)
    ensures Inv(b.SnapshotArrives(attempt, ids))
  {
    var next := b.SnapshotArrives(attempt, ids);
    assert StageOk(b, attempt);
    var active := Dedup(NonEmpty(ids));
    if ApprovalThreshold(|active|).None? {
      SnapshotFailKeepsLinked(b, attempt, EmptyValidatorSet);
    } else {
      assert "" !in active by { assert "" !in Elements(NonEmpty(ids)); assert "" !in Elements(active); }
      forall k | k in next.pending ensures PendingLinked(next, k) { if k in b.pending { assert PendingLinked(b, k); } }
      forall a | a in next.stages ensures StageOk(next, a) { assert StageOk(b, a); }
      forall k | k in next.starting ensures StartingOk(next, k) { assert StartingOk(b, k); }
    }
  }

  lemma CleanupKeepsLinked(b: Bus, attempt: nat, id: string)
    requires Linked(b) && attempt in b.stages && b.stages[attempt].Settled?
    ensures Linked(b.Cleanup(attempt, id))
  {
    var next := b.Cleanup(attempt, id);
    forall k | k in next.pending ensures PendingLinked(next, k) { assert PendingLinked(b, k); }
    forall a | a in next.stages ensures StageOk(next, a) { assert StageOk(b, a); }
    forall k | k in next.starting ensures StartingOk(next, k) { assert StartingOk(b, k); }
  }

  lemma ApproveKeepsInv(b: Bus, id: string, v: string)
    requires Inv(b)
    ensures Inv(b.Approve(id, v))
    ensures StepFrame(b, b.Approve(id, v)) && KeepsProposals(b, b.Approve(id, v))
  {
    if b.ApproveReply(id, v).status == Counted {
      VoteKeepsLinked(b, id, v);
      var voted := b.WithVote(id, v);
      CountedVote(b.pending[id], v);
      assert PendingLinked(b, id);
      if |voted.pending[id].approvals| >= voted.pending[id].threshold {
        CompleteKeepsInv(voted, id);
      }
    }
  }

  lemma CountedVote(p: PendingCommitment, v: string)
    requires VotesOk(p, false) && v in p.activeValidatorIds && v !in p.approvals
    ensures var q := p.(approvals := p.approvals + [v]); VotesOk(q, |q.approvals| >= q.threshold)
  {
  }

  // What one step may do to the promises and to the cache.
  ghost predicate StepFrame(b: Bus, next: Bus) {
    && next.maxCompleted == b.maxCompleted
    && (forall a :: a in b.stages ==> a in next.stages && next.stages[a].Id() == b.stages[a].Id())
    && (forall a :: a in b.stages && b.stages[a].Settled? ==> next.stages[a] == b.stages[a])
    && (forall id :: id in b.completed && id in next.completed ==> next.completed[id] == b.completed[id])
  }

  // Only a commit brings in a proposal: the other steps forget, or remember what was pending.
  ghost predicate KeepsProposals(b: Bus, next: Bus) {
    && (forall id :: id in next.starting ==> id in b.starting && next.starting[id] == b.starting[id])
    && (forall id :: id in next.completed ==>
          || (id in b.completed && next.completed[id] == b.completed[id])
          || (id in b.starting && next.completed[id].proposal == b.starting[id].proposal))
  }

  lemma RejectKeepsInv(b: Bus, id: string, error: CommitError)
    requires Inv(b) && id in b.pending
    ensures var next := b.Close(id, Rejected(error)); Inv(next) && StepFrame(b, next) && KeepsProposals(b, next)
  {
    CloseKeepsLinked(b, id, Rejected(error));
    assert PendingLinked(b, id);
  }

  lemma CommitKeepsInv(b: Bus, p: Proposal)
    requires Inv(b)
    ensures Inv(b.Commit(p)) && StepFrame(b, b.Commit(p))
  {
    CommitKeepsLinked(b, p);
    NextAttemptIsFresh(b);
  }

  lemma SnapshotStepKeepsInv(b: Bus, step: Step)
    requires Inv(b) && (step.SnapshotStep? || step.SnapshotFailStep?)
    ensures var next := Apply(b, step); Inv(next) && StepFrame(b, next) && KeepsProposals(b, next)
  {
    if b.Awaits(step.attempt) {
      assert StageOk(b, step.attempt);
      match step
      case SnapshotStep(a, ids) => SnapshotKeepsInv(b, a, ids);
      case SnapshotFailStep(a, e) => SnapshotFailKeepsLinked(b, a, e);
    }
  }

  lemma TimerKeepsInv(b: Bus, a: nat)
    requires Inv(b) && a in b.stages && b.stages[a].Collecting?
    ensures var next := b.TimerFires(a); Inv(next) && StepFrame(b, next) && KeepsProposals(b, next)
  {
    assert StageOk(b, a);
    RejectKeepsInv(b, b.stages[a].rotationId, CommitTimeout);
  }

  lemma ApplyKeepsInv(b: Bus, step: Step)
    requires Inv(b)
    ensures Inv(Apply(b, step))
    ensures StepFrame(b, Apply(b, step))
    ensures !step.CommitStep? ==> KeepsProposals(b, Apply(b, step))
  {
    match step
    case CommitStep(p) => CommitKeepsInv(b, p);
    case SnapshotStep(_, _) => SnapshotStepKeepsInv(b, step);
    case SnapshotFailStep(_, _) => SnapshotStepKeepsInv(b, step);
    case ListenerThrowStep(id, a) =>
      if id in b.pending && b.pending[id].attempt == a { RejectKeepsInv(b, id, ListenerFailed); }
    case TimerStep(a) => if a in b.stages && b.stages[a].Collecting? { TimerKeepsInv(b, a); }
    case ApproveStep(id, v) => ApproveKeepsInv(b, id, v);
    case CleanupStep(a, id) => if a in b.stages && b.stages[a].Settled? { CleanupKeepsLinked(b, a, id); }
  }

  // ------------------------------------------------------------ theorems over all runs

  /** In every run every resolved promise proves its quorum, the cache is bounded and all indexes agree. */
  lemma {:induction false} RunKeepsInv(maxCompleted: nat, steps: seq<Step>)
    ensures var b := Run(InitialBus(maxCompleted), steps);
            && Inv(b)
            && |b.completedOrder| <= maxCompleted
            && (forall a :: a in b.stages && b.stages[a].Settled? && b.stages[a].outcome.Resolved? ==>
                  ProvesQuorum(b.stages[a].outcome.result) && b.stages[a].outcome.result.rotationId == b.stages[a].Id())
            && b.maxCompleted == maxCompleted
  {
    if steps != [] {
      RunKeepsInv(maxCompleted, steps[..|steps| - 1]);
      ApplyKeepsInv(Run(InitialBus(maxCompleted), steps[..|steps| - 1]), steps[|steps| - 1]);
    }
    var b := Run(InitialBus(maxCompleted), steps);
    forall a | a in b.stages && b.stages[a].Settled? && b.stages[a].outcome.Resolved?
      ensures ProvesQuorum(b.stages[a].outcome.result) && b.stages[a].outcome.result.rotationId == b.stages[a].Id()
    {
      assert StageOk(b, a);
    }
  }

  /** A settled promise keeps its outcome through every later run. */
  lemma {:induction false} SettlesAtMostOnce(b: Bus, steps: seq<Step>, a: nat)
    requires Inv(b) && a in b.stages && b.stages[a].Settled?
    ensures var later := Run(b, steps); Inv(later) && a in later.stages && later.stages[a] == b.stages[a]
  {
    if steps != [] {
      SettlesAtMostOnce(b, steps[..|steps| - 1], a);
      ApplyKeepsInv(Run(b, steps[..|steps| - 1]), steps[|steps| - 1]);
    }
  }

  /** Concurrent callers of one rotation share one promise: no two unsettled attempts have the same id. */
  lemma OneLiveAttemptPerRotation(b: Bus, a1: nat, a2: nat)
    requires Inv(b)
    requires a1 in b.stages && a2 in b.stages && !b.stages[a1].Settled? && !b.stages[a2].Settled?
    requires b.stages[a1].Id() == b.stages[a2].Id()
    ensures a1 == a2
  {
    assert StageOk(b, a1) && StageOk(b, a2);
  }

  // The rotation has been in the cache all along a run.
  ghost predicate StaysRemembered(b: Bus, steps: seq<Step>, id: string) {
    forall k :: 0 <= k <= |steps| ==> id in Run(b, steps[..k]).completed
  }

  /** As long as a rotation stays remembered, its proposal is answered with the remembered result. */
  lemma {:induction false} RememberedIsReplayed(b: Bus, steps: seq<Step>, id: string)
    requires Inv(b) && StaysRemembered(b, steps, id)
    ensures var later := Run(b, steps);
            && id in b.completed && id in later.completed && later.completed[id] == b.completed[id]
            && (forall p: Proposal :: p.rotationId == id && b.ValidProposal(p) ==>
                  later.CommitReply(p) == if p == b.completed[id].proposal then Replayed(b.completed[id].result)
                                          else Refused(IdConflict))
    ensures Inv(Run(b, steps))
  {
    assert steps[..|steps|] == steps && steps[..0] == [];
    if steps != [] {
      var front := steps[..|steps| - 1];
      assert forall k :: 0 <= k <= |front| ==> front[..k] == steps[..k];
      RememberedIsReplayed(b, front, id);
      ApplyKeepsInv(Run(b, front), steps[|steps| - 1]);
    }
  }

  /**
   The vote that reaches the threshold settles the promise with exactly the
   counted approvers; later callers get that result for as long as it stays remembered.
   */
  lemma QuorumVoteResolvesAndReplays(b: Bus, id: string, v: string, steps: seq<Step>)
    requires Inv(b) && id in b.pending
    requires b.ApproveReply(id, v).status == Counted && b.ApproveReply(id, v).approvalCount == b.pending[id].threshold
    ensures var next := b.Approve(id, v);
            var a := b.pending[id].attempt;
            && id !in next.pending && (b.maxCompleted > 0 ==> id in next.completed)
            && a in next.stages && next.stages[a].Settled? && next.stages[a].outcome.Resolved?
            && (var result := next.stages[a].outcome.result;
                && (forall w :: w in result.approvals <==> w in b.pending[id].approvals || w == v)
                && a in Run(next, steps).stages && Run(next, steps).stages[a] == Settled(id, Resolved(result))
                && (StaysRemembered(next, steps, id) && b.ValidProposal(b.pending[id].proposal) ==>
                      Run(next, steps).CommitReply(b.pending[id].proposal) == Replayed(result)))
  {
    VoteKeepsLinked(b, id, v);
    assert PendingLinked(b, id);
    CountedVote(b.pending[id], v);
    var voted := b.WithVote(id, v);
    CompleteKeepsInv(voted, id);
    FullVoteProvesQuorum(voted.pending[id]);
    var next, a := b.Approve(id, v), b.pending[id].attempt;
    SettlesAtMostOnce(next, steps, a);
    if StaysRemembered(next, steps, id) {
      RememberedIsReplayed(next, steps, id);
    }
  }

  /** While a rotation id is known it is refused for other metadata, and only then. */
  lemma KnownIdRejectsOtherMetadata(b: Bus, p: Proposal)
    requires Inv(b) && b.ValidProposal(p)
    ensures b.CommitReply(p) == Refused(IdConflict)
       <==> ((p.rotationId in b.completed && b.completed[p.rotationId].proposal != p)
             || (p.rotationId !in b.completed && p.rotationId in b.starting && b.starting[p.rotationId].proposal != p))
  {
    if p.rotationId in b.pending {
      assert PendingLinked(b, p.rotationId);
    }
  }

  // ------------------------------------------------------------ the class

  class CommitmentBroadcaster {
    const maxCompletedCommitments: nat
    var pending: map<string, PendingCommitment>
    var starting: map<string, StartingCommitment>
    var completed: map<string, Remembered>
    var completedOrder: seq<string>
    var stages: map<nat, Stage>
    var nextAttempt: nat

    function View(): Bus
      reads this
    {
      Bus(maxCompletedCommitments, pending, starting, completed, completedOrder, stages, nextAttempt)
    }

    constructor (maxCompleted: nat)
      ensures View() == InitialBus(maxCompleted)
    {
      maxCompletedCommitments := maxCompleted;
      pending, starting, completed, completedOrder, stages, nextAttempt := map[], map[], map[], [], map[], 0;
    }

    // The call up to the snapshot await of startCommit.
    method CommitRotation(proposal: Proposal) returns (reply: CommitReply)
      modifies this
      ensures reply == old(View()).CommitReply(proposal)
      ensures View() == old(View()).Commit(proposal)
    {
      if !View().ValidProposal(proposal) {
        return Refused(InvalidProposal);
      }
      var id := proposal.rotationId;
      if id in completed {
        if completed[id].proposal != proposal { return Refused(IdConflict); }
        return Replayed(completed[id].result);
      }
      if id in pending {
        if pending[id].proposal != proposal { return Refused(IdConflict); }
        return Joined(pending[id].attempt);
      }
      if id in starting {
        if starting[id].proposal != proposal { return Refused(IdConflict); }
        return Joined(starting[id].attempt);
      }
      var attempt := nextAttempt;
      nextAttempt := nextAttempt + 1;
      stages := stages[attempt := AwaitingSnapshot(proposal)];
      starting := starting[id := StartingCommitment(proposal, attempt)];
      return Started(attempt);
    }

    // startCommit from the snapshot up to the emit.
    method OnSnapshot(attempt: nat, suppliedIds: seq<string>)
      requires View().Awaits(attempt)
      modifies this
      ensures View() == old(View()).SnapshotArrives(attempt, suppliedIds)
    {
      var proposal := stages[attempt].proposal;
      var activeValidatorIds := Dedup(NonEmpty(suppliedIds));
      var threshold := ApprovalThreshold(|activeValidatorIds|);
      if threshold.None? {
        stages := stages[attempt := Settled(proposal.rotationId, Rejected(EmptyValidatorSet))];
        return;
      }
      stages := stages[attempt := Collecting(proposal.rotationId)];
      pending := pending[proposal.rotationId := PendingCommitment(proposal, activeValidatorIds, threshold.value, [], attempt)];
    }

    method ApproveRotation(rotationId: string, validatorId: string) returns (reply: ApprovalResult)
      modifies this
      ensures reply == old(View()).ApproveReply(rotationId, validatorId)
      ensures View() == old(View()).Approve(rotationId, validatorId)
    {
      if rotationId !in pending {
        return ApprovalResult(UnknownRotation, 0, None);
      }
      var p := pending[rotationId];
      if validatorId !in p.activeValidatorIds {
        return ApprovalResult(Ineligible, |p.approvals|, Some(p.threshold));
      }
      if validatorId in p.approvals {
        return ApprovalResult(Duplicate, |p.approvals|, Some(p.threshold));
      }
      p := p.(approvals := p.approvals + [validatorId]);
      pending := pending[rotationId := p];
      if |p.approvals| >= p.threshold {
        CompleteCommitment(rotationId);
      }
      return ApprovalResult(Counted, |p.approvals|, Some(p.threshold));
    }

    method CompleteCommitment(rotationId: string)
      requires rotationId in pending
      modifies this
      ensures View() == old(View()).Complete(rotationId)
    {
      var p := pending[rotationId];
      var result := ResultOf(p);
      pending := pending - {rotationId};
      stages := stages[p.attempt := Settled(rotationId, Resolved(result))];
      RememberCompleted(rotationId, Remembered(p.proposal, result));
    }

    method FailCommitment(rotationId: string, attempt: nat, error: CommitError)
      modifies this
      ensures View() == if rotationId in old(pending) && old(pending)[rotationId].attempt == attempt
                        then old(View()).Close(rotationId, Rejected(error)) else old(View())
    {
      if rotationId !in pending || pending[rotationId].attempt != attempt {
        return;
      }
      pending := pending - {rotationId};
      stages := stages[attempt := Settled(rotationId, Rejected(error))];
    }

    method RememberCompleted(id: string, entry: Remembered)
      modifies this
      ensures View() == old(View()).Remember(id, entry)
    {
      if maxCompletedCommitments == 0 {
        return;
      }
      completedOrder := WithId(completedOrder, completed.Keys, id);
      completed := completed[id := entry];
      ghost var grown := View();
      while |completedOrder| > maxCompletedCommitments
        invariant View().Evict() == grown.Evict()
        invariant View() == grown.(completed := completed, completedOrder := completedOrder)
        decreases |completedOrder|
      {
        completed := completed - {completedOrder[0]};
        completedOrder := completedOrder[1..];
      }
    }
  }
}
