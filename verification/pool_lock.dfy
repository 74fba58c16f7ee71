/**
 Model of withPoolLock in src/staking/poolStore.ts: a chain of promises per pool
 serialises the bodies of stake, unstake and reconcilePool.

 A call is known by its arrival number.  It takes the steps Arrive (up to
 `await previous`), Start (the body up to its await, if it has one), Continue (the
 rest of reconcilePool) and Release (the finally block), interleaved with all others.
 */
module PoolLock {
  import opened Common
  import opened BondPool

  datatype Phase =
    | Waiting
    | Summed(total: int)                              // reconcilePool, with its total computed
    | Ran(result: Result<Pool, PoolError>)            // the body settled, the lock is still held
    | Done(result: Result<Pool, PoolError>)           // released

  datatype Call = Call(op: Op, phase: Phase, previous: Option<nat>)

  // What has taken effect on the store, in the order it did.
  datatype Entry = Entry(ticket: nat, op: Op, result: Result<Pool, PoolError>)

  datatype State = State(store: Store, calls: seq<Call>, locks: map<string, nat>, journal: seq<Entry>)

  datatype Step = Arrive(op: Op) | Start(i: nat) | Continue(i: nat) | Release(i: nat)

  // `queued` of call i: its own release, after everything it waited for.
  predicate QueuedResolved(calls: seq<Call>, i: nat)
    decreases i
  {
    i < |calls| && calls[i].phase.Done?
    && (calls[i].previous.Some? ==> calls[i].previous.value < i && QueuedResolved(calls, calls[i].previous.value))
  }

  predicate MayStart(s: State, i: nat) {
    && i < |s.calls| && s.calls[i].phase.Waiting?
    && (s.calls[i].previous.Some? ==> QueuedResolved(s.calls, s.calls[i].previous.value))
  }

  function SetPhase(calls: seq<Call>, i: nat, phase: Phase): seq<Call>
    requires i < |calls|
  {
    calls[i := calls[i].(phase := phase)]
  }

  // The body of call i takes effect with outcome r.
  function Settle(s: State, i: nat, r: Result<Store, PoolError>): State
    requires i < |s.calls|
  {
    var reply := Reply(r, s.calls[i].op);
    s.(store := if r.Ok? then r.value else s.store,
       calls := SetPhase(s.calls, i, Ran(reply)),
       journal := s.journal + [Entry(i, s.calls[i].op, reply)])
  }

  ghost function Apply(s: State, step: Step): State {
    match step
    case Arrive(op) =>
      var previous := if op.poolId in s.locks then Some(s.locks[op.poolId]) else None;
      s.(calls := s.calls + [Call(op, Waiting, previous)], locks := s.locks[op.poolId := |s.calls|])
    case Start(i) =>
      if !MayStart(s, i) then s
      else if s.calls[i].op.ReconcileOp? && s.calls[i].op.poolId in s.store.pools then
        s.(calls := SetPhase(s.calls, i, Summed(Sum(s.store.stakes, s.calls[i].op.poolId))))
      else
        Settle(s, i, Body(s.store, s.calls[i].op))
    case Continue(i) =>
      if i < |s.calls| && s.calls[i].phase.Summed? then Settle(s, i, s.store.SetBalance(s.calls[i].op.poolId, s.calls[i].phase.total)) else s
    case Release(i) =>
      if i < |s.calls| && s.calls[i].phase.Ran? then
        var p := s.calls[i].op.poolId;
        s.(calls := SetPhase(s.calls, i, Done(s.calls[i].phase.result)),
           locks := if p in s.locks && s.locks[p] == i then s.locks - {p} else s.locks)
      else s
  }

  ghost function Run(s: State, steps: seq<Step>): State {
    if steps == [] then s else Apply(Run(s, steps[..|steps| - 1]), steps[|steps| - 1])
  }

  function Initial(store: Store): State {
    State(store, [], map[], [])
  }

  // ---------------------------------------------------------------- the same calls, one by one

  // The store after running the entries' calls one after the other.
  ghost function Replay(store: Store, entries: seq<Entry>): Store {
    if entries == [] then store
    else
      var before := Replay(store, entries[..|entries| - 1]);
      var r := Body(before, entries[|entries| - 1].op);
      if r.Ok? then r.value else before
  }

  // The result call k of the journal returns when the calls are run one by one.
  ghost function SequentialResult(store: Store, journal: seq<Entry>, k: nat): Result<Pool, PoolError>
    requires k < |journal|
  {
    Reply(Body(Replay(store, journal[..k]), journal[k].op), journal[k].op)
  }

  // ---------------------------------------------------------------- the invariant

  predicate Running(c: Call) {
    c.phase.Summed? || c.phase.Ran?
  }

  predicate SamePool(s: State, i: nat, j: nat)
    requires i < |s.calls| && j < |s.calls|
  {
    s.calls[i].op.poolId == s.calls[j].op.poolId
  }

  // Call j waits for the last call of its pool before it, or for none that is not done.
  ghost predicate PreviousOk(s: State, j: nat)
    requires j < |s.calls|
  {
    match s.calls[j].previous
    case None => forall i :: 0 <= i < j && SamePool(s, i, j) ==> s.calls[i].phase.Done?
    case Some(p) => p < j && SamePool(s, p, j) && forall i :: p < i < j ==> s.calls[i].op.poolId != s.calls[j].op.poolId
  }

  // A call that has left Waiting comes after every earlier call of its pool.
  ghost predicate InTurn(s: State, j: nat)
    requires j < |s.calls|
  {
    !s.calls[j].phase.Waiting? ==> forall i :: 0 <= i < j && SamePool(s, i, j) ==> s.calls[i].phase.Done?
  }

  ghost predicate LockOk(s: State, p: string) {
    if p in s.locks then
      s.locks[p] < |s.calls| && s.calls[s.locks[p]].op.poolId == p && !s.calls[s.locks[p]].phase.Done?
      && forall i :: s.locks[p] < i < |s.calls| ==> s.calls[i].op.poolId != p
    else
      forall i :: 0 <= i < |s.calls| && s.calls[i].op.poolId == p ==> s.calls[i].phase.Done?
  }

  ghost predicate LockInv(s: State) {
    && (forall j {:trigger PreviousOk(s, j)} :: 0 <= j < |s.calls| ==> PreviousOk(s, j))
    && (forall j {:trigger InTurn(s, j)} :: 0 <= j < |s.calls| ==> InTurn(s, j))
    && (forall p {:trigger LockOk(s, p)} :: LockOk(s, p))
  }

  lemma {:induction false} ResolvedMeansAllDone(s: State, i: nat)
    requires LockInv(s) && QueuedResolved(s.calls, i)
    ensures forall k :: 0 <= k <= i && SamePool(s, k, i) ==> s.calls[k].phase.Done?
    decreases i
  {
    assert PreviousOk(s, i);
    if s.calls[i].previous.Some? {
      ResolvedMeansAllDone(s, s.calls[i].previous.value);
    }
  }

  lemma StarterIsInTurn(s: State, j: nat)
    requires LockInv(s) && MayStart(s, j)
    ensures forall i :: 0 <= i < j && SamePool(s, i, j) ==> s.calls[i].phase.Done?
  {
    assert PreviousOk(s, j);
    if s.calls[j].previous.Some? {
      ResolvedMeansAllDone(s, s.calls[j].previous.value);
    }
  }

  // A call that moves forward, in turn, keeps the chain.
  lemma PhaseKeepsLockInv(s: State, next: State, i: nat, phase: Phase)
    requires LockInv(s) && i < |s.calls| && next.calls == SetPhase(s.calls, i, phase) && next.locks == s.locks
    requires !s.calls[i].phase.Done? && !phase.Waiting? && !phase.Done?
    requires forall k :: 0 <= k < i && SamePool(s, k, i) ==> s.calls[k].phase.Done?
    ensures LockInv(next)
  {
    forall j | 0 <= j < |next.calls| ensures PreviousOk(next, j) { assert PreviousOk(s, j); }
    forall j | 0 <= j < |next.calls| ensures InTurn(next, j) {
      assert InTurn(s, j);
    }
    forall p ensures LockOk(next, p) { assert LockOk(s, p); }
  }

  lemma ReleaseKeepsLockInv(s: State, i: nat)
    requires LockInv(s)
    ensures LockInv(Apply(s, Release(i)))
  {
    var next := Apply(s, Release(i));
    if next != s {
      assert InTurn(s, i);
      forall j | 0 <= j < |next.calls| ensures PreviousOk(next, j) { assert PreviousOk(s, j); }
      forall j | 0 <= j < |next.calls| ensures InTurn(next, j) { assert InTurn(s, j); }
      forall p ensures LockOk(next, p) {
        assert LockOk(s, p);
      }
    }
  }

  lemma ArriveKeepsLockInv(s: State, op: Op)
    requires LockInv(s)
    ensures LockInv(Apply(s, Arrive(op)))
  {
    var next := Apply(s, Arrive(op));
    assert LockOk(s, op.poolId);
    forall j | 0 <= j < |next.calls| ensures PreviousOk(next, j) { if j < |s.calls| { assert PreviousOk(s, j); } }
    forall j | 0 <= j < |next.calls| ensures InTurn(next, j) { if j < |s.calls| { assert InTurn(s, j); } }
    forall p ensures LockOk(next, p) { assert LockOk(s, p); }
  }

  lemma StepKeepsLockInv(s: State, step: Step)
    requires LockInv(s)
    ensures LockInv(Apply(s, step))
  {
    match step
    case Arrive(op) => ArriveKeepsLockInv(s, op);
    case Start(i) =>
      if MayStart(s, i) {
        StarterIsInTurn(s, i);
        assert NextInTurn(s, i);
        PhaseKeepsLockInv(s, Apply(s, step), i, Apply(s, step).calls[i].phase);
      }
    case Continue(i) =>
      if i < |s.calls| && s.calls[i].phase.Summed? {
        assert InTurn(s, i);
        PhaseKeepsLockInv(s, Apply(s, step), i, Apply(s, step).calls[i].phase);
      }
    case Release(i) => ReleaseKeepsLockInv(s, i);
  }

  // ---------------------------------------------------------------- linearizability

  ghost predicate EntryOk(s: State, store: Store, k: nat)
    requires k < |s.journal|
  {
    var e := s.journal[k];
    && e.ticket < |s.calls| && s.calls[e.ticket].op == e.op
    && (s.calls[e.ticket].phase == Ran(e.result) || s.calls[e.ticket].phase == Done(e.result))
    && e.result == SequentialResult(store, s.journal, k)
  }

  // Calls of one pool take effect in the order they arrived.
  ghost predicate ArrivalOrder(journal: seq<Entry>) {
    forall k, l :: 0 <= k < l < |journal| && journal[k].op.poolId == journal[l].op.poolId ==> journal[k].ticket < journal[l].ticket
  }

  ghost predicate SummedOk(s: State, i: nat)
    requires i < |s.calls|
  {
    s.calls[i].phase.Summed? ==>
      && s.calls[i].op.ReconcileOp? && s.calls[i].op.poolId in s.store.pools
      && s.calls[i].phase.total == Sum(s.store.stakes, s.calls[i].op.poolId)
  }

  ghost predicate Logged(s: State, i: nat)
    requires i < |s.calls|
  {
    s.calls[i].phase.Ran? || s.calls[i].phase.Done? ==> exists k :: 0 <= k < |s.journal| && s.journal[k].ticket == i
  }

  ghost predicate AllColonFree(s: State) {
    forall i :: 0 <= i < |s.calls| ==> ColonFree(s.calls[i].op.poolId)
  }

  ghost predicate Inv(s: State, store: Store) {
    && LockInv(s)
    && Agrees(s.store)
    && s.store == Replay(store, s.journal)
    && s.store.pools.Keys == store.pools.Keys
    && ArrivalOrder(s.journal)
    && (forall k {:trigger EntryOk(s, store, k)} :: 0 <= k < |s.journal| ==> EntryOk(s, store, k))
    && (forall i {:trigger SummedOk(s, i)} :: 0 <= i < |s.calls| ==> SummedOk(s, i))
    && (forall i {:trigger Logged(s, i)} :: 0 <= i < |s.calls| ==> Logged(s, i))
    && AllColonFree(s)
  }

  // A body on one pool leaves the sum of every other pool alone.
  lemma BodyKeepsOtherSums(s: Store, op: Op, q: string)
    requires Agrees(s) && ColonFree(op.poolId) && q != op.poolId && Body(s, op).Ok?
    ensures Sum(Body(s, op).value.stakes, q) == Sum(s.stakes, q)
    ensures Body(s, op).value.pools.Keys == s.pools.Keys
  {
    var next := Body(s, op).value;
    match op
    case StakeOp(p, v, amount) =>
      if StakeKey(p, v) in s.stakes { OwnKey(s, p, v); }
      SumUpdate(s.stakes, q, StakeKey(p, v), next.stakes[StakeKey(p, v)]);
    case UnstakeOp(p, v, amount) =>
      OwnKey(s, p, v);
      if StakeKey(p, v) in next.stakes { SumUpdate(s.stakes, q, StakeKey(p, v), next.stakes[StakeKey(p, v)]); }
      else { SumWithout(s.stakes, q, StakeKey(p, v)); }
    case ReconcileOp(p) =>
  }

  // The call that takes effect: it is not done, and every earlier call of its pool is.
  ghost predicate NextInTurn(s: State, i: nat) {
    && i < |s.calls| && (s.calls[i].phase.Waiting? || s.calls[i].phase.Summed?)
    && forall k :: 0 <= k < i && SamePool(s, k, i) ==> s.calls[k].phase.Done?
  }

  lemma SettleKeepsEntries(s: State, store: Store, i: nat)
    requires Inv(s, store) && NextInTurn(s, i)
    ensures var next := Settle(s, i, Body(s.store, s.calls[i].op));
            && next.store == Replay(store, next.journal)
            && forall k {:trigger EntryOk(next, store, k)} :: 0 <= k < |next.journal| ==> EntryOk(next, store, k)
  {
    hide Body;
    var next := Settle(s, i, Body(s.store, s.calls[i].op));
    assert next.journal[..|s.journal|] == s.journal;
    forall k | 0 <= k < |next.journal| ensures EntryOk(next, store, k) {
      if k < |s.journal| {
        assert EntryOk(s, store, k);
        assert next.journal[..k] == s.journal[..k];
      }
    }
  }

  lemma SettleKeepsSummed(s: State, store: Store, i: nat)
    requires Inv(s, store) && NextInTurn(s, i)
    ensures var next := Settle(s, i, Body(s.store, s.calls[i].op));
            && next.store.pools.Keys == s.store.pools.Keys
            && forall j {:trigger SummedOk(next, j)} :: 0 <= j < |next.calls| ==> SummedOk(next, j)
  {
    var op := s.calls[i].op;
    var r := Body(s.store, op);
    var next := Settle(s, i, r);
    BodyKeepsPools(s.store, op);
    hide Body;
    forall j | 0 <= j < |next.calls| ensures SummedOk(next, j) {
      assert SummedOk(s, j);
      if j != i && s.calls[j].phase.Summed? {
        OnlyOneRuns(s, i, j);
        if r.Ok? { BodyKeepsOtherSums(s.store, op, s.calls[j].op.poolId); }
      }
    }
  }

  lemma BodyKeepsPools(s: Store, op: Op)
    ensures Body(s, op).Ok? ==> Body(s, op).value.pools.Keys == s.pools.Keys
  {
  }

  lemma SettleKeepsLog(s: State, store: Store, i: nat)
    requires Inv(s, store) && NextInTurn(s, i)
    ensures var next := Settle(s, i, Body(s.store, s.calls[i].op));
            && ArrivalOrder(next.journal)
            && forall j {:trigger Logged(next, j)} :: 0 <= j < |next.calls| ==> Logged(next, j)
  {
    hide Body;
    var op := s.calls[i].op;
    var next := Settle(s, i, Body(s.store, op));
    forall j | 0 <= j < |next.calls| ensures Logged(next, j) {
      assert Logged(s, j);
      if j != i && (s.calls[j].phase.Ran? || s.calls[j].phase.Done?) {
        var k :| 0 <= k < |s.journal| && s.journal[k].ticket == j;
        assert next.journal[k].ticket == j;
      }
      assert next.journal[|s.journal|].ticket == i;
    }
    forall k | 0 <= k < |s.journal| && s.journal[k].op.poolId == op.poolId ensures s.journal[k].ticket < i {
      assert EntryOk(s, store, k);
      var t := s.journal[k].ticket;
      assert InTurn(s, t);
    }
  }

  lemma SettleKeepsInv(s: State, store: Store, i: nat)
    requires Inv(s, store) && NextInTurn(s, i)
    ensures Inv(Settle(s, i, Body(s.store, s.calls[i].op)), store)
  {
    var op := s.calls[i].op;
    var r := Body(s.store, op);
    PhaseKeepsLockInv(s, Settle(s, i, r), i, Ran(Reply(r, op)));
    BodyKeepsAgreement(s.store, op);
    SettleKeepsEntries(s, store, i);
    SettleKeepsSummed(s, store, i);
    SettleKeepsLog(s, store, i);
    hide Body;
    hide Reply;
    hide LockInv;
    hide ArrivalOrder;
    hide Agrees;
  }

  // Whoever is next in turn shares its pool with no running call.
  lemma OnlyOneRuns(s: State, i: nat, j: nat)
    requires LockInv(s) && i < |s.calls| && j < |s.calls| && i != j
    requires !s.calls[i].phase.Done? && Running(s.calls[j])
    requires forall k :: 0 <= k < i && SamePool(s, k, i) ==> s.calls[k].phase.Done?
    ensures !SamePool(s, i, j)
  {
    assert InTurn(s, j);
  }

  lemma QuietKeepsInv(s: State, next: State, store: Store)
    requires Inv(s, store) && LockInv(next) && AllColonFree(next)
    requires next.store == s.store && next.journal == s.journal && |s.calls| <= |next.calls|
    requires forall i :: 0 <= i < |s.calls| ==> next.calls[i].op == s.calls[i].op
    requires forall i :: 0 <= i < |s.calls| ==>
               || next.calls[i].phase == s.calls[i].phase
               || (s.calls[i].phase.Ran? && next.calls[i].phase == Done(s.calls[i].phase.result))
               || (s.calls[i].phase.Waiting? && next.calls[i].phase.Summed? && SummedOk(next, i))
    requires forall i :: |s.calls| <= i < |next.calls| ==> next.calls[i].phase.Waiting?
    ensures Inv(next, store)
  {
    forall k | 0 <= k < |next.journal| ensures EntryOk(next, store, k) { assert EntryOk(s, store, k); }
    forall i | 0 <= i < |next.calls| ensures SummedOk(next, i) { if i < |s.calls| { assert SummedOk(s, i); } }
    forall i | 0 <= i < |next.calls| ensures Logged(next, i) { if i < |s.calls| { assert Logged(s, i); } }
  }

  lemma StartKeepsInv(s: State, i: nat, store: Store)
    requires Inv(s, store) && MayStart(s, i) && LockInv(Apply(s, Start(i)))
    ensures Inv(Apply(s, Start(i)), store)
  {
    hide Body;
    StarterIsInTurn(s, i);
    if s.calls[i].op.ReconcileOp? && s.calls[i].op.poolId in s.store.pools {
      QuietKeepsInv(s, Apply(s, Start(i)), store);
    } else {
      hide Inv;
      assert NextInTurn(s, i);
      SettleKeepsInv(s, store, i);
    }
  }

  lemma ContinueKeepsInv(s: State, i: nat, store: Store)
    requires Inv(s, store) && i < |s.calls| && s.calls[i].phase.Summed?
    ensures Inv(Apply(s, Continue(i)), store)
  {
    assert SummedOk(s, i) && InTurn(s, i);
    hide Inv;
    assert NextInTurn(s, i);
    SettleKeepsInv(s, store, i);
  }

  lemma StepKeepsInv(s: State, step: Step, store: Store)
    requires Inv(s, store) && (step.Arrive? ==> ColonFree(step.op.poolId))
    ensures Inv(Apply(s, step), store)
  {
    StepKeepsLockInv(s, step);
    hide Body;
    match step
    case Arrive(op) => QuietKeepsInv(s, Apply(s, step), store);
    case Start(i) => if MayStart(s, i) { StartKeepsInv(s, i, store); }
    case Continue(i) => if i < |s.calls| && s.calls[i].phase.Summed? { ContinueKeepsInv(s, i, store); }
    case Release(i) => QuietKeepsInv(s, Apply(s, step), store);
  }

  ghost predicate ColonFreeSteps(steps: seq<Step>) {
    forall k :: 0 <= k < |steps| && steps[k].Arrive? ==> ColonFree(steps[k].op.poolId)
  }

  lemma {:induction false} RunKeepsInv(store: Store, steps: seq<Step>)
    requires Agrees(store) && ColonFreeSteps(steps)
    ensures Inv(Run(Initial(store), steps), store)
  {
    if steps != [] {
      RunKeepsInv(store, steps[..|steps| - 1]);
      StepKeepsInv(Run(Initial(store), steps[..|steps| - 1]), steps[|steps| - 1], store);
    } else {
      var s := Initial(store);
      forall p ensures LockOk(s, p) { }
    }
  }

  // ---------------------------------------------------------------- theorems

  lemma {:induction false} RunKeepsLockInv(store: Store, steps: seq<Step>)
    ensures LockInv(Run(Initial(store), steps))
  {
    if steps != [] {
      RunKeepsLockInv(store, steps[..|steps| - 1]);
      StepKeepsLockInv(Run(Initial(store), steps[..|steps| - 1]), steps[|steps| - 1]);
    } else {
      var s := Initial(store);
      forall p ensures LockOk(s, p) { }
    }
  }

  /**
   In every interleaving, for any pool ids and even when bodies throw, at most one
   body per pool is running, and calls of a pool leave the queue in arrival order.
   */
  lemma MutualExclusion(store: Store, steps: seq<Step>, i: nat, j: nat)
    requires var s := Run(Initial(store), steps); i < j < |s.calls| && SamePool(s, i, j)
    ensures var s := Run(Initial(store), steps);
            && !(Running(s.calls[i]) && Running(s.calls[j]))
            && (!s.calls[j].phase.Waiting? ==> s.calls[i].phase.Done?)
  {
    RunKeepsLockInv(store, steps);
    assert InTurn(Run(Initial(store), steps), j);
  }

  /**
   Linearizability: the store, and the result of every call, are those of the same
   calls run one by one in an order that keeps the arrival order of each pool; the
   balances agree with the stakes throughout.
   */
  lemma RunsAreSequential(store: Store, steps: seq<Step>)
    requires Agrees(store) && ColonFreeSteps(steps)
    ensures var s := Run(Initial(store), steps);
            && s.store == Replay(store, s.journal)
            && Agrees(s.store)
            && ArrivalOrder(s.journal)
            && (forall k :: 0 <= k < |s.journal| ==>
                  s.journal[k].ticket < |s.calls| && s.calls[s.journal[k].ticket].op == s.journal[k].op
                  && s.journal[k].result == SequentialResult(store, s.journal, k))
            && (forall i :: 0 <= i < |s.calls| && s.calls[i].phase.Done? ==>
                  exists k :: 0 <= k < |s.journal| && s.journal[k].ticket == i && s.journal[k].result == s.calls[i].phase.result)
  {
    RunKeepsInv(store, steps);
    var s := Run(Initial(store), steps);
    forall k | 0 <= k < |s.journal|
      ensures s.journal[k].ticket < |s.calls| && s.calls[s.journal[k].ticket].op == s.journal[k].op
              && s.journal[k].result == SequentialResult(store, s.journal, k)
    {
      assert EntryOk(s, store, k);
    }
    forall i | 0 <= i < |s.calls| && s.calls[i].phase.Done?
      ensures exists k :: 0 <= k < |s.journal| && s.journal[k].ticket == i && s.journal[k].result == s.calls[i].phase.result
    {
      assert Logged(s, i);
      var k :| 0 <= k < |s.journal| && s.journal[k].ticket == i;
      assert EntryOk(s, store, k);
    }
  }

  ghost predicate NoNegativeUnstakes(steps: seq<Step>) {
    forall k :: 0 <= k < |steps| && steps[k].Arrive? && steps[k].op.UnstakeOp? ==> steps[k].op.amount >= 0
  }

  /** In every interleaving without negative unstakes, no stake ever passes the limit. */
  lemma {:induction false} RunKeepsLimit(store: Store, steps: seq<Step>)
    requires WithinLimit(store) && NoNegativeUnstakes(steps)
    ensures var s := Run(Initial(store), steps);
            && WithinLimit(s.store)
            && forall i :: 0 <= i < |s.calls| && s.calls[i].op.UnstakeOp? ==> s.calls[i].op.amount >= 0
  {
    if steps != [] {
      var front, last := steps[..|steps| - 1], steps[|steps| - 1];
      RunKeepsLimit(store, front);
      var s := Run(Initial(store), front);
      if last.Start? && MayStart(s, last.i) {
        BodyKeepsLimit(s.store, s.calls[last.i].op);
      }
    }
  }

  // The lock never deadlocks: an unfinished call can step, or an earlier one of its pool can.
  lemma {:induction false} SomeCallCanStep(store: Store, steps: seq<Step>, j: nat)
    requires var s := Run(Initial(store), steps); j < |s.calls| && !s.calls[j].phase.Done?
    ensures var s := Run(Initial(store), steps);
            exists i :: 0 <= i <= j && SamePool(s, i, j) && (MayStart(s, i) || Running(s.calls[i]))
  {
    RunKeepsLockInv(store, steps);
    FirstUnfinished(Run(Initial(store), steps), j);
  }

  lemma {:induction false} FirstUnfinished(s: State, j: nat)
    requires LockInv(s) && j < |s.calls| && !s.calls[j].phase.Done?
    ensures exists i :: 0 <= i <= j && SamePool(s, i, j) && (MayStart(s, i) || Running(s.calls[i]))
    decreases j
  {
    assert PreviousOk(s, j);
    if Running(s.calls[j]) || MayStart(s, j) {
      assert SamePool(s, j, j);
    } else {
      var p := s.calls[j].previous.value;
      if s.calls[p].phase.Done? {
        AllDoneMeansResolved(s, p);
        assert false;
      } else {
        FirstUnfinished(s, p);
        var i :| 0 <= i <= p && SamePool(s, i, p) && (MayStart(s, i) || Running(s.calls[i]));
        assert SamePool(s, i, j);
      }
    }
  }

  lemma {:induction false} AllDoneMeansResolved(s: State, p: nat)
    requires LockInv(s) && p < |s.calls| && s.calls[p].phase.Done?
    ensures QueuedResolved(s.calls, p)
    decreases p
  {
    assert PreviousOk(s, p) && InTurn(s, p);
    if s.calls[p].previous.Some? {
      AllDoneMeansResolved(s, s.calls[p].previous.value);
    }
  }

  // ---------------------------------------------------------------- progress

  ghost predicate HasUnfinished(s: State, p: string) {
    exists i :: 0 <= i < |s.calls| && s.calls[i].op.poolId == p && !s.calls[i].phase.Done?
  }

  /** The map of locks holds an entry exactly for the pools with an unfinished call: entries are dropped again. */
  lemma LocksAreFreed(store: Store, steps: seq<Step>, p: string)
    ensures var s := Run(Initial(store), steps); p in s.locks <==> HasUnfinished(s, p)
  {
    RunKeepsLockInv(store, steps);
    assert LockOk(Run(Initial(store), steps), p);
  }

  function Remaining(phase: Phase): nat {
    match phase
    case Waiting => 3
    case Summed(_) => 2
    case Ran(_) => 1
    case Done(_) => 0
  }

  // The steps that the calls have ahead of them.
  function Ahead(calls: seq<Call>): nat {
    if calls == [] then 0 else Ahead(calls[..|calls| - 1]) + Remaining(calls[|calls| - 1].phase)
  }

  lemma {:induction false} AheadAfterPhase(calls: seq<Call>, i: nat, phase: Phase)
    requires i < |calls|
    ensures Ahead(SetPhase(calls, i, phase)) == Ahead(calls) - Remaining(calls[i].phase) + Remaining(phase)
    decreases |calls|
  {
    var next, n := SetPhase(calls, i, phase), |calls| - 1;
    if i < n {
      AheadAfterPhase(calls[..n], i, phase);
      assert next[..n] == SetPhase(calls[..n], i, phase);
    } else {
      assert next[..n] == calls[..n];
    }
  }

  lemma {:induction false} NothingAhead(calls: seq<Call>)
    requires forall i :: 0 <= i < |calls| ==> calls[i].phase.Done?
    ensures Ahead(calls) == 0
  {
    if calls != [] { NothingAhead(calls[..|calls| - 1]); }
  }

  // The step that takes a call further.
  function NextStep(s: State, i: nat): Step
    requires i < |s.calls| && !s.calls[i].phase.Done?
  {
    match s.calls[i].phase
    case Waiting => Start(i)
    case Summed(_) => Continue(i)
    case Ran(_) => Release(i)
  }

  lemma NextStepIsProgress(s: State, i: nat)
    requires i < |s.calls| && (MayStart(s, i) || Running(s.calls[i]))
    ensures var u := Apply(s, NextStep(s, i)); |u.calls| == |s.calls| && Ahead(u.calls) < Ahead(s.calls)
  {
    var u := Apply(s, NextStep(s, i));
    AheadAfterPhase(s.calls, i, u.calls[i].phase);
    assert u.calls == SetPhase(s.calls, i, u.calls[i].phase);
  }

  ghost predicate AllDone(s: State) {
    forall i :: 0 <= i < |s.calls| ==> s.calls[i].phase.Done?
  }

  /** From every reachable state the calls made so far can all be brought to their end, and then no lock is left. */
  lemma {:induction false} AllCanFinish(store: Store, steps: seq<Step>) returns (more: seq<Step>)
    ensures var s, u := Run(Initial(store), steps), Run(Initial(store), steps + more);
            |u.calls| == |s.calls| && AllDone(u) && u.locks == map[] && |more| <= 3 * |s.calls|
  {
    more := FinishingSteps(store, steps);
    AheadIsBounded(Run(Initial(store), steps).calls);
    var u := Run(Initial(store), steps + more);
    forall p ensures p !in u.locks { LocksAreFreed(store, steps + more, p); }
  }

  lemma {:induction false} AheadIsBounded(calls: seq<Call>)
    ensures Ahead(calls) <= 3 * |calls|
  {
    if calls != [] { AheadIsBounded(calls[..|calls| - 1]); }
  }

  // Some call takes one step.
  lemma OneStepFurther(store: Store, steps: seq<Step>) returns (step: Step)
    requires !AllDone(Run(Initial(store), steps))
    ensures var s, u := Run(Initial(store), steps), Run(Initial(store), steps + [step]);
            |u.calls| == |s.calls| && Ahead(u.calls) < Ahead(s.calls)
  {
    var s := Run(Initial(store), steps);
    var j :| 0 <= j < |s.calls| && !s.calls[j].phase.Done?;
    SomeCallCanStep(store, steps, j);
    var i :| 0 <= i <= j && SamePool(s, i, j) && (MayStart(s, i) || Running(s.calls[i]));
    step := NextStep(s, i);
    NextStepIsProgress(s, i);
    assert (steps + [step])[..|steps|] == steps;
    hide Apply;
    hide Ahead;
    hide MayStart;
  }

  lemma {:induction false} FinishingSteps(store: Store, steps: seq<Step>) returns (more: seq<Step>)
    ensures var s, u := Run(Initial(store), steps), Run(Initial(store), steps + more);
            |u.calls| == |s.calls| && AllDone(u) && |more| <= Ahead(s.calls)
    decreases Ahead(Run(Initial(store), steps).calls)
  {
    hide *;
    if AllDone(Run(Initial(store), steps)) {
      assert steps + [] == steps;
      more := [];
    } else {
      var step := OneStepFurther(store, steps);
      var rest := FinishingSteps(store, steps + [step]);
      assert steps + [step] + rest == steps + ([step] + rest);
      more := [step] + rest;
    }
  }
}
