/**
 When a call on a bond pool succeeds, and what it changes: stated from the records of
 the pool and its validator, without the key they are stored under.
 */
module PoolOutcomes {
  import opened Common
  import opened BondPool

  // The records of a validator in a pool.
  ghost predicate IsRecordOf(s: Store, k: string, p: string, v: string) {
    k in s.stakes && s.stakes[k].poolId == p && s.stakes[k].validatorId == v
  }

  // What the validator has staked in the pool.
  ghost predicate Holds(s: Store, p: string, v: string, amount: int) {
    if amount == 0 then forall k :: IsRecordOf(s, k, p, v) ==> s.stakes[k].amount == 0
    else exists k :: IsRecordOf(s, k, p, v) && s.stakes[k].amount == amount
  }

  ghost predicate HasRecord(s: Store, p: string, v: string) {
    exists k :: IsRecordOf(s, k, p, v)
  }

  // Every other record, and every other pool, is as it was.
  ghost predicate OthersStay(s: Store, next: Store, p: string, v: string) {
    && (forall k :: (k in s.stakes && !IsRecordOf(s, k, p, v)) ==> k in next.stakes && next.stakes[k] == s.stakes[k])
    && (forall k :: (k in next.stakes && !IsRecordOf(next, k, p, v)) ==> k in s.stakes && next.stakes[k] == s.stakes[k])
    && next.pools.Keys == s.pools.Keys && next.maxStake == s.maxStake
    && (forall q :: q in s.pools && q != p ==> next.pools[q] == s.pools[q])
  }

  lemma TheRecord(s: Store, p: string, v: string)
    requires KeysOk(s) && ColonFree(p)
    ensures forall k :: IsRecordOf(s, k, p, v) <==> k == StakeKey(p, v) && k in s.stakes
  {
    forall k ensures IsRecordOf(s, k, p, v) <==> k == StakeKey(p, v) && k in s.stakes {
      if k == StakeKey(p, v) && k in s.stakes { OwnKey(s, p, v); }
    }
  }

  lemma HoldsOne(s: Store, p: string, v: string)
    requires KeysOk(s) && ColonFree(p)
    ensures forall amount :: Holds(s, p, v, amount) <==> amount == if StakeKey(p, v) in s.stakes then s.stakes[StakeKey(p, v)].amount else 0
    ensures HasRecord(s, p, v) <==> StakeKey(p, v) in s.stakes
  {
    TheRecord(s, p, v);
    var key := StakeKey(p, v);
    forall amount ensures Holds(s, p, v, amount) <==> amount == if key in s.stakes then s.stakes[key].amount else 0 {
      assert key in s.stakes ==> IsRecordOf(s, key, p, v);
    }
    assert key in s.stakes ==> IsRecordOf(s, key, p, v);
  }

  /**
   A stake succeeds exactly when the pool exists and the validator's total stays within
   the limit; its holding and the balance grow by the amount, and nothing else changes.
   */
  lemma StakeIff(s: Store, p: string, v: string, amount: int, held: int)
    requires KeysOk(s) && ColonFree(p) && Holds(s, p, v, held)
    ensures var r := s.StakeBody(p, v, amount);
            && (r.Ok? <==> p in s.pools && held + amount <= s.maxStake)
            && (r == Err(PoolNotFound) <==> p !in s.pools)
            && (r.Ok? ==>
                  && Holds(r.value, p, v, held + amount) && OthersStay(s, r.value, p, v) && KeysOk(r.value)
                  && r.value.pools[p] == Pool(s.pools[p].id, s.pools[p].balance + amount, s.pools[p].version + 1))
  {
    HoldsOne(s, p, v);
    TheRecord(s, p, v);
    var r := s.StakeBody(p, v, amount);
    if r.Ok? {
      TheRecord(r.value, p, v);
      HoldsOne(r.value, p, v);
    }
  }

  ghost predicate NoNegativeStake(s: Store) {
    forall k :: k in s.stakes ==> s.stakes[k].amount >= 0
  }

  lemma {:induction false} ShareIsWithinSum(stakes: map<string, Stake>, p: string, k: string)
    requires (forall x :: x in stakes ==> stakes[x].amount >= 0) && k in stakes && stakes[k].poolId == p
    ensures stakes[k].amount <= Sum(stakes, p)
  {
    SumWithout(stakes, p, k);
    SumNonNegative(stakes - {k}, p);
  }

  lemma {:induction false} SumNonNegative(stakes: map<string, Stake>, p: string)
    requires forall x :: x in stakes ==> stakes[x].amount >= 0
    ensures Sum(stakes, p) >= 0
    decreases |stakes|
  {
    if stakes != map[] {
      var k :| k in stakes;
      SumWithout(stakes, p, k);
      assert (stakes - {k}).Keys == stakes.Keys - {k};
      SumNonNegative(stakes - {k}, p);
    }
  }

  /**
   In a store that agrees, an unstake succeeds exactly when the pool exists and the
   validator has a record of at least the amount: the balance never refuses it. Holding
   and balance drop by the amount, and nothing else changes.
   */
  lemma UnstakeIff(s: Store, p: string, v: string, amount: int, held: int)
    requires Agrees(s) && NoNegativeStake(s) && ColonFree(p) && Holds(s, p, v, held)
    ensures var r := s.UnstakeBody(p, v, amount);
            && (r.Ok? <==> p in s.pools && HasRecord(s, p, v) && amount <= held)
            && (r == Err(PoolNotFound) <==> p !in s.pools)
            && (r.Err? && p in s.pools ==> r == Err(InsufficientStake))
            && (r.Ok? ==>
                  && Holds(r.value, p, v, held - amount) && OthersStay(s, r.value, p, v) && KeysOk(r.value)
                  && (HasRecord(r.value, p, v) <==> amount != held)
                  && r.value.pools[p] == Pool(s.pools[p].id, s.pools[p].balance - amount, s.pools[p].version + 1))
  {
    HoldsOne(s, p, v);
    TheRecord(s, p, v);
    var key := StakeKey(p, v);
    if p in s.pools && key in s.stakes {
      assert IsRecordOf(s, key, p, v);
      ShareIsWithinSum(s.stakes, p, key);
      assert PoolAgrees(s, p);
    }
    var r := s.UnstakeBody(p, v, amount);
    if r.Ok? {
      TheRecord(r.value, p, v);
      HoldsOne(r.value, p, v);
    }
  }

  /** No holding becomes negative as long as nobody stakes a negative amount; unstaking refuses to. */
  lemma BodyKeepsNonNegative(s: Store, op: Op)
    requires NoNegativeStake(s) && (op.StakeOp? ==> op.amount >= 0)
    ensures Body(s, op).Ok? ==> NoNegativeStake(Body(s, op).value)
  {
  }

  /** Reconciling succeeds exactly for an existing pool; it sets the balance to the sum of the pool's records and nothing else. */
  lemma ReconcileIff(s: Store, p: string)
    ensures var r := Body(s, ReconcileOp(p));
            && (r.Ok? <==> p in s.pools)
            && (r.Ok? ==> r.value == s.(pools := s.pools[p := Pool(s.pools[p].id, Sum(s.stakes, p), s.pools[p].version + 1)]))
            && (r.Ok? ==> PoolAgrees(r.value, p))
  {
  }

  /** A call is answered with the pool as the call leaves it, raised by one version, or with the error of its body. */
  lemma RepliesWithThePool(s: Store, op: Op)
    ensures var r := Body(s, op);
            && (r.Err? ==> Reply(r, op) == Err(r.error))
            && (r.Ok? ==>
                  && op.poolId in s.pools && op.poolId in r.value.pools && Reply(r, op) == Ok(r.value.pools[op.poolId])
                  && Reply(r, op).value.version == s.pools[op.poolId].version + 1)
  {
  }

  /** In any store: the balance refuses an unstake exactly when the record would not. */
  lemma BalanceRefusesIff(s: Store, p: string, v: string, amount: int, held: int)
    requires KeysOk(s) && ColonFree(p) && Holds(s, p, v, held)
    ensures s.UnstakeBody(p, v, amount) == Err(InsufficientPoolBalance)
            <==> p in s.pools && HasRecord(s, p, v) && s.pools[p].balance < amount <= held
  {
    HoldsOne(s, p, v);
  }

  // Equal but for the version of one pool.
  ghost predicate SameButVersion(s: Store, t: Store, p: string) {
    && p in s.pools && p in t.pools && s.stakes == t.stakes && s.maxStake == t.maxStake
    && s.pools[p := s.pools[p].(version := 0)] == t.pools[p := t.pools[p].(version := 0)]
  }

  /** Taking out a and then b succeeds exactly when taking out a + b does, and gives the same up to the version. */
  lemma UnstakeInTwo(s: Store, p: string, v: string, a: int, b: int)
    requires a >= 0 && b > 0
    ensures var first, once := s.UnstakeBody(p, v, a), s.UnstakeBody(p, v, a + b);
            && (once.Ok? <==> first.Ok? && first.value.UnstakeBody(p, v, b).Ok?)
            && (once.Ok? ==> SameButVersion(first.value.UnstakeBody(p, v, b).value, once.value, p))
  {
    if s.UnstakeBody(p, v, a + b).Ok? {
      var first, key := s.UnstakeBody(p, v, a).value, StakeKey(p, v);
      assert first.stakes == s.stakes[key := s.stakes[key].(amount := s.stakes[key].amount - a)];
      assert first.stakes - {key} == s.stakes - {key};
      var twice, once := first.UnstakeBody(p, v, b).value, s.UnstakeBody(p, v, a + b).value;
      assert twice.stakes == once.stakes;
      assert twice.pools[p := twice.pools[p].(version := 0)] == once.pools[p := once.pools[p].(version := 0)];
    }
  }

  /** Staking a and then b succeeds exactly when staking a + b does, and gives the same up to the version. */
  lemma StakeInTwo(s: Store, p: string, v: string, a: int, b: int)
    requires b >= 0
    ensures var first, once := s.StakeBody(p, v, a), s.StakeBody(p, v, a + b);
            && (once.Ok? <==> first.Ok? && first.value.StakeBody(p, v, b).Ok?)
            && (once.Ok? ==> SameButVersion(first.value.StakeBody(p, v, b).value, once.value, p))
  {
    if s.StakeBody(p, v, a + b).Ok? {
      var first := s.StakeBody(p, v, a).value;
      var twice, once := first.StakeBody(p, v, b).value, s.StakeBody(p, v, a + b).value;
      assert twice.stakes == once.stakes;
      assert twice.pools[p := twice.pools[p].(version := 0)] == once.pools[p := once.pools[p].(version := 0)];
    }
  }

  /** Unstaking what was added to an existing record gives the earlier stakes and balances back. */
  lemma UnstakeUndoesAddition(s: Store, p: string, v: string, amount: int, held: int)
    requires Agrees(s) && NoNegativeStake(s) && ColonFree(p) && Holds(s, p, v, held) && held > 0 && amount >= 0
    requires s.StakeBody(p, v, amount).Ok?
    ensures s.StakeBody(p, v, amount).value.UnstakeBody(p, v, amount).Ok?
    ensures SameButVersion(s.StakeBody(p, v, amount).value.UnstakeBody(p, v, amount).value, s, p)
  {
    HoldsOne(s, p, v);
    OwnKey(s, p, v);
    assert PoolAgrees(s, p);
    ShareIsWithinSum(s.stakes, p, StakeKey(p, v));
    var back := s.StakeBody(p, v, amount).value.UnstakeBody(p, v, amount).value;
    assert back.stakes == s.stakes;
    assert back.pools[p := back.pools[p].(version := 0)] == s.pools[p := s.pools[p].(version := 0)];
  }
}
