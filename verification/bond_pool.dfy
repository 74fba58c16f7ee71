/** Model of InMemoryBondPoolStore in src/staking/poolStore.ts: the maps and the bodies run under the pool lock. */
module BondPool {
  import opened Common

  datatype Pool = Pool(id: string, balance: int, version: int)

  datatype Stake = Stake(poolId: string, validatorId: string, amount: int)

  datatype PoolError = PoolNotFound | InsufficientStake | InsufficientPoolBalance | StakeLimit

  datatype Op =
    | StakeOp(poolId: string, validatorId: string, amount: int)
    | UnstakeOp(poolId: string, validatorId: string, amount: int)
    | ReconcileOp(poolId: string)

  function StakeKey(poolId: string, validatorId: string): string {
    poolId + ":" + validatorId
  }

  // What a stake contributes to a pool.
  function Share(stake: Stake, poolId: string): int {
    if stake.poolId == poolId then stake.amount else 0
  }

  ghost function Sum(stakes: map<string, Stake>, poolId: string): int
    decreases |stakes|
  {
    if stakes == map[] then 0
    else
      var k :| k in stakes;
      assert |stakes - {k}| < |stakes| by { assert (stakes - {k}).Keys == stakes.Keys - {k}; }
      Share(stakes[k], poolId) + Sum(stakes - {k}, poolId)
  }

  /** The sum does not depend on the order of the map. */
  lemma {:induction false} SumWithout(stakes: map<string, Stake>, poolId: string, k: string)
    requires k in stakes
    ensures Sum(stakes, poolId) == Share(stakes[k], poolId) + Sum(stakes - {k}, poolId)
    decreases |stakes|
  {
    var first :| first in stakes && Sum(stakes, poolId) == Share(stakes[first], poolId) + Sum(stakes - {first}, poolId);
    assert (stakes - {first}).Keys == stakes.Keys - {first} && (stakes - {k}).Keys == stakes.Keys - {k};
    if first != k {
      SumWithout(stakes - {first}, poolId, k);
      SumWithout(stakes - {k}, poolId, first);
      assert stakes - {first} - {k} == stakes - {k} - {first};
    }
  }

  lemma SumUpdate(stakes: map<string, Stake>, poolId: string, k: string, stake: Stake)
    ensures Sum(stakes[k := stake], poolId)
            == Sum(stakes, poolId) + Share(stake, poolId) - (if k in stakes then Share(stakes[k], poolId) else 0)
  {
    SumWithout(stakes[k := stake], poolId, k);
    if k in stakes {
      SumWithout(stakes, poolId, k);
      assert stakes[k := stake] - {k} == stakes - {k};
    } else {
      assert stakes[k := stake] - {k} == stakes;
    }
  }

  datatype Store = Store(maxStake: int, pools: map<string, Pool>, stakes: map<string, Stake>) {
    function StakeBody(p: string, v: string, amount: int): Result<Store, PoolError> {
      var key := StakeKey(p, v);
      var next := (if key in stakes then stakes[key].amount else 0) + amount;
      if p !in pools then Err(PoolNotFound)
      else if next > maxStake then Err(StakeLimit)
      else Ok(this.(stakes := stakes[key := Stake(p, v, next)], pools := Credit(p, amount)))
    }

    function UnstakeBody(p: string, v: string, amount: int): Result<Store, PoolError> {
      var key := StakeKey(p, v);
      if p !in pools then Err(PoolNotFound)
      else if key !in stakes || stakes[key].amount < amount then Err(InsufficientStake)
      else if pools[p].balance < amount then Err(InsufficientPoolBalance)
      else
        var next := stakes[key].amount - amount;
        Ok(this.(stakes := if next == 0 then stakes - {key} else stakes[key := stakes[key].(amount := next)],
                 pools := Credit(p, -amount)))
    }

    function Credit(p: string, amount: int): map<string, Pool>
      requires p in pools
    {
      pools[p := pools[p].(balance := pools[p].balance + amount, version := pools[p].version + 1)]
    }

    // The second half of reconcilePool, with the total its first half computed.
    function SetBalance(p: string, total: int): Result<Store, PoolError> {
      if p !in pools then Err(PoolNotFound)
      else Ok(this.(pools := pools[p := pools[p].(balance := total, version := pools[p].version + 1)]))
    }
  }

  // One call, run with the store to itself.
  ghost function Body(s: Store, op: Op): Result<Store, PoolError> {
    match op
    case StakeOp(p, v, amount) => s.StakeBody(p, v, amount)
    case UnstakeOp(p, v, amount) => s.UnstakeBody(p, v, amount)
    case ReconcileOp(p) => s.SetBalance(p, Sum(s.stakes, p))
  }

  // The pool a successful call returns.
  function Reply(r: Result<Store, PoolError>, op: Op): Result<Pool, PoolError> {
    match r
    case Err(e) => Err(e)
    case Ok(s) => if op.poolId in s.pools then Ok(s.pools[op.poolId]) else Err(PoolNotFound)
  }

  // ---------------------------------------------------------------- agreement

  predicate ColonFree(s: string) {
    ':' !in s
  }

  /** With colon-free pool ids the key determines pool and validator. */
  lemma {:induction false} StakeKeyInjective(p1: string, v1: string, p2: string, v2: string)
    requires ColonFree(p1) && ColonFree(p2) && StakeKey(p1, v1) == StakeKey(p2, v2)
    ensures p1 == p2 && v1 == v2
  {
    var k := StakeKey(p1, v1);
    assert k[|p1|] == ':' && k[|p2|] == ':';
    assert forall i :: 0 <= i < |p1| ==> k[i] == p1[i] && k[i] != ':';
    assert forall i :: 0 <= i < |p2| ==> k[i] == p2[i] && k[i] != ':';
    assert |p1| == |p2|;
    assert p1 == k[..|p1|] && p2 == k[..|p2|];
    assert v1 == k[|p1| + 1..] && v2 == k[|p2| + 1..];
  }

  ghost predicate PoolAgrees(s: Store, p: string)
    requires p in s.pools
  {
    s.pools[p].balance == Sum(s.stakes, p)
  }

  ghost predicate BalancesAgree(s: Store) {
    forall p {:trigger PoolAgrees(s, p)} :: p in s.pools ==> PoolAgrees(s, p)
  }

  ghost predicate KeysOk(s: Store) {
    forall k :: k in s.stakes ==> ColonFree(s.stakes[k].poolId) && k == StakeKey(s.stakes[k].poolId, s.stakes[k].validatorId)
  }

  ghost predicate WithinLimit(s: Store) {
    forall k :: k in s.stakes ==> s.stakes[k].amount <= s.maxStake
  }

  /** Every stake sits under its own key, and every balance is the sum of its pool's stakes. */
  ghost predicate Agrees(s: Store) {
    KeysOk(s) && BalancesAgree(s)
  }

  lemma OwnKey(s: Store, p: string, v: string)
    requires KeysOk(s) && ColonFree(p) && StakeKey(p, v) in s.stakes
    ensures s.stakes[StakeKey(p, v)].poolId == p && s.stakes[StakeKey(p, v)].validatorId == v
  {
    var rec := s.stakes[StakeKey(p, v)];
    StakeKeyInjective(rec.poolId, rec.validatorId, p, v);
  }

  lemma StakeKeepsAgreement(s: Store, p: string, v: string, amount: int)
    requires Agrees(s) && ColonFree(p) && s.StakeBody(p, v, amount).Ok?
    ensures Agrees(s.StakeBody(p, v, amount).value)
  {
    var next := s.StakeBody(p, v, amount).value;
    var key := StakeKey(p, v);
    if key in s.stakes { OwnKey(s, p, v); }
    forall q | q in next.pools ensures PoolAgrees(next, q) {
      assert PoolAgrees(s, q);
      SumUpdate(s.stakes, q, key, next.stakes[key]);
    }
  }

  lemma UnstakeKeepsAgreement(s: Store, p: string, v: string, amount: int)
    requires Agrees(s) && ColonFree(p) && s.UnstakeBody(p, v, amount).Ok?
    ensures Agrees(s.UnstakeBody(p, v, amount).value)
  {
    var next := s.UnstakeBody(p, v, amount).value;
    var key := StakeKey(p, v);
    OwnKey(s, p, v);
    forall q | q in next.pools ensures PoolAgrees(next, q) {
      assert PoolAgrees(s, q);
      if key in next.stakes { SumUpdate(s.stakes, q, key, next.stakes[key]); } else { SumWithout(s.stakes, q, key); }
    }
  }

  lemma ReconcileKeepsAgreement(s: Store, p: string)
    requires Agrees(s) && p in s.pools
    ensures Agrees(s.SetBalance(p, Sum(s.stakes, p)).value)
  {
    var next := s.SetBalance(p, Sum(s.stakes, p)).value;
    forall q | q in next.pools ensures PoolAgrees(next, q) {
      assert PoolAgrees(s, q);
    }
  }

  /** Every successful call on a colon-free pool keeps the agreement; a failed one changes nothing. */
  lemma BodyKeepsAgreement(s: Store, op: Op)
    requires Agrees(s) && ColonFree(op.poolId)
    ensures Body(s, op).Ok? ==> Agrees(Body(s, op).value)
  {
    if Body(s, op).Ok? {
      match op
      case StakeOp(p, v, amount) => StakeKeepsAgreement(s, p, v, amount);
      case UnstakeOp(p, v, amount) => UnstakeKeepsAgreement(s, p, v, amount);
      case ReconcileOp(p) => ReconcileKeepsAgreement(s, p);
    }
  }

  /** No stake passes the limit, as long as nobody unstakes a negative amount. */
  lemma BodyKeepsLimit(s: Store, op: Op)
    requires WithinLimit(s) && (op.UnstakeOp? ==> op.amount >= 0)
    ensures Body(s, op).Ok? ==> WithinLimit(Body(s, op).value)
  {
  }

  /** What unstaking the staked amount gives back: the stakes and balances from before, with two more versions. */
  lemma UnstakeUndoesStake(s: Store, p: string, v: string, amount: int)
    requires p in s.pools && StakeKey(p, v) !in s.stakes && 0 < amount <= s.maxStake && s.pools[p].balance >= 0
    ensures s.StakeBody(p, v, amount).Ok? && s.StakeBody(p, v, amount).value.UnstakeBody(p, v, amount).Ok?
    ensures var back := s.StakeBody(p, v, amount).value.UnstakeBody(p, v, amount).value;
            && back.stakes == s.stakes
            && back.pools == s.pools[p := s.pools[p].(version := s.pools[p].version + 2)]
  {
    assert s.StakeBody(p, v, amount).value.UnstakeBody(p, v, amount).value.stakes == s.stakes;
  }

  // ---------------------------------------------------------------- where the guards end

  /**
   Exactly when a successful stake keeps the balances equal to the sums: when the
   record it finds under its key is its own pool's, or holds nothing.
   */
  lemma StakeKeepsBalancesIff(s: Store, p: string, v: string, amount: int)
    requires BalancesAgree(s) && s.StakeBody(p, v, amount).Ok?
    ensures var key := StakeKey(p, v);
            BalancesAgree(s.StakeBody(p, v, amount).value)
            <==> key !in s.stakes || s.stakes[key].poolId == p || s.stakes[key].amount == 0
  {
    var next := s.StakeBody(p, v, amount).value;
    var key := StakeKey(p, v);
    forall q | q in next.pools
      ensures PoolAgrees(next, q) <==> (key in s.stakes && s.stakes[key].poolId != p && (q == p || q == s.stakes[key].poolId)
                                        ==> s.stakes[key].amount == 0)
    {
      assert PoolAgrees(s, q);
      SumUpdate(s.stakes, q, key, next.stakes[key]);
    }
    assert p in next.pools;
  }

  /**
   Exactly when a successful unstake keeps the balances equal to the sums: when the
   record it finds under its key is its own pool's, or nothing is taken.
   */
  lemma UnstakeKeepsBalancesIff(s: Store, p: string, v: string, amount: int)
    requires BalancesAgree(s) && s.UnstakeBody(p, v, amount).Ok?
    ensures BalancesAgree(s.UnstakeBody(p, v, amount).value) <==> s.stakes[StakeKey(p, v)].poolId == p || amount == 0
  {
    var next := s.UnstakeBody(p, v, amount).value;
    var key := StakeKey(p, v);
    forall q | q in next.pools
      ensures PoolAgrees(next, q) <==> (s.stakes[key].poolId != p && (q == p || q == s.stakes[key].poolId) ==> amount == 0)
    {
      assert PoolAgrees(s, q);
      if key in next.stakes { SumUpdate(s.stakes, q, key, next.stakes[key]); } else { SumWithout(s.stakes, q, key); }
    }
    assert p in next.pools;
  }

  /** Exactly when a successful unstake keeps every stake within the limit; a negative amount raises the stake. */
  lemma UnstakeKeepsLimitIff(s: Store, p: string, v: string, amount: int)
    requires WithinLimit(s) && s.UnstakeBody(p, v, amount).Ok?
    ensures WithinLimit(s.UnstakeBody(p, v, amount).value)
            <==> amount >= 0 || s.stakes[StakeKey(p, v)].amount - amount <= s.maxStake || s.stakes[StakeKey(p, v)].amount == amount
  {
    var next := s.UnstakeBody(p, v, amount).value;
    if StakeKey(p, v) in next.stakes {
      assert next.stakes[StakeKey(p, v)].amount == s.stakes[StakeKey(p, v)].amount - amount;
    }
  }

  // Pools "a:b" and "a" share the key "a:b:c": staking to both loses a stake.
  lemma ColonsBreakAgreement()
    ensures var s0 := Store(100_000, map["a" := Pool("a", 0, 0), "a:b" := Pool("a:b", 0, 0)], map[]);
            var s1 := s0.StakeBody("a:b", "c", 5);
            && BalancesAgree(s0) && s1.Ok? && BalancesAgree(s1.value)
            && s1.value.StakeBody("a", "b:c", 7).Ok? && !BalancesAgree(s1.value.StakeBody("a", "b:c", 7).value)
  {
    var s0 := Store(100_000, map["a" := Pool("a", 0, 0), "a:b" := Pool("a:b", 0, 0)], map[]);
    forall q | q in s0.pools ensures PoolAgrees(s0, q) { }
    StakeKeepsBalancesIff(s0, "a:b", "c", 5);
    var s1 := s0.StakeBody("a:b", "c", 5).value;
    assert StakeKey("a:b", "c") == StakeKey("a", "b:c") == "a:b:c";
    StakeKeepsBalancesIff(s1, "a", "b:c", 7);
  }

  // The same two pools: unstaking from "a" what was staked to "a:b".
  lemma ColonsBreakUnstaking()
    ensures var s := Store(100_000, map["a" := Pool("a", 5, 0), "a:b" := Pool("a:b", 5, 0)],
                           map["a:b:c" := Stake("a:b", "c", 5), "a:d" := Stake("a", "d", 5)]);
            BalancesAgree(s) && s.UnstakeBody("a", "b:c", 5).Ok? && !BalancesAgree(s.UnstakeBody("a", "b:c", 5).value)
  {
    var s := Store(100_000, map["a" := Pool("a", 5, 0), "a:b" := Pool("a:b", 5, 0)],
                   map["a:b:c" := Stake("a:b", "c", 5), "a:d" := Stake("a", "d", 5)]);
    forall q | q in s.pools ensures PoolAgrees(s, q) {
      SumWithout(s.stakes, q, "a:d");
      assert s.stakes - {"a:d"} == map["a:b:c" := Stake("a:b", "c", 5)];
      SumWithout(s.stakes - {"a:d"}, q, "a:b:c");
      assert s.stakes - {"a:d"} - {"a:b:c"} == map[];
    }
    assert StakeKey("a", "b:c") == "a:b:c";
    UnstakeKeepsBalancesIff(s, "a", "b:c", 5);
  }

  // Unstaking a negative amount raises a stake past the limit.
  lemma NegativeUnstakePassesLimit()
    ensures var s := Store(10, map["p" := Pool("p", 10, 0)], map["p:v" := Stake("p", "v", 10)]);
            WithinLimit(s) && s.UnstakeBody("p", "v", -5).Ok? && !WithinLimit(s.UnstakeBody("p", "v", -5).value)
  {
    var s := Store(10, map["p" := Pool("p", 10, 0)], map["p:v" := Stake("p", "v", 10)]);
    assert StakeKey("p", "v") == "p:v";
    assert s.UnstakeBody("p", "v", -5).value.stakes["p:v"].amount == 15;
  }

  // ---------------------------------------------------------------- the class

  class InMemoryBondPoolStore {
    const maxValidatorStake: int
    var pools: map<string, Pool>
    var stakes: map<string, Stake>

    function View(): Store
      reads this
    {
      Store(maxValidatorStake, pools, stakes)
    }

    constructor (maxStake: int)
      ensures View() == Store(maxStake, map[], map[])
    {
      maxValidatorStake := maxStake;
      pools, stakes := map[], map[];
    }

    method StakeBody(poolId: string, validatorId: string, amount: int) returns (r: Result<Pool, PoolError>)
      modifies this
      ensures var next := old(View()).StakeBody(poolId, validatorId, amount);
              View() == (if next.Ok? then next.value else old(View())) && r == Reply(next, StakeOp(poolId, validatorId, amount))
    {
      if poolId !in pools {
        return Err(PoolNotFound);
      }
      var key := StakeKey(poolId, validatorId);
      var nextAmount := (if key in stakes then stakes[key].amount else 0) + amount;
      if nextAmount > maxValidatorStake {
        return Err(StakeLimit);
      }
      stakes := stakes[key := Stake(poolId, validatorId, nextAmount)];
      var pool := pools[poolId];
      pool := pool.(balance := pool.balance + amount);
      pool := pool.(version := pool.version + 1);
      pools := pools[poolId := pool];
      return Ok(pool);
    }

    method UnstakeBody(poolId: string, validatorId: string, amount: int) returns (r: Result<Pool, PoolError>)
      modifies this
      ensures var next := old(View()).UnstakeBody(poolId, validatorId, amount);
              View() == (if next.Ok? then next.value else old(View())) && r == Reply(next, UnstakeOp(poolId, validatorId, amount))
    {
      if poolId !in pools {
        return Err(PoolNotFound);
      }
      var key := StakeKey(poolId, validatorId);
      if key !in stakes || stakes[key].amount < amount {
        return Err(InsufficientStake);
      }
      var pool := pools[poolId];
      if pool.balance < amount {
        return Err(InsufficientPoolBalance);
      }
      var nextAmount := stakes[key].amount - amount;
      if nextAmount == 0 {
        stakes := stakes - {key};
      } else {
        stakes := stakes[key := stakes[key].(amount := nextAmount)];
      }
      pool := pool.(balance := pool.balance - amount);
      pool := pool.(version := pool.version + 1);
      pools := pools[poolId := pool];
      return Ok(pool);
    }

    // The loop visits the map in any order.
    method SumValidatorStakes(poolId: string) returns (total: int)
      ensures total == Sum(stakes, poolId)
    {
      total := 0;
      var rest := stakes;
      while rest != map[]
        invariant total + Sum(rest, poolId) == Sum(stakes, poolId)
        decreases |rest|
      {
        var key :| key in rest;
        SumWithout(rest, poolId, key);
        assert (rest - {key}).Keys == rest.Keys - {key};
        if rest[key].poolId == poolId {
          total := total + rest[key].amount;
        }
        rest := rest - {key};
      }
    }

    method ReconcileBody(poolId: string) returns (r: Result<Pool, PoolError>)
      modifies this
      ensures var next := Body(old(View()), ReconcileOp(poolId));
              View() == (if next.Ok? then next.value else old(View())) && r == Reply(next, ReconcileOp(poolId))
    {
      if poolId !in pools {
        return Err(PoolNotFound);
      }
      var total := SumValidatorStakes(poolId);
      var pool := pools[poolId].(balance := total);
      pool := pool.(version := pool.version + 1);
      pools := pools[poolId := pool];
      return Ok(pool);
    }
  }
}
