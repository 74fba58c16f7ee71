/**
 Model of src/rewards/distributor.ts: amounts as decimal strings with seven
 places, proportional allocation in whole units, and the payout of one node.
 */
module Rewards {
  import opened Common

  const DECIMAL_SCALE := 10_000_000
  const REWARD_POOL_MIN_UNITS := 1
  const REWARD_POOL_MAX_UNITS := 1_000_000 * DECIMAL_SCALE

  datatype Error = InvalidAmount | PoolOutOfRange

  // ---------------------------------------------------------------- decimal text

  predicate IsDigit(c: char) {
    '0' <= c <= '9'
  }

  predicate AllDigits(s: string) {
    forall i :: 0 <= i < |s| ==> IsDigit(s[i])
  }

  // BigInt of a string of digits.
  function Value(s: string): nat
    requires AllDigits(s)
  {
    if s == "" then 0 else Value(s[..|s| - 1]) * 10 + (s[|s| - 1] as int - '0' as int)
  }

  function Digit(d: nat): (c: char)
    requires d < 10
    ensures IsDigit(c) && c as int - '0' as int == d
  {
    ('0' as int + d) as char
  }

  // The decimal digits of a number, as toString gives them.
  function Decimal(n: nat): (s: string)
    ensures s != "" && AllDigits(s)
  {
    if n < 10 then [Digit(n)] else Decimal(n / 10) + [Digit(n % 10)]
  }

  function Zeros(n: nat): (s: string)
    ensures |s| == n && AllDigits(s)
  {
    seq(n, _ => '0')
  }

  function PadStart(s: string, width: nat): string {
    if |s| >= width then s else Zeros(width - |s|) + s
  }

  function PadEnd(s: string, width: nat): string {
    if |s| >= width then s else s + Zeros(width - |s|)
  }

  lemma {:induction false} ValueOfDecimal(n: nat)
    ensures Value(Decimal(n)) == n
  {
    var s := Decimal(n);
    if n < 10 {
      assert s[..0] == "";
    } else {
      ValueOfDecimal(n / 10);
      assert s[..|s| - 1] == Decimal(n / 10);
    }
  }

  lemma {:induction false} ValueOfPadded(zeros: nat, s: string)
    requires AllDigits(s)
    ensures AllDigits(Zeros(zeros) + s) && Value(Zeros(zeros) + s) == Value(s)
    decreases |s|, zeros
  {
    var p := Zeros(zeros) + s;
    if s == "" {
      assert p == Zeros(zeros);
      if zeros > 0 {
        ValueOfPadded(zeros - 1, "");
        assert p[..|p| - 1] == Zeros(zeros - 1) + "";
      }
    } else {
      ValueOfPadded(zeros, s[..|s| - 1]);
      assert p[..|p| - 1] == Zeros(zeros) + s[..|s| - 1];
    }
  }

  function Pow10(n: nat): nat {
    if n == 0 then 1 else 10 * Pow10(n - 1)
  }

  lemma {:induction false} DecimalLength(n: nat, width: nat)
    requires n < Pow10(width) && width >= 1
    ensures |Decimal(n)| <= width
  {
    if n >= 10 {
      assert width > 1;
      DecimalLength(n / 10, width - 1);
    }
  }

  // ---------------------------------------------------------------- parseUnits and formatUnits

  // Length of the longest prefix of digits.
  function DigitSpan(s: string): (k: nat)
    ensures k <= |s| && AllDigits(s[..k]) && (k < |s| ==> !IsDigit(s[k]))
  {
    if s == "" || !IsDigit(s[0]) then 0
    else
      var k := DigitSpan(s[1..]);
      assert s[..k + 1] == [s[0]] + s[1..][..k];
      k + 1
  }

  // One or more digits, then optionally a point and at most seven digits.
  function ParseUnits(s: string): Option<nat> {
    var k := DigitSpan(s);
    if k == 0 then None
    else if k == |s| then Some(Value(s[..k]) * DECIMAL_SCALE)
    else
      var fraction := s[k + 1..];
      if s[k] == '.' && |fraction| <= 7 && AllDigits(fraction)
      then Some(Value(s[..k]) * DECIMAL_SCALE + Value(PadEnd(fraction, 7)))
      else None
  }

  function FormatUnits(units: nat): string {
    Decimal(units / DECIMAL_SCALE) + "." + PadStart(Decimal(units % DECIMAL_SCALE), 7)
  }

  lemma {:induction false} SpanBeforePoint(whole: string, rest: string)
    requires AllDigits(whole)
    ensures DigitSpan(whole + "." + rest) == |whole|
  {
    var s := whole + "." + rest;
    if whole == "" {
      assert s[0] == '.';
    } else {
      SpanBeforePoint(whole[1..], rest);
      assert s[1..] == whole[1..] + "." + rest;
    }
  }

  lemma FractionDigits(f: nat)
    requires f < DECIMAL_SCALE
    ensures |PadStart(Decimal(f), 7)| == 7 && AllDigits(PadStart(Decimal(f), 7)) && Value(PadStart(Decimal(f), 7)) == f
  {
    var s := Decimal(f);
    assert Pow10(7) == DECIMAL_SCALE by {
      assert Pow10(3) == 1_000;
      assert Pow10(5) == 100_000;
    }
    DecimalLength(f, 7);
    ValueOfDecimal(f);
    ValueOfPadded(7 - |s|, s);
    assert |s| == 7 ==> Zeros(0) + s == s;
  }

  /** Parsing undoes formatting for every amount. */
  lemma ParseUndoesFormat(units: nat)
    ensures ParseUnits(FormatUnits(units)) == Some(units)
  {
    var whole, fraction := Decimal(units / DECIMAL_SCALE), PadStart(Decimal(units % DECIMAL_SCALE), 7);
    FractionDigits(units % DECIMAL_SCALE);
    ValueOfDecimal(units / DECIMAL_SCALE);
    SpanBeforePoint(whole, fraction);
    var s := FormatUnits(units);
    assert s == whole + "." + fraction && s[..|whole|] == whole && s[|whole| + 1..] == fraction;
  }

  // An amount as it may be written: digits, and perhaps a point and at most seven more digits.
  predicate IsAmount(s: string, whole: string, fraction: string) {
    whole != "" && AllDigits(whole) && AllDigits(fraction) && |fraction| <= 7
    && (s == whole + "." + fraction || (fraction == "" && s == whole))
  }

  lemma {:induction false} ValueOfPaddedEnd(s: string, zeros: nat)
    requires AllDigits(s)
    ensures AllDigits(s + Zeros(zeros)) && Value(s + Zeros(zeros)) == Value(s) * Pow10(zeros)
  {
    if zeros == 0 {
      assert s + Zeros(0) == s;
    } else {
      ValueOfPaddedEnd(s, zeros - 1);
      var longer := s + Zeros(zeros);
      assert longer[..|longer| - 1] == s + Zeros(zeros - 1);
      assert Value(s) * Pow10(zeros) == Value(s) * Pow10(zeros - 1) * 10;
    }
  }

  lemma {:induction false} SpanOfDigits(s: string)
    requires AllDigits(s)
    ensures DigitSpan(s) == |s|
  {
    if s != "" { SpanOfDigits(s[1..]); }
  }

  // The units an amount written with these digits stands for.
  function UnitsWritten(whole: string, fraction: string): nat
    requires AllDigits(whole) && AllDigits(fraction) && |fraction| <= 7
  {
    Value(whole) * 10_000_000 + Value(fraction) * Pow10(7 - |fraction|)
  }

  lemma ParseWhole(s: string)
    requires s != "" && AllDigits(s)
    ensures ParseUnits(s) == Some(UnitsWritten(s, ""))
  {
    SpanOfDigits(s);
    assert s[..|s|] == s && Value("") == 0;
    hide Value;
    hide DigitSpan;
  }

  lemma ParseWithPoint(whole: string, fraction: string)
    requires whole != "" && AllDigits(whole) && AllDigits(fraction) && |fraction| <= 7
    ensures ParseUnits(whole + "." + fraction) == Some(UnitsWritten(whole, fraction))
  {
    var s := whole + "." + fraction;
    SpanBeforePoint(whole, fraction);
    assert s[..|whole|] == whole && s[|whole| + 1..] == fraction && s[|whole|] == '.';
    ValueOfPaddedEnd(fraction, 7 - |fraction|);
    assert fraction + Zeros(0) == fraction;
    hide Value;
    hide DigitSpan;
    hide Pow10;
    hide Zeros;
  }

  ghost predicate WrittenSomehow(s: string) {
    exists whole, fraction :: IsAmount(s, whole, fraction)
  }

  /**
   An amount parses exactly when it is written with at most seven decimals, and then
   to its digits before the point in whole units and those after it in their places.
   */
  lemma ParseIff(s: string)
    ensures ParseUnits(s).Some? <==> WrittenSomehow(s)
    ensures forall whole, fraction :: IsAmount(s, whole, fraction) ==> ParseUnits(s) == Some(UnitsWritten(whole, fraction))
  {
    forall whole, fraction | IsAmount(s, whole, fraction) ensures ParseUnits(s) == Some(UnitsWritten(whole, fraction)) {
      if s == whole + "." + fraction { ParseWithPoint(whole, fraction); } else { ParseWhole(s); }
    }
    if ParseUnits(s).Some? { ParsedIsWritten(s); }
  }

  lemma ParsedIsWritten(s: string)
    requires ParseUnits(s).Some?
    ensures WrittenSomehow(s)
  {
    hide Value;
    var k := DigitSpan(s);
    hide DigitSpan;
    if k == |s| {
      assert s[..k] == s;
      assert IsAmount(s, s, "");
    } else {
      assert s == s[..k] + "." + s[k + 1..];
      assert IsAmount(s, s[..k], s[k + 1..]);
    }
  }

  // ---------------------------------------------------------------- allocations

  datatype Allocation = Allocation(nodeId: string, amount: string)

  // An amount in units, for one node.
  datatype Share = Share(nodeId: string, units: nat)

  function ParseAll(rewards: seq<Allocation>): Option<seq<Share>> {
    if rewards == [] then Some([])
    else
      match (ParseUnits(rewards[0].amount), ParseAll(rewards[1..]))
      case (Some(units), Some(rest)) => Some([Share(rewards[0].nodeId, units)] + rest)
      case _ => None
  }

  function Positive(shares: seq<Share>): (r: seq<Share>)
    ensures forall i :: 0 <= i < |r| ==> r[i].units > 0
  {
    if shares == [] then []
    else (if shares[0].units > 0 then [shares[0]] else []) + Positive(shares[1..])
  }

  function Total(shares: seq<Share>): nat {
    if shares == [] then 0 else shares[0].units + Total(shares[1..])
  }

  function Split(pool: nat, total: nat, shares: seq<Share>): (r: seq<Share>)
    requires total > 0
    ensures |r| == |shares|
  {
    if shares == [] then []
    else [Share(shares[0].nodeId, pool * shares[0].units / total)] + Split(pool, total, shares[1..])
  }

  function Formatted(shares: seq<Share>): (r: seq<Allocation>)
    ensures |r| == |shares|
    ensures forall i :: 0 <= i < |r| ==> r[i] == Allocation(shares[i].nodeId, FormatUnits(shares[i].units))
  {
    if shares == [] then [] else [Allocation(shares[0].nodeId, FormatUnits(shares[0].units))] + Formatted(shares[1..])
  }

  // Units of an amount that formatUnits wrote; anything else counts as zero.
  function UnitsOf(amount: string): nat {
    match ParseUnits(amount)
    case Some(units) => units
    case None => 0
  }

  function PositiveText(allocations: seq<Allocation>): seq<Allocation> {
    if allocations == [] then []
    else (if UnitsOf(allocations[0].amount) > 0 then [allocations[0]] else []) + PositiveText(allocations[1..])
  }

  function ComputeAllocations(pendingRewards: seq<Allocation>, totalRewardPool: string): Result<seq<Allocation>, Error> {
    match ParseUnits(totalRewardPool)
    case None => Err(InvalidAmount)
    case Some(pool) =>
      if pool < REWARD_POOL_MIN_UNITS || pool > REWARD_POOL_MAX_UNITS then Err(PoolOutOfRange)
      else
        match ParseAll(pendingRewards)
        case None => Err(InvalidAmount)
        case Some(shares) =>
          var positive := Positive(shares);
          if positive == [] then Ok([])
          else
            PositiveTotal(positive);
            Ok(PositiveText(Formatted(Split(pool, Total(positive), positive))))
  }

  lemma PositiveTotal(shares: seq<Share>)
    requires shares != [] && shares[0].units > 0
    ensures Total(shares) > 0
  {
  }

  lemma {:induction false} ParseAllIff(rewards: seq<Allocation>)
    ensures ParseAll(rewards).Some? <==> forall i :: 0 <= i < |rewards| ==> ParseUnits(rewards[i].amount).Some?
    ensures ParseAll(rewards).Some? ==>
              && |ParseAll(rewards).value| == |rewards|
              && forall i :: 0 <= i < |rewards| && ParseUnits(rewards[i].amount).Some? ==>
                   ParseAll(rewards).value[i] == Share(rewards[i].nodeId, ParseUnits(rewards[i].amount).value)
  {
    hide ParseUnits;
    if rewards != [] { ParseAllIff(rewards[1..]); }
  }

  /** Allocation succeeds exactly for amounts that all parse and a pool from one unit up to a million. */
  lemma AllocationsIff(pendingRewards: seq<Allocation>, totalRewardPool: string)
    ensures ComputeAllocations(pendingRewards, totalRewardPool).Ok?
       <==> && ParseUnits(totalRewardPool).Some? && 1 <= ParseUnits(totalRewardPool).value <= 10_000_000_000_000
            && forall i :: 0 <= i < |pendingRewards| ==> ParseUnits(pendingRewards[i].amount).Some?
    ensures ParseUnits(totalRewardPool).Some? ==>
              (ComputeAllocations(pendingRewards, totalRewardPool) == Err(PoolOutOfRange)
               <==> !(1 <= ParseUnits(totalRewardPool).value <= 10_000_000_000_000))
  {
    ParseAllIff(pendingRewards);
    hide ParseUnits;
  }

  // What a list of allocations pays in all, and to one node.
  function Paid(allocations: seq<Allocation>): nat {
    if allocations == [] then 0 else UnitsOf(allocations[0].amount) + Paid(allocations[1..])
  }

  lemma {:induction false} PaidByShares(shares: seq<Share>)
    ensures Paid(PositiveText(Formatted(shares))) == Total(shares)
  {
    if shares != [] {
      PaidByShares(shares[1..]);
      ParseUndoesFormat(shares[0].units);
      var all, rest := Formatted(shares), Formatted(shares[1..]);
      assert all[1..] == rest;
      if shares[0].units > 0 {
        assert PositiveText(all) == [all[0]] + PositiveText(rest);
        assert PositiveText(all)[1..] == PositiveText(rest);
      } else {
        assert PositiveText(all) == PositiveText(rest);
      }
    }
  }

  lemma QuotientBounds(a: nat, t: nat)
    requires t > 0
    ensures a / t * t <= a <= a / t * t + (t - 1)
  {
  }

  lemma {:induction false} SplitBounds(pool: nat, total: nat, shares: seq<Share>)
    requires total > 0
    ensures Total(Split(pool, total, shares)) * total <= pool * Total(shares)
            <= Total(Split(pool, total, shares)) * total + |shares| * (total - 1)
  {
    if shares != [] {
      var u, rest := shares[0].units, shares[1..];
      SplitBounds(pool, total, rest);
      assert |shares| == |rest| + 1;
      var q, more := pool * u / total, Total(Split(pool, total, rest));
      assert Split(pool, total, shares)[1..] == Split(pool, total, rest);
      assert Total(Split(pool, total, shares)) == q + more && Total(shares) == u + Total(rest);
      hide Split;
      hide Total;
      QuotientBounds(pool * u, total);
      AddBounds(pool, total, u, Total(rest), q, more, |rest|);
    }
  }

  lemma AddBounds(pool: nat, total: nat, u: nat, others: nat, q: nat, more: nat, n: nat)
    requires total > 0 && q * total <= pool * u <= q * total + (total - 1)
    requires more * total <= pool * others <= more * total + n * (total - 1)
    ensures (q + more) * total <= pool * (u + others) <= (q + more) * total + (n + 1) * (total - 1)
  {
    assert pool * (u + others) == pool * u + pool * others;
    assert (q + more) * total == q * total + more * total;
    assert (n + 1) * (total - 1) == (total - 1) + n * (total - 1);
  }

  lemma DivideBounds(paid: nat, total: nat, pool: nat, n: nat)
    requires total > 0 && n > 0
    requires paid * total <= pool * total <= paid * total + n * (total - 1)
    ensures paid <= pool < paid + n
  {
    assert paid > pool ==> paid * total >= (pool + 1) * total;
    assert pool >= paid + n ==> pool * total >= (paid + n) * total;
    assert (paid + n) * total == paid * total + n * total;
    assert n * (total - 1) == n * total - n;
  }

  /** What is allocated totals at most the pool, and falls short of it by less than the number of positive entries. */
  lemma AllocationsFillThePool(pending: seq<Allocation>, poolText: string)
    requires ComputeAllocations(pending, poolText).Ok?
    ensures ParseUnits(poolText).Some? && ParseAll(pending).Some?
    ensures var pool, out := ParseUnits(poolText).value, ComputeAllocations(pending, poolText).value;
            var positive := Positive(ParseAll(pending).value);
            if positive == [] then out == [] else Paid(out) <= pool < Paid(out) + |positive|
  {
    var pool, positive := ParseUnits(poolText).value, Positive(ParseAll(pending).value);
    if positive != [] {
      PositiveTotal(positive);
      var total := Total(positive);
      var split := Split(pool, total, positive);
      PaidByShares(split);
      SplitBounds(pool, total, positive);
      DivideBounds(Total(split), total, pool, |positive|);
    }
  }

  function PaidFor(allocations: seq<Allocation>, nodeId: string): nat {
    if allocations == [] then 0
    else (if allocations[0].nodeId == nodeId then UnitsOf(allocations[0].amount) else 0) + PaidFor(allocations[1..], nodeId)
  }

  // Units that the shares of one node add up to.
  function SharesOf(shares: seq<Share>, nodeId: string): nat {
    if shares == [] then 0
    else (if shares[0].nodeId == nodeId then shares[0].units else 0) + SharesOf(shares[1..], nodeId)
  }

  lemma {:induction false} PaidForByShares(shares: seq<Share>, nodeId: string)
    ensures PaidFor(PositiveText(Formatted(shares)), nodeId) == SharesOf(shares, nodeId)
  {
    if shares != [] {
      PaidForByShares(shares[1..], nodeId);
      ParseUndoesFormat(shares[0].units);
      hide ParseUnits;
      hide FormatUnits;
      var all, rest := Formatted(shares), Formatted(shares[1..]);
      assert all[1..] == rest;
      if shares[0].units > 0 {
        assert PositiveText(all) == [all[0]] + PositiveText(rest);
        assert PositiveText(all)[1..] == PositiveText(rest);
      } else {
        assert PositiveText(all) == PositiveText(rest);
      }
    }
  }

  predicate ListedOnce(shares: seq<Share>, i: nat)
    requires i < |shares|
  {
    forall j :: 0 <= j < |shares| && j != i ==> shares[j].nodeId != shares[i].nodeId
  }

  lemma {:induction false} SplitOfOne(pool: nat, total: nat, shares: seq<Share>, i: nat)
    requires total > 0 && i < |shares| && ListedOnce(shares, i)
    ensures SharesOf(Split(pool, total, shares), shares[i].nodeId) == pool * shares[i].units / total
  {
    var rest := Split(pool, total, shares[1..]);
    assert Split(pool, total, shares)[1..] == rest;
    if i == 0 {
      forall j | 0 <= j < |shares[1..]| ensures shares[1..][j].nodeId != shares[0].nodeId { assert shares[j + 1].nodeId != shares[0].nodeId; }
      NoShare(pool, total, shares[1..], shares[0].nodeId);
    } else {
      assert shares[0].nodeId != shares[i].nodeId;
      assert ListedOnce(shares[1..], i - 1) by {
        forall j | 0 <= j < |shares[1..]| && j != i - 1 ensures shares[1..][j].nodeId != shares[i].nodeId {
          assert shares[j + 1].nodeId != shares[i].nodeId;
        }
      }
      SplitOfOne(pool, total, shares[1..], i - 1);
    }
  }

  lemma {:induction false} NoShare(pool: nat, total: nat, shares: seq<Share>, nodeId: string)
    requires total > 0 && forall j :: 0 <= j < |shares| ==> shares[j].nodeId != nodeId
    ensures SharesOf(Split(pool, total, shares), nodeId) == 0
  {
    if shares != [] {
      assert Split(pool, total, shares)[1..] == Split(pool, total, shares[1..]);
      NoShare(pool, total, shares[1..], nodeId);
    }
  }

  // The whole units of pool * units / total, rounded down.
  predicate IsProportion(paid: nat, units: nat, pool: nat, total: nat) {
    paid * total <= pool * units < (paid + 1) * total
  }

  // What the rounded-down proportions of one node's entries add up to.
  function ProportionsOf(shares: seq<Share>, nodeId: string, pool: nat, total: nat): nat
    requires total > 0
  {
    if shares == [] then 0
    else (if shares[0].nodeId == nodeId then pool * shares[0].units / total else 0) + ProportionsOf(shares[1..], nodeId, pool, total)
  }

  lemma {:induction false} SharesOfSplit(shares: seq<Share>, nodeId: string, pool: nat, total: nat)
    requires total > 0
    ensures SharesOf(Split(pool, total, shares), nodeId) == ProportionsOf(shares, nodeId, pool, total)
  {
    if shares != [] {
      assert Split(pool, total, shares)[1..] == Split(pool, total, shares[1..]);
      SharesOfSplit(shares[1..], nodeId, pool, total);
    }
  }

  /** However often it is listed, a node is paid the rounded-down proportion of each of its entries, and nobody else anything. */
  lemma EveryEntryIsPaid(pending: seq<Allocation>, poolText: string, nodeId: string)
    requires ComputeAllocations(pending, poolText).Ok? && ParseUnits(poolText).Some? && ParseAll(pending).Some?
    ensures var positive := Positive(ParseAll(pending).value);
            PaidFor(ComputeAllocations(pending, poolText).value, nodeId)
            == if Total(positive) == 0 then 0 else ProportionsOf(positive, nodeId, ParseUnits(poolText).value, Total(positive))
  {
    var positive, pool := Positive(ParseAll(pending).value), ParseUnits(poolText).value;
    var out := ComputeAllocations(pending, poolText).value;
    if positive != [] {
      PositiveTotal(positive);
      var total := Total(positive);
      assert out == PositiveText(Formatted(Split(pool, total, positive)));
      hide *;
      PaidForByShares(Split(pool, total, positive), nodeId);
      SharesOfSplit(positive, nodeId, pool, total);
    }
  }

  /** A node listed once is paid its proportional part of the pool, rounded down. */
  lemma EachIsPaidItsProportion(pending: seq<Allocation>, poolText: string, i: nat)
    requires ComputeAllocations(pending, poolText).Ok? && ParseUnits(poolText).Some? && ParseAll(pending).Some?
    requires i < |Positive(ParseAll(pending).value)| && ListedOnce(Positive(ParseAll(pending).value), i)
    ensures var positive, pool := Positive(ParseAll(pending).value), ParseUnits(poolText).value;
            var paid := PaidFor(ComputeAllocations(pending, poolText).value, positive[i].nodeId);
            IsProportion(paid, positive[i].units, pool, Total(positive))
  {
    var positive, pool := Positive(ParseAll(pending).value), ParseUnits(poolText).value;
    PositiveTotal(positive);
    var total := Total(positive);
    var out := ComputeAllocations(pending, poolText).value;
    assert out == PositiveText(Formatted(Split(pool, total, positive)));
    hide *;
    PaidForByShares(Split(pool, total, positive), positive[i].nodeId);
    SplitOfOne(pool, total, positive, i);
    RoundedDown(pool, positive[i].units, total);
  }

  lemma RoundedDown(pool: nat, units: nat, total: nat)
    requires total > 0
    ensures IsProportion(pool * units / total, units, pool, total)
  {
    var q := pool * units / total;
    QuotientBounds(pool * units, total);
    assert (q + 1) * total == q * total + total;
  }

  /** One node alone is allocated exactly its own pending amount. */
  lemma OneNodeGetsEverything(nodeId: string, amount: string)
    requires ParseUnits(amount).Some?
    ensures var units := ParseUnits(amount).value;
            ComputeAllocations([Allocation(nodeId, amount)], amount)
            == if REWARD_POOL_MIN_UNITS <= units <= REWARD_POOL_MAX_UNITS
               then Ok([Allocation(nodeId, FormatUnits(units))]) else Err(PoolOutOfRange)
  {
    var units := ParseUnits(amount).value;
    var pending, share := [Allocation(nodeId, amount)], Share(nodeId, units);
    if REWARD_POOL_MIN_UNITS <= units <= REWARD_POOL_MAX_UNITS {
      hide ParseUnits;
      hide FormatUnits;
      assert pending[1..] == [] && ParseAll([]) == Some([]) && [share] + [] == [share];
      assert ParseAll(pending) == Some([share]);
      assert [share][1..] == [] && Positive([share]) == [share] && Total([share]) == units;
      QuotientOfSquare(units);
      assert Split(units, units, [share]) == [share];
      ParseUndoesFormat(units);
      var formatted := Formatted([share]);
      assert formatted == [Allocation(nodeId, FormatUnits(units))] && formatted[1..] == [];
      assert PositiveText(formatted) == formatted;
    }
  }

  lemma QuotientOfSquare(u: nat)
    requires u > 0
    ensures u * u / u == u
  {
    var q := u * u / u;
    QuotientBounds(u * u, u);
    assert q > u ==> q * u >= (u + 1) * u;
    assert q < u ==> q * u <= (u - 1) * u;
  }

  // ---------------------------------------------------------------- paying one node

  datatype Status = Distributed | Skipped | Requeued

  datatype Payment = Payment(nodeId: string, units: nat)

  // The two tables and the retry queue. Amounts are numeric columns with seven places.
  datatype Ledger = Ledger(pending: map<string, nat>, paid: seq<Payment>, retryQueue: seq<string>)

  function PendingOf(l: Ledger, nodeId: string): nat {
    if nodeId in l.pending then l.pending[nodeId] else 0
  }

  function PaidTo(paid: seq<Payment>, nodeId: string): nat {
    if paid == [] then 0
    else
      var last := paid[|paid| - 1];
      PaidTo(paid[..|paid| - 1], nodeId) + if last.nodeId == nodeId then last.units else 0
  }

  // One transaction for a node: the error leaves the ledger as it was.
  function DistributeOne(l: Ledger, nodeId: string, lockTimesOut: bool): (Ledger, Result<Status, Error>) {
    var units := PendingOf(l, nodeId);
    if lockTimesOut then (l.(retryQueue := l.retryQueue + [nodeId]), Ok(Requeued))
    else if units == 0 then (l, Ok(Skipped))
    else if units > REWARD_POOL_MAX_UNITS then (l, Err(PoolOutOfRange))
    else (l.(pending := l.pending[nodeId := 0], paid := l.paid + [Payment(nodeId, units)]), Ok(Distributed))
  }

  class RewardDistributor {
    var ledger: Ledger

    constructor (start: Ledger)
      ensures ledger == start
    {
      ledger := start;
    }

    method ComputeAndDistributeNodeReward(nodeId: string, lockTimesOut: bool)
      returns (result: Result<Status, Error>, allocatedAmount: string)
      modifies this
      ensures (ledger, result) == DistributeOne(old(ledger), nodeId, lockTimesOut)
      ensures UnitsOf(allocatedAmount) == PaidTo(ledger.paid, nodeId) - PaidTo(old(ledger).paid, nodeId)
    {
      ParseUndoesFormat(0);
      var nothing := FormatUnits(0);
      if lockTimesOut {
        ledger := ledger.(retryQueue := ledger.retryQueue + [nodeId]);
        return Ok(Requeued), nothing;
      }
      var amount := if nodeId in ledger.pending then FormatUnits(ledger.pending[nodeId]) else "0";
      ParseUndoesFormat(PendingOf(ledger, nodeId));
      ZeroParses();
      hide ParseUnits;
      hide FormatUnits;
      if UnitsOf(amount) <= 0 {
        return Ok(Skipped), nothing;
      }
      OneNodeGetsEverything(nodeId, amount);
      var allocations := ComputeAllocations([Allocation(nodeId, amount)], amount);
      hide ComputeAllocations;
      if allocations.Err? {
        return Err(allocations.error), nothing;
      }
      if allocations.value == [] {
        return Ok(Skipped), nothing;
      }
      allocatedAmount := allocations.value[0].amount;
      var units := UnitsOf(allocatedAmount);
      ghost var before := ledger.paid;
      ledger := ledger.(pending := ledger.pending[nodeId := ledger.pending[nodeId] - units],
                        paid := ledger.paid + [Payment(nodeId, units)]);
      assert ledger.paid[..|ledger.paid| - 1] == before;
      return Ok(Distributed), allocatedAmount;
    }
  }

  lemma ZeroParses()
    ensures ParseUnits("0") == Some(0)
  {
    assert "0"[1..] == "" && DigitSpan("0") == 1;
    assert "0"[..1] == "0" && "0"[..0] == "";
  }

  // ---------------------------------------------------------------- any sequence of payouts

  datatype Step =
    | Accrue(nodeId: string, units: nat)
    | Distribute(nodeId: string, lockTimesOut: bool)

  function Apply(l: Ledger, step: Step): Ledger {
    match step
    case Accrue(nodeId, units) => l.(pending := l.pending[nodeId := PendingOf(l, nodeId) + units])
    case Distribute(nodeId, lockTimesOut) => DistributeOne(l, nodeId, lockTimesOut).0
  }

  function Run(l: Ledger, steps: seq<Step>): Ledger
    decreases |steps|
  {
    if steps == [] then l else Run(Apply(l, steps[0]), steps[1..])
  }

  function Accrued(steps: seq<Step>, nodeId: string): nat {
    if steps == [] then 0
    else (if steps[0].Accrue? && steps[0].nodeId == nodeId then steps[0].units else 0) + Accrued(steps[1..], nodeId)
  }

  lemma PaidAfterOneMore(paid: seq<Payment>, p: Payment, nodeId: string)
    ensures PaidTo(paid + [p], nodeId) == PaidTo(paid, nodeId) + if p.nodeId == nodeId then p.units else 0
  {
    assert (paid + [p])[..|paid|] == paid;
  }

  /** Over any run, what a node has pending and been paid grows by exactly what accrued to it. */
  lemma {:induction false} NothingLostOrPaidTwice(l: Ledger, steps: seq<Step>, nodeId: string)
    ensures PendingOf(Run(l, steps), nodeId) + PaidTo(Run(l, steps).paid, nodeId)
            == PendingOf(l, nodeId) + PaidTo(l.paid, nodeId) + Accrued(steps, nodeId)
    decreases |steps|
  {
    if steps != [] {
      var m := Apply(l, steps[0]);
      if steps[0].Distribute? {
        PaidAfterOneMore(l.paid, Payment(steps[0].nodeId, PendingOf(l, steps[0].nodeId)), nodeId);
      }
      assert PendingOf(m, nodeId) + PaidTo(m.paid, nodeId)
          == PendingOf(l, nodeId) + PaidTo(l.paid, nodeId)
             + if steps[0].Accrue? && steps[0].nodeId == nodeId then steps[0].units else 0;
      NothingLostOrPaidTwice(m, steps[1..], nodeId);
    }
  }

  /**
   A payout pays all that is pending exactly when the lock is granted and the
   amount is positive and at most a million; otherwise it changes no amount.
   */
  lemma PaysAllOrNothing(l: Ledger, nodeId: string, lockTimesOut: bool)
    ensures var (after, result) := DistributeOne(l, nodeId, lockTimesOut);
            if !lockTimesOut && 0 < PendingOf(l, nodeId) <= 10_000_000_000_000
            then result == Ok(Distributed) && PendingOf(after, nodeId) == 0
                 && PaidTo(after.paid, nodeId) == PaidTo(l.paid, nodeId) + PendingOf(l, nodeId)
            else after.pending == l.pending && after.paid == l.paid
                 && result == (if lockTimesOut then Ok(Requeued) else if PendingOf(l, nodeId) == 0 then Ok(Skipped) else Err(PoolOutOfRange))
    ensures DistributeOne(l, nodeId, lockTimesOut).0.retryQueue == if lockTimesOut then l.retryQueue + [nodeId] else l.retryQueue
  {
    PaidAfterOneMore(l.paid, Payment(nodeId, PendingOf(l, nodeId)), nodeId);
  }

  /** An amount above a million is stuck: no payout ever reduces it, however often it is tried. */
  lemma {:induction false} AboveTheMaximumIsStuck(l: Ledger, steps: seq<Step>, nodeId: string)
    requires PendingOf(l, nodeId) > 10_000_000_000_000
    ensures PendingOf(Run(l, steps), nodeId) == PendingOf(l, nodeId) + Accrued(steps, nodeId)
    ensures PaidTo(Run(l, steps).paid, nodeId) == PaidTo(l.paid, nodeId)
    decreases |steps|
  {
    if steps != [] {
      var m := Apply(l, steps[0]);
      if steps[0].Distribute? {
        PaidAfterOneMore(l.paid, Payment(steps[0].nodeId, PendingOf(l, steps[0].nodeId)), nodeId);
      }
      AboveTheMaximumIsStuck(m, steps[1..], nodeId);
    }
  }
}
