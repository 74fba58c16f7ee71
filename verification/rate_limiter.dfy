/**
 Model of the in-memory token bucket in src/security/rate_limiter.ts, in exact
 arithmetic. Times are milliseconds; rates are tokens per millisecond.
 */
module RateLimiter {
  import opened Common

  datatype Bucket = Bucket(tokens: real, lastRefillMs: real)

  datatype ConsumeResult = ConsumeResult(allowed: bool, retryAfterSeconds: int)

  // Refill rate and burst capacity of one bucket.
  datatype Limit = Limit(rate: real, capacity: real)
  {
    predicate Valid() { rate > 0.0 && capacity >= 0.0 }
  }

  function Max0(r: real): real { if r < 0.0 then 0.0 else r }

  function Min(a: real, b: real): real { if a <= b then a else b }

  // Tokens gained over a time; the proofs below use it through its laws.
  function Gain(rate: real, ms: real): real { rate * ms }

  lemma GainAdds(rate: real, a: real, b: real)
    ensures Gain(rate, a + b) == Gain(rate, a) + Gain(rate, b)
  {
  }

  lemma GainGrows(rate: real, a: real, b: real)
    requires rate > 0.0 && a <= b
    ensures Gain(rate, a) <= Gain(rate, b) && (a < b ==> Gain(rate, a) < Gain(rate, b))
    ensures Gain(rate, 0.0) == 0.0
  {
    if a < b { assert rate * (b - a) > 0.0; }
  }

  // ---------------------------------------------------------------- one request

  // The tokens a request finds; a bucket that does not exist yet is full.
  function Available(b: Option<Bucket>, now: real, limit: Limit): real {
    match b
    case None => Min(limit.capacity, limit.capacity + Gain(limit.rate, Max0(now - now)))
    case Some(bucket) => Min(limit.capacity, bucket.tokens + Gain(limit.rate, Max0(now - bucket.lastRefillMs)))
  }

  predicate Admits(b: Option<Bucket>, now: real, limit: Limit) {
    Available(b, now, limit) >= 1.0
  }

  function After(b: Option<Bucket>, now: real, limit: Limit): Bucket {
    var tokens := Available(b, now, limit);
    Bucket(if tokens >= 1.0 then tokens - 1.0 else tokens, now)
  }

  function Ceil(r: real): (c: int)
    ensures (c - 1) as real < r <= c as real
  {
    if r.Floor as real == r then r.Floor else r.Floor + 1
  }

  function RetryAfter(tokens: real, rate: real): int
    requires rate > 0.0
  {
    if tokens >= 1.0 then 0
    else
      var seconds := Ceil((1.0 - tokens) / (rate * 1000.0));
      if seconds > 1 then seconds else 1
  }

  type Buckets = map<string, Bucket>

  function Lookup(buckets: Buckets, key: string): Option<Bucket> {
    if key in buckets then Some(buckets[key]) else None
  }

  class InMemoryBucketStore {
    var buckets: Buckets

    constructor ()
      ensures buckets == map[]
    {
      buckets := map[];
    }

    method Consume(key: string, nowMs: real, refillRatePerMs: real, burstCapacity: real) returns (result: ConsumeResult)
      requires refillRatePerMs > 0.0
      modifies this
      ensures var before, limit := Lookup(old(buckets), key), Limit(refillRatePerMs, burstCapacity);
              && buckets == old(buckets)[key := After(before, nowMs, limit)]
              && result.allowed == Admits(before, nowMs, limit)
              && result.retryAfterSeconds
                 == if result.allowed then 0 else RetryAfter(Available(before, nowMs, limit), refillRatePerMs)
    {
      var existing := if key in buckets then buckets[key] else Bucket(burstCapacity, nowMs);
      var elapsed := Max0(nowMs - existing.lastRefillMs);
      var tokens := Min(burstCapacity, existing.tokens + Gain(refillRatePerMs, elapsed));
      existing := existing.(lastRefillMs := nowMs);
      var allowed := tokens >= 1.0;
      var remaining := if allowed then tokens - 1.0 else tokens;
      existing := existing.(tokens := remaining);
      buckets := buckets[key := existing];
      result := ConsumeResult(allowed, if allowed then 0 else RetryAfter(remaining, refillRatePerMs));
    }
  }

  // ---------------------------------------------------------------- the requests of one bucket

  function Decisions(b: Option<Bucket>, times: seq<real>, limit: Limit): (r: seq<bool>)
    ensures |r| == |times|
    decreases |times|
  {
    if times == [] then []
    else [Admits(b, times[0], limit)] + Decisions(Some(After(b, times[0], limit)), times[1..], limit)
  }

  function AfterAll(b: Option<Bucket>, times: seq<real>, limit: Limit): Option<Bucket>
    decreases |times|
  {
    if times == [] then b else AfterAll(Some(After(b, times[0], limit)), times[1..], limit)
  }

  function Count(decisions: seq<bool>): nat {
    if decisions == [] then 0 else (if decisions[0] then 1 else 0) + Count(decisions[1..])
  }

  // How far the clock moves forward over the requests, backward moves not counted.
  function Forward(times: seq<real>): (r: real)
    ensures r >= 0.0
  {
    if |times| <= 1 then 0.0 else Max0(times[1] - times[0]) + Forward(times[1..])
  }

  predicate Ascending(times: seq<real>) {
    forall i, j :: 0 <= i < j < |times| ==> times[i] <= times[j]
  }

  lemma {:induction false} AdmittedWithinAvailable(b: Option<Bucket>, times: seq<real>, limit: Limit)
    requires limit.Valid() && times != [] && Available(b, times[0], limit) >= 0.0
    ensures Count(Decisions(b, times, limit)) as real <= Available(b, times[0], limit) + Gain(limit.rate, Forward(times))
    decreases |times|
  {
    hide Gain;
    var after := After(b, times[0], limit);
    GainGrows(limit.rate, 0.0, Forward(times));
    if |times| == 1 {
      assert Decisions(b, times, limit)[1..] == [];
    } else {
      var step := Max0(times[1] - times[0]);
      GainGrows(limit.rate, 0.0, step);
      AdmittedWithinAvailable(Some(after), times[1..], limit);
      GainAdds(limit.rate, step, Forward(times[1..]));
      assert Decisions(b, times, limit)[1..] == Decisions(Some(after), times[1..], limit);
    }
  }

  lemma AvailableNonNegative(b: Option<Bucket>, now: real, limit: Limit)
    requires limit.Valid() && (b.Some? ==> b.value.tokens >= 0.0)
    ensures 0.0 <= Available(b, now, limit) <= limit.capacity && After(b, now, limit).tokens >= 0.0
  {
    hide Gain;
    GainGrows(limit.rate, 0.0, Max0(now - now));
    if b.Some? { GainGrows(limit.rate, 0.0, Max0(now - b.value.lastRefillMs)); }
  }

  lemma {:induction false} TokensNonNegative(b: Option<Bucket>, times: seq<real>, limit: Limit)
    requires limit.Valid() && (b.Some? ==> b.value.tokens >= 0.0)
    ensures AfterAll(b, times, limit).Some? ==> AfterAll(b, times, limit).value.tokens >= 0.0
    decreases |times|
  {
    if times != [] {
      AvailableNonNegative(b, times[0], limit);
      TokensNonNegative(Some(After(b, times[0], limit)), times[1..], limit);
    }
  }

  lemma {:induction false} DecisionsOfSlice(b: Option<Bucket>, times: seq<real>, limit: Limit, i: nat, j: nat)
    requires i <= j <= |times|
    ensures Decisions(b, times, limit)[i..j] == Decisions(AfterAll(b, times[..i], limit), times[i..j], limit)
    decreases |times|
  {
    hide Admits;
    hide After;
    if i > 0 {
      var rest := Decisions(Some(After(b, times[0], limit)), times[1..], limit);
      DecisionsOfSlice(Some(After(b, times[0], limit)), times[1..], limit, i - 1, j - 1);
      assert Decisions(b, times, limit)[i..j] == rest[i - 1..j - 1];
      assert times[..i][1..] == times[1..][..i - 1] && times[1..][i - 1..j - 1] == times[i..j];
    } else if j > 0 {
      var rest := Decisions(Some(After(b, times[0], limit)), times[1..], limit);
      DecisionsOfSlice(Some(After(b, times[0], limit)), times[1..], limit, 0, j - 1);
      assert Decisions(b, times, limit)[0..j] == [Admits(b, times[0], limit)] + rest[0..j - 1];
      assert times[0..j][1..] == times[1..][0..j - 1] && times[..0] == [] && times[1..][..0] == [];
    } else {
      assert times[0..0] == [];
    }
  }

  /**
   Whatever the clock does, any stretch of consecutive requests admits at most
   the capacity plus what the clock's forward moves over the stretch refill.
   */
  lemma StretchIsBounded(times: seq<real>, limit: Limit, i: nat, j: nat)
    requires limit.Valid() && i < j <= |times|
    ensures Count(Decisions(None, times, limit)[i..j]) as real
            <= limit.capacity + Gain(limit.rate, Forward(times[i..j]))
  {
    var b := AfterAll(None, times[..i], limit);
    DecisionsOfSlice(None, times, limit, i, j);
    TokensNonNegative(None, times[..i], limit);
    AvailableNonNegative(b, times[i], limit);
    AdmittedWithinAvailable(b, times[i..j], limit);
  }

  lemma {:induction false} ForwardOfAscending(times: seq<real>)
    requires Ascending(times) && times != []
    ensures Forward(times) == times[|times| - 1] - times[0]
  {
    if |times| > 1 {
      assert Ascending(times[1..]) by {
        forall i, j | 0 <= i < j < |times[1..]| ensures times[1..][i] <= times[1..][j] {
          assert times[i + 1] <= times[j + 1];
        }
      }
      ForwardOfAscending(times[1..]);
    }
  }

  // Requests admitted at a time within [from, to].
  function AdmittedIn(times: seq<real>, decisions: seq<bool>, from: real, to: real): nat
    requires |times| == |decisions|
  {
    if times == [] then 0
    else (if decisions[0] && from <= times[0] <= to then 1 else 0) + AdmittedIn(times[1..], decisions[1..], from, to)
  }

  lemma {:induction false} NothingAfter(times: seq<real>, decisions: seq<bool>, from: real, to: real)
    requires |times| == |decisions| && forall i :: 0 <= i < |times| ==> to < times[i]
    ensures AdmittedIn(times, decisions, from, to) == 0
  {
    if times != [] {
      NothingAfter(times[1..], decisions[1..], from, to);
    }
  }

  lemma TailAscends(times: seq<real>)
    requires times != [] && Ascending(times)
    ensures Ascending(times[1..]) && forall i :: 0 <= i < |times| ==> times[0] <= times[i]
  {
    forall i, j | 0 <= i < j < |times[1..]| ensures times[1..][i] <= times[1..][j] { assert times[i + 1] <= times[j + 1]; }
  }

  // Starting inside the window.
  lemma {:induction false} InsideWindow(b: Option<Bucket>, times: seq<real>, limit: Limit, from: real, to: real)
    requires limit.Valid() && times != [] && Ascending(times) && from <= times[0] <= to
    requires b.Some? ==> b.value.tokens >= 0.0
    ensures AdmittedIn(times, Decisions(b, times, limit), from, to) as real
            <= Available(b, times[0], limit) + Gain(limit.rate, to - times[0])
    decreases |times|
  {
    hide Gain;
    var t, after := times[0], After(b, times[0], limit);
    TailAscends(times);
    AvailableNonNegative(b, t, limit);
    GainGrows(limit.rate, 0.0, to - t);
    assert Decisions(b, times, limit)[1..] == Decisions(Some(after), times[1..], limit);
    if |times| == 1 || times[1] > to {
      if |times| > 1 { TailAscends(times[1..]); }
      NothingAfter(times[1..], Decisions(Some(after), times[1..], limit), from, to);
    } else {
      InsideWindow(Some(after), times[1..], limit, from, to);
      GainAdds(limit.rate, times[1] - t, to - times[1]);
      assert (times[1] - t) + (to - times[1]) == to - t;
    }
  }

  lemma {:induction false} WindowFrom(b: Option<Bucket>, times: seq<real>, limit: Limit, from: real, to: real)
    requires limit.Valid() && Ascending(times) && from <= to && (b.Some? ==> b.value.tokens >= 0.0)
    ensures AdmittedIn(times, Decisions(b, times, limit), from, to) as real
            <= limit.capacity + Gain(limit.rate, to - from)
    decreases |times|
  {
    hide Gain;
    GainGrows(limit.rate, 0.0, to - from);
    if times != [] {
      var t, after := times[0], After(b, times[0], limit);
      TailAscends(times);
      AvailableNonNegative(b, t, limit);
      assert Decisions(b, times, limit)[1..] == Decisions(Some(after), times[1..], limit);
      if t < from {
        WindowFrom(Some(after), times[1..], limit, from, to);
      } else if t <= to {
        InsideWindow(b, times, limit, from, to);
        GainGrows(limit.rate, to - t, to - from);
      } else {
        NothingAfter(times, Decisions(b, times, limit), from, to);
      }
    }
  }

  /** With a clock that never goes back, any time window admits at most capacity + rate * length requests. */
  lemma WindowIsBounded(times: seq<real>, limit: Limit, from: real, to: real)
    requires limit.Valid() && Ascending(times) && from <= to
    ensures AdmittedIn(times, Decisions(None, times, limit), from, to) as real
            <= limit.capacity + limit.rate * (to - from)
  {
    WindowFrom(None, times, limit, from, to);
  }

  /** Without that, the bound fails: a clock that steps back and forth admits two requests at one instant. */
  lemma BackwardClockBreaksTheBound()
    ensures var times, limit := [0.0, -10.0, 0.0], Limit(1.0, 1.0);
            AdmittedIn(times, Decisions(None, times, limit), 0.0, 0.0) == 2
            && 2.0 > limit.capacity + limit.rate * (0.0 - 0.0)
  {
    var times, limit := [0.0, -10.0, 0.0], Limit(1.0, 1.0);
    var b1 := After(None, 0.0, limit);
    var b2 := After(Some(b1), -10.0, limit);
    assert b1 == Bucket(0.0, 0.0) && b2 == Bucket(0.0, -10.0);
    assert times[1..] == [-10.0, 0.0] && [-10.0, 0.0][1..] == [0.0] && [0.0][1..] == [];
    assert Decisions(Some(b2), [0.0], limit) == [true];
    assert Decisions(Some(b1), [-10.0, 0.0], limit) == [false, true];
    var d := Decisions(None, times, limit);
    assert d == [true, false, true];
    assert d[1..] == [false, true] && [false, true][1..] == [true];
    assert AdmittedIn([0.0], [true], 0.0, 0.0) == 1;
    assert AdmittedIn([-10.0, 0.0], [false, true], 0.0, 0.0) == 1;
  }

  // ---------------------------------------------------------------- exactly when a bound holds for every limit

  // Every bucket, of whatever rate and capacity, admits at most what its capacity and the span refill.
  ghost predicate BoundedBySpan(times: seq<real>, span: real) {
    forall limit: Limit | limit.Valid() ::
      Count(Decisions(None, times, limit)) as real <= limit.capacity + Gain(limit.rate, span)
  }

  // A bucket of capacity one admits a request once its tokens and the forward moves still to come make up one token.
  lemma {:induction false} OneMoreIsAdmitted(b: Bucket, times: seq<real>, limit: Limit)
    requires limit.Valid() && limit.capacity == 1.0
    requires b.tokens + Gain(limit.rate, Forward([b.lastRefillMs] + times)) >= 1.0 > b.tokens
    ensures Count(Decisions(Some(b), times, limit)) >= 1
    decreases |times|
  {
    hide Gain;
    GainGrows(limit.rate, 0.0, 0.0);
    assert times != [];
    var all, after := [b.lastRefillMs] + times, After(Some(b), times[0], limit);
    assert all[1..] == times && Forward(all) == Max0(times[0] - b.lastRefillMs) + Forward(times);
    GainAdds(limit.rate, Max0(times[0] - b.lastRefillMs), Forward(times));
    if !Admits(Some(b), times[0], limit) {
      assert [after.lastRefillMs] + times[1..] == times;
      OneMoreIsAdmitted(after, times[1..], limit);
    }
    assert Decisions(Some(b), times, limit)[1..] == Decisions(Some(after), times[1..], limit);
  }

  // The limit that turns the clock's forward moves into exactly one token.
  function OneTokenPer(forward: real): Limit
    requires forward > 0.0
  {
    Limit(1.0 / forward, 1.0)
  }

  lemma OneTokenRefill(forward: real, span: real)
    requires 0.0 <= span < forward
    ensures OneTokenPer(forward).Valid()
    ensures Gain(OneTokenPer(forward).rate, forward) == 1.0 && Gain(OneTokenPer(forward).rate, span) < 1.0
  {
    assert 1.0 / forward > 0.0;
    GainGrows(1.0 / forward, span, forward);
  }

  lemma TwoAreAdmitted(times: seq<real>)
    requires times != [] && Forward(times) > 0.0
    ensures Count(Decisions(None, times, OneTokenPer(Forward(times)))) >= 2
  {
    var limit := OneTokenPer(Forward(times));
    OneTokenRefill(Forward(times), 0.0);
    hide Gain;
    GainGrows(limit.rate, 0.0, 0.0);
    var after := After(None, times[0], limit);
    assert Max0(times[0] - times[0]) == 0.0;
    assert after == Bucket(0.0, times[0]);
    assert [times[0]] + times[1..] == times;
    OneMoreIsAdmitted(after, times[1..], limit);
    assert Decisions(None, times, limit)[1..] == Decisions(Some(after), times[1..], limit);
  }

  /**
   Exactly which clock readings keep a bound for every limit: what a bucket admits
   stays within its capacity and the refill of a span if and only if the forward
   moves of the clock add up to no more than the span.
   */
  lemma BoundedBySpanIff(times: seq<real>, span: real)
    requires times != [] && span >= 0.0
    ensures BoundedBySpan(times, span) <==> Forward(times) <= span
  {
    hide Gain;
    if Forward(times) <= span {
      forall limit: Limit | limit.Valid()
        ensures Count(Decisions(None, times, limit)) as real <= limit.capacity + Gain(limit.rate, span)
      {
        StretchIsBounded(times, limit, 0, |times|);
        assert times[0..|times|] == times && Decisions(None, times, limit)[0..|times|] == Decisions(None, times, limit);
        GainGrows(limit.rate, Forward(times), span);
      }
    } else {
      TwoAreAdmitted(times);
      OneTokenRefill(Forward(times), span);
      assert OneTokenPer(Forward(times)).Valid();
    }
  }

  lemma {:induction false} AllInWindow(times: seq<real>, decisions: seq<bool>, from: real, to: real)
    requires |times| == |decisions| && forall i :: 0 <= i < |times| ==> from <= times[i] <= to
    ensures AdmittedIn(times, decisions, from, to) == Count(decisions)
  {
    if times != [] { AllInWindow(times[1..], decisions[1..], from, to); }
  }

  /** For a window that holds all readings: its bound is met for every limit exactly when the forward moves fit into it. */
  lemma WindowBoundIff(times: seq<real>, from: real, to: real)
    requires times != [] && forall i :: 0 <= i < |times| ==> from <= times[i] <= to
    ensures (forall limit: Limit | limit.Valid() ::
               AdmittedIn(times, Decisions(None, times, limit), from, to) as real <= limit.capacity + Gain(limit.rate, to - from))
            <==> Forward(times) <= to - from
  {
    assert from <= times[0] <= to;
    BoundedBySpanIff(times, to - from);
    forall limit: Limit
      ensures AdmittedIn(times, Decisions(None, times, limit), from, to) == Count(Decisions(None, times, limit))
    {
      AllInWindow(times, Decisions(None, times, limit), from, to);
    }
  }

  // ---------------------------------------------------------------- exactly which requests are admitted

  // The bucket that request k finds.
  function Before(times: seq<real>, limit: Limit, k: nat): Option<Bucket>
    requires k <= |times|
  {
    AfterAll(None, times[..k], limit)
  }

  lemma {:induction false} AfterOneMore(b: Option<Bucket>, times: seq<real>, t: real, limit: Limit)
    ensures AfterAll(b, times + [t], limit) == Some(After(AfterAll(b, times, limit), t, limit))
    decreases |times|
  {
    if times == [] {
      assert [t][1..] == [];
      assert times + [t] == [t];
    } else {
      assert (times + [t])[1..] == times[1..] + [t];
      AfterOneMore(Some(After(b, times[0], limit)), times[1..], t, limit);
    }
  }

  lemma NextBucket(times: seq<real>, limit: Limit, k: nat)
    requires k < |times|
    ensures Before(times, limit, k + 1) == Some(After(Before(times, limit, k), times[k], limit))
    ensures Decisions(None, times, limit)[k] == Admits(Before(times, limit, k), times[k], limit)
  {
    assert times[..k + 1] == times[..k] + [times[k]];
    AfterOneMore(None, times[..k], times[k], limit);
    DecisionsOfSlice(None, times, limit, k, k + 1);
    assert times[k..k + 1] == [times[k]];
    assert Decisions(None, times, limit)[k..k + 1][0] == Decisions(None, times, limit)[k];
  }

  lemma {:induction false} ForwardOneMore(times: seq<real>, t: real)
    requires times != []
    ensures Forward(times + [t]) == Forward(times) + Max0(t - times[|times| - 1])
  {
    var all := times + [t];
    if |times| > 1 {
      assert all[1..] == times[1..] + [t];
      ForwardOneMore(times[1..], t);
    } else {
      assert all[1..] == [t];
    }
  }

  lemma {:induction false} CountOneMore(d: seq<bool>, last: bool)
    ensures Count(d + [last]) == Count(d) + if last then 1 else 0
  {
    if d == [] {
      assert d + [last] == [last] && [last][1..] == [];
    } else {
      assert (d + [last])[1..] == d[1..] + [last];
      CountOneMore(d[1..], last);
    }
  }

  // What the requests from i up to k leave of the capacity and of what has been refilled since request i.
  function Left(times: seq<real>, limit: Limit, i: nat, k: nat): real
    requires i <= k < |times|
  {
    limit.capacity + Gain(limit.rate, Forward(times[i..k + 1])) - Count(Decisions(None, times, limit)[i..k]) as real
  }

  lemma LeftOneMore(times: seq<real>, limit: Limit, i: nat, k: nat)
    requires i <= k && k + 1 < |times|
    ensures Left(times, limit, i, k + 1)
            == Left(times, limit, i, k) + Gain(limit.rate, Max0(times[k + 1] - times[k]))
               - if Decisions(None, times, limit)[k] then 1.0 else 0.0
  {
    var d := Decisions(None, times, limit);
    assert times[i..k + 2] == times[i..k + 1] + [times[k + 1]];
    ForwardOneMore(times[i..k + 1], times[k + 1]);
    assert d[i..k + 1] == d[i..k] + [d[k]];
    CountOneMore(d[i..k], d[k]);
    hide Forward;
    hide Count;
    hide Decisions;
    GainAdds(limit.rate, Forward(times[i..k + 1]), Max0(times[k + 1] - times[k]));
  }

  lemma LeftAtOnce(times: seq<real>, limit: Limit, k: nat)
    requires k < |times|
    ensures Left(times, limit, k, k) == limit.capacity
  {
    assert times[k..k + 1] == [times[k]] && Decisions(None, times, limit)[k..k] == [];
    assert Forward([times[k]]) == 0.0;
  }

  ghost predicate Tightest(times: seq<real>, limit: Limit, k: nat, tokens: real)
    requires k < |times|
  {
    && (forall i :: 0 <= i <= k ==> tokens <= Left(times, limit, i, k))
    && (exists i :: 0 <= i <= k && tokens == Left(times, limit, i, k))
  }

  /**
   The tokens a request finds, whatever the clock does: the least that any stretch of
   requests up to it leaves of its capacity and refill.
   */
  lemma {:induction false} TokensAreTheTightest(times: seq<real>, limit: Limit, k: nat)
    requires limit.Valid() && k < |times|
    ensures Tightest(times, limit, k, Available(Before(times, limit, k), times[k], limit))
  {
    if k == 0 {
      LeftAtOnce(times, limit, 0);
      assert Before(times, limit, 0) == None;
      GainGrows(limit.rate, 0.0, 0.0);
    } else {
      TokensAreTheTightest(times, limit, k - 1);
      NextTightest(times, limit, k - 1);
    }
  }

  lemma NextTightest(times: seq<real>, limit: Limit, k: nat)
    requires limit.Valid() && k + 1 < |times|
    requires Tightest(times, limit, k, Available(Before(times, limit, k), times[k], limit))
    ensures Tightest(times, limit, k + 1, Available(Before(times, limit, k + 1), times[k + 1], limit))
  {
    var tokens, next := Available(Before(times, limit, k), times[k], limit), Available(Before(times, limit, k + 1), times[k + 1], limit);
    var gain := Gain(limit.rate, Max0(times[k + 1] - times[k]));
    var used := if Decisions(None, times, limit)[k] then 1.0 else 0.0;
    NextBucket(times, limit, k);
    LeftAtOnce(times, limit, k + 1);
    assert next == Min(limit.capacity, tokens - used + gain);
    hide Available;
    hide Before;
    hide Decisions;
    hide Left;
    hide Gain;
    var m := k + 1;
    forall i | 0 <= i <= m ensures next <= Left(times, limit, i, m) {
      if i <= k { LeftOneMore(times, limit, i, k); }
    }
    var i :| 0 <= i <= k && tokens == Left(times, limit, i, k);
    LeftOneMore(times, limit, i, k);
    assert next == Left(times, limit, k + 1, k + 1) || next == Left(times, limit, i, k + 1);
  }

  // With one more admission the stretch from i would pass what its capacity and refill allow.
  predicate WouldBreak(times: seq<real>, limit: Limit, i: nat, k: nat)
    requires i <= k < |times|
  {
    (Count(Decisions(None, times, limit)[i..k]) + 1) as real > limit.capacity + Gain(limit.rate, Forward(times[i..k + 1]))
  }

  /** A request is denied exactly when admitting it would break the bound of some stretch that ends with it. */
  lemma DeniedIff(times: seq<real>, limit: Limit, k: nat)
    requires limit.Valid() && k < |times|
    ensures !Decisions(None, times, limit)[k] <==> exists i :: 0 <= i <= k && WouldBreak(times, limit, i, k)
  {
    TokensAreTheTightest(times, limit, k);
    NextBucket(times, limit, k);
    var tokens := Available(Before(times, limit, k), times[k], limit);
    forall i | 0 <= i <= k ensures WouldBreak(times, limit, i, k) <==> Left(times, limit, i, k) < 1.0 {}
    if tokens < 1.0 {
      var i :| 0 <= i <= k && tokens == Left(times, limit, i, k);
      assert WouldBreak(times, limit, i, k);
    }
  }

  // The stretch from i to k could be admitted in full.
  predicate Fits(times: seq<real>, limit: Limit, i: nat, k: nat)
    requires i <= k < |times|
  {
    (k - i + 1) as real <= limit.capacity + Gain(limit.rate, Forward(times[i..k + 1]))
  }

  ghost predicate FitsThroughout(times: seq<real>, limit: Limit) {
    forall i, k :: 0 <= i <= k < |times| ==> Fits(times, limit, i, k)
  }

  lemma {:induction false} CountAll(d: seq<bool>)
    requires forall i :: 0 <= i < |d| ==> d[i]
    ensures Count(d) == |d|
  {
    if d != [] { CountAll(d[1..]); }
  }

  lemma {:induction false} FirstAreAdmitted(times: seq<real>, limit: Limit, n: nat)
    requires limit.Valid() && n <= |times| && FitsThroughout(times, limit)
    ensures forall k :: 0 <= k < n ==> Decisions(None, times, limit)[k]
  {
    if n > 0 {
      FirstAreAdmitted(times, limit, n - 1);
      var d, k := Decisions(None, times, limit), n - 1;
      forall i | 0 <= i <= k ensures !WouldBreak(times, limit, i, k) {
        CountAll(d[i..k]);
        assert Fits(times, limit, i, k);
      }
      DeniedIff(times, limit, k);
    }
  }

  predicate AllAdmitted(decisions: seq<bool>) {
    forall k :: 0 <= k < |decisions| ==> decisions[k]
  }

  /** All requests of a trace are admitted exactly when every stretch of them fits into its capacity and refill. */
  lemma AllAdmittedIff(times: seq<real>, limit: Limit)
    requires limit.Valid()
    ensures AllAdmitted(Decisions(None, times, limit)) <==> FitsThroughout(times, limit)
  {
    if FitsThroughout(times, limit) { FirstAreAdmitted(times, limit, |times|); }
    hide Fits;
    hide Decisions;
    if AllAdmitted(Decisions(None, times, limit)) {
      forall i, k | 0 <= i <= k < |times| ensures Fits(times, limit, i, k) { AdmittedFits(times, limit, i, k); }
    }
  }

  lemma AdmittedFits(times: seq<real>, limit: Limit, i: nat, k: nat)
    requires limit.Valid() && i <= k < |times| && AllAdmitted(Decisions(None, times, limit))
    ensures Fits(times, limit, i, k)
  {
    DeniedIff(times, limit, k);
    assert !WouldBreak(times, limit, i, k);
    CountAll(Decisions(None, times, limit)[i..k]);
  }

  // n requests at one instant.
  function Burst(n: nat, t: real): (r: seq<real>)
    ensures |r| == n && forall i :: 0 <= i < n ==> r[i] == t
  {
    seq(n, _ => t)
  }

  lemma {:induction false} NoForwardInBurst(times: seq<real>, t: real)
    requires forall i :: 0 <= i < |times| ==> times[i] == t
    ensures Forward(times) == 0.0
  {
    if |times| > 1 { NoForwardInBurst(times[1..], t); }
  }

  lemma {:induction false} CountWithin(d: seq<bool>, i: nat)
    requires i <= |d|
    ensures Count(d[i..]) <= Count(d)
  {
    if i > 0 {
      CountWithin(d[1..], i - 1);
      assert d[1..][i - 1..] == d[i..];
    } else {
      assert d[0..] == d;
    }
  }

  lemma BurstDecision(n: nat, t: real, limit: Limit, k: nat)
    requires limit.Valid() && k < n
    ensures Decisions(None, Burst(n, t), limit)[k]
       <==> (Count(Decisions(None, Burst(n, t), limit)[..k]) + 1) as real <= limit.capacity
  {
    var times, d := Burst(n, t), Decisions(None, Burst(n, t), limit);
    DeniedIff(times, limit, k);
    GainGrows(limit.rate, 0.0, 0.0);
    hide Decisions;
    hide Burst;
    forall i | 0 <= i <= k
      ensures WouldBreak(times, limit, i, k) <==> (Count(d[i..k]) + 1) as real > limit.capacity
      ensures Count(d[i..k]) <= Count(d[0..k])
    {
      NoForwardInBurst(times[i..k + 1], t);
      CountWithin(d[..k], i);
      assert d[..k][i..] == d[i..k] && d[0..k] == d[..k];
    }
    assert WouldBreak(times, limit, 0, k) <==> (Count(d[0..k]) + 1) as real > limit.capacity;
    assert d[0..k] == d[..k];
  }

  lemma {:induction false} BurstSoFar(n: nat, t: real, limit: Limit, k: nat)
    requires limit.Valid() && k <= n
    ensures Count(Decisions(None, Burst(n, t), limit)[..k]) == if k <= limit.capacity.Floor then k else limit.capacity.Floor
  {
    var d := Decisions(None, Burst(n, t), limit);
    if k > 0 {
      BurstSoFar(n, t, limit, k - 1);
      BurstDecision(n, t, limit, k - 1);
      assert d[..k] == d[..k - 1] + [d[k - 1]];
      CountOneMore(d[..k - 1], d[k - 1]);
    } else {
      assert d[..0] == [];
    }
  }

  /** Of n requests at one instant a fresh bucket admits as many as fit into its capacity, and no fewer. */
  lemma BurstIsExact(n: nat, t: real, limit: Limit)
    requires limit.Valid()
    ensures Count(Decisions(None, Burst(n, t), limit)) == if n <= limit.capacity.Floor then n else limit.capacity.Floor
  {
    BurstSoFar(n, t, limit, n);
    assert Decisions(None, Burst(n, t), limit)[..n] == Decisions(None, Burst(n, t), limit);
  }

  // ---------------------------------------------------------------- denied requests leave no trace

  lemma DeniedLeavesTheBucket(b: Option<Bucket>, denied: real, later: real, limit: Limit)
    requires limit.Valid() && !Admits(b, denied, limit) && denied <= later
    requires b.Some? ==> b.value.lastRefillMs <= denied
    ensures Available(Some(After(b, denied, limit)), later, limit) == Available(b, later, limit)
  {
    hide Gain;
    GainGrows(limit.rate, 0.0, later - denied);
    if b.Some? {
      GainAdds(limit.rate, denied - b.value.lastRefillMs, later - denied);
      assert (denied - b.value.lastRefillMs) + (later - denied) == later - b.value.lastRefillMs;
    }
  }

  lemma SameTokensSameDecisions(b: Option<Bucket>, c: Option<Bucket>, times: seq<real>, limit: Limit)
    requires times != [] ==> Available(b, times[0], limit) == Available(c, times[0], limit)
    ensures Decisions(b, times, limit) == Decisions(c, times, limit)
  {
  }

  function Without<T>(s: seq<T>, k: nat): (r: seq<T>)
    requires k < |s|
    ensures |r| == |s| - 1
  {
    s[..k] + s[k + 1..]
  }

  lemma WithoutOfCons<T>(x: T, s: seq<T>, k: nat)
    requires k <= |s|
    ensures Without([x] + s, k) == if k == 0 then s else [x] + Without(s, k - 1)
  {
  }

  /** Deleting a denied request from a trace changes no other decision. */
  lemma {:induction false} DeniedLeavesNoTrace(b: Option<Bucket>, times: seq<real>, limit: Limit, k: nat)
    requires limit.Valid() && Ascending(times) && k < |times| && !Decisions(b, times, limit)[k]
    requires b.Some? ==> b.value.lastRefillMs <= times[0]
    ensures Decisions(b, Without(times, k), limit) == Without(Decisions(b, times, limit), k)
    decreases k
  {
    hide Available;
    hide Decisions;
    hide Admits;
    hide Without;
    TailAscends(times);
    var t, rest, after := times[0], times[1..], Some(After(b, times[0], limit));
    assert times == [t] + rest;
    DecisionsOfCons(b, t, rest, limit);
    WithoutOfCons(t, rest, k);
    WithoutOfCons(Admits(b, t, limit), Decisions(after, rest, limit), k);
    if k == 0 {
      DroppedFirst(b, t, rest, limit);
    } else {
      DeniedLeavesNoTrace(after, rest, limit, k - 1);
      DecisionsOfCons(b, t, Without(rest, k - 1), limit);
    }
  }

  lemma DecisionsOfCons(b: Option<Bucket>, t: real, rest: seq<real>, limit: Limit)
    ensures Decisions(b, [t] + rest, limit) == [Admits(b, t, limit)] + Decisions(Some(After(b, t, limit)), rest, limit)
  {
    assert ([t] + rest)[1..] == rest;
  }

  lemma DroppedFirst(b: Option<Bucket>, t: real, rest: seq<real>, limit: Limit)
    requires limit.Valid() && !Admits(b, t, limit) && (b.Some? ==> b.value.lastRefillMs <= t)
    requires rest != [] ==> t <= rest[0]
    ensures Decisions(Some(After(b, t, limit)), rest, limit) == Decisions(b, rest, limit)
  {
    hide Gain;
    if rest != [] { DeniedLeavesTheBucket(b, t, rest[0], limit); }
    SameTokensSameDecisions(Some(After(b, t, limit)), b, rest, limit);
  }

  // ---------------------------------------------------------------- Retry-After

  lemma QuotientTimes(a: real, q: real, d: real)
    requires d > 0.0
    ensures a / d <= q <==> a <= q * d
  {
    assert a / d * d == a;
    if a / d <= q { assert (q - a / d) * d >= 0.0; } else { assert (a / d - q) * d > 0.0; }
  }

  /**
   A denied client that waits the returned seconds, with no other request on its
   bucket, is admitted exactly when the capacity is at least one; and no smaller
   positive number of whole seconds would do.
   */
  lemma RetryAfterIsExact(b: Option<Bucket>, now: real, limit: Limit, wait: int)
    requires limit.Valid() && !Admits(b, now, limit) && wait >= 1
    ensures var seconds := RetryAfter(Available(b, now, limit), limit.rate);
            Admits(Some(After(b, now, limit)), now + wait as real * 1000.0, limit)
            <==> limit.capacity >= 1.0 && wait >= seconds
  {
    var tokens, seconds := Available(b, now, limit), RetryAfter(Available(b, now, limit), limit.rate);
    var perSecond := limit.rate * 1000.0;
    QuotientTimes(1.0 - tokens, wait as real, perSecond);
    assert Gain(limit.rate, wait as real * 1000.0) == wait as real * perSecond;
    assert Available(Some(After(b, now, limit)), now + wait as real * 1000.0, limit)
        == Min(limit.capacity, tokens + wait as real * perSecond);
    var c := Ceil((1.0 - tokens) / perSecond);
    assert wait >= c <==> (1.0 - tokens) / perSecond <= wait as real;
  }

  // ---------------------------------------------------------------- many buckets

  datatype Request = Request(key: string, time: real)

  function StoreDecisions(buckets: Buckets, requests: seq<Request>, limitOf: string -> Limit): (r: seq<bool>)
    ensures |r| == |requests|
    decreases |requests|
  {
    if requests == [] then []
    else
      var q := requests[0];
      var before, limit := Lookup(buckets, q.key), limitOf(q.key);
      [Admits(before, q.time, limit)]
      + StoreDecisions(buckets[q.key := After(before, q.time, limit)], requests[1..], limitOf)
  }

  function TimesOf(requests: seq<Request>, key: string): seq<real> {
    if requests == [] then []
    else (if requests[0].key == key then [requests[0].time] else []) + TimesOf(requests[1..], key)
  }

  function DecisionsOf(requests: seq<Request>, decisions: seq<bool>, key: string): seq<bool>
    requires |requests| == |decisions|
  {
    if requests == [] then []
    else (if requests[0].key == key then [decisions[0]] else []) + DecisionsOf(requests[1..], decisions[1..], key)
  }

  /** In the store, each key is decided as if its requests were the only ones. */
  lemma {:induction false} KeysAreIndependent(buckets: Buckets, requests: seq<Request>, limitOf: string -> Limit, key: string)
    ensures DecisionsOf(requests, StoreDecisions(buckets, requests, limitOf), key)
            == Decisions(Lookup(buckets, key), TimesOf(requests, key), limitOf(key))
    decreases |requests|
  {
    if requests != [] {
      var q := requests[0];
      var after := buckets[q.key := After(Lookup(buckets, q.key), q.time, limitOf(q.key))];
      KeysAreIndependent(after, requests[1..], limitOf, key);
      assert StoreDecisions(buckets, requests, limitOf)[1..] == StoreDecisions(after, requests[1..], limitOf);
      var times, rest := TimesOf(requests, key), TimesOf(requests[1..], key);
      var all, d := StoreDecisions(buckets, requests, limitOf), StoreDecisions(after, requests[1..], limitOf);
      if q.key == key {
        assert times == [q.time] + rest && times[1..] == rest;
        assert DecisionsOf(requests, all, key) == [all[0]] + DecisionsOf(requests[1..], d, key);
      } else {
        assert times == rest && Lookup(after, key) == Lookup(buckets, key);
        assert DecisionsOf(requests, all, key) == DecisionsOf(requests[1..], d, key);
      }
    }
  }

  // ---------------------------------------------------------------- tiers

  datatype Tier = Free | Pro | Enterprise

  const BUCKET_WINDOW_SECONDS := 10.0

  function PerMinute(tier: Tier): real {
    match tier
    case Free => 10.0
    case Pro => 100.0
    case Enterprise => 1000.0
  }

  function TierLimit(tier: Tier): Limit {
    Limit(PerMinute(tier) / 60.0 / 1000.0, PerMinute(tier) / 60.0 * BUCKET_WINDOW_SECONDS)
  }

  /** The bursts of the tiers: 1, 16 and 166 requests at one instant. */
  lemma TierBursts(tier: Tier, n: nat, t: real)
    ensures var burst := match tier case Free => 1 case Pro => 16 case Enterprise => 166;
            Count(Decisions(None, Burst(n, t), TierLimit(tier))) == if n <= burst then n else burst
  {
    BurstIsExact(n, t, TierLimit(tier));
  }

  /** Over any number of minutes, one bucket of a tier admits at most its rate plus a sixth of a minute's worth. */
  lemma TierIsBounded(tier: Tier, times: seq<real>, from: real, minutes: nat)
    requires Ascending(times)
    ensures AdmittedIn(times, Decisions(None, times, TierLimit(tier)), from, from + minutes as real * 60_000.0) as real
            <= PerMinute(tier) * (minutes as real + 1.0 / 6.0)
  {
    WindowIsBounded(times, TierLimit(tier), from, from + minutes as real * 60_000.0);
  }
}
