/**
 What decides a delivery: which claims are granted, which sends have succeeded, and
 what a call does that nobody interferes with.
 */
module DeliveryRuns {
  import opened Common
  import opened DeliveryStore
  import opened SlashingNotifier

  /**
   A claim is granted exactly when nothing is stored under its event and channel, or a
   delivery that is neither running nor done; the record then counts one more attempt
   and keeps its first notification id.
   */
  lemma ClaimIff(records: Records, event: string, channel: Channel, id: string)
    ensures var key := Key(event, channel);
            && (CanClaim(records, key) <==> key !in records || records[key].status in {Pending, Failed})
            && Granted(records, event, channel, id)
               == Record(event, channel, if key in records then records[key].notificationId else id, Delivering,
                         (if key in records then records[key].attempts else 0) + 1, None)
  {
  }

  // ---------------------------------------------------------------- successful sends

  // The step in which a send for the key succeeds.
  predicate SendSucceeds(w: World, step: Step, key: string) {
    && step.Advance? && step.sendOk && step.call < |w.calls|
    && w.calls[step.call].at.Sending? && w.calls[step.call].Key() == key
  }

  predicate SomeSendSucceeds(w: World, steps: seq<Step>, key: string)
    decreases |steps|
  {
    steps != [] && (SendSucceeds(w, steps[0], key) || SomeSendSucceeds(Apply(w, steps[0]), steps[1..], key))
  }

  lemma WinnerStep(w: World, step: Step, key: string)
    ensures key in Apply(w, step).winner <==> key in w.winner || SendSucceeds(w, step, key)
  {
    hide DeliveryStore.Key;
    hide CanClaim;
    hide Granted;
  }

  lemma {:induction false} WinnerIff(w: World, steps: seq<Step>, key: string)
    ensures key in Run(w, steps).winner <==> key in w.winner || SomeSendSucceeds(w, steps, key)
    decreases |steps|
  {
    if steps != [] {
      WinnerStep(w, steps[0], key);
      WinnerIff(Apply(w, steps[0]), steps[1..], key);
      hide Apply;
    }
  }

  /** Once all calls have returned, an event is delivered on a channel exactly when one of its sends has succeeded. */
  lemma DeliveredIffASendSucceeded(steps: seq<Step>, key: string)
    requires forall i :: 0 <= i < |Run(Empty, steps).calls| ==> Run(Empty, steps).calls[i].at.Done?
    ensures DeliveredIn(Run(Empty, steps), key) <==> SomeSendSucceeds(Empty, steps, key)
  {
    var w := Run(Empty, steps);
    assert Reachable(w);
    ReachableInv(w);
    WinnerIff(Empty, steps, key);
    assert KeyOk(w, key);
    if key in w.owner { assert w.calls[w.owner[key]].at.Holds(); }
  }

  // ---------------------------------------------------------------- a call left alone

  // Where one call stands, and what is stored under its key.
  ghost predicate Stands(w: World, i: nat, key: string, max: int, at: Point, sends: nat, free: bool) {
    && i < |w.calls| && w.calls[i].Key() == key && w.calls[i].maxRetries == max
    && w.calls[i].at == at && w.calls[i].sends == sends
    && CanClaim(w.records, key) == free
  }

  ghost predicate StoredAs(w: World, key: string, status: Status) {
    key in w.records && w.records[key].status == status
  }

  lemma RunOne(w: World, step: Step, rest: seq<Step>)
    ensures Run(w, [step] + rest) == Run(Apply(w, step), rest)
  {
    assert ([step] + rest)[1..] == rest;
  }

  lemma ClaimAndSend(w: World, i: nat, key: string, max: int, at: Point, a: nat, sends: nat) returns (id: string)
    requires Stands(w, i, key, max, at, sends, true) && a <= max && (at == Sleeping(a) || (at == Checked(false) && a == 0))
    ensures Stands(Apply(Apply(w, Go(i)), Go(i)), i, key, max, Sending(a, id), sends + 1, false)
    ensures StoredAs(Apply(Apply(w, Go(i)), Go(i)), key, Delivering)
  {
    hide DeliveryStore.Key;
    var claimed := Apply(w, Go(i));
    id := Granted(w.records, w.calls[i].event, w.calls[i].channel, w.calls[i].notificationId).notificationId;
    assert Stands(claimed, i, key, max, Claimed(a, Some(id)), sends, false) && StoredAs(claimed, key, Delivering);
  }

  lemma ReplyAndMark(w: World, i: nat, key: string, max: int, a: nat, id: string, sends: nat, ok: bool)
    requires Stands(w, i, key, max, Sending(a, id), sends, false) && StoredAs(w, key, Delivering)
    ensures var u := Apply(Apply(w, Advance(i, ok, "")), Go(i));
            && Stands(u, i, key, max, if ok then Marked else MarkedFailed(a), sends, !ok)
            && StoredAs(u, key, if ok then Delivered else Failed)
  {
    hide DeliveryStore.Key;
    var sent := Apply(w, Advance(i, ok, ""));
    assert Stands(sent, i, key, max, Sent(a, id, ok), sends, false) && StoredAs(sent, key, Delivering);
  }

  // The steps of one attempt.
  function Attempt(i: nat, ok: bool): seq<Step> {
    [Go(i), Go(i), Advance(i, ok, ""), Go(i), Go(i)]
  }

  lemma OneAttempt(w: World, i: nat, key: string, max: int, at: Point, a: nat, sends: nat, ok: bool)
    requires Stands(w, i, key, max, at, sends, true) && a <= max && (at == Sleeping(a) || (at == Checked(false) && a == 0))
    ensures var u := Run(w, Attempt(i, ok));
            && Stands(u, i, key, max, if ok then Done(ReportedDelivered) else if a == max then Done(ReportedFailed) else Sleeping(a + 1),
                      sends + 1, !ok)
            && StoredAs(u, key, if ok then Delivered else Failed)
  {
    var id := ClaimAndSend(w, i, key, max, at, a, sends);
    var w2 := Apply(Apply(w, Go(i)), Go(i));
    ReplyAndMark(w2, i, key, max, a, id, sends + 1, ok);
    var w4 := Apply(Apply(w2, Advance(i, ok, "")), Go(i));
    LastOfAttempt(w4, i, key, max, a, sends + 1, ok);
    hide Apply;
    hide Stands;
    hide StoredAs;
    FiveSteps(w, Go(i), Go(i), Advance(i, ok, ""), Go(i), Go(i));
  }

  lemma LastOfAttempt(w: World, i: nat, key: string, max: int, a: nat, sends: nat, ok: bool)
    requires Stands(w, i, key, max, if ok then Marked else MarkedFailed(a), sends, !ok) && a <= max
    requires StoredAs(w, key, if ok then Delivered else Failed)
    ensures var u := Apply(w, Go(i));
            && Stands(u, i, key, max, if ok then Done(ReportedDelivered) else if a == max then Done(ReportedFailed) else Sleeping(a + 1),
                      sends, !ok)
            && StoredAs(u, key, if ok then Delivered else Failed)
  {
    hide DeliveryStore.Key;
  }

  lemma FiveSteps(w: World, a: Step, b: Step, c: Step, d: Step, e: Step)
    ensures Run(w, [a, b, c, d, e]) == Apply(Apply(Apply(Apply(Apply(w, a), b), c), d), e)
  {
    RunOne(w, a, [b, c, d, e]);
    RunOne(Apply(w, a), b, [c, d, e]);
    RunThree(Apply(Apply(w, a), b), c, d, e);
    hide Apply;
    hide Run;
    assert [a] + [b, c, d, e] == [a, b, c, d, e] && [b] + [c, d, e] == [b, c, d, e];
  }

  // The steps of a call from attempt a on, when nobody else is at work.
  function LoneSteps(i: nat, max: int, a: nat, sendOk: nat -> bool): seq<Step>
    decreases max - a
  {
    if a > max then [] else Attempt(i, sendOk(a)) + if sendOk(a) then [] else LoneSteps(i, max, a + 1, sendOk)
  }

  // The first attempt from a on whose send succeeds, if any does.
  function FirstSuccess(max: int, a: nat, sendOk: nat -> bool): (r: Option<nat>)
    ensures r.Some? ==> a <= r.value <= max && sendOk(r.value) && forall b :: a <= b < r.value ==> !sendOk(b)
    ensures r.None? ==> forall b :: a <= b <= max ==> !sendOk(b)
    decreases max - a
  {
    if a > max then None else if sendOk(a) then Some(a) else FirstSuccess(max, a + 1, sendOk)
  }

  /**
   A call that nobody interferes with sends until a send succeeds, and then reports it
   delivered, or else maxRetries + 1 times, and then reports the failure.
   */
  lemma {:induction false} LoneCall(w: World, i: nat, key: string, max: int, at: Point, a: nat, sends: nat, sendOk: nat -> bool)
    requires Stands(w, i, key, max, at, sends, true) && a <= max && (at == Sleeping(a) || (at == Checked(false) && a == 0))
    ensures var u, first := Run(w, LoneSteps(i, max, a, sendOk)), FirstSuccess(max, a, sendOk);
            && i < |u.calls|
            && u.calls[i].at == Done(if first.Some? then ReportedDelivered else ReportedFailed)
            && u.calls[i].sends == sends + (if first.Some? then first.value + 1 - a else max + 1 - a)
            && StoredAs(u, key, if first.Some? then Delivered else Failed)
    decreases max - a
  {
    OneAttempt(w, i, key, max, at, a, sends, sendOk(a));
    var rest := if sendOk(a) then [] else LoneSteps(i, max, a + 1, sendOk);
    RunAppend(w, Attempt(i, sendOk(a)), rest);
    if !sendOk(a) && a < max {
      LoneCall(Run(w, Attempt(i, sendOk(a))), i, key, max, Sleeping(a + 1), a + 1, sends + 1, sendOk);
    }
  }

  // ---------------------------------------------------------------- what a call finds and leaves

  /** A call that finds its event delivered is skipped, whatever its retries, and changes no record. */
  lemma DeliveredIsSkipped(w: World, i: nat, ok: bool, error: string)
    requires i < |w.calls| && w.calls[i].at.Fresh?
    ensures var u := AdvanceCall(AdvanceCall(w, i, ok, error), i, ok, error);
            DeliveredIn(w, w.calls[i].Key()) ==> u.calls[i].at == Done(ReportedSkipped) && u.calls[i].sends == w.calls[i].sends
    ensures AdvanceCall(w, i, ok, error).records == w.records
    ensures DeliveredIn(w, w.calls[i].Key()) ==> AdvanceCall(AdvanceCall(w, i, ok, error), i, ok, error).records == w.records
  {
  }

  /** In every run the record of a settled send says how it went, with the error of a failed one, and is otherwise as it was. */
  lemma SettledAsSent(steps: seq<Step>, i: nat, error: string)
    requires var w := Run(Empty, steps); i < |w.calls| && w.calls[i].at.Sent?
    ensures var w := Run(Empty, steps);
            var key, ok, u := w.calls[i].Key(), w.calls[i].at.ok, AdvanceCall(w, i, w.calls[i].at.ok, error);
            && key in w.records && w.records[key].status.Delivering?
            && u.records == w.records[key := w.records[key].(status := if ok then Delivered else Failed,
                                                             lastError := if ok then None else Some(error))]
  {
    var w := Run(Empty, steps);
    RunKeepsInv(Empty, steps);
    assert CallOk(w, i) && KeyOk(w, w.calls[i].Key());
    hide SendsFor;
  }
}
