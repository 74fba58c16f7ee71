/**
 Model of src/notifications/slashingNotifier.ts over a store that does not fail.

 deliverChannel is one call; any number of calls, for any events and channels,
 interleave at their awaits. A send may fail or succeed at will.
 */
module SlashingNotifier {
  import opened Common
  import opened DeliveryStore

  datatype Report = ReportedDelivered | ReportedSkipped | ReportedFailed

  // Where a call of deliverChannel stands: the await it is waiting for, or its result.
  datatype Point =
    | Fresh
    | Checked(delivered: bool)
    | Claimed(attempt: nat, granted: Option<string>)
    | Sending(attempt: nat, id: string)
    | Sent(attempt: nat, id: string, ok: bool)
    | Marked
    | MarkedFailed(attempt: nat)
    | Sleeping(attempt: nat)
    | Done(report: Report)
  {
    // Between a granted claim and the mark that ends it.
    predicate Holds() {
      (Claimed? && granted.Some?) || Sending? || Sent?
    }

    // From a successful send on.
    predicate Won() {
      (Sent? && ok) || Marked? || this == Done(ReportedDelivered)
    }

    function Id(): string
      requires Holds()
    {
      if Claimed? then granted.value else id
    }
  }

  datatype Call = Call(event: string, channel: Channel, notificationId: string, maxRetries: int, at: Point, sends: nat)
  {
    function Key(): string {
      DeliveryStore.Key(event, channel)
    }
  }

  // owner and winner are history: the call whose claim is running, and the call whose send succeeded.
  datatype World = World(records: Records, calls: seq<Call>, owner: map<string, nat>, winner: map<string, nat>)

  datatype Step =
    | Begin(event: string, channel: Channel, notificationId: string, maxRetries: int)
    | Advance(call: nat, sendOk: bool, error: string)

  function Move(w: World, i: nat, at: Point): World
    requires i < |w.calls|
  {
    w.(calls := w.calls[i := w.calls[i].(at := at)])
  }

  // The head of the retry loop, up to the await of the claim.
  function TryClaim(w: World, i: nat, attempt: nat): World
    requires i < |w.calls|
  {
    var c := w.calls[i];
    if attempt > c.maxRetries then Move(w, i, Done(ReportedFailed))
    else if CanClaim(w.records, c.Key()) then
      var record := Granted(w.records, c.event, c.channel, c.notificationId);
      Move(w, i, Claimed(attempt, Some(record.notificationId)))
        .(records := w.records[c.Key() := record], owner := w.owner[c.Key() := i])
    else Move(w, i, Claimed(attempt, None))
  }

  // A call runs from one await to the next.
  function AdvanceCall(w: World, i: nat, sendOk: bool, error: string): (u: World)
    requires i < |w.calls|
    ensures |u.calls| == |w.calls|
  {
    var c := w.calls[i];
    match c.at
    case Fresh => Move(w, i, Checked(c.Key() in w.records && w.records[c.Key()].status.Delivered?))
    case Checked(true) => Move(w, i, Done(ReportedSkipped))
    case Checked(false) => TryClaim(w, i, 0)
    case Claimed(_, None) => Move(w, i, Done(ReportedSkipped))
    case Claimed(a, Some(id)) => w.(calls := w.calls[i := c.(at := Sending(a, id), sends := c.sends + 1)])
    case Sending(a, id) =>
      var sent := Move(w, i, Sent(a, id, sendOk));
      if sendOk then sent.(winner := w.winner[c.Key() := i]) else sent
    case Sent(_, _, true) =>
      Move(w, i, Marked).(records := WithDelivered(w.records, c.Key()), owner := w.owner - {c.Key()})
    case Sent(a, _, false) =>
      Move(w, i, MarkedFailed(a)).(records := WithFailed(w.records, c.Key(), error), owner := w.owner - {c.Key()})
    case Marked => Move(w, i, Done(ReportedDelivered))
    case MarkedFailed(a) => Move(w, i, if a == c.maxRetries then Done(ReportedFailed) else Sleeping(a + 1))
    case Sleeping(a) => TryClaim(w, i, a)
    case Done(_) => w
  }

  function Apply(w: World, step: Step): World {
    match step
    case Begin(event, channel, id, maxRetries) =>
      w.(calls := w.calls + [Call(event, channel, id, maxRetries, Fresh, 0)])
    case Advance(i, sendOk, error) =>
      if i < |w.calls| then AdvanceCall(w, i, sendOk, error) else w
  }

  function Run(w: World, steps: seq<Step>): World
    decreases |steps|
  {
    if steps == [] then w else Run(Apply(w, steps[0]), steps[1..])
  }

  const Empty := World(map[], [], map[], map[])

  // Number of sends the calls have started for a key.
  function SendsFor(calls: seq<Call>, key: string): nat {
    if calls == [] then 0
    else
      var last := calls[|calls| - 1];
      SendsFor(calls[..|calls| - 1], key) + if last.Key() == key then last.sends else 0
  }

  // ---------------------------------------------------------------- the invariant

  function Budget(c: Call): int {
    if c.maxRetries < 0 then 0 else c.maxRetries + 1
  }

  // How many sends a call has made, by where it stands.
  predicate SendsOk(c: Call) {
    match c.at
    case Fresh => c.sends == 0
    case Checked(_) => c.sends == 0
    case Claimed(a, _) => c.sends == a <= c.maxRetries
    case Sending(a, _) => c.sends == a + 1 && a <= c.maxRetries
    case Sent(a, _, _) => c.sends == a + 1 && a <= c.maxRetries
    case Marked => 1 <= c.sends <= Budget(c)
    case MarkedFailed(a) => c.sends == a + 1 && a <= c.maxRetries
    case Sleeping(a) => c.sends == a <= c.maxRetries
    case Done(ReportedDelivered) => 1 <= c.sends <= Budget(c)
    case Done(ReportedSkipped) => c.sends <= Budget(c)
    case Done(ReportedFailed) => c.sends == Budget(c)
  }

  predicate CallOk(w: World, i: nat)
    requires i < |w.calls|
  {
    var c := w.calls[i];
    && SendsOk(c)
    && (c.at.Holds() ==> c.Key() in w.owner && w.owner[c.Key()] == i
                         && c.Key() in w.records && w.records[c.Key()].notificationId == c.at.Id())
    && (c.at.Won() ==> c.Key() in w.winner && w.winner[c.Key()] == i)
  }

  // A claim is granted whose send has not started yet.
  predicate ClaimPending(w: World, key: string) {
    key in w.owner && w.owner[key] < |w.calls| && w.calls[w.owner[key]].at.Claimed?
  }

  predicate KeyOk(w: World, key: string) {
    && (key in w.owner <==> key in w.records && w.records[key].status.Delivering?)
    && (key in w.owner ==> w.owner[key] < |w.calls|
                           && w.calls[w.owner[key]].Key() == key && w.calls[w.owner[key]].at.Holds())
    && (key in w.winner ==> w.winner[key] < |w.calls|
                            && w.calls[w.winner[key]].Key() == key && w.calls[w.winner[key]].at.Won())
    && (key in w.winner && key in w.owner ==> w.winner[key] == w.owner[key])
    && (key in w.records && w.records[key].status.Delivered? <==> key in w.winner && key !in w.owner)
    && (key in w.records ==> !w.records[key].status.Pending?)
    && (if key in w.records then w.records[key].attempts else 0)
         == SendsFor(w.calls, key) + (if ClaimPending(w, key) then 1 else 0)
  }

  ghost predicate Inv(w: World) {
    && (forall i {:trigger CallOk(w, i)} :: 0 <= i < |w.calls| ==> CallOk(w, i))
    && (forall key {:trigger KeyOk(w, key)} :: KeyOk(w, key))
  }

  lemma {:induction false} SendsAfterUpdate(calls: seq<Call>, i: nat, c: Call, key: string)
    requires i < |calls| && c.Key() == calls[i].Key()
    ensures SendsFor(calls[i := c], key) == SendsFor(calls, key) + if c.Key() == key then c.sends - calls[i].sends else 0
    decreases |calls|
  {
    var updated, front := calls[i := c], calls[..|calls| - 1];
    if i < |calls| - 1 {
      SendsAfterUpdate(front, i, c, key);
      assert updated[..|calls| - 1] == front[i := c];
    } else {
      assert updated[..|calls| - 1] == front;
    }
  }

  lemma BeginKeepsInv(w: World, step: Step)
    requires Inv(w) && step.Begin?
    ensures Inv(Apply(w, step))
  {
    var u := Apply(w, step);
    forall i | 0 <= i < |u.calls| ensures CallOk(u, i) {
      if i < |w.calls| { assert CallOk(w, i); }
    }
    forall key ensures KeyOk(u, key) {
      assert KeyOk(w, key);
      assert u.calls[..|u.calls| - 1] == w.calls;
    }
  }

  predicate SameAt<T(==)>(m: map<string, T>, n: map<string, T>, key: string) {
    (key in m <==> key in n) && (key in m ==> m[key] == n[key])
  }

  // A step of one call changes that call, and nothing outside its key.
  ghost predicate Framed(w: World, u: World, i: nat)
    requires i < |w.calls|
  {
    && |u.calls| == |w.calls| && u.calls == w.calls[i := u.calls[i]]
    && u.calls[i].Key() == w.calls[i].Key() && u.calls[i].maxRetries == w.calls[i].maxRetries
    && forall key {:trigger key in u.records} {:trigger key in u.owner} {:trigger key in u.winner} ::
         key != w.calls[i].Key() ==>
           SameAt(u.records, w.records, key) && SameAt(u.owner, w.owner, key) && SameAt(u.winner, w.winner, key)
  }

  lemma FramedByParts(w: World, u: World, i: nat)
    requires i < |w.calls| && |u.calls| == |w.calls| && u.calls == w.calls[i := u.calls[i]]
    requires u.calls[i].Key() == w.calls[i].Key() && u.calls[i].maxRetries == w.calls[i].maxRetries
    requires forall key :: key != w.calls[i].Key() ==> SameAt(u.records, w.records, key)
    requires forall key :: key != w.calls[i].Key() ==> SameAt(u.owner, w.owner, key)
    requires forall key :: key != w.calls[i].Key() ==> SameAt(u.winner, w.winner, key)
    ensures Framed(w, u, i)
  {
    hide Call.Key;
  }

  lemma AdvanceIsFramed(w: World, i: nat, sendOk: bool, error: string)
    requires i < |w.calls|
    ensures Framed(w, AdvanceCall(w, i, sendOk, error), i)
  {
    hide DeliveryStore.Key;
    hide CanClaim;
    hide Granted;
    hide Framed;
    var u := AdvanceCall(w, i, sendOk, error);
    match w.calls[i].at
    case Checked(false) => ClaimIsFramed(w, i, 0);
    case Sleeping(a) => ClaimIsFramed(w, i, a);
    case _ =>
      assert w.calls[i := w.calls[i]] == w.calls;
      assert u.calls == w.calls[i := u.calls[i]];
      FramedByParts(w, u, i);
  }

  lemma ClaimIsFramed(w: World, i: nat, attempt: nat)
    requires i < |w.calls|
    ensures |TryClaim(w, i, attempt).calls| == |w.calls| && Framed(w, TryClaim(w, i, attempt), i)
  {
    hide DeliveryStore.Key;
    hide CanClaim;
    hide Granted;
    hide Framed;
    var u := TryClaim(w, i, attempt);
    assert u.calls == w.calls[i := u.calls[i]];
    FramedByParts(w, u, i);
  }

  lemma OtherKeyStays(w: World, u: World, i: nat, key: string)
    requires i < |w.calls| && Framed(w, u, i) && KeyOk(w, key) && key != w.calls[i].Key()
    ensures KeyOk(u, key)
  {
    hide DeliveryStore.Key;
    hide Call.Key;
    SendsAfterUpdate(w.calls, i, u.calls[i], key);
    hide SendsFor;
    assert SameAt(u.records, w.records, key) by { assert key in u.records || key !in u.records; }
    assert key in w.owner ==> w.owner[key] != i;
    assert key in w.winner ==> w.winner[key] != i;
  }

  // A call that the step does not move: if it shares the key, it holds nothing that changes.
  lemma OtherCallStays(w: World, i: nat, sendOk: bool, error: string, j: nat)
    requires Inv(w) && i < |w.calls| && j < |w.calls| && j != i
    ensures CallOk(AdvanceCall(w, i, sendOk, error), j)
  {
    var u := AdvanceCall(w, i, sendOk, error);
    var k := w.calls[j].Key();
    assert CallOk(w, i) && CallOk(w, j) && KeyOk(w, k);
    AdvanceIsFramed(w, i, sendOk, error);
    hide SendsFor;
    hide SendsOk;
    hide DeliveryStore.Key;
    if k != w.calls[i].Key() {
      hide AdvanceCall;
      assert SameAt(u.records, w.records, k) by { assert k in u.records || k !in u.records; }
    } else {
      hide Call.Key;
    }
  }

  lemma MovedCallOk(w: World, i: nat, sendOk: bool, error: string)
    requires i < |w.calls| && CallOk(w, i) && KeyOk(w, w.calls[i].Key())
    ensures CallOk(AdvanceCall(w, i, sendOk, error), i)
  {
    hide SendsFor;
    hide DeliveryStore.Key;
    if w.calls[i].at == Checked(false) || w.calls[i].at.Sleeping? {
      ClaimedCallOk(w, i, if w.calls[i].at.Checked? then 0 else w.calls[i].at.attempt);
    }
  }

  lemma ClaimedCallOk(w: World, i: nat, attempt: nat)
    requires i < |w.calls| && CallOk(w, i) && (w.calls[i].at == Checked(false) || w.calls[i].at == Sleeping(attempt))
    requires w.calls[i].at.Checked? ==> attempt == 0
    ensures |TryClaim(w, i, attempt).calls| == |w.calls| && CallOk(TryClaim(w, i, attempt), i)
  {
    hide DeliveryStore.Key;
  }

  // The key of the call that moves, by what its step does.
  lemma OwnKeyOk(w: World, i: nat, sendOk: bool, error: string)
    requires i < |w.calls| && CallOk(w, i) && KeyOk(w, w.calls[i].Key())
    ensures KeyOk(AdvanceCall(w, i, sendOk, error), w.calls[i].Key())
  {
    var u := AdvanceCall(w, i, sendOk, error);
    AdvanceIsFramed(w, i, sendOk, error);
    SendsAfterUpdate(w.calls, i, u.calls[i], w.calls[i].Key());
    match w.calls[i].at
    case Checked(false) => OwnKeyAfterClaim(w, i, 0);
    case Sleeping(a) => OwnKeyAfterClaim(w, i, a);
    case Sent(_, _, _) => OwnKeyAfterMark(w, u, i, sendOk, error);
    case _ => OwnKeyAfterMove(w, u, i, sendOk, error);
  }

  lemma OwnKeyAfterClaim(w: World, i: nat, attempt: nat)
    requires i < |w.calls| && CallOk(w, i) && KeyOk(w, w.calls[i].Key())
    requires w.calls[i].at == Checked(false) || w.calls[i].at == Sleeping(attempt)
    requires SendsFor(TryClaim(w, i, attempt).calls, w.calls[i].Key()) == SendsFor(w.calls, w.calls[i].Key())
    ensures KeyOk(TryClaim(w, i, attempt), w.calls[i].Key())
  {
    hide SendsFor;
    hide DeliveryStore.Key;
    hide SendsOk;
  }

  lemma OwnKeyAfterMark(w: World, u: World, i: nat, sendOk: bool, error: string)
    requires i < |w.calls| && CallOk(w, i) && KeyOk(w, w.calls[i].Key()) && w.calls[i].at.Sent?
    requires u == AdvanceCall(w, i, sendOk, error)
    requires SendsFor(u.calls, w.calls[i].Key()) == SendsFor(w.calls, w.calls[i].Key())
    ensures KeyOk(u, w.calls[i].Key())
  {
    hide SendsFor;
    hide DeliveryStore.Key;
    hide SendsOk;
  }

  lemma OwnKeyAfterMove(w: World, u: World, i: nat, sendOk: bool, error: string)
    requires i < |w.calls| && CallOk(w, i) && KeyOk(w, w.calls[i].Key())
    requires !w.calls[i].at.Sent? && !w.calls[i].at.Sleeping? && w.calls[i].at != Checked(false)
    requires u == AdvanceCall(w, i, sendOk, error)
    requires SendsFor(u.calls, w.calls[i].Key())
             == SendsFor(w.calls, w.calls[i].Key()) + u.calls[i].sends - w.calls[i].sends
    ensures KeyOk(u, w.calls[i].Key())
  {
    hide SendsFor;
    hide DeliveryStore.Key;
    hide SendsOk;
  }

  lemma ApplyKeepsInv(w: World, step: Step)
    requires Inv(w)
    ensures Inv(Apply(w, step))
  {
    if step.Begin? {
      BeginKeepsInv(w, step);
    } else if step.call < |w.calls| {
      var u := Apply(w, step);
      assert CallOk(w, step.call) && KeyOk(w, w.calls[step.call].Key());
      forall j | 0 <= j < |u.calls| ensures CallOk(u, j) {
        if j == step.call {
          MovedCallOk(w, j, step.sendOk, step.error);
        } else {
          OtherCallStays(w, step.call, step.sendOk, step.error, j);
        }
      }
      AdvanceIsFramed(w, step.call, step.sendOk, step.error);
      forall key ensures KeyOk(u, key) {
        assert KeyOk(w, key);
        if key == w.calls[step.call].Key() {
          OwnKeyOk(w, step.call, step.sendOk, step.error);
        } else {
          OtherKeyStays(w, u, step.call, key);
        }
      }
    }
  }

  lemma {:induction false} RunKeepsInv(w: World, steps: seq<Step>)
    requires Inv(w)
    ensures Inv(Run(w, steps))
    decreases |steps|
  {
    if steps != [] {
      ApplyKeepsInv(w, steps[0]);
      RunKeepsInv(Apply(w, steps[0]), steps[1..]);
    }
  }

  lemma EmptyInv()
    ensures Inv(Empty)
  {
  }

  // ---------------------------------------------------------------- what every run keeps

  ghost predicate Reachable(w: World) {
    exists steps: seq<Step> :: w == Run(Empty, steps)
  }

  lemma ReachableInv(w: World)
    requires Reachable(w)
    ensures Inv(w)
  {
    var steps: seq<Step> :| w == Run(Empty, steps);
    EmptyInv();
    RunKeepsInv(Empty, steps);
  }

  /** For one event and channel, at most one call is between a granted claim and the mark that ends it. */
  lemma OneSendInFlight(w: World, i: nat, j: nat)
    requires Reachable(w) && i < |w.calls| && j < |w.calls| && i != j && w.calls[i].Key() == w.calls[j].Key()
    ensures !(w.calls[i].at.Holds() && w.calls[j].at.Holds())
  {
    ReachableInv(w);
    assert CallOk(w, i) && CallOk(w, j);
  }

  /** Once a send has succeeded, no call can start another, and only its own call can report it delivered. */
  lemma NoSendAfterSuccess(w: World, i: nat, j: nat)
    requires Reachable(w) && i < |w.calls| && j < |w.calls| && w.calls[i].Key() == w.calls[j].Key()
    requires w.calls[i].at.Won()
    ensures !w.calls[j].at.Sending? && !(w.calls[j].at.Claimed? && w.calls[j].at.granted.Some?)
    ensures w.calls[j].at.Won() ==> j == i
  {
    ReachableInv(w);
    assert CallOk(w, i) && CallOk(w, j) && KeyOk(w, w.calls[i].Key());
  }

  /** The stored attempts are the sends that the calls have started, but for a claim whose send is still to come. */
  lemma AttemptsAreSends(w: World, key: string)
    requires Reachable(w)
    ensures key !in w.records ==> SendsFor(w.calls, key) == 0
    ensures key in w.records ==>
              w.records[key].attempts == SendsFor(w.calls, key) + if ClaimPending(w, key) then 1 else 0
    ensures ClaimPending(w, key) ==>
              exists i :: 0 <= i < |w.calls| && w.calls[i].Key() == key && w.calls[i].at.Claimed? && w.calls[i].at.granted.Some?
  {
    ReachableInv(w);
    assert KeyOk(w, key);
    if ClaimPending(w, key) {
      assert w.calls[w.owner[key]].Key() == key;
    }
  }

  /** No call sends more than maxRetries + 1 times, and one that reports a failure has sent exactly that often. */
  lemma SendsWithinBudget(w: World, i: nat)
    requires Reachable(w) && i < |w.calls|
    ensures w.calls[i].sends <= Budget(w.calls[i])
    ensures w.calls[i].at == Done(ReportedFailed) ==> w.calls[i].sends == Budget(w.calls[i])
  {
    ReachableInv(w);
    assert CallOk(w, i);
  }

  /** When every call has returned: delivered in the store if and only if exactly one call reported it. */
  lemma ExactlyOneReports(w: World, key: string)
    requires Reachable(w) && forall i :: 0 <= i < |w.calls| ==> w.calls[i].at.Done?
    ensures key in w.records ==> w.records[key].status.Delivered? || w.records[key].status.Failed?
    ensures key in w.records && w.records[key].status.Delivered? <==>
            exists i :: 0 <= i < |w.calls| && w.calls[i].Key() == key && w.calls[i].at == Done(ReportedDelivered)
    ensures forall i, j :: (0 <= i < |w.calls| && 0 <= j < |w.calls| && w.calls[i].Key() == w.calls[j].Key() == key
                            && w.calls[i].at == w.calls[j].at == Done(ReportedDelivered)) ==> i == j
  {
    ReachableInv(w);
    assert KeyOk(w, key);
    if key in w.records && w.records[key].status.Delivered? {
      var i := w.winner[key];
      assert w.calls[i].Key() == key && w.calls[i].at == Done(ReportedDelivered);
    }
    forall i | 0 <= i < |w.calls| && w.calls[i].Key() == key && w.calls[i].at == Done(ReportedDelivered)
      ensures key in w.winner && w.winner[key] == i && key !in w.owner
    {
      assert CallOk(w, i);
    }
  }

  // ---------------------------------------------------------------- what a longer run adds

  // A finished call keeps its result, a success is never undone, and a record keeps its notification id.
  ghost predicate Later(w: World, u: World) {
    && |w.calls| <= |u.calls|
    && (forall i {:trigger u.calls[i]} :: 0 <= i < |w.calls| ==>
          && u.calls[i].Key() == w.calls[i].Key()
          && (w.calls[i].at.Done? ==> u.calls[i].at == w.calls[i].at)
          && (w.calls[i].at.Won() ==> u.calls[i].at.Won())
          && w.calls[i].sends <= u.calls[i].sends)
    && (forall key {:trigger key in u.records} :: key in w.records ==>
          && key in u.records && u.records[key].notificationId == w.records[key].notificationId
          && w.records[key].attempts <= u.records[key].attempts)
  }

  lemma StepIsLater(w: World, step: Step)
    ensures Later(w, Apply(w, step))
  {
    hide DeliveryStore.Key;
    hide AdvanceCall;
    if step.Advance? && step.call < |w.calls| {
      var i := step.call;
      var u := AdvanceCall(w, i, step.sendOk, step.error);
      AdvanceIsFramed(w, i, step.sendOk, step.error);
      MovedCallIsLater(w, i, step.sendOk, step.error);
      forall key | key in w.records
        ensures key in u.records && u.records[key].notificationId == w.records[key].notificationId
                && w.records[key].attempts <= u.records[key].attempts
      {
        if key == w.calls[i].Key() {
          OwnRecordIsLater(w, i, step.sendOk, step.error);
        } else {
          assert SameAt(u.records, w.records, key) by { assert key in u.records || key !in u.records; }
        }
      }
    }
  }

  lemma MovedCallIsLater(w: World, i: nat, sendOk: bool, error: string)
    requires i < |w.calls|
    ensures var c, d := w.calls[i], AdvanceCall(w, i, sendOk, error).calls[i];
            && (c.at.Done? ==> d.at == c.at) && (c.at.Won() ==> d.at.Won()) && c.sends <= d.sends
  {
    hide DeliveryStore.Key;
    hide Call.Key;
    hide CanClaim;
    hide Granted;
  }

  lemma OwnRecordIsLater(w: World, i: nat, sendOk: bool, error: string)
    requires i < |w.calls| && w.calls[i].Key() in w.records
    ensures var u, key := AdvanceCall(w, i, sendOk, error), w.calls[i].Key();
            && key in u.records && u.records[key].notificationId == w.records[key].notificationId
            && w.records[key].attempts <= u.records[key].attempts
  {
    hide DeliveryStore.Key;
    hide CanClaim;
  }

  lemma {:induction false} RunIsLater(w: World, steps: seq<Step>)
    ensures Later(w, Run(w, steps))
    decreases |steps|
  {
    if steps != [] {
      var v := Apply(w, steps[0]);
      StepIsLater(w, steps[0]);
      RunIsLater(v, steps[1..]);
      LaterTransitive(w, v, Run(v, steps[1..]));
    }
  }

  lemma LaterTransitive(w: World, v: World, u: World)
    requires Later(w, v) && Later(v, u)
    ensures Later(w, u)
  {
    hide DeliveryStore.Key;
    forall i | 0 <= i < |w.calls|
      ensures u.calls[i].Key() == w.calls[i].Key() && (w.calls[i].at.Done? ==> u.calls[i].at == w.calls[i].at)
              && (w.calls[i].at.Won() ==> u.calls[i].at.Won()) && w.calls[i].sends <= u.calls[i].sends
    {
      assert v.calls[i].Key() == w.calls[i].Key();
    }
    forall key | key in w.records
      ensures key in u.records && u.records[key].notificationId == w.records[key].notificationId
              && w.records[key].attempts <= u.records[key].attempts
    {
      assert key in v.records;
    }
  }

  /** Every send for an event and channel, by whatever call and however late, carries the same notification id. */
  lemma OneNotificationId(w: World, steps: seq<Step>, i: nat, j: nat)
    requires Reachable(w) && i < |w.calls| && w.calls[i].at.Holds()
    requires j < |Run(w, steps).calls| && Run(w, steps).calls[j].at.Holds()
    requires Run(w, steps).calls[j].Key() == w.calls[i].Key()
    ensures Run(w, steps).calls[j].at.Id() == w.calls[i].at.Id()
  {
    var u, key := Run(w, steps), w.calls[i].Key();
    ReachableInv(w);
    RunKeepsInv(w, steps);
    RunIsLater(w, steps);
    assert CallOk(w, i) && CallOk(u, j);
    assert key in u.records;
  }

  lemma {:induction false} RunAppend(w: World, first: seq<Step>, second: seq<Step>)
    ensures Run(w, first + second) == Run(Run(w, first), second)
    decreases |first|
  {
    if first == [] {
      assert first + second == second;
    } else {
      assert (first + second)[1..] == first[1..] + second;
      RunAppend(Apply(w, first[0]), first[1..], second);
    }
  }

  lemma RunThree(w: World, a: Step, b: Step, c: Step)
    ensures Run(w, [a, b, c]) == Apply(Apply(Apply(w, a), b), c)
  {
    assert [a, b, c][1..] == [b, c] && [b, c][1..] == [c] && [c][1..] == [];
    assert Run(w, [a, b, c]) == Run(Apply(w, a), [b, c]) == Run(Apply(Apply(w, a), b), [c]);
  }

  function Go(i: nat): Step {
    Advance(i, false, "")
  }

  // Two calls without retries: the second checks before and claims after the first call's claim.
  function SkipSteps(event: string, id: string): seq<Step> {
    [Begin(event, Email, id, 0), Begin(event, Email, id, 0), Go(0)] + [Go(1), Go(0), Go(1)] + [Go(1), Go(0), Go(0)]
    + [Go(0), Go(0), Go(1)]
  }

  /**
   A skipped call promises nothing: of two calls, one is skipped because the
   other is sending, and that other then fails.
   */
  lemma SkippedWithoutDelivery(event: string, id: string)
    ensures var w := Run(Empty, SkipSteps(event, id));
            && |w.calls| == 2 && w.calls[0].at == Done(ReportedFailed) && w.calls[1].at == Done(ReportedSkipped)
            && Key(event, Email) in w.records && w.records[Key(event, Email)].status.Failed?
  {
    hide DeliveryStore.Key;
    var k := Key(event, Email);
    var c := Call(event, Email, id, 0, Fresh, 0);
    var r := Record(event, Email, id, Delivering, 1, None);
    var s1, s2, s3, s4 := [Begin(event, Email, id, 0), Begin(event, Email, id, 0), Go(0)], [Go(1), Go(0), Go(1)],
                          [Go(1), Go(0), Go(0)], [Go(0), Go(0), Go(1)];
    var w1 := World(map[], [c.(at := Checked(false)), c], map[], map[]);
    var w2 := World(map[k := r], [c.(at := Claimed(0, Some(id))), c.(at := Claimed(0, None))], map[k := 0], map[]);
    var w3 := World(map[k := r], [c.(at := Sent(0, id, false), sends := 1), c.(at := Done(ReportedSkipped))], map[k := 0], map[]);
    var w4 := World(map[k := r.(status := Failed, lastError := Some(""))],
                    [c.(at := Done(ReportedFailed), sends := 1), c.(at := Done(ReportedSkipped))], map[], map[]);
    RunAppend(Empty, s1 + s2 + s3, s4);
    RunAppend(Empty, s1 + s2, s3);
    RunAppend(Empty, s1, s2);
    SkipFirst(event, id, k, c);
    SkipSecond(event, id, k, c, r);
    SkipThird(event, id, k, c, r);
    SkipFourth(event, id, k, c, r);
    assert SkipSteps(event, id) == s1 + s2 + s3 + s4;
    hide Run;
    assert Run(Empty, s1) == w1 && Run(w1, s2) == w2 && Run(w2, s3) == w3 && Run(w3, s4) == w4;
  }

  lemma SkipFirst(event: string, id: string, k: string, c: Call)
    requires k == Key(event, Email) && c == Call(event, Email, id, 0, Fresh, 0)
    ensures Run(Empty, [Begin(event, Email, id, 0), Begin(event, Email, id, 0), Go(0)])
            == World(map[], [c.(at := Checked(false)), c], map[], map[])
  {
    hide DeliveryStore.Key;
    RunThree(Empty, Begin(event, Email, id, 0), Begin(event, Email, id, 0), Go(0));
  }

  lemma SkipSecond(event: string, id: string, k: string, c: Call, r: Record)
    requires k == Key(event, Email) && c == Call(event, Email, id, 0, Fresh, 0)
    requires r == Record(event, Email, id, Delivering, 1, None)
    ensures Run(World(map[], [c.(at := Checked(false)), c], map[], map[]), [Go(1), Go(0), Go(1)])
            == World(map[k := r], [c.(at := Claimed(0, Some(id))), c.(at := Claimed(0, None))], map[k := 0], map[])
  {
    hide DeliveryStore.Key;
    RunThree(World(map[], [c.(at := Checked(false)), c], map[], map[]), Go(1), Go(0), Go(1));
  }

  lemma SkipThird(event: string, id: string, k: string, c: Call, r: Record)
    requires k == Key(event, Email) && c == Call(event, Email, id, 0, Fresh, 0)
    requires r == Record(event, Email, id, Delivering, 1, None)
    ensures Run(World(map[k := r], [c.(at := Claimed(0, Some(id))), c.(at := Claimed(0, None))], map[k := 0], map[]),
                [Go(1), Go(0), Go(0)])
            == World(map[k := r], [c.(at := Sent(0, id, false), sends := 1), c.(at := Done(ReportedSkipped))],
                     map[k := 0], map[])
  {
    hide DeliveryStore.Key;
    RunThree(World(map[k := r], [c.(at := Claimed(0, Some(id))), c.(at := Claimed(0, None))], map[k := 0], map[]),
             Go(1), Go(0), Go(0));
  }

  lemma SkipFourth(event: string, id: string, k: string, c: Call, r: Record)
    requires k == Key(event, Email) && c == Call(event, Email, id, 0, Fresh, 0)
    requires r == Record(event, Email, id, Delivering, 1, None)
    ensures Run(World(map[k := r], [c.(at := Sent(0, id, false), sends := 1), c.(at := Done(ReportedSkipped))],
                      map[k := 0], map[]), [Go(0), Go(0), Go(1)])
            == World(map[k := r.(status := Failed, lastError := Some(""))],
                     [c.(at := Done(ReportedFailed), sends := 1), c.(at := Done(ReportedSkipped))], map[], map[])
  {
    hide DeliveryStore.Key;
    RunThree(World(map[k := r], [c.(at := Sent(0, id, false), sends := 1), c.(at := Done(ReportedSkipped))],
                   map[k := 0], map[]), Go(0), Go(0), Go(1));
    assert map[k := 0] - {k} == map[];
  }

  // ---------------------------------------------------------------- how a skipped call ends

  // The points from which a call can only report a skip.
  predicate Skips(p: Point) {
    p == Checked(true) || (p.Claimed? && p.granted.None?) || p == Done(ReportedSkipped)
  }

  predicate DeliveredIn(w: World, key: string) {
    key in w.records && w.records[key].status.Delivered?
  }

  lemma DeliveredStep(w: World, step: Step, key: string)
    requires Inv(w) && DeliveredIn(w, key)
    ensures DeliveredIn(Apply(w, step), key)
  {
    hide DeliveryStore.Key;
    hide SendsFor;
    hide SendsOk;
    if step.Advance? && step.call < |w.calls| {
      assert CallOk(w, step.call) && KeyOk(w, key);
      if w.calls[step.call].Key() != key {
        AdvanceIsFramed(w, step.call, step.sendOk, step.error);
        var u := Apply(w, step);
        assert SameAt(u.records, w.records, key) by { assert key in u.records || key !in u.records; }
      }
    }
  }

  /** A delivered record stays delivered. */
  lemma {:induction false} DeliveredForGood(w: World, steps: seq<Step>, key: string)
    requires Inv(w) && DeliveredIn(w, key)
    ensures DeliveredIn(Run(w, steps), key)
    decreases |steps|
  {
    if steps != [] {
      DeliveredStep(w, steps[0], key);
      ApplyKeepsInv(w, steps[0]);
      DeliveredForGood(Apply(w, steps[0]), steps[1..], key);
    }
  }

  lemma {:induction false} SkipperReportsIt(w: World, steps: seq<Step>, i: nat)
    requires i < |w.calls| && Skips(w.calls[i].at)
    ensures i < |Run(w, steps).calls| && Skips(Run(w, steps).calls[i].at)
    decreases |steps|
  {
    hide DeliveryStore.Key;
    hide CanClaim;
    hide Granted;
    if steps != [] {
      SkipperReportsIt(Apply(w, steps[0]), steps[1..], i);
    }
  }

  // A call with no send under way has started a new one whenever it is sending or past a success.
  predicate NewSend(c: Call, before: nat) {
    before <= c.sends && (c.at.Sending? || c.at.Sent? || c.at.Won() ==> before < c.sends)
  }

  lemma NewSendStep(w: World, step: Step, j: nat, before: nat)
    requires j < |w.calls| && NewSend(w.calls[j], before)
    ensures j < |Apply(w, step).calls| && NewSend(Apply(w, step).calls[j], before)
  {
    hide DeliveryStore.Key;
    hide CanClaim;
    hide Granted;
    if step.Advance? && step.call < |w.calls| && step.call != j {
      AdvanceIsFramed(w, step.call, step.sendOk, step.error);
    }
  }

  lemma {:induction false} SuccessNeedsNewSend(w: World, steps: seq<Step>, j: nat, before: nat)
    requires j < |w.calls| && NewSend(w.calls[j], before)
    ensures j < |Run(w, steps).calls| && NewSend(Run(w, steps).calls[j], before)
    decreases |steps|
  {
    hide NewSend;
    hide Apply;
    if steps != [] {
      NewSendStep(w, steps[0], j, before);
      SuccessNeedsNewSend(Apply(w, steps[0]), steps[1..], j, before);
    }
  }

  // The call that reports the delivery is the one at work in w, or sends after w.
  predicate DeliversAfter(w: World, u: World, key: string, j: nat) {
    && j < |u.calls| && u.calls[j].Key() == key && u.calls[j].at == Done(ReportedDelivered)
    && (j >= |w.calls| || (key in w.owner && w.owner[key] == j) || w.calls[j].sends < u.calls[j].sends)
  }

  lemma LateReporter(w: World, steps: seq<Step>, key: string, j: nat)
    requires Inv(w) && key in w.owner && j < |Run(w, steps).calls|
    requires Run(w, steps).calls[j].Key() == key && Run(w, steps).calls[j].at == Done(ReportedDelivered)
    ensures DeliversAfter(w, Run(w, steps), key, j)
  {
    hide DeliveryStore.Key;
    RunIsLater(w, steps);
    if j < |w.calls| && w.owner[key] != j {
      assert Run(w, steps).calls[j].Key() == w.calls[j].Key();
      assert CallOk(w, j) && KeyOk(w, key);
      SuccessNeedsNewSend(w, steps, j, w.calls[j].sends);
    }
  }

  // The step in which a call decides to skip.
  predicate DecidesToSkip(w: World, i: nat, step: Step) {
    step.Advance? && step.call == i < |w.calls| && !Skips(w.calls[i].at) && Skips(Apply(w, step).calls[i].at)
  }

  lemma SkipIsDecidedOn(w: World, i: nat, step: Step)
    requires Inv(w) && DecidesToSkip(w, i, step)
    ensures var key := w.calls[i].Key(); DeliveredIn(w, key) || (key in w.owner && w.owner[key] != i)
    ensures Apply(w, step).records == w.records && Apply(w, step).owner == w.owner
    ensures forall j :: 0 <= j < |w.calls| ==> Apply(w, step).calls[j].sends == w.calls[j].sends
  {
    hide DeliveryStore.Key;
    hide SendsFor;
    hide SendsOk;
    assert KeyOk(w, w.calls[i].Key()) && CallOk(w, i);
  }

  /**
   What a skip is worth. It is decided on a record that is delivered already, or
   that another call is at work on. Once all calls have returned the event is
   delivered exactly when it was delivered then, or that call or a later send succeeds.
   */
  lemma SkipEndsDeliveredIff(w: World, i: nat, step: Step, steps: seq<Step>)
    requires Reachable(w) && DecidesToSkip(w, i, step)
    requires forall j :: 0 <= j < |Run(Apply(w, step), steps).calls| ==> Run(Apply(w, step), steps).calls[j].at.Done?
    ensures var u, key := Run(Apply(w, step), steps), w.calls[i].Key();
            && i < |u.calls| && u.calls[i].at == Done(ReportedSkipped)
            && (DeliveredIn(w, key) || (key in w.owner && w.owner[key] != i))
            && (DeliveredIn(u, key) <==> DeliveredIn(w, key) || exists j: nat :: DeliversAfter(w, u, key, j))
  {
    hide DeliveryStore.Key;
    var v, key := Apply(w, step), w.calls[i].Key();
    var u := Run(v, steps);
    ReachableInv(w);
    ApplyKeepsInv(w, step);
    SkipIsDecidedOn(w, i, step);
    SkipperReportsIt(v, steps, i);
    LaterIsReachable(w, step, steps);
    ExactlyOneReports(u, key);
    if DeliveredIn(w, key) {
      DeliveredForGood(v, steps, key);
    } else if DeliveredIn(u, key) {
      var j: nat :| j < |u.calls| && u.calls[j].Key() == key && u.calls[j].at == Done(ReportedDelivered);
      LateReporter(v, steps, key, j);
      assert DeliversAfter(w, u, key, j);
    }
  }

  lemma LaterIsReachable(w: World, step: Step, steps: seq<Step>)
    requires Reachable(w)
    ensures Reachable(Run(Apply(w, step), steps))
  {
    var first: seq<Step> :| w == Run(Empty, first);
    RunAppend(Empty, first, [step] + steps);
    assert ([step] + steps)[1..] == steps;
  }

  // ---------------------------------------------------------------- the loops of the code

  function AttemptsOf(records: Records, key: string): nat {
    if key in records then records[key].attempts else 0
  }

  // The id that sends for a key carry: that of the first claim.
  function IdOf(records: Records, key: string, notificationId: string): string {
    if key in records then records[key].notificationId else notificationId
  }

  // deliverChannel with nobody else at work; failure says how an attempt fails, if it does.
  method DeliverChannel(store: InMemoryNotificationDeliveryStore, event: string, channel: Channel, notificationId: string,
                        maxRetries: int, failure: nat -> Option<string>) returns (report: Report, sends: nat)
    modifies store
    ensures report.ReportedSkipped? <==>
            var key := Key(event, channel);
            key in old(store.records) && (old(store.records)[key].status.Delivered?
                                          || (old(store.records)[key].status.Delivering? && maxRetries >= 0))
    ensures report.ReportedSkipped? ==> sends == 0 && store.records == old(store.records)
    ensures report.ReportedDelivered? ==> 1 <= sends <= maxRetries + 1 && failure(sends - 1).None?
                                          && (forall a :: 0 <= a < sends - 1 ==> failure(a).Some?)
    ensures report.ReportedFailed? ==> sends == (if maxRetries < 0 then 0 else maxRetries + 1)
                                       && (forall a :: 0 <= a < sends ==> failure(a).Some?)
    ensures sends > 0 ==> Key(event, channel) in store.records
                          && store.records[Key(event, channel)].status == (if report.ReportedDelivered? then Delivered else Failed)
                          && store.records[Key(event, channel)].lastError == failure(sends - 1)
                          && store.records[Key(event, channel)].notificationId
                             == IdOf(old(store.records), Key(event, channel), notificationId)
    ensures AttemptsOf(store.records, Key(event, channel)) == AttemptsOf(old(store.records), Key(event, channel)) + sends
    ensures store.records - {Key(event, channel)} == old(store.records) - {Key(event, channel)}
  {
    hide DeliveryStore.Key;
    ghost var key := Key(event, channel);
    sends := 0;
    var existing := store.GetDelivery(event, channel);
    if existing.Some? && existing.value.status.Delivered? {
      return ReportedSkipped, 0;
    }
    var attempt := 0;
    while attempt <= maxRetries
      invariant sends == attempt && (maxRetries >= 0 ==> attempt <= maxRetries + 1) && (maxRetries < 0 ==> attempt == 0)
      invariant forall a :: 0 <= a < attempt ==> failure(a).Some?
      invariant attempt == 0 ==> store.records == old(store.records)
      invariant attempt > 0 ==> key in store.records && store.records[key].status.Failed? && CanClaim(old(store.records), key)
                                && store.records[key].lastError == failure(attempt - 1)
      invariant IdOf(store.records, key, notificationId) == IdOf(old(store.records), key, notificationId)
      invariant AttemptsOf(store.records, key) == AttemptsOf(old(store.records), key) + sends
      invariant store.records - {key} == old(store.records) - {key}
      decreases maxRetries - attempt
    {
      var claimed := store.ClaimDelivery(event, channel, notificationId);
      if claimed.None? {
        return ReportedSkipped, sends;
      }
      sends := sends + 1;
      if failure(attempt).None? {
        store.MarkDelivered(event, channel);
        return ReportedDelivered, sends;
      }
      store.MarkFailed(event, channel, failure(attempt).value);
      attempt := attempt + 1;
    }
    return ReportedFailed, sends;
  }

  // How one of the two channel promises settled.
  datatype Settled =
    | Fulfilled(channel: Channel, status: Report)
    | ChannelFailed(channel: Channel)
    | OtherFailure

  // The end of notifySlashing: the statuses by channel, or the channels that failed.
  method CollectResults(settled: seq<Settled>) returns (result: map<Channel, Report>, failures: set<Channel>)
    requires |settled| == 2
    requires settled[0] == OtherFailure || settled[0].channel == Email
    requires settled[1] == OtherFailure || settled[1].channel == Webhook
    ensures result.Keys == {Email, Webhook}
    ensures failures == {} <==> settled[0].Fulfilled? && settled[1].Fulfilled?
    ensures failures == {} ==> result == map[Email := settled[0].status, Webhook := settled[1].status]
    ensures Email in failures <==> settled[0].ChannelFailed? || OtherFailure in settled
    ensures Webhook in failures <==> settled[1].ChannelFailed? || OtherFailure in settled
  {
    failures := {};
    result := map[Email := ReportedSkipped, Webhook := ReportedSkipped];
    for i := 0 to |settled|
      invariant result.Keys == {Email, Webhook}
      invariant Email in failures <==> (i > 0 && settled[0].ChannelFailed?) || OtherFailure in settled[..i]
      invariant Webhook in failures <==> (i > 1 && settled[1].ChannelFailed?) || OtherFailure in settled[..i]
      invariant i > 0 && settled[0].Fulfilled? ==> result[Email] == settled[0].status
      invariant i > 1 && settled[1].Fulfilled? ==> result[Webhook] == settled[1].status
    {
      assert settled[..i + 1] == settled[..i] + [settled[i]];
      match settled[i]
      case Fulfilled(channel, status) => result := result[channel := status];
      case ChannelFailed(channel) => failures := failures + {channel};
      case OtherFailure => failures := failures + {Email, Webhook};
    }
    assert settled[..|settled|] == settled;
    assert failures == {} <==> Email !in failures && Webhook !in failures by {
      forall c | c in failures ensures c == Email || c == Webhook {}
    }
    assert OtherFailure in settled <==> settled[0] == OtherFailure || settled[1] == OtherFailure;
  }
}
