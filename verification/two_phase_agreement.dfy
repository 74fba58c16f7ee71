/**
 Agreement of node_status with the chain, under the assumptions the protocol
 needs.
 */
module TwoPhaseAgreement {
  import opened Common
  import opened TwoPhase
  import opened TwoPhaseRuns

  // ------------------------------------------------------------ paths of the status graph

  ghost predicate Path(h: seq<Status>) {
    h != [] && forall i :: 0 < i < |h| ==> h[i] in Allowed(h[i - 1])
  }

  function Rank(s: Status): nat {
    match s case Provisioned => 0 case Pending => 1 case Active => 2 case Slashed => 3 case Archived => 4
  }

  /** A committed history has at most four steps: every allowed edge goes up. */
  lemma {:induction false} PathsAreShort(h: seq<Status>)
    requires Path(h)
    ensures |h| - 1 <= Rank(h[|h| - 1]) - Rank(h[0]) <= 4
  {
    if |h| > 1 {
      var front := h[..|h| - 1];
      assert front[|front| - 1] == h[|h| - 2];
      PathsAreShort(front);
      assert h[|h| - 1] in Allowed(h[|h| - 2]);
    }
  }

  // ------------------------------------------------------------ the assumptions

  // No transition or admin call is in flight for the node.
  predicate NoCallOn(w: World, node: Node) {
    forall id :: id in w.calls ==> w.calls[id].node == node ==> w.calls[id].Sweeping?
  }

  predicate HoldsRow(c: Call) {
    c.Sending? || c.Confirmed? || c.Refused? || c.Exhausted?
  }

  /**
   Calls on one node do not overlap, each ends before its row expires, replies of
   contract and commit are faithful, nothing crashes and the COMMIT_FAILED marker gets written,
   and admins resolve the marked rows they find with commit.  Sweeps are free.
   */
  predicate Disciplined(w: World, e: Event) {
    match e
    case Tick(ms) => forall id :: id in w.calls ==> HoldsRow(w.calls[id]) && w.calls[id].node in w.tables.tentative ==>
                       w.now + ms <= w.tables.tentative[w.calls[id].node].expiresAt
    case Begin(_, node, _) => NoCallOn(w, node)
    case AdminReads(_, node, commit) => NoCallOn(w, node) && commit
    case RpcReplyLost(_) => false
    case CommitReplyLost(_) => false
    case MarkFails(_) => false
    case Crash(_) => false
    case _ => true
  }

  predicate DisciplinedRun(w: World, events: seq<Event>) {
    events == [] || (DisciplinedRun(w, events[..|events| - 1]) && Disciplined(Run(w, events[..|events| - 1]), events[|events| - 1]))
  }

  // ------------------------------------------------------------ the invariant

  // Between calls: agreement, or a marked PENDING row whose target is what the chain says.
  ghost predicate Settled(w: World, n: Node) {
    && n in w.tables.status && n in w.chain
    && if w.tables.HasPending(n) then
         w.tables.tentative[n].commitFailed && w.tables.tentative[n].target == w.chain[n] && w.chain[n] in Allowed(w.tables.status[n])
       else
         w.tables.status[n] == w.chain[n]
  }

  // The row of a call in flight: its own, unmarked and unexpired, with node_status still as it was read.
  ghost predicate OwnsRow(w: World, n: Node, target: Status, from: Status, key: Key) {
    && w.tables.HasPending(n) && n in w.tables.status && n in w.chain
    && w.tables.tentative[n].target == target && w.tables.tentative[n].key == key
    && !w.tables.tentative[n].commitFailed && w.now <= w.tables.tentative[n].expiresAt
    && w.tables.status[n] == from && target in Allowed(from)
  }

  ghost predicate CallOk(w: World, c: Call) {
    match c
    case Reading(n, target, from) => Settled(w, n) && w.tables.status[n] == from && target in Allowed(from)
    case Sending(n, target, from, key) => OwnsRow(w, n, target, from, key) && w.chain[n] == from
    case Refused(n, target, from, key) => OwnsRow(w, n, target, from, key) && w.chain[n] == from
    case Confirmed(n, target, from, key, _) => OwnsRow(w, n, target, from, key) && w.chain[n] == target
    case Exhausted(n, target, from, key) => OwnsRow(w, n, target, from, key) && w.chain[n] == target
    case ForceCommitting(n, target) => Settled(w, n) && w.tables.HasPending(n) && w.tables.tentative[n].target == target
    case ForceRollingBack(_, _, _) => false
    case Sweeping(_, _, _) => false
  }

  ghost predicate NodeOk(w: World, n: Node) {
    && (NoCallOn(w, n) ==> Settled(w, n))
    && n in w.tables.status && n in w.history && Path(w.history[n])
    && w.history[n][|w.history[n]| - 1] == w.tables.status[n]
  }

  ghost predicate OneCallPerNode(w: World) {
    forall id1, id2 :: id1 in w.calls && id2 in w.calls && w.calls[id1].node == w.calls[id2].node ==> id1 == id2
  }

  ghost predicate LogNamesItsRecords(w: World) {
    |w.tables.log| == |w.rolledBack| && forall i :: 0 <= i < |w.rolledBack| ==> w.tables.log[i].key == w.rolledBack[i]
  }

  ghost predicate Agreement(w: World) {
    && (forall n :: n in w.tables.tentative ==> n in w.tables.status)
    && OneCallPerNode(w)
    && (forall id {:trigger CallOk(w, w.calls[id])} :: id in w.calls ==> CallOk(w, w.calls[id]))
    && (forall n {:trigger NodeOk(w, n)} :: n in w.tables.status ==> NodeOk(w, n))
    && LogNamesItsRecords(w)
  }

  // ------------------------------------------------------------ one step

  // What a call or a settled node looks at.
  ghost predicate SameNode(w: World, next: World, n: Node) {
    && (n in w.tables.status <==> n in next.tables.status) && (n in w.tables.status ==> next.tables.status[n] == w.tables.status[n])
    && (n in w.tables.tentative <==> n in next.tables.tentative)
    && (n in w.tables.tentative ==> next.tables.tentative[n] == w.tables.tentative[n])
    && (n in w.chain <==> n in next.chain) && (n in w.chain ==> next.chain[n] == w.chain[n])
    && (n in w.history <==> n in next.history) && (n in w.history ==> next.history[n] == w.history[n])
  }

  // A step of call `id` on node `n`: every other node and call is as it was.
  ghost predicate OnlyNode(w: World, next: World, n: Node, id: nat) {
    && next.now == w.now
    && (forall m {:trigger SameNode(w, next, m)} :: m != n ==> SameNode(w, next, m))
    && (forall k :: k != id ==> (k in next.calls <==> k in w.calls))
    && (forall k :: k != id && k in w.calls ==> next.calls[k] == w.calls[k])
    && (id in next.calls ==> next.calls[id].node == n)
    && (n in next.tables.tentative ==> n in next.tables.status)
  }

  lemma OnlyNodeAgrees(w: World, next: World, n: Node, id: nat)
    requires Agreement(w) && OnlyNode(w, next, n, id) && LogNamesItsRecords(next)
    requires forall k :: k in w.calls && k != id ==> w.calls[k].node != n
    requires id in w.calls ==> w.calls[id].node == n
    requires id in next.calls ==> CallOk(next, next.calls[id])
    requires n in next.tables.status ==> NodeOk(next, n)
    ensures Agreement(next)
  {
    forall m | m in next.tables.tentative ensures m in next.tables.status { if m != n { assert SameNode(w, next, m); } }
    forall k | k in next.calls ensures CallOk(next, next.calls[k]) {
      if k != id {
        assert CallOk(w, w.calls[k]);
        assert SameNode(w, next, w.calls[k].node);
      }
    }
    forall m | m in next.tables.status ensures NodeOk(next, m) {
      if m != n {
        assert SameNode(w, next, m) && NodeOk(w, m);
        if NoCallOn(next, m) {
          forall k | k in w.calls && w.calls[k].node == m ensures w.calls[k].Sweeping? { assert k in next.calls; }
        }
      }
    }
  }

  lemma TickAgrees(w: World, ms: nat)
    requires Agreement(w) && Disciplined(w, Tick(ms))
    ensures Agreement(Apply(w, Tick(ms)))
  {
    var next := Apply(w, Tick(ms));
    forall id | id in next.calls ensures CallOk(next, next.calls[id]) { assert CallOk(w, w.calls[id]); }
    forall n | n in next.tables.status ensures NodeOk(next, n) { assert NodeOk(w, n); }
  }

  // Between calls no sweeper finds anything: every PENDING row is marked, or its call is still within its TTL.
  lemma SweepsSelectNothing(w: World, n: Node)
    requires Agreement(w)
    ensures !w.tables.SweepSelects(n, w.now)
  {
    if w.tables.HasPending(n) {
      assert NodeOk(w, n);
      if !NoCallOn(w, n) {
        var id :| id in w.calls && w.calls[id].node == n && !w.calls[id].Sweeping?;
        assert CallOk(w, w.calls[id]);
      }
    }
  }

  lemma NoCallMeansNone(w: World, n: Node)
    requires Agreement(w) && NoCallOn(w, n)
    ensures forall id :: id in w.calls ==> w.calls[id].node != n
  {
    forall id | id in w.calls ensures w.calls[id].node != n { assert CallOk(w, w.calls[id]); }
  }

  lemma BeginAgrees(w: World, id: nat, n: Node, target: Status)
    requires Agreement(w) && Disciplined(w, Begin(id, n, target))
    ensures Agreement(Apply(w, Begin(id, n, target)))
  {
    var next := Apply(w, Begin(id, n, target));
    NoCallMeansNone(w, n);
    if next != w {
      assert NodeOk(w, n);
      assert !NoCallOn(next, n) by { assert id in next.calls; }
      OnlyNodeAgrees(w, next, n, id);
    }
  }

  lemma AdminReadsAgrees(w: World, id: nat, n: Node)
    requires Agreement(w) && NoCallOn(w, n)
    ensures Agreement(Apply(w, AdminReads(id, n, true)))
  {
    var next := Apply(w, AdminReads(id, n, true));
    NoCallMeansNone(w, n);
    if next != w {
      assert NodeOk(w, n);
      assert !NoCallOn(next, n) by { assert id in next.calls; }
      OnlyNodeAgrees(w, next, n, id);
    }
  }

  // A step of a call that stays in flight and leaves node_status alone.
  lemma CallGoesOn(w: World, next: World, id: nat)
    requires Agreement(w) && id in w.calls && id in next.calls
    requires var n := w.calls[id].node; OnlyNode(w, next, n, id) && next.tables.status == w.tables.status && next.history == w.history
    requires next.tables.log == w.tables.log && next.rolledBack == w.rolledBack
    requires CallOk(next, next.calls[id])
    ensures Agreement(next)
  {
    var n := w.calls[id].node;
    if n in w.tables.status { assert NodeOk(w, n); }
    assert !NoCallOn(next, n) by { assert CallOk(next, next.calls[id]); }
    OnlyNodeAgrees(w, next, n, id);
  }

  // The end of a call.
  lemma CallEnds(w: World, next: World, id: nat)
    requires Agreement(w) && id in w.calls && id !in next.calls
    requires var n := w.calls[id].node;
             && OnlyNode(w, next, n, id) && Settled(next, n)
             && n in next.history && Path(next.history[n]) && next.history[n][|next.history[n]| - 1] == next.tables.status[n]
    requires LogNamesItsRecords(next)
    ensures Agreement(next)
  {
    OnlyNodeAgrees(w, next, w.calls[id].node, id);
  }

  lemma Phase1Agrees(w: World, id: nat, key: Key)
    requires Agreement(w)
    ensures Agreement(Apply(w, Phase1(id, key)))
  {
    var next := Apply(w, Phase1(id, key));
    if next != w {
      var c := w.calls[id];
      assert CallOk(w, c) && NodeOk(w, c.node);
      if w.tables.HasPending(c.node) {
        CallEnds(w, next, id);
      } else {
        CallGoesOn(w, next, id);
      }
    }
  }

  lemma RpcSucceedsAgrees(w: World, id: nat)
    requires Agreement(w)
    ensures Agreement(Apply(w, RpcSucceeds(id)))
  {
    if id in w.calls && w.calls[id].Sending? {
      assert CallOk(w, w.calls[id]);
      CallGoesOn(w, Apply(w, RpcSucceeds(id)), id);
    }
  }

  lemma RpcFailsAgrees(w: World, id: nat)
    requires Agreement(w)
    ensures Agreement(Apply(w, RpcFails(id)))
  {
    if id in w.calls && w.calls[id].Sending? {
      assert CallOk(w, w.calls[id]);
      CallGoesOn(w, Apply(w, RpcFails(id)), id);
    }
  }

  lemma CommitFailsAgrees(w: World, id: nat)
    requires Agreement(w)
    ensures Agreement(Apply(w, CommitFails(id)))
  {
    if id in w.calls && w.calls[id].Confirmed? {
      assert CallOk(w, w.calls[id]);
      CallGoesOn(w, Apply(w, CommitFails(id)), id);
    }
  }

  lemma CommitAgrees(w: World, id: nat)
    requires Agreement(w)
    ensures Agreement(Apply(w, CommitSucceeds(id)))
  {
    if id in w.calls && w.calls[id].Confirmed? {
      assert CallOk(w, w.calls[id]) && NodeOk(w, w.calls[id].node);
      CallEnds(w, Apply(w, CommitSucceeds(id)), id);
    }
  }

  lemma MarkAgrees(w: World, id: nat)
    requires Agreement(w)
    ensures Agreement(Apply(w, MarkSucceeds(id)))
  {
    if id in w.calls && w.calls[id].Exhausted? {
      assert CallOk(w, w.calls[id]) && NodeOk(w, w.calls[id].node);
      CallEnds(w, Apply(w, MarkSucceeds(id)), id);
    }
  }

  lemma RefusedAgrees(w: World, id: nat)
    requires Agreement(w)
    ensures Agreement(Apply(w, RollbackRefused(id)))
  {
    if id in w.calls && w.calls[id].Refused? {
      assert CallOk(w, w.calls[id]) && NodeOk(w, w.calls[id].node);
      CallEnds(w, Apply(w, RollbackRefused(id)), id);
    }
  }

  lemma AdminActsAgrees(w: World, id: nat)
    requires Agreement(w)
    ensures Agreement(Apply(w, AdminActs(id)))
  {
    if id in w.calls {
      assert CallOk(w, w.calls[id]);
      if w.calls[id].ForceCommitting? {
        assert NodeOk(w, w.calls[id].node);
        CallEnds(w, Apply(w, AdminActs(id)), id);
      }
    }
  }

  lemma StepAgrees(w: World, e: Event)
    requires Agreement(w) && Disciplined(w, e)
    ensures Agreement(Apply(w, e))
  {
    match e
    case Tick(ms) => TickAgrees(w, ms);
    case Begin(id, n, target) => BeginAgrees(w, id, n, target);
    case Phase1(id, key) => Phase1Agrees(w, id, key);
    case RpcSucceeds(id) => RpcSucceedsAgrees(w, id);
    case RpcFails(id) => RpcFailsAgrees(w, id);
    case CommitSucceeds(id) => CommitAgrees(w, id);
    case CommitFails(id) => CommitFailsAgrees(w, id);
    case MarkSucceeds(id) => MarkAgrees(w, id);
    case RollbackRefused(id) => RefusedAgrees(w, id);
    case AdminReads(id, n, commit) => AdminReadsAgrees(w, id, n);
    case AdminActs(id) => AdminActsAgrees(w, id);
    case SweepReads(id, n) => SweepsSelectNothing(w, n);
    case SweepActs(id) => if id in w.calls { assert CallOk(w, w.calls[id]); }
  }

  // ------------------------------------------------------------ theorems

  lemma StartAgrees(initial: map<Node, Status>, now: int)
    ensures Agreement(Start(initial, now))
  {
    var w := Start(initial, now);
    forall n | n in w.tables.status ensures NodeOk(w, n) { assert w.history[n] == [initial[n]]; }
  }

  /**
   After every disciplined run: a node without a call in flight agrees with the
   chain, or its row is PENDING, marked COMMIT_FAILED and targets what the chain
   says; every committed history is a path with at most four steps; and every log
   row names the record it rolled back.
   */
  lemma {:induction false} DisciplinedRunsAgree(initial: map<Node, Status>, now: int, events: seq<Event>)
    requires DisciplinedRun(Start(initial, now), events)
    ensures var w := Run(Start(initial, now), events);
            && Agreement(w)
            && (forall n :: n in w.tables.status && NoCallOn(w, n) ==> Settled(w, n))
            && (forall n :: n in w.tables.status ==> n in w.history && Path(w.history[n]) && |w.history[n]| <= 5)
            && LogNamesItsRecords(w)
  {
    if events == [] {
      StartAgrees(initial, now);
    } else {
      DisciplinedRunsAgree(initial, now, events[..|events| - 1]);
      StepAgrees(Run(Start(initial, now), events[..|events| - 1]), events[|events| - 1]);
    }
    var w := Run(Start(initial, now), events);
    forall n | n in w.tables.status
      ensures (NoCallOn(w, n) ==> Settled(w, n)) && n in w.history && Path(w.history[n]) && |w.history[n]| <= 5
    {
      assert NodeOk(w, n);
      PathsAreShort(w.history[n]);
    }
  }

  /**
   What getNodeStatus answers for a node without a call in flight, after every
   disciplined run: the chain's status, tentative exactly while the row is PENDING,
   except once a marked row has expired.
   */
  lemma ReadIsTheChainIff(initial: map<Node, Status>, now: int, events: seq<Event>, n: Node)
    requires DisciplinedRun(Start(initial, now), events) && n in initial && NoCallOn(Run(Start(initial, now), events), n)
    ensures var w := Run(Start(initial, now), events);
            var answer := w.tables.Read(n, w.now);
            && n in w.chain && answer.Some?
            && (answer.value.0 == w.chain[n] <==> !(w.tables.HasPending(n) && w.tables.tentative[n].expiresAt <= w.now))
            && (answer.value.0 == w.chain[n] ==> (answer.value.1 <==> w.tables.HasPending(n)))
  {
    var w := Run(Start(initial, now), events);
    EveryRunAccounts(initial, now, events);
    DisciplinedRunsAgree(initial, now, events);
    assert n in w.tables.status;
    assert NodeOk(w, n);
  }

  lemma Then(w0: World, events: seq<Event>, e: Event) returns (longer: seq<Event>)
    ensures longer == events + [e]
    ensures Run(w0, longer) == Apply(Run(w0, events), e)
  {
    RunExtends(w0, events, e);
    longer := events + [e];
  }

  // ------------------------------------------------------------ the method is a run

  // The only call that is not in `others`.
  ghost predicate Runs(w: World, id: nat, others: map<nat, Call>) {
    id !in others && id in w.calls && w.calls == others[id := w.calls[id]]
  }

  // What the returned result says about the row the call leaves: its own, committed, rolled back, or still PENDING.
  predicate ResultNamesTheRow(before: Tables, after: Tables, node: Node, key: Key, r: Result<TransitionResult, TransitionError>) {
    match r
    case Err(_) => after == before
    case Ok(done) =>
      && done.key == key && node in before.status && done.previous == before.status[node]
      && node in after.tentative && after.tentative[node].key == key && after.tentative[node].target == done.target
      && (done.committed <==> after.tentative[node].state == COMMITTED)
      && (done.rolledBack <==> after.tentative[node].state == ROLLED_BACK)
      && (done.committed <==> after.status == before.status[node := done.target])
  }

  lemma ResultOfTransition(t: Tables, node: Node, target: Status, env: Environment)
    requires |env.commitFails| == COMMIT_RETRY_ATTEMPTS
    ensures var (after, r) := TransitionAlone(t, node, target, env); ResultNamesTheRow(t, after, node, env.key, r)
  {
    if node in t.status && target in Allowed(t.status[node]) {
      assert t.status[node := target][node] != t.status[node];
    }
  }

  // The call passes its checks: its transition is allowed, and no row of the node is PENDING.
  predicate PassesChecks(t: Tables, node: Node, target: Status) {
    node in t.status && target in Allowed(t.status[node]) && !t.HasPending(node)
  }

  /**
   When a call alone is refused and why, and otherwise which of its three ends it has:
   rolled back exactly when the contract call failed, committed exactly when that
   succeeded and one of the two commits did, and else PENDING and marked if it can be.
   */
  lemma TransitionIff(t: Tables, node: Node, target: Status, env: Environment)
    requires |env.commitFails| == 2
    ensures var (after, r) := TransitionAlone(t, node, target, env);
            && (r == Err(NodeNotFound) <==> node !in t.status)
            && (r.Err? && r.error.IllegalTransition? <==> node in t.status && target !in Allowed(t.status[node]))
            && (r.Err? && r.error.IllegalTransition? ==> r.error.from == t.status[node])
            && (r == Err(AlreadyPending) <==> node in t.status && target in Allowed(t.status[node]) && t.HasPending(node))
            && (r.Ok? <==> PassesChecks(t, node, target))
            && (r.Err? ==> after == t)
            && (r.Ok? ==>
                  && r.value.previous == t.status[node] && r.value.target == target && r.value.key == env.key
                  && (r.value.rolledBack <==> !env.rpcSucceeds)
                  && (r.value.committed <==> env.rpcSucceeds && !(env.commitFails[0] && env.commitFails[1]))
                  && after == Tables(if r.value.committed then t.status[node := target] else t.status,
                                     t.tentative[node := Row(target, env.key,
                                                             if r.value.committed then COMMITTED else if r.value.rolledBack then ROLLED_BACK else PENDING,
                                                             !r.value.committed && !r.value.rolledBack && !env.markFails,
                                                             env.now + 30_000)],
                                     if r.value.rolledBack then t.log + [LogRow(node, env.key, target)] else t.log))
  {
    assert SomeCommitSucceeds(env) <==> !env.commitFails[0] || !env.commitFails[1];
    if PassesChecks(t, node, target) {
      var row := Row(target, env.key, PENDING, false, env.now + 30_000);
      assert t.tentative[node := row][node := row.(state := COMMITTED)] == t.tentative[node := row.(state := COMMITTED)];
      assert t.tentative[node := row][node := row.(state := ROLLED_BACK)] == t.tentative[node := row.(state := ROLLED_BACK)];
      assert t.tentative[node := row][node := row.(commitFailed := true)] == t.tentative[node := row.(commitFailed := true)];
    }
  }

  /** The transitions that are allowed, one by one. */
  lemma AllowedExactly(from: Status, target: Status)
    ensures target in Allowed(from)
       <==> (from, target) in {(Provisioned, Pending), (Pending, Active), (Active, Slashed), (Active, Archived), (Slashed, Archived)}
  {
  }

  /**
   One call of the method, with the database to itself, is one run of the machine, in
   which the chain moves to the target exactly when the call passes its checks and its
   contract call succeeds.
   */
  lemma TransitionIsARun(w0: World, events: seq<Event>, id: nat, node: Node, target: Status, env: Environment)
    returns (longer: seq<Event>)
    requires |env.commitFails| == COMMIT_RETRY_ATTEMPTS
    requires var w := Run(w0, events); id !in w.calls && env.key !in w.usedKeys && env.now == w.now
    ensures Run(w0, longer).tables == TransitionAlone(Run(w0, events).tables, node, target, env).0
    ensures Run(w0, longer).calls == Run(w0, events).calls
    ensures var w := Run(w0, events);
            Run(w0, longer).chain == if PassesChecks(w.tables, node, target) && env.rpcSucceeds then w.chain[node := target] else w.chain
    ensures ResultNamesTheRow(Run(w0, events).tables, Run(w0, longer).tables, node, env.key,
                              TransitionAlone(Run(w0, events).tables, node, target, env).1)
  {
    hide ResultNamesTheRow;
    hide Apply;
    hide Run;
    var w := Run(w0, events);
    ResultOfTransition(w.tables, node, target, env);
    longer := events;
    if node in w.tables.status && target in Allowed(w.tables.status[node]) {
      if w.tables.HasPending(node) {
        longer := BlockedCallIsARun(w0, events, id, node, target, env);
      } else {
        longer := WrittenCallIsARun(w0, events, id, node, target, env);
        longer := SentCallIsARun(w0, longer, id, w.calls, env);
      }
    }
  }

  lemma BlockedCallIsARun(w0: World, events: seq<Event>, id: nat, node: Node, target: Status, env: Environment)
    returns (longer: seq<Event>)
    requires var w := Run(w0, events);
             && id !in w.calls && env.key !in w.usedKeys
             && node in w.tables.status && target in Allowed(w.tables.status[node]) && w.tables.HasPending(node)
    ensures var w, next := Run(w0, events), Run(w0, longer);
            next.tables == w.tables && next.calls == w.calls && next.chain == w.chain
  {
    longer := Then(w0, events, Begin(id, node, target));
    longer := Then(w0, longer, Phase1(id, env.key));
    assert Run(w0, longer).calls == Run(w0, events).calls;
  }

  lemma WrittenCallIsARun(w0: World, events: seq<Event>, id: nat, node: Node, target: Status, env: Environment)
    returns (longer: seq<Event>)
    requires var w := Run(w0, events);
             && id !in w.calls && env.key !in w.usedKeys && env.now == w.now
             && node in w.tables.status && target in Allowed(w.tables.status[node]) && !w.tables.HasPending(node)
    ensures var w, next := Run(w0, events), Run(w0, longer);
            && next.tables == w.tables.InsertTentative(node, target, env.key, env.now)
            && Runs(next, id, w.calls) && next.chain == w.chain
            && next.calls[id] == Sending(node, target, w.tables.status[node], env.key)
  {
    longer := Then(w0, events, Begin(id, node, target));
    longer := Then(w0, longer, Phase1(id, env.key));
  }

  lemma SentCallIsARun(w0: World, events: seq<Event>, id: nat, others: map<nat, Call>, env: Environment) returns (longer: seq<Event>)
    requires |env.commitFails| == COMMIT_RETRY_ATTEMPTS
    requires var w := Run(w0, events); Runs(w, id, others) && w.calls[id].Sending?
    ensures var w := Run(w0, events);
            var c := w.calls[id];
            Run(w0, longer).tables
            == if !env.rpcSucceeds then w.tables.Rollback(c.node, c.key, c.target)
               else if SomeCommitSucceeds(env) then w.tables.Commit(c.node, c.target)
               else if env.markFails then w.tables else w.tables.MarkCommitFailed(c.node)
    ensures Run(w0, longer).calls == others
    ensures var w := Run(w0, events);
            Run(w0, longer).chain == if env.rpcSucceeds then w.chain[w.calls[id].node := w.calls[id].target] else w.chain
  {
    hide Apply;
    hide Run;
    if !env.rpcSucceeds {
      longer := RefusedCallIsARun(w0, events, id, others);
    } else {
      assert SomeCommitSucceeds(env) <==> !env.commitFails[0] || !env.commitFails[1];
      longer := ConfirmedCallIsARun(w0, events, id, others);
      if env.commitFails[0] {
        longer := FailedCommitIsARun(w0, longer, id, others);
      }
      if SomeCommitSucceeds(env) {
        longer := GoodCommitIsARun(w0, longer, id, others);
      } else {
        longer := LastCommitIsARun(w0, longer, id, others, env.markFails);
      }
    }
  }

  lemma RefusedCallIsARun(w0: World, events: seq<Event>, id: nat, others: map<nat, Call>) returns (longer: seq<Event>)
    requires Runs(Run(w0, events), id, others) && Run(w0, events).calls[id].Sending?
    ensures var w := Run(w0, events);
            var c := w.calls[id];
            Run(w0, longer).tables == w.tables.Rollback(c.node, c.key, c.target)
    ensures Run(w0, longer).calls == others && Run(w0, longer).chain == Run(w0, events).chain
  {
    longer := Then(w0, events, RpcFails(id));
    longer := Then(w0, longer, RollbackRefused(id));
    assert Run(w0, longer).calls == others;
  }

  lemma ConfirmedCallIsARun(w0: World, events: seq<Event>, id: nat, others: map<nat, Call>) returns (longer: seq<Event>)
    requires Runs(Run(w0, events), id, others) && Run(w0, events).calls[id].Sending?
    ensures var w, next := Run(w0, events), Run(w0, longer);
            var c := w.calls[id];
            && next.tables == w.tables && Runs(next, id, others) && next.chain == w.chain[c.node := c.target]
            && next.calls[id] == Confirmed(c.node, c.target, c.from, c.key, 0)
  {
    longer := Then(w0, events, RpcSucceeds(id));
  }

  lemma GoodCommitIsARun(w0: World, events: seq<Event>, id: nat, others: map<nat, Call>) returns (longer: seq<Event>)
    requires Runs(Run(w0, events), id, others) && Run(w0, events).calls[id].Confirmed?
    ensures var w := Run(w0, events); Run(w0, longer).tables == w.tables.Commit(w.calls[id].node, w.calls[id].target)
    ensures Run(w0, longer).calls == others && Run(w0, longer).chain == Run(w0, events).chain
  {
    longer := Then(w0, events, CommitSucceeds(id));
    assert Run(w0, longer).calls == others;
  }

  lemma FailedCommitIsARun(w0: World, events: seq<Event>, id: nat, others: map<nat, Call>) returns (longer: seq<Event>)
    requires Runs(Run(w0, events), id, others) && Run(w0, events).calls[id].Confirmed? && Run(w0, events).calls[id].failures == 0
    ensures Run(w0, longer).tables == Run(w0, events).tables && Run(w0, longer).chain == Run(w0, events).chain
    ensures Runs(Run(w0, longer), id, others) && Run(w0, longer).calls[id] == Run(w0, events).calls[id].(failures := 1)
  {
    longer := Then(w0, events, CommitFails(id));
  }

  lemma LastCommitIsARun(w0: World, events: seq<Event>, id: nat, others: map<nat, Call>, markFails: bool) returns (longer: seq<Event>)
    requires Runs(Run(w0, events), id, others) && Run(w0, events).calls[id].Confirmed? && Run(w0, events).calls[id].failures == 1
    ensures var w := Run(w0, events);
            Run(w0, longer).tables == if markFails then w.tables else w.tables.MarkCommitFailed(w.calls[id].node)
    ensures Run(w0, longer).calls == others && Run(w0, longer).chain == Run(w0, events).chain
  {
    longer := Then(w0, events, CommitFails(id));
    longer := Then(w0, longer, if markFails then MarkFails(id) else MarkSucceeds(id));
    assert Run(w0, longer).calls == others;
  }
}
