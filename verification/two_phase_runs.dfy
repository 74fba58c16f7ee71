/**
 The two-phase node status protocol as a state machine: any number of transition
 calls, sweepers and admin calls, interleaved at every await.
 */
module TwoPhaseRuns {
  import opened Common
  import opened TwoPhase

  datatype Call =
    | Reading(node: Node, target: Status, from: Status)
    | Sending(node: Node, target: Status, from: Status, key: Key)
    | Confirmed(node: Node, target: Status, from: Status, key: Key, failures: nat)
    | Refused(node: Node, target: Status, from: Status, key: Key)
    | Exhausted(node: Node, target: Status, from: Status, key: Key)
    | ForceCommitting(node: Node, target: Status)
    | ForceRollingBack(node: Node, target: Status, key: Key)
    | Sweeping(node: Node, target: Status, key: Key)

  /**
   The tables, the clock, the chain and the calls in flight, with a record of the
   run: keys used, keys of the Phase-1 records rolled back, contract calls that
   succeeded, targets an admin force-committed, and every value of node_status.
   */
  datatype World = World(
    tables: Tables,
    now: int,
    chain: map<Node, Status>,
    calls: map<nat, Call>,
    usedKeys: set<Key>,
    rolledBack: seq<Key>,
    confirmed: set<(Node, Status)>,
    forced: set<(Node, Status)>,
    history: map<Node, seq<Status>>)

  datatype Event =
    | Tick(ms: nat)
    | Begin(id: nat, node: Node, target: Status)
    | Phase1(id: nat, key: Key)
    | RpcSucceeds(id: nat)
    | RpcFails(id: nat)
    | RpcReplyLost(id: nat)       // the chain moved but the call reports an error
    | CommitSucceeds(id: nat)
    | CommitFails(id: nat)
    | CommitReplyLost(id: nat)    // the transaction took effect but reports an error, and is retried
    | MarkSucceeds(id: nat)
    | MarkFails(id: nat)
    | RollbackRefused(id: nat)
    | AdminReads(id: nat, node: Node, commit: bool)
    | AdminActs(id: nat)
    | SweepReads(id: nat, node: Node)
    | SweepActs(id: nat)
    | Crash(id: nat)

  function Finish(w: World, id: nat): World {
    w.(calls := w.calls - {id})
  }

  function WriteStatus(w: World, node: Node, target: Status, tables: Tables): World {
    w.(tables := tables,
       history := if node in w.tables.status && node in w.history then w.history[node := w.history[node] + [target]] else w.history)
  }

  function RollBack(w: World, node: Node, key: Key, target: Status): World {
    w.(tables := w.tables.Rollback(node, key, target),
       rolledBack := if w.tables.HasPending(node) then w.rolledBack + [w.tables.tentative[node].key] else w.rolledBack)
  }

  // A commit attempt has failed, or seems to.
  function Retry(c: Call): Call
    requires c.Confirmed?
  {
    if c.failures + 1 < COMMIT_RETRY_ATTEMPTS then c.(failures := c.failures + 1)
    else Exhausted(c.node, c.target, c.from, c.key)
  }

  // An event that is not enabled leaves the world as it is.
  function Apply(w: World, e: Event): World {
    match e
    case Tick(ms) => w.(now := w.now + ms)
    case Begin(id, node, target) =>
      if id !in w.calls && node in w.tables.status && target in Allowed(w.tables.status[node]) then
        w.(calls := w.calls[id := Reading(node, target, w.tables.status[node])])
      else w
    case Phase1(id, key) =>
      if id in w.calls && w.calls[id].Reading? && key !in w.usedKeys then
        var c := w.calls[id];
        if w.tables.HasPending(c.node) then
          Finish(w, id)
        else
          w.(tables := w.tables.InsertTentative(c.node, c.target, key, w.now),
             usedKeys := w.usedKeys + {key},
             calls := w.calls[id := Sending(c.node, c.target, c.from, key)])
      else w
    case RpcSucceeds(id) =>
      if id in w.calls && w.calls[id].Sending? then
        var c := w.calls[id];
        w.(chain := w.chain[c.node := c.target],
           confirmed := w.confirmed + {(c.node, c.target)},
           calls := w.calls[id := Confirmed(c.node, c.target, c.from, c.key, 0)])
      else w
    case RpcFails(id) =>
      if id in w.calls && w.calls[id].Sending? then
        var c := w.calls[id];
        w.(calls := w.calls[id := Refused(c.node, c.target, c.from, c.key)])
      else w
    case RpcReplyLost(id) =>
      if id in w.calls && w.calls[id].Sending? then
        var c := w.calls[id];
        w.(chain := w.chain[c.node := c.target], calls := w.calls[id := Refused(c.node, c.target, c.from, c.key)])
      else w
    case CommitSucceeds(id) =>
      if id in w.calls && w.calls[id].Confirmed? then
        var c := w.calls[id];
        Finish(WriteStatus(w, c.node, c.target, w.tables.Commit(c.node, c.target)), id)
      else w
    case CommitFails(id) =>
      if id in w.calls && w.calls[id].Confirmed? then
        w.(calls := w.calls[id := Retry(w.calls[id])])
      else w
    case CommitReplyLost(id) =>
      if id in w.calls && w.calls[id].Confirmed? then
        var c := w.calls[id];
        WriteStatus(w, c.node, c.target, w.tables.Commit(c.node, c.target)).(calls := w.calls[id := Retry(c)])
      else w
    case MarkSucceeds(id) =>
      if id in w.calls && w.calls[id].Exhausted? then
        Finish(w.(tables := w.tables.MarkCommitFailed(w.calls[id].node)), id)
      else w
    case MarkFails(id) =>
      if id in w.calls && w.calls[id].Exhausted? then Finish(w, id) else w
    case RollbackRefused(id) =>
      if id in w.calls && w.calls[id].Refused? then
        Finish(RollBack(w, w.calls[id].node, w.calls[id].key, w.calls[id].target), id)
      else w
    case AdminReads(id, node, commit) =>
      if id !in w.calls && w.tables.HasPending(node) then
        var row := w.tables.tentative[node];
        w.(calls := w.calls[id := if commit then ForceCommitting(node, row.target) else ForceRollingBack(node, row.target, row.key)])
      else w
    case AdminActs(id) =>
      if id in w.calls && w.calls[id].ForceCommitting? then
        var c := w.calls[id];
        Finish(WriteStatus(w, c.node, c.target, w.tables.ForceCommit(c.node, c.target)).(forced := w.forced + {(c.node, c.target)}), id)
      else if id in w.calls && w.calls[id].ForceRollingBack? then
        Finish(RollBack(w, w.calls[id].node, w.calls[id].key, w.calls[id].target), id)
      else w
    case SweepReads(id, node) =>
      if id !in w.calls && w.tables.SweepSelects(node, w.now) then
        w.(calls := w.calls[id := Sweeping(node, w.tables.tentative[node].target, w.tables.tentative[node].key)])
      else w
    case SweepActs(id) =>
      if id in w.calls && w.calls[id].Sweeping? then
        Finish(RollBack(w, w.calls[id].node, w.calls[id].key, w.calls[id].target), id)
      else w
    case Crash(id) => Finish(w, id)
  }

  function Run(w: World, events: seq<Event>): World {
    if events == [] then w else Apply(Run(w, events[..|events| - 1]), events[|events| - 1])
  }

  lemma RunExtends(w: World, events: seq<Event>, e: Event)
    ensures Run(w, events + [e]) == Apply(Run(w, events), e)
  {
    assert (events + [e])[..|events|] == events;
  }

  // Every node starts committed, with the chain in agreement and no tentative row.
  function Start(initial: map<Node, Status>, now: int): World {
    World(Tables(initial, map[], []), now, initial, map[], {}, [], {}, {}, map n | n in initial :: [initial[n]])
  }

  // ------------------------------------------------------------ accounting, with no assumption

  ghost predicate RowOk(w: World, n: Node)
    requires n in w.tables.tentative
  {
    && w.tables.tentative[n].key in w.usedKeys
    && (w.tables.tentative[n].state == PENDING ==> w.tables.tentative[n].key !in w.rolledBack)
  }

  ghost predicate ValueOk(w: World, initial: map<Node, Status>, n: Node, s: Status) {
    n in initial && (s == initial[n] || (n, s) in w.confirmed || (n, s) in w.forced)
  }

  ghost predicate HistoryOk(w: World, initial: map<Node, Status>, n: Node)
    requires n in w.tables.status
  {
    && n in w.history && w.history[n] != []
    && w.history[n][|w.history[n]| - 1] == w.tables.status[n]
    && forall i :: 0 <= i < |w.history[n]| ==> ValueOk(w, initial, n, w.history[n][i])
  }

  ghost predicate CallConfirmed(w: World, id: nat)
    requires id in w.calls
  {
    w.calls[id].Confirmed? || w.calls[id].Exhausted? ==> (w.calls[id].node, w.calls[id].target) in w.confirmed
  }

  ghost predicate DistinctKeys(t: Tables) {
    forall n, m :: n in t.tentative && m in t.tentative && t.tentative[n].key == t.tentative[m].key ==> n == m
  }

  ghost predicate Accounts(w: World, initial: map<Node, Status>) {
    && |w.tables.log| == |w.rolledBack|
    && NoDuplicates(w.rolledBack)
    && (forall k :: k in w.rolledBack ==> k in w.usedKeys)
    && DistinctKeys(w.tables)
    && (forall n {:trigger RowOk(w, n)} :: n in w.tables.tentative ==> RowOk(w, n))
    && w.tables.status.Keys == initial.Keys
    && (forall n {:trigger HistoryOk(w, initial, n)} :: n in w.tables.status ==> HistoryOk(w, initial, n))
    && (forall id {:trigger CallConfirmed(w, id)} :: id in w.calls ==> CallConfirmed(w, id))
  }

  // Steps that write neither table, and keep every confirmed call in the record.
  lemma QuietStepAccounts(w: World, next: World, initial: map<Node, Status>)
    requires Accounts(w, initial)
    requires next.tables == w.tables && next.usedKeys == w.usedKeys && next.rolledBack == w.rolledBack
    requires next.history == w.history && w.confirmed <= next.confirmed && w.forced <= next.forced
    requires forall id :: id in next.calls && !(id in w.calls && next.calls[id] == w.calls[id]) ==> CallConfirmed(next, id)
    ensures Accounts(next, initial)
  {
    forall n | n in next.tables.tentative ensures RowOk(next, n) { assert RowOk(w, n); }
    forall n | n in next.tables.status ensures HistoryOk(next, initial, n) {
      assert HistoryOk(w, initial, n);
      forall i | 0 <= i < |next.history[n]| ensures ValueOk(next, initial, n, next.history[n][i]) {
        assert ValueOk(w, initial, n, w.history[n][i]);
      }
    }
    forall id | id in next.calls ensures CallConfirmed(next, id) {
      if id in w.calls && next.calls[id] == w.calls[id] { assert CallConfirmed(w, id); }
    }
  }

  lemma RollBackAccounts(w: World, initial: map<Node, Status>, node: Node, key: Key, target: Status)
    requires Accounts(w, initial)
    ensures Accounts(RollBack(w, node, key, target), initial)
  {
    var next := RollBack(w, node, key, target);
    if w.tables.HasPending(node) {
      assert RowOk(w, node);
      forall n | n in next.tables.tentative ensures RowOk(next, n) { assert RowOk(w, n); }
    }
    forall n | n in next.tables.tentative ensures RowOk(next, n) { assert RowOk(w, n); }
    forall n | n in next.tables.status ensures HistoryOk(next, initial, n) {
      assert HistoryOk(w, initial, n);
      forall i | 0 <= i < |next.history[n]| ensures ValueOk(next, initial, n, next.history[n][i]) {
        assert ValueOk(w, initial, n, w.history[n][i]);
      }
    }
    forall id | id in next.calls ensures CallConfirmed(next, id) { assert CallConfirmed(w, id); }
  }

  lemma WriteAccounts(w: World, initial: map<Node, Status>, node: Node, target: Status, tables: Tables)
    requires Accounts(w, initial)
    requires (node, target) in w.confirmed || (node, target) in w.forced
    requires tables == w.tables.Commit(node, target) || tables == w.tables.ForceCommit(node, target)
    ensures Accounts(WriteStatus(w, node, target, tables), initial)
  {
    var next := WriteStatus(w, node, target, tables);
    forall n | n in next.tables.tentative ensures RowOk(next, n) { assert RowOk(w, n); }
    forall n | n in next.tables.status ensures HistoryOk(next, initial, n) {
      assert HistoryOk(w, initial, n);
      forall i | 0 <= i < |next.history[n]| ensures ValueOk(next, initial, n, next.history[n][i]) {
        if i < |w.history[n]| { assert ValueOk(w, initial, n, w.history[n][i]); }
      }
    }
    forall id | id in next.calls ensures CallConfirmed(next, id) { assert CallConfirmed(w, id); }
  }

  lemma FinishAccounts(w: World, initial: map<Node, Status>, id: nat)
    requires Accounts(w, initial)
    ensures Accounts(Finish(w, id), initial)
  {
    QuietStepAccounts(w, Finish(w, id), initial);
  }

  lemma Phase1Accounts(w: World, initial: map<Node, Status>, id: nat, key: Key)
    requires Accounts(w, initial)
    ensures Accounts(Apply(w, Phase1(id, key)), initial)
  {
    if id in w.calls && w.calls[id].Reading? && key !in w.usedKeys {
      var c := w.calls[id];
      if w.tables.HasPending(c.node) {
        FinishAccounts(w, initial, id);
      } else {
        var next := Apply(w, Phase1(id, key));
        forall n, m | n in next.tables.tentative && m in next.tables.tentative
                      && next.tables.tentative[n].key == next.tables.tentative[m].key
          ensures n == m
        {
          if n in w.tables.tentative { assert RowOk(w, n); }
          if m in w.tables.tentative { assert RowOk(w, m); }
        }
        forall n | n in next.tables.tentative ensures RowOk(next, n) { if n != c.node { assert RowOk(w, n); } }
        forall n | n in next.tables.status ensures HistoryOk(next, initial, n) {
          assert HistoryOk(w, initial, n);
          forall i | 0 <= i < |next.history[n]| ensures ValueOk(next, initial, n, next.history[n][i]) {
            assert ValueOk(w, initial, n, w.history[n][i]);
          }
        }
        forall k | k in next.calls ensures CallConfirmed(next, k) { if k in w.calls { assert CallConfirmed(w, k); } }
      }
    }
  }

  lemma MarkAccounts(w: World, initial: map<Node, Status>, node: Node)
    requires Accounts(w, initial)
    ensures Accounts(w.(tables := w.tables.MarkCommitFailed(node)), initial)
  {
    var next := w.(tables := w.tables.MarkCommitFailed(node));
    forall n | n in next.tables.tentative ensures RowOk(next, n) { assert RowOk(w, n); }
    forall n | n in next.tables.status ensures HistoryOk(next, initial, n) {
      assert HistoryOk(w, initial, n);
      forall i | 0 <= i < |next.history[n]| ensures ValueOk(next, initial, n, next.history[n][i]) {
        assert ValueOk(w, initial, n, w.history[n][i]);
      }
    }
    forall id | id in next.calls ensures CallConfirmed(next, id) { assert CallConfirmed(w, id); }
  }

  lemma CommitAccounts(w: World, initial: map<Node, Status>, id: nat)
    requires Accounts(w, initial)
    ensures Accounts(Apply(w, CommitSucceeds(id)), initial)
  {
    if id in w.calls && w.calls[id].Confirmed? {
      var c := w.calls[id];
      assert CallConfirmed(w, id);
      WriteAccounts(w, initial, c.node, c.target, w.tables.Commit(c.node, c.target));
      FinishAccounts(WriteStatus(w, c.node, c.target, w.tables.Commit(c.node, c.target)), initial, id);
    }
  }

  lemma CommitReplyLostAccounts(w: World, initial: map<Node, Status>, id: nat)
    requires Accounts(w, initial)
    ensures Accounts(Apply(w, CommitReplyLost(id)), initial)
  {
    if id in w.calls && w.calls[id].Confirmed? {
      var c := w.calls[id];
      assert CallConfirmed(w, id);
      WriteAccounts(w, initial, c.node, c.target, w.tables.Commit(c.node, c.target));
      QuietStepAccounts(WriteStatus(w, c.node, c.target, w.tables.Commit(c.node, c.target)), Apply(w, CommitReplyLost(id)), initial);
    }
  }

  lemma AdminAccounts(w: World, initial: map<Node, Status>, id: nat)
    requires Accounts(w, initial)
    ensures Accounts(Apply(w, AdminActs(id)), initial)
  {
    if id in w.calls && w.calls[id].ForceCommitting? {
      var c := w.calls[id];
      var allowed := w.(forced := w.forced + {(c.node, c.target)});
      QuietStepAccounts(w, allowed, initial);
      WriteAccounts(allowed, initial, c.node, c.target, w.tables.ForceCommit(c.node, c.target));
      FinishAccounts(WriteStatus(allowed, c.node, c.target, w.tables.ForceCommit(c.node, c.target)), initial, id);
    } else {
      RollbackEventAccounts(w, initial, id);
    }
  }

  // The events that touch no table.
  predicate Quiet(e: Event) {
    e.Tick? || e.Begin? || e.RpcSucceeds? || e.RpcFails? || e.RpcReplyLost? || e.CommitFails? || e.MarkFails?
    || e.AdminReads? || e.SweepReads? || e.Crash?
  }

  lemma QuietKeepsTables(w: World, e: Event)
    requires Quiet(e)
    ensures Apply(w, e).tables == w.tables && Apply(w, e).usedKeys == w.usedKeys && Apply(w, e).rolledBack == w.rolledBack
  {
  }

  lemma QuietAccounts(w: World, initial: map<Node, Status>, e: Event)
    requires Accounts(w, initial) && Quiet(e)
    ensures Accounts(Apply(w, e), initial)
  {
    if e.CommitFails? && e.id in w.calls { assert CallConfirmed(w, e.id); }
    QuietStepAccounts(w, Apply(w, e), initial);
  }

  lemma StepAccounts(w: World, initial: map<Node, Status>, e: Event)
    requires Accounts(w, initial)
    ensures Accounts(Apply(w, e), initial)
  {
    match e
    case Phase1(id, key) => Phase1Accounts(w, initial, id, key);
    case CommitSucceeds(id) => CommitAccounts(w, initial, id);
    case CommitReplyLost(id) => CommitReplyLostAccounts(w, initial, id);
    case MarkSucceeds(id) =>
      if id in w.calls && w.calls[id].Exhausted? {
        MarkAccounts(w, initial, w.calls[id].node);
        FinishAccounts(w.(tables := w.tables.MarkCommitFailed(w.calls[id].node)), initial, id);
      }
    case RollbackRefused(id) => RollbackEventAccounts(w, initial, id);
    case SweepActs(id) => RollbackEventAccounts(w, initial, id);
    case AdminActs(id) => AdminAccounts(w, initial, id);
    case _ => QuietAccounts(w, initial, e);
  }

  lemma RollbackEventAccounts(w: World, initial: map<Node, Status>, id: nat)
    requires Accounts(w, initial)
    ensures id in w.calls && !w.calls[id].ForceCommitting? && !w.calls[id].Reading? ==>
              Accounts(Finish(RollBack(w, w.calls[id].node, w.calls[id].key, w.calls[id].target), id), initial)
  {
    if id in w.calls && !w.calls[id].ForceCommitting? && !w.calls[id].Reading? {
      RollBackAccounts(w, initial, w.calls[id].node, w.calls[id].key, w.calls[id].target);
      FinishAccounts(RollBack(w, w.calls[id].node, w.calls[id].key, w.calls[id].target), initial, id);
    }
  }

  /**
   Under every interleaving: each Phase-1 record is rolled back at most once, the
   log has exactly one row per such move, and every value node_status ever takes is
   the initial one, a target whose contract call succeeded, or one an admin forced.
   */
  lemma {:induction false} EveryRunAccounts(initial: map<Node, Status>, now: int, events: seq<Event>)
    ensures var w := Run(Start(initial, now), events);
            && Accounts(w, initial)
            && |w.tables.log| == |w.rolledBack| && NoDuplicates(w.rolledBack)
            && forall n, i :: n in w.history && n in w.tables.status && 0 <= i < |w.history[n]| ==>
                 (w.history[n][i] == initial[n] || (n, w.history[n][i]) in w.confirmed || (n, w.history[n][i]) in w.forced)
  {
    if events != [] {
      EveryRunAccounts(initial, now, events[..|events| - 1]);
      StepAccounts(Run(Start(initial, now), events[..|events| - 1]), initial, events[|events| - 1]);
    }
    var w := Run(Start(initial, now), events);
    forall n, i | n in w.history && n in w.tables.status && 0 <= i < |w.history[n]|
      ensures w.history[n][i] == initial[n] || (n, w.history[n][i]) in w.confirmed || (n, w.history[n][i]) in w.forced
    {
      assert HistoryOk(w, initial, n);
      assert ValueOk(w, initial, n, w.history[n][i]);
    }
  }

  predicate RolledBackUnmarked(t: Tables, n: Node) {
    n in t.tentative && t.tentative[n].state == ROLLED_BACK ==> !t.tentative[n].commitFailed
  }

  lemma StatementsKeepUnmarked(t: Tables, n: Node, node: Node, target: Status, key: Key, now: int)
    requires RolledBackUnmarked(t, n)
    ensures RolledBackUnmarked(t.InsertTentative(node, target, key, now), n)
    ensures RolledBackUnmarked(t.Commit(node, target), n) && RolledBackUnmarked(t.ForceCommit(node, target), n)
    ensures RolledBackUnmarked(t.MarkCommitFailed(node), n) && RolledBackUnmarked(t.Rollback(node, key, target), n)
  {
  }

  lemma StepKeepsUnmarked(w: World, e: Event, n: Node)
    requires RolledBackUnmarked(w.tables, n)
    ensures RolledBackUnmarked(Apply(w, e).tables, n)
  {
    hide RolledBackUnmarked;
    hide Tables.InsertTentative;
    hide Tables.Commit;
    hide Tables.ForceCommit;
    hide Tables.MarkCommitFailed;
    hide Tables.Rollback;
    if Quiet(e) {
      QuietKeepsTables(w, e);
      hide *;
    } else if e.Phase1? {
      if e.id in w.calls && w.calls[e.id].Reading? {
        StatementsKeepUnmarked(w.tables, n, w.calls[e.id].node, w.calls[e.id].target, e.key, w.now);
      }
    } else if e.id in w.calls {
      var c := w.calls[e.id];
      StatementsKeepUnmarked(w.tables, n, c.node, c.target,
                             if c.Refused? || c.ForceRollingBack? || c.Sweeping? then c.key else 0, 0);
    }
  }

  /** In every run a row that is rolled back carries no COMMIT_FAILED marker: the claim clears it, and none is written later. */
  lemma {:induction false} RolledBackRowsAreUnmarked(initial: map<Node, Status>, now: int, events: seq<Event>, n: Node)
    ensures RolledBackUnmarked(Run(Start(initial, now), events).tables, n)
  {
    if events != [] {
      RolledBackRowsAreUnmarked(initial, now, events[..|events| - 1], n);
      StepKeepsUnmarked(Run(Start(initial, now), events[..|events| - 1]), events[|events| - 1], n);
      hide Apply;
    }
  }

  /**
   A commit transaction has the last word: whatever became of its row in between, the
   row is COMMITTED, and node_status has the target; what the log says stays. A forced
   commit also clears the marker.
   */
  lemma CommitHasTheLastWord(w: World, id: nat)
    requires id in w.calls && (w.calls[id].Confirmed? || w.calls[id].ForceCommitting?)
    ensures var c, next := w.calls[id], Apply(w, if w.calls[id].Confirmed? then CommitSucceeds(id) else AdminActs(id)).tables;
            && (c.node in w.tables.status ==> next.status == w.tables.status[c.node := c.target])
            && next.tentative.Keys == w.tables.tentative.Keys && next.log == w.tables.log
            && (forall m :: m in next.tentative && m != c.node ==> next.tentative[m] == w.tables.tentative[m])
            && (c.node in w.tables.tentative ==>
                  var row := w.tables.tentative[c.node];
                  next.tentative[c.node] == Row(row.target, row.key, COMMITTED, c.Confirmed? && row.commitFailed, row.expiresAt))
  {
  }

  ghost function RolledBackBy(w: World, next: World): set<Node> {
    set n | n in w.tables.tentative && n in next.tables.tentative
            && w.tables.tentative[n].state == PENDING && next.tables.tentative[n].state == ROLLED_BACK
  }

  /** Every step appends exactly one log row for each row it moves to ROLLED_BACK, and never more than one. */
  lemma LogGrowsByRollbacks(w: World, e: Event)
    ensures var next := Apply(w, e);
            && w.tables.log <= next.tables.log
            && |next.tables.log| == |w.tables.log| + |RolledBackBy(w, next)|
            && |RolledBackBy(w, next)| <= 1
  {
    var next := Apply(w, e);
    if Quiet(e) {
      QuietKeepsTables(w, e);
      hide Apply;
      assert RolledBackBy(w, next) == {};
    } else if next.tables.log == w.tables.log {
      assert RolledBackBy(w, next) == {};
    } else {
      assert RolledBackBy(w, next) == {w.calls[e.id].node};
    }
  }
}
