/**
 Model of src/core/state/two_phase_controller.ts, rollback_handler.ts and
 tentative_cleanup_worker.ts: the database tables, the statements and the calls.
 One SQL statement or transaction is one atomic step.
 */
module TwoPhase {
  import opened Common

  type Node = string
  // Idempotency keys are digests of a fresh nonce: opaque and never reused.
  type Key = nat

  datatype Status = Provisioned | Pending | Active | Slashed | Archived

  // VALID_TRANSITIONS.
  function Allowed(from: Status): set<Status> {
    match from
    case Provisioned => {Pending}
    case Pending => {Active}
    case Active => {Slashed, Archived}
    case Slashed => {Archived}
    case Archived => {}
  }

  datatype RowState = PENDING | COMMITTED | ROLLED_BACK

  // `commitFailed`: error_detail starts with COMMIT_FAILED.
  datatype Row = Row(target: Status, key: Key, state: RowState, commitFailed: bool, expiresAt: int)

  datatype LogRow = LogRow(node: Node, key: Key, target: Status)

  const TTL_MS := 30_000
  const COMMIT_RETRY_ATTEMPTS := 2

  /** The tables node_status, node_status_tentative and two_phase_rollback_log. */
  datatype Tables = Tables(status: map<Node, Status>, tentative: map<Node, Row>, log: seq<LogRow>) {
    predicate HasPending(node: Node) {
      node in tentative && tentative[node].state == PENDING
    }

    // Phase 1: INSERT ... WHERE NOT EXISTS ... ON CONFLICT DO UPDATE ... WHERE state <> 'PENDING'.
    function InsertTentative(node: Node, target: Status, key: Key, now: int): Tables {
      if HasPending(node) then this
      else this.(tentative := tentative[node := Row(target, key, PENDING, false, now + TTL_MS)])
    }

    // The commit transaction; neither update looks at the key or the state of the row.
    function Commit(node: Node, target: Status): Tables {
      this.(status := if node in status then status[node := target] else status,
            tentative := if node in tentative then tentative[node := tentative[node].(state := COMMITTED)] else tentative)
    }

    // resolveTentative('commit') also overwrites error_detail.
    function ForceCommit(node: Node, target: Status): Tables {
      var t := Commit(node, target);
      t.(tentative := if node in tentative then t.tentative[node := t.tentative[node].(commitFailed := false)] else t.tentative)
    }

    function MarkCommitFailed(node: Node): Tables {
      if HasPending(node) then this.(tentative := tentative[node := tentative[node].(commitFailed := true)]) else this
    }

    // RollbackHandler.execute: the claim matches node and state, and logs the caller's key and target.
    function Rollback(node: Node, key: Key, target: Status): Tables {
      if HasPending(node) then
        this.(tentative := tentative[node := tentative[node].(state := ROLLED_BACK, commitFailed := false)],
              log := log + [LogRow(node, key, target)])
      else
        this
    }

    // getNodeStatus: the target of an unexpired PENDING row, marked tentative, else node_status.
    function Read(node: Node, now: int): Option<(Status, bool)> {
      if HasPending(node) && now < tentative[node].expiresAt then Some((tentative[node].target, true))
      else if node in status then Some((status[node], false))
      else None
    }

    // What one row must satisfy for the sweep's SELECT to return it.
    predicate SweepSelects(node: Node, now: int) {
      HasPending(node) && tentative[node].expiresAt < now && !tentative[node].commitFailed
    }
  }

  // ---------------------------------------------------------------- the database as a class

  class StateDb {
    var nodeStatus: map<Node, Status>
    var tentative: map<Node, Row>
    var rollbackLog: seq<LogRow>

    function View(): Tables
      reads this
    {
      Tables(nodeStatus, tentative, rollbackLog)
    }

    constructor (initial: map<Node, Status>)
      ensures View() == Tables(initial, map[], [])
    {
      nodeStatus, tentative, rollbackLog := initial, map[], [];
    }

    method InsertTentative(node: Node, target: Status, key: Key, now: int) returns (rowCount: nat)
      modifies this
      ensures View() == old(View()).InsertTentative(node, target, key, now)
      ensures rowCount == if old(View()).HasPending(node) then 0 else 1
    {
      if node in tentative && tentative[node].state == PENDING {
        return 0;
      }
      tentative := tentative[node := Row(target, key, PENDING, false, now + TTL_MS)];
      return 1;
    }

    method CommitTransaction(node: Node, target: Status)
      modifies this
      ensures View() == old(View()).Commit(node, target)
    {
      if node in nodeStatus {
        nodeStatus := nodeStatus[node := target];
      }
      if node in tentative {
        tentative := tentative[node := tentative[node].(state := COMMITTED)];
      }
    }

    method ForceCommitTransaction(node: Node, target: Status)
      modifies this
      ensures View() == old(View()).ForceCommit(node, target)
    {
      CommitTransaction(node, target);
      if node in tentative {
        tentative := tentative[node := tentative[node].(commitFailed := false)];
      }
    }

    method MarkCommitFailed(node: Node)
      modifies this
      ensures View() == old(View()).MarkCommitFailed(node)
    {
      if node in tentative && tentative[node].state == PENDING {
        tentative := tentative[node := tentative[node].(commitFailed := true)];
      }
    }

    method ExecuteRollback(node: Node, key: Key, target: Status) returns (claimed: bool)
      modifies this
      ensures View() == old(View()).Rollback(node, key, target)
      ensures claimed == old(View()).HasPending(node)
    {
      claimed := false;
      if node in tentative && tentative[node].state == PENDING {
        tentative := tentative[node := tentative[node].(state := ROLLED_BACK, commitFailed := false)];
        claimed := true;
        rollbackLog := rollbackLog + [LogRow(node, key, target)];
      }
    }
  }

  // ---------------------------------------------------------------- one call, run alone

  datatype TransitionError = NodeNotFound | IllegalTransition(from: Status) | AlreadyPending

  datatype TransitionResult = TransitionResult(previous: Status, target: Status, key: Key, committed: bool, rolledBack: bool)

  // What the environment decides during one call of transition.
  datatype Environment = Environment(
    now: int,
    key: Key,
    rpcSucceeds: bool,           // the contract call; the chain moves exactly when it succeeds
    commitFails: seq<bool>,      // does the n-th commit transaction fail?
    markFails: bool)

  predicate SomeCommitSucceeds(env: Environment)
    requires |env.commitFails| == COMMIT_RETRY_ATTEMPTS
  {
    exists i :: 0 <= i < COMMIT_RETRY_ATTEMPTS && !env.commitFails[i]
  }

  function TransitionAlone(t: Tables, node: Node, target: Status, env: Environment): (Tables, Result<TransitionResult, TransitionError>)
    requires |env.commitFails| == COMMIT_RETRY_ATTEMPTS
  {
    if node !in t.status then (t, Err(NodeNotFound))
    else
      var from := t.status[node];
      if target !in Allowed(from) then (t, Err(IllegalTransition(from)))
      else if t.HasPending(node) then (t, Err(AlreadyPending))
      else
        var written := t.InsertTentative(node, target, env.key, env.now);
        if !env.rpcSucceeds then
          (written.Rollback(node, env.key, target), Ok(TransitionResult(from, target, env.key, false, true)))
        else if SomeCommitSucceeds(env) then
          (written.Commit(node, target), Ok(TransitionResult(from, target, env.key, true, false)))
        else
          (if env.markFails then written else written.MarkCommitFailed(node),
           Ok(TransitionResult(from, target, env.key, false, false)))
  }

  class TwoPhaseController {
    const db: StateDb

    constructor (db: StateDb)
      ensures this.db == db
    {
      this.db := db;
    }

    // transition with the database to itself; the retry loop commits at most once.
    method Transition(node: Node, target: Status, env: Environment) returns (r: Result<TransitionResult, TransitionError>)
      requires |env.commitFails| == COMMIT_RETRY_ATTEMPTS
      modifies db
      ensures (db.View(), r) == TransitionAlone(old(db.View()), node, target, env)
    {
      if node !in db.nodeStatus {
        return Err(NodeNotFound);
      }
      var from := db.nodeStatus[node];
      if target !in Allowed(from) {
        return Err(IllegalTransition(from));
      }
      var rowCount := db.InsertTentative(node, target, env.key, env.now);
      if rowCount == 0 {
        return Err(AlreadyPending);
      }
      ghost var written := db.View();
      if env.rpcSucceeds {
        var commitSuccess := false;
        var attempt := 0;
        while attempt < COMMIT_RETRY_ATTEMPTS && !commitSuccess
          invariant 0 <= attempt <= COMMIT_RETRY_ATTEMPTS
          invariant commitSuccess <==> exists i :: 0 <= i < attempt && !env.commitFails[i]
          invariant db.View() == if commitSuccess then written.Commit(node, target) else written
        {
          if !env.commitFails[attempt] {
            db.CommitTransaction(node, target);
            commitSuccess := true;
          }
          attempt := attempt + 1;
        }
        if commitSuccess {
          return Ok(TransitionResult(from, target, env.key, true, false));
        }
        if !env.markFails {
          db.MarkCommitFailed(node);
        }
        return Ok(TransitionResult(from, target, env.key, false, false));
      }
      var _ := db.ExecuteRollback(node, env.key, target);
      return Ok(TransitionResult(from, target, env.key, false, true));
    }

    method GetNodeStatus(node: Node, now: int) returns (r: Option<(Status, bool)>)
      ensures r == db.View().Read(node, now)
    {
      if node in db.tentative && db.tentative[node].state == PENDING && db.tentative[node].expiresAt > now {
        return Some((db.tentative[node].target, true));
      }
      if node in db.nodeStatus {
        return Some((db.nodeStatus[node], false));
      }
      return None;
    }
  }

  // The rollbacks of some rows, one after another.
  function SweptAway(t: Tables, selected: seq<LogRow>): Tables {
    if selected == [] then t
    else
      var row := selected[|selected| - 1];
      SweptAway(t, selected[..|selected| - 1]).Rollback(row.node, row.key, row.target)
  }

  /**
   One sweep with the database to itself: every selected row is rolled back or
   counted as skipped, and the log grows by the rows processed.
   */
  method Sweep(db: StateDb, selected: seq<LogRow>) returns (processed: nat, skipped: nat)
    modifies db
    ensures db.View() == SweptAway(old(db.View()), selected)
    ensures processed + skipped == |selected|
    ensures |db.rollbackLog| == |old(db.rollbackLog)| + processed
    ensures forall i :: 0 <= i < |selected| ==> !db.View().HasPending(selected[i].node)
    ensures db.nodeStatus == old(db.nodeStatus)
    ensures forall n :: n !in (set i | 0 <= i < |selected| :: selected[i].node) && n in old(db.tentative) ==>
              n in db.tentative && db.tentative[n] == old(db.tentative)[n]
  {
    processed, skipped := 0, 0;
    for i := 0 to |selected|
      invariant db.View() == SweptAway(old(db.View()), selected[..i])
      invariant processed + skipped == i
      invariant |db.rollbackLog| == |old(db.rollbackLog)| + processed
      invariant forall j :: 0 <= j < i ==> !db.View().HasPending(selected[j].node)
      invariant db.nodeStatus == old(db.nodeStatus)
      invariant forall n :: n !in (set j | 0 <= j < |selected| :: selected[j].node) && n in old(db.tentative) ==>
                  n in db.tentative && db.tentative[n] == old(db.tentative)[n]
    {
      assert selected[..i + 1][..i] == selected[..i];
      var claimed := db.ExecuteRollback(selected[i].node, selected[i].key, selected[i].target);
      if claimed {
        processed := processed + 1;
      } else {
        skipped := skipped + 1;
      }
    }
    assert selected[..|selected|] == selected;
  }

  // The rows whose node is PENDING.
  function StillPending(t: Tables, rows: seq<LogRow>): seq<LogRow> {
    if rows == [] then []
    else
      var last := rows[|rows| - 1];
      StillPending(t, rows[..|rows| - 1]) + if t.HasPending(last.node) then [last] else []
  }

  predicate DistinctNodes(rows: seq<LogRow>) {
    forall i, j :: 0 <= i < j < |rows| ==> rows[i].node != rows[j].node
  }

  predicate Selects(rows: seq<LogRow>, node: Node) {
    exists i :: 0 <= i < |rows| && rows[i].node == node
  }

  /**
   A sweep over rows of different nodes logs exactly those it found PENDING, as they
   were selected, and rolls exactly these back; every other row stays.
   */
  lemma {:induction false} SweepLogsWhatItFound(t: Tables, rows: seq<LogRow>, node: Node)
    requires DistinctNodes(rows)
    ensures var after := SweptAway(t, rows);
            && after.log == t.log + StillPending(t, rows) && after.status == t.status
            && after.tentative.Keys == t.tentative.Keys
            && (node in t.tentative ==>
                  after.tentative[node] == if Selects(rows, node) && t.HasPending(node)
                                           then t.tentative[node].(state := ROLLED_BACK, commitFailed := false)
                                           else t.tentative[node])
  {
    if rows != [] {
      var front, last := rows[..|rows| - 1], rows[|rows| - 1];
      SweepLogsWhatItFound(t, front, node);
      SweepLogsWhatItFound(t, front, last.node);
      assert !Selects(front, last.node);
      assert Selects(rows, node) <==> Selects(front, node) || node == last.node by {
        if Selects(front, node) { var i :| 0 <= i < |front| && front[i].node == node; assert rows[i].node == node; }
      }
      assert SweptAway(t, front).HasPending(last.node) <==> t.HasPending(last.node);
    }
  }
}
