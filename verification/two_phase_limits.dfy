/**
 Where the assumptions of the two-phase protocol end: runs that break agreement,
 and exactly when marked rows, slow calls, late sweeps and overlapping writes do.
 */
module TwoPhaseLimits {
  import opened Common
  import opened TwoPhase
  import opened TwoPhaseRuns
  import opened TwoPhaseAgreement

  // ------------------------------------------------------------ overlapping calls and late sweeps

  const NODE: Node := "node"

  // A call that nothing disturbs after its read writes its target, whatever node_status has become.
  lemma UndisturbedCallCommits(w0: World, events: seq<Event>, id: nat, key: Key) returns (longer: seq<Event>)
    requires var w := Run(w0, events);
             id in w.calls && w.calls[id].Reading? && !w.tables.HasPending(w.calls[id].node) && key !in w.usedKeys
             && w.calls[id].node in w.tables.status && w.calls[id].node in w.history
    ensures var w, next := Run(w0, events), Run(w0, longer);
            var c := w.calls[id];
            && next.calls == w.calls - {id}
            && next.usedKeys == w.usedKeys + {key}
            && next.tables.status == w.tables.status[c.node := c.target]
            && next.history == w.history[c.node := w.history[c.node] + [c.target]]
            && !next.tables.HasPending(c.node)
  {
    var w := Run(w0, events);
    longer := Then(w0, events, Phase1(id, key));
    longer := Then(w0, longer, RpcSucceeds(id));
    longer := Then(w0, longer, CommitSucceeds(id));
    assert Run(w0, longer).calls == w.calls - {id};
  }

  // The node in Active, on the chain too, and nothing in flight.
  const START: World := Start(map[NODE := Active], 0)

  ghost predicate Untouched(w: World) {
    && NODE in w.tables.status && w.tables.status[NODE] == Active && NODE in w.chain && w.chain[NODE] == Active
    && NODE !in w.tables.tentative && w.calls == map[] && w.now == 0
    && w.usedKeys == {} && w.rolledBack == [] && w.tables.log == []
    && NODE in w.history && w.history[NODE] == [Active]
  }

  lemma NothingYet()
    ensures Untouched(Run(START, []))
  {
  }

  lemma OverlappingReads(w0: World) returns (events: seq<Event>)
    requires Untouched(Run(w0, []))
    ensures var w := Run(w0, events);
            && NODE in w.tables.status && !w.tables.HasPending(NODE) && w.usedKeys == {}
            && NODE in w.history && w.history[NODE] == [Active]
            && 1 in w.calls && w.calls[1] == Reading(NODE, Slashed, Active)
            && 2 in w.calls && w.calls[2] == Reading(NODE, Archived, Active)
  {
    hide Run;
    events := Then(w0, [], Begin(1, NODE, Slashed));
    events := Then(w0, events, Begin(2, NODE, Archived));
  }

  // Two calls read Active; the later commit takes Archived back to Slashed.
  lemma OverlapLeavesTheGraph() returns (events: seq<Event>)
    ensures var w := Run(START, events);
            NODE in w.history && w.history[NODE] == [Active, Archived, Slashed] && !Path(w.history[NODE])
  {
    NothingYet();
    hide Run;
    hide Apply;
    hide Start;
    hide Untouched;
    events := OverlappingReads(START);
    events := UndisturbedCallCommits(START, events, 2, 20);
    events := UndisturbedCallCommits(START, events, 1, 10);
    var h := Run(START, events).history[NODE];
    assert h == [Active, Archived, Slashed];
    assert h[2] !in Allowed(h[1]);
  }

  // What the runs below look at: the node, still Active, with its chain status and row, and the calls in flight.
  ghost predicate Shows(w: World, chain: Status, row: Row, calls: map<nat, Call>) {
    && NODE in w.tables.status && w.tables.status[NODE] == Active
    && NODE in w.chain && w.chain[NODE] == chain
    && NODE in w.tables.tentative && w.tables.tentative[NODE] == row
    && w.calls == calls
  }

  ghost predicate Ledger(w: World, now: int, usedKeys: set<Key>, rolledBack: seq<Key>, log: seq<LogRow>) {
    w.now == now && w.usedKeys == usedKeys && w.rolledBack == rolledBack && w.tables.log == log
  }

  const FIRST_CALL: Call := Sending(NODE, Slashed, Active, 10)
  const CONFIRMED_CALL: Call := Confirmed(NODE, Slashed, Active, 10, 0)
  const FIRST_ROW: Row := Row(Slashed, 10, PENDING, false, 30_000)
  const SWEEPER: Call := Sweeping(NODE, Slashed, 10)
  const FIRST_LOG: LogRow := LogRow(NODE, 10, Slashed)

  lemma FirstCallReads(w0: World) returns (events: seq<Event>)
    requires Untouched(Run(w0, []))
    ensures var w := Run(w0, events);
            && NODE in w.tables.status && w.tables.status[NODE] == Active && NODE in w.chain && w.chain[NODE] == Active
            && NODE !in w.tables.tentative && w.calls == map[1 := Reading(NODE, Slashed, Active)] && Ledger(w, 0, {}, [], [])
  {
    hide Run;
    events := Then(w0, [], Begin(1, NODE, Slashed));
  }

  // A call that has written its row.
  lemma WrittenRecord(w0: World) returns (events: seq<Event>)
    requires Untouched(Run(w0, []))
    ensures Shows(Run(w0, events), Active, FIRST_ROW, map[1 := FIRST_CALL]) && Ledger(Run(w0, events), 0, {10}, [], [])
  {
    hide Run;
    events := FirstCallReads(w0);
    hide Untouched;
    events := Then(w0, events, Phase1(1, 10));
  }

  // Time passes, and a sweeper selects the expired row.
  lemma RowExpires(w0: World, events: seq<Event>, chain: Status, c: Call) returns (longer: seq<Event>)
    requires Shows(Run(w0, events), chain, FIRST_ROW, map[1 := c]) && Ledger(Run(w0, events), 0, {10}, [], [])
    ensures Shows(Run(w0, longer), chain, FIRST_ROW, map[1 := c, 8 := SWEEPER]) && Ledger(Run(w0, longer), 30_001, {10}, [], [])
  {
    hide Run;
    longer := Then(w0, events, Tick(30_001));
    longer := Then(w0, longer, SweepReads(8, NODE));
  }

  lemma SecondSweeperSelects(w0: World, events: seq<Event>) returns (longer: seq<Event>)
    requires Shows(Run(w0, events), Active, FIRST_ROW, map[1 := FIRST_CALL, 8 := SWEEPER]) && Ledger(Run(w0, events), 30_001, {10}, [], [])
    ensures Shows(Run(w0, longer), Active, FIRST_ROW, map[1 := FIRST_CALL, 8 := SWEEPER, 9 := SWEEPER])
    ensures Ledger(Run(w0, longer), 30_001, {10}, [], [])
  {
    hide Run;
    longer := Then(w0, events, SweepReads(9, NODE));
  }

  lemma CallCrashes(w0: World, events: seq<Event>) returns (longer: seq<Event>)
    requires Shows(Run(w0, events), Active, FIRST_ROW, map[1 := FIRST_CALL, 8 := SWEEPER, 9 := SWEEPER])
    requires Ledger(Run(w0, events), 30_001, {10}, [], [])
    ensures Shows(Run(w0, longer), Active, FIRST_ROW, map[8 := SWEEPER, 9 := SWEEPER]) && Ledger(Run(w0, longer), 30_001, {10}, [], [])
  {
    hide Run;
    assert Run(w0, events).calls - {1} == map[8 := SWEEPER, 9 := SWEEPER];
    longer := Then(w0, events, Crash(1));
  }

  lemma FirstSweepActs(w0: World, events: seq<Event>) returns (longer: seq<Event>)
    requires Shows(Run(w0, events), Active, FIRST_ROW, map[8 := SWEEPER, 9 := SWEEPER]) && Ledger(Run(w0, events), 30_001, {10}, [], [])
    ensures Shows(Run(w0, longer), Active, FIRST_ROW.(state := ROLLED_BACK), map[9 := SWEEPER])
    ensures Ledger(Run(w0, longer), 30_001, {10}, [10], [FIRST_LOG])
  {
    hide Run;
    longer := Then(w0, events, SweepActs(8));
  }

  // Another call reads the status, and writes a fresh record.
  lemma NextCallReads(w0: World, events: seq<Event>) returns (longer: seq<Event>)
    requires Shows(Run(w0, events), Active, FIRST_ROW.(state := ROLLED_BACK), map[9 := SWEEPER])
    requires Ledger(Run(w0, events), 30_001, {10}, [10], [FIRST_LOG])
    ensures Shows(Run(w0, longer), Active, FIRST_ROW.(state := ROLLED_BACK), map[2 := Reading(NODE, Archived, Active), 9 := SWEEPER])
    ensures Ledger(Run(w0, longer), 30_001, {10}, [10], [FIRST_LOG])
  {
    hide Run;
    longer := Then(w0, events, Begin(2, NODE, Archived));
  }

  lemma FreshRecord(w0: World, events: seq<Event>) returns (longer: seq<Event>)
    requires Shows(Run(w0, events), Active, FIRST_ROW.(state := ROLLED_BACK), map[2 := Reading(NODE, Archived, Active), 9 := SWEEPER])
    requires Ledger(Run(w0, events), 30_001, {10}, [10], [FIRST_LOG])
    ensures Shows(Run(w0, longer), Active, Row(Archived, 20, PENDING, false, 60_001),
                  map[2 := Sending(NODE, Archived, Active, 20), 9 := SWEEPER])
    ensures Ledger(Run(w0, longer), 30_001, {10, 20}, [10], [FIRST_LOG])
  {
    hide Run;
    longer := Then(w0, events, Phase1(2, 20));
  }

  // A sweep that selected an expired row acts after the node has a new one: it
  // rolls back the fresh record and logs the key of the old one.
  lemma StaleSweepKillsFreshRecord() returns (events: seq<Event>)
    ensures var w := Run(START, events);
            && w.rolledBack == [10, 20]
            && w.tables.log == [LogRow(NODE, 10, Slashed), LogRow(NODE, 10, Slashed)]
            && NODE in w.tables.tentative && w.tables.tentative[NODE].key == 20
            && w.tables.tentative[NODE].state == ROLLED_BACK && w.now < w.tables.tentative[NODE].expiresAt
  {
    var w0 := START;
    NothingYet();
    hide Run;
    hide Start;
    events := WrittenRecord(w0);
    events := RowExpires(w0, events, Active, FIRST_CALL);
    events := SecondSweeperSelects(w0, events);
    events := CallCrashes(w0, events);
    events := FirstSweepActs(w0, events);
    events := NextCallReads(w0, events);
    events := FreshRecord(w0, events);
    events := Then(w0, events, SweepActs(9));
  }

  // A rollback logs the record it rolls back when the row still carries the key the caller read.
  lemma RollbackLogsItsRecordIff(w: World, id: nat)
    requires id in w.calls && (w.calls[id].Sweeping? || w.calls[id].ForceRollingBack? || w.calls[id].Refused?)
    requires w.tables.HasPending(w.calls[id].node) && LogNamesItsRecords(w)
    ensures var c := w.calls[id];
            LogNamesItsRecords(RollBack(w, c.node, c.key, c.target)) <==> w.tables.tentative[c.node].key == c.key
  {
    var c := w.calls[id];
    var next := RollBack(w, c.node, c.key, c.target);
    assert next.tables.log[|w.rolledBack|].key == c.key;
    assert next.rolledBack[|w.rolledBack|] == w.tables.tentative[c.node].key;
  }

  // The condition over a run: every write of the node's status meets one that leads to its target.
  predicate WriteAllowed(w: World, e: Event, n: Node)
    requires n in w.tables.status
  {
    match e
    case CommitSucceeds(id) =>
      id in w.calls && w.calls[id].Confirmed? && w.calls[id].node == n ==> w.calls[id].target in Allowed(w.tables.status[n])
    case CommitReplyLost(id) =>
      id in w.calls && w.calls[id].Confirmed? && w.calls[id].node == n ==> w.calls[id].target in Allowed(w.tables.status[n])
    case AdminActs(id) =>
      id in w.calls && w.calls[id].ForceCommitting? && w.calls[id].node == n ==> w.calls[id].target in Allowed(w.tables.status[n])
    case _ => true
  }

  predicate WritesAllowed(w: World, events: seq<Event>, n: Node) {
    events == []
    || (WritesAllowed(w, events[..|events| - 1], n)
        && n in Run(w, events[..|events| - 1]).tables.status
        && WriteAllowed(Run(w, events[..|events| - 1]), events[|events| - 1], n))
  }

  // The history of the node ends in its status.
  ghost predicate Recorded(w: World, n: Node) {
    n in w.tables.status && n in w.history && w.history[n] != [] && w.history[n][|w.history[n]| - 1] == w.tables.status[n]
  }

  lemma WriteKeepsPathIff(w: World, e: Event, n: Node)
    requires Recorded(w, n)
    ensures Recorded(Apply(w, e), n)
    ensures Path(Apply(w, e).history[n]) <==> Path(w.history[n]) && WriteAllowed(w, e, n)
  {
    var h, g := w.history[n], Apply(w, e).history[n];
    if g != h {
      assert g[..|h|] == h && |g| == |h| + 1;
      assert h == g[..|h|];
      assert g[|h| - 1] == w.tables.status[n];
    }
  }

  /** Over any run, the history of a node stays a path exactly when every commit and admin write met a status allowing its target. */
  lemma {:induction false} HistoryIsPathIff(w: World, events: seq<Event>, n: Node)
    requires Recorded(w, n) && Path(w.history[n])
    ensures Recorded(Run(w, events), n)
    ensures Path(Run(w, events).history[n]) <==> WritesAllowed(w, events, n)
  {
    if events != [] {
      HistoryIsPathIff(w, events[..|events| - 1], n);
      WriteKeepsPathIff(Run(w, events[..|events| - 1]), events[|events| - 1], n);
    }
  }

  // ------------------------------------------------------------ overlapping calls

  // A commit or an admin writes the node's status.
  predicate WritesStatus(w: World, e: Event, n: Node) {
    match e
    case CommitSucceeds(id) => id in w.calls && w.calls[id].Confirmed? && w.calls[id].node == n
    case CommitReplyLost(id) => id in w.calls && w.calls[id].Confirmed? && w.calls[id].node == n
    case AdminActs(id) => id in w.calls && w.calls[id].ForceCommitting? && w.calls[id].node == n
    case _ => false
  }

  predicate SomeWrite(w: World, events: seq<Event>, n: Node) {
    events != []
    && (SomeWrite(w, events[..|events| - 1], n) || WritesStatus(Run(w, events[..|events| - 1]), events[|events| - 1], n))
  }

  lemma TableStepStatus(w: World, e: Event, n: Node)
    requires n in w.tables.status && !Quiet(e)
    ensures var next := Apply(w, e);
            n in next.tables.status
            && next.tables.status[n] == if WritesStatus(w, e, n) then w.calls[e.id].target else w.tables.status[n]
  {
  }

  lemma WriteClimbs(w: World, e: Event, n: Node)
    requires Recorded(w, n) && WriteAllowed(w, e, n)
    ensures n in Apply(w, e).tables.status
    ensures if WritesStatus(w, e, n) then Rank(w.tables.status[n]) < Rank(Apply(w, e).tables.status[n])
            else Apply(w, e).tables.status[n] == w.tables.status[n]
  {
    hide Apply;
    if Quiet(e) {
      QuietKeepsTables(w, e);
    } else {
      TableStepStatus(w, e, n);
    }
  }

  // Along a path the status never comes back to what it was.
  lemma {:induction false} WritesClimb(w: World, events: seq<Event>, n: Node)
    requires Recorded(w, n) && Recorded(Run(w, events), n) && Path(Run(w, events).history[n])
    ensures if SomeWrite(w, events, n) then Rank(w.tables.status[n]) < Rank(Run(w, events).tables.status[n])
            else Run(w, events).tables.status[n] == w.tables.status[n]
  {
    if events != [] {
      var front, e := events[..|events| - 1], events[|events| - 1];
      StaysRecorded(w, front, n);
      WriteKeepsPathIff(Run(w, front), e, n);
      WriteClimbs(Run(w, front), e, n);
      WritesClimb(w, front, n);
    }
  }

  lemma {:induction false} StaysRecorded(w: World, events: seq<Event>, n: Node)
    requires Recorded(w, n)
    ensures Recorded(Run(w, events), n)
  {
    if events != [] {
      StaysRecorded(w, events[..|events| - 1], n);
      WriteKeepsPathIff(Run(w, events[..|events| - 1]), events[|events| - 1], n);
    }
  }

  /**
   What overlap does to a commit: it keeps the history a path exactly when nothing
   has written the node's status since its call read it, or when the call archives a
   node it read as Active and that has only been slashed since.
   */
  lemma OverlapKeepsPathIff(w: World, id: nat, n: Node, target: Status, after: seq<Event>)
    requires Recorded(w, n) && id !in w.calls && target in Allowed(w.tables.status[n])
    requires var late := Run(Apply(w, Begin(id, n, target)), after);
             && id in late.calls && late.calls[id].Confirmed?
             && late.calls[id].node == n && late.calls[id].target == target && late.calls[id].from == w.tables.status[n]
             && n in late.history && Path(late.history[n])
    ensures var begun := Apply(w, Begin(id, n, target));
            var late := Run(begun, after);
            && n in late.tables.status
            && n in Apply(late, CommitSucceeds(id)).history
            && (Path(Apply(late, CommitSucceeds(id)).history[n])
                <==> !SomeWrite(begun, after, n)
                     || (w.tables.status[n] == Active && late.tables.status[n] == Slashed && target == Archived))
  {
    var begun := Apply(w, Begin(id, n, target));
    assert Recorded(begun, n);
    StaysRecorded(begun, after, n);
    WritesClimb(begun, after, n);
    WriteKeepsPathIff(Run(begun, after), CommitSucceeds(id), n);
    TwoSources(w.tables.status[n], Run(begun, after).tables.status[n], target);
  }

  // Two different statuses lead to one target only where Active and Slashed lead to Archived.
  lemma TwoSources(from: Status, s: Status, target: Status)
    requires target in Allowed(from)
    ensures target in Allowed(s) && Rank(from) < Rank(s) <==> from == Active && s == Slashed && target == Archived
  {
  }

  // ------------------------------------------------------------ late sweeps

  // A Phase 1 that writes the node's row.
  predicate Phase1Writes(w: World, e: Event, n: Node) {
    && e.Phase1? && e.id in w.calls && w.calls[e.id].Reading? && w.calls[e.id].node == n
    && e.key !in w.usedKeys && !w.tables.HasPending(n)
  }

  predicate SomePhase1Writes(w: World, events: seq<Event>, n: Node) {
    events != []
    && (SomePhase1Writes(w, events[..|events| - 1], n) || Phase1Writes(Run(w, events[..|events| - 1]), events[|events| - 1], n))
  }

  lemma Phase1KeyStep(w: World, e: Event, n: Node, key: Key)
    requires n in w.tables.tentative && key in w.usedKeys && e.Phase1?
    ensures var next := Apply(w, e);
            && n in next.tables.tentative && key in next.usedKeys
            && (next.tables.tentative[n].key == key <==> w.tables.tentative[n].key == key && !Phase1Writes(w, e, n))
  {
  }

  lemma OtherKeyStep(w: World, e: Event, n: Node)
    requires n in w.tables.tentative && !e.Phase1? && !Quiet(e)
    ensures var next := Apply(w, e);
            n in next.tables.tentative && next.tables.tentative[n].key == w.tables.tentative[n].key && next.usedKeys == w.usedKeys
  {
  }

  // A used key never comes back: a Phase 1 that writes the row brings a fresh one.
  lemma KeyStep(w: World, e: Event, n: Node, key: Key)
    requires n in w.tables.tentative && key in w.usedKeys
    ensures var next := Apply(w, e);
            && n in next.tables.tentative && key in next.usedKeys
            && (next.tables.tentative[n].key == key <==> w.tables.tentative[n].key == key && !Phase1Writes(w, e, n))
  {
    hide Apply;
    if e.Phase1? {
      Phase1KeyStep(w, e, n, key);
    } else if Quiet(e) {
      QuietKeepsTables(w, e);
    } else {
      OtherKeyStep(w, e, n);
    }
  }

  lemma {:induction false} KeyChangesIff(w: World, events: seq<Event>, n: Node)
    requires n in w.tables.tentative && w.tables.tentative[n].key in w.usedKeys
    ensures var u := Run(w, events);
            && n in u.tables.tentative && w.tables.tentative[n].key in u.usedKeys
            && (u.tables.tentative[n].key == w.tables.tentative[n].key <==> !SomePhase1Writes(w, events, n))
  {
    if events != [] {
      hide Apply;
      hide Phase1Writes;
      KeyChangesIff(w, events[..|events| - 1], n);
      KeyStep(Run(w, events[..|events| - 1]), events[|events| - 1], n, w.tables.tentative[n].key);
    }
  }

  // A sweeper that has selected a row and neither acts nor crashes in a run.
  predicate LeavesSweeper(events: seq<Event>, id: nat) {
    forall i :: 0 <= i < |events| ==> events[i] != SweepActs(id) && events[i] != Crash(id)
  }

  lemma SweeperStays(w: World, e: Event, id: nat)
    requires id in w.calls && w.calls[id].Sweeping? && e != SweepActs(id) && e != Crash(id)
    ensures id in Apply(w, e).calls && Apply(w, e).calls[id] == w.calls[id]
  {
  }

  lemma {:induction false} SweeperWaits(w: World, events: seq<Event>, id: nat)
    requires id in w.calls && w.calls[id].Sweeping? && LeavesSweeper(events, id)
    ensures id in Run(w, events).calls && Run(w, events).calls[id] == w.calls[id]
  {
    if events != [] {
      hide Apply;
      SweeperWaits(w, events[..|events| - 1], id);
      SweeperStays(Run(w, events[..|events| - 1]), events[|events| - 1], id);
    }
  }

  /**
   A late sweep logs the record it selected, and rolls back whatever record the row
   holds by then: the same one, so that the log keeps naming what was rolled back,
   exactly when no Phase 1 has written the row since.
   */
  lemma SweepHitsItsRecordIff(initial: map<Node, Status>, now: int, before: seq<Event>, after: seq<Event>, id: nat, n: Node)
    requires var w := Run(Start(initial, now), before); id !in w.calls && w.tables.SweepSelects(n, w.now)
    requires LeavesSweeper(after, id)
    ensures var w := Run(Start(initial, now), before);
            var selected := w.tables.tentative[n];
            var late := Run(Apply(w, SweepReads(id, n)), after);
            var next := Apply(late, SweepActs(id));
            && n in late.tables.tentative
            && (!late.tables.HasPending(n) ==> next == Finish(late, id))
            && (late.tables.HasPending(n) ==>
                  && next.tables.log == late.tables.log + [LogRow(n, selected.key, selected.target)]
                  && next.rolledBack == late.rolledBack + [late.tables.tentative[n].key]
                  && (late.tables.tentative[n].key == selected.key
                      <==> !SomePhase1Writes(Apply(w, SweepReads(id, n)), after, n))
                  && (LogNamesItsRecords(late) ==>
                        (LogNamesItsRecords(next) <==> !SomePhase1Writes(Apply(w, SweepReads(id, n)), after, n))))
  {
    var w := Run(Start(initial, now), before);
    EveryRunAccounts(initial, now, before);
    assert RowOk(w, n);
    KeyChangesIff(Apply(w, SweepReads(id, n)), after, n);
    SweeperWaits(Apply(w, SweepReads(id, n)), after, id);
    var late := Run(Apply(w, SweepReads(id, n)), after);
    if late.tables.HasPending(n) && LogNamesItsRecords(late) {
      RollbackLogsItsRecordIff(late, id);
    }
  }

  // ------------------------------------------------------------ marked rows

  predicate Marked(w: World, n: Node) {
    w.tables.HasPending(n) && w.tables.tentative[n].commitFailed
  }

  // The acting step of a call in flight that writes the node's row.
  predicate Resolves(w: World, e: Event, n: Node) {
    match e
    case CommitSucceeds(id) => id in w.calls && w.calls[id].node == n && w.calls[id].Confirmed?
    case CommitReplyLost(id) => id in w.calls && w.calls[id].node == n && w.calls[id].Confirmed?
    case RollbackRefused(id) => id in w.calls && w.calls[id].node == n && w.calls[id].Refused?
    case AdminActs(id) =>
      id in w.calls && w.calls[id].node == n && (w.calls[id].ForceCommitting? || w.calls[id].ForceRollingBack?)
    case SweepActs(id) => id in w.calls && w.calls[id].node == n && w.calls[id].Sweeping?
    case _ => false
  }

  /** Exactly these events change a marked row. */
  lemma MarkedRowChangesIff(w: World, e: Event, n: Node)
    requires Marked(w, n)
    ensures n in Apply(w, e).tables.tentative
    ensures Apply(w, e).tables.tentative[n] != w.tables.tentative[n] <==> Resolves(w, e, n)
  {
    if Quiet(e) {
      hide Apply;
      QuietKeepsTables(w, e);
    } else {
      TableStepOnMarked(w, e, n);
    }
  }

  lemma TableStepOnMarked(w: World, e: Event, n: Node)
    requires Marked(w, n) && !Quiet(e)
    ensures n in Apply(w, e).tables.tentative
    ensures Apply(w, e).tables.tentative[n] != w.tables.tentative[n] <==> Resolves(w, e, n)
  {
  }

  // A call that has such a step ahead: everything in flight but a fresh read and an exhausted call.
  predicate MayResolve(c: Call) {
    !c.Reading? && !c.Exhausted?
  }

  predicate NoneMayResolve(w: World, n: Node) {
    forall id :: id in w.calls && w.calls[id].node == n ==> !MayResolve(w.calls[id])
  }

  predicate NoAdminOn(events: seq<Event>, n: Node) {
    forall i :: 0 <= i < |events| && events[i].AdminReads? ==> events[i].node != n
  }

  predicate KeepsRow(w: World, events: seq<Event>, n: Node)
    requires n in w.tables.tentative
  {
    n in Run(w, events).tables.tentative && Run(w, events).tables.tentative[n] == w.tables.tentative[n]
  }

  lemma MarkedStep(w: World, e: Event, n: Node)
    requires Marked(w, n) && NoneMayResolve(w, n) && (e.AdminReads? ==> e.node != n)
    ensures Marked(Apply(w, e), n) && Apply(w, e).tables.tentative[n] == w.tables.tentative[n]
    ensures NoneMayResolve(Apply(w, e), n)
  {
    MarkedRowChangesIff(w, e, n);
    CallsStayHarmless(w, e, n);
  }

  lemma CallsStayHarmless(w: World, e: Event, n: Node)
    requires Marked(w, n) && NoneMayResolve(w, n) && (e.AdminReads? ==> e.node != n)
    ensures NoneMayResolve(Apply(w, e), n)
  {
    var next := Apply(w, e);
    forall id | id in next.calls && next.calls[id].node == n ensures !MayResolve(next.calls[id]) {
      if id in w.calls && next.calls[id] == w.calls[id] {
        assert !MayResolve(w.calls[id]);
      }
    }
  }

  lemma {:induction false} MarkedRun(w: World, events: seq<Event>, n: Node)
    requires Marked(w, n) && NoneMayResolve(w, n) && NoAdminOn(events, n)
    ensures Marked(Run(w, events), n) && KeepsRow(w, events, n) && NoneMayResolve(Run(w, events), n)
  {
    if events != [] {
      MarkedRun(w, events[..|events| - 1], n);
      MarkedStep(Run(w, events[..|events| - 1]), events[|events| - 1], n);
    }
  }

  // The steps with which a call in flight gets at the row.
  function Resolution(c: Call, id: nat): seq<Event>
    requires MayResolve(c)
  {
    match c
    case Sending(_, _, _, _) => [RpcFails(id), RollbackRefused(id)]
    case Confirmed(_, _, _, _, _) => [CommitSucceeds(id)]
    case Refused(_, _, _, _) => [RollbackRefused(id)]
    case Sweeping(_, _, _) => [SweepActs(id)]
    case _ => [AdminActs(id)]
  }

  lemma ResolutionChangesRow(w: World, n: Node, id: nat)
    requires Marked(w, n) && id in w.calls && w.calls[id].node == n && MayResolve(w.calls[id])
    ensures NoAdminOn(Resolution(w.calls[id], id), n) && !KeepsRow(w, Resolution(w.calls[id], id), n)
  {
    var events := Resolution(w.calls[id], id);
    assert Run(w, []) == w;
    if w.calls[id].Sending? {
      assert events[..1] == [RpcFails(id)] && events[..1][..0] == [];
      var refused := Apply(w, RpcFails(id));
      assert Run(w, events[..1]) == refused;
      MarkedRowChangesIff(refused, RollbackRefused(id), n);
    } else {
      assert events[..0] == [];
      MarkedRowChangesIff(w, events[0], n);
    }
  }

  /** A marked row survives every run without an admin on its node exactly when no call in flight has an acting step ahead. */
  lemma MarkedRowIsSafe(w: World, n: Node)
    requires Marked(w, n)
    ensures NoneMayResolve(w, n) <==> forall events :: NoAdminOn(events, n) ==> KeepsRow(w, events, n)
  {
    if NoneMayResolve(w, n) {
      forall events | NoAdminOn(events, n) ensures KeepsRow(w, events, n) { MarkedRun(w, events, n); }
    } else {
      var id :| id in w.calls && w.calls[id].node == n && MayResolve(w.calls[id]);
      ResolutionChangesRow(w, n, id);
    }
  }

  /** Where the assumptions of agreement hold, only an admin already at work can have such a step ahead. */
  lemma DisciplinedMarksAreSafe(w: World, n: Node)
    requires Agreement(w) && Marked(w, n)
    ensures NoneMayResolve(w, n) <==> forall id :: id in w.calls && w.calls[id].node == n ==> !w.calls[id].ForceCommitting?
  {
    forall id | id in w.calls && w.calls[id].node == n ensures MayResolve(w.calls[id]) <==> w.calls[id].ForceCommitting? {
      assert CallOk(w, w.calls[id]);
    }
  }

  // A confirmed call that has outlived its row, which a sweeper has selected.
  lemma ExpiredConfirmedCall() returns (events: seq<Event>)
    ensures var w := Run(START, events);
            Shows(w, Slashed, FIRST_ROW, map[1 := CONFIRMED_CALL, 8 := SWEEPER]) && Ledger(w, 30_001, {10}, [], [])
  {
    var w0 := START;
    NothingYet();
    hide Run;
    hide Start;
    events := WrittenRecord(w0);
    events := Then(w0, events, RpcSucceeds(1));
    events := RowExpires(w0, events, Slashed, CONFIRMED_CALL);
  }

  // Every commit attempt of a confirmed call fails.
  lemma GivesUp(w0: World, events: seq<Event>, id: nat) returns (longer: seq<Event>)
    requires var w := Run(w0, events); id in w.calls && w.calls[id].Confirmed? && w.calls[id].failures == 0
    ensures var w := Run(w0, events);
            var c := w.calls[id];
            Run(w0, longer) == w.(calls := w.calls[id := Exhausted(c.node, c.target, c.from, c.key)])
  {
    var w := Run(w0, events);
    longer := Then(w0, events, CommitFails(id));
    assert Run(w0, longer) == w.(calls := w.calls[id := w.calls[id].(failures := 1)]);
    longer := Then(w0, longer, CommitFails(id));
  }

  // Its commits fail and it marks its row, which the sweeper still holds.
  lemma ExpiredMarkedRow() returns (events: seq<Event>)
    ensures Shows(Run(START, events), Slashed, FIRST_ROW.(commitFailed := true), map[8 := SWEEPER])
  {
    var w0 := START;
    events := ExpiredConfirmedCall();
    hide Run;
    events := GivesUp(w0, events, 1);
    events := Then(w0, events, MarkSucceeds(1));
  }

  /** A sweep that selected the row before the mark takes it afterwards: no call is left, and status and chain differ. */
  lemma LateSweepLosesTheMark() returns (events: seq<Event>)
    ensures events != [] && Marked(Run(START, events[..|events| - 1]), NODE)
    ensures var w := Run(START, events);
            && w.calls == map[] && NODE in w.tables.status && NODE in w.chain
            && w.tables.status[NODE] == Active && w.chain[NODE] == Slashed && !w.tables.HasPending(NODE)
            && NoCallOn(w, NODE) && !Settled(w, NODE)
  {
    var w0 := START;
    var marked := ExpiredMarkedRow();
    hide Run;
    events := Then(w0, marked, SweepActs(8));
    assert events[..|events| - 1] == marked;
    assert Run(w0, events).calls == map[];
  }

  // ------------------------------------------------------------ slow calls

  lemma SweptConfirmedCall() returns (events: seq<Event>)
    ensures Shows(Run(START, events), Slashed, FIRST_ROW.(state := ROLLED_BACK), map[1 := CONFIRMED_CALL])
  {
    events := ExpiredConfirmedCall();
    hide Run;
    events := Then(START, events, SweepActs(8));
  }

  /** A call that outlives its TTL: a sweep takes its record, its commits fail, its marker finds no PENDING row. */
  lemma SlowCallBreaksAgreement() returns (events: seq<Event>)
    ensures var w := Run(START, events);
            && w.calls == map[] && NODE in w.tables.status && NODE in w.chain
            && w.tables.status[NODE] == Active && w.chain[NODE] == Slashed && !w.tables.HasPending(NODE)
            && NoCallOn(w, NODE) && !Settled(w, NODE)
  {
    var w0 := START;
    events := SweptConfirmedCall();
    hide Run;
    events := GivesUp(w0, events, 1);
    events := Then(w0, events, MarkSucceeds(1));
    assert Run(w0, events).calls == map[];
  }

  /** The assumptions of agreement without the one on time: calls may take as long as they like. */
  predicate Unhurried(w: World, e: Event) {
    e.Tick? || Disciplined(w, e)
  }

  predicate UnhurriedRun(w: World, events: seq<Event>) {
    events == [] || (UnhurriedRun(w, events[..|events| - 1]) && Unhurried(Run(w, events[..|events| - 1]), events[|events| - 1]))
  }

  // The row a call has written: its own, and rolled back exactly when the record of rollbacks says so.
  ghost predicate OwnRow(w: World, n: Node, target: Status, from: Status, key: Key) {
    && n in w.tables.status && w.tables.status[n] == from && target in Allowed(from)
    && n in w.tables.tentative && w.tables.tentative[n].key == key && w.tables.tentative[n].target == target
    && !w.tables.tentative[n].commitFailed
    && w.tables.tentative[n].state == (if key in w.rolledBack then ROLLED_BACK else PENDING)
  }

  ghost predicate SlowCallOk(w: World, c: Call) {
    match c
    case Reading(n, target, from) => n in w.tables.status && w.tables.status[n] == from && target in Allowed(from)
    case Sending(n, target, from, key) => OwnRow(w, n, target, from, key)
    case Refused(n, target, from, key) => OwnRow(w, n, target, from, key)
    case Confirmed(n, target, from, key, _) => OwnRow(w, n, target, from, key) && n in w.chain && w.chain[n] == target
    case Exhausted(n, target, from, key) => OwnRow(w, n, target, from, key) && n in w.chain && w.chain[n] == target
    case ForceRollingBack(_, _, _) => false
    case _ => true
  }

  // At most one call on a node, sweepers aside.
  ghost predicate Alone(w: World, id: nat)
    requires id in w.calls
  {
    !w.calls[id].Sweeping? ==>
      forall k :: k in w.calls && k != id && w.calls[k].node == w.calls[id].node ==> w.calls[k].Sweeping?
  }

  ghost predicate SlowOk(w: World) {
    && (forall id {:trigger SlowCallOk(w, w.calls[id])} :: id in w.calls ==> SlowCallOk(w, w.calls[id]))
    && (forall id {:trigger Alone(w, id)} :: id in w.calls ==> Alone(w, id))
  }

  ghost predicate SameRollbacks(w: World, next: World, m: Node) {
    m in w.tables.tentative ==> (w.tables.tentative[m].key in w.rolledBack <==> w.tables.tentative[m].key in next.rolledBack)
  }

  // A step of call `id` on node `n`: other nodes, their records and other calls are as they were.
  ghost predicate OnlyHere(w: World, next: World, n: Node, id: nat) {
    && (forall m {:trigger SameNode(w, next, m)} :: m != n ==> SameNode(w, next, m))
    && (forall m {:trigger SameRollbacks(w, next, m)} :: m != n ==> SameRollbacks(w, next, m))
    && (forall k :: k != id ==> (k in next.calls <==> k in w.calls))
    && (forall k :: k != id && k in w.calls ==> next.calls[k] == w.calls[k])
    && (id in next.calls ==> next.calls[id].node == n)
  }

  // No call on the node but sweepers and perhaps `id`.
  ghost predicate OnlySweepersBeside(w: World, n: Node, id: nat) {
    forall k :: k in w.calls && k != id && w.calls[k].node == n ==> w.calls[k].Sweeping?
  }

  lemma OthersStaySlowOk(w: World, next: World, n: Node, id: nat)
    requires SlowOk(w) && OnlyHere(w, next, n, id) && OnlySweepersBeside(w, n, id)
    requires id in next.calls ==> SlowCallOk(next, next.calls[id])
    ensures SlowOk(next)
  {
    forall k | k in next.calls ensures SlowCallOk(next, next.calls[k]) {
      if k != id {
        assert SlowCallOk(w, w.calls[k]);
        assert w.calls[k].node != n ==> SameNode(w, next, w.calls[k].node) && SameRollbacks(w, next, w.calls[k].node);
      }
    }
    forall k | k in next.calls ensures Alone(next, k) {
      if k != id { assert Alone(w, k); }
    }
  }

  lemma RollbackIsHere(w: World, n: Node, key: Key, target: Status, id: nat)
    requires DistinctKeys(w.tables)
    ensures OnlyHere(w, Finish(RollBack(w, n, key, target), id), n, id)
  {
    var next := Finish(RollBack(w, n, key, target), id);
    forall m | m != n ensures SameRollbacks(w, next, m) {
      if m in w.tables.tentative && w.tables.HasPending(n) {
        assert w.tables.tentative[m].key != w.tables.tentative[n].key;
      }
    }
  }

  // A sweep keeps its node's other call: its row is now on record as rolled back.
  lemma SweepActsSlow(w: World, id: nat)
    requires SlowOk(w) && DistinctKeys(w.tables)
    ensures SlowOk(Apply(w, SweepActs(id)))
  {
    if id in w.calls && w.calls[id].Sweeping? {
      var n, next := w.calls[id].node, Apply(w, SweepActs(id));
      RollbackIsHere(w, n, w.calls[id].key, w.calls[id].target, id);
      forall k | k in next.calls ensures SlowCallOk(next, next.calls[k]) && Alone(next, k) {
        assert SlowCallOk(w, w.calls[k]) && Alone(w, k);
        assert w.calls[k].node != n ==> SameNode(w, next, w.calls[k].node) && SameRollbacks(w, next, w.calls[k].node);
      }
    }
  }

  lemma SweepReadsSlow(w: World, id: nat, n: Node)
    requires SlowOk(w)
    ensures SlowOk(Apply(w, SweepReads(id, n)))
  {
    var next := Apply(w, SweepReads(id, n));
    forall k | k in next.calls ensures SlowCallOk(next, next.calls[k]) && Alone(next, k) {
      if k in w.calls { assert SlowCallOk(w, w.calls[k]) && Alone(w, k); }
    }
  }

  lemma TickSlow(w: World, ms: nat)
    requires SlowOk(w)
    ensures SlowOk(Apply(w, Tick(ms)))
  {
    var next := Apply(w, Tick(ms));
    forall k | k in next.calls ensures SlowCallOk(next, next.calls[k]) && Alone(next, k) {
      assert SlowCallOk(w, w.calls[k]) && Alone(w, k);
    }
  }

  lemma FirstReadsSlow(w: World, e: Event)
    requires SlowOk(w) && Disciplined(w, e) && (e.Begin? || e.AdminReads?)
    ensures SlowOk(Apply(w, e))
  {
    if Apply(w, e) != w { OthersStaySlowOk(w, Apply(w, e), e.node, e.id); }
  }

  lemma Phase1Slow(w: World, initial: map<Node, Status>, id: nat, key: Key)
    requires SlowOk(w) && Accounts(w, initial)
    ensures SlowOk(Apply(w, Phase1(id, key)))
  {
    if id in w.calls && w.calls[id].Reading? && key !in w.usedKeys {
      assert SlowCallOk(w, w.calls[id]) && Alone(w, id);
      OthersStaySlowOk(w, Apply(w, Phase1(id, key)), w.calls[id].node, id);
    }
  }

  lemma RpcSucceedsSlow(w: World, id: nat)
    requires SlowOk(w)
    ensures SlowOk(Apply(w, RpcSucceeds(id)))
  {
    if id in w.calls && w.calls[id].Sending? {
      assert SlowCallOk(w, w.calls[id]) && Alone(w, id);
      OthersStaySlowOk(w, Apply(w, RpcSucceeds(id)), w.calls[id].node, id);
    }
  }

  lemma RpcFailsSlow(w: World, id: nat)
    requires SlowOk(w)
    ensures SlowOk(Apply(w, RpcFails(id)))
  {
    if id in w.calls && w.calls[id].Sending? {
      assert SlowCallOk(w, w.calls[id]) && Alone(w, id);
      OthersStaySlowOk(w, Apply(w, RpcFails(id)), w.calls[id].node, id);
    }
  }

  lemma CommitFailsSlow(w: World, id: nat)
    requires SlowOk(w)
    ensures SlowOk(Apply(w, CommitFails(id)))
  {
    if id in w.calls && w.calls[id].Confirmed? {
      assert SlowCallOk(w, w.calls[id]) && Alone(w, id);
      OthersStaySlowOk(w, Apply(w, CommitFails(id)), w.calls[id].node, id);
    }
  }

  lemma CommitSlow(w: World, id: nat)
    requires SlowOk(w)
    ensures SlowOk(Apply(w, CommitSucceeds(id)))
  {
    if id in w.calls && w.calls[id].Confirmed? {
      assert SlowCallOk(w, w.calls[id]) && Alone(w, id);
      OthersStaySlowOk(w, Apply(w, CommitSucceeds(id)), w.calls[id].node, id);
    }
  }

  lemma MarkSlow(w: World, id: nat)
    requires SlowOk(w)
    ensures SlowOk(Apply(w, MarkSucceeds(id)))
  {
    if id in w.calls && w.calls[id].Exhausted? {
      assert SlowCallOk(w, w.calls[id]) && Alone(w, id);
      OthersStaySlowOk(w, Apply(w, MarkSucceeds(id)), w.calls[id].node, id);
    }
  }

  lemma RefusedSlow(w: World, id: nat)
    requires SlowOk(w) && DistinctKeys(w.tables)
    ensures SlowOk(Apply(w, RollbackRefused(id)))
  {
    if id in w.calls && w.calls[id].Refused? {
      var c := w.calls[id];
      assert Alone(w, id);
      RollbackIsHere(w, c.node, c.key, c.target, id);
      OthersStaySlowOk(w, Apply(w, RollbackRefused(id)), c.node, id);
    }
  }

  lemma AdminActsSlow(w: World, id: nat)
    requires SlowOk(w)
    ensures SlowOk(Apply(w, AdminActs(id)))
  {
    if id in w.calls {
      assert SlowCallOk(w, w.calls[id]) && Alone(w, id);
      if w.calls[id].ForceCommitting? { OthersStaySlowOk(w, Apply(w, AdminActs(id)), w.calls[id].node, id); }
    }
  }

  lemma StepStaysSlowOk(w: World, initial: map<Node, Status>, e: Event)
    requires SlowOk(w) && Accounts(w, initial) && Unhurried(w, e)
    ensures SlowOk(Apply(w, e))
  {
    hide SlowOk;
    hide Apply;
    match e
    case Tick(ms) => TickSlow(w, ms);
    case Begin(_, _, _) => FirstReadsSlow(w, e);
    case AdminReads(_, _, _) => FirstReadsSlow(w, e);
    case Phase1(id, key) => Phase1Slow(w, initial, id, key);
    case SweepReads(id, n) => SweepReadsSlow(w, id, n);
    case SweepActs(id) => SweepActsSlow(w, id);
    case RpcSucceeds(id) => RpcSucceedsSlow(w, id);
    case RpcFails(id) => RpcFailsSlow(w, id);
    case CommitFails(id) => CommitFailsSlow(w, id);
    case CommitSucceeds(id) => CommitSlow(w, id);
    case MarkSucceeds(id) => MarkSlow(w, id);
    case RollbackRefused(id) => RefusedSlow(w, id);
    case AdminActs(id) => AdminActsSlow(w, id);
  }

  lemma {:induction false} RunStaysSlowOk(w: World, initial: map<Node, Status>, events: seq<Event>)
    requires SlowOk(w) && Accounts(w, initial) && UnhurriedRun(w, events)
    ensures SlowOk(Run(w, events)) && Accounts(Run(w, events), initial)
  {
    hide SlowOk;
    hide Accounts;
    if events != [] {
      RunStaysSlowOk(w, initial, events[..|events| - 1]);
      StepStaysSlowOk(Run(w, events[..|events| - 1]), initial, events[|events| - 1]);
      StepAccounts(Run(w, events[..|events| - 1]), initial, events[|events| - 1]);
    }
  }

  // A sweeper acts on the node.
  predicate SweepActsOn(w: World, e: Event, n: Node) {
    e.SweepActs? && e.id in w.calls && w.calls[e.id].Sweeping? && w.calls[e.id].node == n
  }

  predicate SomeSweepActsOn(w: World, events: seq<Event>, n: Node) {
    events != []
    && (SomeSweepActsOn(w, events[..|events| - 1], n) || SweepActsOn(Run(w, events[..|events| - 1]), events[|events| - 1], n))
  }

  // The call is at work on the record with this key.
  predicate Holds(w: World, id: nat, n: Node, key: Key) {
    id in w.calls && HoldsRow(w.calls[id]) && w.calls[id].node == n && w.calls[id].key == key
  }

  // A call that is at work on a key used before was already at work on it.
  lemma HolderHeld(w: World, e: Event, id: nat, n: Node, key: Key)
    requires key in w.usedKeys && Holds(Apply(w, e), id, n, key)
    ensures Holds(w, id, n, key)
  {
  }

  lemma HolderUnderRollback(w: World, id: nat, n: Node, key: Key, k: nat)
    requires SlowOk(w) && DistinctKeys(w.tables) && Holds(w, id, n, key) && k in w.calls && k != id
    requires w.calls[k].Refused? || w.calls[k].Sweeping?
    ensures var c := w.calls[k];
            key in RollBack(w, c.node, c.key, c.target).rolledBack
            <==> key in w.rolledBack || (c.Sweeping? && c.node == n)
  {
    assert SlowCallOk(w, w.calls[id]) && Alone(w, id);
    assert SlowCallOk(w, w.calls[k]);
  }

  // While the call is at work, only a sweeper rolls its record back.
  lemma HolderStep(w: World, e: Event, id: nat, n: Node, key: Key)
    requires SlowOk(w) && DistinctKeys(w.tables) && Unhurried(w, e)
    requires key in w.usedKeys && Holds(Apply(w, e), id, n, key)
    ensures Holds(w, id, n, key)
    ensures key in Apply(w, e).rolledBack <==> key in w.rolledBack || SweepActsOn(w, e, n)
  {
    HolderHeld(w, e, id, n, key);
    if (e.SweepActs? || e.RollbackRefused?) && e.id in w.calls {
      hide SlowOk;
      hide DistinctKeys;
      if e.id != id && (w.calls[e.id].Refused? || w.calls[e.id].Sweeping?) { HolderUnderRollback(w, id, n, key, e.id); }
    } else if e.AdminActs? && e.id in w.calls {
      assert SlowCallOk(w, w.calls[e.id]);
    }
  }

  lemma {:induction false} HolderIsRolledBackIff(w: World, initial: map<Node, Status>, events: seq<Event>, id: nat, n: Node, key: Key)
    requires SlowOk(w) && Accounts(w, initial) && UnhurriedRun(w, events)
    requires Holds(w, id, n, key) && key in w.usedKeys && key !in w.rolledBack && Holds(Run(w, events), id, n, key)
    ensures key in Run(w, events).rolledBack <==> SomeSweepActsOn(w, events, n)
  {
    if events != [] {
      var front := events[..|events| - 1];
      var u := Run(w, front);
      RunStaysSlowOk(w, initial, front);
      KeysStayUsed(w, front);
      HolderStep(u, events[|events| - 1], id, n, key);
      HolderIsRolledBackIff(w, initial, front, id, n, key);
    }
  }

  lemma {:induction false} KeysStayUsed(w: World, events: seq<Event>)
    ensures w.usedKeys <= Run(w, events).usedKeys
  {
    if events != [] {
      hide Apply;
      KeysStayUsed(w, events[..|events| - 1]);
      KeysGrow(Run(w, events[..|events| - 1]), events[|events| - 1]);
    }
  }

  lemma KeysGrow(w: World, e: Event)
    ensures w.usedKeys <= Apply(w, e).usedKeys
  {
    if Quiet(e) {
      hide Apply;
      QuietKeepsTables(w, e);
    }
  }

  lemma HolderAtTheEnd(w: World, initial: map<Node, Status>, id: nat)
    requires SlowOk(w) && Accounts(w, initial) && id in w.calls
    ensures var c := w.calls[id];
            && (c.Confirmed? ==> NoCallOn(Apply(w, CommitSucceeds(id)), c.node) && Settled(Apply(w, CommitSucceeds(id)), c.node))
            && (c.Exhausted? ==>
                  && NoCallOn(Apply(w, MarkSucceeds(id)), c.node)
                  && (Settled(Apply(w, MarkSucceeds(id)), c.node) <==> c.key !in w.rolledBack)
                  && (w.tables.HasPending(c.node) <==> c.key !in w.rolledBack))
  {
    assert SlowCallOk(w, w.calls[id]) && Alone(w, id);
  }

  /**
   However long calls take, otherwise as agreement assumes: a commit settles its
   node, and so does the marker of an exhausted call exactly when no sweep has acted
   on the node since the call's Phase 1, that is, when its row is still PENDING.
   */
  lemma SlowCallSettlesIff(initial: map<Node, Status>, now: int, before: seq<Event>, id: nat, n: Node, key: Key, after: seq<Event>)
    requires UnhurriedRun(Start(initial, now), before) && Phase1Writes(Run(Start(initial, now), before), Phase1(id, key), n)
    requires var w := Apply(Run(Start(initial, now), before), Phase1(id, key));
             UnhurriedRun(w, after) && Holds(Run(w, after), id, n, key)
    ensures var w := Apply(Run(Start(initial, now), before), Phase1(id, key));
            var late := Run(w, after);
            && (late.calls[id].Confirmed? ==>
                  NoCallOn(Apply(late, CommitSucceeds(id)), n) && Settled(Apply(late, CommitSucceeds(id)), n))
            && (late.calls[id].Exhausted? ==>
                  && NoCallOn(Apply(late, MarkSucceeds(id)), n)
                  && (Settled(Apply(late, MarkSucceeds(id)), n) <==> !SomeSweepActsOn(w, after, n))
                  && (late.tables.HasPending(n) <==> !SomeSweepActsOn(w, after, n)))
  {
    var w0 := Run(Start(initial, now), before);
    assert Accounts(Start(initial, now), initial) && SlowOk(Start(initial, now)) by {
      EveryRunAccounts(initial, now, []);
    }
    RunStaysSlowOk(Start(initial, now), initial, before);
    Phase1Slow(w0, initial, id, key);
    Phase1Accounts(w0, initial, id, key);
    var w := Apply(w0, Phase1(id, key));
    RunStaysSlowOk(w, initial, after);
    HolderIsRolledBackIff(w, initial, after, id, n, key);
    HolderAtTheEnd(Run(w, after), initial, id);
  }
}
