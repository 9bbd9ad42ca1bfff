/** What the persisted halt events say after a restart, compared with the manager's memory. */
module KillSwitchLog {
  import opened Modes
  import opened KillSwitch

  // ---------- reading the log ----------

  /** LoadActiveHalts over rows in the given order: a later row replaces an earlier one of its scope. */
  function Loaded(rows: seq<Row>): map<string, Halt>
  {
    if rows == [] then map[]
    else
      var m, r := Loaded(rows[..|rows| - 1]), rows[|rows| - 1];
      if r.resumed then m else m[r.halt.scope := r.halt]
  }

  ghost predicate HasRow(rows: seq<Row>, l: Level)
  {
    exists i :: 0 <= i < |rows| && !rows[i].resumed && rows[i].halt.level == l
  }

  /** The risk engine's startup query: the most severe level among the rows not resumed. */
  ghost function QueriedMode(rows: seq<Row>): Mode
  {
    if HasRow(rows, FullStop) then FullStopMode
    else if HasRow(rows, CancelOnly) then CancelOnlyMode
    else if HasRow(rows, SoftPause) then SoftPauseMode
    else Normal
  }

  /** The halts the log can know about. */
  function KnownHalts(halts: map<string, Halt>): map<string, Halt>
  {
    map s | s in halts && halts[s].level.Known() :: halts[s]
  }

  // ---------- the invariant ----------

  /** Rows of one scope that are not resumed rise strictly in severity. */
  ghost predicate Rising(rows: seq<Row>)
  {
    && (forall i :: 0 <= i < |rows| ==> rows[i].halt.level.Known())
    && (forall i, j :: 0 <= i < j < |rows| && !rows[i].resumed && !rows[j].resumed
                       && rows[i].halt.scope == rows[j].halt.scope
          ==> rows[i].halt.level.Rank() < rows[j].halt.level.Rank())
  }

  ghost predicate LogAgrees(m: Manager)
  {
    && m.mode == ModeOf(m.halts)
    && Rising(m.log)
    && Loaded(m.log) == KnownHalts(m.halts)
    && (forall s :: s in m.halts ==> m.halts[s].scope == s)
  }

  // ---------- facts about loading ----------

  /** What is loaded for a scope is a row of that scope that is not resumed .. */
  lemma {:induction false} LoadedIsRow(rows: seq<Row>, s: string)
    requires s in Loaded(rows)
    ensures exists i ::
      0 <= i < |rows| && !rows[i].resumed && rows[i].halt.scope == s && rows[i].halt == Loaded(rows)[s]
  {
    var n := |rows| - 1;
    var r := rows[n];
    if !r.resumed && r.halt.scope == s {
      assert rows[n].halt == Loaded(rows)[s];
    } else {
      LoadedIsRow(rows[..n], s);
      var i :| 0 <= i < n && !rows[..n][i].resumed && rows[..n][i].halt.scope == s
        && rows[..n][i].halt == Loaded(rows[..n])[s];
      assert rows[i].halt == Loaded(rows)[s];
    }
  }

  /** .. and every such row's scope is loaded, with the last of its rows. */
  lemma {:induction false} LoadedLast(rows: seq<Row>, i: nat)
    requires i < |rows| && !rows[i].resumed
    requires forall j :: i < j < |rows| ==> rows[j].resumed || rows[j].halt.scope != rows[i].halt.scope
    ensures rows[i].halt.scope in Loaded(rows) && Loaded(rows)[rows[i].halt.scope] == rows[i].halt
  {
    if i < |rows| - 1 {
      LoadedLast(rows[..|rows| - 1], i);
    }
  }

  /** In rising rows, no row is more severe than what is loaded for its scope. */
  lemma {:induction false} LoadedDominates(rows: seq<Row>, i: nat)
    requires Rising(rows) && i < |rows| && !rows[i].resumed
    ensures rows[i].halt.scope in Loaded(rows)
    ensures rows[i].halt.level.Rank() <= Loaded(rows)[rows[i].halt.scope].level.Rank()
    decreases |rows| - i
  {
    if j :| i < j < |rows| && !rows[j].resumed && rows[j].halt.scope == rows[i].halt.scope {
      LoadedDominates(rows, j);
    } else {
      LoadedLast(rows, i);
    }
  }

  lemma {:induction false} LoadedAfterAppend(rows: seq<Row>, h: Halt)
    ensures Loaded(rows + [Row(h, false)]) == Loaded(rows)[h.scope := h]
  {
    assert (rows + [Row(h, false)])[..|rows|] == rows;
  }

  /** Acknowledging in the log acknowledges what is loaded for the scope, and nothing else. */
  lemma {:induction false} LoadedAfterAck(rows: seq<Row>, scope: string, actor: string, cause: string, at: int)
    ensures Loaded(AckLog(rows, scope, actor, cause, at))
         == map s | s in Loaded(rows) ::
              if s == scope then Acked(Loaded(rows)[s], actor, cause, at) else Loaded(rows)[s]
  {
    if rows != [] {
      var init := rows[..|rows| - 1];
      assert AckLog(rows, scope, actor, cause, at)[..|rows| - 1] == AckLog(init, scope, actor, cause, at);
      LoadedAfterAck(init, scope, actor, cause, at);
    }
  }

  lemma {:induction false} LoadedAfterResume(rows: seq<Row>, scope: string)
    ensures Loaded(ResumeLog(rows, scope)) == Loaded(rows) - {scope}
  {
    if rows != [] {
      var init := rows[..|rows| - 1];
      assert ResumeLog(rows, scope)[..|rows| - 1] == ResumeLog(init, scope);
      LoadedAfterResume(init, scope);
    }
  }

  // ---------- every operation keeps the agreement ----------

  lemma {:induction false} TriggerKeeps(m: Manager, level: Level, scope: string, reason: string, actor: string, at: int)
    requires LogAgrees(m)
    ensures LogAgrees(Trigger(m, level, scope, reason, actor, at))
  {
    if Effective(m, level, scope) {
      var h := NewHalt(level, scope, reason, actor, at);
      var m' := Trigger(m, level, scope, reason, actor, at);
      if level.Known() {
        LoadedAfterAppend(m.log, h);
        assert KnownHalts(m'.halts) == KnownHalts(m.halts)[scope := h];
        forall i | 0 <= i < |m.log| && !m.log[i].resumed && m.log[i].halt.scope == scope
          ensures m.log[i].halt.level.Rank() < level.Rank() {
          LoadedDominates(m.log, i);
        }
      } else {
        assert KnownHalts(m'.halts) == KnownHalts(m.halts);
      }
    }
  }

  lemma {:induction false} AcknowledgeKeeps(m: Manager, scope: string, actor: string, cause: string, at: int)
    requires LogAgrees(m)
    ensures LogAgrees(Acknowledge(m, scope, actor, cause, at))
  {
    if CanAck(m, scope) {
      var h := Acked(m.halts[scope], actor, cause, at);
      AckKeepsLoaded(m, scope, actor, cause, at);
      AckKeepsRising(m.log, scope, actor, cause, at);
      SameLevelSameMode(m.halts, scope, h);
    }
  }

  lemma {:induction false} AckKeepsLoaded(m: Manager, scope: string, actor: string, cause: string, at: int)
    requires Loaded(m.log) == KnownHalts(m.halts) && scope in m.halts
    ensures Loaded(AckLog(m.log, scope, actor, cause, at))
         == KnownHalts(m.halts[scope := Acked(m.halts[scope], actor, cause, at)])
  {
    LoadedAfterAck(m.log, scope, actor, cause, at);
  }

  lemma {:induction false} AckKeepsRising(rows: seq<Row>, scope: string, actor: string, cause: string, at: int)
    requires Rising(rows)
    ensures Rising(AckLog(rows, scope, actor, cause, at))
  {
    var rows' := AckLog(rows, scope, actor, cause, at);
    assert forall i :: 0 <= i < |rows| ==>
      rows'[i].halt.level == rows[i].halt.level && rows'[i].halt.scope == rows[i].halt.scope
        && rows'[i].resumed == rows[i].resumed;
  }

  lemma {:induction false} ResumeKeeps(m: Manager, scope: string)
    requires LogAgrees(m)
    ensures LogAgrees(Resume(m, scope))
  {
    if CanResume(m, scope) {
      LoadedAfterResume(m.log, scope);
      assert KnownHalts(m.halts - {scope}) == KnownHalts(m.halts) - {scope};
    }
  }

  datatype Call =
    | CallTrigger(level: Level, scope: string, reason: string, actor: string, at: int)
    | CallAcknowledge(scope: string, actor: string, cause: string, at: int)
    | CallResume(scope: string)

  ghost function ManagerNext(m: Manager, c: Call): Manager
  {
    match c
    case CallTrigger(level, scope, reason, actor, at) => Trigger(m, level, scope, reason, actor, at)
    case CallAcknowledge(scope, actor, cause, at) => Acknowledge(m, scope, actor, cause, at)
    case CallResume(scope) => Resume(m, scope)
  }

  /** The manager after a serial run of calls. */
  ghost function ManagerAfter(calls: seq<Call>): Manager
  {
    if calls == [] then FRESH_MANAGER else ManagerNext(ManagerAfter(calls[..|calls| - 1]), calls[|calls| - 1])
  }

  lemma {:induction false} StepKeepsLog(m: Manager, c: Call)
    requires LogAgrees(m)
    ensures LogAgrees(ManagerNext(m, c))
  {
    match c
    case CallTrigger(level, scope, reason, actor, at) => TriggerKeeps(m, level, scope, reason, actor, at);
    case CallAcknowledge(scope, actor, cause, at) => AcknowledgeKeeps(m, scope, actor, cause, at);
    case CallResume(scope) => ResumeKeeps(m, scope);
  }

  lemma {:induction false} RunKeepsLog(calls: seq<Call>)
    ensures LogAgrees(ManagerAfter(calls))
  {
    if calls != [] {
      RunKeepsLog(calls[..|calls| - 1]);
      StepKeepsLog(ManagerAfter(calls[..|calls| - 1]), calls[|calls| - 1]);
    }
  }

  // ---------- restart ----------

  lemma {:induction false} QueryIsLoadedMode(rows: seq<Row>)
    requires Rising(rows)
    ensures QueriedMode(rows) == ModeOf(Loaded(rows))
  {
    var m := QueriedMode(rows);
    forall s | s in Loaded(rows) ensures Loaded(rows)[s].level.Rank() <= m.Rank() {
      LoadedIsRow(rows, s);
      assert HasRow(rows, Loaded(rows)[s].level);
    }
    if m.Rank() > 0 {
      var i :| 0 <= i < |rows| && !rows[i].resumed && rows[i].halt.level.Rank() == m.Rank();
      LoadedDominates(rows, i);
      assert Loaded(rows)[rows[i].halt.scope].level.Rank() == m.Rank();
    }
    ModeFromRanks(Loaded(rows), m);
  }

  lemma {:induction false} UnknownDoNotCount(halts: map<string, Halt>)
    ensures ModeOf(KnownHalts(halts)) == ModeOf(halts)
  {
    forall l: Level | l.Known() ensures HasLevel(KnownHalts(halts), l) <==> HasLevel(halts, l) {
      if HasLevel(halts, l) {
        var s :| s in halts && halts[s].level == l;
        assert s in KnownHalts(halts);
      }
    }
  }

  /**
   Main result: over every serial run, the risk engine's startup query finds the watchdog's mode, and
   loading the rows in trigger order rebuilds the watchdog's halts and mode.
   */
  lemma {:induction false} RestartFindsMode(calls: seq<Call>)
    ensures var m := ManagerAfter(calls);
      && m.mode == ModeOf(m.halts)
      && QueriedMode(m.log) == m.mode
      && Loaded(m.log) == KnownHalts(m.halts)
      && ModeOf(Loaded(m.log)) == m.mode
  {
    RunKeepsLog(calls);
    var m := ManagerAfter(calls);
    QueryIsLoadedMode(m.log);
    UnknownDoNotCount(m.halts);
  }

  // ---------- rows in any order ----------

  /** The rows the recovery query returns, in log order. */
  function ActiveRows(log: seq<Row>): seq<Row>
  {
    if log == [] then []
    else if log[|log| - 1].resumed then ActiveRows(log[..|log| - 1])
    else ActiveRows(log[..|log| - 1]) + [log[|log| - 1]]
  }

  ghost predicate AllActive(rows: seq<Row>)
  {
    forall i :: 0 <= i < |rows| ==> !rows[i].resumed
  }

  lemma {:induction false} ActiveRowsAre(log: seq<Row>)
    ensures AllActive(ActiveRows(log)) && Loaded(ActiveRows(log)) == Loaded(log)
    ensures forall i :: 0 <= i < |ActiveRows(log)| ==> ActiveRows(log)[i] in log
  {
    if log != [] {
      var init, r := log[..|log| - 1], log[|log| - 1];
      ActiveRowsAre(init);
      if !r.resumed {
        assert ActiveRows(log)[..|ActiveRows(log)| - 1] == ActiveRows(init);
      }
    }
  }

  lemma {:induction false} RisingAppend(rows: seq<Row>, r: Row)
    requires Rising(rows) && r.halt.level.Known()
    requires forall i :: 0 <= i < |rows| && rows[i].halt.scope == r.halt.scope
               ==> rows[i].halt.level.Rank() < r.halt.level.Rank()
    ensures Rising(rows + [r])
  {
  }

  lemma {:induction false} RisingPrefix(log: seq<Row>, r: Row, x: Row)
    requires log != [] && Rising(log) && r == log[|log| - 1] && x in log[..|log| - 1]
    requires !x.resumed && !r.resumed && x.halt.scope == r.halt.scope
    ensures x.halt.level.Rank() < r.halt.level.Rank()
  {
    var j :| 0 <= j < |log| - 1 && log[j] == x;
  }

  lemma {:induction false} ActiveRowsRise(log: seq<Row>)
    requires Rising(log)
    ensures Rising(ActiveRows(log))
  {
    if log != [] {
      var init, r := log[..|log| - 1], log[|log| - 1];
      ActiveRowsRise(init);
      if !r.resumed {
        var rows := ActiveRows(init);
        ActiveRowsAre(init);
        forall i | 0 <= i < |rows| && rows[i].halt.scope == r.halt.scope
          ensures rows[i].halt.level.Rank() < r.halt.level.Rank() {
          RisingPrefix(log, r, rows[i]);
        }
        RisingAppend(rows, r);
      }
    }
  }

  ghost predicate Top(rows: seq<Row>, i: nat)
  {
    i < |rows| && forall j :: 0 <= j < |rows| ==> rows[j].halt.level.Rank() <= rows[i].halt.level.Rank()
  }

  ghost predicate Alone(rows: seq<Row>, i: nat)
  {
    i < |rows| && forall j :: 0 <= j < |rows| && j != i ==> rows[j].halt.scope != rows[i].halt.scope
  }

  /** Some halt of the highest severity was not reached by upgrading its scope. */
  ghost predicate TopNotUpgraded(rows: seq<Row>)
  {
    exists i :: Top(rows, i) && Alone(rows, i)
  }

  lemma {:induction false} QueriedRank(rows: seq<Row>, i: nat)
    requires AllActive(rows) && Rising(rows) && Top(rows, i)
    ensures QueriedMode(rows).Rank() == rows[i].halt.level.Rank()
  {
    assert HasRow(rows, rows[i].halt.level);
  }

  lemma {:induction false} InPermutation(p: seq<Row>, rows: seq<Row>, k: nat)
    requires multiset(p) == multiset(rows) && k < |p|
    ensures exists i :: 0 <= i < |rows| && rows[i] == p[k]
  {
    assert p[k] in multiset(rows);
  }

  /** Whatever is loaded from p for row i's scope is row i, when that row is alone in its scope. */
  lemma {:induction false} AloneIsLoaded(p: seq<Row>, rows: seq<Row>, i: nat)
    requires multiset(p) == multiset(rows) && AllActive(rows) && Alone(rows, i)
    ensures rows[i].halt.scope in Loaded(p) && Loaded(p)[rows[i].halt.scope] == rows[i].halt
  {
    InPermutation(rows, p, i);
    var k :| 0 <= k < |p| && p[k] == rows[i];
    ScopeIsLoaded(p, k);
    LoadedIsRow(p, rows[i].halt.scope);
    var j :| 0 <= j < |p| && p[j].halt.scope == rows[i].halt.scope && p[j].halt == Loaded(p)[rows[i].halt.scope];
    InPermutation(p, rows, j);
  }

  lemma {:induction false} ScopeIsLoaded(p: seq<Row>, k: nat)
    requires k < |p| && !p[k].resumed
    ensures p[k].halt.scope in Loaded(p)
  {
    if k < |p| - 1 {
      ScopeIsLoaded(p[..|p| - 1], k);
    }
  }

  lemma {:induction false} AnyOrderLoads(p: seq<Row>, rows: seq<Row>, i: nat)
    requires multiset(p) == multiset(rows) && AllActive(rows) && Rising(rows) && Top(rows, i) && Alone(rows, i)
    ensures ModeOf(Loaded(p)) == QueriedMode(rows)
  {
    QueriedRank(rows, i);
    AloneIsLoaded(p, rows, i);
    forall s | s in Loaded(p) ensures Loaded(p)[s].level.Rank() <= rows[i].halt.level.Rank() {
      LoadedIsRow(p, s);
      var j :| 0 <= j < |p| && p[j].halt == Loaded(p)[s];
      InPermutation(p, rows, j);
    }
    ModeFromRanks(Loaded(p), QueriedMode(rows));
  }

  function Backwards(rows: seq<Row>): (r: seq<Row>)
    ensures |r| == |rows|
  {
    seq(|rows|, i requires 0 <= i < |rows| => rows[|rows| - 1 - i])
  }

  lemma {:induction false} BackwardsIsPermutation(rows: seq<Row>)
    ensures multiset(Backwards(rows)) == multiset(rows)
  {
    if rows != [] {
      var init, r := rows[..|rows| - 1], rows[|rows| - 1];
      BackwardsIsPermutation(init);
      assert Backwards(rows) == [r] + Backwards(init);
      assert rows == init + [r];
    }
  }

  /** Read backwards, the least severe row of each scope comes last. */
  lemma {:induction false} BackwardsLoadsLeast(rows: seq<Row>, i: nat)
    requires AllActive(rows) && Rising(rows) && i < |rows|
    ensures var p := Backwards(rows); var s := rows[i].halt.scope;
      s in Loaded(p) && Loaded(p)[s].level.Rank() <= rows[i].halt.level.Rank()
  {
    var p, k := Backwards(rows), |rows| - 1 - i;
    assert p[k] == rows[i];
    if j :| 0 <= j < i && rows[j].halt.scope == rows[i].halt.scope {
      BackwardsLoadsLeast(rows, j);
    } else {
      forall j | k < j < |p| ensures p[j].halt.scope != p[k].halt.scope {
        assert p[j] == rows[|rows| - 1 - j];
      }
      LoadedLast(p, k);
    }
  }

  lemma {:induction false} BackwardsLosesTop(rows: seq<Row>)
    requires AllActive(rows) && Rising(rows) && rows != [] && !TopNotUpgraded(rows)
    ensures ModeOf(Loaded(Backwards(rows))) != QueriedMode(rows)
  {
    var p := Backwards(rows);
    var t := SomeTop(rows);
    QueriedRank(rows, t);
    forall s | s in Loaded(p) ensures Loaded(p)[s].level.Rank() < rows[t].halt.level.Rank() {
      LoadedIsRow(p, s);
      var j :| 0 <= j < |p| && p[j].halt.scope == s && p[j].halt == Loaded(p)[s];
      var i := |rows| - 1 - j;
      assert p[j] == rows[i];
      assert rows[i].halt == Loaded(p)[s];
      NotTopWhenLeast(rows, i, s);
    }
    ModeIsMaximum(Loaded(p));
  }

  lemma {:induction false} NotTopWhenLeast(rows: seq<Row>, i: nat, s: string)
    requires AllActive(rows) && Rising(rows) && !TopNotUpgraded(rows) && i < |rows| && rows[i].halt.scope == s
    requires s in Loaded(Backwards(rows)) && Loaded(Backwards(rows))[s] == rows[i].halt
    ensures exists j :: 0 <= j < |rows| && rows[j].halt.level.Rank() > rows[i].halt.level.Rank()
  {
    if Top(rows, i) {
      assert !Alone(rows, i);
      var j :| 0 <= j < |rows| && j != i && rows[j].halt.scope == s;
      BackwardsLoadsLeast(rows, j);
    }
  }

  lemma {:induction false} SomeTop(rows: seq<Row>) returns (t: nat)
    requires rows != []
    ensures Top(rows, t)
  {
    t := 0;
    for n := 1 to |rows|
      invariant t < n <= |rows| && forall j :: 0 <= j < n ==> rows[j].halt.level.Rank() <= rows[t].halt.level.Rank()
    {
      if rows[n].halt.level.Rank() > rows[t].halt.level.Rank() {
        t := n;
      }
    }
  }

  /**
   Main result: the recovery query has no ORDER BY. Recovery finds the right mode in every row order
   exactly when there are no active rows or some halt of the highest severity is its scope's only row.
   */
  lemma {:induction false} AnyOrderExactlyWhen(calls: seq<Call>)
    ensures var rows := ActiveRows(ManagerAfter(calls).log);
      (forall p: seq<Row> :: multiset(p) == multiset(rows) ==> ModeOf(Loaded(p)) == ManagerAfter(calls).mode)
      <==> rows == [] || TopNotUpgraded(rows)
  {
    var m := ManagerAfter(calls);
    var rows := ActiveRows(m.log);
    RestartFindsMode(calls);
    RunKeepsLog(calls);
    ActiveRowsAre(m.log);
    ActiveRowsRise(m.log);
    QueryIsLoadedMode(rows);
    AnyOrderRows(rows);
  }

  lemma {:induction false} AnyOrderRows(rows: seq<Row>)
    requires AllActive(rows) && Rising(rows)
    ensures (forall p: seq<Row> :: multiset(p) == multiset(rows) ==> ModeOf(Loaded(p)) == QueriedMode(rows))
            <==> rows == [] || TopNotUpgraded(rows)
  {
    if rows == [] {
      forall p: seq<Row> | multiset(p) == multiset(rows) ensures ModeOf(Loaded(p)) == QueriedMode(rows) {
        assert |p| == |multiset(p)|;
      }
    } else if TopNotUpgraded(rows) {
      var i :| Top(rows, i) && Alone(rows, i);
      forall p: seq<Row> | multiset(p) == multiset(rows) ensures ModeOf(Loaded(p)) == QueriedMode(rows) {
        AnyOrderLoads(p, rows, i);
      }
    } else {
      BackwardsIsPermutation(rows);
      BackwardsLosesTop(rows);
    }
  }

  /** If no scope was upgraded since its last resume, any row order rebuilds the very same halts. */
  lemma {:induction false} AnyOrderWithoutUpgrades(calls: seq<Call>, p: seq<Row>)
    requires var rows := ActiveRows(ManagerAfter(calls).log);
      multiset(p) == multiset(rows) && forall i :: 0 <= i < |rows| ==> Alone(rows, i)
    ensures Loaded(p) == KnownHalts(ManagerAfter(calls).halts)
  {
    var m := ManagerAfter(calls);
    var rows := ActiveRows(m.log);
    RestartFindsMode(calls);
    ActiveRowsAre(m.log);
    forall s | s in Loaded(rows) ensures s in Loaded(p) && Loaded(p)[s] == Loaded(rows)[s] {
      LoadedIsRow(rows, s);
      var i :| 0 <= i < |rows| && rows[i].halt.scope == s && rows[i].halt == Loaded(rows)[s];
      AloneIsLoaded(p, rows, i);
    }
    forall s | s in Loaded(p) ensures s in Loaded(rows) {
      LoadedIsRow(p, s);
      var j :| 0 <= j < |p| && p[j].halt.scope == s;
      InPermutation(p, rows, j);
      var i :| 0 <= i < |rows| && rows[i] == p[j];
      ScopeIsLoaded(rows, i);
    }
  }
}
