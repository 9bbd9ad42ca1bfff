/** What the halts in memory and the event rows share even when a restart reads the rows in any order. */
module KillSwitchRows {
  import opened Modes
  import opened KillSwitch
  import opened KillSwitchLog

  predicate Standing(log: seq<Row>, i: int)
  {
    0 <= i < |log| && !log[i].resumed
  }

  ghost predicate OnRecord(log: seq<Row>, h: Halt)
  {
    exists i :: Standing(log, i) && log[i].halt == h
  }

  ghost predicate AllKnown(log: seq<Row>)
  {
    forall i :: 0 <= i < |log| ==> log[i].halt.level.Known()
  }

  /** Every halt of a known level is one of its scope's standing rows .. */
  ghost predicate HaltsRecorded(m: Manager)
  {
    forall s :: s in m.halts ==> m.halts[s].scope == s && (m.halts[s].level.Known() ==> OnRecord(m.log, m.halts[s]))
  }

  /** .. and every standing row's scope is halted. */
  ghost predicate RowsHalted(m: Manager)
  {
    forall i :: Standing(m.log, i) ==>
      m.log[i].halt.scope in m.halts && m.halts[m.log[i].halt.scope].level.Known()
  }

  ghost predicate RowsCover(m: Manager)
  {
    m.mode == ModeOf(m.halts) && AllKnown(m.log) && HaltsRecorded(m) && RowsHalted(m)
  }

  lemma {:induction false} RecordGrows(log: seq<Row>, r: Row, h: Halt)
    requires OnRecord(log, h)
    ensures OnRecord(log + [r], h)
  {
    var i :| Standing(log, i) && log[i].halt == h;
    assert Standing(log + [r], i) && (log + [r])[i].halt == h;
  }

  lemma {:induction false} TriggerCovers(m: Manager, level: Level, scope: string, reason: string, actor: string,
      at: int)
    requires RowsCover(m)
    ensures RowsCover(Trigger(m, level, scope, reason, actor, at))
  {
    if Effective(m, level, scope) {
      var h, m' := NewHalt(level, scope, reason, actor, at), Trigger(m, level, scope, reason, actor, at);
      forall s | s in m'.halts
        ensures m'.halts[s].scope == s && (m'.halts[s].level.Known() ==> OnRecord(m'.log, m'.halts[s])) {
        if s == scope {
          assert level.Known() ==> Standing(m'.log, |m.log|) && m'.log[|m.log|].halt == h;
        } else if m.halts[s].level.Known() && level.Known() {
          RecordGrows(m.log, Row(h, false), m.halts[s]);
        }
      }
      forall i | Standing(m'.log, i)
        ensures m'.log[i].halt.scope in m'.halts && m'.halts[m'.log[i].halt.scope].level.Known() {
        assert i < |m.log| ==> Standing(m.log, i);
      }
    }
  }

  lemma {:induction false} AcknowledgeCovers(m: Manager, scope: string, actor: string, cause: string, at: int)
    requires RowsCover(m)
    ensures RowsCover(Acknowledge(m, scope, actor, cause, at))
  {
    if CanAck(m, scope) {
      var m' := Acknowledge(m, scope, actor, cause, at);
      forall s | s in m'.halts
        ensures m'.halts[s].scope == s && (m'.halts[s].level.Known() ==> OnRecord(m'.log, m'.halts[s])) {
        if m.halts[s].level.Known() {
          var i :| Standing(m.log, i) && m.log[i].halt == m.halts[s];
          assert Standing(m'.log, i) && m'.log[i].halt == m'.halts[s];
        }
      }
      forall i | Standing(m'.log, i)
        ensures m'.log[i].halt.scope in m'.halts && m'.halts[m'.log[i].halt.scope].level.Known() {
        assert Standing(m.log, i);
      }
      SameLevelSameMode(m.halts, scope, m'.halts[scope]);
    }
  }

  lemma {:induction false} ResumeCovers(m: Manager, scope: string)
    requires RowsCover(m)
    ensures RowsCover(Resume(m, scope))
  {
    if CanResume(m, scope) {
      var m' := Resume(m, scope);
      forall s | s in m'.halts
        ensures m'.halts[s].scope == s && (m'.halts[s].level.Known() ==> OnRecord(m'.log, m'.halts[s])) {
        if m.halts[s].level.Known() {
          var i :| Standing(m.log, i) && m.log[i].halt == m.halts[s];
          assert Standing(m'.log, i) && m'.log[i].halt == m'.halts[s];
        }
      }
      forall i | Standing(m'.log, i)
        ensures m'.log[i].halt.scope in m'.halts && m'.halts[m'.log[i].halt.scope].level.Known() {
        assert Standing(m.log, i);
      }
    }
  }

  lemma {:induction false} CallCovers(m: Manager, c: Call)
    requires RowsCover(m)
    ensures RowsCover(ManagerNext(m, c))
  {
    match c
    case CallTrigger(level, scope, reason, actor, at) => TriggerCovers(m, level, scope, reason, actor, at);
    case CallAcknowledge(scope, actor, cause, at) => AcknowledgeCovers(m, scope, actor, cause, at);
    case CallResume(scope) => ResumeCovers(m, scope);
  }

  // ---------- a restart that reads the rows in any order ----------

  /** The rows the recovery query returns, in any order. */
  ghost predicate AnyOrder(rows: seq<Row>, log: seq<Row>)
  {
    multiset(rows) == multiset(ActiveRows(log))
  }

  ghost function Reloaded(m: Manager, rows: seq<Row>): Manager
  {
    Manager(Loaded(rows), ModeOf(Loaded(rows)), m.log)
  }

  lemma {:induction false} StandingIsActive(log: seq<Row>, i: int)
    requires Standing(log, i)
    ensures log[i] in ActiveRows(log)
  {
    var n := |log| - 1;
    if i < n {
      StandingIsActive(log[..n], i);
    } else {
      assert ActiveRows(log)[|ActiveRows(log)| - 1] == log[i];
    }
  }

  lemma {:induction false} ActiveIsStanding(log: seq<Row>, k: nat) returns (i: int)
    requires k < |ActiveRows(log)|
    ensures Standing(log, i) && log[i] == ActiveRows(log)[k]
  {
    ActiveRowsAre(log);
    i :| 0 <= i < |log| && log[i] == ActiveRows(log)[k];
  }

  lemma {:induction false} ReadIsStanding(rows: seq<Row>, log: seq<Row>, k: nat) returns (i: int)
    requires AnyOrder(rows, log) && k < |rows|
    ensures Standing(log, i) && log[i] == rows[k]
  {
    InPermutation(rows, ActiveRows(log), k);
    var j :| 0 <= j < |ActiveRows(log)| && ActiveRows(log)[j] == rows[k];
    i := ActiveIsStanding(log, j);
  }

  lemma {:induction false} StandingIsRead(rows: seq<Row>, log: seq<Row>, i: int) returns (k: nat)
    requires AnyOrder(rows, log) && Standing(log, i)
    ensures k < |rows| && rows[k] == log[i]
  {
    StandingIsActive(log, i);
    assert log[i] in multiset(rows);
    k :| 0 <= k < |rows| && rows[k] == log[i];
  }

  /** Whatever order the rows come in, the reloaded halts are standing rows, one for each scope that has any. */
  lemma {:induction false} ReloadCovers(m: Manager, rows: seq<Row>)
    requires AllKnown(m.log) && AnyOrder(rows, m.log)
    ensures RowsCover(Reloaded(m, rows))
  {
    var m' := Reloaded(m, rows);
    forall s | s in m'.halts ensures m'.halts[s].scope == s && OnRecord(m.log, m'.halts[s]) {
      LoadedIsRow(rows, s);
      var k :| 0 <= k < |rows| && !rows[k].resumed && rows[k].halt.scope == s && rows[k].halt == Loaded(rows)[s];
      var i := ReadIsStanding(rows, m.log, k);
      assert Standing(m.log, i) && m.log[i].halt == m'.halts[s];
    }
    forall i | Standing(m.log, i)
      ensures m.log[i].halt.scope in m'.halts && m'.halts[m.log[i].halt.scope].level.Known() {
      var k := StandingIsRead(rows, m.log, i);
      ScopeIsLoaded(rows, k);
      var h := m'.halts[m.log[i].halt.scope];
      assert OnRecord(m.log, h);
    }
  }

  // ---------- severity on record ----------

  ghost predicate SomeStands(log: seq<Row>)
  {
    exists i :: Standing(log, i)
  }

  ghost predicate KnownHaltActive(m: Manager)
  {
    exists c :: c in m.halts && m.halts[c].level.Known()
  }

  /** Row i stands for a halt of cancel_only or full_stop. */
  predicate SevereRow(log: seq<Row>, i: int)
  {
    Standing(log, i) && log[i].halt.level.Rank() >= 2
  }

  /** A halt of cancel_only or full_stop is on record. */
  ghost predicate Severe(m: Manager)
  {
    exists i :: SevereRow(m.log, i)
  }

  /** A halt of a known level is active exactly when some row stands, and exactly when the mode is not normal. */
  lemma {:induction false} CoverExactly(m: Manager)
    requires RowsCover(m)
    ensures KnownHaltActive(m) <==> SomeStands(m.log)
    ensures m.mode == Normal <==> !KnownHaltActive(m)
    ensures QueriedMode(m.log) == Normal <==> m.mode == Normal
    ensures m.mode.Rank() >= 2 ==> Severe(m)
    ensures Severe(m) ==> KnownHaltActive(m)
  {
    ModeIsMaximum(m.halts);
    if KnownHaltActive(m) {
      var c :| c in m.halts && m.halts[c].level.Known();
      assert OnRecord(m.log, m.halts[c]);
    }
    if i :| Standing(m.log, i) {
      assert m.log[i].halt.scope in m.halts;
      assert HasRow(m.log, m.log[i].halt.level);
    }
    if m.mode.Rank() >= 2 {
      var c :| c in m.halts && m.halts[c].level.Rank() == m.mode.Rank();
      var i :| Standing(m.log, i) && m.log[i].halt == m.halts[c];
      assert SevereRow(m.log, i);
    }
  }

  // ---------- when a reload keeps the mode ----------

  /** Row i is the last of its scope. */
  ghost predicate LastOfScope(rows: seq<Row>, i: nat)
  {
    i < |rows| && forall j :: i < j < |rows| ==> rows[j].halt.scope != rows[i].halt.scope
  }

  /** Some most severe row comes last of its scope. */
  ghost predicate TopComesLast(rows: seq<Row>)
  {
    exists i: nat :: Top(rows, i) && LastOfScope(rows, i)
  }

  lemma {:induction false} LoadedComesLast(rows: seq<Row>, s: string) returns (i: nat)
    requires AllActive(rows) && s in Loaded(rows)
    ensures LastOfScope(rows, i) && rows[i].halt == Loaded(rows)[s] && rows[i].halt.scope == s
  {
    var n := |rows| - 1;
    if rows[n].halt.scope == s {
      i := n;
    } else {
      i := LoadedComesLast(rows[..n], s);
    }
  }

  lemma {:induction false} TopRank(rows: seq<Row>, i: nat)
    requires AllActive(rows) && AllKnown(rows) && Top(rows, i)
    ensures QueriedMode(rows).Rank() == rows[i].halt.level.Rank() > 0
  {
    assert HasRow(rows, rows[i].halt.level);
  }

  lemma {:induction false} LoadedAtMostTop(rows: seq<Row>, i: nat, s: string)
    requires AllActive(rows) && Top(rows, i) && s in Loaded(rows)
    ensures Loaded(rows)[s].level.Rank() <= rows[i].halt.level.Rank()
  {
    LoadedIsRow(rows, s);
  }

  /**
   Main result: rows read in some order give the most severe mode among them if and only if a most severe one comes
   last of its scope.
   */
  lemma {:induction false} OrderKeepsModeExactlyWhen(rows: seq<Row>)
    requires AllActive(rows) && AllKnown(rows) && rows != []
    ensures ModeOf(Loaded(rows)) == QueriedMode(rows) <==> TopComesLast(rows)
  {
    var t := SomeTop(rows);
    TopRank(rows, t);
    ModeIsMaximum(Loaded(rows));
    if TopComesLast(rows) {
      var i: nat :| Top(rows, i) && LastOfScope(rows, i);
      LoadedLast(rows, i);
      forall s | s in Loaded(rows) ensures Loaded(rows)[s].level.Rank() <= QueriedMode(rows).Rank() {
        LoadedAtMostTop(rows, t, s);
      }
      assert Loaded(rows)[rows[i].halt.scope].level.Rank() == QueriedMode(rows).Rank();
      ModeFromRanks(Loaded(rows), QueriedMode(rows));
    } else if ModeOf(Loaded(rows)) == QueriedMode(rows) {
      var s :| s in Loaded(rows) && Loaded(rows)[s].level.Rank() == QueriedMode(rows).Rank();
      var i := LoadedComesLast(rows, s);
      assert Top(rows, i);
    }
  }
}
