/** What every serial run of the kill switch guarantees about acknowledgement and severity. */
module KillSwitchRuns {
  import opened Orders
  import opened KillSwitch
  import opened KillSwitchLog

  ghost function StateAt(calls: seq<Call>, i: nat): Manager
    requires i <= |calls|
  {
    ManagerAfter(calls[..i])
  }

  /** Call i sets a new halt on the scope. */
  ghost predicate Triggered(calls: seq<Call>, i: nat, scope: string)
  {
    i < |calls| && calls[i].CallTrigger? && calls[i].scope == scope
      && Effective(StateAt(calls, i), calls[i].level, scope)
  }

  ghost predicate Acknowledged(calls: seq<Call>, i: nat, scope: string)
  {
    i < |calls| && calls[i].CallAcknowledge? && calls[i].scope == scope && CanAck(StateAt(calls, i), scope)
  }

  ghost predicate Resumed(calls: seq<Call>, i: nat, scope: string)
  {
    i < |calls| && calls[i].CallResume? && calls[i].scope == scope && CanResume(StateAt(calls, i), scope)
  }

  lemma {:induction false} OneCall(calls: seq<Call>, i: nat)
    requires i < |calls|
    ensures StateAt(calls, i + 1) == ManagerNext(StateAt(calls, i), calls[i])
  {
    assert calls[..i + 1][..i] == calls[..i];
  }

  /** The halt carries actor, cause and time of call j. */
  ghost predicate AckFields(calls: seq<Call>, j: int, h: Halt)
  {
    && 0 <= j < |calls| && calls[j].CallAcknowledge?
    && h.ackedBy == calls[j].actor && h.rootCause == calls[j].cause && h.ackedAt == Some(calls[j].at)
  }

  /** Call j acknowledged the scope's halt h, and no trigger has replaced the halt up to call n. */
  ghost predicate AckStands(calls: seq<Call>, j: int, n: nat, scope: string, h: Halt)
  {
    && 0 <= j < n && Acknowledged(calls, j, scope) && AckFields(calls, j, h)
    && forall i :: j < i < n ==> !Triggered(calls, i, scope)
  }

  /** An acknowledged halt was acknowledged by a call since its scope's last trigger, and carries that call's fields. */
  lemma {:induction false} AckedSinceTrigger(calls: seq<Call>, n: nat, scope: string)
    requires n <= |calls| && scope in StateAt(calls, n).halts && StateAt(calls, n).halts[scope].acknowledged
    ensures exists j :: AckStands(calls, j, n, scope, StateAt(calls, n).halts[scope])
  {
    if n == 0 {
      assert false;
    } else {
      OneCall(calls, n - 1);
      if Acknowledged(calls, n - 1, scope) {
        AckStandsNow(calls, n - 1, scope);
      } else {
        UnlessAcked(StateAt(calls, n - 1), calls[n - 1], scope);
        AckedSinceTrigger(calls, n - 1, scope);
        var j :| AckStands(calls, j, n - 1, scope, StateAt(calls, n - 1).halts[scope]);
        AckStillStands(calls, j, n - 1, scope, StateAt(calls, n).halts[scope]);
      }
    }
  }

  lemma {:induction false} AckStandsNow(calls: seq<Call>, n: nat, scope: string)
    requires Acknowledged(calls, n, scope)
    ensures scope in StateAt(calls, n + 1).halts
    ensures AckStands(calls, n, n + 1, scope, StateAt(calls, n + 1).halts[scope])
  {
    OneCall(calls, n);
  }

  lemma {:induction false} AckStillStands(calls: seq<Call>, j: int, n: nat, scope: string, h: Halt)
    requires AckStands(calls, j, n, scope, h) && !Triggered(calls, n, scope)
    ensures AckStands(calls, j, n + 1, scope, h)
  {
  }

  lemma {:induction false} UnlessAcked(m: Manager, c: Call, scope: string)
    requires scope in ManagerNext(m, c).halts && ManagerNext(m, c).halts[scope].acknowledged
    requires !(c.CallAcknowledge? && c.scope == scope && CanAck(m, scope))
    ensures scope in m.halts && m.halts[scope].acknowledged && ManagerNext(m, c).halts[scope] == m.halts[scope]
    ensures !(c.CallTrigger? && c.scope == scope && Effective(m, c.level, scope))
  {
  }

  /** Main result: a successful resume follows an acknowledgement later than the scope's last effective trigger. */
  lemma {:induction false} ResumeNeedsAck(calls: seq<Call>, n: nat, scope: string)
    requires Resumed(calls, n, scope)
    ensures exists j :: 0 <= j < n && Acknowledged(calls, j, scope) && forall i :: j < i < n ==>
          !Triggered(calls, i, scope)
  {
    AckedSinceTrigger(calls, n, scope);
    var j :| AckStands(calls, j, n, scope, StateAt(calls, n).halts[scope]);
  }

  /** Without a resume in between, a scope's halt stays at least as severe as it was triggered. */
  lemma {:induction false} SeverityStays(calls: seq<Call>, i: nat, n: nat, scope: string)
    requires Triggered(calls, i, scope) && i < n <= |calls|
    requires forall k :: i < k < n ==> !Resumed(calls, k, scope)
    ensures scope in StateAt(calls, n).halts
    ensures StateAt(calls, n).halts[scope].level.Rank() >= calls[i].level.Rank()
  {
    OneCall(calls, n - 1);
    if n - 1 > i {
      assert !Resumed(calls, n - 1, scope);
      SeverityStays(calls, i, n - 1, scope);
    }
  }

  /** Main result: between resumes of a scope, each effective trigger is strictly more severe than the one before. */
  lemma {:induction false} LevelsRise(calls: seq<Call>, i: nat, j: nat, scope: string)
    requires i < j && Triggered(calls, i, scope) && Triggered(calls, j, scope)
    requires forall k :: i < k < j ==> !Resumed(calls, k, scope)
    ensures calls[i].level.Rank() < calls[j].level.Rank()
  {
    SeverityStays(calls, i, j, scope);
  }

  // ---------- where the fields of halts and rows come from ----------

  /** Call t triggered the halt, field by field. */
  ghost predicate TriggeredBy(calls: seq<Call>, t: int, h: Halt)
  {
    && 0 <= t < |calls| && Triggered(calls, t, h.scope) && h.level == calls[t].level && h.reason == calls[t].reason
    && h.triggeredBy == calls[t].actor && h.triggeredAt == calls[t].at
  }

  /** Call j acknowledged the halt, field by field. */
  ghost predicate AckedBy(calls: seq<Call>, j: int, h: Halt)
  {
    0 <= j < |calls| && Acknowledged(calls, j, h.scope) && AckFields(calls, j, h)
  }

  ghost predicate AckedBetween(calls: seq<Call>, t: int, n: nat, h: Halt)
  {
    exists j :: t < j < n && AckedBy(calls, j, h)
  }

  /** Among the first n calls one triggered the halt and, if it is acknowledged, a later one did that. */
  ghost predicate Recorded(calls: seq<Call>, n: nat, h: Halt)
  {
    exists t :: t < n && TriggeredBy(calls, t, h) &&
      if h.acknowledged then AckedBetween(calls, t, n, h) else h.ackedBy == "" && h.rootCause == "" && h.ackedAt == None
  }

  lemma {:induction false} StaysRecorded(calls: seq<Call>, n: nat, h: Halt)
    requires Recorded(calls, n, h)
    ensures Recorded(calls, n + 1, h)
  {
    var t :| t < n && TriggeredBy(calls, t, h) &&
      if h.acknowledged then AckedBetween(calls, t, n, h)
      else h.ackedBy == "" && h.rootCause == "" && h.ackedAt == None;
    if h.acknowledged {
      var j :| t < j < n && AckedBy(calls, j, h);
      assert AckedBetween(calls, t, n + 1, h);
    }
    assert t < n + 1;
  }

  lemma {:induction false} TriggerRecords(calls: seq<Call>, n: nat, scope: string)
    requires Triggered(calls, n, scope)
    ensures Recorded(calls, n + 1, NewHalt(calls[n].level, scope, calls[n].reason, calls[n].actor, calls[n].at))
  {
    assert TriggeredBy(calls, n, NewHalt(calls[n].level, scope, calls[n].reason, calls[n].actor, calls[n].at));
  }

  lemma {:induction false} AckRecords(calls: seq<Call>, n: nat, h: Halt)
    requires Recorded(calls, n, h) && Acknowledged(calls, n, h.scope) && !h.acknowledged
    ensures Recorded(calls, n + 1, Acked(h, calls[n].actor, calls[n].cause, calls[n].at))
  {
    var h' := Acked(h, calls[n].actor, calls[n].cause, calls[n].at);
    var t :| t < n && TriggeredBy(calls, t, h) && h.ackedBy == "" && h.rootCause == "" && h.ackedAt == None;
    assert TriggeredBy(calls, t, h');
    assert AckedBy(calls, n, h');
    assert AckedBetween(calls, t, n + 1, h');
  }

  ghost predicate HaltsAreRecorded(calls: seq<Call>, n: nat)
    requires n <= |calls|
  {
    forall s :: s in StateAt(calls, n).halts ==>
      StateAt(calls, n).halts[s].scope == s && Recorded(calls, n, StateAt(calls, n).halts[s])
  }

  ghost predicate RowsAreRecorded(calls: seq<Call>, n: nat)
    requires n <= |calls|
  {
    forall i :: 0 <= i < |StateAt(calls, n).log| ==> Recorded(calls, n, StateAt(calls, n).log[i].halt)
  }

  lemma {:induction false} CallRecordsHalt(calls: seq<Call>, n: nat, s: string)
    requires n < |calls| && HaltsAreRecorded(calls, n) && s in StateAt(calls, n + 1).halts
    ensures StateAt(calls, n + 1).halts[s].scope == s && Recorded(calls, n + 1, StateAt(calls, n + 1).halts[s])
  {
    var m := StateAt(calls, n);
    OneCall(calls, n);
    if Triggered(calls, n, s) {
      TriggerRecords(calls, n, s);
    } else if Acknowledged(calls, n, s) {
      AckRecords(calls, n, m.halts[s]);
    } else {
      assert s in m.halts && StateAt(calls, n + 1).halts[s] == m.halts[s];
      StaysRecorded(calls, n, m.halts[s]);
    }
  }

  lemma {:induction false} CallRecordsRow(calls: seq<Call>, n: nat, i: nat)
    requires n < |calls| && RowsAreRecorded(calls, n) && i < |StateAt(calls, n + 1).log|
    ensures Recorded(calls, n + 1, StateAt(calls, n + 1).log[i].halt)
  {
    var m, c := StateAt(calls, n), calls[n];
    OneCall(calls, n);
    if i >= |m.log| {
      TriggerRecords(calls, n, c.scope);
    } else {
      var h, h' := m.log[i].halt, StateAt(calls, n + 1).log[i].halt;
      if h' != h {
        assert h' == Acked(h, c.actor, c.cause, c.at);
        AckRecords(calls, n, h);
      } else {
        StaysRecorded(calls, n, h);
      }
    }
  }

  /**
   Main result: in every run each halt and each event row carries level, reason, person and time of the call that
   triggered it and, once acknowledged, person, cause and time of the call that acknowledged it.
   */
  lemma {:induction false} RecordsNameTheirCalls(calls: seq<Call>, n: nat)
    requires n <= |calls|
    ensures HaltsAreRecorded(calls, n) && RowsAreRecorded(calls, n)
  {
    if n > 0 {
      RecordsNameTheirCalls(calls, n - 1);
      forall s | s in StateAt(calls, n).halts
        ensures StateAt(calls, n).halts[s].scope == s && Recorded(calls, n, StateAt(calls, n).halts[s]) {
        CallRecordsHalt(calls, n - 1, s);
      }
      forall i | 0 <= i < |StateAt(calls, n).log| ensures Recorded(calls, n, StateAt(calls, n).log[i].halt) {
        CallRecordsRow(calls, n - 1, i);
      }
    }
  }
}
