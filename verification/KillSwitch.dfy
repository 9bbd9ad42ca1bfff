/** The kill-switch manager: one halt per scope, its severity order, and the persisted event log. */
module KillSwitch {
  import opened Modes
  import opened Orders

  /** The source keeps a level as text; `OtherLevel` is any text but the three known ones. */
  datatype Level = SoftPause | CancelOnly | FullStop | OtherLevel(text: string)
  {
    predicate Known() { !OtherLevel? }

    /** severityRank */
    function Rank(): nat
    {
      match this
      case SoftPause => 1
      case CancelOnly => 2
      case FullStop => 3
      case OtherLevel(_) => 0
    }
  }

  /** Which level is the more severe. */
  lemma {:induction false} SeverityExactly(l: Level, m: Level)
    ensures l.Rank() < m.Rank() <==>
      || (m == FullStop && l != FullStop)
      || (m == CancelOnly && l != FullStop && l != CancelOnly)
      || (m == SoftPause && l.OtherLevel?)
  {
  }

  datatype Halt = Halt(
    level: Level, scope: string, reason: string, triggeredBy: string, triggeredAt: int,
    acknowledged: bool, ackedBy: string, ackedAt: Option<int>, rootCause: string)

  /** A row of watchdog.kill_switch_events. */
  datatype Row = Row(halt: Halt, resumed: bool)

  datatype Manager = Manager(halts: map<string, Halt>, mode: Mode, log: seq<Row>)

  const FRESH_MANAGER := Manager(map[], Normal, [])

  // ---------- the mode ----------

  ghost predicate HasLevel(halts: map<string, Halt>, l: Level)
  {
    exists s :: s in halts && halts[s].level == l
  }

  /** The highest severity wins; a level that is not known counts for nothing. */
  ghost function ModeOf(halts: map<string, Halt>): Mode
  {
    if HasLevel(halts, FullStop) then FullStopMode
    else if HasLevel(halts, CancelOnly) then CancelOnlyMode
    else if HasLevel(halts, SoftPause) then SoftPauseMode
    else Normal
  }

  /** The mode is the maximum severity over the active halts. */
  lemma {:induction false} ModeIsMaximum(halts: map<string, Halt>)
    ensures forall s :: s in halts ==> halts[s].level.Rank() <= ModeOf(halts).Rank()
    ensures ModeOf(halts).Rank() > 0 ==> exists s :: s in halts && halts[s].level.Rank() == ModeOf(halts).Rank()
  {
    forall s | s in halts ensures halts[s].level.Rank() <= ModeOf(halts).Rank() {
      assert HasLevel(halts, halts[s].level);
    }
  }

  /** Which halts give which mode. */
  lemma {:induction false} ModeExactly(halts: map<string, Halt>)
    ensures ModeOf(halts) == FullStopMode <==> exists s :: s in halts && halts[s].level == FullStop
    ensures ModeOf(halts) == CancelOnlyMode <==>
      (forall s :: s in halts ==> halts[s].level != FullStop) && exists s :: s in halts && halts[s].level == CancelOnly
    ensures ModeOf(halts) == Normal <==> forall s :: s in halts ==> halts[s].level.OtherLevel?
  {
    assert forall s :: s in halts ==> HasLevel(halts, halts[s].level);
  }

  lemma {:induction false} ModeFromRanks(halts: map<string, Halt>, m: Mode)
    requires forall s :: s in halts ==> halts[s].level.Rank() <= m.Rank()
    requires m.Rank() > 0 ==> exists s :: s in halts && halts[s].level.Rank() == m.Rank()
    ensures ModeOf(halts) == m
  {
    ModeIsMaximum(halts);
  }

  /** The mode depends on the levels alone. */
  lemma {:induction false} SameLevelSameMode(halts: map<string, Halt>, scope: string, h: Halt)
    requires scope in halts && h.level == halts[scope].level
    ensures ModeOf(halts[scope := h]) == ModeOf(halts)
  {
    var halts' := halts[scope := h];
    assert forall s :: s in halts ==> s in halts' && halts'[s].level == halts[s].level;
    ModeIsMaximum(halts);
    ModeFromRanks(halts', ModeOf(halts));
  }

  // ---------- the operations ----------

  predicate Effective(m: Manager, level: Level, scope: string)
  {
    scope !in m.halts || m.halts[scope].level.Rank() < level.Rank()
  }

  function NewHalt(level: Level, scope: string, reason: string, actor: string, at: int): Halt
  {
    Halt(level, scope, reason, actor, at, false, "", None, "")
  }

  /** The row insert is refused by the table when the level is not known; the halt stands all the same. */
  ghost function Trigger(m: Manager, level: Level, scope: string, reason: string, actor: string, at: int): Manager
  {
    if !Effective(m, level, scope) then m else
      var h := NewHalt(level, scope, reason, actor, at);
      var halts := m.halts[scope := h];
      Manager(halts, ModeOf(halts), if level.Known() then m.log + [Row(h, false)] else m.log)
  }

  function Acked(h: Halt, actor: string, cause: string, at: int): Halt
  {
    if h.acknowledged then h
    else h.(acknowledged := true, ackedBy := actor, ackedAt := Some(at), rootCause := cause)
  }

  function AckLog(log: seq<Row>, scope: string, actor: string, cause: string, at: int): (r: seq<Row>)
    ensures |r| == |log|
  {
    seq(|log|, i requires 0 <= i < |log| =>
      if log[i].halt.scope == scope && !log[i].resumed
      then log[i].(halt := Acked(log[i].halt, actor, cause, at))
      else log[i])
  }

  predicate CanAck(m: Manager, scope: string)
  {
    scope in m.halts && !m.halts[scope].acknowledged
  }

  function Acknowledge(m: Manager, scope: string, actor: string, cause: string, at: int): Manager
  {
    if !CanAck(m, scope) then m
    else m.(halts := m.halts[scope := Acked(m.halts[scope], actor, cause, at)],
            log := AckLog(m.log, scope, actor, cause, at))
  }

  function ResumeLog(log: seq<Row>, scope: string): (r: seq<Row>)
    ensures |r| == |log|
  {
    seq(|log|, i requires 0 <= i < |log| => if log[i].halt.scope == scope then log[i].(resumed := true) else log[i])
  }

  predicate CanResume(m: Manager, scope: string)
  {
    scope in m.halts && m.halts[scope].acknowledged
  }

  ghost function Resume(m: Manager, scope: string): Manager
  {
    if !CanResume(m, scope) then m
    else var halts := m.halts - {scope}; Manager(halts, ModeOf(halts), ResumeLog(m.log, scope))
  }
}
