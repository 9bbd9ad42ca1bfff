/** The watchdog as objects: the kill-switch manager wired to the engine, and the dead man's switch. */
module Watchdog {
  import opened Modes
  import opened Orders
  import opened Sums
  import opened Books
  import opened ExecutionEngine
  import opened KillSwitch
  import opened KillSwitchLog
  import opened TradingHalt
  import opened Heartbeat
  import opened Exposure
  import opened DeadMansHalt

  class KillSwitchManager {
    const exec: ExecutionEngine.Engine
    var activeHalts: map<string, Halt>
    var currentMode: Mode
    var events: seq<Row>
    var riskMode: Mode

    ghost function State(): Manager
      reads this
    {
      Manager(activeHalts, currentMode, events)
    }

    ghost function Whole(): System
      reads this, exec, exec.ledger
    {
      System(State(), exec.State(), riskMode, {})
    }

    constructor (exec: ExecutionEngine.Engine)
      ensures this.exec == exec && State() == FRESH_MANAGER && riskMode == Normal
    {
      this.exec := exec;
      activeHalts, currentMode, events, riskMode := map[], Normal, [], Normal;
    }

    /** Visits the halts in whatever order the map gives them, leaving early at a full stop. */
    method RecalcMode()
      modifies this`currentMode
      ensures currentMode == ModeOf(activeHalts)
    {
      var mode := Normal;
      var rest := activeHalts.Keys;
      while rest != {}
        invariant rest <= activeHalts.Keys
        invariant mode != FullStopMode
        invariant forall s :: s in activeHalts && s !in rest ==> activeHalts[s].level.Rank() <= mode.Rank()
        invariant mode.Rank() > 0 ==> exists s :: s in activeHalts && activeHalts[s].level.Rank() == mode.Rank()
        decreases |rest|
      {
        var s :| s in rest;
        match activeHalts[s].level {
          case FullStop =>
            assert HasLevel(activeHalts, FullStop);
            currentMode := FullStopMode;
            return;
          case CancelOnly => mode := CancelOnlyMode;
          case SoftPause => if mode == Normal { mode := SoftPauseMode; }
          case OtherLevel(_) =>
        }
        rest := rest - {s};
      }
      ModeFromRanks(activeHalts, mode);
      currentMode := mode;
    }

    /** Memory first, then the event row, then the actions, then the new mode for engine and risk. */
    method TriggerHalt(level: Level, scope: string, reason: string, actor: string, now: int)
      returns (effective: bool, ghost visited: seq<OrderId>)
      modifies this, exec, exec.ledger
      ensures effective <==> scope !in old(activeHalts) || old(activeHalts)[scope].level.Rank() < level.Rank()
      ensures effective ==>
                && activeHalts == old(activeHalts)[scope := Halt(level, scope, reason, actor, now, false, "", None, "")]
                && events == (if level.Known() then old(events) + [Row(activeHalts[scope], false)] else old(events))
                && exec.systemMode == riskMode == currentMode == ModeOf(activeHalts)
      ensures effective && (level == FullStop || level == CancelOnly) ==> exec.openOrders == map[]
      ensures !effective ==> Whole() == old(Whole())
      ensures effective && Cancels(level) ==> Lists(visited, old(exec.openOrders).Keys)
      ensures Whole() == SystemNext(old(Whole()), Halts(level, scope, reason, actor, now, visited), exec.limits)
    {
      visited := [];
      if scope in activeHalts && activeHalts[scope].level.Rank() >= level.Rank() {
        return false, visited;
      }
      var halt := NewHalt(level, scope, reason, actor, now);
      activeHalts := activeHalts[scope := halt];
      RecalcMode();
      if level.Known() {
        events := events + [Row(halt, false)];
      }
      if level == FullStop || level == CancelOnly {
        visited := exec.CancelAll();
      }
      exec.SetSystemMode(currentMode);
      riskMode := currentMode;
      return true, visited;
    }

    method AcknowledgeHalt(scope: string, actor: string, cause: string, now: int) returns (ok: bool)
      modifies this
      ensures ok <==> scope in old(activeHalts) && !old(activeHalts)[scope].acknowledged
      ensures ok ==> scope in activeHalts && activeHalts - {scope} == old(activeHalts) - {scope}
                     && var h := activeHalts[scope];
                     h.acknowledged && h.ackedBy == actor && h.rootCause == cause && h.ackedAt == Some(now)
                     && h.level == old(activeHalts)[scope].level && h.reason == old(activeHalts)[scope].reason
      ensures !ok ==> Whole() == old(Whole())
      ensures Whole() == SystemNext(old(Whole()), Acks(scope, actor, cause, now), exec.limits)
    {
      if scope !in activeHalts || activeHalts[scope].acknowledged {
        return false;
      }
      var halt := activeHalts[scope];
      halt := halt.(acknowledged := true, ackedBy := actor, ackedAt := Some(now), rootCause := cause);
      activeHalts := activeHalts[scope := halt];
      events := AckLog(events, scope, actor, cause, now);
      return true;
    }

    method ResumeHalt(scope: string) returns (ok: bool)
      modifies this, exec
      ensures ok <==> scope in old(activeHalts) && old(activeHalts)[scope].acknowledged
      ensures ok ==> activeHalts == old(activeHalts) - {scope} && exec.systemMode == riskMode == currentMode
      ensures !ok ==> Whole() == old(Whole())
      ensures Whole() == SystemNext(old(Whole()), Resumes(scope), exec.limits)
    {
      if scope !in activeHalts || !activeHalts[scope].acknowledged {
        return false;
      }
      activeHalts := activeHalts - {scope};
      RecalcMode();
      events := ResumeLog(events, scope);
      exec.SetSystemMode(currentMode);
      riskMode := currentMode;
      return true;
    }

    /** Reads the recovery query's rows in the order they come. */
    method LoadActiveHalts(rows: seq<Row>)
      requires activeHalts == map[] && AllActive(rows)
      modifies this`activeHalts, this`currentMode
      ensures activeHalts == Loaded(rows) && currentMode == ModeOf(Loaded(rows))
    {
      for n := 0 to |rows|
        invariant activeHalts == Loaded(rows[..n])
      {
        assert rows[..n + 1][..n] == rows[..n];
        activeHalts := activeHalts[rows[n].halt.scope := rows[n].halt];
      }
      assert rows[..|rows|] == rows;
      RecalcMode();
    }
  }

  /** Records heartbeats and, at every tick, halts trading for a critical service that has gone silent. */
  class DeadMansSwitch {
    const killMgr: KillSwitchManager
    const cfg: Config
    var lastBeat: map<string, int>

    constructor (killMgr: KillSwitchManager, cfg: Config)
      ensures this.killMgr == killMgr && this.cfg == cfg && lastBeat == map[]
    {
      this.killMgr, this.cfg, lastBeat := killMgr, cfg, map[];
    }

    method RecordHeartbeat(service: string, now: int)
      modifies this
      ensures lastBeat == old(lastBeat)[service := now]
    {
      lastBeat := lastBeat[service := now];
    }

    /** One pass of Monitor's ticker loop; `visited` is the order in which each service's halt cancels orders. */
    method OnTick(now: int) returns (ghost visited: seq<seq<OrderId>>)
      modifies killMgr, killMgr.exec, killMgr.exec.ledger
      ensures |visited| == |CRITICAL|
      ensures killMgr.Whole()
           == TickedSystem(cfg, lastBeat, old(killMgr.Whole()), now, visited[0], visited[1], killMgr.exec.limits)
      ensures killMgr.State() == Ticked(cfg, Watch(lastBeat, old(killMgr.State())), now)
    {
      visited := [];
      ghost var start := killMgr.Whole();
      for n := 0 to |CRITICAL|
        invariant |visited| == n
        invariant killMgr.Whole() == TickedUpTo(start, now, visited)
      {
        var svc := CRITICAL[n];
        ghost var ks := [];
        if Late(cfg, lastBeat, svc, now) {
          var _, vs := killMgr.TriggerHalt(CancelOnly, "global", MissedReason(svc), "watchdog", now);
          ks := vs;
        }
        visited := visited + [ks];
      }
      TickedManager(cfg, lastBeat, start, now, visited[0], visited[1], killMgr.exec.limits);
    }

    /** The system once the first services have been checked. */
    ghost function TickedUpTo(s: System, now: int, visited: seq<seq<OrderId>>): System
      reads this
      requires |visited| <= |CRITICAL|
    {
      if visited == [] then s
      else if |visited| == 1 then CheckedSystem(cfg, lastBeat, s, CRITICAL[0], now, visited[0], killMgr.exec.limits)
      else TickedSystem(cfg, lastBeat, s, now, visited[0], visited[1], killMgr.exec.limits)
    }
  }

  lemma {:induction false} CheckedManager(cfg: Config, beats: map<string, int>, s: System, service: string, now: int,
                                          visited: seq<OrderId>, limits: Limits)
    ensures CheckedSystem(cfg, beats, s, service, now, visited, limits).ks == Checked(cfg, beats, s.ks, service, now)
  {
  }

  /** The kill switch's part of a tick is the one the heartbeat theorems are about. */
  lemma {:induction false} TickedManager(cfg: Config, beats: map<string, int>, s: System, now: int,
                                         visited0: seq<OrderId>, visited1: seq<OrderId>, limits: Limits)
    ensures TickedSystem(cfg, beats, s, now, visited0, visited1, limits).ks == Ticked(cfg, Watch(beats, s.ks), now)
  {
    CheckedManager(cfg, beats, s, CRITICAL[0], now, visited0, limits);
    var s1 := CheckedSystem(cfg, beats, s, CRITICAL[0], now, visited0, limits);
    CheckedManager(cfg, beats, s1, CRITICAL[1], now, visited1, limits);
  }
}
