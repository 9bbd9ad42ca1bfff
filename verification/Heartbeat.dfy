/** The dead man's switch: a critical service that stops beating halts trading within one more interval. */
module Heartbeat {
  import opened KillSwitch
  import opened KillSwitchLog

  datatype Config = Config(interval: int, grace: int)

  datatype Watch = Watch(lastBeat: map<string, int>, ks: Manager)

  const CRITICAL: seq<string> := ["execution-engine", "risk-engine"]

  predicate Late(cfg: Config, lastBeat: map<string, int>, service: string, now: int)
  {
    service !in lastBeat || now - lastBeat[service] > cfg.grace * cfg.interval
  }

  function MissedReason(service: string): string
  {
    "dead_mans_switch: " + service + " heartbeat missed"
  }

  ghost function Checked(cfg: Config, lastBeat: map<string, int>, ks: Manager, service: string, now: int): Manager
  {
    if Late(cfg, lastBeat, service, now)
    then Trigger(ks, CancelOnly, "global", MissedReason(service), "watchdog", now)
    else ks
  }

  /** One tick checks the critical services in turn. */
  ghost function Ticked(cfg: Config, w: Watch, now: int): Manager
  {
    Checked(cfg, w.lastBeat, Checked(cfg, w.lastBeat, w.ks, CRITICAL[0], now), CRITICAL[1], now)
  }

  ghost predicate GlobalHalt(ks: Manager)
  {
    "global" in ks.halts && ks.halts["global"].level.Rank() >= CancelOnly.Rank()
  }

  /** Exactly when a tick changes the manager: a critical service is late and no such halt stands yet. */
  lemma {:induction false} TickExactly(cfg: Config, w: Watch, now: int)
    ensures (Ticked(cfg, w, now) == w.ks) <==>
      ((forall i :: 0 <= i < |CRITICAL| ==> !Late(cfg, w.lastBeat, CRITICAL[i], now)) || GlobalHalt(w.ks))
    ensures (exists i :: 0 <= i < |CRITICAL| && Late(cfg, w.lastBeat, CRITICAL[i], now)) ==>
          GlobalHalt(Ticked(cfg, w, now))
  {
    var first := Checked(cfg, w.lastBeat, w.ks, CRITICAL[0], now);
    CheckHalts(cfg, w.lastBeat, w.ks, CRITICAL[0], now);
    CheckHalts(cfg, w.lastBeat, first, CRITICAL[1], now);
    assert Late(cfg, w.lastBeat, CRITICAL[0], now) || Late(cfg, w.lastBeat, CRITICAL[1], now)
      <==> exists i :: 0 <= i < |CRITICAL| && Late(cfg, w.lastBeat, CRITICAL[i], now);
  }

  /** The service has beaten, and no longer ago than the grace period. */
  predicate Heard(cfg: Config, lastBeat: map<string, int>, service: string, now: int)
  {
    service in lastBeat && now <= lastBeat[service] + cfg.grace * cfg.interval
  }

  /** A tick acts if and only if the execution or the risk engine is not heard and no severe global halt stands. */
  lemma {:induction false} TickActsExactlyWhen(cfg: Config, w: Watch, now: int)
    ensures Ticked(cfg, w, now) != w.ks <==>
      && !(Heard(cfg, w.lastBeat, "execution-engine", now) && Heard(cfg, w.lastBeat, "risk-engine", now))
      && !("global" in w.ks.halts && w.ks.halts["global"].level in {CancelOnly, FullStop})
  {
    assert CRITICAL[0] == "execution-engine" && CRITICAL[1] == "risk-engine" && |CRITICAL| == 2;
    TickExactly(cfg, w, now);
  }

  lemma {:induction false} CheckHalts(cfg: Config, lastBeat: map<string, int>, ks: Manager, service: string, now: int)
    ensures Late(cfg, lastBeat, service, now) || GlobalHalt(ks) ==> GlobalHalt(Checked(cfg, lastBeat, ks, service, now))
    ensures !Late(cfg, lastBeat, service, now) || GlobalHalt(ks) ==> Checked(cfg, lastBeat, ks, service, now) == ks
  {
  }

  // ---------- timed runs ----------

  datatype WatchEvent =
    | Beat(service: string, at: int)
    | Tick(at: int)
    | Operate(call: Call, at: int)

  ghost function WatchNext(cfg: Config, w: Watch, e: WatchEvent): Watch
  {
    match e
    case Beat(service, at) => w.(lastBeat := w.lastBeat[service := at])
    case Tick(at) => w.(ks := Ticked(cfg, w, at))
    case Operate(call, _) => w.(ks := ManagerNext(w.ks, call))
  }

  ghost function WatchAfter(cfg: Config, es: seq<WatchEvent>): Watch
  {
    if es == [] then Watch(map[], FRESH_MANAGER) else WatchNext(cfg, WatchAfter(cfg, es[..|es| - 1]), es[|es| - 1])
  }

  ghost predicate Ordered(es: seq<WatchEvent>)
  {
    forall i, j :: 0 <= i <= j < |es| ==> es[i].at <= es[j].at
  }

  ghost predicate TicksAt(es: seq<WatchEvent>, at: int)
  {
    exists i :: 0 <= i < |es| && es[i] == Tick(at)
  }

  /** A service's last beat stays on record. */
  lemma {:induction false} BeatStays(cfg: Config, es: seq<WatchEvent>, b: nat, service: string, n: nat)
    requires b < n <= |es| && es[b].Beat? && es[b].service == service
    requires forall i :: b < i < n && es[i].Beat? ==> es[i].service != service
    ensures var w := WatchAfter(cfg, es[..n]); service in w.lastBeat && w.lastBeat[service] == es[b].at
  {
    assert es[..n][..n - 1] == es[..n - 1];
    if b < n - 1 {
      BeatStays(cfg, es, b, service, n - 1);
    }
  }

  /** Ticks one interval apart meet every half-open window of one interval that they span. */
  lemma {:induction false} SomeTickFalls(start: int, interval: int, end: int) returns (n: nat)
    requires interval > 0 && start <= end
    ensures end - interval < start + n * interval <= end
  {
    n := (end - start) / interval;
  }

  /**
   Main result: if a critical service beats last at time t and ticks come one interval apart until
   t + (grace + 1) * interval, then some tick by then leaves a global halt of cancel_only or more.
   */
  lemma {:induction false} SilentServiceHalts(cfg: Config, es: seq<WatchEvent>, b: nat, service: string, start: int,
      count: nat)
    requires cfg.interval > 0 && cfg.grace >= 0 && Ordered(es) && service in CRITICAL
    requires b < |es| && es[b].Beat? && es[b].service == service
    requires forall i :: b < i < |es| && es[i].Beat? ==> es[i].service != service
    requires start <= es[b].at + (cfg.grace + 1) * cfg.interval <= start + count * cfg.interval
    requires forall n :: 0 <= n <= count ==> TicksAt(es, start + n * cfg.interval)
    ensures exists i :: 0 <= i < |es| && es[i].Tick? && es[i].at <= es[b].at + (cfg.grace + 1) * cfg.interval
              && GlobalHalt(WatchAfter(cfg, es[..i + 1]).ks)
  {
    var i := TickBeforeDeadline(cfg, es, es[b].at, start, count);
    assert b < i;
    LateTickHalts(cfg, es, b, service, i);
  }

  lemma {:induction false} TickBeforeDeadline(cfg: Config, es: seq<WatchEvent>, t: int, start: int, count: nat)
    returns (i: nat)
    requires cfg.interval > 0 && cfg.grace >= 0
    requires start <= t + (cfg.grace + 1) * cfg.interval <= start + count * cfg.interval
    requires forall n :: 0 <= n <= count ==> TicksAt(es, start + n * cfg.interval)
    ensures i < |es| && es[i].Tick? && es[i].at <= t + (cfg.grace + 1) * cfg.interval
    ensures es[i].at - t > cfg.grace * cfg.interval >= 0
  {
    var deadline := t + (cfg.grace + 1) * cfg.interval;
    var n := SomeTickFalls(start, cfg.interval, deadline);
    Quotient(n, count, cfg.interval, deadline - start);
    assert TicksAt(es, start + n * cfg.interval);
    i :| 0 <= i < |es| && es[i] == Tick(start + n * cfg.interval);
    assert (cfg.grace + 1) * cfg.interval == cfg.grace * cfg.interval + cfg.interval;
  }

  lemma {:induction false} Quotient(n: nat, count: nat, interval: int, span: int)
    requires interval > 0 && n * interval <= span <= count * interval
    ensures n <= count
  {
    assert n * interval <= count * interval;
  }

  lemma {:induction false} LateTickHalts(cfg: Config, es: seq<WatchEvent>, b: nat, service: string, i: nat)
    requires b < i < |es| && es[b].Beat? && es[b].service == service && service in CRITICAL
    requires forall j :: b < j < |es| && es[j].Beat? ==> es[j].service != service
    requires es[i].Tick? && es[i].at - es[b].at > cfg.grace * cfg.interval
    ensures GlobalHalt(WatchAfter(cfg, es[..i + 1]).ks)
  {
    var w := WatchAfter(cfg, es[..i]);
    BeatStays(cfg, es, b, service, i);
    assert Late(cfg, w.lastBeat, service, es[i].at);
    TickExactly(cfg, w, es[i].at);
    assert es[..i + 1][..i] == es[..i];
  }

  // ---------- services that keep beating ----------

  /** The last beat before event i, if there is one, is that of event b. */
  ghost predicate LastBeat(es: seq<WatchEvent>, i: nat, service: string, b: nat)
  {
    && b < i <= |es| && es[b].Beat? && es[b].service == service
    && forall j :: b < j < i && es[j].Beat? ==> es[j].service != service
  }

  /** At event i the service's last beat lies within the grace period. */
  ghost predicate OnTime(cfg: Config, es: seq<WatchEvent>, i: nat, service: string)
    requires i < |es|
  {
    exists b: nat :: LastBeat(es, i, service, b) && es[i].at - es[b].at <= cfg.grace * cfg.interval
  }

  /** The service is on time at every tick. */
  ghost predicate Punctual(cfg: Config, es: seq<WatchEvent>, service: string)
  {
    forall i :: 0 <= i < |es| && es[i].Tick? ==> OnTime(cfg, es, i, service)
  }

  lemma {:induction false} OnTimeIsNotLate(cfg: Config, es: seq<WatchEvent>, i: nat, service: string)
    requires i < |es| && OnTime(cfg, es, i, service)
    ensures !Late(cfg, WatchAfter(cfg, es[..i]).lastBeat, service, es[i].at)
  {
    var b: nat :| LastBeat(es, i, service, b) && es[i].at - es[b].at <= cfg.grace * cfg.interval;
    BeatStays(cfg, es, b, service, i);
  }

  /** No halt, active or on record, was triggered for this reason. */
  ghost predicate NeverFor(ks: Manager, reason: string)
  {
    && (forall s :: s in ks.halts ==> ks.halts[s].reason != reason)
    && (forall i :: 0 <= i < |ks.log| ==> ks.log[i].halt.reason != reason)
  }

  lemma {:induction false} CallKeepsNeverFor(ks: Manager, c: Call, reason: string)
    requires NeverFor(ks, reason) && (c.CallTrigger? ==> c.reason != reason)
    ensures NeverFor(ManagerNext(ks, c), reason)
  {
  }

  lemma {:induction false} ReasonNamesService(s: string, t: string)
    requires MissedReason(s) == MissedReason(t)
    ensures s == t
  {
    var lead, tail := "dead_mans_switch: ", " heartbeat missed";
    assert |lead + s + tail| == |lead + t + tail|;
    assert s == (lead + s + tail)[|lead|..|lead| + |s|];
    assert t == (lead + t + tail)[|lead|..|lead| + |t|];
  }

  lemma {:induction false} CheckKeepsNeverFor(cfg: Config, w: Watch, ks: Manager, checked: string, service: string,
      now: int)
    requires NeverFor(ks, MissedReason(service)) && !Late(cfg, w.lastBeat, service, now)
    ensures NeverFor(Checked(cfg, w.lastBeat, ks, checked, now), MissedReason(service))
  {
    if Late(cfg, w.lastBeat, checked, now) {
      if MissedReason(checked) == MissedReason(service) {
        ReasonNamesService(checked, service);
      }
      var call := CallTrigger(CancelOnly, "global", MissedReason(checked), "watchdog", now);
      CallKeepsNeverFor(ks, call, MissedReason(service));
    }
  }

  lemma {:induction false} PunctualUpTo(cfg: Config, es: seq<WatchEvent>, service: string, n: nat)
    requires Punctual(cfg, es, service) && n <= |es|
    requires forall i :: 0 <= i < |es| && es[i].Operate? && es[i].call.CallTrigger? ==>
          es[i].call.reason != MissedReason(service)
    ensures NeverFor(WatchAfter(cfg, es[..n]).ks, MissedReason(service))
  {
    if n > 0 {
      PunctualUpTo(cfg, es, service, n - 1);
      var w, e := WatchAfter(cfg, es[..n - 1]), es[n - 1];
      assert es[..n][..n - 1] == es[..n - 1];
      match e
      case Beat(_, _) =>
      case Operate(call, _) => CallKeepsNeverFor(w.ks, call, MissedReason(service));
      case Tick(at) =>
        OnTimeIsNotLate(cfg, es, n - 1, service);
        CheckKeepsNeverFor(cfg, w, w.ks, CRITICAL[0], service, at);
        CheckKeepsNeverFor(cfg, w, Checked(cfg, w.lastBeat, w.ks, CRITICAL[0], at), CRITICAL[1], service, at);
    }
  }

  /**
   Main result: a service whose last beat is within the grace period at every tick is never the reason of a halt,
   active or on record, whatever the other services do and whatever operators trigger for other reasons.
   */
  lemma {:induction false} PunctualServiceNeverBlamed(cfg: Config, es: seq<WatchEvent>, service: string)
    requires Punctual(cfg, es, service)
    requires forall i :: 0 <= i < |es| && es[i].Operate? && es[i].call.CallTrigger? ==>
          es[i].call.reason != MissedReason(service)
    ensures NeverFor(WatchAfter(cfg, es).ks, MissedReason(service))
  {
    PunctualUpTo(cfg, es, service, |es|);
    assert es[..|es|] == es;
  }

  /** The calls operators made, in order. */
  function CallsIn(es: seq<WatchEvent>): seq<Call>
  {
    if es == [] then []
    else
      var init, e := CallsIn(es[..|es| - 1]), es[|es| - 1];
      if e.Operate? then init + [e.call] else init
  }

  lemma {:induction false} OneEvent(cfg: Config, es: seq<WatchEvent>, n: nat)
    requires n < |es|
    ensures WatchAfter(cfg, es[..n + 1]) == WatchNext(cfg, WatchAfter(cfg, es[..n]), es[n])
    ensures CallsIn(es[..n + 1]) == if es[n].Operate? then CallsIn(es[..n]) + [es[n].call] else CallsIn(es[..n])
  {
    assert es[..n + 1][..n] == es[..n];
  }

  lemma {:induction false} OneMoreCall(calls: seq<Call>, c: Call)
    ensures ManagerAfter(calls + [c]) == ManagerNext(ManagerAfter(calls), c)
  {
    assert (calls + [c])[..|calls|] == calls;
  }

  /**
   Main result: while all critical services are punctual, the kill switch is as if there were no dead man's switch.
   */
  lemma {:induction false} PunctualServicesNeverHalt(cfg: Config, es: seq<WatchEvent>, n: nat)
    requires n <= |es| && Punctual(cfg, es, CRITICAL[0]) && Punctual(cfg, es, CRITICAL[1])
    ensures WatchAfter(cfg, es[..n]).ks == ManagerAfter(CallsIn(es[..n]))
  {
    if n > 0 {
      PunctualServicesNeverHalt(cfg, es, n - 1);
      var w, e := WatchAfter(cfg, es[..n - 1]), es[n - 1];
      OneEvent(cfg, es, n - 1);
      match e
      case Beat(_, _) =>
      case Operate(call, _) => OneMoreCall(CallsIn(es[..n - 1]), call);
      case Tick(at) =>
        OnTimeIsNotLate(cfg, es, n - 1, CRITICAL[0]);
        OnTimeIsNotLate(cfg, es, n - 1, CRITICAL[1]);
        OnTimeTickKeeps(cfg, w, at);
    }
  }

  lemma {:induction false} OnTimeTickKeeps(cfg: Config, w: Watch, at: int)
    requires !Late(cfg, w.lastBeat, CRITICAL[0], at) && !Late(cfg, w.lastBeat, CRITICAL[1], at)
    ensures Ticked(cfg, w, at) == w.ks
  {
  }
}
