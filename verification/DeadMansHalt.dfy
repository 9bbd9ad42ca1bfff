/** The dead man's switch over the whole system: a silent service ends with nothing open and no exposure. */
module DeadMansHalt {
  import opened Exposure
  import opened Books
  import opened KillSwitch
  import opened KillSwitchRows
  import opened TradingHalt
  import Heartbeat

  /** A beat of the engine may be answered with the mode; each halt of a tick cancels orders in some order. */
  datatype TimedEvent =
    | Beats(service: string, at: int, answered: bool)
    | Ticks(at: int, visited0: seq<OrderId>, visited1: seq<OrderId>)
    | Happens(event: Event, at: int)

  predicate Forgets(e: TimedEvent) { e.Happens? && e.event.WatchdogRestarts? }

  /** The beats the switch remembers; a restarted watchdog has none. */
  function LastBeats(es: seq<TimedEvent>): map<string, int>
  {
    if es == [] then map[]
    else
      var init, e := LastBeats(es[..|es| - 1]), es[|es| - 1];
      if e.Beats? then init[e.service := e.at] else if Forgets(e) then map[] else init
  }

  function HaltFor(service: string, at: int, visited: seq<OrderId>): Event
  {
    Halts(CancelOnly, "global", Heartbeat.MissedReason(service), "watchdog", at, visited)
  }

  function HaltIfLate(cfg: Heartbeat.Config, beats: map<string, int>, service: string, at: int,
      visited: seq<OrderId>): seq<Event>
  {
    if Heartbeat.Late(cfg, beats, service, at) then [HaltFor(service, at, visited)] else []
  }

  /** What the timed event does to the system. */
  function EventsOf(cfg: Heartbeat.Config, beats: map<string, int>, e: TimedEvent): seq<Event>
  {
    match e
    case Beats(service, _, answered) => if service == Heartbeat.CRITICAL[0] && answered then [HeartbeatAnswer] else []
    case Ticks(at, v0, v1) =>
      HaltIfLate(cfg, beats, Heartbeat.CRITICAL[0], at, v0) + HaltIfLate(cfg, beats, Heartbeat.CRITICAL[1], at, v1)
    case Happens(event, _) => [event]
  }

  /** The system's own events, in order. */
  function Flat(cfg: Heartbeat.Config, es: seq<TimedEvent>): seq<Event>
  {
    if es == [] then []
    else
      var init := es[..|es| - 1];
      Flat(cfg, init) + EventsOf(cfg, LastBeats(init), es[|es| - 1])
  }

  ghost predicate InOrder(es: seq<TimedEvent>)
  {
    forall i, j :: 0 <= i <= j < |es| ==> es[i].at <= es[j].at
  }

  ghost predicate TicksAt(es: seq<TimedEvent>, at: int)
  {
    exists i :: 0 <= i < |es| && es[i].Ticks? && es[i].at == at
  }

  /** The service's last beat is event b. */
  ghost predicate LastBeatIs(es: seq<TimedEvent>, service: string, b: nat)
  {
    && b < |es| && es[b].Beats? && es[b].service == service
    && forall j :: b < j < |es| && es[j].Beats? ==> es[j].service != service
  }

  /** No operator resumes the global scope after event i. */
  ghost predicate NotResumedAfter(es: seq<TimedEvent>, i: nat)
  {
    forall j :: i < j < |es| && es[j].Happens? ==> es[j].event != Resumes("global")
  }

  // ---------- the flat run ----------

  lemma {:induction false} FlatSplits(cfg: Heartbeat.Config, es: seq<TimedEvent>, n: nat)
    requires n <= |es|
    ensures |Flat(cfg, es[..n])| <= |Flat(cfg, es)| && Flat(cfg, es)[..|Flat(cfg, es[..n])|] == Flat(cfg, es[..n])
  {
    if n == |es| {
      assert es[..n] == es;
    } else {
      var init := es[..|es| - 1];
      FlatSplits(cfg, init, n);
      assert init[..n] == es[..n];
    }
  }

  lemma {:induction false} Shorter(cfg: Heartbeat.Config, es: seq<TimedEvent>, n: nat)
    requires n <= |es| && |Flat(cfg, es[..n])| != |Flat(cfg, es)|
    ensures n < |es|
  {
    var part := es[..n];
    assert |part| == |es| ==> part == es;
  }

  lemma {:induction false} EventsNotResumed(cfg: Heartbeat.Config, beats: map<string, int>, e: TimedEvent, k: nat)
    requires e.Happens? ==> e.event != Resumes("global")
    requires k < |EventsOf(cfg, beats, e)|
    ensures EventsOf(cfg, beats, e)[k] != Resumes("global")
  {
  }

  /** What follows the first i timed events holds no resume of the global scope unless they do. */
  lemma {:induction false} FlatNotResumed(cfg: Heartbeat.Config, es: seq<TimedEvent>, i: nat, j: nat)
    requires i < |es| && NotResumedAfter(es, i) && |Flat(cfg, es[..i + 1])| <= j < |Flat(cfg, es)|
    ensures Flat(cfg, es)[j] != Resumes("global")
  {
    Shorter(cfg, es, i + 1);
    var n := |es| - 1;
    var init, beats := es[..n], LastBeats(es[..n]);
    var before := Flat(cfg, init);
    assert init[..i + 1] == es[..i + 1];
    if j < |before| {
      FlatNotResumed(cfg, init, i, j);
    } else {
      EventsNotResumed(cfg, beats, es[n], j - |before|);
    }
  }

  // ---------- one tick ----------

  ghost function CheckedSystem(cfg: Heartbeat.Config, beats: map<string, int>, s: System, service: string, at: int,
                               visited: seq<OrderId>, limits: Limits): System
  {
    if Heartbeat.Late(cfg, beats, service, at) then SystemNext(s, HaltFor(service, at, visited), limits) else s
  }

  /** The system after a tick. */
  ghost function TickedSystem(cfg: Heartbeat.Config, beats: map<string, int>, s: System, at: int,
                              visited0: seq<OrderId>, visited1: seq<OrderId>, limits: Limits): System
  {
    CheckedSystem(cfg, beats, CheckedSystem(cfg, beats, s, Heartbeat.CRITICAL[0], at, visited0, limits),
                  Heartbeat.CRITICAL[1], at, visited1, limits)
  }

  lemma {:induction false} CheckIs(cfg: Heartbeat.Config, beats: map<string, int>, flat: seq<Event>, service: string,
      at: int,
                                   visited: seq<OrderId>, limits: Limits)
    ensures StateAfter(flat + HaltIfLate(cfg, beats, service, at, visited), limits)
         == CheckedSystem(cfg, beats, StateAfter(flat, limits), service, at, visited, limits)
  {
    if Heartbeat.Late(cfg, beats, service, at) {
      assert (flat + [HaltFor(service, at, visited)])[..|flat|] == flat;
    } else {
      assert flat + [] == flat;
    }
  }

  /** Its events make exactly this step. */
  lemma {:induction false} TickIs(cfg: Heartbeat.Config, es: seq<TimedEvent>, at: int,
                                  visited0: seq<OrderId>, visited1: seq<OrderId>, limits: Limits)
    ensures StateAfter(Flat(cfg, es + [Ticks(at, visited0, visited1)]), limits)
         == TickedSystem(cfg, LastBeats(es), StateAfter(Flat(cfg, es), limits), at, visited0, visited1, limits)
  {
    var e, beats, flat := Ticks(at, visited0, visited1), LastBeats(es), Flat(cfg, es);
    var h0 := HaltIfLate(cfg, beats, Heartbeat.CRITICAL[0], at, visited0);
    var h1 := HaltIfLate(cfg, beats, Heartbeat.CRITICAL[1], at, visited1);
    assert (es + [e])[..|es|] == es;
    assert Flat(cfg, es + [e]) == flat + h0 + h1;
    CheckIs(cfg, beats, flat, Heartbeat.CRITICAL[0], at, visited0, limits);
    CheckIs(cfg, beats, flat + h0, Heartbeat.CRITICAL[1], at, visited1, limits);
  }

  // ---------- the halt ----------

  /** Row i stands for a global halt of cancel_only or more. */
  predicate GlobalRow(log: seq<Row>, i: int)
  {
    SevereRow(log, i) && log[i].halt.scope == "global"
  }

  /** A global halt of cancel_only or more is on record. */
  ghost predicate GlobalOnRecord(m: Manager)
  {
    exists i :: GlobalRow(m.log, i)
  }

  lemma {:induction false} GlobalIsSevere(m: Manager)
    requires GlobalOnRecord(m)
    ensures Severe(m)
  {
    var i :| GlobalRow(m.log, i);
    assert SevereRow(m.log, i);
  }

  lemma {:induction false} EventKeepsGlobal(s: System, e: Event, limits: Limits)
    requires GlobalOnRecord(s.ks) && e != Resumes("global")
    ensures GlobalOnRecord(SystemNext(s, e, limits).ks)
  {
    var i :| GlobalRow(s.ks.log, i);
    assert GlobalRow(SystemNext(s, e, limits).ks.log, i);
  }

  /** The halt for a late service is on record, unless a global halt was: then that one is. */
  lemma {:induction false} HaltForHalts(s: System, service: string, at: int, visited: seq<OrderId>, limits: Limits)
    requires RowsCover(s.ks)
    ensures GlobalOnRecord(SystemNext(s, HaltFor(service, at, visited), limits).ks)
  {
    var ks' := SystemNext(s, HaltFor(service, at, visited), limits).ks;
    if Effective(s.ks, CancelOnly, "global") {
      assert GlobalRow(ks'.log, |s.ks.log|);
    } else {
      assert OnRecord(s.ks.log, s.ks.halts["global"]);
      var i :| Standing(s.ks.log, i) && s.ks.log[i].halt == s.ks.halts["global"];
      assert GlobalRow(ks'.log, i);
    }
  }

  ghost predicate NoResumeFrom(flat: seq<Event>, m: nat)
  {
    forall k :: m <= k < |flat| ==> flat[k] != Resumes("global")
  }

  /** From flat position m on the global halt stands as long as it is not resumed. */
  lemma {:induction false} GlobalHaltStays(es: seq<Event>, m: nat, n: nat, limits: Limits)
    requires m <= n <= |es| && GlobalOnRecord(StateAfter(es[..m], limits).ks)
    requires forall j :: m <= j < n ==> es[j] != Resumes("global")
    ensures GlobalOnRecord(StateAfter(es[..n], limits).ks)
  {
    if m < n {
      GlobalHaltStays(es, m, n - 1, limits);
      OneMoreEvent(es, n - 1, limits);
      EventKeepsGlobal(StateAfter(es[..n - 1], limits), es[n - 1], limits);
    }
  }

  /** After its last beat a service is remembered with that beat, or not at all. */
  lemma {:induction false} BeatStays(es: seq<TimedEvent>, b: nat, service: string, n: nat)
    requires b < n <= |es| && LastBeatIs(es, service, b)
    ensures service in LastBeats(es[..n]) ==> LastBeats(es[..n])[service] == es[b].at
  {
    assert es[..n][..n - 1] == es[..n - 1];
    if b < n - 1 {
      BeatStays(es, b, service, n - 1);
    }
  }

  ghost predicate OnlyHaltsAfter(es: seq<Event>, j: nat)
  {
    forall k :: j < k < |es| ==> es[k].Halts?
  }

  /** One of the events of a tick at which a critical service is late is the halt for that service. */
  lemma {:induction false} LateTickIn(cfg: Heartbeat.Config, es: seq<TimedEvent>, i: nat, service: string)
    returns (j: nat, visited: seq<OrderId>)
    requires i < |es| && es[i].Ticks? && service in Heartbeat.CRITICAL
    requires Heartbeat.Late(cfg, LastBeats(es[..i]), service, es[i].at)
    ensures j < |Flat(cfg, es[..i + 1])|
    ensures Flat(cfg, es[..i + 1])[j] == HaltFor(service, es[i].at, visited)
    ensures OnlyHaltsAfter(Flat(cfg, es[..i + 1]), j)
  {
    assert es[..i + 1][..i] == es[..i];
    var before, beats := Flat(cfg, es[..i]), LastBeats(es[..i]);
    var first := HaltIfLate(cfg, beats, Heartbeat.CRITICAL[0], es[i].at, es[i].visited0);
    assert Flat(cfg, es[..i + 1]) == before + EventsOf(cfg, beats, es[i]);
    j := if service == Heartbeat.CRITICAL[0] then |before| else |before| + |first|;
    visited := if service == Heartbeat.CRITICAL[0] then es[i].visited0 else es[i].visited1;
    assert Flat(cfg, es[..i + 1])[j] == HaltFor(service, es[i].at, visited);
  }

  lemma {:induction false} HaltAt(flat: seq<Event>, j: nat, service: string, at: int, visited: seq<OrderId>,
                                  keyOf: string -> string, limits: Limits)
    requires j < |flat| && flat[j] == HaltFor(service, at, visited) && SystemRunOk(flat, keyOf, limits)
    ensures GlobalOnRecord(StateAfter(flat[..j + 1], limits).ks)
  {
    RunKeepsModes(flat, j, keyOf, limits);
    OneMoreEvent(flat, j, limits);
    HaltForHalts(StateAfter(flat[..j], limits), service, at, visited, limits);
  }

  lemma {:induction false} NotResumedSince(cfg: Heartbeat.Config, es: seq<TimedEvent>, i: nat, j: nat)
    requires i < |es| && NotResumedAfter(es, i) && OnlyHaltsAfter(Flat(cfg, es[..i + 1]), j)
    ensures NoResumeFrom(Flat(cfg, es), j + 1)
  {
    var flat, part := Flat(cfg, es), Flat(cfg, es[..i + 1]);
    FlatSplits(cfg, es, i + 1);
    forall k | j + 1 <= k < |flat| ensures flat[k] != Resumes("global") {
      if k < |part| {
        assert flat[k] == part[k];
      } else {
        FlatNotResumed(cfg, es, i, k);
      }
    }
  }

  /** After such a tick the global halt stands until it is resumed. */
  lemma {:induction false} LateTickHolds(cfg: Heartbeat.Config, es: seq<TimedEvent>, i: nat, service: string,
                                         keyOf: string -> string, limits: Limits)
    requires i < |es| && es[i].Ticks? && service in Heartbeat.CRITICAL && NotResumedAfter(es, i)
    requires Heartbeat.Late(cfg, LastBeats(es[..i]), service, es[i].at)
    requires SystemRunOk(Flat(cfg, es), keyOf, limits)
    ensures GlobalOnRecord(StateAfter(Flat(cfg, es), limits).ks)
  {
    var j, visited := LateTickIn(cfg, es, i, service);
    FlatSplits(cfg, es, i + 1);
    var flat := Flat(cfg, es);
    assert flat[j] == Flat(cfg, es[..i + 1])[j];
    HaltAt(flat, j, service, es[i].at, visited, keyOf, limits);
    NotResumedSince(cfg, es, i, j);
    GlobalHaltStays(flat, j + 1, |flat|, limits);
    assert flat[..|flat|] == flat;
  }

  /** The tick that falls into the last interval before the deadline. */
  lemma {:induction false} DeadlineTick(cfg: Heartbeat.Config, es: seq<TimedEvent>, t: int, start: int, count: nat)
    returns (i: nat)
    requires cfg.interval > 0 && cfg.grace >= 0
    requires start <= t + (cfg.grace + 1) * cfg.interval <= start + count * cfg.interval
    requires forall n :: 0 <= n <= count ==> TicksAt(es, start + n * cfg.interval)
    ensures i < |es| && es[i].Ticks? && es[i].at <= t + (cfg.grace + 1) * cfg.interval
    ensures es[i].at - t > cfg.grace * cfg.interval >= 0
  {
    var deadline := t + (cfg.grace + 1) * cfg.interval;
    var n := Heartbeat.SomeTickFalls(start, cfg.interval, deadline);
    Heartbeat.Quotient(n, count, cfg.interval, deadline - start);
    assert TicksAt(es, start + n * cfg.interval);
    i :| 0 <= i < |es| && es[i].Ticks? && es[i].at == start + n * cfg.interval;
    assert (cfg.grace + 1) * cfg.interval == cfg.grace * cfg.interval + cfg.interval;
  }

  /**
   Main result: in every run of the whole system, with ticks one interval apart until t + (grace + 1) * interval, a
   critical service that beats last at t has by then met a tick from which on, until the global scope is resumed, a
   global halt of cancel_only or more is on record and, in a clean run, nothing is open and no exposure is
   outstanding.
   */
  lemma {:induction false} SilentServiceEmptiesBooks(cfg: Heartbeat.Config, es: seq<TimedEvent>, b: nat,
      service: string,
      start: int, count: nat, keyOf: string -> string, limits: Limits) returns (i: nat)
    requires cfg.interval > 0 && cfg.grace >= 0 && InOrder(es) && service in Heartbeat.CRITICAL
            && LastBeatIs(es, service, b)
    requires start <= es[b].at + (cfg.grace + 1) * cfg.interval <= start + count * cfg.interval
    requires forall n :: 0 <= n <= count ==> TicksAt(es, start + n * cfg.interval)
    requires SystemRunOk(Flat(cfg, es), keyOf, limits)
    requires Clean(Flat(cfg, es), limits)
    ensures i < |es| && es[i].Ticks? && es[i].at <= es[b].at + (cfg.grace + 1) * cfg.interval
    ensures NotResumedAfter(es, i) ==>
      GlobalOnRecord(StateAfter(Flat(cfg, es), limits).ks) && NothingOutstanding(StateAfter(Flat(cfg, es), limits))
  {
    i := DeadlineTick(cfg, es, es[b].at, start, count);
    assert b < i;
    BeatStays(es, b, service, i);
    if NotResumedAfter(es, i) {
      SilentEmpties(cfg, es, i, service, keyOf, limits);
    }
  }

  lemma {:induction false} SilentEmpties(cfg: Heartbeat.Config, es: seq<TimedEvent>, i: nat, service: string,
                                         keyOf: string -> string, limits: Limits)
    requires i < |es| && es[i].Ticks? && service in Heartbeat.CRITICAL && NotResumedAfter(es, i)
    requires Heartbeat.Late(cfg, LastBeats(es[..i]), service, es[i].at)
    requires SystemRunOk(Flat(cfg, es), keyOf, limits)
    requires Clean(Flat(cfg, es), limits)
    ensures GlobalOnRecord(StateAfter(Flat(cfg, es), limits).ks)
            && NothingOutstanding(StateAfter(Flat(cfg, es), limits))
  {
    var flat := Flat(cfg, es);
    LateTickHolds(cfg, es, i, service, keyOf, limits);
    GlobalIsSevere(StateAfter(flat, limits).ks);
    SevereHoldsNothing(flat, keyOf, limits);
  }

  // ---------- which service is blamed ----------

  /** The two critical services, by whether one is the second to be checked. */
  function Critical(second: bool): string { Heartbeat.CRITICAL[if second then 1 else 0] }

  function ReasonFor(second: bool): string { Heartbeat.MissedReason(Critical(second)) }

  /** A row was written for this reason. */
  ghost predicate Blamed(log: seq<Row>, reason: string)
  {
    exists i :: 0 <= i < |log| && log[i].halt.reason == reason
  }

  /** The last beat of the service before event i that the watchdog still remembers. */
  ghost predicate Remembered(es: seq<TimedEvent>, i: nat, service: string, b: nat)
  {
    && b < i <= |es| && es[b].Beats? && es[b].service == service
    && forall j :: b < j < i ==> !Forgets(es[j]) && (es[j].Beats? ==> es[j].service != service)
  }

  /** On time at event i, counting only beats since the watchdog's last restart. */
  ghost predicate OnTime(cfg: Heartbeat.Config, es: seq<TimedEvent>, i: nat, service: string)
    requires i < |es|
  {
    exists b: nat :: Remembered(es, i, service, b) && es[i].at - es[b].at <= cfg.grace * cfg.interval
  }

  lemma {:induction false} RememberedBeat(es: seq<TimedEvent>, i: nat, service: string, b: nat)
    requires Remembered(es, i, service, b)
    ensures service in LastBeats(es[..i]) && LastBeats(es[..i])[service] == es[b].at
  {
    assert es[..i][..i - 1] == es[..i - 1];
    if b < i - 1 {
      RememberedBeat(es, i - 1, service, b);
    }
  }

  lemma {:induction false} BeatIsRemembered(es: seq<TimedEvent>, i: nat, service: string) returns (b: nat)
    requires i <= |es| && service in LastBeats(es[..i])
    ensures Remembered(es, i, service, b)
  {
    assert i > 0;
    assert es[..i][..i - 1] == es[..i - 1];
    if es[i - 1].Beats? && es[i - 1].service == service {
      b := i - 1;
    } else {
      b := BeatIsRemembered(es, i - 1, service);
    }
  }

  /** A service is late at a tick exactly unless it is on time. */
  lemma {:induction false} LateExactlyUnless(cfg: Heartbeat.Config, es: seq<TimedEvent>, i: nat, service: string)
    requires i < |es|
    ensures Heartbeat.Late(cfg, LastBeats(es[..i]), service, es[i].at) <==> !OnTime(cfg, es, i, service)
  {
    if service in LastBeats(es[..i]) {
      var b := BeatIsRemembered(es, i, service);
      RememberedBeat(es, i, service, b);
    }
    if OnTime(cfg, es, i, service) {
      var b: nat :| Remembered(es, i, service, b) && es[i].at - es[b].at <= cfg.grace * cfg.interval;
      RememberedBeat(es, i, service, b);
    }
  }

  lemma {:induction false} EventBlames(s: System, e: Event, reason: string, limits: Limits)
    ensures Blamed(SystemNext(s, e, limits).ks.log, reason)
            <==> Blamed(s.ks.log, reason)
                 || (e.Halts? && e.reason == reason && e.level.Known() && Effective(s.ks, e.level, e.scope))
  {
    var log, log' := s.ks.log, SystemNext(s, e, limits).ks.log;
    if i :| 0 <= i < |log| && log[i].halt.reason == reason {
      assert log'[i].halt.reason == reason;
    }
    if i :| 0 <= i < |log'| && log'[i].halt.reason == reason {
      assert i < |log| ==> log[i].halt.reason == reason;
    }
    if e.Halts? && e.level.Known() && Effective(s.ks, e.level, e.scope) {
      assert log'[|log|].halt.reason == e.reason;
    }
  }

  /** No operator triggers for the dead man's switch's reason. */
  ghost predicate OperatorsDoNot(es: seq<TimedEvent>, reason: string)
  {
    forall i :: 0 <= i < |es| && es[i].Happens? && es[i].event.Halts? ==> es[i].event.reason != reason
  }

  /** The system when the watchdog checks the service at tick i. */
  ghost function BeforeCheck(cfg: Heartbeat.Config, es: seq<TimedEvent>, i: nat, second: bool, limits: Limits): System
    requires i < |es| && es[i].Ticks?
  {
    var s, beats := StateAfter(Flat(cfg, es[..i]), limits), LastBeats(es[..i]);
    if second then CheckedSystem(cfg, beats, s, Heartbeat.CRITICAL[0], es[i].at, es[i].visited0, limits) else s
  }

  /** At tick i the service is late and no global halt of cancel_only or more is in force. */
  ghost predicate BlamedAt(cfg: Heartbeat.Config, es: seq<TimedEvent>, i: nat, second: bool, limits: Limits)
  {
    && i < |es| && es[i].Ticks?
    && !OnTime(cfg, es, i, Critical(second))
    && !Heartbeat.GlobalHalt(BeforeCheck(cfg, es, i, second, limits).ks)
  }

  lemma {:induction false} CheckBlames(cfg: Heartbeat.Config, beats: map<string, int>, s: System, service: string,
      at: int,
                                       visited: seq<OrderId>, reason: string, limits: Limits)
    ensures Blamed(CheckedSystem(cfg, beats, s, service, at, visited, limits).ks.log, reason)
            <==> Blamed(s.ks.log, reason)
                 || (reason == Heartbeat.MissedReason(service) && Heartbeat.Late(cfg, beats, service, at)
                   && !Heartbeat.GlobalHalt(s.ks))
  {
    if Heartbeat.Late(cfg, beats, service, at) {
      EventBlames(s, HaltFor(service, at, visited), reason, limits);
    }
  }

  lemma {:induction false} TwoReasons()
    ensures ReasonFor(false) != ReasonFor(true)
  {
    if ReasonFor(false) == ReasonFor(true) {
      Heartbeat.ReasonNamesService(Critical(false), Critical(true));
    }
  }

  /** One more timed event blames the service exactly when it is a tick that does. */
  lemma {:induction false} TimedEventBlames(cfg: Heartbeat.Config, es: seq<TimedEvent>, n: nat, second: bool,
      limits: Limits)
    requires n < |es| && OperatorsDoNot(es, ReasonFor(second))
    ensures var reason := ReasonFor(second);
      Blamed(StateAfter(Flat(cfg, es[..n + 1]), limits).ks.log, reason)
      <==> Blamed(StateAfter(Flat(cfg, es[..n]), limits).ks.log, reason) || BlamedAt(cfg, es, n, second, limits)
  {
    var reason := ReasonFor(second);
    var flat, s, beats := Flat(cfg, es[..n]), StateAfter(Flat(cfg, es[..n]), limits), LastBeats(es[..n]);
    assert es[..n + 1] == es[..n] + [es[n]];
    if es[n].Ticks? {
      TickBlames(cfg, es, n, second, limits);
    } else {
      assert Flat(cfg, es[..n + 1]) == flat + EventsOf(cfg, beats, es[n]) by { assert es[..n + 1][..n] == es[..n]; }
      OtherEventBlames(flat, EventsOf(cfg, beats, es[n]), reason, limits);
    }
  }

  lemma {:induction false} OtherEventBlames(flat: seq<Event>, more: seq<Event>, reason: string, limits: Limits)
    requires |more| <= 1 && (more != [] && more[0].Halts? ==> more[0].reason != reason)
    ensures Blamed(StateAfter(flat + more, limits).ks.log, reason) <==> Blamed(StateAfter(flat, limits).ks.log, reason)
  {
    if more == [] {
      assert flat + more == flat;
    } else {
      assert (flat + more)[..|flat|] == flat && (flat + more)[|flat|] == more[0];
      EventBlames(StateAfter(flat, limits), more[0], reason, limits);
    }
  }

  lemma {:induction false} TickBlames(cfg: Heartbeat.Config, es: seq<TimedEvent>, n: nat, second: bool, limits: Limits)
    requires n < |es| && es[n].Ticks?
    ensures var reason := ReasonFor(second);
      Blamed(StateAfter(Flat(cfg, es[..n + 1]), limits).ks.log, reason)
      <==> Blamed(StateAfter(Flat(cfg, es[..n]), limits).ks.log, reason) || BlamedAt(cfg, es, n, second, limits)
  {
    var reason := ReasonFor(second);
    var e, s, beats := es[n], StateAfter(Flat(cfg, es[..n]), limits), LastBeats(es[..n]);
    assert es[..n + 1] == es[..n] + [Ticks(e.at, e.visited0, e.visited1)];
    TickIs(cfg, es[..n], e.at, e.visited0, e.visited1, limits);
    var s1 := CheckedSystem(cfg, beats, s, Heartbeat.CRITICAL[0], e.at, e.visited0, limits);
    CheckBlames(cfg, beats, s, Heartbeat.CRITICAL[0], e.at, e.visited0, reason, limits);
    CheckBlames(cfg, beats, s1, Heartbeat.CRITICAL[1], e.at, e.visited1, reason, limits);
    TwoReasons();
    LateExactlyUnless(cfg, es, n, Critical(second));
  }

  ghost predicate BlamedBefore(cfg: Heartbeat.Config, es: seq<TimedEvent>, n: nat, second: bool, limits: Limits)
  {
    n > 0 && (BlamedBefore(cfg, es, n - 1, second, limits) || BlamedAt(cfg, es, n - 1, second, limits))
  }

  lemma {:induction false} BlamedStays(cfg: Heartbeat.Config, es: seq<TimedEvent>, i: nat, n: nat, second: bool,
      limits: Limits)
    requires i < n && BlamedAt(cfg, es, i, second, limits)
    ensures BlamedBefore(cfg, es, n, second, limits)
  {
    if i < n - 1 {
      BlamedStays(cfg, es, i, n - 1, second, limits);
    }
  }

  lemma {:induction false} BlamedSomewhere(cfg: Heartbeat.Config, es: seq<TimedEvent>, n: nat, second: bool,
      limits: Limits) returns (i: nat)
    requires BlamedBefore(cfg, es, n, second, limits)
    ensures i < n && BlamedAt(cfg, es, i, second, limits)
  {
    if BlamedAt(cfg, es, n - 1, second, limits) {
      i := n - 1;
    } else {
      i := BlamedSomewhere(cfg, es, n - 1, second, limits);
    }
  }

  lemma {:induction false} BlamedUpTo(cfg: Heartbeat.Config, es: seq<TimedEvent>, n: nat, second: bool, limits: Limits)
    requires n <= |es| && OperatorsDoNot(es, ReasonFor(second))
    ensures Blamed(StateAfter(Flat(cfg, es[..n]), limits).ks.log, ReasonFor(second))
            <==> BlamedBefore(cfg, es, n, second, limits)
  {
    if n == 0 {
      assert Flat(cfg, es[..0]) == [];
    } else {
      BlamedUpTo(cfg, es, n - 1, second, limits);
      TimedEventBlames(cfg, es, n - 1, second, limits);
    }
  }

  /**
   Main result: over every run, watchdog restarts included, a critical service is blamed on record if and only if at
   some tick it is not on time, counting only beats since the watchdog's last restart, and no global halt of
   cancel_only or more is in force when it is checked.
   */
  lemma {:induction false} BlamedExactlyWhen(cfg: Heartbeat.Config, es: seq<TimedEvent>, second: bool, limits: Limits)
    requires OperatorsDoNot(es, ReasonFor(second))
    ensures Blamed(StateAfter(Flat(cfg, es), limits).ks.log, ReasonFor(second))
            <==> exists i :: 0 <= i < |es| && BlamedAt(cfg, es, i, second, limits)
  {
    BlamedUpTo(cfg, es, |es|, second, limits);
    assert es[..|es|] == es;
    if i :| 0 <= i < |es| && BlamedAt(cfg, es, i, second, limits) {
      BlamedStays(cfg, es, i, |es|, second, limits);
    }
    if BlamedBefore(cfg, es, |es|, second, limits) {
      var i := BlamedSomewhere(cfg, es, |es|, second, limits);
    }
  }
}
