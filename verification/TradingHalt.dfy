/**
 Kill switch, execution engine, ledger and risk gate wired directly to each other. Each process may restart, and an
 order may be in flight, acknowledged by the venue and not yet among the engine's open orders.
 */
module TradingHalt {
  import opened Modes
  import opened Orders
  import opened Uuids
  import opened Intents
  import opened Exposure
  import opened IntentLedger
  import opened Sums
  import opened Books
  import opened BooksAgree
  import opened EngineRuns
  import opened KillSwitch
  import opened KillSwitchLog
  import opened KillSwitchRows

  /** `flying` holds the orders in flight; what the engine still writes for them is in `books` already. */
  datatype System = System(ks: Manager, books: Books, riskMode: Mode, flying: set<OrderId>)

  const FRESH_SYSTEM := System(FRESH_MANAGER, FRESH, Normal, {})

  /**
   `EngineStep` includes the engine's restart, which comes up in mode normal; an accepted submit is in flight until it
   `Lands`. `HeartbeatAnswer` is the watchdog's answer to the engine's heartbeat, which carries the mode. A restarted
   risk engine reads the mode from the event rows, a restarted watchdog its halts, in any order.
   */
  datatype Event =
    | Halts(level: Level, scope: string, reason: string, actor: string, at: int, visited: seq<OrderId>)
    | Acks(scope: string, actor: string, cause: string, at: int)
    | Resumes(scope: string)
    | EngineStep(step: Step)
    | Lands(landed: OrderId)
    | HeartbeatAnswer
    | RiskRestarts
    | WatchdogRestarts(rows: seq<Row>)

  predicate Cancels(level: Level) { level == FullStop || level == CancelOnly }

  ghost function WithMode(s: System, ks: Manager): System
  {
    s.(ks := ks, books := s.books.(mode := ks.mode), riskMode := ks.mode)
  }

  /** The step is a submit that the venue is asked about and accepts. */
  ghost predicate Opens(b: Books, step: Step, limits: Limits)
  {
    step.DoSubmit? && step.reply.VenueAccepted? && ReachesVenue(b, step.a, limits)
  }

  /** An order in flight is not found by a cancel. */
  ghost function Stepped(s: System, step: Step, limits: Limits): System
  {
    if step.DoCancel? && step.target in s.flying then s
    else s.(books := EngineNext(s.books, step, limits),
            flying := if Opens(s.books, step, limits) then s.flying + {step.id} else s.flying)
  }

  ghost function SystemNext(s: System, e: Event, limits: Limits): System
  {
    match e
    case Halts(level, scope, reason, actor, at, visited) =>
      if !Effective(s.ks, level, scope) then s
      else
        WithMode(if Cancels(level) then s.(books := CancelEach(s.books, visited)) else s,
                 Trigger(s.ks, level, scope, reason, actor, at))
    case Acks(scope, actor, cause, at) => s.(ks := Acknowledge(s.ks, scope, actor, cause, at))
    case Resumes(scope) => if CanResume(s.ks, scope) then WithMode(s, Resume(s.ks, scope)) else s
    case EngineStep(step) => Stepped(s, step, limits)
    case Lands(x) => s.(flying := s.flying - {x})
    case HeartbeatAnswer => s.(books := s.books.(mode := s.ks.mode))
    case RiskRestarts => s.(riskMode := QueriedMode(s.ks.log))
    case WatchdogRestarts(rows) => s.(ks := Reloaded(s.ks, rows))
  }

  /** Planned traces and fresh ids; fills and cancels see landed orders only; a restart falls between operations. */
  ghost predicate SystemStepOk(s: System, step: Step, keyOf: string -> string)
  {
    match step
    case DoSubmit(a, id, _) =>
      id !in s.books.db.orders && IsUuid(a.order.trace) && IdempotencyKey(a.order) == keyOf(a.order.trace)
    case DoCancelAll(ks) => Lists(ks, s.books.open.Keys - s.flying)
    case DoFill(f, hit) => hit.Some? ==> hit.value !in s.flying && Matches(s.books, f, hit)
    case DoRestart => s.flying == {}
    case DoSetMode(_) => false
    case _ => true
  }

  ghost predicate EventOk(s: System, e: Event, keyOf: string -> string)
  {
    match e
    case Halts(_, _, _, _, _, visited) => Lists(visited, s.books.open.Keys - s.flying)
    case EngineStep(step) => SystemStepOk(s, step, keyOf)
    case WatchdogRestarts(rows) => AnyOrder(rows, s.ks.log)
    case _ => true
  }

  /** The system after a run from the fresh state. */
  ghost function StateAfter(es: seq<Event>, limits: Limits): System
  {
    if es == [] then FRESH_SYSTEM else SystemNext(StateAfter(es[..|es| - 1], limits), es[|es| - 1], limits)
  }

  ghost predicate SystemRunOk(es: seq<Event>, keyOf: string -> string, limits: Limits)
  {
    forall i :: 0 <= i < |es| ==> EventOk(StateAfter(es[..i], limits), es[i], keyOf)
  }

  /** Whether the engine has been told a mode after the event. */
  ghost predicate PushedBy(s: System, e: Event, pushed: bool)
  {
    match e
    case Halts(level, scope, _, _, _, _) => pushed || Effective(s.ks, level, scope)
    case Resumes(scope) => pushed || CanResume(s.ks, scope)
    case EngineStep(step) => pushed && !step.DoRestart?
    case HeartbeatAnswer => true
    case _ => pushed
  }

  /** Since the engine's last restart, if any, the kill switch has pushed a mode to it. */
  ghost predicate Pushed(es: seq<Event>, limits: Limits)
  {
    es == [] ||
    PushedBy(StateAfter(es[..|es| - 1], limits), es[|es| - 1], Pushed(es[..|es| - 1], limits))
  }

  lemma {:induction false} OneMoreEvent(es: seq<Event>, n: nat, limits: Limits)
    requires n < |es|
    ensures StateAfter(es[..n + 1], limits) == SystemNext(StateAfter(es[..n], limits), es[n], limits)
    ensures Pushed(es[..n + 1], limits) <==> PushedBy(StateAfter(es[..n], limits), es[n], Pushed(es[..n], limits))
  {
    assert es[..n + 1][..n] == es[..n];
  }

  // ---------- modes ----------

  /** Risk's mode, and the engine's once it was told one, is normal exactly when the kill switch's is. */
  ghost predicate ModesOk(s: System, pushed: bool)
  {
    && RowsCover(s.ks) && (s.riskMode == Normal <==> s.ks.mode == Normal)
    && (s.books.mode == Normal <==> !pushed || s.ks.mode == Normal)
  }

  lemma {:induction false} CancelKeepsMode(b: Books, ks: seq<OrderId>)
    ensures CancelEach(b, ks).mode == b.mode
    decreases |ks|
  {
    if ks != [] {
      CancelKeepsMode(Cancel(b, ks[0], true), ks[1..]);
    }
  }

  lemma {:induction false} EngineKeepsMode(b: Books, step: Step, limits: Limits)
    requires !step.DoSetMode?
    ensures EngineNext(b, step, limits).mode == if step.DoRestart? then Normal else b.mode
  {
    if step.DoCancelAll? {
      CancelKeepsMode(b, step.visited);
    }
  }

  lemma {:induction false} TriggerKeepsModes(s: System, e: Event, pushed: bool, limits: Limits)
    requires ModesOk(s, pushed) && e.Halts?
    ensures ModesOk(SystemNext(s, e, limits), PushedBy(s, e, pushed))
  {
    if Effective(s.ks, e.level, e.scope) {
      TriggerCovers(s.ks, e.level, e.scope, e.reason, e.actor, e.at);
    }
  }

  lemma {:induction false} AckKeepsModes(s: System, e: Event, pushed: bool, limits: Limits)
    requires ModesOk(s, pushed) && e.Acks?
    ensures ModesOk(SystemNext(s, e, limits), pushed)
  {
    AcknowledgeCovers(s.ks, e.scope, e.actor, e.cause, e.at);
  }

  lemma {:induction false} ResumeKeepsModes(s: System, e: Event, pushed: bool, limits: Limits)
    requires ModesOk(s, pushed) && e.Resumes?
    ensures ModesOk(SystemNext(s, e, limits), PushedBy(s, e, pushed))
  {
    ResumeCovers(s.ks, e.scope);
  }

  /** A watchdog that reads its halts back in any order is in mode normal exactly if it was. */
  lemma {:induction false} ReloadKeepsModes(s: System, rows: seq<Row>, pushed: bool, limits: Limits)
    requires ModesOk(s, pushed) && AnyOrder(rows, s.ks.log)
    ensures ModesOk(SystemNext(s, WatchdogRestarts(rows), limits), pushed)
  {
    ReloadCovers(s.ks, rows);
    CoverExactly(s.ks);
    CoverExactly(Reloaded(s.ks, rows));
  }

  lemma {:induction false} EventKeepsModes(s: System, e: Event, pushed: bool, keyOf: string -> string, limits: Limits)
    requires ModesOk(s, pushed) && EventOk(s, e, keyOf)
    ensures ModesOk(SystemNext(s, e, limits), PushedBy(s, e, pushed))
  {
    match e
    case Halts(_, _, _, _, _, _) => TriggerKeepsModes(s, e, pushed, limits);
    case Acks(_, _, _, _) => AckKeepsModes(s, e, pushed, limits);
    case Resumes(_) => ResumeKeepsModes(s, e, pushed, limits);
    case EngineStep(step) => EngineKeepsMode(s.books, step, limits);
    case RiskRestarts => CoverExactly(s.ks);
    case WatchdogRestarts(rows) => ReloadKeepsModes(s, rows, pushed, limits);
    case _ =>
  }

  // ---------- books ----------

  ghost predicate BooksOk(b: Books, keyOf: string -> string)
  {
    Agree(b) && KeysPlanned(b.db, keyOf)
  }

  lemma {:induction false} ModeChangeKeepsBooks(b: Books, m: Mode, keyOf: string -> string)
    requires BooksOk(b, keyOf)
    ensures BooksOk(b.(mode := m), keyOf)
  {
    OnlyGatesChange(b, b.(mode := m));
  }

  /** Cancelling any list of orders keeps the books .. */
  lemma {:induction false} CancelSomeKeeps(b: Books, ks: seq<OrderId>, keyOf: string -> string)
    requires BooksOk(b, keyOf)
    ensures BooksOk(CancelEach(b, ks), keyOf)
    decreases |ks|
  {
    if ks != [] {
      CancelKeeps(b, ks[0], true);
      CancelKeepsKeys(b, ks[0], true, keyOf);
      CancelSomeKeeps(Cancel(b, ks[0], true), ks[1..], keyOf);
    }
  }

  /** .. and closes exactly those listed. */
  lemma {:induction false} CancelSomeCloses(b: Books, ks: seq<OrderId>, x: OrderId)
    ensures x in CancelEach(b, ks).open <==> x in b.open && x !in ks
    decreases |ks|
  {
    if ks != [] {
      CancelSomeCloses(Cancel(b, ks[0], true), ks[1..], x);
    }
  }

  lemma {:induction false} StepKeepsBooks(s: System, step: Step, keyOf: string -> string, limits: Limits)
    requires BooksOk(s.books, keyOf) && SystemStepOk(s, step, keyOf)
    ensures BooksOk(EngineNext(s.books, step, limits), keyOf)
  {
    if step.DoCancelAll? {
      CancelSomeKeeps(s.books, step.visited, keyOf);
    } else if step.DoFill? && step.hit.None? {
      assert EngineNext(s.books, step, limits) == s.books;
    } else {
      StepKeeps(s.books, step, keyOf, limits);
    }
  }

  lemma {:induction false} HaltKeepsBooks(s: System, e: Event, keyOf: string -> string, limits: Limits)
    requires BooksOk(s.books, keyOf) && e.Halts? && Effective(s.ks, e.level, e.scope)
    ensures BooksOk(SystemNext(s, e, limits).books, keyOf)
  {
    var mode := Trigger(s.ks, e.level, e.scope, e.reason, e.actor, e.at).mode;
    if Cancels(e.level) {
      CancelSomeKeeps(s.books, e.visited, keyOf);
      ModeChangeKeepsBooks(CancelEach(s.books, e.visited), mode, keyOf);
    } else {
      ModeChangeKeepsBooks(s.books, mode, keyOf);
    }
  }

  /** A trigger that cancels leaves exactly the orders in flight. */
  lemma {:induction false} HaltLeavesFlying(s: System, e: Event, keyOf: string -> string, limits: Limits)
    requires EventOk(s, e, keyOf) && e.Halts? && Effective(s.ks, e.level, e.scope) && Cancels(e.level)
    ensures SystemNext(s, e, limits).books.open.Keys == s.books.open.Keys * s.flying
  {
    var open' := SystemNext(s, e, limits).books.open;
    forall x ensures x in open'.Keys <==> x in s.books.open.Keys * s.flying {
      CancelSomeCloses(s.books, e.visited, x);
      assert x in s.books.open.Keys - s.flying <==> x in e.visited;
    }
  }

  lemma {:induction false} EventKeepsBooks(s: System, e: Event, keyOf: string -> string, limits: Limits)
    requires BooksOk(s.books, keyOf) && EventOk(s, e, keyOf)
    ensures BooksOk(SystemNext(s, e, limits).books, keyOf)
  {
    match e
    case Halts(level, scope, _, _, _, _) => if Effective(s.ks, level, scope) { HaltKeepsBooks(s, e, keyOf, limits); }
    case Resumes(scope) => ModeChangeKeepsBooks(s.books, Resume(s.ks, scope).mode, keyOf);
    case EngineStep(step) => StepKeepsBooks(s, step, keyOf, limits);
    case HeartbeatAnswer => ModeChangeKeepsBooks(s.books, s.ks.mode, keyOf);
    case _ =>
  }

  // ---------- runs ----------

  lemma {:induction false} RunKeepsModes(es: seq<Event>, n: nat, keyOf: string -> string, limits: Limits)
    requires n <= |es| && SystemRunOk(es, keyOf, limits)
    ensures ModesOk(StateAfter(es[..n], limits), Pushed(es[..n], limits))
  {
    if n > 0 {
      RunKeepsModes(es, n - 1, keyOf, limits);
      OneMoreEvent(es, n - 1, limits);
      EventKeepsModes(StateAfter(es[..n - 1], limits), es[n - 1], Pushed(es[..n - 1], limits), keyOf, limits);
    }
  }

  lemma {:induction false} RunKeepsBooks(es: seq<Event>, n: nat, keyOf: string -> string, limits: Limits)
    requires n <= |es| && SystemRunOk(es, keyOf, limits)
    ensures BooksOk(StateAfter(es[..n], limits).books, keyOf)
  {
    if n == 0 {
      assert Agree(FRESH);
    } else {
      RunKeepsBooks(es, n - 1, keyOf, limits);
      OneMoreEvent(es, n - 1, limits);
      EventKeepsBooks(StateAfter(es[..n - 1], limits), es[n - 1], keyOf, limits);
    }
  }

  // ---------- main results about the gates ----------

  /** No approval passes the engine's gates. */
  ghost predicate GatesClosed(b: Books)
  {
    forall a: Approval :: !GatesPass(b, a)
  }

  lemma {:induction false} GatesClosedExactlyWhen(b: Books)
    ensures GatesClosed(b) <==> !b.reconciled || b.mode != Normal
  {
    var a := Approval(SampleOrder(1), Approved, [1], "p", 0, true);
    assert GatesPass(b, a) <==> b.reconciled && b.mode == Normal;
  }

  /**
   Main result: in every state of a fresh run, restarts of all three processes included and event rows read in any
   order, the kill switch and risk are in mode normal if and only if no halt of a known level is active; and under
   such a halt the engine's gates are closed if and only if it was told a mode since its last restart or has not
   passed reconciliation yet.
   */
  lemma {:induction false} HaltClosesGatesExactlyWhen(es: seq<Event>, keyOf: string -> string, limits: Limits)
    requires SystemRunOk(es, keyOf, limits)
    ensures var s := StateAfter(es, limits);
      && (s.ks.mode == Normal <==> !KnownHaltActive(s.ks)) && (s.riskMode == Normal <==> !KnownHaltActive(s.ks))
      && (s.books.mode == Normal <==> !Pushed(es, limits) || !KnownHaltActive(s.ks))
      && (KnownHaltActive(s.ks) ==> (GatesClosed(s.books) <==> Pushed(es, limits) || !s.books.reconciled))
  {
    RunKeepsModes(es, |es|, keyOf, limits);
    assert es[..|es|] == es;
    CoverExactly(StateAfter(es, limits).ks);
    GatesClosedExactlyWhen(StateAfter(es, limits).books);
  }

  // ---------- the same mode everywhere ----------

  /** The modes are equal, as far as pushed, and the rows read in trigger order give the halts. */
  ghost predicate ModesEqual(s: System, pushed: bool)
  {
    LogAgrees(s.ks) && s.riskMode == s.ks.mode && s.books.mode == if pushed then s.ks.mode else Normal
  }

  ghost predicate InTriggerOrder(s: System, e: Event)
  {
    e.WatchdogRestarts? ==> e.rows == ActiveRows(s.ks.log)
  }

  lemma {:induction false} ReloadKeepsLog(ks: Manager)
    requires LogAgrees(ks)
    ensures LogAgrees(Reloaded(ks, ActiveRows(ks.log)))
    ensures ModeOf(Loaded(ActiveRows(ks.log))) == ks.mode == QueriedMode(ks.log)
  {
    ActiveRowsAre(ks.log);
    QueryIsLoadedMode(ks.log);
    UnknownDoNotCount(ks.halts);
    assert KnownHalts(KnownHalts(ks.halts)) == KnownHalts(ks.halts);
  }

  lemma {:induction false} CallKeepsEqual(s: System, c: Call, s': System, pushed: bool, pushed': bool)
    requires ModesEqual(s, pushed) && s'.ks == ManagerNext(s.ks, c) && s'.riskMode == s'.ks.mode
    requires s'.books.mode == if pushed' then s'.ks.mode else Normal
    ensures ModesEqual(s', pushed')
  {
    StepKeepsLog(s.ks, c);
  }

  lemma {:induction false} CallEventKeepsEqual(s: System, e: Event, pushed: bool, limits: Limits)
    requires ModesEqual(s, pushed) && (e.Halts? || e.Acks? || e.Resumes?)
    ensures ModesEqual(SystemNext(s, e, limits), PushedBy(s, e, pushed))
  {
    var s', pushed' := SystemNext(s, e, limits), PushedBy(s, e, pushed);
    match e
    case Halts(level, scope, reason, actor, at, _) =>
      if Effective(s.ks, level, scope) {
        CallKeepsEqual(s, CallTrigger(level, scope, reason, actor, at), s', pushed, true);
      }
    case Acks(scope, actor, cause, at) =>
      CallKeepsEqual(s, CallAcknowledge(scope, actor, cause, at), s', pushed, pushed);
    case Resumes(scope) => if CanResume(s.ks, scope) { CallKeepsEqual(s, CallResume(scope), s', pushed, true); }
  }

  lemma {:induction false} EventKeepsEqual(s: System, e: Event, pushed: bool, keyOf: string -> string, limits: Limits)
    requires ModesEqual(s, pushed) && EventOk(s, e, keyOf) && InTriggerOrder(s, e)
    ensures ModesEqual(SystemNext(s, e, limits), PushedBy(s, e, pushed))
  {
    match e
    case EngineStep(step) => EngineKeepsMode(s.books, step, limits);
    case RiskRestarts => ReloadKeepsLog(s.ks);
    case WatchdogRestarts(_) => ReloadKeepsLog(s.ks);
    case Lands(_) =>
    case HeartbeatAnswer =>
    case _ => CallEventKeepsEqual(s, e, pushed, limits);
  }

  lemma {:induction false} FreshModesEqual()
    ensures ModesEqual(FRESH_SYSTEM, true)
  {
    assert Loaded([]) == map[] == KnownHalts(map[]);
  }

  /** While rows are read in trigger order, risk has the watchdog's mode, and so has the engine once it was told. */
  lemma {:induction false} TriggerOrderKeepsModesEqual(es: seq<Event>, n: nat, keyOf: string -> string, limits: Limits)
    requires n <= |es| && SystemRunOk(es, keyOf, limits)
    requires forall i :: 0 <= i < n ==> InTriggerOrder(StateAfter(es[..i], limits), es[i])
    ensures ModesEqual(StateAfter(es[..n], limits), Pushed(es[..n], limits))
  {
    if n == 0 {
      FreshModesEqual();
    } else {
      TriggerOrderKeepsModesEqual(es, n - 1, keyOf, limits);
      OneMoreEvent(es, n - 1, limits);
      EventKeepsEqual(StateAfter(es[..n - 1], limits), es[n - 1], Pushed(es[..n - 1], limits), keyOf, limits);
    }
  }

  lemma {:induction false} QueryOfPermutation(rows: seq<Row>, log: seq<Row>)
    requires AnyOrder(rows, log)
    ensures QueriedMode(rows) == QueriedMode(log) && AllActive(rows) && (AllKnown(log) ==> AllKnown(rows))
  {
    forall k | 0 <= k < |rows| ensures !rows[k].resumed && (AllKnown(log) ==> rows[k].halt.level.Known()) {
      var i := ReadIsStanding(rows, log, k);
    }
    forall l: Level ensures HasRow(rows, l) <==> HasRow(log, l) {
      if HasRow(rows, l) {
        var k :| 0 <= k < |rows| && !rows[k].resumed && rows[k].halt.level == l;
        var i := ReadIsStanding(rows, log, k);
        assert log[i].halt.level == l;
      }
      if HasRow(log, l) {
        var i :| 0 <= i < |log| && !log[i].resumed && log[i].halt.level == l;
        assert Standing(log, i);
        var k := StandingIsRead(rows, log, i);
        assert rows[k].halt.level == l;
      }
    }
  }

  lemma {:induction false} NoRowsNormal()
    ensures QueriedMode([]) == Normal == ModeOf(Loaded([]))
  {
  }

  lemma {:induction false} AnyOrderModeExactlyWhen(ks: Manager, rows: seq<Row>)
    requires QueriedMode(ks.log) == ks.mode && AllKnown(ks.log) && AnyOrder(rows, ks.log)
    ensures ModeOf(Loaded(rows)) == ks.mode <==> rows == [] || TopComesLast(rows)
  {
    QueryOfPermutation(rows, ks.log);
    if rows == [] {
      NoRowsNormal();
    } else {
      OrderKeepsModeExactlyWhen(rows);
    }
  }

  /**
   Main result: in a state with equal modes, risk agrees with a watchdog that restarts if and only if there is no row
   or a most severe one comes last of its scope.
   */
  lemma {:induction false} ReloadKeepsRiskExactlyWhen(s: System, rows: seq<Row>, pushed: bool, limits: Limits)
    requires ModesEqual(s, pushed) && AnyOrder(rows, s.ks.log)
    ensures var s' := SystemNext(s, WatchdogRestarts(rows), limits);
      s'.riskMode == s'.ks.mode <==> rows == [] || TopComesLast(rows)
  {
    ReloadKeepsLog(s.ks);
    AnyOrderModeExactlyWhen(s.ks, rows);
  }

  // ---------- main results about open orders ----------

  /** Event i is a submit that the venue accepts while a halt of cancel_only or full_stop is on record. */
  ghost predicate Stray(es: seq<Event>, i: nat, limits: Limits)
  {
    && i < |es| && es[i].EngineStep?
    && Severe(StateAfter(es[..i], limits).ks) && Opens(StateAfter(es[..i], limits).books, es[i].step, limits)
  }

  /** Event i is a trigger that cancels while an order is in flight. */
  ghost predicate Caught(es: seq<Event>, i: nat, limits: Limits)
  {
    i < |es| && var s := StateAfter(es[..i], limits);
    es[i].Halts? && Cancels(es[i].level) && Effective(s.ks, es[i].level, es[i].scope)
      && s.books.open.Keys * s.flying != {}
  }

  ghost predicate Clean(es: seq<Event>, limits: Limits)
  {
    forall i :: 0 <= i < |es| ==> !Stray(es, i, limits) && !Caught(es, i, limits)
  }

  ghost predicate Quiet(s: System) { Severe(s.ks) ==> s.books.open.Keys == {} }

  /** Only after a restart, before a mode is pushed, can a submit be a stray. */
  lemma {:induction false} StraysFollowRestarts(es: seq<Event>, i: nat, keyOf: string -> string, limits: Limits)
    requires SystemRunOk(es, keyOf, limits) && Stray(es, i, limits)
    ensures !Pushed(es[..i], limits)
  {
    RunKeepsModes(es, i, keyOf, limits);
    CoverExactly(StateAfter(es[..i], limits).ks);
  }

  lemma {:induction false} CancelNothing(b: Books, ks: seq<OrderId>)
    requires b.open.Keys == {}
    ensures CancelEach(b, ks) == b
    decreases |ks|
  {
    if ks != [] {
      CancelNothing(b, ks[1..]);
    }
  }

  lemma {:induction false} StepKeepsEmpty(b: Books, step: Step, limits: Limits)
    requires Agree(b) && b.open.Keys == {} && !Opens(b, step, limits)
    ensures EngineNext(b, step, limits).open.Keys == {}
  {
    if step.DoCancelAll? {
      CancelNothing(b, step.visited);
    }
    if step.DoRestart? {
      RestartRebuilds(b);
    }
  }

  lemma {:induction false} MildRowKeepsSevere(m: Manager, level: Level, scope: string, reason: string, actor: string,
      at: int)
    requires !Cancels(level) && Severe(Trigger(m, level, scope, reason, actor, at))
    ensures Severe(m)
  {
    var m' := Trigger(m, level, scope, reason, actor, at);
    var i :| SevereRow(m'.log, i);
    assert SevereRow(m.log, i);
  }

  lemma {:induction false} RowsStaySevere(m: Manager, scope: string, actor: string, cause: string, at: int)
    ensures Severe(Acknowledge(m, scope, actor, cause, at)) ==> Severe(m)
    ensures Severe(Resume(m, scope)) ==> Severe(m)
  {
    if i :| SevereRow(Acknowledge(m, scope, actor, cause, at).log, i) {
      assert SevereRow(m.log, i);
    }
    if i :| SevereRow(Resume(m, scope).log, i) {
      assert SevereRow(m.log, i);
    }
  }

  lemma {:induction false} HaltKeepsQuiet(s: System, e: Event, keyOf: string -> string, limits: Limits)
    requires Quiet(s) && EventOk(s, e, keyOf) && e.Halts? && Effective(s.ks, e.level, e.scope)
    requires Cancels(e.level) ==> s.books.open.Keys * s.flying == {}
    ensures Quiet(SystemNext(s, e, limits))
  {
    if Cancels(e.level) {
      HaltLeavesFlying(s, e, keyOf, limits);
    } else if Severe(SystemNext(s, e, limits).ks) {
      MildRowKeepsSevere(s.ks, e.level, e.scope, e.reason, e.actor, e.at);
    }
  }

  lemma {:induction false} StepKeepsQuiet(s: System, step: Step, limits: Limits)
    requires Agree(s.books) && Quiet(s) && !(Severe(s.ks) && Opens(s.books, step, limits))
    ensures Quiet(SystemNext(s, EngineStep(step), limits))
  {
    if Severe(s.ks) {
      StepKeepsEmpty(s.books, step, limits);
    }
  }

  lemma {:induction false} OthersKeepQuiet(s: System, e: Event, limits: Limits)
    requires Quiet(s) && !e.Halts? && !e.EngineStep?
    ensures Quiet(SystemNext(s, e, limits))
  {
    match e
    case Acks(scope, actor, cause, at) => RowsStaySevere(s.ks, scope, actor, cause, at);
    case Resumes(scope) => RowsStaySevere(s.ks, scope, "", "", 0);
    case _ =>
  }

  lemma {:induction false} EventKeepsQuiet(es: seq<Event>, i: nat, keyOf: string -> string, limits: Limits)
    requires i < |es| && EventOk(StateAfter(es[..i], limits), es[i], keyOf)
            && BooksOk(StateAfter(es[..i], limits).books, keyOf)
    requires Quiet(StateAfter(es[..i], limits)) && !Stray(es, i, limits) && !Caught(es, i, limits)
    ensures Quiet(SystemNext(StateAfter(es[..i], limits), es[i], limits))
  {
    var s, e := StateAfter(es[..i], limits), es[i];
    if e.Halts? {
      if Effective(s.ks, e.level, e.scope) {
        HaltKeepsQuiet(s, e, keyOf, limits);
      }
    } else if e.EngineStep? {
      StepKeepsQuiet(s, e.step, limits);
    } else {
      OthersKeepQuiet(s, e, limits);
    }
  }

  lemma {:induction false} CleanIsQuiet(es: seq<Event>, n: nat, keyOf: string -> string, limits: Limits)
    requires n <= |es| && SystemRunOk(es, keyOf, limits) && Clean(es, limits)
    ensures Quiet(StateAfter(es[..n], limits))
  {
    if n > 0 {
      CleanIsQuiet(es, n - 1, keyOf, limits);
      RunKeepsBooks(es, n - 1, keyOf, limits);
      OneMoreEvent(es, n - 1, limits);
      EventKeepsQuiet(es, n - 1, keyOf, limits);
    }
  }

  lemma {:induction false} StrayIsLoud(es: seq<Event>, i: nat, limits: Limits)
    requires Stray(es, i, limits)
    ensures es[i].step.id in StateAfter(es[..i + 1], limits).books.open && !Quiet(StateAfter(es[..i + 1], limits))
  {
    OneMoreEvent(es, i, limits);
    assert es[i].step.id in StateAfter(es[..i + 1], limits).books.open.Keys;
  }

  lemma {:induction false} TriggerIsSevere(m: Manager, level: Level, scope: string, reason: string, actor: string,
      at: int)
    requires Cancels(level) && Effective(m, level, scope)
    ensures Severe(Trigger(m, level, scope, reason, actor, at))
  {
    assert SevereRow(Trigger(m, level, scope, reason, actor, at).log, |m.log|);
  }

  lemma {:induction false} CaughtIsLoud(es: seq<Event>, i: nat, keyOf: string -> string, limits: Limits)
    requires SystemRunOk(es, keyOf, limits) && Caught(es, i, limits)
    ensures !Quiet(StateAfter(es[..i + 1], limits))
  {
    var s, e := StateAfter(es[..i], limits), es[i];
    OneMoreEvent(es, i, limits);
    HaltLeavesFlying(s, e, keyOf, limits);
    TriggerIsSevere(s.ks, e.level, e.scope, e.reason, e.actor, e.at);
  }

  /**
   Main result: throughout a fresh run nothing is ever open while cancel_only or full_stop is on record if and only if
   no submit was accepted by the venue under such a halt, which takes a restart whose engine was not yet told a mode,
   and no order was in flight when a trigger cancelled.
   */
  lemma {:induction false} HaltEmptiesBooksExactlyWhen(es: seq<Event>, keyOf: string -> string, limits: Limits)
    requires SystemRunOk(es, keyOf, limits)
    ensures (forall n :: 0 <= n <= |es| ==> Quiet(StateAfter(es[..n], limits))) <==> Clean(es, limits)
  {
    if i :| 0 <= i < |es| && Stray(es, i, limits) {
      StrayIsLoud(es, i, limits);
    } else if i :| 0 <= i < |es| && Caught(es, i, limits) {
      CaughtIsLoud(es, i, keyOf, limits);
    } else {
      forall n | 0 <= n <= |es| ensures Quiet(StateAfter(es[..n], limits)) {
        CleanIsQuiet(es, n, keyOf, limits);
      }
    }
  }

  /** Nothing is open and no exposure is outstanding. */
  ghost predicate NothingOutstanding(s: System)
  {
    && s.books.open.Keys == {} && Grouped(s.books.db.intents).total == 0
    && forall k: MarketSide :: Grouped(s.books.db.intents).At(k).notional == 0
  }

  lemma {:induction false} SevereHoldsNothing(es: seq<Event>, keyOf: string -> string, limits: Limits)
    requires SystemRunOk(es, keyOf, limits) && Severe(StateAfter(es, limits).ks) && Clean(es, limits)
    ensures NothingOutstanding(StateAfter(es, limits))
  {
    assert es[..|es|] == es;
    CleanIsQuiet(es, |es|, keyOf, limits);
    RunKeepsBooks(es, |es|, keyOf, limits);
    NothingOpenNothingExposed(StateAfter(es, limits).books);
  }

  ghost predicate HaltsObeyed(s: System)
  {
    && (KnownHaltActive(s.ks) ==> GatesClosed(s.books))
    && (Severe(s.ks) ==> NothingOutstanding(s))
    && (s.ks.mode == CancelOnlyMode || s.ks.mode == FullStopMode ==> NothingOutstanding(s))
  }

  lemma {:induction false} SevereModeOnRecord(es: seq<Event>, keyOf: string -> string, limits: Limits)
    requires SystemRunOk(es, keyOf, limits) && StateAfter(es, limits).ks.mode.Rank() >= 2
    ensures Severe(StateAfter(es, limits).ks)
  {
    assert es[..|es|] == es;
    RunKeepsModes(es, |es|, keyOf, limits);
    CoverExactly(StateAfter(es, limits).ks);
  }

  /**
   Main result: without such submits and triggers, every state with a mode pushed obeys the halts: the gates are closed
   under any halt of a known level, and under cancel_only or full_stop nothing is open and no exposure is outstanding.
   */
  lemma {:induction false} HaltStopsTrading(es: seq<Event>, keyOf: string -> string, limits: Limits)
    requires SystemRunOk(es, keyOf, limits) && Pushed(es, limits) && Clean(es, limits)
    ensures HaltsObeyed(StateAfter(es, limits))
  {
    HaltClosesGatesExactlyWhen(es, keyOf, limits);
    if StateAfter(es, limits).ks.mode.Rank() >= 2 {
      SevereModeOnRecord(es, keyOf, limits);
    }
    if Severe(StateAfter(es, limits).ks) {
      SevereHoldsNothing(es, keyOf, limits);
    }
  }

  ghost predicate EngineStaysUp(es: seq<Event>)
  {
    forall i :: 0 <= i < |es| ==> es[i] != EngineStep(DoRestart)
  }

  lemma {:induction false} OnlyRestartsUnpush(s: System, e: Event)
    requires e != EngineStep(DoRestart)
    ensures PushedBy(s, e, true)
  {
  }

  lemma {:induction false} StaysPushed(es: seq<Event>, n: nat, limits: Limits)
    requires n <= |es| && EngineStaysUp(es)
    ensures Pushed(es[..n], limits)
  {
    if n > 0 {
      StaysPushed(es, n - 1, limits);
      OneMoreEvent(es, n - 1, limits);
      OnlyRestartsUnpush(StateAfter(es[..n - 1], limits), es[n - 1]);
    }
  }

  /** While the engine stays up and no trigger catches an order in flight, every state of every run obeys the halts. */
  lemma {:induction false} HaltStopsTradingWithoutRestart(es: seq<Event>, keyOf: string -> string, limits: Limits)
    requires SystemRunOk(es, keyOf, limits) && EngineStaysUp(es)
    requires forall i :: 0 <= i < |es| ==> !Caught(es, i, limits)
    ensures HaltsObeyed(StateAfter(es, limits))
  {
    forall i | 0 <= i < |es| ensures !Stray(es, i, limits) {
      StaysPushed(es, i, limits);
      if Stray(es, i, limits) {
        StraysFollowRestarts(es, i, keyOf, limits);
      }
    }
    StaysPushed(es, |es|, limits);
    assert es[..|es|] == es;
    HaltStopsTrading(es, keyOf, limits);
  }

  // ---------- the failing runs ----------

  lemma {:induction false} Extend(es: seq<Event>, e: Event, keyOf: string -> string, limits: Limits)
    requires SystemRunOk(es, keyOf, limits) && EventOk(StateAfter(es, limits), e, keyOf)
    ensures SystemRunOk(es + [e], keyOf, limits)
    ensures StateAfter(es + [e], limits) == SystemNext(StateAfter(es, limits), e, limits)
  {
    var es' := es + [e];
    assert es'[..|es|] == es;
    forall i | 0 <= i < |es'| ensures EventOk(StateAfter(es'[..i], limits), es'[i], keyOf) {
      if i < |es| {
        assert es'[..i] == es[..i];
      }
    }
  }

  /** The run goes on, between operations, with the engine restarting and passing reconciliation. */
  function Reopened(es: seq<Event>): seq<Event>
  {
    es + [EngineStep(DoRestart)] + [EngineStep(DoSetReconciled(true))]
  }

  lemma {:induction false} ReopenSteps(s: System, limits: Limits)
    ensures SystemNext(SystemNext(s, EngineStep(DoRestart), limits), EngineStep(DoSetReconciled(true)), limits)
         == s.(books := Restarted(s.books.db, s.books.illegal).(reconciled := true))
  {
  }

  lemma {:induction false} ReopenedIs(es: seq<Event>, keyOf: string -> string, limits: Limits)
    requires SystemRunOk(es, keyOf, limits) && StateAfter(es, limits).flying == {}
    ensures SystemRunOk(Reopened(es), keyOf, limits)
    ensures var s := StateAfter(es, limits);
      StateAfter(Reopened(es), limits) == s.(books := Restarted(s.books.db, s.books.illegal).(reconciled := true))
  {
    ReopenSteps(StateAfter(es, limits), limits);
    Extend(es, EngineStep(DoRestart), keyOf, limits);
    Extend(es + [EngineStep(DoRestart)], EngineStep(DoSetReconciled(true)), keyOf, limits);
  }

  /** The trace is new and the exposure limits leave room for the order. */
  ghost predicate NewAndWithin(db: Db, a: Approval, limits: Limits)
  {
    && !HasTrace(db.intents, a.order.trace)
    && WithinLimits(Grouped(db.intents), NewIntentFromApproval(a.order, a.hmac), limits)
  }

  /**
   Why the mode must be pushed: whatever halts a run ends with, an engine that restarts and passes reconciliation
   sends the next approved order of a new trace to the venue.
   */
  lemma {:induction false} RestartReopens(es: seq<Event>, a: Approval, keyOf: string -> string, limits: Limits)
    requires SystemRunOk(es, keyOf, limits) && StateAfter(es, limits).flying == {}
    requires Submittable(a) && NewAndWithin(StateAfter(es, limits).books.db, a, limits)
    ensures StateAfter(Reopened(es), limits).ks == StateAfter(es, limits).ks
    ensures ReachesVenue(StateAfter(Reopened(es), limits).books, a, limits)
  {
    ReopenedIs(es, keyOf, limits);
    RunKeepsBooks(es, |es|, keyOf, limits);
    assert es[..|es|] == es;
    UuidIsItsColumn(a.order.trace);
    NewTraceNewKey(StateAfter(es, limits).books, a.order);
  }

  /** .. and the order it opens there stays open under the halt when a mode is pushed at last. */
  lemma {:induction false} StrayOutlivesPush(es: seq<Event>, a: Approval, id: OrderId, e: ExchangeId,
                                             keyOf: string -> string, limits: Limits)
    requires SystemRunOk(es, keyOf, limits) && StateAfter(es, limits).flying == {}
    requires Submittable(a) && NewAndWithin(StateAfter(es, limits).books.db, a, limits)
    requires IdempotencyKey(a.order) == keyOf(a.order.trace)
    requires id !in StateAfter(es, limits).books.db.orders && Severe(StateAfter(es, limits).ks)
    ensures var es' := Reopened(es) + [EngineStep(DoSubmit(a, id, VenueAccepted(e)))] + [HeartbeatAnswer];
      var s := StateAfter(es', limits);
      SystemRunOk(es', keyOf, limits) && Severe(s.ks) && s.books.mode == s.ks.mode && id in s.books.open
  {
    ReopenedIs(es, keyOf, limits);
    RestartReopens(es, a, keyOf, limits);
    var submit := EngineStep(DoSubmit(a, id, VenueAccepted(e)));
    Extend(Reopened(es), submit, keyOf, limits);
    Extend(Reopened(es) + [submit], HeartbeatAnswer, keyOf, limits);
  }

  /** An order placed and, while it is in flight, a trigger. */
  function CaughtRun(es: seq<Event>, submit: Step, halt: Event): seq<Event> { es + [EngineStep(submit)] + [halt] }

  lemma {:induction false} PlacedInFlight(s: System, submit: Step, limits: Limits)
    requires Opens(s.books, submit, limits)
    ensures var s' := SystemNext(s, EngineStep(submit), limits);
      && s'.ks == s.ks && submit.id in s'.flying && submit.id in s'.books.open
      && s'.books.open.Keys - s'.flying == s.books.open.Keys - s.flying - {submit.id}
  {
    assert SystemNext(s, EngineStep(submit), limits).books.open.Keys == s.books.open.Keys + {submit.id};
  }

  /**
   Why no order may be in flight: without any restart, an order that the venue has acknowledged when a trigger cancels
   stays open under the halt.
   */
  lemma {:induction false} FlightOutlivesTrigger(es: seq<Event>, submit: Step, halt: Event, keyOf: string -> string,
      limits: Limits)
    requires SystemRunOk(es, keyOf, limits) && SystemStepOk(StateAfter(es, limits), submit, keyOf)
    requires Opens(StateAfter(es, limits).books, submit, limits)
    requires halt.Halts? && Cancels(halt.level) && Effective(StateAfter(es, limits).ks, halt.level, halt.scope)
    requires var s := StateAfter(es, limits); Lists(halt.visited, s.books.open.Keys - s.flying - {submit.id})
    ensures var s := StateAfter(CaughtRun(es, submit, halt), limits);
      SystemRunOk(CaughtRun(es, submit, halt), keyOf, limits) && Severe(s.ks) && submit.id in s.books.open.Keys
  {
    var es1 := es + [EngineStep(submit)];
    var s := StateAfter(es, limits);
    PlacedInFlight(s, submit, limits);
    Extend(es, EngineStep(submit), keyOf, limits);
    var s1 := StateAfter(es1, limits);
    Extend(es1, halt, keyOf, limits);
    HaltLeavesFlying(s1, halt, keyOf, limits);
    TriggerIsSevere(s1.ks, halt.level, halt.scope, halt.reason, halt.actor, halt.at);
  }

  /**
   Why the level must be known: in every state a halt of any other level is taken on, and only pushes the mode there
   is.
   */
  lemma {:induction false} UnknownLevelStopsNothing(s: System, text: string, scope: string, reason: string,
      actor: string,
                                                    at: int, visited: seq<OrderId>, limits: Limits)
    requires s.ks.mode == ModeOf(s.ks.halts) && scope !in s.ks.halts
    ensures var s' := SystemNext(s, Halts(OtherLevel(text), scope, reason, actor, at, visited), limits);
      && scope in s'.ks.halts && s'.ks.mode == s.ks.mode && s'.ks.log == s.ks.log
      && s'.books == s.books.(mode := s.ks.mode) && s'.flying == s.flying
  {
    var halts := s.ks.halts[scope := NewHalt(OtherLevel(text), scope, reason, actor, at)];
    assert KnownHalts(halts) == KnownHalts(s.ks.halts);
    UnknownDoNotCount(halts);
    UnknownDoNotCount(s.ks.halts);
  }
}
