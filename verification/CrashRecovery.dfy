/** A process that dies between two database writes, and what a restart finds. */
module CrashRecovery {
  import opened Orders
  import opened Uuids
  import opened Intents
  import opened Exposure
  import opened IntentLedger
  import opened Sums
  import opened Books
  import opened BooksAgree
  import opened EngineRuns

  // ---------- what survives every single write ----------

  ghost predicate Backed(db: Db, o: ProposedOrder)
  {
    exists i :: 0 <= i < |db.intents| && db.intents[i].order == o && db.intents[i].status.IsOutstanding()
  }

  predicate Live(db: Db, x: OrderId)
  {
    x in db.orders && !db.orders[x].status.IsTerminal()
  }

  ghost predicate OrderTracesUnique(db: Db)
  {
    forall x, y :: x in db.orders && y in db.orders && x != y ==> db.orders[x].order.trace != db.orders[y].order.trace
  }

  /** Every order row that is not terminal has an outstanding intent of its own. */
  ghost predicate Safe(db: Db)
  {
    && LedgerOk(db) && OrderTracesUnique(db)
    && (forall x :: Live(db, x) ==> Backed(db, db.orders[x].order))
  }

  /** The discipline a write must follow in the state it meets. */
  ghost predicate WriteOk(db: Db, w: Write)
  {
    match w
    case InsertIntent(row) => ValidIntent(row) && !HasTrace(db.intents, row.order.trace)
    case InsertOrder(id, rec) =>
      && id !in db.orders && Backed(db, rec.order)
      && (forall x :: x in db.orders ==> db.orders[x].order.trace != rec.order.trace)
    case UpdateOrder(id, rec) => id in db.orders && (rec.status.IsTerminal() || !db.orders[id].status.IsTerminal())
    case UpdateIntent(i, s) =>
      s.IsOutstanding() || (i < |db.intents| && forall x :: Live(db, x) ==> db.orders[x].order != db.intents[i].order)
    case InsertFill(_) => true
  }

  lemma {:induction false} BackingAfterAppend(db: Db, row: OrderIntent, o: ProposedOrder)
    requires Backed(db, o)
    ensures Backed(db.(intents := db.intents + [row]), o)
  {
    var i :| 0 <= i < |db.intents| && db.intents[i].order == o && db.intents[i].status.IsOutstanding();
    assert (db.intents + [row])[i] == db.intents[i];
  }

  lemma {:induction false} BackingAfterStatus(db: Db, j: IntentId, s: IntentStatus, o: ProposedOrder)
    requires Backed(db, o) && (s.IsOutstanding() || (j < |db.intents| && db.intents[j].order != o))
    ensures Backed(db.(intents := WithStatus(db.intents, j, s)), o)
  {
    var i :| 0 <= i < |db.intents| && db.intents[i].order == o && db.intents[i].status.IsOutstanding();
    assert WithStatus(db.intents, j, s)[i].order == o && WithStatus(db.intents, j, s)[i].status.IsOutstanding();
  }

  lemma {:induction false} IntentWriteKeepsSafe(db: Db, w: Write)
    requires Safe(db) && WriteOk(db, w) && (w.InsertIntent? || w.UpdateIntent?)
    ensures Safe(Written(db, w))
  {
    var db' := Written(db, w);
    forall x | Live(db', x) ensures Backed(db', db'.orders[x].order) {
      assert Live(db, x);
      if w.InsertIntent? {
        BackingAfterAppend(db, w.row, db.orders[x].order);
      } else {
        BackingAfterStatus(db, w.intent, w.status, db.orders[x].order);
      }
    }
    LedgerWriteOk(db, w);
  }

  lemma {:induction false} LedgerWriteOk(db: Db, w: Write)
    requires LedgerOk(db) && WriteOk(db, w) && (w.InsertIntent? || w.UpdateIntent?)
    ensures LedgerOk(Written(db, w))
  {
  }

  lemma {:induction false} OrderWriteKeepsSafe(db: Db, w: Write)
    requires Safe(db) && WriteOk(db, w) && (w.InsertOrder? || w.UpdateOrder?)
    ensures Safe(Written(db, w))
  {
    var db' := Written(db, w);
    assert db'.intents == db.intents;
    forall x | Live(db', x) ensures Backed(db', db'.orders[x].order) {
      if x != w.id || w.UpdateOrder? {
        assert Live(db, x);
        assert Backed(db, db.orders[x].order);
      } else {
        assert Backed(db, w.rec.order);
      }
    }
  }

  lemma {:induction false} WriteKeepsSafe(db: Db, w: Write)
    requires Safe(db) && WriteOk(db, w)
    ensures Safe(Written(db, w))
  {
    if w.InsertIntent? || w.UpdateIntent? {
      IntentWriteKeepsSafe(db, w);
    } else if w.InsertOrder? || w.UpdateOrder? {
      OrderWriteKeepsSafe(db, w);
    } else {
      var db' := Written(db, w);
      forall x | Live(db', x) ensures Backed(db', db'.orders[x].order) {
        assert Live(db, x) && Backed(db, db.orders[x].order);
      }
    }
  }

  ghost predicate OkAlong(db: Db, ws: seq<Write>)
    decreases |ws|
  {
    ws == [] || (WriteOk(db, ws[0]) && OkAlong(Written(db, ws[0]), ws[1..]))
  }

  /** Stopping after any number of disciplined writes leaves the tables safe. */
  lemma {:induction false} PrefixSafe(db: Db, ws: seq<Write>, k: nat)
    requires Safe(db) && OkAlong(db, ws) && k <= |ws|
    ensures Safe(AllWritten(db, ws[..k]))
    decreases k
  {
    if k > 0 {
      WriteKeepsSafe(db, ws[0]);
      PrefixSafe(Written(db, ws[0]), ws[1..], k - 1);
      assert ws[..k][0] == ws[0] && ws[..k][1..] == ws[1..][..k - 1];
    }
  }

  lemma {:induction false} OkAlongConcat(db: Db, a: seq<Write>, b: seq<Write>)
    requires OkAlong(db, a) && OkAlong(AllWritten(db, a), b)
    ensures OkAlong(db, a + b)
    decreases |a|
  {
    if a == [] {
      assert a + b == b;
    } else {
      OkAlongConcat(Written(db, a[0]), a[1..], b);
      assert (a + b)[0] == a[0] && (a + b)[1..] == a[1..] + b;
    }
  }

  // ---------- exposure after a crash ----------

  function LiveOrders(db: Db): set<OrderId> { set x | x in db.orders && Live(db, x) }

  function LiveNotional(db: Db, key: MarketSide): OrderId -> int
  {
    (x: OrderId) =>
      if Live(db, x) && MarketSide(db.orders[x].order.market, db.orders[x].order.side) == key
      then db.orders[x].order.notional else 0
  }

  /** A one-to-one map from some orders into the rows that carries f to g bounds the one sum by the other. */
  lemma {:induction false} CoverSum(rows: seq<OrderIntent>, some: set<OrderId>, at: map<OrderId, IntentId>,
                                    f: OrderId -> int, g: OrderIntent -> int)
    requires some <= at.Keys
    requires forall x, y :: x in some && y in some && at[x] == at[y] ==> x == y
    requires forall x :: x in some ==> at[x] < |rows| && f(x) == g(rows[at[x]])
    requires forall i :: 0 <= i < |rows| ==> g(rows[i]) >= 0
    ensures SumSet(some, f) <= SumBy(rows, g)
    decreases |rows|
  {
    if rows == [] {
      assert some == {};
    } else {
      var n := |rows| - 1;
      if x :| x in some && at[x] == n {
        SumSetPick(some, x, f);
        CoverSum(rows[..n], some - {x}, at, f, g);
      } else {
        CoverSum(rows[..n], some, at, f, g);
      }
    }
  }

  ghost function BackingRow(db: Db, x: OrderId): (i: IntentId)
    requires x in db.orders && Backed(db, db.orders[x].order)
    ensures i < |db.intents| && db.intents[i].order == db.orders[x].order && db.intents[i].status.IsOutstanding()
  {
    var i :| 0 <= i < |db.intents| && db.intents[i].order == db.orders[x].order && db.intents[i].status.IsOutstanding();
    i
  }

  /** Replaying the ledger of a safe database never undercounts the orders that are not terminal. */
  lemma {:induction false} ReplayCoversOrders(db: Db, key: MarketSide)
    requires Safe(db)
    ensures SumSet(LiveOrders(db), LiveNotional(db, key)) <= Replay(db.intents).At(key).notional
  {
    var some := LiveOrders(db);
    var at := map x | x in some :: BackingRow(db, x);
    forall x, y | x in some && y in some && at[x] == at[y] ensures x == y {
      assert db.intents[at[x]].order == db.orders[x].order && db.intents[at[y]].order == db.orders[y].order;
    }
    CoverSum(db.intents, some, at, LiveNotional(db, key), NotionalAt(key));
    ReplayIsGrouped(db.intents);
    GroupedAt(db.intents, key);
  }

  function LiveAnyNotional(db: Db): OrderId -> int
  {
    (x: OrderId) => if Live(db, x) then db.orders[x].order.notional else 0
  }

  lemma {:induction false} ReplayCoversTotal(db: Db)
    requires Safe(db)
    ensures SumSet(LiveOrders(db), LiveAnyNotional(db)) <= Replay(db.intents).total
  {
    var some := LiveOrders(db);
    var at := map x | x in some :: BackingRow(db, x);
    forall x, y | x in some && y in some && at[x] == at[y] ensures x == y {
      assert db.intents[at[x]].order == db.orders[x].order && db.intents[at[y]].order == db.orders[y].order;
    }
    CoverSum(db.intents, some, at, LiveAnyNotional(db), AnyNotional());
    ReplayIsGrouped(db.intents);
  }

  /**
   Every live row is backed, and replayed exposure is no less than the live notional, per market side and in total.
   */
  ghost predicate NothingLost(db: Db)
  {
    && (forall x :: Live(db, x) ==> Backed(db, db.orders[x].order))
    && (forall key: MarketSide :: SumSet(LiveOrders(db), LiveNotional(db, key)) <= Replay(db.intents).At(key).notional)
    && SumSet(LiveOrders(db), LiveAnyNotional(db)) <= Replay(db.intents).total
  }

  lemma {:induction false} SafeLosesNothing(db: Db)
    requires Safe(db)
    ensures NothingLost(db)
  {
    forall key: MarketSide
      ensures SumSet(LiveOrders(db), LiveNotional(db, key)) <= Replay(db.intents).At(key).notional {
      ReplayCoversOrders(db, key);
    }
    ReplayCoversTotal(db);
  }

  // ---------- every operation's writes are disciplined ----------

  lemma {:induction false} AgreeIsSafe(b: Books)
    requires Agree(b)
    ensures Safe(b.db)
  {
    forall x | Live(b.db, x) ensures Backed(b.db, b.db.orders[x].order) {
      OpenFacts(b, x);
      assert b.db.intents[b.intentOf[x]].order == b.db.orders[x].order;
    }
  }

  /** A row is written terminal before its intent is. */
  lemma {:induction false} CloseOkAlong(db: Db, x: OrderId, rec: OrderRecord, i: IntentId, t: IntentStatus)
    requires OrderTracesUnique(db) && x in db.orders && i < |db.intents| && db.intents[i].order == db.orders[x].order
    requires rec.status.IsTerminal() || (!db.orders[x].status.IsTerminal() && t.IsOutstanding())
    ensures OkAlong(db, [UpdateOrder(x, rec)] + [UpdateIntent(i, t)])
  {
    var w, v := UpdateOrder(x, rec), UpdateIntent(i, t);
    var db' := Written(db, w);
    assert ([w] + [v])[1..] == [v] && [v][1..] == [];
    if !t.IsOutstanding() {
      forall y | Live(db', y) ensures db'.orders[y].order != db'.intents[i].order {
        assert y != x;
        assert db'.orders[y].order == db.orders[y].order;
      }
    }
    assert WriteOk(db', v);
  }

  lemma {:induction false} CancelOkAlong(b: Books, x: OrderId)
    requires OpenAt(b, x) && OrderTracesUnique(b.db)
    ensures OkAlong(b.db, CancelWrites(b, x))
  {
    var rec, i := b.open[x].(status := Cancelled), b.intentOf[x];
    assert CancelWrites(b, x) == [UpdateOrder(x, rec)] + [UpdateIntent(i, ICancelled)];
    CloseOkAlong(b.db, x, rec, i, ICancelled);
  }

  lemma {:induction false} FillOkAlong(b: Books, x: OrderId, f: VenueFill)
    requires OpenAt(b, x) && OrderTracesUnique(b.db)
    ensures OkAlong(b.db, FillWrites(b, x, f))
  {
    var rec, i, first := FilledRecord(b.open[x], f), b.intentOf[x], InsertFill(FillRow(x, f.quantity, f.price));
    var db' := Written(b.db, first);
    if Completes(b.open[x], f) {
      var rest := [UpdateOrder(x, rec.(status := Filled))] + [UpdateIntent(i, IFilled)];
      assert FillWrites(b, x, f) == [first] + rest;
      assert ([first] + rest)[1..] == rest;
      CloseOkAlong(db', x, rec.(status := Filled), i, IFilled);
    } else {
      var w := UpdateOrder(x, rec.(status := PartiallyFilled));
      assert FillWrites(b, x, f) == [first] + [w];
      assert ([first] + [w])[1..] == [w] && [w][1..] == [];
      assert b.db.orders[x].status == LoadedRecord(b.open[x]).status;
    }
  }

  /** The two inserts of a submit: intent first, then the order it backs. */
  lemma {:induction false} InsertsOk(db: Db, row: OrderIntent, x: OrderId, rec: OrderRecord, rest: seq<Write>)
    requires ValidIntent(row) && row.status.IsOutstanding() && !HasTrace(db.intents, row.order.trace)
    requires x !in db.orders && rec.order == row.order
    requires forall y :: y in db.orders ==> db.orders[y].order.trace != row.order.trace
    requires OkAlong(db.(intents := db.intents + [row], orders := db.orders[x := rec]), rest)
    ensures OkAlong(db, [InsertIntent(row)] + ([InsertOrder(x, rec)] + rest))
  {
    var w1, w2 := InsertIntent(row), InsertOrder(x, rec);
    var db1 := Written(db, w1);
    assert db1.intents[|db.intents|] == row;
    assert Backed(db1, row.order);
    assert ([w2] + rest)[1..] == rest;
    assert ([w1] + ([w2] + rest))[1..] == [w2] + rest;
  }

  lemma {:induction false} SubmitOkAlong(b: Books, a: Approval, limits: Limits, x: OrderId, reply: Reply)
    requires Agree(b) && x !in b.db.orders && (Enters(b, a, limits) ==> SubmitSafe(b, a))
    ensures OkAlong(b.db, SubmitWrites(b, a, limits, x, reply))
  {
    if Enters(b, a, limits) && !HasTrace(b.db.intents, a.order.trace) {
      UuidIsItsColumn(a.order.trace);
      NewTraceNewKey(b, a.order);
      SubmitWritesListed(b, a, limits, x, reply);
      SubmitNewOkAlong(b.db, a, x, reply);
    } else {
      assert SubmitWrites(b, a, limits, x, reply) == [];
    }
  }

  lemma {:induction false} SubmitNewOkAlong(db: Db, a: Approval, x: OrderId, reply: Reply)
    requires TableOk(db) && x !in db.orders && !HasTrace(db.intents, a.order.trace)
    requires ValidIntent(NewIntentFromApproval(a.order, a.hmac))
    ensures OkAlong(db, [InsertIntent(NewIntentFromApproval(a.order, a.hmac))] + PlaceWrites(a, x, reply, |db.intents|))
  {
    var n, row, rec := |db.intents|, NewIntentFromApproval(a.order, a.hmac), NewRecord(a).(exchangeId := None);
    var upd := Answered(a, reply).(status := ReplyStatus(reply));
    var db2 := db.(intents := db.intents + [row], orders := db.orders[x := rec]);
    var rest := [UpdateOrder(x, upd)] + [UpdateIntent(n, ReplyIntentStatus(reply))];
    assert TransitionWrites(x, Answered(a, reply), ReplyStatus(reply)) + [UpdateIntent(n, ReplyIntentStatus(reply))]
      == rest;
    forall y | y in db.orders ensures db.orders[y].order.trace != row.order.trace {
      assert HasTrace(db.intents, db.orders[y].order.trace);
    }
    assert db2.intents[n] == row;
    assert OrderTracesUnique(db2);
    CloseOkAlong(db2, x, upd, n, ReplyIntentStatus(reply));
    InsertsOk(db, row, x, rec, rest);
  }

  function CancelAllWrites(b: Books, ks: seq<OrderId>): seq<Write>
    decreases |ks|
  {
    if ks == [] then []
    else (if ks[0] in b.open then CancelWrites(b, ks[0]) else []) + CancelAllWrites(Cancel(b, ks[0], true), ks[1..])
  }

  lemma {:induction false} CancelAllOkAlong(b: Books, ks: seq<OrderId>)
    requires Agree(b)
    ensures OkAlong(b.db, CancelAllWrites(b, ks))
    ensures AllWritten(b.db, CancelAllWrites(b, ks)) == CancelEach(b, ks).db
    decreases |ks|
  {
    if ks != [] {
      var first := if ks[0] in b.open then CancelWrites(b, ks[0]) else [];
      CancelKeeps(b, ks[0], true);
      CancelAllOkAlong(Cancel(b, ks[0], true), ks[1..]);
      if ks[0] in b.open {
        OpenFacts(b, ks[0]);
        CancelOkAlong(b, ks[0]);
      }
      OkAlongConcat(b.db, first, CancelAllWrites(Cancel(b, ks[0], true), ks[1..]));
      WritesInTwo(b.db, first, CancelAllWrites(Cancel(b, ks[0], true), ks[1..]));
    }
  }

  /** The database writes of one step, in order. */
  ghost function StepWrites(b: Books, s: Step, limits: Limits): seq<Write>
  {
    match s
    case DoSubmit(a, id, reply) => SubmitWrites(b, a, limits, id, reply)
    case DoCancel(x, ok) => if x in b.open && ok then CancelWrites(b, x) else []
    case DoCancelAll(ks) => CancelAllWrites(b, ks)
    case DoFill(f, hit) =>
      if hit.Some? && hit.value in b.open && FillAccepted(f) then FillWrites(b, hit.value, f) else []
    case _ => []
  }

  lemma {:induction false} StepOkAlong(b: Books, s: Step, keyOf: string -> string, limits: Limits)
    requires Agree(b) && KeysPlanned(b.db, keyOf) && StepOk(b, s, keyOf)
    ensures OkAlong(b.db, StepWrites(b, s, limits))
  {
    match s
    case DoSubmit(a, id, reply) => PlannedIsSafe(b, a, keyOf); SubmitOkAlong(b, a, limits, id, reply);
    case DoCancel(x, ok) => if x in b.open && ok { OpenFacts(b, x); CancelOkAlong(b, x); }
    case DoCancelAll(ks) => CancelAllOkAlong(b, ks);
    case DoFill(f, hit) => if hit.Some? && FillAccepted(f) { OpenFacts(b, hit.value); FillOkAlong(b, hit.value, f); }
    case _ =>
  }

  lemma {:induction false} SubmitWritesAreAll(b: Books, a: Approval, limits: Limits, x: OrderId, reply: Reply)
    ensures Submit(b, a, limits, x, reply).db == AllWritten(b.db, SubmitWrites(b, a, limits, x, reply))
  {
  }

  lemma {:induction false} FillWritesAreAll(b: Books, x: OrderId, f: VenueFill)
    requires x in b.open && FillAccepted(f)
    ensures ProcessFill(b, f, Some(x)).db == AllWritten(b.db, FillWrites(b, x, f))
  {
  }

  /** The listed writes are all the writes: together they make the step's change to the database. */
  lemma {:induction false} StepWritesAreAll(b: Books, s: Step, limits: Limits)
    requires Agree(b)
    ensures AllWritten(b.db, StepWrites(b, s, limits)) == EngineNext(b, s, limits).db
  {
    match s
    case DoSubmit(a, id, reply) => SubmitWritesAreAll(b, a, limits, id, reply);
    case DoCancel(x, ok) =>
    case DoCancelAll(ks) => CancelAllOkAlong(b, ks);
    case DoFill(f, hit) => if hit.Some? && hit.value in b.open && FillAccepted(f) { FillWritesAreAll(b, hit.value, f); }
    case _ =>
  }

  /**
   Main result: stop a fresh run after any number of writes inside any operation. Every order row that is
   not terminal still has its outstanding intent, and replaying the ledger never undercounts those orders,
   per market side and in total.
   */
  lemma {:induction false} CrashNeverUndercounts(steps: seq<Step>, keyOf: string -> string, limits: Limits, s: Step,
      k: nat)
    requires EngineRunOk(FRESH, steps, keyOf, limits) && StepOk(EngineAfter(FRESH, steps, limits), s, keyOf)
    requires k <= |StepWrites(EngineAfter(FRESH, steps, limits), s, limits)|
    ensures var b := EngineAfter(FRESH, steps, limits); NothingLost(AllWritten(b.db, StepWrites(b, s, limits)[..k]))
  {
    var b := EngineAfter(FRESH, steps, limits);
    assert Agree(FRESH);
    EmptyInEnvelope(limits);
    RunKeeps(FRESH, steps, keyOf, limits);
    AgreeIsSafe(b);
    StepOkAlong(b, s, keyOf, limits);
    PrefixSafe(b.db, StepWrites(b, s, limits), k);
    SafeLosesNothing(AllWritten(b.db, StepWrites(b, s, limits)[..k]));
  }

  // ---------- when the restart itself works ----------

  /** A write that never leaves a row without an exchange id. */
  predicate NoNull(w: Write)
  {
    (w.InsertOrder? || w.UpdateOrder?) ==> w.rec.exchangeId.Some?
  }

  lemma {:induction false} LoadablePrefix(db: Db, ws: seq<Write>, k: nat)
    requires Loadable(db) && k <= |ws| && forall i :: 0 <= i < |ws| ==> NoNull(ws[i])
    ensures Loadable(AllWritten(db, ws[..k]))
    decreases k
  {
    if k > 0 {
      assert NoNull(ws[0]);
      assert Loadable(Written(db, ws[0]));
      LoadablePrefix(Written(db, ws[0]), ws[1..], k - 1);
      assert ws[..k][0] == ws[0] && ws[..k][1..] == ws[1..][..k - 1];
    }
  }

  /** Every open order has the venue's answer. */
  ghost predicate OpenAnswered(b: Books)
  {
    forall x :: x in b.open ==> b.open[x].exchangeId.Some?
  }

  lemma {:induction false} CancelAllNoNull(b: Books, ks: seq<OrderId>)
    requires OpenAnswered(b)
    ensures forall i :: 0 <= i < |CancelAllWrites(b, ks)| ==> NoNull(CancelAllWrites(b, ks)[i])
    decreases |ks|
  {
    if ks != [] {
      CancelAllNoNull(Cancel(b, ks[0], true), ks[1..]);
    }
  }

  lemma {:induction false} StepNoNull(b: Books, s: Step, limits: Limits)
    requires OpenAnswered(b) && !s.DoSubmit?
    ensures forall i :: 0 <= i < |StepWrites(b, s, limits)| ==> NoNull(StepWrites(b, s, limits)[i])
  {
    if s.DoCancelAll? {
      CancelAllNoNull(b, s.visited);
    }
  }

  lemma {:induction false} PrefixOfThree(db: Db, w1: Write, w2: Write, w3: Write, k: nat)
    requires k <= 3
    ensures AllWritten(db, ([w1] + ([w2] + [w3]))[..k])
         == var db1 := Written(db, w1); var db2 := Written(db1, w2);
            if k == 0 then db else if k == 1 then db1 else if k == 2 then db2 else Written(db2, w3)
  {
    var ws, db1 := [w1] + ([w2] + [w3]), Written(db, w1);
    if k == 1 {
      assert ws[..1] == [w1];
      OneWrite(db, w1);
    } else if k == 2 {
      assert ws[..2] == [w1] + [w2];
      MoreWrites(db, w1, [w2]);
      OneWrite(db1, w2);
    } else if k == 3 {
      assert ws[..3] == ws;
      MoreWrites(db, w1, [w2] + [w3]);
      MoreWrites(db1, w2, [w3]);
      OneWrite(Written(db1, w2), w3);
    }
  }

  /** Placing an order, only the state between the order insert and the first update cannot be loaded. */
  lemma {:induction false} PlaceLoadable(db: Db, a: Approval, x: OrderId, reply: Reply, i: IntentId, k: nat)
    requires Loadable(db) && x !in db.orders && k <= 3
    ensures |PlaceWrites(a, x, reply, i)| == 3
    ensures Loadable(AllWritten(db, PlaceWrites(a, x, reply, i)[..k])) <==> k != 1
  {
    var rec := NewRecord(a).(exchangeId := None);
    var w1, w2 := InsertOrder(x, rec), UpdateOrder(x, Answered(a, reply).(status := ReplyStatus(reply)));
    var w3 := UpdateIntent(i, ReplyIntentStatus(reply));
    assert PlaceWrites(a, x, reply, i) == [w1] + ([w2] + [w3]);
    PrefixOfThree(db, w1, w2, w3, k);
    var db1 := Written(db, w1);
    assert x in db1.orders && db1.orders[x] == rec;
    var db2 := Written(db1, w2);
    forall y | y in db2.orders && !db2.orders[y].status.IsTerminal() ensures db2.orders[y].exchangeId.Some? {
      assert y == x || db2.orders[y] == db.orders[y];
    }
  }

  lemma {:induction false} AfterFirst(db: Db, w: Write, ws: seq<Write>, k: nat)
    requires 0 < k <= |ws| + 1
    ensures AllWritten(db, ([w] + ws)[..k]) == AllWritten(Written(db, w), ws[..k - 1])
  {
    assert ([w] + ws)[..k] == [w] + ws[..k - 1];
    MoreWrites(db, w, ws[..k - 1]);
  }

  lemma {:induction false} SubmitLoadableAt(b: Books, a: Approval, limits: Limits, x: OrderId, reply: Reply, k: nat)
    requires Loadable(b.db) && x !in b.db.orders && ReachesVenue(b, a, limits)
    requires k <= |SubmitWrites(b, a, limits, x, reply)|
    ensures Loadable(AllWritten(b.db, SubmitWrites(b, a, limits, x, reply)[..k]))
            <==> k + 2 != |SubmitWrites(b, a, limits, x, reply)|
  {
    var i := IntentFor(b, a, limits).value;
    if i < |b.db.intents| {
      ReuseWrites(b, a, limits, x, reply);
      PlaceLoadable(b.db, a, x, reply, i, k);
    } else {
      var w := InsertIntent(NewIntentFromApproval(a.order, a.hmac));
      SubmitWritesListed(b, a, limits, x, reply);
      PlaceLoadable(Written(b.db, w), a, x, reply, i, if k == 0 then 0 else k - 1);
      if k > 0 {
        AfterFirst(b.db, w, PlaceWrites(a, x, reply, i), k);
      }
    }
  }

  lemma {:induction false} TurnedAwayLoads(b: Books, a: Approval, limits: Limits, x: OrderId, reply: Reply, k: nat)
    requires Loadable(b.db) && !ReachesVenue(b, a, limits) && k <= |SubmitWrites(b, a, limits, x, reply)|
    ensures Loadable(AllWritten(b.db, SubmitWrites(b, a, limits, x, reply)[..k]))
  {
    LoadablePrefix(b.db, SubmitWrites(b, a, limits, x, reply), k);
  }

  /**
   Main result: from every state that can be loaded, whatever crashes led to it, a restart after a death inside a step
   succeeds exactly unless the step is a submit that reaches the venue and two of its writes are missing: the order row
   is there and the venue's answer is not.
   */
  lemma {:induction false} CrashLoadsExactlyUnless(b: Books, s: Step, limits: Limits, k: nat)
    requires Loadable(b.db) && OpenAnswered(b) && (s.DoSubmit? ==> s.id !in b.db.orders)
    requires k <= |StepWrites(b, s, limits)|
    ensures Loadable(AllWritten(b.db, StepWrites(b, s, limits)[..k]))
            <==> !(s.DoSubmit? && ReachesVenue(b, s.a, limits) && k + 2 == |StepWrites(b, s, limits)|)
  {
    if !s.DoSubmit? {
      StepNoNull(b, s, limits);
      LoadablePrefix(b.db, StepWrites(b, s, limits), k);
    } else if ReachesVenue(b, s.a, limits) {
      SubmitLoadableAt(b, s.a, limits, s.id, s.reply, k);
    } else {
      TurnedAwayLoads(b, s.a, limits, s.id, s.reply, k);
    }
  }

  // ---------- retrying an interrupted submit ----------

  lemma {:induction false} LookupBeforeRow(rows: seq<OrderIntent>, row: OrderIntent, t: string)
    requires TracesUnique(rows + [row]) && HasTrace(rows, t)
    ensures HasTrace(rows + [row], t) && Lookup(rows + [row], t) == Lookup(rows, t)
  {
    var i := Lookup(rows, t).value;
    assert (rows + [row])[i] == rows[i];
    LookupIs(rows + [row], i);
  }

  lemma {:induction false} NewRowKeepsUnique(rows: seq<OrderIntent>, row: OrderIntent)
    requires TracesUnique(rows) && !HasTrace(rows, row.order.trace)
    ensures TracesUnique(rows + [row])
  {
  }

  lemma {:induction false} SameLookupsSameLoad(db: Db, db1: Db)
    requires db1.orders == db.orders
    requires forall x :: x in LoadedOrders(db) ==>
      Lookup(db1.intents, Column(db.orders[x].order.trace)) == Lookup(db.intents, Column(db.orders[x].order.trace))
    ensures LoadedIntents(db1) == LoadedIntents(db)
  {
    assert LoadedOrders(db1) == LoadedOrders(db);
    assert LoadedIntents(db1).Keys == LoadedIntents(db).Keys;
  }

  /** An intent without an order does not disturb what a restart loads. */
  lemma {:induction false} OrphanDoesNotDisturb(db: Db, row: OrderIntent)
    requires LedgerOk(db) && TableOk(db) && !HasTrace(db.intents, row.order.trace)
    ensures TracesUnique(db.intents + [row])
    ensures LoadedIntents(db.(intents := db.intents + [row])) == LoadedIntents(db)
  {
    var db1 := db.(intents := db.intents + [row]);
    NewRowKeepsUnique(db.intents, row);
    forall x | x in LoadedOrders(db)
      ensures Lookup(db1.intents, Column(db.orders[x].order.trace))
              == Lookup(db.intents, Column(db.orders[x].order.trace)) {
      UuidIsItsColumn(db.orders[x].order.trace);
      LookupBeforeRow(db.intents, row, db.orders[x].order.trace);
    }
    SameLookupsSameLoad(db, db1);
  }

  lemma {:induction false} RetryWrites(r: Books, a: Approval, limits: Limits, x: OrderId, reply: Reply,
      rows: seq<OrderIntent>)
    requires ReachesVenue(r, a, limits) && IntentFor(r, a, limits).value == |rows|
    requires r.db.intents == rows + [NewIntentFromApproval(a.order, a.hmac)]
    ensures AllWritten(r.db, SubmitWrites(r, a, limits, x, reply))
      == r.db.(intents := rows + [NewIntentFromApproval(a.order, a.hmac).(status := ReplyIntentStatus(reply))],
               orders := r.db.orders[x := Answered(a, reply).(status := ReplyStatus(reply))])
  {
    ReuseWrites(r, a, limits, x, reply);
    LastRowStatus(rows, NewIntentFromApproval(a.order, a.hmac), ReplyIntentStatus(reply));
  }

  /**
   A submit that died after its first write, the intent, can be retried after a restart:
   the retry ends exactly where an uninterrupted submit by the restarted engine would have.
   */
  lemma {:induction false} RetryCompletesSubmit(b: Books, a: Approval, limits: Limits, x: OrderId, reply: Reply)
    requires Agree(b) && x !in b.db.orders && !HasTrace(b.db.intents, a.order.trace)
    requires ReachesVenue(Restarted(b.db, 0).(reconciled := true), a, limits)
    ensures var whole := Restarted(b.db, 0).(reconciled := true);
      var crashed := AllWritten(b.db, SubmitWrites(whole, a, limits, x, reply)[..1]);
      Submit(Restarted(crashed, 0).(reconciled := true), a, limits, x, reply) == Submit(whole, a, limits, x, reply)
  {
    var whole, row := Restarted(b.db, 0).(reconciled := true), NewIntentFromApproval(a.order, a.hmac);
    SubmitWritesListed(whole, a, limits, x, reply);
    assert SubmitWrites(whole, a, limits, x, reply)[..1] == [InsertIntent(row)];
    OneWrite(b.db, InsertIntent(row));
    var db1 := b.db.(intents := b.db.intents + [row]);
    var r := Restarted(db1, 0).(reconciled := true);
    OrphanDoesNotDisturb(b.db, row);
    LookupIs(db1.intents, |b.db.intents|);
    assert HasTrace(db1.intents, a.order.trace);
    RetryWrites(r, a, limits, x, reply, b.db.intents);
    SubmitWritesNew(whole, a, limits, x, reply);
  }
}
