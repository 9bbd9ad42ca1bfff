/** The engine's operations, one by one and over whole runs. */
module EngineRuns {
  import opened Modes
  import opened Orders
  import opened Uuids
  import opened Intents
  import opened Exposure
  import opened IntentLedger
  import opened Sums
  import opened Books
  import opened BooksAgree
  import opened BooksSteps

  // ---------- unfolding short write lists ----------

  lemma {:induction false} OneWrite(db: Db, a: Write)
    ensures AllWritten(db, [a]) == Written(db, a)
  {
    assert [a][1..] == [];
  }

  lemma {:induction false} MoreWrites(db: Db, a: Write, rest: seq<Write>)
    ensures AllWritten(db, [a] + rest) == AllWritten(Written(db, a), rest)
  {
    assert ([a] + rest)[1..] == rest;
  }

  lemma {:induction false} WritesInTwo(db: Db, ws: seq<Write>, more: seq<Write>)
    ensures AllWritten(db, ws + more) == AllWritten(AllWritten(db, ws), more)
    decreases |ws|
  {
    if ws == [] {
      assert ws + more == more;
    } else {
      WritesInTwo(Written(db, ws[0]), ws[1..], more);
      assert (ws + more)[0] == ws[0] && (ws + more)[1..] == ws[1..] + more;
    }
  }

  // ---------- cancel ----------

  lemma {:induction false} CloseWrites(db: Db, x: OrderId, rec: OrderRecord, s: OrderStatus, i: IntentId,
      t: IntentStatus)
    requires ValidTransition(rec.status, s) && x in db.orders
    ensures AllWritten(db, TransitionWrites(x, rec, s) + [UpdateIntent(i, t)])
         == db.(orders := db.orders[x := WriteBack(db.orders[x], rec.(status := s))],
                intents := WithStatus(db.intents, i, t))
  {
    var w := UpdateOrder(x, rec.(status := s));
    assert TransitionWrites(x, rec, s) + [UpdateIntent(i, t)] == [w] + [UpdateIntent(i, t)];
    MoreWrites(db, w, [UpdateIntent(i, t)]);
    OneWrite(Written(db, w), UpdateIntent(i, t));
  }

  lemma {:induction false} StatusCloses(rows: seq<OrderIntent>, i: IntentId, t: IntentStatus)
    requires i < |rows| && rows[i].status.IsOutstanding() && t.IsTerminal()
    ensures IntentClosed(rows, i, WithStatus(rows, i, t))
  {
  }

  /** An open order's record, its row and its intent. */
  ghost predicate OpenAt(b: Books, x: OrderId)
  {
    && x in b.open && x in b.intentOf && x in b.db.orders && b.open[x].order == b.db.orders[x].order
    && (b.open[x].status == Open || b.open[x].status == PartiallyFilled)
    && b.open[x].exchangeId.Some? && LoadedRecord(b.open[x]) == LoadedRecord(b.db.orders[x])
    && b.intentOf[x] < |b.db.intents| && b.db.intents[b.intentOf[x]].status.IsOutstanding()
    && b.db.intents[b.intentOf[x]].order == b.open[x].order
  }

  lemma {:induction false} OpenFacts(b: Books, x: OrderId)
    requires Agree(b) && x in b.open
    ensures OpenAt(b, x)
  {
    assert x in b.intentOf.Keys;
    assert LoadedRecord(b.open[x]).order == b.open[x].order;
  }

  lemma {:induction false} CancelCloses(b: Books, x: OrderId)
    requires OpenAt(b, x)
    ensures Closed(b, x, b.intentOf[x], Cancel(b, x, true))
  {
    var i := b.intentOf[x];
    CloseWrites(b.db, x, b.open[x], Cancelled, i, ICancelled);
    StatusCloses(b.db.intents, i, ICancelled);
  }

  lemma {:induction false} CancelKeeps(b: Books, x: OrderId, venueCancels: bool)
    requires Agree(b)
    ensures Agree(Cancel(b, x, venueCancels))
  {
    if x in b.open && venueCancels {
      OpenFacts(b, x);
      CancelCloses(b, x);
      ClosedKeeps(b, x, b.intentOf[x], Cancel(b, x, true));
    }
  }

  lemma {:induction false} ListsRest(ks: seq<OrderId>, all: set<OrderId>)
    requires Lists(ks, all) && ks != []
    ensures Lists(ks[1..], all - {ks[0]})
  {
  }

  /** CancelAll, in whatever order the open orders are visited, closes them all. */
  lemma {:induction false} CancelAllKeeps(b: Books, ks: seq<OrderId>)
    requires Agree(b) && Lists(ks, b.open.Keys)
    ensures Agree(CancelEach(b, ks)) && CancelEach(b, ks).open.Keys == {}
    ensures CancelEach(b, ks).mode == b.mode && CancelEach(b, ks).reconciled == b.reconciled
    decreases |ks|
  {
    if ks == [] {
      assert b.open.Keys == {};
    } else {
      assert ks[0] in b.open.Keys;
      CancelKeeps(b, ks[0], true);
      ListsRest(ks, b.open.Keys);
      assert Cancel(b, ks[0], true).open.Keys == b.open.Keys - {ks[0]};
      CancelAllKeeps(Cancel(b, ks[0], true), ks[1..]);
    }
  }

  // ---------- fills ----------

  lemma {:induction false} FillCloses(b: Books, x: OrderId, f: VenueFill)
    requires OpenAt(b, x) && FillAccepted(f) && Completes(b.open[x], f)
    ensures Closed(b, x, b.intentOf[x], ProcessFill(b, f, Some(x)))
  {
    var i, rec := b.intentOf[x], FilledRecord(b.open[x], f);
    var first := InsertFill(FillRow(x, f.quantity, f.price));
    var rest := TransitionWrites(x, rec, Filled) + [UpdateIntent(i, IFilled)];
    assert FillWrites(b, x, f) == [first] + rest;
    MoreWrites(b.db, first, rest);
    CloseWrites(Written(b.db, first), x, rec, Filled, i, IFilled);
    StatusCloses(b.db.intents, i, IFilled);
  }

  lemma {:induction false} FillTouches(b: Books, x: OrderId, f: VenueFill)
    requires OpenAt(b, x) && FillAccepted(f) && !Completes(b.open[x], f)
    ensures Touched(b, x, ProcessFill(b, f, Some(x)))
  {
    var rec := FilledRecord(b.open[x], f);
    var first, w := InsertFill(FillRow(x, f.quantity, f.price)), UpdateOrder(x, rec.(status := PartiallyFilled));
    assert FillWrites(b, x, f) == [first] + [w];
    MoreWrites(b.db, first, [w]);
    OneWrite(Written(b.db, first), w);
  }

  lemma {:induction false} FillKeeps(b: Books, f: VenueFill, hit: Option<OrderId>)
    requires Agree(b) && Matches(b, f, hit)
    ensures Agree(ProcessFill(b, f, hit))
  {
    if hit.Some? && FillAccepted(f) {
      OpenFacts(b, hit.value);
      if Completes(b.open[hit.value], f) {
        FillCloses(b, hit.value, f);
        ClosedKeeps(b, hit.value, b.intentOf[hit.value], ProcessFill(b, f, hit));
      } else {
        FillTouches(b, hit.value, f);
        TouchedKeeps(b, hit.value, ProcessFill(b, f, hit));
      }
    }
  }

  // ---------- submit ----------

  /** The caller's part: the trace is a UUID, and a trace already in the ledger comes with a key already used. */
  ghost predicate SubmitSafe(b: Books, a: Approval)
  {
    IsUuid(a.order.trace) && (HasTrace(b.db.intents, a.order.trace) ==> KeyTaken(b.db.orders, a.order))
  }

  /** The gates open and the ledger has a row for the order. */
  ghost predicate Enters(b: Books, a: Approval, limits: Limits)
  {
    GatesPass(b, a) && IntentFor(b, a, limits).Some?
  }

  ghost predicate TraceHasRow(db: Db, t: string)
  {
    exists x :: x in db.orders && db.orders[x].order.trace == t
  }

  /** A trace the column takes has no colon, so equal keys have equal traces; a trace without a row is accepted. */
  lemma {:induction false} NoRowNoKey(db: Db, o: ProposedOrder)
    requires forall x :: x in db.orders ==> IsUuid(db.orders[x].order.trace)
    requires ColumnTakes(o.trace) && !TraceHasRow(db, o.trace)
    ensures InsertAccepted(db.orders, o)
  {
    TakenHasNoColon(o.trace);
    forall x | x in db.orders ensures FullKey(db.orders[x].order) != FullKey(o) {
      if FullKey(db.orders[x].order) == FullKey(o) {
        var p := db.orders[x].order;
        UuidIsItsColumn(p.trace);
        TakenHasNoColon(p.trace);
        FirstColonSplits(p.trace, IdempotencyKey(p), o.trace, IdempotencyKey(o));
      }
    }
  }

  lemma {:induction false} NewTraceNewKey(b: Books, o: ProposedOrder)
    requires TableOk(b.db) && ColumnTakes(o.trace) && !HasTrace(b.db.intents, o.trace)
    ensures InsertAccepted(b.db.orders, o)
  {
    NoRowNoKey(b.db, o);
  }

  lemma {:induction false} SubmitWritesListed(b: Books, a: Approval, limits: Limits, x: OrderId, reply: Reply)
    requires ReachesVenue(b, a, limits) && IntentFor(b, a, limits).value == |b.db.intents|
    ensures SubmitWrites(b, a, limits, x, reply)
         == [InsertIntent(NewIntentFromApproval(a.order, a.hmac))] + PlaceWrites(a, x, reply, |b.db.intents|)
  {
  }

  /** The tables after placing: a row with the answer, and the intent's new status. */
  lemma {:induction false} PlaceTables(db: Db, a: Approval, x: OrderId, reply: Reply, i: IntentId)
    ensures AllWritten(db, PlaceWrites(a, x, reply, i))
         == db.(orders := db.orders[x := Answered(a, reply).(status := ReplyStatus(reply))],
                intents := WithStatus(db.intents, i, ReplyIntentStatus(reply)))
  {
    var w := InsertOrder(x, NewRecord(a).(exchangeId := None));
    var db1, rec, s := Written(db, w), Answered(a, reply), ReplyStatus(reply);
    MoreWrites(db, w, TransitionWrites(x, rec, s) + [UpdateIntent(i, ReplyIntentStatus(reply))]);
    CloseWrites(db1, x, rec, s, i, ReplyIntentStatus(reply));
    assert db1.orders[x := rec.(status := s)] == db.orders[x := rec.(status := s)];
  }

  lemma {:induction false} LastRowStatus(rows: seq<OrderIntent>, row: OrderIntent, s: IntentStatus)
    requires !row.status.IsTerminal()
    ensures WithStatus(rows + [row], |rows|, s) == rows + [row.(status := s)]
  {
  }

  lemma {:induction false} SubmitTablesNew(db: Db, a: Approval, x: OrderId, reply: Reply)
    ensures AllWritten(db, [InsertIntent(NewIntentFromApproval(a.order, a.hmac))]
                           + PlaceWrites(a, x, reply, |db.intents|))
      == db.(intents := db.intents + [NewIntentFromApproval(a.order, a.hmac).(status := ReplyIntentStatus(reply))],
             orders := db.orders[x := Answered(a, reply).(status := ReplyStatus(reply))])
  {
    var n, row := |db.intents|, NewIntentFromApproval(a.order, a.hmac);
    MoreWrites(db, InsertIntent(row), PlaceWrites(a, x, reply, n));
    PlaceTables(Written(db, InsertIntent(row)), a, x, reply, n);
    LastRowStatus(db.intents, row, ReplyIntentStatus(reply));
  }

  lemma {:induction false} SubmitWritesNew(b: Books, a: Approval, limits: Limits, x: OrderId, reply: Reply)
    requires ReachesVenue(b, a, limits) && IntentFor(b, a, limits).value == |b.db.intents|
    ensures AllWritten(b.db, SubmitWrites(b, a, limits, x, reply))
      == b.db.(intents := b.db.intents + [NewIntentFromApproval(a.order, a.hmac).(status := ReplyIntentStatus(reply))],
               orders := b.db.orders[x := Answered(a, reply).(status := ReplyStatus(reply))])
  {
    SubmitWritesListed(b, a, limits, x, reply);
    SubmitTablesNew(b.db, a, x, reply);
  }

  lemma {:induction false} SubmitAdds(b: Books, a: Approval, limits: Limits, x: OrderId, reply: Reply)
    requires x !in b.open && x !in b.db.orders
    requires ReachesVenue(b, a, limits) && !HasTrace(b.db.intents, a.order.trace)
    ensures Added(b, x, Submit(b, a, limits, x, reply)) && NewRow(Submit(b, a, limits, x, reply)).order == a.order
  {
    SubmitWritesNew(b, a, limits, x, reply);
  }

  lemma {:induction false} SubmitKeeps(b: Books, a: Approval, limits: Limits, x: OrderId, reply: Reply)
    requires Agree(b) && x !in b.db.orders
    requires Enters(b, a, limits) ==> SubmitSafe(b, a)
    ensures Agree(Submit(b, a, limits, x, reply))
  {
    if Enters(b, a, limits) && !HasTrace(b.db.intents, a.order.trace) {
      UuidIsItsColumn(a.order.trace);
      NewTraceNewKey(b, a.order);
      SubmitAdds(b, a, limits, x, reply);
      AddedKeeps(b, x, Submit(b, a, limits, x, reply));
    } else {
      assert Submit(b, a, limits, x, reply) == b;
    }
  }

  /** A safe submit that does not get to the venue writes nothing. */
  lemma {:induction false} SubmitStopsEarly(b: Books, a: Approval, limits: Limits, x: OrderId, reply: Reply)
    requires TableOk(b.db) && SubmitSafe(b, a) && !ReachesVenue(b, a, limits)
    ensures SubmitWrites(b, a, limits, x, reply) == [] && Submit(b, a, limits, x, reply) == b
  {
    if Enters(b, a, limits) && !HasTrace(b.db.intents, a.order.trace) {
      UuidIsItsColumn(a.order.trace);
      NewTraceNewKey(b, a.order);
    }
  }

  // ---------- exactly when a submit keeps the books in agreement ----------

  ghost predicate Bijective(b: Books)
  {
    b.open.Keys == b.intentOf.Keys && OneToOne(b) && Linked(b) && Onto(b)
  }

  lemma {:induction false} LedgerTracesAreUuids(b: Books, t: string)
    requires TableOk(b.db) && LedgerCovered(b.db) && HasTrace(b.db.intents, t)
    ensures IsUuid(t)
  {
    var i :| 0 <= i < |b.db.intents| && b.db.intents[i].order.trace == t;
    assert HasOrder(b.db, b.db.intents[i].order);
    var x :| x in b.db.orders && b.db.orders[x].order == b.db.intents[i].order;
  }

  /** A trace the column refuses leaves a pending intent that no order owns. */
  lemma {:induction false} BadTraceLeaks(b: Books, a: Approval, limits: Limits, x: OrderId, reply: Reply)
    requires Agree(b) && Enters(b, a, limits) && !ColumnTakes(a.order.trace)
    ensures !Onto(Submit(b, a, limits, x, reply))
  {
    var n, row := |b.db.intents|, NewIntentFromApproval(a.order, a.hmac);
    if HasTrace(b.db.intents, a.order.trace) {
      LedgerTracesAreUuids(b, a.order.trace);
      UuidIsItsColumn(a.order.trace);
      assert false;
    }
    assert SubmitWrites(b, a, limits, x, reply) == [InsertIntent(row)];
    OneWrite(b.db, InsertIntent(row));
    var b' := Submit(b, a, limits, x, reply);
    assert b'.intentOf == b.intentOf && b'.db.intents[n] == row;
    forall y ensures !Owns(b', y, n) {
      assert y in b.intentOf.Keys ==> y in b.open.Keys;
    }
  }

  lemma {:induction false} ReuseWrites(b: Books, a: Approval, limits: Limits, x: OrderId, reply: Reply)
    requires ReachesVenue(b, a, limits) && IntentFor(b, a, limits).value < |b.db.intents|
    ensures SubmitWrites(b, a, limits, x, reply) == PlaceWrites(a, x, reply, IntentFor(b, a, limits).value)
    ensures AllWritten(b.db, SubmitWrites(b, a, limits, x, reply))
         == b.db.(orders := b.db.orders[x := Answered(a, reply).(status := ReplyStatus(reply))],
                  intents := WithStatus(b.db.intents, IntentFor(b, a, limits).value, ReplyIntentStatus(reply)))
  {
    var ws := PlaceWrites(a, x, reply, IntentFor(b, a, limits).value);
    assert [] + ws == ws;
    PlaceTables(b.db, a, x, reply, IntentFor(b, a, limits).value);
  }

  lemma {:induction false} AcceptedMemory(b: Books, a: Approval, limits: Limits, x: OrderId, e: ExchangeId)
    requires ReachesVenue(b, a, limits) && IntentFor(b, a, limits).value < |b.db.intents|
    ensures var b', i := Submit(b, a, limits, x, VenueAccepted(e)), IntentFor(b, a, limits).value;
      x in b'.open && b'.intentOf == b.intentOf[x := i] && b'.db.intents == WithStatus(b.db.intents, i, IOpen)
  {
    ReuseWrites(b, a, limits, x, VenueAccepted(e));
  }

  lemma {:induction false} SharedIntentBreaks(b: Books, x: OrderId, i: IntentId, b': Books)
    requires MemoryOk(b) && Onto(b) && x !in b.db.orders && i < |b.db.intents|
    requires b'.intentOf == b.intentOf[x := i] && b.db.intents[i].status.IsOutstanding()
    ensures !OneToOne(b')
  {
    var y :| Owns(b, y, i);
    assert y in b.open.Keys;
    assert x != y && b'.intentOf[y] == i == b'.intentOf[x];
  }

  /** A trace reused under a new key opens a second order on the same intent, or on a closed one. */
  lemma {:induction false} ReuseBreaks(b: Books, a: Approval, limits: Limits, x: OrderId, e: ExchangeId)
    requires MemoryOk(b) && Onto(b) && x !in b.db.orders && Enters(b, a, limits) && ColumnTakes(a.order.trace)
    requires HasTrace(b.db.intents, a.order.trace) && !KeyTaken(b.db.orders, a.order)
    ensures !Bijective(Submit(b, a, limits, x, VenueAccepted(e)))
  {
    var i, b' := IntentFor(b, a, limits).value, Submit(b, a, limits, x, VenueAccepted(e));
    AcceptedMemory(b, a, limits, x, e);
    if b.db.intents[i].status.IsOutstanding() {
      SharedIntentBreaks(b, x, i, b');
    } else {
      assert b'.intentOf[x] == i && !b'.db.intents[i].status.IsOutstanding();
      assert !Linked(b');
    }
  }

  /** A new trace in any spelling the column takes gets an intent and an order of its own. */
  lemma {:induction false} NewTraceKeepsBijection(b: Books, a: Approval, limits: Limits, x: OrderId, reply: Reply)
    requires Agree(b) && x !in b.db.orders
    requires ReachesVenue(b, a, limits) && !HasTrace(b.db.intents, a.order.trace)
    ensures Bijective(Submit(b, a, limits, x, reply))
  {
    var b' := Submit(b, a, limits, x, reply);
    SubmitAdds(b, a, limits, x, reply);
    AddedKeepsMemory(b, x, b');
    AddedKeepsLinked(b, x, b');
    AddedKeepsOnto(b, x, b');
    Bijection(b);
    AddedOneToOne(b, x, b');
  }

  lemma {:induction false} AddedOneToOne(b: Books, x: OrderId, b': Books)
    requires OneToOne(b) && Linked(b) && b.open.Keys == b.intentOf.Keys && Added(b, x, b')
    ensures OneToOne(b')
  {
    forall y | y in b.intentOf ensures b.intentOf[y] < |b.db.intents| {
      assert y in b.open.Keys;
    }
  }

  /**
   What the bijection in memory takes of a submit: a trace the column takes, that is new or comes with its old key.
   */
  ghost predicate MemorySafe(b: Books, a: Approval)
  {
    ColumnTakes(a.order.trace) && (HasTrace(b.db.intents, a.order.trace) ==> KeyTaken(b.db.orders, a.order))
  }

  lemma {:induction false} MemorySafeKeeps(b: Books, a: Approval, limits: Limits, x: OrderId, reply: Reply)
    requires Agree(b) && x !in b.db.orders && (Enters(b, a, limits) ==> MemorySafe(b, a))
    ensures Bijective(Submit(b, a, limits, x, reply))
  {
    if Enters(b, a, limits) && !HasTrace(b.db.intents, a.order.trace) {
      NewTraceNewKey(b, a.order);
      NewTraceKeepsBijection(b, a, limits, x, reply);
    } else {
      assert Submit(b, a, limits, x, reply) == b;
      Bijection(b);
    }
  }

  /**
   Main result: whatever the venue answers, a submit keeps the bijection exactly when it is turned
   away at the gates or the ledger, or its trace is one the column takes that is new or comes with its old key.
   */
  lemma {:induction false} SubmitKeepsExactlyWhen(b: Books, a: Approval, limits: Limits, x: OrderId)
    requires Agree(b) && x !in b.db.orders
    ensures (forall reply: Reply :: Bijective(Submit(b, a, limits, x, reply)))
            <==> (Enters(b, a, limits) ==> MemorySafe(b, a))
  {
    if Enters(b, a, limits) ==> MemorySafe(b, a) {
      forall reply: Reply ensures Bijective(Submit(b, a, limits, x, reply)) {
        MemorySafeKeeps(b, a, limits, x, reply);
      }
    } else if !ColumnTakes(a.order.trace) {
      BadTraceLeaks(b, a, limits, x, VenueError);
      assert !Bijective(Submit(b, a, limits, x, VenueError));
    } else {
      ReuseBreaks(b, a, limits, x, 1);
      assert !Bijective(Submit(b, a, limits, x, VenueAccepted(1)));
    }
  }

  predicate Submittable(a: Approval)
  {
    a.authentic && a.decision == Approved && WellFormed(a.order) && a.hmac != [] && IsUuid(a.order.trace)
  }

  lemma {:induction false} ReconciledFreshAgrees()
    ensures Agree(FRESH.(reconciled := true))
  {
  }

  lemma {:induction false} FirstOfTwo(a: Approval, limits: Limits)
    requires Submittable(a) && limits.maxPosition <= 0 && limits.maxTotal <= 0
    ensures var b1 := Submit(FRESH.(reconciled := true), a, limits, 1, VenueAccepted(1));
      && Agree(b1) && b1.reconciled && b1.mode == Normal
      && b1.db.orders.Keys == {1} && b1.db.orders[1].order == a.order
      && |b1.db.intents| == 1 && b1.db.intents[0].order == a.order
  {
    var b0 := FRESH.(reconciled := true);
    ReconciledFreshAgrees();
    UuidIsItsColumn(a.order.trace);
    NewTraceNewKey(b0, a.order);
    SubmitKeeps(b0, a, limits, 1, VenueAccepted(1));
    SubmitWritesNew(b0, a, limits, 1, VenueAccepted(1));
  }

  lemma {:induction false} SecondOfTwo(b1: Books, a1: Approval, a2: Approval, limits: Limits)
    requires MemoryOk(b1) && Onto(b1) && b1.reconciled && b1.mode == Normal && Submittable(a2)
    requires b1.db.orders.Keys == {1} && b1.db.orders[1].order == a1.order
    requires |b1.db.intents| == 1 && b1.db.intents[0].order == a1.order
    requires a1.order.trace == a2.order.trace && FullKey(a1.order) != FullKey(a2.order)
    ensures !Bijective(Submit(b1, a2, limits, 2, VenueAccepted(2)))
  {
    assert b1.db.intents[0].order.trace == a2.order.trace;
    UuidIsItsColumn(a2.order.trace);
    ReuseBreaks(b1, a2, limits, 2, 2);
  }

  /** Two submits of one trace under two keys: the second order opens without an intent of its own. */
  lemma {:induction false} ReusedTraceBreaks(a1: Approval, a2: Approval, limits: Limits)
    requires Submittable(a1) && Submittable(a2) && limits.maxPosition <= 0 && limits.maxTotal <= 0
    requires a1.order.trace == a2.order.trace && FullKey(a1.order) != FullKey(a2.order)
    ensures var b1 := Submit(FRESH.(reconciled := true), a1, limits, 1, VenueAccepted(1));
      Bijective(b1) && !Bijective(Submit(b1, a2, limits, 2, VenueAccepted(2)))
  {
    var b1 := Submit(FRESH.(reconciled := true), a1, limits, 1, VenueAccepted(1));
    FirstOfTwo(a1, limits);
    Bijection(b1);
    SecondOfTwo(b1, a1, a2, limits);
  }

  function SampleOrder(price: int): ProposedOrder
  {
    ProposedOrder(seq(36, i => if i in {8, 13, 18, 23} then '-' else '0'), "s", "mock", "m", Buy, 1, price, price, 0)
  }

  /** Such a pair exists: one trace proposed at two prices. */
  lemma {:induction false} ReusedTraceExample() returns (a1: Approval, a2: Approval)
    ensures Submittable(a1) && Submittable(a2)
    ensures a1.order.trace == a2.order.trace && FullKey(a1.order) != FullKey(a2.order)
  {
    a1 := Approval(SampleOrder(1), Approved, [1], "p", 0, true);
    a2 := Approval(SampleOrder(2), Approved, [1], "p", 0, true);
    var k1, k2 := FullKey(a1.order), FullKey(a2.order);
    assert Decimal(1) == "1" && Decimal(2) == "2";
    assert k1[|k1| - 1] == '1' && k2[|k2| - 1] == '2';
  }

  // ---------- restart ----------

  lemma {:induction false} ReadBackIs(row: OrderRecord)
    requires IsUuid(row.order.trace)
    ensures ReadBack(row) == LoadedRecord(row)
  {
    UuidIsItsColumn(row.order.trace);
  }

  lemma {:induction false} LoadedOrdersAre(b: Books)
    requires MemoryOk(b) && TableOk(b.db)
    ensures Loadable(b.db)
    ensures LoadedOrders(b.db).Keys == b.open.Keys
    ensures forall x :: x in b.open ==> LoadedOrders(b.db)[x] == LoadedRecord(b.open[x])
  {
    forall x | x in b.open
      ensures !b.db.orders[x].status.IsTerminal() && b.db.orders[x].exchangeId.Some?
      ensures ReadBack(b.db.orders[x]) == LoadedRecord(b.open[x]) {
      assert LoadedRecord(b.open[x]).status == b.db.orders[x].status;
      assert LoadedRecord(b.open[x]).exchangeId == b.db.orders[x].exchangeId;
      ReadBackIs(b.db.orders[x]);
    }
  }

  lemma {:induction false} LoadedIntentIs(b: Books, x: OrderId)
    requires TracesUnique(b.db.intents) && OpenAt(b, x) && IsUuid(b.db.orders[x].order.trace)
    ensures HasTrace(b.db.intents, Column(b.db.orders[x].order.trace))
    ensures Lookup(b.db.intents, Column(b.db.orders[x].order.trace)) == Some(b.intentOf[x])
  {
    UuidIsItsColumn(b.db.orders[x].order.trace);
    LookupIs(b.db.intents, b.intentOf[x]);
  }

  lemma {:induction false} LoadedIntentAt(db: Db, x: OrderId)
    requires x in LoadedOrders(db)
    ensures var found := Lookup(db.intents, LoadedOrders(db)[x].order.trace);
      && found == Lookup(db.intents, Column(db.orders[x].order.trace))
      && (x in LoadedIntents(db) <==> found.Some?) && (found.Some? ==> LoadedIntents(db)[x] == found.value)
  {
  }

  lemma {:induction false} OnlyLoadedHaveIntents(db: Db, x: OrderId)
    requires x in LoadedIntents(db)
    ensures x in LoadedOrders(db).Keys
  {
  }

  /** A map that agrees with the lookups is what is loaded. */
  lemma {:induction false} LoadedIntentsAre(db: Db, intentOf: map<OrderId, IntentId>)
    requires LoadedOrders(db).Keys == intentOf.Keys
    requires forall x :: x in intentOf ==> Lookup(db.intents, Column(db.orders[x].order.trace)) == Some(intentOf[x])
    ensures LoadedIntents(db) == intentOf
  {
    var loaded := LoadedIntents(db);
    forall x | x in intentOf ensures x in loaded && loaded[x] == intentOf[x] {
      assert x in LoadedOrders(db).Keys;
      LoadedIntentAt(db, x);
    }
    forall x | x in loaded ensures x in intentOf {
      OnlyLoadedHaveIntents(db, x);
    }
    SameMaps(loaded, intentOf);
  }

  lemma {:induction false} SameMaps(m: map<OrderId, IntentId>, n: map<OrderId, IntentId>)
    requires (forall x :: x in n ==> x in m && m[x] == n[x]) && (forall x :: x in m ==> x in n)
    ensures m == n
  {
  }

  /** LoadOpenOrders on the database of an agreeing engine rebuilds its memory, average price aside. */
  lemma {:induction false} RestartRebuilds(b: Books)
    requires Agree(b)
    ensures Loadable(b.db)
    ensures LoadedOrders(b.db).Keys == b.open.Keys
    ensures forall x :: x in b.open ==> LoadedOrders(b.db)[x] == LoadedRecord(b.open[x])
    ensures LoadedIntents(b.db) == b.intentOf
  {
    LoadedOrdersAre(b);
    forall x | x in b.intentOf ensures Lookup(b.db.intents, Column(b.db.orders[x].order.trace)) == Some(b.intentOf[x]) {
      assert x in b.open.Keys;
      OpenFacts(b, x);
      LoadedIntentIs(b, x);
    }
    LoadedIntentsAre(b.db, b.intentOf);
  }

  /** Main result: a restart gives back the whole memory if and only if no open order had an average fill price. */
  lemma {:induction false} AverageKeptExactlyWhen(b: Books)
    requires Agree(b)
    ensures LoadedOrders(b.db) == b.open <==> forall x :: x in b.open ==> b.open[x].avgFillPrice == 0
  {
    RestartRebuilds(b);
    LoadedSameExactlyWhen(b.open, LoadedOrders(b.db));
  }

  lemma {:induction false} LoadedSameExactlyWhen(open: map<OrderId, OrderRecord>, loaded: map<OrderId, OrderRecord>)
    requires loaded.Keys == open.Keys && forall x :: x in open ==> loaded[x] == LoadedRecord(open[x])
    ensures loaded == open <==> forall x :: x in open ==> open[x].avgFillPrice == 0
  {
    if forall x :: x in open ==> open[x].avgFillPrice == 0 {
      assert loaded == open;
    }
  }

  lemma {:induction false} CancelledRowIs(b: Books, x: OrderId)
    requires OpenAt(b, x)
    ensures x in Cancel(b, x, true).db.orders
    ensures Cancel(b, x, true).db.orders[x] == WriteBack(b.db.orders[x], b.open[x].(status := Cancelled))
  {
    CloseWrites(b.db, x, b.open[x], Cancelled, b.intentOf[x], ICancelled);
  }

  /**
   The next update after a restart writes 0 over the row's average: its own, if and only if there was none to lose.
   */
  lemma {:induction false} RestartErasesAverage(b: Books, x: OrderId)
    requires Agree(b) && x in b.open
    ensures var r := Restarted(b.db, b.illegal);
      x in r.open && x in Cancel(b, x, true).db.orders && x in Cancel(r, x, true).db.orders
      && Cancel(r, x, true).db.orders[x].avgFillPrice == 0
      && (Cancel(r, x, true).db.orders[x] == Cancel(b, x, true).db.orders[x] <==> b.open[x].avgFillPrice == 0)
  {
    var r := Restarted(b.db, b.illegal);
    RestartRebuilds(b);
    RestartKeeps(b);
    assert r.open[x] == LoadedRecord(b.open[x]);
    OpenFacts(b, x);
    OpenFacts(r, x);
    CancelledRowIs(b, x);
    CancelledRowIs(r, x);
  }

  lemma {:induction false} PartialFillMemory(b: Books, x: OrderId, f: VenueFill)
    requires x in b.open && FillAccepted(f) && !Completes(b.open[x], f)
    ensures var b' := ProcessFill(b, f, Some(x)); x in b'.open && b'.open[x].avgFillPrice == f.price > 0
  {
  }

  /** Such a state is one partial fill away from any open order. */
  lemma {:induction false} PartialFillSetsAverage(b: Books, x: OrderId, f: VenueFill)
    requires Agree(b) && x in b.open && Matches(b, f, Some(x)) && FillAccepted(f) && !Completes(b.open[x], f)
    ensures var b' := ProcessFill(b, f, Some(x));
      Agree(b') && x in b'.open && b'.open[x].avgFillPrice == f.price > 0 && LoadedOrders(b'.db) != b'.open
  {
    var b' := ProcessFill(b, f, Some(x));
    PartialFillMemory(b, x, f);
    FillKeeps(b, f, Some(x));
    AverageKeptExactlyWhen(b');
  }

  lemma {:induction false} LoadedMemoryOk(b: Books, r: Books)
    requires MemoryOk(b) && Linked(b) && Onto(b) && r.db == b.db && r.intentOf == b.intentOf
            && r.open.Keys == b.open.Keys
    requires forall x :: x in b.open ==> r.open[x] == LoadedRecord(b.open[x])
    ensures MemoryOk(r) && Linked(r) && Onto(r)
  {
    forall x | x in r.open
      ensures LoadedRecord(r.open[x]) == LoadedRecord(b.open[x]) && r.open[x].order == b.open[x].order {
    }
    forall i | 0 <= i < |b.db.intents| && b.db.intents[i].status.IsOutstanding() ensures exists x :: Owns(r, x, i) {
      var x :| Owns(b, x, i);
      assert Owns(r, x, i);
    }
  }

  lemma {:induction false} RestartKeeps(b: Books)
    requires Agree(b)
    ensures Agree(Restarted(b.db, b.illegal))
  {
    RestartRebuilds(b);
    LoadedMemoryOk(b, Restarted(b.db, b.illegal));
  }

  /** A new trace in another spelling is not found again by a restart, so its intent is left without an order. */
  lemma {:induction false} OtherSpellingLost(b: Books, a: Approval, limits: Limits, x: OrderId, e: ExchangeId)
    requires Agree(b) && x !in b.db.orders && ReachesVenue(b, a, limits)
    requires !HasTrace(b.db.intents, a.order.trace) && !IsUuid(a.order.trace)
    ensures !Onto(Restarted(Submit(b, a, limits, x, VenueAccepted(e)).db, 0))
  {
    SubmitWritesNew(b, a, limits, x, VenueAccepted(e));
    TakenTraces(b.db);
    SpellingNotOwned(Submit(b, a, limits, x, VenueAccepted(e)).db, |b.db.intents|);
  }

  lemma {:induction false} TakenTraces(db: Db)
    requires TableOk(db)
    ensures forall y :: y in db.orders ==> ColumnTakes(db.orders[y].order.trace)
  {
    forall y | y in db.orders ensures ColumnTakes(db.orders[y].order.trace) {
      UuidIsItsColumn(db.orders[y].order.trace);
    }
  }

  lemma {:induction false} SpellingNotOwned(db: Db, n: IntentId)
    requires forall y :: y in db.orders ==> ColumnTakes(db.orders[y].order.trace)
    requires n < |db.intents| && !IsUuid(db.intents[n].order.trace) && db.intents[n].status.IsOutstanding()
    ensures !Onto(Restarted(db, 0))
  {
    forall y ensures !Owns(Restarted(db, 0), y, n) {
      if y in LoadedIntents(db) {
        SpellingFound(db, y);
      }
    }
  }

  lemma {:induction false} SpellingFound(db: Db, y: OrderId)
    requires y in LoadedIntents(db) && y in db.orders && ColumnTakes(db.orders[y].order.trace)
    ensures LoadedIntents(db)[y] < |db.intents| && IsUuid(db.intents[LoadedIntents(db)[y]].order.trace)
  {
    ColumnIsUuid(db.orders[y].order.trace);
  }

  /**
   Main result: whatever the venue answers, a submit keeps the bijection in memory and over a restart exactly when it
   is turned away at the gates or the ledger, or its trace is a canonical UUID that is new or comes with its old key.
   */
  lemma {:induction false} SubmitSurvivesRestartExactlyWhen(b: Books, a: Approval, limits: Limits, x: OrderId)
    requires Agree(b) && x !in b.db.orders
    ensures (forall reply: Reply ::
               var b' := Submit(b, a, limits, x, reply); Bijective(b') && Bijective(Restarted(b'.db, 0)))
            <==> (Enters(b, a, limits) ==> SubmitSafe(b, a))
  {
    if Enters(b, a, limits) ==> SubmitSafe(b, a) {
      forall reply: Reply
        ensures var b' := Submit(b, a, limits, x, reply); Bijective(b') && Bijective(Restarted(b'.db, 0)) {
        SafeSurvives(b, a, limits, x, reply);
      }
    } else {
      UnsafeBreaks(b, a, limits, x);
    }
  }

  lemma {:induction false} SafeSurvives(b: Books, a: Approval, limits: Limits, x: OrderId, reply: Reply)
    requires Agree(b) && x !in b.db.orders && (Enters(b, a, limits) ==> SubmitSafe(b, a))
    ensures var b' := Submit(b, a, limits, x, reply); Bijective(b') && Bijective(Restarted(b'.db, 0))
  {
    var b' := Submit(b, a, limits, x, reply);
    SubmitKeeps(b, a, limits, x, reply);
    Bijection(b');
    RestartKeeps(b');
    Bijection(Restarted(b'.db, 0));
  }

  lemma {:induction false} UnsafeBreaks(b: Books, a: Approval, limits: Limits, x: OrderId)
    requires Agree(b) && x !in b.db.orders && Enters(b, a, limits) && !SubmitSafe(b, a)
    ensures exists reply: Reply ::
      var b' := Submit(b, a, limits, x, reply); !(Bijective(b') && Bijective(Restarted(b'.db, 0)))
  {
    if MemorySafe(b, a) {
      if HasTrace(b.db.intents, a.order.trace) {
        LedgerTracesAreUuids(b, a.order.trace);
        assert false;
      }
      NewTraceNewKey(b, a.order);
      OtherSpellingLost(b, a, limits, x, 1);
      assert !Bijective(Restarted(Submit(b, a, limits, x, VenueAccepted(1)).db, 0));
    } else {
      SubmitKeepsExactlyWhen(b, a, limits, x);
    }
  }

  // ---------- runs ----------

  datatype Step =
    | DoSubmit(a: Approval, id: OrderId, reply: Reply)
    | DoCancel(target: OrderId, venueCancels: bool)
    | DoCancelAll(visited: seq<OrderId>)
    | DoFill(f: VenueFill, hit: Option<OrderId>)
    | DoSetMode(mode: Mode)
    | DoSetReconciled(value: bool)
    | DoRestart

  /**
   What the environment provides: fresh order ids, a match for each fill, a visiting order for cancel-all,
   and callers for whom a trace is a UUID naming one proposal, keyOf(trace) being that proposal's key.
   */
  ghost predicate StepOk(b: Books, s: Step, keyOf: string -> string)
  {
    match s
    case DoSubmit(a, id, _) =>
      id !in b.db.orders && IsUuid(a.order.trace) && IdempotencyKey(a.order) == keyOf(a.order.trace)
    case DoCancelAll(ks) => Lists(ks, b.open.Keys)
    case DoFill(f, hit) => Matches(b, f, hit)
    case _ => true
  }

  ghost function EngineNext(b: Books, s: Step, limits: Limits): Books
  {
    match s
    case DoSubmit(a, id, reply) => Submit(b, a, limits, id, reply)
    case DoCancel(x, ok) => Cancel(b, x, ok)
    case DoCancelAll(ks) => CancelEach(b, ks)
    case DoFill(f, hit) => ProcessFill(b, f, hit)
    case DoSetMode(m) => b.(mode := m)
    case DoSetReconciled(v) => b.(reconciled := v)
    case DoRestart => Restarted(b.db, b.illegal)
  }

  ghost predicate EngineRunOk(b: Books, steps: seq<Step>, keyOf: string -> string, limits: Limits)
    decreases |steps|
  {
    steps == [] || (StepOk(b, steps[0], keyOf)
      && EngineRunOk(EngineNext(b, steps[0], limits), steps[1..], keyOf, limits))
  }

  ghost function EngineAfter(b: Books, steps: seq<Step>, limits: Limits): Books
    decreases |steps|
  {
    if steps == [] then b else EngineAfter(EngineNext(b, steps[0], limits), steps[1..], limits)
  }

  /** Every row in the table carries its trace's one key. */
  ghost predicate KeysPlanned(db: Db, keyOf: string -> string)
  {
    forall x :: x in db.orders ==> IdempotencyKey(db.orders[x].order) == keyOf(db.orders[x].order.trace)
  }

  lemma {:induction false} PlannedIsSafe(b: Books, a: Approval, keyOf: string -> string)
    requires LedgerCovered(b.db) && KeysPlanned(b.db, keyOf)
    requires IsUuid(a.order.trace) && IdempotencyKey(a.order) == keyOf(a.order.trace)
    ensures SubmitSafe(b, a)
  {
    if HasTrace(b.db.intents, a.order.trace) {
      var i :| 0 <= i < |b.db.intents| && b.db.intents[i].order.trace == a.order.trace;
      assert HasOrder(b.db, b.db.intents[i].order);
      var x :| x in b.db.orders && b.db.orders[x].order == b.db.intents[i].order;
      assert FullKey(b.db.orders[x].order) == FullKey(a.order);
    }
  }

  lemma {:induction false} SameOrdersKeepKeys(db: Db, db': Db, keyOf: string -> string)
    requires KeysPlanned(db, keyOf) && SameOrders(db, db')
    ensures KeysPlanned(db', keyOf)
  {
  }

  lemma {:induction false} ClosedSameOrders(b: Books, x: OrderId, i: IntentId, b': Books)
    requires Closed(b, x, i, b')
    ensures SameOrders(b.db, b'.db)
  {
  }

  lemma {:induction false} SubmitKeepsKeys(b: Books, a: Approval, limits: Limits, x: OrderId, reply: Reply,
      keyOf: string -> string)
    requires KeysPlanned(b.db, keyOf) && IdempotencyKey(a.order) == keyOf(a.order.trace)
    requires Agree(b) && x !in b.db.orders && SubmitSafe(b, a)
    ensures KeysPlanned(Submit(b, a, limits, x, reply).db, keyOf)
  {
    if Enters(b, a, limits) && !HasTrace(b.db.intents, a.order.trace) {
      UuidIsItsColumn(a.order.trace);
      NewTraceNewKey(b, a.order);
      SubmitWritesNew(b, a, limits, x, reply);
      var rec := Answered(a, reply).(status := ReplyStatus(reply));
      RowKeepsKeys(b.db, Submit(b, a, limits, x, reply).db, x, rec, keyOf);
    } else {
      assert Submit(b, a, limits, x, reply) == b;
    }
  }

  lemma {:induction false} RowKeepsKeys(db: Db, db': Db, x: OrderId, rec: OrderRecord, keyOf: string -> string)
    requires KeysPlanned(db, keyOf) && db'.orders == db.orders[x := rec]
    requires IdempotencyKey(rec.order) == keyOf(rec.order.trace)
    ensures KeysPlanned(db', keyOf)
  {
  }

  lemma {:induction false} CancelKeepsKeys(b: Books, x: OrderId, ok: bool, keyOf: string -> string)
    requires KeysPlanned(b.db, keyOf) && Agree(b)
    ensures KeysPlanned(Cancel(b, x, ok).db, keyOf)
  {
    if x in b.open && ok {
      OpenFacts(b, x);
      CancelCloses(b, x);
      ClosedSameOrders(b, x, b.intentOf[x], Cancel(b, x, ok));
      SameOrdersKeepKeys(b.db, Cancel(b, x, ok).db, keyOf);
    }
  }

  lemma {:induction false} CancelAllKeepsKeys(b: Books, ks: seq<OrderId>, keyOf: string -> string)
    requires KeysPlanned(b.db, keyOf) && Agree(b)
    ensures KeysPlanned(CancelEach(b, ks).db, keyOf)
    decreases |ks|
  {
    if ks != [] {
      CancelKeepsKeys(b, ks[0], true, keyOf);
      CancelKeeps(b, ks[0], true);
      CancelAllKeepsKeys(Cancel(b, ks[0], true), ks[1..], keyOf);
    }
  }

  lemma {:induction false} FillKeepsKeys(b: Books, f: VenueFill, hit: Option<OrderId>, keyOf: string -> string)
    requires KeysPlanned(b.db, keyOf) && Agree(b) && Matches(b, f, hit)
    ensures KeysPlanned(ProcessFill(b, f, hit).db, keyOf)
  {
    if hit.Some? && FillAccepted(f) {
      FillSameOrders(b, hit.value, f);
      SameOrdersKeepKeys(b.db, ProcessFill(b, f, hit).db, keyOf);
    }
  }

  lemma {:induction false} FillSameOrders(b: Books, x: OrderId, f: VenueFill)
    requires Agree(b) && x in b.open && FillAccepted(f)
    ensures SameOrders(b.db, ProcessFill(b, f, Some(x)).db)
  {
    OpenFacts(b, x);
    if Completes(b.open[x], f) {
      FillCloses(b, x, f);
      ClosedSameOrders(b, x, b.intentOf[x], ProcessFill(b, f, Some(x)));
    } else {
      FillTouches(b, x, f);
      TouchedKeepsMemory(b, x, ProcessFill(b, f, Some(x)));
    }
  }

  lemma {:induction false} StepKeeps(b: Books, s: Step, keyOf: string -> string, limits: Limits)
    requires Agree(b) && KeysPlanned(b.db, keyOf) && StepOk(b, s, keyOf)
    ensures Agree(EngineNext(b, s, limits)) && KeysPlanned(EngineNext(b, s, limits).db, keyOf)
  {
    match s
    case DoSubmit(a, id, reply) =>
      PlannedIsSafe(b, a, keyOf);
      SubmitKeeps(b, a, limits, id, reply);
      SubmitKeepsKeys(b, a, limits, id, reply, keyOf);
    case DoCancel(x, ok) => CancelKeeps(b, x, ok); CancelKeepsKeys(b, x, ok, keyOf);
    case DoCancelAll(ks) => CancelAllKeeps(b, ks); CancelAllKeepsKeys(b, ks, keyOf);
    case DoFill(f, hit) => FillKeeps(b, f, hit); FillKeepsKeys(b, f, hit, keyOf);
    case DoSetMode(m) => OnlyGatesChange(b, b.(mode := m));
    case DoSetReconciled(v) => OnlyGatesChange(b, b.(reconciled := v));
    case DoRestart => RestartKeeps(b);
  }

  lemma {:induction false} OnlyGatesChange(b: Books, b': Books)
    requires Agree(b) && b' == b.(mode := b'.mode, reconciled := b'.reconciled)
    ensures Agree(b')
  {
    assert Onto(b') by {
      forall i | 0 <= i < |b.db.intents| && b.db.intents[i].status.IsOutstanding() ensures exists x :: Owns(b', x, i) {
        var x :| Owns(b, x, i);
        assert Owns(b', x, i);
      }
    }
  }

  // ---------- the envelope ----------

  lemma {:induction false} ClosingKeepsEnvelope(db: Db, i: IntentId, rows': seq<OrderIntent>, limits: Limits)
    requires LedgerOk(db) && InEnvelope(db.intents, limits)
    requires IntentClosed(db.intents, i, rows') && db.intents[i].status.IsOutstanding()
    ensures InEnvelope(rows', limits)
  {
    assert rows' == WithStatus(db.intents, i, rows'[i].status);
    StatusKeepsEnvelope(db.intents, i, rows'[i].status, limits);
  }

  lemma {:induction false} SubmitKeepsEnvelope(b: Books, a: Approval, limits: Limits, x: OrderId, reply: Reply)
    requires Agree(b) && SubmitSafe(b, a) && InEnvelope(b.db.intents, limits)
    ensures InEnvelope(Submit(b, a, limits, x, reply).db.intents, limits)
  {
    if Enters(b, a, limits) && !HasTrace(b.db.intents, a.order.trace) {
      UuidIsItsColumn(a.order.trace);
      NewTraceNewKey(b, a.order);
      SubmitWritesNew(b, a, limits, x, reply);
      AppendThenStatus(b.db.intents, NewIntentFromApproval(a.order, a.hmac), ReplyIntentStatus(reply), limits);
    } else {
      assert Submit(b, a, limits, x, reply) == b;
    }
  }

  lemma {:induction false} AppendThenStatus(rows: seq<OrderIntent>, row: OrderIntent, s: IntentStatus, limits: Limits)
    requires InEnvelope(rows, limits) && Appended(rows, row, limits) == Some(|rows|) && row.status == IPending
    ensures InEnvelope(rows + [row.(status := s)], limits)
  {
    AppendKeepsEnvelope(rows, row, limits);
    SumAppend(rows, row, AnyNotional());
    SumAppend(rows, row.(status := s), AnyNotional());
    forall k: MarketSide
      ensures SumBy(rows + [row.(status := s)], NotionalAt(k)) <= SumBy(rows + [row], NotionalAt(k)) {
      SumAppend(rows, row, NotionalAt(k));
      SumAppend(rows, row.(status := s), NotionalAt(k));
    }
  }

  lemma {:induction false} CancelKeepsEnvelope(b: Books, x: OrderId, ok: bool, limits: Limits)
    requires Agree(b) && InEnvelope(b.db.intents, limits)
    ensures InEnvelope(Cancel(b, x, ok).db.intents, limits)
  {
    if x in b.open && ok {
      OpenFacts(b, x);
      CancelCloses(b, x);
      ClosingKeepsEnvelope(b.db, b.intentOf[x], Cancel(b, x, ok).db.intents, limits);
    }
  }

  lemma {:induction false} CancelAllKeepsEnvelope(b: Books, ks: seq<OrderId>, limits: Limits)
    requires Agree(b) && InEnvelope(b.db.intents, limits)
    ensures InEnvelope(CancelEach(b, ks).db.intents, limits)
    decreases |ks|
  {
    if ks != [] {
      CancelKeepsEnvelope(b, ks[0], true, limits);
      CancelKeeps(b, ks[0], true);
      CancelAllKeepsEnvelope(Cancel(b, ks[0], true), ks[1..], limits);
    }
  }

  lemma {:induction false} FillKeepsEnvelope(b: Books, f: VenueFill, hit: Option<OrderId>, limits: Limits)
    requires Agree(b) && InEnvelope(b.db.intents, limits) && Matches(b, f, hit)
    ensures InEnvelope(ProcessFill(b, f, hit).db.intents, limits)
  {
    if hit.Some? && FillAccepted(f) {
      OpenFacts(b, hit.value);
      if Completes(b.open[hit.value], f) {
        FillCloses(b, hit.value, f);
        ClosingKeepsEnvelope(b.db, b.intentOf[hit.value], ProcessFill(b, f, hit).db.intents, limits);
      } else {
        FillTouches(b, hit.value, f);
      }
    }
  }

  lemma {:induction false} StepKeepsEnvelope(b: Books, s: Step, keyOf: string -> string, limits: Limits)
    requires Agree(b) && KeysPlanned(b.db, keyOf) && StepOk(b, s, keyOf) && InEnvelope(b.db.intents, limits)
    ensures InEnvelope(EngineNext(b, s, limits).db.intents, limits)
  {
    match s
    case DoSubmit(a, id, reply) =>
      PlannedIsSafe(b, a, keyOf);
      SubmitKeepsEnvelope(b, a, limits, id, reply);
    case DoCancel(x, ok) => CancelKeepsEnvelope(b, x, ok, limits);
    case DoCancelAll(ks) => CancelAllKeepsEnvelope(b, ks, limits);
    case DoFill(f, hit) => FillKeepsEnvelope(b, f, hit, limits);
    case _ =>
  }

  ghost predicate Good(b: Books, keyOf: string -> string, limits: Limits)
  {
    Agree(b) && KeysPlanned(b.db, keyOf) && InEnvelope(b.db.intents, limits)
  }

  lemma {:induction false} RunKeeps(b: Books, steps: seq<Step>, keyOf: string -> string, limits: Limits)
    requires Good(b, keyOf, limits) && EngineRunOk(b, steps, keyOf, limits)
    ensures Good(EngineAfter(b, steps, limits), keyOf, limits)
    decreases |steps|
  {
    if steps != [] {
      StepKeeps(b, steps[0], keyOf, limits);
      StepKeepsEnvelope(b, steps[0], keyOf, limits);
      RunKeeps(EngineNext(b, steps[0], limits), steps[1..], keyOf, limits);
    }
  }

  /**
   Main result: in every state of a fresh run, restarts included, intentOf is a bijection between open orders
   and outstanding intents, no illegal transition was ever tried, exposure is the open orders' notional
   and it lies inside the envelope.
   */
  lemma {:induction false} FreshRunAgrees(steps: seq<Step>, keyOf: string -> string, limits: Limits)
    requires EngineRunOk(FRESH, steps, keyOf, limits)
    ensures var b := EngineAfter(FRESH, steps, limits);
      && Bijective(b) && b.illegal == 0 && InEnvelope(b.db.intents, limits)
      && (forall k: MarketSide :: Grouped(b.db.intents).At(k).notional == SumSet(b.open.Keys, OpenNotional(b.open, k)))
      && Grouped(b.db.intents).total == SumSet(b.open.Keys, OpenAnyNotional(b.open))
  {
    assert Agree(FRESH);
    EmptyInEnvelope(limits);
    RunKeeps(FRESH, steps, keyOf, limits);
    Bijection(EngineAfter(FRESH, steps, limits));
    ExposureIsOpenOrders(EngineAfter(FRESH, steps, limits));
  }
}
