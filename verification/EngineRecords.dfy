/**
 What the engine's tables record: each operation column by column, and over every run which call a row
 comes from, which intent goes with it and which fills it has counted.
 */
module EngineRecords {
  import opened Modes
  import opened Orders
  import opened Uuids
  import opened Intents
  import opened Exposure
  import opened IntentLedger
  import opened Sums
  import opened Books
  import opened BooksAgree
  import opened BooksSteps
  import opened EngineRuns

  // ---------- submit ----------

  /** The signature, the decision, reconciliation and the mode. */
  ghost predicate Gated(b: Books, a: Approval)
  {
    a.authentic && a.decision == Approved && b.reconciled && b.mode == Normal
  }

  /** The columns an intent must have. */
  predicate Complete(a: Approval)
  {
    ColumnsSet(OrderIntent(a.order, a.hmac, IPending))
  }

  /** The order fits beside what is open already, on its market and side and in total. */
  ghost predicate Fits(b: Books, o: ProposedOrder, limits: Limits)
  {
    && (limits.maxPosition > 0 ==>
          SumSet(b.open.Keys, OpenNotional(b.open, MarketSide(o.market, o.side))) + o.notional <= limits.maxPosition)
    && (limits.maxTotal > 0 ==> SumSet(b.open.Keys, OpenAnyNotional(b.open)) + o.notional <= limits.maxTotal)
  }

  /** A submit the engine sends to the venue. */
  ghost predicate Placeable(b: Books, a: Approval, limits: Limits)
  {
    Gated(b, a) && Complete(a) && !TraceHasRow(b.db, a.order.trace) && Fits(b, a.order, limits)
  }

  /** The row and the intent a placed order leaves. */
  predicate PlacedRow(a: Approval, reply: Reply, row: OrderRecord)
  {
    && row.order == a.order && row.hmac == a.hmac && row.policyHash == a.policyHash && row.approvedAt == a.decidedAt
    && row.filled == 0 && row.avgFillPrice == 0
    && match reply
       case VenueError => row.status == Failed && row.exchangeId == Some(NO_EXCHANGE_ID)
       case VenueRejected(e) => row.status == Rejected && row.exchangeId == Some(e)
       case VenueAccepted(e) => row.status == Open && row.exchangeId == Some(e)
  }

  predicate PlacedIntent(a: Approval, reply: Reply, intent: OrderIntent)
  {
    && intent.order == a.order && intent.hmac == a.hmac
    && intent.status == if reply.VenueAccepted? then IOpen else IRejected
  }

  ghost predicate Placed(b: Books, a: Approval, x: OrderId, reply: Reply, b': Books)
  {
    && x in b'.db.orders && PlacedRow(a, reply, b'.db.orders[x]) && b'.db.orders == b.db.orders[x := b'.db.orders[x]]
    && |b'.db.intents| == |b.db.intents| + 1 && PlacedIntent(a, reply, NewRow(b'))
    && b'.db.intents == b.db.intents + [NewRow(b')] && b'.db.fills == b.db.fills
    && b'.open == (if reply.VenueAccepted? then b.open[x := b'.db.orders[x]] else b.open)
    && b'.intentOf == (if reply.VenueAccepted? then b.intentOf[x := |b.db.intents|] else b.intentOf)
    && b'.mode == b.mode && b'.reconciled == b.reconciled && b'.illegal == b.illegal
  }

  lemma {:induction false} FitsIsWithin(b: Books, a: Approval, limits: Limits)
    requires Agree(b)
    ensures WithinLimits(Grouped(b.db.intents), NewIntentFromApproval(a.order, a.hmac), limits)
            <==> Fits(b, a.order, limits)
  {
    Bijection(b);
    ExposureIsOpenOrders(b);
  }

  lemma {:induction false} TraceInBoth(b: Books, t: string)
    requires TableOk(b.db) && LedgerCovered(b.db)
    ensures HasTrace(b.db.intents, t) <==> TraceHasRow(b.db, t)
  {
    if HasTrace(b.db.intents, t) {
      var i :| 0 <= i < |b.db.intents| && b.db.intents[i].order.trace == t;
      assert HasOrder(b.db, b.db.intents[i].order);
    }
  }

  /** The ledger's answer for a new trace. */
  lemma {:induction false} EntersExactlyWhen(b: Books, a: Approval, limits: Limits)
    requires Agree(b) && !TraceHasRow(b.db, a.order.trace)
    ensures Enters(b, a, limits) <==> Gated(b, a) && Complete(a) && Fits(b, a.order, limits)
  {
    TraceInBoth(b, a.order.trace);
    FitsIsWithin(b, a, limits);
  }

  lemma {:induction false} PlacesIt(b: Books, a: Approval, limits: Limits, x: OrderId, reply: Reply)
    requires ReachesVenue(b, a, limits) && IntentFor(b, a, limits).value == |b.db.intents|
    ensures Placed(b, a, x, reply, Submit(b, a, limits, x, reply))
  {
    SubmitWritesNew(b, a, limits, x, reply);
  }

  /**
   Main result: a submit under a canonical trace that names one order leaves the row, the intent and the memory its
   venue answer calls for if the order is placeable, and changes nothing otherwise.
   */
  lemma {:induction false} SubmitExactly(b: Books, a: Approval, limits: Limits, x: OrderId, reply: Reply)
    requires Agree(b) && SubmitSafe(b, a)
    ensures if Placeable(b, a, limits) then Placed(b, a, x, reply, Submit(b, a, limits, x, reply))
            else Submit(b, a, limits, x, reply) == b
  {
    TraceInBoth(b, a.order.trace);
    if !TraceHasRow(b.db, a.order.trace) {
      EntersExactlyWhen(b, a, limits);
      UuidIsItsColumn(a.order.trace);
      NoRowNoKey(b.db, a.order);
      if Enters(b, a, limits) {
        PlacesIt(b, a, limits, x, reply);
      }
    } else {
      SubmitStopsEarly(b, a, limits, x, reply);
    }
  }

  // ---------- cancel and fill ----------

  /** An open order's row, the intent of its trace and its memory, after the order has ended. */
  ghost function Ended(b: Books, x: OrderId, row: OrderRecord, s: IntentStatus, fills: seq<FillRow>): Books
    requires OpenAt(b, x)
  {
    var i := b.intentOf[x];
    Books(Db(b.db.intents[i := b.db.intents[i].(status := s)], b.db.orders[x := row], fills),
          b.open - {x}, b.intentOf - {x}, b.mode, b.reconciled, b.illegal)
  }

  /** A cancelled order keeps what it has filled; its intent becomes cancelled. */
  lemma {:induction false} CancelExactly(b: Books, x: OrderId)
    requires OpenAt(b, x)
    ensures var row := b.db.orders[x].(status := Cancelled, avgFillPrice := b.open[x].avgFillPrice);
      Cancel(b, x, true) == Ended(b, x, row, ICancelled, b.db.fills)
  {
    CloseWrites(b.db, x, b.open[x], Cancelled, b.intentOf[x], ICancelled);
    SameColumns(b.open[x], b.db.orders[x]);
  }

  lemma {:induction false} SameColumns(rec: OrderRecord, row: OrderRecord)
    requires LoadedRecord(rec) == LoadedRecord(row)
    ensures rec == row.(avgFillPrice := rec.avgFillPrice)
  {
    assert LoadedRecord(rec).hmac == rec.hmac && LoadedRecord(row).hmac == row.hmac;
    assert rec == LoadedRecord(rec).(avgFillPrice := rec.avgFillPrice);
    assert row.(avgFillPrice := rec.avgFillPrice) == LoadedRecord(row).(avgFillPrice := rec.avgFillPrice);
  }

  /** A fill that reaches the order's quantity ends it as filled, with its intent. */
  lemma {:induction false} LastFillExactly(b: Books, x: OrderId, f: VenueFill)
    requires OpenAt(b, x) && f.quantity > 0 && f.price > 0
    requires b.db.orders[x].filled + f.quantity >= b.db.orders[x].order.quantity
    ensures
      var was := b.db.orders[x];
      var row := was.(status := Filled, filled := was.filled + f.quantity, avgFillPrice := f.price);
      ProcessFill(b, f, Some(x)) == Ended(b, x, row, IFilled, b.db.fills + [FillRow(x, f.quantity, f.price)])
  {
    var i, rec := b.intentOf[x], FilledRecord(b.open[x], f);
    SameColumns(b.open[x], b.db.orders[x]);
    var first := InsertFill(FillRow(x, f.quantity, f.price));
    var rest := TransitionWrites(x, rec, Filled) + [UpdateIntent(i, IFilled)];
    assert FillWrites(b, x, f) == [first] + rest;
    MoreWrites(b.db, first, rest);
    CloseWrites(Written(b.db, first), x, rec, Filled, i, IFilled);
  }

  /** An earlier fill leaves the order open, in the table and in memory alike. */
  ghost function Partly(b: Books, x: OrderId, f: VenueFill): Books
    requires OpenAt(b, x)
  {
    var row := b.db.orders[x].(status := PartiallyFilled, filled := b.db.orders[x].filled + f.quantity,
                               avgFillPrice := f.price);
    b.(db := Db(b.db.intents, b.db.orders[x := row], b.db.fills + [FillRow(x, f.quantity, f.price)]),
       open := b.open[x := row])
  }

  lemma {:induction false} PartFillExactly(b: Books, x: OrderId, f: VenueFill)
    requires OpenAt(b, x) && f.quantity > 0 && f.price > 0
    requires b.db.orders[x].filled + f.quantity < b.db.orders[x].order.quantity
    ensures ProcessFill(b, f, Some(x)) == Partly(b, x, f)
  {
    var rec := FilledRecord(b.open[x], f);
    SameColumns(b.open[x], b.db.orders[x]);
    var first, w := InsertFill(FillRow(x, f.quantity, f.price)), UpdateOrder(x, rec.(status := PartiallyFilled));
    assert FillWrites(b, x, f) == [first] + [w];
    MoreWrites(b.db, first, [w]);
    OneWrite(Written(b.db, first), w);
  }

  // ---------- an intent's status follows its order's ----------

  predicate Matching(s: OrderStatus, t: IntentStatus)
  {
    match s
    case Open => t == IOpen
    case PartiallyFilled => t == IOpen
    case Filled => t == IFilled
    case Cancelled => t == ICancelled
    case Failed => t == IRejected
    case Rejected => t == IRejected
    case _ => false
  }

  /** Row and intent of one trace have matching statuses. */
  ghost predicate Tied(db: Db)
  {
    forall x, i :: x in db.orders && 0 <= i < |db.intents| && db.orders[x].order.trace == db.intents[i].order.trace ==>
      Matching(db.orders[x].status, db.intents[i].status)
  }

  lemma {:induction false} PlacedTied(b: Books, a: Approval, x: OrderId, reply: Reply, b': Books)
    requires Tied(b.db) && TableOk(b.db) && Placed(b, a, x, reply, b') && !HasTrace(b.db.intents, a.order.trace)
    requires x !in b.db.orders
    ensures Tied(b'.db)
  {
    forall y, i | y in b'.db.orders && 0 <= i < |b'.db.intents|
                  && b'.db.orders[y].order.trace == b'.db.intents[i].order.trace
      ensures Matching(b'.db.orders[y].status, b'.db.intents[i].status) {
      if y == x && i < |b.db.intents| {
        assert false;
      } else if y != x && i == |b.db.intents| {
        assert false;
      }
    }
  }

  lemma {:induction false} EndedTied(b: Books, x: OrderId, row: OrderRecord, s: IntentStatus, fills: seq<FillRow>)
    requires Tied(b.db) && TableOk(b.db) && TracesUnique(b.db.intents) && OpenAt(b, x)
    requires row.order == b.db.orders[x].order && Matching(row.status, s)
    ensures Tied(Ended(b, x, row, s, fills).db)
  {
    var i0, db' := b.intentOf[x], Ended(b, x, row, s, fills).db;
    assert b.db.intents[i0].order.trace == row.order.trace;
    forall y, i | y in db'.orders && 0 <= i < |db'.intents| && db'.orders[y].order.trace == db'.intents[i].order.trace
      ensures Matching(db'.orders[y].status, db'.intents[i].status) {
      if y == x && i != i0 {
        assert false;
      } else if y != x && i == i0 {
        assert false;
      }
    }
  }

  lemma {:induction false} PartlyTied(b: Books, x: OrderId, f: VenueFill)
    requires Tied(b.db) && OpenAt(b, x)
    ensures Tied(Partly(b, x, f).db)
  {
    forall i | 0 <= i < |b.db.intents| && b.db.orders[x].order.trace == b.db.intents[i].order.trace
      ensures b.db.intents[i].status == IOpen {
      assert Matching(b.db.orders[x].status, b.db.intents[i].status);
      assert LoadedRecord(b.open[x]).status == b.db.orders[x].status;
    }
  }

  // ---------- an order's fills ----------

  ghost function FilledOf(x: OrderId): FillRow -> int
  {
    (f: FillRow) => if f.orderId == x then f.quantity else 0
  }

  /** How much a row of each status has filled. */
  predicate FilledFits(row: OrderRecord)
  {
    row.order.quantity > 0 &&
    match row.status
    case Open => row.filled == 0
    case PartiallyFilled => 0 < row.filled < row.order.quantity
    case Filled => row.filled >= row.order.quantity
    case Cancelled => 0 <= row.filled < row.order.quantity
    case Failed => row.filled == 0
    case Rejected => row.filled == 0
    case _ => false
  }

  /** Every row has filled the sum of its fill rows. */
  ghost predicate Counted(db: Db)
  {
    && (forall k :: 0 <= k < |db.fills| ==> db.fills[k].orderId in db.orders)
    && (forall x :: x in db.orders ==> FilledFits(db.orders[x]) && db.orders[x].filled == SumBy(db.fills, FilledOf(x)))
  }

  lemma {:induction false} NoFillsYet(fills: seq<FillRow>, x: OrderId)
    requires forall k :: 0 <= k < |fills| ==> fills[k].orderId != x
    ensures SumBy(fills, FilledOf(x)) == 0
    decreases |fills|
  {
    if fills != [] {
      NoFillsYet(fills[..|fills| - 1], x);
    }
  }

  lemma {:induction false} PlacedCounted(b: Books, a: Approval, x: OrderId, reply: Reply, b': Books)
    requires Counted(b.db) && x !in b.db.orders && Complete(a) && Placed(b, a, x, reply, b')
    ensures Counted(b'.db)
  {
    NoFillsYet(b.db.fills, x);
  }

  /** One more fill of x counts for x only. */
  lemma {:induction false} CountedMore(db: Db, x: OrderId, row: OrderRecord, f: VenueFill, intents: seq<OrderIntent>)
    requires Counted(db) && x in db.orders && FilledFits(row) && row.filled == db.orders[x].filled + f.quantity
    ensures Counted(Db(intents, db.orders[x := row], db.fills + [FillRow(x, f.quantity, f.price)]))
  {
    var fill := FillRow(x, f.quantity, f.price);
    forall y | y in db.orders
      ensures SumBy(db.fills + [fill], FilledOf(y)) == SumBy(db.fills, FilledOf(y)) + FilledOf(y)(fill) {
      SumAppend(db.fills, fill, FilledOf(y));
    }
  }

  lemma {:induction false} CancelCounted(b: Books, x: OrderId)
    requires Counted(b.db) && OpenAt(b, x)
    ensures Counted(Cancel(b, x, true).db)
  {
    CancelExactly(b, x);
    assert LoadedRecord(b.open[x]).status == b.db.orders[x].status;
  }

  lemma {:induction false} FillCounted(b: Books, x: OrderId, f: VenueFill)
    requires Counted(b.db) && OpenAt(b, x) && f.quantity > 0 && f.price > 0
    ensures Counted(ProcessFill(b, f, Some(x)).db)
  {
    var was, b' := b.db.orders[x], ProcessFill(b, f, Some(x));
    assert LoadedRecord(b.open[x]).status == was.status;
    if was.filled + f.quantity >= was.order.quantity {
      LastFillExactly(b, x, f);
    } else {
      PartFillExactly(b, x, f);
    }
    CountedMore(b.db, x, b'.db.orders[x], f, b'.db.intents);
  }

  // ---------- runs ----------

  ghost function At(steps: seq<Step>, n: nat, limits: Limits): Books
    requires n <= |steps|
  {
    EngineAfter(FRESH, steps[..n], limits)
  }

  lemma {:induction false} AfterLast(b: Books, steps: seq<Step>, s: Step, limits: Limits)
    ensures EngineAfter(b, steps + [s], limits) == EngineNext(EngineAfter(b, steps, limits), s, limits)
    decreases |steps|
  {
    if steps == [] {
      assert [] + [s] == [s] && [s][1..] == [];
    } else {
      assert (steps + [s])[0] == steps[0] && (steps + [s])[1..] == steps[1..] + [s];
      AfterLast(EngineNext(b, steps[0], limits), steps[1..], s, limits);
    }
  }

  lemma {:induction false} OkInTwo(b: Books, steps: seq<Step>, n: nat, keyOf: string -> string, limits: Limits)
    requires EngineRunOk(b, steps, keyOf, limits) && n < |steps|
    ensures EngineRunOk(b, steps[..n], keyOf, limits) && StepOk(EngineAfter(b, steps[..n], limits), steps[n], keyOf)
    decreases n
  {
    if n > 0 {
      OkInTwo(EngineNext(b, steps[0], limits), steps[1..], n - 1, keyOf, limits);
      assert steps[..n][0] == steps[0] && steps[..n][1..] == steps[1..][..n - 1];
    }
  }

  /** Step n of a fresh run starts in a good state and leads to the next one. */
  lemma {:induction false} OneStep(steps: seq<Step>, n: nat, keyOf: string -> string, limits: Limits)
    requires EngineRunOk(FRESH, steps, keyOf, limits) && n < |steps|
    ensures Good(At(steps, n, limits), keyOf, limits) && StepOk(At(steps, n, limits), steps[n], keyOf)
    ensures At(steps, n + 1, limits) == EngineNext(At(steps, n, limits), steps[n], limits)
  {
    OkInTwo(FRESH, steps, n, keyOf, limits);
    assert Agree(FRESH);
    EmptyInEnvelope(limits);
    RunKeeps(FRESH, steps[..n], keyOf, limits);
    assert steps[..n + 1] == steps[..n] + [steps[n]];
    AfterLast(FRESH, steps[..n], steps[n], limits);
  }

  // ---------- statuses and sums over runs ----------

  lemma {:induction false} SubmitRecords(b: Books, a: Approval, limits: Limits, x: OrderId, reply: Reply)
    requires Agree(b) && SubmitSafe(b, a) && x !in b.db.orders && Tied(b.db) && Counted(b.db)
    ensures Tied(Submit(b, a, limits, x, reply).db) && Counted(Submit(b, a, limits, x, reply).db)
  {
    SubmitExactly(b, a, limits, x, reply);
    if Placeable(b, a, limits) {
      TraceInBoth(b, a.order.trace);
      PlacedTied(b, a, x, reply, Submit(b, a, limits, x, reply));
      PlacedCounted(b, a, x, reply, Submit(b, a, limits, x, reply));
    }
  }

  lemma {:induction false} CancelRecords(b: Books, x: OrderId, venueCancels: bool)
    requires Agree(b) && Tied(b.db) && Counted(b.db)
    ensures Tied(Cancel(b, x, venueCancels).db) && Counted(Cancel(b, x, venueCancels).db)
  {
    if x in b.open && venueCancels {
      OpenFacts(b, x);
      CancelExactly(b, x);
      EndedTied(b, x, Cancel(b, x, true).db.orders[x], ICancelled, b.db.fills);
      CancelCounted(b, x);
    }
  }

  lemma {:induction false} CancelAllRecords(b: Books, ks: seq<OrderId>)
    requires Agree(b) && Tied(b.db) && Counted(b.db)
    ensures Tied(CancelEach(b, ks).db) && Counted(CancelEach(b, ks).db)
    decreases |ks|
  {
    if ks != [] {
      CancelKeeps(b, ks[0], true);
      CancelRecords(b, ks[0], true);
      CancelAllRecords(Cancel(b, ks[0], true), ks[1..]);
    }
  }

  lemma {:induction false} FillRecords(b: Books, f: VenueFill, hit: Option<OrderId>)
    requires Agree(b) && Matches(b, f, hit) && Tied(b.db) && Counted(b.db)
    ensures Tied(ProcessFill(b, f, hit).db) && Counted(ProcessFill(b, f, hit).db)
  {
    if hit.Some? && FillAccepted(f) {
      var x := hit.value;
      OpenFacts(b, x);
      FillCounted(b, x, f);
      if b.db.orders[x].filled + f.quantity >= b.db.orders[x].order.quantity {
        LastFillExactly(b, x, f);
        EndedTied(b, x, ProcessFill(b, f, hit).db.orders[x], IFilled, b.db.fills + [FillRow(x, f.quantity, f.price)]);
      } else {
        PartFillExactly(b, x, f);
        PartlyTied(b, x, f);
      }
    }
  }

  lemma {:induction false} StepRecords(b: Books, s: Step, keyOf: string -> string, limits: Limits)
    requires Agree(b) && KeysPlanned(b.db, keyOf) && StepOk(b, s, keyOf) && Tied(b.db) && Counted(b.db)
    ensures Tied(EngineNext(b, s, limits).db) && Counted(EngineNext(b, s, limits).db)
  {
    match s
    case DoSubmit(a, id, reply) =>
      PlannedIsSafe(b, a, keyOf);
      SubmitRecords(b, a, limits, id, reply);
    case DoCancel(x, ok) => CancelRecords(b, x, ok);
    case DoCancelAll(ks) => CancelAllRecords(b, ks);
    case DoFill(f, hit) => FillRecords(b, f, hit);
    case _ =>
  }

  /**
   Main result: in every state of a fresh run each order's status decides the status of the intent of its trace, and
   each order has filled the sum of its rows in the fills table, an amount its status allows.
   */
  lemma {:induction false} StatusesAndFillsTied(steps: seq<Step>, n: nat, keyOf: string -> string, limits: Limits)
    requires EngineRunOk(FRESH, steps, keyOf, limits) && n <= |steps|
    ensures Tied(At(steps, n, limits).db) && Counted(At(steps, n, limits).db)
  {
    if n > 0 {
      StatusesAndFillsTied(steps, n - 1, keyOf, limits);
      OneStep(steps, n - 1, keyOf, limits);
      StepRecords(At(steps, n - 1, limits), steps[n - 1], keyOf, limits);
    }
  }

  // ---------- the fills table over runs ----------

  /** The row a step adds to the fills table: one for a positive fill with a match. */
  function FillOf(s: Step): seq<FillRow>
  {
    if s.DoFill? && s.hit.Some? && s.f.quantity > 0 && s.f.price > 0
    then [FillRow(s.hit.value, s.f.quantity, s.f.price)] else []
  }

  function FillsHandled(steps: seq<Step>): seq<FillRow>
  {
    if steps == [] then [] else FillsHandled(steps[..|steps| - 1]) + FillOf(steps[|steps| - 1])
  }

  lemma {:induction false} CancelsKeepFills(b: Books, ks: seq<OrderId>)
    requires Agree(b)
    ensures CancelEach(b, ks).db.fills == b.db.fills
    decreases |ks|
  {
    if ks != [] {
      CancelKeepsFills(b, ks[0], true);
      CancelKeeps(b, ks[0], true);
      CancelsKeepFills(Cancel(b, ks[0], true), ks[1..]);
    }
  }

  lemma {:induction false} CancelKeepsFills(b: Books, x: OrderId, ok: bool)
    requires Agree(b)
    ensures Cancel(b, x, ok).db.fills == b.db.fills
  {
    if x in b.open && ok {
      OpenFacts(b, x);
      CancelExactly(b, x);
    }
  }

  lemma {:induction false} FillAddsRow(b: Books, f: VenueFill, hit: Option<OrderId>)
    requires Agree(b) && Matches(b, f, hit)
    ensures ProcessFill(b, f, hit).db.fills == b.db.fills +
      if hit.Some? && f.quantity > 0 && f.price > 0 then [FillRow(hit.value, f.quantity, f.price)] else []
  {
    if hit.Some? && f.quantity > 0 && f.price > 0 {
      OpenFacts(b, hit.value);
      if b.db.orders[hit.value].filled + f.quantity >= b.db.orders[hit.value].order.quantity {
        LastFillExactly(b, hit.value, f);
      } else {
        PartFillExactly(b, hit.value, f);
      }
    }
  }

  lemma {:induction false} StepFills(b: Books, s: Step, keyOf: string -> string, limits: Limits)
    requires Agree(b) && KeysPlanned(b.db, keyOf) && StepOk(b, s, keyOf)
    ensures EngineNext(b, s, limits).db.fills == b.db.fills + FillOf(s)
  {
    match s
    case DoSubmit(a, id, reply) =>
      PlannedIsSafe(b, a, keyOf);
      SubmitExactly(b, a, limits, id, reply);
    case DoCancel(x, ok) => CancelKeepsFills(b, x, ok);
    case DoCancelAll(ks) => CancelsKeepFills(b, ks);
    case DoFill(f, hit) => FillAddsRow(b, f, hit);
    case _ =>
  }

  lemma {:induction false} StepAddsFill(steps: seq<Step>, n: nat, keyOf: string -> string, limits: Limits)
    requires EngineRunOk(FRESH, steps, keyOf, limits) && n < |steps|
    ensures At(steps, n + 1, limits).db.fills == At(steps, n, limits).db.fills + FillOf(steps[n])
  {
    OneStep(steps, n, keyOf, limits);
    StepFills(At(steps, n, limits), steps[n], keyOf, limits);
  }

  lemma {:induction false} HandledMore(steps: seq<Step>, n: nat)
    requires n < |steps|
    ensures FillsHandled(steps[..n + 1]) == FillsHandled(steps[..n]) + FillOf(steps[n])
  {
    assert steps[..n + 1][..n] == steps[..n];
  }

  /** Main result: over every fresh run the fills table lists the matched fills, in order and column by column. */
  lemma {:induction false} FillsTableIs(steps: seq<Step>, n: nat, keyOf: string -> string, limits: Limits)
    requires EngineRunOk(FRESH, steps, keyOf, limits) && n <= |steps|
    ensures At(steps, n, limits).db.fills == FillsHandled(steps[..n])
  {
    if n > 0 {
      FillsTableIs(steps, n - 1, keyOf, limits);
      StepAddsFill(steps, n - 1, keyOf, limits);
      HandledMore(steps, n - 1);
    }
  }

  // ---------- where rows come from ----------

  /** Step k is a submit of a placeable order under this id, and its approval and venue answer made this row. */
  ghost predicate RowFrom(steps: seq<Step>, k: int, x: OrderId, row: OrderRecord, limits: Limits)
  {
    && 0 <= k < |steps| && steps[k].DoSubmit? && steps[k].id == x
    && Placeable(At(steps, k, limits), steps[k].a, limits)
    && row.order == steps[k].a.order && row.hmac == steps[k].a.hmac && row.policyHash == steps[k].a.policyHash
    && row.approvedAt == steps[k].a.decidedAt
    && match steps[k].reply
       case VenueError => row.status == Failed && row.exchangeId == Some(NO_EXCHANGE_ID)
       case VenueRejected(e) => row.status == Rejected && row.exchangeId == Some(e)
       case VenueAccepted(e) => row.status in {Open, PartiallyFilled, Filled, Cancelled} && row.exchangeId == Some(e)
  }

  ghost predicate IntentFrom(steps: seq<Step>, k: int, row: OrderIntent, limits: Limits)
  {
    && 0 <= k < |steps| && steps[k].DoSubmit? && Placeable(At(steps, k, limits), steps[k].a, limits)
    && row.order == steps[k].a.order && row.hmac == steps[k].a.hmac
  }

  ghost predicate HasOrigin(steps: seq<Step>, n: nat, x: OrderId, row: OrderRecord, limits: Limits)
  {
    exists k :: 0 <= k < n && RowFrom(steps, k, x, row, limits)
  }

  ghost predicate HasIntentOrigin(steps: seq<Step>, n: nat, row: OrderIntent, limits: Limits)
  {
    exists k :: 0 <= k < n && IntentFrom(steps, k, row, limits)
  }

  /** A row keeps its columns from the submit; only an open order moves on. */
  ghost predicate Carried(row: OrderRecord, row': OrderRecord)
  {
    && row'.order == row.order && row'.hmac == row.hmac && row'.policyHash == row.policyHash
    && row'.approvedAt == row.approvedAt && row'.exchangeId == row.exchangeId
    && (row'.status == row.status ||
        (row.status in {Open, PartiallyFilled} && row'.status in {PartiallyFilled, Filled, Cancelled}))
  }

  /** Every row is carried over, every intent keeps its order and signature. */
  ghost predicate AllCarried(db: Db, db': Db)
  {
    && (forall x :: x in db.orders ==> x in db'.orders && Carried(db.orders[x], db'.orders[x]))
    && |db.intents| <= |db'.intents|
    && (forall i :: 0 <= i < |db.intents| ==>
          db'.intents[i].order == db.intents[i].order && db'.intents[i].hmac == db.intents[i].hmac)
  }

  /** Only a placed order adds rows. */
  ghost predicate OnlyCarried(db: Db, db': Db)
  {
    AllCarried(db, db') && db'.orders.Keys == db.orders.Keys && |db'.intents| == |db.intents|
  }

  /** One row moves on, and one intent changes its status. */
  lemma {:induction false} OneCarried(db: Db, x: OrderId, row: OrderRecord, i: IntentId, s: IntentStatus,
      fills: seq<FillRow>)
    requires x in db.orders && Carried(db.orders[x], row) && i < |db.intents|
    ensures OnlyCarried(db, Db(db.intents[i := db.intents[i].(status := s)], db.orders[x := row], fills))
  {
  }

  lemma {:induction false} OpenStatus(b: Books, x: OrderId)
    requires OpenAt(b, x)
    ensures b.db.orders[x].status in {Open, PartiallyFilled}
  {
    assert LoadedRecord(b.open[x]).status == b.db.orders[x].status;
  }

  lemma {:induction false} CancelCarries(b: Books, x: OrderId, ok: bool)
    requires Agree(b)
    ensures OnlyCarried(b.db, Cancel(b, x, ok).db)
  {
    if x in b.open && ok {
      OpenFacts(b, x);
      OpenCancelCarries(b, x);
    }
  }

  lemma {:induction false} OpenCancelCarries(b: Books, x: OrderId)
    requires OpenAt(b, x)
    ensures OnlyCarried(b.db, Cancel(b, x, true).db)
  {
    CancelExactly(b, x);
    OpenStatus(b, x);
    OneCarried(b.db, x, Cancel(b, x, true).db.orders[x], b.intentOf[x], ICancelled, b.db.fills);
  }

  lemma {:induction false} CancelsCarry(b: Books, ks: seq<OrderId>)
    requires Agree(b)
    ensures OnlyCarried(b.db, CancelEach(b, ks).db)
    decreases |ks|
  {
    if ks != [] {
      CancelCarries(b, ks[0], true);
      CancelKeeps(b, ks[0], true);
      CancelsCarry(Cancel(b, ks[0], true), ks[1..]);
      CarriedTwice(b.db, Cancel(b, ks[0], true).db, CancelEach(b, ks).db);
    }
  }

  lemma {:induction false} CarriedTwice(db: Db, db': Db, db'': Db)
    requires OnlyCarried(db, db') && OnlyCarried(db', db'')
    ensures OnlyCarried(db, db'')
  {
    forall x | x in db.orders ensures x in db''.orders && Carried(db.orders[x], db''.orders[x]) {
      assert Carried(db.orders[x], db'.orders[x]) && Carried(db'.orders[x], db''.orders[x]);
    }
  }

  lemma {:induction false} FillCarries(b: Books, f: VenueFill, hit: Option<OrderId>)
    requires Agree(b) && Matches(b, f, hit)
    ensures OnlyCarried(b.db, ProcessFill(b, f, hit).db)
  {
    if hit.Some? && FillAccepted(f) {
      OpenFacts(b, hit.value);
      OpenFillCarries(b, hit.value, f);
    }
  }

  lemma {:induction false} OpenFillCarries(b: Books, x: OrderId, f: VenueFill)
    requires OpenAt(b, x) && FillAccepted(f)
    ensures OnlyCarried(b.db, ProcessFill(b, f, Some(x)).db)
  {
    var i, fills := b.intentOf[x], b.db.fills + [FillRow(x, f.quantity, f.price)];
    OpenStatus(b, x);
    if b.db.orders[x].filled + f.quantity >= b.db.orders[x].order.quantity {
      LastFillExactly(b, x, f);
      OneCarried(b.db, x, ProcessFill(b, f, Some(x)).db.orders[x], i, IFilled, fills);
    } else {
      PartFillExactly(b, x, f);
      var intents := b.db.intents;
      assert intents[i := intents[i].(status := intents[i].status)] == intents;
      OneCarried(b.db, x, Partly(b, x, f).db.orders[x], i, b.db.intents[i].status, fills);
    }
  }

  lemma {:induction false} StepCarries(b: Books, s: Step, keyOf: string -> string, limits: Limits)
    requires Agree(b) && StepOk(b, s, keyOf) && !s.DoSubmit?
    ensures OnlyCarried(b.db, EngineNext(b, s, limits).db)
  {
    match s
    case DoCancel(x, ok) => CancelCarries(b, x, ok);
    case DoCancelAll(ks) => CancelsCarry(b, ks);
    case DoFill(f, hit) => FillCarries(b, f, hit);
    case _ =>
  }

  lemma {:induction false} SubmitCarries(b: Books, a: Approval, limits: Limits, x: OrderId, reply: Reply)
    requires Agree(b) && SubmitSafe(b, a) && x !in b.db.orders
    ensures AllCarried(b.db, Submit(b, a, limits, x, reply).db)
    ensures OnlyCarried(b.db, Submit(b, a, limits, x, reply).db)
            || (Placeable(b, a, limits) && Placed(b, a, x, reply, Submit(b, a, limits, x, reply)))
  {
    SubmitExactly(b, a, limits, x, reply);
    if Placeable(b, a, limits) {
      PlacedCarries(b, a, x, reply, Submit(b, a, limits, x, reply));
    } else {
      NothingCarries(b.db);
    }
  }

  lemma {:induction false} NothingCarries(db: Db)
    ensures OnlyCarried(db, db)
  {
  }

  lemma {:induction false} PlacedCarries(b: Books, a: Approval, x: OrderId, reply: Reply, b': Books)
    requires Placed(b, a, x, reply, b') && x !in b.db.orders
    ensures AllCarried(b.db, b'.db)
  {
  }

  lemma {:induction false} CarriedRowFrom(steps: seq<Step>, n: nat, x: OrderId, row: OrderRecord, row': OrderRecord,
      limits: Limits)
    requires HasOrigin(steps, n, x, row, limits) && Carried(row, row')
    ensures HasOrigin(steps, n + 1, x, row', limits)
  {
    var k :| 0 <= k < n && RowFrom(steps, k, x, row, limits);
    assert RowFrom(steps, k, x, row', limits);
  }

  lemma {:induction false} CarriedIntentFrom(steps: seq<Step>, n: nat, row: OrderIntent, row': OrderIntent,
      limits: Limits)
    requires HasIntentOrigin(steps, n, row, limits) && row'.order == row.order && row'.hmac == row.hmac
    ensures HasIntentOrigin(steps, n + 1, row', limits)
  {
    var k :| 0 <= k < n && IntentFrom(steps, k, row, limits);
    assert IntentFrom(steps, k, row', limits);
  }

  ghost predicate AllOriginate(steps: seq<Step>, n: nat, limits: Limits)
    requires n <= |steps|
  {
    && (forall x :: x in At(steps, n, limits).db.orders ==>
          HasOrigin(steps, n, x, At(steps, n, limits).db.orders[x], limits))
    && (forall i :: 0 <= i < |At(steps, n, limits).db.intents| ==>
          HasIntentOrigin(steps, n, At(steps, n, limits).db.intents[i], limits))
  }

  lemma {:induction false} CarriedOriginate(steps: seq<Step>, n: nat, limits: Limits)
    requires n < |steps| && AllOriginate(steps, n, limits)
    requires OnlyCarried(At(steps, n, limits).db, At(steps, n + 1, limits).db)
    ensures AllOriginate(steps, n + 1, limits)
  {
    var db, db' := At(steps, n, limits).db, At(steps, n + 1, limits).db;
    forall x | x in db'.orders ensures HasOrigin(steps, n + 1, x, db'.orders[x], limits) {
      assert x in db.orders.Keys;
      CarriedRowFrom(steps, n, x, db.orders[x], db'.orders[x], limits);
    }
    forall i | 0 <= i < |db'.intents| ensures HasIntentOrigin(steps, n + 1, db'.intents[i], limits) {
      CarriedIntentFrom(steps, n, db.intents[i], db'.intents[i], limits);
    }
  }

  lemma {:induction false} PlacedOriginate(steps: seq<Step>, n: nat, a: Approval, x: OrderId, reply: Reply,
      limits: Limits)
    requires n < |steps| && AllOriginate(steps, n, limits) && steps[n] == DoSubmit(a, x, reply)
    requires Placeable(At(steps, n, limits), a, limits) && x !in At(steps, n, limits).db.orders
    requires Placed(At(steps, n, limits), a, x, reply, At(steps, n + 1, limits))
    ensures AllOriginate(steps, n + 1, limits)
  {
    var db, db' := At(steps, n, limits).db, At(steps, n + 1, limits).db;
    forall y | y in db'.orders ensures HasOrigin(steps, n + 1, y, db'.orders[y], limits) {
      if y == x {
        assert RowFrom(steps, n, x, db'.orders[x], limits);
      } else {
        CarriedRowFrom(steps, n, y, db.orders[y], db'.orders[y], limits);
      }
    }
    forall i | 0 <= i < |db'.intents| ensures HasIntentOrigin(steps, n + 1, db'.intents[i], limits) {
      if i == |db.intents| {
        assert IntentFrom(steps, n, db'.intents[i], limits);
      } else {
        CarriedIntentFrom(steps, n, db.intents[i], db'.intents[i], limits);
      }
    }
  }

  /**
   Main result: in every state of a fresh run each order row and each intent row comes from a submit of an authentic,
   approved approval made while reconciled, in mode normal and within the limits, carries that approval's columns,
   and has the status and the exchange id the venue's answer called for.
   */
  lemma {:induction false} RowsComeFromApprovals(steps: seq<Step>, n: nat, keyOf: string -> string, limits: Limits)
    requires EngineRunOk(FRESH, steps, keyOf, limits) && n <= |steps|
    ensures AllOriginate(steps, n, limits)
  {
    if n > 0 {
      RowsComeFromApprovals(steps, n - 1, keyOf, limits);
      OneStep(steps, n - 1, keyOf, limits);
      var b, s := At(steps, n - 1, limits), steps[n - 1];
      if s.DoSubmit? {
        PlannedIsSafe(b, s.a, keyOf);
        SubmitCarries(b, s.a, limits, s.id, s.reply);
        if !OnlyCarried(b.db, At(steps, n, limits).db) {
          PlacedOriginate(steps, n - 1, s.a, s.id, s.reply, limits);
          return;
        }
      } else {
        StepCarries(b, s, keyOf, limits);
      }
      CarriedOriginate(steps, n - 1, limits);
    }
  }

  ghost predicate PlacedAt(steps: seq<Step>, k: int, x: OrderId, limits: Limits)
  {
    && 0 <= k < |steps| && steps[k].DoSubmit? && steps[k].id == x
    && Placeable(At(steps, k, limits), steps[k].a, limits)
  }

  lemma {:induction false} SubmitLeavesRow(steps: seq<Step>, n: nat, keyOf: string -> string, limits: Limits)
    requires EngineRunOk(FRESH, steps, keyOf, limits) && n < |steps| && steps[n].DoSubmit?
    requires Placeable(At(steps, n, limits), steps[n].a, limits)
    ensures steps[n].id in At(steps, n + 1, limits).db.orders
  {
    OneStep(steps, n, keyOf, limits);
    PlannedIsSafe(At(steps, n, limits), steps[n].a, keyOf);
    SubmitExactly(At(steps, n, limits), steps[n].a, limits, steps[n].id, steps[n].reply);
  }

  lemma {:induction false} RowStays(steps: seq<Step>, n: nat, x: OrderId, keyOf: string -> string, limits: Limits)
    requires EngineRunOk(FRESH, steps, keyOf, limits) && n < |steps| && x in At(steps, n, limits).db.orders
    ensures x in At(steps, n + 1, limits).db.orders
  {
    OneStep(steps, n, keyOf, limits);
    var b, s := At(steps, n, limits), steps[n];
    if s.DoSubmit? {
      PlannedIsSafe(b, s.a, keyOf);
      SubmitCarries(b, s.a, limits, s.id, s.reply);
    } else {
      StepCarries(b, s, keyOf, limits);
    }
  }

  /** Main result: over every fresh run an id has an order row if and only if a placeable submit used it. */
  lemma {:induction false} PlacedExactlyWhen(steps: seq<Step>, n: nat, x: OrderId, keyOf: string -> string,
      limits: Limits)
    requires EngineRunOk(FRESH, steps, keyOf, limits) && n <= |steps|
    ensures x in At(steps, n, limits).db.orders <==> exists k :: 0 <= k < n && PlacedAt(steps, k, x, limits)
  {
    RowsComeFromApprovals(steps, n, keyOf, limits);
    if x in At(steps, n, limits).db.orders {
      var k :| 0 <= k < n && RowFrom(steps, k, x, At(steps, n, limits).db.orders[x], limits);
      assert PlacedAt(steps, k, x, limits);
    } else if k :| 0 <= k < n && PlacedAt(steps, k, x, limits) {
      PlacedRowStays(steps, k, n, x, keyOf, limits);
      assert false;
    }
  }

  lemma {:induction false} PlacedRowStays(steps: seq<Step>, k: nat, n: nat, x: OrderId, keyOf: string -> string,
      limits: Limits)
    requires EngineRunOk(FRESH, steps, keyOf, limits) && k < n <= |steps| && PlacedAt(steps, k, x, limits)
    ensures x in At(steps, n, limits).db.orders
  {
    if k == n - 1 {
      SubmitLeavesRow(steps, k, keyOf, limits);
    } else {
      PlacedRowStays(steps, k, n - 1, x, keyOf, limits);
      RowStays(steps, n - 1, x, keyOf, limits);
    }
  }
}
