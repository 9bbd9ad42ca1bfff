/**
 The execution engine's two books: the orders table with the engine's in-memory view of it,
 and the intent ledger. Every operation is given as the list of database writes it makes,
 in order, together with what it does to memory.
 */
module Books {
  import opened Modes
  import opened Orders
  import opened Uuids
  import opened Intents
  import opened Exposure
  import opened IntentLedger

  type OrderId = nat
  type ExchangeId = nat

  /** What the engine's record holds before the venue has answered (an empty id). */
  const NO_EXCHANGE_ID: ExchangeId := 0

  datatype OrderRecord = OrderRecord(
    order: ProposedOrder, hmac: seq<int>, policyHash: string, approvedAt: int,
    exchangeId: Option<ExchangeId>, status: OrderStatus, filled: int, avgFillPrice: int)

  datatype FillRow = FillRow(orderId: OrderId, quantity: int, price: int)

  datatype Db = Db(intents: seq<OrderIntent>, orders: map<OrderId, OrderRecord>, fills: seq<FillRow>)

  // ---------- database writes ----------

  datatype Write =
    | InsertIntent(row: OrderIntent)
    | InsertOrder(id: OrderId, rec: OrderRecord)
    | UpdateOrder(id: OrderId, rec: OrderRecord)
    | UpdateIntent(intent: IntentId, status: IntentStatus)
    | InsertFill(fill: FillRow)

  /** The columns UPDATE execution.orders sets. */
  function WriteBack(row: OrderRecord, rec: OrderRecord): OrderRecord
  {
    row.(status := rec.status, filled := rec.filled, avgFillPrice := rec.avgFillPrice, exchangeId := rec.exchangeId)
  }

  function Written(db: Db, w: Write): Db
  {
    match w
    case InsertIntent(row) => db.(intents := db.intents + [row])
    case InsertOrder(id, rec) => db.(orders := db.orders[id := rec])
    case UpdateOrder(id, rec) =>
      if id in db.orders then db.(orders := db.orders[id := WriteBack(db.orders[id], rec)]) else db
    case UpdateIntent(i, s) => db.(intents := WithStatus(db.intents, i, s))
    case InsertFill(f) => db.(fills := db.fills + [f])
  }

  function AllWritten(db: Db, ws: seq<Write>): Db
    decreases |ws|
  {
    if ws == [] then db else AllWritten(Written(db, ws[0]), ws[1..])
  }

  // ---------- the engine ----------

  datatype Books = Books(
    db: Db, open: map<OrderId, OrderRecord>, intentOf: map<OrderId, IntentId>,
    mode: Mode, reconciled: bool, illegal: nat)

  const FRESH := Books(Db([], map[], []), map[], map[], Normal, false, 0)

  datatype Decision = Approved | Denied | Escalated

  /** An approval as the engine sees it; `authentic` is the outcome of the signature check. */
  datatype Approval = Approval(
    order: ProposedOrder, decision: Decision, hmac: seq<int>, policyHash: string, decidedAt: int, authentic: bool)

  datatype Reply = VenueError | VenueRejected(rejectedId: ExchangeId) | VenueAccepted(acceptedId: ExchangeId)

  datatype VenueFill = VenueFill(exchangeId: ExchangeId, quantity: int, price: int)

  /** The text stored in the unique idempotency_key column. */
  function FullKey(o: ProposedOrder): string
  {
    o.trace + ":" + IdempotencyKey(o)
  }

  predicate KeyTaken(orders: map<OrderId, OrderRecord>, o: ProposedOrder)
  {
    exists x :: x in orders && FullKey(orders[x].order) == FullKey(o)
  }

  /** INSERT INTO execution.orders: the trace column takes UUIDs in any spelling, and the key column is unique. */
  predicate InsertAccepted(orders: map<OrderId, OrderRecord>, o: ProposedOrder)
  {
    ColumnTakes(o.trace) && !KeyTaken(orders, o)
  }

  predicate GatesPass(b: Books, a: Approval)
  {
    a.authentic && a.decision == Approved && b.reconciled && b.mode == Normal
  }

  function NewRecord(a: Approval): OrderRecord
  {
    OrderRecord(a.order, a.hmac, a.policyHash, a.decidedAt, Some(NO_EXCHANGE_ID), Pending, 0, 0)
  }

  /** The ledger row the submit works with, None when the ledger refuses. */
  ghost function IntentFor(b: Books, a: Approval, limits: Limits): (r: Option<IntentId>)
    ensures r.Some? ==> r.value <= |b.db.intents|
  {
    Appended(b.db.intents, NewIntentFromApproval(a.order, a.hmac), limits)
  }

  ghost predicate ReachesVenue(b: Books, a: Approval, limits: Limits)
  {
    GatesPass(b, a) && IntentFor(b, a, limits).Some? && InsertAccepted(b.db.orders, a.order)
  }

  /** transitionOrder: an illegal move is only logged. */
  function Transitioned(rec: OrderRecord, s: OrderStatus): OrderRecord
  {
    if ValidTransition(rec.status, s) then rec.(status := s) else rec
  }

  function TransitionWrites(id: OrderId, rec: OrderRecord, s: OrderStatus): seq<Write>
  {
    if ValidTransition(rec.status, s) then [UpdateOrder(id, rec.(status := s))] else []
  }

  function Illegal(rec: OrderRecord, s: OrderStatus): nat
  {
    if ValidTransition(rec.status, s) then 0 else 1
  }

  /** The record after the venue has answered, before the status move. */
  function Answered(a: Approval, reply: Reply): OrderRecord
  {
    match reply
    case VenueError => NewRecord(a)
    case VenueRejected(e) => NewRecord(a).(exchangeId := Some(e))
    case VenueAccepted(e) => NewRecord(a).(exchangeId := Some(e))
  }

  function ReplyStatus(reply: Reply): OrderStatus
  {
    match reply
    case VenueError => Failed
    case VenueRejected(_) => Rejected
    case VenueAccepted(_) => Open
  }

  function ReplyIntentStatus(reply: Reply): IntentStatus
  {
    if reply.VenueAccepted? then IOpen else IRejected
  }

  /** The writes around the venue's answer: the order row, its status, its intent's status. */
  function PlaceWrites(a: Approval, id: OrderId, reply: Reply, i: IntentId): seq<Write>
  {
    [InsertOrder(id, NewRecord(a).(exchangeId := None))]
    + (TransitionWrites(id, Answered(a, reply), ReplyStatus(reply)) + [UpdateIntent(i, ReplyIntentStatus(reply))])
  }

  ghost function SubmitWrites(b: Books, a: Approval, limits: Limits, id: OrderId, reply: Reply): seq<Write>
  {
    if !GatesPass(b, a) || IntentFor(b, a, limits).None? then []
    else
      var i := IntentFor(b, a, limits).value;
      var first := if i == |b.db.intents| then [InsertIntent(NewIntentFromApproval(a.order, a.hmac))] else [];
      if !InsertAccepted(b.db.orders, a.order) then first else first + PlaceWrites(a, id, reply, i)
  }

  ghost function Submit(b: Books, a: Approval, limits: Limits, id: OrderId, reply: Reply): Books
  {
    var db := AllWritten(b.db, SubmitWrites(b, a, limits, id, reply));
    if ReachesVenue(b, a, limits) then
      var rec := Answered(a, reply);
      var counted := b.(db := db, illegal := b.illegal + Illegal(rec, ReplyStatus(reply)));
      if reply.VenueAccepted? then
        counted.(open := b.open[id := Transitioned(rec, Open)],
                 intentOf := b.intentOf[id := IntentFor(b, a, limits).value])
      else counted
    else b.(db := db)
  }

  function IntentWrites(b: Books, id: OrderId, s: IntentStatus): seq<Write>
  {
    if id in b.intentOf then [UpdateIntent(b.intentOf[id], s)] else []
  }

  function CancelWrites(b: Books, id: OrderId): seq<Write>
    requires id in b.open
  {
    TransitionWrites(id, b.open[id], Cancelled) + IntentWrites(b, id, ICancelled)
  }

  /** CancelOrder; nothing happens when the order is not open or the venue refuses. */
  function Cancel(b: Books, id: OrderId, venueCancels: bool): Books
  {
    if id !in b.open || !venueCancels then b
    else b.(db := AllWritten(b.db, CancelWrites(b, id)), open := b.open - {id}, intentOf := b.intentOf - {id},
            illegal := b.illegal + Illegal(b.open[id], Cancelled))
  }

  /** The orders ks are closed one after the other. */
  function CancelEach(b: Books, ks: seq<OrderId>): Books
    decreases |ks|
  {
    if ks == [] then b else CancelEach(Cancel(b, ks[0], true), ks[1..])
  }

  /** The open order a fill is matched to, if any: some open order with the fill's exchange id. */
  ghost predicate Matches(b: Books, f: VenueFill, hit: Option<OrderId>)
  {
    match hit
    case Some(x) => x in b.open && b.open[x].exchangeId == Some(f.exchangeId)
    case None => forall x :: x in b.open ==> b.open[x].exchangeId != Some(f.exchangeId)
  }

  /** The fills table accepts positive quantities and prices only. */
  predicate FillAccepted(f: VenueFill) { f.quantity > 0 && f.price > 0 }

  function FilledRecord(rec: OrderRecord, f: VenueFill): OrderRecord
  {
    rec.(filled := rec.filled + f.quantity, avgFillPrice := f.price)
  }

  predicate Completes(rec: OrderRecord, f: VenueFill) { rec.filled + f.quantity >= rec.order.quantity }

  function FillWrites(b: Books, id: OrderId, f: VenueFill): seq<Write>
    requires id in b.open
  {
    var rec := FilledRecord(b.open[id], f);
    [InsertFill(FillRow(id, f.quantity, f.price))] +
    if Completes(b.open[id], f) then TransitionWrites(id, rec, Filled) + IntentWrites(b, id, IFilled)
    else TransitionWrites(id, rec, PartiallyFilled)
  }

  function ProcessFill(b: Books, f: VenueFill, hit: Option<OrderId>): Books
  {
    if hit.None? || hit.value !in b.open || !FillAccepted(f) then b
    else
      var id := hit.value;
      var rec := FilledRecord(b.open[id], f);
      var db := AllWritten(b.db, FillWrites(b, id, f));
      if Completes(b.open[id], f) then
        b.(db := db, open := b.open - {id}, intentOf := b.intentOf - {id}, illegal := b.illegal + Illegal(rec, Filled))
      else
        b.(db := db, open := b.open[id := Transitioned(rec, PartiallyFilled)],
           illegal := b.illegal + Illegal(rec, PartiallyFilled))
  }

  // ---------- restart ----------

  /** A row can be scanned unless its exchange id is NULL; the average price is not a loaded column. */
  predicate Loadable(db: Db)
  {
    forall x :: x in db.orders && !db.orders[x].status.IsTerminal() ==> db.orders[x].exchangeId.Some?
  }

  /** A record on the loaded columns. */
  function LoadedRecord(row: OrderRecord): OrderRecord { row.(avgFillPrice := 0) }

  /** A row as it is scanned: the trace column gives back its own spelling. */
  function ReadBack(row: OrderRecord): OrderRecord
  {
    LoadedRecord(row).(order := row.order.(trace := Column(row.order.trace)))
  }

  function LoadedOrders(db: Db): map<OrderId, OrderRecord>
  {
    map x | x in db.orders && !db.orders[x].status.IsTerminal() :: ReadBack(db.orders[x])
  }

  ghost function LoadedIntents(db: Db): map<OrderId, IntentId>
  {
    map x | x in LoadedOrders(db) && HasTrace(db.intents, Column(db.orders[x].order.trace))
      :: Lookup(db.intents, Column(db.orders[x].order.trace)).value
  }

  /** A new engine over the same database, after LoadOpenOrders has succeeded. */
  ghost function Restarted(db: Db, illegal: nat): Books
  {
    Books(db, LoadedOrders(db), LoadedIntents(db), Normal, false, illegal)
  }
}
