/**
 Exchange, execution engine and risk positions together: what reconciliation compares.
 The poller may hand a fill over again.
 */
module Pipeline {
  import opened Modes
  import opened Orders
  import opened Uuids
  import opened IntentLedger
  import opened Intents
  import opened Exposure
  import opened Sums
  import opened Books
  import opened BooksAgree
  import opened EngineRuns
  import X = Exchange
  import opened RiskPositions
  import opened Recon
  import opened Fates

  /**
   `flying` holds the orders the venue has acknowledged and the engine has not yet put among its open orders. What the
   engine still writes for such an order is in `books` already: no other operation reads it. `again` lists the fills
   that were applied a further time.
   */
  datatype Pipe = Pipe(
    venue: X.Venue, books: Books, risk: Positions, fates: seq<Fate>, flying: set<OrderId>, again: seq<X.XFill>)

  function NewPipe(balance: int): Pipe { Pipe(X.NewVenue(balance), FRESH, NO_POSITIONS, [], {}, []) }

  datatype Move =
    | Place(a: Approval, id: OrderId, rejected: bool)
    | Land(landed: OrderId)
    | Fire(attempt: nat, draw: X.Draw, at: int)
    | Hand(k: nat, hit: Option<OrderId>)
    | Withdraw(target: OrderId)
    | WithdrawAll(visited: seq<OrderId>)
    | SetMode(mode: Mode)
    | SetReconciled(value: bool)

  function AccountOf(o: ProposedOrder): Account { Account(o.venue, o.market, o.strategy) }

  function EngineFill(f: X.XFill): VenueFill { VenueFill(f.id, f.quantity, f.price) }

  /** The paper adapter's answer for the exchange's next order id. */
  function PaperReply(v: X.Venue, rejected: bool): Reply
  {
    if rejected then VenueRejected(v.nextId + 1) else VenueAccepted(v.nextId + 1)
  }

  function OnVenue(v: X.Venue, a: Approval, id: OrderId, rejected: bool): X.Venue
  {
    X.Submit(v, id, a.order.market, a.order.side, a.order.quantity, a.order.price, rejected)
  }

  ghost function PipeNext(p: Pipe, m: Move, limits: Limits): Pipe
  {
    match m
    case Place(a, id, rejected) => AfterPlace(p, a, id, rejected, limits)
    case Land(x) => p.(flying := p.flying - {x})
    case Fire(k, draw, at) => AfterFire(p, k, draw, at)
    case Hand(k, hit) => if k < |p.venue.fills| && k < |p.fates| then Handed(p, k, hit) else p
    case Withdraw(x) => AfterWithdraw(p, x)
    case WithdrawAll(ks) => p.(venue := X.CancelAll(p.venue), books := CancelEach(p.books, ks))
    case SetMode(mode) => p.(books := p.books.(mode := mode))
    case SetReconciled(v) => p.(books := p.books.(reconciled := v))
  }

  ghost function AfterPlace(p: Pipe, a: Approval, id: OrderId, rejected: bool, limits: Limits): Pipe
  {
    var books := Submit(p.books, a, limits, id, PaperReply(p.venue, rejected));
    if ReachesVenue(p.books, a, limits) then
      p.(venue := OnVenue(p.venue, a, id, rejected), books := books,
         flying := if rejected then p.flying else p.flying + {id})
    else p.(books := books)
  }

  function AfterFire(p: Pipe, k: nat, draw: X.Draw, at: int): Pipe
  {
    var venue := X.Next(p.venue, X.DoAttempt(k, draw, at));
    p.(venue := venue, fates := if |venue.fills| > |p.venue.fills| then p.fates + [Unpolled] else p.fates)
  }

  function AfterWithdraw(p: Pipe, x: OrderId): Pipe
  {
    if x !in p.books.open || x in p.flying || p.books.open[x].exchangeId.None? then p
    else
      var e := p.books.open[x].exchangeId.value;
      p.(venue := X.Cancel(p.venue, e), books := Cancel(p.books, x, X.CanCancel(p.venue, e)))
  }

  /** The open order the engine finds for a fill; an order in flight is not among them. */
  ghost predicate Finds(p: Pipe, e: ExchangeId, hit: Option<OrderId>)
  {
    match hit
    case Some(x) => x in p.books.open && x !in p.flying && p.books.open[x].exchangeId == Some(e)
    case None => forall x :: x in p.books.open && p.books.open[x].exchangeId == Some(e) ==> x in p.flying
  }

  ghost predicate InFlight(p: Pipe, e: ExchangeId)
  {
    exists x :: x in p.books.open && p.books.open[x].exchangeId == Some(e) && x in p.flying
  }

  /** The engine finds an open order for fill k and takes it. */
  predicate Takes(p: Pipe, k: nat, hit: Option<OrderId>)
    requires k < |p.venue.fills|
  {
    hit.Some? && hit.value in p.books.open && FillAccepted(EngineFill(p.venue.fills[k]))
  }

  /**
   The engine processes fill k: applied and reported to risk, once more if it was before; or, the first time, lost for
   want of an open order.
   */
  ghost function Handed(p: Pipe, k: nat, hit: Option<OrderId>): Pipe
    requires k < |p.venue.fills| && k < |p.fates|
  {
    if Takes(p, k, hit) then Taken(p, k, hit.value)
    else if p.fates[k] == Unpolled then
      p.(fates := p.fates[k := if InFlight(p, p.venue.fills[k].id) then Missed else Dropped])
    else p
  }

  function Taken(p: Pipe, k: nat, x: OrderId): Pipe
    requires k < |p.venue.fills| && k < |p.fates| && x in p.books.open
  {
    var f, o := p.venue.fills[k], p.books.open[x].order;
    p.(books := ProcessFill(p.books, EngineFill(f), Some(x)),
       risk := ReportFill(p.risk, AccountOf(o), o.side, f.quantity, f.price),
       fates := p.fates[k := Applied],
       again := if p.fates[k] == Applied then p.again + [f] else p.again)
  }

  /** Fresh order ids, planned traces and ids without the separator. */
  ghost predicate MoveOk(p: Pipe, m: Move, keyOf: string -> string)
  {
    match m
    case Place(a, id, _) => StepOk(p.books, DoSubmit(a, id, VenueError), keyOf) && Separable(AccountOf(a.order))
    case Fire(k, draw, at) => X.StepOk(p.venue, X.DoAttempt(k, draw, at))
    case Hand(k, hit) =>
      k < |p.venue.fills| && k < |p.fates| && Finds(p, p.venue.fills[k].id, hit)
    case WithdrawAll(ks) => Lists(ks, p.books.open.Keys - p.flying)
    case _ => true
  }

  ghost predicate PipeRunOk(p: Pipe, ms: seq<Move>, keyOf: string -> string, limits: Limits)
    decreases |ms|
  {
    ms == [] || (MoveOk(p, ms[0], keyOf) && PipeRunOk(PipeNext(p, ms[0], limits), ms[1..], keyOf, limits))
  }

  ghost function PipeAfter(p: Pipe, ms: seq<Move>, limits: Limits): Pipe
    decreases |ms|
  {
    if ms == [] then p else PipeAfter(PipeNext(p, ms[0], limits), ms[1..], limits)
  }

  // ---------- the invariant ----------

  /** An exchange order and the engine row it was placed for. */
  ghost predicate Twins(o: X.XOrder, e: ExchangeId, row: OrderRecord)
  {
    && row.exchangeId == Some(e)
    && row.order.market == o.market && row.order.side == o.side && row.order.quantity == o.quantity
    && o.quantity > 0 && o.price > 0 && Separable(AccountOf(row.order))
    && (row.status == Open || row.status == PartiallyFilled || row.status == Cancelled
        || (row.status == Filled && row.filled >= row.order.quantity)
        || (row.status == Rejected && o.status == X.XRejected))
  }

  /** Every exchange order was placed for the engine row it names as its client. */
  ghost predicate Placed(venue: X.Venue, orders: map<OrderId, OrderRecord>)
  {
    forall e :: e in venue.orders ==>
          venue.orders[e].client in orders && Twins(venue.orders[e], e, orders[venue.orders[e].client])
  }

  /** Every open order is on the exchange. */
  ghost predicate OnExchange(venue: X.Venue, open: map<OrderId, OrderRecord>)
  {
    forall x :: x in open ==>
      open[x].exchangeId.Some? && open[x].exchangeId.value in venue.orders
        && venue.orders[open[x].exchangeId.value].client == x
  }

  /** The quantity of an exchange order's fills that was applied a further time. */
  ghost function Again(p: Pipe, e: ExchangeId): int { SumBy(p.again, X.QuantityOf(e)) }

  /** The engine's filled quantity is the applied fills', each as often as it was applied. */
  ghost predicate FillsCounted(p: Pipe)
  {
    |p.fates| == |p.venue.fills| &&
    forall e :: e in p.venue.orders && p.venue.orders[e].client in p.books.db.orders ==>
      p.books.db.orders[p.venue.orders[e].client].filled
      == FateSum(p.venue.fills, p.fates, X.QuantityOf(e), Applied) + Again(p, e)
  }

  ghost predicate RiskCounted(p: Pipe)
  {
    |p.fates| == |p.venue.fills| && InSync(p.risk) &&
    forall m: string ::
      Net(p.risk, m) == FateSum(p.venue.fills, p.fates, X.NetIn(m), Applied) + SumBy(p.again, X.NetIn(m))
  }

  /** Fills are dropped only for orders the engine has cancelled, or counted as filled through fills applied again. */
  ghost predicate DropsExplained(p: Pipe)
  {
    forall k :: 0 <= k < |p.venue.fills| && k < |p.fates| && p.fates[k] == Dropped ==>
      Explained(p.venue, p.books.db.orders, p.again, p.venue.fills[k].id)
  }

  ghost predicate CancelledRow(venue: X.Venue, orders: map<OrderId, OrderRecord>, e: ExchangeId)
  {
    e in venue.orders && venue.orders[e].client in orders && orders[venue.orders[e].client].status == Cancelled
  }

  ghost predicate OverfilledRow(venue: X.Venue, orders: map<OrderId, OrderRecord>, again: seq<X.XFill>, e: ExchangeId)
  {
    && e in venue.orders && venue.orders[e].client in orders && orders[venue.orders[e].client].status == Filled
    && SumBy(again, X.QuantityOf(e)) > 0
  }

  ghost predicate Explained(venue: X.Venue, orders: map<OrderId, OrderRecord>, again: seq<X.XFill>, e: ExchangeId)
  {
    CancelledRow(venue, orders, e) || OverfilledRow(venue, orders, again, e)
  }

  /** What was applied again are fills of exchange orders. */
  ghost predicate AgainKnown(p: Pipe)
  {
    forall i :: 0 <= i < |p.again| ==> p.again[i].id in p.venue.orders
  }

  ghost predicate EngineOk(b: Books, keyOf: string -> string)
  {
    Agree(b) && KeysPlanned(b.db, keyOf)
  }

  ghost predicate JointOk(p: Pipe)
  {
    && Placed(p.venue, p.books.db.orders) && OnExchange(p.venue, p.books.open)
    && FillsCounted(p) && RiskCounted(p) && DropsExplained(p) && AgainKnown(p)
  }

  ghost predicate PipeOk(p: Pipe, keyOf: string -> string, initial: int)
  {
    X.VenueOk(p.venue, initial) && EngineOk(p.books, keyOf) && JointOk(p)
  }

  // ---------- what engine operations do to a row ----------

  lemma {:induction false} CancelChangesRow(b: Books, x: OrderId)
    requires OpenAt(b, x)
    ensures var row := b.db.orders[x]; var b' := Cancel(b, x, true);
      && b'.db.orders == b.db.orders[x := row.(status := Cancelled, avgFillPrice := b.open[x].avgFillPrice)]
      && b'.open == b.open - {x}
  {
    CloseWrites(b.db, x, b.open[x], Cancelled, b.intentOf[x], ICancelled);
    assert LoadedRecord(b.open[x]).filled == LoadedRecord(b.db.orders[x]).filled;
    assert LoadedRecord(b.open[x]).exchangeId == LoadedRecord(b.db.orders[x]).exchangeId;
  }

  lemma {:induction false} FillChangesRow(b: Books, x: OrderId, f: VenueFill)
    requires OpenAt(b, x) && FillAccepted(f)
    ensures var row, b' := b.db.orders[x], ProcessFill(b, f, Some(x));
      var done := row.filled + f.quantity >= row.order.quantity;
      && b'.db.orders == b.db.orders[x := row.(filled := row.filled + f.quantity, avgFillPrice := f.price,
                                               status := if done then Filled else PartiallyFilled)]
      && b'.open.Keys <= b.open.Keys
      && (forall y :: y in b'.open ==> b'.open[y].exchangeId == b.open[y].exchangeId)
  {
    assert LoadedRecord(b.open[x]).filled == LoadedRecord(b.db.orders[x]).filled;
    assert LoadedRecord(b.open[x]).exchangeId == LoadedRecord(b.db.orders[x]).exchangeId;
    var rec, first := FilledRecord(b.open[x], f), InsertFill(FillRow(x, f.quantity, f.price));
    if Completes(b.open[x], f) {
      MoreWrites(b.db, first, TransitionWrites(x, rec, Filled) + [UpdateIntent(b.intentOf[x], IFilled)]);
      assert FillWrites(b, x, f)
        == [first] + (TransitionWrites(x, rec, Filled) + [UpdateIntent(b.intentOf[x], IFilled)]);
      CloseWrites(Written(b.db, first), x, rec, Filled, b.intentOf[x], IFilled);
    } else {
      var w := UpdateOrder(x, rec.(status := PartiallyFilled));
      assert FillWrites(b, x, f) == [first] + [w];
      MoreWrites(b.db, first, [w]);
      OneWrite(Written(b.db, first), w);
    }
  }

  // ---------- exchange statuses ----------

  /** Cancels on the exchange do not touch what the engine has already rejected. */
  ghost predicate RejectsStay(p: Pipe, v': X.Venue)
  {
    forall e :: e in p.venue.orders && e in v'.orders && RejectedRow(p, e) ==>
          v'.orders[e].status == p.venue.orders[e].status
  }

  ghost predicate RejectedRow(p: Pipe, e: ExchangeId)
    requires e in p.venue.orders
  {
    p.venue.orders[e].client in p.books.db.orders && p.books.db.orders[p.venue.orders[e].client].status == Rejected
  }

  lemma {:induction false} VenueStatusKeepsPlaced(p: Pipe, v': X.Venue)
    requires Placed(p.venue, p.books.db.orders) && OnExchange(p.venue, p.books.open)
    requires X.OnlyCancels(p.venue, v') && RejectsStay(p, v')
    ensures Placed(v', p.books.db.orders) && OnExchange(v', p.books.open)
  {
    forall e | e in v'.orders
      ensures v'.orders[e].client in p.books.db.orders
              && Twins(v'.orders[e], e, p.books.db.orders[v'.orders[e].client]) {
      assert v'.orders[e].client == p.venue.orders[e].client;
      assert Twins(p.venue.orders[e], e, p.books.db.orders[p.venue.orders[e].client]);
    }
  }

  lemma {:induction false} VenueStatusKeepsCounts(p: Pipe, v': X.Venue)
    requires FillsCounted(p) && RiskCounted(p) && DropsExplained(p) && X.OnlyCancels(p.venue, v')
    ensures FillsCounted(p.(venue := v')) && RiskCounted(p.(venue := v')) && DropsExplained(p.(venue := v'))
  {
    var p' := p.(venue := v');
    forall e | e in v'.orders && v'.orders[e].client in p.books.db.orders
      ensures p.books.db.orders[v'.orders[e].client].filled
           == FateSum(v'.fills, p.fates, X.QuantityOf(e), Applied) + Again(p, e) {
      assert v'.orders[e].client == p.venue.orders[e].client;
    }
    forall k | 0 <= k < |v'.fills| && k < |p.fates| && p.fates[k] == Dropped
      ensures Explained(v', p.books.db.orders, p.again, v'.fills[k].id) {
      assert Explained(p.venue, p.books.db.orders, p.again, p.venue.fills[k].id);
    }
  }

  lemma {:induction false} VenueStatusKeeps(p: Pipe, v': X.Venue)
    requires JointOk(p) && X.OnlyCancels(p.venue, v') && RejectsStay(p, v')
    ensures JointOk(p.(venue := v'))
  {
    VenueStatusKeepsPlaced(p, v');
    VenueStatusKeepsCounts(p, v');
  }

  // ---------- one engine row changes ----------

  /** Row x changes without changing whom it belongs to. */
  ghost predicate RowChanged(orders: map<OrderId, OrderRecord>, x: OrderId, orders': map<OrderId, OrderRecord>)
  {
    && x in orders && x in orders' && orders' == orders[x := orders'[x]]
    && orders'[x].exchangeId == orders[x].exchangeId && orders'[x].order == orders[x].order
    && (orders'[x].status == Cancelled || orders'[x].status == PartiallyFilled
        || (orders'[x].status == Filled && orders'[x].filled >= orders'[x].order.quantity))
  }

  lemma {:induction false} RowChangeKeepsPlaced(v: X.Venue, orders: map<OrderId, OrderRecord>, x: OrderId,
      orders': map<OrderId, OrderRecord>)
    requires Placed(v, orders) && RowChanged(orders, x, orders')
    ensures Placed(v, orders')
  {
    forall e | e in v.orders
      ensures v.orders[e].client in orders' && Twins(v.orders[e], e, orders'[v.orders[e].client]) {
      assert Twins(v.orders[e], e, orders[v.orders[e].client]);
    }
  }

  lemma {:induction false} CancelKeepsEngine(b: Books, x: OrderId, keyOf: string -> string)
    requires EngineOk(b, keyOf) && x in b.open
    ensures EngineOk(Cancel(b, x, true), keyOf) && OpenAt(b, x)
  {
    CancelKeeps(b, x, true);
    CancelKeepsKeys(b, x, true, keyOf);
    OpenFacts(b, x);
  }

  lemma {:induction false} LocalCancelKeepsJoint(p: Pipe, x: OrderId)
    requires JointOk(p) && OpenAt(p.books, x)
    ensures JointOk(p.(books := Cancel(p.books, x, true)))
  {
    var b' := Cancel(p.books, x, true);
    CancelChangesRow(p.books, x);
    RowChangeKeepsPlaced(p.venue, p.books.db.orders, x, b'.db.orders);
    LocalCancelKeepsCounts(p, x, b');
  }

  lemma {:induction false} LocalCancelKeeps(p: Pipe, x: OrderId, keyOf: string -> string)
    requires EngineOk(p.books, keyOf) && JointOk(p) && x in p.books.open
    ensures EngineOk(Cancel(p.books, x, true), keyOf) && JointOk(p.(books := Cancel(p.books, x, true)))
  {
    CancelKeepsEngine(p.books, x, keyOf);
    LocalCancelKeepsJoint(p, x);
  }

  lemma {:induction false} LocalCancelKeepsCounts(p: Pipe, x: OrderId, b': Books)
    requires FillsCounted(p) && DropsExplained(p) && x in p.books.db.orders && x in b'.db.orders
    requires b'.db.orders == p.books.db.orders[x := b'.db.orders[x]]
    requires b'.db.orders[x].filled == p.books.db.orders[x].filled && b'.db.orders[x].status == Cancelled
    ensures FillsCounted(p.(books := b')) && DropsExplained(p.(books := b'))
  {
    forall k | 0 <= k < |p.venue.fills| && k < |p.fates| && p.fates[k] == Dropped
      ensures Explained(p.venue, b'.db.orders, p.again, p.venue.fills[k].id) {
      assert Explained(p.venue, p.books.db.orders, p.again, p.venue.fills[k].id);
    }
  }

  lemma {:induction false} LocalCancelAllKeeps(p: Pipe, ks: seq<OrderId>, some: set<OrderId>, keyOf: string -> string)
    requires EngineOk(p.books, keyOf) && JointOk(p) && Lists(ks, some) && some <= p.books.open.Keys
    ensures EngineOk(CancelEach(p.books, ks), keyOf) && JointOk(p.(books := CancelEach(p.books, ks)))
    decreases |ks|
  {
    if ks != [] {
      var p1 := p.(books := Cancel(p.books, ks[0], true));
      assert ks[0] in some;
      LocalCancelKeeps(p, ks[0], keyOf);
      ListsRest(ks, some);
      assert p1.books.open.Keys == p.books.open.Keys - {ks[0]};
      LocalCancelAllKeeps(p1, ks[1..], some - {ks[0]}, keyOf);
    }
  }

  lemma {:induction false} WithdrawnRowNotRejected(p: Pipe, x: OrderId)
    requires JointOk(p) && OpenAt(p.books, x)
    ensures RejectsStay(p, X.Cancel(p.venue, p.books.open[x].exchangeId.value))
  {
    var e := p.books.open[x].exchangeId.value;
    assert p.venue.orders[e].client == x;
    assert LoadedRecord(p.books.open[x]).status == p.books.db.orders[x].status;
  }

  lemma {:induction false} WithdrawKeepsJoint(p: Pipe, x: OrderId)
    requires JointOk(p) && OpenAt(p.books, x) && X.CanCancel(p.venue, p.books.open[x].exchangeId.value)
    ensures JointOk(p.(venue := X.Cancel(p.venue, p.books.open[x].exchangeId.value), books := Cancel(p.books, x, true)))
  {
    var v' := X.Cancel(p.venue, p.books.open[x].exchangeId.value);
    WithdrawnRowNotRejected(p, x);
    assert X.OnlyCancels(p.venue, v');
    VenueStatusKeeps(p, v');
    LocalCancelKeepsJoint(p.(venue := v'), x);
  }

  lemma {:induction false} VenueCancelKeeps(v: X.Venue, e: ExchangeId, initial: int)
    requires X.VenueOk(v, initial)
    ensures X.VenueOk(X.Cancel(v, e), initial) && X.VenueOk(X.CancelAll(v), initial)
  {
    X.StepKeeps(v, initial, X.DoCancel(e));
    X.StepKeeps(v, initial, X.DoCancelAll);
  }

  /** Withdrawing does nothing, or cancels on both sides. */
  lemma {:induction false} WithdrawCases(p: Pipe, x: OrderId)
    requires x in p.books.open ==> OpenAt(p.books, x)
    ensures AfterWithdraw(p, x) == p
      || (OpenAt(p.books, x) && X.CanCancel(p.venue, p.books.open[x].exchangeId.value)
          && AfterWithdraw(p, x)
             == p.(venue := X.Cancel(p.venue, p.books.open[x].exchangeId.value), books := Cancel(p.books, x, true)))
  {
  }

  lemma {:induction false} WithdrawKeeps(p: Pipe, x: OrderId, keyOf: string -> string, initial: int)
    requires X.VenueOk(p.venue, initial) && EngineOk(p.books, keyOf) && JointOk(p)
    ensures PipeOk(AfterWithdraw(p, x), keyOf, initial)
  {
    if x in p.books.open {
      CancelKeepsEngine(p.books, x, keyOf);
    }
    WithdrawCases(p, x);
    if AfterWithdraw(p, x) != p {
      VenueCancelKeeps(p.venue, p.books.open[x].exchangeId.value, initial);
      WithdrawKeepsJoint(p, x);
    }
  }

  lemma {:induction false} RejectsStayInCancelAll(p: Pipe)
    requires Placed(p.venue, p.books.db.orders)
    ensures RejectsStay(p, X.CancelAll(p.venue))
  {
    forall e | e in p.venue.orders && p.books.db.orders[p.venue.orders[e].client].status == Rejected
      ensures X.CancelAll(p.venue).orders[e].status == p.venue.orders[e].status {
      assert Twins(p.venue.orders[e], e, p.books.db.orders[p.venue.orders[e].client]);
    }
  }

  lemma {:induction false} CancelAllKeepsJoint(p: Pipe)
    requires JointOk(p)
    ensures JointOk(p.(venue := X.CancelAll(p.venue)))
  {
    RejectsStayInCancelAll(p);
    assert X.OnlyCancels(p.venue, X.CancelAll(p.venue));
    VenueStatusKeeps(p, X.CancelAll(p.venue));
  }

  lemma {:induction false} WithdrawAllKeeps(p: Pipe, ks: seq<OrderId>, keyOf: string -> string, initial: int)
    requires PipeOk(p, keyOf, initial) && Lists(ks, p.books.open.Keys - p.flying)
    ensures PipeOk(p.(venue := X.CancelAll(p.venue), books := CancelEach(p.books, ks)), keyOf, initial)
  {
    VenueCancelKeeps(p.venue, 0, initial);
    CancelAllKeepsJoint(p);
    LocalCancelAllKeeps(p.(venue := X.CancelAll(p.venue)), ks, p.books.open.Keys - p.flying, keyOf);
  }

  // ---------- attempts ----------

  /** A fill that has just happened is not yet polled; nothing else moves. */
  lemma {:induction false} NewFillKeepsCounts(p: Pipe, v': X.Venue, f: X.XFill)
    requires FillsCounted(p) && RiskCounted(p) && v'.fills == p.venue.fills + [f]
    requires v'.orders.Keys == p.venue.orders.Keys
    requires forall e :: e in v'.orders ==> v'.orders[e].client == p.venue.orders[e].client
    ensures var p' := p.(venue := v', fates := p.fates + [Unpolled]); FillsCounted(p') && RiskCounted(p')
  {
    var p' := p.(venue := v', fates := p.fates + [Unpolled]);
    forall e | e in v'.orders && v'.orders[e].client in p.books.db.orders
      ensures p.books.db.orders[v'.orders[e].client].filled
           == FateSum(v'.fills, p'.fates, X.QuantityOf(e), Applied) + Again(p, e) {
      FateAppend(p.venue.fills, p.fates, f, Unpolled, X.QuantityOf(e), Applied);
    }
    forall m: string
      ensures Net(p.risk, m) == FateSum(v'.fills, p'.fates, X.NetIn(m), Applied) + SumBy(p.again, X.NetIn(m)) {
      FateAppend(p.venue.fills, p.fates, f, Unpolled, X.NetIn(m), Applied);
    }
  }

  lemma {:induction false} NewFillKeepsDrops(p: Pipe, v': X.Venue, f: X.XFill)
    requires DropsExplained(p) && |p.fates| == |p.venue.fills| && v'.fills == p.venue.fills + [f]
    requires v'.orders.Keys == p.venue.orders.Keys
    requires forall e :: e in v'.orders ==> v'.orders[e].client == p.venue.orders[e].client
    ensures DropsExplained(p.(venue := v', fates := p.fates + [Unpolled]))
  {
    var p' := p.(venue := v', fates := p.fates + [Unpolled]);
    forall k | 0 <= k < |v'.fills| && k < |p'.fates| && p'.fates[k] == Dropped
      ensures Explained(v', p.books.db.orders, p.again, v'.fills[k].id) {
      assert k < |p.fates| && Explained(p.venue, p.books.db.orders, p.again, p.venue.fills[k].id);
    }
  }

  /** A rejected exchange order has no attempt to run. */
  lemma {:induction false} FillKeepsPlaced(p: Pipe, e: ExchangeId, q: int, at: int)
    requires Placed(p.venue, p.books.db.orders) && OnExchange(p.venue, p.books.open)
    requires e in p.venue.orders && p.venue.orders[e].status != X.XRejected
    ensures var v' := X.WithFill(p.venue, e, q, at); Placed(v', p.books.db.orders) && OnExchange(v', p.books.open)
  {
    var v' := X.WithFill(p.venue, e, q, at);
    forall i | i in v'.orders
      ensures v'.orders[i].client in p.books.db.orders
              && Twins(v'.orders[i], i, p.books.db.orders[v'.orders[i].client]) {
      assert Twins(p.venue.orders[i], i, p.books.db.orders[p.venue.orders[i].client]);
    }
  }

  lemma {:induction false} FireKeepsJoint(p: Pipe, k: nat, draw: X.Draw, at: int)
    requires JointOk(p) && X.PendingOk(p.venue) && k < |p.venue.pending|
    ensures JointOk(AfterFire(p, k, draw, at))
  {
    var e := p.venue.pending[k];
    var p1 := p.(venue := p.venue.(pending := RemoveAt(p.venue.pending, k)));
    var o := p.venue.orders[e];
    assert JointOk(p1) by { SameTablesKeepJoint(p, p1.venue); }
    if o.status != X.XCancelled && !draw.NoFill? {
      var q := X.DrawnQuantity(o, draw);
      var v', f := X.WithFill(p1.venue, e, q, at), X.XFill(e, o.market, o.side, q, o.price, at);
      FillKeepsPlaced(p1, e, q, at);
      NewFillKeepsCounts(p1, v', f);
      NewFillKeepsDrops(p1, v', f);
    }
  }

  lemma {:induction false} SameTablesKeepJoint(p: Pipe, v': X.Venue)
    requires JointOk(p) && v'.orders == p.venue.orders && v'.fills == p.venue.fills
    ensures JointOk(p.(venue := v'))
  {
    forall k | 0 <= k < |v'.fills| && k < |p.fates| && p.fates[k] == Dropped
      ensures Explained(v', p.books.db.orders, p.again, v'.fills[k].id) {
      assert Explained(p.venue, p.books.db.orders, p.again, p.venue.fills[k].id);
    }
  }

  lemma {:induction false} FireKeeps(p: Pipe, k: nat, draw: X.Draw, at: int, keyOf: string -> string, initial: int)
    requires PipeOk(p, keyOf, initial) && X.StepOk(p.venue, X.DoAttempt(k, draw, at))
    ensures PipeOk(AfterFire(p, k, draw, at), keyOf, initial)
  {
    X.StepKeeps(p.venue, initial, X.DoAttempt(k, draw, at));
    FireKeepsJoint(p, k, draw, at);
  }

  // ---------- handing a fill to the engine ----------

  /** Fill k belongs to open order x, and is acceptable. */
  ghost predicate FillFor(p: Pipe, k: nat, x: OrderId)
  {
    && k < |p.venue.fills| && |p.fates| == |p.venue.fills|
    && OpenAt(p.books, x) && p.books.open[x].exchangeId == Some(p.venue.fills[k].id)
    && p.venue.fills[k].id in p.venue.orders && p.venue.orders[p.venue.fills[k].id].client == x
    && p.venue.fills[k].market == p.books.open[x].order.market && p.venue.fills[k].side == p.books.open[x].order.side
    && FillAccepted(EngineFill(p.venue.fills[k])) && Separable(AccountOf(p.books.open[x].order))
  }

  lemma {:induction false} HitIsFillFor(p: Pipe, k: nat, x: OrderId)
    requires k < |p.venue.fills| && |p.fates| == |p.venue.fills|
    requires X.FillOk(p.venue.orders, p.venue.fills[k]) && Placed(p.venue, p.books.db.orders)
            && OnExchange(p.venue, p.books.open)
    requires OpenAt(p.books, x) && p.books.open[x].exchangeId == Some(p.venue.fills[k].id)
    ensures FillFor(p, k, x)
  {
    var e := p.venue.fills[k].id;
    assert Twins(p.venue.orders[e], e, p.books.db.orders[p.venue.orders[e].client]);
  }

  lemma {:induction false} HandKeepsPlaced(p: Pipe, k: nat, x: OrderId)
    requires Placed(p.venue, p.books.db.orders) && OnExchange(p.venue, p.books.open) && FillFor(p, k, x)
    ensures var b' := ProcessFill(p.books, EngineFill(p.venue.fills[k]), Some(x));
      RowChanged(p.books.db.orders, x, b'.db.orders) && Placed(p.venue, b'.db.orders) && OnExchange(p.venue, b'.open)
  {
    var b' := ProcessFill(p.books, EngineFill(p.venue.fills[k]), Some(x));
    FillChangesRow(p.books, x, EngineFill(p.venue.fills[k]));
    RowChangeKeepsPlaced(p.venue, p.books.db.orders, x, b'.db.orders);
  }

  /** Applying fill k adds its value to what was applied, whichever time it is. */
  lemma {:induction false} TakenAdds(p: Pipe, k: nat, x: OrderId, g: X.XFill -> int)
    requires k < |p.venue.fills| && |p.fates| == |p.venue.fills| && x in p.books.open
    ensures var p' := Taken(p, k, x);
      FateSum(p.venue.fills, p'.fates, g, Applied) + SumBy(p'.again, g)
      == FateSum(p.venue.fills, p.fates, g, Applied) + SumBy(p.again, g) + g(p.venue.fills[k])
  {
    FateChange(p.venue.fills, p.fates, k, Applied, g, Applied);
    SumAppend(p.again, p.venue.fills[k], g);
  }

  lemma {:induction false} HandKeepsFills(p: Pipe, k: nat, x: OrderId)
    requires Placed(p.venue, p.books.db.orders) && FillsCounted(p) && FillFor(p, k, x)
    ensures FillsCounted(Taken(p, k, x))
  {
    var p' := Taken(p, k, x);
    FillChangesRow(p.books, x, EngineFill(p.venue.fills[k]));
    forall e | e in p.venue.orders && p.venue.orders[e].client in p'.books.db.orders
      ensures p'.books.db.orders[p.venue.orders[e].client].filled
           == FateSum(p.venue.fills, p'.fates, X.QuantityOf(e), Applied) + Again(p', e) {
      TakenAdds(p, k, x, X.QuantityOf(e));
      assert Twins(p.venue.orders[e], e, p.books.db.orders[p.venue.orders[e].client]);
    }
  }

  lemma {:induction false} HandKeepsRisk(p: Pipe, k: nat, x: OrderId)
    requires RiskCounted(p) && FillFor(p, k, x)
    ensures RiskCounted(Taken(p, k, x))
  {
    var f, o, p' := p.venue.fills[k], p.books.open[x].order, Taken(p, k, x);
    ReportKeepsSync(p.risk, AccountOf(o), o.side, f.quantity, f.price);
    forall m: string
      ensures Net(p'.risk, m) == FateSum(p.venue.fills, p'.fates, X.NetIn(m), Applied) + SumBy(p'.again, X.NetIn(m)) {
      ReportMovesNet(p.risk, AccountOf(o), o.side, f.quantity, f.price, m);
      TakenAdds(p, k, x, X.NetIn(m));
    }
  }

  lemma {:induction false} AgainGrows(p: Pipe, k: nat, x: OrderId, e: ExchangeId)
    requires k < |p.venue.fills| && |p.fates| == |p.venue.fills| && x in p.books.open && p.venue.fills[k].quantity > 0
    ensures Again(Taken(p, k, x), e) >= Again(p, e)
  {
    SumAppend(p.again, p.venue.fills[k], X.QuantityOf(e));
  }

  /** A change of an open row leaves explained what was explained. */
  lemma {:induction false} StaysExplained(venue: X.Venue, orders: map<OrderId, OrderRecord>, x: OrderId,
      orders': map<OrderId, OrderRecord>, again: seq<X.XFill>, again': seq<X.XFill>, e: ExchangeId)
    requires Explained(venue, orders, again, e) && SumBy(again', X.QuantityOf(e)) >= SumBy(again, X.QuantityOf(e))
    requires x in orders && !orders[x].status.IsTerminal() && x in orders' && orders' == orders[x := orders'[x]]
    ensures Explained(venue, orders', again', e)
  {
  }

  lemma {:induction false} HandKeepsDrops(p: Pipe, k: nat, x: OrderId)
    requires DropsExplained(p) && FillFor(p, k, x)
    ensures DropsExplained(Taken(p, k, x))
  {
    var p' := Taken(p, k, x);
    FillChangesRow(p.books, x, EngineFill(p.venue.fills[k]));
    assert LoadedRecord(p.books.open[x]).status == p.books.db.orders[x].status;
    forall j | 0 <= j < |p.venue.fills| && j < |p'.fates| && p'.fates[j] == Dropped
      ensures Explained(p.venue, p'.books.db.orders, p'.again, p.venue.fills[j].id) {
      AgainGrows(p, k, x, p.venue.fills[j].id);
      StaysExplained(p.venue, p.books.db.orders, x, p'.books.db.orders, p.again, p'.again, p.venue.fills[j].id);
    }
  }

  lemma {:induction false} HandKeepsJoint(p: Pipe, k: nat, x: OrderId)
    requires JointOk(p) && FillFor(p, k, x)
    ensures JointOk(Taken(p, k, x))
  {
    HandKeepsPlaced(p, k, x);
    HandKeepsFills(p, k, x);
    HandKeepsRisk(p, k, x);
    HandKeepsDrops(p, k, x);
  }

  /** Each fill of an exchange order is applied, unpolled, dropped or missed, and may be applied again. */
  lemma {:induction false} OrderConserved(p: Pipe, e: ExchangeId)
    requires FillsCounted(p) && Placed(p.venue, p.books.db.orders) && e in p.venue.orders
    requires X.OrderOk(p.venue.fills, e, p.venue.orders[e])
    ensures p.books.db.orders[p.venue.orders[e].client].filled
            + Lost(p, e, Unpolled) + Lost(p, e, Dropped) + Lost(p, e, Missed)
         == p.venue.orders[e].filled + Again(p, e)
  {
    FatesSplit(p.venue.fills, p.fates, X.QuantityOf(e));
  }

  /** The quantity of an exchange order's fills with one fate. */
  ghost function Lost(p: Pipe, e: ExchangeId, t: Fate): int
    requires |p.fates| == |p.venue.fills|
  {
    FateSum(p.venue.fills, p.fates, X.QuantityOf(e), t)
  }

  lemma {:induction false} LostNonneg(p: Pipe, e: ExchangeId, t: Fate)
    requires |p.fates| == |p.venue.fills| && forall i :: 0 <= i < |p.venue.fills| ==> p.venue.fills[i].quantity >= 1
    ensures Lost(p, e, t) >= 0
  {
    FateNonneg(p.venue.fills, p.fates, X.QuantityOf(e), t);
  }

  /** An order's fills of one fate sum to zero exactly when there is none. */
  lemma {:induction false} LostExactlyWhen(p: Pipe, e: ExchangeId, t: Fate)
    requires |p.fates| == |p.venue.fills| && forall i :: 0 <= i < |p.venue.fills| ==> p.venue.fills[i].quantity >= 1
    ensures Lost(p, e, t) == 0
            <==> forall k :: 0 <= k < |p.venue.fills| && p.venue.fills[k].id == e ==> p.fates[k] != t
  {
    if k :| 0 <= k < |p.venue.fills| && p.venue.fills[k].id == e && p.fates[k] == t {
      FateTerm(p.venue.fills, p.fates, k, X.QuantityOf(e));
    } else {
      NoneOfFate(p.venue.fills, p.fates, e, t);
    }
  }

  lemma {:induction false} NoneOfFate(fills: seq<X.XFill>, fates: seq<Fate>, e: ExchangeId, t: Fate)
    requires |fates| == |fills| && forall k :: 0 <= k < |fills| && fills[k].id == e ==> fates[k] != t
    ensures FateSum(fills, fates, X.QuantityOf(e), t) == 0
  {
    if fills != [] {
      var n := |fills| - 1;
      NoneOfFate(fills[..n], fates[..n], e, t);
    }
  }

  /** A fill that finds no open order, and none in flight, is for an order the engine has cancelled or overfilled. */
  lemma {:induction false} DropIsExplained(p: Pipe, k: nat)
    requires k < |p.venue.fills| && FillsCounted(p) && p.fates[k] == Unpolled
    requires Matches(p.books, EngineFill(p.venue.fills[k]), None) && MemoryOk(p.books)
    requires X.FillOk(p.venue.orders, p.venue.fills[k]) && Placed(p.venue, p.books.db.orders)
    requires X.OrderOk(p.venue.fills, p.venue.fills[k].id, p.venue.orders[p.venue.fills[k].id])
    requires forall i :: 0 <= i < |p.venue.fills| ==> p.venue.fills[i].quantity >= 1
    ensures Explained(p.venue, p.books.db.orders, p.again, p.venue.fills[k].id)
  {
    var e := p.venue.fills[k].id;
    var o, x := p.venue.orders[e], p.venue.orders[e].client;
    var row := p.books.db.orders[x];
    assert Twins(o, e, row);
    assert x in p.books.open ==> LoadedRecord(p.books.open[x]).exchangeId == row.exchangeId;
    assert row.status.IsTerminal();
    OrderConserved(p, e);
    FateTerm(p.venue.fills, p.fates, k, X.QuantityOf(e));
    LostNonneg(p, e, Dropped);
    LostNonneg(p, e, Missed);
    LostNonneg(p, e, Applied);
    FatesSplit(p.venue.fills, p.fates, X.QuantityOf(e));
  }

  /** An order with a missed fill falls short at the engine by what it missed, fills applied again aside. */
  lemma {:induction false} MissedFallsShort(p: Pipe, k: nat)
    requires k < |p.venue.fills| && FillsCounted(p) && p.fates[k] == Missed
    requires X.FillOk(p.venue.orders, p.venue.fills[k]) && Placed(p.venue, p.books.db.orders)
    requires X.OrderOk(p.venue.fills, p.venue.fills[k].id, p.venue.orders[p.venue.fills[k].id])
    requires forall i :: 0 <= i < |p.venue.fills| ==> p.venue.fills[i].quantity >= 1
    ensures ShortRow(p, p.venue.fills[k].id)
  {
    var e := p.venue.fills[k].id;
    assert Twins(p.venue.orders[e], e, p.books.db.orders[p.venue.orders[e].client]);
    OrderConserved(p, e);
    FateTerm(p.venue.fills, p.fates, k, X.QuantityOf(e));
    LostNonneg(p, e, Dropped);
    LostNonneg(p, e, Unpolled);
  }

  /** The engine's row of the exchange order stays short of the order's quantity but for fills applied again. */
  ghost predicate ShortRow(p: Pipe, e: ExchangeId)
  {
    && e in p.venue.orders && p.venue.orders[e].client in p.books.db.orders
    && var row := p.books.db.orders[p.venue.orders[e].client];
       row.filled < row.order.quantity + Again(p, e) && (row.status == Filled ==> Again(p, e) > 0)
  }

  lemma {:induction false} LossKeepsCounts(p: Pipe, k: nat, t: Fate)
    requires k < |p.venue.fills| && FillsCounted(p) && RiskCounted(p) && p.fates[k] == Unpolled && t != Applied
    ensures var p' := p.(fates := p.fates[k := t]); FillsCounted(p') && RiskCounted(p')
  {
    var p' := p.(fates := p.fates[k := t]);
    forall e | e in p.venue.orders && p.venue.orders[e].client in p.books.db.orders
      ensures p.books.db.orders[p.venue.orders[e].client].filled
           == FateSum(p.venue.fills, p'.fates, X.QuantityOf(e), Applied) + Again(p, e) {
      FateChange(p.venue.fills, p.fates, k, t, X.QuantityOf(e), Applied);
    }
    forall m: string
      ensures Net(p.risk, m) == FateSum(p.venue.fills, p'.fates, X.NetIn(m), Applied) + SumBy(p.again, X.NetIn(m)) {
      FateChange(p.venue.fills, p.fates, k, t, X.NetIn(m), Applied);
    }
  }

  lemma {:induction false} LossKeepsJoint(p: Pipe, k: nat, t: Fate)
    requires k < |p.venue.fills| && JointOk(p) && p.fates[k] == Unpolled && t != Applied
    requires t == Dropped ==> Explained(p.venue, p.books.db.orders, p.again, p.venue.fills[k].id)
    ensures JointOk(p.(fates := p.fates[k := t]))
  {
    LossKeepsCounts(p, k, t);
  }

  /** Every exchange order is positive, so every fill is. */
  lemma {:induction false} FillsPositive(v: X.Venue, orders: map<OrderId, OrderRecord>)
    requires Placed(v, orders) && forall k :: 0 <= k < |v.fills| ==> X.FillOk(v.orders, v.fills[k])
    ensures forall i :: 0 <= i < |v.fills| ==> v.fills[i].quantity >= 1
  {
    forall i | 0 <= i < |v.fills| ensures v.fills[i].quantity >= 1 {
      var e := v.fills[i].id;
      assert X.FillOk(v.orders, v.fills[i]);
      assert Twins(v.orders[e], e, orders[v.orders[e].client]);
    }
  }

  lemma {:induction false} FillKeepsEngine(b: Books, f: VenueFill, hit: Option<OrderId>, keyOf: string -> string)
    requires EngineOk(b, keyOf) && Matches(b, f, hit)
    ensures EngineOk(ProcessFill(b, f, hit), keyOf) && MemoryOk(b)
    ensures hit.Some? ==> OpenAt(b, hit.value)
    ensures hit.None? ==> ProcessFill(b, f, hit) == b
  {
    FillKeeps(b, f, hit);
    FillKeepsKeys(b, f, hit, keyOf);
    if hit.Some? {
      OpenFacts(b, hit.value);
    }
  }

  lemma {:induction false} DropJoint(p: Pipe, k: nat, initial: int)
    requires X.VenueOk(p.venue, initial) && JointOk(p) && MemoryOk(p.books) && k < |p.venue.fills|
            && p.fates[k] == Unpolled
    requires Matches(p.books, EngineFill(p.venue.fills[k]), None)
    ensures JointOk(p.(fates := p.fates[k := Dropped]))
  {
    assert X.FillOk(p.venue.orders, p.venue.fills[k]);
    FillsPositive(p.venue, p.books.db.orders);
    DropIsExplained(p, k);
    LossKeepsJoint(p, k, Dropped);
  }

  lemma {:induction false} HandHitKeeps(p: Pipe, k: nat, x: OrderId, keyOf: string -> string, initial: int)
    requires PipeOk(p, keyOf, initial) && k < |p.venue.fills| && Finds(p, p.venue.fills[k].id, Some(x))
    ensures PipeOk(Taken(p, k, x), keyOf, initial) && Handed(p, k, Some(x)) == Taken(p, k, x)
  {
    FillKeepsEngine(p.books, EngineFill(p.venue.fills[k]), Some(x), keyOf);
    assert X.FillOk(p.venue.orders, p.venue.fills[k]);
    HitIsFillFor(p, k, x);
    HandKeepsJoint(p, k, x);
  }

  lemma {:induction false} NoneInFlightMatches(p: Pipe, f: VenueFill)
    requires Finds(p, f.exchangeId, None) && !InFlight(p, f.exchangeId)
    ensures Matches(p.books, f, None)
  {
  }

  lemma {:induction false} HandMissJoint(p: Pipe, k: nat, initial: int)
    requires X.VenueOk(p.venue, initial) && JointOk(p) && MemoryOk(p.books) && k < |p.venue.fills|
            && p.fates[k] == Unpolled
    requires Finds(p, p.venue.fills[k].id, None)
    ensures JointOk(p.(fates := p.fates[k := if InFlight(p, p.venue.fills[k].id) then Missed else Dropped]))
  {
    if InFlight(p, p.venue.fills[k].id) {
      LossKeepsJoint(p, k, Missed);
    } else {
      NoneInFlightMatches(p, EngineFill(p.venue.fills[k]));
      DropJoint(p, k, initial);
    }
  }

  lemma {:induction false} HandMissKeeps(p: Pipe, k: nat, keyOf: string -> string, initial: int)
    requires PipeOk(p, keyOf, initial) && k < |p.venue.fills| && Finds(p, p.venue.fills[k].id, None)
    ensures PipeOk(Handed(p, k, None), keyOf, initial)
  {
    MissIs(p, k);
    if p.fates[k] == Unpolled {
      HandMissJoint(p, k, initial);
    }
  }

  lemma {:induction false} MissIs(p: Pipe, k: nat)
    requires k < |p.venue.fills| && k < |p.fates|
    ensures Handed(p, k, None)
         == if p.fates[k] != Unpolled then p
            else p.(fates := p.fates[k := if InFlight(p, p.venue.fills[k].id) then Missed else Dropped])
  {
  }

  // ---------- placing an order ----------

  /** A new exchange order e and a new engine row x, made for each other. */
  ghost predicate NewTwins(p: Pipe, p': Pipe, e: ExchangeId, x: OrderId)
  {
    && e !in p.venue.orders && x !in p.books.db.orders && x !in p.books.open
    && e in p'.venue.orders && p'.venue.orders == p.venue.orders[e := p'.venue.orders[e]]
    && x in p'.books.db.orders && p'.books.db.orders == p.books.db.orders[x := p'.books.db.orders[x]]
    && p'.venue.orders[e].client == x && Twins(p'.venue.orders[e], e, p'.books.db.orders[x])
    && p'.books.db.orders[x].filled == 0
    && (p'.books.open == p.books.open
        || (x in p'.books.open && p'.books.open == p.books.open[x := p'.books.open[x]]
          && p'.books.open[x].exchangeId == Some(e)))
    && p'.venue.fills == p.venue.fills && p'.fates == p.fates && p'.risk == p.risk && p'.again == p.again
  }

  lemma {:induction false} NewTwinsKeepPlaced(p: Pipe, p': Pipe, e: ExchangeId, x: OrderId)
    requires Placed(p.venue, p.books.db.orders) && OnExchange(p.venue, p.books.open) && NewTwins(p, p', e, x)
    ensures Placed(p'.venue, p'.books.db.orders) && OnExchange(p'.venue, p'.books.open)
  {
    forall i | i in p'.venue.orders
      ensures p'.venue.orders[i].client in p'.books.db.orders
      ensures Twins(p'.venue.orders[i], i, p'.books.db.orders[p'.venue.orders[i].client]) {
      if i != e {
        assert Twins(p.venue.orders[i], i, p.books.db.orders[p.venue.orders[i].client]);
      }
    }
  }

  lemma {:induction false} NewTwinsKeepFills(p: Pipe, p': Pipe, e: ExchangeId, x: OrderId)
    requires Placed(p.venue, p.books.db.orders) && FillsCounted(p) && AgainKnown(p) && NewTwins(p, p', e, x)
    requires forall k :: 0 <= k < |p.venue.fills| ==> X.FillOk(p.venue.orders, p.venue.fills[k])
    ensures FillsCounted(p') && AgainKnown(p')
  {
    SumZero(p.again, X.QuantityOf(e));
    forall k | 0 <= k < |p.venue.fills| ensures p.venue.fills[k].id != e {
      assert X.FillOk(p.venue.orders, p.venue.fills[k]);
    }
    NoneOfFate(p.venue.fills, p.fates, e, Applied);
  }

  lemma {:induction false} NewTwinsKeepCounts(p: Pipe, p': Pipe, e: ExchangeId, x: OrderId)
    requires RiskCounted(p) && DropsExplained(p) && NewTwins(p, p', e, x)
    ensures RiskCounted(p') && DropsExplained(p')
  {
    forall k | 0 <= k < |p.venue.fills| && k < |p.fates| && p.fates[k] == Dropped
      ensures Explained(p'.venue, p'.books.db.orders, p.again, p.venue.fills[k].id) {
      assert Explained(p.venue, p.books.db.orders, p.again, p.venue.fills[k].id);
    }
  }

  lemma {:induction false} PlaceMakesTwins(p: Pipe, a: Approval, x: OrderId, rejected: bool, limits: Limits)
    requires X.IdsOk(p.venue) && x !in p.books.db.orders && x !in p.books.open
    requires ReachesVenue(p.books, a, limits) && IntentFor(p.books, a, limits).value == |p.books.db.intents|
    requires Separable(AccountOf(a.order))
    ensures NewTwins(p, AfterPlace(p, a, x, rejected, limits), p.venue.nextId + 1, x)
  {
    SubmitWritesNew(p.books, a, limits, x, PaperReply(p.venue, rejected));
  }

  lemma {:induction false} PlaceKeepsEngine(b: Books, a: Approval, x: OrderId, reply: Reply, keyOf: string -> string,
      limits: Limits)
    requires EngineOk(b, keyOf) && StepOk(b, DoSubmit(a, x, VenueError), keyOf)
    ensures EngineOk(Submit(b, a, limits, x, reply), keyOf) && SubmitSafe(b, a) && x !in b.open
    ensures ReachesVenue(b, a, limits) ==> IntentFor(b, a, limits).value == |b.db.intents|
    ensures !ReachesVenue(b, a, limits) ==> Submit(b, a, limits, x, reply) == b
  {
    StepKeeps(b, DoSubmit(a, x, reply), keyOf, limits);
    PlannedIsSafe(b, a, keyOf);
    if !ReachesVenue(b, a, limits) {
      SubmitStopsEarly(b, a, limits, x, reply);
    }
  }

  lemma {:induction false} PlaceKeeps(p: Pipe, a: Approval, x: OrderId, rejected: bool, keyOf: string -> string,
      limits: Limits, initial: int)
    requires PipeOk(p, keyOf, initial) && StepOk(p.books, DoSubmit(a, x, VenueError), keyOf)
            && Separable(AccountOf(a.order))
    ensures PipeOk(AfterPlace(p, a, x, rejected, limits), keyOf, initial)
  {
    var reply, p' := PaperReply(p.venue, rejected), AfterPlace(p, a, x, rejected, limits);
    PlaceKeepsEngine(p.books, a, x, reply, keyOf, limits);
    if ReachesVenue(p.books, a, limits) {
      var o := a.order;
      X.StepKeeps(p.venue, initial, X.DoSubmit(x, o.market, o.side, o.quantity, o.price, rejected));
      PlaceMakesTwins(p, a, x, rejected, limits);
      NewTwinsKeepPlaced(p, p', p.venue.nextId + 1, x);
      NewTwinsKeepFills(p, p', p.venue.nextId + 1, x);
      NewTwinsKeepCounts(p, p', p.venue.nextId + 1, x);
    }
  }

  // ---------- runs ----------

  lemma {:induction false} GatesKeep(p: Pipe, b': Books, keyOf: string -> string, initial: int)
    requires PipeOk(p, keyOf, initial) && b' == p.books.(mode := b'.mode, reconciled := b'.reconciled)
    ensures PipeOk(p.(books := b'), keyOf, initial)
  {
    OnlyGatesChange(p.books, b');
    SameBooksKeepJoint(p, b');
  }

  lemma {:induction false} SameBooksKeepJoint(p: Pipe, b': Books)
    requires JointOk(p) && b'.db == p.books.db && b'.open == p.books.open
    ensures JointOk(p.(books := b'))
  {
    forall k | 0 <= k < |p.venue.fills| && k < |p.fates| && p.fates[k] == Dropped
      ensures Explained(p.venue, b'.db.orders, p.again, p.venue.fills[k].id) {
      assert Explained(p.venue, p.books.db.orders, p.again, p.venue.fills[k].id);
    }
  }

  lemma {:induction false} FlyingKeepsJoint(p: Pipe, flying: set<OrderId>)
    requires JointOk(p)
    ensures JointOk(p.(flying := flying))
  {
  }

  lemma {:induction false} LandKeeps(p: Pipe, x: OrderId, keyOf: string -> string, initial: int)
    requires PipeOk(p, keyOf, initial)
    ensures PipeOk(p.(flying := p.flying - {x}), keyOf, initial)
  {
    FlyingKeepsJoint(p, p.flying - {x});
  }

  predicate IsControl(m: Move) { m.Land? || m.Withdraw? || m.WithdrawAll? || m.SetMode? || m.SetReconciled? }

  lemma {:induction false} PlaceMoveKeeps(p: Pipe, a: Approval, x: OrderId, rejected: bool, keyOf: string -> string,
      limits: Limits, initial: int)
    requires PipeOk(p, keyOf, initial) && MoveOk(p, Place(a, x, rejected), keyOf)
    ensures PipeOk(PipeNext(p, Place(a, x, rejected), limits), keyOf, initial)
  {
    PlaceKeeps(p, a, x, rejected, keyOf, limits, initial);
  }

  lemma {:induction false} FireMoveKeeps(p: Pipe, k: nat, draw: X.Draw, at: int, keyOf: string -> string,
      limits: Limits, initial: int)
    requires PipeOk(p, keyOf, initial) && MoveOk(p, Fire(k, draw, at), keyOf)
    ensures PipeOk(PipeNext(p, Fire(k, draw, at), limits), keyOf, initial)
  {
    FireKeeps(p, k, draw, at, keyOf, initial);
  }

  lemma {:induction false} HandKeeps(p: Pipe, k: nat, hit: Option<OrderId>, keyOf: string -> string, initial: int)
    requires PipeOk(p, keyOf, initial) && k < |p.venue.fills| && Finds(p, p.venue.fills[k].id, hit)
    ensures PipeOk(Handed(p, k, hit), keyOf, initial)
  {
    if hit.Some? {
      HandHitKeeps(p, k, hit.value, keyOf, initial);
    } else {
      HandMissKeeps(p, k, keyOf, initial);
    }
  }

  lemma {:induction false} HandMoveKeeps(p: Pipe, k: nat, hit: Option<OrderId>, keyOf: string -> string,
      limits: Limits, initial: int)
    requires PipeOk(p, keyOf, initial) && MoveOk(p, Hand(k, hit), keyOf)
    ensures PipeOk(PipeNext(p, Hand(k, hit), limits), keyOf, initial)
  {
    HandKeeps(p, k, hit, keyOf, initial);
  }

  lemma {:induction false} ControlKeeps(p: Pipe, m: Move, keyOf: string -> string, limits: Limits, initial: int)
    requires PipeOk(p, keyOf, initial) && MoveOk(p, m, keyOf) && IsControl(m)
    ensures PipeOk(PipeNext(p, m, limits), keyOf, initial)
  {
    match m
    case Land(x) => LandKeeps(p, x, keyOf, initial);
    case Withdraw(x) => WithdrawKeeps(p, x, keyOf, initial);
    case WithdrawAll(ks) => WithdrawAllKeeps(p, ks, keyOf, initial);
    case SetMode(mode) => GatesKeep(p, p.books.(mode := mode), keyOf, initial);
    case SetReconciled(v) => GatesKeep(p, p.books.(reconciled := v), keyOf, initial);
  }

  lemma {:induction false} MoveKeeps(p: Pipe, m: Move, keyOf: string -> string, limits: Limits, initial: int)
    requires PipeOk(p, keyOf, initial) && MoveOk(p, m, keyOf)
    ensures PipeOk(PipeNext(p, m, limits), keyOf, initial)
  {
    match m
    case Place(a, x, rejected) => PlaceMoveKeeps(p, a, x, rejected, keyOf, limits, initial);
    case Fire(k, draw, at) => FireMoveKeeps(p, k, draw, at, keyOf, limits, initial);
    case Hand(k, hit) => HandMoveKeeps(p, k, hit, keyOf, limits, initial);
    case _ => ControlKeeps(p, m, keyOf, limits, initial);
  }

  lemma {:induction false} PipeRunKeeps(p: Pipe, ms: seq<Move>, keyOf: string -> string, limits: Limits, initial: int)
    requires PipeOk(p, keyOf, initial) && PipeRunOk(p, ms, keyOf, limits)
    ensures PipeOk(PipeAfter(p, ms, limits), keyOf, initial)
    decreases |ms|
  {
    if ms != [] {
      MoveKeeps(p, ms[0], keyOf, limits, initial);
      PipeRunKeeps(PipeNext(p, ms[0], limits), ms[1..], keyOf, limits, initial);
    }
  }

  lemma {:induction false} FreshPipeOk(keyOf: string -> string, initial: int)
    ensures PipeOk(NewPipe(initial), keyOf, initial)
  {
    var p := NewPipe(initial);
    assert Agree(p.books);
    assert X.VenueOk(p.venue, initial);
    forall m: string ensures Net(p.risk, m) == 0 {
      assert p.risk.table.Keys == {};
    }
  }

  /** What the exchange holds in a market that the risk table does not: fills not polled, dropped, and missed. */
  ghost function Missing(p: Pipe, market: string): int
    requires |p.fates| == |p.venue.fills|
  {
    FateSum(p.venue.fills, p.fates, X.NetIn(market), Unpolled)
    + FateSum(p.venue.fills, p.fates, X.NetIn(market), Dropped)
    + FateSum(p.venue.fills, p.fates, X.NetIn(market), Missed)
  }

  /** What the risk table counts beyond the exchange: fills applied again. */
  ghost function Surplus(p: Pipe, market: string): int { SumBy(p.again, X.NetIn(market)) }

  lemma {:induction false} PositionSplits(p: Pipe, market: string, initial: int)
    requires X.BooksOk(p.venue, initial) && RiskCounted(p)
    ensures PositionAt(p.venue.positions, market) == Net(p.risk, market) + Missing(p, market) - Surplus(p, market)
  {
    FatesSplit(p.venue.fills, p.fates, X.NetIn(market));
  }

  /** Reconciliation reports no mismatch. */
  ghost predicate Reconciled(p: Pipe)
  {
    forall m :: m in InternalPositions(p.risk).Keys + p.venue.positions.Keys
      ==> !Disagree(InternalPositions(p.risk), p.venue.positions, m)
  }

  /** The exchange's positions, split by what became of the fills. */
  ghost predicate PositionsSplit(p: Pipe)
  {
    |p.fates| == |p.venue.fills| &&
    forall m: string :: PositionAt(p.venue.positions, m) == Net(p.risk, m) + Missing(p, m) - Surplus(p, m)
  }

  /** Positions split, every loss is explained, and reconciliation is exact. */
  ghost predicate Accounted(p: Pipe)
  {
    && PositionsSplit(p) && DropsExplained(p) && MissesExplained(p)
    && (Reconciled(p) <==> forall m: string :: Missing(p, m) == Surplus(p, m))
  }

  /**
   Main result: in every fresh run, however often fills are handed over, each market's exchange position is risk's net
   contracts plus the unpolled, the dropped and the missed fills minus those applied again; every dropped fill is for an
   order the engine has cancelled or overfilled; every missed fill was polled while its order was in flight and leaves
   that order short; and reconciliation finds no mismatch exactly when these fills cancel out in every market.
   */
  lemma {:induction false} ReconciliationExactly(ms: seq<Move>, keyOf: string -> string, limits: Limits, initial: int)
    requires PipeRunOk(NewPipe(initial), ms, keyOf, limits)
    ensures Accounted(PipeAfter(NewPipe(initial), ms, limits))
  {
    FreshPipeOk(keyOf, initial);
    PipeRunKeeps(NewPipe(initial), ms, keyOf, limits, initial);
    AccountedWhenOk(PipeAfter(NewPipe(initial), ms, limits), initial);
  }

  lemma {:induction false} AccountedWhenOk(p: Pipe, initial: int)
    requires X.VenueOk(p.venue, initial) && JointOk(p)
    ensures Accounted(p)
  {
    ReconciledWhenOk(p, initial);
    MissesAreExplained(p, initial);
  }

  ghost predicate MissesExplained(p: Pipe)
  {
    forall k :: 0 <= k < |p.venue.fills| && k < |p.fates| && p.fates[k] == Missed ==> ShortRow(p, p.venue.fills[k].id)
  }

  lemma {:induction false} MissesAreExplained(p: Pipe, initial: int)
    requires X.VenueOk(p.venue, initial) && FillsCounted(p) && Placed(p.venue, p.books.db.orders)
    ensures MissesExplained(p)
  {
    forall k | 0 <= k < |p.venue.fills| && k < |p.fates| && p.fates[k] == Missed
      ensures ShortRow(p, p.venue.fills[k].id) {
      assert X.FillOk(p.venue.orders, p.venue.fills[k]);
      FillsPositive(p.venue, p.books.db.orders);
      MissedFallsShort(p, k);
    }
  }

  // ---------- when an order fills up at the engine ----------

  /** The exchange has filled the order and the engine has seen every fill, none of them twice, and not cancelled it. */
  ghost predicate Settled(p: Pipe, e: ExchangeId)
  {
    && e in p.venue.orders && p.venue.orders[e].status == X.XFilled && |p.fates| == |p.venue.fills|
    && (forall k :: 0 <= k < |p.venue.fills| && p.venue.fills[k].id == e ==> p.fates[k] != Unpolled)
    && (forall i :: 0 <= i < |p.again| ==> p.again[i].id != e)
    && !CancelledRow(p.venue, p.books.db.orders, e)
  }

  lemma {:induction false} SettledLostOnlyMissed(p: Pipe, e: ExchangeId)
    requires Settled(p, e) && DropsExplained(p) && forall i :: 0 <= i < |p.venue.fills| ==>
          p.venue.fills[i].quantity >= 1
    ensures Again(p, e) == 0 && Lost(p, e, Unpolled) == 0 && Lost(p, e, Dropped) == 0
  {
    SumZero(p.again, X.QuantityOf(e));
    LostExactlyWhen(p, e, Unpolled);
    forall k | 0 <= k < |p.venue.fills| && p.venue.fills[k].id == e ensures p.fates[k] != Dropped {
      assert p.fates[k] == Dropped ==> Explained(p.venue, p.books.db.orders, p.again, p.venue.fills[k].id);
    }
    LostExactlyWhen(p, e, Dropped);
  }

  lemma {:induction false} FillsUpWhenOk(p: Pipe, e: ExchangeId, initial: int)
    requires X.VenueOk(p.venue, initial) && JointOk(p) && Settled(p, e)
    ensures p.venue.orders[e].client in p.books.db.orders
    ensures var row := p.books.db.orders[p.venue.orders[e].client];
      row.filled == row.order.quantity
      <==> forall k :: 0 <= k < |p.venue.fills| && p.venue.fills[k].id == e ==> p.fates[k] != Missed
  {
    assert Twins(p.venue.orders[e], e, p.books.db.orders[p.venue.orders[e].client]);
    assert X.OrderOk(p.venue.fills, e, p.venue.orders[e]);
    FillsPositive(p.venue, p.books.db.orders);
    OrderConserved(p, e);
    SettledLostOnlyMissed(p, e);
    LostExactlyWhen(p, e, Missed);
  }

  /**
   Main result: in every run, an order that the exchange has filled, all of whose fills were handed over and none
   applied again, and that the engine did not cancel, is filled up at the engine if and only if none of its fills was
   missed.
   */
  lemma {:induction false} FillsUpExactlyWhen(ms: seq<Move>, keyOf: string -> string, limits: Limits, initial: int,
      e: ExchangeId)
    requires PipeRunOk(NewPipe(initial), ms, keyOf, limits) && Settled(PipeAfter(NewPipe(initial), ms, limits), e)
    ensures var p := PipeAfter(NewPipe(initial), ms, limits);
      p.venue.orders[e].client in p.books.db.orders &&
      var row := p.books.db.orders[p.venue.orders[e].client];
      (row.filled == row.order.quantity
       <==> forall k :: 0 <= k < |p.venue.fills| && p.venue.fills[k].id == e ==> p.fates[k] != Missed)
  {
    FreshPipeOk(keyOf, initial);
    PipeRunKeeps(NewPipe(initial), ms, keyOf, limits, initial);
    FillsUpWhenOk(PipeAfter(NewPipe(initial), ms, limits), e, initial);
  }

  // ---------- when a fill is missed ----------

  /** The exchange fills the first order of a fresh run before the engine has it among its open orders. */
  function EarlyFill(a: Approval): seq<Move>
  {
    [SetReconciled(true), Place(a, 1, false), Fire(0, X.FillAll, 0), Hand(0, None)]
  }

  lemma {:induction false} FirstPlaced(p: Pipe, a: Approval, limits: Limits)
    requires p == NewPipe(0).(books := FRESH.(reconciled := true))
    requires Submittable(a) && limits.maxPosition <= 0 && limits.maxTotal <= 0
    ensures var p1 := PipeNext(p, Place(a, 1, false), limits);
      && p1.books.open.Keys == {1} && p1.books.open[1].exchangeId == Some(1) && p1.flying == {1}
      && p1.venue == OnVenue(X.NewVenue(0), a, 1, false) && p1.fates == []
  {
    UuidIsItsColumn(a.order.trace);
    assert !HasTrace([], a.order.trace);
    assert !KeyTaken(map[], a.order);
    assert ReachesVenue(p.books, a, limits);
  }

  lemma {:induction false} FirstFired(p: Pipe, a: Approval, limits: Limits)
    requires p.venue == OnVenue(X.NewVenue(0), a, 1, false) && p.fates == []
    ensures var p2 := PipeNext(p, Fire(0, X.FillAll, 0), limits);
      && |p2.venue.fills| == 1 && p2.venue.fills[0].id == 1 && p2.fates == [Unpolled]
      && p2.books == p.books && p2.flying == p.flying
    ensures X.StepOk(p.venue, X.DoAttempt(0, X.FillAll, 0))
  {
  }

  lemma {:induction false} FirstMissed(p: Pipe, limits: Limits)
    requires |p.venue.fills| == 1 && p.venue.fills[0].id == 1 && p.fates == [Unpolled]
    requires p.books.open.Keys == {1} && p.books.open[1].exchangeId == Some(1) && 1 in p.flying
    ensures Finds(p, 1, None) && PipeNext(p, Hand(0, None), limits).fates == [Missed]
  {
    forall x | x in p.books.open ensures x in p.flying {
      assert x in p.books.open.Keys;
    }
    assert InFlight(p, 1);
  }

  lemma {:induction false} FourMoves(p: Pipe, ms: seq<Move>, p1: Pipe, p2: Pipe, p3: Pipe, keyOf: string -> string,
      limits: Limits)
    requires |ms| == 4
    requires p1 == PipeNext(p, ms[0], limits) && p2 == PipeNext(p1, ms[1], limits) && p3 == PipeNext(p2, ms[2], limits)
    requires MoveOk(p, ms[0], keyOf) && MoveOk(p1, ms[1], keyOf) && MoveOk(p2, ms[2], keyOf) && MoveOk(p3, ms[3], keyOf)
    ensures PipeRunOk(p, ms, keyOf, limits) && PipeAfter(p, ms, limits) == PipeNext(p3, ms[3], limits)
  {
    assert ms[1..][0] == ms[1] && ms[2..][0] == ms[2] && ms[3..][0] == ms[3];
    assert ms[1..][1..] == ms[2..] && ms[2..][1..] == ms[3..] && ms[3..][1..] == [];
    var last := PipeNext(p3, ms[3], limits);
    assert PipeRunOk(last, [], keyOf, limits) && PipeAfter(last, [], limits) == last;
    assert PipeRunOk(p3, ms[3..], keyOf, limits) && PipeAfter(p3, ms[3..], limits) == last;
    assert PipeRunOk(p2, ms[2..], keyOf, limits) && PipeAfter(p2, ms[2..], limits) == last;
    assert PipeRunOk(p1, ms[1..], keyOf, limits) && PipeAfter(p1, ms[1..], limits) == last;
  }

  /**
   Such a fill is missed: for every order that can be submitted there is a run that loses its fill, and nobody
   cancelled it.
   */
  lemma {:induction false} FillCanBeMissed(a: Approval, keyOf: string -> string, limits: Limits)
    requires Submittable(a) && limits.maxPosition <= 0 && limits.maxTotal <= 0
    requires IdempotencyKey(a.order) == keyOf(a.order.trace) && Separable(AccountOf(a.order))
    ensures PipeRunOk(NewPipe(0), EarlyFill(a), keyOf, limits)
    ensures PipeAfter(NewPipe(0), EarlyFill(a), limits).fates == [Missed]
  {
    var p, ms := NewPipe(0), EarlyFill(a);
    var p1 := p.(books := FRESH.(reconciled := true));
    FirstPlaced(p1, a, limits);
    var p2 := PipeNext(p1, ms[1], limits);
    FirstFired(p2, a, limits);
    var p3 := PipeNext(p2, ms[2], limits);
    FirstMissed(p3, limits);
    FourMoves(p, ms, p1, p2, p3, keyOf, limits);
  }

  /** The move hands over a new fill while the fill's own order is in flight. */
  ghost predicate HandsEarly(p: Pipe, m: Move)
  {
    && m.Hand? && m.k < |p.venue.fills| && m.k < |p.fates| && p.fates[m.k] == Unpolled
    && !Takes(p, m.k, m.hit) && InFlight(p, p.venue.fills[m.k].id)
  }

  ghost predicate SomeHandsEarly(p: Pipe, ms: seq<Move>, limits: Limits)
    decreases |ms|
  {
    ms != [] && (HandsEarly(p, ms[0]) || SomeHandsEarly(PipeNext(p, ms[0], limits), ms[1..], limits))
  }

  /** No fill counts as missed, now and after each of the moves. */
  ghost predicate NeverMissed(p: Pipe, ms: seq<Move>, limits: Limits)
    decreases |ms|
  {
    Missed !in p.fates && (ms != [] ==> NeverMissed(PipeNext(p, ms[0], limits), ms[1..], limits))
  }

  lemma {:induction false} MoveMissesExactlyWhen(p: Pipe, m: Move, limits: Limits)
    requires Missed !in p.fates
    ensures Missed in PipeNext(p, m, limits).fates <==> HandsEarly(p, m)
  {
    if HandsEarly(p, m) {
      assert PipeNext(p, m, limits).fates[m.k] == Missed;
    }
  }

  /**
   Main result: a run misses no fill if and only if it hands over no new fill while that fill's order is in flight.
   */
  lemma {:induction false} MissesExactlyWhen(p: Pipe, ms: seq<Move>, limits: Limits)
    requires Missed !in p.fates
    ensures NeverMissed(p, ms, limits) <==> !SomeHandsEarly(p, ms, limits)
    decreases |ms|
  {
    if ms != [] {
      MoveMissesExactlyWhen(p, ms[0], limits);
      if !HandsEarly(p, ms[0]) {
        MissesExactlyWhen(PipeNext(p, ms[0], limits), ms[1..], limits);
      }
    }
  }

  lemma {:induction false} ReconciledWhenOk(p: Pipe, initial: int)
    requires X.BooksOk(p.venue, initial) && RiskCounted(p)
    ensures PositionsSplit(p) && (Reconciled(p) <==> forall m: string :: Missing(p, m) == Surplus(p, m))
  {
    forall m: string ensures PositionAt(p.venue.positions, m) == Net(p.risk, m) + Missing(p, m) - Surplus(p, m) {
      PositionSplits(p, m, initial);
    }
    NoMismatchExactlyWhen(p.risk, p.venue.positions);
  }
}
