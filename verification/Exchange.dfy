/**
 The mock exchange: orders, fills, positions and balance, with fill attempts as spawned tasks that race
 with cancels. Random draws are choices of the environment.
 */
module Exchange {
  import opened Orders
  import opened Sums

  type ExchangeId = nat

  datatype XStatus = XOpen | XPartiallyFilled | XFilled | XCancelled | XRejected

  datatype XOrder = XOrder(client: nat, market: string, side: Side, quantity: int, price: int, filled: int,
      status: XStatus)

  datatype XFill = XFill(id: ExchangeId, market: string, side: Side, quantity: int, price: int, at: int)

  /** `pending` lists the spawned fill attempts that have not run yet. */
  datatype Venue = Venue(
    orders: map<ExchangeId, XOrder>, fills: seq<XFill>, positions: map<string, int>, balance: int,
    nextId: nat, pending: seq<ExchangeId>)

  function NewVenue(balance: int): Venue { Venue(map[], [], map[], balance, 0, []) }

  // ---------- the operations ----------

  function Submit(v: Venue, client: nat, market: string, side: Side, quantity: int, price: int, rejected: bool): Venue
  {
    var id := v.nextId + 1;
    var order := XOrder(client, market, side, quantity, price, 0, if rejected then XRejected else XOpen);
    v.(nextId := id, orders := v.orders[id := order], pending := if rejected then v.pending else v.pending + [id])
  }

  /** The draws of one attempt: no fill, everything that remains, or a part of it. */
  datatype Draw = NoFill | FillAll | FillPart(quantity: int)

  function DrawnQuantity(o: XOrder, d: Draw): int
  {
    if d.FillPart? then d.quantity else o.quantity - o.filled
  }

  predicate DrawOk(o: XOrder, d: Draw)
  {
    d.FillPart? ==> o.quantity - o.filled > 1 && 1 <= d.quantity <= o.quantity - o.filled
  }

  /** An attempt that fills q of order id. */
  function WithFill(v: Venue, id: ExchangeId, q: int, at: int): Venue
    requires id in v.orders
  {
    var o := v.orders[id];
    var done := o.filled + q >= o.quantity;
    v.(fills := v.fills + [XFill(id, o.market, o.side, q, o.price, at)],
       orders := v.orders[id := o.(filled := o.filled + q, status := if done then XFilled else XPartiallyFilled)],
       pending := if done then v.pending else v.pending + [id],
       positions := v.positions[o.market := PositionAt(v.positions, o.market) + Signed(o.side, q)],
       balance := v.balance - Signed(o.side, q * o.price))
  }

  /** simulateFillProcess, run for the k-th pending attempt. */
  function Attempt(v: Venue, k: nat, d: Draw, at: int): Venue
    requires k < |v.pending|
  {
    var id := v.pending[k];
    var v' := v.(pending := RemoveAt(v.pending, k));
    if id !in v.orders || v.orders[id].status == XCancelled || d.NoFill? then v'
    else WithFill(v', id, DrawnQuantity(v.orders[id], d), at)
  }

  predicate CanCancel(v: Venue, id: ExchangeId)
  {
    id in v.orders && v.orders[id].status != XFilled
  }

  function Cancel(v: Venue, id: ExchangeId): Venue
  {
    if CanCancel(v, id) then v.(orders := v.orders[id := v.orders[id].(status := XCancelled)]) else v
  }

  predicate Cancellable(o: XOrder) { o.status == XOpen || o.status == XPartiallyFilled }

  function CancelAll(v: Venue): Venue
  {
    v.(orders := map id | id in v.orders ::
         if Cancellable(v.orders[id]) then v.orders[id].(status := XCancelled) else v.orders[id])
  }

  datatype Step =
    | DoSubmit(client: nat, market: string, side: Side, quantity: int, price: int, rejected: bool)
    | DoAttempt(k: nat, draw: Draw, at: int)
    | DoCancel(id: ExchangeId)
    | DoCancelAll

  predicate StepOk(v: Venue, s: Step)
  {
    s.DoAttempt? ==> s.k < |v.pending| && (v.pending[s.k] in v.orders ==> DrawOk(v.orders[v.pending[s.k]], s.draw))
  }

  function Next(v: Venue, s: Step): Venue
  {
    match s
    case DoSubmit(client, market, side, quantity, price, rejected) =>
      Submit(v, client, market, side, quantity, price, rejected)
    case DoAttempt(k, d, at) => if k < |v.pending| then Attempt(v, k, d, at) else v
    case DoCancel(id) => Cancel(v, id)
    case DoCancelAll => CancelAll(v)
  }

  predicate RunOk(v: Venue, steps: seq<Step>)
    decreases |steps|
  {
    steps == [] || (StepOk(v, steps[0]) && RunOk(Next(v, steps[0]), steps[1..]))
  }

  function After(v: Venue, steps: seq<Step>): Venue
    decreases |steps|
  {
    if steps == [] then v else After(Next(v, steps[0]), steps[1..])
  }

  // ---------- the invariant ----------

  function QuantityOf(id: ExchangeId): XFill -> int
  {
    (f: XFill) => if f.id == id then f.quantity else 0
  }

  function NetIn(market: string): XFill -> int
  {
    (f: XFill) => if f.market == market then Signed(f.side, f.quantity) else 0
  }

  function Cash(): XFill -> int
  {
    (f: XFill) => -Signed(f.side, f.quantity * f.price)
  }

  /** An order's fills add up to its filled quantity, and a positive order is filled exactly when it is full. */
  ghost predicate OrderOk(fills: seq<XFill>, id: ExchangeId, o: XOrder)
  {
    && o.filled == SumBy(fills, QuantityOf(id))
    && (o.status == XOpen || o.status == XRejected ==> o.filled == 0)
    && (o.status == XPartiallyFilled ==> 0 < o.filled < o.quantity)
    && (o.quantity > 0 ==> 0 <= o.filled <= o.quantity && (o.status == XFilled <==> o.filled == o.quantity))
  }

  ghost predicate FillOk(orders: map<ExchangeId, XOrder>, f: XFill)
  {
    && f.id in orders
    && f.market == orders[f.id].market && f.side == orders[f.id].side && f.price == orders[f.id].price
    && (f.quantity >= 1 <==> orders[f.id].quantity >= 1)
  }

  ghost predicate PendingOk(v: Venue)
  {
    && (forall i, j :: 0 <= i < j < |v.pending| ==> v.pending[i] != v.pending[j])
    && (forall i :: 0 <= i < |v.pending| ==> v.pending[i] in v.orders && MayFill(v.orders[v.pending[i]]))
  }

  predicate MayFill(o: XOrder) { o.status == XOpen || o.status == XPartiallyFilled || o.status == XCancelled }

  ghost predicate IdsOk(v: Venue)
  {
    forall id :: id in v.orders ==> 1 <= id <= v.nextId
  }

  ghost predicate BooksOk(v: Venue, initial: int)
  {
    && v.balance == initial + SumBy(v.fills, Cash())
    && (forall m :: PositionAt(v.positions, m) == SumBy(v.fills, NetIn(m)))
  }

  ghost predicate VenueOk(v: Venue, initial: int)
  {
    && IdsOk(v) && PendingOk(v) && BooksOk(v, initial)
    && (forall id :: id in v.orders ==> OrderOk(v.fills, id, v.orders[id]))
    && (forall k :: 0 <= k < |v.fills| ==> FillOk(v.orders, v.fills[k]))
  }

  // ---------- every step keeps it ----------

  lemma {:induction false} NoFillsYet(v: Venue, id: ExchangeId)
    requires id !in v.orders && forall k :: 0 <= k < |v.fills| ==> FillOk(v.orders, v.fills[k])
    ensures SumBy(v.fills, QuantityOf(id)) == 0
  {
    SumZero(v.fills, QuantityOf(id));
  }

  lemma {:induction false} SubmitKeeps(v: Venue, initial: int, s: Step)
    requires VenueOk(v, initial) && s.DoSubmit?
    ensures VenueOk(Next(v, s), initial)
  {
    var v', id := Next(v, s), v.nextId + 1;
    assert id !in v.orders;
    NoFillsYet(v, id);
    assert forall k :: 0 <= k < |v.fills| ==> FillOk(v'.orders, v.fills[k]);
    assert PendingOk(v');
  }

  /** Changing statuses to cancelled touches neither quantities nor fills. */
  ghost predicate OnlyCancels(v: Venue, v': Venue)
  {
    && v' == v.(orders := v'.orders) && v'.orders.Keys == v.orders.Keys
    && (forall id :: id in v.orders ==>
          v'.orders[id] == v.orders[id]
            || (v.orders[id].status != XFilled && v'.orders[id] == v.orders[id].(status := XCancelled)))
  }

  lemma {:induction false} CancelKeeps(v: Venue, v': Venue, initial: int)
    requires VenueOk(v, initial) && OnlyCancels(v, v')
    ensures VenueOk(v', initial)
  {
    forall k | 0 <= k < |v.fills| ensures FillOk(v'.orders, v.fills[k]) {
      assert FillOk(v.orders, v.fills[k]);
    }
    forall id | id in v.orders ensures OrderOk(v.fills, id, v'.orders[id]) {
      assert OrderOk(v.fills, id, v.orders[id]);
    }
  }

  lemma {:induction false} FillKeepsBooks(v: Venue, initial: int, id: ExchangeId, q: int, at: int)
    requires BooksOk(v, initial) && id in v.orders
    ensures BooksOk(WithFill(v, id, q, at), initial)
  {
    var o := v.orders[id];
    var f := XFill(id, o.market, o.side, q, o.price, at);
    SumAppend(v.fills, f, Cash());
    forall m: string
      ensures PositionAt(WithFill(v, id, q, at).positions, m) == SumBy(WithFill(v, id, q, at).fills, NetIn(m)) {
      SumAppend(v.fills, f, NetIn(m));
    }
  }

  lemma {:induction false} FillKeepsOrders(v: Venue, id: ExchangeId, q: int, at: int)
    requires id in v.orders && (forall i :: i in v.orders ==> OrderOk(v.fills, i, v.orders[i]))
    requires v.orders[id].quantity > 0 ==> 1 <= q <= v.orders[id].quantity - v.orders[id].filled
    requires v.orders[id].quantity <= 0 ==> q == v.orders[id].quantity - v.orders[id].filled
    ensures var v' := WithFill(v, id, q, at); forall i :: i in v'.orders ==> OrderOk(v'.fills, i, v'.orders[i])
  {
    var v', o := WithFill(v, id, q, at), v.orders[id];
    forall i | i in v'.orders ensures OrderOk(v'.fills, i, v'.orders[i]) {
      SumAppend(v.fills, XFill(id, o.market, o.side, q, o.price, at), QuantityOf(i));
      assert OrderOk(v.fills, i, v.orders[i]);
    }
  }

  lemma {:induction false} FillKeepsFills(v: Venue, id: ExchangeId, q: int, at: int)
    requires id in v.orders && (forall k :: 0 <= k < |v.fills| ==> FillOk(v.orders, v.fills[k]))
    requires q >= 1 <==> v.orders[id].quantity >= 1
    ensures var v' := WithFill(v, id, q, at); forall k :: 0 <= k < |v'.fills| ==> FillOk(v'.orders, v'.fills[k])
  {
    var v' := WithFill(v, id, q, at);
    forall k | 0 <= k < |v'.fills| ensures FillOk(v'.orders, v'.fills[k]) {
      if k < |v.fills| {
        assert FillOk(v.orders, v.fills[k]);
      }
    }
  }

  /** Once its attempt is taken off the list, an order has none left; a fill spawns at most one. */
  lemma {:induction false} AttemptKeepsPending(v: Venue, k: nat, d: Draw, at: int)
    requires PendingOk(v) && k < |v.pending|
    ensures PendingOk(Attempt(v, k, d, at))
  {
    var id, rest := v.pending[k], RemoveAt(v.pending, k);
    forall i | 0 <= i < |rest| ensures rest[i] != id && rest[i] in v.orders && MayFill(v.orders[rest[i]]) {
      assert rest[i] == v.pending[if i < k then i else i + 1];
    }
    forall i, j | 0 <= i < j < |rest| ensures rest[i] != rest[j] {
      assert rest[i] == v.pending[if i < k then i else i + 1] && rest[j] == v.pending[if j < k then j else j + 1];
    }
  }

  /** What an attempt on an order that is not cancelled draws. */
  lemma {:induction false} DrawInRange(fills: seq<XFill>, id: ExchangeId, o: XOrder, d: Draw)
    requires OrderOk(fills, id, o) && (o.status == XOpen || o.status == XPartiallyFilled) && DrawOk(o, d)
    ensures o.quantity > 0 ==> 1 <= DrawnQuantity(o, d) <= o.quantity - o.filled
    ensures o.quantity <= 0 ==> o.status == XOpen && DrawnQuantity(o, d) == o.quantity - o.filled == o.quantity
  {
  }

  lemma {:induction false} AttemptKeeps(v: Venue, initial: int, s: Step)
    requires VenueOk(v, initial) && s.DoAttempt? && StepOk(v, s)
    ensures VenueOk(Next(v, s), initial)
  {
    var id := v.pending[s.k];
    AttemptKeepsPending(v, s.k, s.draw, s.at);
    var v1 := v.(pending := RemoveAt(v.pending, s.k));
    if v.orders[id].status != XCancelled && !s.draw.NoFill? {
      var o := v.orders[id];
      var q := DrawnQuantity(o, s.draw);
      assert OrderOk(v.fills, id, o) && MayFill(o);
      DrawInRange(v.fills, id, o, s.draw);
      FillKeepsBooks(v1, initial, id, q, s.at);
      FillKeepsOrders(v1, id, q, s.at);
      FillKeepsFills(v1, id, q, s.at);
    }
  }

  lemma {:induction false} StepKeeps(v: Venue, initial: int, s: Step)
    requires VenueOk(v, initial) && StepOk(v, s)
    ensures VenueOk(Next(v, s), initial)
  {
    match s
    case DoSubmit(_, _, _, _, _, _) => SubmitKeeps(v, initial, s);
    case DoAttempt(_, _, _) => AttemptKeeps(v, initial, s);
    case DoCancel(id) => if CanCancel(v, id) { CancelKeeps(v, Next(v, s), initial); }
    case DoCancelAll => CancelKeeps(v, Next(v, s), initial);
  }

  lemma {:induction false} RunKeeps(v: Venue, initial: int, steps: seq<Step>)
    requires VenueOk(v, initial) && RunOk(v, steps)
    ensures VenueOk(After(v, steps), initial)
    decreases |steps|
  {
    if steps != [] {
      StepKeeps(v, initial, steps[0]);
      RunKeeps(Next(v, steps[0]), initial, steps[1..]);
    }
  }

  /**
   Main result: in every interleaving each order has at most one pending attempt, fills are at least 1 exactly
   for positive orders, a positive order's fills sum to its filled quantity, at most its quantity, reached
   exactly when its status is filled, and balance and positions are the initial ones plus the signed fills.
   */
  lemma {:induction false} ExchangeConserves(initial: int, steps: seq<Step>)
    requires RunOk(NewVenue(initial), steps)
    ensures var v := After(NewVenue(initial), steps);
      && (forall i, j :: 0 <= i < j < |v.pending| ==> v.pending[i] != v.pending[j])
      && (forall k :: 0 <= k < |v.fills| ==>
            v.fills[k].id in v.orders && (v.fills[k].quantity >= 1 <==> v.orders[v.fills[k].id].quantity >= 1))
      && (forall id :: id in v.orders ==>
            && v.orders[id].filled == SumBy(v.fills, QuantityOf(id))
            && (v.orders[id].quantity > 0 ==>
                  0 <= v.orders[id].filled <= v.orders[id].quantity
                  && (v.orders[id].status == XFilled <==> v.orders[id].filled == v.orders[id].quantity)))
      && v.balance == initial + SumBy(v.fills, Cash())
      && (forall m :: PositionAt(v.positions, m) == SumBy(v.fills, NetIn(m)))
  {
    assert VenueOk(NewVenue(initial), initial);
    RunKeeps(NewVenue(initial), initial, steps);
    var v := After(NewVenue(initial), steps);
    forall k | 0 <= k < |v.fills|
      ensures v.fills[k].id in v.orders && (v.fills[k].quantity >= 1 <==> v.orders[v.fills[k].id].quantity >= 1) {
      assert FillOk(v.orders, v.fills[k]);
    }
    forall id | id in v.orders ensures OrderOk(v.fills, id, v.orders[id]) {
    }
  }

  /** Why positive quantities matter: the server accepts an order for nothing and reports a fill of nothing. */
  lemma {:induction false} ZeroOrderFillsZero(client: nat, market: string, price: int)
    ensures var v := Attempt(Submit(NewVenue(0), client, market, Buy, 0, price, false), 0, FillAll, 0);
      |v.fills| == 1 && v.fills[0].quantity == 0 && v.orders[1].status == XFilled
  {
  }

  // ---------- a cancelled order never fills again ----------

  lemma {:induction false} CancelledStays(v: Venue, s: Step, id: ExchangeId)
    requires IdsOk(v) && StepOk(v, s) && id in v.orders && v.orders[id].status == XCancelled
    ensures id in Next(v, s).orders && Next(v, s).orders[id] == v.orders[id]
    ensures SumBy(Next(v, s).fills, QuantityOf(id)) == SumBy(v.fills, QuantityOf(id))
  {
    if s.DoAttempt? {
      var at := v.pending[s.k];
      if at in v.orders && v.orders[at].status != XCancelled && !s.draw.NoFill? {
        var o := v.orders[at];
        SumAppend(v.fills, XFill(at, o.market, o.side, DrawnQuantity(o, s.draw), o.price, s.at), QuantityOf(id));
      }
    }
  }

  /**
   Main result: once cancelled, an order keeps its status, its filled quantity and its fills for the rest of the run.
   */
  lemma {:induction false} CancelledForever(v: Venue, initial: int, steps: seq<Step>, id: ExchangeId)
    requires VenueOk(v, initial) && RunOk(v, steps) && id in v.orders && v.orders[id].status == XCancelled
    ensures id in After(v, steps).orders && After(v, steps).orders[id] == v.orders[id]
    ensures SumBy(After(v, steps).fills, QuantityOf(id)) == SumBy(v.fills, QuantityOf(id))
    decreases |steps|
  {
    if steps != [] {
      CancelledStays(v, steps[0], id);
      StepKeeps(v, initial, steps[0]);
      CancelledForever(Next(v, steps[0]), initial, steps[1..], id);
    }
  }

  // ---------- attempts terminate ----------

  /** What is left to fill of the order an attempt is for, at least 1. */
  function Weight(orders: map<ExchangeId, XOrder>): ExchangeId -> int
  {
    (id: ExchangeId) =>
      if id in orders && orders[id].quantity - orders[id].filled > 1 then orders[id].quantity - orders[id].filled else 1
  }

  ghost function Measure(v: Venue): int { SumBy(v.pending, Weight(v.orders)) }

  lemma {:induction false} MeasureNonneg(v: Venue)
    ensures Measure(v) >= 0
  {
    SumNonneg(v.pending, Weight(v.orders));
  }

  /** Only order id changes; it is not among these pending attempts. */
  lemma {:induction false} WeightElsewhere(pending: seq<ExchangeId>, orders: map<ExchangeId, XOrder>, id: ExchangeId,
      o: XOrder)
    requires forall i :: 0 <= i < |pending| ==> pending[i] != id
    ensures SumBy(pending, Weight(orders[id := o])) == SumBy(pending, Weight(orders))
  {
    SumSame(pending, Weight(orders[id := o]), Weight(orders));
  }

  lemma {:induction false} NoSecondAttempt(pending: seq<ExchangeId>, k: nat)
    requires k < |pending| && forall i, j :: 0 <= i < j < |pending| ==> pending[i] != pending[j]
    ensures forall i :: 0 <= i < |RemoveAt(pending, k)| ==> RemoveAt(pending, k)[i] != pending[k]
  {
    var rest := RemoveAt(pending, k);
    forall i | 0 <= i < |rest| ensures rest[i] != pending[k] {
      assert rest[i] == pending[if i < k then i else i + 1];
    }
  }

  /** Main result: every attempt that runs uses up at least one unit of what is left to fill. */
  lemma {:induction false} AttemptUsesUp(v: Venue, s: Step)
    requires PendingOk(v) && s.DoAttempt? && StepOk(v, s)
    requires forall id :: id in v.orders ==> OrderOk(v.fills, id, v.orders[id])
    ensures Measure(Next(v, s)) < Measure(v)
  {
    var id, rest := v.pending[s.k], RemoveAt(v.pending, s.k);
    SumRemoveAt(v.pending, s.k, Weight(v.orders));
    NoSecondAttempt(v.pending, s.k);
    var o := v.orders[id];
    if o.status != XCancelled && !s.draw.NoFill? {
      assert OrderOk(v.fills, id, o) && MayFill(o);
      DrawInRange(v.fills, id, o, s.draw);
      FillUsesUp(v.(pending := rest), id, DrawnQuantity(o, s.draw), s.at);
    }
  }

  lemma {:induction false} FillUsesUp(v: Venue, id: ExchangeId, q: int, at: int)
    requires id in v.orders && forall i :: 0 <= i < |v.pending| ==> v.pending[i] != id
    requires q >= 1 || v.orders[id].filled + q >= v.orders[id].quantity
    ensures Measure(WithFill(v, id, q, at)) < Measure(v) + Weight(v.orders)(id)
  {
    var v' := WithFill(v, id, q, at);
    WeightElsewhere(v.pending, v.orders, id, v'.orders[id]);
    SpawnMeasure(v.pending, v.orders, id, v'.orders[id]);
  }

  function Ran(s: Step): nat { if s.DoAttempt? then 1 else 0 }

  /** What a submitted order may ever use. */
  function Granted(s: Step): nat
  {
    if s.DoSubmit? && !s.rejected then (if s.quantity > 1 then s.quantity else 1) else 0
  }

  function Attempts(steps: seq<Step>): nat
  {
    if steps == [] then 0 else Ran(steps[0]) + Attempts(steps[1..])
  }

  function Budget(steps: seq<Step>): nat
  {
    if steps == [] then 0 else Granted(steps[0]) + Budget(steps[1..])
  }

  lemma {:induction false} SpawnMeasure(pending: seq<ExchangeId>, orders: map<ExchangeId, XOrder>, id: ExchangeId,
      o: XOrder)
    requires forall i :: 0 <= i < |pending| ==> pending[i] != id
    ensures SumBy(pending + [id], Weight(orders[id := o]))
            == SumBy(pending, Weight(orders)) + Weight(orders[id := o])(id)
  {
    WeightElsewhere(pending, orders, id, o);
    SumAppend(pending, id, Weight(orders[id := o]));
  }

  lemma {:induction false} SubmitMeasure(v: Venue, s: Step)
    requires IdsOk(v) && PendingOk(v) && s.DoSubmit?
    ensures Measure(Next(v, s)) == Measure(v) + Granted(s)
  {
    var id: ExchangeId := v.nextId + 1;
    var o := XOrder(s.client, s.market, s.side, s.quantity, s.price, 0, if s.rejected then XRejected else XOpen);
    assert id !in v.orders;
    if s.rejected {
      WeightElsewhere(v.pending, v.orders, id, o);
    } else {
      SpawnMeasure(v.pending, v.orders, id, o);
    }
  }

  lemma {:induction false} CancelMeasure(v: Venue, v': Venue)
    requires OnlyCancels(v, v')
    ensures Measure(v') == Measure(v)
  {
    SumSame(v.pending, Weight(v'.orders), Weight(v.orders));
  }

  lemma {:induction false} StepMeasure(v: Venue, initial: int, s: Step)
    requires VenueOk(v, initial) && StepOk(v, s)
    ensures Measure(Next(v, s)) + Ran(s) <= Measure(v) + Granted(s)
  {
    match s
    case DoSubmit(_, _, _, _, _, _) => SubmitMeasure(v, s);
    case DoAttempt(_, _, _) => AttemptUsesUp(v, s);
    case DoCancel(id) => if CanCancel(v, id) { CancelMeasure(v, Next(v, s)); }
    case DoCancelAll => CancelMeasure(v, Next(v, s));
  }

  /** Main result: in any run the attempts that run number at most the quantity submitted. */
  lemma {:induction false} AttemptsTerminate(v: Venue, initial: int, steps: seq<Step>)
    requires VenueOk(v, initial) && RunOk(v, steps)
    ensures Attempts(steps) <= Measure(v) + Budget(steps)
    decreases |steps|
  {
    if steps == [] {
      MeasureNonneg(v);
    } else {
      StepMeasure(v, initial, steps[0]);
      StepKeeps(v, initial, steps[0]);
      AttemptsTerminate(Next(v, steps[0]), initial, steps[1..]);
    }
  }

  // ---------- each operation in the venue's own fields ----------

  /** A submit records what was asked, unfilled, under a new id; only an open one gets a fill attempt. */
  lemma {:induction false} SubmitRecords(v: Venue, client: nat, market: string, side: Side, quantity: int, price: int,
      rejected: bool)
    ensures var v', id := Submit(v, client, market, side, quantity, price, rejected), v.nextId + 1;
      && v'.nextId == id && id in v'.orders && v'.orders - {id} == v.orders - {id}
      && v'.orders[id].client == client && v'.orders[id].market == market && v'.orders[id].side == side
      && v'.orders[id].quantity == quantity && v'.orders[id].price == price && v'.orders[id].filled == 0
      && v'.orders[id].status == (if rejected then XRejected else XOpen)
      && v'.pending == (if rejected then v.pending else v.pending + [id])
      && v'.fills == v.fills && v'.positions == v.positions && v'.balance == v.balance
  {
  }

  /** A cancel works on every order but a filled one, and makes that order alone cancelled. */
  lemma {:induction false} CancelExactly(v: Venue, id: ExchangeId)
    ensures CanCancel(v, id) <==> id in v.orders && v.orders[id].status != XFilled
    ensures CanCancel(v, id) ==>
      && Cancel(v, id).orders.Keys == v.orders.Keys && Cancel(v, id).orders[id].status == XCancelled
      && Cancel(v, id).orders[id].filled == v.orders[id].filled
      && forall i :: i in v.orders && i != id ==> Cancel(v, id).orders[i] == v.orders[i]
    ensures !CanCancel(v, id) ==> Cancel(v, id) == v
    ensures Cancel(v, id).fills == v.fills && Cancel(v, id).positions == v.positions
    ensures Cancel(v, id).balance == v.balance
  {
  }

  /** After a cancel-all no order is open or partially filled, and every other order is as it was. */
  lemma {:induction false} CancelAllLeavesNoneOpen(v: Venue)
    ensures var v' := CancelAll(v);
      && v'.orders.Keys == v.orders.Keys
      && (forall i :: i in v'.orders ==> v'.orders[i].status != XOpen && v'.orders[i].status != XPartiallyFilled)
      && (forall i :: i in v.orders ==>
            if v.orders[i].status == XOpen || v.orders[i].status == XPartiallyFilled
            then v'.orders[i] == v.orders[i].(status := XCancelled) else v'.orders[i] == v.orders[i])
      && v'.fills == v.fills && v'.positions == v.positions && v'.balance == v.balance
  {
  }

  /** An attempt fills what it drew of an order that is not cancelled, at the order's price and the attempt's time. */
  lemma {:induction false} AttemptRecords(v: Venue, k: nat, d: Draw, at: int)
    requires k < |v.pending| && v.pending[k] in v.orders
    ensures var o, v' := v.orders[v.pending[k]], Attempt(v, k, d, at);
      var q := if d.FillPart? then d.quantity else o.quantity - o.filled;
      if o.status == XCancelled || d == NoFill then v'.fills == v.fills && v'.orders == v.orders
      else
        && |v'.fills| == |v.fills| + 1 && v'.fills[..|v.fills|] == v.fills
        && v'.fills[|v.fills|].id == v.pending[k] && v'.fills[|v.fills|].market == o.market
        && v'.fills[|v.fills|].side == o.side && v'.fills[|v.fills|].quantity == q
        && v'.fills[|v.fills|].price == o.price && v'.fills[|v.fills|].at == at
        && v'.balance == (if o.side == Buy then v.balance - q * o.price else v.balance + q * o.price)
        && PositionAt(v'.positions, o.market)
           == (if o.side == Buy then PositionAt(v.positions, o.market) + q else PositionAt(v.positions, o.market) - q)
  {
  }

  // ---------- where fills come from ----------

  /** Step i is the attempt that made the fill. */
  ghost predicate MadeBy(f: XFill, steps: seq<Step>, i: int)
  {
    0 <= i < |steps| && steps[i].DoAttempt? && steps[i].at == f.at && steps[i].draw != NoFill
    && (steps[i].draw.FillPart? ==> steps[i].draw.quantity == f.quantity)
  }

  ghost predicate MadeBySome(f: XFill, steps: seq<Step>)
  {
    exists i :: MadeBy(f, steps, i)
  }

  /** The fill copies its order's market, side and price. */
  ghost predicate CopiesOrder(f: XFill, v: Venue)
  {
    && f.id in v.orders && f.market == v.orders[f.id].market && f.side == v.orders[f.id].side
    && f.price == v.orders[f.id].price
  }

  lemma {:induction false} StepMakes(v: Venue, s: Step, k: nat)
    requires PendingKnown(v) && k < |Next(v, s).fills| && forall j :: 0 <= j < |v.fills| ==> CopiesOrder(v.fills[j], v)
    requires IdsOk(v)
    ensures CopiesOrder(Next(v, s).fills[k], Next(v, s))
    ensures (k < |v.fills| && Next(v, s).fills[k] == v.fills[k]) || MadeBy(Next(v, s).fills[k], [s], 0)
  {
    if k < |v.fills| {
      assert CopiesOrder(v.fills[k], v);
    }
    if s.DoAttempt? && s.k < |v.pending| {
      AttemptRecords(v, s.k, s.draw, s.at);
    }
  }

  ghost predicate PendingKnown(v: Venue)
  {
    forall k :: 0 <= k < |v.pending| ==> v.pending[k] in v.orders
  }

  lemma {:induction false} AfterOneMore(v: Venue, steps: seq<Step>, n: nat)
    requires n < |steps|
    ensures After(v, steps[..n + 1]) == Next(After(v, steps[..n]), steps[n])
    decreases n
  {
    if n == 0 {
      assert steps[..1] == [steps[0]] && [steps[0]][1..] == [];
      assert steps[..0] == [];
    } else {
      AfterOneMore(Next(v, steps[0]), steps[1..], n - 1);
      assert steps[..n + 1][1..] == steps[1..][..n] && steps[..n][1..] == steps[1..][..n - 1];
    }
  }

  lemma {:induction false} RunOkPrefix(v: Venue, steps: seq<Step>, n: nat)
    requires RunOk(v, steps) && n <= |steps|
    ensures RunOk(v, steps[..n])
    decreases n
  {
    if n > 0 {
      RunOkPrefix(Next(v, steps[0]), steps[1..], n - 1);
      assert steps[..n][1..] == steps[1..][..n - 1];
    }
  }

  lemma {:induction false} FillsMadeUpTo(initial: int, steps: seq<Step>, n: nat, k: nat)
    requires RunOk(NewVenue(initial), steps) && n <= |steps| && k < |After(NewVenue(initial), steps[..n]).fills|
    ensures var v := After(NewVenue(initial), steps[..n]);
      CopiesOrder(v.fills[k], v) && MadeBySome(v.fills[k], steps)
  {
    if n == 0 {
      assert false;
    } else {
      var v := After(NewVenue(initial), steps[..n - 1]);
      RunOkPrefix(NewVenue(initial), steps, n - 1);
      RunKeeps(NewVenue(initial), initial, steps[..n - 1]);
      AfterOneMore(NewVenue(initial), steps, n - 1);
      forall j | 0 <= j < |v.fills| ensures CopiesOrder(v.fills[j], v) {
        FillsMadeUpTo(initial, steps, n - 1, j);
      }
      StepMakes(v, steps[n - 1], k);
      if k < |v.fills| && Next(v, steps[n - 1]).fills[k] == v.fills[k] {
        FillsMadeUpTo(initial, steps, n - 1, k);
      } else {
        assert MadeBy(Next(v, steps[n - 1]).fills[k], steps, n - 1);
      }
    }
  }

  /** Main result: in every run each fill copies its order's market, side and price and was made by an attempt then. */
  lemma {:induction false} FillsRecordAttempts(initial: int, steps: seq<Step>, k: nat)
    requires RunOk(NewVenue(initial), steps) && k < |After(NewVenue(initial), steps).fills|
    ensures var v := After(NewVenue(initial), steps); CopiesOrder(v.fills[k], v) && MadeBySome(v.fills[k], steps)
  {
    assert steps[..|steps|] == steps;
    FillsMadeUpTo(initial, steps, |steps|, k);
  }
}
