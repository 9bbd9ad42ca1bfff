/** The execution engine as an object: tables and maps changed in place, proved against the books. */
module ExecutionEngine {
  import opened Modes
  import opened Orders
  import opened Uuids
  import opened Intents
  import opened Exposure
  import opened IntentLedger
  import opened Sums
  import opened Books
  import opened EngineRuns
  import R = EngineRecords

  /** Visiting one more order. */
  lemma {:induction false} CancelEachAppend(b: Books, ks: seq<OrderId>, x: OrderId)
    ensures CancelEach(b, ks + [x]) == Cancel(CancelEach(b, ks), x, true)
    decreases |ks|
  {
    if ks == [] {
      assert ks + [x] == [x] && [x][1..] == [];
    } else {
      CancelEachAppend(Cancel(b, ks[0], true), ks[1..], x);
      assert (ks + [x])[0] == ks[0] && (ks + [x])[1..] == ks[1..] + [x];
    }
  }

  /** Visiting x moves it from the keys still open to the keys listed. */
  lemma {:induction false} ListsOneMore(ks: seq<OrderId>, all: set<OrderId>, left: set<OrderId>, x: OrderId)
    requires left <= all && Lists(ks, all - left) && x in left
    ensures Lists(ks + [x], all - (left - {x}))
  {
    assert all - (left - {x}) == all - left + {x};
  }

  /** m is the part of `all` outside `rest`. */
  ghost predicate AllBut(m: map<OrderId, IntentId>, all: map<OrderId, IntentId>, rest: set<OrderId>)
  {
    m.Keys == all.Keys - rest && forall x :: x in m ==> m[x] == all[x]
  }

  lemma {:induction false} AllButOne(m: map<OrderId, IntentId>, all: map<OrderId, IntentId>, rest: set<OrderId>,
      x: OrderId)
    requires AllBut(m, all, rest) && x in rest
    ensures AllBut(if x in all then m[x := all[x]] else m, all, rest - {x})
  {
  }

  ghost function IntentInsert(b: Books, a: Approval, limits: Limits): seq<Write>
  {
    if IntentFor(b, a, limits) == Some(|b.db.intents|)
    then [InsertIntent(NewIntentFromApproval(a.order, a.hmac))]
    else []
  }

  /** The books after the order insert, the venue's answer and the two status updates. */
  ghost function Placed(b: Books, a: Approval, id: OrderId, reply: Reply, i: IntentId): Books
  {
    var rec := Answered(a, reply);
    var db := AllWritten(b.db, PlaceWrites(a, id, reply, i));
    var counted := b.(db := db, illegal := b.illegal + Illegal(rec, ReplyStatus(reply)));
    if reply.VenueAccepted? then
      counted.(open := b.open[id := Transitioned(rec, Open)], intentOf := b.intentOf[id := i])
    else counted
  }

  lemma {:induction false} SubmitInTwo(b: Books, a: Approval, limits: Limits, id: OrderId, reply: Reply)
    requires ReachesVenue(b, a, limits)
    ensures Submit(b, a, limits, id, reply)
         == Placed(b.(db := AllWritten(b.db, IntentInsert(b, a, limits))), a, id, reply, IntentFor(b, a, limits).value)
  {
    var rest := PlaceWrites(a, id, reply, IntentFor(b, a, limits).value);
    assert SubmitWrites(b, a, limits, id, reply) == IntentInsert(b, a, limits) + rest;
    WritesInTwo(b.db, IntentInsert(b, a, limits), rest);
  }

  class Engine {
    const ledger: Ledger
    const limits: Limits
    var orders: map<OrderId, OrderRecord>
    var fills: seq<FillRow>
    var openOrders: map<OrderId, OrderRecord>
    var intentMap: map<OrderId, IntentId>
    var systemMode: Mode
    var reconciled: bool
    var illegal: nat

    ghost function State(): Books
      reads this, ledger
    {
      Books(Db(ledger.rows, orders, fills), openOrders, intentMap, systemMode, reconciled, illegal)
    }

    /** A new engine over the tables as they are: nothing loaded yet, mode normal, not reconciled. */
    constructor (ledger: Ledger, limits: Limits, orders: map<OrderId, OrderRecord>, fills: seq<FillRow>)
      ensures this.ledger == ledger && this.limits == limits
      ensures State() == Books(Db(ledger.rows, orders, fills), map[], map[], Normal, false, 0)
      ensures ledger.rows == [] && orders == map[] && fills == [] ==> State() == FRESH
    {
      this.ledger, this.limits := ledger, limits;
      this.orders, this.fills, openOrders, intentMap := orders, fills, map[], map[];
      systemMode, reconciled, illegal := Normal, false, 0;
    }

    /**
     Gates, ledger, orders table, venue, in that order. `reply` is what the venue answers if it is asked;
     `asked` says whether it was.
     */
    method SubmitOrder(a: Approval, id: OrderId, reply: Reply) returns (r: Result<OrderRecord>, asked: bool)
      requires id !in orders && TracesUnique(ledger.rows)
      modifies this, ledger
      ensures State() == Submit(old(State()), a, limits, id, reply)
      ensures asked <==> ReachesVenue(old(State()), a, limits)
      ensures asked ==> a.authentic && a.decision == Approved && old(reconciled) && old(systemMode) == Normal
      ensures !(a.authentic && a.decision == Approved && old(reconciled) && old(systemMode) == Normal) ==>
                r.Err? && State() == old(State())
      ensures r.Ok? <==> asked && !reply.VenueError?
      ensures r.Ok? ==> r.value == Transitioned(Answered(a, reply), ReplyStatus(reply))
      ensures r.Ok? ==> R.PlacedRow(a, reply, r.value)
    {
      ghost var b := State();
      asked := false;
      if !a.authentic {
        return Err("approval HMAC verification failed"), asked;
      }
      if a.decision != Approved {
        return Err("order not approved"), asked;
      }
      if !reconciled {
        return Err("startup reconciliation not yet passed"), asked;
      }
      if systemMode != Normal {
        return Err("system not in normal mode"), asked;
      }
      var appended := RecordIntent(a);
      if appended.Err? {
        return Err("record intent"), asked;
      }
      var intentID := appended.value;
      if !ColumnTakes(a.order.trace) || KeyTaken(orders, a.order) {
        return Err("persist order"), asked;
      }
      asked := true;
      r := PlaceOrder(a, id, reply, intentID);
      SubmitInTwo(b, a, limits, id, reply);
    }

    method RecordIntent(a: Approval) returns (r: Result<IntentId>)
      requires TracesUnique(ledger.rows) && GatesPass(State(), a)
      modifies ledger
      ensures r.Ok? <==> IntentFor(old(State()), a, limits).Some?
      ensures r.Ok? ==> r.value == IntentFor(old(State()), a, limits).value
      ensures State() == old(State()).(db := AllWritten(old(State()).db, IntentInsert(old(State()), a, limits)))
      ensures ledger.rows == old(ledger.rows)
              || ledger.rows == old(ledger.rows) + [OrderIntent(a.order, a.hmac, IPending)]
    {
      ghost var b := State();
      r := ledger.Append(NewIntentFromApproval(a.order, a.hmac), limits);
      OneWrite(b.db, InsertIntent(NewIntentFromApproval(a.order, a.hmac)));
    }

    /** The writes after the intent: insert the order, ask the venue, record the answer. */
    method PlaceOrder(a: Approval, id: OrderId, reply: Reply, intentID: IntentId) returns (r: Result<OrderRecord>)
      requires id !in orders
      modifies this, ledger
      ensures State() == Placed(old(State()), a, id, reply, intentID)
      ensures r.Ok? <==> !reply.VenueError?
      ensures r.Ok? ==> r.value == Transitioned(Answered(a, reply), ReplyStatus(reply))
      ensures r.Ok? ==> R.PlacedRow(a, reply, r.value)
    {
      ghost var b := State();
      ghost var insert := InsertOrder(id, NewRecord(a).(exchangeId := None));
      ghost var rest := TransitionWrites(id, Answered(a, reply), ReplyStatus(reply))
                        + [UpdateIntent(intentID, ReplyIntentStatus(reply))];
      MoreWrites(b.db, insert, rest);
      var rec := NewRecord(a);
      orders := orders[id := rec.(exchangeId := None)];
      match reply {
        case VenueError =>
          rec := RecordAnswer(id, rec, Failed, intentID, IRejected);
          return Err("venue submit");
        case VenueRejected(e) =>
          rec := RecordAnswer(id, rec.(exchangeId := Some(e)), Rejected, intentID, IRejected);
          return Ok(rec);
        case VenueAccepted(e) =>
          rec := RecordAnswer(id, rec.(exchangeId := Some(e)), Open, intentID, IOpen);
          openOrders, intentMap := openOrders[id := rec], intentMap[id := intentID];
          return Ok(rec);
      }
    }

    /** The order row first, then the intent. */
    method RecordAnswer(id: OrderId, rec: OrderRecord, s: OrderStatus, i: IntentId, t: IntentStatus)
      returns (moved: OrderRecord)
      modifies this, ledger
      ensures moved == Transitioned(rec, s)
      ensures State() == old(State()).(db := AllWritten(old(State()).db,
                                                        TransitionWrites(id, rec, s) + [UpdateIntent(i, t)]),
                                       illegal := old(illegal) + Illegal(rec, s))
    {
      ghost var b := State();
      moved := TransitionOrder(id, rec, s);
      OneWrite(State().db, UpdateIntent(i, t));
      WritesInTwo(b.db, TransitionWrites(id, rec, s), [UpdateIntent(i, t)]);
      var _ := ledger.UpdateStatus(i, t);
    }

    /** Rebuilds memory from the tables; fails when a row that is not terminal has no exchange id. */
    method LoadOpenOrders() returns (ok: bool)
      requires openOrders == map[] && intentMap == map[] && TracesUnique(ledger.rows)
      modifies this
      ensures ok <==> Loadable(State().db)
      ensures State().db == old(State()).db && systemMode == old(systemMode) && reconciled == old(reconciled)
      ensures ok ==> openOrders == LoadedOrders(State().db) && intentMap == LoadedIntents(State().db)
    {
      ok := LoadRows();
      if ok {
        LoadIntents();
      }
    }

    method LoadRows() returns (ok: bool)
      requires openOrders == map[]
      modifies this`openOrders
      ensures ok <==> Loadable(State().db)
      ensures ok ==> openOrders == LoadedOrders(State().db)
    {
      var rest := orders.Keys;
      while rest != {}
        invariant rest <= orders.Keys
        invariant forall x :: x in orders && x !in rest && !orders[x].status.IsTerminal() ==> orders[x].exchangeId.Some?
        invariant openOrders
               == map x | x in orders && x !in rest && !orders[x].status.IsTerminal() :: ReadBack(orders[x])
        decreases |rest|
      {
        var x :| x in rest;
        if !orders[x].status.IsTerminal() {
          if orders[x].exchangeId.None? {
            return false;
          }
          openOrders := openOrders[x := ReadBack(orders[x])];
        }
        rest := rest - {x};
      }
      return true;
    }

    method LoadIntents()
      requires intentMap == map[] && TracesUnique(ledger.rows) && openOrders == LoadedOrders(State().db)
      modifies this`intentMap
      ensures intentMap == LoadedIntents(State().db)
    {
      ghost var all := LoadedIntents(State().db);
      var rest := openOrders.Keys;
      while rest != {}
        invariant rest <= openOrders.Keys
        invariant AllBut(intentMap, all, rest)
        decreases rest
      {
        var x :| x in rest;
        var found := ledger.GetByTraceID(openOrders[x].order.trace);
        LoadedIntentAt(State().db, x);
        AllButOne(intentMap, all, rest, x);
        if found.Some? {
          intentMap := intentMap[x := found.value];
        }
        rest := rest - {x};
      }
      assert intentMap.Keys == all.Keys;
    }

    /** transitionOrder: validate, then update the row from the record. */
    method TransitionOrder(id: OrderId, rec: OrderRecord, s: OrderStatus) returns (moved: OrderRecord)
      modifies this
      ensures moved == Transitioned(rec, s)
      ensures State() == old(State()).(db := AllWritten(old(State()).db, TransitionWrites(id, rec, s)),
                                       illegal := old(illegal) + Illegal(rec, s))
    {
      if !ValidTransition(rec.status, s) {
        illegal := illegal + 1;
        return rec;
      }
      moved := rec.(status := s);
      OneWrite(State().db, UpdateOrder(id, moved));
      if id in orders {
        orders := orders[id := WriteBack(orders[id], moved)];
      }
    }

    method SetSystemMode(mode: Mode)
      modifies this
      ensures State() == old(State()).(mode := mode)
    {
      systemMode := mode;
    }

    method SetReconciled(v: bool)
      modifies this
      ensures State() == old(State()).(reconciled := v)
    {
      reconciled := v;
    }

    /** Cancels one open order, once the venue has agreed to. */
    method CancelOrder(id: OrderId, venueCancels: bool) returns (ok: bool)
      modifies this, ledger
      ensures State() == Cancel(old(State()), id, venueCancels)
      ensures ok <==> id in old(openOrders) && venueCancels
      ensures openOrders == if ok then old(openOrders) - {id} else old(openOrders)
      ensures intentMap == if ok then old(intentMap) - {id} else old(intentMap)
    {
      if id !in openOrders || !venueCancels {
        return false;
      }
      CloseLocally(id);
      return true;
    }

    /** The part CancelOrder and CancelAll share. */
    method CloseLocally(id: OrderId)
      requires id in openOrders
      modifies this, ledger
      ensures State() == Cancel(old(State()), id, true)
      ensures openOrders == old(openOrders) - {id} && intentMap == old(intentMap) - {id}
    {
      ghost var b := State();
      ghost var ws := TransitionWrites(id, b.open[id], Cancelled);
      var _ := TransitionOrder(id, openOrders[id], Cancelled);
      if id in intentMap {
        OneWrite(State().db, UpdateIntent(intentMap[id], ICancelled));
        var _ := ledger.UpdateStatus(intentMap[id], ICancelled);
      }
      WritesInTwo(b.db, ws, IntentWrites(b, id, ICancelled));
      openOrders, intentMap := openOrders - {id}, intentMap - {id};
    }

    /** CancelAll visits the open orders in whatever order the map gives them. */
    method CancelAll() returns (ghost visited: seq<OrderId>)
      modifies this, ledger
      ensures Lists(visited, old(openOrders).Keys)
      ensures State() == CancelEach(old(State()), visited)
      ensures openOrders == map[]
    {
      ghost var b, all := State(), openOrders.Keys;
      visited := [];
      while openOrders != map[]
        invariant openOrders.Keys <= all
        invariant Lists(visited, all - openOrders.Keys)
        invariant State() == CancelEach(b, visited)
        decreases openOrders.Keys
      {
        var id :| id in openOrders;
        ListsOneMore(visited, all, openOrders.Keys, id);
        CancelEachAppend(b, visited, id);
        CloseLocally(id);
        visited := visited + [id];
      }
    }

    /** Looks for an open order with the fill's exchange id. */
    method FindByExchangeId(e: ExchangeId) returns (hit: Option<OrderId>)
      ensures Matches(State(), VenueFill(e, 0, 0), hit)
    {
      var rest := openOrders.Keys;
      while rest != {}
        invariant rest <= openOrders.Keys
        invariant forall x :: x in openOrders && x !in rest ==> openOrders[x].exchangeId != Some(e)
        decreases |rest|
      {
        var x :| x in rest;
        if openOrders[x].exchangeId == Some(e) {
          return Some(x);
        }
        rest := rest - {x};
      }
      return None;
    }

    /** A fill for an order that is not open is dropped; otherwise the order is updated and risk is told. */
    method HandleFill(f: VenueFill) returns (hit: Option<OrderId>, reported: bool)
      modifies this, ledger
      ensures Matches(old(State()), f, hit)
      ensures State() == ProcessFill(old(State()), f, hit)
      ensures hit.Some? ==> hit.value in old(openOrders) && old(openOrders)[hit.value].exchangeId == Some(f.exchangeId)
      ensures hit.None? ==> forall x :: x in old(openOrders) ==> old(openOrders)[x].exchangeId != Some(f.exchangeId)
      ensures reported <==> hit.Some? && f.quantity > 0 && f.price > 0
      ensures fills == old(fills) + if reported then [FillRow(hit.value, f.quantity, f.price)] else []
    {
      hit := FindByExchangeId(f.exchangeId);
      reported := hit.Some? && FillAccepted(f);
      if reported {
        ApplyFill(hit.value, f);
      }
    }

    method ApplyFill(id: OrderId, f: VenueFill)
      requires id in openOrders && FillAccepted(f)
      modifies this, ledger
      ensures State() == ProcessFill(old(State()), f, Some(id))
      ensures fills == old(fills) + [FillRow(id, f.quantity, f.price)]
    {
      ghost var b := State();
      ghost var first := InsertFill(FillRow(id, f.quantity, f.price));
      fills := fills + [FillRow(id, f.quantity, f.price)];
      var rec := FilledRecord(openOrders[id], f);
      if rec.filled >= rec.order.quantity {
        var _ := TransitionOrder(id, rec, Filled);
        if id in intentMap {
          OneWrite(State().db, UpdateIntent(intentMap[id], IFilled));
          var _ := ledger.UpdateStatus(intentMap[id], IFilled);
        }
        openOrders, intentMap := openOrders - {id}, intentMap - {id};
        WritesInTwo(Written(b.db, first), TransitionWrites(id, rec, Filled), IntentWrites(b, id, IFilled));
        MoreWrites(b.db, first, TransitionWrites(id, rec, Filled) + IntentWrites(b, id, IFilled));
      } else {
        var moved := TransitionOrder(id, rec, PartiallyFilled);
        openOrders := openOrders[id := moved];
        MoreWrites(b.db, first, TransitionWrites(id, rec, PartiallyFilled));
      }
    }
  }
}
