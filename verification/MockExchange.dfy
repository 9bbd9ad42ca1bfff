/** The exchange server as an object whose maps and lists change in place. */
module MockExchange {
  import opened Orders
  import opened Sums
  import opened Exchange

  /** The fills strictly after a time, in the order they happened. */
  function FillsSince(fills: seq<XFill>, since: int): seq<XFill>
  {
    if fills == [] then []
    else
      var init, last := FillsSince(fills[..|fills| - 1], since), fills[|fills| - 1];
      if last.at > since then init + [last] else init
  }

  lemma {:induction false} FillsSinceConcat(a: seq<XFill>, b: seq<XFill>, since: int)
    ensures FillsSince(a + b, since) == FillsSince(a, since) + FillsSince(b, since)
  {
    if b == [] {
      assert a + b == a;
    } else {
      var b', last := b[..|b| - 1], b[|b| - 1];
      assert (a + b)[..|a + b| - 1] == a + b';
      FillsSinceConcat(a, b', since);
    }
  }

  lemma {:induction false} AllSince(fills: seq<XFill>, since: int)
    requires forall i :: 0 <= i < |fills| ==> fills[i].at > since
    ensures FillsSince(fills, since) == fills
  {
    if fills != [] {
      AllSince(fills[..|fills| - 1], since);
      assert fills == fills[..|fills| - 1] + [fills[|fills| - 1]];
    }
  }

  /** Exactly the fills after the time, each as often as it is there. */
  lemma {:induction false} FillsSinceExactly(fills: seq<XFill>, since: int, f: XFill)
    ensures multiset(FillsSince(fills, since))[f] == if f.at > since then multiset(fills)[f] else 0
  {
    if fills != [] {
      var n := |fills| - 1;
      FillsSinceExactly(fills[..n], since, f);
      assert fills == fills[..n] + [fills[n]];
    }
  }

  /**
   The poll loop bounds the next poll by the time it started the last one. Two polls hand over every fill
   after t0 exactly once, and in order, exactly when no fill fell between that start and the venue's reading.
   */
  lemma {:induction false} PollOverlapExactly(read: seq<XFill>, later: seq<XFill>, t0: int, started: int)
    requires t0 <= started && forall i :: 0 <= i < |later| ==> later[i].at > started
    ensures FillsSince(read, t0) + FillsSince(read + later, started) == FillsSince(read + later, t0)
            <==> FillsSince(read, started) == []
  {
    FillsSinceConcat(read, later, started);
    FillsSinceConcat(read, later, t0);
    AllSince(later, started);
    AllSince(later, t0);
    var first, again := FillsSince(read, t0), FillsSince(read, started);
    if first + (again + later) == first + later {
      assert |first + (again + later)| == |first + later|;
    }
  }

  /** The orders when all but `rest` have been visited by a cancel-all, and those it cancelled. */
  ghost function Swept(before: map<ExchangeId, XOrder>, rest: set<ExchangeId>): map<ExchangeId, XOrder>
  {
    map id | id in before ::
      if id !in rest && Cancellable(before[id]) then before[id].(status := XCancelled) else before[id]
  }

  ghost function Hit(before: map<ExchangeId, XOrder>, rest: set<ExchangeId>): set<ExchangeId>
  {
    set id | id in before && id !in rest && Cancellable(before[id])
  }

  lemma {:induction false} SweepOne(before: map<ExchangeId, XOrder>, rest: set<ExchangeId>, id: ExchangeId)
    requires id in rest && rest <= before.Keys
    ensures Swept(before, rest)[id] == before[id]
    ensures Swept(before, rest - {id})
         == if Cancellable(before[id]) then Swept(before, rest)[id := before[id].(status := XCancelled)]
            else Swept(before, rest)
    ensures |Hit(before, rest - {id})| == |Hit(before, rest)| + if Cancellable(before[id]) then 1 else 0
  {
    assert Hit(before, rest - {id}) == if Cancellable(before[id]) then Hit(before, rest) + {id} else Hit(before, rest);
  }

  class Server {
    var orders: map<ExchangeId, XOrder>
    var fills: seq<XFill>
    var positions: map<string, int>
    var balance: int
    var nextID: nat
    var pending: seq<ExchangeId>

    ghost function State(): Venue
      reads this
    {
      Venue(orders, fills, positions, balance, nextID, pending)
    }

    constructor (initialBalance: int)
      ensures State() == NewVenue(initialBalance)
    {
      orders, fills, positions, balance, nextID, pending := map[], [], map[], initialBalance, 0, [];
    }

    method SubmitOrder(client: nat, market: string, side: Side, quantity: int, price: int, rejected: bool)
      returns (id: ExchangeId, snapshot: XOrder)
      modifies this
      ensures State() == Submit(old(State()), client, market, side, quantity, price, rejected)
      ensures id == nextID == old(nextID) + 1 && id in orders && snapshot == orders[id]
      ensures snapshot == XOrder(client, market, side, quantity, price, 0, if rejected then XRejected else XOpen)
      ensures pending == if rejected then old(pending) else old(pending) + [id]
    {
      nextID := nextID + 1;
      id := nextID;
      if rejected {
        snapshot := XOrder(client, market, side, quantity, price, 0, XRejected);
        orders := orders[id := snapshot];
        return;
      }
      snapshot := XOrder(client, market, side, quantity, price, 0, XOpen);
      orders := orders[id := snapshot];
      pending := pending + [id];
    }

    /** The body of the k-th spawned task, once it holds the lock. */
    method SimulateFillProcess(k: nat, draw: Draw, now: int)
      requires k < |pending|
      modifies this
      ensures State() == Attempt(old(State()), k, draw, now)
    {
      var id := pending[k];
      pending := RemoveAt(pending, k);
      if id !in orders || orders[id].status == XCancelled {
        return;
      }
      if draw.NoFill? {
        return;
      }
      var remaining := orders[id].quantity - orders[id].filled;
      var fillQty := remaining;
      if draw.FillPart? {
        fillQty := draw.quantity;
      }
      RecordFill(id, fillQty, now);
    }

    /** Append the fill, update the order, spawn the next attempt if something remains, settle. */
    method RecordFill(id: ExchangeId, fillQty: int, now: int)
      requires id in orders
      modifies this
      ensures State() == WithFill(old(State()), id, fillQty, now)
      ensures var o := old(orders)[id];
              && fills == old(fills) + [XFill(id, o.market, o.side, fillQty, o.price, now)]
              && balance == old(balance) + (if o.side == Buy then -(fillQty * o.price) else fillQty * o.price)
    {
      var order := orders[id];
      fills := fills + [XFill(id, order.market, order.side, fillQty, order.price, now)];
      order := order.(filled := order.filled + fillQty);
      if order.filled >= order.quantity {
        order := order.(status := XFilled);
      } else {
        order := order.(status := XPartiallyFilled);
        pending := pending + [id];
      }
      orders := orders[id := order];
      var position := if order.market in positions then positions[order.market] else 0;
      if order.side.Buy? {
        positions := positions[order.market := position + fillQty];
        balance := balance - fillQty * order.price;
      } else {
        positions := positions[order.market := position - fillQty];
        balance := balance + fillQty * order.price;
      }
    }

    method CancelOrder(id: ExchangeId) returns (ok: bool)
      modifies this
      ensures State() == Cancel(old(State()), id)
      ensures ok <==> id in old(orders) && old(orders)[id].status != XFilled
      ensures orders == if ok then old(orders)[id := old(orders)[id].(status := XCancelled)] else old(orders)
    {
      if id !in orders {
        return false;
      }
      if orders[id].status == XFilled {
        return false;
      }
      orders := orders[id := orders[id].(status := XCancelled)];
      return true;
    }

    /** Visits the orders in whatever order the map gives them; returns how many were open. */
    method CancelAllOrders() returns (count: nat)
      modifies this`orders
      ensures State() == CancelAll(old(State()))
      ensures count == |set id | id in old(orders) &&
                                 (old(orders)[id].status == XOpen || old(orders)[id].status == XPartiallyFilled)|
      ensures forall id :: id in orders ==> orders[id].status != XOpen && orders[id].status != XPartiallyFilled
    {
      count := 0;
      var rest := orders.Keys;
      ghost var before := orders;
      assert Swept(before, rest) == before && Hit(before, rest) == {};
      while rest != {}
        invariant rest <= before.Keys
        invariant orders == Swept(before, rest) && count == |Hit(before, rest)|
        decreases |rest|
      {
        var id :| id in rest;
        SweepOne(before, rest, id);
        if orders[id].status == XOpen || orders[id].status == XPartiallyFilled {
          orders := orders[id := orders[id].(status := XCancelled)];
          count := count + 1;
        }
        rest := rest - {id};
      }
      assert Swept(before, {}) == CancelAll(old(State())).orders;
      assert Hit(before, {})
          == set id | id in before && (before[id].status == XOpen || before[id].status == XPartiallyFilled);
    }

    method PollFills(since: int) returns (result: seq<XFill>)
      ensures result == FillsSince(fills, since)
      ensures forall f: XFill :: multiset(result)[f] == if f.at > since then multiset(fills)[f] else 0
    {
      result := [];
      for n := 0 to |fills|
        invariant result == FillsSince(fills[..n], since)
      {
        assert fills[..n + 1][..n] == fills[..n];
        if fills[n].at > since {
          result := result + [fills[n]];
        }
      }
      assert fills[..|fills|] == fills;
      forall f: XFill ensures multiset(result)[f] == if f.at > since then multiset(fills)[f] else 0 {
        FillsSinceExactly(fills, since, f);
      }
    }
  }
}
