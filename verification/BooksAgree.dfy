/** The two books agree: what every engine operation keeps, and what follows for exposure. */
module BooksAgree {
  import opened Orders
  import opened Uuids
  import opened Intents
  import opened Exposure
  import opened IntentLedger
  import opened Sums
  import opened Books

  // ---------- the invariant ----------

  ghost predicate LedgerOk(db: Db)
  {
    && TracesUnique(db.intents)
    && (forall i :: 0 <= i < |db.intents| ==> ValidIntent(db.intents[i]))
  }

  ghost predicate TableOk(db: Db)
  {
    && (forall x :: x in db.orders ==>
          IsUuid(db.orders[x].order.trace) && HasTrace(db.intents, db.orders[x].order.trace))
    && (forall x, y :: x in db.orders && y in db.orders && x != y
          ==> db.orders[x].order.trace != db.orders[y].order.trace)
  }

  /** Every trace in the ledger belongs to an order row. */
  ghost predicate LedgerCovered(db: Db)
  {
    forall i :: 0 <= i < |db.intents| ==> HasOrder(db, db.intents[i].order)
  }

  ghost predicate HasOrder(db: Db, o: ProposedOrder)
  {
    exists x :: x in db.orders && db.orders[x].order == o
  }

  /** Memory holds exactly the rows that are not terminal, with the row's loaded columns. */
  ghost predicate MemoryOk(b: Books)
  {
    && b.open.Keys == b.intentOf.Keys
    && (forall x :: x in b.db.orders && !b.db.orders[x].status.IsTerminal() ==> x in b.open)
    && (forall x :: x in b.open ==>
          && x in b.db.orders
          && LoadedRecord(b.open[x]) == LoadedRecord(b.db.orders[x])
          && (b.open[x].status == Open || b.open[x].status == PartiallyFilled)
          && b.open[x].exchangeId.Some?)
  }

  /** intentOf leads every open order to an outstanding intent of the same order .. */
  ghost predicate Linked(b: Books)
  {
    forall x :: x in b.intentOf && x in b.open ==>
      && b.intentOf[x] < |b.db.intents|
      && b.db.intents[b.intentOf[x]].order == b.open[x].order
      && b.db.intents[b.intentOf[x]].status.IsOutstanding()
  }

  ghost predicate Owns(b: Books, x: OrderId, i: IntentId)
  {
    x in b.intentOf && b.intentOf[x] == i
  }

  /** .. and reaches every outstanding intent. */
  ghost predicate Onto(b: Books)
  {
    forall i :: 0 <= i < |b.db.intents| && b.db.intents[i].status.IsOutstanding() ==> exists x :: Owns(b, x, i)
  }

  ghost predicate Agree(b: Books)
  {
    && LedgerOk(b.db) && TableOk(b.db) && LedgerCovered(b.db)
    && MemoryOk(b) && Linked(b) && Onto(b)
    && b.illegal == 0
  }

  // ---------- consequences ----------

  ghost predicate OneToOne(b: Books)
  {
    forall x, y :: x in b.intentOf && y in b.intentOf && b.intentOf[x] == b.intentOf[y] ==> x == y
  }

  /** intentOf is a bijection between the open orders and the outstanding intents. */
  lemma {:induction false} Bijection(b: Books)
    requires Agree(b)
    ensures b.open.Keys == b.intentOf.Keys && OneToOne(b) && Linked(b) && Onto(b)
  {
    forall x, y | x in b.intentOf && y in b.intentOf && b.intentOf[x] == b.intentOf[y] ensures x == y {
      assert x in b.open && y in b.open;
      assert LoadedRecord(b.open[x]).order == b.db.orders[x].order;
      assert LoadedRecord(b.open[y]).order == b.db.orders[y].order;
    }
  }

  function OpenNotional(open: map<OrderId, OrderRecord>, key: MarketSide): OrderId -> int
  {
    (x: OrderId) =>
      if x in open && MarketSide(open[x].order.market, open[x].order.side) == key then open[x].order.notional else 0
  }

  function OpenAnyNotional(open: map<OrderId, OrderRecord>): OrderId -> int
  {
    (x: OrderId) => if x in open then open[x].order.notional else 0
  }

  /** A one-to-one map from `some` onto the outstanding rows that carries f to g carries sum to sum. */
  lemma {:induction false} BijectionSum(rows: seq<OrderIntent>, some: set<OrderId>, intentOf: map<OrderId, IntentId>,
                                        f: OrderId -> int, g: OrderIntent -> int)
    requires some <= intentOf.Keys
    requires forall x, y :: x in some && y in some && intentOf[x] == intentOf[y] ==> x == y
    requires forall x :: x in some ==> intentOf[x] < |rows| && f(x) == g(rows[intentOf[x]])
    requires forall i :: 0 <= i < |rows| ==> g(rows[i]) == 0 || exists x :: x in some && intentOf[x] == i
    ensures SumSet(some, f) == SumBy(rows, g)
    decreases |rows|
  {
    if rows == [] {
      assert some == {};
    } else {
      var n := |rows| - 1;
      if x :| x in some && intentOf[x] == n {
        var rest := some - {x};
        forall i | 0 <= i < n && g(rows[..n][i]) != 0 ensures exists y :: y in rest && intentOf[y] == i {
          var y :| y in some && intentOf[y] == i;
          assert y in rest;
        }
        BijectionSum(rows[..n], rest, intentOf, f, g);
        SumSetPick(some, x, f);
      } else {
        assert g(rows[n]) == 0;
        forall i | 0 <= i < n && g(rows[..n][i]) != 0 ensures exists y :: y in some && intentOf[y] == i {
          assert g(rows[i]) != 0;
        }
        BijectionSum(rows[..n], some, intentOf, f, g);
      }
    }
  }

  lemma {:induction false} OpenSum(b: Books, f: OrderId -> int, g: OrderIntent -> int)
    requires b.open.Keys == b.intentOf.Keys && OneToOne(b) && Linked(b) && Onto(b)
    requires forall i: OrderIntent :: !i.status.IsOutstanding() ==> g(i) == 0
    requires forall x, i: OrderIntent :: x in b.open && i.order == b.open[x].order && i.status.IsOutstanding() ==>
          f(x) == g(i)
    ensures SumSet(b.open.Keys, f) == SumBy(b.db.intents, g)
  {
    var rows := b.db.intents;
    forall i | 0 <= i < |rows| && g(rows[i]) != 0 ensures exists x :: x in b.open.Keys && b.intentOf[x] == i {
      var x :| Owns(b, x, i);
    }
    BijectionSum(rows, b.open.Keys, b.intentOf, f, g);
  }

  lemma {:induction false} ExposureAt(b: Books, k: MarketSide)
    requires b.open.Keys == b.intentOf.Keys && OneToOne(b) && Linked(b) && Onto(b)
    ensures Grouped(b.db.intents).At(k).notional == SumSet(b.open.Keys, OpenNotional(b.open, k))
  {
    GroupedAt(b.db.intents, k);
    OpenSum(b, OpenNotional(b.open, k), NotionalAt(k));
  }

  /** Main result: ledger exposure, per market and side and in total, is the summed notional of the open orders. */
  lemma {:induction false} ExposureIsOpenOrders(b: Books)
    requires Agree(b)
    ensures forall k: MarketSide :: Grouped(b.db.intents).At(k).notional == SumSet(b.open.Keys, OpenNotional(b.open, k))
    ensures Grouped(b.db.intents).total == SumSet(b.open.Keys, OpenAnyNotional(b.open))
  {
    Bijection(b);
    forall k: MarketSide
      ensures Grouped(b.db.intents).At(k).notional == SumSet(b.open.Keys, OpenNotional(b.open, k)) {
      ExposureAt(b, k);
    }
    OpenSum(b, OpenAnyNotional(b.open), AnyNotional());
  }

  /** No open orders, no exposure. */
  lemma {:induction false} NothingOpenNothingExposed(b: Books)
    requires Agree(b) && b.open.Keys == {}
    ensures forall k: MarketSide :: Grouped(b.db.intents).At(k).notional == 0
    ensures Grouped(b.db.intents).total == 0
    ensures Keys(b.db.intents) == {}
  {
    ExposureIsOpenOrders(b);
    assert forall i :: 0 <= i < |b.db.intents| ==> !b.db.intents[i].status.IsOutstanding();
  }
}
