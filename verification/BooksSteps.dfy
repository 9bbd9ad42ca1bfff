/** Each engine operation keeps the books in agreement. */
module BooksSteps {
  import opened Orders
  import opened Uuids
  import opened Intents
  import opened IntentLedger
  import opened Books
  import opened BooksAgree

  // ---------- three shapes of change ----------

  /** Intent i becomes terminal; the other rows stay. */
  ghost predicate IntentClosed(rows: seq<OrderIntent>, i: IntentId, rows': seq<OrderIntent>)
  {
    && i < |rows| == |rows'|
    && rows'[i].order == rows[i].order && rows'[i].hmac == rows[i].hmac && rows'[i].status.IsTerminal()
    && (forall j :: 0 <= j < |rows| && j != i ==> rows'[j] == rows[j])
  }

  /** Row x and its intent i become terminal and leave memory. */
  ghost predicate Closed(b: Books, x: OrderId, i: IntentId, b': Books)
  {
    && x in b.open && x in b.intentOf && b.intentOf[x] == i
    && x in b.db.orders && x in b'.db.orders && b'.db.orders == b.db.orders[x := b'.db.orders[x]]
    && b'.db.orders[x].order == b.db.orders[x].order && b'.db.orders[x].status.IsTerminal()
    && IntentClosed(b.db.intents, i, b'.db.intents)
    && b'.open == b.open - {x} && b'.intentOf == b.intentOf - {x}
    && b'.illegal == b.illegal
  }

  /** Row x changes in place and stays open. */
  ghost predicate Touched(b: Books, x: OrderId, b': Books)
  {
    && x in b.open && x in b.db.orders && x in b'.open && x in b'.db.orders
    && b'.db.orders == b.db.orders[x := b'.db.orders[x]]
    && b'.db.intents == b.db.intents
    && b'.open == b.open[x := b'.open[x]] && b'.intentOf == b.intentOf
    && b'.open[x].order == b.open[x].order
    && LoadedRecord(b'.open[x]) == LoadedRecord(b'.db.orders[x])
    && (b'.open[x].status == Open || b'.open[x].status == PartiallyFilled)
    && b'.open[x].exchangeId.Some?
    && b'.illegal == b.illegal
  }

  /** A new row x and a new intent for a new trace; both open, or both terminal. */
  ghost predicate Added(b: Books, x: OrderId, b': Books)
  {
    && x !in b.db.orders && x in b'.db.orders && b'.db.orders == b.db.orders[x := b'.db.orders[x]]
    && |b'.db.intents| == |b.db.intents| + 1
    && b'.db.intents == b.db.intents + [b'.db.intents[|b.db.intents|]]
    && NewRow(b').order == b'.db.orders[x].order
    && ValidIntent(NewRow(b'))
    && !HasTrace(b.db.intents, NewRow(b').order.trace)
    && b'.illegal == b.illegal
    && (if x in b'.open
        then AddedOpen(b, x, b')
        else b'.open == b.open && b'.intentOf == b.intentOf
             && b'.db.orders[x].status.IsTerminal() && NewRow(b').status.IsTerminal())
  }

  ghost function NewRow(b: Books): OrderIntent
    requires |b.db.intents| > 0
  {
    b.db.intents[|b.db.intents| - 1]
  }

  ghost predicate AddedOpen(b: Books, x: OrderId, b': Books)
    requires |b'.db.intents| == |b.db.intents| + 1 && x in b'.open && x in b'.db.orders
  {
    && b'.open == b.open[x := b'.open[x]] && b'.intentOf == b.intentOf[x := |b.db.intents|]
    && NewRow(b').status.IsOutstanding()
    && LoadedRecord(b'.open[x]) == LoadedRecord(b'.db.orders[x])
    && b'.open[x].status == Open && b'.open[x].exchangeId.Some?
  }

  // ---------- the tables under a change of statuses only ----------

  ghost predicate SameIntents(db: Db, db': Db)
  {
    && |db'.intents| == |db.intents|
    && (forall i :: 0 <= i < |db.intents| ==>
          db'.intents[i].order == db.intents[i].order && db'.intents[i].hmac == db.intents[i].hmac)
  }

  ghost predicate SameOrders(db: Db, db': Db)
  {
    && db'.orders.Keys == db.orders.Keys
    && (forall x :: x in db.orders ==> db'.orders[x].order == db.orders[x].order)
  }

  lemma {:induction false} TraceStays(db: Db, db': Db, t: string)
    requires SameIntents(db, db') && HasTrace(db.intents, t)
    ensures HasTrace(db'.intents, t)
  {
    var i :| 0 <= i < |db.intents| && db.intents[i].order.trace == t;
    assert db'.intents[i].order.trace == t;
  }

  lemma {:induction false} OrderStays(db: Db, db': Db, o: ProposedOrder)
    requires SameOrders(db, db') && HasOrder(db, o)
    ensures HasOrder(db', o)
  {
    var x :| x in db.orders && db.orders[x].order == o;
    assert db'.orders[x].order == o;
  }

  lemma {:induction false} StatusChangeKeepsTables(db: Db, db': Db)
    requires LedgerOk(db) && TableOk(db) && LedgerCovered(db)
    requires SameIntents(db, db') && SameOrders(db, db')
    ensures LedgerOk(db') && TableOk(db') && LedgerCovered(db')
  {
    assert LedgerOk(db');
    forall x | x in db'.orders ensures HasTrace(db'.intents, db'.orders[x].order.trace) {
      TraceStays(db, db', db.orders[x].order.trace);
    }
    forall i | 0 <= i < |db'.intents| ensures HasOrder(db', db'.intents[i].order) {
      OrderStays(db, db', db.intents[i].order);
    }
  }

  // ---------- each shape keeps agreement ----------

  lemma {:induction false} ClosedKeepsTables(b: Books, x: OrderId, i: IntentId, b': Books)
    requires LedgerOk(b.db) && TableOk(b.db) && LedgerCovered(b.db) && Closed(b, x, i, b')
    ensures LedgerOk(b'.db) && TableOk(b'.db) && LedgerCovered(b'.db)
  {
    assert SameIntents(b.db, b'.db);
    assert SameOrders(b.db, b'.db);
    StatusChangeKeepsTables(b.db, b'.db);
  }

  lemma {:induction false} ClosedKeepsMemory(b: Books, x: OrderId, i: IntentId, b': Books)
    requires MemoryOk(b) && Closed(b, x, i, b')
    ensures MemoryOk(b')
  {
  }

  lemma {:induction false} ClosedKeepsLinked(b: Books, x: OrderId, i: IntentId, b': Books)
    requires OneToOne(b) && Linked(b) && b.open.Keys == b.intentOf.Keys && Closed(b, x, i, b')
    ensures Linked(b')
  {
    forall y | y in b'.intentOf ensures b'.intentOf[y] != i {
      assert b.intentOf[y] == b'.intentOf[y];
    }
  }

  lemma {:induction false} ClosedKeepsOnto(b: Books, x: OrderId, i: IntentId, b': Books)
    requires Onto(b) && Closed(b, x, i, b')
    ensures Onto(b')
  {
    forall j | 0 <= j < |b'.db.intents| && b'.db.intents[j].status.IsOutstanding()
      ensures exists y :: Owns(b', y, j) {
      assert j != i;
      var y :| Owns(b, y, j);
      assert Owns(b', y, j);
    }
  }

  lemma {:induction false} ClosedKeeps(b: Books, x: OrderId, i: IntentId, b': Books)
    requires Agree(b) && Closed(b, x, i, b')
    ensures Agree(b')
  {
    Bijection(b);
    ClosedKeepsTables(b, x, i, b');
    ClosedKeepsMemory(b, x, i, b');
    ClosedKeepsLinked(b, x, i, b');
    ClosedKeepsOnto(b, x, i, b');
  }

  lemma {:induction false} TouchedKeepsLinks(b: Books, x: OrderId, b': Books)
    requires Linked(b) && Onto(b) && Touched(b, x, b')
    ensures Linked(b') && Onto(b')
  {
    forall i | 0 <= i < |b.db.intents| && b.db.intents[i].status.IsOutstanding() ensures exists y :: Owns(b', y, i) {
      var y :| Owns(b, y, i);
      assert Owns(b', y, i);
    }
  }

  lemma {:induction false} TouchedKeepsMemory(b: Books, x: OrderId, b': Books)
    requires MemoryOk(b) && Touched(b, x, b')
    ensures MemoryOk(b') && SameOrders(b.db, b'.db)
  {
    assert LoadedRecord(b.open[x]).order == b.db.orders[x].order;
    assert LoadedRecord(b'.open[x]).order == b'.db.orders[x].order;
  }

  lemma {:induction false} TouchedKeeps(b: Books, x: OrderId, b': Books)
    requires Agree(b) && Touched(b, x, b')
    ensures Agree(b')
  {
    TouchedKeepsMemory(b, x, b');
    TouchedKeepsLinks(b, x, b');
    StatusChangeKeepsTables(b.db, b'.db);
  }

  lemma {:induction false} AddedKeepsLedger(b: Books, x: OrderId, b': Books)
    requires LedgerOk(b.db) && Added(b, x, b')
    ensures LedgerOk(b'.db)
    ensures forall i :: 0 <= i < |b.db.intents| ==> b'.db.intents[i] == b.db.intents[i]
    ensures forall i :: 0 <= i < |b.db.intents| ==> b.db.intents[i].order.trace != NewRow(b').order.trace
  {
  }

  lemma {:induction false} AddedKeepsTrace(b: Books, x: OrderId, b': Books, t: string)
    requires Added(b, x, b') && HasTrace(b.db.intents, t)
    ensures HasTrace(b'.db.intents, t) && t != NewRow(b').order.trace
  {
    var i :| 0 <= i < |b.db.intents| && b.db.intents[i].order.trace == t;
    assert b'.db.intents[i].order.trace == t;
  }

  lemma {:induction false} AddedKeepsOrder(b: Books, x: OrderId, b': Books, o: ProposedOrder)
    requires Added(b, x, b') && (HasOrder(b.db, o) || o == NewRow(b').order)
    ensures HasOrder(b'.db, o)
  {
    if o == NewRow(b').order {
      assert b'.db.orders[x].order == o;
    } else {
      var y :| y in b.db.orders && b.db.orders[y].order == o;
      assert b'.db.orders[y].order == o;
    }
  }

  lemma {:induction false} AddedKeepsTable(b: Books, x: OrderId, b': Books)
    requires TableOk(b.db) && Added(b, x, b') && IsUuid(NewRow(b').order.trace)
    ensures TableOk(b'.db)
  {
    var n := |b.db.intents|;
    assert b'.db.intents[n] == NewRow(b');
    assert HasTrace(b'.db.intents, NewRow(b').order.trace);
    forall y | y in b.db.orders
      ensures HasTrace(b'.db.intents, b.db.orders[y].order.trace)
      ensures b.db.orders[y].order.trace != NewRow(b').order.trace {
      AddedKeepsTrace(b, x, b', b.db.orders[y].order.trace);
    }
  }

  lemma {:induction false} AddedKeepsCover(b: Books, x: OrderId, b': Books)
    requires LedgerOk(b.db) && LedgerCovered(b.db) && Added(b, x, b')
    ensures LedgerCovered(b'.db)
  {
    AddedKeepsLedger(b, x, b');
    forall i | 0 <= i < |b'.db.intents| ensures HasOrder(b'.db, b'.db.intents[i].order) {
      if i < |b.db.intents| {
        assert HasOrder(b.db, b.db.intents[i].order);
      }
      AddedKeepsOrder(b, x, b', b'.db.intents[i].order);
    }
  }

  lemma {:induction false} AddedKeepsMemory(b: Books, x: OrderId, b': Books)
    requires MemoryOk(b) && Added(b, x, b')
    ensures MemoryOk(b')
  {
  }

  lemma {:induction false} AddedKeepsLinked(b: Books, x: OrderId, b': Books)
    requires MemoryOk(b) && Linked(b) && Added(b, x, b')
    ensures Linked(b')
  {
    assert x !in b.open;
    assert b'.db.intents[|b.db.intents|] == NewRow(b');
    assert x in b'.open ==> LoadedRecord(b'.open[x]).order == b'.db.orders[x].order;
  }

  lemma {:induction false} AddedKeepsOnto(b: Books, x: OrderId, b': Books)
    requires MemoryOk(b) && Linked(b) && Onto(b) && Added(b, x, b')
    ensures Onto(b')
  {
    var n := |b.db.intents|;
    assert b'.db.intents[n] == NewRow(b');
    forall i | 0 <= i <= n && b'.db.intents[i].status.IsOutstanding() ensures exists y :: Owns(b', y, i) {
      if i == n {
        assert Owns(b', x, i);
      } else {
        var y :| Owns(b, y, i);
        assert Owns(b', y, i);
      }
    }
  }

  lemma {:induction false} AddedKeeps(b: Books, x: OrderId, b': Books)
    requires Agree(b) && Added(b, x, b') && IsUuid(NewRow(b').order.trace)
    ensures Agree(b')
  {
    AddedKeepsLedger(b, x, b');
    AddedKeepsTable(b, x, b');
    AddedKeepsCover(b, x, b');
    AddedKeepsMemory(b, x, b');
    AddedKeepsLinked(b, x, b');
    AddedKeepsOnto(b, x, b');
  }
}
