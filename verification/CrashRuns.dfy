/** Runs in which the engine dies at any write, restarts, and goes on. */
module CrashRuns {
  import opened Orders
  import opened Uuids
  import opened Intents
  import opened Exposure
  import opened IntentLedger
  import opened Sums
  import opened Books
  import opened BooksAgree
  import opened BooksSteps
  import opened EngineRuns
  import opened CrashRecovery

  // ---------- what the tables keep ----------

  ghost predicate IntentsPlanned(db: Db, orderOf: string -> ProposedOrder)
  {
    forall i :: 0 <= i < |db.intents| ==> db.intents[i].order == orderOf(db.intents[i].order.trace)
  }

  ghost predicate RowsPlanned(db: Db, orderOf: string -> ProposedOrder)
  {
    forall x :: x in db.orders ==>
      var o := db.orders[x].order; IsUuid(o.trace) && o == orderOf(o.trace) && HasTrace(db.intents, o.trace)
  }

  /** An intent whose order never got a row is still outstanding. */
  ghost predicate OrphansOutstanding(db: Db)
  {
    forall i :: 0 <= i < |db.intents| ==>
          db.intents[i].status.IsOutstanding() || TraceHasRow(db, db.intents[i].order.trace)
  }

  /** A row that is still pending has no answer of the venue. */
  ghost predicate PendingUnanswered(db: Db)
  {
    forall x :: x in db.orders && db.orders[x].status == Pending ==> db.orders[x].exchangeId.None?
  }

  /** Each trace names one order. */
  ghost predicate Planned(db: Db, orderOf: string -> ProposedOrder)
  {
    IntentsPlanned(db, orderOf) && RowsPlanned(db, orderOf) && OrphansOutstanding(db) && PendingUnanswered(db)
  }

  ghost predicate PlanOk(db: Db, w: Write, orderOf: string -> ProposedOrder)
  {
    match w
    case InsertIntent(row) => row.order == orderOf(row.order.trace) && row.status.IsOutstanding()
    case InsertOrder(id, rec) =>
      && id !in db.orders && IsUuid(rec.order.trace) && rec.order == orderOf(rec.order.trace)
      && HasTrace(db.intents, rec.order.trace) && (rec.status == Pending ==> rec.exchangeId.None?)
    case UpdateOrder(id, rec) => rec.status != Pending
    case UpdateIntent(i, s) => s.IsOutstanding() || (i < |db.intents| && TraceHasRow(db, db.intents[i].order.trace))
    case InsertFill(_) => true
  }

  lemma {:induction false} TraceAfterAppend(rows: seq<OrderIntent>, row: OrderIntent, t: string)
    requires HasTrace(rows, t)
    ensures HasTrace(rows + [row], t)
  {
    var i :| 0 <= i < |rows| && rows[i].order.trace == t;
    assert (rows + [row])[i] == rows[i];
  }

  lemma {:induction false} TraceAfterStatus(rows: seq<OrderIntent>, i: IntentId, s: IntentStatus, t: string)
    requires HasTrace(rows, t)
    ensures HasTrace(WithStatus(rows, i, s), t)
  {
    var j :| 0 <= j < |rows| && rows[j].order.trace == t;
    assert WithStatus(rows, i, s)[j].order.trace == t;
  }

  lemma {:induction false} RowAfterWrite(db: Db, w: Write, t: string)
    requires TraceHasRow(db, t) && (w.InsertOrder? ==> w.id !in db.orders)
    ensures TraceHasRow(Written(db, w), t)
  {
    var x :| x in db.orders && db.orders[x].order.trace == t;
    assert x in Written(db, w).orders && Written(db, w).orders[x].order == db.orders[x].order;
  }

  lemma {:induction false} WriteKeepsRows(db: Db, w: Write, orderOf: string -> ProposedOrder)
    requires RowsPlanned(db, orderOf) && PlanOk(db, w, orderOf)
    ensures RowsPlanned(Written(db, w), orderOf)
  {
    var db' := Written(db, w);
    forall x | x in db'.orders
      ensures var o := db'.orders[x].order; IsUuid(o.trace) && o == orderOf(o.trace) && HasTrace(db'.intents, o.trace) {
      if w.InsertIntent? {
        TraceAfterAppend(db.intents, w.row, db.orders[x].order.trace);
      } else if w.UpdateIntent? {
        TraceAfterStatus(db.intents, w.intent, w.status, db.orders[x].order.trace);
      }
    }
  }

  lemma {:induction false} WriteKeepsOrphans(db: Db, w: Write, orderOf: string -> ProposedOrder)
    requires OrphansOutstanding(db) && PlanOk(db, w, orderOf)
    ensures OrphansOutstanding(Written(db, w))
  {
    var db' := Written(db, w);
    forall i | 0 <= i < |db'.intents|
      ensures db'.intents[i].status.IsOutstanding() || TraceHasRow(db', db'.intents[i].order.trace) {
      if i < |db.intents| && TraceHasRow(db, db.intents[i].order.trace) {
        RowAfterWrite(db, w, db.intents[i].order.trace);
      }
    }
  }

  lemma {:induction false} WriteKeepsPlan(db: Db, w: Write, orderOf: string -> ProposedOrder)
    requires Planned(db, orderOf) && PlanOk(db, w, orderOf)
    ensures Planned(Written(db, w), orderOf)
  {
    WriteKeepsRows(db, w, orderOf);
    WriteKeepsOrphans(db, w, orderOf);
  }

  ghost predicate PlanAlong(db: Db, ws: seq<Write>, orderOf: string -> ProposedOrder)
    decreases |ws|
  {
    ws == [] || (PlanOk(db, ws[0], orderOf) && PlanAlong(Written(db, ws[0]), ws[1..], orderOf))
  }

  lemma {:induction false} PrefixPlanned(db: Db, ws: seq<Write>, k: nat, orderOf: string -> ProposedOrder)
    requires Planned(db, orderOf) && PlanAlong(db, ws, orderOf) && k <= |ws|
    ensures Planned(AllWritten(db, ws[..k]), orderOf)
    decreases k
  {
    if k > 0 {
      WriteKeepsPlan(db, ws[0], orderOf);
      PrefixPlanned(Written(db, ws[0]), ws[1..], k - 1, orderOf);
      assert ws[..k][0] == ws[0] && ws[..k][1..] == ws[1..][..k - 1];
    }
  }

  lemma {:induction false} PlanAlongConcat(db: Db, ws: seq<Write>, more: seq<Write>, orderOf: string -> ProposedOrder)
    requires PlanAlong(db, ws, orderOf) && PlanAlong(AllWritten(db, ws), more, orderOf)
    ensures PlanAlong(db, ws + more, orderOf)
    decreases |ws|
  {
    if ws == [] {
      assert ws + more == more;
    } else {
      PlanAlongConcat(Written(db, ws[0]), ws[1..], more, orderOf);
      assert (ws + more)[0] == ws[0] && (ws + more)[1..] == ws[1..] + more;
    }
  }

  /** Both disciplines, for writes that follow each other. */
  ghost predicate Disciplined(db: Db, ws: seq<Write>, orderOf: string -> ProposedOrder)
  {
    OkAlong(db, ws) && PlanAlong(db, ws, orderOf)
  }

  lemma {:induction false} OneMoreWrite(db: Db, w: Write, rest: seq<Write>, orderOf: string -> ProposedOrder)
    requires WriteOk(db, w) && PlanOk(db, w, orderOf) && Disciplined(Written(db, w), rest, orderOf)
    ensures Disciplined(db, [w] + rest, orderOf)
  {
    assert ([w] + rest)[1..] == rest;
  }

  // ---------- the writes of each operation ----------

  lemma {:induction false} ClosePlanned(db: Db, x: OrderId, rec: OrderRecord, i: IntentId, t: IntentStatus,
                                        orderOf: string -> ProposedOrder)
    requires OrderTracesUnique(db) && x in db.orders && i < |db.intents| && db.intents[i].order == db.orders[x].order
    requires rec.status.IsTerminal() || (!db.orders[x].status.IsTerminal() && t.IsOutstanding())
    requires rec.status != Pending
    ensures Disciplined(db, [UpdateOrder(x, rec)] + [UpdateIntent(i, t)], orderOf)
  {
    var w, v := UpdateOrder(x, rec), UpdateIntent(i, t);
    CloseOkAlong(db, x, rec, i, t);
    assert ([w] + [v])[1..] == [v] && [v][1..] == [];
    assert Written(db, w).orders[x].order == db.orders[x].order;
    assert TraceHasRow(Written(db, w), db.intents[i].order.trace);
  }

  lemma {:induction false} CancelDisciplined(b: Books, x: OrderId, orderOf: string -> ProposedOrder)
    requires OpenAt(b, x) && OrderTracesUnique(b.db)
    ensures Disciplined(b.db, CancelWrites(b, x), orderOf)
  {
    var rec, i := b.open[x].(status := Cancelled), b.intentOf[x];
    assert CancelWrites(b, x) == [UpdateOrder(x, rec)] + [UpdateIntent(i, ICancelled)];
    ClosePlanned(b.db, x, rec, i, ICancelled, orderOf);
  }

  lemma {:induction false} FillDisciplined(b: Books, x: OrderId, f: VenueFill, orderOf: string -> ProposedOrder)
    requires OpenAt(b, x) && OrderTracesUnique(b.db)
    ensures Disciplined(b.db, FillWrites(b, x, f), orderOf)
  {
    var rec, first := FilledRecord(b.open[x], f), InsertFill(FillRow(x, f.quantity, f.price));
    var db' := Written(b.db, first);
    FillOkAlong(b, x, f);
    if Completes(b.open[x], f) {
      var rest := [UpdateOrder(x, rec.(status := Filled))] + [UpdateIntent(b.intentOf[x], IFilled)];
      assert FillWrites(b, x, f) == [first] + rest;
      ClosePlanned(db', x, rec.(status := Filled), b.intentOf[x], IFilled, orderOf);
      OneMoreWrite(b.db, first, rest, orderOf);
    } else {
      var w := UpdateOrder(x, rec.(status := PartiallyFilled));
      assert FillWrites(b, x, f) == [first] + [w];
      assert ([first] + [w])[1..] == [w] && [w][1..] == [];
    }
  }

  lemma {:induction false} PlaceDisciplined(db: Db, a: Approval, x: OrderId, reply: Reply, i: IntentId,
                                            orderOf: string -> ProposedOrder)
    requires OrderTracesUnique(db) && x !in db.orders && !TraceHasRow(db, a.order.trace)
    requires i < |db.intents| && db.intents[i].order == a.order && db.intents[i].status.IsOutstanding()
    requires IsUuid(a.order.trace) && a.order == orderOf(a.order.trace)
    ensures Disciplined(db, PlaceWrites(a, x, reply, i), orderOf)
  {
    var rec, upd := NewRecord(a).(exchangeId := None), Answered(a, reply).(status := ReplyStatus(reply));
    var w := InsertOrder(x, rec);
    var db1 := Written(db, w);
    var rest := [UpdateOrder(x, upd)] + [UpdateIntent(i, ReplyIntentStatus(reply))];
    assert PlaceWrites(a, x, reply, i) == [w] + rest;
    assert Backed(db, a.order);
    forall y | y in db.orders ensures db.orders[y].order.trace != a.order.trace {
    }
    assert OrderTracesUnique(db1);
    ClosePlanned(db1, x, upd, i, ReplyIntentStatus(reply), orderOf);
    OneMoreWrite(db, w, rest, orderOf);
  }

  // ---------- the engine after restarts ----------

  /** Memory holds exactly the rows that are not terminal, each with its outstanding intent. */
  ghost predicate MemorySound(b: Books)
  {
    (forall x :: x in b.open ==> OpenAt(b, x)) && (forall x :: Live(b.db, x) ==> x in b.open)
  }

  ghost predicate CrashSound(b: Books, orderOf: string -> ProposedOrder)
  {
    Safe(b.db) && Planned(b.db, orderOf) && MemorySound(b)
  }

  /** A trace names one order: a retry sends the same order again. */
  ghost predicate RetryOk(b: Books, s: Step, orderOf: string -> ProposedOrder)
  {
    match s
    case DoSubmit(a, id, _) => id !in b.db.orders && IsUuid(a.order.trace) && a.order == orderOf(a.order.trace)
    case DoCancelAll(ks) => Lists(ks, b.open.Keys)
    case DoFill(f, hit) => Matches(b, f, hit)
    case _ => true
  }

  /** Once a trace has a row, submitting it again stops at the key. */
  lemma {:induction false} RowStopsSubmit(b: Books, a: Approval, limits: Limits, x: OrderId, reply: Reply,
      orderOf: string -> ProposedOrder)
    requires RowsPlanned(b.db, orderOf) && a.order == orderOf(a.order.trace) && TraceHasRow(b.db, a.order.trace)
    ensures SubmitWrites(b, a, limits, x, reply) == [] && Submit(b, a, limits, x, reply) == b
  {
    var y :| y in b.db.orders && b.db.orders[y].order.trace == a.order.trace;
    assert FullKey(b.db.orders[y].order) == FullKey(a.order);
    assert KeyTaken(b.db.orders, a.order);
  }

  lemma {:induction false} OrphanIsOurs(b: Books, a: Approval, limits: Limits, orderOf: string -> ProposedOrder)
    requires Planned(b.db, orderOf) && a.order == orderOf(a.order.trace) && !TraceHasRow(b.db, a.order.trace)
    requires HasTrace(b.db.intents, a.order.trace) && Enters(b, a, limits)
    ensures var i := IntentFor(b, a, limits).value;
      i < |b.db.intents| && b.db.intents[i].order == a.order && b.db.intents[i].status.IsOutstanding()
  {
  }

  lemma {:induction false} AppendedSound(db: Db, row: OrderIntent, orderOf: string -> ProposedOrder)
    requires LedgerOk(db) && ValidIntent(row) && !HasTrace(db.intents, row.order.trace)
    requires row.status.IsOutstanding() && row.order == orderOf(row.order.trace)
    ensures WriteOk(db, InsertIntent(row)) && PlanOk(db, InsertIntent(row), orderOf)
    ensures var db1 := Written(db, InsertIntent(row));
      |db.intents| < |db1.intents| && db1.intents[|db.intents|] == row && db1.orders == db.orders
  {
  }

  lemma {:induction false} SubmitDisciplined(b: Books, a: Approval, limits: Limits, x: OrderId, reply: Reply,
      orderOf: string -> ProposedOrder)
    requires CrashSound(b, orderOf) && RetryOk(b, DoSubmit(a, x, reply), orderOf)
    ensures Disciplined(b.db, SubmitWrites(b, a, limits, x, reply), orderOf)
  {
    if TraceHasRow(b.db, a.order.trace) {
      RowStopsSubmit(b, a, limits, x, reply, orderOf);
    } else if Enters(b, a, limits) {
      UuidIsItsColumn(a.order.trace);
      NoRowNoKey(b.db, a.order);
      if HasTrace(b.db.intents, a.order.trace) {
        OrphanIsOurs(b, a, limits, orderOf);
        ReuseWrites(b, a, limits, x, reply);
        PlaceDisciplined(b.db, a, x, reply, IntentFor(b, a, limits).value, orderOf);
      } else {
        var row := NewIntentFromApproval(a.order, a.hmac);
        SubmitWritesListed(b, a, limits, x, reply);
        AppendedSound(b.db, row, orderOf);
        PlaceDisciplined(Written(b.db, InsertIntent(row)), a, x, reply, |b.db.intents|, orderOf);
        OneMoreWrite(b.db, InsertIntent(row), PlaceWrites(a, x, reply, |b.db.intents|), orderOf);
      }
    }
  }

  // ---------- memory ----------

  lemma {:induction false} ClosedKeepsOthers(b: Books, x: OrderId, i: IntentId, b': Books, y: OrderId)
    requires Closed(b, x, i, b') && OrderTracesUnique(b.db) && OpenAt(b, x) && OpenAt(b, y) && y != x
    ensures OpenAt(b', y)
  {
    assert b.intentOf[y] != i;
  }

  lemma {:induction false} CancelKeepsOpen(b: Books, x: OrderId, ok: bool)
    requires OrderTracesUnique(b.db) && MemorySound(b)
    ensures MemorySound(Cancel(b, x, ok))
  {
    if x in b.open && ok {
      CancelCloses(b, x);
      forall y | y in Cancel(b, x, ok).open ensures OpenAt(Cancel(b, x, ok), y) {
        ClosedKeepsOthers(b, x, b.intentOf[x], Cancel(b, x, ok), y);
      }
    }
  }

  lemma {:induction false} TouchedKeepsOpen(b: Books, x: OrderId, b': Books, y: OrderId)
    requires Touched(b, x, b') && OpenAt(b, x) && OpenAt(b, y)
    ensures OpenAt(b', y)
  {
    if y == x {
      assert LoadedRecord(b'.open[x]).order == LoadedRecord(b'.db.orders[x]).order;
    }
  }

  lemma {:induction false} FillKeepsOpen(b: Books, f: VenueFill, hit: Option<OrderId>)
    requires OrderTracesUnique(b.db) && Matches(b, f, hit) && MemorySound(b)
    ensures MemorySound(ProcessFill(b, f, hit))
  {
    if hit.Some? && FillAccepted(f) {
      var x, b' := hit.value, ProcessFill(b, f, hit);
      if Completes(b.open[x], f) {
        FillCloses(b, x, f);
        forall y | y in b'.open ensures OpenAt(b', y) {
          ClosedKeepsOthers(b, x, b.intentOf[x], b', y);
        }
      } else {
        FillTouches(b, x, f);
        forall y | y in b'.open ensures OpenAt(b', y) {
          TouchedKeepsOpen(b, x, b', y);
        }
      }
    }
  }

  /** What placing on intent i leaves of the books. */
  ghost predicate PlacedOn(b: Books, a: Approval, x: OrderId, reply: Reply, i: IntentId, b': Books)
  {
    && x !in b.db.orders && i < |b'.db.intents| && |b.db.intents| <= |b'.db.intents|
    && b'.db.orders == b.db.orders[x := Answered(a, reply).(status := ReplyStatus(reply))]
    && (forall j :: 0 <= j < |b.db.intents| && j != i ==> b'.db.intents[j] == b.db.intents[j])
    && b'.db.intents[i].order == a.order
    && (reply.VenueAccepted? ==>
          && b'.db.intents[i].status.IsOutstanding()
          && b'.open == b.open[x := Answered(a, reply).(status := Open)] && b'.intentOf == b.intentOf[x := i])
    && (!reply.VenueAccepted? ==> b'.open == b.open && b'.intentOf == b.intentOf)
  }

  lemma {:induction false} ReusePlaces(b: Books, a: Approval, limits: Limits, x: OrderId, reply: Reply)
    requires ReachesVenue(b, a, limits) && x !in b.db.orders && IntentFor(b, a, limits).value < |b.db.intents|
    requires b.db.intents[IntentFor(b, a, limits).value].order == a.order
    requires b.db.intents[IntentFor(b, a, limits).value].status.IsOutstanding()
    ensures PlacedOn(b, a, x, reply, IntentFor(b, a, limits).value, Submit(b, a, limits, x, reply))
  {
    ReuseWrites(b, a, limits, x, reply);
  }

  lemma {:induction false} NewPlaces(b: Books, a: Approval, limits: Limits, x: OrderId, reply: Reply)
    requires ReachesVenue(b, a, limits) && x !in b.db.orders && IntentFor(b, a, limits).value == |b.db.intents|
    ensures PlacedOn(b, a, x, reply, |b.db.intents|, Submit(b, a, limits, x, reply))
  {
    SubmitWritesNew(b, a, limits, x, reply);
  }

  lemma {:induction false} PlacedKeepsOpen(b: Books, a: Approval, x: OrderId, reply: Reply, i: IntentId, b': Books,
      y: OrderId)
    requires PlacedOn(b, a, x, reply, i, b') && !TraceHasRow(b.db, a.order.trace) && y in b'.open
    requires y != x || !reply.VenueAccepted? ==> OpenAt(b, y)
    requires i < |b.db.intents| ==> b.db.intents[i].order == a.order
    ensures OpenAt(b', y)
  {
    if y != x {
      assert y in b.db.orders && b.db.orders[y].order.trace != a.order.trace;
      assert b.intentOf[y] != i;
    }
  }

  lemma {:induction false} SubmitKeepsOpen(b: Books, a: Approval, limits: Limits, x: OrderId, reply: Reply,
      orderOf: string -> ProposedOrder)
    requires CrashSound(b, orderOf) && RetryOk(b, DoSubmit(a, x, reply), orderOf)
    ensures MemorySound(Submit(b, a, limits, x, reply))
  {
    var b' := Submit(b, a, limits, x, reply);
    if TraceHasRow(b.db, a.order.trace) {
      RowStopsSubmit(b, a, limits, x, reply, orderOf);
    } else if Enters(b, a, limits) {
      UuidIsItsColumn(a.order.trace);
      NoRowNoKey(b.db, a.order);
      var i := IntentFor(b, a, limits).value;
      if HasTrace(b.db.intents, a.order.trace) {
        OrphanIsOurs(b, a, limits, orderOf);
        ReusePlaces(b, a, limits, x, reply);
      } else {
        NewPlaces(b, a, limits, x, reply);
      }
      PlacedKeepsMemory(b, a, x, reply, i, b');
    } else {
      assert b' == b;
    }
  }

  lemma {:induction false} PlacedKeepsMemory(b: Books, a: Approval, x: OrderId, reply: Reply, i: IntentId, b': Books)
    requires PlacedOn(b, a, x, reply, i, b') && !TraceHasRow(b.db, a.order.trace) && MemorySound(b)
    requires i < |b.db.intents| ==> b.db.intents[i].order == a.order
    ensures MemorySound(b')
  {
    forall y | y in b'.open ensures OpenAt(b', y) {
      PlacedKeepsOpen(b, a, x, reply, i, b', y);
    }
    forall y | Live(b'.db, y) ensures y in b'.open {
      if y != x {
        assert Live(b.db, y);
      }
    }
  }

  // ---------- steps ----------

  lemma {:induction false} WholeKeepsTables(db: Db, ws: seq<Write>, k: nat, orderOf: string -> ProposedOrder)
    requires Safe(db) && Planned(db, orderOf) && Disciplined(db, ws, orderOf) && k <= |ws|
    ensures Safe(AllWritten(db, ws[..k])) && Planned(AllWritten(db, ws[..k]), orderOf)
  {
    PrefixSafe(db, ws, k);
    PrefixPlanned(db, ws, k, orderOf);
  }

  lemma {:induction false} CancelKeepsSound(b: Books, x: OrderId, orderOf: string -> ProposedOrder)
    requires CrashSound(b, orderOf)
    ensures CrashSound(Cancel(b, x, true), orderOf)
  {
    CancelKeepsOpen(b, x, true);
    if x in b.open {
      var ws := CancelWrites(b, x);
      CancelDisciplined(b, x, orderOf);
      WholeKeepsTables(b.db, ws, |ws|, orderOf);
      assert ws[..|ws|] == ws;
    }
  }

  lemma {:induction false} CancelAllDisciplined(b: Books, ks: seq<OrderId>, orderOf: string -> ProposedOrder)
    requires CrashSound(b, orderOf)
    ensures Disciplined(b.db, CancelAllWrites(b, ks), orderOf) && CrashSound(CancelEach(b, ks), orderOf)
    ensures AllWritten(b.db, CancelAllWrites(b, ks)) == CancelEach(b, ks).db
    decreases |ks|
  {
    if ks != [] {
      var first, b1 := if ks[0] in b.open then CancelWrites(b, ks[0]) else [], Cancel(b, ks[0], true);
      var rest := CancelAllWrites(b1, ks[1..]);
      CancelKeepsSound(b, ks[0], orderOf);
      CancelAllDisciplined(b1, ks[1..], orderOf);
      if ks[0] in b.open {
        CancelDisciplined(b, ks[0], orderOf);
      }
      OkAlongConcat(b.db, first, rest);
      PlanAlongConcat(b.db, first, rest, orderOf);
      WritesInTwo(b.db, first, rest);
    }
  }

  lemma {:induction false} StepDisciplined(b: Books, s: Step, orderOf: string -> ProposedOrder, limits: Limits)
    requires CrashSound(b, orderOf) && RetryOk(b, s, orderOf)
    ensures Disciplined(b.db, StepWrites(b, s, limits), orderOf)
  {
    match s
    case DoSubmit(a, id, reply) => SubmitDisciplined(b, a, limits, id, reply, orderOf);
    case DoCancel(x, ok) => if x in b.open && ok { CancelDisciplined(b, x, orderOf); }
    case DoCancelAll(ks) => CancelAllDisciplined(b, ks, orderOf);
    case DoFill(f, hit) => if hit.Some? && FillAccepted(f) { FillDisciplined(b, hit.value, f, orderOf); }
    case _ =>
  }

  /** Row by row: what a restart loads is an open order with its outstanding intent. */
  lemma {:induction false} LoadedIsOpen(db: Db, x: OrderId, illegal: nat, orderOf: string -> ProposedOrder)
    requires Safe(db) && Planned(db, orderOf) && Loadable(db) && x in LoadedOrders(db)
    ensures OpenAt(Restarted(db, illegal), x)
  {
    var row := db.orders[x];
    assert Live(db, x);
    ReadBackIs(row);
    UuidIsItsColumn(row.order.trace);
    var i := BackingRow(db, x);
    LookupIs(db.intents, i);
  }

  lemma {:induction false} RestartIsSound(db: Db, illegal: nat, orderOf: string -> ProposedOrder)
    requires Safe(db) && Planned(db, orderOf) && Loadable(db)
    ensures CrashSound(Restarted(db, illegal), orderOf)
  {
    forall x | x in Restarted(db, illegal).open ensures OpenAt(Restarted(db, illegal), x) {
      LoadedIsOpen(db, x, illegal, orderOf);
    }
  }

  lemma {:induction false} MemoryIsLoadable(b: Books)
    requires MemorySound(b)
    ensures Loadable(b.db)
  {
    forall x | Live(b.db, x) ensures b.db.orders[x].exchangeId.Some? {
      assert LoadedRecord(b.open[x]).exchangeId == LoadedRecord(b.db.orders[x]).exchangeId;
    }
  }

  lemma {:induction false} GatesKeepSound(b: Books, b': Books, orderOf: string -> ProposedOrder)
    requires CrashSound(b, orderOf) && b'.db == b.db && b'.open == b.open && b'.intentOf == b.intentOf
    ensures CrashSound(b', orderOf)
  {
    forall x | x in b'.open ensures OpenAt(b', x) {
      assert OpenAt(b, x);
    }
  }

  lemma {:induction false} SubmitKeepsSound(b: Books, a: Approval, limits: Limits, x: OrderId, reply: Reply,
      orderOf: string -> ProposedOrder)
    requires CrashSound(b, orderOf) && RetryOk(b, DoSubmit(a, x, reply), orderOf)
    ensures CrashSound(Submit(b, a, limits, x, reply), orderOf)
  {
    var ws := SubmitWrites(b, a, limits, x, reply);
    SubmitKeepsOpen(b, a, limits, x, reply, orderOf);
    SubmitDisciplined(b, a, limits, x, reply, orderOf);
    SubmitWritesAreAll(b, a, limits, x, reply);
    WholeKeepsTables(b.db, ws, |ws|, orderOf);
    assert ws[..|ws|] == ws;
  }

  lemma {:induction false} FillKeepsSound(b: Books, f: VenueFill, hit: Option<OrderId>,
      orderOf: string -> ProposedOrder)
    requires CrashSound(b, orderOf) && Matches(b, f, hit)
    ensures CrashSound(ProcessFill(b, f, hit), orderOf)
  {
    FillKeepsOpen(b, f, hit);
    if hit.Some? && FillAccepted(f) {
      var ws := FillWrites(b, hit.value, f);
      FillDisciplined(b, hit.value, f, orderOf);
      FillWritesAreAll(b, hit.value, f);
      WholeKeepsTables(b.db, ws, |ws|, orderOf);
      assert ws[..|ws|] == ws;
    }
  }

  lemma {:induction false} StepKeepsSound(b: Books, s: Step, orderOf: string -> ProposedOrder, limits: Limits)
    requires CrashSound(b, orderOf) && RetryOk(b, s, orderOf)
    ensures CrashSound(EngineNext(b, s, limits), orderOf)
  {
    match s
    case DoSubmit(a, id, reply) => SubmitKeepsSound(b, a, limits, id, reply, orderOf);
    case DoCancel(x, ok) => if ok { CancelKeepsSound(b, x, orderOf); }
    case DoCancelAll(ks) => CancelAllDisciplined(b, ks, orderOf);
    case DoFill(f, hit) => FillKeepsSound(b, f, hit, orderOf);
    case DoSetMode(m) => GatesKeepSound(b, b.(mode := m), orderOf);
    case DoSetReconciled(v) => GatesKeepSound(b, b.(reconciled := v), orderOf);
    case DoRestart => MemoryIsLoadable(b); RestartIsSound(b.db, b.illegal, orderOf);
  }

  // ---------- runs ----------

  /** A step runs to its end, or the process dies after k of its writes and is restarted. */
  datatype CrashEvent = Whole(step: Step) | Dies(step: Step, k: nat)

  /** The database a process leaves behind that dies after k writes of the step. */
  ghost function Left(b: Books, s: Step, k: nat, limits: Limits): Db
    requires k <= |StepWrites(b, s, limits)|
  {
    AllWritten(b.db, StepWrites(b, s, limits)[..k])
  }

  /** The run goes on after a death only where the restart succeeds. */
  ghost predicate CrashEventOk(b: Books, e: CrashEvent, orderOf: string -> ProposedOrder, limits: Limits)
  {
    RetryOk(b, e.step, orderOf) &&
    (e.Dies? ==> e.k <= |StepWrites(b, e.step, limits)| && Loadable(Left(b, e.step, e.k, limits)))
  }

  ghost function CrashNext(b: Books, e: CrashEvent, orderOf: string -> ProposedOrder, limits: Limits): Books
    requires CrashEventOk(b, e, orderOf, limits)
  {
    match e
    case Whole(s) => EngineNext(b, s, limits)
    case Dies(s, k) => Restarted(Left(b, s, k, limits), b.illegal)
  }

  ghost predicate CrashRunOk(b: Books, es: seq<CrashEvent>, orderOf: string -> ProposedOrder, limits: Limits)
    decreases |es|
  {
    es == [] ||
    (CrashEventOk(b, es[0], orderOf, limits)
      && CrashRunOk(CrashNext(b, es[0], orderOf, limits), es[1..], orderOf, limits))
  }

  ghost function CrashAfter(b: Books, es: seq<CrashEvent>, orderOf: string -> ProposedOrder, limits: Limits): Books
    requires CrashRunOk(b, es, orderOf, limits)
    decreases |es|
  {
    if es == [] then b else CrashAfter(CrashNext(b, es[0], orderOf, limits), es[1..], orderOf, limits)
  }

  lemma {:induction false} LeftIsSafe(b: Books, s: Step, k: nat, orderOf: string -> ProposedOrder, limits: Limits)
    requires CrashSound(b, orderOf) && RetryOk(b, s, orderOf) && k <= |StepWrites(b, s, limits)|
    ensures Safe(Left(b, s, k, limits)) && Planned(Left(b, s, k, limits), orderOf)
  {
    StepDisciplined(b, s, orderOf, limits);
    WholeKeepsTables(b.db, StepWrites(b, s, limits), k, orderOf);
  }

  lemma {:induction false} CrashRunKeepsSound(b: Books, es: seq<CrashEvent>, orderOf: string -> ProposedOrder,
      limits: Limits)
    requires CrashSound(b, orderOf) && CrashRunOk(b, es, orderOf, limits)
    ensures CrashSound(CrashAfter(b, es, orderOf, limits), orderOf)
    decreases |es|
  {
    if es != [] {
      match es[0] {
        case Whole(s) => StepKeepsSound(b, s, orderOf, limits);
        case Dies(s, k) =>
          LeftIsSafe(b, s, k, orderOf, limits);
          RestartIsSound(Left(b, s, k, limits), b.illegal, orderOf);
      }
      CrashRunKeepsSound(CrashNext(b, es[0], orderOf, limits), es[1..], orderOf, limits);
    }
  }

  lemma {:induction false} FreshIsSound(orderOf: string -> ProposedOrder)
    ensures CrashSound(FRESH, orderOf)
  {
  }

  /**
   Main result: over every run with any number of deaths at any writes and restarts in between, in which a retry sends
   the same order again, the tables at every further write have an outstanding intent for every order row that is not
   terminal, and replaying them never undercounts those orders; between operations the restart always works.
   */
  lemma {:induction false} CrashRunsNeverUndercount(es: seq<CrashEvent>, orderOf: string -> ProposedOrder,
      limits: Limits, s: Step, k: nat)
    requires CrashRunOk(FRESH, es, orderOf, limits)
    requires var b := CrashAfter(FRESH, es, orderOf, limits); RetryOk(b, s, orderOf) && k <= |StepWrites(b, s, limits)|
    ensures var b := CrashAfter(FRESH, es, orderOf, limits); Loadable(b.db) && NothingLost(Left(b, s, k, limits))
  {
    var b := CrashAfter(FRESH, es, orderOf, limits);
    FreshIsSound(orderOf);
    CrashRunKeepsSound(FRESH, es, orderOf, limits);
    MemoryIsLoadable(b);
    LeftIsSafe(b, s, k, orderOf, limits);
    SafeLosesNothing(Left(b, s, k, limits));
  }

  /**
   Main result: over the same runs, the next restart fails if and only if the answer to a submit is not yet recorded.
   */
  lemma {:induction false} CrashRunsLoadExactlyUnless(es: seq<CrashEvent>, orderOf: string -> ProposedOrder,
      limits: Limits,
                                                      s: Step, k: nat)
    requires CrashRunOk(FRESH, es, orderOf, limits)
    requires var b := CrashAfter(FRESH, es, orderOf, limits); RetryOk(b, s, orderOf) && k <= |StepWrites(b, s, limits)|
    ensures var b := CrashAfter(FRESH, es, orderOf, limits);
      Loadable(Left(b, s, k, limits))
      <==> !(s.DoSubmit? && ReachesVenue(b, s.a, limits) && k + 2 == |StepWrites(b, s, limits)|)
  {
    var b := CrashAfter(FRESH, es, orderOf, limits);
    FreshIsSound(orderOf);
    CrashRunKeepsSound(FRESH, es, orderOf, limits);
    SoundLoadsExactlyUnless(b, s, orderOf, limits, k);
  }

  lemma {:induction false} SoundLoadsExactlyUnless(b: Books, s: Step, orderOf: string -> ProposedOrder, limits: Limits,
      k: nat)
    requires MemorySound(b) && RetryOk(b, s, orderOf) && k <= |StepWrites(b, s, limits)|
    ensures Loadable(Left(b, s, k, limits))
            <==> !(s.DoSubmit? && ReachesVenue(b, s.a, limits) && k + 2 == |StepWrites(b, s, limits)|)
  {
    MemoryIsLoadable(b);
    assert forall x :: x in b.open ==> OpenAt(b, x);
    CrashLoadsExactlyUnless(b, s, limits, k);
  }

  // ---------- a retry that sends another order ----------

  lemma {:induction false} SameOrderLosesNothing(b: Books, a: Approval, limits: Limits, x: OrderId, e: ExchangeId,
                                                 orderOf: string -> ProposedOrder)
    requires CrashSound(b, orderOf) && x !in b.db.orders && IsUuid(a.order.trace) && a.order == orderOf(a.order.trace)
    ensures NothingLost(Submit(b, a, limits, x, VenueAccepted(e)).db)
  {
    SubmitKeepsSound(b, a, limits, x, VenueAccepted(e), orderOf);
    SafeLosesNothing(Submit(b, a, limits, x, VenueAccepted(e)).db);
  }

  lemma {:induction false} BackedUnderStatus(rows: seq<OrderIntent>, i: IntentId, s: IntentStatus, db: Db,
      o: ProposedOrder)
    requires TracesUnique(rows) && i < |rows| && rows[i].order.trace == o.trace
    requires db.intents == WithStatus(rows, i, s) && Backed(db, o)
    ensures o == rows[i].order
  {
    var j :| 0 <= j < |db.intents| && db.intents[j].order == o && db.intents[j].status.IsOutstanding();
    assert rows[j].order == o;
  }

  lemma {:induction false} LiveIsBacked(db: Db, x: OrderId)
    requires NothingLost(db) && Live(db, x)
    ensures Backed(db, db.orders[x].order)
  {
  }

  lemma {:induction false} BackedByOrphan(b: Books, a: Approval, limits: Limits, x: OrderId, e: ExchangeId)
    requires TracesUnique(b.db.intents) && ReachesVenue(b, a, limits) && HasTrace(b.db.intents, a.order.trace)
    requires NothingLost(Submit(b, a, limits, x, VenueAccepted(e)).db)
    ensures IntentFor(b, a, limits).value < |b.db.intents|
    ensures a.order == b.db.intents[IntentFor(b, a, limits).value].order
  {
    var i, db := IntentFor(b, a, limits).value, Submit(b, a, limits, x, VenueAccepted(e)).db;
    ReuseWrites(b, a, limits, x, VenueAccepted(e));
    LiveIsBacked(db, x);
    BackedUnderStatus(b.db.intents, i, IOpen, db, a.order);
  }

  /**
   Main result, why a retry must send the same order: from every state of every such run, a retry of a trace that left
   an intent and no order is accepted on that intent, and nothing is lost if and only if it is the order of that
   intent.
   */
  lemma {:induction false} RetryLosesNothingExactlyWhen(b: Books, a: Approval, limits: Limits, x: OrderId,
      e: ExchangeId,
                                                        orderOf: string -> ProposedOrder)
    requires CrashSound(b, orderOf) && x !in b.db.orders && IsUuid(a.order.trace) && ReachesVenue(b, a, limits)
    requires HasTrace(b.db.intents, a.order.trace) && !TraceHasRow(b.db, a.order.trace)
    ensures IntentFor(b, a, limits).value < |b.db.intents|
    ensures NothingLost(Submit(b, a, limits, x, VenueAccepted(e)).db)
            <==> a.order == b.db.intents[IntentFor(b, a, limits).value].order
  {
    var i := IntentFor(b, a, limits).value;
    if a.order == b.db.intents[i].order {
      assert a.order == orderOf(a.order.trace);
      SameOrderLosesNothing(b, a, limits, x, e, orderOf);
    } else if NothingLost(Submit(b, a, limits, x, VenueAccepted(e)).db) {
      BackedByOrphan(b, a, limits, x, e);
    }
  }

  /** The engine after a restart that found one intent and no order. */
  ghost function WithOrphan(a: Approval): Books
  {
    Restarted(Db([NewIntentFromApproval(a.order, a.hmac)], map[], []), 0).(reconciled := true)
  }

  function SideOf(o: ProposedOrder): MarketSide { MarketSide(o.market, o.side) }

  lemma {:induction false} OrphanRetry(a1: Approval, a2: Approval, limits: Limits)
    requires Submittable(a1) && Submittable(a2) && a1.order.trace == a2.order.trace
    ensures var b := Submit(WithOrphan(a1), a2, limits, 1, VenueAccepted(1));
      b.db.intents == [NewIntentFromApproval(a1.order, a1.hmac).(status := IOpen)]
      && b.db.orders == map[1 := Answered(a2, VenueAccepted(1)).(status := Open)]
  {
    var r, row := WithOrphan(a1), NewIntentFromApproval(a1.order, a1.hmac);
    assert r.db.intents[0].order.trace == a2.order.trace;
    assert HasTrace(r.db.intents, a2.order.trace);
    UuidIsItsColumn(a2.order.trace);
    ReuseWrites(r, a2, limits, 1, VenueAccepted(1));
    assert WithStatus([row], 0, IOpen) == [row.(status := IOpen)];
  }

  lemma {:induction false} OneIntentExposure(row: OrderIntent, key: MarketSide)
    requires row.status.IsOutstanding()
    ensures Replay([row]).At(key).notional == if row.Key() == key then row.order.notional else 0
    ensures Replay([row]).total == row.order.notional
  {
    assert [row][..0] == [];
    assert Replay([row]) == Apply(EMPTY, row);
  }

  lemma {:induction false} OneLiveOrder(db: Db, o: ProposedOrder, key: MarketSide)
    requires db.orders.Keys == {1} && db.orders[1].order == o && db.orders[1].status == Open
    ensures SumSet(LiveOrders(db), LiveNotional(db, key)) == if SideOf(o) == key then o.notional else 0
    ensures SumSet(LiveOrders(db), LiveAnyNotional(db)) == o.notional
  {
    assert LiveOrders(db) == {1};
    SumSetPick(LiveOrders(db), 1, LiveNotional(db, key));
    SumSetPick(LiveOrders(db), 1, LiveAnyNotional(db));
  }

  /** Replayed exposure is no less than the live notional, per market side and in total. */
  ghost predicate ExposureCovered(db: Db)
  {
    && (forall key: MarketSide :: SumSet(LiveOrders(db), LiveNotional(db, key)) <= Replay(db.intents).At(key).notional)
    && SumSet(LiveOrders(db), LiveAnyNotional(db)) <= Replay(db.intents).total
  }

  /**
   On the smallest such state the exposure alone is still covered if and only if the retry is for the same market side
   and its notional is not larger.
   */
  lemma {:induction false} RetryCoveredExactlyWhen(a1: Approval, a2: Approval, limits: Limits)
    requires Submittable(a1) && Submittable(a2) && a1.order.trace == a2.order.trace
    ensures ExposureCovered(Submit(WithOrphan(a1), a2, limits, 1, VenueAccepted(1)).db)
            <==> SideOf(a2.order) == SideOf(a1.order) && a2.order.notional <= a1.order.notional
  {
    var db := Submit(WithOrphan(a1), a2, limits, 1, VenueAccepted(1)).db;
    OrphanRetry(a1, a2, limits);
    forall key: MarketSide
      ensures SumSet(LiveOrders(db), LiveNotional(db, key)) == if SideOf(a2.order) == key then a2.order.notional else 0
      ensures Replay(db.intents).At(key).notional == if SideOf(a1.order) == key then a1.order.notional else 0 {
      OneIntentExposure(db.intents[0], key);
      OneLiveOrder(db, a2.order, key);
    }
    OneIntentExposure(db.intents[0], SideOf(a2.order));
    OneLiveOrder(db, a2.order, SideOf(a2.order));
    if ExposureCovered(db) {
      var key := SideOf(a2.order);
      assert SumSet(LiveOrders(db), LiveNotional(db, key)) <= Replay(db.intents).At(key).notional;
    }
  }
}
