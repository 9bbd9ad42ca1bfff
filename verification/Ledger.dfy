/** The append-only intent ledger: idempotent append behind the exposure check, and guarded status updates. */
module IntentLedger {
  import opened Orders
  import opened Intents
  import opened Exposure
  import opened Sums

  /** The unique index on trace_id. */
  ghost predicate TracesUnique(rows: seq<OrderIntent>)
  {
    forall i, j :: 0 <= i < j < |rows| ==> rows[i].order.trace != rows[j].order.trace
  }

  ghost predicate HasTrace(rows: seq<OrderIntent>, trace: string)
  {
    exists i :: 0 <= i < |rows| && rows[i].order.trace == trace
  }

  /** The row a lookup by trace finds. */
  ghost function Lookup(rows: seq<OrderIntent>, trace: string): (r: Option<IntentId>)
    ensures r.Some? <==> HasTrace(rows, trace)
    ensures r.Some? ==> r.value < |rows| && rows[r.value].order.trace == trace
  {
    if HasTrace(rows, trace) then
      var i :| 0 <= i < |rows| && rows[i].order.trace == trace;
      Some(i)
    else None
  }

  lemma LookupIs(rows: seq<OrderIntent>, i: IntentId)
    requires TracesUnique(rows) && i < |rows|
    ensures Lookup(rows, rows[i].order.trace) == Some(i)
  {
    var r := Lookup(rows, rows[i].order.trace);
    assert HasTrace(rows, rows[i].order.trace);
  }

  /** Which row an append ends with: None when it is refused. */
  ghost function Appended(rows: seq<OrderIntent>, intent: OrderIntent, limits: Limits): (r: Option<IntentId>)
    ensures r.Some? ==> r.value <= |rows|
  {
    if !ValidIntent(intent) then None
    else if HasTrace(rows, intent.order.trace) then Lookup(rows, intent.order.trace)
    else if WithinLimits(Grouped(rows), intent, limits) then Some(|rows|)
    else None
  }

  ghost function RowsAfterAppend(rows: seq<OrderIntent>, intent: OrderIntent, limits: Limits): seq<OrderIntent>
  {
    if Appended(rows, intent, limits) == Some(|rows|) then rows + [intent.(status := IPending)] else rows
  }

  /** The columns every appended intent has. */
  predicate ColumnsSet(intent: OrderIntent)
  {
    && intent.order.trace != "" && intent.order.strategy != "" && intent.order.market != ""
    && (intent.order.side == Buy || intent.order.side == Sell)
    && intent.order.quantity > 0 && 0 < intent.order.price < 1_000_000 && intent.order.notional > 0 && intent.hmac != []
  }

  /** A row's notional if it is pending or open on the intent's market and side, or on any with `all`. */
  function OpenPart(intent: OrderIntent, all: bool): OrderIntent -> int
  {
    (row: OrderIntent) =>
      if (row.status == IPending || row.status == IOpen)
         && (all || (row.order.market == intent.order.market && row.order.side == intent.order.side))
      then row.order.notional else 0
  }

  ghost function Outstanding(rows: seq<OrderIntent>, intent: OrderIntent, all: bool): int
  {
    SumBy(rows, OpenPart(intent, all))
  }

  lemma {:induction false} OutstandingIs(rows: seq<OrderIntent>, intent: OrderIntent)
    ensures Outstanding(rows, intent, false) == Grouped(rows).At(intent.Key()).notional
    ensures Outstanding(rows, intent, true) == Grouped(rows).total
  {
    GroupedAt(rows, intent.Key());
    SumSame(rows, OpenPart(intent, false), NotionalAt(intent.Key()));
    SumSame(rows, OpenPart(intent, true), AnyNotional());
  }

  /**
   Main result: an append adds a row if and only if the columns are set, the trace is new and the outstanding notional
   stays inside both limits; it gives back an old row if and only if the columns are set and the trace is that row's.
   */
  lemma {:induction false} AppendExactly(rows: seq<OrderIntent>, intent: OrderIntent, limits: Limits)
    requires TracesUnique(rows)
    ensures Appended(rows, intent, limits) == Some(|rows|) <==>
      && ColumnsSet(intent) && (forall i :: 0 <= i < |rows| ==> rows[i].order.trace != intent.order.trace)
      && (limits.maxPosition > 0 ==>
            Outstanding(rows, intent, false) + intent.order.notional <= limits.maxPosition)
      && (limits.maxTotal > 0 ==> Outstanding(rows, intent, true) + intent.order.notional <= limits.maxTotal)
    ensures forall i :: 0 <= i < |rows| ==>
      (Appended(rows, intent, limits) == Some(i) <==> ColumnsSet(intent) && rows[i].order.trace == intent.order.trace)
  {
    OutstandingIs(rows, intent);
  }

  /** UPDATE .. WHERE intent_id = id AND the status is not terminal. */
  function WithStatus(rows: seq<OrderIntent>, id: IntentId, s: IntentStatus): (r: seq<OrderIntent>)
    ensures |r| == |rows|
    ensures forall i :: 0 <= i < |rows| ==> r[i].order == rows[i].order
  {
    if id < |rows| && !rows[id].status.IsTerminal() then rows[id := rows[id].(status := s)] else rows
  }

  /** The approved envelope, for every market and side and in total. */
  ghost predicate InEnvelope(rows: seq<OrderIntent>, limits: Limits)
  {
    && (limits.maxPosition > 0 ==> forall k: MarketSide :: SumBy(rows, NotionalAt(k)) <= limits.maxPosition)
    && (limits.maxTotal > 0 ==> SumBy(rows, AnyNotional()) <= limits.maxTotal)
  }

  ghost predicate NotionalsPositive(rows: seq<OrderIntent>)
  {
    forall i :: 0 <= i < |rows| ==> rows[i].order.notional > 0
  }

  lemma {:induction false} EmptyInEnvelope(limits: Limits)
    ensures InEnvelope([], limits)
  {
  }

  /** Appending one call at a time never leaves the envelope. */
  lemma {:induction false} AppendKeepsEnvelope(rows: seq<OrderIntent>, intent: OrderIntent, limits: Limits)
    requires InEnvelope(rows, limits)
    ensures InEnvelope(RowsAfterAppend(rows, intent, limits), limits)
  {
    if Appended(rows, intent, limits) == Some(|rows|) {
      var row := intent.(status := IPending);
      SumAppend(rows, row, AnyNotional());
      GroupedAt(rows, intent.Key());
      forall k: MarketSide
        ensures SumBy(rows + [row], NotionalAt(k))
             == SumBy(rows, NotionalAt(k)) + if k == intent.Key() then intent.order.notional else 0 {
        SumAppend(rows, row, NotionalAt(k));
      }
    }
  }

  lemma {:induction false} StatusKeepsEnvelope(rows: seq<OrderIntent>, id: IntentId, s: IntentStatus, limits: Limits)
    requires InEnvelope(rows, limits) && NotionalsPositive(rows)
    ensures InEnvelope(WithStatus(rows, id, s), limits)
  {
    if id < |rows| && !rows[id].status.IsTerminal() {
      SumUpdate(rows, id, rows[id].(status := s), AnyNotional());
      forall k: MarketSide ensures SumBy(WithStatus(rows, id, s), NotionalAt(k)) <= SumBy(rows, NotionalAt(k)) {
        SumUpdate(rows, id, rows[id].(status := s), NotionalAt(k));
      }
    }
  }

  /** The exposure built by reading the groups ks in that order. */
  ghost function GroupsRead(rows: seq<OrderIntent>, ks: seq<MarketSide>): Exposure
  {
    if ks == [] then EMPTY else
      var e, k := GroupsRead(rows, ks[..|ks| - 1]), ks[|ks| - 1];
      Exposure(e.outstanding[k := GroupEntry(rows, k)], e.total + GroupEntry(rows, k).notional)
  }

  lemma {:induction false} GroupsReadPartly(rows: seq<OrderIntent>, ks: seq<MarketSide>, some: set<MarketSide>)
    requires Lists(ks, some)
    ensures GroupsRead(rows, ks).outstanding.Keys == some
    ensures forall k :: k in some ==> GroupsRead(rows, ks).outstanding[k] == GroupEntry(rows, k)
    ensures GroupsRead(rows, ks).total == SumSet(some, GroupNotional(rows))
    decreases |ks|
  {
    if ks == [] {
      assert some == {};
    } else {
      var init, k := ks[..|ks| - 1], ks[|ks| - 1];
      assert Lists(init, some - {k});
      GroupsReadPartly(rows, init, some - {k});
      SumSetPick(some, k, GroupNotional(rows));
    }
  }

  /** Whatever order the groups come in, reading them all gives the grouped sum. */
  lemma {:induction false} GroupsReadAll(rows: seq<OrderIntent>, ks: seq<MarketSide>)
    requires Lists(ks, Keys(rows))
    ensures GroupsRead(rows, ks) == Grouped(rows)
  {
    GroupsReadPartly(rows, ks, Keys(rows));
    assert GroupsRead(rows, ks).outstanding == Grouped(rows).outstanding;
    TotalOfGroups(rows);
  }

  class Ledger {
    var rows: seq<OrderIntent>

    constructor ()
      ensures rows == []
    {
      rows := [];
    }

    method GetByTraceID(trace: string) returns (r: Option<IntentId>)
      requires TracesUnique(rows)
      ensures r == Lookup(rows, trace)
    {
      for i := 0 to |rows|
        invariant forall j :: 0 <= j < i ==> rows[j].order.trace != trace
      {
        if rows[i].order.trace == trace {
          LookupIs(rows, i);
          return Some(i);
        }
      }
      return None;
    }

    /** Reads the grouped query result, whose rows come in no particular order. */
    method ComputeExposure() returns (state: ExposureState)
      ensures fresh(state)
      ensures state.Value() == Grouped(rows)
    {
      state := new ExposureState();
      var groups := Enumerate(Keys(rows));
      for n := 0 to |groups|
        invariant fresh(state)
        invariant state.Value() == GroupsRead(rows, groups[..n])
      {
        var entry := SumGroup(groups[n]);
        assert groups[..n + 1][..n] == groups[..n];
        state.SetGroup(groups[n], entry);
      }
      assert groups[..|groups|] == groups;
      GroupsReadAll(rows, groups);
    }

    /** SUM(quantity), SUM(notional_micros) over one group, the quantity cut to int32. */
    method SumGroup(k: MarketSide) returns (entry: Entry)
      ensures entry == GroupEntry(rows, k)
    {
      var qty, notional := 0, 0;
      for i := 0 to |rows|
        invariant qty == SumBy(rows[..i], QuantityAt(k)) && notional == SumBy(rows[..i], NotionalAt(k))
      {
        assert rows[..i + 1][..i] == rows[..i];
        if rows[i].status.IsOutstanding() && rows[i].Key() == k {
          qty, notional := qty + rows[i].order.quantity, notional + rows[i].order.notional;
        }
      }
      assert rows[..|rows|] == rows;
      return Entry(Wrap32(qty), notional);
    }

    /** Idempotent on the trace; a new row is written only inside the envelope. */
    method Append(intent: OrderIntent, limits: Limits) returns (r: Result<IntentId>)
      requires TracesUnique(rows)
      modifies this
      ensures TracesUnique(rows)
      ensures rows == RowsAfterAppend(old(rows), intent, limits)
      ensures r.Ok? <==> Appended(old(rows), intent, limits).Some?
      ensures r.Ok? ==> r.value == Appended(old(rows), intent, limits).value < |rows|
      ensures r.Ok? ==> rows[r.value].order.trace == intent.order.trace
      ensures rows == old(rows) + if r.Ok? && r.value == |old(rows)|
                                  then [OrderIntent(intent.order, intent.hmac, IPending)] else []
    {
      if !ValidIntent(intent) {
        return Err("invalid intent");
      }
      var existing := GetByTraceID(intent.order.trace);
      if existing.Some? {
        return Ok(existing.value);
      }
      var exposure := ComputeExposure();
      var ok := exposure.CheckInvariant(intent, limits);
      if !ok {
        return Err("exposure invariant violated");
      }
      assert !HasTrace(rows, intent.order.trace);
      rows := rows + [intent.(status := IPending)];
      return Ok(|rows| - 1);
    }

    method UpdateStatus(id: IntentId, s: IntentStatus) returns (ok: bool)
      modifies this
      ensures rows == WithStatus(old(rows), id, s)
      ensures ok <==> id < |rows| && (old(rows)[id].status == IPending || old(rows)[id].status == IOpen)
      ensures rows == if ok then old(rows)[id := OrderIntent(old(rows)[id].order, old(rows)[id].hmac, s)] else old(rows)
    {
      if id < |rows| && !rows[id].status.IsTerminal() {
        rows := rows[id := rows[id].(status := s)];
        return true;
      }
      return false;
    }
  }
}
