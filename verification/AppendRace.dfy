/**
 Concurrent calls to Append. The exposure check and the insert are two database round trips,
 so calls that have passed the check may insert after other calls have inserted.
 */
module AppendRace {
  import opened Orders
  import opened Intents
  import opened Exposure
  import opened IntentLedger
  import opened Sums

  /** The table, and the calls that have passed the check and not yet inserted. */
  datatype Race = Race(rows: seq<OrderIntent>, inFlight: seq<OrderIntent>)

  datatype Step =
    | Check(intent: OrderIntent)
    | Insert(call: nat)
    | Update(id: IntentId, status: IntentStatus)

  /** Validation, the idempotency lookup and CheckInvariant against the table as it is now. */
  ghost predicate Passes(rows: seq<OrderIntent>, intent: OrderIntent, limits: Limits)
  {
    ValidIntent(intent) && !HasTrace(rows, intent.order.trace) && WithinLimits(Grouped(rows), intent, limits)
  }

  ghost function Next(r: Race, s: Step, limits: Limits): Race
  {
    match s
    case Check(intent) =>
      if Passes(r.rows, intent, limits) then r.(inFlight := r.inFlight + [intent.(status := IPending)]) else r
    case Insert(c) =>
      if c >= |r.inFlight| then r
      else if HasTrace(r.rows, r.inFlight[c].order.trace) then r.(inFlight := RemoveAt(r.inFlight, c))
      else Race(r.rows + [r.inFlight[c]], RemoveAt(r.inFlight, c))
    case Update(id, status) => r.(rows := WithStatus(r.rows, id, status))
  }

  /** At most `width` calls between check and insert, none of a notional above `largest`. */
  ghost predicate Admissible(r: Race, s: Step, width: nat, largest: nat)
  {
    s.Check? ==> |r.inFlight| < width && s.intent.order.notional <= largest
  }

  ghost predicate AdmissibleRun(r: Race, steps: seq<Step>, limits: Limits, width: nat, largest: nat)
    decreases |steps|
  {
    steps == [] ||
    (Admissible(r, steps[0], width, largest)
      && AdmissibleRun(Next(r, steps[0], limits), steps[1..], limits, width, largest))
  }

  ghost function After(r: Race, steps: seq<Step>, limits: Limits): Race
    decreases |steps|
  {
    if steps == [] then r else After(Next(r, steps[0], limits), steps[1..], limits)
  }

  const START := Race([], [])

  ghost predicate RowsSound(rows: seq<OrderIntent>, largest: nat)
  {
    forall i :: 0 <= i < |rows| ==> 0 < rows[i].order.notional <= largest
  }

  /** Written and about-to-be-written exposure together. */
  ghost function Committed(r: Race, f: OrderIntent -> int): int
  {
    SumBy(r.rows, f) + SumBy(r.inFlight, f)
  }

  ghost predicate Bounded(r: Race, limits: Limits, width: nat, largest: nat)
  {
    && RowsSound(r.rows, largest) && RowsSound(r.inFlight, largest)
    && |r.inFlight| <= width
    && (limits.maxPosition > 0 ==>
          forall k: MarketSide :: Committed(r, NotionalAt(k)) <= limits.maxPosition + (width - 1) * largest)
    && (limits.maxTotal > 0 ==> Committed(r, AnyNotional()) <= limits.maxTotal + (width - 1) * largest)
  }

  /** A weight that counts each row's notional fully or not at all. */
  ghost predicate Counts(f: OrderIntent -> int)
  {
    forall i: OrderIntent :: i.order.notional > 0 ==>
      (f(i) == 0 || f(i) == i.order.notional) && (i.status.IsTerminal() ==> f(i) == 0) &&
      (!i.status.IsTerminal() ==> f(i) == f(i.(status := IPending)))
  }

  lemma {:induction false} Product(a: nat, b: nat, x: nat)
    requires a <= b
    ensures a * x <= b * x
  {
  }

  /** Passing the check against the table bounds what all calls in flight may add. */
  lemma {:induction false} CheckBounds(r: Race, i: OrderIntent, f: OrderIntent -> int, limit: int, width: nat,
      largest: nat)
    requires RowsSound(r.inFlight, largest) && Counts(f) && |r.inFlight| < width
    requires SumBy(r.rows, f) + f(i) <= limit
    ensures Committed(r.(inFlight := r.inFlight + [i]), f) <= limit + (width - 1) * largest
  {
    SumAppend(r.inFlight, i, f);
    SumAtMost(r.inFlight, f, largest);
    Product(|r.inFlight|, width - 1, largest);
  }

  /** Inserting moves a call's notional from one sum to the other, or drops it. */
  lemma {:induction false} InsertKeeps(r: Race, c: nat, f: OrderIntent -> int, limits: Limits, largest: nat)
    requires c < |r.inFlight| && RowsSound(r.inFlight, largest) && Counts(f)
    ensures Committed(Next(r, Insert(c), limits), f) <= Committed(r, f)
  {
    SumRemoveAt(r.inFlight, c, f);
    SumAppend(r.rows, r.inFlight[c], f);
  }

  lemma {:induction false} UpdateKeeps(rows: seq<OrderIntent>, id: IntentId, s: IntentStatus, f: OrderIntent -> int,
      largest: nat)
    requires RowsSound(rows, largest) && Counts(f)
    ensures SumBy(WithStatus(rows, id, s), f) <= SumBy(rows, f)
  {
    if id < |rows| && !rows[id].status.IsTerminal() {
      SumUpdate(rows, id, rows[id].(status := s), f);
      assert rows[id].(status := s).(status := IPending) == rows[id].(status := IPending);
    }
  }

  /** The bound on one weight survives one step. */
  lemma {:induction false} StepKeepsSum(r: Race, s: Step, limits: Limits, width: nat, largest: nat,
                                        f: OrderIntent -> int, limit: int)
    requires Bounded(r, limits, width, largest) && Admissible(r, s, width, largest) && Counts(f)
    requires Committed(r, f) <= limit + (width - 1) * largest
    requires s.Check? && Passes(r.rows, s.intent, limits) ==>
               f(s.intent.(status := IPending)) == 0 || SumBy(r.rows, f) + f(s.intent.(status := IPending)) <= limit
    ensures Committed(Next(r, s, limits), f) <= limit + (width - 1) * largest
  {
    match s
    case Check(intent) =>
      if Passes(r.rows, intent, limits) {
        var i := intent.(status := IPending);
        if f(i) == 0 {
          SumAppend(r.inFlight, i, f);
        } else {
          CheckBounds(r, i, f, limit, width, largest);
        }
      }
    case Insert(c) => if c < |r.inFlight| { InsertKeeps(r, c, f, limits, largest); }
    case Update(id, status) => UpdateKeeps(r.rows, id, status, f, largest);
  }

  lemma {:induction false} StepKeepsRows(r: Race, s: Step, limits: Limits, width: nat, largest: nat)
    requires Bounded(r, limits, width, largest) && Admissible(r, s, width, largest)
    ensures RowsSound(Next(r, s, limits).rows, largest) && RowsSound(Next(r, s, limits).inFlight, largest)
    ensures |Next(r, s, limits).inFlight| <= width
  {
  }

  lemma {:induction false} StepKeepsBound(r: Race, s: Step, limits: Limits, width: nat, largest: nat)
    requires Bounded(r, limits, width, largest) && Admissible(r, s, width, largest)
    ensures Bounded(Next(r, s, limits), limits, width, largest)
  {
    StepKeepsRows(r, s, limits, width, largest);
    if limits.maxPosition > 0 {
      forall k: MarketSide
        ensures Committed(Next(r, s, limits), NotionalAt(k)) <= limits.maxPosition + (width - 1) * largest {
        GroupedAt(r.rows, k);
        StepKeepsSum(r, s, limits, width, largest, NotionalAt(k), limits.maxPosition);
      }
    }
    if limits.maxTotal > 0 {
      StepKeepsSum(r, s, limits, width, largest, AnyNotional(), limits.maxTotal);
    }
  }

  lemma {:induction false} RunKeepsBound(r: Race, steps: seq<Step>, limits: Limits, width: nat, largest: nat)
    requires Bounded(r, limits, width, largest) && AdmissibleRun(r, steps, limits, width, largest)
    ensures Bounded(After(r, steps, limits), limits, width, largest)
    decreases |steps|
  {
    if steps != [] {
      StepKeepsBound(r, steps[0], limits, width, largest);
      RunKeepsBound(Next(r, steps[0], limits), steps[1..], limits, width, largest);
    }
  }

  /**
   Main result: however `width` calls interleave, exposure overshoots a limit by at most
   width - 1 of the largest notionals; one call at a time never overshoots.
   */
  lemma {:induction false} RaceOvershoot(steps: seq<Step>, limits: Limits, width: nat, largest: nat)
    requires width >= 1 && AdmissibleRun(START, steps, limits, width, largest)
    ensures var rows := After(START, steps, limits).rows;
      && (limits.maxPosition > 0 ==>
            forall k: MarketSide :: SumBy(rows, NotionalAt(k)) <= limits.maxPosition + (width - 1) * largest)
      && (limits.maxTotal > 0 ==> SumBy(rows, AnyNotional()) <= limits.maxTotal + (width - 1) * largest)
      && (width == 1 ==> InEnvelope(rows, limits))
  {
    Product(0, width - 1, largest);
    RunKeepsBound(START, steps, limits, width, largest);
    var r := After(START, steps, limits);
    SumNonneg(r.inFlight, AnyNotional());
    forall k: MarketSide ensures SumBy(r.inFlight, NotionalAt(k)) >= 0 {
      SumNonneg(r.inFlight, NotionalAt(k));
    }
  }

  // ---------- the bound is attained ----------

  function Trace(n: nat): string { seq(n + 1, _ => 't') }

  function Call(n: nat, notional: nat): OrderIntent
  {
    OrderIntent(ProposedOrder(Trace(n), "s", "mock", "m", Buy, 1, 1, notional, 0), [1], IPending)
  }

  function Calls(n: nat, notional: nat): seq<OrderIntent>
  {
    seq(n, i requires 0 <= i => Call(i, notional))
  }

  function Checks(n: nat, notional: nat): seq<Step>
  {
    seq(n, i requires 0 <= i => Check(Call(i, notional)))
  }

  function Inserts(n: nat): seq<Step> { seq(n, _ => Insert(0)) }

  lemma {:induction false} AfterConcat(r: Race, a: seq<Step>, b: seq<Step>, limits: Limits, width: nat, largest: nat)
    requires AdmissibleRun(r, a, limits, width, largest)
    requires AdmissibleRun(After(r, a, limits), b, limits, width, largest)
    ensures AdmissibleRun(r, a + b, limits, width, largest)
    ensures After(r, a + b, limits) == After(After(r, a, limits), b, limits)
    decreases |a|
  {
    if a == [] {
      assert a + b == b;
    } else {
      AfterConcat(Next(r, a[0], limits), a[1..], b, limits, width, largest);
      assert (a + b)[0] == a[0] && (a + b)[1..] == a[1..] + b;
    }
  }

  lemma {:induction false} AllChecksPass(n: nat, width: nat, notional: nat, limits: Limits)
    requires notional >= 1 && n <= width && limits.maxPosition == notional == limits.maxTotal
    ensures AdmissibleRun(START, Checks(n, notional), limits, width, notional)
    ensures After(START, Checks(n, notional), limits) == Race([], Calls(n, notional))
  {
    if n == 0 {
      assert Checks(0, notional) == [] && Calls(0, notional) == [];
    } else {
      var last := Check(Call(n - 1, notional));
      var r := Race([], Calls(n - 1, notional));
      AllChecksPass(n - 1, width, notional, limits);
      GroupedAt([], Call(n - 1, notional).Key());
      assert Passes([], last.intent, limits);
      assert Calls(n - 1, notional) + [Call(n - 1, notional)] == Calls(n, notional);
      assert After(r, [last], limits) == Race([], Calls(n, notional));
      AfterConcat(START, Checks(n - 1, notional), [last], limits, width, notional);
      assert Checks(n - 1, notional) + [last] == Checks(n, notional);
    }
  }

  lemma {:induction false} OneInsertLands(done: nat, n: nat, notional: nat, limits: Limits)
    requires done < n
    ensures var all := Calls(n, notional);
      Next(Race(all[..done], all[done..]), Insert(0), limits) == Race(all[..done + 1], all[done + 1..])
  {
    var all := Calls(n, notional);
    var rows := all[..done];
    forall i | 0 <= i < done ensures rows[i].order.trace != all[done].order.trace {
      assert |all[i].order.trace| == i + 1 && |all[done].order.trace| == done + 1;
    }
    assert !HasTrace(rows, all[done].order.trace);
    assert rows + [all[done]] == all[..done + 1];
    assert RemoveAt(all[done..], 0) == all[done + 1..];
  }

  lemma {:induction false} AllInsertsLand(done: nat, n: nat, width: nat, notional: nat, limits: Limits)
    requires done <= n
    ensures var all := Calls(n, notional);
      && AdmissibleRun(Race(all[..done], all[done..]), Inserts(n - done), limits, width, notional)
      && After(Race(all[..done], all[done..]), Inserts(n - done), limits) == Race(all, [])
    decreases n - done
  {
    var all := Calls(n, notional);
    if done == n {
      assert all[..done] == all && all[done..] == [];
    } else {
      OneInsertLands(done, n, notional, limits);
      assert Inserts(n - done)[1..] == Inserts(n - (done + 1));
      AllInsertsLand(done + 1, n, width, notional, limits);
    }
  }

  lemma {:induction false} CallsSum(n: nat, notional: nat)
    ensures SumBy(Calls(n, notional), AnyNotional()) == n * notional
  {
    if n > 0 {
      assert Calls(n, notional) == Calls(n - 1, notional) + [Call(n - 1, notional)];
      SumAppend(Calls(n - 1, notional), Call(n - 1, notional), AnyNotional());
      CallsSum(n - 1, notional);
    }
  }

  /** All calls check before any inserts. */
  lemma {:induction false} ChecksThenInserts(width: nat, notional: nat, limits: Limits)
    requires notional >= 1 && limits.maxPosition == notional == limits.maxTotal
    ensures AdmissibleRun(START, Checks(width, notional) + Inserts(width), limits, width, notional)
    ensures After(START, Checks(width, notional) + Inserts(width), limits) == Race(Calls(width, notional), [])
  {
    var all := Calls(width, notional);
    AllChecksPass(width, width, notional, limits);
    AllInsertsLand(0, width, width, notional, limits);
    assert all[..0] == [] && all[0..] == all;
    AfterConcat(START, Checks(width, notional), Inserts(width), limits, width, notional);
  }

  /** The overshoot is exact: for every width and notional some run reaches limit + (width - 1) * notional. */
  lemma {:induction false} OvershootReached(width: nat, notional: nat) returns (steps: seq<Step>)
    requires width >= 1 && notional >= 1
    ensures var limits := Limits(notional, notional);
      && AdmissibleRun(START, steps, limits, width, notional)
      && SumBy(After(START, steps, limits).rows, AnyNotional()) == notional + (width - 1) * notional
  {
    steps := Checks(width, notional) + Inserts(width);
    ChecksThenInserts(width, notional, Limits(notional, notional));
    CallsSum(width, notional);
    assert width * notional == notional + (width - 1) * notional;
  }
}
