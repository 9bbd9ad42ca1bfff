/**
 Exposure derived from the intent ledger in three ways: the grouped SQL sum,
 the replay of every row, and incremental apply/remove.
 */
module Exposure {
  import opened Intents
  import opened Sums

  const MAX_INT32 := 0x7FFF_FFFF

  /** Go's int32 arithmetic: the representative of x modulo 2^32 in [-2^31, 2^31). */
  function Wrap32(x: int): int
  {
    (x + 0x8000_0000) % 0x1_0000_0000 - 0x8000_0000
  }

  lemma {:induction false} WrapAbsorbs(a: int, b: int)
    ensures Wrap32(Wrap32(a) + b) == Wrap32(a + b)
    ensures Wrap32(Wrap32(a) - b) == Wrap32(a - b)
  {
  }

  /** The only value of the int32 range that differs from x by a multiple of 2^32. */
  lemma {:induction false} WrapExactly(x: int, y: int)
    ensures Wrap32(x) == y <==> -0x8000_0000 <= y < 0x8000_0000 && (x - y) % 0x1_0000_0000 == 0
  {
  }

  datatype Entry = Entry(quantity: int, notional: int)

  datatype Exposure = Exposure(outstanding: map<MarketSide, Entry>, total: int)
  {
    /** Go's map lookup: a missing key reads as the zero entry. */
    function At(key: MarketSide): Entry
    {
      if key in outstanding then outstanding[key] else Entry(0, 0)
    }
  }

  const EMPTY := Exposure(map[], 0)

  datatype Limits = Limits(maxPosition: int, maxTotal: int)

  /** CheckInvariant: a limit that is not positive is switched off. */
  predicate WithinLimits(e: Exposure, i: OrderIntent, limits: Limits)
  {
    && (limits.maxPosition > 0 ==> e.At(i.Key()).notional + i.order.notional <= limits.maxPosition)
    && (limits.maxTotal > 0 ==> e.total + i.order.notional <= limits.maxTotal)
  }

  // ---------- what a row contributes ----------

  function QuantityAt(key: MarketSide): OrderIntent -> int
  {
    (i: OrderIntent) => if i.status.IsOutstanding() && i.Key() == key then i.order.quantity else 0
  }

  function NotionalAt(key: MarketSide): OrderIntent -> int
  {
    (i: OrderIntent) => if i.status.IsOutstanding() && i.Key() == key then i.order.notional else 0
  }

  function AnyNotional(): OrderIntent -> int
  {
    (i: OrderIntent) => if i.status.IsOutstanding() then i.order.notional else 0
  }

  function Keys(rows: seq<OrderIntent>): set<MarketSide>
  {
    set i | 0 <= i < |rows| && rows[i].status.IsOutstanding() :: rows[i].Key()
  }

  // ---------- the three derivations ----------

  /** The SQL result: one entry per market and side with an outstanding row, the quantity cut to int32. */
  ghost function Grouped(rows: seq<OrderIntent>): Exposure
  {
    Exposure(
      map k | k in Keys(rows) :: GroupEntry(rows, k),
      SumBy(rows, AnyNotional()))
  }

  ghost function GroupEntry(rows: seq<OrderIntent>, k: MarketSide): Entry
  {
    Entry(Wrap32(SumBy(rows, QuantityAt(k))), SumBy(rows, NotionalAt(k)))
  }

  ghost function GroupNotional(rows: seq<OrderIntent>): MarketSide -> int
  {
    (k: MarketSide) => SumBy(rows, NotionalAt(k))
  }

  /** An entry with one more intent, or one less; quantities are int32. */
  function Plus(was: Entry, i: OrderIntent): Entry
  {
    Entry(Wrap32(was.quantity + i.order.quantity), was.notional + i.order.notional)
  }

  function Minus(was: Entry, i: OrderIntent): Entry
  {
    Entry(Wrap32(was.quantity - i.order.quantity), was.notional - i.order.notional)
  }

  function Apply(e: Exposure, i: OrderIntent): Exposure
  {
    if !i.status.IsOutstanding() then e else
      Exposure(e.outstanding[i.Key() := Plus(e.At(i.Key()), i)], e.total + i.order.notional)
  }

  function Remove(e: Exposure, i: OrderIntent): Exposure
  {
    if i.Key() !in e.outstanding then e else
      var left := Minus(e.outstanding[i.Key()], i);
      Exposure(
        if left.quantity <= 0 then e.outstanding - {i.Key()} else e.outstanding[i.Key() := left],
        e.total - i.order.notional)
  }

  function Replay(rows: seq<OrderIntent>): Exposure
  {
    if rows == [] then EMPTY else Apply(Replay(rows[..|rows| - 1]), rows[|rows| - 1])
  }

  // ---------- grouped sum = replay, in any order ----------

  lemma {:induction false} KeysAppend(rows: seq<OrderIntent>, i: OrderIntent)
    ensures Keys(rows + [i]) == if i.status.IsOutstanding() then Keys(rows) + {i.Key()} else Keys(rows)
  {
    var all := rows + [i];
    forall k ensures k in Keys(all) <==> k in Keys(rows) || (i.status.IsOutstanding() && k == i.Key()) {
      if k in Keys(rows) {
        var j :| 0 <= j < |rows| && rows[j].status.IsOutstanding() && rows[j].Key() == k;
        assert all[j] == rows[j];
      }
      if i.status.IsOutstanding() && k == i.Key() {
        assert all[|rows|] == i;
      }
    }
  }

  /** A market and side with no outstanding row has no exposure. */
  lemma {:induction false} NoRowsNoExposure(rows: seq<OrderIntent>, k: MarketSide)
    requires k !in Keys(rows)
    ensures SumBy(rows, NotionalAt(k)) == 0 && SumBy(rows, QuantityAt(k)) == 0
    ensures GroupEntry(rows, k) == Entry(0, 0)
  {
    SumZero(rows, NotionalAt(k));
    SumZero(rows, QuantityAt(k));
  }

  /** Summing the groups, as the query result is read, and summing the rows give the same total. */
  lemma {:induction false} TotalOfGroups(rows: seq<OrderIntent>)
    ensures SumSet(Keys(rows), GroupNotional(rows)) == SumBy(rows, AnyNotional())
  {
    if rows == [] {
      assert Keys(rows) == {};
    } else {
      var init, i := rows[..|rows| - 1], rows[|rows| - 1];
      assert rows == init + [i];
      TotalOfGroups(init);
      KeysAppend(init, i);
      GroupsAfterAppend(init, i);
    }
  }

  lemma {:induction false} GroupsAfterAppend(rows: seq<OrderIntent>, i: OrderIntent)
    ensures SumSet(Keys(rows + [i]), GroupNotional(rows + [i]))
         == SumSet(Keys(rows), GroupNotional(rows)) + AnyNotional()(i)
  {
    var all, f, g, k := rows + [i], GroupNotional(rows), GroupNotional(rows + [i]), i.Key();
    KeysAppend(rows, i);
    forall m: MarketSide ensures g(m) == f(m) + NotionalAt(m)(i) {
      SumAppend(rows, i, NotionalAt(m));
    }
    assert forall m :: m != k ==> g(m) == f(m);
    if !i.status.IsOutstanding() {
      SumSetSame(Keys(rows), f, g);
    } else {
      if k !in Keys(rows) {
        NoRowsNoExposure(rows, k);
        SumSetInsert(Keys(rows), k, f);
      } else {
        assert Keys(all) == Keys(rows);
      }
      SumSetChange(Keys(all), k, f, g);
    }
  }

  /** The replay fold computes the grouped sum. */
  lemma {:induction false} ReplayIsGrouped(rows: seq<OrderIntent>)
    ensures Replay(rows) == Grouped(rows)
  {
    if rows == [] {
      assert Keys(rows) == {};
      assert Grouped(rows).outstanding == map[];
    } else {
      var init, i := rows[..|rows| - 1], rows[|rows| - 1];
      assert rows == init + [i];
      ReplayIsGrouped(init);
      ApplyGrouped(init, i);
    }
  }

  lemma {:induction false} EntryAppend(rows: seq<OrderIntent>, i: OrderIntent, k: MarketSide)
    ensures GroupEntry(rows + [i], k)
         == if i.status.IsOutstanding() && i.Key() == k
            then Plus(GroupEntry(rows, k), i)
            else GroupEntry(rows, k)
  {
    SumAppend(rows, i, NotionalAt(k));
    SumAppend(rows, i, QuantityAt(k));
    WrapAbsorbs(SumBy(rows, QuantityAt(k)), i.order.quantity);
  }

  lemma {:induction false} GroupedAt(rows: seq<OrderIntent>, k: MarketSide)
    ensures Grouped(rows).At(k) == GroupEntry(rows, k)
  {
    if k !in Keys(rows) {
      NoRowsNoExposure(rows, k);
    }
  }

  /** Apply, read pointwise. */
  lemma {:induction false} ApplyPointwise(e: Exposure, i: OrderIntent, e': Exposure)
    requires i.status.IsOutstanding()
    requires e'.outstanding.Keys == e.outstanding.Keys + {i.Key()}
    requires e'.At(i.Key()) == Plus(e.At(i.Key()), i)
    requires forall k :: k in e.outstanding && k != i.Key() ==> e'.At(k) == e.At(k)
    requires e'.total == e.total + i.order.notional
    ensures Apply(e, i) == e'
  {
    assert Apply(e, i).outstanding == e'.outstanding;
  }

  lemma {:induction false} ApplyGrouped(rows: seq<OrderIntent>, i: OrderIntent)
    ensures Apply(Grouped(rows), i) == Grouped(rows + [i])
  {
    if i.status.IsOutstanding() {
      GroupedAppend(rows, i);
    } else {
      GroupedSkip(rows, i);
    }
  }

  lemma {:induction false} GroupedAppend(rows: seq<OrderIntent>, i: OrderIntent)
    requires i.status.IsOutstanding()
    ensures Apply(Grouped(rows), i) == Grouped(rows + [i])
  {
    KeysAppend(rows, i);
    SumAppend(rows, i, AnyNotional());
    EntryGrows(rows, i);
    forall k | k in Keys(rows) && k != i.Key() ensures Grouped(rows + [i]).At(k) == Grouped(rows).At(k) {
      EntryStays(rows, i, k);
    }
    ApplyPointwise(Grouped(rows), i, Grouped(rows + [i]));
  }

  lemma {:induction false} EntryGrows(rows: seq<OrderIntent>, i: OrderIntent)
    requires i.status.IsOutstanding()
    ensures Grouped(rows + [i]).At(i.Key()) == Plus(Grouped(rows).At(i.Key()), i)
  {
    GroupedAt(rows, i.Key());
    GroupedAt(rows + [i], i.Key());
    EntryAppend(rows, i, i.Key());
  }

  lemma {:induction false} EntryStays(rows: seq<OrderIntent>, i: OrderIntent, k: MarketSide)
    requires k != i.Key()
    ensures Grouped(rows + [i]).At(k) == Grouped(rows).At(k)
  {
    GroupedAt(rows, k);
    GroupedAt(rows + [i], k);
    EntryAppend(rows, i, k);
  }

  lemma {:induction false} GroupedSkip(rows: seq<OrderIntent>, i: OrderIntent)
    requires !i.status.IsOutstanding()
    ensures Grouped(rows + [i]) == Grouped(rows)
  {
    KeysAppend(rows, i);
    SumAppend(rows, i, AnyNotional());
    forall k | k in Keys(rows) ensures GroupEntry(rows + [i], k) == GroupEntry(rows, k) {
      EntryAppend(rows, i, k);
    }
    assert Grouped(rows + [i]).outstanding == Grouped(rows).outstanding;
  }

  lemma {:induction false} KeysOfPermutation(p: seq<OrderIntent>, rows: seq<OrderIntent>)
    requires multiset(p) == multiset(rows)
    ensures Keys(p) <= Keys(rows)
  {
    forall k | k in Keys(p) ensures k in Keys(rows) {
      var j :| 0 <= j < |p| && p[j].status.IsOutstanding() && p[j].Key() == k;
      assert p[j] in multiset(rows);
      var m :| 0 <= m < |rows| && rows[m] == p[j];
    }
  }

  lemma {:induction false} EntryOfPermutation(p: seq<OrderIntent>, rows: seq<OrderIntent>, k: MarketSide)
    requires multiset(p) == multiset(rows)
    ensures GroupEntry(p, k) == GroupEntry(rows, k)
  {
    SumPermutation(p, rows, NotionalAt(k));
    SumPermutation(p, rows, QuantityAt(k));
  }

  /** Main result: whatever order the rows are replayed in, the exposure is the ledger's grouped sum. */
  lemma {:induction false} ReplayInAnyOrder(p: seq<OrderIntent>, rows: seq<OrderIntent>)
    requires multiset(p) == multiset(rows)
    ensures Replay(p) == Grouped(rows)
    ensures Replay(p).total == SumBy(rows, AnyNotional())
  {
    KeysOfPermutation(p, rows);
    KeysOfPermutation(rows, p);
    forall k | k in Keys(rows) ensures GroupEntry(p, k) == GroupEntry(rows, k) {
      EntryOfPermutation(p, rows, k);
    }
    assert Grouped(p).outstanding == Grouped(rows).outstanding;
    SumPermutation(p, rows, AnyNotional());
    ReplayIsGrouped(p);
  }

  // ---------- incremental updates ----------

  datatype Change = Adding(i: OrderIntent) | Removing(k: nat, now: IntentStatus)

  /** The intents applied and not yet removed, after one change. */
  function LiveAfter(live: seq<OrderIntent>, c: Change): seq<OrderIntent>
    requires c.Removing? ==> c.k < |live|
  {
    match c
    case Adding(i) => if i.status.IsOutstanding() then live + [i] else live
    case Removing(k, _) => RemoveAt(live, k)
  }

  /** RemoveIntent is called with the intent already moved to its new status. */
  function Changed(e: Exposure, live: seq<OrderIntent>, c: Change): Exposure
    requires c.Removing? ==> c.k < |live|
  {
    match c
    case Adding(i) => Apply(e, i)
    case Removing(k, now) => Remove(e, live[k].(status := now))
  }

  /** Outstanding, of positive quantity, and no per-market sum beyond int32. */
  ghost predicate Countable(live: seq<OrderIntent>)
  {
    && (forall i :: 0 <= i < |live| ==> live[i].status.IsOutstanding() && live[i].order.quantity > 0)
    && (forall k :: k in Keys(live) ==> SumBy(live, QuantityAt(k)) <= MAX_INT32)
  }

  /** Only intents that were applied while outstanding, and not yet removed, are removed. */
  ghost predicate AppliedOnly(live: seq<OrderIntent>, cs: seq<Change>)
    decreases |cs|
  {
    cs != [] ==>
      && (cs[0].Removing? ==> cs[0].k < |live| && live[cs[0].k].status.IsOutstanding())
      && AppliedOnly(LiveAfter(live, cs[0]), cs[1..])
  }

  /** .. and each removal is one that RemoveIntent gets right. */
  ghost predicate LegalChanges(live: seq<OrderIntent>, cs: seq<Change>)
    decreases |cs|
  {
    cs != [] ==>
      && (cs[0].Removing? ==> cs[0].k < |live| && live[cs[0].k].status.IsOutstanding() && RemovesExactly(live, cs[0].k))
      && LegalChanges(LiveAfter(live, cs[0]), cs[1..])
  }

  /** The state equals the grouped sums of the live intents now and after every one of the changes. */
  ghost predicate Tracks(e: Exposure, live: seq<OrderIntent>, cs: seq<Change>)
    requires AppliedOnly(live, cs)
    decreases |cs|
  {
    e == Grouped(live) && (cs != [] ==> Tracks(Changed(e, live, cs[0]), LiveAfter(live, cs[0]), cs[1..]))
  }

  /** Removals are of applied intents, and quantities stay positive and within int32. */
  ghost predicate CountableChanges(live: seq<OrderIntent>, cs: seq<Change>)
    decreases |cs|
  {
    Countable(live) &&
    (cs != [] ==> (cs[0].Removing? ==> cs[0].k < |live|) && CountableChanges(LiveAfter(live, cs[0]), cs[1..]))
  }

  lemma {:induction false} CountableIsLegal(live: seq<OrderIntent>, cs: seq<Change>)
    requires CountableChanges(live, cs)
    ensures LegalChanges(live, cs)
    decreases |cs|
  {
    if cs != [] {
      if cs[0].Removing? {
        CountableRemovesExactly(live, cs[0].k);
      }
      CountableIsLegal(LiveAfter(live, cs[0]), cs[1..]);
    }
  }

  ghost function AfterChanges(e: Exposure, live: seq<OrderIntent>, cs: seq<Change>): (r: (Exposure, seq<OrderIntent>))
    requires LegalChanges(live, cs)
    decreases |cs|
  {
    if cs == [] then (e, live) else AfterChanges(Changed(e, live, cs[0]), LiveAfter(live, cs[0]), cs[1..])
  }

  lemma {:induction false} KeysRemoveAt(live: seq<OrderIntent>, k: nat)
    requires k < |live| && live[k].status.IsOutstanding()
    ensures Keys(live) == Keys(RemoveAt(live, k)) + {live[k].Key()}
  {
    var rest := RemoveAt(live, k);
    forall m | m in Keys(live) && m != live[k].Key() ensures m in Keys(rest) {
      var j :| 0 <= j < |live| && live[j].status.IsOutstanding() && live[j].Key() == m;
      assert rest[if j < k then j else j - 1] == live[j];
    }
    forall m | m in Keys(rest) ensures m in Keys(live) {
      var j :| 0 <= j < |rest| && rest[j].status.IsOutstanding() && rest[j].Key() == m;
      assert live[if j < k then j else j + 1] == rest[j];
    }
  }

  /** A market and side with an outstanding row of positive quantity has a positive quantity. */
  lemma {:induction false} PositiveGroup(live: seq<OrderIntent>, m: MarketSide)
    requires m in Keys(live)
    requires forall i :: 0 <= i < |live| ==> live[i].order.quantity > 0
    ensures SumBy(live, QuantityAt(m)) > 0
  {
    var j :| 0 <= j < |live| && live[j].status.IsOutstanding() && live[j].Key() == m;
    SumTerm(live, j, QuantityAt(m));
  }

  /** What RemoveIntent computes for the market and side it touches. */
  lemma {:induction false} EntryRemoveAt(live: seq<OrderIntent>, k: nat)
    requires k < |live| && live[k].status.IsOutstanding()
    ensures GroupEntry(RemoveAt(live, k), live[k].Key()) == Minus(GroupEntry(live, live[k].Key()), live[k])
  {
    var m := live[k].Key();
    SumRemoveAt(live, k, NotionalAt(m));
    SumRemoveAt(live, k, QuantityAt(m));
    WrapAbsorbs(SumBy(live, QuantityAt(m)), live[k].order.quantity);
  }

  lemma {:induction false} EntryElsewhere(live: seq<OrderIntent>, k: nat, m: MarketSide)
    requires k < |live| && m != live[k].Key()
    ensures GroupEntry(RemoveAt(live, k), m) == GroupEntry(live, m)
  {
    SumRemoveAt(live, k, NotionalAt(m));
    SumRemoveAt(live, k, QuantityAt(m));
  }

  /** Remove, read pointwise. */
  lemma {:induction false} RemovePointwise(e: Exposure, i: OrderIntent, e': Exposure)
    requires i.Key() in e.outstanding
    requires e'.outstanding.Keys - {i.Key()} == e.outstanding.Keys - {i.Key()}
    requires var left := Minus(e.At(i.Key()), i);
      && (i.Key() in e'.outstanding <==> left.quantity > 0)
      && (left.quantity > 0 ==> e'.At(i.Key()) == left)
    requires forall k :: k in e.outstanding && k != i.Key() ==> e'.At(k) == e.At(k)
    requires e'.total == e.total - i.order.notional
    ensures Remove(e, i) == e'
  {
    var r := Remove(e, i);
    forall k ensures k in r.outstanding <==> k in e'.outstanding {
      assert k in e'.outstanding.Keys - {i.Key()} <==> k in e.outstanding.Keys - {i.Key()};
    }
    assert r.outstanding == e'.outstanding;
  }

  /** After the removal the wrapped quantity of what remains is positive exactly when something remains. */
  ghost predicate RemovesExactly(live: seq<OrderIntent>, k: nat)
    requires k < |live|
  {
    var m, rest := live[k].Key(), RemoveAt(live, k);
    Wrap32(SumBy(rest, QuantityAt(m))) > 0 <==> m in Keys(rest)
  }

  lemma {:induction false} RemovalLeavesRest(live: seq<OrderIntent>, k: nat, now: IntentStatus)
    requires k < |live| && live[k].status.IsOutstanding() && RemovesExactly(live, k)
    ensures Remove(Grouped(live), live[k].(status := now)) == Grouped(RemoveAt(live, k))
  {
    var i, rest := live[k].(status := now), RemoveAt(live, k);
    KeysRemoveAt(live, k);
    EntryRemoveAt(live, k);
    GroupedAt(live, i.Key());
    GroupedAt(rest, i.Key());
    RemoveTotal(live, k);
    forall n | n in Keys(live) && n != i.Key() ensures Grouped(rest).At(n) == Grouped(live).At(n) {
      EntryElsewhere(live, k, n);
      GroupedAt(live, n);
      GroupedAt(rest, n);
    }
    RemovePointwise(Grouped(live), i, Grouped(rest));
  }

  lemma {:induction false} RemovalLosesRest(live: seq<OrderIntent>, k: nat, i: OrderIntent)
    requires k < |live| && live[k].status.IsOutstanding() && !RemovesExactly(live, k)
    requires i.order == live[k].order
    ensures Remove(Grouped(live), i) != Grouped(RemoveAt(live, k))
  {
    EntryRemoveAt(live, k);
    GroupedAt(live, i.Key());
    assert i.Key() in Keys(live);
    KeyStays(Grouped(live), i);
    GroupHasKey(RemoveAt(live, k), i.Key());
  }

  lemma {:induction false} GroupHasKey(rows: seq<OrderIntent>, m: MarketSide)
    ensures m in Grouped(rows).outstanding <==> m in Keys(rows)
  {
  }

  lemma {:induction false} KeyStays(e: Exposure, i: OrderIntent)
    requires i.Key() in e.outstanding
    ensures i.Key() in Remove(e, i).outstanding <==> Minus(e.At(i.Key()), i).quantity > 0
  {
  }

  /** Main result: removing an outstanding intent leaves the exposure of the others if and only if RemovesExactly. */
  lemma {:induction false} RemoveExactlyWhen(live: seq<OrderIntent>, k: nat, now: IntentStatus)
    requires k < |live| && live[k].status.IsOutstanding()
    ensures Remove(Grouped(live), live[k].(status := now)) == Grouped(RemoveAt(live, k)) <==> RemovesExactly(live, k)
  {
    if RemovesExactly(live, k) {
      RemovalLeavesRest(live, k, now);
    } else {
      RemovalLosesRest(live, k, live[k].(status := now));
    }
  }

  /** Positive quantities without overflow meet the condition. */
  lemma {:induction false} CountableRemovesExactly(live: seq<OrderIntent>, k: nat)
    requires Countable(live) && k < |live|
    ensures RemovesExactly(live, k)
  {
    var m, rest := live[k].Key(), RemoveAt(live, k);
    SumRemoveAt(live, k, QuantityAt(m));
    KeysRemoveAt(live, k);
    if m in Keys(rest) {
      PositiveGroup(rest, m);
    } else {
      NoRowsNoExposure(rest, m);
    }
  }

  /** Removing one live intent from the grouped sum leaves the grouped sum of the others. */
  lemma {:induction false} RemoveGrouped(live: seq<OrderIntent>, k: nat, now: IntentStatus)
    requires Countable(live) && k < |live|
    ensures Remove(Grouped(live), live[k].(status := now)) == Grouped(RemoveAt(live, k))
  {
    CountableRemovesExactly(live, k);
    RemoveExactlyWhen(live, k, now);
  }

  lemma {:induction false} RemoveTotal(live: seq<OrderIntent>, k: nat)
    requires k < |live| && live[k].status.IsOutstanding()
    ensures Grouped(RemoveAt(live, k)).total == Grouped(live).total - live[k].order.notional
  {
    SumRemoveAt(live, k, AnyNotional());
  }

  /** Main result: any interleaving of applies and removals leaves exactly the replay of what remains. */
  lemma {:induction false} IncrementalIsReplay(live: seq<OrderIntent>, cs: seq<Change>)
    requires LegalChanges(live, cs)
    ensures var (e, rest) := AfterChanges(Replay(live), live, cs);
            forall p: seq<OrderIntent> :: multiset(p) == multiset(rest) ==> e == Replay(p)
    ensures var (e, rest) := AfterChanges(Replay(live), live, cs);
            e.total == SumSet(e.outstanding.Keys, (k: MarketSide) => e.At(k).notional)
    decreases |cs|
  {
    ReplayIsGrouped(live);
    if cs == [] {
      forall p: seq<OrderIntent> | multiset(p) == multiset(live) ensures Replay(live) == Replay(p) {
        ReplayInAnyOrder(p, live);
      }
      var e := Grouped(live);
      assert e.outstanding.Keys == Keys(live);
      TotalOfGroups(live);
      SumSetSame(Keys(live), GroupNotional(live), (k: MarketSide) => e.At(k).notional);
    } else {
      var next := LiveAfter(live, cs[0]);
      match cs[0] {
        case Adding(i) => ApplyGrouped(live, i); ReplayIsGrouped(next);
          if !i.status.IsOutstanding() { assert next == live; }
        case Removing(k, now) => RemoveExactlyWhen(live, k, now); ReplayIsGrouped(next);
      }
      IncrementalIsReplay(next, cs[1..]);
    }
  }

  lemma {:induction false} ChangeTracks(live: seq<OrderIntent>, c: Change)
    requires c.Removing? ==> c.k < |live| && live[c.k].status.IsOutstanding()
    ensures Changed(Grouped(live), live, c) == Grouped(LiveAfter(live, c))
            <==> (c.Removing? ==> RemovesExactly(live, c.k))
  {
    match c
    case Adding(i) => ApplyGrouped(live, i); if !i.status.IsOutstanding() { GroupedSkip(live, i); }
    case Removing(k, now) => RemoveExactlyWhen(live, k, now);
  }

  /** Main result: the incremental state is right throughout if and only if every removal meets the condition. */
  lemma {:induction false} TracksExactlyWhen(live: seq<OrderIntent>, cs: seq<Change>)
    requires AppliedOnly(live, cs)
    ensures Tracks(Grouped(live), live, cs) <==> LegalChanges(live, cs)
    decreases |cs|
  {
    if cs != [] {
      var next := LiveAfter(live, cs[0]);
      ChangeTracks(live, cs[0]);
      if Changed(Grouped(live), live, cs[0]) == Grouped(next) {
        TracksExactlyWhen(next, cs[1..]);
      }
    }
  }

  /** Why the int32 bound is needed: past it, removing one intent drops the exposure of the others too. */
  lemma {:induction false} OverflowLosesExposure(a: OrderIntent, b: OrderIntent, c: OrderIntent)
    requires a.status.IsOutstanding() && b.status.IsOutstanding() && c.status.IsOutstanding()
    requires a.Key() == b.Key() == c.Key()
    requires a.order.quantity == MAX_INT32 && b.order.quantity == c.order.quantity == 1
    ensures Remove(Replay([a, b, c]), c).outstanding == map[]
    ensures a.Key() in Replay([a, b]).outstanding
  {
    assert [a, b, c][..2] == [a, b] && [a, b][..1] == [a] && [a][..0] == [];
    assert Replay([a]) == Apply(EMPTY, a);
    assert Replay([a, b]) == Apply(Replay([a]), b);
    assert Replay([a, b, c]) == Apply(Replay([a, b]), c);
  }

  /** The exposure state as the source keeps it: a map and a running total, changed in place. */
  class ExposureState {
    var outstanding: map<MarketSide, Entry>
    var total: int

    ghost function Value(): Exposure
      reads this
    {
      Exposure(outstanding, total)
    }

    constructor ()
      ensures Value() == EMPTY
    {
      outstanding := map[];
      total := 0;
    }

    /** One row of the grouped query result. */
    method SetGroup(k: MarketSide, entry: Entry)
      modifies this
      ensures Value() == Exposure(old(outstanding)[k := entry], old(total) + entry.notional)
    {
      outstanding := outstanding[k := entry];
      total := total + entry.notional;
    }

    method CheckInvariant(i: OrderIntent, limits: Limits) returns (ok: bool)
      ensures ok <==> WithinLimits(Value(), i, limits)
      ensures var key := MarketSide(i.order.market, i.order.side);
        ok <==>
          && (limits.maxPosition > 0 ==>
                (if key in outstanding then outstanding[key].notional else 0) + i.order.notional <= limits.maxPosition)
          && (limits.maxTotal > 0 ==> total + i.order.notional <= limits.maxTotal)
    {
      var current := if i.Key() in outstanding then outstanding[i.Key()] else Entry(0, 0);
      var newNotional := current.notional + i.order.notional;
      if limits.maxPosition > 0 && newNotional > limits.maxPosition {
        return false;
      }
      var newTotal := total + i.order.notional;
      if limits.maxTotal > 0 && newTotal > limits.maxTotal {
        return false;
      }
      return true;
    }

    method ApplyIntent(i: OrderIntent)
      modifies this
      ensures Value() == Apply(old(Value()), i)
      ensures i.status != IPending && i.status != IOpen ==> outstanding == old(outstanding) && total == old(total)
      ensures i.status == IPending || i.status == IOpen ==>
                total == old(total) + i.order.notional &&
                var key := MarketSide(i.order.market, i.order.side);
                var was := if key in old(outstanding) then old(outstanding)[key] else Entry(0, 0);
                outstanding == old(outstanding)[key := Entry(Wrap32(was.quantity + i.order.quantity),
                                                             was.notional + i.order.notional)]
    {
      if !i.status.IsOutstanding() {
        return;
      }
      var entry := if i.Key() in outstanding then outstanding[i.Key()] else Entry(0, 0);
      entry := entry.(quantity := Wrap32(entry.quantity + i.order.quantity));
      entry := entry.(notional := entry.notional + i.order.notional);
      outstanding := outstanding[i.Key() := entry];
      total := total + i.order.notional;
    }

    method RemoveIntent(i: OrderIntent)
      modifies this
      ensures Value() == Remove(old(Value()), i)
      ensures var key := MarketSide(i.order.market, i.order.side);
        if key !in old(outstanding) then outstanding == old(outstanding) && total == old(total)
        else
          var was := old(outstanding)[key];
          var left := Entry(Wrap32(was.quantity - i.order.quantity), was.notional - i.order.notional);
          && total == old(total) - i.order.notional
          && outstanding == if left.quantity > 0 then old(outstanding)[key := left] else old(outstanding) - {key}
    {
      if i.Key() !in outstanding {
        return;
      }
      var entry := outstanding[i.Key()];
      entry := entry.(quantity := Wrap32(entry.quantity - i.order.quantity));
      entry := entry.(notional := entry.notional - i.order.notional);
      total := total - i.order.notional;
      if entry.quantity <= 0 {
        outstanding := outstanding - {i.Key()};
      } else {
        outstanding := outstanding[i.Key() := entry];
      }
    }

    static method ReplayFromIntents(intents: seq<OrderIntent>) returns (state: ExposureState)
      ensures fresh(state)
      ensures state.Value() == Grouped(intents)
    {
      state := new ExposureState();
      for n := 0 to |intents|
        invariant fresh(state)
        invariant state.Value() == Replay(intents[..n])
      {
        assert intents[..n + 1][..n] == intents[..n];
        state.ApplyIntent(intents[n]);
      }
      assert intents[..|intents|] == intents;
      ReplayIsGrouped(intents);
    }
  }
}
