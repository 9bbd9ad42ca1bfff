/** What every backtest keeps: its accounts, its loss gates, its positions and the PnL it reports. */
module BacktestRuns {
  import opened Orders
  import opened Sums
  import opened Metrics
  import opened Ticks
  import opened Exposure
  import opened Backtest

  // ---------- the invariant ----------

  /** The curve starts at the capital and moves by each trade's PnL; equity, daily PnL and peak are read off it. */
  ghost predicate Accounts(cfg: Config, r: Outcome)
  {
    && |r.curve| == |r.trades| + 1 && r.curve[0] == cfg.capital
    && (forall k :: 0 <= k < |r.trades| ==> r.curve[k + 1] == r.curve[k] + r.trades[k].pnl)
    && r.equity == r.book.currentEquity == r.curve[|r.trades|]
    && r.book.dailyPnL == r.equity - cfg.capital
    && r.book.peakEquity == PeakAt(r.curve, |r.trades|)
  }

  /** At curve point k both loss gates are open. */
  ghost predicate OpenAt(cfg: Config, curve: seq<int>, k: nat)
    requires k < |curve|
  {
    && DailyLossFits(cfg.policy, curve[k] - cfg.capital)
    && DrawdownFits(cfg.policy, PeakAt(curve, k), curve[k])
  }

  /** The gates were open at every curve point a trade followed. */
  ghost predicate Gated(cfg: Config, r: Outcome)
  {
    |r.curve| == |r.trades| + 1 && forall k :: 0 <= k < |r.trades| ==> OpenAt(cfg, r.curve, k)
  }

  function ContractsIn(market: string): Trade -> int
  {
    (t: Trade) => if t.market == market then Signed(t.side, t.quantity) else 0
  }

  function CashIn(market: string): Trade -> int
  {
    (t: Trade) => if t.market == market then Signed(t.side, t.quantity * t.price) else 0
  }

  /** A market's position as its trades make it. */
  ghost function FromTrades(trades: seq<Trade>, market: string): Position
  {
    Position(Wrap32(SumBy(trades, ContractsIn(market))), SumBy(trades, CashIn(market)))
  }

  ghost predicate Positioned(cfg: Config, r: Outcome)
  {
    forall m: string :: Held(r.book.markets, Place(cfg, m)) == FromTrades(r.trades, m)
  }

  /** Every trade is a buy or sell at a positive price, and its PnL is that of closing what was held before it. */
  ghost predicate TradeSound(trades: seq<Trade>, k: nat)
    requires k < |trades|
  {
    var t := trades[k];
    && t.side.IsValid() && t.price > 0
    && t.pnl == ComputePnl(FromTrades(trades[..k], t.market), t.side, t.quantity, t.price)
  }

  ghost predicate TradesSound(r: Outcome)
  {
    forall k :: 0 <= k < |r.trades| ==> TradeSound(r.trades, k)
  }

  ghost predicate SellsPositive(trades: seq<Trade>)
  {
    forall k :: 0 <= k < |trades| && trades[k].side.Sell? ==> trades[k].quantity >= 0
  }

  ghost predicate WithinLimit(cfg: Config, r: Outcome)
  {
    cfg.policy.maxPosition >= 0 && SellsPositive(r.trades) ==>
      forall p :: p in r.book.markets ==> r.book.markets[p].notional <= cfg.policy.maxPosition
  }

  ghost predicate Good(cfg: Config, r: Outcome)
  {
    Accounts(cfg, r) && Gated(cfg, r) && Positioned(cfg, r) && TradesSound(r) && WithinLimit(cfg, r)
  }

  // ---------- each part is kept by a trade ----------

  lemma {:induction false} PeakPrefix(curve: seq<int>, x: int, j: nat)
    requires j < |curve|
    ensures PeakAt(curve + [x], j) == PeakAt(curve, j)
  {
    if j > 0 {
      PeakPrefix(curve, x, j - 1);
    }
  }

  lemma {:induction false} AccountsKept(cfg: Config, r: Outcome, o: ProposedOrder, quantity: int, price: int)
    requires Accounts(cfg, r)
    ensures Accounts(cfg, Traded(r, o, quantity, price))
  {
    PeakPrefix(r.curve, Traded(r, o, quantity, price).equity, |r.trades|);
  }

  lemma {:induction false} GatedKept(cfg: Config, r: Outcome, o: ProposedOrder, quantity: int, price: int)
    requires Accounts(cfg, r) && Gated(cfg, r) && GateOpen(cfg.policy, r.book)
    ensures Gated(cfg, Traded(r, o, quantity, price))
  {
    var r' := Traded(r, o, quantity, price);
    forall k | 0 <= k < |r'.trades| ensures OpenAt(cfg, r'.curve, k) {
      PeakPrefix(r.curve, r'.equity, k);
      assert r'.curve[k] == r.curve[k];
      if k < |r.trades| {
        assert OpenAt(cfg, r.curve, k);
      }
    }
  }

  lemma {:induction false} PlaceInjective(cfg: Config, m: string, n: string)
    requires Place(cfg, m) == Place(cfg, n)
    ensures m == n
  {
    var lead, tail := cfg.venue + ":", ":" + cfg.strategy;
    assert Place(cfg, m) == lead + m + tail && Place(cfg, n) == lead + n + tail;
    assert |lead + m + tail| == |lead + n + tail|;
    assert m == (lead + m + tail)[|lead|..|lead| + |m|];
    assert n == (lead + n + tail)[|lead|..|lead| + |n|];
  }

  lemma {:induction false} FromTradesAppend(trades: seq<Trade>, t: Trade, m: string)
    ensures FromTrades(trades + [t], m)
         == if t.market == m then Moved(FromTrades(trades, m), t.side, t.quantity, t.price) else FromTrades(trades, m)
  {
    SumAppend(trades, t, ContractsIn(m));
    SumAppend(trades, t, CashIn(m));
    WrapAbsorbs(SumBy(trades, ContractsIn(m)), t.quantity);
  }

  lemma {:induction false} PositionedKept(cfg: Config, r: Outcome, o: ProposedOrder, quantity: int, price: int)
    requires Positioned(cfg, r) && OrderPlace(o) == Place(cfg, o.market)
    ensures Positioned(cfg, Traded(r, o, quantity, price))
  {
    var r' := Traded(r, o, quantity, price);
    var t := r'.trades[|r.trades|];
    forall m: string ensures Held(r'.book.markets, Place(cfg, m)) == FromTrades(r'.trades, m) {
      assert Held(r.book.markets, Place(cfg, m)) == FromTrades(r.trades, m);
      FromTradesAppend(r.trades, t, m);
      if Place(cfg, m) == Place(cfg, o.market) {
        PlaceInjective(cfg, m, o.market);
      }
    }
  }

  lemma {:induction false} TradesSoundKept(cfg: Config, r: Outcome, o: ProposedOrder, quantity: int, price: int)
    requires Positioned(cfg, r) && TradesSound(r) && OrderPlace(o) == Place(cfg, o.market)
    requires o.side.IsValid() && price > 0
    ensures TradesSound(Traded(r, o, quantity, price))
  {
    var r' := Traded(r, o, quantity, price);
    forall k | 0 <= k < |r'.trades| ensures TradeSound(r'.trades, k) {
      assert r'.trades[..k] == r.trades[..k];
      if k < |r.trades| {
        assert TradeSound(r.trades, k);
      } else {
        assert r.trades[..k] == r.trades;
        assert Held(r.book.markets, Place(cfg, o.market)) == FromTrades(r.trades, o.market);
      }
    }
  }

  /** A fill never adds more to a position than the order's notional, unless it sells a negative quantity. */
  lemma {:induction false} FillAddsAtMost(o: ProposedOrder, md: Option<MarketData>, held: Position)
    requires o.notional == o.quantity * o.price && SimulateFill(o, md).0 != 0
    requires o.side.Sell? ==> o.quantity >= 0
    ensures var (q, p) := SimulateFill(o, md);
            Moved(held, o.side, q, p).notional <= held.notional
            || Moved(held, o.side, q, p).notional <= held.notional + o.notional
  {
    var (q, p) := SimulateFill(o, md);
    if q >= 0 {
      assert q * p >= 0;
      if o.side.Buy? {
        assert q * p <= q * o.price;
      }
    } else {
      assert q * p <= 0;
    }
  }

  lemma {:induction false} LimitKept(cfg: Config, r: Outcome, o: ProposedOrder, md: Option<MarketData>)
    requires WithinLimit(cfg, r) && PositionFits(cfg.policy, r.book, o) && o.notional == o.quantity * o.price
    requires SimulateFill(o, md).0 != 0
    ensures var (q, p) := SimulateFill(o, md); WithinLimit(cfg, Traded(r, o, q, p))
  {
    var (q, p) := SimulateFill(o, md);
    var r' := Traded(r, o, q, p);
    if cfg.policy.maxPosition >= 0 && SellsPositive(r'.trades) {
      assert r'.trades[|r.trades|].quantity == q;
      assert SellsPositive(r.trades) by {
        assert forall k :: 0 <= k < |r.trades| ==> r'.trades[k] == r.trades[k];
      }
      var held := Held(r.book.markets, OrderPlace(o));
      FillAddsAtMost(o, md, held);
      assert Moved(held, o.side, q, p).notional <= cfg.policy.maxPosition;
    }
  }

  // ---------- every run ----------

  lemma {:induction false} AttemptKeeps(cfg: Config, tick: Tick, r: Outcome, s: Signal)
    requires Good(cfg, r)
    ensures Good(cfg, Attempt(cfg, tick, r, s))
  {
    var o := BuildOrder(cfg, s, tick.at);
    var md := QuoteFor(tick, o);
    var (q, p) := SimulateFill(o, md);
    if AllPassed(cfg.policy, r.book, o) && q != 0 {
      AccountsKept(cfg, r, o, q, p);
      GatedKept(cfg, r, o, q, p);
      PositionedKept(cfg, r, o, q, p);
      TradesSoundKept(cfg, r, o, q, p);
      LimitKept(cfg, r, o, md);
    }
  }

  lemma {:induction false} SignalsKeep(cfg: Config, tick: Tick, r: Outcome, signals: seq<Signal>)
    requires Good(cfg, r)
    ensures Good(cfg, AfterSignals(cfg, tick, r, signals))
  {
    if signals != [] {
      var front := signals[..|signals| - 1];
      SignalsKeep(cfg, tick, r, front);
      AttemptKeeps(cfg, tick, AfterSignals(cfg, tick, r, front), signals[|signals| - 1]);
    }
  }

  lemma {:induction false} BegunKeeps(cfg: Config, r: Outcome, tick: Tick)
    requires Good(cfg, r)
    ensures Good(cfg, Begun(r, tick))
  {
    assert Begun(r, tick).book.markets == r.book.markets;
  }

  lemma {:induction false} FreshIsGood(cfg: Config)
    ensures Good(cfg, Fresh(cfg))
  {
  }

  lemma {:induction false} TurnsKeep(cfg: Config, r: Outcome, turns: seq<Turn>)
    requires Good(cfg, r)
    ensures Good(cfg, AfterTurns(cfg, r, turns))
  {
    if turns != [] {
      var front, turn := turns[..|turns| - 1], turns[|turns| - 1];
      TurnsKeep(cfg, r, front);
      BegunKeeps(cfg, AfterTurns(cfg, r, front), turn.tick);
      SignalsKeep(cfg, turn.tick, Begun(AfterTurns(cfg, r, front), turn.tick), turn.signals);
    }
  }

  /** Every backtest keeps its accounts, gates, positions, trade records and position limit. */
  lemma {:induction false} BacktestKeeps(cfg: Config, turns: seq<Turn>)
    ensures Good(cfg, AfterTurns(cfg, Fresh(cfg), turns))
  {
    FreshIsGood(cfg);
    TurnsKeep(cfg, Fresh(cfg), turns);
  }

  // ---------- the gates latch ----------

  lemma {:induction false} ClosedStopsSignals(cfg: Config, tick: Tick, r: Outcome, signals: seq<Signal>)
    requires !GateOpen(cfg.policy, r.book)
    ensures AfterSignals(cfg, tick, r, signals) == r
  {
    if signals != [] {
      ClosedStopsSignals(cfg, tick, r, signals[..|signals| - 1]);
    }
  }

  /** After a breach nothing trades any more, whatever ticks and signals follow. */
  lemma {:induction false} BreachStopsTrading(cfg: Config, r: Outcome, turns: seq<Turn>)
    requires !GateOpen(cfg.policy, r.book)
    ensures var r' := AfterTurns(cfg, r, turns);
            r'.trades == r.trades && r'.curve == r.curve && r'.equity == r.equity
            && r'.book.markets == r.book.markets && !GateOpen(cfg.policy, r'.book)
  {
    if turns != [] {
      var front, turn := turns[..|turns| - 1], turns[|turns| - 1];
      BreachStopsTrading(cfg, r, front);
      ClosedStopsSignals(cfg, turn.tick, Begun(AfterTurns(cfg, r, front), turn.tick), turn.signals);
    }
  }

  /**
   * Main result: with positive capital every curve point but the last has a drawdown from its prefix maximum
   * below the limit and a cumulative loss within the limit.
   */
  lemma {:induction false} GatesLatch(cfg: Config, turns: seq<Turn>, k: nat)
    requires cfg.capital > 0
    requires k + 1 < |AfterTurns(cfg, Fresh(cfg), turns).curve|
    ensures var curve := AfterTurns(cfg, Fresh(cfg), turns).curve;
            curve[k] - curve[0] >= -cfg.policy.maxDailyLoss
            && PeakAt(curve, k) >= cfg.capital
            && Fall(PeakAt(curve, k), curve[k]) * 100.0 < cfg.policy.maxDrawdownPct
  {
    BacktestKeeps(cfg, turns);
    var r := AfterTurns(cfg, Fresh(cfg), turns);
    PeakIsAbove(r.curve, k, 0);
    assert OpenAt(cfg, r.curve, k);
  }

  lemma {:induction false} FallsPrefix(curve: seq<int>, k: nat, j: nat)
    requires j < k <= |curve|
    ensures PeakAt(curve[..k], j) == PeakAt(curve, j)
  {
    if j > 0 {
      FallsPrefix(curve, k, j - 1);
    }
  }

  /** So the reported maximum drawdown of the curve without its last point stays below the limit. */
  lemma {:induction false} DrawdownBelowLimit(cfg: Config, turns: seq<Turn>, dd: real)
    requires cfg.capital > 0
    requires var r := AfterTurns(cfg, Fresh(cfg), turns);
             |r.curve| >= 2 && IsLargest(Falls(r.curve[..|r.curve| - 1]), dd)
    ensures dd * 100.0 < cfg.policy.maxDrawdownPct
  {
    var curve := AfterTurns(cfg, Fresh(cfg), turns).curve;
    var most := |curve| - 1;
    var j: nat := 0;
    if dd > 0.0 {
      j :| 0 <= j < most && Falls(curve[..most])[j] == dd;
    } else {
      FallsPrefix(curve, most, 0);
      assert Fall(curve[0], curve[0]) == 0.0 by { BacktestKeeps(cfg, turns); }
    }
    FallsPrefix(curve, most, j);
    GatesLatch(cfg, turns, j);
  }

  // ---------- what the trades add up to ----------

  lemma {:induction false} StepsSum(curve: seq<int>, trades: seq<Trade>, n: nat)
    requires |curve| == |trades| + 1 && n <= |trades|
    requires forall k :: 0 <= k < |trades| ==> curve[k + 1] == curve[k] + trades[k].pnl
    ensures SumBy(trades[..n], Pnl()) == curve[n] - curve[0]
  {
    if n > 0 {
      StepsSum(curve, trades, n - 1);
      assert trades[..n] == trades[..n - 1] + [trades[n - 1]];
      SumAppend(trades[..n - 1], trades[n - 1], Pnl());
    }
  }

  /** The total PnL the metrics report is the rise of the curve from its first to its last point. */
  lemma {:induction false} TotalIsRise(cfg: Config, turns: seq<Turn>)
    ensures var r := AfterTurns(cfg, Fresh(cfg), turns);
            |r.curve| == |r.trades| + 1
            && SumBy(r.trades, Pnl()) == r.curve[|r.trades|] - cfg.capital == r.book.dailyPnL
  {
    BacktestKeeps(cfg, turns);
    var r := AfterTurns(cfg, Fresh(cfg), turns);
    StepsSum(r.curve, r.trades, |r.trades|);
    assert r.trades[..|r.trades|] == r.trades;
  }

  // ---------- the position limit ----------

  ghost predicate NoNegativeSell(turns: seq<Turn>)
  {
    forall i, j :: 0 <= i < |turns| && 0 <= j < |turns[i].signals| && turns[i].signals[j].side.Sell?
      ==> turns[i].signals[j].quantity >= 0
  }

  /** A trade's side and quantity are those of some signal, so no sell is negative when no signal is one. */
  lemma {:induction false} SignalsSellPositive(cfg: Config, tick: Tick, r: Outcome, signals: seq<Signal>)
    requires SellsPositive(r.trades)
    requires forall j :: 0 <= j < |signals| && signals[j].side.Sell? ==> signals[j].quantity >= 0
    ensures SellsPositive(AfterSignals(cfg, tick, r, signals).trades)
  {
    if signals != [] {
      var n := |signals| - 1;
      SignalsSellPositive(cfg, tick, r, signals[..n]);
    }
  }

  lemma {:induction false} TurnsSellPositive(cfg: Config, r: Outcome, turns: seq<Turn>)
    requires SellsPositive(r.trades) && NoNegativeSell(turns)
    ensures SellsPositive(AfterTurns(cfg, r, turns).trades)
  {
    if turns != [] {
      var n := |turns| - 1;
      assert NoNegativeSell(turns[..n]);
      TurnsSellPositive(cfg, r, turns[..n]);
      SignalsSellPositive(cfg, turns[n].tick, Begun(AfterTurns(cfg, r, turns[..n]), turns[n].tick), turns[n].signals);
    }
  }

  /** Main result: no position's notional is ever above the limit. */
  lemma {:induction false} PositionsStayWithinLimit(cfg: Config, turns: seq<Turn>, place: string)
    requires cfg.policy.maxPosition >= 0 && NoNegativeSell(turns)
    ensures Held(AfterTurns(cfg, Fresh(cfg), turns).book.markets, place).notional <= cfg.policy.maxPosition
  {
    BacktestKeeps(cfg, turns);
    TurnsSellPositive(cfg, Fresh(cfg), turns);
  }

  ghost predicate PositionsWithin(cfg: Config, r: Outcome)
  {
    forall p :: p in r.book.markets ==> r.book.markets[p].notional <= cfg.policy.maxPosition
  }

  /** One signal can push no position over a limit it kept before. */
  ghost predicate KeepsLimit(cfg: Config, tick: Tick, r: Outcome, s: Signal)
  {
    cfg.policy.maxPosition >= 0 && PositionsWithin(cfg, r) ==> PositionsWithin(cfg, Attempt(cfg, tick, r, s))
  }

  lemma {:induction false} OrdinarySignalKeeps(cfg: Config, tick: Tick, r: Outcome, s: Signal)
    requires s.side.Sell? ==> s.quantity >= 0
    ensures KeepsLimit(cfg, tick, r, s)
  {
    var o := BuildOrder(cfg, s, tick.at);
    var md := QuoteFor(tick, o);
    if AllPassed(cfg.policy, r.book, o) && SimulateFill(o, md).0 != 0 {
      FillAddsAtMost(o, md, Held(r.book.markets, OrderPlace(o)));
    }
  }

  /** The lowest limit a sell of a negative quantity passes on a market without a position .. */
  function TightLimit(s: Signal): int { if s.price >= 0 then 0 else s.quantity * s.price }

  /** .. and a bid it fills at, beyond its own price. */
  function HighBid(s: Signal): int { if s.price >= 0 then s.price + 1 else 1 - s.price }

  function TightConfig(s: Signal): Config
  {
    Config("s", "v", 1, Policy(TightLimit(s), 0, 1.0, (o, b) => true))
  }

  function TickWithBid(s: Signal): Tick
  {
    Tick(0, map["v" + ":" + s.market := MarketData("v", s.market, HighBid(s), 0, 0, 0)])
  }

  lemma {:induction false} SellBelowZero(quantity: int, price: int)
    requires quantity < 0
    ensures price >= 0 ==> quantity * price <= 0 < -(quantity * (price + 1))
    ensures price < 0 ==> 0 < quantity * price < -(quantity * (1 - price))
  {
    assert quantity * (price + 1) == quantity * price + quantity;
    assert quantity * (1 - price) == quantity - quantity * price;
  }

  /** Why a sell must not be negative: for every such signal some backtest of this one signal ends over its limit. */
  lemma {:induction false} NegativeSellBreaksLimit(s: Signal)
    requires s.side.Sell? && s.quantity < 0
    ensures var cfg := TightConfig(s);
            cfg.policy.maxPosition >= 0
            && Held(Attempt(cfg, TickWithBid(s), Fresh(cfg), s).book.markets, Place(cfg, s.market)).notional
               > cfg.policy.maxPosition
  {
    var cfg, tick := TightConfig(s), TickWithBid(s);
    SellBelowZero(s.quantity, s.price);
    var o := BuildOrder(cfg, s, 0);
    assert SimulateFill(o, QuoteFor(tick, o)) == (s.quantity, HighBid(s));
    assert AllPassed(cfg.policy, Fresh(cfg).book, o);
  }

  /**
   Main result: a signal can never push a position over a limit that is kept, if and only if it is no sell of a
   negative quantity.
   */
  lemma {:induction false} SignalKeepsLimitExactlyWhen(s: Signal)
    ensures (forall cfg: Config, tick: Tick, r: Outcome :: KeepsLimit(cfg, tick, r, s))
            <==> !(s.side.Sell? && s.quantity < 0)
  {
    if s.side.Sell? && s.quantity < 0 {
      var cfg := TightConfig(s);
      NegativeSellBreaksLimit(s);
      assert !KeepsLimit(cfg, TickWithBid(s), Fresh(cfg), s);
    } else {
      forall cfg: Config, tick: Tick, r: Outcome ensures KeepsLimit(cfg, tick, r, s) {
        OrdinarySignalKeeps(cfg, tick, r, s);
      }
    }
  }

  // ---------- the first round trip ----------

  /** Before trade k the market saw only buys, each of a positive quantity. */
  ghost predicate OnlyBuysBefore(trades: seq<Trade>, k: nat, market: string)
  {
    k <= |trades| && forall i :: 0 <= i < k && trades[i].market == market ==>
          trades[i].side.Buy? && trades[i].quantity > 0
  }

  function QuantityIn(market: string): Trade -> int
  {
    (t: Trade) => if t.market == market then t.quantity else 0
  }

  function PaidIn(market: string): Trade -> int
  {
    (t: Trade) => if t.market == market then t.quantity * t.price else 0
  }

  lemma {:induction false} BuysAddUp(trades: seq<Trade>, k: nat, market: string)
    requires OnlyBuysBefore(trades, k, market) && forall i :: 0 <= i < k ==> trades[i].price > 0
    ensures SumBy(trades[..k], ContractsIn(market)) == SumBy(trades[..k], QuantityIn(market)) >= 0
    ensures SumBy(trades[..k], CashIn(market)) == SumBy(trades[..k], PaidIn(market)) >= 0
  {
    if k > 0 {
      var t := trades[k - 1];
      BuysAddUp(trades, k - 1, market);
      assert trades[..k] == trades[..k - 1] + [t];
      SumAppend(trades[..k - 1], t, ContractsIn(market));
      SumAppend(trades[..k - 1], t, QuantityIn(market));
      SumAppend(trades[..k - 1], t, CashIn(market));
      SumAppend(trades[..k - 1], t, PaidIn(market));
      if t.market == market {
        assert t.quantity * t.price >= 0;
      }
    }
  }

  lemma {:induction false} CloseRounds(paid: int, n: int, price: int)
    requires paid >= 0 && n > 0
    ensures n * (price - Quotient(paid, n)) - (n * price - paid) == paid % n
  {
    assert n * (price - paid / n) == n * price - n * (paid / n);
    assert paid == n * (paid / n) + paid % n;
  }

  /**
   * Main result: in every run, when trade k sells exactly what the earlier buys of its market bought (an int32),
   * those buys reported no PnL, and the sale reports more than the true net cash flow by exactly the paid notional
   * modulo the contract count: less than one micro per contract.
   */
  lemma {:induction false} RoundTrip(cfg: Config, turns: seq<Turn>, k: nat)
    requires k < |AfterTurns(cfg, Fresh(cfg), turns).trades|
    requires var trades := AfterTurns(cfg, Fresh(cfg), turns).trades; var t := trades[k];
             t.side.Sell? && OnlyBuysBefore(trades, k, t.market)
             && 0 < t.quantity == SumBy(trades[..k], QuantityIn(t.market)) < 0x8000_0000
    ensures var trades := AfterTurns(cfg, Fresh(cfg), turns).trades; var t := trades[k];
            var paid := SumBy(trades[..k], PaidIn(t.market));
            t.pnl - (t.quantity * t.price - paid) == paid % t.quantity < t.quantity
    ensures var trades := AfterTurns(cfg, Fresh(cfg), turns).trades;
            forall i :: 0 <= i < k && trades[i].market == trades[k].market ==> trades[i].pnl == 0
  {
    BacktestKeeps(cfg, turns);
    var trades := AfterTurns(cfg, Fresh(cfg), turns).trades;
    SaleRounds(trades, k);
    forall i | 0 <= i < k && trades[i].market == trades[k].market ensures trades[i].pnl == 0 {
      BuyReportsNothing(trades, i, k);
    }
  }

  lemma {:induction false} SaleRounds(trades: seq<Trade>, k: nat)
    requires k < |trades| && trades[k].side.Sell? && OnlyBuysBefore(trades, k, trades[k].market)
    requires 0 < trades[k].quantity == SumBy(trades[..k], QuantityIn(trades[k].market)) < 0x8000_0000
    requires forall j :: 0 <= j < |trades| ==> TradeSound(trades, j)
    ensures var t, paid := trades[k], SumBy(trades[..k], PaidIn(trades[k].market));
            t.pnl - (t.quantity * t.price - paid) == paid % t.quantity < t.quantity
  {
    var t := trades[k];
    PricesPositive(trades, k);
    BuysAddUp(trades, k, t.market);
    assert TradeSound(trades, k);
    CloseRounds(SumBy(trades[..k], PaidIn(t.market)), t.quantity, t.price);
  }

  lemma {:induction false} PricesPositive(trades: seq<Trade>, k: nat)
    requires k <= |trades| && forall j :: 0 <= j < |trades| ==> TradeSound(trades, j)
    ensures forall i :: 0 <= i < k ==> trades[i].price > 0
  {
    forall i | 0 <= i < k ensures trades[i].price > 0 {
      assert TradeSound(trades, i);
    }
  }

  lemma {:induction false} BuyReportsNothing(trades: seq<Trade>, i: nat, k: nat)
    requires i < k < |trades| && trades[i].market == trades[k].market && OnlyBuysBefore(trades, k, trades[k].market)
    requires forall j :: 0 <= j < |trades| ==> TradeSound(trades, j)
    requires SumBy(trades[..k], QuantityIn(trades[k].market)) < 0x8000_0000
    ensures trades[i].pnl == 0
  {
    var m := trades[k].market;
    PricesPositive(trades, i);
    BuysAddUp(trades, i, m);
    assert trades[..k] == trades[..i] + trades[i..k];
    SumConcat(trades[..i], trades[i..k], QuantityIn(m));
    SumNonneg(trades[i..k], QuantityIn(m));
    assert TradeSound(trades, i);
  }
}
