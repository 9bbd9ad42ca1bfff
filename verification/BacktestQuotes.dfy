/** Which signals of a backtest trade, at which quote, and what a closing trade reports. */
module BacktestQuotes {
  import opened Orders
  import opened Metrics
  import opened Ticks
  import opened Exposure
  import opened Backtest

  // ---------- one signal ----------

  /** The tick has a quote for the signal's market that crosses its price. */
  predicate Crosses(cfg: Config, tick: Tick, s: Signal)
  {
    var key := cfg.venue + ":" + s.market;
    && key in tick.data
    && ((s.side == Buy && 0 < tick.data[key].ask && tick.data[key].ask <= s.price)
        || (s.side == Sell && 0 < tick.data[key].bid && s.price <= tick.data[key].bid))
  }

  /** The trade is the signal's full quantity at the ask, for a buy, or the bid, for a sell. */
  predicate TradeOf(cfg: Config, tick: Tick, s: Signal, t: Trade)
  {
    var key := cfg.venue + ":" + s.market;
    && Crosses(cfg, tick, s) && t.market == s.market && t.side == s.side && t.quantity == s.quantity != 0
    && (s.side == Buy ==> t.price == tick.data[key].ask)
    && (s.side == Sell ==> t.price == tick.data[key].bid)
  }

  /** The position, the loss gates and the other checks pass, each in terms of the books. */
  ghost predicate ChecksPass(cfg: Config, tick: Tick, b: Book, s: Signal)
  {
    var place := cfg.venue + ":" + s.market + ":" + cfg.strategy;
    && (if place in b.markets then b.markets[place].notional else 0) + s.quantity * s.price <= cfg.policy.maxPosition
    && b.dailyPnL >= -cfg.policy.maxDailyLoss
    && (b.peakEquity == 0
        || (b.peakEquity - b.currentEquity) as real / b.peakEquity as real * 100.0 < cfg.policy.maxDrawdownPct)
    && cfg.policy.others(ProposedOrder(s.trace, cfg.strategy, cfg.venue, s.market, s.side, s.quantity, s.price,
                                       s.quantity * s.price, tick.at), b)
  }

  lemma {:induction false} ChecksAre(cfg: Config, tick: Tick, b: Book, s: Signal)
    ensures AllPassed(cfg.policy, b, BuildOrder(cfg, s, tick.at)) <==> ChecksPass(cfg, tick, b, s)
  {
  }

  lemma {:induction false} FillIs(cfg: Config, tick: Tick, s: Signal)
    ensures var o := BuildOrder(cfg, s, tick.at); var fill := SimulateFill(o, QuoteFor(tick, o));
      && (fill.0 != 0 <==> s.quantity != 0 && Crosses(cfg, tick, s))
      && (fill.0 != 0 ==> TradeOf(cfg, tick, s, Trade(o.market, o.side, fill.0, fill.1, 0)))
  {
  }

  /** Main result: a signal trades if and only if the checks pass, it is not empty and the quote crosses its price. */
  lemma {:induction false} TradesExactlyWhen(cfg: Config, tick: Tick, r: Outcome, s: Signal)
    ensures var r' := Attempt(cfg, tick, r, s);
      && (r'.trades != r.trades <==> ChecksPass(cfg, tick, r.book, s) && s.quantity != 0 && Crosses(cfg, tick, s))
      && (r'.trades != r.trades ==>
            |r'.trades| == |r.trades| + 1 && r'.trades[..|r.trades|] == r.trades
            && TradeOf(cfg, tick, s, r'.trades[|r.trades|]))
      && (r'.trades == r.trades ==> r' == r)
  {
    ChecksAre(cfg, tick, r.book, s);
    FillIs(cfg, tick, s);
    var o := BuildOrder(cfg, s, tick.at);
    var fill := SimulateFill(o, QuoteFor(tick, o));
    assert |Traded(r, o, fill.0, fill.1).trades| == |r.trades| + 1;
  }

  // ---------- whole runs ----------

  /** Trade t is that of signal j at turn i. */
  ghost predicate FromSignal(cfg: Config, turns: seq<Turn>, t: Trade, i: int, j: int)
  {
    0 <= i < |turns| && 0 <= j < |turns[i].signals| && TradeOf(cfg, turns[i].tick, turns[i].signals[j], t)
  }

  ghost predicate FromSomeSignal(cfg: Config, turns: seq<Turn>, t: Trade)
  {
    exists i, j :: FromSignal(cfg, turns, t, i, j)
  }

  ghost predicate AllFromSignals(cfg: Config, turns: seq<Turn>, trades: seq<Trade>)
  {
    forall k :: 0 <= k < |trades| ==> FromSomeSignal(cfg, turns, trades[k])
  }

  lemma {:induction false} OneMoreFromSignal(cfg: Config, turns: seq<Turn>, trades: seq<Trade>, t: Trade, i: int,
      j: int)
    requires AllFromSignals(cfg, turns, trades) && FromSignal(cfg, turns, t, i, j)
    ensures AllFromSignals(cfg, turns, trades + [t])
  {
    assert FromSomeSignal(cfg, turns, t);
    forall k | 0 <= k < |trades| + 1 ensures FromSomeSignal(cfg, turns, (trades + [t])[k]) {
      assert k < |trades| ==> (trades + [t])[k] == trades[k];
    }
  }

  lemma {:induction false} TradeFromSignal(cfg: Config, turns: seq<Turn>, i: nat, j: nat, r: Outcome)
    requires i < |turns| && j < |turns[i].signals| && AllFromSignals(cfg, turns, r.trades)
    ensures AllFromSignals(cfg, turns, Attempt(cfg, turns[i].tick, r, turns[i].signals[j]).trades)
  {
    var trades' := Attempt(cfg, turns[i].tick, r, turns[i].signals[j]).trades;
    TradesExactlyWhen(cfg, turns[i].tick, r, turns[i].signals[j]);
    if trades' != r.trades {
      OneMoreFromSignal(cfg, turns, r.trades, trades'[|r.trades|], i, j);
      assert trades' == r.trades + [trades'[|r.trades|]];
    }
  }

  lemma {:induction false} TickFromSignals(cfg: Config, turns: seq<Turn>, i: nat, n: nat, r: Outcome)
    requires i < |turns| && n <= |turns[i].signals| && AllFromSignals(cfg, turns, r.trades)
    ensures AllFromSignals(cfg, turns, AfterSignals(cfg, turns[i].tick, r, turns[i].signals[..n]).trades)
  {
    if n > 0 {
      var signals := turns[i].signals;
      assert signals[..n][..n - 1] == signals[..n - 1];
      TickFromSignals(cfg, turns, i, n - 1, r);
      TradeFromSignal(cfg, turns, i, n - 1, AfterSignals(cfg, turns[i].tick, r, signals[..n - 1]));
    }
  }

  lemma {:induction false} TurnsFromSignals(cfg: Config, turns: seq<Turn>, n: nat)
    requires n <= |turns|
    ensures AllFromSignals(cfg, turns, AfterTurns(cfg, Fresh(cfg), turns[..n]).trades)
  {
    if n > 0 {
      assert turns[..n][..n - 1] == turns[..n - 1];
      TurnsFromSignals(cfg, turns, n - 1);
      var turn := turns[n - 1];
      assert turn.signals[..|turn.signals|] == turn.signals;
      TickFromSignals(cfg, turns, n - 1, |turn.signals|, Begun(AfterTurns(cfg, Fresh(cfg), turns[..n - 1]), turn.tick));
    }
  }

  /** Main result: in every backtest each trade is some signal's full quantity at its tick's ask, or bid for a sell. */
  lemma {:induction false} TradesAreAtQuotes(cfg: Config, turns: seq<Turn>)
    ensures AllFromSignals(cfg, turns, AfterTurns(cfg, Fresh(cfg), turns).trades)
  {
    TurnsFromSignals(cfg, turns, |turns|);
    assert turns[..|turns|] == turns;
  }

  // ---------- what closing reports ----------

  /** Division towards zero: the sign of the exact quotient, and a remainder smaller than the divisor. */
  lemma {:induction false} QuotientTruncates(a: int, b: int)
    requires b > 0
    ensures a >= 0 ==> Quotient(a, b) >= 0 && 0 <= a - b * Quotient(a, b) < b
    ensures a <= 0 ==> Quotient(a, b) <= 0 && 0 <= b * Quotient(a, b) - a < b
  {
  }

  /** A sale of no more than what is held reports its proceeds minus its share at the truncated average .. */
  lemma {:induction false} PartOfLongReports(held: Position, quantity: int, price: int)
    requires held.contracts > 0 && quantity <= held.contracts
    ensures ComputePnl(held, Sell, quantity, price)
         == quantity * price - quantity * Quotient(held.notional, held.contracts)
  {
  }

  /** .. and a larger one no more than a sale of all. */
  lemma {:induction false} BeyondLongReportsAll(held: Position, quantity: int, price: int)
    requires held.contracts > 0 && quantity >= held.contracts
    ensures ComputePnl(held, Sell, quantity, price) == ComputePnl(held, Sell, held.contracts, price)
  {
  }

  lemma {:induction false} ShortSize(contracts: Int32)
    requires -0x8000_0000 < contracts < 0
    ensures Wrap32(-(contracts as int)) == -(contracts as int)
  {
  }

  /** A short position closes by buying, the other way round. */
  lemma {:induction false} PartOfShortReports(held: Position, quantity: int, price: int)
    requires -0x8000_0000 < held.contracts < 0 && quantity <= -(held.contracts as int)
    ensures ComputePnl(held, Buy, quantity, price)
         == quantity * (Quotient(held.notional, -(held.contracts as int)) - price)
  {
    ShortSize(held.contracts);
  }

  lemma {:induction false} BeyondShortReportsAll(held: Position, quantity: int, price: int)
    requires -0x8000_0000 < held.contracts < 0 && quantity >= -(held.contracts as int)
    ensures ComputePnl(held, Buy, quantity, price) == ComputePnl(held, Buy, -(held.contracts as int), price)
  {
    ShortSize(held.contracts);
  }

  /** Nothing else reports PnL. */
  lemma {:induction false} OpeningReportsNothing(held: Position, side: Side, quantity: int, price: int)
    requires !(side == Sell && held.contracts > 0) && !(side == Buy && held.contracts < 0)
    ensures ComputePnl(held, side, quantity, price) == 0
  {
  }

  /** Closing in two parts reports what closing at once does. */
  lemma {:induction false} PartsAddUp(held: Position, first: int, second: int, price: int)
    requires held.contracts > 0 && 0 <= first && 0 <= second && first + second <= held.contracts
    ensures ComputePnl(held, Sell, first, price) + ComputePnl(held, Sell, second, price)
         == ComputePnl(held, Sell, first + second, price)
  {
    var each := price - Quotient(held.notional, held.contracts);
    assert first * each + second * each == (first + second) * each;
  }
}
