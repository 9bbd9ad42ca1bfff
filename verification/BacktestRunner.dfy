/** The backtest runner: a risk state changed in place, and the loop over ticks and signals. */
module BacktestRunner {
  import opened Orders
  import opened Metrics
  import opened Ticks
  import opened Exposure
  import opened Backtest
  import opened BacktestRuns
  import opened BacktestQuotes

  datatype RunResult = RunResult(trades: seq<Trade>, curve: seq<int>, totals: Totals, maxDrawdown: real)

  class RiskState {
    var markets: map<string, Position>
    var totalExposure: int
    var dailyPnL: int
    var currentEquity: int
    var peakEquity: int
    var data: map<string, MarketData>
    var now: int
    var times: seq<int>
    var notionals: seq<int>
    var keys: map<string, int>

    function Value(): Book
      reads this
    {
      Book(markets, totalExposure, dailyPnL, currentEquity, peakEquity, data, now, times, notionals, keys)
    }

    constructor (capital: int)
      ensures Value() == Book(map[], 0, 0, capital, capital, map[], 0, [], [], map[])
    {
      markets, totalExposure, dailyPnL := map[], 0, 0;
      currentEquity, peakEquity := capital, capital;
      data, now, times, notionals, keys := map[], 0, [], [], map[];
    }

    method TakeTick(tick: Tick)
      modifies this
      ensures Value() == old(Value()).(now := tick.at, data := old(data) + tick.data)
    {
      now := tick.at;
      data := data + tick.data;
    }

    method UpdateState(o: ProposedOrder, quantity: int, price: int)
      modifies this
      ensures Value() == Updated(old(Value()), o, quantity, price)
      ensures var place := o.venue + ":" + o.market + ":" + o.strategy;
              var was := if place in old(markets) then old(markets)[place].notional else 0;
              var now := if o.side == Buy then was + quantity * price else was - quantity * price;
              && place in markets && markets[place].notional == now && totalExposure == (if now < 0 then -now else now)
              && markets - {place} == old(markets) - {place}
      ensures var place := o.venue + ":" + o.market + ":" + o.strategy;
              var was: int := if place in old(markets) then old(markets)[place].contracts else 0;
              place in markets
              && markets[place].contracts == Wrap32(if o.side == Buy then was + quantity else was - quantity)
      ensures keys == old(keys)[o.strategy + ":" + o.market + ":" + o.side.Text() + ":" + Decimal(o.quantity) + ":"
                                + Decimal(o.price) := o.proposedAt]
      ensures data == old(data) && now == old(now)
      ensures times == old(times) + [o.proposedAt] && notionals == old(notionals) + [o.notional]
      ensures dailyPnL == old(dailyPnL) && currentEquity == old(currentEquity) && peakEquity == old(peakEquity)
    {
      var held := if OrderPlace(o) in markets then markets[OrderPlace(o)] else FLAT;
      held := Moved(held, o.side, quantity, price);
      markets := markets[OrderPlace(o) := held];
      totalExposure := Abs(held.notional);
      times := times + [o.proposedAt];
      notionals := notionals + [o.notional];
      keys := keys[RecordedKey(o) := o.proposedAt];
    }

    method Settle(pnl: int, equity: int)
      modifies this
      ensures Value() == Settled(old(Value()), pnl, equity)
      ensures dailyPnL == old(dailyPnL) + pnl && currentEquity == equity && markets == old(markets)
      ensures peakEquity == if equity > old(peakEquity) then equity else old(peakEquity)
    {
      dailyPnL := dailyPnL + pnl;
      currentEquity := equity;
      if equity > peakEquity {
        peakEquity := equity;
      }
    }
  }

  /** One signal: build the order, check it, fill it, book the fill. */
  method TradeSignal(cfg: Config, state: RiskState, tick: Tick, s: Signal, trades0: seq<Trade>, curve0: seq<int>,
      equity0: int)
    returns (trades: seq<Trade>, curve: seq<int>, equity: int)
    modifies state
    ensures Outcome(state.Value(), trades, curve, equity)
         == Attempt(cfg, tick, Outcome(old(state.Value()), trades0, curve0, equity0), s)
    ensures trades != trades0 <==>
              ChecksPass(cfg, tick, old(state.Value()), s) && s.quantity != 0 && Crosses(cfg, tick, s)
    ensures trades != trades0 ==>
              |trades| == |trades0| + 1 && trades[..|trades0|] == trades0 && TradeOf(cfg, tick, s, trades[|trades0|])
  {
    TradesExactlyWhen(cfg, tick, Outcome(state.Value(), trades0, curve0, equity0), s);
    trades, curve, equity := trades0, curve0, equity0;
    var o := BuildOrder(cfg, s, tick.at);
    if !AllPassed(cfg.policy, state.Value(), o) {
      return;
    }
    var (quantity, price) := SimulateFill(o, QuoteFor(tick, o));
    if quantity == 0 {
      return;
    }
    var pnl := ComputePnl(Held(state.markets, OrderPlace(o)), o.side, quantity, price);
    state.UpdateState(o, quantity, price);
    trades := trades + [Trade(o.market, o.side, quantity, price, pnl)];
    equity := equity + pnl;
    curve := curve + [equity];
    state.Settle(pnl, equity);
  }

  /** The signals of one tick, in order. */
  method TradeTick(cfg: Config, state: RiskState, turn: Turn, trades0: seq<Trade>, curve0: seq<int>, equity0: int)
    returns (trades: seq<Trade>, curve: seq<int>, equity: int)
    modifies state
    ensures Outcome(state.Value(), trades, curve, equity)
         == AfterSignals(cfg, turn.tick, Begun(Outcome(old(state.Value()), trades0, curve0, equity0), turn.tick),
                         turn.signals)
  {
    ghost var start := Begun(Outcome(state.Value(), trades0, curve0, equity0), turn.tick);
    trades, curve, equity := trades0, curve0, equity0;
    state.TakeTick(turn.tick);
    for n := 0 to |turn.signals|
      invariant Outcome(state.Value(), trades, curve, equity) == AfterSignals(cfg, turn.tick, start, turn.signals[..n])
    {
      assert turn.signals[..n + 1][..n] == turn.signals[..n];
      trades, curve, equity := TradeSignal(cfg, state, turn.tick, turn.signals[n], trades, curve, equity);
    }
    assert turn.signals[..|turn.signals|] == turn.signals;
  }

  /**
   Run: fails exactly when the strategy is not registered or the context was cancelled before some tick; else
   gives the trades, the curve and the metrics.
   */
  method Run(cfg: Config, registry: set<string>, turns: seq<Turn>) returns (res: Result<RunResult>)
    ensures res.Err? <==> cfg.strategy !in registry || exists i :: 0 <= i < |turns| && turns[i].cancelled
    ensures res.Ok? ==> var r := AfterTurns(cfg, Fresh(cfg), turns);
                        res.value.trades == r.trades && res.value.curve == r.curve
    ensures res.Ok? ==> IsLargest(Falls(res.value.curve), res.value.maxDrawdown)
    ensures res.Ok? ==> res.value.totals.count == |res.value.trades| == |res.value.curve| - 1
                        && res.value.totals.totalPnL == res.value.curve[|res.value.trades|] - cfg.capital
  {
    if cfg.strategy !in registry {
      return Err("unknown strategy");
    }
    var state := new RiskState(cfg.capital);
    var trades, curve, equity := [], [cfg.capital], cfg.capital;
    for n := 0 to |turns|
      invariant forall i :: 0 <= i < n ==> !turns[i].cancelled
      invariant fresh(state)
      invariant Outcome(state.Value(), trades, curve, equity) == AfterTurns(cfg, Fresh(cfg), turns[..n])
    {
      if turns[n].cancelled {
        return Err("context canceled");
      }
      assert turns[..n + 1][..n] == turns[..n];
      trades, curve, equity := TradeTick(cfg, state, turns[n], trades, curve, equity);
    }
    assert turns[..|turns|] == turns;
    var totals := SumTrades(trades);
    var maxDrawdown := ComputeMaxDrawdown(curve);
    TotalIsRise(cfg, turns);
    res := Ok(RunResult(trades, curve, totals, maxDrawdown));
  }
}
