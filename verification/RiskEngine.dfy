/** The risk engine as an object: rate tracking and positions changed in place. */
module RiskEngineObject {
  import opened Modes
  import opened Orders
  import opened RateLimits
  import opened RiskPositions
  import opened DailyStats

  class RiskEngine {
    const maxOrdersPerMinute: int
    var systemMode: Mode
    var recentOrderTimes: map<string, seq<int>>
    var recentOrderKeys: map<string, int>
    var recentNotionals: map<string, seq<int>>
    var markets: map<string, MarketState>
    var positionRows: map<Account, MarketState>
    var dailyStats: Stats

    ghost function Rates(): Tracking
      reads this
    {
      Tracking(systemMode, recentOrderTimes, recentOrderKeys, recentNotionals)
    }

    ghost function Held(): Positions
      reads this
    {
      Positions(markets, positionRows)
    }

    constructor (maxOrdersPerMinute: int)
      ensures this.maxOrdersPerMinute == maxOrdersPerMinute
      ensures Rates() == NO_TRACKING && Held() == NO_POSITIONS && dailyStats == map[]
    {
      this.maxOrdersPerMinute := maxOrdersPerMinute;
      systemMode, recentOrderTimes, recentOrderKeys, recentNotionals := Normal, map[], map[], map[];
      markets, positionRows, dailyStats := map[], map[], map[];
    }

    method SetSystemMode(mode: Mode)
      modifies this`systemMode
      ensures Rates() == old(Rates()).(mode := mode)
    {
      systemMode := mode;
    }

    /** checkStrategyOrderFrequency: counts the recorded times of the last minute. */
    method CheckFrequency(strategy: string, now: int) returns (ok: bool)
      ensures ok <==> FrequencyOk(Rates(), strategy, now, maxOrdersPerMinute)
    {
      if strategy !in recentOrderTimes {
        return true;
      }
      var times := recentOrderTimes[strategy];
      var count := 0;
      for n := 0 to |times|
        invariant count == CountAfter(times[..n], now - MINUTE)
      {
        assert times[..n + 1][..n] == times[..n];
        if times[n] > now - MINUTE {
          count := count + 1;
        }
      }
      assert times[..|times|] == times;
      return count < maxOrdersPerMinute;
    }

    method CheckDuplicate(order: ProposedOrder, now: int) returns (ok: bool)
      ensures ok <==> DuplicateOk(Rates(), IdempotencyKey(order), now)
    {
      var key := IdempotencyKey(order);
      if key in recentOrderKeys && now - recentOrderKeys[key] < REPEAT {
        return false;
      }
      return true;
    }

    /** All checks run; only an approval is recorded, at a clock reading taken after the checks. */
    method EvaluateOrder(order: ProposedOrder, freqAt: int, dupAt: int, recordAt: int, othersPass: bool)
      returns (approved: Result<bool>)
      modifies this`recentOrderTimes, this`recentOrderKeys, this`recentNotionals
      ensures approved.Err? <==>
                !(order.trace != "" && order.strategy != "" && order.market != ""
                  && (order.side == Buy || order.side == Sell)
                  && order.quantity > 0 && 0 < order.price < 1_000_000 && order.notional > 0
                  && order.notional == order.quantity * order.price)
      ensures approved == Ok(true) ==> old(systemMode) == Normal && othersPass
      ensures approved == Ok(true) ==>
                var s, key := order.strategy, IdempotencyKey(order);
                && recentOrderTimes == old(recentOrderTimes)[s := old(TimesOf(Rates(), s)) + [recordAt]]
                && recentOrderKeys == old(recentOrderKeys)[key := recordAt]
                && recentNotionals == old(recentNotionals)[s := old(NotionalsOf(Rates(), s)) + [order.notional]]
      ensures approved != Ok(true) ==> Rates() == old(Rates())
      ensures var call := CallFor(order, systemMode, freqAt, dupAt, recordAt, othersPass);
        && Rates() == Evaluated(old(Rates()), call, maxOrdersPerMinute)
        && (approved.Ok? ==> (approved.value <==> Approves(old(Rates()), call, maxOrdersPerMinute)))
    {
      if !ValidOrder(order) {
        return Err("invalid order");
      }
      var modeOk := systemMode == Normal;
      var freqOk := CheckFrequency(order.strategy, freqAt);
      var dupOk := CheckDuplicate(order, dupAt);
      if !(modeOk && freqOk && dupOk && othersPass) {
        return Ok(false);
      }
      var times := if order.strategy in recentOrderTimes then recentOrderTimes[order.strategy] else [];
      recentOrderTimes := recentOrderTimes[order.strategy := times + [recordAt]];
      recentOrderKeys := recentOrderKeys[IdempotencyKey(order) := recordAt];
      var notionals := if order.strategy in recentNotionals then recentNotionals[order.strategy] else [];
      recentNotionals := recentNotionals[order.strategy := notionals + [order.notional]];
      return Ok(true);
    }

    /** Moves the position, counts the fill under its three scopes, and writes the position's row. */
    method ReportFillEvent(account: Account, side: Side, quantity: int, price: int, today: string)
      modifies this`markets, this`positionRows, this`dailyStats
      ensures Held() == ReportFill(old(Held()), account, side, quantity, price)
      ensures var was := old(MemoryAt(Held(), Join(account)));
              MemoryAt(Held(), Join(account))
              == (if side == Buy then MarketState(was.contracts + quantity, was.notional + quantity * price)
                  else MarketState(was.contracts - quantity, was.notional - quantity * price))
              && account in positionRows && positionRows[account] == MemoryAt(Held(), Join(account))
      ensures dailyStats == CountedIn(old(dailyStats), Counted(today, account, quantity * price), Scopes(account))
    {
      var key := account.venue + ":" + account.market + ":" + account.strategy;
      var ms := if key in markets then markets[key] else MarketState(0, 0);
      var fillNotional := quantity * price;
      if side.Buy? {
        ms := MarketState(ms.contracts + quantity, ms.notional + fillNotional);
      } else {
        ms := MarketState(ms.contracts - quantity, ms.notional - fillNotional);
      }
      markets := markets[key := ms];
      CountFill(account, fillNotional, today);
      positionRows := positionRows[account := ms];
    }

    method CountFill(account: Account, notional: int, today: string)
      modifies this`dailyStats
      ensures dailyStats == CountedIn(old(dailyStats), Counted(today, account, notional), Scopes(account))
    {
      var scopes := Scopes(account);
      for n := 0 to |scopes|
        invariant dailyStats == CountedIn(old(dailyStats), Counted(today, account, notional), scopes[..n])
      {
        assert scopes[..n + 1][..n] == scopes[..n];
        var was := if (today, scopes[n]) in dailyStats then dailyStats[(today, scopes[n])] else Stat(0, 0);
        dailyStats := dailyStats[(today, scopes[n]) := Stat(was.fills + 1, was.turnover + Magnitude(notional))];
      }
      assert scopes[..|scopes|] == scopes;
    }
  }
}
