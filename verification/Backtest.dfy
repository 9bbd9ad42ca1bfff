/** One backtest: the risk state it keeps, the gates, the simulated fills and the equity curve. */
module Backtest {
  import opened Orders
  import opened Metrics
  import opened Ticks
  import opened Exposure
  import RiskPositions

  type Int32 = x: int | -0x8000_0000 <= x < 0x8000_0000

  /** What the risk state holds for one market and strategy: contracts, and signed cash paid. */
  datatype Position = Position(contracts: Int32, notional: int)

  const FLAT := Position(0, 0)

  datatype Book = Book(
    markets: map<string, Position>, totalExposure: int, dailyPnL: int, currentEquity: int, peakEquity: int,
    data: map<string, MarketData>, now: int,
    times: seq<int>, notionals: seq<int>, keys: map<string, int>)

  /** The three checks this model is about, and all the others as one arbitrary function of what they read. */
  datatype Policy = Policy(
    maxPosition: int, maxDailyLoss: int, maxDrawdownPct: real, others: (ProposedOrder, Book) -> bool)

  datatype Config = Config(strategy: string, venue: string, capital: int, policy: Policy)

  /** A strategy signal, with the trace that the order built from it draws. */
  datatype Signal = Signal(trace: string, market: string, side: Side, quantity: int, price: int)

  /** One tick, the signals the strategy makes of it, and whether the context was cancelled before it. */
  datatype Turn = Turn(tick: Tick, signals: seq<Signal>, cancelled: bool)

  datatype Outcome = Outcome(book: Book, trades: seq<Trade>, curve: seq<int>, equity: int)

  // ---------- one signal ----------

  function BuildOrder(cfg: Config, s: Signal, at: int): ProposedOrder
  {
    ProposedOrder(s.trace, cfg.strategy, cfg.venue, s.market, s.side, s.quantity, s.price, s.quantity * s.price, at)
  }

  function Place(cfg: Config, market: string): string
  {
    RiskPositions.Join(RiskPositions.Account(cfg.venue, market, cfg.strategy))
  }

  function OrderPlace(o: ProposedOrder): string
  {
    RiskPositions.Join(RiskPositions.Account(o.venue, o.market, o.strategy))
  }

  function Held(markets: map<string, Position>, place: string): Position
  {
    if place in markets then markets[place] else FLAT
  }

  predicate PositionFits(p: Policy, b: Book, o: ProposedOrder)
  {
    Held(b.markets, OrderPlace(o)).notional + o.notional <= p.maxPosition
  }

  predicate DailyLossFits(p: Policy, dailyPnL: int) { dailyPnL >= -p.maxDailyLoss }

  predicate DrawdownFits(p: Policy, peak: int, current: int)
  {
    peak == 0 || (peak - current) as real / peak as real * 100.0 < p.maxDrawdownPct
  }

  predicate GateOpen(p: Policy, b: Book)
  {
    DailyLossFits(p, b.dailyPnL) && DrawdownFits(p, b.peakEquity, b.currentEquity)
  }

  predicate AllPassed(p: Policy, b: Book, o: ProposedOrder)
  {
    PositionFits(p, b, o) && GateOpen(p, b) && p.others(o, b)
  }

  /** Quantity and price of the fill; quantity 0 when there is none. */
  function SimulateFill(o: ProposedOrder, md: Option<MarketData>): (int, int)
  {
    if md.None? then (0, 0)
    else if o.side.Buy? && 0 < md.value.ask <= o.price then (o.quantity, md.value.ask)
    else if o.side.Sell? && md.value.bid > 0 && md.value.bid >= o.price then (o.quantity, md.value.bid)
    else (0, 0)
  }

  /** Division as the source does it, towards zero. */
  function Quotient(a: int, b: int): int
    requires b != 0
  {
    if a >= 0 then a / b else -((-a) / b)
  }

  function ComputePnl(held: Position, side: Side, quantity: int, price: int): int
  {
    if side.Sell? && held.contracts > 0 then
      var close := if quantity > held.contracts then held.contracts else quantity;
      close * (price - Quotient(held.notional, held.contracts))
    else if side.Buy? && held.contracts < 0 then
      var short := Wrap32(-(held.contracts as int));
      var close := if short < quantity then short else quantity;
      close * (Quotient(held.notional, short) - price)
    else 0
  }

  function Moved(held: Position, side: Side, quantity: int, price: int): Position
  {
    if side.Buy? then Position(Wrap32(held.contracts + quantity), held.notional + quantity * price)
    else Position(Wrap32(held.contracts - quantity), held.notional - quantity * price)
  }

  function RecordedKey(o: ProposedOrder): string
  {
    o.strategy + ":" + o.market + ":" + o.side.Text() + ":" + Decimal(o.quantity) + ":" + Decimal(o.price)
  }

  function Abs(x: int): int { if x < 0 then -x else x }

  /** updateState. */
  function Updated(b: Book, o: ProposedOrder, quantity: int, price: int): Book
  {
    var held := Moved(Held(b.markets, OrderPlace(o)), o.side, quantity, price);
    b.(markets := b.markets[OrderPlace(o) := held], totalExposure := Abs(held.notional),
       times := b.times + [o.proposedAt], notionals := b.notionals + [o.notional],
       keys := b.keys[RecordedKey(o) := o.proposedAt])
  }

  function Settled(b: Book, pnl: int, equity: int): Book
  {
    b.(dailyPnL := b.dailyPnL + pnl, currentEquity := equity,
       peakEquity := if equity > b.peakEquity then equity else b.peakEquity)
  }

  /** The outcome after one fill. */
  function Traded(r: Outcome, o: ProposedOrder, quantity: int, price: int): Outcome
  {
    var pnl := ComputePnl(Held(r.book.markets, OrderPlace(o)), o.side, quantity, price);
    Outcome(
      Settled(Updated(r.book, o, quantity, price), pnl, r.equity + pnl),
      r.trades + [Trade(o.market, o.side, quantity, price, pnl)],
      r.curve + [r.equity + pnl],
      r.equity + pnl)
  }

  function QuoteFor(tick: Tick, o: ProposedOrder): Option<MarketData>
  {
    var key := o.venue + ":" + o.market;
    if key in tick.data then Some(tick.data[key]) else None
  }

  /** The outcome after one signal. */
  function Attempt(cfg: Config, tick: Tick, r: Outcome, s: Signal): Outcome
  {
    var o := BuildOrder(cfg, s, tick.at);
    var fill := SimulateFill(o, QuoteFor(tick, o));
    if AllPassed(cfg.policy, r.book, o) && fill.0 != 0 then Traded(r, o, fill.0, fill.1) else r
  }

  // ---------- whole runs ----------

  function Fresh(cfg: Config): Outcome
  {
    Outcome(Book(map[], 0, 0, cfg.capital, cfg.capital, map[], 0, [], [], map[]), [], [cfg.capital], cfg.capital)
  }

  function Begun(r: Outcome, tick: Tick): Outcome
  {
    r.(book := r.book.(now := tick.at, data := r.book.data + tick.data))
  }

  function AfterSignals(cfg: Config, tick: Tick, r: Outcome, signals: seq<Signal>): Outcome
  {
    if signals == [] then r
    else Attempt(cfg, tick, AfterSignals(cfg, tick, r, signals[..|signals| - 1]), signals[|signals| - 1])
  }

  function AfterTurns(cfg: Config, r: Outcome, turns: seq<Turn>): Outcome
  {
    if turns == [] then r
    else
      var turn := turns[|turns| - 1];
      AfterSignals(cfg, turn.tick, Begun(AfterTurns(cfg, r, turns[..|turns| - 1]), turn.tick), turn.signals)
  }
}
