/** Order intents: the rows of the append-only ledger. */
module Intents {
  import opened Orders

  type IntentId = nat

  datatype IntentStatus = IPending | IOpen | IFilled | ICancelled | IRejected | IExpired
  {
    predicate IsTerminal() { IFilled? || ICancelled? || IRejected? || IExpired? }
    predicate IsOutstanding() { IPending? || IOpen? }
  }

  datatype MarketSide = MarketSide(market: string, side: Side)

  /** One ledger row. Rows are kept in version order; a row's position stands for its version and its id. */
  datatype OrderIntent = OrderIntent(order: ProposedOrder, hmac: seq<int>, status: IntentStatus)
  {
    function Key(): MarketSide { MarketSide(order.market, order.side) }
  }

  /** OrderIntent.Validate. Unlike ProposedOrder.Validate it does not recompute the notional. */
  predicate ValidIntent(i: OrderIntent)
  {
    WellFormed(i.order) && i.hmac != []
  }

  function NewIntentFromApproval(order: ProposedOrder, hmac: seq<int>): OrderIntent
  {
    OrderIntent(order, hmac, IPending)
  }
}
