/** What the executors, the risk gate and the start-up recovery share: plans and trades. */
module Trading {
  import opened Domain

  datatype Ticker = Ticker(symbol: string)

  datatype OrderType = Limit | Stop | StopLoss | TakeProfit | Market

  /** Times in nanoseconds, durations in seconds. */
  datatype TradePlan = TradePlan(
    ticker: Ticker, side: Side, entryType: OrderType, entryPrice: real, stopPrice: real,
    tp1Price: real, tp2Price: Option<real>, tp1SizeRatio: real, sizeCoin: real, validUntil: int,
    noProgressTimeout: real, postEntryGrace: real, minFollowThrough: real)

  datatype TradeState = PendingEntry | Open | Exiting | Closed | Cancelling | SubmitUnknown | EmergencyClosing

  /** Order ids are 0 until the exchange has named the order. */
  datatype ActiveTrade = ActiveTrade(
    plan: TradePlan, entryId: int, stopId: int, clientId: string, tp1Id: int, tp2Id: int,
    state: TradeState, executedSize: real, avgPrice: real, avgPriceFix: real, tp1Filled: bool, openedAt: int)

  const NANOS_PER_SECOND := 1_000_000_000.0

  function Seconds(nanos: int): real {
    nanos as real / NANOS_PER_SECOND
  }

  /** Neither product below needs its factors unfolded where only sums are compared. */
  function Value(price: real, size: real): real {
    price * size
  }

  function Pnl(side: Side, entry: real, exit: real, size: real): real {
    if side == Buy then Value(exit - entry, size) else Value(entry - exit, size)
  }

  /**
   * Progress in basis points of the entry price, compared with a minimum. Floating-point division
   * by a zero entry price gives an infinity of the sign of the numerator.
   */
  predicate TooLittleFollowThrough(side: Side, entry: real, price: real, minimum: real) {
    if entry == 0.0 then (if side == Buy then price < 0.0 else price > 0.0)
    else (if side == Buy then price - entry else entry - price) / entry * 10000.0 < minimum
  }

  predicate NoProgress(side: Side, entry: real, price: real) {
    || (side == Buy && price <= entry * 1.0001)
    || (side == Sell && price >= entry * 0.9999)
  }
}
