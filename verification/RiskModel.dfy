/** The rules a plan must pass, and the sizes it may take. */
module RiskModel {
  import opened Domain
  import opened Increments
  import opened Trading

  datatype Reason =
    | NoReason | InternalError | KillSwitchActive | DailyLossLimitHit | TooManyPositions | DuplicatePosition
    | NotInUniverse | StopTooTight | StopTooWide | InvalidStopSide | PoorRewardRisk | SizeBelowMinimum
    | InsufficientMargin | TradeRateLimitHit | LossStreakCircuitBreaker | NewsBlackout | FundingBlackout
    | EntrySlippageExceeded

  datatype Decision = Decision(accepted: bool, reason: Reason, sizeCoin: real, riskUsd: real)

  /** A C++ `int`. */
  type Int32 = x: int | -0x8000_0000 <= x < 0x8000_0000

  datatype Config = Config(
    maxDailyLossPct: real, maxPositions: int, maxPerTicker: int, allowHedge: bool,
    minStopBps: real, maxStopBps: real, minRewardRisk: real,
    riskPct: real, positionPct: real, marginRatio: real, maxLeverage: int,
    tradesWindowMin: int, maxTradesPerWindow: Int32, maxTradeHistory: nat,
    lossWindowMin: int, maxLosses: int, cooloffMin: int, maxLossHistory: nat,
    maxSlippageBps: real)

  datatype Account = Account(
    equity: real, startingEquity: real, realizedToday: real, unrealized: real, freeBalance: real,
    markPrice: real, activePositions: int, positionsInTicker: nat, killSwitch: bool)

  datatype Blackout = Clear | News | Funding

  /**
   * What the surroundings answer during one call: membership of the universe, the volume scale
   * (inverse square root), the ticker's increments, and whether news or funding forbids trading.
   */
  datatype Surroundings = Surroundings(
    inPool: bool, boosted: bool, listed: bool, enabled: bool, inverseRootScale: real,
    meta: Option<TickerMeta>, blackout: Blackout)

  const MINUTE: int := 60 * 1_000_000_000

  /** A negative limit becomes an enormous one when it is cast to `size_t`. */
  function AsSize(n: Int32): nat {
    if n < 0 then n + 0x1_0000_0000_0000_0000 else n
  }

  // ---------------------------------------------------------------- R1 to R7

  function StopBps(plan: TradePlan): real
    requires plan.entryPrice > 0.0
  {
    Abs(plan.entryPrice - plan.stopPrice) / plan.entryPrice * 10000.0
  }

  predicate StopBehind(plan: TradePlan) {
    || (plan.side == Buy && plan.stopPrice < plan.entryPrice)
    || (plan.side == Sell && plan.stopPrice > plan.entryPrice)
  }

  predicate Ahead(plan: TradePlan, target: real) {
    || (plan.side == Buy && target > plan.entryPrice)
    || (plan.side == Sell && target < plan.entryPrice)
  }

  function Sane(plan: TradePlan, account: Account, cfg: Config): bool {
    account.startingEquity > 0.0 && plan.entryPrice > 0.0 && cfg.maxLeverage > 0
  }

  /** The first rule among input checks and R1 to R7 that the plan breaks. */
  function Screen(plan: TradePlan, account: Account, env: Surroundings, cfg: Config): (r: Reason)
    ensures r == NoReason ==> Sane(plan, account, cfg)
  {
    if !Sane(plan, account, cfg) then InternalError
    else if account.killSwitch then KillSwitchActive
    else if (account.realizedToday + account.unrealized) / account.startingEquity * 100.0 <= -cfg.maxDailyLossPct then DailyLossLimitHit
    else if account.activePositions >= cfg.maxPositions then TooManyPositions
    else if account.positionsInTicker > 0 && !cfg.allowHedge then DuplicatePosition
    else if account.positionsInTicker >= cfg.maxPerTicker then DuplicatePosition
    else if !env.inPool && !env.boosted && !env.listed then NotInUniverse
    else if !env.boosted && !env.listed && !env.enabled then NotInUniverse
    else if plan.stopPrice <= 0.0 then InvalidStopSide
    else if StopBps(plan) <= 0.0 then StopTooTight
    else if !StopBehind(plan) then InvalidStopSide
    else if StopBps(plan) < cfg.minStopBps then StopTooTight
    else if StopBps(plan) > Min(cfg.maxStopBps * env.inverseRootScale, 100.0) then StopTooWide
    else if plan.tp1Price <= 0.0 then PoorRewardRisk
    else if !Ahead(plan, plan.tp1Price) then PoorRewardRisk
    else if Abs(plan.tp1Price - plan.entryPrice) < cfg.minRewardRisk * Abs(plan.entryPrice - plan.stopPrice) then PoorRewardRisk
    else if plan.tp2Price.Some? && plan.tp2Price.value > 0.0 && !Ahead(plan, plan.tp2Price.value) then PoorRewardRisk
    else NoReason
  }

  // ---------------------------------------------------------------- R8 and R9

  function MetaOf(env: Surroundings): TickerMeta {
    if env.meta.Some? then env.meta.value else DEFAULT_META
  }

  function RiskTarget(account: Account, cfg: Config): real {
    account.equity * cfg.riskPct / 100.0
  }

  function ValueCap(account: Account, cfg: Config): real {
    account.equity * cfg.positionPct / 100.0
  }

  function RawCoins(target: real, plan: TradePlan): real
    requires plan.entryPrice > 0.0 && plan.stopPrice != plan.entryPrice
  {
    StopDistance(plan);
    target / (plan.entryPrice * StopBps(plan) / 10000.0)
  }

  /** The size by risk, rounded down to whole increments where the ticker has them. */
  function SizeByRisk(target: real, plan: TradePlan, meta: TickerMeta): real
    requires plan.entryPrice > 0.0 && plan.stopPrice != plan.entryPrice
  {
    var raw := RawCoins(target, plan);
    if Stepped(meta) then Whole(raw, meta.sizeIncrement) else raw
  }

  function CappedSize(size: real, cap: real, plan: TradePlan, meta: TickerMeta): real
    requires plan.entryPrice > 0.0
  {
    if size * plan.entryPrice > cap then
      if meta.sizeIncrement > 0.0 then Whole(cap / plan.entryPrice, meta.sizeIncrement) else cap / plan.entryPrice
    else size
  }

  /** Stop distance in basis points is the distance in price again. */
  lemma {:induction false} StopDistance(plan: TradePlan)
    requires plan.entryPrice > 0.0
    ensures plan.entryPrice * StopBps(plan) / 10000.0 == Abs(plan.entryPrice - plan.stopPrice)
  {
  }

  function Sized(plan: TradePlan, account: Account, env: Surroundings, cfg: Config): (Reason, real, real)
    requires Screen(plan, account, env, cfg) == NoReason
  {
    var meta := MetaOf(env);
    var size := SizeByRisk(RiskTarget(account, cfg), plan, meta);
    if Stepped(meta) && size < meta.minSize then (SizeBelowMinimum, size, 0.0)
    else
      var capped := CappedSize(size, ValueCap(account, cfg), plan, meta);
      var risk := capped * plan.entryPrice * StopBps(plan) / 10000.0;
      if capped * plan.entryPrice / cfg.maxLeverage as real > account.freeBalance * cfg.marginRatio then (InsufficientMargin, capped, risk)
      else (NoReason, capped, risk)
  }

  lemma {:induction false} RawSize(target: real, plan: TradePlan)
    requires plan.entryPrice > 0.0 && plan.stopPrice != plan.entryPrice
    ensures Abs(plan.entryPrice - plan.stopPrice) > 0.0
    ensures RawCoins(target, plan) * Abs(plan.entryPrice - plan.stopPrice) == target
  {
  }

  /** Sizing by risk overshoots the risk target by at most the rounding slack, and whole increments stay whole. */
  lemma {:induction false} SizeByRiskBounds(target: real, plan: TradePlan, meta: TickerMeta)
    requires plan.entryPrice > 0.0 && plan.stopPrice != plan.entryPrice
    ensures var d, size := Abs(plan.entryPrice - plan.stopPrice), SizeByRisk(target, plan, meta);
      && size * d <= target + Slack(meta) * d
      && (Stepped(meta) ==> WholeSteps(size, meta.sizeIncrement) && size * d > target - meta.sizeIncrement * d)
      && (!Stepped(meta) ==> size * d == target)
  {
    hide RawCoins, Whole, WholeSteps, Abs, Slack;
    var d, raw := Abs(plan.entryPrice - plan.stopPrice), RawCoins(target, plan);
    RawSize(target, plan);
    if Stepped(meta) {
      var inc := meta.sizeIncrement;
      SlackOf(meta);
      WholeBounds(raw, inc);
      Scale(Whole(raw, inc), raw + 0.000000001 * inc, d);
      Spread(raw, 0.000000001 * inc, d);
      ScaleStrictly(raw - inc, Whole(raw, inc), d);
      SpreadLess(raw, inc, d);
      assert (raw - inc) * d == target - inc * d;
      assert SizeByRisk(target, plan, meta) * d > target - inc * d;
    } else {
      SlackNonNegative(meta, d);
    }
  }

  /** The cap holds up to the slack, and lowers the size; without rounding beforehand it may raise it by the slack. */
  lemma {:induction false} CapBounds(size: real, cap: real, plan: TradePlan, meta: TickerMeta)
    requires plan.entryPrice > 0.0
    ensures var capped := CappedSize(size, cap, plan, meta);
      && capped * plan.entryPrice <= cap + Slack(meta) * plan.entryPrice
      && capped <= size + Slack(meta)
      && (Stepped(meta) && WholeSteps(size, meta.sizeIncrement) ==> capped <= size && WholeSteps(capped, meta.sizeIncrement))
      && (meta.sizeIncrement <= 0.0 ==> capped <= size)
  {
    hide Whole;
    var e, inc := plan.entryPrice, meta.sizeIncrement;
    SlackNonNegative(meta, e);
    SlackNonNegative(meta, 1.0);
    if size * e > cap {
      var x := cap / e;
      Quotient(cap, e);
      QuotientBelow(cap, size, e);
      if inc > 0.0 {
        WholeBounds(x, inc);
        Scale(Whole(x, inc), x + 0.000000001 * inc, e);
        Spread(x, 0.000000001 * inc, e);
        if WholeSteps(size, inc) {
          var k :| size == Steps(k, inc);
          WholeStaysBelow(x, k, inc);
        }
      }
    }
  }

  lemma {:induction false} RiskIsSizeTimesDistance(size: real, plan: TradePlan)
    requires plan.entryPrice > 0.0
    ensures size * plan.entryPrice * StopBps(plan) / 10000.0 == size * Abs(plan.entryPrice - plan.stopPrice)
  {
  }

  lemma {:induction false} AtMostOnePercent(entry: real, bps: real, distance: real)
    requires entry > 0.0 && bps <= 100.0 && entry * bps / 10000.0 == distance
    ensures distance * 100.0 <= entry
  {
  }

  /** What a screened plan looks like. */
  lemma {:induction false} ScreenedPlan(plan: TradePlan, account: Account, env: Surroundings, cfg: Config)
    requires Screen(plan, account, env, cfg) == NoReason
    ensures plan.side == Buy || plan.side == Sell
    ensures plan.side == Buy ==> 0.0 < plan.stopPrice < plan.entryPrice < plan.tp1Price
    ensures plan.side == Sell ==> 0.0 < plan.tp1Price < plan.entryPrice < plan.stopPrice
    ensures Abs(plan.entryPrice - plan.stopPrice) * 100.0 <= plan.entryPrice
  {
    StopDistance(plan);
    AtMostOnePercent(plan.entryPrice, StopBps(plan), Abs(plan.entryPrice - plan.stopPrice));
  }

  /**
   * Every plan that passes sizing: risk is size times stop distance, within the risk target; the
   * value is within the cap (each up to a billionth of an increment); the size is whole; the
   * margin is within the safety ratio.
   */
  lemma {:induction false} SizingBounds(plan: TradePlan, account: Account, env: Surroundings, cfg: Config)
    requires Screen(plan, account, env, cfg) == NoReason && Sized(plan, account, env, cfg).0 == NoReason
    ensures var (_, size, risk) := Sized(plan, account, env, cfg); var meta, d := MetaOf(env), Abs(plan.entryPrice - plan.stopPrice);
      && risk == size * d
      && risk <= RiskTarget(account, cfg) + Slack(meta) * d
      && size * plan.entryPrice <= ValueCap(account, cfg) + Slack(meta) * plan.entryPrice
      && (Stepped(meta) ==> WholeSteps(size, meta.sizeIncrement) && size <= SizeByRisk(RiskTarget(account, cfg), plan, meta))
      && size * plan.entryPrice / cfg.maxLeverage as real <= account.freeBalance * cfg.marginRatio
  {
    hide Screen, Sized, SizeByRisk, CappedSize, StopBps, Whole, WholeSteps, RiskTarget, ValueCap, Slack, Abs, MetaOf;
    var meta, d := MetaOf(env), Abs(plan.entryPrice - plan.stopPrice);
    var target, cap := RiskTarget(account, cfg), ValueCap(account, cfg);
    SizedIs(plan, account, env, cfg);
    var size := SizeByRisk(target, plan, meta);
    var capped := CappedSize(size, cap, plan, meta);
    SizeByRiskBounds(target, plan, meta);
    CapBounds(size, cap, plan, meta);
    RiskIsSizeTimesDistance(capped, plan);
    if Stepped(meta) {
      Scale(capped, size, d);
    } else {
      Scale(capped, size + Slack(meta), d);
      Spread(size, Slack(meta), d);
    }
  }

  lemma {:induction false} SizedIs(plan: TradePlan, account: Account, env: Surroundings, cfg: Config)
    requires Screen(plan, account, env, cfg) == NoReason && Sized(plan, account, env, cfg).0 == NoReason
    ensures cfg.maxLeverage > 0 && plan.entryPrice > 0.0 && plan.stopPrice != plan.entryPrice && Abs(plan.entryPrice - plan.stopPrice) > 0.0
    ensures var (_, size, risk) := Sized(plan, account, env, cfg);
      && size == CappedSize(SizeByRisk(RiskTarget(account, cfg), plan, MetaOf(env)), ValueCap(account, cfg), plan, MetaOf(env))
      && risk == size * plan.entryPrice * StopBps(plan) / 10000.0
      && size * plan.entryPrice / cfg.maxLeverage as real <= account.freeBalance * cfg.marginRatio
  {
    hide SizeByRisk, CappedSize, RiskTarget, ValueCap, StopBps;
    ScreenedPlan(plan, account, env, cfg);
  }

  ghost predicate CapNeverRaises(meta: TickerMeta) {
    forall target, cap, plan: TradePlan | plan.entryPrice > 0.0 && plan.stopPrice != plan.entryPrice ::
      CappedSize(SizeByRisk(target, plan, meta), cap, plan, meta) <= SizeByRisk(target, plan, meta)
  }

  /** The cap can raise a size exactly for tickers with a size increment but no price increment. */
  lemma {:induction false} CapNeverRaisesIff(meta: TickerMeta)
    ensures CapNeverRaises(meta) <==> meta.priceIncrement > 0.0 || meta.sizeIncrement <= 0.0
  {
    hide SizeByRisk, CappedSize, Whole, WholeSteps, StopBps;
    if meta.priceIncrement > 0.0 || meta.sizeIncrement <= 0.0 {
      forall target, cap, plan: TradePlan | plan.entryPrice > 0.0 && plan.stopPrice != plan.entryPrice
        ensures CappedSize(SizeByRisk(target, plan, meta), cap, plan, meta) <= SizeByRisk(target, plan, meta)
      {
        SizeByRiskBounds(target, plan, meta);
        CapBounds(SizeByRisk(target, plan, meta), cap, plan, meta);
      }
    } else {
      RaisedByCap(meta);
    }
  }

  /** Entry 1, stop 50 basis points away; a hair below one increment by risk, a hair less by the cap. */
  lemma {:induction false} RaisedByCap(meta: TickerMeta)
    requires meta.priceIncrement <= 0.0 < meta.sizeIncrement
    ensures !CapNeverRaises(meta)
  {
    var inc := meta.sizeIncrement;
    var plan := TradePlan(Ticker("A"), Buy, Limit, 1.0, 0.995, 1.01, None, 0.0, 0.0, 0, 0.0, 0.0, 0.0);
    var size, cap := 0.9999999999 * inc, 0.9999999998 * inc;
    var target := size * 0.005;
    StopDistance(plan);
    assert SizeByRisk(target, plan, meta) == size by {
      assert RawCoins(target, plan) == target / 0.005;
    }
    var x := cap / 1.0;
    assert x / inc == 0.9999999998 by {
      Quotient(x, inc);
      SameQuotient(x / inc, 0.9999999998, inc);
    }
    assert Whole(x, inc) == Steps(1, inc) == inc;
    assert CappedSize(size, cap, plan, meta) == inc;
  }

  lemma {:induction false} SameQuotient(a: real, b: real, inc: real)
    requires inc != 0.0 && a * inc == b * inc
    ensures a == b
  {
  }
}
