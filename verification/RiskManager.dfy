/** The risk gate: screening, sizing, the trade-rate window and the loss-streak breaker. */
module RiskManager {
  import opened Domain
  import opened Trading
  import opened RiskModel

  datatype Outcome = Outcome(ts: int, loss: bool)

  // ---------------------------------------------------------------- histories

  function Newest<T>(h: seq<T>, cap: nat): (r: seq<T>)
    ensures |r| <= cap
  {
    if |h| > cap then h[|h| - cap..] else h
  }

  /** How many entries at the front are older than the span. */
  function Stale(h: seq<int>, now: int, span: int): (k: nat)
    ensures k <= |h| && (forall i :: 0 <= i < k ==> now - h[i] > span) && (k < |h| ==> now - h[k] <= span)
    decreases |h|
  {
    if h == [] || now - h[0] <= span then 0 else 1 + Stale(h[1..], now, span)
  }

  function Times(h: seq<Outcome>): (r: seq<int>)
    ensures |r| == |h| && forall i :: 0 <= i < |h| ==> r[i] == h[i].ts
  {
    seq(|h|, i requires 0 <= i < |h| => h[i].ts)
  }

  /** The history a call looks at: the newest entries, without those too old at the front. */
  function Kept(h: seq<int>, now: int, cap: nat, span: int): seq<int> {
    var newest := Newest(h, cap);
    newest[Stale(newest, now, span)..]
  }

  function KeptOutcomes(h: seq<Outcome>, now: int, cap: nat, span: int): seq<Outcome> {
    var newest := Newest(h, cap);
    newest[Stale(Times(newest), now, span)..]
  }

  /** Losses at the end of the first `n` outcomes. */
  function Streak(h: seq<Outcome>, n: nat): (k: nat)
    requires n <= |h|
    ensures k <= n && (forall i :: n - k <= i < n ==> h[i].loss) && (k < n ==> !h[n - k - 1].loss)
  {
    if n == 0 || !h[n - 1].loss then 0 else 1 + Streak(h, n - 1)
  }

  lemma {:induction false} StaleIs(h: seq<int>, now: int, span: int, k: nat)
    requires k <= |h| && (forall i :: 0 <= i < k ==> now - h[i] > span) && (k < |h| ==> now - h[k] <= span)
    ensures Stale(h, now, span) == k
  {
  }

  // ---------------------------------------------------------------- what a run guarantees

  ghost predicate InOrder(times: seq<int>) {
    forall i, j :: 0 <= i <= j < |times| ==> times[i] <= times[j]
  }

  /** More than `span` lies between an acceptance and the one `limit` places later. */
  ghost predicate Spaced(times: seq<int>, limit: nat, span: int) {
    forall i, j :: 0 <= i && i + limit <= j < |times| ==> times[j] - times[i] > span
  }

  /** The history holds the acceptances from `k` on; those before are too old for good. */
  ghost predicate RateKept(times: seq<int>, h: seq<int>, k: nat, clock: Option<int>, limit: nat, span: int) {
    && k <= |times| && h == times[k..] && |h| <= limit
    && InOrder(times) && Spaced(times, limit, span)
    && (forall i :: 0 <= i < |times| ==> clock.Some? && times[i] <= clock.value)
    && (forall i :: 0 <= i < k ==> clock.Some? && clock.value - times[i] > span)
  }

  lemma {:induction false} RateStays(times: seq<int>, h: seq<int>, k: nat, clock: Option<int>, now: int, cap: nat,
      limit: nat, span: int)
    returns (k': nat)
    requires RateKept(times, h, k, clock, limit, span) && limit <= cap && (clock == None || clock.value <= now)
    ensures RateKept(times, Kept(h, now, cap, span), k', Some(now), limit, span)
  {
    var s := Stale(h, now, span);
    k' := k + s;
    forall i | 0 <= i < k' ensures now - times[i] > span {
      if i >= k {
        assert times[i] == h[i - k];
      }
    }
  }

  lemma {:induction false} RateWaits(times: seq<int>, h: seq<int>, k: nat, clock: Option<int>, now: int, limit: nat, span: int)
    requires RateKept(times, h, k, clock, limit, span) && (clock == None || clock.value <= now)
    ensures RateKept(times, h, k, Some(now), limit, span)
  {
  }

  lemma {:induction false} RateGrows(times: seq<int>, h: seq<int>, k: nat, now: int, later: int, limit: nat, span: int)
    requires RateKept(times, h, k, Some(now), limit, span) && |h| < limit && now <= later
    ensures RateKept(times + [later], h + [later], k, Some(later), limit, span)
  {
  }

  /** No closed interval as long as the window holds more acceptances than the limit. */
  lemma {:induction false} WindowHoldsAtMost(times: seq<int>, limit: nat, span: int, i: nat, j: nat, from: int)
    requires Spaced(times, limit, span) && i <= j < |times|
    requires from <= times[i] && times[j] <= from + span
    ensures j - i + 1 <= limit
  {
  }

  /** Every recorded trip is still remembered, or its cool-off is over for good. */
  ghost predicate TripsKept(trips: seq<int>, streakAt: int, clock: Option<int>, recorded: Option<int>, cooloff: int) {
    && (forall i :: 0 <= i < |trips| ==> TripKept(trips[i], streakAt, clock, recorded, cooloff))
    && (streakAt != 0 ==> recorded.Some? && streakAt <= recorded.value)
  }

  ghost predicate TripKept(trip: int, streakAt: int, clock: Option<int>, recorded: Option<int>, cooloff: int) {
    && recorded.Some? && trip <= recorded.value
    && ((streakAt != 0 && trip <= streakAt) || (clock.Some? && trip + cooloff <= clock.value))
  }

  lemma {:induction false} TripsWait(trips: seq<int>, streakAt: int, clock: Option<int>, now: int, recorded: Option<int>,
      cooloff: int)
    requires TripsKept(trips, streakAt, clock, recorded, cooloff) && (clock == None || clock.value <= now)
    ensures TripsKept(trips, streakAt, Some(now), recorded, cooloff)
  {
  }

  /** When the breaker is not cooling, every trip's cool-off is over. */
  lemma {:induction false} TripsExpire(trips: seq<int>, streakAt: int, now: int, recorded: Option<int>, cooloff: int)
    requires TripsKept(trips, streakAt, Some(now), recorded, cooloff)
    requires streakAt == 0 || now - streakAt >= cooloff
    ensures forall i :: 0 <= i < |trips| ==> trips[i] + cooloff <= now
    ensures TripsKept(trips, 0, Some(now), recorded, cooloff)
  {
  }

  lemma {:induction false} TripsRecord(trips: seq<int>, streakAt: int, clock: Option<int>, recorded: Option<int>,
      cooloff: int, ts: int)
    requires TripsKept(trips, streakAt, clock, recorded, cooloff)
    requires recorded == None || recorded.value <= ts
    ensures TripsKept(trips, streakAt, clock, Some(ts), cooloff)
    ensures ts != 0 ==> TripsKept(trips + [ts], ts, clock, Some(ts), cooloff)
  {
  }

  /** What is kept starts at `c`: it fits the cap, starts inside the window, and starts no later than it has to. */
  ghost predicate StartsAt(h: seq<Outcome>, now: int, cap: nat, span: int, c: nat) {
    && c <= |h| && |h| - c <= cap && (c < |h| ==> now - h[c].ts <= span)
    && forall i :: 0 <= i < c && |h| - cap <= i ==> now - h[i].ts > span
  }

  lemma {:induction false} StartsOnce(h: seq<Outcome>, now: int, cap: nat, span: int, c: nat, d: nat)
    requires StartsAt(h, now, cap, span, c) && StartsAt(h, now, cap, span, d)
    ensures c == d
  {
  }

  lemma {:induction false} KeptFrom(h: seq<Outcome>, now: int, cap: nat, span: int) returns (c: nat)
    ensures c <= |h| && StartsAt(h, now, cap, span, c) && KeptOutcomes(h, now, cap, span) == h[c..]
  {
    hide Stale, Times, StartsAt;
    var newest := Newest(h, cap);
    var s, d := Stale(Times(newest), now, span), |h| - |newest|;
    c := d + s;
    assert newest == h[d..];
    assert newest[s..] == h[c..];
    StaleStarts(h, now, cap, span, d, s);
  }

  lemma {:induction false} StaleStarts(h: seq<Outcome>, now: int, cap: nat, span: int, d: nat, s: nat)
    requires d <= |h| && s == Stale(Times(h[d..]), now, span) && |h| - d <= cap && (d == 0 || |h| - d == cap)
    ensures StartsAt(h, now, cap, span, d + s)
  {
    hide Stale, Times;
    assert forall i :: d <= i < |h| ==> Times(h[d..])[i - d] == h[i].ts;
  }

  /** Forgetting early loses nothing: what was kept before, and the new outcome, keep what keeping all of them would. */
  lemma {:induction false} KeptGoesOn(h: seq<Outcome>, before: int, o: Outcome, cap: nat, span: int)
    requires before <= o.ts || h == []
    ensures KeptOutcomes(KeptOutcomes(h, before, cap, span) + [o], o.ts, cap, span) == KeptOutcomes(h + [o], o.ts, cap, span)
  {
    hide KeptOutcomes, StartsAt;
    var c := KeptFrom(h, before, cap, span);
    var more, all := h[c..] + [o], h + [o];
    var d := KeptFrom(more, o.ts, cap, span);
    var e := KeptFrom(all, o.ts, cap, span);
    StartsFurther(h, before, o, cap, span, c, d);
    StartsOnce(all, o.ts, cap, span, c + d, e);
    assert more == all[c..];
    assert more[d..] == all[e..];
  }

  lemma {:induction false} StartsFurther(h: seq<Outcome>, before: int, o: Outcome, cap: nat, span: int, c: nat, d: nat)
    requires before <= o.ts || h == []
    requires StartsAt(h, before, cap, span, c) && StartsAt(h[c..] + [o], o.ts, cap, span, d)
    ensures c <= |h| && c + d <= |h + [o]| && StartsAt(h + [o], o.ts, cap, span, c + d)
  {
    var more, all := h[c..] + [o], h + [o];
    assert forall i :: 0 <= i < |more| ==> more[i] == all[c + i];
    forall i | 0 <= i < c + d && |all| - cap <= i ensures o.ts - all[i].ts > span {
      if i >= c {
        assert more[i - c] == all[i];
      } else {
        assert all[i] == h[i];
      }
    }
  }

  /** The last `limit` outcomes are losses inside the window. */
  ghost predicate LossRun(h: seq<Outcome>, now: int, span: int, limit: nat) {
    limit <= |h| && forall i :: |h| - limit <= i < |h| ==> h[i].loss && now - h[i].ts <= span
  }

  lemma {:induction false} RunSince(h: seq<Outcome>, from: nat, now: int, span: int, limit: nat)
    requires from <= |h|
    ensures LossRun(h[from..], now, span, limit) <==> LossRun(h, now, span, limit) && from + limit <= |h|
  {
    assert forall i :: from <= i < |h| ==> h[from..][i - from] == h[i];
  }

  /**
   * A streak trips the breaker exactly when the last `limit` outcomes are losses, fit the history
   * cap and are inside the window (for outcomes recorded in time order).
   */
  lemma {:induction false} TripsIff(h: seq<Outcome>, now: int, cap: nat, span: int, limit: nat)
    requires InOrder(Times(h))
    ensures var kept := KeptOutcomes(h, now, cap, span);
      Streak(kept, |kept|) >= limit <==> LossRun(h, now, span, limit) && limit <= cap
  {
    hide KeptOutcomes, Streak;
    var c := KeptFrom(h, now, cap, span);
    var kept := h[c..];
    var n := Streak(kept, |kept|);
    assert forall i :: c <= i < |h| ==> h[i] == kept[i - c];
    if limit <= n {
      forall i | |h| - limit <= i < |h| ensures h[i].loss && now - h[i].ts <= span {
        assert kept[i - c].loss && Times(h)[c] <= Times(h)[i];
      }
    } else if limit <= |h| && limit <= cap {
      var i := if c > |h| - limit then |h| - limit else c + |kept| - n - 1;
      assert |h| - limit <= i < |h| && !(h[i].loss && now - h[i].ts <= span);
    }
  }

  /** The loss history is what is kept of the outcomes recorded since it was last cleared. */
  ghost predicate LossesKept(outcomes: seq<Outcome>, cleared: nat, losses: seq<Outcome>, recorded: Option<int>, cap: nat, span: int) {
    && cleared <= |outcomes| && InOrder(Times(outcomes))
    && recorded == (if outcomes == [] then None else Some(outcomes[|outcomes| - 1].ts))
    && losses == if recorded == None then [] else KeptOutcomes(outcomes[cleared..], recorded.value, cap, span)
  }

  lemma {:induction false} LossesRecord(outcomes: seq<Outcome>, cleared: nat, losses: seq<Outcome>, recorded: Option<int>, o: Outcome,
      cap: nat, span: int)
    requires LossesKept(outcomes, cleared, losses, recorded, cap, span) && (recorded == None || recorded.value <= o.ts)
    ensures LossesKept(outcomes + [o], cleared, KeptOutcomes(losses + [o], o.ts, cap, span), Some(o.ts), cap, span)
    ensures KeptOutcomes(losses + [o], o.ts, cap, span) == KeptOutcomes((outcomes + [o])[cleared..], o.ts, cap, span)
    ensures InOrder(Times((outcomes + [o])[cleared..]))
  {
    hide KeptOutcomes;
    KeptNothing(cap, span);
    KeptGoesOn(outcomes[cleared..], if recorded.Some? then recorded.value else 0, o, cap, span);
    assert outcomes[cleared..] + [o] == (outcomes + [o])[cleared..];
    assert recorded == None ==> outcomes[cleared..] == [];
  }

  lemma {:induction false} LossesClear(outcomes: seq<Outcome>, cleared: nat, losses: seq<Outcome>, recorded: Option<int>, cap: nat, span: int)
    requires LossesKept(outcomes, cleared, losses, recorded, cap, span)
    ensures LossesKept(outcomes, |outcomes|, [], recorded, cap, span)
  {
    hide KeptOutcomes;
    KeptNothing(cap, span);
    assert outcomes[|outcomes|..] == [];
  }

  lemma {:induction false} KeptNothing(cap: nat, span: int)
    ensures forall now :: KeptOutcomes([], now, cap, span) == []
  {
  }

  // ---------------------------------------------------------------- the gate

  predicate Slips(plan: TradePlan, account: Account, cfg: Config) {
    account.markPrice > 0.0 && Abs(account.markPrice - plan.entryPrice) / account.markPrice * 10000.0 > cfg.maxSlippageBps
  }

  /** Blackouts and slippage, the rules after the breaker. */
  function LateRules(plan: TradePlan, account: Account, env: Surroundings, cfg: Config): (r: Reason)
    ensures r in {NoReason, NewsBlackout, FundingBlackout, EntrySlippageExceeded}
  {
    match env.blackout
    case News => NewsBlackout
    case Funding => FundingBlackout
    case Clear => if Slips(plan, account, cfg) then EntrySlippageExceeded else NoReason
  }

  /** Everything before the histories are looked at. */
  function EarlyRules(plan: TradePlan, account: Account, env: Surroundings, cfg: Config): Reason {
    if Screen(plan, account, env, cfg) != NoReason then Screen(plan, account, env, cfg) else Sized(plan, account, env, cfg).0
  }

  function Pruned(trades: seq<int>, now: int, cfg: Config): seq<int> {
    Kept(trades, now, cfg.maxTradeHistory, cfg.tradesWindowMin * MINUTE)
  }

  function Outlook(plan: TradePlan, account: Account, env: Surroundings, cfg: Config, kept: seq<int>, streakAt: int,
      now: int): Reason {
    if |kept| >= AsSize(cfg.maxTradesPerWindow) then TradeRateLimitHit
    else if streakAt != 0 && now - streakAt < cfg.cooloffMin * MINUTE then LossStreakCircuitBreaker
    else LateRules(plan, account, env, cfg)
  }

  function History(kept: seq<int>, reason: Reason, later: int): seq<int> {
    if reason == NoReason then kept + [later] else kept
  }

  /** A limit below zero is met by every run, as zero is. */
  function RunLength(cfg: Config): nat {
    if cfg.maxLosses < 0 then 0 else cfg.maxLosses
  }

  /** The last outcomes, up to the limit, are losses inside the window, none from before the last clear, and fit the history. */
  ghost predicate RunCounts(outcomes: seq<Outcome>, cleared: nat, now: int, cfg: Config) {
    && LossRun(outcomes, now, cfg.lossWindowMin * MINUTE, RunLength(cfg))
    && cleared + RunLength(cfg) <= |outcomes| && RunLength(cfg) <= cfg.maxLossHistory
  }

  /** Once a cool-off is over, the losses that caused it are forgotten. */
  predicate Clears(reason: Reason, streakAt: int) {
    reason != TradeRateLimitHit && reason != LossStreakCircuitBreaker && streakAt != 0
  }

  class RiskManager {
    const cfg: Config
    var trades: seq<int>
    var losses: seq<Outcome>
    /** When the breaker tripped; 0 while it has not. */
    var streakAt: int

    /** Every acceptance, the acceptances no longer in the history, every trip of the breaker. */
    ghost var accepted: seq<int>
    ghost var forgotten: nat
    ghost var trips: seq<int>
    /** Every outcome, and how many there were when the losses were last cleared. */
    ghost var outcomes: seq<Outcome>
    ghost var cleared: nat
    /** Last times seen, and whether they never went back and no trip was at the unset time 0. */
    ghost var clock: Option<int>
    ghost var recorded: Option<int>
    ghost var orderly: bool

    ghost predicate Valid()
      reads this
    {
      orderly ==> RateValid() && TripsKept(trips, streakAt, clock, recorded, cfg.cooloffMin * MINUTE) && LossesValid()
    }

    /** Only a history cap at least as large as the limit makes the limit effective. */
    ghost predicate RateValid()
      reads this
    {
      AsSize(cfg.maxTradesPerWindow) <= cfg.maxTradeHistory ==>
        RateKept(accepted, trades, forgotten, clock, AsSize(cfg.maxTradesPerWindow), cfg.tradesWindowMin * MINUTE)
    }

    ghost predicate LossesValid()
      reads this
    {
      LossesKept(outcomes, cleared, losses, recorded, cfg.maxLossHistory, cfg.lossWindowMin * MINUTE)
    }

    constructor (cfg: Config)
      ensures Valid() && orderly && this.cfg == cfg && accepted == [] && trips == [] && outcomes == [] && cleared == 0
      ensures trades == [] && losses == [] && streakAt == 0 && clock == None && recorded == None
    {
      this.cfg := cfg;
      trades, losses, streakAt := [], [], 0;
      accepted, forgotten, trips, outcomes, cleared, clock, recorded, orderly := [], 0, [], [], 0, None, None, true;
    }

    ghost method ReadClock(now: int)
      requires Valid()
      modifies this`clock, this`orderly
      ensures Valid() && clock == Some(now)
      ensures orderly <==> old(orderly) && (old(clock) == None || old(clock).value <= now)
    {
      hide RateKept, TripsKept, LossesKept, AsSize;
      clock, orderly := Some(now), orderly && (clock == None || clock.value <= now);
      if orderly {
        if AsSize(cfg.maxTradesPerWindow) <= cfg.maxTradeHistory {
          RateWaits(accepted, trades, forgotten, old(clock), now, AsSize(cfg.maxTradesPerWindow), cfg.tradesWindowMin * MINUTE);
        }
        TripsWait(trips, streakAt, old(clock), now, recorded, cfg.cooloffMin * MINUTE);
      }
    }

    /**
     * Judges a plan; `now` is read at the start, `later` when the plan is accepted. On an orderly
     * run nothing is accepted during the cool-off of any recorded trip, and `Valid` keeps
     * acceptances spaced as `WindowHoldsAtMost` needs.
     */
    method Evaluate(plan: TradePlan, account: Account, env: Surroundings, now: int, later: int) returns (d: Decision)
      requires Valid()
      modifies this
      ensures Valid() && trips == old(trips) && recorded == old(recorded) && outcomes == old(outcomes)
      ensures orderly <==> old(orderly) && (old(clock) == None || old(clock).value <= now) && (d.accepted ==> now <= later)
      ensures clock == Some(if d.accepted then later else now)
      ensures accepted == if d.accepted then old(accepted) + [later] else old(accepted)
      ensures d.accepted <==> d.reason == NoReason
      ensures d.accepted ==>
        Screen(plan, account, env, cfg) == NoReason && (d.reason, d.sizeCoin, d.riskUsd) == Sized(plan, account, env, cfg)
      ensures d.accepted && orderly ==> forall i :: 0 <= i < |trips| ==> trips[i] + cfg.cooloffMin * MINUTE <= now
      ensures var early := EarlyRules(plan, account, env, cfg);
        var reason := if early != NoReason then early else Outlook(plan, account, env, cfg, Pruned(old(trades), now, cfg), old(streakAt), now);
        var clears := early == NoReason && Clears(reason, old(streakAt));
        && d.reason == reason
        && trades == (if early != NoReason then old(trades) else History(Pruned(old(trades), now, cfg), reason, later))
        && losses == (if clears then [] else old(losses)) && streakAt == (if clears then 0 else old(streakAt))
        && cleared == (if clears then |outcomes| else old(cleared))
    {
      hide Screen, Sized, Pruned, Outlook, RateKept, TripsKept, LossesKept, InOrder, AsSize, History, Clears;
      ReadClock(now);
      d := Decision(false, Screen(plan, account, env, cfg), 0.0, 0.0);
      if d.reason != NoReason {
        return;
      }
      var (reason, size, risk) := Sized(plan, account, env, cfg);
      d := Decision(false, reason, size, risk);
      if reason != NoReason {
        return;
      }
      reason := Admit(plan, account, env, now, later);
      d := d.(reason := reason, accepted := reason == NoReason);
    }

    /** R10 on: the rules that look at the histories, and those after them. */
    method Admit(plan: TradePlan, account: Account, env: Surroundings, now: int, later: int) returns (reason: Reason)
      requires Valid() && clock == Some(now)
      modifies this
      ensures Valid() && trips == old(trips) && recorded == old(recorded) && outcomes == old(outcomes)
      ensures orderly <==> old(orderly) && (reason == NoReason ==> now <= later)
      ensures clock == Some(if reason == NoReason then later else now)
      ensures accepted == if reason == NoReason then old(accepted) + [later] else old(accepted)
      ensures reason == NoReason && orderly ==> forall i :: 0 <= i < |trips| ==> trips[i] + cfg.cooloffMin * MINUTE <= now
      ensures reason == Outlook(plan, account, env, cfg, Pruned(old(trades), now, cfg), old(streakAt), now)
      ensures trades == History(Pruned(old(trades), now, cfg), reason, later)
      ensures losses == (if Clears(reason, old(streakAt)) then [] else old(losses))
      ensures streakAt == (if Clears(reason, old(streakAt)) then 0 else old(streakAt))
      ensures cleared == (if Clears(reason, old(streakAt)) then |outcomes| else old(cleared))
    {
      hide RateKept, TripsKept, LossesKept, AsSize, Kept, LateRules;
      PruneTrades(now);
      if |trades| >= AsSize(cfg.maxTradesPerWindow) {
        return TradeRateLimitHit;
      }
      var cooling := Breaker(now);
      if cooling {
        return LossStreakCircuitBreaker;
      }
      reason := LateRules(plan, account, env, cfg);
      if reason == NoReason {
        Accept(now, later);
      }
    }

    /** R11: the breaker holds during the cool-off; once that is over, the losses that led to it are forgotten. */
    method Breaker(now: int) returns (cooling: bool)
      requires Valid() && clock == Some(now)
      modifies this`losses, this`streakAt, this`cleared
      ensures Valid() && (cooling <==> old(streakAt) != 0 && now - old(streakAt) < cfg.cooloffMin * MINUTE)
      ensures cooling ==> losses == old(losses) && streakAt == old(streakAt) && cleared == old(cleared)
      ensures !cooling ==> streakAt == 0 && losses == (if old(streakAt) != 0 then [] else old(losses))
      ensures !cooling ==> cleared == if old(streakAt) != 0 then |outcomes| else old(cleared)
      ensures !cooling && orderly ==> forall i :: 0 <= i < |trips| ==> trips[i] + cfg.cooloffMin * MINUTE <= now
    {
      hide RateKept, TripsKept, LossesKept, AsSize;
      if streakAt != 0 && now - streakAt < cfg.cooloffMin * MINUTE {
        return true;
      }
      if orderly {
        TripsExpire(trips, streakAt, now, recorded, cfg.cooloffMin * MINUTE);
        LossesClear(outcomes, cleared, losses, recorded, cfg.maxLossHistory, cfg.lossWindowMin * MINUTE);
      }
      if streakAt != 0 {
        losses, streakAt, cleared := [], 0, |outcomes|;
      }
      cooling := false;
    }

    /** The history as the rate rule sees it at `now`. */
    method PruneTrades(now: int)
      requires Valid() && clock == Some(now)
      modifies this`trades, this`forgotten
      ensures Valid()
      ensures trades == Pruned(old(trades), now, cfg)
    {
      hide RateKept, TripsKept, LossesKept, AsSize;
      Prune(now);
      if orderly && AsSize(cfg.maxTradesPerWindow) <= cfg.maxTradeHistory {
        forgotten := RateStays(accepted, old(trades), forgotten, Some(now), now, cfg.maxTradeHistory,
          AsSize(cfg.maxTradesPerWindow), cfg.tradesWindowMin * MINUTE);
      }
    }

    method Prune(now: int)
      modifies this`trades
      ensures trades == Pruned(old(trades), now, cfg)
    {
      hide Stale;
      ghost var h := trades;
      ghost var d: nat := 0;
      while |trades| > cfg.maxTradeHistory
        invariant d <= |h| && trades == h[d..] && (d > 0 ==> |h| - d >= cfg.maxTradeHistory)
        decreases |trades|
      {
        trades, d := trades[1..], d + 1;
      }
      ghost var newest: seq<int> := trades;
      assert newest == Newest(h, cfg.maxTradeHistory);
      ghost var k: nat := 0;
      while |trades| > 0 && now - trades[0] > cfg.tradesWindowMin * MINUTE
        invariant k <= |newest| && trades == newest[k..]
        invariant forall i :: 0 <= i < k ==> now - newest[i] > cfg.tradesWindowMin * MINUTE
        decreases |trades|
      {
        trades, k := trades[1..], k + 1;
      }
      StaleIs(newest, now, cfg.tradesWindowMin * MINUTE, k);
    }

    method Accept(now: int, later: int)
      requires Valid() && clock == Some(now) && |trades| < AsSize(cfg.maxTradesPerWindow)
      modifies this`trades, this`accepted, this`clock, this`orderly
      ensures Valid() && trades == old(trades) + [later] && accepted == old(accepted) + [later]
      ensures clock == Some(later) && (orderly <==> old(orderly) && now <= later)
    {
      hide RateKept, TripsKept, LossesKept, AsSize;
      orderly := orderly && now <= later;
      if orderly {
        if AsSize(cfg.maxTradesPerWindow) <= cfg.maxTradeHistory {
          RateGrows(accepted, trades, forgotten, now, later, AsSize(cfg.maxTradesPerWindow), cfg.tradesWindowMin * MINUTE);
        }
        TripsWait(trips, streakAt, Some(now), later, recorded, cfg.cooloffMin * MINUTE);
      }
      trades, accepted, clock := trades + [later], accepted + [later], Some(later);
    }

    /**
     * Notes how a trade ended. On an orderly run the breaker trips at `ts` exactly when, of all
     * outcomes recorded, the last `maxLosses` are losses inside the window, all of them since the
     * losses were last cleared, and the history holds that many.
     */
    method RecordTradeEnd(isLoss: bool, ts: int)
      requires Valid()
      modifies this
      ensures Valid() && accepted == old(accepted) && trades == old(trades) && clock == old(clock) && recorded == Some(ts)
      ensures outcomes == old(outcomes) + [Outcome(ts, isLoss)] && cleared == old(cleared)
      ensures losses == KeptOutcomes(old(losses) + [Outcome(ts, isLoss)], ts, cfg.maxLossHistory, cfg.lossWindowMin * MINUTE)
      ensures var tripping := Streak(losses, |losses|) >= cfg.maxLosses;
        && trips == (if tripping then old(trips) + [ts] else old(trips)) && streakAt == (if tripping then ts else old(streakAt))
        && (orderly <==> old(orderly) && (old(recorded) == None || old(recorded).value <= ts) && (tripping ==> ts != 0))
        && (old(orderly) && (old(recorded) == None || old(recorded).value <= ts) ==> (tripping <==> RunCounts(outcomes, cleared, ts, cfg)))
    {
      hide RateKept, TripsKept, LossesKept, AsSize, KeptOutcomes, RunCounts, Streak;
      losses := losses + [Outcome(ts, isLoss)];
      PruneLosses(ts);
      var run := CountRun();
      ghost var last, inOrder := recorded, recorded == None || recorded.value <= ts;
      if orderly && inOrder {
        TripsAtEnd(old(losses), Outcome(ts, isLoss));
      }
      outcomes := outcomes + [Outcome(ts, isLoss)];
      recorded, orderly := Some(ts), orderly && inOrder && (run >= cfg.maxLosses ==> ts != 0);
      if orderly {
        TripsRecord(trips, streakAt, clock, last, cfg.cooloffMin * MINUTE, ts);
      }
      if run >= cfg.maxLosses {
        streakAt, trips := ts, trips + [ts];
      }
    }

    /** What recording an outcome in time order does to the account of the losses. */
    ghost method TripsAtEnd(before: seq<Outcome>, o: Outcome)
      requires LossesKept(outcomes, cleared, before, recorded, cfg.maxLossHistory, cfg.lossWindowMin * MINUTE)
      requires recorded == None || recorded.value <= o.ts
      ensures var kept := KeptOutcomes(before + [o], o.ts, cfg.maxLossHistory, cfg.lossWindowMin * MINUTE);
        && LossesKept(outcomes + [o], cleared, kept, Some(o.ts), cfg.maxLossHistory, cfg.lossWindowMin * MINUTE)
        && (Streak(kept, |kept|) >= cfg.maxLosses <==> RunCounts(outcomes + [o], cleared, o.ts, cfg))
    {
      hide KeptOutcomes, LossRun, Streak;
      var span := cfg.lossWindowMin * MINUTE;
      LossesRecord(outcomes, cleared, before, recorded, o, cfg.maxLossHistory, span);
      TripsIff((outcomes + [o])[cleared..], o.ts, cfg.maxLossHistory, span, RunLength(cfg));
      RunSince(outcomes + [o], cleared, o.ts, span, RunLength(cfg));
    }

    method CountRun() returns (run: nat)
      ensures run == Streak(losses, |losses|)
    {
      run := 0;
      while run < |losses| && losses[|losses| - 1 - run].loss
        invariant run <= |losses| && forall i :: |losses| - run <= i < |losses| ==> losses[i].loss
      {
        run := run + 1;
      }
    }

    method PruneLosses(ts: int)
      modifies this`losses
      ensures losses == KeptOutcomes(old(losses), ts, cfg.maxLossHistory, cfg.lossWindowMin * MINUTE)
    {
      hide Stale;
      ghost var h := losses;
      ghost var d: nat := 0;
      while |losses| > cfg.maxLossHistory
        invariant d <= |h| && losses == h[d..] && (d > 0 ==> |h| - d >= cfg.maxLossHistory)
        decreases |losses|
      {
        losses, d := losses[1..], d + 1;
      }
      ghost var newest: seq<Outcome> := losses;
      assert newest == Newest(h, cfg.maxLossHistory);
      ghost var k: nat := 0;
      while |losses| > 0 && ts - losses[0].ts > cfg.lossWindowMin * MINUTE
        invariant k <= |newest| && losses == newest[k..]
        invariant forall i :: 0 <= i < k ==> ts - newest[i].ts > cfg.lossWindowMin * MINUTE
        decreases |losses|
      {
        losses, k := losses[1..], k + 1;
      }
      StaleIs(Times(newest), ts, cfg.lossWindowMin * MINUTE, k);
    }
  }

  /** On an orderly run with enough history, no closed window holds more acceptances than the limit. */
  lemma {:induction false} RateLimitHolds(m: RiskManager, i: nat, j: nat, from: int)
    requires m.Valid() && m.orderly && AsSize(m.cfg.maxTradesPerWindow) <= m.cfg.maxTradeHistory
    requires i <= j < |m.accepted| && from <= m.accepted[i] && m.accepted[j] <= from + m.cfg.tradesWindowMin * MINUTE
    ensures j - i + 1 <= AsSize(m.cfg.maxTradesPerWindow)
  {
    hide AsSize;
    WindowHoldsAtMost(m.accepted, AsSize(m.cfg.maxTradesPerWindow), m.cfg.tradesWindowMin * MINUTE, i, j, from);
  }

  /** The rate rule can fire for some history exactly when the history cap is at least the limit. */
  lemma {:induction false} RateRuleCanFireIff(cfg: Config)
    ensures (exists h, now :: |Pruned(h, now, cfg)| >= AsSize(cfg.maxTradesPerWindow)) <==>
      AsSize(cfg.maxTradesPerWindow) <= cfg.maxTradeHistory
  {
    var limit, span := AsSize(cfg.maxTradesPerWindow), cfg.tradesWindowMin * MINUTE;
    if limit <= cfg.maxTradeHistory {
      var h := seq(limit, i requires 0 <= i < limit => -span);
      StaleIs(h, 0, span, 0);
      assert |Pruned(h, 0, cfg)| >= limit;
    }
  }

  /** A plan that only the histories can stop. */
  ghost predicate Passes(plan: TradePlan, account: Account, env: Surroundings, cfg: Config) {
    EarlyRules(plan, account, env, cfg) == NoReason && LateRules(plan, account, env, cfg) == NoReason
  }

  /** Such a plan is accepted when the window has room and the breaker is not cooling. */
  method Pass(m: RiskManager, plan: TradePlan, account: Account, env: Surroundings, now: int)
    requires m.Valid() && Passes(plan, account, env, m.cfg) && |Pruned(m.trades, now, m.cfg)| < AsSize(m.cfg.maxTradesPerWindow)
    requires m.streakAt == 0 || now - m.streakAt >= m.cfg.cooloffMin * MINUTE
    modifies m
    ensures m.Valid() && m.accepted == old(m.accepted) + [now] && m.trades == Pruned(old(m.trades), now, m.cfg) + [now]
    ensures m.trips == old(m.trips) && m.outcomes == old(m.outcomes) && m.recorded == old(m.recorded) && m.clock == Some(now)
    ensures m.streakAt == 0 && m.cleared == if old(m.streakAt) != 0 then |m.outcomes| else old(m.cleared)
    ensures m.orderly <==> old(m.orderly) && (old(m.clock) == None || old(m.clock).value <= now)
  {
    hide RateKept, TripsKept, LossesKept, AsSize, EarlyRules, LateRules, Pruned, Screen, Sized;
    var d := m.Evaluate(plan, account, env, now, now);
    assert d.reason == NoReason;
  }

  lemma {:induction false} FewKept(trades: seq<int>, now: int, cfg: Config)
    ensures |Pruned(trades, now, cfg)| <= cfg.maxTradeHistory && |Pruned(trades, now, cfg)| <= |trades|
  {
  }

  /**
   * With a history cap below the limit the window overfills: any number of plans is accepted at one
   * and the same instant. With `RateLimitHolds`, the limit holds exactly when the cap reaches it.
   */
  method Overfill(cfg: Config, plan: TradePlan, account: Account, env: Surroundings, now: int, n: nat) returns (m: RiskManager)
    requires cfg.maxTradeHistory < AsSize(cfg.maxTradesPerWindow) && Passes(plan, account, env, cfg)
    ensures m.cfg == cfg && m.Valid() && m.orderly && m.accepted == seq(n, _ => now)
  {
    hide RateKept, TripsKept, LossesKept, AsSize, Passes, Pruned;
    m := new RiskManager(cfg);
    for i := 0 to n
      invariant fresh(m) && m.cfg == cfg && m.Valid() && m.orderly && m.streakAt == 0
      invariant m.clock == None || m.clock == Some(now)
      invariant m.accepted == seq(i, _ => now)
    {
      FewKept(m.trades, now, cfg);
      Pass(m, plan, account, env, now);
    }
  }

  const EARLY_LOSSES := [Outcome(0, true), Outcome(MINUTE, true), Outcome(2 * MINUTE, true)]

  const LATE_LOSS := Outcome(13 * MINUTE, true)

  lemma {:induction false} RunsOfThree(cfg: Config)
    requires cfg.maxLosses == 3 && cfg.lossWindowMin == 15 && cfg.maxLossHistory >= 3
    ensures !RunCounts(EARLY_LOSSES[..1], 0, 0, cfg) && !RunCounts(EARLY_LOSSES[..2], 0, MINUTE, cfg)
    ensures RunCounts(EARLY_LOSSES, 0, 2 * MINUTE, cfg)
    ensures !RunCounts(EARLY_LOSSES + [LATE_LOSS], 3, 13 * MINUTE, cfg)
    ensures LossRun(EARLY_LOSSES + [LATE_LOSS], 13 * MINUTE, 15 * MINUTE, 3)
  {
  }

  /**
   * A run of losses that is recorded but does not trip: the first three trip, a call after their
   * cool-off forgets them, and with the fourth loss there are three in the window again, yet a plan
   * half a minute later is accepted.
   */
  method MissRun(cfg: Config, plan: TradePlan, account: Account, env: Surroundings) returns (m: RiskManager)
    requires cfg.maxLosses == 3 && cfg.lossWindowMin == 15 && cfg.cooloffMin == 10 && cfg.maxLossHistory >= 3
    requires 2 <= AsSize(cfg.maxTradesPerWindow) && Passes(plan, account, env, cfg)
    ensures m.cfg == cfg && m.Valid() && m.orderly && m.outcomes == EARLY_LOSSES + [LATE_LOSS]
    ensures LossRun(m.outcomes, 13 * MINUTE, cfg.lossWindowMin * MINUTE, 3) && m.trips == [2 * MINUTE]
    ensures m.accepted == [12 * MINUTE + MINUTE / 2, 13 * MINUTE + MINUTE / 2]
  {
    hide RateKept, TripsKept, LossesKept, AsSize, Passes, Pruned, KeptOutcomes, Streak, LossRun, RunCounts;
    RunsOfThree(cfg);
    m := new RiskManager(cfg);
    m.RecordTradeEnd(true, 0);
    assert m.outcomes == EARLY_LOSSES[..1];
    m.RecordTradeEnd(true, MINUTE);
    assert m.outcomes == EARLY_LOSSES[..2];
    m.RecordTradeEnd(true, 2 * MINUTE);
    assert m.outcomes == EARLY_LOSSES;
    FewKept(m.trades, 12 * MINUTE + MINUTE / 2, cfg);
    Pass(m, plan, account, env, 12 * MINUTE + MINUTE / 2);
    m.RecordTradeEnd(true, 13 * MINUTE);
    FewKept(m.trades, 13 * MINUTE + MINUTE / 2, cfg);
    Pass(m, plan, account, env, 13 * MINUTE + MINUTE / 2);
  }

  /** A trip at time 0 is no trip: that time is the mark for "not tripped", and a plan is accepted at once. */
  method TripAtZero(cfg: Config, plan: TradePlan, account: Account, env: Surroundings) returns (m: RiskManager)
    requires cfg.maxLosses == 1 && cfg.lossWindowMin >= 0 && cfg.cooloffMin > 0 && cfg.maxLossHistory >= 1
    requires 1 <= AsSize(cfg.maxTradesPerWindow) && Passes(plan, account, env, cfg)
    ensures m.cfg == cfg && m.Valid() && m.trips == [0] && m.accepted == [1]
  {
    hide RateKept, TripsKept, LossesKept, AsSize, Passes, Pruned, KeptOutcomes, Streak;
    m := new RiskManager(cfg);
    m.RecordTradeEnd(true, 0);
    FewKept(m.trades, 1, cfg);
    Pass(m, plan, account, env, 1);
  }
}
