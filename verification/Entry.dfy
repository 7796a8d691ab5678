/** From a divergence to a bracketed order, and what that order then earns: the entry block of
    `run_real_cycle` and `stop_loss_level` in `daemon/src/main.rs`. */
module Entry {
  import opened Prelude
  import opened RealArith
  import opened Domain
  import opened Smt
  import opened Risk
  import opened Monitor

  function BidOrZero(quotes: map<string, Quote>, pair: string): real {
    if pair in quotes then quotes[pair].bid else 0.0
  }

  function EntryPrice(i: DivergenceInputs, quotes: map<string, Quote>, signal: Signal, secondary: string): real {
    var fallback := if signal.pair == secondary then i.secondaryPrice else i.primaryPrice;
    if signal.pair !in quotes then fallback
    else if signal.direction == Buy then quotes[signal.pair].ask
    else quotes[signal.pair].bid
  }

  function StopLossLevel(i: DivergenceInputs, signal: Signal, secondary: string): real {
    var target := if signal.pair == secondary then Secondary else Primary;
    var levels := LevelsOf(i, target, signal.tier);
    if signal.direction == Buy then levels.low else levels.high
  }

  function TakeProfitLevel(direction: Direction, entry: real, stop: real): real {
    entry + Sign(direction) * 3.0 * Abs(entry - stop)
  }

  /** The account side of the context, completed with the prices of this signal. */
  function PricedContext(account: RiskContext, i: DivergenceInputs, quotes: map<string, Quote>, signal: Signal,
                         secondary: string): RiskContext
  {
    var entry, stop := EntryPrice(i, quotes, signal, secondary), StopLossLevel(i, signal, secondary);
    account.(isDoubleSmt := signal.tier == Double, entryPrice := entry, stopLossPrice := stop,
             takeProfitPrice := TakeProfitLevel(signal.direction, entry, stop))
  }

  /** One snapshot feeds both the divergence test and the order, asks are not below bids, and the two
      symbols differ. */
  predicate OneSnapshot(i: DivergenceInputs, quotes: map<string, Quote>, primary: string, secondary: string) {
    && primary != secondary
    && i.primaryPrice == BidOrZero(quotes, primary)
    && i.secondaryPrice == BidOrZero(quotes, secondary)
    && forall pair :: pair in quotes ==> quotes[pair].bid <= quotes[pair].ask
  }

  /** Stop and target either side of the entry, the target three times as far. */
  predicate Bracketed(direction: Direction, stop: real, entry: real, target: real) {
    && (if direction == Buy then stop < entry < target else target < entry < stop)
    && target - entry == 3.0 * (entry - stop)
  }

  /** The level the traded asset held, on the timeframe of the tier. */
  function HeldLevel(i: DivergenceInputs): real
    requires EvaluateSmt(i).Some?
  {
    var (target, direction, tier) := EvaluateSmt(i).value;
    if direction == Buy then LevelsOf(i, target, tier).low else LevelsOf(i, target, tier).high
  }

  /** What the market asks of a buy and bids for a sell; without a quote, the price the divergence was tested at. */
  predicate IsMarketPrice(price: real, i: DivergenceInputs, quotes: map<string, Quote>, pair: string)
    requires EvaluateSmt(i).Some?
  {
    var (target, direction, _) := EvaluateSmt(i).value;
    if pair !in quotes then price == PriceOf(i, target)
    else price == match direction case Buy => quotes[pair].ask case Sell => quotes[pair].bid
  }

  /** Whatever the account, a signal is priced at the market and stopped where the traded asset held. */
  lemma PricedAtMarket(i: DivergenceInputs, quotes: map<string, Quote>, primary: string, secondary: string,
                       weekly: Bias, daily: Bias, account: RiskContext)
    requires primary != secondary
    ensures var outcome := GenerateSignal(i, weekly, daily, primary, secondary);
            outcome.Passed? ==>
              var signal := outcome.signal;
              var context := PricedContext(account, i, quotes, signal, secondary);
                && EvaluateSmt(i).Some?
                && IsMarketPrice(context.entryPrice, i, quotes, signal.pair)
                && context.stopLossPrice == HeldLevel(i)
                && (context.isDoubleSmt <==> EvaluateSmt(i).value.2 == Double)
  {
    hide EvaluateSmt, LevelsOf;
  }

  /** On any levels, an approved decision brackets its entry on the right sides. */
  lemma ApprovedTradeIsBracketed(i: DivergenceInputs, quotes: map<string, Quote>, primary: string, secondary: string,
                                 weekly: Bias, daily: Bias, config: RiskConfig, account: RiskContext)
    requires OneSnapshot(i, quotes, primary, secondary)
    ensures var outcome := GenerateSignal(i, weekly, daily, primary, secondary);
            outcome.Passed? ==>
              var signal := outcome.signal;
              var context := PricedContext(account, i, quotes, signal, secondary);
              var decision := Evaluate(signal, config, context);
              decision.Approved? ==>
                Bracketed(signal.direction, decision.stopLoss, context.entryPrice, decision.takeProfit)
  {
    var outcome := GenerateSignal(i, weekly, daily, primary, secondary);
    if outcome.Passed? {
      TradedAssetHeld(i);
      var signal := outcome.signal;
      var context := PricedContext(account, i, quotes, signal, secondary);
      if Evaluate(signal, config, context).Approved? {
        ApprovedSizing(signal, config, context);
        hide Evaluate, EvaluateSmt;
      }
    }
  }

  /** The exit sweep never closes a bracketed position at its own entry price. */
  lemma NoExitAtEntry(p: Position, entry: real)
    requires p.stopLoss.Some? && p.takeProfit.Some?
    requires Bracketed(p.direction, p.stopLoss.value, entry, p.takeProfit.value)
    ensures RiskRewardExit(p, entry) == None
  {
  }

  /** The sweep prices positions at the bid. Against the very quote a trade was opened on, it fires in one
      case only: a buy whose bid stands exactly on its stop. */
  lemma ExitAtOpeningBid(i: DivergenceInputs, quotes: map<string, Quote>, primary: string, secondary: string,
                         weekly: Bias, daily: Bias, config: RiskConfig, account: RiskContext, p: Position)
    requires OneSnapshot(i, quotes, primary, secondary)
    requires GenerateSignal(i, weekly, daily, primary, secondary).Passed?
    requires var signal := GenerateSignal(i, weekly, daily, primary, secondary).signal;
             var d := Evaluate(signal, config, PricedContext(account, i, quotes, signal, secondary));
             && d.Approved? && signal.pair in quotes
             && p.pair == signal.pair && p.direction == signal.direction
             && p.stopLoss == Some(d.stopLoss) && p.takeProfit == Some(d.takeProfit)
    ensures RiskRewardExit(p, quotes[p.pair].bid) ==
            if p.direction == Buy && quotes[p.pair].bid == p.stopLoss.value then Some(StopLoss) else None
  {
    ApprovedTradeIsBracketed(i, quotes, primary, secondary, weekly, daily, config, account);
    TradedAssetHeld(i);
    var signal := GenerateSignal(i, weekly, daily, primary, secondary).signal;
    ApprovedSizing(signal, config, PricedContext(account, i, quotes, signal, secondary));
    hide Evaluate, EvaluateSmt;
  }

  // ---------- What a trade earns ----------

  /** Filled at the decision's entry: closing at the stop loses exactly the sized risk, closing at the
      target gains exactly three times it. */
  lemma StopLosesRiskTargetGainsThree(direction: Direction, signal: Signal, config: RiskConfig, context: RiskContext)
    requires Evaluate(signal, config, context).Approved?
    requires var d := Evaluate(signal, config, context);
             Bracketed(direction, d.stopLoss, context.entryPrice, d.takeProfit)
    ensures var d := Evaluate(signal, config, context);
            && Gain(direction, d.size, d.stopLoss - context.entryPrice) == -d.riskCurrency
            && Gain(direction, d.size, d.takeProfit - context.entryPrice) == 3.0 * d.riskCurrency
  {
    var d := Evaluate(signal, config, context);
    ApprovedSizing(signal, config, context);
    hide Evaluate;
    BracketGains(direction, d.size, d.stopLoss, context.entryPrice, d.takeProfit);
  }

  lemma BracketGains(direction: Direction, size: real, stop: real, entry: real, target: real)
    requires Bracketed(direction, stop, entry, target)
    ensures Gain(direction, size, stop - entry) == -Product(size, Abs(entry - stop))
    ensures Gain(direction, size, target - entry) == 3.0 * Product(size, Abs(entry - stop))
  {
    var distance := Abs(entry - stop);
    assert stop - entry == -(Sign(direction) * distance);
    assert target - entry == 3.0 * (Sign(direction) * distance);
  }

  // ---------- Equity over a trade ----------

  /** One trade taken alone: its signal, the account's settings, the context at its entry, and its close. */
  datatype Trade = Trade(signal: Signal, config: RiskConfig, context: RiskContext, close: real)

  predicate NoWorseThanStop(direction: Direction, close: real, stop: real) {
    if direction == Buy then close >= stop else close <= stop
  }

  /** An approved, bracketed trade, sized on the equity it finds, closed at its stop or better. */
  predicate TakenOn(t: Trade, equity: real, maxRisk: real) {
    var d := Evaluate(t.signal, t.config, t.context);
    && t.context.equity == equity
    && 0.0 <= t.config.baseRisk && 0.0 <= t.config.maxRisk <= maxRisk
    && d.Approved?
    && Bracketed(t.signal.direction, d.stopLoss, t.context.entryPrice, d.takeProfit)
    && NoWorseThanStop(t.signal.direction, t.close, d.stopLoss)
  }

  function EquityAfter(equity: real, t: Trade): real {
    var d := Evaluate(t.signal, t.config, t.context);
    if d.Approved? then equity + Gain(t.signal.direction, d.size, t.close - t.context.entryPrice) else equity
  }

  function Power(base: real, n: nat): real {
    if n == 0 then 1.0 else Product(Power(base, n - 1), base)
  }

  /** A close no worse than the stop loses no more than the stop does. */
  lemma LossBounded(direction: Direction, size: real, entry: real, stop: real, close: real)
    requires size >= 0.0 && NoWorseThanStop(direction, close, stop)
    ensures Gain(direction, size, close - entry) >= Gain(direction, size, stop - entry)
  {
    if direction == Buy {
      MulMonotone(stop - entry, close - entry, size);
    } else {
      MulMonotone(close - entry, stop - entry, size);
    }
  }

  lemma SizeNonNegative(size: real, distance: real, risk: real)
    requires distance > 0.0 && Product(size, distance) == risk && risk >= 0.0
    ensures size >= 0.0
  {
    assert distance * size == risk;
    FactorSign(distance, size);
  }

  /** One trade keeps at least 1 - maxRisk of the equity it was sized on. */
  lemma OneTradeBound(t: Trade, equity: real, maxRisk: real)
    requires equity >= 0.0 && TakenOn(t, equity, maxRisk)
    ensures EquityAfter(equity, t) >= Product(equity, 1.0 - maxRisk)
  {
    var d, entry := Evaluate(t.signal, t.config, t.context), t.context.entryPrice;
    ApprovedSizing(t.signal, t.config, t.context);
    RiskPercentNonNegative(t.config, t.context);
    assert d.riskPercent == RiskPercent(t.config, t.context);
    hide Evaluate, RiskPercent;
    ProductSign(equity, d.riskPercent);
    SizeNonNegative(d.size, Abs(entry - d.stopLoss), d.riskCurrency);
    BracketGains(t.signal.direction, d.size, d.stopLoss, entry, d.takeProfit);
    LossBounded(t.signal.direction, d.size, entry, d.stopLoss, t.close);
    KeptShare(equity, d.riskPercent, maxRisk);
  }

  lemma RiskPercentNonNegative(config: RiskConfig, context: RiskContext)
    requires 0.0 <= config.baseRisk && 0.0 <= config.maxRisk
    ensures RiskPercent(config, context) >= 0.0
  {
  }

  lemma KeptShare(equity: real, percent: real, maxRisk: real)
    requires equity >= 0.0 && percent <= maxRisk
    ensures equity - Product(equity, percent) >= Product(equity, 1.0 - maxRisk)
  {
    MulMonotone(percent, maxRisk, equity);
    assert equity * (1.0 - maxRisk) == equity - maxRisk * equity;
    assert equity * percent == percent * equity;
  }

  lemma {:induction false} PowerNonNegative(base: real, n: nat)
    requires base >= 0.0
    ensures Power(base, n) >= 0.0
  {
    if n > 0 {
      PowerNonNegative(base, n - 1);
      ProductSign(Power(base, n - 1), base);
    }
  }

  lemma Compound(equity: real, p: real, before: real, keep: real)
    requires before >= Product(equity, p) && keep >= 0.0
    ensures Product(before, keep) >= Product(equity, Product(p, keep))
  {
    MulMonotone(equity * p, before, keep);
    assert equity * p * keep == equity * (p * keep);
  }
}
