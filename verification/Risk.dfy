/** Position sizing and the risk gates of `risk/src/sizing.rs`. Percentages are ratios. */
module Risk {
  import opened Prelude
  import opened RealArith
  import opened Domain
  import opened Exposure
  import opened Smt

  datatype RiskConfig = RiskConfig(
    baseRisk: real,
    maxRisk: real,
    maxOpenPositions: nat,
    dailyLossLimit: real,
    weeklyLossLimit: real,
    maxCurrencyExposure: real,
    maxCorrelationExposure: real)

  datatype RiskContext = RiskContext(
    equity: real,
    openPositionCount: nat,
    isTuesday: bool,
    isDoubleSmt: bool,
    entryPrice: real,
    stopLossPrice: real,
    takeProfitPrice: real,
    realizedToday: real,
    realizedThisWeek: real,
    currencyExposure: map<string, real>,
    correlatedExposure: real)

  datatype RiskRejection =
    | DailyLossLimitReached
    | WeeklyLossLimitReached
    | MaxOpenPositionsReached
    | InvalidStopDistance
    | MaxCurrencyExposureReached
    | MaxCorrelationExposureReached

  datatype RiskDecision =
    | Approved(size: real, stopLoss: real, takeProfit: real, riskPercent: real, riskCurrency: real)
    | Rejected(reason: RiskRejection)

  function EffectiveCoefficient(isTuesday: bool, isDoubleSmt: bool): real {
    if isTuesday || isDoubleSmt then 2.0 else 1.0
  }

  /** The only way a percentage is multiplied: the cap is applied every time. */
  function ApplyMultiplier(base: real, coefficient: real, cap: real): real {
    var scaled := base * coefficient;
    if scaled <= cap then scaled else cap
  }

  function RiskPercent(config: RiskConfig, context: RiskContext): real {
    ApplyMultiplier(config.baseRisk, EffectiveCoefficient(context.isTuesday, context.isDoubleSmt), config.maxRisk)
  }

  function RiskCurrency(config: RiskConfig, context: RiskContext): real {
    Product(context.equity, RiskPercent(config, context))
  }

  function Projected(context: RiskContext, currency: string, amount: real): real {
    Abs(Held(context.currencyExposure, currency) + amount)
  }

  function Evaluate(signal: Signal, config: RiskConfig, context: RiskContext): RiskDecision {
    var distance := Abs(context.entryPrice - context.stopLossPrice);
    var percent := RiskPercent(config, context);
    var risk := RiskCurrency(config, context);
    if context.realizedToday <= -Product(context.equity, config.dailyLossLimit) then Rejected(DailyLossLimitReached)
    else if context.realizedThisWeek <= -Product(context.equity, config.weeklyLossLimit) then
      Rejected(WeeklyLossLimitReached)
    else if context.openPositionCount >= config.maxOpenPositions then Rejected(MaxOpenPositionsReached)
    else if distance == 0.0 then Rejected(InvalidStopDistance)
    else if CurrencyBreach(signal, config, context, risk) then Rejected(MaxCurrencyExposureReached)
    else if context.correlatedExposure + risk > Product(context.equity, config.maxCorrelationExposure) then
      Rejected(MaxCorrelationExposureReached)
    else Approved(risk / distance, context.stopLossPrice, context.takeProfitPrice, percent, risk)
  }

  predicate CurrencyBreach(signal: Signal, config: RiskConfig, context: RiskContext, risk: real) {
    match CurrencyPair(signal.pair)
    case None => false
    case Some((base, quote)) =>
      var amount := match signal.direction case Buy => risk case Sell => -risk;
      var cap := Product(context.equity, config.maxCurrencyExposure);
      Projected(context, base, amount) > cap || Projected(context, quote, -amount) > cap
  }

  // ---------- What a decision promises ----------

  /** The smaller of the cap and the base, the base counting twice when doubled. */
  predicate IsRiskOf(percent: real, config: RiskConfig, doubled: bool) {
    var base := if doubled then 2.0 * config.baseRisk else config.baseRisk;
    percent <= config.maxRisk && percent <= base && (percent == config.maxRisk || percent == base)
  }

  /** An approved trade found room, risks the base, or twice that on a Tuesday or a double signal, up to the cap, and is
      sized so that the distance to its stop costs exactly that risk. */
  lemma ApprovedSizing(signal: Signal, config: RiskConfig, context: RiskContext)
    requires Evaluate(signal, config, context).Approved?
    ensures var d := Evaluate(signal, config, context);
            && context.openPositionCount < config.maxOpenPositions
            && d.stopLoss == context.stopLossPrice != context.entryPrice
            && d.takeProfit == context.takeProfitPrice
            && IsRiskOf(d.riskPercent, config, context.isTuesday || context.isDoubleSmt)
            && d.riskCurrency == Product(context.equity, d.riskPercent)
            && Product(d.size, Abs(context.entryPrice - context.stopLossPrice)) == d.riskCurrency
  {
    var d, distance := Evaluate(signal, config, context), Abs(context.entryPrice - context.stopLossPrice);
    assert d.size * distance == d.riskCurrency;
  }

  /** The position the trade would be if it were sized by its risk. */
  predicate IsTradeAtRisk(trade: Position, signal: Signal, config: RiskConfig, context: RiskContext) {
    && trade.pair == signal.pair && trade.direction == signal.direction
    && TotalSize(trade.legs) == RiskCurrency(config, context)
  }

  predicate TwoCurrencies(pair: string) {
    match CurrencyPair(pair) case None => true case Some((base, quote)) => base != quote
  }

  /** The realized losses and the positions open leave room for another, and the stop is not at the entry. */
  predicate HasRoom(config: RiskConfig, context: RiskContext) {
    && context.realizedToday + Product(context.equity, config.dailyLossLimit) > 0.0
    && context.realizedThisWeek + Product(context.equity, config.weeklyLossLimit) > 0.0
    && context.openPositionCount < config.maxOpenPositions
    && context.entryPrice != context.stopLossPrice
  }

  /** The book with the trade in it nets no currency of the trade beyond the cap. */
  ghost predicate WithinCurrencyCap(book: seq<Position>, trade: Position, config: RiskConfig, equity: real) {
    forall c :: Touches(trade, c) ==> Abs(Net(book + [trade], c)) <= Product(equity, config.maxCurrencyExposure)
  }

  /** Told the exposure of a book, the gates let a trade through exactly if there is room, the book with the trade in
      it, sized by its risk, stays within the cap on both its currencies, and its risk fits beside what is
      correlated. */
  lemma ApprovedIff(signal: Signal, config: RiskConfig, context: RiskContext, book: seq<Position>, trade: Position)
    requires context.currencyExposure == SnapshotOf(book) && TwoCurrencies(signal.pair)
    requires IsTradeAtRisk(trade, signal, config, context)
    ensures Evaluate(signal, config, context).Approved? <==>
            && HasRoom(config, context)
            && WithinCurrencyCap(book, trade, config, context.equity)
            && context.correlatedExposure + RiskCurrency(config, context)
               <= Product(context.equity, config.maxCorrelationExposure)
  {
    hide RiskPercent, RiskCurrency, Product;
    BreachIff(signal, config, context, book, trade);
    hide CurrencyBreach, WithinCurrencyCap;
  }

  /** What each rejection says, on its own. */
  ghost predicate Ground(reason: RiskRejection, config: RiskConfig, context: RiskContext, book: seq<Position>,
                         trade: Position)
  {
    match reason
    case DailyLossLimitReached => context.realizedToday + Product(context.equity, config.dailyLossLimit) <= 0.0
    case WeeklyLossLimitReached => context.realizedThisWeek + Product(context.equity, config.weeklyLossLimit) <= 0.0
    case MaxOpenPositionsReached => context.openPositionCount >= config.maxOpenPositions
    case InvalidStopDistance => context.entryPrice == context.stopLossPrice
    case MaxCurrencyExposureReached => !WithinCurrencyCap(book, trade, config, context.equity)
    case MaxCorrelationExposureReached =>
      context.correlatedExposure + TotalSize(trade.legs) > Product(context.equity, config.maxCorrelationExposure)
  }

  function Precedence(reason: RiskRejection): int {
    match reason
    case DailyLossLimitReached => 0
    case WeeklyLossLimitReached => 1
    case MaxOpenPositionsReached => 2
    case InvalidStopDistance => 3
    case MaxCurrencyExposureReached => 4
    case MaxCorrelationExposureReached => 5
  }

  /** A rejection names the first ground there is. */
  lemma RejectedForFirstGround(signal: Signal, config: RiskConfig, context: RiskContext, book: seq<Position>,
                               trade: Position, reason: RiskRejection)
    requires context.currencyExposure == SnapshotOf(book) && TwoCurrencies(signal.pair)
    requires IsTradeAtRisk(trade, signal, config, context)
    ensures Evaluate(signal, config, context) == Rejected(reason) <==>
            && Ground(reason, config, context, book, trade)
            && forall other :: Precedence(other) < Precedence(reason) ==> !Ground(other, config, context, book, trade)
  {
    hide RiskPercent, RiskCurrency, Product;
    BreachIff(signal, config, context, book, trade);
    hide CurrencyBreach, WithinCurrencyCap, TotalSize;
    assert Precedence(DailyLossLimitReached) == 0 && Precedence(WeeklyLossLimitReached) == 1;
    assert Precedence(MaxOpenPositionsReached) == 2 && Precedence(InvalidStopDistance) == 3;
    assert Precedence(MaxCurrencyExposureReached) == 4;
  }

  lemma NetWith(book: seq<Position>, trade: Position, c: string)
    ensures Net(book + [trade], c) == Held(SnapshotOf(book), c) + Contribution(trade, c)
  {
    SnapshotIsNet(book);
    hide Net, Held, SnapshotOf, Contribution;
    NetInsert(book, trade, [], c);
    assert book + [trade] + [] == book + [trade] && book + [] == book;
  }

  lemma CapOnBoth(book: seq<Position>, trade: Position, config: RiskConfig, equity: real, base: string, quote: string)
    requires CurrencyPair(trade.pair) == Some((base, quote))
    ensures var cap := Product(equity, config.maxCurrencyExposure);
            WithinCurrencyCap(book, trade, config, equity) <==>
            Abs(Net(book + [trade], base)) <= cap && Abs(Net(book + [trade], quote)) <= cap
  {
    hide Product, CurrencyPair, Net, Abs;
    assert Touches(trade, base) && Touches(trade, quote);
    assert forall c :: Touches(trade, c) ==> c == base || c == quote;
  }

  lemma BreachIff(signal: Signal, config: RiskConfig, context: RiskContext, book: seq<Position>, trade: Position)
    requires context.currencyExposure == SnapshotOf(book) && TwoCurrencies(signal.pair)
    requires IsTradeAtRisk(trade, signal, config, context)
    ensures CurrencyBreach(signal, config, context, RiskCurrency(config, context)) <==>
            !WithinCurrencyCap(book, trade, config, context.equity)
  {
    hide RiskCurrency, Product, CurrencyPair, SnapshotOf, TotalSize, Net, Projected, Abs, WithinCurrencyCap;
    if CurrencyPair(signal.pair).Some? {
      var (base, quote) := CurrencyPair(signal.pair).value;
      var risk := RiskCurrency(config, context);
      var amount := if signal.direction == Buy then risk else -risk;
      CapOnBoth(book, trade, config, context.equity, base, quote);
      ProjectedIsNet(context, book, trade, base, quote, amount);
    } else {
      Uncapped(book, trade, config, context.equity);
    }
  }

  lemma Uncapped(book: seq<Position>, trade: Position, config: RiskConfig, equity: real)
    requires CurrencyPair(trade.pair) == None
    ensures WithinCurrencyCap(book, trade, config, equity)
  {
    hide CurrencyPair, Net;
  }

  lemma ProjectedIsNet(context: RiskContext, book: seq<Position>, trade: Position, base: string, quote: string,
                       amount: real)
    requires context.currencyExposure == SnapshotOf(book)
    requires CurrencyPair(trade.pair) == Some((base, quote)) && base != quote
    requires amount == if trade.direction == Buy then TotalSize(trade.legs) else -TotalSize(trade.legs)
    ensures Projected(context, base, amount) == Abs(Net(book + [trade], base))
    ensures Projected(context, quote, -amount) == Abs(Net(book + [trade], quote))
  {
    hide CurrencyPair, SnapshotOf, TotalSize, Net, Held;
    assert Sign(trade.direction) * TotalSize(trade.legs) == amount;
    NetWith(book, trade, base);
    NetWith(book, trade, quote);
  }

  // ---------- Sizes read as risk ----------

  /** A trade is sized in units, but the exposure gate later reads that size as the risk: right exactly when nothing
      is risked or the stop is one away, too little when it is farther, too much when it is nearer. */
  lemma SizeReadAsRisk(signal: Signal, config: RiskConfig, context: RiskContext, fill: FillLeg)
    requires Evaluate(signal, config, context).Approved?
    requires fill.size == Evaluate(signal, config, context).size
    ensures var risk := Evaluate(signal, config, context).riskCurrency;
            var distance := Abs(context.entryPrice - context.stopLossPrice);
              && (TotalSize([fill]) == risk <==> risk == 0.0 || distance == 1.0)
              && (risk > 0.0 ==> (TotalSize([fill]) < risk <==> distance > 1.0))
  {
    var d, distance := Evaluate(signal, config, context), Abs(context.entryPrice - context.stopLossPrice);
    SizeOfOneLeg(fill);
    ApprovedSizing(signal, config, context);
    hide Evaluate, TotalSize, Product;
    SizeAgainstRisk(d.size, distance, d.riskCurrency);
  }

  lemma SizeAgainstRisk(size: real, distance: real, risk: real)
    requires distance > 0.0 && Product(size, distance) == risk
    ensures size == risk <==> risk == 0.0 || distance == 1.0
    ensures risk > 0.0 ==> (size < risk <==> distance > 1.0)
  {
    SignOfProduct(size, distance);
    ZeroProduct(distance - 1.0, size);
    assert Product(distance - 1.0, size) == risk - size by { ProductSubtracts(distance, 1.0, size); }
    if risk > 0.0 {
      hide Product;
      SignOfProduct(distance - 1.0, size);
    }
  }

  // ---------- What that does to the cap ----------

  /** An account with nothing realized and nothing correlated. */
  function Account(equity: real, exposure: map<string, real>, entry: real, stop: real): RiskContext {
    RiskContext(equity, if exposure == map[] then 0 else 1, false, false, entry, stop, entry, 0.0, 0.0, exposure, 0.0)
  }

  /** What the gate is told once a trade has been filled at its entry. */
  function AfterFill(signal: Signal, d: RiskDecision, price: real): map<string, real>
    requires d.Approved?
  {
    SnapshotOf([Position(0, signal.pair, signal.direction, [FillLeg(price, d.size, 0)], price, price, 0,
                         Some(d.stopLoss), Some(d.takeProfit))])
  }

  lemma HeldAfterBuy(pair: string, base: string, quote: string, d: RiskDecision, price: real, tier: Tier, c: string)
    requires d.Approved? && CurrencyPair(pair) == Some((base, quote)) && base != quote
    ensures Held(AfterFill(Signal(pair, Buy, tier), d, price), c) ==
            if c == base then d.size else if c == quote then -d.size else 0.0
  {
    var leg := FillLeg(price, d.size, 0);
    var p := Position(0, pair, Buy, [leg], price, price, 0, Some(d.stopLoss), Some(d.takeProfit));
    hide CurrencyPair, TotalSize, Booked;
    SizeOfOneLeg(leg);
    BookedOnce(p);
    BookedAdds(map[], p, c);
  }

  /** Settings and equity that leave the currency cap to decide: a trade risks a positive amount, and the other gates
      let one and then another through. */
  predicate CapDecides(config: RiskConfig, equity: real) {
    && equity > 0.0 && 0.0 < config.baseRisk <= config.maxRisk && config.baseRisk <= config.maxCorrelationExposure
    && 0.0 < config.dailyLossLimit && 0.0 < config.weeklyLossLimit && config.maxOpenPositions > 1
  }

  /** The gate at a buy, given what it is told of the two currencies. */
  lemma BuyDecided(config: RiskConfig, equity: real, pair: string, base: string, quote: string,
                   exposure: map<string, real>, entry: real, stop: real)
    requires CapDecides(config, equity) && CurrencyPair(pair) == Some((base, quote)) && entry != stop
    ensures var risk, cap := Product(equity, config.baseRisk), Product(equity, config.maxCurrencyExposure);
              BuyDecision(pair, config, equity, exposure, entry, stop) ==
              if Abs(Held(exposure, base) + risk) > cap || Abs(Held(exposure, quote) - risk) > cap
              then Rejected(MaxCurrencyExposureReached)
              else Approved(risk / Abs(entry - stop), stop, entry, config.baseRisk, risk)
  {
    hide CurrencyPair, Held;
    MulPositive(equity, config.dailyLossLimit);
    MulPositive(equity, config.weeklyLossLimit);
    MulMonotone(config.baseRisk, config.maxCorrelationExposure, equity);
    assert equity * config.baseRisk == config.baseRisk * equity;
    assert equity * config.maxCorrelationExposure == config.maxCorrelationExposure * equity;
  }

  function BuyDecision(pair: string, config: RiskConfig, equity: real, exposure: map<string, real>, entry: real,
                       stop: real)
    : RiskDecision
  {
    Evaluate(Signal(pair, Buy, Tier1), config, Account(equity, exposure, entry, stop))
  }

  /** One buy, its pair, its prices. */
  datatype Buying = Buying(pair: string, entry: real, stop: real)

  /** A buy, filled, and then another: what is decided of each. */
  function TwoBuys(config: RiskConfig, equity: real, a: Buying, b: Buying): (RiskDecision, RiskDecision) {
    var first := BuyDecision(a.pair, config, equity, map[], a.entry, a.stop);
    if first.Rejected? then (first, first)
    else
      var exposure := AfterFill(Signal(a.pair, Buy, Tier1), first, a.entry);
      (first, BuyDecision(b.pair, config, equity, exposure, b.entry, b.stop))
  }

  /** The pairs have just their base, or just their quote, in common. */
  predicate Share(a: Buying, b: Buying) {
    match (CurrencyPair(a.pair), CurrencyPair(b.pair))
    case (Some((base, quote)), Some((base', quote'))) =>
      base != quote && base' != quote' && base != quote' && base' != quote && (base == base' <==> quote != quote')
    case _ => false
  }

  /** The first is let through if its own risk fits the cap, the second if its risk and the first one's size do. */
  lemma TwoBuysDecided(config: RiskConfig, equity: real, a: Buying, b: Buying)
    requires CapDecides(config, equity) && Share(a, b) && a.entry != a.stop && b.entry != b.stop
    ensures var (first, second) := TwoBuys(config, equity, a, b);
            var risk, cap := Product(equity, config.baseRisk), Product(equity, config.maxCurrencyExposure);
              && first == (if risk > cap then Rejected(MaxCurrencyExposureReached)
                           else Approved(risk / Abs(a.entry - a.stop), a.stop, a.entry, config.baseRisk, risk))
              && second == (if risk / Abs(a.entry - a.stop) + risk > cap || risk > cap
                            then Rejected(MaxCurrencyExposureReached)
                            else Approved(risk / Abs(b.entry - b.stop), b.stop, b.entry, config.baseRisk, risk))
  {
    var size, risk := Product(equity, config.baseRisk) / Abs(a.entry - a.stop), Product(equity, config.baseRisk);
    MulPositive(equity, config.baseRisk);
    QuotientSign(risk, Abs(a.entry - a.stop));
    hide CurrencyPair, BuyDecision, AfterFill, Product;
    FirstBuy(config, equity, a, CurrencyPair(a.pair).value.0, CurrencyPair(a.pair).value.1);
    var first := BuyDecision(a.pair, config, equity, map[], a.entry, a.stop);
    if first.Approved? {
      SecondBuy(config, equity, a, b, first);
    }
  }

  lemma FirstBuy(config: RiskConfig, equity: real, a: Buying, base: string, quote: string)
    requires CapDecides(config, equity) && CurrencyPair(a.pair) == Some((base, quote)) && a.entry != a.stop
    ensures var risk := Product(equity, config.baseRisk);
            BuyDecision(a.pair, config, equity, map[], a.entry, a.stop) ==
            if risk > Product(equity, config.maxCurrencyExposure) then Rejected(MaxCurrencyExposureReached)
            else Approved(risk / Abs(a.entry - a.stop), a.stop, a.entry, config.baseRisk, risk)
  {
    MulPositive(equity, config.baseRisk);
    hide CurrencyPair, BuyDecision, Product;
    BuyDecided(config, equity, a.pair, base, quote, map[], a.entry, a.stop);
  }

  lemma SecondBuy(config: RiskConfig, equity: real, a: Buying, b: Buying, first: RiskDecision)
    requires CapDecides(config, equity) && Share(a, b) && b.entry != b.stop && first.Approved? && first.size > 0.0
    ensures var risk, cap := Product(equity, config.baseRisk), Product(equity, config.maxCurrencyExposure);
            var exposure := AfterFill(Signal(a.pair, Buy, Tier1), first, a.entry);
            BuyDecision(b.pair, config, equity, exposure, b.entry, b.stop) ==
            if first.size + risk > cap then Rejected(MaxCurrencyExposureReached)
            else Approved(risk / Abs(b.entry - b.stop), b.stop, b.entry, config.baseRisk, risk)
  {
    MulPositive(equity, config.baseRisk);
    var exposure := AfterFill(Signal(a.pair, Buy, Tier1), first, a.entry);
    SharedHeld(a, b, first);
    hide CurrencyPair, BuyDecision, AfterFill, Product, Held, Share;
    var (base, quote) := CurrencyPair(b.pair).value;
    BuyDecided(config, equity, b.pair, base, quote, exposure, b.entry, b.stop);
  }

  /** After the first buy the gate holds its size on the currency shared, and nothing on the other. */
  lemma SharedHeld(a: Buying, b: Buying, first: RiskDecision)
    requires Share(a, b) && first.Approved?
    ensures CurrencyPair(b.pair).Some?
    ensures var exposure := AfterFill(Signal(a.pair, Buy, Tier1), first, a.entry);
            var base, quote := CurrencyPair(b.pair).value.0, CurrencyPair(b.pair).value.1;
              || (Held(exposure, base) == first.size && Held(exposure, quote) == 0.0)
              || (Held(exposure, base) == 0.0 && Held(exposure, quote) == -first.size)
  {
    hide CurrencyPair, AfterFill, Held;
    var p, q := CurrencyPair(a.pair).value, CurrencyPair(b.pair).value;
    HeldAfterBuy(a.pair, p.0, p.1, first, a.entry, Tier1, q.0);
    HeldAfterBuy(a.pair, p.0, p.1, first, a.entry, Tier1, q.1);
  }

  /** Two buys let through keep their combined risk on the shared currency within the cap exactly if two such risks fit
      it, or the first one's size, as read by the gate, keeps the second out. */
  lemma CapHoldsIff(config: RiskConfig, equity: real, a: Buying, b: Buying)
    requires CapDecides(config, equity) && Share(a, b) && a.entry != a.stop && b.entry != b.stop
    ensures var (first, second) := TwoBuys(config, equity, a, b);
            var risk, cap := Product(equity, config.baseRisk), Product(equity, config.maxCurrencyExposure);
              (first.Approved? && second.Approved? ==> first.riskCurrency + second.riskCurrency <= cap) <==>
              2.0 * risk <= cap || risk / Abs(a.entry - a.stop) + risk > cap
  {
    var risk := Product(equity, config.baseRisk);
    MulPositive(equity, config.baseRisk);
    QuotientSign(risk, Abs(a.entry - a.stop));
    hide Share, TwoBuys, Product;
    TwoBuysDecided(config, equity, a, b);
  }

  /** Conversely, two buys whose combined risk fits the cap are both let through exactly if the first one's size and the
      second one's risk fit it too. */
  lemma CapLetsInIff(config: RiskConfig, equity: real, a: Buying, b: Buying)
    requires CapDecides(config, equity) && Share(a, b) && a.entry != a.stop && b.entry != b.stop
    requires 2.0 * Product(equity, config.baseRisk) <= Product(equity, config.maxCurrencyExposure)
    ensures var (first, second) := TwoBuys(config, equity, a, b);
            var risk, cap := Product(equity, config.baseRisk), Product(equity, config.maxCurrencyExposure);
              first.Approved? && (second.Approved? <==> risk / Abs(a.entry - a.stop) + risk <= cap)
  {
    MulPositive(equity, config.baseRisk);
    hide Share, TwoBuys;
    TwoBuysDecided(config, equity, a, b);
  }

  const WIDE: RiskConfig := RiskConfig(0.1, 0.1, 5, 0.05, 0.1, 0.15, 0.1)
  const SHIPPED: RiskConfig := RiskConfig(0.01, 0.05, 5, 0.05, 0.1, 0.15, 0.1)

  lemma Exceeds(first: string, second: string)
    requires Share(Buying(first, 150.0, 145.0), Buying(second, 0.9, 0.8))
    ensures var (a, b) := TwoBuys(WIDE, 10_000.0, Buying(first, 150.0, 145.0), Buying(second, 0.9, 0.8));
              a.Approved? && b.Approved? && a.riskCurrency == b.riskCurrency == 1000.0
  {
    hide Share, TwoBuys;
    TwoBuysDecided(WIDE, 10_000.0, Buying(first, 150.0, 145.0), Buying(second, 0.9, 0.8));
  }

  lemma ShutsOut(first: string, second: string)
    requires Share(Buying(first, 1.1, 1.095), Buying(second, 1.3, 1.295))
    ensures var (a, b) := TwoBuys(SHIPPED, 10_000.0, Buying(first, 1.1, 1.095), Buying(second, 1.3, 1.295));
              a.Approved? && a.riskCurrency == 100.0 && b == Rejected(MaxCurrencyExposureReached)
  {
    hide Share, TwoBuys;
    TwoBuysDecided(SHIPPED, 10_000.0, Buying(first, 1.1, 1.095), Buying(second, 1.3, 1.295));
  }

  /** Two trades each risking a tenth of the account against a cap of 15% a currency, the first with its stop five yen
      away: both are approved, and together they risk a fifth of it on the dollar. */
  lemma CapCanBeExceeded()
    ensures var (yen, franc) := TwoBuys(WIDE, 10_000.0, Buying("USDJPY", 150.0, 145.0), Buying("USDCHF", 0.9, 0.8));
              && yen.Approved? && franc.Approved?
              && yen.riskCurrency + franc.riskCurrency == 2000.0 > Product(10_000.0, WIDE.maxCurrencyExposure)
  {
    SplitsIff("USDJPY", "USD", "JPY");
    SplitsIff("USDCHF", "USD", "CHF");
    hide CurrencyPair, TwoBuys;
    Exceeds("USDJPY", "USDCHF");
  }

  /** At the settings shipped, one trade of 1% with its stop fifty pips away closes the dollar to the next, though the
      two would risk 2% against a cap of 15%. */
  lemma CapCanShutOut()
    ensures var (euro, pound) := TwoBuys(SHIPPED, 10_000.0, Buying("EURUSD", 1.1, 1.095), Buying("GBPUSD", 1.3, 1.295));
              euro.Approved? && euro.riskCurrency == 100.0 && pound == Rejected(MaxCurrencyExposureReached)
  {
    SplitsIff("EURUSD", "EUR", "USD");
    SplitsIff("GBPUSD", "GBP", "USD");
    hide CurrencyPair, TwoBuys;
    ShutsOut("EURUSD", "GBPUSD");
  }
}
