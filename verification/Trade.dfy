/** A sized decision carried through the simulated broker: what risking a share of equity comes to in the ledger.
    The cycle decides on the quotes, half a spread either side of the bar's close; the broker fills at the close. */
module Trade {
  import opened Prelude
  import opened RealArith
  import opened Domain
  import opened Smt
  import opened Risk
  import opened Monitor
  import opened Entry
  import opened Replay
  import Exposure

  /** What a cycle decides from: levels and biases of a pair-set, the account, and the quotes asked for. */
  datatype Setup = Setup(inputs: DivergenceInputs, primary: string, secondary: string, weekly: Bias, daily: Bias,
                         config: RiskConfig, account: RiskContext, symbols: seq<string>, quotes: map<string, Quote>)
  {
    function Outcome(): SignalOutcome { GenerateSignal(inputs, weekly, daily, primary, secondary) }

    function Signal(): Signal
      requires Outcome().Passed?
    {
      Outcome().signal
    }

    function Context(): RiskContext
      requires Outcome().Passed?
    {
      PricedContext(account, inputs, quotes, Signal(), secondary)
    }

    function Decision(): RiskDecision
      requires Outcome().Passed?
    {
      Evaluate(Signal(), config, Context())
    }

    function Request(): OrderRequest
      requires Outcome().Passed? && Decision().Approved?
    {
      OrderRequest(Signal().pair, Signal().direction, Decision().size, Some(Decision().stopLoss),
                   Some(Decision().takeProfit))
    }
  }

  /** The setup is the replay's own at this bar, and leads to an order. */
  predicate PlacedAt(bars: Bars, index: nat, s: Setup) {
    && s.primary != s.secondary && s.primary in s.symbols && s.secondary in s.symbols
    && Quotes(bars, index, s.symbols, s.quotes)
    && s.inputs.primaryPrice == BidOrZero(s.quotes, s.primary)
    && s.inputs.secondaryPrice == BidOrZero(s.quotes, s.secondary)
    && s.Outcome().Passed? && s.Decision().Approved?
  }

  const SOME_BARS: Bars := map["P" := [1.0], "S" := [2.0]]

  function SomeSetup(): Setup {
    var swept, held := BufferLevels(3.0, 1.5), BufferLevels(5.0, 1.0);
    Setup(DivergenceInputs(QuoteAt(1.0).bid, QuoteAt(2.0).bid, swept, held, swept, held), "P", "S", Neutral, Neutral,
          RiskConfig(0.01, 0.05, 5, 0.05, 0.1, 0.15, 0.1),
          RiskContext(100.0, 0, false, false, 0.0, 0.0, 0.0, 0.0, 0.0, map[], 0.0),
          ["P", "S"], map["P" := QuoteAt(1.0), "S" := QuoteAt(2.0)])
  }

  lemma SomeAreQuoted()
    ensures Quotes(SOME_BARS, 0, SomeSetup().symbols, SomeSetup().quotes)
  {
    assert SomeSetup().quotes.Keys == {"P", "S"} == (set pair | pair in ["P", "S"]);
  }

  lemma SomePass()
    ensures SomeSetup().Outcome() == Passed(Smt.Signal("S", Buy, Double))
  {
    assert EvaluateSmt(SomeSetup().inputs) == Some((Secondary, Buy, Double));
  }

  lemma SomeAreApproved()
    requires SomeSetup().Outcome() == Passed(Smt.Signal("S", Buy, Double))
    ensures SomeSetup().Decision().Approved?
  {
    var s := SomeSetup();
    hide GenerateSignal;
    assert Exposure.CurrencyPair("S") == None;
    assert s.Context().entryPrice == QuoteAt(2.0).ask && s.Context().stopLossPrice == 1.0;
  }

  /** Such setups exist: the primary has swept its low, the secondary holds and is bought at its ask. */
  lemma SomeArePlaced()
    ensures PlacedAt(SOME_BARS, 0, SomeSetup())
  {
    SomeAreQuoted();
    SomePass();
    SomeAreApproved();
    hide Quotes, GenerateSignal, Evaluate;
  }

  lemma PlacedIsBracketed(bars: Bars, index: nat, s: Setup)
    requires PlacedAt(bars, index, s)
    ensures Bracketed(s.Signal().direction, s.Decision().stopLoss, s.Context().entryPrice, s.Decision().takeProfit)
  {
    assert OneSnapshot(s.inputs, s.quotes, s.primary, s.secondary) by {
      hide CurrentPrice, GenerateSignal, Evaluate, PricedContext;
    }
    hide Quotes, Evaluate, GenerateSignal;
    ApprovedTradeIsBracketed(s.inputs, s.quotes, s.primary, s.secondary, s.weekly, s.daily, s.config, s.account);
  }

  /** The price decided on is half a spread worse than the fill. */
  lemma FillBeatsEntry(bars: Bars, index: nat, s: Setup)
    requires PlacedAt(bars, index, s)
    ensures CurrentPrice(bars, index, s.Signal().pair).Some?
    ensures s.Context().entryPrice
         == CurrentPrice(bars, index, s.Signal().pair).value + Sign(s.Signal().direction) * HALF_SPREAD
  {
    hide CurrentPrice, Evaluate, EvaluateSmt;
    var pair := s.Signal().pair;
    assert pair == s.primary || pair == s.secondary;
    assert pair in s.quotes;
  }

  /** What the broker then holds is the trade decided on: its pair, side and size, stop and target bracketing the price
      decided on, filled at the close. */
  lemma HeldAsDecided(bars: Bars, l: Ledger, s: Setup, id: int, now: int)
    requires PlacedAt(bars, l.index, s)
    ensures var after := Apply(bars, l, Submit(id, now, s.Request(), Written)).0.positions;
            && |after| == |l.positions| + 1 && after[..|l.positions|] == l.positions
            && var p := after[|l.positions|];
               && p.id == id && p.pair == s.Signal().pair && p.direction == s.Signal().direction
               && TotalSize(p.legs) == s.Decision().size
               && Some(p.entryPrice) == CurrentPrice(bars, l.index, p.pair)
               && Straddled(p)
               && Bracketed(p.direction, p.stopLoss.value, s.Context().entryPrice, p.takeProfit.value)
  {
    PlacedIsBracketed(bars, l.index, s);
    FillBeatsEntry(bars, l.index, s);
    var fill := CurrentPrice(bars, l.index, s.Signal().pair).value;
    SizeOfOneLeg(FillLeg(fill, s.Decision().size, now));
    hide PlacedAt, CurrentPrice, Evaluate, GenerateSignal, PricedContext, TotalSize;
  }

  function TradeOps(s: Setup, id: int, now: int, held: nat): seq<Op>
    requires s.Outcome().Passed? && s.Decision().Approved?
  {
    [Submit(id, now, s.Request(), Written)] + Advances(held) + [Close(id, Written)]
  }

  /** What the trade leaves in the account. */
  function Gained(bars: Bars, starting: real, l: Ledger, s: Setup, id: int, now: int, held: nat): real
    requires s.Outcome().Passed? && s.Decision().Approved?
  {
    AccountEquity(starting, Run(bars, l, TradeOps(s, id, now, held))) - AccountEquity(starting, l)
  }

  predicate Fresh(l: Ledger, id: int) {
    forall i :: 0 <= i < |l.positions| ==> l.positions[i].id != id
  }

  lemma GainOverEntry(direction: Direction, size: real, close: real, fill: real, entry: real, h: real)
    requires entry == fill + Sign(direction) * h
    ensures Gain(direction, size, close - fill) == Gain(direction, size, close - entry) + Product(size, h)
  {
    assert Sign(direction) * h * size * Sign(direction) == size * h;
    GainSplits(direction, size, close - entry, Sign(direction) * h);
    assert close - entry + Sign(direction) * h == close - fill;
  }

  /** The ledger books the move from the price decided on, plus half a spread on the whole size. */
  lemma LedgerBooksMove(bars: Bars, starting: real, l: Ledger, s: Setup, id: int, now: int, held: nat)
    requires PlacedAt(bars, l.index, s) && Fresh(l, id)
    requires CurrentPrice(bars, l.index + held, s.Signal().pair).Some?
    ensures var close := CurrentPrice(bars, l.index + held, s.Signal().pair).value;
            var moved := Gain(s.Signal().direction, s.Decision().size, close - s.Context().entryPrice);
              && Run(bars, l, TradeOps(s, id, now, held)).positions == l.positions
              && AccountEquity(starting, Run(bars, l, TradeOps(s, id, now, held)))
                 == AccountEquity(starting, l) + moved + Product(s.Decision().size, HALF_SPREAD)
  {
    FillBeatsEntry(bars, l.index, s);
    hide Run, Gain, CurrentPrice, Product, Evaluate, GenerateSignal, PricedContext, Quotes;
    SubmitThenClose(bars, l, id, now, s.Request(), held);
    GainOverEntry(s.Signal().direction, s.Decision().size, CurrentPrice(bars, l.index + held, s.Signal().pair).value,
                  CurrentPrice(bars, l.index, s.Signal().pair).value, s.Context().entryPrice, HALF_SPREAD);
  }

  /** Closed at its stop, a trade costs the sized risk less half a spread on its size; closed at its target, it brings
      three times the risk and that half spread. */
  lemma LedgerBooksRisk(bars: Bars, starting: real, l: Ledger, s: Setup, id: int, now: int, held: nat)
    requires PlacedAt(bars, l.index, s) && Fresh(l, id)
    requires CurrentPrice(bars, l.index + held, s.Signal().pair).Some?
    ensures var d, close := s.Decision(), CurrentPrice(bars, l.index + held, s.Signal().pair).value;
            var gained := Gained(bars, starting, l, s, id, now, held);
              && (close == d.stopLoss ==>
                   gained == Product(d.size, HALF_SPREAD) - Product(s.account.equity, d.riskPercent))
              && (close == d.takeProfit ==>
                   gained == Product(d.size, HALF_SPREAD) + 3.0 * Product(s.account.equity, d.riskPercent))
  {
    PlacedIsBracketed(bars, l.index, s);
    ApprovedSizing(s.Signal(), s.config, s.Context());
    StopLosesRiskTargetGainsThree(s.Signal().direction, s.Signal(), s.config, s.Context());
    assert s.Context().equity == s.account.equity;
    LedgerBooksMove(bars, starting, l, s, id, now, held);
    hide Run, Gain, CurrentPrice, Product, Evaluate, GenerateSignal, PricedContext, Bracketed, PlacedAt;
  }

  /** The sweep sees the bid and the broker closes half a spread above it. With the bid exactly on the stop a sell
      loses exactly its risk, a buy its risk less a whole spread on its size; on the target, likewise from three times
      the risk. */
  lemma LedgerBooksSweep(bars: Bars, starting: real, l: Ledger, s: Setup, id: int, now: int, held: nat)
    requires PlacedAt(bars, l.index, s) && Fresh(l, id)
    requires CurrentPrice(bars, l.index + held, s.Signal().pair).Some?
    ensures var d, bid := s.Decision(), QuoteAt(CurrentPrice(bars, l.index + held, s.Signal().pair).value).bid;
            var gained := Gained(bars, starting, l, s, id, now, held);
            var spread := if s.Signal().direction == Buy then Product(d.size, SYNTHETIC_SPREAD) else 0.0;
              && (bid == d.stopLoss ==> gained == spread - Product(s.account.equity, d.riskPercent))
              && (bid == d.takeProfit ==> gained == spread + 3.0 * Product(s.account.equity, d.riskPercent))
  {
    PlacedIsBracketed(bars, l.index, s);
    ApprovedSizing(s.Signal(), s.config, s.Context());
    StopLosesRiskTargetGainsThree(s.Signal().direction, s.Signal(), s.config, s.Context());
    assert s.Context().equity == s.account.equity;
    LedgerBooksMove(bars, starting, l, s, id, now, held);
    var close := CurrentPrice(bars, l.index + held, s.Signal().pair).value;
    var direction, size, entry := s.Signal().direction, s.Decision().size, s.Context().entryPrice;
    hide Run, CurrentPrice, Evaluate, GenerateSignal, PricedContext, Bracketed, PlacedAt;
    SweptHalfSpread(direction, size, close, entry);
    hide Gain, Product;
  }

  lemma SweptHalfSpread(direction: Direction, size: real, close: real, entry: real)
    ensures Gain(direction, size, close - entry) + Product(size, HALF_SPREAD)
         == Gain(direction, size, close - HALF_SPREAD - entry)
            + (if direction == Buy then Product(size, SYNTHETIC_SPREAD) else 0.0)
  {
    var level := close - HALF_SPREAD - entry;
    GainSplits(direction, size, level, HALF_SPREAD);
    assert level + HALF_SPREAD == close - entry;
    assert Gain(direction, size, HALF_SPREAD) == if direction == Buy then size * HALF_SPREAD else -(size * HALF_SPREAD);
    assert size * SYNTHETIC_SPREAD == size * HALF_SPREAD + size * HALF_SPREAD;
  }

  // ---------- Equity over a run of trades in the ledger ----------

  datatype Turn = Turn(setup: Setup, id: int, now: int, held: nat)

  predicate PlacedOn(bars: Bars, starting: real, l: Ledger, t: Turn, maxRisk: real) {
    && PlacedAt(bars, l.index, t.setup) && Fresh(l, t.id)
    && t.setup.account.equity == AccountEquity(starting, l)
    && 0.0 <= t.setup.config.baseRisk && 0.0 <= t.setup.config.maxRisk <= maxRisk
    && CurrentPrice(bars, l.index + t.held, t.setup.Signal().pair).Some?
    && NoWorseThanStop(t.setup.Signal().direction, CurrentPrice(bars, l.index + t.held, t.setup.Signal().pair).value,
                       t.setup.Decision().stopLoss)
  }

  /** An approved order is filled, held and closed; otherwise nothing happens. */
  function OneTurn(bars: Bars, l: Ledger, t: Turn): Ledger {
    if t.setup.Outcome().Passed? && t.setup.Decision().Approved?
    then Run(bars, l, TradeOps(t.setup, t.id, t.now, t.held))
    else l
  }

  /** One turn keeps at least 1 - maxRisk of the equity it found. */
  lemma TurnBound(bars: Bars, starting: real, l: Ledger, t: Turn, maxRisk: real)
    requires PlacedOn(bars, starting, l, t, maxRisk) && AccountEquity(starting, l) >= 0.0
    ensures AccountEquity(starting, OneTurn(bars, l, t)) >= Product(AccountEquity(starting, l), 1.0 - maxRisk)
  {
    var s, equity := t.setup, AccountEquity(starting, l);
    var close := CurrentPrice(bars, l.index + t.held, s.Signal().pair).value;
    PlacedIsBracketed(bars, l.index, s);
    ApprovedSizing(s.Signal(), s.config, s.Context());
    RiskPercentNonNegative(s.config, s.Context());
    assert s.Decision().riskPercent == RiskPercent(s.config, s.Context());
    assert s.Context().equity == equity;
    LedgerBooksMove(bars, starting, l, s, t.id, t.now, t.held);
    hide Run, CurrentPrice, Evaluate, GenerateSignal, PricedContext, PlacedAt, RiskPercent, Gain;
    var alone := Entry.Trade(s.Signal(), s.config, s.Context(), close);
    assert TakenOn(alone, equity, maxRisk);
    OneTradeBound(alone, equity, maxRisk);
    ProductSign(equity, s.Decision().riskPercent);
    SizeNonNegative(s.Decision().size, Abs(s.Context().entryPrice - s.Decision().stopLoss), s.Decision().riskCurrency);
    ProductSign(s.Decision().size, HALF_SPREAD);
  }

  function Traded(bars: Bars, l: Ledger, turns: seq<Turn>): Ledger {
    if turns == [] then l
    else OneTurn(bars, Traded(bars, l, turns[..|turns| - 1]), turns[|turns| - 1])
  }

  /** Each turn is placed on the ledger the ones before it left. */
  predicate AllPlaced(bars: Bars, starting: real, l: Ledger, turns: seq<Turn>, maxRisk: real) {
    turns == [] ||
    (&& AllPlaced(bars, starting, l, turns[..|turns| - 1], maxRisk)
     && PlacedOn(bars, starting, Traded(bars, l, turns[..|turns| - 1]), turns[|turns| - 1], maxRisk))
  }

  lemma LastTurn(bars: Bars, starting: real, l: Ledger, turns: seq<Turn>, maxRisk: real)
    requires turns != [] && AllPlaced(bars, starting, l, turns, maxRisk)
    ensures var init, t := turns[..|turns| - 1], turns[|turns| - 1];
              && AllPlaced(bars, starting, l, init, maxRisk)
              && PlacedOn(bars, starting, Traded(bars, l, init), t, maxRisk)
              && Traded(bars, l, turns) == OneTurn(bars, Traded(bars, l, init), t)
    ensures Power(1.0 - maxRisk, |turns|) == Product(Power(1.0 - maxRisk, |turns| - 1), 1.0 - maxRisk)
  {
    hide PlacedOn, OneTurn, Product;
  }

  lemma NoTurns(bars: Bars, l: Ledger, equity: real, keep: real)
    ensures Traded(bars, l, []) == l && Product(equity, Power(keep, 0)) == equity
  {
  }

  /** After n trades through the ledger, each decided on the quotes of its bar, filled at the close, and closed no worse
      than its stop, the account holds at least E0 * (1 - maxRisk)^n. */
  lemma {:induction false} LedgerEquityFloor(bars: Bars, starting: real, l: Ledger, turns: seq<Turn>, maxRisk: real)
    requires AccountEquity(starting, l) >= 0.0 && 0.0 <= maxRisk <= 1.0
    requires AllPlaced(bars, starting, l, turns, maxRisk)
    ensures AccountEquity(starting, Traded(bars, l, turns))
         >= Product(AccountEquity(starting, l), Power(1.0 - maxRisk, |turns|)) >= 0.0
  {
    hide PlacedOn, OneTurn, AccountEquity, Product, Traded, AllPlaced, Power;
    var equity, keep := AccountEquity(starting, l), 1.0 - maxRisk;
    PowerNonNegative(keep, |turns|);
    ProductSign(equity, Power(keep, |turns|));
    if turns == [] {
      NoTurns(bars, l, equity, keep);
    } else {
      var init, t := turns[..|turns| - 1], turns[|turns| - 1];
      var before := Traded(bars, l, init);
      LastTurn(bars, starting, l, turns, maxRisk);
      LedgerEquityFloor(bars, starting, l, init, maxRisk);
      TurnBound(bars, starting, before, t, maxRisk);
      Compound(equity, Power(keep, |init|), AccountEquity(starting, before), keep);
    }
  }
}
