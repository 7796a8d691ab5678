/** SMT divergence and the signal it becomes, from `strategy/src/smt.rs`. */
module Smt {
  import opened Prelude
  import opened Domain
  import opened NewYork
  import opened Buffers
  import opened TrueOpen

  datatype BufferLevels = BufferLevels(high: real, low: real)

  datatype TradeTarget = Primary | Secondary

  datatype DivergenceInputs = DivergenceInputs(
    primaryPrice: real,
    secondaryPrice: real,
    dailyPrimary: BufferLevels,
    dailySecondary: BufferLevels,
    sessionPrimary: BufferLevels,
    sessionSecondary: BufferLevels)

  function DetectDivergence(primary: real, primaryLevels: BufferLevels, secondary: real, secondaryLevels: BufferLevels)
    : Option<(TradeTarget, Direction)>
  {
    var primarySweptLow, secondarySweptLow := primary < primaryLevels.low, secondary < secondaryLevels.low;
    var primarySweptHigh, secondarySweptHigh := primary > primaryLevels.high, secondary > secondaryLevels.high;
    if primarySweptLow && !secondarySweptLow then Some((Secondary, Buy))
    else if secondarySweptLow && !primarySweptLow then Some((Primary, Buy))
    else if primarySweptHigh && !secondarySweptHigh then Some((Secondary, Sell))
    else if secondarySweptHigh && !primarySweptHigh then Some((Primary, Sell))
    else None
  }

  function Daily(i: DivergenceInputs): Option<(TradeTarget, Direction)> {
    DetectDivergence(i.primaryPrice, i.dailyPrimary, i.secondaryPrice, i.dailySecondary)
  }

  function Session(i: DivergenceInputs): Option<(TradeTarget, Direction)> {
    DetectDivergence(i.primaryPrice, i.sessionPrimary, i.secondaryPrice, i.sessionSecondary)
  }

  function EvaluateSmt(i: DivergenceInputs): Option<(TradeTarget, Direction, Tier)> {
    match (Daily(i), Session(i))
    case (Some((t1, d1)), Some((t2, d2))) => Some((t1, d1, if t1 == t2 && d1 == d2 then Double else Tier1))
    case (Some((t1, d1)), None) => Some((t1, d1, Tier1))
    case (None, Some((t2, d2))) => Some((t2, d2, Tier2))
    case (None, None) => None
  }

  datatype Signal = Signal(pair: string, direction: Direction, tier: Tier)

  datatype SignalOutcome = NoDivergence | Passed(signal: Signal) | GateRejected(direction: Direction)

  function GenerateSignal(i: DivergenceInputs, weekly: Bias, daily: Bias, primary: string, secondary: string)
    : SignalOutcome
  {
    match EvaluateSmt(i)
    case None => NoDivergence
    case Some((target, direction, tier)) =>
      var pair := if target == Primary then primary else secondary;
      if GatePasses(weekly, daily, direction) then Passed(Signal(pair, direction, tier)) else GateRejected(direction)
  }

  // ---------- What a divergence means ----------

  function PriceOf(i: DivergenceInputs, target: TradeTarget): real {
    if target == Primary then i.primaryPrice else i.secondaryPrice
  }

  /** The levels a signal of this tier was read from: session for Tier 2, daily otherwise. */
  function LevelsOf(i: DivergenceInputs, target: TradeTarget, tier: Tier): BufferLevels {
    match (tier, target)
    case (Tier2, Primary) => i.sessionPrimary
    case (Tier2, Secondary) => i.sessionSecondary
    case (_, Primary) => i.dailyPrimary
    case (_, Secondary) => i.dailySecondary
  }

  function OtherTarget(target: TradeTarget): TradeTarget {
    if target == Primary then Secondary else Primary
  }

  /** On any levels: the traded asset held the level its counterpart swept, on the timeframe of the tier. */
  lemma TradedAssetHeld(i: DivergenceInputs)
    ensures match EvaluateSmt(i)
            case None => true
            case Some((target, direction, tier)) =>
              var held, swept := LevelsOf(i, target, tier), LevelsOf(i, OtherTarget(target), tier);
              match direction
              case Buy => PriceOf(i, target) >= held.low && PriceOf(i, OtherTarget(target)) < swept.low
              case Sell => PriceOf(i, target) <= held.high && PriceOf(i, OtherTarget(target)) > swept.high
  {
  }

  function LevelsAt(i: DivergenceInputs, target: TradeTarget, session: bool): BufferLevels {
    match target
    case Primary => if session then i.sessionPrimary else i.dailyPrimary
    case Secondary => if session then i.sessionSecondary else i.dailySecondary
  }

  predicate SweptLow(i: DivergenceInputs, target: TradeTarget, session: bool) {
    PriceOf(i, target) < LevelsAt(i, target, session).low
  }

  predicate SweptHigh(i: DivergenceInputs, target: TradeTarget, session: bool) {
    PriceOf(i, target) > LevelsAt(i, target, session).high
  }

  /** The counterpart alone swept its low: this one is bought. The counterpart alone swept its high, and the lows were
      swept by both or by neither: this one is sold. */
  predicate Diverges(i: DivergenceInputs, target: TradeTarget, direction: Direction, session: bool) {
    var other := OtherTarget(target);
    match direction
    case Buy => SweptLow(i, other, session) && !SweptLow(i, target, session)
    case Sell => SweptHigh(i, other, session) && !SweptHigh(i, target, session)
                 && (SweptLow(i, other, session) <==> SweptLow(i, target, session))
  }

  /** Both timeframes agreeing make a double signal; else the daily one goes first and the session one stands in. */
  lemma EvaluateSmtIff(i: DivergenceInputs, target: TradeTarget, direction: Direction)
    ensures EvaluateSmt(i) == Some((target, direction, Double)) <==>
            Diverges(i, target, direction, false) && Diverges(i, target, direction, true)
    ensures EvaluateSmt(i) == Some((target, direction, Tier1)) <==>
            Diverges(i, target, direction, false) && !Diverges(i, target, direction, true)
    ensures EvaluateSmt(i) == Some((target, direction, Tier2)) <==>
            Diverges(i, target, direction, true) && forall t, d :: !Diverges(i, t, d, false)
  {
    DailyIff(i, target, direction);
    SessionIff(i, target, direction);
    hide Diverges, Daily, Session;
    if Daily(i).Some? {
      DailyIff(i, Daily(i).value.0, Daily(i).value.1);
    } else {
      forall t, d ensures !Diverges(i, t, d, false) { DailyIff(i, t, d); }
    }
  }

  lemma DailyIff(i: DivergenceInputs, target: TradeTarget, direction: Direction)
    ensures Daily(i) == Some((target, direction)) <==> Diverges(i, target, direction, false)
  {
  }

  lemma SessionIff(i: DivergenceInputs, target: TradeTarget, direction: Direction)
    ensures Session(i) == Some((target, direction)) <==> Diverges(i, target, direction, true)
  {
  }

  function Towards(direction: Direction): Bias {
    if direction == Buy then BuyBias else SellBias
  }

  /** The weekly bias takes the other side, or takes none and the daily one does. */
  predicate Opposed(weekly: Bias, daily: Bias, direction: Direction) {
    var deciding := if weekly.Neutral? then daily else weekly;
    !deciding.Neutral? && deciding != Towards(direction)
  }

  /** A divergence becomes a signal on the asset it names exactly when no standing bias opposes it, and is rejected
      exactly when one does. */
  lemma SignalIff(i: DivergenceInputs, weekly: Bias, daily: Bias, primary: string, secondary: string, s: Signal)
    requires primary != secondary
    ensures var outcome := GenerateSignal(i, weekly, daily, primary, secondary);
            var target := if s.pair == secondary then Secondary else Primary;
              && (outcome == Passed(s) <==>
                    && (s.pair == primary || s.pair == secondary)
                    && EvaluateSmt(i) == Some((target, s.direction, s.tier)) && !Opposed(weekly, daily, s.direction))
              && (outcome == GateRejected(s.direction) <==>
                    && EvaluateSmt(i).Some? && EvaluateSmt(i).value.1 == s.direction
                    && Opposed(weekly, daily, s.direction))
              && (outcome == NoDivergence <==> EvaluateSmt(i) == None)
  {
    hide EvaluateSmt;
  }

  function Exchanged(i: DivergenceInputs): DivergenceInputs {
    DivergenceInputs(i.secondaryPrice, i.primaryPrice, i.dailySecondary, i.dailyPrimary,
                     i.sessionSecondary, i.sessionPrimary)
  }

  /** Neither asset has a fixed role: exchanging the two inputs names the same asset, direction and tier. */
  lemma AssetsAreSymmetric(i: DivergenceInputs)
    ensures EvaluateSmt(Exchanged(i)) == match EvaluateSmt(i)
                                         case None => None
                                         case Some((target, direction, tier)) =>
                                           Some((OtherTarget(target), direction, tier))
  {
  }

  // ---------- The live cycle ----------

  function AsLevels(r: Range): BufferLevels { BufferLevels(r.high, r.low) }

  /** The inputs a cycle builds: each buffer is widened with the current price before that price is tested. */
  function LiveInputs(z: Zone, primary: real, secondary: real, now: int,
                      dailyPrimary: Option<Range>, dailySecondary: Option<Range>,
                      sessionPrimary: Option<Range>, sessionSecondary: Option<Range>): DivergenceInputs
  {
    DivergenceInputs(primary, secondary,
                     AsLevels(Updated(z, DailyRange, dailyPrimary, primary, now)),
                     AsLevels(Updated(z, DailyRange, dailySecondary, secondary, now)),
                     AsLevels(Updated(z, SessionRange, sessionPrimary, primary, now)),
                     AsLevels(Updated(z, SessionRange, sessionSecondary, secondary, now)))
  }

  lemma UpdatedContainsPrice(z: Zone, kind: Kind, current: Option<Range>, price: real, now: int)
    ensures var r := Updated(z, kind, current, price, now); r.low <= price <= r.high
  {
    hide NextReset;
  }

  /** Whatever is on file and whatever the prices, a live cycle never sees a divergence, so it never signals. */
  lemma LiveCycleNeverSignals(z: Zone, primary: real, secondary: real, now: int,
                              dailyPrimary: Option<Range>, dailySecondary: Option<Range>,
                              sessionPrimary: Option<Range>, sessionSecondary: Option<Range>,
                              weekly: Bias, daily: Bias, primaryPair: string, secondaryPair: string)
    ensures var i := LiveInputs(z, primary, secondary, now, dailyPrimary, dailySecondary,
                                sessionPrimary, sessionSecondary);
            && EvaluateSmt(i) == None
            && GenerateSignal(i, weekly, daily, primaryPair, secondaryPair) == NoDivergence
  {
    UpdatedContainsPrice(z, DailyRange, dailyPrimary, primary, now);
    UpdatedContainsPrice(z, DailyRange, dailySecondary, secondary, now);
    UpdatedContainsPrice(z, SessionRange, sessionPrimary, primary, now);
    UpdatedContainsPrice(z, SessionRange, sessionSecondary, secondary, now);
    hide Updated;
  }
}
