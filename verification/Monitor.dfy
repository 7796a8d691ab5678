/** The exit sweep of `daemon/src/monitor.rs`. */
module Monitor {
  import opened Prelude
  import opened Domain

  datatype ExitReason = TakeProfit | StopLoss | News | Contradiction

  datatype ExitDecision = ExitDecision(id: int, reason: ExitReason)

  function RiskRewardExit(p: Position, price: real): Option<ExitReason> {
    var hitStop := p.stopLoss.Some? &&
                   (if p.direction == Buy then price <= p.stopLoss.value else price >= p.stopLoss.value);
    var hitTarget := p.takeProfit.Some? &&
                     (if p.direction == Buy then price >= p.takeProfit.value else price <= p.takeProfit.value);
    if hitStop then Some(StopLoss) else if hitTarget then Some(TakeProfit) else None
  }

  function ContradictionExit(p: Position, divergences: map<string, (Direction, Tier)>): Option<ExitReason> {
    if p.pair in divergences && divergences[p.pair].0 != p.direction then Some(Contradiction) else None
  }

  function ExitFor(p: Position, prices: map<string, real>, newsActive: bool,
                   divergences: map<string, (Direction, Tier)>): Option<ExitReason>
  {
    var riskReward := if p.pair in prices then RiskRewardExit(p, prices[p.pair]) else None;
    if riskReward.Some? then riskReward
    else if newsActive then Some(News)
    else ContradictionExit(p, divergences)
  }

  function EvaluateExits(positions: seq<Position>, prices: map<string, real>, newsActive: bool,
                         divergences: map<string, (Direction, Tier)>): seq<ExitDecision>
  {
    if positions == [] then []
    else
      var rest := EvaluateExits(positions[1..], prices, newsActive, divergences);
      match ExitFor(positions[0], prices, newsActive, divergences)
      case Some(reason) => [ExitDecision(positions[0].id, reason)] + rest
      case None => rest
  }

  // ---------- What calls for an exit ----------

  /** How far the price stands past a level, the way the position wants it to go. */
  function Past(p: Position, level: real, price: real): real { Sign(p.direction) * (price - level) }

  /** Whether the reason, taken alone, speaks for closing the position. */
  predicate CallsFor(reason: ExitReason, p: Position, prices: map<string, real>, newsActive: bool,
                     divergences: map<string, (Direction, Tier)>)
  {
    match reason
    case StopLoss => p.stopLoss.Some? && p.pair in prices && Past(p, p.stopLoss.value, prices[p.pair]) <= 0.0
    case TakeProfit => p.takeProfit.Some? && p.pair in prices && Past(p, p.takeProfit.value, prices[p.pair]) >= 0.0
    case News => newsActive
    case Contradiction => exists tier :: (p.pair, (Opposite(p.direction), tier)) in divergences.Items
  }

  /** Which of two reasons is given when both call. */
  function Rank(reason: ExitReason): int {
    match reason case StopLoss => 0 case TakeProfit => 1 case News => 2 case Contradiction => 3
  }

  /** The reason calls for the exit and none that goes before it does. */
  predicate First(reason: ExitReason, p: Position, prices: map<string, real>, newsActive: bool,
                  divergences: map<string, (Direction, Tier)>)
  {
    && CallsFor(reason, p, prices, newsActive, divergences)
    && forall other :: Rank(other) < Rank(reason) ==> !CallsFor(other, p, prices, newsActive, divergences)
  }

  lemma ContradictionCalls(p: Position, prices: map<string, real>, newsActive: bool,
                           divergences: map<string, (Direction, Tier)>)
    ensures CallsFor(Contradiction, p, prices, newsActive, divergences) <==> ContradictionExit(p, divergences).Some?
  {
    if p.pair in divergences && divergences[p.pair].0 != p.direction {
      assert (p.pair, (Opposite(p.direction), divergences[p.pair].1)) in divergences.Items;
    }
  }

  lemma ExitIsFirstReason(p: Position, prices: map<string, real>, newsActive: bool,
                          divergences: map<string, (Direction, Tier)>, reason: ExitReason)
    ensures ExitFor(p, prices, newsActive, divergences) == Some(reason) <==>
            First(reason, p, prices, newsActive, divergences)
  {
    ContradictionCalls(p, prices, newsActive, divergences);
    assert Rank(StopLoss) == 0 && Rank(TakeProfit) == 1 && Rank(News) == 2;
  }

  /** A stop and a target, the target on the side the position gains on. */
  predicate Straddled(p: Position) {
    p.stopLoss.Some? && p.takeProfit.Some? && Past(p, p.stopLoss.value, p.takeProfit.value) > 0.0
  }

  /** Between its levels a position is left alone; at or past either it is closed for that one. */
  lemma PriceDecides(p: Position, prices: map<string, real>, newsActive: bool,
                     divergences: map<string, (Direction, Tier)>)
    requires Straddled(p) && p.pair in prices
    ensures var price, exit := prices[p.pair], ExitFor(p, prices, newsActive, divergences);
              && (exit == Some(StopLoss) <==> Past(p, p.stopLoss.value, price) <= 0.0)
              && (exit == Some(TakeProfit) <==> Past(p, p.takeProfit.value, price) >= 0.0)
              && (exit.None? || exit.value.News? || exit.value.Contradiction? <==>
                  Past(p, p.takeProfit.value, price) < 0.0 < Past(p, p.stopLoss.value, price))
  {
    ExitIsFirstReason(p, prices, newsActive, divergences, StopLoss);
    ExitIsFirstReason(p, prices, newsActive, divergences, TakeProfit);
    hide ExitFor;
  }

  /** The sweep names exactly the positions that have a reason to close, each with the first reason it has. */
  lemma {:induction false} ExitsAreThoseWithReason(positions: seq<Position>, prices: map<string, real>,
                                                   newsActive: bool,
                                                   divergences: map<string, (Direction, Tier)>, e: ExitDecision)
    ensures e in EvaluateExits(positions, prices, newsActive, divergences) <==>
            exists i :: 0 <= i < |positions| && positions[i].id == e.id &&
                        First(e.reason, positions[i], prices, newsActive, divergences)
  {
    if positions != [] {
      ExitIsFirstReason(positions[0], prices, newsActive, divergences, e.reason);
      hide ExitFor, First;
      var rest := positions[1..];
      ExitsAreThoseWithReason(rest, prices, newsActive, divergences, e);
      if i :| 0 <= i < |positions| && positions[i].id == e.id &&
              First(e.reason, positions[i], prices, newsActive, divergences) {
        if i > 0 {
          assert rest[i - 1] == positions[i];
        }
      }
      if e in EvaluateExits(rest, prices, newsActive, divergences) {
        var i :| 0 <= i < |rest| && rest[i].id == e.id && First(e.reason, rest[i], prices, newsActive, divergences);
        assert positions[i + 1] == rest[i];
      }
    }
  }

  /** They are named in the order of the positions, each once for every time it is listed. */
  lemma {:induction false} ExitsInOrder(a: seq<Position>, b: seq<Position>, prices: map<string, real>,
                                        newsActive: bool, divergences: map<string, (Direction, Tier)>)
    ensures EvaluateExits(a + b, prices, newsActive, divergences) ==
            EvaluateExits(a, prices, newsActive, divergences) + EvaluateExits(b, prices, newsActive, divergences)
    ensures forall p :: |EvaluateExits([p], prices, newsActive, divergences)| <= 1
  {
    if a == [] {
      assert a + b == b;
    } else {
      hide ExitFor;
      assert (a + b)[1..] == a[1..] + b;
      ExitsInOrder(a[1..], b, prices, newsActive, divergences);
    }
  }
}
