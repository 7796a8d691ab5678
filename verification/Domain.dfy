/** The shared vocabulary of `domain/src/types.rs` and `newtypes.rs`, with money and prices as `real`. */
module Domain {
  import opened Prelude

  datatype Direction = Buy | Sell

  datatype Tier = Tier1 | Tier2 | Double

  datatype Bias = BuyBias | SellBias | Neutral

  datatype FillLeg = FillLeg(price: real, size: real, filledAt: int)

  datatype Position = Position(
    id: int,
    pair: string,
    direction: Direction,
    legs: seq<FillLeg>,
    entryPrice: real,
    currentPrice: real,
    entryTime: int,
    stopLoss: Option<real>,
    takeProfit: Option<real>)

  datatype Quote = Quote(bid: real, ask: real)

  datatype BrokerError =
    | ConnectionFailed
    | Timeout
    | RateLimited(retryAfterMs: nat)
    | RejectedByBroker
    | MalformedResponse
    | NotFound
    | NotImplemented

  function Sign(direction: Direction): real {
    match direction case Buy => 1.0 case Sell => -1.0
  }

  function Opposite(direction: Direction): Direction {
    match direction case Buy => Sell case Sell => Buy
  }

  function TotalSize(legs: seq<FillLeg>): real {
    if legs == [] then 0.0 else TotalSize(legs[..|legs| - 1]) + legs[|legs| - 1].size
  }

  lemma SizeOfOneLeg(leg: FillLeg)
    ensures TotalSize([leg]) == leg.size
  {
    assert TotalSize([leg][..0]) == 0.0;
  }

  function Abs(x: real): real { if x >= 0.0 then x else -x }

  /** What a position of this size gains when the price moves. */
  function Gain(direction: Direction, size: real, move: real): real {
    move * size * Sign(direction)
  }
}
