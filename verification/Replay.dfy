/** The simulated broker of `daemon/src/replay.rs` as a ledger, and the replay loop of `daemon/src/main.rs`
    that steps it. The state file is the pair (positions, realized); how a save goes is an input. */
module Replay {
  import opened Prelude
  import opened RealArith
  import opened Domain

  type Bars = map<string, seq<real>>

  datatype Ledger = Ledger(positions: seq<Position>, realized: real, index: nat)

  datatype OrderRequest = OrderRequest(pair: string, side: Direction, size: real,
                                       stopLoss: Option<real>, takeProfit: Option<real>)

  /** What an order that went through reports. */
  datatype Order = Order(positionId: int, pair: string, side: Direction, size: real, price: real)

  /** A save truncates the file before it writes it: refused before that, it leaves the file alone; torn after it, it
      leaves something unreadable, which the next load takes for an empty state. */
  datatype Save = Written | Refused | Torn

  datatype Op =
    | Submit(id: int, now: int, request: OrderRequest, save: Save)
    | Close(closeId: int, closeSave: Save)
    | Advance

  // ---------- Specification ----------

  function CurrentPrice(bars: Bars, index: nat, pair: string): Option<real> {
    if pair in bars && index < |bars[pair]| then Some(bars[pair][index]) else None
  }

  const SYNTHETIC_SPREAD: real := 0.00005
  const HALF_SPREAD: real := SYNTHETIC_SPREAD / 2.0

  function QuoteAt(close: real): Quote { Quote(close - HALF_SPREAD, close + HALF_SPREAD) }

  /** A quote for exactly these pairs, each half a spread either side of the bar's close. */
  predicate Quotes(bars: Bars, index: nat, pairs: seq<string>, quotes: map<string, Quote>) {
    && quotes.Keys == (set pair | pair in pairs)
    && (forall pair :: pair in quotes ==>
         CurrentPrice(bars, index, pair).Some? && quotes[pair] == QuoteAt(CurrentPrice(bars, index, pair).value))
  }

  function Opened(id: int, now: int, r: OrderRequest, fill: real): Position {
    Position(id, r.pair, r.side, [FillLeg(fill, r.size, now)], fill, fill, now, r.stopLoss, r.takeProfit)
  }

  function IndexOf(positions: seq<Position>, id: int): Option<nat> {
    if positions == [] then None
    else if positions[0].id == id then Some(0)
    else match IndexOf(positions[1..], id) case None => None case Some(i) => Some(i + 1)
  }

  lemma {:induction false} IndexOfFinds(positions: seq<Position>, id: int)
    ensures match IndexOf(positions, id)
            case None => forall i :: 0 <= i < |positions| ==> positions[i].id != id
            case Some(i) => i < |positions| && positions[i].id == id &&
                            forall j :: 0 <= j < i ==> positions[j].id != id
  {
    if positions != [] && positions[0].id != id {
      var rest := positions[1..];
      IndexOfFinds(rest, id);
      assert forall j :: 0 <= j < |rest| ==> positions[j + 1] == rest[j];
    }
  }

  function ClosePrice(bars: Bars, index: nat, p: Position): real {
    match CurrentPrice(bars, index, p.pair) case Some(price) => price case None => p.currentPrice
  }

  function Wiped(l: Ledger): Ledger { Ledger([], 0.0, l.index) }

  function Apply(bars: Bars, l: Ledger, op: Op): (Ledger, Result<Order, BrokerError>) {
    match op
    case Advance => (l.(index := l.index + 1), Err(NotImplemented))
    case Submit(id, now, request, save) =>
      (match CurrentPrice(bars, l.index, request.pair)
       case None => (l, Err(MalformedResponse))
       case Some(fill) =>
         match save
         case Written =>
           (l.(positions := l.positions + [Opened(id, now, request, fill)]),
            Ok(Order(id, request.pair, request.side, request.size, fill)))
         case Refused => (l, Err(ConnectionFailed))
         case Torn => (Wiped(l), Err(ConnectionFailed)))
    case Close(id, save) =>
      (match IndexOf(l.positions, id)
       case None => (l, Err(RejectedByBroker))
       case Some(i) =>
         IndexOfFinds(l.positions, id);
         var p := l.positions[i];
         var price, size := ClosePrice(bars, l.index, p), TotalSize(p.legs);
         match save
         case Written =>
           (l.(positions := l.positions[..i] + l.positions[i + 1..],
               realized := l.realized + Gain(p.direction, size, price - p.entryPrice)),
            Ok(Order(id, p.pair, Opposite(p.direction), size, price)))
         case Refused => (l, Err(ConnectionFailed))
         case Torn => (Wiped(l), Err(ConnectionFailed)))
  }

  function Run(bars: Bars, l: Ledger, ops: seq<Op>): Ledger {
    if ops == [] then l
    else Apply(bars, Run(bars, l, ops[..|ops| - 1]), ops[|ops| - 1]).0
  }

  // ---------- The broker object ----------

  class ReplayBroker {
    const bars: Bars
    const startingEquity: real
    var positions: seq<Position>
    var realized: real
    var currentIndex: nat

    constructor (bars: Bars, startingEquity: real)
      ensures this.bars == bars && this.startingEquity == startingEquity && View() == Ledger([], 0.0, 0)
    {
      this.bars := bars;
      this.startingEquity := startingEquity;
      positions := [];
      realized := 0.0;
      currentIndex := 0;
    }

    function View(): Ledger
      reads this
    {
      Ledger(positions, realized, currentIndex)
    }

    /** Prices and spreads of the current bar, refused as soon as one pair has none. */
    method GetSnapshot(pairs: seq<string>)
      returns (r: Result<map<string, Quote>, BrokerError>, spreads: map<string, real>)
      ensures r.Ok? <==> forall pair :: pair in pairs ==> CurrentPrice(bars, currentIndex, pair).Some?
      ensures r.Ok? ==> Quotes(bars, currentIndex, pairs, r.value) && spreads.Keys == r.value.Keys
      ensures forall pair :: pair in spreads ==> spreads[pair] == SYNTHETIC_SPREAD
      ensures r.Err? ==> r.error == MalformedResponse
    {
      var prices: map<string, Quote> := map[];
      spreads := map[];
      for i := 0 to |pairs|
        invariant Quotes(bars, currentIndex, pairs[..i], prices) && spreads.Keys == prices.Keys
        invariant forall pair :: pair in spreads ==> spreads[pair] == SYNTHETIC_SPREAD
      {
        var close := CurrentPrice(bars, currentIndex, pairs[i]);
        if close == None {
          return Err(MalformedResponse), spreads;
        }
        prices := prices[pairs[i] := Quote(close.value - HALF_SPREAD, close.value + HALF_SPREAD)];
        spreads := spreads[pairs[i] := SYNTHETIC_SPREAD];
      }
      assert pairs[..|pairs|] == pairs;
      return Ok(prices), spreads;
    }

    method SubmitOrder(id: int, now: int, request: OrderRequest, save: Save) returns (r: Result<Order, BrokerError>)
      modifies this`positions, this`realized
      ensures (View(), r) == Apply(bars, old(View()), Submit(id, now, request, save))
    {
      var price := CurrentPrice(bars, currentIndex, request.pair);
      if price == None {
        return Err(MalformedResponse);
      }
      var fill := price.value;
      if save == Torn {
        positions, realized := [], 0.0;
      }
      if save != Written {
        return Err(ConnectionFailed);
      }
      positions := positions + [Opened(id, now, request, fill)];
      return Ok(Order(id, request.pair, request.side, request.size, fill));
    }

    method ClosePosition(id: int, save: Save) returns (r: Result<Order, BrokerError>)
      modifies this`positions, this`realized
      ensures (View(), r) == Apply(bars, old(View()), Close(id, save))
    {
      var found := IndexOf(positions, id);
      if found == None {
        return Err(RejectedByBroker);
      }
      IndexOfFinds(positions, id);
      var i := found.value;
      var p := positions[i];
      var price, size := ClosePrice(bars, currentIndex, p), TotalSize(p.legs);
      if save == Torn {
        positions, realized := [], 0.0;
      }
      if save != Written {
        return Err(ConnectionFailed);
      }
      positions := positions[..i] + positions[i + 1..];
      realized := realized + Gain(p.direction, size, price - p.entryPrice);
      return Ok(Order(id, p.pair, Opposite(p.direction), size, price));
    }

    method Step()
      modifies this`currentIndex
      ensures View() == Apply(bars, old(View()), Advance).0
    {
      currentIndex := currentIndex + 1;
    }

    method GetAccountEquity() returns (equity: real)
      ensures equity == AccountEquity(startingEquity, View())
    {
      equity := startingEquity + realized;
    }

    /** The shortest series, so that every pair has a price at every index below it. */
    method BarCount() returns (n: nat)
      ensures forall pair :: pair in bars ==> n <= |bars[pair]|
      ensures if bars == map[] then n == 0 else exists pair :: pair in bars && |bars[pair]| == n
    {
      var keys, best: Option<nat> := bars.Keys, None;
      while keys != {}
        invariant keys <= bars.Keys
        invariant best == None <==> keys == bars.Keys
        invariant forall pair :: pair in bars && pair !in keys ==> best.Some? && best.value <= |bars[pair]|
        invariant best.Some? ==> exists pair :: pair in bars && |bars[pair]| == best.value
        decreases keys
      {
        var pair :| pair in keys;
        keys := keys - {pair};
        if best == None || |bars[pair]| < best.value {
          best := Some(|bars[pair]|);
        }
      }
      n := if best.Some? then best.value else 0;
      assert bars != map[] ==> bars.Keys != {};
    }
  }

  // ---------- The ledger is self-financing ----------

  /** What the open positions would add if closed at the current bar. */
  function OpenValue(bars: Bars, positions: seq<Position>, index: nat): real {
    if positions == [] then 0.0
    else
      var p := positions[|positions| - 1];
      OpenValue(bars, positions[..|positions| - 1], index) + OpenGain(bars, p, index)
  }

  function OpenGain(bars: Bars, p: Position, index: nat): real {
    Gain(p.direction, TotalSize(p.legs), ClosePrice(bars, index, p) - p.entryPrice)
  }

  function AccountEquity(starting: real, l: Ledger): real { starting + l.realized }

  function MarkedEquity(bars: Bars, starting: real, l: Ledger): real {
    AccountEquity(starting, l) + OpenValue(bars, l.positions, l.index)
  }

  /** direction * size * change of price, over the positions held through a step to the next bar. */
  function MarketMove(bars: Bars, positions: seq<Position>, index: nat): real {
    if positions == [] then 0.0
    else
      var p := positions[|positions| - 1];
      MarketMove(bars, positions[..|positions| - 1], index)
      + Gain(p.direction, TotalSize(p.legs), ClosePrice(bars, index + 1, p) - ClosePrice(bars, index, p))
  }

  lemma {:induction false} OpenValueAppend(bars: Bars, s: seq<Position>, t: seq<Position>, index: nat)
    ensures OpenValue(bars, s + t, index) == OpenValue(bars, s, index) + OpenValue(bars, t, index)
  {
    if t == [] {
      assert s + t == s;
    } else {
      hide OpenGain;
      assert (s + t)[..|s + t| - 1] == s + t[..|t| - 1];
      OpenValueAppend(bars, s, t[..|t| - 1], index);
    }
  }

  lemma OpenValueOne(bars: Bars, p: Position, index: nat)
    ensures OpenValue(bars, [p], index) == OpenGain(bars, p, index)
  {
    hide OpenGain;
    assert [p][..0] == [];
    assert OpenValue(bars, [], index) == 0.0;
  }

  lemma GainSplits(direction: Direction, size: real, a: real, b: real)
    ensures Gain(direction, size, a + b) == Gain(direction, size, a) + Gain(direction, size, b)
    ensures Gain(direction, size, 0.0) == 0.0
  {
    assert (a + b) * size == a * size + b * size;
  }

  lemma {:induction false} OpenValueMoves(bars: Bars, positions: seq<Position>, index: nat)
    ensures OpenValue(bars, positions, index + 1)
         == OpenValue(bars, positions, index) + MarketMove(bars, positions, index)
  {
    if positions != [] {
      hide Gain, ClosePrice, TotalSize;
      var p := positions[|positions| - 1];
      OpenValueMoves(bars, positions[..|positions| - 1], index);
      GainSplits(p.direction, TotalSize(p.legs), ClosePrice(bars, index, p) - p.entryPrice,
                 ClosePrice(bars, index + 1, p) - ClosePrice(bars, index, p));
      assert ClosePrice(bars, index, p) - p.entryPrice + (ClosePrice(bars, index + 1, p) - ClosePrice(bars, index, p))
          == ClosePrice(bars, index + 1, p) - p.entryPrice;
    }
  }

  lemma RemovedValue(bars: Bars, positions: seq<Position>, i: nat, index: nat)
    requires i < |positions|
    ensures OpenValue(bars, positions, index)
         == OpenValue(bars, positions[..i] + positions[i + 1..], index) + OpenGain(bars, positions[i], index)
  {
    var left, p, right := positions[..i], positions[i], positions[i + 1..];
    assert positions == left + [p] + right;
    hide OpenValue, OpenGain;
    OpenValueAppend(bars, left + [p], right, index);
    OpenValueAppend(bars, left, [p], index);
    OpenValueAppend(bars, left, right, index);
    OpenValueOne(bars, p, index);
  }

  /** The operation gets as far as a save that is torn. */
  predicate Tears(bars: Bars, l: Ledger, op: Op) {
    match op
    case Submit(_, _, request, save) => save == Torn && CurrentPrice(bars, l.index, request.pair).Some?
    case Close(id, save) => save == Torn && IndexOf(l.positions, id).Some?
    case Advance => false
  }

  /** What the account has made, realized and open. */
  function Made(bars: Bars, l: Ledger): real { l.realized + OpenValue(bars, l.positions, l.index) }

  function Lost(bars: Bars, l: Ledger, op: Op): real { if Tears(bars, l, op) then Made(bars, l) else 0.0 }

  function Move(bars: Bars, l: Ledger, op: Op): real {
    if op.Advance? then MarketMove(bars, l.positions, l.index) else 0.0
  }

  /** No submit or close changes marked equity, be it carried out, refused or kept from being saved; an advance changes
      it by exactly the market move on what is held; and a torn save wipes out all that was made. */
  lemma SelfFinancing(bars: Bars, starting: real, l: Ledger, op: Op)
    ensures MarkedEquity(bars, starting, Apply(bars, l, op).0)
         == MarkedEquity(bars, starting, l) + Move(bars, l, op) - Lost(bars, l, op)
  {
    match op {
      case Advance =>
        hide OpenValue, MarketMove;
        OpenValueMoves(bars, l.positions, l.index);
      case Submit(id, now, request, save) =>
        SubmitKeepsEquity(bars, starting, l, id, now, request, save);
      case Close(id, save) =>
        CloseKeepsEquity(bars, starting, l, id, save);
    }
  }

  /** So the ledger finances itself across an operation exactly if no save is torn, or there was nothing to lose. */
  lemma SelfFinancingIff(bars: Bars, starting: real, l: Ledger, op: Op)
    ensures MarkedEquity(bars, starting, Apply(bars, l, op).0)
            == MarkedEquity(bars, starting, l) + Move(bars, l, op) <==>
            !Tears(bars, l, op) || Made(bars, l) == 0.0
  {
    SelfFinancing(bars, starting, l, op);
    hide Apply, MarketMove, OpenValue, Tears;
  }

  lemma WipedEquity(bars: Bars, starting: real, l: Ledger)
    ensures MarkedEquity(bars, starting, Wiped(l)) == starting == MarkedEquity(bars, starting, l) - Made(bars, l)
  {
    assert OpenValue(bars, [], l.index) == 0.0;
  }

  lemma SubmitKeepsEquity(bars: Bars, starting: real, l: Ledger, id: int, now: int, request: OrderRequest, save: Save)
    ensures var op := Submit(id, now, request, save);
            MarkedEquity(bars, starting, Apply(bars, l, op).0) == MarkedEquity(bars, starting, l) - Lost(bars, l, op)
  {
    WipedEquity(bars, starting, l);
    hide OpenValue, OpenGain, Opened, Wiped;
    if CurrentPrice(bars, l.index, request.pair).Some? && save == Written {
      var p := Opened(id, now, request, CurrentPrice(bars, l.index, request.pair).value);
      NewPositionIsFlat(bars, l.index, id, now, request);
      OpenValueAppend(bars, l.positions, [p], l.index);
      OpenValueOne(bars, p, l.index);
    }
  }

  lemma CloseKeepsEquity(bars: Bars, starting: real, l: Ledger, id: int, save: Save)
    ensures var op := Close(id, save);
            MarkedEquity(bars, starting, Apply(bars, l, op).0) == MarkedEquity(bars, starting, l) - Lost(bars, l, op)
  {
    WipedEquity(bars, starting, l);
    hide OpenValue, Gain, ClosePrice, TotalSize, IndexOf, Wiped;
    IndexOfFinds(l.positions, id);
    if IndexOf(l.positions, id).Some? && save == Written {
      RemovedValue(bars, l.positions, IndexOf(l.positions, id).value, l.index);
    }
  }

  lemma NewPositionIsFlat(bars: Bars, index: nat, id: int, now: int, request: OrderRequest)
    requires CurrentPrice(bars, index, request.pair).Some?
    ensures OpenGain(bars, Opened(id, now, request, CurrentPrice(bars, index, request.pair).value), index) == 0.0
  {
    hide TotalSize;
    var fill := CurrentPrice(bars, index, request.pair).value;
    GainSplits(request.side, TotalSize([FillLeg(fill, request.size, now)]), 0.0, 0.0);
  }

  /** The market moves met along a run, less what torn saves have wiped out. */
  function Moves(bars: Bars, l: Ledger, ops: seq<Op>): real {
    if ops == [] then 0.0
    else
      var before, op := Run(bars, l, ops[..|ops| - 1]), ops[|ops| - 1];
      Moves(bars, l, ops[..|ops| - 1]) + Move(bars, before, op) - Lost(bars, before, op)
  }

  /** Over any run, equity at the start plus every market move, less every wipe-out, is equity at the end, realized or
      still open. */
  lemma {:induction false} RunIsSelfFinancing(bars: Bars, starting: real, l: Ledger, ops: seq<Op>)
    ensures MarkedEquity(bars, starting, Run(bars, l, ops)) == MarkedEquity(bars, starting, l) + Moves(bars, l, ops)
  {
    if ops != [] {
      hide Apply, Move, Lost;
      RunIsSelfFinancing(bars, starting, l, ops[..|ops| - 1]);
      SelfFinancing(bars, starting, Run(bars, l, ops[..|ops| - 1]), ops[|ops| - 1]);
    }
  }

  /** A run from a fresh account that ends flat has earned exactly the market moves it held through, less what was
      wiped out. */
  lemma FlatRunEarnsMoves(bars: Bars, starting: real, ops: seq<Op>)
    ensures var l := Run(bars, Ledger([], 0.0, 0), ops);
            l.positions == [] ==> AccountEquity(starting, l) == starting + Moves(bars, Ledger([], 0.0, 0), ops)
  {
    RunIsSelfFinancing(bars, starting, Ledger([], 0.0, 0), ops);
  }

  // ---------- One trade there and back ----------

  function Advances(n: nat): seq<Op> {
    if n == 0 then [] else Advances(n - 1) + [Advance]
  }

  lemma {:induction false} AdvancesOnlyMove(bars: Bars, l: Ledger, n: nat)
    ensures Run(bars, l, Advances(n)) == l.(index := l.index + n)
  {
    if n > 0 {
      hide Run;
      AdvancesOnlyMove(bars, l, n - 1);
      RunInParts(bars, l, Advances(n - 1), [Advance]);
      RunOne(bars, l.(index := l.index + n - 1), Advance);
    }
  }

  lemma NewestIsFound(positions: seq<Position>, p: Position)
    requires forall i :: 0 <= i < |positions| ==> positions[i].id != p.id
    ensures IndexOf(positions + [p], p.id) == Some(|positions|)
  {
    IndexOfFinds(positions + [p], p.id);
    hide IndexOf;
    var all := positions + [p];
    assert all[|positions|] == p;
    assert forall i :: 0 <= i < |positions| ==> all[i] == positions[i];
  }

  /** Opening a position and closing it some bars later leaves the book as it was and realizes exactly what the
      price did in between. */
  lemma SubmitThenClose(bars: Bars, l: Ledger, id: int, now: int, request: OrderRequest, held: nat)
    requires forall i :: 0 <= i < |l.positions| ==> l.positions[i].id != id
    requires CurrentPrice(bars, l.index, request.pair).Some? && CurrentPrice(bars, l.index + held, request.pair).Some?
    ensures var fill := CurrentPrice(bars, l.index, request.pair).value;
            var price := CurrentPrice(bars, l.index + held, request.pair).value;
              Run(bars, l, [Submit(id, now, request, Written)] + Advances(held) + [Close(id, Written)])
              == Ledger(l.positions, l.realized + Gain(request.side, request.size, price - fill), l.index + held)
  {
    hide Run, Gain, CurrentPrice, Advances;
    var fill := CurrentPrice(bars, l.index, request.pair).value;
    var open := l.(positions := l.positions + [Opened(id, now, request, fill)]);
    RunOne(bars, l, Submit(id, now, request, Written));
    AdvancesOnlyMove(bars, open, held);
    RunOne(bars, open.(index := l.index + held), Close(id, Written));
    CloseNewest(bars, l, id, now, request, held);
    hide Apply;
    RunInParts(bars, l, [Submit(id, now, request, Written)], Advances(held));
    RunInParts(bars, l, [Submit(id, now, request, Written)] + Advances(held), [Close(id, Written)]);
  }

  lemma CloseNewest(bars: Bars, l: Ledger, id: int, now: int, request: OrderRequest, held: nat)
    requires forall i :: 0 <= i < |l.positions| ==> l.positions[i].id != id
    requires CurrentPrice(bars, l.index, request.pair).Some? && CurrentPrice(bars, l.index + held, request.pair).Some?
    ensures var fill := CurrentPrice(bars, l.index, request.pair).value;
            var price := CurrentPrice(bars, l.index + held, request.pair).value;
            var open := Ledger(l.positions + [Opened(id, now, request, fill)], l.realized, l.index + held);
              Apply(bars, open, Close(id, Written)).0
              == Ledger(l.positions, l.realized + Gain(request.side, request.size, price - fill), l.index + held)
  {
    hide CurrentPrice, IndexOf, Gain, TotalSize;
    var fill := CurrentPrice(bars, l.index, request.pair).value;
    var p := Opened(id, now, request, fill);
    NewestIsFound(l.positions, p);
    SizeOfOneLeg(FillLeg(fill, request.size, now));
    var all := l.positions + [p];
    assert all[..|l.positions|] + all[|l.positions| + 1..] == l.positions;
  }

  lemma RunOne(bars: Bars, l: Ledger, op: Op)
    ensures Run(bars, l, [op]) == Apply(bars, l, op).0
  {
    hide Apply;
    assert [op][..0] == [];
  }

  // ---------- The replay loop ----------

  lemma {:induction false} RunInParts(bars: Bars, l: Ledger, a: seq<Op>, b: seq<Op>)
    ensures Run(bars, l, a + b) == Run(bars, Run(bars, l, a), b)
  {
    if b == [] {
      assert a + b == a;
    } else {
      hide Apply;
      assert (a + b)[..|a + b| - 1] == a + b[..|b| - 1];
      RunInParts(bars, l, a, b[..|b| - 1]);
    }
  }

  predicate OrdersOnly(ops: seq<Op>) {
    forall i :: 0 <= i < |ops| ==> !ops[i].Advance?
  }

  /** The orders of one cycle, sent one by one. */
  method SendOrders(broker: ReplayBroker, orders: seq<Op>)
    requires OrdersOnly(orders)
    modifies broker`positions, broker`realized
    ensures broker.View() == Run(broker.bars, old(broker.View()), orders)
  {
    for j := 0 to |orders|
      invariant broker.View() == Run(broker.bars, old(broker.View()), orders[..j])
    {
      hide Apply;
      assert orders[..j + 1][..j] == orders[..j];
      match orders[j] {
        case Submit(id, now, request, save) => var _ := broker.SubmitOrder(id, now, request, save);
        case Close(id, save) => var _ := broker.ClosePosition(id, save);
      }
    }
    assert orders[..|orders|] == orders;
  }

  /** What a replay does up to the orders of bar n, with one advance between bars. */
  function Lead(cycles: nat -> seq<Op>, n: nat): seq<Op>
    decreases n, 1
  {
    if n == 0 then [] else Script(cycles, n) + [Advance]
  }

  /** What a replay does over n bars: each bar's orders after what led up to them. */
  function Script(cycles: nat -> seq<Op>, n: nat): seq<Op>
    decreases n, 0
  {
    if n == 0 then [] else Lead(cycles, n - 1) + cycles(n - 1)
  }

  /** What has been done when bar cycles of n are over: after the last one there is no advance. */
  function Played(cycles: nat -> seq<Op>, bar: nat, n: nat): seq<Op> {
    if bar < n then Lead(cycles, bar) else Script(cycles, n)
  }

  lemma PlayedOneMore(bars: Bars, l: Ledger, cycles: nat -> seq<Op>, bar: nat, n: nat)
    requires bar < n
    ensures var sent := Run(bars, Run(bars, l, Played(cycles, bar, n)), cycles(bar));
              Run(bars, l, Played(cycles, bar + 1, n))
              == if bar + 1 < n then Apply(bars, sent, Advance).0 else sent
  {
    RunInParts(bars, l, Lead(cycles, bar), cycles(bar));
    var done := Script(cycles, bar + 1);
    assert (done + [Advance])[..|done|] == done;
  }

  /** One cycle per bar, with arbitrary orders; refused when there is no bar at all. Every pair is priced at
      every bar visited. */
  method RunReplay(bars: Bars, startingEquity: real, cycles: nat -> seq<Op>) returns (r: Option<real>, n: nat)
    requires forall bar :: OrdersOnly(cycles(bar))
    ensures forall pair, bar :: pair in bars && 0 <= bar < n ==> CurrentPrice(bars, bar, pair).Some?
    ensures r == if n == 0 then None
                 else Some(AccountEquity(startingEquity, Run(bars, Ledger([], 0.0, 0), Script(cycles, n))))
    ensures n == 0 ==> bars == map[] || exists pair :: pair in bars && bars[pair] == []
  {
    var broker := new ReplayBroker(bars, startingEquity);
    n := broker.BarCount();
    if n == 0 {
      return None, n;
    }
    ghost var fresh0 := broker.View();
    for bar := 0 to n
      invariant fresh(broker) && broker.bars == bars && broker.startingEquity == startingEquity
      invariant broker.View() == Run(bars, fresh0, Played(cycles, bar, n))
    {
      hide Apply, Run, Played, CurrentPrice;
      SendOrders(broker, cycles(bar));
      PlayedOneMore(bars, fresh0, cycles, bar, n);
      if bar + 1 < n {
        broker.Step();
      }
    }
    var equity := broker.GetAccountEquity();
    r := Some(equity);
  }
}
