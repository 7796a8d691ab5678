/** The trading cycle of `daemon/src/main.rs` over whole runs: reconcile at start, sweep exits, try entries,
    reconcile after every fill. The broker may close or re-mark positions between any two calls, may lose the
    answer to an order it filled, and may fill an order long after its call has ended; signals, prices, exits and
    failures are arbitrary. */
module Cycle {
  import opened Prelude
  import opened Domain
  import opened Smt
  import opened Risk
  import opened Recovery
  import opened Exposure
  import opened NewYork
  import opened RealArith

  const MIN_BETWEEN_ENTRIES: int := 170 * MINUTE

  /** Whether some known position on the pair is too recent for another. */
  predicate AlreadyEntered(pair: string, known: seq<Position>, now: int) {
    exists p :: p in known && p.pair == pair && now - p.entryTime < MIN_BETWEEN_ENTRIES
  }

  // ---------- The state machine ----------

  datatype Phase =
    | Idle
    | Started(known: seq<Position>)
    | Sweeping(known: seq<Position>, now: int, closing: bool)
    | Entering(known: seq<Position>, now: int)
    | Submitted(known: seq<Position>, now: int)

  /** An order as sent: what it is for, and the clock reading of its cycle. */
  datatype Order = Order(signal: Signal, size: real, stopLoss: real, takeProfit: real, placedAt: int)

  /** The broker's open positions, the first id it has not used, the daemon's position log, where the daemon is in its
      cycle, and the orders whose call has ended but which the broker may still fill. As history: the ids so filled
      since the last reconciliation, and ever. The phase does not outlive a cycle. */
  datatype State = State(open: seq<Position>, nextId: int, log: seq<Position>, phase: Phase,
                         late: seq<Order>, strays: set<int>, tardy: set<int>)

  /** A fill: how many ids the broker skipped, at what price, and how long after the cycle's clock reading. */
  datatype Fill = Fill(skipped: nat, price: real, delay: int)

  /** An answer to a listing: the broker's book at that time, whether it answered, and how many of the
      reconciled positions could then be appended to the log. */
  datatype Listing = Listing(book: seq<Position>, answered: bool, saved: nat)

  /** What a cycle wants to buy or sell: the signal, the account and prices it was judged on (none if equity could not
      be read), and the pair whose exposure counts as correlated, if the correlation is strong enough. */
  datatype Proposal = Proposal(signal: Signal, context: Option<RiskContext>, counterpart: Option<string>)

  /** What becomes of an order: a fill, or an order that may yet be filled, or neither; and whether an answer came. */
  datatype Handling = Handling(book: seq<Position>, fill: Option<Fill>, lingers: bool, acknowledged: bool)

  datatype Event =
    | BrokerMoves(book: seq<Position>)
    | Stop
    | Start(startBook: seq<Position>, answered: bool)
    | ReadClock(now: int)
    | CloseExit(exitBook: seq<Position>, id: int, closed: bool)
    | EndSweep(swept: Listing)
    | Submit(proposal: Proposal, handling: Handling)
    | Record(recorded: Listing)
    | LateFill(which: nat, lateFill: Fill)
    | LateGone(dropped: nat)

  predicate SameTrade(p: Position, q: Position) {
    p.id == q.id && p.pair == q.pair && p.entryTime == q.entryTime
  }

  /** Every record here is about a trade recorded there. */
  predicate Echoes(here: set<Position>, there: set<Position>) {
    forall p :: p in here ==> exists q :: q in there && SameTrade(p, q)
  }

  function Set(positions: seq<Position>): set<Position> { set p | p in positions }

  /** The broker's own doing: positions may go, be listed in another order or be marked anew, but none appear. */
  predicate Moves(open: seq<Position>, book: seq<Position>) {
    DistinctIds(book) && Echoes(Set(book), Set(open))
  }

  function Settled(open: seq<Position>, book: seq<Position>): seq<Position> {
    if Moves(open, book) then book else open
  }

  function Without(open: seq<Position>, id: int): seq<Position> { Filter(open, {id}, false) }

  function Opened(id: int, o: Order, fill: Fill): Position {
    var at := o.placedAt + fill.delay;
    Position(id, o.signal.pair, o.signal.direction, [FillLeg(fill.price, o.size, at)], fill.price, fill.price, at,
             Some(o.stopLoss), Some(o.takeProfit))
  }

  /** Sizes open on the counterpart, read as exposure. */
  function CorrelatedExposure(known: seq<Position>, counterpart: Option<string>): real {
    if known == [] || counterpart == None then 0.0
    else
      var p := known[|known| - 1];
      CorrelatedExposure(known[..|known| - 1], counterpart)
      + if p.pair == counterpart.value then TotalSize(p.legs) else 0.0
  }

  /** The risk engine's answer, told of the positions the daemon knows to be open. */
  function Decision(config: RiskConfig, known: seq<Position>, p: Proposal): RiskDecision
    requires p.context.Some?
  {
    Evaluate(p.signal, config,
             p.context.value.(openPositionCount := |known|, currencyExposure := SnapshotOf(known),
                              correlatedExposure := CorrelatedExposure(known, p.counterpart)))
  }

  function OrderFor(signal: Signal, d: RiskDecision, now: int): Order
    requires d.Approved?
  {
    Order(signal, d.size, d.stopLoss, d.takeProfit, now)
  }

  function Filled(s: State, o: Order, f: Fill): State {
    var id := s.nextId + f.skipped;
    s.(open := s.open + [Opened(id, o, f)], nextId := id + 1)
  }

  function Handled(s: State, o: Order, h: Handling): State {
    if h.fill.Some? then Filled(s, o, h.fill.value)
    else if h.lingers then s.(late := s.late + [o])
    else s
  }

  /** List, reconcile, and append what is left to the log; any failure on the way ends the cycle. */
  function Relisted(s: State, known: seq<Position>, now: int, l: Listing): State {
    var s' := s.(open := Settled(s.open, l.book));
    if !l.answered then s'.(phase := Idle)
    else
      var left := Reconciled(s'.open, known);
      if |left| <= l.saved then s'.(log := s.log + left, phase := Entering(left, now), strays := {})
      else s'.(log := s.log + left[..l.saved], phase := Idle, strays := {})
  }

  function TrySubmit(config: RiskConfig, s: State, p: Proposal, h: Handling): State
    requires s.phase.Entering?
  {
    var known, now := s.phase.known, s.phase.now;
    if AlreadyEntered(p.signal.pair, known, now) then s
    else if p.context == None then s.(phase := Idle)
    else
      var d := Decision(config, known, p);
      if d.Rejected? then s
      else Handled(Sent(s, h), OrderFor(p.signal, d, now), h)
  }

  /** The order is on its way: the book as it is then, and where the daemon will be once the call ends. */
  function Sent(s: State, h: Handling): State
    requires s.phase.Entering?
  {
    s.(open := Settled(s.open, h.book),
       phase := if h.acknowledged then Submitted(s.phase.known, s.phase.now) else Idle)
  }

  function Dropped<T>(s: seq<T>, k: nat): seq<T>
    requires k < |s|
  {
    s[..k] + s[k + 1..]
  }

  function FilledLate(s: State, k: nat, f: Fill): State
    requires k < |s.late|
  {
    var id := s.nextId + f.skipped;
    Filled(s.(late := Dropped(s.late, k), strays := s.strays + {id}, tardy := s.tardy + {id}), s.late[k], f)
  }

  /** One step. An event that does not fit where the daemon stands changes nothing. */
  function Next(config: RiskConfig, s: State, e: Event): State {
    match e
    case BrokerMoves(book) => s.(open := Settled(s.open, book))
    case Stop => s.(phase := Idle)
    case Start(book, answered) =>
      if !s.phase.Idle? then s
      else
        var open := Settled(s.open, book);
        if answered then s.(open := open, phase := Started(Reconciled(open, s.log)), strays := {})
        else s.(open := open)
    case ReadClock(now) => if s.phase.Started? then s.(phase := Sweeping(s.phase.known, now, false)) else s
    case CloseExit(book, id, closed) =>
      if !s.phase.Sweeping? then s
      else
        var open := Settled(s.open, book);
        s.(open := if closed then Without(open, id) else open, phase := Sweeping(s.phase.known, s.phase.now, true))
    case EndSweep(l) =>
      if !s.phase.Sweeping? then s
      else if !s.phase.closing then s.(phase := Entering(s.phase.known, s.phase.now))
      else Relisted(s, s.phase.known, s.phase.now, l)
    case Submit(p, h) => if s.phase.Entering? then TrySubmit(config, s, p, h) else s
    case Record(l) => if s.phase.Submitted? then Relisted(s, s.phase.known, s.phase.now, l) else s
    case LateFill(k, f) => if k < |s.late| then FilledLate(s, k, f) else s
    case LateGone(k) => if k < |s.late| then s.(late := Dropped(s.late, k)) else s
  }

  function Run(config: RiskConfig, s: State, events: seq<Event>): State
    decreases |events|
  {
    if events == [] then s else Run(config, Next(config, s, events[0]), events[1..])
  }

  // ---------- What the risk engine is told ----------

  /** What counts as correlated is the total size of all legs open on the counterpart. */
  lemma {:induction false} CorrelatedIsTotal(known: seq<Position>, pair: string)
    ensures CorrelatedExposure(known, Some(pair)) == TotalSize(LegsOn(known, pair))
  {
    if known != [] {
      var p := known[|known| - 1];
      CorrelatedIsTotal(known[..|known| - 1], pair);
      TotalSizeAppend(LegsOn(known[..|known| - 1], pair), if p.pair == pair then p.legs else []);
      assert TotalSize([]) == 0.0;
      hide TotalSize;
    }
  }

  function SizeOn(known: seq<Position>, counterpart: Option<string>): real {
    match counterpart case None => 0.0 case Some(pair) => TotalSize(LegsOn(known, pair))
  }

  /** A proposal is taken up exactly if there is room beside the positions known, their book with the trade in it stays
      within the cap on both its currencies, and its risk fits beside what is open on the counterpart. */
  lemma DecisionIff(config: RiskConfig, known: seq<Position>, p: Proposal, trade: Position)
    requires p.context.Some? && TwoCurrencies(p.signal.pair)
    requires IsTradeAtRisk(trade, p.signal, config, p.context.value)
    ensures var context := p.context.value;
            Decision(config, known, p).Approved? <==>
              && HasRoom(config, context.(openPositionCount := |known|))
              && WithinCurrencyCap(known, trade, config, context.equity)
              && SizeOn(known, p.counterpart) + RiskCurrency(config, context)
                 <= Product(context.equity, config.maxCorrelationExposure)
  {
    var context := p.context.value.(openPositionCount := |known|, currencyExposure := SnapshotOf(known),
                                    correlatedExposure := CorrelatedExposure(known, p.counterpart));
    hide Evaluate, WithinCurrencyCap, TotalSize, Product, SnapshotOf, CurrencyPair;
    ApprovedIff(p.signal, config, context, known, trade);
    if p.counterpart.Some? {
      CorrelatedIsTotal(known, p.counterpart.value);
    }
  }

  // ---------- What every step keeps ----------

  function KnownTo(phase: Phase): seq<Position> {
    if phase.Idle? then [] else phase.known
  }

  function Records(s: State): set<Position> {
    Set(s.open) + Set(s.log) + Set(KnownTo(s.phase))
  }

  /** Records with one id are about one trade, and the broker has moved past every id on record. */
  predicate Coherent(records: set<Position>, nextId: int) {
    && (forall p, q :: p in records && q in records && p.id == q.id ==> SameTrade(p, q))
    && (forall p :: p in records ==> p.id < nextId)
  }

  predicate Surveyed(phase: Phase) { phase.Started? || phase.Sweeping? || phase.Entering? }

  /** From one reconciliation to the next order, whatever the broker has open is known, or was filled late since. */
  predicate Covered(s: State) {
    Surveyed(s.phase) ==> Ids(s.open) <= Ids(s.phase.known) + s.strays
  }

  /** Says nothing of the log but coherence: it may repeat positions and list ones long gone. */
  predicate Sound(s: State) {
    DistinctIds(s.open) && Coherent(Records(s), s.nextId) && Covered(s) && s.strays <= s.tardy
  }

  lemma EchoCoherent(here: set<Position>, there: set<Position>, nextId: int)
    requires Coherent(there, nextId) && Echoes(here, there)
    ensures Coherent(here, nextId)
  {
    forall p, q | p in here && q in here && p.id == q.id
      ensures SameTrade(p, q)
    {
      var p', q' :| p' in there && SameTrade(p, p') && q' in there && SameTrade(q, q');
      assert SameTrade(p', q');
    }
  }

  lemma SettledKeeps(open: seq<Position>, book: seq<Position>)
    requires DistinctIds(open)
    ensures var o := Settled(open, book);
            DistinctIds(o) && Echoes(Set(o), Set(open)) && Ids(o) <= Ids(open)
    ensures |Settled(open, book)| <= |open|
  {
    var o := Settled(open, book);
    assert forall p :: p in open ==> SameTrade(p, p);
    assert Ids(o) <= Ids(open) by {
      forall p | p in o
        ensures p.id in Ids(open)
      {
        assert p in Set(o);
        var q :| q in Set(open) && SameTrade(p, q);
      }
    }
    IdsCount(o);
    IdsCount(open);
    Subset(Ids(o), Ids(open));
  }

  lemma Subset(a: set<int>, b: set<int>)
    requires a <= b
    ensures |a| <= |b|
  {
    assert b == a + (b - a);
  }

  lemma {:induction false} FilterDistinct(positions: seq<Position>, ids: set<int>, inside: bool)
    requires DistinctIds(positions)
    ensures DistinctIds(Filter(positions, ids, inside))
    ensures |Filter(positions, ids, inside)| <= |positions|
  {
    if positions != [] {
      var rest := positions[..|positions| - 1];
      FilterDistinct(rest, ids, inside);
      forall p | p in Filter(rest, ids, inside)
        ensures p.id != positions[|positions| - 1].id
      {
        FilterMembers(rest, ids, inside, p);
      }
    }
  }

  lemma WithoutKeeps(open: seq<Position>, id: int)
    requires DistinctIds(open)
    ensures DistinctIds(Without(open, id)) && Set(Without(open, id)) <= Set(open)
    ensures Ids(Without(open, id)) == Ids(open) - {id} && |Without(open, id)| <= |open|
  {
    FilterDistinct(open, {id}, false);
    FilterIds(open, {id}, false);
    forall p | p in Without(open, id)
      ensures p in open
    {
      FilterMembers(open, {id}, false, p);
    }
  }

  lemma ReconciledFrom(open: seq<Position>, known: seq<Position>)
    ensures Set(Reconciled(open, known)) <= Set(open) + Set(known)
  {
    forall p | p in Reconciled(open, known)
      ensures p in open || p in known
    {
      ReconciledMembers(open, known, p);
    }
  }

  /** A state whose records only echo those of a sound one is itself coherent. */
  lemma StillSound(s: State, t: State)
    requires Sound(s) && t.nextId == s.nextId && DistinctIds(t.open) && Covered(t) && t.strays <= t.tardy
    requires Echoes(Set(t.open), Set(s.open))
    requires Set(t.log) <= Set(s.log) + Set(t.open) + Set(KnownTo(s.phase))
    requires Set(KnownTo(t.phase)) <= Set(s.log) + Set(t.open) + Set(KnownTo(s.phase))
    ensures Sound(t)
  {
    hide DistinctIds, Covered, Set, KnownTo, Coherent;
    forall p | p in Records(t)
      ensures exists q :: q in Records(s) && SameTrade(p, q)
    {
      if p in Set(t.open) {
        var q :| q in Set(s.open) && SameTrade(p, q);
        assert q in Records(s);
      } else {
        assert p in Records(s) && SameTrade(p, p);
      }
    }
    EchoCoherent(Records(t), Records(s), s.nextId);
  }

  lemma SetOfAppend(log: seq<Position>, left: seq<Position>, n: nat)
    requires n <= |left|
    ensures Set(log + left[..n]) <= Set(log) + Set(left)
  {
  }

  /** A reconciliation, however far it got. */
  lemma SoundReconciled(s: State, t: State, book: seq<Position>, base: seq<Position>, saved: nat)
    requires Sound(s) && t.nextId == s.nextId && t.open == Settled(s.open, book)
    requires t.strays <= s.strays && t.tardy == s.tardy
    requires base == s.log || base == KnownTo(s.phase)
    requires saved <= |Reconciled(t.open, base)| && t.log == s.log + Reconciled(t.open, base)[..saved]
    requires t.phase.Idle? || ((t.phase.Started? || t.phase.Entering?) && t.phase.known == Reconciled(t.open, base))
    ensures Sound(t)
  {
    hide Reconciled, Settled, Coherent, DistinctIds, Ids, SameTrade, Set;
    SettledKeeps(s.open, book);
    var left := Reconciled(t.open, base);
    ReconciledFrom(t.open, base);
    ReconciledIds(t.open, base);
    SetOfAppend(s.log, left, saved);
    assert Set([]) == {} by { NoneIn(); }
    assert Covered(t);
    StillSound(s, t);
  }

  lemma NoneIn()
    ensures Set([]) == {}
  {
  }

  lemma SoundRelisted(s: State, l: Listing)
    requires Sound(s) && !s.phase.Idle? && !s.phase.Started?
    ensures Sound(Relisted(s, s.phase.known, s.phase.now, l))
  {
    hide Reconciled, Settled, Sound;
    var known := s.phase.known;
    var t := Relisted(s, known, s.phase.now, l);
    var left := Reconciled(t.open, known);
    assert left[..0] == [] && left[..|left|] == left && s.log + [] == s.log;
    SoundReconciled(s, t, l.book, known, if !l.answered then 0 else if |left| <= l.saved then |left| else l.saved);
  }

  lemma SoundStart(s: State, book: seq<Position>)
    requires Sound(s) && s.phase.Idle?
    ensures Sound(s.(open := Settled(s.open, book), phase := Started(Reconciled(Settled(s.open, book), s.log)),
                     strays := {}))
  {
    hide Reconciled, Settled, Sound;
    var open := Settled(s.open, book);
    assert Reconciled(open, s.log)[..0] == [] && s.log + [] == s.log;
    SoundReconciled(s, s.(open := open, phase := Started(Reconciled(open, s.log)), strays := {}), book, s.log, 0);
  }

  lemma SoundOpened(s: State, t: State, p: Position)
    requires Sound(s) && t.open == s.open + [p] && p.id >= s.nextId && t.nextId == p.id + 1
    requires t.log == s.log && t.phase == s.phase && t.strays <= t.tardy && s.strays <= t.strays
    requires Surveyed(s.phase) ==> p.id in t.strays
    ensures Sound(t)
  {
    IdsOfAppend(s.open, p);
    assert Records(t) == Records(s) + {p};
    assert forall q :: q in Records(s) ==> q.id < p.id;
    assert forall i :: 0 <= i < |s.open| ==> s.open[i] in Records(s);
    hide Ids;
    assert Covered(t);
  }

  lemma IdsOfAppend(open: seq<Position>, p: Position)
    ensures Ids(open + [p]) == Ids(open) + {p.id}
  {
  }

  lemma SoundLate(s: State, k: nat, f: Fill)
    requires Sound(s) && k < |s.late|
    ensures Sound(FilledLate(s, k, f))
  {
    var t := FilledLate(s, k, f);
    hide Sound, Surveyed;
    assert s.strays <= s.tardy by { SoundStrays(s); }
    SoundOpened(s, t, t.open[|s.open|]);
  }

  lemma SoundStrays(s: State)
    requires Sound(s)
    ensures s.strays <= s.tardy
  {
  }

  lemma SoundMove(s: State, t: State, book: seq<Position>)
    requires Sound(s) && t.nextId == s.nextId && t.log == s.log && t.strays == s.strays && t.tardy == s.tardy
    requires t.open == Settled(s.open, book) || exists id :: t.open == Without(Settled(s.open, book), id)
    requires t.phase.Idle? || t.phase == s.phase ||
             (KnownTo(t.phase) == KnownTo(s.phase) && !s.phase.Submitted? && !s.phase.Idle?)
    ensures Sound(t)
  {
    hide Settled, Without, Coherent, Ids, DistinctIds;
    SettledKeeps(s.open, book);
    if t.open != Settled(s.open, book) {
      var id :| t.open == Without(Settled(s.open, book), id);
      WithoutKeeps(Settled(s.open, book), id);
    }
    assert Ids(t.open) <= Ids(s.open);
    assert Surveyed(t.phase) ==> Ids(t.open) <= Ids(t.phase.known) + t.strays;
    StillSound(s, t);
  }

  lemma SoundSubmit(config: RiskConfig, s: State, p: Proposal, h: Handling)
    requires Sound(s) && s.phase.Entering?
    ensures Sound(TrySubmit(config, s, p, h))
  {
    hide Sound, Decision, AlreadyEntered, Settled, Without, Opened, Sent;
    SettledSelf(s.open);
    SoundMove(s, s.(phase := Idle), s.open);
    SoundSent(s, h);
    if p.context.Some? && Decision(config, s.phase.known, p).Approved? {
      SoundHandled(Sent(s, h), OrderFor(p.signal, Decision(config, s.phase.known, p), s.phase.now), h);
    }
  }

  lemma SoundSent(s: State, h: Handling)
    requires Sound(s) && s.phase.Entering?
    ensures Sound(Sent(s, h)) && (Sent(s, h).phase.Idle? || Sent(s, h).phase.Submitted?)
  {
    hide Settled, Coherent, DistinctIds, Ids;
    SettledKeeps(s.open, h.book);
    StillSound(s, Sent(s, h));
  }

  lemma SoundHandled(s: State, o: Order, h: Handling)
    requires Sound(s) && (s.phase.Idle? || s.phase.Submitted?)
    ensures Sound(Handled(s, o, h))
  {
    var t := Handled(s, o, h);
    if h.fill.Some? {
      hide Sound;
      SoundStrays(s);
      SoundOpened(s, t, t.open[|s.open|]);
    } else {
      assert Records(t) == Records(s);
    }
  }

  lemma SettledSelf(open: seq<Position>)
    ensures Settled(open, open) == open
  {
  }

  lemma SoundStep(config: RiskConfig, s: State, e: Event)
    requires Sound(s)
    ensures Sound(Next(config, s, e))
  {
    hide Sound, Settled, Without, Relisted, TrySubmit, Reconciled;
    SettledSelf(s.open);
    var t := Next(config, s, e);
    match e {
      case BrokerMoves(book) => SoundMove(s, t, book);
      case Stop => SoundMove(s, t, s.open);
      case Start(book, answered) =>
        if s.phase.Idle? {
          if answered { SoundStart(s, book); } else { SoundMove(s, t, book); }
        }
      case ReadClock(now) => SoundMove(s, t, s.open);
      case CloseExit(book, id, closed) =>
        if s.phase.Sweeping? { SoundMove(s, t, book); }
      case EndSweep(l) =>
        if s.phase.Sweeping? {
          if s.phase.closing { SoundRelisted(s, l); } else { SoundMove(s, t, s.open); }
        }
      case Submit(p, h) =>
        if s.phase.Entering? { SoundSubmit(config, s, p, h); }
      case Record(l) =>
        if s.phase.Submitted? { SoundRelisted(s, l); }
      case LateFill(k, f) =>
        if k < |s.late| { SoundLate(s, k, f); }
      case LateGone(k) => SoundMove(s, t, s.open);
    }
  }

  /** Over any run the records stay coherent and, outside the moment between an order and its reconciliation,
      everything open is known or was filled late since. */
  lemma {:induction false} SoundRun(config: RiskConfig, s: State, events: seq<Event>)
    requires Sound(s)
    ensures Sound(Run(config, s, events))
    decreases |events|
  {
    if events != [] {
      hide Next, Sound;
      SoundStep(config, s, events[0]);
      SoundRun(config, Next(config, s, events[0]), events[1..]);
    }
  }

  // ---------- The position limit ----------

  lemma CoveredCount(s: State)
    requires Sound(s) && s.phase.Entering?
    ensures |s.open| <= |s.phase.known| + |s.strays|
  {
    IdsCount(s.open);
    IdsCount(s.phase.known);
    Subset(Ids(s.open), Ids(s.phase.known) + s.strays);
    UnionCount(Ids(s.phase.known), s.strays);
  }

  lemma UnionCount(a: set<int>, b: set<int>)
    ensures |a + b| <= |a| + |b|
  {
    assert a + b == a + (b - a);
    Subset(b - a, b);
  }

  lemma DecisionHasRoom(config: RiskConfig, known: seq<Position>, p: Proposal)
    requires p.context.Some? && Decision(config, known, p).Approved?
    ensures |known| < config.maxOpenPositions
  {
    ApprovedSizing(p.signal, config,
                   p.context.value.(openPositionCount := |known|, currencyExposure := SnapshotOf(known),
                                    correlatedExposure := CorrelatedExposure(known, p.counterpart)));
    hide Evaluate;
  }

  /** Between a reconciliation and the next order no more orders have been filled late, or still may be, than m. */
  predicate Backlog(s: State, m: nat) {
    Surveyed(s.phase) ==> |s.strays| + |s.late| <= m
  }

  /** Positions open or still to come. */
  function Burden(s: State): nat { |s.open| + |s.late| }

  /** The limit, and what may be filled late on top of it. */
  predicate Bounded(s: State, bound: nat, before: nat) { Burden(s) <= before || Burden(s) <= bound }

  lemma SubmitBounded(config: RiskConfig, s: State, p: Proposal, h: Handling, m: nat)
    requires Sound(s) && s.phase.Entering? && Backlog(s, m)
    ensures Bounded(TrySubmit(config, s, p, h), config.maxOpenPositions + m, Burden(s))
    ensures Surveyed(TrySubmit(config, s, p, h).phase) ==> TrySubmit(config, s, p, h) == s
  {
    hide Decision, AlreadyEntered, Settled, Opened, Coherent, Covered, DistinctIds;
    SettledKeeps(s.open, h.book);
    if p.context.Some? && Decision(config, s.phase.known, p).Approved? {
      CoveredCount(s);
      DecisionHasRoom(config, s.phase.known, p);
    }
  }

  lemma RelistedBounded(s: State, l: Listing, m: nat)
    requires Sound(s) && !s.phase.Idle? && !s.phase.Started? && |s.late| <= m
    ensures var t := Relisted(s, s.phase.known, s.phase.now, l);
            Burden(t) <= Burden(s) && Backlog(t, m)
  {
    hide Settled, Reconciled, Coherent, Covered, DistinctIds;
    SettledKeeps(s.open, l.book);
  }

  lemma LateBounded(s: State, k: nat, f: Fill, m: nat)
    requires k < |s.late| && Backlog(s, m)
    ensures Burden(FilledLate(s, k, f)) == Burden(s) && Backlog(FilledLate(s, k, f), m)
  {
    var id := s.nextId + f.skipped;
    UnionCount(s.strays, {id});
  }

  lemma CountStep(config: RiskConfig, s: State, e: Event, m: nat)
    requires Sound(s) && Backlog(s, m) && |s.late| <= m
    ensures Backlog(Next(config, s, e), m)
    ensures Bounded(Next(config, s, e), config.maxOpenPositions + m, Burden(s))
  {
    hide Settled, Without, Reconciled, Coherent, Covered, DistinctIds, TrySubmit, Relisted, FilledLate;
    match e {
      case BrokerMoves(book) => SettledKeeps(s.open, book);
      case Start(book, answered) => SettledKeeps(s.open, book);
      case CloseExit(book, id, closed) =>
        SettledKeeps(s.open, book);
        WithoutKeeps(Settled(s.open, book), id);
      case EndSweep(l) =>
        if s.phase.Sweeping? { RelistedBounded(s, l, m); }
      case Submit(p, h) =>
        if s.phase.Entering? { SubmitBounded(config, s, p, h, m); }
      case Record(l) =>
        if s.phase.Submitted? { RelistedBounded(s, l, m); }
      case LateFill(k, f) =>
        if k < |s.late| { LateBounded(s, k, f, m); }
      case _ =>
    }
  }

  /** At no point of the run may more than m orders still be filled late. */
  predicate AtMostLate(config: RiskConfig, s: State, events: seq<Event>, m: nat)
    decreases |events|
  {
    |s.late| <= m && (events == [] || AtMostLate(config, Next(config, s, events[0]), events[1..], m))
  }

  /** The broker never has more positions open than the limit and the orders it may still fill late allow, or than it
      had, open and to come, to begin with: not after lost answers, nor closings of its own, nor with a log that
      repeats itself. */
  lemma {:induction false} CountBounded(config: RiskConfig, s: State, events: seq<Event>, m: nat)
    requires Sound(s) && Backlog(s, m) && AtMostLate(config, s, events, m)
    ensures Bounded(Run(config, s, events), config.maxOpenPositions + m, Burden(s))
    decreases |events|
  {
    if events != [] {
      hide Next, Sound, Backlog, Burden;
      SoundStep(config, s, events[0]);
      CountStep(config, s, events[0], m);
      CountBounded(config, Next(config, s, events[0]), events[1..], m);
    }
  }

  function Fresh(open: seq<Position>, nextId: int, log: seq<Position>): State {
    State(open, nextId, log, Idle, [], {}, {})
  }

  lemma RunFirst(config: RiskConfig, s: State, e: Event, rest: seq<Event>)
    ensures Run(config, s, [e] + rest) == Run(config, Next(config, s, e), rest)
  {
    hide Next;
    assert ([e] + rest)[1..] == rest;
  }

  lemma AtMostLateFirst(config: RiskConfig, s: State, e: Event, rest: seq<Event>, m: nat)
    requires |s.late| <= m && AtMostLate(config, Next(config, s, e), rest, m)
    ensures AtMostLate(config, s, [e] + rest, m)
  {
    hide Next;
    assert ([e] + rest)[1..] == rest;
  }

  /** What leads from an idle daemon with an empty book and log to its first proposal. */
  function Opening(rest: seq<Event>): seq<Event> {
    [Start([], true)] + ([ReadClock(0)] + ([EndSweep(Listing([], true, 0))] + rest))
  }

  lemma OpeningRun(config: RiskConfig, s: State, rest: seq<Event>, m: nat)
    requires s.open == [] && s.log == [] && s.phase.Idle? && |s.late| <= m
    ensures var t := s.(phase := Entering([], 0), strays := {});
              && Run(config, s, Opening(rest)) == Run(config, t, rest)
              && (AtMostLate(config, t, rest, m) ==> AtMostLate(config, s, Opening(rest), m))
  {
    assert Reconciled([], []) == [] && Settled([], []) == [];
    hide Run, AtMostLate, Reconciled, Settled;
    var s1 := s.(phase := Started([]), strays := {});
    var s2 := s1.(phase := Sweeping([], 0, false));
    var s3 := s2.(phase := Entering([], 0));
    var e1, e2, e3 := Start([], true), ReadClock(0), EndSweep(Listing([], true, 0));
    assert Next(config, s, e1) == s1 && Next(config, s1, e2) == s2 && Next(config, s2, e3) == s3;
    RunFirst(config, s2, e3, rest);
    RunFirst(config, s1, e2, [e3] + rest);
    RunFirst(config, s, e1, [e2] + ([e3] + rest));
    if AtMostLate(config, s3, rest, m) {
      AtMostLateFirst(config, s2, e3, rest, m);
      AtMostLateFirst(config, s1, e2, [e3] + rest, m);
      AtMostLateFirst(config, s, e1, [e2] + ([e3] + rest), m);
    }
  }

  /** An order whose call fails and which is filled after the next cycle's reconciliation, just before that cycle sends
      another. */
  function LateRun(config: RiskConfig, p: Proposal, f: Fill, g: Fill): seq<Event>
    requires p.context.Some? && Decision(config, [], p).Approved?
  {
    var order := OrderFor(p.signal, Decision(config, [], p), 0);
    var again := Handling([Opened(f.skipped, order, f)], Some(g), false, true);
    Opening([Submit(p, Handling([], None, true, false))] + Opening([LateFill(0, f)] + [Submit(p, again)]))
  }

  /** The bound is met, from a fresh account: with one order at most outstanding, a limit of one lets two through. */
  lemma LateFillTakesOneMore(config: RiskConfig, p: Proposal, f: Fill, g: Fill)
    requires config.maxOpenPositions == 1 && p.context.Some? && Decision(config, [], p).Approved?
    ensures AtMostLate(config, Fresh([], 0, []), LateRun(config, p, f, g), 1)
    ensures |Run(config, Fresh([], 0, []), LateRun(config, p, f, g)).open| == config.maxOpenPositions + 1
  {
    var order := OrderFor(p.signal, Decision(config, [], p), 0);
    var lost, again := Handling([], None, true, false), Handling([Opened(f.skipped, order, f)], Some(g), false, true);
    var s1 := Fresh([], 0, []).(phase := Entering([], 0));
    var s2 := Fresh([], 0, []).(late := [order]);
    var s3 := s2.(phase := Entering([], 0));
    var s4 := FilledLate(s3, 0, f);
    assert Dropped([order], 0) == [];
    LateRunSteps(config, p, f, again);
    hide Decision, Next, Run, AtMostLate, Opened, Opening, TrySubmit;
    var tail := [LateFill(0, f)] + [Submit(p, again)];
    NoneAfter(config, Next(config, s4, Submit(p, again)));
    assert [Submit(p, again)] == [Submit(p, again)] + [];
    RunFirst(config, s4, Submit(p, again), []);
    AtMostLateFirst(config, s4, Submit(p, again), [], 1);
    RunFirst(config, s3, LateFill(0, f), [Submit(p, again)]);
    AtMostLateFirst(config, s3, LateFill(0, f), [Submit(p, again)], 1);
    OpeningRun(config, s2, tail, 1);
    RunFirst(config, s1, Submit(p, lost), Opening(tail));
    AtMostLateFirst(config, s1, Submit(p, lost), Opening(tail), 1);
    OpeningRun(config, Fresh([], 0, []), [Submit(p, lost)] + Opening(tail), 1);
  }

  /** Such a proposal exists. */
  lemma SomeProposalFits()
    ensures var config := RiskConfig(0.01, 0.05, 1, 0.05, 0.1, 0.15, 0.1);
            var context := RiskContext(100.0, 0, false, false, 2.0, 1.0, 5.0, 0.0, 0.0, map[], 0.0);
            Decision(config, [], Proposal(Signal("S", Buy, Tier1), Some(context), None)).Approved?
  {
    assert CurrencyPair("S") == None;
  }

  lemma NoneAfter(config: RiskConfig, s: State)
    ensures Run(config, s, []) == s
    ensures |s.late| <= 1 ==> AtMostLate(config, s, [], 1)
  {
  }

  lemma LateRunSteps(config: RiskConfig, p: Proposal, f: Fill, again: Handling)
    requires p.context.Some? && Decision(config, [], p).Approved? && again.fill.Some? && again.acknowledged
    requires again.book == [Opened(f.skipped, OrderFor(p.signal, Decision(config, [], p), 0), f)]
    ensures var order := OrderFor(p.signal, Decision(config, [], p), 0);
            var s1 := Fresh([], 0, []).(phase := Entering([], 0));
            var s2 := Fresh([], 0, []).(late := [order]);
            var s3 := s2.(phase := Entering([], 0));
            var s4 := FilledLate(s3, 0, f);
              && Next(config, s1, Submit(p, Handling([], None, true, false))) == s2
              && Next(config, s3, LateFill(0, f)) == s4 && s4.late == []
              && |Next(config, s4, Submit(p, again)).open| == 2 && Next(config, s4, Submit(p, again)).late == []
  {
    var order := OrderFor(p.signal, Decision(config, [], p), 0);
    assert Settled([], []) == [];
    assert Dropped([order], 0) == [];
    var s3 := Fresh([], 0, []).(late := [order], phase := Entering([], 0));
    SettledSelf(FilledLate(s3, 0, f).open);
    hide Decision, Opened, Settled;
    assert FilledLate(s3, 0, f).open == again.book;
  }

  // ---------- One trade per pair and window ----------

  predicate Apart(p: Position, q: Position, gap: int) {
    p.pair == q.pair ==> p.entryTime - q.entryTime >= gap || q.entryTime - p.entryTime >= gap
  }

  predicate Compared(p: Position, q: Position, tardy: set<int>, first: int) {
    p.id != q.id && (p.id >= first || q.id >= first) && p.id !in tardy && q.id !in tardy
  }

  /** Late fills aside, open positions entered since id first are at least the gap from any other on their pair. */
  predicate Spaced(open: seq<Position>, tardy: set<int>, first: int, gap: int) {
    forall p, q :: p in open && q in open && Compared(p, q, tardy, first) ==> Apart(p, q, gap)
  }

  /** No fill is stamped more than the skew before the clock reading of its cycle. */
  predicate OnTime(e: Event, skew: nat) {
    e.Submit? && e.handling.fill.Some? ==> e.handling.fill.value.delay + skew >= 0
  }

  lemma SpacedEcho(open: seq<Position>, book: seq<Position>, tardy: set<int>, first: int, gap: int)
    requires Spaced(open, tardy, first, gap) && Echoes(Set(book), Set(open))
    ensures Spaced(book, tardy, first, gap)
  {
    forall p, q | p in book && q in book && Compared(p, q, tardy, first)
      ensures Apart(p, q, gap)
    {
      assert p in Set(book) && q in Set(book);
      var p' :| p' in Set(open) && SameTrade(p, p');
      var q' :| q' in Set(open) && SameTrade(q, q');
      assert Apart(p', q', gap);
    }
  }

  /** The guard, asked of what the daemon knows, also speaks for everything the broker has open but late fills. */
  lemma GuardCovers(s: State, open: seq<Position>, pair: string, q: Position)
    requires Sound(s) && s.phase.Entering? && Echoes(Set(open), Set(s.open))
    requires !AlreadyEntered(pair, s.phase.known, s.phase.now)
    requires q in open && q.pair == pair && q.id !in s.tardy
    ensures s.phase.now - q.entryTime >= MIN_BETWEEN_ENTRIES
  {
    assert q in Set(open);
    var r :| r in Set(s.open) && SameTrade(q, r);
    assert r.id in Ids(s.open) && r.id !in s.strays;
    assert r.id in Ids(s.phase.known);
    var k :| k in s.phase.known && k.id == r.id;
    assert k in Records(s) && r in Records(s);
  }

  lemma SpacedFill(s: State, o: Order, f: Fill, open: seq<Position>, first: int, skew: nat)
    requires Sound(s) && s.phase.Entering? && Echoes(Set(open), Set(s.open)) && o.placedAt == s.phase.now
    requires !AlreadyEntered(o.signal.pair, s.phase.known, s.phase.now)
    requires Spaced(open, s.tardy, first, MIN_BETWEEN_ENTRIES - skew) && f.delay + skew >= 0
    ensures Spaced(open + [Opened(s.nextId + f.skipped, o, f)], s.tardy, first, MIN_BETWEEN_ENTRIES - skew)
  {
    var entered := Opened(s.nextId + f.skipped, o, f);
    forall q | q in open && q.id !in s.tardy
      ensures Apart(entered, q, MIN_BETWEEN_ENTRIES - skew)
    {
      if q.pair == o.signal.pair {
        hide Sound, AlreadyEntered, Echoes;
        GuardCovers(s, open, o.signal.pair, q);
      }
    }
  }

  lemma SpacedSubmit(config: RiskConfig, s: State, p: Proposal, h: Handling, first: int, skew: nat)
    requires Sound(s) && s.phase.Entering? && OnTime(Submit(p, h), skew)
    requires Spaced(s.open, s.tardy, first, MIN_BETWEEN_ENTRIES - skew)
    ensures var t := TrySubmit(config, s, p, h);
            t.tardy == s.tardy && Spaced(t.open, t.tardy, first, MIN_BETWEEN_ENTRIES - skew)
  {
    hide Decision, AlreadyEntered, Settled, Coherent, Covered, Spaced, Opened, DistinctIds;
    SettledKeeps(s.open, h.book);
    SpacedEcho(s.open, Settled(s.open, h.book), s.tardy, first, MIN_BETWEEN_ENTRIES - skew);
    if p.context.Some? && h.fill.Some? && !AlreadyEntered(p.signal.pair, s.phase.known, s.phase.now) {
      var d := Decision(config, s.phase.known, p);
      if d.Approved? {
        SpacedFill(s, OrderFor(p.signal, d, s.phase.now), h.fill.value, Settled(s.open, h.book), first, skew);
      }
    }
  }

  lemma SpacedLate(s: State, k: nat, f: Fill, first: int, gap: int)
    requires k < |s.late| && Spaced(s.open, s.tardy, first, gap)
    ensures Spaced(FilledLate(s, k, f).open, FilledLate(s, k, f).tardy, first, gap)
  {
    hide Apart;
  }

  function BookOf(s: State, e: Event): seq<Position> {
    match e
    case BrokerMoves(book) => book
    case Start(book, _) => book
    case CloseExit(book, _, _) => book
    case EndSweep(l) => l.book
    case Record(l) => l.book
    case _ => s.open
  }

  function ClosedBy(e: Event): int { if e.CloseExit? then e.id else 0 }

  lemma OpenAfter(config: RiskConfig, s: State, e: Event)
    requires !e.Submit? && !e.LateFill?
    ensures var open, t := Settled(s.open, BookOf(s, e)), Next(config, s, e);
              && t.tardy == s.tardy
              && (t.open == s.open || t.open == open || t.open == Without(open, ClosedBy(e)))
  {
    hide Settled, Without, Reconciled;
    SettledSelf(s.open);
  }

  lemma SpacedMoves(open: seq<Position>, book: seq<Position>, id: int, tardy: set<int>, first: int, gap: int)
    requires DistinctIds(open) && Spaced(open, tardy, first, gap)
    ensures Spaced(Settled(open, book), tardy, first, gap)
    ensures Spaced(Without(Settled(open, book), id), tardy, first, gap)
  {
    hide Settled, Without, Spaced, DistinctIds;
    var settled := Settled(open, book);
    SettledKeeps(open, book);
    SpacedEcho(open, settled, tardy, first, gap);
    WithoutKeeps(settled, id);
    assert forall p :: p in Set(Without(settled, id)) ==> p in Set(settled) && SameTrade(p, p);
    SpacedEcho(settled, Without(settled, id), tardy, first, gap);
  }

  lemma SpacedStep(config: RiskConfig, s: State, e: Event, first: int, skew: nat)
    requires Sound(s) && OnTime(e, skew) && Spaced(s.open, s.tardy, first, MIN_BETWEEN_ENTRIES - skew)
    ensures Spaced(Next(config, s, e).open, Next(config, s, e).tardy, first, MIN_BETWEEN_ENTRIES - skew)
  {
    hide Settled, Without, Spaced, DistinctIds, Coherent, Covered, TrySubmit, Relisted, Reconciled, OnTime, FilledLate;
    match e {
      case Submit(p, h) =>
        if s.phase.Entering? { SpacedSubmit(config, s, p, h, first, skew); }
      case LateFill(k, f) =>
        if k < |s.late| { SpacedLate(s, k, f, first, MIN_BETWEEN_ENTRIES - skew); }
      case _ =>
        hide Next;
        OpenAfter(config, s, e);
        SpacedMoves(s.open, BookOf(s, e), ClosedBy(e), s.tardy, first, MIN_BETWEEN_ENTRIES - skew);
    }
  }

  lemma {:induction false} SpacedRun(config: RiskConfig, s: State, events: seq<Event>, first: int, skew: nat)
    requires Sound(s) && Spaced(s.open, s.tardy, first, MIN_BETWEEN_ENTRIES - skew)
    requires forall i :: 0 <= i < |events| ==> OnTime(events[i], skew)
    ensures Spaced(Run(config, s, events).open, Run(config, s, events).tardy, first, MIN_BETWEEN_ENTRIES - skew)
    decreases |events|
  {
    if events != [] {
      hide Next, Sound, Spaced, OnTime;
      SoundStep(config, s, events[0]);
      SpacedStep(config, s, events[0], first, skew);
      SpacedRun(config, Next(config, s, events[0]), events[1..], first, skew);
    }
  }

  /** At any moment of any run, of two open positions on one pair, neither filled late and at least one entered by the
      run, the entries are 170 minutes apart, less whatever the broker's stamps run behind the daemon's clock. The
      clock itself may jump either way between cycles. */
  lemma EntriesSpaced(config: RiskConfig, s: State, events: seq<Event>, skew: nat)
    requires Sound(s)
    requires forall i :: 0 <= i < |events| ==> OnTime(events[i], skew)
    ensures var t := Run(config, s, events);
            Spaced(t.open, t.tardy, s.nextId, MIN_BETWEEN_ENTRIES - skew)
  {
    assert forall p :: p in s.open ==> p in Records(s);
    SpacedRun(config, s, events, s.nextId, skew);
  }

  // ---------- What the guard forgets ----------

  /** Asked right after a reconciliation, the guard answers for exactly what the broker has open, whatever the
      local record said: it holds a pair back until 170 minutes have passed since every entry on it still open. */
  lemma GuardSeesBroker(pair: string, open: seq<Position>, local: seq<Position>, now: int, nextId: int)
    requires Coherent(Set(open) + Set(local), nextId)
    ensures AlreadyEntered(pair, Reconciled(open, local), now) <==> AlreadyEntered(pair, open, now)
    ensures AlreadyEntered(pair, Reconciled(open, local), now) <==>
            exists p :: p in open && p.pair == pair && now < p.entryTime + 170 * MINUTE
  {
    hide Reconciled;
    var known := Reconciled(open, local);
    ReconciledIds(open, local);
    ReconciledFrom(open, local);
    assert forall p :: p in known ==> p in Set(open) + Set(local) by {
      assert forall p :: p in known ==> p in Set(known);
    }
    forall p | p in known
      ensures exists q :: q in open && SameTrade(p, q)
    {
      assert p.id in Ids(known);
      var q :| q in open && q.id == p.id;
      assert q in Set(open) + Set(local);
    }
    forall q | q in open
      ensures exists p :: p in known && SameTrade(p, q)
    {
      assert q.id in Ids(open);
      var p :| p in known && p.id == q.id;
      assert q in Set(open) + Set(local);
    }
  }

  /** The guard is documented to count positions already closed, but it is handed reconciled ones. At the start
      of a cycle it agrees with its documentation exactly when, if anything on record is recent, something
      recent is still open. */
  lemma GuardMatchesRecordIff(pair: string, open: seq<Position>, log: seq<Position>, now: int, nextId: int)
    requires Coherent(Set(open) + Set(log), nextId)
    ensures (AlreadyEntered(pair, Reconciled(open, log), now) <==> AlreadyEntered(pair, open + log, now))
       <==> (AlreadyEntered(pair, log, now) ==> AlreadyEntered(pair, open, now))
  {
    GuardSeesBroker(pair, open, log, now, nextId);
    hide Reconciled;
    assert AlreadyEntered(pair, open + log, now) <==> AlreadyEntered(pair, open, now) || AlreadyEntered(pair, log, now);
  }

  /** A fill stamped ahead of the clock, as the simulated broker's are by days, holds its pair back for as long as
      it stays open and the clock has not passed the stamp by 170 minutes. */
  lemma StampAheadBlocks(p: Position, open: seq<Position>, log: seq<Position>, now: int, nextId: int)
    requires Coherent(Set(open) + Set(log), nextId)
    requires p in open && now < p.entryTime + MIN_BETWEEN_ENTRIES
    ensures AlreadyEntered(p.pair, Reconciled(open, log), now)
  {
    GuardSeesBroker(p.pair, open, log, now, nextId);
  }

  /** A position entered a minute ago and since closed by the broker does not hold back another. */
  lemma ClosedPositionForgotten(p: Position)
    requires p.pair == "EURUSD" && p.entryTime == 0
    ensures AlreadyEntered("EURUSD", [p], 60_000_000_000)
    ensures !AlreadyEntered("EURUSD", Reconciled([], [p]), 60_000_000_000)
  {
    assert p in [p];
    forall q
      ensures q !in Reconciled([], [p])
    {
      ReconciledMembers([], [p], q);
    }
  }
}
