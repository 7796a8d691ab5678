/** `run_real_cycle` of `daemon/src/main.rs` as it stands: a broker and a position log updated in place, exits and
    signals and contexts decided on the way, early returns and all. Each cycle is proved to be the run of the step
    machine in `Cycle` that its own decisions spell out, so everything proved of those runs holds of the daemon. */
module Daemon {
  import opened Prelude
  import opened Domain
  import opened RealArith
  import opened NewYork
  import opened Smt
  import opened Risk
  import opened Monitor
  import opened Recovery
  import opened Cycle
  import Buffers
  import Entry
  import Exposure
  import Gregorian
  import Holidays
  import MacroCycle

  datatype Settings = Settings(zone: Zone, risk: RiskConfig, spreadMultiplier: real, correlationThreshold: real)

  /** How a request for equity, an order and the listing after it are met, should the cycle come to them. */
  datatype Reception = Reception(equity: Option<real>, handling: Handling, relisted: Listing)

  /** One pair-set: its symbols, prices and levels, its spreads, its biases, its correlation. */
  datatype PairSet = PairSet(primary: string, secondary: string, inputs: DivergenceInputs, spreads: seq<real>,
                             spread: real, weekly: Bias, daily: Bias, coefficient: Option<real>, reception: Reception)

  datatype ExitAnswer = ExitAnswer(book: seq<Position>, closed: bool)

  /** Everything a cycle meets from outside. */
  datatype World = World(startBook: seq<Position>, answered: bool, heartbeat: bool, quotes: map<string, Quote>,
                         now: int, newsActive: bool, exitAnswers: nat -> ExitAnswer, swept: Listing,
                         forced: bool, healthy: bool, pairSets: seq<PairSet>)

  // ---------- What the cycle decides ----------

  function Bids(quotes: map<string, Quote>): map<string, real> {
    map pair | pair in quotes :: quotes[pair].bid
  }

  /** The live reading of each pair-set, under the pair it names; a later pair-set's reading replaces an earlier
      one's. */
  function Divergences(pairSets: seq<PairSet>): map<string, (Direction, Tier)> {
    if pairSets == [] then map[]
    else
      var rest, ps := Divergences(pairSets[..|pairSets| - 1]), pairSets[|pairSets| - 1];
      match EvaluateSmt(ps.inputs)
      case None => rest
      case Some((target, direction, tier)) =>
        rest[if target == Primary then ps.primary else ps.secondary := (direction, tier)]
  }

  function Exits(known: seq<Position>, w: World): seq<ExitDecision> {
    EvaluateExits(known, Bids(w.quotes), w.newsActive, Divergences(w.pairSets))
  }

  /** Inside an entry window or forced, in good health, on a day that is not skipped; that day is a date in UTC. */
  predicate EntriesAllowed(c: Settings, w: World) {
    && (w.forced || MacroCycle.IsWithinMacroCycle(c.zone, w.now))
    && w.healthy
    && !Holidays.IsLowLiquidity(w.now / DAY)
  }

  const TUESDAY := 2

  /** The account as read now; what is already open is filled in by the risk decision. */
  function AccountContext(c: Settings, w: World, equity: real): RiskContext {
    var isTuesday := Gregorian.Weekday(DateAt(c.zone, w.now)) == TUESDAY;
    RiskContext(equity, 0, isTuesday, false, 0.0, 0.0, 0.0, 0.0, 0.0, map[], 0.0)
  }

  function Counterpart(c: Settings, ps: PairSet, signal: Signal): Option<string> {
    if ps.coefficient.Some? && Abs(ps.coefficient.value) >= c.correlationThreshold then
      Some(if signal.pair == ps.primary then ps.secondary else ps.primary)
    else None
  }

  function OutcomeOf(ps: PairSet): SignalOutcome {
    GenerateSignal(ps.inputs, ps.weekly, ps.daily, ps.primary, ps.secondary)
  }

  /** What a pair-set proposes: nothing past a wide spread, without a divergence or against the gate. */
  function ProposalOf(c: Settings, w: World, ps: PairSet): Option<Proposal> {
    if !Buffers.PassesFilter(ps.spreads, ps.spread, c.spreadMultiplier) || !OutcomeOf(ps).Passed? then None
    else
      var signal := OutcomeOf(ps).signal;
      var context := match ps.reception.equity
                     case None => None
                     case Some(equity) =>
                       var account := AccountContext(c, w, equity);
                       Some(Entry.PricedContext(account, ps.inputs, w.quotes, signal, ps.secondary));
      Some(Proposal(signal, context, Counterpart(c, ps, signal)))
  }

  // ---------- The steps those decisions spell out ----------

  function EntryEvents(c: Settings, w: World, pairSets: seq<PairSet>): seq<Event> {
    if pairSets == [] then [Stop]
    else
      var ps, rest := pairSets[0], EntryEvents(c, w, pairSets[1..]);
      match ProposalOf(c, w, ps)
      case None => rest
      case Some(p) => [Submit(p, ps.reception.handling), Record(ps.reception.relisted)] + rest
  }

  function AfterSweep(c: Settings, w: World): seq<Event> {
    if EntriesAllowed(c, w) then EntryEvents(c, w, w.pairSets) else [Stop]
  }

  /** The exits still to be closed, j having been closed before. */
  function SweepEvents(c: Settings, w: World, exits: seq<ExitDecision>, j: nat): seq<Event>
    decreases |exits|
  {
    if exits == [] then [EndSweep(w.swept)] + AfterSweep(c, w)
    else
      [CloseExit(w.exitAnswers(j).book, exits[0].id, w.exitAnswers(j).closed)] + SweepEvents(c, w, exits[1..], j + 1)
  }

  /** What the cycle knows once it has reconciled. */
  function KnownAtStart(s: State, w: World): seq<Position> {
    Reconciled(Settled(s.open, w.startBook), s.log)
  }

  function IdsOf(exits: seq<ExitDecision>): seq<int> {
    seq(|exits|, i requires 0 <= i < |exits| => exits[i].id)
  }

  /** The positions the cycle asks the broker to close, in order; a failed listing or heartbeat ends it before. */
  function Asked(s: State, w: World): seq<int> {
    if w.answered && w.heartbeat then IdsOf(Exits(KnownAtStart(s, w), w)) else []
  }

  function Events(c: Settings, s: State, w: World): seq<Event> {
    [Start(w.startBook, w.answered), if w.heartbeat then ReadClock(w.now) else Stop]
    + SweepEvents(c, w, Exits(KnownAtStart(s, w), w), 0)
  }

  predicate OfBroker(e: Event) { e.BrokerMoves? || e.LateFill? || e.LateGone? }

  /** Steps that an idle daemon and an untouched broker ignore. */
  predicate Quiet(events: seq<Event>) {
    forall i :: 0 <= i < |events| ==> !events[i].Start? && !OfBroker(events[i])
  }

  lemma {:induction false} IdleStays(config: RiskConfig, s: State, events: seq<Event>)
    requires s.phase.Idle? && Quiet(events)
    ensures Run(config, s, events) == s
    decreases |events|
  {
    if events != [] {
      assert Next(config, s, events[0]) == s;
      hide Next;
      IdleStays(config, s, events[1..]);
    }
  }

  lemma {:induction false} EntryQuiet(c: Settings, w: World, pairSets: seq<PairSet>)
    ensures Quiet(EntryEvents(c, w, pairSets))
  {
    if pairSets != [] {
      hide ProposalOf;
      EntryQuiet(c, w, pairSets[1..]);
    }
  }

  lemma {:induction false} SweepQuiet(c: Settings, w: World, exits: seq<ExitDecision>, j: nat)
    ensures Quiet(SweepEvents(c, w, exits, j))
    decreases |exits|
  {
    hide EntriesAllowed, EntryEvents;
    if exits == [] {
      EntryQuiet(c, w, w.pairSets);
    } else {
      SweepQuiet(c, w, exits[1..], j + 1);
    }
  }

  /** A proposal taken through its order and the reconciliation after it. */
  function Attempted(c: Settings, s: State, p: Proposal, r: Reception): State
    requires s.phase.Entering?
  {
    var s' := TrySubmit(c.risk, s, p, r.handling);
    if s'.phase.Submitted? then Relisted(s', s'.phase.known, s'.phase.now, r.relisted) else s'
  }

  function PairSetTurn(c: Settings, s: State, w: World, ps: PairSet): State
    requires s.phase.Entering?
  {
    match ProposalOf(c, w, ps) case None => s case Some(p) => Attempted(c, s, p, ps.reception)
  }

  lemma EntryUnfolds(c: Settings, s: State, w: World, pairSets: seq<PairSet>)
    requires s.phase.Entering? && pairSets != []
    ensures Run(c.risk, s, EntryEvents(c, w, pairSets)) ==
            Run(c.risk, PairSetTurn(c, s, w, pairSets[0]), EntryEvents(c, w, pairSets[1..]))
  {
    var ps, rest := pairSets[0], EntryEvents(c, w, pairSets[1..]);
    hide Run, TrySubmit, Relisted, ProposalOf;
    if ProposalOf(c, w, ps).Some? {
      var p := ProposalOf(c, w, ps).value;
      var submit := Submit(p, ps.reception.handling);
      assert EntryEvents(c, w, pairSets) == [submit] + ([Record(ps.reception.relisted)] + rest);
      RunFirst(c.risk, s, submit, [Record(ps.reception.relisted)] + rest);
      RunFirst(c.risk, Next(c.risk, s, submit), Record(ps.reception.relisted), rest);
    }
  }

  lemma StopEnds(config: RiskConfig, s: State)
    ensures Run(config, s, [Stop]) == s.(phase := Idle)
  {
    assert Run(config, Next(config, s, Stop), []) == s.(phase := Idle);
    assert [Stop][1..] == [];
  }

  lemma ExitUnfolds(c: Settings, s: State, w: World, exits: seq<ExitDecision>, j: nat)
    requires s.phase.Sweeping? && exits != []
    ensures var open := Settled(s.open, w.exitAnswers(j).book);
            Run(c.risk, s, SweepEvents(c, w, exits, j)) ==
            Run(c.risk, s.(open := if w.exitAnswers(j).closed then Without(open, exits[0].id) else open,
                           phase := Sweeping(s.phase.known, s.phase.now, true)),
                SweepEvents(c, w, exits[1..], j + 1))
  {
    hide Run, Settled, Without, AfterSweep;
    RunFirst(c.risk, s, CloseExit(w.exitAnswers(j).book, exits[0].id, w.exitAnswers(j).closed),
             SweepEvents(c, w, exits[1..], j + 1));
  }

  lemma SweepUnfolds(c: Settings, s: State, w: World, j: nat)
    requires s.phase.Sweeping?
    ensures Run(c.risk, s, SweepEvents(c, w, [], j)) ==
            Run(c.risk, if s.phase.closing then Relisted(s, s.phase.known, s.phase.now, w.swept)
                        else s.(phase := Entering(s.phase.known, s.phase.now)),
                AfterSweep(c, w))
  {
    hide Run, Relisted, AfterSweep;
    RunFirst(c.risk, s, EndSweep(w.swept), AfterSweep(c, w));
  }

  lemma AfterSweepQuiet(c: Settings, w: World)
    ensures Quiet(AfterSweep(c, w))
  {
    hide EntriesAllowed, EntryEvents;
    EntryQuiet(c, w, w.pairSets);
  }

  lemma StartUnfolds(c: Settings, s: State, w: World)
    requires s.phase.Idle?
    ensures var open, known := Settled(s.open, w.startBook), KnownAtStart(s, w);
            var survey := s.(open := open, strays := if w.answered then {} else s.strays,
                             phase := if w.answered && w.heartbeat then Sweeping(known, w.now, false) else Idle);
              Run(c.risk, s, Events(c, s, w)) == Run(c.risk, survey, SweepEvents(c, w, Exits(known, w), 0))
  {
    hide Run, Settled, Reconciled, SweepEvents, Exits;
    var first, second := Start(w.startBook, w.answered), if w.heartbeat then ReadClock(w.now) else Stop;
    var rest := SweepEvents(c, w, Exits(KnownAtStart(s, w), w), 0);
    assert Events(c, s, w) == [first] + ([second] + rest);
    RunFirst(c.risk, s, first, [second] + rest);
    RunFirst(c.risk, Next(c.risk, s, first), second, rest);
  }

  // ---------- The broker and the daemon ----------

  class Broker {
    var open: seq<Position>
    var nextId: int
    var late: seq<Order>
    ghost var strays: set<int>
    ghost var tardy: set<int>
    ghost var asked: seq<int>

    constructor (open: seq<Position>, nextId: int)
      ensures this.open == open && this.nextId == nextId && late == [] && strays == {} && tardy == {} && asked == []
    {
      this.open, this.nextId, late, strays, tardy, asked := open, nextId, [], {}, {}, [];
    }

    ghost function View(log: seq<Position>, phase: Phase): State
      reads this
    {
      State(open, nextId, log, phase, late, strays, tardy)
    }

    /** What the broker does on its own before a call reaches it. */
    method Move(book: seq<Position>)
      modifies this`open
      ensures open == Settled(old(open), book)
    {
      if Moves(open, book) {
        open := book;
      }
    }

    method ClosePosition(id: int, closed: bool)
      modifies this`open, this`asked
      ensures open == if closed then Without(old(open), id) else old(open)
      ensures asked == old(asked) + [id]
    {
      asked := asked + [id];
      if closed {
        open := Without(open, id);
      }
    }

    /** A fill adds one position, under an id no position had before; an order not filled may be kept for later. */
    method SubmitOrder(o: Order, h: Handling)
      modifies this`open, this`nextId, this`late
      ensures forall log, phase :: View(log, phase) == Handled(old(View(log, phase)), o, h)
      ensures h.fill.Some? ==> |open| == |old(open)| + 1 && old(nextId) <= open[|open| - 1].id < nextId
    {
      if h.fill.Some? {
        var id := nextId + h.fill.value.skipped;
        open := open + [Opened(id, o, h.fill.value)];
        nextId := id + 1;
      } else if h.lingers {
        late := late + [o];
      }
    }

    /** A kept order is filled after all. */
    method FillLate(k: nat, f: Fill)
      requires k < |late|
      modifies this`open, this`nextId, this`late, this`strays, this`tardy
      ensures forall log, phase :: View(log, phase) == FilledLate(old(View(log, phase)), k, f)
    {
      var id, o := nextId + f.skipped, late[k];
      late := late[..k] + late[k + 1..];
      strays, tardy := strays + {id}, tardy + {id};
      open := open + [Opened(id, o, f)];
      nextId := id + 1;
    }
  }

  class Daemon {
    const settings: Settings
    const broker: Broker
    var log: seq<Position>

    constructor (settings: Settings, broker: Broker)
      ensures this.settings == settings && this.broker == broker && log == []
    {
      this.settings, this.broker, log := settings, broker, [];
    }

    ghost function View(phase: Phase): State
      reads this, broker
    {
      broker.View(log, phase)
    }

    /** Append the positions to the log one by one, as far as the file takes them. */
    method AppendAll(known: seq<Position>, saved: nat) returns (ok: bool)
      modifies this`log
      ensures ok == (|known| <= saved)
      ensures log == old(log) + known[..if ok then |known| else saved]
    {
      for i := 0 to |known|
        invariant i <= saved && log == old(log) + known[..i]
      {
        if i == saved {
          return false;
        }
        log := log + [known[i]];
      }
      return true;
    }

    method Relist(known: seq<Position>, ghost now: int, l: Listing) returns (ok: bool, left: seq<Position>)
      modifies this`log, broker`open, broker`strays
      ensures View(if ok then Entering(left, now) else Idle)
           == Relisted(old(View(Submitted(known, now))), known, now, l)
    {
      broker.Move(l.book);
      if !l.answered {
        return false, known;
      }
      left := Reconciled(broker.open, known);
      broker.strays := {};
      ok := AppendAll(left, l.saved);
      assert left[..|left|] == left;
    }

    /** One proposal: guard, equity, risk decision, order, reconciliation. */
    method TryEntry(known: seq<Position>, now: int, p: Proposal, r: Reception) returns (ok: bool, left: seq<Position>)
      modifies this`log, broker`open, broker`nextId, broker`late, broker`strays
      ensures View(if ok then Entering(left, now) else Idle)
           == Attempted(settings, old(View(Entering(known, now))), p, r)
    {
      hide Evaluate, AlreadyEntered, Settled, Relisted, Handled, Decision, Moves;
      if AlreadyEntered(p.signal.pair, known, now) {
        return true, known;
      }
      if p.context == None {
        return false, known;
      }
      var d := Decision(settings.risk, known, p);
      if d.Rejected? {
        return true, known;
      }
      broker.Move(r.handling.book);
      HandledKeepsPhase(Sent(View(Entering(known, now)), r.handling), OrderFor(p.signal, d, now), r.handling);
      broker.SubmitOrder(OrderFor(p.signal, d, now), r.handling);
      if !r.handling.acknowledged {
        return false, known;
      }
      ok, left := Relist(known, now, r.relisted);
    }

    method TryEntries(known0: seq<Position>, w: World)
      modifies this`log, broker`open, broker`nextId, broker`late, broker`strays
      ensures View(Idle) == Run(settings.risk, old(View(Entering(known0, w.now))), EntryEvents(settings, w, w.pairSets))
    {
      var known, pairSets := known0, w.pairSets;
      ghost var start := View(Entering(known, w.now));
      for j := 0 to |pairSets|
        invariant Run(settings.risk, start, EntryEvents(settings, w, pairSets))
               == Run(settings.risk, View(Entering(known, w.now)), EntryEvents(settings, w, pairSets[j..]))
      {
        hide Run, EntryEvents, Attempted, ProposalOf;
        assert pairSets[j..][0] == pairSets[j] && pairSets[j..][1..] == pairSets[j + 1..];
        EntryUnfolds(settings, View(Entering(known, w.now)), w, pairSets[j..]);
        var proposal := ProposalOf(settings, w, pairSets[j]);
        if proposal.Some? {
          var ok;
          ok, known := TryEntry(known, w.now, proposal.value, pairSets[j].reception);
          if !ok {
            EntryQuiet(settings, w, pairSets[j + 1..]);
            IdleStays(settings.risk, View(Idle), EntryEvents(settings, w, pairSets[j + 1..]));
            return;
          }
        }
      }
      StopEnds(settings.risk, View(Entering(known, w.now)));
    }

    /** Every position with a reason to close, one by one, then entries if they are allowed. */
    method Sweep(known0: seq<Position>, w: World)
      modifies this`log, broker
      ensures View(Idle) == Run(settings.risk, old(View(Sweeping(known0, w.now, false))),
                                SweepEvents(settings, w, Exits(known0, w), 0))
      ensures broker.asked == old(broker.asked) + IdsOf(Exits(known0, w))
    {
      hide Run, SweepEvents, AfterSweep, EntryEvents, EntriesAllowed, Relisted, Settled, Without, Exits, EvaluateExits;
      var known, exits := known0, Exits(known0, w);
      ghost var start := View(Sweeping(known, w.now, false));
      for j := 0 to |exits|
        invariant Run(settings.risk, start, SweepEvents(settings, w, exits, 0))
               == Run(settings.risk, View(Sweeping(known, w.now, j > 0)), SweepEvents(settings, w, exits[j..], j))
        invariant broker.asked == old(broker.asked) + IdsOf(exits)[..j]
      {
        assert exits[j..][0] == exits[j] && exits[j..][1..] == exits[j + 1..];
        ExitUnfolds(settings, View(Sweeping(known, w.now, j > 0)), w, exits[j..], j);
        var answer := w.exitAnswers(j);
        broker.Move(answer.book);
        broker.ClosePosition(exits[j].id, answer.closed);
      }
      assert IdsOf(exits)[..|exits|] == IdsOf(exits);
      SweepUnfolds(settings, View(Sweeping(known, w.now, |exits| > 0)), w, |exits|);
      if exits != [] {
        RelistedAnyPhase(View(Sweeping(known, w.now, true)), Submitted(known, w.now), known, w.now, w.swept);
        var ok;
        ok, known := Relist(known, w.now, w.swept);
        if !ok {
          AfterSweepQuiet(settings, w);
          IdleStays(settings.risk, View(Idle), AfterSweep(settings, w));
          return;
        }
      }
      AfterSweepIs(settings, w);
      if !EntriesAllowed(settings, w) {
        StopEnds(settings.risk, View(Entering(known, w.now)));
        return;
      }
      TryEntries(known, w);
    }

    /** One cycle, from the position log to the last pair-set. */
    method RunCycle(w: World)
      modifies this`log, broker
      ensures View(Idle) == Run(settings.risk, old(View(Idle)), Events(settings, old(View(Idle)), w))
      ensures broker.asked == old(broker.asked) + Asked(old(View(Idle)), w)
    {
      hide Run, SweepEvents, Settled, Reconciled, Exits, Events;
      StartUnfolds(settings, View(Idle), w);
      SweepQuiet(settings, w, Exits(KnownAtStart(View(Idle), w), w), 0);
      ghost var rest := SweepEvents(settings, w, Exits(KnownAtStart(View(Idle), w), w), 0);
      broker.Move(w.startBook);
      if !w.answered {
        IdleStays(settings.risk, View(Idle), rest);
        return;
      }
      var known := Reconciled(broker.open, log);
      broker.strays := {};
      if !w.heartbeat {
        IdleStays(settings.risk, View(Idle), rest);
        return;
      }
      Sweep(known, w);
    }
  }

  lemma RelistedAnyPhase(s: State, phase: Phase, known: seq<Position>, now: int, l: Listing)
    ensures Relisted(s.(phase := phase), known, now, l) == Relisted(s, known, now, l)
  {
  }

  lemma HandledKeepsPhase(s: State, o: Order, h: Handling)
    ensures Handled(s, o, h).phase == s.phase
  {
  }

  lemma AfterSweepIs(c: Settings, w: World)
    ensures AfterSweep(c, w) == if EntriesAllowed(c, w) then EntryEvents(c, w, w.pairSets) else [Stop]
  {
  }

  // ---------- The cycle's own decisions ----------

  /** The pair-set's live reading is about this pair and points this way. */
  predicate Names(ps: PairSet, pair: string, direction: Direction) {
    match EvaluateSmt(ps.inputs)
    case None => false
    case Some((Primary, d, _)) => pair == ps.primary && d == direction
    case Some((Secondary, d, _)) => pair == ps.secondary && d == direction
  }

  /** Of the pair-sets with a reading about this pair, the last one's points this way. */
  ghost predicate LatestReading(pairSets: seq<PairSet>, pair: string, direction: Direction) {
    exists j :: 0 <= j < |pairSets| && Names(pairSets[j], pair, direction) &&
                forall k, d :: j < k < |pairSets| ==> !Names(pairSets[k], pair, d)
  }

  ghost predicate Holds(readings: map<string, (Direction, Tier)>, pair: string, direction: Direction) {
    exists tier :: (pair, (direction, tier)) in readings.Items
  }

  lemma {:induction false} DivergencesAreLatest(pairSets: seq<PairSet>, pair: string, direction: Direction)
    ensures Holds(Divergences(pairSets), pair, direction) <==> LatestReading(pairSets, pair, direction)
  {
    if pairSets != [] {
      var rest, ps := pairSets[..|pairSets| - 1], pairSets[|pairSets| - 1];
      DivergencesAreLatest(rest, pair, direction);
      DivergencesGrow(pairSets, pair, direction);
      LatestGrows(pairSets, pair, direction);
    }
  }

  /** Whether the pair-set has a reading about this pair. */
  ghost predicate Speaks(ps: PairSet, pair: string) {
    exists d :: Names(ps, pair, d)
  }

  lemma DivergencesGrow(pairSets: seq<PairSet>, pair: string, direction: Direction)
    requires pairSets != []
    ensures var rest, ps := pairSets[..|pairSets| - 1], pairSets[|pairSets| - 1];
            Holds(Divergences(pairSets), pair, direction) <==>
            Names(ps, pair, direction) || (!Speaks(ps, pair) && Holds(Divergences(rest), pair, direction))
  {
    var rest, ps := pairSets[..|pairSets| - 1], pairSets[|pairSets| - 1];
    var readings, earlier := Divergences(pairSets), Divergences(rest);
    hide EvaluateSmt;
    if EvaluateSmt(ps.inputs).Some? {
      var (target, d, tier) := EvaluateSmt(ps.inputs).value;
      var named := if target == Primary then ps.primary else ps.secondary;
      assert Names(ps, named, d) && readings == earlier[named := (d, tier)];
      assert (named, (d, tier)) in readings.Items;
      if pair != named {
        assert forall t :: (pair, (direction, t)) in readings.Items <==> (pair, (direction, t)) in earlier.Items;
      }
    }
  }

  lemma LatestGrows(pairSets: seq<PairSet>, pair: string, direction: Direction)
    requires pairSets != []
    ensures var rest, ps := pairSets[..|pairSets| - 1], pairSets[|pairSets| - 1];
            LatestReading(pairSets, pair, direction) <==>
            Names(ps, pair, direction) || (!Speaks(ps, pair) && LatestReading(rest, pair, direction))
  {
    hide Names;
    var n := |pairSets| - 1;
    var rest, ps := pairSets[..n], pairSets[n];
    if Names(ps, pair, direction) {
      assert LatestReading(pairSets, pair, direction);
    } else if !Speaks(ps, pair) && LatestReading(rest, pair, direction) {
      var j :| 0 <= j < n && Names(rest[j], pair, direction) && forall k, d :: j < k < n ==> !Names(rest[k], pair, d);
      assert pairSets[j] == rest[j];
      forall k, d | j < k < |pairSets|
        ensures !Names(pairSets[k], pair, d)
      {
        if k < n {
          assert pairSets[k] == rest[k];
        }
      }
    }
    if LatestReading(pairSets, pair, direction) && !Names(ps, pair, direction) {
      var j :| 0 <= j < |pairSets| && Names(pairSets[j], pair, direction) &&
               forall k, d :: j < k < |pairSets| ==> !Names(pairSets[k], pair, d);
      assert j < n && rest[j] == pairSets[j];
      assert forall k :: j < k < n ==> rest[k] == pairSets[k];
    }
  }

  /** A reason to close a position, on the bids, the news and the live readings this cycle meets. */
  ghost predicate ToClose(reason: ExitReason, p: Position, w: World) {
    match reason
    case StopLoss => p.stopLoss.Some? && p.pair in w.quotes && Past(p, p.stopLoss.value, w.quotes[p.pair].bid) <= 0.0
    case TakeProfit =>
      p.takeProfit.Some? && p.pair in w.quotes && Past(p, p.takeProfit.value, w.quotes[p.pair].bid) >= 0.0
    case News => w.newsActive
    case Contradiction => LatestReading(w.pairSets, p.pair, Opposite(p.direction))
  }

  lemma ReasonsOfCycle(reason: ExitReason, p: Position, w: World)
    ensures CallsFor(reason, p, Bids(w.quotes), w.newsActive, Divergences(w.pairSets)) <==> ToClose(reason, p, w)
  {
    hide Divergences, LatestReading;
    DivergencesAreLatest(w.pairSets, p.pair, Opposite(p.direction));
  }

  /** If anything speaks for closing the position, then one thing does first. */
  lemma SomeReasonFirst(reason: ExitReason, p: Position, w: World) returns (first: ExitReason)
    requires ToClose(reason, p, w)
    ensures First(first, p, Bids(w.quotes), w.newsActive, Divergences(w.pairSets))
  {
    forall other: ExitReason { ReasonsOfCycle(other, p, w); }
    first := if ToClose(StopLoss, p, w) then StopLoss
    else if ToClose(TakeProfit, p, w) then TakeProfit
    else if ToClose(News, p, w) then News
    else reason;
    hide CallsFor, ToClose, Bids, Divergences;
  }

  /** A cycle asks for exactly those known positions to be closed that its own bids, news and readings give a reason to
      close; for none if its listing or its heartbeat fails. */
  lemma CycleClosesForReasons(s: State, w: World, id: int)
    ensures var known := KnownAtStart(s, w);
            id in Asked(s, w) <==>
              && w.answered && w.heartbeat
              && exists i, reason :: 0 <= i < |known| && known[i].id == id && ToClose(reason, known[i], w)
  {
    var known := KnownAtStart(s, w);
    var exits := Exits(known, w);
    hide CallsFor, ToClose, First, KnownAtStart, Bids, Divergences;
    forall x: ExitDecision
      ensures x in exits <==>
              exists i :: 0 <= i < |known| && known[i].id == x.id &&
                          First(x.reason, known[i], Bids(w.quotes), w.newsActive, Divergences(w.pairSets))
    {
      ExitsAreThoseWithReason(known, Bids(w.quotes), w.newsActive, Divergences(w.pairSets), x);
    }
    hide Exits;
    assert id in IdsOf(exits) <==> exists x :: x in exits && x.id == id by { IdsOfExits(exits, id); }
    if i, reason :| 0 <= i < |known| && known[i].id == id && ToClose(reason, known[i], w) {
      var first := SomeReasonFirst(reason, known[i], w);
      assert ExitDecision(id, first) in exits;
    }
    if id in IdsOf(exits) {
      var x :| x in exits && x.id == id;
      var i :| 0 <= i < |known| && known[i].id == id &&
               First(x.reason, known[i], Bids(w.quotes), w.newsActive, Divergences(w.pairSets));
      FirstCalls(x.reason, known[i], w);
    }
  }

  lemma FirstCalls(reason: ExitReason, p: Position, w: World)
    requires First(reason, p, Bids(w.quotes), w.newsActive, Divergences(w.pairSets))
    ensures ToClose(reason, p, w)
  {
    ReasonsOfCycle(reason, p, w);
    hide CallsFor, ToClose, Bids, Divergences;
  }

  lemma IdsOfExits(exits: seq<ExitDecision>, id: int)
    ensures id in IdsOf(exits) <==> exists x :: x in exits && x.id == id
  {
    if id in IdsOf(exits) {
      var i :| 0 <= i < |exits| && IdsOf(exits)[i] == id;
      assert exits[i] in exits;
    }
    if x :| x in exits && x.id == id {
      var i :| 0 <= i < |exits| && exits[i] == x;
      assert IdsOf(exits)[i] == id;
    }
  }

  /** An order that risks what it should for its stop, and brackets the price it was decided on. */
  ghost predicate SoundOrder(o: Order, signal: Signal, c: Settings, context: RiskContext) {
    && o.signal == signal
    && Entry.Bracketed(signal.direction, o.stopLoss, context.entryPrice, o.takeProfit)
    && exists percent :: IsRiskOf(percent, c.risk, context.isTuesday || context.isDoubleSmt) &&
                         Product(o.size, Abs(context.entryPrice - o.stopLoss)) == Product(context.equity, percent)
  }

  /** Whatever the levels, an order a cycle sends risks the base, or twice that on a Tuesday or a double signal, up to
      the cap, and is bracketed about the price it was decided on; so is the position it opens, at whatever price and
      time it is filled. */
  lemma OrdersAreBracketed(c: Settings, w: World, ps: PairSet, known: seq<Position>, id: int, fill: Fill)
    requires Entry.OneSnapshot(ps.inputs, w.quotes, ps.primary, ps.secondary)
    requires ProposalOf(c, w, ps).Some? && ProposalOf(c, w, ps).value.context.Some?
    requires Decision(c.risk, known, ProposalOf(c, w, ps).value).Approved?
    ensures var p := ProposalOf(c, w, ps).value;
            var o := OrderFor(p.signal, Decision(c.risk, known, p), w.now);
            var q := Opened(id, o, fill);
              && SoundOrder(o, p.signal, c, p.context.value) && o.placedAt == w.now
              && q.id == id && q.pair == p.signal.pair && q.direction == p.signal.direction
              && TotalSize(q.legs) == o.size && q.entryPrice == fill.price && q.entryTime == w.now + fill.delay
              && Straddled(q)
              && Entry.Bracketed(q.direction, q.stopLoss.value, p.context.value.entryPrice, q.takeProfit.value)
  {
    var p := ProposalOf(c, w, ps).value;
    var account := AccountContext(c, w, ps.reception.equity.value)
      .(openPositionCount := |known|, currencyExposure := Exposure.SnapshotOf(known),
        correlatedExposure := CorrelatedExposure(known, p.counterpart));
    var context := p.context.value.(openPositionCount := |known|, currencyExposure := Exposure.SnapshotOf(known),
                                    correlatedExposure := CorrelatedExposure(known, p.counterpart));
    hide GenerateSignal, Entry.OneSnapshot;
    ApprovedSizing(p.signal, c.risk, context);
    hide Evaluate;
    Entry.ApprovedTradeIsBracketed(ps.inputs, w.quotes, ps.primary, ps.secondary, ps.weekly, ps.daily, c.risk, account);
    var d := Decision(c.risk, known, p);
    SizeOfOneLeg(FillLeg(fill.price, d.size, w.now + fill.delay));
    hide Product, IsRiskOf, TotalSize;
    assert SoundOrder(OrderFor(p.signal, d, w.now), p.signal, c, p.context.value);
  }

  /** The two prices have moved together, or against each other, closely enough. */
  predicate Correlated(c: Settings, ps: PairSet) {
    && ps.coefficient.Some?
    && (ps.coefficient.value >= c.correlationThreshold || ps.coefficient.value <= -c.correlationThreshold)
  }

  /** A proposal is judged on the equity read, at the market price and the level held, as a Tuesday's if the New York
      date is two days after a Sunday, as a double one's if the signal is; what is open on the pair-set's other symbol
      counts if the two are correlated. */
  lemma ProposalIs(c: Settings, w: World, ps: PairSet, other: string)
    requires ps.primary != ps.secondary && ProposalOf(c, w, ps).Some?
    ensures var p := ProposalOf(c, w, ps).value;
              && EvaluateSmt(ps.inputs).Some?
              && (p.context.Some? <==> ps.reception.equity.Some?)
              && (p.context.Some? ==>
                    var context := p.context.value;
                      && context.equity == ps.reception.equity.value
                      && (context.isTuesday <==> Gregorian.Weekday(DateAt(c.zone, w.now) - 2) == Gregorian.SUNDAY)
                      && (context.isDoubleSmt <==> p.signal.tier == Double)
                      && context.realizedToday == 0.0 && context.realizedThisWeek == 0.0
                      && Entry.IsMarketPrice(context.entryPrice, ps.inputs, w.quotes, p.signal.pair)
                      && context.stopLossPrice == Entry.HeldLevel(ps.inputs))
              && (p.counterpart == Some(other) <==>
                  Correlated(c, ps) && {p.signal.pair, other} == {ps.primary, ps.secondary})
  {
    var p := ProposalOf(c, w, ps).value;
    hide EvaluateSmt, Entry.HeldLevel, Entry.IsMarketPrice, DateAt;
    SignalIff(ps.inputs, ps.weekly, ps.daily, ps.primary, ps.secondary, p.signal);
    if ps.reception.equity.Some? {
      Entry.PricedAtMarket(ps.inputs, w.quotes, ps.primary, ps.secondary, ps.weekly, ps.daily,
                           AccountContext(c, w, ps.reception.equity.value));
    }
    hide GenerateSignal;
    OtherSymbol(p.signal.pair, other, ps.primary, ps.secondary);
  }

  lemma OtherSymbol(pair: string, other: string, primary: string, secondary: string)
    requires primary != secondary && (pair == primary || pair == secondary)
    ensures {pair, other} == {primary, secondary} <==> other == if pair == primary then secondary else primary
  {
    if {pair, other} == {primary, secondary} {
      assert primary in {pair, other} && secondary in {pair, other};
    }
  }

  /** A pair-set proposes a trade exactly if its spread is no more than the multiplier times the mean of those recorded,
      its prices diverge, and no standing bias opposes the direction. */
  lemma ProposesIff(c: Settings, w: World, ps: PairSet, s: Signal)
    requires ps.primary != ps.secondary
    ensures ProposalOf(c, w, ps).Some? && ProposalOf(c, w, ps).value.signal == s <==>
            && (ps.spreads == [] || ps.spread * |ps.spreads| as real <= c.spreadMultiplier * Buffers.Total(ps.spreads))
            && (s.pair == ps.primary || s.pair == ps.secondary)
            && EvaluateSmt(ps.inputs) ==
               Some((if s.pair == ps.secondary then Secondary else Primary, s.direction, s.tier))
            && !Opposed(ps.weekly, ps.daily, s.direction)
  {
    Buffers.PassesIff(ps.spreads, ps.spread, c.spreadMultiplier);
    SignalIff(ps.inputs, ps.weekly, ps.daily, ps.primary, ps.secondary, s);
    hide GenerateSignal, EvaluateSmt, Buffers.PassesFilter, Buffers.Total, Opposed;
  }

  /** Less than eleven minutes from a whole multiple of three hours, or told to go ahead; in good health; and the date
      in UTC is none of 1 January, Good Friday, Thanksgiving, the day after it, and 25 to 31 December. */
  ghost predicate GoodMoment(c: Settings, w: World) {
    var date := w.now / DAY;
    var d := Gregorian.DateOf(date);
    && (w.forced || exists centre :: MacroCycle.IsCenter(centre) &&
                                     MacroCycle.Distance(Local(c.zone, w.now), centre) < 11 * MINUTE)
    && w.healthy
    && !(d.month == 1 && d.day == 1) && !(d.month == 12 && d.day >= 25)
    && date != Holidays.Thanksgiving(d.year) && date != Holidays.Thanksgiving(d.year) + 1
    && date != Holidays.GoodFriday(d.year)
  }

  lemma AllowedIff(c: Settings, w: World)
    requires Gregorian.DateOf(w.now / DAY).year >= 0
    ensures EntriesAllowed(c, w) <==> GoodMoment(c, w)
  {
    MacroCycle.WithinIffNearCenter(c.zone, w.now);
    Holidays.LowLiquidityDays(w.now / DAY);
    hide MacroCycle.IsWithinMacroCycle, Holidays.IsLowLiquidity, Holidays.Thanksgiving, Holidays.GoodFriday,
      Gregorian.DateOf;
  }

  lemma {:induction false} EntrySubmits(c: Settings, w: World, pairSets: seq<PairSet>, p: Proposal, h: Handling)
    ensures Submit(p, h) in EntryEvents(c, w, pairSets) <==>
            exists i :: 0 <= i < |pairSets| && ProposalOf(c, w, pairSets[i]) == Some(p) &&
                        pairSets[i].reception.handling == h
  {
    if pairSets != [] {
      hide ProposalOf;
      var rest := pairSets[1..];
      EntrySubmits(c, w, rest, p, h);
      if i :| 0 <= i < |rest| && ProposalOf(c, w, rest[i]) == Some(p) && rest[i].reception.handling == h {
        assert pairSets[i + 1] == rest[i];
      }
      if i :| 0 < i < |pairSets| && ProposalOf(c, w, pairSets[i]) == Some(p) && pairSets[i].reception.handling == h {
        assert rest[i - 1] == pairSets[i];
      }
    }
  }

  lemma {:induction false} SweepSubmits(c: Settings, w: World, exits: seq<ExitDecision>, j: nat, p: Proposal,
                                        h: Handling)
    ensures Submit(p, h) in SweepEvents(c, w, exits, j) <==> Submit(p, h) in AfterSweep(c, w)
    decreases |exits|
  {
    hide AfterSweep;
    if exits != [] {
      SweepSubmits(c, w, exits[1..], j + 1, p, h);
    }
  }

  /** The steps of a cycle try an order exactly if the moment allows entries and some pair-set proposes it. */
  lemma CycleSubmitsIff(c: Settings, s: State, w: World, p: Proposal, h: Handling)
    requires Gregorian.DateOf(w.now / DAY).year >= 0
    ensures Submit(p, h) in Events(c, s, w) <==>
            GoodMoment(c, w) && exists i :: 0 <= i < |w.pairSets| && ProposalOf(c, w, w.pairSets[i]) == Some(p) &&
                                            w.pairSets[i].reception.handling == h
  {
    AllowedIff(c, w);
    EntrySubmits(c, w, w.pairSets, p, h);
    SweepSubmits(c, w, Exits(KnownAtStart(s, w), w), 0, p, h);
    hide EntriesAllowed, GoodMoment, EntryEvents, SweepEvents, ProposalOf, Exits, KnownAtStart;
  }

  // ---------- Over many cycles ----------

  /** What the broker does by itself, and then a cycle. */
  datatype Span = Span(before: seq<Event>, world: World)

  function AfterSpan(c: Settings, s: State, span: Span): State {
    var met := Run(c.risk, s, span.before);
    Run(c.risk, met, Events(c, met, span.world))
  }

  function AfterAll(c: Settings, s: State, spans: seq<Span>): State
    decreases |spans|
  {
    if spans == [] then s else AfterAll(c, AfterSpan(c, s, spans[0]), spans[1..])
  }

  function AllEvents(c: Settings, s: State, spans: seq<Span>): seq<Event>
    decreases |spans|
  {
    if spans == [] then []
    else
      spans[0].before + Events(c, Run(c.risk, s, spans[0].before), spans[0].world)
      + AllEvents(c, AfterSpan(c, s, spans[0]), spans[1..])
  }

  lemma {:induction false} RunInParts(config: RiskConfig, s: State, a: seq<Event>, b: seq<Event>)
    ensures Run(config, s, a + b) == Run(config, Run(config, s, a), b)
    decreases |a|
  {
    if a == [] {
      assert a + b == b;
    } else {
      hide Next;
      assert (a + b)[0] == a[0] && (a + b)[1..] == a[1..] + b;
      RunInParts(config, Next(config, s, a[0]), a[1..], b);
    }
  }

  lemma {:induction false} AllEventsRun(c: Settings, s: State, spans: seq<Span>)
    ensures AfterAll(c, s, spans) == Run(c.risk, s, AllEvents(c, s, spans))
    decreases |spans|
  {
    if spans != [] {
      hide Events, Next;
      var span, rest := spans[0], AllEvents(c, AfterSpan(c, s, spans[0]), spans[1..]);
      var cycle := Events(c, Run(c.risk, s, span.before), span.world);
      AllEventsRun(c, AfterSpan(c, s, span), spans[1..]);
      hide Run;
      RunInParts(c.risk, s, span.before, cycle);
      RunInParts(c.risk, s, span.before + cycle, rest);
    }
  }

  predicate AllOnTime(events: seq<Event>, skew: nat) {
    forall j :: 0 <= j < |events| ==> OnTime(events[j], skew)
  }

  /** Before the cycle only the broker acts, and no order of the cycle is stamped more than the skew before the
      cycle's clock reading. */
  predicate Punctual(span: Span, skew: nat) {
    && (forall e :: e in span.before ==> OfBroker(e))
    && forall ps :: ps in span.world.pairSets && ps.reception.handling.fill.Some? ==>
         ps.reception.handling.fill.value.delay + skew >= 0
  }

  lemma {:induction false} EntriesOnTime(c: Settings, w: World, pairSets: seq<PairSet>, skew: nat)
    requires forall ps :: ps in pairSets && ps.reception.handling.fill.Some? ==>
               ps.reception.handling.fill.value.delay + skew >= 0
    ensures AllOnTime(EntryEvents(c, w, pairSets), skew)
  {
    if pairSets != [] {
      hide ProposalOf;
      EntriesOnTime(c, w, pairSets[1..], skew);
      assert pairSets[0] in pairSets;
    }
  }

  lemma {:induction false} SweepOnTime(c: Settings, span: Span, exits: seq<ExitDecision>, j: nat, skew: nat)
    requires Punctual(span, skew)
    ensures AllOnTime(SweepEvents(c, span.world, exits, j), skew)
    decreases |exits|
  {
    hide EntriesAllowed, EntryEvents;
    if exits == [] {
      EntriesOnTime(c, span.world, span.world.pairSets, skew);
    } else {
      SweepOnTime(c, span, exits[1..], j + 1, skew);
    }
  }

  lemma SpanOnTime(c: Settings, s: State, span: Span, skew: nat)
    requires Punctual(span, skew)
    ensures AllOnTime(span.before + Events(c, s, span.world), skew)
  {
    var exits := Exits(KnownAtStart(s, span.world), span.world);
    SweepOnTime(c, span, exits, 0, skew);
    hide SweepEvents, Exits, KnownAtStart;
    assert AllOnTime(Events(c, s, span.world), skew);
    forall j | 0 <= j < |span.before|
      ensures OnTime(span.before[j], skew)
    {
      assert span.before[j] in span.before;
    }
  }

  lemma {:induction false} SpansOnTime(c: Settings, s: State, spans: seq<Span>, skew: nat)
    requires forall span :: span in spans ==> Punctual(span, skew)
    ensures AllOnTime(AllEvents(c, s, spans), skew)
    decreases |spans|
  {
    if spans != [] {
      hide Punctual, Events, OnTime, Run, AfterSpan;
      SpansOnTime(c, AfterSpan(c, s, spans[0]), spans[1..], skew);
      assert spans[0] in spans;
      SpanOnTime(c, Run(c.risk, s, spans[0].before), spans[0], skew);
    }
  }

  /** Any number of cycles, deciding for themselves on anything they may meet, from any broker book and any log that
      agrees with it: the position limit holds, up to the orders the broker may still fill late, unless it was already
      exceeded, and entries on a pair stay apart, late fills aside. */
  lemma CyclesAreSafe(c: Settings, open: seq<Position>, nextId: int, log: seq<Position>, spans: seq<Span>,
                      skew: nat, m: nat)
    requires DistinctIds(open) && Coherent(Set(open) + Set(log), nextId)
    requires forall span :: span in spans ==> Punctual(span, skew)
    requires AtMostLate(c.risk, Fresh(open, nextId, log), AllEvents(c, Fresh(open, nextId, log), spans), m)
    ensures var t := AfterAll(c, Fresh(open, nextId, log), spans);
              && (|t.open| <= |open| || |t.open| <= c.risk.maxOpenPositions + m)
              && Spaced(t.open, t.tardy, nextId, MIN_BETWEEN_ENTRIES - skew)
  {
    var s := Fresh(open, nextId, log);
    assert Records(s) == Set(open) + Set(log);
    hide Run, AllEvents, AfterAll, Punctual, Spaced, Coherent, OnTime, Set, AtMostLate;
    AllEventsRun(c, s, spans);
    SpansOnTime(c, s, spans, skew);
    CountBounded(c.risk, s, AllEvents(c, s, spans), m);
    EntriesSpaced(c.risk, s, AllEvents(c, s, spans), skew);
  }

  // ---------- The live daemon never trades ----------

  /** The pair-set's levels are ranges already widened with the prices tested against them, as live cycles build
      them. */
  ghost predicate Live(c: Settings, w: World, ps: PairSet) {
    exists dailyPrimary, dailySecondary, sessionPrimary, sessionSecondary ::
      ps.inputs == LiveInputs(c.zone, ps.inputs.primaryPrice, ps.inputs.secondaryPrice, w.now,
                              dailyPrimary, dailySecondary, sessionPrimary, sessionSecondary)
  }

  lemma LiveProposesNothing(c: Settings, w: World, ps: PairSet)
    requires Live(c, w, ps)
    ensures ProposalOf(c, w, ps) == None
  {
    var dailyPrimary, dailySecondary, sessionPrimary, sessionSecondary :|
      ps.inputs == LiveInputs(c.zone, ps.inputs.primaryPrice, ps.inputs.secondaryPrice, w.now,
                              dailyPrimary, dailySecondary, sessionPrimary, sessionSecondary);
    hide LiveInputs, GenerateSignal;
    LiveCycleNeverSignals(c.zone, ps.inputs.primaryPrice, ps.inputs.secondaryPrice, w.now, dailyPrimary, dailySecondary,
                          sessionPrimary, sessionSecondary, ps.weekly, ps.daily, ps.primary, ps.secondary);
  }

  predicate NoOrders(events: seq<Event>) {
    forall i :: 0 <= i < |events| ==> !events[i].Submit?
  }

  lemma {:induction false} LiveEntries(c: Settings, w: World, pairSets: seq<PairSet>)
    requires forall ps :: ps in pairSets ==> Live(c, w, ps)
    ensures NoOrders(EntryEvents(c, w, pairSets))
  {
    if pairSets != [] {
      hide Live, ProposalOf;
      assert pairSets[0] in pairSets;
      LiveProposesNothing(c, w, pairSets[0]);
      LiveEntries(c, w, pairSets[1..]);
    }
  }

  lemma {:induction false} LiveSweep(c: Settings, w: World, exits: seq<ExitDecision>, j: nat)
    requires forall ps :: ps in w.pairSets ==> Live(c, w, ps)
    ensures NoOrders(SweepEvents(c, w, exits, j))
    decreases |exits|
  {
    hide Live, EntriesAllowed, EntryEvents;
    if exits == [] {
      LiveEntries(c, w, w.pairSets);
    } else {
      LiveSweep(c, w, exits[1..], j + 1);
    }
  }

  lemma StepWithoutOrder(config: RiskConfig, s: State, e: Event)
    requires Sound(s) && s.late == [] && !e.Submit?
    ensures var t := Next(config, s, e);
            t.late == [] && Ids(t.open) <= Ids(s.open)
  {
    hide Settled, Without, Reconciled, Coherent, Covered, DistinctIds, Ids;
    var book := BookOf(s, e);
    SettledKeeps(s.open, book);
    WithoutKeeps(Settled(s.open, book), ClosedBy(e));
    assert !e.LateFill? ==> Next(config, s, e).late == [];
    if !e.LateFill? {
      OpenAfter(config, s, e);
    }
  }

  lemma {:induction false} RunWithoutOrders(config: RiskConfig, s: State, events: seq<Event>)
    requires Sound(s) && s.late == [] && NoOrders(events)
    ensures var t := Run(config, s, events);
            Sound(t) && t.late == [] && Ids(t.open) <= Ids(s.open)
    decreases |events|
  {
    if events != [] {
      hide Next, Sound;
      StepWithoutOrder(config, s, events[0]);
      SoundStep(config, s, events[0]);
      RunWithoutOrders(config, Next(config, s, events[0]), events[1..]);
    }
  }

  /** Over any number of cycles on live levels, whatever the prices, the biases, the settings and the account, and
      whatever the broker does, no position is ever opened. */
  lemma {:induction false} LiveDaemonNeverTrades(c: Settings, s: State, spans: seq<Span>)
    requires Sound(s) && s.late == []
    requires forall span :: span in spans ==> forall e :: e in span.before ==> OfBroker(e)
    requires forall span :: span in spans ==> forall ps :: ps in span.world.pairSets ==> Live(c, span.world, ps)
    ensures Ids(AfterAll(c, s, spans).open) <= Ids(s.open)
    decreases |spans|
  {
    if spans != [] {
      hide Sound, Live, Ids, Run, Events;
      var span := spans[0];
      assert span in spans;
      forall i | 0 <= i < |span.before|
        ensures !span.before[i].Submit?
      {
        assert span.before[i] in span.before;
      }
      RunWithoutOrders(c.risk, s, span.before);
      var met := Run(c.risk, s, span.before);
      LiveCycleSendsNothing(c, met, span.world);
      RunWithoutOrders(c.risk, met, Events(c, met, span.world));
      LiveDaemonNeverTrades(c, AfterSpan(c, s, span), spans[1..]);
    }
  }

  lemma LiveCycleSendsNothing(c: Settings, s: State, w: World)
    requires forall ps :: ps in w.pairSets ==> Live(c, w, ps)
    ensures NoOrders(Events(c, s, w))
  {
    hide Live, SweepEvents, Exits, KnownAtStart;
    LiveSweep(c, w, Exits(KnownAtStart(s, w), w), 0);
  }
}
