/** The live cycle replayed: what `run_replay` of `daemon/src/main.rs` must come to when every cycle builds its levels
    as `run_real_cycle` does. */
module LiveReplay {
  import opened Prelude
  import opened Domain
  import opened Replay
  import Cycle
  import Daemon

  /** The broker is sent a cycle's own closings and orders, in order, if not all of them; how each is met is open. */
  predicate SentBy(ops: seq<Op>, events: seq<Cycle.Event>)
    decreases |events|
  {
    if events == [] then ops == []
    else
      SentBy(ops, events[1..]) || (ops != [] && Asks(ops[0], events[0]) && SentBy(ops[1..], events[1..]))
  }

  predicate Asks(op: Op, e: Cycle.Event) {
    match op
    case Submit(_, _, request, _) =>
      e.Submit? && request.pair == e.proposal.signal.pair && request.side == e.proposal.signal.direction
    case Close(id, _) => e.CloseExit? && e.id == id
    case Advance => false
  }

  predicate ClosesOnly(ops: seq<Op>) {
    forall i :: 0 <= i < |ops| ==> ops[i].Close?
  }

  lemma {:induction false} NothingSubmitted(ops: seq<Op>, events: seq<Cycle.Event>)
    requires SentBy(ops, events) && Daemon.NoOrders(events)
    ensures ClosesOnly(ops)
    decreases |events|
  {
    if events != [] {
      assert !events[0].Submit?;
      if SentBy(ops, events[1..]) {
        NothingSubmitted(ops, events[1..]);
      } else {
        NothingSubmitted(ops[1..], events[1..]);
      }
    }
  }

  predicate NoSubmit(ops: seq<Op>) {
    forall i :: 0 <= i < |ops| ==> !ops[i].Submit?
  }

  /** Nothing opened, nothing made. */
  lemma {:induction false} EmptyStaysEmpty(bars: Bars, ops: seq<Op>)
    requires NoSubmit(ops)
    ensures Run(bars, Ledger([], 0.0, 0), ops).positions == [] && Run(bars, Ledger([], 0.0, 0), ops).realized == 0.0
  {
    if ops != [] {
      EmptyStaysEmpty(bars, ops[..|ops| - 1]);
      assert !ops[|ops| - 1].Submit?;
    }
  }

  lemma {:induction false} ScriptWithoutSubmit(cycles: nat -> seq<Op>, n: nat)
    requires forall bar :: ClosesOnly(cycles(bar))
    ensures NoSubmit(Script(cycles, n))
  {
    if n > 1 {
      ScriptWithoutSubmit(cycles, n - 1);
      assert ClosesOnly(cycles(n - 1));
      assert Script(cycles, n) == Script(cycles, n - 1) + [Advance] + cycles(n - 1);
    } else if n == 1 {
      assert ClosesOnly(cycles(0));
    }
  }

  /** Each bar's cycle is a live one, whatever state and world it meets. */
  ghost predicate LiveAt(c: Daemon.Settings, s: Cycle.State, w: Daemon.World, ops: seq<Op>) {
    && (forall ps :: ps in w.pairSets ==> Daemon.Live(c, w, ps))
    && SentBy(ops, Daemon.Events(c, s, w))
  }

  /** A replay of the live cycle, over any bars and settings, is refused for want of data or ends with exactly the
      equity it started with. */
  method ReplayLive(bars: Bars, starting: real, cycles: nat -> seq<Op>, ghost c: Daemon.Settings,
                    ghost states: nat -> Cycle.State, ghost worlds: nat -> Daemon.World) returns (r: Option<real>)
    requires forall bar :: LiveAt(c, states(bar), worlds(bar), cycles(bar))
    ensures r == None || r == Some(starting)
    ensures r == None ==> bars == map[] || exists pair :: pair in bars && bars[pair] == []
  {
    forall bar
      ensures ClosesOnly(cycles(bar))
    {
      assert LiveAt(c, states(bar), worlds(bar), cycles(bar));
      Daemon.LiveCycleSendsNothing(c, states(bar), worlds(bar));
      NothingSubmitted(cycles(bar), Daemon.Events(c, states(bar), worlds(bar)));
    }
    forall bar
      ensures OrdersOnly(cycles(bar))
    {
      assert ClosesOnly(cycles(bar));
    }
    var n;
    r, n := RunReplay(bars, starting, cycles);
    ScriptWithoutSubmit(cycles, n);
    EmptyStaysEmpty(bars, Script(cycles, n));
  }
}
