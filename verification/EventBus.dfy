/** The two-channel event bus of `daemon/src/event_bus.rs`. A receive polls the priority channel and then the
    ordinary one; publishing and the dropping of handles may come between the two polls. */
module EventBus {
  import opened Prelude

  datatype Kind =
    | MacroCycleStarted | Snapshot | Spread | SmtSignal | SignalInvalidated | Risk | Order | Position | News
    | Recovery | Health | Shutdown

  datatype Envelope = Envelope(id: int, kind: Kind)

  predicate IsPriority(e: Envelope) {
    e.kind.Order? || e.kind.Shutdown? || e.kind.Health?
  }

  /** What the current receive has seen of the priority channel: not looked yet, empty, or empty and closed. */
  datatype Poll = Fresh | SawEmpty | SawClosed

  datatype Bus = Bus(capacity: nat, priority: seq<Envelope>, ordinary: seq<Envelope>, handles: nat, receiving: bool,
                     poll: Poll)

  datatype Step = Publish(e: Envelope) | CloneHandle | DropHandle | DropReceiver | PollPriority | PollOrdinary

  /** Full: the publisher waits, to try again. End: the receive returns None. */
  datatype Effect = Silent | Accepted(e: Envelope) | Full | Refused | Delivered(e: Envelope) | End

  function Queue(b: Bus, priority: bool): seq<Envelope> { if priority then b.priority else b.ordinary }

  function SetQueue(b: Bus, priority: bool, q: seq<Envelope>): Bus {
    if priority then b.(priority := q) else b.(ordinary := q)
  }

  function PublishStep(b: Bus, e: Envelope): (Bus, Effect) {
    var q := Queue(b, IsPriority(e));
    if b.handles == 0 then (b, Silent)
    else if !b.receiving then (b, Refused)
    else if |q| >= b.capacity then (b, Full)
    else (SetQueue(b, IsPriority(e), q + [e]), Accepted(e))
  }

  function PollPriorityStep(b: Bus): (Bus, Effect) {
    if !b.receiving || !b.poll.Fresh? then (b, Silent)
    else if b.priority != [] then (b.(priority := b.priority[1..]), Delivered(b.priority[0]))
    else (b.(poll := if b.handles == 0 then SawClosed else SawEmpty), Silent)
  }

  function PollOrdinaryStep(b: Bus): (Bus, Effect) {
    if !b.receiving || b.poll.Fresh? then (b, Silent)
    else
      var b' := b.(poll := Fresh);
      if b.ordinary != [] then (b'.(ordinary := b.ordinary[1..]), Delivered(b.ordinary[0]))
      else if b.poll.SawClosed? && b.handles == 0 then (b', End)
      else (b', Silent)
  }

  function Next(b: Bus, step: Step): (Bus, Effect) {
    match step
    case Publish(e) => PublishStep(b, e)
    case CloneHandle => (if b.handles > 0 then b.(handles := b.handles + 1) else b, Silent)
    case DropHandle => (if b.handles > 0 then b.(handles := b.handles - 1) else b, Silent)
    case DropReceiver => (b.(receiving := false), Silent)
    case PollPriority => PollPriorityStep(b)
    case PollOrdinary => PollOrdinaryStep(b)
  }

  function Run(b: Bus, steps: seq<Step>): Bus
    decreases |steps|
  {
    if steps == [] then b else Run(Next(b, steps[0]).0, steps[1..])
  }

  function Effects(b: Bus, steps: seq<Step>): seq<Effect>
    decreases |steps|
  {
    if steps == [] then [] else [Next(b, steps[0]).1] + Effects(Next(b, steps[0]).0, steps[1..])
  }

  function Opened(capacity: nat): Bus { Bus(capacity, [], [], 1, true, Fresh) }

  // ---------- Nothing lost, nothing repeated, nothing reordered ----------

  function AcceptedBy(effect: Effect, priority: bool): seq<Envelope> {
    if effect.Accepted? && IsPriority(effect.e) == priority then [effect.e] else []
  }

  function DeliveredBy(effect: Effect, priority: bool): seq<Envelope> {
    if effect.Delivered? && IsPriority(effect.e) == priority then [effect.e] else []
  }

  function AllAccepted(effects: seq<Effect>, priority: bool): seq<Envelope> {
    if effects == [] then [] else AcceptedBy(effects[0], priority) + AllAccepted(effects[1..], priority)
  }

  function AllDelivered(effects: seq<Effect>, priority: bool): seq<Envelope> {
    if effects == [] then [] else DeliveredBy(effects[0], priority) + AllDelivered(effects[1..], priority)
  }

  predicate AllOf(q: seq<Envelope>, priority: bool) {
    forall i :: 0 <= i < |q| ==> IsPriority(q[i]) == priority
  }

  /** Each channel holds events of its own kind, within its capacity; a channel seen closed is closed and empty. */
  predicate Sorted(b: Bus) {
    && AllOf(b.priority, true)
    && AllOf(b.ordinary, false)
    && |b.priority| <= b.capacity && |b.ordinary| <= b.capacity
    && (b.poll.SawClosed? ==> b.handles == 0 && b.priority == [])
  }

  /** What a channel held and took in is what it gave out and still holds. */
  predicate Conserves(b: Bus, step: (Bus, Effect), priority: bool) {
    && Sorted(step.0)
    && Queue(b, priority) + AcceptedBy(step.1, priority) == DeliveredBy(step.1, priority) + Queue(step.0, priority)
  }

  lemma PublishConserves(b: Bus, e: Envelope, priority: bool)
    requires Sorted(b)
    ensures Conserves(b, PublishStep(b, e), priority)
  {
    hide IsPriority;
    var q := Queue(b, priority);
    assert q + [] == q == [] + q && [] + (q + [e]) == q + [e];
  }

  lemma HeadAndTail(q: seq<Envelope>, priority: bool)
    requires AllOf(q, priority)
    ensures q != [] ==> IsPriority(q[0]) == priority && AllOf(q[1..], priority) && q == [q[0]] + q[1..]
  {
  }

  lemma NoChange(q: seq<Envelope>)
    ensures q + [] == q && [] + q == q
  {
  }

  lemma PollPriorityConserves(b: Bus, priority: bool)
    requires Sorted(b)
    ensures Conserves(b, PollPriorityStep(b), priority)
  {
    hide IsPriority;
    HeadAndTail(b.priority, true);
    NoChange(Queue(b, priority));
    hide AllOf;
  }

  lemma PollOrdinaryConserves(b: Bus, priority: bool)
    requires Sorted(b)
    ensures Conserves(b, PollOrdinaryStep(b), priority)
  {
    hide IsPriority;
    HeadAndTail(b.ordinary, false);
    NoChange(Queue(b, priority));
    hide AllOf;
  }

  lemma StepConserves(b: Bus, step: Step, priority: bool)
    requires Sorted(b)
    ensures Conserves(b, Next(b, step), priority)
  {
    match step {
      case Publish(e) =>
        hide PublishStep, Conserves;
        PublishConserves(b, e, priority);
      case PollPriority =>
        hide PollPriorityStep, Conserves;
        PollPriorityConserves(b, priority);
      case PollOrdinary =>
        hide PollOrdinaryStep, Conserves;
        PollOrdinaryConserves(b, priority);
      case _ =>
        hide AllOf;
        var q := Queue(b, priority);
        assert q + [] == q == [] + q;
    }
  }

  lemma Chained<T>(q0: seq<T>, a: seq<T>, d: seq<T>, q1: seq<T>, accepted: seq<T>, delivered: seq<T>, q2: seq<T>)
    requires q0 + a == d + q1 && q1 + accepted == delivered + q2
    ensures q0 + (a + accepted) == (d + delivered) + q2
  {
    assert q0 + (a + accepted) == (q0 + a) + accepted == d + (q1 + accepted) == (d + delivered) + q2;
  }

  /** On each channel, what was queued and then accepted is what was delivered and is still queued, in order. */
  lemma {:induction false} ChannelsConserve(b: Bus, steps: seq<Step>, priority: bool)
    requires Sorted(b)
    ensures Sorted(Run(b, steps))
    ensures Queue(b, priority) + AllAccepted(Effects(b, steps), priority)
         == AllDelivered(Effects(b, steps), priority) + Queue(Run(b, steps), priority)
    decreases |steps|
  {
    if steps != [] {
      StepConserves(b, steps[0], priority);
      var (b', effect) := Next(b, steps[0]);
      hide Next, Sorted, Queue, AcceptedBy, DeliveredBy;
      ChannelsConserve(b', steps[1..], priority);
      var rest := Effects(b', steps[1..]);
      assert Effects(b, steps)[1..] == rest;
      Chained(Queue(b, priority), AcceptedBy(effect, priority), DeliveredBy(effect, priority), Queue(b', priority),
              AllAccepted(rest, priority), AllDelivered(rest, priority), Queue(Run(b', steps[1..]), priority));
    }
  }

  /** What a consumer is handed is a merge of the two channels' streams, each in the order it was accepted. */
  lemma DeliveredIsMerge(capacity: nat, steps: seq<Step>, priority: bool)
    ensures var effects := Effects(Opened(capacity), steps);
            AllDelivered(effects, priority) <= AllAccepted(effects, priority)
  {
    ChannelsConserve(Opened(capacity), steps, priority);
    hide AllDelivered, AllAccepted, Effects, Run;
    var accepted := AllAccepted(Effects(Opened(capacity), steps), priority);
    assert Queue(Opened(capacity), priority) + accepted == accepted;
  }

  // ---------- The end ----------

  lemma {:induction false} ClosedIsFinal(b: Bus, steps: seq<Step>)
    requires b.handles == 0 && b.priority == [] && b.ordinary == []
    ensures forall i :: 0 <= i < |Effects(b, steps)| ==>
              !Effects(b, steps)[i].Accepted? && !Effects(b, steps)[i].Delivered?
    decreases |steps|
  {
    if steps != [] {
      ClosedIsFinal(Next(b, steps[0]).0, steps[1..]);
    }
  }

  /** A receive returns None only when every handle is gone and both channels are drained; then all that was
      ever accepted has been delivered, and nothing follows. */
  lemma EndMeansDrained(capacity: nat, steps: seq<Step>, step: Step, more: seq<Step>, priority: bool)
    requires var b := Run(Opened(capacity), steps);
             Next(b, step).1 == End
    ensures var b, effects := Run(Opened(capacity), steps), Effects(Opened(capacity), steps);
              && b.handles == 0 && b.priority == [] && b.ordinary == []
              && AllDelivered(effects, priority) == AllAccepted(effects, priority)
              && forall i :: 0 <= i < |Effects(b, more)| ==>
                   !Effects(b, more)[i].Accepted? && !Effects(b, more)[i].Delivered?
  {
    ChannelsConserve(Opened(capacity), steps, priority);
    var b := Run(Opened(capacity), steps);
    hide Run, AllDelivered, AllAccepted;
    var effects := Effects(Opened(capacity), steps);
    assert Queue(Opened(capacity), priority) + AllAccepted(effects, priority) == AllAccepted(effects, priority);
    assert Next(b, step).1 == End ==> step == PollOrdinary;
    ClosedIsFinal(b, more);
    hide Effects;
  }

  // ---------- Who still holds an end ----------

  /** Whoever publishes, clones or drops holds a handle. */
  predicate Owned(b: Bus, steps: seq<Step>)
    decreases |steps|
  {
    steps == [] ||
    ((steps[0].Publish? || steps[0].CloneHandle? || steps[0].DropHandle? ==> b.handles > 0) &&
     Owned(Next(b, steps[0]).0, steps[1..]))
  }

  function Times(steps: seq<Step>, step: Step): nat {
    multiset(steps)[step]
  }

  /** The handles left are those there were and their clones, less those dropped; the receiver stays until dropped. */
  lemma {:induction false} EndsHeld(b: Bus, steps: seq<Step>)
    requires Owned(b, steps)
    ensures Run(b, steps).handles + Times(steps, DropHandle) == b.handles + Times(steps, CloneHandle)
    ensures Run(b, steps).receiving <==> b.receiving && DropReceiver !in steps
    decreases |steps|
  {
    if steps != [] {
      assert steps == [steps[0]] + steps[1..];
      StepHolds(b, steps[0]);
      hide Next;
      EndsHeld(Next(b, steps[0]).0, steps[1..]);
    }
  }

  lemma StepHolds(b: Bus, step: Step)
    requires step.CloneHandle? || step.DropHandle? ==> b.handles > 0
    ensures var t := Next(b, step).0;
              && t.handles == b.handles + (if step.CloneHandle? then 1 else if step.DropHandle? then -1 else 0)
              && (t.receiving <==> b.receiving && step != DropReceiver)
  {
  }

  /** Once the receiver is gone every event is refused and none delivered. */
  lemma {:induction false} WithoutReceiver(b: Bus, steps: seq<Step>)
    requires Owned(b, steps) && !b.receiving
    ensures |Effects(b, steps)| == |steps|
    ensures forall i :: 0 <= i < |steps| ==> Effects(b, steps)[i] == if steps[i].Publish? then Refused else Silent
    decreases |steps|
  {
    if steps != [] {
      WithoutReceiver(Next(b, steps[0]).0, steps[1..]);
    }
  }

  /** The polls of n receives; the second poll of one that found a priority event does nothing. */
  function Receives(n: nat): seq<Step> {
    if n == 0 then [] else [PollPriority] + ([PollOrdinary] + Receives(n - 1))
  }

  /** What a consumer is handed, in order. */
  function Handed(effects: seq<Effect>): seq<Envelope> {
    if effects == [] then []
    else (if effects[0].Delivered? then [effects[0].e] else []) + Handed(effects[1..])
  }

  function GivenBy(effect: Effect): seq<Envelope> {
    if effect.Delivered? then [effect.e] else []
  }

  lemma EffectsFirst(b: Bus, step: Step, rest: seq<Step>)
    ensures var (t, effect) := Next(b, step);
              && Effects(b, [step] + rest) == [effect] + Effects(t, rest)
              && Handed(Effects(b, [step] + rest)) == GivenBy(effect) + Handed(Effects(t, rest))
  {
    hide Next;
    assert ([step] + rest)[1..] == rest;
    assert ([Next(b, step).1] + Effects(Next(b, step).0, rest))[1..] == Effects(Next(b, step).0, rest);
  }

  /** One receive once every handle is gone. */
  lemma ReceiveDrains(b: Bus)
    requires b.receiving && b.poll.Fresh? && b.handles == 0
    ensures var (seen, first) := Next(b, PollPriority);
            var (left, second) := Next(seen, PollOrdinary);
              && left.receiving && left.poll.Fresh? && left.handles == 0
              && GivenBy(first) + GivenBy(second) + (left.priority + left.ordinary) == b.priority + b.ordinary
              && |GivenBy(first) + GivenBy(second)| == (if b.priority + b.ordinary == [] then 0 else 1)
              && (b.priority + b.ordinary == [] ==> second == End)
  {
    if b.priority != [] {
      assert [b.priority[0]] + (b.priority[1..] + b.ordinary) == b.priority + b.ordinary;
    } else if b.ordinary != [] {
      assert [b.ordinary[0]] + b.ordinary[1..] == b.ordinary;
    }
  }

  /** With every handle gone, receiving goes on until all that is queued has been handed over, priority events first,
      each channel in order, and the receive after that returns None. */
  lemma {:induction false} DrainsThenEnds(b: Bus)
    requires b.receiving && b.poll.Fresh? && b.handles == 0
    ensures var effects := Effects(b, Receives(|b.priority| + |b.ordinary| + 1));
            Handed(effects) == b.priority + b.ordinary && effects != [] && effects[|effects| - 1] == End
    decreases |b.priority| + |b.ordinary|
  {
    var n := |b.priority| + |b.ordinary|;
    var (seen, first) := Next(b, PollPriority);
    var (left, second) := Next(seen, PollOrdinary);
    ReceiveDrains(b);
    EffectsFirst(b, PollPriority, [PollOrdinary] + Receives(n));
    EffectsFirst(seen, PollOrdinary, Receives(n));
    NoneLeft(left);
    hide Next, Effects, Handed, GivenBy;
    if n > 0 {
      DrainsThenEnds(left);
    }
  }

  lemma NoneLeft(b: Bus)
    ensures Receives(0) == [] && Effects(b, []) == [] && Handed([]) == []
  {
  }

  // ---------- Priority ----------

  function Count(events: seq<Effect>, priority: bool): nat { |AllDelivered(events, priority)| }

  /** While events that are queued with priority wait, at most one ordinary event gets past them: the one whose
      receive had already found the priority channel empty. */
  lemma {:induction false} OneOvertakes(b: Bus, steps: seq<Step>)
    requires Sorted(b) && Count(Effects(b, steps), true) < |b.priority|
    ensures Count(Effects(b, steps), false) <= if b.poll.Fresh? then 0 else 1
    decreases |steps|
  {
    if steps != [] {
      StepConserves(b, steps[0], true);
      var (b', effect) := Next(b, steps[0]);
      assert Effects(b, steps)[1..] == Effects(b', steps[1..]);
      OvertakeStep(b, steps[0]);
      hide Next, Sorted;
      OneOvertakes(b', steps[1..]);
    }
  }

  lemma OvertakeStep(b: Bus, step: Step)
    requires Sorted(b) && b.priority != []
    ensures var (b', effect) := Next(b, step);
              && |DeliveredBy(effect, false)| + (if b'.poll.Fresh? then 0 else 1) <= (if b.poll.Fresh? then 0 else 1)
              && |b'.priority| + |DeliveredBy(effect, true)| >= |b.priority|
  {
    assert b.priority[0] in b.priority;
  }

  // ---------- The bus object ----------

  class EventBus {
    const capacity: nat
    var priority: seq<Envelope>
    var ordinary: seq<Envelope>
    var handles: nat
    var receiving: bool
    var poll: Poll

    constructor (capacity: nat)
      requires capacity > 0
      ensures View() == Opened(capacity)
    {
      this.capacity := capacity;
      priority, ordinary, handles, receiving, poll := [], [], 1, true, Fresh;
    }

    function View(): Bus
      reads this
    {
      Bus(capacity, priority, ordinary, handles, receiving, poll)
    }

    /** One attempt to send down the channel the event belongs to. */
    method Send(e: Envelope) returns (effect: Effect)
      requires handles > 0
      modifies this`priority, this`ordinary
      ensures (View(), effect) == Next(old(View()), Publish(e))
    {
      if !receiving {
        return Refused;
      }
      if IsPriority(e) {
        if |priority| >= capacity {
          return Full;
        }
        priority := priority + [e];
      } else {
        if |ordinary| >= capacity {
          return Full;
        }
        ordinary := ordinary + [e];
      }
      return Accepted(e);
    }

    method TakePriority() returns (effect: Effect)
      requires receiving && poll.Fresh?
      modifies this`priority, this`poll
      ensures (View(), effect) == Next(old(View()), PollPriority)
    {
      if priority == [] {
        poll := if handles == 0 then SawClosed else SawEmpty;
        return Silent;
      }
      effect := Delivered(priority[0]);
      priority := priority[1..];
    }

    method TakeOrdinary() returns (effect: Effect)
      requires receiving && !poll.Fresh?
      modifies this`ordinary, this`poll
      ensures (View(), effect) == Next(old(View()), PollOrdinary)
    {
      var sawClosed := poll.SawClosed?;
      poll := Fresh;
      if ordinary != [] {
        effect := Delivered(ordinary[0]);
        ordinary := ordinary[1..];
      } else {
        effect := if sawClosed && handles == 0 then End else Silent;
      }
    }

    /** A receive that nothing comes between: the oldest priority event, else the oldest ordinary one, else
        None if every handle is gone, else it waits. */
    method Receive() returns (effect: Effect)
      requires receiving && poll.Fresh?
      modifies this`priority, this`ordinary, this`poll
      ensures priority == old(if priority != [] then priority[1..] else [])
      ensures ordinary == old(if priority == [] && ordinary != [] then ordinary[1..] else ordinary)
      ensures poll.Fresh?
      ensures effect == old(if priority != [] then Delivered(priority[0])
                            else if ordinary != [] then Delivered(ordinary[0])
                            else if handles == 0 then End
                            else Silent)
    {
      effect := TakePriority();
      if effect == Silent {
        effect := TakeOrdinary();
      }
    }
  }
}
