/** Request and response correlation in `broker/src/deriv.rs`: any number of callers, the reader task, late,
    repeated, stray and malformed frames, failed sends and timeouts, in any interleaving of the sections that the
    locks and the atomic counter make atomic. */
module Deriv {
  import opened Prelude
  import opened Domain

  datatype Body = Answer(content: string) | Refusal(message: string)

  /** A text frame that parsed; the id is absent when it carries none that reads as an unsigned integer. */
  datatype Frame = Frame(reqId: Option<nat>, body: Body)

  datatype Outcome = Replied(frame: Frame) | TimedOut | SendFailed | ChannelClosed

  /** Where a call stands. Expired and Unsent still have to take their entry out of the pending map. */
  datatype Call =
    | Assigned(id: nat)
    | Sending(id: nat)
    | Waiting(id: nat)
    | Expired(id: nat)
    | Unsent(id: nat)
    | Done(id: nat, outcome: Outcome)

  /** Callers are named by tokens. The pending map says whose sender is stored under a request id; the mailbox
      holds what has been sent to a caller and not yet taken. */
  datatype Client = Client(nextId: nat, pending: map<nat, nat>, calls: map<nat, Call>, mailbox: map<nat, Frame>,
                           reading: bool)

  datatype Event =
    | TakeId(caller: nat)
    | Register(caller: nat)
    | SendDone(caller: nat, sent: bool)
    | Arrive(frame: Frame)
    | Poll(caller: nat)
    | Expire(caller: nat)
    | CleanUp(caller: nat)
    | ReaderStops

  function ResultOf(outcome: Outcome): Result<Frame, BrokerError> {
    match outcome
    case Replied(frame) => if frame.body.Refusal? then Err(RejectedByBroker) else Ok(frame)
    case TimedOut => Err(Timeout)
    case SendFailed => Err(ConnectionFailed)
    case ChannelClosed => Err(ConnectionFailed)
  }

  /** Whether the receiving half of the caller's channel still exists. */
  predicate Listening(c: Client, caller: nat) {
    caller in c.calls && (c.calls[caller].Sending? || c.calls[caller].Waiting?)
  }

  function Move(c: Client, caller: nat, call: Call): Client { c.(calls := c.calls[caller := call]) }

  /** Whose sender the frame finds, if any. */
  function Addressee(c: Client, frame: Frame): Option<nat> {
    if c.reading && frame.reqId.Some? && frame.reqId.value in c.pending then Some(c.pending[frame.reqId.value])
    else None
  }

  function Deliver(c: Client, frame: Frame): Client {
    var found := Addressee(c, frame);
    if found == None then c
    else
      var taken := c.(pending := c.pending - {frame.reqId.value});
      if Listening(c, found.value) then taken.(mailbox := c.mailbox[found.value := frame]) else taken
  }

  function TakeIdStep(c: Client, w: nat): Client {
    if w in c.calls then c else Move(c, w, Assigned(c.nextId)).(nextId := c.nextId + 1)
  }

  function RegisterStep(c: Client, w: nat): Client {
    if w in c.calls && c.calls[w].Assigned? then
      Move(c, w, Sending(c.calls[w].id)).(pending := c.pending[c.calls[w].id := w])
    else c
  }

  function SendStep(c: Client, w: nat, sent: bool): Client {
    if w !in c.calls || !c.calls[w].Sending? then c
    else if sent then Move(c, w, Waiting(c.calls[w].id))
    else Move(c, w, Unsent(c.calls[w].id)).(mailbox := c.mailbox - {w})
  }

  function PollStep(c: Client, w: nat): Client {
    if w !in c.calls || !c.calls[w].Waiting? then c
    else if w in c.mailbox then
      Move(c, w, Done(c.calls[w].id, Replied(c.mailbox[w]))).(mailbox := c.mailbox - {w})
    else if w !in c.pending.Values then Move(c, w, Done(c.calls[w].id, ChannelClosed))
    else c
  }

  function ExpireStep(c: Client, w: nat): Client {
    if w in c.calls && c.calls[w].Waiting? then
      Move(c, w, Expired(c.calls[w].id)).(mailbox := c.mailbox - {w})
    else c
  }

  function CleanUpStep(c: Client, w: nat): Client {
    if w in c.calls && (c.calls[w].Expired? || c.calls[w].Unsent?) then
      Move(c, w, Done(c.calls[w].id, if c.calls[w].Expired? then TimedOut else SendFailed))
        .(pending := c.pending - {c.calls[w].id})
    else c
  }

  function Next(c: Client, e: Event): Client {
    match e
    case TakeId(w) => TakeIdStep(c, w)
    case Register(w) => RegisterStep(c, w)
    case SendDone(w, sent) => SendStep(c, w, sent)
    case Arrive(frame) => Deliver(c, frame)
    case Poll(w) => PollStep(c, w)
    case Expire(w) => ExpireStep(c, w)
    case CleanUp(w) => CleanUpStep(c, w)
    case ReaderStops => c.(reading := false)
  }

  function Run(c: Client, events: seq<Event>): Client
    decreases |events|
  {
    if events == [] then c else Run(Next(c, events[0]), events[1..])
  }

  const CONNECTED: Client := Client(1, map[], map[], map[], true)

  // ---------- What every step keeps ----------

  /** What holds of one caller: its id was given out, the pending map has its sender exactly while the caller
      listens for a frame not yet sent to it (or has not cleaned up), a frame in its mailbox answers its own
      request, and so does the reply it resolved with, if it did. */
  predicate CallOk(c: Client, w: nat)
    requires w in c.calls
  {
    var id := c.calls[w].id;
    && id < c.nextId
    && (w in c.mailbox ==> Listening(c, w) && c.mailbox[w].reqId == Some(id))
    && (id in c.pending ==> c.pending[id] == w && w !in c.mailbox)
    && match c.calls[w]
       case Assigned(_) => id !in c.pending
       case Sending(_) => w in c.mailbox || id in c.pending
       case Waiting(_) => w in c.mailbox || id in c.pending
       case Expired(_) => true
       case Unsent(_) => true
       case Done(_, outcome) =>
         && id !in c.pending
         && outcome != ChannelClosed
         && (outcome.Replied? ==> outcome.frame.reqId == Some(id))
  }

  predicate OwnIds(c: Client, v: nat, w: nat)
    requires v in c.calls && w in c.calls
  {
    c.calls[v].id == c.calls[w].id ==> v == w
  }

  /** Every pending entry is the entry of some call, under that call's id. */
  predicate EntryOk(c: Client, id: nat)
    requires id in c.pending
  {
    c.pending[id] in c.calls && c.calls[c.pending[id]].id == id
  }

  predicate Consistent(c: Client) {
    && (forall w {:trigger CallOk(c, w)} :: w in c.calls ==> CallOk(c, w))
    && (forall v, w {:trigger OwnIds(c, v, w)} :: v in c.calls && w in c.calls ==> OwnIds(c, v, w))
    && (forall id {:trigger EntryOk(c, id)} :: id in c.pending ==> EntryOk(c, id))
    && c.mailbox.Keys <= c.calls.Keys
  }

  /** A step of one caller leaves everyone else's standing to be checked against the entry it touched. */
  lemma ConsistentMove(c: Client, t: Client, w: nat, id: nat)
    requires Consistent(c) && w in t.calls && t.calls[w].id == id && c.nextId <= t.nextId
    requires if w in c.calls then c.calls[w].id == id else id == c.nextId
    requires t.calls == c.calls[w := t.calls[w]]
    requires t.pending - {id} == c.pending - {id} && (id in t.pending ==> t.pending[id] == w)
    requires t.mailbox - {w} == c.mailbox - {w}
    requires CallOk(t, w)
    ensures Consistent(t)
  {
    forall v | v in c.calls && v != w
      ensures c.calls[v].id != id && (c.calls[v].id in t.pending <==> c.calls[v].id in c.pending) && CallOk(t, v)
    {
      assert CallOk(c, v);
      if w in c.calls {
        assert OwnIds(c, v, w);
      }
      var other := c.calls[v].id;
      assert other in t.pending <==> other in t.pending - {id};
      assert other in c.pending <==> other in c.pending - {id};
      assert other in t.pending ==> t.pending[other] == (t.pending - {id})[other] == (c.pending - {id})[other];
      assert v in t.mailbox <==> v in t.mailbox - {w};
      assert v in c.mailbox <==> v in c.mailbox - {w};
      assert v in t.mailbox ==> t.mailbox[v] == (t.mailbox - {w})[v] == (c.mailbox - {w})[v];
    }
    forall u, v | u in t.calls && v in t.calls
      ensures OwnIds(t, u, v)
    {
      if u != w && v != w {
        assert OwnIds(c, u, v);
      }
    }
    forall k | k in t.pending
      ensures EntryOk(t, k)
    {
      if k != id {
        assert k in t.pending - {id} && t.pending[k] == (t.pending - {id})[k] == (c.pending - {id})[k];
        assert EntryOk(c, k);
      }
    }
    forall v | v in t.mailbox && v != w
      ensures v in t.calls
    {
      assert v in t.mailbox - {w};
    }
  }

  lemma ConsistentCallerStep(c: Client, t: Client, w: nat)
    requires Consistent(c)
    requires t in {TakeIdStep(c, w), RegisterStep(c, w), SendStep(c, w, true), SendStep(c, w, false), PollStep(c, w),
                   ExpireStep(c, w), CleanUpStep(c, w)}
    ensures Consistent(t)
  {
    if t != c {
      assert w in c.calls ==> CallOk(c, w);
      assert c.nextId in c.pending ==> EntryOk(c, c.nextId) && CallOk(c, c.pending[c.nextId]);
      hide Consistent;
      ConsistentMove(c, t, w, t.calls[w].id);
    }
  }

  lemma ConsistentDeliver(c: Client, frame: Frame)
    requires Consistent(c)
    ensures Consistent(Deliver(c, frame))
  {
    var to := Addressee(c, frame);
    if to.Some? {
      var w, id := to.value, frame.reqId.value;
      assert EntryOk(c, id) && CallOk(c, w);
      hide Consistent;
      ConsistentMove(c, Deliver(c, frame), w, id);
    }
  }

  lemma ConsistentStep(c: Client, e: Event)
    requires Consistent(c)
    ensures Consistent(Next(c, e))
  {
    hide TakeIdStep, RegisterStep, SendStep, Deliver, PollStep, ExpireStep, CleanUpStep;
    match e {
      case TakeId(w) => ConsistentCallerStep(c, Next(c, e), w);
      case Register(w) => ConsistentCallerStep(c, Next(c, e), w);
      case SendDone(w, sent) => ConsistentCallerStep(c, Next(c, e), w);
      case Arrive(frame) => ConsistentDeliver(c, frame);
      case Poll(w) => ConsistentCallerStep(c, Next(c, e), w);
      case Expire(w) => ConsistentCallerStep(c, Next(c, e), w);
      case CleanUp(w) => ConsistentCallerStep(c, Next(c, e), w);
      case ReaderStops => ConsistentStopped(c);
    }
  }

  lemma ConsistentStopped(c: Client)
    requires Consistent(c)
    ensures Consistent(c.(reading := false))
  {
    var t := c.(reading := false);
    forall w | w in t.calls ensures CallOk(t, w) { assert CallOk(c, w); }
    forall v, w | v in t.calls && w in t.calls ensures OwnIds(t, v, w) { assert OwnIds(c, v, w); }
    forall id | id in t.pending ensures EntryOk(t, id) { assert EntryOk(c, id); }
  }

  lemma {:induction false} ConsistentRun(c: Client, events: seq<Event>)
    requires Consistent(c)
    ensures Consistent(Run(c, events))
    decreases |events|
  {
    if events != [] {
      hide Next, Consistent;
      ConsistentStep(c, events[0]);
      ConsistentRun(Next(c, events[0]), events[1..]);
    }
  }

  lemma ConnectedConsistent()
    ensures Consistent(CONNECTED)
  {
  }

  // ---------- What a caller can rely on ----------

  /** In any interleaving, a call that got a reply got one carrying its own request id; no two calls share an
      id; the pending map holds calls in flight only; and no call ever finds its channel closed. */
  lemma RepliesAreOwn(events: seq<Event>)
    ensures var c := Run(CONNECTED, events);
              && (forall w :: w in c.calls && c.calls[w].Done? ==>
                   && c.calls[w].outcome != ChannelClosed
                   && (c.calls[w].outcome.Replied? ==> c.calls[w].outcome.frame.reqId == Some(c.calls[w].id)))
              && (forall v, w :: v in c.calls && w in c.calls && v != w ==> c.calls[v].id != c.calls[w].id)
              && (forall id :: id in c.pending ==>
                   && c.pending[id] in c.calls && c.calls[c.pending[id]].id == id
                   && !c.calls[c.pending[id]].Assigned? && !c.calls[c.pending[id]].Done?)
  {
    ConnectedConsistent();
    ConsistentRun(CONNECTED, events);
    hide Run;
    var c := Run(CONNECTED, events);
    assert forall w :: w in c.calls ==> CallOk(c, w);
    assert forall v, w :: v in c.calls && w in c.calls ==> OwnIds(c, v, w);
    forall id | id in c.pending
      ensures c.pending[id] in c.calls && c.calls[c.pending[id]].id == id
      ensures !c.calls[c.pending[id]].Assigned? && !c.calls[c.pending[id]].Done?
    {
      assert EntryOk(c, id);
      assert CallOk(c, c.pending[id]);
    }
  }

  lemma StepKeepsCall(c: Client, e: Event, w: nat)
    requires w in c.calls
    ensures w in Next(c, e).calls && Next(c, e).calls[w].id == c.calls[w].id
    ensures c.calls[w].Done? ==> Next(c, e).calls[w] == c.calls[w]
  {
    var t := Next(c, e);
    assert e.Arrive? ==> t.calls == c.calls;
  }

  /** A call keeps its id and, once resolved, its outcome, whatever happens after. */
  lemma {:induction false} ResolvedForGood(c: Client, events: seq<Event>, w: nat)
    requires w in c.calls
    ensures w in Run(c, events).calls && Run(c, events).calls[w].id == c.calls[w].id
    ensures c.calls[w].Done? ==> Run(c, events).calls[w] == c.calls[w]
    decreases |events|
  {
    if events != [] {
      StepKeepsCall(c, events[0], w);
      hide Next;
      ResolvedForGood(Next(c, events[0]), events[1..], w);
    }
  }

  /** Once a call has resolved, by timing out or otherwise, a frame with its id changes nothing at all: it
      cannot satisfy a retry, which has an id of its own. */
  lemma LateReplyIgnored(c: Client, events: seq<Event>, w: nat, frame: Frame)
    requires Consistent(c) && w in c.calls && c.calls[w].Done? && frame.reqId == Some(c.calls[w].id)
    ensures var later := Run(c, events);
            Next(later, Arrive(frame)) == later
  {
    ConsistentRun(c, events);
    ResolvedForGood(c, events, w);
    hide Run;
    assert CallOk(Run(c, events), w);
  }

  /** How many frames are sent to a caller along a run. */
  function Deliveries(c: Client, events: seq<Event>, w: nat): nat
    decreases |events|
  {
    if events == [] then 0
    else (if events[0].Arrive? && Addressee(c, events[0].frame) == Some(w) then 1 else 0)
         + Deliveries(Next(c, events[0]), events[1..], w)
  }

  predicate Deliverable(c: Client, w: nat) {
    w !in c.calls || c.calls[w].Assigned? || c.calls[w].id in c.pending
  }

  lemma DeliverableStep(c: Client, e: Event, w: nat)
    requires Consistent(c)
    ensures Deliverable(Next(c, e), w) ==> Deliverable(c, w)
    ensures e.Arrive? && Addressee(c, e.frame) == Some(w) ==> Deliverable(c, w) && !Deliverable(Next(c, e), w)
  {
    assert w in c.calls ==> CallOk(c, w);
    match e {
      case Arrive(frame) =>
        if Addressee(c, frame).Some? {
          assert EntryOk(c, frame.reqId.value);
        }
      case Register(v) =>
        if v in c.calls && w in c.calls {
          assert OwnIds(c, v, w);
        }
      case _ =>
    }
  }

  /** Each waiter is sent at most one frame, however often its id comes back. */
  lemma {:induction false} DeliveredOnce(c: Client, events: seq<Event>, w: nat)
    requires Consistent(c)
    ensures Deliveries(c, events, w) <= if Deliverable(c, w) then 1 else 0
    decreases |events|
  {
    if events != [] {
      hide Next, Consistent, Deliverable;
      ConsistentStep(c, events[0]);
      DeliverableStep(c, events[0], w);
      DeliveredOnce(Next(c, events[0]), events[1..], w);
    }
  }

  /** The caller neither looks, nor gives up, nor fails to send. */
  predicate LeavesAlone(events: seq<Event>, w: nat) {
    forall i :: 0 <= i < |events| ==>
      events[i] != Poll(w) && events[i] != Expire(w) && events[i] != SendDone(w, false)
  }

  /** The caller holds this frame and has not looked yet, whether it is still sending or already waiting. */
  predicate Holds(c: Client, w: nat, id: nat, frame: Frame) {
    && Listening(c, w) && c.calls[w].id == id
    && w in c.mailbox && c.mailbox[w] == frame
  }

  lemma HoldsStep(c: Client, e: Event, w: nat, id: nat, frame: Frame)
    requires Consistent(c) && Holds(c, w, id, frame) && LeavesAlone([e], w)
    ensures Holds(Next(c, e), w, id, frame)
    ensures c.calls[w].Waiting? || e == SendDone(w, true) ==> Next(c, e).calls[w].Waiting?
  {
    assert CallOk(c, w);
    assert [e][0] == e;
    match e {
      case Arrive(other) =>
        if Addressee(c, other).Some? {
          assert EntryOk(c, other.reqId.value);
        }
      case _ =>
    }
  }

  /** A frame in a caller's mailbox stays there until the caller takes it or gives up. */
  lemma {:induction false} MailKept(c: Client, events: seq<Event>, w: nat, id: nat, frame: Frame)
    requires Consistent(c) && Holds(c, w, id, frame) && LeavesAlone(events, w)
    ensures Holds(Run(c, events), w, id, frame)
    ensures c.calls[w].Waiting? || SendDone(w, true) in events ==> Run(c, events).calls[w].Waiting?
    decreases |events|
  {
    if events != [] {
      var e, rest := events[0], events[1..];
      assert events == [e] + rest;
      HoldsStep(c, e, w, id, frame);
      ConsistentStep(c, e);
      hide Next, Consistent, Holds;
      assert SendDone(w, true) in events ==> SendDone(w, true) == e || SendDone(w, true) in rest;
      MailKept(Next(c, e), rest, w, id, frame);
    }
  }

  /** While a call is sending or waits unanswered and the reader runs, the first frame with its id is what the
      call returns once it looks, whatever other callers and frames do in between. */
  lemma FirstReplyWins(c: Client, frame: Frame, events: seq<Event>, w: nat)
    requires Consistent(c) && c.reading && Listening(c, w) && w !in c.mailbox
    requires frame.reqId == Some(c.calls[w].id) && LeavesAlone(events, w)
    requires c.calls[w].Waiting? || SendDone(w, true) in events
    ensures var later := Next(Run(Next(c, Arrive(frame)), events), Poll(w));
              && w in later.calls && later.calls[w] == Done(c.calls[w].id, Replied(frame))
              && ResultOf(later.calls[w].outcome) ==
                 match frame.body { case Answer(_) => Ok(frame) case Refusal(_) => Err(RejectedByBroker) }
  {
    assert CallOk(c, w);
    ConsistentStep(c, Arrive(frame));
    var t := Next(c, Arrive(frame));
    MailKept(t, events, w, c.calls[w].id, frame);
    hide Run;
    assert Next(Run(t, events), Poll(w)) == PollStep(Run(t, events), w);
  }

  /** The call has given up, and cleaned up or not, is bound to come to this. */
  predicate GaveUp(c: Client, w: nat, id: nat, outcome: Outcome) {
    && w in c.calls
    && match c.calls[w]
       case Expired(own) => own == id && outcome == TimedOut
       case Unsent(own) => own == id && outcome == SendFailed
       case Done(own, come) => own == id && come == outcome
       case _ => false
  }

  lemma GaveUpStep(c: Client, e: Event, w: nat, id: nat, outcome: Outcome)
    requires GaveUp(c, w, id, outcome)
    ensures GaveUp(Next(c, e), w, id, outcome)
    ensures e == CleanUp(w) ==> Next(c, e).calls[w] == Done(id, outcome)
  {
    assert e.Arrive? ==> Next(c, e).calls == c.calls;
  }

  lemma {:induction false} GaveUpForGood(c: Client, events: seq<Event>, w: nat, id: nat, outcome: Outcome)
    requires GaveUp(c, w, id, outcome)
    ensures GaveUp(Run(c, events), w, id, outcome)
    decreases |events|
  {
    if events != [] {
      GaveUpStep(c, events[0], w, id, outcome);
      hide Next, GaveUp;
      GaveUpForGood(Next(c, events[0]), events[1..], w, id, outcome);
    }
  }

  /** Once its time is up a call returns a timeout, whatever arrives or happens before it has cleaned up. */
  lemma ExpiryMeansTimeout(c: Client, events: seq<Event>, w: nat)
    requires w in c.calls && c.calls[w].Waiting?
    ensures var later := Next(Run(Next(c, Expire(w)), events), CleanUp(w));
              && w in later.calls && later.calls[w] == Done(c.calls[w].id, TimedOut)
              && ResultOf(later.calls[w].outcome) == Err(Timeout)
  {
    GaveUpForGood(Next(c, Expire(w)), events, w, c.calls[w].id, TimedOut);
    hide Run;
    GaveUpStep(Run(Next(c, Expire(w)), events), CleanUp(w), w, c.calls[w].id, TimedOut);
  }

  /** A call whose request could not be sent returns a failed connection, even if its answer has already come. */
  lemma FailedSendMeansNoConnection(c: Client, events: seq<Event>, w: nat)
    requires w in c.calls && c.calls[w].Sending?
    ensures var later := Next(Run(Next(c, SendDone(w, false)), events), CleanUp(w));
              && w in later.calls && later.calls[w] == Done(c.calls[w].id, SendFailed)
              && ResultOf(later.calls[w].outcome) == Err(ConnectionFailed)
  {
    GaveUpForGood(Next(c, SendDone(w, false)), events, w, c.calls[w].id, SendFailed);
    hide Run;
    GaveUpStep(Run(Next(c, SendDone(w, false)), events), CleanUp(w), w, c.calls[w].id, SendFailed);
  }

  // ---------- Nothing else is returned ----------

  /** What has happened accounts for where the call stands: a frame it holds or returned has arrived, and it has
      given up only if its time was up or its request could not be sent. */
  predicate Caused(past: seq<Event>, c: Client, w: nat)
    requires w in c.calls
  {
    && (w in c.mailbox ==> Arrive(c.mailbox[w]) in past)
    && match c.calls[w]
       case Expired(_) => Expire(w) in past
       case Unsent(_) => SendDone(w, false) in past
       case Done(_, Replied(frame)) => Arrive(frame) in past
       case Done(_, TimedOut) => Expire(w) in past
       case Done(_, SendFailed) => SendDone(w, false) in past
       case Done(_, ChannelClosed) => false
       case _ => true
  }

  predicate AllCaused(past: seq<Event>, c: Client) {
    forall w {:trigger Caused(past, c, w)} :: w in c.calls ==> Caused(past, c, w)
  }

  lemma CausedStep(past: seq<Event>, c: Client, e: Event)
    requires Consistent(c) && AllCaused(past, c)
    ensures AllCaused(past + [e], Next(c, e))
  {
    var t := Next(c, e);
    assert forall x :: x in past ==> x in past + [e];
    assert e in past + [e];
    forall w | w in t.calls
      ensures Caused(past + [e], t, w)
    {
      assert w in c.calls ==> CallOk(c, w) && Caused(past, c, w);
      hide Consistent, AllCaused;
    }
  }

  lemma {:induction false} CausedRun(past: seq<Event>, c: Client, events: seq<Event>)
    requires Consistent(c) && AllCaused(past, c)
    ensures AllCaused(past + events, Run(c, events))
    decreases |events|
  {
    if events == [] {
      assert past + events == past;
    } else {
      hide Next, Consistent, AllCaused;
      assert past + [events[0]] + events[1..] == past + events;
      ConsistentStep(c, events[0]);
      CausedStep(past, c, events[0]);
      CausedRun(past + [events[0]], Next(c, events[0]), events[1..]);
    }
  }

  /** A refusal of this request has arrived. */
  predicate RefusalCame(events: seq<Event>, id: nat) {
    exists e :: e in events && e.Arrive? && e.frame.reqId == Some(id) && e.frame.body.Refusal?
  }

  /** What has to have happened for a call to return this. */
  predicate Accounted(events: seq<Event>, w: nat, id: nat, result: Result<Frame, BrokerError>) {
    match result
    case Ok(frame) => frame.body.Answer? && frame.reqId == Some(id) && Arrive(frame) in events
    case Err(error) =>
      match error
      case RejectedByBroker => RefusalCame(events, id)
      case Timeout => Expire(w) in events
      case ConnectionFailed => SendDone(w, false) in events
      case _ => false
  }

  /** In any interleaving: a call returns an answer, or reports a refusal, only if that very frame has arrived under its
      id, a timeout only if its time was up, a failed connection only if its request could not be sent; and never
      anything else. */
  lemma ResultsHaveCauses(events: seq<Event>, w: nat)
    requires var c := Run(CONNECTED, events); w in c.calls && c.calls[w].Done?
    ensures var call := Run(CONNECTED, events).calls[w];
            Accounted(events, w, call.id, ResultOf(call.outcome))
  {
    ConnectedConsistent();
    ConsistentRun(CONNECTED, events);
    CausedRun([], CONNECTED, events);
    assert [] + events == events;
    hide Run;
    var c := Run(CONNECTED, events);
    assert CallOk(c, w) && Caused(events, c, w);
  }

  // ---------- The client object ----------

  class DerivClient {
    var nextReqId: nat
    var pending: map<nat, nat>
    var calls: map<nat, Call>
    var mailbox: map<nat, Frame>
    var reading: bool

    constructor ()
      ensures View() == CONNECTED
    {
      nextReqId, pending, calls, mailbox, reading := 1, map[], map[], map[], true;
    }

    function View(): Client
      reads this
    {
      Client(nextReqId, pending, calls, mailbox, reading)
    }

    /** The head of a call: its id, then its sender in the pending map, two steps others may come between. */
    method Begin(w: nat)
      requires w !in calls
      modifies this
      ensures View() == Next(old(View()), TakeId(w)) && calls[w] == Assigned(old(nextReqId))
    {
      calls := calls[w := Assigned(nextReqId)];
      nextReqId := nextReqId + 1;
    }

    method Insert(w: nat)
      requires w in calls && calls[w].Assigned?
      modifies this
      ensures View() == Next(old(View()), Register(w))
    {
      pending := pending[calls[w].id := w];
      calls := calls[w := Sending(calls[w].id)];
    }

    method Sent(w: nat, sent: bool)
      requires w in calls && calls[w].Sending?
      modifies this
      ensures View() == Next(old(View()), SendDone(w, sent))
    {
      if sent {
        calls := calls[w := Waiting(calls[w].id)];
      } else {
        calls, mailbox := calls[w := Unsent(calls[w].id)], mailbox - {w};
      }
    }

    /** One turn of the reader task. */
    method OnFrame(frame: Frame)
      modifies this
      ensures View() == Next(old(View()), Arrive(frame))
    {
      if !reading || frame.reqId == None {
        return;
      }
      var id := frame.reqId.value;
      if id in pending {
        var w := pending[id];
        pending := pending - {id};
        if w in calls && (calls[w].Sending? || calls[w].Waiting?) {
          mailbox := mailbox[w := frame];
        }
      }
    }

    /** Awaiting the reply: what is there, else nothing yet, else a sender that is gone. */
    method Await(w: nat)
      requires w in calls && calls[w].Waiting?
      modifies this
      ensures View() == Next(old(View()), Poll(w))
    {
      var id := calls[w].id;
      if w in mailbox {
        calls, mailbox := calls[w := Done(id, Replied(mailbox[w]))], mailbox - {w};
      } else if w !in pending.Values {
        calls := calls[w := Done(id, ChannelClosed)];
      }
    }

    method TimeOut(w: nat)
      requires w in calls && calls[w].Waiting?
      modifies this
      ensures View() == Next(old(View()), Expire(w))
    {
      calls, mailbox := calls[w := Expired(calls[w].id)], mailbox - {w};
    }

    method Remove(w: nat)
      requires w in calls && (calls[w].Expired? || calls[w].Unsent?)
      modifies this
      ensures View() == Next(old(View()), CleanUp(w))
    {
      var id := calls[w].id;
      pending := pending - {id};
      calls := calls[w := Done(id, if calls[w].Expired? then TimedOut else SendFailed)];
    }
  }
}
