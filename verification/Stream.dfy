/** The guarantees of the reliable stream over every run of the two-node system. */
module Stream {
  import opened Words
  import opened Reudp
  import opened Network
  import C = Congestion

  // ---- the invariant over runs ----

  lemma SentGrows(n: Node, e: Event)
    ensures n.sent <= After(n, e).sent
    ensures !e.SendData? ==> After(n, e).sent == n.sent
  {
  }

  lemma {:induction false} RunSentGrows(w: World, steps: seq<Step>)
    ensures w.x.sent <= Run(w, steps).x.sent && w.y.sent <= Run(w, steps).y.sent
    decreases |steps|
  {
    if steps != [] {
      match steps[0] {
        case AtX(e) => SentGrows(w.x, e);
        case AtY(e) => SentGrows(w.y, e);
        case _ =>
      }
      RunSentGrows(Next(w, steps[0]), steps[1..]);
    }
  }

  lemma LosePreserves(s: Node, r: Node, chan: set<Datagram>, back: set<Datagram>, d: Datagram)
    requires Direction(s, r, chan, back)
    ensures Direction(s, r, chan - {d}, back) && Direction(s, r, chan, back - {d})
  {
  }

  lemma AckCredits(s: State, cum: uint32, sack: bv64, rtt: nat)
    requires C.Sane(s.window) && s.window.inFlight <= |s.inflight|
    ensures var t := HandleAck(s, cum, sack, rtt); C.Sane(t.window) && t.window.inFlight <= |t.inflight|
    ensures C.Open(s.window) ==> C.Open(HandleAck(s, cum, sack, rtt).window)
  {
    var t := HandleAck(s, cum, sack, rtt);
    assert s.inflight.Keys == t.inflight.Keys + (s.inflight.Keys - t.inflight.Keys);
    var n := |s.inflight.Keys - t.inflight.Keys|;
    assert |s.inflight.Keys| == |t.inflight.Keys| + n;
    C.EventKeepsWindow(s.window, C.Acked(n, rtt));
    C.AckGrows(s.window, n, rtt);
  }

  lemma SendCredits(n: Node, e: Event)
    requires Windowed(n) && n.ep.nextSeq !in n.ep.inflight
    requires e.SendData?
    ensures Windowed(After(n, e))
  {
    if After(n, e) != n {
      C.SendKeepsWindow(n.ep.window, e.now);
      var grown := n.ep.inflight[n.ep.nextSeq := Inflight(Outgoing(n.ep, e.payload, e.flags), 0)];
      assert grown.Keys == n.ep.inflight.Keys + {n.ep.nextSeq};
      assert |grown.Keys| == |n.ep.inflight.Keys| + 1;
    }
  }

  lemma ArrivalCredits(n: Node, e: Event)
    requires Windowed(n) && e.Arrive?
    ensures Windowed(After(n, e))
    ensures C.Open(n.ep.window) ==> C.Open(After(n, e).ep.window)
  {
    match e.d
    case Ack(cum, sack) => AckCredits(n.ep, cum, sack, e.rtt);
    case Data(flags, seqno, ack, payload) =>
      AckCredits(n.ep, ack, 0, e.rtt);
      DataKeepsSending(HandleAck(n.ep, ack, 0, e.rtt), flags, seqno, payload, e.room);
  }

  /** The window keeps its bounds and leaks no credit; only a send can close it. */
  lemma WindowStep(n: Node, e: Event)
    requires Windowed(n) && n.ep.nextSeq !in n.ep.inflight
    ensures Windowed(After(n, e))
    ensures !e.SendData? && C.Open(n.ep.window) ==> C.Open(After(n, e).ep.window)
  {
    match e
    case SendData(_, _, _) => SendCredits(n, e);
    case Arrive(_, _, _, _) => ArrivalCredits(n, e);
    case Expire(due) =>
      C.EventKeepsWindow(n.ep.window, C.Lost);
      assert Tick(n.ep, due).inflight.Keys == n.ep.inflight.Keys;
    case Boost =>
      C.EventKeepsWindow(n.ep.window, C.Boosted);
  }

  lemma InvFacts(w: World)
    requires Inv(w)
    ensures w.x.ep.nextSeq !in w.x.ep.inflight && w.y.ep.nextSeq !in w.y.ep.inflight
  {
  }

  lemma StepKeepsInv(w: World, step: Step)
    requires Inv(w) && Enabled(w, step) && WithinLimit(Next(w, step))
    ensures Inv(Next(w, step))
  {
    hide After, Emitted, Possible, Direction, Windowed;
    InvFacts(w);
    match step
    case AtX(e) =>
      SenderStep(w.x, w.y, w.toY, w.toX, e);
      ReceiverStep(w.y, w.x, w.toX, w.toY, e);
      WindowStep(w.x, e);
    case AtY(e) =>
      SenderStep(w.y, w.x, w.toX, w.toY, e);
      ReceiverStep(w.x, w.y, w.toY, w.toX, e);
      WindowStep(w.y, e);
    case LoseToX(d) =>
      LosePreserves(w.y, w.x, w.toX, w.toY, d);
      LosePreserves(w.x, w.y, w.toY, w.toX, d);
    case LoseToY(d) =>
      LosePreserves(w.y, w.x, w.toX, w.toY, d);
      LosePreserves(w.x, w.y, w.toY, w.toX, d);
  }

  // ---- credit ----

  predicate Counted(n: Node) {
    n.ep.window.inFlight == |n.ep.inflight|
  }

  lemma CountedEvent(n: Node, e: Event)
    requires Counted(n) && n.ep.nextSeq !in n.ep.inflight && !e.Expire?
    ensures Counted(After(n, e))
  {
    match e
    case SendData(_, _, _) => CountedSend(n, e);
    case Arrive(d, rtt, room, _) =>
      match d {
        case Ack(cum, sack) => CountedAck(n.ep, cum, sack, rtt);
        case Data(flags, seqno, ack, payload) =>
          CountedAck(n.ep, ack, 0, rtt);
          DataKeepsSending(HandleAck(n.ep, ack, 0, rtt), flags, seqno, payload, room);
      }
    case Boost =>
  }

  lemma CountedSend(n: Node, e: Event)
    requires Counted(n) && n.ep.nextSeq !in n.ep.inflight && e.SendData?
    ensures Counted(After(n, e))
  {
    var grown := n.ep.inflight[n.ep.nextSeq := Inflight(Outgoing(n.ep, e.payload, e.flags), 0)];
    assert grown.Keys == n.ep.inflight.Keys + {n.ep.nextSeq};
    assert |grown.Keys| == |n.ep.inflight.Keys| + 1;
  }

  lemma CountedAck(s: State, cum: uint32, sack: bv64, rtt: nat)
    requires s.window.inFlight == |s.inflight|
    ensures var t := HandleAck(s, cum, sack, rtt); t.window.inFlight == |t.inflight|
  {
    var left := Unacked(s.inflight, cum, sack);
    assert s.inflight.Keys == left.Keys + (s.inflight.Keys - left.Keys);
    assert |s.inflight.Keys| == |left.Keys| + |s.inflight.Keys - left.Keys|;
  }

  predicate NoTickAtX(steps: seq<Step>) {
    forall i | 0 <= i < |steps| :: !(steps[i].AtX? && steps[i].e.Expire?)
  }

  lemma {:induction false} CountedRun(w: World, steps: seq<Step>)
    requires Inv(w) && Counted(w.x) && CanRun(w, steps) && WithinLimit(Run(w, steps)) && NoTickAtX(steps)
    ensures Counted(Run(w, steps).x)
    decreases |steps|
  {
    hide Inv, Next, Enabled, Counted;
    if steps != [] {
      RunSentGrows(Next(w, steps[0]), steps[1..]);
      StepKeepsInv(w, steps[0]);
      InvFacts(w);
      CountedStep(w, steps[0]);
      CountedRun(Next(w, steps[0]), steps[1..]);
    }
  }

  lemma CountedStep(w: World, step: Step)
    requires Counted(w.x) && w.x.ep.nextSeq !in w.x.ep.inflight && !(step.AtX? && step.e.Expire?)
    ensures Counted(Next(w, step).x)
  {
    hide After, Emitted, Counted;
    if step.AtX? {
      CountedEvent(w.x, step.e);
    }
  }

  /** Until a first retransmission the window counts exactly the packets in flight: every send
      takes one unit and every packet acknowledged, once, gives one back. */
  lemma CreditIsExact(steps: seq<Step>)
    requires CanRun(Start(), steps) && WithinLimit(Run(Start(), steps)) && NoTickAtX(steps)
    ensures Run(Start(), steps).x.ep.window.inFlight == |Run(Start(), steps).x.ep.inflight|
  {
    StartInv();
    CountedRun(Start(), steps);
  }

  // ---- retransmission over runs ----

  function Again(k: uint32, n: nat): seq<Step> {
    if n == 0 then [] else Again(k, n - 1) + [AtX(Expire({k}))]
  }

  lemma {:induction false} RunLast(w: World, steps: seq<Step>, step: Step)
    ensures Run(w, steps + [step]) == Next(Run(w, steps), step)
    decreases |steps|
  {
    hide Next;
    if steps == [] {
      assert ([step])[1..] == [] && [] + [step] == [step];
      assert Run(w, [step]) == Run(Next(w, step), []);
    } else {
      assert (steps + [step])[1..] == steps[1..] + [step];
      RunLast(Next(w, steps[0]), steps[1..], step);
    }
  }

  /** While nothing else happens to a packet it is put on the wire with every tick that finds it
      due, and its sender's window sees a loss with the third and the tenth. */
  lemma {:induction false} ResentUntilAcknowledged(w: World, k: uint32, n: nat)
    requires k in w.x.ep.inflight && w.x.ep.inflight[k].retries == 0
    ensures var v := Run(w, Again(k, n));
            && v.x.ep == Ticks(w.x.ep, k, n) && v.y == w.y && v.toX == w.toX
            && v.x.ep.window == C.ApplyAll(w.x.ep.window, C.Losses(if n < 3 then 0 else if n < 10 then 1 else 2))
            && v.toY == w.toY + (if n > 0 then {w.x.ep.inflight[k].packet} else {})
  {
    LossAtThirdAndTenth(w.x.ep, k, n);
    if n > 0 {
      ResentUntilAcknowledged(w, k, n - 1);
      LossAtThirdAndTenth(w.x.ep, k, n - 1);
      RunLast(w, Again(k, n - 1), AtX(Expire({k})));
      hide Run, C.ApplyAll, C.Losses, Tick, Resent;
    }
  }

  /** So from the send that is accepted on. */
  lemma SentIsResent(w: World, payload: bytes, now: nat, n: nat)
    requires |payload| <= 1200 && C.CanSend(w.x.ep.window, now)
    ensures var u := Next(w, AtX(SendData(payload, FLAG_RELIABLE, now)));
            var k, v := w.x.ep.nextSeq, Run(u, Again(w.x.ep.nextSeq, n));
            && u.x.ep.window == C.OnSend(w.x.ep.window, now)
            && k in u.x.ep.inflight && u.x.ep.inflight[k].packet in u.toY && u.x.ep.inflight[k].packet.payload == payload
            && k in v.x.ep.inflight && v.x.ep.inflight[k] == Inflight(u.x.ep.inflight[k].packet, n)
            && v.x.ep.window == C.ApplyAll(u.x.ep.window, C.Losses(if n < 3 then 0 else if n < 10 then 1 else 2))
  {
    var u := Next(w, AtX(SendData(payload, FLAG_RELIABLE, now)));
    ResentUntilAcknowledged(u, w.x.ep.nextSeq, n);
    LossAtThirdAndTenth(u.x.ep, w.x.ep.nextSeq, n);
    hide Run, Ticks, C.ApplyAll, C.Losses, C.CanSend;
  }

  /** A LAN boost of an endpoint opens its window to 128 packets and its slow start to 256. */
  lemma BoostOpens(n: Node)
    ensures After(n, Boost).ep.window.cwnd >= 128.0 && After(n, Boost).ep.window.ssthresh >= 256.0
    ensures After(n, Boost) == n.(ep := n.ep.(window := After(n, Boost).ep.window))
    ensures Emitted(n, Boost) == {}
  {
    C.BoostOnlyRaises(n.ep.window);
  }

  // ---- refinement of a queue ----

  /** The abstract channel: what was put in and what has come out. */
  datatype Fifo = Fifo(accepted: seq<bytes>, delivered: seq<bytes>)

  /** put is enqueued and some of what was queued comes out, oldest first. */
  predicate FifoNext(q: Fifo, put: seq<bytes>, q': Fifo) {
    && q'.accepted == q.accepted + put
    && q.delivered <= q'.delivered
    && q'.delivered <= q'.accepted
  }

  function QueueXY(w: World): Fifo {
    Fifo(w.x.sent, Got(w.y))
  }

  function QueueYX(w: World): Fifo {
    Fifo(w.y.sent, Got(w.x))
  }

  /** The payload a step enqueues at a node: a reliable send that reports success. */
  function Enqueued(n: Node, e: Event): seq<bytes> {
    if e.SendData? && IsReliable(e.flags) && Send(n.ep, e.payload, e.flags, e.now).1.Ok? then [e.payload] else []
  }

  function EnqueuedAtX(w: World, step: Step): seq<bytes> {
    if step.AtX? then Enqueued(w.x, step.e) else []
  }

  function EnqueuedAtY(w: World, step: Step): seq<bytes> {
    if step.AtY? then Enqueued(w.y, step.e) else []
  }

  /** Each step of the protocol is a step of the queue in both directions. */
  lemma StepRefinesFifo(w: World, step: Step)
    requires Inv(w) && Enabled(w, step) && WithinLimit(Next(w, step))
    ensures FifoNext(QueueXY(w), EnqueuedAtX(w, step), QueueXY(Next(w, step)))
    ensures FifoNext(QueueYX(w), EnqueuedAtY(w, step), QueueYX(Next(w, step)))
  {
    match step
    case AtX(e) => NodeRefinesFifo(w.x, w.y, w.toY, w.toX, e);
    case AtY(e) => NodeRefinesFifo(w.y, w.x, w.toX, w.toY, e);
    case _ =>
  }

  lemma NodeRefinesFifo(n: Node, peer: Node, out: set<Datagram>, inbox: set<Datagram>, e: Event)
    requires Direction(n, peer, out, inbox) && Direction(peer, n, inbox, out)
    requires Possible(n, e, inbox) && |After(n, e).sent| <= LIMIT
    ensures FifoNext(Fifo(n.sent, Got(peer)), Enqueued(n, e), Fifo(After(n, e).sent, Got(peer)))
    ensures FifoNext(Fifo(peer.sent, Got(n)), [], Fifo(peer.sent, Got(After(n, e))))
  {
    ReceiverAdvances(peer, n, inbox, out, e);
  }

  lemma ReceiverAdvances(s: Node, r: Node, chan: set<Datagram>, back: set<Datagram>, e: Event)
    requires Direction(s, r, chan, back) && Possible(r, e, chan)
    ensures r.ep.nextExpect <= After(r, e).ep.nextExpect
    ensures Got(r) <= Got(After(r, e)) <= s.sent
  {
    ReceiverStep(s, r, chan, back, e);
    match e
    case Arrive(_, _, _, _) => ReceiverHears(s, r, chan, back, e);
    case _ =>
  }

  // ---- over runs ----

  lemma {:induction false} RunKeepsInv(w: World, steps: seq<Step>)
    requires Inv(w) && CanRun(w, steps) && WithinLimit(Run(w, steps))
    ensures Inv(Run(w, steps))
    ensures Got(w.x) <= Got(Run(w, steps).x) && Got(w.y) <= Got(Run(w, steps).y)
    decreases |steps|
  {
    hide Inv, Next, Enabled, Reliables;
    if steps != [] {
      RunSentGrows(Next(w, steps[0]), steps[1..]);
      StepKeepsInv(w, steps[0]);
      StepRefinesFifo(w, steps[0]);
      RunKeepsInv(Next(w, steps[0]), steps[1..]);
    }
  }

  lemma StartInv()
    ensures Inv(Start())
  {
  }

  // ---- safety over every run ----

  /** Exactly a prefix, in order and each once, in both directions, on every run over a
      network that loses, duplicates and reorders. */
  lemma ReliableStreamIsFifo(steps: seq<Step>)
    requires CanRun(Start(), steps) && WithinLimit(Run(Start(), steps))
    ensures var w := Run(Start(), steps); Got(w.y) <= w.x.sent && Got(w.x) <= w.y.sent
  {
    StartInv();
    RunKeepsInv(Start(), steps);
  }

  /** Whatever acknowledgement is still on the wire, stale, duplicated or piggybacked on a
      retransmission, names only packets its receiver has. */
  lemma AcknowledgementsNeverLie(steps: seq<Step>, d: Datagram, k: uint32)
    requires CanRun(Start(), steps) && WithinLimit(Run(Start(), steps))
    requires Acks(d, k)
    ensures var w := Run(Start(), steps);
            (d in w.toX ==> Received(w.y.ep, k)) && (d in w.toY ==> Received(w.x.ep, k))
  {
    StartInv();
    RunKeepsInv(Start(), steps);
    var w := Run(Start(), steps);
    if d in w.toX {
      assert Sound(w.y.ep, d);
    }
    if d in w.toY {
      assert Sound(w.x.ep, d);
    }
  }

  /** Window bounds over every run: 2 <= cwnd <= 512, and inFlight never exceeds the window
      nor the number of packets in flight. */
  lemma WindowBoundsHold(steps: seq<Step>)
    requires CanRun(Start(), steps) && WithinLimit(Run(Start(), steps))
    ensures var w := Run(Start(), steps); Windowed(w.x) && Windowed(w.y)
  {
    StartInv();
    RunKeepsInv(Start(), steps);
  }

  lemma WaitedForIsHeld(s: Node, r: Node, chan: set<Datagram>, back: set<Datagram>)
    requires Direction(s, r, chan, back)
    requires r.ep.nextExpect < |s.sent|
    ensures var k := r.ep.nextExpect;
            k in s.ep.inflight && Carries(s.ep.inflight[k].packet, k, s.sent)
  {
    assert !Received(r.ep, r.ep.nextExpect);
  }

  /** No head-of-line hole, on any run, in either direction: the packet a receiver waits for
      is still in its sender's hands, with its original payload. */
  lemma NoHeadOfLineHole(steps: seq<Step>)
    requires CanRun(Start(), steps) && WithinLimit(Run(Start(), steps))
    ensures var w := Run(Start(), steps);
            && (w.y.ep.nextExpect < w.x.ep.nextSeq ==>
                  && w.y.ep.nextExpect in w.x.ep.inflight
                  && Carries(w.x.ep.inflight[w.y.ep.nextExpect].packet, w.y.ep.nextExpect, w.x.sent))
            && (w.x.ep.nextExpect < w.y.ep.nextSeq ==>
                  && w.x.ep.nextExpect in w.y.ep.inflight
                  && Carries(w.y.ep.inflight[w.x.ep.nextExpect].packet, w.x.ep.nextExpect, w.y.sent))
  {
    StartInv();
    RunKeepsInv(Start(), steps);
    var w := Run(Start(), steps);
    hide Run, CanRun, Carries, Received, Sound;
    if w.y.ep.nextExpect < w.x.ep.nextSeq {
      WaitedForIsHeld(w.x, w.y, w.toY, w.toX);
    }
    if w.x.ep.nextExpect < w.y.ep.nextSeq {
      WaitedForIsHeld(w.y, w.x, w.toX, w.toY);
    }
  }

  // ---- what does not touch the stream ----

  /** Unreliable traffic never disturbs the stream: neither sending it nor receiving it
      changes what has been accepted or delivered. */
  lemma UnreliableIsInvisible(n: Node, e: Event)
    requires (e.SendData? && !IsReliable(e.flags)) || (e.Arrive? && e.d.Data? && !IsReliable(e.d.flags))
    ensures After(n, e).sent == n.sent && Got(After(n, e)) == Got(n)
    ensures After(n, e).ep.nextSeq == n.ep.nextSeq && After(n, e).ep.nextExpect == n.ep.nextExpect
    ensures After(n, e).ep.recvBuf == n.ep.recvBuf
  {
    if e.Arrive? {
      ReliablesAppend(n.ep.incoming, Delivery(false, e.d.payload));
    }
  }

  /** When a send is refused, and that it then changes nothing at all: no sequence number is
      consumed. */
  lemma RefusedSendIsInvisible(n: Node, payload: bytes, flags: byte, now: nat)
    ensures Send(n.ep, payload, flags, now).1.Err? <==>
            |payload| > 1200 || (flags % 2 == 1 && !C.CanSend(n.ep.window, now))
    ensures Send(n.ep, payload, flags, now).1 == Err(TooLarge) <==> |payload| > 1200
    ensures Send(n.ep, payload, flags, now).1.Err? ==>
              After(n, SendData(payload, flags, now)) == n && Emitted(n, SendData(payload, flags, now)) == {}
  {
  }
}
