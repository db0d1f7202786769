/** Two endpoints joined by a network that may lose, duplicate, delay and reorder
    datagrams, and the proof that the reliable stream between them is a FIFO.

    Each endpoint operation is one atomic step of a node. The network is the set of
    datagrams sent so far and not lost: delivering one leaves it there, so it may arrive
    any number of times and in any order. */
module Network {
  import opened Words
  import opened Reudp
  import C = Congestion

  /** The stream length up to which 32-bit sequence numbers do not wrap. */
  const LIMIT: nat := TWO32 - 1

  /** An endpoint with the history of payloads its SendReliable accepted. */
  datatype Node = Node(ep: State, sent: seq<bytes>)

  datatype Event =
    | SendData(payload: bytes, flags: byte, now: nat)
    | Arrive(d: Datagram, rtt: nat, room: bool, reply: Datagram)
    | Expire(due: set<uint32>)
    | Boost

  function AfterArrival(s: State, d: Datagram, rtt: nat, room: bool): State {
    match d
    case Ack(cum, sack) => HandleAck(s, cum, sack, rtt)
    case Data(flags, seqno, ack, payload) =>
      HandleData(HandleAck(s, ack, 0, rtt), flags, seqno, payload, room)
  }

  predicate NeedsReply(d: Datagram) {
    d.Data? && IsReliable(d.flags)
  }

  function After(n: Node, e: Event): Node {
    match e
    case SendData(payload, flags, now) =>
      var (ep, r) := Send(n.ep, payload, flags, now);
      Node(ep, if r.Ok? && IsReliable(flags) then n.sent + [payload] else n.sent)
    case Arrive(d, rtt, room, _) => n.(ep := AfterArrival(n.ep, d, rtt, room))
    case Expire(due) => n.(ep := Tick(n.ep, due))
    case Boost => n.(ep := n.ep.(window := C.BoostForLAN(n.ep.window)))
  }

  function Emitted(n: Node, e: Event): set<Datagram> {
    match e
    case SendData(payload, flags, now) =>
      var r := Send(n.ep, payload, flags, now).1;
      if r.Ok? then {r.value} else {}
    case Arrive(d, _, _, reply) => if NeedsReply(d) then {reply} else {}
    case Expire(due) => Resent(n.ep, due)
    case Boost => {}
  }

  /** A datagram arrives from the network, and an ACK it triggers is the ACK of the new state. */
  ghost predicate Possible(n: Node, e: Event, inbox: set<Datagram>) {
    e.Arrive? ==>
      && e.d in inbox
      && (NeedsReply(e.d) ==> e.reply.Ack? && IsAckOf(After(n, e).ep, e.reply.cum, e.reply.sack))
  }

  // ---- the two-node system ----

  datatype World = World(x: Node, y: Node, toX: set<Datagram>, toY: set<Datagram>)

  datatype Step = AtX(e: Event) | AtY(e: Event) | LoseToX(d: Datagram) | LoseToY(d: Datagram)

  ghost predicate Enabled(w: World, step: Step) {
    match step
    case AtX(e) => Possible(w.x, e, w.toX)
    case AtY(e) => Possible(w.y, e, w.toY)
    case _ => true
  }

  function Next(w: World, step: Step): World {
    match step
    case AtX(e) => w.(x := After(w.x, e), toY := w.toY + Emitted(w.x, e))
    case AtY(e) => w.(y := After(w.y, e), toX := w.toX + Emitted(w.y, e))
    case LoseToX(d) => w.(toX := w.toX - {d})
    case LoseToY(d) => w.(toY := w.toY - {d})
  }

  ghost predicate CanRun(w: World, steps: seq<Step>)
    decreases |steps|
  {
    steps != [] ==> Enabled(w, steps[0]) && CanRun(Next(w, steps[0]), steps[1..])
  }

  function Run(w: World, steps: seq<Step>): World
    decreases |steps|
  {
    if steps == [] then w else Run(Next(w, steps[0]), steps[1..])
  }

  function Start(): World {
    World(Node(Initial(), []), Node(Initial(), []), {}, {})
  }

  /** The reliable payloads a node has put on its incoming queue. */
  function Got(n: Node): seq<bytes> {
    Reliables(n.ep.incoming)
  }

  predicate WithinLimit(w: World) {
    |w.x.sent| <= LIMIT && |w.y.sent| <= LIMIT
  }

  // ---- the invariant of one direction ----

  predicate Acks(d: Datagram, k: uint32) {
    match d
    case Ack(cum, sack) => AckedBy(cum, sack, k)
    case Data(_, _, ack, _) => AckedBy(ack, 0, k)
  }

  /** Everything d acknowledges has been received. */
  ghost predicate Sound(r: State, d: Datagram) {
    forall k: uint32 :: Acks(d, k) ==> Received(r, k)
  }

  predicate Carries(d: Datagram, k: uint32, log: seq<bytes>) {
    d.Data? && IsReliable(d.flags) && d.seqno == k && k < |log| && d.payload == log[k]
  }

  /** s sends reliably to r; chan holds the datagrams from s to r and back those from r to s. */
  ghost predicate Direction(s: Node, r: Node, chan: set<Datagram>, back: set<Datagram>) {
    && |s.sent| <= LIMIT
    && s.ep.nextSeq == |s.sent|
    && r.ep.nextExpect <= |s.sent|
    && Got(r) == s.sent[..r.ep.nextExpect]
    && (forall k | k in s.ep.inflight :: Carries(s.ep.inflight[k].packet, k, s.sent))
    && (forall d | d in chan && NeedsReply(d) :: Carries(d, d.seqno, s.sent))
    && (forall k | k in r.ep.recvBuf :: r.ep.nextExpect < k < |s.sent| && r.ep.recvBuf[k] == s.sent[k])
    && (forall k: uint32 | k < |s.sent| && k !in s.ep.inflight :: Received(r.ep, k))
    && (forall d | d in back :: Sound(r.ep, d))
    && (forall k | k in r.ep.inflight :: Sound(r.ep, r.ep.inflight[k].packet))
  }

  /** Window bounds, and no credit leaked: every unit of inFlight is a packet in flight. */
  predicate Windowed(n: Node) {
    C.Sane(n.ep.window) && n.ep.window.inFlight <= |n.ep.inflight|
  }

  ghost predicate Inv(w: World) {
    && Direction(w.x, w.y, w.toY, w.toX)
    && Direction(w.y, w.x, w.toX, w.toY)
    && Windowed(w.x)
    && Windowed(w.y)
  }

  // ---- acknowledgements are sound ----

  lemma PiggybackIsExact(nextExpect: uint32, k: uint32)
    ensures AckedBy(Cumulative(nextExpect), 0, k) <==> k < nextExpect
  {
    var delta := Sub32(k, Inc32(Cumulative(nextExpect)));
    if delta < 64 {
      NoBit(delta);
    }
  }

  lemma AckOfStateIsSound(s: State, d: Datagram)
    requires d.Ack? ==> IsAckOf(s, d.cum, d.sack)
    requires d.Data? ==> d.ack == Cumulative(s.nextExpect)
    ensures Sound(s, d)
  {
    forall k: uint32 | Acks(d, k) ensures Received(s, k) {
      if d.Ack? {
        AckIsExact(s, d.cum, d.sack, k);
      } else {
        PiggybackIsExact(s.nextExpect, k);
      }
    }
  }

  /** Stale acknowledgements stay sound: the received set only grows. */
  lemma SoundStaysSound(s: State, t: State, d: Datagram)
    requires Sound(s, d)
    requires forall k: uint32 :: Received(s, k) ==> Received(t, k)
    ensures Sound(t, d)
  {
  }

  // ---- one arrival, as seen by the receiving side of a direction ----

  lemma AckLeavesReceived(s: State, cum: uint32, sack: bv64, rtt: nat)
    ensures var t := HandleAck(s, cum, sack, rtt);
            && t.nextExpect == s.nextExpect && t.recvBuf == s.recvBuf && t.incoming == s.incoming
            && t.nextSeq == s.nextSeq
            && (forall k | k in t.inflight :: k in s.inflight && t.inflight[k] == s.inflight[k])
            && (forall k | k in s.inflight && k !in t.inflight :: AckedBy(cum, sack, k))
  {
  }

  /** A reliable packet extends the received set by itself and the delivered prefix as far
      as the buffer is contiguous. */
  lemma DataExtends(s: State, log: seq<bytes>, flags: byte, seqno: uint32, payload: bytes, room: bool)
    requires |log| <= LIMIT
    requires s.nextExpect <= |log| && Reliables(s.incoming) == log[..s.nextExpect]
    requires forall k | k in s.recvBuf :: s.nextExpect < k < |log| && s.recvBuf[k] == log[k]
    requires IsReliable(flags) ==> seqno < |log| && payload == log[seqno]
    ensures var t := HandleData(s, flags, seqno, payload, room);
            && s.nextExpect <= t.nextExpect <= |log|
            && Reliables(t.incoming) == log[..t.nextExpect]
            && (forall k | k in t.recvBuf :: t.nextExpect < k < |log| && t.recvBuf[k] == log[k])
            && (forall k: uint32 :: Received(s, k) ==> Received(t, k))
            && (IsReliable(flags) ==> Received(t, seqno))
            && t.inflight == s.inflight && t.nextSeq == s.nextSeq && t.window == s.window
  {
    if !IsReliable(flags) {
      ReliablesAppend(s.incoming, Delivery(false, payload));
    } else if seqno >= s.nextExpect {
      var filled := s.(recvBuf := s.recvBuf[seqno := payload]);
      DrainMoves(filled, |log|);
      DrainDelivers(filled, log);
      var t := Drain(filled);
      forall k | k in t.recvBuf ensures t.nextExpect < k {
        assert k in filled.recvBuf && k >= s.nextExpect;
        if k < t.nextExpect {
          DrainedGone(filled, k, |log|);
        }
      }
      assert Received(filled, seqno);
    }
  }

  /** Delivered packets leave the buffer. */
  lemma {:induction false} DrainedGone(s: State, k: uint32, limit: uint32)
    requires forall j | j in s.recvBuf :: j < limit
    requires s.nextExpect <= limit
    requires s.nextExpect <= k < Drain(s).nextExpect
    ensures k !in Drain(s).recvBuf
    decreases |s.recvBuf|
  {
    var e := s.nextExpect;
    if e in s.recvBuf {
      var rest := s.recvBuf - {e};
      assert rest.Keys == s.recvBuf.Keys - {e};
      assert |rest.Keys| < |s.recvBuf.Keys|;
      var u := s.(recvBuf := rest, incoming := s.incoming + [Delivery(true, s.recvBuf[e])], nextExpect := Inc32(e));
      if k == e {
        DrainMoves(u, limit);
      } else {
        DrainedGone(u, k, limit);
      }
    }
  }

  // ---- every step keeps the invariant ----

  lemma DataKeepsSending(s: State, flags: byte, seqno: uint32, payload: bytes, room: bool)
    ensures var t := HandleData(s, flags, seqno, payload, room);
            t.nextSeq == s.nextSeq && t.inflight == s.inflight && t.window == s.window
  {
    if IsReliable(flags) && seqno >= s.nextExpect {
      DrainKeepsSending(s.(recvBuf := s.recvBuf[seqno := payload]));
    }
  }

  lemma {:induction false} DrainKeepsSending(s: State)
    ensures var t := Drain(s);
            t.nextSeq == s.nextSeq && t.inflight == s.inflight && t.window == s.window
    decreases |s.recvBuf|
  {
    if s.nextExpect in s.recvBuf {
      var rest := s.recvBuf - {s.nextExpect};
      assert rest.Keys == s.recvBuf.Keys - {s.nextExpect};
      assert |rest.Keys| < |s.recvBuf.Keys|;
      DrainKeepsSending(s.(recvBuf := rest,
                           incoming := s.incoming + [Delivery(true, s.recvBuf[s.nextExpect])],
                           nextExpect := Inc32(s.nextExpect)));
    }
  }

  /** The sending side may drop acknowledged packets from inflight, and put on the wire
      acknowledgements and copies of what is in flight. */
  lemma SenderFrame(s: Node, t: Node, r: Node, chan: set<Datagram>, more: set<Datagram>, back: set<Datagram>)
    requires Direction(s, r, chan, back)
    requires t.sent == s.sent && t.ep.nextSeq == s.ep.nextSeq
    requires forall k | k in t.ep.inflight :: k in s.ep.inflight && t.ep.inflight[k].packet == s.ep.inflight[k].packet
    requires forall k | k in s.ep.inflight && k !in t.ep.inflight :: Received(r.ep, k)
    requires forall d | d in more && NeedsReply(d) :: Carries(d, d.seqno, s.sent)
    ensures Direction(t, r, chan + more, back)
  {
  }

  lemma SenderSends(s: Node, r: Node, chan: set<Datagram>, back: set<Datagram>, e: Event)
    requires Direction(s, r, chan, back)
    requires e.SendData? && |After(s, e).sent| <= LIMIT
    ensures Direction(After(s, e), r, chan + Emitted(s, e), back)
  {
    var t := After(s, e);
    if t.sent != s.sent {
      assert t.sent[..r.ep.nextExpect] == s.sent[..r.ep.nextExpect];
      assert forall d, k: uint32 | Carries(d, k, s.sent) :: Carries(d, k, t.sent);
    }
  }

  lemma SenderHears(s: Node, r: Node, chan: set<Datagram>, back: set<Datagram>, e: Event)
    requires Direction(s, r, chan, back)
    requires e.Arrive? && Possible(s, e, back)
    ensures Direction(After(s, e), r, chan + Emitted(s, e), back)
  {
    var t := After(s, e);
    assert Sound(r.ep, e.d);
    match e.d {
      case Ack(cum, sack) => AckLeavesReceived(s.ep, cum, sack, e.rtt);
      case Data(flags, seqno, ack, payload) =>
        AckLeavesReceived(s.ep, ack, 0, e.rtt);
        DataKeepsSending(HandleAck(s.ep, ack, 0, e.rtt), flags, seqno, payload, e.room);
    }
    forall k | k in s.ep.inflight && k !in t.ep.inflight ensures Received(r.ep, k) {
      assert Acks(e.d, k);
    }
    SenderFrame(s, t, r, chan, Emitted(s, e), back);
  }

  /** A step of the sending node. */
  lemma SenderStep(s: Node, r: Node, chan: set<Datagram>, back: set<Datagram>, e: Event)
    requires Direction(s, r, chan, back)
    requires Possible(s, e, back)
    requires |After(s, e).sent| <= LIMIT
    ensures Direction(After(s, e), r, chan + Emitted(s, e), back)
  {
    match e
    case SendData(_, _, _) => SenderSends(s, r, chan, back, e);
    case Arrive(_, _, _, _) => SenderHears(s, r, chan, back, e);
    case Expire(_) => SenderFrame(s, After(s, e), r, chan, Emitted(s, e), back);
    case Boost => SenderFrame(s, After(s, e), r, chan, Emitted(s, e), back);
  }

  /** The receiving side may extend what it has received and delivered, and put on the wire
      acknowledgements of that. */
  lemma ReceiverFrame(s: Node, r: Node, t: Node, chan: set<Datagram>, back: set<Datagram>, more: set<Datagram>)
    requires Direction(s, r, chan, back)
    requires r.ep.nextExpect <= t.ep.nextExpect <= |s.sent|
    requires Got(t) == s.sent[..t.ep.nextExpect]
    requires forall k | k in t.ep.recvBuf :: t.ep.nextExpect < k < |s.sent| && t.ep.recvBuf[k] == s.sent[k]
    requires forall k: uint32 :: Received(r.ep, k) ==> Received(t.ep, k)
    requires forall d | d in more :: Sound(t.ep, d)
    requires forall k | k in t.ep.inflight ::
               Sound(t.ep, t.ep.inflight[k].packet) || (k in r.ep.inflight && t.ep.inflight[k].packet == r.ep.inflight[k].packet)
    ensures Direction(s, t, chan, back + more)
  {
    forall d | d in back ensures Sound(t.ep, d) {
      SoundStaysSound(r.ep, t.ep, d);
    }
    forall k | k in t.ep.inflight ensures Sound(t.ep, t.ep.inflight[k].packet) {
      if k in r.ep.inflight {
        SoundStaysSound(r.ep, t.ep, r.ep.inflight[k].packet);
      }
    }
  }

  lemma ReceiverSends(s: Node, r: Node, chan: set<Datagram>, back: set<Datagram>, e: Event)
    requires Direction(s, r, chan, back)
    requires e.SendData?
    ensures Direction(s, After(r, e), chan, back + Emitted(r, e))
  {
    var d := Outgoing(r.ep, e.payload, e.flags);
    var t := After(r, e);
    AckOfStateIsSound(r.ep, d);
    SoundStaysSound(r.ep, t.ep, d);
    ReceiverFrame(s, r, t, chan, back, Emitted(r, e));
  }

  lemma ReceiverHears(s: Node, r: Node, chan: set<Datagram>, back: set<Datagram>, e: Event)
    requires Direction(s, r, chan, back)
    requires e.Arrive? && Possible(r, e, chan)
    ensures Direction(s, After(r, e), chan, back + Emitted(r, e))
    ensures r.ep.nextExpect <= After(r, e).ep.nextExpect
    ensures forall k: uint32 :: Received(r.ep, k) ==> Received(After(r, e).ep, k)
    ensures NeedsReply(e.d) ==> Received(After(r, e).ep, e.d.seqno)
  {
    var t := After(r, e);
    match e.d {
      case Ack(cum, sack) => AckLeavesReceived(r.ep, cum, sack, e.rtt);
      case Data(flags, seqno, ack, payload) =>
        AckLeavesReceived(r.ep, ack, 0, e.rtt);
        DataExtends(HandleAck(r.ep, ack, 0, e.rtt), s.sent, flags, seqno, payload, e.room);
    }
    if NeedsReply(e.d) {
      AckOfStateIsSound(t.ep, e.reply);
    }
    ReceiverFrame(s, r, t, chan, back, Emitted(r, e));
  }

  /** A step of the receiving node. */
  lemma ReceiverStep(s: Node, r: Node, chan: set<Datagram>, back: set<Datagram>, e: Event)
    requires Direction(s, r, chan, back)
    requires Possible(r, e, chan)
    ensures Direction(s, After(r, e), chan, back + Emitted(r, e))
  {
    match e
    case SendData(_, _, _) => ReceiverSends(s, r, chan, back, e);
    case Arrive(_, _, _, _) => ReceiverHears(s, r, chan, back, e);
    case Expire(due) => ReceiverResends(s, r, chan, back, e);
    case Boost => ReceiverFrame(s, r, After(r, e), chan, back, Emitted(r, e));
  }

  lemma ReceiverResends(s: Node, r: Node, chan: set<Datagram>, back: set<Datagram>, e: Event)
    requires Direction(s, r, chan, back)
    requires e.Expire?
    ensures Direction(s, After(r, e), chan, back + Emitted(r, e))
  {
    var t := After(r, e);
    forall d | d in Emitted(r, e) ensures Sound(t.ep, d) {
      SoundStaysSound(r.ep, t.ep, d);
    }
    ReceiverFrame(s, r, t, chan, back, Emitted(r, e));
  }
}
