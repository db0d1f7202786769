/** The unreliable traffic of the two-node system, which carries the video plane and the
    handshake: what arrives while the queue has room is handed over, once for each arrival
    and in the order of arrival, and nothing else is. */
module Unreliable {
  import opened Words
  import opened Reudp
  import opened Network

  /** The unreliable payloads among a sequence of deliveries, in order. */
  function Loose(ds: seq<Delivery>): seq<bytes> {
    if ds == [] then []
    else
      var d := ds[|ds| - 1];
      Loose(ds[..|ds| - 1]) + (if d.reliable then [] else [d.body])
  }

  lemma LooseAppend(ds: seq<Delivery>, d: Delivery)
    ensures Loose(ds + [d]) == Loose(ds) + (if d.reliable then [] else [d.body])
  {
    assert (ds + [d])[..|ds|] == ds;
  }

  /** What an event brings: the payload of an unreliable datagram that finds room. */
  function Brought(e: Event): seq<bytes> {
    if e.Arrive? && e.d.Data? && e.d.flags % 2 == 0 && e.room then [e.d.payload] else []
  }

  lemma {:induction false} DrainIsReliable(s: State)
    ensures Loose(Drain(s).incoming) == Loose(s.incoming)
    decreases |s.recvBuf|
  {
    var e := s.nextExpect;
    if e in s.recvBuf {
      var rest := s.recvBuf - {e};
      assert rest.Keys == s.recvBuf.Keys - {e};
      assert |rest.Keys| < |s.recvBuf.Keys|;
      var d := Delivery(true, s.recvBuf[e]);
      LooseAppend(s.incoming, d);
      DrainIsReliable(s.(recvBuf := rest, incoming := s.incoming + [d], nextExpect := Inc32(e)));
    }
  }

  lemma EventBrings(n: Node, e: Event)
    ensures Loose(After(n, e).ep.incoming) == Loose(n.ep.incoming) + Brought(e)
  {
    if e.Arrive? && e.d.Data? {
      var s := HandleAck(n.ep, e.d.ack, 0, e.rtt);
      if IsReliable(e.d.flags) {
        DrainIsReliable(s.(recvBuf := s.recvBuf[e.d.seqno := e.d.payload]));
      } else {
        LooseAppend(s.incoming, Delivery(false, e.d.payload));
      }
      hide Drain;
    }
  }

  function BroughtByStep(step: Step): (seq<bytes>, seq<bytes>) {
    match step
    case AtX(e) => (Brought(e), [])
    case AtY(e) => ([], Brought(e))
    case _ => ([], [])
  }

  lemma StepBrings(w: World, step: Step)
    ensures Loose(Next(w, step).x.ep.incoming) == Loose(w.x.ep.incoming) + BroughtByStep(step).0
    ensures Loose(Next(w, step).y.ep.incoming) == Loose(w.y.ep.incoming) + BroughtByStep(step).1
  {
    hide After, Emitted, Brought, Loose;
    match step
    case AtX(e) => EventBrings(w.x, e);
    case AtY(e) => EventBrings(w.y, e);
    case _ =>
  }

  /** The unreliable payloads that arrive at x, and those that arrive at y, while there is room. */
  function BroughtBy(steps: seq<Step>): (seq<bytes>, seq<bytes>) {
    if steps == [] then ([], [])
    else
      var (first, rest) := (BroughtByStep(steps[0]), BroughtBy(steps[1..]));
      (first.0 + rest.0, first.1 + rest.1)
  }

  /** Over any run, each side is handed exactly the unreliable payloads that arrived while it
      had room, in the order in which they arrived. */
  lemma {:induction false} UnreliableIsHandedOver(w: World, steps: seq<Step>)
    ensures Loose(Run(w, steps).x.ep.incoming) == Loose(w.x.ep.incoming) + BroughtBy(steps).0
    ensures Loose(Run(w, steps).y.ep.incoming) == Loose(w.y.ep.incoming) + BroughtBy(steps).1
    decreases |steps|
  {
    hide Next, Loose, BroughtByStep;
    if steps != [] {
      StepBrings(w, steps[0]);
      UnreliableIsHandedOver(Next(w, steps[0]), steps[1..]);
      var first, rest := BroughtByStep(steps[0]), BroughtBy(steps[1..]);
      Assoc(Loose(w.x.ep.incoming), first.0, rest.0);
      Assoc(Loose(w.y.ep.incoming), first.1, rest.1);
    }
  }

  /** Such a payload, of at most 1200 bytes, is never refused, leaves the sender as it is and
      puts one datagram on the wire; when that arrives it is next in the queue, if there is
      room, whatever the window and the state of either side. */
  lemma UnreliableGoesThrough(w: World, payload: bytes, flags: byte, now: nat, rtt: nat, room: bool, reply: Datagram)
    returns (d: Datagram)
    requires flags % 2 == 0 && |payload| <= 1200
    ensures var u := Next(w, AtX(SendData(payload, flags, now)));
            var arrive := AtY(Arrive(d, rtt, room, reply));
            && u.x == w.x && u.y == w.y && u.toY == w.toY + {d}
            && d.Data? && d.flags == flags && d.seqno == 0 && d.payload == payload
            && Enabled(u, arrive)
            && Next(u, arrive).y.ep.incoming == w.y.ep.incoming + (if room then [Delivery(false, payload)] else [])
            && Next(u, arrive).y.ep.nextExpect == w.y.ep.nextExpect && Next(u, arrive).toX == w.toX
  {
    d := Outgoing(w.x.ep, payload, flags);
    hide HandleAck;
    AckLeavesReceived(w.y.ep, d.ack, 0, rtt);
  }

  // ---- nothing is invented ----

  function SentByX(steps: seq<Step>): set<bytes> {
    if steps == [] then {}
    else
      (if steps[0].AtX? && steps[0].e.SendData? && steps[0].e.flags % 2 == 0 then {steps[0].e.payload} else {})
      + SentByX(steps[1..])
  }

  /** Unreliable datagrams on the way to y, and what y was handed, stem from known. */
  predicate Stems(w: World, known: set<bytes>) {
    && (forall k | k in w.x.ep.inflight :: NeedsReply(w.x.ep.inflight[k].packet))
    && (forall d | d in w.toY && d.Data? && !NeedsReply(d) :: d.payload in known)
    && (forall i | 0 <= i < |w.y.ep.incoming| :: w.y.ep.incoming[i].reliable || w.y.ep.incoming[i].body in known)
  }

  lemma ArrivalQueues(s: State, d: Datagram, rtt: nat, room: bool)
    ensures var t := AfterArrival(s, d, rtt, room);
            && s.incoming <= t.incoming
            && forall i | |s.incoming| <= i < |t.incoming| ::
                 t.incoming[i].reliable || (d.Data? && !NeedsReply(d) && t.incoming[i].body == d.payload)
  {
    if d.Data? {
      var t := HandleAck(s, d.ack, 0, rtt);
      assert t.incoming == s.incoming;
      QueueAfterDrain(t.(recvBuf := t.recvBuf[d.seqno := d.payload]));
      hide Drain, HandleAck;
    }
  }

  lemma ArrivalStems(w: World, known: set<bytes>, e: Event)
    requires Stems(w, known) && e.Arrive? && Enabled(w, AtY(e))
    ensures Stems(Next(w, AtY(e)), known)
  {
    ArrivalQueues(w.y.ep, e.d, e.rtt, e.room);
    hide AfterArrival, IsMask;
  }

  /** What an event of x puts on the wire: answers, copies of what is in flight, or the datagram of
      a send. */
  lemma XEmits(n: Node, e: Event)
    requires e.Arrive? && NeedsReply(e.d) ==> e.reply.Ack?
    requires forall k | k in n.ep.inflight :: NeedsReply(n.ep.inflight[k].packet)
    ensures forall k | k in After(n, e).ep.inflight :: NeedsReply(After(n, e).ep.inflight[k].packet)
    ensures forall d | d in Emitted(n, e) && d.Data? && !NeedsReply(d) ::
              e.SendData? && e.flags % 2 == 0 && d.payload == e.payload
  {
    if e.Arrive? && e.d.Data? {
      DataKeepsSending(HandleAck(n.ep, e.d.ack, 0, e.rtt), e.d.flags, e.d.seqno, e.d.payload, e.room);
      hide HandleData;
    }
  }

  lemma XStems(w: World, known: set<bytes>, e: Event)
    requires Stems(w, known) && Enabled(w, AtX(e))
    ensures Stems(Next(w, AtX(e)), known + SentByX([AtX(e)]))
  {
    XEmits(w.x, e);
    assert [AtX(e)][1..] == [];
    assert SentByX([AtX(e)]) == if e.SendData? && e.flags % 2 == 0 then {e.payload} else {};
    hide After, Emitted, NeedsReply, SentByX, IsMask;
  }

  lemma StepStems(w: World, known: set<bytes>, step: Step)
    requires Stems(w, known) && Enabled(w, step)
    ensures Stems(Next(w, step), known + SentByX([step]))
  {
    match step
    case AtX(e) => XStems(w, known, e);
    case AtY(e) =>
      if e.Arrive? {
        ArrivalStems(w, known, e);
      }
    case _ =>
  }

  lemma {:induction false} RunStems(w: World, known: set<bytes>, steps: seq<Step>)
    requires Stems(w, known) && CanRun(w, steps)
    ensures Stems(Run(w, steps), known + SentByX(steps))
    decreases |steps|
  {
    hide Stems, Next, Enabled;
    if steps == [] {
      assert known + {} == known;
    } else {
      StepStems(w, known, steps[0]);
      RunStems(Next(w, steps[0]), known + SentByX([steps[0]]), steps[1..]);
      assert [steps[0]][1..] == [];
      assert known + SentByX([steps[0]]) + SentByX(steps[1..]) == known + SentByX(steps);
    }
  }

  /** On every run, what one side is handed unreliably the other side sent so. */
  lemma NothingIsInvented(steps: seq<Step>, p: bytes)
    requires CanRun(Start(), steps) && p in Loose(Run(Start(), steps).y.ep.incoming)
    ensures p in SentByX(steps)
  {
    RunStems(Start(), {}, steps);
    LooseIsQueued(Run(Start(), steps).y.ep.incoming, p);
    assert {} + SentByX(steps) == SentByX(steps);
  }

  lemma {:induction false} LooseIsQueued(ds: seq<Delivery>, p: bytes)
    requires p in Loose(ds)
    ensures exists i | 0 <= i < |ds| :: !ds[i].reliable && ds[i].body == p
  {
    var n := |ds| - 1;
    if p in Loose(ds[..n]) {
      LooseIsQueued(ds[..n], p);
      var i :| 0 <= i < n && !ds[..n][i].reliable && ds[..n][i].body == p;
      assert ds[i].body == p;
    } else {
      assert ds[n].body == p;
    }
  }
}
