/** Where a session may be reset, and how far its sequence numbers reach.

    x is the Agent, whose endpoint survives from one session to the next; y is the client,
    which comes with a fresh endpoint and may send its first reliable message (OPEN,
    sequence number 0) before the Agent has finished the handshake. */
module Sessions {
  import opened Words
  import opened Reudp
  import opened Network
  import opened Stream
  import opened Progress
  import C = Congestion

  // ---- ResetReliableSession before the handshake ----

  /** w with q queued at x in front of everything delivered there. */
  function Behind(q: seq<Delivery>, w: World): World {
    w.(x := w.x.(ep := Queued(q, w.x.ep)))
  }

  function Queued(q: seq<Delivery>, s: State): State {
    s.(incoming := q + s.incoming)
  }

  lemma {:induction false} DrainQueued(q: seq<Delivery>, s: State)
    ensures Drain(Queued(q, s)) == Queued(q, Drain(s))
    decreases |s.recvBuf|
  {
    var e := s.nextExpect;
    if e in s.recvBuf {
      var rest := s.recvBuf - {e};
      assert rest.Keys == s.recvBuf.Keys - {e};
      assert |rest.Keys| < |s.recvBuf.Keys|;
      var d := Delivery(true, s.recvBuf[e]);
      Assoc(q, s.incoming, [d]);
      DrainQueued(q, s.(recvBuf := rest, incoming := s.incoming + [d], nextExpect := Inc32(e)));
    }
  }

  lemma ArrivalQueued(q: seq<Delivery>, s: State, d: Datagram, rtt: nat, room: bool)
    ensures AfterArrival(Queued(q, s), d, rtt, room) == Queued(q, AfterArrival(s, d, rtt, room))
  {
    if d.Data? {
      var t := HandleAck(s, d.ack, 0, rtt);
      assert HandleAck(Queued(q, s), d.ack, 0, rtt) == Queued(q, t);
      if IsReliable(d.flags) {
        DrainQueued(q, t.(recvBuf := t.recvBuf[d.seqno := d.payload]));
      } else {
        Assoc(q, t.incoming, [Delivery(false, d.payload)]);
      }
      hide HandleAck, Drain;
    }
  }

  lemma EventQueued(q: seq<Delivery>, n: Node, e: Event, inbox: set<Datagram>)
    ensures var m := n.(ep := Queued(q, n.ep));
            && After(m, e) == After(n, e).(ep := Queued(q, After(n, e).ep))
            && Emitted(m, e) == Emitted(n, e)
            && (Possible(m, e, inbox) <==> Possible(n, e, inbox))
  {
    if e.Arrive? {
      ArrivalQueued(q, n.ep, e.d, e.rtt, e.room);
    }
    hide AfterArrival, IsMask, C.OnSend, C.OnLoss, C.BoostForLAN, C.CanSend;
  }

  lemma StepBehind(q: seq<Delivery>, w: World, step: Step)
    ensures Enabled(Behind(q, w), step) <==> Enabled(w, step)
    ensures Next(Behind(q, w), step) == Behind(q, Next(w, step))
  {
    if step.AtX? {
      EventQueued(q, w.x, step.e, w.toX);
    }
    hide After, Emitted, Possible, Queued;
  }

  lemma {:induction false} RunBehind(q: seq<Delivery>, w: World, steps: seq<Step>)
    ensures CanRun(Behind(q, w), steps) <==> CanRun(w, steps)
    ensures Run(Behind(q, w), steps) == Behind(q, Run(w, steps))
    decreases |steps|
  {
    hide Next, Enabled, Behind;
    if steps != [] {
      StepBehind(q, w, steps[0]);
      RunBehind(q, Next(w, steps[0]), steps[1..]);
    }
  }

  /** Whatever the endpoint went through before, a session that starts with the reset is a FIFO
      in both directions; what was still queued comes out first and is not part of it. */
  lemma SessionResetStartsAfresh(before: State, steps: seq<Step>)
    requires var w := World(Node(ResetSession(before), []), Node(Initial(), []), {}, {});
             CanRun(w, steps) && WithinLimit(Run(w, steps))
    ensures var v := Run(World(Node(ResetSession(before), []), Node(Initial(), []), {}, {}), steps);
            && before.incoming <= v.x.ep.incoming
            && Reliables(v.x.ep.incoming[|before.incoming|..]) <= v.y.sent
            && Got(v.y) <= v.x.sent
  {
    var q := before.incoming;
    assert q + [] == q;
    assert World(Node(ResetSession(before), []), Node(Initial(), []), {}, {}) == Behind(q, Start());
    RunBehind(q, Start(), steps);
    hide Run, CanRun;
    var w := Run(Start(), steps);
    ReliableStreamIsFifo(steps);
    assert (q + w.x.ep.incoming)[|q|..] == w.x.ep.incoming;
  }

  // ---- ResetReliableSend after the handshake ----

  function AfterSendReset(w: World): World {
    w.(x := w.x.(ep := ResetSend(w.x.ep)))
  }

  /** While the Agent has accepted nothing reliable, the reset changes no stream: the run
      goes on as a FIFO in both directions. */
  lemma SendResetIsSafe(history: seq<Step>, steps: seq<Step>)
    requires CanRun(Start(), history)
    requires var w := Run(Start(), history);
             && WithinLimit(w) && w.x.sent == []
             && CanRun(AfterSendReset(w), steps) && WithinLimit(Run(AfterSendReset(w), steps))
    ensures var w := Run(Start(), history);
            var v := Run(AfterSendReset(w), steps);
            && Inv(AfterSendReset(w)) && Inv(v)
            && Got(v.y) <= v.x.sent && Got(v.x) <= v.y.sent
            && Got(w.x) <= Got(v.x) && w.y.sent <= v.y.sent
  {
    hide Run, CanRun, Inv;
    StartInv();
    RunKeepsInv(Start(), history);
    var w := Run(Start(), history);
    SendResetKeepsInv(w);
    var u := AfterSendReset(w);
    RunKeepsInv(u, steps);
    RunSentGrows(u, steps);
    InvIsFifo(Run(u, steps));
  }

  lemma InvIsFifo(w: World)
    requires Inv(w)
    ensures Got(w.y) <= w.x.sent && Got(w.x) <= w.y.sent
  {
  }

  /** Numbering from 0 again agrees with the stream x has sent only while that is empty. */
  lemma ResetSender(w: World, ep: State)
    requires Inv(w) && ep.nextSeq == 0 && ep.inflight == map[] && ep.window == C.Fresh()
    ensures Windowed(w.x.(ep := ep))
    ensures Direction(w.x.(ep := ep), w.y, w.toY, w.toX) <==> w.x.sent == []
  {
    C.FreshIsSane();
    hide C.Sane, Carries, Sound;
  }

  lemma SendResetReceiver(w: World)
    requires Inv(w)
    ensures Direction(w.y, AfterSendReset(w).x, w.toX, w.toY)
  {
    hide Windowed, Carries;
  }

  /** On states, the condition is exact. */
  lemma SendResetKeepsInv(w: World)
    requires Inv(w)
    ensures Inv(AfterSendReset(w)) <==> w.x.sent == []
  {
    ResetSender(w, AfterSendReset(w).x.ep);
    SendResetReceiver(w);
    hide Direction, C.Sane;
  }

  lemma SendResetCanFinish(history: seq<Step>) returns (steps: seq<Step>)
    requires CanRun(Start(), history)
    requires WithinLimit(Run(Start(), history)) && Run(Start(), history).x.sent == []
    ensures var w := AfterSendReset(Run(Start(), history));
            && CanRun(w, steps) && Quiet(steps)
            && Finished(Run(w, steps)) && Got(Run(w, steps).x) == w.y.sent
  {
    hide Run, CanRun, Inv;
    StartInv();
    RunKeepsInv(Start(), history);
    SendResetKeepsInv(Run(Start(), history));
    var w := AfterSendReset(Run(Start(), history));
    steps := FinishBothWays(w);
    FinishedIsDelivered(Run(w, steps));
  }

  /** Sequence numbers on the way to y, and what y delivered, stay below n. */
  ghost predicate Capped(w: World, n: nat) {
    && n <= LIMIT
    && w.y.ep.nextExpect <= n
    && |Got(w.y)| <= w.y.ep.nextExpect
    && (forall k | k in w.y.ep.recvBuf :: k < n)
    && (forall d | d in w.toY && NeedsReply(d) :: d.seqno < n)
    && (forall k | k in w.x.ep.inflight :: w.x.ep.inflight[k].packet.Data? && w.x.ep.inflight[k].packet.seqno < n)
  }

  predicate NoReliableSendAtX(steps: seq<Step>) {
    forall i | 0 <= i < |steps| :: steps[i].AtX? && steps[i].e.SendData? ==> !IsReliable(steps[i].e.flags)
  }

  lemma {:induction false} DrainCounts(s: State, n: nat)
    requires n <= LIMIT && s.nextExpect <= n
    requires forall k | k in s.recvBuf :: k < n
    requires |Reliables(s.incoming)| <= s.nextExpect
    ensures |Reliables(Drain(s).incoming)| <= Drain(s).nextExpect
    decreases |s.recvBuf|
  {
    var e := s.nextExpect;
    if e in s.recvBuf {
      var rest := s.recvBuf - {e};
      assert rest.Keys == s.recvBuf.Keys - {e};
      assert |rest.Keys| < |s.recvBuf.Keys|;
      var d := Delivery(true, s.recvBuf[e]);
      ReliablesAppend(s.incoming, d);
      DrainCounts(s.(recvBuf := rest, incoming := s.incoming + [d], nextExpect := Inc32(e)), n);
    }
  }

  lemma CappedArrival(w: World, e: Event, n: nat)
    requires Capped(w, n) && e.Arrive? && Enabled(w, AtY(e))
    ensures Capped(Next(w, AtY(e)), n)
  {
    match e.d
    case Ack(cum, sack) =>
    case Data(flags, seqno, ack, payload) =>
      var s := HandleAck(w.y.ep, ack, 0, e.rtt);
      ReliablesAppend(s.incoming, Delivery(false, payload));
      if IsReliable(flags) && seqno >= s.nextExpect {
        var filled := s.(recvBuf := s.recvBuf[seqno := payload]);
        DrainMoves(filled, n);
        DrainCounts(filled, n);
      }
  }

  lemma CappedAtX(w: World, e: Event, n: nat)
    requires Capped(w, n)
    requires e.SendData? ==> !IsReliable(e.flags)
    requires Possible(w.x, e, w.toX)
    ensures Capped(Next(w, AtX(e)), n) && Next(w, AtX(e)).x.sent == w.x.sent
  {
    if e.Arrive? && e.d.Data? {
      DataKeepsSending(HandleAck(w.x.ep, e.d.ack, 0, e.rtt), e.d.flags, e.d.seqno, e.d.payload, e.room);
    }
  }

  lemma CappedStep(w: World, step: Step, n: nat)
    requires Capped(w, n) && Enabled(w, step)
    requires step.AtX? && step.e.SendData? ==> !IsReliable(step.e.flags)
    ensures Capped(Next(w, step), n) && Next(w, step).x.sent == w.x.sent
  {
    match step
    case AtX(e) => CappedAtX(w, e, n);
    case AtY(e) =>
      if e.Arrive? {
        CappedArrival(w, e, n);
      }
    case _ =>
  }

  lemma {:induction false} CappedRun(w: World, steps: seq<Step>, n: nat)
    requires Capped(w, n) && CanRun(w, steps) && NoReliableSendAtX(steps)
    ensures Capped(Run(w, steps), n) && Run(w, steps).x.sent == w.x.sent
    decreases |steps|
  {
    if steps != [] {
      CappedStep(w, steps[0], n);
      CappedRun(Next(w, steps[0]), steps[1..], n);
    }
  }

  /** Once the Agent has accepted a reliable payload in this session the reset is no longer
      safe: the next payload it accepts reuses sequence number 0, and no continuation
      without further reliable sends ever delivers everything accepted. */
  lemma SendResetTooLate(history: seq<Step>, payload: bytes, steps: seq<Step>)
    requires CanRun(Start(), history)
    requires var w := Run(Start(), history);
             && WithinLimit(w) && w.x.sent != []
             && |payload| <= MAX_PAYLOAD
             && var u := Next(AfterSendReset(w), AtX(SendData(payload, FLAG_RELIABLE, 0)));
             CanRun(u, steps) && NoReliableSendAtX(steps)
    ensures var w := Run(Start(), history);
            var u := Next(AfterSendReset(w), AtX(SendData(payload, FLAG_RELIABLE, 0)));
            && u.x.sent == w.x.sent + [payload]
            && Run(u, steps).x.sent == u.x.sent
            && |Got(Run(u, steps).y)| < |u.x.sent|
  {
    hide Run, CanRun, Inv, Capped, Next;
    StartInv();
    RunKeepsInv(Start(), history);
    var w := Run(Start(), history);
    ReusedNumberIsCapped(w, payload);
    CappedRun(Next(AfterSendReset(w), AtX(SendData(payload, FLAG_RELIABLE, 0))), steps, |w.x.sent|);
    CappedIsShort(Run(Next(AfterSendReset(w), AtX(SendData(payload, FLAG_RELIABLE, 0))), steps), |w.x.sent|);
  }

  lemma CappedIsShort(w: World, n: nat)
    requires Capped(w, n)
    ensures |Got(w.y)| <= n
  {
  }

  lemma ResetThenSend(w: World, payload: bytes)
    requires |payload| <= MAX_PAYLOAD
    ensures var u := Next(AfterSendReset(w), AtX(SendData(payload, FLAG_RELIABLE, 0)));
            var d := Data(FLAG_RELIABLE, 0, Cumulative(w.x.ep.nextExpect), payload);
            && u.x.sent == w.x.sent + [payload] && u.x.ep.inflight == map[0 := Inflight(d, 0)]
            && u.y == w.y && u.toY == w.toY + {d}
  {
    C.FreshIsSane();
    var s := AfterSendReset(w).x.ep;
    assert C.CanSend(s.window, 0);
    hide C.CanSend, C.Fresh, C.OnSend, C.Sane;
    assert Send(s, payload, FLAG_RELIABLE, 0).1.Ok?;
  }

  lemma ReusedNumberIsCapped(w: World, payload: bytes)
    requires Inv(w) && w.x.sent != [] && |payload| <= MAX_PAYLOAD
    ensures var u := Next(AfterSendReset(w), AtX(SendData(payload, FLAG_RELIABLE, 0)));
            u.x.sent == w.x.sent + [payload] && Capped(u, |w.x.sent|)
  {
    ResetThenSend(w, payload);
    InvCaps(w);
    hide Next, AfterSendReset, Inv;
  }

  lemma InvCaps(w: World)
    requires Inv(w)
    ensures var n := |w.x.sent|;
            && n <= LIMIT && w.y.ep.nextExpect <= n && |Got(w.y)| == w.y.ep.nextExpect
            && (forall k | k in w.y.ep.recvBuf :: k < n)
            && (forall d | d in w.toY && NeedsReply(d) :: d.seqno < n)
  {
    hide Sound, Received, Windowed;
  }

  // ---- ResetReliableSession in that place instead ----

  function AfterFullReset(w: World): World {
    w.(x := w.x.(ep := ResetSession(w.x.ep)))
  }

  lemma FullResetReceiver(w: World)
    requires Inv(w)
    ensures var u := AfterFullReset(w);
            Direction(u.y, u.x, u.toX, u.toY) <==>
              && w.x.ep.nextExpect == 0
              && (forall k: uint32 | k < |w.y.sent| :: k in w.y.ep.inflight)
              && (forall d, k: uint32 | d in w.toY :: !Acks(d, k))
  {
    hide C.Sane, Acks, Carries;
    var u := AfterFullReset(w);
    if Direction(u.y, u.x, u.toX, u.toY) {
      forall d, k: uint32 | d in w.toY ensures !Acks(d, k) {
        assert Sound(u.x.ep, d);
      }
    }
  }

  /** Exactly where a full reset keeps the FIFO invariant: nothing accepted or delivered by
      the Agent, everything the client sent still in flight there, and no datagram under way
      that acknowledges any of it. */
  lemma FullResetKeepsInv(w: World)
    requires Inv(w)
    ensures Inv(AfterFullReset(w)) <==>
            && w.x.sent == [] && w.x.ep.nextExpect == 0
            && (forall k: uint32 | k < |w.y.sent| :: k in w.y.ep.inflight)
            && (forall d, k: uint32 | d in w.toY :: !Acks(d, k))
  {
    ResetSender(w, AfterFullReset(w).x.ep);
    FullResetReceiver(w);
    hide Direction, Acks, C.Sane;
  }

  /** y's sequence number k is neither held by y nor on the wire. */
  predicate Gone(w: World, k: uint32) {
    k !in w.y.ep.inflight && forall d | d in w.toX && NeedsReply(d) :: d.seqno != k
  }

  /** s has delivered and buffered parts of log only, and delivered it from the start. */
  ghost predicate Follows(s: State, log: seq<bytes>) {
    && s.nextExpect <= |log| && Reliables(s.incoming) == log[..s.nextExpect]
    && (forall k | k in s.recvBuf :: s.nextExpect < k < |log| && s.recvBuf[k] == log[k])
  }

  /** x delivers y's stream from the first payload on, whatever y believes x to have received. */
  ghost predicate Replaying(w: World) {
    && |w.y.sent| <= LIMIT && w.y.ep.nextSeq == |w.y.sent|
    && Follows(w.x.ep, w.y.sent)
    && (forall k | k in w.y.ep.inflight :: Carries(w.y.ep.inflight[k].packet, k, w.y.sent))
    && (forall d | d in w.toX && NeedsReply(d) :: Carries(d, d.seqno, w.y.sent))
  }

  /** x has not received y's sequence number k and no copy of it is left. */
  ghost predicate Stuck(w: World, k: uint32) {
    && k < |w.y.sent| && Gone(w, k)
    && w.x.ep.nextExpect <= k && k !in w.x.ep.recvBuf
  }

  lemma {:induction false} DrainStopsAt(s: State, k: uint32)
    requires s.nextExpect <= k && k !in s.recvBuf
    ensures Drain(s).nextExpect <= k && k !in Drain(s).recvBuf
    decreases |s.recvBuf|
  {
    var e := s.nextExpect;
    if e in s.recvBuf {
      var rest := s.recvBuf - {e};
      assert rest.Keys == s.recvBuf.Keys - {e};
      assert |rest.Keys| < |s.recvBuf.Keys|;
      DrainStopsAt(s.(recvBuf := rest, incoming := s.incoming + [Delivery(true, s.recvBuf[e])], nextExpect := Inc32(e)), k);
    }
  }

  lemma DataStopsAt(s: State, flags: byte, seqno: uint32, payload: bytes, room: bool, k: uint32)
    requires s.nextExpect <= k && k !in s.recvBuf && (IsReliable(flags) ==> seqno != k)
    ensures var t := HandleData(s, flags, seqno, payload, room); t.nextExpect <= k && k !in t.recvBuf
  {
    if IsReliable(flags) {
      DrainStopsAt(s.(recvBuf := s.recvBuf[seqno := payload]), k);
    }
  }

  lemma HearingStaysStuck(w: World, e: Event, k: uint32)
    requires Stuck(w, k) && e.Arrive? && Enabled(w, AtX(e))
    ensures Stuck(Next(w, AtX(e)), k)
  {
    if e.d.Data? {
      var s := HandleAck(w.x.ep, e.d.ack, 0, e.rtt);
      hide HandleAck, HandleData, IsMask;
      AckLeavesReceived(w.x.ep, e.d.ack, 0, e.rtt);
      DataStopsAt(s, e.d.flags, e.d.seqno, e.d.payload, e.room, k);
    }
  }

  lemma HearingFollows(s: State, log: seq<bytes>, d: Datagram, rtt: nat, room: bool)
    requires |log| <= LIMIT && Follows(s, log)
    requires NeedsReply(d) ==> Carries(d, d.seqno, log)
    ensures Follows(AfterArrival(s, d, rtt, room), log)
  {
    match d
    case Ack(cum, sack) => AckLeavesReceived(s, cum, sack, rtt);
    case Data(flags, seqno, ack, payload) =>
      AckLeavesReceived(s, ack, 0, rtt);
      var t := HandleAck(s, ack, 0, rtt);
      hide HandleAck;
      DataExtends(t, log, flags, seqno, payload, room);
  }

  lemma ReplayHearing(w: World, e: Event)
    requires Replaying(w) && e.Arrive? && Enabled(w, AtX(e))
    ensures Replaying(Next(w, AtX(e)))
    ensures forall k: uint32 | Stuck(w, k) :: Stuck(Next(w, AtX(e)), k)
  {
    forall k: uint32 | Stuck(w, k) ensures Stuck(Next(w, AtX(e)), k) {
      HearingStaysStuck(w, e, k);
    }
    hide Stuck, AfterArrival, Follows, IsMask;
    HearingFollows(w.x.ep, w.y.sent, e.d, e.rtt, e.room);
  }

  lemma ReplaySending(w: World, e: Event)
    requires Replaying(w) && e.SendData? && |After(w.y, e).sent| <= LIMIT
    ensures Replaying(Next(w, AtY(e)))
    ensures forall k: uint32 | Stuck(w, k) :: Stuck(Next(w, AtY(e)), k)
  {
    var v := Next(w, AtY(e));
    if v.y.sent != w.y.sent {
      assert v.y.sent[..w.x.ep.nextExpect] == w.y.sent[..w.x.ep.nextExpect];
      assert forall d, k: uint32 | Carries(d, k, w.y.sent) :: Carries(d, k, v.y.sent);
    }
  }

  /** y dropping acknowledged packets and sending copies of those in flight. */
  lemma ReplayFrame(w: World, v: World)
    requires Replaying(w)
    requires v.x == w.x && v.y.sent == w.y.sent && v.y.ep.nextSeq == w.y.ep.nextSeq
    requires forall k | k in v.y.ep.inflight ::
               k in w.y.ep.inflight && v.y.ep.inflight[k].packet == w.y.ep.inflight[k].packet
    requires forall d | d in v.toX && NeedsReply(d) ::
               d in w.toX || (d.seqno in w.y.ep.inflight && d == w.y.ep.inflight[d.seqno].packet)
    ensures Replaying(v)
    ensures forall k: uint32 | Stuck(w, k) :: Stuck(v, k)
  {
  }

  lemma AnswersOfY(w: World, e: Event)
    requires Replaying(w) && Enabled(w, AtY(e)) && !e.SendData?
    ensures forall d | d in Emitted(w.y, e) && NeedsReply(d) ::
              d.seqno in w.y.ep.inflight && d == w.y.ep.inflight[d.seqno].packet
    ensures After(w.y, e).sent == w.y.sent && After(w.y, e).ep.nextSeq == w.y.ep.nextSeq
    ensures forall k | k in After(w.y, e).ep.inflight ::
              k in w.y.ep.inflight && After(w.y, e).ep.inflight[k].packet == w.y.ep.inflight[k].packet
  {
    match e
    case Arrive(d, rtt, room, _) =>
      if d.Data? {
        DataKeepsSending(HandleAck(w.y.ep, d.ack, 0, rtt), d.flags, d.seqno, d.payload, room);
      }
    case Expire(due) =>
      forall d | d in Resent(w.y.ep, due)
        ensures d.seqno in w.y.ep.inflight && d == w.y.ep.inflight[d.seqno].packet
      {
        var k :| k in w.y.ep.inflight && d == w.y.ep.inflight[k].packet;
        assert Carries(d, k, w.y.sent);
      }
    case Boost =>
  }

  lemma ReplayAtY(w: World, e: Event)
    requires Replaying(w) && Enabled(w, AtY(e)) && |After(w.y, e).sent| <= LIMIT
    ensures Replaying(Next(w, AtY(e)))
    ensures forall k: uint32 | Stuck(w, k) :: Stuck(Next(w, AtY(e)), k)
  {
    if e.SendData? {
      ReplaySending(w, e);
    } else {
      hide Replaying, Stuck, After, Emitted;
      AnswersOfY(w, e);
      ReplayFrame(w, Next(w, AtY(e)));
    }
  }

  lemma ReplayStep(w: World, step: Step)
    requires Replaying(w) && Enabled(w, step) && |Next(w, step).y.sent| <= LIMIT
    ensures Replaying(Next(w, step))
    ensures forall k: uint32 | Stuck(w, k) :: Stuck(Next(w, step), k)
  {
    match step
    case AtX(e) =>
      if e.Arrive? {
        ReplayHearing(w, e);
      }
    case AtY(e) => ReplayAtY(w, e);
    case _ =>
  }

  lemma {:induction false} ReplayRun(w: World, steps: seq<Step>)
    requires Replaying(w) && CanRun(w, steps) && |Run(w, steps).y.sent| <= LIMIT
    ensures Replaying(Run(w, steps))
    ensures forall k: uint32 | Stuck(w, k) :: Stuck(Run(w, steps), k)
    decreases |steps|
  {
    hide Replaying, Stuck, Enabled, Next;
    if steps != [] {
      RunSentGrows(Next(w, steps[0]), steps[1..]);
      ReplayStep(w, steps[0]);
      ReplayRun(Next(w, steps[0]), steps[1..]);
    }
  }

  /** The state after a full reset with the queued deliveries set aside. */
  function Emptied(w: World): World {
    var u := AfterFullReset(w);
    u.(x := u.x.(ep := u.x.ep.(incoming := [])))
  }

  lemma EmptiedReplays(w: World)
    requires Inv(w)
    ensures Replaying(Emptied(w)) && Behind(w.x.ep.incoming, Emptied(w)) == AfterFullReset(w)
    ensures forall k: uint32 | k < |w.y.sent| && Gone(w, k) :: Stuck(Emptied(w), k)
    ensures w.x.ep.nextExpect <= |w.y.sent| && Got(w.x) == w.y.sent[..w.x.ep.nextExpect]
  {
    assert w.x.ep.incoming + [] == w.x.ep.incoming;
  }

  lemma {:induction false} ReliablesJoin(q: seq<Delivery>, ds: seq<Delivery>)
    ensures Reliables(q + ds) == Reliables(q) + Reliables(ds)
    decreases |ds|
  {
    if ds == [] {
      assert q + ds == q;
    } else {
      var front, last := ds[..|ds| - 1], ds[|ds| - 1];
      assert ds == front + [last];
      Assoc(q, front, [last]);
      ReliablesJoin(q, front);
      ReliablesAppend(q + front, last);
      ReliablesAppend(front, last);
      Assoc(Reliables(q), Reliables(front), if last.reliable then [last.body] else []);
    }
  }

  /** After a full reset the Agent delivers the client's stream from its first payload again,
      behind what it had delivered before; and it waits forever for a packet that is gone:
      in no continuation does it get past one. */
  lemma FullResetWaitsForever(history: seq<Step>, steps: seq<Step>)
    requires CanRun(Start(), history)
    requires var w := Run(Start(), history);
             && WithinLimit(w) && CanRun(AfterFullReset(w), steps)
             && |Run(AfterFullReset(w), steps).y.sent| <= LIMIT
    ensures var w := Run(Start(), history);
            var v := Run(AfterFullReset(w), steps);
            && w.x.ep.nextExpect <= |w.y.sent| && Got(w.x) == w.y.sent[..w.x.ep.nextExpect]
            && v.x.ep.nextExpect <= |v.y.sent| && Got(v.x) == Got(w.x) + v.y.sent[..v.x.ep.nextExpect]
            && forall k: uint32 | k < |w.y.sent| && Gone(w, k) :: v.x.ep.nextExpect <= k
  {
    hide Run, CanRun, Inv, Gone;
    StartInv();
    RunKeepsInv(Start(), history);
    var w := Run(Start(), history);
    EmptiedReplays(w);
    RunBehind(w.x.ep.incoming, Emptied(w), steps);
    ReplayRun(Emptied(w), steps);
    ReliablesJoin(w.x.ep.incoming, Run(Emptied(w), steps).x.ep.incoming);
  }

  /** One packet arriving at an empty buffer is delivered at once. */
  lemma DeliverNext(s: State, d: Datagram)
    requires s.recvBuf == map[] && NeedsReply(d) && d.seqno == s.nextExpect
    ensures var t := AfterArrival(s, d, 0, true);
            && t.nextExpect == Inc32(s.nextExpect) && t.recvBuf == map[]
            && |Reliables(t.incoming)| == |Reliables(s.incoming)| + 1
  {
    var u := HandleAck(s, d.ack, 0, 0);
    var filled := u.(recvBuf := u.recvBuf[d.seqno := d.payload]);
    var last := Delivery(true, d.payload);
    ReliablesAppend(s.incoming, last);
    var t := filled.(recvBuf := filled.recvBuf - {d.seqno}, incoming := s.incoming + [last],
                     nextExpect := Inc32(s.nextExpect));
    assert t.recvBuf == map[];
    assert Drain(t) == t;
  }

  lemma NextArrives(w: World, d: Datagram) returns (step: Step)
    requires Replaying(w) && w.x.ep.recvBuf == map[]
    requires d in w.toX && NeedsReply(d) && d.seqno == w.x.ep.nextExpect
    ensures Enabled(w, step)
    ensures var v := Next(w, step);
            && Replaying(v) && v.y == w.y && v.toX == w.toX
            && v.x.ep.recvBuf == map[] && v.x.ep.nextExpect == w.x.ep.nextExpect + 1
  {
    var s := AfterArrival(w.x.ep, d, 0, true);
    AckForIsAck(s);
    step := AtX(Arrive(d, 0, true, AckFor(s)));
    assert Carries(d, d.seqno, w.y.sent);
    ReplayHearing(w, step.e);
    DeliverNext(w.x.ep, d);
  }

  lemma NextIsResent(w: World, k: uint32)
    requires Replaying(w) && k in w.y.ep.inflight
    ensures var v := Next(w, AtY(Expire({k})));
            var d := w.y.ep.inflight[k].packet;
            && Enabled(w, AtY(Expire({k}))) && Replaying(v) && v.x == w.x && v.y.sent == w.y.sent
            && v.y.ep.inflight.Keys == w.y.ep.inflight.Keys && w.toX <= v.toX
            && d in v.toX && NeedsReply(d) && d.seqno == k
  {
    assert Carries(w.y.ep.inflight[k].packet, k, w.y.sent);
    assert w.y.ep.inflight[k].packet in Resent(w.y.ep, {k});
    ReplayAtY(w, Expire({k}));
  }

  lemma ReplayNext(w: World) returns (steps: seq<Step>)
    requires Replaying(w) && w.x.ep.recvBuf == map[]
    requires w.x.ep.nextExpect < |w.y.sent| && !Gone(w, w.x.ep.nextExpect)
    ensures |steps| <= 2 && CanRun(w, steps)
    ensures var v := Run(w, steps);
            && Replaying(v) && v.y.sent == w.y.sent && v.y.ep.inflight.Keys == w.y.ep.inflight.Keys
            && w.toX <= v.toX && v.x.ep.recvBuf == map[] && v.x.ep.nextExpect == w.x.ep.nextExpect + 1
  {
    hide Run, CanRun, Next, Replaying, Enabled;
    var k := w.x.ep.nextExpect;
    if k in w.y.ep.inflight {
      var resend := AtY(Expire({k}));
      NextIsResent(w, k);
      var step := NextArrives(Next(w, resend), w.y.ep.inflight[k].packet);
      RunOne(w, resend);
      RunOne(Next(w, resend), step);
      RunsCompose(w, [resend], [step]);
      steps := [resend] + [step];
    } else {
      var d :| d in w.toX && NeedsReply(d) && d.seqno == k;
      var step := NextArrives(w, d);
      RunOne(w, step);
      steps := [step];
    }
  }

  lemma {:induction false} ReplayUpTo(w: World, n: nat) returns (steps: seq<Step>)
    requires Replaying(w) && w.x.ep.recvBuf == map[]
    requires w.x.ep.nextExpect <= n <= |w.y.sent| && forall k: uint32 | k < n :: !Gone(w, k)
    ensures |steps| <= 2 * (n - w.x.ep.nextExpect) && CanRun(w, steps)
    ensures var v := Run(w, steps);
            Replaying(v) && v.y.sent == w.y.sent && v.x.ep.nextExpect == n
    decreases n - w.x.ep.nextExpect
  {
    if n == w.x.ep.nextExpect {
      steps := [];
    } else {
      var first := ReplayNext(w);
      hide Run, CanRun, Replaying;
      var v := Run(w, first);
      forall k: uint32 | k < n ensures !Gone(v, k) {
        assert !Gone(w, k);
      }
      hide Gone;
      var rest := ReplayUpTo(v, n);
      RunsCompose(w, first, rest);
      steps := first + rest;
    }
  }

  /** And only for such a packet: while none below n is gone, some continuation without a new
      send takes the Agent to n, and what it delivers is the stream's first n payloads,
      also those it had delivered before the reset. */
  lemma FullResetRecovers(history: seq<Step>, n: nat) returns (steps: seq<Step>)
    requires CanRun(Start(), history)
    requires var w := Run(Start(), history);
             WithinLimit(w) && n <= |w.y.sent| && forall k: uint32 | k < n :: !Gone(w, k)
    ensures var w := Run(Start(), history);
            var v := Run(AfterFullReset(w), steps);
            && |steps| <= 2 * n && CanRun(AfterFullReset(w), steps)
            && v.y.sent == w.y.sent && v.x.ep.nextExpect == n
            && Got(v.x) == Got(w.x) + w.y.sent[..n]
  {
    hide Run, CanRun, Inv, Gone, Replaying;
    StartInv();
    RunKeepsInv(Start(), history);
    var w := Run(Start(), history);
    EmptiedReplays(w);
    assert forall k: uint32 | k < n :: !Gone(Emptied(w), k) by {
      SameCopies(w);
    }
    steps := ReplayUpTo(Emptied(w), n);
    RunBehind(w.x.ep.incoming, Emptied(w), steps);
    FullResetWaitsForever(history, steps);
  }

  lemma SameCopies(w: World)
    ensures forall k: uint32 :: Gone(Emptied(w), k) <==> Gone(w, k)
  {
  }

  /** Some continuation of w takes x to n. */
  ghost predicate CanReach(w: World, n: nat) {
    exists steps :: CanRun(w, steps) && |Run(w, steps).y.sent| <= LIMIT && Run(w, steps).x.ep.nextExpect >= n
  }

  /** How far the Agent can get after a full reset: to n exactly when no packet below n is gone. */
  lemma FullResetReachesIff(history: seq<Step>, n: nat)
    requires CanRun(Start(), history)
    requires WithinLimit(Run(Start(), history)) && n <= |Run(Start(), history).y.sent|
    ensures var w := Run(Start(), history);
            CanReach(AfterFullReset(w), n) <==> forall k: uint32 | k < n :: !Gone(w, k)
  {
    hide Run, CanRun, Gone;
    var w := Run(Start(), history);
    var u := AfterFullReset(w);
    if CanReach(u, n) {
      var steps :| CanRun(u, steps) && |Run(u, steps).y.sent| <= LIMIT && Run(u, steps).x.ep.nextExpect >= n;
      FullResetWaitsForever(history, steps);
    }
    if forall k: uint32 | k < n :: !Gone(w, k) {
      var steps := FullResetRecovers(history, n);
      assert Run(u, steps).y.sent == w.y.sent;
    }
  }

  lemma {:induction false} LoseAllToX(w: World) returns (steps: seq<Step>)
    ensures CanRun(w, steps) && Run(w, steps) == w.(toX := {})
    decreases |w.toX|
  {
    if d :| d in w.toX {
      RunOne(w, LoseToX(d));
      var rest := LoseAllToX(w.(toX := w.toX - {d}));
      RunsCompose(w, [LoseToX(d)], rest);
      steps := [LoseToX(d)] + rest;
    } else {
      steps := [];
    }
  }

  /** Every run can go on to a state where every packet is gone: deliver and acknowledge
      everything, then lose the copies still on the wire. */
  lemma PacketsCanBeGone(history: seq<Step>) returns (steps: seq<Step>)
    requires CanRun(Start(), history) && WithinLimit(Run(Start(), history))
    ensures CanRun(Start(), history + steps)
    ensures var w, v := Run(Start(), history), Run(Start(), history + steps);
            v.x.sent == w.x.sent && v.y.sent == w.y.sent && forall k: uint32 :: Gone(v, k)
  {
    hide Run, CanRun;
    var finish := StreamCanFinish(history);
    RunsCompose(Start(), history, finish);
    var lose := LoseAllToX(Run(Start(), history + finish));
    RunsCompose(Start(), history + finish, lose);
    Assoc(history, finish, lose);
    steps := finish + lose;
  }

  /** For one: the client's OPEN sent, delivered and acknowledged before the reset. */
  lemma OpenCanBeGone(payload: bytes) returns (history: seq<Step>)
    requires |payload| <= MAX_PAYLOAD
    ensures CanRun(Start(), history)
    ensures var w := Run(Start(), history); WithinLimit(w) && w.y.sent == [payload] && Gone(w, 0)
  {
    var send := AtY(SendData(payload, FLAG_RELIABLE, 0));
    RunOne(Start(), send);
    assert Run(Start(), [send]).y.sent == [payload] && Run(Start(), [send]).x.sent == [];
    hide Run, CanRun;
    var rest := PacketsCanBeGone([send]);
    history := [send] + rest;
  }

  // ---- the 32-bit limit is exact ----

  /** n rounds of send, deliver, acknowledge have gone by and the network kept a copy of the
      first packet. */
  ghost predicate Rounds(w: World, n: nat, payload: bytes) {
    && |w.x.sent| == n && |Got(w.y)| == n
    && w.x.ep.nextSeq == n % TWO32 && w.y.ep.nextExpect == n % TWO32
    && w.x.ep.inflight == map[] && w.y.ep.recvBuf == map[]
    && w.x.ep.nextExpect == 0
    && C.Sane(w.x.ep.window) && w.x.ep.window.inFlight == 0
    && (n >= 1 ==> Data(FLAG_RELIABLE, 0, MAX_UINT32, payload) in w.toY)
  }

  function SendTime(w: World): nat {
    match w.x.ep.window.lastSend
    case None => 0
    case Some(t) => t + C.MAX_PACE
  }

  lemma RoundSend(w: World, n: nat, payload: bytes)
    requires Rounds(w, n, payload) && |payload| <= MAX_PAYLOAD
    ensures var d := Data(FLAG_RELIABLE, n % TWO32, MAX_UINT32, payload);
            var v := Next(w, AtX(SendData(payload, FLAG_RELIABLE, SendTime(w))));
            && v.x.sent == w.x.sent + [payload] && v.y == w.y && d in v.toY && w.toY <= v.toY
            && v.x.ep == w.x.ep.(nextSeq := (n + 1) % TWO32, inflight := map[n % TWO32 := Inflight(d, 0)],
                                 window := C.OnSend(w.x.ep.window, SendTime(w)))
  {
    C.PacingEnds(w.x.ep.window, SendTime(w));
  }

  lemma RoundDeliver(w: World, n: nat, d: Datagram)
    requires d in w.toY && NeedsReply(d)
    requires w.y.ep.recvBuf == map[] && |Got(w.y)| == n && w.y.ep.nextExpect == d.seqno
    ensures var step := Hear(w, d);
            var v := Next(w, step);
            && Enabled(w, step) && v.x == w.x && v.toY == w.toY
            && v.y.ep.nextExpect == Inc32(d.seqno) && v.y.ep.recvBuf == map[] && |Got(v.y)| == n + 1
            && AckFor(v.y.ep) in v.toX
  {
    DeliverNext(w.y.ep, d);
    AckForIsAck(AfterArrival(w.y.ep, d, 0, true));
  }

  lemma AckCovers(s: State, n: nat)
    requires n + 1 < TWO32 && s.nextExpect == n + 1
    ensures AckFor(s).cum == n && AckedBy(AckFor(s).cum, AckFor(s).sack, n)
  {
  }

  lemma RoundAck(w: World, n: nat)
    requires n + 1 < TWO32
    requires w.x.ep.inflight.Keys == {n} && w.y.ep.nextExpect == n + 1 && AckFor(w.y.ep) in w.toX
    requires C.Sane(w.x.ep.window) && w.x.ep.window.inFlight == 1
    ensures var step := AtX(Arrive(AckFor(w.y.ep), 0, true, AckFor(w.y.ep)));
            var v := Next(w, step);
            && Enabled(w, step) && v.y == w.y && v.x.sent == w.x.sent && v.toY == w.toY
            && v.x.ep == w.x.ep.(inflight := map[], window := v.x.ep.window)
            && C.Sane(v.x.ep.window) && v.x.ep.window.inFlight == 0
  {
    var d := AckFor(w.y.ep);
    assert d.Ack?;
    hide AckFor, HandleAck, HandleData, AckedBy, C.Sane, IsMask;
    AckCovers(w.y.ep, n);
    OneIsAcked(w.x.ep, d.cum, d.sack, n);
  }

  lemma OneIsAcked(s: State, cum: uint32, sack: bv64, n: uint32)
    requires s.inflight.Keys == {n} && AckedBy(cum, sack, n)
    requires C.Sane(s.window) && s.window.inFlight == 1
    ensures var t := HandleAck(s, cum, sack, 0);
            t == s.(inflight := map[], window := t.window) && C.Sane(t.window) && t.window.inFlight == 0
  {
    hide AckedBy;
    assert Unacked(s.inflight, cum, sack) == map[];
    assert s.inflight.Keys - {} == {n};
    C.EventKeepsWindow(s.window, C.Acked(1, 0));
    C.AckGrows(s.window, 1, 0);
    hide C.OnAck, C.Sane;
  }

  lemma Round(w: World, n: nat, payload: bytes) returns (steps: seq<Step>)
    requires Rounds(w, n, payload) && n < LIMIT && |payload| <= MAX_PAYLOAD
    ensures CanRun(w, steps) && Rounds(Run(w, steps), n + 1, payload)
  {
    hide Next, Run, CanRun, Enabled, AckFor, Reliables;
    RoundSend(w, n, payload);
    C.SendKeepsWindow(w.x.ep.window, SendTime(w));
    var d := Data(FLAG_RELIABLE, n, MAX_UINT32, payload);
    var s1 := AtX(SendData(payload, FLAG_RELIABLE, SendTime(w)));
    var w1 := Next(w, s1);
    RoundDeliver(w1, n, d);
    var s2 := Hear(w1, d);
    var w2 := Next(w1, s2);
    RoundAck(w2, n);
    var s3 := AtX(Arrive(AckFor(w2.y.ep), 0, true, AckFor(w2.y.ep)));
    RunOne(w, s1);
    RunOne(w1, s2);
    RunOne(Next(w1, s2), s3);
    RunsCompose(w, [s1], [s2]);
    RunsCompose(w, [s1] + [s2], [s3]);
    steps := [s1] + [s2] + [s3];
  }

  lemma {:induction false} ManyRounds(n: nat, payload: bytes) returns (steps: seq<Step>)
    requires n <= LIMIT && |payload| <= MAX_PAYLOAD
    ensures CanRun(Start(), steps) && Rounds(Run(Start(), steps), n, payload)
  {
    if n == 0 {
      steps := [];
    } else {
      var before := ManyRounds(n - 1, payload);
      var last := Round(Run(Start(), before), n - 1, payload);
      RunsCompose(Start(), before, last);
      steps := before + last;
    }
  }

  /** One reliable payload past LIMIT the guarantee is gone: nextExpect has wrapped to 0 and
      a late copy of the first packet is delivered a second time. */
  lemma BeyondLimitRepeats(payload: bytes) returns (steps: seq<Step>)
    requires |payload| <= MAX_PAYLOAD
    ensures CanRun(Start(), steps)
    ensures var w := Run(Start(), steps);
            |w.x.sent| == LIMIT + 1 && |Got(w.y)| == LIMIT + 2 && !(Got(w.y) <= w.x.sent)
  {
    hide Next, Run, CanRun, Enabled, AckFor, Reliables;
    var before := ManyRounds(LIMIT, payload);
    var w := Run(Start(), before);
    RoundSend(w, LIMIT, payload);
    var s1 := AtX(SendData(payload, FLAG_RELIABLE, SendTime(w)));
    var w1 := Next(w, s1);
    var d := Data(FLAG_RELIABLE, LIMIT, MAX_UINT32, payload);
    RoundDeliver(w1, LIMIT, d);
    var s2 := Hear(w1, d);
    var w2 := Next(w1, s2);
    var first := Data(FLAG_RELIABLE, 0, MAX_UINT32, payload);
    RoundDeliver(w2, LIMIT + 1, first);
    var s3 := Hear(w2, first);
    RunOne(w, s1);
    RunOne(w1, s2);
    RunOne(w2, s3);
    RunsCompose(w, [s1], [s2]);
    RunsCompose(w, [s1] + [s2], [s3]);
    RunsCompose(Start(), before, [s1] + [s2] + [s3]);
    steps := before + ([s1] + [s2] + [s3]);
  }
}
