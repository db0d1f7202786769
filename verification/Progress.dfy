/** From every reachable state the reliable stream can finish: a continuation without any
    loss and without any new send delivers everything and empties both inflight maps. */
module Progress {
  import opened Words
  import opened Reudp
  import opened Network
  import opened Stream

  // ---- runs compose ----

  lemma {:induction false} RunsCompose(w: World, a: seq<Step>, b: seq<Step>)
    requires CanRun(w, a) && CanRun(Run(w, a), b)
    ensures CanRun(w, a + b) && Run(w, a + b) == Run(Run(w, a), b)
    decreases |a|
  {
    hide Next, Enabled;
    if a == [] {
      assert [] + b == b;
    } else {
      assert (a + b)[1..] == a[1..] + b;
      RunsCompose(Next(w, a[0]), a[1..], b);
    }
  }

  lemma RunOne(w: World, step: Step)
    requires Enabled(w, step)
    ensures CanRun(w, [step]) && Run(w, [step]) == Next(w, step)
  {
    var rest := [step][1..];
    assert rest == [];
    assert CanRun(Next(w, step), rest) && Run(Next(w, step), rest) == Next(w, step);
  }

  /** Retransmissions and arrivals only. */
  predicate Quiet(steps: seq<Step>) {
    forall i | 0 <= i < |steps| ::
      (steps[i].AtX? || steps[i].AtY?) && (steps[i].e.Arrive? || steps[i].e.Expire?)
  }

  // ---- the mirror image ----

  function Mirror(w: World): World {
    World(w.y, w.x, w.toY, w.toX)
  }

  function MirrorStep(step: Step): Step {
    match step
    case AtX(e) => AtY(e)
    case AtY(e) => AtX(e)
    case LoseToX(d) => LoseToY(d)
    case LoseToY(d) => LoseToX(d)
  }

  function MirrorSteps(steps: seq<Step>): (r: seq<Step>)
    ensures |r| == |steps|
  {
    seq(|steps|, i requires 0 <= i < |steps| => MirrorStep(steps[i]))
  }

  lemma {:induction false} MirrorRuns(w: World, steps: seq<Step>)
    requires CanRun(w, steps)
    ensures CanRun(Mirror(w), MirrorSteps(steps))
    ensures Run(Mirror(w), MirrorSteps(steps)) == Mirror(Run(w, steps))
    decreases |steps|
  {
    if steps != [] {
      assert Next(Mirror(w), MirrorStep(steps[0])) == Mirror(Next(w, steps[0]));
      MirrorRuns(Next(w, steps[0]), steps[1..]);
      assert MirrorSteps(steps)[1..] == MirrorSteps(steps[1..]);
    }
  }

  // ---- every state has an ACK ----

  function Mask(buffered: set<uint32>, base: uint32, n: nat): bv64
    requires n <= 64
  {
    if n == 0 then 0
    else if (base + n - 1) % TWO32 in buffered then SetBit(Mask(buffered, base, n - 1), n - 1)
    else Mask(buffered, base, n - 1)
  }

  lemma {:induction false} MaskBits(buffered: set<uint32>, base: uint32, n: nat, i: nat)
    requires n <= 64 && i < 64
    ensures Bit(Mask(buffered, base, n), i) <==> i < n && (base + i) % TWO32 in buffered
  {
    if n == 0 {
      NoBit(i);
    } else {
      MaskBits(buffered, base, n - 1, i);
      BitAfterSet(Mask(buffered, base, n - 1), n - 1, i);
    }
  }

  function AckFor(s: State): Datagram {
    Ack(Cumulative(s.nextExpect), Mask(s.recvBuf.Keys, s.nextExpect, 64))
  }

  lemma AckForIsAck(s: State)
    ensures IsAckOf(s, AckFor(s).cum, AckFor(s).sack)
  {
    forall i: nat | i < 64
      ensures Bit(AckFor(s).sack, i) <==> (s.nextExpect + i) % TWO32 in s.recvBuf.Keys
    {
      MaskBits(s.recvBuf.Keys, s.nextExpect, 64, i);
    }
  }

  // ---- quiet runs only make progress ----

  /** v is at least as far along as w, with the same payloads accepted. */
  predicate NoFurtherThan(w: World, v: World) {
    && v.x.sent == w.x.sent && v.y.sent == w.y.sent
    && w.x.ep.nextExpect <= v.x.ep.nextExpect && w.y.ep.nextExpect <= v.y.ep.nextExpect
    && v.x.ep.inflight.Keys <= w.x.ep.inflight.Keys && v.y.ep.inflight.Keys <= w.y.ep.inflight.Keys
  }

  lemma QuietNode(s: Node, r: Node, chan: set<Datagram>, back: set<Datagram>, e: Event)
    requires Direction(s, r, chan, back) && Possible(r, e, chan)
    requires e.Arrive? || e.Expire?
    ensures After(r, e).sent == r.sent
    ensures r.ep.nextExpect <= After(r, e).ep.nextExpect
    ensures After(r, e).ep.inflight.Keys <= r.ep.inflight.Keys
  {
    ReceiverAdvances(s, r, chan, back, e);
    if e.Arrive? && e.d.Data? {
      DataKeepsSending(HandleAck(r.ep, e.d.ack, 0, e.rtt), e.d.flags, e.d.seqno, e.d.payload, e.room);
    }
  }

  lemma QuietStep(w: World, step: Step)
    requires Inv(w) && Enabled(w, step) && Quiet([step])
    ensures Inv(Next(w, step)) && NoFurtherThan(w, Next(w, step))
  {
    assert Quiet([step]) && [step][0] == step;
    match step {
      case AtX(e) => QuietNode(w.y, w.x, w.toX, w.toY, e);
      case AtY(e) => QuietNode(w.x, w.y, w.toY, w.toX, e);
    }
    StepKeepsInv(w, step);
  }

  lemma QuietSplits(steps: seq<Step>)
    requires Quiet(steps) && steps != []
    ensures Quiet([steps[0]]) && Quiet(steps[1..])
  {
    assert forall i | 0 <= i < |steps[1..]| :: steps[1..][i] == steps[i + 1];
  }

  lemma {:induction false} QuietRun(w: World, steps: seq<Step>)
    requires Inv(w) && CanRun(w, steps) && Quiet(steps)
    ensures Inv(Run(w, steps)) && NoFurtherThan(w, Run(w, steps))
    decreases |steps|
  {
    hide Inv, Next, Enabled, Quiet;
    if steps != [] {
      QuietSplits(steps);
      QuietStep(w, steps[0]);
      QuietRun(Next(w, steps[0]), steps[1..]);
    }
  }

  // ---- finishing the stream from x to y ----

  /** Retransmit packet k at x and let it arrive at y. */
  function PushSteps(w: World, k: uint32): seq<Step>
    requires k in w.x.ep.inflight
  {
    var d := w.x.ep.inflight[k].packet;
    var s := AfterArrival(w.y.ep, d, 0, true);
    [AtX(Expire({k})), AtY(Arrive(d, 0, true, AckFor(s)))]
  }

  lemma PushResends(w: World, k: uint32)
    requires Inv(w) && k in w.x.ep.inflight
    ensures var u := Next(w, AtX(Expire({k})));
            && Inv(u) && u.y == w.y
            && var d := w.x.ep.inflight[k].packet; d in u.toY && NeedsReply(d) && d.seqno == k
  {
    StepKeepsInv(w, AtX(Expire({k})));
    assert w.x.ep.inflight[k].packet in Resent(w.x.ep, {k});
  }

  function Hear(w: World, d: Datagram): Step {
    AtY(Arrive(d, 0, true, AckFor(AfterArrival(w.y.ep, d, 0, true))))
  }

  lemma PushArrives(u: World, d: Datagram)
    requires Inv(u) && d in u.toY && NeedsReply(d)
    ensures Enabled(u, Hear(u, d))
    ensures var v := Next(u, Hear(u, d));
            Received(v.y.ep, d.seqno) && AckFor(v.y.ep) in v.toX
  {
    AckForIsAck(AfterArrival(u.y.ep, d, 0, true));
    ReceiverHears(u.x, u.y, u.toY, u.toX, Hear(u, d).e);
  }

  lemma Push(w: World, k: uint32)
    requires Inv(w) && k in w.x.ep.inflight
    ensures var steps := PushSteps(w, k);
            var v := Run(w, steps);
            && CanRun(w, steps) && Quiet(steps) && |steps| == 2
            && Received(v.y.ep, k)
            && AckFor(v.y.ep) in v.toX
  {
    hide Run, CanRun, Next, Inv, AfterArrival, AckFor;
    var d := w.x.ep.inflight[k].packet;
    PushResends(w, k);
    var u := Next(w, AtX(Expire({k})));
    PushArrives(u, d);
    RunOne(w, AtX(Expire({k})));
    RunOne(u, Hear(u, d));
    RunsCompose(w, [AtX(Expire({k}))], [Hear(u, d)]);
    assert PushSteps(w, k) == [AtX(Expire({k}))] + [Hear(u, d)];
  }

  lemma WaitedForIsInFlight(w: World)
    requires Inv(w) && w.y.ep.nextExpect < |w.x.sent|
    ensures w.y.ep.nextExpect in w.x.ep.inflight
  {
    WaitedForIsHeld(w.x, w.y, w.toY, w.toX);
  }

  lemma ReceivedIsDelivered(w: World, k: uint32)
    requires Inv(w) && k <= w.y.ep.nextExpect && Received(w.y.ep, k)
    ensures k < w.y.ep.nextExpect
  {
  }

  /** Pushing the packet at y's nextExpect advances it; repeat until the stream is through. */
  lemma {:induction false} DeliverAll(w: World) returns (steps: seq<Step>)
    requires Inv(w)
    ensures CanRun(w, steps) && Quiet(steps)
    ensures Run(w, steps).y.ep.nextExpect == |w.x.sent|
    ensures |steps| <= 2 * (|w.x.sent| - w.y.ep.nextExpect)
    decreases |w.x.sent| - w.y.ep.nextExpect
  {
    InvBounds(w);
    var k := w.y.ep.nextExpect;
    if k == |w.x.sent| {
      steps := [];
    } else {
      hide Run, CanRun, Inv, PushSteps;
      WaitedForIsInFlight(w);
      Push(w, k);
      var first := PushSteps(w, k);
      QuietRun(w, first);
      var v := Run(w, first);
      ReceivedIsDelivered(v, k);
      InvBounds(v);
      var rest := DeliverAll(v);
      RunsCompose(w, first, rest);
      QuietJoin(first, rest);
      steps := first + rest;
    }
  }

  lemma QuietJoin(a: seq<Step>, b: seq<Step>)
    requires Quiet(a) && Quiet(b)
    ensures Quiet(a + b)
  {
  }

  lemma MirrorQuiet(steps: seq<Step>)
    requires Quiet(steps)
    ensures Quiet(MirrorSteps(steps))
  {
  }

  lemma InvBounds(w: World)
    requires Inv(w)
    ensures w.y.ep.nextExpect <= |w.x.sent| && w.x.ep.nextExpect <= |w.y.sent|
  {
  }

  lemma FullAckEmpties(v: World)
    requires Inv(v) && v.y.ep.nextExpect == |v.x.sent|
    requires AckFor(v.y.ep) in v.toX
    ensures var step := AtX(Arrive(AckFor(v.y.ep), 0, true, AckFor(v.y.ep)));
            Enabled(v, step) && Next(v, step).x.ep.inflight == map[]
  {
    var d := AckFor(v.y.ep);
    forall j | j in v.x.ep.inflight ensures AckedBy(d.cum, d.sack, j) {
      assert j < |v.x.sent|;
    }
  }

  lemma AckAfterPush(w: World, k: uint32) returns (steps: seq<Step>)
    requires Inv(w) && w.y.ep.nextExpect == |w.x.sent|
    requires k in w.x.ep.inflight
    ensures CanRun(w, steps) && Quiet(steps) && |steps| == 3
    ensures Run(w, steps).x.ep.inflight == map[]
  {
    hide Run, CanRun, Next, Inv, AckFor, PushSteps;
    Push(w, k);
    var first := PushSteps(w, k);
    QuietRun(w, first);
    var v := Run(w, first);
    InvBounds(v);
    FullAckEmpties(v);
    var last := AtX(Arrive(AckFor(v.y.ep), 0, true, AckFor(v.y.ep)));
    RunOne(v, last);
    RunsCompose(w, first, [last]);
    QuietJoin(first, [last]);
    steps := first + [last];
  }

  /** When everything has been delivered one ACK, provoked by any resent packet, empties
      the sender's inflight map. */
  lemma AckAll(w: World) returns (steps: seq<Step>)
    requires Inv(w) && w.y.ep.nextExpect == |w.x.sent|
    ensures CanRun(w, steps) && Quiet(steps) && |steps| <= 3
    ensures Run(w, steps).x.ep.inflight == map[]
  {
    if k :| k in w.x.ep.inflight {
      steps := AckAfterPush(w, k);
    } else {
      steps := [];
    }
  }

  lemma FinishOneWay(w: World) returns (steps: seq<Step>)
    requires Inv(w)
    ensures CanRun(w, steps) && Quiet(steps)
    ensures var v := Run(w, steps); v.y.ep.nextExpect == |w.x.sent| && v.x.ep.inflight == map[]
    ensures |steps| <= 2 * (|w.x.sent| - w.y.ep.nextExpect) + 3
  {
    hide Run, CanRun, Inv;
    var a := DeliverAll(w);
    QuietRun(w, a);
    var u := Run(w, a);
    var b := AckAll(u);
    QuietRun(u, b);
    InvBounds(Run(u, b));
    RunsCompose(w, a, b);
    QuietJoin(a, b);
    steps := a + b;
  }

  predicate Finished(w: World) {
    && w.y.ep.nextExpect == |w.x.sent| && w.x.ep.inflight == map[]
    && w.x.ep.nextExpect == |w.y.sent| && w.y.ep.inflight == map[]
  }

  lemma FinishBothWays(w: World) returns (steps: seq<Step>)
    requires Inv(w)
    ensures CanRun(w, steps) && Quiet(steps)
    ensures NoFurtherThan(w, Run(w, steps)) && Inv(Run(w, steps)) && Finished(Run(w, steps))
  {
    hide Run, CanRun, Next, Direction, MirrorSteps;
    var a := FinishOneWay(w);
    QuietRun(w, a);
    var u := Run(w, a);
    var b := FinishOneWay(Mirror(u));
    MirrorRuns(Mirror(u), b);
    assert Mirror(Mirror(u)) == u;
    MirrorQuiet(b);
    QuietRun(u, MirrorSteps(b));
    QuietJoin(a, MirrorSteps(b));
    RunsCompose(w, a, MirrorSteps(b));
    steps := a + MirrorSteps(b);
    QuietRun(w, steps);
    InvBounds(Run(w, steps));
  }

  lemma FinishedIsDelivered(w: World)
    requires Inv(w) && Finished(w)
    ensures Got(w.y) == w.x.sent && Got(w.x) == w.y.sent
  {
    assert w.x.sent[..|w.x.sent|] == w.x.sent;
    assert w.y.sent[..|w.y.sent|] == w.y.sent;
  }

  /** Progress: from every state a run can reach, some finite loss-free continuation, with
      no further sends, delivers every accepted payload and leaves nothing in flight. */
  lemma StreamCanFinish(history: seq<Step>) returns (steps: seq<Step>)
    requires CanRun(Start(), history) && WithinLimit(Run(Start(), history))
    ensures var w := Run(Start(), history);
            && CanRun(w, steps) && Quiet(steps)
            && var v := Run(w, steps);
            && v.x.sent == w.x.sent && v.y.sent == w.y.sent
            && Got(v.y) == w.x.sent && Got(v.x) == w.y.sent
            && v.x.ep.inflight == map[] && v.y.ep.inflight == map[]
  {
    hide Run, CanRun, Inv;
    StartInv();
    RunKeepsInv(Start(), history);
    var w := Run(Start(), history);
    steps := FinishBothWays(w);
    FinishedIsDelivered(Run(w, steps));
  }
}
