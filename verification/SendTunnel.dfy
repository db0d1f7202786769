/** The send path of the ordered channel as it runs on objects: sendTunnel and handleUDPPayload
    (cmd/agent/desktop.go), Session (internal/re2/noise.go), SendReliable
    (internal/reudp/endpoint.go). Between two polls the endpoint may be changed by what
    arrives and expires, and during sendTunnel's own poll by other callers' messages. */
module SendTunnel {
  import opened Words
  import opened BigEndian
  import FrameCodec
  import T = Tunnel
  import N = Network
  import R = Reudp
  import C = Congestion

  datatype Error = TooLarge | Congested | Closed | NonceSpent | BadCiphertext | NoSession

  /** What becomes of a payload: the video cipher, a message for handleRE2Inner, a new handshake,
      or an error. */
  datatype Dispatch = Media | Inner(plain: bytes) | Rehandshake | Failed

  predicate LooksLikeNoiseMsg1(payload: bytes) {
    32 <= |payload| <= 80
  }

  /** A Noise session after the handshake: one cipher counter a direction. */
  class Session {
    const sealer: T.Aead
    const opener: T.Aead
    var sent: nat
    var received: nat

    constructor (sealer: T.Aead, opener: T.Aead)
      ensures this.sealer == sealer && this.opener == opener && sent == 0 && received == 0
    {
      this.sealer, this.opener, sent, received := sealer, opener, 0, 0;
    }

    method Encrypt(plain: bytes) returns (r: Result<bytes, Error>)
      modifies this`sent
      ensures old(sent) < 0xFFFF_FFFF_FFFF_FFFF ==> r == Ok(sealer.seal(old(sent), plain)) && sent == old(sent) + 1
      ensures old(sent) >= 0xFFFF_FFFF_FFFF_FFFF ==> r == Err(NonceSpent) && sent == old(sent)
    {
      if sent >= T.MAX_NONCE {
        return Err(NonceSpent);
      }
      r := Ok(sealer.seal(sent, plain));
      sent := sent + 1;
    }

    /** The nonce advances only with a message that authenticates. */
    method Decrypt(cipher: bytes) returns (r: Result<bytes, Error>)
      modifies this`received
      ensures r.Ok? <==> old(received) < T.MAX_NONCE && opener.open(old(received), cipher).Some?
      ensures r.Ok? ==> opener.open(old(received), cipher) == Some(r.value) && received == old(received) + 1
      ensures r.Err? ==> received == old(received)
    {
      if received >= T.MAX_NONCE {
        return Err(NonceSpent);
      }
      match opener.open(received, cipher) {
        case None =>
          return Err(BadCiphertext);
        case Some(plain) =>
          received := received + 1;
          return Ok(plain);
      }
    }

    /** The dispatch of a payload once the session stands. before is the receive loop of the
        run model so far; with the nonce it moves one step. A payload that fails and has the
        size of a first handshake message makes the agent drop the session. */
    method OnPayload(payload: bytes, ghost before: T.Reader) returns (d: Dispatch, ghost after: T.Reader)
      requires received == before.nonce < T.MAX_NONCE
      modifies this`received
      ensures after == T.ReadOne(opener, before, payload) && received == after.nonce
      ensures d == Media <==> T.IsVideoPlane(payload)
      ensures d.Inner? ==> after.texts == before.texts + [d.plain]
      ensures !d.Inner? ==> after.texts == before.texts
      ensures d == Rehandshake || d == Failed <==> after.failures == before.failures + 1
      ensures d == Rehandshake ==> 32 <= |payload| <= 80
      ensures d == Failed ==> !(32 <= |payload| <= 80)
    {
      after := T.ReadOne(opener, before, payload);
      if T.IsVideoPlane(payload) {
        return Media, after;
      }
      var r := Decrypt(payload);
      if r.Ok? {
        return Inner(r.value), after;
      }
      return if LooksLikeNoiseMsg1(payload) then Rehandshake else Failed, after;
    }
  }

  // ---- what happens between two polls ----

  datatype Happening = Heard(d: R.Datagram, rtt: nat, room: bool) | Ticked(due: set<uint32>) | Boosted

  function Later(s: R.State, h: Happening): R.State {
    match h
    case Heard(d, rtt, room) => N.AfterArrival(s, d, rtt, room)
    case Ticked(due) => R.Tick(s, due)
    case Boosted => s.(window := C.BoostForLAN(s.window))
  }

  function LaterAll(s: R.State, hs: seq<Happening>): R.State
    decreases |hs|
  {
    if hs == [] then s else LaterAll(Later(s, hs[0]), hs[1..])
  }

  method Undergo(ep: R.Endpoint, h: Happening)
    requires ep.Valid()
    modifies ep`nextExpect, ep`inflight, ep`recvBuf, ep`incoming, ep.cong
    ensures ep.Valid() && ep.Value() == Later(old(ep.Value()), h)
  {
    match h
    case Heard(d, rtt, room) =>
      match d {
        case Ack(cum, sack) => ep.OnAck(cum, sack, rtt);
        case Data(flags, seqno, ack, payload) =>
          ep.OnAck(ack, 0, rtt);
          var _ := ep.OnData(flags, seqno, payload, room);
      }
    case Ticked(due) => var _ := ep.RetransmitTick(due);
    case Boosted =>
      C.EventKeepsWindow(ep.cong.Value(), C.Boosted);
      ep.cong.Boost();
  }

  method UndergoAll(ep: R.Endpoint, hs: seq<Happening>)
    requires ep.Valid()
    modifies ep`nextExpect, ep`inflight, ep`recvBuf, ep`incoming, ep.cong
    ensures ep.Valid() && ep.Value() == LaterAll(old(ep.Value()), hs)
  {
    hide Later;
    var i := 0;
    while i < |hs|
      invariant 0 <= i <= |hs|
      invariant ep.Valid() && LaterAll(ep.Value(), hs[i..]) == LaterAll(old(ep.Value()), hs)
    {
      assert hs[i..][1..] == hs[i + 1..];
      Undergo(ep, hs[i]);
      i := i + 1;
    }
  }

  /** t is s some happenings later: no sequence number is taken or given back, what is in
      flight was before, and a window that was open still is. */
  predicate OnlyLater(s: R.State, t: R.State) {
    && t.nextSeq == s.nextSeq
    && (forall k | k in t.inflight :: k in s.inflight && t.inflight[k].packet == s.inflight[k].packet)
    && (C.Sane(s.window) ==> C.Sane(t.window) && (C.Open(s.window) ==> C.Open(t.window)))
    && t.window.lastSend == s.window.lastSend
  }

  lemma AckOnlyLater(s: R.State, cum: uint32, sack: bv64, rtt: nat)
    ensures OnlyLater(s, R.HandleAck(s, cum, sack, rtt))
  {
    var n := |s.inflight.Keys - R.Unacked(s.inflight, cum, sack).Keys|;
    if C.Sane(s.window) {
      C.EventKeepsWindow(s.window, C.Acked(n, rtt));
    }
  }

  lemma LaterIsLater(s: R.State, h: Happening)
    ensures OnlyLater(s, Later(s, h))
  {
    match h
    case Heard(d, rtt, room) =>
      match d {
        case Ack(cum, sack) => AckOnlyLater(s, cum, sack, rtt);
        case Data(flags, seqno, ack, payload) =>
          AckOnlyLater(s, ack, 0, rtt);
          N.DataKeepsSending(R.HandleAck(s, ack, 0, rtt), flags, seqno, payload, room);
      }
    case Ticked(_) =>
      if C.Sane(s.window) {
        C.EventKeepsWindow(s.window, C.Lost);
      }
    case Boosted =>
      if C.Sane(s.window) {
        C.EventKeepsWindow(s.window, C.Boosted);
      }
  }

  lemma {:induction false} LaterAllIsLater(s: R.State, hs: seq<Happening>)
    ensures OnlyLater(s, LaterAll(s, hs))
    decreases |hs|
  {
    hide Later;
    if hs != [] {
      LaterIsLater(s, hs[0]);
      LaterAllIsLater(Later(s, hs[0]), hs[1..]);
    }
  }

  /** As an event of the run model. */
  function AsEvent(h: Happening): N.Event {
    match h
    case Heard(d, rtt, room) => N.Arrive(d, rtt, room, d)
    case Ticked(due) => N.Expire(due)
    case Boosted => N.Boost
  }

  /** What happens between two polls is what happens in a run, one event after the other. */
  lemma {:induction false} HappeningsAreEvents(s: R.State, hs: seq<Happening>, h: Happening)
    ensures LaterAll(s, hs + [h]) == N.After(N.Node(LaterAll(s, hs), []), AsEvent(h)).ep
    decreases |hs|
  {
    if hs == [] {
      assert [] + [h] == [h] && ([h])[1..] == [];
      assert LaterAll(s, [h]) == LaterAll(Later(s, h), []) == Later(s, h);
    } else {
      assert (hs + [h])[1..] == hs[1..] + [h];
      HappeningsAreEvents(Later(s, hs[0]), hs[1..], h);
    }
  }

  // ---- SendReliable's poll ----

  /** One iteration: the instant of the test and, should it fail, what happens during the
      sleep and whether the endpoint is closed after it. */
  datatype Poll = Poll(now: nat, slept: seq<Happening>, closed: bool)

  datatype Verdict = Clear(now: nat) | TimedOut | Shut

  /** The verdict and the state it is reached in. */
  function PollUntil(s: R.State, polls: seq<Poll>): (R.State, Verdict)
    decreases |polls|
  {
    if polls == [] then (s, TimedOut)
    else if C.CanSend(s.window, polls[0].now) then (s, Clear(polls[0].now))
    else
      var t := LaterAll(s, polls[0].slept);
      if polls[0].closed then (t, Shut) else PollUntil(t, polls[1..])
  }

  lemma {:induction false} PollUntilIsLater(s: R.State, polls: seq<Poll>)
    ensures var (t, v) := PollUntil(s, polls);
            && OnlyLater(s, t)
            && (v.Clear? ==> C.CanSend(t.window, v.now) && exists i | 0 <= i < |polls| :: polls[i].now == v.now)
            && (v == Shut ==> exists i | 0 <= i < |polls| :: polls[i].closed)
    decreases |polls|
  {
    if polls != [] && !C.CanSend(s.window, polls[0].now) {
      var t := LaterAll(s, polls[0].slept);
      LaterAllIsLater(s, polls[0].slept);
      hide LaterAll;
      if !polls[0].closed {
        PollUntilIsLater(t, polls[1..]);
        assert forall i | 0 <= i < |polls| - 1 :: polls[1..][i] == polls[i + 1];
      }
    }
  }

  /** The state at poll i if the polls before have found no window. */
  function StateAt(s: R.State, polls: seq<Poll>, i: nat): R.State
    requires i <= |polls|
  {
    if i == 0 then s else LaterAll(StateAt(s, polls, i - 1), polls[i - 1].slept)
  }

  lemma {:induction false} StateLater(s: R.State, polls: seq<Poll>, i: nat)
    requires 1 <= i <= |polls|
    ensures StateAt(s, polls, i) == StateAt(LaterAll(s, polls[0].slept), polls[1..], i - 1)
  {
    hide LaterAll;
    if i > 1 {
      StateLater(s, polls, i - 1);
    }
  }

  /** No poll before i finds the window, and none of them a closed endpoint. */
  predicate InVain(s: R.State, polls: seq<Poll>, i: nat)
    requires i <= |polls|
  {
    forall j | 0 <= j < i :: !C.CanSend(StateAt(s, polls, j).window, polls[j].now) && !polls[j].closed
  }

  /** What ends the poll, and in which state: the first instant that finds the window, the first
      sleep after which the endpoint is closed, or the last poll. */
  lemma {:induction false} PollEndsAt(s: R.State, polls: seq<Poll>) returns (i: nat)
    ensures i <= |polls| && InVain(s, polls, i)
    ensures var (t, v) := PollUntil(s, polls);
            match v
            case Clear(now) => i < |polls| && t == StateAt(s, polls, i) && now == polls[i].now && C.CanSend(t.window, now)
            case Shut =>
              && i < |polls| && t == StateAt(s, polls, i + 1) && polls[i].closed
              && !C.CanSend(StateAt(s, polls, i).window, polls[i].now)
            case TimedOut => i == |polls| && t == StateAt(s, polls, i)
    decreases |polls|
  {
    hide LaterAll, C.CanSend;
    i := 0;
    if polls != [] && !C.CanSend(s.window, polls[0].now) && !polls[0].closed {
      var t := LaterAll(s, polls[0].slept);
      i := PollEndsAt(t, polls[1..]);
      forall j | 1 <= j <= i + 1 && j <= |polls| ensures StateAt(s, polls, j) == StateAt(t, polls[1..], j - 1) {
        StateLater(s, polls, j);
      }
      if i + 1 < |polls| {
        StateLater(s, polls, i + 2);
      }
      i := i + 1;
    }
  }

  method SendReliable(ep: R.Endpoint, payload: bytes, polls: seq<Poll>) returns (r: Result<R.Datagram, Error>)
    requires ep.Valid()
    modifies ep, ep.cong
    ensures ep.Valid() && ep.cong == old(ep.cong)
    ensures |payload| > R.MAX_PAYLOAD ==> r == Err(TooLarge) && ep.Value() == old(ep.Value())
    ensures |payload| <= R.MAX_PAYLOAD ==>
              var (t, verdict) := PollUntil(old(ep.Value()), polls);
              match verdict
              case Clear(now) => r.Ok? && R.Send(t, payload, R.FLAG_RELIABLE, now) == (ep.Value(), Ok(r.value))
              case TimedOut => r == Err(Congested) && ep.Value() == t
              case Shut => r == Err(Closed) && ep.Value() == t
  {
    if |payload| > R.MAX_PAYLOAD {
      return Err(TooLarge);
    }
    hide LaterAll, C.CanSend;
    var i := 0;
    while i < |polls|
      invariant 0 <= i <= |polls|
      invariant ep.Valid() && ep.cong == old(ep.cong)
      invariant PollUntil(ep.Value(), polls[i..]) == PollUntil(old(ep.Value()), polls)
    {
      assert polls[i..][1..] == polls[i + 1..];
      var can := ep.cong.MaySend(polls[i].now);
      if can {
        var sent := ep.SendData(payload, R.FLAG_RELIABLE, polls[i].now);
        return Ok(sent.value);
      }
      UndergoAll(ep, polls[i].slept);
      if polls[i].closed {
        return Err(Closed);
      }
      i := i + 1;
    }
    return Err(Congested);
  }

  /** Instants of a poll that sleeps a millisecond or more after each. */
  predicate Ticking(polls: seq<Poll>) {
    forall i {:trigger polls[i]} | 0 < i < |polls| :: polls[i - 1].now + C.MILLISECOND <= polls[i].now
  }

  lemma {:induction false} TickingAdvances(polls: seq<Poll>, n: nat)
    requires Ticking(polls) && n < |polls|
    ensures polls[0].now + n * C.MILLISECOND <= polls[n].now
  {
    if n > 0 {
      TickingAdvances(polls, n - 1);
    }
  }

  /** Once poll n is MAX_PACE past the last send, an open window is found by then. */
  lemma {:induction false} FoundBy(s: R.State, polls: seq<Poll>, n: nat)
    requires C.Sane(s.window) && C.Open(s.window) && n < |polls|
    requires s.window.lastSend.Some? ==> s.window.lastSend.value + C.MAX_PACE <= polls[n].now
    ensures PollUntil(s, polls).1 != TimedOut
    decreases n
  {
    if n == 0 {
      C.PacingEnds(s.window, polls[0].now);
    } else {
      var t := LaterAll(s, polls[0].slept);
      LaterAllIsLater(s, polls[0].slept);
      hide LaterAll, C.CanSend, C.Sane, C.Open;
      FoundBy(t, polls[1..], n - 1);
    }
  }

  /** 500 polls a millisecond apart outlast any pacing gap: whatever arrives or expires
      meanwhile, an open window is found unless the endpoint is closed. */
  lemma OpenWindowIsFound(s: R.State, polls: seq<Poll>)
    requires C.Sane(s.window) && C.Open(s.window) && |polls| == 500 && Ticking(polls)
    requires s.window.lastSend.Some? ==> s.window.lastSend.value <= polls[0].now
    ensures PollUntil(s, polls).1 != TimedOut
  {
    TickingAdvances(polls, 20);
    FoundBy(s, polls, 20);
  }

  // ---- sendTunnel's poll ----

  /** The two counters a message moves: the next nonce and the endpoint. */
  datatype Line = Line(nonce: nat, ep: R.State)

  /** During sendTunnel's own poll the lock is free: another caller's whole message may go
      by, on the endpoint or through the relay. */
  datatype Between = Other(h: Happening) | Message(inner: bytes, now: nat) | Relayed(inner: bytes)

  function Passed(a: T.Aead, l: Line, b: Between): Line {
    match b
    case Other(h) => l.(ep := Later(l.ep, h))
    case Message(inner, now) =>
      if l.nonce < T.MAX_NONCE && |inner| + T.NOISE_TAG <= R.MAX_PAYLOAD && C.CanSend(l.ep.window, now) then
        Line(l.nonce + 1, R.Send(l.ep, a.seal(l.nonce, inner), R.FLAG_RELIABLE, now).0)
      else l
    case Relayed(_) => if l.nonce < T.MAX_NONCE then l.(nonce := l.nonce + 1) else l
  }

  function PassedAll(a: T.Aead, l: Line, bs: seq<Between>): Line
    decreases |bs|
  {
    if bs == [] then l else PassedAll(a, Passed(a, l, bs[0]), bs[1..])
  }

  datatype Path = Udp | Relay | NoPath

  /** One iteration of the poll and, should it fail, what passes while the lock is free and
      the path found after it; NoPath is a session that has been dropped. */
  datatype Turn = Turn(now: nat, passed: seq<Between>, path: Path)

  datatype Outcome = Found | Switched | Dropped | GaveUp

  function WaitFor(a: T.Aead, l: Line, turns: seq<Turn>): (Outcome, Line)
    decreases |turns|
  {
    if turns == [] then (GaveUp, l)
    else if C.CanSend(l.ep.window, turns[0].now) then (Found, l)
    else
      var m := PassedAll(a, l, turns[0].passed);
      match turns[0].path
      case NoPath => (Dropped, m)
      case Relay => (Switched, m)
      case Udp => WaitFor(a, m, turns[1..])
  }

  /** The line at turn i if the turns before have found no window. */
  function LineAt(a: T.Aead, l: Line, turns: seq<Turn>, i: nat): Line
    requires i <= |turns|
  {
    if i == 0 then l else PassedAll(a, LineAt(a, l, turns, i - 1), turns[i - 1].passed)
  }

  lemma {:induction false} LineLater(a: T.Aead, l: Line, turns: seq<Turn>, i: nat)
    requires 1 <= i <= |turns|
    ensures LineAt(a, l, turns, i) == LineAt(a, PassedAll(a, l, turns[0].passed), turns[1..], i - 1)
  {
    hide PassedAll;
    if i > 1 {
      LineLater(a, l, turns, i - 1);
    }
  }

  /** What ends the wait, and where: the first instant that finds the window, the first path other
      than REUDP found after a failed one, or the last turn. */
  lemma {:induction false} WaitEndsAt(a: T.Aead, l: Line, turns: seq<Turn>) returns (i: nat)
    ensures i <= |turns|
    ensures forall j | 0 <= j < i :: !C.CanSend(LineAt(a, l, turns, j).ep.window, turns[j].now) && turns[j].path == Udp
    ensures var (o, m) := WaitFor(a, l, turns);
            if o == GaveUp then i == |turns| && m == LineAt(a, l, turns, i)
            else
              && i < |turns|
              && (o == Found <==> C.CanSend(LineAt(a, l, turns, i).ep.window, turns[i].now))
              && (o == Found ==> m == LineAt(a, l, turns, i))
              && (o != Found ==> m == LineAt(a, l, turns, i + 1) && turns[i].path == if o == Switched then Relay else NoPath)
    decreases |turns|
  {
    hide PassedAll, C.CanSend;
    i := 0;
    if turns != [] && !C.CanSend(l.ep.window, turns[0].now) && turns[0].path == Udp {
      var m := PassedAll(a, l, turns[0].passed);
      i := WaitEndsAt(a, m, turns[1..]);
      forall j | 1 <= j <= i + 1 && j <= |turns| ensures LineAt(a, l, turns, j) == LineAt(a, m, turns[1..], j - 1) {
        LineLater(a, l, turns, j);
      }
      if i + 1 < |turns| {
        LineLater(a, l, turns, i + 2);
      }
      i := i + 1;
    }
  }

  method Pass(s: Session, ep: R.Endpoint, b: Between)
    requires ep.Valid() && T.Correct(s.sealer)
    modifies s`sent, ep, ep.cong
    ensures ep.Valid() && ep.cong == old(ep.cong)
    ensures Line(s.sent, ep.Value()) == Passed(s.sealer, Line(old(s.sent), old(ep.Value())), b)
  {
    hide Later;
    match b
    case Other(h) => Undergo(ep, h);
    case Message(inner, now) =>
      var can := ep.cong.MaySend(now);
      if can && |inner| + T.NOISE_TAG <= R.MAX_PAYLOAD {
        var ct := s.Encrypt(inner);
        if ct.Ok? {
          var _ := ep.SendData(ct.value, R.FLAG_RELIABLE, now);
        }
      }
    case Relayed(inner) => var _ := s.Encrypt(inner);
  }

  method PassAll(s: Session, ep: R.Endpoint, bs: seq<Between>)
    requires ep.Valid() && T.Correct(s.sealer)
    modifies s`sent, ep, ep.cong
    ensures ep.Valid() && ep.cong == old(ep.cong)
    ensures Line(s.sent, ep.Value()) == PassedAll(s.sealer, Line(old(s.sent), old(ep.Value())), bs)
  {
    hide Passed, T.Correct;
    ghost var before := Line(s.sent, ep.Value());
    var i := 0;
    while i < |bs|
      invariant 0 <= i <= |bs|
      invariant ep.Valid() && ep.cong == old(ep.cong)
      invariant PassedAll(s.sealer, Line(s.sent, ep.Value()), bs[i..]) == PassedAll(s.sealer, before, bs)
    {
      assert bs[i..][1..] == bs[i + 1..];
      Pass(s, ep, bs[i]);
      i := i + 1;
    }
  }

  method Await(s: Session, ep: R.Endpoint, turns: seq<Turn>) returns (o: Outcome)
    requires ep.Valid() && T.Correct(s.sealer)
    modifies s`sent, ep, ep.cong
    ensures ep.Valid() && ep.cong == old(ep.cong)
    ensures (o, Line(s.sent, ep.Value())) == WaitFor(s.sealer, Line(old(s.sent), old(ep.Value())), turns)
  {
    hide PassedAll, T.Correct, C.CanSend;
    ghost var before := Line(s.sent, ep.Value());
    var i := 0;
    while i < |turns|
      invariant 0 <= i <= |turns|
      invariant ep.Valid() && ep.cong == old(ep.cong)
      invariant WaitFor(s.sealer, Line(s.sent, ep.Value()), turns[i..]) == WaitFor(s.sealer, before, turns)
    {
      assert turns[i..][1..] == turns[i + 1..];
      var can := ep.cong.MaySend(turns[i].now);
      if can {
        return Found;
      }
      PassAll(s, ep, turns[i].passed);
      match turns[i].path {
        case NoPath => return Dropped;
        case Relay => return Switched;
        case Udp =>
      }
      i := i + 1;
    }
    return GaveUp;
  }

  /** Nothing has been sent after t. */
  predicate SentBy(w: C.Window, t: nat) {
    w.lastSend.Some? ==> w.lastSend.value <= t
  }

  predicate AllBefore(bs: seq<Between>, t: nat) {
    forall i | 0 <= i < |bs| :: bs[i].Message? ==> bs[i].now <= t
  }

  lemma {:induction false} PassedKeepsWindow(a: T.Aead, l: Line, bs: seq<Between>, t: nat)
    requires C.Sane(l.ep.window) && SentBy(l.ep.window, t) && AllBefore(bs, t)
    ensures var m := PassedAll(a, l, bs); C.Sane(m.ep.window) && SentBy(m.ep.window, t) && l.nonce <= m.nonce
    decreases |bs|
  {
    if bs != [] {
      match bs[0] {
        case Other(h) => LaterIsLater(l.ep, h);
        case Message(_, now) =>
          if C.CanSend(l.ep.window, now) {
            C.SendKeepsWindow(l.ep.window, now);
          }
        case Relayed(_) =>
      }
      var m := Passed(a, l, bs[0]);
      hide Passed;
      PassedKeepsWindow(a, m, bs[1..], t);
    }
  }

  lemma PassedInStep(a: T.Aead, l: Line, b: Between)
    requires T.Correct(a)
    ensures var m := Passed(a, l, b);
            && (b.Other? ==> m == l.(ep := Later(l.ep, b.h)) && m.ep.nextSeq == l.ep.nextSeq)
            && (b.Relayed? ==> m.nonce == (if l.nonce < T.MAX_NONCE then l.nonce + 1 else l.nonce) && m.ep == l.ep)
            && (b.Message? && m != l ==>
                  && m.nonce == l.nonce + 1 && m.ep.nextSeq == Inc32(l.ep.nextSeq)
                  && l.ep.nextSeq in m.ep.inflight && m.ep.inflight[l.ep.nextSeq].packet.Data?
                  && m.ep.inflight[l.ep.nextSeq].packet.payload == a.seal(l.nonce, b.inner))
            && (b.Message? ==> (m == l <==> l.nonce >= T.MAX_NONCE || |b.inner| + 16 > 1200 || !C.CanSend(l.ep.window, b.now)))
  {
    if b.Other? {
      LaterIsLater(l.ep, b.h);
    }
    hide Later, C.CanSend;
  }

  lemma {:induction false} PassedOneByOne(a: T.Aead, l: Line, bs: seq<Between>, b: Between)
    ensures PassedAll(a, l, bs + [b]) == Passed(a, PassedAll(a, l, bs), b)
    decreases |bs|
  {
    hide Passed;
    if bs == [] {
      assert [] + [b] == [b] && ([b])[1..] == [];
      assert PassedAll(a, l, [b]) == PassedAll(a, Passed(a, l, b), []);
    } else {
      assert (bs + [b])[1..] == bs[1..] + [b];
      PassedOneByOne(a, Passed(a, l, bs[0]), bs[1..], b);
    }
  }

  /** y is n numbers after x. */
  predicate Ahead(x: uint32, y: uint32, n: nat) {
    y == (x + n) % TWO32
  }

  lemma OneMoreAhead(x: uint32, y: uint32, n: nat)
    ensures Ahead(x, x, 0)
    ensures Ahead(Inc32(x), y, n) ==> Ahead(x, y, n + 1)
  {
  }

  lemma PassedStepwise(a: T.Aead, l: Line, bs: seq<Between>)
    ensures PassedAll(a, l, bs) == if bs == [] then l else PassedAll(a, Passed(a, l, bs[0]), bs[1..])
  {
    hide Passed;
  }

  lemma PassedCounts(a: T.Aead, l: Line, b: Between)
    requires T.Correct(a) && !b.Relayed?
    ensures var m := Passed(a, l, b);
            || (m.nonce == l.nonce && m.ep.nextSeq == l.ep.nextSeq)
            || (m.nonce == l.nonce + 1 && m.ep.nextSeq == Inc32(l.ep.nextSeq))
  {
    PassedInStep(a, l, b);
    hide Passed, T.Correct, Later, C.CanSend;
  }

  /** However other callers' messages pass, on REUDP nonces and sequence numbers go hand in hand:
      as many of the one are taken as of the other. */
  lemma {:induction false} NoncesFollowNumbers(a: T.Aead, l: Line, bs: seq<Between>)
    requires T.Correct(a) && forall i | 0 <= i < |bs| :: !bs[i].Relayed?
    ensures var m := PassedAll(a, l, bs); l.nonce <= m.nonce && Ahead(l.ep.nextSeq, m.ep.nextSeq, m.nonce - l.nonce)
    decreases |bs|
  {
    hide *;
    PassedStepwise(a, l, bs);
    OneMoreAhead(l.ep.nextSeq, l.ep.nextSeq, 0);
    if bs != [] {
      var m := Passed(a, l, bs[0]);
      PassedCounts(a, l, bs[0]);
      assert forall i | 0 <= i < |bs| - 1 :: bs[1..][i] == bs[i + 1];
      NoncesFollowNumbers(a, m, bs[1..]);
      var e := PassedAll(a, m, bs[1..]);
      if m.nonce != l.nonce {
        OneMoreAhead(l.ep.nextSeq, e.ep.nextSeq, e.nonce - m.nonce);
      }
    }
  }

  /** A poll that finds the window leaves it open, within its bounds and last used by t. */
  lemma {:induction false} FoundIsOpen(a: T.Aead, l: Line, turns: seq<Turn>, t: nat)
    requires C.Sane(l.ep.window) && SentBy(l.ep.window, t)
    requires forall i | 0 <= i < |turns| :: AllBefore(turns[i].passed, t)
    ensures var (o, m) := WaitFor(a, l, turns);
            && C.Sane(m.ep.window) && SentBy(m.ep.window, t) && l.nonce <= m.nonce
            && (o == Found ==> C.Open(m.ep.window))
    decreases |turns|
  {
    if turns != [] && !C.CanSend(l.ep.window, turns[0].now) {
      assert AllBefore(turns[0].passed, t);
      PassedKeepsWindow(a, l, turns[0].passed, t);
      hide PassedAll, C.Sane, SentBy, AllBefore;
      FoundIsOpen(a, PassedAll(a, l, turns[0].passed), turns[1..], t);
    }
  }

  // ---- sendTunnel ----

  /** How a message leaves: as a packet of the reliable stream or in a tunnel frame. */
  datatype Sent = Packet(d: R.Datagram) | Frame(ct: bytes)

  /** Encrypt and WriteFrame. A frame that cannot be written takes its nonce with it. */
  predicate ThroughRelay(a: T.Aead, l: Line, inner: bytes, connected: bool, r: Result<Sent, Error>, after: Line) {
    if l.nonce >= T.MAX_NONCE then r == Err(NonceSpent) && after == l
    else
      && after == l.(nonce := l.nonce + 1)
      && r == if !connected then Err(NoSession)
              else if |a.seal(l.nonce, inner)| > FrameCodec.MAX_PAYLOAD then Err(TooLarge)
              else Ok(Frame(a.seal(l.nonce, inner)))
  }

  /** Encrypt and SendReliable after a poll that found the window open: the message becomes
      the next packet of the stream, under the next nonce, unless the endpoint is closed. */
  predicate OverStream(a: T.Aead, l: Line, inner: bytes, polls: seq<Poll>, r: Result<Sent, Error>, after: Line) {
    if l.nonce >= T.MAX_NONCE then r == Err(NonceSpent) && after == l
    else
      var ct := a.seal(l.nonce, inner);
      var (t, v) := PollUntil(l.ep, polls);
      && after.nonce == l.nonce + 1
      && v != TimedOut
      && (v == Shut ==> r == Err(Closed) && after.ep == t && exists i | 0 <= i < |polls| :: polls[i].closed)
      && (v.Clear? ==>
            && after.ep == R.Send(t, ct, R.FLAG_RELIABLE, v.now).0
            && r.Ok? && r.value.Packet? && r.value.d.Data? && R.IsReliable(r.value.d.flags)
            && r.value.d.seqno == l.ep.nextSeq && r.value.d.payload == ct
            && after.ep.nextSeq == Inc32(l.ep.nextSeq)
            && l.ep.nextSeq in after.ep.inflight && after.ep.inflight[l.ep.nextSeq] == R.Inflight(r.value.d, 0)
            && forall k | k in after.ep.inflight && k != l.ep.nextSeq ::
                 k in l.ep.inflight && after.ep.inflight[k].packet == l.ep.inflight[k].packet)
  }

  /** Through the relay no size is checked before Encrypt: the message fails, and its nonce
      with it, exactly when the connection is missing or the frame would be too large. */
  lemma RelaySkipsNonceIff(a: T.Aead, l: Line, inner: bytes, connected: bool, r: Result<Sent, Error>, after: Line)
    requires T.Correct(a) && l.nonce < T.MAX_NONCE && ThroughRelay(a, l, inner, connected, r, after)
    ensures after.nonce == l.nonce + 1
    ensures r.Err? <==> !connected || |inner| + T.NOISE_TAG > FrameCodec.MAX_PAYLOAD
  {
    assert |a.seal(l.nonce, inner)| == |inner| + T.NOISE_TAG;
  }

  method SendFrame(s: Session, inner: bytes, connected: bool, ghost ep: R.State) returns (r: Result<Sent, Error>)
    modifies s`sent
    ensures ThroughRelay(s.sealer, Line(old(s.sent), ep), inner, connected, r, Line(s.sent, ep))
  {
    var ct := s.Encrypt(inner);
    match ct {
      case Err(e) => return Err(e);
      case Ok(c) =>
        if !connected {
          return Err(NoSession);
        }
        if |c| > FrameCodec.MAX_PAYLOAD {
          return Err(TooLarge);
        }
        return Ok(Frame(c));
    }
  }

  method SendPacket(s: Session, ep: R.Endpoint, inner: bytes, polls: seq<Poll>) returns (r: Result<Sent, Error>)
    requires ep.Valid() && T.Correct(s.sealer) && |inner| + T.NOISE_TAG <= R.MAX_PAYLOAD
    requires C.Open(ep.cong.Value()) && |polls| == 500 && Ticking(polls) && SentBy(ep.cong.Value(), polls[0].now)
    modifies s`sent, ep, ep.cong
    ensures ep.Valid() && ep.cong == old(ep.cong)
    ensures OverStream(s.sealer, Line(old(s.sent), old(ep.Value())), inner, polls, r, Line(s.sent, ep.Value()))
  {
    ghost var before := ep.Value();
    OpenWindowIsFound(before, polls);
    PollUntilIsLater(before, polls);
    hide PollUntil, Ticking, C.CanSend, C.Open, C.Sane, C.OnSend;
    var ct := s.Encrypt(inner);
    match ct {
      case Err(e) => return Err(e);
      case Ok(c) =>
        assert c == s.sealer.seal(old(s.sent), inner) && |c| == |inner| + T.NOISE_TAG;
        var out := SendReliable(ep, c, polls);
        match out {
          case Err(e) => return Err(e);
          case Ok(d) => return Ok(Packet(d));
        }
    }
  }

  /** Size check, poll, Encrypt, SendReliable or WriteFrame, in that order. turns are the
      iterations of sendTunnel's own poll, polls those of SendReliable's. */
  method Send(s: Session, ep: R.Endpoint, path: Path, connected: bool, msgType: byte, body: bytes,
              turns: seq<Turn>, polls: seq<Poll>) returns (r: Result<Sent, Error>)
    requires ep.Valid() && T.Correct(s.sealer)
    requires |turns| == 2000 && |polls| == 500 && Ticking(polls)
    requires SentBy(ep.cong.Value(), polls[0].now)
    requires forall i | 0 <= i < |turns| :: AllBefore(turns[i].passed, polls[0].now)
    modifies s`sent, ep, ep.cong
    ensures ep.Valid()
    ensures var inner := FrameCodec.Inner(msgType, body);
            var before, after := Line(old(s.sent), old(ep.Value())), Line(s.sent, ep.Value());
            match path
            case NoPath => r == Err(NoSession) && after == before
            case Relay => ThroughRelay(s.sealer, before, inner, connected, r, after)
            case Udp =>
              if 5 + |body| + 16 > 1200 then r == Err(TooLarge) && after == before
              else
                var (o, l) := WaitFor(s.sealer, before, turns);
                match o
                case GaveUp => r == Err(Congested) && after == l
                case Dropped => r == Err(NoSession) && after == l
                case Switched => ThroughRelay(s.sealer, l, inner, connected, r, after)
                case Found => OverStream(s.sealer, l, inner, polls, r, after)
  {
    var inner := FrameCodec.Inner(msgType, body);
    if path.NoPath? {
      return Err(NoSession);
    }
    hide T.Correct;
    if path.Relay? {
      r := SendFrame(s, inner, connected, ep.Value());
      return;
    }
    if |inner| + T.NOISE_TAG > R.MAX_PAYLOAD {
      return Err(TooLarge);
    }
    FoundIsOpen(s.sealer, Line(s.sent, ep.Value()), turns, polls[0].now);
    hide WaitFor, Ticking, AllBefore, ThroughRelay, OverStream, C.Open, C.Sane, SentBy;
    var o := Await(s, ep, turns);
    match o
    case GaveUp => return Err(Congested);
    case Dropped => return Err(NoSession);
    case Switched => r := SendFrame(s, inner, connected, ep.Value());
    case Found => r := SendPacket(s, ep, inner, polls);
  }

  // ---- the assumption on the AEAD can be met ----

  const ZEROS: bytes := [0, 0, 0, 0, 0, 0, 0, 0]

  function Stamp(n: nat, p: bytes): bytes {
    ZEROS + U64(n % TWO64) + p
  }

  function Unstamp(n: nat, c: bytes): Option<bytes> {
    if |c| >= T.NOISE_TAG && c[..8] == ZEROS && c[8..16] == U64(n % TWO64) then Some(c[16..]) else None
  }

  lemma StampInverts(n: nat, p: bytes)
    ensures var c := Stamp(n, p);
            |c| == |p| + T.NOISE_TAG && Unstamp(n, c) == Some(p) && !T.IsVideoPlane(c) && c[8..16] == U64(n % TWO64)
  {
    hide U64;
    var c := Stamp(n, p);
    assert c[..8] == ZEROS && c[8..16] == U64(n % TWO64) && c[16..] == p;
    assert c[0] == ZEROS[0];
  }

  lemma StampsDiffer(m: nat, n: nat, p: bytes)
    requires m < TWO64 && n < TWO64 && m != n
    ensures Unstamp(m, Stamp(n, p)) == None
  {
    StampInverts(n, p);
    hide U64, Get64, Stamp;
    Read64(m, []);
    Read64(n, []);
    assert U64(m) + [] == U64(m) && U64(n) + [] == U64(n);
  }

  /** The nonce in front of the plaintext: no secrecy, but every clause of Correct. */
  lemma CorrectIsSatisfiable() returns (a: T.Aead)
    ensures T.Correct(a)
  {
    a := T.Aead(Stamp, Unstamp);
    forall n: nat, p: bytes | n < T.MAX_NONCE
      ensures |a.seal(n, p)| == |p| + T.NOISE_TAG && a.open(n, a.seal(n, p)) == Some(p) && !T.IsVideoPlane(a.seal(n, p))
    {
      StampInverts(n, p);
    }
    forall m: nat, n: nat, p: bytes | m < T.MAX_NONCE && n < T.MAX_NONCE && m != n
      ensures a.open(m, a.seal(n, p)) == None
    {
      StampsDiffer(m, n, p);
    }
  }
}
