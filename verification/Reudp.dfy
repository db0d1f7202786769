/** One REUDP endpoint (internal/reudp/endpoint.go): the reliable send and receive state,
    first as functions and relations on a value, then as the object that updates it. */
module Reudp {
  import opened Words
  import C = Congestion

  const MAX_PAYLOAD: nat := 1200
  const FLAG_RELIABLE: byte := 1

  predicate IsReliable(flags: byte) {
    flags % 2 == 1
  }

  /** The two datagram types the reliable protocol uses. */
  datatype Datagram =
    | Data(flags: byte, seqno: uint32, ack: uint32, payload: bytes)
    | Ack(cum: uint32, sack: bv64)

  /** What Recv hands to the layer above, tagged with how it travelled. */
  datatype Delivery = Delivery(reliable: bool, body: bytes)

  datatype Inflight = Inflight(packet: Datagram, retries: nat)

  datatype SendError = TooLarge | Congested

  datatype State = State(nextSeq: uint32, nextExpect: uint32,
                         inflight: map<uint32, Inflight>, recvBuf: map<uint32, bytes>,
                         incoming: seq<Delivery>, window: C.Window)

  function Initial(): State {
    State(0, 0, map[], map[], [], C.Fresh())
  }

  // ---- acknowledgement numbers ----

  /** "Everything below nextExpect", with MAX_UINT32 for "nothing yet". */
  function Cumulative(nextExpect: uint32): uint32 {
    if nextExpect == 0 then MAX_UINT32 else nextExpect - 1
  }

  /** Whether the pair (cum, sack) acknowledges seqno: ackedBy in the source. */
  predicate AckedBy(cum: uint32, sack: bv64, seqno: uint32) {
    || (cum != MAX_UINT32 && seqno <= cum)
    || (var delta := Sub32(seqno, Inc32(cum)); delta < 64 && Bit(sack, delta))
  }

  /** sack marks exactly the buffered sequence numbers within 64 of base. */
  ghost predicate IsMask(sack: bv64, buffered: set<uint32>, base: uint32) {
    forall i: nat {:trigger Bit(sack, i)} | i < 64 :: Bit(sack, i) <==> (base + i) % TWO32 in buffered
  }

  ghost predicate IsAckOf(s: State, cum: uint32, sack: bv64) {
    cum == Cumulative(s.nextExpect) && IsMask(sack, s.recvBuf.Keys, s.nextExpect)
  }

  /** Received so far: delivered in order, or waiting in the out-of-order buffer. */
  predicate Received(s: State, seqno: uint32) {
    seqno < s.nextExpect || seqno in s.recvBuf
  }

  /** An ACK built from a state acknowledges exactly what that state has received, up to the
      64-packet reach of the mask, also while nothing contiguous has arrived. */
  lemma AckIsExact(s: State, cum: uint32, sack: bv64, seqno: uint32)
    requires IsAckOf(s, cum, sack)
    ensures AckedBy(cum, sack, seqno) <==>
            seqno < s.nextExpect || (seqno in s.recvBuf && seqno - s.nextExpect < 64)
  {
    var base := s.nextExpect;
    assert Inc32(cum) == base;
    if seqno >= base {
      var delta := Sub32(seqno, base);
      assert delta == seqno - base;
      if delta < 64 {
        assert Bit(sack, delta) <==> (base + delta) % TWO32 in s.recvBuf.Keys;
      }
    }
  }

  // ---- sending ----

  function Outgoing(s: State, payload: bytes, flags: byte): Datagram {
    Data(flags, if IsReliable(flags) then s.nextSeq else 0, Cumulative(s.nextExpect), payload)
  }

  function Send(s: State, payload: bytes, flags: byte, now: nat): (r: (State, Result<Datagram, SendError>)) {
    if |payload| > MAX_PAYLOAD then (s, Err(TooLarge))
    else if !IsReliable(flags) then (s, Ok(Outgoing(s, payload, flags)))
    else if !C.CanSend(s.window, now) then (s, Err(Congested))
    else
      var d := Outgoing(s, payload, flags);
      (s.(nextSeq := Inc32(s.nextSeq),
          inflight := s.inflight[s.nextSeq := Inflight(d, 0)],
          window := C.OnSend(s.window, now)),
       Ok(d))
  }

  // ---- receiving ----

  function Unacked(inflight: map<uint32, Inflight>, cum: uint32, sack: bv64): map<uint32, Inflight> {
    map k | k in inflight && !AckedBy(cum, sack, k) :: inflight[k]
  }

  function HandleAck(s: State, cum: uint32, sack: bv64, rtt: nat): State {
    var left := Unacked(s.inflight, cum, sack);
    var n := |s.inflight.Keys - left.Keys|;
    s.(inflight := left, window := if n > 0 then C.OnAck(s.window, n, rtt) else s.window)
  }

  /** Moves the contiguous run at nextExpect from the buffer to the incoming queue. */
  function Drain(s: State): State
    decreases |s.recvBuf|
  {
    if s.nextExpect !in s.recvBuf then s
    else
      var rest := s.recvBuf - {s.nextExpect};
      assert rest.Keys == s.recvBuf.Keys - {s.nextExpect};
      assert |rest.Keys| < |s.recvBuf.Keys|;
      Drain(s.(recvBuf := rest,
               incoming := s.incoming + [Delivery(true, s.recvBuf[s.nextExpect])],
               nextExpect := Inc32(s.nextExpect)))
  }

  /** handleData; room says whether the incoming queue can take an unreliable payload. */
  function HandleData(s: State, flags: byte, seqno: uint32, payload: bytes, room: bool): State {
    if !IsReliable(flags) then
      if room then s.(incoming := s.incoming + [Delivery(false, payload)]) else s
    else if seqno < s.nextExpect then s
    else Drain(s.(recvBuf := s.recvBuf[seqno := payload]))
  }

  // ---- retransmission ----

  function Older(inf: Inflight): Inflight {
    inf.(retries := inf.retries + 1)
  }

  /** One tick of retransmitLoop; due are the packets whose retransmission gap has passed. */
  function Tick(s: State, due: set<uint32>): State {
    s.(inflight := map k | k in s.inflight :: if k in due then Older(s.inflight[k]) else s.inflight[k],
       window := if exists k | k in s.inflight :: k in due && s.inflight[k].retries in {2, 9}
                 then C.OnLoss(s.window) else s.window)
  }

  function Resent(s: State, due: set<uint32>): set<Datagram> {
    set k | k in s.inflight && k in due :: s.inflight[k].packet
  }

  /** n ticks that find just packet k due. */
  function Ticks(s: State, k: uint32, n: nat): State {
    if n == 0 then s else Tick(Ticks(s, k, n - 1), {k})
  }

  /** A packet is resent for as long as it is in flight, always the same, and of its resends
      exactly the third and the tenth count as a loss. */
  lemma {:induction false} LossAtThirdAndTenth(s: State, k: uint32, n: nat)
    requires k in s.inflight && s.inflight[k].retries == 0
    ensures var t := Ticks(s, k, n);
            && t.window == C.ApplyAll(s.window, C.Losses(if n < 3 then 0 else if n < 10 then 1 else 2))
            && t == s.(inflight := s.inflight[k := Inflight(s.inflight[k].packet, n)], window := t.window)
            && Resent(t, {k}) == {s.inflight[k].packet}
  {
    if n == 0 {
      assert s.inflight[k] == Inflight(s.inflight[k].packet, 0);
      assert s.inflight[k := s.inflight[k]] == s.inflight;
    } else {
      LossAtThirdAndTenth(s, k, n - 1);
      var t := Ticks(s, k, n - 1);
      assert Tick(t, {k}).inflight == t.inflight[k := Inflight(s.inflight[k].packet, n)];
      LastLoss(s.window, if n < 4 then 0 else 1);
      hide C.OnLoss;
    }
  }

  lemma LastLoss(w: C.Window, m: nat)
    requires m <= 1
    ensures C.OnLoss(C.ApplyAll(w, C.Losses(m))) == C.ApplyAll(w, C.Losses(m + 1))
  {
    assert C.Losses(m + 1)[1..] == C.Losses(m);
    assert C.ApplyAll(w, [C.Lost] + C.Losses(m)) == C.ApplyAll(C.Apply(w, C.Lost), C.Losses(m));
    if m == 1 {
      assert C.Losses(1)[1..] == [];
      assert C.Losses(1)[0] == C.Lost;
    }
  }

  /** An acknowledgement of nothing that is still in flight, a repeated one say, changes nothing,
      whatever round trip it comes with; any other takes just what it names out of flight. */
  lemma StaleAckIsIgnored(s: State, cum: uint32, sack: bv64, rtt: nat)
    ensures var t := HandleAck(s, cum, sack, rtt);
            && ((forall k | k in s.inflight :: !AckedBy(cum, sack, k)) ==> t == s)
            && (forall k :: k in t.inflight <==> k in s.inflight && !AckedBy(cum, sack, k))
            && (forall k | k in t.inflight :: t.inflight[k] == s.inflight[k])
  {
    hide AckedBy;
    if forall k | k in s.inflight :: !AckedBy(cum, sack, k) {
      assert Unacked(s.inflight, cum, sack) == s.inflight;
      assert s.inflight.Keys - s.inflight.Keys == {};
    }
  }

  // ---- session resets ----

  function ResetSession(s: State): State {
    s.(nextSeq := 0, nextExpect := 0, inflight := map[], recvBuf := map[], window := C.Fresh())
  }

  function ResetSend(s: State): State {
    s.(nextSeq := 0, inflight := map[], window := C.Fresh())
  }

  // ---- what a drain does ----

  /** The reliable payloads among a sequence of deliveries, in order. */
  function Reliables(ds: seq<Delivery>): (r: seq<bytes>)
    ensures |r| <= |ds|
  {
    if ds == [] then []
    else
      var d := ds[|ds| - 1];
      Reliables(ds[..|ds| - 1]) + (if d.reliable then [d.body] else [])
  }

  lemma ReliablesAppend(ds: seq<Delivery>, d: Delivery)
    ensures Reliables(ds + [d]) == Reliables(ds) + (if d.reliable then [d.body] else [])
  {
    assert (ds + [d])[..|ds|] == ds;
  }

  /** A drain only moves packets between "buffered" and "delivered": nothing received is
      forgotten, nothing is invented, the buffer ends with a gap at nextExpect, and no
      other field changes. Stated for streams that stay below the 32-bit wrap. */
  lemma {:induction false} DrainMoves(s: State, limit: uint32)
    requires forall k | k in s.recvBuf :: k < limit
    requires s.nextExpect <= limit
    ensures var t := Drain(s);
            && s.nextExpect <= t.nextExpect <= limit
            && t.nextExpect !in t.recvBuf
            && t.recvBuf.Keys <= s.recvBuf.Keys
            && (forall k | k in t.recvBuf :: t.recvBuf[k] == s.recvBuf[k])
            && (forall k: uint32 :: Received(s, k) <==> Received(t, k))
            && s.incoming <= t.incoming
            && t == s.(nextExpect := t.nextExpect, recvBuf := t.recvBuf, incoming := t.incoming)
    decreases |s.recvBuf|
  {
    if s.nextExpect in s.recvBuf {
      var rest := s.recvBuf - {s.nextExpect};
      assert rest.Keys == s.recvBuf.Keys - {s.nextExpect};
      assert |rest.Keys| < |s.recvBuf.Keys|;
      var u := s.(recvBuf := rest,
                  incoming := s.incoming + [Delivery(true, s.recvBuf[s.nextExpect])],
                  nextExpect := Inc32(s.nextExpect));
      DrainMoves(u, limit);
    }
  }

  /** Only reliable packets come out of it, behind what was queued. */
  lemma {:induction false} QueueAfterDrain(s: State)
    ensures s.incoming <= Drain(s).incoming
    ensures forall i | |s.incoming| <= i < |Drain(s).incoming| :: Drain(s).incoming[i].reliable
    decreases |s.recvBuf|
  {
    var e := s.nextExpect;
    if e in s.recvBuf {
      var rest := s.recvBuf - {e};
      assert rest.Keys == s.recvBuf.Keys - {e};
      assert |rest.Keys| < |s.recvBuf.Keys|;
      QueueAfterDrain(s.(recvBuf := rest, incoming := s.incoming + [Delivery(true, s.recvBuf[e])], nextExpect := Inc32(e)));
    }
  }

  /** What a drain delivers, packet by packet: extending a log that matches the buffer. */
  lemma {:induction false} DrainDelivers(s: State, log: seq<bytes>)
    requires |log| < TWO32
    requires s.nextExpect <= |log|
    requires forall k | k in s.recvBuf :: k < |log| && s.recvBuf[k] == log[k]
    requires Reliables(s.incoming) == log[..s.nextExpect]
    ensures var t := Drain(s);
            t.nextExpect <= |log| && Reliables(t.incoming) == log[..t.nextExpect]
    decreases |s.recvBuf|
  {
    if s.nextExpect in s.recvBuf {
      var e := s.nextExpect;
      var rest := s.recvBuf - {e};
      assert rest.Keys == s.recvBuf.Keys - {e};
      assert |rest.Keys| < |s.recvBuf.Keys|;
      var d := Delivery(true, s.recvBuf[e]);
      ReliablesAppend(s.incoming, d);
      assert log[..e + 1] == log[..e] + [log[e]];
      DrainDelivers(s.(recvBuf := rest, incoming := s.incoming + [d], nextExpect := Inc32(e)), log);
    }
  }

  // ---- the endpoint object ----

  lemma RemoveOne(before: map<uint32, Inflight>, left: map<uint32, Inflight>, k: uint32)
    requires left.Keys <= before.Keys && k in left
    ensures (left - {k}).Keys == left.Keys - {k}
    ensures |before.Keys - (left - {k}).Keys| == |before.Keys - left.Keys| + 1
  {
    assert (left - {k}).Keys == left.Keys - {k};
    assert before.Keys - (left.Keys - {k}) == (before.Keys - left.Keys) + {k};
  }

  lemma EmptyMask(base: uint32)
    ensures IsMask(0, {}, base)
  {
    forall i: nat {:trigger Bit(0, i)} | i < 64 ensures !Bit(0, i) {
      NoBit(i);
    }
  }

  lemma MarkOne(sack: bv64, seen: set<uint32>, base: uint32, seqno: uint32)
    requires IsMask(sack, seen, base)
    ensures var delta := Sub32(seqno, base);
            IsMask(if delta < 64 then SetBit(sack, delta) else sack, seen + {seqno}, base)
  {
    hide Bit, SetBit;
    var delta := Sub32(seqno, base);
    var marked := if delta < 64 then SetBit(sack, delta) else sack;
    forall i: nat {:trigger Bit(marked, i)} | i < 64
      ensures Bit(marked, i) <==> (base + i) % TWO32 in seen + {seqno}
    {
      assert (base + i) % TWO32 == seqno <==> i == delta;
      if delta < 64 {
        BitAfterSet(sack, delta, i);
      }
    }
  }

  /** The entries outside todo that are acknowledged have been removed, and no others. */
  predicate SweptTo(before: map<uint32, Inflight>, left: map<uint32, Inflight>, todo: set<uint32>, cum: uint32, sack: bv64) {
    && (forall k | k in left :: k in before && left[k] == before[k])
    && (forall k | k in before :: k in left <==> k in todo || !AckedBy(cum, sack, k))
  }

  lemma SweptAll(before: map<uint32, Inflight>, left: map<uint32, Inflight>, cum: uint32, sack: bv64)
    requires SweptTo(before, left, {}, cum, sack)
    ensures left == Unacked(before, cum, sack)
  {
    hide AckedBy;
  }

  class Endpoint {
    var nextSeq: uint32
    var nextExpect: uint32
    var inflight: map<uint32, Inflight>
    var recvBuf: map<uint32, bytes>
    var incoming: seq<Delivery>
    var cong: C.Controller

    function Value(): State
      reads this, cong
    {
      State(nextSeq, nextExpect, inflight, recvBuf, incoming, cong.Value())
    }

    ghost predicate Valid()
      reads this, cong
    {
      C.Sane(cong.Value())
    }

    constructor ()
      ensures Valid() && fresh(cong)
      ensures Value() == Initial()
    {
      nextSeq, nextExpect := 0, 0;
      inflight, recvBuf, incoming := map[], map[], [];
      cong := new C.Controller();
    }

    method SendData(payload: bytes, flags: byte, now: nat) returns (r: Result<Datagram, SendError>)
      requires Valid()
      modifies this`nextSeq, this`inflight, cong
      ensures Valid()
      ensures (Value(), r) == Send(old(Value()), payload, flags, now)
    {
      if |payload| > MAX_PAYLOAD {
        return Err(TooLarge);
      }
      if IsReliable(flags) {
        var can := cong.MaySend(now);
        if !can {
          return Err(Congested);
        }
      }
      var seqno: uint32 := 0;
      if IsReliable(flags) {
        seqno := nextSeq;
        nextSeq := Inc32(nextSeq);
      }
      var ack: uint32 := MAX_UINT32;
      if nextExpect > 0 {
        ack := nextExpect - 1;
      }
      var p := Data(flags, seqno, ack, payload);
      if IsReliable(flags) {
        inflight := inflight[seqno := Inflight(p, 0)];
        C.SendKeepsWindow(cong.Value(), now);
        cong.NoteSend(now);
      }
      return Ok(p);
    }

    method OnAck(cum: uint32, sack: bv64, rtt: nat)
      requires Valid()
      modifies this`inflight, cong
      ensures Valid()
      ensures Value() == HandleAck(old(Value()), cum, sack, rtt)
    {
      hide AckedBy;
      var before := inflight;
      var todo := inflight.Keys;
      var n := 0;
      while todo != {}
        invariant todo <= inflight.Keys <= before.Keys
        invariant SweptTo(before, inflight, todo, cum, sack)
        invariant n == |before.Keys - inflight.Keys|
        invariant cong.Value() == old(cong.Value())
      {
        var seqno :| seqno in todo;
        todo := todo - {seqno};
        if AckedBy(cum, sack, seqno) {
          RemoveOne(before, inflight, seqno);
          inflight := inflight - {seqno};
          n := n + 1;
        }
      }
      SweptAll(before, inflight, cum, sack);
      hide SweptTo, Unacked;
      if n > 0 {
        C.EventKeepsWindow(cong.Value(), C.Acked(n, rtt));
        cong.NoteAck(n, rtt);
      }
    }

    method MakeAck() returns (d: Datagram)
      ensures d.Ack? && IsAckOf(Value(), d.cum, d.sack)
    {
      var base := nextExpect;
      var sack: bv64 := 0;
      var todo := recvBuf.Keys;
      EmptyMask(base);
      assert recvBuf.Keys - todo == {};
      hide IsMask, Bit, SetBit;
      while todo != {}
        invariant todo <= recvBuf.Keys
        invariant IsMask(sack, recvBuf.Keys - todo, base)
      {
        var seqno :| seqno in todo;
        MarkOne(sack, recvBuf.Keys - todo, base, seqno);
        assert recvBuf.Keys - (todo - {seqno}) == recvBuf.Keys - todo + {seqno};
        todo := todo - {seqno};
        var delta := Sub32(seqno, base);
        if delta < 64 {
          sack := SetBit(sack, delta);
        }
      }
      assert recvBuf.Keys - todo == recvBuf.Keys;
      d := Ack(Cumulative(nextExpect), sack);
    }

    method OnData(flags: byte, seqno: uint32, payload: bytes, room: bool) returns (reply: Option<Datagram>)
      requires Valid()
      modifies this`nextExpect, this`recvBuf, this`incoming
      ensures Valid()
      ensures Value() == HandleData(old(Value()), flags, seqno, payload, room)
      ensures reply.Some? <==> IsReliable(flags)
      ensures reply.Some? ==> reply.value.Ack? && IsAckOf(Value(), reply.value.cum, reply.value.sack)
    {
      if !IsReliable(flags) {
        if room {
          incoming := incoming + [Delivery(false, payload)];
        }
        return None;
      }
      if seqno >= nextExpect {
        recvBuf := recvBuf[seqno := payload];
        ghost var filled := Value();
        while nextExpect in recvBuf
          invariant Drain(Value()) == Drain(filled)
          invariant cong == old(cong) && cong.Value() == old(cong.Value())
          decreases |recvBuf|
        {
          var body := recvBuf[nextExpect];
          ghost var keys := recvBuf.Keys;
          recvBuf := recvBuf - {nextExpect};
          assert recvBuf.Keys == keys - {nextExpect};
          nextExpect := Inc32(nextExpect);
          incoming := incoming + [Delivery(true, body)];
        }
      }
      var d := MakeAck();
      return Some(d);
    }

    method RetransmitTick(due: set<uint32>) returns (toSend: set<Datagram>)
      requires Valid()
      modifies this`inflight, cong
      ensures Valid()
      ensures Value() == Tick(old(Value()), due)
      ensures toSend == Resent(old(Value()), due)
    {
      var before := inflight;
      var todo := inflight.Keys;
      var lost := false;
      toSend := {};
      while todo != {}
        invariant todo <= before.Keys
        invariant inflight == map k | k in before :: if k in due && k !in todo then Older(before[k]) else before[k]
        invariant lost <==> exists k | k in before :: k !in todo && k in due && before[k].retries in {2, 9}
        invariant toSend == set k | k in before && k !in todo && k in due :: before[k].packet
        invariant cong.Value() == old(cong.Value())
      {
        var seqno :| seqno in todo;
        todo := todo - {seqno};
        if seqno in due {
          toSend := toSend + {before[seqno].packet};
          var inf := Older(inflight[seqno]);
          inflight := inflight[seqno := inf];
          if inf.retries == 3 || inf.retries == 10 {
            lost := true;
          }
        }
      }
      if lost {
        C.EventKeepsWindow(cong.Value(), C.Lost);
        cong.NoteLoss();
      }
    }

    method ResetReliableSession()
      modifies this
      ensures Valid() && fresh(cong)
      ensures Value() == ResetSession(old(Value()))
    {
      nextSeq, nextExpect := 0, 0;
      inflight, recvBuf := map[], map[];
      cong := new C.Controller();
    }

    method ResetReliableSend()
      modifies this
      ensures Valid() && fresh(cong)
      ensures Value() == ResetSend(old(Value()))
    {
      nextSeq := 0;
      inflight := map[];
      cong := new C.Controller();
    }
  }
}
