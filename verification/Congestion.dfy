/** The AIMD window and pacing controller of internal/reudp/congestion.go.
    Windows are reals, durations whole nanoseconds. */
module Congestion {
  import opened Words

  const MILLISECOND: nat := 1_000_000
  const MAX_PACE: nat := 20 * MILLISECOND

  type Positive = r: real | r > 0.0 witness 1.0

  datatype Window = Window(cwnd: Positive, ssthresh: real, inFlight: nat,
                           minRTT: nat, paceGap: nat, lastSend: Option<nat>)

  function Fresh(): Window {
    Window(8.0, 64.0, 0, 50 * MILLISECOND, 2 * MILLISECOND, None)
  }

  /** The window half of CanSend: room for one more packet. */
  predicate Open(w: Window) {
    w.inFlight < w.cwnd.Floor
  }

  predicate CanSend(w: Window, now: nat) {
    && Open(w)
    && !(w.lastSend.Some? && now - w.lastSend.value < w.paceGap)
  }

  function OnSend(w: Window, now: nat): Window {
    w.(inFlight := w.inFlight + 1, lastSend := Some(now))
  }

  function Clamp(lo: nat, x: int, hi: nat): nat
    requires lo <= hi
  {
    if x < lo then lo else if x > hi then hi else x
  }

  function OnAck(w: Window, n: nat, rtt: nat): Window {
    var left := if n > w.inFlight then 0 else w.inFlight - n;
    var minRTT := if rtt > 0 && (w.minRTT == 0 || rtt < w.minRTT) then rtt else w.minRTT;
    var share := n as real / w.cwnd;
    assert share >= 0.0;
    var grown := if w.cwnd < w.ssthresh then w.cwnd + n as real else w.cwnd + share;
    var cwnd := if grown > 512.0 then 512.0 else grown;
    var gap := if minRTT > 0 then Clamp(MILLISECOND, (minRTT as real / cwnd).Floor, MAX_PACE) else w.paceGap;
    w.(inFlight := left, minRTT := minRTT, cwnd := cwnd, paceGap := gap)
  }

  function OnLoss(w: Window): Window {
    var half := if w.cwnd / 2.0 < 2.0 then 2.0 else w.cwnd / 2.0;
    w.(ssthresh := half, cwnd := half, inFlight := 0)
  }

  function BoostForLAN(w: Window): Window {
    w.(cwnd := if w.cwnd < 128.0 then 128.0 else w.cwnd,
       ssthresh := if w.ssthresh < 256.0 then 256.0 else w.ssthresh,
       minRTT := 8 * MILLISECOND,
       paceGap := MILLISECOND / 2)
  }

  // ---- runs ----

  /** Everything that can happen to the window besides a send. */
  datatype Event = Acked(n: nat, rtt: nat) | Lost | Boosted | Reset

  function Apply(w: Window, e: Event): Window {
    match e
    case Acked(n, rtt) => OnAck(w, n, rtt)
    case Lost => OnLoss(w)
    case Boosted => BoostForLAN(w)
    case Reset => Fresh()
  }

  /** The bounds every run keeps. */
  predicate Sane(w: Window) {
    && 2.0 <= w.cwnd <= 512.0
    && w.inFlight <= w.cwnd.Floor
    && w.paceGap <= MAX_PACE
  }

  lemma FreshIsSane()
    ensures Sane(Fresh()) && Open(Fresh())
  {
  }

  lemma FloorMonotone(x: real, y: real)
    requires x <= y
    ensures x.Floor <= y.Floor
  {
  }

  lemma AckGrows(w: Window, n: nat, rtt: nat)
    requires Sane(w)
    ensures w.cwnd <= OnAck(w, n, rtt).cwnd <= 512.0
    ensures OnAck(w, n, rtt).inFlight == if n > w.inFlight then 0 else w.inFlight - n
  {
    assert n as real / w.cwnd >= 0.0;
  }

  /** No event besides a send leaves the bounds, and none of them closes a window that
      was open: a send that saw room under the lock cannot later find the window full. */
  lemma EventKeepsWindow(w: Window, e: Event)
    requires Sane(w)
    ensures Sane(Apply(w, e))
    ensures Open(w) ==> Open(Apply(w, e))
  {
    match e
    case Acked(n, rtt) =>
      AckGrows(w, n, rtt);
      FloorMonotone(w.cwnd, OnAck(w, n, rtt).cwnd);
    case Lost =>
    case Boosted =>
      FloorMonotone(w.cwnd, BoostForLAN(w).cwnd);
    case Reset =>
  }

  function ApplyAll(w: Window, es: seq<Event>): Window
    decreases es
  {
    if es == [] then w else ApplyAll(Apply(w, es[0]), es[1..])
  }

  /** Over any number of acknowledgements, losses, boosts and resets. */
  lemma {:induction false} OpenWindowStaysOpen(w: Window, es: seq<Event>)
    requires Sane(w) && Open(w)
    ensures Sane(ApplyAll(w, es)) && Open(ApplyAll(w, es))
    decreases es
  {
    if es != [] {
      EventKeepsWindow(w, es[0]);
      OpenWindowStaysOpen(Apply(w, es[0]), es[1..]);
    }
  }

  /** Pacing only delays: once MAX_PACE has passed since the last send, CanSend is the
      window test alone, in both directions. */
  lemma PacingEnds(w: Window, now: nat)
    requires Sane(w)
    requires w.lastSend.Some? ==> w.lastSend.value + MAX_PACE <= now
    ensures CanSend(w, now) <==> Open(w)
  {
  }

  /** A permitted send keeps the bounds. */
  lemma SendKeepsWindow(w: Window, now: nat)
    requires Sane(w) && CanSend(w, now)
    ensures Sane(OnSend(w, now))
  {
  }

  // ---- additive increase ----

  predicate AllAcks(es: seq<Event>) {
    forall i | 0 <= i < |es| :: es[i].Acked?
  }

  function Packets(es: seq<Event>): nat {
    if es == [] then 0 else (if es[0].Acked? then es[0].n else 0) + Packets(es[1..])
  }

  lemma ShareShrinks(s: real, a: real, b: real)
    requires s >= 0.0 && 0.0 < a <= b
    ensures s / b <= s / a
  {
    var q := s / b;
    assert q * a <= q * b;
    assert q * b == s;
    if q > s / a {
      assert q * a > s / a * a;
    }
  }

  lemma SharesAdd(x: real, y: real, c: real)
    requires c > 0.0
    ensures (x + y) / c == x / c + y / c
  {
  }

  /** Above ssthresh, acknowledgements of N packets, however they are bundled, raise the
      window by at most N / cwnd, a full window of them by at most one packet; and, below the
      cap of 512, by at least N over the window they lead to. */
  lemma {:induction false} AvoidanceIsAdditive(w: Window, es: seq<Event>)
    requires Sane(w) && w.cwnd >= w.ssthresh && AllAcks(es)
    ensures var end := ApplyAll(w, es).cwnd;
            && w.cwnd <= end <= w.cwnd + Packets(es) as real / w.cwnd
            && (Packets(es) as real <= w.cwnd ==> end <= w.cwnd + 1.0)
            && (end < 512.0 ==> w.cwnd + Packets(es) as real / end <= end)
    decreases es
  {
    if es != [] {
      var e, rest := es[0], es[1..];
      assert e.Acked?;
      var v := Apply(w, e);
      AckGrows(w, e.n, e.rtt);
      EventKeepsWindow(w, e);
      assert v.cwnd == w.cwnd + e.n as real / w.cwnd || v.cwnd == 512.0;
      AvoidanceIsAdditive(v, rest);
      var end := ApplyAll(v, rest).cwnd;
      ShareShrinks(Packets(rest) as real, w.cwnd, v.cwnd);
      ShareShrinks(e.n as real, w.cwnd, end);
      SharesAdd(e.n as real, Packets(rest) as real, w.cwnd);
      SharesAdd(e.n as real, Packets(rest) as real, end);
      hide Apply, Sane;
      assert Packets(es) as real == e.n as real + Packets(rest) as real;
    }
    AtMostOne(Packets(es) as real, w.cwnd);
  }

  lemma AtMostOne(n: real, c: real)
    requires c > 0.0
    ensures n <= c ==> n / c <= 1.0
  {
  }

  /** Below ssthresh every acknowledged packet adds one. */
  lemma {:induction false} SlowStartCountsPackets(w: Window, es: seq<Event>)
    requires Sane(w) && AllAcks(es)
    requires w.cwnd + Packets(es) as real <= w.ssthresh && w.cwnd + Packets(es) as real <= 512.0
    ensures ApplyAll(w, es).cwnd == w.cwnd + Packets(es) as real
    decreases es
  {
    if es != [] {
      var e, rest := es[0], es[1..];
      assert e.Acked?;
      var v := Apply(w, e);
      EventKeepsWindow(w, e);
      assert e.n == 0 ==> e.n as real / w.cwnd == 0.0;
      assert v.cwnd == w.cwnd + e.n as real && v.ssthresh == w.ssthresh;
      hide Apply, Sane;
      SlowStartCountsPackets(v, rest);
    }
  }

  // ---- multiplicative decrease ----

  function Losses(k: nat): seq<Event> {
    if k == 0 then [] else [Lost] + Losses(k - 1)
  }

  function Pow2(k: nat): (r: real)
    ensures r >= 1.0
  {
    if k == 0 then 1.0 else 2.0 * Pow2(k - 1)
  }

  lemma HalvesTwice(c: real, p: real)
    requires p >= 1.0
    ensures c / 2.0 / p == c / (2.0 * p)
  {
    var q := c / (2.0 * p);
    assert q * (2.0 * p) == c;
    assert (c / 2.0) == q * p;
  }

  /** k losses in a row halve the window k times, but not below two packets; ssthresh follows,
      nothing counts as in flight, and the pace stays. */
  lemma {:induction false} LossesHalve(w: Window, k: nat)
    requires k >= 1
    ensures var v := ApplyAll(w, Losses(k));
            && v.cwnd == v.ssthresh == (if w.cwnd / Pow2(k) < 2.0 then 2.0 else w.cwnd / Pow2(k))
            && v == w.(cwnd := v.cwnd, ssthresh := v.ssthresh, inFlight := 0)
    decreases k
  {
    var v := Apply(w, Lost);
    assert Losses(k)[0] == Lost && Losses(k)[1..] == Losses(k - 1);
    HalvesTwice(w.cwnd, Pow2(k - 1));
    if k > 1 {
      LossesHalve(v, k - 1);
      if w.cwnd / 2.0 < 2.0 {
        ShareShrinks(w.cwnd / 2.0, 1.0, Pow2(k - 1));
        ShareShrinks(2.0, 1.0, Pow2(k - 1));
      }
    }
  }

  // ---- pacing ----

  /** After an acknowledgement a window of packets, one in a gap, takes one round trip, as far
      as the gap lies between one and twenty milliseconds. */
  lemma PaceSpreadsTheWindow(w: Window, n: nat, rtt: nat)
    ensures var v := OnAck(w, n, rtt);
            v.minRTT > 0 ==>
              && 1_000_000 <= v.paceGap <= 20_000_000
              && (v.paceGap > 1_000_000 ==> v.paceGap as real * v.cwnd <= v.minRTT as real)
              && (v.paceGap < 20_000_000 ==> v.minRTT as real < (v.paceGap as real + 1.0) * v.cwnd)
    ensures OnAck(w, n, rtt).minRTT == 0 ==> OnAck(w, n, rtt).paceGap == w.paceGap
  {
    var v := OnAck(w, n, rtt);
    if v.minRTT > 0 {
      assert v.paceGap == Clamp(MILLISECOND, (v.minRTT as real / v.cwnd).Floor, MAX_PACE);
      hide OnAck;
      GapSpreads(v.minRTT, v.cwnd, v.paceGap);
    }
  }

  lemma GapSpreads(rtt: nat, cwnd: Positive, gap: nat)
    requires gap == Clamp(MILLISECOND, (rtt as real / cwnd).Floor, MAX_PACE)
    ensures 1_000_000 <= gap <= 20_000_000
    ensures gap > 1_000_000 ==> gap as real * cwnd <= rtt as real
    ensures gap < 20_000_000 ==> rtt as real < (gap as real + 1.0) * cwnd
  {
    Quotient(rtt as real, cwnd, gap as real);
    Quotient(rtt as real, cwnd, gap as real + 1.0);
  }

  lemma Quotient(n: real, c: real, b: real)
    requires c > 0.0
    ensures b <= n / c <==> b * c <= n
  {
    var q := n / c;
    assert q * c == n;
    if b <= q {
      assert (q - b) * c >= 0.0;
    } else {
      assert (b - q) * c > 0.0;
    }
  }

  /** Whatever the acknowledgements, minRTT is the least round trip measured. */
  lemma {:induction false} MinRTTIsLeast(w: Window, es: seq<Event>)
    requires AllAcks(es) && w.minRTT > 0
    ensures var m := ApplyAll(w, es).minRTT;
            && 0 < m <= w.minRTT
            && (forall i | 0 <= i < |es| && es[i].rtt > 0 :: m <= es[i].rtt)
            && (m == w.minRTT || exists i | 0 <= i < |es| :: m == es[i].rtt)
    decreases es
  {
    if es != [] {
      var v := Apply(w, es[0]);
      assert es[0].Acked?;
      assert v.minRTT == w.minRTT || v.minRTT == es[0].rtt;
      hide OnAck;
      MinRTTIsLeast(v, es[1..]);
      assert forall i | 0 < i < |es| :: es[i] == es[1..][i - 1];
    }
  }

  // ---- how much goes out at once ----

  function Sends(w: Window, ts: seq<nat>): Window {
    if ts == [] then w else OnSend(Sends(w, ts[..|ts| - 1]), ts[|ts| - 1])
  }

  /** Each send a pace gap after the one before. */
  predicate Paced(w: Window, ts: seq<nat>) {
    && (ts != [] && w.lastSend.Some? ==> w.lastSend.value + w.paceGap <= ts[0])
    && forall i {:trigger ts[i]} | 0 < i < |ts| :: ts[i - 1] + w.paceGap <= ts[i]
  }

  /** Without acknowledgements, paced sends are permitted exactly until the window is used up,
      and a send too early is not. */
  lemma {:induction false} BurstIsTheWindow(w: Window, ts: seq<nat>, t: nat)
    requires Paced(w, ts)
    ensures Sends(w, ts) == w.(inFlight := w.inFlight + |ts|, lastSend := if ts == [] then w.lastSend else Some(ts[|ts| - 1]))
    ensures Paced(w, ts + [t]) ==> (CanSend(Sends(w, ts), t) <==> (w.inFlight + |ts| + 1) as real <= w.cwnd)
    ensures ts != [] && t < ts[|ts| - 1] + w.paceGap ==> !CanSend(Sends(w, ts), t)
  {
    if ts != [] {
      BurstIsTheWindow(w, ts[..|ts| - 1], t);
    }
    assert Paced(w, ts + [t]) ==> ts == [] || ts[|ts| - 1] + w.paceGap <= t by {
      if ts != [] {
        assert (ts + [t])[|ts|] == t && (ts + [t])[|ts| - 1] == ts[|ts| - 1];
      } else {
        assert ([t])[0] == t;
      }
    }
  }

  /** So a new connection starts with eight packets, two milliseconds apart, and one on a LAN
      with 128, half a millisecond apart. */
  lemma FirstBurst(ts: seq<nat>, t: nat)
    requires Paced(Fresh(), ts + [t])
    ensures Fresh().paceGap == 2_000_000 && BoostForLAN(Fresh()).paceGap == 500_000
    ensures CanSend(Sends(Fresh(), ts), t) <==> |ts| < 8
    ensures CanSend(Sends(BoostForLAN(Fresh()), ts), t) <==> |ts| < 128
  {
    var boosted := BoostForLAN(Fresh());
    assert forall i | 0 <= i < |ts| :: (ts + [t])[i] == ts[i];
    assert Paced(Fresh(), ts) && Paced(boosted, ts) && Paced(boosted, ts + [t]);
    BurstIsTheWindow(Fresh(), ts, t);
    BurstIsTheWindow(boosted, ts, t);
  }

  /** The boost takes nothing away and lets slow start run to 256 packets. */
  lemma BoostOnlyRaises(w: Window)
    ensures var v := BoostForLAN(w);
            && v.cwnd >= w.cwnd && v.ssthresh >= w.ssthresh && v.inFlight == w.inFlight && v.lastSend == w.lastSend
            && (w.cwnd <= 128.0 ==> v.cwnd == 128.0) && (w.cwnd > 128.0 ==> v.cwnd == w.cwnd)
            && (w.ssthresh <= 256.0 ==> v.ssthresh == 256.0) && (w.ssthresh > 256.0 ==> v.ssthresh == w.ssthresh)
            && v.minRTT == 8_000_000
  {
  }

  // ---- the controller object ----

  class Controller {
    var cwnd: Positive
    var ssthresh: real
    var inFlight: nat
    var minRTT: nat
    var paceGap: nat
    var lastSend: Option<nat>

    function Value(): Window
      reads this
    {
      Window(cwnd, ssthresh, inFlight, minRTT, paceGap, lastSend)
    }

    constructor ()
      ensures Value() == Fresh()
      ensures cwnd == 8.0 && ssthresh == 64.0 && inFlight == 0
      ensures minRTT == 50_000_000 && paceGap == 2_000_000 && lastSend == None
    {
      cwnd, ssthresh, inFlight := 8.0, 64.0, 0;
      minRTT, paceGap, lastSend := 50 * MILLISECOND, 2 * MILLISECOND, None;
    }

    method Boost()
      modifies this
      ensures Value() == BoostForLAN(old(Value()))
    {
      if cwnd < 128.0 {
        cwnd := 128.0;
      }
      if ssthresh < 256.0 {
        ssthresh := 256.0;
      }
      minRTT := 8 * MILLISECOND;
      paceGap := MILLISECOND / 2;
    }

    method MaySend(now: nat) returns (ok: bool)
      ensures ok == CanSend(Value(), now)
    {
      if inFlight >= cwnd.Floor {
        return false;
      }
      if lastSend.Some? && now - lastSend.value < paceGap {
        return false;
      }
      return true;
    }

    method NoteSend(now: nat)
      modifies this
      ensures Value() == OnSend(old(Value()), now)
    {
      inFlight := inFlight + 1;
      lastSend := Some(now);
    }

    method NoteAck(n: nat, rtt: nat)
      modifies this
      ensures Value() == OnAck(old(Value()), n, rtt)
    {
      if n > inFlight {
        inFlight := 0;
      } else {
        inFlight := inFlight - n;
      }
      if rtt > 0 && (minRTT == 0 || rtt < minRTT) {
        minRTT := rtt;
      }
      var share := n as real / cwnd;
      assert share >= 0.0;
      if cwnd < ssthresh {
        cwnd := cwnd + n as real;
      } else {
        cwnd := cwnd + share;
      }
      if cwnd > 512.0 {
        cwnd := 512.0;
      }
      if minRTT > 0 {
        paceGap := Clamp(MILLISECOND, (minRTT as real / cwnd).Floor, MAX_PACE);
      }
    }

    method NoteLoss()
      modifies this
      ensures Value() == OnLoss(old(Value()))
    {
      ssthresh := cwnd / 2.0;
      if ssthresh < 2.0 {
        ssthresh := 2.0;
      }
      cwnd := ssthresh;
      inFlight := 0;
    }
  }
}
