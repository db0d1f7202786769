/** The ordered Noise channel that sendTunnel lays over the reliable stream
    (cmd/agent/desktop.go). A cipher direction is a counter: Encrypt and Decrypt use nonce
    0, 1, 2, ... and a failed Decrypt does not advance (section 5.1 of the Noise Protocol
    Framework). The AEAD itself is a parameter with the properties stated in Correct. */
module Tunnel {
  import opened Words
  import opened Reudp
  import opened Network
  import opened Stream
  import opened Progress
  import C = Congestion

  const NOISE_TAG: nat := 16
  const VIDEO_OVERHEAD: nat := 2 + 12 + 16
  const MAX_NONCE: nat := TWO64 - 1

  /** The prefix of the loss-tolerant video plane, which shares the DATA channel. */
  predicate IsVideoPlane(payload: bytes) {
    |payload| >= VIDEO_OVERHEAD && payload[0] == 0x56 && payload[1] == 0x31
  }

  /** One direction of an AEAD under a fixed key. */
  datatype Aead = Aead(seal: (nat, bytes) -> bytes, open: (nat, bytes) -> Option<bytes>)

  /** A ciphertext opens under its own nonce and under no other, is a tag longer than its
      plaintext, and is not mistaken for a video-plane packet. */
  ghost predicate Correct(a: Aead) {
    && (forall n: nat, p: bytes {:trigger a.seal(n, p)} | n < MAX_NONCE ::
          |a.seal(n, p)| == |p| + NOISE_TAG && a.open(n, a.seal(n, p)) == Some(p) && !IsVideoPlane(a.seal(n, p)))
    && (forall m: nat, n: nat, p: bytes {:trigger a.open(m, a.seal(n, p))} | m < MAX_NONCE && n < MAX_NONCE && m != n ::
          a.open(m, a.seal(n, p)) == None)
  }

  // ---- the receiving loop ----

  /** What the receive loop has made of the deliveries so far. */
  datatype Reader = Reader(nonce: nat, texts: seq<bytes>, failures: nat)

  function ReadOne(a: Aead, r: Reader, body: bytes): Reader {
    if IsVideoPlane(body) then r
    else
      match a.open(r.nonce, body)
      case Some(plain) => Reader(r.nonce + 1, r.texts + [plain], r.failures)
      case None => r.(failures := r.failures + 1)
  }

  function ReadAll(a: Aead, ds: seq<Delivery>): Reader {
    if ds == [] then Reader(0, [], 0)
    else ReadOne(a, ReadAll(a, ds[..|ds| - 1]), ds[|ds| - 1].body)
  }

  // ---- a peer that sends reliably only through sendTunnel ----

  /** plain is the history of encrypted messages, so its length is the next nonce; waiting
      is a ciphertext already made and not yet accepted by SendReliable. */
  datatype Peer = Peer(node: Node, plain: seq<bytes>, waiting: Option<bytes>)

  datatype Act =
    | Encrypt(inner: bytes, now: nat)
    | HandOver(now: nat)
    | SendMedia(payload: bytes, flags: byte)
    | Other(e: Event)

  /** Encrypt runs under the send lock after the size check and the CanSend poll; HandOver
      is the iteration of SendReliable's own poll that finds CanSend true. */
  ghost predicate Permitted(p: Peer, act: Act, inbox: set<Datagram>) {
    match act
    case Encrypt(inner, now) =>
      p.waiting.None? && |inner| + NOISE_TAG <= MAX_PAYLOAD && C.CanSend(p.node.ep.window, now)
    case HandOver(now) => p.waiting.Some? && C.CanSend(p.node.ep.window, now)
    case SendMedia(payload, flags) => IsVideoPlane(payload) && !IsReliable(flags)
    case Other(e) => !e.SendData? && Possible(p.node, e, inbox)
  }

  /** The endpoint event behind an act, if any. */
  function Underlying(p: Peer, act: Act): Option<Event> {
    match act
    case Encrypt(_, _) => None
    case HandOver(now) => if p.waiting.Some? then Some(SendData(p.waiting.value, FLAG_RELIABLE, now)) else None
    case SendMedia(payload, flags) => Some(SendData(payload, flags, 0))
    case Other(e) => Some(e)
  }

  function NodeAfter(p: Peer, act: Act): Node {
    match Underlying(p, act)
    case Some(e) => After(p.node, e)
    case None => p.node
  }

  function Output(p: Peer, act: Act): set<Datagram> {
    match Underlying(p, act)
    case Some(e) => Emitted(p.node, e)
    case None => {}
  }

  function PeerAfter(a: Aead, p: Peer, act: Act): Peer {
    match act
    case Encrypt(inner, _) => p.(plain := p.plain + [inner], waiting := Some(a.seal(|p.plain|, inner)))
    case HandOver(_) => p.(node := NodeAfter(p, act), waiting := None)
    case _ => p.(node := NodeAfter(p, act))
  }

  // ---- two peers ----

  datatype System = System(x: Peer, y: Peer, toX: set<Datagram>, toY: set<Datagram>)

  datatype Move = MoveX(act: Act) | MoveY(act: Act) | DropToX(d: Datagram) | DropToY(d: Datagram)

  function Base(s: System): World {
    World(s.x.node, s.y.node, s.toX, s.toY)
  }

  ghost predicate Legal(s: System, move: Move) {
    match move
    case MoveX(act) => Permitted(s.x, act, s.toX)
    case MoveY(act) => Permitted(s.y, act, s.toY)
    case _ => true
  }

  /** ax seals what x sends, ay what y sends. */
  function Moved(ax: Aead, ay: Aead, s: System, move: Move): System {
    match move
    case MoveX(act) => s.(x := PeerAfter(ax, s.x, act), toY := s.toY + Output(s.x, act))
    case MoveY(act) => s.(y := PeerAfter(ay, s.y, act), toX := s.toX + Output(s.y, act))
    case DropToX(d) => s.(toX := s.toX - {d})
    case DropToY(d) => s.(toY := s.toY - {d})
  }

  ghost predicate CanMove(ax: Aead, ay: Aead, s: System, moves: seq<Move>)
    decreases |moves|
  {
    moves != [] ==> Legal(s, moves[0]) && CanMove(ax, ay, Moved(ax, ay, s, moves[0]), moves[1..])
  }

  function Play(ax: Aead, ay: Aead, s: System, moves: seq<Move>): System
    decreases |moves|
  {
    if moves == [] then s else Play(ax, ay, Moved(ax, ay, s, moves[0]), moves[1..])
  }

  function Opening(): System {
    System(Peer(Node(Initial(), []), [], None), Peer(Node(Initial(), []), [], None), {}, {})
  }

  // ---- the invariant ----

  /** No nonce is consumed without its packet: the accepted stream, followed by the one
      ciphertext under the lock, is plain sealed with nonces 0, 1, 2, ... in order. */
  predicate InNonceOrder(a: Aead, p: Peer) {
    && |p.plain| == |p.node.sent| + (if p.waiting.Some? then 1 else 0)
    && (forall i | 0 <= i < |p.node.sent| :: p.node.sent[i] == a.seal(i, p.plain[i]))
    && (p.waiting.Some? ==> p.waiting.value == a.seal(|p.plain| - 1, p.plain[|p.plain| - 1]))
  }

  /** A ciphertext under the lock fits and still finds the window open. */
  predicate WillBeAccepted(p: Peer) {
    p.waiting.Some? ==> |p.waiting.value| <= MAX_PAYLOAD && C.Open(p.node.ep.window)
  }

  predicate UnreliableIsMedia(ds: set<Datagram>) {
    forall d | d in ds && d.Data? && !IsReliable(d.flags) :: IsVideoPlane(d.payload)
  }

  predicate QueuedMedia(p: Peer) {
    forall i | 0 <= i < |p.node.ep.incoming| ::
      !p.node.ep.incoming[i].reliable ==> IsVideoPlane(p.node.ep.incoming[i].body)
  }

  predicate Tidy(a: Aead, p: Peer) {
    InNonceOrder(a, p) && WillBeAccepted(p) && QueuedMedia(p)
  }

  ghost predicate Secure(ax: Aead, ay: Aead, s: System) {
    && Inv(Base(s))
    && Tidy(ax, s.x) && Tidy(ay, s.y)
    && UnreliableIsMedia(s.toX) && UnreliableIsMedia(s.toY)
  }

  predicate InRange(s: System) {
    |s.x.plain| <= LIMIT && |s.y.plain| <= LIMIT
  }

  // ---- one act ----

  lemma ArrivalQueuesMedia(a: Aead, p: Peer, e: Event, inbox: set<Datagram>)
    requires QueuedMedia(p) && UnreliableIsMedia(inbox)
    requires e.Arrive? && e.d in inbox
    ensures QueuedMedia(p.(node := After(p.node, e)))
  {
    match e.d
    case Ack(_, _) =>
    case Data(flags, seqno, ack, payload) =>
      var s := HandleAck(p.node.ep, ack, 0, e.rtt);
      if IsReliable(flags) && seqno >= s.nextExpect {
        QueueAfterDrain(s.(recvBuf := s.recvBuf[seqno := payload]));
      }
  }

  lemma EncryptIsTidy(a: Aead, p: Peer, act: Act, inbox: set<Datagram>)
    requires Correct(a) && Tidy(a, p) && Permitted(p, act, inbox)
    requires act.Encrypt? && |p.plain| < LIMIT
    ensures Tidy(a, PeerAfter(a, p, act))
  {
  }

  lemma HandOverIsTidy(a: Aead, p: Peer, act: Act, inbox: set<Datagram>)
    requires Tidy(a, p) && Permitted(p, act, inbox)
    requires act.HandOver?
    ensures Tidy(a, PeerAfter(a, p, act))
  {
    assert Send(p.node.ep, p.waiting.value, FLAG_RELIABLE, act.now).1.Ok?;
  }

  lemma OtherIsTidy(a: Aead, p: Peer, act: Act, inbox: set<Datagram>)
    requires Tidy(a, p) && Permitted(p, act, inbox) && UnreliableIsMedia(inbox)
    requires Windowed(p.node) && p.node.ep.nextSeq !in p.node.ep.inflight
    requires act.Other? || act.SendMedia?
    ensures Tidy(a, PeerAfter(a, p, act))
  {
    var e := Underlying(p, act).value;
    if act.Other? {
      SentGrows(p.node, e);
      WindowStep(p.node, e);
      if e.Arrive? {
        ArrivalQueuesMedia(a, p, e, inbox);
      }
    }
  }

  lemma ActIsTidy(a: Aead, p: Peer, act: Act, inbox: set<Datagram>)
    requires Correct(a) && Tidy(a, p) && Permitted(p, act, inbox) && UnreliableIsMedia(inbox)
    requires Windowed(p.node) && p.node.ep.nextSeq !in p.node.ep.inflight
    requires |PeerAfter(a, p, act).plain| <= LIMIT
    ensures Tidy(a, PeerAfter(a, p, act))
  {
    match act
    case Encrypt(_, _) => EncryptIsTidy(a, p, act, inbox);
    case HandOver(_) => HandOverIsTidy(a, p, act, inbox);
    case _ => OtherIsTidy(a, p, act, inbox);
  }

  /** The reliable packets a direction has in flight carry the reliable flag. */
  lemma OutputIsMedia(s: Peer, r: Peer, chan: set<Datagram>, back: set<Datagram>, act: Act)
    requires Direction(s.node, r.node, chan, back)
    requires Permitted(s, act, back)
    ensures UnreliableIsMedia(Output(s, act))
  {
    match act
    case Other(e) =>
      if e.Expire? {
        forall d | d in Resent(s.node.ep, e.due) ensures NeedsReply(d) {
        }
      }
    case _ =>
  }

  lemma ActKeepsBase(s: System, act: Act)
    requires Inv(Base(s)) && Permitted(s.x, act, s.toX) && |NodeAfter(s.x, act).sent| <= LIMIT
    ensures Inv(World(NodeAfter(s.x, act), s.y.node, s.toX, s.toY + Output(s.x, act)))
  {
    match Underlying(s.x, act)
    case Some(e) => StepKeepsInv(Base(s), AtX(e));
    case None => assert s.toY + {} == s.toY;
  }

  function Flip(s: System): System {
    System(s.y, s.x, s.toY, s.toX)
  }

  lemma FlipSecure(ax: Aead, ay: Aead, s: System)
    requires Secure(ax, ay, s)
    ensures Secure(ay, ax, Flip(s))
  {
  }

  lemma XMoveKeepsSecure(ax: Aead, ay: Aead, s: System, act: Act)
    requires Correct(ax) && Secure(ax, ay, s)
    requires Permitted(s.x, act, s.toX) && InRange(Moved(ax, ay, s, MoveX(act)))
    ensures Secure(ax, ay, Moved(ax, ay, s, MoveX(act)))
  {
    hide Correct, Direction, Permitted, IsVideoPlane;
    InvFacts(Base(s));
    ActIsTidy(ax, s.x, act, s.toX);
    OutputIsMedia(s.x, s.y, s.toY, s.toX, act);
    ActKeepsBase(s, act);
  }

  lemma DropKeepsSecure(ax: Aead, ay: Aead, s: System, move: Move)
    requires Secure(ax, ay, s) && (move.DropToX? || move.DropToY?)
    ensures Secure(ax, ay, Moved(ax, ay, s, move))
  {
    StepKeepsInv(Base(s), if move.DropToX? then LoseToX(move.d) else LoseToY(move.d));
    hide Inv, Tidy, IsVideoPlane;
  }

  lemma MoveKeepsSecure(ax: Aead, ay: Aead, s: System, move: Move)
    requires Correct(ax) && Correct(ay) && Secure(ax, ay, s)
    requires Legal(s, move) && InRange(Moved(ax, ay, s, move))
    ensures Secure(ax, ay, Moved(ax, ay, s, move))
  {
    hide Correct, Secure, Permitted, PeerAfter, Output;
    match move
    case MoveX(act) => XMoveKeepsSecure(ax, ay, s, act);
    case MoveY(act) =>
      FlipSecure(ax, ay, s);
      XMoveKeepsSecure(ay, ax, Flip(s), act);
      FlipSecure(ay, ax, Moved(ay, ax, Flip(s), MoveX(act)));
    case _ => DropKeepsSecure(ax, ay, s, move);
  }

  lemma {:induction false} PlainGrows(ax: Aead, ay: Aead, s: System, moves: seq<Move>)
    ensures s.x.plain <= Play(ax, ay, s, moves).x.plain && s.y.plain <= Play(ax, ay, s, moves).y.plain
    decreases |moves|
  {
    if moves != [] {
      PlainGrows(ax, ay, Moved(ax, ay, s, moves[0]), moves[1..]);
    }
  }

  lemma {:induction false} PlayKeepsSecure(ax: Aead, ay: Aead, s: System, moves: seq<Move>)
    requires Correct(ax) && Correct(ay) && Secure(ax, ay, s)
    requires CanMove(ax, ay, s, moves) && InRange(Play(ax, ay, s, moves))
    ensures Secure(ax, ay, Play(ax, ay, s, moves))
    decreases |moves|
  {
    hide Secure, Correct, Moved, Legal;
    if moves != [] {
      PlainGrows(ax, ay, Moved(ax, ay, s, moves[0]), moves[1..]);
      MoveKeepsSecure(ax, ay, s, moves[0]);
      PlayKeepsSecure(ax, ay, Moved(ax, ay, s, moves[0]), moves[1..]);
    }
  }

  lemma OpeningIsSecure(ax: Aead, ay: Aead)
    ensures Secure(ax, ay, Opening())
  {
  }

  // ---- nonces always match ----

  lemma {:induction false} ReliablesPrefix(ds: seq<Delivery>, c: nat)
    requires c <= |ds|
    ensures Reliables(ds[..c]) <= Reliables(ds)
    decreases |ds|
  {
    if c < |ds| {
      assert Reliables(ds[..|ds| - 1]) <= Reliables(ds);
      hide Reliables;
      ReliablesPrefix(ds[..|ds| - 1], c);
      assert ds[..|ds| - 1][..c] == ds[..c];
    } else {
      assert ds[..c] == ds;
    }
  }

  /** However far the receive loop has read, it opened every ciphertext it met, in order. */
  lemma {:induction false} EveryReadOpens(a: Aead, s: Peer, ds: seq<Delivery>)
    requires Correct(a) && InNonceOrder(a, s) && |s.node.sent| <= LIMIT
    requires Reliables(ds) <= s.node.sent
    requires forall i | 0 <= i < |ds| :: !ds[i].reliable ==> IsVideoPlane(ds[i].body)
    ensures ReadAll(a, ds) == Reader(|Reliables(ds)|, s.plain[..|Reliables(ds)|], 0)
    decreases |ds|
  {
    if ds != [] {
      var before, last := ds[..|ds| - 1], ds[|ds| - 1];
      ReliablesPrefix(ds, |ds| - 1);
      EveryReadOpens(a, s, before);
      var n := |Reliables(before)|;
      if last.reliable {
        assert Reliables(ds)[n] == last.body;
        assert last.body == a.seal(n, s.plain[n]);
        assert s.plain[..n + 1] == s.plain[..n] + [s.plain[n]];
      }
    }
  }

  lemma SecureReads(a: Aead, s: Peer, r: Peer, chan: set<Datagram>, back: set<Datagram>, c: nat)
    requires Correct(a) && Tidy(a, s) && QueuedMedia(r)
    requires Direction(s.node, r.node, chan, back) && c <= |r.node.ep.incoming|
    ensures var read := ReadAll(a, r.node.ep.incoming[..c]);
            && read.failures == 0
            && read.texts <= s.plain
            && read.nonce == |read.texts| == |Reliables(r.node.ep.incoming[..c])|
  {
    ReliablesPrefix(r.node.ep.incoming, c);
    EveryReadOpens(a, s, r.node.ep.incoming[..c]);
  }

  /** Ordered Noise over REUDP: on every run of two peers that send reliably only through
      sendTunnel, at every point of either receive loop, no authentication has failed, the
      receive nonce equals the number of ciphertexts read, and the opened messages are a
      prefix of the messages the other side encrypted. */
  lemma NoncesAlwaysMatch(ax: Aead, ay: Aead, moves: seq<Move>, cx: nat, cy: nat)
    requires Correct(ax) && Correct(ay)
    requires CanMove(ax, ay, Opening(), moves) && InRange(Play(ax, ay, Opening(), moves))
    requires var s := Play(ax, ay, Opening(), moves);
             cx <= |s.x.node.ep.incoming| && cy <= |s.y.node.ep.incoming|
    ensures var s := Play(ax, ay, Opening(), moves);
            var atY := ReadAll(ax, s.y.node.ep.incoming[..cy]);
            var atX := ReadAll(ay, s.x.node.ep.incoming[..cx]);
            && atY.failures == 0 && atY.texts <= s.x.plain
            && atY.nonce == |Reliables(s.y.node.ep.incoming[..cy])|
            && atX.failures == 0 && atX.texts <= s.y.plain
            && atX.nonce == |Reliables(s.x.node.ep.incoming[..cx])|
  {
    OpeningIsSecure(ax, ay);
    PlayKeepsSecure(ax, ay, Opening(), moves);
    var s := Play(ax, ay, Opening(), moves);
    SecureReads(ax, s.x, s.y, s.toY, s.toX, cy);
    SecureReads(ay, s.y, s.x, s.toX, s.toY, cx);
  }

  /** A message encrypted under the lock is never refused: whatever arrived or expired since
      CanSend was checked, from MAX_PACE after the last send on SendReliable accepts it. */
  lemma EncryptedIsNeverRefused(ax: Aead, ay: Aead, moves: seq<Move>, now: nat)
    requires Correct(ax) && Correct(ay)
    requires CanMove(ax, ay, Opening(), moves) && InRange(Play(ax, ay, Opening(), moves))
    requires var p := Play(ax, ay, Opening(), moves).x;
             && p.waiting.Some?
             && (p.node.ep.window.lastSend.Some? ==> p.node.ep.window.lastSend.value + C.MAX_PACE <= now)
    ensures var p := Play(ax, ay, Opening(), moves).x;
            && Send(p.node.ep, p.waiting.value, FLAG_RELIABLE, now).1.Ok?
            && Permitted(p, HandOver(now), Play(ax, ay, Opening(), moves).toX)
  {
    OpeningIsSecure(ax, ay);
    PlayKeepsSecure(ax, ay, Opening(), moves);
    var s := Play(ax, ay, Opening(), moves);
    assert Windowed(s.x.node);
    C.PacingEnds(s.x.node.ep.window, now);
  }

  // ---- everything encrypted can be read ----

  /** The moves of a run of arrivals and retransmissions. */
  function QuietMoves(steps: seq<Step>): seq<Move>
    requires Quiet(steps)
  {
    if steps == [] then []
    else
      QuietSplits(steps);
      [if steps[0].AtX? then MoveX(Other(steps[0].e)) else MoveY(Other(steps[0].e))] + QuietMoves(steps[1..])
  }

  /** Two systems that differ at most in their endpoints. */
  predicate SameHistory(s: System, t: System) {
    && t.x.plain == s.x.plain && t.x.waiting == s.x.waiting
    && t.y.plain == s.y.plain && t.y.waiting == s.y.waiting
  }

  lemma QuietMove(ax: Aead, ay: Aead, s: System, step: Step)
    requires (step.AtX? || step.AtY?) && (step.e.Arrive? || step.e.Expire?) && Enabled(Base(s), step)
    ensures var move := if step.AtX? then MoveX(Other(step.e)) else MoveY(Other(step.e));
            && Legal(s, move) && SameHistory(s, Moved(ax, ay, s, move))
            && Base(Moved(ax, ay, s, move)) == Next(Base(s), step)
  {
    hide After, Emitted, Possible;
  }

  lemma {:induction false} QuietMovesPlay(ax: Aead, ay: Aead, s: System, steps: seq<Step>)
    requires CanRun(Base(s), steps) && Quiet(steps)
    ensures CanMove(ax, ay, s, QuietMoves(steps))
    ensures var t := Play(ax, ay, s, QuietMoves(steps)); Base(t) == Run(Base(s), steps) && SameHistory(s, t)
    decreases |steps|
  {
    if steps != [] {
      assert steps[0].e.Arrive? || steps[0].e.Expire?;
      QuietSplits(steps);
      QuietMove(ax, ay, s, steps[0]);
      var moves := QuietMoves(steps);
      assert moves[1..] == QuietMoves(steps[1..]);
      hide Legal, Moved, Base, Next, Enabled, Quiet;
      QuietMovesPlay(ax, ay, Moved(ax, ay, s, moves[0]), steps[1..]);
    }
  }

  lemma {:induction false} PlaysCompose(ax: Aead, ay: Aead, s: System, a: seq<Move>, b: seq<Move>)
    requires CanMove(ax, ay, s, a) && CanMove(ax, ay, Play(ax, ay, s, a), b)
    ensures CanMove(ax, ay, s, a + b) && Play(ax, ay, s, a + b) == Play(ax, ay, Play(ax, ay, s, a), b)
    decreases |a|
  {
    hide Legal, Moved;
    if a == [] {
      assert [] + b == b;
    } else {
      assert (a + b)[1..] == a[1..] + b;
      PlaysCompose(ax, ay, Moved(ax, ay, s, a[0]), a[1..], b);
    }
  }

  lemma OneMove(ax: Aead, ay: Aead, s: System, move: Move)
    requires Legal(s, move)
    ensures CanMove(ax, ay, s, [move]) && Play(ax, ay, s, [move]) == Moved(ax, ay, s, move)
  {
    assert [move][1..] == [];
    assert CanMove(ax, ay, Moved(ax, ay, s, move), []);
    hide Legal, Moved;
  }

  function LateEnough(p: Peer): nat {
    match p.node.ep.window.lastSend
    case None => 0
    case Some(t) => t + C.MAX_PACE
  }

  /** A ciphertext under x's lock can be handed over. */
  lemma HandOverAtX(ax: Aead, ay: Aead, s: System) returns (moves: seq<Move>)
    requires Correct(ax) && Secure(ax, ay, s) && InRange(s)
    ensures CanMove(ax, ay, s, moves)
    ensures var t := Play(ax, ay, s, moves);
            && Secure(ax, ay, t) && t.x.waiting.None?
            && t.x.plain == s.x.plain && t.y.plain == s.y.plain && t.y.waiting == s.y.waiting
  {
    if s.x.waiting.None? {
      moves := [];
    } else {
      var move := MoveX(HandOver(LateEnough(s.x)));
      C.PacingEnds(s.x.node.ep.window, LateEnough(s.x));
      assert Permitted(s.x, move.act, s.toX);
      assert InRange(Moved(ax, ay, s, move));
      hide Secure, Correct, Direction;
      XMoveKeepsSecure(ax, ay, s, move.act);
      OneMove(ax, ay, s, move);
      moves := [move];
    }
  }

  function FlipMove(move: Move): Move {
    match move
    case MoveX(act) => MoveY(act)
    case MoveY(act) => MoveX(act)
    case DropToX(d) => DropToY(d)
    case DropToY(d) => DropToX(d)
  }

  function FlipMoves(moves: seq<Move>): seq<Move> {
    if moves == [] then [] else [FlipMove(moves[0])] + FlipMoves(moves[1..])
  }

  lemma {:induction false} FlipPlays(ax: Aead, ay: Aead, s: System, moves: seq<Move>)
    requires CanMove(ax, ay, s, moves)
    ensures CanMove(ay, ax, Flip(s), FlipMoves(moves))
    ensures Play(ay, ax, Flip(s), FlipMoves(moves)) == Flip(Play(ax, ay, s, moves))
    decreases |moves|
  {
    if moves != [] {
      assert Moved(ay, ax, Flip(s), FlipMove(moves[0])) == Flip(Moved(ax, ay, s, moves[0]));
      assert Legal(Flip(s), FlipMove(moves[0]));
      hide Legal, Moved, Flip, FlipMove;
      FlipPlays(ax, ay, Moved(ax, ay, s, moves[0]), moves[1..]);
      assert FlipMoves(moves)[1..] == FlipMoves(moves[1..]);
    }
  }

  lemma HandOverBoth(ax: Aead, ay: Aead, s: System) returns (moves: seq<Move>)
    requires Correct(ax) && Correct(ay) && Secure(ax, ay, s) && InRange(s)
    ensures CanMove(ax, ay, s, moves)
    ensures var t := Play(ax, ay, s, moves);
            && Secure(ax, ay, t) && t.x.waiting.None? && t.y.waiting.None?
            && t.x.plain == s.x.plain && t.y.plain == s.y.plain
  {
    var first := HandOverAtX(ax, ay, s);
    var u := Play(ax, ay, s, first);
    FlipSecure(ax, ay, u);
    var flipped := HandOverAtX(ay, ax, Flip(u));
    FlipPlays(ay, ax, Flip(u), flipped);
    assert Flip(Flip(u)) == u;
    FlipSecure(ay, ax, Play(ay, ax, Flip(u), flipped));
    hide Secure, Play, CanMove, Correct;
    PlaysCompose(ax, ay, s, first, FlipMoves(flipped));
    moves := first + FlipMoves(flipped);
  }

  lemma AllIsRead(a: Aead, s: Peer, r: Peer, chan: set<Datagram>, back: set<Datagram>)
    requires Correct(a) && Tidy(a, s) && QueuedMedia(r) && Direction(s.node, r.node, chan, back)
    requires s.waiting.None? && Got(r.node) == s.node.sent
    ensures ReadAll(a, r.node.ep.incoming) == Reader(|s.plain|, s.plain, 0)
  {
    var ds := r.node.ep.incoming;
    SecureReads(a, s, r, chan, back, |ds|);
    assert ds[..|ds|] == ds;
  }

  lemma SecureIsRead(ax: Aead, ay: Aead, t: System)
    requires Correct(ax) && Correct(ay) && Secure(ax, ay, t)
    requires t.x.waiting.None? && t.y.waiting.None? && Finished(Base(t))
    ensures ReadAll(ax, t.y.node.ep.incoming) == Reader(|t.x.plain|, t.x.plain, 0)
    ensures ReadAll(ay, t.x.node.ep.incoming) == Reader(|t.y.plain|, t.y.plain, 0)
  {
    FinishedIsDelivered(Base(t));
    hide Correct, Finished;
    AllIsRead(ax, t.x, t.y, t.toY, t.toX);
    AllIsRead(ay, t.y, t.x, t.toX, t.toY);
  }

  /** From every reachable state some continuation, without loss and without a new message,
      lets both receive loops open every message encrypted so far. */
  lemma ChannelCanFinish(ax: Aead, ay: Aead, history: seq<Move>) returns (moves: seq<Move>)
    requires Correct(ax) && Correct(ay)
    requires CanMove(ax, ay, Opening(), history) && InRange(Play(ax, ay, Opening(), history))
    ensures var s := Play(ax, ay, Opening(), history);
            && CanMove(ax, ay, s, moves)
            && var t := Play(ax, ay, s, moves);
            && t.x.plain == s.x.plain && t.y.plain == s.y.plain
            && ReadAll(ax, t.y.node.ep.incoming) == Reader(|s.x.plain|, s.x.plain, 0)
            && ReadAll(ay, t.x.node.ep.incoming) == Reader(|s.y.plain|, s.y.plain, 0)
  {
    OpeningIsSecure(ax, ay);
    PlayKeepsSecure(ax, ay, Opening(), history);
    var s := Play(ax, ay, Opening(), history);
    var first := HandOverBoth(ax, ay, s);
    var u := Play(ax, ay, s, first);
    assert Inv(Base(u));
    hide Secure, Play, CanMove, Correct, Inv, ReadAll, Run, CanRun, Base;
    var steps := FinishBothWays(Base(u));
    QuietMovesPlay(ax, ay, u, steps);
    PlayKeepsSecure(ax, ay, u, QuietMoves(steps));
    SecureIsRead(ax, ay, Play(ax, ay, u, QuietMoves(steps)));
    PlaysCompose(ax, ay, s, first, QuietMoves(steps));
    moves := first + QuietMoves(steps);
  }

  // ---- why the checks come before Encrypt ----

  /** If a nonce is ever skipped the channel is lost for good: once the expected nonce is
      behind every nonce still to come, nothing further opens, however many arrive. */
  lemma {:induction false} SkippedNonceIsFatal(a: Aead, ds: seq<Delivery>, more: seq<Delivery>,
                                               nonces: seq<nat>, plains: seq<bytes>)
    requires Correct(a)
    requires |nonces| == |plains| == |more|
    requires ReadAll(a, ds).nonce < MAX_NONCE
    requires forall i | 0 <= i < |more| ::
               && ReadAll(a, ds).nonce < nonces[i] < MAX_NONCE
               && more[i].body == a.seal(nonces[i], plains[i])
    ensures var before, after := ReadAll(a, ds), ReadAll(a, ds + more);
            && after.texts == before.texts && after.nonce == before.nonce
            && after.failures == before.failures + |more|
    decreases |more|
  {
    if more == [] {
      assert ds + more == ds;
    } else {
      var n := |more| - 1;
      SkippedNonceIsFatal(a, ds, more[..n], nonces[..n], plains[..n]);
      assert (ds + more)[..|ds + more| - 1] == ds + more[..n];
      assert (ds + more)[|ds + more| - 1] == more[n];
      assert a.open(ReadAll(a, ds).nonce, a.seal(nonces[n], plains[n])) == None;
    }
  }
}
