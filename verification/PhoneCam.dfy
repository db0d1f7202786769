/** The phone camera: its binary parts (internal/re2/phonecam.go) and the reassembly state of
    the agent (cmd/agent/peripherals.go). */
module PhoneCam {
  import opened Words
  import opened BigEndian
  import FrameCodec
  import R = Reudp
  import Tunnel
  import Video

  // ---- one part on the wire ----

  const MAGIC0: byte := 0x50
  const MAGIC1: byte := 0x31

  datatype Part = Part(sessionID: bytes, frameID: uint32, flags: byte, part: uint16, parts: uint16,
                       width: int, height: int, codec: byte, raw: bytes)

  function Side(v: int): uint16 {
    if v < 0 then 0 else if v > 0xffff then 0xffff else v
  }

  /** The fixed fields behind the session id, then the raw bytes. */
  function Tail(p: Part): bytes {
    U32(p.frameID) + ([p.flags] + (U16(p.part) + (U16(p.parts)
    + (U16(Side(p.width)) + (U16(Side(p.height)) + ([p.codec] + p.raw))))))
  }

  function Body(p: Part): bytes {
    var sid := Video.ShortID(p.sessionID);
    [MAGIC0, MAGIC1, |sid| as byte] + (sid + Tail(p))
  }

  method EncodePhoneCam(p: Part) returns (out: array<byte>)
    ensures fresh(out) && out[..] == Body(p)
  {
    var sid := Video.ShortID(p.sessionID);
    out := new byte[2 + 1 + |sid| + 4 + 1 + 2 + 2 + 2 + 2 + 1 + |p.raw|](i => 0);
    out[0], out[1], out[2] := MAGIC0, MAGIC1, |sid|;
    hide U32, U16, Side;
    ghost var picture := U16(Side(p.width)) + (U16(Side(p.height)) + ([p.codec] + p.raw));
    ghost var done := [MAGIC0, MAGIC1, |sid| as byte];
    Put(out, 3, sid, done, Tail(p));
    done := done + sid;
    var o := 3 + |sid|;
    Put(out, o, U32(p.frameID), done, [p.flags] + (U16(p.part) + (U16(p.parts) + picture)));
    done := done + U32(p.frameID);
    o := o + 4;
    Put(out, o, [p.flags], done, U16(p.part) + (U16(p.parts) + picture));
    done := done + [p.flags];
    o := o + 1;
    Put(out, o, U16(p.part), done, U16(p.parts) + picture);
    done := done + U16(p.part);
    o := o + 2;
    Put(out, o, U16(p.parts), done, picture);
    done := done + U16(p.parts);
    o := o + 2;
    PutPicture(out, o, p, done);
  }

  method PutPicture(out: array<byte>, at: nat, p: Part, ghost before: bytes)
    requires out.Length == at + 5 + |p.raw| && out[..at] == before
    modifies out
    ensures out[..] == before + (U16(Side(p.width)) + (U16(Side(p.height)) + ([p.codec] + p.raw)))
  {
    hide U16, Side;
    var o := at;
    ghost var done := before;
    ghost var last := [p.codec] + p.raw;
    Put(out, o, U16(Side(p.width)), done, U16(Side(p.height)) + last);
    done := done + U16(Side(p.width));
    o := o + 2;
    Put(out, o, U16(Side(p.height)), done, last);
    done := done + U16(Side(p.height));
    o := o + 2;
    Put(out, o, [p.codec], done, p.raw);
    done := done + [p.codec];
    o := o + 1;
    Put(out, o, p.raw, done, []);
    assert out[..] == out[..o + |p.raw|];
  }

  predicate IsPhoneCamBinary(body: bytes) {
    |body| >= 2 && body[0] == MAGIC0 && body[1] == MAGIC1
  }

  function DecodePhoneCam(body: bytes): Option<Part> {
    if !IsPhoneCamBinary(body) || |body| < 3 then None
    else
      var n := body[2] as int;
      if |body| < 3 + n + 4 + 1 + 2 + 2 + 2 + 2 + 1 then None
      else
        var b := body[3 + n..];
        Some(Part(body[3..3 + n], Get32(b), b[4], Get16(b[5..]), Get16(b[7..]), Get16(b[9..]), Get16(b[11..]), b[13],
                  b[14..]))
  }

  lemma Offsets(id: bytes, flags: byte, part: bytes, parts: bytes, w: bytes, h: bytes, codec: byte, raw: bytes)
    requires |id| == 4 && |part| == |parts| == |w| == |h| == 2
    ensures var b := id + ([flags] + (part + (parts + (w + (h + ([codec] + raw))))));
            && b[4] == flags && b[5..] == part + (parts + (w + (h + ([codec] + raw))))
            && b[7..] == parts + (w + (h + ([codec] + raw)))
            && b[9..] == w + (h + ([codec] + raw))
            && b[11..] == h + ([codec] + raw)
            && b[13] == codec && b[14..] == raw
  {
  }

  lemma TailFields(p: Part)
    ensures var b := Tail(p);
            && |b| == 14 + |p.raw| && Get32(b) == p.frameID && b[4] == p.flags
            && Get16(b[5..]) == p.part && Get16(b[7..]) == p.parts
            && Get16(b[9..]) == Side(p.width) && Get16(b[11..]) == Side(p.height)
            && b[13] == p.codec && b[14..] == p.raw
  {
    hide U32, U16, Get32, Get16, Side;
    var c4 := [p.codec] + p.raw;
    var c3 := U16(Side(p.height)) + c4;
    var c2 := U16(Side(p.width)) + c3;
    var c1 := U16(p.parts) + c2;
    Offsets(U32(p.frameID), p.flags, U16(p.part), U16(p.parts), U16(Side(p.width)), U16(Side(p.height)), p.codec, p.raw);
    Read32(p.frameID, [p.flags] + (U16(p.part) + c1));
    Read16(p.part, c1);
    Read16(p.parts, c2);
    Read16(Side(p.width), c3);
    Read16(Side(p.height), c4);
  }

  /** What the phone packs is what the agent unpacks: only an over-long session id is cut and
      the two sides clamped to 16 bits. */
  lemma PartRoundTrip(p: Part)
    ensures IsPhoneCamBinary(Body(p))
    ensures DecodePhoneCam(Body(p))
         == Some(p.(sessionID := Video.ShortID(p.sessionID), width := Side(p.width), height := Side(p.height)))
  {
    TailFields(p);
    hide Tail, Get32, Get16, Side;
    var sid := Video.ShortID(p.sessionID);
    var body := Body(p);
    assert body[3..3 + |sid|] == sid && body[3 + |sid|..] == Tail(p);
  }

  /** Exactly the buffers with the magic that hold all fields are accepted, and each is the image
      of what is read off it. */
  lemma AcceptedIsABody(b: bytes)
    ensures DecodePhoneCam(b).Some? <==> |b| >= 3 && b[..2] == [0x50, 0x31] && |b| >= 17 + b[2] as int
    ensures DecodePhoneCam(b).Some? ==> Body(DecodePhoneCam(b).value) == b
  {
    if |b| >= 2 {
      assert b[..2] == [b[0], b[1]];
    }
    if DecodePhoneCam(b).Some? {
      DecodedIsImage(b, DecodePhoneCam(b).value);
    }
    hide Get32, Get16, Body;
  }

  lemma DecodedIsImage(b: bytes, p: Part)
    requires DecodePhoneCam(b) == Some(p)
    ensures Body(p) == b
  {
    var n := b[2] as int;
    var c := b[3 + n..];
    TailOf(c, p);
    assert p.sessionID == b[3..3 + n] && |p.sessionID| == n && b[0] == MAGIC0 && b[1] == MAGIC1;
    hide DecodePhoneCam, Tail, Get32, Get16;
    ThreeThen(b, n);
  }

  lemma ThreeThen(b: bytes, n: nat)
    requires 3 + n <= |b|
    ensures b == [b[0], b[1], b[2]] + (b[3..3 + n] + b[3 + n..])
  {
  }

  lemma BehindThree(x: byte, y: byte, z: byte, sid: bytes, c: bytes)
    ensures var b := [x, y, z] + (sid + c);
            && b[..2] == [x, y] && b[2] == z && b[3..3 + |sid|] == sid && b[3 + |sid|..] == c
  {
  }

  lemma TailOf(c: bytes, p: Part)
    requires |c| >= 14
    requires p == p.(frameID := Get32(c), flags := c[4], part := Get16(c[5..]), parts := Get16(c[7..]),
                     width := Get16(c[9..]), height := Get16(c[11..]), codec := c[13], raw := c[14..])
    ensures Tail(p) == c
  {
    FrameCodec.WriteFirst(c);
    forall i | i in {5, 7, 9, 11} ensures U16(Get16(c[i..])) == c[i..i + 2] {
      Write16(c[i..i + 2]);
      Video.GetFirst(c[i..]);
      assert c[i..][..2] == c[i..i + 2];
    }
    hide U32, U16, Get32, Get16;
    assert c[11..] == c[11..13] + ([c[13]] + c[14..]);
    assert c[7..] == c[7..9] + (c[9..11] + c[11..]);
    assert c == c[..4] + ([c[4]] + (c[5..7] + c[7..]));
  }

  /** Where the fields lie. */
  lemma BodyLayout(p: Part)
    requires |p.sessionID| <= 255
    ensures var b, n := Body(p), |p.sessionID|;
            && b[..2] == [0x50, 0x31] && b[2] as int == n && b[3..3 + n] == p.sessionID
            && b[3 + n..7 + n] == U32(p.frameID) && b[7 + n] == p.flags
            && b[8 + n..10 + n] == U16(p.part) && b[10 + n..12 + n] == U16(p.parts)
            && b[12 + n..14 + n] == U16(Side(p.width)) && b[14 + n..16 + n] == U16(Side(p.height))
            && b[16 + n] == p.codec && b[17 + n..] == p.raw
  {
    var b, n, c := Body(p), |p.sessionID|, Tail(p);
    TailLayout(p);
    hide Tail, U32, U16, Side;
    BehindThree(0x50, 0x31, n, p.sessionID, c);
    assert b == [0x50, 0x31, n as byte] + (p.sessionID + c);
    hide Body;
    Video.Subslice(b, 3 + n, 0, 4);
    Video.Subslice(b, 3 + n, 5, 7);
    Video.Subslice(b, 3 + n, 7, 9);
    Video.Subslice(b, 3 + n, 9, 11);
    Video.Subslice(b, 3 + n, 11, 13);
    assert b[3 + n..][14..] == b[17 + n..];
  }

  lemma TailLayout(p: Part)
    ensures var c := Tail(p);
            && |c| >= 14 && c[..4] == U32(p.frameID) && c[4] == p.flags
            && c[5..7] == U16(p.part) && c[7..9] == U16(p.parts)
            && c[9..11] == U16(Side(p.width)) && c[11..13] == U16(Side(p.height)) && c[13] == p.codec && c[14..] == p.raw
  {
    hide U32, U16, Side;
    var c := Tail(p);
    Offsets(U32(p.frameID), p.flags, U16(p.part), U16(p.parts), U16(Side(p.width)), U16(Side(p.height)), p.codec, p.raw);
    hide Tail;
    assert c[5..7] == c[5..][..2] && c[7..9] == c[7..][..2] && c[9..11] == c[9..][..2] && c[11..13] == c[11..][..2];
  }

  /** PhoneCamChunkSize. */
  function ChunkSize(sessionID: bytes): int {
    var sid := if |sessionID| > 255 then 255 else |sessionID|;
    var hdr := 30 + 5 + 2 + 1 + sid + 4 + 1 + 2 + 2 + 2 + 2 + 1;
    if R.MAX_PAYLOAD - hdr < 64 then 64 else R.MAX_PAYLOAD - hdr
  }

  /** A part with as many raw bytes as ChunkSize allows fits one sealed datagram, and one byte
      more does not. */
  lemma ChunkSizeIsTight(p: Part)
    ensures |p.raw| <= ChunkSize(p.sessionID)
       <==> |FrameCodec.Inner(0, Body(p))| + Tunnel.VIDEO_OVERHEAD <= R.MAX_PAYLOAD
  {
    hide Side;
    assert |Tail(p)| == 14 + |p.raw|;
    hide Tail;
    assert |Body(p)| == 17 + |Video.ShortID(p.sessionID)| + |p.raw|;
  }

  // ---- reassembly ----

  /** A part as handlePhoneCamFrame sees it, from either encoding, with parts at least 1. */
  datatype Arrival = Arrival(frameID: uint32, part: int, parts: int, key: bool, raw: bytes)

  /** Binary bodies that do not parse, or carry no bytes, are dropped. */
  function FromBinary(body: bytes): Option<Arrival> {
    match DecodePhoneCam(body)
    case None => None
    case Some(p) =>
      if |p.raw| == 0 then None
      else Some(Arrival(p.frameID, p.part, if p.parts <= 0 then 1 else p.parts, p.flags % 2 == 1, p.raw))
  }

  /** held is None while the parts map is nil. */
  datatype State = State(open: bool, frameID: uint32, held: Option<map<int, bytes>>, expected: int, frameKey: bool)

  const IDLE := State(true, 0, None, 0, false)

  /** NilMap: the part would be stored into a map that does not exist. */
  datatype Outcome = Ignored | Waiting | Emitted(frame: bytes, key: bool) | NilMap

  predicate AllHeld(held: map<int, bytes>, n: int) {
    forall i | 0 <= i < n :: i in held
  }

  /** The parts 0..n-1 in index order. */
  function Joined(held: map<int, bytes>, n: int): bytes
    requires AllHeld(held, n)
    decreases if n < 0 then 0 else n
  {
    if n <= 0 then [] else Joined(held, n - 1) + held[n - 1]
  }

  function Target(s: State, a: Arrival): State {
    if s.frameID != a.frameID then State(s.open, a.frameID, Some(map[]), a.parts, a.key && a.part == 0) else s
  }

  /** Emits what is held if it is complete. */
  function Settle(s: State): (State, Outcome)
    requires s.held.Some?
  {
    if |s.held.value| < s.expected || !AllHeld(s.held.value, s.expected) then (s, Waiting)
    else (IDLE, Emitted(Joined(s.held.value, s.expected), s.frameKey))
  }

  function Feed(s: State, a: Arrival): (State, Outcome) {
    if !s.open then (s, Ignored)
    else if a.parts <= 1 then (s, Emitted(a.raw, a.key))
    else
      var t := Target(s, a);
      var u := t.(frameKey := t.frameKey || (a.part == 0 && a.key));
      if u.held.None? then (u, NilMap) else Settle(u.(held := Some(u.held.value[a.part := a.raw])))
  }

  class Assembly {
    var open: bool
    var frameID: uint32
    var held: Option<map<int, bytes>>
    var expected: int
    var frameKey: bool

    function Current(): State
      reads this
    {
      State(open, frameID, held, expected, frameKey)
    }

    constructor ()
      ensures Current() == IDLE
    {
      open, frameID, held, expected, frameKey := true, 0, None, 0, false;
    }

    method AddPart(a: Arrival) returns (o: Outcome)
      modifies this
      ensures Feed(old(Current()), a) == (Current(), o)
    {
      if !open {
        return Ignored;
      }
      if a.parts <= 1 {
        return Emitted(a.raw, a.key);
      }
      if frameID != a.frameID {
        frameID := a.frameID;
        held := Some(map[]);
        expected := a.parts;
        frameKey := a.key && a.part == 0;
      }
      if a.part == 0 && a.key {
        frameKey := true;
      }
      if held.None? {
        return NilMap;
      }
      held := Some(held.value[a.part := a.raw]);
      if |held.value| < expected {
        return Waiting;
      }
      var assembled: bytes := [];
      var i := 0;
      while i < expected
        invariant 0 <= i && (i <= expected || i == 0)
        invariant AllHeld(held.value, i) && assembled == Joined(held.value, i)
      {
        if i !in held.value {
          return Waiting;
        }
        assembled := assembled + held.value[i];
        i := i + 1;
      }
      assert expected <= 0 ==> Joined(held.value, expected) == [];
      var key := frameKey;
      held, frameID, expected, frameKey := None, 0, 0, false;
      return Emitted(assembled, key);
    }
  }

  // ---- no frame is spliced from two ----

  datatype Frame = Frame(pieces: seq<bytes>, key: bool)

  function Flat(pieces: seq<bytes>): bytes {
    if pieces == [] then [] else Flat(pieces[..|pieces| - 1]) + pieces[|pieces| - 1]
  }

  /** A part of one of the phone's frames; only part 0 says whether the frame is a key frame. */
  predicate PartOf(a: Arrival, frames: map<uint32, Frame>) {
    && a.frameID != 0 && a.frameID in frames
    && var f := frames[a.frameID];
       && a.parts == |f.pieces| > 1 && 0 <= a.part < a.parts
       && a.raw == f.pieces[a.part]
       && (a.part == 0 ==> a.key == f.key)
  }

  /** Either a frame in one part, or a part of a frame of the phone. */
  predicate Genuine(a: Arrival, frames: map<uint32, Frame>) {
    a.parts <= 1 || PartOf(a, frames)
  }

  /** What is held belongs to one frame. */
  ghost predicate Filling(s: State, frames: map<uint32, Frame>) {
    && s.open && s.frameID != 0 && s.frameID in frames && s.held.Some?
    && var f := frames[s.frameID];
       && s.expected == |f.pieces| > 1
       && (forall i | i in s.held.value :: 0 <= i < |f.pieces| && s.held.value[i] == f.pieces[i])
       && s.frameKey == (0 in s.held.value && f.key)
  }

  /** Between two parts: nothing, or one frame that still lacks a part. */
  ghost predicate OneFrame(s: State, frames: map<uint32, Frame>) {
    s == IDLE || (Filling(s, frames) && !Covers(s.held.value.Keys, |frames[s.frameID].pieces|))
  }

  predicate Covers(indices: set<int>, n: int) {
    forall i | 0 <= i < n :: i in indices
  }

  lemma {:induction false} JoinedIsFlat(held: map<int, bytes>, pieces: seq<bytes>, n: nat)
    requires n <= |pieces| && AllHeld(held, n) && forall i | 0 <= i < n :: held[i] == pieces[i]
    ensures Joined(held, n) == Flat(pieces[..n])
  {
    if n > 0 {
      JoinedIsFlat(held, pieces, n - 1);
      assert pieces[..n][..n - 1] == pieces[..n - 1];
    }
  }

  lemma {:induction false} HeldEnough(keys: set<int>, n: nat)
    requires forall i | 0 <= i < n :: i in keys
    ensures |keys| >= n
  {
    if n > 0 {
      HeldEnough(keys - {n - 1}, n - 1);
    }
  }

  /** What may come out: a one-part frame as it is, or all the parts of one frame in order,
      with the key flag of its part 0. */
  ghost predicate Whole(o: Outcome, a: Arrival, frames: map<uint32, Frame>) {
    match o
    case Emitted(frame, key) =>
      if a.parts <= 1 then frame == a.raw && key == a.key
      else a.frameID in frames && frame == Flat(frames[a.frameID].pieces) && key == frames[a.frameID].key
    case Waiting => a.parts > 1
    case Ignored => false
    case NilMap => false
  }

  /** The parts held of frame id, after the state has switched to it. */
  function HeldOf(s: State, id: uint32): set<int> {
    if s.frameID == id && s.held.Some? then s.held.value.Keys else {}
  }

  lemma SettlesWhole(s: State, frames: map<uint32, Frame>)
    requires Filling(s, frames)
    ensures var f := frames[s.frameID];
            Settle(s) == if Covers(s.held.value.Keys, |f.pieces|) then (IDLE, Emitted(Flat(f.pieces), f.key))
                         else (s, Waiting)
  {
    var f, held := frames[s.frameID], s.held.value;
    assert AllHeld(held, |f.pieces|) <==> Covers(held.Keys, |f.pieces|);
    if AllHeld(held, |f.pieces|) {
      HeldEnough(held.Keys, |f.pieces|);
      assert |held| == |held.Keys|;
      JoinedIsFlat(held, f.pieces, |f.pieces|);
      assert f.pieces[..|f.pieces|] == f.pieces;
      assert 0 in held;
    }
    hide Joined, Flat;
  }

  /** A part of frame id is added to what is held of it; the frame comes out, whole and with
      the key flag of its part 0, exactly when that completes it. */
  lemma PartOfFrame(s: State, a: Arrival, id: uint32, frames: map<uint32, Frame>)
    requires OneFrame(s, frames) && PartOf(a, frames) && a.frameID == id
    ensures var (t, o) := Feed(s, a);
            if Covers(HeldOf(s, id) + {a.part}, |frames[id].pieces|)
            then t == IDLE && o == Emitted(Flat(frames[id].pieces), frames[id].key)
            else o == Waiting && OneFrame(t, frames) && HeldOf(t, id) == HeldOf(s, id) + {a.part}
  {
    var t := Target(s, a);
    var u := t.(frameKey := t.frameKey || (a.part == 0 && a.key), held := Some(t.held.value[a.part := a.raw]));
    assert Feed(s, a) == Settle(u);
    assert u.held.value.Keys == HeldOf(s, id) + {a.part};
    assert Filling(u, frames);
    SettlesWhole(u, frames);
    hide Feed, Settle, Flat, Covers;
  }

  lemma FeedKeepsFramesApart(s: State, a: Arrival, frames: map<uint32, Frame>)
    requires OneFrame(s, frames) && Genuine(a, frames)
    ensures OneFrame(Feed(s, a).0, frames) && Whole(Feed(s, a).1, a, frames)
    ensures a.parts <= 1 ==> Feed(s, a).0 == s
  {
    if a.parts > 1 {
      PartOfFrame(s, a, a.frameID, frames);
      hide Feed, Flat, Covers, HeldOf;
    }
  }

  function FeedAll(s: State, arrivals: seq<Arrival>): (State, seq<Outcome>)
    decreases |arrivals|
  {
    if arrivals == [] then (s, [])
    else
      var (t, o) := Feed(s, arrivals[0]);
      var (u, os) := FeedAll(t, arrivals[1..]);
      (u, [o] + os)
  }

  /** Without a camera session every part is dropped. */
  lemma {:induction false} ClosedIgnoresAll(s: State, arrivals: seq<Arrival>)
    requires !s.open
    ensures FeedAll(s, arrivals).0 == s && forall o | o in FeedAll(s, arrivals).1 :: o == Ignored
    decreases |arrivals|
  {
    if arrivals != [] {
      ClosedIgnoresAll(s, arrivals[1..]);
    }
  }

  /** Reassembly never splices: parts may be lost, repeated, reordered and interleaved with
      those of other frames at will, every frame emitted is one the phone sent, whole. */
  lemma {:induction false} NeverSplices(s: State, arrivals: seq<Arrival>, frames: map<uint32, Frame>)
    requires OneFrame(s, frames) && forall a | a in arrivals :: Genuine(a, frames)
    ensures var (t, os) := FeedAll(s, arrivals);
            && OneFrame(t, frames) && |os| == |arrivals|
            && forall i | 0 <= i < |os| :: Whole(os[i], arrivals[i], frames)
    decreases |arrivals|
  {
    if arrivals != [] {
      var a := arrivals[0];
      assert Genuine(a, frames);
      FeedKeepsFramesApart(s, a, frames);
      var t := Feed(s, a).0;
      NeverSplices(t, arrivals[1..], frames);
      hide Feed, Whole, OneFrame, Genuine;
      var os := FeedAll(t, arrivals[1..]).1;
      assert FeedAll(s, arrivals).1 == [Feed(s, a).1] + os;
      forall i | 0 <= i < |arrivals|
        ensures Whole(FeedAll(s, arrivals).1[i], arrivals[i], frames)
      {
        if i > 0 {
          assert FeedAll(s, arrivals).1[i] == os[i - 1] && arrivals[i] == arrivals[1..][i - 1];
        }
      }
    }
  }

  // ---- the same on the wire ----

  function ArrivalOf(p: Part): Arrival {
    Arrival(p.frameID, p.part, if p.parts <= 0 then 1 else p.parts, p.flags % 2 == 1, p.raw)
  }

  /** What the agent makes of a body is the part that was packed; an empty one is dropped. */
  lemma FromBinaryOfBody(p: Part)
    ensures FromBinary(Body(p)) == if |p.raw| == 0 then None else Some(ArrivalOf(p))
  {
    PartRoundTrip(p);
    hide Body, DecodePhoneCam;
  }

  function Bodies(parts: seq<Part>): seq<bytes> {
    if parts == [] then [] else [Body(parts[0])] + Bodies(parts[1..])
  }

  function ArrivalsOf(parts: seq<Part>): seq<Arrival> {
    if parts == [] then []
    else (if |parts[0].raw| == 0 then [] else [ArrivalOf(parts[0])]) + ArrivalsOf(parts[1..])
  }

  function Parsed(bodies: seq<bytes>): seq<Arrival> {
    if bodies == [] then []
    else
      match FromBinary(bodies[0])
      case None => Parsed(bodies[1..])
      case Some(a) => [a] + Parsed(bodies[1..])
  }

  lemma {:induction false} BodiesParse(parts: seq<Part>)
    ensures Parsed(Bodies(parts)) == ArrivalsOf(parts)
    decreases |parts|
  {
    hide Body, FromBinary;
    if parts != [] {
      FromBinaryOfBody(parts[0]);
      BodiesParse(parts[1..]);
      assert Bodies(parts)[1..] == Bodies(parts[1..]);
    }
  }

  lemma {:induction false} ArrivalsAreGenuine(parts: seq<Part>, frames: map<uint32, Frame>)
    requires forall i | 0 <= i < |parts| :: |parts[i].raw| == 0 || Genuine(ArrivalOf(parts[i]), frames)
    ensures forall a | a in ArrivalsOf(parts) :: Genuine(a, frames)
    decreases |parts|
  {
    hide Genuine, ArrivalOf;
    if parts != [] {
      assert forall i | 0 <= i < |parts[1..]| :: parts[1..][i] == parts[i + 1];
      ArrivalsAreGenuine(parts[1..], frames);
    }
  }

  /** From the bytes of the packed parts, in any selection, order and number: no frame is
      spliced. */
  lemma NeverSplicesOnTheWire(s: State, parts: seq<Part>, frames: map<uint32, Frame>)
    requires OneFrame(s, frames)
    requires forall i | 0 <= i < |parts| :: |parts[i].raw| == 0 || Genuine(ArrivalOf(parts[i]), frames)
    ensures var arrivals := Parsed(Bodies(parts));
            var os := FeedAll(s, arrivals).1;
            && arrivals == ArrivalsOf(parts) && |os| == |arrivals|
            && forall i | 0 <= i < |os| :: Whole(os[i], arrivals[i], frames)
  {
    BodiesParse(parts);
    ArrivalsAreGenuine(parts, frames);
    hide Parsed, Bodies, ArrivalsOf, ArrivalOf, OneFrame, Whole, Genuine, FeedAll;
    NeverSplices(s, ArrivalsOf(parts), frames);
  }

  /** Starting from the indices got, the last arrival is the one that completes n parts. */
  predicate LastCompletes(got: set<int>, arrivals: seq<Arrival>, n: int)
    requires arrivals != []
    decreases |arrivals|
  {
    var now := got + {arrivals[0].part};
    if |arrivals| == 1 then Covers(now, n) else !Covers(now, n) && LastCompletes(now, arrivals[1..], n)
  }

  predicate WaitsThen(os: seq<Outcome>, last: Outcome)
    decreases |os|
  {
    os != [] && if |os| == 1 then os[0] == last else os[0] == Waiting && WaitsThen(os[1..], last)
  }

  /** And it does finish: once the parts of one frame arrive without another multi-part frame
      between them, in any order and any number of times, the frame comes out with the part
      that completes it, not before. */
  lemma {:induction false} UndisturbedFrameCompletes(s: State, arrivals: seq<Arrival>, id: uint32,
                                                     frames: map<uint32, Frame>)
    requires OneFrame(s, frames) && id in frames && arrivals != []
    requires forall a | a in arrivals :: PartOf(a, frames) && a.frameID == id
    requires LastCompletes(HeldOf(s, id), arrivals, |frames[id].pieces|)
    ensures FeedAll(s, arrivals).0 == IDLE
    ensures WaitsThen(FeedAll(s, arrivals).1, Emitted(Flat(frames[id].pieces), frames[id].key))
    decreases |arrivals|
  {
    var a, rest := arrivals[0], arrivals[1..];
    var last := Emitted(Flat(frames[id].pieces), frames[id].key);
    assert PartOf(a, frames) && a.frameID == id;
    PartOfFrame(s, a, id, frames);
    FeedAllCons(s, arrivals);
    var (t, o) := Feed(s, a);
    hide Feed, OneFrame, PartOf, Flat, HeldOf, Covers, FeedAll;
    if |arrivals| == 1 {
      assert FeedAll(t, rest) == (t, []);
    } else {
      assert o == Waiting;
      UndisturbedFrameCompletes(t, rest, id, frames);
      WaitOneMore(FeedAll(t, rest).1, last);
    }
  }

  lemma FeedAllCons(s: State, arrivals: seq<Arrival>)
    requires arrivals != []
    ensures var (t, o) := Feed(s, arrivals[0]);
            && FeedAll(s, arrivals) == (FeedAll(t, arrivals[1..]).0, [o] + FeedAll(t, arrivals[1..]).1)
            && (|arrivals| == 1 ==> FeedAll(t, arrivals[1..]) == (t, []))
  {
    hide Feed;
  }

  lemma WaitOneMore(os: seq<Outcome>, last: Outcome)
    requires WaitsThen(os, last)
    ensures WaitsThen([Waiting] + os, last)
  {
    assert ([Waiting] + os)[1..] == os;
  }

  /** Frame id 0 doubles as "no frame". Parts of a multi-part frame 0 are the only ones that
      can meet the nil map, whatever counts and indices the others carry... */
  lemma {:induction false} OnlyFrameZeroFaults(s: State, arrivals: seq<Arrival>)
    requires s.held.None? ==> s.frameID == 0
    requires forall a | a in arrivals :: a.parts <= 1 || a.frameID != 0
    ensures NilMap !in FeedAll(s, arrivals).1
    decreases |arrivals|
  {
    if arrivals != [] {
      var a := arrivals[0];
      assert a.parts <= 1 || a.frameID != 0;
      FeedAllCons(s, arrivals);
      OnlyFrameZeroFaults(Feed(s, a).0, arrivals[1..]);
    }
  }

  /** ...and the first part of one does, exactly when nothing is being assembled. */
  lemma FrameZeroFaults(s: State, a: Arrival)
    requires s.open && a.parts > 1 && a.frameID == 0 && (s.held.None? ==> s.frameID == 0)
    ensures Feed(s, a).1 == NilMap <==> s.held.None?
  {
    hide AllHeld, Joined;
  }
}
