/** internal/re2/frame.go: outer frames on a byte stream, and inner messages. */
module FrameCodec {
  import opened Words
  import opened BigEndian

  const MAGIC0: byte := 0x52
  const MAGIC1: byte := 0x32
  const VERSION: byte := 0x02
  const MAX_PAYLOAD: nat := 0x10_0000
  const MAX_ROUTE: nat := 512

  datatype Frame = Frame(typ: byte, route: bytes, payload: bytes)

  datatype Error = TooLarge | BadMagic | BadVersion | RouteTooLong | UnexpectedEof

  function Length32(b: bytes): uint32 {
    |b| % TWO32
  }

  function Image(f: Frame): bytes {
    [MAGIC0, MAGIC1, VERSION, f.typ] + (U32(Length32(f.route)) + (f.route + (U32(Length32(f.payload)) + f.payload)))
  }

  method EncodeFrame(f: Frame) returns (r: Result<bytes, Error>)
    ensures r == if |f.payload| > 0x10_0000 then Err(TooLarge) else Ok(Image(f))
  {
    if |f.payload| > MAX_PAYLOAD {
      return Err(TooLarge);
    }
    var hdr := new byte[12 + |f.route|](i => 0);
    hdr[0], hdr[1], hdr[2], hdr[3] := MAGIC0, MAGIC1, VERSION, f.typ;
    hide U32, Length32;
    ghost var done := [MAGIC0, MAGIC1, VERSION, f.typ];
    ghost var plen := U32(Length32(f.payload));
    Put(hdr, 4, U32(Length32(f.route)), done, f.route + (plen + f.payload));
    done := done + U32(Length32(f.route));
    Put(hdr, 8, f.route, done, plen + f.payload);
    done := done + f.route;
    Put(hdr, 8 + |f.route|, U32(Length32(f.payload)), done, f.payload);
    assert hdr[..] == hdr[..12 + |f.route|];
    var written := hdr[..];
    assert written + f.payload == Image(f);
    if |f.payload| == 0 {
      assert written + f.payload == written;
      return Ok(written);
    }
    return Ok(written + f.payload);
  }

  /** The route, the payload length and the payload of a frame whose header has been read. */
  function DecodeBody(typ: byte, n: uint32, body: bytes): Result<(Frame, bytes), Error> {
    if n > MAX_ROUTE then Err(RouteTooLong)
    else if |body| < n + 4 then Err(UnexpectedEof)
    else
      var m := Get32(body[n..]);
      var tail := body[n + 4..];
      if m > MAX_PAYLOAD then Err(TooLarge)
      else if |tail| < m then Err(UnexpectedEof)
      else Ok((Frame(typ, body[..n], tail[..m]), tail[m..]))
  }

  /** Reads one frame and returns it with the unread rest of the stream. */
  function DecodeFrame(stream: bytes): Result<(Frame, bytes), Error> {
    if |stream| < 8 then Err(UnexpectedEof)
    else if stream[0] != MAGIC0 || stream[1] != MAGIC1 then Err(BadMagic)
    else if stream[2] != VERSION then Err(BadVersion)
    else DecodeBody(stream[3], Get32(stream[4..]), stream[8..])
  }

  /** Whatever EncodeFrame accepts comes back, and the reader stops exactly behind it, when
      the route has at most 512 bytes; EncodeFrame also writes longer routes, which every
      reader refuses. */
  lemma DecodeInvertsEncode(f: Frame, rest: bytes)
    requires |f.payload| <= MAX_PAYLOAD && |f.route| < TWO32
    ensures DecodeFrame(Image(f) + rest) ==
            if |f.route| <= MAX_ROUTE then Ok((f, rest)) else Err(RouteTooLong)
  {
    hide U32, Get32, DecodeBody;
    var tail := f.payload + rest;
    var body := f.route + (U32(|f.payload|) + tail);
    HeaderIsRead(f.typ, |f.route|, body);
    BodyIsRead(f, rest);
    assert Image(f) + rest == [MAGIC0, MAGIC1, VERSION, f.typ] + (U32(|f.route|) + body);
  }

  lemma HeaderIsRead(typ: byte, n: uint32, body: bytes)
    ensures DecodeFrame([MAGIC0, MAGIC1, VERSION, typ] + (U32(n) + body)) == DecodeBody(typ, n, body)
  {
    hide U32, Get32, DecodeBody;
    var stream := [MAGIC0, MAGIC1, VERSION, typ] + (U32(n) + body);
    assert stream[4..] == U32(n) + body;
    Read32(n, body);
    assert stream[8..] == stream[4..][4..];
  }

  lemma BodyIsRead(f: Frame, rest: bytes)
    requires |f.payload| <= MAX_PAYLOAD && |f.route| < TWO32
    ensures DecodeBody(f.typ, |f.route|, f.route + (U32(|f.payload|) + (f.payload + rest)))
         == if |f.route| <= MAX_ROUTE then Ok((f, rest)) else Err(RouteTooLong)
  {
    hide U32, Get32;
    var tail := f.payload + rest;
    var body := f.route + (U32(|f.payload|) + tail);
    assert body[|f.route|..] == U32(|f.payload|) + tail;
    Read32(|f.payload|, tail);
    assert body[|f.route| + 4..] == body[|f.route|..][4..];
    assert body[..|f.route|] == f.route;
    assert tail[..|f.payload|] == f.payload && tail[|f.payload|..] == rest;
  }

  lemma AcceptedBody(typ: byte, n: uint32, body: bytes)
    requires DecodeBody(typ, n, body).Ok?
    ensures var (f, rest) := DecodeBody(typ, n, body).value;
            && f.typ == typ && |f.route| == n && Decodable(f)
            && body == f.route + (U32(|f.payload|) + f.payload) + rest
  {
    var (f, rest) := DecodeBody(typ, n, body).value;
    var tail := body[n + 4..];
    WriteFirst(body[n..]);
    hide U32, Get32;
    assert body[n..][..4] == body[n..n + 4];
    assert tail == f.payload + rest;
    assert body == body[..n] + (body[n..n + 4] + tail);
  }

  /** And DecodeFrame accepts nothing else: what it takes off the stream is the image of the
      frame it returns. */
  lemma AcceptedIsAnImage(stream: bytes)
    requires DecodeFrame(stream).Ok?
    ensures var (f, rest) := DecodeFrame(stream).value; Decodable(f) && stream == Image(f) + rest
  {
    var (f, rest) := DecodeFrame(stream).value;
    var n := Get32(stream[4..]);
    AcceptedBody(stream[3], n, stream[8..]);
    WriteFirst(stream[4..]);
    hide U32, Get32, DecodeBody;
    assert stream[4..][..4] == stream[4..8];
    assert stream == [stream[0], stream[1], stream[2], stream[3]] + (stream[4..8] + stream[8..]);
    assert Length32(f.route) == n && Length32(f.payload) == |f.payload|;
  }

  lemma WriteFirst(b: bytes)
    requires |b| >= 4
    ensures U32(Get32(b)) == b[..4]
  {
    Write32(b[..4]);
    assert b[..4][2..] == b[2..4];
  }

  /** Each refusal by its cause, the first that applies. */
  lemma DecodeRefuses(stream: bytes)
    ensures DecodeFrame(stream) == Err(BadMagic) <==> |stream| >= 8 && stream[..2] != [0x52, 0x32]
    ensures DecodeFrame(stream) == Err(BadVersion) <==> |stream| >= 8 && stream[..2] == [0x52, 0x32] && stream[2] != 2
    ensures DecodeFrame(stream) == Err(RouteTooLong) <==>
            |stream| >= 8 && stream[..3] == [0x52, 0x32, 2] && Get32(stream[4..]) > 512
    ensures DecodeFrame(stream) == Err(TooLarge) ==>
            var n := Get32(stream[4..]); n <= 512 && |stream| >= 12 + n && Get32(stream[8 + n..]) > 0x10_0000
  {
    if |stream| >= 8 {
      assert stream[..2] == [stream[0], stream[1]] && stream[..3] == [stream[0], stream[1], stream[2]];
      assert forall n: nat | n <= |stream| - 8 :: stream[8..][n..] == stream[8 + n..];
    }
  }

  /** Where the fields lie. */
  lemma FrameLayout(f: Frame)
    requires |f.payload| <= MAX_PAYLOAD && |f.route| < TWO32
    ensures var b, n := Image(f), |f.route|;
            && |b| == 12 + n + |f.payload|
            && b[..4] == [0x52, 0x32, 0x02, f.typ] && b[4..8] == U32(n) && b[8..8 + n] == f.route
            && b[8 + n..12 + n] == U32(|f.payload|) && b[12 + n..] == f.payload
  {
    hide U32;
    var b, n := Image(f), |f.route|;
    var tail := U32(|f.payload|) + f.payload;
    assert b[4..8] == U32(n);
    assert b[8..] == f.route + tail;
    assert b[8..][..n] == f.route && b[8..][n..] == tail;
    assert b[8..8 + n] == b[8..][..n] && b[8 + n..12 + n] == b[8..][n..][..4] && b[12 + n..] == b[8..][n..][4..];
  }

  function Images(fs: seq<Frame>): bytes {
    if fs == [] then [] else Image(fs[0]) + Images(fs[1..])
  }

  function DecodeFrames(stream: bytes, n: nat): Result<(seq<Frame>, bytes), Error> {
    if n == 0 then Ok(([], stream))
    else
      match DecodeFrame(stream)
      case Err(e) => Err(e)
      case Ok((f, rest)) =>
        match DecodeFrames(rest, n - 1)
        case Err(e) => Err(e)
        case Ok((fs, end)) => Ok(([f] + fs, end))
  }

  predicate Decodable(f: Frame) {
    |f.payload| <= MAX_PAYLOAD && |f.route| <= MAX_ROUTE
  }

  lemma FirstFrame(fs: seq<Frame>, rest: bytes)
    requires fs != [] && Decodable(fs[0])
    ensures DecodeFrame(Images(fs) + rest) == Ok((fs[0], Images(fs[1..]) + rest))
  {
    DecodeInvertsEncode(fs[0], Images(fs[1..]) + rest);
    hide Image, DecodeFrame;
    Assoc(Image(fs[0]), Images(fs[1..]), rest);
  }

  /** A stream of frames splits back into the frames, with no byte lost between them. */
  lemma {:induction false} StreamOfFrames(fs: seq<Frame>, rest: bytes)
    requires forall i | 0 <= i < |fs| :: Decodable(fs[i])
    ensures DecodeFrames(Images(fs) + rest, |fs|) == Ok((fs, rest))
    decreases |fs|
  {
    if fs == [] {
      assert Images(fs) + rest == rest;
    } else {
      hide *;
      FirstFrame(fs, rest);
      StreamOfFrames(fs[1..], rest);
      FrameThenFrames(Images(fs) + rest, fs[0], Images(fs[1..]) + rest, fs[1..], rest);
      assert [fs[0]] + fs[1..] == fs;
    }
  }

  lemma FrameThenFrames(stream: bytes, f: Frame, after: bytes, fs: seq<Frame>, end: bytes)
    requires DecodeFrame(stream) == Ok((f, after)) && DecodeFrames(after, |fs|) == Ok((fs, end))
    ensures DecodeFrames(stream, |fs| + 1) == Ok(([f] + fs, end))
  {
    hide DecodeFrame;
  }

  // ---- inner messages ----

  function Inner(msgType: byte, body: bytes): (b: bytes)
    ensures |b| == 5 + |body|
  {
    [msgType] + (U32(Length32(body)) + body)
  }

  method EncodeInner(msgType: byte, body: bytes) returns (out: array<byte>)
    ensures fresh(out) && out[..] == Inner(msgType, body)
  {
    out := new byte[5 + |body|](i => 0);
    out[0] := msgType;
    hide U32;
    Put(out, 1, U32(Length32(body)), [msgType], body);
    Put(out, 5, body, [msgType] + U32(Length32(body)), []);
    assert out[..] == out[..5 + |body|];
  }

  function DecodeInner(b: bytes): Option<(byte, bytes)> {
    if |b| < 5 then None
    else
      var n := Get32(b[1..5]);
      if n > |b| - 5 then None else Some((b[0], b[5..5 + n]))
  }

  lemma InnerRoundTrip(msgType: byte, body: bytes, rest: bytes)
    requires |body| < TWO32
    ensures DecodeInner(Inner(msgType, body) + rest) == Some((msgType, body))
  {
    var b := Inner(msgType, body) + rest;
    Read32(|body|, []);
    assert b[1..5] == U32(|body|) + [];
    assert b[5..5 + |body|] == body;
  }

  /** DecodeInner accepts nothing else either, up to bytes behind the body, which it drops. */
  lemma AcceptedIsInner(b: bytes)
    ensures DecodeInner(b).Some? ==>
              var (msgType, body) := DecodeInner(b).value;
              |Inner(msgType, body)| <= |b| && b[..|Inner(msgType, body)|] == Inner(msgType, body)
    ensures DecodeInner(b).None? <==> |b| < 5 || 5 + Get32(b[1..]) > |b|
  {
    if |b| >= 5 {
      assert Get32(b[1..5]) == Get32(b[1..]) by {
        assert b[1..5][2..] == b[3..5] && b[1..][2..] == b[3..];
      }
      Write32(b[1..5]);
      if DecodeInner(b).Some? {
        var (msgType, body) := DecodeInner(b).value;
        assert b[..5 + |body|] == [b[0]] + (b[1..5] + body);
      }
    }
  }
}

/** internal/re2/channel.go: a device id and a channel name as one RouteID. */
module Channel {
  import opened Words

  const CHANNEL_DATA: string := "data"

  function ChannelRoute(deviceID: string, channel: string): string {
    if channel == "" then deviceID else deviceID + "#" + channel
  }

  /** strings.LastIndex for the separator. */
  function LastSeparator(s: string): (i: int)
    ensures -1 <= i < |s|
    ensures i >= 0 ==> s[i] == '#' && '#' !in s[i + 1..]
    ensures i < 0 ==> '#' !in s
  {
    if s == [] then -1
    else if s[|s| - 1] == '#' then |s| - 1
    else
      var i := LastSeparator(s[..|s| - 1]);
      assert s == s[..|s| - 1] + [s[|s| - 1]];
      assert i >= 0 ==> s[i + 1..] == s[..|s| - 1][i + 1..] + [s[|s| - 1]];
      i
  }

  function SplitRoute(route: string): (string, string) {
    var i := LastSeparator(route);
    if i >= 0 then (route[..i], route[i + 1..]) else (route, "")
  }

  lemma {:induction false} LastIsAtLeast(s: string, k: nat)
    requires k < |s| && s[k] == '#'
    ensures LastSeparator(s) >= k
  {
    if k < |s| - 1 && s[|s| - 1] != '#' {
      LastIsAtLeast(s[..|s| - 1], k);
    }
  }

  /** SplitRoute inverts ChannelRoute exactly when the last component holds no separator. */
  lemma SplitInvertsRoute(deviceID: string, channel: string)
    ensures SplitRoute(ChannelRoute(deviceID, channel)) == (deviceID, channel) <==>
            if channel == "" then '#' !in deviceID else '#' !in channel
  {
    var route := ChannelRoute(deviceID, channel);
    var i := LastSeparator(route);
    if channel == "" {
      if k :| 0 <= k < |deviceID| && deviceID[k] == '#' {
        LastIsAtLeast(route, k);
      }
    } else {
      var at := |deviceID|;
      LastIsAtLeast(route, at);
      assert route[at + 1..] == channel && route[..at] == deviceID;
      assert forall k | at < k < |route| :: route[k] == channel[k - at - 1];
      if k :| 0 <= k < |channel| && channel[k] == '#' {
        LastIsAtLeast(route, at + 1 + k);
      }
    }
  }

  /** With separator-free device ids a route names one device and one channel. */
  lemma RouteIsInjective(id1: string, c1: string, id2: string, c2: string)
    requires '#' !in id1 && '#' !in id2 && '#' !in c1 && '#' !in c2
    requires ChannelRoute(id1, c1) == ChannelRoute(id2, c2)
    ensures id1 == id2 && c1 == c2
  {
    SplitInvertsRoute(id1, c1);
    SplitInvertsRoute(id2, c2);
  }

  /** Otherwise it may not: two different bindings, one route. */
  lemma RouteIsAmbiguous(id: string)
    ensures ChannelRoute(id, CHANNEL_DATA) == ChannelRoute(id + "#" + CHANNEL_DATA, "")
  {
  }
}
