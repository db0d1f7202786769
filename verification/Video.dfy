/** Video on the wire (internal/re2/video.go) and its repair (cmd/agent/desktop.go):
    fragments of one access unit, the cache of recent keyframes, resent parts. */
module Video {
  import opened Words
  import opened BigEndian
  import FrameCodec
  import Tunnel
  import R = Reudp

  // ---- one part ----

  datatype Part = Part(sessionID: bytes, frameID: uint32, flags: byte, part: uint16, parts: uint16, nal: bytes)

  function ShortID(sessionID: bytes): (s: bytes)
    ensures |s| <= 255 && s <= sessionID
    ensures |sessionID| <= 255 ==> s == sessionID
  {
    if |sessionID| > 255 then sessionID[..255] else sessionID
  }

  function Body(p: Part): bytes {
    var sid := ShortID(p.sessionID);
    [|sid| as byte] + (sid + (U32(p.frameID) + ([p.flags] + (U16(p.part) + (U16(p.parts) + p.nal)))))
  }

  lemma BodySize(p: Part)
    ensures |Body(p)| == 10 + |ShortID(p.sessionID)| + |p.nal|
  {
  }

  method EncodeVideo(p: Part) returns (out: array<byte>)
    ensures fresh(out) && out[..] == Body(p)
  {
    var sid := ShortID(p.sessionID);
    out := new byte[1 + |sid| + 4 + 1 + 2 + 2 + |p.nal|](i => 0);
    out[0] := |sid|;
    hide U32, U16, ShortID;
    ghost var done := [|sid| as byte];
    ghost var tail := U16(p.part) + (U16(p.parts) + p.nal);
    Put(out, 1, sid, done, U32(p.frameID) + ([p.flags] + tail));
    done := done + sid;
    var o := 1 + |sid|;
    Put(out, o, U32(p.frameID), done, [p.flags] + tail);
    done := done + U32(p.frameID);
    o := o + 4;
    Put(out, o, [p.flags], done, tail);
    done := done + [p.flags];
    o := o + 1;
    PutNAL(out, o, p, done);
  }

  method PutNAL(out: array<byte>, at: nat, p: Part, ghost before: bytes)
    requires out.Length == at + 4 + |p.nal| && out[..at] == before
    modifies out
    ensures out[..] == before + (U16(p.part) + (U16(p.parts) + p.nal))
  {
    hide U16;
    var o := at;
    ghost var done := before;
    Put(out, o, U16(p.part), done, U16(p.parts) + p.nal);
    done := done + U16(p.part);
    o := o + 2;
    Put(out, o, U16(p.parts), done, p.nal);
    done := done + U16(p.parts);
    o := o + 2;
    Put(out, o, p.nal, done, []);
    assert out[..] == out[..o + |p.nal|];
  }

  function DecodeVideo(body: bytes): Option<Part> {
    if |body| < 1 then None
    else
      var n := body[0] as int;
      if |body| < 1 + n + 4 + 1 + 2 + 2 then None
      else
        var b := body[1 + n..];
        Some(Part(body[1..1 + n], Get32(b), b[4], Get16(b[5..]), Get16(b[7..]), b[9..]))
  }

  lemma PartRoundTrip(p: Part)
    ensures DecodeVideo(Body(p)) == Some(p.(sessionID := ShortID(p.sessionID)))
  {
    hide U32, U16, Get32, Get16;
    var sid := ShortID(p.sessionID);
    var body := Body(p);
    var b := U32(p.frameID) + ([p.flags] + (U16(p.part) + (U16(p.parts) + p.nal)));
    assert body[1..1 + |sid|] == sid && body[1 + |sid|..] == b;
    Read32(p.frameID, [p.flags] + (U16(p.part) + (U16(p.parts) + p.nal)));
    Read16(p.part, U16(p.parts) + p.nal);
    Read16(p.parts, p.nal);
    assert b[5..] == U16(p.part) + (U16(p.parts) + p.nal);
    assert b[7..] == U16(p.parts) + p.nal;
    assert b[9..] == p.nal;
  }

  /** What follows the session id. */
  function Tail(p: Part): bytes {
    U32(p.frameID) + ([p.flags] + (U16(p.part) + (U16(p.parts) + p.nal)))
  }

  lemma OneThen(b: bytes, n: nat)
    requires 1 + n <= |b|
    ensures b == [b[0]] + (b[1..1 + n] + b[1 + n..])
  {
  }

  lemma BehindOne(x: byte, sid: bytes, c: bytes)
    ensures var b := [x] + (sid + c); b[0] == x && b[1..1 + |sid|] == sid && b[1 + |sid|..] == c
  {
  }

  lemma FiveParts(id: bytes, flags: byte, part: bytes, parts: bytes, nal: bytes)
    requires |id| == 4 && |part| == |parts| == 2
    ensures var c := id + ([flags] + (part + (parts + nal)));
            && |c| >= 9 && c[..4] == id && c[4] == flags && c[5..7] == part && c[7..9] == parts && c[9..] == nal
  {
  }

  lemma TailOf(c: bytes, p: Part)
    requires |c| >= 9
    requires p == p.(frameID := Get32(c), flags := c[4], part := Get16(c[5..]), parts := Get16(c[7..]), nal := c[9..])
    ensures Tail(p) == c
  {
    FrameCodec.WriteFirst(c);
    forall i | i in {5, 7} ensures U16(Get16(c[i..])) == c[i..i + 2] {
      Write16(c[i..i + 2]);
      GetFirst(c[i..]);
      assert c[i..][..2] == c[i..i + 2];
    }
    hide U32, U16, Get32, Get16;
    assert c == c[..4] + ([c[4]] + (c[5..7] + (c[7..9] + c[9..])));
  }

  /** And exactly the buffers that hold all fields are accepted, each as the image of one part. */
  lemma AcceptedIsABody(b: bytes)
    ensures DecodeVideo(b).Some? <==> |b| >= 1 && |b| >= 10 + b[0] as int
    ensures DecodeVideo(b).Some? ==> Body(DecodeVideo(b).value) == b
  {
    if DecodeVideo(b).Some? {
      DecodedIsImage(b, DecodeVideo(b).value);
    }
    hide Get32, Get16, Body;
  }

  lemma DecodedIsImage(b: bytes, p: Part)
    requires DecodeVideo(b) == Some(p)
    ensures Body(p) == b
  {
    var n := b[0] as int;
    TailOf(b[1 + n..], p);
    assert p.sessionID == b[1..1 + n] && |p.sessionID| == n;
    hide DecodeVideo, Get32, Get16;
    assert Body(p) == [|p.sessionID| as byte] + (p.sessionID + Tail(p));
    hide Body, Tail;
    OneThen(b, n);
  }

  lemma GetFirst(b: bytes)
    requires |b| >= 2
    ensures Get16(b) == Get16(b[..2])
  {
  }

  /** Where the fields lie. */
  lemma BodyLayout(p: Part)
    requires |p.sessionID| <= 255
    ensures var b, n := Body(p), |p.sessionID|;
            && |b| == 10 + n + |p.nal|
            && b[0] as int == n && b[1..1 + n] == p.sessionID && b[1 + n..5 + n] == U32(p.frameID) && b[5 + n] == p.flags
            && b[6 + n..8 + n] == U16(p.part) && b[8 + n..10 + n] == U16(p.parts) && b[10 + n..] == p.nal
  {
    var b, n, c := Body(p), |p.sessionID|, Tail(p);
    BodySize(p);
    hide U32, U16;
    FiveParts(U32(p.frameID), p.flags, U16(p.part), U16(p.parts), p.nal);
    assert b == [n as byte] + (p.sessionID + c);
    BehindOne(n, p.sessionID, c);
    hide Body, Tail;
    Subslice(b, 1 + n, 0, 4);
    Subslice(b, 1 + n, 5, 7);
    Subslice(b, 1 + n, 7, 9);
    assert b[1 + n..][9..] == b[10 + n..];
  }

  lemma Subslice(b: bytes, at: nat, i: nat, j: nat)
    requires i <= j && at + j <= |b|
    ensures b[at..][i..j] == b[at + i..at + j]
  {
  }

  // ---- fragmentation ----

  function ChunkSize(sessionID: bytes, maxChunk: nat): (c: nat)
    ensures c >= 32
  {
    var budget := if maxChunk < 64 then 64 else maxChunk;
    var overhead := if |sessionID| > 255 then 1 + 255 + 9 else 1 + |sessionID| + 9;
    if budget - overhead < 32 then 32 else budget - overhead
  }

  /** The chunk is the largest that keeps a part within the budget, of at least 64 bytes, but
      never below 32 bytes. */
  lemma ChunkIsLargest(p: Part, maxChunk: nat)
    ensures var c, budget := ChunkSize(p.sessionID, maxChunk), if maxChunk < 64 then 64 else maxChunk;
            && (|p.nal| > c ==> |Body(p)| > budget)
            && (|p.nal| <= c && c > 32 ==> |Body(p)| <= budget)
  {
    BodySize(p);
  }

  function PartCount(n: nat, chunk: nat): nat
    requires chunk >= 1
  {
    if n == 0 then 1 else (n + chunk - 1) / chunk
  }

  function Slice(annexB: bytes, chunk: nat, i: nat): bytes
    requires chunk >= 1
  {
    var start := i * chunk;
    var end := if start + chunk > |annexB| then |annexB| else start + chunk;
    if start <= end then annexB[start..end] else []
  }

  lemma SlicesCover(n: nat, chunk: nat)
    requires chunk >= 1 && n > 0
    ensures (PartCount(n, chunk) - 1) * chunk < n <= PartCount(n, chunk) * chunk
  {
    var k := n + chunk - 1;
    assert k == (k / chunk) * chunk + k % chunk;
  }

  lemma TimesMonotone(i: nat, j: nat, c: nat)
    requires i <= j
    ensures i * c <= j * c
  {
  }

  /** Part i of n of an access unit. */
  function PartOf(sessionID: bytes, frameID: uint32, flags: byte, annexB: bytes, chunk: nat, n: nat, i: nat): Part
    requires chunk >= 1
  {
    Part(sessionID, frameID, flags, i % TWO16, n % TWO16, Slice(annexB, chunk, i))
  }

  lemma SliceInside(annexB: bytes, chunk: nat, i: nat)
    requires chunk >= 1 && |annexB| > 0 && i < PartCount(|annexB|, chunk)
    ensures i * chunk < |annexB|
    ensures Slice(annexB, chunk, i) ==
            annexB[i * chunk..if i * chunk + chunk > |annexB| then |annexB| else i * chunk + chunk]
  {
    SlicesCover(|annexB|, chunk);
    TimesMonotone(i, PartCount(|annexB|, chunk) - 1, chunk);
  }

  /** The loop body of FragmentNAL. */
  method EncodePart(sessionID: bytes, frameID: uint32, flags: byte, annexB: bytes, chunk: nat, nparts: nat, i: nat)
    returns (body: bytes)
    requires chunk >= 1 && |annexB| > 0 && nparts == PartCount(|annexB|, chunk) && i < nparts
    ensures body == Body(PartOf(sessionID, frameID, flags, annexB, chunk, nparts, i))
  {
    SliceInside(annexB, chunk, i);
    hide Body, Slice, PartCount;
    var start := i * chunk;
    var end := start + chunk;
    if end > |annexB| {
      end := |annexB|;
    }
    var part := EncodeVideo(Part(sessionID, frameID, flags, i % TWO16, nparts % TWO16, annexB[start..end]));
    return part[..];
  }

  method FragmentNAL(sessionID: bytes, frameID: uint32, flags: byte, annexB: bytes, maxChunk: nat)
    returns (out: seq<bytes>)
    ensures IsFragmentation(out, sessionID, frameID, flags, annexB, ChunkSize(sessionID, maxChunk))
  {
    var budget := if maxChunk < 64 then 64 else maxChunk;
    var overhead := if |sessionID| > 255 then 1 + 255 + 9 else 1 + |sessionID| + 9;
    var chunk := if budget - overhead < 32 then 32 else budget - overhead;
    assert chunk == ChunkSize(sessionID, maxChunk);
    hide Body, ChunkSize;
    if |annexB| == 0 {
      var only := EncodeVideo(Part(sessionID, frameID, flags, 0, 1, []));
      return [only[..]];
    }
    var nparts := (|annexB| + chunk - 1) / chunk;
    assert nparts == PartCount(|annexB|, chunk);
    hide PartCount, Slice, FirstParts;
    out := [];
    NoParts(sessionID, frameID, flags, annexB, chunk, nparts);
    for i := 0 to nparts
      invariant |out| == i && FirstParts(out, sessionID, frameID, flags, annexB, chunk, nparts)
    {
      var part := EncodePart(sessionID, frameID, flags, annexB, chunk, nparts, i);
      OnePartMore(out, part, sessionID, frameID, flags, annexB, chunk, nparts);
      out := out + [part];
    }
  }

  /** The parts of the frame, as far as out goes, of n in all. */
  predicate FirstParts(out: seq<bytes>, sessionID: bytes, frameID: uint32, flags: byte, annexB: bytes, chunk: nat, n: nat)
    requires chunk >= 1
  {
    forall i | 0 <= i < |out| :: out[i] == Body(PartOf(sessionID, frameID, flags, annexB, chunk, n, i))
  }

  lemma NoParts(sessionID: bytes, frameID: uint32, flags: byte, annexB: bytes, chunk: nat, n: nat)
    requires chunk >= 1
    ensures FirstParts([], sessionID, frameID, flags, annexB, chunk, n)
  {
  }

  lemma OnePartMore(out: seq<bytes>, part: bytes, sessionID: bytes, frameID: uint32, flags: byte, annexB: bytes,
                    chunk: nat, n: nat)
    requires chunk >= 1 && FirstParts(out, sessionID, frameID, flags, annexB, chunk, n)
    requires part == Body(PartOf(sessionID, frameID, flags, annexB, chunk, n, |out|))
    ensures FirstParts(out + [part], sessionID, frameID, flags, annexB, chunk, n)
  {
    hide Body, PartOf;
  }

  // ---- reassembly ----

  /** What a receiver holds of one frame: the parts by index. */
  type Held = map<nat, bytes>

  predicate Complete(held: Held, n: nat) {
    forall i | 0 <= i < n :: i in held
  }

  function Joined(held: Held, n: nat): bytes
    requires Complete(held, n)
  {
    if n == 0 then [] else Joined(held, n - 1) + held[n - 1]
  }

  function Hold(held: Held, body: bytes): Held {
    match DecodeVideo(body)
    case Some(p) => held[p.part := p.nal]
    case None => held
  }

  function HoldAll(held: Held, bodies: seq<bytes>): Held
    decreases |bodies|
  {
    if bodies == [] then held else HoldAll(Hold(held, bodies[0]), bodies[1..])
  }

  /** held consists of parts of this fragmentation only. */
  predicate PartsOf(held: Held, annexB: bytes, chunk: nat, n: nat)
    requires chunk >= 1
  {
    forall i | i in held :: i < n && held[i] == Slice(annexB, chunk, i)
  }

  function Reach(annexB: bytes, chunk: nat, k: nat): (r: nat)
    ensures r <= |annexB|
  {
    if k * chunk <= |annexB| then k * chunk else |annexB|
  }

  lemma SliceExtends(annexB: bytes, chunk: nat, k: nat)
    requires chunk >= 1 && k >= 1 && (k - 1) * chunk <= |annexB|
    ensures annexB[..Reach(annexB, chunk, k - 1)] + Slice(annexB, chunk, k - 1) == annexB[..Reach(annexB, chunk, k)]
  {
    assert k * chunk == (k - 1) * chunk + chunk;
  }

  lemma {:induction false} SlicesJoin(held: Held, annexB: bytes, chunk: nat, n: nat, k: nat)
    requires chunk >= 1 && k <= n && PartsOf(held, annexB, chunk, n) && Complete(held, n)
    requires n == PartCount(|annexB|, chunk)
    ensures Joined(held, k) == annexB[..Reach(annexB, chunk, k)]
  {
    if k > 0 {
      SlicesJoin(held, annexB, chunk, n, k - 1);
      if |annexB| > 0 {
        SliceInside(annexB, chunk, k - 1);
      }
      SliceExtends(annexB, chunk, k);
    }
  }

  /** Any complete set of parts of a frame is the frame. */
  lemma CompleteIsWhole(held: Held, annexB: bytes, chunk: nat)
    requires chunk >= 1
    requires var n := PartCount(|annexB|, chunk); PartsOf(held, annexB, chunk, n) && Complete(held, n)
    ensures Joined(held, PartCount(|annexB|, chunk)) == annexB
  {
    var n := PartCount(|annexB|, chunk);
    SlicesJoin(held, annexB, chunk, n, n);
    if |annexB| > 0 {
      SlicesCover(|annexB|, chunk);
    }
    assert annexB[..|annexB|] == annexB;
  }

  /** The bodies FragmentNAL returns for a frame. */
  predicate IsFragmentation(out: seq<bytes>, sessionID: bytes, frameID: uint32, flags: byte, annexB: bytes, chunk: nat)
    requires chunk >= 1
  {
    && |out| == PartCount(|annexB|, chunk)
    && FirstParts(out, sessionID, frameID, flags, annexB, chunk, |out|)
  }

  lemma HoldPart(held: Held, out: seq<bytes>, sessionID: bytes, frameID: uint32, flags: byte, annexB: bytes, chunk: nat, i: nat)
    requires chunk >= 1 && IsFragmentation(out, sessionID, frameID, flags, annexB, chunk)
    requires |out| <= TWO16 && i < |out|
    ensures Hold(held, out[i]) == held[i := Slice(annexB, chunk, i)]
  {
    PartRoundTrip(PartOf(sessionID, frameID, flags, annexB, chunk, |out|, i));
  }

  /** Every part announces its own index and the part count, and carries the session, frame
      and flags, exactly when the frame has at most 65535 parts. */
  lemma PartsAreNumbered(out: seq<bytes>, sessionID: bytes, frameID: uint32, flags: byte, annexB: bytes, chunk: nat)
    requires chunk >= 1 && IsFragmentation(out, sessionID, frameID, flags, annexB, chunk)
    ensures (forall i | 0 <= i < |out| ::
               DecodeVideo(out[i]).Some? && DecodeVideo(out[i]).value.part == i && DecodeVideo(out[i]).value.parts == |out|)
            <==> |out| <= 65535
    ensures forall i | 0 <= i < |out| ::
              DecodeVideo(out[i]).Some? &&
              var p := DecodeVideo(out[i]).value;
              p.sessionID == ShortID(sessionID) && p.frameID == frameID && p.flags == flags
  {
    hide Body, DecodeVideo, Slice;
    forall i | 0 <= i < |out|
      ensures DecodeVideo(out[i]) ==
              Some(Part(ShortID(sessionID), frameID, flags, i % TWO16, |out| % TWO16, Slice(annexB, chunk, i)))
    {
      PartRoundTrip(PartOf(sessionID, frameID, flags, annexB, chunk, |out|, i));
    }
    PartCountPositive(|annexB|, chunk);
    assert DecodeVideo(out[0]).value.parts == |out| % TWO16;
  }

  lemma PartCountPositive(n: nat, chunk: nat)
    requires chunk >= 1
    ensures PartCount(n, chunk) >= 1
  {
    if n > 0 {
      SlicesCover(n, chunk);
    }
  }

  function Pick(parts: seq<bytes>, indices: seq<nat>): seq<bytes>
    requires forall k | 0 <= k < |indices| :: indices[k] < |parts|
  {
    seq(|indices|, k requires 0 <= k < |indices| => parts[indices[k]])
  }

  function Indices(indices: seq<nat>): set<nat> {
    set i | i in indices
  }

  lemma IndicesCons(indices: seq<nat>)
    requires indices != []
    ensures Indices(indices) == {indices[0]} + Indices(indices[1..])
  {
    assert indices == [indices[0]] + indices[1..];
  }

  lemma HoldPicked(held: Held, out: seq<bytes>, indices: seq<nat>)
    requires indices != [] && forall k | 0 <= k < |indices| :: indices[k] < |out|
    ensures HoldAll(held, Pick(out, indices)) == HoldAll(Hold(held, out[indices[0]]), Pick(out, indices[1..]))
  {
    hide Hold;
    assert Pick(out, indices)[1..] == Pick(out, indices[1..]);
  }

  /** Parts may arrive in any order and any number of times: the receiver ends up with the
      parts that arrived, each with its own content. */
  lemma {:induction false} AnyArrivals(held: Held, out: seq<bytes>, indices: seq<nat>,
                                       sessionID: bytes, frameID: uint32, flags: byte, annexB: bytes, chunk: nat)
    requires chunk >= 1 && IsFragmentation(out, sessionID, frameID, flags, annexB, chunk) && |out| <= 65535
    requires forall k | 0 <= k < |indices| :: indices[k] < |out|
    requires PartsOf(held, annexB, chunk, |out|)
    ensures var after := HoldAll(held, Pick(out, indices));
            PartsOf(after, annexB, chunk, |out|) && after.Keys == held.Keys + Indices(indices)
    decreases |indices|
  {
    if indices != [] {
      var next := held[indices[0] := Slice(annexB, chunk, indices[0])];
      FirstArrival(held, out, indices, sessionID, frameID, flags, annexB, chunk);
      IndicesCons(indices);
      hide *;
      AnyArrivals(next, out, indices[1..], sessionID, frameID, flags, annexB, chunk);
    }
  }

  lemma FirstArrival(held: Held, out: seq<bytes>, indices: seq<nat>,
                     sessionID: bytes, frameID: uint32, flags: byte, annexB: bytes, chunk: nat)
    requires chunk >= 1 && IsFragmentation(out, sessionID, frameID, flags, annexB, chunk) && |out| <= 65535
    requires indices != [] && forall k | 0 <= k < |indices| :: indices[k] < |out|
    requires PartsOf(held, annexB, chunk, |out|)
    ensures var next := held[indices[0] := Slice(annexB, chunk, indices[0])];
            && HoldAll(held, Pick(out, indices)) == HoldAll(next, Pick(out, indices[1..]))
            && PartsOf(next, annexB, chunk, |out|) && next.Keys == held.Keys + {indices[0]}
  {
    HoldPart(held, out, sessionID, frameID, flags, annexB, chunk, indices[0]);
    HoldPicked(held, out, indices);
    hide Hold, HoldAll, Slice, IsFragmentation, Pick;
  }

  /** Once every part has arrived, in whatever order and with whatever repeats, the receiver
      has the access unit that was fragmented. */
  lemma FragmentsReassemble(out: seq<bytes>, indices: seq<nat>,
                            sessionID: bytes, frameID: uint32, flags: byte, annexB: bytes, chunk: nat)
    requires chunk >= 1 && IsFragmentation(out, sessionID, frameID, flags, annexB, chunk) && |out| <= 65535
    requires forall k | 0 <= k < |indices| :: indices[k] < |out|
    requires forall i: nat | i < |out| :: i in indices
    ensures var after := HoldAll(map[], Pick(out, indices));
            Complete(after, |out|) && Joined(after, |out|) == annexB
  {
    AnyArrivals(map[], out, indices, sessionID, frameID, flags, annexB, chunk);
    CompleteIsWhole(HoldAll(map[], Pick(out, indices)), annexB, chunk);
  }

  // ---- resending what was lost ----

  const MAX_NACK: nat := 256

  function Asked(missing: seq<uint16>): (m: seq<uint16>)
    ensures |m| <= MAX_NACK && m <= missing
  {
    if |missing| > MAX_NACK then missing[..MAX_NACK] else missing
  }

  /** Each requested index once, in request order, if the frame has it. */
  function Repairs(n: nat, missing: seq<uint16>, seen: set<uint16>): (r: seq<nat>)
    ensures forall k | 0 <= k < |r| :: r[k] < n
    ensures n == 0 ==> r == []
    decreases |missing|
  {
    if missing == [] then []
    else
      var later := Repairs(n, missing[1..], seen + {missing[0]});
      if missing[0] in seen || missing[0] >= n then later else [missing[0]] + later
  }

  lemma {:induction false} RepairsAreTheAsked(n: nat, missing: seq<uint16>, seen: set<uint16>)
    ensures var r := Repairs(n, missing, seen);
            && (forall i: nat :: i in r <==> i < n && i in missing && i !in seen)
            && (forall j, k | 0 <= j < k < |r| :: r[j] != r[k])
    decreases |missing|
  {
    if missing != [] {
      RepairsAreTheAsked(n, missing[1..], seen + {missing[0]});
      assert missing == [missing[0]] + missing[1..];
    }
  }

  lemma PickCons(parts: seq<bytes>, index: nat, later: seq<nat>)
    requires index < |parts| && forall k | 0 <= k < |later| :: later[k] < |parts|
    ensures Pick(parts, [index] + later) == [parts[index]] + Pick(parts, later)
  {
    var all, p, q := [index] + later, Pick(parts, [index] + later), Pick(parts, later);
    assert |p| == |later| + 1 && |q| == |later|;
    forall k | 0 <= k < |p| ensures p[k] == ([parts[index]] + q)[k] {
      assert p[k] == parts[all[k]];
      if k > 0 {
        assert all[k] == later[k - 1] && q[k - 1] == parts[later[k - 1]];
      }
    }
    hide Pick;
  }

  const REPAIR_AGE: nat := 15 * 1_000_000_000

  datatype Nack = Nack(sessionID: bytes, frameID: uint32, missing: Option<seq<uint16>>)

  /** A request is served for the running session on the video plane, with the media cipher and
      the endpoint in place, and a frame that is cached and at most 15 s old, which is age. */
  method ResendVideoParts(frames: map<uint32, seq<bytes>>, deskSID: bytes, plane: bool, ready: bool, age: nat, req: Nack)
    returns (sent: seq<bytes>)
    ensures sent != [] ==>
              && plane && ready && req.sessionID != [] && req.sessionID == deskSID && req.missing.Some?
              && req.frameID in frames && age <= 15_000_000_000
    ensures plane && ready && req.sessionID != [] && req.sessionID == deskSID && req.missing.Some?
            && req.frameID in frames && age <= 15_000_000_000 ==>
              sent == Pick(frames[req.frameID], Repairs(|frames[req.frameID]|, Asked(req.missing.value), {}))
  {
    if !plane || req.sessionID == [] || req.sessionID != deskSID || req.missing.None? {
      return [];
    }
    if req.frameID !in frames || age > REPAIR_AGE {
      return [];
    }
    if !ready || frames[req.frameID] == [] {
      return [];
    }
    sent := ResendParts(frames[req.frameID], req.missing.value);
  }

  method ResendParts(parts: seq<bytes>, requested: seq<uint16>) returns (sent: seq<bytes>)
    ensures sent == Pick(parts, Repairs(|parts|, Asked(requested), {}))
  {
    var missing := Asked(requested);
    assert Pick(parts, []) == [];
    hide Asked, Pick;
    var seen: set<uint16> := {};
    sent := [];
    assert missing[0..] == missing;
    var k := 0;
    while k < |missing|
      invariant 0 <= k <= |missing|
      invariant sent + Pick(parts, Repairs(|parts|, missing[k..], seen)) == Pick(parts, Repairs(|parts|, missing, {}))
    {
      var index := missing[k];
      assert missing[k..][1..] == missing[k + 1..];
      ghost var later := Repairs(|parts|, missing[k + 1..], seen + {index});
      if index !in seen && index < |parts| {
        PickCons(parts, index, later);
        Assoc(sent, [parts[index]], Pick(parts, later));
        sent := sent + [parts[index]];
      }
      seen := seen + {index};
      k := k + 1;
    }
  }

  /** A repair completes the frame exactly when every index not yet held is among the first
      256 asked for, and then the result is the frame that was fragmented. */
  lemma RepairCompletes(held: Held, out: seq<bytes>, requested: seq<uint16>,
                        sessionID: bytes, frameID: uint32, flags: byte, annexB: bytes, chunk: nat)
    requires chunk >= 1 && IsFragmentation(out, sessionID, frameID, flags, annexB, chunk) && |out| <= 65535
    requires PartsOf(held, annexB, chunk, |out|)
    ensures var after := HoldAll(held, Pick(out, Repairs(|out|, Asked(requested), {})));
            && (Complete(after, |out|) <==> forall i: nat | i < |out| :: i in held || i in Asked(requested))
            && (Complete(after, |out|) ==> Joined(after, |out|) == annexB)
  {
    assert |out| == PartCount(|annexB|, chunk);
    hide HoldAll, Pick, IsFragmentation, Slice, Repairs, Asked, PartsOf, Joined, PartCount, Complete, Indices;
    var indices := Repairs(|out|, Asked(requested), {});
    AnyArrivals(held, out, indices, sessionID, frameID, flags, annexB, chunk);
    var after := HoldAll(held, Pick(out, indices));
    RepairsFill(held, after, |out|, Asked(requested));
    if Complete(after, |out|) {
      CompleteIsWhole(after, annexB, chunk);
    }
  }

  lemma RepairsFill(held: Held, after: Held, n: nat, asked: seq<uint16>)
    requires after.Keys == held.Keys + Indices(Repairs(n, asked, {}))
    ensures Complete(after, n) <==> forall i: nat | i < n :: i in held || i in asked
  {
    RepairsAreTheAsked(n, asked, {});
    hide Repairs;
    forall i: nat | i < n ensures i in after <==> i in held || i in asked {
      assert i in after.Keys <==> i in held.Keys || i in Repairs(n, asked, {});
    }
  }

  // ---- the keyframe cache ----

  const CACHE_SIZE: nat := 4

  datatype Cache = Cache(frameID: uint32, frames: map<uint32, seq<bytes>>, order: seq<uint32>)

  function Trim(c: Cache): Cache
    decreases |c.order|
  {
    if |c.order| <= CACHE_SIZE then c
    else Trim(c.(frames := c.frames - {c.order[0]}, order := c.order[1..]))
  }

  /** One frame leaves the encoder; only forced keyframes are cached. */
  function NextFrame(c: Cache, forceKey: bool, parts: seq<bytes>): Cache {
    var fid := c.frameID;
    var d := c.(frameID := Inc32(fid));
    if forceKey then Trim(d.(frames := d.frames[fid := parts], order := d.order + [fid])) else d
  }

  /** How many frames ago id was sent. */
  function Age(c: Cache, id: uint32): uint32 {
    Sub32(c.frameID, id)
  }

  function Listed(order: seq<uint32>): set<uint32> {
    set id | id in order
  }

  predicate Distinct(order: seq<uint32>) {
    forall i, j | 0 <= i < j < |order| :: order[i] != order[j]
  }

  lemma ListedAppend(order: seq<uint32>, id: uint32)
    requires Distinct(order) && id !in order
    ensures Listed(order + [id]) == Listed(order) + {id} && Distinct(order + [id])
  {
  }

  lemma ListedTail(order: seq<uint32>)
    requires order != [] && Distinct(order)
    ensures Listed(order[1..]) == Listed(order) - {order[0]} && Distinct(order[1..])
  {
    assert order == [order[0]] + order[1..];
  }

  /** The map and the list name the same frames, at most four, oldest first. */
  predicate InStep(c: Cache) {
    && |c.order| <= CACHE_SIZE
    && c.frames.Keys == Listed(c.order)
    && Distinct(c.order)
  }

  /** n bounds the number of frames since the cache was cleared. */
  predicate Recent(c: Cache, n: nat) {
    && InStep(c)
    && (forall i | 0 <= i < |c.order| :: 1 <= Age(c, c.order[i]) <= n)
  }

  lemma TrimOnce(c: Cache)
    requires |c.order| == CACHE_SIZE + 1
    ensures Trim(c) == c.(frames := c.frames - {c.order[0]}, order := c.order[1..])
  {
  }

  /** The new id is last, before it the newest of the old ones. */
  lemma KeyframeOrder(c: Cache, parts: seq<bytes>)
    requires |c.order| <= CACHE_SIZE
    ensures var d := NextFrame(c, true, parts);
            && d.frameID == Inc32(c.frameID) && 1 <= |d.order| <= |c.order| + 1
            && d.order[|d.order| - 1] == c.frameID
            && forall i | 0 <= i < |d.order| - 1 :: d.order[i] == c.order[i + (|c.order| + 1 - |d.order|)]
  {
    var grown := Cache(Inc32(c.frameID), c.frames[c.frameID := parts], c.order + [c.frameID]);
    if |grown.order| > CACHE_SIZE {
      TrimOnce(grown);
    }
  }

  lemma NewIdKeepsStep(c: Cache, parts: seq<bytes>)
    requires InStep(c) && c.frameID !in c.order
    ensures InStep(NextFrame(c, true, parts))
    ensures var d := NextFrame(c, true, parts); c.frameID in d.frames && d.frames[c.frameID] == parts
  {
    hide Inc32;
    var fid := c.frameID;
    var grown := Cache(Inc32(fid), c.frames[fid := parts], c.order + [fid]);
    ListedAppend(c.order, fid);
    assert grown.frames.Keys == Listed(grown.order);
    if |grown.order| > CACHE_SIZE {
      TrimOnce(grown);
      ListedTail(grown.order);
      assert (grown.frames - {grown.order[0]}).Keys == grown.frames.Keys - {grown.order[0]};
      assert grown.order[0] == c.order[0];
    }
    hide Listed, Distinct;
  }

  lemma CachedIdBreaksStep(c: Cache, parts: seq<bytes>)
    requires InStep(c) && c.frameID in c.order
    ensures !InStep(NextFrame(c, true, parts))
  {
    var grown := Cache(Inc32(c.frameID), c.frames[c.frameID := parts], c.order + [c.frameID]);
    var d := NextFrame(c, true, parts);
    if |grown.order| > CACHE_SIZE {
      TrimOnce(grown);
      if c.order[0] == c.frameID {
        assert c.frameID !in d.frames && d.order[|d.order| - 1] == c.frameID;
        assert c.frameID in Listed(d.order);
      }
    }
    hide Inc32;
    KeyframeOrder(c, parts);
    var i :| 0 <= i < |c.order| && c.order[i] == c.frameID;
    var cut := |c.order| + 1 - |d.order|;
    if i >= cut {
      assert d.order[i - cut] == d.order[|d.order| - 1];
    }
  }

  /** Caching a keyframe keeps map and list in step exactly when its id is not cached already. */
  lemma CachingKeepsStep(c: Cache, parts: seq<bytes>)
    requires InStep(c)
    ensures InStep(NextFrame(c, true, parts)) <==> c.frameID !in c.order
    ensures c.frameID !in c.order ==>
              var d := NextFrame(c, true, parts); c.frameID in d.frames && d.frames[c.frameID] == parts
  {
    hide NextFrame;
    if c.frameID in c.order {
      CachedIdBreaksStep(c, parts);
    } else {
      NewIdKeepsStep(c, parts);
    }
  }

  lemma RecentAge(c: Cache, n: nat, forceKey: bool, parts: seq<bytes>, i: nat)
    requires Recent(c, n) && n + 1 < TWO32 && i < |NextFrame(c, forceKey, parts).order|
    ensures var d := NextFrame(c, forceKey, parts); 1 <= Age(d, d.order[i]) <= n + 1
  {
    var d := NextFrame(c, forceKey, parts);
    if forceKey {
      KeyframeOrder(c, parts);
      hide NextFrame;
      if i < |d.order| - 1 {
        OneFrameOlder(c.frameID, c.order[i + (|c.order| + 1 - |d.order|)]);
      }
    } else {
      OneFrameOlder(c.frameID, c.order[i]);
    }
  }

  lemma NextStaysRecent(c: Cache, n: nat, forceKey: bool, parts: seq<bytes>)
    requires Recent(c, n) && n + 1 < TWO32
    ensures Recent(NextFrame(c, forceKey, parts), n + 1)
  {
    var d := NextFrame(c, forceKey, parts);
    assert Age(c, c.frameID) == 0;
    assert c.frameID !in c.order;
    if forceKey {
      CachingKeepsStep(c, parts);
    } else {
      assert InStep(d);
    }
    forall i | 0 <= i < |d.order| ensures 1 <= Age(d, d.order[i]) <= n + 1 {
      RecentAge(c, n, forceKey, parts, i);
    }
    hide NextFrame, InStep, Age;
  }

  lemma OneFrameOlder(now: uint32, id: uint32)
    requires Sub32(now, id) < TWO32 - 1
    ensures Sub32(Inc32(now), id) == Sub32(now, id) + 1
  {
  }

  function Frames(c: Cache, sent: seq<(bool, seq<bytes>)>): Cache
    decreases |sent|
  {
    if sent == [] then c else Frames(NextFrame(c, sent[0].0, sent[0].1), sent[1..])
  }

  /** From a cleared cache, whatever the frame counter, map and list stay in step over any
      run of fewer than 2^32 frames, across the wrap of the counter, however keyframes fall. */
  lemma {:induction false} FewFramesStayInStep(c: Cache, n: nat, sent: seq<(bool, seq<bytes>)>)
    requires Recent(c, n) && n + |sent| < TWO32
    ensures Recent(Frames(c, sent), n + |sent|)
    decreases |sent|
  {
    if sent != [] {
      NextStaysRecent(c, n, sent[0].0, sent[0].1);
      hide NextFrame;
      FewFramesStayInStep(NextFrame(c, sent[0].0, sent[0].1), n + 1, sent[1..]);
    }
  }

  function Span(k: nat, gap: nat): nat {
    k * gap
  }

  /** No more than gap frames since the last cached keyframe, and as many between any two. */
  predicate Periodic(c: Cache, since: nat, gap: nat) {
    && InStep(c) && since <= gap
    && forall i | 0 <= i < |c.order| :: 1 <= Age(c, c.order[i]) <= since + Span(|c.order| - 1 - i, gap)
  }

  /** A keyframe at least every gap frames, given since frames without one. */
  predicate KeysEvery(gap: nat, since: nat, sent: seq<(bool, seq<bytes>)>)
    decreases |sent|
  {
    since <= gap && (sent == [] || KeysEvery(gap, if sent[0].0 then 1 else since + 1, sent[1..]))
  }

  lemma SpanGrows(k: nat, gap: nat)
    ensures Span(k + 1, gap) == Span(k, gap) + gap
    ensures k <= 3 ==> Span(k, gap) <= 3 * gap
  {
  }

  lemma PlainFrameStaysPeriodic(c: Cache, since: nat, gap: nat, parts: seq<bytes>)
    requires Periodic(c, since, gap) && since + 1 <= gap && 5 * gap < TWO32
    ensures Periodic(NextFrame(c, false, parts), since + 1, gap)
  {
    var d := NextFrame(c, false, parts);
    forall i | 0 <= i < |d.order| ensures 1 <= Age(d, d.order[i]) <= since + 1 + Span(|d.order| - 1 - i, gap) {
      SpanGrows(|d.order| - 1 - i, gap);
      OneFrameOlder(c.frameID, c.order[i]);
    }
  }

  lemma YoungerThanWrap(c: Cache, since: nat, gap: nat, i: nat)
    requires Periodic(c, since, gap) && 5 * gap < TWO32 && i < |c.order|
    ensures c.order[i] != c.frameID && Age(c, c.order[i]) < TWO32 - 1
    ensures 1 <= Sub32(Inc32(c.frameID), c.order[i]) <= 1 + Span(|c.order| - i, gap)
  {
    SpanGrows(|c.order| - 1 - i, gap);
    hide Span;
    OneFrameOlder(c.frameID, c.order[i]);
  }

  lemma NextIsOneOlder(id: uint32)
    ensures Sub32(Inc32(id), id) == 1
  {
  }

  lemma KeyframeAge(c: Cache, since: nat, gap: nat, parts: seq<bytes>, i: nat)
    requires Periodic(c, since, gap) && 5 * gap < TWO32 && i < |NextFrame(c, true, parts).order|
    ensures var d := NextFrame(c, true, parts); 1 <= Age(d, d.order[i]) <= 1 + Span(|d.order| - 1 - i, gap)
  {
    KeyframeOrder(c, parts);
    var d := NextFrame(c, true, parts);
    assert d.frameID == Inc32(c.frameID);
    hide NextFrame, Periodic, Span, Sub32, Inc32, InStep;
    if i < |d.order| - 1 {
      YoungerThanWrap(c, since, gap, i + (|c.order| + 1 - |d.order|));
    } else {
      NextIsOneOlder(c.frameID);
      SpanGrows(0, gap);
    }
  }

  lemma KeyframeStaysPeriodic(c: Cache, since: nat, gap: nat, parts: seq<bytes>)
    requires Periodic(c, since, gap) && gap >= 1 && 5 * gap < TWO32
    ensures Periodic(NextFrame(c, true, parts), 1, gap)
  {
    forall i | 0 <= i < |c.order| ensures c.order[i] != c.frameID {
      YoungerThanWrap(c, since, gap, i);
    }
    CachingKeepsStep(c, parts);
    var d := NextFrame(c, true, parts);
    forall i | 0 <= i < |d.order| ensures 1 <= Age(d, d.order[i]) <= 1 + Span(|d.order| - 1 - i, gap) {
      KeyframeAge(c, since, gap, parts, i);
    }
    hide NextFrame, InStep, Age, Span;
  }

  /** With a keyframe at least every gap frames, map and list stay in step for ever, whatever
      the counter: an id is evicted long before the counter comes round to it. */
  lemma {:induction false} CacheStaysInStep(c: Cache, since: nat, gap: nat, sent: seq<(bool, seq<bytes>)>)
    requires Periodic(c, since, gap) && KeysEvery(gap, since, sent) && 1 <= gap && 5 * gap < TWO32
    ensures InStep(Frames(c, sent))
    decreases |sent|
  {
    if sent != [] {
      if sent[0].0 {
        KeyframeStaysPeriodic(c, since, gap, sent[0].1);
      } else {
        PlainFrameStaysPeriodic(c, since, gap, sent[0].1);
      }
      hide NextFrame, Periodic;
      CacheStaysInStep(NextFrame(c, sent[0].0, sent[0].1), if sent[0].0 then 1 else since + 1, gap, sent[1..]);
    }
  }

  /** So they do from a cleared cache, whatever the counter. */
  lemma ClearedCacheStaysInStep(frameID: uint32, gap: nat, sent: seq<(bool, seq<bytes>)>)
    requires KeysEvery(gap, 0, sent) && 5 * gap < TWO32
    ensures InStep(Frames(Cache(frameID, map[], []), sent))
  {
    if sent != [] {
      CacheStaysInStep(Cache(frameID, map[], []), 0, gap, sent);
    }
  }

  /** The keyframes among the frames sent, with the ids they go out under. */
  function Keyframes(frameID: uint32, sent: seq<(bool, seq<bytes>)>): seq<(uint32, seq<bytes>)>
    decreases |sent|
  {
    if sent == [] then []
    else (if sent[0].0 then [(frameID, sent[0].1)] else []) + Keyframes((frameID + 1) % TWO32, sent[1..])
  }

  function LastFour<T>(s: seq<T>): seq<T> {
    if |s| <= 4 then s else s[|s| - 4..]
  }

  lemma LastFourOfMore<T>(s: seq<T>, t: seq<T>)
    ensures LastFour(LastFour(s) + t) == LastFour(s + t)
  {
    if |s| > 4 {
      assert s == s[..|s| - 4] + s[|s| - 4..];
      assert s + t == s[..|s| - 4] + (s[|s| - 4..] + t);
    }
  }

  /** The cache holds exactly these keyframes, oldest first, each with its own parts. */
  predicate Keeps(c: Cache, ks: seq<(uint32, seq<bytes>)>) {
    && |c.order| == |ks| && c.frames.Keys == Listed(c.order)
    && forall i | 0 <= i < |ks| :: c.order[i] == ks[i].0 && ks[i].0 in c.frames && c.frames[ks[i].0] == ks[i].1
  }

  lemma AddedKeeps(c: Cache, ks: seq<(uint32, seq<bytes>)>, fid: uint32, parts: seq<bytes>)
    requires Keeps(c, ks) && fid !in c.order
    ensures Keeps(c.(frames := c.frames[fid := parts], order := c.order + [fid]), ks + [(fid, parts)])
  {
  }

  lemma DroppedKeeps(c: Cache, ks: seq<(uint32, seq<bytes>)>)
    requires Keeps(c, ks) && ks != [] && Distinct(c.order)
    ensures Keeps(c.(frames := c.frames - {c.order[0]}, order := c.order[1..]), ks[1..])
  {
    ListedTail(c.order);
    assert (c.frames - {c.order[0]}).Keys == c.frames.Keys - {c.order[0]};
    hide Listed;
  }

  lemma KeyframeKeeps(c: Cache, ks: seq<(uint32, seq<bytes>)>, parts: seq<bytes>)
    requires Keeps(c, ks) && InStep(c) && c.frameID !in c.order
    ensures Keeps(NextFrame(c, true, parts), LastFour(ks + [(c.frameID, parts)]))
  {
    var fid := c.frameID;
    var grown := Cache(Inc32(fid), c.frames[fid := parts], c.order + [fid]);
    AddedKeeps(c.(frameID := Inc32(fid)), ks, fid, parts);
    if |grown.order| > CACHE_SIZE {
      TrimOnce(grown);
      ListedAppend(c.order, fid);
      DroppedKeeps(grown, ks + [(fid, parts)]);
    }
    hide Keeps, Distinct;
  }

  /** One frame, with the next state of the run between two keyframes. */
  lemma FrameKeeps(c: Cache, ks: seq<(uint32, seq<bytes>)>, since: nat, gap: nat, key: bool, parts: seq<bytes>)
    requires Periodic(c, since, gap) && 1 <= gap && 5 * gap < TWO32 && (key || since + 1 <= gap)
    requires Keeps(c, ks) && |ks| <= 4
    ensures var d := NextFrame(c, key, parts);
            && Keeps(d, LastFour(ks + (if key then [(c.frameID, parts)] else []))) && d.frameID == (c.frameID + 1) % TWO32
            && Periodic(d, if key then 1 else since + 1, gap)
  {
    if key {
      forall i | 0 <= i < |c.order| ensures c.order[i] != c.frameID {
        YoungerThanWrap(c, since, gap, i);
      }
      KeyframeKeeps(c, ks, parts);
      KeyframeOrder(c, parts);
      KeyframeStaysPeriodic(c, since, gap, parts);
      hide NextFrame, Keeps, Age;
    } else {
      assert ks + [] == ks;
      PlainFrameStaysPeriodic(c, since, gap, parts);
      hide Periodic;
    }
  }

  lemma {:induction false} CacheKeepsFrom(c: Cache, ks: seq<(uint32, seq<bytes>)>, since: nat, gap: nat, sent: seq<(bool, seq<bytes>)>)
    requires Periodic(c, since, gap) && KeysEvery(gap, since, sent) && 1 <= gap && 5 * gap < TWO32
    requires Keeps(c, ks) && |ks| <= 4
    ensures Keeps(Frames(c, sent), LastFour(ks + Keyframes(c.frameID, sent)))
    decreases |sent|
  {
    hide NextFrame, Periodic, Keeps;
    if sent == [] {
      assert ks + [] == ks;
    } else {
      var (key, parts) := sent[0];
      FrameKeeps(c, ks, since, gap, key, parts);
      var d := NextFrame(c, key, parts);
      var added := if key then [(c.frameID, parts)] else [];
      CacheKeepsFrom(d, LastFour(ks + added), if key then 1 else since + 1, gap, sent[1..]);
      LastFourOfMore(ks + added, Keyframes(d.frameID, sent[1..]));
      Assoc(ks, added, Keyframes(d.frameID, sent[1..]));
    }
  }

  /** From a cleared cache, with keyframes as above, the cache holds at every moment exactly the
      last four keyframes sent, each under its id with its own parts. */
  lemma CacheHoldsTheLastFour(frameID: uint32, gap: nat, sent: seq<(bool, seq<bytes>)>)
    requires KeysEvery(gap, 0, sent) && 5 * gap < TWO32
    ensures Keeps(Frames(Cache(frameID, map[], []), sent), LastFour(Keyframes(frameID, sent)))
  {
    if sent != [] {
      CacheKeepsFrom(Cache(frameID, map[], []), [], 0, gap, sent);
      assert [] + Keyframes(frameID, sent) == Keyframes(frameID, sent);
    }
  }

  lemma CountOnce(id: uint32, n: nat)
    ensures (Inc32(id) + n) % TWO32 == (id + n + 1) % TWO32
  {
  }

  lemma {:induction false} PlainFrames(c: Cache, n: nat) returns (sent: seq<(bool, seq<bytes>)>)
    ensures |sent| == n && Frames(c, sent) == c.(frameID := (c.frameID + n) % TWO32)
    decreases n
  {
    if n == 0 {
      sent := [];
    } else {
      var rest := PlainFrames(c.(frameID := Inc32(c.frameID)), n - 1);
      sent := [(false, [])] + rest;
      assert sent[1..] == rest;
      assert NextFrame(c, false, []) == c.(frameID := Inc32(c.frameID));
      CountOnce(c.frameID, n - 1);
      hide NextFrame, Inc32;
    }
  }

  /** Without keyframes in between the counter does come round: 2^32 frames after a keyframe, its
      id is due again while cached, and caching it again puts map and list out of step. */
  lemma UnkeyedCounterComesRound(frameID: uint32, parts: seq<bytes>) returns (sent: seq<(bool, seq<bytes>)>)
    ensures var c := Frames(Cache(frameID, map[], []), sent);
            |sent| == TWO32 && c.frameID in c.order && InStep(c) && !InStep(NextFrame(c, true, parts))
  {
    var c := Cache(frameID, map[], []);
    var d := NextFrame(c, true, parts);
    assert [frameID] == [] + [frameID];
    assert d == Cache(Inc32(frameID), map[frameID := parts], [frameID]);
    var rest := PlainFrames(d, TWO32 - 1);
    sent := [(true, parts)] + rest;
    assert sent[1..] == rest;
    assert (Inc32(frameID) + (TWO32 - 1)) % TWO32 == frameID;
    var e := Frames(c, sent);
    assert e == Cache(frameID, map[frameID := parts], [frameID]);
    assert e.order[0] == frameID;
    CachingKeepsStep(e, parts);
  }

  class KeyframeCache {
    var frameID: uint32
    var frames: map<uint32, seq<bytes>>
    var order: seq<uint32>

    function Value(): Cache
      reads this
    {
      Cache(frameID, frames, order)
    }

    method Next(forceKey: bool, parts: seq<bytes>) returns (fid: uint32)
      modifies this
      ensures fid == old(frameID)
      ensures Value() == NextFrame(old(Value()), forceKey, parts)
    {
      fid := frameID;
      frameID := Inc32(frameID);
      if forceKey {
        frames := frames[fid := parts];
        order := order + [fid];
        ghost var full := Value();
        while |order| > CACHE_SIZE
          invariant Trim(Value()) == Trim(full)
          decreases |order|
        {
          var oldest := order[0];
          order := order[1..];
          frames := frames - {oldest};
        }
      }
    }
  }

  // ---- sizes ----

  const VIDEO_PLAIN_MAX: nat := R.MAX_PAYLOAD - Tunnel.VIDEO_OVERHEAD

  /** The two chunk budgets of the desktop pump keep every part within one REUDP payload:
      sealed on the video plane, or with the Noise tag on the ordered channel. */
  lemma EveryPartFits(sessionID: bytes, frameID: uint32, flags: byte, annexB: bytes, budget: nat, out: seq<bytes>, i: nat)
    requires budget == VIDEO_PLAIN_MAX - 8 || budget == R.MAX_PAYLOAD - 96
    requires IsFragmentation(out, sessionID, frameID, flags, annexB, ChunkSize(sessionID, budget)) && i < |out|
    ensures var inner := FrameCodec.Inner(0x23, out[i]);
            && (budget == VIDEO_PLAIN_MAX - 8 ==> |inner| + Tunnel.VIDEO_OVERHEAD <= R.MAX_PAYLOAD)
            && (budget == R.MAX_PAYLOAD - 96 ==> |inner| + Tunnel.NOISE_TAG <= R.MAX_PAYLOAD)
  {
    var chunk := ChunkSize(sessionID, budget);
    BodySize(PartOf(sessionID, frameID, flags, annexB, chunk, |out|, i));
    assert |Slice(annexB, chunk, i)| <= chunk;
  }

  // ---- the sealed plane (internal/re2/videomedia.go) ----

  /** An AEAD whose nonce, drawn at random, travels with the packet. */
  datatype Sealer = Sealer(seal: (bytes, bytes) -> bytes, open: (bytes, bytes) -> Option<bytes>)

  predicate OpensWhatItSeals(a: Sealer, nonce: bytes, plain: bytes) {
    |a.seal(nonce, plain)| == |plain| + 16 && a.open(nonce, a.seal(nonce, plain)) == Some(plain)
  }

  function Seal(a: Sealer, nonce: bytes, plain: bytes): bytes
    requires |nonce| == 12
  {
    [0x56, 0x31] + nonce + a.seal(nonce, plain)
  }

  function Open(a: Sealer, packet: bytes): Option<bytes> {
    if !Tunnel.IsVideoPlane(packet) then None else a.open(packet[2..14], packet[14..])
  }

  /** A sealed packet is 30 bytes longer than its content, is told from the ordered channel by its
      first two bytes, and opens by itself, whatever was lost before it. */
  lemma SealedPacketOpens(a: Sealer, nonce: bytes, plain: bytes)
    requires |nonce| == 12 && OpensWhatItSeals(a, nonce, plain)
    ensures var packet := Seal(a, nonce, plain);
            && |packet| == |plain| + 30 && Tunnel.IsVideoPlane(packet) && Open(a, packet) == Some(plain)
  {
    var packet := Seal(a, nonce, plain);
    assert packet[2..14] == nonce && packet[14..] == a.seal(nonce, plain);
  }

  /** And nothing else is taken for one. */
  lemma OtherPacketsAreNotOpened(a: Sealer, packet: bytes)
    requires |packet| < 30 || packet[..2] != [0x56, 0x31]
    ensures !Tunnel.IsVideoPlane(packet) && Open(a, packet) == None
  {
    if |packet| >= 30 {
      assert packet[..2] == [packet[0], packet[1]];
    }
  }
}
