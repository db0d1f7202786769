/** Big-endian integers and moving-offset writes, as encoding/binary and copy do them. */
module BigEndian {
  import opened Words

  function U16(v: uint16): (b: bytes)
    ensures |b| == 2
  {
    [v / 256, v % 256]
  }

  function U32(v: uint32): (b: bytes)
    ensures |b| == 4
  {
    U16(v / TWO16) + U16(v % TWO16)
  }

  function U64(v: uint64): (b: bytes)
    ensures |b| == 8
  {
    U32(v / TWO32) + U32(v % TWO32)
  }

  function Get16(b: bytes): uint16
    requires |b| >= 2
  {
    (b[0] as int) * 256 + b[1]
  }

  function Get32(b: bytes): uint32
    requires |b| >= 4
  {
    Get16(b) * TWO16 + Get16(b[2..])
  }

  function Get64(b: bytes): uint64
    requires |b| >= 8
  {
    Get32(b) * TWO32 + Get32(b[4..])
  }

  lemma Read16(v: uint16, rest: bytes)
    ensures Get16(U16(v) + rest) == v && (U16(v) + rest)[2..] == rest
  {
  }

  lemma Read32(v: uint32, rest: bytes)
    ensures Get32(U32(v) + rest) == v && (U32(v) + rest)[4..] == rest
  {
    Read16(v % TWO16, rest);
    assert (U32(v) + rest)[2..] == U16(v % TWO16) + rest;
  }

  lemma Read64(v: uint64, rest: bytes)
    ensures Get64(U64(v) + rest) == v && (U64(v) + rest)[8..] == rest
  {
    Read32(v / TWO32, U32(v % TWO32) + rest);
    Read32(v % TWO32, rest);
    assert U64(v) + rest == U32(v / TWO32) + (U32(v % TWO32) + rest);
    assert (U64(v) + rest)[4..] == U32(v % TWO32) + rest;
  }

  lemma Write16(b: bytes)
    requires |b| == 2
    ensures U16(Get16(b)) == b
  {
  }

  lemma Halves(h: uint16, l: uint16)
    ensures (h * TWO16 + l) / TWO16 == h && (h * TWO16 + l) % TWO16 == l
  {
  }

  /** Get32 and U32 are inverse in the other direction too. */
  lemma Write32(b: bytes)
    requires |b| == 4
    ensures U32(Get32(b)) == b
  {
    var h, l := b[..2], b[2..];
    assert b == h + l;
    Write16(h);
    Write16(l);
    assert Get16(b) == Get16(h);
    hide U16, Get16;
    Halves(Get16(h), Get16(l));
  }

  /** Most significant byte first. */
  lemma Layout32(a: byte, b: byte, c: byte, d: byte)
    ensures var v := 0x100_0000 * (a as int) + 0x1_0000 * (b as int) + 0x100 * (c as int) + d;
            v < TWO32 && U32(v) == [a, b, c, d]
  {
    Halves(0x100 * (a as int) + b, 0x100 * (c as int) + d);
  }

  /** Go's copy(dst[o:], src) for a source that fits. done is what has been written so far
      and rest what is still to follow src. */
  method Put(dst: array<byte>, o: nat, src: bytes, ghost done: bytes, ghost rest: bytes)
    requires o + |src| <= dst.Length && dst[..o] == done
    modifies dst
    ensures dst[..o + |src|] == done + src
    ensures (done + src) + rest == done + (src + rest)
  {
    var i := 0;
    while i < |src|
      invariant 0 <= i <= |src|
      invariant dst[..o + i] == done + src[..i]
    {
      dst[o + i] := src[i];
      i := i + 1;
      assert dst[..o + i] == dst[..o + i - 1] + [src[i - 1]];
    }
    assert src[..|src|] == src;
  }
}

/** internal/reudp/packet.go: the outer datagram and the ACK body. */
module PacketCodec {
  import opened Words
  import opened BigEndian
  import R = Reudp

  const MAGIC0: byte := 0x52
  const MAGIC1: byte := 0x55
  const VERSION: byte := 0x01
  const HEADER_SIZE: nat := 20
  const TYPE_DATA: byte := 0x10
  const TYPE_ACK: byte := 0x11

  datatype Packet = Packet(typ: byte, flags: byte, routeHash: uint32, seqno: uint32, ack: uint32, payload: bytes)

  datatype Error = TooLarge | Short | BadMagic | BadVersion

  function Header(p: Packet): (h: bytes)
    requires |p.payload| <= R.MAX_PAYLOAD
    ensures |h| == HEADER_SIZE
  {
    [MAGIC0, MAGIC1, VERSION, p.typ, p.flags, 0]
    + (U32(p.routeHash) + (U32(p.seqno) + (U32(p.ack) + U16(|p.payload|))))
  }

  function Image(p: Packet): bytes
    requires |p.payload| <= R.MAX_PAYLOAD
  {
    Header(p) + p.payload
  }

  method Encode(p: Packet) returns (r: Result<array<byte>, Error>)
    ensures r.Ok? <==> |p.payload| <= R.MAX_PAYLOAD
    ensures r.Ok? ==> fresh(r.value) && r.value[..] == Image(p)
    ensures r.Err? ==> r.error == TooLarge
  {
    if |p.payload| > R.MAX_PAYLOAD {
      return Err(TooLarge);
    }
    var dst := new byte[HEADER_SIZE + |p.payload|](i => 0);
    dst[0], dst[1], dst[2], dst[3], dst[4], dst[5] := MAGIC0, MAGIC1, VERSION, p.typ, p.flags, 0;
    hide U32, U16;
    ghost var done := [MAGIC0, MAGIC1, VERSION, p.typ, p.flags, 0];
    ghost var last := U16(|p.payload|);
    Put(dst, 6, U32(p.routeHash), done, U32(p.seqno) + (U32(p.ack) + last));
    done := done + U32(p.routeHash);
    Put(dst, 10, U32(p.seqno), done, U32(p.ack) + last);
    done := done + U32(p.seqno);
    Put(dst, 14, U32(p.ack), done, last);
    done := done + U32(p.ack);
    Put(dst, 18, U16(|p.payload|), done, []);
    done := done + last;
    assert done == Header(p);
    Put(dst, HEADER_SIZE, p.payload, done, []);
    assert dst[..] == dst[..HEADER_SIZE + |p.payload|];
    return Ok(dst);
  }

  function Decode(b: bytes): Result<Packet, Error> {
    if |b| < HEADER_SIZE then Err(Short)
    else if b[0] != MAGIC0 || b[1] != MAGIC1 then Err(BadMagic)
    else if b[2] != VERSION then Err(BadVersion)
    else
      var plen := Get16(b[18..20]);
      if plen > R.MAX_PAYLOAD || HEADER_SIZE + plen > |b| then Err(TooLarge)
      else Ok(Packet(b[3], b[4], Get32(b[6..10]), Get32(b[10..14]), Get32(b[14..18]), b[20..20 + plen]))
  }

  /** Decoding what Encode wrote gives the packet back, whatever follows it in the buffer. */
  lemma DecodeInvertsEncode(p: Packet, rest: bytes)
    requires |p.payload| <= R.MAX_PAYLOAD
    ensures Decode(Image(p) + rest) == Ok(p)
  {
    var b := Image(p) + rest;
    Read32(p.routeHash, []);
    Read32(p.seqno, []);
    Read32(p.ack, []);
    Read16(|p.payload|, []);
    assert b[6..10] == U32(p.routeHash) + [];
    assert b[10..14] == U32(p.seqno) + [];
    assert b[14..18] == U32(p.ack) + [];
    assert b[18..20] == U16(|p.payload|) + [];
    assert b[20..20 + |p.payload|] == p.payload;
  }

  /** And Decode accepts nothing else: an accepted buffer starts with the image of the result,
      up to the reserved byte, which is ignored. */
  lemma AcceptedIsAnImage(b: bytes)
    requires Decode(b).Ok?
    ensures var p := Decode(b).value;
            && |p.payload| <= R.MAX_PAYLOAD && |Image(p)| <= |b|
            && b[..|Image(p)|] == Image(p)[5 := b[5]]
  {
    var p := Decode(b).value;
    Write32(b[6..10]);
    Write32(b[10..14]);
    Write32(b[14..18]);
    Write16(b[18..20]);
    var im := Image(p);
    assert im[6..10] == U32(p.routeHash);
    assert im[10..14] == U32(p.seqno);
    assert im[14..18] == U32(p.ack);
    assert im[18..20] == U16(|p.payload|);
    assert im[20..] == p.payload;
    var c := im[5 := b[5]];
    assert c == c[..6] + c[6..10] + c[10..14] + c[14..18] + c[18..20] + c[20..];
    var d := b[..|im|];
    assert d == d[..6] + b[6..10] + b[10..14] + b[14..18] + b[18..20] + d[20..];
    assert c[..6] == d[..6];
  }

  /** Where the fields lie, byte by byte. */
  lemma PacketLayout(p: Packet)
    requires |p.payload| <= R.MAX_PAYLOAD
    ensures var b := Image(p);
            && |b| == 20 + |p.payload|
            && b[..6] == [0x52, 0x55, 0x01, p.typ, p.flags, 0]
            && b[6..10] == U32(p.routeHash) && b[10..14] == U32(p.seqno) && b[14..18] == U32(p.ack)
            && 256 * (b[18] as int) + b[19] == |p.payload| && b[20..] == p.payload
  {
  }

  /** Each refusal by its cause, the first that applies. */
  lemma DecodeRefuses(b: bytes)
    ensures Decode(b) == Err(Short) <==> |b| < 20
    ensures Decode(b) == Err(BadMagic) <==> |b| >= 20 && b[..2] != [0x52, 0x55]
    ensures Decode(b) == Err(BadVersion) <==> |b| >= 20 && b[..2] == [0x52, 0x55] && b[2] != 1
    ensures Decode(b) == Err(TooLarge) <==>
            && |b| >= 20 && b[..3] == [0x52, 0x55, 1]
            && var n := 256 * (b[18] as int) + b[19]; n > 1200 || 20 + n > |b|
  {
    if |b| >= 20 {
      assert b[..2] == [b[0], b[1]] && b[..3] == [b[0], b[1], b[2]];
      assert Get16(b[18..20]) == 256 * (b[18] as int) + b[19];
    }
  }

  // ---- ACK bodies ----

  function MaskToWord(sack: bv64): uint64 {
    sack as int
  }

  function WordToMask(w: uint64): bv64 {
    w as bv64
  }

  lemma MaskRoundTrip(sack: bv64)
    ensures WordToMask(MaskToWord(sack)) == sack
  {
  }

  function EncodeAck(cum: uint32, sack: bv64): (b: bytes)
    ensures |b| == 12
  {
    U32(cum) + U64(MaskToWord(sack))
  }

  function DecodeAck(b: bytes): Option<(uint32, bv64)> {
    if |b| < 4 then None
    else Some((Get32(b[..4]), if |b| >= 12 then WordToMask(Get64(b[4..12])) else 0))
  }

  lemma AckRoundTrip(cum: uint32, sack: bv64)
    ensures DecodeAck(EncodeAck(cum, sack)) == Some((cum, sack))
  {
    var b := EncodeAck(cum, sack);
    Read32(cum, []);
    Read64(MaskToWord(sack), []);
    assert b[..4] == U32(cum) + [];
    assert b[4..12] == U64(MaskToWord(sack)) + [];
    MaskRoundTrip(sack);
  }

  /** Bodies of other lengths: below four bytes none is accepted, below twelve the mask is
      empty, and what lies beyond twelve does not matter. */
  lemma AckLengths(b: bytes, cum: uint32, sack: bv64, rest: bytes)
    ensures DecodeAck(b).None? <==> |b| < 4
    ensures |rest| < 8 ==> DecodeAck(U32(cum) + rest) == Some((cum, 0))
    ensures DecodeAck(EncodeAck(cum, sack) + rest) == Some((cum, sack))
  {
    hide U32, Get32, Get64, EncodeAck, MaskToWord, WordToMask;
    AckRoundTrip(cum, sack);
    Read32(cum, []);
    assert (U32(cum) + rest)[..4] == U32(cum) + [];
    SamePrefix(EncodeAck(cum, sack), rest);
  }

  lemma SamePrefix(c: bytes, rest: bytes)
    requires |c| == 12
    ensures (c + rest)[..4] == c[..4] && (c + rest)[4..12] == c[4..12]
  {
  }

  // ---- datagrams of the reliable protocol ----

  function ToPacket(d: R.Datagram, routeHash: uint32): Packet {
    match d
    case Data(flags, seqno, ack, payload) => Packet(TYPE_DATA, flags, routeHash, seqno, ack, payload)
    case Ack(cum, sack) => Packet(TYPE_ACK, 0, routeHash, 0, cum, EncodeAck(cum, sack))
  }

  /** The part of readLoopConn's switch that concerns the reliable protocol. */
  function FromPacket(p: Packet): Option<R.Datagram> {
    if p.typ == TYPE_DATA then Some(R.Data(p.flags, p.seqno, p.ack, p.payload))
    else if p.typ == TYPE_ACK then
      match DecodeAck(p.payload)
      case Some((cum, sack)) => Some(R.Ack(cum, sack))
      case None => None
    else None
  }

  /** Packets of other types, and ACKs too short, are none of its business. */
  lemma OnlyDataAndAck(p: Packet)
    ensures FromPacket(p).Some? <==> p.typ == 0x10 || (p.typ == 0x11 && |p.payload| >= 4)
    ensures FromPacket(p).Some? ==> (FromPacket(p).value.Data? <==> p.typ == 0x10)
  {
    AckLengths(p.payload, 0, 0, []);
    hide Get32, Get64;
  }

  /** Every datagram an endpoint emits reaches the peer's handlers as the same datagram, so
      a network of datagrams is a network of bytes. */
  lemma DatagramSurvivesTheWire(d: R.Datagram, routeHash: uint32)
    requires d.Data? ==> |d.payload| <= R.MAX_PAYLOAD
    ensures var p := ToPacket(d, routeHash);
            && |p.payload| <= R.MAX_PAYLOAD && p.routeHash == routeHash
            && (if d.Data? then p.typ == 0x10 else p.typ == 0x11 && p.flags == 0 && p.seqno == 0 && p.ack == d.cum)
            && Decode(Image(p)) == Ok(p) && FromPacket(p) == Some(d)
  {
    var p := ToPacket(d, routeHash);
    DecodeInvertsEncode(p, []);
    assert Image(p) + [] == Image(p);
    if d.Ack? {
      AckRoundTrip(d.cum, d.sack);
    }
  }
}
