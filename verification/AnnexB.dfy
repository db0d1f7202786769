/** The incremental access-unit splitter of internal/desktop/encode_ffmpeg.go, on the byte
    stream format of Annex B of ITU-T H.264 and H.265. */
module AnnexB {
  import opened Words

  // ---- start codes ----

  predicate ThreeByteCode(b: bytes, i: nat) {
    i + 3 < |b| && b[i] == 0 && b[i + 1] == 0 && b[i + 2] == 1
  }

  predicate FourByteCode(b: bytes, i: nat) {
    i + 3 < |b| && b[i] == 0 && b[i + 1] == 0 && b[i + 2] == 0 && b[i + 3] == 1
  }

  /** The scan of findStartCodes from position i. */
  function StartsFrom(b: bytes, i: nat): seq<nat>
    decreases |b| - i
  {
    if i + 3 >= |b| then []
    else if ThreeByteCode(b, i) then [i] + StartsFrom(b, i + 3)
    else if FourByteCode(b, i) then [i] + StartsFrom(b, i + 4)
    else StartsFrom(b, i + 1)
  }

  function Starts(b: bytes): seq<nat> {
    StartsFrom(b, 0)
  }

  method FindStartCodes(b: bytes) returns (out: seq<nat>)
    ensures out == Starts(b)
  {
    out := [];
    var i := 0;
    while i + 3 < |b|
      invariant out + StartsFrom(b, i) == Starts(b)
      decreases |b| - i
    {
      if b[i] == 0 && b[i + 1] == 0 {
        if b[i + 2] == 1 {
          out := out + [i];
          i := i + 2;
        } else if b[i + 2] == 0 && b[i + 3] == 1 {
          out := out + [i];
          i := i + 3;
        }
      }
      i := i + 1;
    }
  }

  predicate IsCode(b: bytes, i: nat) {
    ThreeByteCode(b, i) || FourByteCode(b, i)
  }

  /** 00 00 01 or 00 00 00 01, neither at the very end. */
  lemma CodesInBytes(b: bytes, i: nat)
    ensures ThreeByteCode(b, i) <==> i + 4 <= |b| && b[i..i + 3] == [0x00, 0x00, 0x01]
    ensures FourByteCode(b, i) <==> i + 4 <= |b| && b[i..i + 4] == [0x00, 0x00, 0x00, 0x01]
  {
    if i + 4 <= |b| {
      assert b[i..i + 3] == [b[i], b[i + 1], b[i + 2]];
      assert b[i..i + 4] == [b[i], b[i + 1], b[i + 2], b[i + 3]];
    }
  }

  /** The scan is in order, starts no earlier than asked, and lists start codes only. */
  lemma {:induction false} StartsAreCodes(b: bytes, i: nat, s: seq<nat>)
    requires s == StartsFrom(b, i)
    ensures forall k | 0 <= k < |s| :: i <= s[k] && IsCode(b, s[k])
    ensures forall j, k | 0 <= j < k < |s| :: s[j] + 3 <= s[k]
    decreases |b| - i
  {
    if i + 3 < |b| {
      var next := if ThreeByteCode(b, i) then i + 3 else if FourByteCode(b, i) then i + 4 else i + 1;
      var t := StartsFrom(b, next);
      StartsAreCodes(b, next, t);
      assert s == if IsCode(b, i) then [i] + t else t;
    }
  }

  /** And it misses none: every 00 00 01 followed by another byte is listed, itself or as the
      tail of a listed 00 00 00 01. */
  lemma {:induction false} EveryCodeIsFound(b: bytes, i: nat, p: nat)
    requires i <= p && ThreeByteCode(b, p)
    ensures p in StartsFrom(b, i) || (p > i && p - 1 in StartsFrom(b, i) && FourByteCode(b, p - 1))
    decreases |b| - i
  {
    if p != i {
      if ThreeByteCode(b, i) {
        EveryCodeIsFound(b, i + 3, p);
      } else if FourByteCode(b, i) {
        if p > i + 1 {
          EveryCodeIsFound(b, i + 4, p);
        }
      } else {
        EveryCodeIsFound(b, i + 1, p);
      }
    }
  }

  /** Appending bytes only appends start codes. */
  lemma {:induction false} StartsGrow(b: bytes, x: bytes, i: nat)
    ensures StartsFrom(b, i) <= StartsFrom(b + x, i)
    decreases |b| - i
  {
    if i + 3 < |b| {
      StartsGrow(b, x, if ThreeByteCode(b, i) then i + 3 else if FourByteCode(b, i) then i + 4 else i + 1);
    }
  }

  function Shift(s: seq<nat>, p: nat): seq<nat> {
    seq(|s|, k requires 0 <= k < |s| => s[k] + p)
  }

  /** Scanning a suffix finds the same codes, counted from its own start. */
  lemma {:induction false} StartsShift(b: bytes, p: nat, i: nat)
    requires p <= |b|
    ensures StartsFrom(b, p + i) == Shift(StartsFrom(b[p..], i), p)
    decreases |b| - p - i
  {
    var c := b[p..];
    if i + 3 < |c| {
      CodesShift(b, p, i);
      hide ThreeByteCode, FourByteCode;
      var next := if ThreeByteCode(c, i) then i + 3 else if FourByteCode(c, i) then i + 4 else i + 1;
      StartsShift(b, p, next);
      ShiftCons(i, StartsFrom(c, next), p);
    }
  }

  lemma ShiftCons(i: nat, s: seq<nat>, p: nat)
    ensures Shift([i] + s, p) == [p + i] + Shift(s, p)
  {
  }

  lemma CodesShift(b: bytes, p: nat, i: nat)
    requires p <= |b|
    ensures ThreeByteCode(b, p + i) <==> ThreeByteCode(b[p..], i)
    ensures FourByteCode(b, p + i) <==> FourByteCode(b[p..], i)
  {
  }

  /** The scan from a listed code is the tail of the scan. */
  lemma {:induction false} StartsResume(b: bytes, i: nat, k: nat)
    requires k < |StartsFrom(b, i)|
    ensures StartsFrom(b, StartsFrom(b, i)[k]) == StartsFrom(b, i)[k..]
    decreases |b| - i
  {
    if ThreeByteCode(b, i) {
      if k > 0 {
        StartsResume(b, i + 3, k - 1);
      }
    } else if FourByteCode(b, i) {
      if k > 0 {
        StartsResume(b, i + 4, k - 1);
      }
    } else {
      StartsResume(b, i + 1, k);
    }
  }

  // ---- NAL units ----

  function NALOffset(b: bytes, sc: nat): int {
    if sc + 4 <= |b| && b[sc] == 0 && b[sc + 1] == 0 && b[sc + 2] == 0 && b[sc + 3] == 1 then sc + 4
    else if sc + 3 <= |b| && b[sc] == 0 && b[sc + 1] == 0 && b[sc + 2] == 1 then sc + 3
    else -1
  }

  /** NAL unit types 0..21 of H.265 section 7.4.2.2; types 1 and 5 of H.264 section 7.4.1. */
  predicate IsVCL(header: byte, hevc: bool) {
    if hevc then (header / 2) % 64 <= 21 else header % 32 == 1 || header % 32 == 5
  }

  /** The NAL unit at start code sc has its header in b and is a slice. */
  predicate VCLAt(b: bytes, sc: nat, hevc: bool) {
    var off := NALOffset(b, sc);
    0 <= off < |b| && IsVCL(b[off], hevc)
  }

  function FirstVCL(b: bytes, starts: seq<nat>, hevc: bool, i: nat): (r: nat)
    ensures i <= |starts| ==> i <= r <= |starts|
    ensures forall k | i <= k < r && k < |starts| :: !VCLAt(b, starts[k], hevc)
    ensures i <= |starts| && r < |starts| ==> VCLAt(b, starts[r], hevc)
    decreases |starts| - i
  {
    if i >= |starts| || VCLAt(b, starts[i], hevc) then i else FirstVCL(b, starts, hevc, i + 1)
  }

  /** popAnnexBAU without forcing: the access unit and the rest, if a unit is complete. */
  function Pop(buf: bytes, hevc: bool): (r: Option<(bytes, bytes)>)
    ensures r.Some? ==> |r.value.1| < |buf|
  {
    if |buf| < 8 then None
    else
      var starts := Starts(buf);
      var v := FirstVCL(buf, starts, hevc, 0);
      if v + 1 < |starts| then
        StartsAreCodes(buf, 0, starts);
        assert starts[0] + 3 <= starts[v + 1];
        Some((buf[starts[0]..starts[v + 1]], buf[starts[v + 1]..]))
      else None
  }

  /** The emit loop: pops until no unit is complete. */
  function Split(buf: bytes, hevc: bool): (seq<bytes>, bytes)
    decreases |buf|
  {
    match Pop(buf, hevc)
    case None => ([], buf)
    case Some((au, rest)) => var (aus, left) := Split(rest, hevc); ([au] + aus, left)
  }

  class Splitter {
    const hevc: bool
    var buf: bytes
    var units: seq<bytes>

    constructor (hevc: bool)
      ensures buf == [] && units == [] && this.hevc == hevc
    {
      this.hevc := hevc;
      buf, units := [], [];
    }

    /** One chunk read from the encoder: buf = append(buf, chunk), then emit(false). */
    method Feed(chunk: bytes)
      modifies this
      ensures var (aus, left) := Split(old(buf) + chunk, hevc); units == old(units) + aus && buf == left
    {
      buf := buf + chunk;
      ghost var whole := buf;
      hide Pop;
      var popped := Pop(buf, hevc);
      while popped.Some?
        invariant popped == Pop(buf, hevc)
        invariant units + Split(buf, hevc).0 == old(units) + Split(whole, hevc).0
        invariant Split(buf, hevc).1 == Split(whole, hevc).1
        decreases |buf|
      {
        ghost var rest := Split(popped.value.1, hevc).0;
        Assoc(units, [popped.value.0], rest);
        units := units + [popped.value.0];
        buf := popped.value.1;
        popped := Pop(buf, hevc);
      }
    }
  }

  // ---- chunking ----

  lemma VCLStable(b: bytes, x: bytes, sc: nat, hevc: bool)
    requires NALOffset(b, sc) < |b| && (ThreeByteCode(b, sc) || FourByteCode(b, sc))
    ensures VCLAt(b + x, sc, hevc) <==> VCLAt(b, sc, hevc)
  {
  }

  lemma ListedVCLStable(b: bytes, x: bytes, hevc: bool, k: nat)
    requires k + 1 < |Starts(b)|
    ensures Starts(b) <= Starts(b + x)
    ensures VCLAt(b + x, Starts(b + x)[k], hevc) <==> VCLAt(b, Starts(b)[k], hevc)
  {
    StartsGrow(b, x, 0);
    StartsAreCodes(b, 0, Starts(b));
    var p := Starts(b)[k];
    assert p + 3 <= Starts(b)[k + 1] < |b|;
    assert Starts(b + x)[k] == p;
    VCLStable(b, x, p, hevc);
  }

  /** A complete unit stays the same unit however many bytes follow. */
  lemma PopIsStable(b: bytes, x: bytes, hevc: bool)
    requires Pop(b, hevc).Some?
    ensures Pop(b + x, hevc) == Some((Pop(b, hevc).value.0, Pop(b, hevc).value.1 + x))
  {
    var s, t := Starts(b), Starts(b + x);
    var v, w := FirstVCL(b, s, hevc, 0), FirstVCL(b + x, t, hevc, 0);
    StartsAreCodes(b, 0, s);
    PopSlices(b, x, s[0], s[v + 1]);
    hide Starts, FirstVCL, VCLAt, IsCode;
    ListedVCLStable(b, x, hevc, v);
    forall k | 0 <= k <= v ensures VCLAt(b + x, t[k], hevc) <==> VCLAt(b, s[k], hevc) {
      ListedVCLStable(b, x, hevc, k);
    }
    assert w == v;
  }

  lemma PopSlices(b: bytes, x: bytes, p: nat, q: nat)
    requires p <= q <= |b|
    ensures (b + x)[p..q] == b[p..q] && (b + x)[q..] == b[q..] + x
  {
  }

  lemma {:induction false} SplitAppend(b: bytes, x: bytes, hevc: bool)
    ensures var (aus, left) := Split(b, hevc);
            var (more, end) := Split(left + x, hevc);
            Split(b + x, hevc) == (aus + more, end)
    decreases |b|
  {
    match Pop(b, hevc)
    case None => assert [] + Split(b + x, hevc).0 == Split(b + x, hevc).0;
    case Some((au, rest)) =>
      PopIsStable(b, x, hevc);
      SplitAppend(rest, x, hevc);
      var (aus, left) := Split(rest, hevc);
      var (more, end) := Split(left + x, hevc);
      Assoc([au], aus, more);
  }

  function Concat(chunks: seq<bytes>): bytes {
    if chunks == [] then [] else chunks[0] + Concat(chunks[1..])
  }

  /** Feeding chunk after chunk, starting with left in the buffer. */
  function FeedAll(left: bytes, chunks: seq<bytes>, hevc: bool): (seq<bytes>, bytes)
    decreases |chunks|
  {
    if chunks == [] then ([], left)
    else
      var (aus, rest) := Split(left + chunks[0], hevc);
      var (more, end) := FeedAll(rest, chunks[1..], hevc);
      (aus + more, end)
  }

  lemma {:induction false} SplitIsDone(b: bytes, hevc: bool)
    ensures Split(Split(b, hevc).1, hevc) == ([], Split(b, hevc).1)
    decreases |b|
  {
    match Pop(b, hevc)
    case None =>
    case Some((au, rest)) => SplitIsDone(rest, hevc);
  }

  lemma {:induction false} FeedAllIsSplit(left: bytes, chunks: seq<bytes>, hevc: bool)
    requires Split(left, hevc) == ([], left)
    ensures FeedAll(left, chunks, hevc) == Split(left + Concat(chunks), hevc)
    decreases |chunks|
  {
    if chunks == [] {
      assert left + [] == left;
    } else {
      var (aus, rest) := Split(left + chunks[0], hevc);
      SplitIsDone(left + chunks[0], hevc);
      hide Split;
      FeedAllIsSplit(rest, chunks[1..], hevc);
      SplitAppend(left + chunks[0], Concat(chunks[1..]), hevc);
      Assoc(left, chunks[0], Concat(chunks[1..]));
    }
  }

  /** However the stream is cut into reads, the splitter emits the same access units and
      keeps the same remainder. */
  lemma ChunkingIsIrrelevant(a: seq<bytes>, b: seq<bytes>, hevc: bool)
    requires Concat(a) == Concat(b)
    ensures FeedAll([], a, hevc) == FeedAll([], b, hevc) == Split(Concat(a), hevc)
  {
    FeedAllIsSplit([], a, hevc);
    FeedAllIsSplit([], b, hevc);
    assert [] + Concat(a) == Concat(a);
  }

  // ---- nothing lost, one slice per unit ----

  /** b[from..to] runs from start code j to start code m + 1, and of the NAL units in it
      only the last, m, is a slice. */
  predicate IsUnit(b: bytes, hevc: bool, from: nat, to: nat, j: nat, m: nat) {
    var s := Starts(b);
    && j <= m && m + 1 < |s| && s[j] == from && s[m + 1] == to
    && VCLAt(b, s[m], hevc)
    && forall i | j <= i < m :: !VCLAt(b, s[i], hevc)
  }

  ghost predicate IsAccessUnit(b: bytes, hevc: bool, from: nat, to: nat) {
    exists j: nat, m: nat :: IsUnit(b, hevc, from, to, j, m)
  }

  /** The units lie one behind the other in b, beginning at offset from. */
  ghost predicate Tile(b: bytes, hevc: bool, from: nat, aus: seq<bytes>, left: bytes)
    decreases |aus|
  {
    if aus == [] then from <= |b| && left == b[from..]
    else
      && from + |aus[0]| <= |b|
      && aus[0] == b[from..from + |aus[0]|]
      && IsAccessUnit(b, hevc, from, from + |aus[0]|)
      && Tile(b, hevc, from + |aus[0]|, aus[1..], left)
  }

  lemma StartsOfRest(b: bytes, k: nat)
    requires k < |Starts(b)| && Starts(b)[k] <= |b|
    ensures var p, t := Starts(b)[k], Starts(b[Starts(b)[k]..]);
            && |t| == |Starts(b)| - k
            && forall i | 0 <= i < |t| :: Starts(b)[k + i] == t[i] + p
  {
    var s := Starts(b);
    var p := s[k];
    StartsAreCodes(b, 0, s);
    StartsResume(b, 0, k);
    StartsShift(b, p, 0);
    var t := Starts(b[p..]);
    assert Shift(t, p) == s[k..];
    assert forall i | 0 <= i < |t| :: Shift(t, p)[i] == t[i] + p;
    assert forall i | 0 <= i < |t| :: s[k..][i] == s[k + i];
  }

  lemma VCLShift(b: bytes, p: nat, s: nat, hevc: bool)
    requires p <= |b|
    ensures VCLAt(b[p..], s, hevc) <==> VCLAt(b, s + p, hevc)
  {
  }

  /** Counted from start code k of b, the first slice of the rest is the first from k on. */
  lemma FirstVCLOfRest(b: bytes, k: nat, hevc: bool, v: nat)
    requires k < |Starts(b)| && Starts(b)[k] <= |b|
    requires var c := b[Starts(b)[k]..]; v == FirstVCL(c, Starts(c), hevc, 0) && v < |Starts(c)|
    ensures k + v < |Starts(b)| && VCLAt(b, Starts(b)[k + v], hevc)
    ensures forall i | k <= i < k + v :: !VCLAt(b, Starts(b)[i], hevc)
  {
    StartsOfRest(b, k);
    var s := Starts(b);
    var p := s[k];
    var c := b[p..];
    var t := Starts(c);
    hide Starts, VCLAt;
    forall i | k <= i <= k + v ensures VCLAt(b, s[i], hevc) <==> VCLAt(c, t[i - k], hevc) {
      assert s[k + (i - k)] == t[i - k] + p;
      VCLShift(b, p, t[i - k], hevc);
    }
  }

  lemma PopIsFirstVCL(c: bytes, hevc: bool) returns (v: nat)
    requires Pop(c, hevc).Some?
    ensures var t := Starts(c);
            && v == FirstVCL(c, t, hevc, 0) && v + 1 < |t|
            && t[0] + 3 <= t[v + 1] <= |c|
            && Pop(c, hevc) == Some((c[t[0]..t[v + 1]], c[t[v + 1]..]))
  {
    var t := Starts(c);
    StartsAreCodes(c, 0, t);
    hide Starts, FirstVCL;
    v := FirstVCL(c, t, hevc, 0);
    assert t[0] + 3 <= t[v + 1];
  }

  /** What Pop does to the part of b from its start code k on. */
  lemma PopAt(b: bytes, k: nat, hevc: bool) returns (m: nat)
    requires k < |Starts(b)| && Starts(b)[k] <= |b| && Pop(b[Starts(b)[k]..], hevc).Some?
    ensures k <= m && m + 1 < |Starts(b)|
    ensures var p, q := Starts(b)[k], Starts(b)[m + 1];
            && p < q <= |b|
            && Pop(b[p..], hevc) == Some((b[p..q], b[q..]))
            && IsUnit(b, hevc, p, q, k, m)
  {
    var p := Starts(b)[k];
    var c := b[p..];
    var v := PopIsFirstVCL(c, hevc);
    FirstVCLOfRest(b, k, hevc, v);
    StartsOfRest(b, k);
    hide Starts, VCLAt, Pop, FirstVCL;
    var t := Starts(c);
    m := k + v;
    assert Starts(b)[k + 0] == t[0] + p;
    assert Starts(b)[k + (v + 1)] == t[v + 1] + p;
    SliceOfRest(b, p, t[v + 1]);
  }

  lemma SliceOfRest(b: bytes, p: nat, q: nat)
    requires p + q <= |b|
    ensures b[p..][0..q] == b[p..p + q] && b[p..][q..] == b[p + q..]
  {
  }

  lemma {:induction false} UnitsTileFrom(b: bytes, k: nat, hevc: bool)
    requires k < |Starts(b)| && Starts(b)[k] <= |b|
    ensures var (aus, left) := Split(b[Starts(b)[k]..], hevc);
            Tile(b, hevc, Starts(b)[k], aus, left)
    decreases |b| - Starts(b)[k]
  {
    hide Starts, Pop, IsUnit;
    var p := Starts(b)[k];
    if Pop(b[p..], hevc).Some? {
      var m := PopAt(b, k, hevc);
      var q := Starts(b)[m + 1];
      assert |b[p..q]| == q - p;
      assert IsAccessUnit(b, hevc, p, q);
      UnitsTileFrom(b, m + 1, hevc);
      var (aus, left) := Split(b[q..], hevc);
      assert ([b[p..q]] + aus)[1..] == aus;
    }
  }

  /** Bytes before the first start code do not matter to what is popped. */
  lemma PopIgnoresJunk(b: bytes, hevc: bool) returns (m: nat)
    requires Pop(b, hevc).Some?
    ensures m + 1 < |Starts(b)|
    ensures var p, q := Starts(b)[0], Starts(b)[m + 1];
            && p < q <= |b|
            && Pop(b, hevc) == Some((b[p..q], b[q..]))
            && IsUnit(b, hevc, p, q, 0, m)
  {
    var s := Starts(b);
    StartsAreCodes(b, 0, s);
    m := FirstVCL(b, s, hevc, 0);
    assert s[0] + 3 <= s[m + 1];
  }

  /** Whatever the splitter emits tiles the stream from its first start code: every unit has
      exactly one slice, its last NAL unit, and the remainder follows the last unit. */
  lemma UnitsTileTheStream(b: bytes, hevc: bool)
    requires Split(b, hevc).0 != []
    ensures Starts(b) != []
    ensures Tile(b, hevc, Starts(b)[0], Split(b, hevc).0, Split(b, hevc).1)
  {
    var m := PopIgnoresJunk(b, hevc);
    UnitsTileFrom(b, m + 1, hevc);
  }

  // ---- in NAL unit types ----

  /** The byte behind the start code at sc: the header of its NAL unit. */
  function HeaderAt(b: bytes, sc: nat): byte
    requires IsCode(b, sc) && sc + 4 < |b|
  {
    if b[sc + 2] == 1 then b[sc + 3] else b[sc + 4]
  }

  /** nal_unit_type of H.264 section 7.3.1 in five bits, of H.265 section 7.3.1.2 in six. */
  function NALType(header: byte, hevc: bool): nat {
    if hevc then (header % 128) / 2 else header % 32
  }

  predicate IsSlice(nalType: nat, hevc: bool) {
    if hevc then nalType <= 21 else nalType in {1, 5}
  }

  lemma VCLIsSlice(b: bytes, sc: nat, hevc: bool)
    requires IsCode(b, sc) && sc + 4 < |b|
    ensures VCLAt(b, sc, hevc) <==> IsSlice(NALType(HeaderAt(b, sc), hevc), hevc)
  {
  }

  /** b[from..to] runs from start code j to start code m + 1; the NAL unit behind start code m
      is a slice by its type and those behind the earlier ones are not. */
  predicate SliceAtEnd(b: bytes, hevc: bool, from: nat, to: nat, j: nat, m: nat) {
    var s := Starts(b);
    && j <= m && m + 1 < |s| && s[j] == from && s[m + 1] == to
    && forall i | j <= i <= m ::
         && IsCode(b, s[i]) && s[i] + 4 < |b|
         && (IsSlice(NALType(HeaderAt(b, s[i]), hevc), hevc) <==> i == m)
  }

  ghost predicate EndsWithSlice(b: bytes, hevc: bool, from: nat, to: nat) {
    exists j: nat, m: nat :: SliceAtEnd(b, hevc, from, to, j, m)
  }

  lemma UnitEndsWithSlice(b: bytes, hevc: bool, from: nat, to: nat)
    requires IsAccessUnit(b, hevc, from, to)
    ensures EndsWithSlice(b, hevc, from, to)
  {
    var s := Starts(b);
    StartsAreCodes(b, 0, s);
    var j: nat, m: nat :| IsUnit(b, hevc, from, to, j, m);
    hide Starts, NALOffset;
    forall i | j <= i <= m
      ensures IsCode(b, s[i]) && s[i] + 4 < |b|
      ensures IsSlice(NALType(HeaderAt(b, s[i]), hevc), hevc) <==> i == m
    {
      assert s[i] + 3 <= s[i + 1] && IsCode(b, s[i + 1]);
      VCLIsSlice(b, s[i], hevc);
    }
    assert SliceAtEnd(b, hevc, from, to, j, m);
  }

  function Offset(from: nat, aus: seq<bytes>): nat {
    if aus == [] then from else Offset(from, aus[..|aus| - 1]) + |aus[|aus| - 1]|
  }

  lemma {:induction false} TiledUnit(b: bytes, hevc: bool, from: nat, aus: seq<bytes>, left: bytes, k: nat)
    requires Tile(b, hevc, from, aus, left) && k < |aus|
    ensures IsAccessUnit(b, hevc, Offset(from, aus[..k]), Offset(from, aus[..k]) + |aus[k]|)
    decreases |aus|
  {
    hide IsAccessUnit, Starts;
    if k > 0 {
      TiledUnit(b, hevc, from + |aus[0]|, aus[1..], left, k - 1);
      OffsetShift(from, aus[..k]);
      assert aus[..k][1..] == aus[1..][..k - 1];
    }
  }

  lemma {:induction false} OffsetShift(from: nat, aus: seq<bytes>)
    requires aus != []
    ensures Offset(from, aus) == Offset(from + |aus[0]|, aus[1..])
    decreases |aus|
  {
    var n := |aus| - 1;
    if n > 0 {
      OffsetShift(from, aus[..n]);
      assert aus[..n][1..] == aus[1..][..n - 1];
      assert aus[1..][n - 1] == aus[n];
    }
  }

  /** Every unit emitted ends with its slice, by NAL unit types: 1 or 5 in H.264, up to 21 in
      H.265, and no NAL unit before the last has such a type. */
  lemma UnitsEndWithSlices(b: bytes, hevc: bool, k: nat)
    requires k < |Split(b, hevc).0|
    ensures Starts(b) != []
    ensures var aus := Split(b, hevc).0;
            var from := Offset(Starts(b)[0], aus[..k]);
            EndsWithSlice(b, hevc, from, from + |aus[k]|)
  {
    hide Split, Tile, IsAccessUnit, EndsWithSlice, Starts, Offset;
    UnitsTileTheStream(b, hevc);
    var aus := Split(b, hevc).0;
    TiledUnit(b, hevc, Starts(b)[0], aus, Split(b, hevc).1, k);
    var from := Offset(Starts(b)[0], aus[..k]);
    UnitEndsWithSlice(b, hevc, from, from + |aus[k]|);
  }

  /** Start code i has a slice behind it and another start code follows. */
  predicate ClosedSlice(b: bytes, hevc: bool, i: nat) {
    var s := Starts(b);
    && i + 1 < |s| && IsCode(b, s[i]) && s[i] + 4 < |b|
    && IsSlice(NALType(HeaderAt(b, s[i]), hevc), hevc)
  }

  lemma ClosedIsVCL(b: bytes, hevc: bool, i: nat)
    requires i + 1 < |Starts(b)|
    ensures ClosedSlice(b, hevc, i) <==> VCLAt(b, Starts(b)[i], hevc)
  {
    var s := Starts(b);
    StartsAreCodes(b, 0, s);
    assert s[i] + 3 <= s[i + 1] && IsCode(b, s[i + 1]);
    VCLIsSlice(b, s[i], hevc);
  }

  /** A unit is complete exactly when some start code, with a slice behind it, is followed by
      another, in eight bytes or more. */
  lemma PopIff(b: bytes, hevc: bool)
    ensures Pop(b, hevc).Some? <==> |b| >= 8 && exists i: nat :: ClosedSlice(b, hevc, i)
  {
    var s := Starts(b);
    var v := FirstVCL(b, s, hevc, 0);
    if v + 1 < |s| {
      ClosedIsVCL(b, hevc, v);
    }
    if i: nat :| ClosedSlice(b, hevc, i) {
      ClosedIsVCL(b, hevc, i);
      assert v <= i;
    }
  }

  /** So none is kept back: the remainder holds no complete unit. */
  lemma NothingIsKeptBack(b: bytes, hevc: bool, i: nat)
    requires |Split(b, hevc).1| >= 8
    ensures !ClosedSlice(Split(b, hevc).1, hevc, i)
  {
    SplitIsDone(b, hevc);
    PopIff(Split(b, hevc).1, hevc);
  }

  lemma CutAt(b: bytes, from: nat, mid: nat)
    requires from <= mid <= |b|
    ensures b[from..] == b[from..mid] + b[mid..]
  {
  }

  lemma {:induction false} TileIsContent(b: bytes, hevc: bool, from: nat, aus: seq<bytes>, left: bytes)
    requires Tile(b, hevc, from, aus, left)
    ensures from <= |b| && Concat(aus) + left == b[from..]
    decreases |aus|
  {
    if aus == [] {
      assert [] + left == left;
    } else {
      var mid := from + |aus[0]|;
      hide IsAccessUnit;
      assert mid <= |b| && aus[0] == b[from..mid] && Tile(b, hevc, mid, aus[1..], left);
      assert Concat(aus) == aus[0] + Concat(aus[1..]);
      hide Tile, Concat;
      TileIsContent(b, hevc, mid, aus[1..], left);
      Assoc(aus[0], Concat(aus[1..]), left);
      CutAt(b, from, mid);
    }
  }

  /** No byte is lost or duplicated: units and remainder, put together, are the stream from
      its first start code, or the whole stream while no unit is complete. */
  lemma SplittingIsLossless(chunks: seq<bytes>, hevc: bool)
    ensures var (aus, left) := FeedAll([], chunks, hevc);
            var b := Concat(chunks);
            if aus == [] then left == b
            else Starts(b) != [] && Starts(b)[0] <= |b| && Concat(aus) + left == b[Starts(b)[0]..]
  {
    ChunkingIsIrrelevant(chunks, chunks, hevc);
    var b := Concat(chunks);
    var (aus, left) := Split(b, hevc);
    if aus != [] {
      UnitsTileTheStream(b, hevc);
      TileIsContent(b, hevc, Starts(b)[0], aus, left);
    }
  }
}
