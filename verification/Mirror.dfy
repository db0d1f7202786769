/** UTF-8 as Go's unicode/utf8 decodes it (section 3 of RFC 3629). */
module Utf8 {
  import opened Words

  type rune = c: int | 0 <= c <= 0x10_FFFF

  const RUNE_ERROR: rune := 0xFFFD

  /** The length a lead byte announces; 1 also for bytes that cannot lead. */
  function Announced(b: byte): (n: nat)
    ensures 1 <= n <= 4
  {
    if 0xC2 <= b <= 0xDF then 2
    else if 0xE0 <= b <= 0xEF then 3
    else if 0xF0 <= b <= 0xF4 then 4
    else 1
  }

  /** Whether b may be the second byte after lead. */
  predicate Second(lead: byte, b: byte) {
    var lo := if lead == 0xE0 then 0xA0 else if lead == 0xF0 then 0x90 else 0x80;
    var hi := if lead == 0xED then 0x9F else if lead == 0xF4 then 0x8F else 0xBF;
    lo <= b <= hi
  }

  predicate Continuation(b: byte) {
    0x80 <= b <= 0xBF
  }

  predicate FullRune(p: bytes) {
    && p != []
    && (|| |p| >= Announced(p[0])
        || (|p| > 1 && !Second(p[0], p[1]))
        || (|p| > 2 && !Continuation(p[2])))
  }

  function Pack2(a: int, b: int): int {
    (a - 0xC0) * 0x40 + (b - 0x80)
  }

  function Pack3(a: int, b: int, c: int): int {
    (a - 0xE0) * 0x1000 + (b - 0x80) * 0x40 + (c - 0x80)
  }

  function Pack4(a: int, b: int, c: int, d: int): int {
    (a - 0xF0) * 0x4_0000 + (b - 0x80) * 0x1000 + (c - 0x80) * 0x40 + (d - 0x80)
  }

  function DecodeRune(p: bytes): (r: (rune, nat))
    requires p != []
    ensures 1 <= r.1 <= 4
  {
    var n := Announced(p[0]);
    if n == 1 then (if p[0] < 0x80 then p[0] else RUNE_ERROR, 1)
    else if |p| < n || !Second(p[0], p[1]) then (RUNE_ERROR, 1)
    else if n == 2 then (Pack2(p[0], p[1]), 2)
    else if !Continuation(p[2]) then (RUNE_ERROR, 1)
    else if n == 3 then (Pack3(p[0], p[1], p[2]), 3)
    else if !Continuation(p[3]) then (RUNE_ERROR, 1)
    else (Pack4(p[0], p[1], p[2], p[3]), 4)
  }

  /** A scalar value: any code point that is not a surrogate. */
  predicate IsScalar(c: rune) {
    !(0xD800 <= c <= 0xDFFF)
  }

  function EncodeRune(c: rune): (b: bytes)
    ensures 1 <= |b| <= 4
  {
    if c < 0x80 then [c]
    else if c < 0x800 then [0xC0 + c / 0x40, 0x80 + c % 0x40]
    else if c < 0x1_0000 then [0xE0 + c / 0x1000, 0x80 + c / 0x40 % 0x40, 0x80 + c % 0x40]
    else [0xF0 + c / 0x4_0000, 0x80 + c / 0x1000 % 0x40, 0x80 + c / 0x40 % 0x40, 0x80 + c % 0x40]
  }

  /** A full rune is decoded from its own bytes: what follows does not matter. */
  lemma FullRuneIsStable(p: bytes, x: bytes)
    requires FullRune(p)
    ensures FullRune(p + x) && DecodeRune(p + x) == DecodeRune(p) && DecodeRune(p).1 <= |p|
  {
  }

  lemma Digits(c: rune)
    ensures c == c / 0x40 * 0x40 + c % 0x40
    ensures c / 0x40 == c / 0x1000 * 0x40 + c / 0x40 % 0x40
    ensures c / 0x1000 == c / 0x4_0000 * 0x40 + c / 0x1000 % 0x40
  {
  }

  lemma LeadDecides(c: rune)
    requires c >= 0x80 && IsScalar(c)
    ensures var e := EncodeRune(c); Announced(e[0]) == |e| && Second(e[0], e[1])
  {
    Digits(c);
  }

  lemma DecodeInvertsEncode(c: rune, rest: bytes)
    requires IsScalar(c)
    ensures FullRune(EncodeRune(c) + rest) && DecodeRune(EncodeRune(c) + rest) == (c, |EncodeRune(c)|)
  {
    var e := EncodeRune(c);
    var p := e + rest;
    assert forall i | 0 <= i < |e| :: p[i] == e[i];
    if c >= 0x80 {
      LeadDecides(c);
      Digits(c);
      hide Announced, Second;
      if |e| == 2 {
        assert DecodeRune(p).0 == Pack2(e[0], e[1]) == c;
      } else if |e| == 3 {
        assert DecodeRune(p).0 == Pack3(e[0], e[1], e[2]) == c;
      } else {
        assert DecodeRune(p).0 == Pack4(e[0], e[1], e[2], e[3]) == c;
      }
    }
  }

  lemma Shares(a: int, b: int)
    requires 0 <= b < 0x40
    ensures (a * 0x40 + b) / 0x40 == a && (a * 0x40 + b) % 0x40 == b
  {
  }

  /** In the other direction: what is decoded is a scalar value and the bytes taken are its
      encoding, or else it is U+FFFD for a single byte. */
  lemma DecodedIsEncoded(p: bytes)
    requires p != []
    ensures var (c, n) := DecodeRune(p);
            (c, n) == (0xFFFD, 1) || (IsScalar(c) && n <= |p| && EncodeRune(c) == p[..n])
  {
    var (c, n) := DecodeRune(p);
    if (c, n) != (RUNE_ERROR, 1) {
      if n == 2 {
        Shares(p[0] - 0xC0, p[1] - 0x80);
        assert p[..2] == [p[0], p[1]];
      } else if n == 3 {
        Encoded3(p[0], p[1], p[2], c);
        assert p[..3] == [p[0], p[1], p[2]];
      } else if n == 4 {
        Encoded4(p[0], p[1], p[2], p[3], c);
        assert p[..4] == [p[0], p[1], p[2], p[3]];
      }
    }
  }

  lemma Encoded3(a: byte, b: byte, d: byte, c: rune)
    requires 0xE0 <= a <= 0xEF && Second(a, b) && Continuation(d) && c == Pack3(a, b, d)
    ensures IsScalar(c) && EncodeRune(c) == [a, b, d]
  {
    var top := (a - 0xE0) * 0x40 + (b - 0x80);
    assert c == top * 0x40 + (d - 0x80);
    Shares(top, d - 0x80);
    Shares(a - 0xE0, b - 0x80);
    Digits(c);
  }

  lemma Encoded4(a: byte, b: byte, d: byte, e: byte, c: rune)
    requires 0xF0 <= a <= 0xF4 && Second(a, b) && Continuation(d) && Continuation(e) && c == Pack4(a, b, d, e)
    ensures IsScalar(c) && EncodeRune(c) == [a, b, d, e]
  {
    var high := (a - 0xF0) * 0x40 + (b - 0x80);
    var top := high * 0x40 + (d - 0x80);
    assert c == top * 0x40 + (e - 0x80);
    Shares(top, e - 0x80);
    Shares(high, d - 0x80);
    Shares(a - 0xF0, b - 0x80);
    Digits(c);
  }

  predicate Begins(p: bytes, c: rune) {
    IsScalar(c) && |p| < |EncodeRune(c)| && p == EncodeRune(c)[..|p|]
  }

  /** The parser waits for more bytes exactly while those it has may still become a character:
      they are part of the encoding of some scalar value. */
  lemma WaitsForARune(p: bytes)
    ensures !FullRune(p) <==> exists c: rune :: Begins(p, c)
  {
    if !FullRune(p) {
      var c := Completion(p);
      assert Begins(p, c);
    }
    if c: rune :| Begins(p, c) {
      if p != [] {
        LeadDecides(c);
        assert p[0] == EncodeRune(c)[0];
        Digits(c);
      }
    }
  }

  lemma Completion(p: bytes) returns (c: rune)
    requires !FullRune(p)
    ensures Begins(p, c)
  {
    if p == [] {
      c := 0x20;
    } else {
      var second := if |p| > 1 then p[1] else if p[0] == 0xE0 then 0xA0 else if p[0] == 0xF0 then 0x90 else 0x80;
      var full := ([p[0], second] + (if |p| > 2 then [p[2]] else [0x80]) + [0x80])[..Announced(p[0])];
      assert p == full[..|p|];
      c := DecodeRune(full).0;
      DecodedIsEncoded(full);
      assert full[..|full|] == full;
    }
  }
}

/** The incremental terminal input parser of internal/idemirror/mirror.go (readInput). */
module Mirror {
  import opened Words
  import opened Utf8

  const ESC: byte := 0x1b
  const BEL: byte := 0x07
  const CTRL_C: byte := 0x03
  const CTRL_D: byte := 0x04
  const CTRL_U: byte := 0x15

  /** What the parser puts on the jobs channel; an action is whatever decodeAction makes of
      the bytes of an OSC 7789 sequence. */
  datatype Job<A> = Line(text: seq<rune>) | Action(action: A) | Cancel

  /** pending is readInput's buffer; on Ctrl-D it returns, which drops the buffer. */
  datatype Term<A> = Term(pending: bytes, input: seq<rune>, pasting: bool, jobs: seq<Job<A>>, closed: bool)

  // ---- escape sequences ----

  function FinalByte(b: bytes, i: nat): Option<nat>
    decreases |b| - i
  {
    if i >= |b| then None
    else if 0x40 <= b[i] <= 0x7e then Some(i + 1)
    else FinalByte(b, i + 1)
  }

  function StringEnd(b: bytes, i: nat): Option<nat>
    decreases |b| - i
  {
    if i >= |b| then None
    else if b[i] == BEL then Some(i + 1)
    else if b[i] == ESC && i + 1 < |b| && b[i + 1] == 0x5c then Some(i + 2)
    else StringEnd(b, i + 1)
  }

  /** Length of the complete CSI, SS3, OSC or two-byte sequence at the start of b. */
  function EscapeLength(b: bytes): (n: Option<nat>)
    ensures n.Some? ==> 2 <= n.value <= |b|
  {
    if |b| < 2 then None
    else if b[1] == 0x5b || b[1] == 0x4f then
      FinalByteBound(b, 2);
      FinalByte(b, 2)
    else if b[1] == 0x5d then
      StringEndBound(b, 2);
      StringEnd(b, 2)
    else Some(2)
  }

  lemma {:induction false} FinalByteBound(b: bytes, i: nat)
    ensures FinalByte(b, i).Some? ==> i < FinalByte(b, i).value <= |b|
    decreases |b| - i
  {
    if i < |b| {
      FinalByteBound(b, i + 1);
    }
  }

  lemma {:induction false} StringEndBound(b: bytes, i: nat)
    ensures StringEnd(b, i).Some? ==> i < StringEnd(b, i).value <= |b|
    decreases |b| - i
  {
    if i < |b| {
      StringEndBound(b, i + 1);
    }
  }

  method EscapeSeq(b: bytes) returns (r: Option<bytes>)
    ensures r == match EscapeLength(b) case None => None case Some(n) => Some(b[..n])
  {
    if |b| < 2 {
      return None;
    }
    if b[1] == 0x5b || b[1] == 0x4f {
      var i := 2;
      while i < |b|
        invariant 2 <= i <= |b|
        invariant FinalByte(b, i) == FinalByte(b, 2)
      {
        if 0x40 <= b[i] <= 0x7e {
          return Some(b[..i + 1]);
        }
        i := i + 1;
      }
      return None;
    }
    if b[1] == 0x5d {
      var i := 2;
      while i < |b|
        invariant 2 <= i <= |b|
        invariant StringEnd(b, i) == StringEnd(b, 2)
      {
        if b[i] == BEL {
          return Some(b[..i + 1]);
        }
        if b[i] == ESC && i + 1 < |b| && b[i + 1] == 0x5c {
          return Some(b[..i + 2]);
        }
        i := i + 1;
      }
      return None;
    }
    return Some(b[..2]);
  }

  // ---- one step of the scan ----

  const PASTE_ON: bytes := [ESC, 0x5b, 0x32, 0x30, 0x30, 0x7e]
  const PASTE_OFF: bytes := [ESC, 0x5b, 0x32, 0x30, 0x31, 0x7e]
  const ACTION_TAG: bytes := [ESC, 0x5d, 0x37, 0x37, 0x38, 0x39, 0x3b]

  /** unicode.IsSpace. */
  predicate IsSpace(c: rune) {
    || 9 <= c <= 13 || c == 0x20 || c == 0x85 || c == 0xA0 || c == 0x1680
    || 0x2000 <= c <= 0x200a || c == 0x2028 || c == 0x2029 || c == 0x202f || c == 0x205f || c == 0x3000
  }

  function TrimLeft(s: seq<rune>): seq<rune> {
    if s != [] && IsSpace(s[0]) then TrimLeft(s[1..]) else s
  }

  function TrimRight(s: seq<rune>): seq<rune> {
    if s != [] && IsSpace(s[|s| - 1]) then TrimRight(s[..|s| - 1]) else s
  }

  function TrimSpace(s: seq<rune>): seq<rune> {
    TrimRight(TrimLeft(s))
  }

  function Submit<A>(t: Term<A>): Term<A> {
    var line := TrimSpace(t.input);
    t.(input := [], jobs := if line != [] then t.jobs + [Line(line)] else t.jobs)
  }

  function Obey<A>(t: Term<A>, sequence: bytes, decode: bytes -> Option<A>): Term<A> {
    if sequence == PASTE_ON then t.(pasting := true)
    else if sequence == PASTE_OFF then t.(pasting := false)
    else if ACTION_TAG <= sequence then
      match decode(sequence)
      case Some(a) => t.(jobs := t.jobs + [Action(a)])
      case None => t
    else t
  }

  /** One turn of the scan loop; None when it has to wait for more bytes. */
  function Turn<A>(t: Term<A>, decode: bytes -> Option<A>): (r: Option<Term<A>>)
    ensures r.Some? ==> !t.closed && t.pending != [] && |r.value.pending| < |t.pending|
  {
    if t.closed || t.pending == [] then None
    else
      var c := t.pending[0];
      var next := t.(pending := t.pending[1..]);
      if c == ESC then
        match EscapeLength(t.pending)
        case None => None
        case Some(n) => Some(Obey(t.(pending := t.pending[n..]), t.pending[..n], decode))
      else if c == 0x0d || c == 0x0a then
        Some(if t.pasting then next.(input := t.input + [0x0a]) else Submit(next))
      else if c == 0x7f || c == 0x08 then
        Some(if t.input != [] then next.(input := t.input[..|t.input| - 1]) else next)
      else if c == CTRL_U then Some(next.(input := []))
      else if c == CTRL_C then
        Some(next.(input := [], jobs := if t.input == [] then t.jobs + [Cancel] else t.jobs))
      else if c == CTRL_D then Some(t.(pending := [], closed := true))
      else if c < 0x20 then Some(next)
      else if !FullRune(t.pending) then None
      else
        var (r, size) := DecodeRune(t.pending);
        FullRuneIsStable(t.pending, []);
        Some(t.(pending := t.pending[size..], input := t.input + [r]))
  }

  function Scan<A>(t: Term<A>, decode: bytes -> Option<A>): Term<A>
    decreases |t.pending|
  {
    match Turn(t, decode)
    case None => t
    case Some(u) => Scan(u, decode)
  }

  /** One read: after Ctrl-D nothing is read any more. */
  function Read<A>(t: Term<A>, chunk: bytes, decode: bytes -> Option<A>): Term<A> {
    if t.closed then t else Scan(t.(pending := t.pending + chunk), decode)
  }

  function ReadAll<A>(t: Term<A>, chunks: seq<bytes>, decode: bytes -> Option<A>): Term<A>
    decreases |chunks|
  {
    if chunks == [] then t else ReadAll(Read(t, chunks[0], decode), chunks[1..], decode)
  }

  function Concat(chunks: seq<bytes>): bytes {
    if chunks == [] then [] else chunks[0] + Concat(chunks[1..])
  }

  function Idle<A>(): Term<A> {
    Term([], [], false, [], false)
  }

  // ---- the object ----

  class Session<A> {
    var pending: bytes
    var input: seq<rune>
    var pasting: bool
    var jobs: seq<Job<A>>
    var closed: bool

    function Value(): Term<A>
      reads this
    {
      Term(pending, input, pasting, jobs, closed)
    }

    constructor ()
      ensures Value() == Idle()
    {
      pending, input, pasting, jobs, closed := [], [], false, [], false;
    }

    /** Consumes and obeys the escape sequence at the start of pending, once it is complete. */
    method TakeEscape(decode: bytes -> Option<A>) returns (complete: bool)
      requires !closed && pending != [] && pending[0] == ESC
      modifies this
      ensures complete ==> Turn(old(Value()), decode) == Some(Value()) && !closed
      ensures !complete ==> Turn(old(Value()), decode) == None && Value() == old(Value())
    {
      var sequence := EscapeSeq(pending);
      if sequence.None? {
        return false;
      }
      pending := pending[|sequence.value|..];
      if sequence.value == PASTE_ON {
        pasting := true;
      } else if sequence.value == PASTE_OFF {
        pasting := false;
      } else if ACTION_TAG <= sequence.value {
        var a := decode(sequence.value);
        if a.Some? {
          jobs := jobs + [Action(a.value)];
        }
      }
      return true;
    }

    /** The body of readInput for one successful read. */
    method ReadInput(chunk: bytes, decode: bytes -> Option<A>)
      modifies this
      ensures Value() == Read(old(Value()), chunk, decode)
    {
      if closed {
        return;
      }
      pending := pending + chunk;
      hide DecodeRune, FullRune, TrimSpace, EscapeLength;
      ghost var filled := Value();
      while pending != []
        invariant !closed
        invariant Scan(Value(), decode) == Scan(filled, decode)
        decreases |pending|
      {
        var c := pending[0];
        if c == ESC {
          var complete := TakeEscape(decode);
          if !complete {
            return;
          }
        } else if c == 0x0d || c == 0x0a {
          pending := pending[1..];
          if pasting {
            input := input + [0x0a];
          } else {
            var line := TrimSpace(input);
            input := [];
            if line != [] {
              jobs := jobs + [Line(line)];
            }
          }
        } else if c == 0x7f || c == 0x08 {
          pending := pending[1..];
          if |input| > 0 {
            input := input[..|input| - 1];
          }
        } else if c == CTRL_U {
          pending := pending[1..];
          input := [];
        } else if c == CTRL_C {
          pending := pending[1..];
          var hadInput := |input| > 0;
          input := [];
          if !hadInput {
            jobs := jobs + [Cancel];
          }
        } else if c == CTRL_D {
          pending := [];
          closed := true;
          return;
        } else if c < 0x20 {
          pending := pending[1..];
        } else {
          if !FullRune(pending) {
            return;
          }
          FullRuneIsStable(pending, []);
          var (r, size) := DecodeRune(pending);
          pending := pending[size..];
          input := input + [r];
        }
      }
    }
  }

  // ---- chunking ----

  lemma {:induction false} FinalByteStable(b: bytes, x: bytes, i: nat)
    requires FinalByte(b, i).Some?
    ensures FinalByte(b + x, i) == FinalByte(b, i)
    decreases |b| - i
  {
    if !(0x40 <= b[i] <= 0x7e) {
      FinalByteStable(b, x, i + 1);
    }
  }

  lemma {:induction false} StringEndStable(b: bytes, x: bytes, i: nat)
    requires StringEnd(b, i).Some?
    ensures StringEnd(b + x, i) == StringEnd(b, i)
    decreases |b| - i
  {
    if b[i] != BEL && !(b[i] == ESC && i + 1 < |b| && b[i + 1] == 0x5c) {
      StringEndStable(b, x, i + 1);
      StringEndBound(b, i + 1);
    }
  }

  /** A complete sequence stays the same sequence however many bytes follow. */
  lemma EscapeIsStable(b: bytes, x: bytes)
    requires EscapeLength(b).Some?
    ensures EscapeLength(b + x) == EscapeLength(b)
  {
    if b[1] == 0x5b || b[1] == 0x4f {
      FinalByteStable(b, x, 2);
    } else if b[1] == 0x5d {
      StringEndStable(b, x, 2);
    }
  }

  /** And it is the shortest one: no proper prefix of it is complete. */
  lemma EscapeIsShortest(b: bytes, k: nat)
    requires EscapeLength(b).Some? && k < EscapeLength(b).value
    ensures EscapeLength(b[..k]) == None
  {
    assert b == b[..k] + b[k..];
    if EscapeLength(b[..k]).Some? {
      EscapeIsStable(b[..k], b[k..]);
    }
  }

  function Appended<A>(t: Term<A>, x: bytes): Term<A> {
    if t.closed then t else t.(pending := t.pending + x)
  }

  lemma EscapeTurnIsStable<A>(t: Term<A>, x: bytes, decode: bytes -> Option<A>)
    requires Turn(t, decode).Some? && t.pending[0] == ESC
    ensures Turn(t.(pending := t.pending + x), decode) == Some(Appended(Turn(t, decode).value, x))
  {
    var p := t.pending;
    var q := p + x;
    EscapeIsStable(p, x);
    hide EscapeLength;
    var n := EscapeLength(p).value;
    assert q[..n] == p[..n] && q[n..] == p[n..] + x;
  }

  lemma RuneTurnIsStable<A>(t: Term<A>, x: bytes, decode: bytes -> Option<A>)
    requires Turn(t, decode).Some? && t.pending[0] >= 0x20 && t.pending[0] != 0x7f
    ensures Turn(t.(pending := t.pending + x), decode) == Some(Appended(Turn(t, decode).value, x))
  {
    var p := t.pending;
    FullRuneIsStable(p, x);
    hide FullRune, DecodeRune;
    var size := DecodeRune(p).1;
    assert (p + x)[size..] == p[size..] + x;
  }

  lemma TurnIsStable<A>(t: Term<A>, x: bytes, decode: bytes -> Option<A>)
    requires Turn(t, decode).Some?
    ensures Turn(t.(pending := t.pending + x), decode) == Some(Appended(Turn(t, decode).value, x))
  {
    var p := t.pending;
    if p[0] == ESC {
      EscapeTurnIsStable(t, x, decode);
    } else if p[0] >= 0x20 && p[0] != 0x7f {
      RuneTurnIsStable(t, x, decode);
    } else {
      assert (p + x)[0] == p[0] && (p + x)[1..] == p[1..] + x;
    }
  }

  lemma {:induction false} ScanAppend<A>(t: Term<A>, x: bytes, decode: bytes -> Option<A>)
    requires !t.closed
    ensures Scan(t.(pending := t.pending + x), decode) == Read(Scan(t, decode), x, decode)
    decreases |t.pending|
  {
    match Turn(t, decode)
    case None =>
    case Some(u) =>
      TurnIsStable(t, x, decode);
      if u.closed {
        assert Scan(u, decode) == u;
      } else {
        ScanAppend(u, x, decode);
      }
  }

  lemma {:induction false} ReadsJoin<A>(t: Term<A>, chunks: seq<bytes>, decode: bytes -> Option<A>)
    requires Scan(t, decode) == t
    ensures ReadAll(t, chunks, decode) == Read(t, Concat(chunks), decode)
    decreases |chunks|
  {
    if chunks == [] {
      assert t.pending + [] == t.pending;
    } else if t.closed {
      ReadsJoin(t, chunks[1..], decode);
    } else {
      hide Turn, Scan;
      var u := Read(t, chunks[0], decode);
      ScanIsDone(t.(pending := t.pending + chunks[0]), decode);
      ReadsJoin(u, chunks[1..], decode);
      ScanAppend(t.(pending := t.pending + chunks[0]), Concat(chunks[1..]), decode);
      Assoc(t.pending, chunks[0], Concat(chunks[1..]));
    }
  }

  lemma {:induction false} ScanIsDone<A>(t: Term<A>, decode: bytes -> Option<A>)
    ensures Scan(Scan(t, decode), decode) == Scan(t, decode)
    decreases |t.pending|
  {
    match Turn(t, decode)
    case None =>
    case Some(u) => ScanIsDone(u, decode);
  }

  /** However the same bytes are split into reads, the same jobs are sent and the edit
      buffer, the paste mode, the unread rest and the exit come out the same. */
  lemma ChunkingIsIrrelevant<A>(a: seq<bytes>, b: seq<bytes>, decode: bytes -> Option<A>)
    requires Concat(a) == Concat(b)
    ensures ReadAll(Idle(), a, decode) == ReadAll(Idle(), b, decode)
  {
    ReadsJoin(Idle<A>(), a, decode);
    ReadsJoin(Idle<A>(), b, decode);
  }

  // ---- what typing does ----

  function Typed(text: seq<rune>): bytes {
    if text == [] then [] else EncodeRune(text[0]) + Typed(text[1..])
  }

  /** Text that is not a control character. */
  predicate Printable(text: seq<rune>) {
    forall i | 0 <= i < |text| :: text[i] >= 0x20 && text[i] != 0x7f && IsScalar(text[i])
  }

  lemma RuneIsAppended<A>(t: Term<A>, c: rune, more: bytes, decode: bytes -> Option<A>)
    requires !t.closed && c >= 0x20 && c != 0x7f && IsScalar(c)
    ensures Turn(t.(pending := EncodeRune(c) + more), decode) == Some(t.(input := t.input + [c], pending := more))
  {
    DecodeInvertsEncode(c, more);
    LeadIsPrintable(c, more);
    hide EncodeRune, DecodeRune, FullRune;
  }

  lemma {:induction false} TypingEdits<A>(t: Term<A>, text: seq<rune>, rest: bytes, decode: bytes -> Option<A>)
    requires !t.closed && t.pending == [] && Printable(text)
    ensures Scan(t.(pending := Typed(text) + rest), decode) ==
            Scan(t.(input := t.input + text, pending := rest), decode)
    decreases |text|
  {
    hide Turn, EncodeRune;
    if text == [] {
      assert Typed(text) + rest == rest && t.input + text == t.input;
    } else {
      var c := text[0];
      var more := Typed(text[1..]) + rest;
      assert Typed(text) + rest == EncodeRune(c) + more;
      RuneIsAppended(t, c, more, decode);
      TypingEdits(t.(input := t.input + [c]), text[1..], rest, decode);
      assert t.input + text == t.input + [c] + text[1..];
    }
  }

  lemma LeadIsPrintable(c: rune, more: bytes)
    requires c >= 0x20 && c != 0x7f
    ensures var lead := (EncodeRune(c) + more)[0]; lead >= 0x20 && lead != 0x7f
    ensures (EncodeRune(c) + more)[|EncodeRune(c)|..] == more
  {
  }

  /** Typing a line and Return, in whatever reads it arrives, submits that line trimmed,
      whatever script it is written in, and nothing if it is blank. */
  lemma TypedLineIsSubmitted<A>(text: seq<rune>, eol: byte, chunks: seq<bytes>, decode: bytes -> Option<A>)
    requires Printable(text) && (eol == 0x0d || eol == 0x0a)
    requires Concat(chunks) == Typed(text) + [eol]
    ensures ReadAll(Idle(), chunks, decode) ==
            Term([], [], false, if TrimSpace(text) == [] then [] else [Line(TrimSpace(text))], false)
  {
    ReadsJoin(Idle<A>(), chunks, decode);
    var t := Idle<A>();
    TypingEdits(t, text, [eol], decode);
    var u := t.(input := text, pending := [eol]);
    var line := TrimSpace(text);
    var v: Term<A> := Term([], [], false, if line == [] then [] else [Line(line)], false);
    assert t.input + text == text;
    assert u.pending[1..] == [] && u.jobs + [Line(line)] == [Line(line)];
    assert Turn(u, decode) == Some(v);
    assert [] + Concat(chunks) == Concat(chunks);
  }

  /** Backspace, in either code, takes back exactly the character typed before it. */
  lemma BackspaceUndoes<A>(t: Term<A>, c: rune, erase: byte, more: bytes, decode: bytes -> Option<A>)
    requires !t.closed && t.pending == [] && c >= 0x20 && c != 0x7f && IsScalar(c)
    requires erase == 0x7f || erase == 0x08
    ensures Scan(t.(pending := EncodeRune(c) + ([erase] + more)), decode) == Scan(t.(pending := more), decode)
  {
    RuneIsAppended(t, c, [erase] + more, decode);
    var u := t.(input := t.input + [c], pending := [erase] + more);
    assert u.pending[1..] == more && u.input[..|u.input| - 1] == t.input;
    assert Turn(u, decode) == Some(t.(pending := more));
    hide Turn, EncodeRune;
  }

  lemma CtrlCTurn<A>(t: Term<A>, more: bytes, decode: bytes -> Option<A>)
    requires !t.closed
    ensures Turn(t.(pending := [CTRL_C] + more), decode)
         == Some(t.(input := [], pending := more, jobs := if t.input == [] then t.jobs + [Cancel] else t.jobs))
  {
    assert ([CTRL_C] + more)[1..] == more;
  }

  /** Ctrl-C drops the line that is being typed, and only on an empty line cancels. */
  lemma CtrlCClearsThenCancels<A>(text: seq<rune>, more: bytes, decode: bytes -> Option<A>)
    requires Printable(text) && text != []
    ensures Read(Idle(), Typed(text) + ([CTRL_C] + more), decode) == Read(Idle(), more, decode)
    ensures Read(Idle(), [CTRL_C] + more, decode) == Read(Term([], [], false, [Cancel], false), more, decode)
  {
    var t := Idle<A>();
    TypingEdits(t, text, [CTRL_C] + more, decode);
    assert t.input + text == text;
    assert [] + (Typed(text) + ([CTRL_C] + more)) == Typed(text) + ([CTRL_C] + more);
    assert [] + ([CTRL_C] + more) == [CTRL_C] + more && [] + more == more;
    CtrlCTurn(t.(input := text), more, decode);
    CtrlCTurn(t, more, decode);
    assert t.jobs + [Cancel] == [Cancel];
    hide Turn, Typed;
  }

  /** While pasting, Return is text like any other. */
  lemma PastedLinesStayText<A>(a: seq<rune>, b: seq<rune>, decode: bytes -> Option<A>)
    requires Printable(a) && Printable(b)
    ensures Read(Idle(), PASTE_ON + (Typed(a) + ([0x0d] + (Typed(b) + PASTE_OFF))), decode) ==
            Term([], a + [0x0a] + b, false, [], false)
  {
    var t := Idle<A>();
    var tail := Typed(b) + PASTE_OFF;
    assert [] + (PASTE_ON + (Typed(a) + ([0x0d] + tail))) == PASTE_ON + (Typed(a) + ([0x0d] + tail));
    SequenceIsObeyed(t, PASTE_ON, Typed(a) + ([0x0d] + tail), decode);
    PasteIsEdited(t.(pasting := true), a, b, decode);
    var e := Term([], a + [0x0a] + b, true, [], false);
    assert PASTE_OFF + [] == PASTE_OFF;
    SequenceIsObeyed(e, PASTE_OFF, [], decode);
    assert Scan(e.(pasting := false), decode) == e.(pasting := false);
  }

  lemma PasteIsEdited<A>(t: Term<A>, a: seq<rune>, b: seq<rune>, decode: bytes -> Option<A>)
    requires t == Idle<A>().(pasting := true) && Printable(a) && Printable(b)
    ensures Scan(t.(pending := Typed(a) + ([0x0d] + (Typed(b) + PASTE_OFF))), decode)
         == Scan(t.(input := a + [0x0a] + b, pending := PASTE_OFF), decode)
  {
    var tail := Typed(b) + PASTE_OFF;
    var q := t.(input := a);
    TypingEdits(t, a, [0x0d] + tail, decode);
    assert [] + a == a;
    assert ([0x0d] + tail)[1..] == tail;
    assert Turn(q.(pending := [0x0d] + tail), decode) == Some(q.(input := a + [0x0a], pending := tail));
    hide Turn, Typed;
    TypingEdits(q.(input := a + [0x0a]), b, PASTE_OFF, decode);
  }

  // ---- escape sequences by their bytes ----

  predicate NoFinal(p: bytes) {
    forall i | 0 <= i < |p| :: !(0x40 <= p[i] <= 0x7e)
  }

  /** Neither BEL nor ESC \ in it. */
  predicate NoTerminator(p: bytes) {
    forall i | 0 <= i < |p| :: p[i] != 0x07 && !(p[i] == 0x1b && i + 1 < |p| && p[i + 1] == 0x5c)
  }

  lemma {:induction false} FinalAfter(b: bytes, i: nat, n: nat)
    requires i <= n < |b| && 0x40 <= b[n] <= 0x7e && NoFinal(b[i..n])
    ensures FinalByte(b, i) == Some(n + 1)
    decreases n - i
  {
    if i < n {
      assert b[i] == b[i..n][0];
      assert b[i + 1..n] == b[i..n][1..];
      FinalAfter(b, i + 1, n);
    }
  }

  /** CSI and SS3 run to the first byte from 40 to 7E. */
  lemma ControlSequence(kind: byte, p: bytes, f: byte, more: bytes)
    requires kind == 0x5b || kind == 0x4f
    requires NoFinal(p) && 0x40 <= f <= 0x7e
    ensures EscapeLength([0x1b, kind] + p + [f] + more) == Some(|p| + 3)
  {
    var b := [0x1b, kind] + p + [f] + more;
    assert b[2..|p| + 2] == p && b[|p| + 2] == f;
    FinalAfter(b, 2, |p| + 2);
  }

  lemma {:induction false} TerminatorAfter(b: bytes, i: nat, n: nat, len: nat)
    requires i <= n < |b| && NoTerminator(b[i..n])
    requires (b[n] == 0x07 && len == 1) || (b[n] == 0x1b && n + 1 < |b| && b[n + 1] == 0x5c && len == 2)
    ensures StringEnd(b, i) == Some(n + len)
    decreases n - i
  {
    if i < n {
      assert b[i] == b[i..n][0] && (i + 1 < n ==> b[i + 1] == b[i..n][1]);
      assert b[i + 1..n] == b[i..n][1..];
      TerminatorAfter(b, i + 1, n, len);
    }
  }

  /** OSC runs to the first BEL or ESC \. */
  lemma OperatingSystemCommand(p: bytes, end: bytes, more: bytes)
    requires NoTerminator(p) && (end == [0x07] || end == [0x1b, 0x5c])
    ensures EscapeLength([0x1b, 0x5d] + p + end + more) == Some(|p| + 2 + |end|)
  {
    var b := [0x1b, 0x5d] + p + end + more;
    assert b[2..|p| + 2] == p && b[|p| + 2] == end[0];
    assert end == [0x1b, 0x5c] ==> b[|p| + 3] == 0x5c;
    TerminatorAfter(b, 2, |p| + 2, |end|);
  }

  /** Any other escape is two bytes long. */
  lemma ShortEscape(kind: byte, more: bytes)
    requires kind != 0x5b && kind != 0x4f && kind != 0x5d
    ensures EscapeLength([0x1b, kind] + more) == Some(2)
  {
  }

  lemma SequenceTurn<A>(t: Term<A>, sequence: bytes, more: bytes, decode: bytes -> Option<A>)
    requires !t.closed && |sequence| >= 2 && sequence[0] == 0x1b && EscapeLength(sequence + more) == Some(|sequence|)
    ensures Scan(t.(pending := sequence + more), decode) == Scan(Obey(t.(pending := more), sequence, decode), decode)
  {
    var b := sequence + more;
    assert b[..|sequence|] == sequence && b[|sequence|..] == more;
    hide EscapeLength, Obey;
    assert Turn(t.(pending := b), decode) == Some(Obey(t.(pending := more), sequence, decode));
  }

  /** A sequence ESC ] 7789 ; ... becomes a job if the decoder makes an action of it, and is
      dropped if not, with either terminator and whatever is being typed or pasted. */
  lemma ActionIsSent<A>(t: Term<A>, p: bytes, end: bytes, more: bytes, decode: bytes -> Option<A>)
    requires !t.closed && t.pending == []
    requires NoTerminator([0x37, 0x37, 0x38, 0x39, 0x3b] + p) && (end == [0x07] || end == [0x1b, 0x5c])
    ensures var sequence := [0x1b, 0x5d, 0x37, 0x37, 0x38, 0x39, 0x3b] + p + end;
            Read(t, sequence + more, decode) ==
              match decode(sequence)
              case Some(a) => Read(t.(jobs := t.jobs + [Action(a)]), more, decode)
              case None => Read(t, more, decode)
  {
    var sequence := [0x1b, 0x5d, 0x37, 0x37, 0x38, 0x39, 0x3b] + p + end;
    ActionLength(p, end, more);
    SequenceTurn(t, sequence, more, decode);
    assert [] + (sequence + more) == sequence + more && [] + more == more;
    assert sequence == ACTION_TAG + (p + end);
    ActionObeyed(t.(pending := more), sequence, decode);
    hide Scan, EscapeLength, NoTerminator, Obey;
  }

  lemma ActionObeyed<A>(t: Term<A>, sequence: bytes, decode: bytes -> Option<A>)
    requires ACTION_TAG <= sequence
    ensures Obey(t, sequence, decode) ==
            match decode(sequence)
            case Some(a) => t.(jobs := t.jobs + [Action(a)])
            case None => t
  {
    assert sequence[1] == ACTION_TAG[1] == 0x5d && PASTE_ON[1] == PASTE_OFF[1] == 0x5b;
  }

  lemma ActionLength(p: bytes, end: bytes, more: bytes)
    requires NoTerminator([0x37, 0x37, 0x38, 0x39, 0x3b] + p) && (end == [0x07] || end == [0x1b, 0x5c])
    ensures var sequence := [0x1b, 0x5d, 0x37, 0x37, 0x38, 0x39, 0x3b] + p + end;
            EscapeLength(sequence + more) == Some(|sequence|)
  {
    var tag: bytes := [0x37, 0x37, 0x38, 0x39, 0x3b];
    OperatingSystemCommand(tag + p, end, more);
    hide EscapeLength, NoTerminator;
    assert [0x1b, 0x5d] + (tag + p) + end + more == [0x1b, 0x5d, 0x37, 0x37, 0x38, 0x39, 0x3b] + p + end + more;
  }

  /** Every other complete sequence, cursor keys and the like, is dropped. */
  lemma OtherSequencesAreIgnored<A>(t: Term<A>, sequence: bytes, more: bytes, decode: bytes -> Option<A>)
    requires !t.closed && t.pending == []
    requires |sequence| >= 2 && sequence[0] == 0x1b && EscapeLength(sequence + more) == Some(|sequence|)
    requires sequence != [0x1b, 0x5b, 0x32, 0x30, 0x30, 0x7e] && sequence != [0x1b, 0x5b, 0x32, 0x30, 0x31, 0x7e]
    requires !([0x1b, 0x5d, 0x37, 0x37, 0x38, 0x39, 0x3b] <= sequence)
    ensures Read(t, sequence + more, decode) == Read(t, more, decode)
  {
    SequenceTurn(t, sequence, more, decode);
    assert [] + (sequence + more) == sequence + more && [] + more == more;
    hide Scan, EscapeLength;
  }

  // ---- other keys ----

  lemma KeyTurn<A>(t: Term<A>, key: byte, more: bytes, decode: bytes -> Option<A>)
    requires !t.closed && (key < 0x20 || key == 0x7f) && key != 0x1b
    ensures Scan(t.(pending := [key] + more), decode) == Scan(Turn(t.(pending := [key] + more), decode).value, decode)
    ensures ([key] + more)[1..] == more && ([key] + more)[0] == key
    ensures Turn(t.(pending := [key] + more), decode).Some?
  {
    hide EscapeLength, FullRune, DecodeRune;
  }

  /** Ctrl-U drops the line being typed and sends nothing. */
  lemma CtrlUClears<A>(t: Term<A>, more: bytes, decode: bytes -> Option<A>)
    requires !t.closed && t.pending == []
    ensures Read(t, [0x15] + more, decode) == Read(t.(input := []), more, decode)
  {
    KeyTurn(t, 0x15, more, decode);
    assert [] + ([0x15] + more) == [0x15] + more && [] + more == more;
    hide Scan;
  }

  /** Ctrl-D leaves: what has been sent stays sent and nothing is read any more. */
  lemma CtrlDLeaves<A>(t: Term<A>, more: bytes, later: seq<bytes>, decode: bytes -> Option<A>)
    requires !t.closed && t.pending == []
    ensures ReadAll(Read(t, [0x04] + more, decode), later, decode) == t.(closed := true)
  {
    KeyTurn(t, 0x04, more, decode);
    assert [] + ([0x04] + more) == [0x04] + more;
    assert Scan(t.(closed := true), decode) == t.(closed := true);
    ClosedStays(t.(closed := true), later, decode);
    hide Scan;
  }

  lemma {:induction false} ClosedStays<A>(t: Term<A>, later: seq<bytes>, decode: bytes -> Option<A>)
    requires t.closed
    ensures ReadAll(t, later, decode) == t
    decreases |later|
  {
    if later != [] {
      ClosedStays(t, later[1..], decode);
    }
  }

  /** The remaining control characters do nothing. */
  lemma OtherControlsAreIgnored<A>(t: Term<A>, key: byte, more: bytes, decode: bytes -> Option<A>)
    requires !t.closed && t.pending == [] && key < 0x20
    requires key !in {0x03, 0x04, 0x08, 0x0a, 0x0d, 0x15, 0x1b}
    ensures Read(t, [key] + more, decode) == Read(t, more, decode)
  {
    KeyTurn(t, key, more, decode);
    assert [] + ([key] + more) == [key] + more && [] + more == more;
    hide Scan;
  }

  // ---- trimming ----

  /** The 25 code points with the property White_Space. */
  lemma SpacesListed(c: rune)
    ensures IsSpace(c) <==> c in {0x0009, 0x000A, 0x000B, 0x000C, 0x000D, 0x0020, 0x0085, 0x00A0, 0x1680, 0x2000, 0x2001,
                                  0x2002, 0x2003, 0x2004, 0x2005, 0x2006, 0x2007, 0x2008, 0x2009, 0x200A, 0x2028, 0x2029,
                                  0x202F, 0x205F, 0x3000}
  {
  }

  predicate Blank(s: seq<rune>) {
    forall i | 0 <= i < |s| :: IsSpace(s[i])
  }

  lemma {:induction false} TrimmedLeft(s: seq<rune>) returns (left: seq<rune>)
    ensures s == left + TrimLeft(s) && Blank(left)
    ensures TrimLeft(s) != [] ==> !IsSpace(TrimLeft(s)[0])
  {
    if s != [] && IsSpace(s[0]) {
      var more := TrimmedLeft(s[1..]);
      left := [s[0]] + more;
    } else {
      left := [];
    }
  }

  lemma {:induction false} TrimmedRight(s: seq<rune>) returns (right: seq<rune>)
    ensures s == TrimRight(s) + right && Blank(right)
    ensures TrimRight(s) != [] ==> !IsSpace(TrimRight(s)[|TrimRight(s)| - 1]) && TrimRight(s)[0] == s[0]
  {
    if s != [] && IsSpace(s[|s| - 1]) {
      var more := TrimmedRight(s[..|s| - 1]);
      right := more + [s[|s| - 1]];
    } else {
      right := [];
    }
  }

  /** What is submitted is the line less the blanks at its ends, which leaves no blank at either
      end. */
  lemma TrimmingIsExact(s: seq<rune>) returns (left: seq<rune>, right: seq<rune>)
    ensures s == left + TrimSpace(s) + right && Blank(left) && Blank(right)
    ensures TrimSpace(s) != [] ==> !IsSpace(TrimSpace(s)[0]) && !IsSpace(TrimSpace(s)[|TrimSpace(s)| - 1])
  {
    left := TrimmedLeft(s);
    right := TrimmedRight(TrimLeft(s));
  }


  lemma SequenceIsObeyed<A>(t: Term<A>, sequence: bytes, rest: bytes, decode: bytes -> Option<A>)
    requires !t.closed && t.pending == []
    requires sequence == PASTE_ON || sequence == PASTE_OFF
    ensures Scan(t.(pending := sequence + rest), decode) ==
            Scan(t.(pasting := sequence == PASTE_ON, pending := rest), decode)
  {
    var b := sequence + rest;
    assert FinalByte(b, 2) == FinalByte(b, 3) == FinalByte(b, 4) == FinalByte(b, 5) == Some(6);
    assert b[..6] == sequence && b[6..] == rest;
  }
}
