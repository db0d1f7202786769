/** Fixed-width words as the Go sources use them: wrapping 32-bit sequence
    arithmetic and single-bit access to the 64-bit selective-ACK mask. */
module Words {
  datatype Option<+T> = None | Some(value: T)

  datatype Result<+T, +E> = Ok(value: T) | Err(error: E)

  const TWO16: int := 0x1_0000
  const TWO32: int := 0x1_0000_0000
  const TWO64: int := 0x1_0000_0000_0000_0000

  type byte = x: int | 0 <= x < 256
  type uint16 = x: int | 0 <= x < TWO16
  type uint32 = x: int | 0 <= x < TWO32
  type uint64 = x: int | 0 <= x < TWO64
  type bytes = seq<byte>

  const MAX_UINT32: uint32 := 0xFFFF_FFFF

  function Inc32(x: uint32): uint32 {
    (x + 1) % TWO32
  }

  function Sub32(x: uint32, y: uint32): uint32 {
    (x - y) % TWO32
  }

  lemma Assoc<T>(a: seq<T>, b: seq<T>, c: seq<T>)
    ensures a + (b + c) == a + b + c
  {
  }

  // ---- the 64-bit mask ----

  predicate Bit(mask: bv64, i: nat)
    requires i < 64
  {
    (mask >> i) & 1 == 1
  }

  function SetBit(mask: bv64, i: nat): bv64
    requires i < 64
  {
    mask | ((1 as bv64) << i)
  }

  lemma NoBit(i: nat)
    requires i < 64
    ensures !Bit(0, i)
  {
  }

  // The solver decides the fact below on bit-vectors only, so shift amounts pass through bv7.

  lemma SetBitOnVectors(mask: bv64, i: bv7, j: bv7)
    requires i < 64 && j < 64
    ensures ((mask | ((1 as bv64) << i)) >> j) & 1 == 1 <==> i == j || (mask >> j) & 1 == 1
  {
  }

  lemma BitOnVectors(mask: bv64, i: nat)
    requires i < 64
    ensures Bit(mask, i) == ((mask >> (i as bv7)) & 1 == 1)
  {
  }

  lemma SetOnVectors(mask: bv64, i: nat)
    requires i < 64
    ensures SetBit(mask, i) == mask | ((1 as bv64) << (i as bv7))
  {
  }

  lemma SmallVector(i: nat)
    requires i < 64
    ensures i as bv7 < 64 && i as bv7 as nat == i
  {
  }

  lemma VectorsInjective(i: nat, j: nat)
    requires i < 64 && j < 64
    ensures i as bv7 == j as bv7 <==> i == j
    ensures i as bv7 < 64 && j as bv7 < 64
  {
    SmallVector(i);
    SmallVector(j);
  }

  /** Setting bit i makes exactly that bit true and leaves the others alone. */
  lemma BitAfterSet(mask: bv64, i: nat, j: nat)
    requires i < 64 && j < 64
    ensures Bit(SetBit(mask, i), j) <==> i == j || Bit(mask, j)
  {
    VectorsInjective(i, j);
    SetBitOnVectors(mask, i as bv7, j as bv7);
    SetOnVectors(mask, i);
    BitOnVectors(SetBit(mask, i), j);
    BitOnVectors(mask, j);
  }
}
