/** Shared vocabulary: machine integers, byte sequences and padding. */
module Prelude {

  const TWO31 := 0x8000_0000
  const TWO32 := 0x1_0000_0000

  type u32 = x: int | 0 <= x < 0x1_0000_0000
  type u16 = x: int | 0 <= x < 0x1_0000
  newtype byte = x: int | 0 <= x < 0x100
  type bytes = seq<byte>

  /** The longest data segment that 24 bits can announce. */
  const MAX_SEGMENT: nat := 0xFFFFFF

  datatype Option<+T> = None | Some(value: T)

  /**
   * Conversion to uint32, that is, the remainder modulo 2^32 (see WrapIsRemainder). The
   * definition by steps keeps proofs about counters free of division.
   */
  function Wrap(x: int): (w: u32)
    ensures 0 <= x < 0x1_0000_0000 ==> w == x
    decreases if x < 0 then -x else x
  {
    if x < 0 then WrapUp(x) else if x < 0x1_0000_0000 then x else Wrap(x - 0x1_0000_0000)
  }

  function WrapUp(x: int): (w: u32)
    requires x < 0
    decreases -x
  {
    if x + 0x1_0000_0000 < 0 then WrapUp(x + 0x1_0000_0000) else x + 0x1_0000_0000
  }

  lemma {:induction false} WrapIsRemainder(x: int)
    ensures Wrap(x) == x % 0x1_0000_0000
    decreases if x < 0 then -x else x
  {
    if x < 0 {
      WrapUpIsRemainder(x);
    } else if x >= 0x1_0000_0000 {
      WrapIsRemainder(x - 0x1_0000_0000);
    }
  }

  lemma {:induction false} WrapUpIsRemainder(x: int)
    requires x < 0
    ensures WrapUp(x) == x % 0x1_0000_0000
    decreases -x
  {
    if x + 0x1_0000_0000 < 0 {
      WrapUpIsRemainder(x + 0x1_0000_0000);
    }
  }

  function Min(a: int, b: int): int {
    if a <= b then a else b
  }

  function Max(a: int, b: int): int {
    if a <= b then b else a
  }

  lemma Assoc<T>(a: seq<T>, b: seq<T>, c: seq<T>)
    ensures a + b + c == a + (b + c)
  {
  }

  /** Padding up to a multiple of four. */
  function PadLen(n: nat): (pad: nat)
    ensures pad < 4 && (n + pad) % 4 == 0
  {
    (4 - n % 4) % 4
  }

  function Zeros(n: nat): (z: bytes)
    ensures |z| == n && forall i | 0 <= i < n :: z[i] == 0
  {
    seq(n, i => 0)
  }

  function Flatten(chunks: seq<bytes>): bytes {
    if chunks == [] then [] else chunks[0] + Flatten(chunks[1..])
  }

  lemma {:induction false} FlattenConcat(a: seq<bytes>, b: seq<bytes>)
    ensures Flatten(a + b) == Flatten(a) + Flatten(b)
  {
    if a == [] {
      assert a + b == b;
    } else {
      assert (a + b)[1..] == a[1..] + b;
      FlattenConcat(a[1..], b);
    }
  }

  lemma FlattenSnoc(a: seq<bytes>, x: bytes)
    ensures Flatten(a + [x]) == Flatten(a) + x
  {
    FlattenConcat(a, [x]);
    assert Flatten([x]) == x + Flatten([x][1..]);
  }

  /** Go's copy() into a buffer at an offset. */
  method CopyAt(buf: array<byte>, off: nat, data: bytes)
    requires off + |data| <= buf.Length
    modifies buf
    ensures buf[..] == old(buf[..off]) + data + old(buf[off + |data|..])
  {
    for i := 0 to |data|
      invariant buf[..off + i] == old(buf[..off]) + data[..i]
      invariant buf[off + i..] == old(buf[off + i..])
    {
      buf[off + i] := data[i];
    }
  }
}
