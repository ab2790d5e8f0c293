/**
 * Framing of PDUs on a byte stream (sections 11.1 and 11.2 of RFC 7143): header segments,
 * padding and the optional digests, written and read through unzeroed pooled buffers. The
 * checksum itself is a parameter.
 */
module Framer {
  import opened Prelude
  import opened Io
  import opened BufferPool

  const BHS_LENGTH: nat := 48

  datatype ByteOrder = LittleEndian | BigEndian

  /** A PDU as it travels. A digest is present or not; the original keeps a flag and a value. */
  datatype RawPdu = RawPdu(bhs: bytes, ahs: bytes, data: bytes, headerDigest: Option<u32>, dataDigest: Option<u32>)

  /** What the two ends have agreed on. */
  datatype Digests = Digests(header: bool, data: bool, order: ByteOrder)

  type Checksum = bytes -> u32

  // ---- Digest words ------------------------------------------------------------------

  function EncodeU32(order: ByteOrder, x: u32): (b: bytes)
    ensures |b| == 4
  {
    var b0, b1, b2, b3 := (x % 0x100) as byte, (x / 0x100 % 0x100) as byte,
                          (x / 0x1_0000 % 0x100) as byte, (x / 0x100_0000) as byte;
    match order
    case LittleEndian => [b0, b1, b2, b3]
    case BigEndian => [b3, b2, b1, b0]
  }

  function DecodeU32(order: ByteOrder, b: bytes): u32
    requires |b| == 4
  {
    match order
    case LittleEndian => b[0] as int + 0x100 * b[1] as int + 0x1_0000 * b[2] as int + 0x100_0000 * b[3] as int
    case BigEndian => b[3] as int + 0x100 * b[2] as int + 0x1_0000 * b[1] as int + 0x100_0000 * b[0] as int
  }

  lemma U32RoundTrip(order: ByteOrder, x: u32)
    ensures DecodeU32(order, EncodeU32(order, x)) == x
  {
    var y, z := x / 0x100, x / 0x1_0000;
    assert z == y / 0x100 && x / 0x100_0000 == z / 0x100;
  }

  // ---- The frame of a PDU --------------------------------------------------------------

  function AhsLen(bhs: bytes): nat
    requires |bhs| == BHS_LENGTH
  {
    4 * bhs[4] as int
  }

  function DataLen(bhs: bytes): (n: nat)
    requires |bhs| == BHS_LENGTH
    ensures n <= MAX_SEGMENT
  {
    0x1_0000 * bhs[5] as int + 0x100 * bhs[6] as int + bhs[7] as int
  }

  /** The header announces the lengths of the segments that follow it. */
  predicate WellFormed(p: RawPdu) {
    |p.bhs| == BHS_LENGTH && |p.ahs| == AhsLen(p.bhs) && |p.data| == DataLen(p.bhs)
  }

  function Word(order: ByteOrder, digest: Option<u32>): bytes {
    if digest.Some? then EncodeU32(order, digest.value) else []
  }

  function Padded(data: bytes): (d: bytes)
    ensures |d| % 4 == 0 && |d| < |data| + 4
  {
    data + Zeros(PadLen(|data|))
  }

  function HeaderPart(order: ByteOrder, p: RawPdu): bytes {
    p.bhs + p.ahs + Word(order, p.headerDigest)
  }

  /** A data digest goes only with data. */
  function DataPart(order: ByteOrder, p: RawPdu): bytes {
    if p.data == [] then [] else Padded(p.data) + Word(order, p.dataDigest)
  }

  /** The bytes of a PDU on the wire. */
  function Frame(order: ByteOrder, p: RawPdu): bytes {
    HeaderPart(order, p) + DataPart(order, p)
  }

  // ---- Stamping ----------------------------------------------------------------------

  /** The header digest covers the basic and the additional header segments. */
  function HeaderDigest(crc: Checksum, p: RawPdu): u32 {
    crc(p.bhs + p.ahs)
  }

  /** The data digest covers the data and its zero padding. */
  function DataDigest(crc: Checksum, data: bytes): u32 {
    crc(Padded(data))
  }

  function Stamped(d: Digests, crc: Checksum, p: RawPdu): RawPdu {
    p.(headerDigest := if d.header then Some(HeaderDigest(crc, p)) else p.headerDigest,
       dataDigest := if d.data && p.data != [] then Some(DataDigest(crc, p.data)) else p.dataDigest)
  }

  method StampDigests(d: Digests, crc: Checksum, p: RawPdu) returns (raw: RawPdu)
    ensures raw == Stamped(d, crc, p)
  {
    raw := p;
    if d.header {
      var input := raw.bhs;
      if |raw.ahs| > 0 {
        var buf := new byte[|raw.bhs| + |raw.ahs|];
        CopyAt(buf, 0, raw.bhs);
        CopyAt(buf, |raw.bhs|, raw.ahs);
        input := buf[..];
      }
      assert input == p.bhs + p.ahs;
      raw := raw.(headerDigest := Some(crc(input)));
    }
    if d.data && |raw.data| > 0 {
      raw := raw.(dataDigest := Some(DataDigest(crc, raw.data)));
    }
  }

  // ---- Writing ------------------------------------------------------------------------

  /** Appends to the part of the buffer that is in use. */
  method Put(buf: array<byte>, off: nat, data: bytes) returns (off': nat)
    requires off + |data| <= buf.Length
    modifies buf
    ensures off' == off + |data| && buf[..off'] == old(buf[..off]) + data
  {
    CopyAt(buf, off, data);
    off' := off + |data|;
  }

  method PutZeros(buf: array<byte>, off: nat, n: nat) returns (off': nat)
    requires off + n <= buf.Length
    modifies buf
    ensures off' == off + n && buf[..off'] == old(buf[..off]) + Zeros(n)
  {
    for i := 0 to n
      invariant buf[..off + i] == old(buf[..off]) + Zeros(i)
    {
      buf[off + i] := 0;
    }
    off' := off + n;
  }

  /** The data segment, its padding and its digest. */
  method PutData(buf: array<byte>, off: nat, order: ByteOrder, p: RawPdu) returns (off': nat)
    requires off + |DataPart(order, p)| <= buf.Length
    modifies buf
    ensures off' <= buf.Length && buf[..off'] == old(buf[..off]) + DataPart(order, p)
  {
    off' := off;
    if |p.data| > 0 {
      off' := Put(buf, off', p.data);
      off' := PutZeros(buf, off', PadLen(|p.data|));
      ghost var before := buf[..off'];
      if p.dataDigest.Some? {
        off' := Put(buf, off', EncodeU32(order, p.dataDigest.value));
      }
      assert buf[..off'] == before + Word(order, p.dataDigest);
    }
  }

  method PutHeader(buf: array<byte>, order: ByteOrder, p: RawPdu) returns (off: nat)
    requires |HeaderPart(order, p)| <= buf.Length
    modifies buf
    ensures off == |HeaderPart(order, p)| && buf[..off] == HeaderPart(order, p)
  {
    off := Put(buf, 0, p.bhs);
    if |p.ahs| > 0 {
      off := Put(buf, off, p.ahs);
    }
    assert buf[..off] == p.bhs + p.ahs;
    if p.headerDigest.Some? {
      off := Put(buf, off, EncodeU32(order, p.headerDigest.value));
    }
  }

  /** One contiguous write, from a pooled buffer whatever that held before. Its error is passed on. */
  method WriteRawPDU(w: Sink, pool: Pool, p: RawPdu, order: ByteOrder) returns (ok: bool)
    requires w.Valid() && pool.Valid()
    modifies w, pool, pool.Free()
    ensures w.Valid() && pool.Valid() && fresh(pool.Free() - old(pool.Free()))
    ensures w.written == Taken(w.limit, old(w.written) + Frame(order, p))
    ensures ok == Fits(w.limit, |old(w.written)| + |Frame(order, p)|)
  {
    var total := |p.bhs| + |p.ahs| + |p.data| + PadLen(|p.data|);
    if p.headerDigest.Some? {
      total := total + 4;
    }
    if p.dataDigest.Some? && |p.data| > 0 {
      total := total + 4;
    }
    var buf := pool.GetBuffer(total);
    var off := PutHeader(buf, order, p);
    off := PutData(buf, off, order, p);
    ok := w.Write(buf[..off]);
    pool.PutBuffer(buf);
  }

  // ---- Reading ------------------------------------------------------------------------

  datatype ReadError =
    | ShortRead(status: ReadStatus)
    | BadHeaderDigest(expected: u32, actual: u32)
    | BadDataDigest(expected: u32, actual: u32)

  datatype ReadResult = Got(pdu: RawPdu) | Failed(error: ReadError)

  /** A read of one PDU from a stream: its result and how many bytes it took. */
  datatype ReadOutcome = ReadOutcome(result: ReadResult, taken: nat)

  /** How many bytes follow the basic header segment. */
  function PayloadLen(d: Digests, bhs: bytes): nat
    requires |bhs| == BHS_LENGTH
  {
    AhsLen(bhs) + (if d.header then 4 else 0) + DataLen(bhs) + PadLen(DataLen(bhs))
    + if d.data && DataLen(bhs) > 0 then 4 else 0
  }

  /** The payload cut into its components. */
  function Parse(d: Digests, bhs: bytes, payload: bytes): (p: RawPdu)
    requires |bhs| == BHS_LENGTH && |payload| == PayloadLen(d, bhs)
  {
    Sliced(d, bhs, payload, AhsLen(bhs), DataLen(bhs), PadLen(DataLen(bhs)))
  }

  function Sliced(d: Digests, bhs: bytes, payload: bytes, ahs: nat, data: nat, pad: nat): RawPdu
    requires |payload| == ahs + (if d.header then 4 else 0) + data + pad + if d.data && data > 0 then 4 else 0
  {
    var dataAt := ahs + if d.header then 4 else 0;
    var digestAt := dataAt + data + pad;
    RawPdu(bhs, payload[..ahs], payload[dataAt..dataAt + data],
           if d.header then Some(DecodeU32(d.order, payload[ahs..dataAt])) else None,
           if d.data && data > 0 then Some(DecodeU32(d.order, payload[digestAt..digestAt + 4])) else None)
  }

  /** The first digest that does not agree with what it covers. */
  function Mismatch(crc: Checksum, p: RawPdu): Option<ReadError> {
    if p.headerDigest.Some? && p.headerDigest.value != HeaderDigest(crc, p) then
      Some(BadHeaderDigest(HeaderDigest(crc, p), p.headerDigest.value))
    else if p.dataDigest.Some? && p.dataDigest.value != DataDigest(crc, p.data) then
      Some(BadDataDigest(DataDigest(crc, p.data), p.dataDigest.value))
    else None
  }

  function Verdict(crc: Checksum, p: RawPdu): ReadResult {
    if Mismatch(crc, p).Some? then Failed(Mismatch(crc, p).value) else Got(p)
  }

  function ReadOf(d: Digests, crc: Checksum, input: bytes, broken: bool): (o: ReadOutcome)
    ensures o.taken <= |input|
  {
    if |input| < BHS_LENGTH then ReadOutcome(Failed(ShortRead(StatusOf(BHS_LENGTH, |input|, broken))), |input|)
    else
      var bhs, got := input[..BHS_LENGTH], |input| - BHS_LENGTH;
      var need := PayloadLen(d, bhs);
      if got < need then ReadOutcome(Failed(ShortRead(StatusOf(need, got, broken))), |input|)
      else ReadOutcome(Verdict(crc, Parse(d, bhs, input[BHS_LENGTH..BHS_LENGTH + need])), BHS_LENGTH + need)
  }

  lemma WithinPrefix(a: array<byte>, n: nat, i: nat, j: nat)
    requires i <= j <= n <= a.Length
    ensures a[..n][i..j] == a[i..j]
  {
  }

  lemma WithinRest(data: bytes, pos: nat, i: nat, j: nat)
    requires pos + i <= pos + j <= |data|
    ensures data[pos..][i..j] == data[pos + i..pos + j]
  {
  }

  /** Cuts the payload by a moving offset. */
  method Cut(d: Digests, bhs: bytes, payload: array<byte>, ahsLen: nat, dsLen: nat, padLen: nat, ghost need: nat)
    returns (raw: RawPdu)
    requires need == ahsLen + (if d.header then 4 else 0) + dsLen + padLen + if d.data && dsLen > 0 then 4 else 0
    requires need <= payload.Length
    ensures raw == Sliced(d, bhs, payload[..need], ahsLen, dsLen, padLen)
  {
    raw := RawPdu(bhs, [], [], None, None);
    ghost var p := Sliced(d, bhs, payload[..need], ahsLen, dsLen, padLen);
    var off := 0;
    WithinPrefix(payload, need, 0, ahsLen);
    if ahsLen > 0 {
      raw := raw.(ahs := payload[off..off + ahsLen]);
      off := off + ahsLen;
    }
    assert raw == RawPdu(bhs, p.ahs, [], None, None);
    if d.header {
      WithinPrefix(payload, need, off, off + 4);
      raw := raw.(headerDigest := Some(DecodeU32(d.order, payload[off..off + 4])));
      off := off + 4;
    }
    assert raw == RawPdu(bhs, p.ahs, [], p.headerDigest, None);
    WithinPrefix(payload, need, off, off + dsLen);
    if dsLen > 0 {
      raw := raw.(data := payload[off..off + dsLen]);
      off := off + dsLen;
      off := off + padLen;
      if d.data {
        WithinPrefix(payload, need, off, off + 4);
        raw := raw.(dataDigest := Some(DecodeU32(d.order, payload[off..off + 4])));
      }
    }
    assert raw == RawPdu(bhs, p.ahs, p.data, p.headerDigest, p.dataDigest);
  }

  method Verify(crc: Checksum, raw: RawPdu) returns (result: ReadResult)
    ensures result == Verdict(crc, raw)
  {
    if raw.headerDigest.Some? {
      var expected := crc(raw.bhs + raw.ahs);
      if expected != raw.headerDigest.value {
        return Failed(BadHeaderDigest(expected, raw.headerDigest.value));
      }
    }
    if raw.dataDigest.Some? {
      var expected := DataDigest(crc, raw.data);
      if expected != raw.dataDigest.value {
        return Failed(BadDataDigest(expected, raw.dataDigest.value));
      }
    }
    return Got(raw);
  }

  method ReadRawPDU(r: Source, pool: Pool, d: Digests, crc: Checksum) returns (result: ReadResult)
    requires r.Valid() && pool.Valid()
    modifies r, pool, pool.Free()
    ensures r.Valid() && pool.Valid() && fresh(pool.Free() - old(pool.Free()))
    ensures var o := ReadOf(d, crc, r.data[old(r.pos)..], r.broken);
      result == o.result && r.pos == old(r.pos) + o.taken
  {
    var head := new byte[BHS_LENGTH];
    ghost var pos, input := r.pos, r.data[r.pos..];
    var got, status := r.ReadFull(head, BHS_LENGTH);
    if status != Full {
      return Failed(ShortRead(status));
    }
    WithinRest(r.data, pos, 0, BHS_LENGTH);
    var bhs := head[..];
    var remaining := PayloadLen(d, bhs);
    if remaining == 0 {
      assert Parse(d, bhs, []) == RawPdu(bhs, [], [], None, None);
      return Got(RawPdu(bhs, [], [], None, None));
    }
    result := ReadPayload(r, pool, d, crc, bhs, remaining, pos, input);
  }

  lemma ReadIsShort(d: Digests, crc: Checksum, input: bytes, broken: bool, bhs: bytes, need: nat, got: nat)
    requires |input| >= BHS_LENGTH && bhs == input[..BHS_LENGTH] && need == PayloadLen(d, bhs)
    requires got == |input| - BHS_LENGTH < need
    ensures ReadOf(d, crc, input, broken) == ReadOutcome(Failed(ShortRead(StatusOf(need, got, broken))), |input|)
  {
  }

  lemma ReadIsFull(d: Digests, crc: Checksum, input: bytes, broken: bool, bhs: bytes, need: nat, payload: bytes)
    requires |input| >= BHS_LENGTH && bhs == input[..BHS_LENGTH] && need == PayloadLen(d, bhs)
    requires need <= |input| - BHS_LENGTH && payload == input[BHS_LENGTH..BHS_LENGTH + need]
    ensures ReadOf(d, crc, input, broken) == ReadOutcome(Verdict(crc, Parse(d, bhs, payload)), BHS_LENGTH + need)
  {
  }

  /** The second read, of all that follows the basic header segment. */
  method ReadPayload(r: Source, pool: Pool, d: Digests, crc: Checksum, bhs: bytes, remaining: nat,
                     ghost pos: nat, ghost input: bytes)
    returns (result: ReadResult)
    requires r.Valid() && pool.Valid()
    requires |bhs| == BHS_LENGTH && remaining == PayloadLen(d, bhs)
    requires r.pos == pos + BHS_LENGTH && input == r.data[pos..] && bhs == input[..BHS_LENGTH]
    modifies r, pool, pool.Free()
    ensures r.Valid() && pool.Valid() && fresh(pool.Free() - old(pool.Free()))
    ensures var o := ReadOf(d, crc, input, r.broken); result == o.result && r.pos == pos + o.taken
  {
    var payload := pool.GetBuffer(remaining);
    var got, status := r.ReadFull(payload, remaining);
    if status == Full {
      WithinRest(r.data, pos, BHS_LENGTH, BHS_LENGTH + remaining);
      ReadIsFull(d, crc, input, r.broken, bhs, remaining, payload[..remaining]);
      var raw := Cut(d, bhs, payload, AhsLen(bhs), DataLen(bhs), PadLen(DataLen(bhs)), remaining);
      result := Verify(crc, raw);
    } else {
      ReadIsShort(d, crc, input, r.broken, bhs, remaining, got);
      result := Failed(ShortRead(status));
    }
    pool.PutBuffer(payload);
  }
}
