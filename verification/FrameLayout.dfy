/** Where the parts of a PDU are in its frame, what the digests are of, and how a wrong one is reported. */
module FrameLayout {
  import opened Prelude
  import opened Framer
  import opened Framing

  /** A digest word, lowest byte first or highest byte first. */
  lemma DigestWord(order: ByteOrder, x: u32)
    ensures var w := EncodeU32(order, x);
      var b := if order.LittleEndian? then w else [w[3], w[2], w[1], w[0]];
      x == b[0] as int + 0x100 * (b[1] as int) + 0x1_0000 * (b[2] as int) + 0x100_0000 * (b[3] as int)
  {
    U32RoundTrip(order, x);
  }

  /**
   * The frame: basic header, additional header segments, header digest if there is one; then,
   * only if there are data, these, zeros up to the next multiple of four, and the data digest.
   */
  lemma FrameIsLaidOut(order: ByteOrder, p: RawPdu)
    requires WellFormed(p)
    ensures var f, h := Frame(order, p), if p.headerDigest.Some? then 4 else 0;
      var ahsEnd, dataAt := 48 + |p.ahs|, 48 + |p.ahs| + h;
      && |f| >= dataAt && f[..48] == p.bhs && f[48..ahsEnd] == p.ahs
      && (p.headerDigest.Some? ==> f[ahsEnd..dataAt] == EncodeU32(order, p.headerDigest.value))
      && (p.data == [] ==> |f| == dataAt)
      && (p.data != [] ==>
            var pad, w := (4 - |p.data| % 4) % 4, if p.dataDigest.Some? then 4 else 0;
            && |f| == dataAt + |p.data| + pad + w
            && f[dataAt..dataAt + |p.data|] == p.data
            && (forall i | dataAt + |p.data| <= i < dataAt + |p.data| + pad :: f[i] == 0)
            && (p.dataDigest.Some? ==> f[|f| - 4..] == EncodeU32(order, p.dataDigest.value)))
  {
    var head := HeaderPart(order, p);
    assert head[..48] == p.bhs && head[48..48 + |p.ahs|] == p.ahs;
    assert Frame(order, p)[..|head|] == head;
    if p.data != [] {
      DataIsLaidOut(order, p, head);
    }
  }

  lemma DataIsLaidOut(order: ByteOrder, p: RawPdu, head: bytes)
    requires p.data != []
    ensures var f, n, pad := head + DataPart(order, p), |p.data|, PadLen(|p.data|);
      var w := if p.dataDigest.Some? then 4 else 0;
      && |f| == |head| + n + pad + w && f[|head|..|head| + n] == p.data
      && (forall i | |head| + n <= i < |head| + n + pad :: f[i] == 0)
      && (p.dataDigest.Some? ==> f[|f| - 4..] == EncodeU32(order, p.dataDigest.value))
  {
    var z := Zeros(PadLen(|p.data|));
    assert DataPart(order, p) == p.data + z + Word(order, p.dataDigest);
  }

  /** What stamping puts in: a header digest of both header parts, and with data a digest of them and their padding. */
  lemma StampingCovers(d: Digests, crc: Checksum, p: RawPdu)
    ensures var q, pad := Stamped(d, crc, p), seq((4 - |p.data| % 4) % 4, i => 0 as byte);
      && q.bhs == p.bhs && q.ahs == p.ahs && q.data == p.data
      && q.headerDigest == (if d.header then Some(crc(p.bhs + p.ahs)) else p.headerDigest)
      && q.dataDigest == (if d.data && |p.data| > 0 then Some(crc(p.data + pad)) else p.dataDigest)
  {
    assert seq((4 - |p.data| % 4) % 4, i => 0 as byte) == Zeros(PadLen(|p.data|));
  }

  /**
   * All bytes are there and a digest is wrong: the header digest is reported if it is, else the
   * data digest, each with what it should be and what came.
   */
  lemma MismatchIsReported(d: Digests, crc: Checksum, input: bytes, broken: bool)
    requires |input| >= BHS_LENGTH && |input| - BHS_LENGTH >= PayloadLen(d, input[..BHS_LENGTH])
    ensures var need := PayloadLen(d, input[..BHS_LENGTH]);
      var p := Parse(d, input[..BHS_LENGTH], input[BHS_LENGTH..BHS_LENGTH + need]);
      var r := ReadOf(d, crc, input, broken);
      var header, data := crc(p.bhs + p.ahs), crc(p.data + Zeros(PadLen(|p.data|)));
      && r.taken == BHS_LENGTH + need
      && (d.header && p.headerDigest != Some(header) ==>
            p.headerDigest.Some? && r.result == Failed(BadHeaderDigest(header, p.headerDigest.value)))
      && ((d.header ==> p.headerDigest == Some(header)) && d.data && p.data != [] && p.dataDigest != Some(data) ==>
            p.dataDigest.Some? && r.result == Failed(BadDataDigest(data, p.dataDigest.value)))
  {
  }
}
