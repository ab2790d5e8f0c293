/** What reading does to what writing has put on the stream, and the other way round. */
module Framing {
  import opened Prelude
  import opened Io
  import opened Framer

  /** The payload of a frame is its bytes after the basic header segment. */
  function Payload(order: ByteOrder, p: RawPdu): bytes {
    p.ahs + Word(order, p.headerDigest) + DataPart(order, p)
  }

  lemma FrameIsHeaderAndPayload(order: ByteOrder, p: RawPdu)
    ensures Frame(order, p) == p.bhs + Payload(order, p)
  {
    var h, d := Word(order, p.headerDigest), DataPart(order, p);
    assert p.bhs + p.ahs + h + d == p.bhs + (p.ahs + h + d);
  }

  /** The digests are present as the two ends have agreed. */
  predicate Agreed(d: Digests, p: RawPdu) {
    p.headerDigest.Some? == d.header && p.dataDigest.Some? == (d.data && p.data != [])
  }

  lemma PayloadHasItsLength(d: Digests, p: RawPdu)
    requires WellFormed(p) && Agreed(d, p)
    ensures |Payload(d.order, p)| == PayloadLen(d, p.bhs)
  {
  }

  lemma MiddleSlice(a: bytes, b: bytes, c: bytes)
    ensures (a + b + c)[|a|..|a| + |b|] == b
  {
  }

  /** The parts of a payload, where the parser looks for them. */
  lemma PartsInPlace(a: bytes, h: bytes, data: bytes, pad: bytes, w: bytes)
    ensures var b, i, j, k := a + h + (data + pad + w), |a|, |a + h|, |a + h| + |data|;
      && |b| == k + |pad| + |w|
      && b[..i] == a && b[i..j] == h && b[j..k] == data && b[k + |pad|..k + |pad| + |w|] == w
  {
  }

  lemma ParseInvertsPayload(d: Digests, p: RawPdu)
    requires WellFormed(p) && Agreed(d, p)
    requires |Payload(d.order, p)| == PayloadLen(d, p.bhs)
    ensures Parse(d, p.bhs, Payload(d.order, p)) == p
  {
    var payload, q := Payload(d.order, p), Parse(d, p.bhs, Payload(d.order, p));
    var h, w, pad := Word(d.order, p.headerDigest), Word(d.order, p.dataDigest), Zeros(PadLen(|p.data|));
    if d.header {
      U32RoundTrip(d.order, p.headerDigest.value);
    }
    if d.data && p.data != [] {
      U32RoundTrip(d.order, p.dataDigest.value);
    }
    if p.data == [] {
      PartsInPlace(p.ahs, h, [], [], []);
      assert [] + [] + [] == DataPart(d.order, p);
    } else {
      PartsInPlace(p.ahs, h, p.data, pad, w);
    }
    assert q.ahs == p.ahs && q.data == p.data;
    assert q.headerDigest == p.headerDigest && q.dataDigest == p.dataDigest;
  }

  /** A well-formed PDU is read back as it was written, whatever follows it on the stream. */
  lemma ReadInvertsFrame(d: Digests, crc: Checksum, p: RawPdu, rest: bytes, broken: bool)
    requires WellFormed(p) && Agreed(d, p)
    ensures ReadOf(d, crc, Frame(d.order, p) + rest, broken)
            == ReadOutcome(Verdict(crc, p), |Frame(d.order, p)|)
  {
    var payload, input := Payload(d.order, p), Frame(d.order, p) + rest;
    FrameIsHeaderAndPayload(d.order, p);
    PayloadHasItsLength(d, p);
    ParseInvertsPayload(d, p);
    assert input == p.bhs + payload + rest;
    assert input[..BHS_LENGTH] == p.bhs;
    MiddleSlice(p.bhs, payload, rest);
  }

  /** What travels before stamping: no digests yet. */
  predicate Plain(p: RawPdu) {
    WellFormed(p) && p.headerDigest == None && p.dataDigest == None
  }

  lemma StampedAgrees(d: Digests, crc: Checksum, p: RawPdu)
    requires Plain(p)
    ensures WellFormed(Stamped(d, crc, p)) && Agreed(d, Stamped(d, crc, p))
    ensures Verdict(crc, Stamped(d, crc, p)) == Got(Stamped(d, crc, p))
  {
  }

  // ---- Streams of PDUs --------------------------------------------------------------

  /** The list stamped and written back to back. */
  function Stream(d: Digests, crc: Checksum, ps: seq<RawPdu>): bytes {
    if ps == [] then [] else Frame(d.order, Stamped(d, crc, ps[0])) + Stream(d, crc, ps[1..])
  }

  function StampedAll(d: Digests, crc: Checksum, ps: seq<RawPdu>): seq<RawPdu> {
    if ps == [] then [] else [Stamped(d, crc, ps[0])] + StampedAll(d, crc, ps[1..])
  }

  /** n reads in a row, up to the first failure: the PDUs read, and what is left of the stream. */
  function ReadMany(d: Digests, crc: Checksum, input: bytes, broken: bool, n: nat): (seq<RawPdu>, bytes) {
    if n == 0 then ([], input)
    else
      var o := ReadOf(d, crc, input, broken);
      if o.result.Failed? then ([], input[o.taken..])
      else
        var (more, rest) := ReadMany(d, crc, input[o.taken..], broken, n - 1);
        ([o.result.pdu] + more, rest)
  }

  lemma ReadManyStep(d: Digests, crc: Checksum, p: RawPdu, tail: bytes, broken: bool, n: nat)
    requires n > 0 && WellFormed(p) && Agreed(d, p) && Verdict(crc, p) == Got(p)
    ensures var (more, rest) := ReadMany(d, crc, tail, broken, n - 1);
      ReadMany(d, crc, Frame(d.order, p) + tail, broken, n) == ([p] + more, rest)
  {
    ReadInvertsFrame(d, crc, p, tail, broken);
    assert (Frame(d.order, p) + tail)[|Frame(d.order, p)|..] == tail;
  }

  lemma StreamHead(d: Digests, crc: Checksum, ps: seq<RawPdu>, rest: bytes)
    requires ps != []
    ensures Stream(d, crc, ps) + rest == Frame(d.order, Stamped(d, crc, ps[0])) + (Stream(d, crc, ps[1..]) + rest)
    ensures StampedAll(d, crc, ps) == [Stamped(d, crc, ps[0])] + StampedAll(d, crc, ps[1..])
  {
    Assoc(Frame(d.order, Stamped(d, crc, ps[0])), Stream(d, crc, ps[1..]), rest);
  }

  lemma StreamReadOn(d: Digests, crc: Checksum, p: RawPdu, tail: bytes, broken: bool, n: nat, more: seq<RawPdu>,
                     rest: bytes)
    requires Plain(p) && ReadMany(d, crc, tail, broken, n) == (more, rest)
    ensures ReadMany(d, crc, Frame(d.order, Stamped(d, crc, p)) + tail, broken, n + 1)
            == ([Stamped(d, crc, p)] + more, rest)
  {
    StampedAgrees(d, crc, p);
    ReadManyStep(d, crc, Stamped(d, crc, p), tail, broken, n + 1);
  }

  /**
   * A whole stream of PDUs, stamped and written back to back, is read back exactly, in
   * order, and the bytes behind it are left untouched.
   */
  lemma {:induction false} StreamRoundTrip(d: Digests, crc: Checksum, ps: seq<RawPdu>, rest: bytes, broken: bool)
    requires forall i | 0 <= i < |ps| :: Plain(ps[i])
    ensures ReadMany(d, crc, Stream(d, crc, ps) + rest, broken, |ps|) == (StampedAll(d, crc, ps), rest)
    decreases |ps|
  {
    if ps == [] {
      assert [] + rest == rest;
    } else {
      StreamHead(d, crc, ps, rest);
      StreamRoundTrip(d, crc, ps[1..], rest, broken);
      StreamReadOn(d, crc, ps[0], Stream(d, crc, ps[1..]) + rest, broken, |ps| - 1, StampedAll(d, crc, ps[1..]), rest);
    }
  }

  lemma {:induction false} StampedLength(d: Digests, crc: Checksum, ps: seq<RawPdu>)
    ensures |StampedAll(d, crc, ps)| == |ps|
    decreases |ps|
  {
    if ps != [] {
      StampedLength(d, crc, ps[1..]);
    }
  }

  lemma StreamStep(d: Digests, crc: Checksum, ps: seq<RawPdu>, k: nat)
    requires k < |ps|
    ensures Stream(d, crc, ps[k..]) == Frame(d.order, Stamped(d, crc, ps[k])) + Stream(d, crc, ps[k + 1..])
  {
    assert ps[k..][1..] == ps[k + 1..];
  }

  /** A writer that has failed takes no more, and what it has taken is the front of all that follows. */
  lemma TakenIsFront(limit: Option<nat>, before: bytes, more: bytes, all: bytes)
    requires Fits(limit, |before|) && before + more <= all && !Fits(limit, |before| + |more|)
    ensures Taken(limit, before + more) == Taken(limit, all) && !Fits(limit, |all|)
  {
  }

  /** The PDUs from the k-th on are still to come, on top of what has been written. */
  ghost predicate Ahead(d: Digests, crc: Checksum, ps: seq<RawPdu>, k: nat, written: bytes, all: bytes)
    requires k <= |ps|
  {
    written + Stream(d, crc, ps[k..]) == all
  }

  lemma AheadStep(d: Digests, crc: Checksum, ps: seq<RawPdu>, k: nat, written: bytes, all: bytes)
    requires k < |ps| && Ahead(d, crc, ps, k, written, all)
    ensures var frame := Frame(d.order, Stamped(d, crc, ps[k]));
      written + frame <= all && Ahead(d, crc, ps, k + 1, written + frame, all)
  {
    StreamStep(d, crc, ps, k);
    Assoc(written, Frame(d.order, Stamped(d, crc, ps[k])), Stream(d, crc, ps[k + 1..]));
  }

  /** One PDU of the stream, stamped and written. */
  method WriteNext(w: Sink, pool: BufferPool.Pool, d: Digests, crc: Checksum, ps: seq<RawPdu>, k: nat, ghost all: bytes)
    returns (ok: bool)
    requires w.Valid() && pool.Valid() && k < |ps| && Ahead(d, crc, ps, k, w.written, all)
    modifies w, pool, pool.Free()
    ensures w.Valid() && pool.Valid() && fresh(pool.Free() - old(pool.Free()))
    ensures ok ==> Ahead(d, crc, ps, k + 1, w.written, all)
    ensures !ok ==> w.written == Taken(w.limit, all) && !Fits(w.limit, |all|)
  {
    var raw := StampDigests(d, crc, ps[k]);
    ghost var soFar := w.written;
    AheadStep(d, crc, ps, k, soFar, all);
    ok := WriteRawPDU(w, pool, raw, d.order);
    if !ok {
      TakenIsFront(w.limit, soFar, Frame(d.order, raw), all);
    }
  }

  /** The writer's side of a stream: each PDU stamped and then written, up to the first write that fails. */
  method WriteAll(w: Sink, pool: BufferPool.Pool, d: Digests, crc: Checksum, ps: seq<RawPdu>) returns (ok: bool)
    requires w.Valid() && pool.Valid()
    modifies w, pool, pool.Free()
    ensures w.Valid() && pool.Valid()
    ensures w.written == Taken(w.limit, old(w.written) + Stream(d, crc, ps))
    ensures ok == Fits(w.limit, |old(w.written)| + |Stream(d, crc, ps)|)
  {
    ghost var all := w.written + Stream(d, crc, ps);
    assert ps[0..] == ps;
    for k := 0 to |ps|
      invariant w.Valid() && pool.Valid() && fresh(pool.Free() - old(pool.Free()))
      invariant Ahead(d, crc, ps, k, w.written, all)
    {
      ok := WriteNext(w, pool, d, crc, ps, k, all);
      if !ok {
        return;
      }
    }
    assert ps[|ps|..] == [] && w.written + [] == w.written;
    ok := true;
  }

  // ---- Arbitrary input ----------------------------------------------------------------

  /**
   * On any input whatever: a read succeeds exactly if the announced bytes are all there
   * and each digest agrees with the bytes it covers.
   */
  lemma ReadSucceedsIff(d: Digests, crc: Checksum, input: bytes, broken: bool)
    ensures ReadOf(d, crc, input, broken).result.Got? <==>
      && |input| >= BHS_LENGTH
      && var bhs := input[..BHS_LENGTH]; var need := PayloadLen(d, bhs);
      && |input| - BHS_LENGTH >= need
      && var p := Parse(d, bhs, input[BHS_LENGTH..BHS_LENGTH + need]);
      && (d.header ==> p.headerDigest == Some(crc(p.bhs + p.ahs)))
      && (d.data && p.data != [] ==> p.dataDigest == Some(crc(p.data + Zeros(PadLen(|p.data|)))))
  {
  }

  /** What has been read is well formed and carries the digests that were agreed. */
  lemma ReadIsWellFormed(d: Digests, crc: Checksum, input: bytes, broken: bool)
    requires ReadOf(d, crc, input, broken).result.Got?
    ensures var p := ReadOf(d, crc, input, broken).result.pdu;
      WellFormed(p) && Agreed(d, p) && |Frame(d.order, p)| == ReadOf(d, crc, input, broken).taken
  {
    var p := ReadOf(d, crc, input, broken).result.pdu;
    FrameIsHeaderAndPayload(d.order, p);
    PayloadHasItsLength(d, p);
  }

  lemma DecodeThenEncode(order: ByteOrder, b: bytes)
    requires |b| == 4
    ensures EncodeU32(order, DecodeU32(order, b)) == b
  {
    var x := DecodeU32(order, b);
    var c: bytes := if order == LittleEndian then b else [b[3], b[2], b[1], b[0]];
    assert x == c[0] as int + 0x100 * (c[1] as int + 0x100 * (c[2] as int + 0x100 * c[3] as int));
    assert x / 0x100 == c[1] as int + 0x100 * (c[2] as int + 0x100 * c[3] as int);
    assert x / 0x1_0000 == x / 0x100 / 0x100 == c[2] as int + 0x100 * c[3] as int;
    assert x / 0x100_0000 == x / 0x1_0000 / 0x100 == c[3] as int;
  }

  lemma SlicesMeet(b: bytes, i: nat, j: nat, k: nat)
    requires i <= j <= k <= |b|
    ensures b[i..j] + b[j..k] == b[i..k]
  {
  }

  lemma FiveSlices(b: bytes, i: nat, j: nat, k: nat, l: nat)
    requires i <= j <= k <= l <= |b|
    ensures b == b[..i] + b[i..j] + b[j..k] + b[k..l] + b[l..]
  {
    SlicesMeet(b, 0, i, j);
    SlicesMeet(b, 0, j, k);
    SlicesMeet(b, 0, k, l);
    SlicesMeet(b, 0, l, |b|);
    assert b[0..|b|] == b && b[l..|b|] == b[l..] && b[0..i] == b[..i];
  }

  /** The words that were cut out as digests, encoded again. */
  lemma WordsFromSlices(d: Digests, bhs: bytes, payload: bytes, ahs: nat, data: nat, pad: nat, h: nat, end: nat)
    requires h == ahs + (if d.header then 4 else 0) && end == h + data + pad
    requires |payload| == end + if d.data && data > 0 then 4 else 0
    ensures var p := Sliced(d, bhs, payload, ahs, data, pad);
      Word(d.order, p.headerDigest) == payload[ahs..h] && Word(d.order, p.dataDigest) == payload[end..]
  {
    if d.header {
      DecodeThenEncode(d.order, payload[ahs..h]);
    }
    if d.data && data > 0 {
      DecodeThenEncode(d.order, payload[end..end + 4]);
    }
  }

  lemma SlicedFromParts(d: Digests, bhs: bytes, payload: bytes, ahs: nat, data: nat, pad: nat, ds: nat)
    requires ds == ahs + (if d.header then 4 else 0) + data
    requires |payload| == ds + pad + if d.data && data > 0 then 4 else 0
    ensures var p := Sliced(d, bhs, payload, ahs, data, pad);
      payload == p.ahs + Word(d.order, p.headerDigest) + p.data + payload[ds..ds + pad] + Word(d.order, p.dataDigest)
  {
    WordsFromSlices(d, bhs, payload, ahs, data, pad, ds - data, ds + pad);
    FiveSlices(payload, ahs, ds - data, ds, ds + pad);
  }

  /** A payload with the given padding, put together again from its components. */
  lemma PayloadFromParts(d: Digests, bhs: bytes, payload: bytes)
    requires |bhs| == BHS_LENGTH && |payload| == PayloadLen(d, bhs)
    ensures var p, ds := Parse(d, bhs, payload), AhsLen(bhs) + (if d.header then 4 else 0) + DataLen(bhs);
      payload == p.ahs + Word(d.order, p.headerDigest) + p.data + payload[ds..ds + PadLen(DataLen(bhs))]
                 + Word(d.order, p.dataDigest)
  {
    SlicedFromParts(d, bhs, payload, AhsLen(bhs), DataLen(bhs), PadLen(DataLen(bhs)),
                    AhsLen(bhs) + (if d.header then 4 else 0) + DataLen(bhs));
  }

  lemma PayloadParts(d: Digests, p: RawPdu)
    requires WellFormed(p) && Agreed(d, p)
    ensures Payload(d.order, p)
            == p.ahs + Word(d.order, p.headerDigest) + p.data + Zeros(PadLen(|p.data|)) + Word(d.order, p.dataDigest)
  {
    var h, z, w := Word(d.order, p.headerDigest), Zeros(PadLen(|p.data|)), Word(d.order, p.dataDigest);
    if p.data == [] {
      assert p.ahs + h + [] + [] + [] == p.ahs + h + [];
    } else {
      assert p.ahs + h + (p.data + z + w) == p.ahs + h + p.data + z + w;
    }
  }

  /** Two byte strings that differ at most in one stretch are equal if and only if that is. */
  lemma EqualIffMiddle(a: bytes, b: bytes, b': bytes, c: bytes)
    requires |b| == |b'|
    ensures a + b + c == a + b' + c <==> b == b'
  {
    MiddleSlice(a, b, c);
    MiddleSlice(a, b', c);
  }

  lemma EqualIffTail(a: bytes, b: bytes, b': bytes)
    ensures a + b == a + b' <==> b == b'
  {
    assert (a + b)[|a|..] == b && (a + b')[|a|..] == b';
  }

  lemma PayloadWriteInvertsReadIff(d: Digests, bhs: bytes, payload: bytes, p: RawPdu)
    requires |bhs| == BHS_LENGTH && |payload| == PayloadLen(d, bhs) && p == Parse(d, bhs, payload)
    ensures var ds := |p.ahs| + (if d.header then 4 else 0) + |p.data|;
      && ds + PadLen(|p.data|) <= |payload| && WellFormed(p)
      && (Payload(d.order, p) == payload <==> payload[ds..ds + PadLen(|p.data|)] == Zeros(PadLen(|p.data|)))
  {
    var ds, n := |p.ahs| + (if d.header then 4 else 0) + |p.data|, PadLen(|p.data|);
    PayloadFromParts(d, bhs, payload);
    PayloadParts(d, p);
    EqualIffMiddle(p.ahs + Word(d.order, p.headerDigest) + p.data, payload[ds..ds + n], Zeros(n),
                   Word(d.order, p.dataDigest));
  }

  /** A payload, cut up and put together again, is the same if and only if its padding is zero. */
  lemma FrameOfParsedIff(d: Digests, bhs: bytes, payload: bytes, p: RawPdu, ds: nat, n: nat)
    requires |bhs| == BHS_LENGTH && |payload| == PayloadLen(d, bhs) && p == Parse(d, bhs, payload)
    requires ds == |p.ahs| + (if d.header then 4 else 0) + |p.data| && n == PadLen(|p.data|)
    ensures ds + n <= |payload|
    ensures Frame(d.order, p) == bhs + payload <==> payload[ds..ds + n] == Zeros(n)
  {
    PayloadWriteInvertsReadIff(d, bhs, payload, p);
    FrameIsHeaderAndPayload(d.order, p);
    EqualIffTail(bhs, Payload(d.order, p), payload);
  }

  /**
   * Reading loses the padding bytes and nothing else: whatever follows on the stream, what
   * was read, written again, gives the bytes read if and only if their padding was zero.
   */
  lemma WriteInvertsReadIff(d: Digests, crc: Checksum, bhs: bytes, payload: bytes, rest: bytes, broken: bool, p: RawPdu,
                            ds: nat, n: nat)
    requires |bhs| == BHS_LENGTH && |payload| == PayloadLen(d, bhs)
    requires ReadOf(d, crc, bhs + payload + rest, broken).result == Got(p)
    requires ds == |p.ahs| + (if d.header then 4 else 0) + |p.data| && n == PadLen(|p.data|)
    ensures ReadOf(d, crc, bhs + payload + rest, broken).taken == |bhs + payload| && ds + n <= |payload|
    ensures Frame(d.order, p) == bhs + payload <==> payload[ds..ds + n] == Zeros(n)
  {
    ReadParses(d, crc, bhs, payload, rest, broken);
    FrameOfParsedIff(d, bhs, payload, p, ds, n);
  }

  lemma ReadParses(d: Digests, crc: Checksum, bhs: bytes, payload: bytes, rest: bytes, broken: bool)
    requires |bhs| == BHS_LENGTH && |payload| == PayloadLen(d, bhs)
    ensures ReadOf(d, crc, bhs + payload + rest, broken)
            == ReadOutcome(Verdict(crc, Parse(d, bhs, payload)), |bhs + payload|)
  {
    MiddleSlice(bhs, payload, rest);
    assert (bhs + payload + rest)[..BHS_LENGTH] == bhs;
  }

  /** Frames are unambiguous: a stream begins with the frame of one PDU at most. */
  lemma ReadIsInjectiveOnFrames(d: Digests, crc: Checksum, p: RawPdu, q: RawPdu, rest: bytes, rest': bytes)
    requires WellFormed(p) && Agreed(d, p) && WellFormed(q) && Agreed(d, q)
    requires Verdict(crc, p) == Got(p) && Verdict(crc, q) == Got(q)
    requires Frame(d.order, p) + rest == Frame(d.order, q) + rest'
    ensures p == q && rest == rest'
  {
    ReadInvertsFrame(d, crc, p, rest, false);
    ReadInvertsFrame(d, crc, q, rest', false);
    assert rest == (Frame(d.order, p) + rest)[|Frame(d.order, p)|..];
    assert rest' == (Frame(d.order, q) + rest')[|Frame(d.order, q)|..];
  }

  /**
   * A stream that breaks off right behind a basic header segment that announces more is
   * reported as an ordinary end of stream, like one that ends between two PDUs; if it
   * breaks off anywhere else inside a PDU, the report is that of a truncated one.
   */
  lemma TruncationReport(d: Digests, crc: Checksum, p: RawPdu, cut: nat)
    requires WellFormed(p) && Agreed(d, p) && cut < |Frame(d.order, p)|
    ensures ReadOf(d, crc, Frame(d.order, p)[..cut], false).result
            == Failed(ShortRead(if cut == 0 || cut == BHS_LENGTH then Eof else UnexpectedEof))
  {
    FrameIsHeaderAndPayload(d.order, p);
    PayloadHasItsLength(d, p);
    if cut >= BHS_LENGTH {
      assert Frame(d.order, p)[..cut][..BHS_LENGTH] == p.bhs;
    }
  }

  // ---- The login path -------------------------------------------------------------------

  /** A PDU marshalled as a whole: basic header segment, data and padding. */
  method EncodePDU(bhs: bytes, data: bytes) returns (out: bytes)
    requires |bhs| == BHS_LENGTH
    ensures out == bhs + Padded(data)
  {
    var buf := new byte[|bhs| + |data| + PadLen(|data|)](_ => 0);
    assert buf[..] == Zeros(buf.Length);
    CopyAt(buf, 0, bhs);
    ghost var zeros := Zeros(|data| + PadLen(|data|));
    assert buf[..] == bhs + zeros;
    if |data| > 0 {
      CopyAt(buf, BHS_LENGTH, data);
      assert (bhs + zeros)[..BHS_LENGTH] == bhs;
      assert (bhs + zeros)[BHS_LENGTH + |data|..] == Zeros(PadLen(|data|));
      assert buf[..] == bhs + data + Zeros(PadLen(|data|));
    }
    out := buf[..];
    assert bhs + data + Zeros(PadLen(|data|)) == bhs + (data + Zeros(PadLen(|data|)));
  }

  /**
   * Login passes the padding of the marshalled PDU on as data. The segment is then aligned,
   * so that the wire sees the same bytes as for the unpadded data.
   */
  lemma LoginPaddingIsHarmless(order: ByteOrder, bhs: bytes, data: bytes)
    ensures Frame(order, RawPdu(bhs, [], Padded(data), None, None)) == Frame(order, RawPdu(bhs, [], data, None, None))
  {
    assert PadLen(|Padded(data)|) == 0;
    assert Padded(Padded(data)) == Padded(data);
  }
}
