/** Additional header segments (section 11.2.2 of RFC 7143), as this initiator writes and reads them. */
module Ahs {
  import opened Prelude

  const HEADER_LEN: nat := 4
  const MAX_PAYLOAD: nat := 16384

  datatype Segment = Segment(kind: byte, data: bytes)

  datatype AhsError = TruncatedHeader | InvalidLength | TooLong(length: nat) | DataMissing

  datatype Parsed = Segments(segs: seq<Segment>) | Malformed(error: AhsError)

  /** The length field counts the type byte, the type-specific byte and the data, on 16 bits. */
  function LengthField(n: nat): nat {
    (2 + n) % 0x1_0000
  }

  function Header(s: Segment): (h: bytes)
    ensures |h| == HEADER_LEN
  {
    var len := LengthField(|s.data|);
    [(len / 0x100) as byte, (len % 0x100) as byte, s.kind, 0]
  }

  function One(s: Segment): (b: bytes)
    ensures |b| % 4 == 0 && |b| >= HEADER_LEN
  {
    Header(s) + s.data + Zeros(PadLen(HEADER_LEN + |s.data|))
  }

  function Marshal(segs: seq<Segment>): bytes {
    if segs == [] then [] else One(segs[0]) + Marshal(segs[1..])
  }

  lemma {:induction false} MarshalSnoc(segs: seq<Segment>, s: Segment)
    ensures Marshal(segs + [s]) == Marshal(segs) + One(s)
    decreases |segs|
  {
    if segs == [] {
      assert [s][1..] == [];
      assert [] + [s] == [s] && One(s) + [] == One(s) && [] + One(s) == One(s);
    } else {
      assert (segs + [s])[1..] == segs[1..] + [s];
      MarshalSnoc(segs[1..], s);
      assert One(segs[0]) + (Marshal(segs[1..]) + One(s)) == One(segs[0]) + Marshal(segs[1..]) + One(s);
    }
  }

  method MarshalAHS(segs: seq<Segment>) returns (out: bytes)
    ensures out == Marshal(segs)
  {
    out := [];
    for i := 0 to |segs|
      invariant out == Marshal(segs[..i])
    {
      assert segs[..i + 1] == segs[..i] + [segs[i]];
      MarshalSnoc(segs[..i], segs[i]);
      var before := out;
      out := out + Header(segs[i]);
      out := out + segs[i].data;
      var pad := PadLen(HEADER_LEN + |segs[i].data|);
      for k := 0 to pad
        invariant out == before + Header(segs[i]) + segs[i].data + Zeros(k)
      {
        assert Zeros(k) + [0] == Zeros(k + 1);
        out := out + [0];
      }
      assert out == before + One(segs[i]);
    }
    assert segs[..|segs|] == segs;
  }

  function Cons(s: Segment, p: Parsed): Parsed {
    if p.Segments? then Segments([s] + p.segs) else p
  }

  /** The payload length announced by a header, or what is wrong with it. */
  datatype Announced = Payload(n: nat) | Wrong(error: AhsError)

  function AnnouncedBy(data: bytes): (a: Announced)
    ensures a.Payload? ==> HEADER_LEN + a.n <= |data| && a.n <= MAX_PAYLOAD
  {
    if |data| < HEADER_LEN then Wrong(TruncatedHeader)
    else
      var len := 0x100 * data[0] as int + data[1] as int;
      if len < 2 then Wrong(InvalidLength)
      else if len - 2 > MAX_PAYLOAD then Wrong(TooLong(len - 2))
      else if HEADER_LEN + len - 2 > |data| then Wrong(DataMissing)
      else Payload(len - 2)
  }

  /** The padding of the last segment may be missing. */
  function Skip(data: bytes, n: nat): bytes {
    if n <= |data| then data[n..] else []
  }

  /** How far the next segment is behind one with n bytes of payload. */
  function StepOver(n: nat): (step: nat)
    ensures step >= HEADER_LEN + n && step % 4 == 0
  {
    HEADER_LEN + n + PadLen(HEADER_LEN + n)
  }

  function Parse(data: bytes): Parsed
    decreases |data|
  {
    if data == [] then Segments([])
    else
      var a := AnnouncedBy(data);
      if a.Wrong? then Malformed(a.error)
      else
        Cons(Segment(data[2], data[HEADER_LEN..HEADER_LEN + a.n]),
             Parse(Skip(data, StepOver(a.n))))
  }

  function Prepend(segs: seq<Segment>, p: Parsed): Parsed {
    if p.Segments? then Segments(segs + p.segs) else p
  }

  /** One segment at an offset: its data, or what is wrong. */
  method ReadSegment(data: bytes, offset: nat) returns (a: Announced, seg: Segment)
    requires offset < |data|
    ensures a == AnnouncedBy(data[offset..])
    ensures a.Payload? ==>
      seg == Segment(data[offset..][2], data[offset..][HEADER_LEN..HEADER_LEN + a.n])
  {
    ghost var rest := data[offset..];
    seg := Segment(0, []);
    if offset + HEADER_LEN > |data| {
      return Wrong(TruncatedHeader), seg;
    }
    var ahsLen := 0x100 * data[offset] as int + data[offset + 1] as int;
    if ahsLen < 2 {
      return Wrong(InvalidLength), seg;
    }
    var dataLen := ahsLen - 2;
    if dataLen > MAX_PAYLOAD {
      return Wrong(TooLong(dataLen)), seg;
    }
    var dataStart := offset + HEADER_LEN;
    var dataEnd := dataStart + dataLen;
    if dataEnd > |data| {
      return Wrong(DataMissing), seg;
    }
    assert rest[HEADER_LEN..HEADER_LEN + dataLen] == data[dataStart..dataEnd];
    return Payload(dataLen), Segment(data[offset + 2], data[dataStart..dataEnd]);
  }

  lemma SkipOn(data: bytes, offset: nat, n: nat)
    requires offset <= |data|
    ensures Skip(data[offset..], n) == Skip(data, offset + n)
  {
  }

  lemma PrependCons(segs: seq<Segment>, s: Segment, p: Parsed)
    ensures Prepend(segs, Cons(s, p)) == Prepend(segs + [s], p)
  {
    if p.Segments? {
      assert segs + ([s] + p.segs) == segs + [s] + p.segs;
    }
  }

  lemma ParseStep(data: bytes, offset: nat, a: Announced, seg: Segment)
    requires offset < |data| && a == AnnouncedBy(data[offset..])
    requires a.Payload? ==>
      seg == Segment(data[offset..][2], data[offset..][HEADER_LEN..HEADER_LEN + a.n])
    ensures a.Wrong? ==> Parse(Skip(data, offset)) == Malformed(a.error)
    ensures a.Payload? ==> Parse(Skip(data, offset)) == Cons(seg, Parse(Skip(data, offset + StepOver(a.n))))
  {
    if a.Payload? {
      SkipOn(data, offset, StepOver(a.n));
    }
  }

  /** One round of the loop. */
  method NextSegment(data: bytes, offset: nat, ghost all: Parsed, segs: seq<Segment>)
    returns (a: Announced, segs': seq<Segment>, offset': nat)
    requires offset < |data| && all == Prepend(segs, Parse(Skip(data, offset)))
    ensures a.Wrong? ==> all == Malformed(a.error)
    ensures a.Payload? ==> offset' > offset && all == Prepend(segs', Parse(Skip(data, offset')))
  {
    var seg;
    a, seg := ReadSegment(data, offset);
    ParseStep(data, offset, a, seg);
    segs', offset' := segs, offset;
    if a.Payload? {
      PrependCons(segs, seg, Parse(Skip(data, offset + StepOver(a.n))));
      segs', offset' := segs + [seg], offset + StepOver(a.n);
    }
  }

  /** The loop walks an offset through the data. It may end behind the data, by the padding that is missing. */
  method UnmarshalAHS(data: bytes) returns (result: Parsed)
    ensures result == Parse(data)
  {
    var segs: seq<Segment> := [];
    var offset := 0;
    ghost var all := Parse(data);
    assert Skip(data, 0) == data;
    PrependNothing(all);
    while offset < |data|
      invariant all == Prepend(segs, Parse(Skip(data, offset)))
      decreases |data| - offset
    {
      var a;
      a, segs, offset := NextSegment(data, offset, all, segs);
      if a.Wrong? {
        return Malformed(a.error);
      }
    }
    assert segs + [] == segs;
    return Segments(segs);
  }

  lemma PrependNothing(p: Parsed)
    ensures Prepend([], p) == p
  {
    if p.Segments? {
      assert [] + p.segs == p.segs;
    }
  }

  // ---- Round trip ----------------------------------------------------------------------

  predicate Fits(segs: seq<Segment>) {
    forall i | 0 <= i < |segs| :: |segs[i].data| <= MAX_PAYLOAD
  }

  lemma Splits(h: bytes, d: bytes, z: bytes, rest: bytes)
    ensures var b := h + d + z + rest;
      b[..|h|] == h && b[|h|..|h| + |d|] == d && b[|h| + |d| + |z|..] == rest
  {
  }

  lemma Announces(s: Segment, data: bytes)
    requires |s.data| <= MAX_PAYLOAD && HEADER_LEN + |s.data| <= |data| && data[..HEADER_LEN] == Header(s)
    ensures AnnouncedBy(data) == Payload(|s.data|) && data[2] == s.kind
  {
    assert data[0] == data[..HEADER_LEN][0] && data[1] == data[..HEADER_LEN][1] && data[2] == data[..HEADER_LEN][2];
  }

  lemma ParseFirst(s: Segment, rest: bytes)
    requires |s.data| <= MAX_PAYLOAD
    ensures Parse(One(s) + rest) == Cons(s, Parse(rest))
  {
    var data := One(s) + rest;
    Splits(Header(s), s.data, Zeros(PadLen(HEADER_LEN + |s.data|)), rest);
    Announces(s, data);
    assert Skip(data, StepOver(|s.data|)) == rest;
  }

  lemma {:induction false} ParseAfterMarshal(segs: seq<Segment>)
    requires Fits(segs)
    ensures Parse(Marshal(segs)) == Segments(segs)
    decreases |segs|
  {
    if segs != [] {
      ParseAfterMarshal(segs[1..]);
      ParseFirst(segs[0], Marshal(segs[1..]));
    }
  }

  lemma {:induction false} ParsedFits(data: bytes)
    requires Parse(data).Segments?
    ensures Fits(Parse(data).segs)
    decreases |data|
  {
    if data != [] {
      var n := AnnouncedBy(data).n;
      ParsedFits(Skip(data, StepOver(n)));
    }
  }

  /** Reading inverts writing on exactly the lists whose payloads are at most 16384 bytes long. */
  lemma ParseInvertsMarshalIff(segs: seq<Segment>)
    ensures Parse(Marshal(segs)) == Segments(segs) <==> Fits(segs)
  {
    if Fits(segs) {
      ParseAfterMarshal(segs);
    }
    if Parse(Marshal(segs)).Segments? {
      ParsedFits(Marshal(segs));
    }
  }

  /**
   * One segment on the wire (section 11.2.2): the length of type-specific byte, data and type on
   * two bytes, the high one first; the type; a zero; the data; and zeros up to the next
   * multiple of four.
   */
  lemma SegmentIsLaidOut(s: Segment)
    requires |s.data| <= MAX_PAYLOAD
    ensures var b, pad := One(s), (4 - |s.data| % 4) % 4;
      && |b| == 4 + |s.data| + pad
      && 0x100 * (b[0] as int) + b[1] as int == 2 + |s.data| && b[2] == s.kind && b[3] == 0
      && b[4..4 + |s.data|] == s.data
      && forall i | 4 + |s.data| <= i < |b| :: b[i] == 0
  {
  }

  /** What is wrong with bytes that do not begin with a segment, in the order in which it is found. */
  lemma FirstErrorIs(data: bytes)
    requires data != []
    ensures |data| < 4 ==> Parse(data) == Malformed(TruncatedHeader)
    ensures |data| >= 4 ==>
      var len := 0x100 * (data[0] as int) + data[1] as int;
      && (len < 2 ==> Parse(data) == Malformed(InvalidLength))
      && (len > 16386 ==> Parse(data) == Malformed(TooLong(len - 2)))
      && (2 <= len <= 16386 && len + 2 > |data| ==> Parse(data) == Malformed(DataMissing))
  {
  }

  lemma SumIsAligned(a: nat, b: nat)
    requires a % 4 == 0 && b % 4 == 0
    ensures (a + b) % 4 == 0
  {
  }

  /** What is written can be announced in words of four bytes. */
  lemma {:induction false} MarshalIsAligned(segs: seq<Segment>)
    ensures |Marshal(segs)| % 4 == 0
    decreases |segs|
  {
    if segs != [] {
      MarshalIsAligned(segs[1..]);
      SumIsAligned(|One(segs[0])|, |Marshal(segs[1..])|);
    }
  }

  /** What was read, written again, is read the same. */
  lemma ParsingIsStable(data: bytes)
    requires Parse(data).Segments?
    ensures Parse(Marshal(Parse(data).segs)) == Parse(data)
  {
    ParsedFits(data);
    ParseInvertsMarshalIff(Parse(data).segs);
  }
}
