/**
 * Text keys as they travel in login and text PDUs (section 6.1 of RFC 7143): key=value,
 * each ended by a zero byte.
 */
module TextCodec {
  import opened Prelude

  const NUL: byte := 0
  const EQUALS: byte := 61

  datatype KeyValue = KeyValue(key: bytes, value: bytes)

  predicate Lacks(s: bytes, b: byte) {
    forall i | 0 <= i < |s| :: s[i] != b
  }

  /** A pair that the format can carry. */
  predicate CleanPair(p: KeyValue) {
    Lacks(p.key, NUL) && Lacks(p.key, EQUALS) && Lacks(p.value, NUL)
  }

  predicate Clean(pairs: seq<KeyValue>) {
    forall i | 0 <= i < |pairs| :: CleanPair(pairs[i])
  }

  function Segment(p: KeyValue): bytes {
    p.key + [EQUALS] + p.value
  }

  function Encode(pairs: seq<KeyValue>): bytes {
    if pairs == [] then [] else Segment(pairs[0]) + [NUL] + Encode(pairs[1..])
  }

  lemma {:induction false} EncodeSnoc(pairs: seq<KeyValue>, p: KeyValue)
    ensures Encode(pairs + [p]) == Encode(pairs) + (Segment(p) + [NUL])
    decreases |pairs|
  {
    if pairs == [] {
      assert [] + [p] == [p] && [p][1..] == [];
    } else {
      assert (pairs + [p])[1..] == pairs[1..] + [p];
      EncodeSnoc(pairs[1..], p);
      var first := Segment(pairs[0]) + [NUL];
      assert first + (Encode(pairs[1..]) + (Segment(p) + [NUL])) == first + Encode(pairs[1..]) + (Segment(p) + [NUL]);
    }
  }

  /** The first place of a byte, or the length if there is none. */
  function IndexOf(s: bytes, b: byte): (i: nat)
    ensures i <= |s| && (i < |s| ==> s[i] == b)
  {
    if s == [] || s[0] == b then 0 else IndexOf(s[1..], b) + 1
  }

  /** A segment cut at its first equals sign. Without one, all of it is the key. */
  function Cut(seg: bytes): KeyValue {
    var i := IndexOf(seg, EQUALS);
    KeyValue(seg[..i], if i < |seg| then seg[i + 1..] else [])
  }

  /** What decoding makes of one segment. Empty segments are skipped. */
  function PairsOf(seg: bytes): seq<KeyValue> {
    if seg == [] then [] else [Cut(seg)]
  }

  /** A reader that takes one byte after the other: the pairs so far, and the segment it is in. */
  datatype Reader = Reader(pairs: seq<KeyValue>, seg: bytes)

  function Feed(r: Reader, b: byte): Reader {
    if b == NUL then Reader(r.pairs + PairsOf(r.seg), []) else Reader(r.pairs, r.seg + [b])
  }

  function Scanned(data: bytes): Reader {
    if data == [] then Reader([], []) else Feed(Scanned(data[..|data| - 1]), data[|data| - 1])
  }

  function Decode(data: bytes): seq<KeyValue> {
    Scanned(data).pairs + PairsOf(Scanned(data).seg)
  }

  method EncodeTextKV(pairs: seq<KeyValue>) returns (buf: bytes)
    ensures buf == Encode(pairs)
  {
    buf := [];
    for i := 0 to |pairs|
      invariant buf == Encode(pairs[..i])
    {
      assert pairs[..i + 1] == pairs[..i] + [pairs[i]];
      EncodeSnoc(pairs[..i], pairs[i]);
      buf := buf + pairs[i].key;
      buf := buf + [EQUALS];
      buf := buf + pairs[i].value;
      buf := buf + [NUL];
      assert buf == Encode(pairs[..i]) + (Segment(pairs[i]) + [NUL]);
    }
    assert pairs[..|pairs|] == pairs;
  }

  lemma ScanOneMore(data: bytes, i: nat)
    requires i < |data|
    ensures Scanned(data[..i + 1]) == Feed(Scanned(data[..i]), data[i])
  {
    assert data[..i + 1][..i] == data[..i];
  }

  lemma SliceSnoc(data: bytes, i: nat, j: nat)
    requires i <= j < |data|
    ensures data[i..j] + [data[j]] == data[i..j + 1]
  {
  }

  lemma ScanWithinSegment(data: bytes, start: nat, end: nat, pairs: seq<KeyValue>)
    requires start <= end < |data| && data[end] != NUL
    requires Scanned(data[..end]) == Reader(pairs, data[start..end])
    ensures Scanned(data[..end + 1]) == Reader(pairs, data[start..end + 1])
  {
    ScanOneMore(data, end);
    SliceSnoc(data, start, end);
  }

  /** The end of the segment that begins at `start`. */
  method SegmentEnd(data: bytes, start: nat, ghost pairs: seq<KeyValue>) returns (end: nat)
    requires start <= |data| && Scanned(data[..start]) == Reader(pairs, [])
    ensures start <= end <= |data| && (end < |data| ==> data[end] == NUL)
    ensures Scanned(data[..end]) == Reader(pairs, data[start..end])
  {
    end := start;
    assert data[start..start] == [];
    while end < |data| && data[end] != NUL
      invariant start <= end <= |data| && Scanned(data[..end]) == Reader(pairs, data[start..end])
    {
      ScanWithinSegment(data, start, end, pairs);
      end := end + 1;
    }
  }

  method Find(s: bytes, b: byte) returns (i: nat)
    ensures i == IndexOf(s, b)
  {
    i := 0;
    assert s[0..] == s;
    while i < |s| && s[i] != b
      invariant i <= |s| && IndexOf(s, b) == i + IndexOf(s[i..], b)
    {
      assert s[i..][1..] == s[i + 1..];
      i := i + 1;
    }
  }

  method DecodeSegment(seg: bytes) returns (pairs: seq<KeyValue>)
    ensures pairs == PairsOf(seg)
  {
    pairs := [];
    if |seg| > 0 {
      var cut := Find(seg, EQUALS);
      pairs := [KeyValue(seg[..cut], if cut < |seg| then seg[cut + 1..] else [])];
    }
  }

  /** The segments between zero bytes, each cut in turn. */
  method DecodeTextKV(data: bytes) returns (pairs: seq<KeyValue>)
    ensures pairs == Decode(data)
  {
    pairs := [];
    var start := 0;
    while true
      invariant start <= |data| && Scanned(data[..start]) == Reader(pairs, [])
      decreases |data| - start
    {
      var end := SegmentEnd(data, start, pairs);
      var found := DecodeSegment(data[start..end]);
      pairs := pairs + found;
      if end == |data| {
        assert data[..end] == data;
        return;
      }
      ScanOneMore(data, end);
      start := end + 1;
    }
  }

  // ---- Round trips --------------------------------------------------------------------

  lemma {:induction false} IndexInConcat(a: bytes, b: byte, rest: bytes)
    requires Lacks(a, b)
    ensures IndexOf(a + [b] + rest, b) == |a|
    decreases |a|
  {
    if a != [] {
      assert (a + [b] + rest)[1..] == a[1..] + [b] + rest;
      IndexInConcat(a[1..], b, rest);
    }
  }

  lemma CutInvertsSegment(p: KeyValue)
    requires CleanPair(p)
    ensures Cut(Segment(p)) == p
  {
    IndexInConcat(p.key, EQUALS, p.value);
  }

  /** Bytes that are not zero go on with the segment. */
  lemma {:induction false} ScanWithin(front: bytes, s: bytes)
    requires Lacks(s, NUL)
    ensures Scanned(front + s) == Reader(Scanned(front).pairs, Scanned(front).seg + s)
    decreases |s|
  {
    if s == [] {
      assert front + s == front;
    } else {
      var n := |s| - 1;
      assert (front + s)[..|front + s| - 1] == front + s[..n];
      ScanWithin(front, s[..n]);
      assert s[..n] + [s[n]] == s;
    }
  }

  lemma ScanSnoc(front: bytes, b: byte)
    ensures Scanned(front + [b]) == Feed(Scanned(front), b)
  {
    assert (front + [b])[..|front|] == front;
  }

  lemma ScanSegment(front: bytes, pairs: seq<KeyValue>, seg: bytes)
    requires Scanned(front) == Reader(pairs, []) && Lacks(seg, NUL)
    ensures Scanned(front + seg + [NUL]) == Reader(pairs + PairsOf(seg), [])
  {
    ScanWithin(front, seg);
    assert [] + seg == seg;
    ScanSnoc(front + seg, NUL);
  }

  lemma Regroup(a: bytes, b: bytes, c: bytes, d: bytes)
    ensures a + (b + c + d) == (a + b + c) + d
  {
  }

  lemma Rejoin(a: seq<KeyValue>, b: seq<KeyValue>)
    requires b != []
    ensures (a + [b[0]]) + b[1..] == a + b
  {
  }

  lemma {:induction false} ScanAfterEncode(front: bytes, before: seq<KeyValue>, pairs: seq<KeyValue>)
    requires Clean(pairs) && Scanned(front) == Reader(before, [])
    ensures Scanned(front + Encode(pairs)) == Reader(before + pairs, [])
    decreases |pairs|
  {
    if pairs == [] {
      assert front + [] == front && before + [] == before;
    } else {
      var seg := Segment(pairs[0]);
      CutInvertsSegment(pairs[0]);
      ScanSegment(front, before, seg);
      ScanAfterEncode(front + seg + [NUL], before + [pairs[0]], pairs[1..]);
      Regroup(front, seg, [NUL], Encode(pairs[1..]));
      Rejoin(before, pairs);
    }
  }

  lemma {:induction false} IndexIsFirst(s: bytes, b: byte, k: nat)
    requires k < IndexOf(s, b)
    ensures k < |s| && s[k] != b
    decreases |s|
  {
    if k > 0 {
      IndexIsFirst(s[1..], b, k - 1);
    }
  }

  lemma CutIsClean(seg: bytes)
    requires Lacks(seg, NUL)
    ensures CleanPair(Cut(seg))
  {
    forall k | 0 <= k < IndexOf(seg, EQUALS)
      ensures seg[k] != EQUALS
    {
      IndexIsFirst(seg, EQUALS, k);
    }
  }

  /** Whatever is decoded can be carried by the format. */
  lemma {:induction false} ScannedIsClean(data: bytes)
    ensures Clean(Scanned(data).pairs) && Lacks(Scanned(data).seg, NUL)
    decreases |data|
  {
    if data != [] {
      var before := Scanned(data[..|data| - 1]);
      ScannedIsClean(data[..|data| - 1]);
      CutIsClean(before.seg);
    }
  }

  lemma DecodedIsClean(data: bytes)
    ensures Clean(Decode(data))
  {
    ScannedIsClean(data);
    CutIsClean(Scanned(data).seg);
  }

  /** Decoding inverts encoding on exactly the lists without stray separators. */
  lemma DecodeInvertsEncodeIff(pairs: seq<KeyValue>)
    ensures Decode(Encode(pairs)) == pairs <==> Clean(pairs)
  {
    if Clean(pairs) {
      ScanAfterEncode([], [], pairs);
      assert [] + Encode(pairs) == Encode(pairs) && [] + pairs == pairs && pairs + PairsOf([]) == pairs;
    }
    DecodedIsClean(Encode(pairs));
  }

  /** Any bytes at all: encoding what was decoded, and decoding again, gives the same pairs. */
  lemma DecodingIsStable(data: bytes)
    ensures Decode(Encode(Decode(data))) == Decode(data)
  {
    DecodedIsClean(data);
    DecodeInvertsEncodeIff(Decode(data));
  }
}
