/**
 * Writes whose source moves while they are opened: after a reconnect an old task loop may
 * answer R2Ts from the source that the retry has just rewound.
 */
module MovedSource {
  import opened Prelude
  import opened Io
  import opened DataOut
  import opened WritePath

  /** The command with these immediate data, and a burst of what the source has from pos on. */
  function AfterRead(p: Limits, data: bytes, broken: bool, itt: u32, immediate: bytes, pos: nat): Opened
    requires pos <= |data| && |immediate| <= MAX_SEGMENT
  {
    var n := |immediate|;
    if p.initialR2T then Opened(Some(immediate), [], n, n, None)
    else
      var j := UnsolicitedJob(p, data, broken, itt, n);
      var e := EndOf(j, |data| - pos);
      Opened(Some(immediate), Burst(j, pos), Wrap(n + e.sent), n + e.taken, e.error)
  }

  lemma ReadIsImmediate(p: Limits, data: bytes, broken: bool, itt: u32, n: nat, j: Job, e: Ending)
    requires n <= |data| && n <= MAX_SEGMENT
    requires j == UnsolicitedJob(p, data, broken, itt, n) && e == EndOf(j, |data| - n)
    ensures AfterRead(p, data, broken, itt, data[..n], n) == AfterImmediate(p, data, broken, itt, n, n)
  {
  }

  /** It is the opening of the write if the source has not moved, once the immediate data can be read. */
  lemma UnmovedOpening(p: Limits, data: bytes, broken: bool, itt: u32, n: nat)
    requires n == Min(ImmediateLen(p), |data|) && n <= MAX_SEGMENT && Usable(StatusOf(ImmediateLen(p), n, broken))
    ensures AfterRead(p, data, broken, itt, data[..n], n) == OpeningOf(p, data, broken, itt, 0)
  {
    var j := UnsolicitedJob(p, data, broken, itt, n);
    ReadIsImmediate(p, data, broken, itt, n, j, EndOf(j, |data| - n));
    OpeningCases(p, data, broken, itt, 0, n);
  }

  /** How the burst behind n bytes ends, which depends on how much the source has left and not on what. */
  function RestEnd(p: Limits, broken: bool, n: u32, left: nat): Ending {
    if p.initialR2T then Ending(0, 0, None) else EndOf(UnsolicitedJob(p, [], broken, 0, n), left)
  }

  lemma RestIsBurst(p: Limits, data: bytes, broken: bool, itt: u32, n: u32, left: nat)
    requires !p.initialR2T
    ensures EndOf(UnsolicitedJob(p, data, broken, itt, n), left) == RestEnd(p, broken, n, left)
  {
  }

  lemma BurstCarries(j: Job, pos: nat, b: nat)
    requires pos <= |j.data| && 0 < j.maxSegment && j.offset + j.burstLen <= TWO32
    requires EndOf(j, |j.data| - pos).sent == b
    ensures pos + b <= |j.data| && b <= j.burstLen
    ensures TilesFrom(Burst(j, pos), j.offset) && PayloadOf(Burst(j, pos)) == j.data[pos..pos + b]
  {
    BurstIsWellFormed(j, pos);
  }

  lemma BurstIsRest(p: Limits, data: bytes, broken: bool, itt: u32, immediate: bytes, pos: nat, b: nat, j: Job,
                    o: Opened)
    requires pos <= |data| < TWO32 && |immediate| <= MAX_SEGMENT && |immediate| <= p.firstBurst && !p.initialR2T
    requires 0 < p.maxSegment <= MAX_SEGMENT && j == UnsolicitedJob(p, data, broken, itt, |immediate|)
    requires o == AfterRead(p, data, broken, itt, immediate, pos)
    requires RestEnd(p, broken, |immediate|, |data| - pos).sent == b
    ensures o.command == Some(immediate) && o.bytesSent == |immediate| + b && pos + b <= |data|
    ensures TilesFrom(o.burst, |immediate|) && PayloadOf(o.burst) == data[pos..pos + b]
  {
    RestIsBurst(p, data, broken, itt, |immediate|, |data| - pos);
    BurstCarries(j, pos, b);
    assert o.burst == Burst(j, pos) && o.bytesSent == Wrap(|immediate| + b);
  }

  /** What the opening carries. */
  lemma RestCarries(p: Limits, data: bytes, broken: bool, itt: u32, immediate: bytes, pos: nat, b: nat, o: Opened)
    requires pos <= |data| < TWO32 && |immediate| <= MAX_SEGMENT && |immediate| <= p.firstBurst
    requires 0 < p.maxSegment <= MAX_SEGMENT && o == AfterRead(p, data, broken, itt, immediate, pos)
    requires var e := RestEnd(p, broken, |immediate|, |data| - pos); e.error == None && e.sent == b
    ensures o.command == Some(immediate) && o.bytesSent == |immediate| + b && pos + b <= |data|
    ensures TilesFrom(o.burst, |immediate|) && PayloadOf(o.burst) == data[pos..pos + b]
  {
    if p.initialR2T {
      assert data[pos..pos] == [];
    } else {
      BurstIsRest(p, data, broken, itt, immediate, pos, b, UnsolicitedJob(p, data, broken, itt, |immediate|), o);
    }
  }

  lemma PartsFill(buf: bytes, pdus: seq<DataOutPdu>, head: bytes, tail: bytes)
    requires |head| + |tail| <= |buf| && TilesFrom(pdus, |head|) && PayloadOf(pdus) == tail
    ensures |Reassemble(PlaceAt(buf, 0, head), pdus)| == |buf|
    ensures Reassemble(PlaceAt(buf, 0, head), pdus)[..|head| + |tail|] == head + tail
  {
    TilingFills(PlaceAt(buf, 0, head), pdus, |head|, tail);
    PartsInFront(buf, head, tail);
  }

  lemma PartsInFront(buf: bytes, head: bytes, tail: bytes)
    requires |head| + |tail| <= |buf|
    ensures var placed := PlaceAt(buf, 0, head);
      (placed[..|head|] + tail + placed[|head| + |tail|..])[..|head| + |tail|] == head + tail
  {
    assert PlaceAt(buf, 0, head)[..|head|] == head;
  }

  /** What such an opening leaves at the front of the target's buffer is the front of the source. */
  ghost predicate FrontIsRight(o: Opened, data: bytes, buf: bytes)
    requires |data| == |buf|
  {
    && o.command.Some? && o.bytesSent <= |data|
    && Reassemble(PlaceAt(buf, 0, o.command.value), o.burst)[..o.bytesSent] == data[..o.bytesSent]
  }

  lemma FrontHolds(o: Opened, data: bytes, buf: bytes, head: bytes, tail: bytes)
    requires |data| == |buf| && |head| + |tail| <= |data| && o.command == Some(head)
    requires o.bytesSent == |head| + |tail| && TilesFrom(o.burst, |head|) && PayloadOf(o.burst) == tail
    ensures FrontIsRight(o, data, buf) <==> head == data[..|head|] && tail == data[|head|..|head| + |tail|]
  {
    PartsFill(buf, o.burst, head, tail);
    FrontInParts(data, head, tail);
  }

  /** What is in the front of the buffer is right exactly if both parts are. */
  lemma MovedFrontHolds(p: Limits, data: bytes, broken: bool, itt: u32, head: bytes, pos: nat, buf: bytes, b: nat,
                        o: Opened)
    requires |head| <= pos <= |data| == |buf| < TWO32 && |head| <= p.firstBurst && |head| <= MAX_SEGMENT
    requires 0 < p.maxSegment <= MAX_SEGMENT && o == AfterRead(p, data, broken, itt, head, pos)
    requires var e := RestEnd(p, broken, |head|, |data| - pos); e.error == None && e.sent == b
    ensures pos + b <= |data|
    ensures FrontIsRight(o, data, buf) <==> head == data[..|head|] && data[pos..pos + b] == data[|head|..|head| + b]
  {
    RestCarries(p, data, broken, itt, head, pos, b, o);
    FrontHolds(o, data, buf, head, data[pos..pos + b]);
  }

  lemma FrontInParts(data: bytes, head: bytes, tail: bytes)
    requires |head| + |tail| <= |data|
    ensures head + tail == data[..|head| + |tail|]
      <==> head == data[..|head|] && tail == data[|head|..|head| + |tail|]
  {
    var n, m := |head|, |head| + |tail|;
    if head + tail == data[..m] {
      assert head == (head + tail)[..n] && tail == (head + tail)[n..];
    } else {
      assert data[..m] == data[..n] + data[n..m];
    }
  }

  lemma StretchDiffers(data: bytes, x: nat, y: nat, n: nat)
    requires x != y && n > 0 && x + n <= |data| && y + n <= |data| && data == OneAt(|data|, x)
    ensures data[x..x + n] != data[y..y + n]
  {
    assert data[x..x + n][0] == 1 && data[y..y + n][0] == 0;
  }

  /** A byte of the source that comes too early for its place shows. */
  lemma MovedByteShows(p: Limits, data: bytes, broken: bool, itt: u32, k: nat, n: nat, pos: nat, b: nat)
    requires k + n <= pos <= |data| < TWO32 && n <= p.firstBurst && n <= MAX_SEGMENT && 0 < p.maxSegment <= MAX_SEGMENT
    requires var e := RestEnd(p, broken, n, |data| - pos); e.error == None && e.sent == b
    requires (n > 0 && k > 0) || (b > 0 && pos > n)
    requires data == OneAt(|data|, if n > 0 && k > 0 then k else pos)
    ensures !FrontIsRight(AfterRead(p, data, broken, itt, data[k..k + n], pos), data, data)
  {
    var head := data[k..k + n];
    MovedFrontHolds(p, data, broken, itt, head, pos, data, b, AfterRead(p, data, broken, itt, head, pos));
    if n > 0 && k > 0 {
      StretchDiffers(data, k, 0, n);
    } else {
      StretchDiffers(data, pos, n, b);
    }
  }

  lemma SameStretches(data: bytes, k: nat, n: nat, pos: nat, b: nat)
    requires k + n <= |data| && pos + b <= |data| && n + b <= |data|
    requires (n == 0 || k == 0) && (b == 0 || pos == n)
    ensures data[k..k + n] == data[..n] && data[pos..pos + b] == data[n..n + b]
  {
  }

  lemma PartsAreInPlace(p: Limits, data: bytes, broken: bool, itt: u32, k: nat, n: nat, pos: nat, b: nat, buf: bytes)
    requires k + n <= pos <= |data| == |buf| < TWO32 && n <= p.firstBurst && n <= MAX_SEGMENT
    requires 0 < p.maxSegment <= MAX_SEGMENT
    requires var e := RestEnd(p, broken, n, |data| - pos); e.error == None && e.sent == b
    requires (n == 0 || k == 0) && (b == 0 || pos == n)
    ensures FrontIsRight(AfterRead(p, data, broken, itt, data[k..k + n], pos), data, buf)
  {
    var head := data[k..k + n];
    MovedFrontHolds(p, data, broken, itt, head, pos, buf, b, AfterRead(p, data, broken, itt, head, pos));
    SameStretches(data, k, n, pos, b);
  }

  /**
   * A retry rewinds the source and then opens the write again. If an old task loop answers R2Ts
   * meanwhile, the n bytes of immediate data are the source's from k on, and the b bytes of the
   * burst those from pos on. What the opening sends is then right for every source of that
   * length if and only if each part that is not empty starts where it should.
   */
  lemma MovedOpeningIsRightIff(p: Limits, size: nat, broken: bool, itt: u32, k: nat, n: nat, pos: nat, b: nat)
    requires k + n <= pos <= size < TWO32 && n <= p.firstBurst && n <= MAX_SEGMENT && 0 < p.maxSegment <= MAX_SEGMENT
    requires var e := RestEnd(p, broken, n, size - pos); e.error == None && e.sent == b
    ensures (forall data, buf | |data| == |buf| == size ::
               FrontIsRight(AfterRead(p, data, broken, itt, data[k..k + n], pos), data, buf))
      <==> (n == 0 || k == 0) && (b == 0 || pos == n)
  {
    if (n == 0 || k == 0) && (b == 0 || pos == n) {
      forall data, buf | |data| == |buf| == size
        ensures FrontIsRight(AfterRead(p, data, broken, itt, data[k..k + n], pos), data, buf)
      {
        PartsAreInPlace(p, data, broken, itt, k, n, pos, b, buf);
      }
    } else {
      MovedByteShows(p, OneAt(size, if n > 0 && k > 0 then k else pos), broken, itt, k, n, pos, b);
    }
  }
}
