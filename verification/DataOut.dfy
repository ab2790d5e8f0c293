/**
 * One burst of Data-Out PDUs cut from the task's source (section 11.7 of RFC 7143).
 */
module DataOut {
  import opened Prelude
  import opened Io

  datatype DataOutPdu = DataOutPdu(
    itt: u32, targetTransferTag: u32, dataSN: u32, bufferOffset: u32, final: bool, data: bytes)

  datatype WriteError = ReadFailed(status: ReadStatus) | SegmentTooLong | ContextEnded

  /** The last check before a segment goes out. A limit of zero means none. */
  predicate SegmentAllowed(n: nat, targetLimit: u32) {
    targetLimit == 0 || n <= targetLimit
  }

  /** The fixed inputs of a burst. */
  datatype Job = Job(data: bytes, broken: bool, itt: u32, targetTransferTag: u32,
                     offset: u32, burstLen: u32, maxSegment: u32)

  const UNSOLICITED: u32 := 0xFFFF_FFFF

  /** The negotiated parameters that govern a write. maxSegment is MaxRecvDataSegmentLength. */
  datatype Limits = Limits(immediateData: bool, initialR2T: bool, firstBurst: u32, maxBurst: u32, maxSegment: u32)

  datatype R2T = R2T(targetTransferTag: u32, bufferOffset: u32, desired: u32)

  /** The burst that answers an R2T, cut to MaxBurstLength. */
  function SolicitedJob(p: Limits, data: bytes, broken: bool, itt: u32, r2t: R2T): Job {
    Job(data, broken, itt, r2t.targetTransferTag, r2t.bufferOffset, Min(r2t.desired, p.maxBurst), p.maxSegment)
  }

  /** What immediate data has left of the first burst. The subtraction is on uint32. */
  function UnsolicitedJob(p: Limits, data: bytes, broken: bool, itt: u32, sent: u32): Job {
    Job(data, broken, itt, UNSOLICITED, sent, Wrap(p.firstBurst - sent), p.maxSegment)
  }

  /** How a burst ends: bytes sent, bytes taken from the source, and the error if there is one. */
  datatype Ending = Ending(sent: nat, taken: nat, error: Option<WriteError>)

  /** The bytes beyond the last whole segment, that is left % m (see TailIsRemainder). */
  function Tail(left: nat, m: nat): (t: nat)
    requires m > 0
    ensures t < m && t <= left
  {
    if left < m then left else Tail(left - m, m)
  }

  /**
   * The ending of a burst, told from what the source has left. If it holds all that is
   * wanted, all of it goes out. If it fails where it would end, only whole segments go out.
   * If it is sound and runs out within a segment, that segment is the last one; but if it
   * runs out exactly on a segment boundary, everything goes out and the burst fails.
   */
  function EndOf(j: Job, left: nat): (e: Ending)
    ensures e.sent <= e.taken <= left && e.sent <= j.burstLen
    ensures e.error == None ==> e.taken == e.sent
  {
    var m, want: nat := j.maxSegment, j.burstLen;
    if m == 0 || want == 0 then Ending(0, 0, None)
    else if Min(Min(m, want), left) > MAX_SEGMENT && (!j.broken || Min(m, want) <= left) then
      Ending(0, Min(Min(m, want), left), Some(SegmentTooLong))
    else if want <= left then Ending(want, want, None)
    else if j.broken then Ending(left - Tail(left, m), left, Some(ReadFailed(Faulty)))
    else if Tail(left, m) == 0 then Ending(left, left, Some(ReadFailed(Eof)))
    else Ending(left, left, None)
  }

  /** Bytes off to total of the burst in segments of at most m, the last one final if the burst succeeds. */
  function Pdus(j: Job, pos: nat, total: nat, ok: bool, off: nat, dataSN: nat): seq<DataOutPdu>
    requires pos + total <= |j.data| && dataSN <= off <= total <= j.burstLen
    decreases total - off
  {
    if off == total || j.maxSegment == 0 then []
    else
      var n := Min(j.maxSegment, total - off);
      [DataOutPdu(j.itt, j.targetTransferTag, dataSN, Wrap(j.offset + off),
                  ok && off + n == total, j.data[pos + off..pos + off + n])]
      + Pdus(j, pos, total, ok, off + n, dataSN + 1)
  }

  lemma PdusHead(j: Job, pos: nat, total: nat, ok: bool, off: nat, dataSN: u32, n: nat, pdu: DataOutPdu)
    requires pos + total <= |j.data| && dataSN <= off < total <= j.burstLen
    requires 0 < n == Min(j.maxSegment, total - off)
    requires pdu == DataOutPdu(j.itt, j.targetTransferTag, dataSN, Wrap(j.offset + off),
                               ok && off + n == total, j.data[pos + off..pos + off + n])
    ensures Pdus(j, pos, total, ok, off, dataSN) == [pdu] + Pdus(j, pos, total, ok, off + n, dataSN + 1)
  {
  }

  /** All the PDUs of a burst that starts at pos. */
  function Burst(j: Job, pos: nat): seq<DataOutPdu>
    requires pos <= |j.data|
  {
    var e := EndOf(j, |j.data| - pos);
    Pdus(j, pos, e.sent, e.error == None, 0, 0)
  }

  function PayloadOf(pdus: seq<DataOutPdu>): bytes {
    if pdus == [] then [] else pdus[0].data + PayloadOf(pdus[1..])
  }

  /**
   * What one round of the loop does, as the reference sees it: from `off` bytes on, a read
   * of at most one segment either yields the next PDU of the burst, or ends it.
   */
  lemma RoundFollowsReference(j: Job, left: nat, off: nat)
    requires j.maxSegment > 0 && off < j.burstLen && off <= EndOf(j, left).sent
    requires Tail(left - off, j.maxSegment) == Tail(left, j.maxSegment)
    ensures var e := EndOf(j, left);
      var chunk := Min(j.maxSegment, j.burstLen - off);
      var n := Min(chunk, left - off);
      var status := StatusOf(chunk, n, j.broken);
      if !Usable(status) then off == e.sent && e.taken == off + n && e.error == Some(ReadFailed(status))
      else if n > MAX_SEGMENT then off == e.sent && e.taken == off + n && e.error == Some(SegmentTooLong)
      else
        && 0 < n == Min(j.maxSegment, e.sent - off)
        && ((off + n >= j.burstLen || status == UnexpectedEof) <==> (off + n == e.sent && e.error == None))
        && (status == UnexpectedEof ==> e == Ending(off + n, off + n, None))
        && (off + n < j.burstLen && status != UnexpectedEof ==>
              Tail(left - off - n, j.maxSegment) == Tail(left, j.maxSegment))
  {
  }

  /** The reference for a burst from pos: its ending and all of its PDUs. */
  ghost predicate Reference(j: Job, pos: nat, e: Ending, all: seq<DataOutPdu>) {
    pos <= |j.data| && e == EndOf(j, |j.data| - pos) && all == Burst(j, pos)
  }

  /** The burst has put out its first `sent` bytes, as `out`, and goes on. */
  ghost predicate Going(j: Job, pos: nat, e: Ending, all: seq<DataOutPdu>, out: seq<DataOutPdu>, sent: nat,
                        dataSN: nat)
  {
    && pos + e.sent <= |j.data| && dataSN <= sent <= e.sent <= j.burstLen
    && (sent == j.burstLen || j.maxSegment == 0
        || Tail(|j.data| - pos - sent, j.maxSegment) == Tail(|j.data| - pos, j.maxSegment))
    && all == out + Pdus(j, pos, e.sent, e.error == None, sent, dataSN)
  }

  function PduFor(j: Job, pos: nat, sent: nat, dataSN: u32, n: nat, status: ReadStatus): DataOutPdu
    requires pos + sent + n <= |j.data|
  {
    DataOutPdu(j.itt, j.targetTransferTag, dataSN, Wrap(j.offset + sent),
               sent + n >= j.burstLen || status == UnexpectedEof, j.data[pos + sent..pos + sent + n])
  }

  lemma NoPdusLeft(j: Job, pos: nat, out: seq<DataOutPdu>, e: Ending, dataSN: nat)
    requires pos + e.sent <= |j.data| && e.sent <= j.burstLen
    ensures dataSN <= e.sent ==> out + Pdus(j, pos, e.sent, e.error == None, e.sent, dataSN) == out
  {
  }

  /** What a round's read has yielded. */
  ghost predicate Read(j: Job, pos: nat, sent: nat, n: nat, status: ReadStatus) {
    && pos + sent <= |j.data| && sent < j.burstLen
    && n == Min(Min(j.maxSegment, j.burstLen - sent), |j.data| - pos - sent)
    && status == StatusOf(Min(j.maxSegment, j.burstLen - sent), n, j.broken)
  }

  /** A round stops without a PDU on a failed read, on an empty one, or if the segment cannot be encoded. */
  predicate Stops(n: nat, status: ReadStatus) {
    !Usable(status) || n == 0 || n > MAX_SEGMENT
  }

  function StopReason(n: nat, status: ReadStatus): Option<WriteError> {
    if !Usable(status) then Some(ReadFailed(status)) else if n == 0 then None else Some(SegmentTooLong)
  }

  /** A round that sends nothing ends the burst. */
  lemma RoundStops(j: Job, pos: nat, e: Ending, all: seq<DataOutPdu>, out: seq<DataOutPdu>, sent: nat, dataSN: nat,
                   n: nat, status: ReadStatus)
    requires Reference(j, pos, e, all) && Going(j, pos, e, all, out, sent, dataSN) && Read(j, pos, sent, n, status)
    requires Stops(n, status)
    ensures all == out && e == Ending(sent, sent + n, StopReason(n, status))
  {
    assert out + [] == out;
    if j.maxSegment > 0 {
      RoundFollowsReference(j, |j.data| - pos, sent);
    }
  }

  /** The PDU that a round sends is the reference's next one. */
  lemma RoundSendsNext(j: Job, pos: nat, e: Ending, all: seq<DataOutPdu>, out: seq<DataOutPdu>, sent: nat, dataSN: nat,
                       n: nat, status: ReadStatus, pdu: DataOutPdu)
    requires Reference(j, pos, e, all) && Going(j, pos, e, all, out, sent, dataSN) && Read(j, pos, sent, n, status)
    requires Usable(status) && 0 < n <= MAX_SEGMENT
    requires dataSN < TWO32 && pdu == PduFor(j, pos, sent, dataSN, n, status)
    ensures sent + n <= e.sent
    ensures all == (out + [pdu]) + Pdus(j, pos, e.sent, e.error == None, sent + n, dataSN + 1)
  {
    RoundFollowsReference(j, |j.data| - pos, sent);
    PdusHead(j, pos, e.sent, e.error == None, sent, dataSN, n, pdu);
    Assoc(out, [pdu], Pdus(j, pos, e.sent, e.error == None, sent + n, dataSN + 1));
  }

  /** A round that sends a whole segment goes on. */
  lemma RoundGoesOn(j: Job, pos: nat, e: Ending, all: seq<DataOutPdu>, out: seq<DataOutPdu>, sent: nat, dataSN: nat,
                    n: nat, pdu: DataOutPdu)
    requires Reference(j, pos, e, all) && Going(j, pos, e, all, out, sent, dataSN) && Read(j, pos, sent, n, Full)
    requires 0 < n <= MAX_SEGMENT
    requires dataSN < TWO32 && pdu == PduFor(j, pos, sent, dataSN, n, Full)
    ensures Going(j, pos, e, all, out + [pdu], sent + n, dataSN + 1)
  {
    RoundSendsNext(j, pos, e, all, out, sent, dataSN, n, Full, pdu);
    RoundFollowsReference(j, |j.data| - pos, sent);
  }

  /** A round that sends a short segment ends the burst with it. */
  lemma RoundFinishes(j: Job, pos: nat, e: Ending, all: seq<DataOutPdu>, out: seq<DataOutPdu>, sent: nat, dataSN: nat,
                      n: nat, pdu: DataOutPdu)
    requires Reference(j, pos, e, all) && Going(j, pos, e, all, out, sent, dataSN)
    requires Read(j, pos, sent, n, UnexpectedEof)
    requires 0 < n <= MAX_SEGMENT
    requires dataSN < TWO32 && pdu == PduFor(j, pos, sent, dataSN, n, UnexpectedEof)
    ensures all == out + [pdu] && e == Ending(sent + n, sent + n, None)
  {
    RoundSendsNext(j, pos, e, all, out, sent, dataSN, n, UnexpectedEof, pdu);
    RoundFollowsReference(j, |j.data| - pos, sent);
    NoPdusLeft(j, pos, out + [pdu], e, dataSN + 1);
  }

  lemma NothingWanted(j: Job, pos: nat)
    requires pos <= |j.data| && j.burstLen == 0
    ensures Burst(j, pos) == [] && EndOf(j, |j.data| - pos) == Ending(0, 0, None)
  {
  }

  /** Where the loop stands: the reference's ending and PDUs, of which the first `sent` bytes are out. */
  ghost predicate Underway(j: Job, pos: nat, e: Ending, all: seq<DataOutPdu>, out: seq<DataOutPdu>, sent: nat,
                           dataSN: u32) {
    Reference(j, pos, e, all) && Going(j, pos, e, all, out, sent, dataSN)
  }

  lemma Begins(j: Job, pos: nat, e: Ending, all: seq<DataOutPdu>)
    requires pos <= |j.data| && e == EndOf(j, |j.data| - pos) && all == Burst(j, pos)
    ensures Underway(j, pos, e, all, [], 0, 0)
  {
  }

  lemma RoundEndsOrGoesOn(j: Job, pos: nat, e: Ending, all: seq<DataOutPdu>, out: seq<DataOutPdu>, sent: nat,
                          dataSN: u32, n: nat, status: ReadStatus)
    requires Underway(j, pos, e, all, out, sent, dataSN) && Read(j, pos, sent, n, status)
    ensures Stops(n, status) ==> all == out && e == Ending(sent, sent + n, StopReason(n, status))
    ensures !Stops(n, status) && status == Full ==>
      && sent + n <= j.burstLen && dataSN + 1 <= sent + n
      && Underway(j, pos, e, all, out + [PduFor(j, pos, sent, dataSN, n, status)], sent + n, dataSN + 1)
    ensures !Stops(n, status) && status == UnexpectedEof ==>
      all == out + [PduFor(j, pos, sent, dataSN, n, status)] && e == Ending(sent + n, sent + n, None)
  {
    if Stops(n, status) {
      RoundStops(j, pos, e, all, out, sent, dataSN, n, status);
    } else if status == Full {
      RoundGoesOn(j, pos, e, all, out, sent, dataSN, n, PduFor(j, pos, sent, dataSN, n, status));
    } else {
      RoundFinishes(j, pos, e, all, out, sent, dataSN, n, PduFor(j, pos, sent, dataSN, n, status));
    }
  }

  lemma GoingEnds(j: Job, pos: nat, e: Ending, all: seq<DataOutPdu>, out: seq<DataOutPdu>, sent: nat, dataSN: u32)
    requires Underway(j, pos, e, all, out, sent, dataSN) && sent == j.burstLen
    ensures all == out && e == Ending(sent, sent, None)
  {
    assert out + [] == out;
  }

  class WriteTask {
    var itt: u32
    const source: Source
    var bytesSent: u32
    var wire: seq<DataOutPdu>

    constructor (itt: u32, source: Source)
      ensures this.itt == itt && this.source == source && bytesSent == 0 && wire == []
    {
      this.itt, this.source := itt, source;
      bytesSent, wire := 0, [];
    }

    function JobFor(targetTransferTag: u32, offset: u32, burstLen: u32, maxSegment: u32): Job
      reads this`itt
    {
      Job(source.data, source.broken, itt, targetTransferTag, offset, burstLen, maxSegment)
    }

    /** One read into a scratch buffer of arbitrary contents; only what was read is copied out. */
    method ReadSegment(chunk: nat) returns (n: nat, data: bytes, status: ReadStatus)
      requires source.Valid()
      modifies source
      ensures source.Valid()
      ensures n == Min(chunk, |source.data| - old(source.pos)) && status == StatusOf(chunk, n, source.broken)
      ensures source.pos == old(source.pos) + n && data == source.data[old(source.pos)..old(source.pos) + n]
    {
      var buf := new byte[chunk];
      n, status := source.ReadFull(buf, chunk);
      data := buf[..n];
    }

    /** One round of the loop: a read, and then a PDU or the reason for stopping. */
    method SendSegment(targetTransferTag: u32, offset: u32, burstLen: u32, maxSegment: u32, sent: u32, dataSN: u32,
                       ghost pos: nat)
      returns (n: nat, status: ReadStatus)
      requires source.Valid() && sent < burstLen && source.pos == pos + sent
      modifies this`wire, source
      ensures source.Valid() && source.pos == pos + sent + n
      ensures var j := JobFor(targetTransferTag, offset, burstLen, maxSegment);
        && Read(j, pos, sent, n, status)
        && wire == old(wire) + if Stops(n, status) then [] else [PduFor(j, pos, sent, dataSN, n, status)]
    {
      var data;
      n, data, status := ReadSegment(Min(maxSegment, burstLen - sent));
      if Stops(n, status) {
        return;
      }
      // The check against the target's limit cannot fail: the read is already within it.
      assert SegmentAllowed(n, maxSegment);
      var isFinal := sent + n >= burstLen || status == UnexpectedEof;
      wire := wire + [DataOutPdu(itt, targetTransferTag, dataSN, Wrap(offset + sent), isFinal, data)];
    }

    /** A round, followed through the reference. `more` says whether the loop goes on. */
    method Round(targetTransferTag: u32, offset: u32, burstLen: u32, maxSegment: u32, sent: u32, dataSN: u32,
                 ghost j: Job, ghost pos: nat, ghost e: Ending, ghost all: seq<DataOutPdu>, ghost out: seq<DataOutPdu>)
      returns (n: nat, more: bool, error: Option<WriteError>, ghost out': seq<DataOutPdu>)
      requires source.Valid() && sent < burstLen && source.pos == pos + sent
      requires j == JobFor(targetTransferTag, offset, burstLen, maxSegment)
      requires Underway(j, pos, e, all, out, sent, dataSN)
      modifies this`wire, source
      ensures source.Valid() && sent + n <= burstLen && out <= out' && wire == old(wire) + out'[|out|..]
      ensures more ==> n > 0 && dataSN < sent + n && error == None && source.pos == pos + sent + n
      ensures more ==> Underway(j, pos, e, all, out', sent + n, dataSN + 1)
      ensures !more ==> all == out' && source.pos == pos + e.taken && e.sent == sent + n && e.error == error
    {
      var status;
      n, status := SendSegment(targetTransferTag, offset, burstLen, maxSegment, sent, dataSN, pos);
      RoundEndsOrGoesOn(j, pos, e, all, out, sent, dataSN, n, status);
      if Stops(n, status) {
        n, more, error, out' := 0, false, StopReason(n, status), out;
      } else {
        more, error, out' := status == Full, None, out + [PduFor(j, pos, sent, dataSN, n, status)];
      }
    }

    /** The loop, followed through the reference. */
    method Rounds(targetTransferTag: u32, offset: u32, burstLen: u32, maxSegment: u32,
                  ghost j: Job, ghost pos: nat, ghost e: Ending, ghost all: seq<DataOutPdu>)
      returns (sent: u32, error: Option<WriteError>)
      requires source.Valid() && source.pos == pos
      requires j == JobFor(targetTransferTag, offset, burstLen, maxSegment) && Underway(j, pos, e, all, [], 0, 0)
      modifies this`wire, source
      ensures source.Valid() && source.pos == pos + e.taken
      ensures wire == old(wire) + all && sent == e.sent && error == e.error
    {
      var dataSN: u32 := 0;
      sent, error := 0, None;
      ghost var out := [];
      while sent < burstLen
        invariant source.Valid() && source.pos == pos + sent && error == None
        invariant wire == old(wire) + out
        invariant dataSN <= sent <= burstLen
        invariant Underway(j, pos, e, all, out, sent, dataSN)
        decreases burstLen - sent
      {
        var n, more;
        n, more, error, out := Round(targetTransferTag, offset, burstLen, maxSegment, sent, dataSN,
                                     j, pos, e, all, out);
        sent := sent + n;
        if !more {
          return;
        }
        dataSN := dataSN + 1;
      }
      GoingEnds(j, pos, e, all, out, sent, dataSN);
    }

    method SendDataOutBurst(targetTransferTag: u32, offset: u32, burstLen: u32, maxSegment: u32)
      returns (sent: u32, error: Option<WriteError>)
      requires source.Valid()
      modifies this`wire, source
      ensures source.Valid()
      ensures var j := JobFor(targetTransferTag, offset, burstLen, maxSegment);
        var e := EndOf(j, |source.data| - old(source.pos));
        && wire == old(wire) + Burst(j, old(source.pos))
        && source.pos == old(source.pos) + e.taken && sent == e.sent && error == e.error
    {
      ghost var j, pos := JobFor(targetTransferTag, offset, burstLen, maxSegment), source.pos;
      ghost var e, all := EndOf(j, |source.data| - pos), Burst(j, pos);
      Begins(j, pos, e, all);
      sent, error := Rounds(targetTransferTag, offset, burstLen, maxSegment, j, pos, e, all);
    }

    method HandleR2T(r2t: R2T, p: Limits) returns (error: Option<WriteError>)
      requires source.Valid()
      modifies this`wire, source
      ensures source.Valid()
      ensures var j := SolicitedJob(p, source.data, source.broken, itt, r2t);
        var e := EndOf(j, |source.data| - old(source.pos));
        && wire == old(wire) + Burst(j, old(source.pos))
        && source.pos == old(source.pos) + e.taken && error == e.error
    {
      var desired := Min(r2t.desired, p.maxBurst);
      var sent;
      sent, error := SendDataOutBurst(r2t.targetTransferTag, r2t.bufferOffset, desired, p.maxSegment);
    }

    method SendUnsolicitedDataOut(p: Limits) returns (error: Option<WriteError>)
      requires source.Valid()
      modifies this`wire, this`bytesSent, source
      ensures source.Valid()
      ensures var j := UnsolicitedJob(p, source.data, source.broken, itt, old(bytesSent));
        var e := EndOf(j, |source.data| - old(source.pos));
        && wire == old(wire) + Burst(j, old(source.pos)) && bytesSent == Wrap(old(bytesSent) + e.sent)
        && source.pos == old(source.pos) + e.taken && error == e.error
    {
      var remaining := Wrap(p.firstBurst - bytesSent);
      if remaining == 0 {
        NothingWanted(UnsolicitedJob(p, source.data, source.broken, itt, bytesSent), source.pos);
        assert wire + [] == wire;
        return None;
      }
      assert JobFor(UNSOLICITED, bytesSent, remaining, p.maxSegment)
          == UnsolicitedJob(p, source.data, source.broken, itt, bytesSent);
      var offset, sent := bytesSent, 0;
      sent, error := SendDataOutBurst(UNSOLICITED, offset, remaining, p.maxSegment);
      bytesSent := Wrap(bytesSent + sent);
    }
  }

  // ---- What a burst is ----------------------------------------------------------------

  /** The PDUs lie end to end in the target's buffer, starting at `start`. */
  predicate TilesFrom(pdus: seq<DataOutPdu>, start: nat) {
    pdus == [] || (pdus[0].bufferOffset == start && TilesFrom(pdus[1..], start + |pdus[0].data|))
  }

  predicate Numbered(pdus: seq<DataOutPdu>, dataSN: nat) {
    forall k | 0 <= k < |pdus| :: pdus[k].dataSN == dataSN + k
  }

  predicate Bounded(pdus: seq<DataOutPdu>, maxSegment: nat) {
    forall k | 0 <= k < |pdus| :: 0 < |pdus[k].data| <= Min(maxSegment, MAX_SEGMENT)
  }

  /** Numbered from dataSN, within the segment limit, and the F bit on the last one of a success only. */
  ghost predicate Labelled(j: Job, ok: bool, dataSN: nat, pdus: seq<DataOutPdu>) {
    && Numbered(pdus, dataSN)
    && Bounded(pdus, j.maxSegment)
    && forall k | 0 <= k < |pdus| :: pdus[k].final <==> (ok && k == |pdus| - 1)
  }

  lemma {:induction false} PdusAreLabelled(j: Job, pos: nat, total: nat, ok: bool, off: nat, dataSN: nat)
    requires pos + total <= |j.data| && dataSN <= off <= total <= j.burstLen
    requires 0 < j.maxSegment && (j.maxSegment <= MAX_SEGMENT || total <= MAX_SEGMENT)
    ensures Labelled(j, ok, dataSN, Pdus(j, pos, total, ok, off, dataSN))
    ensures Pdus(j, pos, total, ok, off, dataSN) == [] <==> off == total
    decreases total - off
  {
    if off < total {
      var n := Min(j.maxSegment, total - off);
      PdusAreLabelled(j, pos, total, ok, off + n, dataSN + 1);
      var pdus, rest := Pdus(j, pos, total, ok, off, dataSN), Pdus(j, pos, total, ok, off + n, dataSN + 1);
      forall k | 0 < k < |pdus|
        ensures pdus[k].dataSN == dataSN + k && 0 < |pdus[k].data| <= Min(j.maxSegment, MAX_SEGMENT)
        ensures pdus[k].final <==> (ok && k == |pdus| - 1)
      {
        assert pdus[k] == rest[k - 1];
      }
    }
  }

  lemma {:induction false} PdusCarryTheSource(j: Job, pos: nat, total: nat, ok: bool, off: nat, dataSN: nat)
    requires pos + total <= |j.data| && dataSN <= off <= total <= j.burstLen
    requires 0 < j.maxSegment
    ensures PayloadOf(Pdus(j, pos, total, ok, off, dataSN)) == j.data[pos + off..pos + total]
    decreases total - off
  {
    if off < total {
      var n := Min(j.maxSegment, total - off);
      PdusCarryTheSource(j, pos, total, ok, off + n, dataSN + 1);
      var pdus := Pdus(j, pos, total, ok, off, dataSN);
      assert pdus[1..] == Pdus(j, pos, total, ok, off + n, dataSN + 1);
      assert j.data[pos + off..pos + off + n] + j.data[pos + off + n..pos + total] == j.data[pos + off..pos + total];
    }
  }

  lemma {:induction false} PdusTile(j: Job, pos: nat, total: nat, ok: bool, off: nat, dataSN: nat)
    requires pos + total <= |j.data| && dataSN <= off <= total <= j.burstLen
    requires j.offset + total <= TWO32
    ensures TilesFrom(Pdus(j, pos, total, ok, off, dataSN), j.offset + off)
    decreases total - off
  {
    if off < total && j.maxSegment > 0 {
      var n := Min(j.maxSegment, total - off);
      PdusTile(j, pos, total, ok, off + n, dataSN + 1);
      var pdus := Pdus(j, pos, total, ok, off, dataSN);
      assert pdus[1..] == Pdus(j, pos, total, ok, off + n, dataSN + 1);
    }
  }

  lemma EndFits(j: Job, left: nat)
    requires j.maxSegment > 0
    ensures j.maxSegment <= MAX_SEGMENT || EndOf(j, left).sent <= MAX_SEGMENT
  {
  }

  /**
   * What goes out in a burst lies end to end in the target's buffer, is numbered from zero,
   * stays within the segment limit, and is the source's next bytes.
   */
  lemma BurstIsWellFormed(j: Job, pos: nat)
    requires pos <= |j.data| && j.maxSegment > 0
    ensures var e := EndOf(j, |j.data| - pos);
      && Labelled(j, e.error == None, 0, Burst(j, pos))
      && PayloadOf(Burst(j, pos)) == j.data[pos..pos + e.sent]
      && (j.offset + e.sent <= TWO32 ==> TilesFrom(Burst(j, pos), j.offset))
  {
    var e := EndOf(j, |j.data| - pos);
    EndFits(j, |j.data| - pos);
    PdusAreLabelled(j, pos, e.sent, e.error == None, 0, 0);
    PdusCarryTheSource(j, pos, e.sent, e.error == None, 0, 0);
    if j.offset + e.sent <= TWO32 {
      PdusTile(j, pos, e.sent, e.error == None, 0, 0);
    }
  }

  lemma {:induction false} TailIsRemainder(left: nat, m: nat)
    requires m > 0
    ensures Tail(left, m) == left % m
    decreases left
  {
    if left >= m {
      TailIsRemainder(left - m, m);
      DropOne(left, m);
    }
  }

  lemma Multiple(m: nat, k: int)
    requires k >= 1
    ensures m * k >= m
  {
    assert m * k == m * (k - 1) + m;
  }

  lemma DropOne(a: nat, m: nat)
    requires 0 < m <= a
    ensures (a - m) % m == a % m
  {
    var q, q' := a / m, (a - m) / m;
    var d := q - q' - 1;
    assert m * d == (a - m) % m - a % m by {
      assert a == m * q + a % m && a - m == m * q' + (a - m) % m;
      assert m * d == m * q - m * q' - m;
    }
    assert m * (-d) == -(m * d);
    if d >= 1 {
      Multiple(m, d);
    } else if d <= -1 {
      Multiple(m, -d);
    }
  }

  /**
   * When a burst succeeds, in arithmetic: all its segments can be encoded, and the source
   * either holds all that is wanted or soundly runs out inside a segment.
   */
  lemma BurstSucceedsIff(j: Job, left: nat)
    requires 0 < j.maxSegment
    ensures EndOf(j, left).error == None <==>
      && Min(Min(j.maxSegment, j.burstLen), left) <= MAX_SEGMENT
      && (j.burstLen <= left || (!j.broken && left % j.maxSegment != 0))
    ensures EndOf(j, left).error == None ==> EndOf(j, left).sent == Min(left, j.burstLen)
  {
    TailIsRemainder(left, j.maxSegment);
  }

  /** With a negotiated segment limit of zero a burst sends nothing, and reports no error. */
  lemma ZeroLimitSendsNothing(j: Job, pos: nat)
    requires pos <= |j.data| && j.maxSegment == 0
    ensures Burst(j, pos) == [] && EndOf(j, |j.data| - pos) == Ending(0, 0, None)
  {
  }
}
