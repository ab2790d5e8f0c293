/**
 * From the source of a write to the target's buffer: the command and the Data-Out PDUs
 * marshalled, stamped, framed and written among whatever else the initiator sends, read
 * back by the target, told apart by their tags, and put together.
 */
module WriteOnWire {
  import opened Prelude
  import opened Framer
  import opened Framing
  import opened DataOut
  import opened WritePath
  import opened Answers
  import Bhs
  import C = Command

  /** The header of a Data-Out PDU. No LUN is set. */
  function HeaderFor(q: DataOutPdu, expStatSN: u32): Bhs.Pdu {
    Bhs.DataOut(Bhs.Header(false, q.final, 0, |q.data|, Zeros(8), q.itt), q.targetTransferTag, expStatSN,
                q.dataSN, q.bufferOffset)
  }

  function OnWire(q: DataOutPdu, expStatSN: u32): RawPdu
    requires |q.data| <= MAX_SEGMENT
  {
    RawPdu(Bhs.Encode(HeaderFor(q, expStatSN)).value, [], q.data, None, None)
  }

  /** The PDU as the target decodes it. None for any other kind of PDU. */
  function Received(raw: RawPdu): Option<DataOutPdu>
    requires |raw.bhs| == BHS_LENGTH
  {
    var p := Bhs.Decode(raw.bhs);
    if p.Some? && p.value.DataOut? then
      var q := p.value;
      Some(DataOutPdu(q.h.itt, q.ttt, q.dataSN, q.bufferOffset, q.h.final, raw.data))
    else None
  }

  lemma WireKeepsDataOut(q: DataOutPdu, expStatSN: u32)
    requires |q.data| <= MAX_SEGMENT
    ensures Plain(OnWire(q, expStatSN)) && Received(OnWire(q, expStatSN)) == Some(q)
  {
    var p := HeaderFor(q, expStatSN);
    Bhs.DecodeInvertsEncodeIff(p);
    Bhs.FieldsInvertBytes(Bhs.ToRaw(p));
  }

  // ---- The target ---------------------------------------------------------------------------

  /** The PDU belongs to the write under the tag. */
  predicate Concerns(raw: RawPdu, itt: u32)
    requires |raw.bhs| == BHS_LENGTH
  {
    var p := Bhs.Decode(raw.bhs);
    p.Some? && p.value.h.itt == itt && (p.value.ScsiCommand? || p.value.DataOut?)
  }

  /** Immediate data begin the buffer; Data-Out PDUs are taken as they answer R2Ts, or are unsolicited. */
  function Step(t: Target, raw: RawPdu, itt: u32): Target
    requires |raw.bhs| == BHS_LENGTH
  {
    if !Concerns(raw, itt) then t
    else if Received(raw).Some? then Take(t, Received(raw).value)
    else t.(buf := PlaceAt(t.buf, 0, raw.data))
  }

  function Reads(t: Target, raws: seq<RawPdu>, itt: u32): Target
    requires forall raw | raw in raws :: |raw.bhs| == BHS_LENGTH
    decreases |raws|
  {
    if raws == [] then t else Reads(Step(t, raws[0], itt), raws[1..], itt)
  }

  /** Those of the PDUs that belong to the write under the tag. */
  function Selected(raws: seq<RawPdu>, itt: u32): (s: seq<RawPdu>)
    requires forall raw | raw in raws :: |raw.bhs| == BHS_LENGTH
    ensures forall raw | raw in s :: raw in raws
  {
    if raws == [] then []
    else (if Concerns(raws[0], itt) then [raws[0]] else []) + Selected(raws[1..], itt)
  }

  lemma ReadsFirst(t: Target, raw: RawPdu, raws: seq<RawPdu>, itt: u32, next: Target)
    requires |raw.bhs| == BHS_LENGTH && forall r | r in raws :: |r.bhs| == BHS_LENGTH
    requires Step(t, raw, itt) == next
    ensures forall r | r in [raw] + raws :: |r.bhs| == BHS_LENGTH
    ensures Reads(t, [raw] + raws, itt) == Reads(next, raws, itt)
  {
    assert ([raw] + raws)[1..] == raws;
  }

  lemma SelectsFirst(raw: RawPdu, raws: seq<RawPdu>, itt: u32)
    requires |raw.bhs| == BHS_LENGTH && forall r | r in raws :: |r.bhs| == BHS_LENGTH
    requires Concerns(raw, itt) && Selected(raws, itt) == raws
    ensures forall r | r in [raw] + raws :: |r.bhs| == BHS_LENGTH
    ensures Selected([raw] + raws, itt) == [raw] + raws
  {
    assert ([raw] + raws)[1..] == raws;
  }

  /** What belongs to others does not matter. */
  lemma {:induction false} OthersDoNotMatter(t: Target, raws: seq<RawPdu>, itt: u32)
    requires forall raw | raw in raws :: |raw.bhs| == BHS_LENGTH
    ensures Reads(t, Selected(raws, itt), itt) == Reads(t, raws, itt)
    decreases |raws|
  {
    if raws != [] {
      var rest := Selected(raws[1..], itt);
      OthersDoNotMatter(Step(t, raws[0], itt), raws[1..], itt);
      if Concerns(raws[0], itt) {
        assert ([raws[0]] + rest)[1..] == rest;
      } else {
        assert [] + rest == rest;
      }
    }
  }

  /** Nor do digests. */
  lemma {:induction false} DigestsDoNotMatter(d: Digests, crc: Checksum, t: Target, raws: seq<RawPdu>, itt: u32)
    requires forall raw | raw in raws :: |raw.bhs| == BHS_LENGTH
    ensures forall raw | raw in StampedAll(d, crc, raws) :: |raw.bhs| == BHS_LENGTH
    ensures Reads(t, StampedAll(d, crc, raws), itt) == Reads(t, raws, itt)
    decreases |raws|
  {
    if raws != [] {
      var stamped := StampedAll(d, crc, raws[1..]);
      assert StampedAll(d, crc, raws)[1..] == stamped;
      assert Step(t, Stamped(d, crc, raws[0]), itt) == Step(t, raws[0], itt);
      DigestsDoNotMatter(d, crc, Step(t, raws[0], itt), raws[1..], itt);
    }
  }

  // ---- What the initiator sends -------------------------------------------------------------

  ghost predicate Fit(pdus: seq<DataOutPdu>, itt: u32) {
    forall k | 0 <= k < |pdus| :: pdus[k].itt == itt && |pdus[k].data| <= MAX_SEGMENT
  }

  /** The Data-Out PDUs on the wire, each with the ExpStatSN of its time. */
  ghost predicate SentAs(raws: seq<RawPdu>, pdus: seq<DataOutPdu>, expStatSNs: seq<u32>) {
    && |raws| == |pdus| == |expStatSNs|
    && forall k | 0 <= k < |raws| :: |pdus[k].data| <= MAX_SEGMENT && raws[k] == OnWire(pdus[k], expStatSNs[k])
  }

  lemma StepOfDataOut(t: Target, q: DataOutPdu, expStatSN: u32)
    requires |q.data| <= MAX_SEGMENT
    ensures Concerns(OnWire(q, expStatSN), q.itt) && Step(t, OnWire(q, expStatSN), q.itt) == Take(t, q)
  {
    WireKeepsDataOut(q, expStatSN);
  }

  /** The target takes Data-Out PDUs off the wire as they were cut. */
  lemma {:induction false} TargetTakes(t: Target, raws: seq<RawPdu>, pdus: seq<DataOutPdu>, expStatSNs: seq<u32>,
                                       itt: u32)
    requires SentAs(raws, pdus, expStatSNs) && Fit(pdus, itt)
    ensures forall raw | raw in raws :: |raw.bhs| == BHS_LENGTH
    ensures Reads(t, raws, itt) == TakeAll(t, pdus)
    decreases |pdus|
  {
    if pdus != [] {
      StepOfDataOut(t, pdus[0], expStatSNs[0]);
      TargetTakes(Take(t, pdus[0]), raws[1..], pdus[1..], expStatSNs[1..], itt);
      assert forall raw | raw in raws :: raw == raws[0] || raw in raws[1..];
    }
  }

  lemma CommandKeepsTag(p: Bhs.Pdu)
    requires p.ScsiCommand? && Bhs.WellTyped(p) && p.h.dataLength <= MAX_SEGMENT
    ensures var q := Bhs.OfRaw(Bhs.ToRaw(p)); q.Some? && q.value.ScsiCommand? && q.value.h.itt == p.h.itt
  {
  }

  lemma StepOfCommand(t: Target, c: C.Command, itt: u32, cmdSN: u32, expStatSN: u32, immediate: bytes)
    requires C.Valid(c) && |immediate| <= MAX_SEGMENT
    ensures var raw := C.CommandPdu(c, itt, cmdSN, expStatSN, immediate);
      && raw.Some? && |raw.value.bhs| == BHS_LENGTH && Concerns(raw.value, itt)
      && Step(t, raw.value, itt) == t.(buf := PlaceAt(t.buf, 0, immediate))
  {
    var p := C.HeaderOf(c, itt, cmdSN, expStatSN, immediate);
    CommandKeepsTag(p);
    Bhs.FieldsInvertBytes(Bhs.ToRaw(p));
    assert Bhs.Decode(Bhs.Encode(p).value) == Bhs.OfRaw(Bhs.ToRaw(p));
  }

  lemma {:induction false} PdusFit(j: Job, pos: nat, total: nat, ok: bool, off: nat, dataSN: nat)
    requires pos + total <= |j.data| && dataSN <= off <= total <= j.burstLen && j.maxSegment <= MAX_SEGMENT
    ensures Fit(Pdus(j, pos, total, ok, off, dataSN), j.itt)
    decreases total - off
  {
    if off < total && j.maxSegment > 0 {
      PdusFit(j, pos, total, ok, off + Min(j.maxSegment, total - off), dataSN + 1);
    }
  }

  lemma BurstFits(j: Job, pos: nat)
    requires pos <= |j.data| && j.maxSegment <= MAX_SEGMENT
    ensures Fit(Burst(j, pos), j.itt)
  {
    var e := EndOf(j, |j.data| - pos);
    PdusFit(j, pos, e.sent, e.error == None, 0, 0);
  }

  lemma BothFit(a: seq<DataOutPdu>, b: seq<DataOutPdu>, itt: u32)
    requires Fit(a, itt) && Fit(b, itt)
    ensures Fit(a + b, itt)
  {
  }

  lemma {:induction false} ServedFits(p: Limits, data: bytes, broken: bool, itt: u32, pos: nat, r2ts: seq<R2T>)
    returns (s: Served)
    requires pos <= |data| && p.maxSegment <= MAX_SEGMENT
    ensures s == ServingOf(p, data, broken, itt, pos, r2ts) && Fit(s.wire, itt)
    decreases |r2ts|
  {
    s := ServingOf(p, data, broken, itt, pos, r2ts);
    if r2ts != [] {
      var burst, e := NextBurstFits(p, data, broken, itt, pos, r2ts[0]);
      if e.error == None {
        var rest := ServedFits(p, data, broken, itt, pos + e.taken, r2ts[1..]);
        ServingGoesOn(p, data, broken, itt, pos, r2ts, burst, e, pos + e.taken, rest);
        BothFit(burst, rest.wire, itt);
      } else {
        ServingStops(p, data, broken, itt, pos, r2ts, burst, e);
      }
    }
  }

  lemma NextBurstFits(p: Limits, data: bytes, broken: bool, itt: u32, pos: nat, r: R2T)
    returns (burst: seq<DataOutPdu>, e: Ending)
    requires pos <= |data| && p.maxSegment <= MAX_SEGMENT
    ensures burst == Burst(SolicitedJob(p, data, broken, itt, r), pos) && Fit(burst, itt)
    ensures e == EndOf(SolicitedJob(p, data, broken, itt, r), |data| - pos) && pos + e.taken <= |data|
  {
    var j := SolicitedJob(p, data, broken, itt, r);
    burst, e := Burst(j, pos), EndOf(j, |data| - pos);
    BurstFits(j, pos);
  }

  lemma OpeningFits(p: Limits, data: bytes, broken: bool, itt: u32, o: Opened)
    requires p.maxSegment <= MAX_SEGMENT && o == OpeningOf(p, data, broken, itt, 0)
    ensures Fit(o.burst, itt) && (o.command.Some? ==> |o.command.value| <= MAX_SEGMENT)
  {
    var n := Min(ImmediateLen(p), |data|);
    if n <= MAX_SEGMENT && !p.initialR2T {
      BurstFits(UnsolicitedJob(p, data, broken, itt, n), n);
    }
  }

  lemma EmittedFits(p: Limits, data: bytes, broken: bool, itt: u32, r2ts: seq<R2T>, o: Opened)
    requires p.maxSegment <= MAX_SEGMENT && o == OpeningOf(p, data, broken, itt, 0) && o.taken <= |data|
    ensures Fit(o.burst + ServingOf(p, data, broken, itt, o.taken, r2ts).wire, itt)
  {
    OpeningFits(p, data, broken, itt, o);
    var s := ServedFits(p, data, broken, itt, o.taken, r2ts);
    BothFit(o.burst, s.wire, itt);
  }

  /** The command and the PDUs behind it, as the target reads them. */
  lemma TargetGathers(t: Target, command: RawPdu, immediate: bytes, raws: seq<RawPdu>, pdus: seq<DataOutPdu>,
                      expStatSNs: seq<u32>, itt: u32)
    requires |command.bhs| == BHS_LENGTH && Step(t, command, itt) == t.(buf := PlaceAt(t.buf, 0, immediate))
    requires SentAs(raws, pdus, expStatSNs) && Fit(pdus, itt)
    ensures forall raw | raw in [command] + raws :: |raw.bhs| == BHS_LENGTH
    ensures Reads(t, [command] + raws, itt) == TakeAll(t.(buf := PlaceAt(t.buf, 0, immediate)), pdus)
  {
    var next := t.(buf := PlaceAt(t.buf, 0, immediate));
    TargetTakes(next, raws, pdus, expStatSNs, itt);
    ReadsFirst(t, command, raws, itt, next);
  }

  /** What is read off the stream does to the target what was selected for it. */
  lemma TargetReads(d: Digests, crc: Checksum, mix: seq<RawPdu>, rest: bytes, broken: bool, itt: u32, t: Target)
    requires forall raw | raw in mix :: Plain(raw) && |raw.bhs| == BHS_LENGTH
    ensures var read := ReadMany(d, crc, Stream(d, crc, mix) + rest, broken, |mix|).0;
      && |read| == |mix| && (forall raw | raw in read :: |raw.bhs| == BHS_LENGTH)
      && Reads(t, read, itt) == Reads(t, Selected(mix, itt), itt)
  {
    StreamRoundTrip(d, crc, mix, rest, broken);
    StampedLength(d, crc, mix);
    DigestsDoNotMatter(d, crc, t, mix, itt);
    OthersDoNotMatter(t, mix, itt);
  }

  /** All that a write emits, taken in its order by a target that goes by its R2Ts. */
  lemma EmittedIsTaken(p: Limits, data: bytes, broken: bool, itt: u32, r2ts: seq<R2T>, o: Opened, buf: bytes,
                       wire: seq<DataOutPdu>)
    requires |data| < TWO32 && |buf| == |data| && 0 < p.maxSegment <= MAX_SEGMENT
    requires o == OpeningOf(p, data, broken, itt, 0) && o.error == None && o.command.Some? && o.taken <= |data|
    requires AskInOrder(p, r2ts, o.bytesSent, |data|) && forall r | r in r2ts :: r.targetTransferTag != 0xFFFF_FFFF
    requires wire == ServingOf(p, data, broken, itt, o.taken, r2ts).wire
    ensures TakeAll(Target(PlaceAt(buf, 0, o.command.value), Due(r2ts), 0, 0), o.burst + wire) == Target(data, [], 0, 0)
  {
    var begun := PlaceAt(buf, 0, o.command.value);
    WriteReachesTarget(p, data, broken, itt, r2ts, buf, o);
    OpeningIsUnsolicited(p, data, broken, itt, 0);
    UnsolicitedAreTaken(Target(begun, Due(r2ts), 0, 0), o.burst);
    var s := AnswersAreTaken(p, data, broken, itt, o.taken, |data|, r2ts, Reassemble(begun, o.burst));
    TakeConcat(Target(begun, Due(r2ts), 0, 0), o.burst, wire);
    ReassembleConcat(begun, o.burst, wire);
  }

  lemma {:induction false} DataOutsAreSelected(raws: seq<RawPdu>, pdus: seq<DataOutPdu>, expStatSNs: seq<u32>, itt: u32)
    requires SentAs(raws, pdus, expStatSNs) && Fit(pdus, itt)
    ensures forall raw | raw in raws :: Plain(raw) && |raw.bhs| == BHS_LENGTH
    ensures Selected(raws, itt) == raws
    decreases |raws|
  {
    if raws != [] {
      WireKeepsDataOut(pdus[0], expStatSNs[0]);
      StepOfDataOut(Target([], [], 0, 0), pdus[0], expStatSNs[0]);
      DataOutsAreSelected(raws[1..], pdus[1..], expStatSNs[1..], itt);
      assert raws == [raws[0]] + raws[1..];
      SelectsFirst(raws[0], raws[1..], itt);
    }
  }

  /** The command and the Data-Out PDUs of a write are all selected for it. */
  lemma WriteIsSelected(c: C.Command, cmdSN: u32, expStatSN: u32, immediate: bytes, raws: seq<RawPdu>,
                        pdus: seq<DataOutPdu>, expStatSNs: seq<u32>, itt: u32)
    requires C.Valid(c) && |immediate| <= MAX_SEGMENT && SentAs(raws, pdus, expStatSNs) && Fit(pdus, itt)
    ensures var command := C.CommandPdu(c, itt, cmdSN, expStatSN, immediate);
      && command.Some? && (forall raw | raw in [command.value] + raws :: Plain(raw) && |raw.bhs| == BHS_LENGTH)
      && Selected([command.value] + raws, itt) == [command.value] + raws
  {
    var command := C.CommandPdu(c, itt, cmdSN, expStatSN, immediate).value;
    DataOutsAreSelected(raws, pdus, expStatSNs, itt);
    C.CommandArrives(c, itt, cmdSN, expStatSN, immediate);
    StepOfCommand(Target([], [], 0, 0), c, itt, cmdSN, expStatSN, immediate);
    SelectsFirst(command, raws, itt);
  }

  /**
   * A write from end to end. The initiator sends the command and the Data-Out PDUs of a write
   * that can be opened and whose R2Ts ask for the rest in order, mixed with any PDUs for
   * others, all stamped and back to back; other bytes may follow. The target keeps one R2T
   * outstanding, and takes no solicited PDU that has not its tag, the next number, the next
   * offset, and the F bit where it ends. What it reads off the stream leaves the source in the
   * buffer of that write, whatever that held before, and no R2T to be answered.
   */
  lemma WriteCrossesWire(d: Digests, crc: Checksum, mix: seq<RawPdu>, rest: bytes, broken: bool, itt: u32,
                         c: C.Command, cmdSN: u32, expStatSN: u32, raws: seq<RawPdu>, expStatSNs: seq<u32>,
                         p: Limits, data: bytes, faulty: bool, r2ts: seq<R2T>, o: Opened, buf: bytes)
    requires forall raw | raw in mix :: Plain(raw) && |raw.bhs| == BHS_LENGTH
    requires C.Valid(c) && |data| < TWO32 && |buf| == |data| && 0 < p.maxSegment <= MAX_SEGMENT
    requires o == OpeningOf(p, data, faulty, itt, 0) && o.error == None && o.command.Some? && o.taken <= |data|
    requires AskInOrder(p, r2ts, o.bytesSent, |data|) && forall r | r in r2ts :: r.targetTransferTag != 0xFFFF_FFFF
    requires SentAs(raws, o.burst + ServingOf(p, data, faulty, itt, o.taken, r2ts).wire, expStatSNs)
    requires var command := C.CommandPdu(c, itt, cmdSN, expStatSN, o.command.value);
      command.Some? && Selected(mix, itt) == [command.value] + raws
    ensures var read := ReadMany(d, crc, Stream(d, crc, mix) + rest, broken, |mix|).0;
      && |read| == |mix| && (forall raw | raw in read :: |raw.bhs| == BHS_LENGTH)
      && Reads(Target(buf, Due(r2ts), 0, 0), read, itt) == Target(data, [], 0, 0)
  {
    var wire := ServingOf(p, data, faulty, itt, o.taken, r2ts).wire;
    var t := Target(buf, Due(r2ts), 0, 0);
    var command := C.CommandPdu(c, itt, cmdSN, expStatSN, o.command.value).value;
    TargetReads(d, crc, mix, rest, broken, itt, t);
    OpeningFits(p, data, faulty, itt, o);
    EmittedFits(p, data, faulty, itt, r2ts, o);
    StepOfCommand(t, c, itt, cmdSN, expStatSN, o.command.value);
    TargetGathers(t, command, o.command.value, raws, o.burst + wire, expStatSNs, itt);
    EmittedIsTaken(p, data, faulty, itt, r2ts, o, buf, wire);
  }
}
