/** The SCSI Command PDU of a submission or a retry (section 11.3 of RFC 7143). */
module Command {
  import opened Prelude
  import opened Framer
  import opened Framing
  import Bhs
  import L = HeaderLayout
  import D = DataOut
  import W = WritePath

  /** What the caller asks for. The LUN is one that single-level addressing can express. */
  datatype Command = Command(read: bool, write: bool, attr: byte, expectedLength: u32, cdb: bytes, lun: u16)

  predicate Valid(c: Command) {
    |c.cdb| == 16
  }

  function SamLun(lun: u16): (b: bytes)
    ensures |b| == 8
  {
    [(lun / 0x100) as byte, (lun % 0x100) as byte, 0, 0, 0, 0, 0, 0]
  }

  /** F is always set (see FinalBitIsRightIff). */
  function HeaderOf(c: Command, itt: u32, cmdSN: u32, expStatSN: u32, immediate: bytes): Bhs.Pdu {
    Bhs.ScsiCommand(Bhs.Header(false, true, 0, |immediate|, SamLun(c.lun), itt),
                    c.read, c.write, c.attr, c.expectedLength, cmdSN, expStatSN, c.cdb)
  }

  function CommandPdu(c: Command, itt: u32, cmdSN: u32, expStatSN: u32, immediate: bytes): Option<RawPdu>
    requires Valid(c)
  {
    var bhs := Bhs.Encode(HeaderOf(c, itt, cmdSN, expStatSN, immediate));
    if bhs.None? then None else Some(RawPdu(bhs.value, [], immediate, None, None))
  }

  method BuildSCSICommandPDU(c: Command, itt: u32, cmdSN: u32, expStatSN: u32, immediate: bytes)
    returns (raw: Option<RawPdu>)
    requires Valid(c)
    ensures raw == CommandPdu(c, itt, cmdSN, expStatSN, immediate)
  {
    var bhs := Bhs.MarshalBHS(HeaderOf(c, itt, cmdSN, expStatSN, immediate));
    if bhs.None? {
      return None;
    }
    return Some(RawPdu(bhs.value, [], immediate, None, None));
  }

  /** The target decodes the command as it was meant; a task attribute of more than three bits is cut. */
  lemma CommandArrives(c: Command, itt: u32, cmdSN: u32, expStatSN: u32, immediate: bytes)
    requires Valid(c)
    ensures CommandPdu(c, itt, cmdSN, expStatSN, immediate).Some? <==> |immediate| <= MAX_SEGMENT
    ensures |immediate| <= MAX_SEGMENT ==>
      var raw := CommandPdu(c, itt, cmdSN, expStatSN, immediate).value;
      Plain(raw)
      && (Bhs.Decode(raw.bhs) == Some(HeaderOf(c, itt, cmdSN, expStatSN, immediate)) <==> c.attr < 8)
  {
    var p := HeaderOf(c, itt, cmdSN, expStatSN, immediate);
    Bhs.DecodeInvertsEncodeIff(p);
    if |immediate| <= MAX_SEGMENT {
      Bhs.FieldsInvertBytes(Bhs.ToRaw(p));
    }
  }

  /**
   * What the command says, by its bytes and as the target decodes it: the caller's direction,
   * lengths, LUN and CDB, and the tag and numbers of the submission, each in its place.
   */
  lemma CommandSays(c: Command, itt: u32, cmdSN: u32, expStatSN: u32, immediate: bytes)
    requires Valid(c) && |immediate| <= MAX_SEGMENT
    ensures var raw := CommandPdu(c, itt, cmdSN, expStatSN, immediate);
      && raw.Some? && raw.value.data == immediate && raw.value.ahs == [] && |raw.value.bhs| == 48
      && var b := raw.value.bhs;
      && b[0] == 0x01 && b[4] == 0
      && b[1] as int == 0x80 + (if c.read then 0x40 else 0) + (if c.write then 0x20 else 0) + c.attr as int % 8
      && 0x1_0000 * (b[5] as int) + 0x100 * (b[6] as int) + b[7] as int == |immediate|
      && b[8..16] == [(c.lun / 0x100) as byte, (c.lun % 0x100) as byte, 0, 0, 0, 0, 0, 0]
      && L.Word(b, 16, itt) && L.Word(b, 20, c.expectedLength) && L.Word(b, 24, cmdSN) && L.Word(b, 28, expStatSN)
      && b[32..48] == c.cdb
  {
    var p := HeaderOf(c, itt, cmdSN, expStatSN, immediate);
    L.InitiatorPdusAreLaidOut(p, Bhs.Encode(p).value);
  }

  lemma DecodedCommandSays(c: Command, itt: u32, cmdSN: u32, expStatSN: u32, immediate: bytes)
    requires Valid(c) && |immediate| <= MAX_SEGMENT
    ensures var raw := CommandPdu(c, itt, cmdSN, expStatSN, immediate);
      && raw.Some? && |raw.value.bhs| == 48
      && var q := Bhs.Decode(raw.value.bhs);
      && q.Some? && q.value.ScsiCommand? && q.value.read == c.read && q.value.write == c.write
      && q.value.attr as int == c.attr as int % 8 && q.value.expectedLength == c.expectedLength
      && q.value.cmdSN == cmdSN && q.value.expStatSN == expStatSN && q.value.cdb == c.cdb
      && q.value.h.itt == itt && q.value.h.final && !q.value.h.immediate && q.value.h.dataLength == |immediate|
  {
    var cut := c.(attr := (c.attr as int % 8) as byte);
    var p := HeaderOf(cut, itt, cmdSN, expStatSN, immediate);
    assert Bhs.ToRaw(HeaderOf(c, itt, cmdSN, expStatSN, immediate)) == Bhs.ToRaw(p);
    Bhs.DecodeInvertsEncodeIff(p);
  }

  // ---- The F bit -------------------------------------------------------------------------

  /** The command says that no unsolicited data follows it (section 11.3). */
  predicate SaysFinal(raw: RawPdu)
    requires |raw.bhs| == BHS_LENGTH
  {
    Bhs.Bit(raw.bhs[1], 0x80)
  }

  lemma CommandSaysFinal(c: Command, itt: u32, cmdSN: u32, expStatSN: u32, immediate: bytes)
    requires Valid(c) && |immediate| <= MAX_SEGMENT
    ensures CommandPdu(c, itt, cmdSN, expStatSN, immediate).Some?
    ensures SaysFinal(CommandPdu(c, itt, cmdSN, expStatSN, immediate).value)
  {
    var r := Bhs.ToRaw(HeaderOf(c, itt, cmdSN, expStatSN, immediate));
    assert Bhs.Bytes(r)[1] == Bhs.Front(r)[1] == r.b1;
  }

  /** Nothing can be sent behind a command with n bytes of immediate data, of a source of the given length. */
  predicate NothingFollows(p: D.Limits, broken: bool, length: nat, n: nat) {
    || p.initialR2T || p.firstBurst <= n || length <= n
    || (broken && length < p.firstBurst && length - n < p.maxSegment)
  }

  lemma BurstIsEmptyIff(j: D.Job, pos: nat)
    requires pos <= |j.data| && 0 < j.maxSegment <= MAX_SEGMENT
    ensures var left := |j.data| - pos;
      D.Burst(j, pos) == [] <==> j.burstLen == 0 || left == 0 || (j.broken && left < j.burstLen && left < j.maxSegment)
  {
    EndIsEmptyIff(j, |j.data| - pos);
  }

  lemma EndIsEmptyIff(j: D.Job, left: nat)
    requires 0 < j.maxSegment <= MAX_SEGMENT
    ensures D.EndOf(j, left).sent == 0
      <==> j.burstLen == 0 || left == 0 || (j.broken && left < j.burstLen && left < j.maxSegment)
  {
  }

  /**
   * The command that opens a write always has F=1. That is right, no unsolicited data
   * follows, if and only if InitialR2T is in force, the first burst or the source ends with
   * the immediate data, or the source breaks within the next segment.
   */
  lemma FinalBitIsRightIff(c: Command, itt: u32, cmdSN: u32, expStatSN: u32, p: D.Limits, data: bytes, broken: bool)
    requires Valid(c) && 0 < p.maxSegment <= MAX_SEGMENT && W.OpeningOf(p, data, broken, itt, 0).command.Some?
    ensures var o := W.OpeningOf(p, data, broken, itt, 0);
      && CommandPdu(c, itt, cmdSN, expStatSN, o.command.value).Some?
      && (SaysFinal(CommandPdu(c, itt, cmdSN, expStatSN, o.command.value).value) == (o.burst == [])
          <==> NothingFollows(p, broken, |data|, |o.command.value|))
  {
    var o, n := W.OpeningOf(p, data, broken, itt, 0), Min(W.ImmediateLen(p), |data|);
    W.OpeningCases(p, data, broken, itt, 0, n);
    CommandSaysFinal(c, itt, cmdSN, expStatSN, o.command.value);
    if !p.initialR2T {
      BurstIsEmptyIff(D.UnsolicitedJob(p, data, broken, itt, n), n);
    }
  }

  /** One byte without immediate data and without InitialR2T: the byte follows a command that says it is the last. */
  lemma FinalBitIsWrong(c: Command, itt: u32, cmdSN: u32, expStatSN: u32, b: byte)
    requires Valid(c)
    ensures var p := D.Limits(false, false, 65536, 262144, 8192);
      var o := W.OpeningOf(p, [b], false, itt, 0);
      && o.command == Some([]) && o.error == None && |o.burst| == 1 && o.burst[0].data == [b]
      && CommandPdu(c, itt, cmdSN, expStatSN, []).Some? && SaysFinal(CommandPdu(c, itt, cmdSN, expStatSN, []).value)
  {
    CommandSaysFinal(c, itt, cmdSN, expStatSN, []);
  }

  lemma {:induction false} RowsAgree(a: seq<u32>, b: seq<u32>, i: nat)
    requires |a| == |b| && i < 4 * |a| && a[i / 4] == b[i / 4]
    ensures Bhs.Row(a)[i] == Bhs.Row(b)[i]
    decreases |a|
  {
    if i >= 4 {
      RowsAgree(a[1..], b[1..], i - 4);
    }
  }

  /** The first twenty bytes, but for the tag in the last four. */
  lemma FrontsAgree(r: Bhs.Raw, r': Bhs.Raw, i: nat)
    requires Bhs.ValidRaw(r) && Bhs.ValidRaw(r') && i < 16
    requires r == r'.(itt := r.itt, w24 := r.w24, w28 := r.w28)
    ensures Bhs.Bytes(r)[i] == Bhs.Bytes(r')[i]
  {
    var front, front' := Bhs.Front(r), Bhs.Front(r');
    assert Bhs.Bytes(r)[i] == front[i] && Bhs.Bytes(r')[i] == front'[i];
    assert front[..16] == front'[..16];
    assert front[i] == front[..16][i] && front'[i] == front'[..16][i];
  }

  /** The words behind them, but for the two sequence numbers. */
  lemma BacksAgree(r: Bhs.Raw, r': Bhs.Raw, i: nat)
    requires Bhs.ValidRaw(r) && Bhs.ValidRaw(r') && 20 <= i < BHS_LENGTH && !(24 <= i < 32)
    requires r == r'.(itt := r.itt, w24 := r.w24, w28 := r.w28)
    ensures Bhs.Bytes(r)[i] == Bhs.Bytes(r')[i]
  {
    var w, w' := Bhs.WordsOf(r), Bhs.WordsOf(r');
    assert Bhs.Bytes(r)[i] == Bhs.Row(w)[i - 20] && Bhs.Bytes(r')[i] == Bhs.Row(w')[i - 20];
    assert (i - 20) / 4 != 1 && (i - 20) / 4 != 2;
    RowsAgree(w, w', i - 20);
  }

  /** The command of a retry is that of a new submission, but for the tag and the two sequence numbers. */
  lemma RetriedCommandDiffersOnlyInTagAndNumbers(c: Command, itt: u32, cmdSN: u32, expStatSN: u32, immediate: bytes,
                                                 itt': u32, cmdSN': u32, expStatSN': u32, i: nat)
    requires Valid(c) && |immediate| <= MAX_SEGMENT
    requires i < BHS_LENGTH && !(16 <= i < 20) && !(24 <= i < 32)
    ensures CommandPdu(c, itt, cmdSN, expStatSN, immediate).value.bhs[i]
            == CommandPdu(c, itt', cmdSN', expStatSN', immediate).value.bhs[i]
  {
    var r := Bhs.ToRaw(HeaderOf(c, itt, cmdSN, expStatSN, immediate));
    var r' := Bhs.ToRaw(HeaderOf(c, itt', cmdSN', expStatSN', immediate));
    if i < 16 {
      FrontsAgree(r, r', i);
    } else {
      BacksAgree(r, r', i);
    }
  }
}
