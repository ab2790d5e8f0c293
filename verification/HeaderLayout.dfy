/** Where each field of each PDU is on the wire, byte by byte (section 11 of RFC 7143). */
module HeaderLayout {
  import opened Prelude
  import opened Framer
  import Framing
  import opened Bhs

  /** The four bytes from i on are the number, the highest byte first. */
  predicate Word(b: bytes, i: nat, x: u32)
    requires i + 4 <= |b|
  {
    x == 0x100_0000 * (b[i] as int) + 0x1_0000 * (b[i + 1] as int) + 0x100 * (b[i + 2] as int) + b[i + 3] as int
  }

  predicate Half(b: bytes, i: nat, x: u16)
    requires i + 2 <= |b|
  {
    x == 0x100 * (b[i] as int) + b[i + 1] as int
  }

  /** What all headers have in common: I bit and opcode, the two lengths, and the tag. */
  predicate Common(b: bytes, op: int, h: Header)
    requires |b| == 48
  {
    && b[0] as int == op + (if h.immediate then 0x40 else 0)
    && b[4] == h.ahsLength
    && h.dataLength == 0x1_0000 * (b[5] as int) + 0x100 * (b[6] as int) + b[7] as int
    && Word(b, 16, h.itt)
  }

  predicate Flags(b: bytes, h: Header, rest: int)
    requires |b| == 48
  {
    b[1] as int == (if h.final then 0x80 else 0) + rest
  }

  predicate LoginHead(b: bytes, transit: bool, more: bool, csg: byte, nsg: byte, isid: bytes, tsih: u16)
    requires |b| == 48
  {
    && b[1] as int == (if transit then 0x80 else 0) + (if more then 0x40 else 0) + 4 * (csg as int % 4) + nsg as int % 4
    && b[8..14] == isid && Half(b, 14, tsih)
  }

  /** StatSN, ExpCmdSN and MaxCmdSN, where every PDU of the target but Data-In without status has them. */
  predicate Numbers(b: bytes, statSN: u32, expCmdSN: u32, maxCmdSN: u32)
    requires |b| == 48
  {
    Word(b, 24, statSN) && Word(b, 28, expCmdSN) && Word(b, 32, maxCmdSN)
  }

  /** The layout of the PDUs that an initiator sends. */
  predicate InitiatorLayout(p: Pdu, b: bytes)
    requires |b| == 48
  {
    match p
    case NopOut(h, ttt, cmdSN, expStatSN) =>
      Common(b, 0x00, h) && Flags(b, h, 0) && b[8..16] == h.lun
      && Word(b, 20, ttt) && Word(b, 24, cmdSN) && Word(b, 28, expStatSN)
    case ScsiCommand(h, read, write, attr, expectedLength, cmdSN, expStatSN, cdb) =>
      Common(b, 0x01, h) && b[8..16] == h.lun
      && Flags(b, h, (if read then 0x40 else 0) + (if write then 0x20 else 0) + attr as int % 8)
      && Word(b, 20, expectedLength) && Word(b, 24, cmdSN) && Word(b, 28, expStatSN) && b[32..48] == cdb
    case TaskMgmtReq(h, code, referencedTag, cmdSN, expStatSN, refCmdSN) =>
      Common(b, 0x02, h) && Flags(b, h, code as int % 0x80) && b[8..16] == h.lun
      && Word(b, 20, referencedTag) && Word(b, 24, cmdSN) && Word(b, 28, expStatSN) && Word(b, 32, refCmdSN)
    case LoginReq(h, transit, more, csg, nsg, versionMax, versionMin, isid, tsih, cid, cmdSN, expStatSN) =>
      Common(b, 0x03, h) && LoginHead(b, transit, more, csg, nsg, isid, tsih)
      && b[2] == versionMax && b[3] == versionMin
      && Half(b, 20, cid) && Word(b, 24, cmdSN) && Word(b, 28, expStatSN)
    case TextReq(h, more, ttt, cmdSN, expStatSN) =>
      Common(b, 0x04, h) && Flags(b, h, if more then 0x40 else 0) && b[8..16] == h.lun
      && Word(b, 20, ttt) && Word(b, 24, cmdSN) && Word(b, 28, expStatSN)
    case DataOut(h, ttt, expStatSN, dataSN, bufferOffset) =>
      Common(b, 0x05, h) && Flags(b, h, 0) && b[8..16] == h.lun
      && Word(b, 20, ttt) && Word(b, 28, expStatSN) && Word(b, 36, dataSN) && Word(b, 40, bufferOffset)
    case LogoutReq(h, reason, cid, cmdSN, expStatSN) =>
      Common(b, 0x06, h) && Flags(b, h, reason as int % 0x80)
      && Half(b, 20, cid) && Word(b, 24, cmdSN) && Word(b, 28, expStatSN)
    case SnackReq(h, kind, ttt, expStatSN, begRun, runLength) =>
      Common(b, 0x10, h) && Flags(b, h, kind as int % 0x10) && b[8..16] == h.lun
      && Word(b, 20, ttt) && Word(b, 28, expStatSN) && Word(b, 40, begRun) && Word(b, 44, runLength)
    case _ => true
  }

  /** The layout of the PDUs that a target sends. */
  predicate TargetLayout(p: Pdu, b: bytes)
    requires |b| == 48
  {
    match p
    case NopIn(h, ttt, statSN, expCmdSN, maxCmdSN) =>
      Common(b, 0x20, h) && Flags(b, h, 0) && b[8..16] == h.lun
      && Word(b, 20, ttt) && Numbers(b, statSN, expCmdSN, maxCmdSN)
    case ScsiResponse(h, bo, bu, o, u, response, status, snackTag, statSN, expCmdSN, maxCmdSN, expDataSN, bidi,
                      residual) =>
      Common(b, 0x21, h) && b[2] == response && b[3] == status
      && Flags(b, h, (if bo then 0x10 else 0) + (if bu then 0x08 else 0) + (if o then 0x04 else 0)
                     + (if u then 0x02 else 0))
      && Word(b, 20, snackTag) && Numbers(b, statSN, expCmdSN, maxCmdSN)
      && Word(b, 36, expDataSN) && Word(b, 40, bidi) && Word(b, 44, residual)
    case TaskMgmtResp(h, response, statSN, expCmdSN, maxCmdSN) =>
      Common(b, 0x22, h) && Flags(b, h, 0) && b[2] == response && Numbers(b, statSN, expCmdSN, maxCmdSN)
    case LoginResp(h, transit, more, csg, nsg, versionMax, versionActive, isid, tsih, statSN, expCmdSN, maxCmdSN,
                   statusClass, statusDetail) =>
      Common(b, 0x23, h) && LoginHead(b, transit, more, csg, nsg, isid, tsih)
      && b[2] == versionMax && b[3] == versionActive && Numbers(b, statSN, expCmdSN, maxCmdSN)
      && b[36] == statusClass && b[37] == statusDetail
    case TextResp(h, more, ttt, statSN, expCmdSN, maxCmdSN) =>
      Common(b, 0x24, h) && Flags(b, h, if more then 0x40 else 0) && b[8..16] == h.lun
      && Word(b, 20, ttt) && Numbers(b, statSN, expCmdSN, maxCmdSN)
    case DataIn(h, a, o, u, s, status, ttt, statSN, expCmdSN, maxCmdSN, dataSN, bufferOffset, residual) =>
      Common(b, 0x25, h) && b[3] == status && b[8..16] == h.lun
      && Flags(b, h, (if a then 0x40 else 0) + (if o then 0x04 else 0) + (if u then 0x08 else 0)
                     + (if s then 0x01 else 0))
      && Word(b, 20, ttt) && Numbers(b, statSN, expCmdSN, maxCmdSN)
      && Word(b, 36, dataSN) && Word(b, 40, bufferOffset) && Word(b, 44, residual)
    case LogoutResp(h, response, statSN, expCmdSN, maxCmdSN, time2Wait, time2Retain) =>
      Common(b, 0x26, h) && Flags(b, h, 0) && b[2] == response && Numbers(b, statSN, expCmdSN, maxCmdSN)
      && Half(b, 40, time2Wait) && Half(b, 42, time2Retain)
    case R2T(h, ttt, statSN, expCmdSN, maxCmdSN, r2tSN, bufferOffset, desired) =>
      Common(b, 0x31, h) && Flags(b, h, 0) && b[8..16] == h.lun
      && Word(b, 20, ttt) && Numbers(b, statSN, expCmdSN, maxCmdSN)
      && Word(b, 36, r2tSN) && Word(b, 40, bufferOffset) && Word(b, 44, desired)
    case AsyncMsg(h, statSN, expCmdSN, maxCmdSN, event, vcode, parameter1, parameter2, parameter3) =>
      Common(b, 0x32, h) && Flags(b, h, 0) && b[8..16] == h.lun && Numbers(b, statSN, expCmdSN, maxCmdSN)
      && b[36] == event && b[37] == vcode
      && Half(b, 38, parameter1) && Half(b, 40, parameter2) && Half(b, 42, parameter3)
    case Reject(h, reason, statSN, expCmdSN, maxCmdSN, dataSN) =>
      Common(b, 0x3f, h) && Flags(b, h, 0) && b[2] == reason && Numbers(b, statSN, expCmdSN, maxCmdSN)
      && Word(b, 36, dataSN)
    case _ => true
  }

  // ---- Raw fields by bytes ----------------------------------------------------------------------

  lemma WordIsBigEndian(b: bytes, i: nat, x: u32)
    requires i + 4 <= |b| && At(b, i) == x
    ensures Word(b, i, x)
  {
    assert b[i..i + 4] == [b[i], b[i + 1], b[i + 2], b[i + 3]];
  }

  /** A word that two halves share. */
  lemma HalvesOfWord(b: bytes, i: nat, hi: u16, lo: u16)
    requires i + 4 <= |b| && Word(b, i, Pair16(hi, lo))
    ensures Half(b, i, hi) && Half(b, i + 2, lo)
  {
  }

  /** The bytes of a row of raw fields. */
  predicate Rows(b: bytes, r: Raw)
    requires |b| == 48
  {
    && b[0] == r.b0 && b[1] == r.b1 && b[2] == r.b2 && b[3] == r.b3 && b[4] == r.ahsLength
    && r.dataLength == 0x1_0000 * (b[5] as int) + 0x100 * (b[6] as int) + b[7] as int
    && b[8..16] == r.lun && Word(b, 16, r.itt)
    && Word(b, 20, r.w20) && Word(b, 24, r.w24) && Word(b, 28, r.w28) && Word(b, 32, r.w32)
    && Word(b, 36, r.w36) && Word(b, 40, r.w40) && Word(b, 44, r.w44)
  }

  lemma BytesAreRows(r: Raw, b: bytes)
    requires ValidRaw(r) && b == Bytes(r)
    ensures Rows(b, r)
  {
    FieldsInvertBytes(r);
    WordIsBigEndian(b, 16, r.itt);
    WordIsBigEndian(b, 20, r.w20);
    WordIsBigEndian(b, 24, r.w24);
    WordIsBigEndian(b, 28, r.w28);
    WordIsBigEndian(b, 32, r.w32);
    WordIsBigEndian(b, 36, r.w36);
    WordIsBigEndian(b, 40, r.w40);
    WordIsBigEndian(b, 44, r.w44);
    LengthBytes(r, b);
  }

  lemma LengthBytes(r: Raw, b: bytes)
    requires ValidRaw(r) && b == Bytes(r)
    ensures r.dataLength == 0x1_0000 * (b[5] as int) + 0x100 * (b[6] as int) + b[7] as int
  {
    assert b[5..8] == U24(r.dataLength);
    assert b[5] == U24(r.dataLength)[0] && b[6] == U24(r.dataLength)[1] && b[7] == U24(r.dataLength)[2];
  }

  // ---- The PDUs ---------------------------------------------------------------------------------

  lemma CdbIsInPlace(b: bytes, r: Raw, cdb: bytes)
    requires ValidRaw(r) && b == Bytes(r) && |cdb| == 16
    requires r.w32 == At(cdb, 0) && r.w36 == At(cdb, 4) && r.w40 == At(cdb, 8) && r.w44 == At(cdb, 12)
    ensures b[32..48] == cdb
  {
    CdbFromWords(cdb);
    LastWords(b, r);
  }

  lemma LastWords(b: bytes, r: Raw)
    requires ValidRaw(r) && b == Bytes(r)
    ensures b[32..48] == Word32(r.w32) + Word32(r.w36) + Word32(r.w40) + Word32(r.w44)
  {
    FieldsInvertBytes(r);
    Framing.DecodeThenEncode(BigEndian, b[32..36]);
    Framing.DecodeThenEncode(BigEndian, b[36..40]);
    Framing.DecodeThenEncode(BigEndian, b[40..44]);
    Framing.DecodeThenEncode(BigEndian, b[44..48]);
    assert b[32..36] + b[36..40] + b[40..44] + b[44..48] == b[32..48];
  }

  lemma SessionIdIsInPlace(b: bytes, isid: bytes, tsih: u16)
    requires |b| == 48 && |isid| == 6 && b[8..16] == SessionId(isid, tsih)
    ensures b[8..14] == isid && Half(b, 14, tsih)
  {
    assert b[14] == b[8..16][6] && b[15] == b[8..16][7];
    assert b[8..14] == b[8..16][..6];
  }

  /** Every PDU of an initiator that can be marshalled has its fields in these places. */
  lemma InitiatorPdusAreLaidOut(p: Pdu, b: bytes)
    requires WellTyped(p) && Encode(p) == Some(b)
    ensures InitiatorLayout(p, b)
  {
    var r := ToRaw(p);
    BytesAreRows(r, b);
    match p
    case ScsiCommand(_, _, _, _, _, _, _, cdb) => CdbIsInPlace(b, r, cdb);
    case LoginReq(_, _, _, _, _, _, _, isid, tsih, cid, _, _) =>
      SessionIdIsInPlace(b, isid, tsih);
      HalvesOfWord(b, 20, cid, 0);
    case LogoutReq(_, _, cid, _, _) => HalvesOfWord(b, 20, cid, 0);
    case _ =>
  }

  lemma TwoBytes(b: bytes, i: nat, hi: byte, lo: byte)
    requires i + 2 <= |b| && Half(b, i, BytePair(hi, lo))
    ensures b[i] == hi && b[i + 1] == lo
  {
  }

  /** And every PDU of a target. */
  lemma TargetPdusAreLaidOut(p: Pdu, b: bytes)
    requires WellTyped(p) && Encode(p) == Some(b)
    ensures TargetLayout(p, b)
  {
    var r := ToRaw(p);
    BytesAreRows(r, b);
    match p
    case LoginResp(_, _, _, _, _, _, _, isid, tsih, _, _, _, statusClass, statusDetail) =>
      SessionIdIsInPlace(b, isid, tsih);
      HalvesOfWord(b, 36, BytePair(statusClass, statusDetail), 0);
      TwoBytes(b, 36, statusClass, statusDetail);
    case LogoutResp(_, _, _, _, _, time2Wait, time2Retain) => HalvesOfWord(b, 40, time2Wait, time2Retain);
    case AsyncMsg(_, _, _, _, event, vcode, parameter1, parameter2, parameter3) =>
      HalvesOfWord(b, 36, BytePair(event, vcode), parameter1);
      TwoBytes(b, 36, event, vcode);
      HalvesOfWord(b, 40, parameter2, parameter3);
    case _ =>
  }
}
