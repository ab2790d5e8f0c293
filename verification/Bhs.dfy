/**
 * The 48-byte basic header segments of all eighteen PDUs (section 11 of RFC 7143). A
 * header is a row of raw fields at fixed places; each opcode gives them its own meaning.
 */
module Bhs {
  import opened Prelude
  import opened Framer
  import Framing

  // ---- Raw fields and bytes --------------------------------------------------------------

  /** The fields by their places: four bytes, two lengths, the LUN, and words named by their offsets. */
  datatype Raw = Raw(b0: byte, b1: byte, b2: byte, b3: byte, ahsLength: byte, dataLength: nat, lun: bytes, itt: u32,
                     w20: u32, w24: u32, w28: u32, w32: u32, w36: u32, w40: u32, w44: u32)

  predicate ValidRaw(r: Raw) {
    r.dataLength <= MAX_SEGMENT && |r.lun| == 8
  }

  function U24(n: nat): (b: bytes)
    requires n <= MAX_SEGMENT
    ensures |b| == 3
  {
    [(n / 0x1_0000) as byte, (n / 0x100 % 0x100) as byte, (n % 0x100) as byte]
  }

  function Word32(x: u32): (b: bytes)
    ensures |b| == 4
  {
    EncodeU32(BigEndian, x)
  }

  function Front(r: Raw): (b: bytes)
    requires ValidRaw(r)
    ensures |b| == 20
  {
    [r.b0, r.b1, r.b2, r.b3, r.ahsLength] + U24(r.dataLength) + r.lun + Word32(r.itt)
  }

  function Row(words: seq<u32>): (b: bytes)
    ensures |b| == 4 * |words|
  {
    if words == [] then [] else Word32(words[0]) + Row(words[1..])
  }

  function WordsOf(r: Raw): seq<u32> {
    [r.w20, r.w24, r.w28, r.w32, r.w36, r.w40, r.w44]
  }

  function Bytes(r: Raw): (b: bytes)
    requires ValidRaw(r)
    ensures |b| == BHS_LENGTH
  {
    Front(r) + Row(WordsOf(r))
  }

  function At(b: bytes, i: nat): u32
    requires i + 4 <= |b|
  {
    DecodeU32(BigEndian, b[i..i + 4])
  }

  function Fields(b: bytes): (r: Raw)
    requires |b| == BHS_LENGTH
    ensures ValidRaw(r)
  {
    Raw(b[0], b[1], b[2], b[3], b[4], DataLen(b), b[8..16], At(b, 16),
        At(b, 20), At(b, 24), At(b, 28), At(b, 32), At(b, 36), At(b, 40), At(b, 44))
  }

  /** Writes the fields into a zeroed buffer, each at its place. */
  method WriteFields(r: Raw) returns (bhs: array<byte>)
    requires ValidRaw(r)
    ensures fresh(bhs) && bhs[..] == Bytes(r)
  {
    bhs := new byte[BHS_LENGTH](_ => 0);
    bhs[0], bhs[1], bhs[2], bhs[3], bhs[4] := r.b0, r.b1, r.b2, r.b3, r.ahsLength;
    bhs[5], bhs[6], bhs[7] :=
      (r.dataLength / 0x1_0000) as byte, (r.dataLength / 0x100 % 0x100) as byte, (r.dataLength % 0x100) as byte;
    assert bhs[..8] == [r.b0, r.b1, r.b2, r.b3, r.ahsLength] + U24(r.dataLength);
    var off := Put(bhs, 8, r.lun);
    off := Put(bhs, 16, Word32(r.itt));
    assert bhs[..20] == Front(r);
    var words := WordsOf(r);
    for k := 0 to 7
      invariant off == 20 + 4 * k && bhs[..off] + Row(words[k..]) == Bytes(r)
    {
      assert words[k..][1..] == words[k + 1..];
      ghost var before := bhs[..off];
      off := Put(bhs, off, Word32(words[k]));
      Assoc(before, Word32(words[k]), Row(words[k + 1..]));
    }
    assert bhs[..] == bhs[..48] + Row(words[7..]);
  }

  lemma WordAt(front: bytes, x: u32, rest: bytes)
    ensures At(front + Word32(x) + rest, |front|) == x
  {
    assert (front + Word32(x) + rest)[|front|..|front| + 4] == Word32(x);
    U32RoundTrip(BigEndian, x);
  }

  /** A word behind k others. */
  lemma {:induction false} WordInRow(front: bytes, words: seq<u32>, k: nat)
    requires k < |words|
    ensures |front| + 4 * k + 4 <= |front + Row(words)| && At(front + Row(words), |front| + 4 * k) == words[k]
    decreases k
  {
    if k == 0 {
      WordAt(front, words[0], Row(words[1..]));
      assert front + Row(words) == front + Word32(words[0]) + Row(words[1..]);
    } else {
      WordInRow(front + Word32(words[0]), words[1..], k - 1);
      assert front + Row(words) == front + Word32(words[0]) + Row(words[1..]);
    }
  }

  lemma BackFields(front: bytes, r: Raw)
    requires |front| == 20
    ensures var b := front + Row(WordsOf(r));
      && At(b, 20) == r.w20 && At(b, 24) == r.w24 && At(b, 28) == r.w28 && At(b, 32) == r.w32
      && At(b, 36) == r.w36 && At(b, 40) == r.w40 && At(b, 44) == r.w44
  {
    var words := WordsOf(r);
    WordInRow(front, words, 0);
    WordInRow(front, words, 1);
    WordInRow(front, words, 2);
    WordInRow(front, words, 3);
    WordInRow(front, words, 4);
    WordInRow(front, words, 5);
    WordInRow(front, words, 6);
  }

  lemma FieldsInvertBytes(r: Raw)
    requires ValidRaw(r)
    ensures Fields(Bytes(r)) == r
  {
    var b := Bytes(r);
    BackFields(Front(r), r);
    assert b[16..20] == Word32(r.itt) && b[8..16] == r.lun;
    U32RoundTrip(BigEndian, r.itt);
    assert b[5..8] == U24(r.dataLength);
    assert b[5] == U24(r.dataLength)[0] && b[6] == U24(r.dataLength)[1] && b[7] == U24(r.dataLength)[2];
  }

  // ---- The PDUs ----------------------------------------------------------------------

  datatype Header = Header(immediate: bool, final: bool, ahsLength: byte, dataLength: nat, lun: bytes, itt: u32)

  datatype Pdu =
    | NopOut(h: Header, ttt: u32, cmdSN: u32, expStatSN: u32)
    | ScsiCommand(h: Header, read: bool, write: bool, attr: byte, expectedLength: u32, cmdSN: u32, expStatSN: u32,
                  cdb: bytes)
    | TaskMgmtReq(h: Header, code: byte, referencedTag: u32, cmdSN: u32, expStatSN: u32, refCmdSN: u32)
    | LoginReq(h: Header, transit: bool, more: bool, csg: byte, nsg: byte, versionMax: byte, versionMin: byte,
               isid: bytes, tsih: u16, cid: u16, cmdSN: u32, expStatSN: u32)
    | TextReq(h: Header, more: bool, ttt: u32, cmdSN: u32, expStatSN: u32)
    | DataOut(h: Header, ttt: u32, expStatSN: u32, dataSN: u32, bufferOffset: u32)
    | LogoutReq(h: Header, reason: byte, cid: u16, cmdSN: u32, expStatSN: u32)
    | SnackReq(h: Header, kind: byte, ttt: u32, expStatSN: u32, begRun: u32, runLength: u32)
    | NopIn(h: Header, ttt: u32, statSN: u32, expCmdSN: u32, maxCmdSN: u32)
    | ScsiResponse(h: Header, bidiOverflow: bool, bidiUnderflow: bool, overflow: bool, underflow: bool,
                   response: byte, status: byte, snackTag: u32, statSN: u32, expCmdSN: u32, maxCmdSN: u32,
                   expDataSN: u32, bidiResidualCount: u32, residualCount: u32)
    | TaskMgmtResp(h: Header, response: byte, statSN: u32, expCmdSN: u32, maxCmdSN: u32)
    | LoginResp(h: Header, transit: bool, more: bool, csg: byte, nsg: byte, versionMax: byte, versionActive: byte,
                isid: bytes, tsih: u16, statSN: u32, expCmdSN: u32, maxCmdSN: u32,
                statusClass: byte, statusDetail: byte)
    | TextResp(h: Header, more: bool, ttt: u32, statSN: u32, expCmdSN: u32, maxCmdSN: u32)
    | DataIn(h: Header, acknowledge: bool, overflow: bool, underflow: bool, hasStatus: bool, status: byte,
             ttt: u32, statSN: u32, expCmdSN: u32, maxCmdSN: u32, dataSN: u32, bufferOffset: u32, residualCount: u32)
    | LogoutResp(h: Header, response: byte, statSN: u32, expCmdSN: u32, maxCmdSN: u32, time2Wait: u16, time2Retain: u16)
    | R2T(h: Header, ttt: u32, statSN: u32, expCmdSN: u32, maxCmdSN: u32, r2tSN: u32, bufferOffset: u32, desired: u32)
    | AsyncMsg(h: Header, statSN: u32, expCmdSN: u32, maxCmdSN: u32, event: byte, vcode: byte,
               parameter1: u16, parameter2: u16, parameter3: u16)
    | Reject(h: Header, reason: byte, statSN: u32, expCmdSN: u32, maxCmdSN: u32, dataSN: u32)

  /** The value of a flag at its weight. */
  function F(b: bool, weight: nat): nat {
    if b then weight else 0
  }

  predicate Bit(b: byte, weight: int)
    requires weight > 0
  {
    b as int / weight % 2 == 1
  }

  function Pair16(hi: int, lo: int): u32
    requires 0 <= hi < 0x1_0000 && 0 <= lo < 0x1_0000
  {
    0x1_0000 * hi + lo
  }

  function Hi16(w: u32): u16 {
    w / 0x1_0000
  }

  function Lo16(w: u32): u16 {
    w % 0x1_0000
  }

  function BytePair(hi: byte, lo: byte): u16 {
    0x100 * hi as int + lo as int
  }

  function HiByte(n: u16): byte {
    (n / 0x100) as byte
  }

  function LoByte(n: u16): byte {
    (n % 0x100) as byte
  }

  /** For logins, ISID and TSIH take the place of the LUN. */
  function SessionId(isid: bytes, tsih: u16): bytes {
    isid + [HiByte(tsih), LoByte(tsih)]
  }

  /** The raw fields of a PDU: its opcode, its second byte, and so on. */
  function Place(op: nat, h: Header, b1: nat, b2: byte, b3: byte, lun: bytes, w20: u32, w24: u32, w28: u32, w32: u32,
                 w36: u32, w40: u32, w44: u32): Raw
    requires op < 0x40 && b1 < 0x100
  {
    Raw((op + F(h.immediate, 0x40)) as byte, b1 as byte, b2, b3, h.ahsLength, h.dataLength, lun, h.itt,
        w20, w24, w28, w32, w36, w40, w44)
  }

  /** Byte 1 of a login PDU. Its top bit is T, not F. */
  function LoginFlags(transit: bool, cont: bool, csg: byte, nsg: byte): (b: nat)
    ensures b < 0x100
  {
    F(transit, 0x80) + F(cont, 0x40) + 4 * (csg as int % 4) + nsg as int % 4
  }

  function ToRaw(p: Pdu): Raw
    requires p.ScsiCommand? ==> |p.cdb| == 16
  {
    var h := p.h;
    var f := F(h.final, 0x80);
    match p
    case NopOut(_, ttt, cmdSN, expStatSN) => Place(0x00, h, f, 0, 0, h.lun, ttt, cmdSN, expStatSN, 0, 0, 0, 0)
    case ScsiCommand(_, read, write, attr, expectedLength, cmdSN, expStatSN, cdb) =>
      Place(0x01, h, f + F(read, 0x40) + F(write, 0x20) + attr as int % 8, 0, 0, h.lun,
            expectedLength, cmdSN, expStatSN,
            At(cdb, 0), At(cdb, 4), At(cdb, 8), At(cdb, 12))
    case TaskMgmtReq(_, fn, referencedTag, cmdSN, expStatSN, refCmdSN) =>
      Place(0x02, h, f + fn as int % 0x80, 0, 0, h.lun, referencedTag, cmdSN, expStatSN, refCmdSN, 0, 0, 0)
    case LoginReq(_, transit, cont, csg, nsg, versionMax, versionMin, isid, tsih, cid, cmdSN, expStatSN) =>
      Place(0x03, h, LoginFlags(transit, cont, csg, nsg), versionMax, versionMin, SessionId(isid, tsih),
            Pair16(cid, 0), cmdSN, expStatSN, 0, 0, 0, 0)
    case TextReq(_, cont, ttt, cmdSN, expStatSN) =>
      Place(0x04, h, f + F(cont, 0x40), 0, 0, h.lun, ttt, cmdSN, expStatSN, 0, 0, 0, 0)
    case DataOut(_, ttt, expStatSN, dataSN, bufferOffset) =>
      Place(0x05, h, f, 0, 0, h.lun, ttt, 0, expStatSN, 0, dataSN, bufferOffset, 0)
    case LogoutReq(_, reason, cid, cmdSN, expStatSN) =>
      Place(0x06, h, f + reason as int % 0x80, 0, 0, h.lun, Pair16(cid, 0), cmdSN, expStatSN, 0, 0, 0, 0)
    case SnackReq(_, kind, ttt, expStatSN, begRun, runLength) =>
      Place(0x10, h, f + kind as int % 0x10, 0, 0, h.lun, ttt, 0, expStatSN, 0, 0, begRun, runLength)
    case NopIn(_, ttt, statSN, expCmdSN, maxCmdSN) =>
      Place(0x20, h, f, 0, 0, h.lun, ttt, statSN, expCmdSN, maxCmdSN, 0, 0, 0)
    case ScsiResponse(_, bo, bu, o, u, response, status, snackTag, statSN, expCmdSN, maxCmdSN, expDataSN, bidi,
                      residual) =>
      Place(0x21, h, f + F(bo, 0x10) + F(bu, 0x08) + F(o, 0x04) + F(u, 0x02), response, status, h.lun,
            snackTag, statSN, expCmdSN, maxCmdSN, expDataSN, bidi, residual)
    case TaskMgmtResp(_, response, statSN, expCmdSN, maxCmdSN) =>
      Place(0x22, h, f, response, 0, h.lun, 0, statSN, expCmdSN, maxCmdSN, 0, 0, 0)
    case LoginResp(_, transit, cont, csg, nsg, versionMax, versionActive, isid, tsih, statSN, expCmdSN, maxCmdSN,
                   statusClass, statusDetail) =>
      Place(0x23, h, LoginFlags(transit, cont, csg, nsg), versionMax, versionActive, SessionId(isid, tsih),
            0, statSN, expCmdSN, maxCmdSN, Pair16(BytePair(statusClass, statusDetail), 0), 0, 0)
    case TextResp(_, cont, ttt, statSN, expCmdSN, maxCmdSN) =>
      Place(0x24, h, f + F(cont, 0x40), 0, 0, h.lun, ttt, statSN, expCmdSN, maxCmdSN, 0, 0, 0)
    case DataIn(_, a, o, u, s, status, ttt, statSN, expCmdSN, maxCmdSN, dataSN, bufferOffset, residual) =>
      Place(0x25, h, f + F(a, 0x40) + F(o, 0x04) + F(u, 0x08) + F(s, 0x01), 0, status, h.lun,
            ttt, statSN, expCmdSN, maxCmdSN, dataSN, bufferOffset, residual)
    case LogoutResp(_, response, statSN, expCmdSN, maxCmdSN, time2Wait, time2Retain) =>
      Place(0x26, h, f, response, 0, h.lun, 0, statSN, expCmdSN, maxCmdSN, 0, Pair16(time2Wait, time2Retain), 0)
    case R2T(_, ttt, statSN, expCmdSN, maxCmdSN, r2tSN, bufferOffset, desired) =>
      Place(0x31, h, f, 0, 0, h.lun, ttt, statSN, expCmdSN, maxCmdSN, r2tSN, bufferOffset, desired)
    case AsyncMsg(_, statSN, expCmdSN, maxCmdSN, event, vcode, parameter1, parameter2, parameter3) =>
      Place(0x32, h, f, 0, 0, h.lun, 0, statSN, expCmdSN, maxCmdSN,
            Pair16(BytePair(event, vcode), parameter1), Pair16(parameter2, parameter3), 0)
    case Reject(_, reason, statSN, expCmdSN, maxCmdSN, dataSN) =>
      Place(0x3f, h, f, reason, 0, h.lun, 0, statSN, expCmdSN, maxCmdSN, dataSN, 0, 0)
  }

  function HeaderOf(r: Raw): Header {
    Header(Bit(r.b0, 0x40), Bit(r.b1, 0x80), r.ahsLength, r.dataLength, r.lun, r.itt)
  }

  function Low(b: byte, modulus: int): byte
    requires 0 < modulus <= 0x100
  {
    (b as int % modulus) as byte
  }

  /** The current stage of a login, bits 2 and 3. */
  function Csg(b: byte): byte {
    (b as int / 4 % 4) as byte
  }

  /** The PDU that the opcode makes of the raw fields. None for an unknown opcode. */
  function OfRaw(r: Raw): Option<Pdu>
    requires ValidRaw(r)
  {
    var h, op := HeaderOf(r), r.b0 as int % 0x40;
    var b1 := r.b1;
    if op == 0x00 then Some(NopOut(h, r.w20, r.w24, r.w28))
    else if op == 0x01 then
      Some(ScsiCommand(h, Bit(b1, 0x40), Bit(b1, 0x20), Low(b1, 8), r.w20, r.w24, r.w28,
                       Word32(r.w32) + Word32(r.w36) + Word32(r.w40) + Word32(r.w44)))
    else if op == 0x02 then Some(TaskMgmtReq(h, Low(b1, 0x80), r.w20, r.w24, r.w28, r.w32))
    else if op == 0x03 then
      Some(LoginReq(h, Bit(b1, 0x80), Bit(b1, 0x40), Csg(b1), Low(b1, 4), r.b2, r.b3,
                    r.lun[..6], BytePair(r.lun[6], r.lun[7]), Hi16(r.w20), r.w24, r.w28))
    else if op == 0x04 then Some(TextReq(h, Bit(b1, 0x40), r.w20, r.w24, r.w28))
    else if op == 0x05 then Some(DataOut(h, r.w20, r.w28, r.w36, r.w40))
    else if op == 0x06 then Some(LogoutReq(h, Low(b1, 0x80), Hi16(r.w20), r.w24, r.w28))
    else if op == 0x10 then Some(SnackReq(h, Low(b1, 0x10), r.w20, r.w28, r.w40, r.w44))
    else if op == 0x20 then Some(NopIn(h, r.w20, r.w24, r.w28, r.w32))
    else if op == 0x21 then
      Some(ScsiResponse(h, Bit(b1, 0x10), Bit(b1, 0x08), Bit(b1, 0x04), Bit(b1, 0x02), r.b2, r.b3,
                        r.w20, r.w24, r.w28, r.w32, r.w36, r.w40, r.w44))
    else if op == 0x22 then Some(TaskMgmtResp(h, r.b2, r.w24, r.w28, r.w32))
    else if op == 0x23 then
      Some(LoginResp(h, Bit(b1, 0x80), Bit(b1, 0x40), Csg(b1), Low(b1, 4), r.b2, r.b3,
                     r.lun[..6], BytePair(r.lun[6], r.lun[7]), r.w24, r.w28, r.w32,
                     HiByte(Hi16(r.w36)), LoByte(Hi16(r.w36))))
    else if op == 0x24 then Some(TextResp(h, Bit(b1, 0x40), r.w20, r.w24, r.w28, r.w32))
    else if op == 0x25 then
      Some(DataIn(h, Bit(b1, 0x40), Bit(b1, 0x04), Bit(b1, 0x08), Bit(b1, 0x01), r.b3,
                  r.w20, r.w24, r.w28, r.w32, r.w36, r.w40, r.w44))
    else if op == 0x26 then Some(LogoutResp(h, r.b2, r.w24, r.w28, r.w32, Hi16(r.w40), Lo16(r.w40)))
    else if op == 0x31 then Some(R2T(h, r.w20, r.w24, r.w28, r.w32, r.w36, r.w40, r.w44))
    else if op == 0x32 then
      Some(AsyncMsg(h, r.w24, r.w28, r.w32, HiByte(Hi16(r.w36)), LoByte(Hi16(r.w36)), Lo16(r.w36),
                    Hi16(r.w40), Lo16(r.w40)))
    else if op == 0x3f then Some(Reject(h, r.b2, r.w24, r.w28, r.w32, r.w36))
    else None
  }

  // ---- Marshalling and back ---------------------------------------------------------------

  predicate LoginFits(h: Header, transit: bool, csg: byte, nsg: byte, isid: bytes, tsih: u16) {
    csg < 4 && nsg < 4 && |isid| == 6 && h.lun == SessionId(isid, tsih) && h.final == transit
  }

  /** What the format can carry: each field within its bits, and overlaid fields in agreement. */
  predicate Canonical(p: Pdu) {
    && |p.h.lun| == 8 && p.h.dataLength <= MAX_SEGMENT
    && match p
       case ScsiCommand(_, _, _, attr, _, _, _, cdb) => attr < 8 && |cdb| == 16
       case TaskMgmtReq(_, fn, _, _, _, _) => fn < 0x80
       case LoginReq(h, transit, _, csg, nsg, _, _, isid, tsih, _, _, _) => LoginFits(h, transit, csg, nsg, isid, tsih)
       case LogoutReq(_, reason, _, _, _) => reason < 0x80
       case SnackReq(_, kind, _, _, _, _) => kind < 0x10
       case LoginResp(h, transit, _, csg, nsg, _, _, isid, tsih, _, _, _, _, _) =>
         LoginFits(h, transit, csg, nsg, isid, tsih)
       case _ => true
  }

  /** What the Go types guarantee of any PDU: fixed-size arrays, but no widths of bit fields. */
  predicate WellTyped(p: Pdu) {
    |p.h.lun| == 8 && (p.ScsiCommand? ==> |p.cdb| == 16) && (p.LoginReq? ==> |p.isid| == 6)
    && (p.LoginResp? ==> |p.isid| == 6)
  }

  lemma HalvesSplit(hi: int, lo: int)
    requires 0 <= hi < 0x1_0000 && 0 <= lo < 0x1_0000
    ensures Hi16(Pair16(hi, lo)) == hi && Lo16(Pair16(hi, lo)) == lo
  {
  }

  lemma BytesSplit(hi: byte, lo: byte)
    ensures HiByte(BytePair(hi, lo)) == hi && LoByte(BytePair(hi, lo)) == lo
  {
  }

  lemma BytesJoin(n: u16)
    ensures BytePair(HiByte(n), LoByte(n)) == n
  {
  }

  lemma LoginStagesSplit(transit: bool, cont: bool, csg: byte, nsg: byte)
    requires csg < 4 && nsg < 4
    ensures var b := LoginFlags(transit, cont, csg, nsg) as byte; Csg(b) == csg && Low(b, 4) == nsg
  {
  }

  lemma LoginFlagsSplit(transit: bool, cont: bool, csg: byte, nsg: byte)
    requires csg < 4 && nsg < 4
    ensures var b := LoginFlags(transit, cont, csg, nsg) as byte;
      && Bit(b, 0x80) == transit && Bit(b, 0x40) == cont
      && Csg(b) == csg && Low(b, 4) == nsg
  {
    LoginStagesSplit(transit, cont, csg, nsg);
  }

  lemma CdbFromWords(cdb: bytes)
    requires |cdb| == 16
    ensures Word32(At(cdb, 0)) + Word32(At(cdb, 4)) + Word32(At(cdb, 8)) + Word32(At(cdb, 12)) == cdb
  {
    Framing.DecodeThenEncode(BigEndian, cdb[0..4]);
    Framing.DecodeThenEncode(BigEndian, cdb[4..8]);
    Framing.DecodeThenEncode(BigEndian, cdb[8..12]);
    Framing.DecodeThenEncode(BigEndian, cdb[12..16]);
    assert cdb[0..4] + cdb[4..8] + cdb[8..12] + cdb[12..16] == cdb;
  }

  lemma SessionIdSplits(isid: bytes, tsih: u16)
    requires |isid| == 6
    ensures var lun := SessionId(isid, tsih);
      |lun| == 8 && lun[..6] == isid && BytePair(lun[6], lun[7]) == tsih
  {
    BytesJoin(tsih);
  }

  lemma CommandFlagsSplit(final: bool, read: bool, write: bool, attr: byte)
    requires attr < 8
    ensures var b := (F(final, 0x80) + F(read, 0x40) + F(write, 0x20) + attr as int % 8) as byte;
      Bit(b, 0x80) == final && Bit(b, 0x40) == read && Bit(b, 0x20) == write && Low(b, 8) == attr
  {
  }

  lemma ScsiCommandOfRaw(r: Raw, p: Pdu)
    requires ValidRaw(r) && p.ScsiCommand? && r.b0 as int % 0x40 == 0x01 && HeaderOf(r) == p.h
    requires Bit(r.b1, 0x40) == p.read && Bit(r.b1, 0x20) == p.write && Low(r.b1, 8) == p.attr
    requires r.w20 == p.expectedLength && r.w24 == p.cmdSN && r.w28 == p.expStatSN
    requires Word32(r.w32) + Word32(r.w36) + Word32(r.w40) + Word32(r.w44) == p.cdb
    ensures OfRaw(r) == Some(p)
  {
  }

  lemma OpcodeSplits(op: nat, immediate: bool)
    requires op < 0x40
    ensures var b := (op + F(immediate, 0x40)) as byte; b as int % 0x40 == op && Bit(b, 0x40) == immediate
  {
  }

  lemma ScsiCommandRoundTrips(p: Pdu)
    requires Canonical(p) && p.ScsiCommand?
    ensures OfRaw(ToRaw(p)) == Some(p)
  {
    CommandFlagsSplit(p.h.final, p.read, p.write, p.attr);
    OpcodeSplits(0x01, p.h.immediate);
    CdbFromWords(p.cdb);
    ScsiCommandOfRaw(ToRaw(p), p);
  }

  lemma CodedFlagsSplit(final: bool, code: byte)
    requires code < 0x80
    ensures var b := (F(final, 0x80) + code as int) as byte;
      Bit(b, 0x80) == final && Low(b, 0x80) == code && (code < 0x10 ==> Low(b, 0x10) == code)
  {
  }

  lemma TaskMgmtReqRoundTrips(p: Pdu)
    requires Canonical(p) && p.TaskMgmtReq?
    ensures OfRaw(ToRaw(p)) == Some(p)
  {
    OpcodeSplits(0x02, p.h.immediate);
    CodedFlagsSplit(p.h.final, p.code);
  }

  lemma LogoutReqRoundTrips(p: Pdu)
    requires Canonical(p) && p.LogoutReq?
    ensures OfRaw(ToRaw(p)) == Some(p)
  {
    OpcodeSplits(0x06, p.h.immediate);
    CodedFlagsSplit(p.h.final, p.reason);
    HalvesSplit(p.cid, 0);
  }

  lemma SnackReqRoundTrips(p: Pdu)
    requires Canonical(p) && p.SnackReq?
    ensures OfRaw(ToRaw(p)) == Some(p)
  {
    OpcodeSplits(0x10, p.h.immediate);
    CodedFlagsSplit(p.h.final, p.kind);
  }

  /** The fields that the two login PDUs share, read off the raw ones. */
  ghost predicate LoginFields(r: Raw, transit: bool, more: bool, csg: byte, nsg: byte, isid: bytes, tsih: u16) {
    && ValidRaw(r) && Bit(r.b1, 0x80) == transit && Bit(r.b1, 0x40) == more
    && Csg(r.b1) == csg && Low(r.b1, 4) == nsg
    && r.lun[..6] == isid && BytePair(r.lun[6], r.lun[7]) == tsih
  }

  lemma LoginFieldsOf(r: Raw, transit: bool, more: bool, csg: byte, nsg: byte, isid: bytes, tsih: u16)
    requires csg < 4 && nsg < 4 && |isid| == 6 && r.dataLength <= MAX_SEGMENT
    requires r.b1 as int == LoginFlags(transit, more, csg, nsg) && r.lun == SessionId(isid, tsih)
    ensures LoginFields(r, transit, more, csg, nsg, isid, tsih)
  {
    LoginFlagsSplit(transit, more, csg, nsg);
    SessionIdSplits(isid, tsih);
  }

  lemma LoginReqOfRaw(r: Raw, p: Pdu)
    requires p.LoginReq? && LoginFields(r, p.transit, p.more, p.csg, p.nsg, p.isid, p.tsih)
    requires HeaderOf(r) == p.h && r.b0 as int % 0x40 == 0x03 && r.b2 == p.versionMax && r.b3 == p.versionMin
    requires Hi16(r.w20) == p.cid && r.w24 == p.cmdSN && r.w28 == p.expStatSN
    ensures OfRaw(r) == Some(p)
  {
  }

  lemma LoginReqRoundTrips(p: Pdu)
    requires Canonical(p) && p.LoginReq?
    ensures OfRaw(ToRaw(p)) == Some(p)
  {
    var r := ToRaw(p);
    OpcodeSplits(0x03, p.h.immediate);
    LoginFieldsOf(r, p.transit, p.more, p.csg, p.nsg, p.isid, p.tsih);
    HalvesSplit(p.cid, 0);
    LoginReqOfRaw(r, p);
  }

  lemma LoginRespOfRaw(r: Raw, p: Pdu)
    requires p.LoginResp? && LoginFields(r, p.transit, p.more, p.csg, p.nsg, p.isid, p.tsih)
    requires HeaderOf(r) == p.h && r.b0 as int % 0x40 == 0x23 && r.b2 == p.versionMax && r.b3 == p.versionActive
    requires r.w24 == p.statSN && r.w28 == p.expCmdSN && r.w32 == p.maxCmdSN
    requires HiByte(Hi16(r.w36)) == p.statusClass && LoByte(Hi16(r.w36)) == p.statusDetail
    ensures OfRaw(r) == Some(p)
  {
  }

  lemma LoginRespRoundTrips(p: Pdu)
    requires Canonical(p) && p.LoginResp?
    ensures OfRaw(ToRaw(p)) == Some(p)
  {
    var r := ToRaw(p);
    OpcodeSplits(0x23, p.h.immediate);
    LoginFieldsOf(r, p.transit, p.more, p.csg, p.nsg, p.isid, p.tsih);
    EventWordSplits(p.statusClass, p.statusDetail, 0, r.w36);
    LoginRespOfRaw(r, p);
  }

  lemma LogoutRespRoundTrips(p: Pdu)
    requires Canonical(p) && p.LogoutResp?
    ensures OfRaw(ToRaw(p)) == Some(p)
  {
    HalvesSplit(p.time2Wait, p.time2Retain);
  }

  lemma EventWordSplits(event: byte, vcode: byte, parameter: u16, w: u32)
    requires w == Pair16(BytePair(event, vcode), parameter)
    ensures HiByte(Hi16(w)) == event && LoByte(Hi16(w)) == vcode && Lo16(w) == parameter
  {
    HalvesSplit(BytePair(event, vcode), parameter);
    BytesSplit(event, vcode);
  }

  lemma AsyncMsgRoundTrips(p: Pdu)
    requires Canonical(p) && p.AsyncMsg?
    ensures OfRaw(ToRaw(p)) == Some(p)
  {
    var r := ToRaw(p);
    EventWordSplits(p.event, p.vcode, p.parameter1, r.w36);
    HalvesSplit(p.parameter2, p.parameter3);
    assert r == Place(0x32, p.h, F(p.h.final, 0x80), 0, 0, p.h.lun, 0, p.statSN, p.expCmdSN, p.maxCmdSN, r.w36,
                      Pair16(p.parameter2, p.parameter3), 0);
    assert HeaderOf(r) == p.h;
  }

  lemma DataInFlagsSplit(final: bool, a: bool, o: bool, u: bool, s: bool)
    ensures var b := (F(final, 0x80) + F(a, 0x40) + F(o, 0x04) + F(u, 0x08) + F(s, 0x01)) as byte;
      Bit(b, 0x80) == final && Bit(b, 0x40) == a && Bit(b, 0x04) == o && Bit(b, 0x08) == u && Bit(b, 0x01) == s
  {
  }

  lemma DataInRoundTrips(p: Pdu)
    requires Canonical(p) && p.DataIn?
    ensures OfRaw(ToRaw(p)) == Some(p)
  {
    DataInFlagsSplit(p.h.final, p.acknowledge, p.overflow, p.underflow, p.hasStatus);
  }

  lemma ResponseFlagsSplit(final: bool, bo: bool, bu: bool, o: bool, u: bool)
    ensures var b := (F(final, 0x80) + F(bo, 0x10) + F(bu, 0x08) + F(o, 0x04) + F(u, 0x02)) as byte;
      Bit(b, 0x80) == final && Bit(b, 0x10) == bo && Bit(b, 0x08) == bu && Bit(b, 0x04) == o && Bit(b, 0x02) == u
  {
  }

  lemma ScsiResponseRoundTrips(p: Pdu)
    requires Canonical(p) && p.ScsiResponse?
    ensures OfRaw(ToRaw(p)) == Some(p)
  {
    ResponseFlagsSplit(p.h.final, p.bidiOverflow, p.bidiUnderflow, p.overflow, p.underflow);
  }

  lemma TextRoundTrips(p: Pdu)
    requires Canonical(p) && (p.TextReq? || p.TextResp?)
    ensures OfRaw(ToRaw(p)) == Some(p)
  {
  }

  lemma PlainRoundTrips(p: Pdu)
    requires Canonical(p)
    requires p.NopOut? || p.DataOut? || p.NopIn? || p.TaskMgmtResp? || p.R2T? || p.Reject?
    ensures OfRaw(ToRaw(p)) == Some(p)
  {
  }

  lemma OfRawInvertsToRaw(p: Pdu)
    requires Canonical(p)
    ensures ValidRaw(ToRaw(p)) && OfRaw(ToRaw(p)) == Some(p)
  {
    match p
    case LoginReq(_, _, _, _, _, _, _, _, _, _, _, _) => LoginReqRoundTrips(p);
    case LoginResp(_, _, _, _, _, _, _, _, _, _, _, _, _, _) => LoginRespRoundTrips(p);
    case ScsiCommand(_, _, _, _, _, _, _, _) => ScsiCommandRoundTrips(p);
    case TaskMgmtReq(_, _, _, _, _, _) => TaskMgmtReqRoundTrips(p);
    case LogoutReq(_, _, _, _, _) => LogoutReqRoundTrips(p);
    case SnackReq(_, _, _, _, _, _) => SnackReqRoundTrips(p);
    case LogoutResp(_, _, _, _, _, _, _) => LogoutRespRoundTrips(p);
    case AsyncMsg(_, _, _, _, _, _, _, _, _) => AsyncMsgRoundTrips(p);
    case DataIn(_, _, _, _, _, _, _, _, _, _, _, _, _) => DataInRoundTrips(p);
    case ScsiResponse(_, _, _, _, _, _, _, _, _, _, _, _, _, _) => ScsiResponseRoundTrips(p);
    case TextReq(_, _, _, _, _) => TextRoundTrips(p);
    case TextResp(_, _, _, _, _, _) => TextRoundTrips(p);
    case _ => PlainRoundTrips(p);
  }

  lemma DecodedIsCanonical(r: Raw)
    requires ValidRaw(r) && OfRaw(r).Some?
    ensures Canonical(OfRaw(r).value)
  {
    BytesSplit(r.lun[6], r.lun[7]);
    assert r.lun == SessionId(r.lun[..6], BytePair(r.lun[6], r.lun[7]));
  }

  function Decode(b: bytes): Option<Pdu>
    requires |b| == BHS_LENGTH
  {
    OfRaw(Fields(b))
  }

  /** None if the data segment is too long for 24 bits. */
  function Encode(p: Pdu): Option<bytes>
    requires WellTyped(p)
  {
    if p.h.dataLength > MAX_SEGMENT then None else Some(Bytes(ToRaw(p)))
  }

  method MarshalBHS(p: Pdu) returns (bhs: Option<bytes>)
    requires WellTyped(p)
    ensures bhs == Encode(p)
  {
    if p.h.dataLength > MAX_SEGMENT {
      return None;
    }
    var buf := WriteFields(ToRaw(p));
    return Some(buf[..]);
  }

  /** Unmarshalling inverts marshalling on exactly the PDUs that the format can carry. */
  lemma DecodeInvertsEncodeIff(p: Pdu)
    requires WellTyped(p)
    ensures Encode(p).Some? && Decode(Encode(p).value) == Some(p) <==> Canonical(p)
  {
    if p.h.dataLength <= MAX_SEGMENT {
      FieldsInvertBytes(ToRaw(p));
      if OfRaw(ToRaw(p)) == Some(p) {
        DecodedIsCanonical(ToRaw(p));
      }
      if Canonical(p) {
        OfRawInvertsToRaw(p);
      }
    }
  }

  lemma HeaderIsDecoded(r: Raw)
    requires ValidRaw(r) && OfRaw(r).Some?
    ensures OfRaw(r).value.h == HeaderOf(r)
  {
  }

  lemma LengthsAreEncoded(p: Pdu)
    requires p.ScsiCommand? ==> |p.cdb| == 16
    ensures ToRaw(p).ahsLength == p.h.ahsLength && ToRaw(p).dataLength == p.h.dataLength
  {
  }

  /** The two lengths share four bytes, and marshalling leaves both as they were. */
  lemma LengthsAreStable(b: bytes, p: Pdu)
    requires |b| == BHS_LENGTH && Decode(b) == Some(p) && WellTyped(p) && p.h.dataLength <= MAX_SEGMENT
    ensures Encode(p).value[4] == b[4] && DataLen(Encode(p).value) == DataLen(b)
  {
    HeaderIsDecoded(Fields(b));
    LengthsAreEncoded(p);
    var r := ToRaw(p);
    FieldsInvertBytes(r);
    assert Fields(Bytes(r)).ahsLength == Bytes(r)[4];
  }

  /**
   * Any 48 bytes with a known opcode: decoding, marshalling and decoding again gives the
   * same PDU in every field, and the two lengths, which share four bytes, stay as they were.
   */
  lemma DecodingIsStable(b: bytes)
    requires |b| == BHS_LENGTH && Decode(b).Some?
    ensures var p := Decode(b).value;
      && WellTyped(p) && Encode(p).Some? && Decode(Encode(p).value) == Some(p)
      && Encode(p).value[4] == b[4] && DataLen(Encode(p).value) == DataLen(b)
  {
    DecodedIsCanonical(Fields(b));
    var p := Decode(b).value;
    DecodeInvertsEncodeIff(p);
    LengthsAreStable(b, p);
  }

  /** Exactly the eighteen opcodes are known. */
  lemma KnownOpcodes(b: bytes)
    requires |b| == BHS_LENGTH
    ensures Decode(b).Some? <==>
      b[0] as int % 0x40 in {0x00, 0x01, 0x02, 0x03, 0x04, 0x05, 0x06, 0x10, 0x20, 0x21, 0x22, 0x23, 0x24, 0x25, 0x26,
                             0x31, 0x32, 0x3f}
  {
  }

  /** The reserved bits in the second byte of a Data-In PDU, of weights 8, 16 and 32, are zero (section 11.7). */
  predicate ReservedBitsZero(b1: byte) {
    !Bit(b1, 0x08) && !Bit(b1, 0x10) && !Bit(b1, 0x20)
  }

  /**
   * A target reports an underflow by the bit of weight 2 (section 11.7). With the reserved
   * bits zero, what is decoded is right if and only if there was no underflow to report:
   * none is ever seen.
   */
  lemma UnderflowIsReadIff(b: bytes)
    requires |b| == BHS_LENGTH && b[0] as int % 0x40 == 0x25 && ReservedBitsZero(b[1])
    ensures Decode(b).Some? && Decode(b).value.DataIn? && !Decode(b).value.underflow
    ensures Decode(b).value.underflow == Bit(b[1], 0x02) <==> !Bit(b[1], 0x02)
  {
  }

  /** A final Data-In PDU with status and underflow, which is decoded as one without. */
  lemma UnderflowIsMissed()
    ensures var b: bytes := [0x25, 0x83] + Zeros(46);
      && Bit(b[1], 0x02) && ReservedBitsZero(b[1])
      && Decode(b).Some? && Decode(b).value.DataIn? && Decode(b).value.hasStatus && !Decode(b).value.underflow
  {
    var b: bytes := [0x25, 0x83] + Zeros(46);
    UnderflowIsReadIff(b);
  }
}
