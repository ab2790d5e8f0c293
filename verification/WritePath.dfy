/**
 * A whole write: the immediate data in the command, the unsolicited burst, and the bursts
 * that R2Ts ask for, as the target puts them together (sections 11.7 and 11.8 of RFC 7143).
 */
module WritePath {
  import opened Prelude
  import opened Io
  import opened DataOut

  // ---- Opening a write ------------------------------------------------------------------

  /**
   * What opening a write leaves behind: the data of the command if it was sent, the
   * unsolicited PDUs, the task's byte counter, and the bytes taken from the source.
   */
  datatype Opened = Opened(command: Option<bytes>, burst: seq<DataOutPdu>, bytesSent: u32, taken: nat,
                           error: Option<WriteError>)

  function ImmediateLen(p: Limits): nat {
    if p.immediateData then Min(p.firstBurst, p.maxSegment) else 0
  }

  /** The command with n bytes of immediate data, which end at pos, and what follows it. */
  function AfterImmediate(p: Limits, data: bytes, broken: bool, itt: u32, pos: nat, n: nat): Opened
    requires n <= pos <= |data| && n <= MAX_SEGMENT
  {
    if p.initialR2T then Opened(Some(data[pos - n..pos]), [], n, n, None)
    else
      var j := UnsolicitedJob(p, data, broken, itt, n);
      var e := EndOf(j, |data| - pos);
      Opened(Some(data[pos - n..pos]), Burst(j, pos), Wrap(n + e.sent), n + e.taken, e.error)
  }

  function OpeningOf(p: Limits, data: bytes, broken: bool, itt: u32, pos: nat): Opened
    requires pos <= |data|
  {
    var want := ImmediateLen(p);
    var n := Min(want, |data| - pos);
    var status := StatusOf(want, n, broken);
    if !Usable(status) then Opened(None, [], 0, n, Some(ReadFailed(status)))
    else if n > MAX_SEGMENT then Opened(None, [], n, n, Some(SegmentTooLong))
    else AfterImmediate(p, data, broken, itt, pos + n, n)
  }

  /** The immediate data of a write. Without ImmediateData none is read. */
  method ReadImmediate(t: WriteTask, p: Limits) returns (immediate: bytes, error: Option<WriteError>)
    requires t.source.Valid() && t.bytesSent == 0
    modifies t`bytesSent, t.source
    ensures t.source.Valid()
    ensures var n := Min(ImmediateLen(p), |t.source.data| - old(t.source.pos));
      var status := StatusOf(ImmediateLen(p), n, t.source.broken);
      && |immediate| == n && t.source.pos == old(t.source.pos) + n
      && immediate == t.source.data[old(t.source.pos)..old(t.source.pos) + n]
      && error == (if Usable(status) then None else Some(ReadFailed(status)))
      && t.bytesSent == if Usable(status) then n else 0
  {
    immediate, error := [], None;
    if p.immediateData {
      var n, status;
      n, immediate, status := t.ReadSegment(Min(p.firstBurst, p.maxSegment));
      if Usable(status) {
        t.bytesSent := n;
      } else {
        error := Some(ReadFailed(status));
      }
    }
  }

  method OpenRest(t: WriteTask, p: Limits, immediate: bytes) returns (command: Option<bytes>, error: Option<WriteError>)
    requires t.source.Valid() && t.bytesSent == |immediate| <= t.source.pos && |immediate| <= MAX_SEGMENT
    requires immediate == t.source.data[t.source.pos - |immediate|..t.source.pos]
    modifies t`wire, t`bytesSent, t.source
    ensures t.source.Valid()
    ensures var o := AfterImmediate(p, t.source.data, t.source.broken, t.itt, old(t.source.pos), |immediate|);
      && command == o.command && error == o.error
      && t.wire == old(t.wire) + o.burst && t.bytesSent == o.bytesSent
      && t.source.pos == old(t.source.pos) - |immediate| + o.taken
  {
    command, error := Some(immediate), None;
    if !p.initialR2T {
      error := t.SendUnsolicitedDataOut(p);
    }
  }

  /** The same, if the context may end before the command is queued for the connection. */
  function OpeningIf(queued: bool, o: Opened): Opened {
    if queued || o.command == None then o
    else Opened(None, [], Wrap(|o.command.value|), |o.command.value|, Some(ContextEnded))
  }

  /** The write part of Submit. `command` is the data of the command PDU once that is sent. */
  method Open(t: WriteTask, p: Limits, queued: bool) returns (command: Option<bytes>, error: Option<WriteError>)
    requires t.source.Valid() && t.bytesSent == 0
    modifies t`wire, t`bytesSent, t.source
    ensures t.source.Valid()
    ensures var o := OpeningIf(queued, OpeningOf(p, t.source.data, t.source.broken, t.itt, old(t.source.pos)));
      && command == o.command && error == o.error
      && t.wire == old(t.wire) + o.burst && t.bytesSent == o.bytesSent
      && t.source.pos == old(t.source.pos) + o.taken
  {
    command := None;
    var immediate;
    immediate, error := ReadImmediate(t, p);
    if error != None {
      return;
    }
    if |immediate| > MAX_SEGMENT {
      error := Some(SegmentTooLong);
      return;
    }
    if !queued {
      error := Some(ContextEnded);
      return;
    }
    command, error := OpenRest(t, p, immediate);
  }

  /**
   * FirstBurstLength - bytesSent never underflows, and immediate and unsolicited data
   * together stay within FirstBurstLength.
   */
  lemma OpeningStaysInFirstBurst(p: Limits, data: bytes, broken: bool, itt: u32, pos: nat)
    requires pos <= |data|
    ensures var o := OpeningOf(p, data, broken, itt, pos);
      && o.bytesSent <= p.firstBurst
      && (o.command.Some? ==>
            && |o.command.value| <= Min(p.firstBurst, p.maxSegment)
            && UnsolicitedJob(p, data, broken, itt, |o.command.value|).burstLen == p.firstBurst - |o.command.value|)
      && (o.error == None ==> o.command.Some? && o.taken == o.bytesSent)
  {
  }

  /** The immediate read needs a full segment, or any byte at all of a sound source. */
  predicate ImmediateCanBeRead(p: Limits, broken: bool, left: nat) {
    p.immediateData ==> Min(p.firstBurst, p.maxSegment) <= left || (!broken && left > 0)
  }

  /**
   * Without InitialR2T the source must fill the first burst, or soundly run out in the
   * middle of a segment beyond the immediate data.
   */
  predicate BurstCanBeFilled(p: Limits, broken: bool, left: nat)
    requires p.maxSegment > 0
  {
    p.initialR2T || p.firstBurst <= left
    || (!broken && left % p.maxSegment != 0 && (p.immediateData ==> left > p.maxSegment))
  }

  /** The same, on what the immediate data has left. */
  predicate RestCanBeSent(p: Limits, broken: bool, left: nat, n: nat)
    requires p.maxSegment > 0 && n <= left
  {
    p.initialR2T || p.firstBurst <= left || (!broken && (left - n) % p.maxSegment != 0)
  }

  /** Taking a whole segment does not change the remainder. */
  lemma RemainderAfter(left: nat, m: nat, n: nat)
    requires m > 0 && n <= left
    ensures n == left ==> (left - n) % m == 0
    ensures n == m ==> (left - n) % m == left % m
    ensures n == 0 ==> (left - n) % m == left % m
    ensures left == m ==> left % m == 0
  {
    if n == m {
      DropOne(left, m);
    }
  }

  lemma RestConditionIff(p: Limits, broken: bool, left: nat, n: nat)
    requires n == Min(ImmediateLen(p), left) && 0 < p.maxSegment
    ensures RestCanBeSent(p, broken, left, n) <==> BurstCanBeFilled(p, broken, left)
  {
    RemainderAfter(left, p.maxSegment, n);
  }

  lemma RestSucceedsIff(p: Limits, data: bytes, broken: bool, itt: u32, pos: nat, n: nat)
    requires pos + n <= |data| && n <= p.firstBurst && n <= MAX_SEGMENT && 0 < p.maxSegment <= MAX_SEGMENT
    ensures AfterImmediate(p, data, broken, itt, pos + n, n).error == None
      <==> RestCanBeSent(p, broken, |data| - pos, n)
  {
    BurstSucceedsIff(UnsolicitedJob(p, data, broken, itt, n), |data| - pos - n);
  }

  lemma ImmediateReadIff(p: Limits, broken: bool, left: nat)
    requires 0 < p.maxSegment
    ensures Usable(StatusOf(ImmediateLen(p), Min(ImmediateLen(p), left), broken))
      <==> ImmediateCanBeRead(p, broken, left)
  {
  }

  lemma OpeningCases(p: Limits, data: bytes, broken: bool, itt: u32, pos: nat, n: nat)
    requires pos <= |data| && n == Min(ImmediateLen(p), |data| - pos)
    ensures var o, status := OpeningOf(p, data, broken, itt, pos), StatusOf(ImmediateLen(p), n, broken);
      if !Usable(status) then o.bytesSent == 0 && o.error == Some(ReadFailed(status))
      else if n > MAX_SEGMENT then o.bytesSent == n && o.error == Some(SegmentTooLong)
      else o == AfterImmediate(p, data, broken, itt, pos + n, n)
  {
  }

  /** Exactly when opening a write succeeds, told from the limits and what the source has left. */
  lemma OpeningSucceedsIff(p: Limits, data: bytes, broken: bool, itt: u32, pos: nat)
    requires pos <= |data| && 0 < p.maxSegment <= MAX_SEGMENT
    ensures OpeningOf(p, data, broken, itt, pos).error == None
      <==> ImmediateCanBeRead(p, broken, |data| - pos) && BurstCanBeFilled(p, broken, |data| - pos)
  {
    var left := |data| - pos;
    var n := Min(ImmediateLen(p), left);
    OpeningCases(p, data, broken, itt, pos, n);
    ImmediateReadIff(p, broken, left);
    if ImmediateCanBeRead(p, broken, left) {
      RestSucceedsIff(p, data, broken, itt, pos, n);
      RestConditionIff(p, broken, left, n);
    }
  }

  /**
   * With both ImmediateData and unsolicited data in force, a write that fits in the
   * command alone cannot be submitted: the unsolicited burst finds the source empty.
   */
  lemma SmallUnsolicitedWritesFail(data: bytes, itt: u32)
    requires 0 < |data| <= 8192
    ensures var p := Limits(true, false, 65536, 262144, 8192);
      OpeningOf(p, data, false, itt, 0).error == Some(ReadFailed(Eof))
      && OpeningOf(p.(initialR2T := true), data, false, itt, 0).error == None
  {
  }

  // ---- Answering R2Ts ------------------------------------------------------------------

  datatype Served = Served(wire: seq<DataOutPdu>, pos: nat, error: Option<WriteError>)

  /** The R2Ts of a task in order. The first that fails ends the task. */
  function ServingOf(p: Limits, data: bytes, broken: bool, itt: u32, pos: nat, r2ts: seq<R2T>): (s: Served)
    requires pos <= |data|
    ensures s.pos <= |data|
    decreases |r2ts|
  {
    if r2ts == [] then Served([], pos, None)
    else
      var j := SolicitedJob(p, data, broken, itt, r2ts[0]);
      var e := EndOf(j, |data| - pos);
      if e.error != None then Served(Burst(j, pos), pos + e.taken, e.error)
      else
        var rest := ServingOf(p, data, broken, itt, pos + e.taken, r2ts[1..]);
        Served(Burst(j, pos) + rest.wire, rest.pos, rest.error)
  }

  /** The reference, one R2T at a time. */
  lemma ServingStops(p: Limits, data: bytes, broken: bool, itt: u32, pos: nat, r2ts: seq<R2T>,
                     burst: seq<DataOutPdu>, e: Ending)
    requires pos <= |data| && r2ts != [] && e.error != None
    requires burst == Burst(SolicitedJob(p, data, broken, itt, r2ts[0]), pos)
    requires e == EndOf(SolicitedJob(p, data, broken, itt, r2ts[0]), |data| - pos)
    ensures ServingOf(p, data, broken, itt, pos, r2ts) == Served(burst, pos + e.taken, e.error)
  {
  }

  lemma ServingGoesOn(p: Limits, data: bytes, broken: bool, itt: u32, pos: nat, r2ts: seq<R2T>,
                      burst: seq<DataOutPdu>, e: Ending, next: nat, rest: Served)
    requires pos <= |data| && r2ts != [] && e.error == None && next == pos + e.taken <= |data|
    requires burst == Burst(SolicitedJob(p, data, broken, itt, r2ts[0]), pos)
    requires e == EndOf(SolicitedJob(p, data, broken, itt, r2ts[0]), |data| - pos)
    requires rest == ServingOf(p, data, broken, itt, next, r2ts[1..])
    ensures ServingOf(p, data, broken, itt, pos, r2ts) == Served(burst + rest.wire, rest.pos, rest.error)
  {
    var s := ServingOf(p, data, broken, itt, pos, r2ts);
    assert s.wire == burst + rest.wire && s.pos == rest.pos && s.error == rest.error;
  }

  /** What is served behind some PDUs. */
  function Following(out: seq<DataOutPdu>, rest: Served): Served {
    Served(out + rest.wire, rest.pos, rest.error)
  }

  /** The R2Ts answered so far have put out `out`; those still to come complete the reference `s`. */
  ghost predicate Answering(p: Limits, data: bytes, broken: bool, itt: u32, pos: nat, r2ts: seq<R2T>,
                            out: seq<DataOutPdu>, s: Served)
  {
    pos <= |data| && s == Following(out, ServingOf(p, data, broken, itt, pos, r2ts))
  }

  lemma AnsweringMovesOn(p: Limits, data: bytes, broken: bool, itt: u32, pos: nat, r2ts: seq<R2T>,
                         out: seq<DataOutPdu>, s: Served, burst: seq<DataOutPdu>, pos': nat, error: Option<WriteError>)
    requires r2ts != [] && Answering(p, data, broken, itt, pos, r2ts, out, s)
    requires burst == Burst(SolicitedJob(p, data, broken, itt, r2ts[0]), pos)
    requires var e := EndOf(SolicitedJob(p, data, broken, itt, r2ts[0]), |data| - pos);
      pos' == pos + e.taken && error == e.error
    ensures error == None ==> Answering(p, data, broken, itt, pos', r2ts[1..], out + burst, s)
    ensures error != None ==> s == Served(out + burst, pos', error)
  {
    var e := EndOf(SolicitedJob(p, data, broken, itt, r2ts[0]), |data| - pos);
    if error == None {
      var rest := ServingOf(p, data, broken, itt, pos', r2ts[1..]);
      ServingGoesOn(p, data, broken, itt, pos, r2ts, burst, e, pos', rest);
      Assoc(out, burst, rest.wire);
    } else {
      ServingStops(p, data, broken, itt, pos, r2ts, burst, e);
    }
  }

  lemma AnsweringEnds(p: Limits, data: bytes, broken: bool, itt: u32, pos: nat, out: seq<DataOutPdu>, s: Served)
    requires Answering(p, data, broken, itt, pos, [], out, s)
    ensures s == Served(out, pos, None)
  {
    assert out + [] == out;
  }

  /** The next R2T of the task; `todo` are those not answered yet. */
  method ServeNext(t: WriteTask, p: Limits, r2t: R2T, ghost todo: seq<R2T>, ghost out: seq<DataOutPdu>, ghost s: Served)
    returns (error: Option<WriteError>, ghost burst: seq<DataOutPdu>)
    requires t.source.Valid() && todo != [] && todo[0] == r2t
    requires Answering(p, t.source.data, t.source.broken, t.itt, t.source.pos, todo, out, s)
    modifies t`wire, t.source
    ensures t.source.Valid() && t.wire == old(t.wire) + burst
    ensures error == None ==>
      Answering(p, t.source.data, t.source.broken, t.itt, t.source.pos, todo[1..], out + burst, s)
    ensures error != None ==> s == Served(out + burst, t.source.pos, error)
  {
    ghost var pos := t.source.pos;
    burst := Burst(SolicitedJob(p, t.source.data, t.source.broken, t.itt, r2t), pos);
    error := t.HandleR2T(r2t, p);
    AnsweringMovesOn(p, t.source.data, t.source.broken, t.itt, pos, todo, out, s, burst, t.source.pos, error);
  }

  method ServeThrough(t: WriteTask, p: Limits, r2ts: seq<R2T>, ghost s: Served) returns (error: Option<WriteError>)
    requires t.source.Valid()
    requires Answering(p, t.source.data, t.source.broken, t.itt, t.source.pos, r2ts, [], s)
    modifies t`wire, t.source
    ensures t.source.Valid()
    ensures t.wire == old(t.wire) + s.wire && t.source.pos == s.pos && error == s.error
  {
    error := None;
    ghost var out, todo := [], r2ts;
    var k := 0;
    while k < |r2ts|
      invariant k <= |r2ts| && todo == r2ts[k..] && t.source.Valid() && error == None
      invariant t.wire == old(t.wire) + out
      invariant Answering(p, t.source.data, t.source.broken, t.itt, t.source.pos, todo, out, s)
    {
      ghost var burst;
      error, burst := ServeNext(t, p, r2ts[k], todo, out, s);
      Assoc(old(t.wire), out, burst);
      out := out + burst;
      if error != None {
        return;
      }
      k, todo := k + 1, todo[1..];
    }
    AnsweringEnds(p, t.source.data, t.source.broken, t.itt, t.source.pos, out, s);
  }

  /** The R2T part of the task loop. */
  method Serve(t: WriteTask, p: Limits, r2ts: seq<R2T>) returns (error: Option<WriteError>)
    requires t.source.Valid()
    modifies t`wire, t.source
    ensures t.source.Valid()
    ensures var s := ServingOf(p, t.source.data, t.source.broken, t.itt, old(t.source.pos), r2ts);
      t.wire == old(t.wire) + s.wire && t.source.pos == s.pos && error == s.error
  {
    ghost var s := ServingOf(p, t.source.data, t.source.broken, t.itt, t.source.pos, r2ts);
    assert [] + s.wire == s.wire;
    error := ServeThrough(t, p, r2ts, s);
  }

  // ---- The target's side ------------------------------------------------------------------

  function PlaceAt(buf: bytes, off: nat, data: bytes): (r: bytes)
    ensures |r| == |buf|
  {
    if off + |data| <= |buf| then buf[..off] + data + buf[off + |data|..] else buf
  }

  function Reassemble(buf: bytes, pdus: seq<DataOutPdu>): (r: bytes)
    ensures |r| == |buf|
    decreases |pdus|
  {
    if pdus == [] then buf else Reassemble(PlaceAt(buf, pdus[0].bufferOffset, pdus[0].data), pdus[1..])
  }

  lemma PlacedParts(buf: bytes, start: nat, d: bytes, rest: bytes)
    requires start + |d + rest| <= |buf|
    ensures var placed := PlaceAt(buf, start, d);
      placed[..start + |d|] + rest + placed[start + |d| + |rest|..]
      == buf[..start] + (d + rest) + buf[start + |d + rest|..]
  {
    var placed := PlaceAt(buf, start, d);
    assert placed[..start + |d|] == buf[..start] + d;
    assert placed[start + |d| + |rest|..] == buf[start + |d + rest|..];
  }

  /** PDUs that lie end to end leave their payloads, end to end, in the buffer. */
  lemma {:induction false} TilingFills(buf: bytes, pdus: seq<DataOutPdu>, start: nat, payload: bytes)
    requires TilesFrom(pdus, start) && payload == PayloadOf(pdus) && start + |payload| <= |buf|
    ensures Reassemble(buf, pdus) == buf[..start] + payload + buf[start + |payload|..]
    decreases |pdus|
  {
    if pdus == [] {
      assert buf[..start] + [] + buf[start..] == buf;
    } else {
      var d, rest := pdus[0].data, PayloadOf(pdus[1..]);
      TilingFills(PlaceAt(buf, start, d), pdus[1..], start + |d|, rest);
      PlacedParts(buf, start, d, rest);
    }
  }

  lemma {:induction false} TilesConcat(a: seq<DataOutPdu>, b: seq<DataOutPdu>, start: nat)
    requires TilesFrom(a, start) && TilesFrom(b, start + |PayloadOf(a)|)
    ensures TilesFrom(a + b, start) && PayloadOf(a + b) == PayloadOf(a) + PayloadOf(b)
    decreases |a|
  {
    if a == [] {
      assert a + b == b;
    } else {
      assert (a + b)[1..] == a[1..] + b;
      TilesConcat(a[1..], b, start + |a[0].data|);
    }
  }

  /** A target that asks for the bytes from..end in order, within MaxBurstLength. */
  ghost predicate AskInOrder(p: Limits, r2ts: seq<R2T>, from: nat, end: nat)
    decreases |r2ts|
  {
    if r2ts == [] then from == end
    else
      && r2ts[0].bufferOffset == from && r2ts[0].desired <= p.maxBurst
      && AskInOrder(p, r2ts[1..], from + r2ts[0].desired, end)
  }

  lemma {:induction false} AskForward(p: Limits, r2ts: seq<R2T>, from: nat, end: nat)
    requires AskInOrder(p, r2ts, from, end)
    ensures from <= end
    decreases |r2ts|
  {
    if r2ts != [] {
      AskForward(p, r2ts[1..], from + r2ts[0].desired, end);
    }
  }

  /** A burst that the source can fill is sent whole. */
  lemma WholeBurst(j: Job, pos: nat)
    requires pos + j.burstLen <= |j.data| < TWO32 && 0 < j.maxSegment <= MAX_SEGMENT && j.offset == pos
    ensures EndOf(j, |j.data| - pos) == Ending(j.burstLen, j.burstLen, None)
    ensures Carries(Burst(j, pos), j.data, pos, pos + j.burstLen)
  {
    BurstIsWellFormed(j, pos);
  }

  /** The PDUs lie end to end from `from` on and hold the source's bytes from..end. */
  ghost predicate Carries(pdus: seq<DataOutPdu>, data: bytes, from: nat, end: nat) {
    from <= end <= |data| && TilesFrom(pdus, from) && PayloadOf(pdus) == data[from..end]
  }

  lemma CarriesConcat(a: seq<DataOutPdu>, b: seq<DataOutPdu>, data: bytes, from: nat, mid: nat, end: nat)
    requires Carries(a, data, from, mid) && Carries(b, data, mid, end)
    ensures Carries(a + b, data, from, end)
  {
    TilesConcat(a, b, from);
    assert data[from..mid] + data[mid..end] == data[from..end];
  }

  /** All of pos..end goes out and nothing else. */
  ghost predicate ServedWhole(s: Served, data: bytes, pos: nat, end: nat) {
    s.error == None && s.pos == end && Carries(s.wire, data, pos, end)
  }

  lemma ServedJoin(burst: seq<DataOutPdu>, rest: Served, data: bytes, pos: nat, next: nat, end: nat)
    requires Carries(burst, data, pos, next) && ServedWhole(rest, data, next, end)
    ensures ServedWhole(Following(burst, rest), data, pos, end)
  {
    CarriesConcat(burst, rest.wire, data, pos, next, end);
  }

  /** An R2T for the source's next bytes is answered with them. */
  lemma SolicitedCarries(p: Limits, data: bytes, broken: bool, itt: u32, pos: nat, r: R2T)
    returns (burst: seq<DataOutPdu>)
    requires pos + r.desired <= |data| < TWO32 && 0 < p.maxSegment <= MAX_SEGMENT
    requires r.bufferOffset == pos && r.desired <= p.maxBurst
    ensures burst == Burst(SolicitedJob(p, data, broken, itt, r), pos) && Carries(burst, data, pos, pos + r.desired)
  {
    burst := Burst(SolicitedJob(p, data, broken, itt, r), pos);
    WholeBurst(SolicitedJob(p, data, broken, itt, r), pos);
  }

  lemma {:induction false} ServedTile(p: Limits, data: bytes, broken: bool, itt: u32, pos: nat, end: nat,
                                      r2ts: seq<R2T>)
    requires pos <= end <= |data| < TWO32 && 0 < p.maxSegment <= MAX_SEGMENT
    requires AskInOrder(p, r2ts, pos, end)
    ensures ServedWhole(ServingOf(p, data, broken, itt, pos, r2ts), data, pos, end)
    decreases |r2ts|
  {
    if r2ts != [] {
      var next := pos + r2ts[0].desired;
      AskForward(p, r2ts[1..], next, end);
      ServedTile(p, data, broken, itt, next, end, r2ts[1..]);
      var burst := SolicitedCarries(p, data, broken, itt, pos, r2ts[0]);
      var rest := ServingOf(p, data, broken, itt, next, r2ts[1..]);
      ServingFirst(p, data, broken, itt, pos, r2ts, burst, rest);
      ServedJoin(burst, rest, data, pos, next, end);
    }
  }

  lemma RestTiles(p: Limits, data: bytes, broken: bool, itt: u32, n: nat, o: Opened)
    requires n <= |data| < TWO32 && n <= p.firstBurst && n <= MAX_SEGMENT && 0 < p.maxSegment <= MAX_SEGMENT
    requires o == AfterImmediate(p, data, broken, itt, n, n) && o.error == None
    ensures o.command == Some(data[..n]) && o.taken == o.bytesSent && Carries(o.burst, data, n, o.bytesSent)
  {
    if p.initialR2T {
      assert data[n..n] == [];
    } else {
      BurstIsWellFormed(UnsolicitedJob(p, data, broken, itt, n), n);
    }
  }

  /** A successful opening sends the source's first bytes, end to end. */
  lemma OpeningTiles(p: Limits, data: bytes, broken: bool, itt: u32, o: Opened)
    requires |data| < TWO32 && 0 < p.maxSegment <= MAX_SEGMENT
    requires o == OpeningOf(p, data, broken, itt, 0) && o.error == None
    ensures o.command.Some? && o.taken == o.bytesSent <= |data| && |o.command.value| <= o.bytesSent
    ensures o.command.value == data[..|o.command.value|]
    ensures Carries(o.burst, data, |o.command.value|, o.bytesSent)
  {
    RestTiles(p, data, broken, itt, Min(ImmediateLen(p), |data|), o);
  }

  lemma CarriedFills(buf: bytes, pdus: seq<DataOutPdu>, data: bytes, n: nat)
    requires |buf| == |data| && Carries(pdus, data, n, |data|)
    ensures Reassemble(PlaceAt(buf, 0, data[..n]), pdus) == data
  {
    var placed := PlaceAt(buf, 0, data[..n]);
    TilingFills(placed, pdus, n, data[n..]);
    assert placed[..n] == data[..n];
    assert data[..n] + data[n..] + [] == data;
  }

  /**
   * End to end: if the opening succeeds and the target then asks for the rest in order,
   * every burst succeeds, and the buffer the target puts together from the immediate data
   * and the BufferOffsets is the source, whatever it held before. No byte is sent twice:
   * immediate, unsolicited and solicited data lie end to end.
   */
  lemma WriteReachesTarget(p: Limits, data: bytes, broken: bool, itt: u32, r2ts: seq<R2T>, buf: bytes, o: Opened)
    requires |data| < TWO32 && |buf| == |data| && 0 < p.maxSegment <= MAX_SEGMENT
    requires o == OpeningOf(p, data, broken, itt, 0) && o.error == None
    requires AskInOrder(p, r2ts, o.bytesSent, |data|)
    ensures o.command.Some? && o.taken == o.bytesSent <= |data|
    ensures var s := ServingOf(p, data, broken, itt, o.taken, r2ts);
      && s.error == None
      && TilesFrom(o.burst + s.wire, |o.command.value|)
      && Reassemble(PlaceAt(buf, 0, o.command.value), o.burst + s.wire) == data
  {
    OpeningTiles(p, data, broken, itt, o);
    ServedTile(p, data, broken, itt, o.bytesSent, |data|, r2ts);
    var n, s := |o.command.value|, ServingOf(p, data, broken, itt, o.taken, r2ts);
    CarriesConcat(o.burst, s.wire, data, n, o.bytesSent, |data|);
    CarriedFills(buf, o.burst + s.wire, data, n);
  }

  lemma TiledRegion(buf: bytes, pdus: seq<DataOutPdu>, start: nat, data: bytes, pos: nat, n: nat)
    requires pos + n <= |data| && start + n <= |buf|
    requires TilesFrom(pdus, start) && PayloadOf(pdus) == data[pos..pos + n]
    ensures Reassemble(buf, pdus)[start..start + n] == data[pos..pos + n]
  {
    TilingFills(buf, pdus, start, PayloadOf(pdus));
  }

  lemma BurstTiles(j: Job, pos: nat, n: nat)
    requires pos <= |j.data| && 0 < j.maxSegment && j.offset + j.burstLen <= TWO32
    requires n == EndOf(j, |j.data| - pos).sent
    ensures TilesFrom(Burst(j, pos), j.offset) && PayloadOf(Burst(j, pos)) == j.data[pos..pos + n]
  {
    BurstIsWellFormed(j, pos);
  }

  /**
   * The answer to an R2T does not depend on the offset it asks for: whatever that is, the
   * target finds there the source's next bytes.
   */
  lemma AnswerIgnoresOffset(j: Job, pos: nat, buf: bytes, n: nat)
    requires pos <= |j.data| && 0 < j.maxSegment && j.offset + j.burstLen <= |buf| == |j.data| < TWO32
    requires n == EndOf(j, |j.data| - pos).sent
    ensures Reassemble(buf, Burst(j, pos))[j.offset..j.offset + n] == j.data[pos..pos + n]
  {
    BurstTiles(j, pos, n);
    TiledRegion(buf, Burst(j, pos), j.offset, j.data, pos, n);
  }

  // ---- When the answers are right ---------------------------------------------------------------

  lemma AnswerIsWhole(j: Job, left: nat)
    requires 0 < j.maxSegment <= MAX_SEGMENT && j.burstLen <= left
    ensures EndOf(j, left) == Ending(j.burstLen, j.burstLen, None)
  {
  }

  /** All zeros but for a one at x. */
  function OneAt(n: nat, x: nat): (s: bytes)
    ensures |s| == n && forall i | 0 <= i < n :: s[i] == if i == x then 1 else 0
  {
    seq(n, i => if i == x then 1 else 0)
  }

  /** The target finds, where it asked for the source's bytes, those bytes. */
  ghost predicate AnswerIsRight(p: Limits, data: bytes, broken: bool, itt: u32, pos: nat, r: R2T, buf: bytes)
    requires pos <= |data| == |buf| && r.bufferOffset + r.desired <= |data|
  {
    var off, end := r.bufferOffset, r.bufferOffset + r.desired;
    Reassemble(buf, Burst(SolicitedJob(p, data, broken, itt, r), pos))[off..end] == data[off..end]
  }

  lemma AnswerHolds(p: Limits, data: bytes, broken: bool, itt: u32, pos: nat, r: R2T, buf: bytes)
    requires |data| == |buf| < TWO32 && 0 < p.maxSegment <= MAX_SEGMENT && r.desired <= p.maxBurst
    requires pos + r.desired <= |data| && r.bufferOffset + r.desired <= |data|
    ensures AnswerIsRight(p, data, broken, itt, pos, r, buf)
      <==> data[pos..pos + r.desired] == data[r.bufferOffset..r.bufferOffset + r.desired]
  {
    var e := SolicitedIsWhole(p, data, broken, itt, pos, r);
    AnswerIgnoresOffset(SolicitedJob(p, data, broken, itt, r), pos, buf, r.desired);
  }

  /**
   * One R2T within the data and MaxBurstLength: its answer carries the bytes asked for,
   * whatever the source holds and the target's buffer held, if and only if it asks for the
   * source's next bytes.
   */
  lemma AnswerIsRightIff(p: Limits, n: nat, broken: bool, itt: u32, pos: nat, r: R2T)
    requires n < TWO32 && 0 < p.maxSegment <= MAX_SEGMENT && 0 < r.desired <= p.maxBurst
    requires pos + r.desired <= n && r.bufferOffset + r.desired <= n
    ensures (forall data, buf | |data| == |buf| == n :: AnswerIsRight(p, data, broken, itt, pos, r, buf))
      <==> r.bufferOffset == pos
  {
    if r.bufferOffset == pos {
      forall data, buf | |data| == |buf| == n ensures AnswerIsRight(p, data, broken, itt, pos, r, buf) {
        AnswerHolds(p, data, broken, itt, pos, r, buf);
      }
    } else {
      var data, off := OneAt(n, pos), r.bufferOffset;
      AnswerHolds(p, data, broken, itt, pos, r, data);
      assert data[pos..pos + r.desired][0] == 1 && data[off..off + r.desired][0] == 0;
      assert !AnswerIsRight(p, data, broken, itt, pos, r, data);
    }
  }

  /** R2Ts that each ask for something within the data and MaxBurstLength, and together for no more than is left. */
  ghost predicate WithinData(p: Limits, r2ts: seq<R2T>, pos: nat, n: nat)
    decreases |r2ts|
  {
    if r2ts == [] then pos <= n
    else
      && 0 < r2ts[0].desired <= p.maxBurst && r2ts[0].bufferOffset + r2ts[0].desired <= n
      && WithinData(p, r2ts[1..], pos + r2ts[0].desired, n)
  }

  lemma {:induction false} WithinForward(p: Limits, r2ts: seq<R2T>, pos: nat, n: nat)
    requires WithinData(p, r2ts, pos, n)
    ensures pos <= n
    decreases |r2ts|
  {
    if r2ts != [] {
      WithinForward(p, r2ts[1..], pos + r2ts[0].desired, n);
    }
  }

  /** No R2T gets the source's byte x for the place x. */
  ghost predicate Misses(r2ts: seq<R2T>, pos: nat, x: nat)
    decreases |r2ts|
  {
    r2ts == []
    || (!(r2ts[0].bufferOffset == pos && pos <= x < pos + r2ts[0].desired)
        && Misses(r2ts[1..], pos + r2ts[0].desired, x))
  }

  lemma {:induction false} MissesBehind(r2ts: seq<R2T>, pos: nat, x: nat)
    requires x < pos
    ensures Misses(r2ts, pos, x)
    decreases |r2ts|
  {
    if r2ts != [] {
      MissesBehind(r2ts[1..], pos + r2ts[0].desired, x);
    }
  }

  /** If they do not ask for all that is left in order, some byte is missed. */
  lemma {:induction false} DisorderMisses(p: Limits, r2ts: seq<R2T>, pos: nat, n: nat) returns (x: nat)
    requires WithinData(p, r2ts, pos, n) && !AskInOrder(p, r2ts, pos, n)
    ensures pos <= x < n && Misses(r2ts, pos, x)
    decreases |r2ts|
  {
    if r2ts == [] {
      x := pos;
    } else if r2ts[0].bufferOffset != pos {
      x := pos;
      WithinForward(p, r2ts[1..], pos + r2ts[0].desired, n);
      MissesBehind(r2ts[1..], pos + r2ts[0].desired, x);
    } else {
      x := DisorderMisses(p, r2ts[1..], pos + r2ts[0].desired, n);
    }
  }

  lemma {:induction false} ReassembleConcat(buf: bytes, a: seq<DataOutPdu>, b: seq<DataOutPdu>)
    ensures Reassemble(buf, a + b) == Reassemble(Reassemble(buf, a), b)
    decreases |a|
  {
    if a == [] {
      assert a + b == b;
    } else {
      assert (a + b)[1..] == a[1..] + b;
      ReassembleConcat(PlaceAt(buf, a[0].bufferOffset, a[0].data), a[1..], b);
    }
  }

  /** A stretch of the source put into the buffer leaves a zero at x, unless it has the source's x for it. */
  lemma StretchMisses(data: bytes, buf: bytes, pos: nat, off: nat, d: nat, x: nat)
    requires |data| == |buf| && pos + d <= |data| && off + d <= |data| && x < |data|
    requires data == OneAt(|data|, x) && buf[x] == 0 && !(off == pos && pos <= x < pos + d)
    ensures (buf[..off] + data[pos..pos + d] + buf[off + d..])[x] == 0
  {
  }

  /** The first R2T is answered whole, and leaves a zero at a byte that it misses. */
  lemma AnswerMisses(p: Limits, data: bytes, broken: bool, itt: u32, pos: nat, r: R2T, buf: bytes, x: nat)
    requires |data| == |buf| < TWO32 && 0 < p.maxSegment <= MAX_SEGMENT && r.desired <= p.maxBurst
    requires pos + r.desired <= |data| && r.bufferOffset + r.desired <= |data|
    requires x < |data| && data == OneAt(|data|, x) && buf[x] == 0
    requires !(r.bufferOffset == pos && pos <= x < pos + r.desired)
    ensures Reassemble(buf, Burst(SolicitedJob(p, data, broken, itt, r), pos))[x] == 0
  {
    var j, off, d := SolicitedJob(p, data, broken, itt, r), r.bufferOffset, r.desired;
    AnswerIsWhole(j, |data| - pos);
    BurstTiles(j, pos, d);
    TilingFills(buf, Burst(j, pos), off, data[pos..pos + d]);
    StretchMisses(data, buf, pos, off, d, x);
  }

  lemma {:induction false} ServedMisses(p: Limits, data: bytes, broken: bool, itt: u32, pos: nat, r2ts: seq<R2T>,
                                        buf: bytes, x: nat)
    requires |data| == |buf| < TWO32 && 0 < p.maxSegment <= MAX_SEGMENT && WithinData(p, r2ts, pos, |data|)
    requires x < |data| && data == OneAt(|data|, x) && buf[x] == 0 && Misses(r2ts, pos, x)
    requires pos <= |data|
    ensures Reassemble(buf, ServingOf(p, data, broken, itt, pos, r2ts).wire)[x] == 0
    decreases |r2ts|
  {
    if r2ts != [] {
      var r, next := r2ts[0], pos + r2ts[0].desired;
      WithinForward(p, r2ts[1..], next, |data|);
      AnswerMisses(p, data, broken, itt, pos, r, buf, x);
      var burst := Burst(SolicitedJob(p, data, broken, itt, r), pos);
      ServedMisses(p, data, broken, itt, next, r2ts[1..], Reassemble(buf, burst), x);
      var rest := ServingOf(p, data, broken, itt, next, r2ts[1..]);
      ServingFirst(p, data, broken, itt, pos, r2ts, burst, rest);
      ReassembleConcat(buf, burst, rest.wire);
    }
  }

  lemma ServingFirst(p: Limits, data: bytes, broken: bool, itt: u32, pos: nat, r2ts: seq<R2T>, burst: seq<DataOutPdu>,
                     rest: Served)
    requires r2ts != [] && r2ts[0].desired <= p.maxBurst && pos + r2ts[0].desired <= |data|
    requires 0 < p.maxSegment <= MAX_SEGMENT
    requires burst == Burst(SolicitedJob(p, data, broken, itt, r2ts[0]), pos)
    requires rest == ServingOf(p, data, broken, itt, pos + r2ts[0].desired, r2ts[1..])
    ensures ServingOf(p, data, broken, itt, pos, r2ts) == Following(burst, rest)
  {
    var e := SolicitedIsWhole(p, data, broken, itt, pos, r2ts[0]);
    ServingGoesOn(p, data, broken, itt, pos, r2ts, burst, e, pos + r2ts[0].desired, rest);
  }

  lemma SolicitedIsWhole(p: Limits, data: bytes, broken: bool, itt: u32, pos: nat, r: R2T) returns (e: Ending)
    requires r.desired <= p.maxBurst && pos + r.desired <= |data| && 0 < p.maxSegment <= MAX_SEGMENT
    ensures e == EndOf(SolicitedJob(p, data, broken, itt, r), |data| - pos)
    ensures e == Ending(r.desired, r.desired, None)
  {
    e := Ending(r.desired, r.desired, None);
    AnswerIsWhole(SolicitedJob(p, data, broken, itt, r), |data| - pos);
  }

  lemma EndHasNoContents(j: Job, data: bytes, left: nat)
    ensures EndOf(j.(data := data), left) == EndOf(j, left)
  {
  }

  lemma RestLength(p: Limits, data: bytes, data': bytes, broken: bool, itt: u32, pos: nat, n: nat)
    requires |data| == |data'| && n <= pos <= |data| && n <= MAX_SEGMENT
    ensures var o, o' := AfterImmediate(p, data, broken, itt, pos, n), AfterImmediate(p, data', broken, itt, pos, n);
      o.bytesSent == o'.bytesSent && o.error == o'.error
  {
    if !p.initialR2T {
      var j := UnsolicitedJob(p, data, broken, itt, n);
      assert UnsolicitedJob(p, data', broken, itt, n) == j.(data := data');
      EndHasNoContents(j, data', |data| - pos);
    }
  }

  /** How many bytes an opening sends, and how it ends, depends on the source's length alone. */
  lemma OpeningLength(p: Limits, data: bytes, data': bytes, broken: bool, itt: u32, pos: nat)
    requires |data| == |data'| && pos <= |data|
    ensures OpeningOf(p, data, broken, itt, pos).bytesSent == OpeningOf(p, data', broken, itt, pos).bytesSent
    ensures OpeningOf(p, data, broken, itt, pos).error == OpeningOf(p, data', broken, itt, pos).error
  {
    var n := Min(ImmediateLen(p), |data| - pos);
    OpeningCases(p, data, broken, itt, pos, n);
    OpeningCases(p, data', broken, itt, pos, n);
    if Usable(StatusOf(ImmediateLen(p), n, broken)) && n <= MAX_SEGMENT {
      RestLength(p, data, data', broken, itt, pos + n, n);
    }
  }

  /** The whole write leaves the source in the target's buffer. */
  ghost predicate WriteIsRight(p: Limits, data: bytes, broken: bool, itt: u32, r2ts: seq<R2T>, buf: bytes)
    requires |data| == |buf|
  {
    var o := OpeningOf(p, data, broken, itt, 0);
    && o.command.Some? && o.taken <= |data|
    && var s := ServingOf(p, data, broken, itt, o.taken, r2ts);
      Reassemble(PlaceAt(buf, 0, o.command.value), o.burst + s.wire) == data
  }

  lemma CarriedMisses(buf: bytes, pdus: seq<DataOutPdu>, data: bytes, from: nat, end: nat, x: nat)
    requires |buf| == |data| && Carries(pdus, data, from, end) && end <= x < |data|
    ensures Reassemble(buf, pdus)[x] == buf[x]
  {
    TilingFills(buf, pdus, from, data[from..end]);
  }

  lemma PlacedMisses(buf: bytes, d: bytes, x: nat)
    requires |d| <= x < |buf|
    ensures PlaceAt(buf, 0, d)[x] == buf[x]
  {
  }

  /** Bytes that the opening did not send are still what they were. */
  lemma OpeningMisses(p: Limits, data: bytes, broken: bool, itt: u32, buf: bytes, x: nat, o: Opened)
    requires |data| == |buf| < TWO32 && 0 < p.maxSegment <= MAX_SEGMENT
    requires o == OpeningOf(p, data, broken, itt, 0) && o.error == None && o.bytesSent <= x < |data|
    ensures o.command.Some? && Reassemble(PlaceAt(buf, 0, o.command.value), o.burst)[x] == buf[x]
  {
    OpeningTiles(p, data, broken, itt, o);
    PlacedMisses(buf, o.command.value, x);
    CarriedMisses(PlaceAt(buf, 0, o.command.value), o.burst, data, |o.command.value|, o.bytesSent, x);
  }

  lemma DisorderlyWriteFails(p: Limits, n: nat, broken: bool, itt: u32, r2ts: seq<R2T>, o: Opened)
    requires n < TWO32 && 0 < p.maxSegment <= MAX_SEGMENT
    requires o == OpeningOf(p, Zeros(n), broken, itt, 0) && o.error == None
    requires WithinData(p, r2ts, o.bytesSent, n) && !AskInOrder(p, r2ts, o.bytesSent, n)
    ensures exists data, buf | |data| == |buf| == n :: !WriteIsRight(p, data, broken, itt, r2ts, buf)
  {
    var x := DisorderMisses(p, r2ts, o.bytesSent, n);
    var data, buf := OneAt(n, x), Zeros(n);
    OpeningLength(p, Zeros(n), data, broken, itt, 0);
    var o' := OpeningOf(p, data, broken, itt, 0);
    OpeningTiles(p, data, broken, itt, o');
    OpeningMisses(p, data, broken, itt, buf, x, o');
    var begun := Reassemble(PlaceAt(buf, 0, o'.command.value), o'.burst);
    ServedMisses(p, data, broken, itt, o'.taken, r2ts, begun, x);
    ReassembleConcat(PlaceAt(buf, 0, o'.command.value), o'.burst, ServingOf(p, data, broken, itt, o'.taken, r2ts).wire);
    assert data[x] == 1;
    assert !WriteIsRight(p, data, broken, itt, r2ts, buf);
  }

  /**
   * A write of n bytes that can be opened, and any R2Ts within the data and MaxBurstLength:
   * the target gets the source, whatever that is and its buffer held, if and only if the
   * R2Ts ask for the rest of it in order.
   */
  lemma WriteIsRightIff(p: Limits, n: nat, broken: bool, itt: u32, r2ts: seq<R2T>, o: Opened)
    requires n < TWO32 && 0 < p.maxSegment <= MAX_SEGMENT
    requires o == OpeningOf(p, Zeros(n), broken, itt, 0) && o.error == None
    requires WithinData(p, r2ts, o.bytesSent, n)
    ensures (forall data, buf | |data| == |buf| == n :: WriteIsRight(p, data, broken, itt, r2ts, buf))
      <==> AskInOrder(p, r2ts, o.bytesSent, n)
  {
    if AskInOrder(p, r2ts, o.bytesSent, n) {
      forall data, buf | |data| == |buf| == n ensures WriteIsRight(p, data, broken, itt, r2ts, buf) {
        OpeningLength(p, Zeros(n), data, broken, itt, 0);
        WriteReachesTarget(p, data, broken, itt, r2ts, buf, OpeningOf(p, data, broken, itt, 0));
      }
    } else {
      DisorderlyWriteFails(p, n, broken, itt, r2ts, o);
    }
  }

  /** So a target that asks out of order gets the halves of a write exchanged. */
  lemma OutOfOrderR2TsExchangeData(p: Limits, itt: u32, buf: bytes)
    requires 2 <= p.maxBurst && 2 == p.maxSegment && |buf| == 4
    ensures var s := ServingOf(p, [1, 2, 3, 4], false, itt, 0, [R2T(7, 2, 2), R2T(8, 0, 2)]);
      s.error == None && Reassemble(buf, s.wire) == [3, 4, 1, 2]
  {
    var data: bytes := [1, 2, 3, 4];
    var first, second := R2T(7, 2, 2), R2T(8, 0, 2);
    var a, b := DataOutPdu(itt, 7, 0, 2, true, [1, 2]), DataOutPdu(itt, 8, 0, 0, true, [3, 4]);
    assert data[0..2] == [1, 2] && data[2..4] == [3, 4];
    assert Burst(SolicitedJob(p, data, false, itt, first), 0) == [a];
    assert Burst(SolicitedJob(p, data, false, itt, second), 2) == [b];
    ServingFirst(p, data, false, itt, 2, [second], [b], Served([], 4, None));
    ServingFirst(p, data, false, itt, 0, [first, second], [a], Following([b], Served([], 4, None)));
    HalvesExchanged(buf, a, b);
  }

  lemma HalvesExchanged(buf: bytes, a: DataOutPdu, b: DataOutPdu)
    requires |buf| == 4 && a.bufferOffset == 2 && a.data == [1, 2] && b.bufferOffset == 0 && b.data == [3, 4]
    ensures Reassemble(buf, [a] + ([b] + [])) == [3, 4, 1, 2]
  {
    var placed := PlaceAt(buf, 2, [1, 2]);
    assert placed[2..] == [1, 2];
    assert PlaceAt(placed, 0, [3, 4]) == [3, 4] + placed[2..];
    assert [b] + [] == [b] && ([a] + [b])[1..] == [b] && [b][1..] == [];
    assert Reassemble(placed, [b]) == [3, 4] + [1, 2];
  }
}
