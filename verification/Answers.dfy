/**
 * Which Data-Out PDU answers which R2T: by tags, numbers and offsets, as a target tells them
 * apart that keeps one R2T outstanding at a time.
 */
module Answers {
  import opened Prelude
  import opened DataOut
  import opened WritePath

  // ---- What answers an R2T ----------------------------------------------------------------------

  /**
   * PDUs under the R2T's own tag, numbered from 0, end to end from its offset, no more than it
   * asks for, and none behind one with the F bit.
   */
  ghost predicate AnswerTo(p: Limits, r: R2T, pdus: seq<DataOutPdu>) {
    && (forall k | 0 <= k < |pdus| :: pdus[k].targetTransferTag == r.targetTransferTag && pdus[k].dataSN == k)
    && (forall k | 0 <= k < |pdus| :: pdus[k].final ==> k == |pdus| - 1)
    && |PayloadOf(pdus)| <= r.desired && |PayloadOf(pdus)| <= p.maxBurst
    && (r.bufferOffset + r.desired <= TWO32 ==> TilesFrom(pdus, r.bufferOffset))
  }

  /** First what answers the first R2T, then what answers the second, and so on. */
  ghost predicate AnswersInTurn(p: Limits, r2ts: seq<R2T>, pdus: seq<DataOutPdu>)
    decreases |r2ts|
  {
    if r2ts == [] then pdus == []
    else exists n | 0 <= n <= |pdus| :: AnswerTo(p, r2ts[0], pdus[..n]) && AnswersInTurn(p, r2ts[1..], pdus[n..])
  }

  lemma {:induction false} PdusAreTagged(j: Job, pos: nat, total: nat, ok: bool, off: nat, dataSN: nat)
    requires pos + total <= |j.data| && dataSN <= off <= total <= j.burstLen
    ensures forall q | q in Pdus(j, pos, total, ok, off, dataSN) ::
              q.targetTransferTag == j.targetTransferTag && q.itt == j.itt
    decreases total - off
  {
    if off < total && j.maxSegment > 0 {
      PdusAreTagged(j, pos, total, ok, off + Min(j.maxSegment, total - off), dataSN + 1);
    }
  }

  lemma BurstIsTagged(j: Job, pos: nat)
    requires pos <= |j.data|
    ensures forall q | q in Burst(j, pos) :: q.targetTransferTag == j.targetTransferTag && q.itt == j.itt
  {
    var e := EndOf(j, |j.data| - pos);
    PdusAreTagged(j, pos, e.sent, e.error == None, 0, 0);
  }

  /** What opens a write is unsolicited: it carries the reserved tag (section 11.7.4). */
  lemma OpeningIsUnsolicited(p: Limits, data: bytes, broken: bool, itt: u32, pos: nat)
    requires pos <= |data|
    ensures forall q | q in OpeningOf(p, data, broken, itt, pos).burst :: q.targetTransferTag == 0xFFFF_FFFF
  {
    var n := Min(ImmediateLen(p), |data| - pos);
    if n <= MAX_SEGMENT {
      BurstIsTagged(UnsolicitedJob(p, data, broken, itt, n), pos + n);
    }
  }

  /**
   * What opens a write: immediate data, then PDUs under the task's tag and the reserved one,
   * numbered from 0, that go on where the immediate data end; together the first bytes that the
   * source has, and no more than the first burst.
   */
  ghost predicate Opens(p: Limits, itt: u32, immediate: bytes, burst: seq<DataOutPdu>, source: bytes) {
    && (forall k | 0 <= k < |burst| ::
          burst[k].itt == itt && burst[k].targetTransferTag == 0xFFFF_FFFF && burst[k].dataSN == k)
    && TilesFrom(burst, |immediate|) && immediate + PayloadOf(burst) <= source
    && |immediate + PayloadOf(burst)| <= p.firstBurst
  }

  lemma BurstOpens(p: Limits, j: Job, start: nat, pos: nat, immediate: bytes)
    requires start <= pos <= |j.data| && immediate == j.data[start..pos] && j.targetTransferTag == 0xFFFF_FFFF
    requires |immediate| <= p.firstBurst && j.offset == |immediate| && j.burstLen == p.firstBurst - |immediate|
    requires j.maxSegment > 0
    ensures Opens(p, j.itt, immediate, Burst(j, pos), j.data[start..])
  {
    var e := EndOf(j, |j.data| - pos);
    BurstIsTagged(j, pos);
    BurstIsWellFormed(j, pos);
    StretchesJoin(j.data, start, |immediate|, e.sent);
  }

  lemma StretchesJoin(data: bytes, pos: nat, n: nat, m: nat)
    requires pos + n + m <= |data|
    ensures |data[pos..pos + n] + data[pos + n..pos + n + m]| == n + m
    ensures data[pos..pos + n] + data[pos + n..pos + n + m] <= data[pos..]
  {
    assert data[pos..pos + n] + data[pos + n..pos + n + m] == data[pos..][..n + m];
  }

  lemma OpeningOpens(p: Limits, data: bytes, broken: bool, itt: u32, pos: nat)
    requires pos <= |data| && p.maxSegment > 0
    ensures var o := OpeningOf(p, data, broken, itt, pos);
      if o.command == None then o.burst == [] else Opens(p, itt, o.command.value, o.burst, data[pos..])
  {
    var n := Min(ImmediateLen(p), |data| - pos);
    if n <= MAX_SEGMENT {
      BurstOpens(p, UnsolicitedJob(p, data, broken, itt, n), pos, pos + n, data[pos..pos + n]);
      assert data[pos..pos + n] == data[pos..][..n] && data[pos..pos + n] + [] == data[pos..pos + n];
    }
  }

  /** The unsolicited burst that succeeds sends what is left of the first burst, or of the source. */
  lemma BurstSendsAll(j: Job, pos: nat)
    requires pos <= |j.data| && j.maxSegment > 0 && EndOf(j, |j.data| - pos).error == None
    ensures |PayloadOf(Burst(j, pos))| == EndOf(j, |j.data| - pos).taken == Min(|j.data| - pos, j.burstLen)
  {
    BurstIsWellFormed(j, pos);
    BurstSucceedsIff(j, |j.data| - pos);
    assert |j.data[pos..pos + EndOf(j, |j.data| - pos).sent]| == EndOf(j, |j.data| - pos).sent;
  }

  /** What follows n bytes of immediate data, if it succeeds. */
  lemma RestSendsAll(p: Limits, data: bytes, broken: bool, itt: u32, pos: nat, n: nat, o: Opened)
    requires n <= pos <= |data| && n <= MAX_SEGMENT && n <= p.firstBurst && p.maxSegment > 0
    requires o == AfterImmediate(p, data, broken, itt, pos, n) && o.error == None
    ensures o.command.Some? && |o.command.value| == n && n + |PayloadOf(o.burst)| == o.taken
    ensures o.taken == if p.initialR2T then n else n + Min(|data| - pos, p.firstBurst - n)
  {
    if !p.initialR2T {
      BurstSendsAll(UnsolicitedJob(p, data, broken, itt, n), pos);
    }
  }

  /**
   * A write that is opened without an error has sent all that the limits allow and the source has:
   * with InitialR2T the immediate data alone, else the whole first burst.
   */
  lemma OpeningSendsAll(p: Limits, data: bytes, broken: bool, itt: u32, pos: nat) returns (o: Opened)
    requires pos <= |data| && 0 < p.maxSegment <= MAX_SEGMENT
    requires OpeningOf(p, data, broken, itt, pos).error == None
    ensures o == OpeningOf(p, data, broken, itt, pos) && o.command.Some?
    ensures |o.command.value| == if p.immediateData then Min(Min(p.firstBurst, p.maxSegment), |data| - pos) else 0
    ensures |o.command.value| + |PayloadOf(o.burst)| == o.taken
    ensures o.taken == if p.initialR2T then |o.command.value| else Min(p.firstBurst, |data| - pos)
  {
    o := OpeningOf(p, data, broken, itt, pos);
    var n := Min(ImmediateLen(p), |data| - pos);
    OpeningCases(p, data, broken, itt, pos, n);
    RestSendsAll(p, data, broken, itt, pos + n, n, o);
  }

  lemma BurstAnswers(p: Limits, data: bytes, broken: bool, itt: u32, pos: nat, r: R2T)
    requires pos <= |data|
    ensures AnswerTo(p, r, Burst(SolicitedJob(p, data, broken, itt, r), pos))
  {
    var j := SolicitedJob(p, data, broken, itt, r);
    BurstIsTagged(j, pos);
    if p.maxSegment > 0 {
      BurstIsWellFormed(j, pos);
    } else {
      assert Burst(j, pos) == [];
    }
  }

  /** An answer without an error is all that is asked for, as far as the source and MaxBurstLength go. */
  lemma AnswerSendsAll(p: Limits, data: bytes, broken: bool, itt: u32, pos: nat, r: R2T)
    requires pos <= |data| && p.maxSegment > 0
    requires EndOf(SolicitedJob(p, data, broken, itt, r), |data| - pos).error == None
    ensures |PayloadOf(Burst(SolicitedJob(p, data, broken, itt, r), pos))|
            == Min(|data| - pos, Min(r.desired, p.maxBurst))
  {
    BurstSendsAll(SolicitedJob(p, data, broken, itt, r), pos);
  }

  lemma {:induction false} NothingAnswers(p: Limits, r2ts: seq<R2T>)
    ensures AnswersInTurn(p, r2ts, [])
    decreases |r2ts|
  {
    if r2ts != [] {
      var none: seq<DataOutPdu> := [];
      NothingAnswers(p, r2ts[1..]);
      assert none[..0] == [] && none[0..] == [];
      assert AnswerTo(p, r2ts[0], none[..0]);
    }
  }

  lemma OneMoreAnswer(p: Limits, r2ts: seq<R2T>, burst: seq<DataOutPdu>, rest: seq<DataOutPdu>)
    requires r2ts != [] && AnswerTo(p, r2ts[0], burst) && AnswersInTurn(p, r2ts[1..], rest)
    ensures AnswersInTurn(p, r2ts, burst + rest)
  {
    var all := burst + rest;
    assert all[..|burst|] == burst && all[|burst|..] == rest;
  }

  lemma EndIsInData(p: Limits, data: bytes, broken: bool, itt: u32, pos: nat, r: R2T) returns (e: Ending, next: nat)
    requires pos <= |data|
    ensures e == EndOf(SolicitedJob(p, data, broken, itt, r), |data| - pos) && next == pos + e.taken <= |data|
  {
    e := EndOf(SolicitedJob(p, data, broken, itt, r), |data| - pos);
    next := pos + e.taken;
  }

  lemma AnswersGoOn(p: Limits, data: bytes, broken: bool, itt: u32, pos: nat, r2ts: seq<R2T>, e: Ending, next: nat,
                    rest: Served)
    requires pos <= |data| && r2ts != [] && e == EndOf(SolicitedJob(p, data, broken, itt, r2ts[0]), |data| - pos)
    requires e.error == None && next == pos + e.taken <= |data|
    requires rest == ServingOf(p, data, broken, itt, next, r2ts[1..]) && AnswersInTurn(p, r2ts[1..], rest.wire)
    ensures AnswersInTurn(p, r2ts, ServingOf(p, data, broken, itt, pos, r2ts).wire)
  {
    var burst := Burst(SolicitedJob(p, data, broken, itt, r2ts[0]), pos);
    BurstAnswers(p, data, broken, itt, pos, r2ts[0]);
    ServingGoesOn(p, data, broken, itt, pos, r2ts, burst, e, next, rest);
    OneMoreAnswer(p, r2ts, burst, rest.wire);
  }

  lemma AnswersStop(p: Limits, data: bytes, broken: bool, itt: u32, pos: nat, r2ts: seq<R2T>, e: Ending)
    requires pos <= |data| && r2ts != [] && e == EndOf(SolicitedJob(p, data, broken, itt, r2ts[0]), |data| - pos)
    requires e.error != None
    ensures AnswersInTurn(p, r2ts, ServingOf(p, data, broken, itt, pos, r2ts).wire)
  {
    var burst := Burst(SolicitedJob(p, data, broken, itt, r2ts[0]), pos);
    BurstAnswers(p, data, broken, itt, pos, r2ts[0]);
    ServingStops(p, data, broken, itt, pos, r2ts, burst, e);
    NothingAnswers(p, r2ts[1..]);
    OneMoreAnswer(p, r2ts, burst, []);
    assert burst + [] == burst;
  }

  /** Whatever R2Ts come, and whatever the source holds: all that goes out answers them in turn. */
  lemma {:induction false} ServedAnswersInTurn(p: Limits, data: bytes, broken: bool, itt: u32, pos: nat,
                                               r2ts: seq<R2T>) returns (s: Served)
    requires pos <= |data|
    ensures s == ServingOf(p, data, broken, itt, pos, r2ts) && AnswersInTurn(p, r2ts, s.wire)
    decreases |r2ts|
  {
    s := ServingOf(p, data, broken, itt, pos, r2ts);
    if r2ts != [] {
      var e, next := EndIsInData(p, data, broken, itt, pos, r2ts[0]);
      if e.error == None {
        var rest := ServedAnswersInTurn(p, data, broken, itt, next, r2ts[1..]);
        AnswersGoOn(p, data, broken, itt, pos, r2ts, e, next, rest);
      } else {
        AnswersStop(p, data, broken, itt, pos, r2ts, e);
      }
    }
  }

  /** If the first of the R2Ts end in a failure, what comes behind them is not answered, nor is it looked at. */
  lemma {:induction false} FailureIsTheEnd(p: Limits, data: bytes, broken: bool, itt: u32, pos: nat, r2ts: seq<R2T>,
                                           more: seq<R2T>)
    requires pos <= |data| && ServingOf(p, data, broken, itt, pos, r2ts).error != None
    ensures ServingOf(p, data, broken, itt, pos, r2ts + more) == ServingOf(p, data, broken, itt, pos, r2ts)
    decreases |r2ts|
  {
    var all, burst := r2ts + more, Burst(SolicitedJob(p, data, broken, itt, r2ts[0]), pos);
    var e, next := EndIsInData(p, data, broken, itt, pos, r2ts[0]);
    assert all[0] == r2ts[0] && all[1..] == r2ts[1..] + more;
    if e.error == None {
      var rest := ServingOf(p, data, broken, itt, next, r2ts[1..]);
      ServingGoesOn(p, data, broken, itt, pos, r2ts, burst, e, next, rest);
      FailureIsTheEnd(p, data, broken, itt, next, r2ts[1..], more);
      ServingGoesOn(p, data, broken, itt, pos, all, burst, e, next, rest);
    } else {
      ServingStops(p, data, broken, itt, pos, r2ts, burst, e);
      ServingStops(p, data, broken, itt, pos, all, burst, e);
    }
  }

  // ---- A target that goes by them ---------------------------------------------------------------

  /** R2Ts that ask for nothing are done with at once. */
  function Due(todo: seq<R2T>): (due: seq<R2T>)
    ensures due != [] ==> due[0].desired > 0
  {
    if todo != [] && todo[0].desired == 0 then Due(todo[1..]) else todo
  }

  /** The buffer of a write; the R2Ts not answered yet; of the first, the bytes and PDUs that have come. */
  datatype Target = Target(buf: bytes, todo: seq<R2T>, got: nat, number: nat)

  /** The PDU is the one that the outstanding R2T waits for: tag, number, offset, length and F bit. */
  predicate Expected(t: Target, q: DataOutPdu) {
    && t.todo != [] && q.targetTransferTag == t.todo[0].targetTransferTag && q.dataSN == t.number
    && q.bufferOffset == t.todo[0].bufferOffset + t.got && t.got + |q.data| <= t.todo[0].desired
    && (q.final <==> t.got + |q.data| == t.todo[0].desired)
  }

  /** Unsolicited data are taken as they come, solicited data only if they are expected. */
  function Take(t: Target, q: DataOutPdu): Target {
    var buf := PlaceAt(t.buf, q.bufferOffset, q.data);
    if q.targetTransferTag == 0xFFFF_FFFF then t.(buf := buf)
    else if !Expected(t, q) then t
    else if q.final then Target(buf, Due(t.todo[1..]), 0, 0)
    else t.(buf := buf, got := t.got + |q.data|, number := t.number + 1)
  }

  function TakeAll(t: Target, pdus: seq<DataOutPdu>): Target
    decreases |pdus|
  {
    if pdus == [] then t else TakeAll(Take(t, pdus[0]), pdus[1..])
  }

  lemma {:induction false} TakeConcat(t: Target, a: seq<DataOutPdu>, b: seq<DataOutPdu>)
    ensures TakeAll(t, a + b) == TakeAll(TakeAll(t, a), b)
    decreases |a|
  {
    if a == [] {
      assert a + b == b;
    } else {
      assert (a + b)[1..] == a[1..] + b;
      TakeConcat(Take(t, a[0]), a[1..], b);
    }
  }

  lemma {:induction false} UnsolicitedAreTaken(t: Target, pdus: seq<DataOutPdu>)
    requires forall q | q in pdus :: q.targetTransferTag == 0xFFFF_FFFF
    ensures TakeAll(t, pdus) == t.(buf := Reassemble(t.buf, pdus))
    decreases |pdus|
  {
    if pdus != [] {
      UnsolicitedAreTaken(Take(t, pdus[0]), pdus[1..]);
    }
  }

  /** What is left of a whole answer, once some of its bytes and PDUs have come. */
  ghost predicate RestOfAnswer(r: R2T, pdus: seq<DataOutPdu>, got: nat, number: nat) {
    && pdus != [] && TilesFrom(pdus, r.bufferOffset + got) && got + |PayloadOf(pdus)| == r.desired
    && (forall k | 0 <= k < |pdus| ::
          && pdus[k].targetTransferTag == r.targetTransferTag && pdus[k].dataSN == number + k
          && pdus[k].data != [] && (pdus[k].final <==> k == |pdus| - 1))
  }

  lemma PayloadIsSome(pdus: seq<DataOutPdu>)
    requires pdus != [] && pdus[0].data != []
    ensures |PayloadOf(pdus)| > 0
  {
  }

  lemma RestGoesOn(r: R2T, pdus: seq<DataOutPdu>, got: nat, number: nat)
    requires RestOfAnswer(r, pdus, got, number)
    ensures |pdus| > 1 ==> RestOfAnswer(r, pdus[1..], got + |pdus[0].data|, number + 1)
    ensures got + |pdus[0].data| <= r.desired
    ensures got + |pdus[0].data| == r.desired <==> |pdus| == 1
  {
    var rest := pdus[1..];
    assert PayloadOf(pdus) == pdus[0].data + PayloadOf(rest);
    if |pdus| > 1 {
      assert rest[0] == pdus[1];
      PayloadIsSome(rest);
    }
  }

  lemma {:induction false} AnswerIsTaken(buf: bytes, r: R2T, todo: seq<R2T>, pdus: seq<DataOutPdu>, got: nat,
                                         number: nat)
    requires RestOfAnswer(r, pdus, got, number) && r.targetTransferTag != 0xFFFF_FFFF
    ensures TakeAll(Target(buf, [r] + todo, got, number), pdus) == Target(Reassemble(buf, pdus), Due(todo), 0, 0)
    decreases |pdus|
  {
    var t, q := Target(buf, [r] + todo, got, number), pdus[0];
    RestGoesOn(r, pdus, got, number);
    assert Expected(t, q);
    if |pdus| > 1 {
      AnswerIsTaken(PlaceAt(buf, q.bufferOffset, q.data), r, todo, pdus[1..], got + |q.data|, number + 1);
    } else {
      assert ([r] + todo)[1..] == todo;
    }
  }

  /** A burst that is sent whole is a whole answer. */
  lemma WholeBurstAnswers(p: Limits, data: bytes, broken: bool, itt: u32, pos: nat, r: R2T, burst: seq<DataOutPdu>)
    requires pos + r.desired <= |data| < TWO32 && 0 < p.maxSegment <= MAX_SEGMENT
    requires r.bufferOffset == pos && 0 < r.desired <= p.maxBurst
    requires burst == Burst(SolicitedJob(p, data, broken, itt, r), pos)
    ensures RestOfAnswer(r, burst, 0, 0)
  {
    var j := SolicitedJob(p, data, broken, itt, r);
    BurstIsTagged(j, pos);
    WholeBurst(j, pos);
    BurstIsWellFormed(j, pos);
    assert |data[pos..pos + r.desired]| == r.desired;
  }

  lemma NothingIsSent(p: Limits, data: bytes, broken: bool, itt: u32, pos: nat, r: R2T)
    requires pos <= |data| && r.desired == 0
    ensures Burst(SolicitedJob(p, data, broken, itt, r), pos) == []
  {
  }

  /**
   * The target takes all that answers R2Ts which ask in order: it has the bytes in its buffer
   * as they were cut, and no R2T is left.
   */
  lemma {:induction false} AnswersAreTaken(p: Limits, data: bytes, broken: bool, itt: u32, pos: nat, end: nat,
                                           r2ts: seq<R2T>, buf: bytes) returns (s: Served)
    requires pos <= end <= |data| < TWO32 && 0 < p.maxSegment <= MAX_SEGMENT && AskInOrder(p, r2ts, pos, end)
    requires forall r | r in r2ts :: r.targetTransferTag != 0xFFFF_FFFF
    ensures s == ServingOf(p, data, broken, itt, pos, r2ts)
    ensures TakeAll(Target(buf, Due(r2ts), 0, 0), s.wire) == Target(Reassemble(buf, s.wire), [], 0, 0)
    decreases |r2ts|
  {
    s := ServingOf(p, data, broken, itt, pos, r2ts);
    if r2ts != [] {
      var r, next := r2ts[0], pos + r2ts[0].desired;
      AskForward(p, r2ts[1..], next, end);
      var burst := SolicitedCarries(p, data, broken, itt, pos, r);
      var rest := AnswersAreTaken(p, data, broken, itt, next, end, r2ts[1..], Reassemble(buf, burst));
      ServingFirst(p, data, broken, itt, pos, r2ts, burst, rest);
      if r.desired == 0 {
        NothingIsSent(p, data, broken, itt, pos, r);
        assert [] + rest.wire == rest.wire;
      } else {
        WholeBurstAnswers(p, data, broken, itt, pos, r, burst);
        assert [r] + r2ts[1..] == r2ts;
        AnswerIsTaken(buf, r, r2ts[1..], burst, 0, 0);
        TakeConcat(Target(buf, r2ts, 0, 0), burst, rest.wire);
        ReassembleConcat(buf, burst, rest.wire);
      }
    }
  }
}
