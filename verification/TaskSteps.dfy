/** Single steps of a task, each told by what it leaves on the task's channels. */
module TaskSteps {
  import opened Prelude
  import opened DataIn
  import opened Reassembly
  import opened TaskLoop
  import D = Delivery
  import S = Streaming

  // ---- The end of a task ------------------------------------------------------------------------

  /**
   * A task that is cancelled reports the error, once, if there is room on its result channel;
   * its streaming reader is closed with it in any case, and the task is done.
   */
  lemma CancelReports(t: TaskState, e: TaskError, room: bool)
    ensures var r := CancelledWith(t, e, room);
      && r.results == t.results + (if room then [Failed(e)] else [])
      && r.stream == t.stream + (if t.streaming then [Broken(e)] else [])
      && r.done && r.buf == t.buf && r.sent == t.sent && r.pending == t.pending
      && r.nextDataSN == t.nextDataSN && r.nextOffset == t.nextOffset
  {
    assert t.results + [] == t.results && t.stream + [] == t.stream;
  }

  lemma {:induction false} LoopThenStop(t: TaskState, arrivals: seq<Arrival>, e: TaskError, taken: bool)
    requires Filed(t.pending)
    requires forall i | 0 <= i < |arrivals| :: !arrivals[i].din.hasStatus
    ensures var r := Run(t, arrivals);
      Loop(t, Feed(arrivals) + [Stop(e, taken)]) == CancelledWith(r, e, r.results == [] || taken)
    decreases |arrivals|
  {
    if arrivals != [] {
      RunFromFront(t, arrivals);
      assert (Feed(arrivals) + [Stop(e, taken)])[1..] == Feed(arrivals[1..]) + [Stop(e, taken)];
      LoopThenStop(AfterDataIn(t, arrivals[0].din, arrivals[0].env), arrivals[1..], e, taken);
    }
  }

  /**
   * A task that is stopped, by the end of its context, before the S-bit and without having
   * missed a PDU: the caller gets that error and nothing else, and a streaming caller that
   * error behind what came in order.
   */
  lemma StopIsReported(pdus: seq<DataInPdu>, t: TaskState, arrivals: seq<Arrival>, e: TaskError, taken: bool)
    requires Conforming(pdus) && Copies(pdus, arrivals) && t == NewTask(t.itt, t.erl, true, t.streaming)
    requires D.NeverMisses(t.erl, arrivals) && forall i | 0 <= i < |arrivals| :: !arrivals[i].din.hasStatus
    ensures D.NextOf(t.erl, arrivals) <= |pdus|
    ensures var r, p := Loop(t, Feed(arrivals) + [Stop(e, taken)]), D.NextOf(t.erl, arrivals);
      && r.results == [Failed(e)] && r.done
      && r.stream == if t.streaming then Chunks(pdus, p) + [Broken(e)] else []
  {
    LoopThenStop(t, arrivals, e, taken);
    D.NothingReportedBefore(pdus, t, arrivals);
    D.GathersUntilMiss(pdus, t, arrivals);
    D.NextIs(pdus, t, arrivals);
    StatusIsMissing(pdus, arrivals);
    CancelReports(Run(t, arrivals), e, true);
  }

  lemma StatusIsMissing(pdus: seq<DataInPdu>, arrivals: seq<Arrival>)
    requires Conforming(pdus) && Copies(pdus, arrivals)
    requires forall i | 0 <= i < |arrivals| :: !arrivals[i].din.hasStatus
    ensures var last: u32 := |pdus| - 1; last !in Have(arrivals)
  {
    var last: u32 := |pdus| - 1;
    assert InPlace(pdus, last);
  }

  /** Whatever had been reported before: the error comes behind it if there is room, and else not at all. */
  lemma StopComesLast(t: TaskState, arrivals: seq<Arrival>, e: TaskError, taken: bool)
    requires Filed(t.pending)
    requires forall i | 0 <= i < |arrivals| :: !arrivals[i].din.hasStatus
    ensures var before, r := Run(t, arrivals), Loop(t, Feed(arrivals) + [Stop(e, taken)]);
      && r.done
      && r.results == before.results + if before.results == [] || taken then [Failed(e)] else []
  {
    LoopThenStop(t, arrivals, e, taken);
    var before := Run(t, arrivals);
    CancelReports(before, e, before.results == [] || taken);
  }

  /**
   * After an end nothing is handled: not what comes behind a PDU with the S-bit, a response or
   * an error, nor what comes after a task was seen to be done.
   */
  lemma EndIsTheEnd(t: TaskState, e: Event, rest: seq<Event>)
    requires Filed(t.pending) && (Ends(e) || (e.DoneSeen? && t.done))
    ensures Loop(t, [e] + rest) == Loop(t, [e]) && CleansUp(t, [e] + rest) == CleansUp(t, [e])
    ensures e.DoneSeen? ==> Loop(t, [e] + rest) == t
  {
  }

  /** A PDU of another kind changes nothing, nor does the look at a task that is not done. */
  lemma OthersAreIgnored(t: TaskState, e: Event, rest: seq<Event>)
    requires Filed(t.pending) && (e.Unexpected? || (e.DoneSeen? && !t.done))
    ensures Loop(t, [e] + rest) == Loop(t, rest) && CleansUp(t, [e] + rest) == CleansUp(t, rest)
  {
    assert ([e] + rest)[1..] == rest;
  }

  // ---- SCSI Response ---------------------------------------------------------------------------

  /** Sense bytes start behind two length bytes, the high one first. */
  lemma SenseIsBehindLength(hi: byte, lo: byte, sense: bytes, rest: bytes)
    requires |sense| == 256 * (hi as int) + lo as int
    ensures SenseData([hi, lo] + sense + rest) == sense
  {
    var data := [hi, lo] + sense + rest;
    assert data[2..2 + |sense|] == sense;
  }

  /** There are none if the length is not there, or says more than there is. */
  lemma NoSenseIf(data: bytes)
    requires |data| < 2 || 256 * (data[0] as int) + data[1] as int > |data| - 2
    ensures SenseData(data) == []
  {
  }

  /** A response ends the task with one Result, and a streaming reader with it. */
  lemma ResponseIsReported(t: TaskState, resp: ResponsePdu)
    ensures var r := AfterResponse(t, resp);
      && |r.results| == |t.results| + 1 && r.results[..|t.results|] == t.results
      && r.stream == t.stream + (if t.streaming then [EndOfStream] else [])
      && var last := r.results[|t.results|];
      && last.Completed? && last.status == resp.status && last.sense == SenseData(resp.data)
      && last.overflow == resp.overflow && last.underflow == resp.underflow
      && last.residualCount == resp.residualCount
      && (last.data.Some? <==> !t.streaming && t.isRead && t.buf != [])
      && (last.data.Some? ==> last.data.value == t.buf)
  {
    assert t.stream + [] == t.stream;
  }

  // ---- SNACKs ----------------------------------------------------------------------------------

  /**
   * A PDU that is not next in line, above level 0: it is kept under its DataSN, and a Data SNACK
   * (type 0) asks for all from the one that is to it; without a SNACK the task reports that
   * and is done.
   */
  lemma GapIsAskedFor(t: TaskState, din: DataInPdu, env: Env)
    requires Filed(t.pending) && t.erl >= 1 && din.dataSN != t.nextDataSN
    ensures var r := AfterDataIn(t, din, env);
      && r.pending == t.pending[din.dataSN := din] && r.buf == t.buf
      && r.nextDataSN == t.nextDataSN && r.nextOffset == t.nextOffset
      && (env.snackSent ==>
            && r.sent == t.sent + [SnackPdu(0, t.itt, 0, t.nextDataSN, Wrap(din.dataSN - t.nextDataSN), env.expStatSN)]
            && r.results == t.results && r.stream == t.stream && r.done == t.done)
      && (!env.snackSent ==>
            && r.sent == t.sent && r.results == t.results + [Failed(SnackSendFailed)] && r.done
            && r.stream == t.stream + if t.streaming then [Broken(SnackSendFailed)] else [])
  {
    assert t.stream + [] == t.stream;
  }

  /** At level 0 such a PDU is an error, and it is not kept. */
  lemma GapIsAnError(t: TaskState, din: DataInPdu, env: Env)
    requires Filed(t.pending) && t.erl == 0 && din.dataSN != t.nextDataSN
    ensures var r, e := AfterDataIn(t, din, env), DataSNGap(din.dataSN, t.nextDataSN);
      && r.results == t.results + [Failed(e)] && r.stream == t.stream + (if t.streaming then [Broken(e)] else [])
      && r.pending == t.pending && r.buf == t.buf && r.sent == t.sent && r.done == t.done
      && r.nextDataSN == t.nextDataSN && r.nextOffset == t.nextOffset
  {
    assert t.stream + [] == t.stream;
  }

  /**
   * A PDU in line with the A-bit is acknowledged, once, by a SNACK of type 2 with its tag and the
   * DataSN behind it, exactly above level 0 and if there is room; nothing else is sent for a PDU
   * in line.
   */
  lemma AcknowledgedIff(t: TaskState, din: DataInPdu, env: Env)
    requires Filed(t.pending) && din.dataSN == t.nextDataSN && din.bufferOffset == t.nextOffset
    ensures AfterDataIn(t, din, env).sent == t.sent +
      if din.acknowledge && t.erl >= 1 && env.ackQueued then
        [SnackPdu(2, t.itt, din.targetTransferTag, Wrap(din.dataSN + 1), 0, env.expStatSN)]
      else []
  {
    DrainKeepsIdentity(AfterAck(Append(t, din), din, env));
    assert t.sent + [] == t.sent;
  }
}
