/**
 * A task's reassembly of Data-In PDUs (section 4.2.2.3 of RFC 7143), with recovery of
 * missing PDUs by SNACK at ErrorRecoveryLevel 1 and above (section 11.16).
 */
module DataIn {
  import opened Prelude

  datatype DataInPdu = DataInPdu(
    dataSN: u32, bufferOffset: u32, data: bytes,
    acknowledge: bool, targetTransferTag: u32,
    hasStatus: bool, status: byte, overflow: bool, underflow: bool, residualCount: u32)

  datatype ResponsePdu = ResponsePdu(
    data: bytes, status: byte, overflow: bool, underflow: bool, residualCount: u32)

  const SNACK_DATA: byte := 0
  const SNACK_DATA_ACK: byte := 2

  datatype SnackPdu = SnackPdu(
    kind: byte, itt: u32, targetTransferTag: u32, begRun: u32, runLength: u32, expStatSN: u32)

  datatype TaskError =
    | SnackSendFailed
    | DataSNGap(got: u32, want: u32)
    | OffsetMismatch(got: u32, want: u32)
    | TaskCancelled(reason: string)

  datatype TaskResult =
    | Completed(status: byte, sense: bytes, data: Option<bytes>,
                overflow: bool, underflow: bool, residualCount: u32)
    | Failed(error: TaskError)

  /** What the task hands to its streaming reader, in order. */
  datatype StreamEvent = Chunk(data: bytes) | EndOfStream | Broken(error: TaskError)

  /**
   * The fields of a task. `results` lists every value put on the result channel,
   * `stream` everything done to the streaming reader, `sent` the SNACKs handed to the
   * write channel.
   */
  datatype TaskState = TaskState(
    itt: u32, erl: nat, isRead: bool, streaming: bool,
    nextDataSN: u32, nextOffset: u32, buf: bytes, stream: seq<StreamEvent>,
    pending: map<u32, DataInPdu>, results: seq<TaskResult>, done: bool, sent: seq<SnackPdu>)

  /** The environment's choices during one call. */
  datatype Env = Env(
    snackSent: bool,    // the write channel took the SNACK within five seconds
    ackQueued: bool,    // the write channel had room for the DataACK
    resultTaken: bool,  // the caller had already received what was on the result channel
    expStatSN: u32)

  /** Early PDUs are filed under their own DataSN. */
  predicate Filed(pending: map<u32, DataInPdu>) {
    forall k | k in pending :: pending[k].dataSN == k
  }

  function NewTask(itt: u32, erl: nat, isRead: bool, streaming: bool): TaskState {
    TaskState(itt, erl, isRead, isRead && streaming, 0, 0, [], [], map[], [], false, [])
  }

  function Fail(t: TaskState, e: TaskError): TaskState {
    t.(stream := if t.streaming then t.stream + [Broken(e)] else t.stream,
       results := t.results + [Failed(e)])
  }

  function Append(t: TaskState, din: DataInPdu): TaskState {
    var t1 := t.(nextDataSN := Wrap(t.nextDataSN + 1), nextOffset := Wrap(t.nextOffset + |din.data|));
    if din.data == [] then t1
    else if t.streaming then t1.(stream := t.stream + [Chunk(din.data)])
    else t1.(buf := t.buf + din.data)
  }

  function Final(t: TaskState, din: DataInPdu): TaskResult {
    Completed(din.status, [], if t.streaming then None else Some(t.buf),
              din.overflow, din.underflow, din.residualCount)
  }

  function Deliver(t: TaskState, din: DataInPdu): TaskState {
    t.(stream := if t.streaming then t.stream + [EndOfStream] else t.stream,
       results := t.results + [Final(t, din)])
  }

  /** The buffered PDU that is next in line moves into the reassembled data. */
  function TakeNext(t: TaskState): (r: TaskState)
    requires Filed(t.pending) && t.nextDataSN in t.pending
    ensures Filed(r.pending) && |r.pending| < |t.pending|
  {
    RemoveShrinks(t.pending, t.nextDataSN);
    Append(t.(pending := t.pending - {t.nextDataSN}), t.pending[t.nextDataSN])
  }

  /** Early PDUs that have become next in line, up to the one that carries status. */
  function Drain(t: TaskState): TaskState
    requires Filed(t.pending)
    decreases |t.pending|
  {
    if t.nextDataSN !in t.pending then t
    else
      var din := t.pending[t.nextDataSN];
      if din.hasStatus then Deliver(TakeNext(t), din) else Drain(TakeNext(t))
  }

  lemma RemoveShrinks<K, V>(m: map<K, V>, k: K)
    requires k in m
    ensures |m - {k}| < |m|
  {
    assert (m - {k}).Keys == m.Keys - {k};
    assert |(m - {k}).Keys| == |m.Keys| - 1;
  }

  function AfterGap(t: TaskState, din: DataInPdu, env: Env): TaskState {
    if t.erl >= 1 then
      var t1 := t.(pending := t.pending[din.dataSN := din]);
      if env.snackSent then
        t1.(sent := t.sent + [SnackPdu(SNACK_DATA, t.itt, 0, t.nextDataSN,
                                       Wrap(din.dataSN - t.nextDataSN), env.expStatSN)])
      else Fail(t1, SnackSendFailed).(done := true)
    else Fail(t, DataSNGap(din.dataSN, t.nextDataSN))
  }

  function AfterAck(t: TaskState, din: DataInPdu, env: Env): TaskState {
    if din.acknowledge && t.erl >= 1 && env.ackQueued then
      t.(sent := t.sent + [SnackPdu(SNACK_DATA_ACK, t.itt, din.targetTransferTag, t.nextDataSN, 0, env.expStatSN)])
    else t
  }

  function AfterDataIn(t: TaskState, din: DataInPdu, env: Env): TaskState
    requires Filed(t.pending)
  {
    if din.dataSN != t.nextDataSN then AfterGap(t, din, env)
    else if din.bufferOffset != t.nextOffset then Fail(t, OffsetMismatch(din.bufferOffset, t.nextOffset))
    else
      Settle(AfterAck(Append(t, din), din, env), din, env.resultTaken)
  }

  /** After an in-order PDU: drain what it unblocked, then deliver if it carries status itself. */
  function Settle(t: TaskState, din: DataInPdu, resultTaken: bool): TaskState
    requires Filed(t.pending)
  {
    if t.pending == map[] then if din.hasStatus then Deliver(t, din) else t
    else
      var t1 := Drain(t);
      if (t1.results != [] && !resultTaken) || !din.hasStatus then t1 else Deliver(t1, din)
  }

  /** Draining keeps early PDUs filed, and only removes from them. */
  lemma {:induction false} DrainKeepsFiled(t: TaskState)
    requires Filed(t.pending)
    ensures Filed(Drain(t).pending)
    ensures Drain(t).pending.Keys <= t.pending.Keys
    decreases |t.pending|
  {
    if t.nextDataSN in t.pending && !t.pending[t.nextDataSN].hasStatus {
      DrainKeepsFiled(TakeNext(t));
    }
  }

  lemma AfterDataInKeepsFiled(t: TaskState, din: DataInPdu, env: Env)
    requires Filed(t.pending)
    ensures Filed(AfterDataIn(t, din, env).pending)
  {
    if din.dataSN == t.nextDataSN {
      DrainKeepsFiled(AfterAck(Append(t, din), din, env));
    }
  }

  /** The sense bytes of a SCSI Response: a 16-bit length, then that many bytes if they are there. */
  function SenseData(data: bytes): bytes {
    if |data| < 2 then []
    else
      var hi, lo := data[0] as int, data[1] as int;
      if hi * 256 + lo <= |data| - 2 then data[2..2 + hi * 256 + lo] else []
  }

  function AfterResponse(t: TaskState, resp: ResponsePdu): TaskState {
    t.(stream := if t.streaming then t.stream + [EndOfStream] else t.stream,
       results := t.results +
         [Completed(resp.status, SenseData(resp.data),
                    if !t.streaming && t.isRead && t.buf != [] then Some(t.buf) else None,
                    resp.overflow, resp.underflow, resp.residualCount)])
  }

  /** Cancelling never waits: the error is dropped if the result channel is still full. */
  function CancelledWith(t: TaskState, e: TaskError, room: bool): TaskState {
    t.(stream := if t.streaming then t.stream + [Broken(e)] else t.stream,
       results := if room then t.results + [Failed(e)] else t.results, done := true)
  }

  /** What a retry resets. The early PDUs are not among it. */
  function Renewed(t: TaskState, itt: u32): TaskState {
    t.(itt := itt, nextDataSN := 0, nextOffset := 0, buf := if t.isRead && !t.streaming then [] else t.buf)
  }

  class Task {
    var itt: u32
    var erl: nat
    var isRead: bool
    var streaming: bool
    var nextDataSN: u32
    var nextOffset: u32
    var buf: bytes
    var stream: seq<StreamEvent>
    var pending: map<u32, DataInPdu>
    var results: seq<TaskResult>
    var done: bool
    var sent: seq<SnackPdu>

    function State(): TaskState
      reads this
    {
      TaskState(itt, erl, isRead, streaming, nextDataSN, nextOffset, buf, stream, pending, results, done, sent)
    }

    constructor (itt: u32, erl: nat, isRead: bool, streaming: bool)
      ensures State() == NewTask(itt, erl, isRead, streaming)
    {
      this.itt, this.erl, this.isRead, this.streaming := itt, erl, isRead, isRead && streaming;
      nextDataSN, nextOffset, buf, stream := 0, 0, [], [];
      pending, results, done, sent := map[], [], false, [];
    }

    method Report(e: TaskError)
      modifies this
      ensures State() == Fail(old(State()), e)
    {
      if streaming {
        stream := stream + [Broken(e)];
      }
      results := results + [Failed(e)];
    }

    method Accept(data: bytes)
      modifies this
      ensures var t := old(State());
        State() == t.(nextDataSN := Wrap(t.nextDataSN + 1), nextOffset := Wrap(t.nextOffset + |data|),
                      stream := if data != [] && streaming then t.stream + [Chunk(data)] else t.stream,
                      buf := if data != [] && !streaming then t.buf + data else t.buf)
    {
      if |data| > 0 {
        if streaming {
          stream := stream + [Chunk(data)];
        } else {
          buf := buf + data;
        }
      }
      nextDataSN := Wrap(nextDataSN + 1);
      nextOffset := Wrap(nextOffset + |data|);
    }

    method Complete(din: DataInPdu)
      modifies this
      ensures State() == Deliver(old(State()), din)
    {
      if streaming {
        stream := stream + [EndOfStream];
        results := results + [Completed(din.status, [], None, din.overflow, din.underflow, din.residualCount)];
      } else {
        results := results + [Completed(din.status, [], Some(buf), din.overflow, din.underflow, din.residualCount)];
      }
    }

    method TakePending() returns (din: DataInPdu)
      requires Filed(pending) && nextDataSN in pending
      modifies this
      ensures din == old(pending[nextDataSN])
      ensures State() == TakeNext(old(State()))
    {
      din := pending[nextDataSN];
      pending := pending - {din.dataSN};
      Accept(din.data);
    }

    method DrainPendingDataIn()
      requires Filed(pending)
      modifies this
      ensures State() == Drain(old(State()))
    {
      while nextDataSN in pending
        invariant Filed(pending)
        invariant Drain(State()) == Drain(old(State()))
        decreases |pending|
      {
        var din := TakePending();
        if din.hasStatus {
          Complete(din);
          return;
        }
      }
    }

    method SendSnack(kind: byte, tag: u32, begRun: u32, runLength: u32, expStatSN: u32)
      modifies this`sent
      ensures sent == old(sent) + [SnackPdu(kind, itt, tag, begRun, runLength, expStatSN)]
    {
      sent := sent + [SnackPdu(kind, itt, tag, begRun, runLength, expStatSN)];
    }

    method HandleGap(din: DataInPdu, env: Env)
      modifies this
      ensures State() == AfterGap(old(State()), din, env)
    {
      if erl >= 1 {
        var gap := Wrap(din.dataSN - nextDataSN);
        pending := pending[din.dataSN := din];
        if env.snackSent {
          SendSnack(SNACK_DATA, 0, nextDataSN, gap, env.expStatSN);
        } else {
          Report(SnackSendFailed);
          done := true;
        }
        return;
      }
      Report(DataSNGap(din.dataSN, nextDataSN));
    }

    method Acknowledge(din: DataInPdu, env: Env)
      modifies this
      ensures State() == AfterAck(old(State()), din, env)
    {
      if din.acknowledge && erl >= 1 {
        if env.ackQueued {
          SendSnack(SNACK_DATA_ACK, din.targetTransferTag, nextDataSN, 0, env.expStatSN);
        }
      }
    }

    /** The in-order tail of HandleDataIn: drain, then deliver. */
    method SettleInOrder(din: DataInPdu, resultTaken: bool)
      requires Filed(pending)
      modifies this
      ensures State() == Settle(old(State()), din, resultTaken)
    {
      if pending != map[] {
        DrainPendingDataIn();
        if results != [] && !resultTaken {
          return;
        }
      }
      if din.hasStatus {
        Complete(din);
      }
    }

    /** Only read tasks have a buffer: a Data-In PDU for any other task is outside this contract. */
    method HandleDataIn(din: DataInPdu, env: Env)
      requires isRead && Filed(pending)
      modifies this
      ensures State() == AfterDataIn(old(State()), din, env)
      ensures Filed(pending)
    {
      AfterDataInKeepsFiled(State(), din, env);
      if din.dataSN != nextDataSN {
        HandleGap(din, env);
        return;
      }
      if din.bufferOffset != nextOffset {
        Report(OffsetMismatch(din.bufferOffset, nextOffset));
        return;
      }
      Accept(din.data);
      Acknowledge(din, env);
      SettleInOrder(din, env.resultTaken);
    }

    method HandleSCSIResponse(resp: ResponsePdu)
      modifies this
      ensures State() == AfterResponse(old(State()), resp)
    {
      var sense: bytes := [];
      if |resp.data| >= 2 {
        var hi, lo := resp.data[0] as int, resp.data[1] as int;
        var senseLen := hi * 256 + lo;
        if senseLen <= |resp.data| - 2 {
          sense := resp.data[2..2 + senseLen];
        }
      }
      var data: Option<bytes> := None;
      if streaming {
        stream := stream + [EndOfStream];
      } else if isRead && |buf| > 0 {
        data := Some(buf);
      }
      results := results + [Completed(resp.status, sense, data, resp.overflow, resp.underflow, resp.residualCount)];
    }

    method Cancel(e: TaskError, resultTaken: bool)
      modifies this
      ensures State() == CancelledWith(old(State()), e, old(results) == [] || resultTaken)
    {
      if streaming {
        stream := stream + [Broken(e)];
      }
      if results == [] || resultTaken {
        results := results + [Failed(e)];
      }
      done := true;
    }

    method Renew(newITT: u32)
      modifies this
      ensures State() == Renewed(old(State()), newITT)
    {
      itt, nextDataSN, nextOffset := newITT, 0, 0;
      if isRead && !streaming {
        buf := [];
      }
    }
  }
}
