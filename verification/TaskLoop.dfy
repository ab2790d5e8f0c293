/**
 * The task goroutine around the reassembly: it feeds PDUs to the task until it has seen
 * one with the S-bit, and then leaves, whether or not that PDU could be used.
 */
module TaskLoop {
  import opened Prelude
  import opened DataIn
  import opened Reassembly

  /** What the goroutine's select picks. Its channel closes at the end of the events. */
  datatype Event =
    | Data(arrival: Arrival)
    | Answer(resp: ResponsePdu)
    | Stop(error: TaskError, resultTaken: bool)  // the context ends, a PDU cannot be decoded, or a Reject at level 0
    | Unexpected                                 // a PDU of another kind, which is only logged
    | DoneSeen                                   // possible once the task is done

  function Loop(t: TaskState, events: seq<Event>): (r: TaskState)
    requires Filed(t.pending)
    ensures Filed(r.pending)
    decreases |events|
  {
    if events == [] then t
    else
      match events[0]
      case Data(a) =>
        AfterDataInKeepsFiled(t, a.din, a.env);
        var t1 := AfterDataIn(t, a.din, a.env);
        if a.din.hasStatus then t1 else Loop(t1, events[1..])
      case Answer(resp) => AfterResponse(t, resp)
      case Stop(e, taken) => CancelledWith(t, e, t.results == [] || taken)
      case Unexpected => Loop(t, events[1..])
      case DoneSeen => if t.done then t else Loop(t, events[1..])
  }

  /** The loop takes its task off the session's tables before it returns. */
  predicate CleansUp(t: TaskState, events: seq<Event>)
    requires Filed(t.pending)
    decreases |events|
  {
    if events == [] then false
    else
      match events[0]
      case Data(a) =>
        AfterDataInKeepsFiled(t, a.din, a.env);
        a.din.hasStatus || CleansUp(AfterDataIn(t, a.din, a.env), events[1..])
      case Answer(_) => true
      case Stop(_, _) => true
      case Unexpected => CleansUp(t, events[1..])
      case DoneSeen => !t.done && CleansUp(t, events[1..])
  }

  /** Nothing but Data-In PDUs. */
  function Feed(arrivals: seq<Arrival>): (events: seq<Event>)
    ensures |events| == |arrivals|
  {
    seq(|arrivals|, i requires 0 <= i < |arrivals| => Data(arrivals[i]))
  }

  /** The arrivals the loop gets to see: up to and including the first with the S-bit. */
  function Seen(arrivals: seq<Arrival>): (s: seq<Arrival>)
    ensures s <= arrivals
    decreases |arrivals|
  {
    if arrivals == [] then []
    else if arrivals[0].din.hasStatus then [arrivals[0]]
    else [arrivals[0]] + Seen(arrivals[1..])
  }

  /** `cleanup` says whether the loop cleans up after its task. */
  method RunTaskLoop(task: Task, events: seq<Event>) returns (cleanup: bool)
    requires task.isRead && Filed(task.pending)
    modifies task
    ensures task.State() == Loop(old(task.State()), events)
    ensures cleanup == CleansUp(old(task.State()), events)
  {
    var i := 0;
    while i < |events|
      invariant 0 <= i <= |events|
      invariant task.isRead && Filed(task.pending)
      invariant Loop(task.State(), events[i..]) == Loop(old(task.State()), events)
      invariant CleansUp(task.State(), events[i..]) == CleansUp(old(task.State()), events)
      decreases |events| - i
    {
      assert events[i..][1..] == events[i + 1..];
      match events[i] {
        case Data(a) =>
          DataInKeepsIdentity(task.State(), a.din, a.env);
          task.HandleDataIn(a.din, a.env);
          if a.din.hasStatus {
            return true;
          }
        case Answer(resp) =>
          task.HandleSCSIResponse(resp);
          return true;
        case Stop(e, taken) =>
          task.Cancel(e, taken);
          return true;
        case Unexpected =>
        case DoneSeen =>
          if task.done {
            return false;
          }
      }
      i := i + 1;
    }
    return false;
  }

  /** An S-bit, a response, or an error: after it the loop cleans up. */
  predicate Ends(e: Event) {
    e.Answer? || e.Stop? || (e.Data? && e.arrival.din.hasStatus)
  }

  /** At the i-th event the loop sees that its task is done. */
  predicate SeesDone(t: TaskState, events: seq<Event>, i: nat)
    requires Filed(t.pending) && i < |events|
  {
    events[i].DoneSeen? && Loop(t, events[..i]).done
  }

  /** It gets to an end before it sees that its task is done. */
  predicate GetsToEnd(t: TaskState, events: seq<Event>)
    requires Filed(t.pending)
  {
    exists i | 0 <= i < |events| :: Ends(events[i]) && forall j | 0 <= j < i :: !SeesDone(t, events, j)
  }

  lemma SeesDoneNext(t: TaskState, events: seq<Event>, i: nat)
    requires Filed(t.pending) && i + 1 < |events| && (events[0].Data? || events[0].Unexpected? || events[0].DoneSeen?)
    requires !Ends(events[0]) && !SeesDone(t, events, 0)
    ensures var t1 := Loop(t, [events[0]]);
      Filed(t1.pending) && (SeesDone(t1, events[1..], i) <==> SeesDone(t, events, i + 1))
  {
    assert events[..i + 1][1..] == events[1..][..i] && [events[0]][1..] == [];
  }

  lemma {:induction false} CleansUpIff(t: TaskState, events: seq<Event>)
    requires Filed(t.pending)
    ensures CleansUp(t, events) <==> GetsToEnd(t, events)
    decreases |events|
  {
    if events != [] {
      if Ends(events[0]) || SeesDone(t, events, 0) {
        assert events[..0] == [];
      } else {
        EndIsLater(t, events);
        CleansUpIff(Loop(t, [events[0]]), events[1..]);
        CleanupIsLater(t, events);
      }
    }
  }

  lemma CleanupIsLater(t: TaskState, events: seq<Event>)
    requires Filed(t.pending) && events != [] && !Ends(events[0]) && !SeesDone(t, events, 0)
    ensures CleansUp(t, events) <==> CleansUp(Loop(t, [events[0]]), events[1..])
  {
    assert events[..0] == [] && [events[0]][1..] == [];
  }

  lemma EndIsLater(t: TaskState, events: seq<Event>)
    requires Filed(t.pending) && events != [] && !Ends(events[0]) && !SeesDone(t, events, 0)
    ensures GetsToEnd(t, events) <==> GetsToEnd(Loop(t, [events[0]]), events[1..])
  {
    var t1, rest := Loop(t, [events[0]]), events[1..];
    forall i | 0 <= i < |rest| ensures SeesDone(t1, rest, i) <==> SeesDone(t, events, i + 1) {
      SeesDoneNext(t, events, i);
    }
    if GetsToEnd(t, events) {
      var i :| 0 <= i < |events| && Ends(events[i]) && forall j | 0 <= j < i :: !SeesDone(t, events, j);
      assert Ends(rest[i - 1]) && forall j | 0 <= j < i - 1 :: !SeesDone(t1, rest, j);
    }
    if GetsToEnd(t1, rest) {
      var i :| 0 <= i < |rest| && Ends(rest[i]) && forall j | 0 <= j < i :: !SeesDone(t1, rest, j);
      assert Ends(events[i + 1]);
      forall j | 0 <= j < i + 1 ensures !SeesDone(t, events, j) {
        assert j > 0 ==> !SeesDone(t1, rest, j - 1);
      }
    }
  }

  /** A task that cannot send a SNACK: its loop can return at once, without a trace in the session's tables. */
  lemma FailedSnackLeavesTask(t: TaskState, early: Arrival)
    requires t == NewTask(t.itt, t.erl, true, t.streaming) && t.erl >= 1
    requires early.din.dataSN != 0 && !early.din.hasStatus && !early.env.snackSent
    ensures var events := [Data(early), DoneSeen];
      && Loop(t, events).results == [Failed(SnackSendFailed)] && Loop(t, events).done && !CleansUp(t, events)
  {
    var events := [Data(early), DoneSeen];
    var t1 := AfterDataIn(t, early.din, early.env);
    assert t1.done && t1.results == [Failed(SnackSendFailed)];
    assert events[1..] == [DoneSeen];
    assert Loop(t1, [DoneSeen]) == t1 && !CleansUp(t1, [DoneSeen]);
  }

  lemma {:induction false} RunFromFront(t: TaskState, arrivals: seq<Arrival>)
    requires Filed(t.pending) && arrivals != []
    ensures Filed(AfterDataIn(t, arrivals[0].din, arrivals[0].env).pending)
    ensures Run(t, arrivals) == Run(AfterDataIn(t, arrivals[0].din, arrivals[0].env), arrivals[1..])
    decreases |arrivals|
  {
    AfterDataInKeepsFiled(t, arrivals[0].din, arrivals[0].env);
    var n := |arrivals| - 1;
    if n == 0 {
      assert Run(t, arrivals[..0]) == t;
    } else {
      RunFromFront(t, arrivals[..n]);
      assert arrivals[1..][..n - 1] == arrivals[..n][1..];
    }
  }

  lemma {:induction false} LoopIsRunOfSeen(t: TaskState, arrivals: seq<Arrival>)
    requires Filed(t.pending)
    ensures Loop(t, Feed(arrivals)) == Run(t, Seen(arrivals))
    decreases |arrivals|
  {
    if arrivals != [] {
      RunFromFront(t, Seen(arrivals));
      var t1 := AfterDataIn(t, arrivals[0].din, arrivals[0].env);
      if arrivals[0].din.hasStatus {
        assert Run(t1, Seen(arrivals)[1..]) == t1;
      } else {
        assert Seen(arrivals)[1..] == Seen(arrivals[1..]);
        assert Feed(arrivals)[1..] == Feed(arrivals[1..]);
        LoopIsRunOfSeen(t1, arrivals[1..]);
      }
    }
  }

  /** Arrivals as a loop feeds them: none behind one with the S-bit. */
  ghost predicate Fed(arrivals: seq<Arrival>) {
    forall i | 0 <= i < |arrivals| - 1 :: !arrivals[i].din.hasStatus
  }

  lemma {:induction false} SeenIsFed(arrivals: seq<Arrival>)
    ensures Fed(Seen(arrivals))
    ensures Fed(arrivals) ==> Seen(arrivals) == arrivals
    decreases |arrivals|
  {
    if arrivals != [] {
      SeenIsFed(arrivals[1..]);
      assert Fed(arrivals) ==> Fed(arrivals[1..]);
      assert [arrivals[0]] + arrivals[1..] == arrivals;
    }
  }

  // ---- Reads that end with a SCSI Response -------------------------------------------------

  /** A stream without status of its own: the target sends a SCSI Response behind it. */
  ghost predicate Plain(pdus: seq<DataInPdu>, final: DataInPdu) {
    Conforming(pdus + [final]) && final.data == []
  }

  lemma {:induction false} PayloadOfPrefix(pdus: seq<DataInPdu>, final: DataInPdu, p: nat)
    requires p <= |pdus|
    ensures Payload(pdus + [final], p) == Payload(pdus, p)
  {
    if p > 0 {
      PayloadOfPrefix(pdus, final, p - 1);
    }
  }

  /** Everything with data is among the first p PDUs. */
  predicate DataEndsBefore(pdus: seq<DataInPdu>, p: nat) {
    forall k | p <= k < |pdus| :: pdus[k].data == []
  }

  lemma {:induction false} PayloadIsWholeIff(pdus: seq<DataInPdu>, p: nat, n: nat)
    requires p <= n <= |pdus|
    ensures |Payload(pdus, p)| <= |Payload(pdus, n)|
    ensures Payload(pdus, p) == Payload(pdus, n) <==> DataEndsBefore(pdus[..n], p)
  {
    if p < n {
      PayloadIsWholeIff(pdus, p, n - 1);
      assert pdus[..n][n - 1] == pdus[n - 1];
      assert forall k | p <= k < n - 1 :: pdus[..n - 1][k] == pdus[..n][k];
      assert Payload(pdus, n) == Payload(pdus, n - 1) + pdus[n - 1].data;
    }
  }

  lemma {:induction false} LoopThenAnswer(t: TaskState, arrivals: seq<Arrival>, resp: ResponsePdu)
    requires Filed(t.pending)
    requires forall i | 0 <= i < |arrivals| :: !arrivals[i].din.hasStatus
    ensures Loop(t, Feed(arrivals) + [Answer(resp)]) == AfterResponse(Run(t, arrivals), resp)
    decreases |arrivals|
  {
    if arrivals != [] {
      RunFromFront(t, arrivals);
      assert (Feed(arrivals) + [Answer(resp)])[1..] == Feed(arrivals[1..]) + [Answer(resp)];
      LoopThenAnswer(AfterDataIn(t, arrivals[0].din, arrivals[0].env), arrivals[1..], resp);
    }
  }

  function Buffered(data: bytes): Option<bytes> {
    if data == [] then None else Some(data)
  }

  lemma ConsumedWithoutStatus(pdus: seq<DataInPdu>, final: DataInPdu, t: TaskState, arrivals: seq<Arrival>, p: u32)
    requires Plain(pdus, final) && Drawn(pdus, arrivals)
    requires t == NewTask(t.itt, t.erl, true, false) && t.erl >= 1
    requires p <= |pdus| && (forall j: u32 | j < p :: j in Have(arrivals))
    requires p < |pdus| ==> p !in Have(arrivals)
    ensures Run(t, arrivals).results == [] && Run(t, arrivals).buf == Payload(pdus, p)
  {
    var all, r := pdus + [final], Run(t, arrivals);
    RunInvariant(all, t, arrivals);
    RunKeepsIdentity(t, arrivals);
    var q: u32 := r.nextDataSN;
    var last: u32 := |pdus|;
    assert last !in Have(arrivals) && q !in Have(arrivals);
    assert q == p;
    PayloadOfPrefix(pdus, final, p);
  }

  /**
   * A read that ends with a SCSI Response. With DataSN p the first one missing when the
   * response comes in, the one Result reports the target's status with the data before it,
   * as a success: the data is whole if and only if all PDUs from p on are empty.
   */
  lemma ResponseTruncatesIff(pdus: seq<DataInPdu>, final: DataInPdu, t: TaskState, arrivals: seq<Arrival>,
                             resp: ResponsePdu, p: u32)
    requires Plain(pdus, final) && Drawn(pdus, arrivals)
    requires t == NewTask(t.itt, t.erl, true, false) && t.erl >= 1
    requires p <= |pdus| && (forall j: u32 | j < p :: j in Have(arrivals))
    requires p < |pdus| ==> p !in Have(arrivals)
    ensures var r := Loop(t, Feed(arrivals) + [Answer(resp)]);
      && r.results == [Completed(resp.status, SenseData(resp.data), Buffered(Payload(pdus, p)),
                                 resp.overflow, resp.underflow, resp.residualCount)]
      && (r.results[0].data == Buffered(Payload(pdus, |pdus|)) <==> DataEndsBefore(pdus, p))
  {
    forall i | 0 <= i < |arrivals| ensures !arrivals[i].din.hasStatus {
      var k := arrivals[i].din.dataSN;
      assert InPlace(pdus + [final], k);
    }
    LoopThenAnswer(t, arrivals, resp);
    ConsumedWithoutStatus(pdus, final, t, arrivals, p);
    RunKeepsIdentity(t, arrivals);
    PayloadIsWholeIff(pdus, p, |pdus|);
    assert pdus[..|pdus|] == pdus;
  }
}
