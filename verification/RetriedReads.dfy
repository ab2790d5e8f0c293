/**
 * What a retried read returns: when exactly all of it comes from the new connection. Two
 * things of the old one can get in: early PDUs, which the reset keeps, and PDUs still
 * queued for the old task loop, since a closed channel yields what is on it.
 */
module RetriedReads {
  import opened Prelude
  import opened DataIn
  import opened Reassembly
  import opened TaskLoop
  import Serial

  /** The task `f` with what an earlier life has put on its channels in front. */
  function Behind(past: TaskState, f: TaskState): TaskState {
    f.(results := past.results + f.results, stream := past.stream + f.stream,
       sent := past.sent + f.sent, done := past.done || f.done)
  }

  lemma DeliverBehind(past: TaskState, f: TaskState, din: DataInPdu)
    ensures Deliver(Behind(past, f), din) == Behind(past, Deliver(f, din))
  {
  }

  lemma FailBehind(past: TaskState, f: TaskState, e: TaskError)
    ensures Fail(Behind(past, f), e) == Behind(past, Fail(f, e))
  {
  }

  lemma AppendBehind(past: TaskState, f: TaskState, din: DataInPdu)
    ensures Append(Behind(past, f), din) == Behind(past, Append(f, din))
  {
  }

  lemma TakeNextBehind(past: TaskState, f: TaskState)
    requires Filed(f.pending) && f.nextDataSN in f.pending
    ensures TakeNext(Behind(past, f)) == Behind(past, TakeNext(f))
  {
    var n := f.nextDataSN;
    AppendBehind(past, f.(pending := f.pending - {n}), f.pending[n]);
  }

  lemma {:induction false} DrainBehind(past: TaskState, f: TaskState)
    requires Filed(f.pending)
    ensures Drain(Behind(past, f)) == Behind(past, Drain(f))
    decreases |f.pending|
  {
    if f.nextDataSN in f.pending {
      TakeNextBehind(past, f);
      if f.pending[f.nextDataSN].hasStatus {
        DeliverBehind(past, TakeNext(f), f.pending[f.nextDataSN]);
      } else {
        DrainBehind(past, TakeNext(f));
      }
    }
  }

  lemma AckBehind(past: TaskState, f: TaskState, din: DataInPdu, env: Env)
    ensures AfterAck(Behind(past, f), din, env) == Behind(past, AfterAck(f, din, env))
  {
    if din.acknowledge && f.erl >= 1 && env.ackQueued {
      Assoc(past.sent, f.sent,
            [SnackPdu(SNACK_DATA_ACK, f.itt, din.targetTransferTag, f.nextDataSN, 0, env.expStatSN)]);
    }
  }

  lemma GapBehind(past: TaskState, f: TaskState, din: DataInPdu, env: Env)
    ensures AfterGap(Behind(past, f), din, env) == Behind(past, AfterGap(f, din, env))
  {
    if f.erl >= 1 {
      var f1 := f.(pending := f.pending[din.dataSN := din]);
      if env.snackSent {
        Assoc(past.sent, f.sent, [SnackPdu(SNACK_DATA, f.itt, 0, f.nextDataSN,
                                           Wrap(din.dataSN - f.nextDataSN), env.expStatSN)]);
      } else {
        FailBehind(past, f1, SnackSendFailed);
      }
    } else {
      FailBehind(past, f, DataSNGap(din.dataSN, f.nextDataSN));
    }
  }

  /** An earlier Result only matters when a drain looks for one: then not if it was taken, or there is none. */
  lemma SettleBehind(past: TaskState, f: TaskState, din: DataInPdu, taken: bool)
    requires Filed(f.pending) && (past.results == [] || f.pending == map[])
    ensures Settle(Behind(past, f), din, taken) == Behind(past, Settle(f, din, taken))
  {
    DrainBehind(past, f);
    DeliverBehind(past, f, din);
    DeliverBehind(past, Drain(f), din);
    assert past.results == [] ==> Behind(past, Drain(f)).results == Drain(f).results;
  }

  lemma StepBehind(past: TaskState, f: TaskState, din: DataInPdu, env: Env)
    requires Filed(f.pending) && (past.results == [] || (f.erl == 0 && f.pending == map[]))
    ensures AfterDataIn(Behind(past, f), din, env) == Behind(past, AfterDataIn(f, din, env))
  {
    if din.dataSN != f.nextDataSN {
      GapBehind(past, f, din, env);
    } else if din.bufferOffset != f.nextOffset {
      FailBehind(past, f, OffsetMismatch(din.bufferOffset, f.nextOffset));
    } else {
      AppendBehind(past, f, din);
      AckBehind(past, Append(f, din), din, env);
      SettleBehind(past, AfterAck(Append(f, din), din, env), din, env.resultTaken);
    }
  }

  lemma {:induction false} RunBehind(past: TaskState, f: TaskState, arrivals: seq<Arrival>)
    requires Filed(f.pending) && (past.results == [] || (f.erl == 0 && f.pending == map[]))
    ensures Run(Behind(past, f), arrivals) == Behind(past, Run(f, arrivals))
    decreases |arrivals|
  {
    if arrivals != [] {
      var n := |arrivals| - 1;
      RunBehind(past, f, arrivals[..n]);
      if past.results != [] {
        LevelZeroKeepsNothing(f, arrivals[..n]);
      }
      StepBehind(past, Run(f, arrivals[..n]), arrivals[n].din, arrivals[n].env);
    }
  }

  /**
   * At level 0, once the old reader is gone: whatever arrived before the connection was
   * lost, the retried read does exactly what a new one would.
   */
  lemma RetriedReadIsPure(itt: u32, before: seq<Arrival>, newITT: u32, after: seq<Arrival>)
    ensures var past := Run(NewTask(itt, 0, true, false), before);
      Filed(Renewed(past, newITT).pending)
      && Run(Renewed(past, newITT), after) == Behind(past, Run(NewTask(newITT, 0, true, false), after))
  {
    var t := NewTask(itt, 0, true, false);
    RunKeepsIdentity(t, before);
    LevelZeroKeepsNothing(t, before);
    var past, anew := Run(t, before), NewTask(newITT, 0, true, false);
    assert Renewed(past, newITT) == Behind(past, anew);
    RunBehind(past, anew, after);
  }

  /** In general the reset makes a new task, behind what was already reported, just when no PDU was kept early. */
  lemma RenewedIsNewIff(t: TaskState, newITT: u32)
    requires t.isRead && !t.streaming
    ensures Renewed(t, newITT) == Behind(t, NewTask(newITT, t.erl, true, false)) <==> t.pending == map[]
  {
    if t.pending == map[] {
      assert Renewed(t, newITT) == Behind(t, NewTask(newITT, t.erl, true, false));
    }
  }

  // ---- Tasks that a reconnect finds ---------------------------------------------------------

  /** Nothing with the S-bit: the first such PDU takes a task out of the table. */
  ghost predicate Unfinished(arrivals: seq<Arrival>) {
    forall i | 0 <= i < |arrivals| :: !arrivals[i].din.hasStatus
  }

  /** What a task that is still served has kept: no PDU with status, and not the one next in line. */
  ghost predicate Waiting(t: TaskState) {
    && Filed(t.pending) && t.nextDataSN !in t.pending
    && (forall k | k in t.pending :: !t.pending[k].hasStatus)
    && (t.erl == 0 ==> t.pending == map[])
  }

  lemma {:induction false} DrainWaits(t: TaskState)
    requires Filed(t.pending) && (forall k | k in t.pending :: !t.pending[k].hasStatus)
    requires t.erl == 0 ==> t.pending == map[]
    ensures Waiting(Drain(t)) && Drain(t).results == t.results
    decreases |t.pending|
  {
    if t.nextDataSN in t.pending {
      DrainWaits(TakeNext(t));
    }
  }

  lemma StepWaits(t: TaskState, din: DataInPdu, env: Env)
    requires Waiting(t) && !din.hasStatus
    ensures Waiting(AfterDataIn(t, din, env))
  {
    if din.dataSN == t.nextDataSN && din.bufferOffset == t.nextOffset {
      DrainWaits(AfterAck(Append(t, din), din, env));
    }
  }

  /** A drain inside the loop never delivers: a task in the table keeps no PDU with status. */
  lemma {:induction false} ServedKeepsNoStatus(itt: u32, erl: nat, arrivals: seq<Arrival>)
    requires Unfinished(arrivals)
    ensures Waiting(Run(NewTask(itt, erl, true, false), arrivals))
    decreases |arrivals|
  {
    if arrivals != [] {
      var n := |arrivals| - 1;
      ServedKeepsNoStatus(itt, erl, arrivals[..n]);
      StepWaits(Run(NewTask(itt, erl, true, false), arrivals[..n]), arrivals[n].din, arrivals[n].env);
    }
  }

  // ---- Continuations that tell a renewed task from a new one --------------------------------

  /** An empty PDU in its place. */
  function Blank(k: nat, status: bool): Arrival {
    Arrival(DataInPdu(Wrap(k), 0, [], false, 0, status, 0, false, false, 0), Env(true, true, true, 0))
  }

  function Blanks(n: nat): (s: seq<Arrival>)
    ensures |s| == n && forall i | 0 <= i < n :: s[i] == Blank(i, false)
  {
    if n == 0 then [] else Blanks(n - 1) + [Blank(n - 1, false)]
  }

  /** Empty PDUs in order change nothing but the DataSN expected, as long as none kept comes up. */
  lemma {:induction false} BlanksPass(t: TaskState, n: nat)
    requires Filed(t.pending) && t.nextDataSN == 0 && t.nextOffset == 0
    requires forall j | 0 < j <= n :: Wrap(j) !in t.pending
    ensures Run(t, Blanks(n)) == t.(nextDataSN := Wrap(n))
  {
    if n > 0 {
      BlanksPass(t, n - 1);
      RunSnoc(t, Blanks(n - 1), Blank(n - 1, false));
      Serial.WrapAdd(n - 1, 1);
    }
  }

  /** How far q is ahead. */
  function Ahead(q: u32, k: u32): u32 {
    Wrap(q - k)
  }

  lemma AheadMoves(q: u32, k: u32)
    requires q != k
    ensures Ahead(q, Wrap(k + 1)) < Ahead(q, k)
  {
  }

  /** A drain delivers, or moves towards a DataSN that was not kept. */
  lemma {:induction false} DrainMoves(t: TaskState, q: u32)
    requires Filed(t.pending) && q !in t.pending
    ensures Drain(t).results == t.results || |Drain(t).results| > |t.results|
    ensures Drain(t).results == t.results ==> Ahead(q, Drain(t).nextDataSN) <= Ahead(q, t.nextDataSN)
    ensures Drain(t).results == t.results && t.nextDataSN in t.pending ==> Drain(t).nextDataSN != t.nextDataSN
    decreases |t.pending|
  {
    if t.nextDataSN in t.pending {
      AheadMoves(q, t.nextDataSN);
      if !t.pending[t.nextDataSN].hasStatus {
        DrainMoves(TakeNext(t), q);
      }
    }
  }

  /** The first DataSN kept, counting on from lo. */
  lemma {:induction false} FirstKept(pending: map<u32, DataInPdu>, lo: nat, hi: nat) returns (n: nat)
    requires lo <= hi && Wrap(hi) in pending
    ensures lo <= n <= hi && Wrap(n) in pending
    ensures forall j | lo <= j < n :: Wrap(j) !in pending
    decreases hi - lo
  {
    if Wrap(lo) in pending {
      n := lo;
    } else {
      n := FirstKept(pending, lo + 1, hi);
    }
  }

  /** What is put on the result channel from a new task on. */
  function Fresh(itt: u32, erl: nat, arrivals: seq<Arrival>): seq<TaskResult> {
    Run(NewTask(itt, erl, true, false), arrivals).results
  }

  lemma BlanksOnNew(itt: u32, erl: nat, n: nat)
    ensures Fresh(itt, erl, Blanks(n)) == []
    ensures Fresh(itt, erl, Blanks(n) + [Blank(n, true)]) == [Completed(0, [], Some([]), false, false, 0)]
  {
    var f := NewTask(itt, erl, true, false);
    BlanksPass(f, n);
    RunSnoc(f, Blanks(n), Blank(n, true));
  }

  lemma BlankDrains(t: TaskState, k: nat)
    requires Filed(t.pending) && t.nextDataSN == Wrap(k) && t.nextOffset == 0 && t.pending != map[]
    ensures AfterDataIn(t, Blank(k, false).din, Blank(k, false).env) == Drain(t.(nextDataSN := Wrap(k + 1)))
  {
    Serial.WrapAdd(k, 1);
    var din := Blank(k, false).din;
    assert AfterAck(Append(t, din), din, Blank(k, false).env) == t.(nextDataSN := Wrap(k + 1));
  }

  /** Empty PDUs up to the first one kept: it is drained, and the drain delivers it or runs past it. */
  lemma BlanksReachKept(t: TaskState, n: nat, q: u32)
    requires Filed(t.pending) && t.nextDataSN == 0 && t.nextOffset == 0 && q !in t.pending && !t.streaming
    requires n > 0 && Wrap(n) in t.pending && forall j | 0 < j < n :: Wrap(j) !in t.pending
    ensures var r := Run(t, Blanks(n));
      |r.results| > |t.results| || (r.results == t.results && r.nextDataSN != Wrap(n))
    ensures SameIdentity(t, Run(t, Blanks(n)))
  {
    BlanksPass(t, n - 1);
    RunSnoc(t, Blanks(n - 1), Blank(n - 1, false));
    BlankDrains(t.(nextDataSN := Wrap(n - 1)), n - 1);
    DrainMoves(t.(nextDataSN := Wrap(n)), q);
    RunKeepsIdentity(t, Blanks(n));
  }

  /** A task that kept something and one that kept nothing are told apart by some continuation. */
  lemma KeptPduShows(t: TaskState, newITT: u32, q: u32) returns (anew: seq<Arrival>)
    requires Filed(t.pending) && t.nextDataSN == 0 && t.nextOffset == 0 && q !in t.pending && !t.streaming
    requires t.erl >= 1 && t.pending != map[]
    ensures Fed(anew) && Run(t, anew).results != t.results + Fresh(newITT, t.erl, anew)
  {
    var k :| k in t.pending;
    var n := FirstKept(t.pending, 1, if k == 0 then TWO32 else k);
    BlanksReachKept(t, n, q);
    BlanksOnNew(newITT, t.erl, n);
    anew := Blanks(n);
    assert t.results + [] == t.results;
    if Run(t, anew).results == t.results {
      RunSnoc(t, anew, Blank(n, true));
      anew := anew + [Blank(n, true)];
    }
  }

  /** At level 1 and above an old Result that nobody has taken can hold back the new one. */
  lemma UntakenResultShows(t: TaskState, newITT: u32) returns (anew: seq<Arrival>)
    requires t.pending == map[] && t.nextDataSN == 0 && t.nextOffset == 0 && !t.streaming
    requires t.erl >= 1 && t.results != []
    ensures Fed(anew) && Run(t, anew).results != t.results + Fresh(newITT, t.erl, anew)
  {
    var one, zero := Blank(1, false), Blank(0, true).(env := Env(true, true, false, 0));
    anew := [one, zero];
    var f := NewTask(newITT, t.erl, true, false);
    assert [] + [one] == [one] && [one] + [zero] == anew;
    RunSnoc(t, [], one);
    RunSnoc(t, [one], zero);
    RunSnoc(f, [], one);
    RunSnoc(f, [one], zero);
    EarlyBlank(t, one, zero);
    EarlyBlank(f, one, zero);
  }

  lemma EarlyBlank(t: TaskState, one: Arrival, zero: Arrival)
    requires t.pending == map[] && t.nextDataSN == 0 && t.nextOffset == 0 && !t.streaming && t.erl >= 1
    requires one == Blank(1, false) && zero == Blank(0, true).(env := Env(true, true, false, 0))
    ensures var t1 := AfterDataIn(t, one.din, one.env);
      Filed(t1.pending)
      && |AfterDataIn(t1, zero.din, zero.env).results| == if t.results == [] then 1 else |t.results|
  {
    var t1 := AfterDataIn(t, one.din, one.env);
    assert t1.pending == map[1 := one.din] && t1.results == t.results;
    var u := Append(t1, zero.din);
    assert u.nextDataSN == 1 && u.pending == t1.pending;
    assert TakeNext(u).pending == map[];
    assert Drain(u) == TakeNext(u);
    assert AfterDataIn(t1, zero.din, zero.env) == Settle(u, zero.din, false);
  }

  // ---- The old reader and the new one ------------------------------------------------------

  /**
   * `mix` is what the task gets when the new loop feeds it `anew` while the old one still
   * feeds it some of what is left on its channel, each in its order.
   */
  ghost predicate Merges(mix: seq<Arrival>, queue: seq<DataInPdu>, anew: seq<Arrival>)
    decreases |mix|
  {
    if mix == [] then anew == []
    else
      || (anew != [] && mix[0] == anew[0] && Merges(mix[1..], queue, anew[1..]))
      || (queue != [] && mix[0].din == queue[0] && Merges(mix[1..], queue[1..], anew))
  }

  lemma {:induction false} MergesOne(mix: seq<Arrival>, anew: seq<Arrival>)
    ensures Merges(mix, [], anew) <==> mix == anew
    decreases |mix|
  {
    if mix != [] && anew != [] {
      MergesOne(mix[1..], anew[1..]);
      assert mix == [mix[0]] + mix[1..] && anew == [anew[0]] + anew[1..];
    }
  }

  lemma {:induction false} MergesNew(anew: seq<Arrival>, queue: seq<DataInPdu>)
    ensures Merges(anew, queue, anew)
    decreases |anew|
  {
    if anew != [] {
      MergesNew(anew[1..], queue);
    }
  }

  /** Whatever the old reader still does: the Results are those of a new task on the new connection. */
  ghost predicate Pure(t: TaskState, newITT: u32, queue: seq<DataInPdu>)
    requires Filed(t.pending)
  {
    forall mix, anew | Merges(mix, queue, anew) && Fed(anew) ::
      Run(Renewed(t, newITT), mix).results == t.results + Fresh(newITT, t.erl, anew)
  }

  lemma NothingLeftIsPure(t: TaskState, newITT: u32)
    requires t.isRead && !t.streaming && t.pending == map[] && (t.erl == 0 || t.results == [])
    ensures Pure(t, newITT, [])
  {
    var f := NewTask(newITT, t.erl, true, false);
    assert Renewed(t, newITT) == Behind(t, f);
    forall mix, anew | Merges(mix, [], anew)
      ensures Run(Renewed(t, newITT), mix).results == t.results + Fresh(newITT, t.erl, anew)
    {
      MergesOne(mix, anew);
      RunBehind(t, f, anew);
    }
  }

  lemma FirstOutOfPlace(t: TaskState, x: Arrival)
    requires t.pending == map[] && t.nextDataSN == 0 && x.env.snackSent && x.din.dataSN != 0
    ensures var r := AfterDataIn(t, x.din, x.env);
      if t.erl == 0 then |r.results| > |t.results|
      else r.results == t.results && r.pending == map[x.din.dataSN := x.din] && r.nextOffset == t.nextOffset
           && r.nextDataSN == 0 && r.erl == t.erl && r.streaming == t.streaming
  {
  }

  lemma FirstInPlace(t: TaskState, x: Arrival)
    requires t.pending == map[] && t.nextDataSN == 0 && t.nextOffset == 0 && x.din.dataSN == 0
    ensures var r := AfterDataIn(t, x.din, x.env);
      r.results == t.results ==> r.nextDataSN == 1 && r.erl == t.erl && r.pending == map[]
  {
  }

  lemma ZeroIsLate(t: TaskState)
    requires t.nextDataSN == 1 && t.pending == map[]
    ensures var r := AfterDataIn(t, Blank(0, true).din, Blank(0, true).env).results;
      r != t.results + [Completed(0, [], Some([]), false, false, 0)]
  {
    var r := AfterDataIn(t, Blank(0, true).din, Blank(0, true).env).results;
    assert r == t.results || r[|t.results|].Failed?;
  }

  /** A PDU of the old channel that is taken for the first of the new one displaces that. */
  lemma FirstInPlaceShows(t: TaskState, newITT: u32, x: Arrival)
    requires t.pending == map[] && t.nextDataSN == 0 && t.nextOffset == 0 && x.din.dataSN == 0
    requires AfterDataIn(t, x.din, x.env).results == t.results && Filed(AfterDataIn(t, x.din, x.env).pending)
    ensures Run(AfterDataIn(t, x.din, x.env), [Blank(0, true)]).results
            != t.results + Fresh(newITT, t.erl, [Blank(0, true)])
  {
    var v, zero := AfterDataIn(t, x.din, x.env), Blank(0, true);
    assert [] + [zero] == [zero] && Blanks(0) + [zero] == [zero];
    BlanksOnNew(newITT, t.erl, 0);
    RunSnoc(v, [], zero);
    FirstInPlace(t, x);
    ZeroIsLate(v);
  }

  /** One PDU of the old channel that is handled after the reset shows, whatever it is. */
  lemma QueuedPduShows(t: TaskState, newITT: u32, x: Arrival) returns (anew: seq<Arrival>)
    requires t.isRead && !t.streaming && t.pending == map[] && x.env.snackSent
    ensures Fed(anew) && Run(Renewed(t, newITT), [x] + anew).results != t.results + Fresh(newITT, t.erl, anew)
  {
    var u := Renewed(t, newITT);
    AfterDataInKeepsFiled(u, x.din, x.env);
    var v := AfterDataIn(u, x.din, x.env);
    if v.results != t.results {
      anew := [];
      assert t.results + [] == t.results;
    } else if x.din.dataSN != 0 {
      FirstOutOfPlace(u, x);
      assert x.din.dataSN in v.pending;
      anew := KeptPduShows(v, newITT, 0);
    } else {
      FirstInPlaceShows(u, newITT, x);
      anew := [Blank(0, true)];
    }
    RunFromFront(u, [x] + anew);
    assert ([x] + anew)[1..] == anew;
  }

  lemma ImpureIfSomethingIsLeft(t: TaskState, newITT: u32, queue: seq<DataInPdu>)
    requires Waiting(t) && t.isRead && !t.streaming
    requires queue != [] || t.pending != map[] || (t.erl >= 1 && t.results != [])
    ensures !Pure(t, newITT, queue)
  {
    var u := Renewed(t, newITT);
    var anew, mix;
    if t.pending != map[] {
      anew := KeptPduShows(u, newITT, t.nextDataSN);
      mix := anew;
      MergesNew(anew, queue);
    } else if queue == [] {
      anew := UntakenResultShows(u, newITT);
      mix := anew;
      MergesNew(anew, queue);
    } else {
      var x := Arrival(queue[0], Env(true, true, true, 0));
      anew := QueuedPduShows(t, newITT, x);
      mix := [x] + anew;
      MergesNew(anew, queue[1..]);
      assert mix[1..] == anew;
    }
    assert Merges(mix, queue, anew) && Fed(anew);
  }

  /**
   * For any task that a reconnect finds, after any history on the old connection: what it
   * reports after the reset comes from the new connection alone, for every continuation, if
   * and only if the old reader has nothing left to handle, no PDU was kept early, and, at
   * level 1 and above, the task has not reported anything yet.
   */
  lemma RetriedReadIsPureIff(itt: u32, erl: nat, before: seq<Arrival>, newITT: u32, queue: seq<DataInPdu>)
    requires Unfinished(before)
    ensures var t := Run(NewTask(itt, erl, true, false), before);
      Pure(t, newITT, queue) <==> queue == [] && t.pending == map[] && (erl == 0 || t.results == [])
  {
    var t := Run(NewTask(itt, erl, true, false), before);
    ServedKeepsNoStatus(itt, erl, before);
    RunKeepsIdentity(NewTask(itt, erl, true, false), before);
    if queue == [] && t.pending == map[] && (erl == 0 || t.results == []) {
      NothingLeftIsPure(t, newITT);
    } else {
      ImpureIfSomethingIsLeft(t, newITT, queue);
    }
  }

  function ResultWith(last: DataInPdu, data: bytes): TaskResult {
    Completed(last.status, [], Some(data), last.overflow, last.underflow, last.residualCount)
  }

  lemma OneKeptIsDrained(t: TaskState, stale: DataInPdu)
    requires t.pending == map[1 := stale] && t.nextDataSN == 1 && !t.streaming
    requires !stale.hasStatus && stale.dataSN == 1
    ensures Drain(t) == t.(pending := map[], nextDataSN := 2, nextOffset := Wrap(t.nextOffset + |stale.data|),
                           buf := t.buf + stale.data)
  {
    var v := TakeNext(t);
    assert v.pending == map[] && Drain(t) == v;
    assert t.buf + [] == t.buf;
  }

  lemma StaleIsDrained(t: TaskState, stale: DataInPdu, first: DataInPdu, env: Env)
    requires t.pending == map[1 := stale] && t.nextDataSN == 0 && t.nextOffset == 0 && t.buf == [] && !t.streaming
    requires t.results == [] && !stale.hasStatus && stale.dataSN == 1
    requires first.dataSN == 0 && first.bufferOffset == 0 && !first.hasStatus
    ensures var r := AfterDataIn(t, first, env);
      && r.pending == map[] && r.nextDataSN == 2 && r.nextOffset == Wrap(|first.data| + |stale.data|)
      && r.buf == first.data + stale.data && r.results == [] && !r.streaming && r.erl == t.erl
  {
    var u := AfterAck(Append(t, first), first, env);
    assert u.pending == t.pending && u.nextDataSN == 1 && u.nextOffset == Wrap(|first.data|);
    assert u.buf == first.data && !u.streaming && u.results == [] && u.erl == t.erl;
    OneKeptIsDrained(u, stale);
    Serial.WrapAdd(|first.data|, |stale.data|);
    assert AfterDataIn(t, first, env) == Settle(u, first, env.resultTaken);
  }

  lemma LastDelivers(t: TaskState, late: DataInPdu, last: DataInPdu, env: Env, env': Env)
    requires t.pending == map[] && t.nextDataSN == 2 && t.results == [] && !t.streaming && t.erl >= 1
    requires late.dataSN == 1 && env.snackSent
    requires last.dataSN == 2 && last.bufferOffset == t.nextOffset && last.hasStatus
    ensures var t1 := AfterDataIn(t, late, env);
      && Filed(t1.pending)
      && AfterDataIn(t1, last, env').results
         == [ResultWith(last, t.buf + last.data)]
  {
    var t1 := AfterDataIn(t, late, env);
    assert t1.pending == map[1 := late] && t1.nextDataSN == 2;
    var u := AfterAck(Append(t1, last), last, env');
    assert u.nextDataSN == 3 && Drain(u) == u && u.buf == t.buf + last.data;
    assert t.buf + [] == t.buf;
  }

  lemma RunThree(t: TaskState, a: Arrival, b: Arrival, c: Arrival)
    requires Filed(t.pending)
    ensures var t1 := AfterDataIn(t, a.din, a.env);
      && Filed(t1.pending)
      && var t2 := AfterDataIn(t1, b.din, b.env);
      Filed(t2.pending) && Run(t, [a, b, c]) == AfterDataIn(t2, c.din, c.env)
  {
    RunSnoc(t, [], a);
    RunSnoc(t, [a], b);
    RunSnoc(t, [a, b], c);
    assert [] + [a] == [a] && [a] + [b] == [a, b] && [a, b] + [c] == [a, b, c];
  }

  /**
   * What an early PDU does above level 0: its copy on the new connection is ignored, though
   * the new stream is sound and arrives in order, and the caller gets the old bytes.
   */
  lemma StalePduEntersRetry(itt: u32, erl: nat, newITT: u32, stale: DataInPdu, pdus: seq<DataInPdu>, env: Env)
    requires erl >= 1 && env.snackSent && stale.dataSN == 1 && !stale.hasStatus
    requires Conforming(pdus) && |pdus| == 3 && |stale.data| == |pdus[1].data|
    ensures var t := Run(NewTask(itt, erl, true, false), [Arrival(stale, env)]);
      Loop(Renewed(t, newITT), Feed(InOrder(pdus, [env, env, env]))).results
      == [ResultWith(pdus[2], pdus[0].data + stale.data + pdus[2].data)]
  {
    var start := NewTask(itt, erl, true, false);
    RunSnoc(start, [], Arrival(stale, env));
    assert [] + [Arrival(stale, env)] == [Arrival(stale, env)];
    var u := Renewed(Run(start, [Arrival(stale, env)]), newITT);
    assert u.pending == map[1 := stale];
    SoundStreamMeetsStale(u, stale, pdus, env);
  }

  lemma SoundStreamMeetsStale(t: TaskState, stale: DataInPdu, pdus: seq<DataInPdu>, env: Env)
    requires t.pending == map[1 := stale] && t.nextDataSN == 0 && t.nextOffset == 0 && t.buf == [] && !t.streaming
    requires t.results == [] && t.erl >= 1 && env.snackSent && !stale.hasStatus && stale.dataSN == 1
    requires Conforming(pdus) && |pdus| == 3 && |stale.data| == |pdus[1].data|
    ensures Loop(t, Feed(InOrder(pdus, [env, env, env]))).results
            == [ResultWith(pdus[2], pdus[0].data + stale.data + pdus[2].data)]
  {
    var arrivals := InOrder(pdus, [env, env, env]);
    assert InPlace(pdus, 0) && InPlace(pdus, 1) && InPlace(pdus, 2);
    assert arrivals == [Arrival(pdus[0], env), Arrival(pdus[1], env), Arrival(pdus[2], env)];
    LoopIsRunOfSeen(t, arrivals);
    SeenIsFed(arrivals);
    RunThree(t, arrivals[0], arrivals[1], arrivals[2]);
    StaleIsDrained(t, stale, pdus[0], env);
    ThreePayloads(pdus);
    LastDelivers(AfterDataIn(t, pdus[0], env), pdus[1], pdus[2], env, env);
  }

  lemma ThreePayloads(pdus: seq<DataInPdu>)
    requires |pdus| == 3
    ensures |Payload(pdus, 0)| == 0 && |Payload(pdus, 1)| == |pdus[0].data|
    ensures |Payload(pdus, 2)| == |pdus[0].data| + |pdus[1].data|
  {
  }
}
