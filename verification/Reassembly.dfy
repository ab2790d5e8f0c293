/**
 * Confluence of Data-In reassembly: what the task ends up with depends only on which
 * PDUs of a conforming stream have arrived, not on their order or repetitions.
 */
module Reassembly {
  import opened Prelude
  import opened DataIn
  import Serial

  datatype Arrival = Arrival(din: DataInPdu, env: Env)

  function Run(t: TaskState, arrivals: seq<Arrival>): (r: TaskState)
    requires Filed(t.pending)
    ensures Filed(r.pending)
  {
    if arrivals == [] then t
    else
      var n := |arrivals| - 1;
      var before := Run(t, arrivals[..n]);
      AfterDataInKeepsFiled(before, arrivals[n].din, arrivals[n].env);
      AfterDataIn(before, arrivals[n].din, arrivals[n].env)
  }

  lemma RunSnoc(t: TaskState, arrivals: seq<Arrival>, a: Arrival)
    requires Filed(t.pending)
    ensures Run(t, arrivals + [a]) == AfterDataIn(Run(t, arrivals), a.din, a.env)
  {
    assert (arrivals + [a])[..|arrivals|] == arrivals;
  }

  /** The payloads of the first p PDUs, in DataSN order. */
  function Payload(pdus: seq<DataInPdu>, p: nat): bytes
    requires p <= |pdus|
  {
    if p == 0 then [] else Payload(pdus, p - 1) + pdus[p - 1].data
  }

  function Chunks(pdus: seq<DataInPdu>, p: nat): seq<StreamEvent>
    requires p <= |pdus|
  {
    if p == 0 then []
    else
      var front, data := Chunks(pdus, p - 1), pdus[p - 1].data;
      if data == [] then front else front + [Chunk(data)]
  }

  predicate InPlace(pdus: seq<DataInPdu>, k: nat)
    requires k < |pdus|
  {
    && pdus[k].dataSN == k
    && pdus[k].bufferOffset == Wrap(|Payload(pdus, k)|)
    && (pdus[k].hasStatus <==> k == |pdus| - 1)
  }

  /** Consecutive DataSN from 0, contiguous offsets, status on the last PDU only. */
  ghost predicate Conforming(pdus: seq<DataInPdu>) {
    && 0 < |pdus| < TWO32
    && forall k | 0 <= k < |pdus| :: InPlace(pdus, k)
  }

  /** Every arrival is a copy of a PDU of the stream. */
  ghost predicate Copies(pdus: seq<DataInPdu>, arrivals: seq<Arrival>) {
    forall i | 0 <= i < |arrivals| ::
      arrivals[i].din.dataSN < |pdus| && arrivals[i].din == pdus[arrivals[i].din.dataSN]
  }

  /** And every SNACK gets out. */
  ghost predicate Drawn(pdus: seq<DataInPdu>, arrivals: seq<Arrival>) {
    Copies(pdus, arrivals) && forall i | 0 <= i < |arrivals| :: arrivals[i].env.snackSent
  }

  function Have(arrivals: seq<Arrival>): set<u32> {
    set i | 0 <= i < |arrivals| :: arrivals[i].din.dataSN
  }

  /** The one Result that the stream as a whole stands for. */
  function ResultOf(pdus: seq<DataInPdu>, streaming: bool): TaskResult
    requires pdus != []
  {
    var last := pdus[|pdus| - 1];
    Completed(last.status, [], if streaming then None else Some(Payload(pdus, |pdus|)),
              last.overflow, last.underflow, last.residualCount)
  }

  /** The task has consumed exactly the first p PDUs and reported nothing yet. */
  ghost predicate Consumed(pdus: seq<DataInPdu>, t: TaskState, p: nat) {
    && p <= |pdus|
    && t.nextDataSN == p
    && t.nextOffset == Wrap(|Payload(pdus, p)|)
    && t.buf == (if t.streaming then [] else Payload(pdus, p))
    && t.stream == (if t.streaming then Chunks(pdus, p) else [])
    && t.results == []
    && !t.done
  }

  /** The task has consumed everything and delivered its Result. */
  ghost predicate Finished(pdus: seq<DataInPdu>, t: TaskState) {
    && pdus != []
    && t.nextDataSN == |pdus|
    && t.nextOffset == Wrap(|Payload(pdus, |pdus|)|)
    && t.buf == (if t.streaming then [] else Payload(pdus, |pdus|))
    && t.stream == (if t.streaming then Chunks(pdus, |pdus|) + [EndOfStream] else [])
    && t.results == [ResultOf(pdus, t.streaming)]
    && !t.done
  }

  /** Early PDUs are genuine copies, and none of those at or after p has been lost. */
  ghost predicate Kept(pdus: seq<DataInPdu>, have: set<u32>, pending: map<u32, DataInPdu>, p: nat) {
    && (forall k | k in pending :: k in have && k < |pdus| && pending[k] == pdus[k])
    && (forall k | k in have && p <= k :: k in pending)
    && (forall j: u32 | j < p :: j in have)
  }

  ghost predicate Inv(pdus: seq<DataInPdu>, have: set<u32>, t: TaskState) {
    var p := t.nextDataSN;
    && p <= |pdus|
    && (forall k | k in have :: k < |pdus| && k != p)
    && Kept(pdus, have, t.pending, p)
    && if p < |pdus| then Consumed(pdus, t, p) else Finished(pdus, t)
  }

  lemma AppendConsumes(pdus: seq<DataInPdu>, t: TaskState, p: nat)
    requires Conforming(pdus)
    requires p < |pdus| && Consumed(pdus, t, p)
    ensures Consumed(pdus, Append(t, pdus[p]), p + 1)
    ensures p + 1 == |pdus| ==> Finished(pdus, Deliver(Append(t, pdus[p]), pdus[p]))
  {
    Serial.WrapAdd(|Payload(pdus, p)|, |pdus[p].data|);
    assert InPlace(pdus, p);
  }

  lemma TakeNextConsumes(pdus: seq<DataInPdu>, have: set<u32>, t: TaskState, p: nat)
    requires Conforming(pdus)
    requires p < |pdus| && Filed(t.pending) && p in t.pending
    requires Kept(pdus, have, t.pending, p) && Consumed(pdus, t, p)
    ensures Kept(pdus, have, TakeNext(t).pending, p + 1)
    ensures Consumed(pdus, TakeNext(t), p + 1)
    ensures t.pending[p].hasStatus <==> p + 1 == |pdus|
    ensures p + 1 == |pdus| ==> Finished(pdus, Deliver(TakeNext(t), t.pending[p]))
  {
    assert InPlace(pdus, p);
    var t0 := t.(pending := t.pending - {p});
    assert Consumed(pdus, t0, p);
    AppendConsumes(pdus, t0, p);
    assert TakeNext(t) == Append(t0, pdus[p]);
  }

  lemma {:induction false} DrainReaches(pdus: seq<DataInPdu>, have: set<u32>, t: TaskState, p: nat)
    requires Conforming(pdus)
    requires p < |pdus| && Filed(t.pending)
    requires forall k | k in have :: k < |pdus|
    requires Kept(pdus, have, t.pending, p) && Consumed(pdus, t, p)
    ensures Inv(pdus, have, Drain(t))
    decreases |t.pending|
  {
    if p in t.pending {
      TakeNextConsumes(pdus, have, t, p);
      if p + 1 == |pdus| {
        StatusFinishes(pdus, have, Deliver(TakeNext(t), t.pending[p]));
      } else {
        DrainReaches(pdus, have, TakeNext(t), p + 1);
      }
    }
  }

  lemma StatusFinishes(pdus: seq<DataInPdu>, have: set<u32>, t: TaskState)
    requires 0 < |pdus| < TWO32
    requires forall k | k in have :: k < |pdus|
    requires Kept(pdus, have, t.pending, |pdus|) && Finished(pdus, t)
    ensures Inv(pdus, have, t)
  {
  }

  lemma SettleReaches(pdus: seq<DataInPdu>, have: set<u32>, t: TaskState, din: DataInPdu, p: nat, taken: bool)
    requires Conforming(pdus)
    requires p < |pdus| && Filed(t.pending)
    requires forall k | k in have :: k < |pdus|
    requires Kept(pdus, have, t.pending, p) && Consumed(pdus, t, p)
    requires !din.hasStatus
    ensures Inv(pdus, have, Settle(t, din, taken))
  {
    DrainReaches(pdus, have, t, p);
  }

  lemma SettleEnds(pdus: seq<DataInPdu>, have: set<u32>, t: TaskState, din: DataInPdu, taken: bool)
    requires 0 < |pdus| < TWO32 && Filed(t.pending)
    requires forall k | k in have :: k < |pdus|
    requires Kept(pdus, have, t.pending, |pdus|) && t.nextDataSN == |pdus| && t.results == []
    requires din.hasStatus && Finished(pdus, Deliver(t, din))
    ensures Inv(pdus, have, Settle(t, din, taken))
  {
    assert t.nextDataSN !in t.pending;
    StatusFinishes(pdus, have, Deliver(t, din));
  }

  lemma KeptOneMore(pdus: seq<DataInPdu>, have: set<u32>, pending: map<u32, DataInPdu>, p: u32)
    requires Kept(pdus, have, pending, p)
    ensures Kept(pdus, have + {p}, pending, p as int + 1)
  {
  }

  lemma ArrivalInOrder(pdus: seq<DataInPdu>, have: set<u32>, t: TaskState, env: Env)
    requires Conforming(pdus)
    requires Filed(t.pending) && Inv(pdus, have, t) && t.nextDataSN < |pdus|
    ensures Inv(pdus, have + {t.nextDataSN}, AfterDataIn(t, pdus[t.nextDataSN], env))
  {
    var p: nat := t.nextDataSN;
    var din, have' := pdus[p], have + {t.nextDataSN};
    assert InPlace(pdus, p);
    AppendConsumes(pdus, t, p);
    KeptOneMore(pdus, have, t.pending, t.nextDataSN);
    var t1 := AfterAck(Append(t, din), din, env);
    assert t1.pending == t.pending;
    assert AfterDataIn(t, din, env) == Settle(t1, din, env.resultTaken);
    if p + 1 < |pdus| {
      SettleReaches(pdus, have', t1, din, p + 1, env.resultTaken);
    } else {
      SettleEnds(pdus, have', t1, din, env.resultTaken);
    }
  }

  lemma ArrivalOutOfOrder(pdus: seq<DataInPdu>, have: set<u32>, t: TaskState, k: u32, env: Env)
    requires Conforming(pdus)
    requires Filed(t.pending) && Inv(pdus, have, t)
    requires k < |pdus| && k != t.nextDataSN && t.erl >= 1 && env.snackSent
    ensures Inv(pdus, have + {k}, AfterDataIn(t, pdus[k], env))
  {
    assert InPlace(pdus, k);
  }

  lemma {:induction false} DrainKeepsIdentity(t: TaskState)
    requires Filed(t.pending)
    ensures SameIdentity(t, Drain(t))
    ensures Drain(t).sent == t.sent
    decreases |t.pending|
  {
    if t.nextDataSN in t.pending && !t.pending[t.nextDataSN].hasStatus {
      DrainKeepsIdentity(TakeNext(t));
    }
  }

  predicate SameIdentity(t: TaskState, r: TaskState) {
    r.itt == t.itt && r.erl == t.erl && r.streaming == t.streaming && r.isRead == t.isRead
  }

  lemma SettleKeepsIdentity(t: TaskState, din: DataInPdu, taken: bool)
    requires Filed(t.pending)
    ensures SameIdentity(t, Settle(t, din, taken))
  {
    DrainKeepsIdentity(t);
  }

  lemma DataInKeepsIdentity(t: TaskState, din: DataInPdu, env: Env)
    requires Filed(t.pending)
    ensures SameIdentity(t, AfterDataIn(t, din, env))
  {
    if din.dataSN != t.nextDataSN {
      assert SameIdentity(t, AfterGap(t, din, env));
    } else if din.bufferOffset == t.nextOffset {
      var t1 := AfterAck(Append(t, din), din, env);
      assert SameIdentity(t, t1);
      SettleKeepsIdentity(t1, din, env.resultTaken);
      assert AfterDataIn(t, din, env) == Settle(t1, din, env.resultTaken);
    }
  }

  lemma {:induction false} RunKeepsIdentity(t: TaskState, arrivals: seq<Arrival>)
    requires Filed(t.pending)
    ensures SameIdentity(t, Run(t, arrivals))
  {
    if arrivals != [] {
      var n := |arrivals| - 1;
      RunKeepsIdentity(t, arrivals[..n]);
      DataInKeepsIdentity(Run(t, arrivals[..n]), arrivals[n].din, arrivals[n].env);
    }
  }

  /** At level 0 no PDU is kept early. */
  lemma {:induction false} LevelZeroKeepsNothing(t: TaskState, arrivals: seq<Arrival>)
    requires t.erl == 0 && t.pending == map[]
    ensures Run(t, arrivals).erl == 0 && Run(t, arrivals).pending == map[]
  {
    if arrivals != [] {
      LevelZeroKeepsNothing(t, arrivals[..|arrivals| - 1]);
    }
  }

  lemma HaveSnoc(arrivals: seq<Arrival>)
    requires arrivals != []
    ensures Have(arrivals) == Have(arrivals[..|arrivals| - 1]) + {arrivals[|arrivals| - 1].din.dataSN}
  {
    var n := |arrivals| - 1;
    forall x | x in Have(arrivals) ensures x in Have(arrivals[..n]) + {arrivals[n].din.dataSN} {
      var i :| 0 <= i < |arrivals| && arrivals[i].din.dataSN == x;
      if i < n {
        assert arrivals[..n][i] == arrivals[i];
      }
    }
    forall x | x in Have(arrivals[..n]) ensures x in Have(arrivals) {
      var i :| 0 <= i < n && arrivals[..n][i].din.dataSN == x;
      assert arrivals[i].din.dataSN == x;
    }
  }

  /**
   * The invariant of every run at ErrorRecoveryLevel >= 1, for any arrival order with any
   * duplicates: the task has consumed the longest gap-free prefix of what has arrived, and
   * keeps the rest.
   */
  lemma {:induction false} RunInvariant(pdus: seq<DataInPdu>, t: TaskState, arrivals: seq<Arrival>)
    requires Conforming(pdus)
    requires t == NewTask(t.itt, t.erl, true, t.streaming) && t.erl >= 1
    requires Drawn(pdus, arrivals)
    ensures Inv(pdus, Have(arrivals), Run(t, arrivals))
  {
    if arrivals != [] {
      var n := |arrivals| - 1;
      RunInvariant(pdus, t, arrivals[..n]);
      RunKeepsIdentity(t, arrivals[..n]);
      HaveSnoc(arrivals);
      var before, k := Run(t, arrivals[..n]), arrivals[n].din.dataSN;
      if k == before.nextDataSN {
        ArrivalInOrder(pdus, Have(arrivals[..n]), before, arrivals[n].env);
      } else {
        ArrivalOutOfOrder(pdus, Have(arrivals[..n]), before, k, arrivals[n].env);
      }
    }
  }

  ghost predicate Complete(pdus: seq<DataInPdu>, arrivals: seq<Arrival>) {
    forall k: u32 | k < |pdus| :: k in Have(arrivals)
  }

  lemma InvReadsResults(pdus: seq<DataInPdu>, have: set<u32>, t: TaskState)
    requires 0 < |pdus| < TWO32 && Inv(pdus, have, t)
    ensures t.nextDataSN == |pdus| <==> forall k: u32 | k < |pdus| :: k in have
    ensures t.nextDataSN == |pdus| ==> t.results == [ResultOf(pdus, t.streaming)]
    ensures t.nextDataSN < |pdus| ==> t.results == []
  {
    assert t.nextDataSN !in have;
  }

  /**
   * Exactly one Result, exactly when everything has arrived, with the payloads in DataSN
   * order; before that, none.
   */
  lemma DeliversExactlyWhenComplete(pdus: seq<DataInPdu>, t: TaskState, arrivals: seq<Arrival>)
    requires Conforming(pdus)
    requires t == NewTask(t.itt, t.erl, true, t.streaming) && t.erl >= 1
    requires Drawn(pdus, arrivals)
    ensures Run(t, arrivals).results ==
            if Complete(pdus, arrivals) then [ResultOf(pdus, t.streaming)] else []
  {
    RunInvariant(pdus, t, arrivals);
    RunKeepsIdentity(t, arrivals);
    InvReadsResults(pdus, Have(arrivals), Run(t, arrivals));
  }

  /** Two runs that have seen the same set of PDUs agree on everything but their bookkeeping. */
  lemma Confluence(pdus: seq<DataInPdu>, t: TaskState, a: seq<Arrival>, b: seq<Arrival>)
    requires Conforming(pdus)
    requires t == NewTask(t.itt, t.erl, true, t.streaming) && t.erl >= 1
    requires Drawn(pdus, a) && Drawn(pdus, b) && Have(a) == Have(b)
    ensures var ra, rb := Run(t, a), Run(t, b);
      && ra.nextDataSN == rb.nextDataSN && ra.nextOffset == rb.nextOffset
      && ra.buf == rb.buf && ra.stream == rb.stream && ra.results == rb.results
  {
    RunInvariant(pdus, t, a);
    RunInvariant(pdus, t, b);
    RunKeepsIdentity(t, a);
    RunKeepsIdentity(t, b);
    var pa, pb := Run(t, a).nextDataSN, Run(t, b).nextDataSN;
    assert pa <= pb by { assert pb !in Have(a); }
    assert pb <= pa by { assert pa !in Have(b); }
  }

  function InOrder(pdus: seq<DataInPdu>, envs: seq<Env>): (arrivals: seq<Arrival>)
    requires |envs| == |pdus|
    ensures |arrivals| == |pdus|
  {
    seq(|pdus|, i requires 0 <= i < |pdus| => Arrival(pdus[i], envs[i]))
  }

  lemma InvPinsNext(pdus: seq<DataInPdu>, have: set<u32>, t: TaskState, p: nat)
    requires Inv(pdus, have, t)
    requires forall k: u32 :: k in have <==> k < p
    requires p < TWO32
    ensures t.nextDataSN == p
  {
    assert t.nextDataSN !in have;
    var q: u32 := p;
    assert q < t.nextDataSN ==> q in have;
  }

  lemma HaveInOrder(pdus: seq<DataInPdu>, envs: seq<Env>, p: nat)
    requires Conforming(pdus) && |envs| == |pdus| && p <= |pdus|
    ensures forall k: u32 :: k in Have(InOrder(pdus, envs)[..p]) <==> k < p
  {
    var arrivals := InOrder(pdus, envs)[..p];
    forall i | 0 <= i < p ensures arrivals[i].din.dataSN == i {
      assert InPlace(pdus, i);
    }
    forall k: u32 | k < p ensures k in Have(arrivals) {
      assert arrivals[k].din.dataSN == k;
    }
  }

  /** At any level, also 0, feeding the stream in order consumes one PDU at a time. */
  lemma {:induction false} InOrderConsumes(pdus: seq<DataInPdu>, t: TaskState, envs: seq<Env>, p: nat)
    requires Conforming(pdus) && |envs| == |pdus|
    requires t == NewTask(t.itt, t.erl, true, t.streaming)
    requires p <= |pdus|
    ensures Inv(pdus, Have(InOrder(pdus, envs)[..p]), Run(t, InOrder(pdus, envs)[..p]))
  {
    if p > 0 {
      InOrderConsumes(pdus, t, envs, p - 1);
      var arrivals := InOrder(pdus, envs)[..p];
      var front := InOrder(pdus, envs)[..p - 1];
      assert arrivals[..p - 1] == front;
      assert InPlace(pdus, p - 1);
      HaveSnoc(arrivals);
      HaveInOrder(pdus, envs, p - 1);
      InvPinsNext(pdus, Have(front), Run(t, front), p - 1);
      ArrivalInOrder(pdus, Have(front), Run(t, front), envs[p - 1]);
    }
  }

  /**
   * Recovery changes nothing: at level >= 1, any complete arrival order gives the Result
   * that an ErrorRecoveryLevel 0 task gives when it is fed the stream in order.
   */
  lemma RecoveryEqualsInOrder(pdus: seq<DataInPdu>, t: TaskState, arrivals: seq<Arrival>, envs: seq<Env>)
    requires Conforming(pdus) && |envs| == |pdus|
    requires t == NewTask(t.itt, t.erl, true, t.streaming) && t.erl >= 1
    requires Drawn(pdus, arrivals)
    requires Complete(pdus, arrivals)
    ensures Run(t, arrivals).results == Run(t.(erl := 0), InOrder(pdus, envs)).results
    ensures Run(t, arrivals).stream == Run(t.(erl := 0), InOrder(pdus, envs)).stream
  {
    RunInvariant(pdus, t, arrivals);
    RunKeepsIdentity(t, arrivals);
    InvReadsResults(pdus, Have(arrivals), Run(t, arrivals));
    var t0, inOrder := t.(erl := 0), InOrder(pdus, envs);
    InOrderConsumes(pdus, t0, envs, |pdus|);
    HaveInOrder(pdus, envs, |pdus|);
    assert inOrder[..|pdus|] == inOrder;
    RunKeepsIdentity(t0, inOrder);
    InvReadsResults(pdus, Have(inOrder), Run(t0, inOrder));
  }
}
