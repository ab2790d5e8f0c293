/**
 * What the SNACKs sent so far account for, for any stream of Data-In PDUs whatsoever
 * (section 11.16 of RFC 7143). DataSN distances are measured forward, modulo 2^32.
 */
module SnackCoverage {
  import opened Prelude
  import opened DataIn
  import opened Reassembly

  function Ahead(from: u32, to: u32): u32 {
    if from <= to then to - from else to - from + TWO32
  }

  /** The run of a data SNACK contains the DataSN sn. */
  predicate Asks(s: SnackPdu, sn: u32) {
    s.kind == SNACK_DATA && Ahead(s.begRun, sn) < s.runLength
  }

  /** The run of s ends just below k, and the task has not got past k since s was sent. */
  predicate LeadsTo(s: SnackPdu, k: u32, next: u32) {
    && s.kind == SNACK_DATA
    && s.runLength == Ahead(s.begRun, k)
    && Ahead(s.begRun, next) <= s.runLength
  }

  ghost predicate Covered(t: TaskState, k: u32) {
    exists i | 0 <= i < |t.sent| :: LeadsTo(t.sent[i], k, t.nextDataSN)
  }

  /** Every early PDU is led to by a SNACK; strictly, none of them is next in line. */
  ghost predicate AllCovered(t: TaskState) {
    forall k | k in t.pending :: Covered(t, k)
  }

  ghost predicate CoverageInv(t: TaskState) {
    t.results == [] ==> AllCovered(t) && t.nextDataSN !in t.pending
  }

  lemma AheadAdvances(beg: u32, next: u32, k: u32)
    requires Ahead(beg, next) <= Ahead(beg, k) && next != k
    ensures Ahead(beg, Wrap(next + 1)) == Ahead(beg, next) + 1 <= Ahead(beg, k)
  {
  }

  lemma AheadSplits(beg: u32, next: u32, j: u32, k: u32)
    requires Ahead(beg, next) <= Ahead(beg, k)
    requires Ahead(next, j) < Ahead(next, k)
    ensures Ahead(beg, j) < Ahead(beg, k)
  {
  }

  /** Moving past a DataSN that is not buffered keeps every SNACK leading to its PDU. */
  lemma AdvanceKeepsCover(t: TaskState, r: TaskState)
    requires AllCovered(t)
    requires r.nextDataSN == Wrap(t.nextDataSN + 1) && t.sent <= r.sent
    requires forall k | k in r.pending :: k in t.pending && k != t.nextDataSN
    ensures AllCovered(r)
  {
    forall k | k in r.pending ensures Covered(r, k) {
      var i :| 0 <= i < |t.sent| && LeadsTo(t.sent[i], k, t.nextDataSN);
      AheadAdvances(t.sent[i].begRun, t.nextDataSN, k);
      assert LeadsTo(r.sent[i], k, r.nextDataSN);
    }
  }

  lemma {:induction false} DrainCovers(t: TaskState)
    requires Filed(t.pending) && AllCovered(t)
    ensures CoverageInv(Drain(t))
    decreases |t.pending|
  {
    if t.nextDataSN in t.pending && !t.pending[t.nextDataSN].hasStatus {
      AdvanceKeepsCover(t, TakeNext(t));
      DrainCovers(TakeNext(t));
    }
  }

  lemma GapCovers(t: TaskState, din: DataInPdu, env: Env)
    requires CoverageInv(t) && t.erl >= 1 && din.dataSN != t.nextDataSN
    ensures CoverageInv(AfterGap(t, din, env))
  {
    var r := AfterGap(t, din, env);
    if r.results == [] {
      forall k | k in r.pending ensures Covered(r, k) {
        if k == din.dataSN {
          assert LeadsTo(r.sent[|t.sent|], k, r.nextDataSN);
        } else {
          var i :| 0 <= i < |t.sent| && LeadsTo(t.sent[i], k, t.nextDataSN);
          assert LeadsTo(r.sent[i], k, r.nextDataSN);
        }
      }
    }
  }

  lemma SettleCovers(t: TaskState, din: DataInPdu, taken: bool)
    requires Filed(t.pending)
    requires t.results == [] ==> AllCovered(t)
    ensures CoverageInv(Settle(t, din, taken))
  {
    DrainKeepsResults(t);
    if t.results == [] {
      DrainCovers(t);
    }
  }

  lemma ArrivalCovers(t: TaskState, din: DataInPdu, env: Env)
    requires Filed(t.pending) && CoverageInv(t) && t.erl >= 1
    ensures CoverageInv(AfterDataIn(t, din, env))
  {
    if din.dataSN != t.nextDataSN {
      GapCovers(t, din, env);
    } else if din.bufferOffset == t.nextOffset {
      var t1 := AfterAck(Append(t, din), din, env);
      if t.results == [] {
        AdvanceKeepsCover(t, t1);
      }
      SettleCovers(t1, din, env.resultTaken);
    }
  }

  lemma {:induction false} DrainKeepsResults(t: TaskState)
    requires Filed(t.pending)
    ensures t.results <= Drain(t).results
    decreases |t.pending|
  {
    if t.nextDataSN in t.pending && !t.pending[t.nextDataSN].hasStatus {
      DrainKeepsResults(TakeNext(t));
    }
  }

  lemma {:induction false} RunCovers(t: TaskState, arrivals: seq<Arrival>)
    requires t == NewTask(t.itt, t.erl, true, t.streaming) && t.erl >= 1
    ensures CoverageInv(Run(t, arrivals))
  {
    if arrivals != [] {
      var n := |arrivals| - 1;
      RunCovers(t, arrivals[..n]);
      RunKeepsIdentity(t, arrivals[..n]);
      ArrivalCovers(Run(t, arrivals[..n]), arrivals[n].din, arrivals[n].env);
    }
  }

  /**
   * SNACK coverage. As long as the task has reported nothing, each missing DataSN from the
   * next expected one up to any buffered PDU lies in the run of a SNACK already sent.
   */
  lemma MissingIsAskedFor(t: TaskState, arrivals: seq<Arrival>, j: u32, k: u32)
    requires t == NewTask(t.itt, t.erl, true, t.streaming) && t.erl >= 1
    requires Run(t, arrivals).results == []
    requires k in Run(t, arrivals).pending
    requires Ahead(Run(t, arrivals).nextDataSN, j) < Ahead(Run(t, arrivals).nextDataSN, k)
    ensures exists s | s in Run(t, arrivals).sent :: Asks(s, j)
  {
    RunCovers(t, arrivals);
    var r := Run(t, arrivals);
    assert Covered(r, k);
    var i :| 0 <= i < |r.sent| && LeadsTo(r.sent[i], k, r.nextDataSN);
    AheadSplits(r.sent[i].begRun, r.nextDataSN, j, k);
    assert r.sent[i] in r.sent && Asks(r.sent[i], j);
  }

  // ---- DataACK -----------------------------------------------------------------------

  /** Every DataACK acknowledges a prefix of what has been consumed. */
  ghost predicate AcksBehind(t: TaskState) {
    forall s | s in t.sent && s.kind == SNACK_DATA_ACK :: s.begRun <= t.nextDataSN
  }

  lemma {:induction false} DrainAdvances(t: TaskState)
    requires Filed(t.pending) && t.nextDataSN + |t.pending| < TWO32
    ensures t.nextDataSN <= Drain(t).nextDataSN
    ensures Drain(t).nextDataSN + |Drain(t).pending| <= t.nextDataSN + |t.pending|
    ensures Drain(t).sent == t.sent
    decreases |t.pending|
  {
    if t.nextDataSN in t.pending && !t.pending[t.nextDataSN].hasStatus {
      DrainAdvances(TakeNext(t));
    }
  }

  lemma PutGrows<K, V>(m: map<K, V>, k: K, v: V)
    ensures |m[k := v]| <= |m| + 1
  {
    assert m[k := v].Keys == m.Keys + {k};
    assert |m.Keys + {k}| <= |m.Keys| + 1;
  }

  /** An upper bound on how far the task can get without further arrivals. */
  function Reach(t: TaskState): nat {
    t.nextDataSN + |t.pending|
  }

  lemma SettleAdvances(t: TaskState, din: DataInPdu, taken: bool)
    requires Filed(t.pending) && Reach(t) < TWO32
    ensures var r := Settle(t, din, taken);
      t.nextDataSN <= r.nextDataSN && Reach(r) <= Reach(t) && r.sent == t.sent
  {
    DrainAdvances(t);
  }

  lemma GapAcksBehind(t: TaskState, din: DataInPdu, env: Env)
    requires AcksBehind(t)
    ensures AcksBehind(AfterGap(t, din, env))
    ensures Reach(AfterGap(t, din, env)) <= Reach(t) + 1
  {
    PutGrows(t.pending, din.dataSN, din);
  }

  lemma InOrderAcksBehind(t: TaskState, din: DataInPdu, env: Env)
    requires Reach(t) + 1 < TWO32
    requires AcksBehind(t)
    ensures AcksBehind(AfterAck(Append(t, din), din, env))
    ensures Reach(AfterAck(Append(t, din), din, env)) == Reach(t) + 1
  {
  }

  lemma ArrivalAcksBehind(t: TaskState, din: DataInPdu, env: Env)
    requires Filed(t.pending) && Reach(t) + 1 < TWO32
    requires AcksBehind(t)
    ensures AcksBehind(AfterDataIn(t, din, env))
    ensures Reach(AfterDataIn(t, din, env)) <= Reach(t) + 1
  {
    if din.dataSN != t.nextDataSN {
      GapAcksBehind(t, din, env);
    } else if din.bufferOffset == t.nextOffset {
      InOrderAcksBehind(t, din, env);
      SettleAdvances(AfterAck(Append(t, din), din, env), din, env.resultTaken);
    }
  }

  /**
   * A DataACK never acknowledges a DataSN that has not been appended, in any run of fewer
   * than 2^32 PDUs, whatever they are.
   */
  lemma {:induction false} AcksAreHonest(t: TaskState, arrivals: seq<Arrival>)
    requires t == NewTask(t.itt, t.erl, true, t.streaming)
    requires |arrivals| < TWO32
    ensures AcksBehind(Run(t, arrivals))
    ensures Reach(Run(t, arrivals)) <= |arrivals|
  {
    if arrivals != [] {
      var n := |arrivals| - 1;
      AcksAreHonest(t, arrivals[..n]);
      ArrivalAcksBehind(Run(t, arrivals[..n]), arrivals[n].din, arrivals[n].env);
    }
  }
}
