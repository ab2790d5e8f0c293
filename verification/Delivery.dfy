/**
 * What the task loop hands over at each ErrorRecoveryLevel, whatever order the PDUs of a
 * stream come in and whichever SNACKs cannot be sent: Results, and chunks for the reader.
 */
module Delivery {
  import opened Prelude
  import opened DataIn
  import opened Reassembly
  import opened TaskLoop
  import Serial
  import S = Streaming
  import C = ChanReader

  // ---- How far a task gets ------------------------------------------------------------------

  /** Without recovery only the PDU next in line counts. */
  function InTurn(arrivals: seq<Arrival>): nat {
    if arrivals == [] then 0
    else
      var n := InTurn(arrivals[..|arrivals| - 1]);
      if arrivals[|arrivals| - 1].din.dataSN == n then n + 1 else n
  }

  /** The first number from k on that is not in the set. */
  function FirstMissing(have: set<u32>, k: nat): (p: nat)
    ensures k <= p && forall j: u32 | k <= j < p :: j in have
    ensures p < TWO32 ==> p !in have
    decreases TWO32 - k
  {
    if k < TWO32 && k in have then FirstMissing(have, k + 1) else k
  }

  /** The DataSN that the task waits for. */
  function NextOf(erl: nat, arrivals: seq<Arrival>): nat {
    if erl == 0 then InTurn(arrivals) else FirstMissing(Have(arrivals), 0)
  }

  lemma TurnComes(pdus: seq<DataInPdu>, r: TaskState, a: Arrival)
    requires Conforming(pdus) && r.erl == 0 && r.pending == map[]
    requires r.nextDataSN <= |pdus| && r.nextOffset == Wrap(|Payload(pdus, r.nextDataSN)|)
    requires a.din.dataSN < |pdus| && a.din == pdus[a.din.dataSN]
    ensures var r' := AfterDataIn(r, a.din, a.env);
      && r'.nextDataSN == r.nextDataSN + (if a.din.dataSN == r.nextDataSN then 1 else 0)
      && r'.nextOffset == Wrap(|Payload(pdus, r'.nextDataSN)|) && r'.pending == map[] && r'.erl == 0
  {
    if a.din.dataSN == r.nextDataSN {
      assert InPlace(pdus, r.nextDataSN);
      Serial.WrapAdd(|Payload(pdus, r.nextDataSN)|, |a.din.data|);
    }
  }

  lemma {:induction false} NextInTurn(pdus: seq<DataInPdu>, t: TaskState, arrivals: seq<Arrival>)
    requires Conforming(pdus) && Copies(pdus, arrivals) && t == NewTask(t.itt, 0, true, t.streaming)
    ensures var r := Run(t, arrivals);
      && r.nextDataSN == InTurn(arrivals) <= |pdus| && r.nextOffset == Wrap(|Payload(pdus, r.nextDataSN)|)
      && r.pending == map[] && r.erl == 0
    decreases |arrivals|
  {
    if arrivals != [] {
      var n := |arrivals| - 1;
      NextInTurn(pdus, t, arrivals[..n]);
      TurnComes(pdus, Run(t, arrivals[..n]), arrivals[n]);
    }
  }

  /** The two tasks have come equally far. */
  predicate Alike(r: TaskState, s: TaskState) {
    && r.erl == s.erl && r.streaming == s.streaming && r.pending == s.pending
    && r.nextDataSN == s.nextDataSN && r.nextOffset == s.nextOffset && r.buf == s.buf
  }

  lemma AppendKeepsAlike(r: TaskState, s: TaskState, din: DataInPdu)
    requires Alike(r, s)
    ensures Alike(Append(r, din), Append(s, din))
  {
  }

  lemma TakeKeepsAlike(r: TaskState, s: TaskState)
    requires Alike(r, s) && Filed(r.pending) && r.nextDataSN in r.pending
    ensures Alike(TakeNext(r), TakeNext(s))
  {
    var k := r.nextDataSN;
    AppendKeepsAlike(r.(pending := r.pending - {k}), s.(pending := s.pending - {k}), r.pending[k]);
  }

  lemma {:induction false} DrainKeepsAlike(r: TaskState, s: TaskState)
    requires Alike(r, s) && Filed(r.pending)
    ensures Alike(Drain(r), Drain(s))
    decreases |r.pending|
  {
    if r.nextDataSN in r.pending {
      TakeKeepsAlike(r, s);
      if !r.pending[r.nextDataSN].hasStatus {
        DrainKeepsAlike(TakeNext(r), TakeNext(s));
      }
    }
  }

  lemma SettleKeepsAlike(r: TaskState, s: TaskState, din: DataInPdu, taken: bool, taken': bool)
    requires Alike(r, s) && Filed(r.pending)
    ensures Alike(Settle(r, din, taken), Settle(s, din, taken'))
  {
    DrainKeepsAlike(r, s);
  }

  /** How far a task comes does not depend on its SNACKs, nor on what it has reported. */
  lemma ArrivalKeepsAlike(r: TaskState, s: TaskState, din: DataInPdu, env: Env, env': Env)
    requires Alike(r, s) && Filed(r.pending)
    ensures Alike(AfterDataIn(r, din, env), AfterDataIn(s, din, env'))
  {
    if din.dataSN != r.nextDataSN {
      GapKeepsAlike(r, s, din, env, env');
    } else if din.bufferOffset == r.nextOffset {
      AppendKeepsAlike(r, s, din);
      AckKeepsAlike(Append(r, din), Append(s, din), din, env, env');
      SettleKeepsAlike(AfterAck(Append(r, din), din, env), AfterAck(Append(s, din), din, env'), din,
                       env.resultTaken, env'.resultTaken);
    }
  }

  lemma GapKeepsAlike(r: TaskState, s: TaskState, din: DataInPdu, env: Env, env': Env)
    requires Alike(r, s)
    ensures Alike(AfterGap(r, din, env), AfterGap(s, din, env'))
  {
    GapLeaves(r, din, env);
    GapLeaves(s, din, env');
  }

  lemma GapLeaves(t: TaskState, din: DataInPdu, env: Env)
    ensures var r := AfterGap(t, din, env);
      && r.pending == (if t.erl >= 1 then t.pending[din.dataSN := din] else t.pending)
      && r.erl == t.erl && r.streaming == t.streaming && r.buf == t.buf
      && r.nextDataSN == t.nextDataSN && r.nextOffset == t.nextOffset
  {
  }

  lemma AckKeepsAlike(r: TaskState, s: TaskState, din: DataInPdu, env: Env, env': Env)
    requires Alike(r, s)
    ensures Alike(AfterAck(r, din, env), AfterAck(s, din, env'))
  {
  }

  /** The same arrivals, but every SNACK gets out. */
  function AllSent(arrivals: seq<Arrival>): (sent: seq<Arrival>)
    ensures |sent| == |arrivals|
  {
    seq(|arrivals|, i requires 0 <= i < |arrivals| => arrivals[i].(env := arrivals[i].env.(snackSent := true)))
  }

  lemma {:induction false} RunKeepsAlike(t: TaskState, arrivals: seq<Arrival>)
    requires Filed(t.pending)
    ensures Alike(Run(t, arrivals), Run(t, AllSent(arrivals)))
    decreases |arrivals|
  {
    if arrivals != [] {
      var n := |arrivals| - 1;
      RunKeepsAlike(t, arrivals[..n]);
      assert AllSent(arrivals)[..n] == AllSent(arrivals[..n]);
      ArrivalKeepsAlike(Run(t, arrivals[..n]), Run(t, AllSent(arrivals[..n])), arrivals[n].din, arrivals[n].env,
                        AllSent(arrivals)[n].env);
    }
  }

  lemma AllSentHas(arrivals: seq<Arrival>)
    ensures Have(AllSent(arrivals)) == Have(arrivals)
  {
    assert forall i | 0 <= i < |arrivals| :: AllSent(arrivals)[i].din == arrivals[i].din;
  }

  lemma InvIsFirstMissing(pdus: seq<DataInPdu>, have: set<u32>, t: TaskState)
    requires Inv(pdus, have, t) && |pdus| < TWO32
    ensures t.nextDataSN == FirstMissing(have, 0)
  {
    assert t.nextDataSN !in have;
  }

  /** At every level, after any arrivals: which PDU the task waits for, and what it keeps. */
  lemma NextIs(pdus: seq<DataInPdu>, t: TaskState, arrivals: seq<Arrival>)
    requires Conforming(pdus) && Copies(pdus, arrivals) && t == NewTask(t.itt, t.erl, true, t.streaming)
    ensures var r := Run(t, arrivals);
      && r.nextDataSN == NextOf(t.erl, arrivals) <= |pdus| && Holds(pdus, r)
      && r.erl == t.erl && r.streaming == t.streaming
  {
    RunKeepsIdentity(t, arrivals);
    if t.erl == 0 {
      NextInTurn(pdus, t, arrivals);
    } else {
      var sent := AllSent(arrivals);
      RunKeepsAlike(t, arrivals);
      RunInvariant(pdus, t, sent);
      AllSentHas(arrivals);
      InvIsFirstMissing(pdus, Have(sent), Run(t, sent));
    }
  }

  /** All that the task keeps are copies, and the offset that it waits for is that of the next PDU. */
  ghost predicate Holds(pdus: seq<DataInPdu>, t: TaskState) {
    && t.nextDataSN <= |pdus| && t.nextOffset == Wrap(|Payload(pdus, t.nextDataSN)|)
    && (forall k | k in t.pending :: k < |pdus| && t.pending[k] == pdus[k])
  }

  // ---- Where a task fails -------------------------------------------------------------------

  /** The task cannot use the i-th arrival: it is not the PDU next in line, and no SNACK gets out. */
  predicate Misses(erl: nat, arrivals: seq<Arrival>, i: nat)
    requires i < |arrivals|
  {
    arrivals[i].din.dataSN != NextOf(erl, arrivals[..i]) && (erl == 0 || !arrivals[i].env.snackSent)
  }

  predicate NeverMisses(erl: nat, arrivals: seq<Arrival>) {
    forall i | 0 <= i < |arrivals| :: !Misses(erl, arrivals, i)
  }

  predicate FirstMiss(erl: nat, arrivals: seq<Arrival>, i: nat) {
    i < |arrivals| && Misses(erl, arrivals, i) && NeverMisses(erl, arrivals[..i])
  }

  lemma MissesOfFront(erl: nat, arrivals: seq<Arrival>, n: nat, i: nat)
    requires i < n <= |arrivals|
    ensures Misses(erl, arrivals[..n], i) <==> Misses(erl, arrivals, i)
  {
    assert arrivals[..n][..i] == arrivals[..i];
  }

  lemma NeverMissesSnoc(erl: nat, arrivals: seq<Arrival>)
    requires arrivals != []
    ensures var n := |arrivals| - 1;
      NeverMisses(erl, arrivals) <==> NeverMisses(erl, arrivals[..n]) && !Misses(erl, arrivals, n)
  {
    var n := |arrivals| - 1;
    forall i | 0 <= i < n ensures Misses(erl, arrivals[..n], i) <==> Misses(erl, arrivals, i) {
      MissesOfFront(erl, arrivals, n, i);
    }
  }

  /** Either it never misses, or there is a first time. */
  lemma {:induction false} MissesFirst(erl: nat, arrivals: seq<Arrival>)
    ensures NeverMisses(erl, arrivals) || exists i :: FirstMiss(erl, arrivals, i)
    decreases |arrivals|
  {
    if arrivals != [] {
      var n := |arrivals| - 1;
      MissesFirst(erl, arrivals[..n]);
      NeverMissesSnoc(erl, arrivals);
      if NeverMisses(erl, arrivals[..n]) {
        assert NeverMisses(erl, arrivals) || FirstMiss(erl, arrivals, n);
      } else {
        var i: nat :| FirstMiss(erl, arrivals[..n], i);
        MissesOfFront(erl, arrivals, n, i);
        assert arrivals[..n][..i] == arrivals[..i];
        assert FirstMiss(erl, arrivals, i);
      }
    }
  }

  lemma FirstMissIsOne(erl: nat, arrivals: seq<Arrival>, i: nat, j: nat)
    requires FirstMiss(erl, arrivals, i) && FirstMiss(erl, arrivals, j)
    ensures i == j && !NeverMisses(erl, arrivals)
  {
    if i < j {
      MissesOfFront(erl, arrivals, j, i);
    } else if j < i {
      MissesOfFront(erl, arrivals, i, j);
    }
  }

  /** As long as it never misses, it gathers as at level 1 with all SNACKs sent. */
  lemma {:induction false} GathersUntilMiss(pdus: seq<DataInPdu>, t: TaskState, arrivals: seq<Arrival>)
    requires Conforming(pdus) && Copies(pdus, arrivals) && t == NewTask(t.itt, t.erl, true, t.streaming)
    requires NeverMisses(t.erl, arrivals)
    ensures Inv(pdus, Have(arrivals), Run(t, arrivals))
    decreases |arrivals|
  {
    if arrivals != [] {
      var n := |arrivals| - 1;
      NeverMissesSnoc(t.erl, arrivals);
      GathersUntilMiss(pdus, t, arrivals[..n]);
      NextIs(pdus, t, arrivals[..n]);
      HaveSnoc(arrivals);
      var before, k := Run(t, arrivals[..n]), arrivals[n].din.dataSN;
      if k == before.nextDataSN {
        ArrivalInOrder(pdus, Have(arrivals[..n]), before, arrivals[n].env);
      } else {
        ArrivalOutOfOrder(pdus, Have(arrivals[..n]), before, k, arrivals[n].env);
      }
    }
  }

  // ---- What it does after that ----------------------------------------------------------------

  /** There are data in the PDUs from q on and below p. */
  predicate DataBetween(pdus: seq<DataInPdu>, q: nat, p: nat) {
    exists k | 0 <= k < |pdus| :: q <= k < p && pdus[k].data != []
  }

  lemma DataBetweenNext(pdus: seq<DataInPdu>, q: nat, p: nat)
    requires q <= p < |pdus|
    ensures DataBetween(pdus, q, p + 1) <==> DataBetween(pdus, q, p) || pdus[p].data != []
  {
    if k :| 0 <= k < |pdus| && q <= k < p && pdus[k].data != [] {
      assert q <= k < p + 1;
    }
  }

  /** The task has reported `first` when it waited for PDU q, and has gone on since. */
  ghost predicate Torn(pdus: seq<DataInPdu>, t: TaskState, q: nat, first: TaskResult) {
    && Holds(pdus, t) && q <= t.nextDataSN
    && t.results != [] && t.results[0] == first
    && (t.streaming ==> S.Ending(t.stream) != None
                        && (S.SendsAfterClose(t.stream) <==> DataBetween(pdus, q, t.nextDataSN)))
  }

  lemma AppendHolds(pdus: seq<DataInPdu>, t: TaskState)
    requires Conforming(pdus) && Holds(pdus, t) && t.nextDataSN < |pdus|
    ensures Holds(pdus, Append(t, pdus[t.nextDataSN]))
    ensures Append(t, pdus[t.nextDataSN]).nextDataSN == t.nextDataSN + 1
  {
    Serial.WrapAdd(|Payload(pdus, t.nextDataSN)|, |pdus[t.nextDataSN].data|);
  }

  lemma AppendStaysTorn(pdus: seq<DataInPdu>, t: TaskState, q: nat, first: TaskResult)
    requires Conforming(pdus) && Torn(pdus, t, q, first) && t.nextDataSN < |pdus|
    ensures Torn(pdus, Append(t, pdus[t.nextDataSN]), q, first)
  {
    var p := t.nextDataSN;
    AppendHolds(pdus, t);
    S.SendsSnoc(t.stream, Chunk(pdus[p].data));
    DataBetweenNext(pdus, q, p);
  }

  lemma DeliverStaysTorn(pdus: seq<DataInPdu>, t: TaskState, q: nat, first: TaskResult, din: DataInPdu)
    requires Torn(pdus, t, q, first)
    ensures Torn(pdus, Deliver(t, din), q, first)
  {
    S.SendsSnoc(t.stream, EndOfStream);
  }

  lemma {:induction false} DrainStaysTorn(pdus: seq<DataInPdu>, t: TaskState, q: nat, first: TaskResult)
    requires Conforming(pdus) && Filed(t.pending) && Torn(pdus, t, q, first)
    ensures Torn(pdus, Drain(t), q, first)
    decreases |t.pending|
  {
    if t.nextDataSN in t.pending {
      var t0 := t.(pending := t.pending - {t.nextDataSN});
      assert Torn(pdus, t0, q, first);
      AppendStaysTorn(pdus, t0, q, first);
      if t.pending[t.nextDataSN].hasStatus {
        DeliverStaysTorn(pdus, TakeNext(t), q, first, t.pending[t.nextDataSN]);
      } else {
        DrainStaysTorn(pdus, TakeNext(t), q, first);
      }
    }
  }

  lemma SettleStaysTorn(pdus: seq<DataInPdu>, t: TaskState, q: nat, first: TaskResult, din: DataInPdu, taken: bool)
    requires Conforming(pdus) && Filed(t.pending) && Torn(pdus, t, q, first)
    ensures Torn(pdus, Settle(t, din, taken), q, first)
  {
    DrainStaysTorn(pdus, t, q, first);
    DeliverStaysTorn(pdus, Drain(t), q, first, din);
    DeliverStaysTorn(pdus, t, q, first, din);
  }

  lemma GapStaysTorn(pdus: seq<DataInPdu>, t: TaskState, q: nat, first: TaskResult, a: Arrival)
    requires Torn(pdus, t, q, first) && a.din.dataSN < |pdus| && a.din == pdus[a.din.dataSN]
    ensures Torn(pdus, AfterGap(t, a.din, a.env), q, first)
  {
    GapLeaves(t, a.din, a.env);
    S.SendsSnoc(t.stream, Broken(SnackSendFailed));
    S.SendsSnoc(t.stream, Broken(DataSNGap(a.din.dataSN, t.nextDataSN)));
  }

  lemma ArrivalStaysTorn(pdus: seq<DataInPdu>, t: TaskState, q: nat, first: TaskResult, a: Arrival)
    requires Conforming(pdus) && Filed(t.pending) && Torn(pdus, t, q, first)
    requires a.din.dataSN < |pdus| && a.din == pdus[a.din.dataSN]
    ensures Torn(pdus, AfterDataIn(t, a.din, a.env), q, first)
  {
    if a.din.dataSN != t.nextDataSN {
      GapStaysTorn(pdus, t, q, first, a);
    } else {
      assert InPlace(pdus, t.nextDataSN);
      AppendStaysTorn(pdus, t, q, first);
      var t1 := AfterAck(Append(t, a.din), a.din, a.env);
      assert Torn(pdus, t1, q, first);
      SettleStaysTorn(pdus, t1, q, first, a.din, a.env.resultTaken);
    }
  }

  /** What the task reports when it misses. */
  function FailureOf(erl: nat, arrivals: seq<Arrival>, i: nat): TaskResult
    requires i < |arrivals| && NextOf(erl, arrivals[..i]) < TWO32
  {
    Failed(if erl == 0 then DataSNGap(arrivals[i].din.dataSN, NextOf(erl, arrivals[..i])) else SnackSendFailed)
  }

  lemma MissTears(pdus: seq<DataInPdu>, t: TaskState, a: Arrival, first: TaskResult)
    requires Filed(t.pending) && Holds(pdus, t) && t.results == []
    requires a.din.dataSN != t.nextDataSN && (t.erl == 0 || !a.env.snackSent)
    requires a.din.dataSN < |pdus| && a.din == pdus[a.din.dataSN]
    requires t.streaming ==> S.Ending(t.stream) == None && !S.SendsAfterClose(t.stream)
    requires first == Failed(if t.erl == 0 then DataSNGap(a.din.dataSN, t.nextDataSN) else SnackSendFailed)
    ensures Torn(pdus, AfterDataIn(t, a.din, a.env), t.nextDataSN, first)
  {
    S.SendsSnoc(t.stream, Broken(SnackSendFailed));
    S.SendsSnoc(t.stream, Broken(DataSNGap(a.din.dataSN, t.nextDataSN)));
  }

  lemma TornAtMiss(pdus: seq<DataInPdu>, t: TaskState, front: seq<Arrival>, a: Arrival)
    requires Conforming(pdus) && Copies(pdus, front + [a]) && t == NewTask(t.itt, t.erl, true, t.streaming)
    requires FirstMiss(t.erl, front + [a], |front|) && Fed(front + [a])
    ensures NextOf(t.erl, front) <= |pdus|
    ensures Torn(pdus, Run(t, front + [a]), NextOf(t.erl, front), FailureOf(t.erl, front + [a], |front|))
  {
    var all := front + [a];
    assert all[..|front|] == front && all[|front|] == a;
    assert forall i | 0 <= i < |front| :: front[i] == all[i];
    NextIs(pdus, t, front);
    NothingReportedBefore(pdus, t, front);
    var r, first := Run(t, front), FailureOf(t.erl, all, |front|);
    assert first == Failed(if r.erl == 0 then DataSNGap(a.din.dataSN, r.nextDataSN) else SnackSendFailed);
    MissTears(pdus, r, a, first);
    RunSnoc(t, front, a);
  }

  /** From its first miss on, among arrivals as a loop feeds them. */
  lemma {:induction false} TornSinceMiss(pdus: seq<DataInPdu>, t: TaskState, arrivals: seq<Arrival>, i: nat)
    requires Conforming(pdus) && Copies(pdus, arrivals) && t == NewTask(t.itt, t.erl, true, t.streaming)
    requires FirstMiss(t.erl, arrivals, i) && Fed(arrivals)
    ensures NextOf(t.erl, arrivals[..i]) <= |pdus|
    ensures Torn(pdus, Run(t, arrivals), NextOf(t.erl, arrivals[..i]), FailureOf(t.erl, arrivals, i))
    decreases |arrivals|
  {
    var n := |arrivals| - 1;
    if i == n {
      assert arrivals[..n] + [arrivals[n]] == arrivals;
      TornAtMiss(pdus, t, arrivals[..n], arrivals[n]);
    } else {
      FirstMissOfFront(t.erl, arrivals, i);
      TornSinceMiss(pdus, t, arrivals[..n], i);
      ArrivalStaysTorn(pdus, Run(t, arrivals[..n]), NextOf(t.erl, arrivals[..i]), FailureOf(t.erl, arrivals, i),
                       arrivals[n]);
    }
  }

  lemma FirstMissOfFront(erl: nat, arrivals: seq<Arrival>, i: nat)
    requires FirstMiss(erl, arrivals, i) && i < |arrivals| - 1
    ensures var front := arrivals[..|arrivals| - 1]; FirstMiss(erl, front, i) && front[..i] == arrivals[..i]
  {
    var front := arrivals[..|arrivals| - 1];
    assert front[..i] == arrivals[..i];
    MissesOfFront(erl, arrivals, |front|, i);
  }

  /** Without the S-bit nothing is reported, nor closed. */
  lemma NothingReportedBefore(pdus: seq<DataInPdu>, t: TaskState, arrivals: seq<Arrival>)
    requires Conforming(pdus) && Copies(pdus, arrivals) && t == NewTask(t.itt, t.erl, true, t.streaming)
    requires NeverMisses(t.erl, arrivals) && forall i | 0 <= i < |arrivals| :: !arrivals[i].din.hasStatus
    ensures var r := Run(t, arrivals);
      && r.results == [] && (r.streaming ==> S.Ending(r.stream) == None && !S.SendsAfterClose(r.stream))
  {
    var r, last: u32 := Run(t, arrivals), |pdus| - 1;
    GathersUntilMiss(pdus, t, arrivals);
    assert InPlace(pdus, last);
    assert last !in Have(arrivals);
    if r.streaming {
      S.NothingFollowsTheEnd(pdus, Have(arrivals), r);
    }
  }

  // ---- What the loop hands over ---------------------------------------------------------------

  /** The stream comes whole: in its order at level 0, and else with every SNACK that it needs. */
  ghost predicate ArrivesWhole(pdus: seq<DataInPdu>, erl: nat, arrivals: seq<Arrival>) {
    if erl == 0 then |arrivals| == |pdus| && forall k | 0 <= k < |arrivals| :: arrivals[k].din.dataSN == k
    else Complete(pdus, arrivals) && NeverMisses(erl, arrivals)
  }

  lemma {:induction false} NeverMissesInOrder(arrivals: seq<Arrival>)
    ensures NeverMisses(0, arrivals) <==> forall k | 0 <= k < |arrivals| :: arrivals[k].din.dataSN == k
    ensures NeverMisses(0, arrivals) ==> InTurn(arrivals) == |arrivals|
    decreases |arrivals|
  {
    if arrivals != [] {
      NeverMissesInOrder(arrivals[..|arrivals| - 1]);
      NeverMissesSnoc(0, arrivals);
    }
  }

  lemma WholeIff(pdus: seq<DataInPdu>, t: TaskState, arrivals: seq<Arrival>)
    requires Conforming(pdus) && Copies(pdus, arrivals) && t == NewTask(t.itt, t.erl, true, t.streaming)
    ensures ArrivesWhole(pdus, t.erl, arrivals)
      <==> NeverMisses(t.erl, arrivals) && Run(t, arrivals).nextDataSN == |pdus|
  {
    NextIs(pdus, t, arrivals);
    if t.erl == 0 {
      NeverMissesInOrder(arrivals);
    } else if NeverMisses(t.erl, arrivals) {
      GathersUntilMiss(pdus, t, arrivals);
      InvReadsResults(pdus, Have(arrivals), Run(t, arrivals));
    }
  }

  lemma SeenAreCopies(pdus: seq<DataInPdu>, arrivals: seq<Arrival>)
    requires Copies(pdus, arrivals)
    ensures Copies(pdus, Seen(arrivals)) && Fed(Seen(arrivals))
  {
    SeenIsFed(arrivals);
  }

  lemma ResultsUntilMiss(pdus: seq<DataInPdu>, t: TaskState, arrivals: seq<Arrival>)
    requires Conforming(pdus) && Copies(pdus, arrivals) && t == NewTask(t.itt, t.erl, true, t.streaming)
    requires NeverMisses(t.erl, arrivals)
    ensures Run(t, arrivals).results
            == if ArrivesWhole(pdus, t.erl, arrivals) then [ResultOf(pdus, t.streaming)] else []
  {
    WholeIff(pdus, t, arrivals);
    GathersUntilMiss(pdus, t, arrivals);
    RunKeepsIdentity(t, arrivals);
    InvReadsResults(pdus, Have(arrivals), Run(t, arrivals));
  }

  /**
   * What a caller gets, at any level, whichever SNACKs get out. The loop delivers the Result of
   * the stream if and only if what it gets to see, up to the first PDU with the S-bit, is the
   * whole stream: at level 0 in its order, and above in any order with every SNACK sent that it
   * takes. If a PDU was missed, the first thing that it delivers is the error; if not, there is
   * no Result at all until the stream is whole.
   */
  lemma DeliversIff(pdus: seq<DataInPdu>, t: TaskState, arrivals: seq<Arrival>)
    requires Conforming(pdus) && Copies(pdus, arrivals) && t == NewTask(t.itt, t.erl, true, t.streaming)
    ensures var a, results := Seen(arrivals), Loop(t, Feed(arrivals)).results;
      && (results == [ResultOf(pdus, t.streaming)] <==> ArrivesWhole(pdus, t.erl, a))
      && (results == [] <==> NeverMisses(t.erl, a) && !ArrivesWhole(pdus, t.erl, a))
      && (results == [] || results == [ResultOf(pdus, t.streaming)]
          || exists i: nat :: FirstMiss(t.erl, a, i) && NextOf(t.erl, a[..i]) < TWO32
                              && results[0] == FailureOf(t.erl, a, i))
  {
    var a := Seen(arrivals);
    LoopIsRunOfSeen(t, arrivals);
    SeenAreCopies(pdus, arrivals);
    WholeIff(pdus, t, a);
    MissesFirst(t.erl, a);
    if i: nat :| FirstMiss(t.erl, a, i) {
      FirstMissIsOne(t.erl, a, i, i);
      TornSinceMiss(pdus, t, a, i);
    } else {
      ResultsUntilMiss(pdus, t, a);
    }
  }

  /**
   * Out-of-order recovery does not reach the end of the stream: of any stream of two PDUs that
   * arrives swapped nothing is delivered, though both arrive and the task would deliver it.
   */
  lemma SwappedStreamIsNeverDelivered(pdus: seq<DataInPdu>, t: TaskState, arrivals: seq<Arrival>)
    requires Conforming(pdus) && Drawn(pdus, arrivals)
    requires |pdus| == |arrivals| == 2 && arrivals[0].din == pdus[1] && arrivals[1].din == pdus[0]
    requires t == NewTask(t.itt, t.erl, true, t.streaming) && t.erl >= 1
    ensures Loop(t, Feed(arrivals)).results == []
    ensures Run(t, arrivals).results == [ResultOf(pdus, t.streaming)]
  {
    assert InPlace(pdus, 0) && InPlace(pdus, 1);
    assert Complete(pdus, arrivals) by {
      assert arrivals[0].din.dataSN == 1 && arrivals[1].din.dataSN == 0;
    }
    DeliversExactlyWhenComplete(pdus, t, arrivals);
    assert Seen(arrivals) == [arrivals[0]];
    LoopIsRunOfSeen(t, arrivals);
    DeliversExactlyWhenComplete(pdus, t, [arrivals[0]]);
    assert !Complete(pdus, [arrivals[0]]) by {
      var zero: u32 := 0;
      assert zero !in Have([arrivals[0]]);
    }
  }

  lemma WholeGathers(pdus: seq<DataInPdu>, t: TaskState, arrivals: seq<Arrival>)
    requires Conforming(pdus) && Copies(pdus, arrivals) && t == NewTask(t.itt, t.erl, true, t.streaming)
    requires ArrivesWhole(pdus, t.erl, Seen(arrivals))
    ensures Finished(pdus, Loop(t, Feed(arrivals))) && Loop(t, Feed(arrivals)).streaming == t.streaming
  {
    LoopIsRunOfSeen(t, arrivals);
    SeenAreCopies(pdus, arrivals);
    WholeIff(pdus, t, Seen(arrivals));
    GathersUntilMiss(pdus, t, Seen(arrivals));
    RunKeepsIdentity(t, Seen(arrivals));
  }

  /**
   * Streaming equals buffering. Take a conforming stream of which the loop gets to see the
   * whole, a consumer that reads with any sizes while the task produces, and let the consumer
   * see an end: then that end is EOF, and what it has read is exactly the data of the Result
   * that the same arrivals give in buffering mode.
   */
  lemma StreamingEqualsBuffering(pdus: seq<DataInPdu>, t: TaskState, arrivals: seq<Arrival>,
                                 depth: nat, ops: seq<C.Op<TaskError>>)
    requires Conforming(pdus) && Copies(pdus, arrivals) && t == NewTask(t.itt, t.erl, true, true)
    requires ArrivesWhole(pdus, t.erl, Seen(arrivals))
    requires S.Produced(depth, ops) == Loop(t, Feed(arrivals)).stream
    requires C.Run(C.Start<TaskError>(depth), ops).ends != []
    ensures var w := C.Run(C.Start<TaskError>(depth), ops);
      && (forall e | e in w.ends :: e == C.EndOfFile)
      && Loop(t.(streaming := false), Feed(arrivals)).results == [ResultOf(pdus, false)]
      && ResultOf(pdus, false).data == Some(w.got)
  {
    WholeGathers(pdus, t, arrivals);
    WholeGathers(pdus, t.(streaming := false), arrivals);
    S.EndOfChunks(pdus);
    S.ProducedIsSent(depth, ops);
    S.ProducedEnding(depth, ops);
    C.StreamIsFaithful(depth, ops);
  }

  /**
   * When a chunk is sent to a reader that the task has closed; in Go that send panics. It is
   * exactly when the task has missed a PDU, and among the arrivals that it handles after that
   * are the PDU that it waited for then, and with it PDUs with data that it can go on to.
   */
  lemma SendsAfterCloseIff(pdus: seq<DataInPdu>, t: TaskState, arrivals: seq<Arrival>)
    requires Conforming(pdus) && Copies(pdus, arrivals) && t == NewTask(t.itt, t.erl, true, true)
    ensures var a := Seen(arrivals);
      S.SendsAfterClose(Loop(t, Feed(arrivals)).stream)
      <==> exists i: nat :: FirstMiss(t.erl, a, i) && DataBetween(pdus, NextOf(t.erl, a[..i]), NextOf(t.erl, a))
  {
    var a := Seen(arrivals);
    LoopIsRunOfSeen(t, arrivals);
    SeenAreCopies(pdus, arrivals);
    NextIs(pdus, t, a);
    MissesFirst(t.erl, a);
    if i: nat :| FirstMiss(t.erl, a, i) {
      FirstMissIsOne(t.erl, a, i, i);
      TornSinceMiss(pdus, t, a, i);
      forall j: nat | FirstMiss(t.erl, a, j) ensures j == i {
        FirstMissIsOne(t.erl, a, i, j);
      }
    } else {
      GathersUntilMiss(pdus, t, a);
      S.NothingFollowsTheEnd(pdus, Have(a), Run(t, a));
    }
  }

  /**
   * An input at which that happens, at every level: the first two of three PDUs or more come
   * swapped, and no SNACK can be sent.
   */
  lemma SwappedPdusReachClosedReader(pdus: seq<DataInPdu>, t: TaskState, arrivals: seq<Arrival>)
    requires Conforming(pdus) && |pdus| >= 3 && pdus[0].data != [] && Copies(pdus, arrivals)
    requires t == NewTask(t.itt, t.erl, true, true)
    requires |arrivals| == 2 && arrivals[0].din == pdus[1] && arrivals[1].din == pdus[0]
    requires !arrivals[0].env.snackSent
    ensures S.SendsAfterClose(Loop(t, Feed(arrivals)).stream)
  {
    assert InPlace(pdus, 0) && InPlace(pdus, 1);
    assert Seen(arrivals) == arrivals by {
      SeenIsFed(arrivals);
    }
    assert arrivals[..0] == [] && NextOf(t.erl, []) == 0;
    assert FirstMiss(t.erl, arrivals, 0);
    BothHaveCome(t.erl, arrivals);
    SendsAfterCloseIff(pdus, t, arrivals);
    assert DataBetween(pdus, 0, NextOf(t.erl, arrivals));
  }

  lemma BothHaveCome(erl: nat, arrivals: seq<Arrival>)
    requires |arrivals| == 2 && arrivals[0].din.dataSN == 1 && arrivals[1].din.dataSN == 0
    ensures NextOf(erl, arrivals) >= 1
  {
    if erl == 0 {
      assert InTurn(arrivals[..1]) == 0;
    } else {
      var zero: u32 := 0;
      assert zero in Have(arrivals);
    }
  }
}
