/**
 * What a task makes of BufferOffsets, whatever the target sends: when an offset is looked at,
 * and what is reported if it is not the one expected.
 */
module Offsets {
  import opened Prelude
  import opened DataIn
  import opened Reassembly
  import opened TaskLoop
  import Serial

  /**
   * The PDU next in line at another offset than the one expected: one error is reported, a
   * streaming reader is closed with it, and nothing else changes; its data goes nowhere.
   */
  lemma MisplacedPduIsRefused(t: TaskState, din: DataInPdu, env: Env)
    requires Filed(t.pending) && din.dataSN == t.nextDataSN && din.bufferOffset != t.nextOffset
    ensures var r, e := AfterDataIn(t, din, env), OffsetMismatch(din.bufferOffset, t.nextOffset);
      && r.results == t.results + [Failed(e)]
      && r.stream == (if t.streaming then t.stream + [Broken(e)] else t.stream)
      && r.buf == t.buf && r.nextDataSN == t.nextDataSN && r.nextOffset == t.nextOffset
      && r.pending == t.pending && r.sent == t.sent && r.done == t.done
  {
  }

  // ---- Level 0, whatever comes -----------------------------------------------------------------

  /** The data of the first n arrivals. */
  function Joined(arrivals: seq<Arrival>, n: nat): bytes
    requires n <= |arrivals|
  {
    if n == 0 then [] else Joined(arrivals, n - 1) + arrivals[n - 1].din.data
  }

  predicate Fits(arrivals: seq<Arrival>, k: nat)
    requires k < |arrivals|
  {
    arrivals[k].din.dataSN == Wrap(k) && arrivals[k].din.bufferOffset == Wrap(|Joined(arrivals, k)|)
  }

  /** Each arrival has the next DataSN, and as its offset the length of all data before it. */
  predicate InLine(arrivals: seq<Arrival>) {
    forall k | 0 <= k < |arrivals| :: Fits(arrivals, k)
  }

  lemma {:induction false} JoinedFront(arrivals: seq<Arrival>, m: nat, n: nat)
    requires n <= m <= |arrivals|
    ensures Joined(arrivals[..m], n) == Joined(arrivals, n)
    decreases n
  {
    if n > 0 {
      JoinedFront(arrivals, m, n - 1);
    }
  }

  lemma InLineSnoc(front: seq<Arrival>, a: Arrival)
    ensures InLine(front + [a])
      <==> InLine(front) && a.din.dataSN == Wrap(|front|)
           && a.din.bufferOffset == Wrap(|Joined(front, |front|)|)
  {
    var all := front + [a];
    assert all[..|front|] == front;
    forall k | 0 <= k < |front| ensures Fits(all, k) <==> Fits(front, k) {
      JoinedFront(all, |front|, k);
    }
    JoinedFront(all, |front|, |front|);
    assert Fits(all, |front|) <==> a.din.dataSN == Wrap(|front|)
                                   && a.din.bufferOffset == Wrap(|Joined(front, |front|)|);
  }

  lemma JoinedSnoc(front: seq<Arrival>, a: Arrival)
    ensures Joined(front + [a], |front| + 1) == Joined(front, |front|) + a.din.data
  {
    assert (front + [a])[..|front|] == front;
    JoinedFront(front + [a], |front|, |front|);
  }

  /** A level 0 task that has taken some arrivals in line. */
  ghost predicate Took(t: TaskState, arrivals: seq<Arrival>, r: TaskState) {
    && r.erl == 0 && r.pending == map[] && r.streaming == t.streaming && r.results == []
    && r.nextDataSN == Wrap(|arrivals|) && r.nextOffset == Wrap(|Joined(arrivals, |arrivals|)|)
    && r.buf == (if t.streaming then [] else Joined(arrivals, |arrivals|))
  }

  function Answer(last: DataInPdu, streaming: bool, data: bytes): TaskResult {
    Completed(last.status, [], if streaming then None else Some(data),
              last.overflow, last.underflow, last.residualCount)
  }

  lemma NextInLine(t: TaskState, front: seq<Arrival>, r: TaskState, a: Arrival)
    requires Took(t, front, r)
    requires a.din.dataSN == Wrap(|front|) && a.din.bufferOffset == Wrap(|Joined(front, |front|)|)
    ensures var r', all := AfterDataIn(r, a.din, a.env), front + [a];
      if a.din.hasStatus then r'.results == [Answer(a.din, t.streaming, Joined(all, |all|))] else Took(t, all, r')
  {
    var all, r1 := front + [a], Append(r, a.din);
    JoinedSnoc(front, a);
    Serial.WrapAdd(|front|, 1);
    Serial.WrapAdd(|Joined(front, |front|)|, |a.din.data|);
    assert Joined(front, |front|) + [] == Joined(front, |front|);
    assert Took(t, all, r1);
    assert AfterDataIn(r, a.din, a.env) == if a.din.hasStatus then Deliver(r1, a.din) else r1;
  }

  lemma OutOfLine(t: TaskState, front: seq<Arrival>, r: TaskState, a: Arrival)
    requires Took(t, front, r)
    requires a.din.dataSN != Wrap(|front|) || a.din.bufferOffset != Wrap(|Joined(front, |front|)|)
    ensures var results := AfterDataIn(r, a.din, a.env).results; |results| == 1 && results[0].Failed?
  {
  }

  /** What has been reported stays reported. */
  lemma ReportsStay(r: TaskState, a: Arrival)
    requires r.erl == 0 && r.pending == map[]
    ensures r.results <= AfterDataIn(r, a.din, a.env).results
  {
  }

  lemma {:induction false} RunInLine(t: TaskState, arrivals: seq<Arrival>)
    requires t == NewTask(t.itt, 0, true, t.streaming) && Fed(arrivals)
    ensures var r := Run(t, arrivals);
      if !InLine(arrivals) then r.results != [] && r.results[0].Failed?
      else if arrivals != [] && arrivals[|arrivals| - 1].din.hasStatus then
        r.results == [Answer(arrivals[|arrivals| - 1].din, t.streaming, Joined(arrivals, |arrivals|))]
      else Took(t, arrivals, r)
    decreases |arrivals|
  {
    if arrivals != [] {
      var n := |arrivals| - 1;
      var front, a := arrivals[..n], arrivals[n];
      assert front + [a] == arrivals;
      RunInLine(t, front);
      InLineSnoc(front, a);
      RunSnoc(t, front, a);
      LevelZeroKeepsNothing(t, front);
      assert n > 0 ==> !front[n - 1].din.hasStatus;
      if !InLine(front) {
        ReportsStay(Run(t, front), a);
      } else if InLine(arrivals) {
        NextInLine(t, front, Run(t, front), a);
      } else {
        OutOfLine(t, front, Run(t, front), a);
      }
    }
  }

  /**
   * What a caller gets at level 0, whatever the target sends. The one Result is a completion
   * exactly if the arrivals up to the first S-bit are in line, by DataSN and by offset; its data
   * are theirs in that order. Out of line an error comes first; in line and without an S-bit
   * there is nothing.
   */
  lemma LevelZeroCompletesIff(t: TaskState, arrivals: seq<Arrival>)
    requires t == NewTask(t.itt, 0, true, t.streaming)
    ensures var a, results := Seen(arrivals), Loop(t, Feed(arrivals)).results;
      var ended := a != [] && a[|a| - 1].din.hasStatus;
      && (|results| == 1 && results[0].Completed? <==> InLine(a) && ended)
      && (InLine(a) && ended ==> results == [Answer(a[|a| - 1].din, t.streaming, Joined(a, |a|))])
      && (results == [] <==> InLine(a) && !ended)
      && (!InLine(a) ==> results[0].Failed?)
  {
    LoopIsRunOfSeen(t, arrivals);
    SeenIsFed(arrivals);
    RunInLine(t, Seen(arrivals));
  }

  // ---- Which offsets are looked at --------------------------------------------------------------

  /** The same early PDUs, but maybe at other offsets. */
  predicate SameButOffsets(p: map<u32, DataInPdu>, q: map<u32, DataInPdu>) {
    p.Keys == q.Keys && forall k | k in p :: q[k] == p[k].(bufferOffset := q[k].bufferOffset)
  }

  /** The two tasks differ in offsets of PDUs that they keep, and in nothing else. */
  predicate Equivalent(r: TaskState, s: TaskState) {
    s == r.(pending := s.pending) && SameButOffsets(r.pending, s.pending)
  }

  lemma TakeKeepsEquivalent(r: TaskState, s: TaskState)
    requires Equivalent(r, s) && Filed(r.pending) && Filed(s.pending) && r.nextDataSN in r.pending
    ensures Equivalent(TakeNext(r), TakeNext(s))
  {
    var k := r.nextDataSN;
    var r0, s0 := r.(pending := r.pending - {k}), s.(pending := s.pending - {k});
    assert SameButOffsets(r0.pending, s0.pending);
    AppendKeepsEquivalent(r0, s0, r.pending[k], s.pending[k]);
  }

  lemma AppendKeepsEquivalent(r: TaskState, s: TaskState, din: DataInPdu, din': DataInPdu)
    requires Equivalent(r, s) && din'.data == din.data
    ensures Equivalent(Append(r, din), Append(s, din'))
  {
  }

  lemma DeliverKeepsEquivalent(r: TaskState, s: TaskState, din: DataInPdu, din': DataInPdu)
    requires Equivalent(r, s) && din' == din.(bufferOffset := din'.bufferOffset)
    ensures Equivalent(Deliver(r, din), Deliver(s, din'))
  {
  }

  /** A drain does not look at offsets. */
  lemma {:induction false} DrainIgnoresOffsets(r: TaskState, s: TaskState)
    requires Equivalent(r, s) && Filed(r.pending) && Filed(s.pending)
    ensures Equivalent(Drain(r), Drain(s))
    decreases |r.pending|
  {
    var k := r.nextDataSN;
    if k in r.pending {
      TakeKeepsEquivalent(r, s);
      if r.pending[k].hasStatus {
        DeliverKeepsEquivalent(TakeNext(r), TakeNext(s), r.pending[k], s.pending[k]);
      } else {
        DrainIgnoresOffsets(TakeNext(r), TakeNext(s));
      }
    }
  }

  lemma SettleIgnoresOffsets(r: TaskState, s: TaskState, din: DataInPdu, din': DataInPdu, taken: bool)
    requires Equivalent(r, s) && Filed(r.pending) && Filed(s.pending)
    requires din' == din.(bufferOffset := din'.bufferOffset)
    ensures Equivalent(Settle(r, din, taken), Settle(s, din', taken))
  {
    DrainIgnoresOffsets(r, s);
    DeliverKeepsEquivalent(r, s, din, din');
    DeliverKeepsEquivalent(Drain(r), Drain(s), din, din');
    assert r.pending == map[] <==> s.pending == map[] by {
      assert r.pending == map[] <==> r.pending.Keys == {};
      assert s.pending == map[] <==> s.pending.Keys == {};
    }
  }

  lemma ArrivalKeepsEquivalent(r: TaskState, s: TaskState, din: DataInPdu, din': DataInPdu, env: Env)
    requires Equivalent(r, s) && Filed(r.pending) && Filed(s.pending)
    requires din' == din.(bufferOffset := din'.bufferOffset)
    requires din.dataSN == r.nextDataSN ==> din' == din
    ensures Equivalent(AfterDataIn(r, din, env), AfterDataIn(s, din', env))
  {
    if din.dataSN == r.nextDataSN && din.bufferOffset == r.nextOffset {
      AppendKeepsEquivalent(r, s, din, din');
      AckKeepsEquivalent(Append(r, din), Append(s, din'), din, env);
      SettleIgnoresOffsets(AfterAck(Append(r, din), din, env), AfterAck(Append(s, din'), din', env), din, din',
                           env.resultTaken);
    } else if din.dataSN != r.nextDataSN {
      GapKeepsEquivalent(r, s, din, din', env);
    }
  }

  lemma AckKeepsEquivalent(r: TaskState, s: TaskState, din: DataInPdu, env: Env)
    requires Equivalent(r, s)
    ensures Equivalent(AfterAck(r, din, env), AfterAck(s, din, env))
  {
  }

  lemma GapKeepsEquivalent(r: TaskState, s: TaskState, din: DataInPdu, din': DataInPdu, env: Env)
    requires Equivalent(r, s) && din' == din.(bufferOffset := din'.bufferOffset)
    ensures Equivalent(AfterGap(r, din, env), AfterGap(s, din', env))
  {
    assert SameButOffsets(r.pending[din.dataSN := din], s.pending[din.dataSN := din']);
  }

  /** The PDUs may differ in offset where they are not the ones next in line when they are handled. */
  ghost predicate SameButEarlyOffsets(t: TaskState, a: seq<Arrival>, b: seq<Arrival>)
    requires Filed(t.pending)
  {
    |a| == |b| && forall i | 0 <= i < |a| ::
      && b[i] == a[i].(din := a[i].din.(bufferOffset := b[i].din.bufferOffset))
      && (a[i].din.dataSN == Run(t, a[..i]).nextDataSN ==> b[i] == a[i])
  }

  lemma SameFront(t: TaskState, a: seq<Arrival>, b: seq<Arrival>)
    requires Filed(t.pending) && SameButEarlyOffsets(t, a, b) && a != []
    ensures SameButEarlyOffsets(t, a[..|a| - 1], b[..|a| - 1])
  {
    assert forall i | 0 <= i < |a| - 1 :: a[..|a| - 1][..i] == a[..i];
  }

  /** The offset of a PDU that comes early is never looked at, neither then nor when it is drained. */
  lemma {:induction false} EarlyOffsetsDoNotMatter(t: TaskState, a: seq<Arrival>, b: seq<Arrival>)
    requires Filed(t.pending) && SameButEarlyOffsets(t, a, b)
    ensures var r, s := Run(t, a), Run(t, b);
      && s.results == r.results && s.stream == r.stream && s.buf == r.buf && s.sent == r.sent
      && s.nextDataSN == r.nextDataSN && s.nextOffset == r.nextOffset && s.done == r.done
    ensures Equivalent(Run(t, a), Run(t, b))
    decreases |a|
  {
    if a != [] {
      var n := |a| - 1;
      SameFront(t, a, b);
      EarlyOffsetsDoNotMatter(t, a[..n], b[..n]);
      ArrivalKeepsEquivalent(Run(t, a[..n]), Run(t, b[..n]), a[n].din, b[n].din, a[n].env);
    }
  }

  /**
   * One PDU, and any task: whatever offset it has makes no difference but to what is kept,
   * if and only if it is not the one next in line.
   */
  lemma OffsetIsReadIff(t: TaskState, din: DataInPdu, env: Env)
    requires Filed(t.pending)
    ensures (forall o: u32, o': u32 :: Equivalent(AfterDataIn(t, din.(bufferOffset := o), env),
                                                  AfterDataIn(t, din.(bufferOffset := o'), env)))
      <==> din.dataSN != t.nextDataSN
  {
    if din.dataSN != t.nextDataSN {
      forall o: u32, o': u32
        ensures Equivalent(AfterDataIn(t, din.(bufferOffset := o), env), AfterDataIn(t, din.(bufferOffset := o'), env))
      {
        ArrivalKeepsEquivalent(t, t, din.(bufferOffset := o), din.(bufferOffset := o'), env);
      }
    } else {
      var o: u32, o': u32 := Wrap(t.nextOffset + 1), Wrap(t.nextOffset + 2);
      MisplacedPduIsRefused(t, din.(bufferOffset := o), env);
      MisplacedPduIsRefused(t, din.(bufferOffset := o'), env);
      var n := |t.results|;
      assert AfterDataIn(t, din.(bufferOffset := o), env).results[n] == Failed(OffsetMismatch(o, t.nextOffset));
      assert AfterDataIn(t, din.(bufferOffset := o'), env).results[n] == Failed(OffsetMismatch(o', t.nextOffset));
      assert !Equivalent(AfterDataIn(t, din.(bufferOffset := o), env), AfterDataIn(t, din.(bufferOffset := o'), env));
    }
  }

  /**
   * So above level 0 displaced data can be reported as a success: any stream of three PDUs, the
   * second of which comes first and says that its data belong anywhere.
   */
  lemma {:induction false} DisplacedPduIsDelivered(pdus: seq<DataInPdu>, t: TaskState, arrivals: seq<Arrival>, o: u32)
    requires Conforming(pdus) && |pdus| == 3 && t == NewTask(t.itt, t.erl, true, t.streaming) && t.erl >= 1
    requires |arrivals| == 3 && arrivals[0].din == pdus[1].(bufferOffset := o) && arrivals[0].env.snackSent
    requires arrivals[1].din == pdus[0] && arrivals[2].din == pdus[2] && arrivals[1].env.snackSent
    requires arrivals[2].env.snackSent
    ensures Loop(t, Feed(arrivals)).results == [ResultOf(pdus, t.streaming)]
  {
    var right := arrivals[0 := arrivals[0].(din := pdus[1])];
    assert InPlace(pdus, 0) && InPlace(pdus, 1) && InPlace(pdus, 2);
    AllThree(pdus, t, right);
    SecondFirst(pdus, t, right, arrivals);
    EarlyOffsetsDoNotMatter(t, right, arrivals);
    SeenIsFed(arrivals);
    LoopIsRunOfSeen(t, arrivals);
  }

  lemma {:induction false} AllThree(pdus: seq<DataInPdu>, t: TaskState, right: seq<Arrival>)
    requires Conforming(pdus) && |pdus| == |right| == 3 && t == NewTask(t.itt, t.erl, true, t.streaming) && t.erl >= 1
    requires right[0].din == pdus[1] && right[1].din == pdus[0] && right[2].din == pdus[2]
    requires right[0].env.snackSent && right[1].env.snackSent && right[2].env.snackSent
    ensures Run(t, right).results == [ResultOf(pdus, t.streaming)]
  {
    assert InPlace(pdus, 0) && InPlace(pdus, 1) && InPlace(pdus, 2);
    ThreeHave(right);
    assert Drawn(pdus, right);
    DeliversExactlyWhenComplete(pdus, t, right);
  }

  lemma ThreeHave(right: seq<Arrival>)
    requires |right| == 3 && right[0].din.dataSN == 1 && right[1].din.dataSN == 0 && right[2].din.dataSN == 2
    ensures forall k: u32 | k < 3 :: k in Have(right)
  {
    forall k: u32 | k < 3 ensures k in Have(right) {
      assert right[if k == 0 then 1 else if k == 1 then 0 else 2].din.dataSN == k;
    }
  }

  lemma SecondFirst(pdus: seq<DataInPdu>, t: TaskState, right: seq<Arrival>, arrivals: seq<Arrival>)
    requires Filed(t.pending) && t.nextDataSN == 0 && |right| == |arrivals| == 3
    requires arrivals == right[0 := arrivals[0]] && right[0].din.dataSN == 1
    requires right[0] == arrivals[0].(din := arrivals[0].din.(bufferOffset := right[0].din.bufferOffset))
    ensures SameButEarlyOffsets(t, right, arrivals)
  {
    assert Run(t, right[..0]) == t;
    assert arrivals[1] == right[1] && arrivals[2] == right[2];
  }
}
