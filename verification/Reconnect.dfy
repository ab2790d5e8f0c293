/** The retry of the tasks in flight, on the tasks themselves, and the reconnect around it. */
module Reconnect {
  import opened Prelude
  import opened Io
  import DataIn
  import TaskLoop
  import opened DataOut
  import opened WritePath
  import opened Router
  import opened RouterRuns
  import opened SessionTable
  import opened SessionRuns
  import opened Recovery

  // ---- Tags and emissions --------------------------------------------------------------

  /** The same PDUs under another tag. */
  function Relabelled(pdus: seq<DataOutPdu>, itt: u32): seq<DataOutPdu> {
    if pdus == [] then [] else [pdus[0].(itt := itt)] + Relabelled(pdus[1..], itt)
  }

  lemma {:induction false} PdusRelabel(j: Job, itt: u32, pos: nat, total: nat, ok: bool, off: nat, dataSN: nat)
    requires pos + total <= |j.data| && dataSN <= off <= total <= j.burstLen
    ensures Pdus(j.(itt := itt), pos, total, ok, off, dataSN) == Relabelled(Pdus(j, pos, total, ok, off, dataSN), itt)
    decreases total - off
  {
    if off < total && j.maxSegment > 0 {
      var n := Min(j.maxSegment, total - off);
      PdusRelabel(j, itt, pos, total, ok, off + n, dataSN + 1);
      assert Pdus(j, pos, total, ok, off, dataSN)[1..] == Pdus(j, pos, total, ok, off + n, dataSN + 1);
    }
  }

  lemma EndHasNoTag(j: Job, itt: u32, left: nat)
    ensures DataOut.EndOf(j.(itt := itt), left) == DataOut.EndOf(j, left)
  {
  }

  lemma BurstRelabels(j: Job, itt: u32, pos: nat)
    requires pos <= |j.data|
    ensures Burst(j.(itt := itt), pos) == Relabelled(Burst(j, pos), itt)
    ensures DataOut.EndOf(j.(itt := itt), |j.data| - pos) == DataOut.EndOf(j, |j.data| - pos)
  {
    var e := DataOut.EndOf(j, |j.data| - pos);
    EndHasNoTag(j, itt, |j.data| - pos);
    PdusRelabel(j, itt, pos, e.sent, e.error == None, 0, 0);
  }

  lemma RestRelabels(p: Limits, data: bytes, broken: bool, itt: u32, itt': u32, pos: nat, n: nat)
    requires n <= pos <= |data| && n <= MAX_SEGMENT
    ensures var o, o' := AfterImmediate(p, data, broken, itt, pos, n), AfterImmediate(p, data, broken, itt', pos, n);
      o' == o.(burst := Relabelled(o.burst, itt'))
  {
    if !p.initialR2T {
      var j := UnsolicitedJob(p, data, broken, itt, n);
      assert UnsolicitedJob(p, data, broken, itt', n) == j.(itt := itt');
      BurstRelabels(j, itt', pos);
    }
    var o, o' := AfterImmediate(p, data, broken, itt, pos, n), AfterImmediate(p, data, broken, itt', pos, n);
    assert o'.command == o.command && o'.burst == Relabelled(o.burst, itt');
    assert o'.bytesSent == o.bytesSent && o'.taken == o.taken && o'.error == o.error;
  }

  /**
   * A retried write sends what a new submission sends: from the first byte of the source,
   * the same immediate data and the same PDUs, but for the tag.
   */
  lemma RetryEmitsTheSame(p: Limits, data: bytes, broken: bool, itt: u32, itt': u32)
    ensures var o, o' := OpeningOf(p, data, broken, itt, 0), OpeningOf(p, data, broken, itt', 0);
      o' == o.(burst := Relabelled(o.burst, itt'))
  {
    var n := Min(ImmediateLen(p), |data|);
    if n <= MAX_SEGMENT {
      RestRelabels(p, data, broken, itt, itt', n, n);
    }
  }

  lemma {:induction false} RelabelledConcat(a: seq<DataOutPdu>, b: seq<DataOutPdu>, itt: u32)
    ensures Relabelled(a + b, itt) == Relabelled(a, itt) + Relabelled(b, itt)
    decreases |a|
  {
    if a == [] {
      assert a + b == b;
    } else {
      assert (a + b)[1..] == a[1..] + b;
      RelabelledConcat(a[1..], b, itt);
    }
  }

  function RelabelledServed(s: Served, itt: u32): Served {
    s.(wire := Relabelled(s.wire, itt))
  }

  lemma JoinRelabels(burst: seq<DataOutPdu>, rest: Served, itt: u32)
    ensures RelabelledServed(Served(burst + rest.wire, rest.pos, rest.error), itt)
            == Served(Relabelled(burst, itt) + RelabelledServed(rest, itt).wire, rest.pos, rest.error)
  {
    RelabelledConcat(burst, rest.wire, itt);
  }

  lemma StopRelabels(p: Limits, data: bytes, broken: bool, itt: u32, itt': u32, pos: nat, r2ts: seq<R2T>,
                     burst: seq<DataOutPdu>, e: Ending)
    requires pos <= |data| && r2ts != [] && e.error != None
    requires burst == Burst(SolicitedJob(p, data, broken, itt, r2ts[0]), pos)
    requires e == DataOut.EndOf(SolicitedJob(p, data, broken, itt, r2ts[0]), |data| - pos)
    requires Relabelled(burst, itt') == Burst(SolicitedJob(p, data, broken, itt', r2ts[0]), pos)
    requires e == DataOut.EndOf(SolicitedJob(p, data, broken, itt', r2ts[0]), |data| - pos)
    ensures ServingOf(p, data, broken, itt', pos, r2ts)
            == RelabelledServed(ServingOf(p, data, broken, itt, pos, r2ts), itt')
  {
    ServingStops(p, data, broken, itt, pos, r2ts, burst, e);
    ServingStops(p, data, broken, itt', pos, r2ts, Relabelled(burst, itt'), e);
  }

  lemma StepRelabels(p: Limits, data: bytes, broken: bool, itt: u32, itt': u32, pos: nat, r2ts: seq<R2T>,
                     burst: seq<DataOutPdu>, e: Ending, rest: Served)
    requires pos <= |data| && r2ts != [] && e.error == None && pos + e.taken <= |data|
    requires burst == Burst(SolicitedJob(p, data, broken, itt, r2ts[0]), pos)
    requires e == DataOut.EndOf(SolicitedJob(p, data, broken, itt, r2ts[0]), |data| - pos)
    requires Relabelled(burst, itt') == Burst(SolicitedJob(p, data, broken, itt', r2ts[0]), pos)
    requires e == DataOut.EndOf(SolicitedJob(p, data, broken, itt', r2ts[0]), |data| - pos)
    requires rest == ServingOf(p, data, broken, itt, pos + e.taken, r2ts[1..])
    requires RelabelledServed(rest, itt') == ServingOf(p, data, broken, itt', pos + e.taken, r2ts[1..])
    ensures ServingOf(p, data, broken, itt', pos, r2ts)
            == RelabelledServed(ServingOf(p, data, broken, itt, pos, r2ts), itt')
  {
    ServingGoesOn(p, data, broken, itt, pos, r2ts, burst, e, pos + e.taken, rest);
    ServingGoesOn(p, data, broken, itt', pos, r2ts, Relabelled(burst, itt'), e, pos + e.taken,
                  RelabelledServed(rest, itt'));
    JoinRelabels(burst, rest, itt');
  }

  /** One answer, as a burst and how it ends, under both tags. */
  lemma AnswerRelabels(p: Limits, data: bytes, broken: bool, itt: u32, itt': u32, pos: nat, r2t: R2T)
    returns (burst: seq<DataOutPdu>, e: Ending)
    requires pos <= |data|
    ensures burst == Burst(SolicitedJob(p, data, broken, itt, r2t), pos) && pos + e.taken <= |data|
    ensures e == DataOut.EndOf(SolicitedJob(p, data, broken, itt, r2t), |data| - pos)
    ensures Relabelled(burst, itt') == Burst(SolicitedJob(p, data, broken, itt', r2t), pos)
    ensures e == DataOut.EndOf(SolicitedJob(p, data, broken, itt', r2t), |data| - pos)
  {
    var j := SolicitedJob(p, data, broken, itt, r2t);
    burst, e := Burst(j, pos), DataOut.EndOf(j, |data| - pos);
    BurstRelabels(j, itt', pos);
  }

  /** And it answers R2Ts as one. */
  lemma {:induction false} RetryServesTheSame(p: Limits, data: bytes, broken: bool, itt: u32, itt': u32, pos: nat,
                                              r2ts: seq<R2T>)
    requires pos <= |data|
    ensures ServingOf(p, data, broken, itt', pos, r2ts)
            == RelabelledServed(ServingOf(p, data, broken, itt, pos, r2ts), itt')
    decreases |r2ts|
  {
    if r2ts != [] {
      var burst, e := AnswerRelabels(p, data, broken, itt, itt', pos, r2ts[0]);
      if e.error != None {
        StopRelabels(p, data, broken, itt, itt', pos, r2ts, burst, e);
      } else {
        RetryServesTheSame(p, data, broken, itt, itt', pos + e.taken, r2ts[1..]);
        StepRelabels(p, data, broken, itt, itt', pos, r2ts, burst, e,
                     ServingOf(p, data, broken, itt, pos + e.taken, r2ts[1..]));
      }
    }
  }

  /** A task in flight: its reassembly, and its data if it writes. */
  class InFlight {
    const rec: TaskRec
    const streaming: bool
    const isWrite: bool
    const read: DataIn.Task
    const write: WriteTask

    function ViewOf(): View {
      View(streaming, isWrite, write.source.seekable, write.source.data, write.source.broken)
    }

    constructor (rec: TaskRec, streaming: bool, isWrite: bool, read: DataIn.Task, write: WriteTask)
      ensures this.rec == rec && this.streaming == streaming && this.isWrite == isWrite
      ensures this.read == read && this.write == write
    {
      this.rec, this.streaming, this.isWrite, this.read, this.write := rec, streaming, isWrite, read, write;
    }

    /** Rewinds the source of a write. A task that cannot be repeated is refused. */
    method Rewind(env: Env) returns (ok: bool)
      requires write.source.Valid()
      modifies write, write.source
      ensures write.source.Valid() && unchanged(write`wire) && unchanged(write`itt)
      ensures ok == (!streaming && (isWrite ==> write.source.seekable && env.seekSucceeds))
      ensures ok && isWrite ==> write.bytesSent == 0 && write.source.pos == 0
    {
      if streaming {
        return false;
      }
      ok := true;
      if isWrite {
        ok := write.source.Rewind(env.seekSucceeds);
        if ok {
          write.bytesSent := 0;
        }
      }
    }

    /**
     * The command with its immediate data, and the unsolicited burst. `command` is the data
     * of the command PDU if that was sent.
     */
    method Emit(p: Limits, env: Env) returns (fate: Fate, command: Option<bytes>)
      requires write.source.Valid() && (isWrite ==> write.bytesSent == 0 && write.source.pos == 0)
      modifies write`wire, write`bytesSent, write.source
      ensures write.source.Valid()
      ensures var o := OpeningOf(p, write.source.data, write.source.broken, write.itt, 0);
        && fate == (if isWrite && o.command == None then Late
                    else if !env.sent || (isWrite && o.error != None) then TooLate
                    else Resumed)
      ensures Sent(p, ViewOf(), write.itt, fate, env.sent, command, old(write.wire), write.wire,
                   write.bytesSent)
    {
      command := None;
      if !isWrite {
        if !env.sent {
          return TooLate, None;
        }
        return Resumed, Some([]);
      }
      var immediate, error := ReadImmediate(write, p);
      if error != None || |immediate| > MAX_SEGMENT {
        return Late, None;
      }
      if !env.sent {
        return TooLate, None;
      }
      command, error := OpenRest(write, p, immediate);
      fate := if error == None then Resumed else TooLate;
    }
  }

  // ---- Retrying --------------------------------------------------------------------------

  /** A new tag for the task, and a clean start for its reassembly. */
  method Reregister(s: Session, tk: InFlight) returns (ch: nat)
    requires s.Valid()
    modifies s.router, tk.read, tk.write`itt
    ensures s.Valid() && s.State() == Registered(old(s.State())) && ch == |old(s.router.chans)|
    ensures tk.write.itt == TagOf(old(s.router.nextITT))
    ensures tk.read.State() == DataIn.Renewed(old(tk.read.State()), tk.write.itt)
  {
    var itt := s.router.AllocateITT();
    ch := s.router.RegisterPersistent(itt);
    tk.write.itt := itt;
    tk.read.Renew(itt);
  }

  /**
   * The caller of the task has been told why it failed, if there was room for that on the result
   * channel, and so has its streaming reader; the task is done.
   */
  predicate Told(was: DataIn.TaskState, now: DataIn.TaskState, why: string, resultTaken: bool) {
    var e := DataIn.TaskCancelled(why);
    && now.done
    && now.results == was.results + (if was.results == [] || resultTaken then [DataIn.Failed(e)] else [])
    && now.stream == was.stream + (if was.streaming then [DataIn.Broken(e)] else [])
  }

  method GiveUp(s: Session, tk: InFlight, env: Env)
    requires s.Valid()
    modifies s`cancelled, tk.read
    ensures s.Valid()
    ensures s.State() == old(s.State()).(cancelled := Cancel(old(s.cancelled), tk.rec.id, RetryFailed))
    ensures Told(old(tk.read.State()), tk.read.State(), "retry failed", env.resultTaken)
  {
    s.CancelTask(tk.rec.id, RetryFailed);
    tk.read.Cancel(DataIn.TaskCancelled("retry failed"), env.resultTaken);
  }

  /** How the emission decides on the fate does not depend on the tag. */
  lemma FateUnderTag(p: Limits, v: View, env: Env, itt: u32)
    requires !v.streaming && env.acquired && (v.isWrite ==> v.seekable && env.seekSucceeds)
    ensures var o := OpeningOf(p, v.data, v.broken, itt, 0);
      FateOf(p, v, env) == (if v.isWrite && o.command == None then Late
                            else if !env.sent || (v.isWrite && o.error != None) then TooLate
                            else Resumed)
  {
    RetryEmitsTheSame(p, v.data, v.broken, 0, itt);
  }

  /** The end of a retry: back into the table unless it failed early, and the new loop, or the task is cancelled. */
  method Settle(s: Session, tk: InFlight, ch: nat, fate: Fate, env: Env)
    requires s.Valid() && !fate.Early?
    modifies s`tasks, s`loops, s`leaked, s`cancelled, tk.read
    ensures s.Valid()
    ensures s.State() == var was := old(s.State());
      was.(tasks := if fate.Late? then was.tasks else was.tasks[tk.write.itt := tk.rec],
           loops := if fate.Resumed? then was.loops[ch := tk.rec.id] else was.loops,
           leaked := if fate.Resumed? then was.leaked else was.leaked + {ch},
           cancelled := if fate.Resumed? then was.cancelled else Cancel(was.cancelled, tk.rec.id, RetryFailed))
    ensures fate.Resumed? ==> unchanged(tk.read)
    ensures !fate.Resumed? ==> Told(old(tk.read.State()), tk.read.State(), "retry failed", env.resultTaken)
  {
    if !fate.Late? {
      s.tasks := s.tasks[tk.write.itt := tk.rec];
    }
    if fate.Resumed? {
      s.loops := s.loops[ch := tk.rec.id];
    } else {
      s.leaked := s.leaked + {ch};
      GiveUp(s, tk, env);
    }
  }

  /** A retry that is resumed has reported nothing more; of one that is not, the caller has been told. */
  predicate Came(p: Limits, v: View, env: Env, was: DataIn.TaskState, now: DataIn.TaskState) {
    if FateOf(p, v, env).Resumed? then now.results == was.results && now.stream == was.stream
    else Told(was, now, "retry failed", env.resultTaken)
  }

  /** A retry from the new tag on, of a task that can be repeated. */
  method Readmit(s: Session, tk: InFlight, p: Limits, env: Env) returns (fate: Fate, command: Option<bytes>)
    requires s.Valid() && tk.write.source.Valid() && Registers(tk.ViewOf(), env)
    requires tk.isWrite ==> tk.write.bytesSent == 0 && tk.write.source.pos == 0
    modifies s, s.router, tk.read, tk.write, tk.write.source
    ensures s.Valid() && tk.write.source.Valid()
    ensures fate == FateOf(p, tk.ViewOf(), env) && s.State() == Retried(old(s.State()), tk.rec, fate)
    ensures tk.write.itt == TagOf(old(s.router.nextITT))
    ensures fate.Resumed? ==> tk.read.State() == DataIn.Renewed(old(tk.read.State()), tk.write.itt)
    ensures !fate.Resumed? ==> Told(old(tk.read.State()), tk.read.State(), "retry failed", env.resultTaken)
    ensures Sent(p, tk.ViewOf(), tk.write.itt, fate, env.sent, command, old(tk.write.wire), tk.write.wire,
                 tk.write.bytesSent)
  {
    var ch := Reregister(s, tk);
    FateUnderTag(p, tk.ViewOf(), env, tk.write.itt);
    fate, command := tk.Emit(p, env);
    Settle(s, tk, ch, fate, env);
  }

  /**
   * What a retry has sent: nothing if it failed before its command or could not queue it; else
   * the command, and for a write its immediate data and the unsolicited burst.
   */
  predicate Sent(p: Limits, v: View, itt: u32, fate: Fate, sent: bool, command: Option<bytes>,
                 was: seq<DataOutPdu>, now: seq<DataOutPdu>, bytesSent: u32)
  {
    var o := OpeningOf(p, v.data, v.broken, itt, 0);
    if fate.Early? || fate.Late? || !sent then command == None && now == was
    else if v.isWrite then command == o.command && now == was + o.burst && bytesSent == o.bytesSent
    else command == Some([]) && now == was
  }

  /**
   * One task of the snapshot. If it is resumed, it has gone out under its new tag like a
   * new submission, its reassembly starts over, and a new loop reads its new channel.
   */
  method RetryTask(s: Session, tk: InFlight, p: Limits, env: Env) returns (fate: Fate, command: Option<bytes>)
    requires s.Valid() && tk.write.source.Valid()
    modifies s, s.router, tk.read, tk.write, tk.write.source
    ensures s.Valid() && tk.write.source.Valid()
    ensures fate == FateOf(p, tk.ViewOf(), env)
    ensures s.State() == Retried(old(s.State()), tk.rec, fate)
    ensures fate.Resumed? ==>
      && tk.write.itt == TagOf(old(s.router.nextITT))
      && tk.read.State() == DataIn.Renewed(old(tk.read.State()), tk.write.itt)
    ensures Sent(p, tk.ViewOf(), tk.write.itt, fate, env.sent, command, old(tk.write.wire), tk.write.wire,
                 tk.write.bytesSent)
    ensures Came(p, tk.ViewOf(), env, old(tk.read.State()), tk.read.State())
  {
    var ok := tk.Rewind(env);
    if !ok || !env.acquired {
      GiveUp(s, tk, env);
      return Early, None;
    }
    fate, command := Readmit(s, tk, p, env);
  }

  /** The retries of the tasks filed under some tags, in that order. */
  ghost function WorkOf(crew: map<u32, InFlight>, order: seq<u32>, env: nat -> Env): (work: seq<Retry>)
    requires forall itt | itt in order :: itt in crew
    ensures |work| == |order|
  {
    if order == [] then []
    else
      var tk := crew[order[|order| - 1]];
      WorkOf(crew, order[..|order| - 1], env) + [Retry(tk.rec, tk.ViewOf(), env(tk.rec.id))]
  }

  /** Each of the tags once. */
  ghost predicate Enumerates(order: seq<u32>, tags: set<u32>) {
    && (forall itt :: itt in order <==> itt in tags)
    && (forall i, j | 0 <= i < j < |order| :: order[i] != order[j])
  }

  /** All that the tasks in flight own. */
  ghost function Parts(crew: map<u32, InFlight>): set<object> {
    Reads(crew) + (set itt | itt in crew :: crew[itt].write)
    + (set itt | itt in crew :: crew[itt].write.source)
  }

  ghost predicate Sound(crew: map<u32, InFlight>)
    reads set itt | itt in crew :: crew[itt].write.source
  {
    forall itt | itt in crew :: crew[itt].write.source.Valid()
  }

  lemma EnumeratesOneMore(order: seq<u32>, tags: set<u32>, itt: u32)
    requires Enumerates(order, tags) && itt !in tags
    ensures Enumerates(order + [itt], tags + {itt})
  {
  }

  /** The tasks under the tags `done` have been retried, in the given order. */
  ghost predicate RetriedSoFar(s: Session, crew: map<u32, InFlight>, p: Limits, env: nat -> Env, from: Sess,
                               order: seq<u32>, done: set<u32>)
    reads s, s.router, set itt | itt in crew :: crew[itt].write.source
  {
    && s.Valid() && Sound(crew) && Wired(from.t)
    && done <= crew.Keys && Enumerates(order, done)
    && s.State() == RetriedAll(from, p, WorkOf(crew, order, env))
  }

  lemma WorkSnoc(crew: map<u32, InFlight>, order: seq<u32>, itt: u32, env: nat -> Env)
    requires itt in crew && forall i | i in order :: i in crew
    ensures WorkOf(crew, order + [itt], env)
            == WorkOf(crew, order, env) + [Retry(crew[itt].rec, crew[itt].ViewOf(), env(crew[itt].rec.id))]
  {
    assert (order + [itt])[..|order|] == order;
  }

  lemma RetriedSnoc(s: Sess, p: Limits, work: seq<Retry>, w: Retry)
    requires Wired(s.t)
    ensures RetriedAll(s, p, work + [w]) == Retried(RetriedAll(s, p, work), w.rec, Out(p, w))
  {
    assert (work + [w])[..|work|] == work;
  }

  lemma OneLessToDo(order: seq<u32>, all: set<u32>, todo: set<u32>, itt: u32)
    requires todo <= all && itt in todo && Enumerates(order, all - todo)
    ensures all - (todo - {itt}) <= all && Enumerates(order + [itt], all - (todo - {itt}))
  {
    EnumeratesOneMore(order, all - todo, itt);
    assert all - (todo - {itt}) == all - todo + {itt};
  }

  /** One more of the tasks, by values. */
  lemma OneMoreDone(crew: map<u32, InFlight>, p: Limits, env: nat -> Env, from: Sess, order: seq<u32>, itt: u32,
                    s: Sess, s': Sess)
    requires itt in crew && (forall i | i in order :: i in crew)
    requires Wired(from.t) && Wired(s.t) && s == RetriedAll(from, p, WorkOf(crew, order, env))
    requires var tk := crew[itt]; s' == Retried(s, tk.rec, FateOf(p, tk.ViewOf(), env(tk.rec.id)))
    ensures s' == RetriedAll(from, p, WorkOf(crew, order + [itt], env))
  {
    var tk := crew[itt];
    WorkSnoc(crew, order, itt, env);
    RetriedSnoc(from, p, WorkOf(crew, order, env), Retry(tk.rec, tk.ViewOf(), env(tk.rec.id)));
  }

  /** No two tasks share their reassembly. */
  ghost predicate Apart(crew: map<u32, InFlight>) {
    forall i, j | i in crew && j in crew && i != j :: crew[i].read != crew[j].read
  }

  ghost function Reads(crew: map<u32, InFlight>): set<object> {
    set itt | itt in crew :: crew[itt].read
  }

  ghost function StatesOf(crew: map<u32, InFlight>): (states: map<u32, DataIn.TaskState>)
    reads Reads(crew)
    ensures states.Keys == crew.Keys
  {
    map itt | itt in crew :: crew[itt].read.State()
  }

  /** What the callers of the tasks that have been retried know; the others are as they were. */
  ghost predicate AllCame(crew: map<u32, InFlight>, p: Limits, env: nat -> Env, todo: set<u32>,
                          was: map<u32, DataIn.TaskState>, now: map<u32, DataIn.TaskState>)
    requires was.Keys == now.Keys == crew.Keys
  {
    forall itt | itt in crew ::
      if itt in todo then now[itt] == was[itt]
      else Came(p, crew[itt].ViewOf(), env(crew[itt].rec.id), was[itt], now[itt])
  }

  method RetryNext(s: Session, crew: map<u32, InFlight>, itt: u32, p: Limits, env: nat -> Env, ghost from: Sess,
                   ghost order: seq<u32>, ghost todo: set<u32>)
    requires todo <= crew.Keys && itt in todo && RetriedSoFar(s, crew, p, env, from, order, crew.Keys - todo)
    modifies s, s.router, crew[itt].read, crew[itt].write, crew[itt].write.source
    ensures RetriedSoFar(s, crew, p, env, from, order + [itt], crew.Keys - (todo - {itt}))
    ensures Came(p, crew[itt].ViewOf(), env(crew[itt].rec.id), old(crew[itt].read.State()), crew[itt].read.State())
  {
    var tk := crew[itt];
    ghost var before := s.State();
    var fate, command := RetryTask(s, tk, p, env(tk.rec.id));
    OneLessToDo(order, crew.Keys, todo, itt);
    OneMoreDone(crew, p, env, from, order, itt, before, s.State());
  }

  lemma OneMoreCame(crew: map<u32, InFlight>, itt: u32, p: Limits, env: nat -> Env, todo: set<u32>,
                    was: map<u32, DataIn.TaskState>, before: map<u32, DataIn.TaskState>,
                    now: map<u32, DataIn.TaskState>)
    requires was.Keys == before.Keys == now.Keys == crew.Keys && itt in todo && itt in crew
    requires AllCame(crew, p, env, todo, was, before) && forall i | i in crew && i != itt :: now[i] == before[i]
    requires Came(p, crew[itt].ViewOf(), env(crew[itt].rec.id), before[itt], now[itt])
    ensures AllCame(crew, p, env, todo - {itt}, was, now)
  {
  }

  /** The same, with what the callers know. */
  method RetryOne(s: Session, crew: map<u32, InFlight>, itt: u32, p: Limits, env: nat -> Env, ghost from: Sess,
                  ghost order: seq<u32>, ghost todo: set<u32>, ghost was: map<u32, DataIn.TaskState>)
    requires todo <= crew.Keys && itt in todo && RetriedSoFar(s, crew, p, env, from, order, crew.Keys - todo)
    requires Apart(crew) && was.Keys == crew.Keys && AllCame(crew, p, env, todo, was, StatesOf(crew))
    modifies s, s.router, Parts(crew)
    ensures RetriedSoFar(s, crew, p, env, from, order + [itt], crew.Keys - (todo - {itt}))
    ensures AllCame(crew, p, env, todo - {itt}, was, StatesOf(crew))
  {
    ghost var before := StatesOf(crew);
    RetryAmong(s, crew, itt, p, env, from, order, todo, before);
    OneMoreCame(crew, itt, p, env, todo, was, before, StatesOf(crew));
  }

  /** The others are as they were. */
  method RetryAmong(s: Session, crew: map<u32, InFlight>, itt: u32, p: Limits, env: nat -> Env, ghost from: Sess,
                    ghost order: seq<u32>, ghost todo: set<u32>, ghost before: map<u32, DataIn.TaskState>)
    requires todo <= crew.Keys && itt in todo && RetriedSoFar(s, crew, p, env, from, order, crew.Keys - todo)
    requires Apart(crew) && StatesOf(crew) == before
    modifies s, s.router, Parts(crew)
    ensures RetriedSoFar(s, crew, p, env, from, order + [itt], crew.Keys - (todo - {itt}))
    ensures forall i | i in crew && i != itt :: StatesOf(crew)[i] == before[i]
    ensures Came(p, crew[itt].ViewOf(), env(crew[itt].rec.id), before[itt], StatesOf(crew)[itt])
  {
    RetryNext(s, crew, itt, p, env, from, order, todo);
    forall i | i in crew && i != itt ensures crew[i].read.State() == before[i] {
      assert crew[i].read != crew[itt].read;
    }
  }

  /** The loop over the snapshot, in whatever order. */
  method RetryTasks(s: Session, crew: map<u32, InFlight>, p: Limits, env: nat -> Env) returns (ghost order: seq<u32>)
    requires s.Valid() && Sound(crew) && Apart(crew)
    modifies s, s.router, Parts(crew)
    ensures s.Valid() && Sound(crew) && Enumerates(order, crew.Keys)
    ensures s.State() == RetriedAll(old(s.State()), p, WorkOf(crew, order, env))
    ensures AllCame(crew, p, env, {}, old(StatesOf(crew)), StatesOf(crew))
  {
    ghost var from, was := s.State(), StatesOf(crew);
    order := [];
    var todo := crew.Keys;
    while todo != {}
      invariant todo <= crew.Keys
      invariant RetriedSoFar(s, crew, p, env, from, order, crew.Keys - todo)
      invariant AllCame(crew, p, env, todo, was, StatesOf(crew))
      decreases todo
    {
      var itt :| itt in todo;
      RetryOne(s, crew, itt, p, env, from, order, todo, was);
      order, todo := order + [itt], todo - {itt};
    }
  }

  // ---- The reconnect --------------------------------------------------------------------

  datatype Attempt = Interrupted | LoginFailed | LoggedIn

  /** NotStarted if Close has come in before the snapshot, CutShort if it does after that. */
  datatype Outcome = NotStarted | CutShort | Exhausted | Connected

  /** The attempts in turn, until one succeeds or Close comes in. */
  function OutcomeOf(attempts: seq<Attempt>): (o: Outcome)
    ensures !o.NotStarted?
  {
    if attempts == [] then Exhausted
    else
      match attempts[0]
      case Interrupted => CutShort
      case LoggedIn => Connected
      case LoginFailed => OutcomeOf(attempts[1..])
  }

  /** The backoff loop: Close can come in before every attempt. */
  method TryLogins(attempts: seq<Attempt>) returns (outcome: Outcome)
    ensures outcome == OutcomeOf(attempts)
  {
    var k := 0;
    while k < |attempts|
      invariant k <= |attempts| && OutcomeOf(attempts) == OutcomeOf(attempts[k..])
    {
      assert attempts[k..][0] == attempts[k] && attempts[k..][1..] == attempts[k + 1..];
      if attempts[k] == Interrupted {
        return CutShort;
      }
      if attempts[k] == LoggedIn {
        return Connected;
      }
      k := k + 1;
    }
    return Exhausted;
  }

  /** The channel is one that a task listens on under one of the tags. */
  ghost predicate ListensUnder<T>(t: Table<T>, tags: set<u32>, ch: nat)
    requires ch < |t.chans|
  {
    t.chans[ch].persistent && exists itt | itt in tags && itt in t.pending :: t.pending[itt] == ch
  }

  /**
   * Both tables without the tasks of the snapshot, whose channels are closed. What is queued
   * on a channel stays there, and so does the loop that reads it.
   */
  ghost predicate Dropped(s: Sess, s': Sess, tags: set<u32>)
  {
    && s' == s.(tasks := map[], t := s'.t)
    && s'.t == s.t.(pending := s.t.pending - tags, chans := s'.t.chans)
    && |s'.t.chans| == |s.t.chans|
    && forall c | 0 <= c < |s.t.chans| ::
         s'.t.chans[c] == s.t.chans[c].(closed := s.t.chans[c].closed || ListensUnder(s.t, tags, c))
  }

  lemma DropsOneMore(s: Sess, mid: Sess, done: set<u32>, itt: u32, s': Sess)
    requires Wired(s.t) && Wired(mid.t) && Dropped(s, mid, done) && itt !in done && mid.t.flight == None
    requires s' == mid.(t := Next(mid.t, Step.UnregisterAndClose(itt)))
    ensures Dropped(s, s', done + {itt})
  {
    assert s.t.pending - done - {itt} == s.t.pending - (done + {itt});
    forall c | 0 <= c < |s.t.chans|
      ensures s'.t.chans[c] == s.t.chans[c].(closed := s.t.chans[c].closed || ListensUnder(s.t, done + {itt}, c))
    {
      if itt in s.t.pending && s.t.pending[itt] == c {
        assert itt in done + {itt};
      }
    }
  }

  /** The snapshot of the tasks, and the end of their old registrations. */
  method DropTasks(s: Session)
    requires s.Valid() && s.router.flight == None
    modifies s`tasks, s.router
    ensures s.Valid() && s.router.flight == None
    ensures Dropped(old(s.State()), s.State(), old(s.tasks.Keys))
  {
    ghost var from := s.State();
    var todo := s.tasks.Keys;
    ghost var done: set<u32> := {};
    s.tasks := map[];
    assert from.t.pending - {} == from.t.pending;
    while todo != {}
      invariant s.Valid() && s.router.flight == None && todo + done == from.tasks.Keys && todo !! done
      invariant Dropped(from, s.State(), done)
      decreases todo
    {
      var itt :| itt in todo;
      ghost var before := s.State();
      s.router.UnregisterAndClose(itt);
      DropsOneMore(from, before, done, itt, s.State());
      todo, done := todo - {itt}, done + {itt};
    }
    assert done == from.tasks.Keys;
  }

  /** The tasks under some tags. */
  function CrewIds(crew: map<u32, InFlight>, itts: set<u32>): set<nat> {
    set itt | itt in itts && itt in crew :: crew[itt].rec.id
  }

  lemma OneMoreFailed(cancelled: map<nat, Reason>, crew: map<u32, InFlight>, done: set<u32>, itt: u32)
    requires itt in crew
    ensures Cancel(CancelAll(cancelled, CrewIds(crew, done), ReconnectFailed), crew[itt].rec.id, ReconnectFailed)
            == CancelAll(cancelled, CrewIds(crew, done + {itt}), ReconnectFailed)
  {
    CancelOneMore(cancelled, CrewIds(crew, done), crew[itt].rec.id, ReconnectFailed);
    assert CrewIds(crew, done + {itt}) == CrewIds(crew, done) + {crew[itt].rec.id};
  }

  method FailOne(s: Session, tk: InFlight, env: Env)
    requires s.Valid()
    modifies s`cancelled, tk.read
    ensures s.Valid()
    ensures s.State() == old(s.State()).(cancelled := Cancel(old(s.cancelled), tk.rec.id, ReconnectFailed))
    ensures Told(old(tk.read.State()), tk.read.State(), "reconnect failed", env.resultTaken)
  {
    s.CancelTask(tk.rec.id, ReconnectFailed);
    tk.read.Cancel(DataIn.TaskCancelled("reconnect failed"), env.resultTaken);
  }

  /** The callers of all tasks but those still to do have been told. */
  ghost predicate AllTold(crew: map<u32, InFlight>, env: nat -> Env, todo: set<u32>,
                          was: map<u32, DataIn.TaskState>, now: map<u32, DataIn.TaskState>)
    requires was.Keys == now.Keys == crew.Keys
  {
    forall itt | itt in crew ::
      if itt in todo then now[itt] == was[itt]
      else Told(was[itt], now[itt], "reconnect failed", env(crew[itt].rec.id).resultTaken)
  }

  lemma OneMoreTold(crew: map<u32, InFlight>, itt: u32, env: nat -> Env, todo: set<u32>,
                    was: map<u32, DataIn.TaskState>, before: map<u32, DataIn.TaskState>,
                    now: map<u32, DataIn.TaskState>)
    requires was.Keys == before.Keys == now.Keys == crew.Keys && itt in todo && itt in crew
    requires AllTold(crew, env, todo, was, before) && forall i | i in crew && i != itt :: now[i] == before[i]
    requires Told(before[itt], now[itt], "reconnect failed", env(crew[itt].rec.id).resultTaken)
    ensures AllTold(crew, env, todo - {itt}, was, now)
  {
  }

  /** All tasks but those still to do are cancelled, and their callers have been told. */
  ghost predicate FailedSoFar(s: Session, crew: map<u32, InFlight>, env: nat -> Env, from: Sess,
                              was: map<u32, DataIn.TaskState>, todo: set<u32>)
    reads s, s.router, Reads(crew)
    requires was.Keys == crew.Keys
  {
    && s.Valid() && AllTold(crew, env, todo, was, StatesOf(crew))
    && s.State() == from.(cancelled := CancelAll(from.cancelled, CrewIds(crew, crew.Keys - todo), ReconnectFailed))
  }

  lemma OneLessToFail(cancelled: map<nat, Reason>, crew: map<u32, InFlight>, todo: set<u32>, itt: u32)
    requires itt in todo && todo <= crew.Keys
    ensures Cancel(CancelAll(cancelled, CrewIds(crew, crew.Keys - todo), ReconnectFailed), crew[itt].rec.id,
                   ReconnectFailed)
            == CancelAll(cancelled, CrewIds(crew, crew.Keys - (todo - {itt})), ReconnectFailed)
  {
    OneMoreFailed(cancelled, crew, crew.Keys - todo, itt);
    assert crew.Keys - todo + {itt} == crew.Keys - (todo - {itt});
  }

  method FailNext(s: Session, crew: map<u32, InFlight>, itt: u32, env: nat -> Env, ghost from: Sess,
                  ghost was: map<u32, DataIn.TaskState>, ghost todo: set<u32>)
    requires itt in todo && todo <= crew.Keys && Apart(crew)
    requires was.Keys == crew.Keys && FailedSoFar(s, crew, env, from, was, todo)
    modifies s`cancelled, Reads(crew)
    ensures FailedSoFar(s, crew, env, from, was, todo - {itt})
  {
    ghost var before := StatesOf(crew);
    FailOne(s, crew[itt], env(crew[itt].rec.id));
    OneMoreTold(crew, itt, env, todo, was, before, StatesOf(crew));
    OneLessToFail(from.cancelled, crew, todo, itt);
  }

  method FailEach(s: Session, crew: map<u32, InFlight>, env: nat -> Env, ghost from: Sess,
                  ghost was: map<u32, DataIn.TaskState>)
    requires s.Valid() && Apart(crew) && s.State() == from && StatesOf(crew) == was
    modifies s`cancelled, Reads(crew)
    ensures s.Valid() && was.Keys == crew.Keys && AllTold(crew, env, {}, was, StatesOf(crew))
    ensures s.State() == from.(cancelled := CancelAll(from.cancelled, CrewIds(crew, crew.Keys), ReconnectFailed))
  {
    var todo := crew.Keys;
    NobodyHasFailed(from.cancelled, crew);
    while todo != {}
      invariant todo <= crew.Keys && FailedSoFar(s, crew, env, from, was, todo)
      decreases todo
    {
      var itt :| itt in todo;
      FailNext(s, crew, itt, env, from, was, todo);
      todo := todo - {itt};
    }
    EverybodyHasFailed(crew, todo);
  }

  lemma EverybodyHasFailed(crew: map<u32, InFlight>, todo: set<u32>)
    requires todo == {}
    ensures CrewIds(crew, crew.Keys - todo) == CrewIds(crew, crew.Keys)
  {
    assert crew.Keys - todo == crew.Keys;
  }

  lemma NobodyHasFailed(cancelled: map<nat, Reason>, crew: map<u32, InFlight>)
    ensures CancelAll(cancelled, CrewIds(crew, crew.Keys - crew.Keys), ReconnectFailed) == cancelled
  {
    assert CrewIds(crew, crew.Keys - crew.Keys) == {};
  }

  /** Every task of the snapshot is cancelled, once the session is no longer recovering. */
  method FailAll(s: Session, crew: map<u32, InFlight>, env: nat -> Env, ghost from: Sess,
                 ghost was: map<u32, DataIn.TaskState>)
    requires s.Valid() && Apart(crew) && s.State() == from && StatesOf(crew) == was
    modifies s`cancelled, s`recovering, Reads(crew)
    ensures s.Valid() && !s.recovering
    ensures s.State() == from.(cancelled := CancelAll(from.cancelled, CrewIds(crew, crew.Keys), ReconnectFailed))
    ensures was.Keys == crew.Keys && AllTold(crew, env, {}, was, StatesOf(crew))
  {
    StopRecovering(s, crew, was);
    FailEach(s, crew, env, from, was);
  }

  /** From the state `mid` without the tasks of the snapshot to the state after a reconnect. */
  ghost predicate Reinstated(outcome: Outcome, mid: Sess, s': Sess, crew: map<u32, InFlight>, order: seq<u32>,
                             p: Limits, env: nat -> Env)
    requires Wired(mid.t)
  {
    match outcome
    case NotStarted => s' == mid
    case CutShort => s' == mid
    case Exhausted => s' == mid.(cancelled := CancelAll(mid.cancelled, CrewIds(crew, crew.Keys), ReconnectFailed))
    case Connected => Enumerates(order, crew.Keys) && s' == RetriedAll(mid, p, WorkOf(crew, order, env))
  }

  /** What the callers know after a reconnect. */
  ghost predicate Reported(outcome: Outcome, crew: map<u32, InFlight>, p: Limits, env: nat -> Env,
                           was: map<u32, DataIn.TaskState>, now: map<u32, DataIn.TaskState>)
    requires was.Keys == now.Keys == crew.Keys
  {
    match outcome
    case NotStarted => now == was
    case CutShort => now == was
    case Exhausted => AllTold(crew, env, {}, was, now)
    case Connected => AllCame(crew, p, env, {}, was, now)
  }

  method StopRecovering(s: Session, crew: map<u32, InFlight>, ghost states: map<u32, DataIn.TaskState>)
    requires s.Valid() && StatesOf(crew) == states
    modifies s`recovering
    ensures s.Valid() && !s.recovering && s.State() == old(s.State()) && StatesOf(crew) == states
  {
    s.recovering := false;
  }

  /** The end of a reconnect that has got through. */
  method RetryAll(s: Session, crew: map<u32, InFlight>, p: Limits, env: nat -> Env, ghost mid: Sess,
                  ghost was: map<u32, DataIn.TaskState>)
    returns (ghost order: seq<u32>)
    requires s.Valid() && Sound(crew) && Apart(crew) && s.State() == mid && StatesOf(crew) == was
    modifies s, s.router, Parts(crew)
    ensures s.Valid() && !s.recovering
    ensures Enumerates(order, crew.Keys) && s.State() == RetriedAll(mid, p, WorkOf(crew, order, env))
    ensures was.Keys == crew.Keys && AllCame(crew, p, env, {}, was, StatesOf(crew))
  {
    order := RetryTasks(s, crew, p, env);
    StopRecovering(s, crew, StatesOf(crew));
  }

  /** What becomes of the tasks that were taken off the tables. */
  method Conclude(s: Session, crew: map<u32, InFlight>, outcome: Outcome, p: Limits, env: nat -> Env, ghost mid: Sess,
                  ghost was: map<u32, DataIn.TaskState>)
    returns (ghost order: seq<u32>)
    requires s.Valid() && Sound(crew) && Apart(crew) && s.State() == mid && StatesOf(crew) == was
    modifies s, s.router, Parts(crew)
    ensures s.Valid() && !s.recovering
    ensures Reinstated(outcome, mid, s.State(), crew, order, p, env)
    ensures was.Keys == crew.Keys && Reported(outcome, crew, p, env, was, StatesOf(crew))
  {
    order := [];
    if outcome == Connected {
      order := RetryAll(s, crew, p, env, mid, was);
    } else if outcome == Exhausted {
      FailAll(s, crew, env, mid, was);
    } else {
      StopRecovering(s, crew, was);
    }
  }

  /** `crew` is the task table of s. */
  ghost predicate CrewOf(s: Sess, crew: map<u32, InFlight>) {
    crew.Keys == s.tasks.Keys && forall itt | itt in crew :: crew[itt].rec == s.tasks[itt]
  }

  /** The snapshot, which no caller is told anything of. */
  method TakeSnapshot(s: Session, crew: map<u32, InFlight>, ghost was: map<u32, DataIn.TaskState>)
    requires s.Valid() && s.router.flight == None && Sound(crew) && StatesOf(crew) == was
    modifies s`tasks, s.router
    ensures s.Valid() && Sound(crew) && StatesOf(crew) == was
    ensures Dropped(old(s.State()), s.State(), old(s.tasks.Keys))
  {
    DropTasks(s);
  }

  /** The part of a reconnect from the snapshot on. */
  method ReinstateTasks(s: Session, crew: map<u32, InFlight>, attempts: seq<Attempt>, p: Limits, env: nat -> Env,
                        ghost was: map<u32, DataIn.TaskState>)
    returns (outcome: Outcome, ghost mid: Sess, ghost order: seq<u32>)
    requires s.Valid() && s.router.flight == None && Sound(crew) && Apart(crew) && crew.Keys == s.tasks.Keys
    requires StatesOf(crew) == was
    modifies s, s.router, Parts(crew)
    ensures s.Valid() && !s.recovering && outcome == OutcomeOf(attempts)
    ensures Wired(mid.t) && Dropped(old(s.State()), mid, crew.Keys)
    ensures Reinstated(outcome, mid, s.State(), crew, order, p, env)
    ensures was.Keys == crew.Keys && Reported(outcome, crew, p, env, was, StatesOf(crew))
  {
    TakeSnapshot(s, crew, was);
    mid := s.State();
    outcome := TryLogins(attempts);
    order := Conclude(s, crew, outcome, p, env, mid, was);
  }

  /**
   * `crew` are the tasks in the table; `mid` is the state from which the retries start.
   * `closedFirst` and `closedMeanwhile`: Close has come in before the pumps are stopped, or
   * until they are.
   */
  method Reinstate(s: Session, crew: map<u32, InFlight>, closedFirst: bool, closedMeanwhile: bool,
                   attempts: seq<Attempt>, p: Limits, env: nat -> Env)
    returns (outcome: Outcome, ghost mid: Sess, ghost order: seq<u32>)
    requires s.Valid() && s.router.flight == None && Sound(crew) && Apart(crew) && CrewOf(s.State(), crew)
    modifies s, s.router, Parts(crew)
    ensures s.Valid() && !s.recovering
    ensures outcome == if closedFirst || closedMeanwhile then NotStarted else OutcomeOf(attempts)
    ensures Wired(mid.t)
    ensures if outcome.NotStarted? then mid == old(s.State()) else Dropped(old(s.State()), mid, crew.Keys)
    ensures Reinstated(outcome, mid, s.State(), crew, order, p, env)
    ensures Reported(outcome, crew, p, env, old(StatesOf(crew)), StatesOf(crew))
  {
    if closedFirst {
      StopRecovering(s, crew, StatesOf(crew));
      return NotStarted, s.State(), [];
    }
    if closedMeanwhile {
      StopRecovering(s, crew, StatesOf(crew));
      return NotStarted, s.State(), [];
    }
    outcome, mid, order := ReinstateTasks(s, crew, attempts, p, env, StatesOf(crew));
  }

  // ---- What becomes of the tasks ---------------------------------------------------------

  lemma {:induction false} WorkAt(crew: map<u32, InFlight>, order: seq<u32>, env: nat -> Env, k: nat)
    requires (forall itt | itt in order :: itt in crew) && k < |order|
    ensures var tk := crew[order[k]];
      WorkOf(crew, order, env)[k] == Retry(tk.rec, tk.ViewOf(), env(tk.rec.id))
    decreases |order|
  {
    if k < |order| - 1 {
      WorkAt(crew, order[..|order| - 1], env, k);
    }
  }

  lemma WorkIsPending(s: Sess, mid: Sess, crew: map<u32, InFlight>, order: seq<u32>, env: nat -> Env)
    requires OneTagEach(s) && CrewOf(s, crew) && Enumerates(order, crew.Keys) && Dropped(s, mid, crew.Keys)
    ensures Pending(mid, WorkOf(crew, order, env))
  {
    var work := WorkOf(crew, order, env);
    forall i, j | 0 <= i < j < |work|
      ensures work[i].rec.id != work[j].rec.id
    {
      WorkAt(crew, order, env, i);
      WorkAt(crew, order, env, j);
      assert order[i] in crew && order[j] in crew && order[i] != order[j];
    }
  }

  /**
   * Any reconnect that gets through, for any mix of tasks, in any order of the retries, and
   * whatever earlier reconnects have left: each task of the snapshot is cancelled or has a
   * loop that serves it under a new tag; both exactly if it was cancelled before and its
   * limits and source allow a retry; and an old tag is registered afterwards only if it was
   * handed out anew.
   */
  lemma ReconnectPartitions(s: Sess, mid: Sess, s': Sess, crew: map<u32, InFlight>, order: seq<u32>, p: Limits,
                            env: nat -> Env, itt: u32)
    requires OneTagEach(s) && LoopsPlaced(s) && CrewOf(s, crew) && Dropped(s, mid, crew.Keys) && Wired(mid.t)
    requires Reinstated(Connected, mid, s', crew, order, p, env)
    requires |order| < PERIOD && itt in crew && 0 < p.maxSegment <= MAX_SEGMENT
    ensures var tk := crew[itt]; var resumes := Resumes(p, tk.ViewOf(), env(tk.rec.id));
      && (tk.rec.id in s'.cancelled || Running(s', tk.rec))
      && (tk.rec.id in s'.cancelled && Running(s', tk.rec) <==> tk.rec.id in s.cancelled && resumes)
      && (Running(s', tk.rec) <==> resumes)
      && (itt in s'.t.pending ==> itt in NewTags(s.t.nextITT, TagsUsed(p, WorkOf(crew, order, env))))
  {
    var work := WorkOf(crew, order, env);
    WorkIsPending(s, mid, crew, order, env);
    var k :| 0 <= k < |order| && order[k] == itt;
    WorkAt(crew, order, env, k);
    RetryPartitions(mid, p, work, k);
  }

  /**
   * And its caller: after a reconnect that gets through, a task that the limits and its source
   * allow to retry has reported nothing more, and every other has had its error put on its
   * result channel, if there was room; if every attempt failed, all have.
   */
  lemma EveryCallerIsTold(outcome: Outcome, crew: map<u32, InFlight>, p: Limits, env: nat -> Env,
                          was: map<u32, DataIn.TaskState>, now: map<u32, DataIn.TaskState>, itt: u32)
    requires was.Keys == now.Keys == crew.Keys && itt in crew && 0 < p.maxSegment <= MAX_SEGMENT
    requires outcome.Connected? || outcome.Exhausted?
    requires Reported(outcome, crew, p, env, was, now)
    ensures var tk := crew[itt]; var e := env(tk.rec.id);
      var why := if outcome.Exhausted? then "reconnect failed" else "retry failed";
      if outcome.Connected? && Resumes(p, tk.ViewOf(), e) then now[itt].results == was[itt].results
      else
        now[itt].done && now[itt].results == was[itt].results
          + if was[itt].results == [] || e.resultTaken then [DataIn.Failed(DataIn.TaskCancelled(why))] else []
  {
    FateIff(p, crew[itt].ViewOf(), env(crew[itt].rec.id));
  }

  /** If every attempt fails, all tasks are cancelled, and neither table holds any of them. */
  lemma ExhaustionCancelsAll(s: Sess, mid: Sess, s': Sess, crew: map<u32, InFlight>, order: seq<u32>, p: Limits,
                             env: nat -> Env, itt: u32)
    requires CrewOf(s, crew) && Dropped(s, mid, crew.Keys) && Wired(mid.t)
    requires Reinstated(Exhausted, mid, s', crew, order, p, env) && itt in crew
    ensures crew[itt].rec.id in s'.cancelled && itt !in s'.t.pending && s'.tasks == map[]
  {
    assert crew[itt].rec.id in CrewIds(crew, crew.Keys);
  }

  /** Nobody will ever tell the caller of this task how it went. */
  ghost predicate Lost(s: Sess, rec: TaskRec) {
    rec.id !in s.cancelled && forall itt | itt in s.tasks :: s.tasks[itt] != rec
  }

  /** Close comes in before an attempt, and all attempts before that one have failed. */
  ghost predicate CloseComesIn(attempts: seq<Attempt>) {
    exists k | 0 <= k < |attempts| :: attempts[k].Interrupted? && forall j | 0 <= j < k :: attempts[j].LoginFailed?
  }

  lemma {:induction false} CutShortIff(attempts: seq<Attempt>)
    ensures OutcomeOf(attempts).CutShort? <==> CloseComesIn(attempts)
    decreases |attempts|
  {
    if attempts != [] && attempts[0].LoginFailed? {
      var rest := attempts[1..];
      CutShortIff(rest);
      if CloseComesIn(rest) {
        var k :| 0 <= k < |rest| && rest[k].Interrupted? && forall j | 0 <= j < k :: rest[j].LoginFailed?;
        assert attempts[k + 1].Interrupted?;
        assert forall j | 0 <= j < k + 1 :: attempts[j].LoginFailed? by {
          assert forall j | 1 <= j < k + 1 :: attempts[j] == rest[j - 1];
        }
      }
      if CloseComesIn(attempts) {
        var k :| 0 <= k < |attempts| && attempts[k].Interrupted? && forall j | 0 <= j < k :: attempts[j].LoginFailed?;
        assert rest[k - 1].Interrupted?;
        assert forall j | 0 <= j < k - 1 :: rest[j] == attempts[j + 1];
      }
    }
  }

  /** The other two endings: a login succeeds behind failed ones only, or all fail. */
  lemma {:induction false} EndingIff(attempts: seq<Attempt>)
    ensures OutcomeOf(attempts).Connected? <==>
      exists k | 0 <= k < |attempts| :: attempts[k].LoggedIn? && forall j | 0 <= j < k :: attempts[j].LoginFailed?
    ensures OutcomeOf(attempts).Exhausted? <==> forall k | 0 <= k < |attempts| :: attempts[k].LoginFailed?
    decreases |attempts|
  {
    if attempts != [] && attempts[0].LoginFailed? {
      var rest := attempts[1..];
      EndingIff(rest);
      assert forall k | 0 <= k < |rest| :: rest[k] == attempts[k + 1];
      assert forall k | 1 <= k < |attempts| :: attempts[k] == rest[k - 1];
      if k :| 0 <= k < |rest| && rest[k].LoggedIn? && forall j | 0 <= j < k :: rest[j].LoginFailed? {
        assert attempts[k + 1].LoggedIn?;
      }
      if k :| 0 <= k < |attempts| && attempts[k].LoggedIn? && forall j | 0 <= j < k :: attempts[j].LoginFailed? {
        assert rest[k - 1].LoggedIn?;
      }
    }
  }

  /**
   * A task of the snapshot is lost, neither cancelled nor in the table, where Close would
   * find it, exactly if Close comes in after the snapshot, before an attempt, and all the
   * attempts before have failed, unless it had been cancelled earlier.
   */
  lemma ReconnectLosesTasksIffCutShort(s: Sess, mid: Sess, s': Sess, crew: map<u32, InFlight>, order: seq<u32>,
                                       p: Limits, env: nat -> Env, closed: bool, attempts: seq<Attempt>, itt: u32)
    requires OneTagEach(s) && LoopsPlaced(s) && CrewOf(s, crew) && Wired(mid.t)
    requires if closed then mid == s else Dropped(s, mid, crew.Keys)
    requires Reinstated(if closed then NotStarted else OutcomeOf(attempts), mid, s', crew, order, p, env)
    requires |order| < PERIOD && itt in crew && 0 < p.maxSegment <= MAX_SEGMENT
    ensures Lost(s', crew[itt].rec) <==> !closed && CloseComesIn(attempts) && crew[itt].rec.id !in s.cancelled
  {
    CutShortIff(attempts);
    if closed {
      assert itt in s'.tasks;
    } else {
      match OutcomeOf(attempts)
      case CutShort =>
      case Exhausted => ExhaustionCancelsAll(s, mid, s', crew, order, p, env, itt);
      case Connected => ReconnectPartitions(s, mid, s', crew, order, p, env, itt);
    }
  }

  /**
   * A task that is both: a small write that a first retry has cancelled and left in the table
   * is in the next snapshot, and under limits with InitialR2T=Yes it is sent again, though
   * its caller has been told that it failed.
   */
  lemma CancelledWriteIsSentAgain(s: Sess, rec: TaskRec, data: bytes, mid: Sess)
    requires Wired(s.t) && LoopsPlaced(s) && s.tasks == map[] && TagOf(s.t.nextITT) !in s.t.pending
    requires 0 < |data| <= 8192
    requires var p, v := Limits(true, false, 65536, 262144, 8192), View(false, true, true, data, false);
      var s1 := RetriedAll(s, p, [Retry(rec, v, Env(true, true, true, true))]);
      Dropped(s1, mid, s1.tasks.Keys) && Wired(mid.t)
    ensures var p, v := Limits(true, true, 65536, 262144, 8192), View(false, true, true, data, false);
      var s2 := RetriedAll(mid, p, [Retry(rec, v, Env(true, true, true, true))]);
      rec.id in s2.cancelled && Running(s2, rec)
  {
    var v, env := View(false, true, true, data, false), Env(true, true, true, true);
    var w, p := Retry(rec, v, env), Limits(true, false, 65536, 262144, 8192);
    OneRetry(s, p, w);
    SmallWriteLeaks(s, rec, data);
    DropLeavesNoTask(RetriedAll(s, p, [w]), mid, w);
    ResumesIfNotAsked(p.(initialR2T := true), data);
    RetryPartitions(mid, p.(initialR2T := true), [w], 0);
  }

  lemma DropLeavesNoTask(s: Sess, mid: Sess, w: Retry)
    requires Wired(s.t) && LoopsPlaced(s) && Dropped(s, mid, s.tasks.Keys)
    ensures LoopsPlaced(mid) && Pending(mid, [w]) && mid.cancelled == s.cancelled
  {
  }

  lemma OneRetry(s: Sess, p: Limits, w: Retry)
    requires Wired(s.t)
    ensures RetriedAll(s, p, [w]) == Retried(s, w.rec, Out(p, w))
  {
    assert [w][..0] == [] && RetriedAll(s, p, []) == s;
  }

  lemma ResumesIfNotAsked(p: Limits, data: bytes)
    requires 0 < |data| <= 8192 && p == Limits(true, true, 65536, 262144, 8192)
    ensures Resumes(p, View(false, true, true, data, false), Env(true, true, true, true))
  {
  }

  // ---- The old readers ------------------------------------------------------------------------

  lemma {:induction false} RetriesKeepChannels(s: Sess, p: Limits, work: seq<Retry>, ch: nat)
    requires Wired(s.t) && ch < |s.t.chans|
    ensures var s' := RetriedAll(s, p, work);
      && ch < |s'.t.chans| && s'.t.chans[ch] == s.t.chans[ch]
      && (ch in s'.loops <==> ch in s.loops) && (ch in s.loops ==> s'.loops[ch] == s.loops[ch])
    decreases |work|
  {
    if work != [] {
      var mid, last := RetriedAll(s, p, work[..|work| - 1]), work[|work| - 1];
      RetriesKeepChannels(s, p, work[..|work| - 1], ch);
      RetryTook(mid, last.rec, Out(p, last));
    }
  }

  /**
   * A reconnect waits for the pumps and not for the task loops. A loop with PDUs left on its
   * old channel goes on reading them after the retries, for the same task, which may then
   * have a second loop; it leaves once they are gone.
   */
  lemma OldLoopReadsOn(s: Sess, mid: Sess, p: Limits, work: seq<Retry>, ch: nat)
    requires Wired(s.t) && Wired(mid.t) && Dropped(s, mid, s.tasks.Keys) && ch < |s.t.chans| && ch in s.loops
    ensures var s' := RetriedAll(mid, p, work);
      && ch < |s'.t.chans| && s'.t.chans[ch].queue == s.t.chans[ch].queue
      && ch in s'.loops && s'.loops[ch] == s.loops[ch]
      && (s.t.chans[ch].queue != [] <==> Enabled(s'.t, Step.Receive(ch)))
      && (ListensUnder(s.t, s.tasks.Keys, ch) && s.t.chans[ch].queue == [] ==> MayLeave(s', ch))
  {
    RetriesKeepChannels(mid, p, work, ch);
  }

  /** The new tags have channels that were not there before. */
  lemma {:induction false} NewChannels(s: Sess, p: Limits, work: seq<Retry>, itt: u32)
    requires Wired(s.t) && |work| < PERIOD && LoopsPlaced(s) && itt in NewTags(s.t.nextITT, TagsUsed(p, work))
    ensures var s' := RetriedAll(s, p, work);
      itt in s'.t.pending && |s.t.chans| <= s'.t.pending[itt]
    decreases |work|
  {
    var init, last := work[..|work| - 1], work[|work| - 1];
    var mid, n := RetriedAll(s, p, init), TagsUsed(p, init);
    RetriesFillTables(s, p, init);
    RetryTook(mid, last.rec, Out(p, last));
    NewTagsGrow(s.t.nextITT, n);
    if itt in NewTags(s.t.nextITT, n) {
      NewChannels(s, p, init, itt);
    }
    ChannelsGrow(s, p, init);
  }

  lemma {:induction false} ChannelsGrow(s: Sess, p: Limits, work: seq<Retry>)
    requires Wired(s.t)
    ensures |s.t.chans| <= |RetriedAll(s, p, work).t.chans|
    decreases |work|
  {
    if work != [] {
      ChannelsGrow(s, p, work[..|work| - 1]);
      RetryTook(RetriedAll(s, p, work[..|work| - 1]), work[|work| - 1].rec, Out(p, work[|work| - 1]));
    }
  }

  /** The old loop comes to its end: it cleans up under the tag that its task has by then, or not. */
  function AfterOldLoop(s: Sess, itt: u32, ch: nat, cleanup: bool): Sess {
    LeaveOf(if cleanup then FinishOf(s, itt) else s, ch)
  }

  lemma CleanupTakesEntries(s: Sess, itt: u32, ch: nat, cleanup: bool, rec: TaskRec)
    requires InTable(s, itt, rec) && HasLoop(s, itt, rec.id) && s.t.pending[itt] != ch
    ensures var s' := AfterOldLoop(s, itt, ch, cleanup);
      && (InTable(s', itt, rec) && HasLoop(s', itt, rec.id) <==> !cleanup)
      && (cleanup ==> itt !in s'.tasks && itt !in s'.t.pending)
      && s.t.pending[itt] in s'.loops && s'.loops[s.t.pending[itt]] == rec.id
  {
  }

  /**
   * What the old loop of a task that was retried takes away. It reads to the end of what is
   * left on its channel, `events`, on the task as the retry has reset it. The task keeps its
   * place in the table and its registration if and only if the loop gets to no S-bit, response
   * or error among them, unless it sees first that the task is done; otherwise the new loop
   * goes on to wait on a channel that nothing is delivered to any more.
   */
  lemma RetriedTaskKeepsEntriesIff(s: Sess, mid: Sess, p: Limits, work: seq<Retry>, k: nat, ch: nat,
                                   t: DataIn.TaskState, events: seq<TaskLoop.Event>)
    requires Wired(s.t) && Wired(mid.t) && LoopsPlaced(s) && Dropped(s, mid, s.tasks.Keys) && Pending(mid, work)
    requires |work| < PERIOD && k < |work| && 0 < p.maxSegment <= MAX_SEGMENT
    requires Resumes(p, work[k].view, work[k].env) && ch < |s.t.chans|
    requires DataIn.Filed(t.pending)
    ensures var rec, itt := work[k].rec, TagFor(mid, p, work, k);
      var s' := RetriedAll(mid, p, work);
      var s'' := AfterOldLoop(s', itt, ch, TaskLoop.CleansUp(t, events));
      && InTable(s', itt, rec) && HasLoop(s', itt, rec.id)
      && (InTable(s'', itt, rec) && HasLoop(s'', itt, rec.id) <==> !TaskLoop.GetsToEnd(t, events))
      && (itt !in s''.t.pending <==> TaskLoop.GetsToEnd(t, events))
      && s'.t.pending[itt] in s''.loops && s''.loops[s'.t.pending[itt]] == rec.id
  {
    var rec, itt, s' := work[k].rec, TagFor(mid, p, work, k), RetriedAll(mid, p, work);
    RetryPartitions(mid, p, work, k);
    FateIff(p, work[k].view, work[k].env);
    UsedBefore(p, work, k, |work|);
    assert work[..|work|] == work;
    NewChannels(mid, p, work, itt);
    TaskLoop.CleansUpIff(t, events);
    CleanupTakesEntries(s', itt, ch, TaskLoop.CleansUp(t, events), rec);
  }
}
