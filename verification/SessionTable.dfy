/**
 * The session's table of tasks beside the router's table of tags: submission, completion,
 * abort by task and by LUN, Close and Drain, each an atomic operation.
 */
module SessionTable {
  import opened Prelude
  import opened Framer
  import opened Router

  datatype TaskRec = TaskRec(id: nat, lun: nat)

  datatype Reason = Aborted | SessionClosed | Expired | ReconnectFailed | RetryFailed

  /** A submission on its way: its task, and the channel that its task loop will read. */
  datatype Launch = Launch(id: nat, ch: nat)

  /**
   * `cancelled` holds why a task was cancelled, `ended` the tasks that have come to an
   * end of their own, `snackFailed` those that could not send a SNACK. `opening` are the
   * submissions on their way; `loops` are the task loops that run, by their channels, with
   * the task each of them serves; `left` are the channels of those that have returned, and
   * `leaked` those that a failed retry has registered. `closes` counts how often each of
   * the channels made by Drain was closed; `waiting` is the one that a Drain waits on.
   */
  datatype Sess = Sess(
    tasks: map<u32, TaskRec>, nextId: nat, cancelled: map<nat, Reason>, ended: set<nat>, snackFailed: set<nat>,
    t: Table<RawPdu>, opening: map<u32, Launch>, loops: map<nat, nat>, left: set<nat>, leaked: set<nat>,
    draining: bool, waiting: Option<nat>, closes: seq<nat>)

  function Start(persistentDepth: int): Sess {
    Sess(map[], 0, map[], {}, {}, Fresh(persistentDepth), map[], map[], {}, {}, false, None, [])
  }

  datatype Op =
    | Begin(lun: nat)      // a submission up to its entry in the tables
    | Fail(itt: u32)       // a submission that fails after that
    | Serve(itt: u32)      // the end of a submission: the task's goroutine starts
    | SnackFails(itt: u32) // a task cannot send a SNACK: it reports the error and is done
    | Leave(ch: nat)       // the goroutine returns
    | Finish(itt: u32)     // the task's goroutine has its answer
    | Expire(itt: u32)     // the caller's context ends, or the task fails on its own
    | Abort(itt: u32)      // the target confirms the abort of a task
    | AbortLun(lun: nat)   // the target confirms the abort of all tasks of a LUN
    | Close
    | StartDrain
    | DrainTimesOut
    | Probe                // a request with a one-shot registration
    | Forget(itt: u32)     // the end of such a request
    | Traffic(step: Step<RawPdu>)  // the router dispatches a PDU, or a task receives one

  // ---- The operations ------------------------------------------------------------------

  function Remove(s: Sess, itt: u32): Sess {
    s.(t := s.t.(pending := s.t.pending - {itt}), tasks := s.tasks - {itt})
  }

  /** Cancelling a task a second time changes nothing. */
  function Cancel(cancelled: map<nat, Reason>, id: nat, why: Reason): map<nat, Reason> {
    if id in cancelled then cancelled else cancelled[id := why]
  }

  function BeginOf(s: Sess, lun: nat): Sess
    requires Wired(s.t)
  {
    var itt := TagOf(s.t.nextITT);
    s.(t := Next(Next(s.t, Step.AllocateITT), Step.RegisterPersistent(itt)),
       tasks := s.tasks[itt := TaskRec(s.nextId, lun)], nextId := s.nextId + 1,
       opening := s.opening[itt := Launch(s.nextId, |s.t.chans|)])
  }

  function EndedOf(s: Sess, itt: u32): Sess {
    Remove(s, itt).(ended := if itt in s.tasks then s.ended + {s.tasks[itt].id} else s.ended)
  }

  function FailOf(s: Sess, itt: u32): Sess {
    EndedOf(s, itt).(opening := s.opening - {itt})
  }

  function ServeOf(s: Sess, itt: u32): Sess
    requires itt in s.opening
  {
    s.(opening := s.opening - {itt}, loops := s.loops[s.opening[itt].ch := s.opening[itt].id])
  }

  /** A Drain that waits is told when the table is empty. */
  function Signal(s: Sess): Sess {
    if s.draining && s.tasks == map[] && s.waiting.Some? && s.waiting.value < |s.closes| then
      s.(waiting := None, closes := s.closes[s.waiting.value := s.closes[s.waiting.value] + 1])
    else s
  }

  function FinishOf(s: Sess, itt: u32): Sess {
    Signal(EndedOf(s, itt))
  }

  function AbortOf(s: Sess, itt: u32, why: Reason): Sess {
    Remove(s, itt).(cancelled := if itt in s.tasks then Cancel(s.cancelled, s.tasks[itt].id, why) else s.cancelled)
  }

  function ExpireOf(s: Sess, itt: u32): Sess {
    Signal(AbortOf(s, itt, Expired))
  }

  /** The ids of the tasks under the given tags. */
  function IdsOf(tasks: map<u32, TaskRec>, itts: set<u32>): set<nat> {
    set itt | itt in itts && itt in tasks :: tasks[itt].id
  }

  function CancelAll(cancelled: map<nat, Reason>, ids: set<nat>, why: Reason): map<nat, Reason> {
    map id | id in ids + cancelled.Keys :: if id in cancelled then cancelled[id] else why
  }

  function AbortAllOf(s: Sess, itts: set<u32>, why: Reason): Sess {
    s.(t := s.t.(pending := s.t.pending - itts), tasks := s.tasks - itts,
       cancelled := CancelAll(s.cancelled, IdsOf(s.tasks, itts), why))
  }

  function OfLun(tasks: map<u32, TaskRec>, lun: nat): set<u32> {
    set itt | itt in tasks && tasks[itt].lun == lun
  }

  function StartDrainOf(s: Sess): Sess {
    if s.draining || s.tasks == map[] then s
    else s.(draining := true, waiting := Some(|s.closes|), closes := s.closes + [0])
  }

  /** A loop reads the channel registered for the tag, and serves the task. */
  ghost predicate HasLoop(s: Sess, itt: u32, id: nat) {
    itt in s.t.pending && s.t.pending[itt] in s.loops && s.loops[s.t.pending[itt]] == id
  }

  /** Some loop serves the task, maybe on a channel that it had before a reconnect. */
  ghost predicate HasServer(s: Sess, id: nat) {
    exists ch :: ch in s.loops && s.loops[ch] == id
  }

  /** The done channel of the task is closed: it was cancelled, or could not send a SNACK. */
  predicate IsDone(s: Sess, id: nat) {
    id in s.cancelled || id in s.snackFailed
  }

  /**
   * A task loop leaves when it has finished its task, when it sees that the task is done,
   * or when its channel is closed and empty.
   */
  ghost predicate MayLeave(s: Sess, ch: nat) {
    && ch in s.loops && ch < |s.t.chans|
    && (s.loops[ch] in s.ended || IsDone(s, s.loops[ch]) || (s.t.chans[ch].closed && s.t.chans[ch].queue == []))
  }

  function LeaveOf(s: Sess, ch: nat): Sess {
    s.(loops := s.loops - {ch}, left := s.left + {ch})
  }

  function SnackFailsOf(s: Sess, itt: u32): Sess
    requires itt in s.tasks
  {
    s.(snackFailed := s.snackFailed + {s.tasks[itt].id})
  }

  /**
   * A tag that is handed out is not in use: nothing is outstanding for a whole cycle of
   * tags. A submission fails once; a task is finished, expires, or fails to send a SNACK
   * by a loop that serves it.
   */
  ghost predicate Possible(s: Sess, op: Op) {
    && Wired(s.t)
    && (op.Begin? || op.Probe? ==> TagOf(s.t.nextITT) !in s.t.pending && TagOf(s.t.nextITT) !in s.opening)
    && (op.Serve? || op.Fail? ==> op.itt in s.opening)
    && (op.SnackFails? ==> op.itt in s.tasks && HasServer(s, s.tasks[op.itt].id))
    && (op.Leave? ==> MayLeave(s, op.ch))
    && ((op.Finish? || op.Expire?) && op.itt in s.tasks ==> HasServer(s, s.tasks[op.itt].id))
    && (op.Traffic? ==> (op.step.Lookup? || op.step.Send? || op.step.Receive?) && Enabled(s.t, op.step))
    && (op.Forget? ==> op.itt in s.t.pending && !s.t.chans[s.t.pending[op.itt]].persistent)
  }

  ghost function After(s: Sess, op: Op): Sess
    requires Possible(s, op)
  {
    match op
    case Begin(lun) => BeginOf(s, lun)
    case Fail(itt) => FailOf(s, itt)
    case Serve(itt) => ServeOf(s, itt)
    case SnackFails(itt) => SnackFailsOf(s, itt)
    case Leave(ch) => LeaveOf(s, ch)
    case Finish(itt) => FinishOf(s, itt)
    case Expire(itt) => ExpireOf(s, itt)
    case Abort(itt) => AbortOf(s, itt, Aborted)
    case AbortLun(lun) => AbortAllOf(s, OfLun(s.tasks, lun), Aborted)
    case Close => AbortAllOf(s, s.tasks.Keys, SessionClosed)
    case StartDrain => StartDrainOf(s)
    case DrainTimesOut => s.(draining := false, waiting := None)
    case Probe => s.(t := Next(s.t, Step.Register))
    case Forget(itt) => s.(t := s.t.(pending := s.t.pending - {itt}))
    case Traffic(step) => s.(t := Next(s.t, step))
  }

  class Session {
    const router: Router<RawPdu>
    var tasks: map<u32, TaskRec>
    var nextId: nat
    var cancelled: map<nat, Reason>
    ghost var ended: set<nat>
    ghost var snackFailed: set<nat>
    ghost var opening: map<u32, Launch>
    ghost var loops: map<nat, nat>
    ghost var left: set<nat>
    ghost var leaked: set<nat>
    var recovering: bool
    var draining: bool
    var drainDone: Option<nat>
    var closes: seq<nat>

    ghost function State(): Sess
      reads this, router
    {
      Sess(tasks, nextId, cancelled, ended, snackFailed, router.State(), opening, loops, left, leaked,
           draining, drainDone, closes)
    }

    ghost predicate Valid()
      reads this, router
    {
      router.Valid() && (drainDone.Some? ==> drainDone.value < |closes|)
    }

    constructor (persistentDepth: int)
      ensures Valid() && fresh(router) && State() == Start(persistentDepth) && !recovering
    {
      router := new Router(persistentDepth);
      tasks, nextId, cancelled, ended := map[], 0, map[], {};
      snackFailed, opening, loops, left, leaked := {}, map[], map[], {}, {};
      recovering, draining, drainDone, closes := false, false, None, [];
    }

    /** No command is accepted during recovery or while draining. */
    method Admit() returns (ok: bool)
      ensures ok <==> !recovering && !draining
    {
      ok := !recovering && !draining;
    }

    /** Only the first of several triggers starts a recovery, and none after Close. */
    method TriggerReconnect(closed: bool) returns (start: bool)
      modifies this`recovering
      ensures start == (!closed && !old(recovering))
      ensures recovering == (old(recovering) || start)
    {
      start := !closed && !recovering;
      if start {
        recovering := true;
      }
    }

    method BeginTask(lun: nat) returns (itt: u32)
      requires Valid()
      modifies this, router
      ensures Valid() && State() == BeginOf(old(State()), lun)
      ensures itt == TagOf(old(router.nextITT)) && itt in tasks && tasks[itt] == TaskRec(old(nextId), lun)
    {
      itt := router.AllocateITT();
      var ch := router.RegisterPersistent(itt);
      opening := opening[itt := Launch(nextId, ch)];
      tasks, nextId := tasks[itt := TaskRec(nextId, lun)], nextId + 1;
    }

    method EndTask(itt: u32)
      requires Valid()
      modifies this, router
      ensures Valid() && State() == EndedOf(old(State()), itt)
    {
      router.Unregister(itt);
      ended := if itt in tasks then ended + {tasks[itt].id} else ended;
      tasks := tasks - {itt};
    }

    /** A submission that fails after its entry takes that back. */
    method FailTask(itt: u32)
      requires Valid()
      modifies this, router
      ensures Valid() && State() == FailOf(old(State()), itt)
    {
      EndTask(itt);
      opening := opening - {itt};
    }

    /** The last thing a submission does: the task's goroutine starts on its channel. */
    method StartLoop(itt: u32)
      requires Valid() && itt in opening
      modifies this`opening, this`loops
      ensures Valid() && State() == ServeOf(old(State()), itt)
    {
      opening, loops := opening - {itt}, loops[opening[itt].ch := opening[itt].id];
    }

    /** The task's goroutine returns. */
    method LoopReturns(ch: nat)
      requires Valid() && MayLeave(State(), ch)
      modifies this`loops, this`left
      ensures Valid() && State() == LeaveOf(old(State()), ch)
    {
      loops, left := loops - {ch}, left + {ch};
    }

    /** The task's goroutine could not send a SNACK. */
    method SnackFailed(itt: u32)
      requires Valid() && itt in tasks
      modifies this`snackFailed
      ensures Valid() && State() == SnackFailsOf(old(State()), itt)
    {
      snackFailed := snackFailed + {tasks[itt].id};
    }

    method SignalDrain()
      requires Valid()
      modifies this`drainDone, this`closes
      ensures Valid() && State() == Signal(old(State()))
    {
      if draining && |tasks| == 0 && drainDone.Some? {
        closes := closes[drainDone.value := closes[drainDone.value] + 1];
        drainDone := None;
      }
    }

    method CleanupTask(itt: u32)
      requires Valid()
      modifies this, router
      ensures Valid() && State() == FinishOf(old(State()), itt)
    {
      EndTask(itt);
      SignalDrain();
    }

    method CancelTask(id: nat, why: Reason)
      requires Valid()
      modifies this`cancelled
      ensures Valid() && cancelled == Cancel(old(cancelled), id, why)
    {
      if id !in cancelled {
        cancelled := cancelled[id := why];
      }
    }

    method CleanupAbortedTask(itt: u32, why: Reason)
      requires Valid()
      modifies this, router
      ensures Valid() && State() == AbortOf(old(State()), itt, why)
    {
      router.Unregister(itt);
      if itt in tasks {
        var task := tasks[itt];
        tasks := tasks - {itt};
        CancelTask(task.id, why);
      } else {
        assert tasks - {itt} == tasks;
      }
    }

    /** The task's context ends: it is cancelled first, and cleaned up then. */
    method ExpireTask(itt: u32)
      requires Valid()
      modifies this, router
      ensures Valid() && State() == ExpireOf(old(State()), itt)
    {
      CleanupAbortedTask(itt, Expired);
      SignalDrain();
    }

    /** One task after the other, in any order, from a snapshot of the tags. */
    method CancelEach(itts: set<u32>, why: Reason)
      requires Valid()
      modifies this, router
      ensures Valid() && State() == AbortAllOf(old(State()), itts, why)
    {
      ghost var s, done := State(), {};
      var toClean := itts;
      NothingToAbort(s, why);
      while toClean != {}
        invariant Valid() && done + toClean == itts && done !! toClean
        invariant State() == AbortAllOf(s, done, why)
        decreases toClean
      {
        var itt :| itt in toClean;
        AbortOneMore(s, done, itt, why);
        CleanupAbortedTask(itt, why);
        toClean, done := toClean - {itt}, done + {itt};
      }
      assert done == itts;
    }

    method CleanupTasksByLUN(lun: nat)
      requires Valid()
      modifies this, router
      ensures Valid() && State() == AbortAllOf(old(State()), OfLun(old(tasks), lun), Aborted)
    {
      var toClean := set itt | itt in tasks && tasks[itt].lun == lun;
      CancelEach(toClean, Aborted);
    }

    method CloseSession()
      requires Valid()
      modifies this, router
      ensures Valid() && State() == AbortAllOf(old(State()), old(tasks.Keys), SessionClosed)
      ensures tasks == map[]
    {
      CancelEach(tasks.Keys, SessionClosed);
    }

    /** A Drain starts: it is refused, or has nothing to wait for, or waits on a new channel. */
    method StartDrain() returns (refused: bool, wait: Option<nat>)
      requires Valid()
      modifies this
      ensures Valid() && State() == StartDrainOf(old(State()))
      ensures refused == old(draining)
      ensures wait.Some? <==> !old(draining) && old(tasks) != map[]
      ensures wait.Some? ==> drainDone == wait && draining
    {
      refused, wait := draining, None;
      if draining || |tasks| == 0 {
        return;
      }
      draining, drainDone := true, Some(|closes|);
      closes := closes + [0];
      wait := drainDone;
    }

    method DrainTimedOut()
      requires Valid()
      modifies this
      ensures Valid() && State() == old(State()).(draining := false, waiting := None)
    {
      draining, drainDone := false, None;
    }
  }

  lemma NothingToAbort(s: Sess, why: Reason)
    ensures AbortAllOf(s, {}, why) == s
  {
    assert IdsOf(s.tasks, {}) == {};
    assert CancelAll(s.cancelled, {}, why) == s.cancelled;
    assert s.tasks - {} == s.tasks && s.t.pending - {} == s.t.pending;
  }

  lemma IdsOfOneMore(tasks: map<u32, TaskRec>, itts: set<u32>, itt: u32)
    ensures IdsOf(tasks, itts + {itt}) == IdsOf(tasks, itts) + if itt in tasks then {tasks[itt].id} else {}
  {
    if itt in tasks {
      assert IdsOf(tasks, itts + {itt}) == IdsOf(tasks, itts) + {tasks[itt].id};
    } else {
      assert IdsOf(tasks, itts + {itt}) == IdsOf(tasks, itts);
    }
  }

  lemma CancelOneMore(cancelled: map<nat, Reason>, ids: set<nat>, id: nat, why: Reason)
    ensures Cancel(CancelAll(cancelled, ids, why), id, why) == CancelAll(cancelled, ids + {id}, why)
  {
  }

  lemma DropOneMore<V>(m: map<u32, V>, itts: set<u32>, itt: u32)
    ensures m - itts - {itt} == m - (itts + {itt})
  {
  }

  /** Aborting one more task after a set of them is aborting the larger set. */
  lemma AbortOneMore(s: Sess, itts: set<u32>, itt: u32, why: Reason)
    requires itt !in itts
    ensures AbortOf(AbortAllOf(s, itts, why), itt, why) == AbortAllOf(s, itts + {itt}, why)
  {
    var ids := IdsOf(s.tasks, itts);
    DropOneMore(s.tasks, itts, itt);
    DropOneMore(s.t.pending, itts, itt);
    IdsOfOneMore(s.tasks, itts, itt);
    if itt in s.tasks {
      CancelOneMore(s.cancelled, ids, s.tasks[itt].id, why);
    } else {
      assert ids + {} == ids;
    }
  }
}
