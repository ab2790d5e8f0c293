/** What the session's tables keep over every run of its operations. */
module SessionRuns {
  import opened Prelude
  import opened Framer
  import opened Router
  import opened SessionTable

  /** The tags that the router delivers to again and again. */
  function PersistentTags(t: Table<RawPdu>): set<u32>
    requires Wired(t)
  {
    set itt | itt in t.pending && t.chans[t.pending[itt]].persistent
  }

  function LiveIds(s: Sess): set<nat> {
    set itt | itt in s.tasks :: s.tasks[itt].id
  }

  /** A task has one tag. */
  ghost predicate OneTagEach(s: Sess) {
    forall i, j | i in s.tasks && j in s.tasks && s.tasks[i].id == s.tasks[j].id :: i == j
  }

  /** Every task that was ever begun is live, or cancelled, or ended, and only one of these. */
  ghost predicate Accounted(s: Sess) {
    && (forall id: nat :: id < s.nextId <==> (id in LiveIds(s) || id in s.cancelled || id in s.ended))
    && (forall id: nat :: id in LiveIds(s) ==> id !in s.cancelled && id !in s.ended)
    && (forall id: nat :: id in s.cancelled ==> id !in s.ended)
  }

  /** No channel of a Drain is closed twice, and the one that is waited on has not been closed. */
  ghost predicate DrainsSound(s: Sess) {
    && (forall d | 0 <= d < |s.closes| :: s.closes[d] <= 1)
    && (s.waiting.Some? ==> s.draining && s.waiting.value < |s.closes| && s.closes[s.waiting.value] == 0)
  }

  ghost predicate Inv(s: Sess) {
    && Wired(s.t) && s.tasks.Keys == PersistentTags(s.t)
    && OneTagEach(s) && Accounted(s) && DrainsSound(s)
  }

  /** s' is s with a new task under the tag, its channel, and its submission. */
  ghost predicate Begun(s: Sess, s': Sess, itt: u32, lun: nat)
    requires Wired(s.t)
  {
    && Wired(s'.t) && itt !in s.t.pending && itt !in s.opening
    && s' == s.(t := s'.t, tasks := s.tasks[itt := TaskRec(s.nextId, lun)], nextId := s.nextId + 1,
                opening := s.opening[itt := Launch(s.nextId, |s.t.chans|)])
    && s'.t.pending == s.t.pending[itt := |s.t.chans|]
    && |s'.t.chans| == |s.t.chans| + 1 && (forall ch | 0 <= ch < |s.t.chans| :: s'.t.chans[ch] == s.t.chans[ch])
    && s'.t.chans[|s.t.chans|].persistent && !s'.t.chans[|s.t.chans|].closed
    && s'.t.chans[|s.t.chans|].itt == itt
  }

  lemma BeginIsBegun(s: Sess, lun: nat)
    requires Possible(s, Begin(lun))
    ensures Begun(s, BeginOf(s, lun), TagOf(s.t.nextITT), lun)
  {
  }

  lemma BegunAddsTag(s: Sess, s': Sess, itt: u32, lun: nat)
    requires Wired(s.t) && Begun(s, s', itt, lun)
    ensures PersistentTags(s'.t) == PersistentTags(s.t) + {itt}
  {
  }

  lemma BegunAddsId(s: Sess, s': Sess, itt: u32, lun: nat)
    requires Wired(s.t) && Begun(s, s', itt, lun) && itt !in s.tasks
    ensures LiveIds(s') == LiveIds(s) + {s.nextId}
  {
    assert itt in s'.tasks;
    forall id | id in LiveIds(s) ensures id in LiveIds(s') {
      var j :| j in s.tasks && s.tasks[j].id == id;
      assert j in s'.tasks && s'.tasks[j].id == id;
    }
  }

  lemma BeginKeepsInv(s: Sess, lun: nat)
    requires Inv(s) && Possible(s, Begin(lun))
    ensures Inv(BeginOf(s, lun))
  {
    var s', itt := BeginOf(s, lun), TagOf(s.t.nextITT);
    BeginIsBegun(s, lun);
    BegunAddsTag(s, s', itt, lun);
    BegunAddsId(s, s', itt, lun);
    assert s.nextId !in LiveIds(s);
  }

  /** The ids that are live after the tasks under some tags have left. */
  lemma RemovalLeaves(s: Sess, itts: set<u32>, s': Sess)
    requires OneTagEach(s) && s'.tasks == s.tasks - itts
    ensures LiveIds(s') == LiveIds(s) - IdsOf(s.tasks, itts) && OneTagEach(s')
    ensures IdsOf(s.tasks, itts) <= LiveIds(s)
  {
    forall id | id in LiveIds(s) - IdsOf(s.tasks, itts)
      ensures id in LiveIds(s')
    {
      var j :| j in s.tasks && s.tasks[j].id == id;
      assert j in s'.tasks;
    }
  }

  lemma TagsAfterRemoval(t: Table<RawPdu>, itts: set<u32>, t': Table<RawPdu>)
    requires Wired(t) && t' == t.(pending := t.pending - itts)
    ensures Wired(t') && PersistentTags(t') == PersistentTags(t) - itts
  {
  }

  lemma EndKeepsInv(s: Sess, itt: u32)
    requires Inv(s)
    ensures Inv(EndedOf(s, itt))
  {
    var s' := EndedOf(s, itt);
    TagsAfterRemoval(s.t, {itt}, s'.t);
    RemovalLeaves(s, {itt}, s');
    assert IdsOf(s.tasks, {itt}) == if itt in s.tasks then {s.tasks[itt].id} else {};
  }

  /** Where loops start and leave does not matter to the tables, nor what SNACKs do. */
  lemma LoopOpKeepsInv(s: Sess, s': Sess)
    requires Inv(s)
    requires s' == s.(opening := s'.opening, loops := s'.loops, left := s'.left, snackFailed := s'.snackFailed)
    ensures Inv(s')
  {
    assert LiveIds(s') == LiveIds(s);
  }

  lemma AbortAllKeepsInv(s: Sess, itts: set<u32>, why: Reason)
    requires Inv(s)
    ensures Inv(AbortAllOf(s, itts, why))
  {
    var s' := AbortAllOf(s, itts, why);
    TagsAfterRemoval(s.t, itts, s'.t);
    RemovalLeaves(s, itts, s');
  }

  lemma AbortKeepsInv(s: Sess, itt: u32, why: Reason)
    requires Inv(s)
    ensures Inv(AbortOf(s, itt, why))
  {
    NothingToAbort(s, why);
    AbortOneMore(s, {}, itt, why);
    AbortAllKeepsInv(s, {itt}, why);
    assert {} + {itt} == {itt};
  }

  lemma SignalKeepsInv(s: Sess)
    requires Inv(s)
    ensures Inv(Signal(s))
  {
    assert LiveIds(Signal(s)) == LiveIds(s);
  }

  /** The persistent registrations of t are in t', as they were, and there are no others. */
  ghost predicate SameEntries(t: Table<RawPdu>, t': Table<RawPdu>) {
    && Wired(t) && Wired(t') && |t.chans| <= |t'.chans|
    && (forall ch | 0 <= ch < |t.chans| ::
          && t'.chans[ch].persistent == t.chans[ch].persistent && t'.chans[ch].closed == t.chans[ch].closed
          && t'.chans[ch].itt == t.chans[ch].itt)
    && PersistentTags(t') == PersistentTags(t)
    && (forall itt | itt in PersistentTags(t) :: t'.pending[itt] == t.pending[itt])
  }

  lemma RequestKeepsEntries(s: Sess, op: Op)
    requires Possible(s, op) && (op.Probe? || op.Forget?)
    ensures SameEntries(s.t, After(s, op).t)
  {
    assert PersistentTags(After(s, op).t) == PersistentTags(s.t);
  }

  lemma TrafficKeepsEntries(s: Sess, step: Step<RawPdu>)
    requires Possible(s, Traffic(step))
    ensures SameEntries(s.t, After(s, Traffic(step)).t)
  {
    assert PersistentTags(Next(s.t, step)) == PersistentTags(s.t);
  }

  lemma RouterOpKeepsEntries(s: Sess, op: Op)
    requires Possible(s, op) && (op.Probe? || op.Forget? || op.Traffic?)
    ensures After(s, op) == s.(t := After(s, op).t) && SameEntries(s.t, After(s, op).t)
  {
    if op.Traffic? {
      TrafficKeepsEntries(s, op.step);
    } else {
      RequestKeepsEntries(s, op);
    }
  }

  lemma EntriesKeepInv(s: Sess, t: Table<RawPdu>)
    requires Inv(s) && SameEntries(s.t, t)
    ensures Inv(s.(t := t))
  {
    assert LiveIds(s.(t := t)) == LiveIds(s);
  }

  lemma StepKeepsInv(s: Sess, op: Op)
    requires Inv(s) && Possible(s, op)
    ensures Inv(After(s, op))
  {
    match op
    case Begin(lun) => BeginKeepsInv(s, lun);
    case Fail(itt) => EndKeepsInv(s, itt); LoopOpKeepsInv(EndedOf(s, itt), FailOf(s, itt));
    case Serve(itt) => LoopOpKeepsInv(s, ServeOf(s, itt));
    case SnackFails(itt) => LoopOpKeepsInv(s, After(s, op));
    case Leave(ch) => LoopOpKeepsInv(s, After(s, op));
    case Finish(itt) => EndKeepsInv(s, itt); SignalKeepsInv(EndedOf(s, itt));
    case Expire(itt) => AbortKeepsInv(s, itt, Expired); SignalKeepsInv(AbortOf(s, itt, Expired));
    case Abort(itt) => AbortKeepsInv(s, itt, Aborted);
    case AbortLun(lun) => AbortAllKeepsInv(s, OfLun(s.tasks, lun), Aborted);
    case Close => AbortAllKeepsInv(s, s.tasks.Keys, SessionClosed);
    case StartDrain => assert LiveIds(StartDrainOf(s)) == LiveIds(s);
    case DrainTimesOut => assert LiveIds(s.(draining := false, waiting := None)) == LiveIds(s);
    case _ => RouterOpKeepsEntries(s, op); EntriesKeepInv(s, After(s, op).t);
  }

  // ---- Task loops ----------------------------------------------------------------------

  /** A task has a channel of its own, which is open. */
  ghost predicate OwnChannel(s: Sess, itt: u32) {
    && itt in s.t.pending && s.t.pending[itt] < |s.t.chans|
    && var c := s.t.chans[s.t.pending[itt]]; c.persistent && !c.closed && c.itt == itt
  }

  ghost predicate Served(s: Sess, itt: u32)
    requires itt in s.tasks
  {
    HasLoop(s, itt, s.tasks[itt].id)
  }

  /** The task's submission will start that loop. */
  ghost predicate BeingOpened(s: Sess, itt: u32)
    requires itt in s.tasks
  {
    itt in s.t.pending && itt in s.opening && s.opening[itt] == Launch(s.tasks[itt].id, s.t.pending[itt])
  }

  /** The task's loop has returned and left it in the table, because it was done. */
  ghost predicate Stranded(s: Sess, itt: u32)
    requires itt in s.tasks
  {
    itt in s.t.pending && s.t.pending[itt] in s.left && IsDone(s, s.tasks[itt].id)
  }

  /** The task is where a retry has left it that failed, and has never had a loop there. */
  ghost predicate Leaked(s: Sess, itt: u32)
    requires itt in s.tasks
  {
    itt in s.t.pending && s.t.pending[itt] in s.leaked && s.tasks[itt].id in s.cancelled
  }

  ghost predicate Manned(s: Sess, itt: u32)
    requires itt in s.tasks
  {
    && s.tasks[itt].id < s.nextId && s.tasks[itt].id !in s.ended && OwnChannel(s, itt)
    && (itt in s.opening ==> BeingOpened(s, itt))
    && (BeingOpened(s, itt) || Served(s, itt) || Stranded(s, itt) || Leaked(s, itt))
  }

  /** All that loops, submissions and histories name is there. */
  ghost predicate ChannelsKnown(s: Sess) {
    && (forall ch | ch in s.loops :: ch < |s.t.chans| && s.loops[ch] < s.nextId)
    && (forall i | i in s.opening :: s.opening[i].id < s.nextId)
    && (forall i | i in s.opening :: s.opening[i].ch < |s.t.chans| && s.t.chans[s.opening[i].ch].itt == i)
    && (forall ch | ch in s.left || ch in s.leaked :: ch < |s.t.chans|)
  }

  /** A channel belongs to one of them only. */
  ghost predicate ChannelsApart(s: Sess) {
    && s.loops.Keys !! s.left && s.loops.Keys !! s.leaked && s.left !! s.leaked
    && (forall i | i in s.opening :: s.opening[i].ch !in s.loops)
    && (forall i | i in s.opening :: s.opening[i].ch !in s.left && s.opening[i].ch !in s.leaked)
  }

  /** Nobody works for the task on an open channel but its own loop or its own submission. */
  ghost predicate Alone(s: Sess, itt: u32)
    requires itt in s.tasks
  {
    && (forall ch | ch in s.loops && s.loops[ch] == s.tasks[itt].id ::
          ch < |s.t.chans| && (s.t.chans[ch].closed || (itt in s.t.pending && ch == s.t.pending[itt])))
    && (forall i | i in s.opening && s.opening[i].id == s.tasks[itt].id ::
          && s.opening[i].ch < |s.t.chans|
          && (s.t.chans[s.opening[i].ch].closed || (itt in s.t.pending && s.opening[i].ch == s.t.pending[itt])))
  }

  ghost predicate AllManned(s: Sess) {
    forall itt | itt in s.tasks :: Manned(s, itt) && Alone(s, itt)
  }

  /** What holds of tasks and loops in every run, also when retries have failed. */
  ghost predicate Core(s: Sess) {
    Wired(s.t) && OneTagEach(s) && ChannelsKnown(s) && ChannelsApart(s) && AllManned(s)
  }

  /** A channel is as it was, but for what is queued on it. */
  ghost predicate SameChannel(t: Table<RawPdu>, t': Table<RawPdu>, ch: nat) {
    && ch < |t.chans| && ch < |t'.chans|
    && t'.chans[ch].persistent == t.chans[ch].persistent && t'.chans[ch].closed == t.chans[ch].closed
    && t'.chans[ch].itt == t.chans[ch].itt
  }

  /** What the step leaves as it was for the task under the tag. */
  ghost predicate Spared(s: Sess, s': Sess, itt: u32)
    requires itt in s.tasks
  {
    && itt in s'.tasks && s'.tasks[itt] == s.tasks[itt]
    && itt in s.t.pending && itt in s'.t.pending && s'.t.pending[itt] == s.t.pending[itt]
    && SameChannel(s.t, s'.t, s.t.pending[itt])
  }

  /** Sets that only grow keep a task that was stranded or leaked so. */
  ghost predicate HistoryGrows(s: Sess, s': Sess) {
    && s.nextId <= s'.nextId && s.left <= s'.left && s.leaked <= s'.leaked
    && s.snackFailed <= s'.snackFailed && s.cancelled.Keys <= s'.cancelled.Keys
  }

  lemma StaysManned(s: Sess, s': Sess, itt: u32)
    requires itt in s.tasks && Manned(s, itt) && Spared(s, s', itt) && HistoryGrows(s, s')
    requires s.tasks[itt].id !in s'.ended
    requires itt in s'.opening ==> itt in s.opening && s'.opening[itt] == s.opening[itt]
    requires BeingOpened(s, itt) ==> BeingOpened(s', itt) || Served(s', itt)
    requires Served(s, itt) ==> Served(s', itt) || Stranded(s', itt)
    ensures Manned(s', itt)
  {
  }

  /** The loops and submissions on open channels are those there were. */
  ghost predicate NoNewWork(s: Sess, s': Sess) {
    && (forall ch | ch in s'.loops :: ch in s.loops && s'.loops[ch] == s.loops[ch] && SameChannel(s.t, s'.t, ch))
    && (forall i | i in s'.opening ::
          i in s.opening && s'.opening[i] == s.opening[i] && SameChannel(s.t, s'.t, s.opening[i].ch))
  }

  lemma StaysAlone(s: Sess, s': Sess, itt: u32)
    requires itt in s.tasks && Alone(s, itt) && Spared(s, s', itt) && NoNewWork(s, s')
    ensures Alone(s', itt)
  {
  }

  /** The tasks and entries under the tags are taken away, and maybe their submissions. */
  ghost predicate Removed(s: Sess, itts: set<u32>, s': Sess) {
    && s'.tasks == s.tasks - itts && s'.t == s.t.(pending := s.t.pending - itts)
    && s'.opening.Keys <= s.opening.Keys && (forall i | i in s'.opening :: s'.opening[i] == s.opening[i])
    && (forall i | i in s.opening && i !in s'.opening :: i in itts)
    && s'.loops == s.loops && s'.left == s.left && s'.leaked == s.leaked && HistoryGrows(s, s')
    && forall id | id in s'.ended :: id in s.ended || id in IdsOf(s.tasks, itts)
  }

  lemma RemovalSpares(s: Sess, itts: set<u32>, s': Sess, itt: u32)
    requires OneTagEach(s) && ChannelsKnown(s) && Removed(s, itts, s')
    requires itt in s'.tasks && Manned(s, itt) && Alone(s, itt)
    ensures Manned(s', itt) && Alone(s', itt)
  {
    StaysManned(s, s', itt);
    StaysAlone(s, s', itt);
  }

  /** Steps that take tasks and entries away. */
  lemma RemovalKeepsCore(s: Sess, itts: set<u32>, s': Sess)
    requires Core(s) && Removed(s, itts, s')
    ensures Core(s')
  {
    forall itt | itt in s'.tasks
      ensures Manned(s', itt) && Alone(s', itt)
    {
      RemovalSpares(s, itts, s', itt);
    }
  }

  /** Steps that do not touch the tables. */
  lemma OthersKeepCore(s: Sess, s': Sess)
    requires Core(s) && s'.tasks == s.tasks && s'.t == s.t && s'.opening == s.opening && s'.loops == s.loops
    requires s'.left == s.left && s'.leaked == s.leaked && s'.ended == s.ended && HistoryGrows(s, s')
    ensures Core(s')
  {
    assert s.tasks - {} == s.tasks && s.t.pending - {} == s.t.pending;
    RemovalKeepsCore(s, {}, s');
  }

  lemma BegunKeepsKnown(s: Sess, s': Sess, itt: u32, lun: nat)
    requires Wired(s.t) && Begun(s, s', itt, lun) && ChannelsKnown(s) && ChannelsApart(s)
    ensures ChannelsKnown(s') && ChannelsApart(s')
  {
  }

  /** The new task is being opened, and nobody has worked for it before. */
  lemma BegunIsOpened(s: Sess, s': Sess, itt: u32, lun: nat)
    requires Wired(s.t) && Begun(s, s', itt, lun) && ChannelsKnown(s) && s.nextId !in s.ended
    ensures itt in s'.tasks && Manned(s', itt) && Alone(s', itt)
  {
    assert BeingOpened(s', itt);
  }

  lemma BegunSpares(s: Sess, s': Sess, itt: u32, lun: nat, i: u32)
    requires Wired(s.t) && Begun(s, s', itt, lun) && i in s.tasks && Manned(s, i) && Alone(s, i)
    ensures i != itt && Manned(s', i) && Alone(s', i)
  {
    StaysManned(s, s', i);
  }

  lemma BegunTagsOnce(s: Sess, s': Sess, itt: u32, lun: nat)
    requires Wired(s.t) && OneTagEach(s) && Begun(s, s', itt, lun)
    requires forall i | i in s.tasks :: s.tasks[i].id < s.nextId
    ensures OneTagEach(s')
  {
  }

  lemma BegunKeepsCore(s: Sess, s': Sess, itt: u32, lun: nat)
    requires Core(s) && Begun(s, s', itt, lun) && s.nextId !in s.ended
    ensures Core(s')
  {
    BegunKeepsKnown(s, s', itt, lun);
    BegunIsOpened(s, s', itt, lun);
    forall i | i in s.tasks ensures i != itt && Manned(s', i) && Alone(s', i) && s.tasks[i].id < s.nextId {
      BegunSpares(s, s', itt, lun, i);
    }
    BegunTagsOnce(s, s', itt, lun);
  }

  lemma ServeKeepsKnown(s: Sess, itt: u32)
    requires ChannelsKnown(s) && ChannelsApart(s) && itt in s.opening
    ensures ChannelsKnown(ServeOf(s, itt)) && ChannelsApart(ServeOf(s, itt))
  {
    var s' := ServeOf(s, itt);
    forall i | i in s'.opening
      ensures s'.opening[i].ch !in s'.loops
    {
      assert s.t.chans[s.opening[i].ch].itt == i && s.t.chans[s.opening[itt].ch].itt == itt;
    }
  }

  lemma ServeKeepsManned(s: Sess, itt: u32, i: u32)
    requires itt in s.opening && i in s.tasks && Manned(s, i) && Alone(s, i)
    requires s.opening[itt].ch !in s.loops
    ensures Manned(ServeOf(s, itt), i) && Alone(ServeOf(s, itt), i)
  {
    StaysManned(s, ServeOf(s, itt), i);
  }

  lemma ServeKeepsCore(s: Sess, itt: u32)
    requires Core(s) && itt in s.opening
    ensures Core(ServeOf(s, itt))
  {
    ServeKeepsKnown(s, itt);
    forall i | i in s.tasks ensures Manned(ServeOf(s, itt), i) && Alone(ServeOf(s, itt), i) {
      ServeKeepsManned(s, itt, i);
    }
  }

  lemma LeaveKeepsManned(s: Sess, ch: nat, i: u32)
    requires ChannelsKnown(s) && MayLeave(s, ch) && i in s.tasks && Manned(s, i) && Alone(s, i)
    ensures Manned(LeaveOf(s, ch), i) && Alone(LeaveOf(s, ch), i)
  {
    var s' := LeaveOf(s, ch);
    StaysManned(s, s', i);
    StaysAlone(s, s', i);
  }

  lemma LeaveKeepsCore(s: Sess, ch: nat)
    requires Core(s) && MayLeave(s, ch)
    ensures Core(LeaveOf(s, ch))
  {
    forall i | i in s.tasks ensures Manned(LeaveOf(s, ch), i) && Alone(LeaveOf(s, ch), i) {
      LeaveKeepsManned(s, ch, i);
    }
  }

  lemma EntriesKeepManned(s: Sess, t: Table<RawPdu>, i: u32)
    requires ChannelsKnown(s) && SameEntries(s.t, t) && i in s.tasks && Manned(s, i) && Alone(s, i)
    ensures Manned(s.(t := t), i) && Alone(s.(t := t), i)
  {
    assert i in PersistentTags(s.t);
    StaysManned(s, s.(t := t), i);
    StaysAlone(s, s.(t := t), i);
  }

  lemma EntriesKeepCore(s: Sess, t: Table<RawPdu>)
    requires Core(s) && SameEntries(s.t, t)
    ensures Core(s.(t := t))
  {
    forall i | i in s.tasks ensures Manned(s.(t := t), i) && Alone(s.(t := t), i) {
      EntriesKeepManned(s, t, i);
    }
  }

  lemma RouterOpKeepsCore(s: Sess, op: Op)
    requires Possible(s, op) && Core(s) && (op.Probe? || op.Forget? || op.Traffic?)
    ensures Core(After(s, op))
  {
    RouterOpKeepsEntries(s, op);
    EntriesKeepCore(s, After(s, op).t);
  }

  lemma EndIsRemoval(s: Sess, itt: u32)
    ensures Removed(s, {itt}, EndedOf(s, itt))
  {
    assert itt in s.tasks ==> s.tasks[itt].id in IdsOf(s.tasks, {itt});
  }

  lemma FinishKeepsCore(s: Sess, itt: u32)
    requires Core(s)
    ensures Core(FinishOf(s, itt))
  {
    EndIsRemoval(s, itt);
    RemovalKeepsCore(s, {itt}, EndedOf(s, itt));
    OthersKeepCore(EndedOf(s, itt), FinishOf(s, itt));
  }

  lemma FailKeepsCore(s: Sess, itt: u32)
    requires Core(s)
    ensures Core(FailOf(s, itt))
  {
    EndIsRemoval(s, itt);
    RemovalKeepsCore(s, {itt}, FailOf(s, itt));
  }

  lemma ExpireKeepsCore(s: Sess, itt: u32)
    requires Core(s)
    ensures Core(ExpireOf(s, itt))
  {
    RemovalKeepsCore(s, {itt}, ExpireOf(s, itt));
  }

  lemma AbortKeepsCore(s: Sess, itt: u32, why: Reason)
    requires Core(s)
    ensures Core(AbortOf(s, itt, why))
  {
    RemovalKeepsCore(s, {itt}, AbortOf(s, itt, why));
  }

  /** Ids are handed out once. */
  ghost predicate IdsFresh(s: Sess) {
    forall id | id in s.ended || id in s.cancelled || id in s.snackFailed :: id < s.nextId
  }

  lemma StepKeepsIdsFresh(s: Sess, op: Op)
    requires Core(s) && IdsFresh(s) && Possible(s, op)
    ensures IdsFresh(After(s, op))
  {
    assert forall itt | itt in s.tasks :: Manned(s, itt);
    if op.Abort? || op.AbortLun? || op.Close? || op.Expire? {
      AbortKeepsIdsFresh(s, op);
    } else {
      OthersKeepIdsFresh(s, op);
    }
  }

  lemma AbortKeepsIdsFresh(s: Sess, op: Op)
    requires IdsFresh(s) && Possible(s, op) && (op.Abort? || op.AbortLun? || op.Close? || op.Expire?)
    requires forall itt | itt in s.tasks :: s.tasks[itt].id < s.nextId
    ensures IdsFresh(After(s, op))
  {
  }

  lemma OthersKeepIdsFresh(s: Sess, op: Op)
    requires IdsFresh(s) && Possible(s, op) && !(op.Abort? || op.AbortLun? || op.Close? || op.Expire?)
    requires forall itt | itt in s.tasks :: s.tasks[itt].id < s.nextId
    ensures IdsFresh(After(s, op))
  {
  }

  lemma StepKeepsCore(s: Sess, op: Op)
    requires Core(s) && IdsFresh(s) && Possible(s, op)
    ensures Core(After(s, op))
  {
    match op
    case Begin(lun) =>
      BeginIsBegun(s, lun);
      BegunKeepsCore(s, BeginOf(s, lun), TagOf(s.t.nextITT), lun);
    case Fail(itt) => FailKeepsCore(s, itt);
    case Serve(itt) => ServeKeepsCore(s, itt);
    case SnackFails(itt) => OthersKeepCore(s, SnackFailsOf(s, itt));
    case Leave(ch) => LeaveKeepsCore(s, ch);
    case StartDrain => OthersKeepCore(s, StartDrainOf(s));
    case DrainTimesOut => OthersKeepCore(s, s.(draining := false, waiting := None));
    case Probe => RouterOpKeepsCore(s, op);
    case Forget(_) => RouterOpKeepsCore(s, op);
    case Traffic(_) => RouterOpKeepsCore(s, op);
    case Finish(itt) => FinishKeepsCore(s, itt);
    case Expire(itt) => ExpireKeepsCore(s, itt);
    case Abort(itt) => AbortKeepsCore(s, itt, Aborted);
    case AbortLun(lun) => RemovalKeepsCore(s, OfLun(s.tasks, lun), After(s, op));
    case Close => RemovalKeepsCore(s, s.tasks.Keys, After(s, op));
  }

  // ---- What single operations do -----------------------------------------------------------

  /**
   * A task that its loop has left behind, or that a failed retry has, stays in the table until
   * it is aborted or the session is closed, or a loop finishes it that it had before a
   * reconnect; otherwise no Drain is told anything, whatever happens to the task.
   */
  lemma AbandonedTaskBlocksDrain(s: Sess, op: Op, itt: u32)
    requires Core(s) && Possible(s, op) && itt in s.tasks && (Stranded(s, itt) || Leaked(s, itt))
    ensures itt in After(s, op).tasks <==>
      !(op == Abort(itt) || op == AbortLun(s.tasks[itt].lun) || op == Close || op == Finish(itt) || op == Expire(itt))
    ensures op == Finish(itt) || op == Expire(itt) ==>
      exists ch | ch in s.loops && s.loops[ch] == s.tasks[itt].id :: s.t.chans[ch].closed
    ensures op != Finish(itt) && op != Expire(itt) ==> s.closes <= After(s, op).closes
  {
    assert Manned(s, itt) && Alone(s, itt);
    assert itt !in s.opening;
    if op.Finish? || op.Expire? {
      if op.itt == itt {
        OldLoopServes(s, itt);
      } else {
        OtherFinishLeaves(s, op, itt);
      }
    } else {
      OtherOpLeaves(s, op, itt);
    }
  }

  lemma OtherOpLeaves(s: Sess, op: Op, itt: u32)
    requires Wired(s.t) && Possible(s, op) && itt in s.tasks && !op.Finish? && !op.Expire?
    requires itt in s.t.pending && itt !in s.opening
    ensures itt in After(s, op).tasks <==> !(op == Abort(itt) || op == AbortLun(s.tasks[itt].lun) || op == Close)
    ensures s.closes <= After(s, op).closes
  {
  }

  lemma OldLoopServes(s: Sess, itt: u32)
    requires ChannelsKnown(s) && itt in s.tasks && Alone(s, itt) && HasServer(s, s.tasks[itt].id)
    requires itt in s.t.pending && s.t.pending[itt] !in s.loops
    ensures exists ch | ch in s.loops && s.loops[ch] == s.tasks[itt].id :: s.t.chans[ch].closed
  {
    var ch :| ch in s.loops && s.loops[ch] == s.tasks[itt].id;
    assert s.t.chans[ch].closed;
  }

  lemma OtherFinishLeaves(s: Sess, op: Op, itt: u32)
    requires Possible(s, op) && itt in s.tasks && (op.Finish? || op.Expire?) && op.itt != itt
    ensures itt in After(s, op).tasks && After(s, op).closes == s.closes
  {
    var s' := if op.Finish? then EndedOf(s, op.itt) else AbortOf(s, op.itt, Expired);
    assert itt in s'.tasks;
  }

  /** Why a task is cancelled is said by the operation that cancels it first, and stays. */
  lemma CancelledFor(s: Sess, op: Op, id: nat)
    requires Possible(s, op) && id in After(s, op).cancelled
    ensures After(s, op).cancelled[id] ==
      if id in s.cancelled then s.cancelled[id]
      else if op.Close? then SessionClosed
      else if op.Expire? then Expired
      else Aborted
    ensures id !in s.cancelled ==> op.Abort? || op.AbortLun? || op.Close? || op.Expire?
  {
  }

  /** An abort of a LUN takes exactly its tasks off both tables, and cancels exactly those. */
  lemma LunAbortIsExact(s: Sess, lun: nat)
    requires Inv(s)
    ensures var s' := After(s, AbortLun(lun));
      && Wired(s'.t)
      && (forall itt :: itt in s'.tasks <==> itt in s.tasks && s.tasks[itt].lun != lun)
      && (forall itt | itt in s'.tasks :: s'.tasks[itt] == s.tasks[itt])
      && PersistentTags(s'.t) == s'.tasks.Keys
      && s'.cancelled.Keys - s.cancelled.Keys == IdsOf(s.tasks, OfLun(s.tasks, lun))
      && (forall id | id in s.cancelled :: id in s'.cancelled && s'.cancelled[id] == s.cancelled[id])
  {
    AbortAllKeepsInv(s, OfLun(s.tasks, lun), Aborted);
    RemovalLeaves(s, OfLun(s.tasks, lun), After(s, AbortLun(lun)));
  }

  lemma StepKeepsDrains(s: Sess, op: Op)
    requires DrainsSound(s) && Possible(s, op)
    ensures DrainsSound(After(s, op))
  {
  }

  /** A Drain's channel is closed only in a step after which there is no task left. */
  lemma DrainClosesOnlyWhenEmpty(s: Sess, op: Op, d: nat)
    requires DrainsSound(s) && Possible(s, op) && d < |s.closes|
    requires d < |After(s, op).closes| && After(s, op).closes[d] != s.closes[d]
    ensures s.waiting == Some(d) && s.closes[d] == 0 && After(s, op).closes[d] == 1 && After(s, op).tasks == map[]
  {
  }

  /**
   * Which operation that empties the table wakes a waiting Drain: only those that end in
   * the cleanup of a finished or expired task. An abort, a failed submission or Close that
   * removes the last task leaves the Drain waiting.
   */
  lemma LastTaskWakesDrainIff(s: Sess, op: Op)
    requires DrainsSound(s) && Possible(s, op) && s.waiting.Some?
    requires s.tasks != map[] && After(s, op).tasks == map[]
    ensures After(s, op).closes[s.waiting.value] == 1 <==> op.Finish? || op.Expire?
  {
  }
}
