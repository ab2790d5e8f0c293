/**
 * What the session keeps over every run of its operations and reconnects, and what only over
 * those in which no retry fails after its registration.
 */
module ReconnectRuns {
  import opened Prelude
  import opened DataOut
  import opened WritePath
  import opened Router
  import RouterRuns
  import opened SessionTable
  import opened SessionRuns
  import opened Recovery
  import R = Reconnect

  // ---- A reconnect as one operation -------------------------------------------------------

  /** The tasks off the tables, and their channels closed. */
  ghost function DropAll(s: Sess): Sess {
    s.(tasks := map[],
       t := s.t.(pending := s.t.pending - s.tasks.Keys,
                 chans := seq(|s.t.chans|, c requires 0 <= c < |s.t.chans| =>
                              s.t.chans[c].(closed := s.t.chans[c].closed
                                                      || R.ListensUnder(s.t, s.tasks.Keys, c)))))
  }

  lemma DroppedIsDropAll(s: Sess, mid: Sess)
    ensures R.Dropped(s, mid, s.tasks.Keys) <==> mid == DropAll(s)
  {
    if R.Dropped(s, mid, s.tasks.Keys) {
      assert mid.t.chans == DropAll(s).t.chans;
    }
  }

  ghost predicate InFlight(s: Sess, rec: TaskRec) {
    exists itt :: itt in s.tasks && s.tasks[itt] == rec
  }

  ghost predicate IsRetried(work: seq<Retry>, rec: TaskRec) {
    exists k | 0 <= k < |work| :: work[k].rec == rec
  }

  /** The retries are those of the tasks in the table, each once. */
  ghost predicate Covers(s: Sess, work: seq<Retry>) {
    && DistinctTasks(work)
    && (forall k | 0 <= k < |work| :: InFlight(s, work[k].rec))
    && (forall itt | itt in s.tasks :: IsRetried(work, s.tasks[itt]))
  }

  /** The read pump has stopped; and again the tags that are handed out are not in use. */
  ghost predicate CanRecover(s: Sess, p: Limits, work: seq<Retry>) {
    && Wired(s.t) && s.t.flight == None && Covers(s, work)
    && |work| < RouterRuns.PERIOD && 0 < p.maxSegment <= MAX_SEGMENT
    && forall itt | itt in NewTags(s.t.nextITT, TagsUsed(p, work)) ::
         itt !in s.opening && (itt in s.t.pending ==> itt in s.tasks)
  }

  ghost function Recovered(s: Sess, outcome: R.Outcome, p: Limits, work: seq<Retry>): Sess
    requires Wired(s.t)
  {
    match outcome
    case NotStarted => s
    case CutShort => DropAll(s)
    case Exhausted =>
      DropAll(s).(cancelled := CancelAll(s.cancelled, IdsOf(s.tasks, s.tasks.Keys), ReconnectFailed))
    case Connected => RetriedAll(DropAll(s), p, work)
  }

  lemma WorkCovers(s: Sess, crew: map<u32, R.InFlight>, order: seq<u32>, env: nat -> Env)
    requires Wired(s.t) && OneTagEach(s) && R.CrewOf(s, crew) && R.Enumerates(order, crew.Keys)
    ensures Covers(s, R.WorkOf(crew, order, env))
  {
    var work := R.WorkOf(crew, order, env);
    DroppedIsDropAll(s, DropAll(s));
    R.WorkIsPending(s, DropAll(s), crew, order, env);
    forall k | 0 <= k < |work| ensures InFlight(s, work[k].rec) {
      R.WorkAt(crew, order, env, k);
      assert order[k] in crew;
    }
    forall itt | itt in s.tasks ensures IsRetried(work, s.tasks[itt]) {
      var k :| 0 <= k < |order| && order[k] == itt;
      R.WorkAt(crew, order, env, k);
    }
  }

  lemma OutcomeIsRecovered(s: Sess, mid: Sess, s': Sess, crew: map<u32, R.InFlight>, order: seq<u32>, p: Limits,
                           env: nat -> Env, outcome: R.Outcome)
    requires Wired(s.t) && Wired(mid.t) && mid == (if outcome.NotStarted? then s else DropAll(s))
    requires R.CrewIds(crew, crew.Keys) == IdsOf(s.tasks, s.tasks.Keys) && R.Enumerates(order, crew.Keys)
    requires R.Reinstated(outcome, mid, s', crew, order, p, env)
    ensures s' == Recovered(s, outcome, p, R.WorkOf(crew, order, env))
  {
  }

  /** It is what the reconnect of the session does. */
  lemma ReinstateIsRecovered(s: Sess, mid: Sess, s': Sess, crew: map<u32, R.InFlight>, order: seq<u32>, p: Limits,
                             env: nat -> Env, outcome: R.Outcome)
    requires Wired(s.t) && Wired(mid.t) && OneTagEach(s) && R.CrewOf(s, crew) && R.Enumerates(order, crew.Keys)
    requires if outcome.NotStarted? then mid == s else R.Dropped(s, mid, crew.Keys)
    requires R.Reinstated(outcome, mid, s', crew, order, p, env)
    ensures Covers(s, R.WorkOf(crew, order, env))
    ensures s' == Recovered(s, outcome, p, R.WorkOf(crew, order, env))
  {
    WorkCovers(s, crew, order, env);
    if !outcome.NotStarted? {
      DroppedIsDropAll(s, mid);
    }
    assert R.CrewIds(crew, crew.Keys) == IdsOf(s.tasks, s.tasks.Keys);
    OutcomeIsRecovered(s, mid, s', crew, order, p, env, outcome);
  }

  // ---- What every reconnect keeps -----------------------------------------------------------

  /** Nobody works for the task any more, on any open channel. */
  ghost predicate Free(s: Sess, id: nat) {
    && id < s.nextId && id !in s.ended
    && (forall itt | itt in s.tasks :: s.tasks[itt].id != id)
    && (forall ch | ch in s.loops && s.loops[ch] == id :: ch < |s.t.chans| && s.t.chans[ch].closed)
    && (forall i | i in s.opening && s.opening[i].id == id ::
          s.opening[i].ch < |s.t.chans| && s.t.chans[s.opening[i].ch].closed)
  }

  lemma DropFrees(s: Sess, itt: u32)
    requires Core(s) && itt in s.tasks
    ensures Free(DropAll(s), s.tasks[itt].id)
  {
    assert Manned(s, itt) && Alone(s, itt);
    assert R.ListensUnder(s.t, s.tasks.Keys, s.t.pending[itt]);
  }

  lemma DropKeepsCore(s: Sess)
    requires Core(s)
    ensures Core(DropAll(s))
  {
  }

  /** A new tag for a retry. */
  ghost predicate TagFree(s: Sess) {
    TagOf(s.t.nextITT) !in s.t.pending && TagOf(s.t.nextITT) !in s.opening
  }

  lemma RetryKeepsKnown(s: Sess, s': Sess, rec: TaskRec, fate: Fate)
    requires ChannelsKnown(s) && ChannelsApart(s) && Took(s, s', rec, fate) && rec.id < s.nextId
    ensures ChannelsKnown(s') && ChannelsApart(s')
  {
  }

  lemma RetrySpares(s: Sess, s': Sess, rec: TaskRec, fate: Fate, i: u32)
    requires ChannelsKnown(s) && Took(s, s', rec, fate) && (!fate.Early? ==> TagFree(s))
    requires i in s.tasks && s.tasks[i].id != rec.id && Manned(s, i) && Alone(s, i)
    ensures i in s'.tasks && s'.tasks[i] == s.tasks[i] && Manned(s', i) && Alone(s', i)
  {
    StaysManned(s, s', i);
  }

  lemma RetryMans(s: Sess, s': Sess, rec: TaskRec, fate: Fate)
    requires ChannelsKnown(s) && Took(s, s', rec, fate) && TagFree(s) && Free(s, rec.id)
    requires fate.TooLate? || fate.Resumed?
    ensures var itt := TagOf(s.t.nextITT); itt in s'.tasks && Manned(s', itt) && Alone(s', itt)
  {
  }

  lemma RetryKeepsCore(s: Sess, s': Sess, rec: TaskRec, fate: Fate)
    requires Core(s) && Wired(s'.t) && Took(s, s', rec, fate) && (!fate.Early? ==> TagFree(s)) && Free(s, rec.id)
    ensures Core(s')
  {
    RetryKeepsKnown(s, s', rec, fate);
    if fate.TooLate? || fate.Resumed? {
      RetryMans(s, s', rec, fate);
    }
    forall i | i in s.tasks ensures i in s'.tasks && s'.tasks[i] == s.tasks[i] && Manned(s', i) && Alone(s', i) {
      assert Manned(s, i) && Alone(s, i);
      RetrySpares(s, s', rec, fate, i);
    }
  }

  lemma RetryKeepsFree(s: Sess, s': Sess, rec: TaskRec, fate: Fate, id: nat)
    requires ChannelsKnown(s) && Took(s, s', rec, fate) && Free(s, id) && id != rec.id
    ensures Free(s', id)
  {
  }

  /** Some of the retries from a state in which their tasks are free. */
  ghost predicate Ready(s: Sess, p: Limits, work: seq<Retry>) {
    && Core(s) && |work| < RouterRuns.PERIOD && DistinctTasks(work)
    && (forall k | 0 <= k < |work| :: Free(s, work[k].rec.id))
    && forall itt | itt in NewTags(s.t.nextITT, TagsUsed(p, work)) :: itt !in s.opening && itt !in s.t.pending
  }

  lemma ReadyFront(s: Sess, p: Limits, work: seq<Retry>)
    requires Ready(s, p, work) && work != []
    ensures Ready(s, p, work[..|work| - 1])
  {
    NewTagsGrow(s.t.nextITT, TagsUsed(p, work[..|work| - 1]));
  }

  /** The tag of the next retry is free. */
  lemma NextTagIsFree(s: Sess, p: Limits, work: seq<Retry>, mid: Sess)
    requires Ready(s, p, work) && work != [] && !Out(p, work[|work| - 1]).Early?
    requires TablesAfter(s, mid, p, work[..|work| - 1]) && mid.opening == s.opening
    ensures TagFree(mid)
  {
    var n := TagsUsed(p, work[..|work| - 1]);
    NewTagsGrow(s.t.nextITT, n);
    var tag := RouterRuns.TagAt(s.t.nextITT, n);
    assert tag in NewTags(s.t.nextITT, n + 1);
    forall k | 0 <= k < n ensures RouterRuns.TagAt(s.t.nextITT, k) != tag {
      TagsDiffer(s.t.nextITT, k, n);
    }
  }

  lemma {:induction false} RetriesKeepCore(s: Sess, p: Limits, work: seq<Retry>)
    requires Ready(s, p, work) && Wired(s.t)
    ensures Core(RetriedAll(s, p, work)) && RetriedAll(s, p, work).opening == s.opening
    ensures RetriedAll(s, p, work).nextId == s.nextId && RetriedAll(s, p, work).ended == s.ended
    ensures RetriedAll(s, p, work).snackFailed == s.snackFailed
    decreases |work|
  {
    if work != [] {
      var init, last := work[..|work| - 1], work[|work| - 1];
      var mid := RetriedAll(s, p, init);
      ReadyFront(s, p, work);
      RetriesKeepCore(s, p, init);
      RetriesKeepFree(s, p, init, last.rec.id);
      RetriesFillTables(s, p, init);
      RetryTook(mid, last.rec, Out(p, last));
      if !Out(p, last).Early? {
        NextTagIsFree(s, p, work, mid);
      }
      RetryKeepsCore(mid, RetriedAll(s, p, work), last.rec, Out(p, last));
    }
  }

  lemma {:induction false} RetriesKeepFree(s: Sess, p: Limits, work: seq<Retry>, id: nat)
    requires Ready(s, p, work) && Wired(s.t) && Free(s, id)
    requires forall k | 0 <= k < |work| :: work[k].rec.id != id
    ensures Free(RetriedAll(s, p, work), id)
    decreases |work|
  {
    if work != [] {
      var init, last := work[..|work| - 1], work[|work| - 1];
      var mid := RetriedAll(s, p, init);
      ReadyFront(s, p, work);
      RetriesKeepFree(s, p, init, id);
      RetriesKeepCore(s, p, init);
      RetryTook(mid, last.rec, Out(p, last));
      RetryKeepsFree(mid, RetriedAll(s, p, work), last.rec, Out(p, last), id);
    }
  }

  lemma DropIsReady(s: Sess, p: Limits, work: seq<Retry>)
    requires Core(s) && CanRecover(s, p, work)
    ensures Ready(DropAll(s), p, work) && Pending(DropAll(s), work)
  {
    DropKeepsCore(s);
    forall k | 0 <= k < |work| ensures Free(DropAll(s), work[k].rec.id) {
      assert InFlight(s, work[k].rec);
      var itt :| itt in s.tasks && s.tasks[itt] == work[k].rec;
      DropFrees(s, itt);
    }
  }

  lemma RecoverKeepsCore(s: Sess, outcome: R.Outcome, p: Limits, work: seq<Retry>)
    requires Core(s) && CanRecover(s, p, work)
    ensures Core(Recovered(s, outcome, p, work))
  {
    DropIsReady(s, p, work);
    match outcome
    case NotStarted =>
    case CutShort =>
    case Exhausted => OthersKeepCore(DropAll(s), Recovered(s, outcome, p, work));
    case Connected => RetriesKeepCore(DropAll(s), p, work);
  }

  lemma RecoverKeepsIdsFresh(s: Sess, outcome: R.Outcome, p: Limits, work: seq<Retry>)
    requires Core(s) && IdsFresh(s) && CanRecover(s, p, work)
    ensures IdsFresh(Recovered(s, outcome, p, work))
  {
    assert forall itt | itt in s.tasks :: Manned(s, itt);
    if outcome.Connected? {
      var mid := DropAll(s);
      DropIsReady(s, p, work);
      RetriesKeepCore(mid, p, work);
      forall id | id in RetriedAll(mid, p, work).cancelled
        ensures id < s.nextId
      {
        RetriesCancel(mid, p, work, id);
      }
    }
  }

  // ---- Which reconnects keep the tables in agreement ------------------------------------------

  /** Every new tag is that of a retry that has got a command number. */
  lemma {:induction false} NewTagHasRetry(s: Sess, p: Limits, work: seq<Retry>, itt: u32) returns (k: nat)
    requires itt in NewTags(s.t.nextITT, TagsUsed(p, work))
    ensures k < |work| && !Out(p, work[k]).Early? && itt == TagFor(s, p, work, k)
    decreases |work|
  {
    var n := |work| - 1;
    if itt in NewTags(s.t.nextITT, TagsUsed(p, work[..n])) {
      k := NewTagHasRetry(s, p, work[..n], itt);
      SameFor(s, p, work, k);
    } else {
      k := n;
      NewTagsGrow(s.t.nextITT, TagsUsed(p, work[..n]));
    }
  }

  /** No retry fails once it has got a command number. */
  predicate NoLateFailure(p: Limits, work: seq<Retry>)
    requires p.maxSegment > 0
  {
    forall k | 0 <= k < |work| ::
      Registers(work[k].view, work[k].env) ==> Resumes(p, work[k].view, work[k].env)
  }

  lemma NoLateFailureIff(p: Limits, work: seq<Retry>)
    requires 0 < p.maxSegment <= MAX_SEGMENT
    ensures NoLateFailure(p, work)
      <==> forall k | 0 <= k < |work| :: Out(p, work[k]).Early? || Out(p, work[k]).Resumed?
  {
    forall k | 0 <= k < |work|
      ensures Out(p, work[k]).Early? || Out(p, work[k]).Resumed?
        <==> (Registers(work[k].view, work[k].env) ==> Resumes(p, work[k].view, work[k].env))
    {
      FateIff(p, work[k].view, work[k].env);
    }
  }

  lemma OldTagStays(s: Sess, s': Sess, n: nat, itt: u32)
    requires Wired(s.t) && Wired(s'.t) && OthersStay(s, s', n) && itt in s.t.pending && itt !in NewTags(s.t.nextITT, n)
    ensures itt in PersistentTags(s'.t) <==> itt in PersistentTags(s.t)
  {
  }

  /** The keys of the two tables after retries none of which failed late. */
  lemma TagsAgreeAfter(s: Sess, s': Sess, p: Limits, work: seq<Retry>)
    requires Wired(s.t) && Wired(s'.t) && s.tasks == map[] && PersistentTags(s.t) == {}
    requires TablesAfter(s, s', p, work)
    requires forall k | 0 <= k < |work| :: Out(p, work[k]).Early? || Out(p, work[k]).Resumed?
    ensures s'.tasks.Keys == PersistentTags(s'.t)
  {
    forall itt | itt in s'.tasks ensures itt in PersistentTags(s'.t) {
      var k :| 0 <= k < |work| && EnteredIn(p, work[k]) && itt == TagFor(s, p, work, k);
      assert Back(s, s', p, work, k);
    }
    forall itt | itt in PersistentTags(s'.t) ensures itt in s'.tasks {
      if itt in NewTags(s.t.nextITT, TagsUsed(p, work)) {
        var k := NewTagHasRetry(s, p, work, itt);
        assert Back(s, s', p, work, k);
      } else {
        OldTagStays(s, s', TagsUsed(p, work), itt);
      }
    }
  }

  /** A task is live after its retry exactly if that went through, and it is then not one that failed. */
  lemma RetriedIsLiveIff(s: Sess, s': Sess, p: Limits, work: seq<Retry>, k: nat)
    requires s.tasks == map[] && DistinctTasks(work) && k < |work| && TablesAfter(s, s', p, work)
    requires forall j | 0 <= j < |work| :: Out(p, work[j]).Early? || Out(p, work[j]).Resumed?
    ensures work[k].rec.id in LiveIds(s') <==> Out(p, work[k]).Resumed?
  {
    var id := work[k].rec.id;
    assert Back(s, s', p, work, k);
    if id in LiveIds(s') {
      var itt :| itt in s'.tasks && s'.tasks[itt].id == id;
      var j := EnteredUnder(s, s', p, work, itt);
      assert j == k;
    }
  }

  /** Who is in the table afterwards, under which tag. */
  lemma EnteredUnder(s: Sess, s': Sess, p: Limits, work: seq<Retry>, itt: u32) returns (j: nat)
    requires s.tasks == map[] && TablesAfter(s, s', p, work) && itt in s'.tasks
    ensures j < |work| && EnteredIn(p, work[j]) && itt == TagFor(s, p, work, j) && s'.tasks[itt] == work[j].rec
  {
    j :| 0 <= j < |work| && EnteredIn(p, work[j]) && itt == TagFor(s, p, work, j);
    assert Back(s, s', p, work, j);
  }

  lemma FailsIffNotResumed(p: Limits, work: seq<Retry>, k: nat)
    requires DistinctTasks(work) && k < |work| && 0 < p.maxSegment <= MAX_SEGMENT
    ensures FailsIn(p, work, work[k].rec.id) <==> !Out(p, work[k]).Resumed?
  {
    FateIff(p, work[k].view, work[k].env);
    if FailsIn(p, work, work[k].rec.id) {
      var j :| 0 <= j < |work| && work[j].rec.id == work[k].rec.id && !Resumes(p, work[j].view, work[j].env);
      assert j == k;
    }
  }

  /** The tasks that are retried. */
  function WorkIds(work: seq<Retry>): set<nat> {
    set k | 0 <= k < |work| :: work[k].rec.id
  }

  lemma RetryOf(s: Sess, work: seq<Retry>, itt: u32)
    requires Covers(s, work) && itt in s.tasks
    ensures s.tasks[itt].id in WorkIds(work)
  {
    var k :| 0 <= k < |work| && work[k].rec == s.tasks[itt];
  }

  lemma TaskOf(s: Sess, work: seq<Retry>, k: nat)
    requires Covers(s, work) && k < |work|
    ensures work[k].rec.id in LiveIds(s)
  {
    assert InFlight(s, work[k].rec);
  }

  lemma WorkIsLive(s: Sess, work: seq<Retry>)
    requires Covers(s, work)
    ensures WorkIds(work) == LiveIds(s)
  {
    forall itt | itt in s.tasks ensures s.tasks[itt].id in WorkIds(work) {
      RetryOf(s, work, itt);
    }
    forall k | 0 <= k < |work| ensures work[k].rec.id in LiveIds(s) {
      TaskOf(s, work, k);
    }
  }

  /** Those that were live are live again, or have failed. */
  lemma LiveOrFailed(s: Sess, s': Sess, p: Limits, work: seq<Retry>)
    requires s.tasks == map[] && DistinctTasks(work) && TablesAfter(s, s', p, work) && 0 < p.maxSegment <= MAX_SEGMENT
    requires forall j | 0 <= j < |work| :: Out(p, work[j]).Early? || Out(p, work[j]).Resumed?
    ensures LiveIds(s') <= WorkIds(work) && (forall id | FailsIn(p, work, id) :: id in WorkIds(work))
    ensures forall id | id in WorkIds(work) :: id in LiveIds(s') <==> !FailsIn(p, work, id)
  {
    forall id | id in LiveIds(s') ensures id in WorkIds(work) {
      var itt :| itt in s'.tasks && s'.tasks[itt].id == id;
      var j := EnteredUnder(s, s', p, work, itt);
    }
    forall id | id in WorkIds(work) ensures id in LiveIds(s') <==> !FailsIn(p, work, id) {
      var k :| 0 <= k < |work| && work[k].rec.id == id;
      RetriedIsLiveIff(s, s', p, work, k);
      FailsIffNotResumed(p, work, k);
    }
  }

  lemma IdsAgreeAfter(s: Sess, s': Sess, p: Limits, work: seq<Retry>)
    requires Accounted(s) && WorkIds(work) == LiveIds(s) && p.maxSegment > 0
    requires LiveIds(s') <= WorkIds(work) && (forall id | FailsIn(p, work, id) :: id in WorkIds(work))
    requires forall id | id in WorkIds(work) :: id in LiveIds(s') <==> !FailsIn(p, work, id)
    requires s'.nextId == s.nextId && s'.ended == s.ended
    requires forall id :: id in s'.cancelled <==> id in s.cancelled || FailsIn(p, work, id)
    ensures Accounted(s')
  {
  }

  /** A retry that fails late leaves a registration without a task, or a task that is live and cancelled. */
  lemma LateFailureShows(s: Sess, s': Sess, p: Limits, work: seq<Retry>, k: nat)
    requires Wired(s'.t) && s.tasks == map[] && |work| < RouterRuns.PERIOD && 0 < p.maxSegment <= MAX_SEGMENT
    requires TablesAfter(s, s', p, work)
    requires k < |work| && (Out(p, work[k]).Late? || Out(p, work[k]).TooLate?) && work[k].rec.id in s'.cancelled
    ensures s'.tasks.Keys != PersistentTags(s'.t) || !Accounted(s')
  {
    var itt := TagFor(s, p, work, k);
    assert Back(s, s', p, work, k);
    if Out(p, work[k]).TooLate? {
      assert work[k].rec.id in LiveIds(s');
    } else {
      assert itt in PersistentTags(s'.t);
      if itt in s'.tasks {
        var j :| 0 <= j < |work| && EnteredIn(p, work[j]) && itt == TagFor(s, p, work, j);
        OwnTags(s, p, work, if j < k then j else k, if j < k then k else j);
      }
    }
  }

  lemma DropClearsTags(s: Sess)
    requires Wired(s.t) && s.tasks.Keys == PersistentTags(s.t)
    ensures PersistentTags(DropAll(s).t) == {} && Wired(DropAll(s).t)
  {
  }

  lemma {:induction false} RetriesKeepDrains(s: Sess, p: Limits, work: seq<Retry>)
    requires Wired(s.t)
    ensures var s' := RetriedAll(s, p, work);
      s'.closes == s.closes && s'.waiting == s.waiting && s'.draining == s.draining
    decreases |work|
  {
    if work != [] {
      var mid, last := RetriedAll(s, p, work[..|work| - 1]), work[|work| - 1];
      RetriesKeepDrains(s, p, work[..|work| - 1]);
      RetryTook(mid, last.rec, Out(p, last));
    }
  }

  /** What is known of the state after the retries, from the one before the reconnect. */
  ghost predicate AfterRetries(s: Sess, mid: Sess, s': Sess, p: Limits, work: seq<Retry>)
    requires p.maxSegment > 0
  {
    && Wired(mid.t) && mid.tasks == map[] && PersistentTags(mid.t) == {}
    && Wired(s'.t) && OneTagEach(s') && TablesAfter(mid, s', p, work)
    && s'.nextId == s.nextId && s'.ended == s.ended
    && (forall id :: id in s'.cancelled <==> id in s.cancelled || FailsIn(p, work, id))
    && s'.closes == s.closes && s'.waiting == s.waiting && s'.draining == s.draining
  }

  lemma RetriesEnd(s: Sess, p: Limits, work: seq<Retry>)
    requires Core(s) && CanRecover(s, p, work) && s.tasks.Keys == PersistentTags(s.t)
    ensures AfterRetries(s, DropAll(s), RetriedAll(DropAll(s), p, work), p, work)
  {
    var mid := DropAll(s);
    var s' := RetriedAll(mid, p, work);
    DropIsReady(s, p, work);
    DropClearsTags(s);
    RetriesFillTables(mid, p, work);
    RetriesKeepCore(mid, p, work);
    RetriesKeepDrains(mid, p, work);
    forall id ensures id in s'.cancelled <==> id in s.cancelled || FailsIn(p, work, id) {
      RetriesCancel(mid, p, work, id);
    }
  }

  lemma CleanRetriesKeepInv(s: Sess, mid: Sess, s': Sess, p: Limits, work: seq<Retry>)
    requires p.maxSegment > 0 && AfterRetries(s, mid, s', p, work) && Inv(s) && Covers(s, work)
    requires p.maxSegment <= MAX_SEGMENT && NoLateFailure(p, work)
    ensures Inv(s')
  {
    NoLateFailureIff(p, work);
    TagsAgreeAfter(mid, s', p, work);
    WorkIsLive(s, work);
    LiveOrFailed(mid, s', p, work);
    IdsAgreeAfter(s, s', p, work);
  }

  lemma LateFailureBreaksInv(s: Sess, mid: Sess, s': Sess, p: Limits, work: seq<Retry>)
    requires p.maxSegment > 0 && AfterRetries(s, mid, s', p, work) && |work| < RouterRuns.PERIOD
    requires p.maxSegment <= MAX_SEGMENT && !NoLateFailure(p, work)
    ensures !Inv(s')
  {
    NoLateFailureIff(p, work);
    var k :| 0 <= k < |work| && !(Out(p, work[k]).Early? || Out(p, work[k]).Resumed?);
    FateIff(p, work[k].view, work[k].env);
    assert FailsIn(p, work, work[k].rec.id);
    LateFailureShows(mid, s', p, work, k);
  }

  lemma ConnectedKeepsInvIff(s: Sess, p: Limits, work: seq<Retry>)
    requires Core(s) && Inv(s) && CanRecover(s, p, work)
    ensures Inv(Recovered(s, R.Connected, p, work)) <==> NoLateFailure(p, work)
  {
    RetriesEnd(s, p, work);
    if NoLateFailure(p, work) {
      CleanRetriesKeepInv(s, DropAll(s), RetriedAll(DropAll(s), p, work), p, work);
    } else {
      LateFailureBreaksInv(s, DropAll(s), RetriedAll(DropAll(s), p, work), p, work);
    }
  }

  lemma CutShortKeepsInvIff(s: Sess)
    requires Core(s) && Inv(s)
    ensures Inv(DropAll(s)) <==> s.tasks == map[]
  {
    if s.tasks == map[] {
      assert s.t.pending - {} == s.t.pending;
      assert DropAll(s).t.chans == s.t.chans;
      assert DropAll(s) == s;
    } else {
      var itt :| itt in s.tasks;
      assert s.tasks[itt].id in LiveIds(s);
      assert LiveIds(DropAll(s)) == {};
    }
  }

  lemma AllCancelledIsAccounted(s: Sess, s': Sess)
    requires Accounted(s) && s'.tasks == map[] && s'.nextId == s.nextId && s'.ended == s.ended
    requires s'.cancelled.Keys == s.cancelled.Keys + LiveIds(s)
    ensures Accounted(s')
  {
    assert LiveIds(s') == {};
    assert forall id :: id in s'.cancelled <==> id in s'.cancelled.Keys;
  }

  lemma ExhaustedKeepsInv(s: Sess, p: Limits, work: seq<Retry>)
    requires Core(s) && Inv(s)
    ensures Inv(Recovered(s, R.Exhausted, p, work))
  {
    DropClearsTags(s);
    assert LiveIds(s) == IdsOf(s.tasks, s.tasks.Keys);
    AllCancelledIsAccounted(s, Recovered(s, R.Exhausted, p, work));
  }

  /** What a caller of a reconnect can tell beforehand. */
  predicate KeepsTables(s: Sess, outcome: R.Outcome, p: Limits, work: seq<Retry>)
    requires p.maxSegment > 0
  {
    match outcome
    case NotStarted => true
    case CutShort => s.tasks == map[]
    case Exhausted => true
    case Connected => NoLateFailure(p, work)
  }

  /**
   * Whether the tables still agree, and every task is live, cancelled or ended and only one of
   * these, after a reconnect: exactly if it is not cut short with tasks in flight, and no retry
   * fails once it has got a command number.
   */
  lemma RecoverKeepsInvIff(s: Sess, outcome: R.Outcome, p: Limits, work: seq<Retry>)
    requires Core(s) && Inv(s) && CanRecover(s, p, work)
    ensures Inv(Recovered(s, outcome, p, work)) <==> KeepsTables(s, outcome, p, work)
  {
    match outcome
    case NotStarted =>
    case CutShort => CutShortKeepsInvIff(s);
    case Exhausted => ExhaustedKeepsInv(s, p, work);
    case Connected => ConnectedKeepsInvIff(s, p, work);
  }

  // ---- Runs -------------------------------------------------------------------------------

  datatype Act = Do(op: Op) | Recover(outcome: R.Outcome, p: Limits, work: seq<Retry>)

  ghost predicate CanAct(s: Sess, act: Act) {
    match act
    case Do(op) => Possible(s, op)
    case Recover(_, p, work) => CanRecover(s, p, work)
  }

  ghost function ActOn(s: Sess, act: Act): Sess
    requires CanAct(s, act)
  {
    match act
    case Do(op) => After(s, op)
    case Recover(outcome, p, work) => Recovered(s, outcome, p, work)
  }

  ghost predicate PossibleRun(s: Sess, acts: seq<Act>)
    decreases |acts|, 0
  {
    acts == [] || (PossibleRun(s, acts[..|acts| - 1]) && CanAct(Run(s, acts[..|acts| - 1]), acts[|acts| - 1]))
  }

  ghost function Run(s: Sess, acts: seq<Act>): Sess
    requires PossibleRun(s, acts)
    decreases |acts|, 1
  {
    if acts == [] then s else ActOn(Run(s, acts[..|acts| - 1]), acts[|acts| - 1])
  }

  lemma ActKeepsCore(s: Sess, act: Act)
    requires Core(s) && IdsFresh(s) && CanAct(s, act)
    ensures Core(ActOn(s, act)) && IdsFresh(ActOn(s, act))
  {
    match act
    case Do(op) =>
      StepKeepsCore(s, op);
      StepKeepsIdsFresh(s, op);
    case Recover(outcome, p, work) =>
      RecoverKeepsCore(s, outcome, p, work);
      RecoverKeepsIdsFresh(s, outcome, p, work);
  }

  lemma {:induction false} RunKeepsCore(depth: int, acts: seq<Act>)
    requires PossibleRun(Start(depth), acts)
    ensures Core(Run(Start(depth), acts)) && IdsFresh(Run(Start(depth), acts))
    decreases |acts|
  {
    if acts != [] {
      RunKeepsCore(depth, acts[..|acts| - 1]);
      ActKeepsCore(Run(Start(depth), acts[..|acts| - 1]), acts[|acts| - 1]);
    }
  }

  lemma RecoverKeepsDrains(s: Sess, outcome: R.Outcome, p: Limits, work: seq<Retry>)
    requires DrainsSound(s) && Wired(s.t) && Wired(DropAll(s).t)
    ensures DrainsSound(Recovered(s, outcome, p, work))
  {
    if outcome.Connected? {
      RetriesKeepDrains(DropAll(s), p, work);
    }
  }

  lemma {:induction false} RunKeepsDrains(depth: int, acts: seq<Act>)
    requires PossibleRun(Start(depth), acts)
    ensures DrainsSound(Run(Start(depth), acts))
    decreases |acts|
  {
    if acts != [] {
      var s := Run(Start(depth), acts[..|acts| - 1]);
      RunKeepsDrains(depth, acts[..|acts| - 1]);
      match acts[|acts| - 1]
      case Do(op) => StepKeepsDrains(s, op);
      case Recover(outcome, p, work) => RecoverKeepsDrains(s, outcome, p, work);
    }
  }

  /**
   * A Drain in any run: its channel is closed once at most, by a step after which there is no
   * task left; and when a step takes the last task away while it waits, that wakes it exactly
   * if it is the cleanup of a finished or expired task.
   */
  lemma DrainIsWokenIff(depth: int, acts: seq<Act>, op: Op, d: nat)
    requires PossibleRun(Start(depth), acts) && Possible(Run(Start(depth), acts), op)
    requires d < |Run(Start(depth), acts).closes|
    ensures var s := Run(Start(depth), acts); var s' := After(s, op);
      && s.closes[d] <= 1 && d < |s'.closes|
      && (s'.closes[d] != s.closes[d] ==>
            s.waiting == Some(d) && s.closes[d] == 0 && s'.closes[d] == 1 && s'.tasks == map[])
      && (s.waiting == Some(d) && s.tasks != map[] && s'.tasks == map[] ==>
            (s'.closes[d] == 1 <==> op.Finish? || op.Expire?))
  {
    RunKeepsDrains(depth, acts);
    var s := Run(Start(depth), acts);
    if After(s, op).closes[d] != s.closes[d] {
      DrainClosesOnlyWhenEmpty(s, op, d);
    }
    if s.waiting == Some(d) && s.tasks != map[] && After(s, op).tasks == map[] {
      LastTaskWakesDrainIff(s, op);
    }
  }

  /** No reconnect of the run is cut short with tasks in flight, or has a retry that fails late. */
  ghost predicate TablesKept(s: Sess, acts: seq<Act>)
    requires PossibleRun(s, acts)
    decreases |acts|
  {
    acts == []
    || (&& TablesKept(s, acts[..|acts| - 1])
        && match acts[|acts| - 1]
           case Do(_) => true
           case Recover(outcome, p, work) => KeepsTables(Run(s, acts[..|acts| - 1]), outcome, p, work))
  }

  lemma {:induction false} RunKeepsInv(depth: int, acts: seq<Act>)
    requires PossibleRun(Start(depth), acts) && TablesKept(Start(depth), acts)
    ensures Inv(Run(Start(depth), acts))
    decreases |acts|
  {
    if acts == [] {
      assert LiveIds(Start(depth)) == {} && PersistentTags(Start(depth).t) == {};
    } else {
      var s, act := Run(Start(depth), acts[..|acts| - 1]), acts[|acts| - 1];
      RunKeepsInv(depth, acts[..|acts| - 1]);
      RunKeepsCore(depth, acts[..|acts| - 1]);
      match act
      case Do(op) => StepKeepsInv(s, op);
      case Recover(outcome, p, work) => RecoverKeepsInvIff(s, outcome, p, work);
    }
  }

  /**
   * After any run in which all reconnects keep the tables: the tasks are exactly those that
   * the router has a persistent channel for, and every task ever begun is live, cancelled, or
   * ended, and only one of these.
   */
  lemma TablesAgree(depth: int, acts: seq<Act>, id: nat)
    requires PossibleRun(Start(depth), acts) && TablesKept(Start(depth), acts)
    ensures var s := Run(Start(depth), acts);
      && Wired(s.t) && s.tasks.Keys == PersistentTags(s.t)
      && (id < s.nextId <==> id in LiveIds(s) || id in s.cancelled || id in s.ended)
      && !(id in LiveIds(s) && id in s.cancelled) && !(id in LiveIds(s) && id in s.ended)
      && !(id in s.cancelled && id in s.ended)
  {
    RunKeepsInv(depth, acts);
  }

  /**
   * After any run, with whatever reconnects: each task in the table has an open channel of its
   * own, and exactly one of four holds of it. A submission on its way will start its loop; or a
   * loop serves it; or its loop has returned from there, and then the task was cancelled or
   * could not send a SNACK; or a retry of it has failed there, and then it is cancelled. No
   * other open channel has anybody who works for the task.
   */
  lemma OneLoopForEachTask(depth: int, acts: seq<Act>, itt: u32)
    requires PossibleRun(Start(depth), acts) && itt in Run(Start(depth), acts).tasks
    ensures var s := Run(Start(depth), acts); var id := s.tasks[itt].id;
      && OwnChannel(s, itt)
      && (BeingOpened(s, itt) ==> s.t.pending[itt] !in s.loops)
      && (!BeingOpened(s, itt) && !HasLoop(s, itt, id) <==> s.t.pending[itt] in s.left || s.t.pending[itt] in s.leaked)
      && (s.t.pending[itt] in s.left ==> s.t.pending[itt] !in s.leaked && (id in s.cancelled || id in s.snackFailed))
      && (s.t.pending[itt] in s.leaked ==> id in s.cancelled)
      && (forall ch | ch in s.loops && s.loops[ch] == id && ch != s.t.pending[itt] ::
            ch < |s.t.chans| && s.t.chans[ch].closed)
  {
    RunKeepsCore(depth, acts);
    var s := Run(Start(depth), acts);
    assert Manned(s, itt) && Alone(s, itt);
  }

  lemma OneMoreAct(s: Sess, acts: seq<Act>, act: Act)
    requires PossibleRun(s, acts) && CanAct(Run(s, acts), act)
    ensures PossibleRun(s, acts + [act]) && Run(s, acts + [act]) == ActOn(Run(s, acts), act)
  {
    assert (acts + [act])[..|acts|] == acts;
  }

  /** One task, its loop, and a Drain that waits for it. */
  ghost predicate DrainWaits(s: Sess) {
    && Wired(s.t) && s.tasks == map[0 := TaskRec(0, 0)] && s.t.pending == map[0 := 0] && |s.t.chans| == 1
    && s.loops == map[0 := 0] && s.opening == map[] && s.cancelled == map[]
    && s.draining && s.waiting == Some(0) && s.closes == [0]
  }

  lemma DrainComesToWait(depth: int)
    ensures var acts := [Do(Begin(0)), Do(Serve(0)), Do(StartDrain)];
      PossibleRun(Start(depth), acts) && DrainWaits(Run(Start(depth), acts))
  {
    var s0 := Start(depth);
    var s1 := BeginOf(s0, 0);
    assert s1.opening == map[0 := Launch(0, 0)];
    OneMoreAct(s0, [], Do(Begin(0)));
    OneMoreAct(s0, [] + [Do(Begin(0))], Do(Serve(0)));
    OneMoreAct(s0, [] + [Do(Begin(0))] + [Do(Serve(0))], Do(StartDrain));
    assert [] + [Do(Begin(0))] + [Do(Serve(0))] + [Do(StartDrain)] == [Do(Begin(0)), Do(Serve(0)), Do(StartDrain)];
  }

  lemma SnackMayFail(s: Sess)
    requires DrainWaits(s)
    ensures Possible(s, SnackFails(0)) && Possible(SnackFailsOf(s, 0), Leave(0))
  {
    assert 0 in s.loops && s.loops[0] == s.tasks[0].id;
  }

  lemma TaskIsStranded(s: Sess, acts: seq<Act>)
    requires PossibleRun(s, acts) && DrainWaits(Run(s, acts))
    ensures PossibleRun(s, acts + [Do(SnackFails(0))] + [Do(Leave(0))])
    ensures Run(s, acts + [Do(SnackFails(0))] + [Do(Leave(0))])
            == LeaveOf(SnackFailsOf(Run(s, acts), 0), 0)
  {
    SnackMayFail(Run(s, acts));
    OneMoreAct(s, acts, Do(SnackFails(0)));
    OneMoreAct(s, acts + [Do(SnackFails(0))], Do(Leave(0)));
  }

  /**
   * A run that ends with a task in both tables that nobody works for, and a Drain that waits
   * for it.
   */
  lemma FailedSnackStrandsTask(depth: int)
    ensures var acts := [Do(Begin(0)), Do(Serve(0)), Do(StartDrain), Do(SnackFails(0)), Do(Leave(0))];
      && PossibleRun(Start(depth), acts)
      && var s := Run(Start(depth), acts);
      && 0 in s.tasks && 0 in s.t.pending && s.loops == map[] && s.opening == map[] && Stranded(s, 0)
      && s.draining && s.waiting == Some(0) && s.closes == [0] && s.cancelled == map[]
  {
    var acts := [Do(Begin(0)), Do(Serve(0)), Do(StartDrain)];
    DrainComesToWait(depth);
    TaskIsStranded(Start(depth), acts);
    assert acts + [Do(SnackFails(0))] + [Do(Leave(0))]
        == [Do(Begin(0)), Do(Serve(0)), Do(StartDrain), Do(SnackFails(0)), Do(Leave(0))];
  }
}
