/**
 * Session reinstatement at ErrorRecoveryLevel 0: the tasks in flight when the connection is
 * lost are submitted again over a new one, or cancelled.
 */
module Recovery {
  import opened Prelude
  import opened DataOut
  import opened WritePath
  import opened Router
  import opened RouterRuns
  import opened SessionTable
  import opened SessionRuns

  /** What decides on a retry: properties of the task, and what happens around it. */
  datatype View = View(streaming: bool, isWrite: bool, seekable: bool, data: bytes, broken: bool)

  datatype Env = Env(seekSucceeds: bool, acquired: bool, sent: bool, resultTaken: bool)

  /**
   * How a retry comes out. It may fail before a new tag is registered, after that, or even
   * after the task is back in the table.
   */
  datatype Fate = Early | Late | TooLate | Resumed

  function FateOf(p: Limits, v: View, env: Env): Fate {
    if v.streaming then Early
    else if v.isWrite && !(v.seekable && env.seekSucceeds) then Early
    else if !env.acquired then Early
    else if v.isWrite && OpeningOf(p, v.data, v.broken, 0, 0).command == None then Late
    else if !env.sent then TooLate
    else if v.isWrite && OpeningOf(p, v.data, v.broken, 0, 0).error != None then TooLate
    else Resumed
  }

  // ---- How a retry comes out ------------------------------------------------------------

  /** The task can be repeated, its source is rewound, and it gets a command number. */
  predicate Registers(v: View, env: Env) {
    !v.streaming && (v.isWrite ==> v.seekable && env.seekSucceeds) && env.acquired
  }

  /** Its immediate data can be read as well. */
  predicate Enters(p: Limits, v: View, env: Env) {
    Registers(v, env) && (v.isWrite ==> ImmediateCanBeRead(p, v.broken, |v.data|))
  }

  /** The command goes out, and the source has enough for the first burst. */
  predicate Resumes(p: Limits, v: View, env: Env)
    requires p.maxSegment > 0
  {
    Enters(p, v, env) && env.sent && (v.isWrite ==> BurstCanBeFilled(p, v.broken, |v.data|))
  }

  /** How a retry comes out, told from the task, the limits, and what its source has. */
  lemma FateIff(p: Limits, v: View, env: Env)
    requires 0 < p.maxSegment <= MAX_SEGMENT
    ensures FateOf(p, v, env) ==
            if !Registers(v, env) then Early
            else if !Enters(p, v, env) then Late
            else if !Resumes(p, v, env) then TooLate
            else Resumed
  {
    OpeningSucceedsIff(p, v.data, v.broken, 0, 0);
    ImmediateReadIff(p, v.broken, |v.data|);
  }

  // ---- What retrying does to the session --------------------------------------------------

  function Registered(s: Sess): Sess
    requires Wired(s.t)
  {
    s.(t := Next(Next(s.t, Step.AllocateITT), Step.RegisterPersistent(TagOf(s.t.nextITT))))
  }

  function Entered(s: Sess, rec: TaskRec): Sess
    requires Wired(s.t)
  {
    Registered(s).(tasks := s.tasks[TagOf(s.t.nextITT) := rec])
  }

  /**
   * A retry that fails cancels its task, and leaves a channel behind if it has registered one;
   * a retry that does not fail ends with a new loop on the new channel.
   */
  function Retried(s: Sess, rec: TaskRec, fate: Fate): (s': Sess)
    requires Wired(s.t)
    ensures Wired(s'.t)
  {
    var cancelled := Cancel(s.cancelled, rec.id, RetryFailed);
    match fate
    case Early => s.(cancelled := cancelled)
    case Late => Registered(s).(cancelled := cancelled, leaked := s.leaked + {|s.t.chans|})
    case TooLate => Entered(s, rec).(cancelled := cancelled, leaked := s.leaked + {|s.t.chans|})
    case Resumed => Entered(s, rec).(loops := s.loops[|s.t.chans| := rec.id])
  }

  /** One task of the snapshot with all that decides on its retry. */
  datatype Retry = Retry(rec: TaskRec, view: View, env: Env)

  function Out(p: Limits, w: Retry): Fate {
    FateOf(p, w.view, w.env)
  }

  function RetriedAll(s: Sess, p: Limits, work: seq<Retry>): (s': Sess)
    requires Wired(s.t)
    ensures Wired(s'.t)
  {
    if work == [] then s
    else
      var last := work[|work| - 1];
      Retried(RetriedAll(s, p, work[..|work| - 1]), last.rec, Out(p, last))
  }

  // ---- Tags ------------------------------------------------------------------------------

  /** How many new tags the retries use. */
  function TagsUsed(p: Limits, work: seq<Retry>): (n: nat)
    ensures n <= |work|
  {
    if work == [] then 0
    else TagsUsed(p, work[..|work| - 1]) + if Out(p, work[|work| - 1]).Early? then 0 else 1
  }

  function NewTags(nextITT: u32, n: nat): set<u32> {
    set k | 0 <= k < n :: TagAt(nextITT, k)
  }

  /** The tag that the k-th task is retried under, if it gets one. */
  function TagFor(s: Sess, p: Limits, work: seq<Retry>, k: nat): u32
    requires k < |work|
  {
    TagAt(s.t.nextITT, TagsUsed(p, work[..k]))
  }

  lemma {:induction false} TagAtNext(nextITT: u32, k: nat)
    ensures TagAt(nextITT, k + 1) == TagOf(AfterTag(TagAt(nextITT, k)))
    decreases k
  {
    if k > 0 {
      TagAtNext(AfterTag(nextITT), k - 1);
    }
  }

  lemma TagsDiffer(nextITT: u32, i: nat, j: nat)
    requires i < j < PERIOD
    ensures TagAt(nextITT, i) != TagAt(nextITT, j)
  {
    AllocationIsCyclic(nextITT, i);
    AllocationIsCyclic(nextITT, j);
  }

  lemma NewTagsGrow(nextITT: u32, n: nat)
    ensures NewTags(nextITT, n + 1) == NewTags(nextITT, n) + {TagAt(nextITT, n)}
  {
  }

  /** A retry that uses a tag leaves a higher count behind it. */
  lemma {:induction false} UsedBefore(p: Limits, work: seq<Retry>, k: nat, n: nat)
    requires k < n <= |work| && !Out(p, work[k]).Early?
    ensures TagsUsed(p, work[..k]) < TagsUsed(p, work[..n])
    decreases n
  {
    assert work[..n][..n - 1] == work[..n - 1];
    if k < n - 1 {
      UsedBefore(p, work, k, n - 1);
    }
  }

  /** Retries that get that far get tags of their own. */
  lemma OwnTags(s: Sess, p: Limits, work: seq<Retry>, j: nat, k: nat)
    requires |work| < PERIOD && j < k < |work| && !Out(p, work[j]).Early?
    ensures TagFor(s, p, work, j) != TagFor(s, p, work, k)
  {
    UsedBefore(p, work, j, k);
    TagsDiffer(s.t.nextITT, TagsUsed(p, work[..j]), TagsUsed(p, work[..k]));
  }

  // ---- Which tasks run afterwards ---------------------------------------------------------

  /** The task is in the table under the tag, with a channel of its own that is open. */
  ghost predicate InTable(s: Sess, itt: u32, rec: TaskRec) {
    && itt in s.tasks && s.tasks[itt] == rec
    && itt in s.t.pending && s.t.pending[itt] < |s.t.chans|
    && s.t.chans[s.t.pending[itt]].persistent && !s.t.chans[s.t.pending[itt]].closed
  }

  /** The task is in the table, and a loop serves it. */
  ghost predicate Running(s: Sess, rec: TaskRec) {
    exists itt :: InTable(s, itt, rec) && HasLoop(s, itt, rec.id)
  }

  /** What one retry does to the tables and the loops. */
  ghost predicate Took(s: Sess, s': Sess, rec: TaskRec, fate: Fate) {
    var itt, ch := TagOf(s.t.nextITT), |s.t.chans|;
    && s'.cancelled == (if fate.Resumed? then s.cancelled else Cancel(s.cancelled, rec.id, RetryFailed))
    && if fate.Early? then s' == s.(cancelled := s'.cancelled)
       else
         && s'.t.nextITT == AfterTag(s.t.nextITT) && s'.t.pending == s.t.pending[itt := ch]
         && |s'.t.chans| == ch + 1 && (forall c | 0 <= c < ch :: s'.t.chans[c] == s.t.chans[c])
         && s'.t.chans[ch].persistent && !s'.t.chans[ch].closed && s'.t.chans[ch].itt == itt
         && s' == s.(t := s'.t, cancelled := s'.cancelled,
                     tasks := if fate.Late? then s.tasks else s.tasks[itt := rec],
                     loops := if fate.Resumed? then s.loops[ch := rec.id] else s.loops,
                     leaked := if fate.Resumed? then s.leaked else s.leaked + {ch})
  }

  lemma RetryTook(s: Sess, rec: TaskRec, fate: Fate)
    requires Wired(s.t)
    ensures Took(s, Retried(s, rec, fate), rec, fate)
  {
  }

  predicate EnteredIn(p: Limits, w: Retry) {
    Out(p, w).TooLate? || Out(p, w).Resumed?
  }

  /** There is an open channel registered for the tag. */
  ghost predicate HasChannel(s: Sess, itt: u32) {
    && itt in s.t.pending && s.t.pending[itt] < |s.t.chans|
    && s.t.chans[s.t.pending[itt]].persistent && !s.t.chans[s.t.pending[itt]].closed
  }

  /**
   * A task that got a tag has a channel for it; one that entered is in the table under that
   * tag, and has a loop just if it was resumed.
   */
  ghost predicate Back(s: Sess, s': Sess, p: Limits, work: seq<Retry>, k: nat)
    requires k < |work|
  {
    var itt, rec, fate := TagFor(s, p, work, k), work[k].rec, Out(p, work[k]);
    && (!fate.Early? ==> HasChannel(s', itt))
    && (fate.TooLate? || fate.Resumed? ==> InTable(s', itt, rec))
    && (fate.TooLate? ==> s'.t.pending[itt] !in s'.loops)
    && (fate.Resumed? ==> HasLoop(s', itt, rec.id))
  }

  ghost predicate LoopsPlaced(s: Sess) {
    forall ch | ch in s.loops :: ch < |s.t.chans|
  }

  /** Whatever is in the table was there before, or entered. */
  ghost predicate Known(s: Sess, s': Sess, p: Limits, work: seq<Retry>) {
    forall itt | itt in s'.tasks ::
      || (itt in s.tasks && s'.tasks[itt] == s.tasks[itt])
      || exists k | 0 <= k < |work| :: EnteredIn(p, work[k]) && itt == TagFor(s, p, work, k)
  }

  /** Registrations under other tags than the new ones are as they were. */
  ghost predicate OthersStay(s: Sess, s': Sess, n: nat) {
    forall itt | itt in s.t.pending && itt !in NewTags(s.t.nextITT, n) ::
      && itt in s'.t.pending && s'.t.pending[itt] == s.t.pending[itt]
      && (s.t.pending[itt] < |s.t.chans| ==>
            s.t.pending[itt] < |s'.t.chans| && s'.t.chans[s.t.pending[itt]] == s.t.chans[s.t.pending[itt]])
  }

  /** The state of the tables after some retries. */
  ghost predicate TablesAfter(s: Sess, s': Sess, p: Limits, work: seq<Retry>) {
    && TagOf(s'.t.nextITT) == TagAt(s.t.nextITT, TagsUsed(p, work))
    && s'.t.pending.Keys == s.t.pending.Keys + NewTags(s.t.nextITT, TagsUsed(p, work))
    && LoopsPlaced(s')
    && Known(s, s', p, work)
    && (forall k | 0 <= k < |work| :: Back(s, s', p, work, k))
    && OthersStay(s, s', TagsUsed(p, work))
  }

  lemma {:induction false} RetriesFillTables(s: Sess, p: Limits, work: seq<Retry>)
    requires Wired(s.t) && |work| < PERIOD && LoopsPlaced(s)
    ensures TablesAfter(s, RetriedAll(s, p, work), p, work)
    decreases |work|
  {
    if work != [] {
      var mid, last := RetriedAll(s, p, work[..|work| - 1]), work[|work| - 1];
      RetriesFillTables(s, p, work[..|work| - 1]);
      RetryTook(mid, last.rec, Out(p, last));
      OneMoreRetry(s, p, work, mid, RetriedAll(s, p, work));
    }
  }

  lemma OneMoreRetry(s: Sess, p: Limits, work: seq<Retry>, mid: Sess, s': Sess)
    requires 0 < |work| < PERIOD && TablesAfter(s, mid, p, work[..|work| - 1])
    requires Took(mid, s', work[|work| - 1].rec, Out(p, work[|work| - 1]))
    ensures TablesAfter(s, s', p, work)
  {
    var last := |work| - 1;
    var n := TagsUsed(p, work[..last]);
    NewTagsGrow(s.t.nextITT, n);
    TagAtNext(s.t.nextITT, n);
    assert s'.t.pending.Keys == s.t.pending.Keys + NewTags(s.t.nextITT, TagsUsed(p, work));
    OneMoreKnown(s, p, work, mid, s');
    forall k | 0 <= k < |work|
      ensures Back(s, s', p, work, k)
    {
      if k < last {
        SameFor(s, p, work, k);
        assert Back(s, mid, p, work[..last], k);
        if !Out(p, work[k]).Early? {
          OwnTags(s, p, work, k, last);
          StaysBack(mid, s', work[last].rec, Out(p, work[last]), TagFor(s, p, work, k));
        }
      } else if !Out(p, work[last]).Early? {
        NewlyBack(mid, s', work[last].rec, Out(p, work[last]));
      }
    }
  }

  lemma SameFor(s: Sess, p: Limits, work: seq<Retry>, k: nat)
    requires k < |work| - 1
    ensures work[..|work| - 1][k] == work[k] && TagFor(s, p, work[..|work| - 1], k) == TagFor(s, p, work, k)
  {
    assert work[..|work| - 1][..k] == work[..k];
  }

  lemma OneMoreKnown(s: Sess, p: Limits, work: seq<Retry>, mid: Sess, s': Sess)
    requires 0 < |work| && Known(s, mid, p, work[..|work| - 1])
    requires TagOf(mid.t.nextITT) == TagAt(s.t.nextITT, TagsUsed(p, work[..|work| - 1]))
    requires Took(mid, s', work[|work| - 1].rec, Out(p, work[|work| - 1]))
    ensures Known(s, s', p, work)
  {
    var last, init := |work| - 1, work[..|work| - 1];
    forall itt | itt in s'.tasks && !(itt in s.tasks && s'.tasks[itt] == s.tasks[itt])
      ensures exists k | 0 <= k < |work| :: EnteredIn(p, work[k]) && itt == TagFor(s, p, work, k)
    {
      if itt == TagOf(mid.t.nextITT) && EnteredIn(p, work[last]) {
        assert itt == TagFor(s, p, work, last);
      } else {
        assert itt in mid.tasks && mid.tasks[itt] == s'.tasks[itt];
        var k :| 0 <= k < |init| && EnteredIn(p, init[k]) && itt == TagFor(s, p, init, k);
        SameFor(s, p, work, k);
      }
    }
  }

  lemma NewlyBack(s: Sess, s': Sess, rec: TaskRec, fate: Fate)
    requires Took(s, s', rec, fate) && LoopsPlaced(s) && !fate.Early?
    ensures var itt := TagOf(s.t.nextITT);
      && HasChannel(s', itt)
      && (!fate.Late? ==> InTable(s', itt, rec))
      && if fate.Resumed? then HasLoop(s', itt, rec.id) else s'.t.pending[itt] !in s'.loops
  {
  }

  /** A retry leaves the entries under other tags alone, and the loops of their channels. */
  lemma StaysBack(s: Sess, s': Sess, rec: TaskRec, fate: Fate, itt: u32)
    requires Took(s, s', rec, fate) && itt != TagOf(s.t.nextITT) && HasChannel(s, itt)
    ensures HasChannel(s', itt)
    ensures forall r | InTable(s, itt, r) :: InTable(s', itt, r)
    ensures s'.t.pending[itt] in s'.loops <==> s.t.pending[itt] in s.loops
    ensures forall id | HasLoop(s, itt, id) :: HasLoop(s', itt, id)
  {
  }

  // ---- Every task is cancelled or resumed -------------------------------------------------

  ghost predicate DistinctTasks(work: seq<Retry>) {
    forall i, j | 0 <= i < j < |work| :: work[i].rec.id != work[j].rec.id
  }

  /** The retry of the task is one that cannot succeed. */
  ghost predicate FailsIn(p: Limits, work: seq<Retry>, id: nat)
    requires p.maxSegment > 0
  {
    exists k | 0 <= k < |work| :: work[k].rec.id == id && !Resumes(p, work[k].view, work[k].env)
  }

  lemma FailsInLast(p: Limits, work: seq<Retry>, id: nat)
    requires p.maxSegment > 0 && work != []
    ensures var init, last := work[..|work| - 1], work[|work| - 1];
      FailsIn(p, work, id) <==> FailsIn(p, init, id) || (last.rec.id == id && !Resumes(p, last.view, last.env))
  {
    var init := work[..|work| - 1];
    if FailsIn(p, init, id) {
      var k :| 0 <= k < |init| && init[k].rec.id == id && !Resumes(p, init[k].view, init[k].env);
      assert work[k] == init[k];
    }
    if FailsIn(p, work, id) {
      var k :| 0 <= k < |work| && work[k].rec.id == id && !Resumes(p, work[k].view, work[k].env);
      assert k < |init| ==> init[k] == work[k];
    }
  }

  lemma CancelsIff(s: Sess, rec: TaskRec, fate: Fate, id: nat)
    requires Wired(s.t)
    ensures id in Retried(s, rec, fate).cancelled <==> id in s.cancelled || (id == rec.id && !fate.Resumed?)
  {
  }

  /** Exactly the tasks that cannot be retried are cancelled. */
  lemma {:induction false} RetriesCancel(s: Sess, p: Limits, work: seq<Retry>, id: nat)
    requires Wired(s.t) && 0 < p.maxSegment <= MAX_SEGMENT
    ensures id in RetriedAll(s, p, work).cancelled <==> id in s.cancelled || FailsIn(p, work, id)
    decreases |work|
  {
    if work != [] {
      var init, last := work[..|work| - 1], work[|work| - 1];
      RetriesCancel(s, p, init, id);
      FailsInLast(p, work, id);
      FateIff(p, last.view, last.env);
      CancelsIff(RetriedAll(s, p, init), last.rec, Out(p, last), id);
    }
  }

  /** The tasks to retry are different ones, and have left the table. */
  ghost predicate Pending(s: Sess, work: seq<Retry>) {
    && DistinctTasks(work)
    && (forall i, itt | 0 <= i < |work| && itt in s.tasks :: s.tasks[itt] != work[i].rec)
  }

  /** Exactly the tasks whose retry went through have a loop that serves them. */
  lemma RunsIff(s: Sess, p: Limits, work: seq<Retry>, k: nat, s': Sess)
    requires TablesAfter(s, s', p, work) && k < |work| && Pending(s, work)
    ensures Running(s', work[k].rec) <==> Out(p, work[k]).Resumed?
  {
    var rec := work[k].rec;
    if Out(p, work[k]).Resumed? {
      assert Back(s, s', p, work, k);
    } else {
      forall itt | InTable(s', itt, rec)
        ensures !HasLoop(s', itt, rec.id)
      {
        var j :| 0 <= j < |work| && EnteredIn(p, work[j]) && itt == TagFor(s, p, work, j);
        assert Back(s, s', p, work, j);
      }
    }
  }

  /**
   * The partition. After the retries every task of the snapshot is cancelled or has a loop
   * that serves it; and both only if it was cancelled before and is retried all the same.
   * One that runs is in the table under a tag of its own, with a registration of its own,
   * and that tag is one of the next ones in the cycle. No other tags were registered than
   * those.
   */
  lemma RetryPartitions(s: Sess, p: Limits, work: seq<Retry>, k: nat)
    requires Wired(s.t) && |work| < PERIOD && LoopsPlaced(s) && Pending(s, work) && k < |work|
    requires 0 < p.maxSegment <= MAX_SEGMENT
    ensures var s', w := RetriedAll(s, p, work), work[k];
      && (w.rec.id in s'.cancelled || Running(s', w.rec))
      && (w.rec.id in s'.cancelled && Running(s', w.rec) <==> w.rec.id in s.cancelled && Resumes(p, w.view, w.env))
      && (Running(s', w.rec) <==> Resumes(p, w.view, w.env))
      && (Running(s', w.rec) ==>
            InTable(s', TagFor(s, p, work, k), w.rec) && HasLoop(s', TagFor(s, p, work, k), w.rec.id))
      && s'.t.pending.Keys == s.t.pending.Keys + NewTags(s.t.nextITT, TagsUsed(p, work))
  {
    var s', id := RetriedAll(s, p, work), work[k].rec.id;
    RetriesFillTables(s, p, work);
    RunsIff(s, p, work, k, s');
    FateIff(p, work[k].view, work[k].env);
    RetriesCancel(s, p, work, id);
    assert Back(s, s', p, work, k);
    if FailsIn(p, work, id) {
      var j :| 0 <= j < |work| && work[j].rec.id == id && !Resumes(p, work[j].view, work[j].env);
      assert j == k;
    }
  }

  /** Two tasks that run afterwards have different tags. */
  lemma RunningTagsDiffer(s: Sess, p: Limits, work: seq<Retry>, j: nat, k: nat)
    requires |work| < PERIOD && j < |work| && k < |work| && j != k && 0 < p.maxSegment <= MAX_SEGMENT
    requires Resumes(p, work[j].view, work[j].env) && Resumes(p, work[k].view, work[k].env)
    ensures TagFor(s, p, work, j) != TagFor(s, p, work, k)
  {
    FateIff(p, work[j].view, work[j].env);
    FateIff(p, work[k].view, work[k].env);
    if j < k {
      OwnTags(s, p, work, j, k);
    } else {
      OwnTags(s, p, work, k, j);
    }
  }

  // ---- What a failed retry leaves behind --------------------------------------------------

  /**
   * A retry leaves its registration behind, with no loop that reads from it, exactly if the
   * task gets as far as a command number and is not resumed; and it leaves its place in the
   * table too exactly if its immediate data could be read. Then and only then do the two
   * tables still agree.
   */
  lemma RetryLeaksIff(s: Sess, rec: TaskRec, p: Limits, v: View, env: Env)
    requires Wired(s.t) && LoopsPlaced(s) && TagOf(s.t.nextITT) !in s.t.pending && TagOf(s.t.nextITT) !in s.tasks
    requires 0 < p.maxSegment <= MAX_SEGMENT
    ensures var s', itt := Retried(s, rec, FateOf(p, v, env)), TagOf(s.t.nextITT);
      && (itt in s'.t.pending && !HasLoop(s', itt, rec.id) <==> Registers(v, env) && !Resumes(p, v, env))
      && (itt in s'.tasks && !HasLoop(s', itt, rec.id) <==> Enters(p, v, env) && !Resumes(p, v, env))
      && (s.tasks.Keys == PersistentTags(s.t) ==>
            (s'.tasks.Keys == PersistentTags(s'.t) <==> (Registers(v, env) ==> Enters(p, v, env))))
  {
    var s', itt, fate := Retried(s, rec, FateOf(p, v, env)), TagOf(s.t.nextITT), FateOf(p, v, env);
    FateIff(p, v, env);
    RetryTook(s, rec, fate);
    if !fate.Early? {
      RegistrationAddsTag(s, s', rec, fate);
    }
  }

  lemma RegistrationAddsTag(s: Sess, s': Sess, rec: TaskRec, fate: Fate)
    requires Wired(s.t) && Wired(s'.t) && Took(s, s', rec, fate) && !fate.Early?
    ensures PersistentTags(s'.t) == PersistentTags(s.t) + {TagOf(s.t.nextITT)}
  {
  }

  /**
   * An input at which both are left behind: a write of a few bytes, ImmediateData=Yes and
   * InitialR2T=No, a source that can be rewound, and nothing that goes wrong around it.
   */
  lemma SmallWriteLeaks(s: Sess, rec: TaskRec, data: bytes)
    requires Wired(s.t) && LoopsPlaced(s) && TagOf(s.t.nextITT) !in s.t.pending && 0 < |data| <= 8192
    ensures var p, v := Limits(true, false, 65536, 262144, 8192), View(false, true, true, data, false);
      var s', itt := Retried(s, rec, FateOf(p, v, Env(true, true, true, true))), TagOf(s.t.nextITT);
      rec.id in s'.cancelled && InTable(s', itt, rec) && !HasLoop(s', itt, rec.id)
  {
    var p, v := Limits(true, false, 65536, 262144, 8192), View(false, true, true, data, false);
    FateIff(p, v, Env(true, true, true, true));
    RetryTook(s, rec, TooLate);
  }
}
