/**
 * Every interleaving of acquirers, target updates, cancellations and shutdown, as a
 * sequence of labelled steps at the window's lock boundaries. The 32-bit system is shown
 * to refine one over unbounded integers, where its guarantees are then read off.
 */
module WindowRuns {
  import opened Prelude
  import opened Serial
  import opened CmdWindow

  /**
   * One call of acquire. A waiting call has a goroutine that keeps looking at the window;
   * a posted outcome sits in the goroutine's result channel; the caller's select may
   * notice the cancelled context at any time before it takes that outcome, and then
   * drops it.
   */
  datatype Call<+N> =
    | Waiting(cancelled: bool)
    | Posted(outcome: Outcome<N>, cancelled: bool)
    | Returned(outcome: Outcome<N>)

  datatype Step =
    | Enter(id: nat)      // first critical section of acquire
    | Wake(id: nat)       // the goroutine re-acquires the lock and looks again
    | Cancel(id: nat)     // the caller's select sees ctx.Done
    | Receive(id: nat)    // the caller takes the goroutine's result
    | Update(e: int, m: int)
    | Shut

  // ---- The 32-bit system -------------------------------------------------------------

  datatype Sys = Sys(win: Win, calls: map<nat, Call<u32>>, grants: seq<(nat, u32)>)

  function Look(s: Sys, id: nat, cancelled: bool, fast: bool): Sys {
    var v := Verdict(s.win, cancelled);
    var s1 := s.(win := AfterAttempt(s.win, cancelled),
                 grants := if v.Some? && v.value.Granted? then s.grants + [(id, v.value.sn)] else s.grants);
    match v
    case None => s1.(calls := s.calls[id := Waiting(cancelled)])
    case Some(o) => s1.(calls := s.calls[id := if fast then Returned(o) else Posted(o, cancelled)])
  }

  /** One step; a step that is not enabled leaves the system as it is. */
  function Do(s: Sys, step: Step): Sys {
    match step
    case Enter(id) => if id in s.calls then s else Look(s, id, false, true)
    case Wake(id) =>
      if id in s.calls && s.calls[id].Waiting? then Look(s, id, s.calls[id].cancelled, false) else s
    case Cancel(id) => s.(calls := Mark(s.calls, id))
    case Receive(id) => s.(calls := Take(s.calls, id))
    case Update(e, m) => s.(win := AfterUpdate(s.win, Wrap(e), Wrap(m)))
    case Shut => s.(win := s.win.(closed := true))
  }

  function Mark<N>(calls: map<nat, Call<N>>, id: nat): map<nat, Call<N>> {
    if id !in calls then calls
    else match calls[id]
      case Waiting(_) => calls[id := Waiting(true)]
      case Posted(o, _) => calls[id := Posted(o, true)]
      case Returned(_) => calls
  }

  function Take<N>(calls: map<nat, Call<N>>, id: nat): map<nat, Call<N>> {
    if id in calls && calls[id].Posted? then
      calls[id := Returned(if calls[id].cancelled then Cancelled else calls[id].outcome)]
    else calls
  }

  function Run(s: Sys, steps: seq<Step>): Sys {
    if steps == [] then s else Do(Run(s, steps[..|steps| - 1]), steps[|steps| - 1])
  }

  // ---- The unbounded system ----------------------------------------------------------

  /** Counters over the integers; each grant records the window it was made in. */
  datatype Grant = Grant(id: nat, sn: int, lo: int, hi: int)
  datatype Ideal = Ideal(cmd: int, exp: int, max: int, closed: bool,
                         calls: map<nat, Call<int>>, grants: seq<Grant>)

  function IdealVerdict(a: Ideal, cancelled: bool): Option<Outcome<int>> {
    if a.closed then Some(WindowClosed)
    else if cancelled then Some(Cancelled)
    else if a.exp <= a.cmd <= a.max then Some(Granted(a.cmd))
    else None
  }

  function IdealLook(a: Ideal, id: nat, cancelled: bool, fast: bool): Ideal {
    match IdealVerdict(a, cancelled)
    case None => a.(calls := a.calls[id := Waiting(cancelled)])
    case Some(o) =>
      var a1 := a.(calls := a.calls[id := if fast then Returned(o) else Posted(o, cancelled)]);
      if o.Granted? then a1.(cmd := a.cmd + 1, grants := a.grants + [Grant(id, a.cmd, a.exp, a.max)]) else a1
  }

  function IdealDo(a: Ideal, step: Step): Ideal {
    match step
    case Enter(id) => if id in a.calls then a else IdealLook(a, id, false, true)
    case Wake(id) =>
      if id in a.calls && a.calls[id].Waiting? then IdealLook(a, id, a.calls[id].cancelled, false) else a
    case Cancel(id) => a.(calls := Mark(a.calls, id))
    case Receive(id) => a.(calls := Take(a.calls, id))
    case Update(e, m) => if m < e - 1 then a else a.(exp := Max(a.exp, e), max := m)
    case Shut => a.(closed := true)
  }

  function IdealRun(a: Ideal, steps: seq<Step>): Ideal {
    if steps == [] then a else IdealDo(IdealRun(a, steps[..|steps| - 1]), steps[|steps| - 1])
  }

  // ---- Refinement --------------------------------------------------------------------

  function Low(o: Outcome<int>): Outcome<u32> {
    match o
    case Granted(sn) => Granted(Wrap(sn))
    case WindowClosed => WindowClosed
    case Cancelled => Cancelled
  }

  function LowCall(c: Call<int>): Call<u32> {
    match c
    case Waiting(b) => Waiting(b)
    case Posted(o, b) => Posted(Low(o), b)
    case Returned(o) => Returned(Low(o))
  }

  /** The 32-bit view of an unbounded state. */
  function LowSys(a: Ideal): Sys {
    Sys(Win(Wrap(a.cmd), Wrap(a.exp), Wrap(a.max), a.closed),
        map id | id in a.calls :: LowCall(a.calls[id]),
        seq(|a.grants|, i requires 0 <= i < |a.grants| => (a.grants[i].id, Wrap(a.grants[i].sn))))
  }

  /** The counters are close enough for 32-bit serial comparison to order them. */
  predicate Spanned(cmd: int, exp: int, max: int) {
    Near(max + 1, exp) && Near(cmd, exp) && Near(cmd, max) && Near(max, exp)
  }

  /** What is asked of the target: every number it sends is within 2^31 of the counters. */
  predicate Fits(a: Ideal, step: Step) {
    step.Update? ==>
      && Near(step.e, a.exp)
      && Near(step.m, step.e - 1)
      && (step.m >= step.e - 1 ==> Spanned(a.cmd, Max(a.exp, step.e), step.m))
  }

  ghost predicate AllFit(a: Ideal, steps: seq<Step>) {
    forall i | 0 <= i < |steps| :: Fits(IdealRun(a, steps[..i]), steps[i])
  }

  lemma OpenRefines(a: Ideal)
    requires Spanned(a.cmd, a.exp, a.max)
    ensures WindowOpen(LowSys(a).win) <==> a.exp <= a.cmd <= a.max
  {
    CompareRefines(a.max, a.exp);
    if a.exp <= a.max {
      InWindowRefines(a.cmd, a.exp, a.max);
    }
  }

  lemma LowCallsUpdated(a: Ideal, id: nat, c: Call<int>)
    ensures LowSys(a.(calls := a.calls[id := c])).calls == LowSys(a).calls[id := LowCall(c)]
  {
  }

  lemma LookRefines(a: Ideal, id: nat, cancelled: bool, fast: bool)
    requires Spanned(a.cmd, a.exp, a.max)
    ensures Look(LowSys(a), id, cancelled, fast) == LowSys(IdealLook(a, id, cancelled, fast))
    ensures Spanned(IdealLook(a, id, cancelled, fast).cmd, a.exp, a.max)
  {
    OpenRefines(a);
    IncrRefines(a.cmd);
    var low, b := LowSys(a), IdealLook(a, id, cancelled, fast);
    LowCallsUpdated(a, id, b.calls[id]);
    assert LowSys(b).calls == low.calls[id := LowCall(b.calls[id])];
    assert Look(low, id, cancelled, fast).grants == LowSys(b).grants;
  }

  lemma UpdateRefines(a: Ideal, e: int, m: int)
    requires Spanned(a.cmd, a.exp, a.max)
    requires Fits(a, Update(e, m))
    ensures AfterUpdate(LowSys(a).win, Wrap(e), Wrap(m)) == LowSys(IdealDo(a, Update(e, m))).win
  {
    WrapAdd(e, -1);
    CompareRefines(m, e - 1);
    CompareRefines(e, a.exp);
  }

  lemma StepRefines(a: Ideal, step: Step)
    requires Spanned(a.cmd, a.exp, a.max)
    requires Fits(a, step)
    ensures Do(LowSys(a), step) == LowSys(IdealDo(a, step))
    ensures var b := IdealDo(a, step); Spanned(b.cmd, b.exp, b.max)
  {
    match step
    case Enter(id) =>
      if id !in a.calls {
        LookRefines(a, id, false, true);
      }
    case Wake(id) =>
      if id in a.calls && a.calls[id].Waiting? {
        LookRefines(a, id, a.calls[id].cancelled, false);
      }
    case Cancel(id) =>
      assert Mark(LowSys(a).calls, id) == LowSys(IdealDo(a, step)).calls;
    case Receive(id) =>
      assert Take(LowSys(a).calls, id) == LowSys(IdealDo(a, step)).calls;
    case Update(e, m) =>
      UpdateRefines(a, e, m);
    case Shut =>
  }

  /** Over whole runs the 32-bit window does exactly what unbounded counters would do. */
  lemma {:induction false} RunRefines(a: Ideal, steps: seq<Step>)
    requires Spanned(a.cmd, a.exp, a.max)
    requires AllFit(a, steps)
    ensures Run(LowSys(a), steps) == LowSys(IdealRun(a, steps))
    ensures var b := IdealRun(a, steps); Spanned(b.cmd, b.exp, b.max)
  {
    if steps != [] {
      var n := |steps| - 1;
      var front := steps[..n];
      forall i | 0 <= i < |front| ensures Fits(IdealRun(a, front[..i]), front[i]) {
        assert front[..i] == steps[..i];
      }
      RunRefines(a, front);
      StepRefines(IdealRun(a, front), steps[n]);
    }
  }

  // ---- Guarantees --------------------------------------------------------------------

  function Fresh(cmd: int): Ideal {
    Ideal(cmd, cmd, cmd, false, map[], [])
  }

  /** The call holds, or once held, the number sn. */
  predicate Holds(c: Call<int>, sn: int) {
    (c.Posted? || c.Returned?) && c.outcome == Granted(sn)
  }

  ghost predicate Good(first: int, a: Ideal) {
    && a.cmd == first + |a.grants|
    // grants are consecutive, each inside the window it was made in
    && (forall i | 0 <= i < |a.grants| ::
          a.grants[i].sn == first + i && a.grants[i].lo <= a.grants[i].sn <= a.grants[i].hi)
    && (forall i | 0 <= i < |a.grants| :: a.grants[i].lo <= a.exp)
    // at most one grant for each call, and only for calls that are past waiting
    && (forall i, j | 0 <= i < j < |a.grants| :: a.grants[i].id != a.grants[j].id)
    && (forall i | 0 <= i < |a.grants| :: a.grants[i].id in a.calls && !a.calls[a.grants[i].id].Waiting?)
    // a number that a call holds was granted to that call
    && (forall id, sn | id in a.calls && Holds(a.calls[id], sn) ::
          first <= sn < a.cmd && a.grants[sn - first].id == id)
  }

  lemma LookKeepsGood(first: int, a: Ideal, id: nat, cancelled: bool, fast: bool)
    requires Good(first, a)
    requires id in a.calls ==> a.calls[id].Waiting?
    ensures Good(first, IdealLook(a, id, cancelled, fast))
  {
    var b := IdealLook(a, id, cancelled, fast);
    forall i | 0 <= i < |a.grants| ensures a.grants[i].id != id {
    }
    forall k, sn | k in b.calls && Holds(b.calls[k], sn)
      ensures first <= sn < b.cmd && b.grants[sn - first].id == k
    {
      if k != id {
        assert k in a.calls && Holds(a.calls[k], sn);
      }
    }
  }

  lemma StepKeepsGood(first: int, a: Ideal, step: Step)
    requires Good(first, a)
    ensures Good(first, IdealDo(a, step))
  {
    match step
    case Enter(id) =>
      if id !in a.calls {
        LookKeepsGood(first, a, id, false, true);
      }
    case Wake(id) =>
      if id in a.calls && a.calls[id].Waiting? {
        LookKeepsGood(first, a, id, a.calls[id].cancelled, false);
      }
    case Cancel(_) | Receive(_) =>
      var b := IdealDo(a, step);
      forall k, sn | k in b.calls && Holds(b.calls[k], sn)
        ensures first <= sn < b.cmd && b.grants[sn - first].id == k
      {
        assert k in a.calls && Holds(a.calls[k], sn);
      }
    case _ =>
  }

  lemma {:induction false} RunIsGood(first: int, steps: seq<Step>)
    ensures Good(first, IdealRun(Fresh(first), steps))
  {
    if steps != [] {
      RunIsGood(first, steps[..|steps| - 1]);
      StepKeepsGood(first, IdealRun(Fresh(first), steps[..|steps| - 1]), steps[|steps| - 1]);
    }
  }

  /** What the 32-bit state s says about numbers, with a as the unbounded history. */
  ghost predicate Safe(first: int, s: Sys, a: Ideal) {
    && |s.grants| == |a.grants|
    // the k-th grant is the start number plus k, across any number of wraps
    && (forall k | 0 <= k < |s.grants| :: s.grants[k] == (a.grants[k].id, Wrap(first + k)))
    // it was made while the number lay between ExpCmdSN and MaxCmdSN
    && (forall k | 0 <= k < |a.grants| :: a.grants[k].lo <= first + k <= a.grants[k].hi)
    // one grant for each call at most
    && (forall i, j | 0 <= i < j < |s.grants| :: s.grants[i].0 != s.grants[j].0)
    // a number returned to a caller was granted to that caller
    && (forall id | id in s.calls && s.calls[id].Returned? && s.calls[id].outcome.Granted? ::
          (id, s.calls[id].outcome.sn) in s.grants)
  }

  lemma GoodIsSafe(first: int, a: Ideal)
    requires Good(first, a)
    ensures Safe(first, LowSys(a), a)
  {
    var s := LowSys(a);
    forall id | id in s.calls && s.calls[id].Returned? && s.calls[id].outcome.Granted?
      ensures (id, s.calls[id].outcome.sn) in s.grants
    {
      var n := a.calls[id].outcome.sn;
      assert Holds(a.calls[id], n);
      assert s.grants[n - first] == (id, Wrap(n));
    }
  }

  /** Safety of the 32-bit window in every run whose target keeps within serial range. */
  lemma WindowSafety(first: int, steps: seq<Step>)
    requires AllFit(Fresh(first), steps)
    ensures Safe(first, Run(LowSys(Fresh(first)), steps), IdealRun(Fresh(first), steps))
  {
    RunRefines(Fresh(first), steps);
    RunIsGood(first, steps);
    GoodIsSafe(first, IdealRun(Fresh(first), steps));
  }

  lemma WrapInjective(a: int, b: int)
    requires a < b < a + TWO32
    ensures Wrap(a) != Wrap(b)
  {
    WrapIsRemainder(a);
    WrapIsRemainder(b);
    assert (b - a) - (Wrap(b) - Wrap(a)) == TWO32 * (b / TWO32 - a / TWO32);
  }

  /** Fewer than 2^32 grants apart, no two grants carry the same 32-bit number. */
  lemma GrantsAreDistinct(first: int, s: Sys, a: Ideal, i: nat, j: nat)
    requires Safe(first, s, a)
    requires i < j < |s.grants| && j - i < TWO32
    ensures s.grants[i].1 != s.grants[j].1
  {
    WrapInjective(first + i, first + j);
  }

  lemma {:induction false} RunConcat(s: Sys, p: seq<Step>, q: seq<Step>)
    ensures Run(s, p + q) == Run(Run(s, p), q)
    decreases |q|
  {
    if q == [] {
      assert p + q == p;
    } else {
      var n := |q| - 1;
      assert (p + q)[..|p + q| - 1] == p + q[..n];
      RunConcat(s, p, q[..n]);
    }
  }

  lemma {:induction false} IdealRunConcat(a: Ideal, p: seq<Step>, q: seq<Step>)
    ensures IdealRun(a, p + q) == IdealRun(IdealRun(a, p), q)
    decreases |q|
  {
    if q == [] {
      assert p + q == p;
    } else {
      var n := |q| - 1;
      assert (p + q)[..|p + q| - 1] == p + q[..n];
      IdealRunConcat(a, p, q[..n]);
    }
  }

  lemma StepIsMonotone(a: Ideal, step: Step)
    ensures a.exp <= IdealDo(a, step).exp
    ensures a.grants <= IdealDo(a, step).grants
  {
  }

  /** ExpCmdSN never decreases along a run, and the grants already made are kept. */
  lemma {:induction false} ExpCmdSNIsMonotone(a: Ideal, steps: seq<Step>)
    ensures a.exp <= IdealRun(a, steps).exp
    ensures a.grants <= IdealRun(a, steps).grants
  {
    if steps != [] {
      ExpCmdSNIsMonotone(a, steps[..|steps| - 1]);
      StepIsMonotone(IdealRun(a, steps[..|steps| - 1]), steps[|steps| - 1]);
    }
  }

  /**
   * The 32-bit ExpCmdSN never moves back in serial order between two points of a run
   * that are less than 2^31 apart.
   */
  lemma SerialExpCmdSNIsMonotone(first: int, p: seq<Step>, q: seq<Step>)
    requires AllFit(Fresh(first), p + q)
    requires Near(IdealRun(Fresh(first), p + q).exp, IdealRun(Fresh(first), p).exp)
    ensures !LessThan(Run(LowSys(Fresh(first)), p + q).win.expCmdSN, Run(LowSys(Fresh(first)), p).win.expCmdSN)
  {
    forall i | 0 <= i < |p| ensures Fits(IdealRun(Fresh(first), p[..i]), p[i]) {
      assert p[..i] == (p + q)[..i];
    }
    RunRefines(Fresh(first), p);
    RunRefines(Fresh(first), p + q);
    IdealRunConcat(Fresh(first), p, q);
    ExpCmdSNIsMonotone(IdealRun(Fresh(first), p), q);
    CompareRefines(IdealRun(Fresh(first), p + q).exp, IdealRun(Fresh(first), p).exp);
  }

  /** Nothing is granted after close, whatever happens next and whatever came before. */
  lemma {:induction false} NoGrantAfterClose(s: Sys, before: seq<Step>, after: seq<Step>)
    ensures Run(s, before + [Shut] + after).grants == Run(s, before).grants
    ensures Run(s, before + [Shut] + after).win.closed
    decreases |after|
  {
    if after == [] {
      RunConcat(s, before, [Shut]);
      assert before + [Shut] + after == before + [Shut];
      assert Run(Run(s, before), [Shut]) == Do(Run(Run(s, before), [Shut][..0]), Shut);
    } else {
      var n := |after| - 1;
      NoGrantAfterClose(s, before, after[..n]);
      var all := before + [Shut] + after;
      assert all[..|all| - 1] == before + [Shut] + after[..n];
    }
  }

  // ---- What becomes of a granted number ------------------------------------------------

  /** The number waits for its caller, or the caller has it, or has dropped it. */
  predicate Accounted(c: Call<u32>, sn: u32) {
    match c
    case Waiting(_) => false
    case Posted(o, _) => o == Granted(sn)
    case Returned(o) => o == Granted(sn) || o == Cancelled
  }

  ghost predicate AllAccounted(s: Sys) {
    forall g | g in s.grants :: g.0 in s.calls && Accounted(s.calls[g.0], g.1)
  }

  lemma LookKeepsAccounted(s: Sys, id: nat, cancelled: bool, fast: bool)
    requires AllAccounted(s) && (id in s.calls ==> s.calls[id].Waiting?)
    ensures AllAccounted(Look(s, id, cancelled, fast))
  {
    forall g | g in s.grants ensures g.0 != id {
      assert Accounted(s.calls[g.0], g.1);
    }
  }

  lemma StepKeepsAccounted(s: Sys, step: Step)
    requires AllAccounted(s)
    ensures AllAccounted(Do(s, step))
  {
    match step
    case Enter(id) =>
      if id !in s.calls {
        LookKeepsAccounted(s, id, false, true);
      }
    case Wake(id) =>
      if id in s.calls && s.calls[id].Waiting? {
        LookKeepsAccounted(s, id, s.calls[id].cancelled, false);
      }
    case _ =>
  }

  /** In every run, each number granted is with its call, unless that call was cancelled. */
  lemma {:induction false} GrantsAreAccountedFor(s: Sys, steps: seq<Step>)
    requires s.grants == []
    ensures AllAccounted(Run(s, steps))
  {
    if steps != [] {
      GrantsAreAccountedFor(s, steps[..|steps| - 1]);
      StepKeepsAccounted(Run(s, steps[..|steps| - 1]), steps[|steps| - 1]);
    }
  }

  /** A posted number stays posted until it is received, and knows if the call is cancelled meanwhile. */
  lemma {:induction false} PostedStays(s: Sys, id: nat, sn: u32, steps: seq<Step>)
    requires id in s.calls && s.calls[id] == Posted(Granted(sn), false) && Receive(id) !in steps
    ensures var r := Run(s, steps); id in r.calls && r.calls[id] == Posted(Granted(sn), Cancel(id) in steps)
  {
    if steps != [] {
      var init, last := steps[..|steps| - 1], steps[|steps| - 1];
      assert steps == init + [last];
      PostedStays(s, id, sn, init);
    }
  }

  lemma {:induction false} ReturnedStays(s: Sys, id: nat, steps: seq<Step>)
    requires id in s.calls && s.calls[id].Returned?
    ensures id in Run(s, steps).calls && Run(s, steps).calls[id] == s.calls[id]
  {
    if steps != [] {
      ReturnedStays(s, id, steps[..|steps| - 1]);
    }
  }

  lemma RunOne(s: Sys, step: Step)
    ensures Run(s, [step]) == Do(s, step)
  {
    assert Run(s, [step][..0]) == s;
  }

  /**
   * Which granted numbers reach their caller. Take any run in which the goroutine of a call
   * finds the window open, and later the caller receives from it, whatever happens before,
   * between and after: the call ends with its number if and only if it was not cancelled in
   * between. Otherwise nobody ever uses that number.
   */
  lemma NumberIsReturnedIff(s: Sys, before: seq<Step>, id: nat, between: seq<Step>, after: seq<Step>)
    requires id in Run(s, before).calls && Run(s, before).calls[id] == Waiting(false)
    requires WindowOpen(Run(s, before).win) && !Run(s, before).win.closed
    requires Receive(id) !in between
    ensures var sn := Run(s, before).win.cmdSN;
      var r := Run(s, before + [Wake(id)] + between + [Receive(id)] + after);
      && (id, sn) in r.grants && id in r.calls
      && r.calls[id] == Returned(if Cancel(id) in between then Cancelled else Granted(sn))
  {
    var s0, sn := Run(s, before), Run(s, before).win.cmdSN;
    var woken := Do(s0, Wake(id));
    RunConcat(s, before, [Wake(id)]);
    RunOne(s0, Wake(id));
    RunConcat(s, before + [Wake(id)], between);
    PostedStays(woken, id, sn, between);
    var posted := Run(woken, between);
    RunConcat(s, before + [Wake(id)] + between, [Receive(id)]);
    RunOne(posted, Receive(id));
    RunConcat(s, before + [Wake(id)] + between + [Receive(id)], after);
    ReturnedStays(Do(posted, Receive(id)), id, after);
    assert (id, sn) in woken.grants;
    GrantsGrow(woken, between);
    GrantsGrow(Do(posted, Receive(id)), after);
  }

  lemma {:induction false} GrantsGrow(s: Sys, steps: seq<Step>)
    ensures s.grants <= Run(s, steps).grants
  {
    if steps != [] {
      GrantsGrow(s, steps[..|steps| - 1]);
    }
  }

  /**
   * A cancelled call can consume a number that nobody gets: its goroutine is granted the
   * number, then the caller's select takes the cancelled context and drops the result.
   */
  lemma CancelledCallLosesItsNumber(a: Ideal, id: nat)
    requires id in a.calls && a.calls[id] == Waiting(false)
    requires !a.closed && a.exp <= a.cmd <= a.max
    ensures var b := IdealRun(a, [Wake(id), Cancel(id), Receive(id)]);
      id in b.calls && b.calls[id] == Returned(Cancelled) && b.cmd == a.cmd + 1 &&
      b.grants == a.grants + [Grant(id, a.cmd, a.exp, a.max)]
  {
    var w, c := Wake(id), Cancel(id);
    var b1 := IdealRun(a, [w]);
    assert IdealRun(a, [w][..0]) == a;
    assert b1 == IdealDo(a, w);
    assert [w, c][..1] == [w];
    assert [w, c, Receive(id)][..2] == [w, c];
    assert IdealRun(a, [w, c]) == IdealDo(b1, c);
  }
}
