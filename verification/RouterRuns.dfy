/**
 * What the router keeps over every run: a channel gets, in order, exactly the PDUs with
 * its tag that arrive while it is registered.
 */
module RouterRuns {
  import opened Prelude
  import opened Router

  /** A PDU as it arrives, under its tag. */
  datatype Arrival<T> = Arrival(itt: u32, pdu: T)

  /**
   * The router with its history: all arrivals in order, and for each channel the stretch of
   * arrivals during which it was registered.
   */
  datatype World<T> = World(t: Table<T>, log: seq<Arrival<T>>, from: seq<nat>, until: seq<Option<nat>>)

  function Start<T>(persistentDepth: int): World<T> {
    World(Fresh(persistentDepth), [], [], [])
  }

  /** The arrivals with a given tag, in order. */
  function Project<T>(log: seq<Arrival<T>>, itt: u32): seq<T> {
    if log == [] then []
    else Project(log[..|log| - 1], itt) + if log[|log| - 1].itt == itt then [log[|log| - 1].pdu] else []
  }

  /** All that a channel was ever given: taken by the reader, queued, or on the way. */
  function Contents<T>(t: Table<T>, ch: nat): seq<T>
    requires Wired(t) && ch < |t.chans|
  {
    t.chans[ch].taken + t.chans[ch].queue
    + if t.flight.Some? && t.flight.value.ch == ch then [t.flight.value.pdu] else []
  }

  /** The stretch of a channel ends when its entry leaves the table. */
  function Ended<T>(w: World<T>, itt: u32, at: nat): seq<Option<nat>>
    requires Wired(w.t) && |w.until| == |w.t.chans|
  {
    if itt in w.t.pending then w.until[w.t.pending[itt] := Some(at)] else w.until
  }

  function Advance<T>(w: World<T>, step: Step<T>): World<T>
    requires Wired(w.t) && Enabled(w.t, step) && |w.from| == |w.until| == |w.t.chans|
  {
    var t := Next(w.t, step);
    match step
    case Register => World(t, w.log, w.from + [|w.log|], Ended(w, TagOf(w.t.nextITT), |w.log|) + [None])
    case RegisterPersistent(itt) => World(t, w.log, w.from + [|w.log|], Ended(w, itt, |w.log|) + [None])
    case Lookup(itt, pdu) =>
      var oneShot := itt in w.t.pending && !w.t.chans[w.t.pending[itt]].persistent;
      World(t, w.log + [Arrival(itt, pdu)], w.from, if oneShot then Ended(w, itt, |w.log| + 1) else w.until)
    case Unregister(itt) => World(t, w.log, w.from, Ended(w, itt, |w.log|))
    case UnregisterAndClose(itt) => World(t, w.log, w.from, Ended(w, itt, |w.log|))
    case _ => w.(t := t)
  }

  function EndOf<T>(w: World<T>, ch: nat): nat
    requires ch < |w.until|
  {
    if w.until[ch].Some? then w.until[ch].value else |w.log|
  }

  /** What holds of each channel. */
  ghost predicate ChanInv<T>(w: World<T>, ch: nat)
    requires Wired(w.t) && ch < |w.t.chans| == |w.from| == |w.until|
  {
    var c := w.t.chans[ch];
    && c.capacity == (if c.persistent then w.t.depth else 1)
    && |c.queue| <= c.capacity
    && w.from[ch] <= EndOf(w, ch) <= |w.log|
    && Contents(w.t, ch) == Project(w.log[w.from[ch]..EndOf(w, ch)], c.itt)
    && (w.until[ch] == None <==> c.itt in w.t.pending && w.t.pending[c.itt] == ch)
    && (!c.persistent ==> |Contents(w.t, ch)| <= 1)
    && (!c.persistent && w.until[ch] == None ==> Contents(w.t, ch) == [])
    && (c.closed ==> w.until[ch] != None && !(w.t.flight.Some? && w.t.flight.value.ch == ch))
  }

  ghost predicate Inv<T>(w: World<T>) {
    && Wired(w.t) && |w.from| == |w.until| == |w.t.chans| && w.t.depth > 0
    && (forall itt | itt in w.t.pending :: w.t.chans[w.t.pending[itt]].itt == itt)
    && (forall ch | 0 <= ch < |w.t.chans| :: ChanInv(w, ch))
  }

  lemma ProjectSnoc<T>(log: seq<Arrival<T>>, a: Arrival<T>, itt: u32)
    ensures Project(log + [a], itt) == Project(log, itt) + if a.itt == itt then [a.pdu] else []
  {
    assert (log + [a])[..|log|] == log;
  }

  lemma ProjectEmpty<T>(log: seq<Arrival<T>>, at: nat, itt: u32)
    requires at <= |log|
    ensures Project(log[at..at], itt) == []
  {
  }

  /** Steps that leave the table of entries alone. */
  lemma TrafficKeepsInv<T>(w: World<T>, step: Step<T>)
    requires Inv(w) && Enabled(w.t, step)
    requires step.AllocateITT? || step.Send? || step.Receive?
    ensures Inv(Advance(w, step))
  {
    var w' := Advance(w, step);
    forall ch | 0 <= ch < |w'.t.chans|
      ensures ChanInv(w', ch)
    {
      assert ChanInv(w, ch);
      assert Contents(w'.t, ch) == Contents(w.t, ch);
    }
  }

  lemma RemovalKeepsInv<T>(w: World<T>, step: Step<T>)
    requires Inv(w) && Enabled(w.t, step)
    requires step.Unregister? || step.UnregisterAndClose?
    ensures Inv(Advance(w, step))
  {
    var w' := Advance(w, step);
    forall ch | 0 <= ch < |w'.t.chans|
      ensures ChanInv(w', ch)
    {
      assert ChanInv(w, ch);
      assert Contents(w'.t, ch) == Contents(w.t, ch);
      assert w.until[ch] == None ==> EndOf(w', ch) == EndOf(w, ch);
    }
  }

  lemma NewChannelSpares<T>(w: World<T>, step: Step<T>, ch: nat)
    requires Inv(w) && (step.Register? || step.RegisterPersistent?) && ch < |w.t.chans|
    ensures Wired(Advance(w, step).t) && ChanInv(Advance(w, step), ch)
  {
    assert ChanInv(w, ch);
    assert Contents(Advance(w, step).t, ch) == Contents(w.t, ch);
  }

  lemma NewChannelKeepsInv<T>(w: World<T>, step: Step<T>)
    requires Inv(w) && (step.Register? || step.RegisterPersistent?)
    ensures Inv(Advance(w, step))
  {
    var w' := Advance(w, step);
    forall ch | 0 <= ch < |w'.t.chans|
      ensures ChanInv(w', ch)
    {
      if ch < |w.t.chans| {
        NewChannelSpares(w, step, ch);
      } else {
        ProjectEmpty(w.log, |w.log|, w'.t.chans[ch].itt);
      }
    }
  }

  lemma LookupKeepsInv<T>(w: World<T>, itt: u32, pdu: T)
    requires Inv(w) && w.t.flight == None
    ensures Inv(Advance(w, Lookup(itt, pdu)))
  {
    var w' := Advance(w, Lookup(itt, pdu));
    forall ch | 0 <= ch < |w'.t.chans|
      ensures ChanInv(w', ch)
    {
      if itt in w.t.pending && w.t.pending[itt] == ch {
        LookupFills(w, w', ch, itt, pdu);
      } else {
        LookupSpares(w, w', ch, itt, pdu);
      }
    }
  }

  /** One more arrival under another tag, or after the channel's stretch, is none of its own. */
  lemma StretchStays<T>(log: seq<Arrival<T>>, a: Arrival<T>, from: nat, until: Option<nat>, itt: u32)
    requires from <= |log| && (until.Some? ==> from <= until.value <= |log|) && (until.None? ==> a.itt != itt)
    ensures var end := if until.Some? then until.value else |log|;
      var end' := if until.Some? then until.value else |log| + 1;
      Project((log + [a])[from..end'], itt) == Project(log[from..end], itt)
  {
    if until.None? {
      assert (log + [a])[from..|log| + 1] == log[from..|log|] + [a];
      ProjectSnoc(log[from..|log|], a, itt);
    } else {
      assert (log + [a])[from..until.value] == log[from..until.value];
    }
  }

  /** A lookup leaves alone a channel that it does not find. */
  lemma LookupSpares<T>(w: World<T>, w': World<T>, ch: nat, itt: u32, pdu: T)
    requires Inv(w) && w.t.flight == None && w' == Advance(w, Lookup(itt, pdu)) && Wired(w'.t)
    requires ch < |w.t.chans| && !(itt in w.t.pending && w.t.pending[itt] == ch)
    ensures ChanInv(w', ch)
  {
    assert ChanInv(w, ch);
    var c := w.t.chans[ch];
    assert w'.until[ch] == w.until[ch];
    assert Contents(w'.t, ch) == Contents(w.t, ch);
    StretchStays(w.log, Arrival(itt, pdu), w.from[ch], w.until[ch], c.itt);
  }

  /** The channel that a lookup finds gets one more PDU, which is one more arrival under its tag. */
  lemma LookupFills<T>(w: World<T>, w': World<T>, ch: nat, itt: u32, pdu: T)
    requires Inv(w) && w.t.flight == None && w' == Advance(w, Lookup(itt, pdu)) && Wired(w'.t)
    requires ch < |w.t.chans| && itt in w.t.pending && w.t.pending[itt] == ch
    ensures ChanInv(w', ch)
  {
    assert ChanInv(w, ch);
    var from := w.from[ch];
    assert Contents(w.t, ch) == w.t.chans[ch].taken + w.t.chans[ch].queue;
    assert Contents(w'.t, ch) == Contents(w.t, ch) + [pdu];
    assert w'.log[from..|w'.log|] == w.log[from..|w.log|] + [Arrival(itt, pdu)];
    ProjectSnoc(w.log[from..|w.log|], Arrival(itt, pdu), itt);
  }

  lemma StepKeepsInv<T>(w: World<T>, step: Step<T>)
    requires Inv(w) && Enabled(w.t, step)
    ensures Inv(Advance(w, step))
  {
    match step
    case Register => NewChannelKeepsInv(w, step);
    case RegisterPersistent(_) => NewChannelKeepsInv(w, step);
    case Lookup(itt, pdu) => LookupKeepsInv(w, itt, pdu);
    case Unregister(_) => RemovalKeepsInv(w, step);
    case UnregisterAndClose(_) => RemovalKeepsInv(w, step);
    case _ => TrafficKeepsInv(w, step);
  }

  // ---- Runs ----------------------------------------------------------------------------

  /** The steps are possible one after the other. */
  ghost predicate Possible<T>(w: World<T>, steps: seq<Step<T>>)
    decreases |steps|
  {
    steps == []
    || (Wired(w.t) && Enabled(w.t, steps[0]) && |w.from| == |w.until| == |w.t.chans|
        && Possible(Advance(w, steps[0]), steps[1..]))
  }

  ghost function After<T>(w: World<T>, steps: seq<Step<T>>): World<T>
    requires Possible(w, steps)
    decreases |steps|
  {
    if steps == [] then w else After(Advance(w, steps[0]), steps[1..])
  }

  lemma {:induction false} RunKeepsInv<T>(w: World<T>, steps: seq<Step<T>>)
    requires Inv(w) && Possible(w, steps)
    ensures Inv(After(w, steps))
    decreases |steps|
  {
    if steps != [] {
      StepKeepsInv(w, steps[0]);
      RunKeepsInv(Advance(w, steps[0]), steps[1..]);
    }
  }

  /**
   * Demultiplexing is projection. Whatever the interleaving of registrations, arrivals,
   * sends, reads and removals: what a channel's reader has taken, then what is queued, then
   * what is on the way, are exactly the arrivals with the channel's tag from its
   * registration to its end, in their order. At most `capacity` of them are queued, and
   * nothing is on the way to a closed channel.
   */
  lemma DemultiplexingIsProjection<T>(persistentDepth: int, steps: seq<Step<T>>, ch: nat)
    requires Possible(Start(persistentDepth), steps)
    requires ch < |After(Start(persistentDepth), steps).t.chans|
    ensures var w := After(Start(persistentDepth), steps);
      && Inv(w)
      && var c := w.t.chans[ch];
      && w.from[ch] <= EndOf(w, ch) <= |w.log|
      && Contents(w.t, ch) == Project(w.log[w.from[ch]..EndOf(w, ch)], c.itt)
      && |c.queue| <= c.capacity
      && (c.closed ==> !(w.t.flight.Some? && w.t.flight.value.ch == ch))
  {
    var w := After(Start(persistentDepth), steps);
    RunKeepsInv(Start(persistentDepth), steps);
    assert ChanInv(w, ch);
  }

  /** A one-shot registration gets at most one PDU, and the send of it never has to wait. */
  lemma OneShotNeverBlocks<T>(persistentDepth: int, steps: seq<Step<T>>)
    requires Possible(Start(persistentDepth), steps)
    ensures var t := After(Start(persistentDepth), steps).t;
      && Wired(t)
      && (forall ch | 0 <= ch < |t.chans| && !t.chans[ch].persistent :: |Contents(t, ch)| <= 1)
      && (t.flight.Some? && !t.chans[t.flight.value.ch].persistent ==> Enabled(t, Step.Send))
  {
    var w := After(Start(persistentDepth), steps);
    RunKeepsInv(Start(persistentDepth), steps);
    forall ch | 0 <= ch < |w.t.chans| && !w.t.chans[ch].persistent
      ensures |Contents(w.t, ch)| <= 1
    {
      assert ChanInv(w, ch);
    }
    if w.t.flight.Some? {
      assert ChanInv(w, w.t.flight.value.ch);
    }
  }

  // ---- Tags --------------------------------------------------------------------------

  /** The tag of the k-th allocation from a counter on. */
  function TagAt(nextITT: u32, k: nat): u32
    decreases k
  {
    if k == 0 then TagOf(nextITT) else TagAt(AfterTag(nextITT), k - 1)
  }

  /** The tags that a run hands out, by Register and by AllocateITT, in order. */
  ghost function TagsOf<T>(w: World<T>, steps: seq<Step<T>>): seq<u32>
    requires Possible(w, steps)
    decreases |steps|
  {
    if steps == [] then []
    else
      (if steps[0].Register? || steps[0].AllocateITT? then [TagOf(w.t.nextITT)] else [])
      + TagsOf(Advance(w, steps[0]), steps[1..])
  }

  const PERIOD: nat := 0xFFFF_FFFF

  /** Allocation in closed form: counting modulo 2^32 - 1. */
  lemma {:induction false} AllocationIsCyclic(nextITT: u32, k: nat)
    ensures TagAt(nextITT, k) == (TagOf(nextITT) + k) % PERIOD
    decreases k
  {
    if k > 0 {
      AllocationIsCyclic(AfterTag(nextITT), k - 1);
    }
  }

  lemma {:induction false} RunAllocatesInTurn<T>(w: World<T>, steps: seq<Step<T>>, k: nat)
    requires Possible(w, steps) && k < |TagsOf(w, steps)|
    ensures TagsOf(w, steps)[k] == TagAt(w.t.nextITT, k)
    decreases |steps|
  {
    var w' := Advance(w, steps[0]);
    if steps[0].Register? || steps[0].AllocateITT? {
      if k > 0 {
        RunAllocatesInTurn(w', steps[1..], k - 1);
      }
    } else {
      RunAllocatesInTurn(w', steps[1..], k);
    }
  }

  /** However the two ways of allocating are mixed with each other and with all else. */
  lemma RunAllocatesCyclically<T>(w: World<T>, steps: seq<Step<T>>, k: nat)
    requires Possible(w, steps) && k < |TagsOf(w, steps)|
    ensures TagsOf(w, steps)[k] == (TagOf(w.t.nextITT) + k) % PERIOD
    ensures TagsOf(w, steps)[k] != RESERVED
  {
    RunAllocatesInTurn(w, steps, k);
    AllocationIsCyclic(w.t.nextITT, k);
  }

  /** Any 2^32 - 1 tags handed out in a row are pairwise distinct, and the next one repeats the first. */
  lemma TagsAreDistinct<T>(w: World<T>, steps: seq<Step<T>>, i: nat, j: nat)
    requires Possible(w, steps) && i < j < |TagsOf(w, steps)| && j - i <= PERIOD
    ensures TagsOf(w, steps)[i] == TagsOf(w, steps)[j] <==> j - i == PERIOD
  {
    RunAllocatesCyclically(w, steps, i);
    RunAllocatesCyclically(w, steps, j);
  }
}
