/**
 * Dispatch of PDUs to their tasks by Initiator Task Tag. A channel is known by its place
 * in the list of channels made so far. A dispatch looks its entry up under the lock and
 * sends after releasing it, so that other calls may come in between the two.
 */
module Router {
  import opened Prelude

  const RESERVED: u32 := 0xFFFF_FFFF
  const DEFAULT_DEPTH: nat := 64

  // ---- Tags --------------------------------------------------------------------------

  /** The tag that the next allocation hands out. */
  function TagOf(nextITT: u32): (itt: u32)
    ensures itt != RESERVED
  {
    if nextITT == RESERVED then 0 else nextITT
  }

  function AfterTag(nextITT: u32): (next: u32)
    ensures next != RESERVED
  {
    if TagOf(nextITT) + 1 == RESERVED then 0 else TagOf(nextITT) + 1
  }

  // ---- State -------------------------------------------------------------------------

  /** A channel with what is queued on it and what its reader has taken from it so far. */
  datatype Chan<T> = Chan(itt: u32, persistent: bool, capacity: nat, queue: seq<T>, taken: seq<T>, closed: bool)

  /** A send that the dispatcher is in. */
  datatype Flight<T> = Flight(ch: nat, pdu: T)

  datatype Table<T> = Table(pending: map<u32, nat>, nextITT: u32, depth: nat, chans: seq<Chan<T>>,
                            flight: Option<Flight<T>>)

  function Fresh<T>(persistentDepth: int): (t: Table<T>)
  {
    Table(map[], 0, if persistentDepth <= 0 then DEFAULT_DEPTH else persistentDepth, [], None)
  }

  datatype Step<T> =
    | Register
    | RegisterPersistent(itt: u32)
    | AllocateITT
    | Lookup(itt: u32, pdu: T)
    | Send
    | Receive(ch: nat)
    | Unregister(itt: u32)
    | UnregisterAndClose(itt: u32)

  /** Channels that can be named are there. */
  predicate Wired<T>(t: Table<T>) {
    && (forall itt | itt in t.pending :: t.pending[itt] < |t.chans|)
    && (t.flight.Some? ==> t.flight.value.ch < |t.chans|)
  }

  predicate HasRoom<T>(c: Chan<T>) {
    |c.queue| < c.capacity
  }

  /**
   * A send needs room on a channel that is not closed. There is one dispatcher, so it looks
   * up again only after its send. Closing is left to callers that know there is no send on the way.
   */
  predicate Enabled<T>(t: Table<T>, step: Step<T>)
    requires Wired(t)
  {
    match step
    case Lookup(_, _) => t.flight == None
    case Send => t.flight.Some? && HasRoom(t.chans[t.flight.value.ch])
    case Receive(ch) => ch < |t.chans| && t.chans[ch].queue != []
    case UnregisterAndClose(_) => t.flight == None
    case _ => true
  }

  function Push<T>(c: Chan<T>, pdu: T): Chan<T> {
    c.(queue := c.queue + [pdu])
  }

  function Take<T>(c: Chan<T>): Chan<T>
    requires c.queue != []
  {
    c.(queue := c.queue[1..], taken := c.taken + [c.queue[0]])
  }

  function Next<T>(t: Table<T>, step: Step<T>): Table<T>
    requires Wired(t) && Enabled(t, step)
  {
    match step
    case Register =>
      var itt := TagOf(t.nextITT);
      t.(nextITT := AfterTag(t.nextITT), pending := t.pending[itt := |t.chans|],
         chans := t.chans + [Chan(itt, false, 1, [], [], false)])
    case RegisterPersistent(itt) =>
      t.(pending := t.pending[itt := |t.chans|], chans := t.chans + [Chan(itt, true, t.depth, [], [], false)])
    case AllocateITT => t.(nextITT := AfterTag(t.nextITT))
    case Lookup(itt, pdu) =>
      if itt !in t.pending then t
      else
        var ch := t.pending[itt];
        t.(flight := Some(Flight(ch, pdu)), pending := if t.chans[ch].persistent then t.pending else t.pending - {itt})
    case Send =>
      var f := t.flight.value;
      t.(flight := None, chans := t.chans[f.ch := Push(t.chans[f.ch], f.pdu)])
    case Receive(ch) => t.(chans := t.chans[ch := Take(t.chans[ch])])
    case Unregister(itt) => t.(pending := t.pending - {itt})
    case UnregisterAndClose(itt) =>
      if itt in t.pending && t.chans[t.pending[itt]].persistent then
        var ch := t.pending[itt];
        t.(pending := t.pending - {itt}, chans := t.chans[ch := t.chans[ch].(closed := true)])
      else t.(pending := t.pending - {itt})
  }

  class Router<T> {
    var pending: map<u32, nat>
    var nextITT: u32
    const persistentDepth: nat
    var chans: seq<Chan<T>>
    var flight: Option<Flight<T>>

    function State(): Table<T>
      reads this
    {
      Table(pending, nextITT, persistentDepth, chans, flight)
    }

    ghost predicate Valid()
      reads this
    {
      Wired(State())
    }

    constructor (persistentDepth: int)
      ensures Valid() && State() == Fresh<T>(persistentDepth)
    {
      this.persistentDepth := if persistentDepth <= 0 then DEFAULT_DEPTH else persistentDepth;
      pending, nextITT, chans, flight := map[], 0, [], None;
    }

    method Register() returns (itt: u32, ch: nat)
      requires Valid()
      modifies this
      ensures Valid() && State() == Next(old(State()), Step.Register)
      ensures itt == TagOf(old(nextITT)) && itt in pending && pending[itt] == ch == |old(chans)|
    {
      itt := nextITT;
      if itt == RESERVED {
        itt := 0;
      }
      nextITT := itt + 1;
      if nextITT == RESERVED {
        nextITT := 0;
      }
      ch := |chans|;
      chans := chans + [Chan(itt, false, 1, [], [], false)];
      pending := pending[itt := ch];
    }

    method RegisterPersistent(itt: u32) returns (ch: nat)
      requires Valid()
      modifies this
      ensures Valid() && State() == Next(old(State()), Step.RegisterPersistent(itt))
      ensures itt in pending && pending[itt] == ch == |old(chans)|
    {
      ch := |chans|;
      chans := chans + [Chan(itt, true, persistentDepth, [], [], false)];
      pending := pending[itt := ch];
    }

    method AllocateITT() returns (itt: u32)
      requires Valid()
      modifies this`nextITT
      ensures Valid() && State() == Next(old(State()), Step.AllocateITT)
      ensures itt == TagOf(old(nextITT))
    {
      itt := nextITT;
      if itt == RESERVED {
        itt := 0;
      }
      nextITT := itt + 1;
      if nextITT == RESERVED {
        nextITT := 0;
      }
    }

    /** The part of a dispatch under the lock, and the send if there is room for it at once. */
    method Dispatch(itt: u32, pdu: T) returns (found: bool)
      requires Valid() && flight == None
      modifies this
      ensures Valid() && found == (itt in old(pending))
      ensures var looked := Next(old(State()), Lookup(itt, pdu));
        State() == if Enabled(looked, Step.Send) then Next(looked, Step.Send) else looked
    {
      found := itt in pending;
      if !found {
        return;
      }
      var ch := pending[itt];
      if !chans[ch].persistent {
        pending := pending - {itt};
      }
      flight := Some(Flight(ch, pdu));
      if HasRoom(chans[ch]) {
        Send();
      }
    }

    method Send()
      requires Valid() && Enabled(State(), Step.Send)
      modifies this`flight, this`chans
      ensures Valid() && State() == Next(old(State()), Step.Send)
    {
      var f := flight.value;
      chans := chans[f.ch := Push(chans[f.ch], f.pdu)];
      flight := None;
    }

    method Receive(ch: nat) returns (pdu: T)
      requires Valid() && Enabled(State(), Step.Receive(ch))
      modifies this`chans
      ensures Valid() && State() == Next(old(State()), Step.Receive(ch)) && pdu == old(chans[ch].queue[0])
    {
      pdu := chans[ch].queue[0];
      chans := chans[ch := Take(chans[ch])];
    }

    method Unregister(itt: u32)
      requires Valid()
      modifies this`pending
      ensures Valid() && State() == Next(old(State()), Step.Unregister(itt))
    {
      pending := pending - {itt};
    }

    method UnregisterAndClose(itt: u32)
      requires Valid() && flight == None
      modifies this`pending, this`chans
      ensures Valid() && State() == Next(old(State()), Step.UnregisterAndClose(itt))
    {
      if itt in pending && chans[pending[itt]].persistent {
        var ch := pending[itt];
        chans := chans[ch := chans[ch].(closed := true)];
      }
      pending := pending - {itt};
    }
  }
}
