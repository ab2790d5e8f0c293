/**
 * The read pump: it reads PDUs off the connection one by one and hands each to the task
 * that waits for it, or, if the target sent it unasked, to the session.
 */
module Pump {
  import opened Prelude
  import opened Io
  import BufferPool
  import opened Framer
  import opened Framing
  import opened Router
  import opened RouterRuns
  import Bhs
  import M = Mailbox

  const OP_NOP_IN: int := 0x20

  function OpcodeOf(p: RawPdu): int
    requires WellFormed(p)
  {
    p.bhs[0] as int % 0x40
  }

  function IttOf(p: RawPdu): u32
    requires WellFormed(p)
  {
    DecodeU32(BigEndian, p.bhs[16..20])
  }

  predicate IsNopIn(p: RawPdu) {
    WellFormed(p) && OpcodeOf(p) == OP_NOP_IN
  }

  /** The PDUs that the target sent unasked. */
  function Unasked(ps: seq<RawPdu>): seq<RawPdu>
    requires forall p | p in ps :: WellFormed(p)
  {
    if ps == [] then []
    else Unasked(ps[..|ps| - 1]) + if IttOf(ps[|ps| - 1]) == RESERVED then [ps[|ps| - 1]] else []
  }

  /** The PDUs that answer something, under their tags. */
  function Arrivals(ps: seq<RawPdu>): seq<Arrival<RawPdu>>
    requires forall p | p in ps :: WellFormed(p)
  {
    if ps == [] then []
    else
      Arrivals(ps[..|ps| - 1])
      + if IttOf(ps[|ps| - 1]) == RESERVED then [] else [Arrival(IttOf(ps[|ps| - 1]), ps[|ps| - 1])]
  }

  function NopIns(ps: seq<RawPdu>): seq<RawPdu> {
    if ps == [] then [] else NopIns(ps[..|ps| - 1]) + if IsNopIn(ps[|ps| - 1]) then [ps[|ps| - 1]] else []
  }

  /** `seen` falls into the PDUs kept and those lost, each in order, and no NOP-In is lost. */
  ghost predicate Splits(seen: seq<RawPdu>, kept: seq<RawPdu>, lost: seq<RawPdu>)
    decreases |seen|
  {
    if seen == [] then kept == [] && lost == []
    else
      var init, p := seen[..|seen| - 1], seen[|seen| - 1];
      || (kept != [] && kept[|kept| - 1] == p && Splits(init, kept[..|kept| - 1], lost))
      || (lost != [] && lost[|lost| - 1] == p && !IsNopIn(p) && Splits(init, kept, lost[..|lost| - 1]))
  }

  lemma SplitsKeep(seen: seq<RawPdu>, kept: seq<RawPdu>, lost: seq<RawPdu>, p: RawPdu)
    requires Splits(seen, kept, lost)
    ensures Splits(seen + [p], kept + [p], lost)
    ensures !IsNopIn(p) ==> Splits(seen + [p], kept, lost + [p])
  {
    assert (seen + [p])[..|seen|] == seen && (kept + [p])[..|kept|] == kept && (lost + [p])[..|lost|] == lost;
  }

  /** No NOP-In is lost or displaced, and every PDU is accounted for. */
  lemma {:induction false} SplitsConserve(seen: seq<RawPdu>, kept: seq<RawPdu>, lost: seq<RawPdu>)
    requires Splits(seen, kept, lost)
    ensures NopIns(kept) == NopIns(seen) && |seen| == |kept| + |lost|
    decreases |seen|
  {
    if seen != [] {
      var init, p := seen[..|seen| - 1], seen[|seen| - 1];
      if kept != [] && kept[|kept| - 1] == p && Splits(init, kept[..|kept| - 1], lost) {
        SplitsConserve(init, kept[..|kept| - 1], lost);
      } else {
        SplitsConserve(init, kept, lost[..|lost| - 1]);
      }
    }
  }

  /**
   * What happens beside the pump during one of its rounds: the context may be cancelled,
   * the session takes PDUs from its channel, and the router's other users act. `gaveUp` is
   * a cancellation that the pump sees while it hands over a NOP-In.
   */
  datatype Moment = Moment(cancelled: bool, gaveUp: bool, takes: nat, acts: seq<Step<RawPdu>>)

  datatype Exit = ReadFailure(error: ReadError) | Cancelled

  class Pump {
    const router: Router<RawPdu>
    const depth: nat
    /** The channel of PDUs that the target sent unasked, and what has been taken from it. */
    var inbox: seq<RawPdu>
    var taken: seq<RawPdu>
    var drops: nat
    ghost var world: World<RawPdu>
    ghost var unasked: seq<RawPdu>
    ghost var lost: seq<RawPdu>
    /** What has happened on the channel so far. */
    ghost var beats: seq<M.Beat<RawPdu>>

    ghost predicate Valid()
      reads this, router
    {
      && router.Valid() && world.t == router.State() && Inv(world) && router.flight == None
      && 0 < depth && |inbox| <= depth
      && drops == |lost| && Splits(unasked, taken + inbox, lost)
      && Boxed()
    }

    /** The channel is as its history has left it. */
    ghost predicate Boxed()
      reads this
    {
      M.Possible(depth, beats) && M.Run(depth, beats) == M.Box(inbox, taken, lost)
    }

    constructor (router: Router<RawPdu>, depth: nat, ghost world: World<RawPdu>)
      requires router.Valid() && world.t == router.State() && Inv(world) && router.flight == None && depth > 0
      ensures Valid() && this.router == router && this.world == world
      ensures unasked == [] && drops == 0 && taken + inbox == [] && beats == []
    {
      this.router, this.depth, this.world := router, depth, world;
      inbox, taken, drops, unasked, lost, beats := [], [], 0, [], [], [];
    }

    /** The session takes the next PDU. */
    method TakeOne()
      requires Valid() && inbox != []
      modifies this
      ensures Valid() && |inbox| == |old(inbox)| - 1 && taken + inbox == old(taken + inbox)
      ensures world == old(world) && unasked == old(unasked) && lost == old(lost) && drops == old(drops)
      ensures beats == old(beats) + [M.Took]
    {
      M.OneMoreBeat(depth, beats, M.Took);
      beats := beats + [M.Took];
      taken, inbox := taken + [inbox[0]], inbox[1..];
      assert taken + inbox == old(taken + inbox);
    }

    /** One step of another user of the router, if it is possible now. */
    method Act(step: Step<RawPdu>)
      requires Valid()
      modifies router, this`world
      ensures Valid() && world.log == old(world.log)
    {
      if step.Lookup? || step.Send? || (step.Receive? && !Enabled(router.State(), step)) {
        return;
      }
      StepKeepsInv(world, step);
      world := Advance(world, step);
      match step
      case Register => var itt, ch := router.Register();
      case RegisterPersistent(itt) => var ch := router.RegisterPersistent(itt);
      case AllocateITT => var itt := router.AllocateITT();
      case Receive(ch) => var pdu := router.Receive(ch);
      case Unregister(itt) => router.Unregister(itt);
      case UnregisterAndClose(itt) => router.UnregisterAndClose(itt);
    }

    method Others(m: Moment)
      requires Valid()
      modifies this, router
      ensures Valid() && world.log == old(world.log) && unasked == old(unasked)
    {
      for i := 0 to m.takes
        invariant Valid() && world.log == old(world.log) && unasked == old(unasked)
      {
        if inbox != [] {
          TakeOne();
        }
      }
      for i := 0 to |m.acts|
        invariant Valid() && world.log == old(world.log) && unasked == old(unasked)
      {
        Act(m.acts[i]);
      }
    }

    /** A PDU that the target sent unasked goes on the session's channel. */
    method Enqueue(p: RawPdu)
      requires Valid() && |inbox| < depth
      modifies this
      ensures Valid() && world == old(world) && unasked == old(unasked) + [p] && beats == old(beats) + [M.Came(p)]
      ensures inbox == old(inbox) + [p] && taken == old(taken) && drops == old(drops)
    {
      SplitsKeep(unasked, taken + inbox, lost, p);
      Assoc(taken, inbox, [p]);
      M.OneMoreBeat(depth, beats, M.Came(p));
      beats := beats + [M.Came(p)];
      inbox, unasked := inbox + [p], unasked + [p];
    }

    method Drop(p: RawPdu)
      requires Valid() && !IsNopIn(p) && |inbox| == depth
      modifies this
      ensures Valid() && world == old(world) && unasked == old(unasked) + [p] && beats == old(beats) + [M.Came(p)]
      ensures inbox == old(inbox) && taken == old(taken) && drops == old(drops) + 1
    {
      SplitsKeep(unasked, taken + inbox, lost, p);
      M.OneMoreBeat(depth, beats, M.Came(p));
      beats := beats + [M.Came(p)];
      unasked, lost, drops := unasked + [p], lost + [p], drops + 1;
    }

    /** For a NOP-In the pump waits until there is room; any other PDU is dropped if there is none. */
    method HandUnasked(p: RawPdu, m: Moment) returns (gaveUp: bool)
      requires Valid()
      modifies this
      ensures Valid() && world == old(world)
      ensures gaveUp ==> unasked == old(unasked) && m.gaveUp && IsNopIn(p)
      ensures gaveUp ==> inbox == old(inbox) && taken == old(taken) && beats == old(beats)
      ensures !gaveUp ==> unasked == old(unasked) + [p]
      ensures !gaveUp ==>
        beats == old(beats) + (if IsNopIn(p) && |old(inbox)| == depth then [M.Took] else []) + [M.Came(p)]
      ensures drops == old(drops) + if !IsNopIn(p) && |old(inbox)| == depth then 1 else 0
    {
      if IsNopIn(p) && m.gaveUp {
        return true;
      }
      gaveUp := false;
      if |inbox| < depth {
        Enqueue(p);
      } else if IsNopIn(p) {
        TakeOne();
        Enqueue(p);
      } else {
        Drop(p);
      }
    }

    /** A PDU for a task. The send waits for the task if its channel is full. */
    method HandToTask(itt: u32, p: RawPdu)
      requires Valid()
      modifies router, this`world
      ensures Valid() && world.log == old(world.log) + [Arrival(itt, p)]
    {
      StepKeepsInv(world, Lookup(itt, p));
      world := Advance(world, Lookup(itt, p));
      ghost var looked := world;
      var found := router.Dispatch(itt, p);
      if router.flight.Some? {
        assert !Enabled(looked.t, Step.Send);
        var ch := router.flight.value.ch;
        assert ChanInv(looked, ch);
        StepKeepsInv(world, Step.Receive(ch));
        world := Advance(world, Step.Receive(ch));
        var head := router.Receive(ch);
        StepKeepsInv(world, Step.Send);
        world := Advance(world, Step.Send);
        router.Send();
      } else if looked.t.flight.Some? {
        StepKeepsInv(looked, Step.Send);
        world := Advance(looked, Step.Send);
      }
    }

    /** One PDU off the wire: by its tag to a task, or to the session. */
    method HandOver(p: RawPdu, m: Moment) returns (gaveUp: bool)
      requires Valid() && WellFormed(p)
      modifies this, router
      ensures Valid()
      ensures gaveUp ==> world.log == old(world.log) && unasked == old(unasked) && m.gaveUp && IsNopIn(p)
      ensures !gaveUp ==> world.log == old(world.log) + Arrivals([p]) && unasked == old(unasked) + Unasked([p])
    {
      assert [p][..0] == [];
      var itt := IttOf(p);
      if itt == RESERVED {
        gaveUp := HandUnasked(p, m);
      } else {
        gaveUp := false;
        HandToTask(itt, p);
      }
    }

    /** The PDUs handed over since the given point of the history. */
    ghost predicate HandedOver(log: seq<Arrival<RawPdu>>, unasked: seq<RawPdu>, ps: seq<RawPdu>)
      reads this
    {
      && (forall p | p in ps :: WellFormed(p))
      && world.log == log + Arrivals(ps) && this.unasked == unasked + Unasked(ps)
    }

    /** A PDU that has been read, handed over. */
    method Another(p: RawPdu, m: Moment, ghost log: seq<Arrival<RawPdu>>, ghost unasked: seq<RawPdu>,
                   ghost ps: seq<RawPdu>)
      returns (gaveUp: bool)
      requires Valid() && WellFormed(p) && HandedOver(log, unasked, ps)
      modifies this, router
      ensures Valid() && HandedOver(log, unasked, if gaveUp then ps else ps + [p])
    {
      AnotherHandedOver(ps, p);
      gaveUp := HandOver(p, m);
    }

    /** One round of the loop: a read, and the PDU handed over. */
    method Round(r: Source, pool: BufferPool.Pool, d: Digests, crc: Checksum, m: Moment, ghost input: bytes,
                 ghost log: seq<Arrival<RawPdu>>, ghost unasked: seq<RawPdu>, ghost ps: seq<RawPdu>)
      returns (exit: Option<Exit>, ghost ps': seq<RawPdu>)
      requires Valid() && r.Valid() && pool.Valid()
      requires HandedOver(log, unasked, ps) && ReadSoFar(d, crc, input, r.broken, ps, r.data[r.pos..])
      modifies this, router, r, pool, pool.Free()
      ensures Valid() && r.Valid() && pool.Valid() && fresh(pool.Free() - old(pool.Free()))
      ensures HandedOver(log, unasked, ps')
      ensures exit == None ==> ReadSoFar(d, crc, input, r.broken, ps', r.data[r.pos..]) && r.pos > old(r.pos)
      ensures exit.Some? ==> ps' == ps && Ends(d, crc, r.data[old(r.pos)..], r.broken, exit.value)
    {
      ps' := ps;
      Others(m);
      if m.cancelled {
        return Some(Cancelled), ps;
      }
      var result := ReadNext(r, pool, d, crc, input, ps);
      if result.Failed? {
        return Some(ReadFailure(result.error)), ps;
      }
      var gaveUp := Another(result.pdu, m, log, unasked, ps);
      if gaveUp {
        return Some(Cancelled), ps;
      }
      return None, ps + [result.pdu];
    }

    /**
     * The pump's loop. It ends with the first read that fails, or on cancellation. `ps` are
     * the PDUs handed over: the first ones on the stream, one after the other, and every
     * one of them went where its tag says.
     */
    method ReadPump(r: Source, pool: BufferPool.Pool, d: Digests, crc: Checksum, moments: nat -> Moment)
      returns (exit: Exit, ghost ps: seq<RawPdu>, ghost rest: bytes)
      requires Valid() && r.Valid() && pool.Valid()
      modifies this, router, r, pool, pool.Free()
      ensures Valid() && HandedOver(old(world.log), old(unasked), ps)
      ensures ReadSoFar(d, crc, r.data[old(r.pos)..], r.broken, ps, rest) && Ends(d, crc, rest, r.broken, exit)
    {
      ghost var input, log, was := r.data[r.pos..], world.log, unasked;
      ps := [];
      var k := 0;
      while true
        invariant Valid() && r.Valid() && pool.Valid() && fresh(pool.Free() - old(pool.Free()))
        invariant HandedOver(log, was, ps) && ReadSoFar(d, crc, input, r.broken, ps, r.data[r.pos..])
        decreases |r.data| - r.pos
      {
        rest := r.data[r.pos..];
        var end;
        end, ps := Round(r, pool, d, crc, moments(k), input, log, was, ps);
        if end.Some? {
          return end.value, ps, rest;
        }
        k := k + 1;
      }
    }
  }

  method ReadNext(r: Source, pool: BufferPool.Pool, d: Digests, crc: Checksum, ghost input: bytes,
                  ghost ps: seq<RawPdu>)
    returns (result: ReadResult)
    requires r.Valid() && pool.Valid() && ReadSoFar(d, crc, input, r.broken, ps, r.data[r.pos..])
    modifies r, pool, pool.Free()
    ensures r.Valid() && pool.Valid() && fresh(pool.Free() - old(pool.Free()))
    ensures result.Failed? ==> Ends(d, crc, r.data[old(r.pos)..], r.broken, ReadFailure(result.error))
    ensures result.Got? ==> WellFormed(result.pdu) && r.pos > old(r.pos)
    ensures result.Got? ==> ReadSoFar(d, crc, input, r.broken, ps + [result.pdu], r.data[r.pos..])
  {
    ghost var rest := r.data[r.pos..];
    result := ReadRawPDU(r, pool, d, crc);
    if result.Got? {
      ReadIsWellFormed(d, crc, rest, r.broken);
      ReadManySnoc(d, crc, input, r.broken, ps, rest, result.pdu, ReadOf(d, crc, rest, r.broken).taken);
      assert rest[ReadOf(d, crc, rest, r.broken).taken..] == r.data[r.pos..];
    }
  }

  /** Reading |ps| PDUs from the input has given ps and left `rest`. */
  ghost predicate ReadSoFar(d: Digests, crc: Checksum, input: bytes, broken: bool, ps: seq<RawPdu>, rest: bytes) {
    ReadMany(d, crc, input, broken, |ps|) == (ps, rest)
  }

  /** A read from `rest` fails with the error reported, unless the pump was told to stop. */
  ghost predicate Ends(d: Digests, crc: Checksum, rest: bytes, broken: bool, exit: Exit) {
    exit.ReadFailure? ==> ReadOf(d, crc, rest, broken).result == Failed(exit.error)
  }

  /** The first read of several, taken on its own. */
  lemma ReadFirst(d: Digests, crc: Checksum, input: bytes, broken: bool, ps: seq<RawPdu>, rest: bytes)
    requires ps != []
    ensures var o := ReadOf(d, crc, input, broken);
      ReadSoFar(d, crc, input, broken, ps, rest)
      <==> o.result == Got(ps[0]) && ReadSoFar(d, crc, input[o.taken..], broken, ps[1..], rest)
  {
    var o := ReadOf(d, crc, input, broken);
    if o.result.Got? {
      var (more, left) := ReadMany(d, crc, input[o.taken..], broken, |ps| - 1);
      assert [o.result.pdu] + more == ps <==> o.result.pdu == ps[0] && more == ps[1..] by {
        assert ([o.result.pdu] + more)[1..] == more;
        assert [ps[0]] + ps[1..] == ps;
      }
    }
  }

  lemma {:induction false} ReadManySnoc(d: Digests, crc: Checksum, input: bytes, broken: bool, ps: seq<RawPdu>,
                                        rest: bytes, p: RawPdu, taken: nat)
    requires ReadSoFar(d, crc, input, broken, ps, rest) && ReadOf(d, crc, rest, broken) == ReadOutcome(Got(p), taken)
    ensures ReadSoFar(d, crc, input, broken, ps + [p], rest[taken..])
    decreases |ps|
  {
    ReadFirst(d, crc, input, broken, ps + [p], rest[taken..]);
    if ps == [] {
      assert ([] + [p])[1..] == [];
    } else {
      var o := ReadOf(d, crc, input, broken);
      ReadFirst(d, crc, input, broken, ps, rest);
      ReadManySnoc(d, crc, input[o.taken..], broken, ps[1..], rest, p, taken);
      assert (ps + [p])[1..] == ps[1..] + [p];
    }
  }

  lemma AnotherHandedOver(ps: seq<RawPdu>, p: RawPdu)
    requires WellFormed(p) && forall q | q in ps :: WellFormed(q)
    ensures Arrivals(ps + [p]) == Arrivals(ps) + Arrivals([p]) && Unasked(ps + [p]) == Unasked(ps) + Unasked([p])
  {
    assert (ps + [p])[..|ps|] == ps && [p][..0] == [];
  }

  /** Opcode and tag are those of the PDU that the header decodes to; NOP-Ins are what decodes as such. */
  lemma PeeksRight(p: RawPdu)
    requires WellFormed(p)
    ensures var q := Bhs.Decode(p.bhs);
      && (IsNopIn(p) <==> q.Some? && q.value.NopIn?)
      && (q.Some? ==> IttOf(p) == q.value.h.itt)
      && (q.Some? ==> (IttOf(p) == RESERVED <==> q.value.h.itt == 0xFFFF_FFFF))
  {
  }

  /**
   * No NOP-In is ever lost: in every state the ones that the session has taken or will find
   * on its channel are all that were handed over, in order; and every other PDU that the
   * target sent unasked is either there too or counted as dropped.
   */
  lemma NopInsAreNeverDropped(pump: Pump)
    requires pump.Valid()
    ensures NopIns(pump.taken + pump.inbox) == NopIns(pump.unasked)
    ensures |pump.unasked| == |pump.taken| + |pump.inbox| + pump.drops
  {
    SplitsConserve(pump.unasked, pump.taken + pump.inbox, pump.lost);
  }

  /**
   * In every state as many have been dropped as the target was ever ahead of the session at most,
   * beyond the depth of the channel.
   */
  lemma DropsAreExact(pump: Pump)
    requires pump.Valid()
    ensures forall k | 0 <= k <= |pump.beats| :: M.Excess(pump.depth, pump.beats, k) <= pump.drops
    ensures pump.drops == 0
            || exists k | 0 <= k <= |pump.beats| :: M.Excess(pump.depth, pump.beats, k) == pump.drops
  {
    M.DropsAreExact(pump.depth, pump.beats);
  }
}
