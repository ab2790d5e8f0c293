/**
 * Reusable byte buffers in three size classes. Buffers come back unzeroed: all that a
 * caller may count on is the capacity, and that nobody else holds the buffer.
 */
module BufferPool {
  import opened Prelude

  const SMALL: nat := 4096
  const MEDIUM: nat := 65536
  const LARGE: nat := 16777216
  const TIER_MAX: int := 256

  datatype Tier = Small | Medium | Large | Unpooled

  /** The tier that a request of the given size is served from. */
  function TierFor(size: nat): Tier {
    if size <= SMALL then Small else if size <= MEDIUM then Medium else if size <= LARGE then Large else Unpooled
  }

  /** The tier that a buffer of the given capacity goes back to. */
  function TierOf(capacity: nat): Tier {
    if capacity >= LARGE then Large else if capacity >= MEDIUM then Medium
    else if capacity >= SMALL then Small else Unpooled
  }

  /** A buffer that went back to a tier is large enough for every request to that tier. */
  lemma TiersFit(size: nat, capacity: nat)
    requires TierFor(size) == TierOf(capacity) && TierOf(capacity) != Unpooled
    ensures size <= capacity
  {
  }

  class Pool {
    var small: set<array<byte>>
    var medium: set<array<byte>>
    var large: set<array<byte>>
    var smallCount: int
    var mediumCount: int
    var largeCount: int

    ghost predicate Valid()
      reads this
    {
      && (forall b | b in small :: TierOf(b.Length) == Small)
      && (forall b | b in medium :: TierOf(b.Length) == Medium)
      && (forall b | b in large :: TierOf(b.Length) == Large)
    }

    /** The buffers that nobody holds. */
    ghost function Free(): set<array<byte>>
      reads this
    {
      small + medium + large
    }

    constructor ()
      ensures Valid() && Free() == {}
    {
      small, medium, large := {}, {}, {};
      smallCount, mediumCount, largeCount := 0, 0, 0;
    }

    /** The sync.Pool underneath may forget buffers at any time, hence the free choice of a new one. */
    method GetBuffer(size: nat) returns (b: array<byte>)
      requires Valid()
      modifies this
      ensures Valid()
      ensures size <= b.Length
      ensures fresh(b) || b in old(Kept(TierFor(size)))
      ensures b !in Free() && Free() <= old(Free())
      ensures TierFor(size) == Unpooled ==> fresh(b) && b.Length == size
      ensures forall t :: Count(t) == old(Count(t)) - if t == TierFor(size) && t != Unpooled then 1 else 0
    {
      match TierFor(size)
      case Small =>
        smallCount := smallCount - 1;
        b := new byte[SMALL];
        if * {
          if reuse :| reuse in small {
            small := small - {reuse};
            b := reuse;
          }
        }
      case Medium =>
        mediumCount := mediumCount - 1;
        b := new byte[MEDIUM];
        if * {
          if reuse :| reuse in medium {
            medium := medium - {reuse};
            b := reuse;
          }
        }
      case Large =>
        largeCount := largeCount - 1;
        b := new byte[LARGE];
        if * {
          if reuse :| reuse in large {
            large := large - {reuse};
            b := reuse;
          }
        }
      case Unpooled =>
        b := new byte[size];
    }

    /** The buffers kept in a tier. */
    ghost function Kept(t: Tier): set<array<byte>>
      reads this
    {
      match t
      case Small => small
      case Medium => medium
      case Large => large
      case Unpooled => {}
    }

    /** The count of a tier, which every request lowers and every buffer kept raises. */
    function Count(t: Tier): int
      reads this
    {
      match t
      case Small => smallCount
      case Medium => mediumCount
      case Large => largeCount
      case Unpooled => TIER_MAX
    }

    /** A buffer is kept, in the tier of its capacity, exactly if that tier's count is below the bound. */
    method PutBuffer(b: array<byte>)
      requires Valid() && b !in Free()
      modifies this
      ensures Valid()
      ensures var keep := old(Count(TierOf(b.Length))) < TIER_MAX;
        && Free() == (if keep then old(Free()) + {b} else old(Free()))
        && (keep <==> b in Kept(TierOf(b.Length)))
        && forall t :: Count(t) == if keep && t == TierOf(b.Length) then old(Count(t)) + 1 else old(Count(t))
    {
      match TierOf(b.Length)
      case Large =>
        largeCount := largeCount + 1;
        if largeCount <= TIER_MAX {
          large := large + {b};
        } else {
          largeCount := largeCount - 1;
        }
      case Medium =>
        mediumCount := mediumCount + 1;
        if mediumCount <= TIER_MAX {
          medium := medium + {b};
        } else {
          mediumCount := mediumCount - 1;
        }
      case Small =>
        smallCount := smallCount + 1;
        if smallCount <= TIER_MAX {
          small := small + {b};
        } else {
          smallCount := smallCount - 1;
        }
      case Unpooled =>
    }
  }

  /** A buffer made for a request above every tier goes back into the largest one, which has room. */
  method OversizeBufferIsKept(pool: Pool, size: nat) returns (b: array<byte>)
    requires pool.Valid() && size > LARGE && pool.largeCount < TIER_MAX
    modifies pool
    ensures pool.Valid() && b.Length == size && b in pool.large
  {
    b := pool.GetBuffer(size);
    pool.PutBuffer(b);
  }
}
