/**
 * The streaming reader: a bounded channel of chunks with a partial-chunk reader at the
 * consuming end. Blocking operations are modelled by when they can proceed.
 */
module ChanReader {
  import opened Prelude

  const DEFAULT_DEPTH: nat := 128

  /** `err` is the terminal error, if any; a reader that ends cleanly has none. */
  datatype Reader<+E> = Reader(depth: nat, ch: seq<bytes>, current: bytes, err: Option<E>, closed: bool)

  datatype ReadResult<+E> = Data(data: bytes) | EndOfFile | ReadError(error: E)

  predicate CanSend<E>(r: Reader<E>) {
    !r.closed && |r.ch| < r.depth
  }

  /** Read proceeds when there is a chunk to take, or none will ever come. */
  predicate CanRead<E>(r: Reader<E>) {
    r.current != [] || r.ch != [] || r.closed
  }

  function Sent<E>(r: Reader<E>, chunk: bytes): Reader<E> {
    r.(ch := r.ch + [chunk])
  }

  /** Only the first close counts. */
  function Closed<E>(r: Reader<E>, err: Option<E>): Reader<E> {
    if r.closed then r else r.(closed := true, err := err)
  }

  function ReadOutcome<E>(r: Reader<E>, n: nat): ReadResult<E>
    requires CanRead(r)
  {
    if r.current != [] then Data(r.current[..Min(n, |r.current|)])
    else if r.ch != [] then Data(r.ch[0][..Min(n, |r.ch[0]|)])
    else if r.err.Some? then ReadError(r.err.value)
    else EndOfFile
  }

  function AfterRead<E>(r: Reader<E>, n: nat): Reader<E>
    requires CanRead(r)
  {
    if r.current != [] then r.(current := r.current[Min(n, |r.current|)..])
    else if r.ch != [] then r.(ch := r.ch[1..], current := r.ch[0][Min(n, |r.ch[0]|)..])
    else r
  }

  class ChanReader<E> {
    var depth: nat
    var ch: seq<bytes>
    var current: bytes
    var err: Option<E>
    var closed: bool

    function View(): Reader<E>
      reads this
    {
      Reader(depth, ch, current, err, closed)
    }

    constructor (depth: int)
      ensures View() == Reader(if depth <= 0 then DEFAULT_DEPTH else depth, [], [], None, false)
    {
      this.depth := if depth <= 0 then DEFAULT_DEPTH else depth;
      ch, current, err, closed := [], [], None, false;
    }

    method Send(chunk: bytes)
      requires CanSend(View())
      modifies this
      ensures View() == Sent(old(View()), chunk)
    {
      ch := ch + [chunk];
    }

    method Close(error: Option<E>)
      modifies this
      ensures View() == Closed(old(View()), error)
    {
      if closed {
        return;
      }
      err := error;
      closed := true;
    }

    /** Copies what it returns to the front of p and leaves the rest of p alone. */
    method Read(p: array<byte>) returns (outcome: ReadResult<E>)
      requires CanRead(View())
      modifies this, p
      ensures View() == AfterRead(old(View()), p.Length)
      ensures outcome == ReadOutcome(old(View()), p.Length)
      ensures outcome.Data? ==> p[..] == outcome.data + old(p[..])[|outcome.data|..]
      ensures !outcome.Data? ==> p[..] == old(p[..])
    {
      if |current| > 0 {
        var n := Min(p.Length, |current|);
        CopyAt(p, 0, current[..n]);
        outcome := Data(current[..n]);
        current := current[n..];
        return;
      }
      if ch == [] {
        return if err.Some? then ReadError(err.value) else EndOfFile;
      }
      var chunk := ch[0];
      ch := ch[1..];
      var n := Min(p.Length, |chunk|);
      CopyAt(p, 0, chunk[..n]);
      outcome := Data(chunk[..n]);
      current := if n < |chunk| then chunk[n..] else [];
    }
  }

  // ---- Every interleaving of producer and consumer ------------------------------------

  datatype Op<+E> = Send(chunk: bytes) | Close(err: Option<E>) | Read(n: nat)

  /** The reader with a history of what was sent, what was read, and how it ended. */
  datatype World<+E> = World(r: Reader<E>, sent: seq<bytes>, got: bytes, ends: seq<ReadResult<E>>)

  /** One operation, if it can proceed; a blocked operation is retried later in the run. */
  function Do<E>(w: World<E>, op: Op<E>): World<E> {
    match op
    case Send(chunk) => if CanSend(w.r) then w.(r := Sent(w.r, chunk), sent := w.sent + [chunk]) else w
    case Close(err) => w.(r := Closed(w.r, err))
    case Read(n) =>
      if !CanRead(w.r) then w
      else
        var o := ReadOutcome(w.r, n);
        var w1 := w.(r := AfterRead(w.r, n));
        if o.Data? then w1.(got := w.got + o.data) else w1.(ends := w.ends + [o])
  }

  function Run<E>(w: World<E>, ops: seq<Op<E>>): World<E> {
    if ops == [] then w else Do(Run(w, ops[..|ops| - 1]), ops[|ops| - 1])
  }

  function Start<E>(depth: nat): World<E> {
    World(Reader(depth, [], [], None, false), [], [], [])
  }

  /** Nothing is lost, reordered or duplicated between the ends. */
  ghost predicate Conserved<E>(w: World<E>) {
    && w.got + w.r.current + Flatten(w.r.ch) == Flatten(w.sent)
    && |w.r.ch| <= w.r.depth
    && (!w.r.closed ==> w.ends == [] && w.r.err.None?)
    && (w.ends != [] ==> w.r.closed && w.got == Flatten(w.sent))
    && (forall i | 0 <= i < |w.ends| :: w.ends[i] == if w.r.err.Some? then ReadError(w.r.err.value) else EndOfFile)
  }

  lemma Regroup(got: bytes, chunk: bytes, n: nat, queued: bytes)
    ensures var k := Min(n, |chunk|);
      got + chunk + queued == (got + chunk[..k]) + chunk[k..] + queued
  {
  }

  lemma ReadConserves<E>(w: World<E>, n: nat)
    requires Conserved(w) && CanRead(w.r)
    ensures Conserved(Do(w, Read(n)))
  {
    if w.r.current != [] {
      Regroup(w.got, w.r.current, n, Flatten(w.r.ch));
    } else if w.r.ch != [] {
      var chunk, rest := w.r.ch[0], Flatten(w.r.ch[1..]);
      assert w.got + [] + (chunk + rest) == w.got + chunk + rest;
      Regroup(w.got, chunk, n, rest);
    } else {
      assert w.got + [] + Flatten([]) == w.got;
    }
  }

  lemma DoConserves<E>(w: World<E>, op: Op<E>)
    requires Conserved(w)
    ensures Conserved(Do(w, op))
  {
    match op
    case Send(chunk) =>
      FlattenSnoc(w.r.ch, chunk);
      FlattenSnoc(w.sent, chunk);
      assert w.got + w.r.current + (Flatten(w.r.ch) + chunk) == (w.got + w.r.current + Flatten(w.r.ch)) + chunk;
    case Close(_) =>
    case Read(n) =>
      if CanRead(w.r) {
        ReadConserves(w, n);
      }
  }

  lemma {:induction false} RunConserves<E>(depth: nat, ops: seq<Op<E>>)
    ensures Conserved(Run(Start<E>(depth), ops))
  {
    if ops != [] {
      RunConserves(depth, ops[..|ops| - 1]);
      DoConserves(Run(Start<E>(depth), ops[..|ops| - 1]), ops[|ops| - 1]);
    }
  }

  /** The error of the first close among the operations, if there is a close at all. */
  function FirstClose<E>(ops: seq<Op<E>>): Option<Option<E>> {
    if ops == [] then None
    else
      var f := FirstClose(ops[..|ops| - 1]);
      if f.Some? then f else if ops[|ops| - 1].Close? then Some(ops[|ops| - 1].err) else None
  }

  lemma {:induction false} FirstCloseWins<E>(depth: nat, ops: seq<Op<E>>)
    ensures var r := Run(Start<E>(depth), ops).r;
      r.closed == FirstClose(ops).Some? && (r.closed ==> r.err == FirstClose(ops).value)
  {
    if ops != [] {
      FirstCloseWins(depth, ops[..|ops| - 1]);
    }
  }

  /**
   * For any chunking and any read sizes: the bytes read are a prefix of the chunks sent, at
   * most `depth` chunks are queued, and an end is reported only after every byte sent has
   * been read. The end is the first close's: its error, or else EOF.
   */
  lemma StreamIsFaithful<E>(depth: nat, ops: seq<Op<E>>)
    ensures var w := Run(Start<E>(depth), ops);
      && w.got <= Flatten(w.sent)
      && |w.r.ch| <= depth
      && (w.ends != [] ==> w.got == Flatten(w.sent) && FirstClose(ops).Some?)
      && (forall e | e in w.ends :: e ==
            if FirstClose(ops).value.Some? then ReadError(FirstClose(ops).value.value) else EndOfFile)
  {
    RunConserves(depth, ops);
    FirstCloseWins(depth, ops);
    DepthIsFixed(depth, ops);
    var w := Run(Start<E>(depth), ops);
    assert w.got + (w.r.current + Flatten(w.r.ch)) == Flatten(w.sent);
  }

  lemma {:induction false} DepthIsFixed<E>(depth: nat, ops: seq<Op<E>>)
    ensures Run(Start<E>(depth), ops).r.depth == depth
  {
    if ops != [] {
      DepthIsFixed(depth, ops[..|ops| - 1]);
    }
  }
}
