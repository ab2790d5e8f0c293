/**
 * A channel of bounded depth on which a sender never waits: what does not fit is dropped and
 * counted. The session gets on such a one what the target sends unasked.
 */
module Mailbox {

  /** Something is sent, or the reader takes the first of what is queued. */
  datatype Beat<T> = Came(item: T) | Took

  datatype Box<T> = Box(queue: seq<T>, taken: seq<T>, lost: seq<T>)

  function Next<T>(depth: nat, b: Box<T>, beat: Beat<T>): Box<T> {
    match beat
    case Came(item) =>
      if |b.queue| < depth then b.(queue := b.queue + [item]) else b.(lost := b.lost + [item])
    case Took => if b.queue == [] then b else b.(queue := b.queue[1..], taken := b.taken + [b.queue[0]])
  }

  function Run<T>(depth: nat, beats: seq<Beat<T>>): Box<T> {
    if beats == [] then Box([], [], [])
    else Next(depth, Run(depth, beats[..|beats| - 1]), beats[|beats| - 1])
  }

  /** The reader takes something only if there is something. */
  predicate Possible<T>(depth: nat, beats: seq<Beat<T>>) {
    beats == []
    || (&& Possible(depth, beats[..|beats| - 1])
        && (beats[|beats| - 1].Took? ==> Run(depth, beats[..|beats| - 1]).queue != []))
  }

  function Sent<T>(beats: seq<Beat<T>>): nat {
    if beats == [] then 0 else Sent(beats[..|beats| - 1]) + if beats[|beats| - 1].Came? then 1 else 0
  }

  function Takes<T>(beats: seq<Beat<T>>): nat {
    if beats == [] then 0 else Takes(beats[..|beats| - 1]) + if beats[|beats| - 1].Took? then 1 else 0
  }

  /** By how much the sender was ahead of the reader and the queue after the first k beats. */
  function Excess<T>(depth: nat, beats: seq<Beat<T>>, k: nat): int
    requires k <= |beats|
  {
    Sent(beats[..k]) - Takes(beats[..k]) - depth
  }

  lemma OneMoreBeat<T>(depth: nat, beats: seq<Beat<T>>, beat: Beat<T>)
    requires Possible(depth, beats) && (beat.Took? ==> Run(depth, beats).queue != [])
    ensures Possible(depth, beats + [beat])
    ensures Run(depth, beats + [beat]) == Next(depth, Run(depth, beats), beat)
  {
    assert (beats + [beat])[..|beats|] == beats;
  }

  lemma {:induction false} BoxIsBalanced<T>(depth: nat, beats: seq<Beat<T>>)
    requires Possible(depth, beats)
    ensures var b := Run(depth, beats);
      |b.queue| <= depth && |b.queue| + |b.lost| == Sent(beats) - Takes(beats) && |b.taken| == Takes(beats)
    decreases |beats|
  {
    if beats != [] {
      BoxIsBalanced(depth, beats[..|beats| - 1]);
    }
  }

  lemma ExcessOfFront<T>(depth: nat, beats: seq<Beat<T>>, k: nat)
    requires k < |beats|
    ensures Excess(depth, beats, k) == Excess(depth, beats[..|beats| - 1], k)
  {
    assert beats[..|beats| - 1][..k] == beats[..k];
  }

  /**
   * As many are lost as the sender was ever ahead at most, beyond the depth: fewer are lost in
   * no run, and more in none.
   */
  lemma {:induction false} DropsAreExact<T>(depth: nat, beats: seq<Beat<T>>)
    requires Possible(depth, beats)
    ensures var n := |Run(depth, beats).lost|;
      && (forall k | 0 <= k <= |beats| :: Excess(depth, beats, k) <= n)
      && (n == 0 || exists k | 0 <= k <= |beats| :: Excess(depth, beats, k) == n)
    decreases |beats|
  {
    BoxIsBalanced(depth, beats);
    assert beats[..|beats|] == beats;
    if beats != [] {
      var front := beats[..|beats| - 1];
      BoxIsBalanced(depth, front);
      DropsAreExact(depth, front);
      forall k | 0 <= k < |beats| ensures Excess(depth, beats, k) == Excess(depth, front, k) {
        ExcessOfFront(depth, beats, k);
      }
      if |Run(depth, beats).lost| > |Run(depth, front).lost| {
        assert Excess(depth, beats, |beats|) == |Run(depth, beats).lost|;
      }
    }
  }
}
