/**
 * The session's ExpStatSN counter. Responses of concurrent tasks report their
 * StatSN in any order; the counter must not depend on that order.
 */
module StatSN {
  import opened Prelude
  import opened Serial

  /** ExpStatSN after a response carrying statSN. */
  function Updated(expStatSN: u32, statSN: u32): u32 {
    var next := Incr(statSN);
    if GreaterThan(next, expStatSN) || next == expStatSN then next else expStatSN
  }

  function UpdatedAll(expStatSN: u32, stats: seq<u32>): u32
    decreases |stats|
  {
    if stats == [] then expStatSN else UpdatedAll(Updated(expStatSN, stats[0]), stats[1..])
  }

  class StatTracker {
    var expStatSN: u32

    constructor (initial: u32)
      ensures expStatSN == initial
    {
      expStatSN := initial;
    }

    method UpdateStatSN(statSN: u32)
      modifies this
      ensures expStatSN == Updated(old(expStatSN), statSN)
    {
      var next := Incr(statSN);
      if GreaterThan(next, expStatSN) || next == expStatSN {
        expStatSN := next;
      }
    }
  }

  // The unbounded reading: StatSN values are integers, the counter is their maximum.

  function WrapAll(stats: seq<int>): (w: seq<u32>)
    ensures |w| == |stats|
  {
    seq(|stats|, i requires 0 <= i < |stats| => Wrap(stats[i]))
  }

  function MaxNext(start: int, stats: seq<int>): int
    decreases |stats|
  {
    if stats == [] then start else MaxNext(Max(start, stats[0] + 1), stats[1..])
  }

  /** The start value and every StatSN + 1 lie in one half of the number circle. */
  ghost predicate InSpan(base: int, start: int, stats: seq<int>) {
    && base <= start < base + TWO31
    && forall i | 0 <= i < |stats| :: base <= stats[i] + 1 < base + TWO31
  }

  lemma {:induction false} UpdatedAllRefinesMaximum(base: int, start: int, stats: seq<int>)
    requires InSpan(base, start, stats)
    ensures UpdatedAll(Wrap(start), WrapAll(stats)) == Wrap(MaxNext(start, stats))
    decreases |stats|
  {
    if stats != [] {
      var s := stats[0];
      IncrRefines(s);
      CompareRefines(s + 1, start);
      WrapDifference(s + 1, start);
      assert WrapAll(stats)[1..] == WrapAll(stats[1..]);
      assert Updated(Wrap(start), Wrap(s)) == Wrap(Max(start, s + 1));
      UpdatedAllRefinesMaximum(base, Max(start, s + 1), stats[1..]);
    }
  }

  /** MaxNext is the least upper bound of its inputs, so it only sees the set of values. */
  lemma {:induction false} MaxNextIsMaximum(start: int, stats: seq<int>)
    ensures start <= MaxNext(start, stats)
    ensures forall i | 0 <= i < |stats| :: stats[i] + 1 <= MaxNext(start, stats)
    ensures MaxNext(start, stats) == start || MaxNext(start, stats) - 1 in stats
    decreases |stats|
  {
    if stats != [] {
      var start' := Max(start, stats[0] + 1);
      MaxNextIsMaximum(start', stats[1..]);
      forall i | 0 <= i < |stats| ensures stats[i] + 1 <= MaxNext(start, stats) {
        if i > 0 {
          assert stats[i] == stats[1..][i - 1];
        }
      }
    }
  }

  /**
   * Order-insensitivity: two arrival orders (with any repetitions) of the same StatSN
   * values leave the same ExpStatSN, namely the serial maximum of the start value and
   * every StatSN + 1.
   */
  lemma ExpStatSNIsOrderInsensitive(base: int, start: int, a: seq<int>, b: seq<int>)
    requires InSpan(base, start, a)
    requires forall x :: x in a <==> x in b
    ensures UpdatedAll(Wrap(start), WrapAll(a)) == UpdatedAll(Wrap(start), WrapAll(b))
    ensures UpdatedAll(Wrap(start), WrapAll(b)) == Wrap(MaxNext(start, b))
  {
    forall i | 0 <= i < |b| ensures base <= b[i] + 1 < base + TWO31 {
      assert b[i] in b;
      var k :| 0 <= k < |a| && a[k] == b[i];
    }
    UpdatedAllRefinesMaximum(base, start, a);
    UpdatedAllRefinesMaximum(base, start, b);
    MaxNextIsMaximum(start, a);
    MaxNextIsMaximum(start, b);
    var ma, mb := MaxNext(start, a), MaxNext(start, b);
    assert ma != start ==> ma - 1 in b;
    assert mb != start ==> mb - 1 in a;
  }

  /** On the way the counter never moves back, by integer order and by serial order. */
  lemma ExpStatSNNeverMovesBack(base: int, start: int, stats: seq<int>, i: nat, j: nat)
    requires InSpan(base, start, stats)
    requires i <= j <= |stats|
    ensures UpdatedAll(Wrap(start), WrapAll(stats[..i])) == Wrap(MaxNext(start, stats[..i]))
    ensures UpdatedAll(Wrap(start), WrapAll(stats[..j])) == Wrap(MaxNext(start, stats[..j]))
    ensures MaxNext(start, stats[..i]) <= MaxNext(start, stats[..j])
    ensures !LessThan(UpdatedAll(Wrap(start), WrapAll(stats[..j])),
                      UpdatedAll(Wrap(start), WrapAll(stats[..i])))
  {
    UpdatedAllRefinesMaximum(base, start, stats[..i]);
    UpdatedAllRefinesMaximum(base, start, stats[..j]);
    MaxNextIsMaximum(start, stats[..i]);
    MaxNextIsMaximum(start, stats[..j]);
    var mi, mj := MaxNext(start, stats[..i]), MaxNext(start, stats[..j]);
    if mi != start {
      var k :| 0 <= k < i && stats[..i][k] == mi - 1;
      assert stats[..j][k] == mi - 1;
    }
    assert mi <= mj;
    assert base <= mi < base + TWO31 && base <= mj < base + TWO31;
    CompareRefines(mj, mi);
  }
}
