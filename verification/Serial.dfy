/**
 * Serial number arithmetic on 32-bit counters (section 3 of RFC 1982), and the
 * ExpStatSN counter that is driven by it.
 */
module Serial {
  import opened Prelude

  /** The signed reading of a 32-bit pattern. */
  function Int32(x: u32): int {
    if x < TWO31 then x else x - TWO32
  }

  predicate LessThan(s1: u32, s2: u32) {
    s1 != s2 && Int32(Wrap(s1 - s2)) < 0
  }

  predicate GreaterThan(s1: u32, s2: u32) {
    s1 != s2 && Int32(Wrap(s1 - s2)) > 0
  }

  predicate InWindow(sn: u32, lo: u32, hi: u32) {
    sn == lo || sn == hi || (GreaterThan(sn, lo) && LessThan(sn, hi))
  }

  function Incr(s: u32): u32 {
    Wrap(s + 1)
  }

  /** Two unbounded counters less than 2^31 apart. */
  predicate Near(a: int, b: int) {
    -TWO31 < a - b < TWO31
  }

  lemma WrapDifference(a: int, b: int)
    requires Near(a, b)
    ensures Int32(Wrap(Wrap(a) - Wrap(b))) == a - b
    ensures Wrap(a) == Wrap(b) <==> a == b
  {
    WrapIsRemainder(a);
    WrapIsRemainder(b);
    var qa, qb := a / TWO32, b / TWO32;
    assert Wrap(a) - Wrap(b) == (a - b) - TWO32 * (qa - qb);
    WrapShift(a - b, -(qa - qb));
  }

  lemma WrapShift(x: int, k: int)
    ensures Wrap(x + TWO32 * k) == Wrap(x)
  {
    WrapIsRemainder(x);
    WrapIsRemainder(x + TWO32 * k);
    assert (x + TWO32 * k) / TWO32 == x / TWO32 + k;
  }

  /** Wrapping an already wrapped summand changes nothing. */
  lemma WrapAdd(a: int, b: int)
    ensures Wrap(Wrap(a) + b) == Wrap(a + b)
  {
    WrapIsRemainder(a);
    WrapShift(a + b, -(a / TWO32));
  }

  lemma IncrRefines(a: int)
    ensures Incr(Wrap(a)) == Wrap(a + 1)
  {
    WrapAdd(a, 1);
  }

  /** On counters less than 2^31 apart, serial order is the order of the integers. */
  lemma CompareRefines(a: int, b: int)
    requires Near(a, b)
    ensures LessThan(Wrap(a), Wrap(b)) <==> a < b
    ensures GreaterThan(Wrap(a), Wrap(b)) <==> a > b
  {
    WrapDifference(a, b);
  }

  lemma InWindowRefines(sn: int, lo: int, hi: int)
    requires Near(sn, lo) && Near(sn, hi) && lo <= hi
    ensures InWindow(Wrap(sn), Wrap(lo), Wrap(hi)) <==> lo <= sn <= hi
  {
    WrapDifference(sn, lo);
    WrapDifference(sn, hi);
    CompareRefines(sn, lo);
    CompareRefines(sn, hi);
  }

  /**
   * Serial comparison decides every pair of 32-bit numbers except the antipodal
   * ones. Those are each "less than" the other, and neither is greater.
   */
  lemma ComparisonIsDecisiveExceptAntipodes(s1: u32, s2: u32)
    ensures (LessThan(s1, s2) && LessThan(s2, s1)) <==> Wrap(s1 - s2) == TWO31
    ensures Wrap(s1 - s2) != TWO31 ==>
      (GreaterThan(s1, s2) <==> LessThan(s2, s1)) &&
      (s1 == s2 || LessThan(s1, s2) || GreaterThan(s1, s2)) &&
      !(LessThan(s1, s2) && GreaterThan(s1, s2))
  {
    if s1 >= s2 {
      assert Wrap(s1 - s2) == s1 - s2;
      assert s1 != s2 ==> Wrap(s2 - s1) == s2 - s1 + TWO32;
    } else {
      assert Wrap(s2 - s1) == s2 - s1;
      assert Wrap(s1 - s2) == s1 - s2 + TWO32;
    }
  }
}
