/** `Math.round((count / total) * 100)` on a non-negative ratio, taken on
    the exact ratio: round half up of 100·count/total. The source divides and
    multiplies in double precision, where an exact half can come out just
    below it (23 of 40 gives 57.49999999999999, shown as 57 where this
    model gives 58); that rounding is not modelled. */
module Percent {

  /** The integer nearest to 100·count/total, halves rounded up. */
  function RoundPercent(count: nat, total: nat): (r: nat)
    requires total > 0
    ensures 2 * total * r <= 200 * count + total < 2 * total * (r + 1)
  {
    (200 * count + total) / (2 * total)
  }

  lemma {:induction false} MulLe(k: nat, a: nat, b: nat)
    requires a <= b
    ensures k * a <= k * b
  {
    if k > 0 {
      MulLe(k - 1, a, b);
      assert k * a == (k - 1) * a + a && k * b == (k - 1) * b + b;
    }
  }

  /** A part of a whole is 0..100 percent; none of it is 0 and all of it is 100. */
  lemma PercentBounds(count: nat, total: nat)
    requires 0 < total && count <= total
    ensures 0 <= RoundPercent(count, total) <= 100
    ensures count == 0 ==> RoundPercent(count, total) == 0
    ensures count == total ==> RoundPercent(count, total) == 100
  {
    var r := RoundPercent(count, total);
    var m := 2 * total;
    assert m * r <= 200 * count + total < m * (r + 1);
    MulLe(200, count, total);
    if r >= 101 {
      MulLe(m, 101, r);
      assert false;
    }
    if count == total && r < 100 {
      MulLe(m, r + 1, 100);
      assert false;
    }
    if count == 0 && r >= 1 {
      MulLe(m, 1, r);
      assert false;
    }
  }

  /** More done never means a lower percentage. */
  lemma PercentMonotone(c1: nat, c2: nat, total: nat)
    requires 0 < total && c1 <= c2
    ensures RoundPercent(c1, total) <= RoundPercent(c2, total)
  {
    var r1, r2 := RoundPercent(c1, total), RoundPercent(c2, total);
    var m := 2 * total;
    assert m * r1 <= 200 * c1 + total;
    assert 200 * c2 + total < m * (r2 + 1);
    MulLe(200, c1, c2);
    if r1 > r2 {
      MulLe(m, r2 + 1, r1);
      assert false;
    }
  }
}
