/** `Math.round(total / count)` guarded by `count > 0`, as the profile page and the user-data
    route both compute the average votes per artwork. */
module Rounding {

  /** `Math.round(t / n)` for n > 0: the nearest integer, a half rounded up (towards +infinity).
      Dafny's `/` floors for a positive divisor, so floor(t/n + 1/2) is (2t + n) / (2n). */
  function MathRound(t: int, n: int): (r: int)
    requires n > 0
    ensures n * (2 * r - 1) <= 2 * t < n * (2 * r + 1)
  {
    var q := (2 * t + n) / (2 * n);
    assert 2 * n * q <= 2 * t + n < 2 * n * q + 2 * n;
    q
  }

  lemma MulCancelLt(n: int, a: int, b: int)
    requires n > 0 && n * a < n * b
    ensures a < b
  {
  }

  lemma MulAtLeast(n: int, x: int)
    requires n >= 1 && x >= 0
    ensures n * x >= x
  {
  }

  /** The rounded mean is the only integer within half a unit (half-up) of the exact mean. */
  lemma {:induction false} MathRoundUnique(t: int, n: int, r: int)
    requires n > 0
    requires n * (2 * r - 1) <= 2 * t < n * (2 * r + 1)
    ensures MathRound(t, n) == r
  {
    var m := MathRound(t, n);
    MulCancelLt(n, 2 * m - 1, 2 * r + 1);
    MulCancelLt(n, 2 * r - 1, 2 * m + 1);
  }

  /** `count > 0 ? Math.round(total / count) : 0`. */
  function RoundedMean(total: int, count: nat): (r: int)
    ensures count == 0 ==> r == 0
    ensures count > 0 ==> count * (2 * r - 1) <= 2 * total < count * (2 * r + 1)
  {
    if count > 0 then MathRound(total, count) else 0
  }

  /** With non-negative votes the average never exceeds the total. */
  lemma RoundedMeanAtMostTotal(total: int, count: nat)
    requires total >= 0
    ensures 0 <= RoundedMean(total, count) <= total
  {
    if count > 0 {
      var r := RoundedMean(total, count);
      MulAtLeast(count, 2 * total + 1);
      MulCancelLt(count, 2 * r - 1, 2 * total + 1);
      assert count * 0 == 0;
      MulCancelLt(count, 0, 2 * r + 1);
    }
  }
}
