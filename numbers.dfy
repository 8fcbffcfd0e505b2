/** Integer models of the few floating-point computations of the system:
    `Math.floor`, `Math.ceil`, `Math.round` of a percentage, and SQL `AVG`
    kept exactly as a (sum, count) pair. */
module Numbers {

  /** `Math.floor(a / b)`: Dafny's own `/` is Euclidean, which differs for b < 0. */
  function FloorDiv(a: int, b: int): (q: int)
    requires b != 0
    ensures b > 0 ==> b * q <= a < b * q + b
    ensures b < 0 ==> b * q >= a > b * q + b
  {
    if b > 0 then a / b else (-a) / (-b)
  }

  /** `Math.ceil(a / b)`. */
  function CeilDiv(a: int, b: int): (q: int)
    requires b != 0
    ensures b > 0 ==> b * q - b < a <= b * q
    ensures b < 0 ==> b * q - b > a >= b * q
  {
    -FloorDiv(-a, b)
  }

  /** `Math.round(a / t * 100)` computed exactly: Math.round(x) is the integer r
      with r - 1/2 <= x < r + 1/2, here for x = 100a/t. */
  function RoundPercent(a: int, t: int): (r: int)
    requires t != 0
    ensures t > 0 ==> 2 * t * r - t <= 200 * a < 2 * t * r + t
    ensures t < 0 ==> 2 * t * r - t >= 200 * a > 2 * t * r + t
  {
    FloorDiv(200 * a + t, 2 * t)
  }

  /** A fraction of a whole, rounded, is a percentage between 0 and 100. */
  lemma RoundPercentInRange(a: int, t: int)
    requires 0 <= a <= t && t > 0
    ensures 0 <= RoundPercent(a, t) <= 100
  {
    var r := RoundPercent(a, t);
    assert t * (2 * r + 1) > 0 * t;
    PositiveFactorCancel(t, 0, 2 * r + 1);
    assert t * (2 * r - 1) <= t * 200;
    PositiveFactorCancel(t, 2 * r - 1, 200);
  }

  /** The rounded percentage is monotone in the numerator. */
  lemma RoundPercentMonotone(a: int, b: int, t: int)
    requires t > 0 && a <= b
    ensures RoundPercent(a, t) <= RoundPercent(b, t)
  {
    var ra, rb := RoundPercent(a, t), RoundPercent(b, t);
    assert t * (2 * ra - 1) < t * (2 * rb + 1);
    PositiveFactorCancelStrict(t, 2 * ra - 1, 2 * rb + 1);
  }

  /** The whole is 100 percent. */
  lemma RoundPercentWhole(total: int)
    requires total > 0
    ensures RoundPercent(total, total) == 100
  {
    var r := RoundPercent(total, total);
    assert total * (2 * r - 1) <= total * 200;
    PositiveFactorCancel(total, 2 * r - 1, 200);
    assert total * 200 < total * (2 * r + 1);
    PositiveFactorCancelStrict(total, 200, 2 * r + 1);
  }

  lemma PositiveFactorMonotone(t: int, x: int, y: int)
    requires t > 0 && x <= y
    ensures t * x <= t * y
  {
    assert t * (y - x) >= 0;
  }

  lemma PositiveFactorCancel(t: int, x: int, y: int)
    requires t > 0 && t * x <= t * y
    ensures x <= y
  {
    assert t * (y - x) >= 0;
  }

  lemma PositiveFactorCancelStrict(t: int, x: int, y: int)
    requires t > 0 && t * x < t * y
    ensures x < y
  {
    assert t * (y - x) > 0;
  }

  /** SQL `AVG` over a group, kept exactly: `Null` for a group with no non-null
      value, otherwise the sum and the (positive) number of values averaged. */
  datatype Avg = Null | Avg(sum: int, count: int)

  predicate ValidAvg(x: Avg) { x.Avg? ==> x.count > 0 }

  /** `x` comes no later than `y` under `ORDER BY avg DESC` (MySQL puts NULL last
      in descending order); means are compared by cross-multiplication. */
  predicate AvgAtLeast(x: Avg, y: Avg)
  {
    y.Null? || (x.Avg? && x.sum * y.count >= y.sum * x.count)
  }

  /** Cross-multiplied comparison of positive-denominator fractions is transitive. */
  lemma CrossMulTransitive(a: int, b: int, c: int, d: int, e: int, f: int)
    requires b > 0 && d > 0 && f > 0
    requires a * d >= c * b && c * f >= e * d
    ensures a * f >= e * b
  {
    assert a * d * f >= c * b * f by {
      assert (a * d - c * b) * f >= 0;
    }
    assert c * f * b >= e * d * b by {
      assert (c * f - e * d) * b >= 0;
    }
    assert (a * f - e * b) * d >= 0 by {
      assert a * d * f == (a * f) * d;
      assert c * b * f == c * f * b;
      assert e * d * b == (e * b) * d;
    }
  }

  lemma AvgAtLeastTransitive(x: Avg, y: Avg, z: Avg)
    requires ValidAvg(x) && ValidAvg(y) && ValidAvg(z)
    requires AvgAtLeast(x, y) && AvgAtLeast(y, z)
    ensures AvgAtLeast(x, z)
  {
    if z.Avg? && y.Avg? && x.Avg? {
      CrossMulTransitive(x.sum, x.count, y.sum, y.count, z.sum, z.count);
    }
  }

  lemma AvgAtLeastTotal(x: Avg, y: Avg)
    ensures AvgAtLeast(x, y) || AvgAtLeast(y, x)
  {
  }

  /** The value reported for a mean: a null mean reads as 0 (`pontuacao_media ? … : 0`),
      a non-null one as the exact fraction sum/count, given as numerator and denominator. */
  function ReportedMean(x: Avg): (r: (int, int))
    requires ValidAvg(x)
    ensures r.1 > 0
    ensures x.Null? ==> r.0 == 0
    ensures x.Avg? ==> r.0 * x.count == x.sum * r.1
  {
    if x.Null? then (0, 1) else (x.sum, x.count)
  }
}
