/**
  The distribution library and weighting functions of the Elo-MMR engine
  (Application/elommr.py): the newcomer weight ramp, the logistic squash and the
  win/loss distributions, each stitched from a curved part and a linear tail.

  The densities themselves (Gaussian or logistic pdf and cdf) are supplied by the caller
  as function values; only pdf >= 0 and 0 < cdf < 1 are assumed of them.
*/
module EloMmr {
  import opened Numerics

  /** The `method` argument: 'normal' or 'logistic'. */
  datatype Kernel = Normal | Logistic

  /** pdf(x, mean, scale) and cdf(x, mean, scale) of both kernels. */
  datatype Densities = Densities(pdf: (Kernel, real, real, real) -> real,
                                 cdf: (Kernel, real, real, real) -> real)

  ghost predicate DensityLaws(d: Densities)
  {
    && (forall k, x, m, s :: d.pdf(k, x, m, s) >= 0.0)
    && (forall k, x, m, s :: 0.0 < d.cdf(k, x, m, s) < 1.0)
  }

  // ---------------------------------------------------------------------------
  // The logistic squash

  /** `logistic(x, mean, scale)`: a sigmoid with values strictly inside (0, 1). */
  function Squash(exp: real -> real, x: real, mean: real, scale: real): (r: real)
    requires ExpLaws(exp)
    ensures 0.0 < r < 1.0
    ensures x == mean ==> r == 0.5
  {
    var e := exp(-(scale * (x - mean)));
    assert x == mean ==> scale * (x - mean) == 0.0;
    1.0 / (1.0 + e)
  }

  /** On the upper side of the centre the squash is at least one half. */
  lemma SquashUpperHalf(exp: real -> real, x: real, mean: real, scale: real)
    requires ExpLaws(exp)
    requires scale >= 0.0 && x >= mean
    ensures 0.5 <= Squash(exp, x, mean, scale) < 1.0
  {
    MulMono(0.0, x - mean, scale);
    var e := exp(-(scale * (x - mean)));
    assert e <= exp(0.0);
    RecipAntitone(1.0 + e, 2.0);
  }

  /** With a non-negative scale the squash is non-decreasing. */
  lemma SquashMonotone(exp: real -> real, x: real, y: real, mean: real, scale: real)
    requires ExpLaws(exp)
    requires scale >= 0.0 && x <= y
    ensures Squash(exp, x, mean, scale) <= Squash(exp, y, mean, scale)
  {
    MulMono(x - mean, y - mean, scale);
    var ex := exp(-(scale * (x - mean)));
    var ey := exp(-(scale * (y - mean)));
    assert ey <= ex;
    RecipAntitone(1.0 + ey, 1.0 + ex);
  }

  // ---------------------------------------------------------------------------
  // The newcomer weight

  /** `weight`'s inner `linear(x, x_max, y_min)`. */
  function Linear(x: real, xMax: real, yMin: real): real
  {
    if x >= xMax then 1.0
    else if x <= 0.0 then yMin
    else x * (1.0 - yMin) / xMax + yMin
  }

  /** `weight(match_count, placement, min_weight)`: a linear ramp from `min_weight` to 1. */
  function Weight(matchCount: int, placement: int, minWeight: real): (w: real)
    ensures matchCount >= placement ==> w == 1.0
    ensures matchCount < placement && matchCount <= 0 ==> w == minWeight
    ensures minWeight <= 1.0 ==> minWeight <= w <= 1.0
  {
    var w := Linear(matchCount as real, placement as real, minWeight);
    assert minWeight <= 1.0 ==> minWeight <= w <= 1.0 by {
      if minWeight <= 1.0 && 0 < matchCount < placement {
        RampBounds(matchCount as real, placement as real, minWeight);
      }
    }
    w
  }

  /** Strictly inside the ramp, the weight lies between its two ends. */
  lemma RampBounds(x: real, xMax: real, yMin: real)
    requires 0.0 < x < xMax && yMin <= 1.0
    ensures yMin <= x * (1.0 - yMin) / xMax + yMin <= 1.0
  {
    var t := x / xMax;
    FractionInside(x, xMax);
    assert x * (1.0 - yMin) / xMax == (1.0 - yMin) * t;
    MulMono(t, 1.0, 1.0 - yMin);
    MulMono(0.0, t, 1.0 - yMin);
  }

  /** Strictly inside the ramp the weight is the straight line through (0, y_min) and (x_max, 1). */
  lemma WeightRamp(matchCount: int, placement: int, minWeight: real)
    requires 0 < matchCount < placement
    ensures Weight(matchCount, placement, minWeight)
         == matchCount as real * (1.0 - minWeight) / placement as real + minWeight
  {
  }

  /** The weight never decreases as a competitor plays more matches. */
  lemma WeightMonotone(a: int, b: int, placement: int, minWeight: real)
    requires a <= b && minWeight <= 1.0
    ensures Weight(a, placement, minWeight) <= Weight(b, placement, minWeight)
  {
    if 0 < a && b < placement {
      RampMonotone(a as real, b as real, placement as real, minWeight);
    }
  }

  /** Inside the ramp the line rises with the match count. */
  lemma RampMonotone(x: real, y: real, xMax: real, yMin: real)
    requires 0.0 < x <= y && 0.0 < xMax && yMin <= 1.0
    ensures x * (1.0 - yMin) / xMax <= y * (1.0 - yMin) / xMax
  {
    MulMono(x, y, 1.0 - yMin);
    assert x * (1.0 - yMin) <= y * (1.0 - yMin);
    DivMono(x * (1.0 - yMin), y * (1.0 - yMin), xMax);
  }

  // ---------------------------------------------------------------------------
  // The win distribution

  /** win_distribution's `curved_region`: pdf / cdf. */
  function WinCurve(d: Densities, k: Kernel, x: real, mean: real, scale: real): real
    requires DensityLaws(d)
  {
    d.pdf(k, x, mean, scale) / d.cdf(k, x, mean, scale)
  }

  /** Where win_distribution switches from its linear tail to the curved part. */
  function WinBreak(mean: real, scale: real): real
  {
    mean - 2.0 * scale
  }

  /** win_distribution's `linear_region`, as written: y2 is the curve at the breakpoint, y1 the curve
      ten rating points above it, and the slope is (y2 - y1) / 10. */
  function WinTailAsWritten(d: Densities, k: Kernel, x: real, mean: real, scale: real): real
    requires DensityLaws(d)
  {
    var b := WinBreak(mean, scale);
    var y1 := WinCurve(d, k, b + 10.0, mean, scale);
    var y2 := WinCurve(d, k, b, mean, scale);
    var m := (y2 - y1) / 10.0;
    m * (x - b) + y2
  }

  /** `win_distribution(x, mean, scale, method)` exactly as the source computes it. */
  function WinDistributionAsWritten(d: Densities, k: Kernel, x: real, mean: real, scale: real): (r: real)
    requires DensityLaws(d)
    ensures x >= WinBreak(mean, scale) ==> r >= 0.0
  {
    if x < WinBreak(mean, scale) then WinTailAsWritten(d, k, x, mean, scale)
    else WinCurve(d, k, x, mean, scale)
  }

  /** The tail as written meets the curve at the breakpoint and rises with slope (y2 - y1) / 10,
      which is the secant slope through the curve at b and b + 10 with its sign flipped: the line
      through (b, y2) reaches 2 * y2 - y1, not y1, at b + 10. */
  lemma WinTailAsWrittenShape(d: Densities, k: Kernel, mean: real, scale: real, x: real, z: real)
    requires DensityLaws(d)
    ensures var b := WinBreak(mean, scale);
            var y1 := WinCurve(d, k, b + 10.0, mean, scale);
            var y2 := WinCurve(d, k, b, mean, scale);
            && WinTailAsWritten(d, k, b, mean, scale) == y2
            && WinTailAsWritten(d, k, x, mean, scale) - WinTailAsWritten(d, k, z, mean, scale)
               == (y2 - y1) / 10.0 * (x - z)
            && WinTailAsWritten(d, k, b + 10.0, mean, scale) == 2.0 * y2 - y1
  {
    var b := WinBreak(mean, scale);
    var y1 := WinCurve(d, k, b + 10.0, mean, scale);
    var y2 := WinCurve(d, k, b, mean, scale);
    var m := (y2 - y1) / 10.0;
    assert m * (x - b) - m * (z - b) == m * (x - z);
    assert m * (b + 10.0 - b) == y2 - y1;
  }

  /** The stitched distribution as written is continuous at the breakpoint. */
  lemma WinAsWrittenContinuous(d: Densities, k: Kernel, mean: real, scale: real)
    requires DensityLaws(d)
    ensures WinTailAsWritten(d, k, WinBreak(mean, scale), mean, scale)
         == WinDistributionAsWritten(d, k, WinBreak(mean, scale), mean, scale)
  {
  }

  /** Where the curve falls between b and b + 10 (the Gaussian case), the tail as written does not
      extend it: going left from the breakpoint the written tail falls while the secant rises, so the
      stitched function has a peak at the breakpoint instead of continuing the curve's trend. */
  lemma WinAsWrittenTurnsBack(d: Densities, k: Kernel, mean: real, scale: real)
    requires DensityLaws(d)
    requires WinCurve(d, k, WinBreak(mean, scale) + 10.0, mean, scale)
           < WinCurve(d, k, WinBreak(mean, scale), mean, scale)
    ensures var b := WinBreak(mean, scale);
            && WinDistributionAsWritten(d, k, b - 10.0, mean, scale) < WinDistributionAsWritten(d, k, b, mean, scale)
            && WinDistributionAsWritten(d, k, b + 10.0, mean, scale) < WinDistributionAsWritten(d, k, b, mean, scale)
            && WinDistributionAsWritten(d, k, b - 10.0, mean, scale) != WinTail(d, k, b - 10.0, mean, scale)
  {
    var b := WinBreak(mean, scale);
    var y1 := WinCurve(d, k, b + 10.0, mean, scale);
    var y2 := WinCurve(d, k, b, mean, scale);
    assert WinTailAsWritten(d, k, b - 10.0, mean, scale) == y1;
    assert WinTail(d, k, b - 10.0, mean, scale) == 2.0 * y2 - y1;
  }

  /** The evidently intended tail: the secant through the curve at b and b + 10, extended to the
      left of the breakpoint (the mirror image of the loss tail). */
  function WinTail(d: Densities, k: Kernel, x: real, mean: real, scale: real): real
    requires DensityLaws(d)
  {
    var b := WinBreak(mean, scale);
    Secant(WinCurve(d, k, b + 10.0, mean, scale), WinCurve(d, k, b, mean, scale), b, x)
  }

  /** The line through (b, y2) and (b + 10, y1), at x. */
  function Secant(y1: real, y2: real, b: real, x: real): real
  {
    (y1 - y2) / 10.0 * (x - b) + y2
  }

  /** A secant through a falling pair of samples falls from left to right. */
  lemma SecantFalls(y1: real, y2: real, b: real, x: real, z: real)
    requires y1 <= y2 && x <= z
    ensures Secant(y1, y2, b, z) <= Secant(y1, y2, b, x)
  {
    FallingLine((y1 - y2) / 10.0, b, y2, x, z);
  }

  /** The win distribution with the secant tail, as evidently intended; the solver keeps the
      code's own `WinDistributionAsWritten`. */
  function WinDistribution(d: Densities, k: Kernel, x: real, mean: real, scale: real): (r: real)
    requires DensityLaws(d)
    ensures x >= WinBreak(mean, scale) ==> r >= 0.0
  {
    if x < WinBreak(mean, scale) then WinTail(d, k, x, mean, scale)
    else WinCurve(d, k, x, mean, scale)
  }

  /** The corrected tail passes through both curve samples it is built from, so the stitched
      function is continuous at the breakpoint. */
  lemma WinTailIsSecant(d: Densities, k: Kernel, mean: real, scale: real)
    requires DensityLaws(d)
    ensures var b := WinBreak(mean, scale);
            && WinTail(d, k, b, mean, scale) == WinDistribution(d, k, b, mean, scale)
            && WinTail(d, k, b + 10.0, mean, scale) == WinCurve(d, k, b + 10.0, mean, scale)
  {
    var b := WinBreak(mean, scale);
    var y1 := WinCurve(d, k, b + 10.0, mean, scale);
    var y2 := WinCurve(d, k, b, mean, scale);
    var m := (y1 - y2) / 10.0;
    assert m * (b + 10.0 - b) == y1 - y2;
  }

  /** The corrected tail continues the curve's trend: where the curve falls over [b, b + 10], the
      distribution keeps rising as x moves left of the breakpoint. */
  lemma WinTailContinuesTrend(d: Densities, k: Kernel, mean: real, scale: real, x: real, z: real)
    requires DensityLaws(d)
    requires WinCurve(d, k, WinBreak(mean, scale) + 10.0, mean, scale) <= WinCurve(d, k, WinBreak(mean, scale), mean, scale)
    requires x <= z <= WinBreak(mean, scale)
    ensures WinDistribution(d, k, z, mean, scale) <= WinDistribution(d, k, x, mean, scale)
  {
    WinTailIsSecant(d, k, mean, scale);
    WinTailFalls(d, k, mean, scale, x, z);
  }

  /** Where the curve falls over [b, b + 10], the corrected tail falls from left to right. */
  lemma WinTailFalls(d: Densities, k: Kernel, mean: real, scale: real, x: real, z: real)
    requires DensityLaws(d)
    requires WinCurve(d, k, WinBreak(mean, scale) + 10.0, mean, scale) <= WinCurve(d, k, WinBreak(mean, scale), mean, scale)
    requires x <= z
    ensures WinTail(d, k, z, mean, scale) <= WinTail(d, k, x, mean, scale)
  {
    var b := WinBreak(mean, scale);
    SecantFalls(WinCurve(d, k, b + 10.0, mean, scale), WinCurve(d, k, b, mean, scale), b, x, z);
  }

  /** A line with a slope of at most zero is higher on the left. */
  lemma FallingLine(m: real, b: real, y: real, x: real, z: real)
    requires m <= 0.0 && x <= z
    ensures m * (z - b) + y <= m * (x - b) + y
  {
    MulMono(x - b, z - b, -m);
    assert -m * (x - b) == -(m * (x - b)) && -m * (z - b) == -(m * (z - b));
  }

  // ---------------------------------------------------------------------------
  // The loss distribution

  /** loss_distribution's `curved_region`: pdf / (-cdf(-x, -mean)). */
  function LossCurve(d: Densities, k: Kernel, x: real, mean: real, scale: real): (r: real)
    requires DensityLaws(d)
    ensures r <= 0.0
  {
    var c := d.cdf(k, -x, -mean, scale);
    NegDivision(d.pdf(k, x, mean, scale), c);
    d.pdf(k, x, mean, scale) / (-c)
  }

  lemma NegDivision(p: real, c: real)
    requires p >= 0.0 && c > 0.0
    ensures p / (-c) <= 0.0
  {
    assert p / (-c) == -(p / c);
  }

  /** Where loss_distribution switches from its curved part to the linear tail. */
  function LossBreak(mean: real, scale: real): real
  {
    mean + 2.0 * scale
  }

  /** loss_distribution's `linear_region`: the line through the curve at b - 10 and at b. */
  function LossTail(d: Densities, k: Kernel, x: real, mean: real, scale: real): real
    requires DensityLaws(d)
  {
    var b := LossBreak(mean, scale);
    var y1 := LossCurve(d, k, b - 10.0, mean, scale);
    var y2 := LossCurve(d, k, b, mean, scale);
    var m := (y2 - y1) / 10.0;
    m * (x - b) + y2
  }

  /** `loss_distribution(x, mean, scale, method)`. */
  function LossDistribution(d: Densities, k: Kernel, x: real, mean: real, scale: real): (r: real)
    requires DensityLaws(d)
    ensures x <= LossBreak(mean, scale) ==> r <= 0.0
  {
    if x <= LossBreak(mean, scale) then LossCurve(d, k, x, mean, scale)
    else LossTail(d, k, x, mean, scale)
  }

  /** The loss tail passes through both curve samples it is built from: it is the secant extended
      beyond the breakpoint, so the stitched function is continuous there. */
  lemma LossTailIsSecant(d: Densities, k: Kernel, mean: real, scale: real)
    requires DensityLaws(d)
    ensures var b := LossBreak(mean, scale);
            && LossTail(d, k, b, mean, scale) == LossDistribution(d, k, b, mean, scale)
            && LossTail(d, k, b - 10.0, mean, scale) == LossCurve(d, k, b - 10.0, mean, scale)
  {
    var b := LossBreak(mean, scale);
    var y1 := LossCurve(d, k, b - 10.0, mean, scale);
    var y2 := LossCurve(d, k, b, mean, scale);
    var m := (y2 - y1) / 10.0;
    assert m * (b - 10.0 - b) == y1 - y2;
  }
}
