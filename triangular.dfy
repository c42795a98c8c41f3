/*
 * The triangular sampling strategy of the forecast script.
 *
 * The script keeps one strategy object whose only state is the fraction
 * `mode` of the way from the low bound to the high bound at which the
 * triangle peaks.  Its `pick` takes one uniform draw from the global random
 * generator; here the draw is an explicit parameter `value`, so that `Pick`
 * is a total function over `real`.
 */
module Triangular {

  /** The strategy object: `mode` is set once by the constructor and never updated. */
  datatype TriangularDistribution = TriangularDistribution(mode: real)

  /** The mode fractions for which the strategy describes a triangle on [low, high]. */
  predicate ValidMode(mode: real) {
    0.0 <= mode <= 1.0
  }

  /** What the random generator can return: a number in [0, 1). */
  predicate ValidDraw(value: real) {
    0.0 <= value < 1.0
  }

  /**
   * The fraction `factor` of a `width`.  Every product of the model goes
   * through `Scale`, so that the solver matches it, as one term, against the
   * facts of the `Scale*` lemmas below; written as a bare product with a
   * compound width, as in `mode * (high - low)`, it is not matched reliably.
   */
  function Scale(factor: real, width: real): real {
    factor * width
  }

  /** The peak of the triangle, `low + (high - low) * mode`. */
  function Peak(low: real, high: real, mode: real): (peak: real)
    ensures mode == 0.0 ==> peak == low
    ensures mode == 1.0 ==> peak == high
    ensures low == high ==> peak == low
  {
    low + Scale(mode, high - low)
  }

  /** With `mode` in [0, 1] the peak lies within the bounds, at their ends for the extreme modes. */
  lemma PeakInRange(low: real, high: real, mode: real)
    requires low <= high && ValidMode(mode)
    ensures low <= Peak(low, high, mode) <= high
    ensures low < high && 0.0 < mode ==> low < Peak(low, high, mode)
    ensures low < high && mode < 1.0 ==> Peak(low, high, mode) < high
    ensures mode == 0.0 ==> Peak(low, high, mode) == low
    ensures mode == 1.0 ==> Peak(low, high, mode) == high
  {
    ScaleBounds(mode, high - low);
    ScaleEnds(high - low);
    if low < high && 0.0 < mode {
      ScaleStrict(0.0, mode, high - low);
    }
    if low < high && mode < 1.0 {
      ScaleStrict(mode, 1.0, high - low);
    }
  }

  /**
   * One sample.  The same draw `value` chooses the leg (left when it is
   * below `mode`) and is then scaled into that leg.
   */
  function Pick(d: TriangularDistribution, value: real, low: real, high: real): (r: real)
    ensures low == high ==> r == low
    ensures value == 0.0 && 0.0 < d.mode ==> r == low
    ensures value == 0.0 && d.mode <= 0.0 ==> r == low + Scale(d.mode, high - low)
  {
    var peak := Peak(low, high, d.mode);
    if value < d.mode then Scale(value, peak - low) + low else Scale(value, high - peak) + peak
  }

  /** A factor in [0, 1] shrinks a non-negative width. */
  lemma ScaleBounds(a: real, width: real)
    requires 0.0 <= a <= 1.0 && 0.0 <= width
    ensures 0.0 <= Scale(a, width) <= width
  {
    assert 0.0 <= a * width;
  }

  /** Scaling a non-negative width preserves the order of two factors. */
  lemma ScaleMono(a: real, b: real, width: real)
    requires a <= b && 0.0 <= width
    ensures Scale(a, width) <= Scale(b, width)
  {
    assert (b - a) * width >= 0.0;
  }

  /** Scaling a positive width preserves the strict order of two factors. */
  lemma ScaleStrict(a: real, b: real, width: real)
    requires a < b && 0.0 < width
    ensures Scale(a, width) < Scale(b, width)
  {
    assert (b - a) * width > 0.0;
  }

  /** The factors 0 and 1 give nothing and the whole width. */
  lemma ScaleEnds(width: real)
    ensures Scale(0.0, width) == 0.0 && Scale(1.0, width) == width
  {
  }

  /** Dividing an offset in [lo * width, hi * width) by a positive width gives a factor in [lo, hi). */
  lemma QuotientBetween(x: real, width: real, lo: real, hi: real)
    requires 0.0 < width && Scale(lo, width) <= x < Scale(hi, width)
    ensures Scale(x / width, width) == x
    ensures lo <= x / width < hi
  {
    var q := x / width;
    assert q * width == x;
    if q < lo {
      ScaleStrict(q, lo, width);
    }
    if hi <= q {
      ScaleMono(hi, q, width);
    }
  }

  /** A draw below `mode` lands on the left leg, any other draw on the right leg. */
  lemma PickLeg(d: TriangularDistribution, value: real, low: real, high: real)
    requires low <= high && ValidMode(d.mode) && ValidDraw(value)
    ensures var peak := Peak(low, high, d.mode);
      && (value < d.mode ==> low <= Pick(d, value, low, high) <= peak)
      && (d.mode <= value ==> peak <= Pick(d, value, low, high) <= high)
  {
    var peak := Peak(low, high, d.mode);
    PeakInRange(low, high, d.mode);
    if value < d.mode {
      ScaleBounds(value, peak - low);
    } else {
      ScaleBounds(value, high - peak);
    }
  }

  /** Every sample lies within the bounds it was drawn for. */
  lemma PickInRange(d: TriangularDistribution, value: real, low: real, high: real)
    requires low <= high && ValidMode(d.mode) && ValidDraw(value)
    ensures low <= Pick(d, value, low, high) <= high
  {
    PeakInRange(low, high, d.mode);
    PickLeg(d, value, low, high);
  }

  /** Equal bounds give both legs zero width: the sample is the bound, whatever the draw and mode. */
  lemma PickDegenerate(d: TriangularDistribution, value: real, k: real)
    ensures Pick(d, value, k, k) == k
  {
  }

  /** The lower end of the band of values `Pick` never returns. */
  function GapLow(d: TriangularDistribution, low: real, high: real): real {
    low + Scale(d.mode, Peak(low, high, d.mode) - low)
  }

  /** The upper end (exclusive) of the band of values `Pick` never returns. */
  function GapHigh(d: TriangularDistribution, low: real, high: real): real {
    var peak := Peak(low, high, d.mode);
    peak + Scale(d.mode, high - peak)
  }

  /**
   * The values `Pick` can return: because the leg-choosing draw is reused as
   * the scale, the left leg is only covered up to `GapLow`, and the right leg
   * only from `GapHigh` on.
   */
  predicate InImage(d: TriangularDistribution, low: real, high: real, t: real) {
    (low <= t < GapLow(d, low, high)) || (GapHigh(d, low, high) <= t < high)
  }

  /**
   * The band [GapLow, GapHigh) lies inside [low, high] and contains the peak;
   * for a mode strictly between 0 and 1 and distinct bounds it is a proper
   * interval with the peak strictly inside.
   */
  lemma GapAroundPeak(d: TriangularDistribution, low: real, high: real)
    requires low <= high && ValidMode(d.mode)
    ensures low <= GapLow(d, low, high) <= Peak(low, high, d.mode) <= GapHigh(d, low, high) <= high
    ensures low < high && 0.0 < d.mode < 1.0 ==>
      GapLow(d, low, high) < Peak(low, high, d.mode) < GapHigh(d, low, high)
  {
    var peak := Peak(low, high, d.mode);
    PeakInRange(low, high, d.mode);
    ScaleBounds(d.mode, peak - low);
    ScaleBounds(d.mode, high - peak);
    if low < high && 0.0 < d.mode < 1.0 {
      ScaleStrict(d.mode, 1.0, peak - low);
      ScaleStrict(0.0, d.mode, high - peak);
    }
  }

  /** With a proper mode and bounds, no draw yields a value in the band, the peak included. */
  lemma PickSkipsPeak(d: TriangularDistribution, value: real, low: real, high: real)
    requires low < high && 0.0 < d.mode < 1.0 && ValidDraw(value)
    ensures var r := Pick(d, value, low, high);
      r < GapLow(d, low, high) || GapHigh(d, low, high) <= r
    ensures Pick(d, value, low, high) != Peak(low, high, d.mode)
  {
    var peak := Peak(low, high, d.mode);
    PeakInRange(low, high, d.mode);
    GapAroundPeak(d, low, high);
    if value < d.mode {
      ScaleStrict(value, d.mode, peak - low);
    } else {
      ScaleMono(d.mode, value, high - peak);
    }
  }

  /** When the bounds differ, a larger draw always gives a larger sample. */
  lemma PickStrictlyIncreasing(d: TriangularDistribution, v1: real, v2: real, low: real, high: real)
    requires low < high && ValidMode(d.mode) && ValidDraw(v1) && ValidDraw(v2) && v1 < v2
    ensures Pick(d, v1, low, high) < Pick(d, v2, low, high)
  {
    var peak := Peak(low, high, d.mode);
    PeakInRange(low, high, d.mode);
    if v2 < d.mode {
      ScaleStrict(v1, v2, peak - low);
    } else if d.mode <= v1 {
      ScaleStrict(v1, v2, high - peak);
    } else {
      ScaleStrict(v1, d.mode, peak - low);
      ScaleBounds(d.mode, peak - low);
      ScaleBounds(v2, high - peak);
    }
  }

  /** The draw that produces a given value of the image: the inverse of `Pick`. */
  function DrawFor(d: TriangularDistribution, low: real, high: real, t: real): (value: real)
    requires low < high && ValidMode(d.mode) && InImage(d, low, high, t)
    ensures ValidDraw(value) && Pick(d, value, low, high) == t
  {
    var peak := Peak(low, high, d.mode);
    PeakInRange(low, high, d.mode);
    GapAroundPeak(d, low, high);
    if t < GapLow(d, low, high) then
      QuotientBetween(t - low, peak - low, 0.0, d.mode);
      (t - low) / (peak - low)
    else
      QuotientBetween(t - peak, high - peak, d.mode, 1.0);
      (t - peak) / (high - peak)
  }

  /** Every sample lies in `InImage`: on the left leg below `GapLow`, on the right leg from `GapHigh` on. */
  lemma ImageOfPick(d: TriangularDistribution, value: real, low: real, high: real)
    requires low < high && ValidMode(d.mode) && ValidDraw(value)
    ensures InImage(d, low, high, Pick(d, value, low, high))
  {
    var peak := Peak(low, high, d.mode);
    PeakInRange(low, high, d.mode);
    GapAroundPeak(d, low, high);
    PickLeg(d, value, low, high);
    if value < d.mode {
      ScaleStrict(value, d.mode, peak - low);
    } else {
      ScaleMono(d.mode, value, high - peak);
      ScaleStrict(value, 1.0, high - peak);
    }
  }

  /** `InImage` is exactly the set of values `Pick` returns, and `DrawFor` recovers the draw. */
  lemma DrawForPick(d: TriangularDistribution, value: real, low: real, high: real)
    requires low < high && ValidMode(d.mode) && ValidDraw(value)
    ensures InImage(d, low, high, Pick(d, value, low, high))
    ensures DrawFor(d, low, high, Pick(d, value, low, high)) == value
  {
    var t := Pick(d, value, low, high);
    assert InImage(d, low, high, t) by {
      ImageOfPick(d, value, low, high);
    }
    var w := DrawFor(d, low, high, t);
    if w < value {
      PickStrictlyIncreasing(d, w, value, low, high);
    } else if value < w {
      PickStrictlyIncreasing(d, value, w, low, high);
    }
  }
}
