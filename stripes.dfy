/** The parallel-stripe interstitial family of the two stripe versions: the first keeps the
    spacing fixed and solves for the stripe width, the gap-based version keeps the stripe width
    fixed and solves for the gap. Both lay vertical bands in a frame centred on the region; the
    vector renderer rotates the canvas about the centre, the raster renderer rotates every corner. */
module Stripes {
  import opened Numerics
  import opened Region

  /** Parallel bands in the frame centred on the region: band k spans
      `[starts[k], starts[k] + width]` horizontally and `[yLow, yHigh]` vertically. */
  datatype Bands = Bands(starts: seq<real>, width: real, yLow: real, yHigh: real)

  /** Evenly spaced band starts `x0 + k * period`, for k below n. */
  function EvenStarts(x0: real, period: real, n: nat): (xs: seq<real>)
    ensures |xs| == n
    ensures forall k :: 0 <= k < n ==> xs[k] == x0 + k as real * period
  {
    seq(n, k requires 0 <= k < n => x0 + k as real * period)
  }

  /** The vector renderer's rectangles, `rect(cx + x, cy + yLow, width, yHigh - yLow)`. */
  function VectorRects(center: Point, b: Bands): (rs: seq<Rect>)
    ensures |rs| == |b.starts|
  {
    seq(|b.starts|, k requires 0 <= k < |b.starts| =>
      Rect(center.x + b.starts[k], center.y + b.yLow, b.width, b.yHigh - b.yLow))
  }

  /** The raster renderer's polygons: each corner `(xr, yr)` of a band becomes
      `(cx + xr cos - yr sin, cy + xr sin + yr cos)`. */
  function RasterPolygons(center: Point, b: Bands, c: real, s: real): (ps: seq<seq<Point>>)
    ensures |ps| == |b.starts|
  {
    seq(|b.starts|, k requires 0 <= k < |b.starts| =>
      var x0, x1 := b.starts[k], b.starts[k] + b.width;
      [Add(center, Rotate(Point(x0, b.yLow), c, s)), Add(center, Rotate(Point(x1, b.yLow), c, s)),
       Add(center, Rotate(Point(x1, b.yHigh), c, s)), Add(center, Rotate(Point(x0, b.yHigh), c, s))])
  }

  /** On the same bands, each raster polygon is the corresponding vector rectangle rotated about
      the centre, which is what the vector canvas rotation does to it. */
  lemma RasterBandsAreRotatedRects(center: Point, b: Bands, c: real, s: real, k: int)
    requires 0 <= k < |b.starts|
    ensures RasterPolygons(center, b, c, s)[k] == RotateAll(center, Corners(VectorRects(center, b)[k]), c, s)
  {
    var r := VectorRects(center, b)[k];
    var cs := Corners(r);
    assert Sub(cs[0], center) == Point(b.starts[k], b.yLow);
    assert Sub(cs[1], center) == Point(b.starts[k] + b.width, b.yLow);
    assert Sub(cs[2], center) == Point(b.starts[k] + b.width, b.yHigh);
    assert Sub(cs[3], center) == Point(b.starts[k], b.yHigh);
  }

  // ---------------------------------------------------------------------------------------
  // Fixed spacing, solved width

  /** The stripe width for a spacing and a coverage: `spacing * cov / (1 - cov)`, and
      `99 * spacing` from 0.99 on. The duty cycle `w / (w + spacing)` is the coverage, capped
      at 0.99. */
  function StripeWidth(spacing: real, coverage: real): (w: real)
    ensures coverage >= 0.99 ==> w == spacing * 99.0
    ensures 0.0 < spacing && 0.0 <= coverage ==> 0.0 <= w && w / (w + spacing) == Min(coverage, 0.99)
  {
    if coverage >= 0.99 then
      CappedDutyCycle(spacing);
      spacing * 99.0
    else
      SolvedDutyCycle(spacing, coverage);
      spacing * coverage / (1.0 - coverage)
  }

  lemma CappedDutyCycle(spacing: real)
    ensures 0.0 < spacing ==> (spacing * 99.0) / (spacing * 99.0 + spacing) == 0.99
  {
    if 0.0 < spacing {
      DutyCycle(spacing * 99.0, spacing, 0.99);
    }
  }

  lemma SolvedDutyCycle(spacing: real, coverage: real)
    ensures 0.0 < spacing && 0.0 <= coverage < 0.99 ==>
              var w := spacing * coverage / (1.0 - coverage);
              0.0 <= w && w / (w + spacing) == coverage
  {
    if 0.0 < spacing && 0.0 <= coverage < 0.99 {
      var w := spacing * coverage / (1.0 - coverage);
      DivTimes(spacing * coverage, 1.0 - coverage);
      MulNonneg(spacing, coverage);
      NonnegFactor(w, 1.0 - coverage);
      DutyCycle(w, spacing, coverage);
    }
  }

  /** If `on * (1 - c) == off * c` with a positive period, the duty cycle `on / (on + off)`
      is c. */
  lemma DutyCycle(on: real, off: real, c: real)
    requires on * (1.0 - c) == off * c && 0.0 < on + off
    ensures on / (on + off) == c
  {
    var t := on + off;
    assert on == c * t;
    DivMul(c, t);
  }

  /** `ceil(6 r / period) + 6` bands, enough that `n * period >= 6 r + 6 period`. */
  function StripeCount(radius: real, period: real): (n: nat)
    requires 0.0 <= radius && 0.0 < period
    ensures n as real * period >= 6.0 * radius + 6.0 * period
  {
    var q := radius * 3.0 * 2.0 / period;
    assert q * period == 6.0 * radius;
    assert 0.0 <= q;
    Ceil(q) + 6
  }

  /** The bands of the fixed-spacing version for a spacing and a solved width (both in the
      renderer's unit): n bands of period `width + spacing`, centred, each `3 * diag` tall. */
  function SpacedBands(radius: real, spacing: real, width: real): (b: Bands)
    requires 0.0 <= radius && 0.0 < spacing && 0.0 <= width
    ensures b.width == width && b.yLow == -(radius * 3.0) * 1.5 && b.yHigh == radius * 3.0 * 1.5
    ensures |b.starts| == StripeCount(radius, width + spacing)
    ensures forall k :: 0 <= k < |b.starts| ==>
              b.starts[k] == -(|b.starts| as real * (width + spacing)) / 2.0 + k as real * (width + spacing)
  {
    var period := width + spacing;
    var n := StripeCount(radius, period);
    Bands(EvenStarts(-(n as real * period) / 2.0, period, n), width, -(radius * 3.0) * 1.5, radius * 3.0 * 1.5)
  }

  /** Consecutive bands are exactly one spacing apart, and together they reach past three radii
      plus two periods on both sides of the centre, so every rotation still covers the disc. */
  lemma SpacedBandsCoverDisc(radius: real, spacing: real, width: real)
    requires 0.0 <= radius && 0.0 < spacing && 0.0 <= width
    ensures var b := SpacedBands(radius, spacing, width);
            && |b.starts| > 0
            && (forall k :: 0 <= k < |b.starts| - 1 ==> b.starts[k + 1] - (b.starts[k] + width) == spacing)
            && b.starts[0] <= -3.0 * radius - 3.0 * (width + spacing)
            && b.starts[|b.starts| - 1] + width >= 3.0 * radius + 2.0 * (width + spacing)
  {
    var b := SpacedBands(radius, spacing, width);
    var period := width + spacing;
    var n := |b.starts|;
    var span := n as real * period;
    assert span >= 6.0 * radius + 6.0 * period;
    assert b.starts[0] == -span / 2.0;
    assert (n - 1) as real * period == span - period;
    assert b.starts[n - 1] == -span / 2.0 + (span - period);
    forall k | 0 <= k < n - 1
      ensures b.starts[k + 1] - (b.starts[k] + width) == spacing
    {
      assert (k + 1) as real * period == k as real * period + period;
    }
  }

  /** First stripe version, vector: `stripe_width_mm` is the spacing, converted to points. */
  function SpacedStripes(center: Point, radius: real, coverage: real, spacingMm: real): (rs: seq<Rect>)
    requires 0.0 <= radius && 0.0 < spacingMm
    ensures coverage <= 0.0 ==> rs == []
    ensures 0.0 < coverage ==> 0 < |rs|
    ensures 0.0 < coverage ==>
              0.0 < spacingMm * MM
              && rs == VectorRects(center, SpacedBands(radius, spacingMm * MM, StripeWidth(spacingMm * MM, coverage)))
  {
    if coverage <= 0.0 then []
    else
      MulPos(spacingMm, MM);
      var spacing := spacingMm * MM;
      var b := SpacedBands(radius, spacing, StripeWidth(spacing, coverage));
      SpacedBandsCoverDisc(radius, spacing, StripeWidth(spacing, coverage));
      VectorRects(center, b)
  }

  /** The raster bands of the first stripe version: spacing and solved width are raised to at
      least one pixel, so no band and no space between bands is thinner than a pixel. */
  function PixelBands(radius: real, coverage: real, spacing: real): (b: Bands)
    requires 0.0 <= radius
    ensures 0 < |b.starts| && 1.0 <= b.width
    ensures forall k :: 0 <= k < |b.starts| - 1 ==> b.starts[k + 1] - (b.starts[k] + b.width) >= 1.0
    ensures 1.0 <= spacing && 1.0 <= StripeWidth(spacing, coverage)
            ==> b == SpacedBands(radius, spacing, StripeWidth(spacing, coverage))
  {
    var s := Max(1.0, spacing);
    SpacedBandsCoverDisc(radius, s, Max(1.0, StripeWidth(s, coverage)));
    SpacedBands(radius, s, Max(1.0, StripeWidth(s, coverage)))
  }

  /** First stripe version, raster: the pixel bands, every corner rotated about the centre. */
  function SpacedStripesPreview(m: Math, center: Point, radius: real, coverage: real, spacing: real,
                                angleDeg: real): (ps: seq<seq<Point>>)
    requires 0.0 <= radius
    ensures coverage <= 0.0 ==> ps == []
    ensures 0.0 < coverage ==> 0 < |ps|
    ensures 0.0 < coverage ==>
              ps == RasterPolygons(center, PixelBands(radius, coverage, spacing), m.cos(Radians(m, angleDeg)), m.sin(Radians(m, angleDeg)))
  {
    if coverage <= 0.0 then []
    else
      var angle := Radians(m, angleDeg);
      RasterPolygons(center, PixelBands(radius, coverage, spacing), m.cos(angle), m.sin(angle))
  }

  /** `for i in range(num_stripes): x = x_start + i * period`. */
  method LayStarts(x0: real, period: real, n: nat) returns (xs: seq<real>)
    ensures xs == EvenStarts(x0, period, n)
  {
    xs := [];
    for i := 0 to n
      invariant xs == EvenStarts(x0, period, i)
    {
      EvenStartsSnoc(x0, period, i);
      xs := xs + [x0 + i as real * period];
    }
  }

  lemma EvenStartsSnoc(x0: real, period: real, i: nat)
    ensures EvenStarts(x0, period, i + 1) == EvenStarts(x0, period, i) + [x0 + i as real * period]
  {
    var a, b := EvenStarts(x0, period, i + 1), EvenStarts(x0, period, i) + [x0 + i as real * period];
    assert |a| == |b|;
    forall k | 0 <= k < i + 1
      ensures a[k] == b[k]
    {}
  }

  // ---------------------------------------------------------------------------------------
  // Fixed stripe width, solved gap

  /** `stripe * (1 - cov) / max(cov, 1e-6)`: the gap that makes the duty cycle the coverage
      (exactly from 1e-6 on; below that the divisor is held at 1e-6). */
  function GapFormula(stripe: real, coverage: real): (gap: real)
    ensures 0.0 < stripe && 0.0 < coverage ==> 0.0 < stripe + gap
    ensures 0.0 < stripe && 0.000001 <= coverage < 1.0 ==> 0.0 < gap && stripe / (stripe + gap) == coverage
  {
    var c := Max(coverage, 0.000001);
    var gap := stripe * (1.0 - coverage) / c;
    DivTimes(stripe * (1.0 - coverage), c);
    assert 0.0 < stripe && 0.0 < coverage ==> 0.0 < stripe + gap by {
      if 0.0 < stripe && 0.0 < coverage {
        GapKeepsPeriodPositive(stripe, coverage, c, gap);
      }
    }
    assert 0.0 < stripe && 0.000001 <= coverage < 1.0 ==> 0.0 < gap && stripe / (stripe + gap) == coverage by {
      if 0.0 < stripe && 0.000001 <= coverage < 1.0 {
        GapMeetsCoverage(stripe, coverage, gap);
      }
    }
    gap
  }

  lemma GapKeepsPeriodPositive(stripe: real, coverage: real, c: real, gap: real)
    requires 0.0 < stripe && 0.0 < coverage <= c && gap * c == stripe * (1.0 - coverage)
    ensures 0.0 < stripe + gap
  {
    assert (stripe + gap) * c == stripe * (c + 1.0 - coverage);
    MulPos(stripe, c + 1.0 - coverage);
    PositiveFactor(stripe + gap, c);
  }

  lemma GapMeetsCoverage(stripe: real, coverage: real, gap: real)
    requires 0.0 < stripe && 0.0 < coverage < 1.0 && gap * coverage == stripe * (1.0 - coverage)
    ensures 0.0 < gap && stripe / (stripe + gap) == coverage
  {
    MulPos(stripe, 1.0 - coverage);
    PositiveFactor(gap, coverage);
    DutyCycle(stripe, gap, coverage);
  }

  /** Vector gap: 0 from coverage 1 on, else the gap formula. */
  function Gap(stripe: real, coverage: real): (gap: real)
    ensures coverage >= 1.0 ==> gap == 0.0
    ensures 0.0 < stripe && 0.0 < coverage ==> 0.0 < stripe + gap
    ensures 0.0 < stripe && 0.000001 <= coverage < 1.0 ==> 0.0 < gap && stripe / (stripe + gap) == coverage
  {
    if coverage >= 1.0 then 0.0 else GapFormula(stripe, coverage)
  }

  /** Raster gap: the gap formula for positive coverage, else 0, so that at coverage 0 the
      bands abut. */
  function PreviewGap(stripe: real, coverage: real): (gap: real)
    ensures coverage <= 0.0 ==> gap == 0.0
    ensures 0.0 < stripe ==> 0.0 < stripe + gap
    ensures 0.0 < stripe && 0.000001 <= coverage < 1.0 ==> stripe / (stripe + gap) == coverage
  {
    if coverage > 0.0 then GapFormula(stripe, coverage) else 0.0
  }

  /** The number of passes of `while x < x0 + total: ...; x += period` from `x = x0`: the
      least n with `n * period >= total`. */
  function SweepCount(total: real, period: real): (n: nat)
    requires 0.0 < period
    ensures n as real * period >= total
    ensures n == 0 || (n - 1) as real * period < total
  {
    if total <= 0.0 then 0
    else
      var q := total / period;
      assert q * period == total;
      var n := Ceil(q);
      assert (n - 1) as real * period < total by {
        LessByPositive((n - 1) as real, q, period);
      }
      assert n as real * period >= total by {
        MulNonneg(n as real - q, period);
      }
      n
  }

  /** SweepCount is the only count that reaches `total` while its last pass still starts
      below it. */
  lemma SweepCountIsLeast(k: nat, total: real, period: real)
    requires 0.0 < period && k as real * period >= total && (k == 0 || (k - 1) as real * period < total)
    ensures k == SweepCount(total, period)
  {
    var n := SweepCount(total, period);
    if k < n {
      MulNonneg((n - 1) as real - k as real, period);
    } else if n < k {
      MulNonneg((k - 1) as real - n as real, period);
    }
  }

  /** `x = x0; while x < x0 + total: emit x; x += period`. */
  method SweepStarts(x0: real, total: real, period: real) returns (xs: seq<real>)
    requires 0.0 < period
    ensures xs == EvenStarts(x0, period, SweepCount(total, period))
  {
    var n := SweepCount(total, period);
    xs := [];
    var x := x0;
    while x < x0 + total
      invariant |xs| <= n
      invariant x == x0 + |xs| as real * period
      invariant xs == EvenStarts(x0, period, |xs|)
      invariant |xs| == 0 || (|xs| - 1) as real * period < total
      decreases n - |xs|
    {
      LessByPositive(|xs| as real, n as real, period);
      ghost var next := EvenStarts(x0, period, |xs| + 1);
      forall k | 0 <= k < |xs| + 1 ensures (xs + [x])[k] == next[k] {
      }
      assert xs + [x] == next;
      xs := xs + [x];
      x := x + period;
    }
    SweepCountIsLeast(|xs|, total, period);
  }

  /** `radius * 2 * sqrt(2)`: the diagonal of the square around the disc, at least its
      diameter. */
  function SquareDiagonal(m: Math, radius: real): (diag: real)
    requires Valid(m) && 0.0 <= radius
    ensures 2.0 * radius <= diag && diag * diag == 8.0 * (radius * radius)
  {
    SqrtSquares(m, 2.0);
    SquareLess(1.0, m.sqrt(2.0));
    MulNonneg(radius, m.sqrt(2.0) - 1.0);
    assert (radius * 2.0 * m.sqrt(2.0)) * (radius * 2.0 * m.sqrt(2.0))
           == 4.0 * (radius * radius) * (m.sqrt(2.0) * m.sqrt(2.0));
    radius * 2.0 * m.sqrt(2.0)
  }

  /** The bands of the gap-based version: swept from `-total/2` with
      `total = diag + 4 (stripe + gap)`, each `diag` tall. */
  function SweptBands(diag: real, stripe: real, gap: real): (b: Bands)
    requires 0.0 <= diag && 0.0 < stripe + gap
    ensures 0 < |b.starts| && b.width == stripe && b.yLow == -diag / 2.0 && b.yHigh == diag / 2.0
    ensures b.starts == EvenStarts(-(diag + 4.0 * (stripe + gap)) / 2.0, stripe + gap,
                                   SweepCount(diag + 4.0 * (stripe + gap), stripe + gap))
  {
    var total := diag + 4.0 * (stripe + gap);
    Bands(EvenStarts(-total / 2.0, stripe + gap, SweepCount(total, stripe + gap)), stripe, -diag / 2.0, diag / 2.0)
  }

  /** The swept bands start left of the square, follow one another one gap apart, and the last
      one starts inside the sweep and reaches past the right edge of the square. */
  lemma SweptBandsCoverSquare(diag: real, stripe: real, gap: real)
    requires 0.0 <= diag && 0.0 < stripe && 0.0 <= gap
    ensures var b := SweptBands(diag, stripe, gap);
            var n := |b.starts|;
            && b.starts[0] <= b.yLow
            && (forall k :: 0 <= k < n - 1 ==> b.starts[k + 1] - (b.starts[k] + stripe) == gap)
            && b.starts[n - 1] + stripe >= b.yHigh
            && b.starts[n - 1] < -b.starts[0]
  {
    var b := SweptBands(diag, stripe, gap);
    var p := stripe + gap;
    var total := diag + 4.0 * p;
    var n := |b.starts|;
    assert n == SweepCount(total, p);
    assert n as real * p >= total;
    assert (n - 1) as real * p < total;
    assert b.starts[n - 1] == -total / 2.0 + (n - 1) as real * p;
    assert b.starts[n - 1] == -total / 2.0 + n as real * p - p;
  }

  /** Gap-based version, vector: the stripe width in micrometres converted to points, nothing
      drawn at coverage 0 or below. */
  function GapStripes(m: Math, center: Point, radius: real, coverage: real, stripeUm: real): (rs: seq<Rect>)
    requires Valid(m) && 0.0 <= radius && 0.0 < stripeUm
    ensures coverage <= 0.0 <==> rs == []
  {
    if coverage <= 0.0 then []
    else
      MulPos(stripeUm / 1000.0, MM);
      var stripe := stripeUm / 1000.0 * MM;
      VectorRects(center, SweptBands(SquareDiagonal(m, radius), stripe, Gap(stripe, coverage)))
  }

  /** Gap-based version, raster, as written: the stripe width scaled by the scar diameter and
      raised to one pixel, and the gap set to 0 when the coverage is not positive, so that the
      bands are still drawn. */
  function GapStripesPreview(m: Math, center: Point, radius: real, coverage: real, stripeUm: real,
                             angleDeg: real, diameterUm: real): (ps: seq<seq<Point>>)
    requires Valid(m) && 0.0 <= radius && diameterUm != 0.0
    ensures 0 < |ps|
  {
    var stripe := Max(1.0, MmToPx(stripeUm, diameterUm, radius));
    var angle := Radians(m, angleDeg);
    RasterPolygons(center, SweptBands(SquareDiagonal(m, radius), stripe, PreviewGap(stripe, coverage)),
                   m.cos(angle), m.sin(angle))
  }

  /** Bands of width w laid edge to edge from x0 cover every point from x0 to `x0 + n w`. */
  lemma AbuttingBandsCover(x0: real, w: real, n: nat, x: real) returns (k: nat)
    requires 0.0 < w && 0 < n && x0 <= x <= x0 + n as real * w
    ensures k < n && x0 + k as real * w <= x <= x0 + k as real * w + w
  {
    var q := (x - x0) / w;
    DivTimes(x - x0, w);
    assert q * w == x - x0;
    NonnegFactor(q, w);
    AtMostByPositive(q, n as real, w);
    var f := q.Floor;
    if f < n {
      k := f;
    } else {
      k := n - 1;
    }
    BetweenMultiples(x0, x, q, w, k);
  }

  /** A point q widths past x0, with q between k and k + 1, lies in band k. */
  lemma BetweenMultiples(x0: real, x: real, q: real, w: real, k: nat)
    requires 0.0 < w && k as real <= q <= k as real + 1.0 && x - x0 == q * w
    ensures x0 + k as real * w <= x <= x0 + k as real * w + w
  {
    MulNonneg(q - k as real, w);
    MulNonneg(k as real + 1.0 - q, w);
    assert (q - k as real) * w == q * w - k as real * w;
    assert (k as real + 1.0 - q) * w == k as real * w + w - q * w;
  }

  /** At coverage 0 the vector renderer draws nothing, but the raster renderer lays bands edge
      to edge over the whole square around the disc: every point of the square lies in a band. */
  lemma PreviewInksAtZeroCoverage(m: Math, center: Point, radius: real, coverage: real, stripeUm: real,
                                  diameterUm: real, x: real, y: real) returns (k: nat)
    requires Valid(m) && 0.0 <= radius && diameterUm != 0.0 && 0.0 < stripeUm && coverage <= 0.0
    requires -SquareDiagonal(m, radius) / 2.0 <= x <= SquareDiagonal(m, radius) / 2.0
    requires -SquareDiagonal(m, radius) / 2.0 <= y <= SquareDiagonal(m, radius) / 2.0
    ensures GapStripes(m, center, radius, coverage, stripeUm) == []
    ensures var b := SweptBands(SquareDiagonal(m, radius), Max(1.0, MmToPx(stripeUm, diameterUm, radius)),
                                PreviewGap(Max(1.0, MmToPx(stripeUm, diameterUm, radius)), coverage));
            && k < |b.starts|
            && b.starts[k] <= x <= b.starts[k] + b.width
            && b.yLow <= y <= b.yHigh
  {
    var stripe := Max(1.0, MmToPx(stripeUm, diameterUm, radius));
    var diag := SquareDiagonal(m, radius);
    k := BandContaining(diag, stripe, x);
  }

  /** With no gap, some band contains every abscissa of the square. */
  lemma BandContaining(diag: real, stripe: real, x: real) returns (k: nat)
    requires 0.0 <= diag && 0.0 < stripe && -diag / 2.0 <= x <= diag / 2.0
    ensures var b := SweptBands(diag, stripe, 0.0);
            k < |b.starts| && b.starts[k] <= x <= b.starts[k] + b.width
  {
    var b := SweptBands(diag, stripe, 0.0);
    SweptBandsCoverSquare(diag, stripe, 0.0);
    var n := |b.starts|;
    assert b.starts[n - 1] == b.starts[0] + (n - 1) as real * stripe;
    k := AbuttingBandsCover(b.starts[0], stripe, n, x);
    assert b.starts[k] == b.starts[0] + k as real * stripe;
  }

  /** Gap-based version, raster, corrected: nothing is drawn at coverage 0 or below, exactly as
      the vector renderer does, and the bands are otherwise those of the version as written. */
  function GapStripesPreviewCorrected(m: Math, center: Point, radius: real, coverage: real, stripeUm: real,
                                      angleDeg: real, diameterUm: real): (ps: seq<seq<Point>>)
    requires Valid(m) && 0.0 <= radius && diameterUm != 0.0
    ensures coverage <= 0.0 <==> ps == []
    ensures 0.0 < coverage ==> ps == GapStripesPreview(m, center, radius, coverage, stripeUm, angleDeg, diameterUm)
  {
    if coverage <= 0.0 then [] else GapStripesPreview(m, center, radius, coverage, stripeUm, angleDeg, diameterUm)
  }

  /** The corrected raster stripes draw something exactly when the vector stripes do, and
      from coverage 1e-6 up to (not including) 1 the preview's bands, `max(1, px)` wide, and the
      PDF's bands, `um / 1000 * mm` wide, both ink the coverage's share of every period. */
  lemma CorrectedPreviewAgreesWithVector(m: Math, center: Point, radius: real, coverage: real, stripeUm: real,
                                         angleDeg: real, diameterUm: real)
    requires Valid(m) && 0.0 <= radius && diameterUm != 0.0 && 0.0 < stripeUm
    ensures (GapStripesPreviewCorrected(m, center, radius, coverage, stripeUm, angleDeg, diameterUm) == [])
            == (GapStripes(m, center, radius, coverage, stripeUm) == [])
    ensures var px := Max(1.0, MmToPx(stripeUm, diameterUm, radius));
            var pt := stripeUm / 1000.0 * MM;
            0.000001 <= coverage < 1.0 ==>
              && 0.0 < px + PreviewGap(px, coverage) && 0.0 < pt + Gap(pt, coverage)
              && px / (px + PreviewGap(px, coverage)) == coverage == pt / (pt + Gap(pt, coverage))
  {
    var px := Max(1.0, MmToPx(stripeUm, diameterUm, radius));
    var pt := stripeUm / 1000.0 * MM;
    MulPos(stripeUm / 1000.0, MM);
    assert 0.0 < px;
  }
}
