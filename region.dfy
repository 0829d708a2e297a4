/** The circular domain: outer tissue disc, the white border excluded at its rim, the inner
    pattern disc, and the coverage the inner disc must carry so that the ink covers the
    requested fraction of the outer disc. */
module Region {
  import opened Numerics

  /** `max(0.0, min(0.9, white_border_fraction))`. */
  function ClampBorder(b: real): (c: real)
    ensures 0.0 <= c <= 0.9
    ensures 0.0 <= b <= 0.9 ==> c == b
    ensures b < 0.0 ==> c == 0.0
    ensures 0.9 < b ==> c == 0.9
  {
    Max(0.0, Min(0.9, b))
  }

  /** Radius of the inner pattern disc: the outer radius less the clamped border. */
  function PatternRadius(radius: real, border: real): (p: real)
    requires 0.0 <= radius
    ensures radius / 10.0 <= p <= radius
    ensures 0.0 <= border <= 0.9 ==> p == radius - border * radius
  {
    radius * (1.0 - ClampBorder(border))
  }

  /** `(pattern_radius / radius) ** 2`: the inner disc's share of the outer disc's area. */
  function AreaRatio(patternRadius: real, radius: real): real
    requires radius != 0.0
  {
    (patternRadius / radius) * (patternRadius / radius)
  }

  /** Coverage the inner disc must carry: the target divided by the area ratio, 0 when the
      ratio is not positive, and never more than 0.99. */
  function InnerCoverage(coverage: real, ratio: real): (inner: real)
    ensures inner <= 0.99
    ensures 0.0 < ratio && coverage <= 0.99 * ratio ==> inner * ratio == coverage
    ensures 0.0 < ratio && 0.99 * ratio < coverage ==> inner == 0.99 && inner * ratio < coverage
    ensures ratio <= 0.0 ==> inner == 0.0
  {
    Min(0.99, if ratio > 0.0 then coverage / ratio else 0.0)
  }

  /** The region arithmetic both renderers share: pattern radius, area ratio and inner
      coverage for an outer disc of radius `radius` (points or pixels). */
  function RegionInnerCoverage(radius: real, border: real, coverage: real): real
    requires 0.0 < radius
  {
    InnerCoverage(coverage, AreaRatio(PatternRadius(radius, border), radius))
  }

  /** The area ratio depends on the border alone, and the clamp keeps it at least 0.01, so
      the renderers' "ratio is 0" branch is never taken. */
  lemma AreaRatioOfBorder(radius: real, border: real)
    requires 0.0 < radius
    ensures AreaRatio(PatternRadius(radius, border), radius)
            == (1.0 - ClampBorder(border)) * (1.0 - ClampBorder(border))
    ensures AreaRatio(PatternRadius(radius, border), radius) >= 0.01
  {
    var c := ClampBorder(border);
    var p := PatternRadius(radius, border);
    var q := p / radius;
    DivTimes(p, radius);
    QuotientOfMultiple(p, radius, 1.0 - c);
    assert AreaRatio(p, radius) == q * q;
    SqMonotone(0.1, 1.0 - c);
  }

  /** Inverting the area ratio achieves the target over the outer disc: the ink inside the
      inner disc equals `coverage` times the outer disc's area, unless the 0.99 cap applies,
      in which case the ink falls short of the target. */
  lemma InkedAreaMeetsTarget(radius: real, border: real, coverage: real, pi: real)
    requires 0.0 < radius && 0.0 < pi
    ensures var p := PatternRadius(radius, border);
            var inner := RegionInnerCoverage(radius, border, coverage);
            (coverage <= 0.99 * AreaRatio(p, radius) ==> inner * (pi * p * p) == coverage * (pi * radius * radius))
            && (0.99 * AreaRatio(p, radius) < coverage ==> inner * (pi * p * p) < coverage * (pi * radius * radius))
  {
    var p := PatternRadius(radius, border);
    var ratio := AreaRatio(p, radius);
    AreaRatioOfBorder(radius, border);
    var inner := RegionInnerCoverage(radius, border, coverage);
    assert p * p == ratio * (radius * radius) by {
      assert p == (p / radius) * radius;
    }
    var area := pi * radius * radius;
    MulPos(pi, radius);
    MulPos(pi * radius, radius);
    assert inner * (pi * p * p) == (inner * ratio) * area;
    if 0.99 * ratio < coverage {
      assert inner * ratio < coverage;
      assert (inner * ratio) * area < coverage * area;
    }
  }

  /** The GUI's "Inner pattern coverage" label, in percent, from the slider values in percent.
      The border is not clamped here. */
  function InnerCoveragePercent(coveragePct: real, borderPct: real): (pct: real)
    ensures pct <= 99.0
  {
    var total := coveragePct / 100.0;
    var ratio := (1.0 - borderPct / 100.0) * (1.0 - borderPct / 100.0);
    if ratio > 0.0 then Min(99.0, total / ratio * 100.0) else 0.0
  }

  /** For every border the slider offers, the label shows exactly the inner coverage that
      both renderers use, in percent. */
  lemma LabelAgreesWithRenderers(radius: real, coveragePct: real, borderPct: real)
    requires 0.0 < radius && 0.0 <= borderPct <= 90.0
    ensures InnerCoveragePercent(coveragePct, borderPct)
            == 100.0 * RegionInnerCoverage(radius, borderPct / 100.0, coveragePct / 100.0)
  {
    AreaRatioOfBorder(radius, borderPct / 100.0);
  }

  /** `max(0.0, min(1.0, coverage))`, the single-family tool's coverage clamp. */
  function ClampCoverage(c: real): (r: real)
    ensures 0.0 <= r <= 1.0
    ensures 0.0 <= c <= 1.0 ==> r == c
  {
    Max(0.0, Min(1.0, c))
  }

  /** Millimetres to PDF points. */
  function MmToPt(mm: real): (pt: real)
    ensures mm < 0.0 <==> pt < 0.0
    ensures 2.8 * mm <= pt <= 2.9 * mm || pt <= 0.0
  {
    mm * MM
  }

  /** Millimetres to preview pixels as the renderers write it: the dish diameter is mapped
      onto the diameter of the INNER pattern disc. */
  function MmToPx(mm: real, diameterMm: real, patternRadiusPx: real): real
    requires diameterMm != 0.0
  {
    (mm / diameterMm) * (2.0 * patternRadiusPx)
  }

  /** Radius of the dish in PDF points: half the diameter, converted. */
  function DishRadiusPt(diameterMm: real): real {
    diameterMm * MM / 2.0
  }

  /** Millimetres to preview pixels with the dish diameter mapped onto the diameter of the
      outer disc, the disc that stands for the dish as the PDF's `mm` does. */
  function MmToPxOuter(mm: real, diameterMm: real, radiusPx: real): real
    requires diameterMm != 0.0
  {
    (mm / diameterMm) * (2.0 * radiusPx)
  }

  /** Converted by the outer disc, a length is the same fraction of the pattern disc in the
      preview as in the PDF, whatever the border. */
  lemma OuterConversionKeepsProportion(mm: real, diameterMm: real, radiusPx: real, border: real)
    requires 0.0 < diameterMm && 0.0 <= radiusPx
    ensures MmToPxOuter(mm, diameterMm, radiusPx) * PatternRadius(DishRadiusPt(diameterMm), border)
            == MmToPt(mm) * PatternRadius(radiusPx, border)
  {
    var c := 1.0 - ClampBorder(border);
    DivTimes(mm, diameterMm);
    var q := mm / diameterMm;
    assert MmToPxOuter(mm, diameterMm, radiusPx) * PatternRadius(DishRadiusPt(diameterMm), border)
           == (q * diameterMm) * MM * radiusPx * c;
  }

  /** Converting through the outer disc is one scaling from points to pixels: every length
      and the pattern radius alike are multiplied by `f = radiusPx / dishRadiusPt`. */
  lemma OuterConversionScales(mm: real, diameterMm: real, radiusPx: real, border: real)
    requires 0.0 < diameterMm && 0.0 <= radiusPx
    ensures 0.0 < DishRadiusPt(diameterMm)
    ensures var f := radiusPx / DishRadiusPt(diameterMm);
            && MmToPxOuter(mm, diameterMm, radiusPx) == f * MmToPt(mm)
            && PatternRadius(radiusPx, border) == f * PatternRadius(DishRadiusPt(diameterMm), border)
  {
    var d := DishRadiusPt(diameterMm);
    var f := radiusPx / d;
    DivTimes(radiusPx, d);
    var q := mm / diameterMm;
    DivTimes(mm, diameterMm);
    assert MmToPt(mm) == q * diameterMm * MM;
    assert f * MmToPt(mm) == (f * d) * (2.0 * q) by {
      assert q * diameterMm * MM == d * (2.0 * q);
      MulAssoc(f, d, 2.0 * q);
    }
    var c := 1.0 - ClampBorder(border);
    assert f * PatternRadius(d, border) == (f * d) * c by {
      MulAssoc(f, d, c);
    }
  }

  /** As the renderers write it, every preview length is short by the factor
      `1 - border` against the dish: at the default border of 0.15, one millimetre of a 10 mm
      dish drawn 200 pixels wide becomes 17 pixels instead of 20. */
  lemma InnerConversionShrinks(mm: real, diameterMm: real, radiusPx: real, border: real)
    requires 0.0 < diameterMm && 0.0 <= radiusPx
    ensures MmToPx(mm, diameterMm, PatternRadius(radiusPx, border))
            == (1.0 - ClampBorder(border)) * MmToPxOuter(mm, diameterMm, radiusPx)
    ensures 0.0 < mm && 0.0 < radiusPx && 0.0 < border ==>
              MmToPx(mm, diameterMm, PatternRadius(radiusPx, border)) < MmToPxOuter(mm, diameterMm, radiusPx)
    ensures MmToPx(1.0, 10.0, PatternRadius(100.0, 0.15)) == 17.0 && MmToPxOuter(1.0, 10.0, 100.0) == 20.0
  {
    var c := ClampBorder(border);
    var q := mm / diameterMm;
    assert MmToPx(mm, diameterMm, PatternRadius(radiusPx, border)) == q * (2.0 * (radiusPx * (1.0 - c)));
    if 0.0 < mm && 0.0 < radiusPx && 0.0 < border {
      DivTimes(mm, diameterMm);
      PositiveFactor(q, diameterMm);
      MulPos(q, 2.0 * radiusPx);
      MulPos(q * (2.0 * radiusPx), c);
    }
  }
}
