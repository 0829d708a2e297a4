/** The compact family: one solid scar of the coverage's area centred on an offset point, or,
    in the four-family script, two scars of half that area each, placed and turned
    independently. A scar is a plain disc when the irregularity is at most 0.01, otherwise a
    64-vertex harmonic outline with 5 harmonics of amplitude in [0.5, 1] and bend equal to
    the irregularity. */
module Compact {
  import opened Numerics
  import opened Random
  import opened Harmonic
  import Region

  const ScarVertices: nat := 64
  const ScarHarmonics: nat := 5

  /** A scar as handed to the canvas: a disc, or a closed polygon. */
  datatype Scar = Disc(center: Point, radius: real) | Polygon(points: seq<Point>)

  /** `R * sqrt(cov / (2 if split else 1))`. */
  function ScarRadius(m: Math, radius: real, coverage: real, split: bool): real {
    radius * m.sqrt(coverage / (if split then 2.0 else 1.0))
  }

  /** One scar inks the coverage's share of the dish, and two split scars together ink the same
      area as the single one: `r_single^2 = cov * R^2 = 2 * r_split^2`. */
  lemma ScarAreas(m: Math, radius: real, coverage: real)
    requires Valid(m) && 0.0 <= coverage
    ensures Sq(ScarRadius(m, radius, coverage, false)) == coverage * Sq(radius)
    ensures 2.0 * Sq(ScarRadius(m, radius, coverage, true)) == Sq(ScarRadius(m, radius, coverage, false))
  {
    SqrtSquares(m, coverage / 1.0);
    SqrtSquares(m, coverage / 2.0);
    var s1, s2 := m.sqrt(coverage / 1.0), m.sqrt(coverage / 2.0);
    SqOfProduct(radius, s1);
    SqOfProduct(radius, s2);
  }

  /** `irregularity <= 0.01` draws a plain circle and takes no draws; otherwise the outline takes
      five amplitudes and five phases. */
  function ScarDraws(irregularity: real): nat {
    if irregularity <= 0.01 then 0 else 2 * ScarHarmonics
  }

  /** One scar of radius r centred on `center`, turned by `rotationDeg` degrees, taking its
      draws (if any) from `pos`. */
  function IrregularCircle(m: Math, center: Point, r: real, irregularity: real, rotationDeg: real,
                           draws: nat -> real, pos: nat): Scar
  {
    if irregularity <= 0.01 then Disc(center, r)
    else Polygon(Boundary(m, center, r, irregularity, Amplitudes(0.5, 1.0, draws, pos, ScarHarmonics),
                          Phases(m, draws, pos + ScarHarmonics, ScarHarmonics), ScarVertices, Radians(m, rotationDeg)))
  }

  /** The compact generator: nothing at coverage <= 0; otherwise the single scar at the offset
      centre, unturned, or the left and then the right scar, each at its own offset and turn,
      the right one taking its draws after the left one's. */
  function CompactScars(m: Math, center: Point, radius: real, coverage: real, irregularity: real, split: bool,
                        offset: Point, left: Point, rotLeft: real, right: Point, rotRight: real,
                        draws: nat -> real, pos: nat): (scars: seq<Scar>)
    ensures coverage <= 0.0 ==> scars == []
    ensures 0.0 < coverage ==> |scars| == if split then 2 else 1
  {
    if coverage <= 0.0 then []
    else
      var r := ScarRadius(m, radius, coverage, split);
      if split then
        [IrregularCircle(m, Add(center, left), r, irregularity, rotLeft, draws, pos),
         IrregularCircle(m, Add(center, right), r, irregularity, rotRight, draws, pos + ScarDraws(irregularity))]
      else [IrregularCircle(m, Add(center, offset), r, irregularity, 0.0, draws, pos)]
  }

  /** The vector renderer's offsets are in millimetres. */
  function MmOffset(xMm: real, yMm: real): Point {
    Point(xMm * MM, yMm * MM)
  }

  /** Every vertex of an irregular scar lies between `(1 - irr) * r` and `(1 + irr) * r` from
      its centre; it never folds through the centre while the irregularity is at most 1. */
  lemma ScarOutlineInAnnulus(m: Math, center: Point, r: real, irregularity: real, rotationDeg: real,
                             draws: nat -> real, pos: nat, i: nat)
    requires Valid(m) && UnitDraws(draws) && 0.0 <= r && 0.01 < irregularity <= 1.0 && i < ScarVertices
    ensures IrregularCircle(m, center, r, irregularity, rotationDeg, draws, pos).Polygon?
    ensures Sq(r * (1.0 - irregularity))
            <= Dist2(IrregularCircle(m, center, r, irregularity, rotationDeg, draws, pos).points[i], center)
            <= Sq(r * (1.0 + irregularity))
  {
    var amps := Amplitudes(0.5, 1.0, draws, pos, ScarHarmonics);
    var phases := Phases(m, draws, pos + ScarHarmonics, ScarHarmonics);
    AmplitudesInRange(0.5, 1.0, draws, pos, ScarHarmonics);
    BoundaryInAnnulus(m, center, r, irregularity, amps, phases, ScarVertices, Radians(m, rotationDeg), 1.0, i);
  }

  /** A scar moved by d. */
  function TranslateScar(s: Scar, d: Point): Scar {
    match s
    case Disc(c, r) => Disc(Add(c, d), r)
    case Polygon(ps) => Polygon(TranslateAll(ps, d))
  }

  /** The offset moves the scar and changes nothing else: its size, its outline and its draws
      are those of the scar at the dish centre. */
  lemma OffsetOnlyTranslates(m: Math, center: Point, radius: real, coverage: real, irregularity: real,
                             offset: Point, draws: nat -> real, pos: nat)
    ensures CompactScars(m, center, radius, coverage, irregularity, false, offset, offset, 0.0, offset, 0.0, draws, pos)
            == if coverage <= 0.0 then []
               else [TranslateScar(IrregularCircle(m, center, ScarRadius(m, radius, coverage, false), irregularity, 0.0, draws, pos),
                                   offset)]
  {
    if 0.0 < coverage && 0.01 < irregularity {
      var r := ScarRadius(m, radius, coverage, false);
      BoundaryTranslates(m, center, offset, r, irregularity, Amplitudes(0.5, 1.0, draws, pos, ScarHarmonics),
                         Phases(m, draws, pos + ScarHarmonics, ScarHarmonics), ScarVertices, Radians(m, 0.0));
    }
  }

  /** A scar in a frame scaled by f. */
  function ScaleScar(c1: Point, c2: Point, f: real, s: Scar): Scar {
    match s
    case Disc(c, r) => Disc(ScaleAbout(c1, c2, f, c), f * r)
    case Polygon(ps) => Polygon(ScaleAll(c1, c2, f, ps))
  }

  /** The scar radius scales with the dish radius. */
  lemma ScarRadiusScales(m: Math, radius: real, radius2: real, f: real, coverage: real, split: bool)
    requires radius2 == f * radius
    ensures ScarRadius(m, radius2, coverage, split) == f * ScarRadius(m, radius, coverage, split)
  {
    var s := m.sqrt(coverage / (if split then 2.0 else 1.0));
    assert radius2 * s == f * (radius * s);
  }

  /** One scar drawn in a frame scaled by f (centre, radius) is the scaled scar. */
  lemma IrregularCircleScales(m: Math, c1: Point, c2: Point, center: Point, r: real, r2: real, f: real,
                              irregularity: real, rotationDeg: real, draws: nat -> real, pos: nat)
    requires r2 == f * r
    ensures IrregularCircle(m, ScaleAbout(c1, c2, f, center), r2, irregularity, rotationDeg, draws, pos)
            == ScaleScar(center, ScaleAbout(c1, c2, f, center), f, IrregularCircle(m, center, r, irregularity, rotationDeg, draws, pos))
  {
    if 0.01 < irregularity {
      BoundaryScales(m, center, ScaleAbout(c1, c2, f, center), r, r2, f, irregularity,
                     Amplitudes(0.5, 1.0, draws, pos, ScarHarmonics), Phases(m, draws, pos + ScarHarmonics, ScarHarmonics),
                     ScarVertices, Radians(m, rotationDeg));
    }
  }

  /** With the dish radius scaled by f from points to pixels, the unsplit preview scar is the
      vector scar scaled by f, moved from the vector's offset point to the preview's: both
      renderers take the same draws for the same shape, whatever offset each converts. */
  lemma PreviewScarIsScaled(m: Math, c1: Point, c2: Point, radius: real, radius2: real, f: real, coverage: real,
                            irregularity: real, offset: Point, offset2: Point, draws: nat -> real, pos: nat)
    requires radius2 == f * radius
    requires 0.0 < coverage
    ensures CompactScars(m, c2, radius2, coverage, irregularity, false, offset2, offset2, 0.0, offset2, 0.0, draws, pos)[0]
            == ScaleScar(Add(c1, offset), Add(c2, offset2), f,
                         CompactScars(m, c1, radius, coverage, irregularity, false, offset, offset, 0.0, offset, 0.0, draws, pos)[0])
  {
    var r, r2 := ScarRadius(m, radius, coverage, false), ScarRadius(m, radius2, coverage, false);
    ScarRadiusScales(m, radius, radius2, f, coverage, false);
    var a, b := Add(c1, offset), Add(c2, offset2);
    assert ScaleAbout(a, b, f, a) == b;
    IrregularCircleScales(m, a, b, a, r, r2, f, irregularity, 0.0, draws, pos);
  }

  /** Where the preview puts a scar offset by (ox, oy) mm, relative to the vector's `mm`-converted
      offset, with `f = radius_px / dish_radius_pt`: converted through the inner pattern disc, as
      the preview writes it, the offset lands at (1 - border) * f times the vector's; converted
      through the outer disc it lands at exactly f times it. */
  lemma PreviewScarCentre(c1: Point, c2: Point, ox: real, oy: real, diameterMm: real, radiusPx: real, border: real)
    requires 0.0 < diameterMm && 0.0 <= radiusPx
    ensures 0.0 < Region.DishRadiusPt(diameterMm)
    ensures var f := radiusPx / Region.DishRadiusPt(diameterMm);
            var pdf := Add(c1, MmOffset(ox, oy));
            var inner := Region.PatternRadius(radiusPx, border);
            && Add(c2, Point(Region.MmToPx(ox, diameterMm, inner), Region.MmToPx(oy, diameterMm, inner)))
               == ScaleAbout(c1, c2, (1.0 - Region.ClampBorder(border)) * f, pdf)
            && Add(c2, Point(Region.MmToPxOuter(ox, diameterMm, radiusPx), Region.MmToPxOuter(oy, diameterMm, radiusPx)))
               == ScaleAbout(c1, c2, f, pdf)
  {
    var f := radiusPx / Region.DishRadiusPt(diameterMm);
    var k := 1.0 - Region.ClampBorder(border);
    var px, py := Region.MmToPt(ox), Region.MmToPt(oy);
    OffsetConverts(ox, diameterMm, radiusPx, border);
    OffsetConverts(oy, diameterMm, radiusPx, border);
    ScaleAboutOffset(c1, c2, k * f, px, py);
    ScaleAboutOffset(c1, c2, f, px, py);
  }

  /** One offset coordinate through either disc, as a multiple of its vector value. */
  lemma OffsetConverts(mm: real, diameterMm: real, radiusPx: real, border: real)
    requires 0.0 < diameterMm && 0.0 <= radiusPx
    ensures 0.0 < Region.DishRadiusPt(diameterMm)
    ensures var f := radiusPx / Region.DishRadiusPt(diameterMm);
            && Region.MmToPx(mm, diameterMm, Region.PatternRadius(radiusPx, border))
               == ((1.0 - Region.ClampBorder(border)) * f) * Region.MmToPt(mm)
            && Region.MmToPxOuter(mm, diameterMm, radiusPx) == f * Region.MmToPt(mm)
  {
    Region.OuterConversionScales(mm, diameterMm, radiusPx, border);
    Region.InnerConversionShrinks(mm, diameterMm, radiusPx, border);
    MulAssoc(1.0 - Region.ClampBorder(border), radiusPx / Region.DishRadiusPt(diameterMm), Region.MmToPt(mm));
  }

  /** An offset scaled by g, added to the new centre, is the old offset point scaled about the centres. */
  lemma ScaleAboutOffset(c1: Point, c2: Point, g: real, x: real, y: real)
    ensures Add(c2, Point(g * x, g * y)) == ScaleAbout(c1, c2, g, Add(c1, Point(x, y)))
  {
    assert c1.x + x - c1.x == x && c1.y + y - c1.y == y;
  }

  // ---- The renderers ----

  /** `draw_irregular_circle`: a disc without draws, or the harmonic outline traced vertex by
      vertex after drawing its amplitudes and phases. */
  method DrawIrregularCircle(rng: Rng, m: Math, center: Point, r: real, irregularity: real, rotationDeg: real)
    returns (s: Scar)
    modifies rng
    ensures s == IrregularCircle(m, center, r, irregularity, rotationDeg, rng.draws, old(rng.pos))
    ensures rng.pos == old(rng.pos) + ScarDraws(irregularity)
  {
    if irregularity <= 0.01 {
      return Disc(center, r);
    }
    var amps, phases := DrawHarmonics(rng, m, 0.5, 1.0, ScarHarmonics);
    var points := TraceBoundary(m, center, r, irregularity, amps, phases, ScarVertices, Radians(m, rotationDeg));
    s := Polygon(points);
  }

  /** `add_compact` and its preview, in their own units: the offsets are already converted. */
  method AddCompact(rng: Rng, m: Math, center: Point, radius: real, coverage: real, irregularity: real, split: bool,
                    offset: Point, left: Point, rotLeft: real, right: Point, rotRight: real)
    returns (scars: seq<Scar>)
    modifies rng
    ensures scars == CompactScars(m, center, radius, coverage, irregularity, split, offset, left, rotLeft,
                                  right, rotRight, rng.draws, old(rng.pos))
    ensures rng.pos == old(rng.pos) + |scars| * ScarDraws(irregularity)
  {
    if coverage <= 0.0 {
      return [];
    }
    var r := ScarRadius(m, radius, coverage, split);
    if split {
      var a := DrawIrregularCircle(rng, m, Add(center, left), r, irregularity, rotLeft);
      var b := DrawIrregularCircle(rng, m, Add(center, right), r, irregularity, rotRight);
      scars := [a, b];
    } else {
      var a := DrawIrregularCircle(rng, m, Add(center, offset), r, irregularity, 0.0);
      scars := [a];
    }
  }
}
