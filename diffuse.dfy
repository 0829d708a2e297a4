/** The diffuse family: a count of small primitives solved from the coverage, each placed from
    its own fixed group of random draws. The rectangle version draws five values per rectangle
    (polar angle, radial fraction, spin, two scatter offsets); the disc version of the first
    stripe script draws two (polar angle, radial fraction). */
module Diffuse {
  import opened Numerics
  import opened Random

  /** The number of rectangles, `int(cov * pi * R^2 / (L * W))`: as many whole rectangles as
      fit in the inked area. */
  function RectCount(pi: real, radius: real, coverage: real, length: real, width: real): (n: nat)
    requires length * width != 0.0
    ensures 0.0 < length * width && 0.0 <= coverage * pi * Sq(radius) ==>
              n as real * (length * width) <= coverage * pi * Sq(radius)
              < (n as real + 1.0) * (length * width)
  {
    FitCount(coverage * pi * Sq(radius), length * width)
  }

  /** Which of the rectangle's draws comes third: the spin, then the two scatter offsets
      (vector renderers, and the raster renderer of the four-family version), or the two
      offsets and then the spin (raster renderer of the two earlier rectangle versions). */
  datatype DrawOrder = SpinThenScatter | ScatterThenSpin

  /** One rectangle: its centre and its spin in degrees, in the frame before any global
      rotation of the pattern. */
  datatype ScatteredRect = ScatteredRect(center: Point, spin: real)

  /** Where a rectangle lands before scatter: polar angle `uniform(0, 2 pi)` from u0 and
      radius `R * uniform(0, 1) ** 0.5` from u1. */
  function RectBase(m: Math, center: Point, radius: real, u0: real, u1: real): Point {
    Polar(m, center, radius, u0, m.pow(UniformValue(0.0, 1.0, u1), 0.5))
  }

  /** The rectangle placed from draws u0 .. u4 in the given order: its base point, spin
      `uniform(0, 180)` and scatter `uniform(-s, s)` on each axis with `s = randomness * L`. */
  function PlaceRect(m: Math, center: Point, radius: real, scatter: real, order: DrawOrder,
                     u0: real, u1: real, u2: real, u3: real, u4: real): ScatteredRect
  {
    var base := RectBase(m, center, radius, u0, u1);
    match order
    case SpinThenScatter =>
      ScatteredRect(Point(base.x + UniformValue(-scatter, scatter, u3), base.y + UniformValue(-scatter, scatter, u4)),
           UniformValue(0.0, 180.0, u2))
    case ScatterThenSpin =>
      ScatteredRect(Point(base.x + UniformValue(-scatter, scatter, u2), base.y + UniformValue(-scatter, scatter, u3)),
           UniformValue(0.0, 180.0, u4))
  }

  /** Rectangle k takes draws `pos + 5k .. pos + 5k + 4`. */
  function RectAt(m: Math, center: Point, radius: real, scatter: real, order: DrawOrder,
                  draws: nat -> real, pos: nat, k: nat): ScatteredRect
  {
    var b := pos + 5 * k;
    PlaceRect(m, center, radius, scatter, order, draws(b), draws(b + 1), draws(b + 2), draws(b + 3), draws(b + 4))
  }

  lemma RectAtShift(m: Math, center: Point, radius: real, scatter: real, order: DrawOrder,
                    draws: nat -> real, pos: nat, k: nat)
    ensures RectAt(m, center, radius, scatter, order, draws, pos + 5 * k, 0)
            == RectAt(m, center, radius, scatter, order, draws, pos, k)
  {}

  /** The first n rectangles placed from the stream starting at `pos`: rectangle k takes
      draws `pos + 5k .. pos + 5k + 4`. */
  function ScatteredRects(m: Math, center: Point, radius: real, scatter: real, order: DrawOrder,
                 draws: nat -> real, pos: nat, n: nat): (rects: seq<ScatteredRect>)
    ensures |rects| == n
    ensures forall k :: 0 <= k < n ==> rects[k] == RectAt(m, center, radius, scatter, order, draws, pos, k)
  {
    seq(n, k requires 0 <= k < n => RectAt(m, center, radius, scatter, order, draws, pos, k))
  }

  /** One more rectangle appends the next one placed. */
  lemma ScatteredRectsSnoc(m: Math, center: Point, radius: real, scatter: real, order: DrawOrder,
                  draws: nat -> real, pos: nat, i: nat)
    ensures ScatteredRects(m, center, radius, scatter, order, draws, pos, i + 1)
            == ScatteredRects(m, center, radius, scatter, order, draws, pos, i)
               + [RectAt(m, center, radius, scatter, order, draws, pos, i)]
  {
    var a := ScatteredRects(m, center, radius, scatter, order, draws, pos, i + 1);
    var b := ScatteredRects(m, center, radius, scatter, order, draws, pos, i)
             + [RectAt(m, center, radius, scatter, order, draws, pos, i)];
    assert |a| == |b|;
    forall k | 0 <= k < i + 1
      ensures a[k] == b[k]
    {}
  }

  /** From a unit radial draw, the base point lies in the disc: `(R f cos a)^2 + (R f sin a)^2
      = (R f)^2 <= R^2` with f in [0, 1]. */
  lemma RectBaseInDisc(m: Math, center: Point, radius: real, u0: real, u1: real)
    requires Valid(m) && 0.0 <= radius && 0.0 <= u1 < 1.0
    ensures Dist2(RectBase(m, center, radius, u0, u1), center) <= radius * radius
  {
    PowUnit(m, UniformValue(0.0, 1.0, u1), 0.5);
    PolarInDisc(m, center, radius, u0, m.pow(UniformValue(0.0, 1.0, u1), 0.5));
  }

  /** From unit draws, every rectangle lands within the scatter of its base point on each
      axis and spins between 0 and 180 degrees, whatever the draw order. */
  lemma RectNearBase(m: Math, center: Point, radius: real, scatter: real, order: DrawOrder,
                     u0: real, u1: real, u2: real, u3: real, u4: real)
    requires 0.0 <= scatter && 0.0 <= u2 < 1.0 && 0.0 <= u3 < 1.0 && 0.0 <= u4 < 1.0
    ensures var s := PlaceRect(m, center, radius, scatter, order, u0, u1, u2, u3, u4);
            var base := RectBase(m, center, radius, u0, u1);
            && -scatter <= s.center.x - base.x <= scatter
            && -scatter <= s.center.y - base.y <= scatter
            && 0.0 <= s.spin <= 180.0
  {
  }

  /** Two orders agree on the same five draws exactly when the spin draw and the second scatter
      draw coincide and, unless there is no scatter, the first scatter draw coincides with them
      too: the same seed gives different rectangles in general. */
  lemma OrdersAgreeIff(m: Math, center: Point, radius: real, scatter: real,
                       u0: real, u1: real, u2: real, u3: real, u4: real)
    requires 0.0 < scatter
    ensures PlaceRect(m, center, radius, scatter, SpinThenScatter, u0, u1, u2, u3, u4)
            == PlaceRect(m, center, radius, scatter, ScatterThenSpin, u0, u1, u2, u3, u4)
            <==> u2 == u3 && u3 == u4
  {
    var a := PlaceRect(m, center, radius, scatter, SpinThenScatter, u0, u1, u2, u3, u4);
    var b := PlaceRect(m, center, radius, scatter, ScatterThenSpin, u0, u1, u2, u3, u4);
    if a == b {
      assert UniformValue(-scatter, scatter, u3) == UniformValue(-scatter, scatter, u2);
      MulCancel(2.0 * scatter, u3, u2);
      assert UniformValue(-scatter, scatter, u4) == UniformValue(-scatter, scatter, u3);
      MulCancel(2.0 * scatter, u4, u3);
    }
  }

  /** The first two `uniform` calls of a rectangle: polar angle and radial fraction. */
  method DrawBase(rng: Rng, m: Math, center: Point, radius: real) returns (base: Point)
    modifies rng
    ensures base == RectBase(m, center, radius, rng.draws(old(rng.pos)), rng.draws(old(rng.pos) + 1))
    ensures rng.pos == old(rng.pos) + 2
  {
    ghost var p0 := rng.pos;
    var angle := rng.Uniform(0.0, 2.0 * m.pi);
    assert angle == UniformValue(0.0, 2.0 * m.pi, rng.draws(p0));
    var u := rng.Uniform(0.0, 1.0);
    assert u == UniformValue(0.0, 1.0, rng.draws(p0 + 1));
    var r := radius * m.pow(u, 0.5);
    base := Point(center.x + r * m.cos(angle), center.y + r * m.sin(angle));
  }

  /** The last three `uniform` calls of a rectangle: spin and scatter in the given order. */
  method DrawSpinAndScatter(rng: Rng, scatter: real, order: DrawOrder) returns (spin: real, dx: real, dy: real)
    modifies rng
    ensures var d, p := rng.draws, old(rng.pos);
            order == SpinThenScatter ==>
              spin == UniformValue(0.0, 180.0, d(p)) && dx == UniformValue(-scatter, scatter, d(p + 1))
              && dy == UniformValue(-scatter, scatter, d(p + 2))
    ensures var d, p := rng.draws, old(rng.pos);
            order == ScatterThenSpin ==>
              dx == UniformValue(-scatter, scatter, d(p)) && dy == UniformValue(-scatter, scatter, d(p + 1))
              && spin == UniformValue(0.0, 180.0, d(p + 2))
    ensures rng.pos == old(rng.pos) + 3
  {
    if order == SpinThenScatter {
      spin := rng.Uniform(0.0, 180.0);
      dx := rng.Uniform(-scatter, scatter);
      dy := rng.Uniform(-scatter, scatter);
    } else {
      dx := rng.Uniform(-scatter, scatter);
      dy := rng.Uniform(-scatter, scatter);
      spin := rng.Uniform(0.0, 180.0);
    }
  }

  /** One rectangle's five `uniform` calls, in the given order. */
  method DrawRect(rng: Rng, m: Math, center: Point, radius: real, scatter: real, order: DrawOrder)
    returns (s: ScatteredRect)
    modifies rng
    ensures s == RectAt(m, center, radius, scatter, order, rng.draws, old(rng.pos), 0)
    ensures rng.pos == old(rng.pos) + 5
  {
    var base := DrawBase(rng, m, center, radius);
    var spin, dx, dy := DrawSpinAndScatter(rng, scatter, order);
    s := ScatteredRect(Point(base.x + dx, base.y + dy), spin);
  }

  /** The rectangle loop of the diffuse renderers: `for _ in range(n)`, five `uniform` calls
      per rectangle in the given order. */
  method ScatterRects(rng: Rng, m: Math, center: Point, radius: real, scatter: real, order: DrawOrder, n: nat)
    returns (rects: seq<ScatteredRect>)
    modifies rng
    ensures rects == ScatteredRects(m, center, radius, scatter, order, rng.draws, old(rng.pos), n)
    ensures rng.pos == old(rng.pos) + 5 * n
  {
    rects := [];
    ghost var start := rng.pos;
    ghost var d := rng.draws;
    for i := 0 to n
      invariant rng.pos == start + 5 * i
      invariant rects == ScatteredRects(m, center, radius, scatter, order, d, start, i)
    {
      var s := DrawRect(rng, m, center, radius, scatter, order);
      assert s == RectAt(m, center, radius, scatter, order, d, start + 5 * i, 0);
      RectAtShift(m, center, radius, scatter, order, d, start, i);
      ScatteredRectsSnoc(m, center, radius, scatter, order, d, start, i);
      rects := rects + [s];
    }
  }

  /** The corners of a `length` x `width` rectangle spun about its centre, in the frame before
      any global rotation (the vector canvas's `translate` and `rotate`). */
  function RectCorners(m: Math, s: ScatteredRect, length: real, width: real): (cs: seq<Point>)
    ensures |cs| == 4
  {
    var a := Radians(m, s.spin);
    var c, sn := m.cos(a), m.sin(a);
    var hl, hw := length / 2.0, width / 2.0;
    [Add(s.center, Rotate(Point(-hl, -hw), c, sn)), Add(s.center, Rotate(Point(hl, -hw), c, sn)),
     Add(s.center, Rotate(Point(hl, hw), c, sn)), Add(s.center, Rotate(Point(-hl, hw), c, sn))]
  }

  /** Every corner of a spun rectangle lies at the half diagonal from its centre. */
  lemma RectCornersAtHalfDiagonal(m: Math, s: ScatteredRect, length: real, width: real, k: int)
    requires Valid(m) && 0 <= k < 4
    ensures Dist2(RectCorners(m, s, length, width)[k], s.center)
            == (length / 2.0) * (length / 2.0) + (width / 2.0) * (width / 2.0)
  {
    var a := Radians(m, s.spin);
    var c, sn := m.cos(a), m.sin(a);
    var hl, hw := length / 2.0, width / 2.0;
    var cs := RectCorners(m, s, length, width);
    SinCos(m, a);
    if k == 0 {
      assert cs[0] == Add(s.center, Rotate(Point(-hl, -hw), c, sn));
      SpunCornerDistance(s.center, Point(-hl, -hw), c, sn, hl, hw);
    } else if k == 1 {
      assert cs[1] == Add(s.center, Rotate(Point(hl, -hw), c, sn));
      SpunCornerDistance(s.center, Point(hl, -hw), c, sn, hl, hw);
    } else if k == 2 {
      assert cs[2] == Add(s.center, Rotate(Point(hl, hw), c, sn));
      SpunCornerDistance(s.center, Point(hl, hw), c, sn, hl, hw);
    } else {
      assert cs[3] == Add(s.center, Rotate(Point(-hl, hw), c, sn));
      SpunCornerDistance(s.center, Point(-hl, hw), c, sn, hl, hw);
    }
  }

  /** A corner offset (+-hl, +-hw) spun about the centre stays at the half diagonal. */
  lemma SpunCornerDistance(center: Point, v: Point, c: real, sn: real, hl: real, hw: real)
    requires c * c + sn * sn == 1.0
    requires (v.x == hl || v.x == -hl) && (v.y == hw || v.y == -hw)
    ensures Dist2(Add(center, Rotate(v, c, sn)), center) == hl * hl + hw * hw
  {
    var q := Add(center, Rotate(v, c, sn));
    assert q.x - center.x == v.x * c - v.y * sn;
    assert q.y - center.y == v.x * sn + v.y * c;
    RotatedNorm(v.x, v.y, c, sn);
    assert v.x * v.x == hl * hl by {
      if v.x == -hl { assert v.x * v.x == (-hl) * (-hl); }
    }
    assert v.y * v.y == hw * hw by {
      if v.y == -hw { assert v.y * v.y == (-hw) * (-hw); }
    }
  }

  /** The rectangle diffuse generators of the two earlier rectangle scripts: nothing at
      coverage <= 0, otherwise `RectCount` rectangles scattered by `randomness * L`, taking
      draws from `pos` on. */
  function DiffuseRects(m: Math, center: Point, radius: real, coverage: real, length: real, width: real,
                        randomness: real, order: DrawOrder, draws: nat -> real, pos: nat): (rects: seq<ScatteredRect>)
    requires length * width != 0.0
    ensures coverage <= 0.0 ==> rects == []
    ensures 0.0 < coverage ==> |rects| == RectCount(m.pi, radius, coverage, length, width)
  {
    if coverage <= 0.0 then []
    else ScatteredRects(m, center, radius, randomness * length, order, draws, pos, RectCount(m.pi, radius, coverage, length, width))
  }

  /** Every rectangle centre lies within the scatter, on each axis, of a point of the disc, and
      every spin lies in [0, 180]. */
  lemma DiffuseRectsNearDisc(m: Math, center: Point, radius: real, coverage: real, length: real, width: real,
                             randomness: real, order: DrawOrder, draws: nat -> real, pos: nat, k: nat)
    requires Valid(m) && UnitDraws(draws) && 0.0 <= radius && 0.0 <= randomness * length
    requires length * width != 0.0
    requires k < |DiffuseRects(m, center, radius, coverage, length, width, randomness, order, draws, pos)|
    ensures var s := DiffuseRects(m, center, radius, coverage, length, width, randomness, order, draws, pos)[k];
            var base := RectBase(m, center, radius, draws(pos + 5 * k), draws(pos + 5 * k + 1));
            && Dist2(base, center) <= radius * radius
            && -(randomness * length) <= s.center.x - base.x <= randomness * length
            && -(randomness * length) <= s.center.y - base.y <= randomness * length
            && 0.0 <= s.spin <= 180.0
  {
    var n := RectCount(m.pi, radius, coverage, length, width);
    var b := pos + 5 * k;
    RectBaseInDisc(m, center, radius, draws(b), draws(b + 1));
    RectNearBase(m, center, radius, randomness * length, order,
                 draws(b), draws(b + 1), draws(b + 2), draws(b + 3), draws(b + 4));
  }

  /** The four-family script runs the rectangle loop without a coverage guard; with positive
      rectangle area the count is 0 at coverage <= 0, so it produces the guarded sequence. */
  lemma UnguardedLoopMatchesGuard(m: Math, center: Point, radius: real, coverage: real, length: real, width: real,
                                  randomness: real, order: DrawOrder, draws: nat -> real, pos: nat)
    requires Valid(m) && 0.0 < length * width
    ensures ScatteredRects(m, center, radius, randomness * length, order, draws, pos, RectCount(m.pi, radius, coverage, length, width))
            == DiffuseRects(m, center, radius, coverage, length, width, randomness, order, draws, pos)
  {
    if coverage <= 0.0 {
      MulNonneg(m.pi, Sq(radius));
      MulNonneg(-coverage, m.pi * Sq(radius));
      assert coverage * m.pi * Sq(radius) <= 0.0;
    }
  }

  /** The rectangle loop of the diffuse renderers for one backend. */
  method AddDiffuse(rng: Rng, m: Math, center: Point, radius: real, coverage: real, length: real, width: real,
                    randomness: real, order: DrawOrder)
    returns (rects: seq<ScatteredRect>)
    requires length * width != 0.0
    modifies rng
    ensures rects == DiffuseRects(m, center, radius, coverage, length, width, randomness, order, rng.draws, old(rng.pos))
    ensures rng.pos == old(rng.pos) + 5 * |rects|
  {
    if coverage <= 0.0 {
      return [];
    }
    var n := RectCount(m.pi, radius, coverage, length, width);
    rects := ScatterRects(rng, m, center, radius, randomness * length, order, n);
  }

  function ScaleRects(c1: Point, c2: Point, f: real, rects: seq<ScatteredRect>): (r: seq<ScatteredRect>)
    ensures |r| == |rects|
    ensures forall k :: 0 <= k < |rects| ==> r[k] == ScatteredRect(ScaleAbout(c1, c2, f, rects[k].center), rects[k].spin)
  {
    seq(|rects|, k requires 0 <= k < |rects| => ScatteredRect(ScaleAbout(c1, c2, f, rects[k].center), rects[k].spin))
  }

  /** With one draw order on both sides, placing a rectangle in a frame scaled by f gives the
      scaled image of the original rectangle with the same spin. */
  lemma RectScales(m: Math, c1: Point, c2: Point, radius: real, radius2: real, scatter: real, scatter2: real,
                   f: real, order: DrawOrder, u0: real, u1: real, u2: real, u3: real, u4: real)
    requires radius2 == f * radius && scatter2 == f * scatter
    ensures PlaceRect(m, c2, radius2, scatter2, order, u0, u1, u2, u3, u4)
            == var s := PlaceRect(m, c1, radius, scatter, order, u0, u1, u2, u3, u4);
               ScatteredRect(ScaleAbout(c1, c2, f, s.center), s.spin)
  {
    BaseScales(m, c1, c2, radius, radius2, f, u0, u1);
    var b1, b2 := RectBase(m, c1, radius, u0, u1), RectBase(m, c2, radius2, u0, u1);
    match order
    case SpinThenScatter =>
      UniformScales(scatter, scatter2, f, u3);
      UniformScales(scatter, scatter2, f, u4);
      ShiftedRectScales(c1, c2, f, b1, b2, UniformValue(-scatter, scatter, u3), UniformValue(-scatter, scatter, u4),
                        UniformValue(-scatter2, scatter2, u3), UniformValue(-scatter2, scatter2, u4),
                        UniformValue(0.0, 180.0, u2));
    case ScatterThenSpin =>
      UniformScales(scatter, scatter2, f, u2);
      UniformScales(scatter, scatter2, f, u3);
      ShiftedRectScales(c1, c2, f, b1, b2, UniformValue(-scatter, scatter, u2), UniformValue(-scatter, scatter, u3),
                        UniformValue(-scatter2, scatter2, u2), UniformValue(-scatter2, scatter2, u3),
                        UniformValue(0.0, 180.0, u4));
  }

  /** A base point and its shift, both scaled, give the scaled shifted rectangle. */
  lemma ShiftedRectScales(c1: Point, c2: Point, f: real, b1: Point, b2: Point,
                          dx: real, dy: real, dx2: real, dy2: real, spin: real)
    requires b2 == ScaleAbout(c1, c2, f, b1) && dx2 == f * dx && dy2 == f * dy
    ensures ScatteredRect(Point(b2.x + dx2, b2.y + dy2), spin) == ScatteredRect(ScaleAbout(c1, c2, f, Point(b1.x + dx, b1.y + dy)), spin)
  {
    ShiftScales(c1, c2, f, b1, dx, dy);
  }

  /** Scaling commutes with a shift, the shift being scaled too. */
  lemma ShiftScales(c1: Point, c2: Point, f: real, p: Point, dx: real, dy: real)
    ensures ScaleAbout(c1, c2, f, Point(p.x + dx, p.y + dy))
            == Point(ScaleAbout(c1, c2, f, p).x + f * dx, ScaleAbout(c1, c2, f, p).y + f * dy)
  {
    MulDistributes(f, p.x - c1.x, dx);
    MulDistributes(f, p.y - c1.y, dy);
    assert (p.x + dx) - c1.x == (p.x - c1.x) + dx;
    assert (p.y + dy) - c1.y == (p.y - c1.y) + dy;
  }

  lemma BaseScales(m: Math, c1: Point, c2: Point, radius: real, radius2: real, f: real, u0: real, u1: real)
    requires radius2 == f * radius
    ensures RectBase(m, c2, radius2, u0, u1) == ScaleAbout(c1, c2, f, RectBase(m, c1, radius, u0, u1))
  {
    PolarScales(m, c1, c2, radius, radius2, f, u0, m.pow(UniformValue(0.0, 1.0, u1), 0.5));
  }

  lemma UniformScales(scatter: real, scatter2: real, f: real, u: real)
    requires scatter2 == f * scatter
    ensures UniformValue(-scatter2, scatter2, u) == f * UniformValue(-scatter, scatter, u)
  {
    assert (scatter2 - -scatter2) * u == f * ((scatter - -scatter) * u);
  }

  /** The first n rectangles, placed in a frame scaled by f, are the scaled images of the
      rectangles placed from the same draws in the original frame. */
  lemma ScatteredRectsScale(m: Math, c1: Point, c2: Point, radius: real, radius2: real, scatter: real, scatter2: real,
                   f: real, order: DrawOrder, draws: nat -> real, pos: nat, n: nat)
    requires radius2 == f * radius && scatter2 == f * scatter
    ensures ScatteredRects(m, c2, radius2, scatter2, order, draws, pos, n)
            == ScaleRects(c1, c2, f, ScatteredRects(m, c1, radius, scatter, order, draws, pos, n))
  {
    var px := ScatteredRects(m, c2, radius2, scatter2, order, draws, pos, n);
    var pdf := ScatteredRects(m, c1, radius, scatter, order, draws, pos, n);
    forall k | 0 <= k < n ensures px[k] == ScaleRects(c1, c2, f, pdf)[k] {
      var b := pos + 5 * k;
      RectScales(m, c1, c2, radius, radius2, scatter, scatter2, f, order,
                 draws(b), draws(b + 1), draws(b + 2), draws(b + 3), draws(b + 4));
    }
  }

  /** Corrected cross-backend agreement: when the raster renderer takes each rectangle's
      draws in the vector renderer's order, its rectangles (disc radius and scatter in pixels,
      `f` pixels per point) are the vector rectangles scaled from points to pixels, one for
      one, with the same spins. */
  lemma PreviewIsScaledVector(m: Math, c1: Point, c2: Point, radius: real, radius2: real,
                              scatter: real, scatter2: real, f: real, draws: nat -> real, pos: nat, n: nat)
    requires radius2 == f * radius && scatter2 == f * scatter
    ensures ScatteredRects(m, c2, radius2, scatter2, SpinThenScatter, draws, pos, n)
            == ScaleRects(c1, c2, f, ScatteredRects(m, c1, radius, scatter, SpinThenScatter, draws, pos, n))
  {
    ScatteredRectsScale(m, c1, c2, radius, radius2, scatter, scatter2, f, SpinThenScatter, draws, pos, n);
  }

  /** The rectangle count is unit-free: scaling the dish radius and both rectangle sides by
      the same positive factor keeps it. */
  lemma RectCountScales(pi: real, radius: real, radius2: real, coverage: real, length: real, length2: real,
                        width: real, width2: real, f: real)
    requires 0.0 < f && length * width != 0.0
    requires radius2 == f * radius && length2 == f * length && width2 == f * width
    ensures length2 * width2 != 0.0
    ensures RectCount(pi, radius2, coverage, length2, width2) == RectCount(pi, radius, coverage, length, width)
  {
    var k := f * f;
    MulPos(f, f);
    var a := coverage * pi * Sq(radius);
    var u := length * width;
    SqOfProduct(f, radius);
    MulNonzero(k, u);
    assert coverage * pi * Sq(radius2) == k * a;
    assert length2 * width2 == k * u;
    FitCountScales(a, u, k, coverage * pi * Sq(radius2), length2 * width2);
    RectCountIsFit(pi, radius2, coverage, length2, width2);
    RectCountIsFit(pi, radius, coverage, length, width);
  }

  lemma RectCountIsFit(pi: real, radius: real, coverage: real, length: real, width: real)
    requires length * width != 0.0
    ensures RectCount(pi, radius, coverage, length, width) == FitCount(coverage * pi * Sq(radius), length * width)
  {}

  /** Corrected cross-backend agreement for the whole generator: when the preview converts the
      dish radius and the rectangle sides by the same factor f as every other length (through
      the outer disc, `Region.OuterConversionKeepsProportion`) and draws in the vector
      renderer's order, it places as many rectangles as the PDF and each is the PDF rectangle
      scaled by f, with the same spin. */
  lemma ProportionalPreviewIsScaledVector(m: Math, c1: Point, c2: Point, radius: real, radius2: real,
                                          coverage: real, length: real, length2: real, width: real, width2: real,
                                          randomness: real, f: real, draws: nat -> real, pos: nat)
    requires 0.0 < f && length * width != 0.0
    requires radius2 == f * radius && length2 == f * length && width2 == f * width
    ensures length2 * width2 != 0.0
    ensures DiffuseRects(m, c2, radius2, coverage, length2, width2, randomness, SpinThenScatter, draws, pos)
            == ScaleRects(c1, c2, f, DiffuseRects(m, c1, radius, coverage, length, width, randomness, SpinThenScatter, draws, pos))
  {
    RectCountScales(m.pi, radius, radius2, coverage, length, length2, width, width2, f);
    if 0.0 < coverage {
      var n := RectCount(m.pi, radius, coverage, length, width);
      var s1, s2 := randomness * length, randomness * length2;
      assert s2 == f * s1;
      DiffuseRectsUnfold(m, c1, radius, coverage, length, width, randomness, SpinThenScatter, draws, pos);
      DiffuseRectsUnfold(m, c2, radius2, coverage, length2, width2, randomness, SpinThenScatter, draws, pos);
      PreviewIsScaledVector(m, c1, c2, radius, radius2, s1, s2, f, draws, pos, n);
    } else {
      assert ScaleRects(c1, c2, f, []) == [];
    }
  }

  lemma DiffuseRectsUnfold(m: Math, center: Point, radius: real, coverage: real, length: real, width: real,
                             randomness: real, order: DrawOrder, draws: nat -> real, pos: nat)
    requires length * width != 0.0 && 0.0 < coverage
    ensures DiffuseRects(m, center, radius, coverage, length, width, randomness, order, draws, pos)
            == ScatteredRects(m, center, radius, randomness * length, order, draws, pos, RectCount(m.pi, radius, coverage, length, width))
  {}

  /** As written, the preview's lengths shrink by `1 - border` against the dish, so it places
      more rectangles than the PDF: a 10 mm dish 200 pixels wide with the default border 0.15
      (pattern radius 85 px) and 1 mm squares at coverage 0.5 gives 39 rectangles of 17 px,
      where the proportional 20 px squares give 28, the PDF's count. */
  lemma InnerConversionChangesCount()
    ensures RectCount(3.14159, 85.0, 0.5, 17.0, 17.0) == 39
    ensures RectCount(3.14159, 85.0, 0.5, 20.0, 20.0) == 28
  {
    RectCountIsFit(3.14159, 85.0, 0.5, 17.0, 17.0);
    RectCountIsFit(3.14159, 85.0, 0.5, 20.0, 20.0);
    assert 0.5 * 3.14159 * Sq(85.0) == 11348.993875;
  }

  /** As written, the raster renderer of the two earlier rectangle scripts draws the scatter
      before the spin, so the same stream gives a preview that is not the scaled vector
      pattern: with draws 0.5, 0, 0 in the third to fifth place, the first vector rectangle
      spins 90 degrees and the first preview rectangle 0. */
  lemma LegacyPreviewDiffers(m: Math, c1: Point, c2: Point, radius: real, radius2: real,
                             scatter: real, scatter2: real, f: real, draws: nat -> real, pos: nat, n: nat)
    requires 1 <= n
    requires draws(pos + 2) == 0.5 && draws(pos + 3) == 0.0 && draws(pos + 4) == 0.0
    ensures ScatteredRects(m, c2, radius2, scatter2, ScatterThenSpin, draws, pos, n)[0].spin == 0.0
    ensures ScatteredRects(m, c1, radius, scatter, SpinThenScatter, draws, pos, n)[0].spin == 90.0
    ensures ScatteredRects(m, c2, radius2, scatter2, ScatterThenSpin, draws, pos, n)
            != ScaleRects(c1, c2, f, ScatteredRects(m, c1, radius, scatter, SpinThenScatter, draws, pos, n))
  {
    ScatteredRectsSpin(m, c2, radius2, scatter2, ScatterThenSpin, draws, pos, n, 0);
    ScatteredRectsSpin(m, c1, radius, scatter, SpinThenScatter, draws, pos, n, 0);
    var pdf := ScatteredRects(m, c1, radius, scatter, SpinThenScatter, draws, pos, n);
    assert ScaleRects(c1, c2, f, pdf)[0].spin == pdf[0].spin;
  }

  /** Rectangle k's spin is `uniform(0, 180)` of its third draw when the spin is drawn first,
      and of its fifth when it is drawn last. */
  lemma ScatteredRectsSpin(m: Math, center: Point, radius: real, scatter: real, order: DrawOrder,
                  draws: nat -> real, pos: nat, n: nat, k: nat)
    requires k < n
    ensures ScatteredRects(m, center, radius, scatter, order, draws, pos, n)[k].spin
            == 180.0 * draws(pos + 5 * k + (if order == SpinThenScatter then 2 else 4))
  {
  }

  /** The raster renderers rotate each spun rectangle about the pattern centre by the pattern
      angle (cosine `c`, sine `sn`); the four-family script passes no pattern angle, which is
      the rotation with `c = 1`, `sn = 0`. */
  function PreviewPolygon(m: Math, center: Point, s: ScatteredRect, length: real, width: real, c: real, sn: real): (ps: seq<Point>)
    ensures |ps| == 4
  {
    RotateAll(center, RectCorners(m, s, length, width), c, sn)
  }

  /** Rotating about the pattern centre moves no corner nearer to or farther from it. */
  lemma PreviewPolygonKeepsDistance(m: Math, center: Point, s: ScatteredRect, length: real, width: real,
                                    c: real, sn: real, k: int)
    requires c * c + sn * sn == 1.0 && 0 <= k < 4
    ensures Dist2(PreviewPolygon(m, center, s, length, width, c, sn)[k], center)
            == Dist2(RectCorners(m, s, length, width)[k], center)
  {
    RotationKeepsDistance(center, RectCorners(m, s, length, width)[k], c, sn);
  }

  /** Without a pattern angle the preview polygon is the spun rectangle itself. */
  lemma UnrotatedPreviewPolygon(m: Math, center: Point, s: ScatteredRect, length: real, width: real)
    ensures PreviewPolygon(m, center, s, length, width, 1.0, 0.0) == RectCorners(m, s, length, width)
  {
    var cs := RectCorners(m, s, length, width);
    forall k | 0 <= k < 4 ensures PreviewPolygon(m, center, s, length, width, 1.0, 0.0)[k] == cs[k] {
      assert RotateAbout(center, cs[k], 1.0, 0.0) == cs[k];
    }
  }

  // ---- The disc version of the first stripe script ----

  /** `int(cov * pi R^2 / (pi r^2))`: as many whole spots as fit in the inked area. The spacing
      the caller passes plays no part. */
  function DiscCount(pi: real, radius: real, coverage: real, spotRadius: real): (n: nat)
    requires pi * Sq(spotRadius) != 0.0
    ensures 0.0 < pi * Sq(spotRadius) && 0.0 <= coverage * (pi * Sq(radius)) ==>
              n as real * (pi * Sq(spotRadius)) <= coverage * (pi * Sq(radius))
              < (n as real + 1.0) * (pi * Sq(spotRadius))
  {
    FitCount(coverage * (pi * Sq(radius)), pi * Sq(spotRadius))
  }

  /** A spot centre from two draws: polar angle `uniform(0, 2 pi)` and radius
      `R * sqrt(uniform(0, 1))`. */
  function DiscCenter(m: Math, center: Point, radius: real, u0: real, u1: real): Point {
    Polar(m, center, radius, u0, m.sqrt(UniformValue(0.0, 1.0, u1)))
  }

  lemma DiscCenterInDisc(m: Math, center: Point, radius: real, u0: real, u1: real)
    requires Valid(m) && 0.0 <= radius && 0.0 <= u1 < 1.0
    ensures Dist2(DiscCenter(m, center, radius, u0, u1), center) <= radius * radius
  {
    var u := UniformValue(0.0, 1.0, u1);
    SqrtSquares(m, u);
    var f := m.sqrt(u);
    assert f <= 1.0 by {
      if 1.0 < f {
        MulPos(f - 1.0, f + 1.0);
      }
    }
    PolarInDisc(m, center, radius, u0, f);
  }

  /** Spot k takes draws `pos + 2k` and `pos + 2k + 1`. */
  function DiscCenters(m: Math, center: Point, radius: real, draws: nat -> real, pos: nat, n: nat): (cs: seq<Point>)
    ensures |cs| == n
    ensures forall k :: 0 <= k < n ==> cs[k] == DiscCenter(m, center, radius, draws(pos + 2 * k), draws(pos + 2 * k + 1))
  {
    seq(n, k requires 0 <= k < n => DiscCenter(m, center, radius, draws(pos + 2 * k), draws(pos + 2 * k + 1)))
  }

  /** The spot loop of the disc generators (vector and raster): nothing at coverage <= 0,
      otherwise `DiscCount` spots of radius `spotRadius`, two draws each. */
  method AddDiscs(rng: Rng, m: Math, center: Point, radius: real, coverage: real, spotRadius: real)
    returns (centers: seq<Point>)
    requires 0.0 < coverage ==> m.pi * Sq(spotRadius) != 0.0
    modifies rng
    ensures coverage <= 0.0 ==> centers == [] && rng.pos == old(rng.pos)
    ensures 0.0 < coverage ==>
              centers == DiscCenters(m, center, radius, rng.draws, old(rng.pos), DiscCount(m.pi, radius, coverage, spotRadius))
    ensures rng.pos == old(rng.pos) + 2 * |centers|
  {
    if coverage <= 0.0 {
      return [];
    }
    var n := DiscCount(m.pi, radius, coverage, spotRadius);
    centers := [];
    ghost var start := rng.pos;
    for i := 0 to n
      invariant rng.pos == start + 2 * i
      invariant centers == DiscCenters(m, center, radius, rng.draws, start, i)
    {
      var p := DrawDiscCenter(rng, m, center, radius);
      DiscCentersSnoc(m, center, radius, rng.draws, start, i);
      centers := centers + [p];
    }
  }

  lemma DiscCentersSnoc(m: Math, center: Point, radius: real, draws: nat -> real, pos: nat, i: nat)
    ensures DiscCenters(m, center, radius, draws, pos, i + 1)
            == DiscCenters(m, center, radius, draws, pos, i)
               + [DiscCenter(m, center, radius, draws(pos + 2 * i), draws(pos + 2 * i + 1))]
  {
    var a := DiscCenters(m, center, radius, draws, pos, i + 1);
    var b := DiscCenters(m, center, radius, draws, pos, i)
             + [DiscCenter(m, center, radius, draws(pos + 2 * i), draws(pos + 2 * i + 1))];
    assert |a| == |b|;
    forall k | 0 <= k < i + 1
      ensures a[k] == b[k]
    {}
  }

  /** One spot's two `uniform` calls. */
  method DrawDiscCenter(rng: Rng, m: Math, center: Point, radius: real) returns (p: Point)
    modifies rng
    ensures p == DiscCenter(m, center, radius, rng.draws(old(rng.pos)), rng.draws(old(rng.pos) + 1))
    ensures rng.pos == old(rng.pos) + 2
  {
    ghost var p0 := rng.pos;
    var angle := rng.Uniform(0.0, 2.0 * m.pi);
    assert angle == UniformValue(0.0, 2.0 * m.pi, rng.draws(p0));
    var u := rng.Uniform(0.0, 1.0);
    assert u == UniformValue(0.0, 1.0, rng.draws(p0 + 1));
    var r := radius * m.sqrt(u);
    p := Point(center.x + r * m.cos(angle), center.y + r * m.sin(angle));
  }

  /** The raster disc generator draws spots of radius at least one pixel. */
  function PreviewSpotRadius(spotSizePx: real): (r: real)
    ensures 1.0 <= r
    ensures 2.0 <= spotSizePx ==> r == spotSizePx / 2.0
  {
    Max(1.0, spotSizePx / 2.0)
  }
}
