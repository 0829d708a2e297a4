/** The patchy family. The four-family script and the mesh-and-islands script scatter islands
    with harmonic outlines; the first stripe script scatters short rectangles instead. */
module Patchy {
  import opened Numerics
  import opened Random
  import opened Harmonic
  import Diffuse

  /** The two island generators: the four-family script clamps the density in the radial
      exponent and draws 32-vertex outlines (amplitudes in [0.15, 0.4], bend 0.6); the
      mesh-and-islands script falls back to a uniform radial draw at density <= 0 and draws
      16-vertex outlines (amplitudes in [0.2, 0.5], bend 0.5). */
  datatype IslandRules = Clamped | Guarded

  /** Number of harmonics of every island outline. */
  const Harmonics: nat := 4

  /** Draws taken per island: angle, radial fraction, size, then the harmonics. */
  const IslandDraws: nat := 3 + 2 * Harmonics

  function VertexCount(rules: IslandRules): nat {
    match rules
    case Clamped => 32
    case Guarded => 16
  }

  function Bend(rules: IslandRules): real {
    match rules
    case Clamped => 0.6
    case Guarded => 0.5
  }

  function AmpLow(rules: IslandRules): real {
    match rules
    case Clamped => 0.15
    case Guarded => 0.2
  }

  function AmpHigh(rules: IslandRules): real {
    match rules
    case Clamped => 0.4
    case Guarded => 0.5
  }

  /** The radial fraction of an island centre from the unit draw u. */
  function RadialFactor(m: Math, rules: IslandRules, density: real, u: real): real {
    match rules
    case Clamped => m.pow(UniformValue(0.0, 1.0, u), 1.0 / Max(0.1, density))
    case Guarded => if 0.0 < density then m.pow(UniformValue(0.0, 1.0, u), 1.0 / density) else UniformValue(0.0, 1.0, u)
  }

  /** Both laws give a fraction in [0, 1], whatever the density; the guarded law is the plain
      uniform draw at density <= 0. */
  lemma RadialFactorUnit(m: Math, rules: IslandRules, density: real, u: real)
    requires Valid(m) && 0.0 <= u < 1.0
    ensures 0.0 <= RadialFactor(m, rules, density, u) <= 1.0
    ensures rules == Guarded && density <= 0.0 ==> RadialFactor(m, rules, density, u) == u
  {
    var v := UniformValue(0.0, 1.0, u);
    match rules
    case Clamped =>
      PowUnit(m, v, 1.0 / Max(0.1, density));
    case Guarded =>
      if 0.0 < density {
        PowUnit(m, v, 1.0 / density);
      }
  }

  /** `cov * pi R^2 / n / pi`: each island's share of the inked area, over pi. */
  function IslandShare(pi: real, radius: real, coverage: real, numIslands: real): real
    requires numIslands != 0.0 && pi != 0.0
  {
    coverage * (pi * Sq(radius)) / numIslands / pi
  }

  /** `sqrt(cov * pi R^2 / n / pi)`: the radius of n equal discs that ink the coverage. */
  function BaseRadius(m: Math, radius: real, coverage: real, numIslands: real): real
    requires numIslands != 0.0 && m.pi != 0.0
  {
    m.sqrt(IslandShare(m.pi, radius, coverage, numIslands))
  }

  /** n islands of the base radius ink exactly the coverage: `n * base^2 = cov * R^2`. */
  lemma BaseRadiusSolves(m: Math, radius: real, coverage: real, numIslands: real)
    requires Valid(m) && 0.0 < numIslands && 0.0 <= coverage
    ensures numIslands * Sq(BaseRadius(m, radius, coverage, numIslands)) == coverage * Sq(radius)
    ensures 0.0 <= BaseRadius(m, radius, coverage, numIslands)
  {
    var x := IslandShare(m.pi, radius, coverage, numIslands);
    IslandShareSplits(m.pi, radius, coverage, numIslands);
    SqrtSquares(m, x);
    assert Sq(m.sqrt(x)) == x;
  }

  /** The n shares add up to the inked area over pi, and none is negative. */
  lemma IslandShareSplits(pi: real, radius: real, coverage: real, numIslands: real)
    requires 0.0 < pi && 0.0 < numIslands && 0.0 <= coverage
    ensures numIslands * IslandShare(pi, radius, coverage, numIslands) == coverage * Sq(radius)
    ensures 0.0 <= IslandShare(pi, radius, coverage, numIslands)
  {
    var a := coverage * (pi * Sq(radius));
    var q := a / numIslands;
    var x := IslandShare(pi, radius, coverage, numIslands);
    assert x == q / pi;
    MulNonneg(pi, Sq(radius));
    MulNonneg(coverage, pi * Sq(radius));
    DivTimes(a, numIslands);
    NonnegFactor(q, numIslands);
    DivTimes(q, pi);
    NonnegFactor(x, pi);
    assert pi * (numIslands * x) == numIslands * (x * pi);
    assert pi * (numIslands * x) == pi * (coverage * Sq(radius));
    MulCancel(pi, numIslands * x, coverage * Sq(radius));
  }

  lemma SqInjective(a: real, b: real)
    requires 0.0 <= a && 0.0 <= b && Sq(a) == Sq(b)
    ensures a == b
  {
    assert (b + a) * (b - a) == (b + a) * 0.0;
    if b + a != 0.0 {
      MulCancel(b + a, b - a, 0.0);
    }
  }

  /** The base radius scales with the dish: in a frame scaled by f it is f times the base
      radius. */
  lemma BaseRadiusScales(m: Math, radius: real, radius2: real, f: real, coverage: real, numIslands: real)
    requires Valid(m) && 0.0 < numIslands && 0.0 <= coverage && 0.0 <= f && radius2 == f * radius
    ensures BaseRadius(m, radius2, coverage, numIslands) == f * BaseRadius(m, radius, coverage, numIslands)
  {
    var b, b2 := BaseRadius(m, radius, coverage, numIslands), BaseRadius(m, radius2, coverage, numIslands);
    BaseRadiusSolves(m, radius, coverage, numIslands);
    BaseRadiusSolves(m, radius2, coverage, numIslands);
    var sf, sr, sb := Sq(f), Sq(radius), Sq(b);
    SqScale(f, radius, radius2);
    assert numIslands * Sq(b2) == sf * (coverage * sr);
    assert numIslands * Sq(b2) == numIslands * (sf * sb);
    MulCancel(numIslands, Sq(b2), sf * sb);
    SqScale(f, b, f * b);
    MulNonneg(f, b);
    SqInjective(b2, f * b);
  }

  lemma SqScale(f: real, x: real, y: real)
    requires y == f * x
    ensures Sq(y) == Sq(f) * Sq(x)
  {}

  /** One island: its centre, its base-to-boundary radius and its drawn harmonics. */
  datatype Island = Island(center: Point, radius: real, amps: seq<real>, phases: seq<real>)

  /** The island placed from the draws at `p`: polar angle `uniform(0, 2 pi)`, radial fraction,
      size `uniform(0.6, 1.4) * density` times the base radius, then the amplitudes and the
      phases. */
  function IslandAt(m: Math, rules: IslandRules, center: Point, radius: real, base: real, density: real,
                    draws: nat -> real, p: nat): (isl: Island)
    ensures |isl.amps| == Harmonics && |isl.phases| == Harmonics
  {
    Island(Polar(m, center, radius, draws(p), RadialFactor(m, rules, density, draws(p + 1))),
           base * (UniformValue(0.6, 1.4, draws(p + 2)) * density),
           Amplitudes(AmpLow(rules), AmpHigh(rules), draws, p + 3, Harmonics),
           Phases(m, draws, p + 3 + Harmonics, Harmonics))
  }

  /** Island k takes draws `pos + 11k .. pos + 11k + 10`. */
  function Islands(m: Math, rules: IslandRules, center: Point, radius: real, base: real, density: real,
                   draws: nat -> real, pos: nat, n: nat): (isls: seq<Island>)
    ensures |isls| == n
    ensures forall k :: 0 <= k < n ==> isls[k] == IslandAt(m, rules, center, radius, base, density, draws, pos + IslandDraws * k)
  {
    seq(n, k requires 0 <= k < n => IslandAt(m, rules, center, radius, base, density, draws, pos + IslandDraws * k))
  }

  /** The patchy generator: nothing when the coverage or the island count is not positive,
      otherwise `int(num_islands)` islands of the base radius. */
  function Patches(m: Math, rules: IslandRules, center: Point, radius: real, coverage: real, numIslands: real,
                   density: real, draws: nat -> real, pos: nat): (isls: seq<Island>)
    requires m.pi != 0.0
    ensures coverage <= 0.0 || numIslands <= 0.0 ==> isls == []
    ensures 0.0 < coverage && 0.0 < numIslands ==>
              isls == Islands(m, rules, center, radius, BaseRadius(m, radius, coverage, numIslands), density,
                              draws, pos, Iterations(numIslands))
  {
    if coverage <= 0.0 || numIslands <= 0.0 then []
    else Islands(m, rules, center, radius, BaseRadius(m, radius, coverage, numIslands), density,
                 draws, pos, Iterations(numIslands))
  }

  /** The closed outline of an island, centred on it. */
  function Outline(m: Math, rules: IslandRules, isl: Island): (ps: seq<Point>)
    requires 0 < |isl.amps| && |isl.amps| == |isl.phases|
    ensures |ps| == VertexCount(rules)
  {
    Boundary(m, isl.center, isl.radius, Bend(rules), isl.amps, isl.phases, VertexCount(rules), 0.0)
  }

  /** Every island centre lies in the dish, and its radius lies between 0.6 and 1.4 times the
      base radius times the density. */
  lemma IslandPlacement(m: Math, rules: IslandRules, center: Point, radius: real, base: real, density: real,
                        draws: nat -> real, p: nat)
    requires Valid(m) && UnitDraws(draws) && 0.0 <= radius && 0.0 <= base && 0.0 <= density
    ensures var isl := IslandAt(m, rules, center, radius, base, density, draws, p);
            && Dist2(isl.center, center) <= radius * radius
            && 0.6 * (base * density) <= isl.radius <= 1.4 * (base * density)
  {
    RadialFactorUnit(m, rules, density, draws(p + 1));
    PolarInDisc(m, center, radius, draws(p), RadialFactor(m, rules, density, draws(p + 1)));
    SizeRange(base, density, UniformValue(0.6, 1.4, draws(p + 2)));
  }

  lemma SizeRange(base: real, density: real, u: real)
    requires 0.0 <= base && 0.0 <= density && 0.6 <= u <= 1.4
    ensures 0.6 * (base * density) <= base * (u * density) <= 1.4 * (base * density)
  {
    MulNonneg(base, density);
    MulNonneg(u - 0.6, base * density);
    MulNonneg(1.4 - u, base * density);
    assert base * (u * density) == u * (base * density);
  }

  /** The outline of every island keeps away from the island centre: its vertices lie between
      0.76 and 1.24 island radii from it in the four-family script, and between 0.75 and 1.25
      in the mesh-and-islands script. */
  lemma OutlineInAnnulus(m: Math, rules: IslandRules, center: Point, radius: real, base: real, density: real,
                         draws: nat -> real, p: nat, i: nat)
    requires Valid(m) && UnitDraws(draws) && 0.0 <= base && 0.0 <= density && i < VertexCount(rules)
    ensures var isl := IslandAt(m, rules, center, radius, base, density, draws, p);
            var d := Dist2(Outline(m, rules, isl)[i], isl.center);
            && (rules == Clamped ==> Sq(isl.radius * 0.76) <= d <= Sq(isl.radius * 1.24))
            && (rules == Guarded ==> Sq(isl.radius * 0.75) <= d <= Sq(isl.radius * 1.25))
  {
    var isl := IslandAt(m, rules, center, radius, base, density, draws, p);
    AmplitudesInRange(AmpLow(rules), AmpHigh(rules), draws, p + 3, Harmonics);
    var u := UniformValue(0.6, 1.4, draws(p + 2));
    MulNonneg(u, density);
    MulNonneg(base, u * density);
    BoundaryInAnnulus(m, isl.center, isl.radius, Bend(rules), isl.amps, isl.phases, VertexCount(rules), 0.0,
                      AmpHigh(rules), i);
    match rules
    case Clamped =>
      assert 1.0 - Bend(rules) * AmpHigh(rules) == 0.76 && 1.0 + Bend(rules) * AmpHigh(rules) == 1.24;
    case Guarded =>
      assert 1.0 - Bend(rules) * AmpHigh(rules) == 0.75 && 1.0 + Bend(rules) * AmpHigh(rules) == 1.25;
  }

  /** An island in a frame scaled by f: centre and radius scaled, harmonics unchanged. */
  function ScaleIsland(c1: Point, c2: Point, f: real, isl: Island): Island {
    Island(ScaleAbout(c1, c2, f, isl.center), f * isl.radius, isl.amps, isl.phases)
  }

  /** With the dish and the base radius in a frame scaled by f, the same draws give the same
      islands scaled: the preview draws what the vector renderer draws, in pixels. */
  lemma IslandScales(m: Math, rules: IslandRules, c1: Point, c2: Point, radius: real, radius2: real,
                     base: real, base2: real, f: real, density: real, draws: nat -> real, p: nat)
    requires radius2 == f * radius && base2 == f * base
    ensures IslandAt(m, rules, c2, radius2, base2, density, draws, p)
            == ScaleIsland(c1, c2, f, IslandAt(m, rules, c1, radius, base, density, draws, p))
  {
    PolarScales(m, c1, c2, radius, radius2, f, draws(p), RadialFactor(m, rules, density, draws(p + 1)));
    var s := UniformValue(0.6, 1.4, draws(p + 2)) * density;
    assert base2 * s == f * (base * s);
  }

  /** The outline of a scaled island is the scaled outline. */
  lemma OutlineScales(m: Math, rules: IslandRules, c1: Point, c2: Point, f: real, isl: Island)
    requires 0 < |isl.amps| && |isl.amps| == |isl.phases|
    ensures Outline(m, rules, ScaleIsland(c1, c2, f, isl)) == ScaleAll(c1, c2, f, Outline(m, rules, isl))
  {
    var c := ScaleAbout(c1, c2, f, isl.center);
    var o := Outline(m, rules, isl);
    BoundaryScales(m, isl.center, c, isl.radius, f * isl.radius, f, Bend(rules), isl.amps, isl.phases,
                   VertexCount(rules), 0.0);
    assert o == Boundary(m, isl.center, isl.radius, Bend(rules), isl.amps, isl.phases, VertexCount(rules), 0.0);
    var lhs, rhs := ScaleAll(isl.center, c, f, o), ScaleAll(c1, c2, f, o);
    forall i | 0 <= i < |o| ensures lhs[i] == rhs[i] {
      ScaleRebase(c1, c2, f, isl.center, o[i]);
    }
    assert lhs == rhs;
    var si := ScaleIsland(c1, c2, f, isl);
    assert si.center == c && si.radius == f * isl.radius && si.amps == isl.amps && si.phases == isl.phases;
    assert Outline(m, rules, si) == Boundary(m, c, f * isl.radius, Bend(rules), isl.amps, isl.phases, VertexCount(rules), 0.0);
    assert Boundary(m, c, f * isl.radius, Bend(rules), isl.amps, isl.phases, VertexCount(rules), 0.0) == lhs;
  }

  /** Scaling about a point and its image is scaling about the original pair of centres. */
  lemma ScaleRebase(c1: Point, c2: Point, f: real, q: Point, p: Point)
    ensures ScaleAbout(q, ScaleAbout(c1, c2, f, q), f, p) == ScaleAbout(c1, c2, f, p)
  {
    assert f * (q.x - c1.x) + f * (p.x - q.x) == f * (p.x - c1.x);
    assert f * (q.y - c1.y) + f * (p.y - q.y) == f * (p.y - c1.y);
  }

  /** The preview's islands are the vector islands scaled from points to pixels, one for one,
      when the dish radius is scaled by f: the base radius scales too. */
  lemma PreviewIslandsAreScaled(m: Math, rules: IslandRules, c1: Point, c2: Point, radius: real, radius2: real,
                                f: real, coverage: real, numIslands: real, density: real, draws: nat -> real, pos: nat)
    requires Valid(m) && 0.0 <= f && radius2 == f * radius
    ensures var px := Patches(m, rules, c2, radius2, coverage, numIslands, density, draws, pos);
            var pt := Patches(m, rules, c1, radius, coverage, numIslands, density, draws, pos);
            && |px| == |pt|
            && forall k :: 0 <= k < |pt| ==> px[k] == ScaleIsland(c1, c2, f, pt[k])
  {
    if 0.0 < coverage && 0.0 < numIslands {
      var base := BaseRadius(m, radius, coverage, numIslands);
      var base2 := BaseRadius(m, radius2, coverage, numIslands);
      BaseRadiusScales(m, radius, radius2, f, coverage, numIslands);
      forall k | 0 <= k < Iterations(numIslands)
        ensures IslandAt(m, rules, c2, radius2, base2, density, draws, pos + IslandDraws * k)
                == ScaleIsland(c1, c2, f, IslandAt(m, rules, c1, radius, base, density, draws, pos + IslandDraws * k))
      {
        IslandScales(m, rules, c1, c2, radius, radius2, base, base2, f, density, draws, pos + IslandDraws * k);
      }
    }
  }

  /** One island's eleven `uniform` calls, in the order of the source. */
  method DrawIsland(rng: Rng, m: Math, rules: IslandRules, center: Point, radius: real, base: real, density: real)
    returns (isl: Island)
    modifies rng
    ensures isl == IslandAt(m, rules, center, radius, base, density, rng.draws, old(rng.pos))
    ensures rng.pos == old(rng.pos) + IslandDraws
  {
    ghost var p0 := rng.pos;
    var c := DrawIslandCenter(rng, m, rules, center, radius, density);
    var size := rng.Uniform(0.6, 1.4);
    assert size == UniformValue(0.6, 1.4, rng.draws(p0 + 2));
    var amps, phases := DrawHarmonics(rng, m, AmpLow(rules), AmpHigh(rules), Harmonics);
    isl := Island(c, base * (size * density), amps, phases);
    assert amps == Amplitudes(AmpLow(rules), AmpHigh(rules), rng.draws, p0 + 3, Harmonics);
    assert phases == Phases(m, rng.draws, p0 + 3 + Harmonics, Harmonics);
  }

  /** The first two `uniform` calls of an island: angle and radial fraction. */
  method DrawIslandCenter(rng: Rng, m: Math, rules: IslandRules, center: Point, radius: real, density: real)
    returns (c: Point)
    modifies rng
    ensures c == Polar(m, center, radius, rng.draws(old(rng.pos)), RadialFactor(m, rules, density, rng.draws(old(rng.pos) + 1)))
    ensures rng.pos == old(rng.pos) + 2
  {
    ghost var p0 := rng.pos;
    var angle := rng.Uniform(0.0, 2.0 * m.pi);
    assert angle == UniformValue(0.0, 2.0 * m.pi, rng.draws(p0));
    var rf := DrawRadialFactor(rng, m, rules, density);
    var r := radius * rf;
    c := Point(center.x + r * m.cos(angle), center.y + r * m.sin(angle));
    assert c == Polar(m, center, radius, rng.draws(p0), rf);
  }

  method DrawRadialFactor(rng: Rng, m: Math, rules: IslandRules, density: real) returns (rf: real)
    modifies rng
    ensures rf == RadialFactor(m, rules, density, rng.draws(old(rng.pos)))
    ensures rng.pos == old(rng.pos) + 1
  {
    var u := rng.Uniform(0.0, 1.0);
    match rules
    case Clamped =>
      rf := m.pow(u, 1.0 / Max(0.1, density));
    case Guarded =>
      if 0.0 < density {
        rf := m.pow(u, 1.0 / density);
      } else {
        rf := u;
      }
  }

  /** The patchy renderers (vector and raster alike, in their own units): the islands and
      their outlines, eleven draws per island. */
  method AddPatchy(rng: Rng, m: Math, rules: IslandRules, center: Point, radius: real, coverage: real,
                   numIslands: real, density: real)
    returns (isls: seq<Island>, outlines: seq<seq<Point>>)
    requires m.pi != 0.0
    modifies rng
    ensures isls == Patches(m, rules, center, radius, coverage, numIslands, density, rng.draws, old(rng.pos))
    ensures |outlines| == |isls|
    ensures forall k :: 0 <= k < |isls| ==> outlines[k] == Outline(m, rules, isls[k])
    ensures rng.pos == old(rng.pos) + IslandDraws * |isls|
  {
    isls, outlines := [], [];
    if coverage <= 0.0 || numIslands <= 0.0 {
      return;
    }
    var base := BaseRadius(m, radius, coverage, numIslands);
    ghost var start := rng.pos;
    for k := 0 to Iterations(numIslands)
      invariant rng.pos == start + IslandDraws * k
      invariant isls == Islands(m, rules, center, radius, base, density, rng.draws, start, k)
      invariant |outlines| == k
      invariant forall j :: 0 <= j < k ==> outlines[j] == Outline(m, rules, isls[j])
    {
      var isl := DrawIsland(rng, m, rules, center, radius, base, density);
      var ps := TraceBoundary(m, isl.center, isl.radius, Bend(rules), isl.amps, isl.phases, VertexCount(rules), 0.0);
      IslandsSnoc(m, rules, center, radius, base, density, rng.draws, start, k);
      isls := isls + [isl];
      outlines := outlines + [ps];
    }
  }

  lemma IslandsSnoc(m: Math, rules: IslandRules, center: Point, radius: real, base: real, density: real,
                    draws: nat -> real, pos: nat, k: nat)
    ensures Islands(m, rules, center, radius, base, density, draws, pos, k + 1)
            == Islands(m, rules, center, radius, base, density, draws, pos, k)
               + [IslandAt(m, rules, center, radius, base, density, draws, pos + IslandDraws * k)]
  {
    var a := Islands(m, rules, center, radius, base, density, draws, pos, k + 1);
    var b := Islands(m, rules, center, radius, base, density, draws, pos, k)
             + [IslandAt(m, rules, center, radius, base, density, draws, pos + IslandDraws * k)];
    assert |a| == |b|;
    forall j | 0 <= j < k + 1
      ensures a[j] == b[j]
    {}
  }

  // ---- The rectangle version of the first stripe script ----

  /** One rectangle: its centre, its size factor and its spin in degrees. */
  datatype Patch = Patch(center: Point, size: real, spin: real)

  /** The rectangles are three times as long as they are wide. */
  function PatchWidth(length: real): real {
    length * 0.3
  }

  /** `int(cov * pi R^2 / (L * W))`: as many whole base rectangles as fit in the inked area. */
  function PatchCount(pi: real, radius: real, coverage: real, length: real, width: real): (n: nat)
    requires length * width != 0.0
    ensures 0.0 < length * width && 0.0 <= coverage * (pi * Sq(radius)) ==>
              n as real * (length * width) <= coverage * (pi * Sq(radius))
              < (n as real + 1.0) * (length * width)
  {
    FitCount(coverage * (pi * Sq(radius)), length * width)
  }

  /** The rectangle placed from four draws at `p`: polar angle, radial fraction
      `uniform(0, 1) ** (1 / dispersion)`, size factor `uniform(0.5, 1.5)`, spin
      `uniform(0, 180)`. */
  function PatchAt(m: Math, center: Point, radius: real, dispersion: real, draws: nat -> real, p: nat): Patch
    requires dispersion != 0.0
  {
    Patch(Polar(m, center, radius, draws(p), m.pow(UniformValue(0.0, 1.0, draws(p + 1)), 1.0 / dispersion)),
          UniformValue(0.5, 1.5, draws(p + 2)), UniformValue(0.0, 180.0, draws(p + 3)))
  }

  function PatchSeq(m: Math, center: Point, radius: real, dispersion: real, draws: nat -> real, pos: nat, n: nat)
    : (ps: seq<Patch>)
    requires dispersion != 0.0
    ensures |ps| == n
    ensures forall k :: 0 <= k < n ==> ps[k] == PatchAt(m, center, radius, dispersion, draws, pos + 4 * k)
  {
    seq(n, k requires 0 <= k < n => PatchAt(m, center, radius, dispersion, draws, pos + 4 * k))
  }

  /** The rectangle generator: nothing at coverage <= 0, otherwise `PatchCount` rectangles. */
  function RectPatches(m: Math, center: Point, radius: real, coverage: real, length: real, dispersion: real,
                       draws: nat -> real, pos: nat): (ps: seq<Patch>)
    requires length * PatchWidth(length) != 0.0 && dispersion != 0.0
    ensures coverage <= 0.0 ==> ps == []
    ensures 0.0 < coverage ==> |ps| == PatchCount(m.pi, radius, coverage, length, PatchWidth(length))
  {
    if coverage <= 0.0 then []
    else PatchSeq(m, center, radius, dispersion, draws, pos, PatchCount(m.pi, radius, coverage, length, PatchWidth(length)))
  }

  /** The corners of a placed rectangle: its base size times its size factor, spun about its
      centre. */
  function PatchCorners(m: Math, p: Patch, length: real): (cs: seq<Point>)
    ensures |cs| == 4
  {
    Diffuse.RectCorners(m, Diffuse.ScatteredRect(p.center, p.spin), length * p.size, PatchWidth(length) * p.size)
  }

  /** With a positive dispersion every rectangle centre lies in the dish, its size factor in
      [0.5, 1.5] and its spin in [0, 180]. */
  lemma PatchPlacement(m: Math, center: Point, radius: real, dispersion: real, draws: nat -> real, p: nat)
    requires Valid(m) && UnitDraws(draws) && 0.0 <= radius && 0.0 < dispersion
    ensures var pa := PatchAt(m, center, radius, dispersion, draws, p);
            && Dist2(pa.center, center) <= radius * radius
            && 0.5 <= pa.size <= 1.5 && 0.0 <= pa.spin <= 180.0
  {
    var f := m.pow(UniformValue(0.0, 1.0, draws(p + 1)), 1.0 / dispersion);
    PowUnit(m, UniformValue(0.0, 1.0, draws(p + 1)), 1.0 / dispersion);
    PolarInDisc(m, center, radius, draws(p), f);
  }

  /** The corners of every rectangle lie at half the diagonal of its scaled 3:1 shape from its
      centre. */
  lemma PatchCornerDistance(m: Math, pa: Patch, length: real, k: int)
    requires Valid(m) && 0 <= k < 4
    ensures Dist2(PatchCorners(m, pa, length)[k], pa.center)
            == Sq(length * pa.size / 2.0) + Sq(PatchWidth(length) * pa.size / 2.0)
  {
    CornerProducts(m, pa, length, k);
  }

  lemma CornerProducts(m: Math, pa: Patch, length: real, k: int)
    requires Valid(m) && 0 <= k < 4
    ensures Dist2(PatchCorners(m, pa, length)[k], pa.center)
            == (length * pa.size / 2.0) * (length * pa.size / 2.0)
               + (PatchWidth(length) * pa.size / 2.0) * (PatchWidth(length) * pa.size / 2.0)
  {
    Diffuse.RectCornersAtHalfDiagonal(m, Diffuse.ScatteredRect(pa.center, pa.spin), length * pa.size, PatchWidth(length) * pa.size, k);
  }

  /** One rectangle's four `uniform` calls. */
  method DrawPatch(rng: Rng, m: Math, center: Point, radius: real, dispersion: real) returns (pa: Patch)
    requires dispersion != 0.0
    modifies rng
    ensures pa == PatchAt(m, center, radius, dispersion, rng.draws, old(rng.pos))
    ensures rng.pos == old(rng.pos) + 4
  {
    ghost var p0 := rng.pos;
    var angle := rng.Uniform(0.0, 2.0 * m.pi);
    assert angle == UniformValue(0.0, 2.0 * m.pi, rng.draws(p0));
    var u := rng.Uniform(0.0, 1.0);
    assert u == UniformValue(0.0, 1.0, rng.draws(p0 + 1));
    var r := radius * m.pow(u, 1.0 / dispersion);
    var size := rng.Uniform(0.5, 1.5);
    assert size == UniformValue(0.5, 1.5, rng.draws(p0 + 2));
    var spin := rng.Uniform(0.0, 180.0);
    pa := Patch(Point(center.x + r * m.cos(angle), center.y + r * m.sin(angle)), size, spin);
  }

  /** The rectangle renderers (vector and raster alike, in their own units). */
  method AddRectPatches(rng: Rng, m: Math, center: Point, radius: real, coverage: real, length: real, dispersion: real)
    returns (ps: seq<Patch>)
    requires length * PatchWidth(length) != 0.0 && dispersion != 0.0
    modifies rng
    ensures ps == RectPatches(m, center, radius, coverage, length, dispersion, rng.draws, old(rng.pos))
    ensures rng.pos == old(rng.pos) + 4 * |ps|
  {
    ps := [];
    if coverage <= 0.0 {
      return;
    }
    var n := PatchCount(m.pi, radius, coverage, length, PatchWidth(length));
    ghost var start := rng.pos;
    for k := 0 to n
      invariant rng.pos == start + 4 * k
      invariant ps == PatchSeq(m, center, radius, dispersion, rng.draws, start, k)
    {
      var pa := DrawPatch(rng, m, center, radius, dispersion);
      ps := ps + [pa];
    }
  }
}
