/** Python's `random` module as the generators use it: one global stream of unit draws,
    consumed one `uniform` call at a time. The stream itself (the Mersenne Twister and its
    seeding) is not modelled; a stream is any infinite sequence of draws in [0, 1). */
module Random {
  import opened Numerics

  /** A stream of unit draws, as `random.random()` would return them one after another. */
  ghost predicate UnitDraws(draws: nat -> real) {
    forall i :: 0.0 <= draws(i) < 1.0
  }

  /** `random.uniform(a, b)`, which CPython computes as `a + (b - a) * random()`. */
  function UniformValue(a: real, b: real, u: real): (v: real)
    ensures 0.0 <= u <= 1.0 && a <= b ==> a <= v <= b
    ensures 0.0 <= u <= 1.0 && b <= a ==> b <= v <= a
  {
    FractionOfSpan(b - a, u);
    a + (b - a) * u
  }

  /** A unit fraction of a span lies between 0 and the span. */
  lemma FractionOfSpan(d: real, u: real)
    ensures 0.0 <= u <= 1.0 && 0.0 <= d ==> 0.0 <= d * u <= d
    ensures 0.0 <= u <= 1.0 && d <= 0.0 ==> d <= d * u <= 0.0
  {
    if 0.0 <= u <= 1.0 {
      assert d - d * u == d * (1.0 - u);
      if 0.0 <= d {
        ProductNonneg(d, u);
        ProductNonneg(d, 1.0 - u);
      } else {
        ProductNonneg(-d, u);
        ProductNonneg(-d, 1.0 - u);
      }
    }
  }

  lemma ProductNonneg(x: real, y: real)
    requires 0.0 <= x && 0.0 <= y
    ensures 0.0 <= x * y
  {}

  /** The process-wide generator: a fixed stream and the number of draws taken from it. */
  /** The point at polar angle `uniform(0, 2 pi)` (from the unit draw u) and distance
      `radius * f` from `center`. */
  function Polar(m: Math, center: Point, radius: real, u: real, f: real): Point {
    var angle := UniformValue(0.0, 2.0 * m.pi, u);
    var r := radius * f;
    Point(center.x + r * m.cos(angle), center.y + r * m.sin(angle))
  }

  /** A fraction f in [0, 1] of the radius keeps the point in the disc. */
  lemma PolarInDisc(m: Math, center: Point, radius: real, u: real, f: real)
    requires Valid(m) && 0.0 <= radius && 0.0 <= f <= 1.0
    ensures Dist2(Polar(m, center, radius, u, f), center) <= radius * radius
  {
    var angle := UniformValue(0.0, 2.0 * m.pi, u);
    var r := radius * f;
    SinCos(m, angle);
    var c, s := m.cos(angle), m.sin(angle);
    assert Dist2(Polar(m, center, radius, u, f), center) == (r * c) * (r * c) + (r * s) * (r * s);
    assert (r * c) * (r * c) + (r * s) * (r * s) == r * r * (c * c + s * s);
    MulNonneg(radius, f);
    MulNonneg(radius, 1.0 - f);
    MulNonneg(radius - r, radius + r);
  }

  lemma PolarScales(m: Math, c1: Point, c2: Point, radius: real, radius2: real, f: real, u: real, frac: real)
    requires radius2 == f * radius
    ensures Polar(m, c2, radius2, u, frac) == ScaleAbout(c1, c2, f, Polar(m, c1, radius, u, frac))
  {
    var angle := UniformValue(0.0, 2.0 * m.pi, u);
    var r := radius * frac;
    var c, s := m.cos(angle), m.sin(angle);
    assert radius2 * frac == f * r;
    PolarPointScales(c1, c2, f, r, c, s);
  }

  class Rng {
    const draws: nat -> real
    var pos: nat

    constructor (draws: nat -> real)
      ensures this.draws == draws && pos == 0
    {
      this.draws := draws;
      pos := 0;
    }

    /** `random.uniform(a, b)`: takes the next draw of the stream. */
    method Uniform(a: real, b: real) returns (v: real)
      modifies this
      ensures v == UniformValue(a, b, draws(old(pos)))
      ensures pos == old(pos) + 1
    {
      v := UniformValue(a, b, draws(pos));
      pos := pos + 1;
    }
  }
}
