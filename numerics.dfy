/** Numeric building blocks shared by every generator: the transcendental functions the
    source takes from Python's `math` module, Python's integer conversions, unit constants,
    and plane geometry. */
module Numerics {

  /** The functions of Python's `math` module that the generators call. They are supplied by
      the caller; `Valid` states the only facts the model relies on. */
  datatype Math = Math(
    sin: real -> real,
    cos: real -> real,
    sqrt: real -> real,
    pow: (real, real) -> real,
    pi: real)

  ghost predicate Valid(m: Math) {
    && 3.14 < m.pi < 3.15
    && (forall x :: SinCosAt(m, x))
    && (forall x :: SqrtAt(m, x))
    && (forall u, e :: PowAt(m, u, e))
  }

  /** Sine and cosine at x lie in [-1, 1] and satisfy `sin^2 + cos^2 = 1`. */
  ghost predicate SinCosAt(m: Math, x: real) {
    && -1.0 <= m.sin(x) <= 1.0 && -1.0 <= m.cos(x) <= 1.0
    && m.sin(x) * m.sin(x) + m.cos(x) * m.cos(x) == 1.0
  }

  /** The square root of a non-negative x is non-negative and squares back to x. */
  ghost predicate SqrtAt(m: Math, x: real) {
    0.0 <= x ==> 0.0 <= m.sqrt(x) && m.sqrt(x) * m.sqrt(x) == x
  }

  /** A power of a unit base with a positive exponent stays in [0, 1]. */
  ghost predicate PowAt(m: Math, u: real, e: real) {
    0.0 <= u <= 1.0 && 0.0 < e ==> 0.0 <= m.pow(u, e) <= 1.0
  }

  lemma SqrtSquares(m: Math, x: real)
    requires Valid(m) && 0.0 <= x
    ensures 0.0 <= m.sqrt(x) && m.sqrt(x) * m.sqrt(x) == x
  {
    assert SqrtAt(m, x);
  }

  lemma SinCos(m: Math, x: real)
    requires Valid(m)
    ensures -1.0 <= m.sin(x) <= 1.0 && -1.0 <= m.cos(x) <= 1.0
    ensures m.sin(x) * m.sin(x) + m.cos(x) * m.cos(x) == 1.0
  {
    assert SinCosAt(m, x);
  }

  lemma PowUnit(m: Math, u: real, e: real)
    requires Valid(m) && 0.0 <= u <= 1.0 && 0.0 < e
    ensures 0.0 <= m.pow(u, e) <= 1.0
  {
    assert PowAt(m, u, e);
  }

  /** `x ** 2`. */
  function Sq(x: real): (s: real)
    ensures 0.0 <= s
  {
    x * x
  }

  lemma SqOfProduct(a: real, b: real)
    ensures Sq(a * b) == Sq(a) * Sq(b)
  {}

  /** `math.radians`. */
  function Radians(m: Math, deg: real): real {
    deg * m.pi / 180.0
  }

  /** reportlab's `mm`: points per millimetre. */
  const MM: real := 72.0 / 25.4

  /** `math.ceil`. */
  function Ceil(x: real): (n: int)
    ensures x <= n as real < x + 1.0
  {
    -((-x).Floor)
  }

  /** The number of passes of `for _ in range(int(x))`: `int` truncates toward zero and a
      negative bound gives no pass. */
  function Iterations(x: real): (n: nat)
    ensures x < 0.0 ==> n == 0
    ensures 0.0 <= x ==> n as real <= x < n as real + 1.0
  {
    if x < 0.0 then 0 else x.Floor
  }

  function Min(a: real, b: real): (r: real)
    ensures r <= a && r <= b && (r == a || r == b)
  {
    if a <= b then a else b
  }

  function Max(a: real, b: real): (r: real)
    ensures a <= r && b <= r && (r == a || r == b)
  {
    if a <= b then b else a
  }

  lemma MulPos(a: real, b: real)
    requires 0.0 < a && 0.0 < b
    ensures 0.0 < a * b
  {}

  lemma MulNonneg(a: real, b: real)
    requires 0.0 <= a && 0.0 <= b
    ensures 0.0 <= a * b
  {}

  lemma SquarePos(x: real)
    requires x != 0.0
    ensures 0.0 < x * x
  {
    if x < 0.0 {
      MulPos(-x, -x);
    } else {
      MulPos(x, x);
    }
  }

  lemma MulNonzero(a: real, b: real)
    requires a != 0.0 && b != 0.0
    ensures a * b != 0.0
  {
    if a * b == 0.0 {
      MulCancel(a, b, 0.0);
    }
  }

  lemma MulCancel(a: real, x: real, y: real)
    requires a != 0.0 && a * x == a * y
    ensures x == y
  {
    assert a * (x - y) == 0.0;
  }

  lemma LessByPositive(x: real, y: real, c: real)
    requires 0.0 < c && x * c < y * c
    ensures x < y
  {}

  lemma AtMostByPositive(x: real, y: real, c: real)
    requires 0.0 < c && x * c <= y * c
    ensures x <= y
  {}

  lemma PositiveFactor(x: real, c: real)
    requires 0.0 < c && 0.0 < x * c
    ensures 0.0 < x
  {}

  lemma NonnegFactor(x: real, c: real)
    requires 0.0 < c && 0.0 <= x * c
    ensures 0.0 <= x
  {}

  lemma SquareLess(a: real, b: real)
    requires 0.0 <= a && 0.0 <= b && a * a < b * b
    ensures a < b
  {}

  lemma DivTimes(a: real, b: real)
    requires b != 0.0
    ensures (a / b) * b == a
  {}

  lemma DivMul(a: real, b: real)
    requires b != 0.0
    ensures (a * b) / b == a
  {}

  lemma QuotientOfMultiple(p: real, r: real, a: real)
    requires r != 0.0 && p == r * a
    ensures p / r == a
  {
    DivTimes(p, r);
    MulCancel(r, p / r, a);
  }

  /** Scaling numerator and denominator alike leaves a quotient unchanged. */
  lemma DivScale(x: real, d: real, k: real)
    requires d != 0.0 && k != 0.0
    ensures (x * k) / (d * k) == x / d
  {
    var q := x / d;
    DivTimes(x, d);
    assert q * (d * k) == x * k;
    assert d * k != 0.0;
    DivTimes(x * k, d * k);
    MulCancel(d * k, (x * k) / (d * k), q);
  }

  lemma ScaleBelow(a: real, q: real, d: real, x: real)
    requires a <= q
    requires 0.0 < d
    requires q * d == x
    ensures a * d <= x
  {
    MulNonneg(q - a, d);
    assert (q - a) * d == q * d - a * d;
  }

  lemma ScaleAbove(a: real, q: real, d: real, x: real)
    requires q < a + 1.0
    requires 0.0 < d
    requires q * d == x
    ensures x < (a + 1.0) * d
  {
    MulPos(a + 1.0 - q, d);
    assert 0.0 < (a + 1.0 - q) * d;
    assert (a + 1.0 - q) * d == a * d + d - q * d;
    assert 0.0 < a * d + d - x;
  }

  /** `int(x / d)` whole units of size d fit in x, and one more does not. */
  lemma IterationsBracket(x: real, d: real)
    ensures 0.0 <= x && 0.0 < d ==>
              Iterations(x / d) as real * d <= x < (Iterations(x / d) as real + 1.0) * d
  {
    if 0.0 <= x && 0.0 < d {
      DivTimes(x, d);
      NonnegFactor(x / d, d);
      ScaleBelow(Iterations(x / d) as real, x / d, d, x);
      ScaleAbove(Iterations(x / d) as real, x / d, d, x);
    }
  }

  /** `int(inked / unit)`: the number of whole units that fit in the inked amount. */
  function FitCount(inked: real, unit: real): (n: nat)
    requires unit != 0.0
    ensures 0.0 < unit && 0.0 <= inked ==> n as real * unit <= inked < (n as real + 1.0) * unit
    ensures inked <= 0.0 && 0.0 < unit ==> n == 0
  {
    IterationsBracket(inked, unit);
    assert inked <= 0.0 && 0.0 < unit ==> inked / unit <= 0.0 by {
      if inked <= 0.0 && 0.0 < unit {
        NonpositiveQuotient(inked, unit);
      }
    }
    Iterations(inked / unit)
  }

  /** The count depends on the ratio of its arguments only. */
  lemma FitCountOfRatio(x1: real, d1: real, x2: real, d2: real)
    ensures d1 != 0.0 && d2 != 0.0 && x1 / d1 == x2 / d2 ==> FitCount(x1, d1) == FitCount(x2, d2)
  {}

  /** Scaling the inked amount and the unit by the same positive factor keeps the count. */
  lemma FitCountScales(inked: real, unit: real, k: real, inked2: real, unit2: real)
    requires 0.0 < k && unit != 0.0 && inked2 == k * inked && unit2 == k * unit
    ensures unit2 != 0.0 && FitCount(inked2, unit2) == FitCount(inked, unit)
  {
    MulNonzero(k, unit);
    DivTimes(inked, unit);
    var q := inked / unit;
    assert inked2 == unit2 * q by {
      assert inked == unit * q;
      MulAssoc(k, unit, q);
    }
    QuotientOfMultiple(inked2, unit2, q);
    FitCountOfRatio(inked2, unit2, inked, unit);
  }

  lemma NonpositiveQuotient(x: real, d: real)
    requires x <= 0.0 && 0.0 < d
    ensures x / d <= 0.0
  {
    DivTimes(x, d);
    assert (-(x / d)) * d == -x;
    NonnegFactor(-(x / d), d);
  }

  datatype Point = Point(x: real, y: real)

  function Add(p: Point, q: Point): Point {
    Point(p.x + q.x, p.y + q.y)
  }

  function Sub(p: Point, q: Point): Point {
    Point(p.x - q.x, p.y - q.y)
  }

  /** Squared distance between two points. */
  function Dist2(p: Point, q: Point): (d: real)
    ensures 0.0 <= d
  {
    (p.x - q.x) * (p.x - q.x) + (p.y - q.y) * (p.y - q.y)
  }

  /** Rotation of the offset `v` by the angle whose cosine and sine are `c` and `s`
      (counter-clockwise in a y-up frame). */
  function Rotate(v: Point, c: real, s: real): Point {
    Point(v.x * c - v.y * s, v.x * s + v.y * c)
  }

  /** Rotation of `p` about `center`. */
  function RotateAbout(center: Point, p: Point, c: real, s: real): Point {
    Add(center, Rotate(Sub(p, center), c, s))
  }

  /** A rotation moves no point nearer to or farther from its pivot. */
  lemma RotationKeepsDistance(center: Point, p: Point, c: real, s: real)
    requires c * c + s * s == 1.0
    ensures Dist2(RotateAbout(center, p, c, s), center) == Dist2(p, center)
  {
    var dx, dy := p.x - center.x, p.y - center.y;
    var q := RotateAbout(center, p, c, s);
    assert q.x - center.x == dx * c - dy * s;
    assert q.y - center.y == dx * s + dy * c;
    RotatedNorm(dx, dy, c, s);
  }

  /** The squared length of a rotated vector, before `cos^2 + sin^2 = 1` is used. */
  lemma RotatedNorm(dx: real, dy: real, c: real, s: real)
    ensures (dx * c - dy * s) * (dx * c - dy * s) + (dx * s + dy * c) * (dx * s + dy * c)
            == (dx * dx + dy * dy) * (c * c + s * s)
  {}

  /** Rotation of every point of a sequence about `center`. */
  function RotateAll(center: Point, ps: seq<Point>, c: real, s: real): (r: seq<Point>)
    ensures |r| == |ps|
    ensures forall k :: 0 <= k < |ps| ==> r[k] == RotateAbout(center, ps[k], c, s)
  {
    seq(|ps|, k requires 0 <= k < |ps| => RotateAbout(center, ps[k], c, s))
  }

  lemma RotateAllAppend(center: Point, a: seq<Point>, b: seq<Point>, c: real, s: real)
    ensures RotateAll(center, a + b, c, s) == RotateAll(center, a, c, s) + RotateAll(center, b, c, s)
  {
    var l, r := RotateAll(center, a + b, c, s), RotateAll(center, a, c, s) + RotateAll(center, b, c, s);
    assert |l| == |r|;
    forall k | 0 <= k < |l| ensures l[k] == r[k] {
      if k < |a| { assert (a + b)[k] == a[k]; } else { assert (a + b)[k] == b[k - |a|]; }
    }
  }

  /** The image of `p` when the frame centred on `c1` is scaled by `f` about the new centre
      `c2`: how a geometry in points maps to the same geometry in pixels. */
  function ScaleAbout(c1: Point, c2: Point, f: real, p: Point): Point {
    Point(c2.x + f * (p.x - c1.x), c2.y + f * (p.y - c1.y))
  }

  /** The point at distance r along a direction, moved to a frame scaled by f, is the point at
      distance `f * r` along the same direction. */
  lemma PolarPointScales(c1: Point, c2: Point, f: real, r: real, cs: real, sn: real)
    ensures ScaleAbout(c1, c2, f, Point(c1.x + r * cs, c1.y + r * sn))
            == Point(c2.x + (f * r) * cs, c2.y + (f * r) * sn)
  {
    var x, y := c1.x + r * cs, c1.y + r * sn;
    assert ScaleAbout(c1, c2, f, Point(x, y)) == Point(c2.x + f * (x - c1.x), c2.y + f * (y - c1.y));
    assert x - c1.x == r * cs;
    assert y - c1.y == r * sn;
    MulAssoc(f, r, cs);
    MulAssoc(f, r, sn);
  }

  lemma MulDistributes(a: real, b: real, c: real)
    ensures a * (b + c) == a * b + a * c
  {}

  lemma MulAssoc(a: real, b: real, c: real)
    ensures a * (b * c) == (a * b) * c
  {}

  function ScaleAll(c1: Point, c2: Point, f: real, ps: seq<Point>): (r: seq<Point>)
    ensures |r| == |ps|
    ensures forall k :: 0 <= k < |ps| ==> r[k] == ScaleAbout(c1, c2, f, ps[k])
  {
    seq(|ps|, k requires 0 <= k < |ps| => ScaleAbout(c1, c2, f, ps[k]))
  }

  /** Translation of every point of a sequence by `d`. */
  function TranslateAll(ps: seq<Point>, d: Point): (r: seq<Point>)
    ensures |r| == |ps|
    ensures forall k :: 0 <= k < |ps| ==> r[k] == Add(ps[k], d)
  {
    seq(|ps|, k requires 0 <= k < |ps| => Add(ps[k], d))
  }

  lemma SqMonotone(a: real, b: real)
    requires 0.0 <= a <= b
    ensures Sq(a) <= Sq(b)
  {
    MulNonneg(b - a, b + a);
  }

  /** A rectangle as reportlab's `rect(x, y, w, h)` takes it: lower-left corner and size. */
  datatype Rect = Rect(x: real, y: real, w: real, h: real)

  /** The corners of a rectangle, counter-clockwise from the lower left. */
  function Corners(r: Rect): seq<Point> {
    [Point(r.x, r.y), Point(r.x + r.w, r.y), Point(r.x + r.w, r.y + r.h), Point(r.x, r.y + r.h)]
  }
}
