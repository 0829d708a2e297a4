/** The harmonic outlines of the island and compact generators: a closed polygon of N vertices
    at angles `2 pi i / N`; vertex i lies at radius `R * (1 + k * v)` from the outline's centre,
    where v is the mean of H sinusoids `a_h * sin((h + 1) * theta + phi_h)` of the vertex angle
    theta. The amplitudes and phases are drawn once per outline. */
module Harmonic {
  import opened Numerics
  import opened Random

  /** The harmonic of frequency `freq` at angle theta. */
  function Term(m: Math, amp: real, phase: real, freq: nat, theta: real): real {
    amp * m.sin(freq as real * theta + phase)
  }

  /** The sum of the first n harmonics at angle theta; harmonic h has frequency `h + 1`. */
  function PartialSum(m: Math, amps: seq<real>, phases: seq<real>, theta: real, n: nat): real
    requires n <= |amps| && n <= |phases|
  {
    if n == 0 then 0.0
    else PartialSum(m, amps, phases, theta, n - 1) + Term(m, amps[n - 1], phases[n - 1], n, theta)
  }

  /** All amplitudes lie in [0, hi]. */
  predicate AmplitudesWithin(amps: seq<real>, hi: real) {
    forall h :: 0 <= h < |amps| ==> 0.0 <= amps[h] <= hi
  }

  lemma TermBound(m: Math, amp: real, phase: real, freq: nat, theta: real)
    requires Valid(m) && 0.0 <= amp
    ensures -amp <= Term(m, amp, phase, freq, theta) <= amp
  {
    var s := m.sin(freq as real * theta + phase);
    SinCos(m, freq as real * theta + phase);
    MulNonneg(amp, 1.0 - s);
    MulNonneg(amp, 1.0 + s);
  }

  /** Each harmonic contributes at most its amplitude, so n harmonics of amplitude at most hi
      sum to at most `n * hi` in magnitude. */
  lemma {:induction false} PartialSumBound(m: Math, amps: seq<real>, phases: seq<real>, theta: real, n: nat, hi: real)
    requires Valid(m) && n <= |amps| && n <= |phases| && AmplitudesWithin(amps, hi)
    ensures -(n as real * hi) <= PartialSum(m, amps, phases, theta, n) <= n as real * hi
  {
    if n > 0 {
      PartialSumBound(m, amps, phases, theta, n - 1, hi);
      TermBound(m, amps[n - 1], phases[n - 1], n, theta);
      assert n as real * hi == (n - 1) as real * hi + hi;
    }
  }

  /** `r_variation`: the mean of the harmonics at angle theta. */
  function Variation(m: Math, amps: seq<real>, phases: seq<real>, theta: real): real
    requires 0 < |amps| && |amps| == |phases|
  {
    PartialSum(m, amps, phases, theta, |amps|) / |amps| as real
  }

  lemma VariationBound(m: Math, amps: seq<real>, phases: seq<real>, theta: real, hi: real)
    requires Valid(m) && 0 < |amps| && |amps| == |phases| && AmplitudesWithin(amps, hi)
    ensures -hi <= Variation(m, amps, phases, theta) <= hi
  {
    PartialSumBound(m, amps, phases, theta, |amps|, hi);
    MeanBound(PartialSum(m, amps, phases, theta, |amps|), |amps| as real, hi);
  }

  lemma MeanBound(s: real, n: real, hi: real)
    requires 0.0 < n && -(n * hi) <= s <= n * hi
    ensures -hi <= s / n <= hi
  {
    DivTimes(s, n);
    assert (hi - s / n) * n == n * hi - s;
    NonnegFactor(hi - s / n, n);
    assert (s / n + hi) * n == s + n * hi;
    NonnegFactor(s / n + hi, n);
  }

  /** The radius of the outline at angle theta: `R * (1 + k * r_variation)`. */
  function RadiusAt(m: Math, radius: real, k: real, amps: seq<real>, phases: seq<real>, theta: real): real
    requires 0 < |amps| && |amps| == |phases|
  {
    radius * (1.0 + k * Variation(m, amps, phases, theta))
  }

  /** With amplitudes in [0, hi] and a non-negative bend k, the outline's radius stays within
      `R * (1 -/+ k * hi)`. */
  lemma RadiusBounds(m: Math, radius: real, k: real, amps: seq<real>, phases: seq<real>, theta: real, hi: real)
    requires Valid(m) && 0 < |amps| && |amps| == |phases| && AmplitudesWithin(amps, hi)
    requires 0.0 <= radius && 0.0 <= k
    ensures radius * (1.0 - k * hi) <= RadiusAt(m, radius, k, amps, phases, theta) <= radius * (1.0 + k * hi)
  {
    var v := Variation(m, amps, phases, theta);
    VariationBound(m, amps, phases, theta, hi);
    MulNonneg(k, v + hi);
    MulNonneg(k, hi - v);
    MulNonneg(radius, k * v + k * hi);
    MulNonneg(radius, k * hi - k * v);
  }

  /** The angle of vertex i of n: `2 pi i / n`. */
  function Angle(m: Math, n: nat, i: nat): real
    requires 0 < n
  {
    (2.0 * m.pi * i as real) / n as real
  }

  /** Vertex i of n, its angle turned by `turn` radians before the position is taken. */
  function Vertex(m: Math, center: Point, radius: real, k: real, amps: seq<real>, phases: seq<real>,
                  n: nat, turn: real, i: nat): Point
    requires 0 < |amps| && |amps| == |phases| && 0 < n
  {
    var a := Angle(m, n, i);
    var r := RadiusAt(m, radius, k, amps, phases, a);
    Point(center.x + r * m.cos(a + turn), center.y + r * m.sin(a + turn))
  }

  /** The closed outline: vertices 0 .. n - 1 in order. */
  function Boundary(m: Math, center: Point, radius: real, k: real, amps: seq<real>, phases: seq<real>,
                    n: nat, turn: real): (ps: seq<Point>)
    requires 0 < |amps| && |amps| == |phases| && 0 < n
    ensures |ps| == n
    ensures forall i :: 0 <= i < n ==> ps[i] == Vertex(m, center, radius, k, amps, phases, n, turn, i)
  {
    seq(n, i requires 0 <= i < n => Vertex(m, center, radius, k, amps, phases, n, turn, i))
  }

  /** Every vertex lies at its own radius from the centre: the turn moves it along the circle. */
  lemma VertexDistance(m: Math, center: Point, radius: real, k: real, amps: seq<real>, phases: seq<real>,
                       n: nat, turn: real, i: nat)
    requires Valid(m) && 0 < |amps| && |amps| == |phases| && 0 < n
    ensures Dist2(Vertex(m, center, radius, k, amps, phases, n, turn, i), center)
            == Sq(RadiusAt(m, radius, k, amps, phases, Angle(m, n, i)))
  {
    var a := Angle(m, n, i);
    var r := RadiusAt(m, radius, k, amps, phases, a);
    SinCos(m, a + turn);
    var c, s := m.cos(a + turn), m.sin(a + turn);
    assert Dist2(Vertex(m, center, radius, k, amps, phases, n, turn, i), center) == (r * c) * (r * c) + (r * s) * (r * s);
    assert (r * c) * (r * c) + (r * s) * (r * s) == r * r * (c * c + s * s);
  }

  /** Every vertex of the outline lies in the annulus between radii `R * (1 - k * hi)` and
      `R * (1 + k * hi)`; while `k * hi <= 1` the outline never folds through its centre. */
  lemma BoundaryInAnnulus(m: Math, center: Point, radius: real, k: real, amps: seq<real>, phases: seq<real>,
                          n: nat, turn: real, hi: real, i: nat)
    requires Valid(m) && 0 < |amps| && |amps| == |phases| && 0 < n && i < n
    requires AmplitudesWithin(amps, hi) && 0.0 <= radius && 0.0 <= k && k * hi <= 1.0
    ensures Sq(radius * (1.0 - k * hi)) <= Dist2(Boundary(m, center, radius, k, amps, phases, n, turn)[i], center)
                                       <= Sq(radius * (1.0 + k * hi))
  {
    var r := RadiusAt(m, radius, k, amps, phases, Angle(m, n, i));
    VertexDistance(m, center, radius, k, amps, phases, n, turn, i);
    RadiusBounds(m, radius, k, amps, phases, Angle(m, n, i), hi);
    var lo, up := radius * (1.0 - k * hi), radius * (1.0 + k * hi);
    MulNonneg(radius, 1.0 - k * hi);
    SqMonotone(lo, r);
    SqMonotone(r, up);
  }

  /** The outline drawn in a frame scaled by f (radius `f * R`) is the scaled image of the
      outline: the same draws give the same shape in points and in pixels. */
  lemma BoundaryScales(m: Math, c1: Point, c2: Point, radius: real, radius2: real, f: real, k: real,
                       amps: seq<real>, phases: seq<real>, n: nat, turn: real)
    requires 0 < |amps| && |amps| == |phases| && 0 < n
    requires radius2 == f * radius
    ensures Boundary(m, c2, radius2, k, amps, phases, n, turn)
            == ScaleAll(c1, c2, f, Boundary(m, c1, radius, k, amps, phases, n, turn))
  {
    var b2 := Boundary(m, c2, radius2, k, amps, phases, n, turn);
    var b1 := Boundary(m, c1, radius, k, amps, phases, n, turn);
    forall i | 0 <= i < n ensures b2[i] == ScaleAll(c1, c2, f, b1)[i] {
      VertexScales(m, c1, c2, radius, radius2, f, k, amps, phases, n, turn, i);
    }
  }

  lemma VertexScales(m: Math, c1: Point, c2: Point, radius: real, radius2: real, f: real, k: real,
                     amps: seq<real>, phases: seq<real>, n: nat, turn: real, i: nat)
    requires 0 < |amps| && |amps| == |phases| && 0 < n
    requires radius2 == f * radius
    ensures Vertex(m, c2, radius2, k, amps, phases, n, turn, i)
            == ScaleAbout(c1, c2, f, Vertex(m, c1, radius, k, amps, phases, n, turn, i))
  {
    var a := Angle(m, n, i);
    var w := 1.0 + k * Variation(m, amps, phases, a);
    var r := radius * w;
    assert radius2 * w == f * r;
    PolarPointScales(c1, c2, f, r, m.cos(a + turn), m.sin(a + turn));
  }

  /** A translated centre translates the whole outline and changes nothing else. */
  lemma BoundaryTranslates(m: Math, center: Point, d: Point, radius: real, k: real,
                           amps: seq<real>, phases: seq<real>, n: nat, turn: real)
    requires 0 < |amps| && |amps| == |phases| && 0 < n
    ensures Boundary(m, Add(center, d), radius, k, amps, phases, n, turn)
            == TranslateAll(Boundary(m, center, radius, k, amps, phases, n, turn), d)
  {
  }

  // ---- Draws ----

  /** `[uniform(lo, hi) for _ in range(h)]` from the stream at `pos`. */
  function Amplitudes(lo: real, hi: real, draws: nat -> real, pos: nat, h: nat): (amps: seq<real>)
    ensures |amps| == h
    ensures forall j :: 0 <= j < h ==> amps[j] == UniformValue(lo, hi, draws(pos + j))
  {
    seq(h, j requires 0 <= j < h => UniformValue(lo, hi, draws(pos + j)))
  }

  /** `[uniform(0, 2 pi) for _ in range(h)]` from the stream at `pos`. */
  function Phases(m: Math, draws: nat -> real, pos: nat, h: nat): (phases: seq<real>)
    ensures |phases| == h
    ensures forall j :: 0 <= j < h ==> phases[j] == 2.0 * m.pi * draws(pos + j)
  {
    Amplitudes(0.0, 2.0 * m.pi, draws, pos, h)
  }

  /** Unit draws give amplitudes in their range; with `0 <= lo` they satisfy the bound of
      `AmplitudesWithin`. */
  lemma AmplitudesInRange(lo: real, hi: real, draws: nat -> real, pos: nat, h: nat)
    requires UnitDraws(draws) && 0.0 <= lo <= hi
    ensures AmplitudesWithin(Amplitudes(lo, hi, draws, pos, h), hi)
    ensures forall j :: 0 <= j < h ==> lo <= Amplitudes(lo, hi, draws, pos, h)[j]
  {
    var amps := Amplitudes(lo, hi, draws, pos, h);
    forall j | 0 <= j < h ensures lo <= amps[j] <= hi {
      assert 0.0 <= draws(pos + j) < 1.0;
    }
  }

  /** The amplitude and phase list comprehensions: h amplitudes, then h phases, 2h draws. */
  method DrawHarmonics(rng: Rng, m: Math, lo: real, hi: real, h: nat) returns (amps: seq<real>, phases: seq<real>)
    modifies rng
    ensures amps == Amplitudes(lo, hi, rng.draws, old(rng.pos), h)
    ensures phases == Phases(m, rng.draws, old(rng.pos) + h, h)
    ensures rng.pos == old(rng.pos) + 2 * h
  {
    amps := DrawUniforms(rng, lo, hi, h);
    phases := DrawUniforms(rng, 0.0, 2.0 * m.pi, h);
  }

  method DrawUniforms(rng: Rng, lo: real, hi: real, h: nat) returns (vs: seq<real>)
    modifies rng
    ensures vs == Amplitudes(lo, hi, rng.draws, old(rng.pos), h)
    ensures rng.pos == old(rng.pos) + h
  {
    vs := [];
    ghost var start := rng.pos;
    for j := 0 to h
      invariant rng.pos == start + j
      invariant vs == Amplitudes(lo, hi, rng.draws, start, j)
    {
      var v := rng.Uniform(lo, hi);
      vs := vs + [v];
    }
  }

  // ---- The vertex loops ----

  /** The inner loop: `r_variation` accumulated harmonic by harmonic, then divided by their
      number. */
  method MeanVariation(m: Math, amps: seq<real>, phases: seq<real>, theta: real) returns (v: real)
    requires 0 < |amps| && |amps| == |phases|
    ensures v == Variation(m, amps, phases, theta)
  {
    var sum := 0.0;
    for h := 0 to |amps|
      invariant sum == PartialSum(m, amps, phases, theta, h)
    {
      sum := sum + amps[h] * m.sin((h + 1) as real * theta + phases[h]);
      assert sum == PartialSum(m, amps, phases, theta, h) + Term(m, amps[h], phases[h], h + 1, theta);
    }
    v := sum / |amps| as real;
  }

  /** The outer loop: one vertex per angle `2 pi i / n`, appended in order. */
  method TraceBoundary(m: Math, center: Point, radius: real, k: real, amps: seq<real>, phases: seq<real>,
                       n: nat, turn: real) returns (points: seq<Point>)
    requires 0 < |amps| && |amps| == |phases| && 0 < n
    ensures points == Boundary(m, center, radius, k, amps, phases, n, turn)
  {
    points := [];
    for i := 0 to n
      invariant |points| == i
      invariant forall j :: 0 <= j < i ==> points[j] == Vertex(m, center, radius, k, amps, phases, n, turn, j)
    {
      var a := (2.0 * m.pi * i as real) / n as real;
      var v := MeanVariation(m, amps, phases, a);
      var r := radius * (1.0 + k * v);
      assert a == Angle(m, n, i);
      assert r == RadiusAt(m, radius, k, amps, phases, a);
      var p := Point(center.x + r * m.cos(a + turn), center.y + r * m.sin(a + turn));
      assert p == Vertex(m, center, radius, k, amps, phases, n, turn, i);
      points := points + [p];
    }
  }
}
