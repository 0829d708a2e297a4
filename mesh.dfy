/** The interstitial (rectangular mesh) family: the coverage solve that rescales the nominal
    rectangle, the oversized grid laid around the region centre with odd rows indented, and
    the distance filter that keeps only cells near the pattern disc. The vector renderer lays
    cells in the unrotated canvas frame and lets the canvas rotate the whole grid about the
    centre; the raster renderer rotates every cell centre itself. */
module Mesh {
  import opened Numerics

  /** `area_rect / area_per_unit`: the inked fraction of an infinite grid of `length` x
      `width` rectangles at the given spacings, 0 when the unit cell has no positive area. */
  function ActualCoverage(length: real, width: real, spacingAlong: real, spacingAcross: real): (a: real)
    ensures 0.0 < (length + spacingAlong) * (width + spacingAcross)
            ==> a * ((length + spacingAlong) * (width + spacingAcross)) == length * width
    ensures (length + spacingAlong) * (width + spacingAcross) <= 0.0 ==> a == 0.0
  {
    var unit := (length + spacingAlong) * (width + spacingAcross);
    if unit > 0.0 then length * width / unit else 0.0
  }

  /** The nominal coverage is usable for the solve only strictly between 0 and 0.99. */
  predicate Rescales(actual: real) {
    0.0 < actual < 0.99
  }

  /** `math.sqrt(coverage / actual_coverage)` when the nominal coverage is usable, else 1
      (the generators then keep the nominal size; the GUI label shows 1.00x). */
  function ScaleFactor(m: Math, coverage: real, actual: real): (k: real)
    requires Valid(m) && 0.0 <= coverage
    ensures Rescales(actual) ==> 0.0 <= k && k * k * actual == coverage
    ensures !Rescales(actual) ==> k == 1.0
  {
    if Rescales(actual) then
      SqrtOfRatio(m, coverage, actual);
      m.sqrt(coverage / actual)
    else 1.0
  }

  lemma SqrtOfRatio(m: Math, coverage: real, actual: real)
    requires Valid(m) && 0.0 <= coverage && 0.0 < actual
    ensures 0.0 <= m.sqrt(coverage / actual) && m.sqrt(coverage / actual) * m.sqrt(coverage / actual) * actual == coverage
  {
    var q := coverage / actual;
    DivTimes(coverage, actual);
    NonnegFactor(q, actual);
    SqrtSquares(m, q);
  }

  /** The solve scales area by exactly coverage/actual and keeps the aspect ratio; without a
      usable nominal coverage nothing changes. */
  lemma ScaleKeepsAspectAndScalesArea(m: Math, coverage: real, length: real, width: real,
                                      spacingAlong: real, spacingAcross: real)
    requires Valid(m) && 0.0 <= coverage
    ensures var a := ActualCoverage(length, width, spacingAlong, spacingAcross);
            var k := ScaleFactor(m, coverage, a);
            && (length * k) * width == (width * k) * length
            && (Rescales(a) ==> (length * k) * (width * k) * a == length * width * coverage)
            && (!Rescales(a) ==> length * k == length && width * k == width)
  {
    var a := ActualCoverage(length, width, spacingAlong, spacingAcross);
    var k := ScaleFactor(m, coverage, a);
    assert (length * k) * (width * k) * a == length * width * (k * k * a);
  }

  /** The nominal coverage does not depend on the length unit, so the GUI label (micrometres
      read as millimetres) and the vector renderer (points) derive the same scale factor. */
  lemma ActualCoverageIsUnitFree(length: real, width: real, spacingAlong: real,
                                 spacingAcross: real, unit: real)
    requires 0.0 < unit
    ensures ActualCoverage(length * unit, width * unit, spacingAlong * unit, spacingAcross * unit)
            == ActualCoverage(length, width, spacingAlong, spacingAcross)
  {
    var cell := (length + spacingAlong) * (width + spacingAcross);
    var scaledCell := (length * unit + spacingAlong * unit) * (width * unit + spacingAcross * unit);
    assert scaledCell == cell * (unit * unit);
    MulPos(unit, unit);
    if cell > 0.0 {
      var a := length * width / cell;
      assert a * cell == length * width;
      assert (length * unit) * (width * unit) == (length * width) * (unit * unit);
      assert a * scaledCell == (length * unit) * (width * unit);
    } else {
      assert scaledCell <= 0.0;
    }
  }

  /** Inked fraction of the grid the generators actually lay: the rescaled rectangle with the
      spacing left as it was. */
  function RealisedCoverage(length: real, width: real, spacingAlong: real, spacingAcross: real, k: real): real {
    ActualCoverage(length * k, width * k, spacingAlong, spacingAcross)
  }

  /** The solve misses its target: with every nominal dimension 1 and a target of 1/2 the
      rescaled grid carries less than 1/2 (it carries 2/(1 + sqrt 2)^2, about 0.34), because
      the spacing is not rescaled with the rectangle. */
  lemma ScaleFactorMissesTarget(m: Math)
    requires Valid(m)
    ensures var k := ScaleFactor(m, 0.5, ActualCoverage(1.0, 1.0, 1.0, 1.0));
            RealisedCoverage(1.0, 1.0, 1.0, 1.0, k) < 0.5
  {
    var a := ActualCoverage(1.0, 1.0, 1.0, 1.0);
    assert a * 4.0 == 1.0;
    var k := ScaleFactor(m, 0.5, a);
    assert k * k == 2.0;
    SquareLess(1.0, k);
    var cell := (k + 1.0) * (k + 1.0);
    assert cell == k * k + 2.0 * k + 1.0;
    assert cell > 5.0;
    var r := RealisedCoverage(1.0, 1.0, 1.0, 1.0, k);
    assert r * cell == 2.0;
    LessByPositive(r, 0.5, cell);
  }

  /** The scale that does meet the target on the grid the generators lay: the positive root of
      A k^2 - B k - C = 0 with A = L W (1 - c), B = c (L s_across + W s_along), C = c s_along s_across. */
  function ExactScaleFactor(m: Math, coverage: real, length: real, width: real,
                            spacingAlong: real, spacingAcross: real): (k: real)
    requires Valid(m)
    requires 0.0 < length && 0.0 < width && 0.0 <= spacingAlong && 0.0 <= spacingAcross
    requires 0.0 <= coverage < 1.0
    ensures 0.0 <= k
    ensures (length * k) * (width * k)
            == coverage * ((length * k + spacingAlong) * (width * k + spacingAcross))
  {
    var a := length * width * (1.0 - coverage);
    var b := coverage * (length * spacingAcross + width * spacingAlong);
    var c := coverage * spacingAlong * spacingAcross;
    CoefficientSigns(coverage, length, width, spacingAlong, spacingAcross);
    var k := PositiveRoot(m, a, b, c);
    ExactScaleExpands(coverage, length, width, spacingAlong, spacingAcross, k);
    k
  }

  lemma CoefficientSigns(coverage: real, length: real, width: real, spacingAlong: real, spacingAcross: real)
    requires 0.0 < length && 0.0 < width && 0.0 <= spacingAlong && 0.0 <= spacingAcross
    requires 0.0 <= coverage < 1.0
    ensures 0.0 < length * width * (1.0 - coverage)
    ensures 0.0 <= coverage * (length * spacingAcross + width * spacingAlong)
    ensures 0.0 <= coverage * spacingAlong * spacingAcross
  {
    MulPos(length, width);
    MulPos(length * width, 1.0 - coverage);
    MulNonneg(length, spacingAcross);
    MulNonneg(width, spacingAlong);
    MulNonneg(coverage, length * spacingAcross + width * spacingAlong);
    MulNonneg(coverage, spacingAlong);
    MulNonneg(coverage * spacingAlong, spacingAcross);
  }

  /** `(b + sqrt(b^2 + 4ac)) / 2a`: the non-negative root of `a k^2 - b k - c` for a > 0 and
      b, c >= 0. */
  function PositiveRoot(m: Math, a: real, b: real, c: real): (k: real)
    requires Valid(m) && 0.0 < a && 0.0 <= b && 0.0 <= c
    ensures 0.0 <= k && a * k * k - b * k == c
  {
    MulNonneg(b, b);
    MulNonneg(4.0 * a, c);
    SqrtSquares(m, b * b + 4.0 * a * c);
    var root := m.sqrt(b * b + 4.0 * a * c);
    QuadraticRoot(a, b, c, root, (b + root) / (2.0 * a));
    (b + root) / (2.0 * a)
  }

  /** `(b + sqrt(b^2 + 4ac)) / 2a` is a non-negative root of `a k^2 - b k - c` when a > 0 and
      b, c >= 0. */
  lemma QuadraticRoot(a: real, b: real, c: real, root: real, k: real)
    requires 0.0 < a && 0.0 <= b && 0.0 <= c
    requires 0.0 <= root && root * root == b * b + 4.0 * a * c
    requires k == (b + root) / (2.0 * a)
    ensures 0.0 <= k && a * k * k - b * k == c
  {
    var t := 2.0 * a * k;
    assert t == b + root;
    assert t * t == b * b + 2.0 * b * root + root * root;
    assert 2.0 * b * t == 2.0 * b * b + 2.0 * b * root;
    assert t * t - 2.0 * b * t == 4.0 * a * c;
    assert (4.0 * a) * (a * k * k - b * k) == t * t - 2.0 * b * t;
    MulCancel(4.0 * a, a * k * k - b * k, c);
  }

  /** The coverage equation of the rescaled grid, expanded into the quadratic in k. */
  lemma ExactScaleExpands(coverage: real, length: real, width: real, spacingAlong: real,
                          spacingAcross: real, k: real)
    ensures (length * k) * (width * k) - coverage * ((length * k + spacingAlong) * (width * k + spacingAcross))
            == (length * width * (1.0 - coverage)) * k * k
               - coverage * (length * spacingAcross + width * spacingAlong) * k
               - coverage * spacingAlong * spacingAcross
  {}

  /** A laid-out mesh: the rescaled rectangle, the grid periods and counts, and the shift of
      every odd row along the rectangles. */
  datatype Grid = Grid(
    center: Point,
    radius: real,
    length: real,
    width: real,
    periodAlong: real,
    periodAcross: real,
    numAlong: nat,
    numAcross: nat,
    shift: real)

  /** The grid for rescaled rectangle `length` x `width`: counts `ceil(6 r / period) + 4` along
      each axis and an odd-row shift of `period_along * indentation / 100` (`indented`), or no
      shift (the vector mesh of the first rectangular-mesh version). */
  function Layout(center: Point, radius: real, length: real, width: real, spacingAlong: real,
                  spacingAcross: real, indentation: real, indented: bool): (g: Grid)
    requires 0.0 <= radius && 0.0 < length + spacingAlong && 0.0 < width + spacingAcross
    ensures g.center == center && g.radius == radius && g.length == length && g.width == width
    ensures g.periodAlong == length + spacingAlong && g.periodAcross == width + spacingAcross
    ensures g.numAlong as real * g.periodAlong >= 6.0 * radius + 4.0 * g.periodAlong
    ensures g.numAcross as real * g.periodAcross >= 6.0 * radius + 4.0 * g.periodAcross
    ensures g.shift == if indented then g.periodAlong * (indentation / 100.0) else 0.0
  {
    var pa := length + spacingAlong;
    var px := width + spacingAcross;
    var diag := radius * 3.0;
    var ca := Ceil(diag * 2.0 / pa);
    var cx := Ceil(diag * 2.0 / px);
    assert 0.0 <= diag * 2.0 / pa && 0.0 <= diag * 2.0 / px;
    assert (diag * 2.0 / pa) * pa == 6.0 * radius;
    assert (diag * 2.0 / px) * px == 6.0 * radius;
    assert ca as real * pa >= 6.0 * radius by {
      assert ca as real >= diag * 2.0 / pa;
    }
    assert cx as real * px >= 6.0 * radius by {
      assert cx as real >= diag * 2.0 / px;
    }
    Grid(center, radius, length, width, pa, px, ca + 4, cx + 4,
         if indented then pa * (indentation / 100.0) else 0.0)
  }

  /** Offset of cell (i, j) from the centre before any rotation:
      `start + i * period` with `start = -n * period / 2`, odd rows shifted. */
  function Offset(g: Grid, i: int, j: int): (o: Point)
    ensures o.y == -(g.numAcross as real) * g.periodAcross / 2.0 + j as real * g.periodAcross
    ensures o.x == -(g.numAlong as real) * g.periodAlong / 2.0 + i as real * g.periodAlong
                   + (if j % 2 == 1 then g.shift else 0.0)
  {
    var x := -(g.numAlong as real) * g.periodAlong / 2.0 + i as real * g.periodAlong;
    var y := -(g.numAcross as real) * g.periodAcross / 2.0 + j as real * g.periodAcross;
    Point(if j % 2 == 1 then x + g.shift else x, y)
  }

  /** The vector renderer draws in the canvas frame, which the canvas then rotates as a whole;
      the raster renderer rotates each centre by the given cosine and sine. */
  datatype Backend = Vector | Raster(cos: real, sin: real)

  /** Centre of cell (i, j) as the backend computes it. */
  function Place(g: Grid, b: Backend, i: int, j: int): Point {
    match b
    case Vector => Add(g.center, Offset(g, i, j))
    case Raster(c, s) => Add(g.center, Rotate(Offset(g, i, j), c, s))
  }

  /** `dist <= radius + adjusted_length`, with `dist = math.sqrt(...)` from the centre. */
  predicate Keep(g: Grid, m: Math, p: Point) {
    m.sqrt(Dist2(p, g.center)) <= g.radius + g.length
  }

  /** Kept cells of column i among rows 0 .. j-1, in the order the inner loop visits them. */
  function Row(g: Grid, b: Backend, m: Math, i: nat, j: nat): seq<Point>
    decreases j
  {
    if j == 0 then []
    else
      var p := Place(g, b, i, j - 1);
      Row(g, b, m, i, j - 1) + (if Keep(g, m, p) then [p] else [])
  }

  /** Kept cells of columns 0 .. i-1, in loop order. */
  function Columns(g: Grid, b: Backend, m: Math, i: nat): seq<Point>
    decreases i
  {
    if i == 0 then [] else Columns(g, b, m, i - 1) + Row(g, b, m, i - 1, g.numAcross)
  }

  /** Every kept cell of the grid, in the order the nested loops draw them. */
  function Cells(g: Grid, b: Backend, m: Math): seq<Point> {
    Columns(g, b, m, g.numAlong)
  }

  lemma {:induction false} RowMembers(g: Grid, b: Backend, m: Math, i: nat, j: nat, p: Point)
    ensures p in Row(g, b, m, i, j)
            <==> exists j' :: 0 <= j' < j && p == Place(g, b, i, j') && Keep(g, m, p)
  {
    if j > 0 {
      RowMembers(g, b, m, i, j - 1, p);
      if p in Row(g, b, m, i, j) && p !in Row(g, b, m, i, j - 1) {
        assert p == Place(g, b, i, j - 1) && Keep(g, m, p);
      }
    }
  }

  lemma {:induction false} ColumnsMembers(g: Grid, b: Backend, m: Math, i: nat, p: Point)
    ensures p in Columns(g, b, m, i)
            <==> exists i', j' :: 0 <= i' < i && 0 <= j' < g.numAcross
                                  && p == Place(g, b, i', j') && Keep(g, m, p)
  {
    if i > 0 {
      ColumnsMembers(g, b, m, i - 1, p);
      RowMembers(g, b, m, i - 1, g.numAcross, p);
    }
  }

  /** A point is drawn exactly when it is the centre of some cell of the grid that passes the
      distance filter. */
  lemma CellsAreTheKeptGridCells(g: Grid, b: Backend, m: Math, p: Point)
    ensures p in Cells(g, b, m)
            <==> exists i, j :: 0 <= i < g.numAlong && 0 <= j < g.numAcross
                                && p == Place(g, b, i, j) && Keep(g, m, p)
  {
    ColumnsMembers(g, b, m, g.numAlong, p);
  }

  /** The raster cell is the vector cell rotated about the centre, and both pass or both fail
      the distance filter, whichever frame the distance is measured in. */
  lemma PlaceAcrossBackends(g: Grid, m: Math, c: real, s: real, i: int, j: int)
    requires c * c + s * s == 1.0
    ensures Place(g, Raster(c, s), i, j) == RotateAbout(g.center, Place(g, Vector, i, j), c, s)
    ensures Keep(g, m, Place(g, Raster(c, s), i, j)) == Keep(g, m, Place(g, Vector, i, j))
  {
    var v := Place(g, Vector, i, j);
    assert Sub(v, g.center) == Offset(g, i, j);
    RotationKeepsDistance(g.center, v, c, s);
  }

  lemma {:induction false} RowAcrossBackends(g: Grid, m: Math, c: real, s: real, i: nat, j: nat)
    requires c * c + s * s == 1.0
    ensures Row(g, Raster(c, s), m, i, j) == RotateAll(g.center, Row(g, Vector, m, i, j), c, s)
  {
    if j > 0 {
      RowAcrossBackends(g, m, c, s, i, j - 1);
      PlaceAcrossBackends(g, m, c, s, i, j - 1);
      var v := Place(g, Vector, i, j - 1);
      RotateAllAppend(g.center, Row(g, Vector, m, i, j - 1), if Keep(g, m, v) then [v] else [], c, s);
    }
  }

  lemma {:induction false} ColumnsAcrossBackends(g: Grid, m: Math, c: real, s: real, i: nat)
    requires c * c + s * s == 1.0
    ensures Columns(g, Raster(c, s), m, i) == RotateAll(g.center, Columns(g, Vector, m, i), c, s)
  {
    if i > 0 {
      ColumnsAcrossBackends(g, m, c, s, i - 1);
      RowAcrossBackends(g, m, c, s, i - 1, g.numAcross);
      RotateAllAppend(g.center, Columns(g, Vector, m, i - 1), Row(g, Vector, m, i - 1, g.numAcross), c, s);
    }
  }

  /** Cross-backend agreement: on the same grid the raster renderer keeps the same cells, in
      the same order, as the vector renderer, each rotated about the centre as the vector
      canvas rotates it. */
  lemma RasterCellsAreRotatedVectorCells(g: Grid, m: Math, c: real, s: real)
    requires c * c + s * s == 1.0
    ensures Cells(g, Raster(c, s), m) == RotateAll(g.center, Cells(g, Vector, m), c, s)
  {
    ColumnsAcrossBackends(g, m, c, s, g.numAlong);
  }

  /** The grid reaches beyond three radii plus two periods on both sides of the centre along
      the rectangles (and likewise across), so any rotation of it still covers the disc. */
  lemma GridOutreachesRotation(g: Grid, j: int)
    requires 0.0 <= g.periodAlong && 0.0 <= g.periodAcross
    requires g.numAlong as real * g.periodAlong >= 6.0 * g.radius + 4.0 * g.periodAlong
    requires g.numAcross as real * g.periodAcross >= 6.0 * g.radius + 4.0 * g.periodAcross
    requires 0 < g.numAlong && 0 < g.numAcross
    ensures Offset(g, 0, j).x - (if j % 2 == 1 then g.shift else 0.0) <= -3.0 * g.radius - 2.0 * g.periodAlong
    ensures Offset(g, g.numAlong - 1, j).x - (if j % 2 == 1 then g.shift else 0.0) >= 3.0 * g.radius + g.periodAlong
    ensures Offset(g, 0, 0).y <= -3.0 * g.radius - 2.0 * g.periodAcross
    ensures Offset(g, 0, g.numAcross - 1).y >= 3.0 * g.radius + g.periodAcross
  {
  }

  /** Odd rows are shifted by `period_along * indentation / 100` against even rows and rows of
      equal parity are aligned: indentation 0 aligns every row, 50 staggers by half a period. */
  lemma RowIndentation(center: Point, radius: real, length: real, width: real, spacingAlong: real,
                       spacingAcross: real, indentation: real, i: int, j: int)
    requires 0.0 <= radius && 0.0 < length + spacingAlong && 0.0 < width + spacingAcross
    requires 0 <= j
    ensures var g := Layout(center, radius, length, width, spacingAlong, spacingAcross, indentation, true);
            && Offset(g, i, 2 * j + 1).x - Offset(g, i, 2 * j).x == g.periodAlong * indentation / 100.0
            && Offset(g, i, 2 * j + 2).x == Offset(g, i, 2 * j).x
            && (indentation == 0.0 ==> Offset(g, i, 2 * j + 1).x == Offset(g, i, 2 * j).x)
            && (indentation == 50.0 ==> Offset(g, i, 2 * j + 1).x - Offset(g, i, 2 * j).x == g.periodAlong / 2.0)
  {
    assert (2 * j + 1) % 2 == 1 && (2 * j) % 2 == 0 && (2 * j + 2) % 2 == 0;
  }

  /** Nested loops of the generators: `for i in range(num_along): for j in range(num_across)`,
      keeping each cell that passes the distance filter. */
  method LayCells(g: Grid, b: Backend, m: Math) returns (cells: seq<Point>)
    ensures cells == Cells(g, b, m)
  {
    cells := [];
    for i := 0 to g.numAlong
      invariant cells == Columns(g, b, m, i)
    {
      for j := 0 to g.numAcross
        invariant cells == Columns(g, b, m, i) + Row(g, b, m, i, j)
      {
        var p := Place(g, b, i, j);
        if m.sqrt(Dist2(p, g.center)) <= g.radius + g.length {
          cells := cells + [p];
        }
      }
    }
  }

  /** The grid both renderers lay for one set of lengths (all in the same unit): nominal
      coverage, solve, then counts and start. */
  function MeshGrid(m: Math, center: Point, radius: real, coverage: real, length: real, width: real,
                    spacingAlong: real, spacingAcross: real, indentation: real, indented: bool): (g: Grid)
    requires Valid(m) && 0.0 <= radius && 0.0 < coverage
    requires 0.0 <= length && 0.0 <= width && 0.0 <= spacingAlong && 0.0 <= spacingAcross
    requires 0.0 < length + spacingAlong && 0.0 < width + spacingAcross
    ensures var k := ScaleFactor(m, coverage, ActualCoverage(length, width, spacingAlong, spacingAcross));
            && g.center == center && g.radius == radius && g.length == length * k && g.width == width * k
            && g.periodAlong == length * k + spacingAlong && g.periodAcross == width * k + spacingAcross
            && 0.0 < g.periodAlong && 0.0 < g.periodAcross
  {
    var k := ScaleFactor(m, coverage, ActualCoverage(length, width, spacingAlong, spacingAcross));
    ScaleFactorPositive(m, coverage, ActualCoverage(length, width, spacingAlong, spacingAcross));
    ScaledPeriodsPositive(k, length, width, spacingAlong, spacingAcross);
    Layout(center, radius, length * k, width * k, spacingAlong, spacingAcross, indentation, indented)
  }

  /** The scale factor is positive whenever the coverage is. */
  lemma ScaleFactorPositive(m: Math, coverage: real, actual: real)
    requires Valid(m) && 0.0 < coverage
    ensures 0.0 < ScaleFactor(m, coverage, actual)
  {
    var k := ScaleFactor(m, coverage, actual);
    if Rescales(actual) {
      assert k * k * actual != 0.0;
    }
  }

  /** Rescaling by a positive factor keeps both periods positive. */
  lemma ScaledPeriodsPositive(k: real, length: real, width: real, spacingAlong: real, spacingAcross: real)
    requires 0.0 < k && 0.0 <= length && 0.0 <= width && 0.0 <= spacingAlong && 0.0 <= spacingAcross
    requires 0.0 < length + spacingAlong && 0.0 < width + spacingAcross
    ensures 0.0 < length * k + spacingAlong && 0.0 < width * k + spacingAcross
  {
    MulNonneg(length, k);
    if 0.0 < length { MulPos(length, k); }
    MulNonneg(width, k);
    if 0.0 < width { MulPos(width, k); }
  }

  /** Vector mesh (`add_interstitial`): lengths in millimetres converted to points, the
      grid laid in the canvas frame; the canvas rotation is applied by the caller. With
      `indented` false this is the vector mesh that has no indentation parameter. */
  function VectorMesh(m: Math, center: Point, radius: real, coverage: real, lengthMm: real, widthMm: real,
                      spacingAlongMm: real, spacingAcrossMm: real, indentation: real, indented: bool): (cells: seq<Point>)
    requires Valid(m) && 0.0 <= radius
    requires 0.0 <= lengthMm && 0.0 <= widthMm && 0.0 <= spacingAlongMm && 0.0 <= spacingAcrossMm
    requires 0.0 < lengthMm + spacingAlongMm && 0.0 < widthMm + spacingAcrossMm
    ensures coverage <= 0.0 ==> cells == []
    ensures 0.0 < coverage ==>
              0.0 < lengthMm * MM + spacingAlongMm * MM && 0.0 < widthMm * MM + spacingAcrossMm * MM
              && cells == Cells(MeshGrid(m, center, radius, coverage, lengthMm * MM, widthMm * MM, spacingAlongMm * MM,
                                         spacingAcrossMm * MM, indentation, indented), Vector, m)
  {
    if coverage <= 0.0 then []
    else
      MulPos(lengthMm + spacingAlongMm, MM);
      MulPos(widthMm + spacingAcrossMm, MM);
      var g := MeshGrid(m, center, radius, coverage, lengthMm * MM, widthMm * MM, spacingAlongMm * MM,
                        spacingAcrossMm * MM, indentation, indented);
      Cells(g, Vector, m)
  }

  /** Raster mesh (`add_interstitial_preview`): lengths already in pixels, spacings raised to at
      least one pixel, every centre rotated by `angle_deg` about the centre. */
  function RasterMesh(m: Math, center: Point, radius: real, coverage: real, length: real, width: real,
                      spacingAlong: real, spacingAcross: real, angleDeg: real, indentation: real): (cells: seq<Point>)
    requires Valid(m) && 0.0 <= radius && 0.0 <= length && 0.0 <= width
    ensures coverage <= 0.0 ==> cells == []
    ensures 0.0 < coverage ==>
              cells == Cells(MeshGrid(m, center, radius, coverage, length, width, Max(1.0, spacingAlong),
                                      Max(1.0, spacingAcross), indentation, true),
                             Raster(m.cos(Radians(m, angleDeg)), m.sin(Radians(m, angleDeg))), m)
  {
    if coverage <= 0.0 then []
    else
      var g := MeshGrid(m, center, radius, coverage, length, width, Max(1.0, spacingAlong),
                        Max(1.0, spacingAcross), indentation, true);
      var angle := Radians(m, angleDeg);
      Cells(g, Raster(m.cos(angle), m.sin(angle)), m)
  }

  /** On the grid it lays, the raster mesh is the vector mesh of the same grid rotated by
      `angle_deg` about the centre, cell for cell and in the same order; this is what the
      vector canvas rotation does to the vector mesh. */
  lemma RasterMeshIsRotatedGrid(m: Math, center: Point, radius: real, coverage: real, length: real,
                                width: real, spacingAlong: real, spacingAcross: real, angleDeg: real,
                                indentation: real)
    requires Valid(m) && 0.0 <= radius && 0.0 <= length && 0.0 <= width && 0.0 < coverage
    ensures var g := MeshGrid(m, center, radius, coverage, length, width, Max(1.0, spacingAlong),
                              Max(1.0, spacingAcross), indentation, true);
            var angle := Radians(m, angleDeg);
            RasterMesh(m, center, radius, coverage, length, width, spacingAlong, spacingAcross, angleDeg, indentation)
            == RotateAll(center, Cells(g, Vector, m), m.cos(angle), m.sin(angle))
  {
    var angle := Radians(m, angleDeg);
    var g := MeshGrid(m, center, radius, coverage, length, width, Max(1.0, spacingAlong),
                      Max(1.0, spacingAcross), indentation, true);
    SinCos(m, angle);
    RasterCellsAreRotatedVectorCells(g, m, m.cos(angle), m.sin(angle));
  }

  /** The vector mesh without indentation puts odd rows where the indented grid does not:
      whenever the shift is non-zero, cell (i, 1) of the two grids differ. */
  lemma UnindentedMeshDiffers(center: Point, radius: real, length: real, width: real, spacingAlong: real,
                              spacingAcross: real, indentation: real, i: int)
    requires 0.0 <= radius && 0.0 < length + spacingAlong && 0.0 < width + spacingAcross
    requires indentation != 0.0
    ensures var plain := Layout(center, radius, length, width, spacingAlong, spacingAcross, indentation, false);
            var indented := Layout(center, radius, length, width, spacingAlong, spacingAcross, indentation, true);
            && Place(plain, Vector, i, 0) == Place(indented, Vector, i, 0)
            && Place(plain, Vector, i, 1).x != Place(indented, Vector, i, 1).x
  {
    var plain := Layout(center, radius, length, width, spacingAlong, spacingAcross, indentation, false);
    var indented := Layout(center, radius, length, width, spacingAlong, spacingAcross, indentation, true);
    assert plain.numAlong == indented.numAlong && plain.numAcross == indented.numAcross;
    MulNonzero(indented.periodAlong, indentation / 100.0);
    assert Offset(indented, i, 1).x == Offset(plain, i, 1).x + indented.shift;
  }

  /** What a call yields: the callee's value, or the TypeError Python raises before the callee
      runs. */
  datatype Call<T> = Returned(value: T) | TypeError

  /** A call passing `passed` positional arguments to a function that takes at most `accepted`. */
  function PositionalCall<T>(accepted: nat, passed: nat, result: T): (r: Call<T>)
    ensures r.Returned? <==> passed <= accepted
    ensures r.Returned? ==> r.value == result
  {
    if passed <= accepted then Returned(result) else TypeError
  }

  /** The two-family script's `add_interstitial` takes ten parameters, the last the angle. */
  const UnindentedMeshParams: nat := 10
  /** Its `generate_pattern` passes eleven: the angle and then the indentation. */
  const IndentedMeshArgs: nat := 11

  /** The two-family script's PDF mesh as written: the call to its own `add_interstitial`,
      which has no indentation parameter. Python checks the arity before the body runs, so
      whatever the arguments the callee's value is never computed; outside the generator's own
      domain the model hands the call an empty list that it never returns. */
  function TwoFamilyVectorMesh(m: Math, center: Point, radius: real, coverage: real, lengthMm: real, widthMm: real,
                               spacingAlongMm: real, spacingAcrossMm: real, indentation: real): (r: Call<seq<Point>>)
    requires Valid(m)
  {
    var inDomain := 0.0 <= radius && 0.0 <= lengthMm && 0.0 <= widthMm && 0.0 <= spacingAlongMm
                    && 0.0 <= spacingAcrossMm && 0.0 < lengthMm + spacingAlongMm && 0.0 < widthMm + spacingAcrossMm;
    PositionalCall(UnindentedMeshParams, IndentedMeshArgs,
                   if inDomain then VectorMesh(m, center, radius, coverage, lengthMm, widthMm, spacingAlongMm,
                                               spacingAcrossMm, indentation, false)
                   else [])
  }

  /** As written, saving a mesh PDF from the two-family script always fails: for every input,
      even at zero coverage or with lengths the generator could not lay, the call raises before
      anything is drawn. */
  lemma TwoFamilyMeshRaises(m: Math, center: Point, radius: real, coverage: real, lengthMm: real, widthMm: real,
                            spacingAlongMm: real, spacingAcrossMm: real, indentation: real)
    requires Valid(m)
    ensures TwoFamilyVectorMesh(m, center, radius, coverage, lengthMm, widthMm, spacingAlongMm, spacingAcrossMm,
                                indentation) == TypeError
  {
  }

  /** Corrected: the call goes to a mesh generator that takes the indentation, as in the later
      scripts, so the PDF is drawn and is the indented mesh the preview lays: every odd row is
      shifted by `period_along * indentation / 100`. */
  function TwoFamilyVectorMeshCorrected(m: Math, center: Point, radius: real, coverage: real, lengthMm: real,
                                        widthMm: real, spacingAlongMm: real, spacingAcrossMm: real,
                                        indentation: real): (r: Call<seq<Point>>)
    requires Valid(m) && 0.0 <= radius
    requires 0.0 <= lengthMm && 0.0 <= widthMm && 0.0 <= spacingAlongMm && 0.0 <= spacingAcrossMm
    requires 0.0 < lengthMm + spacingAlongMm && 0.0 < widthMm + spacingAcrossMm
    ensures r.Returned?
    ensures coverage <= 0.0 ==> r.value == []
    ensures 0.0 < coverage ==>
              var g := MeshGrid(m, center, radius, coverage, lengthMm * MM, widthMm * MM, spacingAlongMm * MM,
                                spacingAcrossMm * MM, indentation, true);
              r.value == Cells(g, Vector, m) && g.shift == g.periodAlong * (indentation / 100.0)
  {
    PositionalCall(IndentedMeshArgs, IndentedMeshArgs,
                   VectorMesh(m, center, radius, coverage, lengthMm, widthMm, spacingAlongMm, spacingAcrossMm,
                              indentation, true))
  }

  method AddInterstitial(m: Math, center: Point, radius: real, coverage: real, lengthMm: real, widthMm: real,
                         spacingAlongMm: real, spacingAcrossMm: real, indentation: real, indented: bool)
    returns (cells: seq<Point>)
    requires Valid(m) && 0.0 <= radius
    requires 0.0 <= lengthMm && 0.0 <= widthMm && 0.0 <= spacingAlongMm && 0.0 <= spacingAcrossMm
    requires 0.0 < lengthMm + spacingAlongMm && 0.0 < widthMm + spacingAcrossMm
    ensures cells == VectorMesh(m, center, radius, coverage, lengthMm, widthMm, spacingAlongMm,
                                spacingAcrossMm, indentation, indented)
  {
    if coverage <= 0.0 {
      return [];
    }
    MulPos(lengthMm + spacingAlongMm, MM);
    MulPos(widthMm + spacingAcrossMm, MM);
    var g := MeshGrid(m, center, radius, coverage, lengthMm * MM, widthMm * MM, spacingAlongMm * MM,
                      spacingAcrossMm * MM, indentation, indented);
    cells := LayCells(g, Vector, m);
  }

  method AddInterstitialPreview(m: Math, center: Point, radius: real, coverage: real, length: real, width: real,
                                spacingAlong: real, spacingAcross: real, angleDeg: real, indentation: real)
    returns (cells: seq<Point>)
    requires Valid(m) && 0.0 <= radius && 0.0 <= length && 0.0 <= width
    ensures cells == RasterMesh(m, center, radius, coverage, length, width, spacingAlong, spacingAcross,
                                angleDeg, indentation)
  {
    if coverage <= 0.0 {
      return [];
    }
    var g := MeshGrid(m, center, radius, coverage, length, width, Max(1.0, spacingAlong),
                      Max(1.0, spacingAcross), indentation, true);
    var angle := Radians(m, angleDeg);
    cells := LayCells(g, Raster(m.cos(angle), m.sin(angle)), m);
  }
}
