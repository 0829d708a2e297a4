# Fibrosis pattern generators: a verified model of the geometry

The modelled program draws printable fibrosis patterns for cardiac cell-culture dishes. Each
pattern is a white tissue disc of the dish's diameter. A white border is kept free at its rim,
and black ink is laid inside the remaining inner pattern disc to reach a requested coverage.
The program comes in five versions:

- `try1.py`: stripes at a fixed spacing, disc spots, short rectangles and a compact scar;
- `try2.py`: a rectangle mesh and diffuse rectangles;
- `try3.py`: adds harmonic islands;
- `try5.py`: all four families, with a split compact scar;
- `pattern-creator.py`: a single-family tool with stripes at a fixed width.

Every version has a vector renderer (a reportlab PDF, in points) and a raster renderer (a PIL
preview, in pixels).

This project models the closed-form core shared by those renderers:

- the region arithmetic: border clamp, pattern radius, inner coverage, unit conversions;
- the coverage solvers: mesh scale factor, stripe width and gap, primitive counts, island base
  radius, scar radius;
- the layout generators: mesh grid, stripe bands, and placement of rectangles, spots, islands
  and scars from random draws;
- the harmonic boundaries of islands and scars;
- the order in which each generator consumes random draws.

The model is organised by module:

| module | file | contents |
|---|---|---|
| `Numerics` | numerics.dfy | reals, Python's `int`/`ceil`, `math` as a supplied oracle, plane geometry |
| `Random` | random.dfy | `random.uniform` over an explicit stream of unit draws; the polar placement at a uniform angle that every scattering generator shares; the `Rng` class holds the stream position that the generators advance |
| `Region` | region.dfy | border, pattern radius, inner coverage, mm→pt and mm→px |
| `Mesh` | mesh.dfy | interstitial rectangle mesh; nested loops as the method `LayCells` |
| `Stripes` | stripes.dfy | stripes at a fixed spacing (`try1.py`) and at a fixed width (`pattern-creator.py`); the `while` sweep as `SweepStarts` |
| `Harmonic` | harmonic.dfy | Fourier-perturbed closed outlines; the accumulator and vertex loops as methods |
| `Diffuse` | diffuse.dfy | diffuse rectangles (`try2.py`, `try3.py`, `try5.py`) and disc spots (`try1.py`) |
| `Patchy` | patchy.dfy | harmonic islands (`try5.py`, `try3.py`) and short rectangle patches (`try1.py`) |
| `Compact` | compact.dfy | single or split scar (`try5.py`, `try1.py`) |
| `Seeding` | seeding.dfy | how the preview and the saved PDF obtain their draws |

Each generator is a function from its parameters and a draw stream to the ordered list of
primitives it hands to the canvas. The loops of the source are methods that advance an `Rng`.
Each such method is proved to return that function's value and to consume exactly the stated
number of draws.

Cross-backend properties are stated as follows:

- The raster renderers rotate each cell centre or corner themselves. They are proved to
  produce the vector cells rotated about the centre, which is what the vector canvas rotation
  does.
- A geometry computed in pixels with every length scaled by `f` is proved to be the
  point-based geometry scaled by `f` about the centre (`ScaleAbout`), taken from the same
  draws.

## Model

| member | source | states |
|---|---|---|
| Numerics.Iterations | try5.py:186 | `range(int(x))` runs `floor(x)` times for x ≥ 0 and never for x < 0 |
| Numerics.FitCount | try2.py:303-307 | `int(inked / unit)` is the number of whole units that fit: `n·unit ≤ inked < (n+1)·unit`; 0 when nothing is inked |
| Numerics.FitCountScales | try2.py:303-307 | scaling the inked amount and the unit by the same positive factor keeps the count |
| Numerics.RotationKeepsDistance | try5.py:139-144 | rotating about the centre with `cos² + sin² = 1` keeps the distance to the centre |
| Random.UniformValue | try5.py:188 | `uniform(a, b)` of a unit draw lies between a and b |
| Random.Rng.Uniform | try5.py:188 | each `uniform` call takes the next draw of the stream and advances the stream by one |
| Region.ClampBorder | try5.py:981 | the border lies in [0, 0.9]; an in-range border is kept, one below is 0 and one above is 0.9 |
| Region.AreaRatio | try5.py:984 | definition: `(pattern_radius / radius)²`; its properties are stated by `Region.AreaRatioOfBorder` |
| Region.PatternRadius | try5.py:981 | the pattern radius lies between a tenth of the radius and the radius; it is `r − b·r` for an in-range border |
| Region.InnerCoverage | try5.py:984-986 | never above 0.99; below the cap `inner·ratio = coverage`; at the cap it falls short of the target; 0 when the ratio is not positive |
| Region.AreaRatioOfBorder | try5.py:984 | the area ratio is `(1 − b)²` of the clamped border and at least 0.01, so the "ratio is 0" branch is never taken |
| Region.InkedAreaMeetsTarget | try5.py:1119-1124 | inner coverage × inner disc area = coverage × outer disc area below the cap, and less than it at the cap |
| Region.InnerCoveragePercent | try1.py:824-834 | the GUI label never shows more than 99 % |
| Region.LabelAgreesWithRenderers | try5.py:760-767 | for every border in [0, 0.9], which includes the slider's 0–40 %, the label shows 100 × the inner coverage both renderers use |
| Region.ClampCoverage | pattern-creator.py:194 | coverage is clamped to [0, 1]; an in-range value is kept |
| Region.MmToPt | try5.py:34-37 | conversion to points keeps the sign and gives 2.8 to 2.9 points per millimetre |
| Region.MmToPx | try5.py:999-1002 | definition: millimetres to pixels through the inner pattern disc, as written; its properties are stated by `Region.InnerConversionShrinks` |
| Region.DishRadiusPt | try5.py:1102 | definition: the dish radius in points; its properties are stated by `Region.OuterConversionScales` |
| Region.MmToPxOuter | try5.py:999-1002 | definition: the corrected conversion through the outer disc; its properties are stated by `Region.OuterConversionKeepsProportion` and `Region.OuterConversionScales` |
| Region.OuterConversionKeepsProportion | try5.py:999-1002 | converting by the outer disc makes a length the same fraction of the pattern disc in pixels as in points |
| Region.OuterConversionScales | try5.py:1012-1013 | through the outer disc, every length and the pattern radius are the PDF's multiplied by one factor `radius_px / dish_radius_pt` |
| Region.InnerConversionShrinks | try5.py:999-1002 | the written conversion gives `(1 − border)` times the proportional length: 17 px instead of 20 in the example |
| Mesh.ActualCoverage | try5.py:40-42 | `actual·cell area = L·W` when the cell area is positive, otherwise 0 |
| Mesh.ScaleFactor | try5.py:44-51 | for 0 < actual < 0.99, `k ≥ 0` and `k²·actual = coverage`; otherwise `k = 1` |
| Mesh.ScaleKeepsAspectAndScalesArea | try5.py:44-51 | the rescaled rectangle keeps `L:W` and has area `L·W·coverage/actual`; without rescaling the dimensions are unchanged |
| Mesh.ActualCoverageIsUnitFree | try5.py:775-785 | nominal coverage, and with it the scale shown in the GUI, does not depend on the length unit |
| Mesh.ScaleFactorMissesTarget | try5.py:44-55 | with every dimension 1 and target 1/2, the grid actually laid carries less than 1/2 |
| Mesh.ExactScaleFactor | try5.py:44-55 | `k ≥ 0` and the rescaled rectangle with unchanged spacing carries exactly the target coverage |
| Mesh.Layout | try5.py:53-64 | periods are length plus spacing; `num·period ≥ 6·radius + 4·period` along and across; the odd-row shift is `period_along·indentation/100`, or 0 without indentation |
| Mesh.Offset | try5.py:62-80 | cell (i, j) sits at `−n·period/2 + i·period` on each axis; odd rows are moved by the shift |
| Mesh.Place | try5.py:75-80 | definition: cell (i, j) as the vector loop places it, or rotated about the centre as at try5.py:139-140; its properties are stated by `Mesh.PlaceAcrossBackends` |
| Mesh.Keep | try5.py:83-84 | definition: the filter `dist ≤ radius + adjusted_length`; its properties are stated by `Mesh.CellsAreTheKeptGridCells` and `Mesh.PlaceAcrossBackends` |
| Mesh.Row | try5.py:74-86 | definition: the inner loop over j, keeping the cells that pass the filter; its properties are stated by `Mesh.RowMembers` |
| Mesh.RowMembers | try5.py:74-86 | a point is drawn by the inner loop up to row j exactly when it is one of those rows' cells and passes the filter |
| Mesh.Columns | try5.py:73-86 | definition: the outer loop over i; its properties are stated by `Mesh.ColumnsMembers` |
| Mesh.ColumnsMembers | try5.py:73-86 | a point is drawn by the outer loop up to column i exactly when it is a kept cell of those columns |
| Mesh.Cells | try5.py:73-87 | definition: every kept cell in loop order; its properties are stated by `Mesh.CellsAreTheKeptGridCells`, `Mesh.RasterCellsAreRotatedVectorCells` and `Mesh.LayCells` |
| Mesh.RowIndentation | try5.py:78-80 | odd rows are offset from even rows by `period_along·indentation/100`, and rows of equal parity are aligned; at 0 all rows align and at 50 they are half a period apart |
| Mesh.GridOutreachesRotation | try5.py:57-64 | the grid reaches past three radii plus a period on both sides along both axes, so every rotation still covers the disc |
| Mesh.CellsAreTheKeptGridCells | try5.py:73-86 | a point is drawn exactly when it is a cell centre of the grid that passes `dist ≤ radius + adjusted_length` |
| Mesh.PlaceAcrossBackends | try5.py:139-144 | the raster cell is the vector cell rotated about the centre, and the filter keeps both or neither |
| Mesh.RasterCellsAreRotatedVectorCells | try5.py:129-144 | on one grid the raster renderer keeps the same cells as the vector renderer, in the same order, each rotated about the centre |
| Mesh.LayCells | try5.py:73-86 | the nested loops produce exactly the kept cells, in loop order |
| Mesh.MeshGrid | try5.py:34-64 | the grid keeps the dish centre and radius, its rectangle is the input scaled by `ScaleFactor`, its periods add the unchanged spacing and are positive |
| Mesh.ScaleFactorPositive | try5.py:44-51 | a positive coverage gives a positive scale factor |
| Mesh.ScaledPeriodsPositive | try5.py:53-56 | rescaling by a positive factor keeps both periods positive |
| Mesh.VectorMesh | try5.py:31-32 | nothing is drawn at coverage ≤ 0; otherwise the vector cells of `MeshGrid` with every length converted by `mm` |
| Mesh.RasterMesh | try5.py:93-97 | nothing is drawn at coverage ≤ 0; otherwise the rotated cells of `MeshGrid` with both spacings raised to one pixel |
| Mesh.RasterMeshIsRotatedGrid | try5.py:124-144 | the preview mesh is the vector mesh of its grid (spacings raised to one pixel), rotated by `angle_deg` about the centre |
| Mesh.UnindentedMeshDiffers | try2.py:73-82 | the mesh without indentation matches the indented grid on even rows and differs on odd rows whenever the indentation is non-zero |
| Mesh.PositionalCall | try2.py:21-22 | a call returns the callee's value exactly when no more positional arguments are passed than it accepts; otherwise it raises TypeError |
| Mesh.TwoFamilyVectorMesh | try2.py:269-270 | definition: the call with eleven arguments to the ten-parameter generator; its properties are stated by `Mesh.TwoFamilyMeshRaises` |
| Mesh.TwoFamilyMeshRaises | try2.py:269-270 | saving a mesh PDF raises TypeError for every input, including lengths and spacings the mesh generator itself could not lay: the arity check comes before any arithmetic |
| Mesh.TwoFamilyVectorMeshCorrected | try5.py:1141-1143 | with the indentation accepted, the call returns the indented mesh: no cells at coverage ≤ 0, otherwise the kept cells of the grid whose odd-row shift is `period_along·indentation/100` |
| Mesh.AddInterstitial | try5.py:21-88 | the vector mesh renderer draws `VectorMesh` |
| Mesh.AddInterstitialPreview | try5.py:90-163 | the raster mesh renderer draws `RasterMesh` |
| Stripes.EvenStarts | try1.py:74-75 | band k starts at `x0 + k·period` |
| Stripes.VectorRects | try1.py:74-76 | one rectangle per band |
| Stripes.RasterPolygons | try1.py:110-116 | one polygon per band |
| Stripes.RasterBandsAreRotatedRects | try1.py:110-116 | each raster polygon is the corresponding vector rectangle with its corners rotated about the centre |
| Stripes.StripeWidth | try1.py:47-55 | `w ≥ 0` and the duty cycle `w/(w + spacing)` equals the coverage, capped at 0.99; from 0.99 up, `w = 99·spacing` |
| Stripes.StripeCount | try1.py:60-61 | `n·period ≥ 6·radius + 6·period` |
| Stripes.SpacedBands | try1.py:57-65 | bands of the solved width, n of them, starting at `−n·period/2 + k·period`, each `3·diag` tall |
| Stripes.SpacedBandsCoverDisc | try1.py:60-76 | consecutive bands are exactly one spacing apart, and the bands reach past three radii on both sides |
| Stripes.SpacedStripes | try1.py:41-76 | nothing at coverage ≤ 0; otherwise at least one band, and the bands are `SpacedBands` at the spacing converted by `mm` |
| Stripes.PixelBands | try1.py:85-95 | no band and no space between bands is thinner than a pixel; when neither clamp applies, the bands are the vector formula's |
| Stripes.SpacedStripesPreview | try1.py:80-116 | nothing at coverage ≤ 0; otherwise at least one band, and the bands are the rotated `PixelBands` |
| Stripes.LayStarts | try1.py:74-75 | the `for` loop produces `EvenStarts` |
| Stripes.GapFormula | pattern-creator.py:37 | the period stays positive; for 1e-6 ≤ cov < 1 the gap is positive and `stripe/(stripe + gap) = cov` |
| Stripes.Gap | pattern-creator.py:34-37 | gap 0 from coverage 1 up; the period stays positive; for 1e-6 ≤ cov < 1 the duty cycle `stripe/(stripe + gap)` equals the coverage |
| Stripes.PreviewGap | pattern-creator.py:58-61 | gap 0 at coverage ≤ 0; the period stays positive; for 1e-6 ≤ cov < 1 the duty cycle equals the coverage |
| Stripes.SweepCount | pattern-creator.py:46-49 | the sweep makes the least number of passes n with `n·period ≥ total` |
| Stripes.SweepCountIsLeast | pattern-creator.py:46-49 | that count is unique |
| Stripes.SweepStarts | pattern-creator.py:46-49 | the `while` loop emits exactly `SweepCount` evenly spaced starts |
| Stripes.SquareDiagonal | pattern-creator.py:38 | `2√2·r` is at least the diameter and its square is `8r²` |
| Stripes.SweptBands | pattern-creator.py:38-49 | the bands start at `−total/2`, with `total = diag + 4·(stripe + gap)`, and each is `diag` tall |
| Stripes.SweptBandsCoverSquare | pattern-creator.py:38-49 | the bands start left of the square and sit one gap apart; the last starts inside the sweep and reaches past the square |
| Stripes.GapStripes | pattern-creator.py:29-50 | the vector stripes are empty exactly when coverage ≤ 0 |
| Stripes.GapStripesPreview | pattern-creator.py:52-81 | the raster stripes are never empty |
| Stripes.PreviewInksAtZeroCoverage | pattern-creator.py:58-81 | at coverage ≤ 0 the PDF draws nothing, but every point of the square lies in a preview band |
| Stripes.GapStripesPreviewCorrected | pattern-creator.py:30-31 | the corrected preview is empty exactly when coverage ≤ 0, and otherwise equals the written preview |
| Stripes.CorrectedPreviewAgreesWithVector | pattern-creator.py:30-37 | the corrected preview draws something exactly when the PDF does, and both gaps agree for 1e-6 ≤ cov < 1 |
| Harmonic.PartialSumBound | try5.py:212-215 | with amplitudes in [0, hi], the sum of the first n harmonic terms lies within `±n·hi` (by induction) |
| Harmonic.PartialSum | try5.py:213-215 | definition: the sum of the first n harmonics, harmonic h at frequency h + 1; its properties are stated by `Harmonic.PartialSumBound` |
| Harmonic.Variation | try5.py:212-216 | definition: that sum divided by the number of harmonics; its properties are stated by `Harmonic.VariationBound` and `Harmonic.MeanVariation` |
| Harmonic.RadiusAt | try5.py:219 | definition: `r·(1 + k·variation)`; its properties are stated by `Harmonic.RadiusBounds` |
| Harmonic.Angle | try5.py:209 | definition: `2πi/n`; its properties are stated by `Harmonic.Boundary` |
| Harmonic.Vertex | try5.py:219-223 | definition: the vertex at the local radius and the (turned) angle; its properties are stated by `Harmonic.VertexDistance` and `Harmonic.BoundaryScales` |
| Harmonic.VariationBound | try5.py:212-216 | the averaged variation lies in `[−hi, hi]` |
| Harmonic.RadiusBounds | try5.py:219 | the local radius lies between `r·(1 − k·hi)` and `r·(1 + k·hi)` |
| Harmonic.Boundary | try5.py:208-223 | n vertices, vertex i at angle `2πi/n` (plus the turn) and at the local radius |
| Harmonic.VertexDistance | try5.py:219-223 | vertex i lies at exactly the local radius from the centre |
| Harmonic.BoundaryInAnnulus | try5.py:208-223 | when `k·hi ≤ 1`, every vertex lies in the annulus `[r(1 − k·hi), r(1 + k·hi)]` around the centre |
| Harmonic.BoundaryScales | try5.py:265-280 | the outline drawn with a radius scaled by f about a new centre is the scaled outline |
| Harmonic.BoundaryTranslates | try1.py:353-356 | moving the centre moves every vertex by the same offset |
| Harmonic.Amplitudes | try5.py:205 | h amplitudes; amplitude j is `uniform(lo, hi)` of draw `pos + j` |
| Harmonic.Phases | try5.py:206 | h phases; phase j is `2π·` draw `pos + j` |
| Harmonic.AmplitudesInRange | try5.py:205 | every amplitude lies in [lo, hi] |
| Harmonic.DrawHarmonics | try5.py:205-206 | the amplitudes take the next h draws and the phases the h after them: 2h draws |
| Harmonic.DrawUniforms | try5.py:205 | the list comprehension takes h draws in order |
| Harmonic.MeanVariation | try5.py:212-216 | the accumulator loop computes the averaged variation |
| Harmonic.TraceBoundary | try5.py:208-223 | the vertex loop produces `Boundary` |
| Diffuse.RectCount | try5.py:1157 | `n·L·W ≤ cov·π·R² < (n+1)·L·W` |
| Diffuse.RectCountScales | try5.py:1017 | the count is unit-free: scaling R, L and W by one positive factor keeps it |
| Random.Polar | try5.py:188-192 | definition: the point at a uniform polar angle and a given fraction of the radius, shared by rectangles, disc spots, islands and patches; its properties are stated by `Random.PolarInDisc` and `Random.PolarScales` |
| Diffuse.RectBase | try5.py:1159-1163 | definition: the polar base point with fraction `u^0.5`; its properties are stated by `Diffuse.RectBaseInDisc` |
| Diffuse.PlaceRect | try2.py:318-330 | definition: one rectangle from five draws in either order (the preview's order at try2.py:361-373); its properties are stated by `Diffuse.RectNearBase` and `Diffuse.OrdersAgreeIff` |
| Diffuse.RectAt | try5.py:1158-1168 | definition: rectangle k from draws `pos + 5k` on; its properties are stated by `Diffuse.ScatteredRects` |
| Diffuse.InnerConversionChangesCount | try5.py:1012-1017 | as written, a 10 mm dish 200 px wide with border 0.15 and 1 mm squares at coverage 0.5 previews 39 rectangles where the proportional lengths give 28 |
| Diffuse.ScatteredRects | try5.py:1158-1168 | n rectangles, rectangle k placed from draws `pos + 5k … pos + 5k + 4` |
| Diffuse.ScatteredRectsSnoc | try5.py:1158-1168 | one more loop turn appends the next rectangle placed |
| Diffuse.RectBaseInDisc | try5.py:1159-1163 | the base point from `R·sqrt(u)` at a uniform angle lies in the disc |
| Diffuse.RectNearBase | try5.py:1165-1168 | in either draw order, the scatter stays within `±randomness·L` on each axis and the spin lies in [0, 180] |
| Diffuse.OrdersAgreeIff | try2.py:325-330 | the two draw orders give the same rectangle exactly when the third, fourth and fifth draws are equal |
| Diffuse.DrawBase | try5.py:1159-1163 | the first two calls give the base point; 2 draws |
| Diffuse.DrawSpinAndScatter | try2.py:325-330 | the spin and the scatter offsets come from the three draws in the order the renderer uses |
| Diffuse.DrawRect | try5.py:1159-1168 | one rectangle takes 5 draws |
| Diffuse.ScatterRects | try5.py:1158-1168 | the loop produces the first n rectangles and takes 5n draws |
| Diffuse.RectCorners | try2.py:333-338 | definition: the four corners of the spun rectangle; its properties are stated by `Diffuse.RectCornersAtHalfDiagonal` |
| Diffuse.RectCornersAtHalfDiagonal | try5.py:1034-1048 | every corner of a spun rectangle lies at the half diagonal from its centre |
| Diffuse.DiffuseRects | try2.py:297-316 | nothing at coverage ≤ 0, otherwise exactly `RectCount` rectangles |
| Diffuse.DiffuseRectsNearDisc | try2.py:316-330 | every rectangle is within the scatter of a point of the disc, and its spin lies in [0, 180] |
| Diffuse.UnguardedLoopMatchesGuard | try5.py:1017 | the unguarded loop yields the guarded sequence, empty at coverage ≤ 0 |
| Diffuse.AddDiffuse | try2.py:287-338 | the renderer draws `DiffuseRects` and takes 5 draws per rectangle |
| Diffuse.RectScales | try5.py:1018-1027 | with radius and scatter scaled by f, one rectangle is the scaled rectangle with the same spin |
| Diffuse.ScatteredRectsScale | try5.py:1017-1027 | the same holds for the first n rectangles |
| Diffuse.PreviewIsScaledVector | try5.py:1017-1027 | for a given count n, with the PDF's draw order and the disc radius and scatter both scaled by f, the n preview rectangles are the PDF's scaled by f with the same spins |
| Diffuse.ProportionalPreviewIsScaledVector | try5.py:1012-1027 | with the PDF's draw order and the radius and both sides scaled by one factor f (the outer-disc conversion), the whole preview generator places as many rectangles as the PDF, each the PDF's scaled by f |
| Diffuse.LegacyPreviewDiffers | try2.py:359-373 | with the preview's order, the first rectangle spins 0° while the PDF's spins 90°, so the preview is not the scaled PDF |
| Diffuse.ScatteredRectsSpin | try2.py:373 | rectangle k's spin is `180·` its third draw when the spin is drawn first, and its fifth when drawn last |
| Diffuse.PreviewPolygonKeepsDistance | try2.py:390-400 | rotating the spun rectangle about the pattern centre keeps each corner's distance from it |
| Diffuse.PreviewPolygon | try2.py:390-400 | definition: each corner spun about the rectangle, then turned about the pattern centre; its properties are stated by `Diffuse.PreviewPolygonKeepsDistance` and `Diffuse.UnrotatedPreviewPolygon` |
| Diffuse.UnrotatedPreviewPolygon | try5.py:1044-1048 | without a pattern angle the preview polygon is the spun rectangle |
| Diffuse.DiscCount | try1.py:145-149 | `n·π·r² ≤ cov·π·R² < (n+1)·π·r²` |
| Diffuse.DiscCenterInDisc | try1.py:153-156 | every spot centre lies in the disc |
| Diffuse.DiscCenter | try1.py:153-156 | definition: the polar point with fraction `sqrt(u)`; its properties are stated by `Diffuse.DiscCenterInDisc` |
| Diffuse.DiscCenters | try1.py:152-156 | spot k takes draws `pos + 2k` and `pos + 2k + 1` |
| Diffuse.AddDiscs | try1.py:119-157 | nothing at coverage ≤ 0, whatever the spot size; otherwise `DiscCount` spots, 2 draws each |
| Diffuse.DrawDiscCenter | try1.py:153-156 | one spot takes 2 draws |
| Diffuse.PreviewSpotRadius | try1.py:164 | preview spots have a radius of at least one pixel, and half the size when the size is at least 2 |
| Patchy.RadialFactorUnit | try5.py:189 | both radial laws give a fraction in [0, 1]; the guarded law at density ≤ 0 is the plain draw |
| Patchy.RadialFactor | try5.py:189 | definition: `u^(1/max(0.1, density))`, or try3's plain draw at density ≤ 0 (try3.py:275); its properties are stated by `Patchy.RadialFactorUnit` |
| Random.PolarInDisc | try5.py:188-192 | an island centre at a fraction in [0, 1] of the radius lies in the dish |
| Random.PolarScales | try5.py:247-251 | the polar placement scales with the dish |
| Patchy.BaseRadiusSolves | try5.py:180-183 | `n·base² = cov·R²` and `base ≥ 0` |
| Patchy.IslandShare | try5.py:181-182 | definition: each island's share of the inked area, over π; its properties are stated by `Patchy.IslandShareSplits` |
| Patchy.BaseRadius | try5.py:183 | definition: `sqrt(share)`; its properties are stated by `Patchy.BaseRadiusSolves` and `Patchy.BaseRadiusScales` |
| Patchy.IslandShareSplits | try5.py:180-183 | the n islands' shares of the inked area (over pi) add up to `cov·R²` and none is negative |
| Patchy.BaseRadiusScales | try5.py:240-242 | the base radius scales with the dish |
| Patchy.Islands | try5.py:186-206 | island k takes draws `pos + 11k …` |
| Patchy.IslandAt | try5.py:186-206 | definition: island k from its 11 draws; its properties are stated by `Patchy.IslandPlacement` and `Patchy.IslandScales` |
| Patchy.Patches | try5.py:175-186 | nothing when coverage ≤ 0 or island count ≤ 0, otherwise `int(num_islands)` islands of the base radius |
| Patchy.Outline | try5.py:200-223 | an island outline has 32 vertices under the `try5.py` rules and 16 under the `try3.py` rules |
| Patchy.IslandPlacement | try5.py:188-196 | the island centre lies in the dish and its radius lies in `[0.6, 1.4]·base·density` |
| Patchy.OutlineInAnnulus | try5.py:203-219 | every vertex lies between 0.76 and 1.24 island radii from the centre (0.75 and 1.25 in `try3.py`) |
| Patchy.IslandScales | try5.py:245-263 | an island placed in a scaled frame is the scaled island, with the same harmonics |
| Patchy.OutlineScales | try5.py:265-280 | the outline of a scaled island is the scaled outline |
| Patchy.PreviewIslandsAreScaled | try5.py:234-284 | the preview islands are the PDF islands scaled from points to pixels, one for one |
| Patchy.DrawIsland | try5.py:187-206 | one island takes 11 draws in the source's order |
| Patchy.DrawIslandCenter | try5.py:188-192 | the angle and the radial fraction take 2 draws |
| Patchy.DrawRadialFactor | try3.py:275 | both branches take exactly one draw |
| Patchy.AddPatchy | try5.py:166-232 | the renderer draws `Patches` with their outlines and takes 11 draws per island |
| Patchy.PatchCount | try1.py:194-201 | `n·L·W ≤ cov·π·R² < (n+1)·L·W`: the most whole rectangles whose area fits the inked area |
| Patchy.PatchWidth | try1.py:195 | definition: `0.3·length`; its properties are stated by `Patchy.PatchCount` |
| Patchy.PatchSeq | try1.py:205-219 | rectangle k takes draws `pos + 4k …` |
| Patchy.PatchAt | try1.py:207-219 | definition: one rectangle from four draws; its properties are stated by `Patchy.PatchPlacement` |
| Patchy.PatchCorners | try1.py:222-244 | definition: the four spun corners at the patch centre; its properties are stated by `Patchy.PatchCornerDistance` |
| Patchy.RectPatches | try1.py:190-201 | nothing at coverage ≤ 0, otherwise `PatchCount` rectangles |
| Patchy.PatchPlacement | try1.py:207-219 | with dispersion > 0, the centre lies in the dish, the size factor in [0.5, 1.5] and the spin in [0, 180] |
| Patchy.PatchCornerDistance | try1.py:222-244 | every corner lies at the half diagonal of the scaled 3:1 rectangle from its centre |
| Patchy.DrawPatch | try1.py:207-219 | one rectangle takes 4 draws |
| Patchy.AddRectPatches | try1.py:182-252 | the renderer draws `RectPatches` and takes 4 draws per rectangle |
| Compact.ScarAreas | try5.py:297 | `r_single² = cov·R²` and `2·r_split² = r_single²` |
| Compact.ScarRadius | try5.py:297 | definition: `R·sqrt(cov / (2 if split else 1))`; its properties are stated by `Compact.ScarAreas` and `Compact.ScarRadiusScales` |
| Compact.ScarDraws | try5.py:325-333 | definition: 0 draws for a disc, 10 for an outline; its properties are stated by `Compact.DrawIrregularCircle` |
| Compact.IrregularCircle | try5.py:323-359 | definition: a disc, or the 64-vertex harmonic outline; its properties are stated by `Compact.ScarOutlineInAnnulus` and `Compact.IrregularCircleScales` |
| Compact.MmOffset | try5.py:299-300 | definition: the offset in points; its properties are stated by `Compact.PreviewScarCentre` |
| Compact.CompactScars | try5.py:294-321 | nothing at coverage ≤ 0; otherwise one scar, or two when split |
| Compact.ScarOutlineInAnnulus | try5.py:323-352 | above irregularity 0.01 the scar is a polygon whose vertices lie within `r·(1 ± irr)` of its centre |
| Compact.OffsetOnlyTranslates | try1.py:317-356 | the offset moves the scar and changes nothing else |
| Compact.ScarRadiusScales | try5.py:368 | the scar radius scales with the dish |
| Compact.IrregularCircleScales | try5.py:387-419 | a scar drawn in a scaled frame is the scaled scar |
| Compact.PreviewScarIsScaled | try5.py:361-385 | for any pair of offsets, the unsplit preview scar is the PDF scar scaled by f and moved from the PDF's offset point to the preview's |
| Compact.PreviewScarCentre | try5.py:1072-1073 | the preview's offset point, converted through the inner disc, is the PDF's scaled by `(1 − b)·f` about the centres, and by exactly `f` when converted through the outer disc |
| Compact.DrawIrregularCircle | try5.py:323-359 | one scar: no draws for a disc, 10 for an outline |
| Compact.AddCompact | try5.py:287-321 | the renderer draws `CompactScars`, taking the left scar's draws before the right's |
| Seeding.PreviewStart | try5.py:795-802 | a preview that reseeds starts from the stream of the fresh seed; otherwise it continues the generator one step after `randint` |
| Seeding.Reseed | try5.py:1095-1096 | definition: `random.seed(s)` as the start of seed s's stream; its properties are stated by `Seeding.ReseededPreviewMatchesSave` |
| Seeding.RandIntSeed | try5.py:799 | definition: the integer `randint` returns from the next draw; its properties are stated by `Seeding.SaveSeed` and `Seeding.PreviewStart` |
| Seeding.SaveSeed | try1.py:858-861 | a save uses the recorded seed, or before any preview a fresh `randint`, and leaves that seed recorded |
| Seeding.SavingAgainReusesSeed | try1.py:858-861 | a second save renders from the same seed and stream as the first, whatever the generator did in between |
| Seeding.SaveStart | try5.py:1093-1096 | the PDF starts from the stream of the last seed |
| Seeding.ReseededPreviewMatchesSave | try3.py:644-647 | a reseeding preview takes exactly the saved PDF's draws |
| Seeding.ReseededDiffusePreviewIsSaved | try3.py:644-647 | corrected: a preview that reseeds (as try3 does), draws in the PDF's order (which try3's preview does not) and converts lengths through the outer disc (which no script does) shows the saved diffuse pattern scaled by `radius_px / dish_radius_pt` |
| Seeding.UnseededPreviewDiffers | try5.py:799-802 | without the reseed, the first rectangle spins 90° in the preview and 0° in the PDF |

## Left out

- The tkinter GUIs are not modelled: widgets, sliders, zoom, dragging, file dialogs and message boxes. Only the arithmetic of the coverage labels and of the parameter clamps is modelled.
- reportlab and PIL are not modelled: clipping, masking, filling, canvas transforms, resampling, raster y-orientation and pixel coverage. The model stops at the geometry handed to them. The vector renderers' canvas rotation is represented by rotating the model's points about the centre.
- `math.sin`, `cos`, `sqrt`, `pow` and `pi` are a supplied oracle (`Numerics.Math`), with only the facts the proofs use. Floating-point rounding is not modelled; everything is over exact reals.
- The Mersenne Twister is not modelled. A stream is any sequence of draws in [0, 1). The value `randint` returns is a supplied function of one step of the stream.
- The dish-size tables and the page layout (page size, background, margins) are configuration data and are not modelled.
- The stray nested `generate_pattern`/`save_pattern` at try3.py:355-384 is dead code and is not modelled.
- Unused values are not modelled: `split_distance` (try5.py:306, 372), `border_width` (try1.py), `island_size` and the spacing-derived count of the disc generator (try1.py:137-146). `Diffuse.DiscCount` is defined without the spacing.
- `Patchy.PatchAt`: a dispersion of 0 raises ZeroDivisionError in the source. The model requires a non-zero dispersion instead of modelling the exception. The same holds for a zero-area rectangle in the counts, a zero dish diameter in `Region.MmToPx`, and a zero spot size in `Diffuse.DiscCount`: try1's "Spot size (µm)" entry (try1.py:744) accepts 0, and the source then raises ZeroDivisionError at try1.py:149 at positive coverage. At coverage ≤ 0 the source returns first (try1.py:127-128), and `Diffuse.AddDiscs` accepts that case. The spot spacing, which try1.py:140 also divides by, is fixed at 100 µm with no entry (try1.py:552).
- `Stripes.SpacedStripes`: the model requires a positive spacing. In the source the "Spacing (µm)" field is a free entry (try1.py:738): a spacing of 0 gives a period of 0 and raises ZeroDivisionError at try1.py:61 at any positive coverage, and a negative spacing runs without error and draws whatever bands the negative period gives. Neither case is modelled.
- `Compact.PreviewScarIsScaled`: the shape is related for any offsets, but the preview places the scar where `Compact.PreviewScarCentre` says, `(1 − b)·f` times the PDF's offset rather than `f` times it, so for a border above 0 and a non-zero offset the preview scar is not the PDF scar scaled about the dish centre.
- `Stripes.SweepStarts`: the source loop never ends when the period is 0. The model requires a positive period.
- `Mesh.VectorMesh`: the model requires non-negative lengths with positive periods. In the source, at positive coverage a zero period (length plus spacing) raises ZeroDivisionError at try5.py:59-60; negative lengths or spacings with non-zero periods run without error and lay whatever grid the counts give. Neither case is modelled.
- `Diffuse.RectCount`: the count is proved unit-free (`Diffuse.RectCountScales`) only for one common factor. As written, the preview converts lengths through the inner disc, so its count differs from the PDF's (`Diffuse.InnerConversionChangesCount`); the as-written count is not related to the PDF's by a general lemma.
- `Diffuse.PreviewIsScaledVector`: it takes the count n as given and the scatter scaled by f. No preview as written meets this when the border is above 0, since every script converts lengths through the inner disc (try5.py:1012-1013, try3.py:489-490). The whole generator, count included, is covered only under the corrected outer-disc conversion (`Diffuse.ProportionalPreviewIsScaledVector`, `Seeding.ReseededDiffusePreviewIsSaved`).
- `Compact.IrregularCircle`: the preview draws a plain scar as an ellipse in its bounding box. The model treats it as the same `Disc` the PDF draws. In `try1.py` the scar is never turned and never split, which is the unsplit case with rotation 0.
- `Patchy.Patches`: the island count is a real, so `int(num_islands)` of a fractional value is modelled as well. The GUI of `try5.py` passes an integer.
- The generators keep the source's own scale factor (`Mesh.ScaleFactor`), mm→px conversion (`Region.MmToPx`), draw orders and seeding. The corrected members under Findings stand beside them and do not replace them.
- `try1.py` and `pattern-creator.py` never preview on start-up; the preview runs only from its button (try1.py:622, pattern-creator.py:170). A save before any preview is therefore reachable there: it takes a fresh seed (`Seeding.SaveSeed`), and the pattern it renders is modelled from that seed on. What the generator consumed before that save is not modelled.
- The rectangle corners of the mesh renderers are not modelled. The mesh is modelled as its cell centres.

## Findings

| source | as written | input that shows it | evidently intended | confidence | as-written member | corrected member |
|---|---|---|---|---|---|---|
| try2.py:359-373 | the diffuse preview draws both scatter offsets before the spin; the PDF draws the spin first (likewise try3.py:224-234) | third to fifth draws 0.5, 0, 0: the first PDF rectangle spins 90°, the preview's 0° | the preview shows the PDF's rectangles, as in the order `try5.py` uses in both renderers | high; not executed | Diffuse.LegacyPreviewDiffers | Diffuse.ProportionalPreviewIsScaledVector |
| pattern-creator.py:58-61 | at coverage ≤ 0 the preview sets the gap to 0 and still draws the bands | coverage 0: every point of the square around the disc lies in a band handed to the drawing calls; the PDF draws nothing. The claim stops at the band geometry: the bitmap compositing at pattern-creator.py:87 is not modelled | draw nothing, as the PDF does | high; not executed | Stripes.PreviewInksAtZeroCoverage | Stripes.GapStripesPreviewCorrected |
| try5.py:799-802 | the preview takes a fresh `last_seed` but renders without reseeding; the PDF reseeds with it (likewise try2.py:696-699, and try1.py:842, where `render_pattern_image` ignores the seed) | generator stream all 0.5, seed streams all 0: the first rectangle spins 90° in the preview and 0° in the PDF | reseed before the preview, as try3.py:646-647 does, so that, with the PDF's draw order and proportional lengths, the PDF is the pattern previewed | high; not executed | Seeding.UnseededPreviewDiffers | Seeding.ReseededDiffusePreviewIsSaved |
| try2.py:269-270 | the mesh branch passes `indentation` as an eleventh argument to an `add_interstitial` that takes ten | any mesh save raises TypeError | call a mesh generator that takes the indentation, as `try3.py` and `try5.py` do | high; not executed | Mesh.TwoFamilyMeshRaises | Mesh.TwoFamilyVectorMeshCorrected |
| try5.py:999-1002 | the preview converts mm to px by mapping the dish diameter onto the inner pattern disc | 1 mm on a 10 mm dish, 200 px outer diameter, border 0.15: 17 px drawn, 20 px proportional | map the dish diameter onto the outer disc, so that lengths keep their proportion to the dish as in the PDF | medium; not executed | Region.InnerConversionShrinks | Region.OuterConversionKeepsProportion |
| try5.py:44-55 | the scale factor `sqrt(cov/actual)` rescales the rectangle but not the spacing | length = width = spacings = 1, coverage 0.5: the laid grid carries about 0.34 | the laid grid carries the target coverage | medium; not executed | Mesh.ScaleFactorMissesTarget | Mesh.ExactScaleFactor |
