/** How the preview and the saved PDF obtain their random draws. Every preview first takes a
    fresh `last_seed = random.randint(0, 10**9)` from the process-wide generator; saving then
    renders the PDF after `random.seed(last_seed)`. The preview renders from that same seed only
    where the seed reaches `random.seed`: in the mesh-and-islands script (which reseeds before
    rendering) and in the gap-stripe script (whose raster renderer seeds). In the four-family and
    the two-family scripts no seed is passed to the raster renderer, and in the first stripe
    script the seed passed is swallowed by `**kwargs`, so the preview continues the generator's
    stream instead. */
module Seeding {
  import opened Numerics
  import opened Random
  import Diffuse
  import Region

  /** The process-wide generator: the stream it follows and how far along it is. */
  datatype GenState = GenState(stream: nat -> real, pos: nat)

  /** The draws still to come, from the next one on. */
  function Upcoming(g: GenState): nat -> real {
    (k: nat) => g.stream(g.pos + k)
  }

  /** `random.seed(s)`: the stream of seed s from its start; `seeded` gives each seed's stream. */
  function Reseed(seeded: int -> (nat -> real), s: int): GenState {
    GenState(seeded(s), 0)
  }

  /** `random.randint(0, 10**9)` advances the generator by one step; `pick` maps that step's
      draw to the integer returned. */
  function RandIntSeed(pick: real -> int, g: GenState): int {
    pick(g.stream(g.pos))
  }

  function AfterRandInt(g: GenState): GenState {
    GenState(g.stream, g.pos + 1)
  }

  /** The state the raster renderer starts from after `on_preview` took a fresh seed: reseeded
      when the seed reaches `random.seed`, the continued stream otherwise. */
  function PreviewStart(seeded: int -> (nat -> real), pick: real -> int, g: GenState, reseeds: bool): (start: GenState)
    ensures reseeds ==> start == Reseed(seeded, RandIntSeed(pick, g))
    ensures !reseeds ==> start == AfterRandInt(g) && Upcoming(start)(0) == g.stream(g.pos + 1)
  {
    if reseeds then Reseed(seeded, RandIntSeed(pick, g)) else AfterRandInt(g)
  }

  /** The state the vector renderer starts from when saving with the last seed. */
  function SaveStart(seeded: int -> (nat -> real), lastSeed: int): (start: GenState)
    ensures Upcoming(start)(0) == seeded(lastSeed)(0)
  {
    Reseed(seeded, lastSeed)
  }

  /** `last_seed`: none until the first preview or save, then the seed recorded. */
  datatype LastSeed = NoSeed | Recorded(seed: int)

  /** The seed a save renders with and the `last_seed` it leaves. Two scripts never preview on
      start-up, so a save can come first: it then takes a fresh `randint` and records it. */
  datatype SaveChoice = SaveChoice(seed: int, last: LastSeed)

  function SaveSeed(pick: real -> int, g: GenState, last: LastSeed): (c: SaveChoice)
    ensures c.last == Recorded(c.seed)
    ensures last.Recorded? ==> c.seed == last.seed
    ensures last.NoSeed? ==> c.seed == RandIntSeed(pick, g)
  {
    match last
    case Recorded(s) => SaveChoice(s, last)
    case NoSeed => SaveChoice(RandIntSeed(pick, g), Recorded(RandIntSeed(pick, g)))
  }

  /** Saving again, whatever the generator has done in between, renders from the same seed as
      the first save: a save before any preview fixes the pattern as a preview would. */
  lemma SavingAgainReusesSeed(seeded: int -> (nat -> real), pick: real -> int, g: GenState, g2: GenState,
                              last: LastSeed, k: nat)
    ensures var first := SaveSeed(pick, g, last);
            var second := SaveSeed(pick, g2, first.last);
            second.seed == first.seed
            && Upcoming(SaveStart(seeded, second.seed))(k) == Upcoming(SaveStart(seeded, first.seed))(k)
  {
  }

  /** Corrected: when the preview reseeds with the seed it recorded, the saved PDF takes
      exactly the preview's draws, whatever the generator's state was. */
  lemma ReseededPreviewMatchesSave(seeded: int -> (nat -> real), pick: real -> int, g: GenState, k: nat)
    ensures Upcoming(PreviewStart(seeded, pick, g, true))(k)
            == Upcoming(SaveStart(seeded, RandIntSeed(pick, g)))(k)
  {
  }

  /** Corrected: a preview that reseeds with the seed it records, draws each rectangle in the
      PDF's order and converts every length through the outer disc shows exactly the saved
      diffuse pattern, scaled from points to pixels by `radiusPx / dishRadiusPt`: as many
      rectangles, each at the scaled place with the same spin, whatever the generator's state
      was. `coverage` is the inner coverage, which both renderers compute alike. */
  lemma ReseededDiffusePreviewIsSaved(seeded: int -> (nat -> real), pick: real -> int, g: GenState, m: Math,
                                      c1: Point, c2: Point, diameterMm: real, radiusPx: real, border: real,
                                      coverage: real, lengthMm: real, widthMm: real, randomness: real)
    requires 0.0 < diameterMm && 0.0 < radiusPx && lengthMm * widthMm != 0.0
    ensures 0.0 < Region.DishRadiusPt(diameterMm)
    ensures var pv := PreviewStart(seeded, pick, g, true);
            var sv := SaveStart(seeded, RandIntSeed(pick, g));
            var lPx, wPx := Region.MmToPxOuter(lengthMm, diameterMm, radiusPx), Region.MmToPxOuter(widthMm, diameterMm, radiusPx);
            var lPt, wPt := Region.MmToPt(lengthMm), Region.MmToPt(widthMm);
            && lPt * wPt != 0.0 && lPx * wPx != 0.0
            && Diffuse.DiffuseRects(m, c2, Region.PatternRadius(radiusPx, border), coverage, lPx, wPx, randomness,
                                    Diffuse.SpinThenScatter, Upcoming(pv), 0)
               == Diffuse.ScaleRects(c1, c2, radiusPx / Region.DishRadiusPt(diameterMm),
                                     Diffuse.DiffuseRects(m, c1, Region.PatternRadius(Region.DishRadiusPt(diameterMm), border),
                                                          coverage, lPt, wPt, randomness, Diffuse.SpinThenScatter, Upcoming(sv), 0))
  {
    var pv := PreviewStart(seeded, pick, g, true);
    var sv := SaveStart(seeded, RandIntSeed(pick, g));
    assert Upcoming(pv) == Upcoming(sv);
    var d := Region.DishRadiusPt(diameterMm);
    Region.OuterConversionScales(lengthMm, diameterMm, radiusPx, border);
    Region.OuterConversionScales(widthMm, diameterMm, radiusPx, border);
    var f := radiusPx / d;
    DivTimes(radiusPx, d);
    PositiveFactor(f, d);
    var lPt, wPt := Region.MmToPt(lengthMm), Region.MmToPt(widthMm);
    assert lPt * wPt == (lengthMm * widthMm) * (MM * MM);
    MulNonzero(lengthMm * widthMm, MM * MM);
    Diffuse.ProportionalPreviewIsScaledVector(m, c1, c2, Region.PatternRadius(d, border), Region.PatternRadius(radiusPx, border),
                                              coverage, lPt, Region.MmToPxOuter(lengthMm, diameterMm, radiusPx),
                                              wPt, Region.MmToPxOuter(widthMm, diameterMm, radiusPx),
                                              randomness, f, Upcoming(sv), 0);
  }

  /** As written: a preview that does not reseed shows a different pattern from the one saved.
      With a generator whose stream is all 0.5 and seeds whose streams are all 0, the first
      diffuse rectangle spins 90 degrees in the preview and 0 degrees in the PDF. */
  lemma UnseededPreviewDiffers(m: Math, c1: Point, c2: Point, radius: real, radius2: real,
                               scatter: real, scatter2: real, f: real)
    ensures var g := GenState(k => 0.5, 0);
            var seeded := (s: int) => (k: nat) => 0.0;
            var pick := (u: real) => 7;
            var pv := PreviewStart(seeded, pick, g, false);
            var sv := SaveStart(seeded, RandIntSeed(pick, g));
            && Diffuse.ScatteredRects(m, c2, radius2, scatter2, Diffuse.SpinThenScatter, Upcoming(pv), 0, 1)[0].spin == 90.0
            && Diffuse.ScatteredRects(m, c1, radius, scatter, Diffuse.SpinThenScatter, Upcoming(sv), 0, 1)[0].spin == 0.0
  {
    var g := GenState(k => 0.5, 0);
    var seeded := (s: int) => (k: nat) => 0.0;
    var pick := (u: real) => 7;
    var pv := PreviewStart(seeded, pick, g, false);
    var sv := SaveStart(seeded, RandIntSeed(pick, g));
    Diffuse.ScatteredRectsSpin(m, c2, radius2, scatter2, Diffuse.SpinThenScatter, Upcoming(pv), 0, 1, 0);
    Diffuse.ScatteredRectsSpin(m, c1, radius, scatter, Diffuse.SpinThenScatter, Upcoming(sv), 0, 1, 0);
    assert Upcoming(pv)(2) == 0.5;
    assert Upcoming(sv)(2) == 0.0;
  }
}
