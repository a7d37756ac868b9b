/** The layered noise field of the histogram demo: a grid of seed samples,
    smoothed by bilinear interpolation over seven octaves and normalised by
    the total amplitude. Single-precision arithmetic is modelled by exact
    reals. */
module Perlin {

  import opened Arith

  /** Dimensions of the noise grid. */
  const IMGW: nat := 256
  const IMGH: nat := 256

  /** The octave loop runs from MaxOctave down to 0. */
  const MaxOctave: nat := 6
  const Octaves: nat := MaxOctave + 1

  /** Amplitude decay from one octave to the next. */
  const Persistence: real := 0.5

  /** A grid of IMGW columns of IMGH samples, indexed [i][j] like the
      `base` and `perlin` arrays. */
  predicate IsGrid(g: seq<seq<real>>) {
    |g| == IMGW && forall i :: 0 <= i < IMGW ==> |g[i]| == IMGH
  }

  /** Every sample lies in [0, 1], as `rand() / RAND_MAX` does. */
  predicate InUnit(g: seq<seq<real>>) {
    forall i, j :: 0 <= i < |g| && 0 <= j < |g[i]| ==> 0.0 <= g[i][j] <= 1.0
  }

  function Min(a: real, b: real): real { if a <= b then a else b }
  function Max(a: real, b: real): real { if a <= b then b else a }

  /** Linear interpolation from x0 (alpha = 0) to x1 (alpha = 1). */
  function Interp(x0: real, x1: real, alpha: real): (r: real)
    ensures alpha == 0.0 ==> r == x0
    ensures alpha == 1.0 ==> r == x1
  {
    x0 * (1.0 - alpha) + alpha * x1
  }

  /** For a weight in [0, 1] the interpolated value lies between the two
      end points. */
  lemma InterpBetween(x0: real, x1: real, alpha: real)
    requires 0.0 <= alpha <= 1.0
    ensures Min(x0, x1) <= Interp(x0, x1, alpha) <= Max(x0, x1)
  {
    var r := Interp(x0, x1, alpha);
    assert r - x0 == alpha * (x1 - x0);
    assert x1 - r == (1.0 - alpha) * (x1 - x0);
    if x0 <= x1 {
      MulNonNegative(alpha, x1 - x0);
      MulNonNegative(1.0 - alpha, x1 - x0);
    } else {
      MulNonNegative(alpha, x0 - x1);
      MulNonNegative(1.0 - alpha, x0 - x1);
    }
  }

  /** The grid spacing of an octave, `1 << octave`. */
  function Period(octave: nat): (p: nat)
    ensures p >= 1
  {
    if octave == 0 then 1 else 2 * Period(octave - 1)
  }

  lemma {:induction false} PeriodAdd(a: nat, b: nat)
    ensures Period(a + b) == Period(a) * Period(b)
  {
    if b > 0 {
      PeriodAdd(a, b - 1);
      assert Period(a + b) == 2 * Period(a + b - 1);
    }
  }

  /** Every octave's period divides the grid: the grid holds a whole number
      of cells of that period in each direction. */
  lemma GridIsWholeCells(octave: nat)
    requires octave <= MaxOctave
    ensures Period(octave) * Period(8 - octave) == IMGW == IMGH
  {
    PeriodAdd(octave, 8 - octave);
    assert Period(8) == 256;
  }

  /** The nearest grid point at or below i on the lattice of spacing p,
      `(i / period) * period`. */
  function Corner(i: nat, p: nat): (c: nat)
    requires p >= 1
    ensures c % p == 0
    ensures c <= i < c + p
  {
    var c := (i / p) * p;
    DivModUnique(c, p, i / p, 0);
    c
  }

  /** The next lattice point, wrapping around at n, `(c + period) % n`. */
  function Neighbour(c: nat, p: nat, n: nat): (r: nat)
    requires n > 0
    ensures r < n
    ensures c + p < n ==> r == c + p
    ensures c + p == n ==> r == 0
  {
    (c + p) % n
  }

  /** The blend weight `(i - c) * freq` with `freq = 1 / period`. */
  function Weight(i: nat, c: nat, p: nat): (alpha: real)
    requires p >= 1 && c <= i < c + p
    ensures 0.0 <= alpha < 1.0
  {
    var d := (i - c) as real;
    assert d < p as real;
    d * (1.0 / p as real)
  }

  /** On a lattice of spacing p inside [0, m * p), the corner below i and
      the next lattice point after it are both at most m * p. */
  lemma CornerBelowMultiple(i: nat, p: nat, m: nat, n: nat)
    requires p >= 1 && n == p * m && i < n
    ensures Corner(i, p) + p <= n
  {
    var q := i / p;
    assert Corner(i, p) == q * p;
    MultipleBelow(q, m, p);
  }

  /** At every octave the lattice point after i's corner is at most the
      grid size: the grid holds a whole number of cells. */
  lemma CornerStepInGrid(i: nat, octave: nat)
    requires i < IMGW && octave <= MaxOctave
    ensures Corner(i, Period(octave)) + Period(octave) <= IMGW
  {
    var p, m := Period(octave), Period(8 - octave);
    assert IMGW == p * m by {
      GridIsWholeCells(octave);
    }
    CornerBelowMultiple(i, p, m, IMGW);
  }

  /** For a cell index i < IMGW the lattice corner and its wrap-around
      neighbour at any octave stay inside the grid, and the neighbour is the
      next lattice point or, past the last cell, index 0. */
  lemma CornerNeighbourInGrid(i: nat, octave: nat)
    requires i < IMGW && octave <= MaxOctave
    ensures Corner(i, Period(octave)) < IMGW
    ensures var c := Corner(i, Period(octave));
            Neighbour(c, Period(octave), IMGW) == if c + Period(octave) == IMGW then 0 else c + Period(octave)
  {
    CornerStepInGrid(i, octave);
  }

  /** The contribution of one octave at cell (i, j): bilinear interpolation
      between the four lattice samples around it. */
  function Blend(b: seq<seq<real>>, octave: nat, i: nat, j: nat): (r: real)
    requires IsGrid(b) && i < IMGW && j < IMGH
    ensures InUnit(b) ==> 0.0 <= r <= 1.0
  {
    var p := Period(octave);
    var si0 := Corner(i, p);
    var si1 := Neighbour(si0, p, IMGW);
    var sj0 := Corner(j, p);
    var sj1 := Neighbour(sj0, p, IMGH);
    var top := Interp(b[si0][sj0], b[si1][sj0], Weight(i, si0, p));
    var bot := Interp(b[si0][sj1], b[si1][sj1], Weight(i, si0, p));
    var r := Interp(top, bot, Weight(j, sj0, p));
    assert InUnit(b) ==> 0.0 <= r <= 1.0 by {
      if InUnit(b) {
        InterpBetween(b[si0][sj0], b[si1][sj0], Weight(i, si0, p));
        InterpBetween(b[si0][sj1], b[si1][sj1], Weight(i, si0, p));
        InterpBetween(top, bot, Weight(j, sj0, p));
      }
    }
    r
  }

  /** The amplitude of the k-th octave processed (octave MaxOctave - k). */
  function Amp(k: nat): (a: real)
    ensures 0.0 < a <= 1.0
  {
    if k == 0 then 1.0 else Amp(k - 1) * Persistence
  }

  /** The amplitude accumulated over the first k octaves processed. */
  function TotalAmp(k: nat): (t: real)
    ensures k == 0 ==> t == 0.0
    ensures k > 0 ==> t > 0.0
  {
    if k == 0 then 0.0 else TotalAmp(k - 1) + Amp(k - 1)
  }

  /** The seven octave layers of cell (i, j), in the order the octave loop
      adds them: layer m is octave MaxOctave - m. */
  function Layers(b: seq<seq<real>>, i: nat, j: nat): (ls: seq<real>)
    requires IsGrid(b) && i < IMGW && j < IMGH
    ensures |ls| == Octaves
  {
    seq(Octaves, m requires 0 <= m < Octaves => Blend(b, MaxOctave - m, i, j))
  }

  /** With seed samples in [0, 1] every layer lies in [0, 1]. */
  lemma LayersInUnit(b: seq<seq<real>>, i: nat, j: nat)
    requires IsGrid(b) && InUnit(b) && i < IMGW && j < IMGH
    ensures forall m :: 0 <= m < Octaves ==> 0.0 <= Layers(b, i, j)[m] <= 1.0
  {
    forall m | 0 <= m < Octaves
      ensures 0.0 <= Layers(b, i, j)[m] <= 1.0
    {
      LayerAt(b, MaxOctave - m, i, j);
    }
  }

  /** Layer MaxOctave - octave is the blend of octave `octave`. */
  lemma LayerAt(b: seq<seq<real>>, octave: nat, i: nat, j: nat)
    requires IsGrid(b) && octave <= MaxOctave && i < IMGW && j < IMGH
    ensures Layers(b, i, j)[MaxOctave - octave] == Blend(b, octave, i, j)
  {
  }

  /** The first k layers, each scaled by its octave's amplitude, added up. */
  function WeightedSum(ls: seq<real>, k: nat): (r: real)
    requires k <= |ls|
    ensures k == 0 ==> r == 0.0
  {
    if k == 0 then 0.0 else WeightedSum(ls, k - 1) + Amp(k - 1) * ls[k - 1]
  }

  /** Layers in [0, 1] add up to a value between 0 and the amplitude
      accumulated so far. */
  lemma {:induction false} WeightedSumInRange(ls: seq<real>, k: nat)
    requires k <= |ls|
    requires forall m :: 0 <= m < |ls| ==> 0.0 <= ls[m] <= 1.0
    ensures 0.0 <= WeightedSum(ls, k) <= TotalAmp(k)
  {
    if k > 0 {
      WeightedSumInRange(ls, k - 1);
      AccumulateUnit(WeightedSum(ls, k - 1), TotalAmp(k - 1), Amp(k - 1), ls[k - 1]);
    }
  }

  /** Layers that are all 1.0 add up to exactly the accumulated amplitude. */
  lemma {:induction false} WeightedSumOfOnes(ls: seq<real>, k: nat)
    requires k <= |ls|
    requires forall m :: 0 <= m < |ls| ==> ls[m] == 1.0
    ensures WeightedSum(ls, k) == TotalAmp(k)
  {
    if k > 0 {
      WeightedSumOfOnes(ls, k - 1);
    }
  }

  /** The value of cell (i, j) once the first k octaves have been added. */
  function Accum(b: seq<seq<real>>, k: nat, i: nat, j: nat): (r: real)
    requires IsGrid(b) && k <= Octaves && i < IMGW && j < IMGH
    ensures k == 0 ==> r == 0.0
  {
    WeightedSum(Layers(b, i, j), k)
  }

  /** Adding the k-th layer, scaled by its amplitude, to the sum of the
      first k layers gives the sum of the first k + 1. */
  lemma WeightedSumStep(ls: seq<real>, k: nat, acc: real, amp: real, layer: real)
    requires k < |ls| && acc == WeightedSum(ls, k) && amp == Amp(k) && layer == ls[k]
    ensures acc + amp * layer == WeightedSum(ls, k + 1)
  {
  }

  /** The normalised noise field: the weighted sum of all layers divided by
      the total amplitude. */
  function Field(b: seq<seq<real>>, i: nat, j: nat): (r: real)
    requires IsGrid(b) && i < IMGW && j < IMGH
    ensures InUnit(b) ==> 0.0 <= r <= 1.0
  {
    var t := TotalAmp(Octaves);
    var a := Accum(b, Octaves, i, j);
    assert InUnit(b) ==> 0.0 <= a / t <= 1.0 by {
      if InUnit(b) {
        LayersInUnit(b, i, j);
        WeightedSumInRange(Layers(b, i, j), Octaves);
        DivUnit(a, t);
      }
    }
    a / t
  }

  /** A grid sample `(unsigned)(n * u)` for a normalised coordinate u. */
  function SampleIndex(u: real, n: nat): (r: nat)
    requires n > 0 && 0.0 <= u < 1.0
    ensures r < n
    ensures r as real <= n as real * u < r as real + 1.0
  {
    var s := n as real * u;
    assert s < n as real;
    s.Floor
  }

  /** When the image is exactly as wide as the grid, pixel x samples grid
      cell x. */
  lemma SampleIndexOfPixel(x: nat, n: nat)
    requires x < n
    ensures 0.0 <= x as real / n as real < 1.0
    ensures SampleIndex(x as real / n as real, n) == x
  {
    assert n as real * (x as real / n as real) == x as real;
  }

  /** A seed grid that is 1.0 everywhere gives an octave layer of 1.0. */
  lemma BlendOfOnes(b: seq<seq<real>>, octave: nat, i: nat, j: nat)
    requires IsGrid(b) && i < IMGW && j < IMGH
    requires forall i', j' :: 0 <= i' < IMGW && 0 <= j' < IMGH ==> b[i'][j'] == 1.0
    ensures Blend(b, octave, i, j) == 1.0
  {
  }

  /** A seed grid that is 1.0 everywhere gives a field that is 1.0
      everywhere: the top of the [0, 1] range is reachable. */
  lemma FieldOfOnes(b: seq<seq<real>>, i: nat, j: nat)
    requires IsGrid(b) && i < IMGW && j < IMGH
    requires forall i', j' :: 0 <= i' < IMGW && 0 <= j' < IMGH ==> b[i'][j'] == 1.0
    ensures Field(b, i, j) == 1.0
  {
    var ls := Layers(b, i, j);
    forall m | 0 <= m < Octaves
      ensures ls[m] == 1.0
    {
      BlendOfOnes(b, MaxOctave - m, i, j);
    }
    WeightedSumOfOnes(ls, Octaves);
  }

  /** `b` holds the seed grid. */
  ghost predicate HoldsSeed(b: array2<real>, seed: seq<seq<real>>)
    reads b
    requires IsGrid(seed)
  {
    && b.Length0 == IMGW && b.Length1 == IMGH
    && forall i, j :: 0 <= i < IMGW && 0 <= j < IMGH ==> b[i, j] == seed[i][j]
  }

  /** `p` holds every cell's value after the first k octaves. */
  ghost predicate HoldsAccum(p: array2<real>, seed: seq<seq<real>>, k: nat)
    reads p
    requires IsGrid(seed) && k <= Octaves
  {
    && p.Length0 == IMGW && p.Length1 == IMGH
    && forall i, j :: 0 <= i < IMGW && 0 <= j < IMGH ==> p[i, j] == Accum(seed, k, i, j)
  }

  /** One pass of the constructor's octave loop: adds octave `octave`,
      scaled by `amp`, to every cell of `p`, reading the lattice samples
      from `b`. */
  method AddOctave(b: array2<real>, p: array2<real>, ghost seed: seq<seq<real>>, octave: nat, amp: real)
    requires IsGrid(seed) && octave <= MaxOctave && amp == Amp(MaxOctave - octave)
    requires b != p && HoldsSeed(b, seed) && HoldsAccum(p, seed, MaxOctave - octave)
    modifies p
    ensures HoldsAccum(p, seed, MaxOctave - octave + 1)
  {
    ghost var k := MaxOctave - octave;
    var period := Period(octave);
    for i := 0 to IMGW
      invariant forall i', j :: 0 <= i' < i && 0 <= j < IMGH ==> p[i', j] == Accum(seed, k + 1, i', j)
      invariant forall i', j :: i <= i' < IMGW && 0 <= j < IMGH ==> p[i', j] == Accum(seed, k, i', j)
    {
      var si0 := Corner(i, period);
      var si1 := Neighbour(si0, period, IMGW);
      var hblend := Weight(i, si0, period);
      AddOctaveAt(b, p, seed, octave, amp, i, si0, si1, hblend);
    }
  }

  /** The inner `j` loop of one octave pass, for cell column i whose lattice
      corner is si0, wrap-around neighbour si1 and blend weight hblend. */
  method AddOctaveAt(b: array2<real>, p: array2<real>, ghost seed: seq<seq<real>>, octave: nat, amp: real,
                     i: nat, si0: nat, si1: nat, hblend: real)
    requires IsGrid(seed) && octave <= MaxOctave && amp == Amp(MaxOctave - octave)
    requires b != p && HoldsSeed(b, seed)
    requires p.Length0 == IMGW && p.Length1 == IMGH && i < IMGW
    requires si0 == Corner(i, Period(octave)) && si1 == Neighbour(si0, Period(octave), IMGW)
    requires hblend == Weight(i, si0, Period(octave))
    requires forall j :: 0 <= j < IMGH ==> p[i, j] == Accum(seed, MaxOctave - octave, i, j)
    modifies p
    ensures forall j :: 0 <= j < IMGH ==> p[i, j] == Accum(seed, MaxOctave - octave + 1, i, j)
    ensures forall i', j :: 0 <= i' < IMGW && i' != i && 0 <= j < IMGH ==> p[i', j] == old(p[i', j])
  {
    ghost var k := MaxOctave - octave;
    for j := 0 to IMGH
      invariant forall i', j' :: 0 <= i' < IMGW && i' != i && 0 <= j' < IMGH ==> p[i', j'] == old(p[i', j'])
      invariant forall j' :: 0 <= j' < j ==> p[i, j'] == Accum(seed, k + 1, i, j')
      invariant forall j' :: j <= j' < IMGH ==> p[i, j'] == Accum(seed, k, i, j')
    {
      var layer := LatticeBlend(b, seed, octave, i, j, si0, si1, hblend);
      assert layer == Layers(seed, i, j)[k] by {
        LayerAt(seed, octave, i, j);
      }
      WeightedSumStep(Layers(seed, i, j), k, p[i, j], amp, layer);
      p[i, j] := p[i, j] + amp * layer;
    }
  }

  /** The body of the inner `j` loop up to the accumulation: reads the four
      lattice samples around cell (i, j) from `b` and blends them, giving the
      octave's layer value for that cell. */
  method LatticeBlend(b: array2<real>, ghost seed: seq<seq<real>>, octave: nat, i: nat, j: nat,
                      si0: nat, si1: nat, hblend: real) returns (layer: real)
    requires IsGrid(seed) && HoldsSeed(b, seed) && i < IMGW && j < IMGH
    requires si0 == Corner(i, Period(octave)) && si1 == Neighbour(si0, Period(octave), IMGW)
    requires hblend == Weight(i, si0, Period(octave))
    ensures layer == Blend(seed, octave, i, j)
  {
    var period := Period(octave);
    var sj0 := Corner(j, period);
    var sj1 := Neighbour(sj0, period, IMGH);
    var vblend := Weight(j, sj0, period);
    var top := Interp(b[si0, sj0], b[si1, sj0], hblend);
    var bot := Interp(b[si0, sj1], b[si1, sj1], hblend);
    layer := Interp(top, bot, vblend);
  }

  /** The constructor's last loop: divides every cell by the total
      amplitude, turning the accumulated values into the field. */
  method Normalise(p: array2<real>, ghost seed: seq<seq<real>>, tamp: real)
    requires IsGrid(seed) && tamp == TotalAmp(Octaves) && HoldsAccum(p, seed, Octaves)
    modifies p
    ensures forall i, j :: 0 <= i < IMGW && 0 <= j < IMGH ==> p[i, j] == Field(seed, i, j)
  {
    for i := 0 to IMGW
      invariant forall i', j :: 0 <= i' < i && 0 <= j < IMGH ==> p[i', j] == Field(seed, i', j)
      invariant forall i', j :: i <= i' < IMGW && 0 <= j < IMGH ==> p[i', j] == Accum(seed, Octaves, i', j)
    {
      for j := 0 to IMGH
        invariant forall i', j' :: 0 <= i' < i && 0 <= j' < IMGH ==> p[i', j'] == Field(seed, i', j')
        invariant forall i', j' :: i < i' < IMGW && 0 <= j' < IMGH ==> p[i', j'] == Accum(seed, Octaves, i', j')
        invariant forall j' :: 0 <= j' < j ==> p[i, j'] == Field(seed, i, j')
        invariant forall j' :: j <= j' < IMGH ==> p[i, j'] == Accum(seed, Octaves, i, j')
      {
        p[i, j] := p[i, j] / tamp;
      }
    }
  }

  /** The noise generator. The constructor draws the seed grid into `base`,
      adds the octaves into `perlin` and normalises it; `Seed` is the grid of
      `rand() / RAND_MAX` values it drew, in draw order. */
  class PerlinNoise {
    var base: array2<real>
    var perlin: array2<real>
    ghost var Seed: seq<seq<real>>

    ghost predicate Valid()
      reads this, base, perlin
    {
      && IsGrid(Seed)
      && base.Length0 == IMGW && base.Length1 == IMGH
      && perlin.Length0 == IMGW && perlin.Length1 == IMGH
      && (forall i, j :: 0 <= i < IMGW && 0 <= j < IMGH ==> base[i, j] == Seed[i][j])
      && (forall i, j :: 0 <= i < IMGW && 0 <= j < IMGH ==> perlin[i, j] == Field(Seed, i, j))
    }

    constructor (seed: seq<seq<real>>)
      requires IsGrid(seed)
      ensures Valid() && Seed == seed
      ensures fresh(base) && fresh(perlin)
    {
      var b := new real[IMGW, IMGH];
      var p := new real[IMGW, IMGH];
      for i := 0 to IMGW
        invariant forall i', j :: 0 <= i' < i && 0 <= j < IMGH ==> b[i', j] == seed[i'][j] && p[i', j] == 0.0
      {
        for j := 0 to IMGH
          invariant forall i', j' :: 0 <= i' < i && 0 <= j' < IMGH ==> b[i', j'] == seed[i'][j'] && p[i', j'] == 0.0
          invariant forall j' :: 0 <= j' < j ==> b[i, j'] == seed[i][j'] && p[i, j'] == 0.0
        {
          b[i, j] := seed[i][j];
          p[i, j] := 0.0;
        }
      }

      var amp, tamp := 1.0, 0.0;
      var octave: int := MaxOctave;
      while octave >= 0
        invariant -1 <= octave <= MaxOctave
        invariant amp == Amp(MaxOctave - octave) && tamp == TotalAmp(MaxOctave - octave)
        invariant HoldsSeed(b, seed) && HoldsAccum(p, seed, MaxOctave - octave)
      {
        AddOctave(b, p, seed, octave, amp);
        tamp := tamp + amp;
        amp := amp * Persistence;
        octave := octave - 1;
      }
      Normalise(p, seed, tamp);

      base := b;
      perlin := p;
      Seed := seed;
    }

    /** Nearest-sample lookup of the field at normalised coordinates (u, v). */
    function Noise(u: real, v: real): (r: real)
      reads this, base, perlin
      requires Valid()
      requires 0.0 <= u < 1.0 && 0.0 <= v < 1.0
      ensures r == Field(Seed, SampleIndex(u, IMGW), SampleIndex(v, IMGH))
      ensures InUnit(Seed) ==> 0.0 <= r <= 1.0
    {
      perlin[SampleIndex(u, IMGW), SampleIndex(v, IMGH)]
    }
  }
}
