# Histogram demo: noise image and intensity histogram

A Dafny model of the computational core of the Forge CPU histogram example
(`examples/cpu/histogram.cpp`). Each frame of the demo does three things:

- It builds a 256 × 256 value-noise field (`PerlinNoise`). A grid of random
  seed samples in [0, 1] is smoothed by bilinear interpolation over seven
  octaves, periods 64 down to 1. Each octave weighs half the previous one,
  and the sum is divided by the total amplitude.
- It renders that field into an RGBA8 bitmap (`kernel`). Each pixel gets the
  same gray level in red, green and blue, and 255 in alpha.
- It counts the pixels' red bytes into `nbins` bins (`populateBins`), then
  gives every bin a random colour.

The model has five modules:

- `Arith`: small integer and real facts about division, multiples and
  scaling, shared by the other modules.
- `Bitmaps`: the `unsigned char` byte type and the `Bitmap` record, whose
  buffer is an `array`. Also `createBitmap`, and the index arithmetic
  `(x + y * width) * 4 + k` with its bounds, coverage and injectivity.
- `Perlin`: the octave arithmetic (`1 << octave`, lattice corner,
  wrap-around neighbour, blend weight, `interp`) as functions. The field is
  the specification function `Field`. The class `PerlinNoise` holds the
  `base` and `perlin` arrays. Its constructor runs the source's loops over
  `array2` and is proved to leave `perlin[i, j] == Field(seed, i, j)`.
  `Noise` is the nearest-sample lookup.
- `Render`: the conversion to a gray byte and the `kernel` loops, proved
  against `KernelByte`, the byte the kernel leaves at each position.
- `Histogram`: the bin index, the tally specification `Tally` with its sum
  and per-bin lemmas, and the `populateBins` loops over the histogram and
  colour arrays.

Single-precision arithmetic is modelled by exact reals. The calls to
`rand()` become parameters:

- the seed grid, `seed[i][j]` being the draw stored in `base[i][j]`;
- the colour draws, `draws[3 * b + k]` being the draw stored in
  `hist_cols[3 * b + k]`.

## Model

| member | source | states |
|---|---|---|
| `Bitmaps.CreateBitmap` | examples/cpu/histogram.cpp:178-185 | the new buffer is fresh and holds exactly 4 · w · h bytes; width and height are the arguments |
| `Bitmaps.Offset` | examples/cpu/histogram.cpp:198 | `x + y * width`, the row-major pixel position; it is at least x (its range and inverse are the lemmas below) |
| `Bitmaps.ByteIndex` | examples/cpu/histogram.cpp:204-207 | `offset*4 + k`: for a channel k < 4 it lies in the pixel's four-byte slot [4 · offset, 4 · offset + 4) |
| `Bitmaps.OffsetInBounds` | examples/cpu/histogram.cpp:196-198 | a pixel inside the image has offset `x + y * width` below width · height |
| `Bitmaps.RowEnd` | examples/cpu/histogram.cpp:196-198 | the offset after the last pixel of row y is the offset of the first pixel of row y + 1, and at most width · height |
| `Bitmaps.OffsetEncode` | examples/cpu/histogram.cpp:198 | the offset of pixel (x, y) with x < width gives back y as quotient and x as remainder by the width |
| `Bitmaps.OffsetDecode` | examples/cpu/histogram.cpp:198 | every offset below width · height is the offset of the pixel named by its remainder and quotient, and that pixel is inside the image |
| `Bitmaps.ByteIndexInBounds` | examples/cpu/histogram.cpp:204-207 | every byte `offset*4 + k` with k < 4 that the pixel loops write lies inside the 4 · w · h buffer |
| `Bitmaps.ByteIndexCovers` | examples/cpu/histogram.cpp:196-207 | every byte of the buffer is channel i % 4 of some pixel inside the image |
| `Bitmaps.ByteIndexInjective` | examples/cpu/histogram.cpp:204-207 | two (pixel, channel) pairs with the same byte index are equal, so no byte is written twice |
| `Perlin.Interp` | examples/cpu/histogram.cpp:119-122 | weight 0 gives the first end point, weight 1 the second |
| `Perlin.InterpBetween` | examples/cpu/histogram.cpp:119-122 | for a weight in [0, 1] the result lies between the two end points |
| `Perlin.Period` | examples/cpu/histogram.cpp:143 | `1 << octave` is at least 1, so `i/period` at :148 is defined (its doubling law is `Perlin.PeriodAdd`) |
| `Perlin.PeriodAdd` | examples/cpu/histogram.cpp:143 | `1 << (a + b)` is `(1 << a) * (1 << b)` |
| `Perlin.GridIsWholeCells` | examples/cpu/histogram.cpp:141-143 | for every octave 0..6 the period times `1 << (8 - octave)` is IMGW = IMGH = 256: the grid is a whole number of cells |
| `Perlin.Corner` | examples/cpu/histogram.cpp:148 | `(i/period)*period` is a multiple of the period with si0 ≤ i < si0 + period |
| `Perlin.Neighbour` | examples/cpu/histogram.cpp:149 | `(si0 + period) % IMGW` is below IMGW; it is si0 + period inside the grid and 0 when that reaches IMGW |
| `Perlin.Weight` | examples/cpu/histogram.cpp:144-150 | the blend weight `(i - si0) * freq` lies in [0, 1) |
| `Perlin.CornerBelowMultiple` | examples/cpu/histogram.cpp:148 | on a lattice of spacing p inside [0, m · p), the corner below i plus p is at most m · p |
| `Perlin.CornerStepInGrid` | examples/cpu/histogram.cpp:148-149 | at every octave si0 + period ≤ IMGW |
| `Perlin.CornerNeighbourInGrid` | examples/cpu/histogram.cpp:148-159 | si0 < IMGW, and si1 is the next lattice point or 0 past the last cell, so all four `base` reads are inside the grid |
| `Perlin.Blend` | examples/cpu/histogram.cpp:152-161 | with seed samples in [0, 1] the bilinear blend `interp(top, bot, vblend)` lies in [0, 1] |
| `Perlin.Amp` | examples/cpu/histogram.cpp:137-165 | every octave amplitude lies in (0, 1] |
| `Perlin.TotalAmp` | examples/cpu/histogram.cpp:139-164 | `tamp` is 0 before the first octave and positive after it, so the final division is defined |
| `Perlin.Layers` | examples/cpu/histogram.cpp:141-163 | a cell has one layer per pass of the octave loop, seven in all (which octave each is: `Perlin.LayerAt`) |
| `Perlin.LayerAt` | examples/cpu/histogram.cpp:141-161 | step lemma for the octave loop (it unfolds `Layers`): the m-th layer added is the blend of octave 6 - m |
| `Perlin.LayersInUnit` | examples/cpu/histogram.cpp:152-161 | with seed samples in [0, 1] every octave layer of a cell lies in [0, 1] |
| `Perlin.WeightedSumInRange` | examples/cpu/histogram.cpp:161-164 | layers in [0, 1] accumulate to a value between 0 and the accumulated amplitude `tamp` |
| `Perlin.WeightedSumOfOnes` | examples/cpu/histogram.cpp:161-164 | layers that are all 1 accumulate to exactly `tamp` |
| `Perlin.WeightedSum` | examples/cpu/histogram.cpp:161-165 | the first k layers, each times its amplitude, added up; 0 before any octave, as `perlin[i][j] = 0` at :133 |
| `Perlin.WeightedSumStep` | examples/cpu/histogram.cpp:161 | step lemma for the `j` loop (it unfolds `WeightedSum`): `perlin[i][j] += amp * layer` turns the sum of the first k layers into the sum of the first k + 1 |
| `Perlin.Accum` | examples/cpu/histogram.cpp:141-166 | the value of `perlin[i][j]` after the first k octave passes; 0 before the first |
| `Perlin.Field` | examples/cpu/histogram.cpp:168-170 | with seed samples in [0, 1] the normalised field lies in [0, 1] |
| `Perlin.SampleIndex` | examples/cpu/histogram.cpp:175 | `(unsigned)(n * u)` for u in [0, 1) is the floor of n · u and a valid index below n |
| `Perlin.SampleIndexOfPixel` | examples/cpu/histogram.cpp:175 | when the image is as wide as the grid, x / width lies in [0, 1) and samples grid cell x itself |
| `Perlin.BlendOfOnes` | examples/cpu/histogram.cpp:152-161 | a seed grid of 1.0 gives every octave layer the value 1.0 |
| `Perlin.FieldOfOnes` | examples/cpu/histogram.cpp:124-171 | a seed grid of 1.0 gives a field of exactly 1.0, so the top of the range is reached |
| `Perlin.AddOctave` | examples/cpu/histogram.cpp:143-163 | one pass of the octave loop turns `perlin` from the sum of k layers into the sum of k + 1 in every cell |
| `Perlin.AddOctaveAt` | examples/cpu/histogram.cpp:152-162 | the inner j loop does this for column i and leaves every other column unchanged |
| `Perlin.LatticeBlend` | examples/cpu/histogram.cpp:154-159 | reading the four lattice samples from `base` and blending them gives the octave's layer at (i, j) |
| `Perlin.Normalise` | examples/cpu/histogram.cpp:168-170 | dividing every accumulated cell by `tamp` leaves the field in every cell |
| `Perlin.PerlinNoise.constructor` | examples/cpu/histogram.cpp:124-171 | `base` holds the seed draws and `perlin[i][j]` is the field at (i, j) in every cell |
| `Perlin.PerlinNoise.Noise` | examples/cpu/histogram.cpp:173-176 | the lookup returns the field at the nearest grid cell `(floor(IMGW·u), floor(IMGH·v))`, in [0, 1] for seed samples in [0, 1] |
| `Render.GrayLevel` | examples/cpu/histogram.cpp:203 | `(unsigned char)(255 * n)` is the floor of 255 · n, and it is 255 exactly when n = 1 |
| `Render.PixelGray` | examples/cpu/histogram.cpp:200-203 | `255 * perlin.noise(x/(float)width, y/(float)height)` as a byte; it is 255 exactly where the sampled field is 1.0 |
| `Render.KernelByte` | examples/cpu/histogram.cpp:196-207 | reference definition of byte i after `kernel`: 255 when i % 4 = 3, otherwise the gray level of pixel ((i / 4) % w, (i / 4) / w) |
| `Render.KernelPixel` | examples/cpu/histogram.cpp:198-207 | channel k of pixel (x, y) lies in the buffer and holds the pixel's gray level for k < 3 and 255 for k = 3 |
| `Render.PixelBytes` | examples/cpu/histogram.cpp:204-207 | the four bytes `offset*4 + 0..3` of a pixel lie in the buffer and hold gray, gray, gray, 255 |
| `Render.KernelGrayChannels` | examples/cpu/histogram.cpp:204-206 | red, green and blue of every pixel are equal |
| `Render.WhitePixel` | examples/cpu/histogram.cpp:203 | a seed grid of 1.0 gives every pixel gray level 255 |
| `Render.Kernel` | examples/cpu/histogram.cpp:192-210 | after the kernel every byte of the buffer holds its kernel value: the gray level in R, G and B and 255 in A |
| `Render.FillPixels` | examples/cpu/histogram.cpp:196-209 | the row loop fills the whole buffer with kernel values |
| `Render.FillRow` | examples/cpu/histogram.cpp:197-208 | the column loop of row y extends the filled prefix of the buffer to the end of row y and leaves every byte after row y as it was |
| `Render.WritePixel` | examples/cpu/histogram.cpp:204-207 | the four writes of one pixel extend the filled prefix by those four bytes and leave every later byte as it was |
| `Histogram.BinIndex` | examples/cpu/histogram.cpp:218 | `(int)(v/255.f * nbins)` is at most nbins, and below nbins exactly when v < 255 |
| `Histogram.BinIndexMonotone` | examples/cpu/histogram.cpp:218 | a brighter pixel never lands in a lower bin |
| `Histogram.BinIndexOfBlack` | examples/cpu/histogram.cpp:218 | gray level 0 lands in bin 0 |
| `Histogram.BinIndexOfWhite` | examples/cpu/histogram.cpp:218-219 | gray level 255 lands at index nbins, one past the last bin |
| `Histogram.BinsInRangeIffNoWhite` | examples/cpu/histogram.cpp:218-219 | every index the tally computes is inside the histogram exactly when no red byte is 255 |
| `Histogram.ClampedBinIndex` | examples/cpu/histogram.cpp:218 | the corrected index is always below nbins, equals the index as written below 255 and is the last bin at 255 |
| `Histogram.ClampedBinIndexMonotone` | examples/cpu/histogram.cpp:218 | the corrected index keeps the order of gray levels |
| `Histogram.ClampedBinsAgree` | examples/cpu/histogram.cpp:218 | without white pixels the corrected bins are the bins as written |
| `Histogram.Reds` | examples/cpu/histogram.cpp:216-217 | `bmp.ptr[offset*4]` for every offset below width · height, in pixel order: one red byte per pixel |
| `Histogram.Bins` | examples/cpu/histogram.cpp:218 | the index as written of every red byte, one per pixel |
| `Histogram.ClampedBins` | examples/cpu/histogram.cpp:218 | the corrected index of every red byte, one per pixel, each inside the histogram |
| `Histogram.PixelBins` | examples/cpu/histogram.cpp:216-218 | the bins of all pixels, as written or clamped; one per pixel, and all inside the histogram when clamped |
| `Histogram.Tally` | examples/cpu/histogram.cpp:214-221 | the counts after incrementing the bins of the first k pixels in order; as many counts as before |
| `Histogram.SumIncrement` | examples/cpu/histogram.cpp:219 | `hist_array[idx]++` raises the total of the counts by one |
| `Histogram.TallySum` | examples/cpu/histogram.cpp:214-221 | tallying k pixels raises the total of the counts by exactly k |
| `Histogram.TallyBin` | examples/cpu/histogram.cpp:214-221 | tallying raises each count by the number of tallied pixels whose bin it is |
| `Histogram.TallyTotals` | examples/cpu/histogram.cpp:214-221 | after all pixels, the total has grown by the pixel count and each count by the number of pixels in its bin |
| `Histogram.RedBin` | examples/cpu/histogram.cpp:216-218 | step lemma for the tally loop (it unfolds `PixelBins`): pixel o's bin is the index, as written or clamped, of the byte `ptr[offset*4]` |
| `Histogram.Count` | examples/cpu/histogram.cpp:219 | one increment turns the tally of k pixels into the tally of k + 1 |
| `Histogram.TallyRow` | examples/cpu/histogram.cpp:215-220 | the column loop of row y extends the tally to the end of row y, with the index as written or clamped |
| `Histogram.TallyPixels` | examples/cpu/histogram.cpp:214-221 | the tally loops leave the counts tallied over every pixel's bin, in pixel order; as written it needs every index inside the histogram, clamped it holds for every bitmap |
| `Histogram.AssignBinColours` | examples/cpu/histogram.cpp:223-227 | bin b's colour is the three draws at 3b, 3b + 1, 3b + 2, and all 3 · nbins entries are written |
| `Histogram.PopulateBins` | examples/cpu/histogram.cpp:212-228 | as written, with every index inside the histogram: the counts are the tally of all pixels, the total grows by width · height, each bin by the number of pixels in it, and the colours are the draws; the bitmap is only read |
| `Histogram.PopulateBinsClamped` | examples/cpu/histogram.cpp:212-228 | the same for every bitmap, with white counted in the last bin |

## Left out

- Single-precision rounding. Every `float` is an exact real. In
  particular, the bin index is the exact floor of v · nbins / 255. For
  NBINS = 256 this agrees with the float formula, because v · 256 / 255 is
  at least 1/255 away from an integer except at 0 and 255. For other bin
  counts, rounding near a bin boundary is not captured.
- `Histogram.BinIndex`: does not model the float-to-`int` conversion,
  which is undefined once `v/255.f * nbins` exceeds INT_MAX (bin counts
  above about 2^31).
- `Bitmaps.OffsetInBounds`: the offset is an unbounded integer. The
  source's `int offset` first goes negative at 2^31 pixels, and the `int`
  product `offset*4` at every byte access overflows, which is undefined
  behaviour, once the buffer exceeds 2^31 bytes. Neither is modelled.
- `Bitmaps.CreateBitmap`: the buffer has exactly `4 * w * h` bytes. The
  source computes this size in `unsigned` arithmetic, which wraps at 2^32
  bytes and then allocates too small a buffer; that wrap is not modelled.
- `Bitmaps.ByteIndexInBounds`: every write lands inside the buffer only
  because the model's buffer size does not wrap; with the source's wrapped
  `unsigned` size above 2^32 bytes the writes would run past it.
- `Histogram.PopulateBins`: the `int` counters are unbounded. Overflow
  after 2^31 increments of one bin is not modelled.
- `std::srand(std::time(0))` and `std::rand()`: the clock and the random
  generator are not modelled. The draws are parameters in the order they
  are consumed: the seed grid and the colour draws. The requirement that
  they lie in [0, 1] is stated as `InUnit(seed)`.
- `main`: the window, image, chart and histogram objects, the `fg::copy`
  calls and the frame loop belong to the rendering library and are not
  part of this model.
- `destroyBitmap`: freeing the buffer has no counterpart in Dafny's
  garbage-collected heap.
- The `factor` field of `PerlinNoise` is never read or written, so it is
  not modelled.
- `kernel` builds a fresh `PerlinNoise` on every call. The model passes the
  seed grid that this generator would draw. `Render.Kernel` states the
  result in terms of that grid.
- `PerlinNoise::noise` outside [0, 1): the source indexes out of range. The
  model requires 0 ≤ u, v < 1, which is every value `kernel` passes.

## Findings

| source | as written | input that shows it | evidently intended | confidence | as-written member | corrected member |
|---|---|---|---|---|---|---|
| examples/cpu/histogram.cpp:218-219 | `idx = (int)(v/255.f * nbins)` gives idx = nbins for a pixel whose red byte is 255, and `hist_array[idx]++` writes one element past the histogram | a seed grid of 1.0 everywhere: the field is 1.0 in every cell (`Perlin.FieldOfOnes`), every pixel's gray level is 255 (`Render.WhitePixel`), and every pixel then indexes `hist_array[256]` of the 256-element vector (`Histogram.BinsInRangeIffNoWhite`) | gray level 255 is counted in the last bin, so every pixel is counted and the total is width · height | not executed | `Histogram.BinIndexOfWhite` | `Histogram.PopulateBinsClamped` |
