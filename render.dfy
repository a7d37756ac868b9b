/** The demo's image kernel: every pixel of the bitmap becomes a gray level
    sampled from a freshly built noise field, stored as opaque RGBA. */
module Render {

  import opened Arith
  import opened Bitmaps
  import opened Perlin

  /** The alpha byte of every pixel: fully opaque. */
  const Opaque: Byte := 255

  /** `unsigned char noiseVal = 255 * n`: the conversion truncates toward
      zero, so a value in [0, 1] gives the gray level below 255 * n, and
      only n = 1 gives 255. */
  function GrayLevel(n: real): (g: Byte)
    requires 0.0 <= n <= 1.0
    ensures g as real <= 255.0 * n < g as real + 1.0
    ensures g == 255 <==> n == 1.0
  {
    var s := 255.0 * n;
    assert s.Floor <= 255;
    s.Floor as Byte
  }

  /** The gray level of pixel (x, y) of a `w` by `h` image: the field of
      `seed` sampled at the normalised coordinates (x / w, y / h). */
  function PixelGray(seed: seq<seq<real>>, w: nat, h: nat, x: nat, y: nat): (g: Byte)
    requires IsGrid(seed) && InUnit(seed) && x < w && y < h
    ensures g == 255 <==> Field(seed, SampleIndex(x as real / w as real, IMGW), SampleIndex(y as real / h as real, IMGH)) == 1.0
  {
    var u := x as real / w as real;
    var v := y as real / h as real;
    GrayLevel(Field(seed, SampleIndex(u, IMGW), SampleIndex(v, IMGH)))
  }

  /** The byte the kernel leaves at position i of the buffer of a `w` by `h`
      image: the gray level in the red, green and blue bytes of each pixel
      and 255 in its alpha byte. */
  function KernelByte(seed: seq<seq<real>>, w: nat, h: nat, i: nat): Byte
    requires IsGrid(seed) && InUnit(seed) && i < Channels * w * h
  {
    ByteIndexCovers(i, w, h);
    if i % Channels == Alpha then Opaque else PixelGray(seed, w, h, (i / Channels) % w, (i / Channels) / w)
  }

  /** Read pixel by pixel: channel k of pixel (x, y) is the pixel's gray
      level for the colour channels and 255 for the alpha channel. */
  lemma KernelPixel(seed: seq<seq<real>>, w: nat, h: nat, x: nat, y: nat, k: nat)
    requires IsGrid(seed) && InUnit(seed) && x < w && y < h && k < Channels
    ensures ByteIndex(x, y, w, k) < Channels * w * h
    ensures KernelByte(seed, w, h, ByteIndex(x, y, w, k)) == if k == Alpha then Opaque else PixelGray(seed, w, h, x, y)
  {
    ByteIndexInBounds(x, y, w, h, k);
    var i := ByteIndex(x, y, w, k);
    DivModUnique(i, Channels, Offset(x, y, w), k);
    OffsetEncode(x, y, w);
  }

  /** The four bytes of pixel (x, y) lie inside the buffer, one after the
      other, and hold the pixel's gray level three times and then 255. */
  lemma PixelBytes(seed: seq<seq<real>>, w: nat, h: nat, x: nat, y: nat)
    requires IsGrid(seed) && InUnit(seed) && x < w && y < h
    ensures var o := Offset(x, y, w);
      && o * Channels + Channels <= Channels * w * h
      && KernelByte(seed, w, h, o * Channels + 0) == PixelGray(seed, w, h, x, y)
      && KernelByte(seed, w, h, o * Channels + 1) == PixelGray(seed, w, h, x, y)
      && KernelByte(seed, w, h, o * Channels + 2) == PixelGray(seed, w, h, x, y)
      && KernelByte(seed, w, h, o * Channels + Alpha) == Opaque
  {
    KernelPixel(seed, w, h, x, y, 0);
    KernelPixel(seed, w, h, x, y, 1);
    KernelPixel(seed, w, h, x, y, 2);
    KernelPixel(seed, w, h, x, y, Alpha);
  }

  /** The gray level is the same in the red, green and blue bytes. */
  lemma KernelGrayChannels(seed: seq<seq<real>>, w: nat, h: nat, x: nat, y: nat)
    requires IsGrid(seed) && InUnit(seed) && x < w && y < h
    ensures ByteIndex(x, y, w, 2) < Channels * w * h
    ensures KernelByte(seed, w, h, ByteIndex(x, y, w, 0)) == KernelByte(seed, w, h, ByteIndex(x, y, w, 1))
    ensures KernelByte(seed, w, h, ByteIndex(x, y, w, 1)) == KernelByte(seed, w, h, ByteIndex(x, y, w, 2))
  {
    KernelPixel(seed, w, h, x, y, 0);
    KernelPixel(seed, w, h, x, y, 1);
    KernelPixel(seed, w, h, x, y, 2);
  }

  /** A pixel is white exactly where the field is 1.0; a seed grid of 1.0
      everywhere gives such a pixel, so the red byte can be 255. */
  lemma WhitePixel(seed: seq<seq<real>>, w: nat, h: nat, x: nat, y: nat)
    requires IsGrid(seed) && x < w && y < h
    requires forall i', j' :: 0 <= i' < IMGW && 0 <= j' < IMGH ==> seed[i'][j'] == 1.0
    ensures InUnit(seed) && PixelGray(seed, w, h, x, y) == 255
  {
    var u := x as real / w as real;
    var v := y as real / h as real;
    FieldOfOnes(seed, SampleIndex(u, IMGW), SampleIndex(v, IMGH));
  }

  /** `kernel`: builds the noise generator from `seed` and fills the bitmap
      row by row; afterwards every byte of the buffer holds its kernel
      value. */
  method Kernel(bmp: Bitmap, seed: seq<seq<real>>)
    requires bmp.Valid() && IsGrid(seed) && InUnit(seed)
    modifies bmp.ptr
    ensures forall i :: 0 <= i < bmp.ptr.Length ==> bmp.ptr[i] == KernelByte(seed, bmp.width, bmp.height, i)
  {
    var perlin := new PerlinNoise(seed);
    FillPixels(bmp, perlin);
  }

  /** The first n bytes of `ptr` hold their kernel values. */
  ghost predicate Filled(ptr: array<Byte>, seed: seq<seq<real>>, w: nat, h: nat, n: nat)
    reads ptr
    requires IsGrid(seed) && InUnit(seed)
  {
    && ptr.Length == Channels * w * h
    && n <= ptr.Length
    && forall i :: 0 <= i < n ==> ptr[i] == KernelByte(seed, w, h, i)
  }

  /** The kernel's pixel loops, with the noise generator already built. */
  method FillPixels(bmp: Bitmap, perlin: PerlinNoise)
    requires bmp.Valid() && perlin.Valid() && InUnit(perlin.Seed)
    modifies bmp.ptr
    ensures forall i :: 0 <= i < bmp.ptr.Length ==> bmp.ptr[i] == KernelByte(perlin.Seed, bmp.width, bmp.height, i)
  {
    var w, h := bmp.width, bmp.height;
    for y := 0 to h
      invariant Filled(bmp.ptr, perlin.Seed, w, h, Channels * Offset(0, y, w))
    {
      FillRow(bmp, perlin, y);
      assert Offset(w, y, w) == Offset(0, y + 1, w);
    }
    assert Offset(0, h, w) == w * h;
  }

  /** The inner `x` loop of the kernel for row y: writes the four bytes of
      every pixel of the row, after the rows already written, and leaves the
      bytes of the later rows as they were. */
  method FillRow(bmp: Bitmap, perlin: PerlinNoise, y: nat)
    requires bmp.Valid() && perlin.Valid() && InUnit(perlin.Seed) && y < bmp.height
    requires Filled(bmp.ptr, perlin.Seed, bmp.width, bmp.height, Channels * Offset(0, y, bmp.width))
    modifies bmp.ptr
    ensures Filled(bmp.ptr, perlin.Seed, bmp.width, bmp.height, Channels * Offset(bmp.width, y, bmp.width))
    ensures forall i :: Channels * Offset(bmp.width, y, bmp.width) <= i < bmp.ptr.Length ==> bmp.ptr[i] == old(bmp.ptr[i])
  {
    var w, h := bmp.width, bmp.height;
    ghost var seed := perlin.Seed;
    for x := 0 to w
      invariant Filled(bmp.ptr, seed, w, h, Channels * Offset(x, y, w))
      invariant forall i :: Channels * Offset(x, y, w) <= i < bmp.ptr.Length ==> bmp.ptr[i] == old(bmp.ptr[i])
    {
      var offset := Offset(x, y, w);
      var u := x as real / w as real;
      var v := y as real / h as real;
      SampleIndexOfPixel(x, w);
      SampleIndexOfPixel(y, h);
      var noiseVal := GrayLevel(perlin.Noise(u, v));
      assert noiseVal == PixelGray(seed, w, h, x, y);
      PixelBytes(seed, w, h, x, y);
      WritePixel(bmp.ptr, seed, w, h, offset, noiseVal);
    }
  }

  /** The four writes of one pixel: gray level in red, green and blue, 255
      in alpha, right after the bytes already filled; no later byte changes. */
  method WritePixel(ptr: array<Byte>, ghost seed: seq<seq<real>>, w: nat, h: nat, offset: nat, noiseVal: Byte)
    requires IsGrid(seed) && InUnit(seed)
    requires Filled(ptr, seed, w, h, offset * Channels) && offset * Channels + Channels <= ptr.Length
    requires KernelByte(seed, w, h, offset * Channels + 0) == noiseVal
    requires KernelByte(seed, w, h, offset * Channels + 1) == noiseVal
    requires KernelByte(seed, w, h, offset * Channels + 2) == noiseVal
    requires KernelByte(seed, w, h, offset * Channels + Alpha) == Opaque
    modifies ptr
    ensures Filled(ptr, seed, w, h, offset * Channels + Channels)
    ensures forall i :: offset * Channels + Channels <= i < ptr.Length ==> ptr[i] == old(ptr[i])
  {
    ptr[offset * Channels + 0] := noiseVal;
    ptr[offset * Channels + 1] := noiseVal;
    ptr[offset * Channels + 2] := noiseVal;
    ptr[offset * Channels + Alpha] := Opaque;
  }
}
