/** The RGBA8 pixel buffer of the histogram demo and the arithmetic that
    locates a pixel's bytes inside it. */
module Bitmaps {

  import opened Arith

  /** An `unsigned char`. */
  newtype Byte = x: int | 0 <= x < 256

  /** Bytes per pixel: red, green, blue, alpha. */
  const Channels: nat := 4

  /** The channel of a pixel that holds its alpha byte, after red, green
      and blue. */
  const Alpha: nat := 3

  /** The caller-owned buffer: `ptr` holds `Channels * width * height` bytes,
      pixel after pixel, row after row. */
  datatype Bitmap = Bitmap(ptr: array<Byte>, width: nat, height: nat)
  {
    predicate Valid() {
      ptr.Length == Channels * width * height
    }
  }

  /** Allocates an uninitialised buffer for a `w` by `h` image. */
  method CreateBitmap(w: nat, h: nat) returns (bmp: Bitmap)
    ensures bmp.Valid() && fresh(bmp.ptr)
    ensures bmp.width == w && bmp.height == h
  {
    var ptr := new Byte[Channels * w * h];
    bmp := Bitmap(ptr, w, h);
  }

  /** Row-major position of pixel (x, y) in an image `w` pixels wide. */
  function Offset(x: nat, y: nat, w: nat): (o: nat)
    ensures x <= o
  {
    x + y * w
  }

  /** Position of channel `k` of pixel (x, y) in the byte buffer. */
  function ByteIndex(x: nat, y: nat, w: nat, k: nat): (i: nat)
    ensures k < Channels ==> Offset(x, y, w) * Channels <= i < (Offset(x, y, w) + 1) * Channels
  {
    Offset(x, y, w) * Channels + k
  }

  /** A pixel inside the image has an offset below the pixel count. */
  lemma OffsetInBounds(x: nat, y: nat, w: nat, h: nat)
    requires x < w && y < h
    ensures Offset(x, y, w) < w * h
  {
    assert y * w + w == (y + 1) * w;
    assert (y + 1) * w <= h * w;
  }

  /** Row y ends where row y + 1 begins, inside the image. */
  lemma RowEnd(y: nat, w: nat, h: nat)
    requires y < h
    ensures Offset(w, y, w) == Offset(0, y + 1, w) <= w * h
  {
    assert (h - y - 1) * w >= 0;
  }

  /** The offset of pixel (x, y) gives back x and y. */
  lemma OffsetEncode(x: nat, y: nat, w: nat)
    requires x < w
    ensures Offset(x, y, w) / w == y && Offset(x, y, w) % w == x
  {
    DivModUnique(Offset(x, y, w), w, y, x);
  }

  /** Every offset below the pixel count is the offset of exactly the pixel
      its quotient and remainder by the width name. */
  lemma OffsetDecode(o: nat, w: nat, h: nat)
    requires o < w * h
    ensures w > 0 && o % w < w && o / w < h
    ensures Offset(o % w, o / w, w) == o
  {
  }

  /** Every byte the pixel loops address lies inside the buffer that
      `CreateBitmap` allocates. */
  lemma ByteIndexInBounds(x: nat, y: nat, w: nat, h: nat, k: nat)
    requires x < w && y < h && k < Channels
    ensures ByteIndex(x, y, w, k) < Channels * w * h
  {
    OffsetInBounds(x, y, w, h);
  }

  /** Every byte of the buffer is addressed by some pixel and channel. */
  lemma ByteIndexCovers(i: nat, w: nat, h: nat)
    requires i < Channels * w * h
    ensures w > 0 && (i / Channels) % w < w && (i / Channels) / w < h
    ensures ByteIndex((i / Channels) % w, (i / Channels) / w, w, i % Channels) == i
  {
    OffsetDecode(i / Channels, w, h);
  }

  /** No two (pixel, channel) pairs address the same byte, so a pass over
      all pixels and channels writes each byte exactly once. */
  lemma ByteIndexInjective(x: nat, y: nat, k: nat, x': nat, y': nat, k': nat, w: nat)
    requires x < w && x' < w && k < Channels && k' < Channels
    requires ByteIndex(x, y, w, k) == ByteIndex(x', y', w, k')
    ensures x == x' && y == y' && k == k'
  {
    var o, o' := Offset(x, y, w), Offset(x', y', w);
    assert o == o';
    OffsetEncode(x, y, w);
    OffsetEncode(x', y', w);
  }
}
