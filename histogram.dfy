/** The demo's histogram pass: counts the pixels of the bitmap into bins
    by their red byte and assigns every bin a colour. */
module Histogram {

  import opened Bitmaps

  /** `(int)((float)v / 255.f * nbins)`: the bin of gray level v among
      nbins equal bins over [0, 255]. The quotient is non-negative, so the
      conversion's truncation is the floor. */
  function BinIndex(v: Byte, nbins: nat): (idx: nat)
    ensures idx <= nbins
    ensures nbins > 0 ==> (idx < nbins <==> v < 255)
  {
    var q := v as int * nbins;
    assert (255 - v as int) * nbins >= 0;
    assert v < 255 ==> (254 - v as int) * nbins >= 0;
    q / 255
  }

  /** A brighter pixel never lands in a lower bin. */
  lemma BinIndexMonotone(v: Byte, v': Byte, nbins: nat)
    requires v <= v'
    ensures BinIndex(v, nbins) <= BinIndex(v', nbins)
  {
    assert v as int * nbins <= v' as int * nbins;
  }

  /** The darkest pixel falls into the first bin. */
  lemma BinIndexOfBlack(nbins: nat)
    ensures BinIndex(0, nbins) == 0
  {
  }

  /** A white pixel lands one past the last bin: its index equals nbins,
      which `hist_array[idx]++` writes outside the array. */
  lemma BinIndexOfWhite(nbins: nat)
    ensures BinIndex(255, nbins) == nbins
  {
  }

  /** The bin of v with the white level clamped into the last bin: every
      other level keeps its bin. */
  function ClampedBinIndex(v: Byte, nbins: nat): (idx: nat)
    requires nbins > 0
    ensures idx < nbins
    ensures v < 255 ==> idx == BinIndex(v, nbins)
    ensures v == 255 ==> idx == nbins - 1
  {
    var i := BinIndex(v, nbins);
    if i < nbins then i else nbins - 1
  }

  /** The corrected index keeps the order of gray levels. */
  lemma ClampedBinIndexMonotone(v: Byte, v': Byte, nbins: nat)
    requires nbins > 0 && v <= v'
    ensures ClampedBinIndex(v, nbins) <= ClampedBinIndex(v', nbins)
  {
    BinIndexMonotone(v, v', nbins);
  }

  /** The red bytes of the first n pixels of an RGBA buffer, in pixel
      order. */
  function Reds(px: seq<Byte>, n: nat): (reds: seq<Byte>)
    requires Channels * n <= |px|
    ensures |reds| == n
  {
    seq(n, o requires 0 <= o < n => px[Channels * o])
  }

  /** The bin of every red byte, as written. */
  function Bins(reds: seq<Byte>, nbins: nat): (bins: seq<nat>)
    ensures |bins| == |reds|
  {
    seq(|reds|, o requires 0 <= o < |reds| => BinIndex(reds[o], nbins))
  }

  /** The bin of every red byte, with white clamped into the last bin. */
  function ClampedBins(reds: seq<Byte>, nbins: nat): (bins: seq<nat>)
    requires nbins > 0
    ensures |bins| == |reds|
    ensures InRange(bins, nbins)
  {
    seq(|reds|, o requires 0 <= o < |reds| => ClampedBinIndex(reds[o], nbins))
  }

  /** Every bin index names an element of the counts. */
  predicate InRange(bins: seq<nat>, n: nat) {
    forall o :: 0 <= o < |bins| ==> bins[o] < n
  }

  /** The as-written tally stays inside nbins > 0 bins exactly when no
      pixel's red byte is 255. */
  lemma BinsInRangeIffNoWhite(reds: seq<Byte>, nbins: nat)
    requires nbins > 0
    ensures InRange(Bins(reds, nbins), nbins) <==> forall o :: 0 <= o < |reds| ==> reds[o] < 255
  {
    if InRange(Bins(reds, nbins), nbins) {
      forall o | 0 <= o < |reds|
        ensures reds[o] < 255
      {
        assert Bins(reds, nbins)[o] < nbins;
      }
    }
  }

  /** Without white pixels the clamped bins are the bins as written. */
  lemma ClampedBinsAgree(reds: seq<Byte>, nbins: nat)
    requires nbins > 0 && forall o :: 0 <= o < |reds| ==> reds[o] < 255
    ensures ClampedBins(reds, nbins) == Bins(reds, nbins)
  {
  }

  /** The counts after `counts[b]++` for the bins b of the first k
      pixels, in order. */
  function Tally(counts: seq<int>, bins: seq<nat>, k: nat): (r: seq<int>)
    requires InRange(bins, |counts|) && k <= |bins|
    ensures |r| == |counts|
  {
    if k == 0 then counts
    else
      var before := Tally(counts, bins, k - 1);
      before[bins[k - 1] := before[bins[k - 1]] + 1]
  }

  /** The total of the counts. */
  function Sum(counts: seq<int>): int {
    if counts == [] then 0 else Sum(counts[..|counts| - 1]) + counts[|counts| - 1]
  }

  /** Incrementing one count raises the total by one. */
  lemma {:induction false} SumIncrement(counts: seq<int>, b: nat)
    requires b < |counts|
    ensures Sum(counts[b := counts[b] + 1]) == Sum(counts) + 1
  {
    var n := |counts| - 1;
    var c' := counts[b := counts[b] + 1];
    if b == n {
      assert c'[..n] == counts[..n];
    } else {
      assert c'[..n] == counts[..n][b := counts[b] + 1];
      SumIncrement(counts[..n], b);
    }
  }

  /** Tallying k pixels raises the total by exactly k. */
  lemma {:induction false} TallySum(counts: seq<int>, bins: seq<nat>, k: nat)
    requires InRange(bins, |counts|) && k <= |bins|
    ensures Sum(Tally(counts, bins, k)) == Sum(counts) + k
  {
    if k > 0 {
      TallySum(counts, bins, k - 1);
      SumIncrement(Tally(counts, bins, k - 1), bins[k - 1]);
    }
  }

  /** Tallying raises each count by the number of pixels among the first k
      whose bin it is. */
  lemma {:induction false} TallyBin(counts: seq<int>, bins: seq<nat>, k: nat, b: nat)
    requires InRange(bins, |counts|) && k <= |bins| && b < |counts|
    ensures Tally(counts, bins, k)[b] == counts[b] + multiset(bins[..k])[b]
  {
    if k > 0 {
      TallyBin(counts, bins, k - 1, b);
      assert bins[..k] == bins[..k - 1] + [bins[k - 1]];
    }
  }

  /** `populateBins` as written: counts every pixel into the bin of its
      red byte, then draws a colour for every bin. The source demands of
      its caller that every index it computes is inside the histogram,
      that is, no red byte is 255 (see BinIndex). */
  method PopulateBins(bmp: Bitmap, hist: array<int>, nbins: nat, cols: array<real>, draws: seq<real>)
    requires bmp.Valid() && hist.Length == nbins
    requires InRange(Bins(Reds(bmp.ptr[..], bmp.width * bmp.height), nbins), nbins)
    requires cols.Length == 3 * nbins && |draws| == 3 * nbins
    modifies hist, cols
    ensures var bins := Bins(Reds(bmp.ptr[..], bmp.width * bmp.height), nbins);
      hist[..] == Tally(old(hist[..]), bins, |bins|)
    ensures Sum(hist[..]) == Sum(old(hist[..])) + bmp.width * bmp.height
    ensures forall b :: 0 <= b < nbins ==>
      hist[b] == old(hist[b]) + multiset(Bins(Reds(bmp.ptr[..], bmp.width * bmp.height), nbins))[b]
    ensures cols[..] == draws
  {
    ghost var bins := Bins(Reds(bmp.ptr[..], bmp.width * bmp.height), nbins);
    ghost var counts := hist[..];
    TallyPixels(bmp, hist, nbins, false);
    TallyTotals(counts, bins);
    AssignBinColours(cols, nbins, draws);
  }

  /** `populateBins` with the white level clamped into the last bin:
      defined for every bitmap. */
  method PopulateBinsClamped(bmp: Bitmap, hist: array<int>, nbins: nat, cols: array<real>, draws: seq<real>)
    requires bmp.Valid() && hist.Length == nbins && nbins > 0
    requires cols.Length == 3 * nbins && |draws| == 3 * nbins
    modifies hist, cols
    ensures var bins := ClampedBins(Reds(bmp.ptr[..], bmp.width * bmp.height), nbins);
      hist[..] == Tally(old(hist[..]), bins, |bins|)
    ensures Sum(hist[..]) == Sum(old(hist[..])) + bmp.width * bmp.height
    ensures forall b :: 0 <= b < nbins ==>
      hist[b] == old(hist[b]) + multiset(ClampedBins(Reds(bmp.ptr[..], bmp.width * bmp.height), nbins))[b]
    ensures cols[..] == draws
  {
    ghost var bins := ClampedBins(Reds(bmp.ptr[..], bmp.width * bmp.height), nbins);
    ghost var counts := hist[..];
    TallyPixels(bmp, hist, nbins, true);
    TallyTotals(counts, bins);
    AssignBinColours(cols, nbins, draws);
  }

  /** After every pixel is tallied, the total has grown by the pixel count
      and every count by the number of pixels in its bin. */
  lemma TallyTotals(counts: seq<int>, bins: seq<nat>)
    requires InRange(bins, |counts|)
    ensures Sum(Tally(counts, bins, |bins|)) == Sum(counts) + |bins|
    ensures forall b :: 0 <= b < |counts| ==> Tally(counts, bins, |bins|)[b] == counts[b] + multiset(bins)[b]
  {
    TallySum(counts, bins, |bins|);
    forall b | 0 <= b < |counts|
      ensures Tally(counts, bins, |bins|)[b] == counts[b] + multiset(bins)[b]
    {
      TallyBin(counts, bins, |bins|, b);
      assert bins[..|bins|] == bins;
    }
  }

  /** The bin of every pixel's red byte: as written, or with white clamped
      into the last bin. */
  function PixelBins(px: seq<Byte>, n: nat, nbins: nat, clamped: bool): (bins: seq<nat>)
    requires Channels * n <= |px| && (clamped ==> nbins > 0)
    ensures |bins| == n
    ensures clamped ==> InRange(bins, nbins)
  {
    if clamped then ClampedBins(Reds(px, n), nbins) else Bins(Reds(px, n), nbins)
  }

  /** Pixel o's entry among the bins is the bin of its red byte. */
  lemma RedBin(px: seq<Byte>, n: nat, nbins: nat, clamped: bool, o: nat)
    requires Channels * n <= |px| && (clamped ==> nbins > 0) && o < n
    ensures Channels * o < |px|
    ensures PixelBins(px, n, nbins, clamped)[o]
      == if clamped then ClampedBinIndex(px[Channels * o], nbins) else BinIndex(px[Channels * o], nbins)
  {
  }

  /** The tally loop of `populateBins`, row by row; `clamped` selects the
      corrected bin index. */
  method TallyPixels(bmp: Bitmap, hist: array<int>, nbins: nat, clamped: bool)
    requires bmp.Valid() && hist.Length == nbins && (clamped ==> nbins > 0)
    requires InRange(PixelBins(bmp.ptr[..], bmp.width * bmp.height, nbins, clamped), nbins)
    modifies hist
    ensures var bins := PixelBins(bmp.ptr[..], bmp.width * bmp.height, nbins, clamped);
      hist[..] == Tally(old(hist[..]), bins, |bins|)
  {
    ghost var bins := PixelBins(bmp.ptr[..], bmp.width * bmp.height, nbins, clamped);
    ghost var counts := hist[..];
    var w, h := bmp.width, bmp.height;
    for y := 0 to h
      invariant Offset(0, y, w) <= |bins|
      invariant hist[..] == Tally(counts, bins, Offset(0, y, w))
    {
      RowEnd(y, w, h);
      TallyRow(bmp, hist, nbins, clamped, y, counts);
    }
    assert Offset(0, h, w) == w * h;
  }

  /** The inner `x` loop of the tally for row y. */
  method TallyRow(bmp: Bitmap, hist: array<int>, nbins: nat, clamped: bool, y: nat, ghost counts: seq<int>)
    requires bmp.Valid() && hist.Length == nbins && |counts| == nbins && y < bmp.height
    requires clamped ==> nbins > 0
    requires InRange(PixelBins(bmp.ptr[..], bmp.width * bmp.height, nbins, clamped), nbins)
    requires Offset(bmp.width, y, bmp.width) <= bmp.width * bmp.height
    requires hist[..] == Tally(counts, PixelBins(bmp.ptr[..], bmp.width * bmp.height, nbins, clamped), Offset(0, y, bmp.width))
    modifies hist
    ensures hist[..] == Tally(counts, PixelBins(bmp.ptr[..], bmp.width * bmp.height, nbins, clamped), Offset(bmp.width, y, bmp.width))
  {
    var w, h := bmp.width, bmp.height;
    ghost var bins := PixelBins(bmp.ptr[..], w * h, nbins, clamped);
    for x := 0 to w
      invariant hist[..] == Tally(counts, bins, Offset(x, y, w))
    {
      var offset := Offset(x, y, w);
      OffsetInBounds(x, y, w, h);
      RedBin(bmp.ptr[..], w * h, nbins, clamped, offset);
      var noiseVal := bmp.ptr[offset * Channels];
      var idx := if clamped then ClampedBinIndex(noiseVal, nbins) else BinIndex(noiseVal, nbins);
      Count(hist, counts, bins, offset, idx);
    }
  }

  /** `hist_array[idx]++` for the k-th pixel, whose bin is idx. */
  method Count(hist: array<int>, ghost counts: seq<int>, ghost bins: seq<nat>, k: nat, idx: nat)
    requires InRange(bins, |counts|) && k < |bins| && idx == bins[k]
    requires hist[..] == Tally(counts, bins, k)
    modifies hist
    ensures hist[..] == Tally(counts, bins, k + 1)
  {
    hist[idx] := hist[idx] + 1;
  }

  /** The colour loop: three `rand() / RAND_MAX` draws per bin, stored at
      3 * b, 3 * b + 1 and 3 * b + 2. */
  method AssignBinColours(cols: array<real>, nbins: nat, draws: seq<real>)
    requires cols.Length == 3 * nbins && |draws| == 3 * nbins
    modifies cols
    ensures cols[..] == draws
  {
    for b := 0 to nbins
      invariant cols[..3 * b] == draws[..3 * b]
    {
      cols[3 * b + 0] := draws[3 * b + 0];
      cols[3 * b + 1] := draws[3 * b + 1];
      cols[3 * b + 2] := draws[3 * b + 2];
    }
    assert cols[..] == cols[..3 * nbins];
  }
}
