/** The colour analysis: running totals over the sampled pixels, and the
    averages obtained by dividing them. */
module ColorSampler {
  import opened Pixels

  /** The five running sums of the sampling loop, as exact reals. The
      channel sums are integers and exact as JavaScript numbers too; the
      brightness terms (sums of thirds) and every quotient are rounded
      there, and the model ignores that rounding. */
  datatype Totals = Totals(r: real, g: real, b: real, brightness: real, saturation: real)

  /** The five averages the analysis reports, each conceptually in [0, 255]. */
  datatype ColorStats = ColorStats(avgR: real, avgG: real, avgB: real, brightness: real, saturation: real)

  /** Why an analysis produced no statistics. */
  datatype SampleError = EmptyBuffer

  datatype Result<T> = Ok(value: T) | Err(error: SampleError)

  const NoTotals := Totals(0.0, 0.0, 0.0, 0.0, 0.0)

  /** What one pixel adds to the five sums. */
  function Contribution(p: Pixel): Totals {
    Totals(p.r as real, p.g as real, p.b as real, Brightness(p), Saturation(p) as real)
  }

  function Plus(t: Totals, u: Totals): Totals {
    Totals(t.r + u.r, t.g + u.g, t.b + u.b, t.brightness + u.brightness, t.saturation + u.saturation)
  }

  /** One iteration of the sampling loop: add a pixel's channels, brightness
      and saturation to the running sums. */
  function Add(t: Totals, p: Pixel): Totals {
    Plus(t, Contribution(p))
  }

  /** Every one of the five sums lies between 0 and 255 times `n`. */
  predicate Bounded(t: Totals, n: real) {
    && 0.0 <= t.r <= 255.0 * n
    && 0.0 <= t.g <= 255.0 * n
    && 0.0 <= t.b <= 255.0 * n
    && 0.0 <= t.brightness <= 255.0 * n
    && 0.0 <= t.saturation <= 255.0 * n
  }

  /** The totals after the loop has visited the pixels `ps` in order. */
  function Accumulate(ps: seq<Pixel>): (t: Totals)
    ensures Bounded(t, |ps| as real)
    decreases |ps|
  {
    if |ps| == 0 then NoTotals
    else Add(Accumulate(ps[..|ps| - 1]), ps[|ps| - 1])
  }

  /** Every sum divided by the same divisor. */
  function Average(t: Totals, divisor: real): ColorStats
    requires divisor > 0.0
  {
    ColorStats(t.r / divisor, t.g / divisor, t.b / divisor, t.brightness / divisor, t.saturation / divisor)
  }

  /** All five statistics lie in the range of a byte. */
  predicate InRange(s: ColorStats) {
    && 0.0 <= s.avgR <= 255.0
    && 0.0 <= s.avgG <= 255.0
    && 0.0 <= s.avgB <= 255.0
    && 0.0 <= s.brightness <= 255.0
    && 0.0 <= s.saturation <= 255.0
  }

  /** A sum of `n` values from [0, 255], divided by `n`, stays in [0, 255]. */
  lemma MeanInRange(total: real, n: real)
    requires n > 0.0 && 0.0 <= total <= 255.0 * n
    ensures 0.0 <= total / n <= 255.0
  {
    assert total / n * n == total;
  }

  /** Dividing the totals of `n` pixels by `n` gives statistics in range. */
  lemma AverageInRange(ps: seq<Pixel>)
    requires |ps| > 0
    ensures InRange(Average(Accumulate(ps), |ps| as real))
  {
    var t, n := Accumulate(ps), |ps| as real;
    MeanInRange(t.r, n);
    MeanInRange(t.g, n);
    MeanInRange(t.b, n);
    MeanInRange(t.brightness, n);
    MeanInRange(t.saturation, n);
  }

  /** The divisor the analysis uses: the buffer length over 40, a real
      number that is the visited-pixel count when 40 divides the length and
      strictly undercounts it otherwise. */
  function WrittenDivisor(len: nat): (d: real)
    ensures len % 40 == 0 ==> d == SampleCount(len) as real
    ensures len % 40 != 0 ==> d < SampleCount(len) as real
    ensures len > 0 ==> 0.0 < d <= SampleCount(len) as real
  {
    len as real / 40.0
  }

  /** The colour analysis as written: totals of the sampled pixels, each
      divided by the buffer length over 40. An empty buffer has no statistics. */
  function AnalyzeColors(data: seq<Byte>): (res: Result<ColorStats>)
    requires WholePixels(data)
    ensures res.Err? <==> |data| == 0
  {
    if |data| == 0 then Err(EmptyBuffer)
    else Ok(Average(Accumulate(SampledPixels(data)), WrittenDivisor(|data|)))
  }

  /** The colour analysis with the sums divided by the number of pixels the
      loop actually visited. */
  function AnalyzeColorsCorrected(data: seq<Byte>): (res: Result<ColorStats>)
    requires WholePixels(data)
    ensures res.Err? <==> |data| == 0
  {
    if |data| == 0 then Err(EmptyBuffer)
    else Ok(Average(Accumulate(SampledPixels(data)), SampleCount(|data|) as real))
  }

  /** When 40 divides the buffer length, the written divisor is the number of
      visited pixels, so every statistic lies in [0, 255]. */
  lemma WrittenInRangeOnStrideMultiples(data: seq<Byte>)
    requires WholePixels(data) && |data| > 0 && |data| % 40 == 0
    ensures AnalyzeColors(data).Ok? && InRange(AnalyzeColors(data).value)
  {
    WrittenAverages(data);
    AverageInRange(SampledPixels(data));
  }

  /** The corrected statistics lie in [0, 255] for every non-empty buffer. */
  lemma CorrectedInRange(data: seq<Byte>)
    requires WholePixels(data) && |data| > 0
    ensures AnalyzeColorsCorrected(data).Ok? && InRange(AnalyzeColorsCorrected(data).value)
  {
    CorrectedAverages(data);
    AverageInRange(SampledPixels(data));
  }

  /** The sampling loop itself: one pass over the buffer with a 40-byte step,
      summing as it goes, then one division per sum. */
  method AnalyzeImageColors(data: seq<Byte>) returns (res: Result<ColorStats>)
    requires WholePixels(data)
    ensures res == AnalyzeColors(data)
  {
    var totals := NoTotals;
    var i := 0;
    ghost var ps := SampledPixels(data);
    while i < |data|
      invariant i % 40 == 0
      invariant i / 40 <= |ps|
      invariant totals == Accumulate(ps[..i / 40])
    {
      var k := i / 40;
      assert k < |ps| by {
        assert 40 * k == i;
      }
      assert ps[..k + 1][..k] == ps[..k];
      totals := Add(totals, PixelAt(data, i));
      i := i + 40;
    }
    assert ps[..i / 40] == ps;
    if |data| == 0 {
      res := Err(EmptyBuffer);
    } else {
      res := Ok(Average(totals, WrittenDivisor(|data|)));
    }
  }

  /** The written analysis and the corrected one agree whenever the buffer
      length is a multiple of 40. */
  lemma CorrectedAgreesOnStrideMultiples(data: seq<Byte>)
    requires WholePixels(data) && |data| % 40 == 0
    ensures AnalyzeColors(data) == AnalyzeColorsCorrected(data)
  {
  }

  /** Each of the five sums multiplied by `n`. */
  function Scale(t: Totals, n: real): Totals {
    Totals(n * t.r, n * t.g, n * t.b, n * t.brightness, n * t.saturation)
  }

  /** The statistics of an image made of the single colour `p`. */
  function PixelStats(p: Pixel): ColorStats {
    var c := Contribution(p);
    ColorStats(c.r, c.g, c.b, c.brightness, c.saturation)
  }

  /** Adding one more copy of `c` to `n - 1` copies gives `n` copies. */
  lemma ScaleSucc(c: Totals, n: nat)
    requires n > 0
    ensures Plus(Scale(c, (n - 1) as real), c) == Scale(c, n as real)
  {
    var m := n as real;
    assert (m - 1.0) * c.r + c.r == m * c.r;
    assert (m - 1.0) * c.g + c.g == m * c.g;
    assert (m - 1.0) * c.b + c.b == m * c.b;
    assert (m - 1.0) * c.brightness + c.brightness == m * c.brightness;
    assert (m - 1.0) * c.saturation + c.saturation == m * c.saturation;
  }

  /** Summing `n` copies of one pixel gives `n` times its contribution. */
  lemma {:induction false} AccumulateUniform(ps: seq<Pixel>, p: Pixel)
    requires forall k :: 0 <= k < |ps| ==> ps[k] == p
    ensures Accumulate(ps) == Scale(Contribution(p), |ps| as real)
    decreases |ps|
  {
    var n := |ps|;
    if n == 0 {
      assert Scale(Contribution(p), 0.0) == NoTotals;
    } else {
      AccumulateUniform(ps[..n - 1], p);
      ScaleSucc(Contribution(p), n);
    }
  }

  /** Averaging `n` copies of one contribution over `n` gives it back. */
  lemma AverageScaled(c: Totals, n: real)
    requires n > 0.0
    ensures Average(Scale(c, n), n) == ColorStats(c.r, c.g, c.b, c.brightness, c.saturation)
  {
    assert n * c.r / n == c.r;
    assert n * c.g / n == c.g;
    assert n * c.b / n == c.b;
    assert n * c.brightness / n == c.brightness;
    assert n * c.saturation / n == c.saturation;
  }

  /** When every sampled pixel has the colour `p`, the corrected statistics
      are exactly those of `p`, and so are the written ones when 40 divides
      the buffer length. */
  lemma UniformSamples(data: seq<Byte>, p: Pixel)
    requires WholePixels(data) && |data| > 0 && SamplesAre(data, p)
    ensures AnalyzeColorsCorrected(data) == Ok(PixelStats(p))
    ensures |data| % 40 == 0 ==> AnalyzeColors(data) == Ok(PixelStats(p))
  {
    var ps := SampledPixels(data);
    AccumulateUniform(ps, p);
    AverageScaled(Contribution(p), |ps| as real);
  }

  /** For a non-empty buffer, the written statistics are the sampled totals
      over the written divisor. */
  lemma WrittenAverages(data: seq<Byte>)
    requires WholePixels(data) && |data| > 0
    ensures AnalyzeColors(data) == Ok(Average(Accumulate(SampledPixels(data)), WrittenDivisor(|data|)))
  {
  }

  /** For a non-empty buffer, the corrected statistics are the sampled totals
      over the number of sampled pixels. */
  lemma CorrectedAverages(data: seq<Byte>)
    requires WholePixels(data) && |data| > 0
    ensures AnalyzeColorsCorrected(data) == Ok(Average(Accumulate(SampledPixels(data)), SampleCount(|data|) as real))
  {
  }

  /** Zero sums average to zero over any divisor. */
  lemma AverageOfNothing(d: real)
    requires d > 0.0
    ensures Average(NoTotals, d) == ColorStats(0.0, 0.0, 0.0, 0.0, 0.0)
  {
  }

  /** In an all-zero buffer every sampled pixel is black. */
  lemma ZeroBufferSamplesBlack(data: seq<Byte>)
    requires WholePixels(data)
    requires forall i :: 0 <= i < |data| ==> data[i] == 0
    ensures SamplesAre(data, Pixel(0, 0, 0))
  {
    var ps := SampledPixels(data);
    forall k | 0 <= k < |ps| ensures ps[k] == Pixel(0, 0, 0) {
      assert ps[k] == PixelAt(data, 40 * k);
    }
  }

  lemma BlackContributesNothing()
    ensures Contribution(Pixel(0, 0, 0)) == NoTotals
  {
  }

  lemma ScaleOfNothing(n: real)
    ensures Scale(NoTotals, n) == NoTotals
  {
  }

  /** Black pixels add nothing to any sum. */
  lemma AccumulateBlack(ps: seq<Pixel>)
    requires forall k :: 0 <= k < |ps| ==> ps[k] == Pixel(0, 0, 0)
    ensures Accumulate(ps) == NoTotals
  {
    AccumulateUniform(ps, Pixel(0, 0, 0));
    BlackContributesNothing();
    ScaleOfNothing(|ps| as real);
  }

  /** An all-zero buffer of any non-zero length has all-zero statistics,
      with the written divisor as well as with the corrected one. */
  lemma ZeroBufferHasZeroStats(data: seq<Byte>)
    requires WholePixels(data) && |data| > 0
    requires forall i :: 0 <= i < |data| ==> data[i] == 0
    ensures AnalyzeColors(data) == Ok(ColorStats(0.0, 0.0, 0.0, 0.0, 0.0))
    ensures AnalyzeColorsCorrected(data) == Ok(ColorStats(0.0, 0.0, 0.0, 0.0, 0.0))
  {
    assert Accumulate(SampledPixels(data)) == NoTotals by {
      ZeroBufferSamplesBlack(data);
      AccumulateBlack(SampledPixels(data));
    }
    WrittenAverages(data);
    AverageOfNothing(WrittenDivisor(|data|));
    CorrectedAverages(data);
    AverageOfNothing(SampleCount(|data|) as real);
  }

  /** A buffer whose sampled pixels are all white, with a length that 40
      divides, has averages of 255, brightness 255 and saturation 0. */
  lemma WhiteSamplesHaveFullStats(data: seq<Byte>)
    requires WholePixels(data) && |data| > 0 && |data| % 40 == 0
    requires SamplesAre(data, Pixel(255, 255, 255))
    ensures AnalyzeColors(data) == Ok(ColorStats(255.0, 255.0, 255.0, 255.0, 0.0))
  {
    UniformSamples(data, Pixel(255, 255, 255));
  }

  /** The sampled pixels, and hence every statistic, depend only on the
      red, green and blue bytes of the sampled pixels: bytes at offsets
      40k, 40k + 1 and 40k + 2. */
  lemma OnlySampledBytesMatter(data: seq<Byte>, data': seq<Byte>)
    requires WholePixels(data) && |data'| == |data|
    requires forall i :: 0 <= i < |data| && i % 40 < 3 ==> data[i] == data'[i]
    ensures SampledPixels(data) == SampledPixels(data')
    ensures AnalyzeColors(data) == AnalyzeColors(data')
    ensures AnalyzeColorsCorrected(data) == AnalyzeColorsCorrected(data')
  {
    var ps, qs := SampledPixels(data), SampledPixels(data');
    forall k | 0 <= k < |ps| ensures ps[k] == qs[k] {
      var i := 40 * k;
      assert i % 40 == 0 && (i + 1) % 40 == 1 && (i + 2) % 40 == 2;
    }
    assert ps == qs;
  }

  /** A byte the sampler reads is a red, green or blue byte, never alpha. */
  lemma SampledChannelIsNotAlpha(i: nat)
    requires i % 40 < 3
    ensures i % 4 != 3
  {
    var q, s := i / 40, i % 40;
    var a, t := i / 4, i % 4;
    assert 4 * a + t == 40 * q + s;
    assert 4 * (10 * q - a) == t - s;
    assert 10 * q - a == 0;
  }

  /** The alpha byte of a pixel is never read: buffers that differ only in
      alpha have the same statistics. */
  lemma AlphaNeverRead(data: seq<Byte>, data': seq<Byte>)
    requires WholePixels(data) && |data'| == |data|
    requires forall i :: 0 <= i < |data| && i % 4 != 3 ==> data[i] == data'[i]
    ensures AnalyzeColors(data) == AnalyzeColors(data')
    ensures AnalyzeColorsCorrected(data) == AnalyzeColorsCorrected(data')
  {
    forall i | 0 <= i < |data| && i % 40 < 3 ensures data[i] == data'[i] {
      SampledChannelIsNotAlpha(i);
    }
    OnlySampledBytesMatter(data, data');
  }

  /** A 1x1 white image: four bytes, one pixel. */
  const WhitePixelImage: seq<Byte> := [255, 255, 255, 255]

  /** The white image is one pixel read, with white's sums. */
  lemma WhitePixelTotals()
    ensures SampleCount(|WhitePixelImage|) == 1
    ensures Accumulate(SampledPixels(WhitePixelImage)) == Totals(255.0, 255.0, 255.0, 255.0, 0.0)
  {
    var white := Pixel(255, 255, 255);
    var ps := SampledPixels(WhitePixelImage);
    assert ps == [white];
    assert Contribution(white) == Totals(255.0, 255.0, 255.0, 255.0, 0.0);
    AccumulateUniform(ps, white);
  }

  /** On a 1x1 white image the loop visits one pixel, but the written divisor
      is 4 / 40, so every average comes out ten times too large. */
  lemma WrittenDivisorLeavesRange()
    ensures AnalyzeColors(WhitePixelImage).Ok?
    ensures AnalyzeColors(WhitePixelImage).value.avgR == 2550.0
    ensures !InRange(AnalyzeColors(WhitePixelImage).value)
    ensures AnalyzeColorsCorrected(WhitePixelImage) == Ok(ColorStats(255.0, 255.0, 255.0, 255.0, 0.0))
  {
    var t := Totals(255.0, 255.0, 255.0, 255.0, 0.0);
    WhitePixelTotals();
    WrittenAverages(WhitePixelImage);
    CorrectedAverages(WhitePixelImage);
    assert WrittenDivisor(4) == 0.1;
    assert Average(t, 0.1).avgR == 2550.0;
    assert Average(t, 1.0) == ColorStats(255.0, 255.0, 255.0, 255.0, 0.0);
  }
}
