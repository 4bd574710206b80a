/** The analysis pipeline run when the user asks for a recommendation:
    colour statistics of the decoded pixels, then the vibe, then a song,
    both as written and over the corrected statistics. The random number
    the picker draws is a parameter. */
module Pipeline {
  import opened Pixels
  import opened ColorSampler
  import opened Vibes
  import opened Songs

  datatype Recommendation = Recommendation(vibe: Vibe, song: Song)

  /** The vibe of the statistics and a song for it; no statistics, no
      recommendation. */
  function Recommend(analysis: Result<ColorStats>, r: real): (res: Result<Recommendation>)
    requires 0.0 <= r < 1.0
    ensures res.Err? <==> analysis.Err?
    ensures res.Ok? ==> res.value.vibe == DetermineVibe(analysis.value)
    ensures res.Ok? ==> res.value.vibe.mood in SongDatabase
    ensures res.Ok? ==> res.value.song in SongDatabase[res.value.vibe.mood]
    ensures res.Ok? ==> res.value.song == GetSongRecommendation(res.value.vibe, r)
  {
    match analysis
    case Err(e) => Err(e)
    case Ok(stats) =>
      var vibe := DetermineVibe(stats);
      ClassifiedMoodHasOwnList(vibe, r);
      Ok(Recommendation(vibe, GetSongRecommendation(vibe, r)))
  }

  /** The chain as the image-load handler runs it: the statistics as written
      (divided by length / 40), then the vibe, then a song. An empty buffer
      has no statistics. */
  function AnalyzeImage(data: seq<Byte>, r: real): (res: Result<Recommendation>)
    requires WholePixels(data) && 0.0 <= r < 1.0
    ensures res.Err? <==> |data| == 0
    ensures res.Ok? ==> res.value.vibe == DetermineVibe(AnalyzeColors(data).value)
    ensures res.Ok? ==> res.value.vibe in AllVibes
    ensures res.Ok? ==> res.value.song in SongDatabase[res.value.vibe.mood]
    ensures res.Ok? ==> res.value.song == GetSongRecommendation(res.value.vibe, r)
  {
    Recommend(AnalyzeColors(data), r)
  }

  /** The same chain over the corrected statistics, which divide by the
      number of pixels read. */
  function AnalyzeImageCorrected(data: seq<Byte>, r: real): (res: Result<Recommendation>)
    requires WholePixels(data) && 0.0 <= r < 1.0
    ensures res.Err? <==> |data| == 0
    ensures res.Ok? ==> res.value.vibe == DetermineVibe(AnalyzeColorsCorrected(data).value)
    ensures res.Ok? ==> res.value.vibe in AllVibes
    ensures res.Ok? ==> res.value.song in SongDatabase[res.value.vibe.mood]
    ensures res.Ok? ==> res.value.song == GetSongRecommendation(res.value.vibe, r)
  {
    Recommend(AnalyzeColorsCorrected(data), r)
  }

  /** The two chains give the same recommendation whenever 40 divides the
      buffer length. */
  lemma ChainsAgreeOnStrideMultiples(data: seq<Byte>, r: real)
    requires WholePixels(data) && |data| % 40 == 0 && 0.0 <= r < 1.0
    ensures AnalyzeImage(data, r) == AnalyzeImageCorrected(data, r)
  {
    CorrectedAgreesOnStrideMultiples(data);
  }

  /** An image whose sampled pixels are all pure red is dark by the brightness
      rule (brightness 85) before its red dominance is considered: always in
      the corrected chain, and in the chain as written when 40 divides the
      length. */
  lemma RedImageIsMoody(data: seq<Byte>, r: real)
    requires WholePixels(data) && |data| > 0 && SamplesAre(data, Pixel(255, 0, 0))
    requires 0.0 <= r < 1.0
    ensures AnalyzeColorsCorrected(data) == Ok(ColorStats(255.0, 0.0, 0.0, 85.0, 255.0))
    ensures AnalyzeImageCorrected(data, r).Ok?
    ensures AnalyzeImageCorrected(data, r).value.vibe == MoodyDark
    ensures AnalyzeImageCorrected(data, r).value.song in SongDatabase["chill"]
    ensures |data| % 40 == 0 ==> AnalyzeImage(data, r) == AnalyzeImageCorrected(data, r)
  {
    UniformSamples(data, Pixel(255, 0, 0));
    assert PixelStats(Pixel(255, 0, 0)).brightness == 85.0;
    if |data| % 40 == 0 {
      ChainsAgreeOnStrideMultiples(data, r);
    }
  }

  /** A 1x1 pure red image. */
  const RedPixelImage: seq<Byte> := [255, 0, 0, 255]

  /** The red image is one pixel read, with red's sums. */
  lemma RedPixelTotals()
    ensures SampleCount(|RedPixelImage|) == 1
    ensures Accumulate(SampledPixels(RedPixelImage)) == Totals(255.0, 0.0, 0.0, 85.0, 255.0)
  {
    var p := Pixel(255, 0, 0);
    var ps := SampledPixels(RedPixelImage);
    assert ps == [p];
    assert Contribution(p) == Totals(255.0, 0.0, 0.0, 85.0, 255.0);
    AccumulateUniform(ps, p);
  }

  /** The statistics of the red image: divided by 4 / 40 as written, by 1
      when corrected. */
  lemma RedPixelStats()
    ensures AnalyzeColors(RedPixelImage) == Ok(ColorStats(2550.0, 0.0, 0.0, 850.0, 2550.0))
    ensures AnalyzeColorsCorrected(RedPixelImage) == Ok(ColorStats(255.0, 0.0, 0.0, 85.0, 255.0))
  {
    var t := Totals(255.0, 0.0, 0.0, 85.0, 255.0);
    RedPixelTotals();
    WrittenAverages(RedPixelImage);
    CorrectedAverages(RedPixelImage);
    assert WrittenDivisor(4) == 0.1;
    assert Average(t, 0.1) == ColorStats(2550.0, 0.0, 0.0, 850.0, 2550.0);
    assert Average(t, 1.0) == ColorStats(255.0, 0.0, 0.0, 85.0, 255.0);
  }

  /** As written, the 1x1 red image has its statistics inflated tenfold
      (brightness 850, saturation 2550) and is classified energetic, while
      the corrected chain finds it dark. */
  lemma RedPixelAsWrittenIsEnergetic(r: real)
    requires 0.0 <= r < 1.0
    ensures AnalyzeImage(RedPixelImage, r).Ok?
    ensures AnalyzeImage(RedPixelImage, r).value.vibe == EnergeticBright
    ensures AnalyzeImageCorrected(RedPixelImage, r).value.vibe == MoodyDark
  {
    RedPixelStats();
  }

  /** Dividing a sum of n copies of x by a divisor no larger than n gives at
      least x. */
  lemma InflatedMeanAtLeast(x: real, n: real, d: real)
    requires x >= 0.0 && 0.0 < d <= n
    ensures n * x / d >= x
  {
    assert n * x / d * d == n * x;
    assert n * x >= d * x;
  }

  /** n copies of a grey contribution, divided by at most n: equal channels,
      no saturation, brightness at least the level. */
  lemma AverageOfGrey(c: Totals, n: real, d: real)
    requires c.r >= 0.0 && c.g == c.r && c.b == c.r && c.brightness == c.r && c.saturation == 0.0
    requires 0.0 < d <= n
    ensures var s := Average(Scale(c, n), d);
      && s.avgR == s.avgG == s.avgB && s.saturation == 0.0 && s.brightness >= c.r
  {
    InflatedMeanAtLeast(c.r, n, d);
  }

  /** The statistics of a buffer sampled as one grey level, under any divisor
      no larger than the number of pixels read: equal channels, no
      saturation, brightness at least the level. */
  lemma GreyStats(data: seq<Byte>, level: Byte, d: real)
    requires WholePixels(data) && |data| > 0 && SamplesAre(data, Pixel(level, level, level))
    requires 0.0 < d <= SampleCount(|data|) as real
    ensures var s := Average(Accumulate(SampledPixels(data)), d);
      && s.avgR == s.avgG == s.avgB && s.saturation == 0.0 && s.brightness >= level as real
  {
    var p := Pixel(level, level, level);
    var ps := SampledPixels(data);
    var c := Contribution(p);
    assert c == Totals(level as real, level as real, level as real, level as real, 0.0);
    assert Accumulate(ps) == Scale(c, |ps| as real) by {
      AccumulateUniform(ps, p);
    }
    AverageOfGrey(c, |ps| as real, d);
  }

  /** An image whose sampled pixels are all the same grey of level 100 or
      more has three equal channel averages and no saturation, so it is
      balanced: in the chain as written whatever its length, since the
      written divisor only ever inflates the brightness, and in the
      corrected chain. */
  lemma GreyImageIsBalanced(data: seq<Byte>, level: Byte, r: real)
    requires WholePixels(data) && |data| > 0 && SamplesAre(data, Pixel(level, level, level))
    requires level >= 100 && 0.0 <= r < 1.0
    ensures AnalyzeImage(data, r).Ok?
    ensures AnalyzeImage(data, r).value.vibe == BalancedHarmonious
    ensures AnalyzeImageCorrected(data, r).Ok?
    ensures AnalyzeImageCorrected(data, r).value.vibe == BalancedHarmonious
  {
    GreyStats(data, level, WrittenDivisor(|data|));
    GreyStats(data, level, SampleCount(|data|) as real);
    WrittenAverages(data);
    CorrectedAverages(data);
  }

  /** A single warm pixel [200, 100, 100, 255]. */
  const WarmPixelImage: seq<Byte> := [200, 100, 100, 255]

  /** The statistics of the warm image over both divisors: one pixel read,
      but the written divisor is 4 / 40. */
  lemma WarmPixelStats()
    ensures AnalyzeColors(WarmPixelImage) == Ok(ColorStats(2000.0, 1000.0, 1000.0, 4000.0 / 3.0, 1000.0))
    ensures AnalyzeColorsCorrected(WarmPixelImage) == Ok(ColorStats(200.0, 100.0, 100.0, 400.0 / 3.0, 100.0))
  {
    var p := Pixel(200, 100, 100);
    var ps := SampledPixels(WarmPixelImage);
    assert ps == [p];
    var c := Contribution(p);
    assert c == Totals(200.0, 100.0, 100.0, 400.0 / 3.0, 100.0);
    assert AnalyzeColorsCorrected(WarmPixelImage) == Ok(PixelStats(p)) by {
      UniformSamples(WarmPixelImage, p);
    }
    assert Accumulate(ps) == c by {
      AccumulateUniform(ps, p);
    }
    assert WrittenDivisor(4) == 0.1;
    assert AnalyzeColors(WarmPixelImage) == Ok(Average(c, 0.1));
  }

  /** Dividing by length / 40 instead of the number of pixels read changes
      the verdict: the inflated statistics of the one-pixel warm image pass
      the bright-and-saturated rule, the true averages select the warm vibe. */
  lemma WrittenDivisorChangesVibe()
    ensures AnalyzeColors(WarmPixelImage).Ok?
    ensures DetermineVibe(AnalyzeColors(WarmPixelImage).value) == EnergeticBright
    ensures AnalyzeColorsCorrected(WarmPixelImage).Ok?
    ensures DetermineVibe(AnalyzeColorsCorrected(WarmPixelImage).value) == WarmPassionate
  {
    WarmPixelStats();
  }
}
