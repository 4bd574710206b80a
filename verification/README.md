# Vibe music recommender — a Dafny model of the analysis core

The application takes a photo, reduces its pixels to five colour statistics,
turns those into one of five "vibes", and recommends a song that matches the
vibe. This project models that core, found in `src/VibeApp.js`, and proves
properties of it:

- `pixels.dfy` (module `Pixels`) holds the RGBA byte buffer a canvas hands
  over and the stride sampling. The loop reads the pixel that starts at every
  40th byte, so it visits every 10th pixel. It also holds the per-pixel
  brightness (the mean of the channels) and saturation (max minus min).
- `sampler.dfy` (module `ColorSampler`) sums the sampled pixels and divides
  the sums. There are two versions:
  - `AnalyzeColors` divides as the source is written, by `length / 40`;
  - `AnalyzeColorsCorrected` divides by the number of pixels the loop
    actually read (see "## Findings").

  The loop itself is the method `AnalyzeImageColors`. Its contract ties it
  to the functional definition.
- `vibes.dfy` (module `Vibes`) holds the five vibe records and the classifier.
  It also has a reference definition of the classifier: an ordered table of
  rules where the first match wins.
- `songs.dfy` (module `Songs`) holds the song database: five moods with three
  songs each. The lookup falls back to the "balanced" list. The picker takes
  the index `floor(r * length)`.
- `pipeline.dfy` (module `Pipeline`) chains the three steps the way the
  image-load handler does. `AnalyzeImage` is the chain as written, and
  `AnalyzeImageCorrected` is the same chain over the corrected statistics.

The random number that `Math.random()` supplies becomes a parameter `r` in
[0, 1). Channel values are integers in [0, 255]. The sums and averages are
real numbers. As JavaScript numbers, the channel sums are exact integers,
but the brightness terms (thirds of integers) and every quotient are rounded.
The model ignores that rounding, including near the thresholds 100 and 180
of the classifier.

## Model

| member | source | states |
|---|---|---|
| Pixels.SampleCount | src/VibeApp.js:54 | the loop `i = 0, 40, 80, … < length` runs ceil(length / 40) times: 40·n covers the length, and 40·(n−1) still lies below it |
| Pixels.SampledOffsetFits | src/VibeApp.js:54-57 | in a buffer of whole RGBA groups, every visited offset starts a complete pixel, so reading bytes i, i+1 and i+2 never runs off the end |
| Pixels.Offsets | src/VibeApp.js:54 | the visited offsets, in order: ceil(length / 40) of them, the k-th being 40·k, each below the length |
| Pixels.SampledAtOffsets | src/VibeApp.js:54-57 | the k-th pixel the sampler reads starts at the k-th visited offset |
| Pixels.OffsetVisitedIff | src/VibeApp.js:54 | an offset is visited if and only if it is a multiple of 40 below the length |
| Pixels.SampledPixels | src/VibeApp.js:54-57 | the sampler reads exactly ceil(length / 40) pixels, and the k-th is the (r, g, b) at byte 40·k |
| Pixels.Brightness | src/VibeApp.js:63 | a pixel's brightness term lies in [0, 255]; it is 0 exactly for black and 255 exactly for white |
| Pixels.Saturation | src/VibeApp.js:66-68 | a pixel's saturation term lies in [0, 255]; it is 0 exactly when all three channels are equal, and it is the largest pairwise channel difference (at least each of them and equal to one), which is max − min |
| Pixels.Max3 | src/VibeApp.js:66 | `Math.max` of three channels bounds each of them and equals one of them |
| Pixels.Min3 | src/VibeApp.js:67 | `Math.min` of three channels is bounded by each of them and equals one of them |
| ColorSampler.Accumulate | src/VibeApp.js:54-69 | after n sampled pixels, each of the five running sums lies in [0, 255·n] |
| ColorSampler.AnalyzeImageColors | src/VibeApp.js:47-80 | the stride-40 loop with its running sums computes exactly the functional statistics `AnalyzeColors` |
| ColorSampler.AnalyzeColors | src/VibeApp.js:71-79 | the analysis as written fails exactly on an empty buffer (where the source divides 0 by 0) and otherwise yields statistics |
| ColorSampler.WrittenDivisor | src/VibeApp.js:71 | `length / 40` equals the visited-pixel count when 40 divides the length; otherwise it lies strictly between 0 and that count, so the written averages are inflated |
| ColorSampler.WrittenInRangeOnStrideMultiples | src/VibeApp.js:71-79 | when the length is a positive multiple of 40, all five statistics as written lie in [0, 255] |
| ColorSampler.AnalyzeColorsCorrected | src/VibeApp.js:71-79 | the corrected analysis fails exactly on an empty buffer |
| ColorSampler.CorrectedInRange | src/VibeApp.js:71-79 | for every non-empty buffer, all five corrected statistics lie in [0, 255] |
| ColorSampler.CorrectedAgreesOnStrideMultiples | src/VibeApp.js:71 | the written and the corrected analysis agree on every buffer whose length is a multiple of 40 |
| ColorSampler.AverageInRange | src/VibeApp.js:73-79 | the sums of n pixels divided by n lie in [0, 255] |
| ColorSampler.AccumulateUniform | src/VibeApp.js:59-68 | summing n copies of one pixel gives n times its contribution to each sum |
| ColorSampler.UniformSamples | src/VibeApp.js:47-80 | if every sampled pixel has colour p, the corrected statistics are p's own channels, brightness and saturation; the written ones are too when 40 divides the length |
| ColorSampler.ZeroBufferHasZeroStats | src/VibeApp.js:47-80 | a non-empty all-zero buffer gives all five statistics 0, under both divisors |
| ColorSampler.ZeroBufferSamplesBlack | src/VibeApp.js:55-57 | an all-zero buffer samples only black pixels |
| ColorSampler.AccumulateBlack | src/VibeApp.js:59-68 | black pixels leave all five sums at 0 |
| ColorSampler.WhiteSamplesHaveFullStats | src/VibeApp.js:47-80 | when every sampled pixel is white and the length is a multiple of 40, the statistics are 255, 255, 255, 255 and 0 |
| ColorSampler.OnlySampledBytesMatter | src/VibeApp.js:54-57 | the result depends only on the bytes at offsets 40k, 40k+1 and 40k+2: buffers that agree there give the same statistics |
| ColorSampler.SampledChannelIsNotAlpha | src/VibeApp.js:55-57 | a byte the loop reads (offset mod 40 below 3) is never an alpha byte (offset mod 4 = 3) |
| ColorSampler.AlphaNeverRead | src/VibeApp.js:54-57 | changing any alpha bytes leaves the statistics unchanged |
| ColorSampler.WrittenDivisorLeavesRange | src/VibeApp.js:71-79 | on a 1×1 white image the written average red is 2550, outside [0, 255], while the corrected statistics are 255, 255, 255, 255, 0 |
| Vibes.DetermineVibe | src/VibeApp.js:83-122 | the classifier always returns one of the five vibe records |
| Vibes.FirstMatch | src/VibeApp.js:86-114 | the index of the first rule whose condition holds: every earlier rule fails, and the rule found (if any) holds |
| Vibes.DetermineVibeIsFirstMatch | src/VibeApp.js:83-122 | the if/else-if chain is exactly first-match-wins over the rule table (bright and saturated, dark, red-dominant, blue-dominant), with balanced as the fallback |
| Vibes.BrightAndSaturatedWins | src/VibeApp.js:86-92 | brightness above 180 with saturation above 100 gives Energetic & Bright (mood "upbeat"), whatever the channel balance |
| Vibes.DarkIsChill | src/VibeApp.js:93-99 | brightness below 100 gives Moody & Dark (mood "chill"), whatever the channels |
| Vibes.ChillIffDark | src/VibeApp.js:86-99 | Moody & Dark is chosen if and only if brightness is below 100; brightness exactly 100 never gives it |
| Vibes.ColourRulesNeedStrictDominance | src/VibeApp.js:100-113 | Warm & Passionate, and likewise Cool & Calm, is chosen if and only if the first two rules fail and red (respectively blue) strictly exceeds both other channels |
| Vibes.TopChannelTieIsBalanced | src/VibeApp.js:100-120 | when the first two rules fail and the largest channel average is shared by two channels, the result is Balanced & Harmonious |
| Vibes.MoodsIdentifyVibes | src/VibeApp.js:83-122 | no two of the five vibes share a mood |
| Songs.SongsFor | src/VibeApp.js:154 | the list drawn from has three songs: the mood's own list when the database has the mood, the balanced list otherwise |
| Songs.PickIndex | src/VibeApp.js:155 | `floor(r · n)` for r in [0, 1) is a valid index k < n with k ≤ r·n < k+1 |
| Songs.GetSongRecommendation | src/VibeApp.js:153-156 | the recommended song is an element of the list for the vibe's mood (or of the fallback list), and it is entry k of that list exactly when r·3 lies in [k, k+1), i.e. entry `floor(3r)` |
| Songs.PickIndexUniform | src/VibeApp.js:155 | index k is chosen exactly for r·n in [k, k+1), so each of the n entries gets an interval of r of width 1/n |
| Songs.EverySongReachable | src/VibeApp.js:155 | with three songs per list, every song (index 0, 1 or 2) is returned for r = k/3 |
| Songs.UnknownMoodFallsBack | src/VibeApp.js:154 | a mood with no entry is served from the balanced list |
| Songs.DatabaseKeysAreVibeMoods | src/VibeApp.js:126-152 | the database keys are exactly the moods of the five vibes |
| Songs.ClassifiedMoodHasOwnList | src/VibeApp.js:154 | a vibe the classifier can return has its own list, and its song comes from that list |
| Pipeline.Recommend | src/VibeApp.js:184-185 | statistics give no recommendation exactly when there are none; otherwise the vibe is the classifier's verdict on them and the song is the picker's choice for `r` from that vibe's own list |
| Pipeline.AnalyzeImage | src/VibeApp.js:182-185 | the chain as written fails exactly on an empty buffer; otherwise its vibe is the classifier's verdict on the statistics as written (divided by length / 40), and its song is the picker's choice for `r` from that vibe's own list |
| Pipeline.AnalyzeImageCorrected | src/VibeApp.js:182-185 | the same chain over the corrected statistics: the vibe is the classifier's verdict on them, and the song is the picker's choice for `r` from that vibe's list |
| Pipeline.ChainsAgreeOnStrideMultiples | src/VibeApp.js:71 | the chain as written and the corrected chain give the same recommendation whenever 40 divides the length |
| Pipeline.RedImageIsMoody | src/VibeApp.js:63-99 | an image sampled as pure red has corrected statistics (255, 0, 0, 85, 255), so brightness 85, and is Moody & Dark, not Warm & Passionate, with a "chill" song: in the corrected chain always, and in the chain as written when 40 divides the length |
| Pipeline.RedPixelStats | src/VibeApp.js:71-79 | the 1×1 red image has statistics (2550, 0, 0, 850, 2550) as written and (255, 0, 0, 85, 255) corrected |
| Pipeline.RedPixelAsWrittenIsEnergetic | src/VibeApp.js:71-99 | as written, the 1×1 red image is Energetic & Bright, while the corrected chain finds it Moody & Dark |
| Pipeline.GreyStats | src/VibeApp.js:59-79 | a buffer sampled as one grey level, divided by anything up to the number of pixels read, has equal channel averages, saturation 0 and brightness at least the level |
| Pipeline.GreyImageIsBalanced | src/VibeApp.js:100-120 | an image sampled as a single grey of level 100 or more is Balanced & Harmonious, in the chain as written at every length and in the corrected chain |
| Pipeline.WarmPixelStats | src/VibeApp.js:71-79 | for the one-pixel image (200, 100, 100) the written statistics are ten times the corrected ones (2000, 1000, 1000, 4000/3, 1000 versus 200, 100, 100, 400/3, 100) |
| Pipeline.WrittenDivisorChangesVibe | src/VibeApp.js:71-122 | on that image the written statistics classify as Energetic & Bright, the corrected ones as Warm & Passionate |

## Left out

- The React component, its state hooks, the file upload through `FileReader`, the 1.5-second `setTimeout` delay and the rendered markup are user interface, not analysis.
- Decoding the image into pixels (`Image`, canvas `drawImage`, `getImageData`) is left out. The model starts from the byte buffer. The buffer is assumed to hold whole RGBA groups, which the canvas guarantees; this is the `WholePixels` precondition.
- `Math.random()` is not modelled; its value is the parameter `r` in [0, 1). Given `r`, the picker is deterministic.
- IEEE-754 arithmetic is not modelled. Sums and averages are exact reals. The channel sums are exact in the source too, but the brightness terms, their running sum and every quotient are rounded there. The model ignores that rounding, including for statistics that lie within rounding of the thresholds 100 and 180.
- ColorSampler.AnalyzeColors: for an empty buffer the source divides 0 by 0 and returns NaN statistics. The model returns `Err(EmptyBuffer)` instead, and it does not model NaN's effect on the classifier, which is that every comparison fails and the result is Balanced & Harmonious.
- Songs.SongsFor: plain JavaScript object lookup also finds inherited keys such as `"toString"`. Moods are only ever the five vibe moods, so this is unreachable, and it is not modelled.
- The `catch` branch of the analysis handler (lines 193-196) is left out. Once the buffer is whole, the modelled core has no other failure than the empty buffer.
- Nothing checks that the buffer length is a multiple of 4. The canvas never produces such a buffer, so this is the `WholePixels` precondition.

## Findings

| source | as written | input that shows it | evidently intended | confidence | as-written member | corrected member |
|---|---|---|---|---|---|---|
| src/VibeApp.js:71 | the sums are divided by `data.length / 40`, a fraction whenever 40 does not divide the length, although the loop reads ceil(length / 40) pixels | a 1×1 white image `[255, 255, 255, 255]`: one pixel is read, the divisor is 0.1, and the average red is 2550; a 1×1 pixel (200, 100, 100) is classified Energetic & Bright instead of Warm & Passionate | divide by the number of pixels the loop visited, which keeps every average in [0, 255] | medium, not executed | ColorSampler.WrittenDivisorLeavesRange | ColorSampler.CorrectedInRange |
