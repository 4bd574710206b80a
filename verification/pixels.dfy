/** Pixel buffers as handed over by the canvas (RGBA bytes, four per pixel)
    and the sampling the colour analysis performs over them: it reads the
    pixel starting at every 40th byte, that is every 10th pixel. The stride
    40 and the group size 4 appear as literals so that the arithmetic on
    offsets stays linear. */
module Pixels {

  /** One element of the canvas's clamped byte array. */
  type Byte = x: int | 0 <= x < 256

  /** A buffer made of whole RGBA groups, as the canvas always produces. */
  predicate WholePixels(data: seq<Byte>) {
    |data| % 4 == 0
  }

  /** The colour channels of one pixel; the alpha byte is never part of it. */
  datatype Pixel = Pixel(r: Byte, g: Byte, b: Byte)

  /** The pixel whose red byte sits at offset `i`: bytes i, i + 1 and i + 2. */
  function PixelAt(data: seq<Byte>, i: nat): Pixel
    requires i + 2 < |data|
  {
    Pixel(data[i], data[i + 1], data[i + 2])
  }

  /** The number of offsets 0, 40, 80, ... below `len`: the ceiling of len / 40. */
  function SampleCount(len: nat): (n: nat)
    ensures 40 * n >= len
    ensures n == 0 || 40 * (n - 1) < len
  {
    (len + 39) / 40
  }

  /** Every offset the sampler visits in a whole-pixel buffer starts a
      complete pixel group. */
  lemma SampledOffsetFits(len: nat, k: nat)
    requires len % 4 == 0 && k < SampleCount(len)
    ensures 40 * k + 3 < len
  {
    var n := SampleCount(len);
    assert 40 * k <= 40 * (n - 1) < len;
    var m := len / 4;
    assert len == 4 * m;
    assert 10 * k < m;
  }

  /** The byte offsets the sampling loop visits, in visiting order. */
  function Offsets(len: nat): (os: seq<nat>)
    ensures |os| == SampleCount(len)
    ensures forall k :: 0 <= k < |os| ==> os[k] == 40 * k
    ensures forall k :: 0 <= k < |os| ==> os[k] < len && os[k] % 40 == 0
  {
    seq(SampleCount(len), k requires 0 <= k < SampleCount(len) => 40 * k)
  }

  /** An offset is visited exactly when it is a multiple of 40 below the
      length; so the loop reads ceil(len / 40) pixels and no others. */
  lemma OffsetVisitedIff(len: nat, i: nat)
    ensures i in Offsets(len) <==> i < len && i % 40 == 0
  {
    if i < len && i % 40 == 0 {
      var k := i / 40;
      assert 40 * k == i;
      assert Offsets(len)[k] == i;
    }
  }

  /** The pixels the sampler reads, in visiting order. */
  function SampledPixels(data: seq<Byte>): (ps: seq<Pixel>)
    requires WholePixels(data)
    ensures |ps| == SampleCount(|data|)
    ensures forall k :: 0 <= k < |ps| ==> 40 * k + 2 < |data| && ps[k] == PixelAt(data, 40 * k)
  {
    var n := SampleCount(|data|);
    assert forall k :: 0 <= k < n ==> 40 * k + 3 < |data| by {
      forall k | 0 <= k < n {
        SampledOffsetFits(|data|, k);
      }
    }
    seq(n, k requires 0 <= k < n => PixelAt(data, 40 * k))
  }

  /** The k-th pixel read starts at the k-th visited offset. */
  lemma SampledAtOffsets(data: seq<Byte>, k: nat)
    requires WholePixels(data) && k < |SampledPixels(data)|
    ensures Offsets(|data|)[k] + 2 < |data|
    ensures SampledPixels(data)[k] == PixelAt(data, Offsets(|data|)[k])
  {
  }

  /** Every pixel the sampler reads has the colour `p`. */
  predicate SamplesAre(data: seq<Byte>, p: Pixel)
    requires WholePixels(data)
  {
    forall k :: 0 <= k < |SampledPixels(data)| ==> SampledPixels(data)[k] == p
  }

  /** The largest of three channel values. */
  function Max3(a: int, b: int, c: int): (m: int)
    ensures m >= a && m >= b && m >= c
    ensures m == a || m == b || m == c
  {
    if a >= b && a >= c then a else if b >= c then b else c
  }

  /** The smallest of three channel values. */
  function Min3(a: int, b: int, c: int): (m: int)
    ensures m <= a && m <= b && m <= c
    ensures m == a || m == b || m == c
  {
    if a <= b && a <= c then a else if b <= c then b else c
  }

  /** The per-pixel brightness term: the mean of the three channels. */
  function Brightness(p: Pixel): (v: real)
    ensures 0.0 <= v <= 255.0
    ensures v == 0.0 <==> p.r == 0 && p.g == 0 && p.b == 0
    ensures v == 255.0 <==> p.r == 255 && p.g == 255 && p.b == 255
  {
    (p.r + p.g + p.b) as real / 3.0
  }

  /** The per-pixel saturation term: the spread between the brightest and the
      darkest channel. */
  function Saturation(p: Pixel): (s: int)
    ensures 0 <= s <= 255
    ensures s == 0 <==> p.r == p.g && p.g == p.b
    ensures s >= p.r - p.g && s >= p.g - p.b && s >= p.b - p.r
    ensures s >= p.g - p.r && s >= p.b - p.g && s >= p.r - p.b
    ensures || s == p.r - p.g || s == p.g - p.r || s == p.g - p.b
            || s == p.b - p.g || s == p.b - p.r || s == p.r - p.b
  {
    Max3(p.r, p.g, p.b) - Min3(p.r, p.g, p.b)
  }
}
