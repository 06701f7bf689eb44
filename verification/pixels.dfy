/**
 Per-pixel colour formulas of the camera's image filters, and the
 whole-buffer transform they induce.

 An `ImageData.data` buffer is a row-major sequence of RGBA samples, four
 bytes per pixel, so its length is always a multiple of four. Pixel `k`
 occupies indices `4k` (red), `4k+1` (green), `4k+2` (blue) and `4k+3`
 (alpha).
 */
module Pixels {
  import opened Uint8Clamp

  datatype Rgba = Rgba(r: Byte, g: Byte, b: Byte, a: Byte)

  /** The shape every `ImageData.data` has: whole pixels only. */
  predicate IsImageData(d: seq<Byte>) {
    |d| % 4 == 0
  }

  /** The `k`-th pixel of a buffer. */
  function Pixel(d: seq<Byte>, k: nat): Rgba
    requires 4 * k + 4 <= |d|
  {
    Rgba(d[4 * k], d[4 * k + 1], d[4 * k + 2], d[4 * k + 3])
  }

  /** The per-pixel transforms the camera applies to a buffer. */
  datatype Transform =
    | Gray
    | SepiaTone
    | CoolTint
    | BrightnessContrast(brightnessValue: real, contrastValue: real)

  /** The unweighted mean of a pixel's colour channels. */
  function Mean(p: Rgba): real {
    (p.r as int + p.g + p.b) as real / 3.0
  }

  /** Grayscale: the unweighted mean of R, G and B, stored into all three. */
  function GrayPixel(p: Rgba): Rgba {
    var avg := Mean(p);
    Rgba(Clamp8(avg), Clamp8(avg), Clamp8(avg), p.a)
  }

  /** Sepia: a fixed linear map of the original (R, G, B), each capped at 255. */
  function SepiaPixel(p: Rgba): Rgba {
    var r, g, b := p.r as real, p.g as real, p.b as real;
    Rgba(Clamp8(Min(255.0, r * 0.393 + g * 0.769 + b * 0.189)),
         Clamp8(Min(255.0, r * 0.349 + g * 0.686 + b * 0.168)),
         Clamp8(Min(255.0, r * 0.272 + g * 0.534 + b * 0.131)),
         p.a)
  }

  /** Cool tint: R and G scaled by 0.9, B by 1.2, each capped at 255. */
  function CoolPixel(p: Rgba): Rgba {
    Rgba(Clamp8(Min(255.0, p.r as real * 0.9)),
         Clamp8(Min(255.0, p.g as real * 0.9)),
         Clamp8(Min(255.0, p.b as real * 1.2)),
         p.a)
  }

  /** The number the contrast step computes for channel value `v`, before it is stored. */
  function ContrastValue(v: real, contrastFactor: real): real {
    Min(255.0, Max(0.0, (v / 255.0 - 0.5) * contrastFactor + 0.5) * 255.0)
  }

  /** The contrast step on one channel, with `contrastFactor = (contrast + 100) / 100`. */
  function ContrastChannel(v: Byte, contrastFactor: real): Byte {
    Clamp8(ContrastValue(v as real, contrastFactor))
  }

  /** The brightness step on one (already stored) channel, with `brightnessFactor = brightness / 100`. */
  function BrightnessChannel(v: Byte, brightnessFactor: real): Byte {
    Clamp8(Min(255.0, Max(0.0, v as real + brightnessFactor * 255.0)))
  }

  function ContrastFactor(contrastValue: real): real {
    (contrastValue + 100.0) / 100.0
  }

  function BrightnessFactor(brightnessValue: real): real {
    brightnessValue / 100.0
  }

  /** Contrast first, stored; then brightness on the stored value. */
  function AdjustChannel(v: Byte, brightnessValue: real, contrastValue: real): Byte {
    BrightnessChannel(ContrastChannel(v, ContrastFactor(contrastValue)), BrightnessFactor(brightnessValue))
  }

  function AdjustPixel(p: Rgba, brightnessValue: real, contrastValue: real): Rgba {
    Rgba(AdjustChannel(p.r, brightnessValue, contrastValue),
         AdjustChannel(p.g, brightnessValue, contrastValue),
         AdjustChannel(p.b, brightnessValue, contrastValue),
         p.a)
  }

  /** One pixel through a transform; no transform touches alpha. */
  function Step(t: Transform, p: Rgba): (q: Rgba)
    ensures q.a == p.a
  {
    match t
    case Gray => GrayPixel(p)
    case SepiaTone => SepiaPixel(p)
    case CoolTint => CoolPixel(p)
    case BrightnessContrast(bv, cv) => AdjustPixel(p, bv, cv)
  }

  /** Integer facts about index `j` of a whole-pixel buffer. */
  lemma IndexSplit(j: int, n: int)
    requires 0 <= j < n && n % 4 == 0
    ensures 4 * (j / 4) + 4 <= n
    ensures 4 * (j / 4) + j % 4 == j
  {
  }

  /** The four bytes of one pixel, in buffer order. */
  function Bytes(p: Rgba): (s: seq<Byte>)
    ensures |s| == 4 && Pixel(s, 0) == p
  {
    [p.r, p.g, p.b, p.a]
  }

  /** A per-pixel map over a whole-pixel buffer: pixel `k` of the result is
      `f` of pixel `k` of the input. */
  function MapPixels(f: Rgba -> Rgba, d: seq<Byte>): (r: seq<Byte>)
    requires IsImageData(d)
    ensures |r| == |d|
    ensures forall k: nat :: 4 * k + 4 <= |d| ==> Pixel(r, k) == f(Pixel(d, k))
    decreases |d|
  {
    if |d| == 0 then []
    else
      var head, tail := Bytes(f(Pixel(d, 0))), MapPixels(f, d[4..]);
      var r := head + tail;
      assert forall k: nat :: 1 <= k && 4 * k + 4 <= |d| ==> Pixel(r, k) == Pixel(tail, k - 1) && Pixel(d, k) == Pixel(d[4..], k - 1);
      r
  }

  /** The whole buffer through a transform: pixel `k` of the result is the
      transform of pixel `k` of the input and of nothing else, and every
      alpha byte is kept. */
  function Filtered(t: Transform, d: seq<Byte>): (r: seq<Byte>)
    requires IsImageData(d)
    ensures |r| == |d| && IsImageData(r)
    ensures forall k: nat :: 4 * k + 4 <= |d| ==> Pixel(r, k) == Step(t, Pixel(d, k))
    ensures forall k: nat :: 4 * k + 4 <= |d| ==> r[4 * k + 3] == d[4 * k + 3]
  {
    var r := MapPixels(p => Step(t, p), d);
    forall k: nat | 4 * k + 4 <= |d|
      ensures r[4 * k + 3] == d[4 * k + 3]
    {
      assert Pixel(r, k) == Step(t, Pixel(d, k));
    }
    r
  }

  /** Two whole-pixel buffers with the same pixels are the same buffer. */
  lemma PixelsDetermineBuffer(d: seq<Byte>, e: seq<Byte>)
    requires IsImageData(d) && |e| == |d|
    requires forall k: nat :: 4 * k + 4 <= |d| ==> Pixel(d, k) == Pixel(e, k)
    ensures d == e
  {
    forall j | 0 <= j < |d|
      ensures d[j] == e[j]
    {
      IndexSplit(j, |d|);
      var k := j / 4;
      assert Pixel(d, k) == Pixel(e, k);
      assert j == 4 * k + j % 4;
    }
  }
}
