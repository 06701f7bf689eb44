/**
 What each per-pixel formula guarantees, stated against the original pixel.
 */
module PixelLaws {
  import opened Uint8Clamp
  import opened Pixels

  function Min3(a: int, b: int, c: int): int {
    if a <= b && a <= c then a else if b <= c then b else c
  }

  function Max3(a: int, b: int, c: int): int {
    if a >= b && a >= c then a else if b >= c then b else c
  }

  /** Grayscale writes the rounded mean into R, G and B alike; the mean lies
      between the darkest and the brightest original channel. */
  lemma GrayscaleLaw(p: Rgba)
    ensures GrayPixel(p).r == GrayPixel(p).g == GrayPixel(p).b
    ensures GrayPixel(p).r == Clamp8(Mean(p))
    ensures Min3(p.r, p.g, p.b) <= GrayPixel(p).r <= Max3(p.r, p.g, p.b)
    ensures GrayPixel(p).a == p.a
  {
    var lo, hi := Min3(p.r, p.g, p.b), Max3(p.r, p.g, p.b);
    var avg := Mean(p);
    assert lo as real <= avg <= hi as real;
    Clamp8Monotone(lo as real, avg);
    Clamp8Monotone(avg, hi as real);
    Clamp8OfByte(lo);
    Clamp8OfByte(hi);
  }

  /** The mean of three bytes is a whole number plus 0, 1/3 or 2/3, never a
      half, so the store never meets a tie: grayscale is plain
      round-to-nearest, and the mean is not floored. */
  lemma GrayscaleRoundsNearest(p: Rgba)
    ensures Dist(GrayPixel(p).r, Mean(p)) < 0.5
    ensures GrayPixel(p).r == (Mean(p) + 0.5).Floor
  {
    var s := p.r as int + p.g + p.b;
    var q, m := s / 3, s % 3;
    assert s == 3 * q + m;
    assert Mean(p) == q as real + m as real / 3.0;
    if m == 0 {
      assert (Mean(p) + 0.5).Floor == q;
      Clamp8OfByte(q);
    } else if m == 1 {
      assert Mean(p).Floor == q;
      assert (Mean(p) + 0.5).Floor == q;
    } else {
      assert Mean(p).Floor == q;
      assert (Mean(p) + 0.5).Floor == q + 1;
    }
  }

  /** A gray pixel is left as it is: grayscale applied twice is grayscale once. */
  lemma GrayscaleIdempotent(p: Rgba)
    ensures GrayPixel(GrayPixel(p)) == GrayPixel(p)
  {
    var v: int := GrayPixel(p).r;
    assert (v + v + v) as real / 3.0 == v as real;
    Clamp8OfByte(v);
  }

  /** The pixel (200, 150, 100) has mean 150. */
  lemma GrayscaleExample()
    ensures GrayPixel(Rgba(200, 150, 100, 255)) == Rgba(150, 150, 150, 255)
  {
    Clamp8OfByte(150);
  }

  /** White through sepia: red and green saturate at 255, but the blue
      coefficients sum to 0.937, so blue becomes 238.935, stored as 239. */
  lemma SepiaWhite(a: Byte)
    ensures SepiaPixel(Rgba(255, 255, 255, a)) == Rgba(255, 255, 239, a)
  {
    assert 255.0 * 0.272 + 255.0 * 0.534 + 255.0 * 0.131 == 238.935;
    assert (238.935).Floor == 238;
  }

  /** Black stays black under sepia. */
  lemma SepiaBlack(a: Byte)
    ensures SepiaPixel(Rgba(0, 0, 0, a)) == Rgba(0, 0, 0, a)
  {
  }

  /** Sepia output is always warm: its red is at least its green, and its
      green at least its blue, whatever the input colour. */
  lemma SepiaWarm(p: Rgba)
    ensures SepiaPixel(p).r >= SepiaPixel(p).g >= SepiaPixel(p).b
  {
    var r, g, b := p.r as real, p.g as real, p.b as real;
    var x := Min(255.0, r * 0.393 + g * 0.769 + b * 0.189);
    var y := Min(255.0, r * 0.349 + g * 0.686 + b * 0.168);
    var z := Min(255.0, r * 0.272 + g * 0.534 + b * 0.131);
    assert z <= y <= x;
    Clamp8Monotone(y, x);
    Clamp8Monotone(z, y);
  }

  /** Cool never raises red or green and never lowers blue. */
  lemma CoolLaw(p: Rgba)
    ensures CoolPixel(p).r <= p.r && CoolPixel(p).g <= p.g
    ensures CoolPixel(p).b >= p.b
    ensures CoolPixel(p).a == p.a
  {
    Clamp8Monotone(Min(255.0, p.r as real * 0.9), p.r as real);
    Clamp8Monotone(Min(255.0, p.g as real * 0.9), p.g as real);
    Clamp8Monotone(p.b as real, Min(255.0, p.b as real * 1.2));
    Clamp8OfByte(p.r);
    Clamp8OfByte(p.g);
    Clamp8OfByte(p.b);
  }

  /** With brightness 0 and contrast 0 a channel comes back unchanged. */
  lemma AdjustNeutral(v: Byte)
    ensures AdjustChannel(v, 0.0, 0.0) == v
  {
    assert (v as real / 255.0 - 0.5) * 1.0 + 0.5 == v as real / 255.0;
    assert v as real / 255.0 * 255.0 == v as real;
    Clamp8OfByte(v);
  }

  /** Contrast -100 gives factor 0: every channel becomes ToUint8Clamp(127.5) = 128
      before brightness is added. */
  lemma AdjustFlatContrast(v: Byte, brightnessValue: real)
    ensures ContrastChannel(v, ContrastFactor(-100.0)) == 128
    ensures AdjustChannel(v, brightnessValue, -100.0) == BrightnessChannel(128, BrightnessFactor(brightnessValue))
  {
    Clamp8Tie(127);
  }

  /** At contrast 100 (factor 2) every channel from 64 to 191 lands on an
      exact half in exact arithmetic, so its stored value rests on the tie
      rule: 66 gives 4.5, stored as 4. */
  lemma FullContrastHalves(v: Byte)
    requires 64 <= v <= 191
    ensures ContrastValue(v as real, ContrastFactor(100.0)) == (2 * v - 128) as real + 0.5
    ensures ContrastChannel(v, ContrastFactor(100.0)) == 2 * v - 128
  {
    assert ContrastValue(v as real, ContrastFactor(100.0)) == (2 * v - 128) as real + 0.5;
    Clamp8Tie(2 * v - 128);
  }

  /** Contrast 0 with a non-negative brightness never darkens a channel;
      with a non-positive brightness it never brightens one. */
  lemma AdjustBrightnessOnly(v: Byte, brightnessValue: real)
    ensures brightnessValue >= 0.0 ==> AdjustChannel(v, brightnessValue, 0.0) >= v
    ensures brightnessValue <= 0.0 ==> AdjustChannel(v, brightnessValue, 0.0) <= v
  {
    assert ContrastChannel(v, ContrastFactor(0.0)) == v by {
      assert (v as real / 255.0 - 0.5) * 1.0 + 0.5 == v as real / 255.0;
      assert v as real / 255.0 * 255.0 == v as real;
      Clamp8OfByte(v);
    }
    var shifted := Min(255.0, Max(0.0, v as real + BrightnessFactor(brightnessValue) * 255.0));
    if brightnessValue >= 0.0 {
      Clamp8Monotone(v as real, shifted);
    } else {
      Clamp8Monotone(shifted, v as real);
    }
  }

  lemma ScaleMonotone(a: real, b: real, c: real)
    requires a <= b && c >= 0.0
    ensures a * c <= b * c
  {
    assert (b - a) * c >= 0.0;
  }

  lemma ContrastValueMonotone(x: real, y: real, contrastFactor: real)
    requires contrastFactor >= 0.0
    requires x <= y
    ensures ContrastValue(x, contrastFactor) <= ContrastValue(y, contrastFactor)
  {
    ScaleMonotone(x / 255.0 - 0.5, y / 255.0 - 0.5, contrastFactor);
  }

  /** The contrast step keeps the order of channel values when its factor is
      not negative. */
  lemma ContrastMonotone(v: Byte, w: Byte, contrastFactor: real)
    requires contrastFactor >= 0.0
    requires v <= w
    ensures ContrastChannel(v, contrastFactor) <= ContrastChannel(w, contrastFactor)
  {
    ContrastValueMonotone(v as real, w as real, contrastFactor);
    Clamp8Monotone(ContrastValue(v as real, contrastFactor), ContrastValue(w as real, contrastFactor));
  }

  /** The brightness step keeps the order of channel values. */
  lemma BrightnessMonotone(v: Byte, w: Byte, brightnessFactor: real)
    requires v <= w
    ensures BrightnessChannel(v, brightnessFactor) <= BrightnessChannel(w, brightnessFactor)
  {
    Clamp8Monotone(Min(255.0, Max(0.0, v as real + brightnessFactor * 255.0)),
                   Min(255.0, Max(0.0, w as real + brightnessFactor * 255.0)));
  }

  /** For any contrast of at least -100 the adjustment keeps the order of
      channel values: a darker input channel never comes out brighter. */
  lemma AdjustMonotone(v: Byte, w: Byte, brightnessValue: real, contrastValue: real)
    requires contrastValue >= -100.0
    requires v <= w
    ensures AdjustChannel(v, brightnessValue, contrastValue) <= AdjustChannel(w, brightnessValue, contrastValue)
  {
    var cf := ContrastFactor(contrastValue);
    ContrastMonotone(v, w, cf);
    BrightnessMonotone(ContrastChannel(v, cf), ContrastChannel(w, cf), BrightnessFactor(brightnessValue));
  }
}
