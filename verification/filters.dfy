/**
 The four buffer loops of the camera: grayscale, sepia, cool and the
 brightness/contrast adjustment.

 Each walks the RGBA buffer with stride 4 from index 0 and, at every pixel
 boundary `i`, stores new values into bytes `i`, `i+1` and `i+2`, computed
 from that pixel alone; byte `i+3` (alpha) is never written. The buffer is
 modelled as a value: `buf` is its contents while the loop runs, and each
 method returns its final contents.
 */
module Filters {
  import opened Uint8Clamp
  import opened Pixels
  import opened PixelLaws

  /** At a pixel boundary `i`, the bytes of pixel `i/4` of the filtered
      buffer are the channels of the transformed pixel. */
  lemma FilteredAt(t: Transform, d: seq<Byte>, k: nat, i: nat)
    requires IsImageData(d) && i == 4 * k && i < |d|
    ensures i + 4 <= |d|
    ensures Filtered(t, d)[i] == Step(t, Rgba(d[i], d[i + 1], d[i + 2], d[i + 3])).r
    ensures Filtered(t, d)[i + 1] == Step(t, Rgba(d[i], d[i + 1], d[i + 2], d[i + 3])).g
    ensures Filtered(t, d)[i + 2] == Step(t, Rgba(d[i], d[i + 1], d[i + 2], d[i + 3])).b
    ensures Filtered(t, d)[i + 3] == d[i + 3]
  {
    assert |d| == 4 * (|d| / 4);
    assert Pixel(Filtered(t, d), k) == Step(t, Pixel(d, k));
  }

  /** The loop invariant: the bytes before `i` are final, the ones from `i`
      on still hold the input. */
  ghost predicate Progress(buf: seq<Byte>, want: seq<Byte>, data: seq<Byte>, i: int)
  {
    && 0 <= i <= |buf| == |data| == |want|
    && (forall j :: 0 <= j < i ==> buf[j] == want[j])
    && (forall j :: i <= j < |buf| ==> buf[j] == data[j])
  }

  /** Storing the three colour channels of pixel `i/4` advances the loop by one pixel. */
  lemma StoreAdvances(buf: seq<Byte>, want: seq<Byte>, data: seq<Byte>, i: int, x: Byte, y: Byte, z: Byte)
    requires Progress(buf, want, data, i) && i + 4 <= |buf|
    requires want[i] == x && want[i + 1] == y && want[i + 2] == z && want[i + 3] == data[i + 3]
    ensures Progress(buf[i := x][i + 1 := y][i + 2 := z], want, data, i + 4)
  {
  }

  /** The stride-4 loop shared by the four filters, rewriting R, G and B of
      each pixel with the transform of that pixel as it was read. */
  method StrideLoop(t: Transform, data: seq<Byte>) returns (buf: seq<Byte>)
    requires IsImageData(data)
    ensures buf == Filtered(t, data)
  {
    ghost var want := Filtered(t, data);
    buf := data;
    var i := 0;
    ghost var k := 0;
    while i < |buf|
      invariant i == 4 * k
      invariant Progress(buf, want, data, i)
    {
      assert i + 4 <= |buf| by {
        FilteredAt(t, data, k, i);
      }
      var q := Step(t, Rgba(buf[i], buf[i + 1], buf[i + 2], buf[i + 3]));
      assert want[i] == q.r && want[i + 1] == q.g && want[i + 2] == q.b && want[i + 3] == data[i + 3] by {
        FilteredAt(t, data, k, i);
        assert buf[i] == data[i] && buf[i + 1] == data[i + 1] && buf[i + 2] == data[i + 2] && buf[i + 3] == data[i + 3];
      }
      StoreAdvances(buf, want, data, i, q.r, q.g, q.b);
      buf := buf[i := q.r][i + 1 := q.g][i + 2 := q.b];
      i, k := i + 4, k + 1;
    }
  }

  /** Grayscale: every pixel becomes gray, at the rounded mean of its
      original R, G and B, with its alpha kept. */
  method GrayscaleFilter(data: seq<Byte>) returns (buf: seq<Byte>)
    requires IsImageData(data)
    ensures buf == Filtered(Gray, data)
    ensures forall k: nat :: 4 * k + 4 <= |data| ==>
      && Pixel(buf, k).r == Pixel(buf, k).g == Pixel(buf, k).b == Clamp8(Mean(Pixel(data, k)))
      && Pixel(buf, k).a == Pixel(data, k).a
  {
    buf := StrideLoop(Gray, data);
  }

  /** Sepia: every pixel is the sepia map of its original colour, so it
      comes out warm (R >= G >= B), with its alpha kept. */
  method SepiaFilter(data: seq<Byte>) returns (buf: seq<Byte>)
    requires IsImageData(data)
    ensures buf == Filtered(SepiaTone, data)
    ensures forall k: nat :: 4 * k + 4 <= |data| ==>
      && Pixel(buf, k).r >= Pixel(buf, k).g >= Pixel(buf, k).b
      && Pixel(buf, k).a == Pixel(data, k).a
  {
    buf := StrideLoop(SepiaTone, data);
    forall k: nat | 4 * k + 4 <= |data|
      ensures Pixel(buf, k).r >= Pixel(buf, k).g >= Pixel(buf, k).b
    {
      SepiaWarm(Pixel(data, k));
    }
  }

  /** Cool tint: no pixel gains red or green or loses blue, and alpha is kept. */
  method CoolFilter(data: seq<Byte>) returns (buf: seq<Byte>)
    requires IsImageData(data)
    ensures buf == Filtered(CoolTint, data)
    ensures forall k: nat :: 4 * k + 4 <= |data| ==>
      && Pixel(buf, k).r <= Pixel(data, k).r
      && Pixel(buf, k).g <= Pixel(data, k).g
      && Pixel(buf, k).b >= Pixel(data, k).b
      && Pixel(buf, k).a == Pixel(data, k).a
  {
    buf := StrideLoop(CoolTint, data);
    forall k: nat | 4 * k + 4 <= |data|
      ensures Pixel(buf, k).r <= Pixel(data, k).r && Pixel(buf, k).g <= Pixel(data, k).g
      ensures Pixel(buf, k).b >= Pixel(data, k).b
    {
      CoolLaw(Pixel(data, k));
    }
  }

  /** The buffer part of the brightness/contrast adjustment: contrast, then
      brightness, on every colour channel; alpha is kept. Brightness 0 with
      contrast 0 returns the buffer unchanged; contrast -100 flattens every
      colour channel to 128 before brightness; contrast 0 with a
      non-negative brightness darkens no channel. */
  method BrightnessContrastLoop(data: seq<Byte>, brightnessValue: real, contrastValue: real)
    returns (buf: seq<Byte>)
    requires IsImageData(data)
    ensures buf == Filtered(BrightnessContrast(brightnessValue, contrastValue), data)
    ensures forall k: nat :: 4 * k + 4 <= |data| ==> Pixel(buf, k).a == Pixel(data, k).a
    ensures brightnessValue == 0.0 && contrastValue == 0.0 ==> buf == data
    ensures contrastValue == -100.0 ==> forall k: nat :: 4 * k + 4 <= |data| ==>
      var flat := BrightnessChannel(128, BrightnessFactor(brightnessValue));
      Pixel(buf, k) == Rgba(flat, flat, flat, Pixel(data, k).a)
    ensures contrastValue == 0.0 && brightnessValue >= 0.0 ==> forall k: nat :: 4 * k + 4 <= |data| ==>
      Pixel(buf, k).r >= Pixel(data, k).r && Pixel(buf, k).g >= Pixel(data, k).g && Pixel(buf, k).b >= Pixel(data, k).b
  {
    buf := StrideLoop(BrightnessContrast(brightnessValue, contrastValue), data);
    if brightnessValue == 0.0 && contrastValue == 0.0 {
      forall k: nat | 4 * k + 4 <= |data|
        ensures Pixel(buf, k) == Pixel(data, k)
      {
        var p := Pixel(data, k);
        AdjustNeutral(p.r);
        AdjustNeutral(p.g);
        AdjustNeutral(p.b);
      }
      PixelsDetermineBuffer(data, buf);
    }
    if contrastValue == -100.0 {
      forall k: nat | 4 * k + 4 <= |data|
        ensures Pixel(buf, k) == Rgba(BrightnessChannel(128, BrightnessFactor(brightnessValue)),
                                      BrightnessChannel(128, BrightnessFactor(brightnessValue)),
                                      BrightnessChannel(128, BrightnessFactor(brightnessValue)),
                                      Pixel(data, k).a)
      {
        var p := Pixel(data, k);
        AdjustFlatContrast(p.r, brightnessValue);
        AdjustFlatContrast(p.g, brightnessValue);
        AdjustFlatContrast(p.b, brightnessValue);
      }
    }
    if contrastValue == 0.0 && brightnessValue >= 0.0 {
      forall k: nat | 4 * k + 4 <= |data|
        ensures Pixel(buf, k).r >= Pixel(data, k).r && Pixel(buf, k).g >= Pixel(data, k).g
        ensures Pixel(buf, k).b >= Pixel(data, k).b
      {
        var p := Pixel(data, k);
        AdjustBrightnessOnly(p.r, brightnessValue);
        AdjustBrightnessOnly(p.g, brightnessValue);
        AdjustBrightnessOnly(p.b, brightnessValue);
      }
    }
  }

  /** Grayscale applied to its own output changes nothing. */
  lemma GrayscaleTwice(d: seq<Byte>)
    requires IsImageData(d)
    ensures Filtered(Gray, Filtered(Gray, d)) == Filtered(Gray, d)
  {
    var once := Filtered(Gray, d);
    var twice := Filtered(Gray, once);
    forall k: nat | 4 * k + 4 <= |once|
      ensures Pixel(once, k) == Pixel(twice, k)
    {
      GrayscaleIdempotent(Pixel(d, k));
    }
    PixelsDetermineBuffer(once, twice);
  }

  /** The one-pixel buffer [200, 150, 100, 255] becomes [150, 150, 150, 255]. */
  lemma GrayscaleBufferExample()
    ensures Filtered(Gray, [200, 150, 100, 255]) == [150, 150, 150, 255]
  {
    var d: seq<Byte> := [200, 150, 100, 255];
    assert Pixel(d, 0) == Rgba(200, 150, 100, 255);
    GrayscaleExample();
    PixelsDetermineBuffer(Filtered(Gray, d), [150, 150, 150, 255]);
  }

  /** White pixels through sepia come out (255, 255, 239), not white. */
  lemma SepiaWhiteBuffer(d: seq<Byte>)
    requires IsImageData(d)
    requires forall k: nat :: 4 * k + 4 <= |d| ==> Pixel(d, k).r == Pixel(d, k).g == Pixel(d, k).b == 255
    ensures forall k: nat :: 4 * k + 4 <= |d| ==>
      Pixel(Filtered(SepiaTone, d), k) == Rgba(255, 255, 239, Pixel(d, k).a)
  {
    forall k: nat | 4 * k + 4 <= |d|
      ensures Pixel(Filtered(SepiaTone, d), k) == Rgba(255, 255, 239, Pixel(d, k).a)
    {
      SepiaWhite(Pixel(d, k).a);
    }
  }
}
