/**
 The canvas-level entry points of the camera's image editing:
 `applyImageFilter` and `adjustBrightnessAndContrast`.

 A canvas is its width, height and current pixels. `getImageData` over the
 whole canvas copies those pixels into a working buffer, the filter loop
 rewrites the buffer, and `putImageData` at (0, 0) replaces every pixel of
 the canvas with the buffer: it copies, it does not blend.
 */
module Camera {
  import opened Uint8Clamp
  import opened Pixels
  import Filters

  datatype Option<T> = None | Some(value: T)

  datatype Canvas = Canvas(width: nat, height: nat, pixels: seq<Byte>)

  /** The drawing surface always holds exactly `width * height` RGBA pixels. */
  predicate Valid(c: Canvas) {
    |c.pixels| == 4 * (c.width * c.height)
  }

  /** The DOMException `getImageData` raises for a zero-width or zero-height
      rectangle (HTML Living Standard, `getImageData` step 1). It is raised
      before the `try` block, so it escapes both entry points. */
  datatype DomException = IndexSizeError

  /** What an entry point does: return a boolean, leaving the canvas (if
      any) in the given state, or throw. */
  datatype Outcome =
    | Returned(ok: bool, canvas: Option<Canvas>)
    | Threw(error: DomException)

  /** The filter names `applyImageFilter` recognises. */
  datatype FilterKind = Grayscale | Sepia | Vintage | Cool

  function TagOf(kind: FilterKind): string {
    match kind
    case Grayscale => "grayscale"
    case Sepia => "sepia"
    case Vintage => "vintage"
    case Cool => "cool"
  }

  /** The `switch` on the filter name: exact, case-sensitive string matches. */
  function ParseFilterKind(tag: string): (r: Option<FilterKind>)
    ensures r.Some? <==> tag in {"grayscale", "sepia", "vintage", "cool"}
    ensures r.Some? ==> TagOf(r.value) == tag
  {
    if tag == "grayscale" then Some(Grayscale)
    else if tag == "sepia" then Some(Sepia)
    else if tag == "vintage" then Some(Vintage)
    else if tag == "cool" then Some(Cool)
    else None
  }

  /** Every filter name is recognised as the filter it names. */
  lemma ParseTagOf(kind: FilterKind)
    ensures ParseFilterKind(TagOf(kind)) == Some(kind)
  {
  }

  /** The transform a filter applies to the buffer; vintage is sepia on the
      buffer (its vignette is drawn on the canvas, not into the buffer). */
  function BufferTransform(kind: FilterKind): Transform {
    match kind
    case Grayscale => Gray
    case Sepia => SepiaTone
    case Vintage => SepiaTone
    case Cool => CoolTint
  }

  /** `applyImageFilter(canvas, filterType)`. The vignette of the vintage
      filter is a canvas drawing operation this model cannot see; it is the
      parameter `vignette`, any change to the canvas pixels whatsoever.

      A missing canvas returns false; an empty canvas throws IndexSizeError
      from `getImageData`; an unrecognised name returns false before
      `putImageData`, so the canvas is unchanged; a recognised name returns
      true with the canvas replaced by the filtered buffer, and for vintage
      that is exactly the sepia result, whatever the vignette drew. */
  method ApplyImageFilter(canvas: Option<Canvas>, filterType: string, vignette: seq<Byte> -> seq<Byte>)
    returns (r: Outcome)
    requires canvas.Some? ==> Valid(canvas.value)
    ensures canvas.None? ==> r == Returned(false, None)
    ensures canvas.Some? && (canvas.value.width == 0 || canvas.value.height == 0) ==> r == Threw(IndexSizeError)
    ensures canvas.Some? && canvas.value.width > 0 && canvas.value.height > 0 ==>
      match ParseFilterKind(filterType)
      case None => r == Returned(false, canvas)
      case Some(kind) =>
        r == Returned(true, Some(canvas.value.(pixels := Filtered(BufferTransform(kind), canvas.value.pixels))))
    ensures filterType == "vintage" && canvas.Some? && canvas.value.width > 0 && canvas.value.height > 0 ==>
      r == Returned(true, Some(canvas.value.(pixels := Filtered(SepiaTone, canvas.value.pixels))))
  {
    if canvas.None? {
      return Returned(false, None);
    }
    var c := canvas.value;
    if c.width == 0 || c.height == 0 {
      return Threw(IndexSizeError);
    }
    // getImageData(0, 0, width, height): a copy of all pixels
    var data := c.pixels;
    assert IsImageData(data);
    match ParseFilterKind(filterType) {
      case None =>
        return Returned(false, canvas);
      case Some(Grayscale) =>
        data := Filters.GrayscaleFilter(data);
      case Some(Sepia) =>
        data := Filters.SepiaFilter(data);
      case Some(Vintage) =>
        data := Filters.SepiaFilter(data);
        // addVignetteEffect draws on the canvas, not into `data`
        c := c.(pixels := vignette(c.pixels));
      case Some(Cool) =>
        data := Filters.CoolFilter(data);
    }
    // putImageData(imageData, 0, 0): every pixel replaced by the buffer
    c := c.(pixels := data);
    return Returned(true, Some(c));
  }

  /** `adjustBrightnessAndContrast(canvas, brightness, contrast)`: a missing
      canvas returns false; an empty canvas throws IndexSizeError from
      `getImageData`; otherwise the canvas pixels are replaced by the
      adjusted buffer and the result is true. */
  method AdjustBrightnessAndContrast(canvas: Option<Canvas>, brightnessValue: real, contrastValue: real)
    returns (r: Outcome)
    requires canvas.Some? ==> Valid(canvas.value)
    ensures canvas.None? ==> r == Returned(false, None)
    ensures canvas.Some? && (canvas.value.width == 0 || canvas.value.height == 0) ==> r == Threw(IndexSizeError)
    ensures canvas.Some? && canvas.value.width > 0 && canvas.value.height > 0 ==>
      r == Returned(true, Some(canvas.value.(pixels :=
        Filtered(BrightnessContrast(brightnessValue, contrastValue), canvas.value.pixels))))
    ensures (canvas.Some? && canvas.value.width > 0 && canvas.value.height > 0
             && brightnessValue == 0.0 && contrastValue == 0.0) ==> r == Returned(true, canvas)
  {
    if canvas.None? {
      return Returned(false, None);
    }
    var c := canvas.value;
    if c.width == 0 || c.height == 0 {
      return Threw(IndexSizeError);
    }
    var data := c.pixels;
    assert IsImageData(data);
    data := Filters.BrightnessContrastLoop(data, brightnessValue, contrastValue);
    c := c.(pixels := data);
    return Returned(true, Some(c));
  }
}
