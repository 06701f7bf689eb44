# Camera pixel transform engine

A Dafny model of the image-editing core of the camera page script
`scripts/www/assets/js/camera.js`:

- the four buffer loops (`applyGrayscaleFilter`, `applySepiaFilter`,
  `applyCoolFilter` and the buffer part of `adjustBrightnessAndContrast`);
- the filter dispatcher `applyImageFilter`;
- the canvas-level `adjustBrightnessAndContrast`.

A canvas's pixels are an `ImageData.data` buffer: a `Uint8ClampedArray` of
RGBA bytes, four per pixel, whose length is always `4 * width * height`.
Every store into it goes through ToUint8Clamp (ECMA-262, 2023 edition,
section 7.1.12): clamp to [0, 255], then round half to even. The model
works on exact `real` numbers and applies that conversion explicitly at
every store.

Files:

- `uint8clamp.dfy` (module `Uint8Clamp`): the byte type, `Math.min` and
  `Math.max`, and `Clamp8` = ToUint8Clamp with its characterisation (nearest
  byte, ties to even, order-preserving).
- `pixels.dfy` (module `Pixels`): the RGBA pixel, the per-pixel formulas of
  each filter, and `Filtered`, the whole-buffer reference result.
- `pixellaws.dfy` (module `PixelLaws`): what each formula guarantees.
- `filters.dfy` (module `Filters`): the stride-4 loops and their buffer-level
  guarantees.
- `camera.dfy` (module `Camera`): the canvas, the filter-name switch, and the
  two canvas entry points, including the error paths.

The buffer loops write the buffer in place. In the model the buffer is a
value: the loop variable `buf` holds its contents, and the method returns
them. Each loop reads the pixel at index `i`, computes its new colour from
that pixel alone, and stores R, G and B back; alpha (byte `i+3`) is never
written. Sepia reads all three channels before its first store. Brightness
reads the value that the contrast step stored, already rounded to a byte.
`Step` and the per-pixel formulas capture both.

For the `vintage` filter, the buffer gets the sepia transform and the
vignette is then painted onto the canvas. `putImageData` then replaces
every canvas pixel with the buffer, so the vignette leaves no trace in the pixels. In
`ApplyImageFilter` the vignette is an arbitrary function `vignette` on the
canvas pixels, and the contract shows the result is the sepia result for
every such function.

Facts about the code that follow from the formulas and the byte store:

- White through sepia is (255, 255, 239), not white. Red and green
  saturate at 255, but the blue coefficients sum to 0.937, so blue is
  238.935, stored as 239.
- Grayscale stores the mean of R, G and B rounded to the nearest byte; it
  does not floor it. The mean of three whole numbers has a fractional part
  of 0, 1/3 or 2/3, so a tie never arises and half-to-even and half-up
  rounding agree here.
- An unknown filter name makes `applyImageFilter` return `false`; it does
  not throw, and the canvas is left as it was.
- A canvas with zero width or height makes `getImageData` throw
  `IndexSizeError` (HTML Living Standard, `getImageData`, step 1). The call
  sits before the `try` block, so both entry points let it escape.

## Model

| member | source | states |
|---|---|---|
| Uint8Clamp.Clamp8 | scripts/www/assets/js/camera.js:158-160 | storing a number into the pixel buffer yields 0 for inputs at or below 0, 255 for inputs at or above 255, otherwise a byte within 1/2 of the input, and an even byte on an exact tie |
| Uint8Clamp.Clamp8Nearest | scripts/www/assets/js/camera.js:157-160 | inside [0,255] no byte lies closer to the stored number than the byte actually stored |
| Uint8Clamp.Clamp8Unique | scripts/www/assets/js/camera.js:157-160 | the nearest byte that is even on a tie is exactly the stored byte, so the rounding is fully determined |
| Uint8Clamp.Clamp8OfByte | scripts/www/assets/js/camera.js:180-182 | a whole number in [0,255] is stored unchanged |
| Uint8Clamp.Clamp8Monotone | scripts/www/assets/js/camera.js:171-173 | storing never reverses the order of two numbers |
| Uint8Clamp.Clamp8Tie | scripts/www/assets/js/camera.js:215-217 | n + 0.5 is stored as whichever of n and n+1 is even, so 127.5 becomes 128 |
| Pixels.Step | scripts/www/assets/js/camera.js:155-184 | no per-pixel transform changes the alpha byte |
| Pixels.MapPixels | scripts/www/assets/js/camera.js:166-175 | a per-pixel map keeps the buffer length, and pixel k of its result is the image of pixel k of the input |
| Pixels.Filtered | scripts/www/assets/js/camera.js:155-184 | the filtered buffer has the input's length; pixel k of the output depends only on pixel k of the input; every alpha byte (index 4k+3) is unchanged |
| Pixels.PixelsDetermineBuffer | scripts/www/assets/js/camera.js:213 | two equal-length RGBA buffers with the same pixels are equal byte for byte |
| PixelLaws.GrayscaleLaw | scripts/www/assets/js/camera.js:155-161 | grayscale stores one value into R, G and B, namely Clamp8((R+G+B)/3) of the original channels; it lies between the smallest and largest original channel; alpha is kept |
| PixelLaws.GrayscaleRoundsNearest | scripts/www/assets/js/camera.js:157-160 | the stored gray value is the mean rounded to the nearest byte, floor(mean + 1/2), and lies strictly within 1/2 of the mean, so no tie occurs |
| PixelLaws.GrayscaleIdempotent | scripts/www/assets/js/camera.js:157-160 | a gray pixel passes through grayscale unchanged |
| PixelLaws.GrayscaleExample | scripts/www/assets/js/camera.js:157-160 | (200, 150, 100, 255) becomes (150, 150, 150, 255) |
| PixelLaws.SepiaWhite | scripts/www/assets/js/camera.js:171-173 | white becomes (255, 255, 239): red and green saturate, blue is 238.935 rounded |
| PixelLaws.SepiaBlack | scripts/www/assets/js/camera.js:171-173 | black stays black under sepia |
| PixelLaws.SepiaWarm | scripts/www/assets/js/camera.js:171-173 | every sepia output has R >= G >= B, whatever the input |
| PixelLaws.CoolLaw | scripts/www/assets/js/camera.js:180-182 | cool never raises R or G, never lowers B, and keeps alpha |
| PixelLaws.AdjustNeutral | scripts/www/assets/js/camera.js:210-222 | brightness 0 with contrast 0 returns every channel unchanged |
| PixelLaws.AdjustFlatContrast | scripts/www/assets/js/camera.js:211-217 | contrast -100 makes every channel 128 before brightness, and the final value is brightness applied to 128 |
| PixelLaws.FullContrastHalves | scripts/www/assets/js/camera.js:211-217 | at contrast 100 each channel v from 64 to 191 becomes exactly 2v - 127.5 before the store, and is stored as its even neighbour 2v - 128, e.g. 66 as 4 |
| PixelLaws.AdjustBrightnessOnly | scripts/www/assets/js/camera.js:219-222 | with contrast 0, a non-negative brightness never lowers a channel and a non-positive one never raises it |
| PixelLaws.ContrastValueMonotone | scripts/www/assets/js/camera.js:215-217 | before the store, the contrast formula keeps the order of its inputs when the contrast factor is not negative |
| PixelLaws.ContrastMonotone | scripts/www/assets/js/camera.js:215-217 | the stored contrast result keeps the order of channel values when the contrast factor is not negative |
| PixelLaws.BrightnessMonotone | scripts/www/assets/js/camera.js:220-222 | the brightness step keeps the order of channel values |
| PixelLaws.AdjustMonotone | scripts/www/assets/js/camera.js:210-222 | for any contrast of at least -100, a darker input channel never comes out brighter after the adjustment |
| Filters.StrideLoop | scripts/www/assets/js/camera.js:155-223 | the stride-4 in-place loop leaves exactly the reference result: every pixel transformed from its own original bytes, alpha untouched |
| Filters.GrayscaleFilter | scripts/www/assets/js/camera.js:155-162 | after the loop every pixel has R = G = B = Clamp8 of its original mean, with alpha kept |
| Filters.SepiaFilter | scripts/www/assets/js/camera.js:165-175 | after the loop every pixel is the sepia map of its original colour, with R >= G >= B and alpha kept |
| Filters.CoolFilter | scripts/www/assets/js/camera.js:178-184 | after the loop no pixel has gained red or green or lost blue, and alpha is kept |
| Filters.BrightnessContrastLoop | scripts/www/assets/js/camera.js:210-223 | contrast then brightness on every colour channel with alpha kept; (0, 0) returns the buffer unchanged; contrast -100 flattens every colour channel to brightness applied to 128; contrast 0 with non-negative brightness darkens no channel |
| Filters.GrayscaleTwice | scripts/www/assets/js/camera.js:155-162 | grayscale on an already gray buffer changes nothing |
| Filters.GrayscaleBufferExample | scripts/www/assets/js/camera.js:155-162 | the buffer [200, 150, 100, 255] becomes [150, 150, 150, 255] |
| Filters.SepiaWhiteBuffer | scripts/www/assets/js/camera.js:165-175 | every white pixel of a buffer comes out (255, 255, 239) with its alpha |
| Camera.ParseFilterKind | scripts/www/assets/js/camera.js:127-144 | exactly the four names grayscale, sepia, vintage and cool are recognised, each as the filter it spells |
| Camera.ParseTagOf | scripts/www/assets/js/camera.js:127-141 | each filter's own name selects that filter |
| Camera.ApplyImageFilter | scripts/www/assets/js/camera.js:119-152 | no canvas returns false; an empty canvas throws IndexSizeError; an unknown name returns false with the canvas untouched; a known name returns true with the canvas replaced by the filtered buffer; vintage leaves exactly the sepia result whatever the vignette drew |
| Camera.AdjustBrightnessAndContrast | scripts/www/assets/js/camera.js:202-231 | no canvas returns false; an empty canvas throws IndexSizeError; otherwise true with the canvas replaced by the adjusted buffer, and brightness 0 with contrast 0 leaves the canvas as it was |

## Left out

- `initCamera`, `updateCameraSettings`, `setFlashMode`, `setCameraFocus`: media-device and track-constraint calls on `navigator.mediaDevices` and the global `window.currentStream`. They are asynchronous platform calls with no logic beyond null and capability checks. `setCameraFocus` computes normalised coordinates and never uses them.
- `captureImageFromVideo`: canvas `drawImage` and JPEG encoding by `toDataURL` are foreign rendering and encoding calls.
- `addVignetteEffect`: radial-gradient compositing onto the canvas is not visible to the model. It appears only as the arbitrary `vignette` parameter of `ApplyImageFilter`, whose effect on the pixels `putImageData` overwrites. It also leaves the context's `fillStyle` set to its gradient; `Canvas` models only width, height and pixels, so this state is not represented.
- `saveImageToDevice`, `shareImage`: DOM download links, `fetch` of a data URL, the Web Share API and `Date` timestamps are I/O.
- Numbers are exact reals. The model has no IEEE-754 rounding of products such as `v * 0.9` or `(v / 255 - 0.5) * f + 0.5`, and no NaN or infinities. So `Clamp8`, the identity at brightness 0 and contrast 0, and every other arithmetic law hold for the idealised arithmetic. With doubles, the contrast step can land just off an exact half and store the other neighbour. At contrast 100 every channel from 64 to 191 is an exact half in the model (`FullContrastHalves`). In binary64, `66 / 255` is not exact, and the expression for 66 comes out just above 4.5, so the program stores 5 where the model gives 4; many of the other halves at that setting move up the same way, and other contrast settings have a few such channels. Sepia ties are rarely affected. Grayscale, cool, brightness at integer settings and the (0, 0) identity agree with double arithmetic.
- Brightness and contrast are numbers. If a caller passed strings, `contrastValue + 100` would concatenate them; the callers are not part of this model.
- `getContext('2d')` returning `null`, and a cross-origin (tainted) canvas making `getImageData` throw `SecurityError`, are not modelled. Both depend on canvas state the script never sets.
- The `catch` branches of both entry points are not modelled, because no exception can reach them. Inside their `try` blocks the loops only index a typed array, and `putImageData` is given a buffer of the canvas's own size. The `addVignetteEffect` call of the vintage filter cannot throw either: its outer radius is positive for a non-empty canvas, its colour-stop offsets 0, 0.7 and 1 lie in [0, 1], and its colours are valid CSS colour strings.
- Camera.ApplyImageFilter, Camera.AdjustBrightnessAndContrast: the canvas is assumed to read back through `getImageData` exactly the bytes `putImageData` last stored. That holds for fully opaque pixels, such as camera frames. A canvas that stores premultiplied alpha may return different colour bytes for pixels that are not fully opaque; for example, an adjusted transparent pixel [128, 128, 128, 0] may read back as [0, 0, 0, 0].
- The buffer is modelled as a value that the loops rewrite, not a shared mutable `Uint8ClampedArray`. The script creates a fresh `ImageData` for each call and does not alias it, so nothing else can observe the difference.
