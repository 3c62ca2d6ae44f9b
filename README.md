# CanvasService pixel-buffer model

A Dafny model of the pixel-buffer logic in ColorSlicer's Angular `CanvasService`
(`angular/src/app/services/canvas.service.ts`). The service works on a canvas
element, its 2-D rendering context and the application's canvas store. The model
covers these parts:

- **Encoding a grid (`drawPixels`).** A grid of pixels is written into a fresh
  `Uint8ClampedArray` buffer that is as large as the canvas *before* the resize.
  Channel `k` of pixel `(i, j)` goes to `(i * rowLength + j) * pixel.length + k`.
  Stores past the end of the buffer are dropped, and values are clamped into
  0..255. The canvas is then cleared and resized to the grid's columns and rows.
  Image smoothing is turned off, the buffer is put on the canvas at the origin,
  and the canvas is encoded as a data URL. On a canvas with a width and a
  height, an empty grid returns the zeroed buffer and `""`, and the canvas is
  not touched.
- **Decoding a buffer (`imageDataToPixels`).** The decoder makes one pixel for
  each group of four bytes, in order.
- **Scoped identity transform (`useCanvas`, `resizeCanvasToIdentity`).** The
  service snapshots the bitmap, switches to the identity transform and runs the
  callback. It then puts back the old transform and the snapshot, and returns
  the callback's result.
- **Hit testing (`getPixelFromMouseEvent`, `getColorAtPosition`).** The page
  position minus the element offset is looked up in the canvas pixels, cut into
  rows of the canvas width.
- **Zero-area canvases.** `getImageData` and `createImageData` throw an
  `IndexSizeError` DOMException when asked for a rectangle with a zero width
  or height. So `useCanvas`, `getImageData`, `drawPixels` (even for an empty
  grid), `getColorAtPosition` and `getPixelFromMouseEvent` throw on such a
  canvas before changing anything, and the model returns that error. The
  `HitTest` lemmas describe the pure lookup on any size; the service reaches
  it only on a canvas with a width and a height.
- **Small operations.** `pixelToColor`, `reset`, `resetImages`, the
  listening-flag part of the two mouse-listener operations, and the
  "No context" guards.

Modules:

- `Pixels` (pixels.dfy): bytes, pixels, grids and row-major flattening.
- `Encoding` (encoding.dfy): the stores the encoder makes, the clamped buffer
  they produce and the decoder.
- `Surfaces` (surface.dfy): the transform, the surface record `{transform,
  width, height, bitmap}`, the clipping rule of `putImageData`, and the
  `ImageData` and `Context` classes. `Context` stands for the browser's canvas
  and context.
- `Colors` (color.dfy): `pixelToColor` and decimal formatting.
- `HitTest` (hittest.dfy): `to2D` and the position lookup.
- `CanvasServices` (canvas_service.dfy): the `CanvasStore` and `CanvasService`
  classes.

What the proofs establish:

- For a rectangular grid, the t-th store writes index t. So the indices are
  distinct and cover exactly `[0, rows*cols*4)`.
- When the buffer holds exactly `rows*cols*4` bytes, decoding the encoded
  buffer gives the grid's pixels in row-major order (clamped). For byte-valued
  pixels, the result is exactly the grid.
- `useCanvas` runs the callback under `{a:1, b:0, c:0, d:1, e:0, f:0}`. It
  restores the prior transform and returns the callback's result. It puts the
  snapshot back, clipped to whatever size the callback left: a pixel the
  snapshot covers gets the snapshot's bytes, any other keeps the callback's.
  So the bitmap is restored exactly when the callback keeps the canvas size.
- `pixelToColor` writes the raw alpha channel (0..255). Distinct pixels give
  distinct strings.
- The hit test returns null exactly when the outer index is off the row list.
  An inner index that is out of range yields `undefined`, not null.

## Model

| member | source | states |
|---|---|---|
| `CanvasServices.CanvasService.UseCanvas` | angular/src/app/services/canvas.service.ts:20-27 | On a canvas with no width or no height the snapshot throws an IndexSizeError and nothing changes. Otherwise the callback runs on the prior state with the identity transform, and its result is returned unchanged. Afterwards the transform is the prior one and the size is the one the callback left. The bitmap is the snapshot put back over the callback's bitmap. If the callback keeps the size, the whole surface equals its prior state. |
| `CanvasServices.CanvasService.ResizeCanvasToIdentity` | angular/src/app/services/canvas.service.ts:125-129 | Returns the transform that was in force. The context now has the identity transform, and nothing else changed. |
| `CanvasServices.CanvasService.ResizeCanvas` | angular/src/app/services/canvas.service.ts:119-123 | The canvas becomes `width*a` by `height*d`, with a cleared bitmap. Under the identity transform it is exactly `width` by `height`. |
| `CanvasServices.CanvasService.ClearContext` | angular/src/app/services/canvas.service.ts:115-117 | Every byte of the bitmap becomes 0. Size and transform are unchanged. |
| `CanvasServices.CanvasService.Predraw` | angular/src/app/services/canvas.service.ts:78-82 | The canvas is cleared and resized to the scaled size, and image smoothing is off. |
| `CanvasServices.CanvasService.DrawImageData` | angular/src/app/services/canvas.service.ts:89-92 | After predraw, the bitmap is the image data clipped to the new canvas. Under the identity transform with matching size, the bitmap equals the image data. |
| `CanvasServices.CanvasService.DrawPixels` | angular/src/app/services/canvas.service.ts:94-113 | It fails with an IndexSizeError, leaving the canvas alone, exactly when the canvas has no width or no height, whatever the grid. Otherwise the buffer has the canvas's size from before the resize and holds the encoding of the grid. An empty grid gives `""` and leaves the canvas unchanged. Otherwise the canvas is `cols*a` by `rows*d` with smoothing off, the bitmap is the buffer clipped to it, and the data URL encodes the new canvas. Under the identity transform with the old size equal to the grid, the bitmap is the buffer. |
| `CanvasServices.CanvasService.StoreGrid` | angular/src/app/services/canvas.service.ts:99-106 | The outer loop leaves the buffer with every store of the grid applied, row after row. |
| `CanvasServices.CanvasService.StoreRow` | angular/src/app/services/canvas.service.ts:99-106 | The row callback leaves the buffer with every store of row i applied in order. |
| `CanvasServices.CanvasService.StorePixel` | angular/src/app/services/canvas.service.ts:100-105 | The pixel callback leaves the buffer with channel k stored, clamped, at `(i*rowLength+j)*4+k`. A store past the end is dropped. |
| `Encoding.Store` | angular/src/app/services/canvas.service.ts:103 | One element store keeps the length, puts the clamped value at an in-range index and leaves every other byte as it was, and is dropped at an index past the end. |
| `Encoding.StoreAll` | angular/src/app/services/canvas.service.ts:103 | Element stores into the clamped array never change its length. |
| `Encoding.GridWritesInOrder` | angular/src/app/services/canvas.service.ts:99-106 | For a rectangular grid there are `rows*cols*4` stores, and the t-th one writes index t. The indices are distinct and cover `[0, rows*cols*4)`. |
| `Encoding.GridWritesValues` | angular/src/app/services/canvas.service.ts:99-106 | For any grid shape, the values stored are the grid's channels in row-major order. |
| `Encoding.EncodeRectangular` | angular/src/app/services/canvas.service.ts:95-106 | For a rectangular grid, byte q of the buffer is the clamped q-th channel of the grid if q < `rows*cols*4`, and 0 otherwise. Stores beyond the buffer are lost. |
| `Encoding.EncodeExact` | angular/src/app/services/canvas.service.ts:95-106 | When the buffer is exactly `rows*cols*4` bytes long, it is the grid's clamped channels in row-major order. |
| `Encoding.Encode` | angular/src/app/services/canvas.service.ts:95-106 | The buffer keeps the length it was created with (the canvas size before the resize), and an empty grid leaves it all zeros. |
| `Encoding.Decode` | angular/src/app/services/canvas.service.ts:68-76 | Gives `data.length/4` pixels, and pixel n is bytes `4n..4n+3`. |
| `Encoding.DecodeChannels` | angular/src/app/services/canvas.service.ts:68-76 | Decoding the clamped channel bytes of some pixels gives those pixels, clamped. |
| `Encoding.RoundTrip` | angular/src/app/services/canvas.service.ts:68-106 | Decoding the buffer that drawPixels wrote for a rectangular grid, with a buffer of exactly `rows*cols*4` bytes, gives the grid's pixels in row-major order, clamped. |
| `Encoding.RoundTripBytes` | angular/src/app/services/canvas.service.ts:68-106 | For byte-valued pixels, the round trip gives the row-major concatenation of the grid exactly. |
| `Pixels.FlattenAt` | angular/src/app/services/canvas.service.ts:102 | In the row-major concatenation of a rectangular grid, cell (i, j) is at `i*cols + j`. |
| `CanvasServices.CanvasService.ImageDataToPixels` | angular/src/app/services/canvas.service.ts:68-76 | Returns `data.length/4` pixels, and pixel n is `data[4n..4n+3]`. The buffer is only read. |
| `Surfaces.Context.GetImageData` | angular/src/app/services/canvas.service.ts:21 | Fails with an IndexSizeError exactly when the canvas has no width or no height; otherwise returns a fresh copy of the whole bitmap with the canvas's size. |
| `Surfaces.Context.CreateImageData` | angular/src/app/services/canvas.service.ts:95 | Fails with an IndexSizeError exactly when either dimension is 0; otherwise returns a fresh all-zero buffer of that size. |
| `CanvasServices.CanvasService.GetImageData` | angular/src/app/services/canvas.service.ts:37-43 | Fails with an IndexSizeError, leaving the canvas alone, exactly when the canvas has no width or no height. Otherwise returns a fresh copy of the whole bitmap and the data URL of the canvas under the identity transform. The canvas is left exactly as it was. |
| `Surfaces.BlitSameSize` | angular/src/app/services/canvas.service.ts:25 | Putting back a snapshot of the canvas's own size restores the bitmap exactly. |
| `Surfaces.Blit` | angular/src/app/services/canvas.service.ts:25 | `putImageData` at the origin (also used at lines 91 and 110) keeps the canvas's own size: the source is clipped to the canvas. |
| `Surfaces.BlitAt` | angular/src/app/services/canvas.service.ts:25 | Channel k of canvas pixel (x, y) is the source's channel k of pixel (x, y) when the source covers that pixel, and the canvas's own byte otherwise. |
| `CanvasServices.CanvasService.ResetImages` | angular/src/app/services/canvas.service.ts:131-133 | The displayed image becomes null. |
| `CanvasServices.CanvasService.ListenForMouseEvents` | angular/src/app/services/canvas.service.ts:135-154 | With no context it fails with "No context" and leaves the flag alone. Otherwise the listening flag becomes true. |
| `CanvasServices.CanvasService.RemoveMouseEventListener` | angular/src/app/services/canvas.service.ts:156-167 | With no context it fails with "No context" and leaves the flag alone. Otherwise the listening flag becomes false. |
| `HitTest.CanvasPosition` | angular/src/app/services/canvas.service.ts:175-178 | The canvas-local position plus the element offset is the page position. |
| `CanvasServices.CanvasService.GetPixelFromMouseEvent` | angular/src/app/services/canvas.service.ts:169-180 | With no context it fails with "No context". On a canvas with no width or no height it fails with an IndexSizeError. Otherwise it looks up the page position minus the element offset, and the canvas is unchanged. |
| `CanvasServices.CanvasService.GetColorAtPosition` | angular/src/app/services/canvas.service.ts:182-195 | With no context it fails with "No context". On a canvas with no width or no height it fails with an IndexSizeError. Otherwise the result is the written lookup in the canvas pixels cut into rows of the canvas width, and the canvas is unchanged. |
| `HitTest.To2D` | angular/src/app/services/canvas.service.ts:188 | The assumed `to2D`: every row it makes holds between 1 and `width` pixels. |
| `HitTest.To2DFlatten` | angular/src/app/services/canvas.service.ts:188 | For a positive width, concatenating the rows gives the pixel list back: nothing is lost, reordered or invented. |
| `HitTest.To2DShape` | angular/src/app/services/canvas.service.ts:188 | Cutting `width*height` pixels gives `height` rows of exactly `width` pixels. |
| `HitTest.To2DAt` | angular/src/app/services/canvas.service.ts:188 | Row y, column x of the cut list is pixel `y*width + x`. |
| `HitTest.ColorAtPosition` | angular/src/app/services/canvas.service.ts:189-194 | The written lookup is null exactly when `position[0]` is not an index of the row list, and undefined exactly when that row exists but `position[1]` is not an index in it; otherwise it finds the entry at `[position[0]][position[1]]`. |
| `HitTest.ColorAtPositionOnCanvas` | angular/src/app/services/canvas.service.ts:188-194 | On a width×height canvas the result is null exactly when `position[0]` is not a row index. It is undefined when the row exists but `position[1]` is not a column index. Otherwise it is the pixel in row `position[0]`, column `position[1]`. |
| `HitTest.PixelAtPoint` | angular/src/app/services/canvas.service.ts:189-194 | The corrected lookup never yields undefined. It is the written lookup at `(y, x)`, with undefined read as null: the written code swaps the coordinates. |
| `HitTest.ColorAtPositionMissesPixel` | angular/src/app/services/canvas.service.ts:188-194 | On a 2×1 canvas, position (1, 0) gives null as written, while pixel (1, 0) exists. |
| `HitTest.PixelAtPointOnCanvas` | angular/src/app/services/canvas.service.ts:182-195 | The intended lookup finds pixel (x, y) exactly when `0 <= x < width` and `0 <= y < height`, and is null otherwise. |
| `Colors.PixelToColor` | angular/src/app/services/canvas.service.ts:197-199 | The colour string starts with `rgba(`; the spelling of one pixel, opaque red, is pinned down by `Colors.OpaqueRedColor`, and the information content of every string by `Colors.PixelToColorInjective`. |
| `Colors.ParseIntToString` | angular/src/app/services/canvas.service.ts:198 | Each channel is written as a well-formed decimal integer that reads back as the channel value. |
| `Colors.PixelToColorInjective` | angular/src/app/services/canvas.service.ts:197-199 | The `rgba(r, g, b, a)` string determines the pixel. |
| `Colors.OpaqueRedColor` | angular/src/app/services/canvas.service.ts:197-199 | Opaque red is written `rgba(255, 0, 0, 255)`: alpha is the raw 0..255 value, not scaled to 0..1. |
| `CanvasServices.CanvasService.Reset` | angular/src/app/services/canvas.service.ts:201-207 | Both images become null and both slider values become 1. The listening flag becomes false, or, with no context, the call fails with "No context" after the other fields have been reset. |

## Findings

| source | as written | input that shows it | evidently intended | confidence | as-written member | corrected member |
|---|---|---|---|---|---|---|
| angular/src/app/services/canvas.service.ts:188-194 | `pixels2D[position[0]][position[1]]`: the x coordinate picks the row and y the column, because `to2D` cuts the pixels into rows of the canvas width | canvas 2 wide and 1 high, position (1, 0): null, although pixel (1, 0) exists | the pixel in column x, row y; null when x or y is off the canvas | medium: `to2D` is not part of this model and is taken to cut into rows; not executed | `HitTest.ColorAtPositionMissesPixel` | `HitTest.PixelAtPointOnCanvas` |

`CanvasService.GetColorAtPosition` and `GetPixelFromMouseEvent` keep the lookup
as written, so that they describe the code. `HitTest.PixelAtPoint` is the
corrected lookup; its contract relates the two.

Two behaviours of the code may surprise a caller; the model follows the code:

- An inner index that is out of range gives `undefined`, not null.
- `useCanvas` does not restore the canvas size. A callback that resizes the
  canvas, as `drawPixels` does inside `createImageFromPixels`, leaves the new
  size behind, with the snapshot clipped onto it.

## Left out

- `createImage` and `createImageFromPixels`: image decoding is asynchronous, through `onload`.
- `drawImage` and `getImageDataFromImage`: `context.drawImage` rasterises an HTMLImageElement in the browser.
- `canvas.toDataURL()`: the PNG data-URL encoder is foreign code. It is an opaque function field of `Context`, applied to the surface state.
- The observables, `addEventListener` and `removeEventListener` calls, and completion of the mouse-move subscriber in `listenForMouseEvents` and `removeMouseEventListener`: this is event plumbing, so only the listening flag and the guard are modelled. The remove call passes fresh handlers, so it removes nothing anyway.
- CanvasServices.CanvasService.ResizeCanvas: transform coefficients are integers, and the method requires non-negative `a` and `d`. Fractional and negative scale factors (floating-point products) are not modelled.
- CanvasServices.CanvasService.Predraw: the same restriction on `a` and `d` applies.
- CanvasServices.CanvasService.DrawImageData: the same restriction on `a` and `d` applies.
- CanvasServices.CanvasService.DrawPixels: the same restriction on `a` and `d` applies. In use, it runs under the identity transform inside `useCanvas`.
- Setting the canvas size also resets the context state (the transform among it) in the browser. That reset is not modelled; only the cleared, resized bitmap is.
- `clearRect` clears the whole bitmap. Under a non-identity transform, the browser clears a transformed rectangle instead. In `predraw` the resize that follows clears everything anyway.
- Colors.PixelToColor: every channel is written as a plain decimal integer, whereas JavaScript's number-to-string conversion switches to exponent form (`1e+21`) from magnitude 10^21 up and cannot hold integers beyond 2^53 exactly; channels read back from a canvas are bytes, so the hit-test path is unaffected.
- Colors.ParseIntToString: proved for every integer, but it matches JavaScript's output only below magnitude 10^21 (and exactly only up to 2^53), for the same reason.
- Pixel channel values are integers. The rounding a `Uint8ClampedArray` applies to fractional values is not modelled. A pixel always has four channels, because the `Pixel` model file is not part of this model and its constructor takes four values.
- `ArrayService.to2D` is not part of this model. It is taken to cut the pixel list into consecutive rows of the given width.
- CanvasServices.CanvasService.UseCanvas: the bitmap is modelled as exact, un-premultiplied bytes, so `putImageData` followed by `getImageData` is lossless here. Browsers may store premultiplied alpha, so in a browser the exact restoration is guaranteed only for opaque pixels (alpha 255).
- CanvasServices.CanvasService.DrawImageData: the same lossless-bitmap simplification; the bitmap equals the image data exactly only for opaque pixels in a browser.
- CanvasServices.CanvasService.DrawPixels: the same lossless-bitmap simplification applies to the bitmap after `putImageData`.
- A `useCanvas` callback is a total function from surface state to a new state and a result. A callback that throws (which skips the restore), touches the smoothing flag, or re-enters the service is not modelled.
- Mouse page coordinates and element offsets are integers.
- The rest of `CanvasStore`, its signals, and the display-page component are Angular glue.
