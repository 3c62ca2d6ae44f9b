/**
 * `CanvasService`: the pixel-buffer logic over a bound canvas context and the
 * application's canvas store.
 */
module CanvasServices {
  import opened Wrappers
  import opened Pixels
  import opened Encoding
  import opened Surfaces
  import opened HitTest

  /**
   * What the service's lookups can throw: its own `new Error("No context")`,
   * or a DOMException from the canvas context.
   */
  datatype CanvasError = NoContext | DomError(exception: DomException)

  /** The `{ imageData, dataUrl }` pair that `drawPixels` and `getImageData` return. */
  datatype ImageDataAndUrl = ImageDataAndUrl(imageData: ImageData, dataUrl: string)

  /** An HTMLImageElement held by the store; images themselves are not modelled. */
  datatype ImageHandle = ImageHandle(id: nat)

  /** The fields of `CanvasStore` that the service reads and sets. */
  class CanvasStore {
    var context2D: Context?
    var rawImage: Option<ImageHandle>
    var displayedImage: Option<ImageHandle>
    var sliderRawValue: real
    var sliderMultiplier: real
    var areMouseEventsListening: bool

    constructor (context2D: Context?)
      ensures this.context2D == context2D
      ensures rawImage == None && displayedImage == None
      ensures sliderRawValue == 1.0 && sliderMultiplier == 1.0 && !areMouseEventsListening
    {
      this.context2D := context2D;
      rawImage, displayedImage := None, None;
      sliderRawValue, sliderMultiplier := 1.0, 1.0;
      areMouseEventsListening := false;
    }
  }

  class CanvasService {
    const canvasStore: CanvasStore

    constructor (canvasStore: CanvasStore)
      ensures this.canvasStore == canvasStore
    {
      this.canvasStore := canvasStore;
    }

    /**
     * `useCanvas`: snapshot the bitmap, switch to the identity transform, run
     * the callback, then put back the old transform and the snapshot and
     * return the callback's result. The size the callback leaves is kept, so
     * the bitmap is restored exactly only when the callback keeps the size.
     * On a canvas without width or height the snapshot throws, before
     * anything has changed.
     */
    method UseCanvas<T>(context: Context, callback: Surface -> (Surface, T)) returns (r: Result<T, DomException>)
      requires context.Valid()
      modifies context
      ensures context.Valid()
      ensures r.Err? <==> old(context.width) == 0 || old(context.height) == 0
      ensures r.Err? ==> r.error == IndexSizeError && context.State() == old(context.State())
      ensures r.Ok? ==> var (after, result) := callback(old(context.State()).(transform := IDENTITY_TRANSFORM));
        && r.value == result
        && context.transform == old(context.transform)
        && context.width == after.width && context.height == after.height
        && context.bitmap == Blit(after.bitmap, after.width, after.height, old(context.bitmap), old(context.width), old(context.height))
        && (after.width == old(context.width) && after.height == old(context.height) ==> context.State() == old(context.State()))
      ensures context.imageSmoothingEnabled == old(context.imageSmoothingEnabled)
    {
      var snapshot := context.GetImageData();
      if snapshot.Err? {
        return Err(snapshot.error);
      }
      var imageData := snapshot.value;
      var currentTransform := ResizeCanvasToIdentity(context);
      var (after, returnObj) := callback(context.State());
      context.Load(after);
      context.SetTransform(currentTransform);
      context.PutImageData(imageData);
      r := Ok(returnObj);
      if after.width == old(context.width) && after.height == old(context.height) {
        BlitSameSize(after.bitmap, old(context.bitmap), after.width, after.height);
      }
    }

    /** `resizeCanvasToIdentity`: set the identity transform and return the one it replaced. */
    method ResizeCanvasToIdentity(context: Context) returns (transform: Transform)
      requires context.Valid()
      modifies context
      ensures context.Valid()
      ensures transform == old(context.transform)
      ensures context.State() == old(context.State()).(transform := IDENTITY_TRANSFORM)
      ensures context.imageSmoothingEnabled == old(context.imageSmoothingEnabled)
    {
      transform := context.transform;
      context.SetTransform(IDENTITY_TRANSFORM);
    }

    /**
     * `resizeCanvas`: the canvas becomes width*a by height*d, a and d being the
     * transform's scale factors; exactly width by height under the identity.
     */
    method ResizeCanvas(context: Context, width: nat, height: nat)
      requires context.Valid()
      requires context.transform.a >= 0 && context.transform.d >= 0
      modifies context
      ensures context.Valid()
      ensures context.State() == old(context.State()).(
        width := width * old(context.transform).a, height := height * old(context.transform).d,
        bitmap := Zeros(width * old(context.transform).a * (height * old(context.transform).d) * 4))
      ensures context.transform == IDENTITY_TRANSFORM ==> context.width == width && context.height == height
      ensures context.imageSmoothingEnabled == old(context.imageSmoothingEnabled)
    {
      context.SetSize(width * context.transform.a, height * context.transform.d);
    }

    /** `clearContext`: clear the whole canvas. */
    method ClearContext(context: Context)
      requires context.Valid()
      modifies context
      ensures context.Valid()
      ensures context.State() == old(context.State()).(bitmap := Zeros(|old(context.bitmap)|))
      ensures context.imageSmoothingEnabled == old(context.imageSmoothingEnabled)
    {
      context.ClearRect();
    }

    /** `predraw`: clear, resize, and turn image smoothing off. */
    method Predraw(context: Context, width: nat, height: nat)
      requires context.Valid()
      requires context.transform.a >= 0 && context.transform.d >= 0
      modifies context
      ensures context.Valid()
      ensures context.State() == old(context.State()).(
        width := width * old(context.transform).a, height := height * old(context.transform).d,
        bitmap := Zeros(width * old(context.transform).a * (height * old(context.transform).d) * 4))
      ensures !context.imageSmoothingEnabled
    {
      ClearContext(context);
      ResizeCanvas(context, width, height);
      context.imageSmoothingEnabled := false;
    }

    /** `drawImageData`: predraw at width by height, then put the image data at the origin. */
    method DrawImageData(context: Context, image: ImageData, width: nat, height: nat)
      requires context.Valid() && image.Valid()
      requires context.transform.a >= 0 && context.transform.d >= 0
      modifies context
      ensures context.Valid()
      ensures context.transform == old(context.transform)
      ensures context.width == width * context.transform.a && context.height == height * context.transform.d
      ensures context.bitmap == Blit(Zeros(context.width * context.height * 4), context.width, context.height,
                                     image.data[..], image.width, image.height)
      ensures !context.imageSmoothingEnabled
      ensures context.transform == IDENTITY_TRANSFORM && image.width == width && image.height == height ==>
        context.bitmap == image.data[..]
    {
      Predraw(context, width, height);
      context.PutImageData(image);
      if context.transform == IDENTITY_TRANSFORM && image.width == width && image.height == height {
        BlitSameSize(Zeros(width * height * 4), image.data[..], width, height);
      }
    }

    /**
     * `drawPixels`: allocate a zeroed buffer the size of the canvas as it is
     * now (an IndexSizeError when the canvas has no width or no height); for
     * an empty grid return it with an empty data URL and leave the canvas
     * alone; otherwise store every channel of every pixel at
     * (i * rowLength + j) * 4 + k, resize the canvas to the grid's columns and
     * rows, put the buffer on it and encode the canvas.
     */
    method DrawPixels(context: Context, pixels: seq<seq<Pixel>>) returns (r: Result<ImageDataAndUrl, DomException>)
      requires context.Valid()
      requires context.transform.a >= 0 && context.transform.d >= 0
      modifies context
      ensures context.Valid()
      ensures r.Err? <==> old(context.width) == 0 || old(context.height) == 0
      ensures r.Err? ==>
        && r.error == IndexSizeError
        && context.State() == old(context.State())
        && context.imageSmoothingEnabled == old(context.imageSmoothingEnabled)
      ensures r.Ok? ==>
        var imageData := r.value.imageData;
        && fresh(imageData) && fresh(imageData.data) && imageData.Valid()
        && imageData.width == old(context.width) && imageData.height == old(context.height)
        && imageData.data[..] == Encode(pixels, old(context.width) * old(context.height) * 4)
      ensures r.Ok? && |pixels| == 0 ==>
        && r.value.dataUrl == ""
        && context.State() == old(context.State())
        && context.imageSmoothingEnabled == old(context.imageSmoothingEnabled)
      ensures r.Ok? && |pixels| > 0 ==>
        && context.transform == old(context.transform)
        && context.width == |pixels[0]| * context.transform.a
        && context.height == |pixels| * context.transform.d
        && context.bitmap == Blit(Zeros(context.width * context.height * 4), context.width, context.height,
                                  r.value.imageData.data[..], r.value.imageData.width, r.value.imageData.height)
        && !context.imageSmoothingEnabled
        && r.value.dataUrl == context.toDataURL(context.State())
      ensures r.Ok? && |pixels| > 0 && context.transform == IDENTITY_TRANSFORM &&
              old(context.width) == |pixels[0]| && old(context.height) == |pixels| ==>
        context.bitmap == r.value.imageData.data[..]
    {
      var created := context.CreateImageData(context.width, context.height);
      if created.Err? {
        return Err(created.error);
      }
      var imageData := created.value;
      if |pixels| == 0 {
        return Ok(ImageDataAndUrl(imageData, ""));
      }
      StoreGrid(imageData.data, pixels);
      var width := |pixels[0]|;
      var height := |pixels|;
      Predraw(context, width, height);
      context.PutImageData(imageData);
      var dataUrl := context.toDataURL(context.State());
      if context.transform == IDENTITY_TRANSFORM && old(context.width) == width && old(context.height) == height {
        BlitSameSize(Zeros(width * height * 4), imageData.data[..], width, height);
      }
      r := Ok(ImageDataAndUrl(imageData, dataUrl));
    }

    /** The `pixels.forEach` loop of `drawPixels`: store every pixel of every row, row after row. */
    method StoreGrid(data: array<Byte>, pixels: seq<seq<Pixel>>)
      modifies data
      ensures data[..] == StoreAll(old(data[..]), AllWrites(pixels))
    {
      var i := 0;
      while i < |pixels|
        invariant 0 <= i <= |pixels|
        invariant data[..] == StoreAll(old(data[..]), GridWrites(pixels, i))
      {
        StoreRow(data, i, pixels[i]);
        StoreAllAppend(old(data[..]), GridWrites(pixels, i), RowWrites(i, pixels[i], |pixels[i]|));
        i := i + 1;
      }
    }

    /** The `pixelRow.forEach` callback of `drawPixels` for row i: store every pixel of the row. */
    method StoreRow(data: array<Byte>, i: nat, pixelRow: seq<Pixel>)
      modifies data
      ensures data[..] == StoreAll(old(data[..]), RowWrites(i, pixelRow, |pixelRow|))
    {
      var j := 0;
      while j < |pixelRow|
        invariant 0 <= j <= |pixelRow|
        invariant data[..] == StoreAll(old(data[..]), RowWrites(i, pixelRow, j))
      {
        StorePixel(data, i, |pixelRow|, j, pixelRow[j]);
        StoreAllAppend(old(data[..]), RowWrites(i, pixelRow, j), PixelWrites(i, |pixelRow|, j, pixelRow[j], 4));
        j := j + 1;
      }
    }

    /**
     * The `pixel.forEach` callback of `drawPixels` for pixel (i, j): store
     * channel k at (i * rowLength + j) * pixel.length + k, clamped, unless that
     * index is past the end of the buffer.
     */
    method StorePixel(data: array<Byte>, i: nat, rowLength: nat, j: nat, pixel: Pixel)
      modifies data
      ensures data[..] == StoreAll(old(data[..]), PixelWrites(i, rowLength, j, pixel, 4))
    {
      var channels := pixel.Channels();
      var k := 0;
      while k < |channels|
        invariant 0 <= k <= |channels|
        invariant data[..] == StoreAll(old(data[..]), PixelWrites(i, rowLength, j, pixel, k))
      {
        var index := (i * rowLength + j) * |channels| + k;
        ghost var done := PixelWrites(i, rowLength, j, pixel, k);
        assert (done + [Write(index, channels[k])])[..|done|] == done;
        if index < data.Length {
          data[index] := Clamp(channels[k]);
        }
        k := k + 1;
      }
    }

    /** `imageDataToPixels`: one pixel for each group of four bytes, in order. */
    method ImageDataToPixels(imageData: ImageData) returns (pixels: seq<Pixel>)
      requires imageData.Valid()
      ensures |pixels| == imageData.data.Length / 4
      ensures forall n :: 0 <= n < |pixels| ==> pixels[n] == PixelAt(imageData.data[..], n)
      ensures pixels == Decode(imageData.data[..])
    {
      var data := imageData.data;
      var cells := imageData.width * imageData.height;
      assert data.Length == cells * 4;
      pixels := [];
      var i := 0;
      while i < data.Length
        invariant 0 <= i <= data.Length
        invariant |pixels| == (i + 3) / 4
        invariant forall n :: 0 <= n < |pixels| ==> pixels[n] == PixelAt(data[..], n)
      {
        if i % 4 == 0 {
          pixels := pixels + [Pixel(data[i], data[i + 1], data[i + 2], data[i + 3])];
        }
        i := i + 1;
      }
    }

    /**
     * `getImageData`: under `useCanvas`, a copy of the whole bitmap and the
     * canvas encoded as a data URL; the canvas is left as it was. The
     * callback's own read cannot throw: it runs on the size the snapshot was
     * just taken at, so only the snapshot's IndexSizeError can surface.
     */
    method GetImageData(context: Context) returns (r: Result<ImageDataAndUrl, DomException>)
      requires context.Valid()
      modifies context
      ensures context.Valid() && context.State() == old(context.State())
      ensures context.imageSmoothingEnabled == old(context.imageSmoothingEnabled)
      ensures r.Err? <==> context.width == 0 || context.height == 0
      ensures r.Err? ==> r.error == IndexSizeError
      ensures r.Ok? ==>
        var imageData := r.value.imageData;
        && fresh(imageData) && fresh(imageData.data) && imageData.Valid()
        && imageData.width == context.width && imageData.height == context.height
        && imageData.data[..] == context.bitmap
        && r.value.dataUrl == context.toDataURL(old(context.State()).(transform := IDENTITY_TRANSFORM))
    {
      var encode := context.toDataURL;
      var read := UseCanvas(context, (s: Surface) => (s, (s.bitmap, encode(s))));
      if read.Err? {
        return Err(read.error);
      }
      var imageData := new ImageData.Copy(context.width, context.height, read.value.0);
      r := Ok(ImageDataAndUrl(imageData, read.value.1));
    }

    /** `resetImages`: forget the displayed image. */
    method ResetImages()
      modifies canvasStore`displayedImage
      ensures canvasStore.displayedImage == None
    {
      canvasStore.displayedImage := None;
    }

    /** `listenForMouseEvents`: throws without a context, otherwise raises the listening flag. */
    method ListenForMouseEvents() returns (outcome: Outcome<CanvasError>)
      modifies canvasStore`areMouseEventsListening
      ensures canvasStore.context2D == null ==>
        outcome == Fail(NoContext) && canvasStore.areMouseEventsListening == old(canvasStore.areMouseEventsListening)
      ensures canvasStore.context2D != null ==> outcome == Pass && canvasStore.areMouseEventsListening
    {
      if canvasStore.context2D == null {
        return Fail(NoContext);
      }
      canvasStore.areMouseEventsListening := true;
      outcome := Pass;
    }

    /** `removeMouseEventListener`: throws without a context, otherwise lowers the listening flag. */
    method RemoveMouseEventListener() returns (outcome: Outcome<CanvasError>)
      modifies canvasStore`areMouseEventsListening
      ensures canvasStore.context2D == null ==>
        outcome == Fail(NoContext) && canvasStore.areMouseEventsListening == old(canvasStore.areMouseEventsListening)
      ensures canvasStore.context2D != null ==> outcome == Pass && !canvasStore.areMouseEventsListening
    {
      if canvasStore.context2D == null {
        return Fail(NoContext);
      }
      canvasStore.areMouseEventsListening := false;
      outcome := Pass;
    }

    /**
     * `getColorAtPosition`: throws without a context; otherwise reads the
     * bitmap (leaving the canvas as it was; an IndexSizeError on a canvas
     * without width or height), cuts its pixels into rows of the canvas
     * width and looks the position up as written.
     */
    method GetColorAtPosition(position: (int, int)) returns (r: Result<Lookup, CanvasError>)
      requires canvasStore.context2D != null ==> canvasStore.context2D.Valid()
      modifies canvasStore.context2D
      ensures canvasStore.context2D == null ==> r == Err(NoContext)
      ensures canvasStore.context2D != null ==>
        var context := canvasStore.context2D;
        && context.Valid()
        && context.State() == old(context.State())
        && context.imageSmoothingEnabled == old(context.imageSmoothingEnabled)
        && (context.width == 0 || context.height == 0 ==> r == Err(DomError(IndexSizeError)))
        && (context.width > 0 && context.height > 0 ==>
              r == Ok(ColorAtPosition(To2D(Decode(context.bitmap), context.width), position)))
    {
      var context := canvasStore.context2D;
      if context == null {
        return Err(NoContext);
      }
      var read := GetImageData(context);
      if read.Err? {
        return Err(DomError(read.error));
      }
      var pixels := ImageDataToPixels(read.value.imageData);
      var pixels2D := To2D(pixels, context.width);
      r := Ok(ColorAtPosition(pixels2D, position));
    }

    /**
     * `getPixelFromMouseEvent`: throws without a context; otherwise looks up
     * the page position minus the canvas element's offset, with the errors
     * of `getColorAtPosition`.
     */
    method GetPixelFromMouseEvent(pageX: int, pageY: int) returns (r: Result<Lookup, CanvasError>)
      requires canvasStore.context2D != null ==> canvasStore.context2D.Valid()
      modifies canvasStore.context2D
      ensures canvasStore.context2D == null ==> r == Err(NoContext)
      ensures canvasStore.context2D != null ==>
        var context := canvasStore.context2D;
        && context.Valid()
        && context.State() == old(context.State())
        && context.imageSmoothingEnabled == old(context.imageSmoothingEnabled)
        && (context.width == 0 || context.height == 0 ==> r == Err(DomError(IndexSizeError)))
        && (context.width > 0 && context.height > 0 ==>
              r == Ok(ColorAtPosition(To2D(Decode(context.bitmap), context.width),
                                      CanvasPosition(pageX, pageY, context.offsetLeft, context.offsetTop))))
    {
      var context := canvasStore.context2D;
      if context == null {
        return Err(NoContext);
      }
      var positionOnCanvas := CanvasPosition(pageX, pageY, context.offsetLeft, context.offsetTop);
      r := GetColorAtPosition(positionOnCanvas);
    }

    /**
     * `reset`: clear both images, set both slider values to 1, then stop
     * listening; without a context the last step throws after the fields
     * have been reset.
     */
    method Reset() returns (outcome: Outcome<CanvasError>)
      modifies canvasStore
      ensures canvasStore.context2D == old(canvasStore.context2D)
      ensures canvasStore.rawImage == None && canvasStore.displayedImage == None
      ensures canvasStore.sliderRawValue == 1.0 && canvasStore.sliderMultiplier == 1.0
      ensures canvasStore.context2D == null ==>
        outcome == Fail(NoContext) && canvasStore.areMouseEventsListening == old(canvasStore.areMouseEventsListening)
      ensures canvasStore.context2D != null ==> outcome == Pass && !canvasStore.areMouseEventsListening
    {
      canvasStore.rawImage := None;
      canvasStore.displayedImage := None;
      canvasStore.sliderRawValue := 1.0;
      canvasStore.sliderMultiplier := 1.0;
      outcome := RemoveMouseEventListener();
    }
  }
}
