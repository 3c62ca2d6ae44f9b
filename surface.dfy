/**
 * The drawing surface the service works on: a canvas element with a 2-D
 * context, its affine transform and its RGBA bitmap.
 */
module Surfaces {
  import opened Wrappers
  import opened Pixels
  import opened Encoding

  /**
   * The DOMException the context throws when asked to read or allocate a
   * pixel rectangle with a zero width or height.
   */
  datatype DomException = IndexSizeError

  /** The six coefficients of a 2-D affine transform (DOMMatrix a..f), integral here. */
  datatype Transform = Transform(a: int, b: int, c: int, d: int, e: int, f: int)

  /** `{ a: 1, b: 0, c: 0, d: 1, e: 0, f: 0 }` */
  const IDENTITY_TRANSFORM: Transform := Transform(1, 0, 0, 1, 0, 0)

  /** The state of a surface that a `useCanvas` callback sees and changes. */
  datatype SurfaceState = SurfaceState(transform: Transform, width: nat, height: nat, bitmap: seq<Byte>)
  {
    /** The bitmap holds four bytes for each of the width*height pixels. */
    predicate Valid()
    {
      |bitmap| == width * height * 4
    }
  }

  type Surface = s: SurfaceState | s.Valid() witness SurfaceState(IDENTITY_TRANSFORM, 0, 0, [])

  /** A canvas bitmap has a pixel column 0 whenever it has any byte at all. */
  lemma WidthPositive(width: nat, height: nat, q: nat)
    requires q < width * height * 4
    ensures width > 0 && height > 0
  {
  }

  /** Byte q of a width*height bitmap belongs to pixel (x, y) = ((q/4) % width, (q/4) / width). */
  lemma ByteCell(q: nat, width: nat, height: nat)
    requires q < width * height * 4
    ensures width > 0
    ensures (q / 4) / width < height
    ensures (((q / 4) / width) * width + (q / 4) % width) * 4 + q % 4 == q
  {
    WidthPositive(width, height, q);
    var n := q / 4;
    assert n < width * height;
    var y := n / width;
    assert n == y * width + n % width;
  }

  /**
   * `putImageData(source, 0, 0)` on a `width`*`height` bitmap: every pixel
   * (x, y) that lies inside both the bitmap and the `sourceWidth`*`sourceHeight`
   * source takes the source's bytes; the others keep theirs.
   */
  function Blit(bitmap: seq<Byte>, width: nat, height: nat,
                source: seq<Byte>, sourceWidth: nat, sourceHeight: nat): (r: seq<Byte>)
    requires |bitmap| == width * height * 4 && |source| == sourceWidth * sourceHeight * 4
    ensures |r| == |bitmap|
  {
    seq(|bitmap|, q requires 0 <= q < |bitmap| =>
      ByteCell(q, width, height);
      var x, y := (q / 4) % width, (q / 4) / width;
      if x < sourceWidth && y < sourceHeight then
        CellInRange(x, y, sourceWidth, sourceHeight);
        source[(y * sourceWidth + x) * 4 + q % 4]
      else bitmap[q])
  }

  /** Putting back a snapshot of the same size restores it exactly. */
  lemma BlitSameSize(bitmap: seq<Byte>, source: seq<Byte>, width: nat, height: nat)
    requires |bitmap| == width * height * 4 && |source| == width * height * 4
    ensures Blit(bitmap, width, height, source, width, height) == source
  {
    var r := Blit(bitmap, width, height, source, width, height);
    forall q | 0 <= q < |bitmap|
      ensures r[q] == source[q]
    {
      ByteCell(q, width, height);
    }
  }

  /** The flat position y*width + x, x < width, splits back into row y and column x. */
  lemma RowColumn(x: nat, y: nat, width: nat)
    requires x < width
    ensures (y * width + x) / width == y && (y * width + x) % width == x
  {
    var n := y * width + x;
    var row, column := n / width, n % width;
    assert row * width + column == y * width + x;
    if row > y {
      MulMono(y + 1, row, width);
    } else if row < y {
      MulMono(row + 1, y, width);
    }
  }

  /**
   * `putImageData(source, 0, 0)` pixel by pixel: channel k of pixel (x, y) of
   * the canvas is the source's channel k of pixel (x, y) when the source
   * covers that pixel, and the canvas's own byte otherwise.
   */
  lemma BlitAt(bitmap: seq<Byte>, width: nat, height: nat,
               source: seq<Byte>, sourceWidth: nat, sourceHeight: nat, x: nat, y: nat, k: nat)
    requires |bitmap| == width * height * 4 && |source| == sourceWidth * sourceHeight * 4
    requires x < width && y < height && k < 4
    ensures (y * width + x) * 4 + k < |bitmap|
    ensures x < sourceWidth && y < sourceHeight ==>
      (y * sourceWidth + x) * 4 + k < |source| &&
      Blit(bitmap, width, height, source, sourceWidth, sourceHeight)[(y * width + x) * 4 + k]
        == source[(y * sourceWidth + x) * 4 + k]
    ensures !(x < sourceWidth && y < sourceHeight) ==>
      Blit(bitmap, width, height, source, sourceWidth, sourceHeight)[(y * width + x) * 4 + k]
        == bitmap[(y * width + x) * 4 + k]
  {
    var n := y * width + x;
    var q := n * 4 + k;
    CellInRange(x, y, width, height);
    assert q / 4 == n && q % 4 == k;
    RowColumn(x, y, width);
    if x < sourceWidth && y < sourceHeight {
      CellInRange(x, y, sourceWidth, sourceHeight);
    }
  }

  /** An ImageData object: its `data` is a Uint8ClampedArray of width*height*4 bytes. */
  class ImageData {
    const width: nat
    const height: nat
    const data: array<Byte>

    ghost predicate Valid()
      reads this
    {
      data.Length == width * height * 4
    }

    /** A fresh, all-zero buffer of width*height pixels. */
    constructor Create(width: nat, height: nat)
      ensures Valid() && fresh(data)
      ensures this.width == width && this.height == height
      ensures data[..] == Zeros(width * height * 4)
    {
      this.width := width;
      this.height := height;
      data := new Byte[width * height * 4](_ => 0);
    }

    /** A fresh ImageData holding a copy of `bytes`. */
    constructor Copy(width: nat, height: nat, bytes: seq<Byte>)
      requires |bytes| == width * height * 4
      ensures Valid() && fresh(data)
      ensures this.width == width && this.height == height
      ensures data[..] == bytes
    {
      this.width := width;
      this.height := height;
      data := new Byte[|bytes|](q requires 0 <= q < |bytes| => bytes[q]);
    }
  }

  /** A canvas element together with its CanvasRenderingContext2D. */
  class Context {
    var transform: Transform
    var width: nat
    var height: nat
    var bitmap: seq<Byte>
    var imageSmoothingEnabled: bool
    /** The element's position on the page (`offsetLeft`, `offsetTop`). */
    const offsetLeft: int
    const offsetTop: int
    /** `canvas.toDataURL()`: the browser's image encoder, opaque here. */
    const toDataURL: Surface -> string

    ghost predicate Valid()
      reads this
    {
      |bitmap| == width * height * 4
    }

    /** The transform, size and bitmap as one value. */
    function State(): Surface
      reads this
      requires Valid()
    {
      SurfaceState(transform, width, height, bitmap)
    }

    constructor (width: nat, height: nat, offsetLeft: int, offsetTop: int, toDataURL: Surface -> string)
      ensures Valid()
      ensures State() == SurfaceState(IDENTITY_TRANSFORM, width, height, Zeros(width * height * 4))
      ensures imageSmoothingEnabled
      ensures this.offsetLeft == offsetLeft && this.offsetTop == offsetTop && this.toDataURL == toDataURL
    {
      transform := IDENTITY_TRANSFORM;
      this.width := width;
      this.height := height;
      bitmap := Zeros(width * height * 4);
      imageSmoothingEnabled := true;
      this.offsetLeft := offsetLeft;
      this.offsetTop := offsetTop;
      this.toDataURL := toDataURL;
    }

    /** `setTransform(t)` */
    method SetTransform(t: Transform)
      requires Valid()
      modifies this
      ensures Valid()
      ensures State() == old(State()).(transform := t)
      ensures imageSmoothingEnabled == old(imageSmoothingEnabled)
    {
      transform := t;
    }

    /**
     * `getImageData(0, 0, canvas.width, canvas.height)`: a copy of the whole
     * bitmap, whatever the transform; an IndexSizeError when the canvas has
     * no width or no height.
     */
    method GetImageData() returns (r: Result<ImageData, DomException>)
      requires Valid()
      ensures r.Err? <==> width == 0 || height == 0
      ensures r.Err? ==> r.error == IndexSizeError
      ensures r.Ok? ==> fresh(r.value) && fresh(r.value.data) && r.value.Valid()
      ensures r.Ok? ==> r.value.width == width && r.value.height == height && r.value.data[..] == bitmap
    {
      if width == 0 || height == 0 {
        return Err(IndexSizeError);
      }
      var imageData := new ImageData.Copy(width, height, bitmap);
      r := Ok(imageData);
    }

    /**
     * `createImageData(w, h)`: a fresh all-zero buffer of w*h pixels; an
     * IndexSizeError when either dimension is 0.
     */
    method CreateImageData(w: nat, h: nat) returns (r: Result<ImageData, DomException>)
      ensures r.Err? <==> w == 0 || h == 0
      ensures r.Err? ==> r.error == IndexSizeError
      ensures r.Ok? ==> fresh(r.value) && fresh(r.value.data) && r.value.Valid()
      ensures r.Ok? ==> r.value.width == w && r.value.height == h && r.value.data[..] == Zeros(w * h * 4)
    {
      if w == 0 || h == 0 {
        return Err(IndexSizeError);
      }
      var imageData := new ImageData.Create(w, h);
      r := Ok(imageData);
    }

    /** `putImageData(imageData, 0, 0)`, clipped to the canvas, ignoring the transform. */
    method PutImageData(imageData: ImageData)
      requires Valid() && imageData.Valid()
      modifies this
      ensures Valid()
      ensures State() == old(State()).(bitmap := Blit(old(bitmap), old(width), old(height), imageData.data[..], imageData.width, imageData.height))
      ensures imageSmoothingEnabled == old(imageSmoothingEnabled)
    {
      bitmap := Blit(bitmap, width, height, imageData.data[..], imageData.width, imageData.height);
    }

    /** `clearRect(0, 0, canvas.width, canvas.height)` under the identity transform: every byte becomes 0. */
    method ClearRect()
      requires Valid()
      modifies this
      ensures Valid()
      ensures State() == old(State()).(bitmap := Zeros(|old(bitmap)|))
      ensures imageSmoothingEnabled == old(imageSmoothingEnabled)
    {
      bitmap := Zeros(|bitmap|);
    }

    /** Setting `canvas.width` and `canvas.height`: the bitmap is replaced by a cleared one of the new size. */
    method SetSize(newWidth: nat, newHeight: nat)
      requires Valid()
      modifies this
      ensures Valid()
      ensures State() == old(State()).(width := newWidth, height := newHeight, bitmap := Zeros(newWidth * newHeight * 4))
      ensures imageSmoothingEnabled == old(imageSmoothingEnabled)
    {
      width, height := newWidth, newHeight;
      bitmap := Zeros(newWidth * newHeight * 4);
    }

    /** Whatever a `useCanvas` callback did to the transform, the size and the bitmap. */
    method Load(s: Surface)
      modifies this
      ensures Valid() && State() == s
      ensures imageSmoothingEnabled == old(imageSmoothingEnabled)
    {
      transform, width, height, bitmap := s.transform, s.width, s.height, s.bitmap;
    }
  }
}
