/**
 * Resolving a mouse position to the pixel under it: the page coordinates are
 * made canvas-local, the canvas pixels are cut into rows and the row list is
 * indexed.
 */
module HitTest {
  import opened Pixels
  import opened Encoding

  /**
   * `ArrayService.to2D(pixels, width)`. Its code is not part of this model; it
   * is taken to cut the list into consecutive rows of `width` pixels (the
   * last row shorter when the length is not a multiple of `width`).
   */
  function To2D(ps: seq<Pixel>, width: nat): (rows: seq<seq<Pixel>>)
    ensures forall k :: 0 <= k < |rows| ==> 0 < |rows[k]| <= width
    decreases |ps|
  {
    if width == 0 || |ps| == 0 then []
    else if |ps| <= width then [ps]
    else [ps[..width]] + To2D(ps[width..], width)
  }

  /** Flattening the rows gives back the list: to2D loses, reorders and invents nothing. */
  lemma {:induction false} To2DFlatten(ps: seq<Pixel>, width: nat)
    requires width > 0
    ensures Flatten(To2D(ps, width)) == ps
    decreases |ps|
  {
    if |ps| == 0 {
    } else if |ps| <= width {
      assert Flatten([ps]) == Flatten([]) + ps;
    } else {
      var rest := ps[width..];
      To2DFlatten(rest, width);
      FlattenPrepend(ps[..width], To2D(rest, width));
      assert ps[..width] + rest == ps;
    }
  }

  /** Cutting width*height pixels gives `height` rows of exactly `width`. */
  lemma {:induction false} To2DShape(ps: seq<Pixel>, width: nat, height: nat)
    requires width > 0 && |ps| == width * height
    ensures |To2D(ps, width)| == height
    ensures Rectangular(To2D(ps, width), width)
  {
    if height > 0 {
      MulPred(height, width);
      if |ps| <= width {
        if height > 1 {
          MulMono(2, height, width);
        }
        assert To2D(ps, width) == [ps];
      } else {
        var rest := ps[width..];
        To2DShape(rest, width, height - 1);
        assert To2D(ps, width) == [ps[..width]] + To2D(rest, width);
      }
    }
  }

  /** Row y, column x of the cut list is pixel y*width + x of the list. */
  lemma To2DAt(ps: seq<Pixel>, width: nat, height: nat, x: nat, y: nat)
    requires width > 0 && |ps| == width * height
    requires x < width && y < height
    ensures y * width + x < |ps|
    ensures |To2D(ps, width)| == height && |To2D(ps, width)[y]| == width
    ensures To2D(ps, width)[y][x] == ps[y * width + x]
  {
    To2DShape(ps, width, height);
    To2DFlatten(ps, width);
    FlattenAt(To2D(ps, width), width, y, x);
  }

  /** The pixels of a width*height bitmap cut into rows: `height` rows of `width` (none when the width is 0). */
  lemma CanvasRows(bitmap: seq<Byte>, width: nat, height: nat)
    requires |bitmap| == width * height * 4
    ensures |bitmap| % 4 == 0
    ensures |To2D(Decode(bitmap), width)| == if width == 0 then 0 else height
    ensures Rectangular(To2D(Decode(bitmap), width), width)
  {
    var cells := width * height;
    assert |bitmap| == cells * 4;
    if width > 0 {
      assert |Decode(bitmap)| == cells;
      To2DShape(Decode(bitmap), width, height);
    }
  }

  /** Row y, column x of the cut bitmap is the pixel made of bytes 4n..4n+3, n = y*width + x. */
  lemma CanvasCell(bitmap: seq<Byte>, width: nat, height: nat, x: nat, y: nat)
    requires |bitmap| == width * height * 4
    requires x < width && y < height
    ensures |bitmap| % 4 == 0
    ensures 4 * (y * width + x) + 3 < |bitmap|
    ensures |To2D(Decode(bitmap), width)| == height && |To2D(Decode(bitmap), width)[y]| == width
    ensures To2D(Decode(bitmap), width)[y][x] == PixelAt(bitmap, y * width + x)
  {
    var cells := width * height;
    assert |bitmap| == cells * 4;
    var ps := Decode(bitmap);
    assert |ps| == cells;
    var n := y * width + x;
    CellInRange(x, y, width, height);
    To2DAt(ps, width, height, x, y);
    assert ps[n] == PixelAt(bitmap, n);
  }

  /**
   * What indexing the row list yields: `null` for a missing row, `undefined`
   * for a missing entry in a row that exists, or the pixel found.
   */
  datatype Lookup = Null | Undefined | Found(pixel: Pixel)

  /** The canvas-local position of a mouse event: the page position minus the element's offset. */
  function CanvasPosition(pageX: int, pageY: int, offsetLeft: int, offsetTop: int): (position: (int, int))
    ensures position.0 + offsetLeft == pageX && position.1 + offsetTop == pageY
  {
    (pageX - offsetLeft, pageY - offsetTop)
  }

  /**
   * The lookup as `getColorAtPosition` writes it: the outer index is
   * position[0] and a missing outer entry gives null; a missing inner entry
   * gives undefined.
   */
  function ColorAtPosition(pixels2D: seq<seq<Pixel>>, position: (int, int)): (r: Lookup)
    ensures r == Null <==> !(0 <= position.0 < |pixels2D|)
    ensures r == Undefined <==> 0 <= position.0 < |pixels2D| && !(0 <= position.1 < |pixels2D[position.0]|)
    ensures r.Found? ==> 0 <= position.0 < |pixels2D| && 0 <= position.1 < |pixels2D[position.0]|
                         && r == Found(pixels2D[position.0][position.1])
  {
    if 0 <= position.0 < |pixels2D| then
      var column := pixels2D[position.0];
      if 0 <= position.1 < |column| then Found(column[position.1]) else Undefined
    else Null
  }

  /**
   * The lookup on a width*height canvas as written: position[0] is compared
   * with the number of rows and position[1] with the row length, and the pixel
   * found is the one in row position[0], column position[1].
   */
  lemma ColorAtPositionOnCanvas(bitmap: seq<Byte>, width: nat, height: nat, position: (int, int))
    requires |bitmap| == width * height * 4
    ensures |bitmap| % 4 == 0
    ensures var r := ColorAtPosition(To2D(Decode(bitmap), width), position);
      && (r == Null <==> width == 0 || !(0 <= position.0 < height))
      && (r == Undefined <==> width > 0 && 0 <= position.0 < height && !(0 <= position.1 < width))
      && (0 <= position.0 < height && 0 <= position.1 < width ==>
            4 * (position.0 * width + position.1) + 3 < |bitmap| &&
            r == Found(PixelAt(bitmap, position.0 * width + position.1)))
  {
    CanvasRows(bitmap, width, height);
    var rows := To2D(Decode(bitmap), width);
    var r := ColorAtPosition(rows, position);
    if width == 0 || !(0 <= position.0 < height) {
      assert r == Null by {
        ColorAtPositionOnRows(rows, width, height, position);
      }
    } else if !(0 <= position.1 < width) {
      assert r == Undefined by {
        ColorAtPositionOnRows(rows, width, height, position);
      }
    } else {
      var n := position.0 * width + position.1;
      assert 4 * n + 3 < |bitmap| && r == Found(PixelAt(bitmap, n)) by {
        ColorAtPositionOnRows(rows, width, height, position);
        CanvasCell(bitmap, width, height, position.1, position.0);
      }
    }
  }

  /** The written lookup in `height` rows of `width` pixels (no rows when the width is 0). */
  lemma ColorAtPositionOnRows(rows: seq<seq<Pixel>>, width: nat, height: nat, position: (int, int))
    requires Rectangular(rows, width) && |rows| == if width == 0 then 0 else height
    ensures var r := ColorAtPosition(rows, position);
      && (r == Null <==> width == 0 || !(0 <= position.0 < height))
      && (r == Undefined <==> width > 0 && 0 <= position.0 < height && !(0 <= position.1 < width))
      && (r.Found? ==> r == Found(rows[position.0][position.1]))
  {
    if 0 <= position.0 < |rows| {
      assert |rows[position.0]| == width;
    }
  }

  /**
   * The lookup the hit test means: the pixel in column x, row y, and null
   * whenever either coordinate is outside the grid.
   */
  function PixelAtPoint(pixels2D: seq<seq<Pixel>>, x: int, y: int): (r: Lookup)
    ensures r != Undefined
    ensures ColorAtPosition(pixels2D, (y, x)) != Undefined ==> r == ColorAtPosition(pixels2D, (y, x))
    ensures ColorAtPosition(pixels2D, (y, x)) == Undefined ==> r == Null
  {
    if 0 <= y < |pixels2D| && 0 <= x < |pixels2D[y]| then Found(pixels2D[y][x]) else Null
  }

  /** On a width*height canvas the intended lookup finds pixel (x, y) exactly when it is on the canvas. */
  lemma PixelAtPointOnCanvas(bitmap: seq<Byte>, width: nat, height: nat, x: int, y: int)
    requires |bitmap| == width * height * 4
    ensures |bitmap| % 4 == 0
    ensures var r := PixelAtPoint(To2D(Decode(bitmap), width), x, y);
      && (0 <= x < width && 0 <= y < height ==>
            4 * (y * width + x) + 3 < |bitmap| && r == Found(PixelAt(bitmap, y * width + x)))
      && (!(0 <= x < width && 0 <= y < height) ==> r == Null)
  {
    CanvasRows(bitmap, width, height);
    var rows := To2D(Decode(bitmap), width);
    var r := PixelAtPoint(rows, x, y);
    if 0 <= x < width && 0 <= y < height {
      var n := y * width + x;
      assert 4 * n + 3 < |bitmap| && r == Found(PixelAt(bitmap, n)) by {
        PixelAtPointOnRows(rows, width, height, x, y);
        CanvasCell(bitmap, width, height, x, y);
      }
    } else {
      assert r == Null by {
        PixelAtPointOnRows(rows, width, height, x, y);
      }
    }
  }

  /** In `height` rows of `width` pixels the intended lookup finds (x, y) exactly when it is inside. */
  lemma PixelAtPointOnRows(rows: seq<seq<Pixel>>, width: nat, height: nat, x: int, y: int)
    requires Rectangular(rows, width) && (width > 0 ==> |rows| == height)
    ensures var r := PixelAtPoint(rows, x, y);
      && (r.Found? <==> 0 <= x < width && 0 <= y < height)
      && (r.Found? ==> r.pixel == rows[y][x])
      && (!r.Found? ==> r == Null)
  {
    if 0 <= y < |rows| {
      assert |rows[y]| == width;
    }
  }

  /**
   * On a canvas 2 pixels wide and 1 high, the mouse over the second pixel
   * (x = 1, y = 0) finds nothing as written, while the pixel is there.
   */
  lemma ColorAtPositionMissesPixel()
    ensures var bitmap: seq<Byte> := [1, 2, 3, 4, 5, 6, 7, 8];
      ColorAtPosition(To2D(Decode(bitmap), 2), (1, 0)) == Null &&
      PixelAtPoint(To2D(Decode(bitmap), 2), 1, 0) == Found(Pixel(5, 6, 7, 8))
  {
    var bitmap: seq<Byte> := [1, 2, 3, 4, 5, 6, 7, 8];
    ColorAtPositionOnCanvas(bitmap, 2, 1, (1, 0));
    PixelAtPointOnCanvas(bitmap, 2, 1, 1, 0);
  }
}
