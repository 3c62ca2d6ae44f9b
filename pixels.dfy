/**
 * Pixels and pixel grids as the canvas service sees them: a pixel is four
 * channel values (red, green, blue, alpha) and a grid is a sequence of rows.
 */
module Pixels {

  /** One element of a Uint8ClampedArray. */
  type Byte = x: int | 0 <= x < 256

  /**
   * A pixel: four channel values, so `pixel.length` is always 4. Values written by callers are arbitrary
   * integers; values read back from a canvas are bytes.
   */
  datatype Pixel = Pixel(r: int, g: int, b: int, a: int)
  {
    function Channels(): seq<int>
    {
      [r, g, b, a]
    }
  }

  /** Storing into a Uint8ClampedArray clamps the value into 0..255. */
  function Clamp(v: int): Byte
  {
    if v < 0 then 0 else if v > 255 then 255 else v
  }

  function ClampPixel(p: Pixel): Pixel
  {
    Pixel(Clamp(p.r), Clamp(p.g), Clamp(p.b), Clamp(p.a))
  }

  predicate IsBytePixel(p: Pixel)
  {
    0 <= p.r < 256 && 0 <= p.g < 256 && 0 <= p.b < 256 && 0 <= p.a < 256
  }

  /** Every pixel of the grid has byte-valued channels. */
  predicate IsByteGrid(grid: seq<seq<Pixel>>)
  {
    forall i, j :: 0 <= i < |grid| && 0 <= j < |grid[i]| ==> IsBytePixel(grid[i][j])
  }

  lemma {:induction false} FlattenBytes(grid: seq<seq<Pixel>>)
    requires IsByteGrid(grid)
    ensures forall n :: 0 <= n < |Flatten(grid)| ==> IsBytePixel(Flatten(grid)[n])
  {
    if |grid| > 0 {
      var m := |grid| - 1;
      assert IsByteGrid(grid[..m]);
      FlattenBytes(grid[..m]);
      forall n | 0 <= n < |Flatten(grid)|
        ensures IsBytePixel(Flatten(grid)[n])
      {
        if n >= |Flatten(grid[..m])| {
          assert Flatten(grid)[n] == grid[m][n - |Flatten(grid[..m])|];
        }
      }
    }
  }

  /** Every row of `grid` holds `cols` pixels. */
  predicate Rectangular(grid: seq<seq<Pixel>>, cols: nat)
  {
    forall i :: 0 <= i < |grid| ==> |grid[i]| == cols
  }

  /** The rows of `grid` concatenated in order (row-major order). */
  function Flatten(grid: seq<seq<Pixel>>): seq<Pixel>
  {
    if |grid| == 0 then [] else Flatten(grid[..|grid| - 1]) + grid[|grid| - 1]
  }

  lemma {:induction false} FlattenPrepend(row: seq<Pixel>, grid: seq<seq<Pixel>>)
    ensures Flatten([row] + grid) == row + Flatten(grid)
    decreases |grid|
  {
    if |grid| > 0 {
      var m := |grid| - 1;
      assert ([row] + grid)[..m + 1] == [row] + grid[..m];
      FlattenPrepend(row, grid[..m]);
    } else {
      assert [row] + grid == [row];
      assert Flatten([row]) == Flatten([]) + row;
    }
  }

  /** The channel values of `ps`, pixel after pixel. */
  function ChannelsOf(ps: seq<Pixel>): seq<int>
  {
    if |ps| == 0 then [] else ChannelsOf(ps[..|ps| - 1]) + ps[|ps| - 1].Channels()
  }

  /** A rectangular grid flattens to rows*cols pixels. */
  lemma {:induction false} FlattenLength(grid: seq<seq<Pixel>>, cols: nat)
    requires Rectangular(grid, cols)
    ensures |Flatten(grid)| == |grid| * cols
  {
    if |grid| > 0 {
      var n := |grid| - 1;
      assert Rectangular(grid[..n], cols);
      FlattenLength(grid[..n], cols);
      MulPred(|grid|, cols);
    }
  }

  /** In the flattened rectangular grid, cell (i, j) lands at i*cols + j. */
  lemma {:induction false} FlattenAt(grid: seq<seq<Pixel>>, cols: nat, i: nat, j: nat)
    requires Rectangular(grid, cols) && i < |grid| && j < cols
    ensures |Flatten(grid)| == |grid| * cols
    ensures i * cols + j < |Flatten(grid)| && Flatten(grid)[i * cols + j] == grid[i][j]
  {
    var n := |grid| - 1;
    var prefix := grid[..n];
    assert Rectangular(prefix, cols);
    FlattenLength(grid, cols);
    FlattenLength(prefix, cols);
    assert Flatten(grid) == Flatten(prefix) + grid[n];
    if i < n {
      FlattenAt(prefix, cols, i, j);
    } else {
      assert i * cols + j == |Flatten(prefix)| + j;
    }
  }

  /** A cell of row i < n lies before row n. */
  lemma RowBelow(i: nat, j: nat, n: nat, cols: nat)
    requires i < n && j < cols
    ensures i * cols + j < n * cols
  {
    assert (n - i) * cols >= cols by {
      assert n - i >= 1;
    }
    assert n * cols - i * cols == (n - i) * cols;
  }

  /** Peeling one factor off a product. */
  lemma MulPred(h: nat, w: nat)
    requires h > 0
    ensures (h - 1) * w + w == h * w
    ensures w * (h - 1) + w == w * h
  {
  }

  lemma MulMono(a: nat, b: nat, w: nat)
    requires a <= b
    ensures a * w <= b * w
  {
  }

  /** Pixel (x, y) of a width*height bitmap is pixel x + y*width, whose bytes are in range. */
  lemma CellInRange(x: nat, y: nat, width: nat, height: nat)
    requires x < width && y < height
    ensures 4 * (y * width + x) + 3 < width * height * 4
  {
    RowBelow(y, x, height, width);
  }

  /** Channel k of pixel n sits at position n*4 + k of the channel sequence. */
  lemma {:induction false} ChannelsOfAt(ps: seq<Pixel>)
    ensures |ChannelsOf(ps)| == |ps| * 4
    ensures forall n :: 0 <= n < |ps| ==>
      ChannelsOf(ps)[4 * n] == ps[n].r && ChannelsOf(ps)[4 * n + 1] == ps[n].g &&
      ChannelsOf(ps)[4 * n + 2] == ps[n].b && ChannelsOf(ps)[4 * n + 3] == ps[n].a
  {
    if |ps| > 0 {
      var m := |ps| - 1;
      ChannelsOfAt(ps[..m]);
      forall n | 0 <= n < |ps|
        ensures ChannelsOf(ps)[4 * n] == ps[n].r && ChannelsOf(ps)[4 * n + 1] == ps[n].g
        ensures ChannelsOf(ps)[4 * n + 2] == ps[n].b && ChannelsOf(ps)[4 * n + 3] == ps[n].a
      {
        if n < m {
          assert ps[..m][n] == ps[n];
        }
      }
    }
  }

  lemma {:induction false} ChannelsOfAppend(xs: seq<Pixel>, ys: seq<Pixel>)
    ensures ChannelsOf(xs + ys) == ChannelsOf(xs) + ChannelsOf(ys)
    decreases |ys|
  {
    if |ys| > 0 {
      var m := |ys| - 1;
      assert (xs + ys)[..|xs + ys| - 1] == xs + ys[..m];
      ChannelsOfAppend(xs, ys[..m]);
    } else {
      assert xs + ys == xs;
    }
  }
}
