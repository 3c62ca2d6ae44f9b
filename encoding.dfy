/**
 * The byte layout used by `drawPixels` and `imageDataToPixels`: channel k of
 * pixel (i, j) is stored at (i * rowLength + j) * pixelLength + k of a flat
 * RGBA buffer, and the buffer is read back four bytes per pixel.
 */
module Encoding {
  import opened Pixels

  /** One element store `data[index] = value` of the encoder's innermost loop. */
  datatype Write = Write(index: nat, value: int)

  /** The flat index of channel k of pixel (i, j), as the encoder computes it. */
  function Index(i: nat, rowLength: nat, j: nat, pixelLength: nat, k: nat): nat
  {
    (i * rowLength + j) * pixelLength + k
  }

  /** The stores for the first n channels of pixel p at (i, j) of a row of `rowLength` pixels. */
  function PixelWrites(i: nat, rowLength: nat, j: nat, p: Pixel, n: nat): seq<Write>
    requires n <= 4
  {
    if n == 0 then []
    else PixelWrites(i, rowLength, j, p, n - 1) + [Write(Index(i, rowLength, j, 4, n - 1), p.Channels()[n - 1])]
  }

  /** The stores for the first n pixels of row i. */
  function RowWrites(i: nat, row: seq<Pixel>, n: nat): seq<Write>
    requires n <= |row|
  {
    if n == 0 then []
    else RowWrites(i, row, n - 1) + PixelWrites(i, |row|, n - 1, row[n - 1], 4)
  }

  /** The stores for the first n rows of the grid, in the order the nested loops make them. */
  function GridWrites(grid: seq<seq<Pixel>>, n: nat): seq<Write>
    requires n <= |grid|
  {
    if n == 0 then []
    else GridWrites(grid, n - 1) + RowWrites(n - 1, grid[n - 1], |grid[n - 1]|)
  }

  /** All stores the encoder makes for `grid`. */
  function AllWrites(grid: seq<seq<Pixel>>): seq<Write>
  {
    GridWrites(grid, |grid|)
  }

  function Values(ws: seq<Write>): (vs: seq<int>)
    ensures |vs| == |ws|
    ensures forall t :: 0 <= t < |ws| ==> vs[t] == ws[t].value
  {
    if |ws| == 0 then [] else Values(ws[..|ws| - 1]) + [ws[|ws| - 1].value]
  }

  function Zeros(n: nat): seq<Byte>
  {
    seq(n, _ => 0)
  }

  /**
   * A store into a Uint8ClampedArray: an index past the end is dropped, the
   * value is clamped into 0..255.
   */
  function Store(buffer: seq<Byte>, w: Write): (r: seq<Byte>)
    ensures |r| == |buffer|
    ensures w.index < |buffer| ==> r[w.index] == Clamp(w.value)
    ensures forall q :: 0 <= q < |buffer| && q != w.index ==> r[q] == buffer[q]
    ensures w.index >= |buffer| ==> r == buffer
  {
    if w.index < |buffer| then buffer[w.index := Clamp(w.value)] else buffer
  }

  /** The buffer after the stores `ws`, in order; a later store to an index wins. */
  function StoreAll(buffer: seq<Byte>, ws: seq<Write>): (r: seq<Byte>)
    ensures |r| == |buffer|
  {
    if |ws| == 0 then buffer else Store(StoreAll(buffer, ws[..|ws| - 1]), ws[|ws| - 1])
  }

  /** Applying two runs of stores one after the other is applying them together. */
  lemma {:induction false} StoreAllAppend(buffer: seq<Byte>, ws: seq<Write>, vs: seq<Write>)
    ensures StoreAll(buffer, ws + vs) == StoreAll(StoreAll(buffer, ws), vs)
    decreases |vs|
  {
    if |vs| == 0 {
      assert ws + vs == ws;
    } else {
      var m := |vs| - 1;
      assert (ws + vs)[..|ws + vs| - 1] == ws + vs[..m];
      StoreAllAppend(buffer, ws, vs[..m]);
    }
  }

  /**
   * The buffer `drawPixels` returns: `length` zero bytes (the size of the
   * canvas before it is resized) with every store of the grid applied.
   */
  function Encode(grid: seq<seq<Pixel>>, length: nat): (r: seq<Byte>)
    ensures |r| == length
    ensures |grid| == 0 ==> r == Zeros(length)
  {
    StoreAll(Zeros(length), AllWrites(grid))
  }

  /** The pixel made of the four bytes at 4n..4n+3. */
  function PixelAt(data: seq<Byte>, n: nat): Pixel
    requires 4 * n + 3 < |data|
  {
    Pixel(data[4 * n], data[4 * n + 1], data[4 * n + 2], data[4 * n + 3])
  }

  /** The pixels of an RGBA buffer: one per group of four bytes, in order. */
  function Decode(data: seq<Byte>): (ps: seq<Pixel>)
    requires |data| % 4 == 0
    ensures |ps| == |data| / 4
    ensures forall n :: 0 <= n < |ps| ==> ps[n] == PixelAt(data, n)
  {
    if |data| == 0 then [] else [PixelAt(data, 0)] + Decode(data[4..])
  }

  // ---------------------------------------------------------------------
  // Where the stores land

  lemma {:induction false} PixelWritesAt(i: nat, rowLength: nat, j: nat, p: Pixel, n: nat)
    requires n <= 4
    ensures |PixelWrites(i, rowLength, j, p, n)| == n
    ensures forall t :: 0 <= t < n ==>
      PixelWrites(i, rowLength, j, p, n)[t] == Write((i * rowLength + j) * 4 + t, p.Channels()[t])
  {
    if n > 0 {
      PixelWritesAt(i, rowLength, j, p, n - 1);
    }
  }

  lemma {:induction false} RowWritesAt(i: nat, row: seq<Pixel>, n: nat)
    requires n <= |row|
    ensures |RowWrites(i, row, n)| == n * 4
    ensures forall t :: 0 <= t < n * 4 ==> RowWrites(i, row, n)[t].index == i * |row| * 4 + t
  {
    if n > 0 {
      RowWritesAt(i, row, n - 1);
      PixelWritesAt(i, |row|, n - 1, row[n - 1], 4);
      var before := RowWrites(i, row, n - 1);
      var last := PixelWrites(i, |row|, n - 1, row[n - 1], 4);
      forall t | 0 <= t < n * 4
        ensures RowWrites(i, row, n)[t].index == i * |row| * 4 + t
      {
        if t >= (n - 1) * 4 {
          assert RowWrites(i, row, n)[t] == last[t - (n - 1) * 4];
        } else {
          assert RowWrites(i, row, n)[t] == before[t];
        }
      }
    }
  }

  /**
   * For a rectangular grid the t-th store writes index t: the indices are
   * distinct and cover exactly [0, rows * cols * 4).
   */
  lemma {:induction false} GridWritesInOrder(grid: seq<seq<Pixel>>, cols: nat, n: nat)
    requires Rectangular(grid, cols) && n <= |grid|
    ensures |GridWrites(grid, n)| == n * cols * 4
    ensures forall t :: 0 <= t < n * cols * 4 ==> GridWrites(grid, n)[t].index == t
  {
    if n > 0 {
      GridWritesInOrder(grid, cols, n - 1);
      RowWritesAt(n - 1, grid[n - 1], cols);
      var before := GridWrites(grid, n - 1);
      var last := RowWrites(n - 1, grid[n - 1], cols);
      assert |before| == (n - 1) * cols * 4;
      assert (n - 1) * cols * 4 + cols * 4 == n * cols * 4;
      forall t | 0 <= t < n * cols * 4
        ensures GridWrites(grid, n)[t].index == t
      {
        if t >= |before| {
          assert GridWrites(grid, n)[t] == last[t - |before|];
        } else {
          assert GridWrites(grid, n)[t] == before[t];
        }
      }
    }
  }

  // ---------------------------------------------------------------------
  // What the stores write

  lemma {:induction false} ValuesAppend(xs: seq<Write>, ys: seq<Write>)
    ensures Values(xs + ys) == Values(xs) + Values(ys)
  {
  }

  lemma {:induction false} PixelWritesValues(i: nat, rowLength: nat, j: nat, p: Pixel)
    ensures Values(PixelWrites(i, rowLength, j, p, 4)) == p.Channels()
  {
    PixelWritesAt(i, rowLength, j, p, 4);
  }

  lemma {:induction false} RowWritesValues(i: nat, row: seq<Pixel>, n: nat)
    requires n <= |row|
    ensures Values(RowWrites(i, row, n)) == ChannelsOf(row[..n])
  {
    if n > 0 {
      RowWritesValues(i, row, n - 1);
      PixelWritesValues(i, |row|, n - 1, row[n - 1]);
      ValuesAppend(RowWrites(i, row, n - 1), PixelWrites(i, |row|, n - 1, row[n - 1], 4));
      assert row[..n][..n - 1] == row[..n - 1];
    }
  }

  /** Whatever the shape of the grid, the stored values are its channels in row-major order. */
  lemma {:induction false} GridWritesValues(grid: seq<seq<Pixel>>, n: nat)
    requires n <= |grid|
    ensures Values(GridWrites(grid, n)) == ChannelsOf(Flatten(grid[..n]))
  {
    if n > 0 {
      GridWritesValues(grid, n - 1);
      RowWritesValues(n - 1, grid[n - 1], |grid[n - 1]|);
      ValuesAppend(GridWrites(grid, n - 1), RowWrites(n - 1, grid[n - 1], |grid[n - 1]|));
      assert grid[..n][..n - 1] == grid[..n - 1];
      assert grid[n - 1][..|grid[n - 1]|] == grid[n - 1];
      ChannelsOfAppend(Flatten(grid[..n - 1]), grid[n - 1]);
    }
  }

  // ---------------------------------------------------------------------
  // The buffer after the stores

  /**
   * Stores whose t-th element writes index t fill the buffer's first
   * min(|ws|, |buffer|) bytes with the clamped values, drop the rest and leave
   * the tail of the buffer alone.
   */
  lemma {:induction false} StoreAllInOrder(buffer: seq<Byte>, ws: seq<Write>)
    requires forall t :: 0 <= t < |ws| ==> ws[t].index == t
    ensures forall q :: 0 <= q < |buffer| ==>
      StoreAll(buffer, ws)[q] == if q < |ws| then Clamp(ws[q].value) else buffer[q]
  {
    if |ws| > 0 {
      var m := |ws| - 1;
      StoreAllInOrder(buffer, ws[..m]);
    }
  }

  /**
   * The encoder's buffer for a rectangular grid: byte q is the clamped q-th
   * channel value of the grid in row-major order when q < rows*cols*4, and
   * zero (never written) otherwise. Stores past `length` are dropped.
   */
  lemma EncodeRectangular(grid: seq<seq<Pixel>>, cols: nat, length: nat)
    requires Rectangular(grid, cols)
    ensures |Encode(grid, length)| == length
    ensures |ChannelsOf(Flatten(grid))| == |grid| * cols * 4
    ensures forall q :: 0 <= q < length ==>
      Encode(grid, length)[q] == if q < |grid| * cols * 4 then Clamp(ChannelsOf(Flatten(grid))[q]) else 0
  {
    var ws := AllWrites(grid);
    GridWritesInOrder(grid, cols, |grid|);
    GridWritesValues(grid, |grid|);
    assert grid[..|grid|] == grid;
    StoreAllInOrder(Zeros(length), ws);
  }

  /** Each value clamped into 0..255, as a Uint8ClampedArray stores it. */
  function ClampBytes(vs: seq<int>): seq<Byte>
  {
    seq(|vs|, q requires 0 <= q < |vs| => Clamp(vs[q]))
  }

  function ClampPixels(ps: seq<Pixel>): seq<Pixel>
  {
    seq(|ps|, n requires 0 <= n < |ps| => ClampPixel(ps[n]))
  }

  /** Decoding the clamped channels of some pixels gives back those pixels, clamped. */
  lemma DecodeChannels(ps: seq<Pixel>)
    ensures |ClampBytes(ChannelsOf(ps))| % 4 == 0
    ensures Decode(ClampBytes(ChannelsOf(ps))) == ClampPixels(ps)
  {
    ChannelsOfAt(ps);
    var data := ClampBytes(ChannelsOf(ps));
    var decoded := Decode(data);
    forall n | 0 <= n < |ps|
      ensures decoded[n] == ClampPixel(ps[n])
    {
      assert 4 * n + 3 < |data|;
    }
  }

  /**
   * When the buffer is exactly rows*cols*4 bytes long, the encoder's buffer
   * is the grid's channels in row-major order, clamped.
   */
  lemma EncodeExact(grid: seq<seq<Pixel>>, cols: nat)
    requires Rectangular(grid, cols)
    ensures Encode(grid, |grid| * cols * 4) == ClampBytes(ChannelsOf(Flatten(grid)))
  {
    var ws := AllWrites(grid);
    GridWritesInOrder(grid, cols, |grid|);
    GridWritesValues(grid, |grid|);
    assert grid[..|grid|] == grid;
    var length := |ws|;
    assert length == |grid| * cols * 4;
    StoreAllInOrder(Zeros(length), ws);
    var e := Encode(grid, length);
    var c := ClampBytes(Values(ws));
    forall q | 0 <= q < length
      ensures e[q] == c[q]
    {
    }
    assert e == c;
  }

  /**
   * Round trip: when the buffer is exactly rows*cols*4 bytes long, decoding
   * the encoder's buffer gives the grid's pixels in row-major order, each
   * channel clamped into 0..255.
   */
  lemma RoundTrip(grid: seq<seq<Pixel>>, cols: nat)
    requires Rectangular(grid, cols)
    ensures |grid| * cols * 4 % 4 == 0
    ensures Decode(Encode(grid, |grid| * cols * 4)) == ClampPixels(Flatten(grid))
  {
    EncodeExact(grid, cols);
    DecodeChannels(Flatten(grid));
  }

  /** For a grid of byte-valued pixels the round trip is exact. */
  lemma RoundTripBytes(grid: seq<seq<Pixel>>, cols: nat)
    requires Rectangular(grid, cols) && IsByteGrid(grid)
    ensures |grid| * cols * 4 % 4 == 0
    ensures Decode(Encode(grid, |grid| * cols * 4)) == Flatten(grid)
  {
    RoundTrip(grid, cols);
    FlattenBytes(grid);
    var ps := Flatten(grid);
    forall n | 0 <= n < |ps|
      ensures ClampPixels(ps)[n] == ps[n]
    {
      assert IsBytePixel(ps[n]);
    }
  }
}
