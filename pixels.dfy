/**
 * Shared value types of the quantizer: bytes as a Uint8ClampedArray stores
 * them, integer palette colours and real-valued lookup colours, the clamp
 * used before every palette lookup, and the store-time rounding of a
 * Uint8ClampedArray.
 */
module Pixels {

  /** One channel value of an RGBA pixel buffer. */
  type Byte = x: int | 0 <= x < 256

  /** A colour whose channels are bytes: a palette entry or a stored pixel. */
  datatype Rgb = Rgb(r: Byte, g: Byte, b: Byte)

  /**
   * A colour whose channels are reals: a query handed to the palette search.
   * Jittered and diffused values may be fractional or outside [0, 255].
   */
  datatype Color = Color(r: real, g: real, b: real)

  /** The real-valued colour with the same channels as `c`. */
  function ToColor(c: Rgb): Color
  {
    Color(c.r as real, c.g as real, c.b as real)
  }

  /** `clamp255`: pins a value into [0, 255]. */
  function Clamp255(v: real): (r: real)
    ensures 0.0 <= r <= 255.0
    ensures 0.0 <= v <= 255.0 ==> r == v
  {
    if v < 0.0 then 0.0 else if v > 255.0 then 255.0 else v
  }

  /** Clamping picks the point of [0, 255] nearest to the input. */
  lemma Clamp255Nearest(v: real, u: real)
    requires 0.0 <= u <= 255.0
    ensures Abs(v - Clamp255(v)) <= Abs(v - u)
  {
  }

  /** Clamping is monotone. */
  lemma Clamp255Monotone(v: real, w: real)
    requires v <= w
    ensures Clamp255(v) <= Clamp255(w)
  {
  }

  function Abs(v: real): (r: real)
    ensures r >= 0.0 && (r == v || r == -v)
  {
    if v < 0.0 then -v else v
  }

  /**
   * The conversion a Uint8ClampedArray applies when a number is stored into
   * it (ToUint8Clamp of ECMAScript): clamp to [0, 255], then round to the
   * nearest integer, halves to the even neighbour.
   */
  function ToUint8Clamp(v: real): (b: Byte)
    ensures 0.0 <= v <= 255.0 ==> v.Floor <= b <= v.Floor + 1 && Abs(b as real - v) <= 0.5
    ensures v <= 0.0 ==> b == 0
    ensures v >= 255.0 ==> b == 255
  {
    if v <= 0.0 then 0
    else if v >= 255.0 then 255
    else
      var f := v.Floor;
      if (f as real) + 0.5 < v then f + 1
      else if v < (f as real) + 0.5 then f
      else if f % 2 == 1 then f + 1
      else f
  }

  /** Storing a value that already is a byte stores it unchanged. */
  lemma ToUint8ClampExact(v: Byte)
    ensures ToUint8Clamp(v as real) == v
  {
  }

  /** No byte is nearer to the stored value's input than the stored byte. */
  lemma ToUint8ClampNearest(v: real, u: Byte)
    requires 0.0 <= v <= 255.0
    ensures Abs(ToUint8Clamp(v) as real - v) <= Abs(u as real - v)
  {
    var f := v.Floor;
    var b := ToUint8Clamp(v);
    assert f as real <= v < f as real + 1.0;
    if u <= f {
      assert Abs(u as real - v) == v - u as real >= v - f as real;
      if b == f + 1 {
        assert v >= f as real + 0.5;
      }
    } else {
      assert u >= f + 1;
      assert Abs(u as real - v) == u as real - v >= f as real + 1.0 - v;
      if b == f {
        assert v <= f as real + 0.5;
      }
    }
  }

  /** The RGB channels of pixel `p` of an RGBA buffer (bytes `4p`, `4p+1`, `4p+2`). */
  function PixelAt(s: seq<Byte>, p: nat): Rgb
    requires 4 * p + 3 < |s|
  {
    Rgb(s[4 * p], s[4 * p + 1], s[4 * p + 2])
  }

  /**
   * The raster index `y * W + x` of the pixel in column `x` of row `y` of a
   * `W`-wide image lies below `W * H`.
   */
  lemma RasterBound(W: nat, H: nat, x: nat, y: nat)
    requires x < W && y < H
    ensures y * W + x < W * H
  {
    assert y * W <= (H - 1) * W by {
      MulMonotone(y, H - 1, W);
    }
    assert (H - 1) * W + W == H * W;
  }

  /** The raster index of the first pixel of row `y`, counted row by row. */
  function RowStart(W: nat, y: nat): (r: nat)
  {
    if y == 0 then 0 else RowStart(W, y - 1) + W
  }

  /** Row `y` starts at raster index `y * W`. */
  lemma {:induction false} RowStartIs(W: nat, y: nat)
    ensures RowStart(W, y) == y * W
  {
    if y > 0 {
      RowStartIs(W, y - 1);
      assert y * W == (y - 1) * W + W;
    }
  }

  /** After the last row, the raster index is the pixel count. */
  lemma AllRows(W: nat, H: nat)
    ensures RowStart(W, H) == W * H
  {
    RowStartIs(W, H);
  }

  /** Every pixel of row `y < H` has a raster index below `W * H`. */
  lemma RowInImage(W: nat, H: nat, x: nat, y: nat)
    requires x < W && y < H
    ensures RowStart(W, y) + x < W * H
  {
    RowStartIs(W, y);
    RasterBound(W, H, x, y);
  }

  /** Row `y < H` ends, and row `y + 1` starts, within the image. */
  lemma RowFits(W: nat, H: nat, y: nat)
    requires y < H
    ensures RowStart(W, y + 1) == RowStart(W, y) + W <= W * H
  {
    RowStartIs(W, y + 1);
    MulMonotone(y + 1, H, W);
  }

  /** Distinct columns or rows give distinct raster indices. */
  lemma RasterUnique(W: nat, x: nat, y: nat, x': nat, y': nat)
    requires x < W && x' < W && y * W + x == y' * W + x'
    ensures x == x' && y == y'
  {
    if y < y' {
      assert (y + 1) * W == y * W + W;
      MulMonotone(y + 1, y', W);
      assert false;
    } else if y > y' {
      assert (y' + 1) * W == y' * W + W;
      MulMonotone(y' + 1, y, W);
      assert false;
    }
  }

  /**
   * The column and row of pixel `n` of a `W`-wide image, counted the way
   * the nested `for(y...) for(x...)` loops reach it.
   */
  function Coords(W: nat, n: nat): (c: (nat, nat))
    requires W > 0
    ensures c.0 < W && c.1 * W + c.0 == n
  {
    if n == 0 then (0, 0)
    else
      var c := Coords(W, n - 1);
      if c.0 + 1 < W then (c.0 + 1, c.1)
      else
        assert (c.1 + 1) * W == c.1 * W + W;
        (0, c.1 + 1)
  }

  /** Pixel `y * W + x` is column `x` of row `y`. */
  lemma CoordsOf(W: nat, x: nat, y: nat)
    requires x < W
    ensures Coords(W, y * W + x) == (x, y)
  {
    var c := Coords(W, y * W + x);
    RasterUnique(W, c.0, c.1, x, y);
  }

  /** A pixel index below `W * H` lies in a row below `H`. */
  lemma CoordsInImage(W: nat, H: nat, p: nat)
    requires p < W * H
    ensures W > 0 && Coords(W, p).1 < H
  {
    var c := Coords(W, p);
    if c.1 >= H {
      assert H * W == W * H;
      MulMonotone(H, c.1, W);
    }
  }

  /** Multiplication by a natural number is monotone. */
  lemma MulMonotone(a: nat, b: nat, c: nat)
    requires a <= b
    ensures a * c <= b * c
  {
    assert b * c == a * c + (b - a) * c;
  }
}
