/**
 * Error propagation into the residual buffer `buf` of the diffusion loop:
 * three reals per pixel in raster order, so that pixel `(x, y)` of a
 * `W`-wide image owns `buf[(y*W + x)*3 ..][..3]`. Each function is the
 * specification of the in-place method below it.
 */
module Diffusion {
  import opened Pixels
  import opened Kernels

  /** `idx(xx, yy)`: the first of the three `buf` cells of pixel `(xx, yy)`. */
  function Idx(W: nat, xx: nat, yy: nat): nat
  {
    (yy * W + xx) * 3
  }

  /**
   * The error amounts one kernel entry sends: `ar`, `ag`, `ab` towards the
   * pixel `dx` columns right and `dy` rows down.
   */
  datatype Portion = Portion(dx: int, dy: int, ar: real, ag: real, ab: real)

  /** Entry `o` of a kernel carrying the error `(er, eg, eb)`: each channel's error times `o.w`. */
  function PortionOf(er: real, eg: real, eb: real, o: Offset): Portion
  {
    Portion(o.dx, o.dy, er * o.w, eg * o.w, eb * o.w)
  }

  /** The portions of a whole kernel, entry by entry. */
  function Portions(er: real, eg: real, eb: real, k: seq<Offset>): (ps: seq<Portion>)
    ensures |ps| == |k|
  {
    seq(|k|, j requires 0 <= j < |k| => PortionOf(er, eg, eb, k[j]))
  }

  /** Adds `ar`, `ag`, `ab` to the three cells starting at `t`. */
  function Bump(b: seq<real>, t: nat, ar: real, ag: real, ab: real): (c: seq<real>)
    requires t + 2 < |b|
    ensures |c| == |b|
  {
    b[t := b[t] + ar][t + 1 := b[t + 1] + ag][t + 2 := b[t + 2] + ab]
  }

  /**
   * One kernel entry applied at pixel `(xx, yy)`: the amounts are added
   * when the pixel is inside the image, and nothing happens otherwise.
   */
  function AddCell(b: seq<real>, W: nat, H: nat, xx: int, yy: int, ar: real, ag: real, ab: real): (c: seq<real>)
    requires |b| == 3 * (W * H)
    ensures |c| == |b|
  {
    if 0 <= xx < W && 0 <= yy < H then
      RasterBound(W, H, xx, yy);
      Bump(b, Idx(W, xx, yy), ar, ag, ab)
    else b
  }

  /** The first `n` portions sent from pixel `(x, y)`, applied in order. */
  function AddShares(b: seq<real>, W: nat, H: nat, x: int, y: int, ps: seq<Portion>, n: nat): (c: seq<real>)
    requires |b| == 3 * (W * H) && n <= |ps|
    ensures |c| == |b|
  {
    if n == 0 then b
    else
      var q := ps[n - 1];
      AddCell(AddShares(b, W, H, x, y, ps, n - 1), W, H, x + q.dx, y + q.dy, q.ar, q.ag, q.ab)
  }

  /** A whole kernel applied at pixel `(x, y)` with the error `(er, eg, eb)`: all its portions, in order. */
  function AddKernel(b: seq<real>, W: nat, H: nat, x: int, y: int, er: real, eg: real, eb: real, k: seq<Offset>): (c: seq<real>)
    requires |b| == 3 * (W * H)
    ensures |c| == |b|
  {
    AddShares(b, W, H, x, y, Portions(er, eg, eb, k), |k|)
  }

  /** Whether an entry aimed at `(xx, yy)` lands on pixel `p` of the image. */
  predicate Hits(W: nat, H: nat, xx: int, yy: int, p: nat)
  {
    0 <= xx < W && 0 <= yy < H && yy * W + xx == p
  }

  /** What pixel `p` gains from the first `n` portions sent from `(x, y)`: the sum of those that hit it, per channel. */
  function Gain(W: nat, H: nat, x: int, y: int, ps: seq<Portion>, n: nat, p: nat): Color
    requires n <= |ps|
  {
    if n == 0 then Color(0.0, 0.0, 0.0)
    else
      var g := Gain(W, H, x, y, ps, n - 1, p);
      var q := ps[n - 1];
      if Hits(W, H, x + q.dx, y + q.dy, p) then Color(g.r + q.ar, g.g + q.ag, g.b + q.ab) else g
  }

  /** A pixel that none of the first `n` portions hits gains nothing. */
  lemma {:induction false} GainMissed(W: nat, H: nat, x: int, y: int, ps: seq<Portion>, n: nat, p: nat)
    requires n <= |ps| && forall j :: 0 <= j < n ==> !Hits(W, H, x + ps[j].dx, y + ps[j].dy, p)
    ensures Gain(W, H, x, y, ps, n, p) == Color(0.0, 0.0, 0.0)
  {
    if n > 0 {
      GainMissed(W, H, x, y, ps, n - 1, p);
    }
  }

  /** Channel `ch` of a colour: `r`, `g`, `b` for 0, 1, 2. */
  function Channel(c: Color, ch: nat): real
    requires ch < 3
  {
    if ch == 0 then c.r else if ch == 1 then c.g else c.b
  }

  /** One entry, cell by cell: channel `ch` of pixel `p` gains the amount exactly when the entry hits it. */
  lemma AddCellAt(b: seq<real>, W: nat, H: nat, xx: int, yy: int, ar: real, ag: real, ab: real, p: nat, ch: nat)
    requires |b| == 3 * (W * H) && p < W * H && ch < 3
    ensures AddCell(b, W, H, xx, yy, ar, ag, ab)[3 * p + ch] ==
            b[3 * p + ch] + (if Hits(W, H, xx, yy, p) then Channel(Color(ar, ag, ab), ch) else 0.0)
  {
    if 0 <= xx < W && 0 <= yy < H {
      RasterBound(W, H, xx, yy);
      var q := yy * W + xx;
      assert Idx(W, xx, yy) == 3 * q;
    }
  }

  /** Portions, cell by cell: channel `ch` of pixel `p` gains what hits `p` and nothing else. */
  lemma {:induction false} AddSharesChannel(b: seq<real>, W: nat, H: nat, x: int, y: int, ps: seq<Portion>, n: nat, p: nat, ch: nat)
    requires |b| == 3 * (W * H) && n <= |ps| && p < W * H && ch < 3
    ensures AddShares(b, W, H, x, y, ps, n)[3 * p + ch] == b[3 * p + ch] + Channel(Gain(W, H, x, y, ps, n, p), ch)
  {
    if n > 0 {
      var q := ps[n - 1];
      AddSharesChannel(b, W, H, x, y, ps, n - 1, p, ch);
      AddCellAt(AddShares(b, W, H, x, y, ps, n - 1), W, H, x + q.dx, y + q.dy, q.ar, q.ag, q.ab, p, ch);
    }
  }

  /** Portions, cell by cell: each channel of pixel `p` gains what hits `p` and nothing else. */
  lemma AddSharesAt(b: seq<real>, W: nat, H: nat, x: int, y: int, ps: seq<Portion>, n: nat, p: nat)
    requires |b| == 3 * (W * H) && n <= |ps| && p < W * H
    ensures var c := AddShares(b, W, H, x, y, ps, n);
            var g := Gain(W, H, x, y, ps, n, p);
            c[3 * p] == b[3 * p] + g.r && c[3 * p + 1] == b[3 * p + 1] + g.g && c[3 * p + 2] == b[3 * p + 2] + g.b
  {
    AddSharesChannel(b, W, H, x, y, ps, n, p, 0);
    AddSharesChannel(b, W, H, x, y, ps, n, p, 1);
    AddSharesChannel(b, W, H, x, y, ps, n, p, 2);
  }

  /**
   * Cell by cell: each channel of pixel `p` gains its error times `w`,
   * summed over the entries whose target is inside the image and is `p`;
   * out-of-image entries add nothing.
   */
  lemma AddKernelAt(b: seq<real>, W: nat, H: nat, x: int, y: int, er: real, eg: real, eb: real, k: seq<Offset>, p: nat)
    requires |b| == 3 * (W * H) && p < W * H
    ensures var c := AddKernel(b, W, H, x, y, er, eg, eb, k);
            var g := Gain(W, H, x, y, Portions(er, eg, eb, k), |k|, p);
            c[3 * p] == b[3 * p] + g.r && c[3 * p + 1] == b[3 * p + 1] + g.g && c[3 * p + 2] == b[3 * p + 2] + g.b
  {
    AddSharesAt(b, W, H, x, y, Portions(er, eg, eb, k), |k|, p);
  }

  /** Every pixel that no entry of the kernel hits keeps its three values. */
  lemma AddKernelElsewhere(b: seq<real>, W: nat, H: nat, x: int, y: int, er: real, eg: real, eb: real, k: seq<Offset>, p: nat)
    requires |b| == 3 * (W * H) && p < W * H
    requires forall j :: 0 <= j < |k| ==> !Hits(W, H, x + k[j].dx, y + k[j].dy, p)
    ensures var c := AddKernel(b, W, H, x, y, er, eg, eb, k);
            c[3 * p] == b[3 * p] && c[3 * p + 1] == b[3 * p + 1] && c[3 * p + 2] == b[3 * p + 2]
  {
    var ps := Portions(er, eg, eb, k);
    forall j | 0 <= j < |k| ensures !Hits(W, H, x + ps[j].dx, y + ps[j].dy, p) {
      assert ps[j] == PortionOf(er, eg, eb, k[j]);
    }
    GainMissed(W, H, x, y, ps, |k|, p);
    AddSharesAt(b, W, H, x, y, ps, |k|, p);
  }

  /** A forward entry that lands inside the image lands on a later pixel. */
  lemma ForwardTarget(W: nat, x: nat, y: nat, o: Offset)
    requires Forward(o) && x < W && 0 <= x + o.dx < W && 0 <= y + o.dy
    ensures (y + o.dy) * W + (x + o.dx) > y * W + x
  {
    if o.dy > 0 {
      assert (y + 1) * W == y * W + W;
      MulMonotone(y + 1, y + o.dy, W);
    }
  }

  /** An entry that lands at or after cell `m`, or outside the image, leaves `b[..m]` alone. */
  lemma AddCellKeepsPrefix(b: seq<real>, W: nat, H: nat, xx: int, yy: int, ar: real, ag: real, ab: real, m: nat)
    requires |b| == 3 * (W * H) && m <= |b|
    requires 0 <= xx < W && 0 <= yy < H ==> m <= 3 * (yy * W + xx)
    ensures AddCell(b, W, H, xx, yy, ar, ag, ab)[..m] == b[..m]
  {
    if 0 <= xx < W && 0 <= yy < H {
      RasterBound(W, H, xx, yy);
      BumpKeepsPrefix(b, Idx(W, xx, yy), ar, ag, ab, m);
    }
  }

  lemma BumpKeepsPrefix(b: seq<real>, t: nat, ar: real, ag: real, ab: real, m: nat)
    requires t + 2 < |b| && m <= t
    ensures Bump(b, t, ar, ag, ab)[..m] == b[..m]
  {
    var c := Bump(b, t, ar, ag, ab);
    forall i | 0 <= i < m ensures c[i] == b[i] {
    }
  }

  /** Every portion sent from `(x, y)` lands outside the image or at cell `m` or later. */
  predicate LandsFrom(W: nat, H: nat, x: int, y: int, ps: seq<Portion>, m: nat)
  {
    forall i :: 0 <= i < |ps| && 0 <= x + ps[i].dx < W && 0 <= y + ps[i].dy < H ==>
      m <= 3 * ((y + ps[i].dy) * W + (x + ps[i].dx))
  }

  /** Portions that land at cell `m` or later leave `b[..m]` alone. */
  lemma {:induction false} AddSharesKeepPrefix(b: seq<real>, W: nat, H: nat, x: int, y: int, ps: seq<Portion>, n: nat, m: nat)
    requires |b| == 3 * (W * H) && n <= |ps| && m <= |b| && LandsFrom(W, H, x, y, ps, m)
    ensures AddShares(b, W, H, x, y, ps, n)[..m] == b[..m]
  {
    if n > 0 {
      var q := ps[n - 1];
      AddSharesKeepPrefix(b, W, H, x, y, ps, n - 1, m);
      AddCellKeepsPrefix(AddShares(b, W, H, x, y, ps, n - 1), W, H, x + q.dx, y + q.dy, q.ar, q.ag, q.ab, m);
    }
  }

  /** A kernel whose entries all point forward sends its portions past the cells of pixel `(x, y)`. */
  lemma ForwardLandsAfter(W: nat, H: nat, x: nat, y: nat, er: real, eg: real, eb: real, k: seq<Offset>)
    requires x < W && AllForward(k)
    ensures LandsFrom(W, H, x, y, Portions(er, eg, eb, k), 3 * (y * W + x + 1))
  {
    var ps := Portions(er, eg, eb, k);
    forall i | 0 <= i < |ps| && 0 <= x + ps[i].dx < W && 0 <= y + ps[i].dy < H
      ensures 3 * (y * W + x + 1) <= 3 * ((y + ps[i].dy) * W + (x + ps[i].dx))
    {
      assert ps[i] == PortionOf(er, eg, eb, k[i]);
      ForwardTarget(W, x, y, k[i]);
    }
  }

  /**
   * A kernel whose entries all point forward leaves the cells of pixel
   * `(x, y)` and of every pixel before it as they were.
   */
  lemma AddKernelForward(b: seq<real>, W: nat, H: nat, x: nat, y: nat, er: real, eg: real, eb: real, k: seq<Offset>)
    requires |b| == 3 * (W * H) && x < W && y < H && AllForward(k)
    ensures (RasterBound(W, H, x, y);
             AddKernel(b, W, H, x, y, er, eg, eb, k)[..3 * (y * W + x + 1)] == b[..3 * (y * W + x + 1)])
  {
    RasterBound(W, H, x, y);
    ForwardLandsAfter(W, H, x, y, er, eg, eb, k);
    AddSharesKeepPrefix(b, W, H, x, y, Portions(er, eg, eb, k), |k|, 3 * (y * W + x + 1));
  }

  /** Adds the error share to the three cells at `t`, as the inline kernel code does. */
  method AddAt(buf: array<real>, t: nat, er: real, eg: real, eb: real, w: real)
    requires t + 2 < buf.Length
    modifies buf
    ensures buf[..] == Bump(old(buf[..]), t, er * w, eg * w, eb * w)
  {
    buf[t] := buf[t] + er * w;
    buf[t + 1] := buf[t + 1] + eg * w;
    buf[t + 2] := buf[t + 2] + eb * w;
  }

  /**
   * The bounds-checked add of Atkinson's `add(xx, yy)` and of the body of
   * `diffuseKernel`'s loop.
   */
  method AddCellInPlace(buf: array<real>, W: nat, H: nat, xx: int, yy: int, er: real, eg: real, eb: real, w: real)
    requires buf.Length == 3 * (W * H)
    modifies buf
    ensures buf[..] == AddCell(old(buf[..]), W, H, xx, yy, er * w, eg * w, eb * w)
  {
    if xx >= 0 && xx < W && yy >= 0 && yy < H {
      RasterBound(W, H, xx, yy);
      AddAt(buf, Idx(W, xx, yy), er, eg, eb, w);
    }
  }

  /**
   * Portion `j` applied in place, by the bounds-checked add of Atkinson's
   * `add(xx, yy)` and of the body of `diffuseKernel`'s loop, to a buffer
   * that already holds the first `j` portions.
   */
  method AddEntryInPlace(buf: array<real>, W: nat, H: nat, x: int, y: int, er: real, eg: real, eb: real,
                         ghost b0: seq<real>, ghost ps: seq<Portion>, ghost j: nat, xx: int, yy: int, w: real)
    requires buf.Length == 3 * (W * H) && |b0| == buf.Length && j < |ps|
    requires ps[j] == Portion(xx - x, yy - y, er * w, eg * w, eb * w)
    requires buf[..] == AddShares(b0, W, H, x, y, ps, j)
    modifies buf
    ensures buf[..] == AddShares(b0, W, H, x, y, ps, j + 1)
  {
    AddCellInPlace(buf, W, H, xx, yy, er, eg, eb, w);
  }

  /** Entry `t` of a kernel, the `j`-th portion of `ps`, applied in place. */
  method AddOffsetInPlace(buf: array<real>, W: nat, H: nat, x: int, y: int, er: real, eg: real, eb: real,
                          ghost b0: seq<real>, ghost ps: seq<Portion>, ghost j: nat, t: Offset)
    requires buf.Length == 3 * (W * H) && |b0| == buf.Length && j < |ps| && ps[j] == PortionOf(er, eg, eb, t)
    requires buf[..] == AddShares(b0, W, H, x, y, ps, j)
    modifies buf
    ensures buf[..] == AddShares(b0, W, H, x, y, ps, j + 1)
  {
    AddEntryInPlace(buf, W, H, x, y, er, eg, eb, b0, ps, j, x + t.dx, y + t.dy, t.w);
  }

  /** A portion whose target lies outside the image adds nothing. */
  lemma SkipEntry(b: seq<real>, W: nat, H: nat, x: int, y: int, ps: seq<Portion>, j: nat)
    requires |b| == 3 * (W * H) && j < |ps|
    requires !(0 <= x + ps[j].dx < W && 0 <= y + ps[j].dy < H)
    ensures AddShares(b, W, H, x, y, ps, j + 1) == AddShares(b, W, H, x, y, ps, j)
  {
  }

  /**
   * The same for the inline Floyd–Steinberg code, whose own guards have
   * already put the target `(xx, yy)` inside the image; `t` is its `idx`.
   */
  method AddAtEntry(buf: array<real>, W: nat, H: nat, x: int, y: int, er: real, eg: real, eb: real,
                    ghost b0: seq<real>, ghost ps: seq<Portion>, ghost j: nat, ghost xx: int, ghost yy: int, t: nat, w: real)
    requires buf.Length == 3 * (W * H) && |b0| == buf.Length && j < |ps|
    requires ps[j] == Portion(xx - x, yy - y, er * w, eg * w, eb * w)
    requires 0 <= xx < W && 0 <= yy < H && t == Idx(W, xx, yy)
    requires buf[..] == AddShares(b0, W, H, x, y, ps, j)
    modifies buf
    ensures buf[..] == AddShares(b0, W, H, x, y, ps, j + 1)
  {
    RasterBound(W, H, xx, yy);
    AddAt(buf, t, er, eg, eb, w);
  }

  /** `diffuseKernel`: applies each entry of `kernel` in turn. */
  method DiffuseKernel(buf: array<real>, W: nat, H: nat, x: int, y: int, er: real, eg: real, eb: real, kernel: seq<Offset>)
    requires buf.Length == 3 * (W * H)
    modifies buf
    ensures buf[..] == AddKernel(old(buf[..]), W, H, x, y, er, eg, eb, kernel)
  {
    ghost var b := buf[..];
    ghost var ps := Portions(er, eg, eb, kernel);
    for i := 0 to |kernel|
      invariant buf[..] == AddShares(b, W, H, x, y, ps, i)
    {
      AddOffsetInPlace(buf, W, H, x, y, er, eg, eb, b, ps, i, kernel[i]);
    }
  }

  /** The portions of the `FLOYD_STEINBERG` kernel: `7/16` to the right, `3/16`, `5/16` and `1/16` below. */
  lemma FloydSteinbergPortions(er: real, eg: real, eb: real)
    ensures var ps := Portions(er, eg, eb, FLOYD_STEINBERG);
            var n1, n2, n3, n4 := 7.0 / 16.0, 3.0 / 16.0, 5.0 / 16.0, 1.0 / 16.0;
            && ps[0] == Portion(1, 0, er * n1, eg * n1, eb * n1)
            && ps[1] == Portion(-1, 1, er * n2, eg * n2, eb * n2)
            && ps[2] == Portion(0, 1, er * n3, eg * n3, eb * n3)
            && ps[3] == Portion(1, 1, er * n4, eg * n4, eb * n4)
  {
  }

  /**
   * The inline Floyd–Steinberg branch: its four guarded adds are the
   * `FLOYD_STEINBERG` kernel.
   */
  method FloydSteinberg(buf: array<real>, W: nat, H: nat, x: nat, y: nat, er: real, eg: real, eb: real)
    requires buf.Length == 3 * (W * H) && x < W && y < H
    modifies buf
    ensures buf[..] == AddKernel(old(buf[..]), W, H, x, y, er, eg, eb, FLOYD_STEINBERG)
  {
    ghost var b0 := buf[..];
    ghost var ps := Portions(er, eg, eb, FLOYD_STEINBERG);
    var n1, n2, n3, n4 := 7.0 / 16.0, 3.0 / 16.0, 5.0 / 16.0, 1.0 / 16.0;
    FloydSteinbergPortions(er, eg, eb);
    if x + 1 < W {
      AddAtEntry(buf, W, H, x, y, er, eg, eb, b0, ps, 0, x + 1, y, Idx(W, x + 1, y), n1);
    }
    FloydSteinbergBelow(buf, W, H, x, y, er, eg, eb, b0, ps, n2, n3, n4);
  }

  /** The `y+1 < dstH` block of the Floyd–Steinberg branch: entries 1 to 3, below the pixel. */
  method FloydSteinbergBelow(buf: array<real>, W: nat, H: nat, x: nat, y: nat, er: real, eg: real, eb: real,
                             ghost b0: seq<real>, ghost ps: seq<Portion>, n2: real, n3: real, n4: real)
    requires buf.Length == 3 * (W * H) && |b0| == buf.Length && x < W && y < H
    requires ps == Portions(er, eg, eb, FLOYD_STEINBERG)
    requires n2 == 3.0 / 16.0 && n3 == 5.0 / 16.0 && n4 == 1.0 / 16.0
    requires buf[..] == AddShares(b0, W, H, x, y, ps, 1)
    modifies buf
    ensures buf[..] == AddShares(b0, W, H, x, y, ps, 4)
  {
    if y + 1 < H {
      FloydSteinbergNextRow(buf, W, H, x, y, er, eg, eb, b0, ps, n2, n3, n4);
    } else {
      FloydSteinbergPortions(er, eg, eb);
      SkipEntry(b0, W, H, x, y, ps, 1);
      SkipEntry(b0, W, H, x, y, ps, 2);
      SkipEntry(b0, W, H, x, y, ps, 3);
    }
  }

  /** The body of the `y+1 < dstH` block: the three adds into the next row. */
  method FloydSteinbergNextRow(buf: array<real>, W: nat, H: nat, x: nat, y: nat, er: real, eg: real, eb: real,
                               ghost b0: seq<real>, ghost ps: seq<Portion>, n2: real, n3: real, n4: real)
    requires buf.Length == 3 * (W * H) && |b0| == buf.Length && x < W && y + 1 < H
    requires ps == Portions(er, eg, eb, FLOYD_STEINBERG)
    requires n2 == 3.0 / 16.0 && n3 == 5.0 / 16.0 && n4 == 1.0 / 16.0
    requires buf[..] == AddShares(b0, W, H, x, y, ps, 1)
    modifies buf
    ensures buf[..] == AddShares(b0, W, H, x, y, ps, 4)
  {
    FloydSteinbergPortions(er, eg, eb);
    if x - 1 >= 0 {
      AddAtEntry(buf, W, H, x, y, er, eg, eb, b0, ps, 1, x - 1, y + 1, Idx(W, x - 1, y + 1), n2);
    }
    {
      AddAtEntry(buf, W, H, x, y, er, eg, eb, b0, ps, 2, x, y + 1, Idx(W, x, y + 1), n3);
    }
    FloydSteinbergBelowRight(buf, W, H, x, y, er, eg, eb, b0, ps, n4);
  }

  /** The last add of the `y+1 < dstH` block, below and to the right, guarded by `x+1 < dstW`. */
  method FloydSteinbergBelowRight(buf: array<real>, W: nat, H: nat, x: nat, y: nat, er: real, eg: real, eb: real,
                                  ghost b0: seq<real>, ghost ps: seq<Portion>, n4: real)
    requires buf.Length == 3 * (W * H) && |b0| == buf.Length && x < W && y + 1 < H
    requires ps == Portions(er, eg, eb, FLOYD_STEINBERG) && n4 == 1.0 / 16.0
    requires buf[..] == AddShares(b0, W, H, x, y, ps, 3)
    modifies buf
    ensures buf[..] == AddShares(b0, W, H, x, y, ps, 4)
  {
    FloydSteinbergPortions(er, eg, eb);
    if x + 1 < W {
      AddAtEntry(buf, W, H, x, y, er, eg, eb, b0, ps, 3, x + 1, y + 1, Idx(W, x + 1, y + 1), n4);
    }
  }

  /** The portions of the `ATKINSON` kernel: `1/8` of the error at each of its six offsets. */
  lemma AtkinsonPortions(er: real, eg: real, eb: real)
    ensures var ps := Portions(er, eg, eb, ATKINSON);
            var n := 1.0 / 8.0;
            && ps[0] == Portion(1, 0, er * n, eg * n, eb * n)
            && ps[1] == Portion(2, 0, er * n, eg * n, eb * n)
            && ps[2] == Portion(-1, 1, er * n, eg * n, eb * n)
            && ps[3] == Portion(0, 1, er * n, eg * n, eb * n)
            && ps[4] == Portion(1, 1, er * n, eg * n, eb * n)
            && ps[5] == Portion(0, 2, er * n, eg * n, eb * n)
  {
  }

  /** The inline Atkinson branch: six bounds-checked adds of `1/8`, the `ATKINSON` kernel. */
  method Atkinson(buf: array<real>, W: nat, H: nat, x: int, y: int, er: real, eg: real, eb: real)
    requires buf.Length == 3 * (W * H)
    modifies buf
    ensures buf[..] == AddKernel(old(buf[..]), W, H, x, y, er, eg, eb, ATKINSON)
  {
    ghost var b0 := buf[..];
    ghost var ps := Portions(er, eg, eb, ATKINSON);
    var n := 1.0 / 8.0;
    AtkinsonPortions(er, eg, eb);
    AddEntryInPlace(buf, W, H, x, y, er, eg, eb, b0, ps, 0, x + 1, y, n);
    AddEntryInPlace(buf, W, H, x, y, er, eg, eb, b0, ps, 1, x + 2, y, n);
    AddEntryInPlace(buf, W, H, x, y, er, eg, eb, b0, ps, 2, x - 1, y + 1, n);
    AddEntryInPlace(buf, W, H, x, y, er, eg, eb, b0, ps, 3, x, y + 1, n);
    AddEntryInPlace(buf, W, H, x, y, er, eg, eb, b0, ps, 4, x + 1, y + 1, n);
    AddEntryInPlace(buf, W, H, x, y, er, eg, eb, b0, ps, 5, x, y + 2, n);
  }
}
