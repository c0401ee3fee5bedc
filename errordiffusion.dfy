/**
 * The error-diffusion pass of `processImage`: the RGB channels are copied
 * into a residual buffer `buf` (three reals per pixel), then the pixels are
 * visited in raster order. Each pixel's palette colour is looked up from its
 * clamped residual and written to the RGBA buffer at once; the unclamped
 * residual minus that colour is the error, spread over later pixels by the
 * kernel the dither mode names. Nothing is ever copied back from `buf`.
 */
module ErrorDiffusion {
  import opened Pixels
  import opened Palette
  import opened Kernels
  import opened Diffusion
  import opened Output

  const FLOYD_STEINBERG_MODE: string := "Floyd–Steinberg"
  const ATKINSON_MODE: string := "Atkinson"

  datatype Option<T> = None | Some(value: T)

  // ------------------------------------------------------------- kernels

  /**
   * The kernel the per-pixel `if` chain applies for mode `dither`: the
   * inline Floyd–Steinberg and Atkinson code, the `KERNELS` entry, or
   * `None` when no branch matches and no error is propagated.
   */
  function KernelOf(dither: string): (k: Option<seq<Offset>>)
    ensures (KernelsForward(); k.Some? ==> AllForward(k.value))
    ensures k.None? <==> dither != FLOYD_STEINBERG_MODE && dither != ATKINSON_MODE && dither !in KERNELS
  {
    if dither == FLOYD_STEINBERG_MODE then Some(FLOYD_STEINBERG)
    else if dither == ATKINSON_MODE then Some(ATKINSON)
    else if dither in KERNELS then Some(KERNELS[dither])
    else None
  }

  /** The error of pixel `(x, y)` spread by `kernel`; without a kernel the buffer stays. */
  function Spread(b: seq<real>, W: nat, H: nat, x: nat, y: nat, er: real, eg: real, eb: real, kernel: Option<seq<Offset>>): (c: seq<real>)
    requires |b| == 3 * (W * H)
    ensures |c| == |b|
  {
    match kernel
    case None => b
    case Some(k) => AddKernel(b, W, H, x, y, er, eg, eb, k)
  }

  /** A forward kernel, or none, leaves the cells of pixel `(x, y)` and of all pixels before it alone. */
  lemma SpreadForward(b: seq<real>, W: nat, H: nat, x: nat, y: nat, er: real, eg: real, eb: real, kernel: Option<seq<Offset>>)
    requires |b| == 3 * (W * H) && x < W && y < H
    requires kernel.Some? ==> AllForward(kernel.value)
    ensures (RasterBound(W, H, x, y);
             Spread(b, W, H, x, y, er, eg, eb, kernel)[..3 * (y * W + x + 1)] == b[..3 * (y * W + x + 1)])
  {
    if kernel.Some? {
      AddKernelForward(b, W, H, x, y, er, eg, eb, kernel.value);
    }
  }

  // ----------------------------------------------------------- residuals

  /** The residual buffer after the copy loop: the RGB channels of the first `n` pixels of `s`, as reals. */
  function Residuals(s: seq<Byte>, n: nat): (b: seq<real>)
    requires 4 * n <= |s|
    ensures |b| == 3 * n
  {
    if n == 0 then []
    else Residuals(s, n - 1) + [s[4 * (n - 1)] as real, s[4 * (n - 1) + 1] as real, s[4 * (n - 1) + 2] as real]
  }

  /** Cell by cell: channel `ch` of pixel `p` of the residual buffer is byte `4p + ch` of the input. */
  lemma {:induction false} ResidualsAt(s: seq<Byte>, n: nat, p: nat, ch: nat)
    requires 4 * n <= |s| && p < n && ch < 3
    ensures Residuals(s, n)[3 * p + ch] == s[4 * p + ch] as real
  {
    if p < n - 1 {
      ResidualsAt(s, n - 1, p, ch);
    }
  }

  /** `buf[j]=data[i]; buf[j+1]=data[i+1]; buf[j+2]=data[i+2]`, pixel `p` of the copy loop. */
  method CopyPixel(data: array<Byte>, buf: array<real>, i: nat, j: nat, ghost p: nat)
    requires i == 4 * p && j == 3 * p && i + 4 <= data.Length && j + 3 <= buf.Length
    requires buf[..j] == Residuals(data[..], p)
    modifies buf
    ensures buf[..j + 3] == Residuals(data[..], p + 1)
  {
    buf[j] := data[i] as real;
    buf[j + 1] := data[i + 1] as real;
    buf[j + 2] := data[i + 2] as real;
    assert buf[..j + 3] == buf[..j] + [buf[j], buf[j + 1], buf[j + 2]];
  }

  /** `for(let i=0,j=0;i<data.length;i+=4,j+=3)`: fills `buf` with the RGB channels of `data`. */
  method CopyResiduals(data: array<Byte>, buf: array<real>, ghost pixels: nat)
    requires data.Length == 4 * pixels && buf.Length == 3 * pixels
    modifies buf
    ensures buf[..] == Residuals(data[..], pixels)
  {
    var i, j := 0, 0;
    ghost var p := 0;
    while i < data.Length
      invariant 0 <= p <= pixels && i == 4 * p && j == 3 * p
      invariant buf[..j] == Residuals(data[..], p)
    {
      assert p < pixels;
      CopyPixel(data, buf, i, j, p);
      i, j, p := i + 4, j + 3, p + 1;
    }
    assert p == pixels && buf[..j] == buf[..];
  }

  // ------------------------------------------------------ specification

  /** The loop's state: the residual buffer and the colours written so far, pixel after pixel. */
  datatype Pass = Pass(buf: seq<real>, colors: seq<Rgb>)

  /** What the lookup is handed for the pixel whose cells start at `k`: each residual clamped. */
  function Clamped(b: seq<real>, k: nat): Color
    requires k + 2 < |b|
  {
    Color(Clamp255(b[k]), Clamp255(b[k + 1]), Clamp255(b[k + 2]))
  }

  /**
   * Pixel `(x, y)` of the loop: the colour looked up from the clamped
   * residual is written, and the unclamped residual minus it is spread.
   */
  function Step(st: Pass, W: nat, H: nat, x: nat, y: nat, kernel: Option<seq<Offset>>, near: Color -> Rgb): (r: Pass)
    requires |st.buf| == 3 * (W * H) && x < W && y < H
    ensures |r.buf| == |st.buf| && |r.colors| == |st.colors| + 1 && r.colors[..|st.colors|] == st.colors
  {
    RasterBound(W, H, x, y);
    var k := Idx(W, x, y);
    var q := near(Clamped(st.buf, k));
    Pass(Spread(st.buf, W, H, x, y, st.buf[k] - q.r as real, st.buf[k + 1] - q.g as real, st.buf[k + 2] - q.b as real, kernel),
         st.colors + [q])
  }

  /** The state after the first `n` pixels in raster order, starting from the residual buffer `b0`. */
  function Diffused(b0: seq<real>, W: nat, H: nat, kernel: Option<seq<Offset>>, near: Color -> Rgb, n: nat): (st: Pass)
    requires |b0| == 3 * (W * H) && n <= W * H
    ensures |st.buf| == |b0| && |st.colors| == n
  {
    if n == 0 then Pass(b0, [])
    else
      CoordsInImage(W, H, n - 1);
      var c := Coords(W, n - 1);
      Step(Diffused(b0, W, H, kernel, near, n - 1), W, H, c.0, c.1, kernel, near)
  }

  /** Pixel `p = y*W + x` is the step from `Diffused(p)` to `Diffused(p + 1)`. */
  lemma DiffusedStep(b0: seq<real>, W: nat, H: nat, kernel: Option<seq<Offset>>, near: Color -> Rgb, p: nat, x: nat, y: nat)
    requires |b0| == 3 * (W * H) && x < W && y < H && p == y * W + x < W * H
    ensures Diffused(b0, W, H, kernel, near, p + 1) == Step(Diffused(b0, W, H, kernel, near, p), W, H, x, y, kernel, near)
  {
    CoordsOf(W, x, y);
  }

  /** `Step` in terms of the colour `q` written and the error `er, eg, eb` spread. */
  lemma StepIs(st: Pass, W: nat, H: nat, x: nat, y: nat, kernel: Option<seq<Offset>>, near: Color -> Rgb,
               q: Rgb, er: real, eg: real, eb: real)
    requires |st.buf| == 3 * (W * H) && x < W && y < H
    requires (RasterBound(W, H, x, y); q == near(Clamped(st.buf, Idx(W, x, y))))
    requires er == st.buf[Idx(W, x, y)] - q.r as real
    requires eg == st.buf[Idx(W, x, y) + 1] - q.g as real
    requires eb == st.buf[Idx(W, x, y) + 2] - q.b as real
    ensures Step(st, W, H, x, y, kernel, near) == Pass(Spread(st.buf, W, H, x, y, er, eg, eb, kernel), st.colors + [q])
  {
  }

  /** A step appends one lookup result, so it keeps every colour written inside `pal`. */
  lemma StepInPalette(st: Pass, W: nat, H: nat, x: nat, y: nat, kernel: Option<seq<Offset>>, near: Color -> Rgb, pal: seq<Rgb>)
    requires |st.buf| == 3 * (W * H) && x < W && y < H && LandsIn(near, pal) && AllIn(st.colors, pal)
    ensures AllIn(Step(st, W, H, x, y, kernel, near).colors, pal)
  {
    RasterBound(W, H, x, y);
    var q := near(Clamped(st.buf, Idx(W, x, y)));
    assert Step(st, W, H, x, y, kernel, near).colors == st.colors + [q];
    AllInSnoc(st.colors, q, pal);
  }

  /** Each step writes its colour after the earlier ones, so every colour is a lookup result. */
  lemma {:induction false} DiffusedOverPalette(b0: seq<real>, W: nat, H: nat, kernel: Option<seq<Offset>>, near: Color -> Rgb, pal: seq<Rgb>, n: nat)
    requires |b0| == 3 * (W * H) && n <= W * H && LandsIn(near, pal)
    ensures AllIn(Diffused(b0, W, H, kernel, near, n).colors, pal)
  {
    if n > 0 {
      DiffusedOverPalette(b0, W, H, kernel, near, pal, n - 1);
      CoordsInImage(W, H, n - 1);
      var c := Coords(W, n - 1);
      StepInPalette(Diffused(b0, W, H, kernel, near, n - 1), W, H, c.0, c.1, kernel, near, pal);
    }
  }

  /**
   * With a forward kernel a step leaves the cells of the pixel it visits,
   * and of every earlier pixel, as they were.
   */
  lemma StepKeepsPrefix(st: Pass, W: nat, H: nat, x: nat, y: nat, kernel: Option<seq<Offset>>, near: Color -> Rgb)
    requires |st.buf| == 3 * (W * H) && x < W && y < H
    requires kernel.Some? ==> AllForward(kernel.value)
    ensures (RasterBound(W, H, x, y);
             Step(st, W, H, x, y, kernel, near).buf[..3 * (y * W + x + 1)] == st.buf[..3 * (y * W + x + 1)])
  {
    RasterBound(W, H, x, y);
    var k := Idx(W, x, y);
    var q := near(Clamped(st.buf, k));
    SpreadForward(st.buf, W, H, x, y, st.buf[k] - q.r as real, st.buf[k + 1] - q.g as real, st.buf[k + 2] - q.b as real, kernel);
  }

  /** With a forward kernel, step `n - 1` keeps the colours so far and the cells of pixels `0 .. n - 1`. */
  lemma DiffusedStepKeeps(b0: seq<real>, W: nat, H: nat, kernel: Option<seq<Offset>>, near: Color -> Rgb, n: nat)
    requires |b0| == 3 * (W * H) && 0 < n <= W * H
    requires kernel.Some? ==> AllForward(kernel.value)
    ensures Diffused(b0, W, H, kernel, near, n).buf[..3 * n] == Diffused(b0, W, H, kernel, near, n - 1).buf[..3 * n]
    ensures Diffused(b0, W, H, kernel, near, n - 1).colors <= Diffused(b0, W, H, kernel, near, n).colors
  {
    CoordsInImage(W, H, n - 1);
    var c := Coords(W, n - 1);
    StepKeepsPrefix(Diffused(b0, W, H, kernel, near, n - 1), W, H, c.0, c.1, kernel, near);
  }

  /** Agreeing on a prefix with a sequence that agrees with a third on a shorter one. */
  lemma PrefixTrans<T>(a: seq<T>, b: seq<T>, c: seq<T>, i: nat, j: nat)
    requires j <= i <= |a| && i <= |b| && j <= |c| && a[..i] == b[..i] && b[..j] == c[..j]
    ensures a[..j] == c[..j]
  {
    assert a[..j] == a[..i][..j];
    assert b[..j] == b[..i][..j];
  }

  /**
   * Forward diffusion: once pixel `p` has been visited, later steps change
   * neither the colours written so far nor the residual cells of pixels up
   * to `p`.
   */
  lemma {:induction false} DiffusedSettled(b0: seq<real>, W: nat, H: nat, kernel: Option<seq<Offset>>, near: Color -> Rgb, p: nat, n: nat)
    requires |b0| == 3 * (W * H) && p < n <= W * H
    requires kernel.Some? ==> AllForward(kernel.value)
    ensures Diffused(b0, W, H, kernel, near, n).buf[..3 * (p + 1)] == Diffused(b0, W, H, kernel, near, p + 1).buf[..3 * (p + 1)]
    ensures Diffused(b0, W, H, kernel, near, p + 1).colors <= Diffused(b0, W, H, kernel, near, n).colors
  {
    if n > p + 1 {
      DiffusedSettled(b0, W, H, kernel, near, p, n - 1);
      DiffusedStepKeeps(b0, W, H, kernel, near, n);
      var prev := Diffused(b0, W, H, kernel, near, n - 1);
      var cur := Diffused(b0, W, H, kernel, near, n);
      var mid := Diffused(b0, W, H, kernel, near, p + 1);
      PrefixTrans(cur.buf, prev.buf, mid.buf, 3 * n, 3 * (p + 1));
    }
  }

  /** Cells that agree on a prefix covering pixel `p` give the same clamped colour for `p`. */
  lemma ClampedOfPrefix(a: seq<real>, b: seq<real>, p: nat)
    requires 3 * (p + 1) <= |a| && 3 * (p + 1) <= |b| && a[..3 * (p + 1)] == b[..3 * (p + 1)]
    ensures Clamped(a, 3 * p) == Clamped(b, 3 * p)
  {
    assert a[3 * p] == a[..3 * (p + 1)][3 * p];
    assert a[3 * p + 1] == a[..3 * (p + 1)][3 * p + 1];
    assert a[3 * p + 2] == a[..3 * (p + 1)][3 * p + 2];
  }

  /** The colour step `p` writes is the lookup of pixel `p`'s clamped residual before and after that step. */
  lemma DiffusedColorAt(b0: seq<real>, W: nat, H: nat, kernel: Option<seq<Offset>>, near: Color -> Rgb, p: nat)
    requires |b0| == 3 * (W * H) && p < W * H
    requires kernel.Some? ==> AllForward(kernel.value)
    ensures Diffused(b0, W, H, kernel, near, p + 1).colors[p] == near(Clamped(Diffused(b0, W, H, kernel, near, p + 1).buf, 3 * p))
  {
    DiffusedStepKeeps(b0, W, H, kernel, near, p + 1);
    ClampedOfPrefix(Diffused(b0, W, H, kernel, near, p + 1).buf, Diffused(b0, W, H, kernel, near, p).buf, p);
  }

  /**
   * Nothing is copied back from `buf`: the colour of pixel `p` is the lookup
   * of its clamped residual as the buffer holds it at the end of the pass.
   */
  lemma DiffusedColorOfFinalResidual(b0: seq<real>, W: nat, H: nat, kernel: Option<seq<Offset>>, near: Color -> Rgb, p: nat, n: nat)
    requires |b0| == 3 * (W * H) && p < n <= W * H
    requires kernel.Some? ==> AllForward(kernel.value)
    ensures Diffused(b0, W, H, kernel, near, n).colors[p] == near(Clamped(Diffused(b0, W, H, kernel, near, n).buf, 3 * p))
  {
    DiffusedSettled(b0, W, H, kernel, near, p, n);
    DiffusedColorAt(b0, W, H, kernel, near, p);
    var after := Diffused(b0, W, H, kernel, near, p + 1);
    var last := Diffused(b0, W, H, kernel, near, n);
    ClampedOfPrefix(last.buf, after.buf, p);
  }

  // -------------------------------------------------------------- method

  /** The per-pixel `if` chain that spreads the error `er, eg, eb` of pixel `(x, y)`. */
  method Propagate(buf: array<real>, W: nat, H: nat, x: nat, y: nat, er: real, eg: real, eb: real, dither: string)
    requires buf.Length == 3 * (W * H) && x < W && y < H
    modifies buf
    ensures buf[..] == Spread(old(buf[..]), W, H, x, y, er, eg, eb, KernelOf(dither))
  {
    if dither == FLOYD_STEINBERG_MODE {
      FloydSteinberg(buf, W, H, x, y, er, eg, eb);
    } else if dither == ATKINSON_MODE {
      Atkinson(buf, W, H, x, y, er, eg, eb);
    } else if dither in KERNELS {
      DiffuseKernel(buf, W, H, x, y, er, eg, eb, KERNELS[dither]);
    }
  }

  /**
   * `const r=buf[k], g=buf[k+1], b=buf[k+2]`, the lookup of the clamped
   * residuals, and the error `er=r-nr, eg=g-ng, eb=b-nb` taken from the
   * unclamped ones.
   */
  method LookupAt(buf: array<real>, k: nat, near: Color -> Rgb) returns (q: Rgb, er: real, eg: real, eb: real)
    requires k + 2 < buf.Length
    ensures q == near(Clamped(buf[..], k))
    ensures er == buf[k] - q.r as real && eg == buf[k + 1] - q.g as real && eb == buf[k + 2] - q.b as real
  {
    var r, g, b := buf[k], buf[k + 1], buf[k + 2];
    q := near(Color(Clamp255(r), Clamp255(g), Clamp255(b)));
    er, eg, eb := r - q.r as real, g - q.g as real, b - q.b as real;
  }

  /**
   * The body of the diffusion loop at pixel `(x, y)`, the `p`-th in raster
   * order, taking the loop from state `st` to `Step(st, ...)`.
   */
  method DiffusePixel(data: array<Byte>, buf: array<real>, W: nat, H: nat, x: nat, y: nat, dither: string, near: Color -> Rgb,
                      ghost s: seq<Byte>, ghost kernel: Option<seq<Offset>>, ghost st: Pass, ghost p: nat)
    requires data.Length == 4 * (W * H) == |s| && buf.Length == 3 * (W * H) == |st.buf| && |st.colors| == p
    requires x < W && y < H && p == RowStart(W, y) + x < W * H && kernel == KernelOf(dither)
    requires buf[..] == st.buf && data[..] == Render(st.colors) + s[4 * p..]
    modifies data, buf
    ensures buf[..] == Step(st, W, H, x, y, kernel, near).buf
    ensures data[..] == Render(Step(st, W, H, x, y, kernel, near).colors) + s[4 * (p + 1)..]
  {
    RowStartIs(W, y);
    RasterBound(W, H, x, y);
    var q, er, eg, eb := LookupAt(buf, (y * W + x) * 3, near);
    StepIs(st, W, H, x, y, kernel, near, q, er, eg, eb);
    RenderStep(st.colors, q, s, p);
    WritePixel(data, (y * W + x) * 4, q);
    Propagate(buf, W, H, x, y, er, eg, eb, dither);
  }

  /** The pass before pixel `n` of the scan, as listed in `sts`. */
  ghost function Stage(sts: seq<Pass>, n: nat): Pass
    requires n < |sts|
  {
    sts[n]
  }

  /** `sts` lists the pass before each pixel of the scan, and after the last one. */
  ghost predicate Scan(sts: seq<Pass>, b0: seq<real>, W: nat, H: nat, kernel: Option<seq<Offset>>, near: Color -> Rgb)
  {
    |b0| == 3 * (W * H) && |sts| == W * H + 1 &&
    forall n: nat :: n < |sts| ==> Stage(sts, n) == Diffused(b0, W, H, kernel, near, n)
  }

  /** The passes of the scan started from `b0`. */
  ghost function Scanned(b0: seq<real>, W: nat, H: nat, kernel: Option<seq<Offset>>, near: Color -> Rgb): (sts: seq<Pass>)
    requires |b0| == 3 * (W * H)
    ensures Scan(sts, b0, W, H, kernel, near)
  {
    seq(W * H + 1, n requires 0 <= n <= W * H => Diffused(b0, W, H, kernel, near, n))
  }

  /** Pixel `(x, y)`, the `p`-th of the scan, takes the pass from stage `p` to stage `p + 1`. */
  method DiffuseAt(data: array<Byte>, buf: array<real>, W: nat, H: nat, x: nat, y: nat, dither: string, near: Color -> Rgb,
                   ghost s: seq<Byte>, ghost b0: seq<real>, ghost kernel: Option<seq<Offset>>, ghost sts: seq<Pass>, ghost p: nat)
    requires Scan(sts, b0, W, H, kernel, near) && data.Length == 4 * (W * H) == |s| && buf.Length == 3 * (W * H)
    requires x < W && y < H && p == RowStart(W, y) + x < W * H && kernel == KernelOf(dither)
    requires buf[..] == sts[p].buf && data[..] == Render(sts[p].colors) + s[4 * p..]
    modifies data, buf
    ensures buf[..] == sts[p + 1].buf && data[..] == Render(sts[p + 1].colors) + s[4 * (p + 1)..]
  {
    assert Stage(sts, p) == Diffused(b0, W, H, kernel, near, p);
    assert Stage(sts, p + 1) == Diffused(b0, W, H, kernel, near, p + 1);
    RowStartIs(W, y);
    DiffusedStep(b0, W, H, kernel, near, p, x, y);
    DiffusePixel(data, buf, W, H, x, y, dither, near, s, kernel, sts[p], p);
  }

  /** The inner loop: pixels `(0, y) .. (W - 1, y)`, which are `p0 .. p0 + W - 1` of the scan. */
  method DiffuseSpan(data: array<Byte>, buf: array<real>, W: nat, H: nat, y: nat, dither: string, near: Color -> Rgb,
                     ghost s: seq<Byte>, ghost b0: seq<real>, ghost kernel: Option<seq<Offset>>, ghost sts: seq<Pass>, ghost p0: nat)
    requires Scan(sts, b0, W, H, kernel, near) && data.Length == 4 * (W * H) == |s| && buf.Length == 3 * (W * H)
    requires y < H && p0 == RowStart(W, y) && p0 + W <= W * H && kernel == KernelOf(dither)
    requires buf[..] == sts[p0].buf && data[..] == Render(sts[p0].colors) + s[4 * p0..]
    modifies data, buf
    ensures buf[..] == sts[p0 + W].buf && data[..] == Render(sts[p0 + W].colors) + s[4 * (p0 + W)..]
  {
    ghost var p := p0;
    for x := 0 to W
      invariant p == p0 + x
      invariant buf[..] == sts[p].buf && data[..] == Render(sts[p].colors) + s[4 * p..]
    {
      DiffuseAt(data, buf, W, H, x, y, dither, near, s, b0, kernel, sts, p);
      p := p + 1;
    }
  }

  /** Row `y` takes the pass from the start of the row to the start of the next. */
  method DiffuseRow(data: array<Byte>, buf: array<real>, W: nat, H: nat, y: nat, dither: string, near: Color -> Rgb,
                    ghost s: seq<Byte>, ghost b0: seq<real>, ghost kernel: Option<seq<Offset>>, ghost sts: seq<Pass>)
    requires Scan(sts, b0, W, H, kernel, near) && data.Length == 4 * (W * H) == |s| && buf.Length == 3 * (W * H)
    requires y < H && RowStart(W, y) <= W * H && kernel == KernelOf(dither)
    requires buf[..] == sts[RowStart(W, y)].buf && data[..] == Render(sts[RowStart(W, y)].colors) + s[4 * RowStart(W, y)..]
    modifies data, buf
    ensures RowStart(W, y + 1) <= W * H
    ensures buf[..] == sts[RowStart(W, y + 1)].buf
    ensures data[..] == Render(sts[RowStart(W, y + 1)].colors) + s[4 * RowStart(W, y + 1)..]
  {
    RowFits(W, H, y);
    DiffuseSpan(data, buf, W, H, y, dither, near, s, b0, kernel, sts, RowStart(W, y));
  }

  /** The outer loop: rows `0 .. H - 1`. */
  method DiffuseRows(data: array<Byte>, buf: array<real>, W: nat, H: nat, dither: string, near: Color -> Rgb,
                     ghost s: seq<Byte>, ghost b0: seq<real>, ghost kernel: Option<seq<Offset>>, ghost sts: seq<Pass>)
    requires Scan(sts, b0, W, H, kernel, near) && data.Length == 4 * (W * H) && s == data[..] && b0 == buf[..]
    requires kernel == KernelOf(dither) && sts[0].buf == b0 && sts[0].colors == []
    modifies data, buf
    ensures RowStart(W, H) <= W * H
    ensures data[..] == Render(sts[RowStart(W, H)].colors) + s[4 * RowStart(W, H)..]
  {
    for y := 0 to H
      invariant RowStart(W, y) <= W * H
      invariant buf[..] == sts[RowStart(W, y)].buf && data[..] == Render(sts[RowStart(W, y)].colors) + s[4 * RowStart(W, y)..]
    {
      DiffuseRow(data, buf, W, H, y, dither, near, s, b0, kernel, sts);
    }
  }

  /** Once every row is done, nothing of the input is left behind. */
  lemma DiffuseDone(d: seq<Byte>, s: seq<Byte>, b0: seq<real>, W: nat, H: nat, kernel: Option<seq<Offset>>, near: Color -> Rgb,
                    sts: seq<Pass>)
    requires Scan(sts, b0, W, H, kernel, near) && |s| == 4 * (W * H) && RowStart(W, H) <= W * H
    requires d == Render(sts[RowStart(W, H)].colors) + s[4 * RowStart(W, H)..]
    ensures d == Render(Diffused(b0, W, H, kernel, near, W * H).colors)
  {
    AllRows(W, H);
    assert Stage(sts, W * H) == Diffused(b0, W, H, kernel, near, W * H);
    assert s[4 * (W * H)..] == [];
  }

  /**
   * The error-diffusion branch: a fresh residual buffer filled from `data`,
   * then the raster scan; `data` ends up holding exactly the colours written
   * during the scan.
   */
  method DiffusionPass(data: array<Byte>, W: nat, H: nat, dither: string, near: Color -> Rgb)
    requires data.Length == 4 * (W * H)
    modifies data
    ensures data[..] == Render(Diffused(Residuals(old(data[..]), W * H), W, H, KernelOf(dither), near, W * H).colors)
  {
    var buf := new real[W * H * 3];
    CopyResiduals(data, buf, W * H);
    ghost var s := data[..];
    ghost var b0 := buf[..];
    ghost var sts := Scanned(b0, W, H, KernelOf(dither), near);
    assert Stage(sts, 0) == Diffused(b0, W, H, KernelOf(dither), near, 0);
    DiffuseRows(data, buf, W, H, dither, near, s, b0, KernelOf(dither), sts);
    DiffuseDone(data[..], s, b0, W, H, KernelOf(dither), near, sts);
  }
}
