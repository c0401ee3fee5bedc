/**
 * The quantizing passes of `processImage` and its dispatch on the dither
 * mode. Every pass rewrites the RGBA buffer in raster order, each pixel
 * with the palette colour its palette lookup returns and alpha 255; the
 * passes differ only in the colour handed to the lookup: the pixel itself
 * (flat), the pixel shifted by a Bayer threshold (ordered), or the pixel
 * plus the error carried over from earlier pixels (error diffusion).
 *
 * The specification functions take the palette lookup as a value
 * `near: Color -> Rgb`; `processImage` instantiates it with
 * `Lookup(metric, lab)`, the function `nearestPaletteColor` computes.
 */
module Quantize {
  import opened Pixels
  import opened Palette
  import opened PaletteSearch
  import opened Matrices
  import opened Prefilter
  import opened Kernels
  import opened Diffusion
  import opened Output
  import opened ErrorDiffusion

  const NONE: string := "None"
  const ORDERED_8: string := "Ordered (8x8)"
  const ORDERED_4: string := "Ordered (4x4)"
  const RANDOM: string := "Random"
  const BLUE_NOISE: string := "Blue Noise"
  // -------------------------------------------------------------- lookup

  /** `nearestPaletteColor(·, metric)` as a function value. */
  function Lookup(metric: string, lab: LabDistance): Color -> Rgb
  {
    c => Nearest(c, metric, lab)
  }

  lemma LookupIntoPalette(metric: string, lab: LabDistance)
    ensures IntoPalette(Lookup(metric, lab))
  {
  }

  // ---------------------------------------------------------------- flat

  /** The flat pass's colours for the first `n` pixels: each pixel's own palette lookup. */
  function FlatColors(s: seq<Byte>, n: nat, near: Color -> Rgb): (cs: seq<Rgb>)
    requires 4 * n <= |s|
    ensures |cs| == n
  {
    if n == 0 then [] else FlatColors(s, n - 1, near) + [near(ToColor(PixelAt(s, n - 1)))]
  }

  /** Pixel by pixel: the flat colour of pixel `p` is the lookup of that pixel, and only palette colours occur. */
  lemma {:induction false} FlatColorsAt(s: seq<Byte>, n: nat, near: Color -> Rgb, p: nat)
    requires 4 * n <= |s| && p < n
    ensures FlatColors(s, n, near)[p] == near(ToColor(PixelAt(s, p)))
  {
    if p < n - 1 {
      FlatColorsAt(s, n - 1, near, p);
    }
  }

  /** The `"None"` loop: `for(i=0;i<data.length;i+=4)`, quantizing each pixel as it stands. */
  method FlatPass(data: array<Byte>, ghost pixels: nat, near: Color -> Rgb)
    requires data.Length == 4 * pixels
    modifies data
    ensures data[..] == Render(FlatColors(old(data[..]), pixels, near))
  {
    ghost var s := data[..];
    var i := 0;
    ghost var p := 0;
    while i < data.Length
      invariant p <= pixels && i == 4 * p
      invariant data[..] == Render(FlatColors(s, p, near)) + s[i..]
    {
      FlatPixel(data, i, s, p, near);
      i := i + 4;
      p := p + 1;
    }
    assert p == pixels && s[i..] == [];
  }

  /** The body of the `"None"` loop at byte `i`, pixel `p`. */
  method FlatPixel(data: array<Byte>, i: nat, ghost s: seq<Byte>, ghost p: nat, near: Color -> Rgb)
    requires i == 4 * p && i + 4 <= data.Length == |s|
    requires data[..] == Render(FlatColors(s, p, near)) + s[i..]
    modifies data
    ensures data[..] == Render(FlatColors(s, p + 1, near)) + s[i + 4..]
  {
    ghost var cs := FlatColors(s, p, near);
    assert |Render(cs)| == i;
    assert data[i] == s[i] && data[i + 1] == s[i + 1] && data[i + 2] == s[i + 2];
    var q := near(Color(data[i] as real, data[i + 1] as real, data[i + 2] as real));
    assert FlatColors(s, p + 1, near) == cs + [q];
    RenderStep(cs, q, s, p);
    assert 4 * (p + 1) == i + 4;
    WritePixel(data, i, q);
  }

  // ------------------------------------------------------------- ordered

  /**
   * `t = m[y%8][x%8] - 0.5`: the threshold offset at pixel `(x, y)`. The
   * ordered pass reads it from `BAYER_8`; the specification functions take
   * the 8x8 matrix as the parameter `m`.
   */
  function BayerOffset(m: seq<seq<real>>, x: nat, y: nat): real
    requires IsSquare(m, 8)
  {
    m[y % 8][x % 8] - 0.5
  }

  /** Every offset drawn from `BAYER_8` lies in `[-1/2, 1/2)`. */
  lemma BayerOffsetRange(x: nat, y: nat)
    ensures (Bayer8Values(); -0.5 <= BayerOffset(BAYER_8, x, y) < 0.5)
  {
    Bayer8Values();
  }

  /** The ordered pass's lookup colour for pixel `(x, y)`: each channel shifted by `t * jit` and clamped. */
  function OrderedQuery(s: seq<Byte>, W: nat, m: seq<seq<real>>, x: nat, y: nat, jit: real): Color
    requires IsSquare(m, 8) && x < W && 4 * (y * W + x) + 3 < |s|
  {
    var i := (y * W + x) * 4;
    var t := BayerOffset(m, x, y);
    Color(Jitter(s[i], t, jit), Jitter(s[i + 1], t, jit), Jitter(s[i + 2], t, jit))
  }

  /** `clamp255(v + t*jit)`: one channel shifted by the scaled threshold offset. */
  function Jitter(v: Byte, t: real, jit: real): real
  {
    Clamp255(v as real + t * jit)
  }

  /** The ordered pass's colours for the first `n` pixels of a `W`-wide, `H`-high image. */
  function OrderedColors(s: seq<Byte>, W: nat, H: nat, m: seq<seq<real>>, jit: real, n: nat, near: Color -> Rgb): (cs: seq<Rgb>)
    requires IsSquare(m, 8) && |s| == 4 * (W * H) && n <= W * H
    ensures |cs| == n
  {
    if n == 0 then []
    else
      CoordsInImage(W, H, n - 1);
      var c := Coords(W, n - 1);
      OrderedColors(s, W, H, m, jit, n - 1, near) + [near(OrderedQuery(s, W, m, c.0, c.1, jit))]
  }

  /** With no jitter every query is the pixel itself, so the ordered pass is the flat one. */
  lemma {:induction false} OrderedWithoutJitterIsFlat(s: seq<Byte>, W: nat, H: nat, m: seq<seq<real>>, n: nat, near: Color -> Rgb)
    requires IsSquare(m, 8) && |s| == 4 * (W * H) && n <= W * H
    ensures OrderedColors(s, W, H, m, 0.0, n, near) == FlatColors(s, n, near)
  {
    if n > 0 {
      OrderedWithoutJitterIsFlat(s, W, H, m, n - 1, near);
      CoordsInImage(W, H, n - 1);
      var c := Coords(W, n - 1);
      assert OrderedQuery(s, W, m, c.0, c.1, 0.0) == ToColor(PixelAt(s, n - 1));
    }
  }

  /**
   * The `"Ordered (8x8)"` loop: rows, then columns, each pixel jittered by its Bayer threshold
   * scaled by `jit` (the caller passes `orderedStrength * 64`).
   */
  method OrderedPass(data: array<Byte>, W: nat, H: nat, m: seq<seq<real>>, jit: real, near: Color -> Rgb)
    requires IsSquare(m, 8) && data.Length == 4 * (W * H)
    modifies data
    ensures data[..] == Render(OrderedColors(old(data[..]), W, H, m, jit, W * H, near))
  {
    ghost var s := data[..];
    OrderedRows(data, W, H, m, jit, s, near);
    OrderedDone(data[..], s, W, H, m, jit, near);
  }

  /** The outer loop of the ordered pass: quantizes rows `0 .. H - 1`, top to bottom. */
  method OrderedRows(data: array<Byte>, W: nat, H: nat, m: seq<seq<real>>, jit: real, ghost s: seq<Byte>, near: Color -> Rgb)
    requires IsSquare(m, 8) && data.Length == 4 * (W * H) && s == data[..]
    modifies data
    ensures RowStart(W, H) <= W * H
    ensures data[..] == Render(OrderedColors(s, W, H, m, jit, RowStart(W, H), near)) + s[4 * RowStart(W, H)..]
  {
    for y := 0 to H
      invariant RowStart(W, y) <= W * H && |s| == data.Length
      invariant data[..] == Render(OrderedColors(s, W, H, m, jit, RowStart(W, y), near)) + s[4 * RowStart(W, y)..]
    {
      OrderedRow(data, W, H, m, y, jit, s, near);
    }
  }

  /** Once every row is done, nothing of the input is left behind. */
  lemma OrderedDone(d: seq<Byte>, s: seq<Byte>, W: nat, H: nat, m: seq<seq<real>>, jit: real, near: Color -> Rgb)
    requires IsSquare(m, 8) && |s| == 4 * (W * H) && RowStart(W, H) <= W * H
    requires d == Render(OrderedColors(s, W, H, m, jit, RowStart(W, H), near)) + s[4 * RowStart(W, H)..]
    ensures d == Render(OrderedColors(s, W, H, m, jit, W * H, near))
  {
    AllRows(W, H);
    assert s[4 * (W * H)..] == [];
  }

  /** The inner loop of the ordered pass: quantizes row `y`, pixel by pixel from left to right. */
  method OrderedRow(data: array<Byte>, W: nat, H: nat, m: seq<seq<real>>, y: nat, jit: real, ghost s: seq<Byte>, near: Color -> Rgb)
    requires IsSquare(m, 8) && data.Length == 4 * (W * H) == |s| && y < H && RowStart(W, y) <= W * H
    requires data[..] == Render(OrderedColors(s, W, H, m, jit, RowStart(W, y), near)) + s[4 * RowStart(W, y)..]
    modifies data
    ensures RowStart(W, y + 1) <= W * H
    ensures data[..] == Render(OrderedColors(s, W, H, m, jit, RowStart(W, y + 1), near)) + s[4 * RowStart(W, y + 1)..]
  {
    ghost var p := RowStart(W, y);
    for x := 0 to W
      invariant p == RowStart(W, y) + x <= W * H
      invariant data[..] == Render(OrderedColors(s, W, H, m, jit, p, near)) + s[4 * p..]
    {
      RowInImage(W, H, x, y);
      OrderedPixel(data, W, H, m, x, y, jit, s, p, near);
      p := p + 1;
    }
    assert p == RowStart(W, y + 1);
  }

  /** The body of the ordered loop at pixel `p = y*W + x`. */
  method OrderedPixel(data: array<Byte>, W: nat, H: nat, m: seq<seq<real>>, x: nat, y: nat, jit: real, ghost s: seq<Byte>, ghost p: nat,
                      near: Color -> Rgb)
    requires IsSquare(m, 8) && data.Length == 4 * (W * H) == |s| && x < W && y < H && p == RowStart(W, y) + x < W * H
    requires data[..] == Render(OrderedColors(s, W, H, m, jit, p, near)) + s[4 * p..]
    modifies data
    ensures data[..] == Render(OrderedColors(s, W, H, m, jit, p + 1, near)) + s[4 * (p + 1)..]
  {
    RowStartIs(W, y);
    assert data[4 * p] == s[4 * p] && data[4 * p + 1] == s[4 * p + 1] && data[4 * p + 2] == s[4 * p + 2];
    var c := JitteredQuery(data, W, m, x, y, jit, s);
    var q := near(c);
    OrderedColorsStep(s, W, H, m, jit, p, x, y, near);
    RenderStep(OrderedColors(s, W, H, m, jit, p, near), q, s, p);
    WritePixel(data, (y * W + x) * 4, q);
  }

  /** `rr, gg, bb`: the pixel's channels shifted by its threshold offset and clamped. */
  method JitteredQuery(data: array<Byte>, W: nat, m: seq<seq<real>>, x: nat, y: nat, jit: real, ghost s: seq<Byte>) returns (c: Color)
    requires IsSquare(m, 8) && data.Length == |s| && x < W && 4 * (y * W + x) + 3 < |s|
    requires data[4 * (y * W + x)] == s[4 * (y * W + x)] && data[4 * (y * W + x) + 1] == s[4 * (y * W + x) + 1]
    requires data[4 * (y * W + x) + 2] == s[4 * (y * W + x) + 2]
    ensures c == OrderedQuery(s, W, m, x, y, jit)
  {
    var i := (y * W + x) * 4;
    var t := BayerOffset(m, x, y);
    var rr := Jitter(data[i], t, jit);
    var gg := Jitter(data[i + 1], t, jit);
    var bb := Jitter(data[i + 2], t, jit);
    c := Color(rr, gg, bb);
  }

  /** Extending the ordered colours by pixel `p = y*W + x` appends the lookup of that pixel's jittered query. */
  lemma OrderedColorsStep(s: seq<Byte>, W: nat, H: nat, m: seq<seq<real>>, jit: real, p: nat, x: nat, y: nat, near: Color -> Rgb)
    requires IsSquare(m, 8) && |s| == 4 * (W * H) && x < W && y < H && p == y * W + x < W * H
    ensures OrderedColors(s, W, H, m, jit, p + 1, near) == OrderedColors(s, W, H, m, jit, p, near) + [near(OrderedQuery(s, W, m, x, y, jit))]
  {
    CoordsOf(W, x, y);
  }

  // ------------------------------------------------------------ dispatch

  /** The 8x8 ordered loop's jitter amplitude: `orderedStrength * 64`. */
  function Amplitude(orderedStrength: real): real
  {
    orderedStrength * 64.0
  }

  /**
   * What the quantizing part of `processImage` leaves in the (already
   * pre-filtered) RGBA buffer `s` for mode `dither`, as the branches are
   * written: `"None"` is flat, `"Ordered (8x8)"` is the ordered loop with the
   * matrix `m`, and every other name, including the ordered and noise modes
   * whose branches sit inside the 8x8 one, reaches the diffusion loop.
   */
  function Quantized(s: seq<Byte>, W: nat, H: nat, dither: string, m: seq<seq<real>>, orderedStrength: real, near: Color -> Rgb): (t: seq<Byte>)
    requires IsSquare(m, 8) && |s| == 4 * (W * H)
  {
    if dither == NONE then Render(FlatColors(s, W * H, near))
    else if dither == ORDERED_8 then Render(OrderedColors(s, W, H, m, Amplitude(orderedStrength), W * H, near))
    else Render(Diffused(Residuals(s, W * H), W, H, KernelOf(dither), near, W * H).colors)
  }

  // ----------------------------------------------------------- properties

  /** Flat colours are lookups, hence colours of the lookup's palette. */
  lemma FlatOverPalette(s: seq<Byte>, n: nat, near: Color -> Rgb, pal: seq<Rgb>)
    requires 4 * n <= |s| && LandsIn(near, pal)
    ensures AllIn(FlatColors(s, n, near), pal)
  {
    forall i | 0 <= i < n
      ensures FlatColors(s, n, near)[i] in pal
    {
      FlatColorsAt(s, n, near, i);
    }
  }

  /** Ordered colours are lookups, hence colours of the lookup's palette. */
  lemma {:induction false} OrderedOverPalette(s: seq<Byte>, W: nat, H: nat, m: seq<seq<real>>, jit: real, n: nat, near: Color -> Rgb, pal: seq<Rgb>)
    requires IsSquare(m, 8) && |s| == 4 * (W * H) && n <= W * H && LandsIn(near, pal)
    ensures AllIn(OrderedColors(s, W, H, m, jit, n, near), pal)
  {
    if n > 0 {
      OrderedOverPalette(s, W, H, m, jit, n - 1, near, pal);
      CoordsInImage(W, H, n - 1);
      var c := Coords(W, n - 1);
      var q := near(OrderedQuery(s, W, m, c.0, c.1, jit));
      assert OrderedColors(s, W, H, m, jit, n, near) == OrderedColors(s, W, H, m, jit, n - 1, near) + [q];
      AllInSnoc(OrderedColors(s, W, H, m, jit, n - 1, near), q, pal);
    }
  }

  /** Palette membership: with a palette lookup, every pixel of the result is a palette colour with alpha 255. */
  lemma QuantizedOverPalette(s: seq<Byte>, W: nat, H: nat, dither: string, m: seq<seq<real>>, orderedStrength: real, near: Color -> Rgb)
    requires IsSquare(m, 8) && |s| == 4 * (W * H) && IntoPalette(near)
    ensures OverPalette(Quantized(s, W, H, dither, m, orderedStrength, near))
  {
    var cs := if dither == NONE then FlatColors(s, W * H, near)
              else if dither == ORDERED_8 then OrderedColors(s, W, H, m, Amplitude(orderedStrength), W * H, near)
              else Diffused(Residuals(s, W * H), W, H, KernelOf(dither), near, W * H).colors;
    if dither == NONE {
      FlatOverPalette(s, W * H, near, PAL_RGB);
    } else if dither == ORDERED_8 {
      OrderedOverPalette(s, W, H, m, Amplitude(orderedStrength), W * H, near, PAL_RGB);
    } else {
      DiffusedOverPalette(Residuals(s, W * H), W, H, KernelOf(dither), near, PAL_RGB, W * H);
    }
    assert Quantized(s, W, H, dither, m, orderedStrength, near) == Render(cs);
    RenderOver(cs, PAL_RGB);
  }

  /** The whole of `processImage`, for every mode, metric and slider setting, writes only palette colours with alpha 255. */
  lemma ProcessedOverPalette(s: seq<Byte>, W: nat, H: nat, dither: string, metric: string, orderedStrength: real,
                             sat: real, ctr: real, lab: LabDistance)
    requires |s| == 4 * (W * H)
    ensures (Bayer8Values();
             OverPalette(Quantized(AdjustData(s, sat, ctr), W, H, dither, BAYER_8, orderedStrength, Lookup(metric, lab))))
  {
    Bayer8Values();
    LookupIntoPalette(metric, lab);
    QuantizedOverPalette(AdjustData(s, sat, ctr), W, H, dither, BAYER_8, orderedStrength, Lookup(metric, lab));
  }

  /** Clamping leaves the residual of an untouched pixel at its input bytes. */
  lemma ResidualsClamped(s: seq<Byte>, N: nat, p: nat)
    requires 4 * N <= |s| && p < N
    ensures Clamped(Residuals(s, N), 3 * p) == ToColor(PixelAt(s, p))
  {
    ResidualsAt(s, N, p, 0);
    ResidualsAt(s, N, p, 1);
    ResidualsAt(s, N, p, 2);
  }

  /** Without a kernel pixel `n - 1` only appends the lookup of its clamped residual; nothing is spread. */
  lemma DiffusedWithoutKernel(b0: seq<real>, W: nat, H: nat, near: Color -> Rgb, n: nat)
    requires |b0| == 3 * (W * H) && 0 < n <= W * H
    ensures var prev := Diffused(b0, W, H, None, near, n - 1);
            Diffused(b0, W, H, None, near, n) == Pass(prev.buf, prev.colors + [near(Clamped(prev.buf, 3 * (n - 1)))])
  {
    CoordsInImage(W, H, n - 1);
    var c := Coords(W, n - 1);
    assert Idx(W, c.0, c.1) == 3 * (n - 1);
  }

  /** With no kernel the residuals never change, and pixel `j` is the lookup of its own clamped starting residual. */
  lemma {:induction false} NoKernelKeeps(b0: seq<real>, W: nat, H: nat, near: Color -> Rgb, n: nat)
    requires |b0| == 3 * (W * H) && n <= W * H
    ensures Diffused(b0, W, H, None, near, n).buf == b0
    ensures forall j :: 0 <= j < n ==> Diffused(b0, W, H, None, near, n).colors[j] == near(Clamped(b0, 3 * j))
  {
    if n > 0 {
      NoKernelKeeps(b0, W, H, near, n - 1);
      DiffusedWithoutKernel(b0, W, H, near, n);
      var prev := Diffused(b0, W, H, None, near, n - 1).colors;
      var cs := Diffused(b0, W, H, None, near, n).colors;
      assert cs == prev + [near(Clamped(b0, 3 * (n - 1)))];
      forall j | 0 <= j < n
        ensures cs[j] == near(Clamped(b0, 3 * j))
      {
        if j < n - 1 {
          assert cs[j] == prev[j];
        }
      }
    }
  }

  /** With no kernel the loop spreads nothing, so it looks up every input pixel as the `"None"` loop does. */
  lemma NoKernelIsFlat(s: seq<Byte>, W: nat, H: nat, near: Color -> Rgb, n: nat)
    requires |s| == 4 * (W * H) && n <= W * H
    ensures Diffused(Residuals(s, W * H), W, H, None, near, n).buf == Residuals(s, W * H)
    ensures Diffused(Residuals(s, W * H), W, H, None, near, n).colors == FlatColors(s, n, near)
  {
    var b := Residuals(s, W * H);
    NoKernelKeeps(b, W, H, near, n);
    var cs := Diffused(b, W, H, None, near, n).colors;
    forall j | 0 <= j < n
      ensures cs[j] == FlatColors(s, n, near)[j]
    {
      FlatColorsAt(s, n, near, j);
      ResidualsClamped(s, W * H, j);
    }
  }

  /** A mode that reaches the diffusion loop without a matching kernel gives the `"None"` result. */
  lemma UnmatchedModeIsFlat(s: seq<Byte>, W: nat, H: nat, dither: string, m: seq<seq<real>>, orderedStrength: real, near: Color -> Rgb)
    requires IsSquare(m, 8) && |s| == 4 * (W * H)
    requires dither != ORDERED_8 && KernelOf(dither).None?
    ensures Quantized(s, W, H, dither, m, orderedStrength, near) == Quantized(s, W, H, NONE, m, orderedStrength, near)
  {
    if dither != NONE {
      NoKernelIsFlat(s, W, H, near, W * H);
    }
  }

  /**
   * `"Ordered (4x4)"`, `"Random"` and `"Blue Noise"`, whose branches are
   * nested inside the 8x8 one, reach the diffusion loop with no kernel and
   * so give the `"None"` result.
   */
  lemma NestedModesAreFlat(s: seq<Byte>, W: nat, H: nat, m: seq<seq<real>>, orderedStrength: real, near: Color -> Rgb)
    requires IsSquare(m, 8) && |s| == 4 * (W * H)
    ensures Quantized(s, W, H, ORDERED_4, m, orderedStrength, near) == Quantized(s, W, H, NONE, m, orderedStrength, near)
    ensures Quantized(s, W, H, RANDOM, m, orderedStrength, near) == Quantized(s, W, H, NONE, m, orderedStrength, near)
    ensures Quantized(s, W, H, BLUE_NOISE, m, orderedStrength, near) == Quantized(s, W, H, NONE, m, orderedStrength, near)
  {
    assert ORDERED_4 !in KERNELS && RANDOM !in KERNELS && BLUE_NOISE !in KERNELS;
    UnmatchedModeIsFlat(s, W, H, ORDERED_4, m, orderedStrength, near);
    UnmatchedModeIsFlat(s, W, H, RANDOM, m, orderedStrength, near);
    UnmatchedModeIsFlat(s, W, H, BLUE_NOISE, m, orderedStrength, near);
  }

  /** `"Ordered (8x8)"` at strength 0 has no jitter and gives the `"None"` result. */
  lemma ZeroStrengthIsFlat(s: seq<Byte>, W: nat, H: nat, m: seq<seq<real>>, near: Color -> Rgb)
    requires IsSquare(m, 8) && |s| == 4 * (W * H)
    ensures Quantized(s, W, H, ORDERED_8, m, 0.0, near) == Quantized(s, W, H, NONE, m, 0.0, near)
  {
    OrderedWithoutJitterIsFlat(s, W, H, m, W * H, near);
  }

  /** `downloadPNG`'s alpha loop leaves every quantized buffer as it is. */
  lemma DownloadKeepsQuantized(s: seq<Byte>, W: nat, H: nat, dither: string, m: seq<seq<real>>, orderedStrength: real, near: Color -> Rgb)
    requires IsSquare(m, 8) && |s| == 4 * (W * H)
    ensures ForceAlpha(Quantized(s, W, H, dither, m, orderedStrength, near)) == Quantized(s, W, H, dither, m, orderedStrength, near)
  {
    if dither == NONE {
      ForceAlphaOfRender(FlatColors(s, W * H, near));
    } else if dither == ORDERED_8 {
      ForceAlphaOfRender(OrderedColors(s, W, H, m, Amplitude(orderedStrength), W * H, near));
    } else {
      ForceAlphaOfRender(Diffused(Residuals(s, W * H), W, H, KernelOf(dither), near, W * H).colors);
    }
  }

  /** A lookup that answers every colour of `pal` with itself. */
  ghost predicate Fixes(near: Color -> Rgb, pal: seq<Rgb>)
  {
    forall c :: c in pal ==> near(ToColor(c)) == c
  }

  /** A lookup that answers every palette colour with itself. */
  ghost predicate FixesPalette(near: Color -> Rgb)
  {
    Fixes(near, PAL_RGB)
  }

  /** The RGB lookup answers every palette colour with itself. */
  lemma RgbLookupFixesPalette(lab: LabDistance)
    ensures FixesPalette(Lookup(RGB_METRIC, lab))
  {
    forall c | c in PAL_RGB
      ensures Lookup(RGB_METRIC, lab)(ToColor(c)) == c
    {
      var i :| 0 <= i < |PAL_RGB| && PAL_RGB[i] == c;
      NearestOfPaletteEntry(i, lab);
    }
  }

  /** A buffer whose every pixel the lookup writes back as it stands comes out of the flat pass unchanged. */
  lemma {:induction false} FlatKeepsFixedPixels(s: seq<Byte>, n: nat, near: Color -> Rgb)
    requires 4 * n <= |s|
    requires forall p :: 0 <= p < n ==> PixelBytes(near(ToColor(PixelAt(s, p)))) == s[4 * p..4 * p + 4]
    ensures Render(FlatColors(s, n, near)) == s[..4 * n]
  {
    if n > 0 {
      var p := n - 1;
      FlatKeepsFixedPixels(s, p, near);
      RenderSnoc(FlatColors(s, p, near), near(ToColor(PixelAt(s, p))));
      assert s[..4 * n] == s[..4 * p] + s[4 * p..4 * p + 4];
    }
  }

  /** A buffer already over the palette comes out of the flat pass unchanged. */
  lemma FlatKeepsPaletteImage(s: seq<Byte>, n: nat, near: Color -> Rgb, pal: seq<Rgb>)
    requires 4 * n <= |s| && Fixes(near, pal) && Over(s, pal)
    ensures Render(FlatColors(s, n, near)) == s[..4 * n]
  {
    forall p | 0 <= p < n
      ensures PixelBytes(near(ToColor(PixelAt(s, p)))) == s[4 * p..4 * p + 4]
    {
      assert PixelAt(s, p) in pal && s[4 * p + 3] == 255;
    }
    FlatKeepsFixedPixels(s, n, near);
  }

  /** Idempotence: quantizing a `"None"` result again with `"None"` changes nothing. */
  lemma FlatIdempotent(s: seq<Byte>, W: nat, H: nat, m: seq<seq<real>>, orderedStrength: real, near: Color -> Rgb)
    requires IsSquare(m, 8) && |s| == 4 * (W * H) && IntoPalette(near) && FixesPalette(near)
    ensures (var t := Quantized(s, W, H, NONE, m, orderedStrength, near);
             |t| == |s| && Quantized(t, W, H, NONE, m, orderedStrength, near) == t)
  {
    var t := Quantized(s, W, H, NONE, m, orderedStrength, near);
    QuantizedOverPalette(s, W, H, NONE, m, orderedStrength, near);
    FlatKeepsPaletteImage(t, W * H, near, PAL_RGB);
    assert t[..4 * (W * H)] == t;
  }

  /**
   * The quantizing branches of `processImage` on a pre-filtered buffer. The
   * `"Ordered (4x4)"`, `"Random"` and `"Blue Noise"` tests are nested inside
   * the `"Ordered (8x8)"` branch, where they can never hold.
   */
  method QuantizeBranches(data: array<Byte>, W: nat, H: nat, dither: string, m: seq<seq<real>>, orderedStrength: real, near: Color -> Rgb)
    requires IsSquare(m, 8) && data.Length == 4 * (W * H)
    modifies data
    ensures data[..] == Quantized(old(data[..]), W, H, dither, m, orderedStrength, near)
  {
    if dither == NONE {
      FlatPass(data, W * H, near);
      return;
    }
    if dither == ORDERED_8 {
      if dither == ORDERED_4 {
        assert false;
      }
      if dither == RANDOM {
        assert false;
      }
      if dither == BLUE_NOISE {
        assert false;
      }
      var jit := Amplitude(orderedStrength);
      OrderedPass(data, W, H, m, jit, near);
      return;
    }
    DiffusionPass(data, W, H, dither, near);
  }

  /**
   * `processImage` from `getImageData` to `putImageData`: the pre-filter,
   * then the branch for `dither`, with `nearestPaletteColor(·, metric)` as
   * the lookup and `BAYER_8` as the ordered matrix.
   */
  method ProcessImage(data: array<Byte>, W: nat, H: nat, dither: string, metric: string, orderedStrength: real,
                      sat: real, ctr: real, lab: LabDistance)
    requires data.Length == 4 * (W * H)
    modifies data
    ensures (Bayer8Values();
             data[..] == Quantized(AdjustData(old(data[..]), sat, ctr), W, H, dither, BAYER_8, orderedStrength, Lookup(metric, lab)))
  {
    ApplySaturationContrast(data, sat, ctr);
    Bayer8Values();
    QuantizeBranches(data, W, H, dither, BAYER_8, orderedStrength, Lookup(metric, lab));
  }
}
