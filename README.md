# wplace palette quantizer, modelled in Dafny

This project models the image-quantizing core of the wplace converter
(`app.js`). The core maps every pixel of an RGBA buffer to one of a fixed
palette of 31 colours and forces alpha to 255. The pieces it models are:

- **Palette.** The table of ARGB hex strings is parsed by `hexToRGB` into
  `PAL_RGB`, and the leading alpha byte is dropped.
- **Nearest-colour search.** `nearestPaletteColor` is a linear scan from an
  `Infinity` bound with a strict `<`, under the squared RGB distance or, for
  any other metric name, a Lab distance.
- **Clamp and tables.** `clamp255`, and the Bayer threshold tables
  `BAYER_8` and `BAYER_4`.
- **Pre-filter.** `applySaturationContrast`: contrast first, then
  saturation around the luma of the contrast-adjusted channels, then a
  clamped store. Alpha is untouched.
- **Dispatch in `processImage`, exactly as written.**
  - `"None"` is flat quantization.
  - `"Ordered (8x8)"` jitters each pixel by its Bayer threshold before the
    lookup.
  - The `"Ordered (4x4)"`, `"Random"` and `"Blue Noise"` tests sit inside
    the 8x8 branch, so they can never hold.
  - Every other name reaches the error-diffusion loop.
- **Error diffusion.** The RGB channels are copied into a residual buffer
  `buf`, and the pixels are visited in raster order. For each pixel:
  - the lookup is made on the clamped residual;
  - the palette colour and alpha 255 are written to `data` at once;
  - the error (unclamped residual minus colour) is spread by the inline
    Floyd–Steinberg code, the inline Atkinson code, or a `KERNELS` entry
    through `diffuseKernel`. Without a matching kernel, nothing is spread.
- **Alpha loop of `downloadPNG`.**

Modules follow the program's layers:
- `Pixels` (pixels.dfy): bytes, colours, `clamp255`, the Uint8ClampedArray
  store, raster indices;
- `Palette` (palette.dfy);
- `PaletteSearch` (nearest.dfy);
- `Matrices` (matrices.dfy);
- `Prefilter` (prefilter.dfy);
- `Kernels` (kernels.dfy);
- `Diffusion` (diffusion.dfy): spreading one pixel's error into `buf`;
- `ErrorDiffusion` (errordiffusion.dfy): the diffusion pass;
- `Output` (output.dfy): writing pixels and the alpha loop;
- `Quantize` (quantize.dfy): the flat and ordered passes, the dispatch,
  and the end-to-end properties.

The loops that rewrite arrays in place are methods over `array`s. The
buffers are `data: array<Byte>` and `buf: array<real>`. Each method is
proved against a specification function of the old contents:
- `FlatColors`, `OrderedColors` and `Diffused` give the colours written,
  and `Render` gives the bytes for them;
- `AdjustData` gives the pre-filtered buffer;
- `AddKernel` gives one pixel's error spread;
- `ForceAlpha` gives the result of the alpha loop.

The properties are proved as lemmas about those functions. The passes take
the palette lookup as a value `near: Color -> Rgb`. `ProcessImage` supplies
`Lookup(metric, lab)`, the result `nearestPaletteColor` computes, and
`BAYER_8` as the 8x8 matrix.

Where the code and the design description of the system disagree, the
model follows the code:
- **Weight sums.** Not every kernel's weights sum to 1. Atkinson sums to
  6/8, "Sierra 2-4A" to 20/32 and "Sierra 3" to 39/32 (`Kernels.WeightSums`).
- **Residual.** The error is taken from the unclamped residual, not the
  clamped one (app.js:139).
- **Nested modes.** `"Ordered (4x4)"`, `"Random"` and `"Blue Noise"` are
  unreachable as modes of their own. They run the diffusion loop with no
  kernel, which gives the `"None"` result (`Quantize.NestedModesAreFlat`).
- **Zero width.** The code has no check of its own against a zero width.
  The model admits `W * H == 0`, for which every pass leaves the empty
  buffer.

## Model

| member | source | states |
|---|---|---|
| Pixels.Clamp255 | app.js:47 | the result lies in [0, 255] and equals the input whenever the input already lies there |
| Pixels.Clamp255Nearest | app.js:47 | no point of [0, 255] is closer to the input than the clamped value |
| Pixels.Clamp255Monotone | app.js:47 | clamping preserves order |
| Pixels.ToUint8Clamp | app.js:336 | a store into the byte buffer keeps 0 for inputs at or below 0, 255 for inputs at or above 255, and otherwise a byte within 1/2 of the input, between its floor and floor + 1 |
| Pixels.ToUint8ClampExact | app.js:336 | storing a value that already is a byte stores it unchanged |
| Pixels.ToUint8ClampNearest | app.js:336 | no byte is nearer to the input than the stored byte |
| Pixels.RasterBound | app.js:127 | the raster index `y*W + x` of an in-image pixel is below `W*H` |
| Pixels.RowStartIs | app.js:116 | row `y` starts at raster index `y*W` |
| Pixels.AllRows | app.js:115 | after the last row the raster index is the pixel count |
| Pixels.RowInImage | app.js:115-116 | every pixel of a row below `H` has a raster index below `W*H` |
| Pixels.RowFits | app.js:129-130 | row `y` ends, and row `y+1` starts, within the image |
| Pixels.RasterUnique | app.js:127 | distinct columns or rows give distinct raster indices |
| Pixels.Coords | app.js:129-130 | the pixel reached `n`-th by the nested row and column loops has a column below `W` and raster index `n` |
| Pixels.CoordsOf | app.js:129-130 | pixel `y*W + x` is reached at column `x` of row `y` |
| Pixels.CoordsInImage | app.js:129-130 | a pixel index below `W*H` lies in a row below `H` |
| Palette.HexDigitValue | app.js:7 | a hexadecimal digit of either case has a value below 16 |
| Palette.HexDigit | app.js:7 | the digit written for a value below 16 reads back as that value |
| Palette.FormatHexByte | app.js:7 | a byte is written as two hexadecimal digits |
| Palette.FormatArgb | app.js:7 | an alpha byte and a colour are written as a well-formed eight-digit ARGB string |
| Palette.ParseFormatHexByte | app.js:7 | reading two written digits gives back the byte |
| Palette.FormatParseHexByte | app.js:7 | two upper-case digits are what their value is written as |
| Palette.HexToRgbFormat | app.js:7 | `hexToRGB` of any written ARGB string is its colour, whatever its alpha byte |
| Palette.FormatHexToRgb | app.js:7 | an upper-case ARGB string is its alpha byte and its parsed colour written back |
| Palette.HexToRgbInjective | app.js:7 | two opaque upper-case entries with the same parsed colour are the same string |
| Palette.Line1OpaqueUpperHex | app.js:3 | every colour of the first line of the table is "FF" followed by six upper-case digits |
| Palette.Line2OpaqueUpperHex | app.js:4 | the same for the second line |
| Palette.Line3OpaqueUpperHex | app.js:5 | the same for the third line |
| Palette.PaletteHexOpaqueUpper | app.js:2-6 | every entry of the table is opaque and upper case |
| Palette.PaletteHexWellFormed | app.js:2-6 | the table has 31 entries, each a well-formed ARGB string |
| Palette.Line1Distinct | app.js:3 | the first line holds no colour twice |
| Palette.Line2Distinct | app.js:4 | the second line holds no colour twice |
| Palette.Line3Distinct | app.js:5 | the third line holds no colour twice |
| Palette.LinesDisjoint | app.js:3-5 | no colour occurs in two lines |
| Palette.PaletteHexDistinct | app.js:2-6 | the table's 31 strings are pairwise distinct |
| Palette.PaletteSize | app.js:8 | `PAL_RGB` has 31 entries |
| Palette.PaletteFacts | app.js:2-8 | `PAL_RGB` has 31 pairwise distinct colours, with black at entry 0 and white at entry 4 |
| PaletteSearch.SqDistance | app.js:23-24 | the squared RGB distance is zero exactly when the query is the palette colour, and positive otherwise |
| PaletteSearch.SqPositive | app.js:24 | a square is never negative, and is positive at every non-zero value |
| PaletteSearch.Distances | app.js:22-30 | there is one distance per palette entry |
| PaletteSearch.FirstArgMin | app.js:20-25 | the index the strict-`<` scan keeps is in range |
| PaletteSearch.FirstArgMinSound | app.js:20-25 | the kept index is at the minimum, and strictly below every earlier distance |
| PaletteSearch.FirstArgMinIsFirstMin | app.js:20-25 | an index is the first minimum if and only if it is the one the scan keeps |
| PaletteSearch.FirstArgMinStep | app.js:24 | one more entry replaces the kept index exactly when it is strictly nearer |
| PaletteSearch.NearestIndex | app.js:19-34 | `best` is always an in-range palette index |
| PaletteSearch.Nearest | app.js:26-32 | the returned colour is `PAL_RGB[best]`, a palette colour, in both metric branches |
| PaletteSearch.NearestIsFirstMinimum | app.js:19-34 | under either metric, the returned entry is at minimal distance and every earlier entry is strictly farther |
| PaletteSearch.NearestRgb | app.js:21-26 | under "RGB", no entry is nearer than the returned one, and every entry before it is strictly farther |
| PaletteSearch.RgbIgnoresLab | app.js:21-27 | the Lab distance plays no part in the "RGB" branch |
| PaletteSearch.NearestOfPaletteEntry | app.js:22-26 | an RGB query equal to `PAL_RGB[i]` returns index `i` and colour `PAL_RGB[i]` |
| PaletteSearch.NearestOfPaletteEntryLab | app.js:28-32 | under a Lab distance that is zero only at the query's own entry, the query `PAL_RGB[i]` returns `PAL_RGB[i]` |
| PaletteSearch.NearestPaletteColor | app.js:19-34 | the loop with `best`, the `bestD = Infinity` bound and the strict `<` returns the first nearest palette colour |
| Matrices.Normalize | app.js:46 | the normalised table has the same shape, and each value times the divisor is the level (and `BAYER_4`, line 310) |
| Matrices.Cell8 | app.js:37-45 | the cell computed for a level below 64 lies in the 8 by 8 table |
| Matrices.Cell4 | app.js:305-309 | the cell computed for a level below 16 lies in the 4 by 4 table |
| Matrices.Bayer8Row0 | app.js:38 | row 0 of `BAYER_8` has 8 levels, each below 64 and at the cell `Cell8` gives for it |
| Matrices.Bayer8Row1 | app.js:39 | the same for row 1 |
| Matrices.Bayer8Row2 | app.js:40 | the same for row 2 |
| Matrices.Bayer8Row3 | app.js:41 | the same for row 3 |
| Matrices.Bayer8Row4 | app.js:42 | the same for row 4 |
| Matrices.Bayer8Row5 | app.js:43 | the same for row 5 |
| Matrices.Bayer8Row6 | app.js:44 | the same for row 6 |
| Matrices.Bayer8Row7 | app.js:45 | the same for row 7 |
| Matrices.Bayer8LevelsFrom0 | app.js:37-45 | each of the levels 0..7 occurs in `BAYER_8` |
| Matrices.Bayer8LevelsFrom8 | app.js:37-45 | each of the levels 8..15 occurs in `BAYER_8` |
| Matrices.Bayer8LevelsFrom16 | app.js:37-45 | each of the levels 16..23 occurs in `BAYER_8` |
| Matrices.Bayer8LevelsFrom24 | app.js:37-45 | each of the levels 24..31 occurs in `BAYER_8` |
| Matrices.Bayer8LevelsFrom32 | app.js:37-45 | each of the levels 32..39 occurs in `BAYER_8` |
| Matrices.Bayer8LevelsFrom40 | app.js:37-45 | each of the levels 40..47 occurs in `BAYER_8` |
| Matrices.Bayer8LevelsFrom48 | app.js:37-45 | each of the levels 48..55 occurs in `BAYER_8` |
| Matrices.Bayer8LevelsFrom56 | app.js:37-45 | each of the levels 56..63 occurs in `BAYER_8` |
| Matrices.Bayer4Rows01 | app.js:306-307 | rows 0 and 1 of `BAYER_4` have 4 levels, each below 16 and at the cell `Cell4` gives for it |
| Matrices.Bayer4Rows23 | app.js:308-309 | the same for rows 2 and 3 |
| Matrices.Bayer4Levels | app.js:305-309 | each of the levels 0..15 occurs in `BAYER_4` |
| Matrices.Bayer8IsPermutation | app.js:37-45 | `BAYER_8`'s levels are a permutation of 0..63: each level occurs, at exactly one cell, and nothing else occurs |
| Matrices.Bayer4IsPermutation | app.js:305-309 | `BAYER_4`'s levels are a permutation of 0..15 |
| Matrices.Bayer8Values | app.js:37-46 | every `BAYER_8` value is level/64, so the threshold offset `BAYER_8[y][x] - 0.5` lies in [-1/2, 1/2) |
| Matrices.Bayer4Values | app.js:305-310 | every `BAYER_4` value is level/16, with the threshold offset in [-1/2, 1/2) |
| Prefilter.Store | app.js:336 | the stored byte is within 1/2 of the clamped channel |
| Prefilter.StoreNearest | app.js:336 | no byte is nearer to the clamped channel than the stored one |
| Prefilter.AdjustPixelIdentity | app.js:328-336 | with saturation 1 and contrast 1 a pixel is unchanged |
| Prefilter.AdjustPixelDesaturates | app.js:332-336 | with saturation 0 every pixel comes out grey (r = g = b) |
| Prefilter.AdjustPixelKeepsGrey | app.js:328-336 | a grey pixel stays grey at every saturation and contrast |
| Prefilter.AdjustChunkIdentity | app.js:328-336 | with saturation 1 and contrast 1 a pixel's four bytes are unchanged |
| Prefilter.AdjustData | app.js:326-337 | the pre-filter keeps the buffer's length |
| Prefilter.AdjustDataPixels | app.js:326-337 | pixel by pixel, the new RGB is the pixel pre-filter of the old RGB, and alpha is what it was |
| Prefilter.AdjustDataIdentity | app.js:323-338 | with saturation 1 and contrast 1 the whole buffer is unchanged |
| Prefilter.AdjustDataChunk | app.js:326-337 | the four bytes of pixel `p` are the pre-filter of pixel `p`'s four bytes |
| Prefilter.AdjustDataTargets | app.js:326-337 | the pre-filtered buffer holds, pixel by pixel, the pre-filtered bytes of the input |
| Prefilter.AdjustPixelAt | app.js:328-336 | one pixel is rewritten in place: its three channels become the pre-filtered ones, and every other byte, alpha included, is kept |
| Prefilter.AdjustStep | app.js:326-337 | after one more loop step, one more pixel holds its target bytes and the rest of the buffer is untouched |
| Prefilter.AdjustPixels | app.js:326-337 | the loop leaves the buffer at its target, pixel by pixel |
| Prefilter.ApplySaturationContrast | app.js:323-338 | the buffer becomes the pre-filter of its old contents |
| Kernels.WeightSums | app.js:272-302 | the weights sum to 1 for Floyd–Steinberg, Burkes, Stucki, Jarvis–Judice–Ninke and Sierra Lite, to 6/8 for Atkinson, 20/32 for "Sierra 2-4A" and 39/32 for "Sierra 3" (the inline Floyd–Steinberg and Atkinson weights are at lines 142 and 150) |
| Kernels.KernelsForward | app.js:272-302 | every offset of every kernel the loop can apply has `dy > 0`, or `dy = 0` and `dx > 0` (the inline offsets are at lines 143-151) |
| Diffusion.Portions | app.js:343-349 | there is one portion per kernel entry |
| Diffusion.GainMissed | app.js:345 | a pixel that no entry hits gains nothing |
| Diffusion.AddCellAt | app.js:345-350 | one entry adds its amount to a channel of pixel `p` exactly when its target is inside the image and is `p` |
| Diffusion.AddSharesChannel | app.js:343-351 | after the first `n` entries, a channel of pixel `p` holds its old value plus the amounts of the entries that hit `p` |
| Diffusion.AddSharesAt | app.js:343-351 | the same, for all three channels |
| Diffusion.AddKernelAt | app.js:341-352 | `diffuseKernel` adds `er*w`, `eg*w`, `eb*w` to pixel `p` for each entry landing inside the image on `p`, and nothing for out-of-image entries |
| Diffusion.AddKernelElsewhere | app.js:341-352 | every pixel that no entry hits keeps its three values |
| Diffusion.ForwardTarget | app.js:344-345 | a forward offset that lands inside the image lands on a later raster position |
| Diffusion.BumpKeepsPrefix | app.js:347-349 | an add at cell `t` leaves every cell before `t` alone |
| Diffusion.AddCellKeepsPrefix | app.js:345-350 | an entry landing at or after cell `m`, or outside the image, leaves the cells before `m` alone |
| Diffusion.AddSharesKeepPrefix | app.js:343-351 | entries that land at or after cell `m` leave the cells before `m` alone |
| Diffusion.ForwardLandsAfter | app.js:343-345 | a forward kernel sends every portion past the cells of the current pixel |
| Diffusion.AddKernelForward | app.js:341-352 | a forward kernel leaves the cells of the current pixel, and of every earlier pixel, as they were |
| Diffusion.AddAt | app.js:143 | `buf[t]+=er*w; buf[t+1]+=eg*w; buf[t+2]+=eb*w` adds the three shares at `t` |
| Diffusion.AddCellInPlace | app.js:345-350 | the bounds-checked add changes `buf` in place as one entry applied to its old contents |
| Diffusion.AddEntryInPlace | app.js:150-151 | applying portion `j` in place takes `buf` from `j` portions applied to `j + 1` |
| Diffusion.AddOffsetInPlace | app.js:343-350 | applying kernel entry `t` in place takes `buf` from `j` portions applied to `j + 1` |
| Diffusion.SkipEntry | app.js:143-147 | a portion whose target is outside the image changes nothing |
| Diffusion.AddAtEntry | app.js:143-147 | a guarded inline add, with its target inside the image, takes `buf` from `j` portions applied to `j + 1` |
| Diffusion.DiffuseKernel | app.js:341-352 | `diffuseKernel` changes `buf` to the whole kernel applied to its old contents |
| Diffusion.FloydSteinbergPortions | app.js:142-147 | the inline Floyd–Steinberg adds are 7/16 to the right, and 3/16, 5/16 and 1/16 below left, below and below right |
| Diffusion.FloydSteinberg | app.js:141-148 | the inline Floyd–Steinberg branch changes `buf` to the `FLOYD_STEINBERG` kernel applied to its old contents |
| Diffusion.FloydSteinbergBelow | app.js:144-148 | the `y+1<dstH` block applies entries 1 to 3, which in the last row change nothing |
| Diffusion.FloydSteinbergNextRow | app.js:145-147 | the three adds into the next row are entries 1 to 3 |
| Diffusion.FloydSteinbergBelowRight | app.js:147 | the guarded add below right is entry 3 |
| Diffusion.AtkinsonPortions | app.js:150-151 | the six Atkinson adds are 1/8 of the error at (1,0), (2,0), (-1,1), (0,1), (1,1) and (0,2) |
| Diffusion.Atkinson | app.js:149-151 | the inline Atkinson branch changes `buf` to the `ATKINSON` kernel applied to its old contents |
| ErrorDiffusion.KernelOf | app.js:141-154 | the mode selects a kernel if and only if it is Floyd–Steinberg, Atkinson or a `KERNELS` key, and every kernel it selects points forward |
| ErrorDiffusion.Spread | app.js:141-154 | spreading keeps the buffer's length |
| ErrorDiffusion.SpreadForward | app.js:141-154 | the error spread for pixel `(x, y)` never changes the cells of that pixel or of any earlier one |
| ErrorDiffusion.Residuals | app.js:125-126 | the residual buffer has three cells per pixel |
| ErrorDiffusion.ResidualsAt | app.js:126 | channel `ch` of pixel `p` in the residual buffer is byte `4p + ch` of `data` |
| ErrorDiffusion.CopyPixel | app.js:126 | one step of the copy loop fills pixel `p`'s three cells |
| ErrorDiffusion.CopyResiduals | app.js:125-126 | the copy loop fills `buf` with the RGB channels of `data`, alpha skipped |
| ErrorDiffusion.Step | app.js:131-154 | one pixel appends one colour, keeps the colours written before, and keeps the buffer's length |
| ErrorDiffusion.Diffused | app.js:129-156 | after `n` pixels, `n` colours have been written |
| ErrorDiffusion.DiffusedStep | app.js:129-131 | pixel `y*W + x` of the scan is the step at column `x` of row `y` |
| ErrorDiffusion.StepIs | app.js:132-139 | a step writes the lookup of the clamped residual and spreads the unclamped residual minus that colour |
| ErrorDiffusion.StepInPalette | app.js:133-136 | a step keeps every colour written inside the lookup's palette |
| ErrorDiffusion.DiffusedOverPalette | app.js:129-156 | every colour the diffusion loop writes is a lookup result |
| ErrorDiffusion.StepKeepsPrefix | app.js:139-154 | with a forward kernel, a step leaves the cells of the pixel it visits, and of every earlier pixel, as they were |
| ErrorDiffusion.DiffusedStepKeeps | app.js:129-156 | each step keeps the colours so far and the cells of the pixels visited |
| ErrorDiffusion.DiffusedSettled | app.js:129-156 | forward diffusion: once pixel `p` is visited, later pixels change neither the colours written nor the residual cells of pixels up to `p` |
| ErrorDiffusion.ClampedOfPrefix | app.js:133 | buffers that agree up to pixel `p` hand the lookup the same clamped colour for `p` |
| ErrorDiffusion.DiffusedColorAt | app.js:133-136 | the colour written for pixel `p` is the lookup of its clamped residual as it stands when `p` is visited |
| ErrorDiffusion.DiffusedColorOfFinalResidual | app.js:133-158 | nothing is copied back from `buf`: each pixel's colour is the lookup of its clamped residual as the buffer holds it at the end |
| ErrorDiffusion.Propagate | app.js:141-154 | the `if` chain changes `buf` to the selected kernel's spread, or leaves it alone when no branch matches |
| ErrorDiffusion.LookupAt | app.js:131-139 | the colour is the lookup of the clamped residuals, and the error is the unclamped residual minus that colour |
| ErrorDiffusion.DiffusePixel | app.js:131-154 | one loop body writes pixel `p`'s colour and alpha 255 and propagates its error, which is one step of the specification |
| ErrorDiffusion.DiffuseAt | app.js:130-154 | pixel `(x, y)`, the `p`-th of the scan, takes `data` and `buf` from the pass before `p` to the pass after it |
| ErrorDiffusion.DiffuseSpan | app.js:130-155 | the inner loop takes `data` and `buf` through all `W` pixels of row `y` |
| ErrorDiffusion.DiffuseRow | app.js:129-155 | row `y` takes the pass from the start of the row to the start of the next |
| ErrorDiffusion.DiffuseRows | app.js:129-156 | after the outer loop, `data` holds the rendered colours of every pixel visited, and the remaining input after them |
| ErrorDiffusion.DiffuseDone | app.js:156-158 | once every row is done, no input byte is left in `data` |
| ErrorDiffusion.DiffusionPass | app.js:124-159 | the diffusion branch leaves in `data` exactly the colours written during the scan (each with alpha 255), written once per pixel, and never overwritten from `buf` |
| Output.Render | app.js:136 | the rendered buffer has four bytes per colour |
| Output.RenderSnoc | app.js:136 | writing one more pixel appends its four bytes |
| Output.RenderAt | app.js:136 | pixel `p` of a rendered buffer has colour `cs[p]` and alpha 255 (as the writes at lines 69 and 119 do) |
| Output.AllInSnoc | app.js:133-136 | one more palette colour keeps every colour inside the palette |
| Output.RenderOver | app.js:136 | rendering palette colours gives a buffer whose every pixel is a palette colour with alpha 255 |
| Output.WritePixel | app.js:136 | the four writes replace pixel `i`'s bytes with the colour and 255, and keep every other byte (the same writes are at lines 69 and 119) |
| Output.RenderStep | app.js:129-136 | writing pixel `p` after `p` rendered pixels leaves `p + 1` rendered pixels and the untouched rest of the input (likewise for the loops at lines 67-69 and 115-119) |
| Output.ForceAlpha | app.js:225 | the alpha loop keeps the buffer's length |
| Output.ForceAlphaAt | app.js:225 | every pixel's alpha becomes 255 and its RGB is kept |
| Output.ForceAlphaAppend | app.js:225 | the alpha loop works four bytes at a time, so it splits at any multiple of four |
| Output.ForceAlphaOfRender | app.js:225 | a buffer that is already opaque, such as any rendered buffer, is left as it is |
| Output.SetAlphaInChunk | app.js:225 | setting byte 3 of a pixel in the middle of the buffer changes only that pixel's alpha |
| Output.StoreAlpha | app.js:225 | `d[i+3]=255` sets that byte, and a store past the end of the typed array is dropped |
| Output.ForceOpaque | app.js:224-226 | `downloadPNG`'s loop changes the buffer to the alpha pass of its old contents |
| Output.AlphaStep | app.js:225 | one full pixel of the loop is set to alpha 255 |
| Output.AlphaTail | app.js:225 | a short trailing part that no store reaches is left as it was |
| Quantize.LookupIntoPalette | app.js:19-34 | `nearestPaletteColor` under any metric and Lab distance answers only palette colours |
| Quantize.FlatColors | app.js:67-69 | the flat pass writes one colour per pixel |
| Quantize.FlatColorsAt | app.js:68 | the flat colour of pixel `p` is the lookup of that pixel as it stands |
| Quantize.FlatPixel | app.js:68-69 | one body of the `"None"` loop renders one more pixel |
| Quantize.FlatPass | app.js:66-72 | the `"None"` loop leaves in `data` the rendered lookups of every pixel |
| Quantize.BayerOffsetRange | app.js:116 | the threshold offset `t` drawn from `BAYER_8` lies in [-1/2, 1/2) |
| Quantize.OrderedColors | app.js:115-120 | the ordered pass writes one colour per pixel |
| Quantize.OrderedWithoutJitterIsFlat | app.js:114-120 | with no jitter, every ordered query is the pixel itself, so the ordered colours are the flat ones |
| Quantize.JitteredQuery | app.js:116-117 | `rr, gg, bb` are the pixel's channels shifted by `t*jit` and clamped |
| Quantize.OrderedColorsStep | app.js:115-118 | extending the ordered colours by pixel `y*W + x` appends the lookup of that pixel's jittered query |
| Quantize.OrderedPixel | app.js:116-119 | one body of the ordered loop renders one more pixel |
| Quantize.OrderedRow | app.js:115-120 | the inner loop renders row `y` |
| Quantize.OrderedRows | app.js:115-120 | the outer loop renders every row, top to bottom |
| Quantize.OrderedDone | app.js:120-121 | once every row is done, no input byte is left in `data` |
| Quantize.OrderedPass | app.js:114-121 | the `"Ordered (8x8)"` loop leaves in `data` the rendered lookups of the jittered pixels |
| Quantize.FlatOverPalette | app.js:66-70 | every flat colour belongs to the lookup's palette |
| Quantize.OrderedOverPalette | app.js:115-120 | every ordered colour belongs to the lookup's palette |
| Quantize.QuantizedOverPalette | app.js:66-159 | after every branch, with a palette lookup, every pixel is a palette colour with alpha 255 |
| Quantize.ProcessedOverPalette | app.js:61-159 | `processImage`, for every mode, metric, strength, saturation and contrast, writes only palette colours with alpha 255 |
| Quantize.ResidualsClamped | app.js:126-133 | clamping an untouched residual gives back the pixel's own bytes |
| Quantize.DiffusedWithoutKernel | app.js:141-154 | with no matching kernel, a pixel appends the lookup of its clamped residual and spreads nothing |
| Quantize.NoKernelKeeps | app.js:129-156 | with no kernel the residuals never change, and pixel `j` is the lookup of its own clamped starting residual |
| Quantize.NoKernelIsFlat | app.js:124-156 | with no kernel the diffusion loop writes the same colours as the `"None"` loop |
| Quantize.UnmatchedModeIsFlat | app.js:141-154 | a mode that reaches the diffusion loop without a matching kernel gives the `"None"` result |
| Quantize.NestedModesAreFlat | app.js:74-111 | `"Ordered (4x4)"`, `"Random"` and `"Blue Noise"`, nested inside the 8x8 branch, give the `"None"` result |
| Quantize.ZeroStrengthIsFlat | app.js:114-120 | `"Ordered (8x8)"` at strength 0 gives the `"None"` result |
| Quantize.DownloadKeepsQuantized | app.js:225 | `downloadPNG`'s alpha loop leaves every quantized buffer as it is |
| Quantize.RgbLookupFixesPalette | app.js:22-26 | the "RGB" lookup answers every palette colour with itself |
| Quantize.FlatKeepsFixedPixels | app.js:66-70 | a buffer whose every pixel the lookup writes back as it stands comes out of the flat pass unchanged |
| Quantize.FlatKeepsPaletteImage | app.js:66-70 | a buffer already over the palette comes out of the flat pass unchanged |
| Quantize.FlatIdempotent | app.js:66-70 | quantizing a `"None"` result again with `"None"` changes nothing |
| Quantize.QuantizeBranches | app.js:66-159 | the dispatch, with its nested branches that can never hold, leaves in `data` the quantized buffer for the mode |
| Quantize.ProcessImage | app.js:61-159 | from `getImageData` to `putImageData`: the pre-filter, then the branch for the mode, with `nearestPaletteColor` as the lookup and `BAYER_8` as the matrix |

## Left out

- The Lab conversion is not part of this model. `srgbToLinear`, `rgbToXyz`, `xyzToLab`, `rgbToLab`, the unused `linearToSrgb` and `PAL_LAB` are floating-point code built on `Math.pow` and `Math.cbrt`. The squared Lab distance `deltaE2(rgbToLab(c), PAL_LAB[i])` is a parameter `lab`, and only the scan around it is modelled.
- Canvas plumbing is not modelled:
  - the resize canvas, `drawImage`, `getImageData` and `putImageData`;
  - the `Math.round` height computation; the buffer dimensions `W` and `H` are inputs;
  - the display upscaling in `renderScaled`.
- Number representation:
  - `buf` holds reals, so the Float32 rounding of its cells is not modelled;
  - the channels are reals, so the double-precision rounding of jitter, luma and error arithmetic is not modelled;
  - the store into the Uint8ClampedArray is modelled exactly, round-half-to-even (`Pixels.ToUint8Clamp`).
- The `BLUENOISE_16` table and its LCG are not modelled. They are used only in an unreachable branch.
- The xorshift generator and the bodies of the 4x4, Random and Blue Noise loops are not modelled, because no mode can reach them. `Quantize.QuantizeBranches` keeps their tests as branches that can never hold.
- DOM and browser glue is not modelled:
  - reading the sliders; `sat`, `ctr`, `orderedStrength`, `metric` and `dither` are parameters;
  - theme and localStorage;
  - file, drag-and-drop and URL loading;
  - `toBlob` and the download;
  - the palette swatch UI.
- `KERNELS[dither]` is modelled as a lookup of the six own keys. A mode name inherited from `Object.prototype`, such as `"constructor"`, would make the JavaScript call `diffuseKernel` with a function as kernel. That case is not modelled.
- Prefilter.ApplySaturationContrast: requires a buffer length that is a multiple of four, as every RGBA image buffer has. The behaviour of a ragged tail is not modelled.
- Quantize.ProcessImage: requires `data.Length == 4 * (W * H)`, which is what `getImageData` returns.
- The specification functions take the 8x8 matrix as a parameter `m` and the lookup as a parameter `near`. `ProcessImage` fixes them to `BAYER_8` and `Lookup(metric, lab)`, so the other values of these parameters say nothing about the source.
- Diffusion.AddKernelAt: states each pixel's gain as the per-channel sum of `er*w`, `eg*w`, `eb*w` over the entries that hit it. It does not factor out the kernel's total weight.
