/**
 * The error-diffusion kernels: the Floyd–Steinberg and Atkinson offsets
 * that the diffusion loop of `processImage` spells out inline, and the
 * `KERNELS` table of further kernels read by `diffuseKernel`. An offset
 * `(dx, dy, w)` sends the fraction `w` of a pixel's error to the pixel `dx`
 * columns right and `dy` rows down.
 */
module Kernels {

  /** One kernel entry `{dx, dy, w}`. */
  datatype Offset = Offset(dx: int, dy: int, w: real)

  /** Floyd–Steinberg, in the order the inline code applies it. */
  const FLOYD_STEINBERG: seq<Offset> := [
    Offset(1, 0, 7.0 / 16.0), Offset(-1, 1, 3.0 / 16.0), Offset(0, 1, 5.0 / 16.0), Offset(1, 1, 1.0 / 16.0)
  ]

  /** Atkinson: six neighbours at `1/8` each, in the order of the `add` calls. */
  const ATKINSON: seq<Offset> := [
    Offset(1, 0, 1.0 / 8.0), Offset(2, 0, 1.0 / 8.0), Offset(-1, 1, 1.0 / 8.0),
    Offset(0, 1, 1.0 / 8.0), Offset(1, 1, 1.0 / 8.0), Offset(0, 2, 1.0 / 8.0)
  ]

  const BURKES: seq<Offset> := [
    Offset(1, 0, 8.0 / 32.0), Offset(2, 0, 4.0 / 32.0),
    Offset(-2, 1, 2.0 / 32.0), Offset(-1, 1, 4.0 / 32.0), Offset(0, 1, 8.0 / 32.0), Offset(1, 1, 4.0 / 32.0), Offset(2, 1, 2.0 / 32.0)
  ]

  const STUCKI: seq<Offset> := [
    Offset(1, 0, 8.0 / 42.0), Offset(2, 0, 4.0 / 42.0),
    Offset(-2, 1, 2.0 / 42.0), Offset(-1, 1, 4.0 / 42.0), Offset(0, 1, 8.0 / 42.0), Offset(1, 1, 4.0 / 42.0), Offset(2, 1, 2.0 / 42.0),
    Offset(-2, 2, 1.0 / 42.0), Offset(-1, 2, 2.0 / 42.0), Offset(0, 2, 4.0 / 42.0), Offset(1, 2, 2.0 / 42.0), Offset(2, 2, 1.0 / 42.0)
  ]

  const JARVIS_JUDICE_NINKE: seq<Offset> := [
    Offset(1, 0, 7.0 / 48.0), Offset(2, 0, 5.0 / 48.0),
    Offset(-2, 1, 3.0 / 48.0), Offset(-1, 1, 5.0 / 48.0), Offset(0, 1, 7.0 / 48.0), Offset(1, 1, 5.0 / 48.0), Offset(2, 1, 3.0 / 48.0),
    Offset(-2, 2, 1.0 / 48.0), Offset(-1, 2, 3.0 / 48.0), Offset(0, 2, 5.0 / 48.0), Offset(1, 2, 3.0 / 48.0), Offset(2, 2, 1.0 / 48.0)
  ]

  const SIERRA_LITE: seq<Offset> := [
    Offset(1, 0, 2.0 / 4.0),
    Offset(-1, 1, 1.0 / 4.0), Offset(0, 1, 1.0 / 4.0)
  ]

  const SIERRA_2_4A: seq<Offset> := [
    Offset(1, 0, 4.0 / 32.0), Offset(2, 0, 3.0 / 32.0),
    Offset(-2, 1, 1.0 / 32.0), Offset(-1, 1, 2.0 / 32.0), Offset(0, 1, 3.0 / 32.0), Offset(1, 1, 2.0 / 32.0), Offset(2, 1, 1.0 / 32.0),
    Offset(-1, 2, 1.0 / 32.0), Offset(0, 2, 2.0 / 32.0), Offset(1, 2, 1.0 / 32.0)
  ]

  const SIERRA_3: seq<Offset> := [
    Offset(1, 0, 5.0 / 32.0), Offset(2, 0, 3.0 / 32.0),
    Offset(-2, 1, 2.0 / 32.0), Offset(-1, 1, 4.0 / 32.0), Offset(0, 1, 5.0 / 32.0), Offset(1, 1, 4.0 / 32.0), Offset(2, 1, 2.0 / 32.0),
    Offset(-2, 2, 2.0 / 32.0), Offset(-1, 2, 3.0 / 32.0), Offset(0, 2, 4.0 / 32.0), Offset(1, 2, 3.0 / 32.0), Offset(2, 2, 2.0 / 32.0)
  ]

  /** The `KERNELS` object, keyed by the dither mode's display name. */
  const KERNELS: map<string, seq<Offset>> := map[
    "Burkes" := BURKES,
    "Stucki" := STUCKI,
    "Jarvis–Judice–Ninke" := JARVIS_JUDICE_NINKE,
    "Sierra Lite" := SIERRA_LITE,
    "Sierra 2-4A" := SIERRA_2_4A,
    "Sierra 3" := SIERRA_3
  ]

  /** The sum of the weights of `k[i..]`. */
  function WeightSum(k: seq<Offset>, i: nat := 0): real
    decreases |k| - i
  {
    if i >= |k| then 0.0 else k[i].w + WeightSum(k, i + 1)
  }

  /**
   * The share of a pixel's error each kernel passes on: all of it for five
   * of them, less for Atkinson and Sierra 2-4A, and more than all of it
   * for Sierra 3.
   */
  lemma WeightSums()
    ensures WeightSum(FLOYD_STEINBERG) == 1.0
    ensures WeightSum(ATKINSON) == 6.0 / 8.0
    ensures WeightSum(BURKES) == 1.0
    ensures WeightSum(STUCKI) == 1.0
    ensures WeightSum(JARVIS_JUDICE_NINKE) == 1.0
    ensures WeightSum(SIERRA_LITE) == 1.0
    ensures WeightSum(SIERRA_2_4A) == 20.0 / 32.0
    ensures WeightSum(SIERRA_3) == 39.0 / 32.0
  {
  }

  /**
   * An offset points forward in raster order: to a later row, or further
   * right on the same row.
   */
  predicate Forward(o: Offset)
  {
    o.dy > 0 || (o.dy == 0 && o.dx > 0)
  }

  predicate AllForward(k: seq<Offset>)
  {
    forall i :: 0 <= i < |k| ==> Forward(k[i])
  }

  /** Every kernel that the diffusion loop can apply points forward. */
  lemma KernelsForward()
    ensures AllForward(FLOYD_STEINBERG) && AllForward(ATKINSON)
    ensures forall name :: name in KERNELS ==> AllForward(KERNELS[name])
  {
  }
}
