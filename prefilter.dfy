/**
 * `applySaturationContrast`: the pre-filter run on the RGBA buffer before
 * quantization. Contrast is applied around 128 first; saturation is then
 * applied around the luma of the contrast-adjusted channels; each channel is
 * clamped and stored into the Uint8ClampedArray. Alpha is left alone.
 */
module Prefilter {
  import opened Pixels

  /** `(v - 128) * ctr + 128`. */
  function Contrast(v: real, ctr: real): real
  {
    (v - 128.0) * ctr + 128.0
  }

  /** The Rec. 709 luma `0.2126 r + 0.7152 g + 0.0722 b`. */
  function Luma(r: real, g: real, b: real): real
  {
    0.2126 * r + 0.7152 * g + 0.0722 * b
  }

  /** `Y + (v - Y) * sat`: pulls a channel towards, or pushes it away from, the grey `Y`. */
  function Saturate(v: real, y: real, sat: real): real
  {
    y + (v - y) * sat
  }

  /**
   * `data[i] = clamp255(v)`: the byte a Uint8ClampedArray keeps for `v`. It
   * is the byte nearest to the clamped value.
   */
  function Store(v: real): (b: Byte)
    ensures Abs(b as real - Clamp255(v)) <= 0.5
  {
    ToUint8Clamp(Clamp255(v))
  }

  /** No byte is nearer to the clamped value than the stored one. */
  lemma StoreNearest(v: real, u: Byte)
    ensures Abs(Store(v) as real - Clamp255(v)) <= Abs(u as real - Clamp255(v))
  {
    ToUint8ClampNearest(Clamp255(v), u);
  }

  /** The pre-filter on one pixel's RGB channels. */
  function AdjustPixel(p: Rgb, sat: real, ctr: real): Rgb
  {
    var r := Contrast(p.r as real, ctr);
    var g := Contrast(p.g as real, ctr);
    var b := Contrast(p.b as real, ctr);
    var y := Luma(r, g, b);
    Rgb(Store(Saturate(r, y, sat)), Store(Saturate(g, y, sat)), Store(Saturate(b, y, sat)))
  }

  /** With `sat = 1` and `ctr = 1` the pre-filter changes nothing. */
  lemma AdjustPixelIdentity(p: Rgb)
    ensures AdjustPixel(p, 1.0, 1.0) == p
  {
    ToUint8ClampExact(p.r);
    ToUint8ClampExact(p.g);
    ToUint8ClampExact(p.b);
  }

  /** With `sat = 0` every pixel becomes grey: all three channels store the luma. */
  lemma AdjustPixelDesaturates(p: Rgb, ctr: real)
    ensures var q := AdjustPixel(p, 0.0, ctr); q.r == q.g == q.b
  {
  }

  /** A grey pixel stays grey at every saturation (the luma weights sum to 1). */
  lemma AdjustPixelKeepsGrey(p: Rgb, sat: real, ctr: real)
    requires p.r == p.g == p.b
    ensures var q := AdjustPixel(p, sat, ctr); q.r == q.g == q.b
  {
    var c := Contrast(p.r as real, ctr);
    assert Luma(c, c, c) == c;
  }

  /** The pre-filter of four bytes `[r, g, b, a]`: new RGB, the same alpha. */
  function AdjustChunk(c: seq<Byte>, sat: real, ctr: real): seq<Byte>
    requires |c| == 4
  {
    var q := AdjustPixel(Rgb(c[0], c[1], c[2]), sat, ctr);
    [q.r, q.g, q.b, c[3]]
  }

  lemma AdjustChunkIdentity(c: seq<Byte>)
    requires |c| == 4
    ensures AdjustChunk(c, 1.0, 1.0) == c
  {
    AdjustPixelIdentity(Rgb(c[0], c[1], c[2]));
  }

  /**
   * The pre-filter over an RGBA buffer, four bytes at a time from the
   * front. (A buffer's length is a multiple of four; a shorter tail would
   * be left alone.)
   */
  function AdjustData(s: seq<Byte>, sat: real, ctr: real): (t: seq<Byte>)
    ensures |t| == |s|
  {
    if |s| < 4 then s
    else AdjustChunk(s[..4], sat, ctr) + AdjustData(s[4..], sat, ctr)
  }

  /**
   * Pixel by pixel: every pixel's RGB is the pixel pre-filter of its old
   * RGB, and every alpha byte is what it was.
   */
  lemma AdjustDataPixels(s: seq<Byte>, sat: real, ctr: real, p: nat)
    requires 4 * p + 3 < |s|
    ensures PixelAt(AdjustData(s, sat, ctr), p) == AdjustPixel(PixelAt(s, p), sat, ctr)
    ensures AdjustData(s, sat, ctr)[4 * p + 3] == s[4 * p + 3]
  {
    AdjustDataChunk(s, p, sat, ctr);
    var t := AdjustData(s, sat, ctr);
    var c := s[4 * p..4 * p + 4];
    assert t[4 * p..4 * p + 4][0] == t[4 * p] && c[0] == s[4 * p];
    assert t[4 * p..4 * p + 4][1] == t[4 * p + 1] && c[1] == s[4 * p + 1];
    assert t[4 * p..4 * p + 4][2] == t[4 * p + 2] && c[2] == s[4 * p + 2];
    assert t[4 * p..4 * p + 4][3] == t[4 * p + 3] && c[3] == s[4 * p + 3];
  }

  /** With `sat = 1` and `ctr = 1` the buffer is left as it was. */
  lemma {:induction false} AdjustDataIdentity(s: seq<Byte>)
    ensures AdjustData(s, 1.0, 1.0) == s
  {
    if |s| >= 4 {
      AdjustDataIdentity(s[4..]);
      AdjustChunkIdentity(s[..4]);
      assert s == s[..4] + s[4..];
    }
  }

  /** Pixel `p` of the pre-filtered buffer is the pre-filter of pixel `p`'s four bytes. */
  lemma {:induction false} AdjustDataChunk(s: seq<Byte>, p: nat, sat: real, ctr: real)
    requires 4 * p + 4 <= |s|
    ensures AdjustData(s, sat, ctr)[4 * p..4 * p + 4] == AdjustChunk(s[4 * p..4 * p + 4], sat, ctr)
  {
    if p > 0 {
      AdjustDataChunk(s[4..], p - 1, sat, ctr);
      assert s[4..][4 * (p - 1)..4 * (p - 1) + 4] == s[4 * p..4 * p + 4];
    }
  }

  /** One step of `applySaturationContrast`: the pixel at byte offset `i`, rewritten in place. */
  method AdjustPixelAt(data: array<Byte>, i: nat, sat: real, ctr: real)
    requires i + 4 <= data.Length
    modifies data
    ensures var q := AdjustPixel(Rgb(old(data[i]), old(data[i + 1]), old(data[i + 2])), sat, ctr);
            data[..] == old(data[..])[i := q.r][i + 1 := q.g][i + 2 := q.b]
  {
    var r := Contrast(data[i] as real, ctr);
    var g := Contrast(data[i + 1] as real, ctr);
    var b := Contrast(data[i + 2] as real, ctr);
    var y := Luma(r, g, b);
    r := Saturate(r, y, sat);
    g := Saturate(g, y, sat);
    b := Saturate(b, y, sat);
    data[i] := Store(r);
    data[i + 1] := Store(g);
    data[i + 2] := Store(b);
  }

  /** The four bytes of pixel `p`. */
  function Chunk(s: seq<Byte>, p: nat): (c: seq<Byte>)
    requires 4 * p + 4 <= |s|
    ensures |c| == 4
  {
    s[4 * p..4 * p + 4]
  }

  /** `t` holds, pixel by pixel, the pre-filtered bytes of `s`. */
  ghost predicate Targets(t: seq<Byte>, s: seq<Byte>, sat: real, ctr: real)
  {
    |t| == |s| && forall p: nat :: 4 * p + 4 <= |s| ==> Chunk(t, p) == AdjustChunk(Chunk(s, p), sat, ctr)
  }

  /** The pre-filtered buffer is such a target. */
  lemma AdjustDataTargets(s: seq<Byte>, sat: real, ctr: real)
    ensures Targets(AdjustData(s, sat, ctr), s, sat, ctr)
  {
    forall p: nat | 4 * p + 4 <= |s|
      ensures Chunk(AdjustData(s, sat, ctr), p) == AdjustChunk(Chunk(s, p), sat, ctr)
    {
      AdjustDataChunk(s, p, sat, ctr);
    }
  }

  /** The loop body at byte `i`, pixel `p`: one more pixel of the buffer holds its target bytes. */
  method AdjustStep(data: array<Byte>, i: nat, ghost s: seq<Byte>, ghost t: seq<Byte>, ghost p: nat, sat: real, ctr: real)
    requires i == 4 * p && i + 4 <= data.Length == |s| && Targets(t, s, sat, ctr)
    requires data[..] == t[..i] + s[i..]
    modifies data
    ensures data[..] == t[..i + 4] + s[i + 4..]
  {
    assert data[i..i + 4] == Chunk(s, p);
    AdjustPixelAt(data, i, sat, ctr);
    assert Chunk(t, p) == AdjustChunk(Chunk(s, p), sat, ctr);
    assert t[..i + 4] == t[..i] + Chunk(t, p);
  }

  /** The loop of `applySaturationContrast`: each pixel in turn is rewritten in place to its target bytes. */
  method AdjustPixels(data: array<Byte>, ghost t: seq<Byte>, sat: real, ctr: real)
    requires data.Length % 4 == 0 && Targets(t, data[..], sat, ctr)
    modifies data
    ensures data[..] == t
  {
    ghost var s := data[..];
    ghost var pixels := data.Length / 4;
    assert data.Length == 4 * pixels;
    var i := 0;
    ghost var p := 0;
    while i < data.Length
      invariant p <= pixels && i == 4 * p
      invariant data[..] == t[..i] + s[i..]
    {
      AdjustStep(data, i, s, t, p, sat, ctr);
      i := i + 4;
      p := p + 1;
    }
    assert t[..data.Length] == t;
    assert s[data.Length..] == [];
  }

  /** `applySaturationContrast(data)`: rewrites the buffer in place, one pixel per step. */
  method ApplySaturationContrast(data: array<Byte>, sat: real, ctr: real)
    requires data.Length % 4 == 0
    modifies data
    ensures data[..] == AdjustData(old(data[..]), sat, ctr)
  {
    AdjustDataTargets(data[..], sat, ctr);
    AdjustPixels(data, AdjustData(data[..], sat, ctr), sat, ctr);
  }
}
