/**
 * What the quantizer writes into the RGBA buffer: each pixel's palette
 * colour followed by alpha 255, and the alpha-forcing loop of
 * `downloadPNG`.
 */
module Output {
  import opened Pixels
  import opened Palette

  /** The four bytes written for a pixel quantized to `q`. */
  function PixelBytes(q: Rgb): seq<Byte>
  {
    [q.r, q.g, q.b, 255]
  }

  /** The RGBA buffer whose pixels, in raster order, are the colours `cs`. */
  function Render(cs: seq<Rgb>): (s: seq<Byte>)
    ensures |s| == 4 * |cs|
  {
    if |cs| == 0 then [] else PixelBytes(cs[0]) + Render(cs[1..])
  }

  /** Rendering one more pixel appends its four bytes. */
  lemma {:induction false} RenderSnoc(cs: seq<Rgb>, c: Rgb)
    ensures Render(cs + [c]) == Render(cs) + PixelBytes(c)
  {
    if |cs| > 0 {
      assert (cs + [c])[1..] == cs[1..] + [c];
      RenderSnoc(cs[1..], c);
    } else {
      assert cs + [c] == [c];
    }
  }

  /** Pixel `p` of the rendered buffer has colour `cs[p]` and alpha 255. */
  lemma {:induction false} RenderAt(cs: seq<Rgb>, p: nat)
    requires p < |cs|
    ensures PixelAt(Render(cs), p) == cs[p]
    ensures Render(cs)[4 * p + 3] == 255
  {
    var s := Render(cs);
    if p > 0 {
      RenderAt(cs[1..], p - 1);
      assert s[4 * p..4 * p + 4] == Render(cs[1..])[4 * (p - 1)..4 * (p - 1) + 4];
    }
  }

  /** A lookup whose every answer is a colour of `pal`. */
  ghost predicate LandsIn(near: Color -> Rgb, pal: seq<Rgb>)
  {
    forall c :: near(c) in pal
  }

  /** Every colour of `cs` is one of `pal`. */
  predicate AllIn(cs: seq<Rgb>, pal: seq<Rgb>)
  {
    forall i :: 0 <= i < |cs| ==> cs[i] in pal
  }

  /** One more colour of `pal` keeps a sequence inside `pal`. */
  lemma AllInSnoc(cs: seq<Rgb>, q: Rgb, pal: seq<Rgb>)
    requires AllIn(cs, pal) && q in pal
    ensures AllIn(cs + [q], pal)
  {
    assert forall i :: 0 <= i < |cs| ==> (cs + [q])[i] == cs[i];
  }

  /** Every pixel of `s` is a colour of `pal` and alpha is 255 throughout. */
  ghost predicate Over(s: seq<Byte>, pal: seq<Rgb>)
  {
    forall p: nat :: 4 * p + 3 < |s| ==> PixelAt(s, p) in pal && s[4 * p + 3] == 255
  }

  /** A palette lookup: every colour it returns is a palette colour. */
  ghost predicate IntoPalette(near: Color -> Rgb)
  {
    LandsIn(near, PAL_RGB)
  }

  /** Every pixel is a palette colour and alpha is 255 throughout. */
  ghost predicate OverPalette(s: seq<Byte>)
  {
    Over(s, PAL_RGB)
  }

  /** Rendering colours of `pal` gives a buffer over `pal`. */
  lemma RenderOver(cs: seq<Rgb>, pal: seq<Rgb>)
    requires AllIn(cs, pal)
    ensures Over(Render(cs), pal)
  {
    forall p: nat | 4 * p + 3 < |Render(cs)|
      ensures PixelAt(Render(cs), p) in pal && Render(cs)[4 * p + 3] == 255
    {
      RenderAt(cs, p);
    }
  }


  /** `data[i]=nr; data[i+1]=ng; data[i+2]=nb; data[i+3]=255`. */
  method WritePixel(data: array<Byte>, i: nat, q: Rgb)
    requires i + 4 <= data.Length
    modifies data
    ensures data[..] == old(data[..i]) + PixelBytes(q) + old(data[i + 4..])
  {
    data[i] := q.r;
    data[i + 1] := q.g;
    data[i + 2] := q.b;
    data[i + 3] := 255;
  }

  /**
   * The step of every quantizing loop: with the first `p` pixels rendered
   * and the rest as in `s`, writing pixel `p` renders one more.
   */
  lemma RenderStep(cs: seq<Rgb>, q: Rgb, s: seq<Byte>, p: nat)
    requires |cs| == p && 4 * p + 4 <= |s|
    ensures (Render(cs) + s[4 * p..])[..4 * p] + PixelBytes(q) + (Render(cs) + s[4 * p..])[4 * p + 4..] ==
              Render(cs + [q]) + s[4 * (p + 1)..]
  {
    var b := Render(cs) + s[4 * p..];
    assert b[..4 * p] == Render(cs);
    assert b[4 * p + 4..] == s[4 * (p + 1)..];
    RenderSnoc(cs, q);
  }

  /**
   * The buffer after `downloadPNG`'s loop: byte `i + 3` set to 255 for every
   * `i` that is a multiple of four. A write past the end of a typed array is
   * dropped, so a trailing part shorter than four bytes stays as it was.
   */
  function ForceAlpha(s: seq<Byte>): (t: seq<Byte>)
    ensures |t| == |s|
  {
    if |s| < 4 then s else s[..3] + [255] + ForceAlpha(s[4..])
  }

  /** Byte by byte: every fourth byte becomes 255 and every other byte is kept. */
  lemma {:induction false} ForceAlphaAt(s: seq<Byte>, p: nat)
    requires 4 * p + 3 < |s|
    ensures ForceAlpha(s)[4 * p + 3] == 255
    ensures PixelAt(ForceAlpha(s), p) == PixelAt(s, p)
  {
    if p > 0 {
      ForceAlphaAt(s[4..], p - 1);
      var t := ForceAlpha(s);
      assert t[4 * p..4 * p + 4] == ForceAlpha(s[4..])[4 * (p - 1)..4 * (p - 1) + 4];
    }
  }

  /** The alpha pass splits at any multiple of four. */
  lemma {:induction false} ForceAlphaAppend(a: seq<Byte>, b: seq<Byte>, p: nat)
    requires |a| == 4 * p
    ensures ForceAlpha(a + b) == ForceAlpha(a) + ForceAlpha(b)
  {
    if p > 0 {
      assert (a + b)[..3] == a[..3];
      assert (a + b)[4..] == a[4..] + b;
      ForceAlphaAppend(a[4..], b, p - 1);
    } else {
      assert a + b == b;
    }
  }

  /** A buffer that is already opaque, such as any rendered buffer, is left as it is. */
  lemma {:induction false} ForceAlphaOfRender(cs: seq<Rgb>)
    ensures ForceAlpha(Render(cs)) == Render(cs)
  {
    if |cs| > 0 {
      var s := Render(cs);
      assert s[4..] == Render(cs[1..]);
      ForceAlphaOfRender(cs[1..]);
    }
  }

  /** Setting byte 3 of a chunk in the middle of a buffer. */
  lemma SetAlphaInChunk(b: seq<Byte>, front: seq<Byte>, chunk: seq<Byte>, back: seq<Byte>)
    requires |chunk| == 4 && b == front + chunk + back
    ensures b[|front| + 3 := 255] == front + (chunk[..3] + [255]) + back
  {
  }

  /**
   * `d[i+3]=255` on a typed array: a store at an index past the end is
   * dropped.
   */
  method StoreAlpha(d: array<Byte>, i: nat)
    modifies d
    ensures i + 3 < d.Length ==> d[..] == old(d[..])[i + 3 := 255]
    ensures i + 3 >= d.Length ==> d[..] == old(d[..])
  {
    if i + 3 < d.Length {
      d[i + 3] := 255;
    }
  }

  /** The loop `for(i=0;i<d.length;i+=4){ d[i+3]=255; }` of `downloadPNG`. */
  method ForceOpaque(d: array<Byte>)
    modifies d
    ensures d[..] == ForceAlpha(old(d[..]))
  {
    ghost var s := d[..];
    var i := 0;
    ghost var p := 0;
    while i < d.Length
      invariant i == 4 * p && |s| == d.Length
      invariant i <= |s| ==> d[..] == ForceAlpha(s[..i]) + s[i..]
      invariant i > |s| ==> d[..] == ForceAlpha(s)
    {
      ghost var pre := d[..];
      StoreAlpha(d, i);
      if i + 3 < |s| {
        AlphaStep(s, pre, i, p);
      } else {
        AlphaTail(s, pre, i, p);
      }
      i := i + 4;
      p := p + 1;
    }
    if i == |s| {
      assert s[..i] == s;
    }
  }

  /** One full chunk of the loop. */
  lemma AlphaStep(s: seq<Byte>, pre: seq<Byte>, i: nat, p: nat)
    requires i == 4 * p && i + 3 < |s| && pre == ForceAlpha(s[..i]) + s[i..]
    ensures pre[i + 3 := 255] == ForceAlpha(s[..i + 4]) + s[i + 4..]
  {
    var chunk := s[i..i + 4];
    assert s[i..] == chunk + s[i + 4..];
    SetAlphaInChunk(pre, ForceAlpha(s[..i]), chunk, s[i + 4..]);
    assert ForceAlpha(chunk) == chunk[..3] + [255];
    ForceAlphaAppend(s[..i], chunk, p);
    assert s[..i] + chunk == s[..i + 4];
  }

  /** The last, short chunk of the loop, which no store reaches. */
  lemma AlphaTail(s: seq<Byte>, pre: seq<Byte>, i: nat, p: nat)
    requires i == 4 * p && i < |s| <= i + 3 && pre == ForceAlpha(s[..i]) + s[i..]
    ensures pre == ForceAlpha(s)
  {
    assert ForceAlpha(s[i..]) == s[i..];
    ForceAlphaAppend(s[..i], s[i..], p);
    assert s[..i] + s[i..] == s;
  }
}
