/**
 * `nearestPaletteColor`: a linear scan over the palette that keeps the first
 * entry at the smallest distance seen so far, starting from an infinite
 * bound, under either the squared RGB distance or the squared Lab distance.
 */
module PaletteSearch {
  import opened Pixels
  import opened Palette

  /**
   * `deltaE2(rgbToLab(c), PAL_LAB[i])`: the squared Lab distance between a
   * query and palette entry `i`. The Lab conversion is floating-point code
   * that is not part of this model, so every member that can take the Lab
   * branch receives this distance as a parameter.
   */
  type LabDistance = (Color, nat) -> real

  /** The metric selector value that picks the RGB branch; every other value picks Lab. */
  const RGB_METRIC: string := "RGB"

  /** Squared Euclidean distance in RGB space: `dr*dr + dg*dg + db*db`. */
  function SqDistance(c: Color, p: Rgb): (d: real)
    ensures c == ToColor(p) ==> d == 0.0
    ensures c != ToColor(p) ==> d > 0.0
  {
    var dr := c.r - p.r as real;
    var dg := c.g - p.g as real;
    var db := c.b - p.b as real;
    SqPositive(dr);
    SqPositive(dg);
    SqPositive(db);
    Sq(dr) + Sq(dg) + Sq(db)
  }

  function Product(a: real, b: real): real
  {
    a * b
  }

  lemma ProductPositive(a: real, b: real)
    requires a > 0.0 && b > 0.0
    ensures Product(a, b) > 0.0
  {
  }

  function Sq(x: real): real
  {
    Product(x, x)
  }

  /** A square is never negative, and positive at every non-zero value. */
  lemma SqPositive(x: real)
    ensures Sq(x) >= 0.0
    ensures x != 0.0 ==> Sq(x) > 0.0
  {
    if x > 0.0 {
      ProductPositive(x, x);
    } else if x < 0.0 {
      ProductPositive(-x, -x);
      assert Product(-x, -x) == Product(x, x);
    } else {
      assert Product(x, x) == 0.0;
    }
  }

  /**
   * The distance from the query to palette entry `i`: squared RGB distance
   * when the metric is `"RGB"`, and the Lab distance for any other metric.
   */
  function Distance(c: Color, metric: string, lab: LabDistance, i: nat): real
    requires i < |PAL_RGB|
  {
    if metric == RGB_METRIC then SqDistance(c, PAL_RGB[i]) else lab(c, i)
  }

  /** The distance from the query to each palette entry, in palette order. */
  function Distances(c: Color, metric: string, lab: LabDistance): (d: seq<real>)
    ensures |d| == |PAL_RGB|
  {
    seq(|PAL_RGB|, i requires 0 <= i < |PAL_RGB| => Distance(c, metric, lab, i))
  }

  /** `k` is the first index at which `d` takes its minimum. */
  ghost predicate IsFirstMin(d: seq<real>, k: nat)
  {
    && k < |d|
    && (forall j :: 0 <= j < |d| ==> d[k] <= d[j])
    && (forall j :: 0 <= j < k ==> d[k] < d[j])
  }

  /**
   * The index a left-to-right scan with a strict `<` keeps: a later entry
   * replaces the current best only when it is strictly nearer.
   */
  function FirstArgMin(d: seq<real>): (k: nat)
    requires |d| > 0
    ensures k < |d|
  {
    if |d| == 1 then 0
    else
      var k := FirstArgMin(d[..|d| - 1]);
      if d[|d| - 1] < d[k] then |d| - 1 else k
  }

  /** The scan finds the first minimum, and the first minimum is what the scan finds. */
  lemma {:induction false} FirstArgMinIsFirstMin(d: seq<real>, k: nat)
    requires |d| > 0
    ensures IsFirstMin(d, k) <==> k == FirstArgMin(d)
  {
    FirstArgMinSound(d);
    var m := FirstArgMin(d);
    if IsFirstMin(d, k) {
      assert d[k] <= d[m] && d[m] <= d[k];
    }
  }

  /** One step of the scan: extending the prefix by entry `i`. */
  lemma FirstArgMinStep(d: seq<real>, i: nat)
    requires 0 < i < |d|
    ensures FirstArgMin(d[..i + 1]) ==
              (if d[i] < d[FirstArgMin(d[..i])] then i else FirstArgMin(d[..i]))
  {
    assert d[..i + 1][..i] == d[..i];
  }

  lemma {:induction false} FirstArgMinSound(d: seq<real>)
    requires |d| > 0
    ensures IsFirstMin(d, FirstArgMin(d))
  {
    if |d| > 1 {
      var p := d[..|d| - 1];
      FirstArgMinSound(p);
      var k := FirstArgMin(p);
      assert forall j :: 0 <= j < |p| ==> p[j] == d[j];
    }
  }

  /** The index `nearestPaletteColor` settles on. */
  function NearestIndex(c: Color, metric: string, lab: LabDistance): (k: nat)
    ensures k < |PAL_RGB|
  {
    PaletteSize();
    FirstArgMin(Distances(c, metric, lab))
  }

  /** The colour `nearestPaletteColor` returns: always `PAL_RGB[best]`. */
  function Nearest(c: Color, metric: string, lab: LabDistance): (p: Rgb)
    ensures p in PAL_RGB
  {
    PAL_RGB[NearestIndex(c, metric, lab)]
  }

  /**
   * Tie-breaking: the returned entry is at minimal distance and every
   * earlier entry is strictly farther, under either metric.
   */
  lemma NearestIsFirstMinimum(c: Color, metric: string, lab: LabDistance)
    ensures IsFirstMin(Distances(c, metric, lab), NearestIndex(c, metric, lab))
  {
    PaletteFacts();
    FirstArgMinSound(Distances(c, metric, lab));
  }

  /** Under "RGB": the returned colour is nearest, and the first of the nearest. */
  lemma NearestRgb(c: Color, lab: LabDistance, j: nat)
    requires j < |PAL_RGB|
    ensures SqDistance(c, Nearest(c, RGB_METRIC, lab)) <= SqDistance(c, PAL_RGB[j])
    ensures j < NearestIndex(c, RGB_METRIC, lab) ==>
              SqDistance(c, Nearest(c, RGB_METRIC, lab)) < SqDistance(c, PAL_RGB[j])
  {
    NearestIsFirstMinimum(c, RGB_METRIC, lab);
    var d := Distances(c, RGB_METRIC, lab);
    var k := NearestIndex(c, RGB_METRIC, lab);
    assert d[j] == SqDistance(c, PAL_RGB[j]);
    assert d[k] == SqDistance(c, PAL_RGB[k]);
  }

  /** The Lab distance plays no part in the RGB branch. */
  lemma RgbIgnoresLab(c: Color, lab1: LabDistance, lab2: LabDistance)
    ensures Nearest(c, RGB_METRIC, lab1) == Nearest(c, RGB_METRIC, lab2)
  {
    var d1, d2 := Distances(c, RGB_METRIC, lab1), Distances(c, RGB_METRIC, lab2);
    forall i | 0 <= i < |PAL_RGB| ensures d1[i] == d2[i] {
    }
    assert d1 == d2;
  }

  /**
   * An RGB query that is itself palette entry `i` is answered with entry
   * `i` (distance zero, and every other entry differs from it).
   */
  lemma NearestOfPaletteEntry(i: nat, lab: LabDistance)
    requires i < |PAL_RGB|
    ensures NearestIndex(ToColor(PAL_RGB[i]), RGB_METRIC, lab) == i
    ensures Nearest(ToColor(PAL_RGB[i]), RGB_METRIC, lab) == PAL_RGB[i]
  {
    PaletteFacts();
    var c := ToColor(PAL_RGB[i]);
    var d := Distances(c, RGB_METRIC, lab);
    forall j | 0 <= j < |d| && j != i ensures d[j] > 0.0 {
      assert PAL_RGB[j] != PAL_RGB[i];
      assert c != ToColor(PAL_RGB[j]);
    }
    assert IsFirstMin(d, i);
    FirstArgMinIsFirstMin(d, i);
  }

  /**
   * The same for the Lab branch, for a distance that is zero exactly at the
   * query's own entry and positive at every other one.
   */
  lemma NearestOfPaletteEntryLab(i: nat, metric: string, lab: LabDistance)
    requires i < |PAL_RGB| && metric != RGB_METRIC
    requires forall j :: 0 <= j < |PAL_RGB| && j != i ==> lab(ToColor(PAL_RGB[i]), j) > 0.0
    requires lab(ToColor(PAL_RGB[i]), i) == 0.0
    ensures Nearest(ToColor(PAL_RGB[i]), metric, lab) == PAL_RGB[i]
  {
    PaletteFacts();
    var d := Distances(ToColor(PAL_RGB[i]), metric, lab);
    assert IsFirstMin(d, i);
    FirstArgMinIsFirstMin(d, i);
  }

  /** The sentinel of the scan: no candidate yet (`Infinity`), or the best distance so far. */
  datatype Bound = Infinity | Finite(value: real)

  /** `d < bestD`: every finite distance is below `Infinity`. */
  predicate Below(d: real, bound: Bound)
  {
    bound.Infinity? || d < bound.value
  }

  /** `nearestPaletteColor(color, metric)`. */
  method NearestPaletteColor(color: Color, metric: string, lab: LabDistance) returns (p: Rgb)
    ensures p == Nearest(color, metric, lab)
  {
    PaletteSize();
    ghost var dists := Distances(color, metric, lab);
    var best: nat := 0;
    var bestD := Infinity;
    if metric == RGB_METRIC {
      for i := 0 to |PAL_RGB|
        invariant i == 0 ==> best == 0 && bestD == Infinity
        invariant i > 0 ==> best == FirstArgMin(dists[..i]) && bestD == Finite(dists[best])
      {
        var d := SqDistance(color, PAL_RGB[i]);
        assert d == dists[i];
        if i > 0 { FirstArgMinStep(dists, i); }
        if Below(d, bestD) {
          bestD := Finite(d);
          best := i;
        }
      }
      assert dists[..|PAL_RGB|] == dists;
      return PAL_RGB[best];
    } else {
      for i := 0 to |PAL_RGB|
        invariant i == 0 ==> best == 0 && bestD == Infinity
        invariant i > 0 ==> best == FirstArgMin(dists[..i]) && bestD == Finite(dists[best])
      {
        var d := lab(color, i);
        assert d == dists[i];
        if i > 0 { FirstArgMinStep(dists, i); }
        if Below(d, bestD) {
          bestD := Finite(d);
          best := i;
        }
      }
      assert dists[..|PAL_RGB|] == dists;
      return PAL_RGB[best];
    }
  }
}
