/**
 * The ordered-dither threshold matrices `BAYER_8` and `BAYER_4`: integer
 * levels, and their normalised values `level / 64` and `level / 16`.
 */
module Matrices {

  /** The integer levels of `BAYER_8`, row `y` first (`BAYER_8[y][x]`). */
  const BAYER_8_LEVELS: seq<seq<nat>> := [
    [0, 48, 12, 60, 3, 51, 15, 63],
    [32, 16, 44, 28, 35, 19, 47, 31],
    [8, 56, 4, 52, 11, 59, 7, 55],
    [40, 24, 36, 20, 43, 27, 39, 23],
    [2, 50, 14, 62, 1, 49, 13, 61],
    [34, 18, 46, 30, 33, 17, 45, 29],
    [10, 58, 6, 54, 9, 57, 5, 53],
    [42, 26, 38, 22, 41, 25, 37, 21]
  ]

  /** The integer levels of `BAYER_4`. */
  const BAYER_4_LEVELS: seq<seq<nat>> := [
    [0, 8, 2, 10],
    [12, 4, 14, 6],
    [3, 11, 1, 9],
    [15, 7, 13, 5]
  ]

  /** A square table of `n` rows of `n` entries. */
  ghost predicate IsSquare<T>(m: seq<seq<T>>, n: nat)
  {
    |m| == n && forall y :: 0 <= y < n ==> |m[y]| == n
  }

  /** `m.map(r => r.map(v => v / d))`. */
  function Normalize(m: seq<seq<nat>>, d: nat): (t: seq<seq<real>>)
    requires d > 0
    ensures |t| == |m|
    ensures forall y :: 0 <= y < |m| ==> |t[y]| == |m[y]|
    ensures forall y, x :: 0 <= y < |m| && 0 <= x < |m[y]| ==> t[y][x] * d as real == m[y][x] as real
  {
    seq(|m|, y requires 0 <= y < |m| =>
      seq(|m[y]|, x requires 0 <= x < |m[y]| => m[y][x] as real / d as real))
  }

  /** `BAYER_8` as the source holds it, values `v / 64`. */
  const BAYER_8: seq<seq<real>> := Normalize(BAYER_8_LEVELS, 64)

  /** `BAYER_4`, values `v / 16`. */
  const BAYER_4: seq<seq<real>> := Normalize(BAYER_4_LEVELS, 16)

  /**
   * Every level in `0..n*n-1` occurs in the table, at exactly one cell,
   * and no cell holds anything else: the table is a permutation of
   * `0..n*n-1`.
   */
  ghost predicate IsLevelPermutation(m: seq<seq<nat>>, n: nat)
  {
    && IsSquare(m, n)
    && (forall y, x :: 0 <= y < n && 0 <= x < n ==> m[y][x] < n * n)
    && (forall y1, x1, y2, x2 ::
          (0 <= y1 < n && 0 <= x1 < n && 0 <= y2 < n && 0 <= x2 < n && m[y1][x1] == m[y2][x2]) ==>
          y1 == y2 && x1 == x2)
    && (forall v :: 0 <= v < n * n ==> Occurs(m, n, v))
  }

  /** Level `v` sits at some cell of the `n` by `n` table `m`. */
  ghost predicate Occurs(m: seq<seq<nat>>, n: nat, v: nat)
    requires IsSquare(m, n)
  {
    exists y, x :: 0 <= y < n && 0 <= x < n && m[y][x] == v
  }

  /** `v / q` for `v < 4 * q`, found by comparisons. */
  function Quarter(v: nat, q: nat): (d: nat)
    requires v < 4 * q
    ensures d < 4 && d * q <= v < d * q + q
  {
    if v >= 3 * q then 3 else if v >= 2 * q then 2 else if v >= q then 1 else 0
  }

  /** Bit 0 of a base-4 digit. */
  function LowBit(d: nat): nat
  {
    if d == 1 || d == 3 then 1 else 0
  }

  /** Bit 1 xor bit 0 of a base-4 digit. */
  function XorBit(d: nat): nat
  {
    if d == 1 || d == 2 then 1 else 0
  }

  /**
   * The cell `(y, x)` of `BAYER_8_LEVELS` that holds level `v`. Base-4
   * digit `k` of a level, most significant first, is `2 * (xk xor yk) + xk`
   * for bit `k` of the column `x` and of the row `y`.
   */
  function Cell8(v: nat): (c: (nat, nat))
    requires v < 64
    ensures c.0 < 8 && c.1 < 8
  {
    var d2 := Quarter(v, 16);
    var d1 := Quarter(v - 16 * d2, 4);
    var d0 := v - 16 * d2 - 4 * d1;
    (XorBit(d2) + 2 * XorBit(d1) + 4 * XorBit(d0), LowBit(d2) + 2 * LowBit(d1) + 4 * LowBit(d0))
  }

  /** The cell of `BAYER_4_LEVELS` that holds level `v`; there a digit is `2 * (xk xor yk) + yk`. */
  function Cell4(v: nat): (c: (nat, nat))
    requires v < 16
    ensures c.0 < 4 && c.1 < 4
  {
    var d1 := Quarter(v, 4);
    var d0 := v - 4 * d1;
    (LowBit(d1) + 2 * LowBit(d0), XorBit(d1) + 2 * XorBit(d0))
  }

  // The cell-by-cell checks behind the permutation lemmas, a few rows or levels at a time.

  lemma Bayer8Row0()
    ensures |BAYER_8_LEVELS[0]| == 8
    ensures forall x :: 0 <= x < 8 ==> BAYER_8_LEVELS[0][x] < 64 && Cell8(BAYER_8_LEVELS[0][x]) == (0, x)
  {
    forall x | 0 <= x < 8 ensures BAYER_8_LEVELS[0][x] < 64 && Cell8(BAYER_8_LEVELS[0][x]) == (0, x) {
      assert x in [0, 1, 2, 3, 4, 5, 6, 7];
    }
  }

  lemma Bayer8Row1()
    ensures |BAYER_8_LEVELS[1]| == 8
    ensures forall x :: 0 <= x < 8 ==> BAYER_8_LEVELS[1][x] < 64 && Cell8(BAYER_8_LEVELS[1][x]) == (1, x)
  {
    forall x | 0 <= x < 8 ensures BAYER_8_LEVELS[1][x] < 64 && Cell8(BAYER_8_LEVELS[1][x]) == (1, x) {
      assert x in [0, 1, 2, 3, 4, 5, 6, 7];
    }
  }

  lemma Bayer8Row2()
    ensures |BAYER_8_LEVELS[2]| == 8
    ensures forall x :: 0 <= x < 8 ==> BAYER_8_LEVELS[2][x] < 64 && Cell8(BAYER_8_LEVELS[2][x]) == (2, x)
  {
    forall x | 0 <= x < 8 ensures BAYER_8_LEVELS[2][x] < 64 && Cell8(BAYER_8_LEVELS[2][x]) == (2, x) {
      assert x in [0, 1, 2, 3, 4, 5, 6, 7];
    }
  }

  lemma Bayer8Row3()
    ensures |BAYER_8_LEVELS[3]| == 8
    ensures forall x :: 0 <= x < 8 ==> BAYER_8_LEVELS[3][x] < 64 && Cell8(BAYER_8_LEVELS[3][x]) == (3, x)
  {
    forall x | 0 <= x < 8 ensures BAYER_8_LEVELS[3][x] < 64 && Cell8(BAYER_8_LEVELS[3][x]) == (3, x) {
      assert x in [0, 1, 2, 3, 4, 5, 6, 7];
    }
  }

  lemma Bayer8Row4()
    ensures |BAYER_8_LEVELS[4]| == 8
    ensures forall x :: 0 <= x < 8 ==> BAYER_8_LEVELS[4][x] < 64 && Cell8(BAYER_8_LEVELS[4][x]) == (4, x)
  {
    forall x | 0 <= x < 8 ensures BAYER_8_LEVELS[4][x] < 64 && Cell8(BAYER_8_LEVELS[4][x]) == (4, x) {
      assert x in [0, 1, 2, 3, 4, 5, 6, 7];
    }
  }

  lemma Bayer8Row5()
    ensures |BAYER_8_LEVELS[5]| == 8
    ensures forall x :: 0 <= x < 8 ==> BAYER_8_LEVELS[5][x] < 64 && Cell8(BAYER_8_LEVELS[5][x]) == (5, x)
  {
    forall x | 0 <= x < 8 ensures BAYER_8_LEVELS[5][x] < 64 && Cell8(BAYER_8_LEVELS[5][x]) == (5, x) {
      assert x in [0, 1, 2, 3, 4, 5, 6, 7];
    }
  }

  lemma Bayer8Row6()
    ensures |BAYER_8_LEVELS[6]| == 8
    ensures forall x :: 0 <= x < 8 ==> BAYER_8_LEVELS[6][x] < 64 && Cell8(BAYER_8_LEVELS[6][x]) == (6, x)
  {
    forall x | 0 <= x < 8 ensures BAYER_8_LEVELS[6][x] < 64 && Cell8(BAYER_8_LEVELS[6][x]) == (6, x) {
      assert x in [0, 1, 2, 3, 4, 5, 6, 7];
    }
  }

  lemma Bayer8Row7()
    ensures |BAYER_8_LEVELS[7]| == 8
    ensures forall x :: 0 <= x < 8 ==> BAYER_8_LEVELS[7][x] < 64 && Cell8(BAYER_8_LEVELS[7][x]) == (7, x)
  {
    forall x | 0 <= x < 8 ensures BAYER_8_LEVELS[7][x] < 64 && Cell8(BAYER_8_LEVELS[7][x]) == (7, x) {
      assert x in [0, 1, 2, 3, 4, 5, 6, 7];
    }
  }

  lemma Bayer8LevelsFrom0(v: nat)
    requires v < 8
    ensures Occurs(BAYER_8_LEVELS, 8, v)
  {
    if v == 0 { assert BAYER_8_LEVELS[0][0] == 0; }
    else if v == 1 { assert BAYER_8_LEVELS[4][4] == 1; }
    else if v == 2 { assert BAYER_8_LEVELS[4][0] == 2; }
    else if v == 3 { assert BAYER_8_LEVELS[0][4] == 3; }
    else if v == 4 { assert BAYER_8_LEVELS[2][2] == 4; }
    else if v == 5 { assert BAYER_8_LEVELS[6][6] == 5; }
    else if v == 6 { assert BAYER_8_LEVELS[6][2] == 6; }
    else { assert BAYER_8_LEVELS[2][6] == 7; }
  }

  lemma Bayer8LevelsFrom8(v: nat)
    requires 8 <= v < 16
    ensures Occurs(BAYER_8_LEVELS, 8, v)
  {
    if v == 8 { assert BAYER_8_LEVELS[2][0] == 8; }
    else if v == 9 { assert BAYER_8_LEVELS[6][4] == 9; }
    else if v == 10 { assert BAYER_8_LEVELS[6][0] == 10; }
    else if v == 11 { assert BAYER_8_LEVELS[2][4] == 11; }
    else if v == 12 { assert BAYER_8_LEVELS[0][2] == 12; }
    else if v == 13 { assert BAYER_8_LEVELS[4][6] == 13; }
    else if v == 14 { assert BAYER_8_LEVELS[4][2] == 14; }
    else { assert BAYER_8_LEVELS[0][6] == 15; }
  }

  lemma Bayer8LevelsFrom16(v: nat)
    requires 16 <= v < 24
    ensures Occurs(BAYER_8_LEVELS, 8, v)
  {
    if v == 16 { assert BAYER_8_LEVELS[1][1] == 16; }
    else if v == 17 { assert BAYER_8_LEVELS[5][5] == 17; }
    else if v == 18 { assert BAYER_8_LEVELS[5][1] == 18; }
    else if v == 19 { assert BAYER_8_LEVELS[1][5] == 19; }
    else if v == 20 { assert BAYER_8_LEVELS[3][3] == 20; }
    else if v == 21 { assert BAYER_8_LEVELS[7][7] == 21; }
    else if v == 22 { assert BAYER_8_LEVELS[7][3] == 22; }
    else { assert BAYER_8_LEVELS[3][7] == 23; }
  }

  lemma Bayer8LevelsFrom24(v: nat)
    requires 24 <= v < 32
    ensures Occurs(BAYER_8_LEVELS, 8, v)
  {
    if v == 24 { assert BAYER_8_LEVELS[3][1] == 24; }
    else if v == 25 { assert BAYER_8_LEVELS[7][5] == 25; }
    else if v == 26 { assert BAYER_8_LEVELS[7][1] == 26; }
    else if v == 27 { assert BAYER_8_LEVELS[3][5] == 27; }
    else if v == 28 { assert BAYER_8_LEVELS[1][3] == 28; }
    else if v == 29 { assert BAYER_8_LEVELS[5][7] == 29; }
    else if v == 30 { assert BAYER_8_LEVELS[5][3] == 30; }
    else { assert BAYER_8_LEVELS[1][7] == 31; }
  }

  lemma Bayer8LevelsFrom32(v: nat)
    requires 32 <= v < 40
    ensures Occurs(BAYER_8_LEVELS, 8, v)
  {
    if v == 32 { assert BAYER_8_LEVELS[1][0] == 32; }
    else if v == 33 { assert BAYER_8_LEVELS[5][4] == 33; }
    else if v == 34 { assert BAYER_8_LEVELS[5][0] == 34; }
    else if v == 35 { assert BAYER_8_LEVELS[1][4] == 35; }
    else if v == 36 { assert BAYER_8_LEVELS[3][2] == 36; }
    else if v == 37 { assert BAYER_8_LEVELS[7][6] == 37; }
    else if v == 38 { assert BAYER_8_LEVELS[7][2] == 38; }
    else { assert BAYER_8_LEVELS[3][6] == 39; }
  }

  lemma Bayer8LevelsFrom40(v: nat)
    requires 40 <= v < 48
    ensures Occurs(BAYER_8_LEVELS, 8, v)
  {
    if v == 40 { assert BAYER_8_LEVELS[3][0] == 40; }
    else if v == 41 { assert BAYER_8_LEVELS[7][4] == 41; }
    else if v == 42 { assert BAYER_8_LEVELS[7][0] == 42; }
    else if v == 43 { assert BAYER_8_LEVELS[3][4] == 43; }
    else if v == 44 { assert BAYER_8_LEVELS[1][2] == 44; }
    else if v == 45 { assert BAYER_8_LEVELS[5][6] == 45; }
    else if v == 46 { assert BAYER_8_LEVELS[5][2] == 46; }
    else { assert BAYER_8_LEVELS[1][6] == 47; }
  }

  lemma Bayer8LevelsFrom48(v: nat)
    requires 48 <= v < 56
    ensures Occurs(BAYER_8_LEVELS, 8, v)
  {
    if v == 48 { assert BAYER_8_LEVELS[0][1] == 48; }
    else if v == 49 { assert BAYER_8_LEVELS[4][5] == 49; }
    else if v == 50 { assert BAYER_8_LEVELS[4][1] == 50; }
    else if v == 51 { assert BAYER_8_LEVELS[0][5] == 51; }
    else if v == 52 { assert BAYER_8_LEVELS[2][3] == 52; }
    else if v == 53 { assert BAYER_8_LEVELS[6][7] == 53; }
    else if v == 54 { assert BAYER_8_LEVELS[6][3] == 54; }
    else { assert BAYER_8_LEVELS[2][7] == 55; }
  }

  lemma Bayer8LevelsFrom56(v: nat)
    requires 56 <= v < 64
    ensures Occurs(BAYER_8_LEVELS, 8, v)
  {
    if v == 56 { assert BAYER_8_LEVELS[2][1] == 56; }
    else if v == 57 { assert BAYER_8_LEVELS[6][5] == 57; }
    else if v == 58 { assert BAYER_8_LEVELS[6][1] == 58; }
    else if v == 59 { assert BAYER_8_LEVELS[2][5] == 59; }
    else if v == 60 { assert BAYER_8_LEVELS[0][3] == 60; }
    else if v == 61 { assert BAYER_8_LEVELS[4][7] == 61; }
    else if v == 62 { assert BAYER_8_LEVELS[4][3] == 62; }
    else { assert BAYER_8_LEVELS[0][7] == 63; }
  }

  lemma Bayer4Rows01(y: nat)
    requires y == 0 || y == 1
    ensures |BAYER_4_LEVELS[y]| == 4
    ensures forall x :: 0 <= x < 4 ==> BAYER_4_LEVELS[y][x] < 16 && Cell4(BAYER_4_LEVELS[y][x]) == (y, x)
  {
    forall x | 0 <= x < 4 ensures BAYER_4_LEVELS[y][x] < 16 && Cell4(BAYER_4_LEVELS[y][x]) == (y, x) {
      assert x in [0, 1, 2, 3];
    }
  }

  lemma Bayer4Rows23(y: nat)
    requires y == 2 || y == 3
    ensures |BAYER_4_LEVELS[y]| == 4
    ensures forall x :: 0 <= x < 4 ==> BAYER_4_LEVELS[y][x] < 16 && Cell4(BAYER_4_LEVELS[y][x]) == (y, x)
  {
    forall x | 0 <= x < 4 ensures BAYER_4_LEVELS[y][x] < 16 && Cell4(BAYER_4_LEVELS[y][x]) == (y, x) {
      assert x in [0, 1, 2, 3];
    }
  }

  lemma Bayer4Levels(v: nat)
    requires v < 16
    ensures Occurs(BAYER_4_LEVELS, 4, v)
  {
    if v == 0 { assert BAYER_4_LEVELS[0][0] == 0; }
    else if v == 1 { assert BAYER_4_LEVELS[2][2] == 1; }
    else if v == 2 { assert BAYER_4_LEVELS[0][2] == 2; }
    else if v == 3 { assert BAYER_4_LEVELS[2][0] == 3; }
    else if v == 4 { assert BAYER_4_LEVELS[1][1] == 4; }
    else if v == 5 { assert BAYER_4_LEVELS[3][3] == 5; }
    else if v == 6 { assert BAYER_4_LEVELS[1][3] == 6; }
    else if v == 7 { assert BAYER_4_LEVELS[3][1] == 7; }
    else if v == 8 { assert BAYER_4_LEVELS[0][1] == 8; }
    else if v == 9 { assert BAYER_4_LEVELS[2][3] == 9; }
    else if v == 10 { assert BAYER_4_LEVELS[0][3] == 10; }
    else if v == 11 { assert BAYER_4_LEVELS[2][1] == 11; }
    else if v == 12 { assert BAYER_4_LEVELS[1][0] == 12; }
    else if v == 13 { assert BAYER_4_LEVELS[3][2] == 13; }
    else if v == 14 { assert BAYER_4_LEVELS[1][2] == 14; }
    else { assert BAYER_4_LEVELS[3][0] == 15; }
  }

  /** The levels of `BAYER_8` are a permutation of `0..63`. */
  lemma Bayer8IsPermutation()
    ensures IsLevelPermutation(BAYER_8_LEVELS, 8)
  {
    forall y | 0 <= y < 8
      ensures |BAYER_8_LEVELS[y]| == 8
      ensures forall x :: 0 <= x < 8 ==> BAYER_8_LEVELS[y][x] < 64 && Cell8(BAYER_8_LEVELS[y][x]) == (y, x)
    {
      if y == 0 { Bayer8Row0(); }
      else if y == 1 { Bayer8Row1(); }
      else if y == 2 { Bayer8Row2(); }
      else if y == 3 { Bayer8Row3(); }
      else if y == 4 { Bayer8Row4(); }
      else if y == 5 { Bayer8Row5(); }
      else if y == 6 { Bayer8Row6(); }
      else { Bayer8Row7(); }
    }
    forall v | 0 <= v < 64 ensures Occurs(BAYER_8_LEVELS, 8, v) {
      if v < 8 { Bayer8LevelsFrom0(v); }
      else if v < 16 { Bayer8LevelsFrom8(v); }
      else if v < 24 { Bayer8LevelsFrom16(v); }
      else if v < 32 { Bayer8LevelsFrom24(v); }
      else if v < 40 { Bayer8LevelsFrom32(v); }
      else if v < 48 { Bayer8LevelsFrom40(v); }
      else if v < 56 { Bayer8LevelsFrom48(v); }
      else { Bayer8LevelsFrom56(v); }
    }
  }

  /** The levels of `BAYER_4` are a permutation of `0..15`. */
  lemma Bayer4IsPermutation()
    ensures IsLevelPermutation(BAYER_4_LEVELS, 4)
  {
    forall y | 0 <= y < 4
      ensures |BAYER_4_LEVELS[y]| == 4
      ensures forall x :: 0 <= x < 4 ==> BAYER_4_LEVELS[y][x] < 16 && Cell4(BAYER_4_LEVELS[y][x]) == (y, x)
    {
      if y < 2 { Bayer4Rows01(y); } else { Bayer4Rows23(y); }
    }
    forall v | 0 <= v < 16 ensures Occurs(BAYER_4_LEVELS, 4, v) {
      Bayer4Levels(v);
    }
  }

  /**
   * `BAYER_8[y][x]` is `level / 64` for the permuted levels, so the
   * threshold offset `BAYER_8[y][x] - 0.5` used by the ordered loop lies in
   * `[-1/2, 1/2)`.
   */
  lemma Bayer8Values()
    ensures IsSquare(BAYER_8, 8)
    ensures forall y, x :: 0 <= y < 8 && 0 <= x < 8 ==>
              BAYER_8[y][x] * 64.0 == BAYER_8_LEVELS[y][x] as real &&
              -0.5 <= BAYER_8[y][x] - 0.5 < 0.5
  {
    Bayer8IsPermutation();
  }

  /** `BAYER_4[y][x]` is `level / 16`, with threshold offsets in `[-1/2, 1/2)`. */
  lemma Bayer4Values()
    ensures IsSquare(BAYER_4, 4)
    ensures forall y, x :: 0 <= y < 4 && 0 <= x < 4 ==>
              BAYER_4[y][x] * 16.0 == BAYER_4_LEVELS[y][x] as real &&
              -0.5 <= BAYER_4[y][x] - 0.5 < 0.5
  {
    Bayer4IsPermutation();
  }
}
