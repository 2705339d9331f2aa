/**
 * The integer Hadamard (SATD) kernels of RdCost.cpp and their tiling
 * dispatcher xGetHADs. A tile's differences org - cur are read row by row
 * into a flat sequence, as the kernels' `diff` arrays are; the 2x2, 4x4
 * and 8x8 butterflies are written out stage by stage. The DC coefficient
 * enters the sum scaled down by 4 (the mean-scaled SATD variant).
 */
module Hadamard {
  import opened Common
  import opened Distortion

  // ----- sequence helpers -----

  function AbsSum(s: seq<int>): (r: int)
    ensures r >= 0
    decreases |s|
  {
    if |s| == 0 then 0 else Abs(s[0]) + AbsSum(s[1..])
  }

  function Neg(s: seq<int>): (n: seq<int>)
    ensures |n| == |s| && forall i :: 0 <= i < |s| ==> n[i] == -s[i]
  {
    seq(|s|, i requires 0 <= i < |s| => -s[i])
  }

  lemma {:induction false} AbsSumZero(s: seq<int>)
    requires forall i :: 0 <= i < |s| ==> s[i] == 0
    ensures AbsSum(s) == 0
    decreases |s|
  {
    if |s| > 0 {
      AbsSumZero(s[1..]);
    }
  }

  lemma {:induction false} AbsSumNeg(s: seq<int>)
    ensures AbsSum(Neg(s)) == AbsSum(s)
    decreases |s|
  {
    if |s| > 0 {
      AbsSumNeg(s[1..]);
      assert Neg(s)[1..] == Neg(s[1..]);
    }
  }

  lemma SumOfFour(s: seq<int>)
    requires |s| == 4
    ensures Sum(s) == s[0] + s[1] + s[2] + s[3]
  {
    SumSnoc(s, 0);
    SumSnoc(s, 1);
    SumSnoc(s, 2);
    SumSnoc(s, 3);
    assert s[..0] == [] && s[..4] == s;
  }

  lemma SumOfSixteen(s: seq<int>)
    requires |s| == 16
    ensures Sum(s) == s[0] + s[1] + s[2] + s[3] + s[4] + s[5] + s[6] + s[7] +
                      s[8] + s[9] + s[10] + s[11] + s[12] + s[13] + s[14] + s[15]
  {
    assert s == s[..4] + s[4..8] + s[8..12] + s[12..];
    SumConcat(s[..4] + s[4..8] + s[8..12], s[12..]);
    SumConcat(s[..4] + s[4..8], s[8..12]);
    SumConcat(s[..4], s[4..8]);
    SumOfFour(s[..4]);
    SumOfFour(s[4..8]);
    SumOfFour(s[8..12]);
    SumOfFour(s[12..]);
  }

  // ----- 2x2 -----

  /** The four coefficients of xCalcHADs2x2, DC first. */
  function Had2x2Coeffs(diff: seq<int>): (c: seq<int>)
    requires |diff| == 4
    ensures |c| == 4
  {
    var m0, m1, m2, m3 := diff[0] + diff[2], diff[1] + diff[3], diff[0] - diff[2], diff[1] - diff[3];
    [m0 + m1, m0 - m1, m2 + m3, m2 - m3]
  }

  /** xCalcHADs2x2 (with unit step) */
  function Had2x2(diff: seq<int>): int
    requires |diff| == 4
  {
    var c := Had2x2Coeffs(diff);
    Shr(Abs(c[0]), 2) + Abs(c[1]) + Abs(c[2]) + Abs(c[3])
  }

  // ----- 4x4 -----

  /** First vertical butterfly stage: rows 0/3 and 1/2 combined. */
  function Had4Stage1(x: seq<int>): (m: seq<int>)
    requires |x| == 16
    ensures |m| == 16
  {
    [x[0] + x[12], x[1] + x[13], x[2] + x[14], x[3] + x[15],
     x[4] + x[8], x[5] + x[9], x[6] + x[10], x[7] + x[11],
     x[4] - x[8], x[5] - x[9], x[6] - x[10], x[7] - x[11],
     x[0] - x[12], x[1] - x[13], x[2] - x[14], x[3] - x[15]]
  }

  /** Second vertical stage. */
  function Had4Stage2(m: seq<int>): (d: seq<int>)
    requires |m| == 16
    ensures |d| == 16
  {
    [m[0] + m[4], m[1] + m[5], m[2] + m[6], m[3] + m[7],
     m[8] + m[12], m[9] + m[13], m[10] + m[14], m[11] + m[15],
     m[0] - m[4], m[1] - m[5], m[2] - m[6], m[3] - m[7],
     m[12] - m[8], m[13] - m[9], m[14] - m[10], m[15] - m[11]]
  }

  /** First horizontal stage, within each row of four. */
  function Had4Stage3(d: seq<int>): (m: seq<int>)
    requires |d| == 16
    ensures |m| == 16
  {
    [d[0] + d[3], d[1] + d[2], d[1] - d[2], d[0] - d[3],
     d[4] + d[7], d[5] + d[6], d[5] - d[6], d[4] - d[7],
     d[8] + d[11], d[9] + d[10], d[9] - d[10], d[8] - d[11],
     d[12] + d[15], d[13] + d[14], d[13] - d[14], d[12] - d[15]]
  }

  /** Second horizontal stage. */
  function Had4Stage4(m: seq<int>): (d: seq<int>)
    requires |m| == 16
    ensures |d| == 16
  {
    [m[0] + m[1], m[0] - m[1], m[2] + m[3], m[3] - m[2],
     m[4] + m[5], m[4] - m[5], m[6] + m[7], m[7] - m[6],
     m[8] + m[9], m[8] - m[9], m[10] + m[11], m[11] - m[10],
     m[12] + m[13], m[12] - m[13], m[14] + m[15], m[15] - m[14]]
  }

  function Had4x4Coeffs(diff: seq<int>): (d: seq<int>)
    requires |diff| == 16
    ensures |d| == 16
  {
    Had4Stage4(Had4Stage3(Had4Stage2(Had4Stage1(diff))))
  }

  /** xCalcHADs4x4 (with unit step): DC scaled by 1/4, then (satd + 1) >> 1. */
  function Had4x4(diff: seq<int>): int
    requires |diff| == 16
  {
    Satd4(Had4x4Coeffs(diff))
  }

  function Satd4(d: seq<int>): int
    requires |d| == 16
  {
    Shr(AbsSum(d) - Abs(d[0]) + Shr(Abs(d[0]), 2) + 1, 1)
  }

  // ----- 8x8 -----

  /** The three-stage eight-point butterfly applied to each row and then each column. */
  function Butterfly8(v: seq<int>): (r: seq<int>)
    requires |v| == 8
    ensures |r| == 8
  {
    var a := [v[0] + v[4], v[1] + v[5], v[2] + v[6], v[3] + v[7],
              v[0] - v[4], v[1] - v[5], v[2] - v[6], v[3] - v[7]];
    var b := [a[0] + a[2], a[1] + a[3], a[0] - a[2], a[1] - a[3],
              a[4] + a[6], a[5] + a[7], a[4] - a[6], a[5] - a[7]];
    [b[0] + b[1], b[0] - b[1], b[2] + b[3], b[2] - b[3],
     b[4] + b[5], b[4] - b[5], b[6] + b[7], b[6] - b[7]]
  }

  /** Horizontal pass: row j of the result transforms diff[8j .. 8j+8]. */
  function Had8Rows(diff: seq<int>): (m: seq<seq<int>>)
    requires |diff| == 64
    ensures |m| == 8 && forall j :: 0 <= j < 8 ==> |m[j]| == 8
  {
    seq(8, j requires 0 <= j < 8 => Butterfly8(Chunk(diff, j)))
  }

  /** Row j of a flat 8x8 tile. */
  function Chunk(diff: seq<int>, j: nat): (r: seq<int>)
    requires |diff| == 64 && j < 8
    ensures |r| == 8 && forall i :: 0 <= i < 8 ==> r[i] == diff[8 * j + i]
  {
    diff[8 * j .. 8 * j + 8]
  }

  function Column(m: seq<seq<int>>, i: nat): (c: seq<int>)
    requires |m| == 8 && forall j :: 0 <= j < 8 ==> |m[j]| == 8
    requires i < 8
    ensures |c| == 8
  {
    seq(8, j requires 0 <= j < 8 => m[j][i])
  }

  /** Vertical pass, kept column by column: entry [i][r] is coefficient (r, i). */
  function Had8x8Coeffs(diff: seq<int>): (c: seq<seq<int>>)
    requires |diff| == 64
    ensures |c| == 8 && forall i :: 0 <= i < 8 ==> |c[i]| == 8
  {
    var m := Had8Rows(diff);
    seq(8, i requires 0 <= i < 8 => Butterfly8(Column(m, i)))
  }

  function AbsSumRows(c: seq<seq<int>>): (r: int)
    ensures r >= 0
    decreases |c|
  {
    if |c| == 0 then 0 else AbsSum(c[0]) + AbsSumRows(c[1..])
  }

  /** xCalcHADs8x8 (with unit step): DC scaled by 1/4, then (sad + 2) >> 2. */
  function Had8x8(diff: seq<int>): int
    requires |diff| == 64
  {
    Satd8(Had8x8Coeffs(diff))
  }

  function Satd8(c: seq<seq<int>>): int
    requires |c| == 8 && |c[0]| == 8
  {
    Shr(AbsSumRows(c) - Abs(c[0][0]) + Shr(Abs(c[0][0]), 2) + 2, 2)
  }

  // ----- properties of the kernels -----

  lemma Had2x2Zero(d: seq<int>)
    requires |d| == 4 && forall i :: 0 <= i < 4 ==> d[i] == 0
    ensures Had2x2(d) == 0
  {
  }

  lemma Had4x4Zero(d: seq<int>)
    requires |d| == 16 && forall i :: 0 <= i < 16 ==> d[i] == 0
    ensures Had4x4(d) == 0
  {
    Had4x4Flat(d, 0);
  }

  lemma Butterfly8Flat(v: seq<int>, a: int)
    requires |v| == 8 && forall i :: 0 <= i < 8 ==> v[i] == a
    ensures Butterfly8(v)[0] == 8 * a && forall i :: 1 <= i < 8 ==> Butterfly8(v)[i] == 0
  {
  }

  /** The 8x8 coefficients of a flat tile: 64 v at DC, zero elsewhere. */
  lemma Had8x8CoeffsFlat(d: seq<int>, v: int)
    requires |d| == 64 && forall i :: 0 <= i < 64 ==> d[i] == v
    ensures Had8x8Coeffs(d)[0][0] == 64 * v
    ensures forall r :: 1 <= r < 8 ==> Had8x8Coeffs(d)[0][r] == 0
    ensures forall i :: 1 <= i < 8 ==> forall r :: 0 <= r < 8 ==> Had8x8Coeffs(d)[i][r] == 0
  {
    var m := Had8Rows(d);
    forall j | 0 <= j < 8
      ensures m[j][0] == 8 * v && forall i :: 1 <= i < 8 ==> m[j][i] == 0
    {
      Butterfly8Flat(Chunk(d, j), v);
    }
    Butterfly8Flat(Column(m, 0), 8 * v);
    forall i | 1 <= i < 8
      ensures forall r :: 0 <= r < 8 ==> Had8x8Coeffs(d)[i][r] == 0
    {
      Butterfly8Flat(Column(m, i), 0);
    }
  }

  lemma Had8x8Zero(d: seq<int>)
    requires |d| == 64 && forall i :: 0 <= i < 64 ==> d[i] == 0
    ensures Had8x8(d) == 0
  {
    Had8x8Flat(d, 0);
  }

  /** A zero difference gives zero SATD in every square kernel. */
  lemma HadZeroDifference(d4: seq<int>, d16: seq<int>, d64: seq<int>)
    requires |d4| == 4 && |d16| == 16 && |d64| == 64
    requires forall i :: 0 <= i < 4 ==> d4[i] == 0
    requires forall i :: 0 <= i < 16 ==> d16[i] == 0
    requires forall i :: 0 <= i < 64 ==> d64[i] == 0
    ensures Had2x2(d4) == 0 && Had4x4(d16) == 0 && Had8x8(d64) == 0
  {
    Had2x2Zero(d4);
    Had4x4Zero(d16);
    Had8x8Zero(d64);
  }

  lemma {:induction false} AbsSumRowsZero(c: seq<seq<int>>)
    requires forall i :: 0 <= i < |c| ==> forall r :: 0 <= r < |c[i]| ==> c[i][r] == 0
    ensures AbsSumRows(c) == 0
    decreases |c|
  {
    if |c| > 0 {
      AbsSumZero(c[0]);
      AbsSumRowsZero(c[1..]);
    }
  }

  lemma SumOfEight(s: seq<int>)
    requires |s| == 8
    ensures Sum(s) == s[0] + s[1] + s[2] + s[3] + s[4] + s[5] + s[6] + s[7]
  {
    assert s == s[..4] + s[4..];
    SumConcat(s[..4], s[4..]);
    SumOfFour(s[..4]);
    SumOfFour(s[4..]);
  }

  lemma Butterfly8Dc(v: seq<int>)
    requires |v| == 8
    ensures Butterfly8(v)[0] == Sum(v)
  {
    SumOfEight(v);
  }

  lemma SumSplit(s: seq<int>, k: nat)
    requires k <= |s|
    ensures Sum(s) == Sum(s[..k]) + Sum(s[k..])
  {
    assert s == s[..k] + s[k..];
    SumConcat(s[..k], s[k..]);
  }

  /** Sum of s[8j .. 8j + 8*n]: n consecutive rows of eight. */
  lemma {:induction false} SumOfRows(s: seq<int>, j: nat, n: nat)
    requires |s| == 64 && j + n <= 8
    ensures Sum(s[8 * j .. 8 * (j + n)]) == RowSums(s, j, n)
    decreases n
  {
    if n > 0 {
      SumOfRows(s, j + 1, n - 1);
      var t := s[8 * j .. 8 * (j + n)];
      SumSplit(t, 8);
      assert t[..8] == Chunk(s, j);
      assert t[8..] == s[8 * (j + 1) .. 8 * (j + n)];
    }
  }

  function RowSums(s: seq<int>, j: nat, n: nat): int
    requires |s| == 64 && j + n <= 8
    decreases n
  {
    if n == 0 then 0 else Sum(Chunk(s, j)) + RowSums(s, j + 1, n - 1)
  }

  /** The DC coefficient of each kernel is the sum of the differences. */
  lemma Had2x2Dc(d: seq<int>)
    requires |d| == 4
    ensures Had2x2Coeffs(d)[0] == Sum(d)
  {
    SumOfFour(d);
  }

  lemma Had4x4Dc(d: seq<int>)
    requires |d| == 16
    ensures Had4x4Coeffs(d)[0] == Sum(d)
  {
    SumOfSixteen(d);
  }

  lemma Had8x8Dc(d: seq<int>)
    requires |d| == 64
    ensures Had8x8Coeffs(d)[0][0] == Sum(d)
  {
    var m := Had8Rows(d);
    forall j | 0 <= j < 8
      ensures m[j][0] == Sum(Chunk(d, j))
    {
      Butterfly8Dc(Chunk(d, j));
    }
    Butterfly8Dc(Column(m, 0));
    SumOfEight(Column(m, 0));
    SumOfRows(d, 0, 8);
    assert d[0..64] == d;
    assert RowSums(d, 0, 8) == Sum(Chunk(d, 0)) + Sum(Chunk(d, 1)) + Sum(Chunk(d, 2)) + Sum(Chunk(d, 3)) +
                               Sum(Chunk(d, 4)) + Sum(Chunk(d, 5)) + Sum(Chunk(d, 6)) + Sum(Chunk(d, 7));
  }

  /** Swapping org and cur negates the differences; the SATD is unchanged. */
  lemma Had2x2Negation(d: seq<int>)
    requires |d| == 4
    ensures Had2x2(Neg(d)) == Had2x2(d)
  {
  }

  lemma Had4x4Negation(d: seq<int>)
    requires |d| == 16
    ensures Had4x4(Neg(d)) == Had4x4(d)
  {
    Had4x4CoeffsNeg(d);
    Satd4Neg(Had4x4Coeffs(d));
  }

  lemma Had4x4CoeffsNeg(d: seq<int>)
    requires |d| == 16
    ensures Had4x4Coeffs(Neg(d)) == Neg(Had4x4Coeffs(d))
  {
    var s1 := Had4Stage1(d);
    var s2 := Had4Stage2(s1);
    var s3 := Had4Stage3(s2);
    Had4Stage1Neg(d);
    Had4Stage2Neg(s1);
    Had4Stage3Neg(s2);
    Had4Stage4Neg(s3);
  }

  /** Each butterfly stage is linear, so it commutes with negation. */
  lemma Had4Stage1Neg(x: seq<int>)
    requires |x| == 16
    ensures Had4Stage1(Neg(x)) == Neg(Had4Stage1(x))
  {
    var a, b := Had4Stage1(Neg(x)), Neg(Had4Stage1(x));
    assert forall i :: 0 <= i < 16 ==> a[i] == b[i];
  }

  lemma Had4Stage2Neg(x: seq<int>)
    requires |x| == 16
    ensures Had4Stage2(Neg(x)) == Neg(Had4Stage2(x))
  {
    var a, b := Had4Stage2(Neg(x)), Neg(Had4Stage2(x));
    assert forall i :: 0 <= i < 16 ==> a[i] == b[i];
  }

  lemma Had4Stage3Neg(x: seq<int>)
    requires |x| == 16
    ensures Had4Stage3(Neg(x)) == Neg(Had4Stage3(x))
  {
    var a, b := Had4Stage3(Neg(x)), Neg(Had4Stage3(x));
    assert forall i :: 0 <= i < 16 ==> a[i] == b[i];
  }

  lemma Had4Stage4Neg(x: seq<int>)
    requires |x| == 16
    ensures Had4Stage4(Neg(x)) == Neg(Had4Stage4(x))
  {
    var a, b := Had4Stage4(Neg(x)), Neg(Had4Stage4(x));
    assert forall i :: 0 <= i < 16 ==> a[i] == b[i];
  }

  lemma Satd4Neg(c: seq<int>)
    requires |c| == 16
    ensures Satd4(Neg(c)) == Satd4(c)
  {
    AbsSumNeg(c);
  }

  lemma Butterfly8Neg(v: seq<int>)
    requires |v| == 8
    ensures Butterfly8(Neg(v)) == Neg(Butterfly8(v))
  {
  }

  lemma Had8x8Negation(d: seq<int>)
    requires |d| == 64
    ensures Had8x8(Neg(d)) == Had8x8(d)
  {
    var c, cn := Had8x8Coeffs(d), Had8x8Coeffs(Neg(d));
    Had8x8CoeffsNeg(d);
    AbsSumRowsNeg(c, cn);
    Satd8Neg(c, cn);
  }

  lemma Had8RowsNeg(d: seq<int>)
    requires |d| == 64
    ensures forall j :: 0 <= j < 8 ==> Had8Rows(Neg(d))[j] == Neg(Had8Rows(d)[j])
  {
    var m, mn := Had8Rows(d), Had8Rows(Neg(d));
    forall j | 0 <= j < 8
      ensures mn[j] == Neg(m[j])
    {
      assert Chunk(Neg(d), j) == Neg(Chunk(d, j));
      Butterfly8Neg(Chunk(d, j));
    }
  }

  lemma Had8x8CoeffsNeg(d: seq<int>)
    requires |d| == 64
    ensures forall i :: 0 <= i < 8 ==> Had8x8Coeffs(Neg(d))[i] == Neg(Had8x8Coeffs(d)[i])
  {
    Had8RowsNeg(d);
    ColumnsNeg(Had8Rows(d), Had8Rows(Neg(d)));
  }

  /** Negating every row of the horizontal pass negates every transformed column. */
  lemma ColumnsNeg(m: seq<seq<int>>, mn: seq<seq<int>>)
    requires |m| == 8 && |mn| == 8
    requires forall j :: 0 <= j < 8 ==> |m[j]| == 8 && |mn[j]| == 8 && mn[j] == Neg(m[j])
    ensures forall i :: 0 <= i < 8 ==> Butterfly8(Column(mn, i)) == Neg(Butterfly8(Column(m, i)))
  {
    forall i | 0 <= i < 8
      ensures Butterfly8(Column(mn, i)) == Neg(Butterfly8(Column(m, i)))
    {
      assert Column(mn, i) == Neg(Column(m, i));
      Butterfly8Neg(Column(m, i));
    }
  }

  lemma Satd8Neg(c: seq<seq<int>>, cn: seq<seq<int>>)
    requires |c| == 8 && |c[0]| == 8 && |cn| == 8 && |cn[0]| == 8
    requires AbsSumRows(cn) == AbsSumRows(c) && cn[0][0] == -c[0][0]
    ensures Satd8(cn) == Satd8(c)
  {
  }

  lemma {:induction false} AbsSumRowsNeg(c: seq<seq<int>>, cn: seq<seq<int>>)
    requires |c| == |cn| && forall i :: 0 <= i < |c| ==> cn[i] == Neg(c[i])
    ensures AbsSumRows(cn) == AbsSumRows(c)
    decreases |c|
  {
    if |c| > 0 {
      AbsSumNeg(c[0]);
      AbsSumRowsNeg(c[1..], cn[1..]);
    }
  }

  /**
   * A constant difference v has only a DC coefficient, so the mean-scaled
   * SATD of a flat 2x2, 4x4 and 8x8 tile is |v|, 2|v| and 4|v|.
   */
  lemma Had2x2Flat(d: seq<int>, v: int)
    requires |d| == 4 && forall i :: 0 <= i < 4 ==> d[i] == v
    ensures Had2x2(d) == Abs(v)
  {
    DivModUnique(4 * Abs(v), 4, Abs(v), 0);
  }

  lemma Satd4Flat(c: seq<int>, v: int)
    requires |c| == 16 && c[0] == 16 * v && AbsSum(c[1..]) == 0
    ensures Satd4(c) == 2 * Abs(v)
  {
    DivModUnique(16 * Abs(v), 4, 4 * Abs(v), 0);
    DivModUnique(4 * Abs(v) + 1, 2, 2 * Abs(v), 1);
  }

  lemma Had4x4Flat(d: seq<int>, v: int)
    requires |d| == 16 && forall i :: 0 <= i < 16 ==> d[i] == v
    ensures Had4x4(d) == 2 * Abs(v)
  {
    var s2 := Had4Stage2(Had4Stage1(d));
    Had4VerticalFlat(d, v);
    var c := Had4Stage4(Had4Stage3(s2));
    Had4HorizontalFlat(s2, v);
    AbsSumZero(c[1..]);
    Satd4Flat(c, v);
  }

  /** The vertical stages of a flat tile leave 4 v in the first row and zero elsewhere. */
  lemma Had4VerticalFlat(d: seq<int>, v: int)
    requires |d| == 16 && forall i :: 0 <= i < 16 ==> d[i] == v
    ensures var s2 := Had4Stage2(Had4Stage1(d));
      (forall i :: 0 <= i < 4 ==> s2[i] == 4 * v) && forall i :: 4 <= i < 16 ==> s2[i] == 0
  {
    var s1 := Had4Stage1(d);
    assert forall i :: 0 <= i < 8 ==> s1[i] == 2 * v;
    assert forall i :: 8 <= i < 16 ==> s1[i] == 0;
  }

  /** The horizontal stages turn a first row of 4 v into a lone DC coefficient 16 v. */
  lemma Had4HorizontalFlat(s2: seq<int>, v: int)
    requires |s2| == 16
    requires (forall i :: 0 <= i < 4 ==> s2[i] == 4 * v) && forall i :: 4 <= i < 16 ==> s2[i] == 0
    ensures var c := Had4Stage4(Had4Stage3(s2));
      c[0] == 16 * v && forall i :: 1 <= i < 16 ==> c[i] == 0
  {
    var s3 := Had4Stage3(s2);
    assert s3[0] == 8 * v && s3[1] == 8 * v && forall i :: 2 <= i < 16 ==> s3[i] == 0;
  }

  lemma Satd8Flat(c: seq<seq<int>>, v: int)
    requires |c| == 8 && |c[0]| == 8 && c[0][0] == 64 * v
    requires AbsSumRows(c) == AbsSum(c[0]) && AbsSum(c[0]) == Abs(64 * v)
    ensures Satd8(c) == 4 * Abs(v)
  {
    DivModUnique(64 * Abs(v), 4, 16 * Abs(v), 0);
    DivModUnique(16 * Abs(v) + 2, 4, 4 * Abs(v), 2);
  }

  lemma Had8x8Flat(d: seq<int>, v: int)
    requires |d| == 64 && forall i :: 0 <= i < 64 ==> d[i] == v
    ensures Had8x8(d) == 4 * Abs(v)
  {
    var c := Had8x8Coeffs(d);
    Had8x8CoeffsFlat(d, v);
    AbsSumZero(c[0][1..]);
    AbsSumRowsZero(c[1..]);
    Satd8Flat(c, v);
  }

  // ----- energy: each butterfly stage doubles the sum of squares -----

  function Squares(s: seq<int>): (q: seq<int>)
    ensures |q| == |s| && forall i :: 0 <= i < |s| ==> q[i] == s[i] * s[i]
  {
    seq(|s|, i requires 0 <= i < |s| => s[i] * s[i])
  }

  function Energy(s: seq<int>): int
  {
    Sum(Squares(s))
  }

  lemma ButterflyPair(a: int, b: int)
    ensures (a + b) * (a + b) + (a - b) * (a - b) == 2 * (a * a) + 2 * (b * b)
    ensures (b - a) * (b - a) == (a - b) * (a - b)
  {
  }

  lemma EnergyOfSixteen(s: seq<int>)
    requires |s| == 16
    ensures Energy(s) == s[0] * s[0] + s[1] * s[1] + s[2] * s[2] + s[3] * s[3] +
                         s[4] * s[4] + s[5] * s[5] + s[6] * s[6] + s[7] * s[7] +
                         s[8] * s[8] + s[9] * s[9] + s[10] * s[10] + s[11] * s[11] +
                         s[12] * s[12] + s[13] * s[13] + s[14] * s[14] + s[15] * s[15]
  {
    SumOfSixteen(Squares(s));
  }

  lemma Had4Stage1Energy(x: seq<int>)
    requires |x| == 16
    ensures Energy(Had4Stage1(x)) == 2 * Energy(x)
  {
    EnergyOfSixteen(x);
    EnergyOfSixteen(Had4Stage1(x));
    ButterflyPair(x[0], x[12]);
    ButterflyPair(x[1], x[13]);
    ButterflyPair(x[2], x[14]);
    ButterflyPair(x[3], x[15]);
    ButterflyPair(x[4], x[8]);
    ButterflyPair(x[5], x[9]);
    ButterflyPair(x[6], x[10]);
    ButterflyPair(x[7], x[11]);
  }

  lemma Had4Stage2Energy(x: seq<int>)
    requires |x| == 16
    ensures Energy(Had4Stage2(x)) == 2 * Energy(x)
  {
    EnergyOfSixteen(x);
    EnergyOfSixteen(Had4Stage2(x));
    ButterflyPair(x[0], x[4]);
    ButterflyPair(x[1], x[5]);
    ButterflyPair(x[2], x[6]);
    ButterflyPair(x[3], x[7]);
    ButterflyPair(x[8], x[12]);
    ButterflyPair(x[9], x[13]);
    ButterflyPair(x[10], x[14]);
    ButterflyPair(x[11], x[15]);
  }

  lemma Had4Stage3Energy(x: seq<int>)
    requires |x| == 16
    ensures Energy(Had4Stage3(x)) == 2 * Energy(x)
  {
    EnergyOfSixteen(x);
    EnergyOfSixteen(Had4Stage3(x));
    ButterflyPair(x[0], x[3]);
    ButterflyPair(x[1], x[2]);
    ButterflyPair(x[4], x[7]);
    ButterflyPair(x[5], x[6]);
    ButterflyPair(x[8], x[11]);
    ButterflyPair(x[9], x[10]);
    ButterflyPair(x[12], x[15]);
    ButterflyPair(x[13], x[14]);
  }

  lemma Had4Stage4Energy(x: seq<int>)
    requires |x| == 16
    ensures Energy(Had4Stage4(x)) == 2 * Energy(x)
  {
    EnergyOfSixteen(x);
    EnergyOfSixteen(Had4Stage4(x));
    ButterflyPair(x[0], x[1]);
    ButterflyPair(x[2], x[3]);
    ButterflyPair(x[4], x[5]);
    ButterflyPair(x[6], x[7]);
    ButterflyPair(x[8], x[9]);
    ButterflyPair(x[10], x[11]);
    ButterflyPair(x[12], x[13]);
    ButterflyPair(x[14], x[15]);
  }

  /**
   * The 4x4 butterfly is an unnormalised Walsh-Hadamard transform: the
   * energy of its coefficients is 16 times the energy of the differences.
   */
  lemma Had4x4Energy(d: seq<int>)
    requires |d| == 16
    ensures Energy(Had4x4Coeffs(d)) == 16 * Energy(d)
  {
    var s1 := Had4Stage1(d);
    var s2 := Had4Stage2(s1);
    var s3 := Had4Stage3(s2);
    Had4Stage1Energy(d);
    Had4Stage2Energy(s1);
    Had4Stage3Energy(s2);
    Had4Stage4Energy(s3);
  }

  lemma EnergyOfFour(s: seq<int>)
    requires |s| == 4
    ensures Energy(s) == s[0] * s[0] + s[1] * s[1] + s[2] * s[2] + s[3] * s[3]
  {
    SumOfFour(Squares(s));
  }

  /** The same for the 2x2 kernel, with factor 4. */
  lemma Had2x2Energy(d: seq<int>)
    requires |d| == 4
    ensures Energy(Had2x2Coeffs(d)) == 4 * Energy(d)
  {
    var m0, m1, m2, m3 := d[0] + d[2], d[1] + d[3], d[0] - d[2], d[1] - d[3];
    EnergyOfFour(d);
    EnergyOfFour(Had2x2Coeffs(d));
    ButterflyPair(m0, m1);
    ButterflyPair(m2, m3);
    ButterflyPair(d[0], d[2]);
    ButterflyPair(d[1], d[3]);
  }

  // ----- the tiling dispatcher xGetHADs -----

  /** The tile kernels xGetHADs can choose, named width x height. */
  datatype Tiling = Tile16x8 | Tile8x16 | Tile8x4 | Tile4x8 | Tile8x8 | Tile4x4 | Tile2x2

  function TileWidth(t: Tiling): (w: nat)
    ensures w >= 2
  {
    match t
    case Tile16x8 => 16
    case Tile8x16 => 8
    case Tile8x4 => 8
    case Tile4x8 => 4
    case Tile8x8 => 8
    case Tile4x4 => 4
    case Tile2x2 => 2
  }

  function TileHeight(t: Tiling): (h: nat)
    ensures h >= 2
  {
    match t
    case Tile16x8 => 8
    case Tile8x16 => 16
    case Tile8x4 => 4
    case Tile4x8 => 8
    case Tile8x8 => 8
    case Tile4x4 => 4
    case Tile2x2 => 2
  }

  /** The square kernels, which take a step argument and check that it is 1. */
  predicate Square(t: Tiling)
  {
    t == Tile8x8 || t == Tile4x4 || t == Tile2x2
  }

  /** The tiling tests of xGetHADs, tried in the source's order; None is the THROW. */
  function SelectTiling(rows: nat, cols: nat): Option<Tiling>
  {
    if cols > rows && rows % 8 == 0 && cols % 16 == 0 then Some(Tile16x8)
    else if cols < rows && cols % 8 == 0 && rows % 16 == 0 then Some(Tile8x16)
    else if cols > rows && rows % 4 == 0 && cols % 8 == 0 then Some(Tile8x4)
    else if cols < rows && cols % 4 == 0 && rows % 8 == 0 then Some(Tile4x8)
    else if rows % 8 == 0 && cols % 8 == 0 then Some(Tile8x8)
    else if rows % 4 == 0 && cols % 4 == 0 then Some(Tile4x4)
    else if rows % 2 == 0 && cols % 2 == 0 then Some(Tile2x2)
    else None
  }

  /** xGetHADs throws exactly when a dimension is odd. */
  lemma SelectTilingFails(rows: nat, cols: nat)
    ensures SelectTiling(rows, cols).None? <==> rows % 2 != 0 || cols % 2 != 0
  {
    MultipleOfPowerIsEven(rows);
    MultipleOfPowerIsEven(cols);
  }

  /** The chosen tile divides both dimensions, so the tiles cover the block exactly. */
  lemma SelectTilingCovers(rows: nat, cols: nat)
    requires SelectTiling(rows, cols).Some?
    ensures rows % TileHeight(SelectTiling(rows, cols).value) == 0
    ensures cols % TileWidth(SelectTiling(rows, cols).value) == 0
  {
  }

  /**
   * A square kernel is chosen only when no rectangular one fits, and it
   * is the largest square that divides both dimensions.
   */
  lemma SelectTilingSquare(rows: nat, cols: nat)
    requires SelectTiling(rows, cols).Some? && Square(SelectTiling(rows, cols).value)
    ensures SelectTiling(rows, cols) == Some(Tile8x8) <==> rows % 8 == 0 && cols % 8 == 0
    ensures SelectTiling(rows, cols) == Some(Tile4x4) <==> rows % 4 == 0 && cols % 4 == 0 && !(rows % 8 == 0 && cols % 8 == 0)
    ensures !(cols > rows && rows % 4 == 0 && cols % 8 == 0)
    ensures !(cols < rows && cols % 4 == 0 && rows % 8 == 0)
  {
  }

  /** A sample of a block; the tiles the dispatcher visits stay inside the block. */
  function Sample(b: seq<seq<int>>, i: int, j: int): int
  {
    if 0 <= i < |b| && 0 <= j < |b[i]| then b[i][j] else 0
  }

  /** The differences org - cur of the tile at (y, x), row by row. */
  function TileDiff(p: DistParam, t: Tiling, y: int, x: int): (d: seq<int>)
    ensures |d| == TileHeight(t) * TileWidth(t)
  {
    var w := TileWidth(t);
    seq(TileHeight(t) * w, k requires 0 <= k < TileHeight(t) * w =>
      Sample(p.org, y + k / w, x + k % w) - Sample(p.cur, y + k / w, x + k % w))
  }

  /**
   * The cost of one tile. The rectangular kernels end in floating-point
   * scaling, so they are the parameter `rect`, applied to the tile's
   * differences.
   */
  function TileCost(p: DistParam, t: Tiling, y: int, x: int, rect: (Tiling, seq<int>) -> int): int
  {
    var d := TileDiff(p, t, y, x);
    match t
    case Tile2x2 => Had2x2(d)
    case Tile4x4 => Had4x4(d)
    case Tile8x8 => Had8x8(d)
    case _ => rect(t, d)
  }

  /** The cost of every tile of the block, by the position of its top-left sample. */
  function TileCosts(p: DistParam, t: Tiling, rect: (Tiling, seq<int>) -> int): (int, int) -> int
  {
    (y, x) => TileCost(p, t, y, x, rect)
  }

  /** The tiles of the tile row at y, from column x on, in a block `width` samples wide. */
  function RowOfTiles(width: int, t: Tiling, y: int, x: int, cost: (int, int) -> int): int
    decreases width - x
  {
    if x >= width then 0 else cost(y, x) + RowOfTiles(width, t, y, x + TileWidth(t), cost)
  }

  /** The tile rows from row y on. */
  function TileGrid(height: int, width: int, t: Tiling, y: int, cost: (int, int) -> int): int
    decreases height - y
  {
    if y >= height then 0 else RowOfTiles(width, t, y, 0, cost) + TileGrid(height, width, t, y + TileHeight(t), cost)
  }

  /** What xGetHADs returns on the unweighted path. */
  function HadsSpec(p: DistParam, rect: (Tiling, seq<int>) -> int): Result<int>
  {
    match SelectTiling(p.height, p.width)
    case None => CheckFailed("Invalid size")
    case Some(t) =>
      if Square(t) && p.step != 1 && p.height > 0 && p.width > 0 then CheckFailed("Invalid step")
      else Ok(Shr(TileGrid(p.height, p.width, t, 0, TileCosts(p, t, rect)), p.precShift))
  }

  /** The two tile loops of xGetHADs; `cost` runs the selected kernel on one tile. */
  method GridLoop(height: int, width: int, t: Tiling, cost: (int, int) -> int) returns (sum: int)
    ensures sum == TileGrid(height, width, t, 0, cost)
  {
    sum := 0;
    var y := 0;
    while y < height
      invariant sum + TileGrid(height, width, t, y, cost) == TileGrid(height, width, t, 0, cost)
      decreases height - y
    {
      var x := 0;
      while x < width
        invariant sum + RowOfTiles(width, t, y, x, cost) + TileGrid(height, width, t, y + TileHeight(t), cost)
                  == TileGrid(height, width, t, 0, cost)
        decreases width - x
      {
        sum := sum + cost(y, x);
        x := x + TileWidth(t);
      }
      y := y + TileHeight(t);
    }
  }

  /** xGetHADs */
  method Hads(p: DistParam, weighted: DistParam -> int, rect: (Tiling, seq<int>) -> int) returns (r: Result<int>)
    ensures p.applyWeight ==> r == Ok(weighted(p))
    ensures !p.applyWeight ==> r == HadsSpec(p, rect)
  {
    if p.applyWeight {
      return Ok(weighted(p));
    }
    var tiling := SelectTiling(p.height, p.width);
    if tiling.None? {
      return CheckFailed("Invalid size");
    }
    var t := tiling.value;
    if Square(t) && p.step != 1 && p.height > 0 && p.width > 0 {
      return CheckFailed("Invalid step");
    }
    var sum := GridLoop(p.height, p.width, t, TileCosts(p, t, rect));
    r := Ok(Shr(sum, p.precShift));
  }

  // ----- properties of the dispatcher -----

  /** Two tile costs that agree on every tile give the same total. */
  lemma {:induction false} RowOfTilesPointwise(width: int, t: Tiling, y: int, x: int, c1: (int, int) -> int, c2: (int, int) -> int)
    requires forall x' :: c1(y, x') == c2(y, x')
    ensures RowOfTiles(width, t, y, x, c1) == RowOfTiles(width, t, y, x, c2)
    decreases width - x
  {
    if x < width {
      RowOfTilesPointwise(width, t, y, x + TileWidth(t), c1, c2);
    }
  }

  lemma {:induction false} TileGridPointwise(height: int, width: int, t: Tiling, y: int, c1: (int, int) -> int, c2: (int, int) -> int)
    requires forall y', x' :: c1(y', x') == c2(y', x')
    ensures TileGrid(height, width, t, y, c1) == TileGrid(height, width, t, y, c2)
    decreases height - y
  {
    if y < height {
      RowOfTilesPointwise(width, t, y, 0, c1, c2);
      TileGridPointwise(height, width, t, y + TileHeight(t), c1, c2);
    }
  }

  /** Tiles that all cost nothing give a zero total. */
  lemma {:induction false} RowOfTilesZero(width: int, t: Tiling, y: int, x: int, cost: (int, int) -> int)
    requires forall x' :: cost(y, x') == 0
    ensures RowOfTiles(width, t, y, x, cost) == 0
    decreases width - x
  {
    if x < width {
      RowOfTilesZero(width, t, y, x + TileWidth(t), cost);
    }
  }

  lemma {:induction false} TileGridZero(height: int, width: int, t: Tiling, y: int, cost: (int, int) -> int)
    requires forall y', x' :: cost(y', x') == 0
    ensures TileGrid(height, width, t, y, cost) == 0
    decreases height - y
  {
    if y < height {
      RowOfTilesZero(width, t, y, 0, cost);
      TileGridZero(height, width, t, y + TileHeight(t), cost);
    }
  }

  lemma TileDiffSwapped(p: DistParam, t: Tiling, y: int, x: int)
    ensures TileDiff(Swapped(p), t, y, x) == Neg(TileDiff(p, t, y, x))
  {
  }

  lemma TileCostSwapped(p: DistParam, t: Tiling, y: int, x: int, rect: (Tiling, seq<int>) -> int)
    requires forall d :: rect(t, Neg(d)) == rect(t, d)
    ensures TileCost(Swapped(p), t, y, x, rect) == TileCost(p, t, y, x, rect)
  {
    var d := TileDiff(p, t, y, x);
    TileDiffSwapped(p, t, y, x);
    match t
    case Tile2x2 => Had2x2Negation(d);
    case Tile4x4 => Had4x4Negation(d);
    case Tile8x8 => Had8x8Negation(d);
    case _ =>
  }

  /**
   * The SATD does not depend on which block is the original, given
   * rectangular kernels that are themselves symmetric.
   */
  lemma HadsSymmetric(p: DistParam, rect: (Tiling, seq<int>) -> int)
    requires forall t, d :: rect(t, Neg(d)) == rect(t, d)
    ensures HadsSpec(Swapped(p), rect) == HadsSpec(p, rect)
  {
    if SelectTiling(p.height, p.width).Some? {
      var t := SelectTiling(p.height, p.width).value;
      var c1, c2 := TileCosts(Swapped(p), t, rect), TileCosts(p, t, rect);
      forall y, x
        ensures c1(y, x) == c2(y, x)
      {
        TileCostSwapped(p, t, y, x, rect);
      }
      TileGridPointwise(p.height, p.width, t, 0, c1, c2);
    }
  }

  function Zeros(n: nat): (z: seq<int>)
    ensures |z| == n && forall i :: 0 <= i < n ==> z[i] == 0
  {
    seq(n, i => 0)
  }

  lemma TileCostIdentical(p: DistParam, t: Tiling, y: int, x: int, rect: (Tiling, seq<int>) -> int)
    requires p.org == p.cur
    requires rect(t, Zeros(TileHeight(t) * TileWidth(t))) == 0
    ensures TileCost(p, t, y, x, rect) == 0
  {
    var d := TileDiff(p, t, y, x);
    assert d == Zeros(TileHeight(t) * TileWidth(t));
    match t
    case Tile2x2 => Had2x2Zero(d);
    case Tile4x4 => Had4x4Zero(d);
    case Tile8x8 => Had8x8Zero(d);
    case _ =>
  }

  /** Identical blocks have zero SATD whenever xGetHADs does not fail. */
  lemma HadsIdenticalBlocks(p: DistParam, rect: (Tiling, seq<int>) -> int)
    requires p.org == p.cur
    requires forall t :: rect(t, Zeros(TileHeight(t) * TileWidth(t))) == 0
    ensures HadsSpec(p, rect).Ok? ==> HadsSpec(p, rect).value == 0
  {
    if SelectTiling(p.height, p.width).Some? {
      var t := SelectTiling(p.height, p.width).value;
      var c := TileCosts(p, t, rect);
      forall y, x
        ensures c(y, x) == 0
      {
        TileCostIdentical(p, t, y, x, rect);
      }
      TileGridZero(p.height, p.width, t, 0, c);
      DivModUnique(0, Pow2(p.precShift), 0, 0);
    }
  }

  // ----- xGetMRHADs -----

  /** Every sample of a block minus a constant. */
  function SubtractOffset(b: seq<seq<int>>, offset: int): (r: seq<seq<int>>)
    ensures |r| == |b| && forall i :: 0 <= i < |b| ==> |r[i]| == |b[i]|
  {
    seq(|b|, i requires 0 <= i < |b| => seq(|b[i]|, j requires 0 <= j < |b[i]| => b[i][j] - offset))
  }

  /**
   * xGetMRHADs: the SATD of org minus the mean difference against cur.
   * The mean difference (PelBuf::meanDiff) is the parameter `offset`.
   */
  method MrHads(p: DistParam, offset: int, weighted: DistParam -> int, rect: (Tiling, seq<int>) -> int)
    returns (r: Result<int>)
    ensures var q := p.(org := SubtractOffset(p.org, offset));
            r == if p.applyWeight then Ok(weighted(q)) else HadsSpec(q, rect)
  {
    var q := p.(org := SubtractOffset(p.org, offset));
    r := Hads(q, weighted, rect);
  }

  /** When org and cur differ by exactly the offset, the mean-removed SATD vanishes. */
  lemma MrHadsRemovesOffset(p: DistParam, offset: int, rect: (Tiling, seq<int>) -> int)
    requires p.cur == SubtractOffset(p.org, offset)
    requires forall t :: rect(t, Zeros(TileHeight(t) * TileWidth(t))) == 0
    ensures var q := p.(org := SubtractOffset(p.org, offset));
            HadsSpec(q, rect).Ok? ==> HadsSpec(q, rect).value == 0
  {
    HadsIdenticalBlocks(p.(org := SubtractOffset(p.org, offset)), rect);
  }
}
