/**
 * Integer sample kernels of the motion-compensated temporal pre-filter:
 * the luma 2x subsampling, the separable 8-tap (6 used) interpolation and
 * the block matching error with early exit.
 *
 * A plane is an `array2<int>` indexed [row, column]. The encoder pads its
 * pictures by replicating the border samples (extendBorderPel); a read at
 * any position is modelled as a read at the nearest sample inside the
 * plane.
 */
module TemporalFilterKernels {
  import opened Common

  const MotionVectorFactor: int := 16
  const Padding: int := 128

  /** The 16 sub-sample phases of the interpolation filter, 1/16 sample apart. */
  const InterpolationFilter: seq<seq<int>> := [
    [0, 0,   0, 64,  0,   0, 0, 0],
    [0, 1,  -3, 64,  4,  -2, 0, 0],
    [0, 1,  -6, 62,  9,  -3, 1, 0],
    [0, 2,  -8, 60, 14,  -5, 1, 0],
    [0, 2,  -9, 57, 19,  -7, 2, 0],
    [0, 3, -10, 53, 24,  -8, 2, 0],
    [0, 3, -11, 50, 29,  -9, 2, 0],
    [0, 3, -11, 44, 35, -10, 3, 0],
    [0, 1,  -7, 38, 38,  -7, 1, 0],
    [0, 3, -10, 35, 44, -11, 3, 0],
    [0, 2,  -9, 29, 50, -11, 3, 0],
    [0, 2,  -8, 24, 53, -10, 3, 0],
    [0, 2,  -7, 19, 57,  -9, 2, 0],
    [0, 1,  -5, 14, 60,  -8, 2, 0],
    [0, 1,  -3,  9, 62,  -6, 1, 0],
    [0, 0,  -2,  4, 64,  -3, 1, 0]]

  /** The six taps the kernels use; taps 0 and 7 are never read. */
  function UsedTapSum(f: seq<int>): int
    requires |f| == 8
  {
    f[1] + f[2] + f[3] + f[4] + f[5] + f[6]
  }

  /**
   * Every phase has eight taps, the outer two zero, and gains 64 (6 bits), so
   * ignoring taps 0 and 7 loses nothing; phase 0 is the identity.
   */
  lemma InterpolationFilterTable()
    ensures |InterpolationFilter| == 16
    ensures forall p :: 0 <= p < 16 ==> |InterpolationFilter[p]| == 8
    ensures forall p :: 0 <= p < 16 ==> InterpolationFilter[p][0] == 0 && InterpolationFilter[p][7] == 0
    ensures forall p :: 0 <= p < 16 ==> UsedTapSum(InterpolationFilter[p]) == 64
    ensures InterpolationFilter[0] == [0, 0, 0, 64, 0, 0, 0, 0]
  {
  }

  /** The filter phase of a motion component in 1/16 sample: `mv & 0xF`. */
  function Phase(mv: int): (f: seq<int>)
    ensures |f| == 8 && UsedTapSum(f) == 64
  {
    InterpolationFilterTable();
    InterpolationFilter[mv % 16]
  }

  // ---------------------------------------------------------------------
  // Planes
  // ---------------------------------------------------------------------

  predicate IsPlane(p: array2<int>)
  {
    p.Length0 > 0 && p.Length1 > 0
  }

  /** The sample at column x, row y of a border-extended plane. */
  function At(p: array2<int>, x: int, y: int): int
    reads p
    requires IsPlane(p)
  {
    p[Clip3(0, p.Length0 - 1, y), Clip3(0, p.Length1 - 1, x)]
  }

  predicate InRange(p: array2<int>, maxValue: int)
    reads p
  {
    forall r, c :: 0 <= r < p.Length0 && 0 <= c < p.Length1 ==> 0 <= p[r, c] <= maxValue
  }

  predicate Constant(p: array2<int>, v: int)
    reads p
  {
    forall r, c :: 0 <= r < p.Length0 && 0 <= c < p.Length1 ==> p[r, c] == v
  }

  // ---------------------------------------------------------------------
  // subsampleLuma
  // ---------------------------------------------------------------------

  /** The rounded mean of the 2x2 block whose top-left sample is (2x, 2y). */
  function Box(p: array2<int>, x: nat, y: nat): int
    reads p
    requires 2 * y + 1 < p.Length0 && 2 * x + 1 < p.Length1
  {
    Shr(p[2 * y, 2 * x] + p[2 * y + 1, 2 * x] + p[2 * y, 2 * x + 1] + p[2 * y + 1, 2 * x + 1] + 2, 2)
  }

  /** The rounded mean of four samples lies between their minimum and maximum. */
  lemma BoxWithinRange(p: array2<int>, x: nat, y: nat, lo: int, hi: int)
    requires 2 * y + 1 < p.Length0 && 2 * x + 1 < p.Length1
    requires lo <= p[2 * y, 2 * x] <= hi && lo <= p[2 * y + 1, 2 * x] <= hi
    requires lo <= p[2 * y, 2 * x + 1] <= hi && lo <= p[2 * y + 1, 2 * x + 1] <= hi
    ensures lo <= Box(p, x, y) <= hi
    ensures p[2 * y, 2 * x] == p[2 * y + 1, 2 * x] == p[2 * y, 2 * x + 1] == p[2 * y + 1, 2 * x + 1] ==> Box(p, x, y) == p[2 * y, 2 * x]
  {
    var s := p[2 * y, 2 * x] + p[2 * y + 1, 2 * x] + p[2 * y, 2 * x + 1] + p[2 * y + 1, 2 * x + 1];
    assert Pow2(2) == 4 by { assert Pow2(1) == 2; }
    assert 4 * lo <= s <= 4 * hi;
    DivMonotone(4 * lo, s + 2, 4);
    DivMonotone(s + 2, 4 * hi + 3, 4);
    DivModUnique(4 * lo, 4, lo, 0);
    DivModUnique(4 * hi + 3, 4, hi, 3);
  }

  /**
   * subsampleLuma with its default factor 2: a plane of half the width and
   * height whose every sample is the rounded mean of the co-located 2x2 block.
   */
  method SubsampleLuma(input: array2<int>) returns (output: array2<int>)
    ensures fresh(output)
    ensures output.Length0 == input.Length0 / 2 && output.Length1 == input.Length1 / 2
    ensures forall y, x :: 0 <= y < output.Length0 && 0 <= x < output.Length1 ==> output[y, x] == Box(input, x, y)
  {
    var newWidth := input.Length1 / 2;
    var newHeight := input.Length0 / 2;
    output := new int[newHeight, newWidth];
    for y := 0 to newHeight
      invariant forall r, x :: 0 <= r < y && 0 <= x < newWidth ==> output[r, x] == Box(input, x, r)
    {
      SubsampleRow(input, output, y);
    }
  }

  /** Row y of subsampleLuma's output, left to right. */
  method SubsampleRow(input: array2<int>, output: array2<int>, y: nat)
    requires output != input && y < output.Length0
    requires output.Length0 == input.Length0 / 2 && output.Length1 == input.Length1 / 2
    modifies output
    ensures forall x :: 0 <= x < output.Length1 ==> output[y, x] == Box(input, x, y)
    ensures forall r, x :: 0 <= r < output.Length0 && 0 <= x < output.Length1 && r != y ==> output[r, x] == old(output[r, x])
  {
    for x := 0 to output.Length1
      invariant forall c :: 0 <= c < x ==> output[y, c] == Box(input, c, y)
      invariant forall r, c :: 0 <= r < output.Length0 && 0 <= c < output.Length1 && r != y ==> output[r, c] == old(output[r, c])
    {
      output[y, x] := Box(input, x, y);
    }
  }

  /** Subsampling keeps samples in range and a flat plane flat. */
  lemma SubsampledRange(input: array2<int>, output: array2<int>, lo: int, hi: int)
    requires output.Length0 == input.Length0 / 2 && output.Length1 == input.Length1 / 2
    requires forall y, x :: 0 <= y < output.Length0 && 0 <= x < output.Length1 ==> output[y, x] == Box(input, x, y)
    requires forall r, c :: 0 <= r < input.Length0 && 0 <= c < input.Length1 ==> lo <= input[r, c] <= hi
    ensures forall r, c :: 0 <= r < output.Length0 && 0 <= c < output.Length1 ==> lo <= output[r, c] <= hi
    ensures Constant(input, lo) ==> Constant(output, lo)
  {
    forall r, c | 0 <= r < output.Length0 && 0 <= c < output.Length1
      ensures lo <= output[r, c] <= hi
      ensures Constant(input, lo) ==> output[r, c] == lo
    {
      BoxWithinRange(input, c, r, lo, hi);
    }
  }

  // ---------------------------------------------------------------------
  // Separable interpolation
  // ---------------------------------------------------------------------

  /** Taps 1..n of the horizontal pass: f[k] times the sample k to the right of column col on row row. */
  function HTapUpTo(src: array2<int>, f: seq<int>, row: int, col: int, n: nat): int
    reads src
    requires IsPlane(src) && |f| == 8 && n <= 6
  {
    if n == 0 then 0 else HTapUpTo(src, f, row, col, n - 1) + f[n] * At(src, col + n, row)
  }

  /** The horizontal pass over taps 1..6. */
  function HTap(src: array2<int>, f: seq<int>, row: int, col: int): int
    reads src
    requires IsPlane(src) && |f| == 8
  {
    HTapUpTo(src, f, row, col, 6)
  }

  /** Taps 1..n of the vertical pass over the horizontal results below row row. */
  function VTapUpTo(src: array2<int>, xf: seq<int>, yf: seq<int>, row: int, col: int, n: nat): int
    reads src
    requires IsPlane(src) && |xf| == 8 && |yf| == 8 && n <= 6
  {
    if n == 0 then 0 else VTapUpTo(src, xf, yf, row, col, n - 1) + yf[n] * HTap(src, xf, row + n, col)
  }

  /** The vertical pass over six horizontal results, before rounding. */
  function VTap(src: array2<int>, xf: seq<int>, yf: seq<int>, row: int, col: int): int
    reads src
    requires IsPlane(src) && |xf| == 8 && |yf| == 8
  {
    VTapUpTo(src, xf, yf, row, col, 6)
  }

  lemma HTapUnfold(src: array2<int>, f: seq<int>, row: int, col: int)
    requires IsPlane(src) && |f| == 8
    ensures HTap(src, f, row, col) ==
            f[1] * At(src, col + 1, row) + f[2] * At(src, col + 2, row) + f[3] * At(src, col + 3, row) +
            f[4] * At(src, col + 4, row) + f[5] * At(src, col + 5, row) + f[6] * At(src, col + 6, row)
  {
    assert HTapUpTo(src, f, row, col, 1) == f[1] * At(src, col + 1, row);
    assert HTapUpTo(src, f, row, col, 2) == HTapUpTo(src, f, row, col, 1) + f[2] * At(src, col + 2, row);
    assert HTapUpTo(src, f, row, col, 3) == HTapUpTo(src, f, row, col, 2) + f[3] * At(src, col + 3, row);
    assert HTapUpTo(src, f, row, col, 4) == HTapUpTo(src, f, row, col, 3) + f[4] * At(src, col + 4, row);
    assert HTapUpTo(src, f, row, col, 5) == HTapUpTo(src, f, row, col, 4) + f[5] * At(src, col + 5, row);
  }

  lemma VTapUnfold(src: array2<int>, xf: seq<int>, yf: seq<int>, row: int, col: int)
    requires IsPlane(src) && |xf| == 8 && |yf| == 8
    ensures VTap(src, xf, yf, row, col) ==
            yf[1] * HTap(src, xf, row + 1, col) + yf[2] * HTap(src, xf, row + 2, col) + yf[3] * HTap(src, xf, row + 3, col) +
            yf[4] * HTap(src, xf, row + 4, col) + yf[5] * HTap(src, xf, row + 5, col) + yf[6] * HTap(src, xf, row + 6, col)
  {
    assert VTapUpTo(src, xf, yf, row, col, 1) == yf[1] * HTap(src, xf, row + 1, col);
    assert VTapUpTo(src, xf, yf, row, col, 2) == VTapUpTo(src, xf, yf, row, col, 1) + yf[2] * HTap(src, xf, row + 2, col);
    assert VTapUpTo(src, xf, yf, row, col, 3) == VTapUpTo(src, xf, yf, row, col, 2) + yf[3] * HTap(src, xf, row + 3, col);
    assert VTapUpTo(src, xf, yf, row, col, 4) == VTapUpTo(src, xf, yf, row, col, 3) + yf[4] * HTap(src, xf, row + 4, col);
    assert VTapUpTo(src, xf, yf, row, col, 5) == VTapUpTo(src, xf, yf, row, col, 4) + yf[5] * HTap(src, xf, row + 5, col);
  }

  /** Six taps applied to one value v give the taps' sum times v. */
  lemma TapsOfOneValue(f: seq<int>, v: int)
    requires |f| == 8
    ensures f[1] * v + f[2] * v + f[3] * v + f[4] * v + f[5] * v + f[6] * v == UsedTapSum(f) * v
  {
  }

  /**
   * An interpolated sample: the two 6-bit passes in 12 bits of precision,
   * rounded, `(sum + (1 << 11)) >> 12`, and clipped to [0, maxValue]. The taps
   * reach from (col + 1, row + 1) to (col + 6, row + 6); the sample sits at
   * (col + 3, row + 3) plus the sub-sample phase.
   */
  function Interpolate(src: array2<int>, xf: seq<int>, yf: seq<int>, row: int, col: int, maxValue: nat): (v: int)
    reads src
    requires IsPlane(src) && |xf| == 8 && |yf| == 8
    ensures 0 <= v <= maxValue
  {
    Clip3(0, maxValue, Shr(VTap(src, xf, yf, row, col) + Pow2(11), 12))
  }

  lemma RoundOf4096(v: int)
    ensures Shr(4096 * v + Pow2(11), 12) == v
  {
    Pow2Add(11, 1);
    assert Pow2(1) == 2;
    assert Pow2(12) == 4096;
    DivModUnique(4096 * v + 2048, 4096, v, 2048);
  }

  /** Phase 0 in both directions reads the sample at (col + 3, row + 3) unchanged. */
  lemma InterpolationAtPhaseZero(src: array2<int>, row: int, col: int, maxValue: nat)
    requires IsPlane(src)
    ensures Interpolate(src, Phase(0), Phase(0), row, col, maxValue) == Clip3(0, maxValue, At(src, col + 3, row + 3))
  {
    var f := Phase(0);
    assert f == [0, 0, 0, 64, 0, 0, 0, 0];
    HTapUnfold(src, f, row + 3, col);
    VTapUnfold(src, f, f, row, col);
    RoundOf4096(At(src, col + 3, row + 3));
  }

  lemma HTapOfFlatPlane(src: array2<int>, f: seq<int>, row: int, col: int, v: int)
    requires IsPlane(src) && Constant(src, v) && |f| == 8 && UsedTapSum(f) == 64
    ensures HTap(src, f, row, col) == 64 * v
  {
    HTapUnfold(src, f, row, col);
    TapsOfOneValue(f, v);
  }

  /** Because every phase gains exactly 64, a plane of one value interpolates to that value at every phase. */
  lemma InterpolationOfFlatPlane(src: array2<int>, dx: int, dy: int, row: int, col: int, v: int, maxValue: nat)
    requires IsPlane(src) && Constant(src, v) && 0 <= v <= maxValue
    ensures Interpolate(src, Phase(dx), Phase(dy), row, col, maxValue) == v
  {
    var xf, yf := Phase(dx), Phase(dy);
    HTapOfFlatPlane(src, xf, row + 1, col, v);
    HTapOfFlatPlane(src, xf, row + 2, col, v);
    HTapOfFlatPlane(src, xf, row + 3, col, v);
    HTapOfFlatPlane(src, xf, row + 4, col, v);
    HTapOfFlatPlane(src, xf, row + 5, col, v);
    HTapOfFlatPlane(src, xf, row + 6, col, v);
    VTapUnfold(src, xf, yf, row, col);
    TapsOfOneValue(yf, 64 * v);
    assert VTap(src, xf, yf, row, col) == 64 * (64 * v);
    RoundOf4096(v);
  }

  /** tempArray of the kernels: rows 1 .. h + 6 of the horizontal pass for a w-wide block. */
  method HorizontalPass(src: array2<int>, xf: seq<int>, row0: int, col0: int, w: nat, h: nat) returns (temp: array2<int>)
    requires IsPlane(src) && |xf| == 8
    ensures fresh(temp) && temp.Length0 == h + 7 && temp.Length1 == w
    ensures forall t, c :: 1 <= t < h + 7 && 0 <= c < w ==> temp[t, c] == HTap(src, xf, row0 + t, col0 + c)
  {
    temp := new int[h + 7, w];
    for t := 1 to h + 7
      invariant forall t', c :: 1 <= t' < t && 0 <= c < w ==> temp[t', c] == HTap(src, xf, row0 + t', col0 + c)
    {
      for c := 0 to w
        invariant forall t', c' :: 1 <= t' < t && 0 <= c' < w ==> temp[t', c'] == HTap(src, xf, row0 + t', col0 + c')
        invariant forall c' :: 0 <= c' < c ==> temp[t, c'] == HTap(src, xf, row0 + t, col0 + c')
      {
        var base := col0 + c;
        var sum := 0;
        sum := sum + xf[1] * At(src, base + 1, row0 + t);
        sum := sum + xf[2] * At(src, base + 2, row0 + t);
        sum := sum + xf[3] * At(src, base + 3, row0 + t);
        sum := sum + xf[4] * At(src, base + 4, row0 + t);
        sum := sum + xf[5] * At(src, base + 5, row0 + t);
        sum := sum + xf[6] * At(src, base + 6, row0 + t);
        HTapUnfold(src, xf, row0 + t, base);
        temp[t, c] := sum;
      }
    }
  }

  /** The vertical pass on tempArray, then rounding and clipping, for block sample (i, j), row i and column j. */
  method VerticalSample(ghost src: array2<int>, temp: array2<int>, xf: seq<int>, yf: seq<int>, row0: int, col0: int,
                        i: nat, j: nat, maxValue: nat) returns (v: int)
    requires IsPlane(src) && |xf| == 8 && |yf| == 8
    requires i + 7 <= temp.Length0 && j < temp.Length1
    requires forall t :: 1 <= t < temp.Length0 ==> temp[t, j] == HTap(src, xf, row0 + t, col0 + j)
    ensures v == Interpolate(src, xf, yf, row0 + i, col0 + j, maxValue)
  {
    var sum := 0;
    sum := sum + yf[1] * temp[i + 1, j];
    sum := sum + yf[2] * temp[i + 2, j];
    sum := sum + yf[3] * temp[i + 3, j];
    sum := sum + yf[4] * temp[i + 4, j];
    sum := sum + yf[5] * temp[i + 5, j];
    sum := sum + yf[6] * temp[i + 6, j];
    VTapUnfold(src, xf, yf, row0 + i, col0 + j);
    sum := Shr(sum + Pow2(11), 12);
    v := if sum < 0 then 0 else if sum > maxValue then maxValue else sum;
  }

  // ---------------------------------------------------------------------
  // motionErrorLuma
  // ---------------------------------------------------------------------

  function Sq(d: int): (r: int)
    ensures r >= 0
  {
    SquareNonNegative(d);
    d * d
  }

  /** Squared errors of columns 0 .. n - 1 of row r of the block at (x, y), displaced by the whole samples (dx, dy). */
  function FullPelRow(orig: array2<int>, buf: array2<int>, x: int, y: int, dx: int, dy: int, r: int, n: nat): (e: int)
    reads orig, buf
    requires IsPlane(orig) && IsPlane(buf)
    ensures e >= 0
  {
    if n == 0 then 0
    else FullPelRow(orig, buf, x, y, dx, dy, r, n - 1) + Sq(At(orig, x + n - 1, y + r) - At(buf, x + dx + n - 1, y + r + dy))
  }

  /** Squared errors of columns 0 .. n - 1 of row r against the interpolated reference. */
  function FracRow(orig: array2<int>, buf: array2<int>, x: int, y: int, dx: int, dy: int, r: int, n: nat, maxValue: nat): (e: int)
    reads orig, buf
    requires IsPlane(orig) && IsPlane(buf)
    ensures e >= 0
  {
    if n == 0 then 0
    else
      FracRow(orig, buf, x, y, dx, dy, r, n - 1, maxValue) +
      Sq(Interpolate(buf, Phase(dx), Phase(dy), (y + dy / 16 - 3) + r, (x + dx / 16 - 3) + (n - 1), maxValue) - At(orig, x + (n - 1), y + r))
  }

  lemma FracRowStep(orig: array2<int>, buf: array2<int>, x: int, y: int, dx: int, dy: int, r: int, n: nat, maxValue: nat, v: int)
    requires IsPlane(orig) && IsPlane(buf)
    requires v == Interpolate(buf, Phase(dx), Phase(dy), (y + dy / 16 - 3) + r, (x + dx / 16 - 3) + n, maxValue)
    ensures FracRow(orig, buf, x, y, dx, dy, r, n + 1, maxValue) ==
            FracRow(orig, buf, x, y, dx, dy, r, n, maxValue) + Sq(v - At(orig, x + n, y + r))
  {
  }

  /** Whole-sample motion: both components are multiples of 16, `((dx | dy) & 0xF) == 0`. */
  predicate FullPel(dx: int, dy: int)
  {
    dx % 16 == 0 && dy % 16 == 0
  }

  /**
   * The per-row errors of a bs x bs block. The whole-sample loop sums column
   * pairs, so an odd bs also reads column bs.
   */
  function RowErrors(orig: array2<int>, buf: array2<int>, x: int, y: int, dx: int, dy: int, bs: nat, maxValue: nat, k: nat): (costs: seq<int>)
    reads orig, buf
    requires IsPlane(orig) && IsPlane(buf)
    ensures |costs| == k
    ensures forall i :: 0 <= i < k ==> costs[i] >= 0
  {
    if k == 0 then []
    else
      RowErrors(orig, buf, x, y, dx, dy, bs, maxValue, k - 1) +
      [if FullPel(dx, dy) then FullPelRow(orig, buf, x, y, dx / 16, dy / 16, k - 1, bs + bs % 2)
       else FracRow(orig, buf, x, y, dx, dy, k - 1, bs, maxValue)]
  }

  /** The error of the block without early exit: the sum of squared differences. */
  function BlockError(orig: array2<int>, buf: array2<int>, x: int, y: int, dx: int, dy: int, bs: nat, bitDepth: nat): (e: int)
    reads orig, buf
    requires IsPlane(orig) && IsPlane(buf)
    ensures e >= 0
  {
    var costs := RowErrors(orig, buf, x, y, dx, dy, bs, Pow2(bitDepth) - 1, bs);
    SumNonNegative(costs);
    Sum(costs)
  }

  /** What motionErrorLuma returns: the running error at the first row that leaves it above besterror, else the whole error. */
  function MotionErrorSpec(orig: array2<int>, buf: array2<int>, x: int, y: int, dx: int, dy: int, bs: nat, bitDepth: nat, besterror: int): int
    reads orig, buf
    requires IsPlane(orig) && IsPlane(buf)
  {
    EarlyExitResult(RowErrors(orig, buf, x, y, dx, dy, bs, Pow2(bitDepth) - 1, bs), 0, 0, besterror)
  }

  lemma ShiftByZero(v: int)
    ensures Shr(v, 0) == v && Shl(v, 0) == v
  {
  }

  /**
   * The early exit never changes the outcome of a comparison with the bound:
   * the returned error is below besterror exactly when the whole error is,
   * and then the two agree.
   */
  lemma EarlyExitKeepsComparison(orig: array2<int>, buf: array2<int>, x: int, y: int, dx: int, dy: int, bs: nat, bitDepth: nat, besterror: int)
    requires IsPlane(orig) && IsPlane(buf)
    ensures MotionErrorSpec(orig, buf, x, y, dx, dy, bs, bitDepth, besterror) < besterror
            <==> BlockError(orig, buf, x, y, dx, dy, bs, bitDepth) < besterror
    ensures BlockError(orig, buf, x, y, dx, dy, bs, bitDepth) <= besterror ==>
            MotionErrorSpec(orig, buf, x, y, dx, dy, bs, bitDepth, besterror) == BlockError(orig, buf, x, y, dx, dy, bs, bitDepth)
  {
    var costs := RowErrors(orig, buf, x, y, dx, dy, bs, Pow2(bitDepth) - 1, bs);
    ShiftByZero(Sum(costs));
    if Sum(costs) <= besterror {
      NoEarlyExitUnderBound(costs, 0, 0, besterror);
    } else if FirstExit(costs, 0, besterror).Some? {
      EarlyExitAboveBound(costs, 0, 0, besterror);
    }
  }

  /** The squared-error sum of one whole-sample row, over column pairs as the loop reads them. */
  method FullPelRowLoop(orig: array2<int>, buf: array2<int>, x: int, y: int, dx: int, dy: int, r: int, bs: nat) returns (e: int)
    requires IsPlane(orig) && IsPlane(buf)
    ensures e == FullPelRow(orig, buf, x, y, dx, dy, r, bs + bs % 2)
  {
    e := 0;
    var x1 := 0;
    while x1 < bs
      invariant x1 % 2 == 0 && x1 <= bs + bs % 2
      invariant e == FullPelRow(orig, buf, x, y, dx, dy, r, x1)
    {
      var diff := At(orig, x + x1, y + r) - At(buf, x + dx + x1, y + r + dy);
      e := e + Sq(diff);
      diff := At(orig, x + x1 + 1, y + r) - At(buf, x + dx + x1 + 1, y + r + dy);
      e := e + Sq(diff);
      x1 := x1 + 2;
    }
  }

  /** The squared-error sum of one interpolated row, from tempArray. */
  method FracRowLoop(orig: array2<int>, ghost buf: array2<int>, temp: array2<int>, x: int, y: int, dx: int, dy: int,
                     r: nat, bs: nat, maxValue: nat) returns (e: int)
    requires IsPlane(orig) && IsPlane(buf)
    requires temp.Length0 == bs + 7 && temp.Length1 == bs && r < bs
    requires forall t, c :: 1 <= t < bs + 7 && 0 <= c < bs ==>
               temp[t, c] == HTap(buf, Phase(dx), y + dy / 16 - 3 + t, x + dx / 16 - 3 + c)
    ensures e == FracRow(orig, buf, x, y, dx, dy, r, bs, maxValue)
  {
    e := 0;
    for c := 0 to bs
      invariant e == FracRow(orig, buf, x, y, dx, dy, r, c, maxValue)
    {
      e := FracColumn(orig, buf, temp, x, y, dx, dy, r, c, bs, maxValue, e);
    }
  }

  /** One column of the interpolated row: adds its squared error to the running sum e. */
  method FracColumn(orig: array2<int>, ghost buf: array2<int>, temp: array2<int>, x: int, y: int, dx: int, dy: int,
                    r: nat, c: nat, bs: nat, maxValue: nat, e: int) returns (e': int)
    requires IsPlane(orig) && IsPlane(buf)
    requires temp.Length0 == bs + 7 && temp.Length1 == bs && r < bs && c < bs
    requires forall t, c :: 1 <= t < bs + 7 && 0 <= c < bs ==>
               temp[t, c] == HTap(buf, Phase(dx), y + dy / 16 - 3 + t, x + dx / 16 - 3 + c)
    requires e == FracRow(orig, buf, x, y, dx, dy, r, c, maxValue)
    ensures e' == FracRow(orig, buf, x, y, dx, dy, r, c + 1, maxValue)
  {
    var v := VerticalSample(buf, temp, Phase(dx), Phase(dy), y + dy / 16 - 3, x + dx / 16 - 3, r, c, maxValue);
    var diff := v - At(orig, x + c, y + r);
    FracRowStep(orig, buf, x, y, dx, dy, r, c, maxValue, v);
    e' := e + Sq(diff);
  }

  /**
   * motionErrorLuma: the squared error of the bs x bs block at (x, y) of orig
   * against buffer displaced by (dx, dy) in 1/16 sample, returned early as soon
   * as a completed row leaves it above besterror. The fractional case keeps its
   * horizontal pass in a 72 x 64 array, so there bs is at most 64.
   */
  method MotionErrorLuma(orig: array2<int>, buffer: array2<int>, x: int, y: int, dx: int, dy: int, bs: nat,
                         besterror: int, bitDepth: nat) returns (error: int)
    requires IsPlane(orig) && IsPlane(buffer)
    requires !FullPel(dx, dy) ==> bs <= 64
    ensures error == MotionErrorSpec(orig, buffer, x, y, dx, dy, bs, bitDepth, besterror)
  {
    if FullPel(dx, dy) {
      error := MotionErrorRows(orig, buffer, null, x, y, dx, dy, bs, besterror, bitDepth);
    } else {
      var temp := HorizontalPass(buffer, Phase(dx), y + dy / 16 - 3, x + dx / 16 - 3, bs, bs);
      error := MotionErrorRows(orig, buffer, temp, x, y, dx, dy, bs, besterror, bitDepth);
    }
  }

  /** The row loop of motionErrorLuma, over the whole-sample rows or the rows of tempArray. */
  method MotionErrorRows(orig: array2<int>, buffer: array2<int>, temp: array2?<int>, x: int, y: int, dx: int, dy: int, bs: nat,
                         besterror: int, bitDepth: nat) returns (error: int)
    requires IsPlane(orig) && IsPlane(buffer)
    requires FullPel(dx, dy) <==> temp == null
    requires temp != null ==> (temp.Length0 == bs + 7 && temp.Length1 == bs &&
               forall t, c :: 1 <= t < bs + 7 && 0 <= c < bs ==>
                 temp[t, c] == HTap(buffer, Phase(dx), y + dy / 16 - 3 + t, x + dx / 16 - 3 + c))
    ensures error == MotionErrorSpec(orig, buffer, x, y, dx, dy, bs, bitDepth, besterror)
  {
    var maxValue := Pow2(bitDepth) - 1;
    ghost var costs := RowErrors(orig, buffer, x, y, dx, dy, bs, maxValue, bs);
    assert MotionErrorSpec(orig, buffer, x, y, dx, dy, bs, bitDepth, besterror) == EarlyExitResult(costs, 0, 0, besterror);
    ShiftByZero(besterror);
    error := 0;
    for y1 := 0 to bs
      invariant error == Sum(costs[..y1])
      invariant FirstExit(costs, 0, besterror) == ExitFrom(costs, 0, besterror, y1 + 1)
    {
      var rowError := RowError(orig, buffer, temp, x, y, dx, dy, bs, y1, maxValue);
      SumSnoc(costs, y1);
      error := error + rowError;
      ShiftByZero(error);
      ExitFromStep(costs, 0, besterror, y1 + 1);
      if error > besterror {
        ExitResultAt(costs, besterror, y1 + 1);
        return;
      }
    }
    ExitResultAtEnd(costs, besterror);
  }

  /** A kernel with no row subsampling and no shift that exits after row k returns the sum of the first k rows. */
  lemma ExitResultAt(costs: seq<int>, bound: int, k: nat)
    requires 1 <= k <= |costs| && FirstExit(costs, 0, bound) == ExitFrom(costs, 0, bound, k)
    requires bound < Sum(costs[..k])
    ensures EarlyExitResult(costs, 0, 0, bound) == Sum(costs[..k])
  {
    ShiftByZero(Sum(costs[..k]));
  }

  /** A kernel with no row subsampling and no shift that never exits returns the sum of all rows. */
  lemma ExitResultAtEnd(costs: seq<int>, bound: int)
    requires FirstExit(costs, 0, bound) == ExitFrom(costs, 0, bound, |costs| + 1)
    ensures EarlyExitResult(costs, 0, 0, bound) == Sum(costs[..|costs|])
  {
    assert costs[..|costs|] == costs;
    ShiftByZero(Sum(costs));
  }


  /** The error of row y1 of the block, by the full-sample or the fractional loop. */
  method RowError(orig: array2<int>, buffer: array2<int>, temp: array2?<int>, x: int, y: int, dx: int, dy: int, bs: nat,
                  y1: nat, maxValue: nat) returns (rowError: int)
    requires IsPlane(orig) && IsPlane(buffer) && y1 < bs
    requires FullPel(dx, dy) <==> temp == null
    requires temp != null ==> (temp.Length0 == bs + 7 && temp.Length1 == bs &&
               forall t, c :: 1 <= t < bs + 7 && 0 <= c < bs ==>
                 temp[t, c] == HTap(buffer, Phase(dx), y + dy / 16 - 3 + t, x + dx / 16 - 3 + c))
    ensures rowError == RowErrors(orig, buffer, x, y, dx, dy, bs, maxValue, bs)[y1]
  {
    if temp == null {
      rowError := FullPelRowLoop(orig, buffer, x, y, dx / 16, dy / 16, y1, bs);
    } else {
      rowError := FracRowLoop(orig, buffer, temp, x, y, dx, dy, y1, bs, maxValue);
    }
    RowErrorsAt(orig, buffer, x, y, dx, dy, bs, maxValue, bs, y1);
  }

  /** Row i of the block's row errors. */
  lemma {:induction false} RowErrorsAt(orig: array2<int>, buf: array2<int>, x: int, y: int, dx: int, dy: int, bs: nat, maxValue: nat, k: nat, i: nat)
    requires IsPlane(orig) && IsPlane(buf) && i < k
    ensures RowErrors(orig, buf, x, y, dx, dy, bs, maxValue, k)[i] ==
            if FullPel(dx, dy) then FullPelRow(orig, buf, x, y, dx / 16, dy / 16, i, bs + bs % 2)
            else FracRow(orig, buf, x, y, dx, dy, i, bs, maxValue)
    decreases k
  {
    if i < k - 1 {
      RowErrorsAt(orig, buf, x, y, dx, dy, bs, maxValue, k - 1, i);
    }
  }

  // ---------------------------------------------------------------------
  // applyMotion
  // ---------------------------------------------------------------------

  /** A motion vector in 1/16 luma sample with its block error (MotionVector of EncTemporalFilter.h). */
  datatype MotionVector = MotionVector(x: int, y: int, error: int)

  /**
   * The value applyMotion writes at row r, column c of a plane whose component
   * scale is (csx, csy): the vector is scaled to the component grid, its
   * integer part moves the taps and `& 0xF` of the scaled vector picks the phase.
   */
  function CompensatedSample(input: array2<int>, mv: MotionVector, csx: nat, csy: nat, r: int, c: int, maxValue: nat): (v: int)
    reads input
    requires IsPlane(input)
    ensures 0 <= v <= maxValue
  {
    Interpolate(input, Phase(Shr(mv.x, csx)), Phase(Shr(mv.y, csy)), r + Shr(mv.y, 4 + csy) - 3, c + Shr(mv.x, 4 + csx) - 3, maxValue)
  }

  /** One block of applyMotion: the bsX x bsY block at (x, y) of output, interpolated with one vector. */
  method CompensateBlock(input: array2<int>, output: array2<int>, mv: MotionVector, csx: nat, csy: nat,
                         x: nat, y: nat, bsX: nat, bsY: nat, maxValue: nat)
    requires IsPlane(input) && input != output
    requires y + bsY <= output.Length0 && x + bsX <= output.Length1
    modifies output
    ensures forall r, c :: y <= r < y + bsY && x <= c < x + bsX ==> output[r, c] == CompensatedSample(input, mv, csx, csy, r, c, maxValue)
    ensures forall r, c :: 0 <= r < output.Length0 && 0 <= c < output.Length1 && !(y <= r < y + bsY && x <= c < x + bsX) ==>
              output[r, c] == old(output[r, c])
  {
    var dx, dy := Shr(mv.x, csx), Shr(mv.y, csy);
    var xInt, yInt := Shr(mv.x, 4 + csx), Shr(mv.y, 4 + csy);
    var temp := HorizontalPass(input, Phase(dx), y + yInt - 3, x + xInt - 3, bsX, bsY);
    ghost var hx := Phase(dx);
    for i := 0 to bsY
      invariant forall t, c :: 1 <= t < bsY + 7 && 0 <= c < bsX ==> temp[t, c] == HTap(input, hx, y + yInt - 3 + t, x + xInt - 3 + c)
      invariant forall r, c :: y <= r < y + i && x <= c < x + bsX ==> output[r, c] == CompensatedSample(input, mv, csx, csy, r, c, maxValue)
      invariant forall r, c :: (0 <= r < output.Length0 && 0 <= c < output.Length1 && !(y <= r < y + i && x <= c < x + bsX)) ==>
                  output[r, c] == old(output[r, c])
    {
      CompensateLine(input, output, temp, mv, csx, csy, x, y, bsX, bsY, y + i, maxValue);
    }
  }

  /** Row `row` of one block of applyMotion, from the horizontally filtered rows in temp. */
  method CompensateLine(input: array2<int>, output: array2<int>, temp: array2<int>, mv: MotionVector, csx: nat, csy: nat,
                        x: nat, y: nat, bsX: nat, bsY: nat, row: nat, maxValue: nat)
    requires IsPlane(input) && output != input && output != temp
    requires y <= row < y + bsY && y + bsY <= output.Length0 && x + bsX <= output.Length1
    requires temp.Length0 == bsY + 7 && temp.Length1 == bsX
    requires forall t, c :: 1 <= t < bsY + 7 && 0 <= c < bsX ==>
               temp[t, c] == HTap(input, Phase(Shr(mv.x, csx)), y + Shr(mv.y, 4 + csy) - 3 + t, x + Shr(mv.x, 4 + csx) - 3 + c)
    modifies output
    ensures forall c :: x <= c < x + bsX ==> output[row, c] == CompensatedSample(input, mv, csx, csy, row, c, maxValue)
    ensures forall r, c :: (0 <= r < output.Length0 && 0 <= c < output.Length1 && !(r == row && x <= c < x + bsX)) ==>
              output[r, c] == old(output[r, c])
  {
    var dx, dy := Shr(mv.x, csx), Shr(mv.y, csy);
    var xInt, yInt := Shr(mv.x, 4 + csx), Shr(mv.y, 4 + csy);
    for j := 0 to bsX
      invariant forall c :: x <= c < x + j ==> output[row, c] == CompensatedSample(input, mv, csx, csy, row, c, maxValue)
      invariant forall r, c :: (0 <= r < output.Length0 && 0 <= c < output.Length1 && !(r == row && x <= c < x + j)) ==>
                  output[r, c] == old(output[r, c])
    {
      var v := VerticalSample(input, temp, Phase(dx), Phase(dy), y + yInt - 3, x + xInt - 3, row - y, j, maxValue);
      output[row, x + j] := v;
    }
  }

  /** Sample c of the run of blocks of size d lies in block c / d. */
  lemma BlockOf(q: int, d: int, i: int)
    requires 0 <= q && 0 <= i < d
    ensures (q * d + i) / d == q
  {
    DivModUnique(q * d + i, d, q, i);
  }

  /** The block of size d holding sample c of a covered run of length n. */
  function BlockIndex(c: nat, d: nat, n: nat): (b: nat)
    requires d > 0 && c < Covered(n, d)
    ensures b == c / d && b < n / d
  {
    CoveredBlocks(c, d, n);
    c / d
  }

  lemma CoveredBlocks(c: nat, d: nat, n: nat)
    requires d > 0 && c < Covered(n, d)
    ensures c / d < n / d
  {
    DivModSplit(c, d);
    DivModSplit(n, d);
    if c / d >= n / d {
      MulNonNegative(c / d - n / d, d);
      assert false;
    }
  }

  /** The part of a length n that whole blocks of size d cover. */
  function Covered(n: nat, d: nat): (m: nat)
    requires d > 0
    ensures m <= n < m + d && m % d == 0
  {
    DivModSplit(n, d);
    MulNonNegative(n / d, d);
    SmallMod(0, d);
    DivModUnique(n / d * d, d, n / d, 0);
    n / d * d
  }

  /**
   * applyMotion on one component plane: every sample of the whole 8x8 luma
   * blocks (4 samples per block along a subsampled chroma axis) is replaced
   * by the interpolation with its block's vector, mvs[blockX, blockY]; the
   * samples right of or below the last whole block keep their old values.
   */
  method ApplyMotionPlane(mvs: array2<MotionVector>, input: array2<int>, output: array2<int>, csx: nat, csy: nat, bitDepth: nat)
    requires IsPlane(input) && input != output && csx <= 1 && csy <= 1
    requires output.Length0 == input.Length0 && output.Length1 == input.Length1
    requires mvs.Length0 >= input.Length1 / Shr(8, csx) && mvs.Length1 >= input.Length0 / Shr(8, csy)
    modifies output
    ensures forall r, c :: 0 <= r < Covered(input.Length0, Shr(8, csy)) && 0 <= c < Covered(input.Length1, Shr(8, csx)) ==>
              output[r, c] == CompensatedSample(input, mvs[BlockIndex(c, Shr(8, csx), input.Length1), BlockIndex(r, Shr(8, csy), input.Length0)],
                                                csx, csy, r, c, Pow2(bitDepth) - 1)
    ensures forall r, c :: (0 <= r < output.Length0 && 0 <= c < output.Length1 &&
              !(r < Covered(input.Length0, Shr(8, csy)) && c < Covered(input.Length1, Shr(8, csx)))) ==>
              output[r, c] == old(output[r, c])
  {
    var bsX, bsY := Shr(8, csx), Shr(8, csy);
    assert Pow2(1) == 2;
    assert bsX == 8 || bsX == 4;
    assert bsY == 8 || bsY == 4;
    CompensateBlockRows(mvs, input, output, csx, csy, bsX, bsY, Pow2(bitDepth) - 1);
  }

  /** The loop of applyMotion over the rows of bsX x bsY blocks, top to bottom. */
  method CompensateBlockRows(mvs: array2<MotionVector>, input: array2<int>, output: array2<int>, csx: nat, csy: nat,
                             bsX: nat, bsY: nat, maxValue: nat)
    requires IsPlane(input) && input != output && bsX > 0 && bsY > 0
    requires output.Length0 == input.Length0 && output.Length1 == input.Length1
    requires mvs.Length0 >= input.Length1 / bsX && mvs.Length1 >= input.Length0 / bsY
    modifies output
    ensures forall r, c :: 0 <= r < Covered(input.Length0, bsY) && 0 <= c < Covered(input.Length1, bsX) ==>
              output[r, c] == CompensatedSample(input, mvs[BlockIndex(c, bsX, input.Length1), BlockIndex(r, bsY, input.Length0)],
                                                csx, csy, r, c, maxValue)
    ensures forall r, c :: (0 <= r < output.Length0 && 0 <= c < output.Length1 &&
              !(r < Covered(input.Length0, bsY) && c < Covered(input.Length1, bsX))) ==>
              output[r, c] == old(output[r, c])
  {
    var height, width := input.Length0, input.Length1;
    ghost var coveredCols := Covered(width, bsX);
    ghost var coveredRows := Covered(height, bsY);
    var y, blockNumY := 0, 0;
    while y + bsY <= height
      invariant y == blockNumY * bsY && y <= coveredRows
      invariant forall r, c :: 0 <= r < y && 0 <= c < coveredCols ==>
                  output[r, c] == CompensatedSample(input, mvs[BlockIndex(c, bsX, width), BlockIndex(r, bsY, height)], csx, csy, r, c, maxValue)
      invariant forall r, c :: 0 <= r < height && 0 <= c < width && !(r < y && c < coveredCols) ==>
                  output[r, c] == old(output[r, c])
      decreases height - y
    {
      BlockNumbers(0, blockNumY, bsX, bsY, 0, y, bsX + width, height);
      CompensateBlockRow(mvs, input, output, csx, csy, y, blockNumY, bsX, bsY, maxValue);
      BlockColumns(blockNumY, y, height, bsY);
      MulSucc(blockNumY, bsY);
      y, blockNumY := y + bsY, blockNumY + 1;
    }
    CoveredAtExit(blockNumY, y, height, bsY);
  }

  /** One row of blocks of applyMotion: the blocks whose top row is y, left to right. */
  method CompensateBlockRow(mvs: array2<MotionVector>, input: array2<int>, output: array2<int>, csx: nat, csy: nat,
                            y: nat, blockNumY: nat, bsX: nat, bsY: nat, maxValue: nat)
    requires IsPlane(input) && input != output && bsX > 0
    requires output.Length0 == input.Length0 && output.Length1 == input.Length1
    requires y + bsY <= input.Length0 && blockNumY < mvs.Length1 && mvs.Length0 >= input.Length1 / bsX
    modifies output
    ensures forall r, c :: y <= r < y + bsY && 0 <= c < Covered(input.Length1, bsX) ==>
              output[r, c] == CompensatedSample(input, mvs[BlockIndex(c, bsX, input.Length1), blockNumY], csx, csy, r, c, maxValue)
    ensures forall r, c :: 0 <= r < output.Length0 && 0 <= c < output.Length1 && !(y <= r < y + bsY && c < Covered(input.Length1, bsX)) ==>
              output[r, c] == old(output[r, c])
  {
    var width := input.Length1;
    ghost var coveredCols := Covered(width, bsX);
    var x, blockNumX := 0, 0;
    while x + bsX <= width
      invariant x == blockNumX * bsX && x <= coveredCols
      invariant forall r, c :: y <= r < y + bsY && 0 <= c < x ==>
                  output[r, c] == CompensatedSample(input, mvs[BlockIndex(c, bsX, width), blockNumY], csx, csy, r, c, maxValue)
      invariant forall r, c :: 0 <= r < output.Length0 && 0 <= c < width && !(y <= r < y + bsY && c < x) ==>
                  output[r, c] == old(output[r, c])
      decreases width - x
    {
      CompensateBlockAt(mvs, input, output, csx, csy, x, y, blockNumX, blockNumY, bsX, bsY, maxValue);
      BlockColumns(blockNumX, x, width, bsX);
      MulSucc(blockNumX, bsX);
      x, blockNumX := x + bsX, blockNumX + 1;
    }
    CoveredAtExit(blockNumX, x, width, bsX);
  }

  /** The block numbered (blockNumX, blockNumY) of applyMotion, compensated with its own vector. */
  method CompensateBlockAt(mvs: array2<MotionVector>, input: array2<int>, output: array2<int>, csx: nat, csy: nat,
                           x: nat, y: nat, blockNumX: nat, blockNumY: nat, bsX: nat, bsY: nat, maxValue: nat)
    requires IsPlane(input) && input != output && bsX > 0
    requires output.Length0 == input.Length0 && output.Length1 == input.Length1
    requires x == blockNumX * bsX && x + bsX <= input.Length1 && y + bsY <= input.Length0
    requires blockNumY < mvs.Length1 && mvs.Length0 >= input.Length1 / bsX
    modifies output
    ensures forall r, c :: y <= r < y + bsY && x <= c < x + bsX ==>
              output[r, c] == CompensatedSample(input, mvs[blockNumX, blockNumY], csx, csy, r, c, maxValue)
    ensures forall r, c :: (0 <= r < output.Length0 && 0 <= c < output.Length1 && !(y <= r < y + bsY && x <= c < x + bsX)) ==>
              output[r, c] == old(output[r, c])
  {
    BlockNumbers(blockNumX, 0, bsX, 1, x, 0, input.Length1, 1);
    var mv := mvs[blockNumX, blockNumY];
    CompensateBlock(input, output, mv, csx, csy, x, y, bsX, bsY, maxValue);
  }

  /** Every sample of the whole block q of size d lies in block q of the covered part. */
  lemma BlockColumns(q: nat, x: nat, n: nat, d: nat)
    requires d > 0 && x == q * d && x + d <= n
    ensures x + d <= Covered(n, d)
    ensures forall c :: x <= c < x + d ==> BlockIndex(c, d, n) == q
  {
    BandCovered(q, x, x + d - 1, n, d);
    forall c | x <= c < x + d
      ensures BlockIndex(c, d, n) == q
    {
      BlockOf(q, d, c - x);
    }
  }

  /** A whole block starting at a multiple of d lies inside the covered part. */
  lemma BandCovered(q: nat, x: nat, c: nat, n: nat, d: nat)
    requires d > 0 && x == q * d && x + d <= n && x <= c < x + d
    ensures c < Covered(n, d)
  {
    var m := Covered(n, d);
    DivModSplit(m, d);
    if x + d > m {
      assert q < m / d by {
        if q >= m / d {
          MulNonNegative(q - m / d, d);
        }
      }
      MulAtLeast(m / d - q, d);
      assert false;
    }
  }

  /** The block numbers of a whole block inside the plane index mvs. */
  lemma BlockNumbers(bnx: nat, bny: nat, bsX: nat, bsY: nat, x: nat, y: nat, width: nat, height: nat)
    requires bsX > 0 && bsY > 0 && x == bnx * bsX && y == bny * bsY && x + bsX <= width && y + bsY <= height
    ensures bnx < width / bsX && bny < height / bsY
  {
    DivModSplit(width, bsX);
    DivModSplit(height, bsY);
    if bnx >= width / bsX {
      MulNonNegative(bnx - width / bsX, bsX);
      assert false;
    }
    if bny >= height / bsY {
      MulNonNegative(bny - height / bsY, bsY);
      assert false;
    }
  }

  /** A block loop that stops at the first block not fitting has covered exactly Covered(n, d). */
  lemma CoveredAtExit(q: nat, x: nat, n: nat, d: nat)
    requires d > 0 && x == q * d && x <= Covered(n, d) && x + d > n
    ensures x == Covered(n, d)
  {
    var m := Covered(n, d);
    DivModSplit(m, d);
    if x < m {
      assert q < m / d by {
        if q >= m / d {
          MulNonNegative(q - m / d, d);
        }
      }
      MulAtLeast(m / d - q, d);
      assert false;
    }
  }
}
