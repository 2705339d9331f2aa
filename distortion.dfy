/**
 * The block distortion kernels of the rate-distortion cost engine
 * (RdCost.cpp): SAD, full-bit-depth SAD, mean-removed SAD, SSE and SAD
 * under a sample mask. Each family has a generic kernel and unrolled
 * fixed-width kernels; every kernel is proved to compute a reference
 * value defined over the rows it samples.
 *
 * A block is a sequence of rows; the source's pointer-and-stride access
 * becomes row indexing. Row subsampling visits rows 0, 2^subShift,
 * 2*2^subShift, ... and scales the sum back up by 2^subShift.
 */
module Distortion {
  import opened Common

  /** The subset of `DistParam` the metric kernels read. */
  datatype DistParam = DistParam(
    org: seq<seq<int>>,
    cur: seq<seq<int>>,
    width: nat,
    height: nat,
    precShift: nat,     // DISTORTION_PRECISION_ADJUSTMENT(bitDepth)
    subShift: nat,
    maxDist: int,       // maximumDistortionForEarlyExit
    applyWeight: bool,
    step: int,
    compID: ComponentId)

  /** Largest value of the 64-bit unsigned `Distortion` type. */
  const MaxDistortion: int := 0xFFFF_FFFF_FFFF_FFFF

  /** org and cur are both `height` rows of `width` samples. */
  predicate Shaped(p: DistParam)
  {
    |p.org| == p.height && |p.cur| == p.height &&
    forall i :: 0 <= i < p.height ==> |p.org[i]| == p.width && |p.cur[i]| == p.width
  }

  /**
   * The row loops count `rows` down by 2^subShift until it is zero, so
   * they stop only when the height is a multiple of the row step.
   */
  predicate Sampling(p: DistParam)
  {
    p.height % Pow2(p.subShift) == 0
  }

  predicate Wellformed(p: DistParam)
  {
    Shaped(p) && Sampling(p)
  }

  // ----- per-sample terms -----

  function SadTerm(a: int, b: int): int
  {
    Abs(a - b)
  }

  function DeltaTerm(a: int, b: int): int
  {
    a - b
  }

  function OffsetSadTerm(offset: int): (int, int) -> int
  {
    (a: int, b: int) => Abs(a - b - offset)
  }

  /** `(d * d) >> shift` for the difference d. */
  function SseTerm(shift: nat): (int, int) -> int
  {
    (a: int, b: int) => Shr((a - b) * (a - b), shift)
  }

  // ----- reference values -----

  /** Sum of a per-sample term over a row pair. */
  function RowSum(o: seq<int>, c: seq<int>, f: (int, int) -> int): int
  {
    if |o| == 0 || |c| == 0 then 0
    else RowSum(o[..|o| - 1], c[..|c| - 1], f) + f(o[|o| - 1], c[|c| - 1])
  }

  /** One row sum per visited row. */
  function RowCosts(O: seq<seq<int>>, C: seq<seq<int>>, f: (int, int) -> int): (costs: seq<int>)
    requires |O| == |C|
    ensures |costs| == |O|
    ensures forall i :: 0 <= i < |O| ==> costs[i] == RowSum(O[i], C[i], f)
  {
    seq(|O|, i requires 0 <= i < |O| => RowSum(O[i], C[i], f))
  }

  /** Row sums over rows 0, step, 2*step, ... of a pair of blocks. */
  function StepCosts(org: seq<seq<int>>, cur: seq<seq<int>>, step: nat, f: (int, int) -> int): (costs: seq<int>)
    requires step > 0 && |org| == |cur| && |org| % step == 0
    ensures |costs| == |org| / step
  {
    SampledRowsCount(org, step);
    SampledRowsCount(cur, step);
    RowCosts(SampledRows(org, step), SampledRows(cur, step), f)
  }

  /** Row sums over the rows a subsampling kernel visits. */
  function SampledCosts(p: DistParam, f: (int, int) -> int): seq<int>
    requires Wellformed(p)
  {
    StepCosts(p.org, p.cur, Pow2(p.subShift), f)
  }

  /** SAD of the sampled rows, scaled back up and shifted to the common precision. */
  function SadSpec(p: DistParam): int
    requires Wellformed(p)
  {
    Shr(Shl(Sum(SampledCosts(p, SadTerm)), p.subShift), p.precShift)
  }

  /** Full-bit-depth SAD: scaled back up, no precision shift. */
  function SadFullSpec(p: DistParam): int
    requires Wellformed(p)
  {
    Shl(Sum(SampledCosts(p, SadTerm)), p.subShift)
  }

  /** Number of rows a subsampling kernel visits: `rows >> subShift`. */
  function SampledRowCount(p: DistParam): nat
  {
    ShrNonNegative(p.height, p.subShift);
    Shr(p.height, p.subShift)
  }

  /**
   * The mean offset of MRSAD: sum of org - cur over the visited samples,
   * divided (truncating) by their number.
   */
  function MrSadOffset(p: DistParam): int
    requires Wellformed(p) && p.width > 0 && p.height > 0
  {
    HeightCountPositive(p);
    CDiv(Sum(SampledCosts(p, DeltaTerm)), p.width * SampledRowCount(p))
  }

  function MrSadSpec(p: DistParam): int
    requires Wellformed(p) && p.width > 0 && p.height > 0
  {
    Shr(Shl(Sum(SampledCosts(p, OffsetSadTerm(MrSadOffset(p)))), p.subShift), p.precShift)
  }

  /** SSE over all rows; the per-term shift is twice the precision adjustment. */
  function SseSpec(p: DistParam): int
    requires Shaped(p)
  {
    Sum(RowCosts(p.org, p.cur, SseTerm(2 * p.precShift)))
  }

  lemma HeightCountPositive(p: DistParam)
    requires Wellformed(p) && p.width > 0 && p.height > 0
    ensures SampledRowCount(p) >= 1 && p.width * SampledRowCount(p) >= 1
  {
    StepDown(p.height, Pow2(p.subShift));
    DivModUnique(p.height, Pow2(p.subShift), p.height / Pow2(p.subShift), p.height % Pow2(p.subShift));
    MulAtLeast(p.width, SampledRowCount(p));
  }

  // ----- row loops -----

  /** The column loop: the term summed over a row, one sample at a time. */
  method RowLoop(o: seq<int>, c: seq<int>, f: (int, int) -> int) returns (s: int)
    requires |o| == |c|
    ensures s == RowSum(o, c, f)
  {
    s := 0;
    var n := 0;
    while n < |o|
      invariant 0 <= n <= |o|
      invariant s == RowSum(o[..n], c[..n], f)
    {
      assert o[..n + 1][..n] == o[..n] && c[..n + 1][..n] == c[..n];
      s := s + f(o[n], c[n]);
      n := n + 1;
    }
    assert o[..n] == o && c[..n] == c;
  }

  /** The column loop of the `16N` kernels: sixteen samples per step. */
  method RowLoop16(o: seq<int>, c: seq<int>, f: (int, int) -> int) returns (s: int)
    requires |o| == |c| && |o| % 16 == 0
    ensures s == RowSum(o, c, f)
  {
    s := 0;
    var n := 0;
    while n < |o|
      invariant 0 <= n <= |o| && n % 16 == 0
      invariant s == RowSum(o[..n], c[..n], f)
    {
      var j := 0;
      while j < 16
        invariant 0 <= j <= 16 && n + j <= |o|
        invariant s == RowSum(o[..n + j], c[..n + j], f)
      {
        assert o[..n + j + 1][..n + j] == o[..n + j] && c[..n + j + 1][..n + j] == c[..n + j];
        s := s + f(o[n + j], c[n + j]);
        j := j + 1;
      }
      n := n + 16;
    }
    assert o[..n] == o && c[..n] == c;
  }

  predicate RowsMatch(org: seq<seq<int>>, cur: seq<seq<int>>, by16: bool)
  {
    |org| == |cur| &&
    (forall i :: 0 <= i < |org| ==> |org[i]| == |cur[i]|) &&
    (by16 ==> forall i :: 0 <= i < |org| ==> |org[i]| % 16 == 0)
  }

  /**
   * The row loop of the kernels without early exit: the sum of the row
   * sums over rows 0, step, 2*step, ...
   */
  method SampledSum(org: seq<seq<int>>, cur: seq<seq<int>>, step: nat, f: (int, int) -> int, by16: bool)
    returns (sum: int)
    requires step > 0 && |org| % step == 0 && RowsMatch(org, cur, by16)
    ensures sum == Sum(StepCosts(org, cur, step, f))
  {
    ghost var costs := StepCosts(org, cur, step, f);
    ghost var O := SampledRows(org, step);
    ghost var C := SampledRows(cur, step);
    var rows := |org|;
    var pos := 0;
    ghost var k := 0;
    sum := 0;
    while rows != 0
      invariant pos + rows == |org| && 0 <= rows && rows % step == 0
      invariant 0 <= k <= |O| && k <= |C|
      invariant SampledRows(org[pos..], step) == O[k..]
      invariant SampledRows(cur[pos..], step) == C[k..]
      invariant sum == Sum(costs[..k])
      decreases rows
    {
      SampledAdvance(org, cur, O, C, pos, rows, k, step);
      var rs;
      if by16 {
        rs := RowLoop16(org[pos], cur[pos], f);
      } else {
        rs := RowLoop(org[pos], cur[pos], f);
      }
      SumSnoc(costs, k);
      sum := sum + rs;
      pos := pos + step;
      rows := rows - step;
      k := k + 1;
    }
    assert costs[..k] == costs;
  }

  /**
   * The row loop of the generic kernels: after each visited row, return
   * the shifted running sum if it is above the bound.
   */
  method SampledSumEarlyExit(org: seq<seq<int>>, cur: seq<seq<int>>, subShift: nat, prec: nat, bound: int,
                             f: (int, int) -> int)
    returns (r: int)
    requires |org| % Pow2(subShift) == 0 && RowsMatch(org, cur, false)
    ensures r == EarlyExitResult(StepCosts(org, cur, Pow2(subShift), f), subShift, prec, bound)
  {
    var step := Pow2(subShift);
    SampledRowWidths(org, cur, step);
    var sum, exited;
    ghost var k;
    sum, exited, k := EarlyExitLoop(SampledRows(org, step), SampledRows(cur, step), prec, bound, f);
    if exited {
      r := sum;
    } else {
      r := Shr(Shl(sum, subShift), prec);
    }
  }

  /**
   * The visited rows of SampledSumEarlyExit, in order: either the shifted
   * running sum at the first row where it passes the bound, or the full
   * unshifted sum.
   */
  method EarlyExitLoop(O: seq<seq<int>>, C: seq<seq<int>>, prec: nat, bound: int, f: (int, int) -> int)
    returns (sum: int, exited: bool, ghost k: nat)
    requires RowsMatch(O, C, false)
    ensures exited ==> 1 <= k <= |O| && FirstExit(RowCosts(O, C, f), prec, bound) == Some(k)
                       && sum == Shr(Sum(RowCosts(O, C, f)[..k]), prec)
    ensures !exited ==> FirstExit(RowCosts(O, C, f), prec, bound) == None && sum == Sum(RowCosts(O, C, f))
  {
    ghost var costs := RowCosts(O, C, f);
    var n := 0;
    sum := 0;
    while n < |O|
      invariant 0 <= n <= |O|
      invariant sum == Sum(costs[..n])
      invariant forall j :: 1 <= j <= n ==> !Exceeds(costs, j, prec, bound)
    {
      var rs := RowLoop(O[n], C[n], f);
      SumSnoc(costs, n);
      sum := sum + rs;
      n := n + 1;
      if bound < Shr(sum, prec) {
        FirstExitAt(costs, prec, bound, n);
        return Shr(sum, prec), true, n;
      }
    }
    k := n;
    assert costs[..n] == costs;
    FirstExitNone(costs, prec, bound);
    exited := false;
  }

  // ----- SAD -----

  /** xGetSAD: with the weighted-prediction variant the call is delegated. */
  method Sad(p: DistParam, weighted: DistParam -> int) returns (r: int)
    requires Wellformed(p)
    ensures p.applyWeight ==> r == weighted(p)
    ensures !p.applyWeight ==> r == EarlyExitResult(SampledCosts(p, SadTerm), p.subShift, p.precShift, p.maxDist)
  {
    if p.applyWeight {
      return weighted(p);
    }
    r := SampledSumEarlyExit(p.org, p.cur, p.subShift, p.precShift, p.maxDist, SadTerm);
  }

  /** The widths that have an unrolled SAD / MRSAD kernel. */
  predicate SadKernelWidth(n: nat)
  {
    n == 4 || n == 8 || n == 12 || n == 16 || n == 24 || n == 32 || n == 48 || n == 64
  }

  /** xGetSAD4 ... xGetSAD64: fixed width, no early exit. */
  method SadFixed(p: DistParam, n: nat, weighted: DistParam -> int) returns (r: int)
    requires Wellformed(p) && SadKernelWidth(n) && p.width == n
    ensures p.applyWeight ==> r == weighted(p)
    ensures !p.applyWeight ==> r == SadSpec(p)
  {
    if p.applyWeight {
      return weighted(p);
    }
    var sum := SampledSum(p.org, p.cur, Pow2(p.subShift), SadTerm, false);
    r := Shr(Shl(sum, p.subShift), p.precShift);
  }

  /** xGetSAD16N: any multiple of 16 columns; this kernel never delegates. */
  method Sad16N(p: DistParam) returns (r: int)
    requires Wellformed(p) && p.width % 16 == 0
    ensures r == SadSpec(p)
  {
    var sum := SampledSum(p.org, p.cur, Pow2(p.subShift), SadTerm, true);
    r := Shr(Shl(sum, p.subShift), p.precShift);
  }

  /** xGetSAD_full: refuses weighted prediction, keeps the full bit depth. */
  method SadFull(p: DistParam) returns (r: Result<int>)
    requires Wellformed(p)
    ensures p.applyWeight <==> r.CheckFailed?
    ensures r.Ok? ==> r.value == SadFullSpec(p)
  {
    if p.applyWeight {
      return CheckFailed("Cannot apply weight when using full-bit SAD!");
    }
    var sum := SampledSum(p.org, p.cur, Pow2(p.subShift), SadTerm, false);
    r := Ok(Shl(sum, p.subShift));
  }

  // ----- MRSAD -----

  /** The first pass of every MRSAD kernel: the truncated mean difference. */
  method MrSadMean(p: DistParam, by16: bool) returns (offset: int)
    requires Wellformed(p) && p.width > 0 && p.height > 0
    requires by16 ==> p.width % 16 == 0
    ensures offset == MrSadOffset(p)
  {
    var deltaSum := SampledSum(p.org, p.cur, Pow2(p.subShift), DeltaTerm, by16);
    HeightCountPositive(p);
    offset := CDiv(deltaSum, p.width * Shr(p.height, p.subShift));
  }

  /** xGetMRSAD: generic width, early exit in the second pass. */
  method MrSad(p: DistParam) returns (r: int)
    requires Wellformed(p) && p.width > 0 && p.height > 0
    ensures r == EarlyExitResult(SampledCosts(p, OffsetSadTerm(MrSadOffset(p))), p.subShift, p.precShift, p.maxDist)
  {
    var offset := MrSadMean(p, false);
    r := SampledSumEarlyExit(p.org, p.cur, p.subShift, p.precShift, p.maxDist, OffsetSadTerm(offset));
  }

  /** xGetMRSAD4 ... xGetMRSAD64: fixed width, no early exit. */
  method MrSadFixed(p: DistParam, n: nat) returns (r: int)
    requires Wellformed(p) && SadKernelWidth(n) && p.width == n && p.height > 0
    ensures r == MrSadSpec(p)
  {
    var offset := MrSadMean(p, false);
    var sum := SampledSum(p.org, p.cur, Pow2(p.subShift), OffsetSadTerm(offset), false);
    r := Shr(Shl(sum, p.subShift), p.precShift);
  }

  /** xGetMRSAD16N */
  method MrSad16N(p: DistParam) returns (r: int)
    requires Wellformed(p) && p.width % 16 == 0 && p.width > 0 && p.height > 0
    ensures r == MrSadSpec(p)
  {
    var offset := MrSadMean(p, true);
    var sum := SampledSum(p.org, p.cur, Pow2(p.subShift), OffsetSadTerm(offset), true);
    r := Shr(Shl(sum, p.subShift), p.precShift);
  }

  // ----- SSE -----

  /** xGetSSE: every row, no early exit. */
  method Sse(p: DistParam, weighted: DistParam -> int) returns (r: int)
    requires Shaped(p)
    ensures p.applyWeight ==> r == weighted(p)
    ensures !p.applyWeight ==> r == SseSpec(p)
  {
    if p.applyWeight {
      return weighted(p);
    }
    SampledRowsAll(p.org);
    SampledRowsAll(p.cur);
    r := SampledSum(p.org, p.cur, 1, SseTerm(2 * p.precShift), false);
  }

  predicate SseKernelWidth(n: nat)
  {
    n == 4 || n == 8 || n == 16 || n == 32 || n == 64
  }

  /** xGetSSE4 ... xGetSSE64: the weighted path first checks the width. */
  method SseFixed(p: DistParam, n: nat, weighted: DistParam -> int) returns (r: Result<int>)
    requires Shaped(p) && SseKernelWidth(n)
    requires !p.applyWeight ==> p.width == n
    ensures p.applyWeight && p.width != n <==> r.CheckFailed?
    ensures p.applyWeight && p.width == n ==> r == Ok(weighted(p))
    ensures !p.applyWeight ==> r == Ok(SseSpec(p))
  {
    if p.applyWeight {
      if p.width != n {
        return CheckFailed("Invalid size");
      }
      return Ok(weighted(p));
    }
    SampledRowsAll(p.org);
    SampledRowsAll(p.cur);
    var sum := SampledSum(p.org, p.cur, 1, SseTerm(2 * p.precShift), false);
    r := Ok(sum);
  }

  /** xGetSSE16N */
  method Sse16N(p: DistParam, weighted: DistParam -> int) returns (r: int)
    requires Shaped(p) && p.width % 16 == 0
    ensures p.applyWeight ==> r == weighted(p)
    ensures !p.applyWeight ==> r == SseSpec(p)
  {
    if p.applyWeight {
      return weighted(p);
    }
    SampledRowsAll(p.org);
    SampledRowsAll(p.cur);
    r := SampledSum(p.org, p.cur, 1, SseTerm(2 * p.precShift), true);
  }

  // ----- properties of the reference values -----

  lemma {:induction false} RowSumNonNegative(o: seq<int>, c: seq<int>, f: (int, int) -> int)
    requires forall a: int, b: int :: f(a, b) >= 0
    ensures RowSum(o, c, f) >= 0
    decreases |o|
  {
    if |o| > 0 && |c| > 0 {
      RowSumNonNegative(o[..|o| - 1], c[..|c| - 1], f);
    }
  }

  lemma {:induction false} RowSumSameRow(o: seq<int>, f: (int, int) -> int)
    requires forall a: int :: f(a, a) == 0
    ensures RowSum(o, o, f) == 0
    decreases |o|
  {
    if |o| > 0 {
      RowSumSameRow(o[..|o| - 1], f);
    }
  }

  lemma {:induction false} RowSumSwap(o: seq<int>, c: seq<int>, f: (int, int) -> int)
    requires forall a: int, b: int :: f(a, b) == f(b, a)
    ensures RowSum(o, c, f) == RowSum(c, o, f)
    decreases |o|
  {
    if |o| > 0 && |c| > 0 {
      RowSumSwap(o[..|o| - 1], c[..|c| - 1], f);
    }
  }

  lemma CostsNonNegative(O: seq<seq<int>>, C: seq<seq<int>>, f: (int, int) -> int)
    requires |O| == |C|
    requires forall a: int, b: int :: f(a, b) >= 0
    ensures forall i :: 0 <= i < |O| ==> RowCosts(O, C, f)[i] >= 0
    ensures Sum(RowCosts(O, C, f)) >= 0
  {
    forall i | 0 <= i < |O|
      ensures RowCosts(O, C, f)[i] >= 0
    {
      RowSumNonNegative(O[i], C[i], f);
    }
    SumNonNegative(RowCosts(O, C, f));
  }

  lemma SampledCostsSameBlock(p: DistParam, f: (int, int) -> int)
    requires Wellformed(p) && p.org == p.cur
    requires forall a: int :: f(a, a) == 0
    ensures Sum(SampledCosts(p, f)) == 0
  {
    var costs := SampledCosts(p, f);
    forall i | 0 <= i < |costs|
      ensures costs[i] == 0
    {
      RowSumSameRow(SampledRows(p.org, Pow2(p.subShift))[i], f);
    }
    SumAllZero(costs);
  }

  lemma SseTermSame(sh: nat, a: int)
    ensures SseTerm(sh)(a, a) == 0
  {
    assert (a - a) * (a - a) == 0;
    assert SseTerm(sh)(a, a) == Shr(0, sh);
    DivModUnique(0, Pow2(sh), 0, 0);
  }

  /** A block compared with itself has no SAD, MRSAD or SSE. */
  lemma IdenticalBlocksNoDistortion(p: DistParam)
    requires Wellformed(p) && p.org == p.cur
    ensures SadSpec(p) == 0 && SadFullSpec(p) == 0 && SseSpec(p) == 0
    ensures p.width > 0 && p.height > 0 ==> MrSadSpec(p) == 0
  {
    SampledCostsSameBlock(p, SadTerm);
    var sh := 2 * p.precShift;
    var sse := RowCosts(p.org, p.cur, SseTerm(sh));
    forall a: int
      ensures SseTerm(sh)(a, a) == 0
    {
      SseTermSame(sh, a);
    }
    forall i | 0 <= i < |sse|
      ensures sse[i] == 0
    {
      RowSumSameRow(p.org[i], SseTerm(sh));
    }
    SumAllZero(sse);
    if p.width > 0 && p.height > 0 {
      SampledCostsSameBlock(p, DeltaTerm);
      HeightCountPositive(p);
      assert MrSadOffset(p) == 0;
      SampledCostsSameBlock(p, OffsetSadTerm(0));
    }
  }

  function Swapped(p: DistParam): DistParam
  {
    p.(org := p.cur, cur := p.org)
  }

  /** SAD and SSE do not depend on which block is the original. */
  lemma DistortionSymmetric(p: DistParam)
    requires Wellformed(p)
    ensures Wellformed(Swapped(p))
    ensures SadSpec(Swapped(p)) == SadSpec(p)
    ensures SadFullSpec(Swapped(p)) == SadFullSpec(p)
    ensures SseSpec(Swapped(p)) == SseSpec(p)
  {
    SadCostsSymmetric(p);
    SseCostsSymmetric(p);
  }

  lemma SadCostsSymmetric(p: DistParam)
    requires Wellformed(p)
    ensures Wellformed(Swapped(p))
    ensures Sum(SampledCosts(Swapped(p), SadTerm)) == Sum(SampledCosts(p, SadTerm))
  {
    var q := Swapped(p);
    var a, b := SampledCosts(p, SadTerm), SampledCosts(q, SadTerm);
    forall i | 0 <= i < |a|
      ensures a[i] == b[i]
    {
      RowSumSwap(SampledRows(p.org, Pow2(p.subShift))[i], SampledRows(p.cur, Pow2(p.subShift))[i], SadTerm);
    }
    SumPointwiseEqual(a, b);
  }

  lemma SseCostsSymmetric(p: DistParam)
    requires Shaped(p)
    ensures Shaped(Swapped(p)) && SseSpec(Swapped(p)) == SseSpec(p)
  {
    var q := Swapped(p);
    var c, d := RowCosts(p.org, p.cur, SseTerm(2 * p.precShift)), RowCosts(q.org, q.cur, SseTerm(2 * p.precShift));
    forall i | 0 <= i < |c|
      ensures c[i] == d[i]
    {
      RowSumSwap(p.org[i], p.cur[i], SseTerm(2 * p.precShift));
    }
    SumPointwiseEqual(c, d);
  }

  /**
   * Unless the running SAD passes the early-exit bound, the generic
   * kernel returns the same value as the unrolled ones.
   */
  lemma SadEarlyExitAgrees(p: DistParam)
    requires Wellformed(p)
    requires Shr(Sum(SampledCosts(p, SadTerm)), p.precShift) <= p.maxDist
    ensures EarlyExitResult(SampledCosts(p, SadTerm), p.subShift, p.precShift, p.maxDist) == SadSpec(p)
  {
    var step := Pow2(p.subShift);
    SampledRowsCount(p.org, step);
    SampledRowsCount(p.cur, step);
    CostsNonNegative(SampledRows(p.org, step), SampledRows(p.cur, step), SadTerm);
    NoEarlyExitUnderBound(SampledCosts(p, SadTerm), p.subShift, p.precShift, p.maxDist);
  }

  /**
   * With the default bound of setDistParam (the largest Distortion) the
   * early exit never fires on a SAD that fits the 64-bit type.
   */
  lemma SadDefaultBoundNoExit(p: DistParam)
    requires Wellformed(p) && p.maxDist == MaxDistortion
    requires Sum(SampledCosts(p, SadTerm)) <= MaxDistortion
    ensures EarlyExitResult(SampledCosts(p, SadTerm), p.subShift, p.precShift, p.maxDist) == SadSpec(p)
  {
    var step := Pow2(p.subShift);
    SampledRowsCount(p.org, step);
    SampledRowsCount(p.cur, step);
    CostsNonNegative(SampledRows(p.org, step), SampledRows(p.cur, step), SadTerm);
    ShrAtMost(Sum(SampledCosts(p, SadTerm)), p.precShift);
    SadEarlyExitAgrees(p);
  }

  /** `cur` is `org` with the constant `k` added to every sample. */
  predicate ShiftedBy(org: seq<seq<int>>, cur: seq<seq<int>>, k: int)
  {
    |org| == |cur| &&
    forall i :: 0 <= i < |org| ==>
      |org[i]| == |cur[i]| && forall j :: 0 <= j < |org[i]| ==> cur[i][j] == org[i][j] + k
  }

  predicate RowsOfWidth(b: seq<seq<int>>, w: int)
  {
    forall i :: 0 <= i < |b| ==> |b[i]| == w
  }

  lemma {:induction false} SampledShiftedBy(org: seq<seq<int>>, cur: seq<seq<int>>, step: nat, k: int, w: int)
    requires step > 0 && ShiftedBy(org, cur, k) && RowsOfWidth(org, w)
    ensures ShiftedBy(SampledRows(org, step), SampledRows(cur, step), k)
    ensures RowsOfWidth(SampledRows(org, step), w)
    decreases |org|
  {
    if |org| > step {
      SampledShiftedBy(org[step..], cur[step..], step, k, w);
    }
  }

  lemma {:induction false} RowSumShifted(o: seq<int>, c: seq<int>, k: int, f: (int, int) -> int, v: int)
    requires |o| == |c| && forall j :: 0 <= j < |o| ==> c[j] == o[j] + k
    requires forall a: int, b: int :: b == a + k ==> f(a, b) == v
    ensures RowSum(o, c, f) == v * |o|
    decreases |o|
  {
    if |o| > 0 {
      var n := |o| - 1;
      RowSumShifted(o[..n], c[..n], k, f, v);
      assert RowSum(o, c, f) == RowSum(o[..n], c[..n], f) + f(o[n], c[n]);
      assert v * |o| == v * n + v;
    }
  }

  lemma DeltaSumOfShift(p: DistParam, k: int)
    requires Wellformed(p) && ShiftedBy(p.org, p.cur, k)
    ensures Sum(SampledCosts(p, DeltaTerm)) == (-k * p.width) * |SampledRows(p.org, Pow2(p.subShift))|
  {
    var step := Pow2(p.subShift);
    var O, C := SampledRows(p.org, step), SampledRows(p.cur, step);
    assert RowsOfWidth(p.org, p.width);
    SampledShiftedBy(p.org, p.cur, step, k, p.width);
    var deltas := SampledCosts(p, DeltaTerm);
    forall i | 0 <= i < |O|
      ensures deltas[i] == -k * p.width
    {
      RowSumShifted(O[i], C[i], k, DeltaTerm, -k);
    }
    SumConstant(deltas, -k * p.width);
  }

  lemma MrSadOffsetOfShift(p: DistParam, k: int)
    requires Wellformed(p) && p.width > 0 && p.height > 0 && ShiftedBy(p.org, p.cur, k)
    ensures MrSadOffset(p) == -k
  {
    var step := Pow2(p.subShift);
    DeltaSumOfShift(p, k);
    SampledRowsCount(p.org, step);
    var K := SampledRowCount(p);
    var N := p.width * K;
    HeightCountPositive(p);
    MulAssociative(-k, p.width, K);
    CDivExact(-k, N);
  }

  /**
   * MRSAD removes a constant brightness offset: when every sample of cur
   * is the org sample plus k, the mean offset is -k and nothing remains.
   */
  lemma MrSadRemovesConstantOffset(p: DistParam, k: int)
    requires Wellformed(p) && p.width > 0 && p.height > 0 && ShiftedBy(p.org, p.cur, k)
    ensures MrSadOffset(p) == -k
    ensures MrSadSpec(p) == 0
  {
    MrSadOffsetOfShift(p, k);
    var step := Pow2(p.subShift);
    var O, C := SampledRows(p.org, step), SampledRows(p.cur, step);
    assert RowsOfWidth(p.org, p.width);
    SampledShiftedBy(p.org, p.cur, step, k, p.width);
    var g := OffsetSadTerm(-k);
    var rest := SampledCosts(p, g);
    forall a: int, b: int | b == a + k
      ensures g(a, b) == 0
    {
      assert g(a, b) == Abs(a - b + k);
    }
    forall i | 0 <= i < |rest|
      ensures rest[i] == 0
    {
      RowSumShifted(O[i], C[i], k, g, 0);
    }
    SumAllZero(rest);
    assert MrSadSpec(p) == Shr(Shl(Sum(rest), p.subShift), p.precShift);
    DivModUnique(0, Pow2(p.precShift), 0, 0);
  }

  // ----- SAD under a sample mask -----

  /**
   * The mask of xGetSADwMask is read through a pointer that moves by
   * stepX per sample and, after each visited row, by
   * maskStride * 2^subShift + maskStride2. The buffer is a function of
   * the offset from its start.
   */
  datatype MaskParam = MaskParam(mask: int -> nat, maskStride: int, stepX: int, maskStride2: int)

  /** Masked SAD of one row whose first weight is at offset `at`. */
  function MaskRowSum(o: seq<int>, c: seq<int>, mask: int -> nat, at: int, stepX: int): int
    decreases |o|
  {
    if |o| == 0 || |c| == 0 then 0
    else Abs(o[0] - c[0]) * mask(at) + MaskRowSum(o[1..], c[1..], mask, at + stepX, stepX)
  }

  /** Masked SAD of the visited rows, the first one starting at offset `at`. */
  function MaskRowsSum(O: seq<seq<int>>, C: seq<seq<int>>, m: MaskParam, at: int, width: int, rowAdvance: int): int
    decreases |O|
  {
    if |O| == 0 || |C| == 0 then 0
    else MaskRowSum(O[0], C[0], m.mask, at, m.stepX) +
         MaskRowsSum(O[1..], C[1..], m, at + width * m.stepX + rowAdvance, width, rowAdvance)
  }

  /** Every visited row has the width of the block. */
  lemma {:induction false} SampledRowsWidth(b: seq<seq<int>>, step: nat, width: int)
    requires step > 0 && forall i :: 0 <= i < |b| ==> |b[i]| == width
    ensures forall i :: 0 <= i < |SampledRows(b, step)| ==> |SampledRows(b, step)[i]| == width
    decreases |b|
  {
    if |b| > step {
      SampledRowsWidth(b[step..], step, width);
    }
  }

  function MaskSadSpec(p: DistParam, m: MaskParam): int
    requires Wellformed(p)
  {
    var step := Pow2(p.subShift);
    var total := MaskRowsSum(SampledRows(p.org, step), SampledRows(p.cur, step), m, 0, p.width,
                             m.maskStride * step + m.maskStride2);
    Shr(Shl(total, p.subShift), p.precShift)
  }

  /** xGetSADwMask: the column loop advances the mask by stepX per sample. */
  method MaskRowLoop(o: seq<int>, c: seq<int>, mask: int -> nat, at: int, stepX: int, width: int) returns (s: int, next: int)
    requires |o| == |c| == width
    ensures s == MaskRowSum(o, c, mask, at, stepX)
    ensures next == at + width * stepX
  {
    s := 0;
    next := at;
    var n := 0;
    while n < |o|
      invariant 0 <= n <= |o|
      invariant next == at + n * stepX
      invariant s + MaskRowSum(o[n..], c[n..], mask, next, stepX) == MaskRowSum(o, c, mask, at, stepX)
    {
      assert o[n..][1..] == o[n + 1..] && c[n..][1..] == c[n + 1..];
      s := s + Abs(o[n] - c[n]) * mask(next);
      next := next + stepX;
      n := n + 1;
    }
  }

  method SadMask(p: DistParam, m: MaskParam, weighted: DistParam -> int) returns (r: int)
    requires Wellformed(p)
    ensures p.applyWeight ==> r == weighted(p)
    ensures !p.applyWeight ==> r == MaskSadSpec(p, m)
  {
    if p.applyWeight {
      return weighted(p);
    }
    var step := Pow2(p.subShift);
    var strideMask := m.maskStride * step;
    SampledRowsWidth(p.org, step, p.width);
    SampledRowsWidth(p.cur, step, p.width);
    SampledRowWidths(p.org, p.cur, step);
    var sum := MaskSum(SampledRows(p.org, step), SampledRows(p.cur, step), p.width, m, strideMask + m.maskStride2);
    r := Shr(Shl(sum, p.subShift), p.precShift);
  }

  /**
   * The row loop of xGetSADwMask over the visited rows: the mask position
   * moves on by `rowAdvance` past the end of each row.
   */
  method MaskSum(O: seq<seq<int>>, C: seq<seq<int>>, width: int, m: MaskParam, rowAdvance: int) returns (sum: int)
    requires |O| == |C|
    requires forall i :: 0 <= i < |O| ==> |O[i]| == width && |C[i]| == width
    ensures sum == MaskRowsSum(O, C, m, 0, width, rowAdvance)
  {
    var n := 0;
    var at := 0;
    sum := 0;
    while n < |O|
      invariant 0 <= n <= |O|
      invariant sum + MaskRowsSum(O[n..], C[n..], m, at, width, rowAdvance) == MaskRowsSum(O, C, m, 0, width, rowAdvance)
    {
      SuffixStep(O, n);
      SuffixStep(C, n);
      var rs, next := MaskRowLoop(O[n], C[n], m.mask, at, m.stepX, width);
      sum := sum + rs;
      at := next + rowAdvance;
      n := n + 1;
    }
    assert O[n..] == [] && C[n..] == [];
  }

  lemma {:induction false} RowSumFront(o: seq<int>, c: seq<int>, f: (int, int) -> int)
    requires |o| == |c| && |o| > 0
    ensures RowSum(o, c, f) == f(o[0], c[0]) + RowSum(o[1..], c[1..], f)
    decreases |o|
  {
    if |o| > 1 {
      var n := |o| - 1;
      RowSumFront(o[..n], c[..n], f);
      assert o[..n][1..] == o[1..][..n - 1] && c[..n][1..] == c[1..][..n - 1];
    }
  }

  lemma {:induction false} MaskRowAllOnes(o: seq<int>, c: seq<int>, mask: int -> nat, at: int, stepX: int)
    requires |o| == |c|
    requires forall i :: mask(i) == 1
    ensures MaskRowSum(o, c, mask, at, stepX) == RowSum(o, c, SadTerm)
    decreases |o|
  {
    if |o| > 0 {
      MaskRowAllOnes(o[1..], c[1..], mask, at + stepX, stepX);
      RowSumFront(o, c, SadTerm);
    }
  }

  lemma {:induction false} SumFront(s: seq<int>)
    requires |s| > 0
    ensures Sum(s) == s[0] + Sum(s[1..])
    decreases |s|
  {
    if |s| > 1 {
      SumFront(s[..|s| - 1]);
      assert s[..|s| - 1][1..] == s[1..][..|s| - 2];
    }
  }

  lemma {:induction false} MaskRowsAllOnes(O: seq<seq<int>>, C: seq<seq<int>>, m: MaskParam, at: int, width: int,
                                           rowAdvance: int)
    requires |O| == |C| && forall i :: 0 <= i < |O| ==> |O[i]| == |C[i]|
    requires forall i :: m.mask(i) == 1
    ensures MaskRowsSum(O, C, m, at, width, rowAdvance) == Sum(RowCosts(O, C, SadTerm))
    decreases |O|
  {
    if |O| > 0 {
      MaskRowsAllOnes(O[1..], C[1..], m, at + width * m.stepX + rowAdvance, width, rowAdvance);
      MaskRowAllOnes(O[0], C[0], m.mask, at, m.stepX);
      SumFront(RowCosts(O, C, SadTerm));
      assert RowCosts(O, C, SadTerm)[1..] == RowCosts(O[1..], C[1..], SadTerm);
    }
  }

  lemma {:induction false} SampledRowWidths(org: seq<seq<int>>, cur: seq<seq<int>>, step: nat)
    requires step > 0 && |org| == |cur| && forall i :: 0 <= i < |org| ==> |org[i]| == |cur[i]|
    ensures |SampledRows(org, step)| == |SampledRows(cur, step)|
    ensures forall i :: 0 <= i < |SampledRows(org, step)| ==>
      |SampledRows(org, step)[i]| == |SampledRows(cur, step)[i]|
    decreases |org|
  {
    if |org| > step {
      SampledRowWidths(org[step..], cur[step..], step);
    }
  }

  /** With a mask of all ones, the masked SAD is the plain SAD. */
  lemma MaskSadOnesIsSad(p: DistParam, m: MaskParam)
    requires Wellformed(p)
    requires forall i :: m.mask(i) == 1
    ensures MaskSadSpec(p, m) == SadSpec(p)
  {
    var step := Pow2(p.subShift);
    SampledRowWidths(p.org, p.cur, step);
    MaskRowsAllOnes(SampledRows(p.org, step), SampledRows(p.cur, step), m, 0, p.width,
                    m.maskStride * step + m.maskStride2);
  }

  // ----- luma-weighted SSE -----

  /**
   * Inputs of the luma-weighted SSE kernels: the original luma plane read
   * at (row, column), the chroma scale shifts cShiftX / cShiftY, the
   * luma-level-to-weight table and MSE_WEIGHT_FRAC_BITS.
   */
  datatype WtdParam = WtdParam(orgLuma: (int, int) -> int, cShiftX: nat, cShiftY: nat,
                               weightLut: int -> int, fracBits: nat)

  /** getWeightedMSE: the squared difference weighted by the luma level, rounded. */
  function WeightedMse(w: WtdParam, org: int, cur: int, shift: nat, orgLuma: int): int
  {
    Shr(w.weightLut(orgLuma) * ((org - cur) * (org - cur)) + Pow2(w.fracBits) / 2, w.fracBits + shift)
  }

  /** Weighted SSE of one row; the luma sample of column n is at column n << cShiftX. */
  function WtdRowSum(w: WtdParam, o: seq<int>, c: seq<int>, shift: nat, row: int, col: int): int
    decreases |o|
  {
    if |o| == 0 || |c| == 0 then 0
    else WeightedMse(w, o[0], c[0], shift, w.orgLuma(row, col)) +
         WtdRowSum(w, o[1..], c[1..], shift, row, col + Pow2(w.cShiftX))
  }

  /** Weighted SSE of the rows; the luma row of row r is row r << cShiftY. */
  function WtdRowsSum(w: WtdParam, O: seq<seq<int>>, C: seq<seq<int>>, shift: nat, row: int): int
    decreases |O|
  {
    if |O| == 0 || |C| == 0 then 0
    else WtdRowSum(w, O[0], C[0], shift, row, 0) + WtdRowsSum(w, O[1..], C[1..], shift, row + Pow2(w.cShiftY))
  }

  function SseWtdSpec(p: DistParam, w: WtdParam): int
  {
    WtdRowsSum(w, p.org, p.cur, 2 * p.precShift, 0)
  }

  lemma WtdRowStep(w: WtdParam, o: seq<int>, c: seq<int>, shift: nat, row: int, col: int, n: nat)
    requires n < |o| && n < |c|
    ensures WtdRowSum(w, o[n..], c[n..], shift, row, col) ==
            WeightedMse(w, o[n], c[n], shift, w.orgLuma(row, col)) +
            WtdRowSum(w, o[n + 1..], c[n + 1..], shift, row, col + Pow2(w.cShiftX))
  {
    assert o[n..][1..] == o[n + 1..] && c[n..][1..] == c[n + 1..];
  }

  method WtdRowLoop(w: WtdParam, o: seq<int>, c: seq<int>, shift: nat, row: int) returns (s: int)
    requires |o| == |c|
    ensures s == WtdRowSum(w, o, c, shift, row, 0)
  {
    ghost var total := WtdRowSum(w, o, c, shift, row, 0);
    s := 0;
    var n := 0;
    var col := 0;
    while n < |o|
      invariant 0 <= n <= |o|
      invariant s + WtdRowSum(w, o[n..], c[n..], shift, row, col) == total
    {
      WtdRowStep(w, o, c, shift, row, col, n);
      s := s + WeightedMse(w, o[n], c[n], shift, w.orgLuma(row, col));
      col := col + Pow2(w.cShiftX);
      n := n + 1;
    }
    assert o[n..] == [];
  }

  /** Sixteen consecutive samples of a row, starting at sample n. */
  method WtdSixteen(w: WtdParam, o: seq<int>, c: seq<int>, shift: nat, row: int, col: int, n: nat)
    returns (d: int, next: int)
    requires n + 16 <= |o| == |c|
    ensures d + WtdRowSum(w, o[n + 16..], c[n + 16..], shift, row, next) == WtdRowSum(w, o[n..], c[n..], shift, row, col)
  {
    d := 0;
    next := col;
    var j := 0;
    while j < 16
      invariant 0 <= j <= 16
      invariant d + WtdRowSum(w, o[n + j..], c[n + j..], shift, row, next) == WtdRowSum(w, o[n..], c[n..], shift, row, col)
    {
      WtdRowStep(w, o, c, shift, row, next, n + j);
      d := d + WeightedMse(w, o[n + j], c[n + j], shift, w.orgLuma(row, next));
      next := next + Pow2(w.cShiftX);
      j := j + 1;
    }
  }

  /** The column loop of xGetSSE16N_WTD: sixteen samples per step. */
  method WtdRowLoop16(w: WtdParam, o: seq<int>, c: seq<int>, shift: nat, row: int) returns (s: int)
    requires |o| == |c| && |o| % 16 == 0
    ensures s == WtdRowSum(w, o, c, shift, row, 0)
  {
    ghost var total := WtdRowSum(w, o, c, shift, row, 0);
    s := 0;
    var col := 0;
    for i := 0 to |o| / 16
      invariant s + WtdRowSum(w, o[16 * i..], c[16 * i..], shift, row, col) == total
    {
      var d;
      d, col := WtdSixteen(w, o, c, shift, row, col, 16 * i);
      s := s + d;
    }
    assert o[16 * (|o| / 16)..] == [];
  }

  method WtdRowsLoop(p: DistParam, w: WtdParam, by16: bool) returns (sum: int)
    requires Shaped(p) && (by16 ==> p.width % 16 == 0)
    ensures sum == SseWtdSpec(p, w)
  {
    var shift := 2 * p.precShift;
    sum := 0;
    var r := 0;
    var lumaRow := 0;
    while r < p.height
      invariant 0 <= r <= p.height
      invariant sum + WtdRowsSum(w, p.org[r..], p.cur[r..], shift, lumaRow) == SseWtdSpec(p, w)
    {
      assert p.org[r..][1..] == p.org[r + 1..] && p.cur[r..][1..] == p.cur[r + 1..];
      var rs;
      if by16 {
        rs := WtdRowLoop16(w, p.org[r], p.cur[r], shift, lumaRow);
      } else {
        rs := WtdRowLoop(w, p.org[r], p.cur[r], shift, lumaRow);
      }
      sum := sum + rs;
      lumaRow := lumaRow + Pow2(w.cShiftY);
      r := r + 1;
    }
  }

  /** xGetSSE_WTD */
  method SseWtd(p: DistParam, w: WtdParam, weighted: DistParam -> int) returns (r: int)
    requires Shaped(p)
    ensures p.applyWeight ==> r == weighted(p)
    ensures !p.applyWeight ==> r == SseWtdSpec(p, w)
  {
    if p.applyWeight {
      return weighted(p);
    }
    r := WtdRowsLoop(p, w, false);
  }

  predicate WtdKernelWidth(n: nat)
  {
    n == 2 || n == 4 || n == 8 || n == 16 || n == 32 || n == 64
  }

  /** xGetSSE2_WTD ... xGetSSE64_WTD: the weighted path first checks the width. */
  method SseWtdFixed(p: DistParam, n: nat, w: WtdParam, weighted: DistParam -> int) returns (r: Result<int>)
    requires Shaped(p) && WtdKernelWidth(n)
    requires !p.applyWeight ==> p.width == n
    ensures p.applyWeight && p.width != n <==> r.CheckFailed?
    ensures p.applyWeight && p.width == n ==> r == Ok(weighted(p))
    ensures !p.applyWeight ==> r == Ok(SseWtdSpec(p, w))
  {
    if p.applyWeight {
      if p.width != n {
        return CheckFailed("");
      }
      return Ok(weighted(p));
    }
    var sum := WtdRowsLoop(p, w, false);
    r := Ok(sum);
  }

  /** xGetSSE16N_WTD */
  method SseWtd16N(p: DistParam, w: WtdParam, weighted: DistParam -> int) returns (r: int)
    requires Shaped(p) && p.width % 16 == 0
    ensures p.applyWeight ==> r == weighted(p)
    ensures !p.applyWeight ==> r == SseWtdSpec(p, w)
  {
    if p.applyWeight {
      return weighted(p);
    }
    r := WtdRowsLoop(p, w, true);
  }

  /** Adding half of A to A * r keeps it below A * B when r < B. */
  lemma RoundingStaysBelow(A: int, B: int, r: int)
    requires A >= 1 && 0 <= r < B
    ensures 0 <= A * r + A / 2 < A * B
  {
    MulNonNegative(A, r);
    MulAtLeast(B - r, A);
    assert A * (B - r) == A * B - A * r;
  }

  /** With unit weight 2^MSE_WEIGHT_FRAC_BITS the weighted term is the plain SSE term. */
  lemma UnitWeightTerm(x: int, F: nat, s: nat)
    requires x >= 0
    ensures Shr(Pow2(F) * x + Pow2(F) / 2, F + s) == Shr(x, s)
  {
    Pow2Add(F, s);
    RoundedQuotient(x, Pow2(F), Pow2(s));
  }

  /** Scaling by A and adding A/2 before dividing by A*B gives the quotient by B. */
  lemma RoundedQuotient(x: int, A: int, B: int)
    requires x >= 0 && A >= 1 && B >= 1
    ensures (A * x + A / 2) / (A * B) == x / B
  {
    var q, r := x / B, x % B;
    assert A * x == q * (A * B) + A * r by {
      DivModSplit(x, B);
      assert A * x == A * (q * B) + A * r;
      MulAssociative(A, q, B);
      MulAssociative(q, A, B);
      assert A * q == q * A;
    }
    RoundingStaysBelow(A, B, r);
    assert A * B > 0 by { MulAtLeast(B, A); }
    DivModUnique(A * x + A / 2, A * B, q, A * r + A / 2);
  }

  lemma {:induction false} UnitWeightRow(p: DistParam, w: WtdParam, o: seq<int>, c: seq<int>, row: int, col: int)
    requires |o| == |c|
    requires forall l :: w.weightLut(l) == Pow2(w.fracBits)
    ensures WtdRowSum(w, o, c, 2 * p.precShift, row, col) == RowSum(o, c, SseTerm(2 * p.precShift))
    decreases |o|
  {
    if |o| > 0 {
      UnitWeightRow(p, w, o[1..], c[1..], row, col + Pow2(w.cShiftX));
      RowSumFront(o, c, SseTerm(2 * p.precShift));
      SquareNonNegative(o[0] - c[0]);
      UnitWeightTerm((o[0] - c[0]) * (o[0] - c[0]), w.fracBits, 2 * p.precShift);
    }
  }

  lemma {:induction false} UnitWeightRows(p: DistParam, w: WtdParam, O: seq<seq<int>>, C: seq<seq<int>>, row: int)
    requires |O| == |C| && forall i :: 0 <= i < |O| ==> |O[i]| == |C[i]|
    requires forall l :: w.weightLut(l) == Pow2(w.fracBits)
    ensures WtdRowsSum(w, O, C, 2 * p.precShift, row) == Sum(RowCosts(O, C, SseTerm(2 * p.precShift)))
    decreases |O|
  {
    if |O| > 0 {
      UnitWeightRows(p, w, O[1..], C[1..], row + Pow2(w.cShiftY));
      UnitWeightRow(p, w, O[0], C[0], row, 0);
      SumFront(RowCosts(O, C, SseTerm(2 * p.precShift)));
      assert RowCosts(O, C, SseTerm(2 * p.precShift))[1..] == RowCosts(O[1..], C[1..], SseTerm(2 * p.precShift));
    }
  }

  /**
   * With every luma level mapped to the unit weight, the weighted SSE is
   * the plain SSE: the rounding offset never carries into the result.
   */
  lemma UnitWeightSseWtdIsSse(p: DistParam, w: WtdParam)
    requires Shaped(p)
    requires forall l :: w.weightLut(l) == Pow2(w.fracBits)
    ensures SseWtdSpec(p, w) == SseSpec(p)
  {
    UnitWeightRows(p, w, p.org, p.cur, 0);
  }
}
