/**
 * Shared vocabulary of the model: optional values and checked results,
 * the integer operators of the C++ code written out over unbounded
 * integers, pixel blocks as sequences of rows, and the running-sum
 * early exit used by several distortion kernels.
 */
module Common {

  datatype Option<T> = None | Some(value: T)

  /** Colour components, in the order the source indexes its per-component arrays. */
  datatype ComponentId = CompY | CompCb | CompCr

  predicate IsLuma(c: ComponentId)
  {
    c == CompY
  }

  function ComponentIndex(c: ComponentId): (i: nat)
    ensures i < 3
  {
    match c
    case CompY => 0
    case CompCb => 1
    case CompCr => 2
  }

  /** Outcome of an operation whose source aborts through a CHECK / THROW. */
  datatype Result<T> = Ok(value: T) | CheckFailed(reason: string)

  function Abs(x: int): (r: nat)
    ensures r == x || r == -x
  {
    if x < 0 then -x else x
  }

  function Pow2(n: nat): (r: nat)
    ensures r >= 1
  {
    if n == 0 then 1 else 2 * Pow2(n - 1)
  }

  /** Position of the highest set bit of a positive integer (the source's floorLog2). */
  function FloorLog2(n: nat): nat
    requires n >= 1
  {
    if n == 1 then 0 else 1 + FloorLog2(n / 2)
  }

  /** floorLog2(n) is the k with 2^k <= n < 2^(k+1). */
  lemma {:induction false} FloorLog2Bounds(n: nat)
    requires n >= 1
    ensures Pow2(FloorLog2(n)) <= n < Pow2(FloorLog2(n) + 1)
  {
    if n > 1 {
      FloorLog2Bounds(n / 2);
    }
  }

  /** `x << s` */
  function Shl(x: int, s: nat): int
  {
    x * Pow2(s)
  }

  /** `x >> s` on a two's-complement value: division by 2^s rounding down. */
  function Shr(x: int, s: nat): int
  {
    x / Pow2(s)
  }

  function Min(a: int, b: int): int
  {
    if a < b then a else b
  }

  function Max(a: int, b: int): int
  {
    if a < b then b else a
  }

  /** `Clip3(lo, hi, x)`: x clamped into [lo, hi]. */
  function Clip3(lo: int, hi: int, x: int): (r: int)
    requires lo <= hi
    ensures lo <= r <= hi
    ensures lo <= x <= hi ==> r == x
  {
    if x < lo then lo else if x > hi then hi else x
  }

  /** C++ integer division, which truncates toward zero. */
  function CDiv(a: int, b: int): int
    requires b != 0
  {
    if (a < 0) == (b < 0) then Abs(a) / Abs(b) else -(Abs(a) / Abs(b))
  }

  function Sum(s: seq<int>): int
  {
    if |s| == 0 then 0 else Sum(s[..|s| - 1]) + s[|s| - 1]
  }

  lemma {:induction false} SumNonNegative(s: seq<int>)
    requires forall i :: 0 <= i < |s| ==> s[i] >= 0
    ensures Sum(s) >= 0
    decreases |s|
  {
    if |s| > 0 {
      SumNonNegative(s[..|s| - 1]);
    }
  }

  lemma {:induction false} SumPrefixMonotone(s: seq<int>, j: nat, k: nat)
    requires forall i :: 0 <= i < |s| ==> s[i] >= 0
    requires j <= k <= |s|
    ensures Sum(s[..j]) <= Sum(s[..k])
    decreases k - j
  {
    if j < k {
      SumPrefixMonotone(s, j, k - 1);
      assert s[..k][..k - 1] == s[..k - 1];
    }
  }

  lemma {:induction false} SumAllZero(s: seq<int>)
    requires forall i :: 0 <= i < |s| ==> s[i] == 0
    ensures Sum(s) == 0
    decreases |s|
  {
    if |s| > 0 {
      SumAllZero(s[..|s| - 1]);
    }
  }

  lemma {:induction false} SumPointwiseEqual(s: seq<int>, t: seq<int>)
    requires |s| == |t|
    requires forall i :: 0 <= i < |s| ==> s[i] == t[i]
    ensures Sum(s) == Sum(t)
  {
    assert s == t;
  }

  lemma {:induction false} SumConstant(s: seq<int>, v: int)
    requires forall i :: 0 <= i < |s| ==> s[i] == v
    ensures Sum(s) == v * |s|
    decreases |s|
  {
    if |s| > 0 {
      SumConstant(s[..|s| - 1], v);
      assert v * |s| == v * (|s| - 1) + v;
    }
  }

  // ----- small facts of nonlinear arithmetic, proved step by step -----

  lemma MulNonNegative(m: int, d: int)
    requires m >= 0 && d >= 0
    ensures m * d >= 0
  {
  }

  /** One more block of size d: (q + 1) * d == q * d + d. */
  lemma MulSucc(q: int, d: int)
    ensures (q + 1) * d == q * d + d
  {
  }

  lemma MulAssociative(a: int, b: int, c: int)
    ensures (a * b) * c == a * (b * c)
  {
  }

  lemma SquareNonNegative(d: int)
    ensures d * d >= 0
  {
    if d < 0 {
      MulNonNegative(-d, -d);
    } else {
      MulNonNegative(d, d);
    }
  }

  lemma {:induction false} Pow2Add(a: nat, b: nat)
    ensures Pow2(a + b) == Pow2(a) * Pow2(b)
    decreases a
  {
    if a > 0 {
      Pow2Add(a - 1, b);
      MulAssociative(2, Pow2(a - 1), Pow2(b));
    }
  }

  lemma {:induction false} Pow2Monotone(a: nat, b: nat)
    requires a <= b
    ensures Pow2(a) <= Pow2(b)
    decreases b
  {
    if a < b {
      Pow2Monotone(a, b - 1);
    }
  }

  /** floorLog2 is monotone, and a value below 2^m has floorLog2 below m. */
  lemma {:induction false} FloorLog2Monotone(a: nat, b: nat)
    requires 1 <= a <= b
    ensures FloorLog2(a) <= FloorLog2(b)
    decreases b
  {
    if a > 1 {
      FloorLog2Monotone(a / 2, b / 2);
    }
  }

  lemma FloorLog2Below(n: nat, m: nat)
    requires 1 <= n < Pow2(m)
    ensures FloorLog2(n) < m
  {
    FloorLog2Bounds(n);
    if FloorLog2(n) >= m {
      Pow2Monotone(m, FloorLog2(n));
    }
  }

  lemma MulAtLeast(m: int, d: int)
    requires m >= 1 && d >= 0
    ensures m * d >= d
  {
    MulNonNegative(m - 1, d);
    assert m * d == (m - 1) * d + d;
  }

  lemma MultipleOfPowerIsEven(n: nat)
    ensures n % 16 == 0 ==> n % 8 == 0
    ensures n % 8 == 0 ==> n % 4 == 0
    ensures n % 4 == 0 ==> n % 2 == 0
  {
    DivModSplit(n, 16);
    DivModSplit(n, 8);
    DivModSplit(n, 4);
    if n % 16 == 0 {
      DivModUnique(n, 8, 2 * (n / 16), 0);
    }
    if n % 8 == 0 {
      DivModUnique(n, 4, 2 * (n / 8), 0);
    }
    if n % 4 == 0 {
      DivModUnique(n, 2, 2 * (n / 4), 0);
    }
  }

  lemma DivModSplit(x: int, d: int)
    requires d > 0
    ensures x == (x / d) * d + x % d && 0 <= x % d < d
  {
  }

  lemma SmallMod(x: int, m: int)
    requires 0 <= x < m
    ensures x % m == x
  {
    DivModUnique(x, m, 0, x);
  }

  lemma DivModUnique(x: int, d: int, q: int, r: int)
    requires d > 0 && x == q * d + r && 0 <= r < d
    ensures x / d == q && x % d == r
  {
    var q0, r0 := x / d, x % d;
    assert (q - q0) * d == r0 - r;
    if q - q0 >= 1 {
      MulAtLeast(q - q0, d);
    } else if q0 - q >= 1 {
      MulAtLeast(q0 - q, d);
    }
  }

  /** Truncating division of an exact multiple. */
  lemma CDivExact(m: int, n: int)
    requires n > 0
    ensures CDiv(m * n, n) == m
  {
    if m >= 0 {
      MulNonNegative(m, n);
      DivModUnique(m * n, n, m, 0);
    } else {
      MulAtLeast(-m, n);
      assert Abs(m * n) == (-m) * n;
      DivModUnique((-m) * n, n, -m, 0);
    }
  }

  lemma DivMonotone(a: int, b: int, d: int)
    requires d > 0 && a <= b
    ensures a / d <= b / d
  {
    var qa, qb := a / d, b / d;
    if qa > qb {
      MulAtLeast(qa - qb, d);
    }
  }

  lemma ShrMonotone(a: int, b: int, s: nat)
    requires a <= b
    ensures Shr(a, s) <= Shr(b, s)
  {
    DivMonotone(a, b, Pow2(s));
  }

  lemma ShrAtMost(a: int, s: nat)
    requires a >= 0
    ensures Shr(a, s) <= a
  {
    var q := a / Pow2(s);
    if q > a {
      MulAtLeast(Pow2(s), q);
    }
  }

  lemma ShrNonNegative(a: int, s: nat)
    requires a >= 0
    ensures Shr(a, s) >= 0
  {
    DivMonotone(0, a, Pow2(s));
  }

  lemma {:induction false} SampledRowsCount(b: seq<seq<int>>, step: nat)
    requires step > 0 && |b| % step == 0
    ensures |SampledRows(b, step)| == |b| / step
    decreases |b|
  {
    if |b| > 0 {
      StepDown(|b|, step);
      if |b| == step {
        DivModUnique(|b|, step, 1, 0);
      } else {
        SampledRowsCount(b[step..], step);
      }
    } else {
      DivModUnique(0, step, 0, 0);
    }
  }

  lemma {:induction false} SampledRowsAll(b: seq<seq<int>>)
    ensures SampledRows(b, 1) == b
    decreases |b|
  {
    if |b| > 1 {
      SampledRowsAll(b[1..]);
    }
  }

  lemma StepDown(n: int, step: nat)
    requires step > 0 && n > 0 && n % step == 0
    ensures n >= step && (n - step) % step == 0 && (n - step) / step == n / step - 1
  {
    var q := n / step;
    assert n == q * step;
    if q <= 0 {
      MulNonNegative(-q, step);
    }
    assert n - step == (q - 1) * step + 0;
    DivModUnique(n - step, step, q - 1, 0);
  }

  /**
   * The rows a kernel visits when it samples every `step`-th row: rows
   * 0, step, 2*step, ... below the height of the block.
   */
  function SampledRows(b: seq<seq<int>>, step: nat): seq<seq<int>>
    requires step > 0
    decreases |b|
  {
    if |b| == 0 then []
    else if |b| <= step then [b[0]]
    else [b[0]] + SampledRows(b[step..], step)
  }

  lemma SuffixStep<T>(s: seq<T>, k: nat)
    requires k < |s|
    ensures s[k..][0] == s[k] && s[k..][1..] == s[k + 1..]
  {
  }

  lemma UnfoldSampled(b: seq<seq<int>>, pos: nat, step: nat)
    requires step > 0 && pos + step <= |b|
    ensures SampledRows(b[pos..], step) == [b[pos]] + SampledRows(b[pos + step..], step)
  {
    var t := b[pos..];
    if |t| <= step {
      assert b[pos + step..] == [];
    } else {
      assert t[step..] == b[pos + step..];
    }
  }

  /**
   * One pass of a row loop that counts rows down by step: the rows sampled
   * from pos on are the current row followed by those sampled from pos + step.
   */
  lemma SampledAdvance(org: seq<seq<int>>, cur: seq<seq<int>>, O: seq<seq<int>>, C: seq<seq<int>>,
                       pos: nat, rows: int, k: nat, step: nat)
    requires step > 0 && pos + rows == |org| == |cur| && rows > 0 && rows % step == 0
    requires k <= |O| && k <= |C|
    requires SampledRows(org[pos..], step) == O[k..] && SampledRows(cur[pos..], step) == C[k..]
    ensures rows >= step && (rows - step) % step == 0
    ensures k < |O| && k < |C| && O[k] == org[pos] && C[k] == cur[pos]
    ensures SampledRows(org[pos + step..], step) == O[k + 1..] && SampledRows(cur[pos + step..], step) == C[k + 1..]
  {
    StepDown(rows, step);
    UnfoldSampled(org, pos, step);
    UnfoldSampled(cur, pos, step);
    assert |O[k..]| > 0 && |C[k..]| > 0;
    SuffixStep(O, k);
    SuffixStep(C, k);
  }

  // ----- early exit on a running sum of per-row costs -----

  /** The running sum of the first `k` row costs, shifted down, is above the bound. */
  predicate Exceeds(costs: seq<int>, k: nat, prec: nat, bound: int)
    requires k <= |costs|
  {
    bound < Shr(Sum(costs[..k]), prec)
  }

  function ExitFrom(costs: seq<int>, prec: nat, bound: int, k: nat): Option<nat>
    requires 1 <= k
    decreases |costs| + 1 - k
  {
    if k > |costs| then None
    else if Exceeds(costs, k, prec, bound) then Some(k)
    else ExitFrom(costs, prec, bound, k + 1)
  }

  /** The first row after which a kernel with early exit returns, if any. */
  function FirstExit(costs: seq<int>, prec: nat, bound: int): Option<nat>
  {
    ExitFrom(costs, prec, bound, 1)
  }

  /**
   * What a row loop with early exit returns: the shifted running sum at
   * the first row where it passes the bound, or else the full sum scaled
   * back up by the row subsampling and shifted down.
   */
  function EarlyExitResult(costs: seq<int>, sub: nat, prec: nat, bound: int): int
  {
    match FirstExit(costs, prec, bound)
    case Some(k) => if k <= |costs| then Shr(Sum(costs[..k]), prec) else 0
    case None => Shr(Shl(Sum(costs), sub), prec)
  }

  lemma {:induction false} ExitFromSpec(costs: seq<int>, prec: nat, bound: int, k: nat)
    requires 1 <= k
    ensures ExitFrom(costs, prec, bound, k).Some? ==>
      var e := ExitFrom(costs, prec, bound, k).value;
      k <= e <= |costs| && Exceeds(costs, e, prec, bound) &&
      forall j :: k <= j < e ==> !Exceeds(costs, j, prec, bound)
    ensures ExitFrom(costs, prec, bound, k).None? ==>
      forall j :: k <= j <= |costs| ==> !Exceeds(costs, j, prec, bound)
    decreases |costs| + 1 - k
  {
    if k <= |costs| && !Exceeds(costs, k, prec, bound) {
      ExitFromSpec(costs, prec, bound, k + 1);
    }
  }

  /** The early exit fires exactly at the first row whose running sum passes the bound. */
  lemma FirstExitSpec(costs: seq<int>, prec: nat, bound: int)
    ensures FirstExit(costs, prec, bound).Some? ==>
      var e := FirstExit(costs, prec, bound).value;
      1 <= e <= |costs| && Exceeds(costs, e, prec, bound) &&
      forall j :: 1 <= j < e ==> !Exceeds(costs, j, prec, bound)
    ensures FirstExit(costs, prec, bound).None? ==>
      forall j :: 1 <= j <= |costs| ==> !Exceeds(costs, j, prec, bound)
  {
    ExitFromSpec(costs, prec, bound, 1);
  }

  /** The first row whose running sum passes the bound is where the exit fires. */
  lemma {:induction false} FirstExitAt(costs: seq<int>, prec: nat, bound: int, e: nat)
    requires 1 <= e <= |costs| && Exceeds(costs, e, prec, bound)
    requires forall j :: 1 <= j < e ==> !Exceeds(costs, j, prec, bound)
    ensures FirstExit(costs, prec, bound) == Some(e)
  {
    FirstExitSpec(costs, prec, bound);
    if FirstExit(costs, prec, bound).Some? {
      var f := FirstExit(costs, prec, bound).value;
      assert !(f < e) && !(e < f);
    }
  }

  /** When no running sum passes the bound, the exit never fires. */
  lemma {:induction false} FirstExitNone(costs: seq<int>, prec: nat, bound: int)
    requires forall j :: 1 <= j <= |costs| ==> !Exceeds(costs, j, prec, bound)
    ensures FirstExit(costs, prec, bound) == None
  {
    FirstExitSpec(costs, prec, bound);
  }

  /** When the early exit fires, the returned value is above the bound. */
  lemma EarlyExitAboveBound(costs: seq<int>, sub: nat, prec: nat, bound: int)
    requires FirstExit(costs, prec, bound).Some?
    ensures EarlyExitResult(costs, sub, prec, bound) > bound
  {
    FirstExitSpec(costs, prec, bound);
  }

  /**
   * A bound no smaller than the shifted total never triggers the early
   * exit, so the kernel returns its full value.
   */
  lemma NoEarlyExitUnderBound(costs: seq<int>, sub: nat, prec: nat, bound: int)
    requires forall i :: 0 <= i < |costs| ==> costs[i] >= 0
    requires Shr(Sum(costs), prec) <= bound
    ensures FirstExit(costs, prec, bound).None?
    ensures EarlyExitResult(costs, sub, prec, bound) == Shr(Shl(Sum(costs), sub), prec)
  {
    FirstExitSpec(costs, prec, bound);
    if FirstExit(costs, prec, bound).Some? {
      var e := FirstExit(costs, prec, bound).value;
      SumPrefixMonotone(costs, e, |costs|);
      assert costs[..|costs|] == costs;
      ShrMonotone(Sum(costs[..e]), Sum(costs), prec);
      assert false;
    }
  }

  /**
   * Step of a row loop with early exit: if the running sum of the first
   * k rows did not pass the bound, the first exit lies after row k.
   */
  lemma ExitFromStep(costs: seq<int>, prec: nat, bound: int, k: nat)
    requires 1 <= k <= |costs|
    ensures !Exceeds(costs, k, prec, bound) ==>
      ExitFrom(costs, prec, bound, k) == ExitFrom(costs, prec, bound, k + 1)
    ensures Exceeds(costs, k, prec, bound) ==> ExitFrom(costs, prec, bound, k) == Some(k)
  {
  }

  lemma SumSnoc(s: seq<int>, k: nat)
    requires k < |s|
    ensures Sum(s[..k + 1]) == Sum(s[..k]) + s[k]
  {
    assert s[..k + 1][..k] == s[..k];
  }

  lemma {:induction false} SumConcat(a: seq<int>, b: seq<int>)
    ensures Sum(a + b) == Sum(a) + Sum(b)
    decreases |b|
  {
    if |b| == 0 {
      assert a + b == a;
    } else {
      SumConcat(a, b[..|b| - 1]);
      assert (a + b)[..|a + b| - 1] == a + b[..|b| - 1];
    }
  }
}
