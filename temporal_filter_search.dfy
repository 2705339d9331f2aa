// The block motion search of the temporal pre-filter (motionEstimationLuma):
// each block visits a fixed sequence of candidate displacements and keeps a
// vector only when a candidate's error is strictly smaller than the best so far.

module TemporalFilterSearch {
  import opened Common
  import opened TemporalFilterKernels

  /** A candidate displacement in 1/16 luma sample. */
  datatype Candidate = Candidate(x: int, y: int)

  // ---------------------------------------------------------------------
  // Keeping the strictly better candidate
  // ---------------------------------------------------------------------

  /** The error of candidate c for the bs x bs block at (x, y): its sum of squared differences. */
  function CandidateError(orig: array2<int>, buf: array2<int>, x: int, y: int, bs: nat, bitDepth: nat, c: Candidate): (e: int)
    reads orig, buf
    requires IsPlane(orig) && IsPlane(buf)
    ensures e >= 0
  {
    BlockError(orig, buf, x, y, c.x, c.y, bs, bitDepth)
  }

  /**
   * The search is stated over a map from candidates to their errors, read
   * through Cost; ErrorsOf ties such a map to the block errors of one block.
   */
  function Cost(errs: imap<Candidate, int>, c: Candidate): int
  {
    if c in errs then errs[c] else 0
  }

  ghost predicate ErrorsOf(errs: imap<Candidate, int>, orig: array2<int>, buf: array2<int>, x: int, y: int, bs: nat, bitDepth: nat)
    reads orig, buf
    requires IsPlane(orig) && IsPlane(buf)
  {
    forall c {:trigger CandidateError(orig, buf, x, y, bs, bitDepth, c)} :: Cost(errs, c) == CandidateError(orig, buf, x, y, bs, bitDepth, c)
  }

  /** The errors of every candidate for the block at (x, y). */
  ghost function ErrorMap(orig: array2<int>, buf: array2<int>, x: int, y: int, bs: nat, bitDepth: nat): imap<Candidate, int>
    reads orig, buf
    requires IsPlane(orig) && IsPlane(buf)
  {
    imap c: Candidate | true :: CandidateError(orig, buf, x, y, bs, bitDepth, c)
  }

  lemma ErrorMapIsErrors(orig: array2<int>, buf: array2<int>, x: int, y: int, bs: nat, bitDepth: nat)
    requires IsPlane(orig) && IsPlane(buf)
    ensures ErrorsOf(ErrorMap(orig, buf, x, y, bs, bitDepth), orig, buf, x, y, bs, bitDepth)
  {
  }

  function KeepBetter(best: MotionVector, c: Candidate, e: int): MotionVector
  {
    if e < best.error then MotionVector(c.x, c.y, e) else best
  }

  /**
   * The vector kept after visiting the candidates in order, starting from
   * best: a candidate replaces the kept vector only when its error is
   * strictly smaller.
   */
  function Search(errs: imap<Candidate, int>, best: MotionVector, cands: seq<Candidate>): MotionVector
    decreases |cands|
  {
    if cands == [] then best
    else
      var n := |cands| - 1;
      KeepBetter(Search(errs, best, cands[..n]), cands[n], Cost(errs, cands[n]))
  }

  /**
   * The kept vector has the least error among the start and the candidates.
   * It is the start when no candidate is strictly better than the start;
   * otherwise it is a candidate that reaches the least error, carrying that
   * error, and every earlier candidate is strictly worse.
   */
  lemma {:induction false} SearchKeepsEarliestMinimum(errs: imap<Candidate, int>, best: MotionVector, cands: seq<Candidate>)
    ensures var r := Search(errs, best, cands);
            r.error <= best.error &&
            (forall i :: 0 <= i < |cands| ==> r.error <= Cost(errs, cands[i])) &&
            ((forall i :: 0 <= i < |cands| ==> Cost(errs, cands[i]) >= best.error) ==> r == best) &&
            ((exists i :: 0 <= i < |cands| && Cost(errs, cands[i]) < best.error) ==>
               exists i :: 0 <= i < |cands| && r == MotionVector(cands[i].x, cands[i].y, Cost(errs, cands[i])) &&
                 forall j :: 0 <= j < i ==> Cost(errs, cands[j]) > r.error)
    decreases |cands|
  {
    if cands != [] {
      var n := |cands| - 1;
      SearchKeepsEarliestMinimum(errs, best, cands[..n]);
      assert forall i :: 0 <= i < n ==> cands[..n][i] == cands[i];
    }
  }

  /** Visiting s and then t keeps what visiting s + t keeps. */
  lemma {:induction false} SearchConcat(errs: imap<Candidate, int>, best: MotionVector, s: seq<Candidate>, t: seq<Candidate>)
    ensures Search(errs, best, s + t) == Search(errs, Search(errs, best, s), t)
    decreases |t|
  {
    if t == [] {
      assert s + t == s;
    } else {
      var n := |t| - 1;
      assert (s + t)[..|s + t| - 1] == s + t[..n];
      SearchConcat(errs, best, s, t[..n]);
    }
  }

  /** Visiting one more candidate is one strict-improvement step. */
  lemma SearchSnoc(errs: imap<Candidate, int>, best: MotionVector, s: seq<Candidate>, c: Candidate)
    ensures Search(errs, best, s + [c]) == KeepBetter(Search(errs, best, s), c, Cost(errs, c))
  {
    assert (s + [c])[..|s|] == s;
  }

  /**
   * One visit of the search: motionErrorLuma with the best error as its
   * early-exit bound, then a strict-improvement update. The early exit never
   * changes the decision, and a replacing candidate carries its true error.
   */
  method Visit(orig: array2<int>, buffer: array2<int>, x: int, y: int, bs: nat, bitDepth: nat, ghost errs: imap<Candidate, int>,
               best: MotionVector, c: Candidate) returns (r: MotionVector)
    requires IsPlane(orig) && IsPlane(buffer) && bs <= 64 && ErrorsOf(errs, orig, buffer, x, y, bs, bitDepth)
    ensures r == KeepBetter(best, c, Cost(errs, c))
  {
    var error := MotionErrorLuma(orig, buffer, x, y, c.x, c.y, bs, best.error, bitDepth);
    EarlyExitKeepsComparison(orig, buffer, x, y, c.x, c.y, bs, bitDepth, best.error);
    assert Cost(errs, c) == CandidateError(orig, buffer, x, y, bs, bitDepth, c);
    r := best;
    if error < best.error {
      r := MotionVector(c.x, c.y, error);
    }
  }

  // ---------------------------------------------------------------------
  // Lattices of candidates
  // ---------------------------------------------------------------------

  /**
   * A square lattice of candidates visited row by row: point (a, b), with
   * 0 <= a, b < n, is column x0 + step * b and row y0 + step * a, both
   * multiplied by scale (16 for a lattice of whole samples).
   */
  datatype Lattice = Lattice(x0: int, y0: int, step: int, scale: int, n: nat)

  function LatticePoint(g: Lattice, a: int, b: int): Candidate
  {
    Candidate((g.x0 + g.step * b) * g.scale, (g.y0 + g.step * a) * g.scale)
  }

  /** The points of rows 0..a-1 of the lattice, then points 0..b-1 of row a. */
  function LatticeUpTo(g: Lattice, a: nat, b: nat): seq<Candidate>
    requires b <= g.n
    decreases a, b
  {
    if b == 0 then
      (if a == 0 then [] else LatticeUpTo(g, a - 1, g.n))
    else LatticeUpTo(g, a, b - 1) + [LatticePoint(g, a, b - 1)]
  }

  /** All points of the lattice, in row-major order. */
  function LatticeCandidates(g: Lattice): seq<Candidate>
  {
    LatticeUpTo(g, g.n, 0)
  }

  /** The lattice visits n points per row. */
  lemma {:induction false} LatticeLength(g: Lattice, a: nat, b: nat)
    requires b <= g.n
    ensures |LatticeUpTo(g, a, b)| == a * g.n + b
    decreases a, b
  {
    if b == 0 {
      if a > 0 {
        LatticeLength(g, a - 1, g.n);
      }
    } else {
      LatticeLength(g, a, b - 1);
    }
  }

  /** Point k of the lattice in visiting order is row k / n, column k % n. */
  lemma {:induction false} LatticeOrder(g: Lattice, a: nat, b: nat, k: nat)
    requires b <= g.n && k < a * g.n + b
    ensures g.n > 0 && k < |LatticeUpTo(g, a, b)| && LatticeUpTo(g, a, b)[k] == LatticePoint(g, k / g.n, k % g.n)
    decreases a, b
  {
    LatticeLength(g, a, b);
    if b == 0 {
      if a == 0 {
        assert false;
      } else {
        LatticeOrder(g, a - 1, g.n, k);
      }
    } else if k < a * g.n + b - 1 {
      LatticeLength(g, a, b - 1);
      LatticeOrder(g, a, b - 1, k);
    } else {
      LatticeLength(g, a, b - 1);
      DivModUnique(k, g.n, a, b - 1);
    }
  }

  /**
   * One lattice of the search as the source's pair of nested loops over the
   * rows y2 and the columns x2.
   */
  method SearchLattice(orig: array2<int>, buffer: array2<int>, x: int, y: int, bs: nat, bitDepth: nat, ghost errs: imap<Candidate, int>,
                       best0: MotionVector, g: Lattice) returns (best: MotionVector)
    requires IsPlane(orig) && IsPlane(buffer) && bs <= 64 && ErrorsOf(errs, orig, buffer, x, y, bs, bitDepth)
    ensures best == Search(errs, best0, LatticeCandidates(g))
  {
    best := best0;
    var y2 := g.y0;
    for a := 0 to g.n
      invariant y2 == g.y0 + g.step * a
      invariant best == Search(errs, best0, LatticeUpTo(g, a, 0))
    {
      best := SearchLatticeRow(orig, buffer, x, y, bs, bitDepth, errs, best0, g, a, y2, best);
      StepOn(g.step, a);
      y2 := y2 + g.step;
    }
  }

  /** Row a of a lattice (the loop over x2 for one y2). */
  method SearchLatticeRow(orig: array2<int>, buffer: array2<int>, x: int, y: int, bs: nat, bitDepth: nat, ghost errs: imap<Candidate, int>,
                          ghost best0: MotionVector, g: Lattice, ghost a: nat, y2: int, best1: MotionVector) returns (best: MotionVector)
    requires IsPlane(orig) && IsPlane(buffer) && bs <= 64 && ErrorsOf(errs, orig, buffer, x, y, bs, bitDepth)
    requires y2 == g.y0 + g.step * a
    requires best1 == Search(errs, best0, LatticeUpTo(g, a, 0))
    ensures best == Search(errs, best0, LatticeUpTo(g, a + 1, 0))
  {
    best := best1;
    var x2 := g.x0;
    for b := 0 to g.n
      invariant x2 == g.x0 + g.step * b
      invariant best == Search(errs, best0, LatticeUpTo(g, a, b))
    {
      var c := Candidate(x2 * g.scale, y2 * g.scale);
      assert c == LatticePoint(g, a, b);
      SearchSnoc(errs, best0, LatticeUpTo(g, a, b), c);
      best := Visit(orig, buffer, x, y, bs, bitDepth, errs, best, c);
      StepOn(g.step, b);
      x2 := x2 + g.step;
    }
  }

  lemma StepOn(step: int, k: int)
    ensures step * (k + 1) == step * k + step
  {
  }

  /** The whole-sample lattice of radius range around the whole-sample part (truncated) of the centre vector. */
  function FullPelLattice(centre: MotionVector, range: nat): Lattice
  {
    Lattice(CDiv(centre.x, MotionVectorFactor) - range, CDiv(centre.y, MotionVectorFactor) - range, 1, MotionVectorFactor, 2 * range + 1)
  }

  /**
   * A double-resolution refinement around the centre vector: 2 radius + 1
   * points per side with spacing step, in 1/16 sample. The source refines
   * with step 4 and radius 3 (within +-12), then with step 1 and radius 3
   * (within +-3).
   */
  function RefineLattice(centre: MotionVector, step: int, radius: nat): Lattice
  {
    Lattice(centre.x - step * radius, centre.y - step * radius, step, 1, 2 * radius + 1)
  }

  // ---------------------------------------------------------------------
  // Candidates from the coarser level
  // ---------------------------------------------------------------------

  /**
   * The predictor (a, b) of the 3x3 neighbourhood of the co-located block of
   * the coarser level (row testy = blockY / (2 bs) + a - 1, column testx =
   * blockX / (2 bs) + b - 1), scaled by factor; none when it falls outside
   * the coarser level's grid of width / (2 bs) by height / (2 bs) blocks.
   */
  function PreviousPoint(previous: array2<MotionVector>, blockX: int, blockY: int, bs: nat, factor: int, width: nat, height: nat,
                         a: int, b: int): (s: seq<Candidate>)
    reads previous
    requires bs > 0 && previous.Length0 >= width / (2 * bs) && previous.Length1 >= height / (2 * bs)
    ensures |s| <= 1
  {
    var testy := blockY / (2 * bs) + a - 1;
    var testx := blockX / (2 * bs) + b - 1;
    if 0 <= testx < width / (2 * bs) && 0 <= testy < height / (2 * bs) then
      var prior := previous[testx, testy];
      [Candidate(prior.x * factor, prior.y * factor)]
    else []
  }

  function PreviousUpTo(previous: array2<MotionVector>, blockX: int, blockY: int, bs: nat, factor: int, width: nat, height: nat,
                        a: nat, b: nat): seq<Candidate>
    reads previous
    requires bs > 0 && previous.Length0 >= width / (2 * bs) && previous.Length1 >= height / (2 * bs)
    requires b <= 3
    decreases a, b
  {
    if b == 0 then
      (if a == 0 then [] else PreviousUpTo(previous, blockX, blockY, bs, factor, width, height, a - 1, 3))
    else PreviousUpTo(previous, blockX, blockY, bs, factor, width, height, a, b - 1) +
         PreviousPoint(previous, blockX, blockY, bs, factor, width, height, a, b - 1)
  }

  /** The coarser level's predictors in the source's visiting order, followed by the zero vector. */
  function PreviousCandidates(previous: array2<MotionVector>, blockX: int, blockY: int, bs: nat, factor: int, width: nat, height: nat)
    : (s: seq<Candidate>)
    reads previous
    requires bs > 0 && previous.Length0 >= width / (2 * bs) && previous.Length1 >= height / (2 * bs)
    ensures 1 <= |s| <= 10 && s[|s| - 1] == Candidate(0, 0)
  {
    PreviousUpToLength(previous, blockX, blockY, bs, factor, width, height, 3, 0);
    PreviousUpTo(previous, blockX, blockY, bs, factor, width, height, 3, 0) + [Candidate(0, 0)]
  }

  lemma {:induction false} PreviousUpToLength(previous: array2<MotionVector>, blockX: int, blockY: int, bs: nat, factor: int,
                                              width: nat, height: nat, a: nat, b: nat)
    requires bs > 0 && previous.Length0 >= width / (2 * bs) && previous.Length1 >= height / (2 * bs)
    requires b <= 3
    ensures |PreviousUpTo(previous, blockX, blockY, bs, factor, width, height, a, b)| <= 3 * a + b
    decreases a, b
  {
    if b == 0 {
      if a > 0 {
        PreviousUpToLength(previous, blockX, blockY, bs, factor, width, height, a - 1, 3);
      }
    } else {
      PreviousUpToLength(previous, blockX, blockY, bs, factor, width, height, a, b - 1);
    }
  }

  /** The coarser-level phase: the 3x3 predictors (loops over py and px), then the zero vector. */
  method SearchPrevious(orig: array2<int>, buffer: array2<int>, previous: array2<MotionVector>, blockX: int, blockY: int, bs: nat,
                        factor: int, bitDepth: nat, ghost errs: imap<Candidate, int>, best0: MotionVector) returns (best: MotionVector)
    requires IsPlane(orig) && IsPlane(buffer) && 0 < bs <= 64 && ErrorsOf(errs, orig, buffer, blockX, blockY, bs, bitDepth)
    requires previous.Length0 >= orig.Length1 / (2 * bs) && previous.Length1 >= orig.Length0 / (2 * bs)
    ensures best == Search(errs, best0, PreviousCandidates(previous, blockX, blockY, bs, factor, orig.Length1, orig.Length0))
  {
    best := best0;
    for py := -1 to 2
      invariant best == Search(errs, best0, PreviousUpTo(previous, blockX, blockY, bs, factor, orig.Length1, orig.Length0, py + 1, 0))
    {
      best := SearchPreviousRow(orig, buffer, previous, blockX, blockY, bs, factor, bitDepth, errs, best0, py, best);
    }
    ghost var all := PreviousUpTo(previous, blockX, blockY, bs, factor, orig.Length1, orig.Length0, 3, 0);
    SearchSnoc(errs, best0, all, Candidate(0, 0));
    best := Visit(orig, buffer, blockX, blockY, bs, bitDepth, errs, best, Candidate(0, 0));
  }

  /** One row py of the coarser level's 3x3 neighbourhood (the loop over px). */
  method SearchPreviousRow(orig: array2<int>, buffer: array2<int>, previous: array2<MotionVector>, blockX: int, blockY: int, bs: nat,
                           factor: int, bitDepth: nat, ghost errs: imap<Candidate, int>, ghost best0: MotionVector, py: int,
                           best1: MotionVector) returns (best: MotionVector)
    requires IsPlane(orig) && IsPlane(buffer) && 0 < bs <= 64 && -1 <= py <= 1 && ErrorsOf(errs, orig, buffer, blockX, blockY, bs, bitDepth)
    requires previous.Length0 >= orig.Length1 / (2 * bs) && previous.Length1 >= orig.Length0 / (2 * bs)
    requires best1 == Search(errs, best0, PreviousUpTo(previous, blockX, blockY, bs, factor, orig.Length1, orig.Length0, py + 1, 0))
    ensures best == Search(errs, best0, PreviousUpTo(previous, blockX, blockY, bs, factor, orig.Length1, orig.Length0, py + 2, 0))
  {
    best := best1;
    for px := -1 to 2
      invariant best == Search(errs, best0, PreviousUpTo(previous, blockX, blockY, bs, factor, orig.Length1, orig.Length0, py + 1, px + 1))
    {
      best := SearchPreviousAt(orig, buffer, previous, blockX, blockY, bs, factor, bitDepth, errs, best0, py, px, best);
    }
    PreviousRowEnd(previous, blockX, blockY, bs, factor, orig.Length1, orig.Length0, py + 1);
  }

  /** The predictors of rows 0 .. a, the last one complete, are those of rows 0 .. a + 1 before that row starts. */
  lemma PreviousRowEnd(previous: array2<MotionVector>, blockX: int, blockY: int, bs: nat, factor: int, width: nat, height: nat, a: nat)
    requires bs > 0 && previous.Length0 >= width / (2 * bs) && previous.Length1 >= height / (2 * bs)
    ensures PreviousUpTo(previous, blockX, blockY, bs, factor, width, height, a + 1, 0) ==
            PreviousUpTo(previous, blockX, blockY, bs, factor, width, height, a, 3)
  {
  }

  /** The predictor at (px, py) of the coarser level's 3x3 neighbourhood, visited when it lies inside that level. */
  method SearchPreviousAt(orig: array2<int>, buffer: array2<int>, previous: array2<MotionVector>, blockX: int, blockY: int, bs: nat,
                          factor: int, bitDepth: nat, ghost errs: imap<Candidate, int>, ghost best0: MotionVector, py: int, px: int,
                          best1: MotionVector) returns (best: MotionVector)
    requires IsPlane(orig) && IsPlane(buffer) && 0 < bs <= 64 && -1 <= py <= 1 && -1 <= px <= 1
    requires ErrorsOf(errs, orig, buffer, blockX, blockY, bs, bitDepth)
    requires previous.Length0 >= orig.Length1 / (2 * bs) && previous.Length1 >= orig.Length0 / (2 * bs)
    requires best1 == Search(errs, best0, PreviousUpTo(previous, blockX, blockY, bs, factor, orig.Length1, orig.Length0, py + 1, px + 1))
    ensures best == Search(errs, best0, PreviousUpTo(previous, blockX, blockY, bs, factor, orig.Length1, orig.Length0, py + 1, px + 2))
  {
    var width, height := orig.Length1, orig.Length0;
    var testy := blockY / (2 * bs) + py;
    var testx := blockX / (2 * bs) + px;
    ghost var done := PreviousUpTo(previous, blockX, blockY, bs, factor, width, height, py + 1, px + 1);
    ghost var here := PreviousPoint(previous, blockX, blockY, bs, factor, width, height, py + 1, px + 1);
    best := best1;
    if 0 <= testx < width / (2 * bs) && 0 <= testy < height / (2 * bs) {
      var prior := previous[testx, testy];
      var c := Candidate(prior.x * factor, prior.y * factor);
      assert here == [c];
      SearchSnoc(errs, best0, done, c);
      best := Visit(orig, buffer, blockX, blockY, bs, bitDepth, errs, best, c);
    } else {
      assert here == [] && done + here == done;
    }
  }

  // ---------------------------------------------------------------------
  // One block
  // ---------------------------------------------------------------------

  /** The coarser level of motion vectors, when there is one, covers the blocks the search reads. */
  predicate PreviousFits(previous: array2?<MotionVector>, bs: nat, width: nat, height: nat)
    reads previous
  {
    bs > 0 && (previous != null ==> previous.Length0 >= width / (2 * bs) && previous.Length1 >= height / (2 * bs))
  }

  /** The coarser-level candidates of the block at (blockX, blockY): none without a coarser level. */
  function PreviousList(previous: array2?<MotionVector>, blockX: int, blockY: int, bs: nat, factor: int, width: nat, height: nat)
    : (s: seq<Candidate>)
    reads previous
    requires PreviousFits(previous, bs, width, height)
    ensures s == [] <==> previous == null
  {
    if previous == null then [] else PreviousCandidates(previous, blockX, blockY, bs, factor, width, height)
  }

  /** The radius of the whole-sample lattice: 8 without a coarser level, else 5, or 0 at double resolution. */
  function SearchRange(hasPrevious: bool, doubleRes: bool): (range: nat)
    ensures range == 8 <==> !hasPrevious
    ensures range == 0 <==> hasPrevious && doubleRes
  {
    if !hasPrevious then 8 else if doubleRes then 0 else 5
  }

  /** The vectors of the blocks above and to the left that the search tries last, when they exist. */
  function NeighbourCandidates(above: Option<MotionVector>, left: Option<MotionVector>): (s: seq<Candidate>)
    ensures |s| == (if above.Some? then 1 else 0) + (if left.Some? then 1 else 0)
  {
    (match above case Some(v) => [Candidate(v.x, v.y)] case None => []) +
    (match left case Some(v) => [Candidate(v.x, v.y)] case None => [])
  }

  /**
   * At double resolution, the refinement with spacing coarseStep around the
   * best so far, then the one with spacing fineStep around its result.
   */
  function Refine(errs: imap<Candidate, int>, best: MotionVector, doubleRes: bool, coarseStep: int, fineStep: int, radius: nat): MotionVector
  {
    if doubleRes then
      var b := Search(errs, best, LatticeCandidates(RefineLattice(best, coarseStep, radius)));
      Search(errs, b, LatticeCandidates(RefineLattice(b, fineStep, radius)))
    else best
  }

  /**
   * The vector the search of one block ends with, before its error is
   * normalised, phase by phase: the coarser level's candidates prior (empty
   * without a coarser level), the whole-sample lattice around the best so
   * far, at double resolution the two refinements each around the best so
   * far, and last the above and left vectors.
   */
  function BlockSearch(errs: imap<Candidate, int>, hasPrevious: bool, prior: seq<Candidate>, doubleRes: bool, start: MotionVector,
                       above: Option<MotionVector>, left: Option<MotionVector>): MotionVector
  {
    var b1 := Search(errs, start, prior);
    var b2 := Search(errs, b1, LatticeCandidates(FullPelLattice(b1, SearchRange(hasPrevious, doubleRes))));
    Search(errs, Refine(errs, b2, doubleRes, 4, 1, 3), NeighbourCandidates(above, left))
  }

  /** Every candidate the search of one block visits, in order. */
  function Visited(errs: imap<Candidate, int>, hasPrevious: bool, prior: seq<Candidate>, doubleRes: bool, start: MotionVector,
                   above: Option<MotionVector>, left: Option<MotionVector>): seq<Candidate>
  {
    var b1 := Search(errs, start, prior);
    var p2 := LatticeCandidates(FullPelLattice(b1, SearchRange(hasPrevious, doubleRes)));
    var b2 := Search(errs, b1, p2);
    var p3 := if doubleRes then LatticeCandidates(RefineLattice(b2, 4, 3)) else [];
    var b3 := Search(errs, b2, p3);
    var p4 := if doubleRes then LatticeCandidates(RefineLattice(b3, 1, 3)) else [];
    prior + p2 + p3 + p4 + NeighbourCandidates(above, left)
  }

  /** The phases amount to one search over everything visited. */
  lemma BlockSearchVisitsAll(errs: imap<Candidate, int>, hasPrevious: bool, prior: seq<Candidate>, doubleRes: bool, start: MotionVector,
                             above: Option<MotionVector>, left: Option<MotionVector>)
    ensures BlockSearch(errs, hasPrevious, prior, doubleRes, start, above, left) ==
            Search(errs, start, Visited(errs, hasPrevious, prior, doubleRes, start, above, left))
  {
    var b1 := Search(errs, start, prior);
    var p2 := LatticeCandidates(FullPelLattice(b1, SearchRange(hasPrevious, doubleRes)));
    var b2 := Search(errs, b1, p2);
    var p3 := if doubleRes then LatticeCandidates(RefineLattice(b2, 4, 3)) else [];
    var b3 := Search(errs, b2, p3);
    var p4 := if doubleRes then LatticeCandidates(RefineLattice(b3, 1, 3)) else [];
    var p5 := NeighbourCandidates(above, left);
    SearchConcat(errs, start, prior, p2);
    SearchConcat(errs, start, prior + p2, p3);
    SearchConcat(errs, start, prior + p2 + p3, p4);
    SearchConcat(errs, start, prior + p2 + p3 + p4, p5);
  }

  /**
   * The search of one block keeps a vector of least error among the start
   * and every candidate it visits; it replaces the start only when some
   * candidate is strictly better, and then every earlier candidate is
   * strictly worse than the one kept.
   */
  lemma BlockSearchKeepsEarliestMinimum(errs: imap<Candidate, int>, hasPrevious: bool, prior: seq<Candidate>, doubleRes: bool,
                                        start: MotionVector, above: Option<MotionVector>, left: Option<MotionVector>)
    ensures var v := Visited(errs, hasPrevious, prior, doubleRes, start, above, left);
            var r := BlockSearch(errs, hasPrevious, prior, doubleRes, start, above, left);
            r.error <= start.error &&
            (forall i :: 0 <= i < |v| ==> r.error <= Cost(errs, v[i])) &&
            ((forall i :: 0 <= i < |v| ==> Cost(errs, v[i]) >= start.error) ==> r == start) &&
            ((exists i :: 0 <= i < |v| && Cost(errs, v[i]) < start.error) ==>
               exists i :: 0 <= i < |v| && r == MotionVector(v[i].x, v[i].y, Cost(errs, v[i])) &&
                 forall j :: 0 <= j < i ==> Cost(errs, v[j]) > r.error)
  {
    BlockSearchVisitsAll(errs, hasPrevious, prior, doubleRes, start, above, left);
    SearchKeepsEarliestMinimum(errs, start, Visited(errs, hasPrevious, prior, doubleRes, start, above, left));
  }

  /** The last phase: the vectors of the blocks above and to the left. */
  method SearchNeighbours(orig: array2<int>, buffer: array2<int>, x: int, y: int, bs: nat, bitDepth: nat, ghost errs: imap<Candidate, int>,
                          best0: MotionVector, above: Option<MotionVector>, left: Option<MotionVector>) returns (best: MotionVector)
    requires IsPlane(orig) && IsPlane(buffer) && bs <= 64 && ErrorsOf(errs, orig, buffer, x, y, bs, bitDepth)
    ensures best == Search(errs, best0, NeighbourCandidates(above, left))
  {
    ghost var pa: seq<Candidate> := match above case Some(v) => [Candidate(v.x, v.y)] case None => [];
    ghost var pl: seq<Candidate> := match left case Some(v) => [Candidate(v.x, v.y)] case None => [];
    best := best0;
    if above.Some? {
      var c := Candidate(above.value.x, above.value.y);
      SearchSnoc(errs, best0, [], c);
      assert [] + [c] == pa;
      best := Visit(orig, buffer, x, y, bs, bitDepth, errs, best, c);
    }
    if left.Some? {
      var c := Candidate(left.value.x, left.value.y);
      SearchSnoc(errs, best0, pa, c);
      assert pa + [c] == pa + pl;
      best := Visit(orig, buffer, x, y, bs, bitDepth, errs, best, c);
    } else {
      assert pa + pl == pa;
    }
  }

  /** At double resolution, the two refinements around the best so far. */
  method SearchRefine(orig: array2<int>, buffer: array2<int>, x: int, y: int, bs: nat, bitDepth: nat, ghost errs: imap<Candidate, int>,
                      best0: MotionVector, doubleRes: bool, coarseStep: int, fineStep: int, radius: nat) returns (best: MotionVector)
    requires IsPlane(orig) && IsPlane(buffer) && bs <= 64 && ErrorsOf(errs, orig, buffer, x, y, bs, bitDepth)
    ensures best == Refine(errs, best0, doubleRes, coarseStep, fineStep, radius)
  {
    best := best0;
    if doubleRes {
      best := SearchLattice(orig, buffer, x, y, bs, bitDepth, errs, best, RefineLattice(best, coarseStep, radius));
      best := SearchLattice(orig, buffer, x, y, bs, bitDepth, errs, best, RefineLattice(best, fineStep, radius));
    }
  }

  /** The search of one block of motionEstimationLuma, phase by phase. */
  method SearchBlock(orig: array2<int>, buffer: array2<int>, previous: array2?<MotionVector>, blockX: int, blockY: int, bs: nat,
                     factor: int, doubleRes: bool, bitDepth: nat, ghost errs: imap<Candidate, int>, start: MotionVector,
                     above: Option<MotionVector>, left: Option<MotionVector>) returns (best: MotionVector)
    requires IsPlane(orig) && IsPlane(buffer) && bs <= 64 && PreviousFits(previous, bs, orig.Length1, orig.Length0)
    requires ErrorsOf(errs, orig, buffer, blockX, blockY, bs, bitDepth)
    ensures best == BlockSearch(errs, previous != null, PreviousList(previous, blockX, blockY, bs, factor, orig.Length1, orig.Length0),
                                doubleRes, start, above, left)
  {
    best := start;
    if previous != null {
      best := SearchPrevious(orig, buffer, previous, blockX, blockY, bs, factor, bitDepth, errs, start);
    }
    var range := SearchRange(previous != null, doubleRes);
    best := SearchLattice(orig, buffer, blockX, blockY, bs, bitDepth, errs, best, FullPelLattice(best, range));
    best := SearchRefine(orig, buffer, blockX, blockY, bs, bitDepth, errs, best, doubleRes, 4, 1, 3);
    best := SearchNeighbours(orig, buffer, blockX, blockY, bs, bitDepth, errs, best, above, left);
  }

  // ---------------------------------------------------------------------
  // All blocks of a plane
  // ---------------------------------------------------------------------

  /**
   * The vector motionEstimationLuma stores for the block at (blockX, blockY):
   * the search's result, with its error replaced by normalise(error, blockX,
   * blockY). The normalisation is the source's floating-point scaling by the
   * block's variance; the model takes it as a parameter.
   */
  function StoredVector(errs: imap<Candidate, int>, hasPrevious: bool, prior: seq<Candidate>, doubleRes: bool, start: MotionVector,
                        normalise: (int, int, int) -> int, blockX: int, blockY: int,
                        above: Option<MotionVector>, left: Option<MotionVector>): MotionVector
  {
    var best := BlockSearch(errs, hasPrevious, prior, doubleRes, start, above, left);
    MotionVector(best.x, best.y, normalise(best.error, blockX, blockY))
  }

  function ErrorsAt(table: imap<(int, int), imap<Candidate, int>>, x: int, y: int): imap<Candidate, int>
  {
    if (x, y) in table then table[(x, y)] else imap[]
  }

  function PriorAt(table: imap<(int, int), seq<Candidate>>, x: int, y: int): seq<Candidate>
  {
    if (x, y) in table then table[(x, y)] else []
  }

  /** A table of the error maps of the blocks at every position (x, y) of the plane. */
  ghost predicate IsErrorTable(table: imap<(int, int), imap<Candidate, int>>, orig: array2<int>, buffer: array2<int>, bs: nat, bitDepth: nat)
    reads orig, buffer
    requires IsPlane(orig) && IsPlane(buffer)
  {
    forall x, y {:trigger ErrorsAt(table, x, y)} :: ErrorsOf(ErrorsAt(table, x, y), orig, buffer, x, y, bs, bitDepth)
  }

  /** A table of the coarser-level candidates of the blocks at every position. */
  ghost predicate IsPriorTable(table: imap<(int, int), seq<Candidate>>, previous: array2?<MotionVector>, bs: nat, factor: int,
                               width: nat, height: nat)
    reads previous
    requires PreviousFits(previous, bs, width, height)
  {
    forall x, y {:trigger PriorAt(table, x, y)} :: PriorAt(table, x, y) == PreviousList(previous, x, y, bs, factor, width, height)
  }

  /** The table of error maps exists: ErrorMap at every position. */
  lemma ErrorTableExists(orig: array2<int>, buffer: array2<int>, bs: nat, bitDepth: nat)
    requires IsPlane(orig) && IsPlane(buffer)
    ensures exists table :: IsErrorTable(table, orig, buffer, bs, bitDepth)
  {
    var errors := imap p: (int, int) | true :: ErrorMap(orig, buffer, p.0, p.1, bs, bitDepth);
    forall x, y
      ensures ErrorsOf(ErrorsAt(errors, x, y), orig, buffer, x, y, bs, bitDepth)
    {
      assert ErrorsAt(errors, x, y) == ErrorMap(orig, buffer, x, y, bs, bitDepth);
      ErrorMapIsErrors(orig, buffer, x, y, bs, bitDepth);
    }
    assert IsErrorTable(errors, orig, buffer, bs, bitDepth);
  }

  /** The table of coarser-level candidates exists: PreviousList at every position. */
  lemma PriorTableExists(previous: array2?<MotionVector>, bs: nat, factor: int, width: nat, height: nat)
    requires PreviousFits(previous, bs, width, height)
    ensures exists table :: IsPriorTable(table, previous, bs, factor, width, height)
  {
    var priors := imap p: (int, int) | true :: PreviousList(previous, p.0, p.1, bs, factor, width, height);
    assert IsPriorTable(priors, previous, bs, factor, width, height);
  }

  /** The vector of the block above (i, j) in mvs, if there is one. */
  function Above(mvs: array2<MotionVector>, i: nat, j: nat): Option<MotionVector>
    reads mvs
    requires i < mvs.Length0 && j < mvs.Length1
  {
    if j > 0 then Some(mvs[i, j - 1]) else None
  }

  /** The vector of the block to the left of (i, j) in mvs, if there is one. */
  function Left(mvs: array2<MotionVector>, i: nat, j: nat): Option<MotionVector>
    reads mvs
    requires i < mvs.Length0 && j < mvs.Length1
  {
    if i > 0 then Some(mvs[i - 1, j]) else None
  }

  /**
   * The vectors motionEstimationLuma stores, block by block: the block in
   * column i and row j of blocks, at (i bs, j bs), gets its StoredVector,
   * with the vectors of the blocks above it and to its left as neighbours.
   */
  function Grid(errors: imap<(int, int), imap<Candidate, int>>, priors: imap<(int, int), seq<Candidate>>, hasPrevious: bool,
                doubleRes: bool, start: MotionVector, normalise: (int, int, int) -> int, bs: int, i: nat, j: nat): MotionVector
    decreases j, i
  {
    var above := if j > 0 then Some(Grid(errors, priors, hasPrevious, doubleRes, start, normalise, bs, i, j - 1)) else None;
    var left := if i > 0 then Some(Grid(errors, priors, hasPrevious, doubleRes, start, normalise, bs, i - 1, j)) else None;
    StoredVector(ErrorsAt(errors, i * bs, j * bs), hasPrevious, PriorAt(priors, i * bs, j * bs), doubleRes, start, normalise,
                 i * bs, j * bs, above, left)
  }

  /** g follows the recurrence of Grid at the block in column i and row j. */
  ghost predicate GridStep(g: (int, int) -> MotionVector, errors: imap<(int, int), imap<Candidate, int>>,
                           priors: imap<(int, int), seq<Candidate>>, hasPrevious: bool, doubleRes: bool, start: MotionVector,
                           normalise: (int, int, int) -> int, bs: int, i: nat, j: nat)
  {
    g(i, j) == StoredVector(ErrorsAt(errors, i * bs, j * bs), hasPrevious, PriorAt(priors, i * bs, j * bs), doubleRes, start,
                            normalise, i * bs, j * bs, if j > 0 then Some(g(i, j - 1)) else None,
                            if i > 0 then Some(g(i - 1, j)) else None)
  }

  /** g follows the recurrence of Grid at every block. */
  ghost predicate IsGrid(g: (int, int) -> MotionVector, errors: imap<(int, int), imap<Candidate, int>>,
                         priors: imap<(int, int), seq<Candidate>>, hasPrevious: bool, doubleRes: bool, start: MotionVector,
                         normalise: (int, int, int) -> int, bs: int)
  {
    forall i: nat, j: nat :: GridStep(g, errors, priors, hasPrevious, doubleRes, start, normalise, bs, i, j)
  }

  /** Grid as a function of the block's column and row, start outside the plane. */
  function GridFunction(errors: imap<(int, int), imap<Candidate, int>>, priors: imap<(int, int), seq<Candidate>>, hasPrevious: bool,
                        doubleRes: bool, start: MotionVector, normalise: (int, int, int) -> int, bs: int): (int, int) -> MotionVector
  {
    (i: int, j: int) => if i >= 0 && j >= 0 then Grid(errors, priors, hasPrevious, doubleRes, start, normalise, bs, i, j) else start
  }

  /** Grid follows its recurrence at the block (i, j). */
  lemma GridFunctionStep(errors: imap<(int, int), imap<Candidate, int>>, priors: imap<(int, int), seq<Candidate>>, hasPrevious: bool,
                         doubleRes: bool, start: MotionVector, normalise: (int, int, int) -> int, bs: int, i: nat, j: nat)
    ensures GridStep(GridFunction(errors, priors, hasPrevious, doubleRes, start, normalise, bs), errors, priors, hasPrevious, doubleRes,
                     start, normalise, bs, i, j)
  {
    var g := GridFunction(errors, priors, hasPrevious, doubleRes, start, normalise, bs);
    assert g(i, j) == Grid(errors, priors, hasPrevious, doubleRes, start, normalise, bs, i, j);
    assert j > 0 ==> g(i, j - 1) == Grid(errors, priors, hasPrevious, doubleRes, start, normalise, bs, i, j - 1);
    assert i > 0 ==> g(i - 1, j) == Grid(errors, priors, hasPrevious, doubleRes, start, normalise, bs, i - 1, j);
  }

  /** Grid itself follows its recurrence. */
  lemma GridExists(errors: imap<(int, int), imap<Candidate, int>>, priors: imap<(int, int), seq<Candidate>>, hasPrevious: bool,
                   doubleRes: bool, start: MotionVector, normalise: (int, int, int) -> int, bs: int)
    ensures exists g :: IsGrid(g, errors, priors, hasPrevious, doubleRes, start, normalise, bs)
  {
    var g := GridFunction(errors, priors, hasPrevious, doubleRes, start, normalise, bs);
    forall i: nat, j: nat
      ensures GridStep(g, errors, priors, hasPrevious, doubleRes, start, normalise, bs, i, j)
    {
      GridFunctionStep(errors, priors, hasPrevious, doubleRes, start, normalise, bs, i, j);
    }
    assert IsGrid(g, errors, priors, hasPrevious, doubleRes, start, normalise, bs);
  }

  /** The recurrence has one solution: every g that follows it is Grid, block by block. */
  lemma {:induction false} GridUnique(g: (int, int) -> MotionVector, errors: imap<(int, int), imap<Candidate, int>>,
                                      priors: imap<(int, int), seq<Candidate>>, hasPrevious: bool, doubleRes: bool,
                                      start: MotionVector, normalise: (int, int, int) -> int, bs: int, i: nat, j: nat)
    requires IsGrid(g, errors, priors, hasPrevious, doubleRes, start, normalise, bs)
    ensures g(i, j) == Grid(errors, priors, hasPrevious, doubleRes, start, normalise, bs, i, j)
    decreases j, i
  {
    assert GridStep(g, errors, priors, hasPrevious, doubleRes, start, normalise, bs, i, j);
    if j > 0 {
      GridUnique(g, errors, priors, hasPrevious, doubleRes, start, normalise, bs, i, j - 1);
    }
    if i > 0 {
      GridUnique(g, errors, priors, hasPrevious, doubleRes, start, normalise, bs, i - 1, j);
    }
  }

  /** One block: the whole search, then the normalised error. */
  method EstimateBlock(orig: array2<int>, buffer: array2<int>, previous: array2?<MotionVector>, bs: nat, factor: int,
                       doubleRes: bool, bitDepth: nat, start: MotionVector, normalise: (int, int, int) -> int,
                       blockX: int, blockY: int, above: Option<MotionVector>, left: Option<MotionVector>,
                       ghost errs: imap<Candidate, int>, ghost prior: seq<Candidate>) returns (v: MotionVector)
    requires IsPlane(orig) && IsPlane(buffer) && bs <= 64 && PreviousFits(previous, bs, orig.Length1, orig.Length0)
    requires ErrorsOf(errs, orig, buffer, blockX, blockY, bs, bitDepth)
    requires prior == PreviousList(previous, blockX, blockY, bs, factor, orig.Length1, orig.Length0)
    ensures v == StoredVector(errs, previous != null, prior, doubleRes, start, normalise, blockX, blockY, above, left)
  {
    var best := SearchBlock(orig, buffer, previous, blockX, blockY, bs, factor, doubleRes, bitDepth, errs, start, above, left);
    v := MotionVector(best.x, best.y, normalise(best.error, blockX, blockY));
  }

  /**
   * The body of the loop over blockX: reads the neighbours, searches and
   * stores the vector of the block in column col and row row of blocks.
   */
  method EstimateAt(mvs: array2<MotionVector>, orig: array2<int>, buffer: array2<int>, bs: nat,
                    previous: array2?<MotionVector>, factor: int, doubleRes: bool, bitDepth: nat,
                    start: MotionVector, normalise: (int, int, int) -> int,
                    ghost errors: imap<(int, int), imap<Candidate, int>>, ghost priors: imap<(int, int), seq<Candidate>>,
                    ghost g: (int, int) -> MotionVector, ghost col: nat, ghost row: nat, blockX: int, blockY: int)
    requires IsPlane(orig) && IsPlane(buffer) && 0 < bs <= 64
    requires previous != mvs && PreviousFits(previous, bs, orig.Length1, orig.Length0)
    requires IsErrorTable(errors, orig, buffer, bs, bitDepth) && IsPriorTable(priors, previous, bs, factor, orig.Length1, orig.Length0)
    requires IsGrid(g, errors, priors, previous != null, doubleRes, start, normalise, bs)
    requires blockX == col * bs && blockY == row * bs && col < mvs.Length0 && row < mvs.Length1
    requires row > 0 ==> mvs[col, row - 1] == g(col, row - 1)
    requires col > 0 ==> mvs[col - 1, row] == g(col - 1, row)
    modifies mvs
    ensures mvs[col, row] == g(col, row)
    ensures forall i, j :: 0 <= i < mvs.Length0 && 0 <= j < mvs.Length1 && (i, j) != (col, row) ==> mvs[i, j] == old(mvs[i, j])
  {
    var above, left := Neighbours(mvs, bs, blockX, blockY, col, row);
    var v := EstimateBlock(orig, buffer, previous, bs, factor, doubleRes, bitDepth, start, normalise, blockX, blockY, above, left,
                           ErrorsAt(errors, blockX, blockY), PriorAt(priors, blockX, blockY));
    assert GridStep(g, errors, priors, previous != null, doubleRes, start, normalise, bs, col, row);
    Store(mvs, bs, blockX, blockY, col, row, v);
  }

  /**
   * motionEstimationLuma: for every whole bs x bs block of the plane, in
   * row-major order, the search from start; the vectors of the blocks above
   * and to the left are the ones this pass has already stored. mvs is
   * indexed [column, row] of blocks; cells outside the plane's blocks keep
   * their values. The ghost results are the blocks' error maps and
   * coarser-level candidates, position by position.
   */
  method MotionEstimationLuma(mvs: array2<MotionVector>, orig: array2<int>, buffer: array2<int>, bs: nat,
                              previous: array2?<MotionVector>, factor: int, doubleRes: bool, bitDepth: nat,
                              start: MotionVector, normalise: (int, int, int) -> int)
    returns (ghost errors: imap<(int, int), imap<Candidate, int>>, ghost priors: imap<(int, int), seq<Candidate>>)
    requires IsPlane(orig) && IsPlane(buffer) && 0 < bs <= 64
    requires mvs.Length0 >= orig.Length1 / bs && mvs.Length1 >= orig.Length0 / bs
    requires previous != mvs && PreviousFits(previous, bs, orig.Length1, orig.Length0)
    modifies mvs
    ensures IsErrorTable(errors, orig, buffer, bs, bitDepth) && IsPriorTable(priors, previous, bs, factor, orig.Length1, orig.Length0)
    ensures forall i, j :: 0 <= i < orig.Length1 / bs && 0 <= j < orig.Length0 / bs ==>
              mvs[i, j] == StoredVector(ErrorsAt(errors, i * bs, j * bs), previous != null, PriorAt(priors, i * bs, j * bs),
                                        doubleRes, start, normalise, i * bs, j * bs, Above(mvs, i, j), Left(mvs, i, j))
    ensures forall i, j :: 0 <= i < orig.Length1 / bs && 0 <= j < orig.Length0 / bs ==>
              mvs[i, j] == Grid(errors, priors, previous != null, doubleRes, start, normalise, bs, i, j)
    ensures forall i, j :: 0 <= i < mvs.Length0 && 0 <= j < mvs.Length1 && !(i < orig.Length1 / bs && j < orig.Length0 / bs) ==>
              mvs[i, j] == old(mvs[i, j])
  {
    ErrorTableExists(orig, buffer, bs, bitDepth);
    PriorTableExists(previous, bs, factor, orig.Length1, orig.Length0);
    errors :| IsErrorTable(errors, orig, buffer, bs, bitDepth);
    priors :| IsPriorTable(priors, previous, bs, factor, orig.Length1, orig.Length0);
    GridExists(errors, priors, previous != null, doubleRes, start, normalise, bs);
    ghost var g :| IsGrid(g, errors, priors, previous != null, doubleRes, start, normalise, bs);
    MotionEstimationRows(mvs, orig, buffer, bs, previous, factor, doubleRes, bitDepth, start, normalise, errors, priors, g);
    GridStored(mvs, errors, priors, g, previous != null, doubleRes, start, normalise, bs, orig.Length1 / bs, orig.Length0 / bs);
  }

  /** The loop over blockY of motionEstimationLuma: every whole block of the plane gets the vector g gives it. */
  method MotionEstimationRows(mvs: array2<MotionVector>, orig: array2<int>, buffer: array2<int>, bs: nat,
                              previous: array2?<MotionVector>, factor: int, doubleRes: bool, bitDepth: nat,
                              start: MotionVector, normalise: (int, int, int) -> int,
                              ghost errors: imap<(int, int), imap<Candidate, int>>, ghost priors: imap<(int, int), seq<Candidate>>,
                              ghost g: (int, int) -> MotionVector)
    requires IsPlane(orig) && IsPlane(buffer) && 0 < bs <= 64
    requires mvs.Length0 >= orig.Length1 / bs && mvs.Length1 >= orig.Length0 / bs
    requires previous != mvs && PreviousFits(previous, bs, orig.Length1, orig.Length0)
    requires IsErrorTable(errors, orig, buffer, bs, bitDepth) && IsPriorTable(priors, previous, bs, factor, orig.Length1, orig.Length0)
    requires IsGrid(g, errors, priors, previous != null, doubleRes, start, normalise, bs)
    modifies mvs
    ensures forall i, j :: 0 <= i < orig.Length1 / bs && 0 <= j < orig.Length0 / bs ==> mvs[i, j] == g(i, j)
    ensures forall i, j :: 0 <= i < mvs.Length0 && 0 <= j < mvs.Length1 && !(i < orig.Length1 / bs && j < orig.Length0 / bs) ==>
              mvs[i, j] == old(mvs[i, j])
  {
    var blockY := 0;
    ghost var row: nat := 0;
    while blockY + bs <= orig.Length0
      invariant blockY == row * bs && row <= orig.Length0 / bs
      invariant IsErrorTable(errors, orig, buffer, bs, bitDepth) && IsPriorTable(priors, previous, bs, factor, orig.Length1, orig.Length0)
      invariant forall i, j :: 0 <= i < orig.Length1 / bs && 0 <= j < row ==> mvs[i, j] == g(i, j)
      invariant forall i, j :: 0 <= i < mvs.Length0 && 0 <= j < mvs.Length1 && !(i < orig.Length1 / bs && j < row) ==>
                  mvs[i, j] == old(mvs[i, j])
      decreases orig.Length0 - blockY
    {
      BlockCountBelow(row, blockY, orig.Length0, bs);
      MotionEstimationRow(mvs, orig, buffer, bs, previous, factor, doubleRes, bitDepth, start, normalise, errors, priors, g, row, blockY);
      NextBlock(row, bs);
      blockY := blockY + bs;
      row := row + 1;
    }
    BlockCountAtExit(row, blockY, orig.Length0, bs);
  }

  /** A grid of stored vectors that follows the recurrence holds Grid, and each block its search from its stored neighbours. */
  lemma GridStored(mvs: array2<MotionVector>, errors: imap<(int, int), imap<Candidate, int>>, priors: imap<(int, int), seq<Candidate>>,
                   g: (int, int) -> MotionVector, hasPrevious: bool, doubleRes: bool, start: MotionVector,
                   normalise: (int, int, int) -> int, bs: int, columns: int, rows: int)
    requires IsGrid(g, errors, priors, hasPrevious, doubleRes, start, normalise, bs)
    requires columns <= mvs.Length0 && rows <= mvs.Length1
    requires forall i, j :: 0 <= i < columns && 0 <= j < rows ==> mvs[i, j] == g(i, j)
    ensures forall i, j :: 0 <= i < columns && 0 <= j < rows ==>
              mvs[i, j] == StoredVector(ErrorsAt(errors, i * bs, j * bs), hasPrevious, PriorAt(priors, i * bs, j * bs),
                                        doubleRes, start, normalise, i * bs, j * bs, Above(mvs, i, j), Left(mvs, i, j))
    ensures forall i, j :: 0 <= i < columns && 0 <= j < rows ==>
              mvs[i, j] == Grid(errors, priors, hasPrevious, doubleRes, start, normalise, bs, i, j)
  {
    forall i, j | 0 <= i < columns && 0 <= j < rows
      ensures mvs[i, j] == StoredVector(ErrorsAt(errors, i * bs, j * bs), hasPrevious, PriorAt(priors, i * bs, j * bs),
                                        doubleRes, start, normalise, i * bs, j * bs, Above(mvs, i, j), Left(mvs, i, j))
      ensures mvs[i, j] == Grid(errors, priors, hasPrevious, doubleRes, start, normalise, bs, i, j)
    {
      assert GridStep(g, errors, priors, hasPrevious, doubleRes, start, normalise, bs, i, j);
      GridUnique(g, errors, priors, hasPrevious, doubleRes, start, normalise, bs, i, j);
    }
  }

  /**
   * One row of blocks of motionEstimationLuma (the loop over blockX): every
   * whole block of the row gets its vector, reading the rows above, which
   * the earlier passes of the outer loop stored; nothing else in mvs changes.
   */
  method MotionEstimationRow(mvs: array2<MotionVector>, orig: array2<int>, buffer: array2<int>, bs: nat,
                             previous: array2?<MotionVector>, factor: int, doubleRes: bool, bitDepth: nat,
                             start: MotionVector, normalise: (int, int, int) -> int,
                             ghost errors: imap<(int, int), imap<Candidate, int>>, ghost priors: imap<(int, int), seq<Candidate>>,
                             ghost g: (int, int) -> MotionVector, ghost row: nat, blockY: nat)
    requires IsPlane(orig) && IsPlane(buffer) && 0 < bs <= 64
    requires mvs.Length0 >= orig.Length1 / bs && mvs.Length1 > row
    requires previous != mvs && PreviousFits(previous, bs, orig.Length1, orig.Length0)
    requires IsErrorTable(errors, orig, buffer, bs, bitDepth) && IsPriorTable(priors, previous, bs, factor, orig.Length1, orig.Length0)
    requires IsGrid(g, errors, priors, previous != null, doubleRes, start, normalise, bs)
    requires blockY == row * bs
    requires forall i, j :: 0 <= i < orig.Length1 / bs && 0 <= j < row ==> mvs[i, j] == g(i, j)
    modifies mvs
    ensures forall i :: 0 <= i < orig.Length1 / bs ==> mvs[i, row] == g(i, row)
    ensures forall i, j :: 0 <= i < mvs.Length0 && 0 <= j < mvs.Length1 && !(j == row && i < orig.Length1 / bs) ==>
              mvs[i, j] == old(mvs[i, j])
  {
    var blockX := 0;
    ghost var col: nat := 0;
    while blockX + bs <= orig.Length1
      invariant blockX == col * bs && col <= orig.Length1 / bs
      invariant forall i :: 0 <= i < col ==> mvs[i, row] == g(i, row)
      invariant forall i, j :: 0 <= i < mvs.Length0 && 0 <= j < mvs.Length1 && !(j == row && i < col) ==>
                  mvs[i, j] == old(mvs[i, j])
      decreases orig.Length1 - blockX
    {
      BlockCountBelow(col, blockX, orig.Length1, bs);
      EstimateAt(mvs, orig, buffer, bs, previous, factor, doubleRes, bitDepth, start, normalise, errors, priors, g, col, row,
                 blockX, blockY);
      NextBlock(col, bs);
      blockX := blockX + bs;
      col := col + 1;
    }
    BlockCountAtExit(col, blockX, orig.Length1, bs);
  }

  /** The vectors of the blocks above and to the left of the block at (blockX, blockY), read from mvs. */
  method Neighbours(mvs: array2<MotionVector>, bs: nat, blockX: int, blockY: int, ghost col: nat, ghost row: nat)
    returns (above: Option<MotionVector>, left: Option<MotionVector>)
    requires bs > 0 && blockX == col * bs && blockY == row * bs && col < mvs.Length0 && row < mvs.Length1
    ensures above == Above(mvs, col, row) && left == Left(mvs, col, row)
  {
    BlockOfPosition(col, blockX, bs);
    BlockOfPosition(row, blockY, bs);
    above := if blockY > 0 then Some(mvs[blockX / bs, (blockY - bs) / bs]) else None;
    left := if blockX > 0 then Some(mvs[(blockX - bs) / bs, blockY / bs]) else None;
  }

  /** Stores v as the vector of the block at (blockX, blockY). */
  method Store(mvs: array2<MotionVector>, bs: nat, blockX: int, blockY: int, ghost col: nat, ghost row: nat, v: MotionVector)
    requires bs > 0 && blockX == col * bs && blockY == row * bs && col < mvs.Length0 && row < mvs.Length1
    modifies mvs
    ensures mvs[col, row] == v
    ensures forall i, j :: 0 <= i < mvs.Length0 && 0 <= j < mvs.Length1 && (i, j) != (col, row) ==> mvs[i, j] == old(mvs[i, j])
  {
    BlockOfPosition(col, blockX, bs);
    BlockOfPosition(row, blockY, bs);
    mvs[blockX / bs, blockY / bs] := v;
  }

  /** The block at x = q d is block q, and the block before it, when there is one, is q - 1. */
  lemma BlockOfPosition(q: nat, x: int, d: nat)
    requires d > 0 && x == q * d
    ensures x / d == q && (x > 0 <==> q > 0) && (q > 0 ==> (x - d) / d == q - 1)
  {
    DivModUnique(x, d, q, 0);
    if q > 0 {
      MulAtLeast(q, d);
      StepOn(d, q - 1);
      DivModUnique(x - d, d, q - 1, 0);
    }
  }

  /** The block after block q of size d starts d further on. */
  lemma NextBlock(q: int, d: int)
    ensures (q + 1) * d == q * d + d
  {
  }

  /** A whole block of size d that starts at x = q d and fits in n is one of the first n / d. */
  lemma BlockCountBelow(q: nat, x: nat, n: nat, d: nat)
    requires d > 0 && x == q * d && x + d <= n
    ensures q < n / d
  {
    DivModSplit(n, d);
    if q >= n / d {
      MulNonNegative(q - n / d, d);
      assert false;
    }
  }

  /** A loop over whole blocks of size d stops after n / d of them. */
  lemma BlockCountAtExit(q: nat, x: nat, n: nat, d: nat)
    requires d > 0 && x == q * d && q <= n / d && x + d > n
    ensures q == n / d
  {
    DivModSplit(n, d);
    if q < n / d {
      MulAtLeast(n / d - q, d);
      assert false;
    }
  }
}
