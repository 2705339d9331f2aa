/**
 * The frame-level control of the motion-compensated temporal pre-filter
 * (EncTemporalFilter::init and EncTemporalFilter::filter): which frames
 * are filtered and with what strength, which neighbouring frames serve as
 * references, the number of CTUs, and the block-importance QP offsets the
 * filter hands to the encoder through its adaptive-QP map.
 *
 * The pictures themselves, their reads from the input file and the
 * floating-point parts (the bilateral filter and the error averaging that
 * produces each CTU's weighted error) are outside this module: whether the
 * read of a frame succeeds is the parameter readOk, and the weighted
 * errors are the parameter weightedErr.
 */
module TemporalFilter {
  import opened Common

  // ---------------------------------------------------------------------
  // Frame selection and strength
  // ---------------------------------------------------------------------

  /** Below this QP the filter is off. */
  const MinFilterQp: int := 17

  /** The value overallStrength starts from when no key matches. */
  const NoStrength: real := -1.0

  /** One entry of the strength map: a frame period and its filter strength. */
  datatype Strength = Strength(frame: int, strength: real)

  /** filter divides the POC by every key, so no key is zero. */
  predicate NonzeroKeys(s: seq<Strength>)
  {
    forall i :: 0 <= i < |s| ==> s[i].frame != 0
  }

  /** The strengths as a std::map<int, double> holds them: keys ascending and distinct, none zero. */
  predicate StrengthsValid(s: seq<Strength>)
  {
    NonzeroKeys(s) && forall i, j :: 0 <= i < j < |s| ==> s[i].frame < s[j].frame
  }

  /**
   * `poc % frame == 0`. C's remainder truncates towards zero and Dafny's is
   * Euclidean, but both are zero exactly when frame divides poc.
   */
  predicate Matches(e: Strength, poc: int)
    requires e.frame != 0
  {
    poc % e.frame == 0
  }

  /** A frame is filtered when the QP is at least 17 and some key of the strength map divides its POC. */
  predicate SelectsFrame(qp: int, s: seq<Strength>, poc: int)
    requires NonzeroKeys(s)
  {
    qp >= MinFilterQp && exists i :: 0 <= i < |s| && Matches(s[i], poc)
  }

  /** The first loop of filter: the scan over the map that stops at the first dividing key. */
  method IsFilterThisFrame(qp: int, s: seq<Strength>, poc: int) returns (r: bool)
    requires NonzeroKeys(s)
    ensures r == SelectsFrame(qp, s, poc)
  {
    r := false;
    if qp >= MinFilterQp {
      var i := 0;
      while i < |s|
        invariant 0 <= i <= |s|
        invariant forall j :: 0 <= j < i ==> !Matches(s[j], poc)
      {
        if Matches(s[i], poc) {
          r := true;
          break;
        }
        i := i + 1;
      }
    }
  }

  /** The strength of the last key, in map order, that divides poc; NoStrength when none does. */
  function LastMatch(s: seq<Strength>, poc: int): real
    requires NonzeroKeys(s)
  {
    if |s| == 0 then NoStrength
    else if Matches(s[|s| - 1], poc) then s[|s| - 1].strength
    else LastMatch(s[..|s| - 1], poc)
  }

  /** What LastMatch is: the strength of a dividing key that no later key overrides, and NoStrength without one. */
  lemma {:induction false} LastMatchSpec(s: seq<Strength>, poc: int)
    requires NonzeroKeys(s)
    ensures (forall i :: 0 <= i < |s| ==> !Matches(s[i], poc)) ==> LastMatch(s, poc) == NoStrength
    ensures forall i :: 0 <= i < |s| && Matches(s[i], poc) && (forall j :: i < j < |s| ==> !Matches(s[j], poc)) ==>
              LastMatch(s, poc) == s[i].strength
  {
    if |s| > 0 {
      var t := s[..|s| - 1];
      assert forall k :: 0 <= k < |t| ==> t[k] == s[k];
      LastMatchSpec(t, poc);
      forall i | 0 <= i < |s| && Matches(s[i], poc) && (forall j :: i < j < |s| ==> !Matches(s[j], poc))
        ensures LastMatch(s, poc) == s[i].strength
      {
        if i < |s| - 1 {
          assert !Matches(s[|s| - 1], poc);
          assert forall j :: i < j < |t| ==> !Matches(t[j], poc);
        }
      }
    }
  }

  /** When some key divides poc, the overall strength is the strength of one that does. */
  lemma {:induction false} LastMatchFound(s: seq<Strength>, poc: int)
    requires NonzeroKeys(s) && exists i :: 0 <= i < |s| && Matches(s[i], poc)
    ensures exists i :: 0 <= i < |s| && Matches(s[i], poc) && LastMatch(s, poc) == s[i].strength
  {
    var last := |s| - 1;
    if !Matches(s[last], poc) {
      var t := s[..last];
      assert forall k :: 0 <= k < |t| ==> t[k] == s[k];
      var i :| 0 <= i < |s| && Matches(s[i], poc);
      assert i < last && Matches(t[i], poc);
      LastMatchFound(t, poc);
      var k :| 0 <= k < |t| && Matches(t[k], poc) && LastMatch(t, poc) == t[k].strength;
      assert Matches(s[k], poc) && LastMatch(s, poc) == s[k].strength;
    }
  }

  /** A frame filter selects gets the strength of one of its dividing keys, never the initial NoStrength of an empty scan. */
  lemma SelectedFrameStrength(qp: int, s: seq<Strength>, poc: int)
    requires NonzeroKeys(s) && SelectsFrame(qp, s, poc)
    ensures exists i :: 0 <= i < |s| && Matches(s[i], poc) && LastMatch(s, poc) == s[i].strength
  {
    LastMatchFound(s, poc);
  }

  /** The loop of filter that sets overallStrength at every dividing key, walking the whole map. */
  method OverallStrength(s: seq<Strength>, poc: int) returns (strength: real)
    requires NonzeroKeys(s)
    ensures strength == LastMatch(s, poc)
  {
    strength := NoStrength;
    for i := 0 to |s|
      invariant NonzeroKeys(s[..i]) && strength == LastMatch(s[..i], poc)
    {
      assert s[..i + 1][..i] == s[..i];
      if Matches(s[i], poc) {
        strength := s[i].strength;
      }
    }
    assert s[..|s|] == s;
  }

  // ---------------------------------------------------------------------
  // Reference frames
  // ---------------------------------------------------------------------

  /** firstFrame: pastRefs frames back, but not before the first valid frame. */
  function FirstFrame(cur: int, pastRefs: int, firstValid: int): int
  {
    Max(cur - pastRefs, firstValid)
  }

  /** lastFrame: futureRefs frames ahead, but not after the last valid frame. */
  function LastFrame(cur: int, futureRefs: int, lastValid: int): int
  {
    Min(cur + futureRefs, lastValid)
  }

  /**
   * The POC offsets of the references the loop over poc = p .. last
   * collects: the frame cur itself is hopped over, and the first read that
   * fails ends the loop.
   */
  function RefsFrom(p: int, last: int, cur: int, readOk: int -> bool): seq<int>
    decreases last + 1 - p
  {
    if p > last then []
    else if p == cur then RefsFrom(p + 1, last, cur, readOk)
    else if !readOk(p) then []
    else [p - cur] + RefsFrom(p + 1, last, cur, readOk)
  }

  /** The references of the frame at file POC cur. */
  function References(cur: int, pastRefs: int, futureRefs: int, firstValid: int, lastValid: int, readOk: int -> bool): seq<int>
  {
    RefsFrom(FirstFrame(cur, pastRefs, firstValid), LastFrame(cur, futureRefs, lastValid), cur, readOk)
  }

  /** Offsets, relative to cur, of frames in lo .. hi other than cur whose reads succeeded. */
  predicate OffsetsIn(r: seq<int>, lo: int, hi: int, cur: int, readOk: int -> bool)
  {
    forall i :: 0 <= i < |r| ==> r[i] != 0 && lo <= cur + r[i] <= hi && readOk(cur + r[i])
  }

  predicate Ascending(r: seq<int>)
  {
    forall i, j :: 0 <= i < j < |r| ==> r[i] < r[j]
  }

  /** Each collected offset is nonzero and names a frame of the window that was read. */
  lemma {:induction false} RefsInWindow(p: int, last: int, cur: int, readOk: int -> bool)
    ensures OffsetsIn(RefsFrom(p, last, cur, readOk), p, last, cur, readOk)
    decreases last + 1 - p
  {
    if p <= last {
      var r, tail := RefsFrom(p, last, cur, readOk), RefsFrom(p + 1, last, cur, readOk);
      RefsInWindow(p + 1, last, cur, readOk);
      if p != cur && readOk(p) {
        assert r == [p - cur] + tail;
        forall i | 0 <= i < |r|
          ensures r[i] != 0 && p <= cur + r[i] <= last && readOk(cur + r[i])
        {
          if i > 0 {
            assert r[i] == tail[i - 1];
          }
        }
      }
    }
  }

  /** The collected offsets strictly increase. */
  lemma {:induction false} RefsAscending(p: int, last: int, cur: int, readOk: int -> bool)
    ensures Ascending(RefsFrom(p, last, cur, readOk))
    decreases last + 1 - p
  {
    if p <= last {
      var r, tail := RefsFrom(p, last, cur, readOk), RefsFrom(p + 1, last, cur, readOk);
      RefsAscending(p + 1, last, cur, readOk);
      if p != cur && readOk(p) {
        RefsInWindow(p + 1, last, cur, readOk);
        assert r == [p - cur] + tail;
        forall i, j | 0 <= i < j < |r|
          ensures r[i] < r[j]
        {
          assert r[j] == tail[j - 1] && cur + tail[j - 1] >= p + 1;
          if i > 0 {
            assert r[i] == tail[i - 1];
          }
        }
      }
    }
  }

  /** No reference lies at or beyond a frame whose read failed. */
  lemma {:induction false} RefsStopAtFailure(p: int, last: int, cur: int, readOk: int -> bool, q: int)
    requires p <= q <= last && q != cur && !readOk(q)
    ensures forall i :: 0 <= i < |RefsFrom(p, last, cur, readOk)| ==> cur + RefsFrom(p, last, cur, readOk)[i] < q
    decreases last + 1 - p
  {
    if p < q {
      RefsStopAtFailure(p + 1, last, cur, readOk, q);
      RefsInWindow(p + 1, last, cur, readOk);
    }
  }

  /** The number of frames of p .. last other than cur. */
  function WindowSize(p: int, last: int, cur: int): (n: int)
  {
    (if p <= last then last - p + 1 else 0) - (if p <= cur <= last then 1 else 0)
  }

  /** When every read succeeds, every frame of the window but cur becomes a reference. */
  lemma {:induction false} RefsAllRead(p: int, last: int, cur: int, readOk: int -> bool)
    requires forall q :: p <= q <= last ==> readOk(q)
    ensures |RefsFrom(p, last, cur, readOk)| == WindowSize(p, last, cur)
    decreases last + 1 - p
  {
    if p <= last {
      RefsAllRead(p + 1, last, cur, readOk);
    }
  }

  /**
   * The references of filter: offsets in [-pastRefs, futureRefs] naming
   * valid frames other than the filtered one, each read successfully,
   * ascending; all of them when every read succeeds.
   */
  lemma ReferenceWindow(cur: int, pastRefs: int, futureRefs: int, firstValid: int, lastValid: int, readOk: int -> bool)
    ensures var r := References(cur, pastRefs, futureRefs, firstValid, lastValid, readOk);
            (forall i :: 0 <= i < |r| ==> r[i] != 0 && -pastRefs <= r[i] <= futureRefs && firstValid <= cur + r[i] <= lastValid) &&
            Ascending(r)
    ensures (forall q :: firstValid <= q <= lastValid ==> readOk(q)) ==>
              |References(cur, pastRefs, futureRefs, firstValid, lastValid, readOk)| ==
              WindowSize(FirstFrame(cur, pastRefs, firstValid), LastFrame(cur, futureRefs, lastValid), cur)
  {
    var first, last := FirstFrame(cur, pastRefs, firstValid), LastFrame(cur, futureRefs, lastValid);
    var r := References(cur, pastRefs, futureRefs, firstValid, lastValid, readOk);
    assert r == RefsFrom(first, last, cur, readOk);
    assert cur - pastRefs <= first && firstValid <= first && last <= cur + futureRefs && last <= lastValid;
    RefsInWindow(first, last, cur, readOk);
    RefsAscending(first, last, cur, readOk);
    if forall q :: firstValid <= q <= lastValid ==> readOk(q) {
      RefsAllRead(first, last, cur, readOk);
    }
  }

  /** The loop over poc = firstFrame .. lastFrame of filter, reduced to the offsets of the references it keeps. */
  method CollectReferences(first: int, last: int, cur: int, readOk: int -> bool) returns (offsets: seq<int>)
    ensures offsets == RefsFrom(first, last, cur, readOk)
  {
    offsets := [];
    var poc := first;
    while poc <= last
      invariant offsets + RefsFrom(poc, last, cur, readOk) == RefsFrom(first, last, cur, readOk)
      decreases last + 1 - poc
    {
      if poc == cur {
        poc := poc + 1;
        continue;
      }
      if !readOk(poc) {
        assert offsets + [] == offsets;
        break;
      }
      assert offsets + ([poc - cur] + RefsFrom(poc + 1, last, cur, readOk)) == (offsets + [poc - cur]) + RefsFrom(poc + 1, last, cur, readOk);
      offsets := offsets + [poc - cur];
      poc := poc + 1;
    }
    assert offsets + [] == offsets;
  }

  // ---------------------------------------------------------------------
  // CTUs and block-importance QP offsets
  // ---------------------------------------------------------------------

  /** `(n + d - 1) / d`, the number of d-sized pieces that cover n. */
  function CeilDiv(n: nat, d: nat): nat
    requires d > 0
  {
    (n + d - 1) / d
  }

  /** CeilDiv(n, d) pieces of size d cover n, and one fewer do not. */
  lemma CeilDivBounds(n: nat, d: nat)
    requires d > 0
    ensures CeilDiv(n, d) * d >= n && (CeilDiv(n, d) - 1) * d < n
    ensures n > 0 <==> CeilDiv(n, d) > 0
  {
    var q := CeilDiv(n, d);
    DivModSplit(n + d - 1, d);
    assert (q - 1) * d == q * d - d;
    if n > 0 && q == 0 {
      assert false;
    }
  }

  /** m_numCtu: the CTU columns times the CTU rows of a width x height picture. */
  function NumCtu(width: nat, height: nat, ctuSize: nat): nat
    requires ctuSize > 0
  {
    CeilDiv(width, ctuSize) * CeilDiv(height, ctuSize)
  }

  /** The CTU grid covers the picture with no column or row of CTUs to spare, and is empty only for an empty picture. */
  lemma NumCtuCoversPicture(width: nat, height: nat, ctuSize: nat)
    requires ctuSize > 0
    ensures var cols, rows := CeilDiv(width, ctuSize), CeilDiv(height, ctuSize);
            NumCtu(width, height, ctuSize) == cols * rows &&
            cols * ctuSize >= width && (cols - 1) * ctuSize < width &&
            rows * ctuSize >= height && (rows - 1) * ctuSize < height
    ensures NumCtu(width, height, ctuSize) > 0 <==> width > 0 && height > 0
  {
    CeilDivBounds(width, ctuSize);
    CeilDivBounds(height, ctuSize);
    var cols, rows := CeilDiv(width, ctuSize), CeilDiv(height, ctuSize);
    if cols > 0 && rows > 0 {
      MulAtLeast(cols, rows);
    }
  }

  /** m_cuTreeThresh. */
  const CuTreeThresh: seq<int> := [75, 60, 30, 15]

  /** The QP offset of one CTU from its weighted error. */
  function CtuQpOffset(weightedErr: int): (q: int)
    ensures -2 <= q <= 2
  {
    if weightedErr > CuTreeThresh[0] then 2
    else if weightedErr > CuTreeThresh[1] then 1
    else if weightedErr < CuTreeThresh[3] then -2
    else if weightedErr < CuTreeThresh[2] then -1
    else 0
  }

  /** The five bands of the offset: raised above 60, lowered below 30, by two beyond 75 and below 15. */
  lemma CtuQpOffsetBands(e: int)
    ensures CtuQpOffset(e) > 0 <==> e > 60
    ensures CtuQpOffset(e) < 0 <==> e < 30
    ensures CtuQpOffset(e) == 2 <==> e > 75
    ensures CtuQpOffset(e) == -2 <==> e < 15
    ensures CtuQpOffset(e) == 0 <==> 30 <= e <= 60
  {
  }

  /** A larger weighted error never gets a smaller offset. */
  lemma CtuQpOffsetMonotone(a: int, b: int)
    requires a <= b
    ensures CtuQpOffset(a) <= CtuQpOffset(b)
  {
  }

  /** The qpMap of one picture, CTU by CTU. */
  function QpMap(weightedErr: seq<int>): (m: seq<int>)
    ensures |m| == |weightedErr|
    ensures forall i :: 0 <= i < |m| ==> m[i] == CtuQpOffset(weightedErr[i]) && -2 <= m[i] <= 2
  {
    seq(|weightedErr|, i requires 0 <= i < |weightedErr| => CtuQpOffset(weightedErr[i]))
  }

  /** The loop over the CTUs that fills a fresh qpMap. */
  method BuildQpMap(weightedErr: seq<int>) returns (qpMap: array<int>)
    ensures fresh(qpMap) && qpMap[..] == QpMap(weightedErr)
  {
    qpMap := new int[|weightedErr|];
    for i := 0 to |weightedErr|
      invariant forall j :: 0 <= j < i ==> qpMap[j] == CtuQpOffset(weightedErr[j])
    {
      if weightedErr[i] > CuTreeThresh[0] {
        qpMap[i] := 2;
      } else if weightedErr[i] > CuTreeThresh[1] {
        qpMap[i] := 1;
      } else if weightedErr[i] < CuTreeThresh[3] {
        qpMap[i] := -2;
      } else if weightedErr[i] < CuTreeThresh[2] {
        qpMap[i] := -1;
      } else {
        qpMap[i] := 0;
      }
    }
  }

  /** std::map::insert: a key already present keeps its value. */
  function InsertIfAbsent(m: map<int, seq<int>>, k: int, v: seq<int>): (r: map<int, seq<int>>)
    ensures k in r && r[k] == (if k in m then m[k] else v)
    ensures forall k' :: k' != k ==> (k' in r <==> k' in m)
    ensures forall k' :: k' != k && k' in m ==> r[k'] == m[k']
  {
    if k in m then m else m[k := v]
  }

  /** Of two inserts under one POC the first wins. */
  lemma FirstInsertWins(m: map<int, seq<int>>, k: int, v1: seq<int>, v2: seq<int>)
    ensures InsertIfAbsent(InsertIfAbsent(m, k, v1), k, v2) == InsertIfAbsent(m, k, v1)
  {
  }

  // ---------------------------------------------------------------------
  // EncTemporalFilter
  // ---------------------------------------------------------------------

  class EncTemporalFilter {
    var frameSkip: int
    var qp: int
    var strengths: seq<Strength>
    var pastRefs: int
    var futureRefs: int
    var firstValidFrame: int
    var lastValidFrame: int
    var mctfEnabled: bool
    var bimEnabled: bool
    var numCtu: nat
    var ctuSize: nat
    /** The map m_ctuAdaptedQP points to: POC to the QP offsets of that picture's CTUs. */
    var ctuAdaptedQP: map<int, seq<int>>

    ghost predicate Valid()
      reads this`strengths
    {
      StrengthsValid(strengths)
    }

    /** EncTemporalFilter(): frameSkip and QP zero; the rest comes with init. */
    constructor ()
      ensures Valid() && frameSkip == 0 && qp == 0 && strengths == [] && ctuAdaptedQP == map[]
    {
      frameSkip, qp, strengths := 0, 0, [];
      pastRefs, futureRefs, firstValidFrame, lastValidFrame := 0, 0, 0, 0;
      mctfEnabled, bimEnabled := false, false;
      numCtu, ctuSize := 0, 0;
      ctuAdaptedQP := map[];
    }

    /** init, for the members filter uses: the settings as given, and the CTU count of the source picture. */
    method Init(frameSkip': int, qp': int, strengths': seq<Strength>, pastRefs': int, futureRefs': int,
                firstValidFrame': int, lastValidFrame': int, mctfEnabled': bool, bimEnabled': bool,
                width: nat, height: nat, ctuSize': nat, adaptQpMap: map<int, seq<int>>)
      requires StrengthsValid(strengths') && ctuSize' > 0
      modifies this
      ensures Valid() && numCtu == NumCtu(width, height, ctuSize')
      ensures frameSkip == frameSkip' && qp == qp' && strengths == strengths' && ctuSize == ctuSize'
      ensures pastRefs == pastRefs' && futureRefs == futureRefs' && firstValidFrame == firstValidFrame' && lastValidFrame == lastValidFrame'
      ensures mctfEnabled == mctfEnabled' && bimEnabled == bimEnabled' && ctuAdaptedQP == adaptQpMap
    {
      var n := NumCtu(width, height, ctuSize');
      frameSkip := frameSkip';
      qp := qp';
      strengths := strengths';
      pastRefs := pastRefs';
      futureRefs := futureRefs';
      firstValidFrame := firstValidFrame';
      lastValidFrame := lastValidFrame';
      mctfEnabled := mctfEnabled';
      bimEnabled := bimEnabled';
      numCtu := n;
      ctuSize := ctuSize';
      ctuAdaptedQP := adaptQpMap;
    }

    /**
     * filter(orgPic, receivedPoc), for what it decides: whether the frame is
     * filtered, the offsets of its reference frames, the overall strength the
     * bilateral filter receives, and the qpMap entry it adds under
     * receivedPoc when block importance mapping is on.
     */
    method Filter(receivedPoc: int, readOk: int -> bool, weightedErr: seq<int>) returns (filtered: bool, refs: seq<int>, strength: real)
      requires Valid() && |weightedErr| == numCtu
      modifies this`ctuAdaptedQP
      ensures filtered <==> SelectsFrame(qp, strengths, receivedPoc) &&
                            References(receivedPoc + frameSkip, pastRefs, futureRefs, firstValidFrame, lastValidFrame, readOk) != []
      ensures filtered ==> refs == References(receivedPoc + frameSkip, pastRefs, futureRefs, firstValidFrame, lastValidFrame, readOk)
      ensures filtered ==> strength == LastMatch(strengths, receivedPoc)
      ensures ctuAdaptedQP == if filtered && bimEnabled then InsertIfAbsent(old(ctuAdaptedQP), receivedPoc, QpMap(weightedErr))
                              else old(ctuAdaptedQP)
    {
      var isFilterThisFrame := IsFilterThisFrame(qp, strengths, receivedPoc);
      if !isFilterThisFrame {
        return false, [], NoStrength;
      }
      var currentFilePoc := receivedPoc + frameSkip;
      var firstFrame := Max(currentFilePoc - pastRefs, firstValidFrame);
      var lastFrame := Min(currentFilePoc + futureRefs, lastValidFrame);
      refs := CollectReferences(firstFrame, lastFrame, currentFilePoc, readOk);
      if |refs| == 0 {
        return false, refs, NoStrength;
      }
      strength := OverallStrength(strengths, receivedPoc);
      if bimEnabled {
        var qpMap := BuildQpMap(weightedErr);
        ctuAdaptedQP := InsertIfAbsent(ctuAdaptedQP, receivedPoc, qpMap[..]);
      }
      filtered := true;
    }
  }
}
