/**
 * Context selection for CABAC (the ctxInc derivations of clause 9.3.4.2 of
 * ITU-T H.266): the coefficient-coding context of one transform block,
 * which the constructor fixes and initSubblock steps through, and the
 * DeriveCtx selectors that map facts about the left and above coding units
 * to small context indices.
 *
 * The scan tables, the sub-block size table, getNonzeroTuSize and the
 * Ctx::* context-set lookups live in files that are not part of this
 * model; their values are inputs. A neighbour found by getCURestricted is
 * an Option: None when the source's pointer is null.
 */
module ContextModelling {
  import opened Common

  // ---------------------------------------------------------------------
  // Last significant position contexts
  // ---------------------------------------------------------------------

  /** CoeffCodingContext::prefixCtx, indexed by log2 of the block size. */
  const PrefixCtx: seq<nat> := [0, 0, 0, 3, 6, 10, 15, 21]

  /** Context offset and shift of the last-position prefix along one axis. */
  datatype LastAxisContext = LastAxisContext(offset: nat, shift: nat)

  function LastAxis(chroma: bool, size: nat): (r: LastAxisContext)
    requires 1 <= size < 256
    ensures FloorLog2(size) < 8 && r.shift <= 2
    ensures chroma ==> r.offset == 0 && r.shift == Clip3(0, 2, Shr(size, 3))
    ensures !chroma ==> r.offset == PrefixCtx[FloorLog2(size)] && r.shift == Shr(FloorLog2(size) + 1, 2)
  {
    FloorLog2Below(size, 8);
    if chroma then
      LastAxisContext(0, Clip3(0, 2, Shr(size, 3)))
    else
      var log2 := FloorLog2(size);
      assert Shr(log2 + 1, 2) <= 2 by { ShrMonotone(log2 + 1, 8, 2); }
      LastAxisContext(PrefixCtx[log2], Shr(log2 + 1, 2))
  }

  /** Context index of bin b of a luma last-position prefix for a side of 2^k samples. */
  function LumaLastCtx(k: nat, b: nat): int
    requires k < 8
  {
    PrefixCtx[k] + Shr(b, Shr(k + 1, 2))
  }

  /**
   * The truncated-unary prefix of a luma side of 2^k samples has at most
   * 2k - 1 bins (clause 9.3.3 of ITU-T H.266). With the table above no two
   * luma sizes from 4 to 64 share a context.
   */
  lemma LumaLastContextsDisjoint(k1: nat, b1: nat, k2: nat, b2: nat)
    requires 2 <= k1 < k2 <= 6
    requires b1 <= 2 * k1 - 2 && b2 <= 2 * k2 - 2
    ensures LumaLastCtx(k1, b1) < LumaLastCtx(k2, b2)
  {
    assert Pow2(0) == 1 && Pow2(1) == 2 && Pow2(2) == 4;
    assert Shr(k2 + 1, 2) == 1;
    assert Shr(b2, 1) == b2 / 2;
    if k1 == 2 {
      assert Shr(k1 + 1, 2) == 0 && Shr(b1, 0) == b1;
    } else {
      assert Shr(k1 + 1, 2) == 1 && Shr(b1, 1) == b1 / 2;
    }
  }

  /** -(1 << R) and (1 << R) - 1: the range of an (R+1)-bit signed integer. */
  function CoeffBounds(dynamicRange: nat): (r: (int, int))
    ensures r.1 - r.0 + 1 == Pow2(dynamicRange + 1)
    ensures r.0 == -r.1 - 1 && r.1 >= 0
  {
    (-Shl(1, dynamicRange), Shl(1, dynamicRange) - 1)
  }

  // ---------------------------------------------------------------------
  // Sub-block bookkeeping of initSubblock
  // ---------------------------------------------------------------------

  /** Column and row of coefficient group pos in a grid widthInGroups wide. */
  function GroupPosition(pos: nat, widthInGroups: nat): (r: (nat, nat))
    requires widthInGroups >= 1
    ensures r.0 + r.1 * widthInGroups == pos && r.0 < widthInGroups
  {
    var y := pos / widthInGroups;
    (pos - y * widthInGroups, y)
  }

  ghost predicate InGrid(bits: seq<bool>, x: int, y: int, w: nat, h: nat)
  {
    |bits| == w * h && 0 <= x < w && 0 <= y < h
  }

  /** Flag of the group at column x, row y, read as false outside the grid. */
  function GroupFlag(bits: seq<bool>, x: int, y: int, w: nat, h: nat): bool
    requires |bits| == w * h
  {
    if 0 <= x < w && 0 <= y < h then
      assert x + y * w < w * h by { MulAtLeastRow(x, y, w, h); }
      bits[x + y * w]
    else
      false
  }

  lemma MulAtLeastRow(x: nat, y: nat, w: nat, h: nat)
    requires x < w && y < h
    ensures x + y * w < w * h
  {
    MulNonNegative(h - 1 - y, w);
    assert w * h == y * w + w + (h - 1 - y) * w;
  }

  /** The group below (x, y) sits w positions further on. */
  lemma RowBelow(x: nat, y: nat, w: nat, h: nat)
    requires x < w && y + 1 < h
    ensures x + (y + 1) * w == x + y * w + w < w * h
  {
    MulAtLeastRow(x, y + 1, w, h);
  }

  function Bit(b: bool): nat
  {
    if b then 1 else 0
  }

  /**
   * Selector of Ctx::SigCoeffGroup: whether the right or the lower group is
   * significant, each read only when it lies inside the grid.
   */
  function SigGroupSelector(bits: seq<bool>, x: nat, y: nat, w: nat, h: nat): (s: nat)
    requires InGrid(bits, x, y, w, h)
    ensures s <= 1
    ensures s == 1 <==> GroupFlag(bits, x + 1, y, w, h) || GroupFlag(bits, x, y + 1, w, h)
  {
    MulAtLeastRow(x, y, w, h);
    var pos := x + y * w;
    var right := if x + 1 < w then (MulAtLeastRow(x + 1, y, w, h); bits[pos + 1]) else false;
    var lower := if y + 1 < h then (RowBelow(x, y, w, h); bits[pos + w]) else false;
    if right || lower then 1 else 0
  }

  /** Selector of Ctx::TsSigCoeffGroup: the number of significant left and above groups. */
  function TsSigGroupSelector(bits: seq<bool>, x: nat, y: nat, w: nat, h: nat): (s: nat)
    requires InGrid(bits, x, y, w, h)
    ensures s <= 2
    ensures s == Bit(GroupFlag(bits, x - 1, y, w, h)) + Bit(GroupFlag(bits, x, y - 1, w, h))
  {
    MulAtLeastRow(x, y, w, h);
    var pos := x + y * w;
    var left := if x > 0 then bits[pos - 1] else false;
    var above := if y > 0 then (RowBelow(x, y - 1, w, h); bits[pos - w]) else false;
    Bit(left) + Bit(above)
  }

  /** Raising flags never lowers either selector. */
  ghost predicate Raised(bits: seq<bool>, more: seq<bool>)
  {
    |more| == |bits| && forall i :: 0 <= i < |bits| ==> bits[i] ==> more[i]
  }

  lemma SigSelectorMonotone(bits: seq<bool>, more: seq<bool>, x: nat, y: nat, w: nat, h: nat)
    requires InGrid(bits, x, y, w, h) && Raised(bits, more)
    ensures SigGroupSelector(bits, x, y, w, h) <= SigGroupSelector(more, x, y, w, h)
  {
    if x + 1 < w { MulAtLeastRow(x + 1, y, w, h); }
    if y + 1 < h { RowBelow(x, y, w, h); }
  }

  lemma TsSelectorMonotone(bits: seq<bool>, more: seq<bool>, x: nat, y: nat, w: nat, h: nat)
    requires InGrid(bits, x, y, w, h) && Raised(bits, more)
    ensures TsSigGroupSelector(bits, x, y, w, h) <= TsSigGroupSelector(more, x, y, w, h)
  {
    if x > 0 { MulAtLeastRow(x - 1, y, w, h); }
    if y > 0 { RowBelow(x, y - 1, w, h); }
  }

  /** A group in the last column and row has no right or lower neighbour; the first has no left or above one. */
  lemma SelectorsAtCorners(bits: seq<bool>, w: nat, h: nat)
    requires w >= 1 && h >= 1 && |bits| == w * h
    ensures SigGroupSelector(bits, w - 1, h - 1, w, h) == 0
    ensures TsSigGroupSelector(bits, 0, 0, w, h) == 0
  {
  }

  /** First and last scan position of sub-block id (minSubPos, maxSubPos). */
  function MinSubPos(id: nat, log2CGSize: nat): nat
  {
    Shl(id, log2CGSize)
  }

  function MaxSubPos(id: nat, log2CGSize: nat): int
  {
    MinSubPos(id, log2CGSize) + Shl(1, log2CGSize) - 1
  }

  /** The sub-block ranges tile the scan: position p lies in sub-block p >> log2CGSize and in no other. */
  lemma SubblockRangesTile(p: nat, id: nat, log2CGSize: nat)
    ensures MinSubPos(id, log2CGSize) <= p <= MaxSubPos(id, log2CGSize) <==> id == Shr(p, log2CGSize)
    ensures MaxSubPos(id, log2CGSize) + 1 == MinSubPos(id + 1, log2CGSize)
  {
    var m := Pow2(log2CGSize);
    DivModSplit(p, m);
    if id * m <= p <= id * m + m - 1 {
      DivModUnique(p, m, id, p - id * m);
    }
    if id == p / m {
      assert p == id * m + p % m;
    }
  }

  /**
   * The coefficient-coding context of one transform block. The fields the
   * scan tables and the rice derivation use and the CABAC context sets
   * themselves are not modelled; Ctx::SigCoeffGroup and Ctx::TsSigCoeffGroup
   * are the functions sigGroupCtxOf and tsSigGroupCtxOf.
   */
  class CoeffCodingContext {
    const compId: ComponentId
    const chroma: bool
    const width: nat
    const height: nat
    const log2CGWidth: nat
    const log2CGHeight: nat
    const log2CGSize: nat
    const widthInGroups: nat
    const heightInGroups: nat
    const log2BlockWidth: nat
    const log2BlockHeight: nat
    const maxNumCoeff: nat
    const signHiding: bool
    const maxLog2TrDynamicRange: nat
    const scanCG: seq<nat>
    const sigGroupCtxOf: nat -> int
    const tsSigGroupCtxOf: nat -> int
    const lastOffsetX: nat
    const lastOffsetY: nat
    const lastShiftX: nat
    const lastShiftY: nat
    const minCoeff: int
    const maxCoeff: int

    var scanPosLast: int
    var subSetId: int
    var subSetPos: int
    var subSetPosX: int
    var subSetPosY: int
    var minSubPos: int
    var maxSubPos: int
    var sigGroupCtxId: int
    var tmplCpSum1: int
    var tmplCpDiag: int
    var sigGroupCtxIdTS: int
    /** m_sigCoeffGroupFlag, one flag per coefficient group in raster order. */
    var sigCoeffGroupFlag: seq<bool>

    ghost predicate Valid()
      reads this`sigCoeffGroupFlag
    {
      widthInGroups >= 1 && heightInGroups >= 1 &&
      |sigCoeffGroupFlag| == widthInGroups * heightInGroups &&
      (forall i :: 0 <= i < |scanCG| ==> scanCG[i] < widthInGroups * heightInGroups)
    }

    /**
     * The log2 sub-block dimensions (g_log2TxSubblockSize), the sizes
     * getNonzeroTuSize returns, the group scan order (m_scanCG) and the two
     * ctx lookups are inputs; the scan must visit groups of the grid.
     */
    constructor (comp: ComponentId, w: nat, h: nat, log2CGW: nat, log2CGH: nat,
                 nonzeroWidth: nat, nonzeroHeight: nat, signHide: bool, dynamicRange: nat,
                 groupScan: seq<nat>, sigGroupCtx: nat -> int, tsSigGroupCtx: nat -> int)
      requires 1 <= w < 256 && 1 <= h < 256
      requires Shr(nonzeroWidth, log2CGW) >= 1 && Shr(nonzeroHeight, log2CGH) >= 1
      requires forall i :: 0 <= i < |groupScan| ==>
                 groupScan[i] < Shr(nonzeroWidth, log2CGW) * Shr(nonzeroHeight, log2CGH)
      ensures Valid()
      ensures compId == comp && chroma == !IsLuma(comp) && width == w && height == h
      ensures log2CGSize == log2CGW + log2CGH
      ensures widthInGroups == Shr(nonzeroWidth, log2CGW) && heightInGroups == Shr(nonzeroHeight, log2CGH)
      ensures log2BlockWidth == FloorLog2(w) && log2BlockHeight == FloorLog2(h) && maxNumCoeff == w * h
      ensures LastAxisContext(lastOffsetX, lastShiftX) == LastAxis(chroma, w)
      ensures LastAxisContext(lastOffsetY, lastShiftY) == LastAxis(chroma, h)
      ensures (minCoeff, maxCoeff) == CoeffBounds(dynamicRange)
      ensures minCoeff + Pow2(dynamicRange) == 0 && maxCoeff == Pow2(dynamicRange) - 1
      ensures scanPosLast == -1 && subSetId == -1 && subSetPos == -1
      ensures subSetPosX == -1 && subSetPosY == -1 && minSubPos == -1 && maxSubPos == -1
      ensures sigGroupCtxId == -1 && tmplCpSum1 == -1 && tmplCpDiag == -1 && sigGroupCtxIdTS == -1
      ensures forall i :: 0 <= i < |sigCoeffGroupFlag| ==> !sigCoeffGroupFlag[i]
    {
      compId := comp;
      chroma := !IsLuma(comp);
      width := w;
      height := h;
      log2CGWidth := log2CGW;
      log2CGHeight := log2CGH;
      log2CGSize := log2CGW + log2CGH;
      widthInGroups := Shr(nonzeroWidth, log2CGW);
      heightInGroups := Shr(nonzeroHeight, log2CGH);
      log2BlockWidth := FloorLog2(w);
      log2BlockHeight := FloorLog2(h);
      maxNumCoeff := w * h;
      signHiding := signHide;
      maxLog2TrDynamicRange := dynamicRange;
      scanCG := groupScan;
      sigGroupCtxOf := sigGroupCtx;
      tsSigGroupCtxOf := tsSigGroupCtx;
      var lx := LastAxis(!IsLuma(comp), w);
      var ly := LastAxis(!IsLuma(comp), h);
      lastOffsetX := lx.offset;
      lastShiftX := lx.shift;
      lastOffsetY := ly.offset;
      lastShiftY := ly.shift;
      minCoeff := -Shl(1, dynamicRange);
      maxCoeff := Shl(1, dynamicRange) - 1;
      scanPosLast := -1;
      subSetId := -1;
      subSetPos := -1;
      subSetPosX := -1;
      subSetPosY := -1;
      minSubPos := -1;
      maxSubPos := -1;
      sigGroupCtxId := -1;
      tmplCpSum1 := -1;
      tmplCpDiag := -1;
      sigGroupCtxIdTS := -1;
      sigCoeffGroupFlag := seq(Shr(nonzeroWidth, log2CGW) * Shr(nonzeroHeight, log2CGH), _ => false);
    }

    /**
     * initSubblock: enters sub-block id of the scan, marks its group
     * significant when the flag is set, and selects the group contexts
     * from the already coded right/lower and left/above groups.
     */
    method InitSubblock(id: int, sigGroupFlag: bool)
      requires Valid() && 0 <= id < |scanCG|
      modifies this`subSetId, this`subSetPos, this`subSetPosX, this`subSetPosY, this`minSubPos, this`maxSubPos
      modifies this`sigCoeffGroupFlag, this`sigGroupCtxId, this`sigGroupCtxIdTS
      ensures Valid()
      ensures subSetId == id && subSetPos == scanCG[id]
      ensures subSetPosX + subSetPosY * widthInGroups == subSetPos
      ensures 0 <= subSetPosX < widthInGroups && 0 <= subSetPosY < heightInGroups
      ensures minSubPos == MinSubPos(id, log2CGSize) && maxSubPos == MaxSubPos(id, log2CGSize)
      ensures maxSubPos - minSubPos + 1 == Pow2(log2CGSize)
      ensures sigCoeffGroupFlag == if sigGroupFlag then old(sigCoeffGroupFlag)[scanCG[id] := true]
                                   else old(sigCoeffGroupFlag)
      ensures forall i :: 0 <= i < |sigCoeffGroupFlag| && old(sigCoeffGroupFlag)[i] ==> sigCoeffGroupFlag[i]
      ensures sigGroupCtxId == sigGroupCtxOf(SigGroupSelector(sigCoeffGroupFlag, subSetPosX, subSetPosY,
                                                              widthInGroups, heightInGroups))
      ensures sigGroupCtxIdTS == tsSigGroupCtxOf(TsSigGroupSelector(sigCoeffGroupFlag, subSetPosX, subSetPosY,
                                                                    widthInGroups, heightInGroups))
      ensures scanPosLast == old(scanPosLast) && tmplCpSum1 == old(tmplCpSum1) && tmplCpDiag == old(tmplCpDiag)
    {
      EnterSubblock(id);
      MarkGroup(sigGroupFlag);
      SelectGroupContexts();
    }

    /** The first half of initSubblock: the sub-block's group position and scan range. */
    method EnterSubblock(id: int)
      requires Valid() && 0 <= id < |scanCG|
      modifies this`subSetId, this`subSetPos, this`subSetPosX, this`subSetPosY, this`minSubPos, this`maxSubPos
      ensures subSetId == id && subSetPos == scanCG[id]
      ensures subSetPosX + subSetPosY * widthInGroups == subSetPos
      ensures 0 <= subSetPosX < widthInGroups && 0 <= subSetPosY < heightInGroups
      ensures minSubPos == MinSubPos(id, log2CGSize) && maxSubPos == MaxSubPos(id, log2CGSize)
      ensures maxSubPos - minSubPos + 1 == Pow2(log2CGSize)
    {
      subSetId := id;
      subSetPos := scanCG[id];
      var xy := GroupPosition(scanCG[id], widthInGroups);
      subSetPosY := xy.1;
      subSetPosX := xy.0;
      assert xy.1 < heightInGroups by {
        if xy.1 >= heightInGroups {
          MulAtLeastBy(xy.1, heightInGroups, widthInGroups);
        }
      }
      minSubPos := Shl(id, log2CGSize);
      maxSubPos := Shl(id, log2CGSize) + Shl(1, log2CGSize) - 1;
    }

    /** m_sigCoeffGroupFlag.set(m_subSetPos) when the group is significant. */
    method MarkGroup(sigGroupFlag: bool)
      requires Valid() && 0 <= subSetPos < widthInGroups * heightInGroups
      modifies this`sigCoeffGroupFlag
      ensures Valid()
      ensures sigCoeffGroupFlag == if sigGroupFlag then old(sigCoeffGroupFlag)[subSetPos := true]
                                   else old(sigCoeffGroupFlag)
      ensures forall i :: 0 <= i < |sigCoeffGroupFlag| && old(sigCoeffGroupFlag)[i] ==> sigCoeffGroupFlag[i]
    {
      if sigGroupFlag {
        sigCoeffGroupFlag := sigCoeffGroupFlag[subSetPos := true];
      }
    }

    /** The two group contexts, from the right/lower and the left/above groups. */
    method SelectGroupContexts()
      requires Valid() && 0 <= subSetPosX < widthInGroups && 0 <= subSetPosY < heightInGroups
      modifies this`sigGroupCtxId, this`sigGroupCtxIdTS
      ensures sigGroupCtxId == sigGroupCtxOf(SigGroupSelector(sigCoeffGroupFlag, subSetPosX, subSetPosY,
                                                              widthInGroups, heightInGroups))
      ensures sigGroupCtxIdTS == tsSigGroupCtxOf(TsSigGroupSelector(sigCoeffGroupFlag, subSetPosX, subSetPosY,
                                                                    widthInGroups, heightInGroups))
    {
      sigGroupCtxId := sigGroupCtxOf(SigGroupSelector(sigCoeffGroupFlag, subSetPosX, subSetPosY, widthInGroups, heightInGroups));
      sigGroupCtxIdTS := tsSigGroupCtxOf(TsSigGroupSelector(sigCoeffGroupFlag, subSetPosX, subSetPosY,
                                                            widthInGroups, heightInGroups));
    }
  }

  lemma MulAtLeastBy(y: nat, h: nat, w: nat)
    requires y >= h
    ensures y * w >= h * w
  {
    MulNonNegative(y - h, w);
  }

  // ---------------------------------------------------------------------
  // DeriveCtx
  // ---------------------------------------------------------------------

  /** The facts of a neighbouring coding unit the selectors read, in the current channel. */
  datatype NeighbourCu = NeighbourCu(width: nat, height: nat, qtDepth: nat,
                                     skip: bool, affine: bool, mipFlag: bool, intra: bool, ibc: bool)

  predicate Has(n: Option<NeighbourCu>, f: NeighbourCu -> bool)
  {
    n.Some? && f(n.value)
  }

  /** Number of present neighbours whose flag f is set. */
  function CountWith(left: Option<NeighbourCu>, above: Option<NeighbourCu>, f: NeighbourCu -> bool): (n: nat)
    ensures n <= 2
    ensures n == 0 <==> !Has(left, f) && !Has(above, f)
    ensures n == 2 <==> Has(left, f) && Has(above, f)
  {
    Bit(Has(left, f)) + Bit(Has(above, f))
  }

  /** CtxSkipFlag */
  function CtxSkipFlag(left: Option<NeighbourCu>, above: Option<NeighbourCu>): (ctx: nat)
    ensures ctx == CountWith(left, above, (c: NeighbourCu) => c.skip)
  {
    Bit(left.Some? && left.value.skip) + Bit(above.Some? && above.value.skip)
  }

  /** CtxAffineFlag */
  function CtxAffineFlag(left: Option<NeighbourCu>, above: Option<NeighbourCu>): (ctx: nat)
    ensures ctx == CountWith(left, above, (c: NeighbourCu) => c.affine)
  {
    Bit(left.Some? && left.value.affine) + Bit(above.Some? && above.value.affine)
  }

  /** CtxIBCFlag: neighbours are taken in the CU's own channel. */
  function CtxIBCFlag(left: Option<NeighbourCu>, above: Option<NeighbourCu>): (ctx: nat)
    ensures ctx == CountWith(left, above, (c: NeighbourCu) => c.ibc)
  {
    Bit(left.Some? && left.value.ibc) + Bit(above.Some? && above.value.ibc)
  }

  /** CtxMipFlag: a block more than twice as wide as high, or high as wide, uses context 3. */
  function CtxMipFlag(left: Option<NeighbourCu>, above: Option<NeighbourCu>, lumaWidth: nat, lumaHeight: nat): (ctx: nat)
    ensures lumaWidth > 2 * lumaHeight || lumaHeight > 2 * lumaWidth ==> ctx == 3
    ensures lumaWidth <= 2 * lumaHeight && lumaHeight <= 2 * lumaWidth ==> ctx == CountWith(left, above, (c: NeighbourCu) => c.mipFlag)
  {
    var count := Bit(left.Some? && left.value.mipFlag) + Bit(above.Some? && above.value.mipFlag);
    if lumaWidth > 2 * lumaHeight || lumaHeight > 2 * lumaWidth then 3 else count
  }

  /** CtxPredModeFlag: 1 iff the above or the left neighbour is intra coded. */
  function CtxPredModeFlag(left: Option<NeighbourCu>, above: Option<NeighbourCu>): (ctx: nat)
    ensures ctx <= 1
    ensures ctx == 1 <==> Has(left, (c: NeighbourCu) => c.intra) || Has(above, (c: NeighbourCu) => c.intra)
  {
    if (above.Some? && above.value.intra) || (left.Some? && left.value.intra) then 1 else 0
  }

  /**
   * CtxModeConsFlag: the same rule as CtxPredModeFlag, for the neighbours of
   * the partition being split (a luma partition in the source).
   */
  function CtxModeConsFlag(left: Option<NeighbourCu>, above: Option<NeighbourCu>): (ctx: nat)
    ensures ctx <= 1
    ensures ctx == 1 <==> Has(left, (c: NeighbourCu) => c.intra) || Has(above, (c: NeighbourCu) => c.intra)
  {
    if (above.Some? && above.value.intra) || (left.Some? && left.value.intra) then 1 else 0
  }

  /** The counting selectors do not depend on which neighbour is which. */
  lemma CountingSelectorsSymmetric(left: Option<NeighbourCu>, above: Option<NeighbourCu>, w: nat, h: nat)
    ensures CtxSkipFlag(left, above) == CtxSkipFlag(above, left)
    ensures CtxAffineFlag(left, above) == CtxAffineFlag(above, left)
    ensures CtxIBCFlag(left, above) == CtxIBCFlag(above, left)
    ensures CtxMipFlag(left, above, w, h) == CtxMipFlag(above, left, w, h)
    ensures CtxPredModeFlag(left, above) == CtxPredModeFlag(above, left)
  {
  }

  /** With no neighbour available every selector takes its lowest context (MIP: unless the block is elongated). */
  lemma NoNeighbourSelectors(w: nat, h: nat)
    requires w <= 2 * h && h <= 2 * w
    ensures CtxSkipFlag(None, None) == 0 && CtxAffineFlag(None, None) == 0 && CtxIBCFlag(None, None) == 0
    ensures CtxMipFlag(None, None, w, h) == 0 && CtxPredModeFlag(None, None) == 0 && CtxModeConsFlag(None, None) == 0
  {
  }

  /** CtxQtCbf */
  function CtxQtCbf(comp: ComponentId, prevCbf: bool, ispIdx: int): (ctx: nat)
    ensures ctx <= 3
    ensures ispIdx != 0 && IsLuma(comp) ==> ctx == 2 + Bit(prevCbf)
    ensures (ispIdx == 0 || !IsLuma(comp)) && comp == CompCr ==> ctx == Bit(prevCbf)
    ensures ctx >= 2 <==> ispIdx != 0 && IsLuma(comp)
  {
    if ispIdx != 0 && IsLuma(comp) then 2 + Bit(prevCbf)
    else if comp == CompCr then (if prevCbf then 1 else 0)
    else 0
  }

  /** The Cb cbf and the non-ISP luma cbf always use context 0. */
  lemma QtCbfFixedContexts(prevCbf: bool, ispIdx: int)
    ensures CtxQtCbf(CompCb, prevCbf, ispIdx) == 0
    ensures CtxQtCbf(CompY, prevCbf, 0) == 0
  {
  }

  /** CtxInterDir, returned as an unsigned 32-bit value. */
  function CtxInterDir(lumaWidth: nat, lumaHeight: nat): (ctx: nat)
    requires lumaWidth >= 1 && lumaHeight >= 1
    ensures ctx < 0x1_0000_0000
  {
    (7 - Shr(FloorLog2(lumaWidth) + FloorLog2(lumaHeight) + 1, 1)) % 0x1_0000_0000
  }

  /**
   * For blocks up to 128x128 the subtraction does not wrap: the context is
   * 7 - ((log2w + log2h + 1) >> 1) and lies in 0..7.
   */
  lemma InterDirNoWrap(w: nat, h: nat)
    requires 1 <= w <= 128 && 1 <= h <= 128
    ensures CtxInterDir(w, h) == 7 - (FloorLog2(w) + FloorLog2(h) + 1) / 2
    ensures CtxInterDir(w, h) <= 7
  {
    FloorLog2Below(w, 8);
    FloorLog2Below(h, 8);
    InterDirOfLogs(FloorLog2(w), FloorLog2(h));
  }

  lemma InterDirOfLogs(lw: nat, lh: nat)
    requires lw < 8 && lh < 8
    ensures (7 - Shr(lw + lh + 1, 1)) % 0x1_0000_0000 == 7 - (lw + lh + 1) / 2 <= 7
  {
    var a := lw + lh + 1;
    assert Pow2(1) == 2;
    assert Shr(a, 1) == a / 2 <= 7;
    SmallMod(7 - a / 2, 0x1_0000_0000);
  }

  /** A larger block never gets a larger inter-direction context. */
  lemma InterDirMonotone(w: nat, h: nat, w2: nat, h2: nat)
    requires 1 <= w <= w2 <= 128 && 1 <= h <= h2 <= 128
    ensures CtxInterDir(w2, h2) <= CtxInterDir(w, h)
  {
    InterDirNoWrap(w, h);
    InterDirNoWrap(w2, h2);
    FloorLog2Monotone(w, w2);
    FloorLog2Monotone(h, h2);
    DivMonotone(FloorLog2(w) + FloorLog2(h) + 1, FloorLog2(w2) + FloorLog2(h2) + 1, 2);
  }

  /**
   * CtxPltCopyFlag: the run-length distance is clamped to the threshold
   * RUN_IDX_THRE before indexing the LUT selected by the previous run type
   * (g_paletteRunLeftLut after an INDEX run, g_paletteRunTopLut otherwise).
   */
  function CtxPltCopyFlag(prevRunIsIndex: bool, dist: nat, leftLut: seq<int>, topLut: seq<int>, threshold: nat): (ctx: int)
    requires |leftLut| > threshold && |topLut| > threshold
    ensures dist <= threshold ==> ctx == (if prevRunIsIndex then leftLut else topLut)[dist]
    ensures ctx in (if prevRunIsIndex then leftLut else topLut)[..threshold + 1]
  {
    var lut := if prevRunIsIndex then leftLut else topLut;
    if dist <= threshold then lut[dist] else lut[threshold]
  }

  /** Every distance at or beyond the threshold shares one context. */
  lemma PltCopySaturates(prevRunIsIndex: bool, dist: nat, leftLut: seq<int>, topLut: seq<int>, threshold: nat)
    requires |leftLut| > threshold && |topLut| > threshold && dist >= threshold
    ensures CtxPltCopyFlag(prevRunIsIndex, dist, leftLut, topLut, threshold)
         == CtxPltCopyFlag(prevRunIsIndex, threshold, leftLut, topLut, threshold)
  {
  }

  // ---------------------------------------------------------------------
  // CtxSplit
  // ---------------------------------------------------------------------

  /** The five context indices CtxSplit writes to its out-parameters. */
  datatype SplitCtx = SplitCtx(ctxSpl: nat, ctxQt: nat, ctxHv: nat, ctxHorBt: nat, ctxVerBt: nat)

  ghost predicate PositiveSizes(n: Option<NeighbourCu>)
  {
    n.Some? ==> n.value.width >= 1 && n.value.height >= 1
  }

  /** numSplit: canSplit[1] (quad split) weighs 2, the four binary/ternary splits 1 each, minus one when positive. */
  function NumSplit(canSplit: seq<bool>): (n: nat)
    requires |canSplit| == 6
    ensures n <= 5
    ensures n == Max(2 * Bit(canSplit[1]) + Bit(canSplit[2]) + Bit(canSplit[3]) + Bit(canSplit[4]) + Bit(canSplit[5]) - 1, 0)
  {
    var n := (if canSplit[1] then 2 else 0) + (if canSplit[2] then 1 else 0) + (if canSplit[3] then 1 else 0)
           + (if canSplit[4] then 1 else 0) + (if canSplit[5] then 1 else 0);
    if n > 0 then n - 1 else 0
  }

  /**
   * CtxSplit. canSplit holds the six split permissions in the source's
   * order (no split, quad, horizontal binary, vertical binary, horizontal
   * ternary, vertical ternary).
   */
  function CtxSplit(left: Option<NeighbourCu>, above: Option<NeighbourCu>, canSplit: seq<bool>,
                    widthCurr: nat, heightCurr: nat, currQtDepth: nat, currMtDepth: nat): (r: SplitCtx)
    requires |canSplit| == 6 && PositiveSizes(left) && PositiveSizes(above)
    ensures r.ctxSpl <= 8 && r.ctxQt <= 5 && r.ctxHv <= 4
    ensures r.ctxSpl == Bit(left.Some? && left.value.height < heightCurr) + Bit(above.Some? && above.value.width < widthCurr)
                        + 3 * (NumSplit(canSplit) / 2)
    ensures r.ctxQt == CountWith(left, above, (c: NeighbourCu) => c.qtDepth > currQtDepth) + (if currQtDepth < 2 then 0 else 3)
    ensures r.ctxHorBt == (if currMtDepth <= 1 then 1 else 0) && r.ctxVerBt == (if currMtDepth <= 1 then 3 else 2)
  {
    var spl := Bit(left.Some? && left.value.height < heightCurr) + Bit(above.Some? && above.value.width < widthCurr);
    var numSplit := NumSplit(canSplit);
    var qt := Bit(left.Some? && left.value.qtDepth > currQtDepth) + Bit(above.Some? && above.value.qtDepth > currQtDepth)
              + (if currQtDepth < 2 then 0 else 3);
    SplitCtx(spl + 3 * Shr(numSplit, 1), qt, CtxHv(left, above, canSplit, widthCurr, heightCurr),
             if currMtDepth <= 1 then 1 else 0, if currMtDepth <= 1 then 3 else 2)
  }

  /** Number of allowed horizontal (binary, ternary) and vertical splits. */
  function NumHor(canSplit: seq<bool>): nat
    requires |canSplit| == 6
  {
    Bit(canSplit[2]) + Bit(canSplit[4])
  }

  function NumVer(canSplit: seq<bool>): nat
    requires |canSplit| == 6
  {
    Bit(canSplit[3]) + Bit(canSplit[5])
  }

  /**
   * The ctxHv part of CtxSplit: 3 when more horizontal splits are allowed,
   * 4 when more vertical ones; on a tie it compares how many above-widths
   * and left-heights fit the current block, 0 when either neighbour is missing.
   */
  function CtxHv(left: Option<NeighbourCu>, above: Option<NeighbourCu>, canSplit: seq<bool>,
                 widthCurr: nat, heightCurr: nat): (hv: nat)
    requires |canSplit| == 6 && PositiveSizes(left) && PositiveSizes(above)
    ensures hv <= 4
    ensures NumVer(canSplit) < NumHor(canSplit) <==> hv == 3
    ensures NumVer(canSplit) > NumHor(canSplit) <==> hv == 4
    ensures NumVer(canSplit) == NumHor(canSplit) && (left.None? || above.None?) ==> hv == 0
  {
    var numHor := (if canSplit[2] then 1 else 0) + (if canSplit[4] then 1 else 0);
    var numVer := (if canSplit[3] then 1 else 0) + (if canSplit[5] then 1 else 0);
    if numVer == numHor then
      var wAbove := if above.Some? then above.value.width else 1;
      var hLeft := if left.Some? then left.value.height else 1;
      var depAbove := widthCurr / wAbove;
      var depLeft := heightCurr / hLeft;
      if depAbove == depLeft || left.None? || above.None? then 0
      else if depAbove < depLeft then 1
      else 2
    else if numVer < numHor then 3
    else 4
  }

  /** A neighbour seen in the transposed block: width and height swap. */
  function Transposed(n: Option<NeighbourCu>): (t: Option<NeighbourCu>)
    ensures t.Some? <==> n.Some?
  {
    match n
    case None => None
    case Some(c) => Some(c.(width := c.height, height := c.width))
  }

  /** The split permissions of the transposed block: each horizontal split becomes the vertical one. */
  function TransposedSplits(canSplit: seq<bool>): (t: seq<bool>)
    requires |canSplit| == 6
    ensures |t| == 6
  {
    [canSplit[0], canSplit[1], canSplit[3], canSplit[2], canSplit[5], canSplit[4]]
  }

  /** The orientation context of the transposed block: 1 and 2, and 3 and 4, trade places. */
  function MirroredHv(hv: nat): nat
  {
    if hv == 1 then 2 else if hv == 2 then 1 else if hv == 3 then 4 else if hv == 4 then 3 else hv
  }

  /**
   * Transposing the block (the above neighbour becomes the left one, width
   * and height swap, horizontal and vertical splits swap) keeps ctxSpl,
   * ctxQt and the depth contexts and mirrors ctxHv.
   */
  lemma CtxSplitTransposes(left: Option<NeighbourCu>, above: Option<NeighbourCu>, canSplit: seq<bool>,
                           widthCurr: nat, heightCurr: nat, qtDepth: nat, mtDepth: nat)
    requires |canSplit| == 6 && PositiveSizes(left) && PositiveSizes(above)
    ensures PositiveSizes(Transposed(above)) && PositiveSizes(Transposed(left))
    ensures var r := CtxSplit(left, above, canSplit, widthCurr, heightCurr, qtDepth, mtDepth);
            var t := CtxSplit(Transposed(above), Transposed(left), TransposedSplits(canSplit),
                              heightCurr, widthCurr, qtDepth, mtDepth);
            t == r.(ctxHv := MirroredHv(r.ctxHv))
  {
  }
}
