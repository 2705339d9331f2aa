/**
 * Block geometry and the sub-block transform (SBT) rules of coding and
 * transform units: component areas and their luma/chroma scaling, the
 * containment test and channel selection of unit areas, and the SBT
 * bookkeeping and defaults of CodingUnit and TransformUnit.
 *
 * ChromaFormat.h, Common.h, Unit.h and UnitTools.h, which hold the
 * component scales, Area::contains, CompArea::valid and the sbtInfo
 * packing, are not part of this model: the scales follow Table 2 of
 * ITU-T H.266 (SubWidthC, SubHeightC), containment is rectangle
 * containment of blocks of the same component, and a CU's SBT type and
 * position are two fields.
 */
module Unit {
  import opened Common

  datatype ChromaFormat = Chroma400 | Chroma420 | Chroma422 | Chroma444 | NumChromaFormat
  datatype ChannelType = ChannelLuma | ChannelChroma

  function ToChannelType(c: ComponentId): ChannelType
  {
    if IsLuma(c) then ChannelLuma else ChannelChroma
  }

  /** log2 of the horizontal and vertical subsampling of a component. */
  function ScaleX(c: ComponentId, f: ChromaFormat): (s: nat)
    ensures s <= 1 && (IsLuma(c) ==> s == 0)
  {
    if IsLuma(c) || f == Chroma444 then 0 else 1
  }

  function ScaleY(c: ComponentId, f: ChromaFormat): (s: nat)
    ensures s <= 1 && (IsLuma(c) ==> s == 0)
  {
    if IsLuma(c) || f != Chroma420 then 0 else 1
  }

  /** A block of one component; comp is None for the default CompArea(), which is never valid. */
  datatype CompArea = CompArea(comp: Option<ComponentId>, format: ChromaFormat, x: int, y: int, width: nat, height: nat)

  const EmptyArea: CompArea := CompArea(None, NumChromaFormat, 0, 0, 0, 0)

  predicate ValidArea(a: CompArea)
  {
    a.comp.Some? && a.width != 0 && a.height != 0
  }

  /** Block b lies inside block a, both of the same component. */
  predicate BlockContains(a: CompArea, b: CompArea)
  {
    a.comp == b.comp && a.x <= b.x && b.x + b.width <= a.x + a.width && a.y <= b.y && b.y + b.height <= a.y + a.height
  }

  function Sx(a: CompArea): nat
    requires a.comp.Some?
  {
    ScaleX(a.comp.value, a.format)
  }

  function Sy(a: CompArea): nat
    requires a.comp.Some?
  {
    ScaleY(a.comp.value, a.format)
  }

  /** xRecalcLumaToChroma: a luma-sample area expressed in the samples of the block's component. */
  function RecalcLumaToChroma(a: CompArea): (r: CompArea)
    requires a.comp.Some?
    ensures r.comp == a.comp && r.format == a.format
    ensures Shl(r.x, Sx(a)) <= a.x < Shl(r.x + 1, Sx(a)) && Shl(r.y, Sy(a)) <= a.y < Shl(r.y + 1, Sy(a))
    ensures Shl(r.width, Sx(a)) <= a.width < Shl(r.width + 1, Sx(a)) && Shl(r.height, Sy(a)) <= a.height < Shl(r.height + 1, Sy(a))
  {
    var sx := Sx(a);
    var sy := Sy(a);
    DivModSplit(a.x, Pow2(sx));
    DivModSplit(a.y, Pow2(sy));
    DivModSplit(a.width, Pow2(sx));
    DivModSplit(a.height, Pow2(sy));
    a.(x := Shr(a.x, sx), y := Shr(a.y, sy), width := Shr(a.width, sx), height := Shr(a.height, sy))
  }

  /** chromaPos: the position in chroma samples, shifted by the block's own scale when it is a luma block. */
  function ChromaPos(a: CompArea): (int, int)
    requires a.comp.Some?
  {
    if IsLuma(a.comp.value) then (Shr(a.x, Sx(a)), Shr(a.y, Sy(a))) else (a.x, a.y)
  }

  /** lumaPos: the position in luma samples of a chroma block. */
  function LumaPos(a: CompArea): (p: (int, int))
    requires a.comp.Some?
    ensures IsLuma(a.comp.value) ==> p == (a.x, a.y)
  {
    if !IsLuma(a.comp.value) then (Shl(a.x, Sx(a)), Shl(a.y, Sy(a))) else (a.x, a.y)
  }

  function ChromaSize(a: CompArea): (nat, nat)
    requires a.comp.Some?
  {
    if IsLuma(a.comp.value) then (Shr(a.width, Sx(a)), Shr(a.height, Sy(a))) else (a.width, a.height)
  }

  function LumaSize(a: CompArea): (s: (nat, nat))
    requires a.comp.Some?
    ensures IsLuma(a.comp.value) ==> s == (a.width, a.height)
  {
    if !IsLuma(a.comp.value) then (Shl(a.width, Sx(a)), Shl(a.height, Sy(a))) else (a.width, a.height)
  }

  /**
   * A luma block's own scale is 0, so chromaPos and chromaSize return every
   * block's position and size unchanged.
   */
  lemma ChromaPosAndSizeAreIdentity(a: CompArea)
    requires a.comp.Some?
    ensures ChromaPos(a) == (a.x, a.y) && ChromaSize(a) == (a.width, a.height)
  {
  }

  /** Recalculating a luma block changes nothing. */
  lemma RecalcLumaIdentity(a: CompArea)
    requires a.comp == Some(CompY)
    ensures RecalcLumaToChroma(a) == a
  {
  }

  /**
   * For a chroma block whose luma position and size are multiples of the
   * subsampling, lumaPos and lumaSize undo xRecalcLumaToChroma.
   */
  lemma LumaOfRecalcRoundTrip(a: CompArea)
    requires a.comp.Some? && !IsLuma(a.comp.value)
    requires a.x % Pow2(Sx(a)) == 0 && a.width % Pow2(Sx(a)) == 0
    requires a.y % Pow2(Sy(a)) == 0 && a.height % Pow2(Sy(a)) == 0
    ensures LumaPos(RecalcLumaToChroma(a)) == (a.x, a.y)
    ensures LumaSize(RecalcLumaToChroma(a)) == (a.width, a.height)
  {
    DivModSplit(a.x, Pow2(Sx(a)));
    DivModSplit(a.y, Pow2(Sy(a)));
    DivModSplit(a.width, Pow2(Sx(a)));
    DivModSplit(a.height, Pow2(Sy(a)));
  }

  /** In the other order: scaling a chroma block up to luma samples and recalculating gives the block back. */
  lemma RecalcOfLumaRoundTrip(a: CompArea)
    requires a.comp.Some? && !IsLuma(a.comp.value)
    ensures var p := LumaPos(a); var s := LumaSize(a);
            RecalcLumaToChroma(a.(x := p.0, y := p.1, width := s.0, height := s.1)) == a
  {
    var p := LumaPos(a);
    var s := LumaSize(a);
    DivModUnique(p.0, Pow2(Sx(a)), a.x, 0);
    DivModUnique(p.1, Pow2(Sy(a)), a.y, 0);
    DivModUnique(s.0, Pow2(Sx(a)), a.width, 0);
    DivModUnique(s.1, Pow2(Sy(a)), a.height, 0);
  }

  // ---------------------------------------------------------------------
  // UnitArea
  // ---------------------------------------------------------------------

  /** A unit area: one block per valid component, indexed by component. */
  datatype UnitArea = UnitArea(chromaFormat: ChromaFormat, blocks: seq<CompArea>)

  /** Every valid block of b names a component a has a slot for. */
  predicate Indexable(a: UnitArea, b: UnitArea)
  {
    forall k :: 0 <= k < |b.blocks| && ValidArea(b.blocks[k]) ==> ComponentIndex(b.blocks[k].comp.value) < |a.blocks|
  }

  /** The block of b at k takes part in the comparison with a (restricted to channel ch when given). */
  predicate Compared(a: UnitArea, b: UnitArea, k: nat, ch: Option<ChannelType>)
    requires Indexable(a, b) && k < |b.blocks|
  {
    var blk := b.blocks[k];
    (ch.None? || (blk.comp.Some? && ToChannelType(blk.comp.value) == ch.value)) &&
    ValidArea(blk) && ValidArea(a.blocks[ComponentIndex(blk.comp.value)])
  }

  /**
   * contains: some block of b is compared, and every compared block lies in
   * a's block of the same component.
   */
  ghost predicate ContainsSpec(a: UnitArea, b: UnitArea, ch: Option<ChannelType>)
    requires Indexable(a, b)
  {
    (exists k :: 0 <= k < |b.blocks| && Compared(a, b, k, ch)) &&
    (forall k :: 0 <= k < |b.blocks| && Compared(a, b, k, ch) ==>
       BlockContains(a.blocks[ComponentIndex(b.blocks[k].comp.value)], b.blocks[k]))
  }

  /** UnitArea::contains(other) */
  method Contains(a: UnitArea, other: UnitArea) returns (r: bool)
    requires Indexable(a, other)
    ensures r <==> ContainsSpec(a, other, None)
  {
    var ret := true;
    var any := false;
    var k := 0;
    while k < |other.blocks|
      invariant 0 <= k <= |other.blocks|
      invariant any <==> exists j :: 0 <= j < k && Compared(a, other, j, None)
      invariant ret <==> forall j :: 0 <= j < k && Compared(a, other, j, None) ==>
                           BlockContains(a.blocks[ComponentIndex(other.blocks[j].comp.value)], other.blocks[j])
    {
      var blk := other.blocks[k];
      if ValidArea(blk) && ValidArea(a.blocks[ComponentIndex(blk.comp.value)]) {
        assert Compared(a, other, k, None);
        ret := ret && BlockContains(a.blocks[ComponentIndex(blk.comp.value)], blk);
        any := true;
      }
      k := k + 1;
    }
    r := any && ret;
  }

  /** UnitArea::contains(other, chType) */
  method ContainsChannel(a: UnitArea, other: UnitArea, chType: ChannelType) returns (r: bool)
    requires Indexable(a, other)
    ensures r <==> ContainsSpec(a, other, Some(chType))
  {
    var ret := true;
    var any := false;
    var k := 0;
    while k < |other.blocks|
      invariant 0 <= k <= |other.blocks|
      invariant any <==> exists j :: 0 <= j < k && Compared(a, other, j, Some(chType))
      invariant ret <==> forall j :: 0 <= j < k && Compared(a, other, j, Some(chType)) ==>
                           BlockContains(a.blocks[ComponentIndex(other.blocks[j].comp.value)], other.blocks[j])
    {
      var blk := other.blocks[k];
      if blk.comp.Some? && ToChannelType(blk.comp.value) == chType && ValidArea(blk)
         && ValidArea(a.blocks[ComponentIndex(blk.comp.value)]) {
        assert Compared(a, other, k, Some(chType));
        ret := ret && BlockContains(a.blocks[ComponentIndex(blk.comp.value)], blk);
        any := true;
      }
      k := k + 1;
    }
    r := any && ret;
  }

  /** The blocks of a sit at the index of their component. */
  predicate Slotted(a: UnitArea)
  {
    forall k :: 0 <= k < |a.blocks| && a.blocks[k].comp.Some? ==> ComponentIndex(a.blocks[k].comp.value) == k
  }

  /** A slotted area with a valid block (of the channel, when given) contains itself. */
  lemma ContainsReflexive(a: UnitArea, ch: Option<ChannelType>, k: nat)
    requires Slotted(a) && k < |a.blocks| && ValidArea(a.blocks[k])
    requires ch.None? || ToChannelType(a.blocks[k].comp.value) == ch.value
    ensures Indexable(a, a) && ContainsSpec(a, a, ch)
  {
    assert Compared(a, a, k, ch);
  }

  /** singleChan: the blocks of channel chType kept in place, every other block replaced by an empty one. */
  method SingleChan(a: UnitArea, chType: ChannelType) returns (r: UnitArea)
    ensures r.chromaFormat == a.chromaFormat && |r.blocks| == |a.blocks|
    ensures forall k :: 0 <= k < |a.blocks| ==>
              r.blocks[k] == (if a.blocks[k].comp.Some? && ToChannelType(a.blocks[k].comp.value) == chType
                              then a.blocks[k] else EmptyArea)
  {
    var blocks: seq<CompArea> := [];
    for k := 0 to |a.blocks|
      invariant |blocks| == k
      invariant forall j :: 0 <= j < k ==>
                  blocks[j] == (if a.blocks[j].comp.Some? && ToChannelType(a.blocks[j].comp.value) == chType
                                then a.blocks[j] else EmptyArea)
    {
      var blk := a.blocks[k];
      blocks := blocks + [if blk.comp.Some? && ToChannelType(blk.comp.value) == chType then blk else EmptyArea];
    }
    r := UnitArea(a.chromaFormat, blocks);
  }

  /**
   * An area contains its own single-channel restriction exactly when it
   * has a valid block of that channel.
   */
  lemma ContainsSingleChan(a: UnitArea, s: UnitArea, ch: ChannelType)
    requires Slotted(a) && s.chromaFormat == a.chromaFormat && |s.blocks| == |a.blocks|
    requires forall k :: 0 <= k < |a.blocks| ==>
               s.blocks[k] == (if a.blocks[k].comp.Some? && ToChannelType(a.blocks[k].comp.value) == ch
                               then a.blocks[k] else EmptyArea)
    ensures Indexable(a, s)
    ensures ContainsSpec(a, s, None) <==>
            exists k :: 0 <= k < |a.blocks| && ValidArea(a.blocks[k]) && ToChannelType(a.blocks[k].comp.value) == ch
  {
    assert Indexable(a, s);
    if exists k :: 0 <= k < |a.blocks| && ValidArea(a.blocks[k]) && ToChannelType(a.blocks[k].comp.value) == ch {
      var k :| 0 <= k < |a.blocks| && ValidArea(a.blocks[k]) && ToChannelType(a.blocks[k].comp.value) == ch;
      assert Compared(a, s, k, None);
    }
    if ContainsSpec(a, s, None) {
      var k :| 0 <= k < |s.blocks| && Compared(a, s, k, None);
      assert ValidArea(a.blocks[k]);
    }
  }

  // ---------------------------------------------------------------------
  // SBT
  // ---------------------------------------------------------------------

  /** SbtIdx values: SBT_OFF_DCT and the four split types, in the source's order. */
  const SbtOffDct: nat := 0
  const SbtVerHalf: nat := 1
  const SbtHorHalf: nat := 2
  const SbtVerQuad: nat := 3
  const SbtHorQuad: nat := 4
  const NumberSbtIdx: nat := 5
  const SbtPos0: nat := 0
  const SbtPos1: nat := 1

  datatype PredMode = ModeInter | ModeIntra | ModeIbc | ModePlt | NumberOfPredictionModes

  /** allowType of checkAllowedSbt, one flag per SbtIdx. */
  function AllowedSbtTypes(useSbt: bool, predMode: PredMode, ciipFlag: bool, cuWidth: int, cuHeight: int,
                           maxSbtCUSize: int, minSbtCUSize: int): (t: seq<bool>)
    ensures |t| == NumberSbtIdx && !t[SbtOffDct]
    ensures (!useSbt || predMode in {ModeIntra, ModeIbc, ModePlt} || ciipFlag
             || cuWidth > maxSbtCUSize || cuHeight > maxSbtCUSize) ==> forall i :: 0 <= i < |t| ==> !t[i]
  {
    if !useSbt || predMode == ModeIntra || predMode == ModeIbc || predMode == ModePlt || ciipFlag
       || cuWidth > maxSbtCUSize || cuHeight > maxSbtCUSize then
      [false, false, false, false, false]
    else
      [false, cuWidth >= minSbtCUSize, cuHeight >= minSbtCUSize, cuWidth >= 2 * minSbtCUSize, cuHeight >= 2 * minSbtCUSize]
  }

  /** The bitmask with bit i set iff flags[i]. */
  function Mask(flags: seq<bool>): (m: nat)
    ensures m < Pow2(|flags|)
  {
    if |flags| == 0 then 0 else Mask(flags[..|flags| - 1]) + (if flags[|flags| - 1] then Pow2(|flags| - 1) else 0)
  }

  /** Bit i of m. */
  function TestBit(m: nat, i: nat): bool
  {
    if i == 0 then m % 2 == 1 else TestBit(m / 2, i - 1)
  }

  /** Bits at or above the length of the mask are clear. */
  lemma {:induction false} TestBitAbove(m: nat, i: nat, n: nat)
    requires m < Pow2(n) && n <= i
    ensures !TestBit(m, i)
    decreases i
  {
    if i == 0 {
      assert m == 0;
    } else if n == 0 {
      assert m == 0;
      TestBitAbove(m / 2, i - 1, 0);
    } else {
      assert m / 2 < Pow2(n - 1);
      TestBitAbove(m / 2, i - 1, n - 1);
    }
  }

  /** Adding 2^k to a number below 2^k sets bit k and keeps the bits below it. */
  lemma {:induction false} TestBitAdd(m: nat, k: nat, i: nat)
    requires m < Pow2(k)
    ensures TestBit(m + Pow2(k), i) == (i == k || TestBit(m, i))
    decreases i
  {
    if i == 0 {
      if k == 0 {
        assert m == 0;
      } else {
        assert (m + Pow2(k)) % 2 == m % 2 by {
          DivModSplit(m, 2);
          DivModUnique(m + Pow2(k), 2, m / 2 + Pow2(k - 1), m % 2);
        }
      }
    } else if k == 0 {
      assert m == 0;
      assert (m + Pow2(k)) / 2 == 0;
      assert !TestBit(0, i - 1) by { TestBitAbove(0, i - 1, 0); }
    } else {
      DivModSplit(m, 2);
      DivModUnique(m + Pow2(k), 2, m / 2 + Pow2(k - 1), m % 2);
      TestBitAdd(m / 2, k - 1, i - 1);
    }
  }

  /** Bit i of Mask(flags) is flags[i]: the mask encodes the flags exactly. */
  lemma {:induction false} MaskBits(flags: seq<bool>, i: nat)
    requires i < |flags|
    ensures TestBit(Mask(flags), i) == flags[i]
    decreases |flags|
  {
    var n := |flags| - 1;
    var init := flags[..n];
    if flags[n] {
      TestBitAdd(Mask(init), n, i);
      if i < n {
        MaskBits(init, i);
      }
    } else {
      if i < n {
        MaskBits(init, i);
      } else {
        TestBitAbove(Mask(init), i, n);
      }
    }
  }

  lemma MaskAllClear(flags: seq<bool>)
    requires forall i :: 0 <= i < |flags| ==> !flags[i]
    ensures Mask(flags) == 0
    decreases |flags|
  {
    if |flags| > 0 {
      MaskAllClear(flags[..|flags| - 1]);
    }
  }

  /** Bit i of checkAllowedSbt's mask says whether SBT type i is allowed; bit 0 is never set. */
  lemma AllowedSbtBits(useSbt: bool, predMode: PredMode, ciipFlag: bool, cuWidth: int, cuHeight: int,
                       maxSbtCUSize: int, minSbtCUSize: int, i: nat)
    requires i < NumberSbtIdx
    ensures var t := AllowedSbtTypes(useSbt, predMode, ciipFlag, cuWidth, cuHeight, maxSbtCUSize, minSbtCUSize);
            Mask(t) < 32 && TestBit(Mask(t), i) == t[i] && !TestBit(Mask(t), SbtOffDct)
  {
    var t := AllowedSbtTypes(useSbt, predMode, ciipFlag, cuWidth, cuHeight, maxSbtCUSize, minSbtCUSize);
    MaskBits(t, i);
    MaskBits(t, SbtOffDct);
    assert Pow2(5) == 32;
  }

  /** With a positive minimum size a quarter split is only allowed where the half split is. */
  lemma QuadSbtNeedsHalf(useSbt: bool, predMode: PredMode, ciipFlag: bool, cuWidth: int, cuHeight: int,
                         maxSbtCUSize: int, minSbtCUSize: int)
    requires minSbtCUSize >= 0
    ensures var t := AllowedSbtTypes(useSbt, predMode, ciipFlag, cuWidth, cuHeight, maxSbtCUSize, minSbtCUSize);
            (t[SbtVerQuad] ==> t[SbtVerHalf]) && (t[SbtHorQuad] ==> t[SbtHorHalf])
  {
  }

  /**
   * getSbtTuSplit, as the offset of the partition from
   * SBT_VER_HALF_POS0_SPLIT (the eight SBT partitions are consecutive in
   * PartSplit: half vertical, half horizontal, quarter vertical, quarter
   * horizontal, each at position 0 then 1).
   */
  function SbtTuSplit(sbtIdx: nat, sbtPos: nat): (s: nat)
    requires SbtVerHalf <= sbtIdx <= SbtHorQuad
    ensures s <= 7
  {
    var base := if sbtIdx == SbtVerHalf then 0 else if sbtIdx == SbtHorHalf then 2 else if sbtIdx == SbtVerQuad then 4 else 6;
    (if sbtPos == SbtPos0 then 0 else 1) + base
  }

  /** The split names its type and position: both can be read back from it. */
  lemma SbtTuSplitDecodes(sbtIdx: nat, sbtPos: nat)
    requires SbtVerHalf <= sbtIdx <= SbtHorQuad
    ensures SbtTuSplit(sbtIdx, sbtPos) / 2 + 1 == sbtIdx
    ensures SbtTuSplit(sbtIdx, sbtPos) % 2 == (if sbtPos == SbtPos0 then 0 else 1)
  {
  }

  /** checkTuNoResidual's condition: the TU at idx is the one an SBT split leaves without residual. */
  predicate MarksNoResidual(sbtIdx: nat, sbtPos: nat, idx: nat)
  {
    sbtIdx != SbtOffDct && ((sbtPos == SbtPos0 && idx == 1) || (sbtPos == SbtPos1 && idx == 0))
  }

  /** With SBT on, of the two TUs 0 and 1 exactly one is marked; with SBT off neither is. */
  lemma ExactlyOneTuWithoutResidual(sbtIdx: nat, sbtPos: nat)
    requires sbtPos == SbtPos0 || sbtPos == SbtPos1
    ensures sbtIdx != SbtOffDct ==> (MarksNoResidual(sbtIdx, sbtPos, 0) != MarksNoResidual(sbtIdx, sbtPos, 1))
    ensures sbtIdx == SbtOffDct ==> !MarksNoResidual(sbtIdx, sbtPos, 0) && !MarksNoResidual(sbtIdx, sbtPos, 1)
  {
  }

  /** Size of one side of a transform block after the MTS/SBT luma zero-out (before getNonzeroTuSize). */
  function ZeroOutSide(size: nat, shrink: bool): (r: nat)
    ensures r <= size
    ensures shrink && size == 32 ==> r == 16
    ensures !(shrink && size == 32) ==> r == size
  {
    if shrink && size == 32 then 16 else size
  }

  datatype MtsType = MtsDct2Dct2 | MtsSkip | MtsDst7Dst7 | MtsDct8Dst7 | MtsDst7Dct8 | MtsDct8Dct8
  datatype TreeType = TreeD | TreeL | TreeC
  datatype ModeType = ModeTypeAll | ModeTypeInter | ModeTypeIntra

  /**
   * A coding unit: its luma size, the prediction-unit CIIP flag it
   * consults, and the fields initData resets. Palette tables and the
   * pointers into the coding structure are not modelled.
   */
  class CodingUnit {
    const lumaWidth: int
    const lumaHeight: int
    var ciipFlag: bool
    var predMode: PredMode
    var qtDepth: nat
    var depth: nat
    var btDepth: nat
    var mtDepth: nat
    var skip: bool
    var affine: bool
    var rootCbf: bool
    var sbtIdx: nat
    var sbtPos: nat
    var mtsFlag: nat
    var lfnstIdx: nat
    var bcwIdx: nat
    var refIdxBi: seq<int>
    var ispMode: nat
    var mipFlag: bool
    var treeType: TreeType
    var modeType: ModeType

    /** The state initData leaves; BCW_DEFAULT is a parameter. */
    ghost predicate Initial(bcwDefault: nat)
      reads this
    {
      InitialPartition() && InitialFlags() && InitialTools(bcwDefault)
    }

    ghost predicate InitialPartition()
      reads this`predMode, this`qtDepth, this`depth, this`btDepth, this`mtDepth, this`treeType, this`modeType
    {
      predMode == NumberOfPredictionModes && qtDepth == 0 && depth == 0 && btDepth == 0 && mtDepth == 0 &&
      treeType == TreeD && modeType == ModeTypeAll
    }

    ghost predicate InitialFlags()
      reads this`skip, this`affine, this`rootCbf, this`mipFlag
    {
      !skip && !affine && rootCbf && !mipFlag
    }

    ghost predicate InitialTools(bcwDefault: nat)
      reads this`sbtIdx, this`sbtPos, this`mtsFlag, this`lfnstIdx, this`bcwIdx, this`refIdxBi, this`ispMode
    {
      sbtIdx == SbtOffDct && sbtPos == SbtPos0 && mtsFlag == 0 && lfnstIdx == 0 &&
      bcwIdx == bcwDefault && refIdxBi == [-1, -1] && ispMode == 0
    }

    /** CodingUnit(area): a fresh CU runs initData. */
    constructor (w: int, h: int, bcwDefault: nat)
      ensures lumaWidth == w && lumaHeight == h && !ciipFlag
      ensures Initial(bcwDefault)
    {
      lumaWidth := w;
      lumaHeight := h;
      ciipFlag := false;
      predMode := NumberOfPredictionModes;
      qtDepth := 0;
      depth := 0;
      btDepth := 0;
      mtDepth := 0;
      skip := false;
      affine := false;
      rootCbf := true;
      sbtIdx := SbtOffDct;
      sbtPos := SbtPos0;
      mtsFlag := 0;
      lfnstIdx := 0;
      bcwIdx := bcwDefault;
      refIdxBi := [-1, -1];
      ispMode := 0;
      mipFlag := false;
      treeType := TreeD;
      modeType := ModeTypeAll;
    }

    /** initData */
    method InitData(bcwDefault: nat)
      modifies this
      ensures InitialPartition() && InitialFlags() && InitialTools(bcwDefault)
      ensures ciipFlag == old(ciipFlag)
    {
      ResetPartition();
      ResetFlags();
      ResetTools(bcwDefault);
    }

    /** The partitioning and mode fields initData resets. */
    method ResetPartition()
      modifies this`predMode, this`qtDepth, this`depth, this`btDepth, this`mtDepth, this`treeType, this`modeType
      ensures InitialPartition()
    {
      predMode := NumberOfPredictionModes;
      qtDepth := 0;
      depth := 0;
      btDepth := 0;
      mtDepth := 0;
      treeType := TreeD;
      modeType := ModeTypeAll;
    }

    /** The flags initData resets. */
    method ResetFlags()
      modifies this`skip, this`affine, this`rootCbf, this`mipFlag
      ensures InitialFlags()
    {
      skip := false;
      affine := false;
      rootCbf := true;
      mipFlag := false;
    }

    /** The coding-tool fields initData resets. */
    method ResetTools(bcwDefault: nat)
      modifies this`sbtIdx, this`sbtPos, this`mtsFlag, this`lfnstIdx, this`bcwIdx, this`refIdxBi, this`ispMode
      ensures InitialTools(bcwDefault)
    {
      sbtIdx := SbtOffDct;
      sbtPos := SbtPos0;
      mtsFlag := 0;
      lfnstIdx := 0;
      bcwIdx := bcwDefault;
      refIdxBi := [-1, -1];
      ispMode := 0;
    }

    /**
     * checkAllowedSbt: the SPS switch, the maximum transform size and
     * MIN_CU_LOG2 are parameters; the minimum SBT CU size is 1 << (MIN_CU_LOG2 + 1).
     */
    method CheckAllowedSbt(useSbt: bool, maxTbSize: int, minCuLog2: nat) returns (sbtAllowed: nat)
      ensures sbtAllowed == Mask(AllowedSbtTypes(useSbt, predMode, ciipFlag, lumaWidth, lumaHeight,
                                                 maxTbSize, Shl(1, minCuLog2 + 1)))
    {
      if !useSbt {
        MaskAllClear([false, false, false, false, false]);
        return 0;
      }
      if predMode == ModeIntra || predMode == ModeIbc || predMode == ModePlt {
        MaskAllClear([false, false, false, false, false]);
        return 0;
      }
      if ciipFlag {
        MaskAllClear([false, false, false, false, false]);
        return 0;
      }
      var cuWidth := lumaWidth;
      var cuHeight := lumaHeight;
      var maxSbtCUSize := maxTbSize;
      var minSbtCUSize := Shl(1, minCuLog2 + 1);
      if cuWidth > maxSbtCUSize || cuHeight > maxSbtCUSize {
        MaskAllClear([false, false, false, false, false]);
        return 0;
      }
      var allowType := [false, cuWidth >= minSbtCUSize, cuHeight >= minSbtCUSize,
                        cuWidth >= 2 * minSbtCUSize, cuHeight >= 2 * minSbtCUSize];
      assert allowType == AllowedSbtTypes(useSbt, predMode, ciipFlag, lumaWidth, lumaHeight, maxTbSize, minSbtCUSize);
      sbtAllowed := 0;
      for i := 0 to |allowType|
        invariant sbtAllowed == Mask(allowType[..i])
      {
        assert allowType[..i + 1][..i] == allowType[..i];
        sbtAllowed := sbtAllowed + (if allowType[i] then Shl(1, i) else 0);
      }
      assert allowType[..|allowType|] == allowType;
    }
  }

  /**
   * A transform unit: its blocks, and the fields initData resets. The SBT
   * type and position and the MTS switch come from its CU and the SPS and
   * are method parameters.
   */
  class TransformUnit {
    var area: UnitArea
    var cbf: seq<nat>
    var mtsIdx: seq<MtsType>
    var depth: nat
    var noResidual: bool
    var jointCbCr: nat
    var chromaResScaleInv: int

    /** The state initData leaves, over MAX_NUM_TBLOCKS transform blocks. */
    ghost predicate Initial()
      reads this
    {
      |cbf| == 3 && |mtsIdx| == 3 &&
      (forall i :: 0 <= i < 3 ==> cbf[i] == 0 && mtsIdx[i] == MtsDct2Dct2) &&
      depth == 0 && !noResidual && jointCbCr == 0 && chromaResScaleInv == 0
    }

    constructor (a: UnitArea)
      ensures area == a && Initial()
    {
      area := a;
      cbf := [0, 0, 0];
      mtsIdx := [MtsDct2Dct2, MtsDct2Dct2, MtsDct2Dct2];
      depth := 0;
      noResidual := false;
      jointCbCr := 0;
      chromaResScaleInv := 0;
    }

    /** initData */
    method InitData()
      modifies this
      ensures Initial() && area == old(area)
    {
      var c: seq<nat> := [];
      var m: seq<MtsType> := [];
      for i := 0 to 3
        invariant |c| == i && |m| == i
        invariant forall j :: 0 <= j < i ==> c[j] == 0 && m[j] == MtsDct2Dct2
      {
        c := c + [0];
        m := m + [MtsDct2Dct2];
      }
      cbf := c;
      mtsIdx := m;
      depth := 0;
      noResidual := false;
      jointCbCr := 0;
      chromaResScaleInv := 0;
    }

    /** checkTuNoResidual(idx) of a TU whose CU has SBT type sbtIdx at position sbtPos. */
    method CheckTuNoResidual(idx: nat, sbtIdx: nat, sbtPos: nat)
      modifies this
      ensures noResidual == (old(noResidual) || MarksNoResidual(sbtIdx, sbtPos, idx))
      ensures area == old(area) && cbf == old(cbf) && mtsIdx == old(mtsIdx) && depth == old(depth)
      ensures jointCbCr == old(jointCbCr) && chromaResScaleInv == old(chromaResScaleInv)
    {
      if sbtIdx == SbtOffDct {
        return;
      }
      if (sbtPos == SbtPos0 && idx == 1) || (sbtPos == SbtPos1 && idx == 0) {
        noResidual := true;
      }
    }

    /**
     * getTbAreaAfterCoefZeroOut: getNonzeroTuSize is the parameter nonzero;
     * sbtOn says the CU's sbtInfo is non-zero.
     */
    function TbAreaAfterCoefZeroOut(comp: ComponentId, mtsEnabled: bool, sbtOn: bool, nonzero: nat -> nat): (r: nat)
      reads this
      requires ComponentIndex(comp) < |area.blocks|
      ensures var b := area.blocks[ComponentIndex(comp)];
              var shrink := mtsEnabled && sbtOn && b.width <= 32 && b.height <= 32 && comp == CompY;
              r == nonzero(ZeroOutSide(b.width, shrink)) * nonzero(ZeroOutSide(b.height, shrink))
    {
      var b := area.blocks[ComponentIndex(comp)];
      var zw := b.width;
      var zh := b.height;
      var shrink := mtsEnabled && sbtOn && b.width <= 32 && b.height <= 32 && comp == CompY;
      var zw2 := if shrink then (if b.width == 32 then 16 else zw) else zw;
      var zh2 := if shrink then (if b.height == 32 then 16 else zh) else zh;
      nonzero(zw2) * nonzero(zh2)
    }
  }

  /**
   * When getNonzeroTuSize never enlarges a side, the zero-out area is at
   * most the block area; chroma and non-SBT blocks only see getNonzeroTuSize.
   */
  lemma ZeroOutAreaBound(w: nat, h: nat, shrink: bool, nonzero: nat -> nat)
    requires forall s: nat :: nonzero(s) <= s
    ensures nonzero(ZeroOutSide(w, shrink)) * nonzero(ZeroOutSide(h, shrink)) <= w * h
    ensures !shrink ==> ZeroOutSide(w, shrink) == w && ZeroOutSide(h, shrink) == h
  {
    var a := nonzero(ZeroOutSide(w, shrink));
    var b := nonzero(ZeroOutSide(h, shrink));
    assert a <= w && b <= h;
    MulMono(a, w, b, h);
  }

  lemma MulMono(a: nat, w: nat, b: nat, h: nat)
    requires a <= w && b <= h
    ensures a * b <= w * h
  {
    MulNonNegative(w - a, b);
    MulNonNegative(w, h - b);
    assert w * h == a * b + (w - a) * b + w * (h - b);
  }
}
