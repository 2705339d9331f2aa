/**
 * Parameters of the adaptive loop filter (clause 8.8.5 of ITU-T H.266):
 * the diamond filter shapes and the ALF and cross-component ALF parameter
 * records with their reset, assignment and comparison.
 *
 * The array sizes are the constants of CommonDef.h, which is not part of
 * this model; each two-dimensional array is stored row by row in one
 * array, as memset/memcpy see it.
 */
module AlfParameters {
  import opened Common

  const MaxNumComponent: nat := 3
  const MaxNumChannelType: nat := 2
  const MaxNumAlfClasses: nat := 25
  const MaxNumAlfLumaCoeff: nat := 13
  const AlfMaxNumAlternativesChroma: nat := 8
  const MaxNumAlfChromaCoeff: nat := 7
  const MaxNumCcAlfFilters: nat := 4
  const MaxNumCcAlfChromaCoeff: nat := 8

  // ---------------------------------------------------------------------
  // AlfFilterShape
  // ---------------------------------------------------------------------

  datatype AlfFilterType = AlfFilter5 | AlfFilter7 | CcAlf | AlfNumOfFilterTypes

  /** size_CC_ALF: the size value that asks for the cross-component shape. */
  const SizeCcAlf: int := -1

  datatype AlfFilterShape = AlfFilterShape(filterType: AlfFilterType, filterLength: int, numCoeff: int, pattern: seq<int>)

  /** The 5x5 diamond, in raster order of its rows of 1, 3, 5, 3 and 1 taps. */
  const Pattern5: seq<int> := [0, 1, 2, 3, 4, 5, 6, 5, 4, 3, 2, 1, 0]

  /** The 7x7 diamond, rows of 1, 3, 5, 7, 5, 3 and 1 taps. */
  const Pattern7: seq<int> := [0, 1, 2, 3, 4, 5, 6, 7, 8, 9, 10, 11, 12, 11, 10, 9, 8, 7, 6, 5, 4, 3, 2, 1, 0]

  /** AlfFilterShape(size); any size but 5, 7 and size_CC_ALF throws. */
  function MakeAlfFilterShape(size: int): (r: Result<AlfFilterShape>)
    ensures r.CheckFailed? <==> size != 5 && size != 7 && size != SizeCcAlf
    ensures size == SizeCcAlf ==> r == Ok(AlfFilterShape(CcAlf, 8, 8, []))
    ensures r.Ok? && size != SizeCcAlf ==> r.value.filterLength == size && r.value.numCoeff == size * size / 4 + 1
  {
    var numCoeff := size * size / 4 + 1;
    if size == 5 then
      Ok(AlfFilterShape(AlfFilter5, size, numCoeff, Pattern5))
    else if size == 7 then
      Ok(AlfFilterShape(AlfFilter7, size, numCoeff, Pattern7))
    else if size == SizeCcAlf then
      Ok(AlfFilterShape(CcAlf, 8, 8, []))
    else
      CheckFailed("Wrong ALF filter shape")
  }

  /** A diamond of the given size: the pattern has (size^2 + 1) / 2 taps, one index per tap. */
  ghost predicate DiamondShape(s: AlfFilterShape, size: int)
  {
    |s.pattern| == (size * size + 1) / 2 &&
    |s.pattern| == 2 * s.numCoeff - 1 &&
    (forall i :: 0 <= i < |s.pattern| ==> 0 <= s.pattern[i] < s.numCoeff)
  }

  /**
   * Tap i of the raster-ordered diamond uses coefficient i up to the centre and
   * the coefficient of the mirrored tap after it.
   */
  ghost predicate MirrorIndexed(p: seq<int>)
  {
    forall i :: 0 <= i < |p| ==> p[i] == if i <= |p| - 1 - i then i else |p| - 1 - i
  }

  /** Point symmetry: the tap opposite i through the centre shares its coefficient. */
  ghost predicate PointSymmetric(p: seq<int>)
  {
    forall i :: 0 <= i < |p| ==> p[i] == p[|p| - 1 - i]
  }

  /** The centre tap alone holds the largest index, and any other index is used only by tap i or its mirror image. */
  ghost predicate CentreIsUnique(p: seq<int>)
  {
    var c := |p| / 2;
    |p| % 2 == 1 &&
    (forall i :: 0 <= i < |p| && i != c ==> p[i] < p[c] && (p[i] == i || p[i] == |p| - 1 - i))
  }

  /** A mirror-indexed pattern of odd length is point symmetric with a unique centre. */
  lemma MirrorIndexedShape(p: seq<int>)
    requires |p| % 2 == 1 && MirrorIndexed(p)
    ensures PointSymmetric(p) && CentreIsUnique(p)
    ensures forall i :: 0 <= i < |p| ==> 0 <= p[i] <= |p| / 2
  {
    var c := |p| / 2;
    assert p[c] == c;
    forall i | 0 <= i < |p|
      ensures p[i] == p[|p| - 1 - i]
    {
      assert p[|p| - 1 - i] == if |p| - 1 - i <= i then |p| - 1 - i else i;
    }
  }

  lemma FilterShape5()
    ensures var r := MakeAlfFilterShape(5);
            r.Ok? && r.value.filterType == AlfFilter5 && r.value.numCoeff == 7 &&
            DiamondShape(r.value, 5) && PointSymmetric(r.value.pattern) && CentreIsUnique(r.value.pattern)
  {
    var p := Pattern5;
    assert MirrorIndexed(p) by {
      forall i | 0 <= i < |p|
        ensures p[i] == if i <= |p| - 1 - i then i else |p| - 1 - i
      {
      }
    }
    MirrorIndexedShape(p);
  }

  lemma FilterShape7()
    ensures var r := MakeAlfFilterShape(7);
            r.Ok? && r.value.filterType == AlfFilter7 && r.value.numCoeff == 13 &&
            DiamondShape(r.value, 7) && PointSymmetric(r.value.pattern) && CentreIsUnique(r.value.pattern)
  {
    var p := Pattern7;
    assert MirrorIndexed(p) by {
      forall i | 0 <= i < |p|
        ensures p[i] == if i <= |p| - 1 - i then i else |p| - 1 - i
      {
      }
    }
    MirrorIndexedShape(p);
  }

  /** The luma (7x7) and chroma (5x5) shapes fill exactly the coefficient arrays of AlfParam. */
  lemma ShapesFitCoefficientArrays()
    ensures MakeAlfFilterShape(7).Ok? && MakeAlfFilterShape(7).value.numCoeff == MaxNumAlfLumaCoeff
    ensures MakeAlfFilterShape(5).Ok? && MakeAlfFilterShape(5).value.numCoeff == MaxNumAlfChromaCoeff
    ensures MakeAlfFilterShape(SizeCcAlf).Ok? && MakeAlfFilterShape(SizeCcAlf).value.numCoeff == MaxNumCcAlfChromaCoeff
  {
  }

  // ---------------------------------------------------------------------
  // Array helpers: memset and memcpy
  // ---------------------------------------------------------------------

  method Fill<T>(a: array<T>, v: T)
    modifies a
    ensures forall i :: 0 <= i < a.Length ==> a[i] == v
  {
    for i := 0 to a.Length
      invariant forall j :: 0 <= j < i ==> a[j] == v
    {
      a[i] := v;
    }
  }

  method CopyInto<T>(dst: array<T>, src: array<T>)
    requires dst.Length == src.Length && dst != src
    modifies dst
    ensures dst[..] == src[..]
  {
    for i := 0 to dst.Length
      invariant forall j :: 0 <= j < i ==> dst[j] == src[j]
    {
      dst[i] := src[i];
    }
  }

  // ---------------------------------------------------------------------
  // AlfParam
  // ---------------------------------------------------------------------

  /** Everything operator== compares: all fields but filterShapes. */
  datatype AlfContents = AlfContents(
    enabledFlag: seq<bool>, nonLinearFlag: seq<bool>, lumaCoeff: seq<int>, lumaClipp: seq<int>,
    numAlternativesChroma: int, chromaCoeff: seq<int>, chromaClipp: seq<int>, filterCoeffDeltaIdx: seq<int>,
    alfLumaCoeffFlag: seq<bool>, numLumaFilters: int, alfLumaCoeffDeltaFlag: bool, newFilterFlag: seq<bool>)

  /** The contents reset() leaves. */
  function ResetContents(): (c: AlfContents)
    ensures |c.lumaCoeff| == MaxNumAlfClasses * MaxNumAlfLumaCoeff
    ensures |c.chromaCoeff| == AlfMaxNumAlternativesChroma * MaxNumAlfChromaCoeff
  {
    AlfContents(
      seq(MaxNumComponent, _ => false), seq(MaxNumChannelType, _ => false),
      seq(MaxNumAlfClasses * MaxNumAlfLumaCoeff, _ => 0), seq(MaxNumAlfClasses * MaxNumAlfLumaCoeff, _ => 0),
      1,
      seq(AlfMaxNumAlternativesChroma * MaxNumAlfChromaCoeff, _ => 0), seq(AlfMaxNumAlternativesChroma * MaxNumAlfChromaCoeff, _ => 0),
      seq(MaxNumAlfClasses, _ => 0), seq(MaxNumAlfClasses, _ => true), 1, false, seq(MaxNumChannelType, _ => false))
  }

  /** What reset() promises: every filter off and zero, every luma class coded, one filter and one alternative. */
  lemma ResetContentsState()
    ensures var c := ResetContents();
            (forall i :: 0 <= i < |c.enabledFlag| ==> !c.enabledFlag[i]) &&
            (forall i :: 0 <= i < |c.nonLinearFlag| ==> !c.nonLinearFlag[i] && !c.newFilterFlag[i]) &&
            (forall i :: 0 <= i < |c.lumaCoeff| ==> c.lumaCoeff[i] == 0 && c.lumaClipp[i] == 0) &&
            (forall i :: 0 <= i < |c.filterCoeffDeltaIdx| ==> c.filterCoeffDeltaIdx[i] == 0) &&
            (forall i :: 0 <= i < |c.chromaCoeff| ==> c.chromaCoeff[i] == 0 && c.chromaClipp[i] == 0) &&
            (forall i :: 0 <= i < |c.alfLumaCoeffFlag| ==> c.alfLumaCoeffFlag[i]) &&
            c.numAlternativesChroma == 1 && c.numLumaFilters == 1 && !c.alfLumaCoeffDeltaFlag
  {
  }

  class AlfParam {
    const enabledFlag: array<bool>
    const nonLinearFlag: array<bool>
    const lumaCoeff: array<int>
    const lumaClipp: array<int>
    var numAlternativesChroma: int
    const chromaCoeff: array<int>
    const chromaClipp: array<int>
    const filterCoeffDeltaIdx: array<int>
    const alfLumaCoeffFlag: array<bool>
    var numLumaFilters: int
    var alfLumaCoeffDeltaFlag: bool
    /** The filterShapes pointer, as an opaque handle. */
    var filterShapes: nat
    const newFilterFlag: array<bool>
    ghost const Repr: set<object>

    ghost predicate Valid()
    {
      Repr == {enabledFlag as object, nonLinearFlag, lumaCoeff, lumaClipp, chromaCoeff, chromaClipp,
               filterCoeffDeltaIdx, alfLumaCoeffFlag, newFilterFlag} &&
      enabledFlag.Length == MaxNumComponent && nonLinearFlag.Length == MaxNumChannelType &&
      lumaCoeff.Length == MaxNumAlfClasses * MaxNumAlfLumaCoeff && lumaClipp.Length == lumaCoeff.Length &&
      chromaCoeff.Length == AlfMaxNumAlternativesChroma * MaxNumAlfChromaCoeff && chromaClipp.Length == chromaCoeff.Length &&
      filterCoeffDeltaIdx.Length == MaxNumAlfClasses && alfLumaCoeffFlag.Length == MaxNumAlfClasses &&
      newFilterFlag.Length == MaxNumChannelType &&
      enabledFlag != nonLinearFlag && enabledFlag != alfLumaCoeffFlag && enabledFlag != newFilterFlag &&
      nonLinearFlag != alfLumaCoeffFlag && nonLinearFlag != newFilterFlag && alfLumaCoeffFlag != newFilterFlag &&
      lumaCoeff != lumaClipp && lumaCoeff != chromaCoeff && lumaCoeff != chromaClipp && lumaCoeff != filterCoeffDeltaIdx &&
      lumaClipp != chromaCoeff && lumaClipp != chromaClipp && lumaClipp != filterCoeffDeltaIdx &&
      chromaCoeff != chromaClipp && chromaCoeff != filterCoeffDeltaIdx && chromaClipp != filterCoeffDeltaIdx
    }

    ghost function Contents(): AlfContents
      reads this, Repr
      requires Valid()
    {
      AlfContents(enabledFlag[..], nonLinearFlag[..], lumaCoeff[..], lumaClipp[..], numAlternativesChroma,
                  chromaCoeff[..], chromaClipp[..], filterCoeffDeltaIdx[..], alfLumaCoeffFlag[..],
                  numLumaFilters, alfLumaCoeffDeltaFlag, newFilterFlag[..])
    }

    /** AlfParam(): fresh arrays, then reset(). The filterShapes pointer is left unset; it is 0 here. */
    constructor ()
      ensures Valid() && fresh(Repr) && Contents() == ResetContents()
    {
      var ef := new bool[MaxNumComponent];
      var nl := new bool[MaxNumChannelType];
      var lc := new int[MaxNumAlfClasses * MaxNumAlfLumaCoeff];
      var lk := new int[MaxNumAlfClasses * MaxNumAlfLumaCoeff];
      var cc := new int[AlfMaxNumAlternativesChroma * MaxNumAlfChromaCoeff];
      var ck := new int[AlfMaxNumAlternativesChroma * MaxNumAlfChromaCoeff];
      var di := new int[MaxNumAlfClasses];
      var lf := new bool[MaxNumAlfClasses];
      var nf := new bool[MaxNumChannelType];
      enabledFlag, nonLinearFlag, lumaCoeff, lumaClipp := ef, nl, lc, lk;
      chromaCoeff, chromaClipp, filterCoeffDeltaIdx, alfLumaCoeffFlag, newFilterFlag := cc, ck, di, lf, nf;
      filterShapes := 0;
      Repr := {ef as object, nl, lc, lk, cc, ck, di, lf, nf};
      new;
      assert fresh(Repr);
      Reset();
    }

    /** reset(): leaves filterShapes alone and everything else at ResetContents(). */
    method Reset()
      requires Valid()
      modifies this`numAlternativesChroma, this`numLumaFilters, this`alfLumaCoeffDeltaFlag, Repr
      ensures Valid() && Contents() == ResetContents()
    {
      Fill(enabledFlag, false);
      Fill(nonLinearFlag, false);
      Fill(lumaCoeff, 0);
      Fill(lumaClipp, 0);
      numAlternativesChroma := 1;
      Fill(chromaCoeff, 0);
      Fill(chromaClipp, 0);
      Fill(filterCoeffDeltaIdx, 0);
      Fill(alfLumaCoeffFlag, true);
      numLumaFilters := 1;
      alfLumaCoeffDeltaFlag := false;
      Fill(newFilterFlag, false);
      assert enabledFlag[..] == seq(MaxNumComponent, _ => false);
      assert nonLinearFlag[..] == seq(MaxNumChannelType, _ => false);
      assert lumaCoeff[..] == seq(MaxNumAlfClasses * MaxNumAlfLumaCoeff, _ => 0);
      assert lumaClipp[..] == seq(MaxNumAlfClasses * MaxNumAlfLumaCoeff, _ => 0);
      assert chromaCoeff[..] == seq(AlfMaxNumAlternativesChroma * MaxNumAlfChromaCoeff, _ => 0);
      assert chromaClipp[..] == seq(AlfMaxNumAlternativesChroma * MaxNumAlfChromaCoeff, _ => 0);
      assert filterCoeffDeltaIdx[..] == seq(MaxNumAlfClasses, _ => 0);
      assert alfLumaCoeffFlag[..] == seq(MaxNumAlfClasses, _ => true);
      assert newFilterFlag[..] == seq(MaxNumChannelType, _ => false);
    }

    /** operator=: copies every field of src, the filterShapes pointer included, so that afterwards the two compare equal. */
    method Assign(src: AlfParam)
      requires Valid() && src.Valid() && Repr !! src.Repr
      modifies this`numAlternativesChroma, this`numLumaFilters, this`alfLumaCoeffDeltaFlag, this`filterShapes, Repr
      ensures Valid() && src.Valid() && unchanged(src) && unchanged(src.Repr)
      ensures Equals(src) && filterShapes == src.filterShapes
    {
      CopyScalars(src);
      CopyFlags(src);
      CopyCoefficients(src);
    }

    /** The plain field assignments of operator=. */
    method CopyScalars(src: AlfParam)
      requires Valid() && src.Valid() && Repr !! src.Repr
      modifies this`numAlternativesChroma, this`numLumaFilters, this`alfLumaCoeffDeltaFlag, this`filterShapes
      ensures src != this
      ensures numAlternativesChroma == src.numAlternativesChroma && numLumaFilters == src.numLumaFilters
      ensures alfLumaCoeffDeltaFlag == src.alfLumaCoeffDeltaFlag && filterShapes == src.filterShapes
    {
      assert src.enabledFlag in src.Repr;
      numAlternativesChroma := src.numAlternativesChroma;
      numLumaFilters := src.numLumaFilters;
      alfLumaCoeffDeltaFlag := src.alfLumaCoeffDeltaFlag;
      filterShapes := src.filterShapes;
    }

    /** The memcpy of the four flag arrays. */
    method CopyFlags(src: AlfParam)
      requires Valid() && src.Valid() && Repr !! src.Repr
      modifies enabledFlag, nonLinearFlag, alfLumaCoeffFlag, newFilterFlag
      ensures enabledFlag[..] == src.enabledFlag[..] == old(src.enabledFlag[..])
      ensures nonLinearFlag[..] == src.nonLinearFlag[..] == old(src.nonLinearFlag[..])
      ensures alfLumaCoeffFlag[..] == src.alfLumaCoeffFlag[..] == old(src.alfLumaCoeffFlag[..])
      ensures newFilterFlag[..] == src.newFilterFlag[..] == old(src.newFilterFlag[..])
      ensures unchanged(src.Repr)
    {
      CopyInto(enabledFlag, src.enabledFlag);
      CopyInto(nonLinearFlag, src.nonLinearFlag);
      CopyInto(alfLumaCoeffFlag, src.alfLumaCoeffFlag);
      CopyInto(newFilterFlag, src.newFilterFlag);
    }

    /** The memcpy of the five coefficient, clipping and index arrays. */
    method CopyCoefficients(src: AlfParam)
      requires Valid() && src.Valid() && Repr !! src.Repr
      modifies lumaCoeff, lumaClipp, chromaCoeff, chromaClipp, filterCoeffDeltaIdx
      ensures lumaCoeff[..] == src.lumaCoeff[..] == old(src.lumaCoeff[..])
      ensures lumaClipp[..] == src.lumaClipp[..] == old(src.lumaClipp[..])
      ensures chromaCoeff[..] == src.chromaCoeff[..] == old(src.chromaCoeff[..])
      ensures chromaClipp[..] == src.chromaClipp[..] == old(src.chromaClipp[..])
      ensures filterCoeffDeltaIdx[..] == src.filterCoeffDeltaIdx[..] == old(src.filterCoeffDeltaIdx[..])
      ensures unchanged(src.Repr)
    {
      CopyInto(lumaCoeff, src.lumaCoeff);
      CopyInto(lumaClipp, src.lumaClipp);
      CopyInto(chromaCoeff, src.chromaCoeff);
      CopyInto(chromaClipp, src.chromaClipp);
      CopyInto(filterCoeffDeltaIdx, src.filterCoeffDeltaIdx);
    }

    /** operator==: field-wise comparison of everything except filterShapes. */
    predicate Equals(other: AlfParam)
      reads this, Repr, other, other.Repr
      requires Valid() && other.Valid()
      ensures Equals(other) <==> Contents() == other.Contents()
    {
      enabledFlag[..] == other.enabledFlag[..] && nonLinearFlag[..] == other.nonLinearFlag[..] &&
      lumaCoeff[..] == other.lumaCoeff[..] && lumaClipp[..] == other.lumaClipp[..] &&
      chromaCoeff[..] == other.chromaCoeff[..] && chromaClipp[..] == other.chromaClipp[..] &&
      filterCoeffDeltaIdx[..] == other.filterCoeffDeltaIdx[..] && alfLumaCoeffFlag[..] == other.alfLumaCoeffFlag[..] &&
      newFilterFlag[..] == other.newFilterFlag[..] && numAlternativesChroma == other.numAlternativesChroma &&
      numLumaFilters == other.numLumaFilters && alfLumaCoeffDeltaFlag == other.alfLumaCoeffDeltaFlag
    }

    /** operator!= */
    predicate NotEquals(other: AlfParam)
      reads this, Repr, other, other.Repr
      requires Valid() && other.Valid()
      ensures NotEquals(other) <==> !Equals(other)
    {
      !Equals(other)
    }
  }

  /** operator== is an equivalence, and two freshly reset parameter sets compare equal whatever their filterShapes. */
  lemma EqualsIsEquivalence(a: AlfParam, b: AlfParam, c: AlfParam)
    requires a.Valid() && b.Valid() && c.Valid()
    ensures a.Equals(a)
    ensures a.Equals(b) ==> b.Equals(a)
    ensures a.Equals(b) && b.Equals(c) ==> a.Equals(c)
    ensures a.Contents() == ResetContents() && b.Contents() == ResetContents() ==> a.Equals(b)
  {
  }

  // ---------------------------------------------------------------------
  // CcAlfFilterParam
  // ---------------------------------------------------------------------

  datatype CcAlfContents = CcAlfContents(
    ccAlfFilterEnabled: seq<bool>, ccAlfFilterIdxEnabled: seq<bool>, ccAlfFilterCount: seq<int>,
    ccAlfCoeff: seq<int>, newCcAlfFilter: seq<int>, numberValidComponents: int)

  function CcResetContents(): (c: CcAlfContents)
    ensures |c.ccAlfFilterIdxEnabled| == 2 * MaxNumCcAlfFilters
    ensures |c.ccAlfCoeff| == 2 * MaxNumCcAlfFilters * MaxNumCcAlfChromaCoeff
  {
    CcAlfContents(seq(2, _ => false), seq(2 * MaxNumCcAlfFilters, _ => false), seq(2, _ => MaxNumCcAlfFilters),
                  seq(2 * MaxNumCcAlfFilters * MaxNumCcAlfChromaCoeff, _ => 0), seq(2, _ => 0), 3)
  }

  /** What CcAlfFilterParam::reset promises: all filters off and zero, both counts at the maximum, three components. */
  lemma CcResetContentsState()
    ensures var c := CcResetContents();
            (forall i :: 0 <= i < |c.ccAlfFilterEnabled| ==> !c.ccAlfFilterEnabled[i]) &&
            (forall i :: 0 <= i < |c.ccAlfFilterIdxEnabled| ==> !c.ccAlfFilterIdxEnabled[i]) &&
            (forall i :: 0 <= i < |c.ccAlfCoeff| ==> c.ccAlfCoeff[i] == 0) &&
            c.ccAlfFilterCount == [MaxNumCcAlfFilters, MaxNumCcAlfFilters] &&
            c.newCcAlfFilter == [0, 0] && c.numberValidComponents == 3
  {
  }

  class CcAlfFilterParam {
    const ccAlfFilterEnabled: array<bool>
    const ccAlfFilterIdxEnabled: array<bool>
    const ccAlfFilterCount: array<int>
    const ccAlfCoeff: array<int>
    const newCcAlfFilter: array<int>
    var numberValidComponents: int
    ghost const Repr: set<object>

    ghost predicate Valid()
      reads this
    {
      Repr == {ccAlfFilterEnabled as object, ccAlfFilterIdxEnabled, ccAlfFilterCount, ccAlfCoeff, newCcAlfFilter} &&
      ccAlfFilterEnabled.Length == 2 && ccAlfFilterIdxEnabled.Length == 2 * MaxNumCcAlfFilters &&
      ccAlfFilterCount.Length == 2 && ccAlfCoeff.Length == 2 * MaxNumCcAlfFilters * MaxNumCcAlfChromaCoeff &&
      newCcAlfFilter.Length == 2 &&
      ccAlfFilterEnabled != ccAlfFilterIdxEnabled &&
      ccAlfFilterCount != ccAlfCoeff && ccAlfFilterCount != newCcAlfFilter && ccAlfCoeff != newCcAlfFilter
    }

    ghost function Contents(): CcAlfContents
      reads this, Repr
      requires Valid()
    {
      CcAlfContents(ccAlfFilterEnabled[..], ccAlfFilterIdxEnabled[..], ccAlfFilterCount[..], ccAlfCoeff[..],
                    newCcAlfFilter[..], numberValidComponents)
    }

    constructor ()
      ensures Valid() && fresh(Repr) && Contents() == CcResetContents()
    {
      var fe := new bool[2];
      var fi := new bool[2 * MaxNumCcAlfFilters];
      var fc := new int[2];
      var co := new int[2 * MaxNumCcAlfFilters * MaxNumCcAlfChromaCoeff];
      var nf := new int[2];
      ccAlfFilterEnabled, ccAlfFilterIdxEnabled, ccAlfFilterCount, ccAlfCoeff, newCcAlfFilter := fe, fi, fc, co, nf;
      Repr := {fe as object, fi, fc, co, nf};
      new;
      Reset();
    }

    /** reset() */
    method Reset()
      requires Valid()
      modifies Repr, this
      ensures Valid() && Contents() == CcResetContents()
    {
      Fill(ccAlfFilterEnabled, false);
      Fill(ccAlfFilterIdxEnabled, false);
      Fill(ccAlfCoeff, 0);
      ccAlfFilterCount[0] := MaxNumCcAlfFilters;
      ccAlfFilterCount[1] := MaxNumCcAlfFilters;
      numberValidComponents := 3;
      newCcAlfFilter[0] := 0;
      newCcAlfFilter[1] := 0;
      assert ccAlfFilterEnabled[..] == seq(2, _ => false);
      assert ccAlfFilterIdxEnabled[..] == seq(2 * MaxNumCcAlfFilters, _ => false);
      assert ccAlfCoeff[..] == seq(2 * MaxNumCcAlfFilters * MaxNumCcAlfChromaCoeff, _ => 0);
      assert ccAlfFilterCount[..] == seq(2, _ => MaxNumCcAlfFilters);
      assert newCcAlfFilter[..] == seq(2, _ => 0);
    }

    /** operator= */
    method Assign(src: CcAlfFilterParam)
      requires Valid() && src.Valid() && Repr !! src.Repr
      modifies Repr, this
      ensures Valid() && Contents() == old(src.Contents())
    {
      CopyInto(ccAlfFilterEnabled, src.ccAlfFilterEnabled);
      CopyInto(ccAlfFilterIdxEnabled, src.ccAlfFilterIdxEnabled);
      CopyInto(ccAlfCoeff, src.ccAlfCoeff);
      ccAlfFilterCount[0] := src.ccAlfFilterCount[0];
      ccAlfFilterCount[1] := src.ccAlfFilterCount[1];
      numberValidComponents := src.numberValidComponents;
      newCcAlfFilter[0] := src.newCcAlfFilter[0];
      newCcAlfFilter[1] := src.newCcAlfFilter[1];
      assert ccAlfFilterCount[..] == src.ccAlfFilterCount[..];
      assert newCcAlfFilter[..] == src.newCcAlfFilter[..];
    }
  }
}
