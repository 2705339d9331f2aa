/**
 * The rate-distortion bookkeeping of RdCost.cpp: the lambda store and
 * its forward/backward pairing for the colour-space adjustment, the RD
 * cost with its lossless sentinel, the chroma weighting of a partial
 * distortion, and the row-subsampling table of setDistParam.
 *
 * Lambda values are doubles in the source and `real` here; the
 * floating-point results of pow and sqrt are parameters.
 */
module RdCostEngine {
  import opened Common
  import opened Distortion

  /** The cost modes of the encoder (COST_*). */
  datatype CostMode = CostStandardLossy | CostSequenceLevelLossless | CostLosslessCoding | CostMixedLosslessLossyCoding

  /** An RD cost: MAX_DOUBLE is the sentinel that rules a candidate out. */
  datatype Cost = MaxCost | Finite(value: real)

  /** The lambda-related fields that lambdaAdjustColorTrans reads and writes. */
  datatype LambdaState = LambdaState(
    lambda: real,
    distScale: real,
    distScaleUnadjusted: real,
    resetStore: bool,
    pairCheck: nat,
    lambdaStore: seq<seq<real>>,       // [pairCheck][component]
    distScaleStore: seq<seq<real>>)

  /**
   * The fixed inputs of the adjustment: double(1 << SCALE_BITS), the rate
   * pow(2, DELTA_QP_ACT[c] / 3) of each component, and double(1 << CSCALE_FP_PREC).
   */
  datatype Scales = Scales(scale: real, adjustRate: seq<real>, chromaOne: real)

  predicate ScalesValid(k: Scales)
  {
    k.scale > 0.0 && k.chromaOne > 0.0 && |k.adjustRate| == 3 &&
    forall c :: 0 <= c < 3 ==> k.adjustRate[c] > 0.0
  }

  predicate StoreShaped(st: seq<seq<real>>)
  {
    |st| == 2 && |st[0]| == 3 && |st[1]| == 3
  }

  /** lambda stays positive, and a filled store holds positive lambdas. */
  predicate LambdaValid(s: LambdaState)
  {
    StoreShaped(s.lambdaStore) && StoreShaped(s.distScaleStore) && s.pairCheck <= 1 && s.lambda > 0.0 &&
    (!s.resetStore ==> forall k, c :: 0 <= k < 2 && 0 <= c < 3 ==> s.lambdaStore[k][c] > 0.0)
  }

  /** The store filled from the current lambda: row 0 unadjusted, row 1 adjusted per component. */
  function RefreshedStores(s: LambdaState, k: Scales): (r: LambdaState)
    requires ScalesValid(k) && LambdaValid(s)
    ensures LambdaValid(r) && !r.resetStore
    ensures r.lambda == s.lambda && r.distScale == s.distScale && r.pairCheck == s.pairCheck
    ensures forall c :: 0 <= c < 3 ==> r.lambdaStore[0][c] == s.lambda && r.distScaleStore[0][c] == s.distScale
    ensures forall c :: 0 <= c < 3 ==> r.lambdaStore[1][c] == s.lambda * k.adjustRate[c] &&
                                       r.distScaleStore[1][c] == k.scale / r.lambdaStore[1][c]
  {
    var adjusted := seq(3, c requires 0 <= c < 3 => s.lambda * k.adjustRate[c]);
    assert forall c :: 0 <= c < 3 ==> adjusted[c] > 0.0 by {
      forall c | 0 <= c < 3
        ensures adjusted[c] > 0.0
      {
        PositiveProduct(s.lambda, k.adjustRate[c]);
      }
    }
    s.(resetStore := false,
       lambdaStore := [seq(3, c => s.lambda), adjusted],
       distScaleStore := [seq(3, c => s.distScale), seq(3, c requires 0 <= c < 3 => k.scale / adjusted[c])])
  }

  lemma PositiveProduct(a: real, b: real)
    requires a > 0.0 && b > 0.0
    ensures a * b > 0.0
  {
  }

  /** The outcome of lambdaAdjustColorTrans: whether a CHECK fired, and the state it leaves. */
  datatype Adjustment = Adjustment(failed: bool, state: LambdaState)

  /** lambdaAdjustColorTrans, as a function of the state before the call. */
  function AdjustSpec(s: LambdaState, k: Scales, forward: bool, comp: ComponentId,
                      applyChromaScale: bool, resScaleInv: int): (a: Adjustment)
    requires ScalesValid(k) && LambdaValid(s)
    requires applyChromaScale ==> resScaleInv != 0
    ensures LambdaValid(a.state)
  {
    var s1 := if s.resetStore then RefreshedStores(s, k) else s;
    SwitchSpec(s1, k, forward, comp, applyChromaScale, resScaleInv)
  }

  /** lambdaAdjustColorTrans once the store is filled: the pairing check, the switch and the chroma scaling. */
  function SwitchSpec(s1: LambdaState, k: Scales, forward: bool, comp: ComponentId,
                      applyChromaScale: bool, resScaleInv: int): (a: Adjustment)
    requires ScalesValid(k) && LambdaValid(s1) && !s1.resetStore
    requires applyChromaScale ==> resScaleInv != 0
    ensures LambdaValid(a.state)
  {
    if forward == (s1.pairCheck == 1) then Adjustment(true, s1)
    else
      var pc := if forward then 1 else 0;
      var c := ComponentIndex(comp);
      var s2 := s1.(pairCheck := pc, lambda := s1.lambdaStore[pc][c], distScale := s1.distScaleStore[pc][c]);
      if applyChromaScale && (pc == 0 || comp == CompY) then Adjustment(true, s2)
      else
        var s3 := if applyChromaScale then ChromaScaled(s2, k, resScaleInv) else s2;
        Adjustment(pc == 0 && s3.distScale != s3.distScaleUnadjusted, s3)
  }

  /** lambda divided by the square of the chroma residual scale, distScale recomputed. */
  function ChromaScaled(s: LambdaState, k: Scales, resScaleInv: int): (r: LambdaState)
    requires ScalesValid(k) && LambdaValid(s) && resScaleInv != 0
    ensures LambdaValid(r) && r.distScale == k.scale / r.lambda
    ensures r.lambda == s.lambda / ((k.chromaOne / (resScaleInv as real)) * (k.chromaOne / (resScaleInv as real)))
    ensures r == s.(lambda := r.lambda, distScale := r.distScale)
  {
    var cResScale := k.chromaOne / (resScaleInv as real);
    assert cResScale != 0.0;
    var sq := cResScale * cResScale;
    assert sq > 0.0 by {
      if cResScale > 0.0 {
        PositiveProduct(cResScale, cResScale);
      } else {
        PositiveProduct(-cResScale, -cResScale);
      }
    }
    var lambda := s.lambda / sq;
    s.(lambda := lambda, distScale := k.scale / lambda)
  }

  // ----- properties of the pairing -----

  /**
   * A CHECK fires exactly when the call repeats the previous direction,
   * when chroma scaling is asked for on a backward call or for luma, or
   * when a backward call does not land on the unadjusted distScale.
   */
  lemma AdjustFailsExactly(s: LambdaState, k: Scales, forward: bool, comp: ComponentId, cs: bool, inv: int)
    requires ScalesValid(k) && LambdaValid(s) && (cs ==> inv != 0)
    ensures AdjustSpec(s, k, forward, comp, cs, inv).failed <==>
      (forward && s.pairCheck == 1) || (!forward && s.pairCheck == 0) ||
      (cs && (!forward || comp == CompY)) ||
      (!forward && (if s.resetStore then s.distScale else s.distScaleStore[0][ComponentIndex(comp)]) != s.distScaleUnadjusted)
  {
  }

  /**
   * A call that passes its CHECKs toggles the pairing flag and, without
   * chroma scaling, loads lambda and distScale from that row of the store.
   */
  lemma AdjustTogglesPair(s: LambdaState, k: Scales, forward: bool, comp: ComponentId, cs: bool, inv: int)
    requires ScalesValid(k) && LambdaValid(s) && (cs ==> inv != 0)
    requires !AdjustSpec(s, k, forward, comp, cs, inv).failed
    ensures var t := AdjustSpec(s, k, forward, comp, cs, inv).state;
      t.pairCheck == 1 - s.pairCheck && t.pairCheck == (if forward then 1 else 0) &&
      !t.resetStore &&
      (!cs ==> t.lambda == t.lambdaStore[t.pairCheck][ComponentIndex(comp)] &&
               t.distScale == t.distScaleStore[t.pairCheck][ComponentIndex(comp)])
  {
  }

  /** After a successful forward call a second forward call fails, and so does a backward call first. */
  lemma PairingAlternates(s: LambdaState, k: Scales, comp: ComponentId, comp2: ComponentId, cs: bool, inv: int)
    requires ScalesValid(k) && LambdaValid(s) && (cs ==> inv != 0)
    requires !AdjustSpec(s, k, true, comp, cs, inv).failed
    ensures AdjustSpec(AdjustSpec(s, k, true, comp, cs, inv).state, k, true, comp2, false, 0).failed
    ensures s.pairCheck == 0 ==> AdjustSpec(s, k, false, comp2, false, 0).failed
  {
  }

  /**
   * The round trip of the colour-transform search: from a fresh store with
   * the unadjusted lambda saved, a forward call (chroma scaling allowed for
   * a chroma component) and a backward call both pass, and the backward
   * call restores the lambda and distScale that were current at the start.
   */
  lemma AdjustRoundTrip(s: LambdaState, k: Scales, comp: ComponentId, comp2: ComponentId, cs: bool, inv: int)
    requires ScalesValid(k) && LambdaValid(s) && (cs ==> inv != 0)
    requires s.resetStore && s.pairCheck == 0 && s.distScale == s.distScaleUnadjusted
    requires cs ==> comp != CompY
    ensures var a := AdjustSpec(s, k, true, comp, cs, inv);
            var b := AdjustSpec(a.state, k, false, comp2, false, 0);
            !a.failed && !b.failed && b.state.lambda == s.lambda && b.state.distScale == s.distScale &&
            b.state.pairCheck == 0
  {
    var a := AdjustSpec(s, k, true, comp, cs, inv);
    assert a.state.distScaleStore == RefreshedStores(s, k).distScaleStore;
    assert a.state.lambdaStore == RefreshedStores(s, k).lambdaStore;
    assert a.state.distScaleUnadjusted == s.distScaleUnadjusted;
  }

  // ----- the rate-distortion cost -----

  /** calcRdCost, and its weighted-distortion form with the unadjusted scale. */
  function RdCostOf(mode: CostMode, lossless: bool, distScale: real, fracBits: nat, distortion: nat): (r: Cost)
    ensures r.MaxCost? <==> mode == CostLosslessCoding && distortion != 0 && lossless
    ensures r.Finite? ==> r.value == distScale * (distortion as real) + (fracBits as real)
  {
    if mode == CostLosslessCoding && distortion != 0 && lossless then MaxCost
    else Finite(distScale * (distortion as real) + (fracBits as real))
  }

  /** A lossless candidate with no distortion costs exactly its bits, whatever lambda is. */
  lemma ZeroDistortionCostsBits(mode: CostMode, lossless: bool, distScale: real, fracBits: nat)
    ensures RdCostOf(mode, lossless, distScale, fracBits, 0) == Finite(fracBits as real)
  {
  }

  /** With a non-negative scale, more distortion or more bits never lowers a finite cost. */
  lemma RdCostMonotone(mode: CostMode, lossless: bool, distScale: real, b1: nat, b2: nat, d1: nat, d2: nat)
    requires distScale >= 0.0 && b1 <= b2 && d1 <= d2
    requires RdCostOf(mode, lossless, distScale, b2, d2).Finite?
    ensures RdCostOf(mode, lossless, distScale, b1, d1).Finite?
    ensures RdCostOf(mode, lossless, distScale, b1, d1).value <= RdCostOf(mode, lossless, distScale, b2, d2).value
  {
    assert distScale * (d1 as real) <= distScale * (d2 as real) by {
      MulMonotoneReal(distScale, d1 as real, d2 as real);
    }
  }

  lemma MulMonotoneReal(a: real, x: real, y: real)
    requires a >= 0.0 && x <= y
    ensures a * x <= a * y
  {
    assert a * y - a * x == a * (y - x);
  }

  /** The chroma weighting of getDistPart: the product with the weight, truncated. */
  function WeightedDist(weight: real, raw: nat): (r: nat)
    requires weight >= 0.0
    ensures (r as real) <= weight * (raw as real) < (r as real) + 1.0
  {
    var x := weight * (raw as real);
    assert x >= 0.0 by {
      MulMonotoneReal(weight, 0.0, raw as real);
    }
    x.Floor
  }

  lemma WeightedDistUnit(raw: nat)
    ensures WeightedDist(1.0, raw) == raw
  {
  }

  lemma WeightedDistMonotone(weight: real, a: nat, b: nat)
    requires weight >= 0.0 && a <= b
    ensures WeightedDist(weight, a) <= WeightedDist(weight, b)
  {
    MulMonotoneReal(weight, a as real, b as real);
  }

  // ----- setDistParam -----

  /** The row-subsampling table of setDistParam (subShiftMode 1, 2, 3; any other mode samples every row). */
  function SubShift(subShiftMode: int, height: nat, width: nat): (s: nat)
    ensures s <= 4
  {
    if subShiftMode == 1 then
      if height > 32 && height % 16 == 0 then 4
      else if height > 16 && height % 8 == 0 then 3
      else if height > 8 && height % 4 == 0 then 2
      else if height % 2 == 0 then 1
      else 0
    else if subShiftMode == 2 then
      if height > 8 && width <= 64 then 1 else 0
    else if subShiftMode == 3 then
      if height > 8 then 1 else 0
    else 0
  }

  /** Mode 1 picks the largest listed step dividing the height, within its height threshold. */
  lemma SubShiftMode1(height: nat, width: nat)
    ensures var s := SubShift(1, height, width);
      (s == 4 <==> height > 32 && height % 16 == 0) &&
      (s == 3 <==> !(height > 32 && height % 16 == 0) && height > 16 && height % 8 == 0) &&
      (s == 2 <==> !(height > 32 && height % 16 == 0) && !(height > 16 && height % 8 == 0) &&
                   height > 8 && height % 4 == 0) &&
      (s == 0 <==> height % 2 != 0) &&
      height % Pow2(s) == 0
  {
    MultipleOfPowerIsEven(height);
  }

  /** Modes 2 and 3 halve the rows of tall blocks (mode 2 only up to width 64); other modes never subsample. */
  lemma SubShiftModes2And3(subShiftMode: int, height: nat, width: nat)
    ensures subShiftMode == 2 ==> (SubShift(2, height, width) == 1 <==> height > 8 && width <= 64)
    ensures subShiftMode == 3 ==> (SubShift(3, height, width) == 1 <==> height > 8)
    ensures subShiftMode == 2 || subShiftMode == 3 ==> SubShift(subShiftMode, height, width) <= 1
    ensures subShiftMode !in {1, 2, 3} ==> SubShift(subShiftMode, height, width) == 0
  {
  }

  /**
   * The row step divides the height (so the kernels' row loops stop) in
   * mode 1 always, and in the other modes whenever the height is even.
   */
  lemma SubShiftDividesHeight(subShiftMode: int, height: nat, width: nat)
    requires subShiftMode == 1 || height % 2 == 0
    ensures height % Pow2(SubShift(subShiftMode, height, width)) == 0
  {
    if subShiftMode == 1 {
      SubShiftMode1(height, width);
    }
  }

  /**
   * setDistParam for a block against a reference: the fields it writes;
   * every other field (applyWeight among them) keeps its previous value.
   * The distortion-function selection by width is not part of this model.
   */
  function SetDistParam(prev: DistParam, org: seq<seq<int>>, cur: seq<seq<int>>, width: nat, height: nat,
                        precShift: nat, compID: ComponentId, subShiftMode: int, step: int): (p: DistParam)
    ensures p.maxDist == MaxDistortion && p.applyWeight == prev.applyWeight
    ensures p.subShift == SubShift(subShiftMode, height, width)
  {
    prev.(org := org, cur := cur, width := width, height := height, precShift := precShift, compID := compID,
          step := step, maxDist := MaxDistortion, subShift := SubShift(subShiftMode, height, width))
  }

  /** setDistParam for two buffers: unit step, no subsampling. */
  function SetDistParamBlocks(prev: DistParam, org: seq<seq<int>>, cur: seq<seq<int>>, width: nat, height: nat,
                              precShift: nat, compID: ComponentId): (p: DistParam)
    ensures p.maxDist == MaxDistortion && p.subShift == 0 && p.step == 1 && p.applyWeight == prev.applyWeight
  {
    prev.(org := org, cur := cur, width := width, height := height, precShift := precShift, compID := compID,
          step := 1, subShift := 0, maxDist := MaxDistortion)
  }

  /**
   * setDistParam for decoder-side refinement: subShiftMode is stored as
   * the shift itself, and the call fails its CHECK when Hadamard or
   * mean removal is asked for.
   */
  function SetDistParamDmvr(prev: DistParam, org: seq<seq<int>>, cur: seq<seq<int>>, width: nat, height: nat,
                            precShift: nat, compID: ComponentId, subShiftMode: nat, step: int,
                            useHadamard: bool, useMR: bool): (r: Result<DistParam>)
    ensures r.CheckFailed? <==> useHadamard || useMR
    ensures r.Ok? ==> r.value.subShift == subShiftMode && r.value.maxDist == MaxDistortion
  {
    if useHadamard || useMR then CheckFailed("only used in xDmvrCost with these default parameters (so far...)")
    else Ok(prev.(org := org, cur := cur, width := width, height := height, precShift := precShift,
                  compID := compID, step := step, maxDist := MaxDistortion, subShift := subShiftMode))
  }

  /**
   * After setDistParam the SAD kernels sample a height they divide, and
   * the default early-exit bound never fires: the generic SAD returns the
   * full subsampled sum whenever that sum fits in Distortion.
   */
  lemma SetDistParamFullSad(prev: DistParam, org: seq<seq<int>>, cur: seq<seq<int>>, width: nat, height: nat,
                            precShift: nat, compID: ComponentId, subShiftMode: int, step: int)
    requires subShiftMode == 1 || height % 2 == 0
    requires |org| == height && |cur| == height
    requires forall i :: 0 <= i < height ==> |org[i]| == width && |cur[i]| == width
    ensures var p := SetDistParam(prev, org, cur, width, height, precShift, compID, subShiftMode, step);
      Wellformed(p) &&
      (Sum(SampledCosts(p, SadTerm)) <= MaxDistortion ==>
        EarlyExitResult(SampledCosts(p, SadTerm), p.subShift, p.precShift, p.maxDist) == SadSpec(p))
  {
    var p := SetDistParam(prev, org, cur, width, height, precShift, compID, subShiftMode, step);
    SubShiftDividesHeight(subShiftMode, height, width);
    if Sum(SampledCosts(p, SadTerm)) <= MaxDistortion {
      SadDefaultBoundNoExit(p);
    }
  }

  // ----- the engine state -----

  class RdCost {
    const scales: Scales
    var lambda: real
    var distScale: real
    var lambdaUnadjusted: real
    var distScaleUnadjusted: real
    var resetStore: bool
    var pairCheck: nat
    var lambdaStore: seq<seq<real>>
    var distScaleStore: seq<seq<real>>
    var costMode: CostMode
    var isLosslessRDCost: bool
    var distortionWeight: seq<real>  // per component; luma's entry is unused

    function State(): LambdaState
      reads this
    {
      LambdaState(lambda, distScale, distScaleUnadjusted, resetStore, pairCheck, lambdaStore, distScaleStore)
    }

    ghost predicate Valid()
      reads this
    {
      ScalesValid(scales) && LambdaValid(State()) &&
      |distortionWeight| == 3 && (forall c :: 0 <= c < 3 ==> distortionWeight[c] >= 0.0)
    }

    /**
     * init() followed by a first setLambda: the cost mode is lossy, the
     * store is to be refilled and the pairing flag is clear. The chroma
     * weights and the lossless flag are set through RdCost.h, which is not
     * part of this model, and are parameters.
     */
    constructor (k: Scales, initialLambda: real, weights: seq<real>, lossless: bool)
      requires ScalesValid(k) && initialLambda > 0.0
      requires |weights| == 3 && forall c :: 0 <= c < 3 ==> weights[c] >= 0.0
      ensures Valid()
      ensures costMode == CostStandardLossy && resetStore && pairCheck == 0
      ensures lambda == initialLambda && distScale == k.scale / initialLambda
      ensures distortionWeight == weights && isLosslessRDCost == lossless
    {
      scales := k;
      lambda := initialLambda;
      distScale := k.scale / initialLambda;
      lambdaUnadjusted := initialLambda;
      distScaleUnadjusted := k.scale / initialLambda;
      resetStore := true;
      pairCheck := 0;
      lambdaStore := [[0.0, 0.0, 0.0], [0.0, 0.0, 0.0]];
      distScaleStore := [[0.0, 0.0, 0.0], [0.0, 0.0, 0.0]];
      costMode := CostStandardLossy;
      isLosslessRDCost := lossless;
      distortionWeight := weights;
    }

    /** setLambda: distScale becomes 2^SCALE_BITS / lambda (the square root for motion SAD is not modelled). */
    method SetLambda(l: real)
      requires Valid() && l > 0.0
      modifies this
      ensures Valid()
      ensures lambda == l && distScale == scales.scale / l
      ensures State() == old(State()).(lambda := l, distScale := scales.scale / l)
      ensures costMode == old(costMode) && isLosslessRDCost == old(isLosslessRDCost)
      ensures distortionWeight == old(distortionWeight) && lambdaUnadjusted == old(lambdaUnadjusted)
    {
      lambda := l;
      distScale := scales.scale / l;
    }

    /** saveUnadjustedLambda */
    method SaveUnadjustedLambda()
      requires Valid()
      modifies this
      ensures Valid()
      ensures State() == old(State()).(distScaleUnadjusted := old(distScale))
      ensures lambdaUnadjusted == old(lambda)
      ensures costMode == old(costMode) && isLosslessRDCost == old(isLosslessRDCost)
      ensures distortionWeight == old(distortionWeight)
    {
      lambdaUnadjusted := lambda;
      distScaleUnadjusted := distScale;
    }

    /** The refill of both rows of the store at the start of lambdaAdjustColorTrans. */
    method RefreshStore()
      requires Valid() && resetStore
      modifies this
      ensures Valid()
      ensures State() == RefreshedStores(old(State()), scales)
      ensures costMode == old(costMode) && isLosslessRDCost == old(isLosslessRDCost)
      ensures distortionWeight == old(distortionWeight) && lambdaUnadjusted == old(lambdaUnadjusted)
    {
      ghost var target := RefreshedStores(State(), scales);
      for c := 0 to 3
        invariant StoreShaped(lambdaStore) && StoreShaped(distScaleStore)
        invariant forall j :: 0 <= j < c ==>
          (lambdaStore[0][j] == target.lambdaStore[0][j] && lambdaStore[1][j] == target.lambdaStore[1][j] &&
           distScaleStore[0][j] == target.distScaleStore[0][j] && distScaleStore[1][j] == target.distScaleStore[1][j])
        invariant lambda == old(lambda) && distScale == old(distScale) && pairCheck == old(pairCheck)
        invariant resetStore && distScaleUnadjusted == old(distScaleUnadjusted)
        invariant costMode == old(costMode) && isLosslessRDCost == old(isLosslessRDCost)
        invariant distortionWeight == old(distortionWeight) && lambdaUnadjusted == old(lambdaUnadjusted)
      {
        var adjusted := lambda * scales.adjustRate[c];
        lambdaStore := [lambdaStore[0][c := lambda], lambdaStore[1][c := adjusted]];
        distScaleStore := [distScaleStore[0][c := distScale], distScaleStore[1][c := scales.scale / adjusted]];
      }
      resetStore := false;
      assert lambdaStore[0] == target.lambdaStore[0] && lambdaStore[1] == target.lambdaStore[1];
      assert distScaleStore[0] == target.distScaleStore[0] && distScaleStore[1] == target.distScaleStore[1];
    }

    /** The chroma residual scaling step of lambdaAdjustColorTrans. */
    method ScaleForChroma(resScaleInv: int)
      requires Valid() && resScaleInv != 0
      modifies this`lambda, this`distScale
      ensures Valid()
      ensures State() == ChromaScaled(old(State()), scales, resScaleInv)
    {
      var cResScale := scales.chromaOne / (resScaleInv as real);
      lambda := lambda / (cResScale * cResScale);
      distScale := scales.scale / lambda;
    }

    /** lambdaAdjustColorTrans; CheckFailed is a CHECK that throws, leaving the state reached so far. */
    method LambdaAdjustColorTrans(forward: bool, comp: ComponentId, applyChromaScale: bool, resScaleInv: int)
      returns (r: Result<()>)
      requires Valid() && (applyChromaScale ==> resScaleInv != 0)
      modifies this
      ensures Valid()
      ensures var a := AdjustSpec(old(State()), scales, forward, comp, applyChromaScale, resScaleInv);
              State() == a.state && (r.CheckFailed? <==> a.failed)
      ensures costMode == old(costMode) && isLosslessRDCost == old(isLosslessRDCost)
      ensures distortionWeight == old(distortionWeight) && lambdaUnadjusted == old(lambdaUnadjusted)
    {
      if resetStore {
        RefreshStore();
      }
      r := SwitchLambda(forward, comp, applyChromaScale, resScaleInv);
    }

    /** The part of lambdaAdjustColorTrans after the store is filled. */
    method SwitchLambda(forward: bool, comp: ComponentId, applyChromaScale: bool, resScaleInv: int)
      returns (r: Result<()>)
      requires Valid() && !resetStore && (applyChromaScale ==> resScaleInv != 0)
      modifies this`pairCheck, this`lambda, this`distScale
      ensures Valid()
      ensures var a := SwitchSpec(old(State()), scales, forward, comp, applyChromaScale, resScaleInv);
              State() == a.state && (r.CheckFailed? <==> a.failed)
    {
      ghost var s1 := State();
      if forward {
        if pairCheck == 1 {
          return CheckFailed("lambda has been already adjusted");
        }
        pairCheck := 1;
      } else {
        if pairCheck == 0 {
          return CheckFailed("lambda has not been adjusted");
        }
        pairCheck := 0;
      }
      var c := ComponentIndex(comp);
      lambda := lambdaStore[pairCheck][c];
      distScale := distScaleStore[pairCheck][c];
      assert State() == s1.(pairCheck := pairCheck, lambda := s1.lambdaStore[pairCheck][c],
                            distScale := s1.distScaleStore[pairCheck][c]);
      if applyChromaScale {
        if pairCheck == 0 || comp == CompY {
          return CheckFailed("wrong lambda adjustment for CS");
        }
        ScaleForChroma(resScaleInv);
      }
      if pairCheck == 0 && distScale != distScaleUnadjusted {
        return CheckFailed("lambda should be adjusted to the original value");
      }
      r := Ok(());
    }

    /** calcRdCost */
    function CalcRdCost(fracBits: nat, distortion: nat, useUnadjustedLambda: bool): (r: Cost)
      reads this
      ensures r.MaxCost? <==> costMode == CostLosslessCoding && distortion != 0 && isLosslessRDCost
      ensures r.Finite? ==> r.value == (if useUnadjustedLambda then distScaleUnadjusted else distScale) *
                                       (distortion as real) + (fracBits as real)
    {
      RdCostOf(costMode, isLosslessRDCost, if useUnadjustedLambda then distScaleUnadjusted else distScale,
               fracBits, distortion)
    }

    /**
     * getDistPart, given the distortion `raw` the selected kernel returns:
     * chroma is scaled by its weight and truncated, luma is unscaled.
     */
    function GetDistPart(comp: ComponentId, raw: nat): (r: nat)
      reads this
      requires Valid()
      ensures IsLuma(comp) ==> r == raw
      ensures !IsLuma(comp) ==> (r as real) <= distortionWeight[ComponentIndex(comp)] * (raw as real) < (r as real) + 1.0
    {
      if IsLuma(comp) then raw else WeightedDist(distortionWeight[ComponentIndex(comp)], raw)
    }
  }
}
