# A verified model of the VTM rate-distortion, context and temporal-filter core

This project models, in Dafny, the integer core that the VVC reference encoder (VTM) uses to choose between coding options. It also proves properties of that model. It covers five source files:

- **Block distortion and RD cost** (`RdCost.cpp`):
  - the SAD, full-bit-depth SAD, mean-removed SAD and SSE kernels, each generic or unrolled to a fixed width;
  - the weighted SSE and the masked SAD;
  - the 2x2, 4x4 and 8x8 Hadamard (SATD) transforms and the `xGetHADs` tiling dispatcher;
  - the row-subsampling table of `setDistParam`;
  - the lambda store and its forward/backward pairing in `lambdaAdjustColorTrans`;
  - `calcRdCost` with its lossless sentinel, and the chroma weighting of the plain `getDistPart` overload (the one taking a `DFunc`).
- **CABAC context selection** (`ContextModelling.cpp`):
  - the coefficient-coding context of a transform block: its constructor and `initSubblock`;
  - the `DeriveCtx` selectors for split, QT-CBF, inter direction, skip, affine, prediction mode, mode constraint, IBC, MIP and palette copy flags.
- **Block geometry and SBT rules** (`Unit.cpp`):
  - component areas and their luma/chroma rescaling;
  - `UnitArea::contains` and `singleChan`;
  - the sub-block transform (SBT) checks and split mapping;
  - the `initData` defaults of coding and transform units;
  - the transform-block area after coefficient zero-out.
- **ALF parameter records** (`AlfParameters.h`):
  - the diamond filter shapes;
  - `AlfParam` and `CcAlfFilterParam` with their reset, assignment and comparison.
- **Temporal pre-filter** (`EncTemporalFilter.cpp`):
  - luma subsampling;
  - the 6-tap interpolation table and kernels;
  - the block-matching error with early exit;
  - the strict-improvement motion search of `motionEstimationLuma`;
  - block motion compensation (`applyMotion`);
  - the frame selection, reference window, CTU count and block-importance QP map of `init` and `filter`.

Modules, one per file:

| file | module | contents |
|---|---|---|
| common.dfy | `Common` | `Option`/`Result`; C integer operators (shifts, truncating division, `Clip3`) over unbounded integers; sums over sampled rows; the running-sum early exit shared by the distortion kernels |
| distortion.dfy | `Distortion` | `DistParam`, reference definitions of every distortion metric, and the kernels as loop methods proved equal to them |
| hadamard.dfy | `Hadamard` | the butterflies stage by stage, their algebraic properties, and `xGetHADs` |
| rdcost.dfy | `RdCostEngine` | the `RdCost` class and the functions that specify its lambda bookkeeping |
| context_modelling.dfy | `ContextModelling` | the `CoeffCodingContext` class and the `DeriveCtx` selectors |
| unit.dfy | `Unit` | `CompArea`/`UnitArea` values, and the `CodingUnit` and `TransformUnit` classes |
| alf_parameters.dfy | `AlfParameters` | `MakeAlfFilterShape`, and the `AlfParam` and `CcAlfFilterParam` classes over arrays |
| temporal_filter_kernels.dfy | `TemporalFilterKernels` | subsampling, interpolation, block error and motion compensation on `array2` planes |
| temporal_filter_search.dfy | `TemporalFilterSearch` | the candidate search of one block and the row-major grid of stored vectors |
| temporal_filter.dfy | `TemporalFilter` | the `EncTemporalFilter` class: `init` and the decisions of `filter` |

Representation:

- A pixel block handed to a distortion kernel is a sequence of rows. The source's pointer-and-stride walk becomes row indexing.
- A picture plane of the temporal filter is an `array2<int>`. Its padded border is a read clamped to the nearest sample.
- Integers are unbounded.
- Where the source calls code outside these files, or computes in floating point, the model takes the result as a parameter. These parameters are:
  - the weighted-prediction path of the distortion kernels (`weighted`);
  - the non-square Hadamard kernels (`rect`);
  - `getNonzeroTuSize` (`nonzero`);
  - the variance normalisation of a block's motion error (`normalise`);
  - the success of each frame read (`readOk`);
  - each CTU's averaged block-importance error (`weightedErr`).

Every operation is proved against a reference definition, an inverse or a preserved invariant:

- each unrolled kernel equals its generic definition;
- each loop method equals its specification function;
- the lambda adjustment round-trips;
- `operator==` is an equivalence that holds after `operator=`;
- the motion search keeps the earliest vector of least error among everything it visits.

## Model

| member | source | states |
|---|---|---|
| Common.FirstExitSpec | source/Lib/CommonLib/RdCost.cpp:468-479 | the early exit of a row loop fires at the first visited row whose shifted running sum exceeds the bound, and at no earlier row; when it never fires, no prefix sum exceeds the bound |
| Common.FirstExitAt | source/Lib/CommonLib/RdCost.cpp:468-479 | a row whose shifted running sum exceeds the bound, with no earlier such row, is exactly where the loop exits |
| Common.FirstExitNone | source/Lib/CommonLib/RdCost.cpp:468-479 | when no prefix of the visited rows exceeds the bound, the loop runs to the end |
| Common.EarlyExitAboveBound | source/Lib/CommonLib/RdCost.cpp:474-477 | a kernel that exits early returns a value strictly above maximumDistortionForEarlyExit |
| Common.NoEarlyExitUnderBound | source/Lib/CommonLib/RdCost.cpp:468-483 | a bound no smaller than the shifted total never fires, and the kernel returns the total scaled up by the row subsampling and shifted down |
| Distortion.RowCosts | source/Lib/CommonLib/RdCost.cpp:470-473 | one entry per row, each the sum of the per-sample term over that row |
| Distortion.StepCosts | source/Lib/CommonLib/RdCost.cpp:468-480 | a subsampling loop that counts rows down by the step visits height / step rows |
| Distortion.HeightCountPositive | source/Lib/CommonLib/RdCost.cpp:988 | a non-empty block has at least one visited row, so the MRSAD divisor cols * (rows >> subShift) is at least 1 |
| Distortion.RowLoop | source/Lib/CommonLib/RdCost.cpp:470-473 | the column loop returns the sum of the per-sample term over the row |
| Distortion.RowLoop16 | source/Lib/CommonLib/RdCost.cpp:638-678 | the 16-samples-per-step column loop of the 16N kernels returns the same row sum as the one-sample loop |
| Distortion.SampledSum | source/Lib/CommonLib/RdCost.cpp:486-516 | the row loop of the kernels without early exit returns the sum of the row sums over rows 0, step, 2*step, ... |
| Distortion.SampledSumEarlyExit | source/Lib/CommonLib/RdCost.cpp:466-483 | the row loop with early exit returns the shifted running sum at the first row that passes the bound, otherwise the total scaled up by 2^subShift and shifted down |
| Distortion.EarlyExitLoop | source/Lib/CommonLib/RdCost.cpp:468-480 | the visited rows in order: when the loop exits it is at the first row over the bound and the result is that prefix sum shifted down; otherwise no prefix passes and the full sum is kept |
| Distortion.Sad | source/Lib/CommonLib/RdCost.cpp:449-484 | xGetSAD delegates to the weighted-prediction kernel when applyWeight is set, and otherwise returns the early-exit SAD of the sampled rows |
| Distortion.SadFixed | source/Lib/CommonLib/RdCost.cpp:486-958 | xGetSAD4, 8, 12, 16, 24, 32, 48 and 64 delegate under applyWeight, and otherwise return the SAD of the sampled rows scaled up by 2^subShift and shifted by the precision adjustment |
| Distortion.Sad16N | source/Lib/CommonLib/RdCost.cpp:638-678 | xGetSAD16N returns the reference SAD for any multiple of 16 columns and never delegates |
| Distortion.SadFull | source/Lib/CommonLib/RdCost.cpp:421-447 | xGetSAD_full fails its check exactly when applyWeight is set, and otherwise returns the SAD scaled up by 2^subShift with no precision shift |
| Distortion.MrSadMean | source/Lib/CommonLib/RdCost.cpp:979-988 | the first pass of every MRSAD kernel returns the sum of org - cur over the visited samples divided, truncating toward zero, by their count |
| Distortion.MrSad | source/Lib/CommonLib/RdCost.cpp:967-1007 | xGetMRSAD returns the early-exit SAD of the sampled rows after removing the mean offset |
| Distortion.MrSadFixed | source/Lib/CommonLib/RdCost.cpp:1010-1733 | the fixed-width MRSAD kernels return the mean-removed SAD of the sampled rows, scaled up and shifted down |
| Distortion.MrSad16N | source/Lib/CommonLib/RdCost.cpp:1211-1277 | xGetMRSAD16N returns the same mean-removed SAD for any multiple of 16 columns |
| Distortion.Sse | source/Lib/CommonLib/RdCost.cpp:1739-1770 | xGetSSE delegates under applyWeight, and otherwise returns the sum over every row of (d * d) >> (2 * precision adjustment) |
| Distortion.SseFixed | source/Lib/CommonLib/RdCost.cpp:1772-2225 | the fixed-width SSE kernels fail their width check exactly when applyWeight is set and the width differs, delegate when it matches, and otherwise return the reference SSE |
| Distortion.Sse16N | source/Lib/CommonLib/RdCost.cpp:1915-1975 | xGetSSE16N delegates under applyWeight, and otherwise returns the reference SSE |
| Distortion.RowSumNonNegative | source/Lib/CommonLib/RdCost.cpp:470-473 | a row sum of a non-negative term is non-negative |
| Distortion.RowSumSameRow | source/Lib/CommonLib/RdCost.cpp:470-473 | a row compared with itself under a term that is zero on equal samples sums to zero |
| Distortion.RowSumSwap | source/Lib/CommonLib/RdCost.cpp:470-473 | a symmetric term gives the same row sum with the two rows swapped |
| Distortion.CostsNonNegative | source/Lib/CommonLib/RdCost.cpp:466-480 | every row cost and the total of a non-negative term are non-negative |
| Distortion.SampledCostsSameBlock | source/Lib/CommonLib/RdCost.cpp:466-480 | the sampled rows of a block compared with itself sum to zero |
| Distortion.IdenticalBlocksNoDistortion | source/Lib/CommonLib/RdCost.cpp:421-1770 | a block compared with itself has zero SAD, full SAD, MRSAD and SSE |
| Distortion.DistortionSymmetric | source/Lib/CommonLib/RdCost.cpp:421-1770 | SAD, full SAD and SSE are unchanged when org and cur are swapped |
| Distortion.SadCostsSymmetric | source/Lib/CommonLib/RdCost.cpp:466-480 | the sampled SAD sum is unchanged when org and cur are swapped |
| Distortion.SseCostsSymmetric | source/Lib/CommonLib/RdCost.cpp:1739-1770 | the SSE is unchanged when org and cur are swapped |
| Distortion.SadEarlyExitAgrees | source/Lib/CommonLib/RdCost.cpp:449-516 | unless the shifted running SAD passes the bound, the generic xGetSAD returns the same value as the unrolled kernels |
| Distortion.SadDefaultBoundNoExit | source/Lib/CommonLib/RdCost.cpp:225-292 | with the default bound setDistParam installs (the largest Distortion), the early exit never fires on a SAD that fits the 64-bit type |
| Distortion.RowSumShifted | source/Lib/CommonLib/RdCost.cpp:982-985 | when every cur sample is the org sample plus k, a term that is constant on such pairs sums to that constant times the width |
| Distortion.DeltaSumOfShift | source/Lib/CommonLib/RdCost.cpp:979-986 | for cur = org + k the first MRSAD pass sums to -k times the number of visited samples |
| Distortion.MrSadOffsetOfShift | source/Lib/CommonLib/RdCost.cpp:988 | for cur = org + k the MRSAD mean offset is exactly -k |
| Distortion.MrSadRemovesConstantOffset | source/Lib/CommonLib/RdCost.cpp:967-1007 | MRSAD removes a constant brightness offset: for cur = org + k the offset is -k and the distortion is zero |
| Distortion.MaskRowLoop | source/Lib/CommonLib/RdCost.cpp:3893-3897 | the masked column loop sums abs(org - cur) times the mask weight read at a position that moves by stepX per sample, and ends width * stepX further on |
| Distortion.SadMask | source/Lib/CommonLib/RdCost.cpp:3869-3905 | xGetSADwMask delegates under applyWeight, and otherwise returns the masked SAD of the sampled rows scaled up and shifted down |
| Distortion.MaskSum | source/Lib/CommonLib/RdCost.cpp:3891-3902 | the masked row loop over the visited rows sums each row's masked SAD, the mask position moving on by the row advance after each row |
| Distortion.MaskRowAllOnes | source/Lib/CommonLib/RdCost.cpp:3893-3897 | with all mask weights 1 a masked row is the plain SAD row |
| Distortion.MaskRowsAllOnes | source/Lib/CommonLib/RdCost.cpp:3891-3902 | with all mask weights 1 the masked rows sum to the plain SAD row sums |
| Distortion.MaskSadOnesIsSad | source/Lib/CommonLib/RdCost.cpp:3869-3905 | with a mask of all ones the masked SAD equals the plain SAD |
| Distortion.WtdRowStep | source/Lib/CommonLib/RdCost.cpp:3175-3185 | one step of the weighted column loop: getWeightedMSE at the luma sample of that column, and the luma column advances by 1 << cShiftX |
| Distortion.WtdRowLoop | source/Lib/CommonLib/RdCost.cpp:3182-3185 | the weighted column loop returns the weighted row sum |
| Distortion.WtdSixteen | source/Lib/CommonLib/RdCost.cpp:3397-3473 | sixteen unrolled weighted samples plus the rest of the row give the weighted row sum from their start |
| Distortion.WtdRowLoop16 | source/Lib/CommonLib/RdCost.cpp:3397-3473 | the 16-per-step weighted column loop returns the weighted row sum |
| Distortion.WtdRowsLoop | source/Lib/CommonLib/RdCost.cpp:3161-3192 | the weighted row loop, with the luma row advancing by 1 << cShiftY, returns the weighted SSE of the block |
| Distortion.SseWtd | source/Lib/CommonLib/RdCost.cpp:3161-3192 | xGetSSE_WTD delegates under applyWeight, and otherwise returns the luma-weighted SSE |
| Distortion.SseWtdFixed | source/Lib/CommonLib/RdCost.cpp:3194-3818 | the fixed-width weighted kernels fail their width check exactly when applyWeight is set and the width differs, delegate when it matches, and otherwise return the weighted SSE |
| Distortion.SseWtd16N | source/Lib/CommonLib/RdCost.cpp:3397-3473 | xGetSSE16N_WTD delegates under applyWeight, and otherwise returns the weighted SSE |
| Distortion.UnitWeightTerm | source/Lib/CommonLib/RdCost.cpp:3144-3159 | with the unit weight 2^MSE_WEIGHT_FRAC_BITS, getWeightedMSE of a square equals the plain shifted square |
| Distortion.UnitWeightRow | source/Lib/CommonLib/RdCost.cpp:3182-3185 | with every luma level mapped to the unit weight, a weighted row equals the plain SSE row |
| Distortion.UnitWeightRows | source/Lib/CommonLib/RdCost.cpp:3161-3192 | with the unit weight everywhere, the weighted rows sum to the plain SSE row sums |
| Distortion.UnitWeightSseWtdIsSse | source/Lib/CommonLib/RdCost.cpp:3161-3192 | with every luma level mapped to the unit weight, the weighted SSE equals the plain SSE: the rounding offset never carries into the result |
| Hadamard.Had2x2Coeffs | source/Lib/CommonLib/RdCost.cpp:2236-2243 | the 2x2 kernel produces four butterfly coefficients of the four differences |
| Hadamard.Had4Stage1 | source/Lib/CommonLib/RdCost.cpp:2276-2291 | the first vertical butterfly of xCalcHADs4x4 maps sixteen values to sixteen values |
| Hadamard.Had4Stage2 | source/Lib/CommonLib/RdCost.cpp:2293-2308 | the second vertical butterfly maps sixteen values to sixteen values |
| Hadamard.Had4Stage3 | source/Lib/CommonLib/RdCost.cpp:2310-2325 | the first horizontal butterfly maps sixteen values to sixteen values |
| Hadamard.Had4Stage4 | source/Lib/CommonLib/RdCost.cpp:2327-2342 | the second horizontal butterfly maps sixteen values to sixteen values |
| Hadamard.Had4x4Coeffs | source/Lib/CommonLib/RdCost.cpp:2264-2342 | the four stages give sixteen coefficients of the sixteen differences |
| Hadamard.Butterfly8 | source/Lib/CommonLib/RdCost.cpp:2380-2409 | the three-stage eight-point butterfly of xCalcHADs8x8 maps eight values to eight values |
| Hadamard.Had8Rows | source/Lib/CommonLib/RdCost.cpp:2380-2409 | the horizontal pass gives eight rows of eight coefficients |
| Hadamard.Had8x8Coeffs | source/Lib/CommonLib/RdCost.cpp:2412-2440 | the vertical pass gives an 8x8 coefficient array |
| Hadamard.Had2x2Zero | source/Lib/CommonLib/RdCost.cpp:2231-2255 | a zero 2x2 difference has zero SATD |
| Hadamard.Had4x4Zero | source/Lib/CommonLib/RdCost.cpp:2257-2356 | a zero 4x4 difference has zero SATD |
| Hadamard.Had8x8Zero | source/Lib/CommonLib/RdCost.cpp:2358-2457 | a zero 8x8 difference has zero SATD |
| Hadamard.HadZeroDifference | source/Lib/CommonLib/RdCost.cpp:2231-2457 | a zero difference gives zero SATD in every square kernel |
| Hadamard.Butterfly8Flat | source/Lib/CommonLib/RdCost.cpp:2380-2409 | the eight-point butterfly of a constant a is 8a at DC and zero elsewhere |
| Hadamard.Had8x8CoeffsFlat | source/Lib/CommonLib/RdCost.cpp:2380-2440 | the 8x8 coefficients of a constant difference v are 64v at DC and zero elsewhere |
| Hadamard.Butterfly8Dc | source/Lib/CommonLib/RdCost.cpp:2383-2402 | the DC output of the eight-point butterfly is the sum of its inputs |
| Hadamard.Had2x2Dc | source/Lib/CommonLib/RdCost.cpp:2240-2246 | the DC coefficient of the 2x2 kernel is the sum of the differences |
| Hadamard.Had4x4Dc | source/Lib/CommonLib/RdCost.cpp:2276-2342 | the DC coefficient of the 4x4 kernel is the sum of the differences |
| Hadamard.Had8x8Dc | source/Lib/CommonLib/RdCost.cpp:2380-2440 | the DC coefficient of the 8x8 kernel is the sum of the differences |
| Hadamard.Had2x2Negation | source/Lib/CommonLib/RdCost.cpp:2231-2255 | negating the differences (swapping org and cur) leaves the 2x2 SATD unchanged |
| Hadamard.Had4x4Negation | source/Lib/CommonLib/RdCost.cpp:2257-2356 | negating the differences leaves the 4x4 SATD unchanged |
| Hadamard.Had4x4CoeffsNeg | source/Lib/CommonLib/RdCost.cpp:2276-2342 | the 4x4 transform commutes with negation |
| Hadamard.Had4Stage1Neg | source/Lib/CommonLib/RdCost.cpp:2276-2291 | the first stage is linear: it commutes with negation |
| Hadamard.Had4Stage2Neg | source/Lib/CommonLib/RdCost.cpp:2293-2308 | the second stage commutes with negation |
| Hadamard.Had4Stage3Neg | source/Lib/CommonLib/RdCost.cpp:2310-2325 | the third stage commutes with negation |
| Hadamard.Had4Stage4Neg | source/Lib/CommonLib/RdCost.cpp:2327-2342 | the fourth stage commutes with negation |
| Hadamard.Satd4Neg | source/Lib/CommonLib/RdCost.cpp:2344-2355 | the 4x4 SATD rounding of the coefficients is unchanged when they are negated |
| Hadamard.Butterfly8Neg | source/Lib/CommonLib/RdCost.cpp:2380-2409 | the eight-point butterfly commutes with negation |
| Hadamard.Had8x8Negation | source/Lib/CommonLib/RdCost.cpp:2358-2457 | negating the differences leaves the 8x8 SATD unchanged |
| Hadamard.Had8RowsNeg | source/Lib/CommonLib/RdCost.cpp:2380-2409 | negating the differences negates every row of the horizontal pass |
| Hadamard.Had8x8CoeffsNeg | source/Lib/CommonLib/RdCost.cpp:2412-2440 | negating the differences negates every column of the 8x8 coefficients |
| Hadamard.ColumnsNeg | source/Lib/CommonLib/RdCost.cpp:2412-2440 | negated rows from the horizontal pass give negated columns after the vertical pass |
| Hadamard.Satd8Neg | source/Lib/CommonLib/RdCost.cpp:2442-2456 | the 8x8 SATD rounding depends only on the absolute coefficient sum and the DC magnitude |
| Hadamard.AbsSumRowsNeg | source/Lib/CommonLib/RdCost.cpp:2442-2448 | the absolute sum of negated rows is unchanged |
| Hadamard.Had2x2Flat | source/Lib/CommonLib/RdCost.cpp:2231-2255 | a constant difference v gives 2x2 SATD abs(v) |
| Hadamard.Satd4Flat | source/Lib/CommonLib/RdCost.cpp:2344-2355 | coefficients 16v at DC and zero elsewhere give 4x4 SATD 2 abs(v) |
| Hadamard.Had4x4Flat | source/Lib/CommonLib/RdCost.cpp:2257-2356 | a constant difference v gives 4x4 SATD 2 abs(v) |
| Hadamard.Had4VerticalFlat | source/Lib/CommonLib/RdCost.cpp:2276-2308 | the vertical stages of a constant tile leave 4v in the first row and zero elsewhere |
| Hadamard.Had4HorizontalFlat | source/Lib/CommonLib/RdCost.cpp:2310-2342 | the horizontal stages turn a first row of 4v into a lone DC coefficient 16v |
| Hadamard.Satd8Flat | source/Lib/CommonLib/RdCost.cpp:2442-2456 | coefficients with DC 64v and nothing else give 8x8 SATD 4 abs(v) |
| Hadamard.Had8x8Flat | source/Lib/CommonLib/RdCost.cpp:2358-2457 | a constant difference v gives 8x8 SATD 4 abs(v) |
| Hadamard.Had4Stage1Energy | source/Lib/CommonLib/RdCost.cpp:2276-2291 | each butterfly stage doubles the sum of squares |
| Hadamard.Had4Stage2Energy | source/Lib/CommonLib/RdCost.cpp:2293-2308 | the second stage doubles the sum of squares |
| Hadamard.Had4Stage3Energy | source/Lib/CommonLib/RdCost.cpp:2310-2325 | the third stage doubles the sum of squares |
| Hadamard.Had4Stage4Energy | source/Lib/CommonLib/RdCost.cpp:2327-2342 | the fourth stage doubles the sum of squares |
| Hadamard.Had4x4Energy | source/Lib/CommonLib/RdCost.cpp:2276-2342 | the 4x4 transform is an unnormalised Walsh-Hadamard transform: its coefficients have 16 times the energy of the differences |
| Hadamard.Had2x2Energy | source/Lib/CommonLib/RdCost.cpp:2240-2250 | the 2x2 transform multiplies the energy by 4 |
| Hadamard.TileWidth | source/Lib/CommonLib/RdCost.cpp:2928-3014 | every kernel xGetHADs can select is at least two samples wide |
| Hadamard.TileHeight | source/Lib/CommonLib/RdCost.cpp:2928-3014 | every kernel xGetHADs can select is at least two rows high |
| Hadamard.SelectTilingFails | source/Lib/CommonLib/RdCost.cpp:2928-3022 | xGetHADs throws "Invalid size" exactly when a dimension is odd |
| Hadamard.SelectTilingCovers | source/Lib/CommonLib/RdCost.cpp:2928-3014 | the selected tile divides both dimensions, so the tile loops cover the block exactly |
| Hadamard.SelectTilingSquare | source/Lib/CommonLib/RdCost.cpp:2928-3014 | a square kernel is chosen only when no rectangular one fits, and it is 8x8 exactly when both dimensions are multiples of 8, else 4x4 when both are multiples of 4 |
| Hadamard.TileDiff | source/Lib/CommonLib/RdCost.cpp:2264-2273 | the differences of one tile, row by row, have tile height times tile width entries |
| Hadamard.GridLoop | source/Lib/CommonLib/RdCost.cpp:2928-3014 | the two tile loops of xGetHADs return the sum of the selected kernel over the tile grid |
| Hadamard.Hads | source/Lib/CommonLib/RdCost.cpp:2910-3025 | xGetHADs delegates under applyWeight, and otherwise returns the tile-grid SATD shifted by the precision adjustment, or the size failure |
| Hadamard.RowOfTilesPointwise | source/Lib/CommonLib/RdCost.cpp:2932-2938 | two tile costs that agree on every tile of a row give the same row total |
| Hadamard.TileGridPointwise | source/Lib/CommonLib/RdCost.cpp:2930-3014 | two tile costs that agree everywhere give the same grid total |
| Hadamard.RowOfTilesZero | source/Lib/CommonLib/RdCost.cpp:2932-2938 | a row of tiles that each cost nothing totals zero |
| Hadamard.TileGridZero | source/Lib/CommonLib/RdCost.cpp:2930-3014 | a grid of tiles that each cost nothing totals zero |
| Hadamard.TileDiffSwapped | source/Lib/CommonLib/RdCost.cpp:2264-2273 | swapping org and cur negates the differences of every tile |
| Hadamard.TileCostSwapped | source/Lib/CommonLib/RdCost.cpp:2930-3014 | swapping org and cur leaves every tile cost unchanged, given symmetric rectangular kernels |
| Hadamard.HadsSymmetric | source/Lib/CommonLib/RdCost.cpp:2910-3025 | the SATD does not depend on which block is the original, given symmetric rectangular kernels |
| Hadamard.TileCostIdentical | source/Lib/CommonLib/RdCost.cpp:2930-3014 | a tile of a block compared with itself costs nothing |
| Hadamard.HadsIdenticalBlocks | source/Lib/CommonLib/RdCost.cpp:2910-3025 | identical blocks have zero SATD whenever xGetHADs does not fail |
| Hadamard.SubtractOffset | source/Lib/CommonLib/RdCost.cpp:3832-3835 | subtracting the mean difference keeps the block's shape |
| Hadamard.MrHads | source/Lib/CommonLib/RdCost.cpp:3828-3841 | xGetMRHADs is xGetHADs (or its weighted variant) of org minus the mean difference against cur |
| Hadamard.MrHadsRemovesOffset | source/Lib/CommonLib/RdCost.cpp:3828-3841 | when org and cur differ by exactly the offset, the mean-removed SATD is zero |
| RdCostEngine.RefreshedStores | source/Lib/CommonLib/RdCost.cpp:88-103 | the refilled store holds the current lambda and distScale in row 0 for every component, lambda times the adjustment rate and 2^SCALE_BITS over it in row 1, and clears resetStore; nothing else changes |
| RdCostEngine.AdjustSpec | source/Lib/CommonLib/RdCost.cpp:86-129 | lambdaAdjustColorTrans as a function of the state before the call keeps the state well formed |
| RdCostEngine.SwitchSpec | source/Lib/CommonLib/RdCost.cpp:105-128 | the pairing check, the switch to a row of the store and the chroma scaling keep the state well formed |
| RdCostEngine.ChromaScaled | source/Lib/CommonLib/RdCost.cpp:118-124 | chroma scaling divides lambda by the square of 2^CSCALE_FP_PREC / resScaleInv, recomputes distScale from it, and changes nothing else |
| RdCostEngine.AdjustFailsExactly | source/Lib/CommonLib/RdCost.cpp:105-128 | the call fails a CHECK exactly when it repeats the previous direction, when chroma scaling is asked for on a backward call or for luma, or when a backward call does not land on the unadjusted distScale |
| RdCostEngine.AdjustTogglesPair | source/Lib/CommonLib/RdCost.cpp:105-117 | a call that passes its checks sets the pairing flag to its direction, leaves the store filled and, without chroma scaling, loads lambda and distScale from that row of the store |
| RdCostEngine.PairingAlternates | source/Lib/CommonLib/RdCost.cpp:105-114 | after a successful forward call a second forward call fails, and a backward call before any forward call fails |
| RdCostEngine.AdjustRoundTrip | source/Lib/CommonLib/RdCost.cpp:86-129 | from a fresh store with the unadjusted lambda saved, a forward call and then a backward call both pass, and the backward call restores lambda, distScale and the pairing flag |
| RdCostEngine.RdCostOf | source/Lib/CommonLib/RdCost.cpp:63-77 | the cost is MAX_DOUBLE exactly for lossless coding of a distorted candidate under the lossless cost, and otherwise distScale times distortion plus the fractional bits |
| RdCostEngine.ZeroDistortionCostsBits | source/Lib/CommonLib/RdCost.cpp:63-77 | a candidate with no distortion costs exactly its bits, whatever lambda is |
| RdCostEngine.RdCostMonotone | source/Lib/CommonLib/RdCost.cpp:73 | with a non-negative scale, more distortion or more bits never lowers a finite cost |
| RdCostEngine.WeightedDist | source/Lib/CommonLib/RdCost.cpp:383-386 | the chroma weighting truncates the weighted distortion: the result is the integer part of weight times raw |
| RdCostEngine.WeightedDistUnit | source/Lib/CommonLib/RdCost.cpp:383-386 | weight 1 leaves the distortion unchanged |
| RdCostEngine.WeightedDistMonotone | source/Lib/CommonLib/RdCost.cpp:383-386 | the weighted distortion is monotone in the raw distortion |
| RdCostEngine.SubShift | source/Lib/CommonLib/RdCost.cpp:257-291 | the row-subsampling shift setDistParam chooses is at most 4 |
| RdCostEngine.SubShiftMode1 | source/Lib/CommonLib/RdCost.cpp:259-277 | mode 1 picks shift 4, 3 or 2 exactly under its height threshold and divisibility, shift 0 exactly for odd heights, and the step always divides the height |
| RdCostEngine.SubShiftModes2And3 | source/Lib/CommonLib/RdCost.cpp:278-291 | mode 2 halves the rows exactly for height above 8 and width up to 64, mode 3 exactly for height above 8, and any other mode samples every row |
| RdCostEngine.SubShiftDividesHeight | source/Lib/CommonLib/RdCost.cpp:257-291 | the row step divides the height in mode 1 always and in the other modes whenever the height is even |
| RdCostEngine.SetDistParam | source/Lib/CommonLib/RdCost.cpp:225-292 | setDistParam installs the largest Distortion as early-exit bound and the tabled subShift, and keeps applyWeight |
| RdCostEngine.SetDistParamBlocks | source/Lib/CommonLib/RdCost.cpp:294-317 | the two-buffer setDistParam uses step 1, no subsampling and the largest bound, and keeps applyWeight |
| RdCostEngine.SetDistParamDmvr | source/Lib/CommonLib/RdCost.cpp:319-346 | the refinement setDistParam fails its CHECK exactly when Hadamard or mean removal is asked for, and otherwise stores subShiftMode itself as the shift with the largest bound |
| RdCostEngine.SetDistParamFullSad | source/Lib/CommonLib/RdCost.cpp:225-292 | after setDistParam the row step divides the height and the generic SAD returns the full subsampled sum whenever it fits in Distortion |
| RdCostEngine.RdCost.constructor | source/Lib/CommonLib/RdCost.cpp:132-223 | init leaves the cost mode lossy, the store to be refilled and the pairing flag clear; the first setLambda sets lambda and distScale |
| RdCostEngine.RdCost.SetLambda | source/Lib/CommonLib/RdCost.cpp:79-84 | lambda becomes the argument and distScale 2^SCALE_BITS over it; every other field is unchanged |
| RdCostEngine.RdCost.SaveUnadjustedLambda | source/Lib/CommonLib/RdCost.cpp:3029-3033 | the unadjusted lambda and distScale become the current ones; nothing else changes |
| RdCostEngine.RdCost.RefreshStore | source/Lib/CommonLib/RdCost.cpp:88-103 | the new state is the refilled store of the old one |
| RdCostEngine.RdCost.ScaleForChroma | source/Lib/CommonLib/RdCost.cpp:118-124 | the new state is the chroma-scaled old one |
| RdCostEngine.RdCost.LambdaAdjustColorTrans | source/Lib/CommonLib/RdCost.cpp:86-129 | the new state is the one the adjustment specification gives, and the call reports a failed CHECK exactly when the specification fails |
| RdCostEngine.RdCost.SwitchLambda | source/Lib/CommonLib/RdCost.cpp:105-128 | the new state and the failure are those of the switch specification |
| RdCostEngine.RdCost.CalcRdCost | source/Lib/CommonLib/RdCost.cpp:63-77 | the cost is MAX_DOUBLE exactly for lossless coding of a distorted candidate under the lossless cost, and otherwise the selected (unadjusted or current) distScale times distortion plus the bits |
| RdCostEngine.RdCost.GetDistPart | source/Lib/CommonLib/RdCost.cpp:390-411 | luma distortion is returned unscaled, chroma distortion is the integer part of its component weight times the raw distortion |
| ContextModelling.LastAxis | source/Lib/CommonLib/ContextModelling.cpp:102-116 | a chroma side gets offset 0 and shift Clip3(0, 2, size >> 3); a luma side gets offset prefixCtx[floorLog2(size)] and shift (floorLog2(size) + 1) >> 2, which is at most 2 |
| ContextModelling.LumaLastContextsDisjoint | source/Lib/CommonLib/ContextModelling.cpp:45 | with the prefixCtx table no two luma sizes from 4 to 64 share a last-position context: every bin of a smaller size lies below every bin of a larger one |
| ContextModelling.CoeffBounds | source/Lib/CommonLib/ContextModelling.cpp:76-77 | the coefficient bounds are -(1 << R) and (1 << R) - 1, the range of an (R+1)-bit signed integer |
| ContextModelling.GroupPosition | source/Lib/CommonLib/ContextModelling.cpp:136-137 | the group column and row satisfy x + y * widthInGroups == pos with x below widthInGroups |
| ContextModelling.RowBelow | source/Lib/CommonLib/ContextModelling.cpp:147 | the group below (x, y) is widthInGroups positions further on and still inside the grid |
| ContextModelling.SigGroupSelector | source/Lib/CommonLib/ContextModelling.cpp:146-148 | the SigCoeffGroup selector is 1 exactly when the right or the lower group is significant, each read only inside the grid |
| ContextModelling.TsSigGroupSelector | source/Lib/CommonLib/ContextModelling.cpp:149-151 | the TsSigCoeffGroup selector counts the significant left and above groups inside the grid |
| ContextModelling.SigSelectorMonotone | source/Lib/CommonLib/ContextModelling.cpp:146-148 | marking more groups significant never lowers the SigCoeffGroup selector |
| ContextModelling.TsSelectorMonotone | source/Lib/CommonLib/ContextModelling.cpp:149-151 | marking more groups significant never lowers the TsSigCoeffGroup selector |
| ContextModelling.SelectorsAtCorners | source/Lib/CommonLib/ContextModelling.cpp:146-151 | the last group of the grid has no right or lower neighbour and the first has no left or above one |
| ContextModelling.SubblockRangesTile | source/Lib/CommonLib/ContextModelling.cpp:138-139 | the sub-block scan ranges tile the scan: position p lies in sub-block p >> log2CGSize and no other, and consecutive ranges meet |
| ContextModelling.CoeffCodingContext.constructor | source/Lib/CommonLib/ContextModelling.cpp:47-130 | the context records the component, sizes, sub-block and group dimensions, log2 block sizes and coefficient count, the last-position offset and shift of each axis, the coefficient bounds -(1 << R) and (1 << R) - 1; scanPosLast and every subset and context field start at -1 and no group is significant |
| ContextModelling.CoeffCodingContext.InitSubblock | source/Lib/CommonLib/ContextModelling.cpp:132-152 | initSubblock enters sub-block id at its scan position and range, sets only that group's flag when significant (never clearing one), and selects both group contexts from the neighbouring flags |
| ContextModelling.CoeffCodingContext.EnterSubblock | source/Lib/CommonLib/ContextModelling.cpp:134-139 | the sub-block's group position lies in the grid and its scan range covers 2^log2CGSize positions |
| ContextModelling.CoeffCodingContext.MarkGroup | source/Lib/CommonLib/ContextModelling.cpp:140-143 | a significant group's flag is set; no other flag changes |
| ContextModelling.CoeffCodingContext.SelectGroupContexts | source/Lib/CommonLib/ContextModelling.cpp:144-151 | the two group contexts are those of the right/lower and left/above selectors |
| ContextModelling.CountWith | source/Lib/CommonLib/ContextModelling.cpp:313-325 | the count of neighbours with a flag is 0 exactly when neither has it and 2 exactly when both have it |
| ContextModelling.CtxSkipFlag | source/Lib/CommonLib/ContextModelling.cpp:327-341 | the skip context counts the present neighbours that are skipped |
| ContextModelling.CtxAffineFlag | source/Lib/CommonLib/ContextModelling.cpp:313-325 | the affine context counts the present affine neighbours |
| ContextModelling.CtxIBCFlag | source/Lib/CommonLib/ContextModelling.cpp:353-364 | the IBC context counts the present IBC neighbours |
| ContextModelling.CtxMipFlag | source/Lib/CommonLib/ContextModelling.cpp:366-380 | an elongated block (one side more than twice the other) uses context 3; otherwise the count of MIP neighbours |
| ContextModelling.CtxPredModeFlag | source/Lib/CommonLib/ContextModelling.cpp:343-351 | the context is 1 exactly when the left or the above neighbour is intra coded |
| ContextModelling.CtxModeConsFlag | source/Lib/CommonLib/ContextModelling.cpp:155-167 | the mode constraint context is 1 exactly when the left or the above neighbour is intra coded |
| ContextModelling.CountingSelectorsSymmetric | source/Lib/CommonLib/ContextModelling.cpp:313-380 | the skip, affine, IBC, MIP and prediction-mode contexts do not depend on which neighbour is left and which is above |
| ContextModelling.NoNeighbourSelectors | source/Lib/CommonLib/ContextModelling.cpp:155-380 | with no neighbour available every selector takes context 0 (for MIP, a block that is not elongated) |
| ContextModelling.CtxQtCbf | source/Lib/CommonLib/ContextModelling.cpp:295-306 | an ISP luma cbf uses 2 + prevCbf, a Cr cbf otherwise uses prevCbf, every other cbf context 0; contexts 2 and 3 are exactly the ISP luma ones |
| ContextModelling.QtCbfFixedContexts | source/Lib/CommonLib/ContextModelling.cpp:295-306 | the Cb cbf and the non-ISP luma cbf always use context 0 |
| ContextModelling.CtxInterDir | source/Lib/CommonLib/ContextModelling.cpp:308-311 | the inter-direction context is an unsigned 32-bit value |
| ContextModelling.InterDirNoWrap | source/Lib/CommonLib/ContextModelling.cpp:308-311 | for blocks up to 128x128 the unsigned subtraction does not wrap: the context is 7 - (floorLog2(w) + floorLog2(h) + 1) / 2, at most 7 |
| ContextModelling.InterDirMonotone | source/Lib/CommonLib/ContextModelling.cpp:308-311 | a larger block never gets a larger inter-direction context |
| ContextModelling.CtxPltCopyFlag | source/Lib/CommonLib/ContextModelling.cpp:382-393 | a distance up to RUN_IDX_THRE indexes the LUT chosen by the previous run type; every result is one of the first RUN_IDX_THRE + 1 entries of that LUT |
| ContextModelling.PltCopySaturates | source/Lib/CommonLib/ContextModelling.cpp:385-392 | every distance at or beyond RUN_IDX_THRE shares the context of RUN_IDX_THRE |
| ContextModelling.NumSplit | source/Lib/CommonLib/ContextModelling.cpp:212-237 | numSplit weighs the quad split 2 and the four binary and ternary splits 1 each, minus one when positive, and is at most 5 |
| ContextModelling.CtxSplit | source/Lib/CommonLib/ContextModelling.cpp:170-293 | ctxSpl adds one for a lower left neighbour and one for a narrower above neighbour to 3 * (numSplit >> 1); ctxQt counts deeper neighbours plus 3 from QT depth 2; the BT contexts depend on the MT depth; all within their ranges |
| ContextModelling.CtxHv | source/Lib/CommonLib/ContextModelling.cpp:251-286 | ctxHv is 3 exactly when fewer vertical than horizontal splits are allowed, 4 exactly when more, and 0 on a tie with a missing neighbour |
| ContextModelling.CtxSplitTransposes | source/Lib/CommonLib/ContextModelling.cpp:170-293 | transposing the block (the above neighbour becomes the left one, width and height swap, horizontal and vertical splits swap) keeps ctxSpl, ctxQt and the BT contexts and mirrors ctxHv between 1 and 2 and between 3 and 4 |
| Unit.ScaleX | source/Lib/CommonLib/Unit.cpp:57 | the horizontal component scale is 0 or 1, and 0 for luma |
| Unit.ScaleY | source/Lib/CommonLib/Unit.cpp:58 | the vertical component scale is 0 or 1, and 0 for luma |
| Unit.RecalcLumaToChroma | source/Lib/CommonLib/Unit.cpp:55-64 | the recalculated area keeps its component and format and right-shifts x, y, width and height by the component scale: each new value shifted back up is at most the old one and the next value up shifted back exceeds it, so it lies within one subsampling step |
| Unit.LumaPos | source/Lib/CommonLib/Unit.cpp:111-124 | lumaPos of a luma block is its own position |
| Unit.LumaSize | source/Lib/CommonLib/Unit.cpp:81-94 | lumaSize of a luma block is its own size |
| Unit.ChromaPosAndSizeAreIdentity | source/Lib/CommonLib/Unit.cpp:66-79 | chromaPos and chromaSize return every block's position and size unchanged, since they shift only luma blocks, whose scale is 0 |
| Unit.RecalcLumaIdentity | source/Lib/CommonLib/Unit.cpp:55-64 | recalculating a luma block changes nothing |
| Unit.LumaOfRecalcRoundTrip | source/Lib/CommonLib/Unit.cpp:55-124 | for a chroma block whose luma position and size are multiples of the subsampling, lumaPos and lumaSize undo xRecalcLumaToChroma |
| Unit.RecalcOfLumaRoundTrip | source/Lib/CommonLib/Unit.cpp:55-124 | scaling a chroma block up to luma samples and recalculating gives the block back |
| Unit.Contains | source/Lib/CommonLib/Unit.cpp:160-175 | contains is true exactly when at least one component is valid in both areas and every such component of the other area is contained |
| Unit.ContainsChannel | source/Lib/CommonLib/Unit.cpp:177-192 | the channel variant is the same, restricted to the components of that channel |
| Unit.ContainsReflexive | source/Lib/CommonLib/Unit.cpp:160-192 | an area with a valid block (of the channel, when given) contains itself |
| Unit.SingleChan | source/Lib/CommonLib/Unit.cpp:212-222 | singleChan keeps the format, the number of blocks and each block of the channel, and replaces every other block by an empty CompArea |
| Unit.ContainsSingleChan | source/Lib/CommonLib/Unit.cpp:160-222 | an area contains its own single-channel restriction exactly when it has a valid block of that channel |
| Unit.AllowedSbtTypes | source/Lib/CommonLib/Unit.cpp:455-489 | SBT_OFF_DCT is never allowed, and no type is allowed when SBT is off, the CU is intra, IBC or palette, CIIP is set, or a side exceeds the maximum TB size |
| Unit.Mask | source/Lib/CommonLib/Unit.cpp:491-496 | the mask of n flags is below 2^n |
| Unit.MaskBits | source/Lib/CommonLib/Unit.cpp:493-496 | bit i of the mask is flag i: the loop encodes the flags exactly |
| Unit.MaskAllClear | source/Lib/CommonLib/Unit.cpp:491-496 | no flag set gives mask 0 |
| Unit.AllowedSbtBits | source/Lib/CommonLib/Unit.cpp:453-499 | bit i of checkAllowedSbt's result says whether SBT type i is allowed, the result is below 32 and bit 0 is never set |
| Unit.QuadSbtNeedsHalf | source/Lib/CommonLib/Unit.cpp:486-489 | a quarter split is allowed only where the half split in the same direction is |
| Unit.SbtTuSplit | source/Lib/CommonLib/Unit.cpp:501-516 | getSbtTuSplit lies between SBT_VER_HALF_POS0_SPLIT and SBT_HOR_QUAD_POS1_SPLIT |
| Unit.SbtTuSplitDecodes | source/Lib/CommonLib/Unit.cpp:505-512 | the split names its SBT type and position: both can be read back from it |
| Unit.ExactlyOneTuWithoutResidual | source/Lib/CommonLib/Unit.cpp:880-892 | with SBT on exactly one of TUs 0 and 1 is marked as having no residual, the one opposite the SBT position; with SBT off neither is |
| Unit.ZeroOutSide | source/Lib/CommonLib/Unit.cpp:900-905 | a side of 32 becomes 16 under the luma MTS/SBT zero-out; any other side is kept |
| Unit.CodingUnit.constructor | source/Lib/CommonLib/Unit.cpp:228-253 | a new CU has the given luma size, and initData's default state |
| Unit.CodingUnit.InitData | source/Lib/CommonLib/Unit.cpp:314-368 | initData leaves the modelled partition, flag and tool fields at their defaults (refIdxBi -1, rootCbf true, SBT off) |
| Unit.CodingUnit.ResetPartition | source/Lib/CommonLib/Unit.cpp:316-366 | the prediction mode, the QT, BT and MT depths, the tree type and the mode type take their defaults |
| Unit.CodingUnit.ResetFlags | source/Lib/CommonLib/Unit.cpp:322-345 | the skip, affine, rootCbf and MIP flags take their defaults |
| Unit.CodingUnit.ResetTools | source/Lib/CommonLib/Unit.cpp:333-344 | the SBT, MTS, LFNST, BCW, refIdxBi and ISP fields take their defaults |
| Unit.CodingUnit.CheckAllowedSbt | source/Lib/CommonLib/Unit.cpp:453-499 | the result is the bitmask of the allowed SBT types with minimum size 1 << (MIN_CU_LOG2 + 1) |
| Unit.TransformUnit.constructor | source/Lib/CommonLib/Unit.cpp:725-751 | a new TU has the given area and initData's default state |
| Unit.TransformUnit.InitData | source/Lib/CommonLib/Unit.cpp:753-764 | initData zeroes every cbf, sets every MTS index to DCT2_DCT2, and clears depth, noResidual, jointCbCr and the chroma scale; the area is kept |
| Unit.TransformUnit.CheckTuNoResidual | source/Lib/CommonLib/Unit.cpp:880-892 | noResidual becomes set exactly when SBT is on and the index is opposite the SBT position, and stays set once set; nothing else changes |
| Unit.TransformUnit.TbAreaAfterCoefZeroOut | source/Lib/CommonLib/Unit.cpp:894-910 | the area is getNonzeroTuSize of each side after the luma MTS/SBT zero-out of sides of 32, multiplied |
| Unit.ZeroOutAreaBound | source/Lib/CommonLib/Unit.cpp:894-910 | when getNonzeroTuSize never enlarges a side the result is at most the block area, and without the zero-out condition only getNonzeroTuSize applies |
| AlfParameters.MakeAlfFilterShape | source/Lib/CommonLib/AlfParameters.h:60-100 | construction fails exactly when the size is none of 5, 7 and size_CC_ALF; size_CC_ALF gives the CC-ALF shape of length 8 with 8 coefficients and no pattern; 5 and 7 give filterLength == size and size * size / 4 + 1 coefficients |
| AlfParameters.MirrorIndexedShape | source/Lib/CommonLib/AlfParameters.h:64-70 | a raster diamond whose taps take index i up to the centre and the mirrored index after it is point symmetric, has a unique largest centre index and only indices 0 .. length / 2 |
| AlfParameters.FilterShape5 | source/Lib/CommonLib/AlfParameters.h:62-73 | the 5x5 shape is ALF_FILTER_5 with 7 coefficients: a 13-tap diamond that uses each coefficient index below 7, is point symmetric and has a unique centre |
| AlfParameters.FilterShape7 | source/Lib/CommonLib/AlfParameters.h:74-87 | the 7x7 shape is ALF_FILTER_7 with 13 coefficients: a 25-tap diamond that uses each coefficient index below 13, is point symmetric and has a unique centre |
| AlfParameters.ShapesFitCoefficientArrays | source/Lib/CommonLib/AlfParameters.h:60-94 | the 7x7, 5x5 and CC-ALF shapes have exactly as many coefficients as the luma, chroma and CC-ALF coefficient rows of the parameter sets |
| AlfParameters.ResetContents | source/Lib/CommonLib/AlfParameters.h:131-145 | the reset luma coefficient array holds MAX_NUM_ALF_CLASSES x MAX_NUM_ALF_LUMA_COEFF entries and the chroma one ALF_MAX_NUM_ALTERNATIVES_CHROMA x MAX_NUM_ALF_CHROMA_COEFF |
| AlfParameters.ResetContentsState | source/Lib/CommonLib/AlfParameters.h:131-145 | after reset every enable, non-linear and new-filter flag is off, every coefficient, clipping index and delta index is 0, every luma coefficient flag is on, there is one chroma alternative and one luma filter, and no coefficient delta flag |
| AlfParameters.AlfParam.constructor | source/Lib/CommonLib/AlfParameters.h:126-129 | a new parameter set owns fresh arrays and holds the reset state |
| AlfParameters.AlfParam.Reset | source/Lib/CommonLib/AlfParameters.h:131-145 | every field except the filterShapes pointer holds the reset state afterwards; the pointer is outside the method's frame |
| AlfParameters.AlfParam.Assign | source/Lib/CommonLib/AlfParameters.h:147-163 | afterwards the parameter set compares equal to the source, whose fields stay unchanged, and holds the source's filterShapes pointer: after a = b, a == b holds |
| AlfParameters.AlfParam.CopyScalars | source/Lib/CommonLib/AlfParameters.h:153-160 | the chroma alternative count, the luma filter count, the coefficient delta flag and the filterShapes pointer equal the source's, and the source is a different object |
| AlfParameters.AlfParam.CopyFlags | source/Lib/CommonLib/AlfParameters.h:149-161 | the enable, non-linear, luma coefficient and new-filter flag arrays equal the source's, which keep their old values |
| AlfParameters.AlfParam.CopyCoefficients | source/Lib/CommonLib/AlfParameters.h:151-156 | the luma and chroma coefficient arrays, their clipping arrays and the delta index array equal the source's, which keep their old values |
| AlfParameters.AlfParam.Equals | source/Lib/CommonLib/AlfParameters.h:165-217 | two parameter sets compare equal exactly when every field but filterShapes agrees |
| AlfParameters.AlfParam.NotEquals | source/Lib/CommonLib/AlfParameters.h:219-222 | operator!= holds exactly when operator== does not |
| AlfParameters.EqualsIsEquivalence | source/Lib/CommonLib/AlfParameters.h:165-217 | operator== is reflexive, symmetric and transitive, and any two reset parameter sets compare equal |
| AlfParameters.CcResetContents | source/Lib/CommonLib/AlfParameters.h:237-245 | the reset CC-ALF state has two filter-index rows of MAX_NUM_CC_ALF_FILTERS and two coefficient blocks of MAX_NUM_CC_ALF_FILTERS x MAX_NUM_CC_ALF_CHROMA_COEFF |
| AlfParameters.CcResetContentsState | source/Lib/CommonLib/AlfParameters.h:237-245 | after reset both CC-ALF filters and all their indices are off, every coefficient is 0, both filter counts are MAX_NUM_CC_ALF_FILTERS, both new-filter counts are 0 and there are 3 valid components |
| AlfParameters.CcAlfFilterParam.constructor | source/Lib/CommonLib/AlfParameters.h:233-236 | a new CC-ALF parameter set owns fresh arrays and holds the reset state |
| AlfParameters.CcAlfFilterParam.Reset | source/Lib/CommonLib/AlfParameters.h:237-245 | every field holds the reset state afterwards |
| AlfParameters.CcAlfFilterParam.Assign | source/Lib/CommonLib/AlfParameters.h:246-258 | every field equals the source's old value |
| TemporalFilterKernels.InterpolationFilterTable | source/Lib/EncoderLib/EncTemporalFilter.cpp:52-70 | the table has 16 phases of 8 taps, the outer two taps of every phase are 0, the six used taps of every phase sum to 64, and phase 0 is the unit tap at position 3 |
| TemporalFilterKernels.Phase | source/Lib/EncoderLib/EncTemporalFilter.cpp:423-424 | the phase picked by the low four bits of a motion component has 8 taps whose used six sum to 64 |
| TemporalFilterKernels.BoxWithinRange | source/Lib/EncoderLib/EncTemporalFilter.cpp:383 | the rounded mean of a 2x2 block lies between any bounds of its four samples, and equals their value when all four agree |
| TemporalFilterKernels.SubsampleLuma | source/Lib/EncoderLib/EncTemporalFilter.cpp:364-389 | the output plane has half the width and height, rounded down, and each sample is the rounded mean of the co-located 2x2 input block |
| TemporalFilterKernels.SubsampleRow | source/Lib/EncoderLib/EncTemporalFilter.cpp:381-386 | row y of the output holds the rounded 2x2 means of its columns and no other row changes |
| TemporalFilterKernels.SubsampledRange | source/Lib/EncoderLib/EncTemporalFilter.cpp:364-389 | subsampling keeps every sample inside the input's range, and a flat input gives a flat output of the same value |
| TemporalFilterKernels.Interpolate | source/Lib/EncoderLib/EncTemporalFilter.cpp:449-464 | an interpolated sample is clipped into [0, maxValue] |
| TemporalFilterKernels.InterpolationAtPhaseZero | source/Lib/EncoderLib/EncTemporalFilter.cpp:423-464 | phase 0 in both directions returns the reference sample at the integer position, clipped |
| TemporalFilterKernels.InterpolationOfFlatPlane | source/Lib/EncoderLib/EncTemporalFilter.cpp:423-464 | a plane of one value in range interpolates to that same value at every sub-sample phase |
| TemporalFilterKernels.HorizontalPass | source/Lib/EncoderLib/EncTemporalFilter.cpp:428-447 | rows 1 to bs + 6 of the temporary array hold the six-tap horizontal filter of the reference row each stands for |
| TemporalFilterKernels.VerticalSample | source/Lib/EncoderLib/EncTemporalFilter.cpp:455-464 | the vertical pass over the temporary array, rounded by 12 bits and clipped, gives the interpolated sample of the block position |
| TemporalFilterKernels.FullPelRow | source/Lib/EncoderLib/EncTemporalFilter.cpp:408-414 | a whole-sample row error is a sum of squares and never negative |
| TemporalFilterKernels.FracRow | source/Lib/EncoderLib/EncTemporalFilter.cpp:453-467 | an interpolated row error is a sum of squares and never negative |
| TemporalFilterKernels.RowErrors | source/Lib/EncoderLib/EncTemporalFilter.cpp:404-419 | there is one non-negative error per block row |
| TemporalFilterKernels.BlockError | source/Lib/EncoderLib/EncTemporalFilter.cpp:399-475 | the block error without early exit is never negative |
| TemporalFilterKernels.EarlyExitKeepsComparison | source/Lib/EncoderLib/EncTemporalFilter.cpp:415-418 | the early-exit result is below besterror exactly when the full block error is, and equals the full error whenever that is at most besterror |
| TemporalFilterKernels.FullPelRowLoop | source/Lib/EncoderLib/EncTemporalFilter.cpp:406-414 | the column-pair loop returns the squared error of the row over bs columns rounded up to even |
| TemporalFilterKernels.FracRowLoop | source/Lib/EncoderLib/EncTemporalFilter.cpp:452-467 | the column loop returns the squared error of the row against the interpolated reference |
| TemporalFilterKernels.FracColumn | source/Lib/EncoderLib/EncTemporalFilter.cpp:455-466 | one column adds the squared difference of its interpolated sample and the original to the running row error |
| TemporalFilterKernels.MotionErrorLuma | source/Lib/EncoderLib/EncTemporalFilter.cpp:391-475 | the returned error is the running sum of row errors, returned after the first row that leaves it above besterror or after the last row; whole-sample vectors are divided by 16 first |
| TemporalFilterKernels.MotionErrorRows | source/Lib/EncoderLib/EncTemporalFilter.cpp:404-419 | the two row loops with their early exit return the early-exit sum of the row errors |
| TemporalFilterKernels.ExitResultAt | source/Lib/EncoderLib/EncTemporalFilter.cpp:415-418 | when the loop exits after row k the result is the sum of the first k rows |
| TemporalFilterKernels.ExitResultAtEnd | source/Lib/EncoderLib/EncTemporalFilter.cpp:474 | when no row exceeds the bound the result is the sum of all rows |
| TemporalFilterKernels.RowError | source/Lib/EncoderLib/EncTemporalFilter.cpp:404-414 | one row of the block gives that row's entry of the row errors, whole-sample or interpolated |
| TemporalFilterKernels.RowErrorsAt | source/Lib/EncoderLib/EncTemporalFilter.cpp:404-472 | entry i of the row errors is the whole-sample error of row i over an even column count, or its interpolated error |
| TemporalFilterKernels.CompensatedSample | source/Lib/EncoderLib/EncTemporalFilter.cpp:665-716 | a motion-compensated sample lies in [0, maxValue] |
| TemporalFilterKernels.CompensateBlock | source/Lib/EncoderLib/EncTemporalFilter.cpp:665-718 | every sample of the block takes the interpolation with the block's vector and nothing outside the block changes |
| TemporalFilterKernels.CompensateLine | source/Lib/EncoderLib/EncTemporalFilter.cpp:700-717 | one row of the block takes the interpolated samples and nothing else changes |
| TemporalFilterKernels.ApplyMotionPlane | source/Lib/EncoderLib/EncTemporalFilter.cpp:639-722 | every sample covered by whole blocks (8 samples, 4 along a subsampled chroma axis) takes the interpolation with the vector of its own block, and the samples right of or below the last whole block keep their old values |
| TemporalFilterKernels.CompensateBlockRows | source/Lib/EncoderLib/EncTemporalFilter.cpp:661-720 | the loop over block rows compensates every covered sample with its block's vector and changes nothing else |
| TemporalFilterKernels.CompensateBlockRow | source/Lib/EncoderLib/EncTemporalFilter.cpp:663-719 | a row of blocks compensates every covered sample of its rows with the vector of its block column and changes nothing else |
| TemporalFilterKernels.CompensateBlockAt | source/Lib/EncoderLib/EncTemporalFilter.cpp:665-718 | the numbered block takes the interpolation with mvs at its block numbers and nothing outside it changes |
| TemporalFilterSearch.CandidateError | source/Lib/EncoderLib/EncTemporalFilter.cpp:391-475 | the full error of a candidate vector, the block's sum of squared differences, is never negative |
| TemporalFilterSearch.SearchKeepsEarliestMinimum | source/Lib/EncoderLib/EncTemporalFilter.cpp:511-516 | a run of strict-improvement updates keeps an error no larger than the start's or any candidate's; it keeps the start when no candidate is strictly better, and otherwise a candidate with its own error before which every candidate is strictly worse |
| TemporalFilterSearch.SearchConcat | source/Lib/EncoderLib/EncTemporalFilter.cpp:502-588 | visiting two candidate lists one after the other keeps what visiting their concatenation keeps |
| TemporalFilterSearch.SearchSnoc | source/Lib/EncoderLib/EncTemporalFilter.cpp:513-516 | visiting one more candidate is one strict-improvement update with that candidate's error |
| TemporalFilterSearch.Visit | source/Lib/EncoderLib/EncTemporalFilter.cpp:531-536 | one motionErrorLuma call bounded by the best error followed by the strict-improvement update acts as that update with the candidate's full error, so the early exit never changes the choice |
| TemporalFilterSearch.LatticeLength | source/Lib/EncoderLib/EncTemporalFilter.cpp:527-538 | the nested loops over y2 and x2 visit n points per row |
| TemporalFilterSearch.LatticeOrder | source/Lib/EncoderLib/EncTemporalFilter.cpp:527-538 | point k of the nested loops is row k / n and column k % n of the lattice |
| TemporalFilterSearch.SearchLattice | source/Lib/EncoderLib/EncTemporalFilter.cpp:527-538 | the nested loops end with the search result over the lattice's points in row-major order |
| TemporalFilterSearch.SearchLatticeRow | source/Lib/EncoderLib/EncTemporalFilter.cpp:529-537 | the inner loop over x2 extends the search by one row of the lattice |
| TemporalFilterSearch.PreviousPoint | source/Lib/EncoderLib/EncTemporalFilter.cpp:504-517 | the predictor of one cell of the 3x3 neighbourhood is at most one candidate, none when the cell is outside the coarser level's grid |
| TemporalFilterSearch.PreviousCandidates | source/Lib/EncoderLib/EncTemporalFilter.cpp:502-524 | the coarser-level phase visits at most nine predictors and then the zero vector |
| TemporalFilterSearch.SearchPrevious | source/Lib/EncoderLib/EncTemporalFilter.cpp:502-524 | the two loops over py and px followed by the zero-vector test end with the search result over the coarser level's candidates |
| TemporalFilterSearch.SearchPreviousRow | source/Lib/EncoderLib/EncTemporalFilter.cpp:505-518 | the loop over px extends the search by one row of the 3x3 neighbourhood |
| TemporalFilterSearch.SearchPreviousAt | source/Lib/EncoderLib/EncTemporalFilter.cpp:507-517 | one cell of the neighbourhood is visited, with the scaled coarser-level vector, exactly when it lies inside the coarser level's grid |
| TemporalFilterSearch.PreviousList | source/Lib/EncoderLib/EncTemporalFilter.cpp:496-525 | there are no coarser-level candidates exactly when there is no coarser level |
| TemporalFilterSearch.SearchRange | source/Lib/EncoderLib/EncTemporalFilter.cpp:480-499 | the whole-sample radius is 8 exactly when there is no coarser level, and 0 exactly at double resolution with a coarser level (otherwise 5) |
| TemporalFilterSearch.NeighbourCandidates | source/Lib/EncoderLib/EncTemporalFilter.cpp:570-588 | the last phase visits one candidate for each of the above and left blocks that exist |
| TemporalFilterSearch.BlockSearchVisitsAll | source/Lib/EncoderLib/EncTemporalFilter.cpp:494-588 | the phases of one block's search amount to one strict-improvement search over every candidate visited, in order |
| TemporalFilterSearch.BlockSearchKeepsEarliestMinimum | source/Lib/EncoderLib/EncTemporalFilter.cpp:494-588 | one block's search keeps an error no larger than the start's or any visited candidate's, keeps the start when nothing is strictly better, and otherwise keeps a visited candidate with its true error before which every visited candidate is strictly worse |
| TemporalFilterSearch.SearchNeighbours | source/Lib/EncoderLib/EncTemporalFilter.cpp:570-588 | the above and left tests end with the search result over the existing neighbours' vectors |
| TemporalFilterSearch.SearchRefine | source/Lib/EncoderLib/EncTemporalFilter.cpp:539-568 | at double resolution, the two refinement lattices of spacing 4 and 1 and radius 3 around the best so far end with their search result; otherwise nothing changes |
| TemporalFilterSearch.SearchBlock | source/Lib/EncoderLib/EncTemporalFilter.cpp:494-588 | the search of one block, phase by phase, ends with the block-search result |
| TemporalFilterSearch.GridExists | source/Lib/EncoderLib/EncTemporalFilter.cpp:490-615 | the row-major recurrence of stored vectors, each block searched from its already stored above and left neighbours, has a solution |
| TemporalFilterSearch.GridUnique | source/Lib/EncoderLib/EncTemporalFilter.cpp:490-615 | every solution of that recurrence is the grid of stored vectors, block by block |
| TemporalFilterSearch.EstimateBlock | source/Lib/EncoderLib/EncTemporalFilter.cpp:494-612 | one block's stored vector is its search result with the error normalised |
| TemporalFilterSearch.EstimateAt | source/Lib/EncoderLib/EncTemporalFilter.cpp:494-613 | the loop body stores in the block's cell the vector the recurrence gives it, given its above and left neighbours already stored |
| TemporalFilterSearch.MotionEstimationLuma | source/Lib/EncoderLib/EncTemporalFilter.cpp:477-616 | every whole block of the plane, in row-major order, gets its search result from the start, searched with the neighbour vectors the same pass stored and with the normalised error; equivalently it holds the grid of stored vectors |
| TemporalFilterSearch.MotionEstimationRows | source/Lib/EncoderLib/EncTemporalFilter.cpp:490-615 | the loop over block rows gives every whole block its vector of the recurrence and leaves the cells outside the plane's blocks unchanged |
| TemporalFilterSearch.GridStored | source/Lib/EncoderLib/EncTemporalFilter.cpp:570-613 | a stored grid that follows the recurrence holds, at each block, the search result from the neighbours stored beside it |
| TemporalFilterSearch.MotionEstimationRow | source/Lib/EncoderLib/EncTemporalFilter.cpp:492-614 | one row of blocks gets the recurrence's vectors, reading the rows above stored by earlier passes |
| TemporalFilterSearch.Neighbours | source/Lib/EncoderLib/EncTemporalFilter.cpp:570-582 | the above vector exists only below the first block row and the left vector only right of the first block column, read from the cells of those blocks |
| TemporalFilterSearch.Store | source/Lib/EncoderLib/EncTemporalFilter.cpp:613 | the block's cell takes the vector and no other cell changes |
| TemporalFilter.IsFilterThisFrame | source/Lib/EncoderLib/EncTemporalFilter.cpp:144-157 | the frame is filtered exactly when QP is at least 17 and some key of the strength map divides the POC |
| TemporalFilter.LastMatchSpec | source/Lib/EncoderLib/EncTemporalFilter.cpp:268-278 | without a dividing key the overall strength stays -1; otherwise it is the strength of the last dividing key in key order |
| TemporalFilter.LastMatchFound | source/Lib/EncoderLib/EncTemporalFilter.cpp:268-278 | when some key divides the POC the overall strength is the strength of a dividing key |
| TemporalFilter.SelectedFrameStrength | source/Lib/EncoderLib/EncTemporalFilter.cpp:144-157 | a frame the first loop selects never gets the initial -1 strength |
| TemporalFilter.OverallStrength | source/Lib/EncoderLib/EncTemporalFilter.cpp:268-278 | the loop over the whole map ends with the strength of the last dividing key, or -1 |
| TemporalFilter.RefsInWindow | source/Lib/EncoderLib/EncTemporalFilter.cpp:191-256 | each collected offset is nonzero and names a frame of the window whose read succeeded |
| TemporalFilter.RefsAscending | source/Lib/EncoderLib/EncTemporalFilter.cpp:191-256 | the collected offsets strictly increase |
| TemporalFilter.RefsStopAtFailure | source/Lib/EncoderLib/EncTemporalFilter.cpp:244-250 | no reference lies at or after a frame whose read failed |
| TemporalFilter.RefsAllRead | source/Lib/EncoderLib/EncTemporalFilter.cpp:191-256 | when every read succeeds every frame of the window but the filtered one becomes a reference |
| TemporalFilter.ReferenceWindow | source/Lib/EncoderLib/EncTemporalFilter.cpp:161-256 | the reference offsets lie in [-pastRefs, futureRefs], name frames in [firstValidFrame, lastValidFrame] other than the filtered one, and ascend; with every read successful there is one per such frame |
| TemporalFilter.CollectReferences | source/Lib/EncoderLib/EncTemporalFilter.cpp:191-256 | the loop over the window collects the offsets the reference recurrence gives |
| TemporalFilter.CeilDivBounds | source/Lib/EncoderLib/EncTemporalFilter.cpp:133 | the rounded-up quotient of pieces covers n and one piece fewer does not; it is positive exactly when n is |
| TemporalFilter.NumCtuCoversPicture | source/Lib/EncoderLib/EncTemporalFilter.cpp:133 | the CTU count is the product of the CTU columns and rows, which cover the picture with none to spare, and is positive exactly for a non-empty picture |
| TemporalFilter.CtuQpOffset | source/Lib/EncoderLib/EncTemporalFilter.cpp:322-341 | the QP offset of a CTU lies in [-2, 2] |
| TemporalFilter.CtuQpOffsetBands | source/Lib/EncoderLib/EncTemporalFilter.cpp:78-79 | the offset is positive exactly above 60, negative exactly below 30, 2 exactly above 75, -2 exactly below 15 and 0 exactly in [30, 60] |
| TemporalFilter.CtuQpOffsetMonotone | source/Lib/EncoderLib/EncTemporalFilter.cpp:322-341 | a larger weighted error never gets a smaller offset |
| TemporalFilter.QpMap | source/Lib/EncoderLib/EncTemporalFilter.cpp:316-342 | the qpMap has one offset per CTU, the offset of that CTU's weighted error, in [-2, 2] |
| TemporalFilter.BuildQpMap | source/Lib/EncoderLib/EncTemporalFilter.cpp:290-342 | the loop fills a fresh array with the qpMap of the weighted errors |
| TemporalFilter.InsertIfAbsent | source/Lib/EncoderLib/EncTemporalFilter.cpp:343 | inserting under a key already present keeps its old value; otherwise the key gets the new value; other keys are unchanged |
| TemporalFilter.FirstInsertWins | source/Lib/EncoderLib/EncTemporalFilter.cpp:343 | of two inserts under one POC the first one's qpMap stays |
| TemporalFilter.EncTemporalFilter.constructor | source/Lib/EncoderLib/EncTemporalFilter.cpp:81-91 | frameSkip and QP start at 0, with no strengths and no adapted-QP entries |
| TemporalFilter.EncTemporalFilter.Init | source/Lib/EncoderLib/EncTemporalFilter.cpp:93-136 | every setting takes the given value and the CTU count is the rounded-up CTU columns times rows of the picture |
| TemporalFilter.EncTemporalFilter.Filter | source/Lib/EncoderLib/EncTemporalFilter.cpp:142-358 | filtering happens exactly when the frame is selected and at least one reference is read; then the references are the window's offsets and the strength the last dividing key's; with block importance mapping on a filtered frame adds its qpMap under the POC unless one is there; nothing else changes the adapted-QP map |

## Left out

- Floating-point Hadamard kernels: the 16x8, 8x16, 4x8 and 8x4 transforms end with a division by a square root. `xGetHADs` takes them as the parameter `rect`; only the integer kernels are modelled.
- `setLambda`'s square root for the motion SAD lambda, the `pow` in the lambda store, and the luma-weight table builders of `RdCost.cpp` are floating point. The stored lambdas and scales are opaque `real` values and the scales are the parameter `Scales`.
- The weighted-prediction path of the distortion kernels (`RdCostWeightPrediction`) is in another file; it is the parameter `weighted`.
- `setDistParam` chooses a distortion function by block width, from the table of function pointers that `init` fills. That choice is not modelled; each kernel is its own member.
- `init`'s table of function pointers, its SIMD initialisation (`initRdCostX86`), the `orgCopy` thread-private scratch buffer and the OpenMP pragmas exist only for dispatch, speed and concurrency.
- `xGetMRHADs` takes its offset from `PelBuf::meanDiff`, which is in another file; the offset is a parameter of `MrHads`.
- Accumulator widths are unbounded here. This covers the `Distortion` (uint64) sums and the int32 `deltaSum` of the mean-removed SAD, whose offset is cast to `Pel`. The model does not capture overflow at extreme bit depths.
- Distortion kernels: a block is a sequence of equally long rows. The kernels require the height to be a multiple of the row step 2^subShift, because the source's row loops only end then.
- `ContextModelling.cpp` calls code in other files:
  - the scan tables;
  - the sub-block size table;
  - `getNonzeroTuSize`;
  - the `Ctx::*` context-set lookups;
  - `CU::getCURestricted`;
  - `Partitioner::canSplit`.
  Their results are inputs. A missing neighbour is `None`.
- The constructor of `CoeffCodingContext` also selects `deriveRice` or `deriveRiceExt` and sets the Rice-history fields. Those functions and fields feed only the Rice derivation, which is in other files, so they are not modelled.
- `Unit.cpp` has three kinds of operations not modelled:
  - Copying and plumbing: `UnitArea::resizeTo`, `UnitArea::repositionTo`, the `operator=` overloads of the units, `TransformUnit::copyComponentFrom`, `TransformUnit::init` and the coefficient/palette buffer accessors. They copy buffers and pointers.
  - Operations that read the coding structure: `CodingUnit::isSepTree`, `isLocalSepTree` and `checkCCLMAllowed` read the picture-level coding structure and neighbouring CUs (through `CU::getSplitAtDepth`), which are not modelled.
  - Prediction-unit operations: `PredictionUnit::initData` and the motion-info accessors set or read motion data that no modelled operation consumes.
- `CompArea::compPos` and `chanPos` are selectors between `lumaPos` and `chromaPos`; those two are modelled.
- CodingUnit.InitData: the model resets 18 of the fields `initData` resets. These are the partition depths, the prediction mode, skip, affine, the root CBF, SBT, MTS, LFNST, BCW, `refIdxBi`, ISP, MIP, the tree type and the mode type. The palette, colour-transform, merge and geometric-partition fields are not modelled.
- The component scales and `Area::contains` live in ChromaFormat.h and Common.h, which are not part of this model. The scales follow Table 2 of ITU-T H.266.
- `sbtInfo` is a packed byte in Unit.h. It is two fields here, the SBT index and position.
- The model finds that `chromaPos` and `chromaSize` act as the identity on every block. This follows the scales of Table 2, where luma has scale 0. It is stated as a lemma.
- The `WCG_EXT` overload of `getDistPart` (taking a `DFuncWtd` and a luma buffer) is not modelled. For chroma under an SDR or HLG reshaper signal it rescales the SSE by `m_chromaWeight` with rounding over `MSE_WEIGHT_FRAC_BITS`. Otherwise it runs the luma-weighted SSE selected by width. For chroma it then applies `m_distortionWeight`. The reshaper signal type, `m_chromaWeight` and the weighted-function table are set in other files. The SSE kernels it calls are modelled (`Distortion.Sse`, `Distortion.SseWtd`).
- The array sizes of AlfParameters.h come from CommonDef.h, which is not part of this model; the constants are restated. Each two-dimensional array is one flat array, as `memset` and `memcpy` see it.
- AlfParameters.AlfParam.Assign: the model copies the scalar fields first and the arrays after, not in the source's order, which makes no difference because the two objects are distinct. Self-assignment (`a = a`) is not modelled: the model requires the two objects' arrays to be distinct.
- `bilateralFilter` of `EncTemporalFilter.cpp` computes in floating point (exp, pow, rounding) and is not modelled. The model's `filter` therefore does not change the picture.
- The variance normalisation of the block error is floating point; `motionEstimationLuma` takes it as the function `normalise`.
- The block-importance averaging of `filter` is also floating point: the loop over the BIM window, the per-CTU error sums and the `distFactor` weights. It reaches the model as each CTU's `weightedErr`; thresholding and the map insert are modelled.
- TemporalFilter.EncTemporalFilter.Init: requires every key of the strength map to be nonzero. The source's `init` accepts any map, but a key of 0 makes the later `receivedPoc % frame` tests of `filter` (EncTemporalFilter.cpp:151 and 274) a division by zero, which C++ leaves undefined. The map is a sequence with strictly ascending keys, because `std::map` iterates that way.
- `VideoIOYuv` open, skip and read calls and `rescalePicture` are file I/O in `filter`. Whether a frame's read succeeds is the parameter `readOk`.
- `motionEstimation`'s four-level pyramid is not modelled as one operation. It consists of two `subsampleLuma` calls and four `motionEstimationLuma` calls with distinct normalisations per level, and those parts are modelled. Likewise the per-reference motion estimation inside `filter` is not modelled.
- Picture borders: the `m_padding`-sample border extension (`extendBorderPel`) is modelled as reading the nearest sample inside the plane.
- The default construction of `MotionVector` is in EncTemporalFilter.h, which is not part of this model. The search therefore starts from the given `start` vector.
- TemporalFilterKernels.ApplyMotionPlane handles one component plane. `applyMotion`'s loop over the valid components calls it once per plane with that plane's scales.
- TemporalFilterKernels.MotionErrorLuma: the fractional case requires `bs <= 64`, the size of the source's fixed `tempArray`.
- TemporalFilter.EncTemporalFilter.constructor: the model sets `frameSkip` and `qp`. The remaining constructor defaults (chroma format, source sizes, colour-space conversion) belong to fields `filter` does not read here.
- `m_ctuAdaptedQP` is a pointer to a map of `int*` in the source. Here it is a map field holding each POC's qpMap as a sequence.
- SEI.h holds data records only and is not part of this model.
