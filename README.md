# xDEM core in Dafny

This project models three parts of the xDEM repository and proves properties about them.

- **The Nuth and Kääb DEM coregistration of `DemUtils/coreg.py`.** It covers:
  - the NMAD error measure (`calculate_nmad`);
  - the data preparation of the horizontal-shift estimator (`get_horizontal_shift`): the validity filter, the percentile outlier filter, 72 open aspect bins, the `count > min_count` filter and the ten-bin rule;
  - slope and aspect (`calculate_slope_and_aspect`);
  - the polynomial deramping (`deramping` with `estimate_values`, its coefficient layout, its size check and its capped subsampling);
  - the iterative driver `amaury_coregister_dem`: median bias removal, the early-stop rule, the running offsets, resampling, the 3×NMAD outlier mask and the final deramping.
- **The vertical-reference bookkeeping of the `DEM` class in `xdem/dem.py`.** It covers:
  - the product-name table;
  - the constructor's band check and field initialisation;
  - reading the reference from the product name;
  - `set_vref` without CRS computation;
  - the checks at the start of `to_vref`.
- **The closed-form and combinatorial pieces of `xdem/spatialstats.py`.** They are:
  - the spherical variogram `vgm`, the covariance `cov` and the kernel `kernel_sph`;
  - the standard errors `std_err` and `std_err_finite`;
  - the circular and ring masks;
  - the argument checks and the multi-range schedule of `sample_multirange_variogram`.

## Conventions

- **Floating-point values** are Dafny `real`s. A NaN cell is `Cell.NonFinite`, and so is an infinite cell.
- **Library routines are parameters.** The model does not compute NumPy and SciPy numerics. Instead, the routines are fields of a `Numerics.Routines` record that every operation receives: square root, trigonometry, `np.gradient`, `RectBivariateSpline` evaluation, `scipy.optimize.leastsq` and `np.random.randint`. The only facts assumed about them are the ones `Numerics.Sound` lists:
  - a true square root;
  - arctangent values in [−π/2, π/2], where π is the double `np.pi` (`Floats.Pi`): the interval is closed because `np.arctan` returns exactly ±`np.pi`/2 for arguments of magnitude 1e16 and more;
  - output lengths;
  - `randint`'s half-open range.
- **`scipy.optimize.leastsq` raises before fitting** when the residual function returns fewer values than there are parameters (MINPACK's `n > m` TypeError). `Numerics.LeastSq` is this stub: the error `TooFewResiduals` in that case, the routine's parameters otherwise.
- **The spatial statistics** take `exp`, real powers and the square root the same way, as the `Variogram.Maths` record.
- **Grids** are flattened row by row (`Numerics.Grid`).
- **Imperative code stays imperative.** Where the source updates arrays in place, the model is a method over a Dafny `array` or `array2`, proved against a function of the old contents. This covers:
  - the bias removal, the NaN writes and the ramp subtraction;
  - the bin loop;
  - the aspect buffer;
  - the masks.

  `DEM` is a class whose methods assign `vref` and `vrefGrid`. The `while` and `for` loops of the multi-range schedule are methods with loop invariants.

## Model

| member | source | states |
|---|---|---|
| Floats.Sub | DemUtils/coreg.py:446 | a difference is valid exactly when both operands are, and then adds back to the first operand |
| Floats.Div | DemUtils/coreg.py:203-204 | a quotient is valid exactly when both operands are and the divisor is nonzero, and then multiplies back to the dividend |
| Floats.SubCells | DemUtils/coreg.py:446 | the cell-wise difference of two grids has their length and holds the difference of each pair of cells |
| Floats.FiniteValuesMembers | DemUtils/coreg.py:207-208 | a value is among the valid values exactly when some cell holds it |
| Floats.FiniteValuesAppend | DemUtils/coreg.py:398 | collecting the valid values commutes with concatenating grids |
| Stats.SortSpec | DemUtils/coreg.py:398 | the sort used for medians returns a sorted permutation of its input |
| Stats.SortedUnique | DemUtils/coreg.py:398 | two sorted permutations of the same values are equal, so a median does not depend on input order |
| Stats.MedianOfPermutation | DemUtils/coreg.py:398 | the median depends only on the multiset of values |
| Stats.MedianOfShift | DemUtils/coreg.py:443 | subtracting a constant from every value subtracts it from the median |
| Stats.MedianAtLeast | DemUtils/coreg.py:398 | a lower bound of every value bounds the median |
| Stats.MedianAtMost | DemUtils/coreg.py:398 | an upper bound of every value bounds the median |
| Stats.NanMedian | DemUtils/coreg.py:443 | `np.nanmedian` is valid exactly when some cell is valid |
| Stats.Percentile | DemUtils/coreg.py:211-212 | `np.percentile` with linear interpolation between closest ranks of a non-empty list; `Stats.PercentileAtLeast` and `Stats.PercentileAtMost` keep it within the list's bounds |
| Stats.PercentileAtLeast | DemUtils/coreg.py:211-212 | a percentile never falls below a lower bound of all values |
| Stats.PercentileAtMost | DemUtils/coreg.py:211-212 | a percentile never exceeds an upper bound of all values |
| Robust.Nmad | DemUtils/coreg.py:389-400 | `calculate_nmad`, with its meaning proved by `Robust.NmadOfFiniteValues`: 1.4826 × the median absolute deviation from the median of the valid cells |
| Robust.NmadOfFiniteValues | DemUtils/coreg.py:389-400 | the NMAD is 1.4826 × the median absolute deviation from the median, taken over the valid cells only; it is valid exactly when some cell is |
| Robust.NmadNonNegative | DemUtils/coreg.py:398 | a valid NMAD is never negative |
| Robust.NmadOfConstant | DemUtils/coreg.py:398 | a grid whose valid cells all hold the same value has NMAD 0 |
| Robust.NmadOrderIndependent | DemUtils/coreg.py:398 | grids with the same multiset of valid values have the same NMAD, whatever the cell order and the invalid cells |
| NuthKaab.SlopeAndAspect | DemUtils/coreg.py:278-294 | the in-place computation through the y-gradient buffer yields the slope map and the aspect map `arctan(-gx) + π` cell by cell |
| NuthKaab.AspectRange | DemUtils/coreg.py:288-292 | an aspect is valid exactly where the x-gradient is, and every valid aspect lies between π/2 and 3π/2, both included |
| NuthKaab.SlopeIsNorm | DemUtils/coreg.py:290 | a slope is valid exactly where both gradients are, is non-negative, and its square is gx² + gy² |
| NuthKaab.FinitePairs | DemUtils/coreg.py:201-208 | the pairs (aspect, difference / slope) of the cells where both are valid, in grid order, never more than the cells; `NuthKaab.FinitePairsMembers` says which pairs enter |
| NuthKaab.FinitePairsMembers | DemUtils/coreg.py:201-208 | a pair enters the estimator exactly when some cell has that valid aspect and that valid difference divided by slope |
| NuthKaab.KeepInliers | DemUtils/coreg.py:213-215 | the samples kept by the percentile and magnitude filter, never more than given; `NuthKaab.KeepInliersMembers` says which |
| NuthKaab.KeepInliersMembers | DemUtils/coreg.py:213-215 | the outlier filter keeps exactly the samples strictly between the two percentiles with absolute value below 200 |
| NuthKaab.ExtremesDropped | DemUtils/coreg.py:211-215 | the smallest and the largest samples never pass the strict percentile filter |
| NuthKaab.BinSlice | DemUtils/coreg.py:222-226 | the values of the samples strictly inside bin i, never more than the samples; `NuthKaab.EdgeInNoBin` and `NuthKaab.BinsDisjoint` say which samples fall in it |
| NuthKaab.BinMedian | DemUtils/coreg.py:220-226 | the median of a bin's slice, 0 for an empty bin (the `np.zeros` entry); `NuthKaab.BinByAspect` fills the medians array with it |
| NuthKaab.BinByAspect | DemUtils/coreg.py:218-226 | the bin loop fills 72 medians and counts: each count is the size of the bin's slice and each median the slice's median, 0 for an empty bin |
| NuthKaab.EdgeMonotone | DemUtils/coreg.py:218-219 | the bin edges increase with the bin index |
| NuthKaab.EdgeInNoBin | DemUtils/coreg.py:223 | a sample lying exactly on a bin edge falls in no bin |
| NuthKaab.BinsDisjoint | DemUtils/coreg.py:223 | no sample falls in two bins |
| NuthKaab.OnlyMiddleBinsFilled | DemUtils/coreg.py:218-223 | an aspect in [π/2, 3π/2] can only land in bins 18 to 53, because both ends are bin edges |
| NuthKaab.CountsBounded | DemUtils/coreg.py:222-226 | the bin counts add up to at most the number of kept samples |
| NuthKaab.Survivors | DemUtils/coreg.py:229-230 | the surviving bins, in order, each with a count above `min_count`; `NuthKaab.SurvivorsExactly` gives the converse |
| NuthKaab.SurvivorsExactly | DemUtils/coreg.py:229-230 | a bin survives exactly when its count is strictly above `min_count` |
| NuthKaab.SurvivorsNeedSamples | DemUtils/coreg.py:229-230 | the surviving bins together hold more than `min_count` samples each |
| NuthKaab.SumOfBinCounts | DemUtils/coreg.py:222-226 | the recorded counts add up to the number of bin hits of the samples |
| NuthKaab.TooFewSamplesRefused | DemUtils/coreg.py:229-233 | fewer than 10·(min_count + 1) kept samples can never leave 10 surviving bins |
| NuthKaab.CosineResiduals | DemUtils/coreg.py:238-264 | `a·cos(b − x) + c − y` at every bin edge x with median y, one residual per bin |
| NuthKaab.CosineFit | DemUtils/coreg.py:266-268 | the residual function handed to `leastsq`, defined on parameter lists of length at least 3; `NuthKaab.FitBins` states the shift it yields |
| NuthKaab.InitialGuess | DemUtils/coreg.py:236 | the fit starts from amplitude 3·std/√2, phase 0 and bias the mean of the surviving medians |
| NuthKaab.FitBins | DemUtils/coreg.py:229-275 | the estimator raises "fewer than 10 cells" exactly when fewer than 10 bins survive, before any fit; otherwise the shift is (a·sin b, a·cos b, c) for the parameters `leastsq` returns on the cosine residuals of the surviving bin edges and medians, started from `InitialGuess` |
| NuthKaab.ShiftSpec | DemUtils/coreg.py:190-275 | the only errors of the shift estimator are an empty percentile input and too few bins |
| NuthKaab.HorizontalShift | DemUtils/coreg.py:190-275 | the estimator fails exactly when no valid pair exists or fewer than 10 of the bins filled from the kept samples hold more than `min_count` samples |
| NuthKaab.FewPairsGiveNoShift | DemUtils/coreg.py:207-233 | with fewer than 10·(min_count + 1) valid pairs no shift is ever estimated |
| Deramp.TriClosedForm | DemUtils/coreg.py:335 | the triangle rows `0..k-1` hold k(k+1)/2 coefficients |
| Deramp.IndexInRow | DemUtils/coreg.py:340 | index k(k+1)/2 + j of the pair (k, j) lies in row k of the triangle |
| Deramp.NumCoefficientsIsTri | DemUtils/coreg.py:335 | (d+1)(d+2)/2 is the size of the first d+1 triangle rows |
| Deramp.UnflattenSpec | DemUtils/coreg.py:340 | every index reads back as a row and a position within it |
| Deramp.IndexInjective | DemUtils/coreg.py:340 | different exponent pairs never share a coefficient index |
| Deramp.UnflattenIndex | DemUtils/coreg.py:340 | reading an index back gives the exponent pair it was written from, and every index is written by the pair it reads back as |
| Deramp.LayoutIsBijection | DemUtils/coreg.py:335-341 | the pairs 0 ≤ j ≤ k ≤ d map one-to-one onto the indices 0 … (d+1)(d+2)/2 − 1 |
| Deramp.Poly | DemUtils/coreg.py:340-341 | the degree-d polynomial; `Deramp.PolyIsFlatSum` proves it is the sum of each stored coefficient times its monomial, and `Deramp.EstimateValue` returns it |
| Deramp.EstimateValue | DemUtils/coreg.py:322-342 | `estimate_values` raises exactly when the coefficient count is not (d+1)(d+2)/2, and otherwise is the degree-d polynomial |
| Deramp.DegreeOnePlane | DemUtils/coreg.py:335-341 | for degree 1 the ramp is c0 + c1·x + c2·y |
| Deramp.PolyIsFlatSum | DemUtils/coreg.py:340-341 | the polynomial is the sum over every stored coefficient of that coefficient times the monomial of its exponent pair |
| Deramp.ZeroCoefficients | DemUtils/coreg.py:365 | the all-zero initial guess is the zero ramp |
| Deramp.ValidPoints | DemUtils/coreg.py:309-312 | the valid differences with their coordinates, in grid order, never more than the cells; `Deramp.ValidPointsMembers` says which points enter |
| Deramp.ValidPointsMembers | DemUtils/coreg.py:309-312 | a sample enters the fit exactly when its difference is valid, with that cell's coordinates |
| Deramp.SampleIndices | DemUtils/coreg.py:315-316 | exactly 500 000 indices are drawn, each in 0 … n − 2 |
| Deramp.Subsample | DemUtils/coreg.py:314-319 | up to 500 000 valid samples are kept as they are; above that exactly 500 000 samples are drawn from them |
| Deramp.LastSampleNeverDrawn | DemUtils/coreg.py:315-316 | above 500 000 samples the last valid sample is never drawn, unless a copy of it exists earlier |
| Deramp.Residuals | DemUtils/coreg.py:345-361 | each residual plus the measured value is the polynomial at that sample |
| Deramp.RampAt | DemUtils/coreg.py:374-383 | the returned ramp evaluates `estimate_values` with the fitted coefficients without raising |
| Deramp.ZeroGuess | DemUtils/coreg.py:365 | the initial guess has one zero per coefficient of the layout |
| Deramp.Deramping | DemUtils/coreg.py:297-386 | deramping fails exactly when fewer samples remain than coefficients, and otherwise returns a ramp of the requested degree carrying the coefficients `leastsq` returns on the polynomial residuals of the subsampled valid points, started from `ZeroGuess` |
| Coreg.Debias | DemUtils/coreg.py:443 | the DEM minus the NaN-median of its differences from the reference, of the same size; `Coreg.DebiasCentres` proves the new differences have median 0 |
| Coreg.RemoveBias | DemUtils/coreg.py:443 | the in-place subtraction leaves the debiased DEM in the array |
| Coreg.ShiftedDifferences | DemUtils/coreg.py:443 | shifting the DEM by a constant shifts every valid difference by it |
| Coreg.DebiasCentres | DemUtils/coreg.py:443 | when the DEMs share a valid cell, the differences after bias removal have median exactly 0 |
| Coreg.DebiasWithoutOverlap | DemUtils/coreg.py:443 | with no cell valid in both DEMs the bias is NaN and every cell becomes invalid |
| Coreg.Resampled | DemUtils/coreg.py:466-469 | a resampled cell is NaN wherever the interpolated NaN mask is not exactly zero |
| Coreg.Resample | DemUtils/coreg.py:466-472 | the NaN writes into the fresh spline output give the resampled DEM |
| Coreg.Stops | DemUtils/coreg.py:450-453 | the stop rule: after iteration 5, a valid NMAD strictly below the threshold; a NaN NMAD never stops the loop (used by `Coreg.StopRule`) |
| Coreg.Advance | DemUtils/coreg.py:462-472 | the state after a shift estimate; `Coreg.AdvanceFacts` proves the estimate is appended, added to the offsets, and the original DEM resampled at them |
| Coreg.Iteration | DemUtils/coreg.py:442-472 | one loop body breaks exactly when the NMAD of the debiased differences meets the stop rule, and then stops with the debiased DEM and that NMAD, keeping the offsets; otherwise it raises the error the shift estimator gives on the debiased differences; or appends the shift the estimator gives on them, adds it to the offsets, resamples the original DEM at the new offsets and keeps the NMAD of the differences before the resampling |
| Coreg.BreakCentred | DemUtils/coreg.py:442-453 | a pass that breaks stops on a DEM whose valid differences from the reference have median exactly 0 |
| Coreg.StoppedCentred | DemUtils/coreg.py:440-453 | a loop that stops before using up its iterations returns a DEM whose valid differences from the reference have median exactly 0 |
| Coreg.Loop | DemUtils/coreg.py:440-472 | the `for` loop from iteration i, keeping the reference's size; `Coreg.StopRule`, `Coreg.OffsetsAreSums`, `Coreg.StoppedCentred` and `Coreg.LoopErrors` characterise it |
| Coreg.Run | DemUtils/coreg.py:440-472 | the loop with the source's body keeps the reference's size and fails only with an error of the shift estimator; `Coreg.RunSummary` characterises a successful run |
| Coreg.OffsetsAreSums | DemUtils/coreg.py:462-463 | the offsets are the running sums of the per-iteration estimates |
| Coreg.StopRule | DemUtils/coreg.py:440-453 | the loop runs all its iterations unless it stops early, and it stops early only after iteration 5 with a valid NMAD below the threshold, the NMAD of the returned DEM |
| Coreg.LoopErrors | DemUtils/coreg.py:455-460 | every error the loop reports comes from the shift estimator |
| Coreg.Masked | DemUtils/coreg.py:484-485 | the differences with every outlier set to NaN, of the same size; `Coreg.MaskKeepsInliers` says which cells survive |
| Coreg.MaskOutliers | DemUtils/coreg.py:485 | the in-place NaN writes leave the masked differences in the array |
| Coreg.MaskKeepsInliers | DemUtils/coreg.py:484-485 | a valid cell survives exactly when it lies within 3·NMAD of the median; invalid cells stay invalid and survivors are unchanged |
| Coreg.Deramped | DemUtils/coreg.py:488-501 | the DEM minus the ramp at each cell's column and row, of the same size; `Deramp.RampAt` ties each subtracted value to `estimate_values` |
| Coreg.SubtractRamp | DemUtils/coreg.py:501 | the in-place subtraction leaves the deramped DEM in the array |
| Coreg.Start | DemUtils/coreg.py:420-437 | the state before the loop: the copy of the DEM to align, zero offsets, no `nmad` and no estimates |
| Coreg.Finish | DemUtils/coreg.py:474-510 | after the loop the run fails only on the unbound `nmad` or on a deramping fit with too few samples, and the returned DEM keeps its size |
| Coreg.Iterate | DemUtils/coreg.py:442-472 | the imperative loop body on the working array is the loop body `Iteration` |
| Coreg.Conclude | DemUtils/coreg.py:474-510 | the imperative code after the loop, with in-place masking and deramping, computes `Finish` |
| Coreg.Coregistration | DemUtils/coreg.py:403-510 | a successful run returns a DEM of the reference's size, and `estimate_values` never raises during a run |
| Coreg.Coregister | DemUtils/coreg.py:403-510 | `amaury_coregister_dem` computes `Coregistration` |
| Coreg.ShapeCheck | DemUtils/coreg.py:422-423 | the run fails on the shape check exactly when the DEM shapes differ |
| Coreg.SmallGridRefused | DemUtils/coreg.py:288 | with equal shapes, the run fails on `np.gradient` exactly when the DEM has fewer than 2 rows or columns, and on the cubic spline (coreg.py:433-435) exactly when it has at least 2 but fewer than 4 |
| Coreg.NoIterationNmadUnbound | DemUtils/coreg.py:474-510 | with no iteration, a DEM of at least 4×4 fails on the unbound `nmad` exactly when it is read, that is, in verbose mode or without deramping |
| Coreg.RunSummary | DemUtils/coreg.py:440-472 | a successful loop returns a DEM of the reference's size, offsets equal to the sums of the estimates, an assigned NMAD, and either all iterations run or an early stop after iteration 5 below the threshold, on a DEM whose valid differences from the reference have median 0 |
| Dem.ProductVref | xdem/dem.py:9-31 | a product name yields a reference only when it is a string, and only 'WGS84', 'EGM96' or 'EGM08' |
| Dem.ProductVrefIsTable | xdem/dem.py:22-29 | the lookup is exactly the nine-entry product table; every other name gives None |
| Dem.VrefFromProduct | xdem/dem.py:58-63 | the product's reference fills an unset `vref`; a caller-supplied `vref` is never replaced |
| Dem.AfterSetVref | xdem/dem.py:88-109 | `set_vref` succeeds exactly for 'EGM08', 'EGM96', or a non-string name with a string grid; on success both fields are strings; a failure leaves the state as it was unless the name was 'WGS84' |
| Dem.SetVrefGeoids | xdem/dem.py:94-99 | 'EGM08' and 'EGM96' set the name and its geoid grid whatever the previous state, and ignore a grid argument |
| Dem.SetVrefStringNames | xdem/dem.py:91-103 | 'WGS84' writes ('WGS84', None) and still raises; every other unknown string raises and changes nothing |
| Dem.SetVrefGridOnly | xdem/dem.py:104-109 | with no string name a string grid is stored under the unknown-name label; anything else raises with the state unchanged |
| Dem.SetVrefIdempotent | xdem/dem.py:88-109 | calling `set_vref` again with the same arguments gives the same state and the same outcome |
| Dem.ToVrefPrecheck | xdem/dem.py:138-143 | `to_vref` raises exactly when no grid is set and `vref` is unset or a string other than 'EGM08' and 'EGM96'; with a grid set, or a `vref` that is neither unset nor a string, it passes with the state unchanged; when it passes it keeps `vref`, and a string `vref` then has a grid |
| Dem.EllipsoidCannotConvert | xdem/dem.py:138-143 | a DEM whose reference came from an ellipsoidal product cannot be converted: the precheck raises |
| Dem.DEM.constructor | xdem/dem.py:43-45 | the caller's `vref`, `vref_grid` and `ccrs` are stored as given |
| Dem.DEM.Open | xdem/dem.py:35-49 | more than one band raises; otherwise the caller's fields are stored and then, if asked, the product fills an unset `vref` |
| Dem.DEM.ParseVrefFromFn | xdem/dem.py:52-70 | only `vref` changes, and only from unset to the product's reference |
| Dem.DEM.SetVref | xdem/dem.py:73-109 | the fields change as `AfterSetVref` says, and the method raises exactly when it says |
| Dem.DEM.ToVrefPrepare | xdem/dem.py:137-143 | the fields change as `ToVrefPrecheck` says, and the method raises exactly when it says |
| Variogram.SphCurve | xdem/spatialstats.py:804 | the spherical curve below the range; `Variogram.VgmSphOnCurve`, `VgmSphMonotone` and `VgmSphBounds` characterise it |
| Variogram.Vgm | xdem/spatialstats.py:784-814 | `vgm` fails exactly for a model name outside Sph, Exp, Gau and Exc; the spherical model is the sill from the range on |
| Variogram.ZeroRangeIsNugget | xdem/spatialstats.py:802-806 | with a zero range the spherical model is the sill at every lag h ≥ 0, its covariance (line 781) is the nugget, and two distinct points have kernel weight 0 (lines 878-879) |
| Variogram.VgmSphAtZero | xdem/spatialstats.py:802-806 | the spherical model is the nugget at lag 0 |
| Variogram.VgmSphOnCurve | xdem/spatialstats.py:802-806 | up to and including the range the spherical model is c0 + c1·(3/2·t − 1/2·t³) with t = h/a in [0, 1], so the two branches meet at the range |
| Variogram.VgmSphMonotone | xdem/spatialstats.py:802-806 | the spherical model does not decrease on [0, a] |
| Variogram.VgmSphBounds | xdem/spatialstats.py:802-806 | on [0, a] the spherical model stays between the nugget and the sill |
| Variogram.VgmSphNearSill | xdem/spatialstats.py:802-806 | below the range the model is within c1·(1 − h/a) of the sill, so it does not jump at the range |
| Variogram.Cov | xdem/spatialstats.py:768-781 | the covariance fails exactly when `vgm` does, and adds up with the nugget-free variogram to nugget + psill |
| Variogram.CovSph | xdem/spatialstats.py:781 | the spherical covariance is nugget + psill at lag 0 and the nugget from the range on |
| Variogram.CovSphDecreasing | xdem/spatialstats.py:781 | the spherical covariance does not increase on [0, a] |
| Variogram.KernelSph | xdem/spatialstats.py:868-881 | the kernel is 0 beyond the range |
| Variogram.KernelIsUnitCovariance | xdem/spatialstats.py:878-881 | the kernel is the spherical covariance with unit sill at the points' distance; it is symmetric, 1 for equal points and 0 at the range |
| Variogram.KernelBounds | xdem/spatialstats.py:878-881 | the kernel weight of any two points lies within [0, 1] |
| Variogram.StdErr | xdem/spatialstats.py:830-839 | the standard error is valid exactly when neff > 0, NaN (the square root of a negative number) for neff < 0 |
| Variogram.StdErrSquared | xdem/spatialstats.py:830-839 | for neff > 0 the squared standard error is std²/neff |
| Variogram.StdErrFinite | xdem/spatialstats.py:817-827 | the finite-ensemble error is valid exactly when neff ≤ neff_tot, and NaN for a subsample larger than the ensemble |
| Variogram.StdErrFiniteSquared | xdem/spatialstats.py:817-827 | for neff ≤ neff_tot the squared finite-ensemble error is std²·(neff_tot − neff)/neff_tot², which vanishes when neff = neff_tot |
| Masks.DefaultCenter | xdem/spatialstats.py:301-302 | the default center is the grid middle, rounded down, inside the grid |
| Masks.DefaultRadius | xdem/spatialstats.py:303-304 | the default radius is the smallest of the four distances from the center to the grid walls |
| Masks.CircularMask | xdem/spatialstats.py:289-316 | a fresh w×h mask whose cell is set exactly when its squared distance to the center is strictly below the squared radius |
| Masks.InDiskBounds | xdem/spatialstats.py:306-309 | a cell of a disk of radius r is less than r from the center along each axis |
| Masks.DefaultDiskInsideGrid | xdem/spatialstats.py:301-309 | with the default radius, a disk centered on the grid lies inside it, off its first row and column |
| Masks.ZeroRadiusIsEmpty | xdem/spatialstats.py:306-309 | a disk of radius 0 sets no cell |
| Masks.RingMask | xdem/spatialstats.py:318-340 | a fresh w×h mask whose cell is set exactly when it is in the outer disk and not in the inner one, around the center the source uses |
| Masks.RingOfMasks | xdem/spatialstats.py:331-338 | the ring cells are those of the outer mask outside the inner mask, both drawn with the arguments the source passes on |
| Masks.RingIgnoresCenter | xdem/spatialstats.py:331-333 | without an outer radius the caller's center makes no difference |
| Masks.RingEmptyIfInnerCovers | xdem/spatialstats.py:335-338 | an inner radius at least the outer one gives an empty ring |
| Masks.RingPartitionsOuterDisk | xdem/spatialstats.py:335-338 | the outer disk is the union of the ring and the inner disk, which never overlap |
| MultiRange.ValidateArgs | xdem/spatialstats.py:410-428 | accepted arguments are an array with a known method, not 1-D when a ground sampling distance or disks are used, and 1-D with a length-2 dimension when coordinates are given |
| MultiRange.ConsistentArgsAccepted | xdem/spatialstats.py:420-428 | every consistent combination of arguments passes the checks |
| MultiRange.ValidationOrder | xdem/spatialstats.py:420-428 | the checks come in the source's order: 1-D values with a ground sampling distance are reported first, an unknown method last |
| MultiRange.DefaultRanges | xdem/spatialstats.py:469-476 | the loop ends for gsd > 0 and yields 10·gsd doubled while below maxlag/2, then maxlag |
| MultiRange.EnoughDoublings | xdem/spatialstats.py:473-475 | some number of doublings of a positive start reaches any limit, so the loop ends |
| MultiRange.ScheduleUnique | xdem/spatialstats.py:469-476 | the schedule is determined by gsd and maxlag |
| MultiRange.ScheduleIncreasing | xdem/spatialstats.py:472-476 | with gsd > 0 the ranges before the last are positive and increase strictly |
| MultiRange.RadiusLists | xdem/spatialstats.py:479-490 | outer radius i is range i + 5·gsd; inner radius i is the previous range (0 first) for rings and None for disks |
| MultiRange.RingsCover | xdem/spatialstats.py:480-490 | with gsd ≥ 0 the rings leave no gap: every distance below the last outer radius lies in some ring |
| MultiRange.RingsOverlap | xdem/spatialstats.py:483-485 | consecutive rings overlap by 5·gsd |
| MultiRange.Schedule | xdem/spatialstats.py:462-495 | disks and rings use the given ranges or the default schedule with their radius lists; random points use the single range maxlag with no radii |

## Left out

- **External software and I/O** are not modelled: file and raster I/O, `reproject_dem`, `write_geotiff`, `icp_coregistration`, PDAL, temporary files and the `test_*` helpers of `DemUtils/coreg.py`. Nor are `SatelliteImage` loading, `print` messages and progress bars.
- **The CRS construction with pyproj** is not modelled: `set_vref(compute_ccrs=True)` and the conversion part of `to_vref` after its first checks.
- **Floating-point rounding is not modelled.** Values are exact reals, and infinities are treated like NaN.
- **Library numerics are given functions, not computed:** `np.gradient`, `RectBivariateSpline`, `scipy.optimize.leastsq`, sin, cos, arctan, sqrt, exp and real powers. `np.median` and `np.percentile` are computed exactly: the middle element or the mean of the two middle ones, and NumPy's default linear interpolation between closest ranks. The fitted parameters of both least-squares fits are whatever `leastsq` returns. The initial guess of the shift fit is built as the source builds it (`NuthKaab.InitialGuess`); what `leastsq` returns from it is not constrained.
- **Randomness** (`np.random.randint`) is a parameter. The spatial-statistics samplers that use it are not modelled (`_subsample_wrapper`, `patches_method`).
- **Other spatial-statistics code** is not modelled:
  - the skgstat, `curve_fit`, `integrate.quad` and binning wrappers, multiprocessing and plotting;
  - `distance_latlon`;
  - the sampling and aggregation part of `sample_multirange_variogram`;
  - its Raster-input branch, its gsd derived from coordinates, and its default `maxlag` computed from the grid.

  `maxlag` and `gsd` are inputs of `MultiRange.Schedule`.
- **`vgm` and `cov` take a single lag.** Array-valued lags are not modelled. The Exp, Gau and Exc models are modelled only through the abstract `exp` and `pow`.
- **Variogram.Vgm, Variogram.Cov, Variogram.KernelSph** require a nonzero range only where the source divides by it: for the Exp, Gau and Exc models, for the spherical model below its range, and for a kernel within its range. A zero range elsewhere is modelled (`Variogram.ZeroRangeIsNugget`). What Python does on a division by a zero range is left out. **Variogram.SphCurve** is the branch below the range and always divides.
- **Variogram.StdErr, Variogram.StdErrFinite** require a nonzero number of effective samples (for `std_err_finite`, a nonzero `neff_tot`), for the same reason. A negative radicand gives `NonFinite`, as `np.sqrt` gives NaN.
- **MultiRange.DefaultRanges** requires gsd > 0. For gsd ≤ 0 and maxlag > 0 the source loop never ends.
- **MultiRange.Schedule** requires gsd > 0 when it must build the default ranges, for the same reason.
- **NuthKaab.FitBins, NuthKaab.HorizontalShift** model the estimator from its inputs, the elevation difference, slope and aspect as flattened grids. They assume these have the same size, which the source's element-wise operations require.
- Coreg.Finish, Coreg.Conclude, Deramp.EstimateValue, Deramp.Residuals, Coreg.Deramped: the source's deramping coordinates are integer grid indices (`np.meshgrid` of `np.arange`), and `estimate_values` raises them to integer powers, which wrap silently at NumPy's integer width (64 bits on most platforms: at degree 5 once a side has 6210 cells, since 6209⁵ > 2⁶³ − 1; 32 bits: at degree 3 once a side has 1292 cells). The model uses exact real powers, so it does not capture the wrapped residuals and ramp of such grids. Degree 1, the default, never wraps.
- **Coreg.Coregister, Coreg.Coregistration** model the loop's `trange` progress bar as a plain `for` loop, and `assert reference_dem.shape == aligned_dem.shape` as the error `ShapeMismatch`. The library errors of `np.gradient` (fewer than 2 cells along an axis) and of the cubic `RectBivariateSpline` (fewer than 4) are the errors `GradientTooSmall` and `SplineTooSmall`; the model raises them before the work that would raise in the source, which does not change the outcome since the source has no side effects before them.
- **Coreg.Coregistration, Coreg.Finish, Deramp.Deramping** take `deramping_degree` as a natural number or None. A negative degree, which the source does not reject (`range(degree + 1)` is then empty and `(degree + 1) * (degree + 2) // 2` gives the size of the initial guess), is not modelled.

### Where the code differs from its documentation

The model follows the code in each case below.

- **The spline is built once.** It comes from the DEM as it was before the loop, so every iteration resamples the original DEM at the accumulated offsets. It does not resample the previous iteration's result.
- **`nmad` can be read unbound.** With `max_iterations <= 0`, `nmad` is never assigned before the verbose report or the return without deramping read it. The run then fails with `NmadUnbound` (`Coreg.NoIterationNmadUnbound`).
- **The aspect is not `atan2`.** `np.arctan(-gradient_x, gradient_y)` is a one-argument arctangent that writes into `gradient_y`. So every aspect lies in [π/2, 3π/2], whose ends are the edges of bins 18 and 54, and only 36 of the 72 aspect bins can ever fill (`NuthKaab.OnlyMiddleBinsFilled`).
- **The last sample is never drawn.** `np.random.randint(0, n - 1, 500_000)` never draws index n − 1 (`Deramp.LastSampleNeverDrawn`).
- **`set_vref('WGS84')` raises anyway.** It writes the WGS84 state and then raises through the trailing `else`. So a DEM whose reference was read from an ellipsoidal product cannot pass the first checks of `to_vref` (`Dem.EllipsoidCannotConvert`).
- **`cov` drops the nugget.** It does not pass its nugget on to `vgm`, so the spherical covariance from the range on is the nugget, not 0. With the default nugget of 0 it is 0 (`Variogram.CovSph`).
- **The returned NMAD can be stale.** Each pass computes `nmad` before the shift and the resampling, and nothing recomputes it after the last pass. So when the loop uses up its iterations and there is no deramping, the NMAD returned is that of the DEM before the last resampling, not of the DEM returned (`Coreg.Iteration` keeps the pre-resampling NMAD).
- **An empty aspect bin has median 0.** It keeps its `np.zeros` entry. Its count of 0 never survives a non-negative `min_count`.
