/** `amaury_coregister_dem` of `DemUtils/coreg.py`: the iterative Nuth and Kaab loop with
    bias removal, the early-stop rule, the running offsets, the resampling of the DEM being
    aligned, and the optional outlier mask and deramping at the end. */
module Coreg {
  import opened Wrappers
  import opened Floats
  import opened Stats
  import opened Numerics
  import opened Robust
  import opened NuthKaab
  import opened Deramp

  /** `get_horizontal_shift` is called with its default `min_count`. */
  const MinCount: int := 30

  /** `np.gradient` with its default first-order edges needs this many cells along each axis. */
  const GradientMinCells: nat := 2

  /** `RectBivariateSpline` is cubic by default (`kx = ky = 3`) and needs one point more than
      its degree along each axis. */
  const SplineDegree: nat := 3

  // ---------------------------------------------------------------- one iteration

  /** `aligned_dem -= np.nanmedian(aligned_dem - reference_dem)`. */
  function Debias(aligned: seq<Cell>, reference: seq<Cell>): (r: seq<Cell>)
    requires |aligned| == |reference|
    ensures |r| == |aligned|
  {
    SubScalar(aligned, NanMedian(SubCells(aligned, reference)))
  }

  /** The in-place bias removal. */
  method RemoveBias(a: array<Cell>, reference: seq<Cell>)
    requires a.Length == |reference|
    modifies a
    ensures a[..] == Debias(old(a[..]), reference)
  {
    var bias := NanMedian(SubCells(a[..], reference));
    for k := 0 to a.Length
      invariant forall j :: 0 <= j < k ==> a[j] == Sub(old(a[j]), bias)
      invariant forall j :: k <= j < a.Length ==> a[j] == old(a[j])
    {
      a[k] := Sub(a[k], bias);
    }
  }

  lemma {:induction false} ShiftedDifferences(a: seq<Cell>, r: seq<Cell>, c: real)
    requires |a| == |r|
    ensures FiniteValues(SubCells(SubScalar(a, Finite(c)), r)) == MapT(Minus(c), FiniteValues(SubCells(a, r)))
  {
    if a != [] {
      ShiftedDifferences(a[1..], r[1..], c);
      assert SubCells(SubScalar(a, Finite(c)), r)[1..] == SubCells(SubScalar(a[1..], Finite(c)), r[1..]);
      assert SubCells(a, r)[1..] == SubCells(a[1..], r[1..]);
      var head := if a[0].Finite? && r[0].Finite? then [a[0].v - r[0].v] else [];
      MapAppend(Minus(c), head, FiniteValues(SubCells(a[1..], r[1..])));
    }
  }

  /** After the bias removal the valid differences `aligned - reference` have median zero. */
  lemma DebiasCentres(aligned: seq<Cell>, reference: seq<Cell>, k: int)
    requires |aligned| == |reference|
    requires 0 <= k < |aligned| && aligned[k].Finite? && reference[k].Finite?
    ensures NanMedian(SubCells(Debias(aligned, reference), reference)) == Finite(0.0)
  {
    var d := SubCells(aligned, reference);
    var vs := FiniteValues(d);
    assert |vs| > 0 by { FiniteValuesMembers(d, d[k].v); }
    var c := Median(vs);
    assert Debias(aligned, reference) == SubScalar(aligned, Finite(c));
    var shifted := MapT(Minus(c), vs);
    assert FiniteValues(SubCells(Debias(aligned, reference), reference)) == shifted by {
      ShiftedDifferences(aligned, reference, c);
    }
    assert Median(shifted) == 0.0 by { MedianOfShift(vs, c); }
  }

  /** With no cell valid in both grids the bias is NaN and every cell becomes invalid. */
  lemma DebiasWithoutOverlap(aligned: seq<Cell>, reference: seq<Cell>)
    requires |aligned| == |reference|
    requires forall k :: 0 <= k < |aligned| ==> !(aligned[k].Finite? && reference[k].Finite?)
    ensures forall k :: 0 <= k < |aligned| ==> !Debias(aligned, reference)[k].Finite?
  {
    var d := SubCells(aligned, reference);
    if |FiniteValues(d)| > 0 {
      FiniteValuesMembers(d, FiniteValues(d)[0]);
    }
  }

  /** `i > 5 and nmad < error_threshold`; a NaN NMAD never compares below the threshold. */
  predicate Stops(i: int, nmad: Cell, threshold: real)
  {
    i > 5 && nmad.Finite? && nmad.v < threshold
  }

  /** `np.isnan(aligned_dem)` as a grid of zeros and ones. */
  function NanMask(g: Grid): (m: Grid)
    ensures m.rows == g.rows && m.cols == g.cols && |m.cells| == |g.cells|
  {
    Grid(g.rows, g.cols,
         seq(|g.cells|, k requires 0 <= k < |g.cells| => if g.cells[k].Finite? then Finite(0.0) else Finite(1.0)))
  }

  /** The DEM resampled at the accumulated offsets (rows shifted by `-north`, columns by `east`),
      with NaN wherever the interpolated NaN mask is not exactly 0. */
  function Resampled(num: Routines, original: Grid, east: real, north: real): (r: seq<Cell>)
    requires Sound(num)
    ensures |r| == |original.cells|
    ensures forall k :: 0 <= k < |r| && num.spline(NanMask(original), -north, east)[k] != Finite(0.0) ==>
      !r[k].Finite?
  {
    var elevation := num.spline(original, -north, east);
    var nans := num.spline(NanMask(original), -north, east);
    seq(|original.cells|, k requires 0 <= k < |original.cells| =>
      if nans[k] != Finite(0.0) then NonFinite else elevation[k])
  }

  /** `new_elevation[new_nans != 0] = np.nan` on a fresh array. */
  method Resample(num: Routines, original: Grid, east: real, north: real) returns (a: array<Cell>)
    requires Sound(num)
    ensures fresh(a) && a[..] == Resampled(num, original, east, north)
  {
    var elevation := num.spline(original, -north, east);
    var nans := num.spline(NanMask(original), -north, east);
    a := new Cell[|elevation|](k requires 0 <= k < |elevation| => elevation[k]);
    for k := 0 to a.Length
      invariant forall j :: 0 <= j < k ==> a[j] == if nans[j] != Finite(0.0) then NonFinite else elevation[j]
      invariant forall j :: k <= j < a.Length ==> a[j] == elevation[j]
    {
      if nans[k] != Finite(0.0) {
        a[k] := NonFinite;
      }
    }
  }

  // ---------------------------------------------------------------- the loop

  /** What stays fixed during the loop. */
  datatype Setup = Setup(
    reference: seq<Cell>,
    original: Grid,
    slope: seq<Cell>,
    aspect: seq<Cell>,
    maxIterations: int,
    threshold: real)
  {
    ghost predicate Valid()
    {
      |reference| == |original.cells| == |slope| == |aspect|
    }
  }

  /** The loop variables: the working DEM, the offsets, the last NMAD (`None` before the first
      iteration, where Python's `nmad` is unbound) and the shift estimated in each iteration. */
  datatype Progress = Progress(
    aligned: seq<Cell>,
    east: real,
    north: real,
    nmad: Option<Cell>,
    estimates: seq<Shift>)

  /** How one iteration ends: `break` with the debiased DEM, an exception from the shift
      estimator, or the next loop state. */
  datatype Outcome = Break(stopped: Progress) | Raise(error: Error) | Continue(next: Progress)

  /** What one iteration promises: it breaks exactly when the NMAD of the debiased DEM meets the
      stop rule; a `break` stops with the debiased DEM, keeps the offsets and reports that NMAD;
      an exception comes from the shift estimator; otherwise exactly one estimate is appended and
      added to the offsets. */
  ghost predicate StepFacts(s: Setup, i: int, p: Progress, o: Outcome)
    requires |p.aligned| == |s.reference|
  {
    && (o.Break? <==> Stops(i, Nmad(SubCells(s.reference, Debias(p.aligned, s.reference))), s.threshold))
    && (o.Break? ==>
          var q := o.stopped;
          q.aligned == Debias(p.aligned, s.reference)
          && q.estimates == p.estimates && q.east == p.east && q.north == p.north
          && q.nmad == Some(Nmad(SubCells(s.reference, q.aligned))) && Stops(i, q.nmad.value, s.threshold))
    && (o.Raise? ==> o.error == EmptyPercentile || o.error == TooFewBins)
    && (o.Continue? ==>
          var q := o.next;
          |q.aligned| == |s.reference| && q.nmad.Some?
          && |q.estimates| == |p.estimates| + 1 && q.estimates[..|p.estimates|] == p.estimates
          && q.east == p.east + q.estimates[|p.estimates|].east
          && q.north == p.north + q.estimates[|p.estimates|].north)
  }

  /** A pass that did not break either raised the shift estimator's error on the differences
      after bias removal, or appended the estimator's result on them and resampled the original
      DEM at the new offsets, keeping as `nmad` that of the differences before the resampling. */
  ghost predicate EstimatorStep(num: Routines, s: Setup, p: Progress, o: Outcome)
    requires Sound(num) && s.Valid() && |p.aligned| == |s.reference|
  {
    var diff := SubCells(s.reference, Debias(p.aligned, s.reference));
    var r := ShiftSpec(num, diff, s.slope, s.aspect, MinCount);
    && (o.Raise? ==> r == Err(o.error))
    && (o.Continue? ==>
          && |o.next.estimates| > |p.estimates| && r == Ok(o.next.estimates[|p.estimates|])
          && o.next.aligned == Resampled(num, s.original, o.next.east, o.next.north)
          && o.next.nmad == Some(Nmad(diff)))
  }

  /** One pass through the loop body at iteration `i`. */
  function Iteration(num: Routines, s: Setup, i: int, p: Progress): (o: Outcome)
    requires Sound(num) && s.Valid() && |p.aligned| == |s.reference|
    ensures StepFacts(s, i, p, o)
    ensures !o.Break? ==> EstimatorStep(num, s, p, o)
  {
    var debiased := Debias(p.aligned, s.reference);
    var diff := SubCells(s.reference, debiased);
    var nmad := Nmad(diff);
    if Stops(i, nmad, s.threshold) then Break(p.(aligned := debiased, nmad := Some(nmad)))
    else
      var r := ShiftSpec(num, diff, s.slope, s.aspect, MinCount);
      if r.Err? then Raise(r.error)
      else
        AdvanceFacts(num, s, p, nmad, r.value);
        Continue(Advance(num, s, p, nmad, r.value))
  }

  /** The state `Advance` builds: one more estimate, added to the offsets, and the original DEM
      resampled at the new offsets. */
  lemma AdvanceFacts(num: Routines, s: Setup, p: Progress, nmad: Cell, shift: Shift)
    requires Sound(num) && s.Valid()
    ensures var q := Advance(num, s, p, nmad, shift);
      && |q.estimates| == |p.estimates| + 1 && q.estimates[..|p.estimates|] == p.estimates
      && q.estimates[|p.estimates|] == shift
      && q.east == p.east + shift.east && q.north == p.north + shift.north
      && q.aligned == Resampled(num, s.original, q.east, q.north) && |q.aligned| == |s.reference|
      && q.nmad == Some(nmad)
  {
    var q := Advance(num, s, p, nmad, shift);
    assert q.estimates[..|p.estimates|] == p.estimates;
  }

  /** The next loop state after estimating `shift`: the offsets grow by the estimate and the DEM
      is resampled from the original at the new offsets. */
  function Advance(num: Routines, s: Setup, p: Progress, nmad: Cell, shift: Shift): (q: Progress)
    requires Sound(num)
  {
    var east := p.east + shift.east;
    var north := p.north + shift.north;
    Progress(Resampled(num, s.original, east, north), east, north, Some(nmad), p.estimates + [shift])
  }

  /** `Advance` at offsets the caller has already added up. */
  lemma AdvanceTo(num: Routines, s: Setup, p: Progress, nmad: Cell, shift: Shift, east: real, north: real)
    requires Sound(num)
    requires east == p.east + shift.east && north == p.north + shift.north
    ensures Advance(num, s, p, nmad, shift)
      == Progress(Resampled(num, s.original, east, north), east, north, Some(nmad), p.estimates + [shift])
  {
  }

  /** The three ways an iteration ends, in terms of its intermediate values. */
  lemma IterationCases(num: Routines, s: Setup, i: int, p: Progress)
    requires Sound(num) && s.Valid() && |p.aligned| == |s.reference|
    ensures
      var debiased := Debias(p.aligned, s.reference);
      var diff := SubCells(s.reference, debiased);
      var nmad := Nmad(diff);
      var o := Iteration(num, s, i, p);
      && (Stops(i, nmad, s.threshold) ==> o == Break(p.(aligned := debiased, nmad := Some(nmad))))
      && (!Stops(i, nmad, s.threshold) ==>
            var r := ShiftSpec(num, diff, s.slope, s.aspect, MinCount);
            && (r.Err? ==> o == Raise(r.error))
            && (r.Ok? ==> o == Continue(Advance(num, s, p, nmad, r.value))))
  {
  }

  /** A loop body that keeps the promises of `StepFacts` on every state of the right size. */
  ghost predicate Behaves(step: (int, Progress) --> Outcome, s: Setup)
  {
    forall j: int, q: Progress | |q.aligned| == |s.reference| ::
      step.requires(j, q) && StepFacts(s, j, q, step(j, q))
  }

  /** `for i in range(max_iterations)` around the loop body `step`, from iteration `i` on. */
  function Loop(step: (int, Progress) --> Outcome, s: Setup, i: int, p: Progress): (r: Result<Progress, Error>)
    requires Behaves(step, s) && |p.aligned| == |s.reference|
    ensures r.Ok? ==> |r.value.aligned| == |s.reference|
    decreases s.maxIterations - i
  {
    if i >= s.maxIterations then Ok(p)
    else
      match step(i, p)
      case Break(q) => Ok(q)
      case Raise(e) => Err(e)
      case Continue(q) => Loop(step, s, i + 1, q)
  }

  function Body(num: Routines, s: Setup): (int, Progress) --> Outcome
  {
    (j: int, q: Progress) requires Sound(num) && s.Valid() && |q.aligned| == |s.reference| => Iteration(num, s, j, q)
  }

  lemma BodyBehaves(num: Routines, s: Setup)
    requires Sound(num) && s.Valid()
    ensures Behaves(Body(num, s), s)
  {
  }

  /** The coregistration loop from iteration `i` on; it only fails where the shift estimator
      does. */
  function Run(num: Routines, s: Setup, i: int, p: Progress): (r: Result<Progress, Error>)
    requires Sound(num) && s.Valid() && |p.aligned| == |s.reference|
    ensures r.Ok? ==> |r.value.aligned| == |s.reference|
    ensures r.Err? ==> r.error == EmptyPercentile || r.error == TooFewBins
  {
    BodyBehaves(num, s);
    if Loop(Body(num, s), s, i, p).Err? then
      LoopErrors(Body(num, s), s, i, p);
      Loop(Body(num, s), s, i, p)
    else Loop(Body(num, s), s, i, p)
  }

  /** One turn of the loop: stop when the iterations are used up, otherwise follow the body. */
  lemma RunStep(num: Routines, s: Setup, i: int, p: Progress)
    requires Sound(num) && s.Valid() && |p.aligned| == |s.reference|
    ensures i >= s.maxIterations ==> Run(num, s, i, p) == Ok(p)
    ensures i < s.maxIterations ==>
      Run(num, s, i, p) == match Iteration(num, s, i, p)
        case Break(q) => Ok(q)
        case Raise(e) => Err(e)
        case Continue(q) => Run(num, s, i + 1, q)
  {
    BodyBehaves(num, s);
  }

  function SumEast(shifts: seq<Shift>): real
  {
    if shifts == [] then 0.0 else SumEast(shifts[..|shifts| - 1]) + shifts[|shifts| - 1].east
  }

  function SumNorth(shifts: seq<Shift>): real
  {
    if shifts == [] then 0.0 else SumNorth(shifts[..|shifts| - 1]) + shifts[|shifts| - 1].north
  }

  /** The offsets are the running sums of the per-iteration estimates, and the loop only appends
      to the list of estimates. */
  lemma {:induction false} OffsetsAreSums(step: (int, Progress) --> Outcome, s: Setup, i: int, p: Progress)
    requires Behaves(step, s) && |p.aligned| == |s.reference|
    requires Loop(step, s, i, p).Ok?
    requires p.east == SumEast(p.estimates) && p.north == SumNorth(p.estimates)
    ensures var q := Loop(step, s, i, p).value;
      q.east == SumEast(q.estimates) && q.north == SumNorth(q.estimates)
      && p.estimates <= q.estimates
    decreases s.maxIterations - i
  {
    if i < s.maxIterations {
      var o := step(i, p);
      if o.Continue? {
        var q := o.next;
        assert q.estimates[..|q.estimates| - 1] == p.estimates;
        OffsetsAreSums(step, s, i + 1, q);
      }
    }
  }

  /** The loop runs all its iterations unless it stops early, and it stops early only after
      iteration 5, with a finite NMAD below the threshold that is the NMAD of the returned DEM;
      once an iteration has run, `nmad` is assigned. */
  lemma {:induction false} StopRule(step: (int, Progress) --> Outcome, s: Setup, i: int, p: Progress)
    requires Behaves(step, s) && |p.aligned| == |s.reference|
    requires 0 <= i == |p.estimates|
    requires Loop(step, s, i, p).Ok?
    ensures var q := Loop(step, s, i, p).value;
      |q.estimates| == s.maxIterations
      || (|q.estimates| == i && i >= s.maxIterations)
      || (5 < |q.estimates| < s.maxIterations
          && q.nmad == Some(Nmad(SubCells(s.reference, q.aligned)))
          && Stops(|q.estimates|, q.nmad.value, s.threshold))
    ensures (i < s.maxIterations || p.nmad.Some?) ==> Loop(step, s, i, p).value.nmad.Some?
    decreases s.maxIterations - i
  {
    if i < s.maxIterations {
      var o := step(i, p);
      if o.Continue? {
        StopRule(step, s, i + 1, o.next);
      }
    }
  }

  /** Every error the loop reports comes from the shift estimator. */
  lemma {:induction false} LoopErrors(step: (int, Progress) --> Outcome, s: Setup, i: int, p: Progress)
    requires Behaves(step, s) && |p.aligned| == |s.reference|
    requires Loop(step, s, i, p).Err?
    ensures Loop(step, s, i, p).error == EmptyPercentile || Loop(step, s, i, p).error == TooFewBins
    decreases s.maxIterations - i
  {
    var o := step(i, p);
    if o.Continue? {
      LoopErrors(step, s, i + 1, o.next);
    }
  }

  /** A pass that breaks stops on a DEM whose valid differences `aligned - reference` have
      median exactly 0: the stop rule needs a valid NMAD, so some cell is valid in both grids,
      and the DEM it stops on is the debiased one. */
  lemma BreakCentred(s: Setup, i: int, p: Progress, q: Progress)
    requires |p.aligned| == |s.reference|
    requires q.aligned == Debias(p.aligned, s.reference)
    requires q.nmad == Some(Nmad(SubCells(s.reference, q.aligned))) && Stops(i, q.nmad.value, s.threshold)
    ensures NanMedian(SubCells(q.aligned, s.reference)) == Finite(0.0)
  {
    var d := SubCells(s.reference, q.aligned);
    NmadOfFiniteValues(d);
    var x := FiniteValues(d)[0];
    FiniteValuesMembers(d, x);
    var k :| 0 <= k < |d| && d[k] == Finite(x);
    assert q.aligned[k] == Sub(p.aligned[k], NanMedian(SubCells(p.aligned, s.reference)));
    DebiasCentres(p.aligned, s.reference, k);
  }

  /** A loop that stopped before using up its iterations stopped on a DEM whose valid
      differences `aligned - reference` have median exactly 0. */
  lemma {:induction false} StoppedCentred(step: (int, Progress) --> Outcome, s: Setup, i: int, p: Progress)
    requires Behaves(step, s) && |p.aligned| == |s.reference|
    requires 0 <= i == |p.estimates|
    requires Loop(step, s, i, p).Ok? && |Loop(step, s, i, p).value.estimates| < s.maxIterations
    ensures NanMedian(SubCells(Loop(step, s, i, p).value.aligned, s.reference)) == Finite(0.0)
    decreases s.maxIterations - i
  {
    if i < s.maxIterations {
      var o := step(i, p);
      if o.Break? {
        BreakCentred(s, i, p, o.stopped);
      } else if o.Continue? {
        StoppedCentred(step, s, i + 1, o.next);
      }
    }
  }

  // ---------------------------------------------------------------- outliers and deramping

  /** `np.abs(d - np.nanmedian(d)) > 3 * nmad`; every comparison with NaN is false. */
  predicate Outlier(x: Cell, median: Cell, nmad: Cell)
  {
    var dev := Sub(x, median);
    dev.Finite? && nmad.Finite? && Abs(dev.v) > 3.0 * nmad.v
  }

  /** The differences with every outlier set to NaN. */
  function Masked(d: seq<Cell>, nmad: Cell): (r: seq<Cell>)
    ensures |r| == |d|
  {
    var median := NanMedian(d);
    seq(|d|, k requires 0 <= k < |d| => if Outlier(d[k], median, nmad) then NonFinite else d[k])
  }

  /** `elevation_difference[... > 3 * nmad] = np.nan`, in place. */
  method MaskOutliers(d: array<Cell>, nmad: Cell)
    modifies d
    ensures d[..] == Masked(old(d[..]), nmad)
  {
    var median := NanMedian(d[..]);
    for k := 0 to d.Length
      invariant forall j :: 0 <= j < k ==> d[j] == if Outlier(old(d[j]), median, nmad) then NonFinite else old(d[j])
      invariant forall j :: k <= j < d.Length ==> d[j] == old(d[j])
    {
      if Outlier(d[k], median, nmad) {
        d[k] := NonFinite;
      }
    }
  }

  /** With the NMAD of the differences themselves, a valid cell survives the mask exactly when
      it lies within three NMADs of the median of the valid cells; invalid cells stay invalid and
      survivors are unchanged. */
  lemma MaskKeepsInliers(d: seq<Cell>, k: int)
    requires 0 <= k < |d|
    ensures d[k].Finite? ==>
      |FiniteValues(d)| > 0 && Nmad(d).Finite? &&
      (Masked(d, Nmad(d))[k].Finite? <==> Abs(d[k].v - Median(FiniteValues(d))) <= 3.0 * Nmad(d).v)
    ensures !d[k].Finite? ==> !Masked(d, Nmad(d))[k].Finite?
    ensures Masked(d, Nmad(d))[k].Finite? ==> Masked(d, Nmad(d))[k] == d[k]
  {
    if d[k].Finite? {
      FiniteValuesMembers(d, d[k].v);
      NmadOfFiniteValues(d);
    }
  }

  /** `np.meshgrid(np.arange(cols), np.arange(rows))`, flattened: cell `k` sits in column
      `k % cols` and row `k / cols`. */
  function ColumnCoordinates(n: nat, cols: nat): (xs: seq<real>)
    ensures |xs| == n
  {
    seq(n, k requires 0 <= k < n => if cols == 0 then 0.0 else (k % cols) as real)
  }

  function RowCoordinates(n: nat, cols: nat): (ys: seq<real>)
    ensures |ys| == n
  {
    seq(n, k requires 0 <= k < n => if cols == 0 then 0.0 else (k / cols) as real)
  }

  /** `aligned_dem - ramp(x_coordinates, y_coordinates)`. */
  function Deramped(aligned: seq<Cell>, ramp: Ramp, cols: nat): (r: seq<Cell>)
    requires ramp.Valid()
    ensures |r| == |aligned|
  {
    var xs := ColumnCoordinates(|aligned|, cols);
    var ys := RowCoordinates(|aligned|, cols);
    seq(|aligned|, k requires 0 <= k < |aligned| => Sub(aligned[k], Finite(RampAt(ramp, xs[k], ys[k]))))
  }

  /** `aligned_dem -= ramp(x_coordinates, y_coordinates)`, in place. */
  method SubtractRamp(a: array<Cell>, ramp: Ramp, cols: nat)
    requires ramp.Valid()
    modifies a
    ensures a[..] == Deramped(old(a[..]), ramp, cols)
  {
    var xs := ColumnCoordinates(a.Length, cols);
    var ys := RowCoordinates(a.Length, cols);
    for k := 0 to a.Length
      invariant forall j :: 0 <= j < k ==> a[j] == Sub(old(a[j]), Finite(RampAt(ramp, xs[j], ys[j])))
      invariant forall j :: k <= j < a.Length ==> a[j] == old(a[j])
    {
      a[k] := Sub(a[k], Finite(RampAt(ramp, xs[k], ys[k])));
    }
  }

  // ---------------------------------------------------------------- the whole run

  /** The aligned DEM (flattened, same shape as the reference) and its NMAD. */
  datatype Aligned = Aligned(dem: seq<Cell>, nmad: Cell)

  /** After the loop: the verbose report reads `nmad`, then the optional deramping, then the
      return reads it again. It fails only on the unbound `nmad` or on a deramping fit with too
      few samples, and keeps the DEM's shape. */
  function Finish(num: Routines, s: Setup, cols: nat, p: Progress, degree: Option<nat>, verbose: bool): (r: Result<Aligned, Error>)
    requires Sound(num) && s.Valid() && |p.aligned| == |s.reference|
    ensures r.Err? ==> r.error == NmadUnbound || r.error == TooFewResiduals
    ensures r.Ok? ==> |r.value.dem| == |p.aligned|
  {
    if verbose && p.nmad.None? then Err(NmadUnbound)
    else match degree
      case None => if p.nmad.None? then Err(NmadUnbound) else Ok(Aligned(p.aligned, p.nmad.value))
      case Some(d) =>
        var diff := SubCells(s.reference, p.aligned);
        var n := |diff|;
        match Deramping(num, Masked(diff, Nmad(diff)), ColumnCoordinates(n, cols), RowCoordinates(n, cols), d)
        case Err(e) => Err(e)
        case Ok(ramp) =>
          var dem := Deramped(p.aligned, ramp, cols);
          Ok(Aligned(dem, Nmad(SubCells(s.reference, dem))))
  }

  /** Before the loop: a copy of the DEM to align, zero offsets, `nmad` unbound, no estimates. */
  function Start(toAlign: Grid): Progress
  {
    Progress(toAlign.cells, 0.0, 0.0, None, [])
  }

  /** `amaury_coregister_dem` as a function of its inputs: the shape check, the slope and
      aspect (whose gradient refuses a DEM thinner than two cells), the two splines (which
      refuse fewer than four points along an axis), the loop and what follows it. The aligned
      DEM has the reference's shape, and `estimate_values` never raises during a run. */
  function Coregistration(num: Routines, reference: Grid, toAlign: Grid, maxIterations: int,
                          threshold: real, degree: Option<nat>, verbose: bool): (r: Result<Aligned, Error>)
    requires Sound(num) && reference.Valid() && toAlign.Valid()
    ensures r.Ok? ==> |r.value.dem| == |reference.cells|
    ensures r.Err? ==> r.error != BadCoefficientCount
  {
    if reference.rows != toAlign.rows || reference.cols != toAlign.cols then Err(ShapeMismatch)
    else if reference.rows < GradientMinCells || reference.cols < GradientMinCells then Err(GradientTooSmall)
    else if reference.rows <= SplineDegree || reference.cols <= SplineDegree then Err(SplineTooSmall)
    else
      var s := Setup(reference.cells, toAlign, Slopes(num, reference), Aspects(num, reference),
                     maxIterations, threshold);
      match Run(num, s, 0, Start(toAlign))
      case Err(e) => Err(e)
      case Ok(p) => Finish(num, s, reference.cols, p, degree, verbose)
  }

  /** One pass through the loop body on the working DEM `a`: on `break` the debiased DEM is
      left in `a`; otherwise the resampled DEM is returned in a fresh array `b`, with the new
      offsets. `o` is the outcome the pass stands for. */
  method Iterate(num: Routines, s: Setup, i: int, a: array<Cell>, east: real, north: real,
                 nmad: Option<Cell>, ghost estimates: seq<Shift>)
    returns (stop: bool, err: Option<Error>, m: Cell, b: array<Cell>, newEast: real, newNorth: real,
             ghost o: Outcome)
    requires Sound(num) && s.Valid() && a.Length == |s.reference|
    modifies a
    ensures o == Iteration(num, s, i, Progress(old(a[..]), east, north, nmad, estimates))
    ensures stop ==> o.Break? && o.stopped.aligned == a[..] && o.stopped.nmad == Some(m)
    ensures !stop && err.Some? ==> o == Raise(err.value)
    ensures !stop && err.None? ==>
      && o.Continue? && fresh(b) && o.next.aligned == b[..]
      && o.next.east == newEast && o.next.north == newNorth && o.next.nmad == Some(m)
  {
    ghost var p := Progress(a[..], east, north, nmad, estimates);
    o := Iteration(num, s, i, p);
    IterationCases(num, s, i, p);
    b := a;
    newEast, newNorth := east, north;
    err := None;
    RemoveBias(a, s.reference);
    var diff := SubCells(s.reference, a[..]);
    m := Nmad(diff);
    stop := Stops(i, m, s.threshold);
    if stop {
      return;
    }
    var r := HorizontalShift(num, diff, s.slope, s.aspect, MinCount);
    if r.Err? {
      err := Some(r.error);
      return;
    }
    newEast := east + r.value.east;
    newNorth := north + r.value.north;
    b := Resample(num, s.original, newEast, newNorth);
    AdvanceTo(num, s, p, m, r.value, newEast, newNorth);
  }

  /** After the loop, on the working DEM `a`, which the deramping changes in place. */
  method Conclude(num: Routines, s: Setup, cols: nat, a: array<Cell>, east: real, north: real,
                  nmad: Option<Cell>, ghost estimates: seq<Shift>, degree: Option<nat>, verbose: bool)
    returns (r: Result<Aligned, Error>)
    requires Sound(num) && s.Valid() && a.Length == |s.reference|
    modifies a
    ensures r == Finish(num, s, cols, Progress(old(a[..]), east, north, nmad, estimates), degree, verbose)
  {
    if verbose && nmad.None? {
      return Err(NmadUnbound);
    }
    if degree.None? {
      if nmad.None? {
        return Err(NmadUnbound);
      }
      return Ok(Aligned(a[..], nmad.value));
    }
    var n := a.Length;
    var current := a[..];
    var diff := new Cell[n](k requires 0 <= k < n => Sub(s.reference[k], current[k]));
    assert diff[..] == SubCells(s.reference, current);
    MaskOutliers(diff, Nmad(diff[..]));
    var ramp := Deramping(num, diff[..], ColumnCoordinates(n, cols), RowCoordinates(n, cols), degree.value);
    if ramp.Err? {
      return Err(ramp.error);
    }
    SubtractRamp(a, ramp.value, cols);
    r := Ok(Aligned(a[..], Nmad(SubCells(s.reference, a[..]))));
  }

  /** `amaury_coregister_dem`. */
  method Coregister(num: Routines, reference: Grid, toAlign: Grid, maxIterations: int,
                    threshold: real, degree: Option<nat>, verbose: bool) returns (r: Result<Aligned, Error>)
    requires Sound(num) && reference.Valid() && toAlign.Valid()
    ensures r == Coregistration(num, reference, toAlign, maxIterations, threshold, degree, verbose)
  {
    var aligned := new Cell[|toAlign.cells|](k requires 0 <= k < |toAlign.cells| => toAlign.cells[k]);
    if reference.rows != toAlign.rows || reference.cols != toAlign.cols {
      return Err(ShapeMismatch);
    }
    if reference.rows < GradientMinCells || reference.cols < GradientMinCells {
      return Err(GradientTooSmall);
    }
    var slope, aspect := SlopeAndAspect(num, reference);
    if reference.rows <= SplineDegree || reference.cols <= SplineDegree {
      return Err(SplineTooSmall);
    }
    var s := Setup(reference.cells, toAlign, slope, aspect, maxIterations, threshold);
    var east, north := 0.0, 0.0;
    var nmad: Option<Cell> := None;
    ghost var outcome := Run(num, s, 0, Start(toAlign));
    ghost var state := Start(toAlign);
    var i := 0;
    assert aligned[..] == toAlign.cells;
    while i < maxIterations
      invariant fresh(aligned) && aligned.Length == |reference.cells|
      invariant state.aligned == aligned[..] && state.east == east && state.north == north && state.nmad == nmad
      invariant outcome == Run(num, s, i, state)
      decreases maxIterations - i
    {
      RunStep(num, s, i, state);
      var stop, err, m, next, newEast, newNorth, o := Iterate(num, s, i, aligned, east, north, nmad, state.estimates);
      nmad := Some(m);
      if stop {
        state := o.stopped;
        break;
      }
      if err.Some? {
        return Err(err.value);
      }
      state := o.next;
      east, north := newEast, newNorth;
      aligned := next;
      i := i + 1;
    }
    RunStep(num, s, i, state);
    assert outcome == Ok(state);
    r := Conclude(num, s, reference.cols, aligned, east, north, nmad, state.estimates, degree, verbose);
  }

  // ---------------------------------------------------------------- properties of the run

  /** The shapes must agree; no later step fails with this error. */
  lemma ShapeCheck(num: Routines, reference: Grid, toAlign: Grid, maxIterations: int,
                   threshold: real, degree: Option<nat>, verbose: bool)
    requires Sound(num) && reference.Valid() && toAlign.Valid()
    ensures Coregistration(num, reference, toAlign, maxIterations, threshold, degree, verbose) == Err(ShapeMismatch)
      <==> reference.rows != toAlign.rows || reference.cols != toAlign.cols
  {
  }

  /** `np.gradient` needs two cells along each axis and the cubic spline four: with equal
      shapes, a thinner DEM is refused before the loop, and nothing else fails that way. */
  lemma SmallGridRefused(num: Routines, reference: Grid, toAlign: Grid, maxIterations: int,
                         threshold: real, degree: Option<nat>, verbose: bool)
    requires Sound(num) && reference.Valid() && toAlign.Valid()
    requires reference.rows == toAlign.rows && reference.cols == toAlign.cols
    ensures var r := Coregistration(num, reference, toAlign, maxIterations, threshold, degree, verbose);
      && (r == Err(GradientTooSmall) <==> reference.rows < 2 || reference.cols < 2)
      && (r == Err(SplineTooSmall) <==>
            2 <= reference.rows && 2 <= reference.cols && (reference.rows < 4 || reference.cols < 4))
  {
  }

  /** With no iteration at all, `nmad` is never assigned before it is read by the verbose report
      or by the return without deramping: exactly then the run fails on the unbound name. */
  lemma NoIterationNmadUnbound(num: Routines, reference: Grid, toAlign: Grid, maxIterations: int,
                               threshold: real, degree: Option<nat>, verbose: bool)
    requires Sound(num) && reference.Valid() && toAlign.Valid()
    requires reference.rows == toAlign.rows && reference.cols == toAlign.cols
    requires maxIterations <= 0
    ensures Coregistration(num, reference, toAlign, maxIterations, threshold, degree, verbose) == Err(NmadUnbound)
      <==> 4 <= reference.rows && 4 <= reference.cols && (verbose || degree.None?)
  {
  }

  /** A successful run with at least one iteration returns a DEM of the reference's shape,
      whose offsets are the sums of the estimates and which ran every iteration unless it met
      the stop rule after iteration 5, on a DEM whose valid differences from the reference have
      median 0. */
  lemma RunSummary(num: Routines, reference: Grid, toAlign: Grid, maxIterations: int, threshold: real)
    requires Sound(num) && reference.Valid() && toAlign.Valid()
    requires reference.rows == toAlign.rows && reference.cols == toAlign.cols
    requires maxIterations > 0
    ensures
      var s := Setup(reference.cells, toAlign, Slopes(num, reference), Aspects(num, reference),
                     maxIterations, threshold);
      Run(num, s, 0, Start(toAlign)).Ok? ==>
        var q := Run(num, s, 0, Start(toAlign)).value;
        |q.aligned| == |reference.cells|
        && q.east == SumEast(q.estimates) && q.north == SumNorth(q.estimates)
        && q.nmad.Some?
        && (|q.estimates| == maxIterations
            || (5 < |q.estimates| < maxIterations
                && q.nmad.value == Nmad(SubCells(reference.cells, q.aligned))
                && q.nmad.value.Finite? && q.nmad.value.v < threshold
                && NanMedian(SubCells(q.aligned, reference.cells)) == Finite(0.0)))
  {
    var s := Setup(reference.cells, toAlign, Slopes(num, reference), Aspects(num, reference),
                   maxIterations, threshold);
    if Run(num, s, 0, Start(toAlign)).Ok? {
      BodyBehaves(num, s);
      OffsetsAreSums(Body(num, s), s, 0, Start(toAlign));
      StopRule(Body(num, s), s, 0, Start(toAlign));
      if |Run(num, s, 0, Start(toAlign)).value.estimates| < maxIterations {
        StoppedCentred(Body(num, s), s, 0, Start(toAlign));
      }
    }
  }
}
