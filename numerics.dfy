/** The grid type of `DemUtils/coreg.py` and the floating-point library routines it calls
    (NumPy, SciPy), which the model takes as given functions instead of computing them. */
module Numerics {
  import opened Wrappers
  import opened Floats

  /** A 2-D elevation grid of `rows` x `cols` cells, flattened row by row as NumPy does. */
  datatype Grid = Grid(rows: nat, cols: nat, cells: seq<Cell>)
  {
    ghost predicate Valid()
    {
      |cells| == rows * cols
    }
  }

  /** The ways a coregistration run fails. */
  datatype Error =
    | ShapeMismatch        // `assert reference_dem.shape == aligned_dem.shape`
    | GradientTooSmall     // `np.gradient` along an axis of fewer than two cells
    | SplineTooSmall       // a cubic `RectBivariateSpline` on fewer than four points along an axis
    | EmptyPercentile      // `np.percentile` of an array with no element
    | TooFewBins           // "Less than 10 different cells exist."
    | TooFewResiduals      // MINPACK refuses fewer residuals than parameters
    | BadCoefficientCount  // `estimate_values`: coefficient count is not (d+1)(d+2)/2
    | NmadUnbound          // `nmad` read after a loop that never ran

  /** Library routines the model does not compute:
      - `sqrt`, `sin`, `cos`, `arctan`: `np.sqrt`, `np.sin`, `np.cos`, `np.arctan`;
      - `gradient(g)`: `np.gradient(g)` as the pair (d/d row, d/d column);
      - `spline(g, dr, dc)`: a `RectBivariateSpline` fitted to `g` and evaluated on the grid
        points shifted by `dr` rows and `dc` columns;
      - `leastsq(f, x0)`: the parameters `scipy.optimize.leastsq` returns for residuals `f` from `x0`;
      - `randint(lo, hi, n)`: the `n` integers `np.random.randint(lo, hi, n)` draws. */
  datatype Routines = Routines(
    sqrt: real -> real,
    sin: real -> real,
    cos: real -> real,
    arctan: real -> real,
    gradient: Grid -> (seq<Cell>, seq<Cell>),
    spline: (Grid, real, real) -> seq<Cell>,
    leastsq: (seq<real> --> seq<real>, seq<real>) -> seq<real>,
    randint: (int, int, nat) -> seq<int>)

  /** What the model relies on about those routines: a true square root, the closed range of
      arctan (the double nearest pi/2 is returned for large arguments), output shapes, and
      `randint`'s half-open range. */
  ghost predicate Sound(num: Routines)
  {
    && IsSqrt(num.sqrt)
    && (forall x :: -Pi / 2.0 <= num.arctan(x) <= Pi / 2.0)
    && (forall g: Grid :: |num.gradient(g).0| == |g.cells| && |num.gradient(g).1| == |g.cells|)
    && (forall g: Grid, dr, dc :: |num.spline(g, dr, dc)| == |g.cells|)
    && (forall f, x0 :: |num.leastsq(f, x0)| == |x0|)
    && (forall lo, hi, n :: lo < hi ==> |num.randint(lo, hi, n)| == n)
    && (forall lo, hi, n, k :: lo < hi && 0 <= k < n ==>
          lo <= num.randint(lo, hi, n)[k] < hi)
  }

  /** The fit returns as many parameters as it was seeded with. */
  lemma LeastSqShape(num: Routines, f: seq<real> --> seq<real>, x0: seq<real>)
    requires Sound(num)
    ensures |num.leastsq(f, x0)| == |x0|
  {
  }

  /** `scipy.optimize.leastsq(func, x0)`: MINPACK raises a TypeError when `func` returns fewer
      residuals than there are parameters; otherwise the fitted parameters. */
  function LeastSq(num: Routines, f: seq<real> --> seq<real>, x0: seq<real>): (r: Result<seq<real>, Error>)
    requires f.requires(x0)
    ensures r.Err? <==> |f(x0)| < |x0|
    ensures r.Ok? ==> r.value == num.leastsq(f, x0)
  {
    if |f(x0)| < |x0| then Err(TooFewResiduals) else Ok(num.leastsq(f, x0))
  }
}
