/** The deramping step of `DemUtils/coreg.py` (`deramping` and its `estimate_values`):
    a 2-D polynomial of degree `d` whose coefficients are laid out triangle by triangle,
    coefficient `k (k + 1) / 2 + j` multiplying `x^(k - j) * y^j`. */
module Deramp {
  import opened Wrappers
  import opened Floats
  import opened Numerics

  // ---------------------------------------------------------------- coefficient layout

  /** `(degree + 1) * (degree + 2) / 2`: the number of coefficients of a degree-`d` polynomial. */
  function NumCoefficients(d: nat): nat
  {
    (d + 1) * (d + 2) / 2
  }

  /** `k * (k + 1) // 2 + j`: where the coefficient of `x^(k - j) * y^j` sits. */
  function Index(k: nat, j: nat): nat
  {
    k * (k + 1) / 2 + j
  }

  /** Number of coefficients in the first `k` triangle rows, counted row by row. */
  function Tri(k: nat): nat
  {
    if k == 0 then 0 else Tri(k - 1) + k
  }

  lemma {:induction false} TriClosedForm(k: nat)
    ensures Tri(k) == k * (k + 1) / 2
  {
    if k > 0 {
      TriClosedForm(k - 1);
      assert k * (k + 1) == (k - 1) * k + 2 * k;
    }
  }

  lemma {:induction false} TriMonotone(a: nat, b: nat)
    requires a <= b
    ensures Tri(a) <= Tri(b)
  {
    if a < b {
      TriMonotone(a, b - 1);
    }
  }

  /** Row `k` of the triangle occupies the indices `Tri(k) .. Tri(k) + k`. */
  lemma IndexInRow(k: nat, j: nat)
    requires j <= k
    ensures Index(k, j) == Tri(k) + j
    ensures Tri(k) <= Index(k, j) < Tri(k + 1)
  {
    TriClosedForm(k);
  }

  lemma NumCoefficientsIsTri(d: nat)
    ensures NumCoefficients(d) == Tri(d + 1)
  {
    TriClosedForm(d + 1);
  }

  /** Row `k` and position `j` in the row: the coefficient of `x^(k - j) * y^j`. */
  datatype Slot = Slot(k: nat, j: nat)

  /** The slot after `s` in the order the coefficients are stored: along the row, then on to
      the start of the next row. */
  function NextSlot(s: Slot): Slot
  {
    if s.j < s.k then Slot(s.k, s.j + 1) else Slot(s.k + 1, 0)
  }

  /** The slot stored at index `n`. */
  function Unflatten(n: nat): (s: Slot)
    ensures s.j <= s.k
  {
    if n == 0 then Slot(0, 0) else NextSlot(Unflatten(n - 1))
  }

  /** Index `n` is position `j` of row `k`, `Tri(k) + j`, for the slot `(k, j)` it reads back as. */
  lemma {:induction false} UnflattenSpec(n: nat)
    ensures Tri(Unflatten(n).k) + Unflatten(n).j == n
  {
    if n > 0 {
      UnflattenSpec(n - 1);
    }
  }

  /** Rows are disjoint ranges: different pairs `j <= k` never meet at `Tri(k) + j`. */
  lemma RowsDisjoint(k1: nat, j1: nat, k2: nat, j2: nat)
    requires j1 <= k1 && j2 <= k2
    requires Tri(k1) + j1 == Tri(k2) + j2
    ensures k1 == k2 && j1 == j2
  {
    if k1 < k2 {
      TriMonotone(k1 + 1, k2);
    } else if k2 < k1 {
      TriMonotone(k2 + 1, k1);
    }
  }

  /** Different exponent pairs never share an index. */
  lemma IndexInjective(k1: nat, j1: nat, k2: nat, j2: nat)
    requires j1 <= k1 && j2 <= k2
    requires Index(k1, j1) == Index(k2, j2)
    ensures k1 == k2 && j1 == j2
  {
    IndexInRow(k1, j1);
    IndexInRow(k2, j2);
    RowsDisjoint(k1, j1, k2, j2);
  }

  /** Index `n = Tri(k) + j` reads back as row `k`, position `j`. */
  lemma UnflattenRow(k: nat, j: nat, n: nat)
    requires j <= k && n == Tri(k) + j
    ensures Unflatten(n) == Slot(k, j)
  {
    var s := Unflatten(n);
    UnflattenSpec(n);
    RowsDisjoint(s.k, s.j, k, j);
  }

  /** Reading an index back gives the exponent pair it was written from, and every index is
      written from the pair it reads back as. */
  lemma UnflattenIndex(k: nat, j: nat, n: nat)
    requires j <= k
    ensures Unflatten(Index(k, j)) == Slot(k, j)
    ensures Index(Unflatten(n).k, Unflatten(n).j) == n
  {
    IndexInRow(k, j);
    UnflattenRow(k, j, Index(k, j));
    IndexInRow(Unflatten(n).k, Unflatten(n).j);
    UnflattenSpec(n);
  }

  /** The layout maps the pairs `0 <= j <= k <= d` one-to-one onto `0 .. NumCoefficients(d) - 1`:
      every such pair lands in range, and every index in range comes from such a pair. */
  lemma LayoutIsBijection(d: nat)
    ensures forall k: nat, j: nat :: j <= k <= d ==> Index(k, j) < NumCoefficients(d)
    ensures forall n: nat :: n < NumCoefficients(d) ==> Unflatten(n).k <= d
  {
    NumCoefficientsIsTri(d);
    forall k: nat, j: nat | j <= k <= d
      ensures Index(k, j) < NumCoefficients(d)
    {
      IndexInRow(k, j);
      TriMonotone(k + 1, d + 1);
    }
    forall n: nat | n < NumCoefficients(d)
      ensures Unflatten(n).k <= d
    {
      var k := Unflatten(n).k;
      UnflattenSpec(n);
      if k > d {
        TriMonotone(d + 1, k);
      }
    }
  }

  // ---------------------------------------------------------------- the polynomial

  function Pow(x: real, e: nat): real
  {
    if e == 0 then 1.0 else x * Pow(x, e - 1)
  }

  /** `x^(k - j) * y^j`. */
  function Monomial(k: nat, j: nat, x: real, y: real): real
    requires j <= k
  {
    Pow(x, k - j) * Pow(y, j)
  }

  /** `c[k(k+1)/2 + j] * x^(k - j) * y^j`, the index written as `Tri(k) + j` (`IndexInRow`). */
  function Term(c: seq<real>, k: nat, j: nat, x: real, y: real): real
    requires j <= k && Tri(k + 1) <= |c|
  {
    c[Tri(k) + j] * Monomial(k, j, x, y)
  }

  /** The terms `j = 0 .. m - 1` of row `k`. */
  function RowSum(c: seq<real>, k: nat, m: nat, x: real, y: real): real
    requires m <= k + 1 && Tri(k + 1) <= |c|
  {
    if m == 0 then 0.0 else RowSum(c, k, m - 1, x, y) + Term(c, k, m - 1, x, y)
  }

  /** The rows `k = 0 .. rows - 1`. */
  function PolySum(c: seq<real>, rows: nat, x: real, y: real): real
    requires Tri(rows) <= |c|
  {
    if rows == 0 then 0.0
    else
      TriMonotone(rows - 1, rows);
      PolySum(c, rows - 1, x, y) + RowSum(c, rows - 1, rows, x, y)
  }

  /** The polynomial of degree `d` at one point, once the coefficient count is right. */
  function Poly(c: seq<real>, d: nat, x: real, y: real): real
    requires |c| == NumCoefficients(d)
  {
    NumCoefficientsIsTri(d);
    PolySum(c, d + 1, x, y)
  }

  /** `estimate_values` at one point: a `ValueError` unless there are exactly
      `(d + 1)(d + 2) / 2` coefficients. */
  function EstimateValue(c: seq<real>, d: nat, x: real, y: real): (r: Result<real, Error>)
    ensures r.Err? <==> |c| != NumCoefficients(d)
    ensures r.Ok? ==> r.value == Poly(c, d, x, y)
  {
    if |c| != NumCoefficients(d) then Err(BadCoefficientCount) else Ok(Poly(c, d, x, y))
  }

  /** A plane: for degree 1 the layout is `c0 + c1 * x + c2 * y`. */
  lemma DegreeOnePlane(c: seq<real>, x: real, y: real)
    requires |c| == 3
    ensures EstimateValue(c, 1, x, y) == Ok(c[0] + c[1] * x + c[2] * y)
  {
    assert Tri(1) == 1 && Tri(2) == 3;
    assert Pow(x, 1) == x && Pow(y, 1) == y;
    assert Monomial(0, 0, x, y) == 1.0;
    assert Monomial(1, 0, x, y) == x;
    assert Monomial(1, 1, x, y) == y;
    assert Term(c, 0, 0, x, y) == c[0];
    assert Term(c, 1, 0, x, y) == c[1] * x;
    assert Term(c, 1, 1, x, y) == c[2] * y;
    assert RowSum(c, 0, 1, x, y) == c[0];
    assert PolySum(c, 1, x, y) == c[0];
    assert RowSum(c, 1, 1, x, y) == c[1] * x;
    assert RowSum(c, 1, 2, x, y) == c[1] * x + c[2] * y;
  }

  /** The polynomial reads its coefficients in index order: summed over the flat array,
      index `n` contributes the monomial of the pair `Unflatten(n)`. */
  function FlatSum(c: seq<real>, n: nat, x: real, y: real): real
    requires n <= |c|
  {
    if n == 0 then 0.0 else FlatSum(c, n - 1, x, y) + FlatTerm(c, n - 1, x, y)
  }

  /** Coefficient `n` times the monomial of the pair `Unflatten(n)`. */
  function FlatTerm(c: seq<real>, n: nat, x: real, y: real): real
    requires n < |c|
  {
    var s := Unflatten(n);
    c[n] * Monomial(s.k, s.j, x, y)
  }

  lemma {:induction false} FlatSumOfRow(c: seq<real>, k: nat, m: nat, x: real, y: real)
    requires m <= k + 1 && Tri(k + 1) <= |c|
    ensures Tri(k) + m <= |c|
    ensures FlatSum(c, Tri(k) + m, x, y) == FlatSum(c, Tri(k), x, y) + RowSum(c, k, m, x, y)
  {
    if m > 0 {
      var n := Tri(k) + (m - 1);
      FlatSumOfRow(c, k, m - 1, x, y);
      FlatSumStep(c, k, m - 1, n, x, y);
      assert n + 1 == Tri(k) + m;
    }
  }

  /** The flat index `Tri(k) + j` contributes exactly the term `(k, j)`. */
  lemma FlatSumStep(c: seq<real>, k: nat, j: nat, n: nat, x: real, y: real)
    requires j <= k && Tri(k + 1) <= |c| && n == Tri(k) + j
    ensures n + 1 <= |c|
    ensures FlatSum(c, n + 1, x, y) == FlatSum(c, n, x, y) + Term(c, k, j, x, y)
  {
    FlatTermAt(c, k, j, n, x, y);
    assert FlatSum(c, n + 1, x, y) == FlatSum(c, n, x, y) + FlatTerm(c, n, x, y);
  }

  lemma FlatTermAt(c: seq<real>, k: nat, j: nat, n: nat, x: real, y: real)
    requires j <= k && Tri(k + 1) <= |c| && n == Tri(k) + j
    ensures n < |c|
    ensures FlatTerm(c, n, x, y) == Term(c, k, j, x, y)
  {
    UnflattenRow(k, j, n);
  }

  lemma {:induction false} FlatSumOfRows(c: seq<real>, rows: nat, x: real, y: real)
    requires Tri(rows) <= |c|
    ensures FlatSum(c, Tri(rows), x, y) == PolySum(c, rows, x, y)
  {
    if rows > 0 {
      TriMonotone(rows - 1, rows);
      FlatSumOfRows(c, rows - 1, x, y);
      FlatSumOfRow(c, rows - 1, rows, x, y);
    }
  }

  /** The polynomial is the sum, over every stored coefficient, of that coefficient times the
      monomial its index stands for. */
  lemma PolyIsFlatSum(c: seq<real>, d: nat, x: real, y: real)
    requires |c| == NumCoefficients(d)
    ensures Poly(c, d, x, y) == FlatSum(c, |c|, x, y)
  {
    NumCoefficientsIsTri(d);
    FlatSumOfRows(c, d + 1, x, y);
  }

  lemma {:induction false} FlatSumOfZeros(c: seq<real>, n: nat, x: real, y: real)
    requires n <= |c|
    requires forall i :: 0 <= i < |c| ==> c[i] == 0.0
    ensures FlatSum(c, n, x, y) == 0.0
  {
    if n > 0 {
      FlatSumOfZeros(c, n - 1, x, y);
    }
  }

  /** All-zero coefficients, the initial guess of the fit, give the zero ramp. */
  lemma ZeroCoefficients(c: seq<real>, d: nat, x: real, y: real)
    requires |c| == NumCoefficients(d)
    requires forall i :: 0 <= i < |c| ==> c[i] == 0.0
    ensures Poly(c, d, x, y) == 0.0
  {
    PolyIsFlatSum(c, d, x, y);
    FlatSumOfZeros(c, |c|, x, y);
  }

  // ---------------------------------------------------------------- samples

  /** A valid sample: coordinates and a finite elevation difference. */
  datatype Point = Point(x: real, y: real, z: real)

  /** The cells whose difference is finite, with their coordinates, in grid order. */
  function ValidPoints(diff: seq<Cell>, xs: seq<real>, ys: seq<real>): (pts: seq<Point>)
    requires |diff| == |xs| == |ys|
    ensures |pts| <= |diff|
  {
    if diff == [] then []
    else
      (if diff[0].Finite? then [Point(xs[0], ys[0], diff[0].v)] else [])
      + ValidPoints(diff[1..], xs[1..], ys[1..])
  }

  lemma {:induction false} ValidPointsMembers(diff: seq<Cell>, xs: seq<real>, ys: seq<real>, p: Point)
    requires |diff| == |xs| == |ys|
    ensures p in ValidPoints(diff, xs, ys) <==>
      exists k :: 0 <= k < |diff| && diff[k] == Finite(p.z) && xs[k] == p.x && ys[k] == p.y
  {
    if diff != [] {
      ValidPointsMembers(diff[1..], xs[1..], ys[1..], p);
      if p in ValidPoints(diff[1..], xs[1..], ys[1..]) {
        var k :| 0 <= k < |diff| - 1 && diff[1..][k] == Finite(p.z) && xs[1..][k] == p.x && ys[1..][k] == p.y;
        assert diff[k + 1] == Finite(p.z) && xs[k + 1] == p.x && ys[k + 1] == p.y;
      }
      if exists k :: 0 <= k < |diff| && diff[k] == Finite(p.z) && xs[k] == p.x && ys[k] == p.y {
        var k :| 0 <= k < |diff| && diff[k] == Finite(p.z) && xs[k] == p.x && ys[k] == p.y;
        if k > 0 {
          assert diff[1..][k - 1] == Finite(p.z) && xs[1..][k - 1] == p.x && ys[1..][k - 1] == p.y;
        }
      }
    }
  }

  /** Subsampling starts above this many valid samples. */
  const MaxSamples: nat := 500000

  /** `np.random.randint(0, n - 1, 500_000)`: the upper bound is exclusive, so index `n - 1`
      is never drawn. */
  function SampleIndices(num: Routines, n: nat): (idx: seq<int>)
    requires Sound(num)
    requires n > MaxSamples
    ensures |idx| == MaxSamples
    ensures forall i :: 0 <= i < |idx| ==> 0 <= idx[i] <= n - 2
  {
    num.randint(0, n - 1, MaxSamples)
  }

  /** The samples handed to the fit: all of them up to 500 000, otherwise 500 000 drawn ones. */
  function Subsample(num: Routines, pts: seq<Point>): (r: seq<Point>)
    requires Sound(num)
    ensures |pts| <= MaxSamples ==> r == pts
    ensures |pts| > MaxSamples ==> |r| == MaxSamples
    ensures forall i :: 0 <= i < |r| ==> r[i] in pts
  {
    if |pts| <= MaxSamples then pts
    else
      var idx := SampleIndices(num, |pts|);
      seq(MaxSamples, i requires 0 <= i < MaxSamples => pts[idx[i]])
  }

  /** With more than 500 000 samples the last valid sample is never drawn: only a copy of it
      elsewhere in the list can reach the fit. */
  lemma LastSampleNeverDrawn(num: Routines, pts: seq<Point>)
    requires Sound(num)
    requires |pts| > MaxSamples
    requires forall i :: 0 <= i < |pts| - 1 ==> pts[i] != pts[|pts| - 1]
    ensures pts[|pts| - 1] !in Subsample(num, pts)
  {
    var r := Subsample(num, pts);
    var idx := SampleIndices(num, |pts|);
    forall i | 0 <= i < |r|
      ensures r[i] != pts[|pts| - 1]
    {
      assert r[i] == pts[idx[i]];
    }
  }

  // ---------------------------------------------------------------- the fit

  /** `residuals`: estimated minus measured value at every sample. Every sample is finite, so
      the source's `np.isfinite` filter on the residuals keeps all of them. */
  function Residuals(c: seq<real>, d: nat, pts: seq<Point>): (err: seq<real>)
    requires |c| == NumCoefficients(d)
    ensures |err| == |pts|
    ensures forall i :: 0 <= i < |pts| ==> err[i] + pts[i].z == Poly(c, d, pts[i].x, pts[i].y)
  {
    seq(|pts|, i requires 0 <= i < |pts| => Poly(c, d, pts[i].x, pts[i].y) - pts[i].z)
  }

  /** The fitted ramp: `ramp(x, y)` evaluates the polynomial with the fitted coefficients. */
  datatype Ramp = Ramp(degree: nat, coefficients: seq<real>)
  {
    ghost predicate Valid()
    {
      |coefficients| == NumCoefficients(degree)
    }
  }

  function RampAt(ramp: Ramp, x: real, y: real): (r: real)
    requires ramp.Valid()
    ensures EstimateValue(ramp.coefficients, ramp.degree, x, y) == Ok(r)
  {
    Poly(ramp.coefficients, ramp.degree, x, y)
  }

  /** `np.zeros((degree + 1) * (degree + 2) // 2)`, the initial guess of the fit: the zero ramp
      (`ZeroCoefficients`). */
  function ZeroGuess(d: nat): (g: seq<real>)
    ensures |g| == NumCoefficients(d)
    ensures forall i :: 0 <= i < |g| ==> g[i] == 0.0
  {
    seq(NumCoefficients(d), _ => 0.0)
  }

  /** The residual function handed to `leastsq`: the coefficients of a degree-`d` polynomial
      to its residuals at the samples. */
  function DerampFit(d: nat, pts: seq<Point>): seq<real> --> seq<real>
  {
    c requires |c| == NumCoefficients(d) => Residuals(c, d, pts)
  }

  /** `deramping`: fit the polynomial to the (subsampled) valid differences from an all-zero guess.
      MINPACK refuses fewer samples than coefficients; otherwise the ramp carries the coefficients
      `leastsq` returns. */
  function Deramping(num: Routines, diff: seq<Cell>, xs: seq<real>, ys: seq<real>, d: nat): (r: Result<Ramp, Error>)
    requires Sound(num)
    requires |diff| == |xs| == |ys|
    ensures r.Err? <==> |Subsample(num, ValidPoints(diff, xs, ys))| < NumCoefficients(d)
    ensures r.Err? ==> r.error == TooFewResiduals
    ensures r.Ok? ==> r.value.degree == d && r.value.Valid()
    ensures r.Ok? ==>
      r.value.coefficients == num.leastsq(DerampFit(d, Subsample(num, ValidPoints(diff, xs, ys))), ZeroGuess(d))
  {
    var pts := Subsample(num, ValidPoints(diff, xs, ys));
    var guess := ZeroGuess(d);
    var f := DerampFit(d, pts);
    match LeastSq(num, f, guess)
    case Err(e) => Err(e)
    case Ok(c) =>
      LeastSqShape(num, f, guess);
      Ok(Ramp(d, c))
  }
}
