/** The Nuth and Kaab (2011) horizontal-shift estimator of `DemUtils/coreg.py`:
    `calculate_slope_and_aspect` and `get_horizontal_shift`. */
module NuthKaab {
  import opened Wrappers
  import opened Floats
  import opened Stats
  import opened Numerics

  // ---------------------------------------------------------------- slope and aspect

  /** `np.sqrt(gradient_x ** 2 + gradient_y ** 2)` at one cell. */
  function SlopeAt(num: Routines, gx: Cell, gy: Cell): Cell
  {
    if gx.Finite? && gy.Finite? then Finite(num.sqrt(gx.v * gx.v + gy.v * gy.v)) else NonFinite
  }

  /** `np.arctan(-gradient_x) + np.pi` at one cell. The second argument the source passes to
      `np.arctan` is its output buffer, so the y-gradient plays no part in the angle. */
  function AspectAt(num: Routines, gx: Cell): Cell
  {
    if gx.Finite? then Finite(num.arctan(-gx.v) + Pi) else NonFinite
  }

  /** The slope map of a grid. */
  function Slopes(num: Routines, dem: Grid): (slope: seq<Cell>)
    requires Sound(num)
    ensures |slope| == |dem.cells|
  {
    var g := num.gradient(dem);
    seq(|dem.cells|, k requires 0 <= k < |dem.cells| => SlopeAt(num, g.1[k], g.0[k]))
  }

  /** The aspect map of a grid. */
  function Aspects(num: Routines, dem: Grid): (aspect: seq<Cell>)
    requires Sound(num)
    ensures |aspect| == |dem.cells|
  {
    var g := num.gradient(dem);
    seq(|dem.cells|, k requires 0 <= k < |dem.cells| => AspectAt(num, g.1[k]))
  }

  /** `calculate_slope_and_aspect`: the arctangent is written into the y-gradient buffer
      (`out=`), which is then shifted by pi in place and returned as the aspect. */
  method SlopeAndAspect(num: Routines, dem: Grid) returns (slope: seq<Cell>, aspect: seq<Cell>)
    requires Sound(num)
    ensures slope == Slopes(num, dem) && aspect == Aspects(num, dem)
  {
    var (gradientY, gradientX) := num.gradient(dem);
    var n := |dem.cells|;
    slope := Slopes(num, dem);
    var buffer := new Cell[n](k requires 0 <= k < n => gradientY[k]);
    for k := 0 to n
      invariant forall j :: 0 <= j < k ==>
        buffer[j] == if gradientX[j].Finite? then Finite(num.arctan(-gradientX[j].v)) else NonFinite
    {
      buffer[k] := if gradientX[k].Finite? then Finite(num.arctan(-gradientX[k].v)) else NonFinite;
    }
    for k := 0 to n
      invariant forall j :: 0 <= j < k ==> buffer[j] == AspectAt(num, gradientX[j])
      invariant forall j :: k <= j < n ==>
        buffer[j] == if gradientX[j].Finite? then Finite(num.arctan(-gradientX[j].v)) else NonFinite
    {
      buffer[k] := if buffer[k].Finite? then Finite(buffer[k].v + Pi) else NonFinite;
    }
    aspect := buffer[..];
  }

  /** Every valid aspect lies between pi/2 and 3 pi/2, both included, and it is valid exactly
      where the x-gradient is finite. */
  lemma AspectRange(num: Routines, dem: Grid, k: int)
    requires Sound(num)
    requires 0 <= k < |dem.cells|
    ensures Aspects(num, dem)[k].Finite? <==> num.gradient(dem).1[k].Finite?
    ensures Aspects(num, dem)[k].Finite? ==> Pi / 2.0 <= Aspects(num, dem)[k].v <= 3.0 * Pi / 2.0
  {
  }

  /** A valid slope is the Euclidean norm of the two gradients: never negative, with
      slope^2 = gx^2 + gy^2; it is valid exactly where both gradients are finite. */
  lemma SlopeIsNorm(num: Routines, dem: Grid, k: int)
    requires Sound(num)
    requires 0 <= k < |dem.cells|
    ensures Slopes(num, dem)[k].Finite? <==> num.gradient(dem).0[k].Finite? && num.gradient(dem).1[k].Finite?
    ensures Slopes(num, dem)[k].Finite? ==>
      var gx, gy := num.gradient(dem).1[k].v, num.gradient(dem).0[k].v;
      Slopes(num, dem)[k].v >= 0.0 && Slopes(num, dem)[k].v * Slopes(num, dem)[k].v == gx * gx + gy * gy
  {
    var g := num.gradient(dem);
    if g.0[k].Finite? && g.1[k].Finite? {
      var sum := g.1[k].v * g.1[k].v + g.0[k].v * g.0[k].v;
      assert sum >= 0.0;
    }
  }

  // ---------------------------------------------------------------- samples and outliers

  /** One (aspect, elevation difference / slope) pair. */
  datatype Sample = Sample(x: real, y: real)

  /** Hard cap on |y|, against near-zero slopes. */
  const YCap: real := 200.0

  /** The pairs with a finite aspect and a finite `elevation_difference / slope`, in grid order. */
  function FinitePairs(diff: seq<Cell>, slope: seq<Cell>, aspect: seq<Cell>): (s: seq<Sample>)
    requires |diff| == |slope| == |aspect|
    ensures |s| <= |diff|
  {
    if diff == [] then []
    else
      var y := Div(diff[0], slope[0]);
      (if aspect[0].Finite? && y.Finite? then [Sample(aspect[0].v, y.v)] else [])
      + FinitePairs(diff[1..], slope[1..], aspect[1..])
  }

  function Ys(s: seq<Sample>): (ys: seq<real>)
    ensures |ys| == |s| && forall i :: 0 <= i < |s| ==> ys[i] == s[i].y
  {
    seq(|s|, i requires 0 <= i < |s| => s[i].y)
  }

  /** `(y > lower) & (y < upper) & (np.abs(y) < 200)`. */
  predicate Inlier(y: real, lower: real, upper: real)
  {
    lower < y && y < upper && Abs(y) < YCap
  }

  function KeepInliers(s: seq<Sample>, lower: real, upper: real): (r: seq<Sample>)
    ensures |r| <= |s|
  {
    if s == [] then []
    else (if Inlier(s[0].y, lower, upper) then [s[0]] else []) + KeepInliers(s[1..], lower, upper)
  }

  /** The samples kept by the outlier filter: those strictly between the 1st and 99th
      percentiles of y and with |y| < 200. */
  function Kept(s: seq<Sample>): (r: seq<Sample>)
    requires |s| > 0
  {
    var ys := Ys(s);
    KeepInliers(s, Percentile(ys, 1.0), Percentile(ys, 99.0))
  }

  /** A pair enters the estimator exactly when some cell has that finite aspect and that
      finite slope-normalised difference. */
  lemma {:induction false} FinitePairsMembers(diff: seq<Cell>, slope: seq<Cell>, aspect: seq<Cell>, p: Sample)
    requires |diff| == |slope| == |aspect|
    ensures p in FinitePairs(diff, slope, aspect) <==>
      exists k :: 0 <= k < |diff| && aspect[k] == Finite(p.x) && Div(diff[k], slope[k]) == Finite(p.y)
  {
    if diff != [] {
      FinitePairsMembers(diff[1..], slope[1..], aspect[1..], p);
      if p in FinitePairs(diff[1..], slope[1..], aspect[1..]) {
        var k :| 0 <= k < |diff| - 1 && aspect[1..][k] == Finite(p.x)
                 && Div(diff[1..][k], slope[1..][k]) == Finite(p.y);
        assert aspect[k + 1] == Finite(p.x) && Div(diff[k + 1], slope[k + 1]) == Finite(p.y);
      }
      if exists k :: 0 <= k < |diff| && aspect[k] == Finite(p.x) && Div(diff[k], slope[k]) == Finite(p.y) {
        var k :| 0 <= k < |diff| && aspect[k] == Finite(p.x) && Div(diff[k], slope[k]) == Finite(p.y);
        if k > 0 {
          assert aspect[1..][k - 1] == Finite(p.x) && Div(diff[1..][k - 1], slope[1..][k - 1]) == Finite(p.y);
        }
      }
    }
  }

  /** The outlier filter keeps exactly the samples that pass the strict test. */
  lemma {:induction false} KeepInliersMembers(s: seq<Sample>, lower: real, upper: real, p: Sample)
    ensures p in KeepInliers(s, lower, upper) <==> p in s && Inlier(p.y, lower, upper)
  {
    if s != [] {
      KeepInliersMembers(s[1..], lower, upper, p);
      assert s == [s[0]] + s[1..];
    }
  }

  /** The smallest and the largest y never survive: the 1st percentile is at least the smallest
      value and the 99th at most the largest, and the comparisons are strict. */
  lemma ExtremesDropped(s: seq<Sample>, i: int)
    requires 0 <= i < |s|
    requires (forall j :: 0 <= j < |s| ==> s[i].y <= s[j].y) || (forall j :: 0 <= j < |s| ==> s[j].y <= s[i].y)
    ensures s[i] in s && !Inlier(s[i].y, Percentile(Ys(s), 1.0), Percentile(Ys(s), 99.0))
  {
    var ys := Ys(s);
    if forall j :: 0 <= j < |s| ==> s[i].y <= s[j].y {
      PercentileAtLeast(ys, 1.0, s[i].y);
    } else {
      PercentileAtMost(ys, 99.0, s[i].y);
    }
  }

  // ---------------------------------------------------------------- aspect bins

  /** `np.arange(0, 2 * np.pi, np.pi / 36)` has 72 left edges. */
  const NumBins: nat := 72
  const Step: real := Pi / 36.0

  function Edge(i: int): real
  {
    i as real * Step
  }

  /** `(bound < x) & (x < bound + step)`: open on both sides. */
  predicate InBin(x: real, i: int)
  {
    Edge(i) < x && x < Edge(i) + Step
  }

  /** `y_values[(bound < x_values) & (x_values < bound + step)]`. */
  function BinSlice(s: seq<Sample>, i: int): (ys: seq<real>)
    ensures |ys| <= |s|
  {
    if s == [] then []
    else (if InBin(s[0].x, i) then [s[0].y] else []) + BinSlice(s[1..], i)
  }

  /** A bin's median; 0 for an empty bin, which keeps its `np.zeros` entry. */
  function BinMedian(s: seq<Sample>, i: int): real
  {
    var ys := BinSlice(s, i);
    if |ys| > 0 then Median(ys) else 0.0
  }

  /** The loop of `get_horizontal_shift` that fills `y_medians` and `count`. */
  method BinByAspect(kept: seq<Sample>) returns (medians: array<real>, counts: array<int>)
    ensures medians.Length == NumBins && counts.Length == NumBins
    ensures forall i :: 0 <= i < NumBins ==> medians[i] == BinMedian(kept, i)
    ensures forall i :: 0 <= i < NumBins ==> counts[i] == |BinSlice(kept, i)|
  {
    medians := new real[NumBins](_ => 0.0);
    counts := new int[NumBins](_ => 0);
    for i := 0 to NumBins
      invariant forall j :: 0 <= j < i ==> medians[j] == BinMedian(kept, j) && counts[j] == |BinSlice(kept, j)|
      invariant forall j :: i <= j < NumBins ==> medians[j] == 0.0
    {
      var ySlice := BinSlice(kept, i);
      if |ySlice| > 0 {
        medians[i] := Median(ySlice);
      }
      counts[i] := |ySlice|;
    }
  }

  /** Consecutive edges are one step apart. */
  lemma EdgeNext(i: int)
    ensures Edge(i) + Step == Edge(i + 1)
  {
  }

  /** Edges grow with the bin index. */
  lemma {:induction false} EdgeMonotone(i: int, j: int)
    requires i <= j
    ensures Edge(i) <= Edge(j)
    decreases j - i
  {
    if i < j {
      EdgeNext(i);
      EdgeMonotone(i + 1, j);
    }
  }

  /** A sample lying exactly on a bin edge falls in no bin. */
  lemma EdgeInNoBin(k: int, i: int)
    ensures !InBin(Edge(k), i)
  {
    EdgeNext(i);
    if k <= i {
      EdgeMonotone(k, i);
    } else {
      EdgeMonotone(i + 1, k);
    }
  }

  /** Bins do not overlap. */
  lemma BinsDisjoint(x: real, i: int, j: int)
    requires i < j && InBin(x, i)
    ensures !InBin(x, j)
  {
    EdgeNext(i);
    EdgeMonotone(i + 1, j);
  }

  /** Every valid aspect lies in [pi/2, 3 pi/2], whose ends are the edges of bins 18 and 54,
      so only bins 18 to 53 can hold samples. */
  lemma OnlyMiddleBinsFilled(x: real, i: int)
    requires Pi / 2.0 <= x <= 3.0 * Pi / 2.0
    requires InBin(x, i)
    ensures 18 <= i <= 53
  {
    EdgeNext(i);
    if i < 18 {
      EdgeMonotone(i + 1, 18);
    }
    if i > 53 {
      EdgeMonotone(54, i);
    }
  }

  /** Number of bins among the first `m` that contain `x`. */
  function Hits(x: real, m: nat): nat
  {
    if m == 0 then 0 else Hits(x, m - 1) + (if InBin(x, m - 1) then 1 else 0)
  }

  lemma {:induction false} NoHitsBelow(x: real, m: nat)
    requires forall i :: 0 <= i < m ==> !InBin(x, i)
    ensures Hits(x, m) == 0
  {
    if m > 0 {
      NoHitsBelow(x, m - 1);
    }
  }

  lemma {:induction false} HitsAtMostOne(x: real, m: nat)
    ensures Hits(x, m) <= 1
  {
    if m > 0 {
      if InBin(x, m - 1) {
        forall i | 0 <= i < m - 1 ensures !InBin(x, i) {
          if InBin(x, i) {
            BinsDisjoint(x, i, m - 1);
          }
        }
        NoHitsBelow(x, m - 1);
      } else {
        HitsAtMostOne(x, m - 1);
      }
    }
  }

  /** Sum of the counts of the first `m` bins. */
  function TotalCount(s: seq<Sample>, m: nat): nat
  {
    if m == 0 then 0 else TotalCount(s, m - 1) + |BinSlice(s, m - 1)|
  }

  lemma {:induction false} TotalCountFirst(s: seq<Sample>, m: nat)
    requires s != []
    ensures TotalCount(s, m) == TotalCount(s[1..], m) + Hits(s[0].x, m)
  {
    if m > 0 {
      TotalCountFirst(s, m - 1);
    }
  }

  /** The bin counts add up to at most the number of kept samples. */
  lemma {:induction false} CountsBounded(s: seq<Sample>, m: nat)
    ensures TotalCount(s, m) <= |s|
  {
    if s == [] {
      assert TotalCount(s, m) == 0 by { TotalCountEmpty(m); }
    } else {
      TotalCountFirst(s, m);
      HitsAtMostOne(s[0].x, m);
      CountsBounded(s[1..], m);
    }
  }

  lemma {:induction false} TotalCountEmpty(m: nat)
    ensures TotalCount([], m) == 0
  {
    if m > 0 {
      TotalCountEmpty(m - 1);
    }
  }

  // ---------------------------------------------------------------- surviving bins and the fit

  /** The bins among the first `m` whose count is strictly above `minCount`, in order:
      `count > min_count`. */
  function Survivors(counts: seq<int>, minCount: int, m: nat): (bins: seq<nat>)
    requires m <= |counts|
    ensures |bins| <= m
    ensures forall j :: 0 <= j < |bins| ==> bins[j] < m && counts[bins[j]] > minCount
  {
    if m == 0 then []
    else Survivors(counts, minCount, m - 1) + (if counts[m - 1] > minCount then [m - 1] else [])
  }

  /** A bin survives exactly when its count is above the minimum. */
  lemma {:induction false} SurvivorsExactly(counts: seq<int>, minCount: int, m: nat, i: nat)
    requires m <= |counts|
    ensures i in Survivors(counts, minCount, m) <==> i < m && counts[i] > minCount
  {
    if m > 0 {
      SurvivorsExactly(counts, minCount, m - 1, i);
    }
  }

  /** Sum of the first `m` counts. */
  function SumCounts(counts: seq<int>, m: nat): int
    requires m <= |counts|
  {
    if m == 0 then 0 else SumCounts(counts, m - 1) + counts[m - 1]
  }

  /** Each surviving bin holds more than `minCount` samples, so the survivors among the first
      `m` bins account for at least `|survivors| * (minCount + 1)` of the counted samples. */
  lemma {:induction false} SurvivorsNeedSamples(counts: seq<int>, minCount: nat, m: nat)
    requires m <= |counts|
    requires forall i :: 0 <= i < |counts| ==> counts[i] >= 0
    ensures |Survivors(counts, minCount, m)| * (minCount + 1) <= SumCounts(counts, m)
  {
    if m > 0 {
      SurvivorsNeedSamples(counts, minCount, m - 1);
      var c := minCount + 1;
      var before := |Survivors(counts, minCount, m - 1)|;
      if counts[m - 1] > minCount {
        assert (before + 1) * c == before * c + c;
      }
    }
  }

  lemma {:induction false} SumOfBinCounts(s: seq<Sample>, counts: seq<int>, m: nat)
    requires m <= |counts|
    requires forall i :: 0 <= i < |counts| ==> counts[i] == |BinSlice(s, i)|
    ensures SumCounts(counts, m) == TotalCount(s, m)
  {
    if m > 0 {
      SumOfBinCounts(s, counts, m - 1);
      assert counts[m - 1] == |BinSlice(s, m - 1)|;
    }
  }

  /** Fewer than `10 * (min_count + 1)` kept samples can never fill 10 bins. */
  lemma TooFewSamplesRefused(s: seq<Sample>, counts: seq<int>, minCount: nat)
    requires |s| < 10 * (minCount + 1)
    requires forall i :: 0 <= i < |counts| ==> counts[i] == |BinSlice(s, i)|
    ensures |Survivors(counts, minCount, |counts|)| < 10
  {
    var m := |counts|;
    SurvivorsNeedSamples(counts, minCount, m);
    SumOfBinCounts(s, counts, m);
    CountsBounded(s, m);
    FewerThanTen(|Survivors(counts, minCount, m)|, minCount + 1, SumCounts(counts, m));
  }

  lemma FewerThanTen(k: nat, c: nat, total: int)
    requires k * c <= total < 10 * c
    ensures k < 10
  {
  }

  /** `y(x) = a * cos(b - x) + c` against the measured y: `estimate_ys(x) - y`. */
  function CosineResiduals(num: Routines, p: seq<real>, xs: seq<real>, ys: seq<real>): (err: seq<real>)
    requires |p| >= 3 && |xs| == |ys|
    ensures |err| == |xs|
  {
    seq(|xs|, i requires 0 <= i < |xs| => p[0] * num.cos(p[1] - xs[i]) + p[2] - ys[i])
  }

  /** The estimate: east and north offsets and the vertical bias `c`. */
  datatype Shift = Shift(east: real, north: real, bias: real)

  /** `slice_bounds[count > min_count]`: the left edges of the surviving bins, in bin order. */
  function SurvivingEdges(counts: seq<int>, minCount: int): (edges: seq<real>)
    requires |counts| == NumBins
    ensures |edges| == |Survivors(counts, minCount, NumBins)|
  {
    var bins := Survivors(counts, minCount, NumBins);
    seq(|bins|, j requires 0 <= j < |bins| => Edge(bins[j]))
  }

  /** `y_medians[count > min_count]`: the medians of the surviving bins, in bin order. */
  function SurvivingMedians(medians: seq<real>, counts: seq<int>, minCount: int): (meds: seq<real>)
    requires |medians| == NumBins && |counts| == NumBins
    ensures |meds| == |Survivors(counts, minCount, NumBins)|
  {
    var bins := Survivors(counts, minCount, NumBins);
    seq(|bins|, j requires 0 <= j < |bins| => medians[bins[j]])
  }

  /** `(3 * np.std(y_medians) / (2 ** 0.5), 0.0, np.mean(y_medians))`: the fit starts from phase 0
      and from the mean of the surviving medians as the vertical bias. */
  function InitialGuess(num: Routines, meds: seq<real>): (g: seq<real>)
    requires Sound(num) && |meds| > 0
    ensures |g| == 3 && g[1] == 0.0 && g[2] == Mean(meds)
  {
    [3.0 * num.sqrt(Variance(meds)) / num.sqrt(2.0), 0.0, Mean(meds)]
  }

  /** `residuals(parameters, y_medians, slice_bounds)` as the function `leastsq` minimises. */
  function CosineFit(num: Routines, edges: seq<real>, meds: seq<real>): seq<real> --> seq<real>
    requires |edges| == |meds|
  {
    q requires |q| >= 3 => CosineResiduals(num, q, edges, meds)
  }

  /** What remains after binning: keep the bins with `count > min_count`, refuse fewer than 10,
      fit the cosine from the initial guess and turn (a, b) into `(a sin b, a cos b)`. */
  function FitBins(num: Routines, medians: seq<real>, counts: seq<int>, minCount: int): (r: Result<Shift, Error>)
    requires Sound(num)
    requires |medians| == NumBins && |counts| == NumBins
    ensures r.Err? <==> |Survivors(counts, minCount, NumBins)| < 10
    ensures r.Err? ==> r.error == TooFewBins
    ensures r.Ok? ==>
      var meds := SurvivingMedians(medians, counts, minCount);
      |meds| >= 10 &&
      var p := num.leastsq(CosineFit(num, SurvivingEdges(counts, minCount), meds), InitialGuess(num, meds));
      |p| == 3 && r.value == Shift(p[0] * num.sin(p[1]), p[0] * num.cos(p[1]), p[2])
  {
    if |Survivors(counts, minCount, NumBins)| < 10 then Err(TooFewBins)
    else
      var meds := SurvivingMedians(medians, counts, minCount);
      var f := CosineFit(num, SurvivingEdges(counts, minCount), meds);
      var guess := InitialGuess(num, meds);
      var p := num.leastsq(f, guess);
      assert |p| == 3 by { LeastSqShape(num, f, guess); }
      Ok(Shift(p[0] * num.sin(p[1]), p[0] * num.cos(p[1]), p[2]))
  }

  /** `get_horizontal_shift` as a function of its inputs. */
  function ShiftSpec(num: Routines, diff: seq<Cell>, slope: seq<Cell>, aspect: seq<Cell>, minCount: int): (r: Result<Shift, Error>)
    requires Sound(num)
    requires |diff| == |slope| == |aspect|
    ensures r.Err? ==> r.error == EmptyPercentile || r.error == TooFewBins
  {
    var pairs := FinitePairs(diff, slope, aspect);
    if |pairs| == 0 then Err(EmptyPercentile)
    else
      var kept := Kept(pairs);
      FitBins(num,
              seq(NumBins, i requires 0 <= i < NumBins => BinMedian(kept, i)),
              seq(NumBins, i requires 0 <= i < NumBins => |BinSlice(kept, i)|),
              minCount)
  }

  /** `get_horizontal_shift`. */
  method HorizontalShift(num: Routines, diff: seq<Cell>, slope: seq<Cell>, aspect: seq<Cell>, minCount: int)
    returns (r: Result<Shift, Error>)
    requires Sound(num)
    requires |diff| == |slope| == |aspect|
    ensures r == ShiftSpec(num, diff, slope, aspect, minCount)
    ensures r.Err? <==>
      var pairs := FinitePairs(diff, slope, aspect);
      |pairs| == 0 ||
      |Survivors(seq(NumBins, i requires 0 <= i < NumBins => |BinSlice(Kept(pairs), i)|), minCount, NumBins)| < 10
  {
    var pairs := FinitePairs(diff, slope, aspect);
    if |pairs| == 0 {
      return Err(EmptyPercentile);
    }
    var kept := Kept(pairs);
    var medians, counts := BinByAspect(kept);
    assert medians[..] == seq(NumBins, i requires 0 <= i < NumBins => BinMedian(kept, i));
    assert counts[..] == seq(NumBins, i requires 0 <= i < NumBins => |BinSlice(kept, i)|);
    r := FitBins(num, medians[..], counts[..], minCount);
  }

  /** Too few valid pairs for the minimum bin count: no shift is estimated. */
  lemma FewPairsGiveNoShift(num: Routines, diff: seq<Cell>, slope: seq<Cell>, aspect: seq<Cell>, minCount: nat)
    requires Sound(num)
    requires |diff| == |slope| == |aspect|
    requires |FinitePairs(diff, slope, aspect)| < 10 * (minCount + 1)
    ensures ShiftSpec(num, diff, slope, aspect, minCount).Err?
  {
    var pairs := FinitePairs(diff, slope, aspect);
    if |pairs| > 0 {
      var kept := Kept(pairs);
      TooFewSamplesRefused(kept, seq(NumBins, i requires 0 <= i < NumBins => |BinSlice(kept, i)|), minCount);
    }
  }
}
