/** The argument checks and the multi-range schedule of `sample_multirange_variogram` in
    `xdem/spatialstats.py`: which inputs raise `TypeError`, the list of ranges at which the
    variogram is sampled, and the disk or ring radii used for each range. */
module MultiRange {
  import opened Wrappers

  // ---------------------------------------------------------------- argument validation

  /** The `values` argument: a (masked) NumPy array with its dimension count after
      `squeeze`, or anything else. */
  datatype Values = Array(ndim: nat) | NotArray

  /** The shape `(rows, cols)` of a two-dimensional coordinate array. */
  datatype Shape = Shape(rows: nat, cols: nat)

  /** Each check raises `TypeError`; the constructors follow the order of the checks. */
  datatype ArgError =
    | NotAnArray        // "Values must be of type np.ndarray, ..."
    | NeedsTwoDims      // "Values array must be 2D when providing ground sampling distance, ..."
    | NeedsOneDim       // "Values array must be 1D when providing coordinates."
    | BadCoordsShape    // "The coordinates array must have one dimension with length equal to 2"
    | UnknownMethod     // "The subsampling method must be one of ..."

  predicate IsMethod(sampling: string)
  {
    sampling in ["random_point", "random_disk", "random_ring"]
  }

  predicate UsesDisks(sampling: string)
  {
    sampling in ["random_disk", "random_ring"]
  }

  /** The checks at the top of `sample_multirange_variogram`, in the order they are made. */
  function ValidateArgs(values: Values, gsdGiven: bool, coords: Option<Shape>, sampling: string)
    : (r: Result<(), ArgError>)
    ensures r.Ok? ==> values.Array? && IsMethod(sampling)
    ensures r.Ok? && (gsdGiven || UsesDisks(sampling)) ==> values.ndim != 1
    ensures r.Ok? && coords.Some? ==> values.ndim == 1 && (coords.value.rows == 2 || coords.value.cols == 2)
  {
    if values.NotArray? then Err(NotAnArray)
    else if (gsdGiven || UsesDisks(sampling)) && values.ndim == 1 then Err(NeedsTwoDims)
    else if coords.Some? && values.ndim != 1 then Err(NeedsOneDim)
    else if coords.Some? && (coords.value.rows != 2 && coords.value.cols != 2) then Err(BadCoordsShape)
    else if !IsMethod(sampling) then Err(UnknownMethod)
    else Ok(())
  }

  /** Every consistent combination is accepted: an array, a known method, a grid of more than
      one dimension when a ground sampling distance or disks are used, and one-dimensional
      values beside coordinates having a dimension of length 2. */
  lemma ConsistentArgsAccepted(values: Values, gsdGiven: bool, coords: Option<Shape>, sampling: string)
    requires values.Array? && IsMethod(sampling)
    requires gsdGiven || UsesDisks(sampling) ==> values.ndim != 1
    requires coords.Some? ==> values.ndim == 1 && (coords.value.rows == 2 || coords.value.cols == 2)
    ensures ValidateArgs(values, gsdGiven, coords, sampling) == Ok(())
  {
  }

  /** The checks come in order: a one-dimensional array with a ground sampling distance is
      reported as such even when the method name and the coordinates are wrong too, and an
      unknown method is only reported once the shapes are consistent. */
  lemma ValidationOrder(ndim: nat, gsdGiven: bool, coords: Option<Shape>, sampling: string)
    ensures ndim == 1 && gsdGiven ==> ValidateArgs(Array(ndim), gsdGiven, coords, sampling) == Err(NeedsTwoDims)
    ensures ValidateArgs(Array(ndim), gsdGiven, coords, sampling) == Err(UnknownMethod) ==>
              !IsMethod(sampling) && (gsdGiven ==> ndim != 1) && (coords.Some? ==> ndim == 1)
  {
  }

  // ---------------------------------------------------------------- the default ranges

  /** `start` doubled `k` times. */
  function Doubled(start: real, k: nat): real
  {
    if k == 0 then start else 2.0 * Doubled(start, k - 1)
  }

  /** `rs` is the schedule for `gsd` and `maxlag`: it starts at `10 * gsd` and doubles while the
      value is below `maxlag / 2`, then ends with `maxlag` itself. */
  predicate IsSchedule(rs: seq<real>, gsd: real, maxlag: real)
  {
    && |rs| >= 1
    && rs[|rs| - 1] == maxlag
    && (forall k :: 0 <= k < |rs| - 1 ==> rs[k] == Doubled(10.0 * gsd, k) && rs[k] < maxlag / 2.0)
    && Doubled(10.0 * gsd, |rs| - 1) >= maxlag / 2.0
  }

  /** The `while` loop that builds the default `multi_ranges`. */
  method DefaultRanges(gsd: real, maxlag: real) returns (ranges: seq<real>)
    requires gsd > 0.0
    ensures IsSchedule(ranges, gsd, maxlag)
  {
    ranges := [];
    var newRange := gsd * 10.0;
    ghost var start, half := 10.0 * gsd, maxlag / 2.0;
    ghost var steps := EnoughDoublings(start, half);
    while newRange < maxlag / 2.0
      invariant |ranges| <= steps
      invariant newRange == Doubled(start, |ranges|)
      invariant forall k :: 0 <= k < |ranges| ==> ranges[k] == Doubled(start, k) && ranges[k] < half
      decreases steps - |ranges|
    {
      FewerDoublings(start, |ranges|, steps);
      ranges := ranges + [newRange];
      newRange := newRange * 2.0;
    }
    ranges := ranges + [maxlag];
  }

  lemma {:induction false} DoubledAboveCount(start: real, k: nat)
    requires start > 0.0
    ensures Doubled(start, k) >= start * (k + 1) as real
  {
    if k > 0 {
      DoubledAboveCount(start, k - 1);
    }
  }

  lemma {:induction false} DoubledMonotone(start: real, j: nat, k: nat)
    requires start > 0.0 && j <= k
    ensures 0.0 < Doubled(start, j) <= Doubled(start, k)
  {
    if j < k {
      DoubledMonotone(start, j, k - 1);
    } else {
      DoubledPositive(start, j);
    }
  }

  lemma {:induction false} DoubledPositive(start: real, k: nat)
    requires start > 0.0
    ensures Doubled(start, k) > 0.0
  {
    if k > 0 {
      DoubledPositive(start, k - 1);
    }
  }

  /** Some number of doublings of a positive start reaches any limit. */
  lemma EnoughDoublings(start: real, half: real) returns (n: nat)
    requires start > 0.0
    ensures half <= Doubled(start, n)
  {
    n := if half <= 0.0 then 0 else (half / start).Floor;
    DoubledAboveCount(start, n);
    assert (half / start) * start == half;
    assert (half / start) <= (n + 1) as real;
  }

  /** A value still below the limit has taken fewer doublings than the limit needs. */
  lemma FewerDoublings(start: real, j: nat, n: nat)
    requires start > 0.0 && Doubled(start, j) < Doubled(start, n)
    ensures j < n
  {
    if n <= j {
      DoubledMonotone(start, n, j);
    }
  }

  /** The schedule is determined by `gsd` and `maxlag`. */
  lemma ScheduleUnique(rs: seq<real>, ts: seq<real>, gsd: real, maxlag: real)
    requires IsSchedule(rs, gsd, maxlag) && IsSchedule(ts, gsd, maxlag)
    ensures rs == ts
  {
    // the shorter one would reach `maxlag / 2` where the longer one is still below it
    if |rs| < |ts| {
      ScheduleBelowHalf(ts, gsd, maxlag, |rs| - 1);
    } else if |ts| < |rs| {
      ScheduleBelowHalf(rs, gsd, maxlag, |ts| - 1);
    }
  }

  lemma ScheduleBelowHalf(rs: seq<real>, gsd: real, maxlag: real, j: nat)
    requires IsSchedule(rs, gsd, maxlag) && j < |rs| - 1
    ensures Doubled(10.0 * gsd, j) < maxlag / 2.0
  {
    assert rs[j] == Doubled(10.0 * gsd, j);
  }

  /** With a positive ground sampling distance the ranges strictly increase. */
  lemma ScheduleIncreasing(rs: seq<real>, gsd: real, maxlag: real, k: nat)
    requires gsd > 0.0 && IsSchedule(rs, gsd, maxlag) && k + 1 < |rs|
    ensures 0.0 < rs[k] < rs[k + 1]
  {
    DoubledMonotone(10.0 * gsd, k, k);
  }

  // ---------------------------------------------------------------- radii per range

  /** The outer radius for range `i`: the range plus five ground sampling distances. */
  function OuterRadius(ranges: seq<real>, gsd: real, i: nat): real
    requires i < |ranges|
  {
    ranges[i] + 5.0 * gsd
  }

  /** The inner radius for range `i`: for rings, the previous range (0 for the first one);
      disks have none. */
  function InnerRadius(ranges: seq<real>, ring: bool, i: nat): Option<real>
    requires i < |ranges|
  {
    if ring then Some(if i == 0 then 0.0 else ranges[i - 1]) else None
  }

  /** The `for` loop over `[0] + multi_ranges` that fills the two radius lists. */
  method RadiusLists(ranges: seq<real>, gsd: real, ring: bool) returns (inside: seq<Option<real>>, outside: seq<Option<real>>)
    ensures |inside| == |ranges| && |outside| == |ranges|
    ensures forall i :: 0 <= i < |ranges| ==> inside[i] == InnerRadius(ranges, ring, i) && outside[i] == Some(OuterRadius(ranges, gsd, i))
  {
    inside, outside := [], [];
    var binned := [0.0] + ranges;
    for i := 0 to |binned| - 1
      invariant |inside| == i && |outside| == i
      invariant forall k :: 0 <= k < i ==> inside[k] == InnerRadius(ranges, ring, k) && outside[k] == Some(OuterRadius(ranges, gsd, k))
    {
      var outsideRadius := binned[i + 1] + 5.0 * gsd;
      var insideRadius := if ring then Some(binned[i]) else None;
      outside := outside + [Some(outsideRadius)];
      inside := inside + [insideRadius];
    }
  }

  /** With a non-negative ground sampling distance, the rings leave no gap: every distance from
      0 up to the last outer radius falls in some ring, whatever the ranges. */
  lemma RingsCover(ranges: seq<real>, gsd: real, d: real)
    requires gsd >= 0.0 && |ranges| >= 1
    requires 0.0 <= d < OuterRadius(ranges, gsd, |ranges| - 1)
    ensures exists i :: 0 <= i < |ranges| && InnerRadius(ranges, true, i).value <= d < OuterRadius(ranges, gsd, i)
  {
    RingsCoverFrom(ranges, gsd, d, 0);
  }

  lemma {:induction false} RingsCoverFrom(ranges: seq<real>, gsd: real, d: real, i: nat)
    requires gsd >= 0.0 && i < |ranges|
    requires InnerRadius(ranges, true, i).value <= d < OuterRadius(ranges, gsd, |ranges| - 1)
    ensures exists k :: i <= k < |ranges| && InnerRadius(ranges, true, k).value <= d < OuterRadius(ranges, gsd, k)
    decreases |ranges| - i
  {
    if d >= OuterRadius(ranges, gsd, i) {
      RingsCoverFrom(ranges, gsd, d, i + 1);
    }
  }

  /** Consecutive rings overlap by five ground sampling distances. */
  lemma RingsOverlap(ranges: seq<real>, gsd: real, i: nat)
    requires i + 1 < |ranges|
    ensures OuterRadius(ranges, gsd, i) - InnerRadius(ranges, true, i + 1).value == 5.0 * gsd
  {
  }

  // ---------------------------------------------------------------- the schedule

  /** The ranges and radius lists `sample_multirange_variogram` iterates over: for disks and
      rings, the given ranges or the default schedule, with their radii; for random points, the
      single range `maxlag` and no radii. */
  method Schedule(sampling: string, gsd: real, maxlag: real, multiRanges: Option<seq<real>>)
    returns (ranges: seq<real>, inside: seq<Option<real>>, outside: seq<Option<real>>)
    requires UsesDisks(sampling) && multiRanges.None? ==> gsd > 0.0
    ensures UsesDisks(sampling) && multiRanges.Some? ==> ranges == multiRanges.value
    ensures UsesDisks(sampling) && multiRanges.None? ==> IsSchedule(ranges, gsd, maxlag)
    ensures UsesDisks(sampling) ==> |inside| == |ranges| && |outside| == |ranges|
    ensures UsesDisks(sampling) ==> forall i :: 0 <= i < |ranges| ==>
              inside[i] == InnerRadius(ranges, sampling == "random_ring", i) && outside[i] == Some(OuterRadius(ranges, gsd, i))
    ensures !UsesDisks(sampling) ==> ranges == [maxlag] && inside == [None] && outside == [None]
  {
    if UsesDisks(sampling) {
      if multiRanges.None? {
        ranges := DefaultRanges(gsd, maxlag);
      } else {
        ranges := multiRanges.value;
      }
      inside, outside := RadiusLists(ranges, gsd, sampling == "random_ring");
    } else {
      ranges, inside, outside := [maxlag], [None], [None];
    }
  }
}
