/** Order statistics used by the coregistration: `np.median`, `np.nanmedian`,
    `np.percentile` (linear interpolation), `np.mean` and the population variance
    behind `np.std`, all over exact reals. */
module Stats {
  import opened Floats

  ghost predicate Sorted(s: seq<real>)
  {
    forall i, j :: 0 <= i < j < |s| ==> s[i] <= s[j]
  }

  /** Inserts `x` before the first element not below it. */
  function Insert(x: real, s: seq<real>): (r: seq<real>)
    ensures |r| == |s| + 1
  {
    if s == [] then [x]
    else if x <= s[0] then [x] + s
    else [s[0]] + Insert(x, s[1..])
  }

  /** Insertion sort. */
  function Sort(s: seq<real>): (r: seq<real>)
    ensures |r| == |s|
  {
    if s == [] then [] else Insert(s[0], Sort(s[1..]))
  }

  /** Inserting adds exactly `x`. */
  lemma {:induction false} InsertMultiset(x: real, s: seq<real>)
    ensures multiset(Insert(x, s)) == multiset(s) + multiset{x}
  {
    if s != [] && x > s[0] {
      assert s == [s[0]] + s[1..];
      InsertMultiset(x, s[1..]);
    }
  }

  /** A lower bound of `x` and of `s` bounds every element after the insertion. */
  lemma {:induction false} InsertAbove(x: real, s: seq<real>, lo: real)
    requires lo <= x
    requires forall i :: 0 <= i < |s| ==> lo <= s[i]
    ensures forall i :: 0 <= i < |Insert(x, s)| ==> lo <= Insert(x, s)[i]
  {
    if s != [] && x > s[0] {
      InsertAbove(x, s[1..], lo);
    }
  }

  /** Inserting into a sorted sequence keeps it sorted. */
  lemma {:induction false} InsertSorted(x: real, s: seq<real>)
    requires Sorted(s)
    ensures Sorted(Insert(x, s))
  {
    if s != [] && x > s[0] {
      InsertSorted(x, s[1..]);
      InsertAbove(x, s[1..], s[0]);
    }
  }

  lemma InsertSpec(x: real, s: seq<real>)
    requires Sorted(s)
    ensures multiset(Insert(x, s)) == multiset(s) + multiset{x}
    ensures Sorted(Insert(x, s))
  {
    InsertMultiset(x, s);
    InsertSorted(x, s);
  }

  /** The sort returns the sorted permutation of its input. */
  lemma {:induction false} SortSpec(s: seq<real>)
    ensures multiset(Sort(s)) == multiset(s)
    ensures Sorted(Sort(s))
  {
    if s != [] {
      assert s == [s[0]] + s[1..];
      SortSpec(s[1..]);
      InsertSpec(s[0], Sort(s[1..]));
    }
  }

  /** The head of a sorted sequence is its least element. */
  lemma SortedHeadIsLeast(a: seq<real>, x: real)
    requires Sorted(a) && x in multiset(a)
    ensures a[0] <= x
  {
    var i :| 0 <= i < |a| && a[i] == x;
  }

  /** A sorted sequence is determined by its multiset of elements. */
  lemma {:induction false} SortedUnique(a: seq<real>, b: seq<real>)
    requires Sorted(a) && Sorted(b)
    requires multiset(a) == multiset(b)
    ensures a == b
  {
    assert |a| == |multiset(a)| == |multiset(b)| == |b|;
    if a != [] {
      assert a == [a[0]] + a[1..];
      assert b == [b[0]] + b[1..];
      SortedHeadIsLeast(a, b[0]);
      SortedHeadIsLeast(b, a[0]);
      TailsPermuted(a, b);
      SortedTail(a);
      SortedTail(b);
      SortedUnique(a[1..], b[1..]);
    }
  }

  lemma TailsPermuted(a: seq<real>, b: seq<real>)
    requires |a| > 0 && |b| > 0 && a[0] == b[0]
    requires multiset(a) == multiset(b)
    ensures multiset(a[1..]) == multiset(b[1..])
  {
    MultisetTail(a);
    MultisetTail(b);
  }

  lemma MultisetTail(a: seq<real>)
    requires |a| > 0
    ensures multiset(a[1..]) == multiset(a) - multiset{a[0]}
  {
    assert a == [a[0]] + a[1..];
  }

  lemma SortedTail(a: seq<real>)
    requires |a| > 0 && Sorted(a)
    ensures Sorted(a[1..])
  {
  }

  lemma MultisetRemove(b: seq<real>, k: int)
    requires 0 <= k < |b|
    ensures multiset(b[..k] + b[k + 1..]) == multiset(b) - multiset{b[k]}
  {
    assert b == b[..k] + [b[k]] + b[k + 1..];
  }

  /** Every element of the sorted sequence comes from the input. */
  lemma SortMember(s: seq<real>, i: int)
    requires 0 <= i < |s|
    ensures Sort(s)[i] in s
  {
    SortSpec(s);
    assert Sort(s)[i] in multiset(Sort(s));
  }

  /** `np.median` of a non-empty array: the middle element, or the mean of the two middle ones. */
  function Median(s: seq<real>): real
    requires |s| > 0
  {
    var t := Sort(s);
    var n := |t|;
    if n % 2 == 1 then t[n / 2] else (t[n / 2 - 1] + t[n / 2]) / 2.0
  }

  /** The median does not depend on the order of the values. */
  lemma MedianOfPermutation(a: seq<real>, b: seq<real>)
    requires |a| > 0
    requires multiset(a) == multiset(b)
    ensures |b| == |a| && Median(a) == Median(b)
  {
    assert |a| == |multiset(a)| == |multiset(b)| == |b|;
    SortSpec(a);
    SortSpec(b);
    SortedUnique(Sort(a), Sort(b));
  }

  /** The median is not below a lower bound of all values. */
  lemma MedianAtLeast(s: seq<real>, lo: real)
    requires |s| > 0
    requires forall i :: 0 <= i < |s| ==> lo <= s[i]
    ensures lo <= Median(s)
  {
    var t := Sort(s);
    var n := |t|;
    SortMember(s, n / 2);
    if n % 2 == 0 {
      SortMember(s, n / 2 - 1);
    }
  }

  /** The median is not above an upper bound of all values. */
  lemma MedianAtMost(s: seq<real>, hi: real)
    requires |s| > 0
    requires forall i :: 0 <= i < |s| ==> s[i] <= hi
    ensures Median(s) <= hi
  {
    var t := Sort(s);
    var n := |t|;
    SortMember(s, n / 2);
    if n % 2 == 0 {
      SortMember(s, n / 2 - 1);
    }
  }

  /** The median of a constant array is that constant. */
  lemma MedianOfConstant(s: seq<real>, c: real)
    requires |s| > 0
    requires forall i :: 0 <= i < |s| ==> s[i] == c
    ensures Median(s) == c
  {
    MedianAtLeast(s, c);
    MedianAtMost(s, c);
  }

  /** The two element-wise maps the algorithms apply before taking a median. */
  datatype Transform = Minus(c: real) | AbsMinus(c: real)

  function Apply(f: Transform, x: real): real
  {
    match f
    case Minus(c) => x - c
    case AbsMinus(c) => Abs(x - c)
  }

  function MapT(f: Transform, s: seq<real>): (r: seq<real>)
    ensures |r| == |s|
    ensures forall i :: 0 <= i < |s| ==> r[i] == Apply(f, s[i])
  {
    seq(|s|, i requires 0 <= i < |s| => Apply(f, s[i]))
  }

  lemma MapAppend(f: Transform, a: seq<real>, b: seq<real>)
    ensures MapT(f, a + b) == MapT(f, a) + MapT(f, b)
  {
  }

  /** Taking out the element at `k` before mapping takes out its image after. */
  lemma MapRemove(f: Transform, b: seq<real>, k: int)
    requires 0 <= k < |b|
    ensures multiset(MapT(f, b)) == multiset(MapT(f, b[..k] + b[k + 1..])) + multiset{Apply(f, b[k])}
  {
    var left, right := b[..k], b[k + 1..];
    assert b == left + [b[k]] + right;
    MapAppend(f, left + [b[k]], right);
    MapAppend(f, left, [b[k]]);
    MapAppend(f, left, right);
  }

  /** Mapping two permutations of each other gives two permutations of each other. */
  lemma {:induction false} MapPermutation(f: Transform, a: seq<real>, b: seq<real>)
    requires multiset(a) == multiset(b)
    ensures multiset(MapT(f, a)) == multiset(MapT(f, b))
  {
    if a != [] {
      var x := a[0];
      assert a == [x] + a[1..];
      assert x in multiset(b);
      var k :| 0 <= k < |b| && b[k] == x;
      var rest := b[..k] + b[k + 1..];
      MultisetRemove(b, k);
      MultisetTail(a);
      MapPermutation(f, a[1..], rest);
      MapRemove(f, b, k);
      MapAppend(f, [x], a[1..]);
      assert MapT(f, [x]) == [Apply(f, x)];
      assert multiset(MapT(f, a)) == multiset(MapT(f, a[1..])) + multiset{Apply(f, x)};
    }
  }

  /** Sorting commutes with subtracting a constant. */
  lemma SortOfShift(s: seq<real>, c: real)
    ensures Sort(MapT(Minus(c), s)) == MapT(Minus(c), Sort(s))
  {
    var u := MapT(Minus(c), Sort(s));
    SortSpec(s);
    SortSpec(MapT(Minus(c), s));
    assert Sorted(u) by {
      forall i, j | 0 <= i < j < |u| ensures u[i] <= u[j] {
        assert Sort(s)[i] <= Sort(s)[j];
      }
    }
    MapPermutation(Minus(c), Sort(s), s);
    SortedUnique(u, Sort(MapT(Minus(c), s)));
  }

  /** Subtracting a constant from every value subtracts it from the median. */
  lemma MedianOfShift(s: seq<real>, c: real)
    requires |s| > 0
    ensures Median(MapT(Minus(c), s)) == Median(s) - c
  {
    SortOfShift(s, c);
    var t := Sort(s);
    var n := |t|;
    if n % 2 == 0 {
      assert (t[n / 2 - 1] - c + (t[n / 2] - c)) / 2.0 == (t[n / 2 - 1] + t[n / 2]) / 2.0 - c;
    }
  }

  /** `np.nanmedian`: the median of the finite cells; NaN when there is none. */
  function NanMedian(cells: seq<Cell>): (m: Cell)
    ensures m.Finite? <==> |FiniteValues(cells)| > 0
  {
    var vs := FiniteValues(cells);
    if |vs| == 0 then NonFinite else Finite(Median(vs))
  }

  /** NumPy's virtual index `p / 100 * (n - 1)` for the linear method. */
  function Rank(n: nat, p: real): (g: real)
    requires n > 0 && 0.0 <= p <= 100.0
    ensures 0.0 <= g <= (n - 1) as real
  {
    var q := p / 100.0;
    var m := (n - 1) as real;
    assert 0.0 <= q * m <= m by { ScaleBelow(q, m); }
    q * m
  }

  lemma ScaleBelow(q: real, m: real)
    requires 0.0 <= q <= 1.0 && 0.0 <= m
    ensures 0.0 <= q * m <= m
  {
    assert m - q * m == (1.0 - q) * m;
  }

  /** Linear interpolation `a + w * (b - a)`. */
  function Lerp(a: real, b: real, w: real): (r: real)
    requires a <= b && 0.0 <= w <= 1.0
    ensures a <= r <= b
  {
    var d := b - a;
    ScaleBelow(w, d);
    a + w * d
  }

  /** `np.percentile(s, p)` with NumPy's default linear interpolation between closest ranks. */
  function Percentile(s: seq<real>, p: real): real
    requires |s| > 0 && 0.0 <= p <= 100.0
  {
    SortSpec(s);
    var t := Sort(s);
    var n := |t|;
    var g := Rank(n, p);
    var lo := g.Floor;
    var hi := if lo + 1 < n then lo + 1 else n - 1;
    Lerp(t[lo], t[hi], g - lo as real)
  }

  /** A percentile is not below a lower bound of all values. */
  lemma PercentileAtLeast(s: seq<real>, p: real, lo: real)
    requires |s| > 0 && 0.0 <= p <= 100.0
    requires forall i :: 0 <= i < |s| ==> lo <= s[i]
    ensures lo <= Percentile(s, p)
  {
    var g := Rank(|s|, p);
    SortMember(s, g.Floor);
  }

  /** A percentile is not above an upper bound of all values. */
  lemma PercentileAtMost(s: seq<real>, p: real, hi: real)
    requires |s| > 0 && 0.0 <= p <= 100.0
    requires forall i :: 0 <= i < |s| ==> s[i] <= hi
    ensures Percentile(s, p) <= hi
  {
    var n := |s|;
    var g := Rank(n, p);
    var k := g.Floor;
    SortMember(s, if k + 1 < n then k + 1 else n - 1);
  }

  function Sum(s: seq<real>): real
  {
    if s == [] then 0.0 else s[0] + Sum(s[1..])
  }

  /** `np.mean` of a non-empty array. */
  function Mean(s: seq<real>): real
    requires |s| > 0
  {
    Sum(s) / |s| as real
  }

  /** Population variance, the square of `np.std`. */
  function Variance(s: seq<real>): real
    requires |s| > 0
  {
    var m := Mean(s);
    Sum(seq(|s|, i requires 0 <= i < |s| => (s[i] - m) * (s[i] - m))) / |s| as real
  }
}
