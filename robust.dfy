/** The robust dispersion statistic of `DemUtils/coreg.py`, `calculate_nmad`. */
module Robust {
  import opened Floats
  import opened Stats

  /** Scale that turns a median absolute deviation into a Gaussian-equivalent standard deviation. */
  const NmadScale: real := 1.4826

  /** `np.abs(array - m)` cell by cell. */
  function AbsDeviation(cells: seq<Cell>, m: Cell): (r: seq<Cell>)
    ensures |r| == |cells|
  {
    seq(|cells|, k requires 0 <= k < |cells| =>
      var d := Sub(cells[k], m);
      if d.Finite? then Finite(Abs(d.v)) else NonFinite)
  }

  /** `calculate_nmad`: `1.4826 * nanmedian(|array - nanmedian(array)|)`. */
  function Nmad(cells: seq<Cell>): Cell
  {
    var m := NanMedian(AbsDeviation(cells, NanMedian(cells)));
    if m.Finite? then Finite(NmadScale * m.v) else NonFinite
  }

  /** Around a finite centre, the finite deviations are the deviations of the finite values. */
  lemma {:induction false} DeviationValues(cells: seq<Cell>, c: real)
    ensures FiniteValues(AbsDeviation(cells, Finite(c))) == MapT(AbsMinus(c), FiniteValues(cells))
  {
    if cells != [] {
      DeviationValues(cells[1..], c);
      assert AbsDeviation(cells, Finite(c))[1..] == AbsDeviation(cells[1..], Finite(c));
      MapAppend(AbsMinus(c), if cells[0].Finite? then [cells[0].v] else [], FiniteValues(cells[1..]));
    }
  }

  /** Around a non-finite centre every deviation is non-finite. */
  lemma {:induction false} DeviationFromNaN(cells: seq<Cell>)
    ensures FiniteValues(AbsDeviation(cells, NonFinite)) == []
  {
    if cells != [] {
      DeviationFromNaN(cells[1..]);
      assert AbsDeviation(cells, NonFinite)[1..] == AbsDeviation(cells[1..], NonFinite);
    }
  }

  /** NMAD over the valid cells only: it is the NMAD of the finite values. */
  lemma NmadOfFiniteValues(cells: seq<Cell>)
    ensures Nmad(cells).Finite? <==> |FiniteValues(cells)| > 0
    ensures |FiniteValues(cells)| > 0 ==>
      var vs := FiniteValues(cells);
      Nmad(cells) == Finite(NmadScale * Median(MapT(AbsMinus(Median(vs)), vs)))
  {
    var vs := FiniteValues(cells);
    if |vs| > 0 {
      DeviationValues(cells, Median(vs));
    } else {
      DeviationFromNaN(cells);
    }
  }

  /** NMAD is never negative. */
  lemma NmadNonNegative(cells: seq<Cell>)
    ensures Nmad(cells).Finite? ==> Nmad(cells).v >= 0.0
  {
    NmadOfFiniteValues(cells);
    var vs := FiniteValues(cells);
    if |vs| > 0 {
      MedianAtLeast(MapT(AbsMinus(Median(vs)), vs), 0.0);
    }
  }

  /** NMAD of a grid whose valid cells all hold the same value is zero. */
  lemma NmadOfConstant(cells: seq<Cell>, c: real)
    requires exists k :: 0 <= k < |cells| && cells[k].Finite?
    requires forall k :: 0 <= k < |cells| && cells[k].Finite? ==> cells[k].v == c
    ensures Nmad(cells) == Finite(0.0)
  {
    var vs := FiniteValues(cells);
    var k :| 0 <= k < |cells| && cells[k].Finite?;
    FiniteValuesMembers(cells, cells[k].v);
    assert |vs| > 0;
    forall i | 0 <= i < |vs| ensures vs[i] == c {
      FiniteValuesMembers(cells, vs[i]);
    }
    MedianOfConstant(vs, c);
    var devs := MapT(AbsMinus(c), vs);
    MedianOfConstant(devs, 0.0);
    NmadOfFiniteValues(cells);
  }

  /** NMAD depends only on the multiset of valid values, not on where they sit in the grid. */
  lemma NmadOrderIndependent(a: seq<Cell>, b: seq<Cell>)
    requires multiset(FiniteValues(a)) == multiset(FiniteValues(b))
    ensures Nmad(a) == Nmad(b)
  {
    var va, vb := FiniteValues(a), FiniteValues(b);
    assert |va| == |multiset(va)| == |multiset(vb)| == |vb|;
    NmadOfFiniteValues(a);
    NmadOfFiniteValues(b);
    if |va| > 0 {
      MedianOfPermutation(va, vb);
      var c := Median(va);
      MapPermutation(AbsMinus(c), va, vb);
      MedianOfPermutation(MapT(AbsMinus(c), va), MapT(AbsMinus(c), vb));
    }
  }
}
