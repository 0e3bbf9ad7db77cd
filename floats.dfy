/** Floating-point cells of an elevation grid.
    A NumPy float is either finite or not (NaN, +inf, -inf); the model keeps the finite
    value as an exact real and folds every non-finite value into one validity flag. */
module Floats {

  /** One cell of a grid: a finite value or a non-finite one (NaN or an infinity). */
  datatype Cell = Finite(v: real) | NonFinite

  /** The double closest to pi, `np.pi`, as an exact real. */
  const Pi: real := 3.141592653589793

  function Abs(x: real): (r: real)
    ensures r >= 0.0 && (r == x || r == -x)
  {
    if x < 0.0 then -x else x
  }

  /** Element-wise `a - b`: non-finite as soon as one operand is. */
  function Sub(a: Cell, b: Cell): (r: Cell)
    ensures r.Finite? <==> a.Finite? && b.Finite?
    ensures r.Finite? ==> r.v + b.v == a.v
  {
    if a.Finite? && b.Finite? then Finite(a.v - b.v) else NonFinite
  }

  /** Element-wise `a / b` under `np.errstate(divide="ignore")`: a zero divisor gives inf or NaN. */
  function Div(a: Cell, b: Cell): (r: Cell)
    ensures r.Finite? <==> a.Finite? && b.Finite? && b.v != 0.0
    ensures r.Finite? ==> r.v * b.v == a.v
  {
    if a.Finite? && b.Finite? && b.v != 0.0 then Finite(a.v / b.v) else NonFinite
  }

  /** `array - array2` on two grids of the same length. */
  function SubCells(a: seq<Cell>, b: seq<Cell>): (r: seq<Cell>)
    requires |a| == |b|
    ensures |r| == |a|
    ensures forall k :: 0 <= k < |r| ==> r[k] == Sub(a[k], b[k])
  {
    seq(|a|, k requires 0 <= k < |a| => Sub(a[k], b[k]))
  }

  /** `array - scalar`. */
  function SubScalar(a: seq<Cell>, m: Cell): (r: seq<Cell>)
    ensures |r| == |a|
    ensures forall k :: 0 <= k < |r| ==> r[k] == Sub(a[k], m)
  {
    seq(|a|, k requires 0 <= k < |a| => Sub(a[k], m))
  }

  /** `array[np.isfinite(array)]`: the finite values, in order. */
  function FiniteValues(cells: seq<Cell>): (vs: seq<real>)
    ensures |vs| <= |cells|
  {
    if cells == [] then []
    else (if cells[0].Finite? then [cells[0].v] else []) + FiniteValues(cells[1..])
  }

  /** `sqrt` is a square root on the non-negative reals. */
  ghost predicate IsSqrt(sqrt: real -> real)
  {
    forall x :: 0.0 <= x ==> 0.0 <= sqrt(x) && sqrt(x) * sqrt(x) == x
  }

  lemma {:induction false} FiniteValuesAppend(a: seq<Cell>, b: seq<Cell>)
    ensures FiniteValues(a + b) == FiniteValues(a) + FiniteValues(b)
  {
    if a == [] {
      assert a + b == b;
    } else {
      var h := if a[0].Finite? then [a[0].v] else [];
      assert (a + b)[0] == a[0];
      assert (a + b)[1..] == a[1..] + b;
      FiniteValuesAppend(a[1..], b);
      assert FiniteValues(a + b) == h + (FiniteValues(a[1..]) + FiniteValues(b));
      assert FiniteValues(a) == h + FiniteValues(a[1..]);
    }
  }

  /** A value is among the finite values exactly when some finite cell holds it. */
  lemma {:induction false} FiniteValuesMembers(cells: seq<Cell>, x: real)
    ensures x in FiniteValues(cells) <==> Finite(x) in cells
  {
    if cells != [] {
      FiniteValuesMembers(cells[1..], x);
      assert cells == [cells[0]] + cells[1..];
    }
  }

  /** With no non-finite cell, nothing is dropped. */
  lemma {:induction false} FiniteValuesAllFinite(cells: seq<Cell>)
    requires forall k :: 0 <= k < |cells| ==> cells[k].Finite?
    ensures |FiniteValues(cells)| == |cells|
    ensures forall k :: 0 <= k < |cells| ==> FiniteValues(cells)[k] == cells[k].v
  {
    if cells != [] {
      FiniteValuesAllFinite(cells[1..]);
    }
  }
}
