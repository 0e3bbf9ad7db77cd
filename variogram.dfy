/** The closed-form pieces of `xdem/spatialstats.py`: the variogram models of `vgm`, the
    covariance `cov` derived from them, the spherical kernel `kernel_sph` and the standard
    errors `std_err` and `std_err_finite`. */
module Variogram {
  import opened Wrappers
  import opened Floats

  /** Library functions the non-spherical models and the standard errors call: `np.exp`,
      `x ** s` for a real exponent, and `np.sqrt`. */
  datatype Maths = Maths(exp: real -> real, pow: (real, real) -> real, sqrt: real -> real)

  /** `vgm` with a model name it does not know never assigns its result and raises
      `UnboundLocalError`. */
  datatype VgmError = UnknownModel

  // ---------------------------------------------------------------- the spherical model

  /** `3/2 * t - 1/2 * t^3`, the spherical shape at the scaled lag `t = h / a`. */
  function SphShape(t: real): real
  {
    3.0 / 2.0 * t - 1.0 / 2.0 * (t * t * t)
  }

  /** `c0 + c1 * (3/2 * h/a - 1/2 * (h/a)^3)`: the spherical model below its range. */
  function SphCurve(c0: real, c1: real, a: real, h: real): real
    requires a != 0.0
  {
    c0 + c1 * SphShape(h / a)
  }

  /** Whether `vgm` reaches one of its divisions by the range: the exponential models always
      do, the spherical one only below its range. */
  predicate DividesByRange(h: real, crange: real, model: string)
  {
    model in {"Exp", "Gau", "Exc"} || (model == "Sph" && h < crange)
  }

  /** `vgm(h, crange, model, psill, kappa, nugget)`. */
  function Vgm(m: Maths, h: real, crange: real, model: string, psill: real, kappa: real, nugget: real)
    : (r: Result<real, VgmError>)
    requires crange != 0.0 || !DividesByRange(h, crange, model)
    ensures r.Err? <==> model !in {"Sph", "Exp", "Gau", "Exc"}
    ensures model == "Sph" && h >= crange ==> r == Ok(nugget + psill)
  {
    var c0, c1, a1, s := nugget, psill, crange, kappa;
    if model == "Sph" then
      if h < a1 then Ok(SphCurve(c0, c1, a1, h)) else Ok(c0 + c1)
    else if model == "Exp" then Ok(c0 + c1 * (1.0 - m.exp(-h / a1)))
    else if model == "Gau" then Ok(c0 + c1 * (1.0 - m.exp(-((h / a1) * (h / a1)))))
    else if model == "Exc" then Ok(c0 + c1 * (1.0 - m.exp(-m.pow(h / a1, s))))
    else Err(UnknownModel)
  }

  /** At lag 0 the spherical model is the nugget. */
  lemma VgmSphAtZero(m: Maths, crange: real, psill: real, kappa: real, nugget: real)
    requires crange > 0.0
    ensures Vgm(m, 0.0, crange, "Sph", psill, kappa, nugget) == Ok(nugget)
  {
    assert 0.0 / crange == 0.0;
  }

  /** `1 - SphShape(t) = (1 - t)^2 (t + 2) / 2`. */
  lemma SphShapeGap(t: real)
    ensures 1.0 - SphShape(t) == (1.0 - t) * (1.0 - t) * (t + 2.0) / 2.0
  {
  }

  /** On `[0, 1]` the shape grows from 0 to 1 and stays within `[0, 1]`. */
  lemma SphShapeRange(t: real)
    requires 0.0 <= t <= 1.0
    ensures 0.0 <= SphShape(t) <= 1.0
  {
    SphShapeGap(t);
    assert t * t <= 1.0 by { MulLeOne(t, t); }
    assert t * t * t <= t by { MulLeOne(t * t, t); }
    assert 0.0 <= (1.0 - t) * (1.0 - t) * (t + 2.0) by {
      MulNonNegative(1.0 - t, 1.0 - t);
      MulNonNegative((1.0 - t) * (1.0 - t), t + 2.0);
    }
  }

  lemma MulNonNegative(x: real, y: real)
    requires 0.0 <= x && 0.0 <= y
    ensures 0.0 <= x * y
  {
  }

  lemma MulLeOne(x: real, y: real)
    requires 0.0 <= x <= 1.0 && 0.0 <= y
    ensures x * y <= y
  {
    assert y - x * y == (1.0 - x) * y;
    MulNonNegative(1.0 - x, y);
  }

  /** The shape is non-decreasing on `[0, 1]`:
      `SphShape(u) - SphShape(t) = (u - t) (3/2 - (t^2 + t u + u^2) / 2)`. */
  lemma SphShapeMonotone(t: real, u: real)
    requires 0.0 <= t <= u <= 1.0
    ensures SphShape(t) <= SphShape(u)
  {
    var q := t * t + t * u + u * u;
    assert SphShape(u) - SphShape(t) == (u - t) * (3.0 / 2.0 - q / 2.0);
    assert t * t <= 1.0 by { MulLeOne(t, t); }
    assert t * u <= 1.0 by { MulLeOne(t, u); }
    assert u * u <= 1.0 by { MulLeOne(u, u); }
    MulNonNegative(u - t, 3.0 / 2.0 - q / 2.0);
  }

  /** The scaled lag `h / a` stays in `[0, 1]` for `0 <= h <= a`, and grows with `h`. */
  lemma ScaledLag(h: real, g: real, a: real)
    requires a > 0.0 && 0.0 <= h <= g <= a
    ensures 0.0 <= h / a <= g / a <= 1.0
  {
    DivNonNegative(h, a);
    DivNonNegative(g - h, a);
    DivNonNegative(a - g, a);
    assert g / a - h / a == (g - h) / a;
    assert a / a == 1.0;
    assert (a - g) / a == a / a - g / a;
  }

  lemma DivNonNegative(x: real, a: real)
    requires 0.0 <= x && 0.0 < a
    ensures 0.0 <= x / a
  {
  }

  /** Up to and including the range, the spherical model is the curve `c0 + c1 * SphShape(h / a)`,
      with the scaled lag in `[0, 1]`: the branch taken from the range on meets the curve there. */
  lemma VgmSphOnCurve(m: Maths, h: real, crange: real, psill: real, kappa: real, nugget: real)
    requires crange > 0.0 && 0.0 <= h <= crange
    ensures 0.0 <= h / crange <= 1.0
    ensures Vgm(m, h, crange, "Sph", psill, kappa, nugget) == Ok(nugget + psill * SphShape(h / crange))
  {
    ScaledLag(h, h, crange);
    if h == crange {
      SphAtRange(crange);
    }
  }

  /** At the range the scaled lag is 1, where the shape reaches 1. */
  lemma SphAtRange(a: real)
    requires a > 0.0
    ensures a / a == 1.0 && SphShape(1.0) == 1.0
  {
  }

  /** The spherical model is non-decreasing on `[0, a]` when the partial sill is not negative. */
  lemma VgmSphMonotone(m: Maths, h: real, g: real, crange: real, psill: real, kappa: real, nugget: real)
    requires crange > 0.0 && psill >= 0.0 && 0.0 <= h <= g <= crange
    ensures Vgm(m, h, crange, "Sph", psill, kappa, nugget).value <= Vgm(m, g, crange, "Sph", psill, kappa, nugget).value
  {
    VgmSphOnCurve(m, h, crange, psill, kappa, nugget);
    VgmSphOnCurve(m, g, crange, psill, kappa, nugget);
    ScaledLag(h, g, crange);
    SphShapeMonotone(h / crange, g / crange);
    MulMonotone(psill, SphShape(h / crange), SphShape(g / crange));
  }

  /** Between lag 0 and the range the spherical model stays between the nugget and the sill. */
  lemma VgmSphBounds(m: Maths, h: real, crange: real, psill: real, kappa: real, nugget: real)
    requires crange > 0.0 && psill >= 0.0 && 0.0 <= h <= crange
    ensures nugget <= Vgm(m, h, crange, "Sph", psill, kappa, nugget).value <= nugget + psill
  {
    VgmSphOnCurve(m, h, crange, psill, kappa, nugget);
    var t := h / crange;
    SphShapeRange(t);
    MulMonotone(psill, 0.0, SphShape(t));
    MulMonotone(psill, SphShape(t), 1.0);
  }

  /** The spherical model does not jump at the range: below it, the model stays within
      `c1 * (1 - h / a)` of the sill `c0 + c1` it takes from the range on. */
  lemma VgmSphNearSill(m: Maths, h: real, crange: real, psill: real, kappa: real, nugget: real)
    requires crange > 0.0 && psill >= 0.0 && 0.0 <= h <= crange
    ensures nugget + psill - Vgm(m, h, crange, "Sph", psill, kappa, nugget).value
            <= psill * (1.0 - h / crange)
  {
    VgmSphOnCurve(m, h, crange, psill, kappa, nugget);
    var t := h / crange;
    SphShapeGapBound(t);
    MulMonotone(psill, 1.0 - SphShape(t), 1.0 - t);
  }

  /** The gap `(1 - t)^2 (t + 2) / 2` to the sill is at most `1 - t` on `[0, 1]`. */
  lemma SphShapeGapBound(t: real)
    requires 0.0 <= t <= 1.0
    ensures 1.0 - SphShape(t) <= 1.0 - t
  {
    SphShapeGap(t);
    var e := 1.0 - t;
    assert e * (t + 2.0) <= 2.0 by {
      assert e * (t + 2.0) == 2.0 - t - t * t;
      MulNonNegative(t, t);
    }
    var p := e * (t + 2.0);
    MulMonotone(e, p, 2.0);
    assert e * e * (t + 2.0) == e * p;
  }

  lemma MulMonotone(c: real, x: real, y: real)
    requires c >= 0.0 && x <= y
    ensures c * x <= c * y
  {
    MulNonNegative(c, y - x);
  }

  // ---------------------------------------------------------------- covariance

  /** `cov(h, crange, model, psill, kappa, nugget) = (nugget + psill) - vgm(h, crange, model,
      psill, kappa)`. The nugget is not passed on, so the variogram subtracted has none. */
  function Cov(m: Maths, h: real, crange: real, model: string, psill: real, kappa: real, nugget: real)
    : (r: Result<real, VgmError>)
    requires crange != 0.0 || !DividesByRange(h, crange, model)
    ensures r.Err? <==> model !in {"Sph", "Exp", "Gau", "Exc"}
    ensures r.Ok? ==> r.value + Vgm(m, h, crange, model, psill, kappa, 0.0).value == nugget + psill
  {
    match Vgm(m, h, crange, model, psill, kappa, 0.0)
    case Ok(v) => Ok((nugget + psill) - v)
    case Err(e) => Err(e)
  }

  /** The spherical covariance: the whole sill `nugget + psill` at lag 0, falling to the nugget
      at the range and staying there, so with the default nugget 0 it is `psill` at 0 and 0
      from the range on. */
  lemma CovSph(m: Maths, h: real, crange: real, psill: real, kappa: real, nugget: real)
    requires crange > 0.0
    ensures Cov(m, 0.0, crange, "Sph", psill, kappa, nugget) == Ok(nugget + psill)
    ensures h >= crange ==> Cov(m, h, crange, "Sph", psill, kappa, nugget) == Ok(nugget)
  {
    VgmSphAtZero(m, crange, psill, kappa, 0.0);
  }

  /** The spherical covariance does not increase between lag 0 and the range. */
  lemma CovSphDecreasing(m: Maths, h: real, g: real, crange: real, psill: real, kappa: real, nugget: real)
    requires crange > 0.0 && psill >= 0.0 && 0.0 <= h <= g <= crange
    ensures Cov(m, g, crange, "Sph", psill, kappa, nugget).value <= Cov(m, h, crange, "Sph", psill, kappa, nugget).value
  {
    VgmSphMonotone(m, h, g, crange, psill, kappa, 0.0);
  }

  // ---------------------------------------------------------------- the spherical kernel

  /** `kernel_sph(xi, x0, a1)`: 0 beyond the range, `1 - 3/2 d/a1 + 1/2 (d/a1)^3` within it,
      for the distance `d = |xi - x0|`. */
  function KernelSph(xi: real, x0: real, a1: real): (k: real)
    requires a1 != 0.0 || Abs(xi - x0) > a1
    ensures Abs(xi - x0) > a1 ==> k == 0.0
  {
    var d := Abs(xi - x0);
    if d > a1 then 0.0
    else 1.0 - 3.0 / 2.0 * d / a1 + 1.0 / 2.0 * ((d / a1) * (d / a1) * (d / a1))
  }

  /** The kernel is the spherical covariance of unit partial sill and no nugget at the distance
      between the two points: it is 1 at distance 0, 0 at the range, within `[0, 1]`, and
      symmetric in its two points. */
  lemma KernelIsUnitCovariance(m: Maths, xi: real, x0: real, a1: real, kappa: real)
    requires a1 > 0.0
    ensures Cov(m, Abs(xi - x0), a1, "Sph", 1.0, kappa, 0.0) == Ok(KernelSph(xi, x0, a1))
    ensures KernelSph(xi, x0, a1) == KernelSph(x0, xi, a1)
    ensures xi == x0 ==> KernelSph(xi, x0, a1) == 1.0
    ensures Abs(xi - x0) == a1 ==> KernelSph(xi, x0, a1) == 0.0
  {
    var d := Abs(xi - x0);
    assert Abs(x0 - xi) == d;
    if d <= a1 {
      VgmSphOnCurve(m, d, a1, 1.0, kappa, 0.0);
      KernelOnCurve(xi, x0, a1);
      if d == a1 {
        SphAtRange(a1);
      }
      if xi == x0 {
        assert d / a1 == 0.0;
      }
    }
  }

  /** The kernel weight of two points always lies between 0 and 1. */
  lemma KernelBounds(xi: real, x0: real, a1: real)
    requires a1 > 0.0
    ensures 0.0 <= KernelSph(xi, x0, a1) <= 1.0
  {
    if Abs(xi - x0) <= a1 {
      KernelOnCurve(xi, x0, a1);
      ScaledLag(Abs(xi - x0), Abs(xi - x0), a1);
      SphShapeRange(Abs(xi - x0) / a1);
    }
  }

  lemma KernelOnCurve(xi: real, x0: real, a1: real)
    requires a1 > 0.0 && Abs(xi - x0) <= a1
    ensures KernelSph(xi, x0, a1) == 1.0 - SphShape(Abs(xi - x0) / a1)
  {
    var d := Abs(xi - x0);
    var t := d / a1;
    MulDiv(3.0 / 2.0, d, a1);
    assert KernelSph(xi, x0, a1) == 1.0 - 3.0 / 2.0 * d / a1 + 1.0 / 2.0 * (t * t * t);
    assert 3.0 / 2.0 * d / a1 == 3.0 / 2.0 * t;
    assert KernelSph(xi, x0, a1) == 1.0 - 3.0 / 2.0 * t + 1.0 / 2.0 * (t * t * t);
  }

  /** A zero range is a pure nugget effect: from lag 0 on, the spherical model is the sill and
      its covariance the nugget, and two distinct points have kernel weight 0. */
  lemma ZeroRangeIsNugget(m: Maths, h: real, psill: real, kappa: real, nugget: real, xi: real, x0: real)
    requires h >= 0.0
    ensures Vgm(m, h, 0.0, "Sph", psill, kappa, nugget) == Ok(nugget + psill)
    ensures Cov(m, h, 0.0, "Sph", psill, kappa, nugget) == Ok(nugget)
    ensures xi != x0 ==> KernelSph(xi, x0, 0.0) == 0.0
  {
  }

  lemma MulDiv(c: real, x: real, a: real)
    requires a != 0.0
    ensures c * x / a == c * (x / a)
  {
    assert x == (x / a) * a;
    assert c * x == (c * (x / a)) * a;
  }

  // ---------------------------------------------------------------- standard errors

  /** `std_err(std, neff) = std * np.sqrt(1 / neff)`: NaN, the square root of a negative
      number, for a negative `neff`. */
  function StdErr(m: Maths, std: real, neff: real): (r: Cell)
    requires neff != 0.0
    ensures r.Finite? <==> neff > 0.0
  {
    ReciprocalSign(neff);
    var x := 1.0 / neff;
    if x < 0.0 then NonFinite else Finite(std * m.sqrt(x))
  }

  /** `std_err_finite(std, neff_tot, neff) = std * np.sqrt(1 / neff_tot * (neff_tot - neff) / neff_tot)`:
      NaN when the subsample is larger than the ensemble. */
  function StdErrFinite(m: Maths, std: real, neffTot: real, neff: real): (r: Cell)
    requires neffTot != 0.0
    ensures r.Finite? <==> neff <= neffTot
  {
    FiniteRadicandSign(neffTot, neff);
    var x := 1.0 / neffTot * (neffTot - neff) / neffTot;
    if x < 0.0 then NonFinite else Finite(std * m.sqrt(x))
  }

  lemma ReciprocalSign(n: real)
    requires n != 0.0
    ensures 0.0 <= 1.0 / n <==> 0.0 < n
  {
    if n > 0.0 {
      DivNonNegative(1.0, n);
    } else {
      assert (1.0 / n) * n == 1.0;
    }
  }

  /** The argument of the square root in `std_err_finite` is `(neff_tot - neff) / neff_tot^2`. */
  lemma FiniteRadicandSign(neffTot: real, neff: real)
    requires neffTot != 0.0
    ensures 0.0 <= 1.0 / neffTot * (neffTot - neff) / neffTot <==> neff <= neffTot
  {
    var sq := neffTot * neffTot;
    assert 0.0 < sq;
    var x := 1.0 / neffTot * (neffTot - neff) / neffTot;
    assert x == (neffTot - neff) / sq;
    if neff <= neffTot {
      DivNonNegative(neffTot - neff, sq);
    } else {
      assert x * sq == neffTot - neff;
    }
  }

  /** The squared standard error is the variance over the number of effective samples. */
  lemma StdErrSquared(m: Maths, std: real, neff: real)
    requires IsSqrt(m.sqrt) && neff > 0.0
    ensures StdErr(m, std, neff).Finite?
    ensures StdErr(m, std, neff).v * StdErr(m, std, neff).v == std * std / neff
  {
    var s := m.sqrt(1.0 / neff);
    DivNonNegative(1.0, neff);
    assert s * s == 1.0 / neff;
    assert (std * s) * (std * s) == (std * std) * (s * s);
  }

  /** For a subsample of a finite ensemble: the squared error is
      `std^2 (neff_tot - neff) / neff_tot^2`, so it vanishes once the subsample is the whole
      ensemble. */
  lemma StdErrFiniteSquared(m: Maths, std: real, neffTot: real, neff: real)
    requires IsSqrt(m.sqrt) && neffTot > 0.0 && neff <= neffTot
    ensures StdErrFinite(m, std, neffTot, neff).Finite?
    ensures StdErrFinite(m, std, neffTot, neff).v * StdErrFinite(m, std, neffTot, neff).v
            == std * std * (neffTot - neff) / (neffTot * neffTot)
    ensures neff == neffTot ==> StdErrFinite(m, std, neffTot, neff) == Finite(0.0)
  {
    var x := 1.0 / neffTot * (neffTot - neff) / neffTot;
    assert x == (neffTot - neff) / (neffTot * neffTot);
    MulNonNegative(1.0 / neffTot, neffTot - neff);
    var s := m.sqrt(x);
    assert s * s == x;
    assert (std * s) * (std * s) == (std * std) * (s * s);
    if neff == neffTot {
      assert x == 0.0;
      if s != 0.0 {
        MulNonNegative(s, s);
        assert 0.0 < s * s;
      }
    }
  }
}
