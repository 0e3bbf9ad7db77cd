/** The mask geometry of `xdem/spatialstats.py`: `create_circular_mask` and `create_ring_mask`
    on a `w` by `h` grid whose cell `(i, j)` sits at integer coordinates. */
module Masks {
  import opened Wrappers

  /** A disk center; `x` runs along the first axis (length `w`), `y` along the second. */
  datatype Point = Point(x: real, y: real)

  function Sq(v: real): real
  {
    v * v
  }

  /** The middle of the grid, `(int(w / 2), int(h / 2))`. */
  function DefaultCenter(w: nat, h: nat): (p: Point)
    ensures 0.0 <= p.x <= w as real && 0.0 <= p.y <= h as real
    ensures w as real - 1.0 <= 2.0 * p.x <= w as real && h as real - 1.0 <= 2.0 * p.y <= h as real
  {
    Point((w / 2) as real, (h / 2) as real)
  }

  /** The smallest distance from the center to the four walls of the grid. */
  function DefaultRadius(w: nat, h: nat, p: Point): (r: real)
    ensures r <= p.x && r <= p.y && r <= w as real - p.x && r <= h as real - p.y
    ensures r == p.x || r == p.y || r == w as real - p.x || r == h as real - p.y
  {
    Min(Min(p.x, p.y), Min(w as real - p.x, h as real - p.y))
  }

  function Min(a: real, b: real): real
  {
    if a <= b then a else b
  }

  function CenterOr(w: nat, h: nat, center: Option<Point>): Point
  {
    match center
    case None => DefaultCenter(w, h)
    case Some(p) => p
  }

  function RadiusOr(w: nat, h: nat, p: Point, radius: Option<real>): real
  {
    match radius
    case None => DefaultRadius(w, h, p)
    case Some(r) => r
  }

  /** A cell is drawn iff its squared distance to the center is strictly below the squared
      radius: the disk does not include its boundary. */
  predicate InDisk(i: int, j: int, p: Point, radius: real)
  {
    Sq(i as real - p.x) + Sq(j as real - p.y) < Sq(radius)
  }

  /** The cells `create_circular_mask(shape, center, radius)` sets. */
  predicate InCircularMask(w: nat, h: nat, center: Option<Point>, radius: Option<real>, i: int, j: int)
  {
    var p := CenterOr(w, h, center);
    InDisk(i, j, p, RadiusOr(w, h, p, radius))
  }

  /** `create_circular_mask`: a grid of `False` with the disk's cells set to `True`. */
  method CircularMask(w: nat, h: nat, center: Option<Point>, radius: Option<real>) returns (mask: array2<bool>)
    ensures fresh(mask) && mask.Length0 == w && mask.Length1 == h
    ensures forall i, j :: 0 <= i < w && 0 <= j < h ==> (mask[i, j] <==> InCircularMask(w, h, center, radius, i, j))
  {
    var p := CenterOr(w, h, center);
    var r := RadiusOr(w, h, p, radius);
    mask := new bool[w, h]((i, j) => false);
    var i := 0;
    while i < w
      invariant 0 <= i <= w
      invariant forall a, b :: 0 <= a < w && 0 <= b < h ==> (mask[a, b] <==> a < i && InDisk(a, b, p, r))
    {
      var j := 0;
      while j < h
        invariant 0 <= j <= h
        invariant forall a, b :: 0 <= a < w && 0 <= b < h ==>
                    (mask[a, b] <==> (a < i || (a == i && b < j)) && InDisk(a, b, p, r))
      {
        if InDisk(i, j, p, r) {
          mask[i, j] := true;
        }
        j := j + 1;
      }
      i := i + 1;
    }
  }

  /** Within a disk of radius `r`, both coordinates are less than `|r|` away from the center. */
  lemma InDiskBounds(i: int, j: int, p: Point, r: real)
    requires r >= 0.0 && InDisk(i, j, p, r)
    ensures p.x - r < i as real < p.x + r && p.y - r < j as real < p.y + r
  {
    SqBelow(i as real - p.x, r, Sq(j as real - p.y));
    SqBelow(j as real - p.y, r, Sq(i as real - p.x));
  }

  lemma SqBelow(v: real, r: real, rest: real)
    requires r >= 0.0 && rest >= 0.0 && Sq(v) + rest < Sq(r)
    ensures -r < v < r
  {
  }

  /** With the default radius, a disk centered anywhere on the grid stays inside it and off its
      first row and column: nothing is clipped. */
  lemma DefaultDiskInsideGrid(w: nat, h: nat, p: Point, i: int, j: int)
    requires 0.0 <= p.x <= w as real && 0.0 <= p.y <= h as real
    requires InDisk(i, j, p, DefaultRadius(w, h, p))
    ensures 0 < i < w && 0 < j < h
  {
    InDiskBounds(i, j, p, DefaultRadius(w, h, p));
  }

  /** A disk of radius 0 draws nothing. */
  lemma ZeroRadiusIsEmpty(w: nat, h: nat, center: Option<Point>, i: int, j: int)
    ensures !InCircularMask(w, h, center, Some(0.0), i, j)
  {
    var p := CenterOr(w, h, center);
    assert Sq(i as real - p.x) >= 0.0 && Sq(j as real - p.y) >= 0.0;
  }

  // ---------------------------------------------------------------- the ring

  /** The center `create_ring_mask` draws around: without an outer radius, the grid middle
      replaces whatever center the caller gave. */
  function RingCenter(w: nat, h: nat, center: Option<Point>, outRadius: Option<real>): Point
  {
    if outRadius.None? then DefaultCenter(w, h) else CenterOr(w, h, center)
  }

  /** The outer radius: without one, the default radius of the grid middle. */
  function RingOuter(w: nat, h: nat, outRadius: Option<real>): real
  {
    match outRadius
    case None => DefaultRadius(w, h, DefaultCenter(w, h))
    case Some(r) => r
  }

  /** The cells `create_ring_mask(shape, center, in_radius, out_radius)` sets: inside the outer
      disk and outside the inner one (an inner radius of `None` takes the default radius). */
  predicate InRing(w: nat, h: nat, center: Option<Point>, inRadius: Option<real>, outRadius: Option<real>, i: int, j: int)
  {
    var p := RingCenter(w, h, center, outRadius);
    !InDisk(i, j, p, RadiusOr(w, h, p, inRadius)) && InDisk(i, j, p, RingOuter(w, h, outRadius))
  }

  /** `create_ring_mask`: the two circular masks around the same center, combined cell by cell
      as `~inside & outside`. */
  method RingMask(w: nat, h: nat, center: Option<Point>, inRadius: Option<real>, outRadius: Option<real>)
    returns (ring: array2<bool>)
    ensures fresh(ring) && ring.Length0 == w && ring.Length1 == h
    ensures forall i, j :: 0 <= i < w && 0 <= j < h ==> (ring[i, j] <==> InRing(w, h, center, inRadius, outRadius, i, j))
  {
    var c, outer := center, outRadius;
    if outRadius.None? {
      var middle := DefaultCenter(w, h);
      c := Some(middle);
      outer := Some(DefaultRadius(w, h, middle));
    }
    var inside := CircularMask(w, h, c, inRadius);
    var outside := CircularMask(w, h, c, outer);
    ring := new bool[w, h]((i, j) => false);
    var i := 0;
    while i < w
      modifies ring
      invariant 0 <= i <= w
      invariant forall a, b :: 0 <= a < w && 0 <= b < h ==>
                  (ring[a, b] <==> a < i && !inside[a, b] && outside[a, b])
    {
      var j := 0;
      while j < h
        modifies ring
        invariant 0 <= j <= h
        invariant forall a, b :: 0 <= a < w && 0 <= b < h ==>
                    (ring[a, b] <==> (a < i || (a == i && b < j)) && !inside[a, b] && outside[a, b])
      {
        ring[i, j] := !inside[i, j] && outside[i, j];
        j := j + 1;
      }
      i := i + 1;
    }
    forall a, b | 0 <= a < w && 0 <= b < h
      ensures ring[a, b] <==> InRing(w, h, center, inRadius, outRadius, a, b)
    {
      RingOfMasks(w, h, center, inRadius, outRadius, c, outer, a, b);
    }
  }

  /** The ring cells are those of the inner mask's complement within the outer mask, both
      drawn with the arguments `create_ring_mask` passes on. */
  lemma RingOfMasks(w: nat, h: nat, center: Option<Point>, inRadius: Option<real>, outRadius: Option<real>,
                    c: Option<Point>, outer: Option<real>, i: int, j: int)
    requires outRadius.None? ==> c == Some(DefaultCenter(w, h)) && outer == Some(DefaultRadius(w, h, DefaultCenter(w, h)))
    requires outRadius.Some? ==> c == center && outer == outRadius
    ensures InRing(w, h, center, inRadius, outRadius, i, j) <==>
              !InCircularMask(w, h, c, inRadius, i, j) && InCircularMask(w, h, c, outer, i, j)
  {
  }

  /** Without an outer radius the caller's center makes no difference. */
  lemma RingIgnoresCenter(w: nat, h: nat, center: Option<Point>, inRadius: Option<real>, i: int, j: int)
    ensures InRing(w, h, center, inRadius, None, i, j) == InRing(w, h, None, inRadius, None, i, j)
  {
  }

  /** When the inner radius is not smaller than the outer one, the inner disk covers the outer
      one and the ring is empty. */
  lemma RingEmptyIfInnerCovers(w: nat, h: nat, center: Option<Point>, inRadius: real, outRadius: Option<real>, i: int, j: int)
    requires Sq(RingOuter(w, h, outRadius)) <= Sq(inRadius)
    ensures !InRing(w, h, center, Some(inRadius), outRadius, i, j)
  {
  }

  /** When the inner radius is not larger, the outer disk splits into the inner disk and the
      ring, which never overlap. */
  lemma RingPartitionsOuterDisk(w: nat, h: nat, center: Option<Point>, inRadius: real, outRadius: Option<real>, i: int, j: int)
    requires Sq(inRadius) <= Sq(RingOuter(w, h, outRadius))
    ensures var p := RingCenter(w, h, center, outRadius);
      InDisk(i, j, p, RingOuter(w, h, outRadius)) <==>
        (InRing(w, h, center, Some(inRadius), outRadius, i, j) || InDisk(i, j, p, inRadius))
    ensures var p := RingCenter(w, h, center, outRadius);
      !(InRing(w, h, center, Some(inRadius), outRadius, i, j) && InDisk(i, j, p, inRadius))
  {
  }
}
