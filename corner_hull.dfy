/**
 * The box rotate_y derives at construction: the componentwise minimum and
 * maximum of the eight corners of the child's box, each rotated about Y.
 */
module CornerHulls {
  import opened Geometry

  /** One coordinate of a corner: the low end of iv for i == 0, the high
      end otherwise. */
  function CornerCoord(iv: Interval, i: int): real {
    if i == 0 then iv.min else iv.max
  }

  /** The constructor's selector `i*max + (1-i)*min` picks exactly that end. */
  lemma CornerSelector(iv: Interval, i: int)
    requires 0 <= i < 2
    ensures (i as real) * iv.max + ((1 - i) as real) * iv.min == CornerCoord(iv, i)
  {
    if i == 0 {
      assert (i as real) == 0.0 && ((1 - i) as real) == 1.0;
    } else {
      assert (i as real) == 1.0 && ((1 - i) as real) == 0.0;
    }
  }

  /** Corner (i, j, k) of box, rotated about Y. */
  function RotatedCorner(box: Aabb, sinT: real, cosT: real, i: int, j: int, k: int): Vec3 {
    Vec3(CornerCoord(box.x, i), CornerCoord(box.y, j), CornerCoord(box.z, k)).RotatedY(sinT, cosT)
  }

  /** The eight rotated corners in the order the constructor visits them:
      corner (i, j, k) at index 4i + 2j + k. */
  function RotatedCorners(box: Aabb, sinT: real, cosT: real): (cs: seq<Vec3>)
    ensures |cs| == 8
  {
    seq(8, m requires 0 <= m < 8 => RotatedCorner(box, sinT, cosT, m / 4, (m / 2) % 2, m % 2))
  }

  lemma CornerIndex(box: Aabb, sinT: real, cosT: real, i: int, j: int, k: int)
    requires 0 <= i < 2 && 0 <= j < 2 && 0 <= k < 2
    ensures 4 * i + 2 * j + k < 8
    ensures RotatedCorners(box, sinT, cosT)[4 * i + 2 * j + k] == RotatedCorner(box, sinT, cosT, i, j, k)
  {
    var m := 4 * i + 2 * j + k;
    assert m / 4 == i && (m / 2) % 2 == j && m % 2 == k by {
      if i == 0 && j == 0 && k == 0 {} else if i == 0 && j == 0 {} else if i == 0 && k == 0 {} else if i == 0 {}
      else if j == 0 && k == 0 {} else if j == 0 {} else if k == 0 {} else {}
    }
  }

  /** The corner the rotate_y constructor computes on iteration (i, j, k),
      selecting each coordinate by arithmetic on i, j and k, is element
      4*i + 2*j + k of RotatedCorners. */
  lemma LoopCorner(box: Aabb, sinT: real, cosT: real, i: int, j: int, k: int, x: real, y: real, z: real)
    requires 0 <= i < 2 && 0 <= j < 2 && 0 <= k < 2
    requires x == (i as real) * box.x.max + ((1 - i) as real) * box.x.min
    requires y == (j as real) * box.y.max + ((1 - j) as real) * box.y.min
    requires z == (k as real) * box.z.max + ((1 - k) as real) * box.z.min
    ensures 4 * i + 2 * j + k < 8
    ensures Vec3(cosT * x + sinT * z, y, -sinT * x + cosT * z) == RotatedCorners(box, sinT, cosT)[4 * i + 2 * j + k]
  {
    CornerSelector(box.x, i);
    CornerSelector(box.y, j);
    CornerSelector(box.z, k);
    var q := Vec3(x, y, z);
    assert q == Vec3(CornerCoord(box.x, i), CornerCoord(box.y, j), CornerCoord(box.z, k));
    assert RotatedCorner(box, sinT, cosT, i, j, k) == q.RotatedY(sinT, cosT);
    CornerIndex(box, sinT, cosT, i, j, k);
  }

  /** lo and hi bound coordinate a of every point of pts. */
  ghost predicate AxisBounds(lo: real, hi: real, pts: seq<Vec3>, a: nat)
    requires a < 3
  {
    forall m :: 0 <= m < |pts| ==> lo <= pts[m].At(a) <= hi
  }

  /** lo and hi are each coordinate a of some point of pts. */
  ghost predicate AxisAttained(lo: real, hi: real, pts: seq<Vec3>, a: nat)
    requires a < 3
  {
    (exists m :: 0 <= m < |pts| && pts[m].At(a) == lo)
    && (exists m :: 0 <= m < |pts| && pts[m].At(a) == hi)
  }

  /** lo and hi are the least and greatest coordinate a over pts. */
  ghost predicate AxisHull(lo: real, hi: real, pts: seq<Vec3>, a: nat)
    requires a < 3
  {
    AxisBounds(lo, hi, pts, a) && AxisAttained(lo, hi, pts, a)
  }

  /** Every rotated corner of box lies in hull. */
  ghost predicate HoldsCorners(hull: Aabb, box: Aabb, sinT: real, cosT: real) {
    var cs := RotatedCorners(box, sinT, cosT);
    AxisBounds(hull.x.min, hull.x.max, cs, 0)
    && AxisBounds(hull.y.min, hull.y.max, cs, 1)
    && AxisBounds(hull.z.min, hull.z.max, cs, 2)
  }

  /** Every end of every axis of hull is reached by some rotated corner. */
  ghost predicate EndsAttained(hull: Aabb, box: Aabb, sinT: real, cosT: real) {
    var cs := RotatedCorners(box, sinT, cosT);
    AxisAttained(hull.x.min, hull.x.max, cs, 0)
    && AxisAttained(hull.y.min, hull.y.max, cs, 1)
    && AxisAttained(hull.z.min, hull.z.max, cs, 2)
  }

  /** hull is the smallest axis-aligned box holding the rotated corners of
      box. */
  ghost predicate IsCornerHull(hull: Aabb, box: Aabb, sinT: real, cosT: real) {
    HoldsCorners(hull, box, sinT, cosT) && EndsAttained(hull, box, sinT, cosT)
  }

  function Min(a: real, b: real): real { if a <= b then a else b }

  function Max(a: real, b: real): real { if a >= b then a else b }

  lemma AxisHullSingle(q: Vec3, a: nat)
    requires a < 3
    ensures AxisHull(q.At(a), q.At(a), [q], a)
  {
    assert [q][0] == q;
  }

  /** Folding one more point into the running min and max keeps them a
      hull of the points seen so far. */
  lemma AxisHullExtend(lo: real, hi: real, pts: seq<Vec3>, q: Vec3, a: nat)
    requires a < 3
    requires AxisHull(lo, hi, pts, a)
    ensures AxisHull(Min(lo, q.At(a)), Max(hi, q.At(a)), pts + [q], a)
  {
    var ext := pts + [q];
    assert ext[|pts|] == q;
    var mlo :| 0 <= mlo < |pts| && pts[mlo].At(a) == lo;
    var mhi :| 0 <= mhi < |pts| && pts[mhi].At(a) == hi;
    assert ext[mlo] == pts[mlo] && ext[mhi] == pts[mhi];
    var wlo := if lo <= q.At(a) then mlo else |pts|;
    var whi := if hi >= q.At(a) then mhi else |pts|;
    assert ext[wlo].At(a) == Min(lo, q.At(a));
    assert ext[whi].At(a) == Max(hi, q.At(a));
    forall m | 0 <= m < |ext|
      ensures Min(lo, q.At(a)) <= ext[m].At(a) <= Max(hi, q.At(a))
    {
      if m < |pts| { assert ext[m] == pts[m]; }
    }
  }

  /** A point listed twice adds nothing: a hull of [pts[0]] + pts is a hull
      of pts. */
  lemma AxisHullDropRepeat(lo: real, hi: real, pts: seq<Vec3>, a: nat)
    requires a < 3 && |pts| > 0
    requires AxisHull(lo, hi, [pts[0]] + pts, a)
    ensures AxisHull(lo, hi, pts, a)
  {
    var ext := [pts[0]] + pts;
    forall m | 0 <= m < |pts|
      ensures lo <= pts[m].At(a) <= hi
    {
      assert ext[m + 1] == pts[m];
    }
    var mlo :| 0 <= mlo < |ext| && ext[mlo].At(a) == lo;
    var mhi :| 0 <= mhi < |ext| && ext[mhi].At(a) == hi;
    var wlo := if mlo == 0 then 0 else mlo - 1;
    var whi := if mhi == 0 then 0 else mhi - 1;
    assert pts[wlo].At(a) == lo;
    assert pts[whi].At(a) == hi;
  }

  /** The corner hull is conservative for the whole rotated box: the
      rotation of any point of box lies inside it. */
  lemma CornerHullContainsRotatedBox(hull: Aabb, box: Aabb, sinT: real, cosT: real, q: Vec3)
    requires HoldsCorners(hull, box, sinT, cosT)
    requires box.Contains(q)
    ensures hull.Contains(q.RotatedY(sinT, cosT))
  {
    RotatedXInHull(hull.x, box, sinT, cosT, q);
    RotatedYInHull(hull.y, box, sinT, cosT, q);
    RotatedZInHull(hull.z, box, sinT, cosT, q);
  }

  lemma RotatedYInHull(hy: Interval, box: Aabb, sinT: real, cosT: real, q: Vec3)
    requires AxisBounds(hy.min, hy.max, RotatedCorners(box, sinT, cosT), 1)
    requires box.Contains(q)
    ensures hy.Contains(q.y)
  {
    var x0, y0, y1, z0 := box.x.min, box.y.min, box.y.max, box.z.min;
    HullHoldsCorner(hy, box, sinT, cosT, 1, 0, 0, 0, x0, y0, z0);
    HullHoldsCorner(hy, box, sinT, cosT, 1, 0, 1, 0, x0, y1, z0);
  }

  lemma RotatedXInHull(hx: Interval, box: Aabb, sinT: real, cosT: real, q: Vec3)
    requires AxisBounds(hx.min, hx.max, RotatedCorners(box, sinT, cosT), 0)
    requires box.Contains(q)
    ensures hx.Contains(cosT * q.x + sinT * q.z)
  {
    HullXHoldsFlatCorners(hx, box, sinT, cosT);
    CombinationInRange(hx, cosT, sinT, box.x.min, box.x.max, box.z.min, box.z.max, q.x, q.z);
  }

  lemma RotatedZInHull(hz: Interval, box: Aabb, sinT: real, cosT: real, q: Vec3)
    requires AxisBounds(hz.min, hz.max, RotatedCorners(box, sinT, cosT), 2)
    requires box.Contains(q)
    ensures hz.Contains(-sinT * q.x + cosT * q.z)
  {
    HullZHoldsFlatCorners(hz, box, sinT, cosT);
    CombinationInRange(hz, -sinT, cosT, box.x.min, box.x.max, box.z.min, box.z.max, q.x, q.z);
  }

  /** The hull's x axis holds the rotated x of the corners with y at its low end. */
  lemma HullXHoldsFlatCorners(h: Interval, box: Aabb, sinT: real, cosT: real)
    requires AxisBounds(h.min, h.max, RotatedCorners(box, sinT, cosT), 0)
    ensures h.Contains(cosT * box.x.min + sinT * box.z.min) && h.Contains(cosT * box.x.min + sinT * box.z.max)
    ensures h.Contains(cosT * box.x.max + sinT * box.z.min) && h.Contains(cosT * box.x.max + sinT * box.z.max)
  {
    var x0, x1, y0, z0, z1 := box.x.min, box.x.max, box.y.min, box.z.min, box.z.max;
    HullHoldsCorner(h, box, sinT, cosT, 0, 0, 0, 0, x0, y0, z0);
    HullHoldsCorner(h, box, sinT, cosT, 0, 0, 0, 1, x0, y0, z1);
    HullHoldsCorner(h, box, sinT, cosT, 0, 1, 0, 0, x1, y0, z0);
    HullHoldsCorner(h, box, sinT, cosT, 0, 1, 0, 1, x1, y0, z1);
  }

  /** The hull's z axis holds the rotated z of the corners with y at its low end. */
  lemma HullZHoldsFlatCorners(h: Interval, box: Aabb, sinT: real, cosT: real)
    requires AxisBounds(h.min, h.max, RotatedCorners(box, sinT, cosT), 2)
    ensures h.Contains(-sinT * box.x.min + cosT * box.z.min) && h.Contains(-sinT * box.x.min + cosT * box.z.max)
    ensures h.Contains(-sinT * box.x.max + cosT * box.z.min) && h.Contains(-sinT * box.x.max + cosT * box.z.max)
  {
    var x0, x1, y0, z0, z1 := box.x.min, box.x.max, box.y.min, box.z.min, box.z.max;
    HullHoldsCorner(h, box, sinT, cosT, 2, 0, 0, 0, x0, y0, z0);
    HullHoldsCorner(h, box, sinT, cosT, 2, 0, 0, 1, x0, y0, z1);
    HullHoldsCorner(h, box, sinT, cosT, 2, 1, 0, 0, x1, y0, z0);
    HullHoldsCorner(h, box, sinT, cosT, 2, 1, 0, 1, x1, y0, z1);
  }

  /** Axis a of the hull holds coordinate a of the rotated corner (i, j, k),
      whose unrotated coordinates are (x, y, z). */
  lemma HullHoldsCorner(h: Interval, box: Aabb, sinT: real, cosT: real, a: nat,
                        i: int, j: int, k: int, x: real, y: real, z: real)
    requires a < 3 && 0 <= i < 2 && 0 <= j < 2 && 0 <= k < 2
    requires x == CornerCoord(box.x, i) && y == CornerCoord(box.y, j) && z == CornerCoord(box.z, k)
    requires AxisBounds(h.min, h.max, RotatedCorners(box, sinT, cosT), a)
    ensures h.Contains(Vec3(x, y, z).RotatedY(sinT, cosT).At(a))
  {
    CornerIndex(box, sinT, cosT, i, j, k);
    assert h.Contains(RotatedCorners(box, sinT, cosT)[4 * i + 2 * j + k].At(a));
  }

  /** kx*px + kz*pz over a rectangle is bounded by its values at the four
      corners of the rectangle. */
  lemma CombinationInRange(h: Interval, kx: real, kz: real, x0: real, x1: real, z0: real, z1: real, px: real, pz: real)
    requires x0 <= px <= x1 && z0 <= pz <= z1
    requires h.Contains(kx * x0 + kz * z0) && h.Contains(kx * x0 + kz * z1)
    requires h.Contains(kx * x1 + kz * z0) && h.Contains(kx * x1 + kz * z1)
    ensures h.Contains(kx * px + kz * pz)
  {
    MulRange(kx, x0, x1, px);
    MulRange(kz, z0, z1, pz);
    SumInRange(kx * x0, kx * x1, kz * z0, kz * z1, kx * px, kz * pz, h);
  }

  /** k*a over a in [lo, hi] lies between k*lo and k*hi, in one order or the
      other. */
  lemma MulRange(k: real, lo: real, hi: real, a: real)
    requires lo <= a <= hi
    ensures Min(k * lo, k * hi) <= k * a <= Max(k * lo, k * hi)
  {
    if k >= 0.0 {
      assert k * (a - lo) >= 0.0 && k * (hi - a) >= 0.0;
    } else {
      assert k * (a - lo) <= 0.0 && k * (hi - a) <= 0.0;
    }
  }

  /** If an interval holds all four sums p_i + q_k, it holds every a + b
      with a between p0 and p1 and b between q0 and q1. */
  lemma SumInRange(p0: real, p1: real, q0: real, q1: real, a: real, b: real, h: Interval)
    requires h.Contains(p0 + q0) && h.Contains(p0 + q1) && h.Contains(p1 + q0) && h.Contains(p1 + q1)
    requires Min(p0, p1) <= a <= Max(p0, p1) && Min(q0, q1) <= b <= Max(q0, q1)
    ensures h.Contains(a + b)
  {
  }

  /** lo and hi are, on every axis, the tightest bounds of pts. */
  ghost predicate HullOf(lo: Vec3, hi: Vec3, pts: seq<Vec3>) {
    AxisHull(lo.x, hi.x, pts, 0) && AxisHull(lo.y, hi.y, pts, 1) && AxisHull(lo.z, hi.z, pts, 2)
  }

  /** Running bounds that are the tightest bounds of the eight rotated
      corners, the first one counted twice as the seed, make the box from lo
      to hi the corner hull. */
  lemma CornerHullFromAxes(lo: Vec3, hi: Vec3, box: Aabb, sinT: real, cosT: real)
    requires var cs := RotatedCorners(box, sinT, cosT);
      HullOf(lo, hi, [cs[0]] + cs[..8])
    ensures IsCornerHull(BoxFromCorners(lo, hi), box, sinT, cosT)
  {
    var cs := RotatedCorners(box, sinT, cosT);
    assert cs[..8] == cs;
    AxisHullDropRepeat(lo.x, hi.x, cs, 0);
    AxisHullDropRepeat(lo.y, hi.y, cs, 1);
    AxisHullDropRepeat(lo.z, hi.z, cs, 2);
  }
}
