/**
 * What the decorators promise when they are composed, undone or given
 * particular angles, stated about HitOutcome and BoundingBox.
 */
module DecoratorProperties {
  import opened Geometry
  import opened HitRecords
  import opened CornerHulls
  import opened Hittables

  /** Flipping twice gives back the child's answer, record and box. */
  lemma FlipFaceTwice(h: Hittable, r: Ray, rayT: Interval, rec: HitData)
    ensures HitOutcome(FlipFace(FlipFace(h)), r, rayT, rec) == HitOutcome(h, r, rayT, rec)
    ensures BoundingBox(FlipFace(FlipFace(h))) == BoundingBox(h)
  {
    var child := HitOutcome(h, r, rayT, rec);
    var once := HitOutcome(FlipFace(h), r, rayT, rec);
    if child.hit {
      assert once.rec == child.rec.(frontFace := !child.rec.frontFace);
    }
  }

  /** Translating by offset and then by -offset hands the child the original
      ray and gives back its hit point, t, u, v and material; the normal is
      the child's re-oriented twice against the ray, which is the child's own
      unless it points away from the ray, and front_face then says whether
      the normal is not tangent to the ray. */
  lemma {:induction false} TranslateThereAndBack(h: Hittable, offset: Vec3, r: Ray, rayT: Interval, rec: HitData)
    ensures var back := HitOutcome(Translate(Translate(h, offset), offset.Neg()), r, rayT, rec);
      var orig := HitOutcome(h, r, rayT, rec);
      && back.hit == orig.hit
      && (!orig.hit ==> back.rec == orig.rec)
      && (orig.hit ==>
            && back.rec.p == orig.rec.p
            && back.rec.t == orig.rec.t && back.rec.u == orig.rec.u && back.rec.v == orig.rec.v
            && back.rec.mat == orig.rec.mat
            && back.rec.normal == Reoriented(orig.rec.normal, r.direction)
            && (back.rec.frontFace <==> Dot(r.direction, orig.rec.normal) != 0.0))
  {
    var inner := Translate(h, offset);
    var outerRay := MovedRay(r, offset.Neg());
    assert MovedRay(outerRay, offset) == r;
    var orig := HitOutcome(h, r, rayT, rec);
    if orig.hit {
      assert HitOutcome(h, MovedRay(outerRay, offset), rayT, rec) == orig;
      assert HitOutcome(inner, outerRay, rayT, rec) == TranslateOutcome(inner, outerRay, rayT, rec);
      var once := HitOutcome(inner, outerRay, rayT, rec).rec;
      assert once == WithFaceNormal(orig.rec.(p := orig.rec.p.Add(offset)), r.direction, orig.rec.normal);
      assert once.p.Add(offset.Neg()) == orig.rec.p;
      FaceNormalTwice(orig.rec.(p := orig.rec.p.Add(offset)), r.direction, orig.rec.normal);
    }
  }

  /** translate's box is the child's box with every axis moved by the
      matching offset component, and holds exactly the moved points of the
      child's box; without a child box there is none. */
  lemma TranslateBoxShifts(h: Hittable, offset: Vec3, q: Vec3)
    ensures BoundingBox(Translate(h, offset)).has == BoundingBox(h).has
    ensures BoundingBox(h).has ==>
      && BoundingBox(Translate(h, offset)).box == BoundingBox(h).box.Shift(offset)
      && (BoundingBox(Translate(h, offset)).box.Contains(q.Add(offset)) <==> BoundingBox(h).box.Contains(q))
  {
  }

  /** A child hit point on the moved ray at parameter t becomes a point of
      the original ray at the same t. */
  lemma TranslatePointOnRay(h: Hittable, r: Ray, rayT: Interval, rec: HitData)
    requires h.Translate?
    ensures var moved := MovedRay(r, h.offset);
      var child := HitOutcome(h.ptr, moved, rayT, rec);
      var res := HitOutcome(h, r, rayT, rec);
      child.hit && child.rec.p == moved.At(child.rec.t) ==> res.rec.p == r.At(res.rec.t)
  {
  }

  /** A unit sphere at the origin moved to (5, 0, 0): its box [-1, 1] on
      every axis becomes [4, 6] x [-1, 1] x [-1, 1], and a ray from
      (5, 0, -10) along +z reaches the sphere as a ray from (0, 0, -10); the
      sphere's hit at (0, 0, -1) with outward normal (0, 0, -1) becomes the
      world point (5, 0, -1), seen from the front. */
  lemma TranslateSphereScenario(hitFn: (Ray, Interval, HitData) -> HitResult, time: real, rayT: Interval, rec: HitData)
    requires var c := hitFn(Ray(Vec3(0.0, 0.0, -10.0), Vec3(0.0, 0.0, 1.0), time), rayT, rec);
      c.hit && c.rec.p == Vec3(0.0, 0.0, -1.0) && c.rec.normal == Vec3(0.0, 0.0, -1.0)
    ensures var unit := Interval(-1.0, 1.0);
      var sphere := Primitive(hitFn, BoxResult(true, Aabb(unit, unit, unit)));
      var moved := Translate(sphere, Vec3(5.0, 0.0, 0.0));
      var res := HitOutcome(moved, Ray(Vec3(5.0, 0.0, -10.0), Vec3(0.0, 0.0, 1.0), time), rayT, rec);
      && BoundingBox(moved) == BoxResult(true, Aabb(Interval(4.0, 6.0), unit, unit))
      && res.hit && res.rec.p == Vec3(5.0, 0.0, -1.0)
      && res.rec.normal == Vec3(0.0, 0.0, -1.0) && res.rec.frontFace
  {
    var r := Ray(Vec3(5.0, 0.0, -10.0), Vec3(0.0, 0.0, 1.0), time);
    assert MovedRay(r, Vec3(5.0, 0.0, 0.0)) == Ray(Vec3(0.0, 0.0, -10.0), Vec3(0.0, 0.0, 1.0), time);
  }

  /** A child hit point on the child-frame ray at parameter t becomes a point
      of the world ray at the same t. */
  lemma RotateYPointOnRay(h: Hittable, r: Ray, rayT: Interval, rec: HitData)
    requires h.RotateY? && SineCosine(h.sinTheta, h.cosTheta)
    ensures var local := RotatedRay(r, h.sinTheta, h.cosTheta);
      var child := HitOutcome(h.ptr, local, rayT, rec);
      var res := HitOutcome(h, r, rayT, rec);
      child.hit && child.rec.p == local.At(child.rec.t) ==> res.rec.p == r.At(res.rec.t)
  {
    var s, c := h.sinTheta, h.cosTheta;
    var local := RotatedRay(r, s, c);
    var child := HitOutcome(h.ptr, local, rayT, rec);
    if child.hit && child.rec.p == local.At(child.rec.t) {
      RotationMapsRayPoint(local.origin, local.direction, child.rec.t, s, c);
      RotationRoundTrip(r.origin, s, c);
      RotationRoundTrip(r.direction, s, c);
    }
  }

  /** Rotating the point the child reports back into the world and then into
      the child's frame again gives the child's point. */
  lemma RotateYPointRoundTrip(h: Hittable, r: Ray, rayT: Interval, rec: HitData)
    requires h.RotateY? && SineCosine(h.sinTheta, h.cosTheta)
    ensures var child := HitOutcome(h.ptr, RotatedRay(r, h.sinTheta, h.cosTheta), rayT, rec);
      var res := HitOutcome(h, r, rayT, rec);
      child.hit ==> res.rec.p.UnrotatedY(h.sinTheta, h.cosTheta) == child.rec.p
  {
    var child := HitOutcome(h.ptr, RotatedRay(r, h.sinTheta, h.cosTheta), rayT, rec);
    RotationRoundTrip(child.rec.p, h.sinTheta, h.cosTheta);
  }

  /** The angle whose sine is 0 and cosine 1 (0 or 360 degrees) hands the
      child the world ray and gives back its hit point, t, u, v and material;
      the normal is the child's turned to face the ray and front_face is
      recomputed from it, so the child's own front_face is not kept. */
  lemma RotateYAngleZero(h: Hittable, r: Ray, rayT: Interval, rec: HitData)
    requires h.RotateY? && h.sinTheta == 0.0 && h.cosTheta == 1.0
    ensures var orig := HitOutcome(h.ptr, r, rayT, rec);
      var res := HitOutcome(h, r, rayT, rec);
      && res.hit == orig.hit
      && (!orig.hit ==> res.rec == orig.rec)
      && (orig.hit ==>
            && res.rec.p == orig.rec.p
            && res.rec.t == orig.rec.t && res.rec.u == orig.rec.u && res.rec.v == orig.rec.v
            && res.rec.mat == orig.rec.mat
            && (res.rec.frontFace <==> Dot(r.direction, orig.rec.normal) < 0.0)
            && res.rec.normal == (if res.rec.frontFace then orig.rec.normal else orig.rec.normal.Neg()))
  {
    assert RotatedRay(r, 0.0, 1.0) == r;
    var orig := HitOutcome(h.ptr, r, rayT, rec);
    assert orig.rec.p.RotatedY(0.0, 1.0) == orig.rec.p;
    assert orig.rec.normal.RotatedY(0.0, 1.0) == orig.rec.normal;
  }

  /** Seen from the world, the rotated-back normal makes with the world ray
      the same dot product the child's normal makes with the child-frame
      ray; rotate_y's front-face test uses neither of these but the
      child-frame ray against the rotated-back normal. */
  lemma RotateYFramesAgree(h: Hittable, r: Ray, rayT: Interval, rec: HitData)
    requires h.RotateY? && SineCosine(h.sinTheta, h.cosTheta)
    ensures var local := RotatedRay(r, h.sinTheta, h.cosTheta);
      var n := HitOutcome(h.ptr, local, rayT, rec).rec.normal;
      Dot(r.direction, n.RotatedY(h.sinTheta, h.cosTheta)) == Dot(local.direction, n)
  {
    var s, c := h.sinTheta, h.cosTheta;
    var local := RotatedRay(r, s, c);
    var n := HitOutcome(h.ptr, local, rayT, rec).rec.normal;
    RotationRoundTrip(r.direction, s, c);
    RotationPreservesDot(local.direction, n, s, c);
  }

  /** The consequence of the mixed-frame front-face test: when the child
      hits and its normal faces the child-frame direction, but the
      rotated-back normal does not, rotate_y reports a back face
      and stores a normal that points along the world ray, although the
      rotated-back normal faces the world ray head-on. */
  lemma RotateYMixedFrameFlip(h: Hittable, r: Ray, rayT: Interval, rec: HitData)
    requires h.RotateY? && SineCosine(h.sinTheta, h.cosTheta)
    ensures var local := RotatedRay(r, h.sinTheta, h.cosTheta);
      var child := HitOutcome(h.ptr, local, rayT, rec);
      var n := child.rec.normal.RotatedY(h.sinTheta, h.cosTheta);
      var res := HitOutcome(h, r, rayT, rec);
      child.hit && Dot(local.direction, child.rec.normal) < 0.0 && Dot(local.direction, n) >= 0.0 ==>
        && Dot(r.direction, n) < 0.0
        && res.hit && !res.rec.frontFace
        && res.rec.normal == n.Neg()
        && Dot(r.direction, res.rec.normal) > 0.0
  {
    var local := RotatedRay(r, h.sinTheta, h.cosTheta);
    var child := HitOutcome(h.ptr, local, rayT, rec);
    var n := child.rec.normal.RotatedY(h.sinTheta, h.cosTheta);
    RotateYFramesAgree(h, r, rayT, rec);
    DotNeg(r.direction, n);
    assert HitOutcome(h, r, rayT, rec) == RotateYOutcome(h, r, rayT, rec);
  }

  // A quarter turn (sine 1, cosine 0) with the world direction (1, 0, 0)
  // and the child normal (0, 0, -1), step by step; QuarterTurnMeetsMixedFrame
  // puts the steps together on a rotate_y.

  /** A quarter turn is a rotation, and it takes the world direction
      (1, 0, 0) to the child-frame direction (0, 0, 1). */
  lemma QuarterTurnLocalDirection(d: Vec3)
    requires d == Vec3(1.0, 0.0, 0.0)
    ensures SineCosine(1.0, 0.0) && d.UnrotatedY(1.0, 0.0) == Vec3(0.0, 0.0, 1.0)
  {
  }

  /** The child normal (0, 0, -1) faces the child-frame direction (0, 0, 1)
      head-on. */
  lemma QuarterTurnChildFacing(l: Vec3, m: Vec3)
    requires l == Vec3(0.0, 0.0, 1.0) && m == Vec3(0.0, 0.0, -1.0)
    ensures Dot(l, m) < 0.0
  {
  }

  /** A quarter turn takes the child normal (0, 0, -1) back to the world
      normal (-1, 0, 0). */
  lemma QuarterTurnWorldNormal(m: Vec3)
    requires m == Vec3(0.0, 0.0, -1.0)
    ensures m.RotatedY(1.0, 0.0) == Vec3(-1.0, 0.0, 0.0)
  {
  }

  /** The world normal (-1, 0, 0) is tangent to the child-frame direction
      (0, 0, 1), so the child-frame test reports a back face. */
  lemma QuarterTurnWorldTangent(l: Vec3, n: Vec3)
    requires l == Vec3(0.0, 0.0, 1.0) && n == Vec3(-1.0, 0.0, 0.0)
    ensures Dot(l, n) == 0.0
  {
  }

  /** The stored normal, the negation of (-1, 0, 0), is (1, 0, 0): it points
      along the world direction. */
  lemma QuarterTurnStoredNormal(d: Vec3, n: Vec3)
    requires d == Vec3(1.0, 0.0, 0.0) && n == Vec3(-1.0, 0.0, 0.0)
    ensures n.Neg() == d && Dot(d, n.Neg()) > 0.0
  {
  }

  /** A quarter-turn rotate_y whose child answers the world ray along
      (1, 0, 0) with the normal (0, 0, -1) meets every hypothesis of
      RotateYMixedFrameFlip. */
  lemma QuarterTurnMeetsMixedFrame(h: Hittable, r: Ray, rayT: Interval, rec: HitData)
    requires h.RotateY? && h.sinTheta == 1.0 && h.cosTheta == 0.0
    requires r.direction == Vec3(1.0, 0.0, 0.0)
    requires var child := HitOutcome(h.ptr, RotatedRay(r, h.sinTheta, h.cosTheta), rayT, rec);
      child.hit && child.rec.normal == Vec3(0.0, 0.0, -1.0)
    ensures SineCosine(h.sinTheta, h.cosTheta)
    ensures var local := RotatedRay(r, h.sinTheta, h.cosTheta);
      var child := HitOutcome(h.ptr, local, rayT, rec);
      var n := child.rec.normal.RotatedY(h.sinTheta, h.cosTheta);
      && child.hit
      && Dot(local.direction, child.rec.normal) < 0.0
      && Dot(local.direction, n) >= 0.0
  {
    var local := RotatedRay(r, h.sinTheta, h.cosTheta);
    var m := HitOutcome(h.ptr, local, rayT, rec).rec.normal;
    QuarterTurnLocalDirection(r.direction);
    QuarterTurnChildFacing(local.direction, m);
    QuarterTurnWorldNormal(m);
    QuarterTurnWorldTangent(local.direction, m.RotatedY(h.sinTheta, h.cosTheta));
  }

  /** On such a quarter turn, rotate_y reports a back face and stores the
      normal (1, 0, 0), which points along the world ray. */
  lemma {:induction false} QuarterTurnMixedFrameHit(h: Hittable, r: Ray, rayT: Interval, rec: HitData)
    requires h.RotateY? && h.sinTheta == 1.0 && h.cosTheta == 0.0
    requires r.direction == Vec3(1.0, 0.0, 0.0)
    requires var child := HitOutcome(h.ptr, RotatedRay(r, h.sinTheta, h.cosTheta), rayT, rec);
      child.hit && child.rec.normal == Vec3(0.0, 0.0, -1.0)
    ensures var res := HitOutcome(h, r, rayT, rec);
      && res.hit && !res.rec.frontFace
      && res.rec.normal == Vec3(1.0, 0.0, 0.0)
      && Dot(r.direction, res.rec.normal) > 0.0
  {
    QuarterTurnMeetsMixedFrame(h, r, rayT, rec);
    RotateYMixedFrameFlip(h, r, rayT, rec);
    var local := RotatedRay(r, h.sinTheta, h.cosTheta);
    var m := HitOutcome(h.ptr, local, rayT, rec).rec.normal;
    QuarterTurnWorldNormal(m);
    QuarterTurnStoredNormal(r.direction, m.RotatedY(h.sinTheta, h.cosTheta));
  }

  /** rotate_y reports its cached box, whatever its child would answer now. */
  lemma RotateYBoxIsCached(h: Hittable, other: Hittable)
    requires h.RotateY?
    ensures BoundingBox(h) == BoundingBox(h.(ptr := other)) == BoxResult(h.hasbox, h.bbox)
  {
  }

  /** A rotate_y built by its constructor has a box exactly when its child
      has one, and its box holds the rotation of every point of the child's
      box. */
  lemma RotateYBoxConservative(h: Hittable, q: Vec3)
    requires h.RotateY? && WellFormed(h)
    requires BoundingBox(h.ptr).box.Contains(q)
    ensures BoundingBox(h).has == BoundingBox(h.ptr).has
    ensures BoundingBox(h).box.Contains(q.RotatedY(h.sinTheta, h.cosTheta))
  {
    CornerHullContainsRotatedBox(h.bbox, BoundingBox(h.ptr).box, h.sinTheta, h.cosTheta, q);
  }

  /** The box a rotate_y constructor builds is ordered on every axis, so it
      is handed to `aabb(min, max)` with min <= max. */
  lemma RotateYBoxOrdered(h: Hittable)
    requires h.RotateY? && WellFormed(h)
    ensures Ordered(h.bbox.x) && Ordered(h.bbox.y) && Ordered(h.bbox.z)
  {
    var cs := RotatedCorners(BoundingBox(h.ptr).box, h.sinTheta, h.cosTheta);
    var mx :| 0 <= mx < |cs| && cs[mx].At(0) == h.bbox.x.min;
    var my :| 0 <= my < |cs| && cs[my].At(1) == h.bbox.y.min;
    var mz :| 0 <= mz < |cs| && cs[mz].At(2) == h.bbox.z.min;
  }

  /** Every rotated corner (i, j, k) of the child's box lies in the box of a
      rotate_y built by its constructor, whether or not the child's box is
      ordered. */
  lemma RotateYBoxHoldsCorner(h: Hittable, i: int, j: int, k: int)
    requires h.RotateY? && WellFormed(h)
    requires 0 <= i < 2 && 0 <= j < 2 && 0 <= k < 2
    ensures BoundingBox(h).box.Contains(RotatedCorner(BoundingBox(h.ptr).box, h.sinTheta, h.cosTheta, i, j, k))
  {
    var cs := RotatedCorners(BoundingBox(h.ptr).box, h.sinTheta, h.cosTheta);
    CornerIndex(BoundingBox(h.ptr).box, h.sinTheta, h.cosTheta, i, j, k);
    var m := 4 * i + 2 * j + k;
    assert h.bbox.x.Contains(cs[m].At(0));
    assert h.bbox.y.Contains(cs[m].At(1));
    assert h.bbox.z.Contains(cs[m].At(2));
  }

  predicate Ordered(iv: Interval) { iv.min <= iv.max }

  /** Every corner of b, rotated by sine 0 and cosine 1, has each coordinate
      at one end of the matching axis of b. */
  lemma ZeroTurnCorner(b: Aabb, m: int)
    requires 0 <= m < 8
    ensures var q := RotatedCorners(b, 0.0, 1.0)[m];
      && (q.x == b.x.min || q.x == b.x.max)
      && (q.y == b.y.min || q.y == b.y.max)
      && (q.z == b.z.min || q.z == b.z.max)
  {
  }

  /** Every corner of b, rotated by sine 1 and cosine 0, has x at an end of
      b's z axis, y at an end of its y axis and z at the negation of an end
      of its x axis. */
  lemma QuarterTurnCorner(b: Aabb, m: int)
    requires 0 <= m < 8
    ensures var q := RotatedCorners(b, 1.0, 0.0)[m];
      && (q.x == b.z.min || q.x == b.z.max)
      && (q.y == b.y.min || q.y == b.y.max)
      && (q.z == -b.x.min || q.z == -b.x.max)
  {
  }

  /** Tightest bounds, over axis a, of corners whose coordinate a is always
      one of the two ends of an ordered interval, and reaches both, are that
      interval. */
  lemma AxisEnds(hull: Interval, iv: Interval, cs: seq<Vec3>, a: nat)
    requires a < 3 && Ordered(iv)
    requires forall m :: 0 <= m < |cs| ==> cs[m].At(a) == iv.min || cs[m].At(a) == iv.max
    requires AxisHull(hull.min, hull.max, cs, a)
    requires exists m :: 0 <= m < |cs| && cs[m].At(a) == iv.min
    requires exists m :: 0 <= m < |cs| && cs[m].At(a) == iv.max
    ensures hull == iv
  {
    var mlo :| 0 <= mlo < |cs| && cs[mlo].At(a) == hull.min;
    var mhi :| 0 <= mhi < |cs| && cs[mhi].At(a) == hull.max;
    var m0 :| 0 <= m0 < |cs| && cs[m0].At(a) == iv.min;
    var m1 :| 0 <= m1 < |cs| && cs[m1].At(a) == iv.max;
    assert hull.min <= cs[m0].At(a) && cs[m1].At(a) <= hull.max;
  }

  /** At the angle whose sine is 0 and cosine 1 the box built by the
      constructor is the child's own, when that box is ordered. */
  lemma RotateYZeroKeepsBox(h: Hittable)
    requires h.RotateY? && WellFormed(h) && h.sinTheta == 0.0 && h.cosTheta == 1.0
    requires var b := BoundingBox(h.ptr).box; Ordered(b.x) && Ordered(b.y) && Ordered(b.z)
    ensures BoundingBox(h) == BoundingBox(h.ptr)
  {
    var b := BoundingBox(h.ptr).box;
    var cs := RotatedCorners(b, 0.0, 1.0);
    forall m | 0 <= m < 8
      ensures (cs[m].x == b.x.min || cs[m].x == b.x.max)
           && (cs[m].y == b.y.min || cs[m].y == b.y.max)
           && (cs[m].z == b.z.min || cs[m].z == b.z.max)
    {
      ZeroTurnCorner(b, m);
    }
    CornerIndex(b, 0.0, 1.0, 0, 0, 0);
    CornerIndex(b, 0.0, 1.0, 1, 1, 1);
    assert cs[0] == Vec3(b.x.min, b.y.min, b.z.min);
    assert cs[7] == Vec3(b.x.max, b.y.max, b.z.max);
    AxisEnds(h.bbox.x, b.x, cs, 0);
    AxisEnds(h.bbox.y, b.y, cs, 1);
    AxisEnds(h.bbox.z, b.z, cs, 2);
  }

  /** A quarter turn (sine 1, cosine 0) of the cube [-1, 1] on every axis
      gives back the same cube as the box. */
  lemma RotateYCubeQuarterTurn(h: Hittable)
    requires h.RotateY? && WellFormed(h) && h.sinTheta == 1.0 && h.cosTheta == 0.0
    requires var unit := Interval(-1.0, 1.0); BoundingBox(h.ptr) == BoxResult(true, Aabb(unit, unit, unit))
    ensures var unit := Interval(-1.0, 1.0); BoundingBox(h) == BoxResult(true, Aabb(unit, unit, unit))
  {
    var unit := Interval(-1.0, 1.0);
    var b := Aabb(unit, unit, unit);
    var cs := RotatedCorners(b, 1.0, 0.0);
    forall m | 0 <= m < 8
      ensures (cs[m].x == -1.0 || cs[m].x == 1.0)
           && (cs[m].y == -1.0 || cs[m].y == 1.0)
           && (cs[m].z == -1.0 || cs[m].z == 1.0)
    {
      QuarterTurnCorner(b, m);
    }
    CornerIndex(b, 1.0, 0.0, 0, 0, 0);
    CornerIndex(b, 1.0, 0.0, 1, 1, 1);
    assert cs[0] == Vec3(-1.0, -1.0, 1.0);
    assert cs[7] == Vec3(1.0, 1.0, -1.0);
    AxisEnds(h.bbox.x, unit, cs, 0);
    AxisEnds(h.bbox.y, unit, cs, 1);
    AxisEnds(h.bbox.z, unit, cs, 2);
  }
}
