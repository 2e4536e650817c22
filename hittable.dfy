/**
 * hittable and its three decorators. A hittable is a closed union: an
 * abstract primitive (any geometry outside this layer, given by what its
 * intersection test and its bounding_box report) or one of flip_face,
 * translate and rotate_y wrapping another hittable.
 *
 * The intersection tests update the caller's hit record in place; each is
 * a method proved to leave the record as the specification function
 * HitOutcome says, and the properties of the decorators are stated about
 * HitOutcome and BoundingBox.
 */
module Hittables {
  import opened Geometry
  import opened HitRecords
  import opened CornerHulls

  /** What `bounding_box(output_box)` reports: its boolean result and the box
      it leaves in output_box. */
  datatype BoxResult = BoxResult(has: bool, box: Aabb)

  datatype Hittable =
      /** A primitive: hitFn maps the ray, the valid parameter range and the
          record's current contents to the answer and the record's new
          contents; boxResult is its bounding_box answer. */
    | Primitive(hitFn: (Ray, Interval, HitData) -> HitResult, boxResult: BoxResult)
    | FlipFace(ptr: Hittable)
    | Translate(ptr: Hittable, offset: Vec3)
      /** sinTheta and cosTheta are the sine and cosine of the angle; hasbox
          and bbox are computed once by the constructor, NewRotateY. */
    | RotateY(ptr: Hittable, sinTheta: real, cosTheta: real, hasbox: bool, bbox: Aabb)

  /** The ray translate hands to its child: origin moved by -offset, same
      direction and time. */
  function MovedRay(r: Ray, offset: Vec3): Ray {
    Ray(r.origin.Sub(offset), r.direction, r.time)
  }

  /** The ray rotate_y hands to its child: origin and direction taken into
      the child's frame, same time. */
  function RotatedRay(r: Ray, sinT: real, cosT: real): Ray {
    Ray(r.origin.UnrotatedY(sinT, cosT), r.direction.UnrotatedY(sinT, cosT), r.time)
  }

  /** `hit(r, ray_t, rec)`: the answer and the record contents afterwards,
      when the record held rec before the call. */
  function HitOutcome(h: Hittable, r: Ray, rayT: Interval, rec: HitData): HitResult
    decreases h, 1
  {
    match h
    case Primitive(hitFn, _) => hitFn(r, rayT, rec)
    case FlipFace(_) => FlipFaceOutcome(h, r, rayT, rec)
    case Translate(_, _) => TranslateOutcome(h, r, rayT, rec)
    case RotateY(_, _, _, _, _) => RotateYOutcome(h, r, rayT, rec)
  }

  /** flip_face::hit: the child's answer on the same ray and range; on a hit
      only front_face changes, and it is inverted. */
  function FlipFaceOutcome(h: Hittable, r: Ray, rayT: Interval, rec: HitData): (res: HitResult)
    requires h.FlipFace?
    decreases h, 0
    ensures var child := HitOutcome(h.ptr, r, rayT, rec);
      && res.hit == child.hit
      && (!child.hit ==> res.rec == child.rec)
      && (child.hit ==> res.rec.frontFace != child.rec.frontFace
                        && res.rec.(frontFace := child.rec.frontFace) == child.rec)
  {
    var child := HitOutcome(h.ptr, r, rayT, rec);
    if !child.hit then child
    else HitResult(true, child.rec.(frontFace := !child.rec.frontFace))
  }

  /** translate::hit: the child is asked about the moved ray with the same
      range; on a hit the point is moved back by +offset, t, u, v and the
      material are kept, and the normal is the child's, turned to face the
      ray (whose direction is the original one). */
  function TranslateOutcome(h: Hittable, r: Ray, rayT: Interval, rec: HitData): (res: HitResult)
    requires h.Translate?
    decreases h, 0
    ensures var child := HitOutcome(h.ptr, MovedRay(r, h.offset), rayT, rec);
      && res.hit == child.hit
      && (!child.hit ==> res.rec == child.rec)
      && (child.hit ==>
            && res.rec.p == child.rec.p.Add(h.offset)
            && res.rec.t == child.rec.t && res.rec.u == child.rec.u && res.rec.v == child.rec.v
            && res.rec.mat == child.rec.mat
            && (res.rec.frontFace <==> Dot(r.direction, child.rec.normal) < 0.0)
            && res.rec.normal == (if res.rec.frontFace then child.rec.normal else child.rec.normal.Neg())
            && Dot(r.direction, res.rec.normal) <= 0.0)
  {
    var moved := MovedRay(r, h.offset);
    var child := HitOutcome(h.ptr, moved, rayT, rec);
    if !child.hit then child
    else HitResult(true, WithFaceNormal(child.rec.(p := child.rec.p.Add(h.offset)), moved.direction, child.rec.normal))
  }

  /** rotate_y::hit: the child is asked about the ray taken into its frame,
      with the same range; on a hit the point and the normal are rotated
      back, t, u, v and the material are kept, and front_face compares the
      rotated-back normal with the direction of the child-frame ray. */
  function RotateYOutcome(h: Hittable, r: Ray, rayT: Interval, rec: HitData): (res: HitResult)
    requires h.RotateY?
    decreases h, 0
    ensures var local := RotatedRay(r, h.sinTheta, h.cosTheta);
      var child := HitOutcome(h.ptr, local, rayT, rec);
      var n := child.rec.normal.RotatedY(h.sinTheta, h.cosTheta);
      && res.hit == child.hit
      && (!child.hit ==> res.rec == child.rec)
      && (child.hit ==>
            && res.rec.p == child.rec.p.RotatedY(h.sinTheta, h.cosTheta)
            && res.rec.t == child.rec.t && res.rec.u == child.rec.u && res.rec.v == child.rec.v
            && res.rec.mat == child.rec.mat
            && (res.rec.frontFace <==> Dot(local.direction, n) < 0.0)
            && res.rec.normal == (if res.rec.frontFace then n else n.Neg())
            && Dot(local.direction, res.rec.normal) <= 0.0)
  {
    var s, c := h.sinTheta, h.cosTheta;
    var local := RotatedRay(r, s, c);
    var child := HitOutcome(h.ptr, local, rayT, rec);
    if !child.hit then child
    else HitResult(true, WithFaceNormal(child.rec.(p := child.rec.p.RotatedY(s, c)),
                                        local.direction, child.rec.normal.RotatedY(s, c)))
  }

  /** `bounding_box(output_box)`. */
  function BoundingBox(h: Hittable): BoxResult {
    match h
    case Primitive(_, boxResult) => boxResult
    case FlipFace(ptr) => BoundingBox(ptr)
    case Translate(ptr, offset) =>
      var child := BoundingBox(ptr);
      if !child.has then child else BoxResult(true, child.box.Shift(offset))
    case RotateY(_, _, _, hasbox, bbox) => BoxResult(hasbox, bbox)
  }

  /** A rotate_y holds what its constructor computes from its child: sine
      and cosine of one angle, the child's has-box answer and the corner
      hull of the child's box. */
  ghost predicate Constructed(h: Hittable)
    requires h.RotateY?
  {
    && SineCosine(h.sinTheta, h.cosTheta)
    && h.hasbox == BoundingBox(h.ptr).has
    && IsCornerHull(h.bbox, BoundingBox(h.ptr).box, h.sinTheta, h.cosTheta)
  }

  /** Every rotate_y in h was built by its constructor. */
  ghost predicate WellFormed(h: Hittable) {
    match h
    case Primitive(_, _) => true
    case FlipFace(ptr) => WellFormed(ptr)
    case Translate(ptr, _) => WellFormed(ptr)
    case RotateY(ptr, _, _, _, _) => WellFormed(ptr) && Constructed(h)
  }

  /** The running minimum and maximum arrays of the rotate_y constructor
      hold, axis by axis, the tightest bounds of the corners in pts. */
  ghost predicate ArraysHull(lo: array<real>, hi: array<real>, pts: seq<Vec3>)
    reads lo, hi
  {
    lo.Length == 3 && hi.Length == 3
    && HullOf(Vec3(lo[0], lo[1], lo[2]), Vec3(hi[0], hi[1], hi[2]), pts)
  }

  /** The innermost loop of the rotate_y constructor: folds one rotated
      corner into the running minimum and maximum, axis by axis. */
  method FoldCorner(lo: array<real>, hi: array<real>, ghost seen: seq<Vec3>, tester: Vec3)
    requires lo != hi && ArraysHull(lo, hi, seen)
    modifies lo, hi
    ensures ArraysHull(lo, hi, seen + [tester])
    ensures forall a :: 0 <= a < 3 ==> lo[a] == Min(old(lo[a]), tester.At(a)) && hi[a] == Max(old(hi[a]), tester.At(a))
  {
    for c := 0 to 3
      invariant forall a :: 0 <= a < c ==> lo[a] == Min(old(lo[a]), tester.At(a)) && hi[a] == Max(old(hi[a]), tester.At(a))
      invariant forall a :: c <= a < 3 ==> lo[a] == old(lo[a]) && hi[a] == old(hi[a])
    {
      lo[c] := Min(lo[c], tester.At(c));
      hi[c] := Max(hi[c], tester.At(c));
    }
    AxisHullExtend(old(lo[0]), old(hi[0]), seen, tester, 0);
    AxisHullExtend(old(lo[1]), old(hi[1]), seen, tester, 1);
    AxisHullExtend(old(lo[2]), old(hi[2]), seen, tester, 2);
  }

  /** The body of the rotate_y constructor's corner loop on iteration
      (i, j, k): computes corner (i, j, k) of box, rotates it and folds it
      into the running minimum and maximum. */
  method FoldLoopCorner(lo: array<real>, hi: array<real>, bbox: Aabb, sinT: real, cosT: real, i: int, j: int, k: int, ghost n: nat)
    requires 0 <= i < 2 && 0 <= j < 2 && 0 <= k < 2 && n == 4 * i + 2 * j + k
    requires lo != hi
    requires ArraysHull(lo, hi, [RotatedCorners(bbox, sinT, cosT)[0]] + RotatedCorners(bbox, sinT, cosT)[..n])
    modifies lo, hi
    ensures ArraysHull(lo, hi, [RotatedCorners(bbox, sinT, cosT)[0]] + RotatedCorners(bbox, sinT, cosT)[..n + 1])
  {
    var x := (i as real) * bbox.x.max + ((1 - i) as real) * bbox.x.min;
    var y := (j as real) * bbox.y.max + ((1 - j) as real) * bbox.y.min;
    var z := (k as real) * bbox.z.max + ((1 - k) as real) * bbox.z.min;

    var newx := cosT * x + sinT * z;
    var newz := -sinT * x + cosT * z;

    var tester := Vec3(newx, y, newz);

    ghost var pts := RotatedCorners(bbox, sinT, cosT);
    LoopCorner(bbox, sinT, cosT, i, j, k, x, y, z);
    assert tester == pts[n];
    assert ([pts[0]] + pts[..n]) + [tester] == [pts[0]] + pts[..n + 1];
    FoldCorner(lo, hi, [pts[0]] + pts[..n], tester);
  }

  /** The constructor's triple loop over i, j, k in {0, 1}: folds the
      eight rotated corners, in that order, into the running extremes. */
  method FoldRotatedCorners(lo: array<real>, hi: array<real>, bbox: Aabb, sinT: real, cosT: real)
    requires lo != hi
    requires ArraysHull(lo, hi, [RotatedCorners(bbox, sinT, cosT)[0]])
    modifies lo, hi
    ensures var pts := RotatedCorners(bbox, sinT, cosT);
      ArraysHull(lo, hi, [pts[0]] + pts[..8])
  {
    ghost var pts := RotatedCorners(bbox, sinT, cosT);
    assert [pts[0]] + pts[..0] == [pts[0]];
    ghost var n := 0;
    for i := 0 to 2
      invariant n == 4 * i && ArraysHull(lo, hi, [pts[0]] + pts[..n])
    {
      for j := 0 to 2
        invariant n == 4 * i + 2 * j && ArraysHull(lo, hi, [pts[0]] + pts[..n])
      {
        for k := 0 to 2
          invariant n == 4 * i + 2 * j + k && ArraysHull(lo, hi, [pts[0]] + pts[..n])
        {
          FoldLoopCorner(lo, hi, bbox, sinT, cosT, i, j, k, n);
          n := n + 1;
        }
      }
    }
  }

  /** The running extremes, both started at one corner. */
  method SeedFromCorner(first: Vec3) returns (lo: array<real>, hi: array<real>)
    ensures fresh(lo) && fresh(hi) && lo != hi
    ensures ArraysHull(lo, hi, [first])
  {
    lo := new real[3];
    hi := new real[3];
    lo[0], lo[1], lo[2] := first.x, first.y, first.z;
    hi[0], hi[1], hi[2] := first.x, first.y, first.z;
    AxisHullSingle(first, 0);
    AxisHullSingle(first, 1);
    AxisHullSingle(first, 2);
  }

  /** The rotate_y constructor: asks the child for its box, then folds the
      eight rotated corners of that box into a componentwise min and max.
      The loop runs whether or not the child has a box, as the C++ constructor's does;
      the running min and max start at the first corner instead of at
      +infinity and -infinity, which gives the same result over the reals. */
  method NewRotateY(ptr: Hittable, sinT: real, cosT: real) returns (h: Hittable)
    requires SineCosine(sinT, cosT)
    ensures h.RotateY? && h.ptr == ptr && h.sinTheta == sinT && h.cosTheta == cosT
    ensures Constructed(h)
    ensures WellFormed(ptr) ==> WellFormed(h)
  {
    var hasbox, bbox := GetBoundingBox(ptr);
    ghost var childBox := BoundingBox(ptr);

    var lo, hi := SeedFromCorner(RotatedCorner(bbox, sinT, cosT, 0, 0, 0));
    CornerIndex(bbox, sinT, cosT, 0, 0, 0);
    FoldRotatedCorners(lo, hi, bbox, sinT, cosT);

    var min := Vec3(lo[0], lo[1], lo[2]);
    var max := Vec3(hi[0], hi[1], hi[2]);
    CornerHullFromAxes(min, max, childBox.box, sinT, cosT);
    bbox := BoxFromCorners(min, max);
    h := RotateY(ptr, sinT, cosT, hasbox, bbox);
  }

  /** `bounding_box(output_box)` on any hittable: the answer and what is
      left in output_box. */
  method GetBoundingBox(h: Hittable) returns (has: bool, outputBox: Aabb)
    ensures BoxResult(has, outputBox) == BoundingBox(h)
  {
    match h
    case Primitive(_, boxResult) =>
      has, outputBox := boxResult.has, boxResult.box;
    case FlipFace(ptr) =>
      has, outputBox := GetBoundingBox(ptr);
    case Translate(ptr, offset) =>
      has, outputBox := GetBoundingBox(ptr);
      if !has {
        return false, outputBox;
      }
      outputBox := outputBox.Shift(offset);
      has := true;
    case RotateY(_, _, _, hasbox, bbox) =>
      outputBox := bbox;
      has := hasbox;
  }

  /** `hit(r, ray_t, rec)` on any hittable: updates rec in place. */
  method Hit(h: Hittable, r: Ray, rayT: Interval, rec: HitRecord) returns (hit: bool)
    modifies rec
    ensures HitResult(hit, rec.Data()) == HitOutcome(h, r, rayT, old(rec.Data()))
    decreases h, 1
  {
    match h
    case Primitive(hitFn, _) =>
      var res := hitFn(r, rayT, rec.Data());
      rec.Store(res.rec);
      hit := res.hit;
    case FlipFace(_) =>
      hit := FlipFaceHit(h, r, rayT, rec);
    case Translate(_, _) =>
      hit := TranslateHit(h, r, rayT, rec);
    case RotateY(_, _, _, _, _) =>
      hit := RotateYHit(h, r, rayT, rec);
  }

  method FlipFaceHit(h: Hittable, r: Ray, rayT: Interval, rec: HitRecord) returns (hit: bool)
    requires h.FlipFace?
    modifies rec
    ensures HitResult(hit, rec.Data()) == FlipFaceOutcome(h, r, rayT, old(rec.Data()))
    decreases h, 0
  {
    hit := Hit(h.ptr, r, rayT, rec);
    if !hit {
      return false;
    }
    rec.frontFace := !rec.frontFace;
    return true;
  }

  method TranslateHit(h: Hittable, r: Ray, rayT: Interval, rec: HitRecord) returns (hit: bool)
    requires h.Translate?
    modifies rec
    ensures HitResult(hit, rec.Data()) == TranslateOutcome(h, r, rayT, old(rec.Data()))
    decreases h, 0
  {
    var movedR := Ray(r.origin.Sub(h.offset), r.direction, r.time);
    hit := Hit(h.ptr, movedR, rayT, rec);
    if !hit {
      return false;
    }
    rec.p := rec.p.Add(h.offset);
    rec.SetFaceNormal(movedR, rec.normal);
    return true;
  }

  method RotateYHit(h: Hittable, r: Ray, rayT: Interval, rec: HitRecord) returns (hit: bool)
    requires h.RotateY?
    modifies rec
    ensures HitResult(hit, rec.Data()) == RotateYOutcome(h, r, rayT, old(rec.Data()))
    decreases h, 0
  {
    var sinT, cosT := h.sinTheta, h.cosTheta;
    var origin := r.origin;
    var direction := r.direction;

    origin := origin.(x := cosT * r.origin.x - sinT * r.origin.z);
    origin := origin.(z := sinT * r.origin.x + cosT * r.origin.z);

    direction := direction.(x := cosT * r.direction.x - sinT * r.direction.z);
    direction := direction.(z := sinT * r.direction.x + cosT * r.direction.z);

    var rotatedR := Ray(origin, direction, r.time);
    assert rotatedR == RotatedRay(r, sinT, cosT);

    hit := Hit(h.ptr, rotatedR, rayT, rec);
    if !hit {
      return false;
    }

    ghost var child := rec.Data();
    var p := rec.p;
    var normal := rec.normal;

    p := p.(x := cosT * rec.p.x + sinT * rec.p.z);
    p := p.(z := -sinT * rec.p.x + cosT * rec.p.z);

    normal := normal.(x := cosT * rec.normal.x + sinT * rec.normal.z);
    normal := normal.(z := -sinT * rec.normal.x + cosT * rec.normal.z);

    assert p == child.p.RotatedY(sinT, cosT);
    assert normal == child.normal.RotatedY(sinT, cosT);
    rec.p := p;
    assert rec.Data() == child.(p := child.p.RotatedY(sinT, cosT));
    rec.SetFaceNormal(rotatedR, normal);
    return true;
  }
}
