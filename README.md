# Hittable decorators of a ray tracer

This project models the object layer of the "Ray Tracing: The Rest of Your
Life" renderer from `src/TheRestOfYourLife/hittable.h`, and proves facts about it:

- `hit_record`: the caller-owned record an intersection test fills in.
- `set_face_normal`: orients the record's normal against the ray and records
  whether the ray hit the front face.
- Three decorators, each wrapping another hittable:
  - `flip_face` inverts the front-face flag of its child's hits;
  - `translate` moves its child by an offset;
  - `rotate_y` rotates its child about the Y axis. At construction, its box
    is the componentwise minimum and maximum of the child's eight rotated box
    corners.

Modules, in dependency order:

- `Geometry` covers points, rays, intervals and boxes over exact reals. It
  includes the Y rotation (`RotatedY`) and its inverse (`UnrotatedY`), and
  proves that the two cancel and that both keep dot products.
- `HitRecords` has the record as a class `HitRecord` with a value snapshot
  `HitData`, plus `WithFaceNormal`, the formula `set_face_normal` applies.
- `CornerHulls` has the rotated corners of a box and the "corner hull"
  relation the `rotate_y` constructor establishes. It proves that every
  point of the rotated child box lies in that hull.
- `Hittables` has:
  - the closed union `Hittable`: an abstract primitive, or one of the three
    decorators;
  - the specification functions `HitOutcome` and `BoundingBox`;
  - the imperative members that mirror the C++ code. The `rotate_y`
    constructor with its corner loop over two three-element arrays is
    `NewRotateY`. The hit methods update a `HitRecord` in place and are
    proved to leave it as `HitOutcome` says. `GetBoundingBox` fills an
    out-parameter as `bounding_box` does.
- `DecoratorProperties` has the properties relating several calls:
  - flipping twice;
  - translating there and back;
  - box shifts;
  - rotation round trips;
  - the angles 0 and 90 degrees;
  - the sphere and cube examples;
  - what the mixed-frame front-face test does.

`rotate_y::hit` computes `front_face` with the direction of the child-frame
ray and the normal rotated back to the world frame. The model keeps the test
exactly as the code writes it, rather than correcting it.
`RotateYFramesAgree` shows which quantity a world-frame test would use.
`RotateYMixedFrameFlip` shows that the test as written can store a normal that
points along the world ray, and `QuarterTurnMixedFrameHit` shows it happening
on a quarter turn.

## Model

| member | source | states |
|---|---|---|
| HitRecords.WithFaceNormal | src/TheRestOfYourLife/hittable.h:32-35 | front_face holds exactly when the direction and the outward normal have negative dot product; the stored normal is the outward normal on a front face and its negation otherwise; the stored normal never points along the ray (dot <= 0); every other field is kept |
| HitRecords.FaceNormalTwice | src/TheRestOfYourLife/hittable.h:32-35 | orienting twice stores the outward normal when it does not point along the ray and its negation when it does (a tangent normal is negated by the first call and restored by the second); front_face after the second call holds exactly when the normal is not tangent to the ray |
| HitRecords.HitRecord.SetFaceNormal | src/TheRestOfYourLife/hittable.h:32-35 | the record in place becomes WithFaceNormal of its old contents, and its normal faces the ray |
| HitRecords.HitRecord.Store | src/TheRestOfYourLife/hittable.h:22-31 | the whole record takes the given contents, as a child's writes through the `hit_record&` do |
| Hittables.FlipFaceOutcome | src/TheRestOfYourLife/hittable.h:59-65 | the answer is the child's on the same ray and range; after a miss the record is what the child left; after a hit only front_face differs from the child's, and it is inverted |
| Hittables.TranslateOutcome | src/TheRestOfYourLife/hittable.h:81-90 | the child is asked about the ray with origin - offset, the same direction, time and range; a miss is passed through with the child's record; a hit has point child p + offset, the child's t, u, v and material, front_face iff dot(direction, child normal) < 0, normal = the child normal on a front face and its negation otherwise, facing the ray |
| Hittables.RotateYOutcome | src/TheRestOfYourLife/hittable.h:140-168 | the child is asked about the ray taken into its frame; a miss is passed through; a hit has point = forward rotation of the child point, the child's t, u, v and material, normal = the rotated child normal on a front face and its negation otherwise, front_face decided against the child-frame direction |
| Hittables.Hit | src/TheRestOfYourLife/hittable.h:41 | the virtual `hit` dispatch: the answer and the record left in place are HitOutcome of the old record |
| Hittables.FlipFaceHit | src/TheRestOfYourLife/hittable.h:59-65 | the flip_face method returns and leaves in the record exactly FlipFaceOutcome |
| Hittables.TranslateHit | src/TheRestOfYourLife/hittable.h:81-90 | the translate method, with its in-place `rec.p += offset` and set_face_normal call, returns and leaves exactly TranslateOutcome |
| Hittables.RotateYHit | src/TheRestOfYourLife/hittable.h:140-168 | the rotate_y method, building the local ray component by component from the original coordinates and rotating p and normal back the same way, returns and leaves exactly RotateYOutcome |
| Hittables.GetBoundingBox | src/TheRestOfYourLife/hittable.h:92-98 | the answer (also lines 67-69 and 170-173) and the box left in output_box are BoundingBox: flip_face passes the child's through; translate reports false with the child's box when the child has none, otherwise shifts every axis by the offset; rotate_y reports its cached values |
| Hittables.NewRotateY | src/TheRestOfYourLife/hittable.h:108-138 | the built rotate_y keeps the child, sine and cosine; hasbox is the child's bounding_box answer (line 112); the box made at line 137 holds all eight rotated child corners and each of its bounds is reached by one of them |
| Hittables.FoldRotatedCorners | src/TheRestOfYourLife/hittable.h:117-135 | after the triple loop the arrays hold, per axis, the least and greatest coordinate of the eight rotated corners |
| Hittables.FoldLoopCorner | src/TheRestOfYourLife/hittable.h:120-132 | one iteration (i, j, k) folds rotated corner 4i + 2j + k into the running extremes, which stay the tightest bounds of the corners seen |
| Hittables.FoldCorner | src/TheRestOfYourLife/hittable.h:129-132 | each array entry becomes the min (max) of its old value and the corner's coordinate, and the arrays stay the tightest bounds of the points seen |
| Hittables.SeedFromCorner | src/TheRestOfYourLife/hittable.h:114-115 | the running extremes start as the tightest bounds of a single corner |
| CornerHulls.LoopCorner | src/TheRestOfYourLife/hittable.h:120-127 | the corner the loop computes with `i*max + (1-i)*min` selectors and newx/newz is rotated corner 4i + 2j + k |
| CornerHulls.CornerSelector | src/TheRestOfYourLife/hittable.h:120-122 | the selector `i*max + (1-i)*min` picks the low end for i = 0 and the high end for i = 1 |
| CornerHulls.CornerIndex | src/TheRestOfYourLife/hittable.h:117-119 | corner (i, j, k) sits at index 4i + 2j + k of the visiting order |
| CornerHulls.AxisHullExtend | src/TheRestOfYourLife/hittable.h:130-131 | min/max with a new point keeps one axis's tightest bounds over the points seen so far |
| CornerHulls.CornerHullFromAxes | src/TheRestOfYourLife/hittable.h:137 | the box `aabb(min, max)` made from the final min and max holds every rotated corner and each bound is reached by one |
| CornerHulls.CornerHullContainsRotatedBox | src/TheRestOfYourLife/hittable.h:117-137 | a box holding the eight rotated corners holds the rotation of every point of the child's box |
| Geometry.RotationRoundTrip | src/TheRestOfYourLife/hittable.h:144-162 | for sine and cosine of one angle, the forward rotation applied to points and normals undoes the inverse rotation applied to the ray, and vice versa |
| Geometry.RotationPreservesDot | src/TheRestOfYourLife/hittable.h:144-162 | both rotations keep dot products |
| Geometry.PlanarRotationKeepsDot | src/TheRestOfYourLife/hittable.h:147-162 | the x-z part of a rotation (newx, newz) keeps the x-z part of a dot product |
| Geometry.RotationMapsRayPoint | src/TheRestOfYourLife/hittable.h:144-159 | the rotation maps the point at parameter t of a ray to the point at t of the rotated ray |
| Geometry.RotationOfSum | src/TheRestOfYourLife/hittable.h:158-159 | the rotation applied to a sum is the sum of the rotations |
| Geometry.RotationOfScaled | src/TheRestOfYourLife/hittable.h:158-159 | the rotation commutes with scaling by t |
| Geometry.DotNeg | src/TheRestOfYourLife/hittable.h:34 | negating the normal negates its dot product with the direction |
| DecoratorProperties.FlipFaceTwice | src/TheRestOfYourLife/hittable.h:59-69 | flip_face(flip_face(h)) answers, leaves the record and reports the box exactly as h |
| DecoratorProperties.TranslateThereAndBack | src/TheRestOfYourLife/hittable.h:81-90 | translating by offset then by -offset gives h's answer, point, t, u, v and material; the normal is h's re-oriented against the ray |
| DecoratorProperties.TranslateBoxShifts | src/TheRestOfYourLife/hittable.h:92-98 | translate has a box iff its child does; the box is the child's shifted axis by axis and holds q + offset iff the child's holds q |
| DecoratorProperties.TranslatePointOnRay | src/TheRestOfYourLife/hittable.h:82-86 | a child hit on the moved ray at parameter t is a point of the original ray at the same t |
| DecoratorProperties.TranslateSphereScenario | src/TheRestOfYourLife/hittable.h:81-98 | a unit sphere moved to (5, 0, 0) has box [4, 6] x [-1, 1] x [-1, 1], and the ray from (5, 0, -10) along +z hits it front-facing at (5, 0, -1) with normal (0, 0, -1) |
| DecoratorProperties.RotateYPointOnRay | src/TheRestOfYourLife/hittable.h:141-164 | a child hit on the child-frame ray at parameter t becomes a point of the world ray at the same t |
| DecoratorProperties.RotateYPointRoundTrip | src/TheRestOfYourLife/hittable.h:141-164 | inverse-rotating the reported point gives back the child's point |
| DecoratorProperties.RotateYAngleZero | src/TheRestOfYourLife/hittable.h:140-168 | with sine 0 and cosine 1 (0 or 360 degrees over the reals) the child sees the world ray and its point, t, u, v and material come back unchanged; normal and front_face are recomputed against the ray |
| DecoratorProperties.RotateYFramesAgree | src/TheRestOfYourLife/hittable.h:147-165 | the rotated-back normal's dot with the world direction equals the child normal's dot with the child-frame direction |
| DecoratorProperties.RotateYMixedFrameFlip | src/TheRestOfYourLife/hittable.h:161-165 | when the child hits with a normal facing the child-frame direction and the rotated-back normal is not against that direction, rotate_y reports a back face and stores a normal pointing along the world ray, although the rotated-back normal faced it |
| DecoratorProperties.QuarterTurnMeetsMixedFrame | src/TheRestOfYourLife/hittable.h:144-165 | a rotate_y with sine 1 and cosine 0, whose child hits the child-frame ray of the world direction (1, 0, 0) with normal (0, 0, -1), meets every hypothesis of RotateYMixedFrameFlip |
| DecoratorProperties.QuarterTurnMixedFrameHit | src/TheRestOfYourLife/hittable.h:140-168 | on that rotate_y the hit is reported as a back face with stored normal (1, 0, 0), which points along the world ray |
| DecoratorProperties.RotateYBoxIsCached | src/TheRestOfYourLife/hittable.h:170-173 | rotate_y's bounding_box reports its stored hasbox and bbox whatever its child would answer now |
| DecoratorProperties.RotateYBoxConservative | src/TheRestOfYourLife/hittable.h:108-138 | a constructed rotate_y has a box iff its child has one, and its box holds the rotation of every point of the child's box |
| DecoratorProperties.RotateYBoxOrdered | src/TheRestOfYourLife/hittable.h:129-137 | the min and max handed to `aabb(min, max)` by a constructed rotate_y satisfy min <= max on every axis |
| DecoratorProperties.RotateYBoxHoldsCorner | src/TheRestOfYourLife/hittable.h:117-135 | every rotated corner (i, j, k) of the child's box lies in the box of a constructed rotate_y |
| DecoratorProperties.ZeroTurnCorner | src/TheRestOfYourLife/hittable.h:120-127 | with sine 0 and cosine 1 every rotated corner has each coordinate at an end of the matching axis |
| DecoratorProperties.QuarterTurnCorner | src/TheRestOfYourLife/hittable.h:120-127 | with sine 1 and cosine 0 a rotated corner's x is an end of the z axis, y one of the y axis, z a negated end of the x axis |
| DecoratorProperties.AxisEnds | src/TheRestOfYourLife/hittable.h:129-132 | the tightest bounds of coordinates that take only the two ends of an ordered interval, and both of them, are that interval |
| DecoratorProperties.RotateYZeroKeepsBox | src/TheRestOfYourLife/hittable.h:108-138 | at angle 0 the constructed box is the child's box, when that box is ordered |
| DecoratorProperties.RotateYCubeQuarterTurn | src/TheRestOfYourLife/hittable.h:108-138 | a quarter turn of the cube [-1, 1] on every axis has the same cube as its box |

## Left out

- The angle in degrees and its conversion through `degrees_to_radians`, `sin` and `cos` (lines 109-111) are left out. The constructor takes the sine and cosine as parameters and requires sin^2 + cos^2 = 1 (`SineCosine`); the math library is not part of this model.
- Arithmetic is exact real arithmetic, not IEEE double. Rounding, NaN and infinities are not modelled.
- NewRotateY: the running minimum and maximum start at the first rotated corner, not at +infinity and -infinity (lines 114-115). Over the reals, with `fmin`/`fmax` and no NaN, this gives the same box.
- When the child has no box, the model treats the box that `bounding_box` left in output_box as an arbitrary value. The C++ `aabb` default contents are not modelled, because `aabb.h` is not part of this model.
- The `ray`, `vec3`, `interval` and `aabb` headers are not part of this model. Only the operations this layer uses are defined, in `Geometry`.
- `Geometry.BoxFromCorners` assumes that `aabb(a, b)` gives axis n the interval [a[n], b[n]] when a[n] <= b[n]; `aabb.h` is not part of this model. `RotateYBoxOrdered` proves that the `rotate_y` constructor only passes such points.
- Leaf geometry (spheres, quads, lists) is not modelled. It appears as abstract `Primitive` values: a function from the ray, the range and the current record contents to an answer and new contents, plus a fixed `bounding_box` answer. That box answer does not depend on what output_box held before the call.
- `shared_ptr` ownership and sharing are not modelled. Children are values, and the material is an opaque `nat` handle that the layer only copies.
- `pdf_value` and `random` (lines 45-51) are left out. They are sampling hooks with constant defaults that none of the decorators override.
- Concurrency is not modelled. The layer has none of its own.
- RotateYAngleZero: does not state that angle 0 is a full identity. front_face and the normal are recomputed against the ray, so a child's own front_face (as a flip_face child sets it) is not kept.
