/**
 * The vector, ray, interval and axis-aligned box types the hittable layer is
 * written against. Their own headers are not part of this model; each is
 * reduced to the few operations the layer uses, over exact reals.
 */
module Geometry {

  /** A vector or a point: three real coordinates (vec3 / point3). */
  datatype Vec3 = Vec3(x: real, y: real, z: real) {

    function Add(w: Vec3): Vec3 { Vec3(x + w.x, y + w.y, z + w.z) }

    function Sub(w: Vec3): Vec3 { Vec3(x - w.x, y - w.y, z - w.z) }

    function Neg(): Vec3 { Vec3(-x, -y, -z) }

    function Scale(k: real): Vec3 { Vec3(k * x, k * y, k * z) }

    /** Coordinate by index, as `v[0]`, `v[1]`, `v[2]`. */
    function At(i: nat): real
      requires i < 3
    {
      if i == 0 then x else if i == 1 then y else z
    }

    /** Rotation about Y by the angle whose sine and cosine are given:
        the map rotate_y applies to corners, points and normals. */
    function RotatedY(sinT: real, cosT: real): Vec3 {
      Vec3(cosT * x + sinT * z, y, -sinT * x + cosT * z)
    }

    /** The rotation rotate_y applies to an incoming ray to reach the
        child's frame (the transpose of RotatedY). */
    function UnrotatedY(sinT: real, cosT: real): Vec3 {
      Vec3(cosT * x - sinT * z, y, sinT * x + cosT * z)
    }
  }

  function Dot(a: Vec3, b: Vec3): real {
    a.x * b.x + a.y * b.y + a.z * b.z
  }

  /** A ray: origin, direction and the time at which it is cast. */
  datatype Ray = Ray(origin: Vec3, direction: Vec3, time: real) {
    /** The point at parameter t: origin + t * direction. */
    function At(t: real): Vec3 { origin.Add(direction.Scale(t)) }
  }

  /** A closed range of reals, used for the valid ray parameters and for
      each axis of a box. */
  datatype Interval = Interval(min: real, max: real) {
    predicate Contains(a: real) { min <= a <= max }

    /** `interval + displacement`: both ends moved by d. */
    function Shift(d: real): Interval { Interval(min + d, max + d) }
  }

  /** An axis-aligned box: one interval per axis. */
  datatype Aabb = Aabb(x: Interval, y: Interval, z: Interval) {

    predicate Contains(q: Vec3) {
      x.Contains(q.x) && y.Contains(q.y) && z.Contains(q.z)
    }

    /** `aabb + offset`: every axis moved by the matching offset component. */
    function Shift(offset: Vec3): Aabb {
      Aabb(x.Shift(offset.x), y.Shift(offset.y), z.Shift(offset.z))
    }
  }

  /** The box spanned by two extreme corners, as `aabb(min, max)` is used
      once the corners are known to be ordered. */
  function BoxFromCorners(lo: Vec3, hi: Vec3): Aabb {
    Aabb(Interval(lo.x, hi.x), Interval(lo.y, hi.y), Interval(lo.z, hi.z))
  }

  /** Negating one side negates a dot product. */
  lemma DotNeg(a: Vec3, b: Vec3)
    ensures Dot(a, b.Neg()) == -Dot(a, b)
  {
    assert a.x * -b.x == -(a.x * b.x);
    assert a.y * -b.y == -(a.y * b.y);
    assert a.z * -b.z == -(a.z * b.z);
  }

  /** sinT and cosT can be the sine and cosine of one angle. */
  predicate SineCosine(sinT: real, cosT: real) {
    sinT * sinT + cosT * cosT == 1.0
  }

  /** Rotating forward undoes the inverse rotation and vice versa, for any
      sine and cosine of one angle. */
  lemma RotationRoundTrip(v: Vec3, sinT: real, cosT: real)
    requires SineCosine(sinT, cosT)
    ensures v.UnrotatedY(sinT, cosT).RotatedY(sinT, cosT) == v
    ensures v.RotatedY(sinT, cosT).UnrotatedY(sinT, cosT) == v
  {
    var s, c := sinT, cosT;
    calc {
      c * (c * v.x - s * v.z) + s * (s * v.x + c * v.z);
      (c * c + s * s) * v.x;
      v.x;
    }
    calc {
      -s * (c * v.x - s * v.z) + c * (s * v.x + c * v.z);
      (s * s + c * c) * v.z;
      v.z;
    }
    calc {
      c * (c * v.x + s * v.z) - s * (-s * v.x + c * v.z);
      (c * c + s * s) * v.x;
      v.x;
    }
    calc {
      s * (c * v.x + s * v.z) + c * (-s * v.x + c * v.z);
      (s * s + c * c) * v.z;
      v.z;
    }
  }

  /** A rotation about Y keeps dot products: the angle between two vectors
      is seen the same in both frames. */
  lemma RotationPreservesDot(a: Vec3, b: Vec3, sinT: real, cosT: real)
    requires SineCosine(sinT, cosT)
    ensures Dot(a.RotatedY(sinT, cosT), b.RotatedY(sinT, cosT)) == Dot(a, b)
    ensures Dot(a.UnrotatedY(sinT, cosT), b.UnrotatedY(sinT, cosT)) == Dot(a, b)
  {
    var s, c := sinT, cosT;
    var ra, rb := a.RotatedY(s, c), b.RotatedY(s, c);
    assert ra == Vec3(c * a.x + s * a.z, a.y, -s * a.x + c * a.z);
    assert rb == Vec3(c * b.x + s * b.z, b.y, -s * b.x + c * b.z);
    var ua, ub := a.UnrotatedY(s, c), b.UnrotatedY(s, c);
    assert ua == Vec3(c * a.x + -s * a.z, a.y, - -s * a.x + c * a.z);
    assert ub == Vec3(c * b.x + -s * b.z, b.y, - -s * b.x + c * b.z);
    PlanarRotationKeepsDot(s, c, a.x, a.z, b.x, b.z);
    PlanarRotationKeepsDot(-s, c, a.x, a.z, b.x, b.z);
  }

  /** The rotation of the (x, z) plane by a sine and cosine of one angle
      keeps the dot product of two plane vectors. */
  lemma PlanarRotationKeepsDot(s: real, c: real, ax: real, az: real, bx: real, bz: real)
    requires SineCosine(s, c)
    ensures (c * ax + s * az) * (c * bx + s * bz) + (-s * ax + c * az) * (-s * bx + c * bz) == ax * bx + az * bz
  {
    calc {
      (c * ax + s * az) * (c * bx + s * bz) + (-s * ax + c * az) * (-s * bx + c * bz);
      (c * c + s * s) * (ax * bx) + (s * s + c * c) * (az * bz);
      ax * bx + az * bz;
    }
  }

  /** The rotation is linear, so it maps the point at parameter t of a ray
      to the point at parameter t of the rotated ray. */
  lemma RotationMapsRayPoint(o: Vec3, d: Vec3, t: real, sinT: real, cosT: real)
    ensures o.Add(d.Scale(t)).RotatedY(sinT, cosT)
         == o.RotatedY(sinT, cosT).Add(d.RotatedY(sinT, cosT).Scale(t))
  {
    RotationOfSum(o, d.Scale(t), sinT, cosT);
    RotationOfScaled(d, t, sinT, cosT);
  }

  /** The rotation distributes over vector addition. */
  lemma RotationOfSum(a: Vec3, b: Vec3, sinT: real, cosT: real)
    ensures a.Add(b).RotatedY(sinT, cosT) == a.RotatedY(sinT, cosT).Add(b.RotatedY(sinT, cosT))
  {
    var s, c := sinT, cosT;
    assert c * (a.x + b.x) == c * a.x + c * b.x;
    assert s * (a.z + b.z) == s * a.z + s * b.z;
    assert -s * (a.x + b.x) == -s * a.x + -s * b.x;
    assert c * (a.z + b.z) == c * a.z + c * b.z;
  }

  /** The rotation commutes with scaling. */
  lemma RotationOfScaled(d: Vec3, t: real, sinT: real, cosT: real)
    ensures d.Scale(t).RotatedY(sinT, cosT) == d.RotatedY(sinT, cosT).Scale(t)
  {
    var s, c := sinT, cosT;
    assert c * (t * d.x) + s * (t * d.z) == t * (c * d.x + s * d.z);
    assert -s * (t * d.x) + c * (t * d.z) == t * (-s * d.x + c * d.z);
  }
}
