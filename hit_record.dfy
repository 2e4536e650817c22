/**
 * hit_record: the caller-owned record a successful intersection test fills
 * in, and set_face_normal, which orients its normal against the ray.
 */
module HitRecords {
  import opened Geometry

  /** The shared material handle of a hit. This layer only copies it. */
  type Material = nat

  /** The contents of a hit record at one moment. */
  datatype HitData = HitData(
    p: Vec3,
    normal: Vec3,
    mat: Material,
    t: real,
    u: real,
    v: real,
    frontFace: bool)

  /** What an intersection test reports: its boolean answer and the contents
      the record holds afterwards. */
  datatype HitResult = HitResult(hit: bool, rec: HitData)

  /** The record after `set_face_normal(r, outwardNormal)`, where dir is the
      direction of r: front_face says whether the ray comes against the
      outward normal, and the stored normal always faces the ray. */
  function WithFaceNormal(d: HitData, dir: Vec3, outwardNormal: Vec3): (e: HitData)
    ensures e.frontFace <==> Dot(dir, outwardNormal) < 0.0
    ensures e.frontFace ==> e.normal == outwardNormal
    ensures !e.frontFace ==> e.normal == outwardNormal.Neg()
    ensures Dot(dir, e.normal) <= 0.0
    ensures e.(frontFace := d.frontFace, normal := d.normal) == d
  {
    var frontFace := Dot(dir, outwardNormal) < 0.0;
    d.(frontFace := frontFace, normal := if frontFace then outwardNormal else outwardNormal.Neg())
  }

  /** The outward normal n turned, if need be, so that it does not point
      along dir. */
  function Reoriented(n: Vec3, dir: Vec3): Vec3 {
    if Dot(dir, n) > 0.0 then n.Neg() else n
  }

  /** Orienting twice gives back the outward normal unless it points away
      from the ray, and then its negation; a normal tangent to the ray is
      negated by the first orientation and restored by the second. */
  lemma {:induction false} FaceNormalTwice(d: HitData, dir: Vec3, n: Vec3)
    ensures var once := WithFaceNormal(d, dir, n);
            var twice := WithFaceNormal(once, dir, once.normal);
            twice.normal == Reoriented(n, dir)
            && (twice.frontFace <==> Dot(dir, n) != 0.0)
  {
    var once := WithFaceNormal(d, dir, n);
    DotNeg(dir, n);
    if Dot(dir, n) < 0.0 {
      assert once.normal == n;
    } else {
      assert once.normal == n.Neg();
      assert n.Neg().Neg() == n;
    }
  }

  /** A hit record, updated in place by the intersection tests. */
  class HitRecord {
    var p: Vec3
    var normal: Vec3
    var mat: Material
    var t: real
    var u: real
    var v: real
    var frontFace: bool

    function Data(): HitData
      reads this
    {
      HitData(p, normal, mat, t, u, v, frontFace)
    }

    /** Overwrites the whole record, as the child's writes through the
        reference do. */
    method Store(d: HitData)
      modifies this
      ensures Data() == d
    {
      p, normal, mat, t, u, v, frontFace := d.p, d.normal, d.mat, d.t, d.u, d.v, d.frontFace;
    }

    method SetFaceNormal(r: Ray, outwardNormal: Vec3)
      modifies this
      ensures Data() == WithFaceNormal(old(Data()), r.direction, outwardNormal)
      ensures Dot(r.direction, normal) <= 0.0
    {
      frontFace := Dot(r.direction, outwardNormal) < 0.0;
      normal := if frontFace then outwardNormal else outwardNormal.Neg();
    }
  }
}
