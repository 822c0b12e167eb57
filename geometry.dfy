/**
  Real-valued vectors and the plane primitive used for the cursor's fallback
  and reverse-projection intersections. Components are `real`, so there is no
  floating-point rounding and "parallel" means a dot product of exactly zero.
 */
module Geometry {

  datatype Vec2 = Vec2(x: real, y: real)

  datatype Vec3 = Vec3(x: real, y: real, z: real)

  const Zero2: Vec2 := Vec2(0.0, 0.0)
  const Zero3: Vec3 := Vec3(0.0, 0.0, 0.0)

  function Add(a: Vec3, b: Vec3): Vec3 {
    Vec3(a.x + b.x, a.y + b.y, a.z + b.z)
  }

  function Sub(a: Vec3, b: Vec3): Vec3 {
    Vec3(a.x - b.x, a.y - b.y, a.z - b.z)
  }

  function Scale(a: Vec3, k: real): Vec3 {
    Vec3(a.x * k, a.y * k, a.z * k)
  }

  /** The vector times -1, as the source writes `userDirection*-1`. */
  function Neg(a: Vec3): Vec3 {
    Scale(a, -1.0)
  }

  function Dot(a: Vec3, b: Vec3): real {
    a.x * b.x + a.y * b.y + a.z * b.z
  }

  /** The point at parameter `t` along the ray from `start` in `direction`. */
  function RayPoint(start: Vec3, direction: Vec3, t: real): Vec3 {
    Add(start, Scale(direction, t))
  }

  /** An infinite plane given by a point on it and its normal (A, B, C). */
  datatype Plane = Plane(point: Vec3, normal: Vec3)

  /** The result of a ray-plane test; the point exists only when the ray meets the plane. */
  datatype Intersection = NoIntersection | Intersects(point: Vec3)

  predicate OnPlane(plane: Plane, q: Vec3) {
    Dot(Sub(q, plane.point), plane.normal) == 0.0
  }

  /** The ray runs parallel to the plane: its direction has no component along the normal. */
  predicate Parallel(plane: Plane, direction: Vec3) {
    Dot(direction, plane.normal) == 0.0
  }

  /**
    The standard ray-plane solution: with `n` the normal and `p` the plane's
    point, the ray `start + t*direction` meets the plane at
    `t = dot(p - start, n) / dot(direction, n)`, unless the denominator is zero.
   */
  function Intersect(plane: Plane, start: Vec3, direction: Vec3): (r: Intersection)
    ensures r.NoIntersection? <==> Parallel(plane, direction)
    ensures r.Intersects? ==> OnPlane(plane, r.point)
  {
    var denominator := Dot(direction, plane.normal);
    if denominator == 0.0 then NoIntersection
    else
      var t := Dot(Sub(plane.point, start), plane.normal) / denominator;
      assert t * denominator == Dot(Sub(plane.point, start), plane.normal);
      DotAlongRay(plane, start, direction, t);
      Intersects(RayPoint(start, direction, t))
  }

  /**
    The solution is that of the whole line, not only of the half-line ahead:
    a plane behind the start is reported too (here at parameter -10).
   */
  lemma IntersectBehindStart()
    ensures Intersect(Plane(Vec3(0.0, 0.0, 10.0), Vec3(0.0, 0.0, 1.0)), Zero3, Vec3(0.0, 0.0, -1.0))
         == Intersects(RayPoint(Zero3, Vec3(0.0, 0.0, -1.0), -10.0))
  {
    var plane := Plane(Vec3(0.0, 0.0, 10.0), Vec3(0.0, 0.0, 1.0));
    var direction := Vec3(0.0, 0.0, -1.0);
    assert Dot(direction, plane.normal) == -1.0;
    assert Dot(Sub(plane.point, Zero3), plane.normal) == 10.0;
  }

  /** How far along the normal a point of the ray lies from the plane grows linearly in `t`. */
  lemma DotAlongRay(plane: Plane, start: Vec3, direction: Vec3, t: real)
    ensures Dot(Sub(RayPoint(start, direction, t), plane.point), plane.normal)
         == Dot(Sub(start, plane.point), plane.normal) + t * Dot(direction, plane.normal)
  {
  }

  /** A ray meets a plane exactly when it is not parallel to it. */
  lemma IntersectsIffNotParallel(plane: Plane, start: Vec3, direction: Vec3)
    ensures Intersect(plane, start, direction).Intersects? <==> !Parallel(plane, direction)
  {
  }

  /** The reported point lies on the plane and on the ray. */
  lemma HitOnPlaneAndRay(plane: Plane, start: Vec3, direction: Vec3)
    requires Intersect(plane, start, direction).Intersects?
    ensures OnPlane(plane, Intersect(plane, start, direction).point)
    ensures exists t :: Intersect(plane, start, direction).point == RayPoint(start, direction, t)
  {
    var denominator := Dot(direction, plane.normal);
    var t := Dot(Sub(plane.point, start), plane.normal) / denominator;
    DotAlongRay(plane, start, direction, t);
    assert t * denominator == Dot(Sub(plane.point, start), plane.normal);
  }

  /** Every point of a non-parallel ray that lies on the plane is the one reported. */
  lemma HitIsUnique(plane: Plane, start: Vec3, direction: Vec3, t: real)
    requires !Parallel(plane, direction)
    requires OnPlane(plane, RayPoint(start, direction, t))
    ensures Intersect(plane, start, direction) == Intersects(RayPoint(start, direction, t))
  {
    var denominator := Dot(direction, plane.normal);
    DotAlongRay(plane, start, direction, t);
    assert t * denominator == Dot(Sub(plane.point, start), plane.normal);
    assert t == Dot(Sub(plane.point, start), plane.normal) / denominator;
  }

  /** A parallel ray that does not start on the plane never reaches it. */
  lemma ParallelRayMisses(plane: Plane, start: Vec3, direction: Vec3, t: real)
    requires Parallel(plane, direction)
    requires !OnPlane(plane, start)
    ensures !OnPlane(plane, RayPoint(start, direction, t))
  {
    DotAlongRay(plane, start, direction, t);
  }

  lemma DotOfScaled(a: Vec3, b: Vec3, k: real)
    ensures Dot(Scale(a, k), b) == k * Dot(a, b)
  {
  }

  lemma RayPointOfScaled(start: Vec3, direction: Vec3, k: real, t: real)
    requires k != 0.0
    ensures RayPoint(start, Scale(direction, k), t / k) == RayPoint(start, direction, t)
  {
    assert k * (t / k) == t;
    assert Scale(Scale(direction, k), t / k) == Scale(direction, t);
  }

  /** Only the direction of the ray matters, not its length. */
  lemma HitIgnoresDirectionLength(plane: Plane, start: Vec3, direction: Vec3, k: real)
    requires k != 0.0
    ensures Intersect(plane, start, Scale(direction, k)) == Intersect(plane, start, direction)
  {
    DotOfScaled(direction, plane.normal, k);
    if !Parallel(plane, direction) {
      var t := Dot(Sub(plane.point, start), plane.normal) / Dot(direction, plane.normal);
      assert Intersect(plane, start, direction) == Intersects(RayPoint(start, direction, t));
      HitOnPlaneAndRay(plane, start, direction);
      RayPointOfScaled(start, direction, k, t);
      HitIsUnique(plane, start, Scale(direction, k), t / k);
    }
  }
}
