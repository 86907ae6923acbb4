/** The barycentric ray/plane solve shared by the triangle tests
    (src/geometry.cpp, and the mesh test in src/mesh.h), and the strict
    triangle and rectangle tests built on it. */
module Geometry {
  import opened Wrappers
  import opened RealMath
  import opened Basic

  /** `det = -dot(direction, cross(p2 - p1, p3 - p1))`. */
  function PlaneDet(ray: Ray, p1: Point, p2: Point, p3: Point): real
  {
    -Dot(ray.direction, Cross(p2.Minus(p1), p3.Minus(p1)))
  }

  /** `cross(direction, p1 - origin)`, shared by both barycentric coordinates. */
  function RayVertCross(ray: Ray, p1: Point): Vector
  {
    Cross(ray.direction, p1.Minus(ray.origin))
  }

  /** The barycentric coordinate of p3: `-dot(p2 - origin, rayVertCross) * (1/det)`. */
  function GammaOf(ray: Ray, p1: Point, p2: Point, det: real): real
    requires det != 0.0
  {
    -Dot(p2.Minus(ray.origin), RayVertCross(ray, p1)) * (1.0 / det)
  }

  /** The barycentric coordinate of p2: `dot(p3 - origin, rayVertCross) * (1/det)`. */
  function BetaOf(ray: Ray, p1: Point, p3: Point, det: real): real
    requires det != 0.0
  {
    Dot(p3.Minus(ray.origin), RayVertCross(ray, p1)) * (1.0 / det)
  }

  /** The ray parameter of the plane hit, as the mesh test computes it:
      `-dot(p1 - origin, cross(p2 - p1, p3 - p1)) * (1/det)`. */
  function PlaneT(ray: Ray, p1: Point, p2: Point, p3: Point, det: real): real
    requires det != 0.0
  {
    -Dot(p1.Minus(ray.origin), Cross(p2.Minus(p1), p3.Minus(p1))) * (1.0 / det)
  }

  /** Barycentric coordinates: alpha weights p1, beta p2, gamma p3. */
  datatype Bary = Bary(alpha: real, beta: real, gamma: real)

  /** `intersectPlane`: `None` (the `false` return, nothing assigned) exactly
      when the determinant is zero; otherwise coordinates summing to one. */
  function IntersectPlane(ray: Ray, p1: Point, p2: Point, p3: Point): (r: Option<Bary>)
    ensures r.None? <==> PlaneDet(ray, p1, p2, p3) == 0.0
    ensures r.Some? ==> r.value.alpha + r.value.beta + r.value.gamma == 1.0
  {
    var det := PlaneDet(ray, p1, p2, p3);
    if det == 0.0 then None
    else
      var gamma := GammaOf(ray, p1, p2, det);
      var beta := BetaOf(ray, p1, p3, det);
      Some(Bary(1.0 - beta - gamma, beta, gamma))
  }

  /** `intersectTriangle`: the plane solve succeeds and all three
      coordinates are strictly positive, so points on an edge are misses. */
  predicate IntersectTriangle(ray: Ray, p1: Point, p2: Point, p3: Point)
  {
    match IntersectPlane(ray, p1, p2, p3)
    case None => false
    case Some(b) => b.alpha > 0.0 && b.beta > 0.0 && b.gamma > 0.0
  }

  /** `intersectRectangle`: either triangle of the split along p1-p3. */
  predicate IntersectRectangle(ray: Ray, p1: Point, p2: Point, p3: Point, p4: Point)
  {
    IntersectTriangle(ray, p1, p2, p3) || IntersectTriangle(ray, p1, p3, p4)
  }

  /** The triangle test is true exactly when the solve succeeds with three
      positive coordinates; a coordinate of zero (a point on an edge) is a miss. */
  lemma IntersectTriangleSpec(ray: Ray, p1: Point, p2: Point, p3: Point)
    ensures IntersectTriangle(ray, p1, p2, p3) <==>
      PlaneDet(ray, p1, p2, p3) != 0.0 &&
      var b := IntersectPlane(ray, p1, p2, p3).value;
      b.alpha > 0.0 && b.beta > 0.0 && b.gamma > 0.0
    ensures IntersectTriangle(ray, p1, p2, p3) ==>
      var b := IntersectPlane(ray, p1, p2, p3).value;
      b.alpha < 1.0 && b.beta < 1.0 && b.gamma < 1.0
  {
  }

  /** The ray with its direction reversed. */
  function Reversed(ray: Ray): (r: Ray)
    ensures r.origin == ray.origin && r.direction.Neg() == ray.direction
  {
    ray.(direction := ray.direction.Neg())
  }

  lemma CrossNegLeft(a: Vector, b: Vector)
    ensures Cross(a.Neg(), b) == Cross(a, b).Neg()
  {
  }

  lemma DotNegRight(a: Vector, b: Vector)
    ensures Dot(a, b.Neg()) == -Dot(a, b)
  {
  }

  lemma DotNegLeft(a: Vector, b: Vector)
    ensures Dot(a.Neg(), b) == -Dot(a, b)
  {
  }

  /** Negating both a numerator and the determinant leaves the quotient. */
  lemma NegOverNeg(x: real, det: real)
    requires det != 0.0
    ensures (-x) * (1.0 / -det) == x * (1.0 / det)
  {
    assert 1.0 / -det == -(1.0 / det);
  }

  lemma DetReversed(ray: Ray, p1: Point, p2: Point, p3: Point)
    ensures PlaneDet(Reversed(ray), p1, p2, p3) == -PlaneDet(ray, p1, p2, p3)
  {
    DotNegLeft(ray.direction, Cross(p2.Minus(p1), p3.Minus(p1)));
  }

  lemma RayVertCrossReversed(ray: Ray, p1: Point)
    ensures RayVertCross(Reversed(ray), p1) == RayVertCross(ray, p1).Neg()
  {
    CrossNegLeft(ray.direction, p1.Minus(ray.origin));
  }

  lemma GammaReversed(ray: Ray, p1: Point, p2: Point, det: real)
    requires det != 0.0
    ensures GammaOf(Reversed(ray), p1, p2, -det) == GammaOf(ray, p1, p2, det)
  {
    var g := Dot(p2.Minus(ray.origin), RayVertCross(ray, p1));
    RayVertCrossReversed(ray, p1);
    DotNegRight(p2.Minus(ray.origin), RayVertCross(ray, p1));
    assert Dot(p2.Minus(Reversed(ray).origin), RayVertCross(Reversed(ray), p1)) == -g;
    NegOverNeg(-g, det);
  }

  lemma BetaReversed(ray: Ray, p1: Point, p3: Point, det: real)
    requires det != 0.0
    ensures BetaOf(Reversed(ray), p1, p3, -det) == BetaOf(ray, p1, p3, det)
  {
    var b := Dot(p3.Minus(ray.origin), RayVertCross(ray, p1));
    RayVertCrossReversed(ray, p1);
    DotNegRight(p3.Minus(ray.origin), RayVertCross(ray, p1));
    assert Dot(p3.Minus(Reversed(ray).origin), RayVertCross(Reversed(ray), p1)) == -b;
    NegOverNeg(b, det);
  }

  /** No ray parameter is computed, so the plane solve cannot tell a ray
      from its reverse: the determinant changes sign and the coordinates do
      not change. The tests are tests on the whole line. */
  lemma IntersectPlaneReversed(ray: Ray, p1: Point, p2: Point, p3: Point)
    ensures PlaneDet(Reversed(ray), p1, p2, p3) == -PlaneDet(ray, p1, p2, p3)
    ensures IntersectPlane(Reversed(ray), p1, p2, p3) == IntersectPlane(ray, p1, p2, p3)
  {
    var det := PlaneDet(ray, p1, p2, p3);
    DetReversed(ray, p1, p2, p3);
    if det != 0.0 {
      GammaReversed(ray, p1, p2, det);
      BetaReversed(ray, p1, p3, det);
    }
  }

  lemma IntersectTriangleReversed(ray: Ray, p1: Point, p2: Point, p3: Point)
    ensures IntersectTriangle(Reversed(ray), p1, p2, p3) == IntersectTriangle(ray, p1, p2, p3)
  {
    IntersectPlaneReversed(ray, p1, p2, p3);
  }

  lemma IntersectRectangleReversed(ray: Ray, p1: Point, p2: Point, p3: Point, p4: Point)
    ensures IntersectRectangle(Reversed(ray), p1, p2, p3, p4) == IntersectRectangle(ray, p1, p2, p3, p4)
  {
    IntersectTriangleReversed(ray, p1, p2, p3);
    IntersectTriangleReversed(ray, p1, p3, p4);
  }

  /** The triple product of a vector with itself and anything vanishes. */
  lemma DotCrossSame(d: Vector, w: Vector)
    ensures Dot(d, Cross(d, w)) == 0.0
  {
  }

  lemma DotCrossScaled(t: real, d: Vector, w: Vector)
    ensures Dot(d.Scaled(t), Cross(d, w)) == 0.0
  {
    assert Dot(d.Scaled(t), Cross(d, w)) == t * Dot(d, Cross(d, w));
    DotCrossSame(d, w);
  }

  /** A line through a vertex of the triangle is a miss: the coordinate of
      one of the other vertices is zero there. */
  lemma VertexIsMiss(ray: Ray, p1: Point, p2: Point, p3: Point, t: real)
    requires Calculate(ray, t) == p1 || Calculate(ray, t) == p2 || Calculate(ray, t) == p3
    ensures !IntersectTriangle(ray, p1, p2, p3)
  {
    var det := PlaneDet(ray, p1, p2, p3);
    if det != 0.0 {
      if Calculate(ray, t) == p1 {
        ThroughFirstVertex(ray, p1, p2, p3, t, det);
      } else if Calculate(ray, t) == p2 {
        ThroughOtherVertex(ray, p1, p2, t);
        ZeroTimes(Dot(p2.Minus(ray.origin), RayVertCross(ray, p1)), 1.0 / det);
      } else {
        ThroughOtherVertex(ray, p1, p3, t);
        ZeroTimes(Dot(p3.Minus(ray.origin), RayVertCross(ray, p1)), 1.0 / det);
      }
    }
  }

  lemma ZeroTimes(x: real, y: real)
    requires x == 0.0
    ensures x * y == 0.0 && -x * y == 0.0
  {
  }

  lemma OffsetOnLine(ray: Ray, p: Point, t: real)
    requires Calculate(ray, t) == p
    ensures p.Minus(ray.origin) == ray.direction.Scaled(t)
  {
  }

  /** Through p1, the cross product `rayVertCross` vanishes, and with it
      both beta and gamma. */
  lemma ThroughFirstVertex(ray: Ray, p1: Point, p2: Point, p3: Point, t: real, det: real)
    requires det != 0.0 && Calculate(ray, t) == p1
    ensures BetaOf(ray, p1, p3, det) == 0.0 && GammaOf(ray, p1, p2, det) == 0.0
  {
    OffsetOnLine(ray, p1, t);
    var d := ray.direction;
    assert RayVertCross(ray, p1) == Cross(d, d.Scaled(t));
    assert Cross(d, d.Scaled(t)) == Zero;
    ZeroTimes(Dot(p3.Minus(ray.origin), RayVertCross(ray, p1)), 1.0 / det);
    ZeroTimes(Dot(p2.Minus(ray.origin), RayVertCross(ray, p1)), 1.0 / det);
  }

  /** Through p (p2 or p3), the offset p - origin is parallel to the
      direction, so its dot with `rayVertCross` vanishes. */
  lemma ThroughOtherVertex(ray: Ray, p1: Point, p: Point, t: real)
    requires Calculate(ray, t) == p
    ensures Dot(p.Minus(ray.origin), RayVertCross(ray, p1)) == 0.0
  {
    OffsetOnLine(ray, p, t);
    DotCrossScaled(t, ray.direction, p1.Minus(ray.origin));
  }
}
