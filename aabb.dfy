/** Axis-aligned bounding boxes (src/aabb.cpp): construction, the transform
    used by the OpenGL view, point containment and the six-face ray test. */
module Box {
  import opened RealMath
  import opened Basic
  import opened Geometry

  /** `1.0e10f`, the extent of the empty default box. */
  const kBoxInfinity: real := 10000000000.0

  datatype AABB = AABB(xmin: real, xmax: real, ymin: real, ymax: real, zmin: real, zmax: real)

  /** A `QVector4D`; only the AABB constructor takes one. */
  datatype Vec4 = Vec4(x: real, y: real, z: real, w: real)

  /** `AABB()`: every minimum at 1e10 and every maximum at -1e10. */
  const DefaultBox: AABB :=
    AABB(kBoxInfinity, -kBoxInfinity, kBoxInfinity, -kBoxInfinity, kBoxInfinity, -kBoxInfinity)

  /** min <= max on every axis. */
  predicate Canonical(b: AABB)
  {
    b.xmin <= b.xmax && b.ymin <= b.ymax && b.zmin <= b.zmax
  }

  /** `AABB(minPoint, maxPoint)`: the x, y, z of the first point become the
      minima and those of the second the maxima; w is ignored. */
  function FromCorners(minPoint: Vec4, maxPoint: Vec4): (b: AABB)
    ensures b.xmin == minPoint.x && b.ymin == minPoint.y && b.zmin == minPoint.z
    ensures b.xmax == maxPoint.x && b.ymax == maxPoint.y && b.zmax == maxPoint.z
  {
    AABB(minPoint.x, maxPoint.x, minPoint.y, maxPoint.y, minPoint.z, maxPoint.z)
  }

  lemma FromCornersIgnoresW(minPoint: Vec4, maxPoint: Vec4, w1: real, w2: real)
    ensures FromCorners(minPoint.(w := w1), maxPoint.(w := w2)) == FromCorners(minPoint, maxPoint)
  {
  }

  /** The corner at the three minima, and the one at the three maxima. */
  function MinCorner(b: AABB): Point
  {
    Vector(b.xmin, b.ymin, b.zmin)
  }

  function MaxCorner(b: AABB): Point
  {
    Vector(b.xmax, b.ymax, b.zmax)
  }

  /** The new value of a box after `transform(matrix)`: only the two corners
      are mapped, and then each axis is put back in order. The result is
      canonical, and on each axis its {min, max} is exactly the pair of the
      mapped corners' coordinates. */
  function Transformed(b: AABB, a: Affine): (res: AABB)
    ensures Canonical(res)
    ensures var p, q := Apply(a, MinCorner(b)), Apply(a, MaxCorner(b));
      multiset{res.xmin, res.xmax} == multiset{p.x, q.x} &&
      multiset{res.ymin, res.ymax} == multiset{p.y, q.y} &&
      multiset{res.zmin, res.zmax} == multiset{p.z, q.z}
  {
    var p, q := Apply(a, MinCorner(b)), Apply(a, MaxCorner(b));
    AABB(Min(p.x, q.x), Max(p.x, q.x), Min(p.y, q.y), Max(p.y, q.y), Min(p.z, q.z), Max(p.z, q.z))
  }

  /** `transform(matrix)` as the source writes it: assign the mapped
      corners, then swap each axis whose minimum exceeds its maximum. */
  method Transform(b: AABB, a: Affine) returns (res: AABB)
    ensures res == Transformed(b, a)
  {
    var minPoint := Apply(a, MinCorner(b));
    var maxPoint := Apply(a, MaxCorner(b));
    var xmin, ymin, zmin := minPoint.x, minPoint.y, minPoint.z;
    var xmax, ymax, zmax := maxPoint.x, maxPoint.y, maxPoint.z;
    if xmin > xmax {
      var tmp := xmin;
      xmin := xmax;
      xmax := tmp;
    }
    if ymin > ymax {
      var tmp := ymin;
      ymin := ymax;
      ymax := tmp;
    }
    if zmin > zmax {
      var tmp := zmin;
      zmin := zmax;
      zmax := tmp;
    }
    res := AABB(xmin, xmax, ymin, ymax, zmin, zmax);
  }

  /** The identity leaves a canonical box as it is. */
  lemma TransformedIdentity(b: AABB)
    requires Canonical(b)
    ensures Transformed(b, Identity) == b
  {
    ApplyIdentity(MinCorner(b));
    ApplyIdentity(MaxCorner(b));
  }

  /** ... but re-sorts the empty default box into the cube [-1e10, 1e10]^3. */
  lemma TransformedDefault()
    ensures Transformed(DefaultBox, Identity) ==
      AABB(-kBoxInfinity, kBoxInfinity, -kBoxInfinity, kBoxInfinity, -kBoxInfinity, kBoxInfinity)
  {
    ApplyIdentity(MinCorner(DefaultBox));
    ApplyIdentity(MaxCorner(DefaultBox));
  }

  /** `pointInAABB(p)`: closed intervals on all three axes. */
  predicate PointIn(b: AABB, p: Point)
  {
    b.xmin <= p.x && b.xmax >= p.x &&
    b.ymin <= p.y && b.ymax >= p.y &&
    b.zmin <= p.z && b.zmax >= p.z
  }

  /** The default box contains no point. */
  lemma DefaultBoxEmpty(p: Point)
    ensures !PointIn(DefaultBox, p)
  {
  }

  /** A point is in the box exactly when it lies between the two corners;
      the corners of a canonical box are in it. */
  lemma PointInCorners(b: AABB)
    ensures Canonical(b) <==> PointIn(b, MinCorner(b))
    ensures Canonical(b) <==> PointIn(b, MaxCorner(b))
  {
  }

  /** The six face rectangles that `intersect` tests, in its order, each as
      its four corners. */
  function Faces(b: AABB): (fs: seq<seq<Point>>)
    ensures |fs| == 6 && forall i :: 0 <= i < 6 ==> |fs[i]| == 4
  {
    var p000 := Vector(b.xmin, b.ymin, b.zmin);
    var p001 := Vector(b.xmin, b.ymin, b.zmax);
    var p010 := Vector(b.xmin, b.ymax, b.zmin);
    var p011 := Vector(b.xmin, b.ymax, b.zmax);
    var p100 := Vector(b.xmax, b.ymin, b.zmin);
    var p101 := Vector(b.xmax, b.ymin, b.zmax);
    var p110 := Vector(b.xmax, b.ymax, b.zmin);
    var p111 := Vector(b.xmax, b.ymax, b.zmax);
    [[p000, p001, p011, p010],
     [p100, p101, p111, p110],
     [p000, p010, p110, p100],
     [p001, p011, p111, p101],
     [p000, p001, p101, p100],
     [p010, p011, p111, p110]]
  }

  predicate FaceHit(ray: Ray, f: seq<Point>)
    requires |f| == 4
  {
    IntersectRectangle(ray, f[0], f[1], f[2], f[3])
  }

  /** `intersect(intersection)`: one of the six faces is hit. It is a test
      on `intersection.m_ray` alone; it reads the ray and writes nothing. */
  predicate Intersects(b: AABB, ray: Ray)
  {
    exists i :: 0 <= i < 6 && FaceHit(ray, Faces(b)[i])
  }

  /** The box test is the disjunction of the six face tests, in the order
      `intersect` evaluates them. */
  lemma IntersectsSpec(b: AABB, ray: Ray)
    ensures var fs := Faces(b);
      Intersects(b, ray) <==>
        FaceHit(ray, fs[0]) || FaceHit(ray, fs[1]) || FaceHit(ray, fs[2]) ||
        FaceHit(ray, fs[3]) || FaceHit(ray, fs[4]) || FaceHit(ray, fs[5])
  {
    var fs := Faces(b);
    if Intersects(b, ray) {
      var i :| 0 <= i < 6 && FaceHit(ray, fs[i]);
      assert i == 0 || i == 1 || i == 2 || i == 3 || i == 4 || i == 5;
    }
    if FaceHit(ray, fs[0]) { assert FaceHit(ray, Faces(b)[0]); }
    if FaceHit(ray, fs[1]) { assert FaceHit(ray, Faces(b)[1]); }
    if FaceHit(ray, fs[2]) { assert FaceHit(ray, Faces(b)[2]); }
    if FaceHit(ray, fs[3]) { assert FaceHit(ray, Faces(b)[3]); }
    if FaceHit(ray, fs[4]) { assert FaceHit(ray, Faces(b)[4]); }
    if FaceHit(ray, fs[5]) { assert FaceHit(ray, Faces(b)[5]); }
  }

  /** Like the rectangle test, the box test is a test on the whole line:
      reversing the ray does not change it. */
  lemma IntersectsReversed(b: AABB, ray: Ray)
    ensures Intersects(b, Reversed(ray)) == Intersects(b, ray)
  {
    var fs := Faces(b);
    forall i | 0 <= i < 6
      ensures FaceHit(Reversed(ray), fs[i]) == FaceHit(ray, fs[i])
    {
      IntersectRectangleReversed(ray, fs[i][0], fs[i][1], fs[i][2], fs[i][3]);
    }
  }
}
