/** The value layer of the ray tracer (src/raytracing/basic.h): colours,
    vectors and points, rays, the affine model matrix that rays are moved
    through, and the `Intersection` accumulator threaded through one scene
    traversal. */
module Basic {
  import opened Wrappers
  import opened RealMath

  // ---------------------------------------------------------------- Color

  /** A linear RGB triple; nothing keeps it in [0,1] except an explicit clamp. */
  datatype Color = Color(r: real, g: real, b: real)
  {
    /** `c1 + c2` */
    function Plus(c: Color): Color
    {
      Color(r + c.r, g + c.g, b + c.b)
    }

    /** `c1 - c2` */
    function Minus(c: Color): Color
    {
      Color(r - c.r, g - c.g, b - c.b)
    }

    /** `c1 * c2`, channel by channel. */
    function Times(c: Color): Color
    {
      Color(r * c.r, g * c.g, b * c.b)
    }

    /** `f * c` and `c * f`. */
    function Scaled(f: real): Color
    {
      Color(f * r, f * g, f * b)
    }

    /** `c / f`; a zero divisor would give infinities in `float`. */
    function Div(f: real): Color
      requires f != 0.0
    {
      Color(r / f, g / f, b / f)
    }
  }

  /** `Color()`: every channel zero. */
  const Black: Color := Color(0.0, 0.0, 0.0)

  predicate InRange(c: Color, lo: real, hi: real)
  {
    lo <= c.r <= hi && lo <= c.g <= hi && lo <= c.b <= hi
  }

  /** One channel of `Color::clamp`: `std::max(min, std::min(max, v))`. */
  function ClampChannel(v: real, lo: real, hi: real): real
  {
    Max(lo, Min(hi, v))
  }

  /** The new value of a colour after `clamp(lo, hi)`. With `lo <= hi` every
      channel lands in [lo,hi] and a channel already there is left alone. */
  function Clamp(c: Color, lo: real, hi: real): (res: Color)
    ensures lo <= hi ==> InRange(res, lo, hi)
    ensures lo <= c.r <= hi ==> res.r == c.r
    ensures lo <= c.g <= hi ==> res.g == c.g
    ensures lo <= c.b <= hi ==> res.b == c.b
  {
    Color(ClampChannel(c.r, lo, hi), ClampChannel(c.g, lo, hi), ClampChannel(c.b, lo, hi))
  }

  /** Clamping twice is clamping once. */
  lemma ClampIdempotent(c: Color, lo: real, hi: real)
    requires lo <= hi
    ensures Clamp(Clamp(c, lo, hi), lo, hi) == Clamp(c, lo, hi)
  {
  }

  // --------------------------------------------------------------- Vector

  datatype Vector = Vector(x: real, y: real, z: real)
  {
    /** `v1 + v2` */
    function Plus(v: Vector): Vector
    {
      Vector(x + v.x, y + v.y, z + v.z)
    }

    /** `v1 - v2` */
    function Minus(v: Vector): Vector
    {
      Vector(x - v.x, y - v.y, z - v.z)
    }

    /** unary `-v` */
    function Neg(): Vector
    {
      Vector(-x, -y, -z)
    }

    /** `f * v` and `v * f` */
    function Scaled(f: real): Vector
    {
      Vector(f * x, f * y, f * z)
    }

    /** `v / f` */
    function Div(f: real): Vector
      requires f != 0.0
    {
      Vector(x / f, y / f, z / f)
    }
  }

  /** `Point` is a synonym of `Vector` in the source. */
  type Point = Vector

  /** `Vector()`: the zero vector, also the origin. */
  const Zero: Vector := Vector(0.0, 0.0, 0.0)

  /** `Color(QVector3D)`: the implicit conversion, channel by component. It
      is what makes `ka * color` a channel-wise product of colours. */
  function VectorColor(v: Vector): Color
  {
    Color(v.x, v.y, v.z)
  }

  /** The `QVector3D` a colour is written out as. */
  function ColorVector(c: Color): Vector
  {
    Vector(c.r, c.g, c.b)
  }

  function Dot(a: Vector, b: Vector): real
  {
    a.x * b.x + a.y * b.y + a.z * b.z
  }

  function Cross(a: Vector, b: Vector): Vector
  {
    Vector(a.y * b.z - a.z * b.y,
           a.z * b.x - a.x * b.z,
           a.x * b.y - a.y * b.x)
  }

  /** The cross product is orthogonal to both of its arguments. */
  lemma CrossOrthogonal(a: Vector, b: Vector)
    ensures Dot(Cross(a, b), a) == 0.0 && Dot(Cross(a, b), b) == 0.0
  {
  }

  /** Swapping the arguments of the cross product negates it. */
  lemma CrossAntiCommutative(a: Vector, b: Vector)
    ensures Cross(b, a) == Cross(a, b).Neg()
  {
  }

  /** Lagrange's identity: the squared length of a cross product. */
  lemma CrossLength2(a: Vector, b: Vector)
    ensures Length2(Cross(a, b)) == Length2(a) * Length2(b) - Sq(Dot(a, b))
  {
  }

  /** Scaling the first argument scales the cross product by the same factor. */
  lemma CrossScaled(a: Vector, b: Vector, k: real)
    ensures Cross(a.Scaled(k), b) == Cross(a, b).Scaled(k)
  {
    var c := Cross(a.Scaled(k), b);
    var d := Cross(a, b).Scaled(k);
    assert c.x == d.x by {
      assert c.x == (k * a.y) * b.z - (k * a.z) * b.y;
      assert d.x == k * (a.y * b.z - a.z * b.y);
      ScaledDifference(k, a.y, b.z, a.z, b.y);
    }
    assert c.y == d.y by {
      assert c.y == (k * a.z) * b.x - (k * a.x) * b.z;
      assert d.y == k * (a.z * b.x - a.x * b.z);
      ScaledDifference(k, a.z, b.x, a.x, b.z);
    }
    assert c.z == d.z by {
      assert c.z == (k * a.x) * b.y - (k * a.y) * b.x;
      assert d.z == k * (a.x * b.y - a.y * b.x);
      ScaledDifference(k, a.x, b.y, a.y, b.x);
    }
  }

  /** Scaling the first argument scales the dot product by the same factor. */
  lemma DotScaled(a: Vector, b: Vector, k: real)
    ensures Dot(a.Scaled(k), b) == k * Dot(a, b)
  {
  }

  lemma ScaledDifference(k: real, p: real, q: real, r: real, s: real)
    ensures (k * p) * q - (k * r) * s == k * (p * q - r * s)
  {
  }

  /** `length2()`: never negative. */
  function Length2(v: Vector): (l: real)
    ensures 0.0 <= l
  {
    SqSign(v.x);
    SqSign(v.y);
    SqSign(v.z);
    Sq(v.x) + Sq(v.y) + Sq(v.z)
  }

  /** The squared length is zero only for the zero vector. */
  lemma ZeroFromLength2(v: Vector)
    requires Length2(v) == 0.0
    ensures v == Zero
  {
    SqSign(v.x);
    SqSign(v.y);
    SqSign(v.z);
    assert v.x == 0.0 && v.y == 0.0 && v.z == 0.0;
  }

  /** A positive squared length means a non-zero vector. */
  lemma NonZeroFromLength2(v: Vector)
    requires 0.0 < Length2(v)
    ensures v != Zero
  {
    SqZero();
  }

  /** The dot product of a vector with itself is its squared length. */
  lemma DotSelf(v: Vector)
    ensures Dot(v, v) == Length2(v)
  {
  }

  /** Scaling a vector by f scales its squared length by f squared. */
  lemma Length2Scaled(v: Vector, f: real)
    ensures Length2(v.Scaled(f)) == Sq(f) * Length2(v)
  {
    SqTimes(f, v.x);
    SqTimes(f, v.y);
    SqTimes(f, v.z);
  }

  /** `length()`. */
  function Length(m: Intrinsics, v: Vector): real
  {
    m.sqrt(Length2(v))
  }

  /** `Vector::normalize()`: the new value of the vector, and the length it
      returns (the length before normalisation). A zero-length vector is left
      as it is, by the `len > 0` guard. */
  function Normalize(m: Intrinsics, v: Vector): (Vector, real)
  {
    var len := Length(m, v);
    if len > 0.0 then (v.Div(len), len) else (v, len)
  }

  /** With a sound square root, the returned length is the non-negative root
      of `length2()`, scaling the result back by it gives the input, it is
      zero only for the zero vector, and any other vector becomes a unit
      vector. */
  lemma NormalizeSpec(m: Intrinsics, v: Vector)
    requires Sound(m)
    ensures 0.0 <= Normalize(m, v).1 && Sq(Normalize(m, v).1) == Length2(v)
    ensures Normalize(m, v).0.Scaled(Normalize(m, v).1) == v
    ensures Normalize(m, v).1 == 0.0 <==> v == Zero
    ensures v != Zero ==> Length2(Normalize(m, v).0) == 1.0
  {
    SqrtSpec(m, Length2(v));
    if Length(m, v) > 0.0 {
      NormalizePositive(m, v);
      NonZeroFromLength2(v);
    } else {
      NormalizeZero(m, v);
    }
  }

  lemma NormalizePositive(m: Intrinsics, v: Vector)
    requires Sound(m) && Length(m, v) > 0.0
    ensures Normalize(m, v).0.Scaled(Normalize(m, v).1) == v
    ensures Length2(Normalize(m, v).0) == 1.0
    ensures 0.0 < Length2(v)
  {
    SqrtSpec(m, Length2(v));
    SqSign(Length(m, v));
    DivideByLength(v, Length(m, v));
  }

  lemma NormalizeZero(m: Intrinsics, v: Vector)
    requires Sound(m) && !(Length(m, v) > 0.0)
    ensures Normalize(m, v).0.Scaled(Normalize(m, v).1) == v
    ensures v == Zero && Normalize(m, v).1 == 0.0
  {
    SqrtSpec(m, Length2(v));
    ZeroLength(v, Length(m, v));
  }

  lemma ZeroLength(v: Vector, len: real)
    requires 0.0 <= len && !(len > 0.0) && Sq(len) == Length2(v)
    ensures v == Zero && len == 0.0 && v.Scaled(len) == v
  {
    assert len == 0.0;
    SqZero();
    assert Length2(v) == 0.0;
    ZeroFromLength2(v);
  }

  lemma SqrtSpec(m: Intrinsics, x: real)
    requires Sound(m) && 0.0 <= x
    ensures 0.0 <= m.sqrt(x) && Sq(m.sqrt(x)) == x
  {
  }

  /** Dividing a vector by its length gives a unit vector. */
  lemma DivideByLength(v: Vector, len: real)
    requires 0.0 < len && Sq(len) == Length2(v)
    ensures v.Div(len).Scaled(len) == v
    ensures Length2(v.Div(len)) == 1.0
  {
    var u := v.Div(len);
    SqDiv(v.x, len);
    SqDiv(v.y, len);
    SqDiv(v.z, len);
    calc {
      Length2(u) * Sq(len);
      Sq(u.x) * Sq(len) + Sq(u.y) * Sq(len) + Sq(u.z) * Sq(len);
      Sq(v.x) + Sq(v.y) + Sq(v.z);
      Sq(len);
    }
    SqSign(len);
    UnitFromProduct(Length2(u), Sq(len));
  }

  lemma UnitFromProduct(x: real, k: real)
    requires k > 0.0 && x * k == k
    ensures x == 1.0
  {
    assert (x - 1.0) * k == 0.0;
  }

  /** `normalized()`: the normalised copy. */
  function Normalized(m: Intrinsics, v: Vector): Vector
  {
    Normalize(m, v).0
  }

  /** Normalising a unit vector leaves it unchanged. */
  lemma NormalizedUnit(m: Intrinsics, v: Vector)
    requires Sound(m) && Length2(v) == 1.0
    ensures Normalized(m, v) == v
  {
    SqrtOne(m);
    assert Length(m, v) == 1.0;
  }

  /** Normalising twice is normalising once. */
  lemma NormalizedIdempotent(m: Intrinsics, v: Vector)
    requires Sound(m)
    ensures Normalized(m, Normalized(m, v)) == Normalized(m, v)
  {
    if v != Zero {
      NormalizeSpec(m, v);
      NormalizedUnit(m, Normalized(m, v));
    }
  }

  /** The tolerance of `Vector::operator==`. */
  const kVectorEpsilon: real := 0.000001

  /** `Vector::operator==`: every component differs by less than 1e-6. */
  predicate ApproxEq(a: Vector, b: Vector)
  {
    Abs(a.x - b.x) < kVectorEpsilon &&
    Abs(a.y - b.y) < kVectorEpsilon &&
    Abs(a.z - b.z) < kVectorEpsilon
  }

  lemma ApproxEqReflexive(a: Vector)
    ensures ApproxEq(a, a)
  {
  }

  lemma ApproxEqSymmetric(a: Vector, b: Vector)
    ensures ApproxEq(a, b) == ApproxEq(b, a)
  {
  }

  /** The tolerance test is not transitive. */
  lemma ApproxEqNotTransitive()
    ensures exists a, b, c :: ApproxEq(a, b) && ApproxEq(b, c) && !ApproxEq(a, c)
  {
    var a := Zero;
    var b := Vector(0.0000006, 0.0, 0.0);
    var c := Vector(0.0000012, 0.0, 0.0);
    assert ApproxEq(a, b) && ApproxEq(b, c) && !ApproxEq(a, c);
  }

  /** The vector that `reflect(direction, normal)` normalises:
      `2 * normal * dot(normal, view) - view` with `view = -direction`. For a
      unit normal it is the mirror image of the direction: the component along
      the normal changes sign and the component across it is kept. */
  function ReflectionOf(direction: Vector, normal: Vector): (r: Vector)
    ensures Length2(normal) == 1.0 ==> Dot(r, normal) == -Dot(direction, normal)
    ensures Length2(normal) == 1.0 ==>
      r.Minus(normal.Scaled(Dot(r, normal))) == direction.Minus(normal.Scaled(Dot(direction, normal)))
  {
    var view := direction.Neg();
    ReflectionFacts(direction, normal);
    normal.Scaled(2.0).Scaled(Dot(normal, view)).Minus(view)
  }

  lemma ReflectionFacts(d: Vector, n: Vector)
    ensures Length2(n) == 1.0 ==>
      var r := n.Scaled(2.0).Scaled(Dot(n, d.Neg())).Minus(d.Neg());
      Dot(r, n) == -Dot(d, n) &&
      r.Minus(n.Scaled(Dot(r, n))) == d.Minus(n.Scaled(Dot(d, n)))
  {
    if Length2(n) == 1.0 {
      var k := Dot(n, d);
      var r := n.Scaled(2.0).Scaled(Dot(n, d.Neg())).Minus(d.Neg());
      assert Dot(n, d.Neg()) == -k;
      assert r == n.Scaled(-2.0 * k).Plus(d);
      DotSelf(n);
      assert Dot(r, n) == -2.0 * k * Dot(n, n) + Dot(d, n);
    }
  }

  /** `reflect(direction, normal)`. */
  function Reflect(m: Intrinsics, direction: Vector, normal: Vector): Vector
  {
    Normalized(m, ReflectionOf(direction, normal))
  }

  // --------------------------------------------------------- Model matrix

  /** A `QMatrix4x4` whose bottom row is (0, 0, 0, 1): three rows of the linear
      part and a translation. Multiplying a point by it is then the same for
      `QVector3D` (no projective divide) and for `QVector4D` with w = 1. */
  datatype Affine = Affine(row0: Vector, row1: Vector, row2: Vector, translation: Vector)

  function Apply(a: Affine, p: Point): Point
  {
    Vector(Dot(a.row0, p) + a.translation.x,
           Dot(a.row1, p) + a.translation.y,
           Dot(a.row2, p) + a.translation.z)
  }

  const Identity: Affine :=
    Affine(Vector(1.0, 0.0, 0.0), Vector(0.0, 1.0, 0.0), Vector(0.0, 0.0, 1.0), Zero)

  /** The identity matrix maps every point to itself. */
  lemma ApplyIdentity(p: Point)
    ensures Apply(Identity, p) == p
  {
  }

  /** Determinant of the linear part. */
  function Determinant(a: Affine): real
  {
    Dot(a.row0, Cross(a.row1, a.row2))
  }

  /** The inverse of a matrix with non-zero determinant: the adjugate of the
      linear part over the determinant, and the translation mapped back. */
  function InverseOf(a: Affine): Affine
    requires Determinant(a) != 0.0
  {
    var det := Determinant(a);
    var c0 := Cross(a.row1, a.row2);
    var c1 := Cross(a.row2, a.row0);
    var c2 := Cross(a.row0, a.row1);
    var lin := Affine(Vector(c0.x, c1.x, c2.x).Div(det),
                      Vector(c0.y, c1.y, c2.y).Div(det),
                      Vector(c0.z, c1.z, c2.z).Div(det), Zero);
    lin.(translation := Apply(lin, a.translation).Neg())
  }

  /** `QMatrix4x4::inverted()` of an affine matrix: the identity when the
      matrix is singular, as Qt returns, and otherwise the adjugate inverse. */
  function Inverted(a: Affine): (inv: Affine)
    ensures Determinant(a) == 0.0 ==> inv == Identity
  {
    if Determinant(a) == 0.0 then Identity else InverseOf(a)
  }

  // ------------------------------------------------------------------ Ray

  const kRayTMin: real := 0.0001

  /** `1.0e30f` in the source. */
  const kRayTMax: real := 1000000000000000000000000000000.0

  datatype Ray = Ray(origin: Point, direction: Vector, tMax: real, time: real)

  /** `Ray()`: from the origin along +z, reaching `kRayTMax`. */
  const DefaultRay: Ray := Ray(Zero, Vector(0.0, 0.0, 1.0), kRayTMax, 0.0)

  /** `Ray(origin, direction, tMax, time)`: the direction is stored normalised
      (see `NormalizeSpec`). */
  function NewRay(m: Intrinsics, origin: Point, direction: Vector, tMax: real, time: real): (r: Ray)
    ensures r.origin == origin && r.tMax == tMax && r.time == time
    ensures r.direction == Normalized(m, direction)
  {
    Ray(origin, Normalized(m, direction), tMax, time)
  }

  /** `Ray::calculate(t)`: the point at parameter t; the origin at t = 0, and
      at distance |t| from the origin along a unit direction. */
  function Calculate(r: Ray, t: real): (p: Point)
    ensures t == 0.0 ==> p == r.origin
    ensures Length2(r.direction) == 1.0 ==> Length2(p.Minus(r.origin)) == Sq(t)
  {
    var p := r.origin.Plus(r.direction.Scaled(t));
    assert p.Minus(r.origin) == r.direction.Scaled(t);
    Length2Scaled(r.direction, t);
    p
  }

  /** `Ray::transform(matrix)`: both the origin and origin + direction are
      mapped, and the difference, normalised, is the new direction. */
  function TransformRay(m: Intrinsics, r: Ray, a: Affine): (res: Ray)
    ensures res.origin == Apply(a, r.origin) && res.tMax == r.tMax && res.time == r.time
  {
    var p1 := Apply(a, r.origin);
    var p2 := Apply(a, r.origin.Plus(r.direction));
    NewRay(m, p1, Normalized(m, p2.Minus(p1)), r.tMax, r.time)
  }

  /** The linear part of a matrix: what it does to a difference of points. */
  function Linear(a: Affine, v: Vector): Vector
  {
    Vector(Dot(a.row0, v), Dot(a.row1, v), Dot(a.row2, v))
  }

  lemma DotPlusRight(a: Vector, p: Vector, q: Vector)
    ensures Dot(a, p.Plus(q)) == Dot(a, p) + Dot(a, q)
  {
  }

  /** Mapping the two ends of a vector and subtracting is applying the
      linear part: the translation cancels. */
  lemma ApplyDifference(a: Affine, o: Point, d: Vector)
    ensures Apply(a, o.Plus(d)).Minus(Apply(a, o)) == Linear(a, d)
  {
    DotPlusRight(a.row0, o, d);
    DotPlusRight(a.row1, o, d);
    DotPlusRight(a.row2, o, d);
  }

  /** The transformed direction is the linear part of the matrix applied
      to the old direction, normalised once here and once more by the `Ray`
      constructor. `NormalizedIdempotent` makes that one normalisation. */
  lemma TransformRayDirection(m: Intrinsics, r: Ray, a: Affine)
    ensures TransformRay(m, r, a).direction == Normalized(m, Normalized(m, Linear(a, r.direction)))
  {
    var p1 := Apply(a, r.origin);
    var p2 := Apply(a, r.origin.Plus(r.direction));
    assert p2.Minus(p1) == Linear(a, r.direction) by {
      ApplyDifference(a, r.origin, r.direction);
    }
  }

  /** The transformed direction is a unit vector unless the matrix maps the
      direction to zero, and then it is zero. */
  lemma TransformRayUnit(m: Intrinsics, r: Ray, a: Affine)
    requires Sound(m)
    ensures Linear(a, r.direction) != Zero ==> Length2(TransformRay(m, r, a).direction) == 1.0
    ensures Linear(a, r.direction) == Zero ==> TransformRay(m, r, a).direction == Zero
  {
    var v := Linear(a, r.direction);
    TransformRayDirection(m, r, a);
    NormalizedIdempotent(m, v);
    if Length(m, v) > 0.0 {
      NormalizePositive(m, v);
      NonZeroFromLength2(v);
    } else {
      NormalizeZero(m, v);
      NormalizeUnchanged(m, v);
    }
  }

  /** Without a positive length `normalize` leaves the vector as it is. */
  lemma NormalizeUnchanged(m: Intrinsics, v: Vector)
    requires !(Length(m, v) > 0.0)
    ensures Normalize(m, v).0 == v
  {
  }

  /** Moving a ray with a unit direction through the identity leaves it as it is. */
  lemma TransformRayIdentity(m: Intrinsics, r: Ray)
    requires Sound(m) && Length2(r.direction) == 1.0
    ensures TransformRay(m, r, Identity) == r
  {
    var p1 := Apply(Identity, r.origin);
    var p2 := Apply(Identity, r.origin.Plus(r.direction));
    assert p2.Minus(p1) == r.direction;
    NormalizedUnit(m, r.direction);
  }

  // --------------------------------------------------------- Intersection

  /** The fields of an `Intersection`, as a value. `M` stands for the owning
      model, which basic.h only forward-declares; `pModel` is `None` for the
      null pointer. */
  datatype IsectState<M> = IsectState(
    ray: Ray,
    t: real,
    modelT: real,
    pModel: Option<M>,
    colorModifier: Color,
    intersect: Point,
    modelIntersect: Point,
    normal: Vector,
    modelNormal: Vector,
    intersected: bool,
    modelIntersected: bool)

  /** The state `Intersection(ray)` builds. */
  function Initial<M>(ray: Ray): IsectState<M>
  {
    IsectState(ray, ray.tMax, ray.tMax, None, Color(1.0, 1.0, 1.0),
               Zero, Zero, Zero, Zero, false, false)
  }

  /** The mutable nearest-hit accumulator: a world channel (`t`, `pModel`,
      `intersect`, `normal`, `intersected`) and a model-local channel
      (`modelT`, `modelIntersect`, `modelNormal`, `modelIntersected`). The
      unused `lights` list is not modelled. */
  class Intersection<M> {
    var ray: Ray
    var t: real
    var modelT: real
    var pModel: Option<M>
    var colorModifier: Color
    var intersect: Point
    var modelIntersect: Point
    var normal: Vector
    var modelNormal: Vector
    var intersected: bool
    var modelIntersected: bool

    function State(): IsectState<M>
      reads this
    {
      IsectState(ray, t, modelT, pModel, colorModifier, intersect, modelIntersect,
                 normal, modelNormal, intersected, modelIntersected)
    }

    /** `Intersection()`: both best distances at `kRayTMax`, no owner, no hit. */
    constructor ()
      ensures State() == Initial(DefaultRay)
      ensures t == kRayTMax && modelT == kRayTMax && pModel == None
      ensures !intersected && !modelIntersected
    {
      ray, t, modelT, pModel := DefaultRay, kRayTMax, kRayTMax, None;
      colorModifier := Color(1.0, 1.0, 1.0);
      intersect, modelIntersect, normal, modelNormal := Zero, Zero, Zero, Zero;
      intersected, modelIntersected := false, false;
    }

    /** `Intersection(const Ray&)`: both best distances start at the ray's
      `tMax`, no owner, no hit. */
    constructor FromRay(r: Ray)
      ensures State() == Initial(r)
      ensures t == r.tMax && modelT == r.tMax && pModel == None
      ensures !intersected && !modelIntersected
    {
      ray, t, modelT, pModel := r, r.tMax, r.tMax, None;
      colorModifier := Color(1.0, 1.0, 1.0);
      intersect, modelIntersect, normal, modelNormal := Zero, Zero, Zero, Zero;
      intersected, modelIntersected := false, false;
    }

    /** The copy constructor copies every field except the two hit flags,
        which it resets to false. */
    constructor Copy(i: Intersection<M>)
      ensures State() == old(i.State()).(intersected := false, modelIntersected := false)
    {
      ray, t, modelT, pModel := i.ray, i.t, i.modelT, i.pModel;
      colorModifier := i.colorModifier;
      intersect, modelIntersect := i.intersect, i.modelIntersect;
      normal, modelNormal := i.normal, i.modelNormal;
      intersected, modelIntersected := false, false;
    }

    /** `operator=` copies every field, the two hit flags included. */
    method Assign(i: Intersection<M>)
      modifies this
      ensures State() == old(i.State())
    {
      ray := i.ray;
      t := i.t;
      modelT := i.modelT;
      pModel := i.pModel;
      colorModifier := i.colorModifier;
      intersect := i.intersect;
      modelIntersect := i.modelIntersect;
      normal := i.normal;
      modelNormal := i.modelNormal;
      intersected := i.intersected;
      modelIntersected := i.modelIntersected;
    }

    /** `model_intersect(t)`: the point at parameter t along the current ray. */
    function ModelIntersectAt(s: real): (p: Point)
      reads this
      ensures p == Calculate(ray, s)
    {
      ray.origin.Plus(ray.direction.Scaled(s))
    }
  }
}
