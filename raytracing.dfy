/** The renderer of src/raytracingscene.cpp: the perspective camera that
    turns a screen position into a primary ray, the recursive `traceRay`,
    the render thread that fills one rectangle of the image, and
    `renderRayTracing`, which cuts the image into tiles and hands one to
    each thread. The threads write disjoint rectangles, so they are run
    here one after another. */
module RayTracing {
  import opened Wrappers
  import opened RealMath
  import opened Basic
  import opened Models
  import opened Scenes
  import opened Lighting
  import opened Images
  import opened Tiles

  /** `M_PI`. */
  const kPi: real := 3.14159265358979323846

  /** `m_tanFov = std::tan(fov * M_PI / 180)`: the field of view is given in
      degrees and the full angle goes to `tan`. */
  function TanFov(m: Intrinsics, fov: real): real
  {
    m.tan(fov * kPi / 180.0)
  }

  /** The camera axes the constructor and `modifyPose` compute: the unit
      forward direction, `right = cross(forward, up).normalized()` and
      `up = cross(right, forward)`. */
  function Frame(m: Intrinsics, front: Vector, targetUp: Vector): (Vector, Vector, Vector)
  {
    var forward := Normalized(m, front);
    var right := Normalized(m, Cross(forward, targetUp));
    (forward, right, Cross(right, forward))
  }

  /** Three unit vectors, pairwise orthogonal. */
  predicate Orthonormal(forward: Vector, right: Vector, up: Vector)
  {
    Length2(forward) == 1.0 && Length2(right) == 1.0 && Length2(up) == 1.0 &&
    Dot(forward, right) == 0.0 && Dot(forward, up) == 0.0 && Dot(right, up) == 0.0
  }

  /** Whenever the front and the requested up direction are not parallel,
      the camera axes are orthonormal. */
  lemma FrameOrthonormal(m: Intrinsics, front: Vector, targetUp: Vector)
    requires Sound(m) && Cross(front, targetUp) != Zero
    ensures var (forward, right, up) := Frame(m, front, targetUp);
      Orthonormal(forward, right, up)
  {
    var (f, r, u) := Frame(m, front, targetUp);
    var len := Normalize(m, front).1;
    NormalizeSpec(m, front);
    NotParallel(f, targetUp, len);
    var c := Cross(f, targetUp);
    var lc := Normalize(m, c).1;
    NormalizeSpec(m, c);
    RightOrthogonal(f, targetUp, r, lc);
    UpOrthonormal(f, r);
  }

  /** Scaling the first argument by len keeps a cross product non-zero only
      if len and the unscaled product are non-zero. */
  lemma NotParallel(f: Vector, up: Vector, len: real)
    requires Cross(f.Scaled(len), up) != Zero
    ensures Cross(f, up) != Zero && len != 0.0
  {
    CrossScaled(f, up, len);
  }

  /** A non-zero multiple of `cross(f, up)` is orthogonal to f. */
  lemma RightOrthogonal(f: Vector, up: Vector, r: Vector, lc: real)
    requires r.Scaled(lc) == Cross(f, up) && lc != 0.0
    ensures Dot(f, r) == 0.0
  {
    CrossOrthogonal(f, up);
    DotScaled(r, f, lc);
  }

  /** Two orthogonal unit vectors and their cross product are orthonormal. */
  lemma UpOrthonormal(f: Vector, r: Vector)
    requires Length2(f) == 1.0 && Length2(r) == 1.0 && Dot(f, r) == 0.0
    ensures Orthonormal(f, r, Cross(r, f))
  {
    CrossOrthogonal(r, f);
    CrossLength2(r, f);
    SqZero();
  }

  /** The dot product of a screen direction with the forward axis. */
  lemma DotAlongForward(f: Vector, r: Vector, u: Vector, a: real, b: real)
    ensures Dot(f.Plus(r.Scaled(a)).Plus(u.Scaled(b)), f) == Dot(f, f) + a * Dot(f, r) + b * Dot(f, u)
  {
    var p := f.Plus(r.Scaled(a));
    assert Dot(p.Plus(u.Scaled(b)), f) == Dot(p, f) + Dot(u.Scaled(b), f) by {
      DotPlus(p, u.Scaled(b), f);
    }
    assert Dot(p, f) == Dot(f, f) + Dot(r.Scaled(a), f) by {
      DotPlus(f, r.Scaled(a), f);
    }
    assert Dot(r.Scaled(a), f) == a * Dot(f, r) by {
      DotScaled(r, f, a);
      DotCommutes(r, f);
    }
    assert Dot(u.Scaled(b), f) == b * Dot(f, u) by {
      DotScaled(u, f, b);
      DotCommutes(u, f);
    }
  }

  /** The dot product of a screen direction with any vector g. */
  lemma DotScreen(f: Vector, r: Vector, u: Vector, a: real, b: real, g: Vector)
    ensures Dot(f.Plus(r.Scaled(a)).Plus(u.Scaled(b)), g) == Dot(f, g) + a * Dot(r, g) + b * Dot(u, g)
  {
    var p := f.Plus(r.Scaled(a));
    assert Dot(p.Plus(u.Scaled(b)), g) == Dot(p, g) + Dot(u.Scaled(b), g) by {
      DotPlus(p, u.Scaled(b), g);
    }
    assert Dot(p, g) == Dot(f, g) + Dot(r.Scaled(a), g) by {
      DotPlus(f, r.Scaled(a), g);
    }
    DotScaled(r, g, a);
    DotScaled(u, g, b);
  }

  lemma DotPlus(p: Vector, q: Vector, f: Vector)
    ensures Dot(p.Plus(q), f) == Dot(p, f) + Dot(q, f)
  {
  }

  lemma DotCommutes(a: Vector, b: Vector)
    ensures Dot(a, b) == Dot(b, a)
  {
  }

  class PerspectiveCamera {
    var origin: Point
    var forward: Vector
    var right: Vector
    var up: Vector
    var tanFov: real
    var nearDistance: real
    var focalDistance: real

    /** The pose set by the constructor and by `modifyPose`. */
    ghost predicate Posed(m: Intrinsics, fov: real, origin: Point, front: Vector, targetUp: Vector)
      reads this
    {
      this.origin == origin && tanFov == TanFov(m, fov) &&
      (forward, right, up) == Frame(m, front, targetUp)
    }

    /** `PerspectiveCamera(fov, origin, front, targetUpDirection, near, focal)`. */
    constructor (m: Intrinsics, fov: real, origin: Point, front: Vector, targetUp: Vector,
                 nearDistance: real, focalDistance: real)
      ensures Posed(m, fov, origin, front, targetUp)
      ensures this.nearDistance == nearDistance && this.focalDistance == focalDistance
    {
      this.origin := origin;
      this.forward := Normalized(m, front);
      this.tanFov := TanFov(m, fov);
      this.nearDistance := nearDistance;
      this.focalDistance := focalDistance;
      new;
      right := Normalized(m, Cross(forward, targetUp));
      up := Cross(right, forward);
    }

    /** `modifyPose`: a new pose; the near and focal distances are kept. */
    method ModifyPose(m: Intrinsics, fov: real, origin: Point, front: Vector, targetUp: Vector)
      modifies this
      ensures Posed(m, fov, origin, front, targetUp)
      ensures nearDistance == old(nearDistance) && focalDistance == old(focalDistance)
    {
      tanFov := TanFov(m, fov);
      this.origin := origin;
      forward := Normalized(m, front);
      right := Normalized(m, Cross(forward, targetUp));
      up := Cross(right, forward);
    }

    /** The direction `makeRay` builds before normalising it. */
    function ScreenDirection(xScreen: real, yScreen: real): Vector
      reads this
    {
      forward.Plus(right.Scaled((xScreen - 0.5) * tanFov)).Plus(up.Scaled((yScreen - 0.5) * tanFov))
    }

    /** `makeRay(xScreen, yScreen)`: a default ray moved to the camera
        origin, pointing along the normalised screen direction; its reach
        and time are the defaults. */
    function MakeRay(m: Intrinsics, xScreen: real, yScreen: real): (r: Ray)
      reads this
      ensures r.origin == origin && r.tMax == kRayTMax && r.time == 0.0
      ensures r.direction == Normalized(m, ScreenDirection(xScreen, yScreen))
    {
      DefaultRay.(origin := origin, direction := Normalize(m, ScreenDirection(xScreen, yScreen)).0)
    }

    /** The centre of the screen looks straight along the forward axis. */
    lemma MakeRayCentre(m: Intrinsics)
      requires Sound(m) && Length2(forward) == 1.0
      ensures MakeRay(m, 0.5, 0.5) == Ray(origin, forward, kRayTMax, 0.0)
    {
      assert ScreenDirection(0.5, 0.5) == forward;
      NormalizedUnit(m, forward);
    }

    /** The centre of the top screen edge lies one unit along forward and
        tanFov / 2 along up, so the vertical half opening of the screen has
        tangent tanFov / 2. */
    lemma ScreenEdge()
      requires Orthonormal(forward, right, up)
      ensures Dot(ScreenDirection(0.5, 1.0), forward) == 1.0
      ensures Dot(ScreenDirection(0.5, 1.0), up) == tanFov / 2.0
    {
      assert ScreenDirection(0.5, 1.0) ==
        forward.Plus(right.Scaled(0.0 * tanFov)).Plus(up.Scaled(0.5 * tanFov));
      DotScreen(forward, right, up, 0.0 * tanFov, 0.5 * tanFov, forward);
      DotScreen(forward, right, up, 0.0 * tanFov, 0.5 * tanFov, up);
      DotSelf(forward);
      DotSelf(up);
      DotCommutes(right, forward);
      DotCommutes(up, forward);
      DotCommutes(right, up);
    }

    /** With orthonormal axes every primary ray has a unit direction and
        points into the half-space in front of the camera. */
    lemma MakeRayForward(m: Intrinsics, xScreen: real, yScreen: real)
      requires Sound(m) && Orthonormal(forward, right, up)
      ensures var r := MakeRay(m, xScreen, yScreen);
        Length2(r.direction) == 1.0 && 0.0 < Dot(r.direction, forward)
    {
      var d := ScreenDirection(xScreen, yScreen);
      var (u, len) := Normalize(m, d);
      DotAlongForward(forward, right, up, (xScreen - 0.5) * tanFov, (yScreen - 0.5) * tanFov);
      DotSelf(forward);
      assert Dot(d, forward) == 1.0;
      assert d != Zero;
      NormalizeSpec(m, d);
      DotScaled(u, forward, len);
      assert len * Dot(u, forward) == 1.0;
      SqSign(len);
    }
  }

  // ------------------------------------------------------------ traceRay

  /** The ray `Ray(m_intersect, reflect(direction, m_normal))`. */
  function ReflectionRay(m: Intrinsics, ray: Ray, s: IsectState<ObjModel>): Ray
  {
    NewRay(m, s.intersect, Reflect(m, ray.direction, s.normal), kRayTMax, 0.0)
  }

  /** The ray `Ray(m_intersect, direction)`: straight on through the hit. */
  function TransmissionRay(m: Intrinsics, ray: Ray, s: IsectState<ObjModel>): Ray
  {
    NewRay(m, s.intersect, ray.direction, kRayTMax, 0.0)
  }

  /** `local + ks * reflection + kt * transmission`, clamped to [0, 1]. */
  function Combine(local: Color, ks: Vector, kt: Vector, reflection: Color, transmission: Color): (c: Color)
    ensures InRange(c, 0.0, 1.0)
  {
    Clamp(local.Plus(VectorColor(ks).Times(reflection)).Plus(VectorColor(kt).Times(transmission)), 0.0, 1.0)
  }

  /** The hit `traceRay` shades: the final state of the scene query and
      the model that owns the hit, when the query reports one. The owner is
      always one of the scene's models. A hit reported without an owner (see
      `Models.ObjModel.WorldT`) would dereference a null model in the
      source; it counts as no hit here. */
  function Hit(m: Intrinsics, scene: Scene, ray: Ray): (h: Option<(IsectState<ObjModel>, ObjModel)>)
    reads scene, scene.models
    requires scene.Valid()
    ensures h.Some? ==> h.value.1 in scene.models && h.value.0.pModel == Some(h.value.1)
    ensures h.Some? ==> h.value.0.intersected
  {
    var (s, hit) := scene.IntersectSpec(m, Initial(ray));
    scene.IntersectOwner(m, Initial(ray));
    if !hit || s.pModel.None? then None else Some((s, s.pModel.value))
  }

  /** The Phong colour at a hit, with the owner's coefficients. */
  function LocalColor(m: Intrinsics, scene: Scene, ray: Ray, s: IsectState<ObjModel>, model: ObjModel): Color
    reads scene, scene.models, model
    requires scene.Valid()
  {
    PhongSpec(m, scene, Shading(s.intersect, s.normal, ray.direction, model.ka, model.ks, model.n))
  }

  /** `traceRay(ray, scene, maxRayDepth)`: black once the depth is used up,
      otherwise the colour of what the ray meets. */
  function Trace(m: Intrinsics, scene: Scene, ray: Ray, depth: nat): (c: Color)
    reads scene, scene.models
    requires scene.Valid()
    ensures InRange(c, 0.0, 1.0)
    decreases depth, 0
  {
    if depth == 0 then Black else TraceHit(m, scene, ray, depth - 1)
  }

  /** The rest of `traceRay`, with `depth` levels left for the recursive
      calls: black when the ray meets nothing; otherwise the Phong colour at
      the hit plus the reflected and the transmitted colour, each weighted
      by the owner's `ks` and `kt`. */
  function TraceHit(m: Intrinsics, scene: Scene, ray: Ray, depth: nat): (c: Color)
    reads scene, scene.models
    requires scene.Valid()
    ensures InRange(c, 0.0, 1.0)
    decreases depth, 1
  {
    match Hit(m, scene, ray)
    case None => Black
    case Some((s, model)) =>
      Combine(LocalColor(m, scene, ray, s, model), model.ks, model.kt,
              Trace(m, scene, ReflectionRay(m, ray, s), depth),
              Trace(m, scene, TransmissionRay(m, ray, s), depth))
  }

  /** `traceRay`. */
  method TraceRay(m: Intrinsics, ray: Ray, scene: Scene, maxRayDepth: nat) returns (c: Color)
    requires scene.Valid()
    ensures c == Trace(m, scene, ray, maxRayDepth)
    decreases maxRayDepth, 0
  {
    if maxRayDepth == 0 {
      return Black;
    }
    var h := FindHit(m, ray, scene);
    if h.None? {
      return Black;
    }
    c := ShadeHit(m, ray, scene, h.value.0, h.value.1, maxRayDepth - 1);
  }

  /** The shading part of `traceRay` at the hit s owned by model, with
      `depth` levels left for the reflected and the transmitted ray. */
  method ShadeHit(m: Intrinsics, ray: Ray, scene: Scene, s: IsectState<ObjModel>, model: ObjModel, depth: nat)
    returns (c: Color)
    requires scene.Valid() && model in scene.models
    ensures c == Combine(LocalColor(m, scene, ray, s, model), model.ks, model.kt,
                         Trace(m, scene, ReflectionRay(m, ray, s), depth),
                         Trace(m, scene, TransmissionRay(m, ray, s), depth))
    decreases depth, 2
  {
    var local := PhongLighting(m, s.intersect, s.normal, ray.direction, scene, model.ka, model.ks, model.n);
    var reflectionColor, transmissionColor := TraceSecondary(m, ray, scene, s, depth);
    c := Combine(local, model.ks, model.kt, reflectionColor, transmissionColor);
  }

  /** The reflected ray, about the normal from the hit point, and the
      transmitted ray, straight on from the hit point, each traced with
      `depth` levels left. */
  method TraceSecondary(m: Intrinsics, ray: Ray, scene: Scene, s: IsectState<ObjModel>, depth: nat)
    returns (reflectionColor: Color, transmissionColor: Color)
    requires scene.Valid()
    ensures reflectionColor == Trace(m, scene, ReflectionRay(m, ray, s), depth)
    ensures transmissionColor == Trace(m, scene, TransmissionRay(m, ray, s), depth)
    decreases depth, 1
  {
    var reflection := Reflect(m, ray.direction, s.normal);
    var reflectionRay := NewRay(m, s.intersect, reflection, kRayTMax, 0.0);
    reflectionColor := TraceRay(m, reflectionRay, scene, depth);
    var transmissionRay := NewRay(m, s.intersect, ray.direction, kRayTMax, 0.0);
    transmissionColor := TraceRay(m, transmissionRay, scene, depth);
  }

  /** `Intersection intersection(ray); scene.intersect(intersection)`, with
      the hit state and its owner read back. */
  method FindHit(m: Intrinsics, ray: Ray, scene: Scene) returns (h: Option<(IsectState<ObjModel>, ObjModel)>)
    requires scene.Valid()
    ensures h == Hit(m, scene, ray)
  {
    var intersection := new Intersection<ObjModel>.FromRay(ray);
    var hit := scene.Intersect(m, intersection);
    if !hit || intersection.pModel.None? {
      return None;
    }
    h := Some((intersection.State(), intersection.pModel.value));
  }

  /** A scene without models is black from every direction: no model can
      raise the hit flag. */
  lemma TraceEmpty(m: Intrinsics, scene: Scene, ray: Ray, depth: nat)
    requires scene.Valid() && scene.models == []
    ensures Hit(m, scene, ray) == None
    ensures Trace(m, scene, ray, depth) == Black
  {
    scene.IntersectFlag(m, 0, Initial(ray));
  }

  /** At depth one both recursive calls return black, so the colour is the
      clamped local lighting of the hit. */
  lemma TraceDepthOne(m: Intrinsics, scene: Scene, ray: Ray)
    requires scene.Valid()
    ensures Trace(m, scene, ray, 1) ==
      match Hit(m, scene, ray)
      case None => Black
      case Some((s, model)) => Clamp(LocalColor(m, scene, ray, s, model), 0.0, 1.0)
  {
    assert Trace(m, scene, ray, 1) == TraceHit(m, scene, ray, 0);
    match Hit(m, scene, ray)
    case None =>
    case Some((s, model)) =>
      assert Trace(m, scene, ReflectionRay(m, ray, s), 0) == Black;
      assert Trace(m, scene, TransmissionRay(m, ray, s), 0) == Black;
      assert VectorColor(model.ks).Times(Black) == Black;
      assert VectorColor(model.kt).Times(Black) == Black;
  }

  /** The number of `traceRay` invocations one call makes, itself included. */
  ghost function TraceCalls(m: Intrinsics, scene: Scene, ray: Ray, depth: nat): nat
    reads scene, scene.models
    requires scene.Valid()
    decreases depth
  {
    if depth == 0 then 1
    else match Hit(m, scene, ray)
      case None => 1
      case Some((s, _)) =>
        1 + TraceCalls(m, scene, ReflectionRay(m, ray, s), depth - 1)
          + TraceCalls(m, scene, TransmissionRay(m, ray, s), depth - 1)
  }

  function Pow2(k: nat): (p: nat)
    ensures 1 <= p
  {
    if k == 0 then 1 else 2 * Pow2(k - 1)
  }

  /** Each level at most doubles the calls: a call with depth d makes at
      most 2^(d+1) - 1 calls in all, the 2^d at depth zero included. */
  lemma {:induction false} TraceCallsBound(m: Intrinsics, scene: Scene, ray: Ray, depth: nat)
    requires scene.Valid()
    ensures TraceCalls(m, scene, ray, depth) <= Pow2(depth + 1) - 1
    decreases depth
  {
    if depth > 0 {
      match Hit(m, scene, ray)
      case None =>
      case Some((s, _)) =>
        TraceCallsBound(m, scene, ReflectionRay(m, ray, s), depth - 1);
        TraceCallsBound(m, scene, TransmissionRay(m, ray, s), depth - 1);
    }
  }

  // ----------------------------------------------------------- the screen

  /** `aspectRatioXToY = width / height`. */
  function Aspect(width: nat, height: nat): real
    requires 0 < height
  {
    width as real / height as real
  }

  /** The camera's x argument `(xu - 0.5) * aspect + 0.5`. */
  function ScreenX(aspect: real, xu: real): real
  {
    (xu - 0.5) * aspect + 0.5
  }

  /** The camera's x argument for pixel column x, with `xu = x / width`. */
  function PixelX(width: nat, height: nat, x: nat): real
    requires 0 < width && 0 < height
  {
    ScreenX(Aspect(width, height), x as real / width as real)
  }

  /** `yu = 1 - y / height`: rows are stored top-down, screen y grows upwards. */
  function ScreenY(height: nat, y: nat): real
    requires 0 < height
  {
    1.0 - y as real / height as real
  }

  /** The aspect correction makes pixels square on the screen: one pixel to
      the right and one pixel up both move the screen position by
      1 / height, so a wider image shows more and only a taller one zooms.
      Row 0 is the top of the screen, and the middle of the image is its
      centre. */
  lemma ScreenSquare(width: nat, height: nat, x: nat, y: nat)
    requires 0 < width && 0 < height
    ensures PixelX(width, height, x + 1) - PixelX(width, height, x) == 1.0 / height as real
    ensures ScreenY(height, y) - ScreenY(height, y + 1) == 1.0 / height as real
    ensures ScreenY(height, 0) == 1.0
    ensures width == 2 * x ==> PixelX(width, height, x) == 0.5
  {
    var w := width as real;
    var h := height as real;
    assert PixelX(width, height, x) == (x as real - w / 2.0) / h + 0.5;
    assert PixelX(width, height, x + 1) == (x as real + 1.0 - w / 2.0) / h + 0.5;
  }

  /** The primary ray of pixel (x, y). */
  function PixelRay(m: Intrinsics, camera: PerspectiveCamera, width: nat, height: nat, x: nat, y: nat): Ray
    reads camera
    requires 0 < width && 0 < height
  {
    camera.MakeRay(m, PixelX(width, height, x), ScreenY(height, y))
  }

  /** `totalPixelSamples`. */
  const kPixelSamples: nat := 1

  /** `pixelColor` after k passes of the sample loop: the sum of k traced
      colours of the same ray, from black. */
  function SampleSum(m: Intrinsics, scene: Scene, ray: Ray, depth: nat, k: nat): Color
    reads scene, scene.models
    requires scene.Valid()
    decreases k, 0
  {
    if k == 0 then Black else AddSample(m, scene, ray, depth, k - 1)
  }

  /** One more pass: `pixelColor += traceRay(...)`. */
  function AddSample(m: Intrinsics, scene: Scene, ray: Ray, depth: nat, j: nat): Color
    reads scene, scene.models
    requires scene.Valid()
    decreases j, 1
  {
    SampleSum(m, scene, ray, depth, j).Plus(Trace(m, scene, ray, depth))
  }

  /** The colour the sample loop leaves for a ray: the sample sum divided
      by the number of samples. */
  function SampledColor(m: Intrinsics, scene: Scene, ray: Ray, depth: nat): Color
    reads scene, scene.models
    requires scene.Valid()
  {
    SampleSum(m, scene, ray, depth, kPixelSamples).Div(kPixelSamples as real)
  }

  /** With one sample the box filter is the identity: the colour left is
      the traced colour of the ray. */
  lemma SampledColorTrace(m: Intrinsics, scene: Scene, ray: Ray, depth: nat)
    requires scene.Valid()
    ensures SampledColor(m, scene, ray, depth) == Trace(m, scene, ray, depth)
  {
    assert SampleSum(m, scene, ray, depth, 1) == AddSample(m, scene, ray, depth, 0);
  }

  /** The colour stored for pixel (x, y): that of its primary ray. */
  function PixelColor(m: Intrinsics, scene: Scene, camera: PerspectiveCamera, width: nat, height: nat,
                      depth: nat, x: nat, y: nat): Color
    reads scene, scene.models, camera
    requires scene.Valid() && x < width && y < height
  {
    SampledColor(m, scene, PixelRay(m, camera, width, height, x, y), depth)
  }

  /** So the stored colour is the traced colour of the pixel's primary ray. */
  lemma PixelColorTrace(m: Intrinsics, scene: Scene, camera: PerspectiveCamera, width: nat, height: nat,
                        depth: nat, x: nat, y: nat)
    requires scene.Valid() && x < width && y < height
    ensures PixelColor(m, scene, camera, width, height, depth, x, y) ==
      Trace(m, scene, PixelRay(m, camera, width, height, x, y), depth)
  {
    SampledColorTrace(m, scene, PixelRay(m, camera, width, height, x, y), depth);
  }

  // -------------------------------------------------------- RenderThread

  class RenderThread {
    const xstart: nat
    const xend: nat
    const ystart: nat
    const yend: nat
    const image: Image
    const scene: Scene
    const camera: PerspectiveCamera
    const maxRayDepth: nat

    constructor (xstart: nat, xend: nat, ystart: nat, yend: nat, image: Image, scene: Scene,
                 camera: PerspectiveCamera, maxRayDepth: nat)
      ensures this.xstart == xstart && this.xend == xend && this.ystart == ystart && this.yend == yend
      ensures this.image == image && this.scene == scene && this.camera == camera
      ensures this.maxRayDepth == maxRayDepth
    {
      this.xstart, this.xend, this.ystart, this.yend := xstart, xend, ystart, yend;
      this.image, this.scene, this.camera, this.maxRayDepth := image, scene, camera, maxRayDepth;
    }

    /** What `run` needs: a well-formed image and scene and a rectangle
        inside the image, since `pixel(x, y)` does not check its bounds. */
    predicate Ready()
      reads this, image, scene, scene.models
    {
      image.Valid() && scene.Valid() && xend <= image.width && yend <= image.height
    }

    predicate InRect(x: nat, y: nat)
    {
      xstart <= x < xend && ystart <= y < yend
    }

    /** The colour this thread computes for pixel (x, y). */
    function Shade(m: Intrinsics, x: nat, y: nat): Color
      reads this, image, scene, scene.models, camera
      requires Ready() && x < image.width && y < image.height
    {
      PixelColor(m, scene, camera, image.width, image.height, maxRayDepth, x, y)
    }

    /** `RenderThread::run`: every pixel of the rectangle receives its
        traced colour and every other pixel keeps its colour. */
    method Run(m: Intrinsics)
      requires Ready()
      modifies image.pixels
      ensures forall x: nat, y: nat :: x < image.width && y < image.height ==>
        image.Pixel(x, y) == if InRect(x, y) then Shade(m, x, y) else old(image.Pixel(x, y))
    {
      // With a height of zero the division gives infinity or NaN, which no
      // pixel uses, since the rectangle then holds no row.
      var aspect := if image.height == 0 then 0.0 else Aspect(image.width, image.height);
      var y := ystart;
      while y < yend
        invariant ystart <= y && (y == ystart || y <= yend)
        invariant forall x: nat, y2: nat :: x < image.width && y2 < image.height ==>
          image.Pixel(x, y2) ==
            if xstart <= x < xend && ystart <= y2 < y then Shade(m, x, y2) else old(image.Pixel(x, y2))
        decreases yend - y
      {
        RunRow(m, aspect, y);
        y := y + 1;
      }
    }

    /** One row of the rectangle. */
    method RunRow(m: Intrinsics, aspect: real, y: nat)
      requires Ready() && ystart <= y < yend
      requires aspect == Aspect(image.width, image.height)
      modifies image.pixels
      ensures forall x: nat, y2: nat :: x < image.width && y2 < image.height ==>
        image.Pixel(x, y2) ==
          if xstart <= x < xend && y2 == y then Shade(m, x, y2) else old(image.Pixel(x, y2))
    {
      var x := xstart;
      while x < xend
        invariant xstart <= x && (x == xstart || x <= xend)
        invariant forall x2: nat, y2: nat :: x2 < image.width && y2 < image.height ==>
          image.Pixel(x2, y2) ==
            if xstart <= x2 < x && y2 == y then Shade(m, x2, y2) else old(image.Pixel(x2, y2))
        decreases xend - x
      {
        var pixelColor := Sample(m, aspect, x, y);
        image.SetPixel(x, y, pixelColor);
        x := x + 1;
      }
    }

    /** The sample loop of one pixel: the samples' sum, divided by the
        sample count. */
    method Sample(m: Intrinsics, aspect: real, x: nat, y: nat) returns (pixelColor: Color)
      requires Ready() && x < image.width && y < image.height
      requires aspect == Aspect(image.width, image.height)
      ensures pixelColor == Shade(m, x, y)
    {
      var totalPixelSamples := kPixelSamples;
      pixelColor := SumSamples(m, aspect, x, y, totalPixelSamples);
      pixelColor := pixelColor.Div(totalPixelSamples as real);
    }

    /** `pixelColor += traceRay(ray, ...)` for n samples of pixel (x, y),
        from black. */
    method SumSamples(m: Intrinsics, aspect: real, x: nat, y: nat, n: nat) returns (pixelColor: Color)
      requires Ready() && x < image.width && y < image.height
      requires aspect == Aspect(image.width, image.height)
      ensures pixelColor == SampleSum(m, scene, PixelRay(m, camera, image.width, image.height, x, y), maxRayDepth, n)
    {
      pixelColor := Black;
      ghost var ray := PixelRay(m, camera, image.width, image.height, x, y);
      for psi := 0 to n
        invariant pixelColor == SampleSum(m, scene, ray, maxRayDepth, psi)
      {
        var r := PrimaryRay(m, aspect, x, y);
        var c := TraceRay(m, r, scene, maxRayDepth);
        pixelColor := pixelColor.Plus(c);
        assert SampleSum(m, scene, ray, maxRayDepth, psi + 1) == AddSample(m, scene, ray, maxRayDepth, psi);
      }
    }

    /** The ray of one sample: pixel (x, y) mapped to the screen square
        (`xu = x / width`, `yu = 1 - y / height`, the x coordinate widened by
        the aspect ratio) and handed to the camera. */
    method PrimaryRay(m: Intrinsics, aspect: real, x: nat, y: nat) returns (r: Ray)
      requires Ready() && x < image.width && y < image.height
      requires aspect == Aspect(image.width, image.height)
      ensures r == PixelRay(m, camera, image.width, image.height, x, y)
    {
      var xu := x as real / image.width as real;
      var yu := 1.0 - y as real / image.height as real;
      r := camera.MakeRay(m, ScreenX(aspect, xu), yu);
    }
  }

  // ---------------------------------------------------- renderRayTracing

  /** Pixel (x, y) lies in one of the tiles, so some thread draws it. */
  predicate Drawn(width: nat, height: nat, x: nat, y: nat)
  {
    TileOf(width, x) < Chunks(width) && TileOf(height, y) < Chunks(height)
  }

  /** Unless a side has length 3 or 4, every pixel is drawn; with such a
      side, the pixels from the third column or row on are not. */
  lemma DrawnCover(width: nat, height: nat, x: nat, y: nat)
    requires x < width && y < height
    ensures width != 3 && width != 4 && height != 3 && height != 4 ==> Drawn(width, height, x, y)
    ensures (width == 3 || width == 4) && 2 <= x ==> !Drawn(width, height, x, y)
    ensures (height == 3 || height == 4) && 2 <= y ==> !Drawn(width, height, x, y)
  {
    if width != 3 && width != 4 {
      TilesCover(width, x);
    }
    if height != 3 && height != 4 {
      TilesCover(height, y);
    }
  }

  /** `renderRayTracing`, with the threads run one after another in the
      order they are started: a fresh image in which every drawn pixel has
      its traced colour and every other pixel is still black. */
  method RenderRayTracing(m: Intrinsics, scene: Scene, camera: PerspectiveCamera,
                          width: nat, height: nat, maxRayDepth: nat) returns (image: Image)
    requires scene.Valid()
    ensures fresh(image) && fresh(image.pixels)
    ensures image.width == width && image.height == height && image.Valid()
    ensures forall x: nat, y: nat :: x < width && y < height ==>
      image.Pixel(x, y) ==
        if Drawn(width, height, x, y) then PixelColor(m, scene, camera, width, height, maxRayDepth, x, y)
        else Black
  {
    image := new Image(width, height);
    var xChunks := Chunks(width);
    var yChunks := Chunks(height);
    for yc := 0 to yChunks
      invariant image.Valid() && image.width == width && image.height == height
      invariant forall x: nat, y: nat :: x < width && y < height ==>
        image.Pixel(x, y) ==
          if TileOf(height, y) < yc && TileOf(width, x) < xChunks
          then PixelColor(m, scene, camera, width, height, maxRayDepth, x, y)
          else Black
    {
      RenderRow(m, scene, camera, image, yc, maxRayDepth);
    }
  }

  /** One row of tiles: the threads for row chunk yc and every column chunk. */
  method RenderRow(m: Intrinsics, scene: Scene, camera: PerspectiveCamera, image: Image,
                   yc: nat, maxRayDepth: nat)
    requires scene.Valid() && image.Valid()
    modifies image.pixels
    ensures forall x: nat, y: nat :: x < image.width && y < image.height ==>
      image.Pixel(x, y) ==
        if TileOf(image.height, y) == yc && TileOf(image.width, x) < Chunks(image.width)
        then PixelColor(m, scene, camera, image.width, image.height, maxRayDepth, x, y)
        else old(image.Pixel(x, y))
  {
    var width, height := image.width, image.height;
    var xChunks := Chunks(width);
    var yStart := TileStart(height, yc);
    var yEnd := TileEnd(height, yc);
    for xc := 0 to xChunks
      invariant forall x: nat, y: nat :: x < width && y < height ==>
        image.Pixel(x, y) ==
          if TileOf(height, y) == yc && TileOf(width, x) < xc
          then PixelColor(m, scene, camera, width, height, maxRayDepth, x, y)
          else old(image.Pixel(x, y))
    {
      var xStart := TileStart(width, xc);
      var xEnd := TileEnd(width, xc);
      var thread := new RenderThread(xStart, xEnd, yStart, yEnd, image, scene, camera, maxRayDepth);
      thread.Run(m);
      forall x: nat, y: nat | x < width && y < height
        ensures thread.InRect(x, y) <==> TileOf(height, y) == yc && TileOf(width, x) == xc
      {
        InTileIff(width, xc, x);
        InTileIff(height, yc, y);
      }
    }
  }
}
