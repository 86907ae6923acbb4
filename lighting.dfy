/** Local lighting (src/locallighting.cpp): the Phong sum over the enabled
    lights that are not in shadow, and the shadow test, which casts one ray
    between the shaded point and the light through the whole scene. */
module Lighting {
  import opened Wrappers
  import opened RealMath
  import opened Basic
  import opened Models
  import opened Lights
  import opened Scenes

  /** The arguments of `PhongLighting` other than the scene: the shaded
      point, its normal, the direction of the incoming ray and the
      material's `ka`, `ks` and shininess `n`. */
  datatype Shading = Shading(intersect: Point, normal: Vector, direction: Vector,
                             ka: Vector, ks: Vector, n: real)

  /** `x < 0 ? 0 : x`. */
  function Max0(x: real): (r: real)
    ensures 0.0 <= r && (r == x || r == 0.0)
    ensures 0.0 <= x ==> r == x
  {
    if x < 0.0 then 0.0 else x
  }

  predicate NonNegative(c: Color)
  {
    0.0 <= c.r && 0.0 <= c.g && 0.0 <= c.b
  }

  predicate NonNegativeVector(v: Vector)
  {
    0.0 <= v.x && 0.0 <= v.y && 0.0 <= v.z
  }

  // ---------------------------------------------------------- shadow test

  /** The ray `inShadow` casts: from a point light towards the shaded point,
      or from the shaded point against the direction of a parallel light,
      with the default `tMax` and time of the `Ray` constructor. */
  function ShadowRay(m: Intrinsics, p: Point, light: Light): Ray
    requires !light.BaseLight?
  {
    if light.PointLight? then
      NewRay(m, light.position, Normalized(m, p.Minus(light.position)), kRayTMax, 0.0)
    else
      NewRay(m, p, light.direction.Neg(), kRayTMax, 0.0)
  }

  /** `inShadow` on the scene: for a point light, the nearest hit along the
      light's ray is not (within the vector tolerance) the shaded point; for
      a parallel light, the ray back towards the light hits anything. */
  function Shadowed(m: Intrinsics, scene: Scene, p: Point, light: Light): bool
    reads scene, scene.models
    requires scene.ModelsValid() && !light.BaseLight?
  {
    var (s, hit) := scene.IntersectSpec(m, Initial(ShadowRay(m, p, light)));
    if light.PointLight? then !ApproxEq(s.intersect, p) else hit
  }

  /** `inShadow`. */
  method InShadow(m: Intrinsics, p: Point, scene: Scene, light: Light) returns (shadow: bool)
    requires scene.ModelsValid() && !light.BaseLight?
    ensures shadow == Shadowed(m, scene, p, light)
  {
    if light.PointLight? {
      var direction := p.Minus(light.position);
      direction := Normalized(m, direction);
      var lightRay := NewRay(m, light.position, direction, kRayTMax, 0.0);
      var intersection := new Intersection<ObjModel>.FromRay(lightRay);
      var _ := scene.Intersect(m, intersection);
      shadow := !ApproxEq(intersection.intersect, p);
    } else {
      var direction := light.direction.Neg();
      var lightRay := NewRay(m, p, direction, kRayTMax, 0.0);
      var intersection := new Intersection<ObjModel>.FromRay(lightRay);
      shadow := scene.Intersect(m, intersection);
    }
  }

  /** The shadow ray of a point light starts at the light and, for a shaded
      point elsewhere, reaches that point at its distance from the light. */
  lemma PointShadowRayReaches(m: Intrinsics, p: Point, light: Light)
    requires Sound(m) && light.PointLight? && p != light.position
    ensures var r := ShadowRay(m, p, light);
      r.origin == light.position && Length2(r.direction) == 1.0 &&
      Calculate(r, Length(m, p.Minus(light.position))) == p
  {
    var v := p.Minus(light.position);
    assert v != Zero by {
      assert v.Plus(light.position) == p;
    }
    NormalizedIdempotent(m, v);
    NormalizeSpec(m, v);
    var r := ShadowRay(m, p, light);
    assert r.direction == Normalized(m, v);
    assert r.direction.Scaled(Length(m, v)) == v;
  }

  /** For a parallel light the shadow test is the scene's hit flag: the
      point is in shadow exactly when some model, tested along the ray back
      towards the light, reports a hit. */
  lemma ParallelShadow(m: Intrinsics, scene: Scene, p: Point, light: Light)
    requires scene.ModelsValid() && light.ParallelLight?
    ensures Shadowed(m, scene, p, light) <==>
      exists j :: 0 <= j < |scene.models| && scene.ModelStep(m, j, Initial(ShadowRay(m, p, light))).1
  {
    scene.IntersectFlag(m, |scene.models|, Initial(ShadowRay(m, p, light)));
  }

  /** A point away from the origin that a point light reaches is reached by
      a hit on one of the models, nearer than `kRayTMax`. (The world point
      of a fresh `Intersection` is the origin, so with no hit at all the
      test compares against the origin.) */
  lemma PointLitByModel(m: Intrinsics, scene: Scene, p: Point, light: Light)
    requires scene.ModelsValid() && light.PointLight?
    requires !Shadowed(m, scene, p, light) && !ApproxEq(Zero, p)
    ensures var s := scene.IntersectSpec(m, Initial(ShadowRay(m, p, light))).0;
      s.pModel.Some? && s.pModel.value in scene.models && s.t < kRayTMax
  {
    var s0 := Initial<ObjModel>(ShadowRay(m, p, light));
    scene.IntersectWorld(m, |scene.models|, s0);
    var s := scene.IntersectSpec(m, s0).0;
    assert !SameWorld(s0, s);
    var j :| 0 <= j < |scene.models| && s.pModel == Some(scene.models[j]);
  }

  /** With no models nothing casts a shadow from a parallel light, while a
      point light shadows every point that is not within the tolerance of
      the origin. */
  lemma EmptySceneShadows(m: Intrinsics, scene: Scene, p: Point, light: Light)
    requires scene.ModelsValid() && !light.BaseLight? && scene.models == []
    ensures light.ParallelLight? ==> !Shadowed(m, scene, p, light)
    ensures light.PointLight? ==> (Shadowed(m, scene, p, light) <==> !ApproxEq(Zero, p))
  {
    var s0 := Initial<ObjModel>(ShadowRay(m, p, light));
    assert scene.ModelsUpTo(m, 0, s0) == s0;
  }

  // ---------------------------------------------------------- Phong terms

  /** The direction towards the light: normalised from the point to a
      point light, or the stored direction of a parallel light. */
  function LightDirection(m: Intrinsics, light: Light, p: Point): (l: Vector)
    requires !light.BaseLight?
    ensures light.ParallelLight? ==> l == light.direction
    ensures Sound(m) && light.PointLight? && p != light.position ==>
      Length2(l) == 1.0 && l.Scaled(Length(m, light.position.Minus(p))) == light.position.Minus(p)
  {
    if light.PointLight? then
      TowardsFacts(m, p, light.position);
      Normalized(m, light.position.Minus(p))
    else light.direction
  }

  /** The normalised difference of two distinct points is a unit vector
      that scales back to the difference by its length. */
  lemma TowardsFacts(m: Intrinsics, from: Point, to: Point)
    ensures Sound(m) && from != to ==>
      Length2(Normalized(m, to.Minus(from))) == 1.0 &&
      Normalized(m, to.Minus(from)).Scaled(Length(m, to.Minus(from))) == to.Minus(from)
  {
    var v := to.Minus(from);
    if Sound(m) && from != to {
      assert v != Zero by {
        assert from.Plus(v) == to;
      }
      NormalizeSpec(m, v);
    }
  }

  /** `diff`: the cosine between the normal and the light direction,
      clamped at zero. */
  function Diffusion(m: Intrinsics, light: Light, sh: Shading): (diff: real)
    requires !light.BaseLight?
    ensures 0.0 <= diff
  {
    Max0(Dot(sh.normal, LightDirection(m, light, sh.intersect)))
  }

  /** `spec`: the cosine between the view direction and the reflected light
      direction, clamped at zero and raised to the shininess. */
  function Specularity(m: Intrinsics, light: Light, sh: Shading): (spec: real)
    requires !light.BaseLight?
    ensures PowNonNegative(m) ==> 0.0 <= spec
  {
    var reflection := Reflect(m, LightDirection(m, light, sh.intersect), sh.normal);
    var view := sh.direction.Neg();
    m.pow(Max0(Dot(view, reflection)), sh.n)
  }

  /** `ambient + diffuse + specular` for a light colour c:
      `ka * c + diff * c + spec * ks * c`. */
  function TermOf(ka: Vector, ks: Vector, diff: real, spec: real, c: Color): Color
  {
    VectorColor(ka).Times(c).Plus(c.Scaled(diff)).Plus(VectorColor(ks.Scaled(spec)).Times(c))
  }

  /** What one light adds: ambient, diffuse and specular. */
  function LightTerm(m: Intrinsics, light: Light, sh: Shading): Color
    requires !light.BaseLight?
  {
    TermOf(sh.ka, sh.ks, Diffusion(m, light, sh), Specularity(m, light, sh), light.color)
  }

  /** One iteration of the light loop: nothing for a light that is switched
      off or in shadow, the light's term otherwise. */
  function Contribution(m: Intrinsics, light: Light, on: bool, shadowed: bool, sh: Shading): Color
    requires !light.BaseLight?
  {
    if !on || shadowed then Black else LightTerm(m, light, sh)
  }

  /** The lights a loop may read: one flag and one shadow result per light,
      and no base light. */
  predicate Lit(lights: seq<Light>, flags: seq<bool>, shadows: seq<bool>)
  {
    |flags| == |lights| && |shadows| == |lights| &&
    forall i :: 0 <= i < |lights| ==> !lights[i].BaseLight?
  }

  /** The colour after the first k lights, summed in list order from black. */
  function PhongUpTo(m: Intrinsics, lights: seq<Light>, flags: seq<bool>, shadows: seq<bool>,
                     k: nat, sh: Shading): Color
    requires Lit(lights, flags, shadows) && k <= |lights|
  {
    if k == 0 then Black
    else PhongUpTo(m, lights, flags, shadows, k - 1, sh).Plus(
           Contribution(m, lights[k - 1], flags[k - 1], shadows[k - 1], sh))
  }

  /** The shadow tests of the first k lights of the scene at point p. */
  function ShadowsUpTo(m: Intrinsics, scene: Scene, p: Point, k: nat): (shadows: seq<bool>)
    reads scene, scene.models
    requires scene.Valid() && k <= |scene.lights|
    ensures |shadows| == k
  {
    if k == 0 then [] else ShadowsUpTo(m, scene, p, k - 1) + [Shadowed(m, scene, p, scene.lights[k - 1])]
  }

  /** The shadow test of every light of the scene at point p. */
  function Shadows(m: Intrinsics, scene: Scene, p: Point): (shadows: seq<bool>)
    reads scene, scene.models
    requires scene.Valid()
    ensures |shadows| == |scene.lights|
  {
    ShadowsUpTo(m, scene, p, |scene.lights|)
  }

  /** Entry i is the shadow test of light i. */
  lemma {:induction false} ShadowAt(m: Intrinsics, scene: Scene, p: Point, k: nat, i: nat)
    requires scene.Valid() && i < k <= |scene.lights|
    ensures ShadowsUpTo(m, scene, p, k)[i] == Shadowed(m, scene, p, scene.lights[i])
  {
    if i < k - 1 {
      ShadowAt(m, scene, p, k - 1, i);
    }
  }

  /** `PhongLighting` on the scene. */
  function PhongSpec(m: Intrinsics, scene: Scene, sh: Shading): Color
    reads scene, scene.models
    requires scene.Valid()
  {
    PhongUpTo(m, scene.lights, scene.lightFlag, Shadows(m, scene, sh.intersect), |scene.lights|, sh)
  }

  /** `PhongLighting`: the loop over the lights, skipping those switched off
      and those in shadow. */
  method PhongLighting(m: Intrinsics, intersect: Point, normal: Vector, direction: Vector,
                       scene: Scene, ka: Vector, ks: Vector, n: real) returns (color: Color)
    requires scene.Valid()
    ensures color == PhongSpec(m, scene, Shading(intersect, normal, direction, ka, ks, n))
  {
    ghost var sh := Shading(intersect, normal, direction, ka, ks, n);
    ghost var shadows := Shadows(m, scene, intersect);
    color := Black;
    var lightNum := |scene.lights|;
    for i := 0 to lightNum
      invariant color == PhongUpTo(m, scene.lights, scene.lightFlag, shadows, i, sh)
    {
      color := ShadeLight(m, intersect, normal, direction, scene, ka, ks, n, i, color);
    }
  }

  /** One iteration of the light loop: light i is skipped when it is
      switched off or in shadow, and its term is added otherwise. */
  method ShadeLight(m: Intrinsics, intersect: Point, normal: Vector, direction: Vector,
                    scene: Scene, ka: Vector, ks: Vector, n: real, i: nat, color: Color)
    returns (color2: Color)
    requires scene.Valid() && i < |scene.lights|
    ensures color2 == color.Plus(Contribution(m, scene.lights[i], scene.lightFlag[i],
                                              Shadows(m, scene, intersect)[i],
                                              Shading(intersect, normal, direction, ka, ks, n)))
  {
    if !scene.lightFlag[i] {
      return color;
    }
    ShadowAt(m, scene, intersect, |scene.lights|, i);
    var shadow := InShadow(m, intersect, scene, scene.lights[i]);
    if shadow {
      return color;
    }
    var term := LightColor(m, scene.lights[i], intersect, normal, direction, ka, ks, n);
    color2 := color.Plus(term);
  }

  /** The body of the light loop once the light is known to be on and not
      in shadow: `ambient + diffuse + specular`. */
  method LightColor(m: Intrinsics, light: Light, intersect: Point, normal: Vector, direction: Vector,
                    ka: Vector, ks: Vector, n: real) returns (term: Color)
    requires !light.BaseLight?
    ensures term == LightTerm(m, light, Shading(intersect, normal, direction, ka, ks, n))
  {
    var ambient := VectorColor(ka).Times(light.color);
    var lightDirection;
    if light.PointLight? {
      lightDirection := light.position.Minus(intersect);
      lightDirection := Normalized(m, lightDirection);
    } else {
      lightDirection := light.direction;
    }
    var diff := Dot(normal, lightDirection);
    diff := if diff < 0.0 then 0.0 else diff;
    var diffuse := light.color.Scaled(diff);
    var reflection := Reflect(m, lightDirection, normal);
    var view := direction.Neg();
    var spec := Dot(view, reflection);
    spec := if spec < 0.0 then 0.0 else spec;
    spec := m.pow(spec, n);
    var specular := VectorColor(ks.Scaled(spec)).Times(light.color);
    term := ambient.Plus(diffuse).Plus(specular);
  }

  // ---------------------------------------------------------- properties

  /** With every light switched off or in shadow the point is black. */
  lemma {:induction false} PhongDark(m: Intrinsics, lights: seq<Light>, flags: seq<bool>,
                                     shadows: seq<bool>, k: nat, sh: Shading)
    requires Lit(lights, flags, shadows) && k <= |lights|
    requires forall i :: 0 <= i < |lights| ==> !flags[i] || shadows[i]
    ensures PhongUpTo(m, lights, flags, shadows, k, sh) == Black
  {
    if k > 0 {
      PhongDark(m, lights, flags, shadows, k - 1, sh);
    }
  }

  /** What `Sound` says of `pow`: a non-negative base gives a non-negative
      power. */
  ghost predicate PowNonNegative(m: Intrinsics)
  {
    forall b, e :: 0.0 <= b ==> 0.0 <= m.pow(b, e)
  }

  /** With non-negative colours, coefficients and a sound `pow`, every term
      is non-negative. */
  lemma TermNonNegative(m: Intrinsics, light: Light, sh: Shading)
    requires PowNonNegative(m) && !light.BaseLight? && NonNegative(light.color)
    requires NonNegativeVector(sh.ka) && NonNegativeVector(sh.ks)
    ensures NonNegative(LightTerm(m, light, sh))
  {
    TermOfNonNegative(sh.ka, sh.ks, Diffusion(m, light, sh), Specularity(m, light, sh), light.color);
  }

  /** Non-negative coefficients, factors and colour give a non-negative
      term. */
  lemma TermOfNonNegative(ka: Vector, ks: Vector, diff: real, spec: real, c: Color)
    requires NonNegativeVector(ka) && NonNegativeVector(ks) && 0.0 <= diff && 0.0 <= spec
    requires NonNegative(c)
    ensures NonNegative(TermOf(ka, ks, diff, spec, c))
  {
    var t := TermOf(ka, ks, diff, spec, c);
    assert 0.0 <= t.r by {
      assert t.r == ka.x * c.r + diff * c.r + (spec * ks.x) * c.r;
      ChannelNonNegative(ka.x, diff, spec, ks.x, c.r);
    }
    assert 0.0 <= t.g by {
      assert t.g == ka.y * c.g + diff * c.g + (spec * ks.y) * c.g;
      ChannelNonNegative(ka.y, diff, spec, ks.y, c.g);
    }
    assert 0.0 <= t.b by {
      assert t.b == ka.z * c.b + diff * c.b + (spec * ks.z) * c.b;
      ChannelNonNegative(ka.z, diff, spec, ks.z, c.b);
    }
  }

  /** One channel of a light's term: ambient, diffuse and specular parts. */
  lemma ChannelNonNegative(ka: real, diff: real, spec: real, ks: real, c: real)
    requires 0.0 <= ka && 0.0 <= diff && 0.0 <= spec && 0.0 <= ks && 0.0 <= c
    ensures 0.0 <= ka * c + diff * c + (spec * ks) * c
  {
    ProductNonNegative(ka, c);
    ProductNonNegative(diff, c);
    ProductNonNegative(spec, ks);
    ProductNonNegative(spec * ks, c);
  }

  lemma ProductNonNegative(a: real, b: real)
    requires 0.0 <= a && 0.0 <= b
    ensures 0.0 <= a * b
  {
    MulMonotone(a, 0.0, b);
  }

  /** The Phong sum never goes below black under the same conditions. */
  lemma {:induction false} PhongNonNegative(m: Intrinsics, lights: seq<Light>, flags: seq<bool>,
                                            shadows: seq<bool>, k: nat, sh: Shading)
    requires Sound(m) && Lit(lights, flags, shadows) && k <= |lights|
    requires forall i :: 0 <= i < |lights| ==> NonNegative(lights[i].color)
    requires NonNegativeVector(sh.ka) && NonNegativeVector(sh.ks)
    ensures NonNegative(PhongUpTo(m, lights, flags, shadows, k, sh))
  {
    if k > 0 {
      PhongNonNegative(m, lights, flags, shadows, k - 1, sh);
      assert PowNonNegative(m);
      TermNonNegative(m, lights[k - 1], sh);
    }
  }

  /** The lights add up independently: switching light i off removes
      exactly its contribution and changes nothing else. */
  lemma {:induction false} SwitchOff(m: Intrinsics, lights: seq<Light>, flags: seq<bool>,
                                     shadows: seq<bool>, i: nat, k: nat, sh: Shading)
    requires Lit(lights, flags, shadows) && i < k <= |lights|
    ensures PhongUpTo(m, lights, flags[i := false], shadows, k, sh).Plus(
              Contribution(m, lights[i], flags[i], shadows[i], sh)) ==
            PhongUpTo(m, lights, flags, shadows, k, sh)
  {
    var off := flags[i := false];
    if k - 1 == i {
      assert PhongUpTo(m, lights, off, shadows, k - 1, sh) == PhongUpTo(m, lights, flags, shadows, k - 1, sh) by {
        SamePrefix(m, lights, flags, off, shadows, k - 1, sh);
      }
    } else {
      SwitchOff(m, lights, flags, shadows, i, k - 1, sh);
    }
  }

  /** Flags that agree on the first k lights give the same sum over them. */
  lemma {:induction false} SamePrefix(m: Intrinsics, lights: seq<Light>, flags: seq<bool>,
                                      flags2: seq<bool>, shadows: seq<bool>, k: nat, sh: Shading)
    requires Lit(lights, flags, shadows) && Lit(lights, flags2, shadows) && k <= |lights|
    requires forall j :: 0 <= j < k ==> flags[j] == flags2[j]
    ensures PhongUpTo(m, lights, flags, shadows, k, sh) == PhongUpTo(m, lights, flags2, shadows, k, sh)
  {
    if k > 0 {
      SamePrefix(m, lights, flags, flags2, shadows, k - 1, sh);
    }
  }

  /** On the scene: a point that every enabled light leaves in shadow is
      black. */
  lemma SceneDark(m: Intrinsics, scene: Scene, sh: Shading)
    requires scene.Valid()
    requires forall i :: 0 <= i < |scene.lights| ==>
      !scene.lightFlag[i] || Shadowed(m, scene, sh.intersect, scene.lights[i])
    ensures PhongSpec(m, scene, sh) == Black
  {
    var shadows := Shadows(m, scene, sh.intersect);
    forall i | 0 <= i < |scene.lights|
      ensures !scene.lightFlag[i] || shadows[i]
    {
      ShadowAt(m, scene, sh.intersect, |scene.lights|, i);
    }
    PhongDark(m, scene.lights, scene.lightFlag, shadows, |scene.lights|, sh);
  }

  /** On the scene: non-negative light colours and coefficients give a
      non-negative colour. */
  lemma SceneNonNegative(m: Intrinsics, scene: Scene, sh: Shading)
    requires Sound(m) && scene.Valid()
    requires forall i :: 0 <= i < |scene.lights| ==> NonNegative(scene.lights[i].color)
    requires NonNegativeVector(sh.ka) && NonNegativeVector(sh.ks)
    ensures NonNegative(PhongSpec(m, scene, sh))
  {
    PhongNonNegative(m, scene.lights, scene.lightFlag, Shadows(m, scene, sh.intersect), |scene.lights|, sh);
  }
}
