/** `ObjModel` (src/objmodel.h): a model made of meshes, placed in the world
    by its model matrix. Its intersection test moves the ray into the model
    frame, runs every mesh against the model channel and promotes the
    model-local hit to the world channel when it is strictly nearer. The
    bounds accumulation of `processMesh` is here as well; the Assimp, GL and
    texture loading around it is not. */
module Models {
  import opened Wrappers
  import opened RealMath
  import opened Basic
  import opened Box
  import opened Meshes

  // ------------------------------------------------ processMesh bounds

  /** One step of the vertex loop in `processMesh`: each minimum becomes
      `min(minimum, coordinate)` and each maximum `max(maximum, coordinate)`. */
  function Include(b: AABB, p: Point): (res: AABB)
    ensures PointIn(res, p)
    ensures forall q :: PointIn(b, q) ==> PointIn(res, q)
  {
    AABB(Min(b.xmin, p.x), Max(b.xmax, p.x),
         Min(b.ymin, p.y), Max(b.ymax, p.y),
         Min(b.zmin, p.z), Max(b.zmax, p.z))
  }

  /** `mesh_aabb` after the first k vertices. */
  function BoundsUpTo(vertices: seq<Vertex>, k: nat): AABB
    requires k <= |vertices|
  {
    if k == 0 then DefaultBox else Include(BoundsUpTo(vertices, k - 1), vertices[k - 1].position)
  }

  /** Every vertex seen so far lies in the accumulated box. */
  lemma {:induction false} BoundsUpToContains(vertices: seq<Vertex>, k: nat, i: nat)
    requires i < k <= |vertices|
    ensures PointIn(BoundsUpTo(vertices, k), vertices[i].position)
    decreases k
  {
    if i < k - 1 {
      BoundsUpToContains(vertices, k - 1, i);
    }
  }

  /** With at least one vertex the accumulated box is canonical; with none
      it is still the empty default box. */
  lemma BoundsCanonical(vertices: seq<Vertex>)
    ensures 0 < |vertices| ==> Canonical(BoundsUpTo(vertices, |vertices|))
    ensures |vertices| == 0 ==> BoundsUpTo(vertices, 0) == DefaultBox
  {
    if 0 < |vertices| {
      BoundsUpToContains(vertices, |vertices|, 0);
    }
  }

  /** The model box update after a mesh: per axis, the smaller minimum and
      the larger maximum of the mesh box and the old model box. It contains
      everything either box contains. */
  function Union(meshAabb: AABB, modelAabb: AABB): (res: AABB)
    ensures forall q :: PointIn(meshAabb, q) || PointIn(modelAabb, q) ==> PointIn(res, q)
  {
    AABB(Min(meshAabb.xmin, modelAabb.xmin), Max(meshAabb.xmax, modelAabb.xmax),
         Min(meshAabb.ymin, modelAabb.ymin), Max(meshAabb.ymax, modelAabb.ymax),
         Min(meshAabb.zmin, modelAabb.zmin), Max(meshAabb.zmax, modelAabb.zmax))
  }

  /** The default box is a unit of the union. */
  lemma UnionDefault(b: AABB)
    requires b.xmin <= kBoxInfinity && b.ymin <= kBoxInfinity && b.zmin <= kBoxInfinity
    requires -kBoxInfinity <= b.xmax && -kBoxInfinity <= b.ymax && -kBoxInfinity <= b.zmax
    ensures Union(b, DefaultBox) == b
  {
  }

  // ------------------------------------------------ channels

  /** The fields `ObjModel::intersect` never leaves changed: the ray (it is
      restored), the colour modifier and the scene-level hit flag. */
  predicate Kept<M(==)>(s0: IsectState<M>, s: IsectState<M>)
  {
    s.ray == s0.ray && s.colorModifier == s0.colorModifier && s.intersected == s0.intersected
  }

  /** The world channel: nearest world distance, owner, point and normal. */
  predicate SameWorld<M(==)>(s0: IsectState<M>, s: IsectState<M>)
  {
    s.t == s0.t && s.pModel == s0.pModel && s.intersect == s0.intersect && s.normal == s0.normal
  }

  // ------------------------------------------------ ObjModel

  // ------------------------------------------ world_t along the whole ray

  /** The parameter of point p along a ray measured with the whole direction
      rather than its x component: the projection of p - origin onto the
      direction over the direction's squared length, defined for every
      non-zero direction. */
  function AlongT(r: Ray, p: Point): (t: Option<real>)
    ensures t.None? <==> r.direction == Zero
  {
    if r.direction == Zero then None
    else
      var l := Length2(r.direction);
      assert l != 0.0 by {
        if l == 0.0 {
          ZeroFromLength2(r.direction);
        }
      }
      Some(Dot(p.Minus(r.origin), r.direction) / l)
  }

  /** For a point on the ray, `AlongT` gives back its parameter, whatever
      the direction. */
  lemma AlongTRecovers(r: Ray, t0: real)
    requires r.direction != Zero
    ensures AlongT(r, Calculate(r, t0)) == Some(t0)
  {
    var d := r.direction;
    var l := Length2(d);
    assert Calculate(r, t0).Minus(r.origin) == d.Scaled(t0);
    DotScaled(d, d, t0);
    DotSelf(d);
    assert l != 0.0 by {
      if l == 0.0 {
        ZeroFromLength2(d);
      }
    }
    calc {
      Dot(Calculate(r, t0).Minus(r.origin), d) / l;
      Dot(d.Scaled(t0), d) / l;
      (t0 * l) / l;
      t0;
    }
  }

  class ObjModel {
    /** The meshes, in the order `processNode` loaded them. */
    var meshes: seq<Mesh>
    /** The model box, in the model frame. */
    var aabb: AABB
    var modelMatrix: Affine
    /** The Phong coefficients of the `Model` base: ambient, specular,
        transmission, and the specular exponent. */
    var ka: Vector
    var ks: Vector
    var kt: Vector
    var n: real

    /** A model before any mesh is loaded, with the matrix and the
        coefficients that `Scene::loadModel` stores into it. */
    constructor (modelMatrix: Affine, ka: Vector, ks: Vector, kt: Vector, n: real)
      ensures this.meshes == [] && this.aabb == DefaultBox
      ensures this.modelMatrix == modelMatrix && this.n == n
      ensures this.ka == ka && this.ks == ks && this.kt == kt
    {
      this.meshes := [];
      this.aabb := DefaultBox;
      this.modelMatrix := modelMatrix;
      this.ka, this.ks, this.kt, this.n := ka, ks, kt, n;
    }

    /** Every mesh has well-formed faces (see `Mesh.Valid`). */
    predicate Valid()
      reads this
    {
      forall i :: 0 <= i < |meshes| ==> meshes[i].Valid()
    }

    /** The bounds part of `processMesh`: the mesh box accumulated over the
        vertices from the default box, then merged into the model box. The
        returned mesh carries the given vertices and faces. */
    method ProcessMesh(vertices: seq<Vertex>, faces: seq<Face>) returns (mesh: Mesh)
      modifies this
      ensures mesh == Mesh(vertices, faces, BoundsUpTo(vertices, |vertices|))
      ensures forall i :: 0 <= i < |vertices| ==> PointIn(mesh.aabb, vertices[i].position)
      ensures aabb == Union(mesh.aabb, old(aabb))
      ensures meshes == old(meshes) && modelMatrix == old(modelMatrix)
      ensures ka == old(ka) && ks == old(ks) && kt == old(kt) && n == old(n)
    {
      var meshAabb := DefaultBox;
      var i := 0;
      while i < |vertices|
        invariant 0 <= i <= |vertices|
        invariant meshAabb == BoundsUpTo(vertices, i)
      {
        var p := vertices[i].position;
        meshAabb := AABB(Min(meshAabb.xmin, p.x), Max(meshAabb.xmax, p.x),
                         Min(meshAabb.ymin, p.y), Max(meshAabb.ymax, p.y),
                         Min(meshAabb.zmin, p.z), Max(meshAabb.zmax, p.z));
        i := i + 1;
      }
      aabb := AABB(Min(meshAabb.xmin, aabb.xmin), Max(meshAabb.xmax, aabb.xmax),
                   Min(meshAabb.ymin, aabb.ymin), Max(meshAabb.ymax, aabb.ymax),
                   Min(meshAabb.zmin, aabb.zmin), Max(meshAabb.zmax, aabb.zmax));
      mesh := Mesh(vertices, faces, meshAabb);
      forall j | 0 <= j < |vertices|
        ensures PointIn(mesh.aabb, vertices[j].position)
      {
        BoundsUpToContains(vertices, |vertices|, j);
      }
    }

    /** `meshes.push_back(processMesh(...))` in `processNode`, for one mesh. */
    method AddMesh(vertices: seq<Vertex>, faces: seq<Face>)
      modifies this
      ensures meshes == old(meshes) + [Mesh(vertices, faces, BoundsUpTo(vertices, |vertices|))]
      ensures aabb == Union(BoundsUpTo(vertices, |vertices|), old(aabb))
      ensures modelMatrix == old(modelMatrix)
      ensures ka == old(ka) && ks == old(ks) && kt == old(kt) && n == old(n)
    {
      var mesh := ProcessMesh(vertices, faces);
      meshes := meshes + [mesh];
    }

    /** The state after the first statements of `intersect`: the ray moved
        into the model frame and the model channel reset. */
    function LocalStart(m: Intrinsics, s0: IsectState<ObjModel>): (s: IsectState<ObjModel>)
      reads this
      ensures s.ray == TransformRay(m, s0.ray, Inverted(modelMatrix))
      ensures !s.modelIntersected && s.modelT == kRayTMax
      ensures s.(ray := s0.ray, modelIntersected := s0.modelIntersected, modelT := s0.modelT) == s0
    {
      s0.(ray := TransformRay(m, s0.ray, Inverted(modelMatrix)), modelIntersected := false, modelT := kRayTMax)
    }

    /** The state after the first k meshes of the mesh loop. */
    function MeshesUpTo(m: Intrinsics, k: nat, s: IsectState<ObjModel>): IsectState<ObjModel>
      reads this
      requires Valid() && k <= |meshes|
      decreases k, 0
    {
      if k == 0 then s else MeshStep(m, k - 1, s)
    }

    /** Mesh j's `intersect` in the mesh loop that starts from s. */
    function MeshStep(m: Intrinsics, j: nat, s: IsectState<ObjModel>): IsectState<ObjModel>
      reads this
      requires Valid() && j < |meshes|
      decreases j, 1
    {
      meshes[j].IntersectSpec(m, MeshesUpTo(m, j, s)).0
    }

    /** The candidates of the first k meshes, in loop order. */
    function ModelHits(m: Intrinsics, k: nat, ray: Ray, worldT: real): seq<Option<Hit>>
      reads this
      requires Valid() && k <= |meshes|
    {
      if k == 0 then [] else ModelHits(m, k - 1, ray, worldT) + meshes[k - 1].Hits(m, ray, worldT)
    }

    /** The hits among them. */
    function ModelCands(m: Intrinsics, ray: Ray, worldT: real): seq<Hit>
      reads this
      requires Valid()
    {
      Somes(ModelHits(m, |meshes|, ray, worldT))
    }

    /** The mesh loop offers the candidates of every mesh in turn: the ray
        and the world best reach each mesh unchanged. */
    lemma {:induction false} MeshesFold(m: Intrinsics, k: nat, s: IsectState<ObjModel>)
      requires Valid() && k <= |meshes|
      ensures MeshesUpTo(m, k, s) == Fold(m, ModelHits(m, k, s.ray, s.t), s).0
      decreases k
    {
      if k == 0 {
        assert ModelHits(m, 0, s.ray, s.t) == [];
      } else {
        MeshesFold(m, k - 1, s);
        var hs1 := ModelHits(m, k - 1, s.ray, s.t);
        var s1 := Fold(m, hs1, s).0;
        assert s1.ray == s.ray && s1.t == s.t;
        meshes[k - 1].IntersectIsFold(m, s1);
        FoldAppend(m, hs1, meshes[k - 1].Hits(m, s.ray, s.t), s);
      }
    }

    /** The mesh loop from a clear model channel keeps the nearest-hit
        invariant over the candidates of all meshes. */
    lemma MeshesBest(m: Intrinsics, s0: IsectState<ObjModel>)
      requires Valid()
      ensures Best(m, s0, MeshesUpTo(m, |meshes|, s0), ModelCands(m, s0.ray, s0.t),
                   Fold(m, ModelHits(m, |meshes|, s0.ray, s0.t), s0).1)
    {
      var hs := ModelHits(m, |meshes|, s0.ray, s0.t);
      MeshesFold(m, |meshes|, s0);
      FoldBest(m, hs, s0, s0, [], false);
      assert [] + Somes(hs) == Somes(hs);
    }

    /** `world_t`: the distance along the world ray recovered from the x
        components of the world hit point and of the ray alone. `None` when
        the direction has no x component (a division by zero). */
    function WorldT(s: IsectState<ObjModel>): (wt: Option<real>)
      reads this
      ensures wt.None? <==> s.ray.direction.x == 0.0
      ensures wt.Some? ==>
        s.ray.origin.x + wt.value * s.ray.direction.x == Apply(modelMatrix, s.modelIntersect).x
    {
      var world := Apply(modelMatrix, s.modelIntersect);
      var dx := s.ray.direction.x;
      if dx == 0.0 then None else Some((world.x - s.ray.origin.x) / dx)
    }

    /** For a world point on the world ray at parameter t0, `world_t` is
        t0 whenever the ray has an x component, as `AlongT` is. A ray with
        no x component but a non-zero direction loses its hit: `world_t` is
        undefined although `AlongT` recovers t0. */
    lemma WorldTOnRay(s: IsectState<ObjModel>, t0: real)
      requires Apply(modelMatrix, s.modelIntersect) == Calculate(s.ray, t0)
      ensures s.ray.direction.x != 0.0 ==>
        WorldT(s) == Some(t0) && AlongT(s.ray, Apply(modelMatrix, s.modelIntersect)) == Some(t0)
      ensures s.ray.direction.x == 0.0 && s.ray.direction != Zero ==>
        WorldT(s).None? && AlongT(s.ray, Apply(modelMatrix, s.modelIntersect)) == Some(t0)
    {
      var d := s.ray.direction;
      if d != Zero {
        AlongTRecovers(s.ray, t0);
      }
      if d.x != 0.0 {
        var wx := Apply(modelMatrix, s.modelIntersect).x;
        assert wx - s.ray.origin.x == t0 * d.x;
        assert (wx - s.ray.origin.x) / d.x == t0;
      }
    }

    /** The promotion at the end of `intersect`: with a model hit whose
        `world_t` is strictly below the world best, this model becomes the
        owner, the world point is the model point mapped by the model matrix,
        and the world normal is the model normal mapped the same way (as a
        point) and normalised. */
    function Promote(m: Intrinsics, s: IsectState<ObjModel>): IsectState<ObjModel>
      reads this
    {
      if !s.modelIntersected then s
      else match WorldT(s)
        case None => s
        case Some(wt) =>
          if wt < s.t then
            s.(pModel := Some(this), intersect := Apply(modelMatrix, s.modelIntersect), t := wt,
               normal := Normalized(m, Apply(modelMatrix, s.modelNormal)))
          else s
    }

    /** `ObjModel::intersect` on the state. */
    function IntersectSpec(m: Intrinsics, s0: IsectState<ObjModel>): (IsectState<ObjModel>, bool)
      reads this
      requires Valid()
    {
      var local := LocalStart(m, s0);
      if !Intersects(aabb, local.ray) then (local.(ray := s0.ray), false)
      else
        var s := MeshesUpTo(m, |meshes|, local).(ray := s0.ray);
        (Promote(m, s), s.modelIntersected)
    }

    /** What `intersect` promises about the world channel: the ray is the
        one on entry; the result is the model flag; the world channel moves
        exactly when there is a model hit whose `world_t` is strictly below
        the world best, and then it holds this model, that distance and the
        mapped point and normal; so the world best never increases. A miss
        of the model box returns false with only the model channel reset. */
    lemma IntersectWorld(m: Intrinsics, s0: IsectState<ObjModel>)
      requires Valid()
      ensures var (s, b) := IntersectSpec(m, s0);
        Kept(s0, s) && b == s.modelIntersected && s.t <= s0.t &&
        ((b && WorldT(s).Some? && WorldT(s).value < s0.t) <==> !SameWorld(s0, s)) &&
        (!SameWorld(s0, s) ==>
           s.pModel == Some(this) && s.t == WorldT(s).value &&
           s.intersect == Apply(modelMatrix, s.modelIntersect) &&
           s.normal == Normalized(m, Apply(modelMatrix, s.modelNormal)))
      ensures !Intersects(aabb, LocalStart(m, s0).ray) ==>
        IntersectSpec(m, s0) == (s0.(modelIntersected := false, modelT := kRayTMax), false)
    {
      var local := LocalStart(m, s0);
      if Intersects(aabb, local.ray) {
        MeshesBest(m, local);
      }
    }

    /** What `intersect` promises about the model channel: it reports a hit
        exactly when the local ray meets the model box and some mesh offers a
        candidate, and it then holds the nearest candidate of all meshes. */
    lemma IntersectNearest(m: Intrinsics, s0: IsectState<ObjModel>)
      requires Valid()
      ensures var (s, b) := IntersectSpec(m, s0);
        var local := LocalStart(m, s0);
        var cs := ModelCands(m, local.ray, s0.t);
        (b <==> Intersects(aabb, local.ray) && |cs| > 0) &&
        (b ==> exists i :: 0 <= i < |cs| && Records(m, s, local.ray, cs[i]) &&
                 forall j :: 0 <= j < |cs| ==> cs[i].t <= cs[j].t)
    {
      var local := LocalStart(m, s0);
      if Intersects(aabb, local.ray) {
        MeshesBest(m, local);
        var s1 := MeshesUpTo(m, |meshes|, local);
        var cs := ModelCands(m, local.ray, s0.t);
        var (s, b) := IntersectSpec(m, s0);
        assert s == Promote(m, s1.(ray := s0.ray));
        if b {
          var i :| 0 <= i < |cs| && Records(m, s1, local.ray, cs[i]);
          assert Records(m, s, local.ray, cs[i]);
        }
      }
    }

    /** The mesh loop of `intersect`: every mesh in turn against the same
        `Intersection`; their results are not used. */
    method RunMeshes(m: Intrinsics, isect: Intersection<ObjModel>)
      requires Valid()
      modifies isect
      ensures isect.State() == MeshesUpTo(m, |meshes|, old(isect.State()))
    {
      ghost var s0 := isect.State();
      var i := 0;
      while i < |meshes|
        invariant 0 <= i <= |meshes|
        invariant isect.State() == MeshesUpTo(m, i, s0)
      {
        var found := meshes[i].Intersect(m, isect);
        i := i + 1;
      }
    }

    /** The promotion at the end of `intersect`, on an `Intersection`. */
    method PromoteHit(m: Intrinsics, isect: Intersection<ObjModel>)
      modifies isect
      ensures isect.State() == Promote(m, old(isect.State()))
    {
      if isect.modelIntersected {
        var worldIntersect := Apply(modelMatrix, isect.modelIntersect);
        var dx := isect.ray.direction.x;
        if dx != 0.0 {
          var worldT := (worldIntersect.x - isect.ray.origin.x) / dx;
          if worldT < isect.t {
            isect.pModel := Some(this);
            isect.intersect := worldIntersect;
            isect.t := worldT;
            isect.normal := Normalized(m, Apply(modelMatrix, isect.modelNormal));
          }
        }
      }
    }

    /** `intersect` on an `Intersection`, in the source's order. */
    method Intersect(m: Intrinsics, isect: Intersection<ObjModel>) returns (hit: bool)
      requires Valid()
      modifies isect
      ensures (isect.State(), hit) == IntersectSpec(m, old(isect.State()))
    {
      var origRay := isect.ray;
      isect.ray := TransformRay(m, origRay, Inverted(modelMatrix));
      isect.modelIntersected := false;
      isect.modelT := kRayTMax;
      ghost var local := isect.State();
      assert local == LocalStart(m, old(isect.State()));
      if !Intersects(aabb, isect.ray) {
        isect.ray := origRay;
        return false;
      }
      RunMeshes(m, isect);
      isect.ray := origRay;
      PromoteHit(m, isect);
      return isect.modelIntersected;
    }
  }
}
