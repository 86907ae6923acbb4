/** A triangle mesh and its nearest-hit test (src/mesh.h): every face is
    fanned into triangles around its first vertex, each triangle is solved
    with a closed barycentric range check, and accepted hits go to the
    model-local channel of the `Intersection`. */
module Meshes {
  import opened Wrappers
  import opened RealMath
  import opened Basic
  import opened Geometry
  import opened Box

  /** The parts of a vertex the ray tracer reads. */
  datatype Vertex = Vertex(position: Point, normal: Vector)

  /** A polygon, as indices into the mesh's vertex list. */
  datatype Face = Face(vertexIndices: seq<nat>)

  /** A hit the triangle test would accept: its ray parameter and the
      barycentric blend of the vertex normals, which is normalized when it
      is stored. */
  datatype Hit = Hit(t: real, normal: Vector)

  /** `num_vertice - 2` evaluated in 64-bit `size_t`: for fewer than two
      indices it wraps around to a bound beyond the face, so the fan loop
      would read past the end of `vertexIndices`. */
  function FanBound(k: nat): (bound: nat)
    ensures 2 <= k ==> bound == k - 2
    ensures k < 2 ==> k < bound
  {
    if 2 <= k then k - 2 else k - 2 + 0x1_0000_0000_0000_0000
  }

  /** The mesh count of a face's fan: k - 2 triangles for k >= 2 indices. */
  function FanSize(f: Face): nat
  {
    if |f.vertexIndices| < 2 then 0 else |f.vertexIndices| - 2
  }

  /** The barycentric range test of the mesh: closed, gamma in [0, 1],
      beta >= 0 and beta + gamma <= 1. */
  predicate BaryInRange(beta: real, gamma: real)
  {
    0.0 <= gamma <= 1.0 && 0.0 <= beta && beta + gamma <= 1.0
  }

  /** Every hit of the strict triangle test (src/geometry.cpp) passes the
      closed range test of the mesh. */
  lemma StrictInsideClosed(ray: Ray, p0: Point, p1: Point, p2: Point)
    requires IntersectTriangle(ray, p0, p1, p2)
    ensures var det := PlaneDet(ray, p0, p1, p2);
      det != 0.0 && BaryInRange(BetaOf(ray, p0, p2, det), GammaOf(ray, p0, p1, det))
  {
    IntersectTriangleSpec(ray, p0, p1, p2);
  }

  /** The converse fails: a line through the fan vertex p0 of a
      non-degenerate triangle has beta = gamma = 0, so the mesh test accepts
      it while the strict test rejects it. */
  lemma FirstVertexOnlyClosed(ray: Ray, p0: Point, p1: Point, p2: Point, t: real)
    requires PlaneDet(ray, p0, p1, p2) != 0.0 && Calculate(ray, t) == p0
    ensures var det := PlaneDet(ray, p0, p1, p2);
      BetaOf(ray, p0, p2, det) == 0.0 && GammaOf(ray, p0, p1, det) == 0.0 &&
      BaryInRange(BetaOf(ray, p0, p2, det), GammaOf(ray, p0, p1, det)) &&
      !IntersectTriangle(ray, p0, p1, p2)
  {
    ThroughFirstVertex(ray, p0, p1, p2, t, PlaneDet(ray, p0, p1, p2));
    VertexIsMiss(ray, p0, p1, p2, t);
  }

  datatype Mesh = Mesh(vertices: seq<Vertex>, faces: seq<Face>, aabb: AABB)
  {
    /** What the loops demand of a face: at least two indices (so that
        `num_vertice - 2` does not wrap), all naming existing vertices. */
    predicate FaceOk(f: Face)
    {
      2 <= |f.vertexIndices| &&
      forall j :: 0 <= j < |f.vertexIndices| ==> f.vertexIndices[j] < |vertices|
    }

    predicate Valid()
    {
      forall i :: 0 <= i < |faces| ==> FaceOk(faces[i])
    }

    /** The three corners of triangle `tri` of face i: indices 0, tri and
        tri + 1. */
    function Corner(i: nat, j: nat): Vertex
      requires Valid() && i < |faces| && j < |faces[i].vertexIndices|
    {
      vertices[faces[i].vertexIndices[j]]
    }

    /** The hit that triangle `tri` of face i offers, or `None` for each of
        the early `return false`s: a zero determinant, coordinates out of
        range, or a ray parameter outside [kRayTMin, worldT). */
    function Candidate(m: Intrinsics, i: nat, tri: nat, ray: Ray, worldT: real): (h: Option<Hit>)
      requires Valid() && i < |faces| && 1 <= tri <= FanSize(faces[i])
      ensures h.Some? ==> kRayTMin <= h.value.t < worldT
      ensures h.Some? ==>
        var p0, p1, p2 := Corner(i, 0).position, Corner(i, tri).position, Corner(i, tri + 1).position;
        var det := PlaneDet(ray, p0, p1, p2);
        det != 0.0 && BaryInRange(BetaOf(ray, p0, p2, det), GammaOf(ray, p0, p1, det)) &&
        h.value.t == PlaneT(ray, p0, p1, p2, det)
      ensures
        var p0, p1, p2 := Corner(i, 0).position, Corner(i, tri).position, Corner(i, tri + 1).position;
        var det := PlaneDet(ray, p0, p1, p2);
        (det != 0.0 && BaryInRange(BetaOf(ray, p0, p2, det), GammaOf(ray, p0, p1, det)) &&
         kRayTMin <= PlaneT(ray, p0, p1, p2, det) < worldT) ==> h.Some?
      ensures h.Some? ==>
        var p0, p1, p2 := Corner(i, 0).position, Corner(i, tri).position, Corner(i, tri + 1).position;
        var det := PlaneDet(ray, p0, p1, p2);
        var beta, gamma := BetaOf(ray, p0, p2, det), GammaOf(ray, p0, p1, det);
        h.value.normal == Corner(i, 0).normal.Scaled(1.0 - beta - gamma)
          .Plus(Corner(i, tri).normal.Scaled(beta)).Plus(Corner(i, tri + 1).normal.Scaled(gamma))
    {
      var v0, v1, v2 := Corner(i, 0), Corner(i, tri), Corner(i, tri + 1);
      var det := PlaneDet(ray, v0.position, v1.position, v2.position);
      if det == 0.0 then None
      else
        var gamma := GammaOf(ray, v0.position, v1.position, det);
        var beta := BetaOf(ray, v0.position, v2.position, det);
        var t := PlaneT(ray, v0.position, v1.position, v2.position, det);
        if gamma < 0.0 || gamma > 1.0 then None
        else if beta < 0.0 || beta + gamma > 1.0 then None
        else if t < kRayTMin || t >= worldT then None
        else
          var alpha := 1.0 - beta - gamma;
          var shading := v0.normal.Scaled(alpha).Plus(v1.normal.Scaled(beta)).Plus(v2.normal.Scaled(gamma));
          Some(Hit(t, shading))
    }

    /** A ray through the fan vertex of a non-degenerate triangle, at a
        parameter in [kRayTMin, worldT), is a candidate of the mesh although
        the strict triangle test rejects it. */
    lemma FirstVertexCandidate(m: Intrinsics, i: nat, tri: nat, ray: Ray, worldT: real, t: real)
      requires Valid() && i < |faces| && 1 <= tri <= FanSize(faces[i])
      requires var p0, p1, p2 := Corner(i, 0).position, Corner(i, tri).position, Corner(i, tri + 1).position;
        PlaneDet(ray, p0, p1, p2) != 0.0 && Calculate(ray, t) == p0 &&
        kRayTMin <= PlaneT(ray, p0, p1, p2, PlaneDet(ray, p0, p1, p2)) < worldT
      ensures Candidate(m, i, tri, ray, worldT).Some?
      ensures !Geometry.IntersectTriangle(ray, Corner(i, 0).position, Corner(i, tri).position, Corner(i, tri + 1).position)
    {
      FirstVertexOnlyClosed(ray, Corner(i, 0).position, Corner(i, tri).position, Corner(i, tri + 1).position, t);
    }

    /** `intersectTriangle` on the state: the triangle's candidate, if any,
        offered to the model channel. */
    function Step<M(==)>(m: Intrinsics, i: nat, tri: nat, s: IsectState<M>): (IsectState<M>, bool)
      requires Valid() && i < |faces| && 1 <= tri <= FanSize(faces[i])
    {
      Offer(m, Candidate(m, i, tri, s.ray, s.t), s)
    }

    /** The candidates of triangles 1..n of face i, for one ray and world
        best. */
    function FaceOptions(m: Intrinsics, i: nat, n: nat, ray: Ray, worldT: real): (hs: seq<Option<Hit>>)
      requires Valid() && i < |faces| && n <= FanSize(faces[i])
      ensures |hs| == n
    {
      if n == 0 then [] else FaceOptions(m, i, n - 1, ray, worldT) + [Candidate(m, i, n, ray, worldT)]
    }

    /** The state and flag after triangles 1..n of face i. The triangles
        read the ray and the world best from the state, and since they
        write only the model channel these are the ones on entry. */
    function FaceUpTo<M(==)>(m: Intrinsics, i: nat, n: nat, s: IsectState<M>): (IsectState<M>, bool)
      requires Valid() && i < |faces| && n <= FanSize(faces[i])
    {
      Fold(m, FaceOptions(m, i, n, s.ray, s.t), s)
    }

    /** Triangle n of face i continues from where triangles 1..n-1 left. */
    lemma FaceUpToNext<M>(m: Intrinsics, i: nat, n: nat, s: IsectState<M>)
      requires Valid() && i < |faces| && 1 <= n <= FanSize(faces[i])
      ensures var (s1, b1) := FaceUpTo(m, i, n - 1, s);
        FaceUpTo(m, i, n, s) == (Step(m, i, n, s1).0, b1 || Step(m, i, n, s1).1)
    {
      var hs := FaceOptions(m, i, n, s.ray, s.t);
      assert hs[..n - 1] == FaceOptions(m, i, n - 1, s.ray, s.t);
      var s1 := FaceUpTo(m, i, n - 1, s).0;
      assert s1.ray == s.ray && s1.t == s.t;
    }

    /** The candidates of the fans of faces 0..k-1, in loop order. */
    function MeshOptions(m: Intrinsics, k: nat, ray: Ray, worldT: real): seq<Option<Hit>>
      requires Valid() && k <= |faces|
    {
      if k == 0 then []
      else MeshOptions(m, k - 1, ray, worldT) + FaceOptions(m, k - 1, FanSize(faces[k - 1]), ray, worldT)
    }

    /** The state and flag after the whole fans of faces 0..k-1. */
    function FacesUpTo<M(==)>(m: Intrinsics, k: nat, s: IsectState<M>): (IsectState<M>, bool)
      requires Valid() && k <= |faces|
    {
      Fold(m, MeshOptions(m, k, s.ray, s.t), s)
    }

    /** Face k continues from where faces 0..k-1 left. */
    lemma FacesUpToNext<M>(m: Intrinsics, k: nat, s: IsectState<M>)
      requires Valid() && k < |faces|
      ensures var (s1, b1) := FacesUpTo(m, k, s);
        var (s2, b2) := FaceUpTo(m, k, FanSize(faces[k]), s1);
        FacesUpTo(m, k + 1, s) == (s2, b1 || b2)
    {
      var hs1 := MeshOptions(m, k, s.ray, s.t);
      var hs2 := FaceOptions(m, k, FanSize(faces[k]), s.ray, s.t);
      assert MeshOptions(m, k + 1, s.ray, s.t) == hs1 + hs2;
      FoldAppend(m, hs1, hs2, s);
      var s1 := FacesUpTo(m, k, s).0;
      assert s1.ray == s.ray && s1.t == s.t;
    }

    /** `Mesh::intersect` on the state: nothing happens when the ray misses
        the mesh box. */
    function IntersectSpec<M(==)>(m: Intrinsics, s: IsectState<M>): (IsectState<M>, bool)
      requires Valid()
    {
      if !Intersects(aabb, s.ray) then (s, false) else FacesUpTo(m, |faces|, s)
    }

    /** Every candidate of the mesh, in loop order, or none when the box is
        missed. */
    function Hits(m: Intrinsics, ray: Ray, worldT: real): seq<Option<Hit>>
      requires Valid()
    {
      if !Intersects(aabb, ray) then [] else MeshOptions(m, |faces|, ray, worldT)
    }

    /** The hits among those candidates. */
    function AllCands(m: Intrinsics, ray: Ray, worldT: real): seq<Hit>
      requires Valid()
    {
      Somes(Hits(m, ray, worldT))
    }

    /** `Mesh::intersect` offers the mesh's candidates in turn. */
    lemma IntersectIsFold<M>(m: Intrinsics, s: IsectState<M>)
      requires Valid()
      ensures IntersectSpec(m, s) == Fold(m, Hits(m, s.ray, s.t), s)
    {
    }

    /** What `Mesh::intersect` does to the state: only the model channel
        changes; the model best never increases; it ends no farther than
        any candidate and, when the result is true, at one of them; the
        result is true exactly when some candidate was recorded. A box
        miss changes nothing and returns false. */
    lemma IntersectBest<M>(m: Intrinsics, s0: IsectState<M>)
      requires Valid()
      ensures Best(m, s0, IntersectSpec(m, s0).0, AllCands(m, s0.ray, s0.t), IntersectSpec(m, s0).1)
      ensures !Intersects(aabb, s0.ray) ==> IntersectSpec(m, s0) == (s0, false)
    {
      if Intersects(aabb, s0.ray) {
        var hs := MeshOptions(m, |faces|, s0.ray, s0.t);
        FoldBest(m, hs, s0, s0, [], false);
        assert [] + Somes(hs) == Somes(hs);
      }
    }

    /** Started with a clear model channel (as `ObjModel::intersect` does),
        the mesh reports a hit exactly when there is a candidate, and then
        records the nearest one. */
    lemma IntersectNearest<M>(m: Intrinsics, s0: IsectState<M>)
      requires Valid() && !s0.modelIntersected
      ensures var (s, b) := IntersectSpec(m, s0);
        var cs := AllCands(m, s0.ray, s0.t);
        (b <==> |cs| > 0) && (b <==> s.modelIntersected) &&
        (b ==> exists i :: 0 <= i < |cs| && Records(m, s, s0.ray, cs[i]) &&
                 forall j :: 0 <= j < |cs| ==> cs[i].t <= cs[j].t)
    {
      IntersectBest(m, s0);
      var (s, b) := IntersectSpec(m, s0);
      var cs := AllCands(m, s0.ray, s0.t);
      if b {
        var i :| 0 <= i < |cs| && Records(m, s, s0.ray, cs[i]);
        assert forall j :: 0 <= j < |cs| ==> cs[i].t <= cs[j].t;
      }
    }

    /** `intersectTriangle` on an `Intersection`, as the source orders its
        tests. */
    method IntersectTriangle<M(==)>(m: Intrinsics, i: nat, tri: nat, isect: Intersection<M>) returns (hit: bool)
      requires Valid() && i < |faces| && 1 <= tri <= FanSize(faces[i])
      modifies isect
      ensures (isect.State(), hit) == Step(m, i, tri, old(isect.State()))
    {
      var v0 := vertices[faces[i].vertexIndices[0]];
      var v1 := vertices[faces[i].vertexIndices[tri]];
      var v2 := vertices[faces[i].vertexIndices[tri + 1]];
      var det := PlaneDet(isect.ray, v0.position, v1.position, v2.position);
      if det == 0.0 {
        return false;
      }
      var gamma := GammaOf(isect.ray, v0.position, v1.position, det);
      if gamma < 0.0 || gamma > 1.0 {
        return false;
      }
      var beta := BetaOf(isect.ray, v0.position, v2.position, det);
      if beta < 0.0 || beta + gamma > 1.0 {
        return false;
      }
      var t := PlaneT(isect.ray, v0.position, v1.position, v2.position, det);
      if t < kRayTMin || t >= isect.t {
        return false;
      }
      var alpha := 1.0 - beta - gamma;
      var shadingNormal := v0.normal.Scaled(alpha).Plus(v1.normal.Scaled(beta)).Plus(v2.normal.Scaled(gamma));
      shadingNormal := Normalized(m, shadingNormal);
      if isect.modelIntersected {
        if t < isect.modelT {
          isect.modelT := t;
          isect.modelIntersect := isect.ModelIntersectAt(t);
          isect.modelNormal := shadingNormal;
          return true;
        }
      } else {
        isect.modelIntersected := true;
        isect.modelT := t;
        isect.modelIntersect := isect.ModelIntersectAt(t);
        isect.modelNormal := shadingNormal;
        return true;
      }
      return false;
    }

    /** `Mesh::intersect`: the box test, then the fan of every face. */
    method Intersect<M(==)>(m: Intrinsics, isect: Intersection<M>) returns (flag: bool)
      requires Valid()
      modifies isect
      ensures (isect.State(), flag) == IntersectSpec(m, old(isect.State()))
    {
      ghost var s0 := isect.State();
      if !Intersects(aabb, isect.ray) {
        return false;
      }
      flag := false;
      var i := 0;
      while i < |faces|
        invariant 0 <= i <= |faces|
        invariant (isect.State(), flag) == FacesUpTo(m, i, s0)
      {
        var r := IntersectFace(m, i, isect);
        flag := flag || r;
        FacesUpToNext(m, i, s0);
        i := i + 1;
      }
    }

    /** The fan loop of `Mesh::intersect` over face i: triangles 1 to
        `num_vertice - 2`. */
    method IntersectFace<M(==)>(m: Intrinsics, i: nat, isect: Intersection<M>) returns (flag: bool)
      requires Valid() && i < |faces|
      modifies isect
      ensures (isect.State(), flag) == FaceUpTo(m, i, FanSize(faces[i]), old(isect.State()))
    {
      ghost var si := isect.State();
      flag := false;
      var numVertice := |faces[i].vertexIndices|;
      var j := 1;
      while j <= FanBound(numVertice)
        invariant 1 <= j <= FanSize(faces[i]) + 1
        invariant isect.State() == FaceUpTo(m, i, j - 1, si).0
        invariant flag == FaceUpTo(m, i, j - 1, si).1
      {
        FaceUpToNext(m, i, j, si);
        var r := IntersectTriangle(m, i, j, isect);
        if r {
          flag := true;
        }
        j := j + 1;
      }
    }
  }

  /** The model-channel update at the end of `intersectTriangle`, given
      the triangle's candidate: the first accepted hit is recorded whatever
      its distance, a later one only when strictly nearer than the model
      best. The result says whether anything was recorded, and only the
      model channel is written. */
  function Offer<M(==)>(m: Intrinsics, h: Option<Hit>, s: IsectState<M>): (r: (IsectState<M>, bool))
    ensures OnlyModelChannel(s, r.0)
    ensures !r.1 ==> r.0 == s
    ensures r.1 <==> h.Some? && (!s.modelIntersected || h.value.t < s.modelT)
    ensures r.1 ==> r.0.modelIntersected && Records(m, r.0, s.ray, h.value)
    ensures s.modelIntersected ==> r.0.modelT <= s.modelT
  {
    match h
    case None => (s, false)
    case Some(hit) =>
      if s.modelIntersected && hit.t >= s.modelT then (s, false)
      else (s.(modelIntersected := true, modelT := hit.t,
               modelIntersect := Calculate(s.ray, hit.t), modelNormal := Normalized(m, hit.normal)), true)
  }

  /** One offered candidate keeps `Best`. */
  lemma OfferBest<M>(m: Intrinsics, h: Option<Hit>, s0: IsectState<M>, s: IsectState<M>, cs: seq<Hit>, b: bool)
    requires Best(m, s0, s, cs, b)
    ensures Best(m, s0, Offer(m, h, s).0, cs + OptionSeq(h), b || Offer(m, h, s).1)
  {
    var (s2, b2) := Offer(m, h, s);
    if h.Some? {
      var cs2 := cs + [h.value];
      assert cs2[|cs|] == h.value;
      if b2 {
        assert Records(m, s2, s0.ray, cs2[|cs|]);
        if s0.modelIntersected {
          assert cs2[|cs|].t < s0.modelT;
        }
        assert Best(m, s0, s2, cs2, true);
      } else {
        if !b {
          assert forall j :: 0 <= j < |cs2| ==> s0.modelT <= cs2[j].t;
        } else {
          var j :| 0 <= j < |cs| && Records(m, s, s0.ray, cs[j]);
          assert Records(m, s, s0.ray, cs2[j]);
          if s0.modelIntersected {
            var w :| 0 <= w < |cs| && cs[w].t < s0.modelT;
            assert cs2[w].t < s0.modelT;
          }
        }
        assert Best(m, s0, s2, cs2, b);
      }
    } else {
      assert cs + OptionSeq(h) == cs;
    }
  }

  /** Candidates offered one after another, with the results or-ed. */
  function Fold<M(==)>(m: Intrinsics, hs: seq<Option<Hit>>, s: IsectState<M>): (r: (IsectState<M>, bool))
    ensures OnlyModelChannel(s, r.0)
    decreases |hs|
  {
    if hs == [] then (s, false)
    else
      var (s1, b1) := Fold(m, hs[..|hs| - 1], s);
      var (s2, b2) := Offer(m, hs[|hs| - 1], s1);
      (s2, b1 || b2)
  }

  /** Offering two runs of candidates in turn. */
  lemma {:induction false} FoldAppend<M>(m: Intrinsics, hs1: seq<Option<Hit>>, hs2: seq<Option<Hit>>, s: IsectState<M>)
    ensures var (s1, b1) := Fold(m, hs1, s);
      var (s2, b2) := Fold(m, hs2, s1);
      Fold(m, hs1 + hs2, s) == (s2, b1 || b2)
    decreases |hs2|
  {
    if hs2 == [] {
      assert hs1 + hs2 == hs1;
    } else {
      var init := hs2[..|hs2| - 1];
      FoldAppend(m, hs1, init, s);
      assert (hs1 + hs2)[..|hs1 + hs2| - 1] == hs1 + init;
      assert (hs1 + hs2)[|hs1 + hs2| - 1] == hs2[|hs2| - 1];
    }
  }

  /** The hits among some candidates, in order. */
  function Somes(hs: seq<Option<Hit>>): (cs: seq<Hit>)
    ensures |cs| <= |hs|
  {
    if hs == [] then [] else Somes(hs[..|hs| - 1]) + OptionSeq(hs[|hs| - 1])
  }

  /** Offering candidates one by one keeps `Best`. */
  lemma {:induction false} FoldBest<M>(m: Intrinsics, hs: seq<Option<Hit>>, s0: IsectState<M>, s: IsectState<M>, cs: seq<Hit>, b: bool)
    requires Best(m, s0, s, cs, b)
    ensures Best(m, s0, Fold(m, hs, s).0, cs + Somes(hs), b || Fold(m, hs, s).1)
    decreases |hs|
  {
    if hs == [] {
      assert cs + [] == cs;
    } else {
      var init := hs[..|hs| - 1];
      FoldBest(m, init, s0, s, cs, b);
      var (s1, b1) := Fold(m, init, s);
      OfferBest(m, hs[|hs| - 1], s0, s1, cs + Somes(init), b || b1);
      assert cs + Somes(init) + OptionSeq(hs[|hs| - 1]) == cs + Somes(hs);
    }
  }

  function OptionSeq<T>(o: Option<T>): (s: seq<T>)
    ensures |s| <= 1 && (o.Some? <==> |s| == 1) && (o.Some? ==> s[0] == o.value)
  {
    if o.Some? then [o.value] else []
  }

  /** The fields a mesh may write are those of the model channel. */
  predicate OnlyModelChannel<M(==)>(s0: IsectState<M>, s: IsectState<M>)
  {
    s.(modelT := s0.modelT, modelIntersect := s0.modelIntersect,
       modelNormal := s0.modelNormal, modelIntersected := s0.modelIntersected) == s0
  }

  /** The model channel holds hit h of a ray. */
  predicate Records<M(==)>(m: Intrinsics, s: IsectState<M>, ray: Ray, h: Hit)
  {
    s.modelT == h.t && s.modelIntersect == Calculate(ray, h.t) && s.modelNormal == Normalized(m, h.normal)
  }

  /** Whether a run over candidates cs, started in s0, records anything: the
      first candidate does if the channel was clear, otherwise only a
      candidate strictly nearer than the best on entry. */
  predicate Improves<M(==)>(s0: IsectState<M>, cs: seq<Hit>)
  {
    if s0.modelIntersected then exists i :: 0 <= i < |cs| && cs[i].t < s0.modelT else |cs| > 0
  }

  /** The nearest-hit invariant of a run over candidates cs from s0 to s
      with result b. */
  predicate Best<M(==)>(m: Intrinsics, s0: IsectState<M>, s: IsectState<M>, cs: seq<Hit>, b: bool)
  {
    OnlyModelChannel(s0, s) &&
    s.modelIntersected == (s0.modelIntersected || |cs| > 0) &&
    b == Improves(s0, cs) &&
    (forall j :: 0 <= j < |cs| ==> s.modelT <= cs[j].t) &&
    (s0.modelIntersected ==> s.modelT <= s0.modelT) &&
    (!b ==> s == s0) &&
    (b ==> exists j :: 0 <= j < |cs| && Records(m, s, s0.ray, cs[j]))
  }
}
