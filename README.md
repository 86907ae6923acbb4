# Space-Rover ray tracer, modelled in Dafny

Space-Rover is a Qt/OpenGL scene viewer with an offline ray tracer. This
project models the ray tracer's sequential logic over exact `real`
arithmetic and proves properties of that model:

- **Value types**: `Color`, `Vector`, `Ray` and the `Intersection`
  accumulator (`src/raytracing/basic.h`), including `clamp`, `normalize`,
  the tolerance `==`, `cross`, `reflect` and `calculate`.
- **Ray tests**: the barycentric plane, triangle and rectangle tests
  (`src/geometry.cpp`) and the box `AABB` (`src/aabb.cpp`).
- **Nearest-hit queries**:
  - the mesh, which fans each face into triangles (`src/mesh.h`);
  - the object model, which moves the ray into its own frame and promotes
    a hit to world coordinates (`src/objmodel.h`);
  - the scene loop over all models (`src/scene.cpp`).
- **Lights and lighting**: the three light variants (`src/light.h`) and
  Phong lighting with shadow rays (`src/locallighting.cpp`).
- **Renderer**: the recursive `traceRay`, the perspective camera, the
  image buffer, the render threads and the tile split of
  `renderRayTracing` (`src/raytracingscene.h`, `src/raytracingscene.cpp`).
- **Interactive camera**: its state updates, namely keyboard moves,
  mouse look, scroll zoom and the key table (`src/camera.cpp`).
- **Scene file**: the index and key mappings of the scene-file readers
  and writers that the renderer depends on.

Library routines whose code is not part of the model (`std::sqrt`,
`pow`, `std::tan`, `sin`, `cos`) are fields of an `Intrinsics` value that
every computation takes as a parameter. The predicate `RealMath.Sound`
states the only facts the proofs assume about them: `sqrt` is the
non-negative square root, and `pow` of a non-negative base is
non-negative.

The model follows the code. Where the code does something its authors
evidently did not intend, the model does the same, and a lemma shows the
effect (see "Known defects modelled as written").

Files: `wrappers.dfy` (Option), `realmath.dfy`, `basic.dfy`,
`geometry.dfy`, `aabb.dfy`, `mesh.dfy`, `objmodel.dfy`, `light.dfy`,
`scenefile.dfy`, `scene.dfy`, `lighting.dfy`, `image.dfy`, `tiles.dfy`,
`raytracing.dfy` and `camera.dfy`, one module each.

How the code's stateful parts are modelled:

- Objects it updates in place are Dafny classes: `Intersection`,
  `ObjModel`, `Scene`, `Image`, `PerspectiveCamera`, `RenderThread` and
  `Camera`.
- Each method on them is proved equal to a value-level function of the
  old state, such as `Meshes.Mesh.IntersectSpec`,
  `Scenes.Scene.IntersectSpec`, `Lighting.PhongSpec` and
  `RayTracing.Trace`.
- The stated properties are lemmas about those functions.

## Model

| member | source | states |
|---|---|---|
| Basic.Clamp | src/raytracing/basic.h:29-34 | with min <= max every channel ends in [min, max], and a channel already in range is unchanged |
| Basic.ClampIdempotent | src/raytracing/basic.h:29-34 | clamping twice equals clamping once |
| Basic.Length2 | src/raytracing/basic.h:178 | the squared length is never negative |
| Basic.DotSelf | src/raytracing/basic.h:178 | `length2` is the dot product of the vector with itself |
| Basic.Length2Scaled | src/raytracing/basic.h:178 | scaling by f multiplies the squared length by f squared |
| Basic.NormalizeSpec | src/raytracing/basic.h:179-182 | `normalize` returns the old length, a non-negative root of `length2`. The result scaled by that length gives the vector back. The length is 0 exactly for the zero vector, which the `len > 0` guard leaves unchanged. A non-zero vector becomes a unit vector |
| Basic.NormalizePositive | src/raytracing/basic.h:182 | on the `len > 0` branch the result is a unit vector that scales back to the input |
| Basic.NormalizeZero | src/raytracing/basic.h:182 | the other branch happens only for the zero vector, which stays zero with length 0 |
| Basic.NormalizedUnit | src/raytracing/basic.h:184 | `normalized` leaves a unit vector unchanged |
| Basic.NormalizedIdempotent | src/raytracing/basic.h:184 | normalizing twice equals normalizing once |
| Basic.ApproxEqReflexive | src/raytracing/basic.h:251-256 | the componentwise `abs(a - b) < 1e-6` test holds of every vector with itself |
| Basic.ApproxEqSymmetric | src/raytracing/basic.h:251-256 | the tolerance test is symmetric |
| Basic.ApproxEqNotTransitive | src/raytracing/basic.h:251-256 | there are a, b and c with a == b and b == c but not a == c |
| Basic.CrossOrthogonal | src/raytracing/basic.h:334-340 | `cross(a, b)` is orthogonal to a and to b |
| Basic.CrossAntiCommutative | src/raytracing/basic.h:334-340 | `cross(b, a) == -cross(a, b)` |
| Basic.CrossLength2 | src/raytracing/basic.h:325-340 | Lagrange's identity: the squared length of the cross product is the product of the squared lengths minus the squared dot product |
| Basic.CrossScaled | src/raytracing/basic.h:334-340 | the cross product is linear in its first argument |
| Basic.DotScaled | src/raytracing/basic.h:325-329 | the dot product is linear in its first argument |
| Basic.ReflectionOf | src/raytracing/basic.h:357-362 | for a unit normal n, the vector `reflect` normalizes has dot product with n equal to `-dot(d, n)`, and it keeps the part of d orthogonal to n |
| Basic.ReflectionFacts | src/raytracing/basic.h:357-362 | the same two facts, stated of the expression `2n * dot(n, -d) - (-d)` as written |
| Basic.ApplyIdentity | src/objmodel.h:84 | the identity matrix maps every point to itself |
| Basic.Inverted | src/objmodel.h:69 | `inverted()` of a singular matrix is the identity, as Qt returns it |
| Basic.NewRay | src/raytracing/basic.h:396-403 | the four-argument `Ray` constructor stores the origin, tMax and time unchanged and the direction normalized |
| Basic.Calculate | src/raytracing/basic.h:414 | `calculate(0)` is the origin, and along a unit direction the point at t lies at distance abs(t) from the origin |
| Basic.TransformRay | src/raytracing/basic.h:416-427 | `transform` maps the origin through the matrix and keeps tMax and time. `Basic.TransformRayDirection` and `Basic.TransformRayUnit` state the new direction |
| Basic.ApplyDifference | src/raytracing/basic.h:417-422 | mapping a point and the point plus a vector and subtracting is the linear part applied to the vector: the translation cancels |
| Basic.TransformRayDirection | src/raytracing/basic.h:416-427 | for every ray and matrix the new direction is the old one mapped by the matrix's linear part, normalized, and normalized again by the `Ray` constructor. By `Basic.NormalizedIdempotent` that equals one normalization |
| Basic.TransformRayUnit | src/raytracing/basic.h:416-427 | the new direction is a unit vector unless the matrix maps the old direction to zero, and then it is zero |
| Basic.TransformRayIdentity | src/raytracing/basic.h:416-427 | transforming a ray with a unit direction by the identity gives the same ray |
| Basic.Intersection.constructor | src/raytracing/basic.h:378-385 | the default `Intersection` holds the default ray (origin 0, direction (0,0,1), tMax `kRayTMax`). Both t values are `kRayTMax`, both hit flags are false and there is no owning model |
| Basic.Intersection.FromRay | src/raytracing/basic.h:482-497 | `Intersection(ray)` starts with `m_t == m_model_t == ray.m_tMax`, both flags false and a null model |
| Basic.Intersection.Copy | src/raytracing/basic.h:465-480 | the copy constructor copies every field except the two hit flags, which it resets to false |
| Basic.Intersection.Assign | src/raytracing/basic.h:499-514 | `operator=` copies every field, flags included |
| Basic.Intersection.ModelIntersectAt | src/raytracing/basic.h:516-518 | `model_intersect(t)` is the point at t along the current ray |
| Geometry.IntersectPlane | src/geometry.cpp:4-27 | `intersectPlane` fails exactly when the determinant is 0, and on success alpha + beta + gamma == 1 |
| Geometry.IntersectTriangleSpec | src/geometry.cpp:29-37 | `intersectTriangle` holds iff the determinant is non-zero and all three coordinates are strictly positive. Such coordinates are then each below 1 |
| Geometry.VertexIsMiss | src/geometry.cpp:29-37 | a ray through a vertex of the triangle is a miss, because the test is strict |
| Geometry.ThroughFirstVertex | src/geometry.cpp:19-24 | through the first vertex both beta and gamma are 0 |
| Geometry.IntersectPlaneReversed | src/geometry.cpp:4-27 | reversing the ray negates the determinant and leaves the barycentric result unchanged: no distance along the ray is computed |
| Geometry.IntersectTriangleReversed | src/geometry.cpp:29-37 | the triangle test is the same for the reversed ray, so it is a test on the whole line |
| Geometry.IntersectRectangleReversed | src/geometry.cpp:39-45 | the rectangle test is the same for the reversed ray |
| Box.FromCorners | src/aabb.cpp:10-18 | the two-point constructor copies x, y and z of `minPoint` into the minima and of `maxPoint` into the maxima |
| Box.FromCornersIgnoresW | src/aabb.cpp:10-18 | the w components do not matter |
| Box.Transformed | src/aabb.cpp:25-52 | after `transform` min <= max on every axis, and each axis's {min, max} is exactly that axis's coordinates of the two mapped corners |
| Box.Transform | src/aabb.cpp:25-52 | the field-by-field `transform`, with its conditional swaps, computes `Transformed` |
| Box.TransformedIdentity | src/aabb.cpp:25-52 | the identity leaves a box with min <= max on every axis unchanged |
| Box.TransformedDefault | src/aabb.cpp:4-8 | the identity turns the default box into [-1e10, 1e10] on every axis |
| Box.DefaultBoxEmpty | src/aabb.cpp:4-8 | no point lies in the default box |
| Box.PointInCorners | src/aabb.cpp:54-62 | the closed test holds at the min corner, and at the max corner, exactly when min <= max on every axis |
| Box.Faces | src/aabb.cpp:66-79 | the box test uses six faces of four corners each |
| Box.IntersectsSpec | src/aabb.cpp:64-80 | the box test holds iff one of the six listed rectangles is hit |
| Box.IntersectsReversed | src/aabb.cpp:64-80 | the box test is the same for the reversed ray |
| Meshes.FanBound | src/mesh.h:121-122 | `num_vertice - 2` in `size_t` is k - 2 for k >= 2 and wraps to a bound above k below that |
| Meshes.StrictInsideClosed | src/mesh.h:184-203 | every triangle the strict geometry test accepts also passes the mesh's closed range test |
| Meshes.FirstVertexOnlyClosed | src/mesh.h:195-203 | a ray through the first vertex passes the closed mesh test but fails the strict test |
| Meshes.Mesh.Candidate | src/mesh.h:175-222 | a triangle gives a candidate exactly when its determinant is non-zero, its coordinates lie in the closed ranges and `kRayTMin <= t < m_t`, the world-channel best; the candidate's normal is the barycentric blend alpha·n0 + beta·n1 + gamma·n2 of the corner normals |
| Meshes.Mesh.FirstVertexCandidate | src/mesh.h:184-207 | a ray through the fan vertex of a non-degenerate triangle at a t in [kRayTMin, m_t) is a mesh candidate, while the strict geometry test rejects it |
| Meshes.Offer | src/mesh.h:224-239 | offering a hit changes only the model channel. It is accepted iff there is a hit and either there is no model hit yet or it is strictly nearer. An accepted hit is recorded with `model_intersected` set, point `calculate(t)` and the normalized blended normal. `m_model_t` never increases |
| Meshes.OfferBest | src/mesh.h:224-239 | offering a hit keeps "the state records the nearest of the candidates seen so far" |
| Meshes.Fold | src/mesh.h:118-128 | a sequence of offers changes only the model channel |
| Meshes.FoldAppend | src/mesh.h:120-127 | offering two runs of hits in turn is offering their concatenation |
| Meshes.FoldBest | src/mesh.h:118-128 | a whole run of offers keeps the nearest-candidate invariant |
| Meshes.Mesh.FaceUpToNext | src/mesh.h:122-126 | the fan loop of face i handles triangle n after triangles 1 to n-1 |
| Meshes.Mesh.FacesUpToNext | src/mesh.h:120-127 | the face loop handles face k after faces 0 to k-1 |
| Meshes.Mesh.IntersectIsFold | src/mesh.h:114-129 | `Mesh::intersect` is the offer of every triangle's candidate in face and fan order |
| Meshes.Mesh.IntersectBest | src/mesh.h:114-129 | the final state records the nearest of all candidates, and a box miss returns false with the `Intersection` unchanged |
| Meshes.Mesh.IntersectNearest | src/mesh.h:114-129 | from no model hit, it returns true iff some candidate exists, iff `model_intersected`. The recorded hit is then a candidate whose t is least among all |
| Meshes.Mesh.IntersectTriangle | src/mesh.h:175-240 | the private `intersectTriangle` updates the `Intersection` and returns as one offer of its candidate |
| Meshes.Mesh.IntersectFace | src/mesh.h:122-126 | the inner fan loop over one face computes its fold |
| Meshes.Mesh.Intersect | src/mesh.h:114-129 | the nested loops with their flag compute `IntersectSpec` |
| Models.Include | src/objmodel.h:157-162 | one min/max step contains the new point and every point the box already contained |
| Models.BoundsUpToContains | src/objmodel.h:147-162 | after the vertex loop every vertex position lies in `mesh_aabb` (closed) |
| Models.BoundsCanonical | src/objmodel.h:144-162 | after at least one vertex `mesh_aabb` has min <= max; with none it is the default box |
| Models.Union | src/objmodel.h:194-199 | the per-axis union contains every point of either box |
| Models.UnionDefault | src/objmodel.h:194-199 | the union with the default box is the other box, for boxes inside its range |
| Models.ObjModel.constructor | src/scene.cpp:202-207 | a new model has no meshes, the default box, and the matrix and coefficients it is given |
| Models.ObjModel.ProcessMesh | src/objmodel.h:137-199 | the mesh gets the vertex bounds, every vertex lies in them, the model box becomes their union with the old box, and nothing else changes |
| Models.ObjModel.AddMesh | src/objmodel.h:127 | loading a mesh appends it and widens the model box |
| Models.ObjModel.LocalStart | src/objmodel.h:68-72 | on entry the ray becomes the ray in the model frame, `model_intersected` is false, `m_model_t` is `kRayTMax`, and nothing else changes |
| Models.ObjModel.MeshesFold | src/objmodel.h:78-81 | the mesh loop is one fold over the candidates of every mesh in order |
| Models.ObjModel.MeshesBest | src/objmodel.h:78-81 | after the mesh loop the state records the nearest candidate of all meshes |
| Models.ObjModel.WorldT | src/objmodel.h:84-85 | `world_t` is defined iff the x direction is non-zero, and then it matches the x coordinate only |
| Models.AlongT | src/objmodel.h:84-85 | the parameter measured with the whole direction is defined iff the direction is non-zero |
| Models.AlongTRecovers | src/objmodel.h:84-85 | for a point on the ray it gives back the point's parameter, whatever the direction |
| Models.ObjModel.WorldTOnRay | src/objmodel.h:84-86 | for a world point on the world ray at t0, `world_t` is t0 whenever the direction has an x component, agreeing with `AlongT`. A non-zero direction with no x component has no `world_t`, although `AlongT` gives t0 |
| Models.ObjModel.IntersectWorld | src/objmodel.h:66-95 | the ray and colour modifier end as they started, and `m_t` never increases. It returns `model_intersected`. The world channel changes iff there is a hit with `world_t < m_t`, and then it holds this model, `world_t`, the mapped point and the normalized mapped normal. On a box miss only the model channel is reset |
| Models.ObjModel.IntersectNearest | src/objmodel.h:66-95 | it returns true iff the box is hit and some candidate exists, and the model channel records a nearest candidate |
| Models.ObjModel.RunMeshes | src/objmodel.h:78-81 | the mesh loop computes `MeshesUpTo` |
| Models.ObjModel.PromoteHit | src/objmodel.h:82-93 | restoring the ray and promoting computes `Promote` |
| Models.ObjModel.Intersect | src/objmodel.h:66-95 | `ObjModel::intersect` computes `IntersectSpec` |
| Lights.Code | src/light.h:9 | the enum values are 0, 1 and 2 |
| Lights.NewLight | src/light.h:13 | `Light()` carries tag `LightBase` |
| Lights.NewColoredLight | src/light.h:14 | `Light(color)` carries tag `LightBase` and the colour |
| Lights.NewPointLight | src/light.h:24 | `PointLight()` carries tag `PointLight` |
| Lights.NewPointLightAt | src/light.h:25 | `PointLight(color, position)` carries tag `PointLight` and stores both arguments unchanged |
| Lights.NewParallelLight | src/light.h:34 | `ParallelLight` carries tag `ParallelLight` and a unit direction, equal to the argument when that is already a unit vector |
| SceneFiles.ToInt | src/scene.cpp:166 | `toInt` of an integral number in the 32-bit range is that number, and every other value (fractional, out of range, not a number) gives the default 0 |
| SceneFiles.VectorRoundTrip | src/scene.cpp:126-140 | loading a saved vector gives it back, and the saved object has exactly the keys x, y and z |
| SceneFiles.TransposeRowColumn | src/scene.cpp:145-148 | element c*4+r lands in slot r*4+c |
| SceneFiles.TransposeInvolution | src/scene.cpp:145-148 | the index map is its own inverse |
| SceneFiles.TransposeInjective | src/scene.cpp:145-148 | no two elements land in the same slot |
| SceneFiles.TransposeOnto | src/scene.cpp:145-148 | every slot is filled |
| SceneFiles.LoadedEntry | src/scene.cpp:142-152 | slot r*4+c of the loaded matrix is JSON element c*4+r |
| SceneFiles.MatrixRoundTrip | src/scene.cpp:142-162 | loading a saved matrix gives back its stored values in transposed order, that is, the matrix itself |
| SceneFiles.LoadQMatrix4x4 | src/scene.cpp:142-152 | the nested loop computes `LoadedMatrix` |
| SceneFiles.SaveQMatrix4x4 | src/scene.cpp:154-162 | the save loop computes `SavedMatrix` |
| SceneFiles.LoadLight | src/scene.cpp:164-179 | a light is produced iff the type is the point or the parallel code, and then it has that type |
| SceneFiles.SaveLightKeys | src/scene.cpp:181-196 | a point light is saved with `type`, `light_color` and `light_position`, and a parallel light with `type`, `light_color` and `light_direction` |
| SceneFiles.LightRoundTrip | src/scene.cpp:164-196 | loading a saved point or parallel light (unit direction) gives it back; a base light loads as nothing |
| Scenes.Scene.constructor | src/scene.cpp:12-15 | a new scene has no lights, flags or models |
| Scenes.Scene.StepWorld | src/scene.cpp:329-333 | one model keeps the ray and colour modifier and never increases `m_t`. `intersected` grows by that model's result. The world channel stays the same or moves to a strictly nearer hit owned by that model |
| Scenes.Scene.IntersectFlag | src/scene.cpp:326-335 | after the loop over the first k models `intersected` holds iff it held before or some model returned true |
| Scenes.Scene.IntersectWorld | src/scene.cpp:326-335 | over the loop `m_t` never increases. The world channel is unchanged or strictly nearer and owned by one of the models |
| Scenes.Scene.IntersectOwner | src/scene.cpp:326-335 | the owner after the query is the one before it or one of the scene's models |
| Scenes.Scene.Intersect | src/scene.cpp:326-335 | `Scene::intersect` computes `IntersectSpec`, calling the models in list order |
| Scenes.Scene.RunModel | src/scene.cpp:330-332 | one iteration computes the next model's step |
| Scenes.Scene.LoadLights | src/scene.cpp:49-55 | each loaded light appends one light and one `true` flag, so the pairing of lights and flags is kept |
| Scenes.Scene.LoadModels | src/scene.cpp:57-62 | loading appends to `models` without clearing it, so loading twice duplicates the models |
| Scenes.LoadedLights | src/scene.cpp:49-55 | the loaded lights are the loaded JSON entries in order, and none is a base light |
| Lighting.Max0 | src/locallighting.cpp:36 | `x < 0 ? 0 : x` is non-negative and keeps a non-negative x |
| Lighting.InShadow | src/locallighting.cpp:50-69 | `inShadow` computes `Shadowed` |
| Lighting.PointShadowRayReaches | src/locallighting.cpp:52-56 | the shadow ray of a point light starts at the light, has a unit direction, and reaches the point at its distance from the light |
| Lighting.ParallelShadow | src/locallighting.cpp:61-67 | a point is shadowed from a parallel light iff some model reports a hit on the ray cast against the light direction |
| Lighting.PointLitByModel | src/locallighting.cpp:52-59 | a point away from the origin that counts as lit by a point light is lit through a hit on one of the models, nearer than `kRayTMax` |
| Lighting.EmptySceneShadows | src/locallighting.cpp:50-69 | without models a parallel light shadows nothing, while a point light shadows every point not within 1e-6 of the origin |
| Lighting.LightDirection | src/locallighting.cpp:25-34 | for a parallel light L is the stored direction. For a point light L is the unit vector towards the light |
| Lighting.Diffusion | src/locallighting.cpp:35-36 | the diffuse factor is never negative |
| Lighting.Specularity | src/locallighting.cpp:39-43 | the specular factor is never negative, for a `pow` that is non-negative on non-negative bases |
| Lighting.ShadowsUpTo | src/locallighting.cpp:20 | one shadow result per light |
| Lighting.ShadowAt | src/locallighting.cpp:20 | shadow entry i is `inShadow` of light i |
| Lighting.PhongLighting | src/locallighting.cpp:10-48 | the loop computes `PhongSpec`: the sum, from black, of the terms of the enabled lights that are not in shadow |
| Lighting.ShadeLight | src/locallighting.cpp:19-45 | one iteration adds light i's term iff its flag is set and it is not in shadow |
| Lighting.LightColor | src/locallighting.cpp:22-44 | the term is `ka*c + max(0, n.L)*c + max(0, V.reflect(L, n))^n * ks*c` |
| Lighting.PhongDark | src/locallighting.cpp:16-47 | with every light disabled or in shadow the colour is black |
| Lighting.SwitchOff | src/locallighting.cpp:19 | a disabled light contributes nothing: disabling light i subtracts exactly its term |
| Lighting.SamePrefix | src/locallighting.cpp:18-19 | the sum over the first k lights depends only on their flags |
| Lighting.TermNonNegative | src/locallighting.cpp:22-44 | with non-negative colour and coefficients each light's term is non-negative |
| Lighting.PhongNonNegative | src/locallighting.cpp:16-47 | the Phong sum of non-negative terms is non-negative |
| Lighting.SceneDark | src/locallighting.cpp:16-47 | with no enabled light out of shadow in the scene, the result is black |
| Lighting.SceneNonNegative | src/locallighting.cpp:16-47 | with non-negative light colours and coefficients the scene's Phong colour is non-negative |
| Images.Image.constructor | src/raytracingscene.h:44-45 | the image has the given width and height, `width * height` pixels, all black |
| Images.Image.Index | src/raytracingscene.h:52-55 | `y * m_width + x` is a slot of the buffer for an in-range pixel |
| Images.Image.SetPixel | src/raytracingscene.h:52-55 | assigning through `pixel(x, y)` changes that pixel and no other |
| Images.IndexInjective | src/raytracingscene.h:52-55 | distinct in-range pixels have distinct slots |
| Images.IndexOnto | src/raytracingscene.h:52-55 | every slot belongs to exactly one pixel |
| Tiles.ChunkSize | src/raytracingscene.cpp:188-189 | the chunk size is at least 1, and 1 for axes shorter than 4 |
| Tiles.Chunks | src/raytracingscene.cpp:193-196 | there is at least one chunk |
| Tiles.TileEnd | src/raytracingscene.cpp:206-210 | a chunk ends at the image edge at the latest |
| Tiles.InTileIff | src/raytracingscene.cpp:205-210 | a pixel lies in chunk c iff c is its index divided by the chunk size |
| Tiles.ChunkExtent | src/raytracingscene.cpp:188-196 | except for lengths 3 and 4 the chunks reach the edge, and the last chunk starts inside the axis |
| Tiles.TilesCover | src/raytracingscene.cpp:188-210 | for lengths other than 3 and 4 every pixel lies in one of the chunks |
| Tiles.TilesDisjoint | src/raytracingscene.cpp:205-210 | no pixel lies in two chunks |
| Tiles.TilesNonEmpty | src/raytracingscene.cpp:205-210 | every chunk of a non-empty axis holds a pixel |
| Tiles.TilesMissEdge | src/raytracingscene.cpp:188-196 | lengths 3 and 4 get two one-pixel chunks, and pixels 2 and up lie in none |
| Tiles.ChunksBound | src/raytracingscene.cpp:182-196 | an axis gets at most 7 chunks, and exactly 7 for length 7 |
| Tiles.ThreadIndexBijective | src/raytracingscene.cpp:199-211 | `yc * xChunks + xc` is below `numRenderThreads` and distinct for distinct chunk pairs |
| Tiles.ThreadIndexOnto | src/raytracingscene.cpp:199-211 | every thread slot belongs to a chunk pair |
| Tiles.IntendedChunkSize | src/raytracingscene.cpp:182-189 | the rounded-up chunk size is at least 1 and four chunks of it reach the edge |
| Tiles.IntendedTileIff | src/raytracingscene.cpp:182-196 | in the rounded-up split a pixel lies in chunk c iff it is on the axis and c is its quotient by the chunk size, and that chunk is one of the chunks: every pixel of every length is drawn, by one chunk |
| Tiles.IntendedChunksBound | src/raytracingscene.cpp:182-196 | the rounded-up split has at most four chunks per axis |
| Tiles.IntendedThreadsBound | src/raytracingscene.cpp:182-199 | the rounded-up split starts at most 16 threads |
| RayTracing.FrameOrthonormal | src/raytracingscene.cpp:25-31 | for a front not parallel to the up direction, forward, right and up are unit vectors orthogonal in pairs |
| RayTracing.PerspectiveCamera.constructor | src/raytracingscene.cpp:18-32 | the constructor stores the origin, `tan(fov * pi / 180)`, the axes, and the near and focal distances |
| RayTracing.PerspectiveCamera.ModifyPose | src/raytracingscene.cpp:39-46 | `modifyPose` sets the same pose and keeps the near and focal distances |
| RayTracing.PerspectiveCamera.MakeRay | src/raytracingscene.cpp:48-57 | the ray starts at the origin with the default tMax and time, along the normalized `forward + right*(x-0.5)*tanFov + up*(y-0.5)*tanFov` |
| RayTracing.PerspectiveCamera.MakeRayCentre | src/raytracingscene.cpp:48-57 | at (0.5, 0.5) the ray goes along the forward axis |
| RayTracing.PerspectiveCamera.MakeRayForward | src/raytracingscene.cpp:48-57 | with orthonormal axes every primary ray is a unit vector pointing forward |
| RayTracing.PerspectiveCamera.ScreenEdge | src/raytracingscene.cpp:48-54 | with orthonormal axes the centre of the top screen edge lies one unit along forward and `m_tanFov / 2` along up, so the vertical half opening has tangent `m_tanFov / 2` |
| RayTracing.Combine | src/raytracingscene.cpp:122-126 | the combined colour is clamped into [0, 1] |
| RayTracing.Hit | src/raytracingscene.cpp:107-116 | a shaded hit is owned by one of the scene's models and was reported by `scene.intersect` |
| RayTracing.Trace | src/raytracingscene.cpp:103-127 | every traced colour lies in [0, 1] |
| RayTracing.TraceHit | src/raytracingscene.cpp:107-126 | the colour of a ray with depth left lies in [0, 1] |
| RayTracing.TraceRay | src/raytracingscene.cpp:103-127 | `traceRay` computes `Trace` |
| RayTracing.ShadeHit | src/raytracingscene.cpp:110-126 | a hit's colour is `Combine` of the local colour with the reflected and transmitted colours, each traced one level deeper: the sum local + `ks` times reflected + `kt` times transmitted, clamped as a whole to [0, 1] |
| RayTracing.TraceSecondary | src/raytracingscene.cpp:117-121 | the reflection and transmission rays are traced with one level less |
| RayTracing.FindHit | src/raytracingscene.cpp:107-109 | the scene query computes `Hit` |
| RayTracing.TraceEmpty | src/raytracingscene.cpp:107-109 | with no models nothing is hit and every ray is black |
| RayTracing.TraceDepthOne | src/raytracingscene.cpp:103-127 | at depth 1 the colour is black on a miss and otherwise the clamped local colour, since both recursive calls return black |
| RayTracing.Pow2 | src/raytracingscene.cpp:117-121 | a power of two is positive |
| RayTracing.TraceCallsBound | src/raytracingscene.cpp:117-121 | a trace at depth d makes fewer than 2^(d+1) calls in all |
| RayTracing.ScreenSquare | src/raytracingscene.cpp:87-91 | neighbouring pixels are `1/height` apart on both screen axes, row 0 maps to `yu = 1`, and the middle column to x = 0.5 |
| RayTracing.SampledColorTrace | src/raytracingscene.cpp:82-96 | with one sample the box filter leaves the traced colour |
| RayTracing.PixelColorTrace | src/raytracingscene.cpp:82-98 | a pixel's colour is the trace of its primary ray |
| RayTracing.RenderThread.constructor | src/raytracingscene.cpp:59-66 | the thread stores its rectangle, image, scene, camera and depth |
| RayTracing.RenderThread.Run | src/raytracingscene.cpp:69-101 | `run` writes each pixel of its rectangle with that pixel's traced colour and leaves every other pixel unchanged |
| RayTracing.RenderThread.RunRow | src/raytracingscene.cpp:79-99 | one row of the rectangle is written, and nothing else |
| RayTracing.RenderThread.Sample | src/raytracingscene.cpp:82-96 | the sample sum divided by the sample count is the pixel's colour |
| RayTracing.RenderThread.SumSamples | src/raytracingscene.cpp:82-94 | the sample loop adds one traced colour of the pixel's primary ray per pass, from black |
| RayTracing.RenderThread.PrimaryRay | src/raytracingscene.cpp:87-91 | the ray of a sample is the camera ray of the pixel |
| RayTracing.DrawnCover | src/raytracingscene.cpp:188-221 | all pixels are drawn when neither side is 3 or 4. Columns (or rows) from 2 on are never drawn when the width (or height) is 3 or 4 |
| RayTracing.RenderRayTracing | src/raytracingscene.cpp:173-252 | a fresh width by height image in which every drawn pixel holds its traced colour and every other pixel is black |
| RayTracing.RenderRow | src/raytracingscene.cpp:203-221 | the threads of chunk row yc draw exactly the pixels of that row of tiles |
| Cameras.Opposite | src/camera.h:10-17 | every move has a distinct opposite |
| Cameras.CameraAxesOrthonormal | src/camera.cpp:114-124 | the axes `updateCameraVectors` computes are the renderer's frame for the Euler front, and orthonormal |
| Cameras.RadiansFrontOffUp | src/camera.cpp:76-81 | with yaw and pitch converted to radians, every pitch the clamp to [-89, 89] admits keeps the front off the default world up, and the camera axes are orthonormal |
| Cameras.DegreesFrontOnUp | src/camera.cpp:114-121 | as written, a pitch at which `cos` vanishes makes the front parallel to the world up |
| Cameras.MovedDisplacement | src/camera.cpp:50-65 | `processKeyboard` moves by exactly `velocity` along plus or minus front, right or up |
| Cameras.MovedDistance | src/camera.cpp:50-65 | the squared distance moved is `velocity` squared times the squared length of the axis |
| Cameras.MovedOpposite | src/camera.cpp:50-65 | a move followed by the opposite move with the same `dt` returns to the start |
| Cameras.PairMoved | src/camera.cpp:100-111 | a pair of opposite keys moves by the difference of their states, in either order |
| Cameras.InputMovedClosedForm | src/camera.cpp:97-112 | `processInput` moves by `(W - S) * v` along front, `(D - A) * v` along right and `(Q - E) * v` along up |
| Cameras.InputOnlySixKeys | src/camera.cpp:97-112 | only W, S, A, D, Q and E matter, and with none of them held the position is unchanged |
| Cameras.ScrolledZoom | src/camera.cpp:87-95 | zoom always ends in [1, 45]. From an in-range zoom it drops by exactly `yoffset` when the result stays in range, and is held at the limit otherwise. An out-of-range zoom goes to the nearer limit |
| Cameras.ClampedPitch | src/camera.cpp:76-81 | the clamped pitch lies in [-89, 89] and an in-range pitch is unchanged |
| Cameras.Camera.constructor | src/camera.cpp:4-7 | `Camera()` leaves all 1024 keys released |
| Cameras.Camera.WithPose | src/camera.cpp:9-19 | the constructor stores its arguments (with the defaults of src/camera.h:22-26), computes the axes and releases all 1024 keys |
| Cameras.Camera.ReleaseKeys | src/camera.cpp:17-18 | the loop sets all 1024 keys to false |
| Cameras.Camera.Set | src/camera.cpp:26-39 | `set` stores its arguments and recomputes the axes |
| Cameras.Camera.UpdateCameraVectors | src/camera.cpp:114-124 | front, right and up become the axes of the current yaw, pitch and world up |
| Cameras.Camera.ProcessKeyboard | src/camera.cpp:50-65 | the position moves by `movementSpeed * dt` in the given direction |
| Cameras.Camera.ProcessMouseMovement | src/camera.cpp:68-84 | yaw and pitch grow by the scaled offsets. With `constrainPitch` (the default) the pitch is clamped into [-89, 89]. The axes are recomputed |
| Cameras.Camera.ProcessMouseScroll | src/camera.cpp:87-95 | zoom becomes `ScrolledZoom` of its old value |
| Cameras.Camera.ProcessInput | src/camera.cpp:97-112 | the position makes the six key-driven moves in source order |
| Cameras.Camera.ProcessKey | src/camera.cpp:100-111 | one `if (keys[k]) processKeyboard(...)` |

## Left out

- Floating point: the model computes over exact reals. Rounding, overflow to infinity and NaN are not modelled. `sqrt`, `pow`, `tan`, `sin` and `cos` are parameters with only the facts of `RealMath.Sound` assumed.
- Qt's `QVector3D::normalized`, which returns a near-unit vector unchanged, is modelled by the same normalization as `Vector::normalized`.
- QMatrix4x4 is an affine map: three rows plus a translation. `inverted()` is the adjugate over the determinant, and the identity for a singular matrix. That the inverse undoes the matrix is not proved.
- Basic.Inverted: the contract states only the singular case; the inverse property is not part of it.
- Lighting.ShadowRay, Lighting.Shadowed, Lighting.InShadow, Lighting.LightDirection, Lighting.Diffusion, Lighting.Specularity, Lighting.LightTerm, Lighting.Contribution, Lighting.Lit, Lighting.LightColor, Lighting.EmptySceneShadows, Lighting.TermNonNegative and Scenes.Scene.LightsValid require a point or a parallel light. The source casts every light that is not a point light to `ParallelLight*` without a check (src/locallighting.cpp:32 and 63), which is undefined for a base `Light`, so that case is not modelled. `loadLight` creates only point and parallel lights (src/scene.cpp:170 and 176), so every loaded scene meets the requirement (`Scenes.LoadedLights`).
- Models.ObjModel.WorldT: a zero x direction gives no world t, and the hit is then not promoted. The source divides by zero in floating point.
- RayTracing.Hit: a hit reported without an owning model counts as no hit. The source would dereference a null `m_pModel`.
- Threads: the render threads write disjoint rectangles (proved by `Tiles.TilesDisjoint` and `Images.IndexInjective`), so `renderRayTracing` runs them one after another. Thread start, the busy-wait join and their deletion are not modelled.
- RayTracing.Aspect and the pixel mapping require a non-zero height. A zero-sized image draws no pixel, so the division by zero in the source has no effect there.
- The `RayTracingCamera` interface and the default `PerspectiveCamera()` constructor are not modelled: the only camera is `PerspectiveCamera`.
- `Camera()` leaves the pose fields uninitialised in the source. The model gives them arbitrary values and states only the key table.
- `getViewMatrix`/`lookAt`, all OpenGL drawing, mesh buffers, textures, Assimp and stb_image model loading, and the unused texture sampling helpers are foreign or UI code and are not modelled. Of `processMesh`, only the box accumulation is modelled.
- Of the scene-file code, only the matrix index map, vector objects and light keys are modelled. Reading and writing files, parsing JSON, and the camera and model entries are not modelled.
- Setting `keys[]` from key events happens in src/openglscene.cpp, which is not part of this model.
- The 8-bit ARGB packing of the rendered image is UI code and is not part of this model.
- The inverse of the barycentric test is not proved: that `alpha*p1 + beta*p2 + gamma*p3` lies on the ray's line.
- Meshes.Mesh.Valid requires at least two indices per face and in-range vertex indices. With fewer indices the source's loop bound wraps (`Meshes.FanBound`) and reads out of bounds.
- The aspect-ratio-as-fov call in src/mainwindow.cpp is not part of this model.

## Known defects modelled as written

Each defect below is kept in the model, and the named member shows it.
Where the intended behaviour is evident, a corrected definition stands
beside it with the intended property proved. The rest of the model keeps
the code as written.

- **Tiles miss pixels for sides 3 and 4.** For a width or height of 3 or 4 the chunks cover only pixels 0 and 1, so pixels 2 and up stay black (`Tiles.TilesMissEdge`, `RayTracing.DrawnCover`). Corrected: with the chunk size rounded up, ceil(w / 4), and ceil(w / size) chunks, every pixel of every length lies in exactly one chunk (`Tiles.IntendedChunkSize`, `Tiles.InIntendedTile`, `Tiles.IntendedTileIff`).
- **Too many threads.** An axis can get up to 7 chunks, so up to 49 threads instead of the intended 16 (`Tiles.ChunksBound`). Corrected: the rounded-up split has at most four chunks per axis, so at most 16 threads (`Tiles.IntendedChunksBound`, `Tiles.IntendedThreadsBound`).
- **World t from x alone.** `world_t` is recovered from the x component only (`Models.ObjModel.WorldT`). For a world point on the world ray this gives the right parameter whenever the direction has an x component, but a ray along the y-z plane loses its hit. Corrected: `Models.AlongT` projects onto the whole direction, is defined for every non-zero direction and gives back the parameter of any point on the ray (`Models.AlongTRecovers`). `Models.ObjModel.WorldTOnRay` compares the two.
- **Local t against world t.** The mesh compares a model-frame t against the world-channel best `m_t` (`Meshes.Mesh.Candidate`).
- **Normal mapped as a point.** The normal is mapped through the full model matrix, translation included, like a point (`Models.ObjModel.IntersectWorld`).
- **Wrapping loop bound.** `num_vertice - 2` wraps for faces with fewer than two indices (`Meshes.FanBound`).
- **Closed and strict triangle tests disagree.** The mesh accepts a ray through its fan vertex as a candidate, which the geometry test rejects (`Meshes.Mesh.FirstVertexCandidate`, `Meshes.FirstVertexOnlyClosed`, `Geometry.VertexIsMiss`).
- **`loadLight` without a return.** It returns nothing for a type other than point or parallel (`SceneFiles.LoadLight` yields `None`). Loading a scene requires well-typed lights (`Scenes.Loadable`).
- **Point-light shadows in an empty scene.** Without models, a point light shadows every point away from the origin, because the default hit point is the origin (`Lighting.EmptySceneShadows`).
- **Tolerance `==` is not transitive** (`Basic.ApproxEqNotTransitive`).
- **Copy and assignment disagree.** The copy constructor drops the hit flags that `operator=` keeps (`Basic.Intersection.Copy`, `Basic.Intersection.Assign`).
- **Degrees fed to `cos` and `sin`.** The pitch is clamped to 89 in degrees, but `updateCameraVectors` passes yaw and pitch straight to `cos` and `sin`, which take radians (`Cameras.EulerFront`). The real cosine vanishes at pi/2, so at a pitch of about 1.571, which the clamp admits, and there the front is parallel to the world up and the right axis degenerates (`Cameras.DegreesFrontOnUp`). Corrected: with both angles converted by `Cameras.Radians`, and with `Cameras.TrigSound` stating sin^2 + cos^2 = 1 and cos > 0 inside (-pi/2, pi/2), every clamped pitch leaves the axes orthonormal (`Cameras.RadiansFrontOffUp`).
- **Full angle to `tan`.** The perspective camera takes `tan` of the full field of view rather than half of it (`RayTracing.TanFov`). No corrected definition is given, because it is not evident which one was meant. `makeRay` multiplies `m_tanFov` by `yScreen - 0.5`, which is at most 1/2, so the vertical half opening has tangent `m_tanFov / 2` (`RayTracing.PerspectiveCamera.ScreenEdge`). An opening of `fov` needs `m_tanFov = 2 tan(fov / 2)`. Taking `tan` of the half angle alone would still not give it, and neither the code nor its comments say how `fov` is meant.
