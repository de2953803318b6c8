# Ray tracer scene queries and pixel dispatch, in Dafny

This project models the core of a CPU Whitted-style ray tracer (GP1_RayTracer_2223).

- **The scene** (`Scene.cpp`) holds five append-only tables: spheres, planes, triangle meshes, lights and materials.
  - `GetClosestHit` offers every primitive's hit to a caller-supplied record. The order is spheres, then planes, then meshes. It keeps a hit only when the test reports one and the hit is strictly closer than the record so far.
  - `DoesHit` answers whether any primitive blocks a ray. It stops at the first one that does.
- **The renderer** (`Renderer.cpp`) owns the window's pixel buffer.
  - For each flat pixel index it finds the row and column, skips rows whose parity does not match the frame counter, and casts a view ray.
  - It sums the contribution of every light that is not in shadow under one of four lighting modes, then writes the pixel's own slot.
  - It dispatches the pixels synchronously, as contiguous tasks for a number of cores, or through a parallel-for.

The floating-point kernels live in headers that are not part of this model. These are the ray–primitive tests, light direction and radiance, `Material::Shade`, `Normalize`, `MaxToOne`, `SDL_MapRGB` and the camera projection. They are the fields of `Externals.Numerics`, a datatype of total functions passed in as a parameter. Every property below holds for any such kernels. In the BRDF and Combined lighting modes, which look up the hit's material, the rendering properties add one condition on the kernels, `Externals.ReportsValidMaterials`: a hit on one of the scene's own primitives names a material the scene has. The ObservedArea and Radiance modes need no such condition. `Externals.OwnMaterialsAreValid` shows that this condition holds when the tests report the hit primitive's own material index and every primitive of the scene names an existing material. Colours and vectors are triples of reals.

Files:
- `maths.dfy`: vectors, colours, `byte`, `Pixel`, and C++ remainder.
- `geometry.dfy`: rays, hit records, primitives, lights, materials, the scene snapshot `World`, and the abstract kernels.
- `traversal.dfy`: what the two scene queries compute, and the lemmas about the closest-hit fold.
- `scene.dfy`: the `Scene` class.
- `partition.dfy`: the per-core task split.
- `shading.dfy`: the per-light accumulation, the lighting-mode cycle and interlacing.
- `renderer.dfy`: the `Renderer` class.

Behaviour of the code that the model keeps:
- Only a sphere winner has its normal normalized. Plane and mesh winners are kept as the test returned them.
- On an exact tie the primitive tested first wins, because the keep test is a strict `<`.
- The shadow ray has `tMin = 0` and starts at the hit point nudged 0.0001 along the normal.
- A fresh `HitRecord` starts at the largest finite `float`. The class declaration is not part of this model, so this follows the framework's usual default. No proved property depends on the value.

## Model

| member | source | states |
|---|---|---|
| Scenes.Scene.constructor | source/Scene.cpp:9-16 | a new scene has no geometry and no lights, and exactly one material, solid red, at index 0; vacuously, every primitive names an existing material |
| Scenes.Scene.GetClosestHit | source/Scene.cpp:29-92 | the result is the strict-less fold of the sphere, then plane, then mesh reports over the incoming record, with one temporary shared by all tests; its `t` never exceeds the incoming `t` |
| Traversal.SweepOf | source/Scene.cpp:42-50 | one primitive loop yields exactly one report per primitive |
| Traversal.AllReports | source/Scene.cpp:42-87 | the closest-hit query sees exactly one report per sphere, plane and mesh |
| Traversal.ClosestKeepsIncoming | source/Scene.cpp:42-87 | with no reported hit strictly closer than the incoming record, the record comes back unchanged |
| Traversal.ClosestIsFirstNearest | source/Scene.cpp:42-87 | when some reported hit is strictly closer than the incoming record, the result is the record of the winning report: a hit strictly closer than the incoming one, strictly closer than every earlier hit (ties go to the first tested), and no farther than any later hit |
| Traversal.ClosestIsMinimum | source/Scene.cpp:45-49 | the kept `t` never increases, it is at most the `t` of every reported hit, and the result is the incoming record or the record of a reported hit |
| Traversal.ClosestAppend | source/Scene.cpp:61-87 | running the loops one after another equals one fold over the concatenated reports |
| Traversal.SweepReportsValidMaterials | source/Scene.cpp:45-47 | if a test reports only valid material indices for hits on the swept primitives, every hit report of a loop carries a valid index |
| Traversal.ClosestHitHasValidMaterial | source/Renderer.cpp:129-130 | starting from a fresh record, the closest hit names a material the scene has whenever hits on the scene's own primitives do, so the material lookups of the BRDF and Combined modes stay in range |
| Externals.OwnMaterialsAreValid | source/Renderer.cpp:166-175 | tests that report the hit primitive's own material index name only existing materials, provided every sphere, plane and mesh of the scene names one |
| Scenes.Scene.DoesHit | source/Scene.cpp:94-145 | the answer is true iff some sphere, plane or mesh any-hit test reports a hit; with all three tables empty it is false |
| Scenes.Scene.AddSphere | source/Scene.cpp:148-157 | appends exactly one sphere with the given fields, answers its index, and changes no other table; when every primitive named an existing material and the new one's index is in range, every primitive still does; the material table stays non-empty |
| Scenes.Scene.AddPlane | source/Scene.cpp:159-168 | appends exactly one plane with the given fields, answers its index, and changes no other table; when every primitive named an existing material and the new one's index is in range, every primitive still does; the material table stays non-empty |
| Scenes.Scene.AddTriangleMesh | source/Scene.cpp:170-178 | appends exactly one empty mesh with the given cull mode and material, and changes no other table; when every primitive named an existing material and the new one's index is in range, every primitive still does; the material table stays non-empty |
| Scenes.Scene.AddPointLight | source/Scene.cpp:180-190 | appends exactly one light of type Point with the given origin, intensity and colour, and changes no other table; if every primitive named an existing material before, every primitive still does; the material table stays non-empty |
| Scenes.Scene.AddDirectionalLight | source/Scene.cpp:192-202 | appends exactly one light of type Directional with the given direction, intensity and colour, and changes no other table; if every primitive named an existing material before, every primitive still does; the material table stays non-empty |
| Scenes.Scene.AddMaterial | source/Scene.cpp:204-208 | appends the material and answers the old count mod 256, which indexes the new material while the table has at most 256 entries; if every primitive named an existing material before, every primitive still does |
| Partition.PlanTasks | source/Renderer.cpp:50-76 | there are `numCores` tasks of `N / cores` pixels each, plus one for exactly the first `N % cores` tasks; they lie end to end from 0 to `numPixels` |
| Partition.ChainSize | source/Renderer.cpp:57-75 | tasks laid end to end have sizes summing to the length of the range they tile |
| Partition.ChainOrdered | source/Renderer.cpp:67-75 | an earlier task ends no later than a later one starts, so the write sets are pairwise disjoint |
| Partition.ChainCoversOnce | source/Renderer.cpp:52-76 | a pixel index lies in some task iff it is in `[0, numPixels)`, and it lies in at most one task |
| Shading.PixelCoords | source/Renderer.cpp:113-117 | `px = i % W` and `py = i / W` satisfy `0 <= px < W` and `px + py * W == i` |
| Shading.PixelRowInImage | source/Renderer.cpp:113 | a pixel index below `W * H` lies on a row below `H` |
| Maths.TruncRem | source/Renderer.cpp:114 | C++ `%` agrees with the Euclidean remainder on non-negative operands and is non-positive on negative ones |
| Shading.InterlaceAlternates | source/Renderer.cpp:114-115 | of two consecutive non-negative frame counters, exactly one shades any given row |
| Maths.ClampToZero | source/Renderer.cpp:156 | `max(x, 0)` is non-negative, at least `x`, and one of `x` and 0 |
| Shading.ObservedAreaOf | source/Renderer.cpp:156 | the cosine term a light adds is non-negative |
| Shading.ObservedAreaIsGrey | source/Renderer.cpp:153-160 | in ObservedArea mode the accumulated colour has three equal, non-negative channels |
| Shading.ShadowedLightsContributeNothing | source/Renderer.cpp:142-148 | with shadows on, the colour equals that of the unshadowed lights alone with shadows off: a light whose shadow ray is blocked adds nothing |
| Shading.UnshadowedMembers | source/Renderer.cpp:142-148 | a light is among the lights the loop does not skip iff it is one of the scene's lights and its shadow ray is clear |
| Shading.AccumulateAppend | source/Renderer.cpp:137-182 | the lights contribute independently: the loop over two light lists sums the two loops' colours |
| Shading.PixelColor | source/Renderer.cpp:127-183 | with no closest hit the colour is black; in ObservedArea mode it is a non-negative grey |
| Shading.NextModeCycles | source/Renderer.cpp:201-204 | the mode cycle visits ObservedArea, Radiance, BRDF and Combined in turn; no mode is its own successor, and four steps restore any mode |
| Rendering.Renderer.CycleLightingMode | source/Renderer.cpp:201-204 | the mode becomes the next one, `(mode + 1) % 4`, and nothing else changes |
| Rendering.Renderer.constructor | source/Renderer.cpp:23-31 | the buffer has one pixel per window pixel, `width * height` |
| Rendering.Renderer.RenderPixel | source/Renderer.cpp:111-194 | a pixel whose row parity differs from the counter's leaves the buffer unchanged; otherwise exactly its own slot receives the packed, clamped colour of its view ray |
| Rendering.Renderer.ShadeHit | source/Renderer.cpp:133-183 | the lights loop leaves the sum, over lights not skipped by the shadow test, of each light's term under the current mode; it needs the hit's material index in range only in the BRDF and Combined modes, the only ones that read the material table |
| Rendering.Renderer.Render | source/Renderer.cpp:93-101 | the synchronous loop renders every index `0..numPixels-1` in ascending order: each slot holds its pixel's value if its row is due, its old content otherwise |
| Rendering.Renderer.RenderTask | source/Renderer.cpp:65-72 | one task renders exactly the indices of its range and leaves every other slot alone |
| Rendering.Renderer.RenderAsync | source/Renderer.cpp:44-83 | the task-based render leaves the same buffer as the synchronous one |
| Rendering.Renderer.RenderInOrder | source/Renderer.cpp:85-91 | rendering the indices in any order that reaches all of them leaves the same buffer as the synchronous render |

## Left out

- Rendering.Renderer.RenderAsync: runs the tasks one after another. `std::async` and `future::wait` are not modelled. The disjointness of the task ranges (Partition.ChainCoversOnce) is what makes the concurrent run equal to this one.
- Rendering.Renderer.RenderInOrder: `concurrency::parallel_for` is modelled as a sequential visit in an order chosen by the scheduler. Interleaving within one pixel is not modelled.
- Partition.PlanTasks: requires `numCores > 0`. `std::thread::hardware_concurrency()` may return 0, and then the source divides by zero.
- Rendering.Renderer.Render: `numPixels = m_Width * m_Height` is taken as an unbounded integer. A window so large that the product overflows `uint32_t` is not modelled.
- Rendering.Renderer.RenderPixel: in the BRDF and Combined modes, requires that a hit a closest-hit test reports on one of the scene's own primitives names an existing material (`Externals.ReportsValidMaterials`). Only those two modes read `materials`, and the source does so without a check, so a BRDF or Combined render of a scene whose primitive names a missing material reads out of bounds. The model does not cover that undefined behaviour. The same condition is on Render, RenderTask, RenderAsync and RenderInOrder.
- Shading.MaterialOf: for an out-of-range material index, where the source's lookup is undefined, the model answers the default material. Under the condition on Render, RenderPixel and ShadeHit, no BRDF or Combined render looks such an index up, and the other two modes never read materials.
- Scenes.Scene.AddSphere: the `Add*` helpers answer the new element's index instead of a pointer to it. Pointer stability under later appends is not modelled.
- Scenes.Scene.AddPointLight: the fields a helper does not set (a point light's direction, a directional light's origin) are taken to keep a zero default. The declaration of `Light` is not part of this model.
- The bodies of the ray–primitive tests, `LightUtils`, `Material::Shade`, `Vector3::Normalize`, `ColorRGB::MaxToOne` and `SDL_MapRGB` are abstract. They are float numerics in headers that are not part of this model.
- Camera ray construction (the FOV projection, the camera-to-world transform, `CalculateCameraToWorld`) is one abstract function from `(px, py)` to a ray. The ray's reciprocal direction is not modelled.
- Floating point: all arithmetic is on reals, so rounding, NaN and infinities are not modelled. The 0.0001 offset is exact.
- SDL plumbing is not modelled: the window surface, `SDL_UpdateWindowSurface`, `SaveBufferToImage` and the `uint8_t` casts. The casts sit inside the abstract `mapRGB`.
- `TriangleMesh` keeps only positions, normals, indices, cull mode and material index, which is all `hitMesh` sees. The mesh's local-to-world transform, its transformed-vertex caches and its BVH node pointer are not modelled. The scene bodies set these with `Translate`, `UpdateTransforms` and `pBvhNodes`.
- The scene destructor's manual `delete` of materials: pointer lifetime only. Materials are values here.
- `Scene::Initialize`/`Update` and the per-week scene bodies: scene-authoring data, OBJ parsing and timer-driven animation.
- The frame counter is only read. It is advanced outside `Renderer.cpp`, which is not part of this model. The initial lighting mode and shadow switch come from the class declaration.
