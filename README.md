# orb-ponder path tracer core, modelled in Dafny

This project models the rendering engine of the orb-ponder Monte Carlo path
tracer and proves properties of the model. It covers three source files.

- **`src/scene.rs`.** The sampling context `TraceContext` holds a recursion-depth
  gate. It also holds three lazily grown pools of quasi-random generators (1-D,
  2-D and 3-D draws), each with its own cursor, which restart per sample and are
  discarded per pixel. The file also holds the scene aggregator
  `Scene::get_color`, which picks the nearest acceptable hit.
- **`src/materials.rs`.** The diffuse material `Lambertian::get_color` is
  gated by the context's depth. It bounces one ray from the hit point and
  multiplies the returned colour by its albedo.
- **`src/shapes.rs`.** Covers the intersection and bounds logic of spheres,
  planes and oriented boxes, including the box's first-minimum face choice.

Layout:

- `geom.dfy` (module `Geom`) holds vectors, 3x3 matrices, affine maps, rays and
  hits over exact reals, plus the `Floats` record. `Floats` gathers the float
  primitives the model leaves uninterpreted; they are passed in as function values.
- `context.dfy` (module `Context`) holds the `TraceContext` class, whose
  fields are updated in place by its methods. Every draw method is tied to
  the pure `PoolDraw` function, and the pool-growth and restart lemmas are
  proved about `PoolDraw`.
- `shapes.dfy` (module `Shapes`) models the sphere and plane as pure
  functions. The box's chain of conditional assignments is a method,
  `ChooseFace`, proved to pick the first minimum. The box's `TraceRay` method
  is proved equal to the reference function `Cuboid.SlabHit`. The slab
  test is proved to be clipping the ray by the box.
- `tracer.dfy` (module `Tracer`) holds `Scene::get_color` and
  `Lambertian::get_color`. They are mutually recursive methods over the shared
  context, in one module, with termination proved from the depth gate. Each
  is proved equal to a mutually recursive function (`Shade`,
  `ShadeLambertian`) that gives the colour and the 3-D pool left behind. Only
  the depth and the 3-D pool may change, and the depth is restored on return.

Points where the code does something easy to misread; the model follows the code:

- A sphere hit may have distance exactly 0, when the near root is 0;
  `Sphere::trace_ray` does not exclude it.
- A plane hit's world normal is `normal` when `normal . origin >= 0` and
  `-normal` otherwise, not judged by the ray direction. This faces the
  origin's side only for planes through the world origin.
- The plane hit's frame is `(right, right, normal)`, as written.
- `Sphere::get_bounds` returns `center - radius` as both corners, as written.

## Model

| member | source | states |
|---|---|---|
| `Context.PoolDraw` | src/scene.rs:105-135 | One draw from a pool: the pool grows by exactly one generator iff the cursor is at or past the end. A grown pool's new generator is seeded from its index plus one and `reseed`. The cursor ends one past the generator used, that generator advances by one value, every other generator is unchanged, and the draw is the used generator's next value. |
| `Context.DrawingPastTheEndAppends` | src/scene.rs:106-112 | `k` draws from a pool whose cursor is at its end append `k` generators, the i-th seeded from `i + 1` and `reseed`, and leave the old ones unchanged. |
| `Context.FreshPoolSeeds` | src/scene.rs:144-153 | After a pool is emptied and its cursor zeroed, `k` draws rebuild it with generators seeded only from their position and `reseed`. |
| `Context.DrawingInsideReuses` | src/scene.rs:106-113 | `k` draws from inside a pool append nothing and advance exactly the `k` generators under the cursor by one value each. |
| `Context.SampleRestartReusesGenerators` | src/scene.rs:137-142 | After the cursor is zeroed, the next draws reuse the same generators in order, so the pool keeps its size and seeds. |
| `Context.TraceContext.constructor` | src/scene.rs:63-76 | A new context has depth 0, the given maximum depth, zero cursors, empty pools and the given reseed value. It is valid exactly when the maximum depth is non-negative. |
| `Context.TraceContext.TryPush` | src/scene.rs:79-88 | Requires `0 <= depth <= max`. Succeeds iff the depth is below the maximum, in which case the depth goes up by one; otherwise the depth is unchanged. Only the depth changes. |
| `Context.TraceContext.Pop` | src/scene.rs:91-95 | Requires `0 < depth <= max`; lowers the depth by one and changes nothing else. |
| `Context.TraceContext.Rng1` | src/scene.rs:105-113 | The 1-D pool and cursor become the `PoolDraw` successor of the old ones. The result is that step's draw. Only those two fields change. |
| `Context.TraceContext.Rng2` | src/scene.rs:116-124 | The same for the 2-D pool. |
| `Context.TraceContext.Rng3` | src/scene.rs:127-135 | The same for the 3-D pool. |
| `Context.TraceContext.NextSample` | src/scene.rs:137-142 | Requires depth 0. Zeroes the three cursors and leaves the pools and `reseed` untouched. |
| `Context.TraceContext.NextPixel` | src/scene.rs:144-153 | Requires depth 0. Zeroes the cursors, empties the three pools and installs the new reseed value. |
| `Context.TraceContext.BlurVector` | src/scene.rs:156-158 | Makes exactly one 3-D draw. The result is `normalize(v + (2 * draw - 1) * clamp(blur, 0, 0.999))`. |
| `Context.DepthGateRoundTrip` | src/scene.rs:79-95 | From a fresh context, exactly `max_depth` pushes succeed and the next is refused. As many pops bring the depth back to 0. |
| `Shapes.FirstMin` | src/shapes.rs:205-237 | Reference definition of the face choice: the index where the minimum of a sequence first occurs. |
| `Shapes.FirstMinUnique` | src/shapes.rs:205-237 | The first minimum is unique, so the face chain and the reference definition agree. |
| `Shapes.Sphere.Intersect` | src/shapes.rs:35-47 | The roots exist iff `perp_len_squared < radius^2`. They sum to twice the projection of the centre on the ray. If square roots of positive numbers are positive, the first root is strictly smaller. |
| `Shapes.Sphere.TraceRay` | src/shapes.rs:51-79 | No hit iff there are no roots or the far root is `<= 0`. `started_inside` holds iff the near root is `< 0`; the distance is then the far root, otherwise the near root, and is `>= 0`. The world position is the ray at that distance and the local position is its offset from the centre. Both normals are `normalize_or_zero` of the local position. The frame is the identity and the material is the sphere's. |
| `Shapes.Sphere.GetBounds` | src/shapes.rs:81-86 | Both corners are `center - radius`, as written. |
| `Shapes.SphereInsideOrigin` | src/shapes.rs:52-59 | With a unit direction, exact square root and origin strictly inside, the roots straddle 0, the hit starts inside and its distance is the far root. |
| `Shapes.CentralRay` | src/shapes.rs:35-47 | A ray whose line passes through the centre meets the sphere one radius before and one radius after the centre's projection. |
| `Shapes.SphereHitOnSurface` | src/shapes.rs:51-61 | With a unit direction and exact square root, the hit point's squared distance from the centre is `radius^2`. |
| `Shapes.Plane.New` | src/shapes.rs:100-118 | Stores `normalize(normal)`, `up = normalize(normal x right)`, `right = normalize((normal x right) x normal)` and `n_dot_c = normal . center` of the normalised normal. |
| `Shapes.Plane.TraceRay` | src/shapes.rs:122-161 | No hit iff `abs(n.dir) <= 1e-6`, `abs(n.origin) <= 1e-6`, or the distance `(n_dot_c - n.origin) / n.dir` is `<= 0`. A hit has that distance, which is `> 0`, and never starts inside. The world normal is `n` or `-n`, and the local normal `+Z` or `-Z`, by the sign of `n.origin`. The local position is `(right . offset, up . offset, 0)`. The frame is `(right, right, normal)`. |
| `Shapes.Plane.GetBounds` | src/shapes.rs:163-165 | Planes report no bounds. |
| `Shapes.PlaneHitOnPlane` | src/shapes.rs:126-129 | When `n_dot_c` is `normal . center` (as `Plane.New` stores it), the hit point lies on the plane through the centre. |
| `Shapes.ChooseFace` | src/shapes.rs:205-237 | The chain of strict comparisons picks the first minimum of the six face distances. The order is -X, -Y, -Z, +X, +Y, +Z. It returns that face's signed axis and the same-signed column of the rotation, which are those of the face `FirstMin` names. |
| `Shapes.Cuboid.New` | src/shapes.rs:179-188 | The stored corners are the given ones sorted per axis, so `mins <= maxs`. The local-to-world map is the orientation and the origin. |
| `Shapes.CuboidFrameRoundTrip` | src/shapes.rs:180-182 | For an orthonormal orientation, the stored world-to-local map undoes the local-to-world map. |
| `Shapes.CuboidFrameRoundTripBack` | src/shapes.rs:180-182 | For an orientation orthonormal by rows and columns, the local-to-world map undoes the stored world-to-local map. |
| `Shapes.Cuboid.SlabHit` | src/shapes.rs:192-252 | A hit iff `near <= far && far > 0`. `started_inside` holds iff `near <= 0`; the distance is then `far`, otherwise `near`, and is `> 0`. The local position is the local ray at that distance, and the world position is its image. The normals are those of the first nearest face. The frame is the rotation. |
| `Shapes.CuboidHitOnRay` | src/shapes.rs:193-245 | For a rotation, a box hit's world position is the world ray at the hit's distance, so box distances are parameters along the world ray like sphere and plane distances. |
| `Shapes.Cuboid.TraceRay` | src/shapes.rs:192-252 | The implementation equals `Cuboid.SlabHit`. |
| `Shapes.SlabIsWorldBoxClip` | src/shapes.rs:193-199 | The slab interval `[near, far]` is exactly the set of parameters at which the local ray is inside the box. |
| `Shapes.Cuboid.GetBounds` | src/shapes.rs:254-261 | The min corner is `<=` the max corner componentwise. The corners' midpoint is the box centre mapped to world space. |
| `Shapes.Shape.HitOf` | src/shapes.rs:22-25 | The dispatched hit carries the shape's material and a distance `>= 0`. For spheres and planes, the hit point is the ray at that distance. |
| `Shapes.Shape.TraceRay` | src/shapes.rs:23 | The dispatch implementation equals `Shape.HitOf`. |
| `Shapes.Shape.GetBounds` | src/shapes.rs:24 | No bounds iff the shape is a plane. A sphere's corners coincide and a box's corners are ordered. |
| `Tracer.NearestChoice` | src/scene.rs:21-29 | The fold `Nearest` over the hits in scene order keeps nothing iff no hit qualifies, where qualifying means not started inside and distance `> 0.0001`. Otherwise it keeps the earliest-listed qualifying hit that is strictly nearer than every earlier one and no farther than any later one. |
| `Tracer.NearestUnique` | src/scene.rs:22-27 | That choice is unique. |
| `Tracer.FindNearest` | src/scene.rs:21-29 | The loop's choice is the fold `Nearest`, so it keeps no hit iff none qualifies, and otherwise the first nearest qualifying hit. |
| `Tracer.NearestMaterial` | src/scene.rs:31-32 | In a valid scene the chosen hit's material is in the material table. |
| `Tracer.GetColor` | src/scene.rs:20-37 | The colour and the new 3-D pool and cursor are those of `Shade` on the old pool; the depth is unchanged on return and the context stays valid. Only the depth and the 3-D pool and cursor may change. |
| `Tracer.LambertianGetColor` | src/materials.rs:25-36 | The colour and the new 3-D pool and cursor are those of `ShadeLambertian` on the old pool; the depth is unchanged on return. Only the depth and the 3-D pool and cursor may change. |
| `Tracer.ShadeCases` | src/scene.rs:31-36 | With no qualifying hit the colour is the sky's and the pool is untouched. With a hit at the maximum depth the colour is zero and the pool untouched. Otherwise one 3-D draw is made and the colour is the hit material's albedo times the colour of a bounce ray from the hit point, traced one level deeper from the pool after that draw. |
| `Tracer.ShadeDraws` | src/materials.rs:26-31 | Tracing a ray makes a run of consecutive 3-D draws, at most one per depth level left, and none when no hit qualifies. |
| `Tracer.PointInSphere` | src/geom.rs:40-46 | Makes exactly one 3-D draw and maps it to a point. |
| `Tracer.ApexSeenFromAbove` | src/main.rs:99-110 | In the renderer's scene, a radius-1.5 ball on a ground plane, a ray straight down from height `h > 3.0001` picks the ball, given an exact `sqrt(2.25)` and `normalize(Z) = Z`. It hits at distance `h - 3` on the apex; the ground would be hit at distance `h`. |
| `Tracer.ApexShade` | src/main.rs:99-110 | In that scene the ray's colour is zero, with the pool untouched, at the maximum depth. Below it, the colour is the ball's albedo `0.5` times the colour of a bounce ray from the apex `(0, 0, 3)`, traced one level deeper. |

## Left out

- The float primitives `sqrt`, `normalize`, `normalize_or_zero`, `exp().fract()` and `powf` are not interpreted; `length_squared` is computed exactly, as a dot product. Computations are in exact reals, with `f32`/`f64` constants read as exact decimals. Where a lemma needs a fact about a primitive, it takes it as a hypothesis: `SqrtPositive` or an exact square root, and, in `Tracer.ApexSeenFromAbove` and `Tracer.ApexShade`, `normalize(Z) = Z`.
- The internals of the quasi-random generator (`quasirandom::Qrng`) are not modelled. A generator is its seed and the count of values it has produced, and a draw names the value. The seed `fract(exp(i + 1 + reseed))` is kept symbolic as `Seed(i + 1, reseed)`.
- `thread_rng`, `rngen` and the drawing of `reseed` are not modelled. The reseed value is a parameter of the constructor and of `NextPixel`.
- Tracer.PointInSphere: models the point-in-ball sampler as one 3-D draw mapped by an uninterpreted function, not constrained to the unit ball. The source's rejection loop has no termination bound and may make further draws.
- Tracer.GetColor: the background sky colour (in `Shade` as well) is an uninterpreted function of the ray, because it is `powf` float arithmetic.
- Context.TraceContext.BlurVector: the value of a draw in `[0, 1)^3` is an uninterpreted function of the draw.
- Shapes.Shape.HitOf: reports a box as missed when its local ray direction has a zero component. The source divides by that component and relies on IEEE infinities.
- Shapes.Cuboid.New: takes the orientation as a rotation matrix, not a quaternion. It computes the inverse transform as the transposed rotation, which is exact for rotations.
- Shapes.Sphere.Intersect: orders the roots only under the hypothesis that square roots of positive numbers are positive.
- `i32` depth arithmetic cannot overflow, since the depth stays in `[0, max_depth]`. The `usize` cursors are natural numbers.
- A hit refers to its material by index into the scene's material table, not by reference. `Scene.Valid` states that every index is in range.
- `reflect` and the gamma conversions in `src/geom.rs` are out of scope: they are float maps. So are `Viewport`, the per-pixel sampling loop, and image encoding and saving in `src/main.rs`. The commented-out `get_color` in `src/main.rs` is also left out.
- Material variants other than `Lambertian` are not modelled; none exist in the source.
- The renderer traces pixels one after another with a single context; the model has a single context too, and leaves the pixel loop out.
