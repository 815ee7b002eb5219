/**
 * Light transport: the scene aggregator (`Scene::get_color` in src/scene.rs)
 * and the diffuse material (`Lambertian::get_color` in src/materials.rs).
 * The two call each other, so they live in one module; the recursion is
 * bounded by the sampling context's depth gate.
 */
module Tracer {
  import opened Geom
  import opened Context
  import opened Shapes

  /** The material variants; only the diffuse one exists in the renderer. */
  datatype Material = Lambertian(albedo: Vec3)

  /** The ordered shapes, and the materials they refer to by index. */
  datatype Scene = Scene(shapes: seq<Shape>, materials: seq<Material>)
  {
    ghost predicate Valid()
    {
      forall i :: 0 <= i < |shapes| ==> shapes[i].Material() < |materials|
    }
  }

  /**
   * What the renderer computes with float code the model leaves
   * uninterpreted: the float primitives, the sky colour seen along a ray
   * that hits nothing, and the offset that `get_point_in_sphere` makes of
   * a 3-D draw. The renderer's offsets lie in the unit ball; the model
   * leaves `pointInSphere` unconstrained, and no proof here depends on it.
   */
  datatype Env = Env(fl: Floats, sky: Ray -> Vec3, pointInSphere: Draw -> Vec3)

  /** Self-intersection guard: hits closer than this are ignored. */
  const MinHitDistance: real := 0.0001

  /** A hit the aggregator may keep: ahead by more than the guard and not started inside. */
  predicate Qualifies(h: Option<Hit>)
  {
    h.Some? && !h.value.startedInside && h.value.distance > MinHitDistance
  }

  /** What each shape reports for the ray, in scene order. */
  function Hits(scene: Scene, ray: Ray, fl: Floats): seq<Option<Hit>>
  {
    seq(|scene.shapes|, i requires 0 <= i < |scene.shapes| => scene.shapes[i].HitOf(ray, fl))
  }

  /**
   * `k` is the aggregator's choice: a qualifying hit strictly nearer than
   * every earlier qualifying hit and no farther than any later one.
   */
  ghost predicate IsNearest(hits: seq<Option<Hit>>, k: int)
  {
    && 0 <= k < |hits|
    && Qualifies(hits[k])
    && (forall j :: 0 <= j < k && Qualifies(hits[j]) ==> hits[k].value.distance < hits[j].value.distance)
    && (forall j :: k < j < |hits| && Qualifies(hits[j]) ==> hits[k].value.distance <= hits[j].value.distance)
  }

  ghost predicate NoneQualifies(hits: seq<Option<Hit>>)
  {
    forall j :: 0 <= j < |hits| ==> !Qualifies(hits[j])
  }

  /** The choice is unique, so the aggregator's result is determined by the hits. */
  lemma NearestUnique(hits: seq<Option<Hit>>, k1: int, k2: int)
    requires IsNearest(hits, k1) && IsNearest(hits, k2)
    ensures k1 == k2
  {
    var a, b := hits[k1].value.distance, hits[k2].value.distance;
    assert k1 < k2 ==> b < a && a <= b;
    assert k2 < k1 ==> a < b && b <= a;
  }

  /**
   * The selection loop's state after scanning `hits[..i]`: `best` is the
   * choice among those hits, or none when none of them qualifies.
   */
  ghost predicate ScanInv(hits: seq<Option<Hit>>, i: nat, best: Option<Hit>, k: nat)
  {
    && i <= |hits|
    && (best.None? <==> forall j :: 0 <= j < i ==> !Qualifies(hits[j]))
    && (best.Some? ==>
          && k < i && best == hits[k] && Qualifies(hits[k])
          && (forall j :: 0 <= j < k && Qualifies(hits[j]) ==> hits[k].value.distance < hits[j].value.distance)
          && (forall j :: k < j < i && Qualifies(hits[j]) ==> hits[k].value.distance <= hits[j].value.distance))
  }

  /** One step of the scan: the next hit replaces the choice iff it qualifies and is strictly nearer. */
  lemma ScanStep(hits: seq<Option<Hit>>, i: nat, best: Option<Hit>, k: nat)
    requires i < |hits| && ScanInv(hits, i, best, k)
    ensures var h := hits[i];
      if Qualifies(h) && (best.None? || h.value.distance < best.value.distance)
      then ScanInv(hits, i + 1, h, i)
      else ScanInv(hits, i + 1, best, k)
  {
  }

  /** A finished scan has found the aggregator's choice. */
  lemma ScanDone(hits: seq<Option<Hit>>, best: Option<Hit>, k: nat)
    requires ScanInv(hits, |hits|, best, k)
    ensures best.None? <==> NoneQualifies(hits)
    ensures best.Some? ==> IsNearest(hits, k) && best == hits[k]
  {
  }

  /**
   * The aggregator's choice as a fold over the hits in scene order: a hit
   * replaces the current choice iff it qualifies and is strictly nearer.
   */
  function Nearest(hits: seq<Option<Hit>>): Option<Hit>
    decreases |hits|
  {
    if |hits| == 0 then None
    else
      var best, h := Nearest(hits[..|hits| - 1]), hits[|hits| - 1];
      if Qualifies(h) && (best.None? || h.value.distance < best.value.distance) then h else best
  }

  /** The fold over the first `i` hits is the choice among them. */
  lemma {:induction false} NearestScan(hits: seq<Option<Hit>>, i: nat)
    requires i <= |hits|
    ensures exists k :: ScanInv(hits, i, Nearest(hits[..i]), k)
    decreases i
  {
    if i == 0 {
      assert ScanInv(hits, 0, Nearest(hits[..0]), 0);
    } else {
      NearestScan(hits, i - 1);
      var k :| ScanInv(hits, i - 1, Nearest(hits[..i - 1]), k);
      ScanStep(hits, i - 1, Nearest(hits[..i - 1]), k);
      assert hits[..i][..i - 1] == hits[..i - 1];
      assert hits[..i][i - 1] == hits[i - 1];
      var best := Nearest(hits[..i - 1]);
      if Qualifies(hits[i - 1]) && (best.None? || hits[i - 1].value.distance < best.value.distance) {
        assert ScanInv(hits, i, Nearest(hits[..i]), i - 1);
      } else {
        assert ScanInv(hits, i, Nearest(hits[..i]), k);
      }
    }
  }

  /**
   * `Nearest` is the aggregator's choice: none iff no hit qualifies, and
   * otherwise the qualifying hit strictly nearer than every earlier one and
   * no farther than any later one.
   */
  lemma NearestChoice(hits: seq<Option<Hit>>)
    ensures Nearest(hits).None? <==> NoneQualifies(hits)
    ensures Nearest(hits).Some? ==> exists k :: IsNearest(hits, k) && Nearest(hits) == hits[k]
  {
    NearestScan(hits, |hits|);
    assert hits[..|hits|] == hits;
    var k :| ScanInv(hits, |hits|, Nearest(hits), k);
    ScanDone(hits, Nearest(hits), k);
  }

  /** The fold takes one more hit: it replaces the choice iff it qualifies and is strictly nearer. */
  lemma NearestStep(hits: seq<Option<Hit>>, i: nat)
    requires i < |hits|
    ensures var best, h := Nearest(hits[..i]), hits[i];
      Nearest(hits[..i + 1]) == if Qualifies(h) && (best.None? || h.value.distance < best.value.distance) then h else best
  {
    assert hits[..i + 1][..i] == hits[..i];
    assert hits[..i + 1][i] == hits[i];
  }

  /** In a valid scene the chosen hit names one of the scene's materials. */
  lemma NearestMaterial(scene: Scene, ray: Ray, fl: Floats)
    requires scene.Valid()
    ensures Nearest(Hits(scene, ray, fl)).Some? ==> Nearest(Hits(scene, ray, fl)).value.material < |scene.materials|
  {
    var hits := Hits(scene, ray, fl);
    NearestChoice(hits);
    if Nearest(hits).Some? {
      var k :| IsNearest(hits, k) && Nearest(hits) == hits[k];
      assert scene.shapes[k].HitOf(ray, fl) == Nearest(hits);
    }
  }

  /** The selection loop of `Scene::get_color`. */
  method FindNearest(scene: Scene, ray: Ray, fl: Floats) returns (best: Option<Hit>)
    ensures best == Nearest(Hits(scene, ray, fl))
    ensures best.None? <==> NoneQualifies(Hits(scene, ray, fl))
    ensures best.Some? ==> exists k :: IsNearest(Hits(scene, ray, fl), k) && best == Hits(scene, ray, fl)[k]
  {
    ghost var hits := Hits(scene, ray, fl);
    best := None;
    for i := 0 to |scene.shapes|
      invariant best == Nearest(hits[..i])
    {
      var h := scene.shapes[i].TraceRay(ray, fl);
      assert h == hits[i];
      NearestStep(hits, i);
      if h.Some? && !h.value.startedInside && h.value.distance > MinHitDistance &&
         (best.None? || h.value.distance < best.value.distance) {
        best := h;
      }
    }
    assert hits[..|scene.shapes|] == hits;
    NearestChoice(hits);
  }

  /** The bounce ray: from the hit point along the hit normal pushed by `0.999` times `offset`, normalised. */
  function BounceRay(hit: Hit, offset: Vec3, fl: Floats): Ray
  {
    Ray(hit.worldPos, fl.normalize(Add(hit.worldNormal, Scale(0.999, offset))))
  }

  /**
   * The colour `Scene::get_color` returns for `ray` at recursion depth
   * `depth` (of at most `maxDepth`), and the 3-D pool it leaves behind; only
   * that pool is drawn from on the way.
   */
  function Shade(scene: Scene, ray: Ray, depth: int, maxDepth: int, pool: Pool, reseed: real, env: Env): (Vec3, Pool)
    requires scene.Valid() && depth <= maxDepth
    decreases maxDepth - depth, 1
  {
    NearestMaterial(scene, ray, env.fl);
    match Nearest(Hits(scene, ray, env.fl))
    case None => (env.sky(ray), pool)
    case Some(hit) =>
      match scene.materials[hit.material]
      case Lambertian(albedo) => ShadeLambertian(albedo, scene, hit, depth, maxDepth, pool, reseed, env)
  }

  /**
   * The colour `Lambertian::get_color` returns for `hit` at depth `depth`:
   * zero when the depth gate refuses, otherwise the albedo times the colour
   * of the bounce ray one level deeper, the ray made from one 3-D draw.
   */
  function ShadeLambertian(albedo: Vec3, scene: Scene, hit: Hit, depth: int, maxDepth: int, pool: Pool, reseed: real, env: Env): (Vec3, Pool)
    requires scene.Valid() && depth <= maxDepth
    decreases maxDepth - depth, 0
  {
    if depth == maxDepth then (Zero, pool)
    else
      var step := PoolDraw(pool, reseed);
      var inner := Shade(scene, BounceRay(hit, env.pointInSphere(step.draw), env.fl), depth + 1, maxDepth, step.pool, reseed, env);
      (Mul(albedo, inner.0), inner.1)
  }

  /**
   * `get_point_in_sphere`: the offset the renderer makes of a 3-D draw,
   * abstracted as `env.pointInSphere`. The renderer's rejection loop is
   * modelled by its first draw.
   */
  method PointInSphere(ctx: TraceContext, env: Env) returns (p: Vec3)
    modifies ctx`nextRng3, ctx`rng3List
    ensures Pool(ctx.rng3List, ctx.nextRng3) == PoolDraw(Pool(old(ctx.rng3List), old(ctx.nextRng3)), ctx.reseed).pool
    ensures p == env.pointInSphere(PoolDraw(Pool(old(ctx.rng3List), old(ctx.nextRng3)), ctx.reseed).draw)
    ensures ctx.nextRng3 <= |ctx.rng3List|
  {
    var d := ctx.Rng3();
    p := env.pointInSphere(d);
  }

  /**
   * `Scene::get_color`: the colour seen along `ray`, which is `Shade` of the
   * context's depth and 3-D pool; the depth is restored and only the 3-D
   * pool changes.
   */
  method GetColor(scene: Scene, ray: Ray, ctx: TraceContext, env: Env) returns (c: Vec3)
    requires scene.Valid() && ctx.Valid()
    modifies ctx`currentDepth, ctx`nextRng3, ctx`rng3List
    ensures ctx.Valid() && ctx.currentDepth == old(ctx.currentDepth)
    ensures (c, Pool(ctx.rng3List, ctx.nextRng3)) ==
      Shade(scene, ray, old(ctx.currentDepth) as int, ctx.maxDepth as int,
            Pool(old(ctx.rng3List), old(ctx.nextRng3)), ctx.reseed, env)
    decreases ctx.maxDepth as int - ctx.currentDepth as int, 1
  {
    NearestMaterial(scene, ray, env.fl);
    var best := FindNearest(scene, ray, env.fl);
    match best
    case None =>
      c := env.sky(ray);
    case Some(hit) =>
      match scene.materials[hit.material]
      case Lambertian(albedo) =>
        c := LambertianGetColor(albedo, scene, ray, hit, ctx, env);
  }

  /**
   * `Lambertian::get_color`: the colour `ShadeLambertian` gives for the
   * context's depth and 3-D pool; the depth is restored and only the 3-D
   * pool changes.
   */
  method LambertianGetColor(albedo: Vec3, scene: Scene, ray: Ray, hit: Hit, ctx: TraceContext, env: Env)
    returns (c: Vec3)
    requires scene.Valid() && ctx.Valid()
    modifies ctx`currentDepth, ctx`nextRng3, ctx`rng3List
    ensures ctx.Valid() && ctx.currentDepth == old(ctx.currentDepth)
    ensures (c, Pool(ctx.rng3List, ctx.nextRng3)) ==
      ShadeLambertian(albedo, scene, hit, old(ctx.currentDepth) as int, ctx.maxDepth as int,
                      Pool(old(ctx.rng3List), old(ctx.nextRng3)), ctx.reseed, env)
    decreases ctx.maxDepth as int - ctx.currentDepth as int, 0
  {
    var pushed := ctx.TryPush();
    if !pushed {
      return Zero;
    }
    var offset := PointInSphere(ctx, env);
    var inner := GetColor(scene, BounceRay(hit, offset, env.fl), ctx, env);
    c := Mul(albedo, inner);
    ctx.Pop();
  }

  /** `r` is the colour `inner` scaled by `albedo`, with the pool `inner` left behind. */
  predicate BouncedFrom(albedo: Vec3, r: (Vec3, Pool), inner: (Vec3, Pool))
  {
    r == (Mul(albedo, inner.0), inner.1)
  }

  /**
   * The three outcomes of `Scene::get_color`: the sky when nothing
   * qualifies; zero when the nearest hit's material is refused by the depth
   * gate; otherwise the albedo times the colour one level deeper along a
   * ray leaving the hit point, after one 3-D draw.
   */
  lemma ShadeCases(scene: Scene, ray: Ray, depth: int, maxDepth: int, pool: Pool, reseed: real, env: Env)
    requires scene.Valid() && depth <= maxDepth
    ensures Nearest(Hits(scene, ray, env.fl)).Some? ==> Nearest(Hits(scene, ray, env.fl)).value.material < |scene.materials|
    ensures var best, r := Nearest(Hits(scene, ray, env.fl)), Shade(scene, ray, depth, maxDepth, pool, reseed, env);
      && (best.None? ==> r == (env.sky(ray), pool))
      && (best.Some? && depth == maxDepth ==> r == (Zero, pool))
      && (best.Some? && depth < maxDepth ==>
            exists bounce: Ray :: bounce.origin == best.value.worldPos &&
              BouncedFrom(scene.materials[best.value.material].albedo, r, Shade(scene, bounce, depth + 1, maxDepth, PoolDraw(pool, reseed).pool, reseed, env)))
  {
    NearestMaterial(scene, ray, env.fl);
    var best := Nearest(Hits(scene, ray, env.fl));
    if best.Some? && depth < maxDepth {
      var hit, step := best.value, PoolDraw(pool, reseed);
      var albedo := scene.materials[hit.material].albedo;
      var bounce := BounceRay(hit, env.pointInSphere(step.draw), env.fl);
      var inner := Shade(scene, bounce, depth + 1, maxDepth, step.pool, reseed, env);
      assert ShadeLambertian(albedo, scene, hit, depth, maxDepth, pool, reseed, env) == (Mul(albedo, inner.0), inner.1);
      assert Shade(scene, ray, depth, maxDepth, pool, reseed, env) == ShadeLambertian(albedo, scene, hit, depth, maxDepth, pool, reseed, env);
      assert bounce.origin == hit.worldPos && BouncedFrom(albedo, Shade(scene, ray, depth, maxDepth, pool, reseed, env), inner);
    }
  }

  /**
   * Tracing a ray draws from the 3-D pool only, as a run of consecutive
   * draws, at most one per depth level left; with no qualifying hit there
   * are none.
   */
  lemma {:induction false} ShadeDraws(scene: Scene, ray: Ray, depth: int, maxDepth: int, pool: Pool, reseed: real, env: Env)
    requires scene.Valid() && depth <= maxDepth
    ensures exists n: nat ::
              n <= maxDepth - depth && Shade(scene, ray, depth, maxDepth, pool, reseed, env).1 == DrawMany(pool, reseed, n)
    ensures NoneQualifies(Hits(scene, ray, env.fl)) ==> Shade(scene, ray, depth, maxDepth, pool, reseed, env).1 == pool
    decreases maxDepth - depth, 1
  {
    NearestChoice(Hits(scene, ray, env.fl));
    NearestMaterial(scene, ray, env.fl);
    match Nearest(Hits(scene, ray, env.fl))
    case None =>
      assert Shade(scene, ray, depth, maxDepth, pool, reseed, env).1 == DrawMany(pool, reseed, 0);
    case Some(hit) =>
      match scene.materials[hit.material]
      case Lambertian(albedo) =>
        ShadeLambertianDraws(albedo, scene, hit, depth, maxDepth, pool, reseed, env);
  }

  lemma {:induction false} ShadeLambertianDraws(albedo: Vec3, scene: Scene, hit: Hit, depth: int, maxDepth: int, pool: Pool, reseed: real, env: Env)
    requires scene.Valid() && depth <= maxDepth
    ensures exists n: nat ::
              n <= maxDepth - depth && ShadeLambertian(albedo, scene, hit, depth, maxDepth, pool, reseed, env).1 == DrawMany(pool, reseed, n)
    decreases maxDepth - depth, 0
  {
    if depth == maxDepth {
      assert ShadeLambertian(albedo, scene, hit, depth, maxDepth, pool, reseed, env).1 == DrawMany(pool, reseed, 0);
    } else {
      var step := PoolDraw(pool, reseed);
      var bounce := BounceRay(hit, env.pointInSphere(step.draw), env.fl);
      ShadeDraws(scene, bounce, depth + 1, maxDepth, step.pool, reseed, env);
      var n: nat :| n <= maxDepth - (depth + 1) &&
        Shade(scene, bounce, depth + 1, maxDepth, step.pool, reseed, env).1 == DrawMany(step.pool, reseed, n);
      assert DrawMany(pool, reseed, n + 1) == DrawMany(step.pool, reseed, n);
      assert ShadeLambertian(albedo, scene, hit, depth, maxDepth, pool, reseed, env).1 == DrawMany(pool, reseed, n + 1);
    }
  }

  /** The renderer's scene: a grey ball of radius 1.5 resting on a yellow ground plane. */
  function BallOnGround(fl: Floats): Scene
  {
    Scene([SphereShape(Sphere(Vec3(0.0, 0.0, 1.5), 1.5, 0)),
           PlaneShape(Plane.New(UnitZ, UnitX, Zero, 1, fl))],
          [Lambertian(Vec3(0.5, 0.5, 0.5)), Lambertian(Scale(0.3, Vec3(1.0, 1.0, 0.0)))])
  }

  /** The vertical line through the ball's centre meets it at distances `h - 3` and `h` from height `h`. */
  lemma BallRootsFromAbove(h: real, fl: Floats)
    requires fl.sqrt(2.25) == 1.5
    ensures Sphere(Vec3(0.0, 0.0, 1.5), 1.5, 0).Intersect(Ray(Vec3(0.0, 0.0, h), NegUnitZ), fl) == Some((h - 3.0, h))
  {
    var ray := Ray(Vec3(0.0, 0.0, h), NegUnitZ);
    var ball := Sphere(Vec3(0.0, 0.0, 1.5), 1.5, 0);
    assert Sub(ball.center, ray.origin) == Vec3(0.0, 0.0, 1.5 - h);
    assert ball.DirDistToCenter(ray) == h - 1.5;
    assert Scale(h - 1.5, ray.direction) == Vec3(0.0, 0.0, 1.5 - h);
    assert Sub(Sub(ball.center, ray.origin), Scale(ball.DirDistToCenter(ray), ray.direction)) == Zero;
    assert ball.PerpLenSquared(ray) == 0.0;
    assert ball.radius * ball.radius == 2.25;
    CentralRay(ball, ray, fl, 2.25);
  }

  /** The ball seen straight down from height `h > 3`: hit on its apex at distance `h - 3`. */
  lemma BallApexFromAbove(h: real, fl: Floats)
    requires 3.0 < h && fl.sqrt(2.25) == 1.5
    ensures var hit := Sphere(Vec3(0.0, 0.0, 1.5), 1.5, 0).TraceRay(Ray(Vec3(0.0, 0.0, h), NegUnitZ), fl);
      && hit.Some? && !hit.value.startedInside
      && hit.value.distance == h - 3.0
      && hit.value.localPos == Vec3(0.0, 0.0, 1.5)
      && hit.value.worldPos == Vec3(0.0, 0.0, 3.0)
      && hit.value.material == 0
  {
    BallRootsFromAbove(h, fl);
    var ray := Ray(Vec3(0.0, 0.0, h), NegUnitZ);
    assert ray.At(h - 3.0) == Vec3(0.0, 0.0, 3.0);
  }

  /** A ground plane through the origin, seen straight down from height `h > 3`: hit at distance `h`. */
  lemma GroundFromAbove(ground: Plane, h: real)
    requires 3.0 < h && ground.normal == UnitZ && ground.nDotC == 0.0
    ensures var hit := ground.TraceRay(Ray(Vec3(0.0, 0.0, h), NegUnitZ));
      hit.Some? && hit.value.distance == h
  {
    var ray := Ray(Vec3(0.0, 0.0, h), NegUnitZ);
    var nDotDir, nDotO := Dot(ground.normal, ray.direction), Dot(ground.normal, ray.origin);
    assert nDotDir == -1.0 && nDotO == h;
    assert (ground.nDotC - nDotO) / nDotDir == h;
  }

  /** The shape dispatch hands a plane's ray to the plane. */
  lemma PlaneDispatch(p: Plane, ray: Ray, fl: Floats)
    ensures PlaneShape(p).HitOf(ray, fl) == p.TraceRay(ray)
  {
  }

  /** Of two hits, a qualifying first one that is strictly nearer than the second is the choice. */
  lemma NearerOfTwo(hits: seq<Option<Hit>>)
    requires |hits| == 2 && Qualifies(hits[0]) && hits[1].Some?
    requires hits[0].value.distance < hits[1].value.distance
    ensures IsNearest(hits, 0)
  {
  }

  /**
   * Looking straight down over the ball's apex from a height `h` more than
   * the guard above it, the aggregator picks the ball, at distance `h - 3`, on its top point; the
   * ground behind it is hit farther away, at distance `h`.
   */
  lemma ApexSeenFromAbove(h: real, fl: Floats)
    requires 3.0 + MinHitDistance < h
    requires fl.sqrt(2.25) == 1.5 && fl.normalize(UnitZ) == UnitZ
    ensures var hits := Hits(BallOnGround(fl), Ray(Vec3(0.0, 0.0, h), NegUnitZ), fl);
      && |hits| == 2
      && IsNearest(hits, 0)
      && hits[0].value.distance == h - 3.0
      && hits[0].value.localPos == Vec3(0.0, 0.0, 1.5)
      && hits[1].value.distance == h
  {
    var ray := Ray(Vec3(0.0, 0.0, h), NegUnitZ);
    var scene := BallOnGround(fl);
    var ball := Sphere(Vec3(0.0, 0.0, 1.5), 1.5, 0);
    var ground := Plane.New(UnitZ, UnitX, Zero, 1, fl);
    assert scene.shapes == [SphereShape(ball), PlaneShape(ground)];
    assert ground.normal == UnitZ && ground.nDotC == 0.0;
    BallApexFromAbove(h, fl);
    GroundFromAbove(ground, h);
    var hits := Hits(scene, ray, fl);
    assert hits[0] == SphereShape(ball).HitOf(ray, fl);
    assert hits[1] == PlaneShape(ground).HitOf(ray, fl);
    assert SphereShape(ball).HitOf(ray, fl) == ball.TraceRay(ray, fl);
    PlaneDispatch(ground, ray, fl);
    var b, g := hits[0].value.distance, hits[1].value.distance;
    assert b == h - 3.0 && g == h;
    assert Qualifies(hits[0]);
    NearerOfTwo(hits);
  }

  /** The renderer's scene reports the ball's hit first. */
  lemma BallFirst(ray: Ray, fl: Floats)
    ensures Hits(BallOnGround(fl), ray, fl)[0] == Sphere(Vec3(0.0, 0.0, 1.5), 1.5, 0).TraceRay(ray, fl)
  {
    var ball := Sphere(Vec3(0.0, 0.0, 1.5), 1.5, 0);
    assert BallOnGround(fl).shapes[0] == SphereShape(ball);
    assert SphereShape(ball).HitOf(ray, fl) == ball.TraceRay(ray, fl);
  }

  /**
   * The colour seen straight down over the ball's apex: black when the
   * depth gate is exhausted, otherwise the ball's grey albedo times the
   * colour of a bounce leaving the apex `(0, 0, 3)` one level deeper.
   */
  lemma ApexShade(h: real, env: Env, depth: int, maxDepth: int, pool: Pool, reseed: real)
    requires 3.0 + MinHitDistance < h && depth <= maxDepth
    requires env.fl.sqrt(2.25) == 1.5 && env.fl.normalize(UnitZ) == UnitZ
    ensures BallOnGround(env.fl).Valid()
    ensures var scene, ray := BallOnGround(env.fl), Ray(Vec3(0.0, 0.0, h), NegUnitZ);
      var r := Shade(scene, ray, depth, maxDepth, pool, reseed, env);
      && (depth == maxDepth ==> r == (Zero, pool))
      && (depth < maxDepth ==>
            exists bounce: Ray :: bounce.origin == Vec3(0.0, 0.0, 3.0) &&
              BouncedFrom(Vec3(0.5, 0.5, 0.5), r, Shade(scene, bounce, depth + 1, maxDepth, PoolDraw(pool, reseed).pool, reseed, env)))
  {
    var fl := env.fl;
    var scene, ray := BallOnGround(fl), Ray(Vec3(0.0, 0.0, h), NegUnitZ);
    var ball := Sphere(Vec3(0.0, 0.0, 1.5), 1.5, 0);
    var ground := Plane.New(UnitZ, UnitX, Zero, 1, fl);
    assert scene.shapes == [SphereShape(ball), PlaneShape(ground)];
    assert scene.Valid();
    var hits := Hits(scene, ray, fl);
    ApexSeenFromAbove(h, fl);
    BallApexFromAbove(h, fl);
    BallFirst(ray, fl);
    NearestChoice(hits);
    var k :| IsNearest(hits, k) && Nearest(hits) == hits[k];
    NearestUnique(hits, k, 0);
    ShadeCases(scene, ray, depth, maxDepth, pool, reseed, env);
  }
}
