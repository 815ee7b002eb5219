/**
 * The surface-intersection layer (src/shapes.rs): spheres, planes and
 * oriented boxes, each reporting the ray hit the renderer uses and a local
 * shading frame, plus their axis-aligned bounds.
 */
module Shapes {
  import opened Geom

  // ---------------------------------------------------------------------------
  // First minimum of a sequence (the ordering the box face choice uses)

  /** `k` is where the minimum of `ds` first occurs. */
  ghost predicate IsFirstMin(ds: seq<real>, k: int)
  {
    && 0 <= k < |ds|
    && (forall j :: 0 <= j < k ==> ds[k] < ds[j])
    && (forall j :: k < j < |ds| ==> ds[k] <= ds[j])
  }

  /** A reference definition: scan from the back, keeping the last strictly smaller value. */
  function FirstMin(ds: seq<real>): (k: nat)
    requires |ds| > 0
    ensures IsFirstMin(ds, k)
    decreases |ds|
  {
    if |ds| == 1 then 0
    else
      var k := FirstMin(ds[..|ds| - 1]);
      if ds[|ds| - 1] < ds[k] then |ds| - 1 else k
  }

  lemma FirstMinUnique(ds: seq<real>, k1: int, k2: int)
    requires IsFirstMin(ds, k1) && IsFirstMin(ds, k2)
    ensures k1 == k2
  {
    var a, b := ds[k1], ds[k2];
    assert k1 < k2 ==> b < a && a <= b;
    assert k2 < k1 ==> a < b && b <= a;
  }

  // ---------------------------------------------------------------------------
  // Sphere

  datatype Sphere = Sphere(center: Vec3, radius: real, material: nat)
  {
    /** Distance along the ray direction to the point nearest the centre. */
    function DirDistToCenter(r: Ray): real
    {
      Dot(Sub(center, r.origin), r.direction)
    }

    /** Squared distance from the centre to the ray's supporting line. */
    function PerpLenSquared(r: Ray): real
    {
      var toCenter := Sub(center, r.origin);
      var perp := Sub(toCenter, Scale(DirDistToCenter(r), r.direction));
      Dot(perp, perp)
    }

    /**
     * The two ray parameters where the ray's line meets the sphere, in the
     * projection form: `DirDistToCenter -+ sqrt(radius^2 - PerpLenSquared)`.
     */
    function Intersect(r: Ray, fl: Floats): (roots: Option<(real, real)>)
      ensures roots.Some? <==> PerpLenSquared(r) < radius * radius
      ensures roots.Some? ==> roots.value.0 + roots.value.1 == 2.0 * DirDistToCenter(r)
      ensures roots.Some? && SqrtPositive(fl) ==> roots.value.0 < roots.value.1
    {
      var dirDistToCenter := DirDistToCenter(r);
      var perpLenSquared := PerpLenSquared(r);
      if perpLenSquared < radius * radius then
        var off := fl.sqrt(radius * radius - perpLenSquared);
        Some((dirDistToCenter - off, dirDistToCenter + off))
      else
        None
    }

    /**
     * The sphere's hit: none when the far root is not ahead of the origin;
     * otherwise the near root, or the far one when the origin is inside.
     */
    function TraceRay(ray: Ray, fl: Floats): (h: Option<Hit>)
      ensures h.None? <==> Intersect(ray, fl).None? || Intersect(ray, fl).value.1 <= 0.0
      ensures h.Some? ==>
        var (near, far) := Intersect(ray, fl).value;
        && h.value.startedInside == (near < 0.0)
        && h.value.distance == (if near < 0.0 then far else near)
        && 0.0 <= h.value.distance
        && h.value.worldPos == ray.At(h.value.distance)
        && h.value.localPos == Sub(h.value.worldPos, center)
        && h.value.worldNormal == h.value.localNormal == fl.normalizeOrZero(h.value.localPos)
        && h.value.localToWorld == Identity
        && h.value.material == material
    {
      match Intersect(ray, fl)
      case None => None
      case Some((near, far)) =>
        if far > 0.0 then
          var startedInside := near < 0.0;
          var distance := if startedInside then far else near;
          var worldPos := ray.At(distance);
          var localPos := Sub(worldPos, center);
          var normal := fl.normalizeOrZero(localPos);
          Some(Hit(worldPos, normal, localPos, normal, material, distance, startedInside, Identity))
        else
          None
    }

    /** The bounds as the renderer computes them: both corners are `center - radius`. */
    function GetBounds(): (b: Option<(Vec3, Vec3)>)
      ensures b.Some? && b.value.0 == b.value.1
      ensures b.value.1 == Sub(center, Splat(radius))
    {
      Some((Sub(center, Splat(radius)), Sub(center, Splat(radius))))
    }
  }

  /**
   * A ray starting strictly inside the sphere, with a unit direction, meets
   * the sphere's line behind and ahead of its origin, so the sphere reports
   * the far root and `startedInside` (when the square root is exact there).
   */
  lemma SphereInsideOrigin(s: Sphere, ray: Ray, fl: Floats)
    requires Dot(ray.direction, ray.direction) == 1.0
    requires var tc := Sub(s.center, ray.origin); Dot(tc, tc) < s.radius * s.radius
    requires var v := s.radius * s.radius - s.PerpLenSquared(ray);
             0.0 <= fl.sqrt(v) && fl.sqrt(v) * fl.sqrt(v) == v
    ensures s.Intersect(ray, fl).Some?
    ensures s.Intersect(ray, fl).value.0 < 0.0 < s.Intersect(ray, fl).value.1
    ensures s.TraceRay(ray, fl).Some? && s.TraceRay(ray, fl).value.startedInside
    ensures s.TraceRay(ray, fl).value.distance == s.Intersect(ray, fl).value.1
  {
    var proj := s.DirDistToCenter(ray);
    var perp := s.PerpLenSquared(ray);
    var rr := s.radius * s.radius;
    InsideBounds(s, ray, proj, perp, rr);
    InsideRoots(s, ray, fl, proj, perp, rr);
  }

  lemma InsideRoots(s: Sphere, ray: Ray, fl: Floats, proj: real, perp: real, rr: real)
    requires proj == s.DirDistToCenter(ray) && perp == s.PerpLenSquared(ray) && rr == s.radius * s.radius
    requires proj * proj < rr - perp && perp < rr
    requires 0.0 <= fl.sqrt(rr - perp) && fl.sqrt(rr - perp) * fl.sqrt(rr - perp) == rr - perp
    ensures s.Intersect(ray, fl) == Some((proj - fl.sqrt(rr - perp), proj + fl.sqrt(rr - perp)))
    ensures proj - fl.sqrt(rr - perp) < 0.0 < proj + fl.sqrt(rr - perp)
  {
    assert s.Intersect(ray, fl).Some?;
    assert s.Intersect(ray, fl).value.0 == proj - fl.sqrt(rr - perp);
    RootsStraddle(proj, fl.sqrt(rr - perp), rr - perp);
  }

  /** For a unit direction, an origin inside the sphere gives `proj^2 < radius^2 - perp^2`. */
  lemma InsideBounds(s: Sphere, ray: Ray, proj: real, perp: real, rr: real)
    requires Dot(ray.direction, ray.direction) == 1.0
    requires var tc := Sub(s.center, ray.origin); Dot(tc, tc) < s.radius * s.radius
    requires proj == s.DirDistToCenter(ray) && perp == s.PerpLenSquared(ray) && rr == s.radius * s.radius
    ensures proj * proj < rr - perp && perp < rr
  {
    var tc := Sub(s.center, ray.origin);
    PerpendicularSplit(tc, ray.direction);
    assert perp == Dot(tc, tc) - proj * proj;
    NonNegSquare(proj);
  }

  /**
   * A ray whose line passes through the centre meets the sphere one radius
   * before and one radius after the centre's projection (when the square
   * root of `radius^2` is exact).
   */
  lemma CentralRay(s: Sphere, ray: Ray, fl: Floats, rr: real)
    requires s.PerpLenSquared(ray) == 0.0 && rr == s.radius * s.radius && 0.0 < rr
    requires fl.sqrt(rr) == s.radius
    ensures s.Intersect(ray, fl) == Some((s.DirDistToCenter(ray) - s.radius, s.DirDistToCenter(ray) + s.radius))
  {
    assert s.PerpLenSquared(ray) < rr;
    assert s.Intersect(ray, fl).Some?;
    assert rr - s.PerpLenSquared(ray) == rr;
  }

  /** `w` is at squared distance `rr` from `c`. */
  predicate OnSphere(w: Vec3, c: Vec3, rr: real)
  {
    Dot(Sub(w, c), Sub(w, c)) == rr
  }

  /** The square root is exact at `v`. */
  ghost predicate ExactSqrtAt(fl: Floats, v: real)
  {
    fl.sqrt(v) * fl.sqrt(v) == v
  }

  /**
   * With a unit direction and an exact square root, the reported hit point
   * lies on the sphere: its squared distance from the centre is `radius^2`.
   */
  lemma SphereHitOnSurface(s: Sphere, ray: Ray, fl: Floats)
    requires Dot(ray.direction, ray.direction) == 1.0
    requires s.TraceRay(ray, fl).Some?
    requires ExactSqrtAt(fl, s.radius * s.radius - s.PerpLenSquared(ray))
    ensures OnSphere(s.TraceRay(ray, fl).value.worldPos, s.center, s.radius * s.radius)
  {
    var proj, perp, rr := s.DirDistToCenter(ray), s.PerpLenSquared(ray), s.radius * s.radius;
    HitOnSurface(s, ray, fl, proj, perp, rr, s.TraceRay(ray, fl).value);
  }

  lemma {:induction false} HitOnSurface(s: Sphere, ray: Ray, fl: Floats, proj: real, perp: real, rr: real, h: Hit)
    requires proj == s.DirDistToCenter(ray) && perp == s.PerpLenSquared(ray) && rr == s.radius * s.radius
    requires Dot(ray.direction, ray.direction) == 1.0
    requires s.TraceRay(ray, fl) == Some(h)
    requires ExactSqrtAt(fl, rr - perp)
    ensures OnSphere(h.worldPos, s.center, rr)
  {
    var tc, off := Sub(s.center, ray.origin), fl.sqrt(rr - perp);
    HitFacts(s, ray, fl, proj, perp, rr, h);
    OnSurfaceCore(tc, ray, s.center, proj, perp, off, rr, h.distance, h.worldPos);
  }

  /** The scalar facts about a sphere hit that the surface computation needs. */
  lemma {:induction false} HitFacts(s: Sphere, ray: Ray, fl: Floats, proj: real, perp: real, rr: real, h: Hit)
    requires proj == s.DirDistToCenter(ray) && perp == s.PerpLenSquared(ray) && rr == s.radius * s.radius
    requires Dot(ray.direction, ray.direction) == 1.0
    requires s.TraceRay(ray, fl) == Some(h)
    requires ExactSqrtAt(fl, rr - perp)
    ensures SurfaceFacts(Sub(s.center, ray.origin), ray, s.center, proj, perp, fl.sqrt(rr - perp), rr, h.distance, h.worldPos)
  {
    HitIsRoot(s, ray, fl, proj, perp, rr);
    PerpOfUnit(s, ray, proj, perp);
  }

  /** For a unit direction, `PerpLenSquared = |c - o|^2 - DirDistToCenter^2`. */
  lemma PerpOfUnit(s: Sphere, ray: Ray, proj: real, perp: real)
    requires proj == s.DirDistToCenter(ray) && perp == s.PerpLenSquared(ray)
    requires Dot(ray.direction, ray.direction) == 1.0
    ensures var tc := Sub(s.center, ray.origin); perp == Dot(tc, tc) - proj * proj
  {
    var tc := Sub(s.center, ray.origin);
    var pv := Sub(tc, Scale(proj, ray.direction));
    assert perp == Dot(pv, pv);
    PerpendicularSplit(tc, ray.direction);
  }

  /**
   * The scalar facts about a hit at `w = ray.At(t)`: `tc` is the centre `c`
   * seen from the origin, `proj` its projection on the unit direction,
   * `perp` the squared perpendicular distance, and `t` a root `proj -+ off`
   * with `off^2 = rr - perp`.
   */
  ghost predicate SurfaceFacts(tc: Vec3, ray: Ray, c: Vec3, proj: real, perp: real, off: real, rr: real, t: real, w: Vec3)
  {
    && tc == Sub(c, ray.origin) && Dot(ray.direction, ray.direction) == 1.0
    && proj == Dot(tc, ray.direction)
    && perp == Dot(tc, tc) - proj * proj && off * off == rr - perp
    && (t == proj - off || t == proj + off)
    && w == ray.At(t)
  }

  /** The surface computation on plain values. */
  lemma {:induction false} OnSurfaceCore(tc: Vec3, ray: Ray, c: Vec3, proj: real, perp: real, off: real, rr: real, t: real, w: Vec3)
    requires SurfaceFacts(tc, ray, c, proj, perp, off, rr, t, w)
    ensures OnSphere(w, c, rr)
  {
    var tt := Dot(tc, tc);
    OffsetSquared(tc, ray, c, t, proj, tt, w);
    RootOnCircle(tt, proj, perp, off, rr, t);
  }

  /** A sphere hit's distance is one of the two roots. */
  lemma HitIsRoot(s: Sphere, ray: Ray, fl: Floats, proj: real, perp: real, rr: real)
    requires proj == s.DirDistToCenter(ray) && perp == s.PerpLenSquared(ray) && rr == s.radius * s.radius
    requires s.TraceRay(ray, fl).Some?
    ensures var t := s.TraceRay(ray, fl).value.distance;
      t == proj - fl.sqrt(rr - perp) || t == proj + fl.sqrt(rr - perp)
  {
    assert s.Intersect(ray, fl).Some?;
    assert s.Intersect(ray, fl).value.0 == proj - fl.sqrt(rr - perp);
  }

  /** `|o + t d - c|^2 = |c - o|^2 - 2 t ((c - o).d) + t^2` for a unit `d`. */
  lemma {:induction false} OffsetSquared(tc: Vec3, ray: Ray, c: Vec3, t: real, proj: real, tt: real, w: Vec3)
    requires tc == Sub(c, ray.origin) && Dot(ray.direction, ray.direction) == 1.0
    requires proj == Dot(tc, ray.direction) && tt == Dot(tc, tc) && w == ray.At(t)
    ensures Dot(Sub(w, c), Sub(w, c)) == tt - 2.0 * t * proj + t * t
  {
    var d := ray.direction;
    var q := Sub(ray.At(t), c);
    assert q == Vec3(t * d.x - tc.x, t * d.y - tc.y, t * d.z - tc.z);
    ScaledDiffSquared(t, d.x, tc.x);
    ScaledDiffSquared(t, d.y, tc.y);
    ScaledDiffSquared(t, d.z, tc.z);
    assert t * t * d.x * d.x + t * t * d.y * d.y + t * t * d.z * d.z == t * t * Dot(d, d);
  }

  /** `(t u - v)^2 = t^2 u^2 - 2 t u v + v^2`. */
  lemma ScaledDiffSquared(t: real, u: real, v: real)
    ensures (t * u - v) * (t * u - v) == t * t * u * u - 2.0 * t * (v * u) + v * v
  {
  }

  /** Either root `proj -+ off`, with `off^2 = rr - perp` and `perp = tt - proj^2`, satisfies the circle equation. */
  lemma RootOnCircle(tt: real, proj: real, perp: real, off: real, rr: real, t: real)
    requires perp == tt - proj * proj && off * off == rr - perp
    requires t == proj - off || t == proj + off
    ensures tt - 2.0 * t * proj + t * t == rr
  {
    var e := t - proj;
    assert e * e == off * off;
    calc {
      tt - 2.0 * t * proj + t * t;
      == tt - 2.0 * (proj + e) * proj + (proj + e) * (proj + e);
      == tt - proj * proj + e * e;
    }
  }

  lemma NonNegSquare(a: real)
    ensures 0.0 <= a * a
  {
  }

  /** If `off >= 0` squares to more than `proj^2`, then `proj - off < 0 < proj + off`. */
  lemma RootsStraddle(proj: real, off: real, v: real)
    requires 0.0 <= off && off * off == v && proj * proj < v
    ensures proj - off < 0.0 < proj + off
  {
    if off <= proj || off <= -proj {
      SquareMonotone(off, if off <= proj then proj else -proj);
    }
  }

  /** With `|d| = 1`, `|t - (t.d) d|^2 = |t|^2 - (t.d)^2`. */
  lemma PerpendicularSplit(t: Vec3, d: Vec3)
    requires Dot(d, d) == 1.0
    ensures var p := Sub(t, Scale(Dot(t, d), d)); Dot(p, p) == Dot(t, t) - Dot(t, d) * Dot(t, d)
  {
    var k := Dot(t, d);
    var p := Sub(t, Scale(k, d));
    calc {
      Dot(p, p);
      == (t.x - k * d.x) * (t.x - k * d.x) + (t.y - k * d.y) * (t.y - k * d.y) + (t.z - k * d.z) * (t.z - k * d.z);
      == Dot(t, t) - 2.0 * k * (t.x * d.x + t.y * d.y + t.z * d.z) + k * k * (d.x * d.x + d.y * d.y + d.z * d.z);
      == Dot(t, t) - 2.0 * k * k + k * k * 1.0;
    }
  }

  lemma SquareMonotone(a: real, b: real)
    requires 0.0 <= a <= b
    ensures a * a <= b * b
  {
  }

  // ---------------------------------------------------------------------------
  // Plane

  /** Guard against rays parallel to the plane and origins in the plane through the world origin. */
  const PlaneEpsilon: real := 0.000001

  datatype Plane = Plane(normal: Vec3, center: Vec3, material: nat, nDotC: real, right: Vec3, up: Vec3)
  {
    /** `nDotC` caches the plane's offset along its normal. */
    ghost predicate Valid()
    {
      nDotC == Dot(normal, center)
    }

    /**
     * `Plane::new`: `up` is `normal x right`, `right` is re-derived as
     * `up x normal`, and all three are normalised.
     */
    static function New(normal: Vec3, right: Vec3, center: Vec3, material: nat, fl: Floats): (p: Plane)
      ensures p.Valid()
      ensures p.normal == fl.normalize(normal)
      ensures p.up == fl.normalize(Cross(normal, right))
      ensures p.right == fl.normalize(Cross(Cross(normal, right), normal))
      ensures p.center == center && p.material == material
    {
      var up := Cross(normal, right);
      var right' := fl.normalize(Cross(up, normal));
      var up' := fl.normalize(up);
      var normal' := fl.normalize(normal);
      Plane(normal', center, material, Dot(normal', center), right', up')
    }

    /**
     * The plane's hit. No hit when the ray is (nearly) parallel, when the
     * origin is (nearly) on the plane through the world origin with the same
     * normal, or when the plane is not ahead. A hit never starts inside; its
     * normal is `normal` when `normal . origin >= 0` and `-normal` otherwise,
     * which faces the origin's side only for planes through the world origin.
     */
    function TraceRay(ray: Ray): (h: Option<Hit>)
      ensures h.None? <==>
        || AbsR(Dot(normal, ray.direction)) <= PlaneEpsilon
        || AbsR(Dot(normal, ray.origin)) <= PlaneEpsilon
        || (nDotC - Dot(normal, ray.origin)) / Dot(normal, ray.direction) <= 0.0
      ensures h.Some? ==>
        && 0.0 < h.value.distance
        && !h.value.startedInside
        && h.value.distance == (nDotC - Dot(normal, ray.origin)) / Dot(normal, ray.direction)
        && h.value.worldPos == ray.At(h.value.distance)
        && h.value.worldNormal == (if Dot(normal, ray.origin) >= 0.0 then normal else Neg(normal))
        && h.value.localNormal == (if Dot(normal, ray.origin) >= 0.0 then UnitZ else NegUnitZ)
        && h.value.localPos.z == 0.0
        && h.value.localPos.x == Dot(right, Sub(h.value.worldPos, center))
        && h.value.localPos.y == Dot(up, Sub(h.value.worldPos, center))
        && h.value.localToWorld == Mat3(right, right, normal)
        && h.value.material == material
    {
      var nDotDir := Dot(normal, ray.direction);
      var nDotO := Dot(normal, ray.origin);
      if AbsR(nDotDir) > PlaneEpsilon && AbsR(nDotO) > PlaneEpsilon then
        var dist := (nDotC - nDotO) / nDotDir;
        if dist > 0.0 then
          var worldPos := ray.At(dist);
          var localOffset := Sub(worldPos, center);
          Some(Hit(
            worldPos,
            if nDotO >= 0.0 then normal else Neg(normal),
            Vec3(Dot(right, localOffset), Dot(up, localOffset), 0.0),
            if nDotO >= 0.0 then UnitZ else NegUnitZ,
            material,
            dist,
            false,
            Mat3(right, right, normal)))
        else
          None
      else
        None
    }

    /** Planes are unbounded. */
    function GetBounds(): (b: Option<(Vec3, Vec3)>)
      ensures b.None?
    {
      None
    }
  }

  /** A plane's hit point lies on the plane through its centre. */
  lemma {:induction false} PlaneHitOnPlane(p: Plane, ray: Ray)
    requires p.Valid()
    requires p.TraceRay(ray).Some?
    ensures Dot(p.normal, p.TraceRay(ray).value.worldPos) == Dot(p.normal, p.center)
  {
    var n, o, d := p.normal, ray.origin, ray.direction;
    var h := p.TraceRay(ray).value;
    var t, num, den := h.distance, p.nDotC - Dot(n, o), Dot(n, d);
    assert t == num / den && h.worldPos == Add(o, Scale(t, d));
    assert den != 0.0 by {
      assert !(AbsR(den) <= PlaneEpsilon);
    }
    QuotientTimes(num, den, t);
    DotAdd(n, o, Scale(t, d));
    DotScale(n, t, d);
  }

  lemma QuotientTimes(num: real, den: real, t: real)
    requires den != 0.0 && t == num / den
    ensures t * den == num
  {
  }

  // ---------------------------------------------------------------------------
  // Cuboid

  predicate NoZeroComponent(v: Vec3) { v.x != 0.0 && v.y != 0.0 && v.z != 0.0 }

  /** `lo, hi` are `a, b` in increasing order. */
  predicate SortedPair(lo: real, hi: real, a: real, b: real)
  {
    lo <= hi && ((lo == a && hi == b) || (lo == b && hi == a))
  }

  /** The six face normals in the order the face choice visits them: -X, -Y, -Z, +X, +Y, +Z. */
  function FaceLocalNormal(k: nat): Vec3
    requires k < 6
  {
    [NegUnitX, NegUnitY, NegUnitZ, UnitX, UnitY, UnitZ][k]
  }

  /** The same faces' normals in world space: the signed columns of the rotation. */
  function FaceWorldNormal(m: Mat3, k: nat): Vec3
    requires k < 6
  {
    [Neg(m.xAxis), Neg(m.yAxis), Neg(m.zAxis), m.xAxis, m.yAxis, m.zAxis][k]
  }

  /** Distances of a local point from the six face planes, in face order. */
  function FaceDistances(minsDist: Vec3, maxsDist: Vec3): seq<real>
  {
    [minsDist.x, minsDist.y, minsDist.z, maxsDist.x, maxsDist.y, maxsDist.z]
  }

  /**
   * The face chain of `Cuboid::trace_ray`: start with -X and move to each
   * later face in turn whose distance is strictly smaller than the best so far.
   */
  method ChooseFace(minsDist: Vec3, maxsDist: Vec3, m: Mat3) returns (localNorm: Vec3, worldNorm: Vec3, ghost k: nat)
    ensures IsFirstMin(FaceDistances(minsDist, maxsDist), k)
    ensures localNorm == FaceLocalNormal(k) && worldNorm == FaceWorldNormal(m, k)
    ensures localNorm == FaceLocalNormal(FirstMin(FaceDistances(minsDist, maxsDist)))
    ensures worldNorm == FaceWorldNormal(m, FirstMin(FaceDistances(minsDist, maxsDist)))
  {
    ghost var ds := FaceDistances(minsDist, maxsDist);
    FaceTable(minsDist, maxsDist, m);
    var best := minsDist.x;
    localNorm := NegUnitX;
    worldNorm := Neg(m.xAxis);
    k := 0;

    assert Holds(ds, m, k, best, localNorm, worldNorm);
    FirstMinStep(ds, 1, k);
    if minsDist.y < best {
      best := minsDist.y;
      localNorm := NegUnitY;
      worldNorm := Neg(m.yAxis);
      k := 1;
    }

    assert Holds(ds, m, k, best, localNorm, worldNorm);
    FirstMinStep(ds, 2, k);
    if minsDist.z < best {
      best := minsDist.z;
      localNorm := NegUnitZ;
      worldNorm := Neg(m.zAxis);
      k := 2;
    }

    assert Holds(ds, m, k, best, localNorm, worldNorm);
    FirstMinStep(ds, 3, k);
    if maxsDist.x < best {
      best := maxsDist.x;
      localNorm := UnitX;
      worldNorm := m.xAxis;
      k := 3;
    }

    assert Holds(ds, m, k, best, localNorm, worldNorm);
    FirstMinStep(ds, 4, k);
    if maxsDist.y < best {
      best := maxsDist.y;
      localNorm := UnitY;
      worldNorm := m.yAxis;
      k := 4;
    }

    assert Holds(ds, m, k, best, localNorm, worldNorm);
    FirstMinStep(ds, 5, k);
    if maxsDist.z < best {
      localNorm := UnitZ;
      worldNorm := m.zAxis;
      k := 5;
    }
    assert IsFirstMinOf(ds, 6, k);
    FirstMinUnique(ds, k, FirstMin(ds));
  }

  /** The face table entry by entry. */
  lemma FaceTable(minsDist: Vec3, maxsDist: Vec3, m: Mat3)
    ensures var ds := FaceDistances(minsDist, maxsDist);
      && |ds| == 6
      && ds[0] == minsDist.x && ds[1] == minsDist.y && ds[2] == minsDist.z
      && ds[3] == maxsDist.x && ds[4] == maxsDist.y && ds[5] == maxsDist.z
    ensures FaceLocalNormal(0) == NegUnitX && FaceLocalNormal(1) == NegUnitY && FaceLocalNormal(2) == NegUnitZ
    ensures FaceLocalNormal(3) == UnitX && FaceLocalNormal(4) == UnitY && FaceLocalNormal(5) == UnitZ
    ensures FaceWorldNormal(m, 0) == Neg(m.xAxis) && FaceWorldNormal(m, 1) == Neg(m.yAxis) && FaceWorldNormal(m, 2) == Neg(m.zAxis)
    ensures FaceWorldNormal(m, 3) == m.xAxis && FaceWorldNormal(m, 4) == m.yAxis && FaceWorldNormal(m, 5) == m.zAxis
  {
  }

  /** The chain's state names face `k`: its distance and its two normals. */
  ghost predicate Holds(ds: seq<real>, m: Mat3, k: nat, best: real, localNorm: Vec3, worldNorm: Vec3)
  {
    k < 6 && k < |ds| && best == ds[k] && localNorm == FaceLocalNormal(k) && worldNorm == FaceWorldNormal(m, k)
  }

  /** `k` is the first minimum of the first `n` values of `ds`. */
  ghost predicate IsFirstMinOf(ds: seq<real>, n: nat, k: nat)
  {
    && k < n <= |ds|
    && (forall j :: 0 <= j < k ==> ds[k] < ds[j])
    && (forall j :: k < j < n ==> ds[k] <= ds[j])
  }

  /** One link of the chain: the next value replaces the first minimum iff it is strictly smaller. */
  lemma FirstMinStep(ds: seq<real>, i: nat, k: nat)
    requires i < |ds| && IsFirstMinOf(ds, i, k)
    ensures if ds[i] < ds[k] then IsFirstMinOf(ds, i + 1, i) else IsFirstMinOf(ds, i + 1, k)
  {
  }

  /**
   * An oriented box: the rigid transform to and from its local frame and
   * its local corners.
   */
  datatype Cuboid = Cuboid(worldToLocal: Affine, localToWorld: Affine, mins: Vec3, maxs: Vec3, material: nat)
  {
    /**
     * `Cuboid::new` from an origin and the rotation matrix of the
     * orientation; the corners are sorted per axis. The inverse of a rigid
     * transform is taken as the transposed rotation.
     */
    static function New(origin: Vec3, orient: Mat3, mins: Vec3, maxs: Vec3, material: nat): (c: Cuboid)
      ensures LessEq(c.mins, c.maxs)
      ensures SortedPair(c.mins.x, c.maxs.x, mins.x, maxs.x)
      ensures SortedPair(c.mins.y, c.maxs.y, mins.y, maxs.y)
      ensures SortedPair(c.mins.z, c.maxs.z, mins.z, maxs.z)
      ensures c.localToWorld == Affine(orient, origin)
      ensures c.material == material
    {
      var localToWorld := Affine(orient, origin);
      var inverse := Transpose(orient);
      Cuboid(Affine(inverse, Neg(MulMV(inverse, origin))), localToWorld, MinV(mins, maxs), MaxV(mins, maxs), material)
    }

    /** The ray in the box's local frame. */
    function LocalRay(ray: Ray): Ray
    {
      Ray(TransformPoint(worldToLocal, ray.origin), TransformVector(worldToLocal, ray.direction))
    }

    /**
     * Entry and exit parameters of the slab test on a ray already in the
     * local frame: the tightest interval over the three axes.
     */
    function SlabLocal(lr: Ray): (real, real)
      requires NoZeroComponent(lr.direction)
    {
      var a := Div(Sub(mins, lr.origin), lr.direction);
      var b := Div(Sub(maxs, lr.origin), lr.direction);
      (MaxElement(MinV(a, b)), MinElement(MaxV(a, b)))
    }

    function Slab(ray: Ray): (real, real)
      requires NoZeroComponent(LocalRay(ray).direction)
    {
      SlabLocal(LocalRay(ray))
    }

    /** Where the ray's local image is at parameter `t`. */
    function LocalPoint(ray: Ray, t: real): Vec3
    {
      LocalRay(ray).At(t)
    }

    /**
     * The box's hit as specified: when the slab interval is nonempty and
     * ends ahead of the origin, the entry point, or the exit point if the
     * origin is inside; the face is the first of -X, -Y, -Z, +X, +Y, +Z whose
     * plane is nearest to the local hit point.
     */
    function SlabHit(ray: Ray): (h: Option<Hit>)
      requires NoZeroComponent(LocalRay(ray).direction)
      ensures h.Some? <==> Slab(ray).0 <= Slab(ray).1 && Slab(ray).1 > 0.0
      ensures h.Some? ==>
        var (near, far) := Slab(ray);
        var lp := LocalPoint(ray, h.value.distance);
        var ds := FaceDistances(Abs(Sub(mins, lp)), Abs(Sub(maxs, lp)));
        && h.value.startedInside == (near <= 0.0)
        && h.value.distance == (if near <= 0.0 then far else near)
        && 0.0 < h.value.distance
        && h.value.localPos == lp
        && h.value.worldPos == TransformPoint(localToWorld, lp)
        && (exists k :: IsFirstMin(ds, k)
                && h.value.localNormal == FaceLocalNormal(k)
                && h.value.worldNormal == FaceWorldNormal(localToWorld.matrix3, k))
        && h.value.localToWorld == localToWorld.matrix3
        && h.value.material == material
    {
      var (near, far) := Slab(ray);
      if near <= far && far > 0.0 then
        var startedInside := near <= 0.0;
        var dist := if startedInside then far else near;
        var lp := LocalPoint(ray, dist);
        var k := FirstMin(FaceDistances(Abs(Sub(mins, lp)), Abs(Sub(maxs, lp))));
        Some(Hit(TransformPoint(localToWorld, lp), FaceWorldNormal(localToWorld.matrix3, k), lp,
                 FaceLocalNormal(k), material, dist, startedInside, localToWorld.matrix3))
      else
        None
    }

    /** `Cuboid::trace_ray`: the slab test, then the face chosen by a chain of strict comparisons. */
    method TraceRay(ray: Ray) returns (h: Option<Hit>)
      requires NoZeroComponent(LocalRay(ray).direction)
      ensures h == SlabHit(ray)
    {
      var localOrigin := TransformPoint(worldToLocal, ray.origin);
      var localDir := TransformVector(worldToLocal, ray.direction);
      var a := Div(Sub(mins, localOrigin), localDir);
      var b := Div(Sub(maxs, localOrigin), localDir);
      var nearDist := MaxElement(MinV(a, b));
      var farDist := MinElement(MaxV(a, b));
      if nearDist <= farDist && farDist > 0.0 {
        var startedInside := nearDist <= 0.0;
        var dist := if startedInside then farDist else nearDist;
        var localPos := Add(localOrigin, Scale(dist, localDir));
        var minsDist := Abs(Sub(mins, localPos));
        var maxsDist := Abs(Sub(maxs, localPos));
        var m := localToWorld.matrix3;
        var localNorm, worldNorm, k := ChooseFace(minsDist, maxsDist, m);
        ghost var ds := FaceDistances(minsDist, maxsDist);
        FirstMinUnique(ds, k, FirstMin(ds));
        h := Some(Hit(TransformPoint(localToWorld, localPos), worldNorm, localPos, localNorm,
                      material, dist, startedInside, m));
      } else {
        h := None;
      }
    }

    /**
     * World-space bounds: the box centre mapped to world space, plus or
     * minus the sum of the absolute values of the scaled rotation columns.
     */
    function GetBounds(): (b: Option<(Vec3, Vec3)>)
      ensures b.Some? && LessEq(b.value.0, b.value.1)
      ensures Scale(0.5, Add(b.value.0, b.value.1)) ==
              TransformPoint(localToWorld, Add(mins, Scale(0.5, Sub(maxs, mins))))
    {
      var r := Scale(0.5, Sub(maxs, mins));
      var worldCenter := TransformPoint(localToWorld, Add(mins, r));
      var m := localToWorld.matrix3;
      var worldR := Add(Add(Abs(Mul(m.xAxis, Splat(r.x))), Abs(Mul(m.yAxis, Splat(r.y)))),
                        Abs(Mul(m.zAxis, Splat(r.z))));
      Some((Sub(worldCenter, worldR), Add(worldCenter, worldR)))
    }
  }

  /** The rotation's columns are orthonormal. */
  predicate Orthonormal(m: Mat3)
  {
    && Dot(m.xAxis, m.xAxis) == 1.0 && Dot(m.yAxis, m.yAxis) == 1.0 && Dot(m.zAxis, m.zAxis) == 1.0
    && Dot(m.xAxis, m.yAxis) == 0.0 && Dot(m.xAxis, m.zAxis) == 0.0 && Dot(m.yAxis, m.zAxis) == 0.0
  }

  /**
   * For a rotation, the stored world-to-local transform undoes the
   * local-to-world one: a local point mapped to world space and back is itself.
   */
  lemma {:induction false} CuboidFrameRoundTrip(origin: Vec3, orient: Mat3, mins: Vec3, maxs: Vec3, material: nat, p: Vec3)
    requires Orthonormal(orient)
    ensures var c := Cuboid.New(origin, orient, mins, maxs, material);
      TransformPoint(c.worldToLocal, TransformPoint(c.localToWorld, p)) == p
  {
    var c := Cuboid.New(origin, orient, mins, maxs, material);
    var inv := Transpose(orient);
    var w := MulMV(orient, p);
    assert TransformPoint(c.localToWorld, p) == Add(w, origin);
    LinearAdd(inv, w, origin);
    TransposeUndoes(orient, p);
  }

  /**
   * For a rotation (orthonormal columns and rows), the stored local-to-world
   * transform undoes the world-to-local one: a world point mapped to local
   * space and back is itself.
   */
  lemma {:induction false} CuboidFrameRoundTripBack(origin: Vec3, orient: Mat3, mins: Vec3, maxs: Vec3, material: nat, p: Vec3)
    requires Orthonormal(orient) && Orthonormal(Transpose(orient))
    ensures var c := Cuboid.New(origin, orient, mins, maxs, material);
      TransformPoint(c.localToWorld, TransformPoint(c.worldToLocal, p)) == p
  {
    var c := Cuboid.New(origin, orient, mins, maxs, material);
    var inv := Transpose(orient);
    assert Transpose(inv) == orient;
    var q := MulMV(inv, p);
    var r := MulMV(inv, origin);
    assert TransformPoint(c.worldToLocal, p) == Add(q, Neg(r));
    LinearSub(orient, q, r);
    TransposeUndoes(inv, p);
    TransposeUndoes(inv, origin);
  }

  /**
   * A box hit's distance is a parameter along the world ray, as sphere and
   * plane distances are: for a rotation, the reported world position is the
   * world ray at the reported distance.
   */
  lemma {:induction false} CuboidHitOnRay(origin: Vec3, orient: Mat3, mins: Vec3, maxs: Vec3, material: nat, ray: Ray)
    requires Orthonormal(orient) && Orthonormal(Transpose(orient))
    requires NoZeroComponent(Cuboid.New(origin, orient, mins, maxs, material).LocalRay(ray).direction)
    ensures var h := Cuboid.New(origin, orient, mins, maxs, material).SlabHit(ray);
      h.Some? ==> h.value.worldPos == ray.At(h.value.distance)
  {
    var c := Cuboid.New(origin, orient, mins, maxs, material);
    var h := c.SlabHit(ray);
    if h.Some? {
      var t := h.value.distance;
      var inv := Transpose(orient);
      var q := TransformPoint(c.worldToLocal, ray.origin);
      var e := MulMV(inv, ray.direction);
      assert c.LocalRay(ray) == Ray(q, e);
      assert h.value.worldPos == Add(MulMV(orient, Add(q, Scale(t, e))), origin);
      MulAdd(orient, q, Scale(t, e));
      MulScale(orient, t, e);
      assert Transpose(inv) == orient;
      TransposeUndoes(inv, ray.direction);
      CuboidFrameRoundTripBack(origin, orient, mins, maxs, material, ray.origin);
    }
  }

  /** Matrix application commutes with scaling. */
  lemma {:induction false} MulScale(m: Mat3, t: real, v: Vec3)
    ensures MulMV(m, Scale(t, v)) == Scale(t, MulMV(m, v))
  {
    var x, y, z := m.xAxis, m.yAxis, m.zAxis;
    assert MulMV(m, v) == Combination(v, x, y, z);
    assert MulMV(m, Scale(t, v)) == Combination(Scale(t, v), x, y, z);
    CombinationScale(t, v, x, y, z);
  }

  /** `v.x x + v.y y + v.z z`: the combination of the columns that `MulMV` forms. */
  function Combination(v: Vec3, x: Vec3, y: Vec3, z: Vec3): Vec3
  {
    Add(Add(Scale(v.x, x), Scale(v.y, y)), Scale(v.z, z))
  }

  /** Scaling the coefficients scales the combination. */
  lemma {:induction false} CombinationScale(t: real, v: Vec3, x: Vec3, y: Vec3, z: Vec3)
    ensures Combination(Scale(t, v), x, y, z) == Scale(t, Combination(v, x, y, z))
  {
    var a, b, c := Scale(v.x, x), Scale(v.y, y), Scale(v.z, z);
    var w := Scale(t, v);
    ScaledCoefficients(t, v, w, x, y, z);
    CombinationOf(w, x, y, z, Scale(t, a), Scale(t, b), Scale(t, c));
    ScaleAdd(t, Add(a, b), c);
    ScaleAdd(t, a, b);
  }

  /** Each coefficient of `t v`, scaling a column, is `t` times that coefficient's scaling. */
  lemma ScaledCoefficients(t: real, v: Vec3, w: Vec3, x: Vec3, y: Vec3, z: Vec3)
    requires w == Scale(t, v)
    ensures Scale(w.x, x) == Scale(t, Scale(v.x, x))
    ensures Scale(w.y, y) == Scale(t, Scale(v.y, y))
    ensures Scale(w.z, z) == Scale(t, Scale(v.z, z))
  {
    assert w.x == t * v.x && w.y == t * v.y && w.z == t * v.z;
    ScaledCoefficient(t, v.x, w.x, x);
    ScaledCoefficient(t, v.y, w.y, y);
    ScaledCoefficient(t, v.z, w.z, z);
  }

  /** One row of `ScaledCoefficients`. */
  lemma ScaledCoefficient(t: real, c: real, tc: real, u: Vec3)
    requires tc == t * c
    ensures Scale(tc, u) == Scale(t, Scale(c, u))
  {
    ScaleScale(t, c, u);
  }

  /** A combination whose scaled columns are `p`, `q` and `r` is their sum. */
  lemma CombinationOf(w: Vec3, x: Vec3, y: Vec3, z: Vec3, p: Vec3, q: Vec3, r: Vec3)
    requires Scale(w.x, x) == p && Scale(w.y, y) == q && Scale(w.z, z) == r
    ensures Combination(w, x, y, z) == Add(Add(p, q), r)
  {
  }

  /** Scaling twice is scaling by the product. */
  lemma ScaleScale(a: real, b: real, u: Vec3)
    ensures Scale(a * b, u) == Scale(a, Scale(b, u))
  {
  }

  /** Scaling distributes over a sum. */
  lemma ScaleAdd(a: real, u: Vec3, v: Vec3)
    ensures Scale(a, Add(u, v)) == Add(Scale(a, u), Scale(a, v))
  {
  }

  /** A matrix applied to a difference is the difference of its values. */
  lemma {:induction false} LinearSub(m: Mat3, u: Vec3, v: Vec3)
    ensures MulMV(m, Add(u, Neg(v))) == Add(MulMV(m, u), Neg(MulMV(m, v)))
  {
    MulAdd(m, u, Neg(v));
    MulNeg(m, v);
  }

  /** Matrix application distributes over a sum. */
  lemma {:induction false} MulAdd(m: Mat3, u: Vec3, v: Vec3)
    ensures MulMV(m, Add(u, v)) == Add(MulMV(m, u), MulMV(m, v))
  {
    var x, y, z := m.xAxis, m.yAxis, m.zAxis;
    var w := Add(u, v);
    assert w.x == u.x + v.x && w.y == u.y + v.y && w.z == u.z + v.z;
    assert MulMV(m, w) == Add(Add(Scale(u.x + v.x, x), Scale(u.y + v.y, y)), Scale(u.z + v.z, z));
    ScaleSum(u.x, v.x, x);
    ScaleSum(u.y, v.y, y);
    ScaleSum(u.z, v.z, z);
    Regroup(Scale(u.x, x), Scale(u.y, y), Scale(u.z, z), Scale(v.x, x), Scale(v.y, y), Scale(v.z, z));
  }

  /** Scaling is additive in the scale factor. */
  lemma ScaleSum(a: real, b: real, u: Vec3)
    ensures Scale(a + b, u) == Add(Scale(a, u), Scale(b, u))
  {
  }

  /** Sums of vectors may be regrouped. */
  lemma Regroup(a1: Vec3, a2: Vec3, a3: Vec3, b1: Vec3, b2: Vec3, b3: Vec3)
    ensures Add(Add(Add(a1, b1), Add(a2, b2)), Add(a3, b3)) == Add(Add(Add(a1, a2), a3), Add(Add(b1, b2), b3))
  {
  }

  /** Matrix application commutes with negation. */
  lemma {:induction false} MulNeg(m: Mat3, v: Vec3)
    ensures MulMV(m, Neg(v)) == Neg(MulMV(m, v))
  {
    NegRow(m.xAxis.x, m.yAxis.x, m.zAxis.x, v);
    NegRow(m.xAxis.y, m.yAxis.y, m.zAxis.y, v);
    NegRow(m.xAxis.z, m.yAxis.z, m.zAxis.z, v);
  }

  /** One row of `MulNeg`. */
  lemma NegRow(c1: real, c2: real, c3: real, v: Vec3)
    ensures (-v.x) * c1 + (-v.y) * c2 + (-v.z) * c3 == -(v.x * c1 + v.y * c2 + v.z * c3)
  {
    Negate3(v.x, v.y, v.z, c1, c2, c3);
  }

  lemma Negate3(a1: real, a2: real, a3: real, c1: real, c2: real, c3: real)
    ensures (-a1) * c1 + (-a2) * c2 + (-a3) * c3 == -(a1 * c1 + a2 * c2 + a3 * c3)
  {
  }

  /** A matrix applied to a sum, minus its value on the second summand, is its value on the first. */
  lemma {:induction false} LinearAdd(m: Mat3, u: Vec3, v: Vec3)
    ensures Add(MulMV(m, Add(u, v)), Neg(MulMV(m, v))) == MulMV(m, u)
  {
    MulAdd(m, u, v);
  }

  /** The transpose of an orthonormal matrix is its inverse. */
  lemma {:induction false} TransposeUndoes(m: Mat3, p: Vec3)
    requires Orthonormal(m)
    ensures MulMV(Transpose(m), MulMV(m, p)) == p
  {
    var w := MulMV(m, p);
    var x, y, z := m.xAxis, m.yAxis, m.zAxis;
    assert MulMV(Transpose(m), w) == Vec3(Dot(x, w), Dot(y, w), Dot(z, w));
    ColumnDot(x, x, y, z, p);
    ColumnDot(y, x, y, z, p);
    ColumnDot(z, x, y, z, p);
    assert Dot(y, x) == 0.0 && Dot(z, x) == 0.0 && Dot(z, y) == 0.0 by {
      DotSymmetric(x, y);
      DotSymmetric(x, z);
      DotSymmetric(y, z);
    }
  }

  lemma DotSymmetric(a: Vec3, b: Vec3)
    ensures Dot(a, b) == Dot(b, a)
  {
  }

  /** `a . (p.x x + p.y y + p.z z) = p.x (a.x) + p.y (a.y) + p.z (a.z)`, dot products with columns. */
  lemma ColumnDot(a: Vec3, x: Vec3, y: Vec3, z: Vec3, p: Vec3)
    ensures Dot(a, MulMV(Mat3(x, y, z), p)) == p.x * Dot(a, x) + p.y * Dot(a, y) + p.z * Dot(a, z)
  {
    DotAdd(a, Add(Scale(p.x, x), Scale(p.y, y)), Scale(p.z, z));
    DotAdd(a, Scale(p.x, x), Scale(p.y, y));
    DotScale(a, p.x, x);
    DotScale(a, p.y, y);
    DotScale(a, p.z, z);
  }

  lemma DotAdd(a: Vec3, u: Vec3, v: Vec3)
    ensures Dot(a, Add(u, v)) == Dot(a, u) + Dot(a, v)
  {
  }

  lemma DotScale(a: Vec3, k: real, u: Vec3)
    ensures Dot(a, Scale(k, u)) == k * Dot(a, u)
  {
  }

  /**
   * Per axis: with `a`, `b` the parameters where the ray crosses the two
   * slab planes, `t` lies between them iff the point `p` at `t` lies in the slab.
   */
  lemma AxisSlab(lo: real, hi: real, o: real, d: real, t: real, a: real, b: real, p: real)
    requires d != 0.0 && lo <= hi
    requires a == (lo - o) / d && b == (hi - o) / d && p == o + t * d
    ensures MinR(a, b) <= t <= MaxR(a, b) <==> lo <= p <= hi
  {
    assert a * d == lo - o && b * d == hi - o;
    assert t * d == p - o;
    if d > 0.0 {
      RisingSlab(lo, hi, o, d, t, a, b, p);
      assert MinR(a, b) == a && MaxR(a, b) == b;
    } else {
      FallingSlab(lo, hi, o, d, t, a, b, p);
      assert MinR(a, b) == b && MaxR(a, b) == a;
    }
  }

  /** `AxisSlab` for a positive direction component: the ray meets `lo` first. */
  lemma RisingSlab(lo: real, hi: real, o: real, d: real, t: real, a: real, b: real, p: real)
    requires 0.0 < d && lo <= hi
    requires a * d == lo - o && b * d == hi - o && t * d == p - o
    ensures a <= b && (a <= t <==> lo <= p) && (t <= b <==> p <= hi)
  {
    ScaleOrder(a, b, d);
    ScaleOrder(a, t, d);
    ScaleOrder(t, b, d);
  }

  /** `AxisSlab` for a negative direction component: the ray meets `hi` first. */
  lemma FallingSlab(lo: real, hi: real, o: real, d: real, t: real, a: real, b: real, p: real)
    requires d < 0.0 && lo <= hi
    requires a * d == lo - o && b * d == hi - o && t * d == p - o
    ensures b <= a && (b <= t <==> p <= hi) && (t <= a <==> lo <= p)
  {
    ScaleOrder(b, a, d);
    ScaleOrder(b, t, d);
    ScaleOrder(t, a, d);
  }

  /** Multiplying by a nonzero `d` keeps or reverses an order according to its sign. */
  lemma ScaleOrder(x: real, y: real, d: real)
    requires d != 0.0
    ensures d > 0.0 ==> (x <= y <==> x * d <= y * d)
    ensures d < 0.0 ==> (x <= y <==> y * d <= x * d)
  {
    if d > 0.0 {
      if x <= y { assert (y - x) * d >= 0.0; } else { assert (x - y) * d > 0.0; }
    } else {
      if x <= y { assert (y - x) * d <= 0.0; } else { assert (x - y) * d < 0.0; }
    }
  }

  /**
   * The slab interval is exactly the set of parameters at which the ray's
   * local image is inside the box: clipping by six half-spaces.
   */
  lemma SlabIsBoxClip(c: Cuboid, lr: Ray, t: real)
    requires LessEq(c.mins, c.maxs)
    requires NoZeroComponent(lr.direction)
    ensures c.SlabLocal(lr).0 <= t <= c.SlabLocal(lr).1 <==> LessEq(c.mins, lr.At(t)) && LessEq(lr.At(t), c.maxs)
  {
    var a := Div(Sub(c.mins, lr.origin), lr.direction);
    var b := Div(Sub(c.maxs, lr.origin), lr.direction);
    var p := lr.At(t);
    SlabAxes(c.mins, c.maxs, lr, t, a, b, p);
    ClipFromAxes(a, b, t, p, c.mins, c.maxs);
    assert c.SlabLocal(lr) == (MaxElement(MinV(a, b)), MinElement(MaxV(a, b)));
  }

  /** The per-axis slab facts for one ray and parameter. */
  lemma SlabAxes(mins: Vec3, maxs: Vec3, lr: Ray, t: real, a: Vec3, b: Vec3, p: Vec3)
    requires LessEq(mins, maxs) && NoZeroComponent(lr.direction)
    requires a == Div(Sub(mins, lr.origin), lr.direction) && b == Div(Sub(maxs, lr.origin), lr.direction)
    requires p == lr.At(t)
    ensures MinR(a.x, b.x) <= t <= MaxR(a.x, b.x) <==> mins.x <= p.x <= maxs.x
    ensures MinR(a.y, b.y) <= t <= MaxR(a.y, b.y) <==> mins.y <= p.y <= maxs.y
    ensures MinR(a.z, b.z) <= t <= MaxR(a.z, b.z) <==> mins.z <= p.z <= maxs.z
  {
    var o, d := lr.origin, lr.direction;
    SlabComponents(mins, o, d, a);
    SlabComponents(maxs, o, d, b);
    AtComponents(lr, t, p);
    AxisSlab(mins.x, maxs.x, o.x, d.x, t, a.x, b.x, p.x);
    AxisSlab(mins.y, maxs.y, o.y, d.y, t, a.y, b.y, p.y);
    AxisSlab(mins.z, maxs.z, o.z, d.z, t, a.z, b.z, p.z);
  }

  /** The components of the slab parameters `(corner - o) / d`. */
  lemma SlabComponents(corner: Vec3, o: Vec3, d: Vec3, a: Vec3)
    requires NoZeroComponent(d) && a == Div(Sub(corner, o), d)
    ensures a.x == (corner.x - o.x) / d.x && a.y == (corner.y - o.y) / d.y && a.z == (corner.z - o.z) / d.z
  {
  }

  /** The components of a point on a ray. */
  lemma AtComponents(r: Ray, t: real, p: Vec3)
    requires p == r.At(t)
    ensures p.x == r.origin.x + t * r.direction.x
    ensures p.y == r.origin.y + t * r.direction.y
    ensures p.z == r.origin.z + t * r.direction.z
  {
  }

  /** The tightest interval contains `t` iff every axis's interval does. */
  lemma ClipFromAxes(a: Vec3, b: Vec3, t: real, p: Vec3, mins: Vec3, maxs: Vec3)
    requires MinR(a.x, b.x) <= t <= MaxR(a.x, b.x) <==> mins.x <= p.x <= maxs.x
    requires MinR(a.y, b.y) <= t <= MaxR(a.y, b.y) <==> mins.y <= p.y <= maxs.y
    requires MinR(a.z, b.z) <= t <= MaxR(a.z, b.z) <==> mins.z <= p.z <= maxs.z
    ensures MaxElement(MinV(a, b)) <= t <= MinElement(MaxV(a, b)) <==> LessEq(mins, p) && LessEq(p, maxs)
  {
  }

  /** The same for a world-space ray: the box hit's interval is the ray's clip by the box. */
  lemma SlabIsWorldBoxClip(c: Cuboid, ray: Ray, t: real)
    requires LessEq(c.mins, c.maxs)
    requires NoZeroComponent(c.LocalRay(ray).direction)
    ensures c.Slab(ray).0 <= t <= c.Slab(ray).1 <==>
            LessEq(c.mins, c.LocalPoint(ray, t)) && LessEq(c.LocalPoint(ray, t), c.maxs)
  {
    SlabIsBoxClip(c, c.LocalRay(ray), t);
  }

  // ---------------------------------------------------------------------------
  // The closed set of shapes

  datatype Shape = SphereShape(sphere: Sphere) | PlaneShape(plane: Plane) | CuboidShape(cuboid: Cuboid)
  {
    function Material(): nat
    {
      match this
      case SphereShape(s) => s.material
      case PlaneShape(p) => p.material
      case CuboidShape(c) => c.material
    }

    /**
     * What the shape reports for a ray. A box whose local ray direction has a
     * zero component is reported as missed.
     */
    function HitOf(ray: Ray, fl: Floats): (h: Option<Hit>)
      ensures h.Some? ==> h.value.material == Material()
      ensures h.Some? ==> 0.0 <= h.value.distance
      ensures h.Some? && !CuboidShape? ==> h.value.worldPos == ray.At(h.value.distance)
    {
      match this
      case SphereShape(s) => s.TraceRay(ray, fl)
      case PlaneShape(p) => p.TraceRay(ray)
      case CuboidShape(c) =>
        if NoZeroComponent(c.LocalRay(ray).direction) then c.SlabHit(ray) else None
    }

    /** `Shape::trace_ray`, dispatched on the variant. */
    method TraceRay(ray: Ray, fl: Floats) returns (h: Option<Hit>)
      ensures h == HitOf(ray, fl)
    {
      match this
      case SphereShape(s) =>
        h := s.TraceRay(ray, fl);
      case PlaneShape(p) =>
        h := p.TraceRay(ray);
      case CuboidShape(c) =>
        if NoZeroComponent(c.LocalRay(ray).direction) {
          h := c.TraceRay(ray);
        } else {
          h := None;
        }
    }

    /** `Shape::get_bounds`, dispatched on the variant. */
    function GetBounds(): (b: Option<(Vec3, Vec3)>)
      ensures PlaneShape? <==> b.None?
      ensures b.Some? && SphereShape? ==> b.value.0 == b.value.1
      ensures b.Some? && CuboidShape? ==> LessEq(b.value.0, b.value.1)
    {
      match this
      case SphereShape(s) => s.GetBounds()
      case PlaneShape(p) => p.GetBounds()
      case CuboidShape(c) => c.GetBounds()
    }
  }
}
