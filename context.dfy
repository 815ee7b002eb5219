/**
 * The sampling context (`TraceContext` in src/scene.rs): a recursion-depth
 * gate and three lazily grown pools of quasi-random generators, one for each
 * dimensionality (scalar, 2-D and 3-D draws), each with its own cursor.
 *
 * A quasi-random generator is modelled by its seed and the number of values
 * it has produced; a draw is identified by the generator's seed and the
 * position of the value in its sequence, which determines the value.
 */
module Context {
  import opened Geom

  newtype i32 = x: int | -0x8000_0000 <= x < 0x8000_0000

  /**
   * The seed `fract(exp(ordinal + reseed))` given to the generator appended
   * at pool index `ordinal - 1`, kept symbolic.
   */
  datatype Seed = Seed(ordinal: nat, reseed: real)

  /** A quasi-random generator: its seed and how many values it has produced. */
  datatype Qrng = Qrng(seed: Seed, drawn: nat)

  /** The `index`-th value (from 0) of the quasi-random sequence seeded with `seed`. */
  datatype Draw = Draw(seed: Seed, index: nat)

  /** A pool of generators and the cursor naming the next one to draw from. */
  datatype Pool = Pool(list: seq<Qrng>, next: nat)

  datatype PoolStep = PoolStep(pool: Pool, draw: Draw)

  /**
   * One draw from a pool (the body of `rng1`, `rng2` and `rng3`): when the
   * cursor is at or past the end, the cursor is moved to the end and a fresh
   * generator is appended; then the generator under the cursor produces its
   * next value and the cursor advances.
   */
  function PoolDraw(p: Pool, reseed: real): (r: PoolStep)
    ensures |p.list| <= |r.pool.list| <= |p.list| + 1
    ensures |r.pool.list| == |p.list| + 1 <==> p.next >= |p.list|
    ensures 0 < r.pool.next <= |r.pool.list|
    ensures r.pool.next == (if p.next >= |p.list| then |p.list| else p.next) + 1
    ensures forall i :: 0 <= i < |p.list| && i != r.pool.next - 1 ==> r.pool.list[i] == p.list[i]
    ensures p.next < |p.list| ==>
      r.pool.list[p.next] == Qrng(p.list[p.next].seed, p.list[p.next].drawn + 1)
    ensures p.next >= |p.list| ==> r.pool.list[|p.list|] == Qrng(Seed(|p.list| + 1, reseed), 1)
    ensures r.draw == Draw(r.pool.list[r.pool.next - 1].seed, r.pool.list[r.pool.next - 1].drawn - 1)
  {
    var (list, n) :=
      if p.next >= |p.list| then (p.list + [Qrng(Seed(|p.list| + 1, reseed), 0)], |p.list|)
      else (p.list, p.next);
    PoolStep(Pool(list[n := Qrng(list[n].seed, list[n].drawn + 1)], n + 1),
             Draw(list[n].seed, list[n].drawn))
  }

  /** `k` consecutive draws from a pool. */
  function DrawMany(p: Pool, reseed: real, k: nat): Pool
    decreases k
  {
    if k == 0 then p else DrawMany(PoolDraw(p, reseed).pool, reseed, k - 1)
  }

  /**
   * Drawing `k` times from a pool whose cursor is at its end appends `k`
   * generators, the i-th of them seeded from its own index plus one and the
   * reseed value, each having produced one value.
   */
  lemma {:induction false} DrawingPastTheEndAppends(p: Pool, reseed: real, k: nat)
    requires p.next == |p.list|
    ensures DrawMany(p, reseed, k).next == |p.list| + k
    ensures |DrawMany(p, reseed, k).list| == |p.list| + k
    ensures DrawMany(p, reseed, k).list[..|p.list|] == p.list
    ensures forall i :: |p.list| <= i < |p.list| + k ==>
      DrawMany(p, reseed, k).list[i] == Qrng(Seed(i + 1, reseed), 1)
    decreases k
  {
    if k > 0 {
      var q := PoolDraw(p, reseed).pool;
      assert q.list == p.list + [Qrng(Seed(|p.list| + 1, reseed), 1)];
      DrawingPastTheEndAppends(q, reseed, k - 1);
      assert q.list[..|p.list|] == p.list;
    }
  }

  /** After `next_pixel` (cursor 0, empty pool) the pool is rebuilt entry by entry. */
  lemma FreshPoolSeeds(reseed: real, k: nat)
    ensures |DrawMany(Pool([], 0), reseed, k).list| == k
    ensures forall i :: 0 <= i < k ==> DrawMany(Pool([], 0), reseed, k).list[i] == Qrng(Seed(i + 1, reseed), 1)
  {
    DrawingPastTheEndAppends(Pool([], 0), reseed, k);
  }

  /**
   * Drawing `k` times from cursor `j` inside a pool reuses the generators at
   * `j .. j+k`, each advancing by one value, and appends nothing.
   */
  lemma {:induction false} DrawingInsideReuses(p: Pool, reseed: real, k: nat)
    requires p.next + k <= |p.list|
    ensures DrawMany(p, reseed, k).next == p.next + k
    ensures |DrawMany(p, reseed, k).list| == |p.list|
    ensures forall i :: 0 <= i < |p.list| ==>
      DrawMany(p, reseed, k).list[i] ==
        if p.next <= i < p.next + k then Qrng(p.list[i].seed, p.list[i].drawn + 1) else p.list[i]
    decreases k
  {
    if k > 0 {
      var q := PoolDraw(p, reseed).pool;
      DrawingInsideReuses(q, reseed, k - 1);
    }
  }

  /**
   * After `next_sample` (cursor 0) the next `k <= |pool|` draws continue the
   * same generators, in order, without adding any.
   */
  lemma SampleRestartReusesGenerators(list: seq<Qrng>, reseed: real, k: nat)
    requires k <= |list|
    ensures DrawMany(Pool(list, 0), reseed, k).next == k
    ensures |DrawMany(Pool(list, 0), reseed, k).list| == |list|
    ensures forall i :: 0 <= i < |list| ==>
      DrawMany(Pool(list, 0), reseed, k).list[i].seed == list[i].seed
  {
    DrawingInsideReuses(Pool(list, 0), reseed, k);
  }

  class TraceContext {
    var currentDepth: i32
    const maxDepth: i32

    var nextRng1: nat
    var nextRng2: nat
    var nextRng3: nat
    var rng1List: seq<Qrng>
    var rng2List: seq<Qrng>
    var rng3List: seq<Qrng>
    var reseed: real

    /** The depth bounds that `try_push` and `pop` assert. */
    ghost predicate DepthOk()
      reads this
    {
      0 <= currentDepth <= maxDepth
    }

    /** Every cursor is within its pool; the draws keep it so. */
    ghost predicate CursorsOk()
      reads this
    {
      nextRng1 <= |rng1List| && nextRng2 <= |rng2List| && nextRng3 <= |rng3List|
    }

    ghost predicate Valid()
      reads this
    {
      DepthOk() && CursorsOk()
    }

    /**
     * `TraceContext::new`; `reseed` is the value the renderer draws from its
     * thread-local random source.
     */
    constructor (maxDepth: i32, reseed: real)
      ensures this.maxDepth == maxDepth && this.reseed == reseed
      ensures currentDepth == 0
      ensures nextRng1 == 0 && nextRng2 == 0 && nextRng3 == 0
      ensures rng1List == [] && rng2List == [] && rng3List == []
      ensures CursorsOk()
      ensures Valid() <==> 0 <= maxDepth
    {
      currentDepth := 0;
      this.maxDepth := maxDepth;
      nextRng1, nextRng2, nextRng3 := 0, 0, 0;
      rng1List, rng2List, rng3List := [], [], [];
      this.reseed := reseed;
    }

    /** Enter one more recursion level unless the depth limit is reached. */
    method TryPush() returns (ok: bool)
      requires DepthOk()
      modifies this`currentDepth
      ensures DepthOk()
      ensures ok <==> old(currentDepth) != maxDepth
      ensures ok ==> currentDepth == old(currentDepth) + 1
      ensures !ok ==> currentDepth == old(currentDepth)
    {
      if currentDepth == maxDepth {
        ok := false;
      } else {
        currentDepth := currentDepth + 1;
        ok := true;
      }
    }

    /** Leave a recursion level reserved by a successful `TryPush`. */
    method Pop()
      requires 0 < currentDepth <= maxDepth
      modifies this`currentDepth
      ensures DepthOk()
      ensures currentDepth == old(currentDepth) - 1
    {
      currentDepth := currentDepth - 1;
    }

    /** A scalar quasi-random draw. */
    method Rng1() returns (d: Draw)
      modifies this`nextRng1, this`rng1List
      ensures Pool(rng1List, nextRng1) == PoolDraw(Pool(old(rng1List), old(nextRng1)), reseed).pool
      ensures d == PoolDraw(Pool(old(rng1List), old(nextRng1)), reseed).draw
      ensures nextRng1 <= |rng1List|
    {
      if nextRng1 >= |rng1List| {
        nextRng1 := |rng1List|;
        var seed := Seed(nextRng1 + 1, reseed);
        rng1List := rng1List + [Qrng(seed, 0)];
      }
      nextRng1 := nextRng1 + 1;
      var g := rng1List[nextRng1 - 1];
      d := Draw(g.seed, g.drawn);
      rng1List := rng1List[nextRng1 - 1 := Qrng(g.seed, g.drawn + 1)];
    }

    /** A 2-D quasi-random draw. */
    method Rng2() returns (d: Draw)
      modifies this`nextRng2, this`rng2List
      ensures Pool(rng2List, nextRng2) == PoolDraw(Pool(old(rng2List), old(nextRng2)), reseed).pool
      ensures d == PoolDraw(Pool(old(rng2List), old(nextRng2)), reseed).draw
      ensures nextRng2 <= |rng2List|
    {
      if nextRng2 >= |rng2List| {
        nextRng2 := |rng2List|;
        var seed := Seed(nextRng2 + 1, reseed);
        rng2List := rng2List + [Qrng(seed, 0)];
      }
      nextRng2 := nextRng2 + 1;
      var g := rng2List[nextRng2 - 1];
      d := Draw(g.seed, g.drawn);
      rng2List := rng2List[nextRng2 - 1 := Qrng(g.seed, g.drawn + 1)];
    }

    /** A 3-D quasi-random draw. */
    method Rng3() returns (d: Draw)
      modifies this`nextRng3, this`rng3List
      ensures Pool(rng3List, nextRng3) == PoolDraw(Pool(old(rng3List), old(nextRng3)), reseed).pool
      ensures d == PoolDraw(Pool(old(rng3List), old(nextRng3)), reseed).draw
      ensures nextRng3 <= |rng3List|
    {
      if nextRng3 >= |rng3List| {
        nextRng3 := |rng3List|;
        var seed := Seed(nextRng3 + 1, reseed);
        rng3List := rng3List + [Qrng(seed, 0)];
      }
      nextRng3 := nextRng3 + 1;
      var g := rng3List[nextRng3 - 1];
      d := Draw(g.seed, g.drawn);
      rng3List := rng3List[nextRng3 - 1 := Qrng(g.seed, g.drawn + 1)];
    }

    /** Start the next sample of the same pixel: restart every pool from its first generator. */
    method NextSample()
      requires currentDepth == 0
      modifies this`nextRng1, this`nextRng2, this`nextRng3
      ensures nextRng1 == 0 && nextRng2 == 0 && nextRng3 == 0
    {
      nextRng1 := 0;
      nextRng2 := 0;
      nextRng3 := 0;
    }

    /**
     * Start the next pixel: restart and empty every pool and take a new
     * reseed value (`freshReseed`, drawn by the renderer from its thread-local
     * random source).
     */
    method NextPixel(freshReseed: real)
      requires currentDepth == 0
      modifies this`nextRng1, this`nextRng2, this`nextRng3,
               this`rng1List, this`rng2List, this`rng3List, this`reseed
      ensures nextRng1 == 0 && nextRng2 == 0 && nextRng3 == 0
      ensures rng1List == [] && rng2List == [] && rng3List == []
      ensures reseed == freshReseed
    {
      nextRng1 := 0;
      nextRng2 := 0;
      nextRng3 := 0;
      rng1List := [];
      rng2List := [];
      rng3List := [];
      reseed := freshReseed;
    }

    /**
     * Jitter `v` by up to `blurAmount` (clamped to `[0, 0.999]`) in each axis
     * using one 3-D draw, whose value in `[0, 1)^3` is `value3(draw)`, and
     * normalise the result.
     */
    method BlurVector(v: Vec3, blurAmount: real, fl: Floats, value3: Draw -> Vec3) returns (r: Vec3)
      modifies this`nextRng3, this`rng3List
      ensures Pool(rng3List, nextRng3) == PoolDraw(Pool(old(rng3List), old(nextRng3)), reseed).pool
      ensures r == fl.normalize(Add(Scale(Clamp(blurAmount, 0.0, 0.999),
                                          Sub(Scale(2.0, value3(PoolDraw(Pool(old(rng3List), old(nextRng3)), reseed).draw)), One)),
                                    v))
      ensures nextRng3 <= |rng3List|
    {
      var d := Rng3();
      r := fl.normalize(Add(Scale(Clamp(blurAmount, 0.0, 0.999), Sub(Scale(2.0, value3(d)), One)), v));
    }
  }

  /**
   * The depth gate as a whole: from a fresh context, `maxDepth` pushes
   * succeed, the next one is refused, and as many pops bring the depth back
   * to zero.
   */
  method DepthGateRoundTrip(maxDepth: i32) returns (pushes: nat, refused: bool, finalDepth: i32)
    requires 0 <= maxDepth
    ensures pushes == maxDepth as nat
    ensures refused
    ensures finalDepth == 0
  {
    var ctx := new TraceContext(maxDepth, 0.0);
    pushes := 0;
    var ok := ctx.TryPush();
    while ok
      invariant ctx.DepthOk()
      invariant ok ==> ctx.currentDepth as int == pushes + 1
      invariant !ok ==> ctx.currentDepth as int == pushes && ctx.currentDepth == maxDepth
      decreases maxDepth as int - pushes
    {
      pushes := pushes + 1;
      ok := ctx.TryPush();
    }
    refused := !ok;
    var popped: nat := 0;
    while popped < pushes
      invariant popped <= pushes
      invariant ctx.DepthOk()
      invariant ctx.currentDepth as int == pushes - popped
    {
      ctx.Pop();
      popped := popped + 1;
    }
    finalDepth := ctx.currentDepth;
  }
}
