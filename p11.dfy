/** The per-frame loops of `animate` in hyperPhyzx-p11.js. The k-d tree is
    built from the positions at the start of the frame; then every particle
    takes its physics step (local gravity plus buoyancy from its temperature,
    integration, the two-`if` clamp to the cube of side 50 with bounce -0.3,
    friction 0.8); then every particle is pushed apart from the particles the
    tree reports near its current position; then every particle with more
    than one reported neighbour is smoothed toward their mean. Both later
    passes query the tree built before the physics step. */
module HyperPhyzxP11 {
  import opened Vectors
  import opened Boundary
  import opened PushOut
  import opened KDTree
  import opened Smoothing

  const CubeSize: real := 50.0
  const Half: real := CubeSize * 0.5
  const Friction: real := 0.8
  const CollisionDistance: real := 3.0
  const NeighborRadius: real := 8.0
  const SmoothingFactor: real := 0.1
  const BuoyancyScale: real := 0.01
  const MidTemp: real := 50.0
  /** The wall bounce `velocities[ix+c] *= -0.3`. */
  const WallBounce: real := -0.3

  // ---------------------------------------------------------------------
  // 3) Physics update
  // ---------------------------------------------------------------------

  /** `(t - midTemp) * buoyancyScale`. */
  function Buoyancy(t: real): real { (t - MidTemp) * BuoyancyScale }

  /** A hot particle rises, a cold one sinks, one at 50 degrees floats. */
  lemma BuoyancySign(t: real)
    ensures Buoyancy(t) > 0.0 <==> t > MidTemp
    ensures Buoyancy(t) == 0.0 <==> t == MidTemp
    ensures Buoyancy(t) < 0.0 <==> t < MidTemp
  {
  }

  /** The velocity after gravity and buoyancy: `v.y += g.y + buoy`. */
  function Heated(v: V3, g: V3, t: real): V3
  {
    Add(v, V3(g.x, g.y + Buoyancy(t), g.z))
  }

  /** One particle of the physics loop. */
  function PhysicsStep(t: real, p: V3, v: V3, g: V3): Body
  {
    var v1 := Heated(v, g, t);
    var c := ClampBodyTwoIfs(Add(p, v1), v1, -Half, Half, WallBounce);
    Body(c.pos, Scale(c.vel, Friction))
  }

  /** The temperature of particle k (the loop reads only k < count, which the
      buffer holds). */
  function TempOf(temps: seq<real>, k: nat): real
  {
    if k < |temps| then temps[k] else MidTemp
  }

  /** The loop body as a per-particle function for `MapParticles`. */
  function PhysicsBody(temps: seq<real>, g: V3): (nat, V3, V3) -> Body
  {
    (k: nat, p: V3, v: V3) => PhysicsStep(TempOf(temps, k), p, v, g)
  }

  /** After the step the particle is inside [-25, 25] on every axis; one the
      integration left inside keeps that position and its velocity is just
      `0.8` times the heated one; one that crossed a wall is put on it and that
      component's velocity is multiplied by -0.3 and then by 0.8. */
  lemma PhysicsStepSpec(t: real, p: V3, v: V3, g: V3)
    ensures InBox(PhysicsStep(t, p, v, g).pos, -25.0, 25.0)
    ensures var v1 := Heated(v, g, t);
            var p1 := Add(p, v1);
            InBox(p1, -25.0, 25.0) ==> PhysicsStep(t, p, v, g) == Body(p1, Scale(v1, 0.8))
    ensures var v1 := Heated(v, g, t);
            var p1 := Add(p, v1);
            var b := PhysicsStep(t, p, v, g);
            && (p1.x > 25.0 ==> b.pos.x == 25.0 && b.vel.x == v1.x * -0.3 * 0.8)
            && (p1.y > 25.0 ==> b.pos.y == 25.0 && b.vel.y == v1.y * -0.3 * 0.8)
            && (p1.z > 25.0 ==> b.pos.z == 25.0 && b.vel.z == v1.z * -0.3 * 0.8)
            && (p1.x < -25.0 ==> b.pos.x == -25.0 && b.vel.x == v1.x * -0.3 * 0.8)
            && (p1.y < -25.0 ==> b.pos.y == -25.0 && b.vel.y == v1.y * -0.3 * 0.8)
            && (p1.z < -25.0 ==> b.pos.z == -25.0 && b.vel.z == v1.z * -0.3 * 0.8)
  {
    var v1 := Heated(v, g, t);
    var p1 := Add(p, v1);
    ClampBodyInBox(p1, v1, -Half, Half, WallBounce);
    ClampElseIfSpec(p1.x, v1.x, -Half, Half, WallBounce);
    ClampElseIfSpec(p1.y, v1.y, -Half, Half, WallBounce);
    ClampElseIfSpec(p1.z, v1.z, -Half, Half, WallBounce);
  }

  /** The temperature reaches the y axis only: two particles in the same
      state at different temperatures end with the same x and z. */
  lemma BuoyancyOnlyY(t1: real, t2: real, p: V3, v: V3, g: V3)
    ensures var a, b := PhysicsStep(t1, p, v, g), PhysicsStep(t2, p, v, g);
            a.pos.x == b.pos.x && a.pos.z == b.pos.z && a.vel.x == b.vel.x && a.vel.z == b.vel.z
  {
  }

  /** After the physics loop every particle is inside the cube. */
  lemma PhysicsPassInBox(st: State, n: nat, temps: seq<real>, g: V3)
    requires Holds(st, n)
    ensures forall k :: 0 <= k < n ==> InBox(At(MapParticles(st, n, PhysicsBody(temps, g)).pos, k), -25.0, 25.0)
  {
    var f := PhysicsBody(temps, g);
    MapParticlesAt(st, n, f);
    forall k | 0 <= k < n
      ensures InBox(f(k, At(st.pos, k), At(st.vel, k)).pos, -25.0, 25.0)
    {
      PhysicsStepSpec(TempOf(temps, k), At(st.pos, k), At(st.vel, k), g);
    }
  }

  /** The body of the physics loop for particle i. */
  method PhysicsParticle(pos: array<real>, vel: array<real>, i: nat, t: real, g: V3)
    requires pos != vel && 3 * i + 2 < pos.Length && 3 * i + 2 < vel.Length
    modifies pos, vel
    ensures var b := PhysicsStep(t, At(old(pos[..]), i), At(old(vel[..]), i), g);
            pos[..] == SetAt(old(pos[..]), i, b.pos) && vel[..] == SetAt(old(vel[..]), i, b.vel)
  {
    ghost var p0, v0 := At(pos[..], i), At(vel[..], i);
    ghost var s0, w0 := pos[..], vel[..];
    var ix := i * 3;
    var buoy := (t - MidTemp) * BuoyancyScale;
    AddAt(vel, i, V3(g.x, g.y + buoy, g.z));
    AddAt(pos, i, V3(vel[ix], vel[ix + 1], vel[ix + 2]));
    ghost var v1 := Heated(v0, g, t);
    assert At(vel[..], i) == v1 && At(pos[..], i) == Add(p0, v1);
    ClampParticleTwoIfs(pos, vel, i, -Half, Half, WallBounce);
    ghost var c := ClampBodyTwoIfs(Add(p0, v1), v1, -Half, Half, WallBounce);
    assert At(pos[..], i) == c.pos && At(vel[..], i) == c.vel;
    ScaleAt(vel, i, Friction);
    SetAtTwice(s0, i, Add(p0, v1), c.pos);
    SetAtTwice(w0, i, v1, c.vel);
    SetAtTwice(w0, i, c.vel, Scale(c.vel, Friction));
  }

  /** One iteration of loop 3): particle i takes its step at its own
      temperature `ts[i]`. */
  method PhysicsNext(pos: array<real>, vel: array<real>, t: real, i: nat, g: V3, ghost ts: seq<real>, ghost st: State)
    requires pos != vel && 3 * i + 2 < pos.Length && 3 * i + 2 < vel.Length
    requires i < |ts| && t == ts[i]
    requires Holds(st, i + 1) && State(pos[..], vel[..]) == MapParticles(st, i, PhysicsBody(ts, g))
    modifies pos, vel
    ensures State(pos[..], vel[..]) == MapParticles(st, i + 1, PhysicsBody(ts, g))
  {
    ghost var f := PhysicsBody(ts, g);
    MapParticlesNext(st, i, f);
    ghost var cur := State(pos[..], vel[..]);
    assert f(i, At(cur.pos, i), At(cur.vel, i)) == PhysicsStep(t, At(cur.pos, i), At(cur.vel, i), g);
    PhysicsParticle(pos, vel, i, t, g);
  }

  /** Loop 3) of `animate` over the first n particles. */
  method PhysicsPass(pos: array<real>, vel: array<real>, temps: array<real>, n: nat, g: V3)
    requires pos != vel && pos != temps && vel != temps
    requires 3 * n <= pos.Length && 3 * n <= vel.Length && n <= temps.Length
    modifies pos, vel
    ensures State(pos[..], vel[..]) == MapParticles(old(State(pos[..], vel[..])), n, PhysicsBody(temps[..], g))
  {
    ghost var st := State(pos[..], vel[..]);
    ghost var f := PhysicsBody(temps[..], g);
    var i := 0;
    while i < n
      invariant 0 <= i <= n
      invariant State(pos[..], vel[..]) == MapParticles(st, i, f)
    {
      PhysicsNext(pos, vel, temps[i], i, g, temps[..], st);
      i := i + 1;
    }
  }

  // ---------------------------------------------------------------------
  // 4) Collisions via the k-d tree
  // ---------------------------------------------------------------------

  /** The push-out of the collision loop: `dist2 > 1e-8 && dist2 < 9`. */
  function CollisionParams(push: V3 -> V3): PushParams
  {
    PushParams(d2 => d2 > 0.00000001 && d2 < CollisionDistance * CollisionDistance, push, Friction)
  }

  /** The inner loop `for (j of near)` of particle i from the position `from`
      read before the loop: j == i is skipped, every other j is pushed
      against `from` and j's current position. */
  function CollideList(st: State, i: nat, from: V3, js: seq<int>, n: nat, prm: PushParams): (r: State)
    requires i < n && Holds(st, n) && ListBelow(js, n)
    ensures |r.pos| == |st.pos| && |r.vel| == |st.vel|
    decreases |js|
  {
    if js == [] then st
    else
      var next := if js[0] == i then st else PairStepFrom(st, i, from, js[0], prm);
      assert ListBelow(js[1..], n);
      CollideList(next, i, from, js[1..], n, prm)
  }

  /** `kdTree.query(x, y, z, collisionDistance * collisionDistance)`: on a
      tree over the first n particles it names only particles below n. */
  function Near(tree: Tree, n: nat, from: V3): (r: seq<int>)
    requires IndicesBelow(tree, n)
    ensures ListBelow(r, n)
  {
    NeighborsWithinBelow(tree, from, 9.0, n);
    Query(tree, from.x, from.y, from.z, 9.0)
  }

  /** The outer collision loop from particle i on: particle i reads its
      current position, queries the tree with it and runs its inner loop. */
  function CollideAll(st: State, tree: Tree, i: nat, n: nat, prm: PushParams): (r: State)
    requires Holds(st, n) && IndicesBelow(tree, n)
    ensures |r.pos| == |st.pos| && |r.vel| == |st.vel|
    decreases n - i
  {
    if i >= n then st
    else
      var from := At(st.pos, i);
      CollideAll(CollideList(st, i, from, Near(tree, n, from), n, prm), tree, i + 1, n, prm)
  }

  /** One push of p11: only a pair strictly between 1e-8 and 9 apart (measured
      from `from`) is touched; then the pair's position sum is kept and both
      velocities are multiplied by 0.8. */
  lemma CollisionPairSpec(st: State, i: nat, from: V3, j: nat, push: V3 -> V3)
    requires i != j && 3 * i + 2 < |st.pos| && 3 * j + 2 < |st.pos|
    requires 3 * i + 2 < |st.vel| && 3 * j + 2 < |st.vel|
    ensures var r := PairStepFrom(st, i, from, j, CollisionParams(push));
            var d2 := LengthSq(Sub(from, At(st.pos, j)));
            && Add(At(r.pos, i), At(r.pos, j)) == Add(At(st.pos, i), At(st.pos, j))
            && (0.00000001 < d2 < 9.0 ==>
                  At(r.vel, i) == Scale(At(st.vel, i), 0.8) && At(r.vel, j) == Scale(At(st.vel, j), 0.8))
            && (!(0.00000001 < d2 < 9.0) ==> r == st)
  {
    PairStepFromSpec(st, i, from, j, CollisionParams(push));
    PairSumPreserved(st, i, from, j, CollisionParams(push));
  }

  /** The inner loop keeps every axis sum of the positions. */
  lemma {:induction false} CollideListConserves(st: State, i: nat, from: V3, js: seq<int>, n: nat, prm: PushParams, c: nat)
    requires i < n && Holds(st, n) && ListBelow(js, n) && c < 3
    ensures AxisSum(CollideList(st, i, from, js, n, prm).pos, n, c) == AxisSum(st.pos, n, c)
    decreases |js|
  {
    if js != [] {
      var next := if js[0] == i then st else PairStepFrom(st, i, from, js[0], prm);
      if js[0] != i {
        PairStepFromConserves(st, i, from, js[0], prm, n, c);
      }
      assert ListBelow(js[1..], n);
      CollideListConserves(next, i, from, js[1..], n, prm, c);
    }
  }

  /** The whole collision pass keeps the centre of mass, whatever the tree. */
  lemma {:induction false} CollideAllConserves(st: State, tree: Tree, i: nat, n: nat, prm: PushParams, c: nat)
    requires Holds(st, n) && IndicesBelow(tree, n) && c < 3
    ensures AxisSum(CollideAll(st, tree, i, n, prm).pos, n, c) == AxisSum(st.pos, n, c)
    decreases n - i
  {
    if i < n {
      var from := At(st.pos, i);
      var near := Near(tree, n, from);
      CollideListConserves(st, i, from, near, n, prm, c);
      CollideAllConserves(CollideList(st, i, from, near, n, prm), tree, i + 1, n, prm, c);
    }
  }

  /** The body of the collision loop for particle i. */
  method CollideParticle(pos: array<real>, vel: array<real>, i: nat, n: nat, tree: Tree, prm: PushParams)
    requires pos != vel && i < n && 3 * n <= pos.Length && 3 * n <= vel.Length && IndicesBelow(tree, n)
    modifies pos, vel
    ensures State(pos[..], vel[..]) == CollideList(old(State(pos[..], vel[..])), i, At(old(pos[..]), i), Near(tree, n, At(old(pos[..]), i)), n, prm)
  {
    var ix := i * 3;
    var x, y, z := pos[ix], pos[ix + 1], pos[ix + 2];
    var near := Query(tree, x, y, z, CollisionDistance * CollisionDistance);
    assert near == Near(tree, n, V3(x, y, z));
    ghost var goal := CollideList(State(pos[..], vel[..]), i, V3(x, y, z), near, n, prm);
    for m := 0 to |near|
      invariant CollideList(State(pos[..], vel[..]), i, V3(x, y, z), near[m..], n, prm) == goal
    {
      var j := near[m];
      assert near[m..][1..] == near[m + 1..];
      if j != i {
        ApplyPair(pos, vel, i, V3(x, y, z), j, prm);
      }
    }
  }

  /** Loop 4) of `animate` against the tree built at the start of the frame. */
  method CollisionPass(pos: array<real>, vel: array<real>, n: nat, tree: Tree, push: V3 -> V3)
    requires pos != vel && 3 * n <= pos.Length && 3 * n <= vel.Length && IndicesBelow(tree, n)
    modifies pos, vel
    ensures State(pos[..], vel[..]) == CollideAll(old(State(pos[..], vel[..])), tree, 0, n, CollisionParams(push))
  {
    var prm := CollisionParams(push);
    ghost var goal := CollideAll(State(pos[..], vel[..]), tree, 0, n, prm);
    for i := 0 to n
      invariant CollideAll(State(pos[..], vel[..]), tree, i, n, prm) == goal
    {
      CollideParticle(pos, vel, i, n, tree, prm);
    }
  }

  // ---------------------------------------------------------------------
  // 5) Smoothing pass
  // ---------------------------------------------------------------------

  /** The lists the smoothing loop gets: particle k's query at its position
      in `s`, with radius 8, on the tree. */
  function QueryLists(tree: Tree, s: seq<real>, n: nat): (r: seq<seq<int>>)
    requires 3 * n <= |s|
    ensures |r| == n
  {
    seq(n, k requires 0 <= k < n => Query(tree, At(s, k).x, At(s, k).y, At(s, k).z, NeighborRadius * NeighborRadius))
  }

  /** On a tree over particles below n every list names particles of the
      buffer. */
  lemma QueryListsInBuffer(tree: Tree, s: seq<real>, n: nat)
    requires 3 * n <= |s| && IndicesBelow(tree, n)
    ensures forall k :: 0 <= k < n ==> InBuffer(s, QueryLists(tree, s, n)[k])
  {
    forall k | 0 <= k < n
      ensures InBuffer(s, QueryLists(tree, s, n)[k])
    {
      NeighborsWithinBelow(tree, At(s, k), NeighborRadius * NeighborRadius, n);
    }
  }

  /** On the tree built from `s0`, every list names each particle at most
      once: exactly those whose position in `s0` is strictly within 8. */
  lemma QueryListsSpec(s0: seq<real>, s: seq<real>, n: nat)
    requires 3 * n <= |s0| && 3 * n <= |s|
    ensures forall k, m :: 0 <= k < n ==>
              multiset(QueryLists(BuildTree(PointsOf(s0, n), 0), s, n)[k])[m]
              == if 0 <= m < n && Close(PointOf(s0, m), At(s, k), NeighborRadius * NeighborRadius) then 1 else 0
  {
    var lists := QueryLists(BuildTree(PointsOf(s0, n), 0), s, n);
    forall k | 0 <= k < n
      ensures forall m :: multiset(lists[k])[m] ==
                (if 0 <= m < n && Close(PointOf(s0, m), At(s, k), NeighborRadius * NeighborRadius) then 1 else 0)
    {
      var p := At(s, k);
      QueryIsBruteForce(s0, n, p.x, p.y, p.z, NeighborRadius * NeighborRadius);
    }
  }

  /** Particle m is on k's smoothing list exactly when m's position when the
      tree was built is strictly within the neighbour radius of k's current
      position. */
  lemma OnList(s0: seq<real>, s: seq<real>, n: nat, k: nat, m: int)
    requires 3 * n <= |s0| && 3 * n <= |s| && k < n
    ensures m in QueryLists(BuildTree(PointsOf(s0, n), 0), s, n)[k]
            <==> 0 <= m < n && LengthSq(Sub(At(s0, m), At(s, k))) < NeighborRadius * NeighborRadius
  {
    var lists := QueryLists(BuildTree(PointsOf(s0, n), 0), s, n);
    QueryListsSpec(s0, s, n);
    assert multiset(lists[k])[m] == if 0 <= m < n && Close(PointOf(s0, m), At(s, k), NeighborRadius * NeighborRadius) then 1 else 0;
  }

  /** Particle k is on its own smoothing list exactly when it has moved less
      than the neighbour radius since the tree was built; otherwise a list of
      length 1 names one other particle, and the loop still skips it. */
  lemma SelfOnOwnList(s0: seq<real>, s: seq<real>, n: nat, k: nat)
    requires 3 * n <= |s0| && 3 * n <= |s| && k < n
    ensures k in QueryLists(BuildTree(PointsOf(s0, n), 0), s, n)[k]
            <==> LengthSq(Sub(At(s0, k), At(s, k))) < NeighborRadius * NeighborRadius
  {
    OnList(s0, s, n, k, k);
  }

  /** A particle that moved from the origin to (10, 0, 0) during the frame is
      not on its own list, while a particle that started at (5, 0, 0) is on
      it, wherever the rest of the buffers stand. */
  lemma MovedAwayExample(s0: seq<real>, s: seq<real>)
    requires |s0| == 6 && |s| == 6
    requires At(s0, 0) == V3(0.0, 0.0, 0.0) && At(s0, 1) == V3(5.0, 0.0, 0.0) && At(s, 0) == V3(10.0, 0.0, 0.0)
    ensures var l := QueryLists(BuildTree(PointsOf(s0, 2), 0), s, 2)[0];
            0 !in l && 1 in l
  {
    OnList(s0, s, 2, 0, 0);
    OnList(s0, s, 2, 0, 1);
  }

  /** Loop 5) of `animate`: queries at the current positions, particles with
      at most one reported index are skipped, the others are lerped by 0.1
      toward the mean of the reported particles; all reads are from the
      positions before the loop, and the copy is written back at the end. */
  method SmoothPass(pos: array<real>, n: nat, tree: Tree)
    requires 3 * n <= pos.Length && IndicesBelow(tree, n)
    modifies pos
    ensures forall k :: 0 <= k < n ==> InBuffer(old(pos[..]), QueryLists(tree, old(pos[..]), n)[k])
    ensures pos[..] == SmoothAll(old(pos[..]), QueryLists(tree, old(pos[..]), n), n, SmoothingFactor, 1)
  {
    ghost var s := pos[..];
    QueryListsInBuffer(tree, s, n);
    ghost var lists := QueryLists(tree, s, n);
    var newPositions := new real[pos.Length];
    CopyInto(pos, newPositions);
    var i := 0;
    while i < n
      invariant 0 <= i <= n && pos[..] == s
      invariant newPositions[..] == SmoothAll(s, lists, i, SmoothingFactor, 1)
    {
      SmoothNext(pos, newPositions, i, n, tree, lists);
      i := i + 1;
    }
    CopyInto(newPositions, pos);
  }

  /** One iteration of loop 5): particle i's query and, with two or more
      reported indices, its lerp into the copy. */
  method SmoothNext(pos: array<real>, newPositions: array<real>, i: nat, n: nat, tree: Tree, ghost lists: seq<seq<int>>)
    requires pos != newPositions && newPositions.Length == pos.Length && 3 * n <= pos.Length && i < n
    requires lists == QueryLists(tree, pos[..], n)
    requires forall k :: 0 <= k < n ==> InBuffer(pos[..], lists[k])
    requires newPositions[..] == SmoothAll(pos[..], lists, i, SmoothingFactor, 1)
    modifies newPositions
    ensures newPositions[..] == SmoothAll(pos[..], lists, i + 1, SmoothingFactor, 1)
  {
    var ix := i * 3;
    var neigh := Query(tree, pos[ix], pos[ix + 1], pos[ix + 2], NeighborRadius * NeighborRadius);
    assert neigh == lists[i];
    SmoothOne(pos, newPositions, i, neigh, SmoothingFactor, 1);
  }

  // ---------------------------------------------------------------------
  // The frame
  // ---------------------------------------------------------------------

  /** Steps 1) to 5) of `animate` with the cube-local gravity `g`. */
  method Animate(pos: array<real>, vel: array<real>, temps: array<real>, n: nat, g: V3, push: V3 -> V3)
    requires pos != vel && pos != temps && vel != temps
    requires 3 * n <= pos.Length && 3 * n <= vel.Length && n <= temps.Length
    modifies pos, vel
    ensures IndicesBelow(BuildTree(PointsOf(old(pos[..]), n), 0), n)
    ensures var s0 := old(pos[..]);
            var a := MapParticles(old(State(pos[..], vel[..])), n, PhysicsBody(temps[..], g));
            var b := CollideAll(a, BuildTree(PointsOf(s0, n), 0), 0, n, CollisionParams(push));
            && vel[..] == b.vel
            && (forall k :: 0 <= k < n ==> InBuffer(b.pos, QueryLists(BuildTree(PointsOf(s0, n), 0), b.pos, n)[k]))
            && pos[..] == SmoothAll(b.pos, QueryLists(BuildTree(PointsOf(s0, n), 0), b.pos, n), n, SmoothingFactor, 1)
  {
    ghost var s0 := pos[..];
    var tree := BuildKDTree(pos, n);
    BuildTreeIndicesBelow(s0, n);
    PhysicsPass(pos, vel, temps, n, g);
    CollisionPass(pos, vel, n, tree, push);
    SmoothPass(pos, n, tree);
  }
}
