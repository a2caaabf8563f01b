/** hyperPhyzx-p16.js: the same passes as p9 with other constants (collision
    boundary 8, neighbour radius 7, particle radius 8, friction 1), the guard
    `1e-8 < dist2 < b2` in both push-out loops, and `colorByDensity` after each
    smoothing. With friction 1 the push-out never changes a velocity. */
module HyperPhyzxP16 {
  import opened Vectors
  import opened Integration
  import opened Boundary
  import opened PushOut
  import opened Neighbors
  import opened Smoothing
  import opened Coloring

  const CubeSize: real := 100.0
  const ParticleRadius: real := 8.0
  const BoundarySize: real := 8.0
  const NeighborRadius: real := 7.0
  const Friction: real := 1.0
  const Gravity: V3 := V3(0.0, -0.2, 0.0)
  /** The factor both `neighborSmooth` calls pass. */
  const SmoothFactor: real := 0.1

  /** Both push-out loops: `dist2 < b2 && dist2 > 1e-8`. */
  function PushParamsFor(boundary: real, push: V3 -> V3): PushParams
  {
    PushParams(d2 => d2 < boundary * boundary && d2 > 0.00000001, push, Friction)
  }

  /** The state `collisionPass` leaves. */
  function Collided(st: State, n: nat, boundary: real, ground: bool, push: V3 -> V3): (r: State)
    requires Holds(st, n)
    ensures |r.pos| == |st.pos| && |r.vel| == |st.vel|
  {
    Rows(MapParticles(st, n, GravityBody(Gravity, ground)), 0, n, PushParamsFor(boundary, push))
  }

  /** One pair: strictly between 1e-8 and boundary^2 the pair's position sum is
      kept; outside that range nothing changes; no velocity ever changes. */
  lemma PairSpec(st: State, i: nat, j: nat, boundary: real, push: V3 -> V3)
    requires i != j && 3 * i + 2 < |st.pos| && 3 * j + 2 < |st.pos|
    requires 3 * i + 2 < |st.vel| && 3 * j + 2 < |st.vel|
    ensures var r := PairStep(st, i, j, PushParamsFor(boundary, push));
            var d2 := DistSq(st.pos, i, j);
            && Add(At(r.pos, i), At(r.pos, j)) == Add(At(st.pos, i), At(st.pos, j))
            && (!(0.00000001 < d2 < boundary * boundary) ==> r == st)
            && r.vel == st.vel
  {
    var prm := PushParamsFor(boundary, push);
    PairStepFromSpec(st, i, At(st.pos, i), j, prm);
    PairSumPreserved(st, i, At(st.pos, i), j, prm);
    PairStepFrictionOne(st, i, At(st.pos, i), j, prm);
    assert LengthSq(Sub(At(st.pos, i), At(st.pos, j))) == DistSq(st.pos, i, j);
  }

  /** `collisionPass`: the velocities are exactly those the integration left
      (the push-out keeps them), the centre of mass is where the integration
      put it, and with the ground on the integration leaves no particle below
      y = 0. */
  lemma CollidedSpec(st: State, n: nat, boundary: real, ground: bool, push: V3 -> V3)
    requires Holds(st, n)
    ensures var m := MapParticles(st, n, GravityBody(Gravity, ground));
            && Collided(st, n, boundary, ground, push).vel == m.vel
            && forall c :: 0 <= c < 3 ==> AxisSum(Collided(st, n, boundary, ground, push).pos, n, c) == AxisSum(m.pos, n, c)
    ensures ground ==> forall k :: 0 <= k < n ==> MapParticles(st, n, GravityBody(Gravity, ground)).pos[3 * k + 1] >= 0.0
  {
    var m := MapParticles(st, n, GravityBody(Gravity, ground));
    RowsFrictionOne(m, 0, n, PushParamsFor(boundary, push));
    forall c | 0 <= c < 3
      ensures AxisSum(Collided(st, n, boundary, ground, push).pos, n, c) == AxisSum(m.pos, n, c)
    {
      RowsConserve(m, 0, n, PushParamsFor(boundary, push), c);
    }
    if ground {
      IntegrateAboveGround(st, n, Gravity);
    }
  }

  /** After the inline integration and the clamp, every cube particle is in
      [-42, 42] on every axis (half 50 less the particle radius 8). */
  lemma CubeClampedInBox(st: State, n: nat, g: V3)
    requires Holds(st, n)
    ensures var a := CubeClamped(st, n, g, CubeSize * 0.5, ParticleRadius);
            forall k :: 0 <= k < n ==> InBox(At(a.pos, k), -42.0, 42.0)
  {
    var m := MapParticles(st, n, GravityBody(g, false));
    ClampInsideCubeContains(m, n, 50.0, 8.0);
    assert CubeClamped(st, n, g, CubeSize * 0.5, ParticleRadius) == MapParticles(m, n, CubeClampBody(-42.0, 42.0, -0.5));
  }

  /** The inline cube push-out keeps the clamped velocities. */
  lemma CubePushKeepsVelocities(a: State, n: nat, push: V3 -> V3)
    requires Holds(a, n)
    ensures Rows(a, 0, n, PushParamsFor(BoundarySize, push)).vel == a.vel
  {
    RowsFrictionOne(a, 0, n, PushParamsFor(BoundarySize, push));
  }

  /** `collisionPass(posArray, velArray, count, boundary, ground)`. */
  method CollisionPass(pos: array<real>, vel: array<real>, count: nat, boundary: real, ground: bool, push: V3 -> V3)
    requires pos != vel && 3 * count <= pos.Length && 3 * count <= vel.Length
    modifies pos, vel
    ensures State(pos[..], vel[..]) == Collided(old(State(pos[..], vel[..])), count, boundary, ground, push)
  {
    Integrate(pos, vel, count, Gravity, ground);
    PushOutPass(pos, vel, count, PushParamsFor(boundary, push));
  }

  /** Section (A) of `animate`: `collisionPass` with the ground,
      `findNeighbors`, `neighborSmooth` with 0.1, `colorByDensity`. */
  method AnimateFree(pos: array<real>, vel: array<real>, colors: array<real>, neighborMap: array<seq<int>>, n: nat, push: V3 -> V3)
    requires pos != vel && pos != colors && vel != colors
    requires 3 * n <= pos.Length && 3 * n <= vel.Length && 3 * n <= colors.Length && n <= neighborMap.Length
    modifies pos, vel, colors, neighborMap
    ensures var c := Collided(old(State(pos[..], vel[..])), n, BoundarySize, true, push);
            && (forall k :: 0 <= k < n ==> neighborMap[k] == CloseIn(c.pos, k, n, NeighborRadius * NeighborRadius))
            && (forall k :: 0 <= k < n ==> InBuffer(c.pos, neighborMap[k]))
            && pos[..] == SmoothAll(c.pos, neighborMap[..], n, SmoothFactor, 0)
            && vel[..] == c.vel
            && colors[..] == Painted(old(colors[..]), neighborMap[..], n)
  {
    CollisionPass(pos, vel, n, BoundarySize, true, push);
    FindNeighbors(pos, neighborMap, n, NeighborRadius);
    forall k | 0 <= k < n
      ensures InBuffer(pos[..], neighborMap[k])
    {
      CloseInInBuffer(pos[..], pos[..], k, n, NeighborRadius * NeighborRadius);
    }
    NeighborSmooth(pos, vel, neighborMap, n, SmoothFactor);
    ColorByDensity(colors, neighborMap, n);
  }

  /** Section (B) of `animate`: the inline integration with the cube-local
      gravity `g` and no ground, `clampInsideCube`, `findNeighbors`, the
      inline push-out, `neighborSmooth` over the lists found before the push,
      and `colorByDensity`. */
  method AnimateCube(pos: array<real>, vel: array<real>, colors: array<real>, neighborMap: array<seq<int>>, n: nat, g: V3, push: V3 -> V3)
    requires pos != vel && pos != colors && vel != colors
    requires 3 * n <= pos.Length && 3 * n <= vel.Length && 3 * n <= colors.Length && n <= neighborMap.Length
    modifies pos, vel, colors, neighborMap
    ensures var a := CubeClamped(old(State(pos[..], vel[..])), n, g, CubeSize * 0.5, ParticleRadius);
            var b := Rows(a, 0, n, PushParamsFor(BoundarySize, push));
            && (forall k :: 0 <= k < n ==> neighborMap[k] == CloseIn(a.pos, k, n, NeighborRadius * NeighborRadius))
            && (forall k :: 0 <= k < n ==> InBuffer(b.pos, neighborMap[k]))
            && pos[..] == SmoothAll(b.pos, neighborMap[..], n, SmoothFactor, 0)
            && vel[..] == b.vel
            && colors[..] == Painted(old(colors[..]), neighborMap[..], n)
  {
    Integrate(pos, vel, n, g, false);
    ClampInsideCube(pos, vel, n, CubeSize * 0.5, ParticleRadius);
    ghost var a := pos[..];
    FindNeighbors(pos, neighborMap, n, NeighborRadius);
    PushOutPass(pos, vel, n, PushParamsFor(BoundarySize, push));
    forall k | 0 <= k < n
      ensures InBuffer(pos[..], neighborMap[k])
    {
      CloseInInBuffer(a, pos[..], k, n, NeighborRadius * NeighborRadius);
    }
    NeighborSmooth(pos, vel, neighborMap, n, SmoothFactor);
    ColorByDensity(colors, neighborMap, n);
  }
}
