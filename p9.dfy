/** hyperPhyzx-p9.js: `collisionPass`, `clampInsideCube` with the cube of
    side 100, and the two halves of `animate`: the free particles (collision
    pass with the ground, neighbour map, smoothing) and the cube particles
    (local gravity without ground, clamp, neighbour map, push-out, smoothing). */
module HyperPhyzxP9 {
  import opened Vectors
  import opened Integration
  import opened Boundary
  import opened PushOut
  import opened Neighbors
  import opened Smoothing

  const CubeSize: real := 100.0
  const ParticleRadius: real := 1.0
  const BoundarySize: real := 10.0
  const NeighborRadius: real := 8.0
  const Friction: real := 0.9
  const Gravity: V3 := V3(0.0, -0.2, 0.0)
  /** The factor both `neighborSmooth` calls pass. */
  const SmoothFactor: real := 0.1

  /** The push-out of `collisionPass`: `dist2 < boundarySq && dist2 > 0.000001`. */
  function FreeParams(boundary: real, push: V3 -> V3): PushParams
  {
    PushParams(d2 => d2 < boundary * boundary && d2 > 0.000001, push, Friction)
  }

  /** The inline cube push-out: `dist2 < boundarySize*boundarySize && dist2 > 0`. */
  function CubeParams(push: V3 -> V3): PushParams
  {
    PushParams(d2 => d2 < BoundarySize * BoundarySize && d2 > 0.0, push, Friction)
  }

  /** The state `collisionPass` leaves: every particle integrated, then every
      pair i < j pushed apart. */
  function Collided(st: State, n: nat, boundary: real, ground: bool, push: V3 -> V3): (r: State)
    requires Holds(st, n)
    ensures |r.pos| == |st.pos| && |r.vel| == |st.vel|
  {
    Rows(MapParticles(st, n, GravityBody(Gravity, ground)), 0, n, FreeParams(boundary, push))
  }

  /** The two guards: the cube pass acts on every pair the free pass acts on,
      and also on pairs closer than 0.001 that the free pass leaves alone. */
  lemma GuardsDiffer(push: V3 -> V3)
    ensures forall d2 :: FreeParams(BoundarySize, push).guard(d2) ==> CubeParams(push).guard(d2)
    ensures CubeParams(push).guard(0.0000005) && !FreeParams(BoundarySize, push).guard(0.0000005)
    ensures !CubeParams(push).guard(0.0) && !CubeParams(push).guard(BoundarySize * BoundarySize)
  {
  }

  /** One pair of `collisionPass`: strictly between 0.000001 and boundary^2 the
      pair's position sum is kept and both velocities are multiplied by 0.9;
      anywhere else the pair is left as it is. */
  lemma FreePairSpec(st: State, i: nat, j: nat, boundary: real, push: V3 -> V3)
    requires i != j && 3 * i + 2 < |st.pos| && 3 * j + 2 < |st.pos|
    requires 3 * i + 2 < |st.vel| && 3 * j + 2 < |st.vel|
    ensures var r := PairStep(st, i, j, FreeParams(boundary, push));
            var d2 := DistSq(st.pos, i, j);
            && (0.000001 < d2 < boundary * boundary ==>
                  && Add(At(r.pos, i), At(r.pos, j)) == Add(At(st.pos, i), At(st.pos, j))
                  && At(r.vel, i) == Scale(At(st.vel, i), 0.9)
                  && At(r.vel, j) == Scale(At(st.vel, j), 0.9))
            && (!(0.000001 < d2 < boundary * boundary) ==> r == st)
  {
    var prm := FreeParams(boundary, push);
    PairStepFromSpec(st, i, At(st.pos, i), j, prm);
    PairSumPreserved(st, i, At(st.pos, i), j, prm);
    assert LengthSq(Sub(At(st.pos, i), At(st.pos, j))) == DistSq(st.pos, i, j);
  }

  /** One pair of the inline cube pass: the same, on 0 < d2 < 100. */
  lemma CubePairSpec(st: State, i: nat, j: nat, push: V3 -> V3)
    requires i != j && 3 * i + 2 < |st.pos| && 3 * j + 2 < |st.pos|
    requires 3 * i + 2 < |st.vel| && 3 * j + 2 < |st.vel|
    ensures var r := PairStep(st, i, j, CubeParams(push));
            var d2 := DistSq(st.pos, i, j);
            && (0.0 < d2 < 100.0 ==>
                  && Add(At(r.pos, i), At(r.pos, j)) == Add(At(st.pos, i), At(st.pos, j))
                  && At(r.vel, i) == Scale(At(st.vel, i), 0.9)
                  && At(r.vel, j) == Scale(At(st.vel, j), 0.9))
            && (!(0.0 < d2 < 100.0) ==> r == st)
  {
    var prm := CubeParams(push);
    PairStepFromSpec(st, i, At(st.pos, i), j, prm);
    PairSumPreserved(st, i, At(st.pos, i), j, prm);
    assert LengthSq(Sub(At(st.pos, i), At(st.pos, j))) == DistSq(st.pos, i, j);
  }

  /** The push-out half of `collisionPass` keeps the centre of mass where
      the integration put it; with the ground on, the integration leaves no
      particle below y = 0. */
  lemma CollidedSpec(st: State, n: nat, boundary: real, ground: bool, push: V3 -> V3)
    requires Holds(st, n)
    ensures var m := MapParticles(st, n, GravityBody(Gravity, ground));
            forall c :: 0 <= c < 3 ==> AxisSum(Collided(st, n, boundary, ground, push).pos, n, c) == AxisSum(m.pos, n, c)
    ensures ground ==> forall k :: 0 <= k < n ==> MapParticles(st, n, GravityBody(Gravity, ground)).pos[3 * k + 1] >= 0.0
  {
    var m := MapParticles(st, n, GravityBody(Gravity, ground));
    forall c | 0 <= c < 3
      ensures AxisSum(Collided(st, n, boundary, ground, push).pos, n, c) == AxisSum(m.pos, n, c)
    {
      RowsConserve(m, 0, n, FreeParams(boundary, push), c);
    }
    if ground {
      IntegrateAboveGround(st, n, Gravity);
    }
  }

  /** After the inline integration and the clamp, every cube particle is in
      [-49, 49] on every axis. */
  lemma CubeClampedInBox(st: State, n: nat, g: V3)
    requires Holds(st, n)
    ensures var a := CubeClamped(st, n, g, CubeSize * 0.5, ParticleRadius);
            forall k :: 0 <= k < n ==> InBox(At(a.pos, k), -49.0, 49.0)
  {
    var m := MapParticles(st, n, GravityBody(g, false));
    ClampInsideCubeContains(m, n, 50.0, 1.0);
    assert CubeClamped(st, n, g, CubeSize * 0.5, ParticleRadius) == MapParticles(m, n, CubeClampBody(-49.0, 49.0, -0.5));
  }

  /** `collisionPass(posArray, velArray, count, boundary, applyGround)`. */
  method CollisionPass(pos: array<real>, vel: array<real>, count: nat, boundary: real, applyGround: bool, push: V3 -> V3)
    requires pos != vel && 3 * count <= pos.Length && 3 * count <= vel.Length
    modifies pos, vel
    ensures State(pos[..], vel[..]) == Collided(old(State(pos[..], vel[..])), count, boundary, applyGround, push)
  {
    Integrate(pos, vel, count, Gravity, applyGround);
    PushOutPass(pos, vel, count, FreeParams(boundary, push));
  }

  /** The free half of `animate`: `collisionPass` with the ground,
      `findNeighbors` on the new positions, `neighborSmooth` with 0.1. */
  method AnimateFree(pos: array<real>, vel: array<real>, neighborMap: array<seq<int>>, n: nat, push: V3 -> V3)
    requires pos != vel && 3 * n <= pos.Length && 3 * n <= vel.Length && n <= neighborMap.Length
    modifies pos, vel, neighborMap
    ensures var c := Collided(old(State(pos[..], vel[..])), n, BoundarySize, true, push);
            && (forall k :: 0 <= k < n ==> neighborMap[k] == CloseIn(c.pos, k, n, NeighborRadius * NeighborRadius))
            && (forall k :: 0 <= k < n ==> InBuffer(c.pos, neighborMap[k]))
            && pos[..] == SmoothAll(c.pos, neighborMap[..], n, SmoothFactor, 0)
            && vel[..] == c.vel
  {
    CollisionPass(pos, vel, n, BoundarySize, true, push);
    FindNeighbors(pos, neighborMap, n, NeighborRadius);
    forall k | 0 <= k < n
      ensures InBuffer(pos[..], neighborMap[k])
    {
      CloseInInBuffer(pos[..], pos[..], k, n, NeighborRadius * NeighborRadius);
    }
    NeighborSmooth(pos, vel, neighborMap, n, SmoothFactor);
  }

  /** The cube half of `animate`: the inline integration with the cube-local
      gravity `g` and no ground, `clampInsideCube`, `findNeighbors` on the
      clamped positions, the inline push-out, then `neighborSmooth`, which
      averages the pushed positions over the lists found before the push. */
  method AnimateCube(pos: array<real>, vel: array<real>, neighborMap: array<seq<int>>, n: nat, g: V3, push: V3 -> V3)
    requires pos != vel && 3 * n <= pos.Length && 3 * n <= vel.Length && n <= neighborMap.Length
    modifies pos, vel, neighborMap
    ensures var a := CubeClamped(old(State(pos[..], vel[..])), n, g, CubeSize * 0.5, ParticleRadius);
            var b := Rows(a, 0, n, CubeParams(push));
            && (forall k :: 0 <= k < n ==> neighborMap[k] == CloseIn(a.pos, k, n, NeighborRadius * NeighborRadius))
            && (forall k :: 0 <= k < n ==> InBuffer(b.pos, neighborMap[k]))
            && pos[..] == SmoothAll(b.pos, neighborMap[..], n, SmoothFactor, 0)
            && vel[..] == b.vel
  {
    Integrate(pos, vel, n, g, false);
    ClampInsideCube(pos, vel, n, CubeSize * 0.5, ParticleRadius);
    ghost var a := pos[..];
    FindNeighbors(pos, neighborMap, n, NeighborRadius);
    PushOutPass(pos, vel, n, CubeParams(push));
    forall k | 0 <= k < n
      ensures InBuffer(pos[..], neighborMap[k])
    {
      CloseInInBuffer(a, pos[..], k, n, NeighborRadius * NeighborRadius);
    }
    NeighborSmooth(pos, vel, neighborMap, n, SmoothFactor);
  }
}
