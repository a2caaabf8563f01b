/** The two particle loops of `animate` in hyperPhyzx-p8.js. Each particle in
    turn takes its gravity step (free particles against the ground plane,
    cube particles against the walls of the cube, two independent `if`s per
    axis) and is then pushed apart from every other particle of its set,
    against the positions as they stand at that moment: a particle later in
    the order may already have been pushed before its own step. */
module HyperPhyzxP8 {
  import opened Vectors
  import opened Integration
  import opened Boundary
  import opened PushOut

  const CubeSize: real := 100.0
  const ParticleRadius: real := 1.0
  const BoundarySize: real := 10.0
  const Gravity: V3 := V3(0.0, -0.2, 0.0)
  /** `-cubeSize / 2 + particleRadius` and `cubeSize / 2 - particleRadius`. */
  const CubeLo: real := -CubeSize / 2.0 + ParticleRadius
  const CubeHi: real := CubeSize / 2.0 - ParticleRadius

  /** The collision of p8: `distance < boundarySize`, checked here on the
      squared distance; the push `direction * overlap / 2` is the parameter;
      velocities are not touched, which is friction factor 1. */
  function CollisionParams(push: V3 -> V3): PushParams
  {
    PushParams(d2 => d2 < BoundarySize * BoundarySize, push, 1.0)
  }

  /** For a distance (never negative) the squared test is the source's test. */
  lemma DistanceGuard(distance: real)
    requires distance >= 0.0
    ensures distance * distance < BoundarySize * BoundarySize <==> distance < BoundarySize
  {
    if distance >= BoundarySize {
      SquareMonotone(distance, BoundarySize);
    } else {
      assert distance * distance <= 10.0 * distance;
      assert 10.0 * distance < 100.0;
      assert BoundarySize * BoundarySize == 100.0;
    }
  }

  /** A free particle: gravity, integration, the ground plane. */
  function FreeStep(g: V3): (nat, V3, V3) -> Body
  {
    GravityBody(g, true)
  }

  /** A cube particle: gravity, integration, no ground, then the walls. */
  function CubeStep(g: V3): (nat, V3, V3) -> Body
  {
    (k: nat, p: V3, v: V3) =>
      var b := GravityStep(p, v, g, false);
      ClampBodyTwoIfs(b.pos, b.vel, CubeLo, CubeHi, -0.5)
  }

  /** Particle i replaced by what the step makes of it. */
  function StepAt(st: State, i: nat, f: (nat, V3, V3) -> Body): (r: State)
    requires 3 * i + 2 < |st.pos| && 3 * i + 2 < |st.vel|
    ensures |r.pos| == |st.pos| && |r.vel| == |st.vel|
  {
    var b := f(i, At(st.pos, i), At(st.vel, i));
    State(SetAt(st.pos, i, b.pos), SetAt(st.vel, i, b.vel))
  }

  /** The outer loop from particle i on: step i, then its collision row over
      every k != i, then the next particle. */
  function Tick(st: State, i: nat, n: nat, f: (nat, V3, V3) -> Body, prm: PushParams): (r: State)
    requires Holds(st, n)
    ensures |r.pos| == |st.pos| && |r.vel| == |st.vel|
    decreases n - i
  {
    if i >= n then st
    else Tick(Row(StepAt(st, i, f), i, 0, n, prm), i + 1, n, f, prm)
  }

  /** Right after its step a cube particle lies inside the walls, and the
      two-`if` clamp acts as an `else if` there, since the walls are 98 apart. */
  lemma CubeStepInBox(g: V3, k: nat, p: V3, v: V3)
    ensures InBox(CubeStep(g)(k, p, v).pos, CubeLo, CubeHi)
    ensures var b := GravityStep(p, v, g, false);
            CubeStep(g)(k, p, v) == ClampBodyElseIf(b.pos, b.vel, CubeLo, CubeHi, -0.5)
  {
    var b := GravityStep(p, v, g, false);
    ClampBodyInBox(b.pos, b.vel, CubeLo, CubeHi, -0.5);
  }

  /** One collision of p8: nothing changes unless the pair is closer than the
      boundary; the pair's position sum is kept and no velocity changes. */
  lemma CollisionPairSpec(st: State, i: nat, k: nat, push: V3 -> V3)
    requires i != k && 3 * i + 2 < |st.pos| && 3 * k + 2 < |st.pos|
    requires 3 * i + 2 < |st.vel| && 3 * k + 2 < |st.vel|
    ensures var r := PairStep(st, i, k, CollisionParams(push));
            && (DistSq(st.pos, i, k) >= BoundarySize * BoundarySize ==> r == st)
            && Add(At(r.pos, i), At(r.pos, k)) == Add(At(st.pos, i), At(st.pos, k))
            && r.vel == st.vel
  {
    var prm := CollisionParams(push);
    PairStepFromSpec(st, i, At(st.pos, i), k, prm);
    PairSumPreserved(st, i, At(st.pos, i), k, prm);
    PairStepFrictionOne(st, i, At(st.pos, i), k, prm);
    assert LengthSq(Sub(At(st.pos, i), At(st.pos, k))) == DistSq(st.pos, i, k);
  }

  /** A finished collision row keeps every velocity and every axis sum of the
      positions. */
  lemma CollisionRowSpec(st: State, i: nat, n: nat, push: V3 -> V3)
    requires i < n && Holds(st, n)
    ensures Row(st, i, 0, n, CollisionParams(push)).vel == st.vel
    ensures forall c :: 0 <= c < 3 ==> AxisSum(Row(st, i, 0, n, CollisionParams(push)).pos, n, c) == AxisSum(st.pos, n, c)
  {
    RowFrictionOne(st, i, 0, n, CollisionParams(push));
    forall c | 0 <= c < 3
      ensures AxisSum(Row(st, i, 0, n, CollisionParams(push)).pos, n, c) == AxisSum(st.pos, n, c)
    {
      RowConserves(st, i, 0, n, CollisionParams(push), c);
    }
  }

  /** `for (k = 0; k < n; k++) { if (k === i) continue; ... }`, against the
      current position of i. */
  method CollideRow(pos: array<real>, vel: array<real>, i: nat, n: nat, prm: PushParams)
    requires pos != vel && i < n && 3 * n <= pos.Length && 3 * n <= vel.Length
    modifies pos, vel
    ensures State(pos[..], vel[..]) == Row(old(State(pos[..], vel[..])), i, 0, n, prm)
  {
    ghost var goal := Row(State(pos[..], vel[..]), i, 0, n, prm);
    var index := i * 3;
    for k := 0 to n
      invariant Row(State(pos[..], vel[..]), i, k, n, prm) == goal
    {
      ghost var st := State(pos[..], vel[..]);
      if k != i {
        var from := V3(pos[index], pos[index + 1], pos[index + 2]);
        assert from == At(st.pos, i);
        ApplyPair(pos, vel, i, from, k, prm);
        assert State(pos[..], vel[..]) == PairStep(st, i, k, prm);
      }
      assert Row(st, i, k, n, prm) == Row(State(pos[..], vel[..]), i, k + 1, n, prm);
    }
  }

  /** Loop (1) of `animate`: the free particles, with world gravity. */
  method UpdateFree(pos: array<real>, vel: array<real>, n: nat, push: V3 -> V3)
    requires pos != vel && 3 * n <= pos.Length && 3 * n <= vel.Length
    modifies pos, vel
    ensures State(pos[..], vel[..]) == Tick(old(State(pos[..], vel[..])), 0, n, FreeStep(Gravity), CollisionParams(push))
  {
    ghost var goal := Tick(State(pos[..], vel[..]), 0, n, FreeStep(Gravity), CollisionParams(push));
    for i := 0 to n
      invariant Tick(State(pos[..], vel[..]), i, n, FreeStep(Gravity), CollisionParams(push)) == goal
    {
      StepParticle(pos, vel, i, Gravity, true);
      CollideRow(pos, vel, i, n, CollisionParams(push));
    }
  }

  /** Loop (2) of `animate`: the cube particles, with the cube-local gravity
      `g` (the world gravity turned by the inverse of the cube's rotation). */
  method UpdateCube(pos: array<real>, vel: array<real>, n: nat, g: V3, push: V3 -> V3)
    requires pos != vel && 3 * n <= pos.Length && 3 * n <= vel.Length
    modifies pos, vel
    ensures State(pos[..], vel[..]) == Tick(old(State(pos[..], vel[..])), 0, n, CubeStep(g), CollisionParams(push))
  {
    ghost var goal := Tick(State(pos[..], vel[..]), 0, n, CubeStep(g), CollisionParams(push));
    for i := 0 to n
      invariant Tick(State(pos[..], vel[..]), i, n, CubeStep(g), CollisionParams(push)) == goal
    {
      ghost var st := State(pos[..], vel[..]);
      ghost var b := GravityStep(At(st.pos, i), At(st.vel, i), g, false);
      ghost var c := ClampBodyTwoIfs(b.pos, b.vel, CubeLo, CubeHi, -0.5);
      assert c == CubeStep(g)(i, At(st.pos, i), At(st.vel, i));
      StepParticle(pos, vel, i, g, false);
      assert At(pos[..], i) == b.pos && At(vel[..], i) == b.vel;
      ClampParticleTwoIfs(pos, vel, i, CubeLo, CubeHi, -0.5);
      SetAtTwice(st.pos, i, b.pos, c.pos);
      SetAtTwice(st.vel, i, b.vel, c.vel);
      assert State(pos[..], vel[..]) == StepAt(st, i, CubeStep(g));
      CollideRow(pos, vel, i, n, CollisionParams(push));
    }
  }
}
