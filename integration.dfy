/** The gravity and integration loop of `collisionPass` (p9, p16), of the
    inline cube loops in `animate` (p9, p16) and of p8's free and cube loops:
    semi-implicit Euler, the velocity first and then the position by the new
    velocity, with an optional ground plane at y = 0 that a particle may not
    sink below and that reverses and halves its y velocity. */
module Integration {
  import opened Vectors
  import opened Boundary

  /** The ground bounce factor `velArray[ix+1] *= -0.5`. */
  const GroundBounce: real := -0.5

  /** One particle: `vel += g; pos += vel`, then, with `ground` and a new
      y below 0, `pos.y = 0; vel.y *= -0.5`. */
  function GravityStep(p: V3, v: V3, g: V3, ground: bool): Body
  {
    var v1 := Add(v, g);
    var p1 := Add(p, v1);
    if ground && p1.y < 0.0 then Body(V3(p1.x, 0.0, p1.z), V3(v1.x, v1.y * GroundBounce, v1.z))
    else Body(p1, v1)
  }

  /** The step as a per-particle function for `MapParticles`. */
  function GravityBody(g: V3, ground: bool): (nat, V3, V3) -> Body
  {
    (k: nat, p: V3, v: V3) => GravityStep(p, v, g, ground)
  }

  /** What one step promises: the velocity gains g before the position moves
      (semi-implicit order); x and z always move by the new velocity; with the
      ground on, y is never negative afterwards, and a particle that would
      have sunk below it is put on it with its y velocity times -0.5; without
      the ground, y moves freely. */
  lemma GravityStepSpec(p: V3, v: V3, g: V3, ground: bool)
    ensures var b := GravityStep(p, v, g, ground);
            && b.vel.x == v.x + g.x && b.vel.z == v.z + g.z
            && b.pos.x == p.x + b.vel.x && b.pos.z == p.z + b.vel.z
    ensures var b := GravityStep(p, v, g, ground);
            ground ==> b.pos.y >= 0.0
    ensures var b := GravityStep(p, v, g, ground);
            var y := p.y + v.y + g.y;
            if ground && y < 0.0 then b.pos.y == 0.0 && b.vel.y == -0.5 * (v.y + g.y)
            else b.pos.y == y && b.vel.y == v.y + g.y
  {
  }

  /** The body of the loop for particle i, written component by component. */
  method StepParticle(pos: array<real>, vel: array<real>, i: nat, g: V3, ground: bool)
    requires pos != vel && 3 * i + 2 < pos.Length && 3 * i + 2 < vel.Length
    modifies pos, vel
    ensures var b := GravityStep(At(old(pos[..]), i), At(old(vel[..]), i), g, ground);
            pos[..] == SetAt(old(pos[..]), i, b.pos) && vel[..] == SetAt(old(vel[..]), i, b.vel)
  {
    ghost var p0, v0 := pos[..], vel[..];
    ghost var vv := Add(At(v0, i), g);
    ghost var pp := Add(At(p0, i), vv);
    var ix := 3 * i;
    AddAt(vel, i, g);
    AddAt(pos, i, V3(vel[ix], vel[ix + 1], vel[ix + 2]));
    assert pos[..] == SetAt(p0, i, pp) && vel[..] == SetAt(v0, i, vv);
    if ground {
      GroundAt(pos, vel, i);
      ghost var b := GravityStep(At(p0, i), At(v0, i), g, ground);
      SetAtTwice(p0, i, pp, b.pos);
      SetAtTwice(v0, i, vv, b.vel);
    }
  }

  /** `if (posArray[ix+1] < 0) { posArray[ix+1] = 0; velArray[ix+1] *= -0.5 }` */
  method GroundAt(pos: array<real>, vel: array<real>, i: nat)
    requires pos != vel && 3 * i + 2 < pos.Length && 3 * i + 2 < vel.Length
    modifies pos, vel
    ensures var p, v := At(old(pos[..]), i), At(old(vel[..]), i);
            if p.y < 0.0 then pos[..] == SetAt(old(pos[..]), i, V3(p.x, 0.0, p.z))
                              && vel[..] == SetAt(old(vel[..]), i, V3(v.x, v.y * GroundBounce, v.z))
            else pos[..] == old(pos[..]) && vel[..] == old(vel[..])
  {
    var ix := 3 * i;
    if pos[ix + 1] < 0.0 {
      pos[ix + 1] := 0.0;
      vel[ix + 1] := vel[ix + 1] * GroundBounce;
    }
  }

  /** The first loop of `collisionPass` (with `ground`) and the inline cube
      loops (without): every particle below `count` takes one step. */
  method Integrate(pos: array<real>, vel: array<real>, count: nat, g: V3, ground: bool)
    requires pos != vel && 3 * count <= pos.Length && 3 * count <= vel.Length
    modifies pos, vel
    ensures State(pos[..], vel[..]) == MapParticles(old(State(pos[..], vel[..])), count, GravityBody(g, ground))
  {
    ghost var st := State(pos[..], vel[..]);
    var i := 0;
    while i < count
      invariant 0 <= i <= count
      invariant State(pos[..], vel[..]) == MapParticles(st, i, GravityBody(g, ground))
    {
      MapParticlesNext(st, i, GravityBody(g, ground));
      StepParticle(pos, vel, i, g, ground);
      i := i + 1;
    }
  }

  /** With the ground on, after the loop no particle below `count` is under
      the ground plane. */
  lemma IntegrateAboveGround(st: State, count: nat, g: V3)
    requires Holds(st, count)
    ensures var r := MapParticles(st, count, GravityBody(g, true));
            forall k :: 0 <= k < count ==> r.pos[3 * k + 1] >= 0.0
  {
    MapParticlesAt(st, count, GravityBody(g, true));
    var r := MapParticles(st, count, GravityBody(g, true));
    forall k | 0 <= k < count
      ensures r.pos[3 * k + 1] >= 0.0
    {
      GravityStepSpec(At(st.pos, k), At(st.vel, k), g, true);
      assert r.pos[3 * k + 1] == At(r.pos, k).y;
    }
  }

  /** The cube particles of p9 and p16 after `animate`'s inline loop (the
      local gravity `g`, no ground) and then `clampInsideCube` into
      [-half + radius, half - radius] with bounce -0.5. */
  function CubeClamped(st: State, n: nat, g: V3, half: real, radius: real): (r: State)
    requires Holds(st, n)
    ensures |r.pos| == |st.pos| && |r.vel| == |st.vel|
  {
    MapParticles(MapParticles(st, n, GravityBody(g, false)), n, CubeClampBody(-half + radius, half - radius, -0.5))
  }
}
