/** Clamping a particle into an axis-aligned box, one component at a time,
    with a damped bounce of the clamped velocity component. Two variants occur
    in the demos: `clampInsideCube` of p9 and p16 tests the upper bound and
    only otherwise the lower one (`else if`); p8's cube loop and p11's physics
    loop run two independent `if`s, the second seeing the result of the
    first. */
module Boundary {
  import opened Vectors

  /** One component after the clamp: its coordinate and its velocity. */
  datatype Clamped = Clamped(x: real, v: real)

  /** `if (x > hi) { x = hi; v *= bounce } else if (x < lo) { x = lo; v *= bounce }` */
  function ClampElseIf(x: real, v: real, lo: real, hi: real, bounce: real): Clamped
  {
    if x > hi then Clamped(hi, v * bounce)
    else if x < lo then Clamped(lo, v * bounce)
    else Clamped(x, v)
  }

  /** `if (x > hi) { x = hi; v *= bounce }  if (x < lo) { x = lo; v *= bounce }` */
  function ClampTwoIfs(x: real, v: real, lo: real, hi: real, bounce: real): Clamped
  {
    var first := if x > hi then Clamped(hi, v * bounce) else Clamped(x, v);
    if first.x < lo then Clamped(lo, first.v * bounce) else first
  }

  /** The `else if` clamp: inside a non-empty range the coordinate ends inside
      it; a coordinate already inside is left alone with its velocity; a
      coordinate outside ends on the bound it crossed with its velocity
      multiplied by the bounce exactly once (at most one bound applies). */
  lemma ClampElseIfSpec(x: real, v: real, lo: real, hi: real, bounce: real)
    ensures var r := ClampElseIf(x, v, lo, hi, bounce);
            lo <= hi ==> lo <= r.x <= hi
    ensures var r := ClampElseIf(x, v, lo, hi, bounce);
            lo <= x <= hi ==> r == Clamped(x, v)
    ensures var r := ClampElseIf(x, v, lo, hi, bounce);
            !(lo <= x <= hi) ==> r.v == v * bounce && (r.x == hi || r.x == lo)
    ensures var r := ClampElseIf(x, v, lo, hi, bounce);
            (x > hi ==> r.x == hi) && (lo <= hi && x < lo ==> r.x == lo)
  {
  }

  /** When the range is not empty the two `if`s never both fire, so the two
      variants agree. */
  lemma TwoIfsIsElseIf(x: real, v: real, lo: real, hi: real, bounce: real)
    requires lo <= hi
    ensures ClampTwoIfs(x, v, lo, hi, bounce) == ClampElseIf(x, v, lo, hi, bounce)
  {
  }

  /** When the range is empty (a radius above half the cube) they differ: the
      two `if`s always end on the lower bound, bouncing twice when the
      coordinate was above the upper one, while the `else if` stops at the
      upper bound. */
  lemma EmptyRangeVariants(x: real, v: real, lo: real, hi: real, bounce: real)
    requires hi < lo
    ensures ClampTwoIfs(x, v, lo, hi, bounce).x == lo
    ensures x > hi ==> ClampTwoIfs(x, v, lo, hi, bounce).v == v * bounce * bounce
    ensures x > hi ==> ClampElseIf(x, v, lo, hi, bounce).x == hi
  {
  }

  /** The `else if` clamp on the three components of a particle. */
  function ClampBodyElseIf(p: V3, v: V3, lo: real, hi: real, bounce: real): Body
  {
    var cx, cy, cz := ClampElseIf(p.x, v.x, lo, hi, bounce), ClampElseIf(p.y, v.y, lo, hi, bounce), ClampElseIf(p.z, v.z, lo, hi, bounce);
    Body(V3(cx.x, cy.x, cz.x), V3(cx.v, cy.v, cz.v))
  }

  /** The two-`if` clamp on the three components of a particle. */
  function ClampBodyTwoIfs(p: V3, v: V3, lo: real, hi: real, bounce: real): Body
  {
    var cx, cy, cz := ClampTwoIfs(p.x, v.x, lo, hi, bounce), ClampTwoIfs(p.y, v.y, lo, hi, bounce), ClampTwoIfs(p.z, v.z, lo, hi, bounce);
    Body(V3(cx.x, cy.x, cz.x), V3(cx.v, cy.v, cz.v))
  }

  /** A position inside the box [lo, hi] on every axis. */
  predicate InBox(p: V3, lo: real, hi: real)
  {
    lo <= p.x <= hi && lo <= p.y <= hi && lo <= p.z <= hi
  }

  /** Either clamp puts a particle inside a non-empty box, and leaves a
      particle already inside it as it was. */
  lemma ClampBodyInBox(p: V3, v: V3, lo: real, hi: real, bounce: real)
    requires lo <= hi
    ensures InBox(ClampBodyElseIf(p, v, lo, hi, bounce).pos, lo, hi)
    ensures ClampBodyTwoIfs(p, v, lo, hi, bounce) == ClampBodyElseIf(p, v, lo, hi, bounce)
    ensures InBox(p, lo, hi) ==> ClampBodyElseIf(p, v, lo, hi, bounce) == Body(p, v)
  {
    ClampElseIfSpec(p.x, v.x, lo, hi, bounce);
    ClampElseIfSpec(p.y, v.y, lo, hi, bounce);
    ClampElseIfSpec(p.z, v.z, lo, hi, bounce);
    TwoIfsIsElseIf(p.x, v.x, lo, hi, bounce);
    TwoIfsIsElseIf(p.y, v.y, lo, hi, bounce);
    TwoIfsIsElseIf(p.z, v.z, lo, hi, bounce);
  }

  /** `for (c = 0; c < 3; c++)` with the `else if` clamp on entry 3i + c. */
  method ClampParticleElseIf(pos: array<real>, vel: array<real>, i: nat, lo: real, hi: real, bounce: real)
    requires pos != vel && 3 * i + 2 < pos.Length && 3 * i + 2 < vel.Length
    modifies pos, vel
    ensures var b := ClampBodyElseIf(At(old(pos[..]), i), At(old(vel[..]), i), lo, hi, bounce);
            pos[..] == SetAt(old(pos[..]), i, b.pos) && vel[..] == SetAt(old(vel[..]), i, b.vel)
  {
    var ix := 3 * i;
    for c := 0 to 3
      invariant forall m :: 0 <= m < pos.Length && !(ix <= m < ix + c) ==> pos[m] == old(pos[m])
      invariant forall m :: 0 <= m < vel.Length && !(ix <= m < ix + c) ==> vel[m] == old(vel[m])
      invariant forall k :: ix <= k < ix + c ==>
                  Clamped(pos[k], vel[k]) == ClampElseIf(old(pos[k]), old(vel[k]), lo, hi, bounce)
    {
      var idx := ix + c;
      if pos[idx] > hi {
        pos[idx] := hi;
        vel[idx] := vel[idx] * bounce;
      } else if pos[idx] < lo {
        pos[idx] := lo;
        vel[idx] := vel[idx] * bounce;
      }
    }
    assert Clamped(pos[ix], vel[ix]) == ClampElseIf(old(pos[ix]), old(vel[ix]), lo, hi, bounce);
    assert Clamped(pos[ix + 1], vel[ix + 1]) == ClampElseIf(old(pos[ix + 1]), old(vel[ix + 1]), lo, hi, bounce);
    assert Clamped(pos[ix + 2], vel[ix + 2]) == ClampElseIf(old(pos[ix + 2]), old(vel[ix + 2]), lo, hi, bounce);
  }

  /** `for (c = 0; c < 3; c++)` with the two-`if` clamp on entry 3i + c. */
  method ClampParticleTwoIfs(pos: array<real>, vel: array<real>, i: nat, lo: real, hi: real, bounce: real)
    requires pos != vel && 3 * i + 2 < pos.Length && 3 * i + 2 < vel.Length
    modifies pos, vel
    ensures var b := ClampBodyTwoIfs(At(old(pos[..]), i), At(old(vel[..]), i), lo, hi, bounce);
            pos[..] == SetAt(old(pos[..]), i, b.pos) && vel[..] == SetAt(old(vel[..]), i, b.vel)
  {
    var ix := 3 * i;
    for c := 0 to 3
      invariant forall m :: 0 <= m < pos.Length && !(ix <= m < ix + c) ==> pos[m] == old(pos[m])
      invariant forall m :: 0 <= m < vel.Length && !(ix <= m < ix + c) ==> vel[m] == old(vel[m])
      invariant forall k :: ix <= k < ix + c ==>
                  Clamped(pos[k], vel[k]) == ClampTwoIfs(old(pos[k]), old(vel[k]), lo, hi, bounce)
    {
      ClampEntryTwoIfs(pos, vel, ix + c, lo, hi, bounce);
    }
    assert Clamped(pos[ix], vel[ix]) == ClampTwoIfs(old(pos[ix]), old(vel[ix]), lo, hi, bounce);
    assert Clamped(pos[ix + 1], vel[ix + 1]) == ClampTwoIfs(old(pos[ix + 1]), old(vel[ix + 1]), lo, hi, bounce);
    assert Clamped(pos[ix + 2], vel[ix + 2]) == ClampTwoIfs(old(pos[ix + 2]), old(vel[ix + 2]), lo, hi, bounce);
  }

  /** The two `if`s on one entry of the buffers. */
  method ClampEntryTwoIfs(pos: array<real>, vel: array<real>, idx: nat, lo: real, hi: real, bounce: real)
    requires pos != vel && idx < pos.Length && idx < vel.Length
    modifies pos, vel
    ensures var c := ClampTwoIfs(old(pos[idx]), old(vel[idx]), lo, hi, bounce);
            pos[..] == old(pos[..])[idx := c.x] && vel[..] == old(vel[..])[idx := c.v]
  {
    ghost var c := ClampTwoIfs(pos[idx], vel[idx], lo, hi, bounce);
    if pos[idx] > hi {
      pos[idx] := hi;
      vel[idx] := vel[idx] * bounce;
    }
    if pos[idx] < lo {
      pos[idx] := lo;
      vel[idx] := vel[idx] * bounce;
    }
    assert pos[idx] == c.x && vel[idx] == c.v;
  }

  /** The `else if` clamp of one particle as a per-particle step. */
  function CubeClampBody(lo: real, hi: real, bounce: real): (nat, V3, V3) -> Body
  {
    (k: nat, p: V3, v: V3) => ClampBodyElseIf(p, v, lo, hi, bounce)
  }

  /** `clampInsideCube(posArray, velArray, count, radius)` of p9 and p16 with
      `half = cubeSize * 0.5`: each of the first `count` particles is clamped
      into [-half + radius, half - radius] on every axis, bouncing by -0.5. */
  method ClampInsideCube(pos: array<real>, vel: array<real>, count: nat, half: real, radius: real)
    requires pos != vel && 3 * count <= pos.Length && 3 * count <= vel.Length
    modifies pos, vel
    ensures State(pos[..], vel[..])
         == MapParticles(old(State(pos[..], vel[..])), count, CubeClampBody(-half + radius, half - radius, -0.5))
  {
    ghost var st := State(pos[..], vel[..]);
    var lo, hi := -half + radius, half - radius;
    ghost var f := CubeClampBody(lo, hi, -0.5);
    for i := 0 to count
      invariant State(pos[..], vel[..]) == MapParticles(st, i, f)
    {
      ghost var cur := State(pos[..], vel[..]);
      ghost var b := ClampBodyElseIf(At(cur.pos, i), At(cur.vel, i), lo, hi, -0.5);
      assert b == f(i, At(cur.pos, i), At(cur.vel, i));
      MapParticlesNext(st, i, f);
      ClampParticleElseIf(pos, vel, i, lo, hi, -0.5);
      assert pos[..] == SetAt(cur.pos, i, b.pos) && vel[..] == SetAt(cur.vel, i, b.vel);
    }
  }

  /** After `clampInsideCube` with radius at most half, every particle below
      `count` lies in [-half + radius, half - radius]^3, and one that was
      already inside keeps its position and its velocity. */
  lemma ClampInsideCubeContains(st: State, count: nat, half: real, radius: real)
    requires Holds(st, count) && radius <= half
    ensures var r := MapParticles(st, count, CubeClampBody(-half + radius, half - radius, -0.5));
            forall k :: 0 <= k < count ==> InBox(At(r.pos, k), -half + radius, half - radius)
    ensures var r := MapParticles(st, count, CubeClampBody(-half + radius, half - radius, -0.5));
            forall k :: 0 <= k < count && InBox(At(st.pos, k), -half + radius, half - radius) ==>
              At(r.pos, k) == At(st.pos, k) && At(r.vel, k) == At(st.vel, k)
  {
    var f := CubeClampBody(-half + radius, half - radius, -0.5);
    MapParticlesAt(st, count, f);
    forall k | 0 <= k < count
      ensures InBox(ClampBodyElseIf(At(st.pos, k), At(st.vel, k), -half + radius, half - radius, -0.5).pos, -half + radius, half - radius)
      ensures InBox(At(st.pos, k), -half + radius, half - radius) ==>
                ClampBodyElseIf(At(st.pos, k), At(st.vel, k), -half + radius, half - radius, -0.5) == Body(At(st.pos, k), At(st.vel, k))
    {
      ClampBodyInBox(At(st.pos, k), At(st.vel, k), -half + radius, half - radius, -0.5);
    }
  }
}
