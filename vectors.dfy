/** Three-component vectors and the flat `Float32Array` layout shared by every
    pass of the engine: particle i occupies entries 3i, 3i+1 and 3i+2 of a
    position buffer and of a velocity buffer. Float32 arithmetic is modelled
    by mathematical reals. */
module Vectors {

  datatype V3 = V3(x: real, y: real, z: real)

  function Add(a: V3, b: V3): V3 { V3(a.x + b.x, a.y + b.y, a.z + b.z) }

  function Sub(a: V3, b: V3): V3 { V3(a.x - b.x, a.y - b.y, a.z - b.z) }

  function Scale(a: V3, k: real): V3 { V3(a.x * k, a.y * k, a.z * k) }

  /** Component c (0 = x, 1 = y, 2 = z). */
  function Comp(v: V3, c: nat): real
    requires c < 3
  {
    if c == 0 then v.x else if c == 1 then v.y else v.z
  }

  /** `lengthSq(dx, dy, dz)`: the squared Euclidean length. */
  function LengthSq(d: V3): real { d.x * d.x + d.y * d.y + d.z * d.z }

  /** `THREE.MathUtils.lerp(a, b, t)`, defined as (1 - t) * a + t * b. */
  function Lerp(a: real, b: real, t: real): real { (1.0 - t) * a + t * b }

  function LerpV(a: V3, b: V3, t: real): V3 { V3(Lerp(a.x, b.x, t), Lerp(a.y, b.y, t), Lerp(a.z, b.z, t)) }

  /** The position (or velocity) of particle i in a flat buffer. */
  function At(s: seq<real>, i: nat): V3
    requires 3 * i + 2 < |s|
  {
    V3(s[3 * i], s[3 * i + 1], s[3 * i + 2])
  }

  /** Writes the three components of particle i, x first. */
  function SetAt(s: seq<real>, i: nat, v: V3): (r: seq<real>)
    requires 3 * i + 2 < |s|
    ensures |r| == |s| && At(r, i) == v
    ensures forall k :: 0 <= k < |s| && (k < 3 * i || 3 * i + 2 < k) ==> r[k] == s[k]
  {
    s[3 * i := v.x][3 * i + 1 := v.y][3 * i + 2 := v.z]
  }

  /** Squared distance between particles i and j, computed as pos[i] - pos[j]. */
  function DistSq(s: seq<real>, i: nat, j: nat): real
    requires 3 * i + 2 < |s| && 3 * j + 2 < |s|
  {
    LengthSq(Sub(At(s, i), At(s, j)))
  }

  /** Sum of component c over the first n particles of a flat buffer. */
  function AxisSum(s: seq<real>, n: nat, c: nat): real
    requires 3 * n <= |s| && c < 3
  {
    if n == 0 then 0.0 else AxisSum(s, n - 1, c) + s[3 * (n - 1) + c]
  }

  lemma LengthSqNonNegative(d: V3)
    ensures LengthSq(d) >= d.x * d.x && LengthSq(d) >= d.y * d.y && LengthSq(d) >= d.z * d.z
    ensures LengthSq(d) >= 0.0
  {
    SquareNonNegative(d.x);
    SquareNonNegative(d.y);
    SquareNonNegative(d.z);
    var xx, yy, zz := d.x * d.x, d.y * d.y, d.z * d.z;
    assert LengthSq(d) == xx + yy + zz;
  }

  lemma SquareNonNegative(a: real)
    ensures a * a >= 0.0
  {
    if a < 0.0 {
      assert a * a == (-a) * (-a);
    }
  }

  /** Squaring is monotone on non-negative reals. */
  lemma SquareMonotone(a: real, b: real)
    requires 0.0 <= b <= a
    ensures b * b <= a * a
  {
    assert a * a - b * b == (a - b) * (a + b);
    assert (a - b) * (a + b) >= 0.0;
  }

  /** The squared distance does not depend on which particle is subtracted from which. */
  lemma DistSqSymmetric(s: seq<real>, i: nat, j: nat)
    requires 3 * i + 2 < |s| && 3 * j + 2 < |s|
    ensures DistSq(s, i, j) == DistSq(s, j, i)
  {
    var a, b := At(s, i), At(s, j);
    assert (a.x - b.x) * (a.x - b.x) == (b.x - a.x) * (b.x - a.x);
    assert (a.y - b.y) * (a.y - b.y) == (b.y - a.y) * (b.y - a.y);
    assert (a.z - b.z) * (a.z - b.z) == (b.z - a.z) * (b.z - a.z);
  }

  /** lerp with factor 0 keeps the start and with factor 1 reaches the target. */
  lemma LerpEnds(a: real, b: real)
    ensures Lerp(a, b, 0.0) == a && Lerp(a, b, 1.0) == b
  {
  }

  /** For a factor in [0, 1], lerp lies between the start and the target. */
  lemma LerpBetween(a: real, b: real, t: real)
    requires 0.0 <= t <= 1.0
    ensures a <= b ==> a <= Lerp(a, b, t) <= b
    ensures b <= a ==> b <= Lerp(a, b, t) <= a
  {
    var d := b - a;
    var e := t * d;
    LerpOffset(a, b, t, d, e);
    if a <= b {
      NonNegProduct(t, d);
      NonNegProduct(1.0 - t, d);
      Complement(t, d, e);
    } else {
      NonNegProduct(t, -d);
      NonNegProduct(1.0 - t, -d);
      Complement(t, -d, -e);
      Negate(t, d, e);
    }
  }

  /** lerp as the start plus the step e = t * (b - a). */
  lemma LerpOffset(a: real, b: real, t: real, d: real, e: real)
    requires d == b - a && e == t * d
    ensures Lerp(a, b, t) == a + e
  {
  }

  lemma Negate(t: real, d: real, e: real)
    requires e == t * d
    ensures -e == t * -d
  {
  }

  /** What the factor leaves of d is the remaining factor times d. */
  lemma Complement(t: real, d: real, e: real)
    requires e == t * d
    ensures d - e == (1.0 - t) * d
  {
  }

  lemma NonNegProduct(k: real, x: real)
    requires 0.0 <= k && 0.0 <= x
    ensures 0.0 <= k * x
  {
  }

  /** Writing particle i changes the axis sum by the difference of the two
      component values, and not at all when i is outside the first n particles. */
  lemma {:induction false} AxisSumSetAt(s: seq<real>, n: nat, c: nat, i: nat, v: V3)
    requires 3 * n <= |s| && c < 3 && 3 * i + 2 < |s|
    ensures AxisSum(SetAt(s, i, v), n, c)
         == AxisSum(s, n, c) + (if i < n then Comp(v, c) - Comp(At(s, i), c) else 0.0)
  {
    if n > 0 {
      AxisSumSetAt(s, n - 1, c, i, v);
      var r := SetAt(s, i, v);
      if i == n - 1 {
        assert r[3 * (n - 1) + c] == Comp(v, c);
        assert s[3 * (n - 1) + c] == Comp(At(s, i), c);
      } else {
        assert r[3 * (n - 1) + c] == s[3 * (n - 1) + c];
      }
    }
  }

  /** Writing a particle's own value back changes nothing. */
  lemma SetAtSame(s: seq<real>, i: nat)
    requires 3 * i + 2 < |s|
    ensures SetAt(s, i, At(s, i)) == s
  {
  }

  /** A second write of the same particle overrides the first. */
  lemma SetAtTwice(s: seq<real>, i: nat, a: V3, b: V3)
    requires 3 * i + 2 < |s|
    ensures SetAt(SetAt(s, i, a), i, b) == SetAt(s, i, b)
  {
  }

  /** A strictly increasing list of indices: sorted, and no index twice. */
  predicate Increasing(r: seq<int>)
  {
    forall a, b :: 0 <= a < b < |r| ==> r[a] < r[b]
  }

  // ---------------------------------------------------------------------
  // A particle set: its position and velocity buffers
  // ---------------------------------------------------------------------

  /** One particle's position and velocity. */
  datatype Body = Body(pos: V3, vel: V3)

  /** A particle set's two flat buffers. */
  datatype State = State(pos: seq<real>, vel: seq<real>)

  /** Both buffers hold the first n particles. */
  predicate Holds(st: State, n: nat)
  {
    3 * n <= |st.pos| && 3 * n <= |st.vel|
  }

  /** The loop `for (i = 0; i < n; i++)` whose body replaces particle i by
      `f(i, position, velocity)`, reading and writing only particle i. */
  function MapParticles(st: State, n: nat, f: (nat, V3, V3) -> Body): (r: State)
    requires Holds(st, n)
    ensures |r.pos| == |st.pos| && |r.vel| == |st.vel|
  {
    if n == 0 then st
    else
      var prev := MapParticles(st, n - 1, f);
      var b := f(n - 1, At(st.pos, n - 1), At(st.vel, n - 1));
      State(SetAt(prev.pos, n - 1, b.pos), SetAt(prev.vel, n - 1, b.vel))
  }

  /** After the loop every particle below n is the step applied to its own old
      value, and every entry past the first n particles is untouched; so the
      result does not depend on the order in which the particles are visited. */
  lemma {:induction false} MapParticlesAt(st: State, n: nat, f: (nat, V3, V3) -> Body)
    requires Holds(st, n)
    ensures var r := MapParticles(st, n, f);
            forall k :: 0 <= k < n ==> Body(At(r.pos, k), At(r.vel, k)) == f(k, At(st.pos, k), At(st.vel, k))
    ensures var r := MapParticles(st, n, f);
            (forall m :: 3 * n <= m < |st.pos| ==> r.pos[m] == st.pos[m])
            && (forall m :: 3 * n <= m < |st.vel| ==> r.vel[m] == st.vel[m])
  {
    if n > 0 {
      MapParticlesAt(st, n - 1, f);
      var prev := MapParticles(st, n - 1, f);
      var r := MapParticles(st, n, f);
      forall k | 0 <= k < n
        ensures Body(At(r.pos, k), At(r.vel, k)) == f(k, At(st.pos, k), At(st.vel, k))
      {
        if k < n - 1 {
          assert At(r.pos, k) == At(prev.pos, k);
          assert At(r.vel, k) == At(prev.vel, k);
        }
      }
    }
  }

  /** One more iteration of the loop applies the step to particle n as the
      loop finds it, which is still its old value. */
  lemma MapParticlesNext(st: State, n: nat, f: (nat, V3, V3) -> Body)
    requires Holds(st, n + 1)
    ensures var cur := MapParticles(st, n, f);
            var b := f(n, At(cur.pos, n), At(cur.vel, n));
            MapParticles(st, n + 1, f) == State(SetAt(cur.pos, n, b.pos), SetAt(cur.vel, n, b.vel))
  {
    MapParticlesAt(st, n, f);
    var cur := MapParticles(st, n, f);
    assert At(cur.pos, n) == At(st.pos, n) && At(cur.vel, n) == At(st.vel, n);
  }

  // ---------------------------------------------------------------------
  // Writes of one particle's three components into a buffer
  // ---------------------------------------------------------------------

  /** `a[ix] += e.x; a[ix+1] += e.y; a[ix+2] += e.z` */
  method AddAt(a: array<real>, i: nat, e: V3)
    requires 3 * i + 2 < a.Length
    modifies a
    ensures a[..] == SetAt(old(a[..]), i, Add(At(old(a[..]), i), e))
  {
    var ix := 3 * i;
    a[ix] := a[ix] + e.x;
    a[ix + 1] := a[ix + 1] + e.y;
    a[ix + 2] := a[ix + 2] + e.z;
  }

  /** `a[ix] *= f; a[ix+1] *= f; a[ix+2] *= f` */
  method ScaleAt(a: array<real>, i: nat, f: real)
    requires 3 * i + 2 < a.Length
    modifies a
    ensures a[..] == SetAt(old(a[..]), i, Scale(At(old(a[..]), i), f))
  {
    var ix := 3 * i;
    var v := V3(a[ix] * f, a[ix + 1] * f, a[ix + 2] * f);
    assert v == Scale(At(a[..], i), f);
    a[ix] := v.x;
    a[ix + 1] := v.y;
    a[ix + 2] := v.z;
  }

  /** `a[ix] -= e.x; a[ix+1] -= e.y; a[ix+2] -= e.z` */
  method SubAt(a: array<real>, i: nat, e: V3)
    requires 3 * i + 2 < a.Length
    modifies a
    ensures a[..] == SetAt(old(a[..]), i, Sub(At(old(a[..]), i), e))
  {
    var ix := 3 * i;
    a[ix] := a[ix] - e.x;
    a[ix + 1] := a[ix + 1] - e.y;
    a[ix + 2] := a[ix + 2] - e.z;
  }
}
