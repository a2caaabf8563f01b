/** The pairwise push-out shared by the collision passes of every demo: when a
    pair is closer than the collision boundary, particle i is moved by a push
    vector and particle j by its opposite, and both velocities are scaled by
    the friction factor. The push vector (`normalised difference * 0.5 *
    overlap`) is an arbitrary function of the difference, so everything proved
    here holds whatever vector the square root and the division produce. */
module PushOut {
  import opened Vectors

  /** The constants of one push-out loop: the test on the squared distance,
      the push vector for a difference, and the velocity factor. */
  datatype PushParams = PushParams(guard: real -> bool, push: V3 -> V3, friction: real)

  /** One pair, with the difference taken from `from` (the position of i the
      loop read) to the current position of j: in the guard's range, i moves by
      `push(d)`, then j by its opposite, then both velocities are scaled. */
  function PairStepFrom(st: State, i: nat, from: V3, j: nat, prm: PushParams): State
    requires 3 * i + 2 < |st.pos| && 3 * j + 2 < |st.pos|
    requires 3 * i + 2 < |st.vel| && 3 * j + 2 < |st.vel|
  {
    var d := Sub(from, At(st.pos, j));
    if prm.guard(LengthSq(d)) then
      var e := prm.push(d);
      var pos1 := SetAt(st.pos, i, Add(At(st.pos, i), e));
      var pos2 := SetAt(pos1, j, Sub(At(pos1, j), e));
      var vel1 := SetAt(st.vel, i, Scale(At(st.vel, i), prm.friction));
      var vel2 := SetAt(vel1, j, Scale(At(vel1, j), prm.friction));
      State(pos2, vel2)
    else st
  }

  /** One pair of p9's and p16's loops: the difference is taken from the
      current position of i. */
  function PairStep(st: State, i: nat, j: nat, prm: PushParams): State
    requires 3 * i + 2 < |st.pos| && 3 * j + 2 < |st.pos|
    requires 3 * i + 2 < |st.vel| && 3 * j + 2 < |st.vel|
  {
    PairStepFrom(st, i, At(st.pos, i), j, prm)
  }

  /** What one pair does, in full: inside the guard the push and the friction
      are applied to exactly particles i and j; outside it nothing changes;
      every other entry keeps its value. */
  lemma PairStepFromSpec(st: State, i: nat, from: V3, j: nat, prm: PushParams)
    requires i != j && 3 * i + 2 < |st.pos| && 3 * j + 2 < |st.pos|
    requires 3 * i + 2 < |st.vel| && 3 * j + 2 < |st.vel|
    ensures var r := PairStepFrom(st, i, from, j, prm);
            var d := Sub(from, At(st.pos, j));
            && |r.pos| == |st.pos| && |r.vel| == |st.vel|
            && (prm.guard(LengthSq(d)) ==>
                  && At(r.pos, i) == Add(At(st.pos, i), prm.push(d))
                  && At(r.pos, j) == Sub(At(st.pos, j), prm.push(d))
                  && At(r.vel, i) == Scale(At(st.vel, i), prm.friction)
                  && At(r.vel, j) == Scale(At(st.vel, j), prm.friction))
            && (!prm.guard(LengthSq(d)) ==> r == st)
    ensures var r := PairStepFrom(st, i, from, j, prm);
            forall m :: 0 <= m < |st.pos| && m / 3 != i && m / 3 != j ==> r.pos[m] == st.pos[m]
    ensures var r := PairStepFrom(st, i, from, j, prm);
            forall m :: 0 <= m < |st.vel| && m / 3 != i && m / 3 != j ==> r.vel[m] == st.vel[m]
  {
    var d := Sub(from, At(st.pos, j));
    if prm.guard(LengthSq(d)) {
      var e := prm.push(d);
      var pos1 := SetAt(st.pos, i, Add(At(st.pos, i), e));
      assert At(pos1, j) == At(st.pos, j);
      var vel1 := SetAt(st.vel, i, Scale(At(st.vel, i), prm.friction));
      assert At(vel1, j) == At(st.vel, j);
    }
  }

  /** Each pair update leaves the sum of every coordinate over the first n
      particles unchanged, whatever the push vector: i gains what j loses. */
  lemma PairStepFromConserves(st: State, i: nat, from: V3, j: nat, prm: PushParams, n: nat, c: nat)
    requires i != j && i < n && j < n && Holds(st, n) && c < 3
    ensures AxisSum(PairStepFrom(st, i, from, j, prm).pos, n, c) == AxisSum(st.pos, n, c)
  {
    var d := Sub(from, At(st.pos, j));
    if prm.guard(LengthSq(d)) {
      var e := prm.push(d);
      var pos1 := SetAt(st.pos, i, Add(At(st.pos, i), e));
      AxisSumSetAt(st.pos, n, c, i, Add(At(st.pos, i), e));
      assert At(pos1, j) == At(st.pos, j);
      AxisSumSetAt(pos1, n, c, j, Sub(At(pos1, j), e));
      assert Comp(Add(At(st.pos, i), e), c) - Comp(At(st.pos, i), c) == Comp(e, c);
      assert Comp(Sub(At(pos1, j), e), c) - Comp(At(pos1, j), c) == -Comp(e, c);
    }
  }

  /** The pair's positions have the same sum of coordinates before and after,
      for any push vector. */
  lemma PairSumPreserved(st: State, i: nat, from: V3, j: nat, prm: PushParams)
    requires i != j && 3 * i + 2 < |st.pos| && 3 * j + 2 < |st.pos|
    requires 3 * i + 2 < |st.vel| && 3 * j + 2 < |st.vel|
    ensures var r := PairStepFrom(st, i, from, j, prm);
            Add(At(r.pos, i), At(r.pos, j)) == Add(At(st.pos, i), At(st.pos, j))
  {
    PairStepFromSpec(st, i, from, j, prm);
  }

  /** When the push is a positive multiple lambda of the difference, as
      `normalised difference * 0.5 * overlap` is for a pair closer than the
      boundary, the squared distance of the pair grows by (1 + 2 lambda)^2. */
  lemma PairSeparates(st: State, i: nat, j: nat, prm: PushParams, lambda: real)
    requires i != j && 3 * i + 2 < |st.pos| && 3 * j + 2 < |st.pos|
    requires 3 * i + 2 < |st.vel| && 3 * j + 2 < |st.vel|
    requires lambda > 0.0
    requires prm.push(Sub(At(st.pos, i), At(st.pos, j))) == Scale(Sub(At(st.pos, i), At(st.pos, j)), lambda)
    requires prm.guard(DistSq(st.pos, i, j))
    ensures DistSq(PairStep(st, i, j, prm).pos, i, j) == (1.0 + 2.0 * lambda) * (1.0 + 2.0 * lambda) * DistSq(st.pos, i, j)
    ensures DistSq(PairStep(st, i, j, prm).pos, i, j) >= DistSq(st.pos, i, j)
  {
    var d := Sub(At(st.pos, i), At(st.pos, j));
    PairStepFromSpec(st, i, At(st.pos, i), j, prm);
    var r := PairStep(st, i, j, prm);
    var k := 1.0 + 2.0 * lambda;
    assert Sub(At(r.pos, i), At(r.pos, j)) == Scale(d, k);
    ScaleLengthSq(d, k);
    LengthSqNonNegative(d);
    assert k * k >= 1.0 by { SquareMonotone(k, 1.0); }
    MulGrows(k * k, LengthSq(d));
  }

  lemma ScaleLengthSq(d: V3, k: real)
    ensures LengthSq(Scale(d, k)) == k * k * LengthSq(d)
  {
    assert (d.x * k) * (d.x * k) == k * k * (d.x * d.x);
    assert (d.y * k) * (d.y * k) == k * k * (d.y * d.y);
    assert (d.z * k) * (d.z * k) == k * k * (d.z * d.z);
  }

  lemma MulGrows(f: real, a: real)
    requires f >= 1.0 && a >= 0.0
    ensures f * a >= a
  {
    assert f * a - a == (f - 1.0) * a;
  }

  // ---------------------------------------------------------------------
  // The loops over pairs, as the functions that specify them
  // ---------------------------------------------------------------------

  /** The inner loop `for (j = k; j < n; j++)` for particle i, with j == i
      skipped (p8's `if (k === i) continue`; p9 and p16 start at i + 1, where
      the skip never applies). */
  function Row(st: State, i: nat, k: nat, n: nat, prm: PushParams): (r: State)
    requires i < n && Holds(st, n)
    ensures |r.pos| == |st.pos| && |r.vel| == |st.vel|
    decreases n - k
  {
    if k >= n then st
    else
      var next := if k == i then st else PairStep(st, i, k, prm);
      Row(next, i, k + 1, n, prm)
  }

  /** The outer loop `for (i = k; i < n; i++)` of p9 and p16, each row
      starting at i + 1. */
  function Rows(st: State, i: nat, n: nat, prm: PushParams): (r: State)
    requires Holds(st, n)
    ensures |r.pos| == |st.pos| && |r.vel| == |st.vel|
    decreases n - i
  {
    if i >= n then st
    else Rows(Row(st, i, i + 1, n, prm), i + 1, n, prm)
  }

  /** A finished row conserves every axis sum. */
  lemma {:induction false} RowConserves(st: State, i: nat, k: nat, n: nat, prm: PushParams, c: nat)
    requires i < n && Holds(st, n) && c < 3
    ensures AxisSum(Row(st, i, k, n, prm).pos, n, c) == AxisSum(st.pos, n, c)
    decreases n - k
  {
    if k < n {
      var next := if k == i then st else PairStep(st, i, k, prm);
      if k != i {
        PairStepFromConserves(st, i, At(st.pos, i), k, prm, n, c);
      }
      RowConserves(next, i, k + 1, n, prm, c);
    }
  }

  /** The whole pass conserves every axis sum: the particle set's centre of
      mass does not move. */
  lemma {:induction false} RowsConserve(st: State, i: nat, n: nat, prm: PushParams, c: nat)
    requires Holds(st, n) && c < 3
    ensures AxisSum(Rows(st, i, n, prm).pos, n, c) == AxisSum(st.pos, n, c)
    decreases n - i
  {
    if i < n {
      RowConserves(st, i, i + 1, n, prm, c);
      RowsConserve(Row(st, i, i + 1, n, prm), i + 1, n, prm, c);
    }
  }

  /** With friction 1 (p16), a pair step leaves the velocity buffer as it was. */
  lemma PairStepFrictionOne(st: State, i: nat, from: V3, j: nat, prm: PushParams)
    requires i != j && 3 * i + 2 < |st.pos| && 3 * j + 2 < |st.pos|
    requires 3 * i + 2 < |st.vel| && 3 * j + 2 < |st.vel|
    requires prm.friction == 1.0
    ensures PairStepFrom(st, i, from, j, prm).vel == st.vel
  {
    PairStepFromSpec(st, i, from, j, prm);
    var r := PairStepFrom(st, i, from, j, prm);
    forall m | 0 <= m < |st.vel|
      ensures r.vel[m] == st.vel[m]
    {
      if m / 3 == i {
        assert r.vel[m] == Comp(At(r.vel, i), m % 3);
      } else if m / 3 == j {
        assert r.vel[m] == Comp(At(r.vel, j), m % 3);
      }
    }
  }

  lemma {:induction false} RowFrictionOne(st: State, i: nat, k: nat, n: nat, prm: PushParams)
    requires i < n && Holds(st, n) && prm.friction == 1.0
    ensures Row(st, i, k, n, prm).vel == st.vel
    decreases n - k
  {
    if k < n {
      var next := if k == i then st else PairStep(st, i, k, prm);
      if k != i {
        PairStepFrictionOne(st, i, At(st.pos, i), k, prm);
      }
      RowFrictionOne(next, i, k + 1, n, prm);
    }
  }

  /** With friction 1 the whole pass leaves every velocity unchanged. */
  lemma {:induction false} RowsFrictionOne(st: State, i: nat, n: nat, prm: PushParams)
    requires Holds(st, n) && prm.friction == 1.0
    ensures Rows(st, i, n, prm).vel == st.vel
    decreases n - i
  {
    if i < n {
      RowFrictionOne(st, i, i + 1, n, prm);
      RowsFrictionOne(Row(st, i, i + 1, n, prm), i + 1, n, prm);
    }
  }

  /** The end-to-end case of two particles at (0,0,0) and (1,0,0) with
      boundary 3: the normalised difference is (-1,0,0) and the push
      0.5 * (3 - 1) = 1, so the pair ends at (-1,0,0) and (2,0,0). */
  lemma TwoParticleExample(st: State, prm: PushParams)
    requires |st.pos| == 6 && |st.vel| == 6
    requires At(st.pos, 0) == V3(0.0, 0.0, 0.0) && At(st.pos, 1) == V3(1.0, 0.0, 0.0)
    requires prm.guard(1.0) && prm.push(V3(-1.0, 0.0, 0.0)) == V3(-1.0, 0.0, 0.0)
    ensures Rows(st, 0, 2, prm).pos == [-1.0, 0.0, 0.0, 2.0, 0.0, 0.0]
  {
    RowsOfTwo(st, prm);
    var p0, p1 := At(st.pos, 0), At(st.pos, 1);
    var d := Sub(p0, p1);
    assert d == V3(-1.0, 0.0, 0.0) && LengthSq(d) == 1.0;
    PairStepFromSpec(st, 0, p0, 1, prm);
    var r := PairStep(st, 0, 1, prm);
    assert At(r.pos, 0) == Add(p0, prm.push(d)) == V3(-1.0, 0.0, 0.0);
    assert At(r.pos, 1) == Sub(p1, prm.push(d)) == V3(2.0, 0.0, 0.0);
    TwoParticleBuffer(r.pos);
  }

  /** With two particles the pass is the single pair (0, 1). */
  lemma RowsOfTwo(st: State, prm: PushParams)
    requires Holds(st, 2)
    ensures Rows(st, 0, 2, prm) == PairStep(st, 0, 1, prm)
  {
    var r := PairStep(st, 0, 1, prm);
    assert Row(r, 0, 2, 2, prm) == r;
    assert Row(st, 0, 1, 2, prm) == r;
    assert Row(r, 1, 2, 2, prm) == r;
    assert Rows(r, 2, 2, prm) == r;
  }

  /** A buffer of two particles is determined by their two positions. */
  lemma TwoParticleBuffer(s: seq<real>)
    requires |s| == 6
    ensures s == [At(s, 0).x, At(s, 0).y, At(s, 0).z, At(s, 1).x, At(s, 1).y, At(s, 1).z]
  {
  }

  // ---------------------------------------------------------------------
  // The loops themselves, over the Float32Array buffers
  // ---------------------------------------------------------------------

  /** The body of the pair loop: reads j's position, tests the squared
      distance, then writes i's three components, j's three and the six
      velocity components in that order. */
  method ApplyPair(pos: array<real>, vel: array<real>, i: nat, from: V3, j: nat, prm: PushParams)
    requires pos != vel
    requires 3 * i + 2 < pos.Length && 3 * j + 2 < pos.Length
    requires 3 * i + 2 < vel.Length && 3 * j + 2 < vel.Length
    modifies pos, vel
    ensures State(pos[..], vel[..]) == PairStepFrom(old(State(pos[..], vel[..])), i, from, j, prm)
  {
    var jx := 3 * j;
    var d := V3(from.x - pos[jx], from.y - pos[jx + 1], from.z - pos[jx + 2]);
    if prm.guard(LengthSq(d)) {
      var e := prm.push(d);
      AddAt(pos, i, e);
      SubAt(pos, j, e);
      ScaleAt(vel, i, prm.friction);
      ScaleAt(vel, j, prm.friction);
    }
  }

  /** The push-out loop of p9's and p16's `collisionPass` and of their inline
      cube passes: every pair i < j, in order, against the current positions. */
  method PushOutPass(pos: array<real>, vel: array<real>, count: nat, prm: PushParams)
    requires pos != vel && 3 * count <= pos.Length && 3 * count <= vel.Length
    modifies pos, vel
    ensures State(pos[..], vel[..]) == Rows(old(State(pos[..], vel[..])), 0, count, prm)
  {
    ghost var goal := Rows(State(pos[..], vel[..]), 0, count, prm);
    var i := 0;
    while i < count
      invariant 0 <= i <= count
      invariant Rows(State(pos[..], vel[..]), i, count, prm) == goal
    {
      var ix := 3 * i;
      var j := i + 1;
      while j < count
        invariant i + 1 <= j <= count
        invariant Rows(Row(State(pos[..], vel[..]), i, j, count, prm), i + 1, count, prm) == goal
      {
        ApplyPair(pos, vel, i, V3(pos[ix], pos[ix + 1], pos[ix + 2]), j, prm);
        j := j + 1;
      }
      i := i + 1;
    }
  }
}
