/** The "water smoothing" of `neighborSmooth` (p9, p16) and of p11's smoothing
    pass: every particle with enough neighbours moves to
    `lerp(own position, mean of its neighbours' positions, factor)`, where
    every position read is the one before the pass (the new positions go to a
    copy that is written back at the end), and velocities are never touched. */
module Smoothing {
  import opened Vectors
  import opened Boundary
  import opened Neighbors

  /** Every listed neighbour is a particle of the buffer. */
  predicate InBuffer(s: seq<real>, neigh: seq<int>)
  {
    forall k :: 0 <= k < |neigh| ==> 0 <= neigh[k] && 3 * neigh[k] + 2 < |s|
  }

  /** A list `findNeighbors` built over the first n particles names only
      particles of any buffer holding n particles. */
  lemma CloseInInBuffer(s: seq<real>, t: seq<real>, k: nat, n: nat, r2: real)
    requires 3 * k + 2 < |s| && 3 * n <= |s| && 3 * n <= |t|
    ensures InBuffer(t, CloseIn(s, k, n, r2))
  {
    CloseInSpec(s, k, n, r2);
    var l := CloseIn(s, k, n, r2);
    forall m | 0 <= m < |l|
      ensures 0 <= l[m] && 3 * l[m] + 2 < |t|
    {
      assert l[m] in l;
    }
  }

  /** The running sums `sumx += posArray[n*3]`, ... over the list, in order. */
  function SumOf(s: seq<real>, neigh: seq<int>): V3
    requires InBuffer(s, neigh)
  {
    if neigh == [] then V3(0.0, 0.0, 0.0)
    else
      assert InBuffer(s, neigh[..|neigh| - 1]);
      Add(SumOf(s, neigh[..|neigh| - 1]), At(s, neigh[|neigh| - 1]))
  }

  /** `sumx /= neigh.length`, ...: the neighbours' mean position. */
  function Mean(s: seq<real>, neigh: seq<int>): V3
    requires InBuffer(s, neigh) && |neigh| > 0
  {
    var sum := SumOf(s, neigh);
    var n := |neigh| as real;
    V3(sum.x / n, sum.y / n, sum.z / n)
  }

  /** The new position of particle i: unchanged when the list has at most
      `skipUpTo` entries (0 in p9 and p16, 1 in p11), otherwise the lerp. */
  function Smoothed(s: seq<real>, i: nat, neigh: seq<int>, factor: real, skipUpTo: nat): V3
    requires 3 * i + 2 < |s| && InBuffer(s, neigh)
  {
    if |neigh| <= skipUpTo then At(s, i) else LerpV(At(s, i), Mean(s, neigh), factor)
  }

  /** The copy after the loop has visited particles 0 .. n-1, each reading
      only the snapshot `s`. */
  function SmoothAll(s: seq<real>, lists: seq<seq<int>>, n: nat, factor: real, skipUpTo: nat): (r: seq<real>)
    requires 3 * n <= |s| && n <= |lists|
    requires forall k :: 0 <= k < n ==> InBuffer(s, lists[k])
    ensures |r| == |s|
  {
    if n == 0 then s
    else
      var prev := SmoothAll(s, lists, n - 1, factor, skipUpTo);
      if |lists[n - 1]| <= skipUpTo then prev
      else SetAt(prev, n - 1, LerpV(At(s, n - 1), Mean(s, lists[n - 1]), factor))
  }

  /** The pass is a per-particle map over the snapshot: particle k's new
      position depends only on the snapshot and its own list, so the order in
      which the loop visits the particles does not matter; positions past the
      first n particles are unchanged. */
  lemma {:induction false} SmoothAllAt(s: seq<real>, lists: seq<seq<int>>, n: nat, factor: real, skipUpTo: nat)
    requires 3 * n <= |s| && n <= |lists|
    requires forall k :: 0 <= k < n ==> InBuffer(s, lists[k])
    ensures var r := SmoothAll(s, lists, n, factor, skipUpTo);
            forall k :: 0 <= k < n ==> At(r, k) == Smoothed(s, k, lists[k], factor, skipUpTo)
    ensures var r := SmoothAll(s, lists, n, factor, skipUpTo);
            forall m :: 3 * n <= m < |s| ==> r[m] == s[m]
  {
    if n > 0 {
      SmoothAllAt(s, lists, n - 1, factor, skipUpTo);
      var prev := SmoothAll(s, lists, n - 1, factor, skipUpTo);
      var r := SmoothAll(s, lists, n, factor, skipUpTo);
      forall k | 0 <= k < n
        ensures At(r, k) == Smoothed(s, k, lists[k], factor, skipUpTo)
      {
        if k == n - 1 {
          if |lists[n - 1]| <= skipUpTo {
            assert At(prev, k) == At(s, k);
          }
        } else {
          assert At(r, k) == At(prev, k);
        }
      }
    }
  }

  /** With factor 1 a smoothed particle lands on the mean of its neighbours;
      with factor 0 no particle moves. */
  lemma SmoothedFactors(s: seq<real>, i: nat, neigh: seq<int>, skipUpTo: nat)
    requires 3 * i + 2 < |s| && InBuffer(s, neigh)
    ensures |neigh| > skipUpTo ==> Smoothed(s, i, neigh, 1.0, skipUpTo) == Mean(s, neigh)
    ensures Smoothed(s, i, neigh, 0.0, skipUpTo) == At(s, i)
  {
    if |neigh| > skipUpTo {
      var m := Mean(s, neigh);
      LerpEnds(At(s, i).x, m.x);
      LerpEnds(At(s, i).y, m.y);
      LerpEnds(At(s, i).z, m.z);
    }
  }

  /** `a` added to itself n times. */
  function Times(a: real, n: nat): real
  {
    if n == 0 then 0.0 else Times(a, n - 1) + a
  }

  lemma {:induction false} TimesIsProduct(a: real, n: nat)
    ensures Times(a, n) == a * n as real
  {
    if n > 0 {
      TimesIsProduct(a, n - 1);
      assert a * n as real == a * (n - 1) as real + a;
    }
  }

  /** The sum of m positions inside a box lies in m times the box. */
  lemma {:induction false} SumOfInBox(s: seq<real>, neigh: seq<int>, lo: real, hi: real)
    requires InBuffer(s, neigh)
    requires forall k :: 0 <= k < |neigh| ==> InBox(At(s, neigh[k]), lo, hi)
    ensures InBox(SumOf(s, neigh), Times(lo, |neigh|), Times(hi, |neigh|))
  {
    if neigh != [] {
      var front := neigh[..|neigh| - 1];
      assert InBuffer(s, front);
      assert forall k :: 0 <= k < |front| ==> front[k] == neigh[k];
      SumOfInBox(s, front, lo, hi);
      assert InBox(At(s, neigh[|neigh| - 1]), lo, hi);
    }
  }

  /** The mean of positions inside a box is inside the box. */
  lemma MeanInBox(s: seq<real>, neigh: seq<int>, lo: real, hi: real)
    requires InBuffer(s, neigh) && |neigh| > 0
    requires forall k :: 0 <= k < |neigh| ==> InBox(At(s, neigh[k]), lo, hi)
    ensures InBox(Mean(s, neigh), lo, hi)
  {
    SumOfInBox(s, neigh, lo, hi);
    var sum := SumOf(s, neigh);
    AxisMean(sum.x, |neigh|, lo, hi);
    AxisMean(sum.y, |neigh|, lo, hi);
    AxisMean(sum.z, |neigh|, lo, hi);
  }

  /** One axis: a sum of n terms in [lo, hi], divided by n, is in [lo, hi]. */
  lemma AxisMean(sum: real, n: nat, lo: real, hi: real)
    requires n > 0 && Times(lo, n) <= sum <= Times(hi, n)
    ensures lo <= sum / n as real <= hi
  {
    TimesIsProduct(lo, n);
    TimesIsProduct(hi, n);
    DivBetween(sum, n as real, lo, hi);
  }

  lemma DivBetween(a: real, m: real, lo: real, hi: real)
    requires m > 0.0 && lo * m <= a <= hi * m
    ensures lo <= a / m <= hi
  {
    var q := a / m;
    assert q * m == a;
    CancelPositive(m, lo, q);
    CancelPositive(m, q, hi);
  }

  /** A positive factor can be cancelled from an inequality. */
  lemma CancelPositive(k: real, x: real, y: real)
    requires k > 0.0 && x * k <= y * k
    ensures x <= y
  {
    if x > y {
      GreaterTimes(k, x, y);
      assert false;
    }
  }

  lemma GreaterTimes(k: real, x: real, y: real)
    requires k > 0.0 && x > y
    ensures x * k > y * k
  {
    var d := x - y;
    PositiveProduct(d, k);
    assert x * k == y * k + d * k;
  }

  lemma PositiveProduct(a: real, b: real)
    requires a > 0.0 && b > 0.0
    ensures a * b > 0.0
  {
  }

  /** A particle in a box whose neighbours are all in the box stays in it for
      any factor in [0, 1]: smoothing never leaves the convex hull. */
  lemma SmoothedInBox(s: seq<real>, i: nat, neigh: seq<int>, factor: real, skipUpTo: nat, lo: real, hi: real)
    requires 3 * i + 2 < |s| && InBuffer(s, neigh) && 0.0 <= factor <= 1.0
    requires InBox(At(s, i), lo, hi)
    requires forall k :: 0 <= k < |neigh| ==> InBox(At(s, neigh[k]), lo, hi)
    ensures InBox(Smoothed(s, i, neigh, factor, skipUpTo), lo, hi)
  {
    if |neigh| > skipUpTo {
      MeanInBox(s, neigh, lo, hi);
      var p, m := At(s, i), Mean(s, neigh);
      LerpInRange(p.x, m.x, factor, lo, hi);
      LerpInRange(p.y, m.y, factor, lo, hi);
      LerpInRange(p.z, m.z, factor, lo, hi);
    }
  }

  lemma LerpInRange(a: real, b: real, t: real, lo: real, hi: real)
    requires lo <= a <= hi && lo <= b <= hi && 0.0 <= t <= 1.0
    ensures lo <= Lerp(a, b, t) <= hi
  {
    LerpBetween(a, b, t);
  }

  // ---------------------------------------------------------------------
  // The loops
  // ---------------------------------------------------------------------

  /** `for (let n of neigh) { sumx += posArray[n*3]; ... }` then the divisions. */
  method MeanOf(pos: array<real>, neigh: seq<int>) returns (m: V3)
    requires InBuffer(pos[..], neigh) && |neigh| > 0
    ensures m == Mean(pos[..], neigh)
  {
    var sumx, sumy, sumz := 0.0, 0.0, 0.0;
    var j := 0;
    while j < |neigh|
      invariant 0 <= j <= |neigh| && InBuffer(pos[..], neigh[..j])
      invariant V3(sumx, sumy, sumz) == SumOf(pos[..], neigh[..j])
    {
      var nx := neigh[j] * 3;
      assert neigh[..j + 1][..j] == neigh[..j];
      sumx, sumy, sumz := sumx + pos[nx], sumy + pos[nx + 1], sumz + pos[nx + 2];
      j := j + 1;
    }
    assert neigh[..j] == neigh;
    var n := |neigh| as real;
    m := V3(sumx / n, sumy / n, sumz / n);
  }

  /** The body of the smoothing loop for particle i: skipped when the list is
      too short, otherwise the three lerped components go into the copy. */
  method SmoothOne(pos: array<real>, newPos: array<real>, i: nat, neigh: seq<int>, factor: real, skipUpTo: nat)
    requires pos != newPos && 3 * i + 2 < pos.Length && newPos.Length == pos.Length
    requires InBuffer(pos[..], neigh)
    modifies newPos
    ensures newPos[..] == if |neigh| <= skipUpTo then old(newPos[..])
                          else SetAt(old(newPos[..]), i, LerpV(At(pos[..], i), Mean(pos[..], neigh), factor))
  {
    if |neigh| > skipUpTo {
      var m := MeanOf(pos, neigh);
      var ix := i * 3;
      ghost var before := newPos[..];
      newPos[ix] := Lerp(pos[ix], m.x, factor);
      newPos[ix + 1] := Lerp(pos[ix + 1], m.y, factor);
      newPos[ix + 2] := Lerp(pos[ix + 2], m.z, factor);
      assert newPos[..] == SetAt(before, i, LerpV(At(pos[..], i), m, factor));
    }
  }

  /** `neighborSmooth(posArray, velArray, neighborMap, count, factor)` of p9
      and p16: the copy, the loop (particles with an empty list are skipped)
      and `posArray.set(newPos)`. The neighbour lists are those
      `findNeighbors` leaves, whose entries are particles of the buffer. */
  method NeighborSmooth(pos: array<real>, vel: array<real>, neighborMap: array<seq<int>>, count: nat, factor: real)
    requires pos != vel && 3 * count <= pos.Length && count <= neighborMap.Length
    requires forall k :: 0 <= k < count ==> InBuffer(pos[..], neighborMap[k])
    modifies pos
    ensures pos[..] == SmoothAll(old(pos[..]), neighborMap[..], count, factor, 0)
    ensures vel[..] == old(vel[..])
  {
    ghost var s := pos[..];
    var newPos := new real[pos.Length];
    CopyInto(pos, newPos);
    for i := 0 to count
      invariant pos[..] == s
      invariant newPos[..] == SmoothAll(s, neighborMap[..], i, factor, 0)
    {
      SmoothOne(pos, newPos, i, neighborMap[i], factor, 0);
    }
    CopyInto(newPos, pos);
  }

  /** `dst.set(src)` for buffers of the same length. */
  method CopyInto(src: array<real>, dst: array<real>)
    requires src != dst && src.Length == dst.Length
    modifies dst
    ensures dst[..] == src[..]
  {
    forall k | 0 <= k < dst.Length {
      dst[k] := src[k];
    }
  }
}
