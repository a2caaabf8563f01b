/** `findNeighbors(posArray, neighborMap, count, radius)` of p9 and p16: the
    brute-force neighbour map. Every list is cleared, then every pair i < j
    whose squared distance is strictly below radius^2 is recorded in both
    directions, j onto i's list and i onto j's. */
module Neighbors {
  import opened Vectors

  /** The particles a < hi other than k that are strictly within r2 of k, in
      increasing order. */
  function CloseIn(s: seq<real>, k: nat, hi: nat, r2: real): seq<int>
    requires 3 * k + 2 < |s| && 3 * hi <= |s|
  {
    if hi == 0 then []
    else CloseIn(s, k, hi - 1, r2) + (if hi - 1 != k && DistSq(s, k, hi - 1) < r2 then [hi - 1] else [])
  }

  /** The neighbour list of k: a particle is on it iff it is another particle
      below hi strictly within the radius, and the list is increasing, so no
      neighbour is listed twice. */
  lemma {:induction false} CloseInSpec(s: seq<real>, k: nat, hi: nat, r2: real)
    requires 3 * k + 2 < |s| && 3 * hi <= |s|
    ensures forall a :: a in CloseIn(s, k, hi, r2) <==> 0 <= a < hi && a != k && DistSq(s, k, a) < r2
    ensures Increasing(CloseIn(s, k, hi, r2))
  {
    if hi > 0 {
      CloseInSpec(s, k, hi - 1, r2);
      var prev := CloseIn(s, k, hi - 1, r2);
      var r := CloseIn(s, k, hi, r2);
      forall a, b | 0 <= a < b < |r|
        ensures r[a] < r[b]
      {
        if b >= |prev| {
          assert r[a] == prev[a] && prev[a] in prev;
        } else {
          assert r[a] == prev[a] && r[b] == prev[b];
        }
      }
    }
  }

  /** The relation the lists describe is symmetric and irreflexive. */
  lemma CloseInSymmetric(s: seq<real>, a: nat, b: nat, n: nat, r2: real)
    requires a < n && b < n && 3 * n <= |s|
    ensures b in CloseIn(s, a, n, r2) <==> a in CloseIn(s, b, n, r2)
    ensures a !in CloseIn(s, a, n, r2)
  {
    CloseInSpec(s, a, n, r2);
    CloseInSpec(s, b, n, r2);
    DistSqSymmetric(s, a, b);
  }

  /** How far k's list has got when the loops stand at (i, j): all of it for
      a k already visited; up to j for k == i; otherwise, the particles below
      i, and i itself once the inner loop has passed k. */
  function Bound(k: nat, i: nat, j: nat, count: nat): nat
  {
    if k < i then count else if k == i then j else if k < j then i + 1 else i
  }

  /** One inner step at (i, j): j is added to i's list and i to j's when
      they are close; every other list stays as it is. */
  method RecordPair(pos: array<real>, neighborMap: array<seq<int>>, i: nat, j: nat, count: nat, r2: real)
    requires i < j < count && 3 * count <= pos.Length && count <= neighborMap.Length
    requires forall k :: 0 <= k < count ==> neighborMap[k] == CloseIn(pos[..], k, Bound(k, i, j, count), r2)
    modifies neighborMap
    ensures forall k :: 0 <= k < count ==> neighborMap[k] == CloseIn(pos[..], k, Bound(k, i, j + 1, count), r2)
    ensures forall k :: count <= k < neighborMap.Length ==> neighborMap[k] == old(neighborMap[k])
  {
    ghost var s := pos[..];
    var ix, jx := i * 3, j * 3;
    var dist2 := LengthSq(V3(pos[ix] - pos[jx], pos[ix + 1] - pos[jx + 1], pos[ix + 2] - pos[jx + 2]));
    assert dist2 == DistSq(s, i, j);
    DistSqSymmetric(s, i, j);
    assert CloseIn(s, i, j + 1, r2) == CloseIn(s, i, j, r2) + (if dist2 < r2 then [j] else []);
    assert CloseIn(s, j, i + 1, r2) == CloseIn(s, j, i, r2) + (if dist2 < r2 then [i] else []);
    if dist2 < r2 {
      neighborMap[i] := neighborMap[i] + [j];
      neighborMap[j] := neighborMap[j] + [i];
    }
    forall k | 0 <= k < count && k != i && k != j
      ensures Bound(k, i, j + 1, count) == Bound(k, i, j, count)
    {
    }
  }

  /** The lists of the first `count` particles become exactly the close
      particles of each; the lists past `count` are untouched. */
  method FindNeighbors(pos: array<real>, neighborMap: array<seq<int>>, count: nat, radius: real)
    requires 3 * count <= pos.Length && count <= neighborMap.Length
    modifies neighborMap
    ensures forall k :: 0 <= k < count ==> neighborMap[k] == CloseIn(pos[..], k, count, radius * radius)
    ensures forall k :: count <= k < neighborMap.Length ==> neighborMap[k] == old(neighborMap[k])
  {
    for i := 0 to count
      invariant forall k :: 0 <= k < i ==> neighborMap[k] == []
      invariant forall k :: count <= k < neighborMap.Length ==> neighborMap[k] == old(neighborMap[k])
    {
      neighborMap[i] := [];
    }
    var r2 := radius * radius;
    for i := 0 to count
      invariant forall k :: 0 <= k < count ==> neighborMap[k] == CloseIn(pos[..], k, Bound(k, i, i + 1, count), r2)
      invariant forall k :: count <= k < neighborMap.Length ==> neighborMap[k] == old(neighborMap[k])
    {
      var j := i + 1;
      while j < count
        invariant i + 1 <= j <= count
        invariant forall k :: 0 <= k < count ==> neighborMap[k] == CloseIn(pos[..], k, Bound(k, i, j, count), r2)
        invariant forall k :: count <= k < neighborMap.Length ==> neighborMap[k] == old(neighborMap[k])
      {
        RecordPair(pos, neighborMap, i, j, count, r2);
        j := j + 1;
      }
      if i + 1 < count {
        assert CloseIn(pos[..], i + 1, i + 2, r2) == CloseIn(pos[..], i + 1, i + 1, r2);
      }
      forall k | 0 <= k < count && k != i + 1
        ensures Bound(k, i + 1, i + 2, count) == Bound(k, i, count, count)
      {
      }
    }
  }
}
