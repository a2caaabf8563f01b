/** The 3-D k-d tree `KDTree3D` and `buildKDTree` of hyperPhyzx-p11.js.
    The tree is built by sorting on axis `depth % 3`, taking the median as the
    node and recursing on the two halves; the range query reports every point
    whose squared distance to the target is strictly below `radiusSq`, and
    skips the far subtree when the splitting plane is at least that far away. */
module KDTree {
  import opened Vectors

  /** A point handed to the tree: `{x, y, z, index}`. */
  datatype Point = Point(x: real, y: real, z: real, index: int)

  /** `null` or a node `{point, axis, left, right}`. */
  datatype Tree = Leaf | Node(point: Point, axis: nat, left: Tree, right: Tree)

  function Pos(p: Point): V3 { V3(p.x, p.y, p.z) }

  /** The coordinate the comparator and the query read for `axis`:
      x for 0, y for 1, z otherwise. */
  function Coord(v: V3, axis: nat): real
  {
    if axis == 0 then v.x else if axis == 1 then v.y else v.z
  }

  /** Squared distance from a point to the target, as `node.point - target`. */
  function DistToSq(p: Point, target: V3): real { LengthSq(Sub(Pos(p), target)) }

  // ---------------------------------------------------------------------
  // Sorting on one axis (`points.sort(...)`, a stable sort)
  // ---------------------------------------------------------------------

  ghost predicate SortedOn(s: seq<Point>, axis: nat)
  {
    forall i, j :: 0 <= i < j < |s| ==> Coord(Pos(s[i]), axis) <= Coord(Pos(s[j]), axis)
  }

  /** Inserts p before the first element whose coordinate is not below p's,
      so that earlier elements stay ahead of later equal ones. */
  function Insert(p: Point, s: seq<Point>, axis: nat): (r: seq<Point>)
    requires SortedOn(s, axis)
    ensures |r| == |s| + 1
    ensures multiset(r) == multiset(s) + multiset{p}
    ensures SortedOn(r, axis)
  {
    if s == [] || Coord(Pos(p), axis) <= Coord(Pos(s[0]), axis) then
      [p] + s
    else
      var t := Insert(p, s[1..], axis);
      InsertBelowHead(p, s, t, axis);
      assert s == [s[0]] + s[1..];
      [s[0]] + t
  }

  lemma InsertBelowHead(p: Point, s: seq<Point>, t: seq<Point>, axis: nat)
    requires s != [] && SortedOn(s, axis) && SortedOn(t, axis)
    requires Coord(Pos(s[0]), axis) < Coord(Pos(p), axis)
    requires multiset(t) == multiset(s[1..]) + multiset{p}
    ensures SortedOn([s[0]] + t, axis)
  {
    forall j | 0 <= j < |t|
      ensures Coord(Pos(s[0]), axis) <= Coord(Pos(t[j]), axis)
    {
      assert t[j] in multiset(t);
      if t[j] != p {
        assert t[j] in multiset(s[1..]);
        var k :| 0 <= k < |s[1..]| && s[1..][k] == t[j];
        assert s[k + 1] == t[j];
      }
    }
  }

  /** Insertion sort on one axis; the result is the stable sort of `s`. */
  function SortOn(s: seq<Point>, axis: nat): (r: seq<Point>)
    ensures |r| == |s|
    ensures multiset(r) == multiset(s)
    ensures SortedOn(r, axis)
  {
    if s == [] then [] else
      assert s == [s[0]] + s[1..];
      Insert(s[0], SortOn(s[1..], axis), axis)
  }

  // ---------------------------------------------------------------------
  // buildTree
  // ---------------------------------------------------------------------

  /** `buildTree(points, depth)`: sort on `depth % 3`, the median becomes the
      node, `slice(0, mid)` the left and `slice(mid + 1)` the right subtree. */
  function BuildTree(points: seq<Point>, depth: nat): (t: Tree)
    decreases |points|
  {
    if |points| == 0 then Leaf
    else
      var axis := depth % 3;
      var sorted := SortOn(points, axis);
      var mid := |sorted| / 2;
      Node(sorted[mid], axis,
           BuildTree(sorted[..mid], depth + 1),
           BuildTree(sorted[mid + 1..], depth + 1))
  }

  /** The points stored in a tree, left subtree first. */
  function Points(t: Tree): seq<Point>
  {
    match t
    case Leaf => []
    case Node(p, _, left, right) => Points(left) + [p] + Points(right)
  }

  /** A node at depth d splits on axis d % 3; its left subtree holds no
      coordinate above the node's on that axis, its right subtree none below. */
  ghost predicate WellFormed(t: Tree, depth: nat)
  {
    match t
    case Leaf => true
    case Node(p, axis, left, right) =>
      && axis == depth % 3
      && (forall q :: q in Points(left) ==> Coord(Pos(q), axis) <= Coord(Pos(p), axis))
      && (forall q :: q in Points(right) ==> Coord(Pos(p), axis) <= Coord(Pos(q), axis))
      && WellFormed(left, depth + 1)
      && WellFormed(right, depth + 1)
  }

  /** An empty list gives the empty tree, and only an empty list does; a
      query on the empty tree reports nothing. */
  lemma BuildTreeEmpty(points: seq<Point>, depth: nat, x: real, y: real, z: real, r2: real)
    ensures BuildTree(points, depth) == Leaf <==> |points| == 0
    ensures |points| == 0 ==> Query(BuildTree(points, depth), x, y, z, r2) == []
  {
  }

  /** Every input point is stored in exactly one node: the tree's points are a
      permutation of the input. */
  lemma {:induction false} BuildTreePermutation(points: seq<Point>, depth: nat)
    ensures multiset(Points(BuildTree(points, depth))) == multiset(points)
    decreases |points|
  {
    if |points| > 0 {
      var sorted := SortOn(points, depth % 3);
      var mid := |sorted| / 2;
      var left, right := BuildTree(sorted[..mid], depth + 1), BuildTree(sorted[mid + 1..], depth + 1);
      BuildTreePermutation(sorted[..mid], depth + 1);
      BuildTreePermutation(sorted[mid + 1..], depth + 1);
      assert Points(BuildTree(points, depth)) == Points(left) + [sorted[mid]] + Points(right);
      MultisetAroundMedian(sorted, mid);
    }
  }

  lemma MultisetAroundMedian<T>(s: seq<T>, mid: nat)
    requires mid < |s|
    ensures multiset(s) == multiset(s[..mid]) + multiset{s[mid]} + multiset(s[mid + 1..])
  {
    assert s == s[..mid] + [s[mid]] + s[mid + 1..];
  }

  /** After sorting, everything before the median is not above it and
      everything after it is not below it. */
  lemma SortedSplit(s: seq<Point>, mid: nat, axis: nat)
    requires mid < |s| && SortedOn(s, axis)
    ensures forall q :: q in s[..mid] ==> Coord(Pos(q), axis) <= Coord(Pos(s[mid]), axis)
    ensures forall q :: q in s[mid + 1..] ==> Coord(Pos(s[mid]), axis) <= Coord(Pos(q), axis)
  {
    forall q | q in s[..mid]
      ensures Coord(Pos(q), axis) <= Coord(Pos(s[mid]), axis)
    {
      var k :| 0 <= k < mid && s[..mid][k] == q;
      assert s[k] == q;
    }
    forall q | q in s[mid + 1..]
      ensures Coord(Pos(s[mid]), axis) <= Coord(Pos(q), axis)
    {
      var k :| 0 <= k < |s| - mid - 1 && s[mid + 1..][k] == q;
      assert s[mid + 1 + k] == q;
    }
  }

  /** The built tree splits on `depth % 3` at every level and is ordered. */
  lemma {:induction false} BuildTreeWellFormed(points: seq<Point>, depth: nat)
    ensures WellFormed(BuildTree(points, depth), depth)
    decreases |points|
  {
    if |points| > 0 {
      var axis := depth % 3;
      var sorted := SortOn(points, axis);
      var mid := |sorted| / 2;
      var left, right := BuildTree(sorted[..mid], depth + 1), BuildTree(sorted[mid + 1..], depth + 1);
      BuildTreeWellFormed(sorted[..mid], depth + 1);
      BuildTreeWellFormed(sorted[mid + 1..], depth + 1);
      BuildTreePermutation(sorted[..mid], depth + 1);
      BuildTreePermutation(sorted[mid + 1..], depth + 1);
      SortedSplit(sorted, mid, axis);
      forall q | q in Points(left)
        ensures Coord(Pos(q), axis) <= Coord(Pos(sorted[mid]), axis)
      {
        assert q in multiset(Points(left));
        assert q in sorted[..mid];
      }
      forall q | q in Points(right)
        ensures Coord(Pos(sorted[mid]), axis) <= Coord(Pos(q), axis)
      {
        assert q in multiset(Points(right));
        assert q in sorted[mid + 1..];
      }
    }
  }

  // ---------------------------------------------------------------------
  // neighborsWithin and query
  // ---------------------------------------------------------------------

  /** The node's own test in `neighborsWithin`: strictly inside the radius. */
  function Close(p: Point, target: V3, radiusSq: real): bool { DistToSq(p, target) < radiusSq }

  /** `valT - valN`: how far the target lies past the node on the node's axis. */
  function Gap(p: Point, axis: nat, target: V3): real { Coord(target, axis) - Coord(Pos(p), axis) }

  /** `diff * diff < radiusSq`: the far side can still hold a close point. */
  function KeepFar(p: Point, axis: nat, target: V3, radiusSq: real): bool
  {
    Gap(p, axis, target) * Gap(p, axis, target) < radiusSq
  }

  /** `neighborsWithin(node, target, radiusSq, result)`: what it pushes onto
      `result`, in order: the node's own index when it is close enough, then
      the subtree on the target's side (left when `diff < 0`), then the other
      subtree unless pruned. */
  function NeighborsWithin(node: Tree, target: V3, radiusSq: real): seq<int>
  {
    match node
    case Leaf => []
    case Node(p, axis, left, right) =>
      var here := if Close(p, target, radiusSq) then [p.index] else [];
      var primary := if Gap(p, axis, target) < 0.0 then left else right;
      var secondary := if Gap(p, axis, target) < 0.0 then right else left;
      here + NeighborsWithin(primary, target, radiusSq)
           + (if KeepFar(p, axis, target, radiusSq) then NeighborsWithin(secondary, target, radiusSq) else [])
  }

  /** `query(x, y, z, r2)`, with the tree's root passed explicitly. */
  function Query(root: Tree, x: real, y: real, z: real, r2: real): seq<int>
  {
    NeighborsWithin(root, V3(x, y, z), r2)
  }

  /** The reference: scan the points in order and keep every index whose
      squared distance is strictly below `radiusSq`. */
  function Brute(s: seq<Point>, target: V3, radiusSq: real): seq<int>
  {
    if s == [] then []
    else (if Close(s[0], target, radiusSq) then [s[0].index] else []) + Brute(s[1..], target, radiusSq)
  }

  lemma {:induction false} BruteConcat(a: seq<Point>, b: seq<Point>, target: V3, radiusSq: real)
    ensures Brute(a + b, target, radiusSq) == Brute(a, target, radiusSq) + Brute(b, target, radiusSq)
  {
    if a == [] {
      assert a + b == b;
    } else {
      assert (a + b)[1..] == a[1..] + b;
      BruteConcat(a[1..], b, target, radiusSq);
    }
  }

  /** The brute-force result, as a multiset, depends only on the multiset of points. */
  lemma {:induction false} BrutePermutation(a: seq<Point>, b: seq<Point>, target: V3, radiusSq: real)
    requires multiset(a) == multiset(b)
    ensures multiset(Brute(a, target, radiusSq)) == multiset(Brute(b, target, radiusSq))
    decreases |a|
  {
    if a == [] {
      assert |b| == |multiset(b)| == 0;
    } else {
      var x := a[0];
      assert x in multiset(b);
      var k :| 0 <= k < |b| && b[k] == x;
      var rest := b[..k] + b[k + 1..];
      assert b == b[..k] + [x] + b[k + 1..];
      assert a == [x] + a[1..];
      assert multiset(rest) == multiset(b) - multiset{x};
      assert multiset(a[1..]) == multiset(a) - multiset{x};
      BrutePermutation(a[1..], rest, target, radiusSq);
      BruteConcat(b[..k], b[k + 1..], target, radiusSq);
      BruteConcat(b[..k] + [x], b[k + 1..], target, radiusSq);
      BruteConcat(b[..k], [x], target, radiusSq);
      BruteConcat([x], a[1..], target, radiusSq);
    }
  }

  lemma {:induction false} BruteAllFar(s: seq<Point>, target: V3, radiusSq: real)
    requires forall q :: q in s ==> !Close(q, target, radiusSq)
    ensures Brute(s, target, radiusSq) == []
  {
    if s != [] {
      assert s[0] in s;
      BruteAllFar(s[1..], target, radiusSq);
    }
  }

  /** A coordinate of the difference is at most as large, squared, as the whole squared length. */
  lemma AxisSquareBelowLength(d: V3, axis: nat)
    ensures Coord(d, axis) * Coord(d, axis) <= LengthSq(d)
  {
    LengthSqNonNegative(d);
  }

  /** A coordinate at least |diff| away on the far side has a square at least diff * diff. */
  lemma FarSideSquare(u: real, diff: real)
    requires (diff < 0.0 && u >= -diff) || (diff >= 0.0 && -u >= diff)
    ensures diff * diff <= u * u
  {
    if diff < 0.0 {
      SquareMonotone(u, -diff);
      assert (-diff) * (-diff) == diff * diff;
    } else {
      SquareMonotone(-u, diff);
      assert (-u) * (-u) == u * u;
    }
  }

  /** Pruning is sound: a point on the far side of the splitting plane from the
      target is at least as far from it as the plane, so when the plane is out
      of range, so is the point. */
  lemma PruneOne(p: Point, axis: nat, q: Point, target: V3, radiusSq: real)
    requires !KeepFar(p, axis, target, radiusSq)
    requires Gap(p, axis, target) < 0.0 ==> Coord(Pos(p), axis) <= Coord(Pos(q), axis)
    requires Gap(p, axis, target) >= 0.0 ==> Coord(Pos(q), axis) <= Coord(Pos(p), axis)
    ensures !Close(q, target, radiusSq)
  {
    var diff := Gap(p, axis, target);
    var d := Sub(Pos(q), target);
    var u := Coord(Pos(q), axis) - Coord(target, axis);
    assert Coord(d, axis) == u;
    AxisSquareBelowLength(d, axis);
    FarSideSquare(u, diff);
  }

  /** No point of the subtree the query skips is within the radius. */
  lemma PruneSound(t: Tree, depth: nat, target: V3, radiusSq: real)
    requires t.Node? && WellFormed(t, depth)
    requires !KeepFar(t.point, t.axis, target, radiusSq)
    ensures var far := if Gap(t.point, t.axis, target) < 0.0 then t.right else t.left;
            forall q :: q in Points(far) ==> !Close(q, target, radiusSq)
  {
    var far := if Gap(t.point, t.axis, target) < 0.0 then t.right else t.left;
    forall q | q in Points(far)
      ensures !Close(q, target, radiusSq)
    {
      PruneOne(t.point, t.axis, q, target, radiusSq);
    }
  }

  /** The brute-force scan of a node's points splits as left, node, right. */
  lemma BruteNode(t: Tree, target: V3, radiusSq: real)
    requires t.Node?
    ensures Brute(Points(t), target, radiusSq)
         == Brute(Points(t.left), target, radiusSq)
            + (if Close(t.point, target, radiusSq) then [t.point.index] else [])
            + Brute(Points(t.right), target, radiusSq)
  {
    BruteConcat(Points(t.left) + [t.point], Points(t.right), target, radiusSq);
    BruteConcat(Points(t.left), [t.point], target, radiusSq);
  }

  /** One node of the query: when each subtree's query matches its scan and the
      skipped side, if any, has nothing close, the node's query matches its scan. */
  lemma NodeMatchesBrute(t: Tree, target: V3, radiusSq: real)
    requires t.Node?
    requires multiset(NeighborsWithin(t.left, target, radiusSq)) == multiset(Brute(Points(t.left), target, radiusSq))
    requires multiset(NeighborsWithin(t.right, target, radiusSq)) == multiset(Brute(Points(t.right), target, radiusSq))
    requires !KeepFar(t.point, t.axis, target, radiusSq) ==>
               Brute(Points(if Gap(t.point, t.axis, target) < 0.0 then t.right else t.left), target, radiusSq) == []
    ensures multiset(NeighborsWithin(t, target, radiusSq)) == multiset(Brute(Points(t), target, radiusSq))
  {
    var here := if Close(t.point, target, radiusSq) then [t.point.index] else [];
    var keepFar := KeepFar(t.point, t.axis, target, radiusSq);
    var leftFirst := Gap(t.point, t.axis, target) < 0.0;
    var near, far := if leftFirst then t.left else t.right, if leftFirst then t.right else t.left;
    var bNear, bFar := Brute(Points(near), target, radiusSq), Brute(Points(far), target, radiusSq);
    var nwNear, nwFar := NeighborsWithin(near, target, radiusSq), NeighborsWithin(far, target, radiusSq);
    var bLeft, bRight := Brute(Points(t.left), target, radiusSq), Brute(Points(t.right), target, radiusSq);
    calc {
      multiset(NeighborsWithin(t, target, radiusSq));
      multiset(here + nwNear + (if keepFar then nwFar else []));
      { Combine(here, nwNear, nwFar, bNear, bFar, keepFar); }
      multiset(here) + multiset(bNear) + multiset(bFar);
      { Reorder(here, bLeft, bRight, bNear, bFar, leftFirst); }
      multiset(bLeft + here + bRight);
      { BruteNode(t, target, radiusSq); }
      multiset(Brute(Points(t), target, radiusSq));
    }
  }

  /** Near and far are left and right in one order or the other. */
  lemma Reorder(here: seq<int>, bLeft: seq<int>, bRight: seq<int>, bNear: seq<int>, bFar: seq<int>, leftFirst: bool)
    requires leftFirst ==> bNear == bLeft && bFar == bRight
    requires !leftFirst ==> bNear == bRight && bFar == bLeft
    ensures multiset(here) + multiset(bNear) + multiset(bFar) == multiset(bLeft + here + bRight)
  {
  }

  /** The node's report, its own entry, then the near side's, then the far
      side's when it is searched, counts what the scans of both sides and the
      node count, when the far side is only skipped with nothing close in it. */
  lemma Combine(here: seq<int>, nwNear: seq<int>, nwFar: seq<int>, bNear: seq<int>, bFar: seq<int>, keep: bool)
    requires multiset(nwNear) == multiset(bNear) && multiset(nwFar) == multiset(bFar)
    requires !keep ==> bFar == []
    ensures multiset(here + nwNear + (if keep then nwFar else [])) == multiset(here) + multiset(bNear) + multiset(bFar)
  {
  }

  /** On an ordered tree the query reports, with multiplicity, exactly the
      indices the brute-force scan of the tree's points reports: pruning
      loses nothing. */
  lemma {:induction false} NeighborsWithinIsBrute(t: Tree, depth: nat, target: V3, radiusSq: real)
    requires WellFormed(t, depth)
    ensures multiset(NeighborsWithin(t, target, radiusSq)) == multiset(Brute(Points(t), target, radiusSq))
  {
    if t.Node? {
      NeighborsWithinIsBrute(t.left, depth + 1, target, radiusSq);
      NeighborsWithinIsBrute(t.right, depth + 1, target, radiusSq);
      if !KeepFar(t.point, t.axis, target, radiusSq) {
        PruneSound(t, depth, target, radiusSq);
        BruteAllFar(Points(if Gap(t.point, t.axis, target) < 0.0 then t.right else t.left), target, radiusSq);
      }
      NodeMatchesBrute(t, target, radiusSq);
    }
  }

  // ---------------------------------------------------------------------
  // buildKDTree over the flat position buffer
  // ---------------------------------------------------------------------

  /** `{x: positions[ix], y: positions[ix+1], z: positions[ix+2], index: i}`. */
  function PointOf(s: seq<real>, i: nat): (p: Point)
    requires 3 * i + 2 < |s|
    ensures Pos(p) == At(s, i) && p.index == i
  {
    Point(s[3 * i], s[3 * i + 1], s[3 * i + 2], i)
  }

  /** The `pts` list `buildKDTree` hands to the tree: particles 0 .. n-1 in order. */
  function PointsOf(s: seq<real>, n: nat): (pts: seq<Point>)
    requires 3 * n <= |s|
    ensures |pts| == n && forall i :: 0 <= i < n ==> pts[i] == PointOf(s, i)
  {
    seq(n, i requires 0 <= i < n => PointOf(s, i))
  }

  /** The increasing list of particle indices i < n whose position is strictly
      within the squared radius of the target. */
  function BruteIndices(s: seq<real>, n: nat, target: V3, radiusSq: real): seq<int>
    requires 3 * n <= |s|
  {
    if n == 0 then []
    else BruteIndices(s, n - 1, target, radiusSq)
         + (if Close(PointOf(s, n - 1), target, radiusSq) then [n - 1] else [])
  }

  /** Membership in the reference list, both directions, and its order. */
  lemma {:induction false} BruteIndicesSpec(s: seq<real>, n: nat, target: V3, radiusSq: real)
    requires 3 * n <= |s|
    ensures forall k :: k in BruteIndices(s, n, target, radiusSq)
                    <==> 0 <= k < n && Close(PointOf(s, k), target, radiusSq)
    ensures Increasing(BruteIndices(s, n, target, radiusSq))
  {
    if n > 0 {
      BruteIndicesSpec(s, n - 1, target, radiusSq);
      var prev := BruteIndices(s, n - 1, target, radiusSq);
      var r := BruteIndices(s, n, target, radiusSq);
      forall a, b | 0 <= a < b < |r|
        ensures r[a] < r[b]
      {
        var extra := if Close(PointOf(s, n - 1), target, radiusSq) then [n - 1] else [];
        assert r == prev + extra;
        if b >= |prev| {
          assert r[b] == n - 1;
          assert r[a] == prev[a] && prev[a] in prev;
          assert prev[a] < n - 1;
        } else {
          assert r[a] == prev[a] && r[b] == prev[b];
          assert prev[a] < prev[b];
        }
      }
    }
  }

  /** Every index occurs at most once: exactly once if its particle is close. */
  lemma BruteIndicesCount(s: seq<real>, n: nat, target: V3, radiusSq: real, k: int)
    requires 3 * n <= |s|
    ensures multiset(BruteIndices(s, n, target, radiusSq))[k]
         == if 0 <= k < n && Close(PointOf(s, k), target, radiusSq) then 1 else 0
  {
    BruteIndicesSpec(s, n, target, radiusSq);
    IncreasingCount(BruteIndices(s, n, target, radiusSq), k);
  }

  /** In an increasing list every value occurs at most once. */
  lemma {:induction false} IncreasingCount(xs: seq<int>, k: int)
    requires Increasing(xs)
    ensures multiset(xs)[k] == if k in xs then 1 else 0
  {
    if xs != [] {
      var rest := xs[1..];
      assert xs == [xs[0]] + rest;
      assert Increasing(rest) by {
        forall a, b | 0 <= a < b < |rest| ensures rest[a] < rest[b] {
          assert rest[a] == xs[a + 1] && rest[b] == xs[b + 1];
        }
      }
      IncreasingCount(rest, k);
      if k == xs[0] {
        forall m | 0 <= m < |rest| ensures rest[m] != k {
          assert rest[m] == xs[m + 1];
        }
      }
      assert multiset(xs)[k] == multiset([xs[0]])[k] + multiset(rest)[k];
    }
  }

  /** Scanning the point list in order is the index scan. */
  lemma {:induction false} BruteOfPointsOf(s: seq<real>, n: nat, target: V3, radiusSq: real)
    requires 3 * n <= |s|
    ensures Brute(PointsOf(s, n), target, radiusSq) == BruteIndices(s, n, target, radiusSq)
  {
    if n > 0 {
      BruteOfPointsOf(s, n - 1, target, radiusSq);
      assert PointsOf(s, n) == PointsOf(s, n - 1) + [PointOf(s, n - 1)];
      BruteConcat(PointsOf(s, n - 1), [PointOf(s, n - 1)], target, radiusSq);
    }
  }

  /** Every stored point carries a particle index below n. */
  predicate IndicesBelow(t: Tree, n: nat)
  {
    forall q :: q in Points(t) ==> 0 <= q.index < n
  }

  /** Every entry of an index list is a particle below n. */
  predicate ListBelow(js: seq<int>, n: nat)
  {
    forall m :: 0 <= m < |js| ==> 0 <= js[m] < n
  }

  /** A query reports only indices stored in the tree, so a tree over
      particles below n reports only particles below n, whatever its shape. */
  lemma {:induction false} NeighborsWithinBelow(t: Tree, target: V3, radiusSq: real, n: nat)
    requires IndicesBelow(t, n)
    ensures ListBelow(NeighborsWithin(t, target, radiusSq), n)
  {
    match t
    case Leaf =>
    case Node(p, axis, left, right) =>
      assert p in Points(t);
      assert IndicesBelow(left, n) by {
        forall q | q in Points(left) ensures 0 <= q.index < n { assert q in Points(t); }
      }
      assert IndicesBelow(right, n) by {
        forall q | q in Points(right) ensures 0 <= q.index < n { assert q in Points(t); }
      }
      NeighborsWithinBelow(left, target, radiusSq, n);
      NeighborsWithinBelow(right, target, radiusSq, n);
  }

  /** The tree `buildKDTree` makes from the first n particles stores only
      indices below n. */
  lemma BuildTreeIndicesBelow(s: seq<real>, n: nat)
    requires 3 * n <= |s|
    ensures IndicesBelow(BuildTree(PointsOf(s, n), 0), n)
  {
    var pts := PointsOf(s, n);
    BuildTreePermutation(pts, 0);
    forall q | q in Points(BuildTree(pts, 0))
      ensures 0 <= q.index < n
    {
      assert q in multiset(pts);
      var i :| 0 <= i < n && pts[i] == q;
    }
  }

  /** The tree built from the first n particles answers every query with exactly
      the brute-force result: an index is reported iff its particle is strictly
      within the radius, and then exactly once. */
  lemma QueryIsBruteForce(s: seq<real>, n: nat, x: real, y: real, z: real, r2: real)
    requires 3 * n <= |s|
    ensures var q := Query(BuildTree(PointsOf(s, n), 0), x, y, z, r2);
            multiset(q) == multiset(BruteIndices(s, n, V3(x, y, z), r2))
    ensures var q := Query(BuildTree(PointsOf(s, n), 0), x, y, z, r2);
            forall k :: multiset(q)[k] == if 0 <= k < n && Close(PointOf(s, k), V3(x, y, z), r2) then 1 else 0
  {
    var pts := PointsOf(s, n);
    var t := BuildTree(pts, 0);
    BuildTreeWellFormed(pts, 0);
    BuildTreePermutation(pts, 0);
    NeighborsWithinIsBrute(t, 0, V3(x, y, z), r2);
    BrutePermutation(Points(t), pts, V3(x, y, z), r2);
    BruteOfPointsOf(s, n, V3(x, y, z), r2);
    forall k {
      BruteIndicesCount(s, n, V3(x, y, z), r2, k);
    }
  }

  /** `buildKDTree()`: collects the first `numParticles` positions as points
      with their indices and builds the tree from them. */
  method BuildKDTree(positions: array<real>, numParticles: nat) returns (tree: Tree)
    requires 3 * numParticles <= positions.Length
    ensures tree == BuildTree(PointsOf(positions[..], numParticles), 0)
    ensures WellFormed(tree, 0)
    ensures multiset(Points(tree)) == multiset(PointsOf(positions[..], numParticles))
    ensures forall x, y, z, r2 :: multiset(Query(tree, x, y, z, r2))
                               == multiset(BruteIndices(positions[..], numParticles, V3(x, y, z), r2))
  {
    var pts: seq<Point> := [];
    var i := 0;
    while i < numParticles
      invariant 0 <= i <= numParticles
      invariant pts == PointsOf(positions[..], i)
    {
      var ix := i * 3;
      pts := pts + [Point(positions[ix], positions[ix + 1], positions[ix + 2], i)];
      i := i + 1;
    }
    tree := BuildTree(pts, 0);
    BuildTreeWellFormed(pts, 0);
    BuildTreePermutation(pts, 0);
    forall x, y, z, r2
      ensures multiset(Query(tree, x, y, z, r2))
           == multiset(BruteIndices(positions[..], numParticles, V3(x, y, z), r2))
    {
      QueryIsBruteForce(positions[..], numParticles, x, y, z, r2);
    }
  }
}
