/** `colorByDensity(posArray, colorArray, neighborMap, count)` of p16: each
    particle's colour is a lerp from teal (0, 0.8, 1) to deep blue (0, 0.2, 1)
    by its neighbour count over 20, capped at 1. */
module Coloring {
  import opened Vectors

  /** `Math.min(dens / 20, 1)`. */
  function DensityFactor(dens: nat): (f: real)
    ensures 0.0 <= f <= 1.0
    ensures dens < 20 ==> f == dens as real / 20.0
    ensures dens >= 20 ==> f == 1.0
  {
    var q := dens as real / 20.0;
    if q < 1.0 then q else 1.0
  }

  /** The colour written for a particle with `dens` neighbours: the three
      lerps from the base colour to the target colour. */
  function DensityColor(dens: nat): V3
  {
    var f := DensityFactor(dens);
    V3(Lerp(0.0, 0.0, f), Lerp(0.8, 0.2, f), Lerp(1.0, 1.0, f))
  }

  /** Red is always 0, blue always 1 and green lies in [0.2, 0.8]: 0.8 (teal)
      with no neighbours, falling by 0.03 per neighbour, and 0.2 (deep blue)
      from 20 neighbours on. */
  lemma DensityColorSpec(dens: nat)
    ensures var c := DensityColor(dens);
            c.x == 0.0 && c.z == 1.0 && 0.2 <= c.y <= 0.8
    ensures dens < 20 ==> DensityColor(dens).y == 0.8 - 0.03 * dens as real
    ensures dens >= 20 ==> DensityColor(dens).y == 0.2
    ensures DensityColor(0) == V3(0.0, 0.8, 1.0)
  {
    var f := DensityFactor(dens);
    LerpBetween(0.8, 0.2, f);
    assert Lerp(0.0, 0.0, f) == 0.0 && Lerp(1.0, 1.0, f) == 1.0;
  }

  /** More neighbours never make a particle greener: green is non-increasing
      in the neighbour count. */
  lemma DensityColorMonotone(a: nat, b: nat)
    requires a <= b
    ensures DensityColor(b).y <= DensityColor(a).y
  {
    var fa, fb := DensityFactor(a), DensityFactor(b);
    assert fa <= fb;
    assert Lerp(0.8, 0.2, fa) == 0.8 - 0.6 * fa;
    assert Lerp(0.8, 0.2, fb) == 0.8 - 0.6 * fb;
  }

  /** The colour buffer after the loop has painted particles 0 .. n-1. */
  function Painted(c: seq<real>, lists: seq<seq<int>>, n: nat): (r: seq<real>)
    requires 3 * n <= |c| && n <= |lists|
    ensures |r| == |c|
  {
    if n == 0 then c else SetAt(Painted(c, lists, n - 1), n - 1, DensityColor(|lists[n - 1]|))
  }

  /** Every particle below n gets the colour of its own neighbour count, so
      red 0, blue 1 and green in [0.2, 0.8]; the rest of the buffer is kept. */
  lemma {:induction false} PaintedAt(c: seq<real>, lists: seq<seq<int>>, n: nat)
    requires 3 * n <= |c| && n <= |lists|
    ensures forall k :: 0 <= k < n ==> At(Painted(c, lists, n), k) == DensityColor(|lists[k]|)
    ensures forall k :: 0 <= k < n ==> 0.2 <= At(Painted(c, lists, n), k).y <= 0.8
    ensures forall m :: 3 * n <= m < |c| ==> Painted(c, lists, n)[m] == c[m]
  {
    if n > 0 {
      PaintedAt(c, lists, n - 1);
      var prev := Painted(c, lists, n - 1);
      var r := Painted(c, lists, n);
      forall k | 0 <= k < n
        ensures At(r, k) == DensityColor(|lists[k]|)
        ensures 0.2 <= At(r, k).y <= 0.8
      {
        if k < n - 1 {
          assert At(r, k) == At(prev, k);
        }
        DensityColorSpec(|lists[k]|);
      }
    }
  }

  /** The loop over the first `count` particles, writing r, g, b. */
  method ColorByDensity(colorArray: array<real>, neighborMap: array<seq<int>>, count: nat)
    requires 3 * count <= colorArray.Length && count <= neighborMap.Length
    modifies colorArray
    ensures colorArray[..] == Painted(old(colorArray[..]), neighborMap[..], count)
  {
    ghost var c := colorArray[..];
    for i := 0 to count
      invariant colorArray[..] == Painted(c, neighborMap[..], i)
    {
      var dens := |neighborMap[i]|;
      var factor := DensityFactor(dens);
      var ix := i * 3;
      ghost var before := colorArray[..];
      colorArray[ix] := Lerp(0.0, 0.0, factor);
      colorArray[ix + 1] := Lerp(0.8, 0.2, factor);
      colorArray[ix + 2] := Lerp(1.0, 1.0, factor);
      assert colorArray[..] == SetAt(before, i, DensityColor(dens));
    }
  }
}
