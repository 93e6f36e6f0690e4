/**
 * The routing used while a wire is being drawn. It is a second copy of the
 * routine that routes finished wires, with its own `vecEq` and
 * `manhattanIntermediate`; its loops are proved against the finished-wire
 * specification in the `WireRoute` module, so both copies return the same list.
 */
module WireDraftRoute {
  import opened Types
  import WireRoute

  /** `vecEq`, second copy: false when either point is missing, otherwise coordinate equality. */
  function VecEq(a: Option<Vec2>, b: Option<Vec2>): (eq: bool)
    ensures eq <==> a.Some? && a == b
  {
    if a.None? || b.None? then false else a.value.x == b.value.x && a.value.y == b.value.y
  }

  /** `manhattanIntermediate`, second copy: the direct segment for aligned points, otherwise horizontal first. */
  function ManhattanIntermediate(a: Vec2, b: Vec2): (seg: seq<Vec2>)
    ensures seg == WireRoute.ManhattanIntermediate(a, b)
  {
    if a.x == b.x || a.y == b.y then [a, b]
    else [a, Vec2(b.x, a.y), b]
  }

  /** Both copies of `vecEq` agree on every pair of (possibly missing) points. */
  lemma SameVecEq(a: Option<Vec2>, b: Option<Vec2>)
    ensures VecEq(a, b) == WireRoute.VecEq(a, b)
  {
  }

  /**
   * `buildOrthogonalPoints`, second copy, written as the draft writes it:
   * the routing loop with its inner push loop, then the compaction pass. It
   * calls only this module's `VecEq` and `ManhattanIntermediate`; the loop
   * invariants tie it to the finished-wire specification, so the draft and
   * the finished wire route alike.
   */
  method BuildOrthogonalPoints(points: seq<Vec2>) returns (compact: seq<Vec2>)
    ensures compact == WireRoute.BuildOrthogonal(points)
  {
    if |points| == 0 {
      return [];
    }
    var out := [points[0]];
    var i := 0;
    while i < |points| - 1
      invariant 0 <= i <= |points| - 1
      invariant out == WireRoute.Routed(points, i + 1)
    {
      var seg := ManhattanIntermediate(points[i], points[i + 1]);
      ghost var out0 := out;
      for j := 1 to |seg|
        invariant out == WireRoute.PushAll(out0, seg[1..j])
      {
        assert seg[1..j + 1][..j - 1] == seg[1..j];
        var p := seg[j];
        var last := if |out| > 0 then Some(out[|out| - 1]) else None;
        SameVecEq(last, Some(p));
        if !VecEq(last, Some(p)) {
          out := out + [p];
        }
      }
      assert seg[1..|seg|] == seg[1..];
      i := i + 1;
    }
    compact := Compact(out);
  }

  /** The draft's compaction loop, and the final push of the last routed point when compaction did not end on it. */
  method Compact(out: seq<Vec2>) returns (compact: seq<Vec2>)
    requires out != []
    ensures compact == (var c := WireRoute.Compacted(out, |out|);
      if WireRoute.VecEq(WireRoute.Last(c), WireRoute.Last(out)) then c else c + [out[|out| - 1]])
  {
    compact := [];
    for k := 0 to |out|
      invariant compact == WireRoute.Compacted(out, k)
    {
      if k == 0 || k == |out| - 1 {
        compact := compact + [out[k]];
        continue;
      }
      var prev, cur, next := out[k - 1], out[k], out[k + 1];
      if (prev.x == cur.x && cur.x == next.x) || (prev.y == cur.y && cur.y == next.y) {
        continue;
      } else {
        compact := compact + [cur];
      }
    }
    var lastCompact := if |compact| > 0 then Some(compact[|compact| - 1]) else None;
    var lastOut := out[|out| - 1];
    SameVecEq(lastCompact, Some(lastOut));
    if !VecEq(lastCompact, Some(lastOut)) {
      compact := compact + [lastOut];
    }
  }
}
