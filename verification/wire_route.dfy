/**
 * Orthogonal wire routing: the points a wire passes through (its start pin,
 * its anchors, its end pin) are joined by horizontal and vertical legs, and
 * points that lie on a straight run are then dropped.
 *
 * `BuildOrthogonal` is the specification; the method `BuildOrthogonalPoints`
 * is the loop-and-push routine and is proved to return it.
 */
module WireRoute {
  import opened Types

  /** `vecEq`: false when either point is missing, otherwise coordinate equality. */
  function VecEq(a: Option<Vec2>, b: Option<Vec2>): (eq: bool)
    ensures eq <==> a.Some? && a == b
  {
    if a.None? || b.None? then false else a.value.x == b.value.x && a.value.y == b.value.y
  }

  /** Two points on one horizontal or one vertical line. */
  predicate Aligned(a: Vec2, b: Vec2) {
    a.x == b.x || a.y == b.y
  }

  /** Three points on one vertical or one horizontal line. */
  predicate OnLine(a: Vec2, b: Vec2, c: Vec2) {
    (a.x == b.x && b.x == c.x) || (a.y == b.y && b.y == c.y)
  }

  /** Every two neighbours share an axis. */
  predicate Manhattan(s: seq<Vec2>) {
    forall i :: 0 <= i < |s| - 1 ==> Aligned(s[i], s[i + 1])
  }

  /** No two neighbours are the same point. */
  predicate NoRepeats(s: seq<Vec2>) {
    forall i :: 0 <= i < |s| - 1 ==> s[i] != s[i + 1]
  }

  /** The last element, as a JavaScript `s[s.length - 1]` reads it: nothing for an empty list. */
  function Last(s: seq<Vec2>): (r: Option<Vec2>)
    ensures r.Some? <==> s != []
  {
    if s == [] then None else Some(s[|s| - 1])
  }

  /**
   * `manhattanIntermediate`: the direct segment when the points share an
   * axis, otherwise a horizontal leg to the corner below or above `b` and a
   * vertical leg to `b`.
   */
  function ManhattanIntermediate(a: Vec2, b: Vec2): (seg: seq<Vec2>)
    ensures 2 <= |seg| <= 3 && seg[0] == a && seg[|seg| - 1] == b
    ensures |seg| == 3 <==> !Aligned(a, b)
    ensures |seg| == 3 ==> seg[1].y == a.y && seg[1].x == b.x
    ensures Manhattan(seg) && (a != b ==> NoRepeats(seg))
  {
    if a.x == b.x || a.y == b.y then [a, b]
    else [a, Vec2(b.x, a.y), b]
  }

  // ---------------------------------------------------------------------
  // Routing

  /** One `push` of the routing loop: `p` is appended unless it equals the last point. */
  function PushNew(out: seq<Vec2>, p: Vec2): seq<Vec2> {
    if VecEq(Last(out), Some(p)) then out else out + [p]
  }

  /** The inner loop: each point of `ps` pushed in turn. */
  function PushAll(out: seq<Vec2>, ps: seq<Vec2>): seq<Vec2>
    decreases |ps|
  {
    if ps == [] then out else PushNew(PushAll(out, ps[..|ps| - 1]), ps[|ps| - 1])
  }

  /** The routed list after the segments between the first `n` points. */
  function Routed(points: seq<Vec2>, n: nat): seq<Vec2>
    requires 1 <= n <= |points|
  {
    if n == 1 then [points[0]]
    else PushAll(Routed(points, n - 1), ManhattanIntermediate(points[n - 2], points[n - 1])[1..])
  }

  // ---------------------------------------------------------------------
  // Compaction

  /** Whether compaction keeps index `i`: the two ends always, an interior point unless it is on the line through its neighbours. */
  predicate Kept(out: seq<Vec2>, i: nat)
    requires i < |out|
  {
    i == 0 || i == |out| - 1 || !OnLine(out[i - 1], out[i], out[i + 1])
  }

  /** The compacted list after the first `n` indices of `out`. */
  function Compacted(out: seq<Vec2>, n: nat): seq<Vec2>
    requires n <= |out|
  {
    if n == 0 then [] else Compacted(out, n - 1) + (if Kept(out, n - 1) then [out[n - 1]] else [])
  }

  /** `buildOrthogonalPoints`: route, compact, and append the last routed point if the compacted list does not end on it. */
  function BuildOrthogonal(points: seq<Vec2>): seq<Vec2> {
    if points == [] then []
    else
      var out := Routed(points, |points|);
      var compact := Compacted(out, |out|);
      if VecEq(Last(compact), Last(out)) then compact else compact + [out[|out| - 1]]
  }

  // ---------------------------------------------------------------------
  // The routine

  /** The inner loop of the routing pass: the points of `seg` after its first, each pushed unless it repeats the last. */
  method PushSegmentPoints(out0: seq<Vec2>, seg: seq<Vec2>) returns (out: seq<Vec2>)
    requires |seg| >= 1
    ensures out == PushAll(out0, seg[1..])
  {
    out := out0;
    for j := 1 to |seg|
      invariant out == PushAll(out0, seg[1..j])
    {
      assert seg[1..j + 1][..j - 1] == seg[1..j];
      var p := seg[j];
      var last := if |out| > 0 then Some(out[|out| - 1]) else None;
      if !VecEq(last, Some(p)) {
        out := out + [p];
      }
    }
    assert seg[1..|seg|] == seg[1..];
  }

  /** The routing pass: the first point, then the Manhattan segment to each following point. */
  method RoutePoints(points: seq<Vec2>) returns (out: seq<Vec2>)
    requires points != []
    ensures out == Routed(points, |points|)
  {
    out := [points[0]];
    var i := 0;
    while i < |points| - 1
      invariant 0 <= i <= |points| - 1
      invariant out == Routed(points, i + 1)
    {
      var seg := ManhattanIntermediate(points[i], points[i + 1]);
      out := PushSegmentPoints(out, seg);
      i := i + 1;
    }
  }

  /** The compaction pass, and the final push of the last routed point when compaction did not end on it. */
  method CompactPoints(out: seq<Vec2>) returns (compact: seq<Vec2>)
    requires out != []
    ensures compact == (var c := Compacted(out, |out|);
      if VecEq(Last(c), Last(out)) then c else c + [out[|out| - 1]])
  {
    compact := [];
    for k := 0 to |out|
      invariant compact == Compacted(out, k)
    {
      if k == 0 || k == |out| - 1 {
        compact := compact + [out[k]];
        continue;
      }
      var prev, cur, next := out[k - 1], out[k], out[k + 1];
      if (prev.x == cur.x && cur.x == next.x) || (prev.y == cur.y && cur.y == next.y) {
        continue;
      } else {
        compact := compact + [cur];
      }
    }
    var lastCompact := if |compact| > 0 then Some(compact[|compact| - 1]) else None;
    var lastOut := out[|out| - 1];
    if !VecEq(lastCompact, Some(lastOut)) {
      compact := compact + [lastOut];
    }
  }

  /** `buildOrthogonalPoints`: nothing for no points, otherwise the routing pass followed by the compaction pass. */
  method BuildOrthogonalPoints(points: seq<Vec2>) returns (compact: seq<Vec2>)
    ensures compact == BuildOrthogonal(points)
  {
    if |points| == 0 {
      return [];
    }
    var out := RoutePoints(points);
    compact := CompactPoints(out);
  }

  // ---------------------------------------------------------------------
  // What routing promises

  /** Routing one more segment from the current end `a` to `b` keeps the list Manhattan and repeat-free and ends it on `b`. */
  lemma PushSegment(out: seq<Vec2>, a: Vec2, b: Vec2)
    requires out != [] && out[|out| - 1] == a && Manhattan(out) && NoRepeats(out)
    ensures var r := PushAll(out, ManhattanIntermediate(a, b)[1..]);
      |r| >= |out| && r[..|out|] == out && r[|r| - 1] == b && Manhattan(r) && NoRepeats(r)
  {
    var seg := ManhattanIntermediate(a, b);
    if Aligned(a, b) {
      assert seg[1..] == [b];
      assert seg[1..][..0] == [];
    } else {
      var mid := Vec2(b.x, a.y);
      assert seg[1..] == [mid, b];
      assert seg[1..][..1] == [mid];
      assert seg[1..][..1][..0] == [];
      var r1 := out + [mid];
      assert PushAll(out, [mid]) == r1;
    }
  }

  /** The routed list starts on the first point, ends on the `n`-th, and is Manhattan with no repeated neighbours. */
  lemma {:induction false} RoutedShape(points: seq<Vec2>, n: nat)
    requires 1 <= n <= |points|
    ensures var out := Routed(points, n);
      out != [] && out[0] == points[0] && out[|out| - 1] == points[n - 1] &&
      Manhattan(out) && NoRepeats(out)
  {
    if n > 1 {
      RoutedShape(points, n - 1);
      PushSegment(Routed(points, n - 1), points[n - 2], points[n - 1]);
    }
  }

  /**
   * Compacting a Manhattan, repeat-free list: after the first `n` indices the
   * result starts on `out[0]`, stays Manhattan, and its last point is on one
   * line with `out[n - 1]` and `out[n]`.
   */
  lemma {:induction false} CompactedPrefix(out: seq<Vec2>, n: nat)
    requires Manhattan(out) && NoRepeats(out) && 1 <= n < |out|
    ensures var c := Compacted(out, n);
      c != [] && c[0] == out[0] && Manhattan(c) && OnLine(c[|c| - 1], out[n - 1], out[n])
  {
    if n > 1 {
      CompactedPrefix(out, n - 1);
      var c := Compacted(out, n - 1);
      assert Aligned(out[n - 1], out[n]);
      if !Kept(out, n - 1) {
        assert OnLine(out[n - 2], out[n - 1], out[n]);
        assert out[n - 2] != out[n - 1];
      }
    } else {
      assert Aligned(out[0], out[1]);
    }
  }

  /** The whole compacted list: from `out[0]` to the last routed point, Manhattan. */
  lemma CompactedWhole(out: seq<Vec2>)
    requires Manhattan(out) && NoRepeats(out) && out != []
    ensures var c := Compacted(out, |out|);
      c != [] && c[0] == out[0] && c[|c| - 1] == out[|out| - 1] && Manhattan(c)
  {
    var n := |out|;
    if n > 1 {
      CompactedPrefix(out, n - 1);
      var c := Compacted(out, n - 1);
      assert Aligned(c[|c| - 1], out[n - 1]);
    }
  }

  /** No input points, no output points; some input points, some output points. */
  lemma BuildEmpty(points: seq<Vec2>)
    ensures BuildOrthogonal(points) == [] <==> points == []
  {
    if points != [] {
      RoutedShape(points, |points|);
    }
  }

  /** The route starts on the first input point and ends on the last one. */
  lemma BuildEnds(points: seq<Vec2>)
    requires points != []
    ensures var r := BuildOrthogonal(points);
      r != [] && r[0] == points[0] && r[|r| - 1] == points[|points| - 1]
  {
    RoutedShape(points, |points|);
    CompactedWhole(Routed(points, |points|));
  }

  /** Every two consecutive points of the route share an x or a y: it is made of horizontal and vertical legs only. */
  lemma BuildManhattan(points: seq<Vec2>)
    ensures Manhattan(BuildOrthogonal(points))
  {
    if points != [] {
      RoutedShape(points, |points|);
      CompactedWhole(Routed(points, |points|));
    }
  }

  /** Before compaction, the routed list has no two equal neighbours and every leg is horizontal or vertical. */
  lemma RoutedNoRepeats(points: seq<Vec2>)
    requires points != []
    ensures NoRepeats(Routed(points, |points|)) && Manhattan(Routed(points, |points|))
  {
    RoutedShape(points, |points|);
  }

  /**
   * Compaction only deletes interior points that lie on the line through
   * their neighbours: the result is `out` at the strictly increasing indices
   * `idx`, and an index is among them exactly when `Kept` holds of it (so
   * both ends are).
   */
  lemma {:induction false} CompactedIndices(out: seq<Vec2>, n: nat) returns (idx: seq<nat>)
    requires n <= |out|
    ensures var c := Compacted(out, n);
      |idx| == |c| &&
      (forall j :: 0 <= j < |idx| ==> idx[j] < n && c[j] == out[idx[j]]) &&
      (forall j, k :: 0 <= j < k < |idx| ==> idx[j] < idx[k]) &&
      (forall i :: 0 <= i < n ==> (i in idx <==> Kept(out, i)))
  {
    if n == 0 {
      return [];
    }
    var prev := CompactedIndices(out, n - 1);
    var c0 := Compacted(out, n - 1);
    assert n - 1 !in prev;
    if Kept(out, n - 1) {
      idx := prev + [n - 1];
      assert Compacted(out, n) == c0 + [out[n - 1]];
    } else {
      idx := prev;
      assert Compacted(out, n) == c0;
    }
  }

  /** The route is the routed list at increasing indices, keeping both of its ends. */
  lemma BuildIsSubsequence(points: seq<Vec2>) returns (idx: seq<nat>)
    requires points != []
    ensures var out, r := Routed(points, |points|), BuildOrthogonal(points);
      |idx| == |r| && idx[0] == 0 && idx[|idx| - 1] == |out| - 1 &&
      (forall j :: 0 <= j < |idx| ==> idx[j] < |out| && r[j] == out[idx[j]]) &&
      (forall j, k :: 0 <= j < k < |idx| ==> idx[j] < idx[k])
  {
    var out := Routed(points, |points|);
    RoutedShape(points, |points|);
    CompactedWhole(out);
    idx := CompactedIndices(out, |out|);
    var c := Compacted(out, |out|);
    assert BuildOrthogonal(points) == c;
    assert Kept(out, 0) && Kept(out, |out| - 1);
    var j0 :| 0 <= j0 < |idx| && idx[j0] == 0;
    var j1 :| 0 <= j1 < |idx| && idx[j1] == |out| - 1;
  }
}
