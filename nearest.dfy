/** The nearest-vertex scan that `checkTrackBoundaries`, `isOnTrack` and
    `isInGravelTrap` each carry a copy of: a linear pass over the boundary
    vertices keeping the first vertex of least distance. Only vertices are
    considered, never points inside an edge. */
module Nearest {
  import opened Wrappers
  import opened Geometry

  /** Index of the first vertex of least distance to p among b[..k]: the
      vertex a strict `<` scan of the first k vertices settles on. */
  function NearestIndex(b: seq<Point>, p: Point, k: nat): (m: nat)
    requires 0 < k <= |b|
    ensures m < k
    ensures forall i :: 0 <= i < k ==> Dist2(b[m], p) <= Dist2(b[i], p)
    ensures forall i :: 0 <= i < m ==> Dist2(b[m], p) < Dist2(b[i], p)
  {
    if k == 1 then 0
    else
      var m := NearestIndex(b, p, k - 1);
      if Dist2(b[k - 1], p) < Dist2(b[m], p) then k - 1 else m
  }

  /** The least squared distance from p to a vertex of b; +infinity when b
      has no vertex (the scan's starting value is never replaced). */
  function MinDist2(b: seq<Point>, p: Point): (e: ExtReal)
    ensures e.PosInf? <==> |b| == 0
    ensures e.Finite? ==> exists i :: 0 <= i < |b| && Dist2(b[i], p) == e.v
    ensures e.Finite? ==> forall i :: 0 <= i < |b| ==> e.v <= Dist2(b[i], p)
  {
    if |b| == 0 then PosInf else Finite(Dist2(b[NearestIndex(b, p, |b|)], p))
  }

  /** The scan itself: `nearestPoint` starts as `boundaries[0]` (absent when
      there is none), `minDistance` as infinity, and a vertex replaces them
      only when it is strictly closer. */
  method NearestVertex(b: seq<Point>, p: Point) returns (nearest: Option<Point>, minDistance: ExtReal)
    ensures minDistance == MinDist2(b, p)
    ensures nearest.None? <==> |b| == 0
    ensures |b| > 0 ==> nearest == Some(b[NearestIndex(b, p, |b|)])
    ensures nearest.Some? ==> nearest.value in b
    ensures nearest.Some? ==> forall q :: q in b ==> Dist2(nearest.value, p) <= Dist2(q, p)
  {
    nearest := if |b| > 0 then Some(b[0]) else None;
    minDistance := PosInf;
    var i := 0;
    while i < |b|
      invariant i <= |b|
      invariant i == 0 ==> minDistance.PosInf? && nearest == (if |b| > 0 then Some(b[0]) else None)
      invariant 0 < i ==> nearest == Some(b[NearestIndex(b, p, i)])
      invariant 0 < i ==> minDistance == Finite(Dist2(b[NearestIndex(b, p, i)], p))
    {
      var distance := Dist2(b[i], p);
      if Below(distance, minDistance) {
        minDistance := Finite(distance);
        nearest := Some(b[i]);
      }
      i := i + 1;
    }
  }

  /** The least distance depends only on which vertices the boundary has, not
      on their order, their repetition or the winding direction. */
  lemma MinDist2SameVertices(s: seq<Point>, t: seq<Point>, p: Point)
    requires forall q :: q in s <==> q in t
    ensures MinDist2(s, p) == MinDist2(t, p)
  {
    if |s| > 0 {
      assert s[0] in t;
      var es, et := MinDist2(s, p), MinDist2(t, p);
      var i :| 0 <= i < |s| && Dist2(s[i], p) == es.v;
      assert s[i] in t;
      var i' :| 0 <= i' < |t| && t[i'] == s[i];
      var j :| 0 <= j < |t| && Dist2(t[j], p) == et.v;
      assert t[j] in s;
      var j' :| 0 <= j' < |s| && s[j'] == t[j];
      assert es.v <= Dist2(s[j'], p) && et.v <= Dist2(t[i'], p);
    } else {
      HeadIsMember(t);
    }
  }

  lemma HeadIsMember(t: seq<Point>)
    ensures |t| > 0 ==> t[0] in t
  {
  }

  /** The boundary traversed the other way round. */
  function Reversed(s: seq<Point>): seq<Point>
  {
    seq(|s|, i requires 0 <= i < |s| => s[|s| - 1 - i])
  }

  /** Reversing the winding leaves the least distance unchanged. */
  lemma MinDist2Reversed(s: seq<Point>, p: Point)
    ensures MinDist2(Reversed(s), p) == MinDist2(s, p)
  {
    var r := Reversed(s);
    forall q | q in s ensures q in r {
      var i :| 0 <= i < |s| && s[i] == q;
      assert r[|s| - 1 - i] == q;
    }
    forall q | q in r ensures q in s {
      var i :| 0 <= i < |r| && r[i] == q;
      assert s[|s| - 1 - i] == q;
    }
    MinDist2SameVertices(r, s, p);
  }
}
