/** The even-odd ray-casting test of `checkTrackBoundaries`: a horizontal ray
    is cast from the point towards +x, and every boundary edge it crosses
    toggles the answer. Edges join each vertex i to its cyclic predecessor j. */
module RayCasting {
  import opened Geometry

  /** The partner j of vertex i in the loop `for (i = 0, j = n - 1; i < n; j = i++)`. */
  function Prev(n: nat, i: nat): (j: nat)
    requires i < n
    ensures j < n
    ensures j == i - 1 || (i == 0 && j == n - 1)
  {
    if i == 0 then n - 1 else i - 1
  }

  /** Exactly one end of the edge lies strictly above height py. A vertex
      exactly at py counts as "not above", so a ray through a shared vertex
      is counted once. */
  predicate Straddles(a: Point, b: Point, py: real)
  {
    (a.1 > py) != (b.1 > py)
  }

  /** The x at which the line through a and b reaches height py. */
  function CrossingX(a: Point, b: Point, py: real): real
    requires a.1 != b.1
  {
    (b.0 - a.0) * (py - a.1) / (b.1 - a.1) + a.0
  }

  /** The edge (a, b) is crossed by the ray from p. The division inside
      CrossingX is reached only after Straddles holds, which is what makes
      its divisor non-zero. */
  function Crosses(a: Point, b: Point, p: Point): (r: bool)
    ensures r ==> Straddles(a, b, p.1) && a.1 != b.1
    ensures r ==> p.0 < Max(a.0, b.0)
  {
    if Straddles(a, b, p.1) then
      CrossingXBetween(a, b, p.1);
      p.0 < CrossingX(a, b, p.1)
    else
      false
  }

  /** The crossing point of a straddling edge lies between its endpoints' x. */
  lemma CrossingXBetween(a: Point, b: Point, py: real)
    requires Straddles(a, b, py)
    ensures a.1 != b.1
    ensures Min(a.0, b.0) <= CrossingX(a, b, py) <= Max(a.0, b.0)
  {
    var num, den := py - a.1, b.1 - a.1;
    var t := num / den;
    assert t * den == num;
    if a.1 > py {
      assert den < 0.0 && num < 0.0 && num >= den;
    } else {
      assert den > 0.0 && num >= 0.0 && num < den;
    }
    assert 0.0 <= t <= 1.0;
    assert CrossingX(a, b, py) == a.0 + (b.0 - a.0) * t;
    var w := b.0 - a.0;
    assert w * t + w * (1.0 - t) == w;
    if a.0 <= b.0 {
      assert w * t >= 0.0 && w * (1.0 - t) >= 0.0;
    } else {
      assert w * t <= 0.0 && w * (1.0 - t) <= 0.0;
    }
  }

  /** Number of edges i < k crossed by the ray from p. */
  function Crossings(b: seq<Point>, p: Point, k: nat): nat
    requires k <= |b|
  {
    if k == 0 then 0
    else Crossings(b, p, k - 1) + (if Crosses(b[k - 1], b[Prev(|b|, k - 1)], p) then 1 else 0)
  }

  /** The even-odd rule: inside when an odd number of edges is crossed. */
  predicate Inside(b: seq<Point>, p: Point)
  {
    Crossings(b, p, |b|) % 2 == 1
  }

  /** The crossing loop of `checkTrackBoundaries`, toggling `isInsideTrack`. */
  method RayCastInside(b: seq<Point>, p: Point) returns (inside: bool)
    ensures inside == Inside(b, p)
  {
    inside := false;
    var i: nat, j: int := 0, |b| - 1;
    while i < |b|
      invariant i <= |b|
      invariant j == if i == 0 then |b| - 1 else i - 1
      invariant inside == (Crossings(b, p, i) % 2 == 1)
    {
      var point1, point2 := b[i], b[j];
      if Straddles(point1, point2, p.1) && p.0 < CrossingX(point1, point2, p.1) {
        inside := !inside;
      }
      j, i := i, i + 1;
    }
  }

  /** Number of edges i < k that straddle height py. */
  function Straddling(b: seq<Point>, py: real, k: nat): nat
    requires k <= |b|
  {
    if k == 0 then 0
    else Straddling(b, py, k - 1) + (if Straddles(b[k - 1], b[Prev(|b|, k - 1)], py) then 1 else 0)
  }

  /** The parity of the straddling edges among the first k: edge 0 closes the
      cycle, and after it the count changes parity exactly where the side of
      py changes along the path b[0], ..., b[k-1]. */
  lemma {:induction false} StraddlingParity(b: seq<Point>, py: real, k: nat)
    requires 1 <= k <= |b|
    ensures Straddling(b, py, k) % 2 ==
      (if Straddles(b[0], b[|b| - 1], py) != Straddles(b[0], b[k - 1], py) then 1 else 0)
  {
    if k > 1 {
      StraddlingParity(b, py, k - 1);
    }
  }

  /** Around a closed cycle of edges, an even number straddle any height. */
  lemma StraddlingEven(b: seq<Point>, py: real)
    ensures Straddling(b, py, |b|) % 2 == 0
  {
    if |b| > 0 {
      StraddlingParity(b, py, |b|);
    }
  }

  /** When p is left of every vertex, every straddling edge is crossed. */
  lemma {:induction false} LeftOfAllCrossesEveryStraddler(b: seq<Point>, p: Point, k: nat)
    requires k <= |b|
    requires forall i :: 0 <= i < |b| ==> p.0 < b[i].0
    ensures Crossings(b, p, k) == Straddling(b, p.1, k)
  {
    if k > 0 {
      LeftOfAllCrossesEveryStraddler(b, p, k - 1);
      var a, c := b[k - 1], b[Prev(|b|, k - 1)];
      if Straddles(a, c, p.1) {
        CrossingXBetween(a, c, p.1);
      }
    }
  }

  /** When p is right of, above or below every vertex, no edge is crossed. */
  lemma {:induction false} NoEdgeCrossed(b: seq<Point>, p: Point, k: nat)
    requires k <= |b|
    requires (forall i :: 0 <= i < |b| ==> b[i].0 < p.0)
          || (forall i :: 0 <= i < |b| ==> b[i].1 < p.1)
          || (forall i :: 0 <= i < |b| ==> b[i].1 > p.1)
    ensures Crossings(b, p, k) == 0
  {
    if k > 0 {
      NoEdgeCrossed(b, p, k - 1);
      var a, c := b[k - 1], b[Prev(|b|, k - 1)];
      assert !Crosses(a, c, p);
    }
  }

  /** p lies strictly outside the bounding box of the polygon's vertices. */
  predicate OutsideBoundingBox(b: seq<Point>, p: Point)
  {
    (forall i :: 0 <= i < |b| ==> p.0 < b[i].0)
    || (forall i :: 0 <= i < |b| ==> b[i].0 < p.0)
    || (forall i :: 0 <= i < |b| ==> b[i].1 < p.1)
    || (forall i :: 0 <= i < |b| ==> b[i].1 > p.1)
  }

  /** A point strictly outside the bounding box is never inside. */
  lemma OutsideBoundingBoxNotInside(b: seq<Point>, p: Point)
    requires OutsideBoundingBox(b, p)
    ensures !Inside(b, p)
  {
    if forall i :: 0 <= i < |b| ==> p.0 < b[i].0 {
      LeftOfAllCrossesEveryStraddler(b, p, |b|);
      StraddlingEven(b, p.1);
    } else {
      NoEdgeCrossed(b, p, |b|);
    }
  }
}
