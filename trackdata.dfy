/** Concrete boundaries: the circuit `createTrack` stores as
    `track.boundaries`, and a unit-free square, with the routines' answers on
    a few positions. */
module TrackData {
  import opened Wrappers
  import opened Geometry
  import opened RayCasting
  import opened Nearest
  import opened Surfaces
  import opened Game

  /** `trackPoints` of `createTrack`, a closed loop of (x, z) waypoints. */
  const TrackPoints: seq<Point> :=
    [(0.0, 0.0), (50.0, 0.0), (80.0, 30.0), (80.0, 80.0), (0.0, 80.0), (-30.0, 80.0), (-30.0, 30.0), (0.0, 0.0)]

  const Square: seq<Point> := [(0.0, 0.0), (10.0, 0.0), (10.0, 10.0), (0.0, 10.0), (0.0, 0.0)]

  /** The circuit repeats its first waypoint as its last. */
  lemma TrackPointsClosed()
    ensures |TrackPoints| == 8 && TrackPoints[0] == TrackPoints[|TrackPoints| - 1]
  {
  }

  /** The car is placed at (0, -5), which lies below every waypoint: it is
      outside the polygon, yet exactly 5 from the start vertex, so its ground
      is track, and a boundary check would pull it to (0, -4.5). */
  lemma StartPosition()
    ensures !Inside(TrackPoints, (0.0, -5.0))
    ensures NearestIndex(TrackPoints, (0.0, -5.0), |TrackPoints|) == 0
    ensures GroundSurfaceAt(Some(TrackPoints), (0.0, -5.0)) == Track
    ensures Nudge((0.0, -5.0), TrackPoints[0]) == (0.0, -4.5)
  {
    var p := (0.0, -5.0);
    OutsideBoundingBoxNotInside(TrackPoints, p);
    var m := NearestIndex(TrackPoints, p, |TrackPoints|);
    assert forall i :: 0 <= i < |TrackPoints| ==> Dist2(TrackPoints[i], p) >= 25.0;
    assert Dist2(TrackPoints[m], p) >= Dist2(TrackPoints[0], p);
    assert m == 0;
  }

  /** A point well inside the circuit. */
  lemma InfieldInside()
    ensures Inside(TrackPoints, (40.0, 40.0))
  {
    var p := (40.0, 40.0);
    assert Crossings(TrackPoints, p, 3) == 0;
    assert Crosses(TrackPoints[3], TrackPoints[2], p);
    assert Crossings(TrackPoints, p, 4) == 1;
    assert Crossings(TrackPoints, p, 6) == 1;
    assert !Crosses(TrackPoints[6], TrackPoints[5], p);
    assert Crossings(TrackPoints, p, 7) == 1;
  }

  /** The centre of the square is inside, but every vertex is sqrt 50 (about
      7.07) away from it, so the vertex-distance rule puts it on gravel. */
  lemma SquareCentre()
    ensures Inside(Square, (5.0, 5.0))
    ensures MinDist2(Square, (5.0, 5.0)) == Finite(50.0)
    ensures GroundSurfaceAt(Some(Square), (5.0, 5.0)) == Gravel
  {
    assert Crossings(Square, (5.0, 5.0), 2) == 0;
    assert Crosses(Square[2], Square[1], (5.0, 5.0));
    assert !Crosses(Square[4], Square[3], (5.0, 5.0));
  }

  /** (20, 20) is outside the square; its nearest vertex is (10, 10) and the
      correction moves it to (19, 19). */
  lemma SquareOutsideCorrection()
    ensures !Inside(Square, (20.0, 20.0))
    ensures Square[NearestIndex(Square, (20.0, 20.0), |Square|)] == (10.0, 10.0)
    ensures Nudge((20.0, 20.0), (10.0, 10.0)) == (19.0, 19.0)
  {
    OutsideBoundingBoxNotInside(Square, (20.0, 20.0));
    var m := NearestIndex(Square, (20.0, 20.0), |Square|);
    assert Dist2(Square[2], (20.0, 20.0)) == 200.0;
    assert forall i :: 0 <= i < |Square| && i != 2 ==> Dist2(Square[i], (20.0, 20.0)) > 200.0;
    assert m == 2;
  }
}
