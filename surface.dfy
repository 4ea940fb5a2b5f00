/** Ground-surface classification (`isOnTrack`, `isInGravelTrap`,
    `getGroundSurfaceAt`): the distance from a position to the nearest
    boundary vertex puts it on the track (at most 5), in the gravel trap
    (more than 5, at most 8) or on grass. Distances are compared squared. */
module Surfaces {
  import opened Wrappers
  import opened Geometry
  import opened Nearest

  /** `ON_TRACK_THRESHOLD` (5), and `GRAVEL_MIN`, squared. */
  const OnTrackThreshold2: real := 25.0
  /** `GRAVEL_MAX` (8), squared. */
  const GravelMax2: real := 64.0

  datatype Surface = Track | Gravel | Grass

  /** The least squared distance the helpers see; `track.boundaries` may be
      missing, in which case neither helper ever finds a vertex. */
  function MinDistance(boundaries: Option<seq<Point>>, pos: Point): (e: ExtReal)
    ensures boundaries.None? ==> e.PosInf?
  {
    match boundaries
    case None => PosInf
    case Some(b) => MinDist2(b, pos)
  }

  /** What `isOnTrack` returns. */
  predicate OnTrack(boundaries: Option<seq<Point>>, pos: Point)
  {
    boundaries.Some? && AtMost(MinDist2(boundaries.value, pos), OnTrackThreshold2)
  }

  /** What `isInGravelTrap` returns. */
  predicate InGravelTrap(boundaries: Option<seq<Point>>, pos: Point)
  {
    boundaries.Some?
    && Exceeds(MinDist2(boundaries.value, pos), OnTrackThreshold2)
    && AtMost(MinDist2(boundaries.value, pos), GravelMax2)
  }

  /** `isOnTrack`: false without boundaries, else the nearest-vertex scan
      against the 5-unit threshold. */
  method IsOnTrack(boundaries: Option<seq<Point>>, pos: Point) returns (r: bool)
    ensures r == OnTrack(boundaries, pos)
    ensures r <==> boundaries.Some?
                   && exists i :: 0 <= i < |boundaries.value| && Dist2(boundaries.value[i], pos) <= OnTrackThreshold2
  {
    if boundaries.None? {
      return false;
    }
    var _, minDistance := NearestVertex(boundaries.value, pos);
    r := AtMost(minDistance, OnTrackThreshold2);
  }

  /** `isInGravelTrap`: false without boundaries, else the same scan against
      the band (5, 8]. Infinity (no vertex) is above 5 but not at most 8. */
  method IsInGravelTrap(boundaries: Option<seq<Point>>, pos: Point) returns (r: bool)
    ensures r == InGravelTrap(boundaries, pos)
    ensures r <==> boundaries.Some?
                   && (exists i :: 0 <= i < |boundaries.value| && Dist2(boundaries.value[i], pos) <= GravelMax2)
                   && (forall i :: 0 <= i < |boundaries.value| ==> Dist2(boundaries.value[i], pos) > OnTrackThreshold2)
  {
    if boundaries.None? {
      return false;
    }
    var _, minDistance := NearestVertex(boundaries.value, pos);
    r := Exceeds(minDistance, OnTrackThreshold2) && AtMost(minDistance, GravelMax2);
  }

  /** `getGroundSurfaceAt`, with `GAME_STATE.track.boundaries` as a parameter. */
  function GroundSurfaceAt(boundaries: Option<seq<Point>>, pos: Point): (s: Surface)
    ensures s == Band(MinDistance(boundaries, pos))
  {
    if OnTrack(boundaries, pos) then Track
    else if InGravelTrap(boundaries, pos) then Gravel
    else Grass
  }

  /** Reference classification of an extended distance into three bands. */
  function Band(d: ExtReal): Surface
  {
    if d.PosInf? then Grass
    else if d.v <= OnTrackThreshold2 then Track
    else if d.v <= GravelMax2 then Gravel
    else Grass
  }

  /** The three bands partition the positions: each surface holds exactly
      when the least distance d lies in its band. */
  lemma SurfaceBands(boundaries: Option<seq<Point>>, pos: Point)
    ensures var d := MinDistance(boundaries, pos);
      && (GroundSurfaceAt(boundaries, pos) == Track <==> d.Finite? && d.v <= 25.0)
      && (GroundSurfaceAt(boundaries, pos) == Gravel <==> d.Finite? && 25.0 < d.v <= 64.0)
      && (GroundSurfaceAt(boundaries, pos) == Grass <==> d.PosInf? || d.v > 64.0)
  {
  }

  /** `isOnTrack` and `isInGravelTrap` never both hold. */
  lemma TrackAndGravelExclusive(boundaries: Option<seq<Point>>, pos: Point)
    ensures !(OnTrack(boundaries, pos) && InGravelTrap(boundaries, pos))
  {
  }

  /** Missing boundaries, or boundaries without a vertex, give grass. */
  lemma NoBoundariesIsGrass(boundaries: Option<seq<Point>>, pos: Point)
    requires boundaries.None? || |boundaries.value| == 0
    ensures !OnTrack(boundaries, pos) && !InGravelTrap(boundaries, pos)
    ensures GroundSurfaceAt(boundaries, pos) == Grass
  {
  }

  /** How far a surface is from the boundary: track, then gravel, then grass. */
  function Rank(s: Surface): nat
  {
    match s
    case Track => 0
    case Gravel => 1
    case Grass => 2
  }

  /** A larger least distance never moves a position to a closer band. */
  lemma SurfaceMonotone(boundaries: Option<seq<Point>>, pos: Point, boundaries': Option<seq<Point>>, pos': Point)
    requires ExtLe(MinDistance(boundaries, pos), MinDistance(boundaries', pos'))
    ensures Rank(GroundSurfaceAt(boundaries, pos)) <= Rank(GroundSurfaceAt(boundaries', pos'))
  {
  }

  /** The classification does not depend on the winding direction of the
      boundary, nor on where the closed loop starts or repeats a vertex. */
  lemma SurfaceSameVertices(s: seq<Point>, t: seq<Point>, pos: Point)
    requires forall q :: q in s <==> q in t
    ensures GroundSurfaceAt(Some(s), pos) == GroundSurfaceAt(Some(t), pos)
  {
    MinDist2SameVertices(s, t, pos);
  }

  lemma SurfaceReversed(s: seq<Point>, pos: Point)
    ensures GroundSurfaceAt(Some(Reversed(s)), pos) == GroundSurfaceAt(Some(s), pos)
  {
    MinDist2Reversed(s, pos);
  }
}
