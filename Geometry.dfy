/** Plane geometry of the play area: points, circle distance tests and the
    toroidal screen wrap (`handleEdgeOfScreen`). */
module Geometry {

  datatype Point = Point(x: real, y: real)

  const Origin := Point(0.0, 0.0)

  /** Squared Euclidean distance between two points. */
  function DistSq(p: Point, q: Point): (d: real)
    ensures 0.0 <= d
  {
    var dx, dy := p.x - q.x, p.y - q.y;
    assert 0.0 <= dx * dx && 0.0 <= dy * dy;
    dx * dx + dy * dy
  }

  function Abs(x: real): real { if x < 0.0 then -x else x }

  /** Squared length of a vector. */
  function NormSq(v: Point): (n: real)
    ensures 0.0 <= n
  {
    DistSq(v, Origin)
  }

  /** `getDistanceBetweenPoints(p, q) < bound`, with the square root replaced by
      a comparison of squares (see DistanceBelowMatchesDistance). */
  predicate DistanceBelow(p: Point, q: Point, bound: real)
  {
    0.0 <= bound && DistSq(p, q) < bound * bound
  }

  /** Whatever non-negative `d` is the distance between `p` and `q`, the squared
      test agrees with the source's `d < bound`, for every bound. */
  lemma DistanceBelowMatchesDistance(p: Point, q: Point, bound: real, d: real)
    requires 0.0 <= d && d * d == DistSq(p, q)
    ensures DistanceBelow(p, q, bound) <==> d < bound
  {
    if 0.0 <= bound {
      var dd, db, bb := d * d, d * bound, bound * bound;
      if d < bound {
        assert dd <= db;
        assert db < bb;
      } else {
        assert bb <= db;
        assert 0.0 <= d * (d - bound);
        assert db <= dd;
      }
    }
  }

  /** The wrap rectangle of an entity of radius `radius`:
      [-radius, width + radius] x [-radius, height + radius]. */
  predicate InScreen(p: Point, radius: real, width: real, height: real)
  {
    -radius <= p.x <= width + radius && -radius <= p.y <= height + radius
  }

  /** One axis of `handleEdgeOfScreen`. */
  function WrapCoord(v: real, radius: real, size: real): real
  {
    if v < 0.0 - radius then size + radius
    else if v > size + radius then 0.0 - radius
    else v
  }

  /** `handleEdgeOfScreen(point, radius)`: a circle that left the screen entirely
      re-enters at the opposite edge; each axis is corrected on its own. */
  function HandleEdgeOfScreen(p: Point, radius: real, width: real, height: real): (q: Point)
    ensures -radius <= width + radius && -radius <= height + radius ==> InScreen(q, radius, width, height)
    ensures InScreen(p, radius, width, height) ==> q == p
    ensures -radius <= p.x <= width + radius ==> q.x == p.x
    ensures -radius <= p.y <= height + radius ==> q.y == p.y
    ensures p.x < -radius ==> q.x == width + radius
    ensures -radius <= p.x && p.x > width + radius ==> q.x == -radius
    ensures p.y < -radius ==> q.y == height + radius
    ensures -radius <= p.y && p.y > height + radius ==> q.y == -radius
  {
    Point(WrapCoord(p.x, radius, width), WrapCoord(p.y, radius, height))
  }

  /** Wrapping twice is wrapping once, even for a rectangle too small to hold
      the circle. */
  lemma HandleEdgeOfScreenIdempotent(p: Point, radius: real, width: real, height: real)
    ensures var q := HandleEdgeOfScreen(p, radius, width, height);
      HandleEdgeOfScreen(q, radius, width, height) == q
  {
  }

  /** A point past the right edge, moving
      further right, comes back on the left edge at x == -radius. */
  lemma WrapPastRightEdge(p: Point, radius: real, width: real, height: real)
    requires 0.0 <= radius && 0.0 <= width && 0.0 <= height
    requires p.x > width + radius && -radius <= p.y <= height + radius
    ensures HandleEdgeOfScreen(p, radius, width, height) == Point(-radius, p.y)
  {
  }
}
