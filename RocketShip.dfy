/** The rocket ship's per-tick motion bookkeeping: rotation, position update,
    thrust or friction on the velocity, and the screen wrap. */
module RocketShip {
  import opened Geometry
  import opened Entities

  /** `initRocketShipBaseInstance()`: at the centre of the canvas, pointing up,
      at rest, neither turning nor thrusting. */
  function BaseRocketShip(width: real, height: real): (s: Ship)
    ensures s.center == Point(width / 2.0, height / 2.0)
    ensures s.radius == RocketShipRadius && s.angle == RocketShipInitialAngle
    ensures s.thrust == Origin && s.increment == 0.0 && !s.isThrusting
    ensures 0.0 <= width && 0.0 <= height ==> InScreen(s.center, s.radius, width, height)
    ensures DistSq(s.center, Point(0.0, 0.0)) == DistSq(s.center, Point(width, height))
  {
    Ship(Point(width / 2.0, height / 2.0), RocketShipRadius, RocketShipInitialAngle, 0.0, Origin, false)
  }

  /** The turn rate `turnRocketShipLeft` sets: a full turn per second. */
  const TurnLeftIncrement: real := RocketShipTurnAngle / FPS
  /** The turn rate `turnRocketShipRight` sets. */
  const TurnRightIncrement: real := -RocketShipTurnAngle / FPS

  /** `rotateRocketShip()`. */
  function Rotated(s: Ship): (r: Ship)
    ensures r == s.(angle := r.angle)
    ensures r.angle - s.angle == s.increment
  {
    s.(angle := s.angle + s.increment)
  }

  /** `moveRocketShip()`: the position advances by the velocity. */
  function Moved(s: Ship): (r: Ship)
    ensures r == s.(center := r.center)
    ensures r.center.x - s.center.x == s.thrust.x && r.center.y - s.center.y == s.thrust.y
  {
    s.(center := Point(s.center.x + s.thrust.x, s.center.y + s.thrust.y))
  }

  /** The friction branch of `thrustRocketShip()`:
      v := v - FRICTION * v / FPS on each axis. Each component shrinks
      towards zero without changing sign and without reaching zero. */
  function Decayed(v: Point): (r: Point)
    ensures Abs(r.x) <= Abs(v.x) && Abs(r.y) <= Abs(v.y)
    ensures (0.0 <= v.x <==> 0.0 <= r.x) && (0.0 <= v.y <==> 0.0 <= r.y)
    ensures v != Origin ==> r != Origin && Abs(r.x) + Abs(r.y) < Abs(v.x) + Abs(v.y)
  {
    var r := Point(v.x - Friction * v.x / FPS, v.y - Friction * v.y / FPS);
    assert r.x == v.x * (59.0 / 60.0) && r.y == v.y * (59.0 / 60.0);
    assert v != Origin ==> v.x != 0.0 || v.y != 0.0;
    r
  }

  /** Friction alone never brings a moving ship to a stop: after any number
      of ticks without thrust the velocity is still non-zero. */
  lemma {:induction false} FrictionNeverStops(v: Point, n: nat)
    requires v != Origin
    ensures DecayedTimes(v, n) != Origin
    ensures Abs(DecayedTimes(v, n).x) <= Abs(v.x) && Abs(DecayedTimes(v, n).y) <= Abs(v.y)
  {
    if n > 0 {
      FrictionNeverStops(v, n - 1);
    }
  }

  function DecayedTimes(v: Point, n: nat): Point
  {
    if n == 0 then v else Decayed(DecayedTimes(v, n - 1))
  }

  /** `thrustRocketShip()`: while exploding the velocity is zeroed; while
      thrusting the acceleration `accel` (THRUST_FORCE * (cos, -sin) of the
      angle over FPS, given) is added; otherwise friction decays it. */
  function Thrusted(s: Ship, exploding: bool, accel: Point): (r: Ship)
    ensures r == s.(thrust := r.thrust)
    ensures exploding ==> r.thrust == Origin
    ensures !exploding && s.isThrusting ==> r.thrust.x - s.thrust.x == accel.x && r.thrust.y - s.thrust.y == accel.y
    ensures !exploding && !s.isThrusting ==> r.thrust == Decayed(s.thrust)
    ensures !exploding && !s.isThrusting ==>
      Abs(r.thrust.x) <= Abs(s.thrust.x) && Abs(r.thrust.y) <= Abs(s.thrust.y)
  {
    if exploding then s.(thrust := Origin)
    else if s.isThrusting then s.(thrust := Point(s.thrust.x + accel.x, s.thrust.y + accel.y))
    else s.(thrust := Decayed(s.thrust))
  }

  /** `handleRocketShipPosition()`: rotate, move, update the velocity, wrap.
      The ship moves by its velocity before the velocity changes, and a ship
      whose next position is still on screen is not wrapped. */
  function ShipPosition(s: Ship, exploding: bool, accel: Point, width: real, height: real): (r: Ship)
    ensures r.radius == s.radius && r.increment == s.increment && r.isThrusting == s.isThrusting
    ensures r.angle == s.angle + s.increment
    ensures r.thrust == Thrusted(s, exploding, accel).thrust
    ensures var ahead := Point(s.center.x + s.thrust.x, s.center.y + s.thrust.y);
      InScreen(ahead, s.radius, width, height) ==> r.center == ahead
    ensures r.center == HandleEdgeOfScreen(Point(s.center.x + s.thrust.x, s.center.y + s.thrust.y), s.radius, width, height)
    ensures 0.0 <= s.radius && 0.0 <= width && 0.0 <= height ==> InScreen(r.center, r.radius, width, height)
    ensures exploding ==> r.thrust == Origin
  {
    var t := Thrusted(Moved(Rotated(s)), exploding, accel);
    t.(center := HandleEdgeOfScreen(t.center, t.radius, width, height))
  }
}
