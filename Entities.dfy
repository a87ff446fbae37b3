/** The game's constants, its entity records (ship, asteroid, laser, the
    explosion/blinker detector, the level banner) and the conversions of
    `Math.random()` draws into the integers and reals the game uses. */
module Entities {
  import opened Geometry

  const FPS: real := 30.0
  const BaseSize: real := 30.0

  /** Angles are kept in degrees: the source converts them to radians only
      right before taking cos/sin, which are outside the model. */
  const RocketShipInitialAngle: real := 90.0
  const RocketShipTurnAngle: real := 360.0
  const Friction: real := 0.5

  const AsteroidsNumber: int := 1
  const AsteroidsMinSpeed: real := 4.0
  const AsteroidsMaxSpeed: real := 40.0
  const AsteroidsVerticesNumber: real := 10.0
  const Jaggedness: real := 0.4

  const DestructNumber: nat := 2

  /** EXPLODE_SHIP_DURATION * FPS = 0.3 * 30 */
  const ExplodeShipTicks: int := 9
  /** EXPLODE_LASER_DURATION * FPS = 0.1 * 30 */
  const ExplodeLaserTicks: int := 3
  /** BLINKER_DURATION * FPS = 0.3 * 30 */
  const BlinkerTicks: int := 9
  /** ceil(INVISIBLE_DURATION / BLINKER_DURATION) = ceil(3 / 0.3) */
  const BlinkerCount: int := 10

  const LaserMaxAmount: int := 10
  const LaserDistance: real := 0.6

  const StartLevelNumber: nat := 0
  const LevelMessage: string := "LEVEL"

  const RocketShipRadius: real := BaseSize / 2.0
  const LaserRadius: real := BaseSize / 20.0
  const LargeRadius: real := BaseSize * 2.0
  /** Minimum distance of a freshly spawned asteroid from the ship. */
  const ClearanceRadius: real := BaseSize * 6.0

  /** A value of `Math.random()`. */
  type Unit = u: real | 0.0 <= u < 1.0

  /** `getRandomInt(min, max)` = floor(random * (max - min) + min). */
  function RandomInt(min: real, max: real, u: Unit): (r: int)
    ensures min < max ==> min.Floor <= r && (r as real) < max
    ensures min == max ==> r == min.Floor
  {
    var a := Scale(u, max - min);
    if min < max then FloorWithin(a + min, min, max); (a + min).Floor
    else (a + min).Floor
  }

  /** The floor of a value in [lo, hi) lies in [floor(lo), hi). */
  lemma FloorWithin(x: real, lo: real, hi: real)
    requires lo <= x < hi
    ensures lo.Floor <= x.Floor && (x.Floor as real) < hi
  {
  }

  /** A draw scaled by a span: `random * span`, inside [0, span). */
  function Scale(u: Unit, span: real): (a: real)
    ensures 0.0 <= span ==> 0.0 <= a <= span
    ensures 0.0 < span ==> a < span
    ensures span == 0.0 ==> a == 0.0
  {
    var a, b := u * span, 1.0 * span;
    assert 0.0 < span ==> a < b;
    a
  }

  /** `getRandomNumberSign(n)`: n or -n, on a coin toss. */
  function RandomSign(n: int, u: Unit): (r: int)
    ensures r == n || r == -n
    ensures u < 0.5 ==> r == n
    ensures 0.5 <= u ==> r == -n
  {
    if u < 0.5 then n else -n
  }

  /** `getRandomVerticesNumber()` = floor(random * (V + 1) + V / 2) with V = 10. */
  function VerticesNumber(u: Unit): (n: int)
    ensures 5 <= n <= 15
  {
    var a := Scale(u, AsteroidsVerticesNumber + 1.0);
    FloorWithin(a + AsteroidsVerticesNumber / 2.0, 5.0, 16.0);
    (a + AsteroidsVerticesNumber / 2.0).Floor
  }

  /** `getRandomJaggednessValue()` = random * J * 2 + 1 - J with J = 0.4. */
  function JaggednessValue(u: Unit): (v: real)
    ensures 1.0 - Jaggedness <= v < 1.0 + Jaggedness
  {
    Scale(u, Jaggedness * 2.0) + 1.0 - Jaggedness
  }

  /** The rocket ship. `thrust` is its velocity in pixels per tick (the
      source's `thrust.point`); `increment` is the turn rate per tick. */
  datatype Ship = Ship(center: Point, radius: real, angle: real, increment: real,
                       thrust: Point, isThrusting: bool)

  /** An asteroid: a jagged polygon of `verticesNumber` vertices whose radial
      offsets are `offsets`; `direction` is its velocity in pixels per second. */
  datatype Asteroid = Asteroid(center: Point, radius: real, verticesNumber: int,
                               angle: int, direction: Point, offsets: seq<real>)

  /** A laser shot. `direction` is its velocity per tick and `speed` the length
      of that vector (the square root the source recomputes every tick; the
      vector never changes after creation). `time` is the hit-explosion
      countdown, meaningful once `isHit` is set. */
  datatype Laser = Laser(center: Point, radius: real, direction: Point, speed: real,
                         distance: real, time: int, isHit: bool)

  /** `interactDetector`: the ship's explosion countdown and its respawn
      blinker (ticks left in the current blink, blinks left). */
  datatype Detector = Detector(explosionTime: int, isExploding: bool,
                               blinkerTime: int, blinkerNumber: int)

  /** `level`: its number and the banner text with its opacity. */
  datatype Level = Level(number: nat, message: string, opacity: real)

  // The mode predicates of the source.

  predicate IsExplosionMode(d: Detector) { d.isExploding }

  predicate IsBlinkerMode(d: Detector) { !d.isExploding && d.blinkerNumber > 0 }

  /** The ship is hidden during odd blinks. JavaScript's `%` truncates, Dafny's
      is Euclidean, but both give a non-zero remainder for exactly the odd numbers. */
  predicate IsBlinkerOff(d: Detector) { d.blinkerNumber % 2 != 0 }

  /** `isCanShoot()`: the cap test admits a shot while at most
      LaserMaxAmount lasers exist. */
  predicate IsCanShoot(canShoot: bool, lasers: seq<Laser>, d: Detector)
  {
    canShoot && |lasers| <= LaserMaxAmount && !d.isExploding
  }

  /** The radii an asteroid can have: 60, then 30 and 15 after splits. */
  predicate IsTierRadius(r: real)
  {
    r == LargeRadius || r == LargeRadius / 2.0 || r == LargeRadius / 4.0
  }

  /** The polygon shape every created asteroid has. */
  predicate WellShaped(a: Asteroid)
  {
    5 <= a.verticesNumber <= 15 && |a.offsets| == a.verticesNumber &&
    (forall i :: 0 <= i < |a.offsets| ==> 1.0 - Jaggedness <= a.offsets[i] < 1.0 + Jaggedness) &&
    0 <= a.angle < 360
  }

  predicate AsteroidOk(a: Asteroid)
  {
    IsTierRadius(a.radius) && WellShaped(a)
  }

  /** What every laser satisfies between ticks: its speed is the length of its
      direction, the distance travelled is non-negative, and the hit countdown
      runs from ExplodeLaserTicks down to 1 while hit, 0 otherwise. */
  predicate LaserOk(l: Laser)
  {
    0.0 <= l.speed && l.speed * l.speed == NormSq(l.direction) &&
    0.0 <= l.distance &&
    l.radius == LaserRadius &&
    (l.isHit ==> 1 <= l.time <= ExplodeLaserTicks) &&
    (!l.isHit ==> l.time == 0)
  }

  predicate DetectorOk(d: Detector)
  {
    0 <= d.explosionTime <= ExplodeShipTicks &&
    (!d.isExploding ==> d.explosionTime == ExplodeShipTicks) &&
    1 <= d.blinkerTime <= BlinkerTicks &&
    0 <= d.blinkerNumber <= BlinkerCount
  }
}
