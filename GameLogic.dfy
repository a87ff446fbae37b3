/** The whole game state (the five global records of the program) and one
    frame of `update()` as pure steps over it, in the order the frame runs
    them: level, asteroids, rocket ship and its modes, lasers. The `Game`
    class performs the same steps in place and is proved against these. */
module GameLogic {
  import opened Geometry
  import opened Entities
  import opened Belt
  import opened Lasers
  import opened RocketShip
  import opened Modes
  import opened LevelText

  /** `rocketShip`, `asteroidsBelt`, `lasersFlow` (its flow and its canShoot
      flag), `interactDetector` and `level`. */
  datatype GameState = GameState(ship: Ship, belt: seq<Asteroid>, lasers: seq<Laser>,
                                 canShoot: bool, detector: Detector, level: Level)

  /** What one frame needs from outside the program: the random draws of a
      new belt, the thrust acceleration of the ship's current angle, and the
      draws of the destructions made by the ship and by the lasers. */
  datatype TickInput = TickInput(spawn: nat -> SpawnDraws, accel: Point,
                                 shipDestruct: DestructDraws, laserDestruct: nat -> DestructDraws)

  /** What holds between frames. */
  predicate StateOk(s: GameState, width: nat, height: nat)
  {
    s.ship.radius == RocketShipRadius &&
    InScreen(s.ship.center, s.ship.radius, width as real, height as real) &&
    (forall a :: a in s.belt ==> AsteroidOk(a)) &&
    (forall l :: l in s.lasers ==> LaserOk(l)) &&
    |s.lasers| <= LaserMaxAmount + 1 &&
    DetectorOk(s.detector) &&
    s.level.message == LevelBanner(s.level.number)
  }

  /** `initLevelInstance()`. */
  function FirstLevel(): (l: Level)
    ensures l.number == StartLevelNumber && l.opacity == 1.0
    ensures l.message == LevelBanner(l.number)
  {
    Level(StartLevelNumber, LevelMessage + " " + Decimal(StartLevelNumber + 1), 1.0)
  }

  /** `startNewGame()`: the ship at the centre, level 0, a belt of
      ASTEROIDS_NUMBER asteroids, a fresh detector and no lasers. */
  function StartState(width: nat, height: nat, spawn: nat -> SpawnDraws): (s: GameState)
    requires SpawnsReady(BaseRocketShip(width as real, height as real).center, spawn, AsteroidsNumber, width, height)
    ensures StateOk(s, width, height)
    ensures |s.belt| == AsteroidsNumber && s.lasers == [] && s.canShoot
    ensures s.detector == FreshDetector() && s.level.number == 0
    ensures s.ship == BaseRocketShip(width as real, height as real) && s.level == FirstLevel()
    ensures forall a :: a in s.belt ==> a.radius == LargeRadius && ClearOfShip(s.ship.center, a.center)
  {
    var ship := BaseRocketShip(width as real, height as real);
    GameState(ship, NewBelt(AsteroidsNumber, ship.center, StartLevelNumber, spawn, width, height),
              [], true, FreshDetector(), FirstLevel())
  }

  /** The draws of a frame suffice: if the belt is empty, the rejection loop
      ends for every asteroid of the next level's belt. */
  predicate TickReady(s: GameState, input: TickInput, width: nat, height: nat)
  {
    s.belt == [] ==>
      SpawnsReady(s.ship.center, input.spawn, AsteroidsNumber + s.level.number + 1, width, height)
  }

  /** `handlerNewLevelCreation()`: a cleared belt starts the next level: the
      number goes up by one, the banner is fully opaque again, and
      ASTEROIDS_NUMBER + level large asteroids appear, none within the
      clearance zone of the ship. A non-empty belt changes nothing. Nothing
      but the level and belt changes, and the belt is never left empty. */
  function LevelCreated(s: GameState, spawn: nat -> SpawnDraws, width: nat, height: nat): (r: GameState)
    requires s.belt == [] ==>
      SpawnsReady(s.ship.center, spawn, AsteroidsNumber + s.level.number + 1, width, height)
    ensures r.ship == s.ship && r.lasers == s.lasers && r.canShoot == s.canShoot && r.detector == s.detector
    ensures s.belt != [] ==> r == s
    ensures r.level.number == s.level.number + (if s.belt == [] then 1 else 0) && r.belt != []
    ensures s.belt == [] ==>
      r.level.opacity == 1.0 && r.level.message == s.level.message &&
      |r.belt| == AsteroidsNumber + r.level.number &&
      forall a :: a in r.belt ==>
        a.radius == LargeRadius && AsteroidOk(a) && ClearOfShip(s.ship.center, a.center) &&
        |a.offsets| == a.verticesNumber
  {
    if s.belt == [] then
      var number := s.level.number + 1;
      s.(level := s.level.(number := number, opacity := 1.0),
         belt := NewBelt(AsteroidsNumber + number, s.ship.center, number, spawn, width, height))
    else s
  }

  /** `updateLevelMessage()`. */
  function LevelMessageUpdated(s: GameState): (r: GameState)
    ensures r == s.(level := r.level) && r.level == s.level.(message := r.level.message)
    ensures r.level.message == LevelBanner(s.level.number)
  {
    s.(level := s.level.(message := LevelMessage + " " + Decimal(s.level.number + 1)))
  }

  /** `moveAsteroids()`: only the asteroids' centres change; every asteroid
      ends on screen, and one whose next position is on screen is not
      wrapped. */
  function AsteroidsMoved(s: GameState, width: nat, height: nat): (r: GameState)
    ensures r == s.(belt := r.belt) && |r.belt| == |s.belt|
    ensures forall i :: 0 <= i < |s.belt| ==>
      var a := s.belt[i];
      var ahead := Point(a.center.x + a.direction.x / FPS, a.center.y + a.direction.y / FPS);
      r.belt[i] == Drifted(a, width as real, height as real) &&
      r.belt[i] == a.(center := r.belt[i].center) &&
      (0.0 <= a.radius ==> InScreen(r.belt[i].center, a.radius, width as real, height as real)) &&
      (InScreen(ahead, a.radius, width as real, height as real) ==> r.belt[i].center == ahead)
    ensures (forall a :: a in s.belt ==> AsteroidOk(a)) ==> forall a :: a in r.belt ==> AsteroidOk(a)
  {
    s.(belt := DriftedBelt(s.belt, width as real, height as real))
  }

  /** `handleRocketShipPosition()`, which reads the explosion mode to zero the
      velocity. */
  function ShipPositioned(s: GameState, accel: Point, width: nat, height: nat): (r: GameState)
    ensures r == s.(ship := r.ship)
    ensures r.ship.radius == s.ship.radius
    ensures 0.0 <= s.ship.radius ==> InScreen(r.ship.center, r.ship.radius, width as real, height as real)
    ensures IsExplosionMode(s.detector) ==> r.ship.thrust == Origin
    ensures r.ship.angle == s.ship.angle + s.ship.increment
    ensures r.ship.thrust == Thrusted(s.ship, IsExplosionMode(s.detector), accel).thrust
    ensures var ahead := Point(s.ship.center.x + s.ship.thrust.x, s.ship.center.y + s.ship.thrust.y);
      InScreen(ahead, s.ship.radius, width as real, height as real) ==> r.ship.center == ahead
    ensures r.ship.center ==
      HandleEdgeOfScreen(Point(s.ship.center.x + s.ship.thrust.x, s.ship.center.y + s.ship.thrust.y),
                         s.ship.radius, width as real, height as real)
  {
    s.(ship := ShipPosition(s.ship, IsExplosionMode(s.detector), accel, width as real, height as real))
  }

  /** The index `detectRocketShipCollision()` finds. */
  function ShipHitIndex(s: GameState): (k: int)
    ensures k == -1 <==> forall j :: 0 <= j < |s.belt| ==> !Hits(s.belt[j], s.ship.center, s.ship.radius)
    ensures k != -1 ==> 0 <= k < |s.belt|
  {
    FindCollisionAsteroidIndex(s.belt, s.ship.center, s.ship.radius)
  }

  /** `updateModesLogic()`: the detector takes its NextDetector step; an
      explosion that has run out respawns the ship; a vulnerable ship that
      touches an asteroid destructs it. The ship collides with the belt only
      while vulnerable: an exploding or blinking ship never destroys an
      asteroid, and a vulnerable one destroys exactly the first asteroid it
      touches and starts exploding. The ship is replaced only by the respawn
      at the end of an explosion. */
  function ModesUpdated(s: GameState, d: DestructDraws, width: nat, height: nat): (r: GameState)
    ensures r.lasers == s.lasers && r.canShoot == s.canShoot && r.level == s.level
    ensures r.detector == NextDetector(s.detector, ShipHitIndex(s) != -1)
    ensures r.belt != s.belt ==> !IsExplosionMode(s.detector) && !IsBlinkerMode(s.detector) && ShipHitIndex(s) != -1
    ensures !IsExplosionMode(s.detector) && !IsBlinkerMode(s.detector) && ShipHitIndex(s) != -1 ==>
      r.belt == Destructed(s.belt, ShipHitIndex(s), s.level.number, d) && IsExplosionMode(r.detector)
    ensures r.ship != s.ship ==>
      IsExplosionMode(s.detector) && r.ship == BaseRocketShip(width as real, height as real) &&
      r.detector == FreshDetector()
    ensures IsExplosionMode(s.detector) && s.detector.explosionTime <= 0 ==>
      r.ship == BaseRocketShip(width as real, height as real) && r.detector == FreshDetector()
  {
    var k := ShipHitIndex(s);
    var r := s.(detector := NextDetector(s.detector, k != -1));
    if IsExplosionMode(s.detector) then
      if s.detector.explosionTime > 0 then r else r.(ship := BaseRocketShip(width as real, height as real))
    else if IsBlinkerMode(s.detector) || k == -1 then r
    else
      var b := Destructed(s.belt, k, s.level.number, d);
      assert |b| != |s.belt| by {
        assert |b| == |s.belt| - 1 + (if s.belt[k].radius >= BaseSize then DestructNumber else 0);
      }
      r.(belt := b)
  }

  /** The lasers' part of a frame, in the order `updateLasersFlowPhysicsAndRender`
      runs it: move, measure, re-arm, filter by range, hits. The pass never
      adds a laser, never withdraws the permission to shoot, and never grows
      the destructions the belt still needs. */
  function LasersUpdated(s: GameState, draws: nat -> DestructDraws, width: nat, height: nat): (r: GameState)
    ensures r.ship == s.ship && r.detector == s.detector && r.level == s.level
    ensures |r.lasers| <= |s.lasers| && (s.canShoot ==> r.canShoot)
    ensures BeltPotential(r.belt) <= BeltPotential(s.belt)
  {
    var measured := TravelledLasers(MovedLasers(s.lasers, width as real, height as real));
    var kept := KeptInRange(measured, width as real);
    var hit := HitsFrom(kept, s.belt, 0, s.level.number, draws);
    s.(lasers := hit.0, belt := hit.1, canShoot := s.canShoot || AllPastBase(measured))
  }

  /** One frame of `update()`, without its drawing and the opacity fade. The
      level number goes up by exactly one in a frame that starts with an empty
      belt and is unchanged otherwise; a frame never adds a laser and never
      withdraws the permission to shoot. */
  function Tick(s: GameState, input: TickInput, width: nat, height: nat): (r: GameState)
    requires TickReady(s, input, width, height)
    ensures r.level.number == s.level.number + (if s.belt == [] then 1 else 0)
    ensures |r.lasers| <= |s.lasers| && (s.canShoot ==> r.canShoot)
  {
    var leveled := LevelMessageUpdated(LevelCreated(s, input.spawn, width, height));
    var drifted := AsteroidsMoved(leveled, width, height);
    var moded := ModesUpdated(ShipPositioned(drifted, input.accel, width, height), input.shipDestruct, width, height);
    LasersUpdated(moded, input.laserDestruct, width, height)
  }

  lemma LasersUpdatedKeepsOk(s: GameState, draws: nat -> DestructDraws, width: nat, height: nat)
    requires StateOk(s, width, height)
    ensures var r := LasersUpdated(s, draws, width, height);
      StateOk(r, width, height) && |r.lasers| <= |s.lasers| && BeltPotential(r.belt) <= BeltPotential(s.belt)
  {
    var measured := TravelledLasers(MovedLasers(s.lasers, width as real, height as real));
    var kept := KeptInRange(measured, width as real);
    KeptInRangeExactly(measured, width as real);
    HitsFromKeepsOk(kept, s.belt, 0, s.level.number, draws);
  }

  /** A frame keeps every invariant: the ship on screen with its radius, the
      belt made of tier-sized well-shaped asteroids, every laser consistent,
      at most LASER_MAX_AMOUNT + 1 lasers, the detector's counters in range
      and the banner showing the level. */
  lemma TickKeepsOk(s: GameState, input: TickInput, width: nat, height: nat)
    requires StateOk(s, width, height) && TickReady(s, input, width, height)
    ensures StateOk(Tick(s, input, width, height), width, height)
  {
    var leveled := LevelMessageUpdated(LevelCreated(s, input.spawn, width, height));
    var drifted := AsteroidsMoved(leveled, width, height);
    var positioned := ShipPositioned(drifted, input.accel, width, height);
    assert StateOk(positioned, width, height);
    var moded := ModesUpdated(positioned, input.shipDestruct, width, height);
    var k := ShipHitIndex(positioned);
    if moded.belt != positioned.belt {
      DestructedKeepsAsteroidsOk(positioned.belt, k, positioned.level.number, input.shipDestruct);
    }
    assert StateOk(moded, width, height);
    LasersUpdatedKeepsOk(moded, input.laserDestruct, width, height);
  }

  /** `shootLaser()`: when `isCanShoot()` holds, exactly one fresh laser is
      appended and shooting is denied; otherwise nothing changes. */
  function LaserShot(s: GameState, nose: Point, direction: Point, speed: real): (r: GameState)
    ensures r.ship == s.ship && r.belt == s.belt && r.detector == s.detector && r.level == s.level
    ensures IsCanShoot(s.canShoot, s.lasers, s.detector) <==> |r.lasers| == |s.lasers| + 1
    ensures !IsCanShoot(s.canShoot, s.lasers, s.detector) ==> r == s
    ensures IsCanShoot(s.canShoot, s.lasers, s.detector) ==>
      !r.canShoot && r.lasers[..|s.lasers|] == s.lasers &&
      var l := r.lasers[|s.lasers|];
      l.center == nose && l.direction == direction && l.distance == 0.0 && l.time == 0 && !l.isHit
  {
    if IsCanShoot(s.canShoot, s.lasers, s.detector) then
      s.(lasers := s.lasers + [NewLaser(nose, direction, speed)], canShoot := false)
    else s
  }

  /** Shooting keeps the invariants: the cap test `length <= LASER_MAX_AMOUNT`
      lets the flow reach LASER_MAX_AMOUNT + 1 lasers and no more. */
  lemma LaserShotKeepsOk(s: GameState, nose: Point, direction: Point, speed: real, width: nat, height: nat)
    requires StateOk(s, width, height)
    requires 0.0 <= speed && speed * speed == NormSq(direction)
    ensures StateOk(LaserShot(s, nose, direction, speed), width, height)
  {
  }

  /** The eleventh laser: with LASER_MAX_AMOUNT lasers in flight the gun still
      fires once more. */
  lemma EleventhLaser(s: GameState, nose: Point, direction: Point, speed: real)
    requires |s.lasers| == LaserMaxAmount && s.canShoot && !s.detector.isExploding
    ensures |LaserShot(s, nose, direction, speed).lasers| == LaserMaxAmount + 1
  {
  }
}
