/** The game's global records updated in place, operation by operation, as the
    program does it: each method changes only what its source function
    changes and is proved to produce the state the matching step of
    GameLogic describes. */
module Game {
  import opened Geometry
  import opened Entities
  import opened Belt
  import opened Lasers
  import opened RocketShip
  import opened Modes
  import opened LevelText
  import opened GameLogic

  class Game {
    /** The canvas size. */
    const width: nat
    const height: nat

    var ship: Ship
    var belt: seq<Asteroid>
    var lasers: seq<Laser>
    var canShoot: bool
    var detector: Detector
    var level: Level

    function State(): GameState
      reads this
    {
      GameState(ship, belt, lasers, canShoot, detector, level)
    }

    ghost predicate Valid()
      reads this
    {
      StateOk(State(), width, height)
    }

    /** `startNewGame()`. */
    constructor (width: nat, height: nat, spawn: nat -> SpawnDraws)
      requires SpawnsReady(BaseRocketShip(width as real, height as real).center, spawn, AsteroidsNumber, width, height)
      ensures this.width == width && this.height == height
      ensures State() == StartState(width, height, spawn) && Valid()
    {
      this.width, this.height := width, height;
      ship := BaseRocketShip(width as real, height as real);
      belt, lasers, canShoot := [], [], true;
      detector, level := FreshDetector(), FirstLevel();
      new;
      InitRocketShipBaseInstance();
      InitLevelInstance();
      InitAsteroidsBeltInstance(AsteroidsNumber, spawn);
      InitInteractDetectorInstance();
      InitLasersFlowInstance();
    }

    // The rocket ship.

    /** `initRocketShipBaseInstance()`. */
    method InitRocketShipBaseInstance()
      modifies this
      ensures State() == old(State()).(ship := BaseRocketShip(width as real, height as real))
    {
      ship := BaseRocketShip(width as real, height as real);
    }

    /** `rotateRocketShip()`. */
    method RotateRocketShip()
      modifies this
      ensures State() == old(State()).(ship := Rotated(old(ship)))
    {
      ship := ship.(angle := ship.angle + ship.increment);
    }

    /** `moveRocketShip()`. */
    method MoveRocketShip()
      modifies this
      ensures State() == old(State()).(ship := Moved(old(ship)))
    {
      ship := ship.(center := Point(ship.center.x + ship.thrust.x, ship.center.y + ship.thrust.y));
    }

    /** `thrustRocketShip()`; `accel` is THRUST_FORCE * (cos, -sin) of the
        angle over FPS. */
    method ThrustRocketShip(accel: Point)
      modifies this
      ensures State() == old(State()).(ship := Thrusted(old(ship), IsExplosionMode(detector), accel))
    {
      var t := ship.thrust;
      if IsExplosionMode(detector) {
        t := Origin;
      } else if ship.isThrusting {
        t := Point(t.x + accel.x, t.y + accel.y);
      } else {
        t := Point(t.x - Friction * t.x / FPS, t.y - Friction * t.y / FPS);
      }
      ship := ship.(thrust := t);
    }

    /** `handleRocketShipPosition()`. */
    method HandleRocketShipPosition(accel: Point)
      modifies this
      ensures State() == ShipPositioned(old(State()), accel, width, height)
    {
      RotateRocketShip();
      MoveRocketShip();
      ThrustRocketShip(accel);
      ship := ship.(center := HandleEdgeOfScreen(ship.center, ship.radius, width as real, height as real));
    }

    /** `turnRocketShipLeft()`. */
    method TurnRocketShipLeft()
      modifies this
      ensures State() == old(State()).(ship := old(ship).(increment := TurnLeftIncrement))
      ensures Valid() == old(Valid())
    {
      ship := ship.(increment := TurnLeftIncrement);
    }

    /** `turnRocketShipRight()`. */
    method TurnRocketShipRight()
      modifies this
      ensures State() == old(State()).(ship := old(ship).(increment := TurnRightIncrement))
      ensures Valid() == old(Valid())
    {
      ship := ship.(increment := TurnRightIncrement);
    }

    /** `resetRocketShipRotationIncrement()`. */
    method ResetRocketShipRotationIncrement()
      modifies this
      ensures State() == old(State()).(ship := old(ship).(increment := 0.0))
      ensures Valid() == old(Valid())
    {
      ship := ship.(increment := 0.0);
    }

    /** `enableRocketShipThrust()` and `disableRocketShipThrust()`. */
    method SetRocketShipThrust(on: bool)
      modifies this
      ensures State() == old(State()).(ship := old(ship).(isThrusting := on))
      ensures Valid() == old(Valid())
    {
      ship := ship.(isThrusting := on);
    }

    // The asteroid belt.

    /** `initAsteroidsBeltInstance(n)`: one rejection-sampled point and one
        random asteroid per iteration. */
    method InitAsteroidsBeltInstance(n: nat, spawn: nat -> SpawnDraws)
      requires SpawnsReady(ship.center, spawn, n, width, height)
      modifies this
      ensures State() == old(State()).(belt := NewBelt(n, old(ship.center), old(level.number), spawn, width, height))
    {
      var center, number := ship.center, level.number;
      ghost var target := NewBelt(n, center, number, spawn, width, height);
      var built := [];
      var i := 0;
      while i < n
        invariant 0 <= i <= n
        invariant State() == old(State())
        invariant built == target[..i]
      {
        NewBeltAt(n, center, number, spawn, width, height, i);
        var point := GetRandomPointExcludingRadiusZone(center, spawn(i).candidates, width, height);
        var asteroid := CreateRandomAsteroid(point.value, LargeRadius, number, spawn(i).shape);
        assert target[..i + 1] == target[..i] + [asteroid];
        built := built + [asteroid];
        i := i + 1;
      }
      assert built == target;
      belt := built;
    }

    /** `moveAsteroids()`. */
    method MoveAsteroids()
      modifies this
      ensures State() == AsteroidsMoved(old(State()), width, height)
    {
      var i := 0;
      while i < |belt|
        invariant 0 <= i <= |belt| == |old(belt)|
        invariant State() == old(State()).(belt := belt)
        invariant forall j :: 0 <= j < i ==> belt[j] == Drifted(old(belt)[j], width as real, height as real)
        invariant forall j :: i <= j < |belt| ==> belt[j] == old(belt)[j]
      {
        var a := belt[i];
        var ahead := Point(a.center.x + a.direction.x / FPS, a.center.y + a.direction.y / FPS);
        belt := belt[i := a.(center := HandleEdgeOfScreen(ahead, a.radius, width as real, height as real))];
        i := i + 1;
      }
    }

    /** `destructAsteroid(index)`: push the fragments, then splice out the
        asteroid at `index`. */
    method DestructAsteroid(index: nat, d: DestructDraws)
      requires index < |belt|
      modifies this
      ensures State() == old(State()).(belt := Destructed(old(belt), index, level.number, d))
    {
      var parent := belt[index];
      ghost var frags := Fragments(parent, level.number, d);
      for i := 0 to DestructNumber
        invariant State() == old(State()).(belt := belt)
        invariant belt == old(belt) + (if parent.radius >= BaseSize then frags[..i] else [])
      {
        if parent.radius >= BaseSize {
          var dx := RandomSign(RandomInt(0.0, parent.radius, d(i).offsetX), d(i).signX);
          var dy := RandomSign(RandomInt(0.0, parent.radius, d(i).offsetY), d(i).signY);
          var point := Point(parent.center.x + dx as real, parent.center.y + dy as real);
          var fragment := CreateRandomAsteroid(point, parent.radius / 2.0, level.number, d(i).shape);
          assert frags[..i + 1] == frags[..i] + [fragment];
          belt := belt + [fragment];
        }
      }
      ghost var pushed := belt;
      belt := belt[..index] + belt[index + 1..];
      assert pushed == old(belt) + frags;
      assert belt == old(belt)[..index] + old(belt)[index + 1..] + frags;
    }

    // The ship's modes.

    /** `initInteractDetectorInstance()`. */
    method InitInteractDetectorInstance()
      modifies this
      ensures State() == old(State()).(detector := FreshDetector())
    {
      detector := FreshDetector();
    }

    /** `handleExplosionMode()`: count down, or respawn at 0. */
    method HandleExplosionMode()
      requires IsExplosionMode(detector)
      modifies this
      ensures State() == old(State()).(
        detector := NextDetector(old(detector), false),
        ship := if old(detector).explosionTime > 0 then old(ship) else BaseRocketShip(width as real, height as real))
    {
      if detector.explosionTime > 0 {
        detector := detector.(explosionTime := detector.explosionTime - 1);
      } else {
        InitRocketShipBaseInstance();
        InitInteractDetectorInstance();
      }
    }

    /** `handleBlinkerMode()`: count down the blink; at 0 start the next one. */
    method HandleBlinkerMode()
      requires IsBlinkerMode(detector)
      modifies this
      ensures State() == old(State()).(detector := NextDetector(old(detector), false))
    {
      detector := detector.(blinkerTime := detector.blinkerTime - 1);
      if detector.blinkerTime == 0 {
        detector := detector.(blinkerTime := BlinkerTicks, blinkerNumber := detector.blinkerNumber - 1);
      }
    }

    /** `detectRocketShipCollision()`. */
    method DetectRocketShipCollision(d: DestructDraws)
      requires !IsExplosionMode(detector) && !IsBlinkerMode(detector)
      modifies this
      ensures State() == ModesUpdated(old(State()), d, width, height)
    {
      var index := FindCollisionAsteroidIndex(belt, ship.center, ship.radius);
      if index != -1 {
        detector := detector.(isExploding := true);
        DestructAsteroid(index, d);
      }
    }

    /** `updateModesLogic()`. */
    method UpdateModesLogic(d: DestructDraws)
      modifies this
      ensures State() == ModesUpdated(old(State()), d, width, height)
    {
      if IsExplosionMode(detector) {
        HandleExplosionMode();
      } else if IsBlinkerMode(detector) {
        HandleBlinkerMode();
      } else {
        DetectRocketShipCollision(d);
      }
    }

    // The lasers.

    /** `initLasersFlowInstance()`. */
    method InitLasersFlowInstance()
      modifies this
      ensures State() == old(State()).(lasers := [], canShoot := true)
    {
      lasers, canShoot := [], true;
    }

    /** `shootLaser()`; `nose`, `direction` and `speed` are the cos/sin
        results `createLaser` computes from the ship. */
    method ShootLaser(nose: Point, direction: Point, speed: real)
      requires 0.0 <= speed && speed * speed == NormSq(direction)
      modifies this
      ensures State() == LaserShot(old(State()), nose, direction, speed)
      ensures old(Valid()) ==> Valid()
    {
      if IsCanShoot(canShoot, lasers, detector) {
        ghost var before := State();
        lasers := lasers + [NewLaser(nose, direction, speed)];
        if StateOk(before, width, height) {
          LaserShotKeepsOk(before, nose, direction, speed, width, height);
        }
        DenyShooting();
      }
    }

    /** `allowShooting()`. */
    method AllowShooting()
      modifies this
      ensures State() == old(State()).(canShoot := true)
      ensures Valid() == old(Valid())
    {
      canShoot := true;
    }

    /** `denyShooting()`, also run on the shoot key's release. */
    method DenyShooting()
      modifies this
      ensures State() == old(State()).(canShoot := false)
      ensures Valid() == old(Valid())
    {
      canShoot := false;
    }

    /** `moveLasers()`. */
    method MoveLasers()
      modifies this
      ensures State() == old(State()).(lasers := MovedLasers(old(lasers), width as real, height as real))
    {
      var i := 0;
      while i < |lasers|
        invariant 0 <= i <= |lasers| == |old(lasers)|
        invariant State() == old(State()).(lasers := lasers)
        invariant forall j :: 0 <= j < i ==> lasers[j] == MoveLaser(old(lasers)[j], width as real, height as real)
        invariant forall j :: i <= j < |lasers| ==> lasers[j] == old(lasers)[j]
      {
        var l := lasers[i];
        if !l.isHit {
          var ahead := Point(l.center.x + l.direction.x, l.center.y + l.direction.y);
          lasers := lasers[i := l.(center := HandleEdgeOfScreen(ahead, l.radius, width as real, height as real))];
        }
        i := i + 1;
      }
    }

    /** `calculateLasersDistance()`. */
    method CalculateLasersDistance()
      modifies this
      ensures State() == old(State()).(lasers := TravelledLasers(old(lasers)))
    {
      var i := 0;
      while i < |lasers|
        invariant 0 <= i <= |lasers| == |old(lasers)|
        invariant State() == old(State()).(lasers := lasers)
        invariant forall j :: 0 <= j < i ==> lasers[j] == Travelled(old(lasers)[j])
        invariant forall j :: i <= j < |lasers| ==> lasers[j] == old(lasers)[j]
      {
        var l := lasers[i];
        lasers := lasers[i := l.(distance := l.distance + l.speed)];
        i := i + 1;
      }
    }

    /** `handleAllowShooting()`: re-arm once every laser is past BASE_SIZE;
        the first laser still within it leaves the flag alone. */
    method HandleAllowShooting()
      modifies this
      ensures State() == old(State()).(canShoot := old(canShoot) || AllPastBase(old(lasers)))
    {
      var i := 0;
      while i < |lasers|
        invariant 0 <= i <= |lasers|
        invariant forall j :: 0 <= j < i ==> lasers[j].distance > BaseSize
      {
        if lasers[i].distance <= BaseSize {
          return;
        }
        i := i + 1;
      }
      AllowShooting();
    }

    /** `filterLasersExisting()`: rebuild the flow from the in-range lasers. */
    method FilterLasersExisting()
      modifies this
      ensures State() == old(State()).(lasers := KeptInRange(old(lasers), width as real))
    {
      var temp := [];
      var i := 0;
      while i < |lasers|
        invariant 0 <= i <= |lasers|
        invariant State() == old(State())
        invariant temp == KeptInRange(lasers[..i], width as real)
      {
        KeptInRangeSnoc(lasers[..i], lasers[i], width as real);
        assert lasers[..i + 1] == lasers[..i] + [lasers[i]];
        if lasers[i].distance < LaserDistance * width as real {
          temp := temp + [lasers[i]];
        }
        i := i + 1;
      }
      assert lasers[..i] == lasers;
      lasers := temp;
    }

    /** The laser half of one iteration of `handleLasersHits()`. */
    method CountDownLaser(i: nat, collides: bool)
      requires i < |lasers|
      modifies this
      ensures State() == old(State()).(lasers := HitLasers(old(lasers), i, collides))
    {
      var laser := lasers[i];
      var removed := false;
      if laser.isHit {
        laser := laser.(time := laser.time - 1);
        if laser.time == 0 {
          lasers := lasers[..i] + lasers[i + 1..];
          removed := true;
        } else {
          lasers := lasers[i := laser];
        }
      }
      if collides {
        laser := laser.(isHit := true, time := ExplodeLaserTicks);
        if !removed {
          lasers := lasers[i := laser];
        }
      }
    }

    /** `handleLasersHits()`: the forward loop whose splice shifts the next
        laser into the slot just visited. */
    method HandleLasersHits(draws: nat -> DestructDraws)
      modifies this
      ensures var r := HitsFrom(old(lasers), old(belt), 0, level.number, draws);
        State() == old(State()).(lasers := r.0, belt := r.1)
    {
      var i := 0;
      while i < |lasers|
        invariant i <= |lasers| + 1
        invariant State() == old(State()).(lasers := lasers, belt := belt)
        invariant HitsFrom(lasers, belt, i, level.number, draws) == HitsFrom(old(lasers), old(belt), 0, level.number, draws)
        decreases |lasers| + 1 - i
      {
        HitsFromStep(lasers, belt, i, level.number, draws);
        var index := FindCollisionAsteroidIndex(belt, lasers[i].center, lasers[i].radius);
        CountDownLaser(i, index != -1);
        if index != -1 {
          DestructAsteroid(index, draws(i));
        }
        i := i + 1;
      }
    }

    // The level.

    /** `initLevelInstance()`. */
    method InitLevelInstance()
      modifies this
      ensures State() == old(State()).(level := FirstLevel())
    {
      level := FirstLevel();
    }

    /** `handlerNewLevelCreation()`. */
    method HandlerNewLevelCreation(spawn: nat -> SpawnDraws)
      requires belt == [] ==> SpawnsReady(ship.center, spawn, AsteroidsNumber + level.number + 1, width, height)
      modifies this
      ensures State() == LevelCreated(old(State()), spawn, width, height)
    {
      if |belt| == 0 {
        level := level.(number := level.number + 1, opacity := 1.0);
        InitAsteroidsBeltInstance(AsteroidsNumber + level.number, spawn);
      }
    }

    /** `updateLevelMessage()`. */
    method UpdateLevelMessage()
      modifies this
      ensures State() == LevelMessageUpdated(old(State()))
    {
      level := level.(message := LevelMessage + " " + Decimal(level.number + 1));
    }

    // The frame.

    /** `update()` without its drawing: level, asteroids, ship and modes,
        lasers. */
    method Update(input: TickInput)
      requires Valid() && TickReady(State(), input, width, height)
      modifies this
      ensures State() == Tick(old(State()), input, width, height)
      ensures Valid()
    {
      TickKeepsOk(State(), input, width, height);
      HandlerNewLevelCreation(input.spawn);
      UpdateLevelMessage();
      MoveAsteroids();
      HandleRocketShipPosition(input.accel);
      UpdateModesLogic(input.shipDestruct);
      MoveLasers();
      CalculateLasersDistance();
      HandleAllowShooting();
      FilterLasersExisting();
      HandleLasersHits(input.laserDestruct);
    }
  }
}
